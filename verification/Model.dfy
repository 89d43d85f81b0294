/** The rows of the two tables, the enumerations they use, and the clock.
    Times are integers in nanoseconds on one clock shared by the service and the database. */
module Model {
  datatype Option<+T> = None | Some(value: T)

  datatype Kind = DomainKind | UrlKind | IpKind | CidrKind
  datatype Status = Unverified | Verifying | Verified | Revoked
  datatype Source = CustomerSource | ProgramSource
  datatype Method = DnsTxt | HttpFile | MetaTag | Email | IpRegistry | ProgramMethod | ManualMethod
  datatype ScopeKind = RegistrableDomain | IpRange

  /** How one call to a store went: done, failed without effect, or done but reported as failed. */
  datatype Outcome = Done | Failed | Lost

  type Time = int

  const SECOND: Time := 1_000_000_000
  const HOUR: Time := 3600 * SECOND
  const DAY: Time := 24 * HOUR

  datatype Target = Target(
    id: nat,
    userId: int,
    kind: Kind,
    value: string,
    registrableDomain: Option<string>,
    status: Status,
    source: Source)

  /** The textual fields of the evidence document (`None` is SQL NULL). */
  type Evidence = Option<map<string, string>>

  datatype Authorization = Authorization(
    id: nat,
    targetId: nat,
    means: Method,
    token: string,
    scopeKind: ScopeKind,
    scopeValue: string,
    verifiedAt: Option<Time>,
    expiresAt: Option<Time>,
    evidence: Evidence,
    createdAt: Time)

  /** The filter of GetActiveAuthorizations: verified and not yet expired. */
  predicate Active(a: Authorization, now: Time) {
    && a.verifiedAt.Some?
    && (a.expiresAt.None? || a.expiresAt.value > now)
  }
}
