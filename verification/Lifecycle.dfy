/**
 * The service operations as interleaving programs. Each operation is a list of program points;
 * between two points it makes one repository call (or one local clock read), which may succeed,
 * fail without effect, or take effect and still be reported as failed.
 */
module Lifecycle {
  import opened Model
  import opened HostScope
  import opened Store

  const CHALLENGE_TTL: Time := 60 * DAY
  const ADMIN_MAX: Time := 365 * DAY
  const DEFAULT_ADMIN_DAYS: nat := 90

  /** Where a request stands, with the values it has read so far. */
  datatype Point =
    // CreateTarget
    | CreateInsert(userId: int, kind: Kind, raw: string)
    | CreateIssue(t: Target)
    // GetTarget
    | GetRead(userId: int, uid: nat)
    | GetAuth(t: Target)
    | GetIssue(t: Target)
    // TriggerVerification
    | VerifyRead(userId: int, uid: nat, how: Method)
    | VerifyAuth(t: Target, how: Method)
    | VerifyIssue(t: Target, how: Method)
    | VerifySwitch(t: Target, auth: Authorization, how: Method)
    | VerifyBegin(t: Target, auth: Authorization)
    | VerifyCheck(t: Target, auth: Authorization)
    | VerifyFailed(t: Target)
    | VerifyStamp(t: Target, auth: Authorization)
    | VerifyMark(t: Target, auth: Authorization, expires: Time)
    | VerifyDone(t: Target)
    // CreateProgramTarget
    | ProgramInsert(owner: int, kind: Kind, raw: string, days: nat, evidence: Evidence)
    | ProgramStamp(t: Target, days: nat, evidence: Evidence)
    | ProgramAuth(t: Target, stamp: Time, expires: Time, evidence: Evidence)
    | ProgramUndo(t: Target)
    // AuthorizeManually
    | ManualRead(uid: nat, days: nat, evidence: Evidence)
    | ManualStamp(t: Target, days: nat, evidence: Evidence)
    | ManualAuth(t: Target, stamp: Time, expires: Time, evidence: Evidence)
    | ManualMark(t: Target, auth: Authorization, expires: Time, evidence: Evidence)
    | ManualCreate(t: Target, stamp: Time, expires: Time, evidence: Evidence)
    | ManualDone(t: Target)
    // Revoke
    | RevokeRead(uid: nat)
    | RevokeExpire(t: Target)
    | RevokeDone(t: Target)
    // DeleteTarget and DeleteAny
    | DeleteOwn(userId: int, uid: nat)
    | DeleteRead(uid: nat)
    | DeleteRow(uid: nat)

  /** A token published on a host in one of the three ways. */
  datatype Publication = Publication(host: string, means: Method, token: string)

  /** Everything the environment decides about one step; `published` is what the probes find. */
  datatype Choice = Choice(outcome: Outcome, token: string, published: set<Publication>)

  /** The tables after a step and where the request continues, if it does. */
  datatype Effect = Effect(db: Db, next: Option<Point>)

  predicate KindAllowed(cfg: Config, kind: Kind) {
    (kind == IpKind || kind == CidrKind) ==> cfg.ipTargetsEnabled
  }

  function DefaultMethod(kind: Kind): Method {
    if kind == IpKind || kind == CidrKind then IpRegistry else DnsTxt
  }

  predicate IsChallenge(m: Method) {
    m == DnsTxt || m == HttpFile || m == MetaTag
  }

  /** The methods of the rows that administrators create. */
  predicate IsAdminMethod(m: Method) {
    m == ProgramMethod || m == ManualMethod
  }

  /** The method of the target's newest row is program or manual. */
  ghost predicate NewestHasAdminMethod(db: Db, uid: nat) {
    Latest(db, uid).Some? && IsAdminMethod(Latest(db, uid).value.means)
  }

  /** The target's newest row has not been verified yet. */
  ghost predicate NewestIsPending(db: Db, uid: nat) {
    Latest(db, uid).Some? && Latest(db, uid).value.verifiedAt.None?
  }

  function DaysOrDefault(days: nat): nat {
    if days == 0 then DEFAULT_ADMIN_DAYS else days
  }

  datatype CheckResult = Passed | NotPassed | CheckError

  /** What a probe for this row looks for. */
  function Sought(t: Target, auth: Authorization): Publication {
    Publication(NormalizeHost(t.value), auth.means, auth.token)
  }

  /** The dispatch of a check: a probe for a challenge method, no answer yet for the methods confirmed by hand. */
  function RunCheck(t: Target, auth: Authorization, published: set<Publication>): CheckResult {
    if IsChallenge(auth.means) then (if Sought(t, auth) in published then Passed else NotPassed)
    else if auth.means == Email || auth.means == IpRegistry then NotPassed
    else CheckError
  }

  // --- Drafts ---------------------------------------------------------------------------------------

  function ChallengeDraft(t: Target, m: Method, token: string): Draft {
    Draft(t.id, m, token, ScopeForTarget(t), None, None, None)
  }

  function AdminDraft(t: Target, m: Method, stamp: Time, expires: Time, evidence: Evidence): Draft {
    Draft(t.id, m, "", ScopeForTarget(t), Some(stamp), Some(expires), evidence)
  }

  // --- One step of each operation -------------------------------------------------------------------

  /** A statement without an answer: apply it unless the call failed, go on only when it is reported done. */
  function Write(db: Db, db': Db, o: Outcome, next: Option<Point>): Effect {
    match o
    case Done => Effect(db', next)
    case Failed => Effect(db, None)
    case Lost => Effect(db', None)
  }

  /** An insert of an authorization followed, on success, by the point chosen for the new row. */
  function Insert(db: Db, d: Draft, now: Time, o: Outcome, next: Authorization -> Option<Point>): Effect {
    var (db', a) := InsertAuth(db, d, now);
    Write(db, db', o, if a.Some? then next(a.value) else None)
  }

  function StepCreate(cfg: Config, db: Db, now: Time, p: Point, c: Choice): Effect
    requires CreatePoint(p)
  {
    match p
    case CreateInsert(userId, kind, raw) =>
      if !KindAllowed(cfg, kind) then Effect(db, None)
      else
        var (db', t) := InsertTarget(cfg.etld, db, userId, kind, raw, Unverified, CustomerSource);
        Write(db, db', c.outcome, if t.Some? then Some(CreateIssue(t.value)) else None)
    case CreateIssue(t) =>
      Insert(db, ChallengeDraft(t, DefaultMethod(t.kind), c.token), now, c.outcome, a => None)
  }

  ghost function StepGet(db: Db, now: Time, p: Point, c: Choice): Effect
    requires GetPoint(p)
  {
    match p
    case GetRead(userId, uid) =>
      var t := FindOwned(db, userId, uid);
      Effect(db, if c.outcome.Done? && t.Some? then Some(GetAuth(t.value)) else None)
    case GetAuth(t) =>
      var auth := if c.outcome.Done? then Latest(db, t.id) else None;
      Effect(db, if auth.None? && t.status != Verified && t.source != ProgramSource then Some(GetIssue(t)) else None)
    case GetIssue(t) =>
      Insert(db, ChallengeDraft(t, DefaultMethod(t.kind), c.token), now, c.outcome, a => None)
  }

  /** What TriggerVerification does with the newest row it read (`None` also for a failed read). */
  function AfterVerifyAuth(t: Target, how: Method, auth: Option<Authorization>): Option<Point> {
    if t.source == ProgramSource
       || (auth.Some? && IsAdminMethod(auth.value.means)) then None
    else if auth.None? then Some(VerifyIssue(t, how))
    else if how != auth.value.means && IsChallenge(how) && IsChallenge(auth.value.means) && auth.value.token != ""
    then Some(VerifySwitch(t, auth.value, how))
    else Some(VerifyBegin(t, auth.value))
  }

  predicate VerifyReading(p: Point) {
    p.VerifyRead? || p.VerifyAuth? || p.VerifyCheck? || p.VerifyStamp?
  }

  /** The points of TriggerVerification that read, check or take the time. */
  ghost function StepVerifyRead(db: Db, now: Time, p: Point, c: Choice): Effect
    requires VerifyReading(p)
  {
    match p
    case VerifyRead(userId, uid, how) =>
      var t := FindOwned(db, userId, uid);
      Effect(db, if c.outcome.Done? && t.Some? then Some(VerifyAuth(t.value, how)) else None)
    case VerifyAuth(t, how) =>
      Effect(db, AfterVerifyAuth(t, how, if c.outcome.Done? then Latest(db, t.id) else None))
    case VerifyCheck(t, auth) =>
      Effect(db, if RunCheck(t, auth, c.published).Passed? then Some(VerifyStamp(t, auth)) else Some(VerifyFailed(t)))
    case VerifyStamp(t, auth) =>
      Effect(db, Some(VerifyMark(t, auth, now + CHALLENGE_TTL)))
  }

  predicate VerifyInserting(p: Point) {
    p.VerifyIssue? || p.VerifySwitch?
  }

  /** The points of TriggerVerification that record a new challenge. */
  function StepVerifyInsert(db: Db, now: Time, p: Point, c: Choice): Effect
    requires VerifyInserting(p)
  {
    var token := if p.VerifyIssue? then c.token else p.auth.token;
    Insert(db, ChallengeDraft(p.t, p.how, token), now, c.outcome, a => Some(VerifyBegin(p.t, a)))
  }

  predicate VerifyWriting(p: Point) {
    p.VerifyBegin? || p.VerifyFailed? || p.VerifyDone?
  }

  /** The points of TriggerVerification that write the status. */
  function StepVerifyStatus(db: Db, p: Point, c: Choice): Effect
    requires VerifyWriting(p)
  {
    match p
    case VerifyBegin(t, auth) =>
      Write(db, SetStatus(db, t.id, Verifying), c.outcome, Some(VerifyCheck(t, auth)))
    case VerifyFailed(t) =>
      Write(db, SetStatus(db, t.id, Unverified), c.outcome, None)
    case VerifyDone(t) =>
      Write(db, SetStatus(db, t.id, Verified), c.outcome, None)
  }

  /** The point of TriggerVerification that marks the proven row. */
  function StepVerifyMark(db: Db, now: Time, p: Point, c: Choice): Effect
    requires p.VerifyMark?
  {
    Write(db, MarkVerified(db, p.auth.id, p.expires, None, now), c.outcome, Some(VerifyDone(p.t)))
  }

  function StepProgram(cfg: Config, db: Db, now: Time, p: Point, c: Choice): Effect
    requires ProgramPoint(p)
  {
    match p
    case ProgramInsert(owner, kind, raw, days, evidence) =>
      if !KindAllowed(cfg, kind) then Effect(db, None)
      else
        var (db', t) := InsertTarget(cfg.etld, db, owner, kind, raw, Verified, ProgramSource);
        Write(db, db', c.outcome, if t.Some? then Some(ProgramStamp(t.value, DaysOrDefault(days), evidence)) else None)
    case ProgramStamp(t, days, evidence) =>
      Effect(db, Some(ProgramAuth(t, now, now + days * DAY, evidence)))
    case ProgramAuth(t, stamp, expires, evidence) =>
      var (db', a) := InsertAuth(db, AdminDraft(t, ProgramMethod, stamp, expires, evidence), now);
      if c.outcome.Done? && a.Some? then Effect(db', None)
      else Effect(if c.outcome.Failed? then db else db', Some(ProgramUndo(t)))
    case ProgramUndo(t) =>
      Write(db, DeleteTarget(db, t.id), c.outcome, None)
  }

  predicate ManualReading(p: Point) {
    p.ManualRead? || p.ManualStamp? || p.ManualAuth?
  }

  ghost function StepManualRead(cfg: Config, db: Db, now: Time, p: Point, c: Choice): Effect
    requires ManualReading(p)
  {
    match p
    case ManualRead(uid, days, evidence) =>
      var t := FindTarget(db, uid);
      Effect(db, if c.outcome.Done? && t.Some? && KindAllowed(cfg, t.value.kind)
                 then Some(ManualStamp(t.value, DaysOrDefault(days), evidence)) else None)
    case ManualStamp(t, days, evidence) =>
      Effect(db, Some(ManualAuth(t, now, now + days * DAY, evidence)))
    case ManualAuth(t, stamp, expires, evidence) =>
      var auth := if c.outcome.Done? then Latest(db, t.id) else None;
      Effect(db, if auth.Some? && auth.value.verifiedAt.None?
                 then Some(ManualMark(t, auth.value, expires, evidence))
                 else Some(ManualCreate(t, stamp, expires, evidence)))
  }

  predicate ManualWriting(p: Point) {
    p.ManualMark? || p.ManualCreate? || p.ManualDone?
  }

  function StepManualWrite(db: Db, now: Time, p: Point, c: Choice): Effect
    requires ManualWriting(p)
  {
    match p
    case ManualMark(t, auth, expires, evidence) =>
      Write(db, MarkVerified(db, auth.id, expires, evidence, now), c.outcome, Some(ManualDone(t)))
    case ManualCreate(t, stamp, expires, evidence) =>
      Insert(db, AdminDraft(t, ManualMethod, stamp, expires, evidence), now, c.outcome, a => Some(ManualDone(t)))
    case ManualDone(t) =>
      Write(db, SetStatus(db, t.id, Verified), c.outcome, None)
  }

  function StepRemove(db: Db, now: Time, p: Point, c: Choice): Effect
    requires RemovePoint(p)
  {
    match p
    case RevokeRead(uid) =>
      var t := FindTarget(db, uid);
      Effect(db, if c.outcome.Done? && t.Some? then Some(RevokeExpire(t.value)) else None)
    case RevokeExpire(t) =>
      Write(db, ExpireActive(db, t.id, now), c.outcome, Some(RevokeDone(t)))
    case RevokeDone(t) =>
      Write(db, SetStatus(db, t.id, Revoked), c.outcome, None)
    case DeleteOwn(userId, uid) =>
      Write(db, DeleteOwned(db, userId, uid), c.outcome, None)
    case DeleteRead(uid) =>
      Effect(db, if c.outcome.Done? && FindTarget(db, uid).Some? then Some(DeleteRow(uid)) else None)
    case DeleteRow(uid) =>
      Write(db, DeleteTarget(db, uid), c.outcome, None)
  }

  predicate CreatePoint(p: Point) { p.CreateInsert? || p.CreateIssue? }

  predicate GetPoint(p: Point) { p.GetRead? || p.GetAuth? || p.GetIssue? }

  predicate ProgramPoint(p: Point) { p.ProgramInsert? || p.ProgramStamp? || p.ProgramAuth? || p.ProgramUndo? }

  predicate RemovePoint(p: Point) {
    p.RevokeRead? || p.RevokeExpire? || p.RevokeDone? || p.DeleteOwn? || p.DeleteRead? || p.DeleteRow?
  }

  /** One step of a request. */
  ghost function StepPoint(cfg: Config, db: Db, now: Time, p: Point, c: Choice): Effect {
    if CreatePoint(p) then StepCreate(cfg, db, now, p, c)
    else if GetPoint(p) then StepGet(db, now, p, c)
    else if VerifyReading(p) then StepVerifyRead(db, now, p, c)
    else if VerifyInserting(p) then StepVerifyInsert(db, now, p, c)
    else if VerifyWriting(p) then StepVerifyStatus(db, p, c)
    else if p.VerifyMark? then StepVerifyMark(db, now, p, c)
    else if ProgramPoint(p) then StepProgram(cfg, db, now, p, c)
    else if ManualReading(p) then StepManualRead(cfg, db, now, p, c)
    else if ManualWriting(p) then StepManualWrite(db, now, p, c)
    else StepRemove(db, now, p, c)
  }

  /** How a request may begin, after request validation. */
  predicate Initial(p: Point) {
    match p
    case CreateInsert(_, _, _) => true
    case GetRead(_, _) => true
    case VerifyRead(_, _, how) => how != ProgramMethod && how != ManualMethod
    case ProgramInsert(_, _, _, days, _) => days <= 365
    case ManualRead(_, days, _) => days <= 365
    case RevokeRead(_) => true
    case DeleteOwn(_, _) => true
    case DeleteRead(_) => true
    case _ => false
  }

  // --- The system -----------------------------------------------------------------------------------

  /**
   * The tables, the clock and the requests in flight. `stranded` records the program targets whose
   * creation broke off between its two inserts without a completed compensation.
   */
  datatype State = State(db: Db, now: Time, requests: map<nat, Point>, stranded: set<nat>)

  datatype Step =
    | Tick(elapsed: nat)
    | Begin(r: nat, p: Point)
    | Run(r: nat, c: Choice)
    | Crash(r: nat)

  const START := State(EMPTY_DB, 0, map[], {})

  /** Program points at which a program target exists but its authorization may not. */
  predicate Creating(p: Point) {
    p.ProgramStamp? || p.ProgramAuth? || p.ProgramUndo?
  }

  /** The target that a breaking step leaves without compensation. */
  ghost function Strands(db: Db, p: Point, e: Effect): set<nat> {
    if p.ProgramUndo? && p.t.id in e.db.targets then {p.t.id}
    else if p.ProgramInsert? && e.next.None? && e.db.nextTarget > db.nextTarget then {db.nextTarget}
    else {}
  }

  /** The next state; a step that is not possible changes nothing. */
  ghost function Apply(cfg: Config, s: State, step: Step): State {
    match step
    case Tick(d) => s.(now := s.now + d)
    case Begin(r, p) => if r in s.requests || !Initial(p) then s else s.(requests := s.requests[r := p])
    case Crash(r) =>
      if r !in s.requests then s
      else
        var p := s.requests[r];
        s.(requests := s.requests - {r}, stranded := s.stranded + (if Creating(p) then {p.t.id} else {}))
    case Run(r, c) =>
      if r !in s.requests then s
      else
        var p := s.requests[r];
        var e := StepPoint(cfg, s.db, s.now, p, c);
        State(e.db, s.now,
              match e.next { case Some(q) => s.requests[r := q] case None => s.requests - {r} },
              s.stranded + Strands(s.db, p, e))
  }

  /** The state after a whole schedule, from the empty store. */
  ghost function Exec(cfg: Config, steps: seq<Step>): State {
    if steps == [] then START
    else Apply(cfg, Exec(cfg, steps[..|steps| - 1]), steps[|steps| - 1])
  }
}
