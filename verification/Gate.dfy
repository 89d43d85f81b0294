/** The authorization gate: CheckScope, CheckVerified and what their answers mean. */
module Gate {
  import opened Model
  import opened Text
  import opened Domains
  import opened Program

  datatype Request = Request(
    host: string,
    ip: string,
    phase: string,
    intrusive: Option<bool>,
    layer: string,
    attested: Option<bool>)
  {
    /** Absent means intrusive. */
    predicate IsIntrusive() { intrusive.None? || intrusive.value }

    /** Anything but "application" is network layer. */
    predicate IsNetworkLayer() { layer != "application" }

    function QueryHost(): string { ToLower(TrimSpace(host)) }

    function QueryIP(): string { TrimSpace(ip) }
  }

  datatype Resolution = Resolved(ips: seq<IP>) | DeniedAddress | ResolveFailed

  /** The two reads of the program store, each by platform and handle; `None` for any failure. */
  datatype Programs = Programs(
    policy: (string, string) -> Option<Policy>,
    assets: (string, string) -> Option<seq<Asset>>)

  /** Everything outside the two tables that the gate consults. */
  datatype World = World(
    net: Net,
    resolve: string -> Resolution,
    programs: Option<Programs>,
    ipTargetsEnabled: bool,
    now: Time)

  /** An answer, or the error returned when the authorizations cannot be read. */
  datatype Answer = Answer(response: Response) | Outage

  // --- Entry checks ---------------------------------------------------------------------------------

  predicate IsAuthPhase(phase: string) { HasPrefix(phase, "auth_") }

  predicate IsKnownAuthPhase(phase: string) {
    phase == "auth_register" || phase == "auth_crawl" || phase == "auth_account_mgmt"
  }

  function AuthScanVerdict(phase: string, verified: bool, attested: Option<bool>): Option<Reason> {
    if !IsAuthPhase(phase) then None
    else if !IsKnownAuthPhase(phase) then Some(UnknownAuthPhase)
    else if !verified then Some(UnverifiedForAuthScan)
    else if attested.None? || !attested.value then Some(AttestationMissing)
    else None
  }

  /** The refusals made before the authorizations are read. */
  function EntryRefusal(req: Request, target: Option<Target>): Option<Reason> {
    if req.host == "" && req.ip == "" then Some(HostOrIpRequired)
    else if target.None? then Some(TargetNotFound)
    else
      var verified := target.value.status == Verified;
      var v := AuthScanVerdict(req.phase, verified, req.attested);
      if v.Some? then v
      else if !verified then Some(TargetNotVerified)
      else None
  }

  // --- Vetting addresses ----------------------------------------------------------------------------

  /** The refusals for a directly supplied address. */
  function IpRefusal(w: World, req: Request): Option<Reason> {
    var q := req.QueryIP();
    if q == "" then None
    else
      var ip := w.net.parseIP(q);
      if ip.None? then Some(InvalidIp)
      else if w.net.denied(ip.value) then Some(ReservedIp)
      else if req.IsIntrusive() && w.net.shared(ip.value) then Some(SharedInfraIp)
      else if !w.ipTargetsEnabled then Some(IpTargetsDisabled)
      else None
  }

  predicate SharedAnswer(w: World, ips: seq<IP>) {
    exists i :: 0 <= i < |ips| && w.net.shared(ips[i])
  }

  /** The refusals for the addresses a host resolves to. */
  function HostRefusal(w: World, req: Request): Option<Reason> {
    var h := req.QueryHost();
    if h == "" then None
    else match w.resolve(h)
      case DeniedAddress => Some(ReservedAnswer)
      case ResolveFailed => Some(Unresolvable)
      case Resolved(ips) =>
        if req.IsIntrusive() && req.IsNetworkLayer() && SharedAnswer(w, ips) then Some(SharedInfraAnswer) else None
  }

  function Shown(net: Net, ips: seq<IP>): (r: seq<string>)
    ensures |r| == |ips|
  {
    seq(|ips|, i requires 0 <= i < |ips| => net.showIP(ips[i]))
  }

  /** The addresses the caller must pin to: the given one, then the host's answers in order. */
  function Pinned(w: World, req: Request): seq<string> {
    var ip := w.net.parseIP(req.QueryIP());
    var answers := w.resolve(req.QueryHost());
    (if req.QueryIP() != "" && ip.Some? then [w.net.showIP(ip.value)] else [])
    + (if req.QueryHost() != "" && answers.Resolved? then Shown(w.net, answers.ips) else [])
  }

  // --- Authorization rows ---------------------------------------------------------------------------

  /** The platform and handle that link a program authorization to a stored policy. */
  function ProgramHandle(a: Authorization): Option<(string, string)> {
    if a.means != ProgramMethod || a.evidence.None? then None
    else
      var ev := a.evidence.value;
      var h := TrimSpace(if "handle" in ev then ev["handle"] else "");
      if h == "" then None
      else Some((TrimSpace(if "platform" in ev then ev["platform"] else ""), h))
  }

  predicate Linked(w: World, a: Authorization) {
    w.programs.Some? && ProgramHandle(a).Some?
  }

  /** The policy that governs a linked row; `None` when it cannot be loaded. */
  function LinkedPolicy(w: World, a: Authorization): Option<(Policy, seq<Asset>)>
    requires Linked(w, a)
  {
    var key := ProgramHandle(a).value;
    var policy := w.programs.value.policy(key.0, key.1);
    var assets := w.programs.value.assets(key.0, key.1);
    if policy.Some? && assets.Some? then Some((policy.value, assets.value)) else None
  }

  function LinkedVerdict(w: World, req: Request, a: Authorization): Response
    requires Linked(w, a)
  {
    match LinkedPolicy(w, a)
    case None => Verdict(w.net, None, [], req.QueryHost(), req.QueryIP(), req.phase, w.now)
    case Some(pa) => Verdict(w.net, Some(pa.0), pa.1, req.QueryHost(), req.QueryIP(), req.phase, w.now)
  }

  /** A row that is not linked covers the request by its own scope. */
  predicate ScopeMatches(w: World, req: Request, a: Authorization) {
    match a.scopeKind
    case RegistrableDomain => req.QueryHost() != "" && IsSubdomainOf(req.QueryHost(), a.scopeValue)
    case IpRange =>
      var q := req.QueryIP();
      var ip := w.net.parseIP(q);
      && w.ipTargetsEnabled && q != ""
      && ((ip.Some? && w.net.cidrContains(a.scopeValue, ip.value)) || a.scopeValue == q)
  }

  /** The row settles the request, one way or the other. */
  predicate Decisive(w: World, req: Request, a: Authorization) {
    Linked(w, a) || ScopeMatches(w, req, a)
  }

  /** The row grants the request. */
  predicate Grants(w: World, req: Request, a: Authorization) {
    if Linked(w, a) then LinkedVerdict(w, req, a).authorized else ScopeMatches(w, req, a)
  }

  function RowResponse(w: World, req: Request, a: Authorization): Response
    requires Decisive(w, req, a)
  {
    if Linked(w, a) then LinkedVerdict(w, req, a)
    else Allow(if a.scopeKind == RegistrableDomain then DomainScopeMatches else IpScopeMatches)
  }

  /** The first decisive row answers; without one the request is refused. */
  function RowsResponse(w: World, req: Request, rows: seq<Authorization>): Response {
    if rows == [] then Deny(NotInAnyScope)
    else if Decisive(w, req, rows[0]) then RowResponse(w, req, rows[0])
    else RowsResponse(w, req, rows[1..])
  }

  function WithPins(r: Response, pins: seq<string>): Response {
    if r.authorized then r.(allowedIPs := pins) else r
  }

  /** The gate as one function of what it reads. */
  function Decide(w: World, req: Request, target: Option<Target>, rows: Option<seq<Authorization>>): Answer {
    var entry := EntryRefusal(req, target);
    if entry.Some? then Answer(Deny(entry.value))
    else if rows.None? then Outage
    else if rows.value == [] then Answer(Deny(NoActiveAuthorization))
    else if IpRefusal(w, req).Some? then Answer(Deny(IpRefusal(w, req).value))
    else if HostRefusal(w, req).Some? then Answer(Deny(HostRefusal(w, req).value))
    else Answer(WithPins(RowsResponse(w, req, rows.value), Pinned(w, req)))
  }

  /** Loads the policy of one row and judges it; `None` for a row that is not linked. */
  method ResolveProgramAuth(w: World, req: Request, a: Authorization) returns (r: Option<Response>)
    ensures r.Some? <==> Linked(w, a)
    ensures r.Some? ==> r.value == LinkedVerdict(w, req, a)
  {
    var key := ProgramHandle(a);
    if key.None? || w.programs.None? { return None; }
    var program := w.programs.value.policy(key.value.0, key.value.1);
    var assets: Option<seq<Asset>> := None;
    if program.Some? { assets := w.programs.value.assets(key.value.0, key.value.1); }
    var v;
    if assets.None? {
      v := ProgramVerdict(w.net, None, [], req.QueryHost(), req.QueryIP(), req.phase, w.now);
    } else {
      v := ProgramVerdict(w.net, program, assets.value, req.QueryHost(), req.QueryIP(), req.phase, w.now);
    }
    r := Some(v);
  }

  /** Vets every answer of the host and collects the addresses to pin. */
  method VetHost(w: World, req: Request, pins: seq<string>) returns (refusal: Option<Reason>, pinned: seq<string>)
    ensures refusal == HostRefusal(w, req)
    ensures refusal.None? ==>
              pinned == pins + (if req.QueryHost() != "" then Shown(w.net, w.resolve(req.QueryHost()).ips) else [])
  {
    pinned := pins;
    var host := req.QueryHost();
    if host == "" { return None, pinned; }
    match w.resolve(host) {
      case DeniedAddress => return Some(ReservedAnswer), pinned;
      case ResolveFailed => return Some(Unresolvable), pinned;
      case Resolved(ips) =>
        var sharedDenied := req.IsIntrusive() && req.IsNetworkLayer();
        for i := 0 to |ips|
          invariant pinned == pins + Shown(w.net, ips)[..i]
          invariant sharedDenied ==> forall j :: 0 <= j < i ==> !w.net.shared(ips[j])
        {
          if sharedDenied && w.net.shared(ips[i]) { return Some(SharedInfraAnswer), pinned; }
          pinned := pinned + [w.net.showIP(ips[i])];
        }
        refusal := None;
    }
  }

  lemma SkipRow(w: World, req: Request, rows: seq<Authorization>, i: nat)
    requires i < |rows|
    ensures RowsResponse(w, req, rows[i..]) ==
            if Decisive(w, req, rows[i]) then RowResponse(w, req, rows[i]) else RowsResponse(w, req, rows[i + 1..])
  {
    assert rows[i..][0] == rows[i] && rows[i..][1..] == rows[i + 1..];
  }

  /** The gate as the service runs it: early refusals, the answer loop, then the row loop. */
  method CheckScope(w: World, req: Request, target: Option<Target>, rows: Option<seq<Authorization>>)
    returns (r: Answer)
    ensures r == Decide(w, req, target, rows)
  {
    if req.host == "" && req.ip == "" { return Answer(Deny(HostOrIpRequired)); }
    if target.None? { return Answer(Deny(TargetNotFound)); }
    var authScan := AuthScanVerdict(req.phase, target.value.status == Verified, req.attested);
    if authScan.Some? { return Answer(Deny(authScan.value)); }
    if target.value.status != Verified { return Answer(Deny(TargetNotVerified)); }
    if rows.None? { return Outage; }
    var auths := rows.value;
    if |auths| == 0 { return Answer(Deny(NoActiveAuthorization)); }

    var pinned := [];
    var queryIP := req.QueryIP();
    if queryIP != "" {
      var ip := w.net.parseIP(queryIP);
      if ip.None? { return Answer(Deny(InvalidIp)); }
      if w.net.denied(ip.value) { return Answer(Deny(ReservedIp)); }
      if req.IsIntrusive() && w.net.shared(ip.value) { return Answer(Deny(SharedInfraIp)); }
      if !w.ipTargetsEnabled { return Answer(Deny(IpTargetsDisabled)); }
      pinned := [w.net.showIP(ip.value)];
    }
    var refusal;
    refusal, pinned := VetHost(w, req, pinned);
    if refusal.Some? { return Answer(Deny(refusal.value)); }
    assert pinned == Pinned(w, req);

    for i := 0 to |auths|
      invariant RowsResponse(w, req, auths) == RowsResponse(w, req, auths[i..])
    {
      var a := auths[i];
      SkipRow(w, req, auths, i);
      var linked := ResolveProgramAuth(w, req, a);
      if linked.Some? { return Answer(WithPins(linked.value, pinned)); }
      match a.scopeKind {
        case RegistrableDomain =>
          if req.QueryHost() != "" && IsSubdomainOf(req.QueryHost(), a.scopeValue) {
            return Answer(Allow(DomainScopeMatches).(allowedIPs := pinned));
          }
        case IpRange =>
          if w.ipTargetsEnabled && queryIP != "" {
            var ip := w.net.parseIP(queryIP);
            if ip.Some? && w.net.cidrContains(a.scopeValue, ip.value) {
              return Answer(Allow(IpScopeMatches).(allowedIPs := pinned));
            }
            if a.scopeValue == queryIP {
              return Answer(Allow(IpScopeMatches).(allowedIPs := pinned));
            }
          }
      }
    }
    r := Answer(Deny(NotInAnyScope));
  }

  // --- Declarative meaning --------------------------------------------------------------------------

  predicate Authorized(w: World, req: Request, target: Option<Target>, rows: Option<seq<Authorization>>) {
    var r := Decide(w, req, target, rows);
    r.Answer? && r.response.authorized
  }

  /** Row `k` is the first that is linked or matches. */
  predicate FirstDecisive(w: World, req: Request, rows: seq<Authorization>, k: int) {
    && 0 <= k < |rows| && Decisive(w, req, rows[k])
    && forall j :: 0 <= j < k ==> !Decisive(w, req, rows[j])
  }

  /** The request names something, the target is verified, and auth phases are attested. */
  predicate EntryOk(req: Request, target: Option<Target>) {
    && (req.host != "" || req.ip != "")
    && target.Some? && target.value.status == Verified
    && ("auth_" <= req.phase ==>
          req.phase in ["auth_register", "auth_crawl", "auth_account_mgmt"] && req.attested == Some(true))
  }

  /** A supplied address is well-formed, public, not shared for intrusive use, and supported. */
  predicate IpOk(w: World, req: Request) {
    req.QueryIP() != "" ==>
      var ip := w.net.parseIP(req.QueryIP());
      && w.ipTargetsEnabled && ip.Some? && !w.net.denied(ip.value)
      && !(req.IsIntrusive() && w.net.shared(ip.value))
  }

  /** A supplied host resolves, and not to shared addresses for intrusive network-layer use. */
  predicate HostOk(w: World, req: Request) {
    req.QueryHost() != "" ==>
      var answers := w.resolve(req.QueryHost());
      && answers.Resolved?
      && !(req.IsIntrusive() && req.IsNetworkLayer() && SharedAnswer(w, answers.ips))
  }

  /** Every condition an authorization rests on. */
  ghost predicate Entitled(w: World, req: Request, target: Option<Target>, rows: Option<seq<Authorization>>) {
    && EntryOk(req, target) && rows.Some? && IpOk(w, req) && HostOk(w, req)
    && exists k :: FirstDecisive(w, req, rows.value, k) && Grants(w, req, rows.value[k])
  }

  lemma RefusalsMean(w: World, req: Request, target: Option<Target>)
    ensures EntryRefusal(req, target).None? <==> EntryOk(req, target)
    ensures IpRefusal(w, req).None? <==> IpOk(w, req)
    ensures HostRefusal(w, req).None? <==> HostOk(w, req)
  {
  }

  lemma {:induction false} RowsByFirst(w: World, req: Request, rows: seq<Authorization>)
    ensures RowsResponse(w, req, rows).authorized <==>
            exists k :: FirstDecisive(w, req, rows, k) && Grants(w, req, rows[k])
    ensures RowsResponse(w, req, rows).allowedIPs == []
  {
    if rows != [] {
      if Decisive(w, req, rows[0]) {
        assert FirstDecisive(w, req, rows, 0);
      } else {
        var rest := rows[1..];
        RowsByFirst(w, req, rest);
        if k :| FirstDecisive(w, req, rest, k) && Grants(w, req, rest[k]) {
          assert FirstDecisive(w, req, rows, k + 1) && rows[k + 1] == rest[k];
        }
        if k :| FirstDecisive(w, req, rows, k) && Grants(w, req, rows[k]) {
          assert FirstDecisive(w, req, rest, k - 1) && rows[k] == rest[k - 1];
        }
      }
    }
  }

  /**
   * The gate refines its declarative verdict. An error is returned only when the rows cannot be
   * read; the addresses to pin are exactly the vetted ones on an allow and none on a denial.
   */
  lemma DecideMeans(w: World, req: Request, target: Option<Target>, rows: Option<seq<Authorization>>)
    ensures Authorized(w, req, target, rows) <==> Entitled(w, req, target, rows)
    ensures Decide(w, req, target, rows).Outage? <==> EntryRefusal(req, target).None? && rows.None?
    ensures var r := Decide(w, req, target, rows);
            r.Answer? ==> r.response.allowedIPs == if r.response.authorized then Pinned(w, req) else []
  {
    RefusalsMean(w, req, target);
    if rows.Some? { RowsByFirst(w, req, rows.value); }
  }

  /** Assumed of the strict resolver: an answer is non-empty and holds no reserved address. */
  ghost predicate StrictResolver(w: World) {
    forall h :: w.resolve(h).Resolved? ==>
      w.resolve(h).ips != [] && forall ip :: ip in w.resolve(h).ips ==> !w.net.denied(ip)
  }

  /**
   * An allowed request is pinned to the address it gives, if any, and then to all answers of its host,
   * if it names one, in order; there is at least one, and none of them is reserved.
   */
  lemma AllowPinsVettedAnswers(w: World, req: Request, target: Option<Target>, rows: Option<seq<Authorization>>)
    requires StrictResolver(w) && Authorized(w, req, target, rows)
    ensures var h, q := ToLower(TrimSpace(req.host)), TrimSpace(req.ip);
            var pins := Decide(w, req, target, rows).response.allowedIPs;
            && (q != "" ==>
                  w.ipTargetsEnabled && w.net.parseIP(q).Some? && !w.net.denied(w.net.parseIP(q).value))
            && (h != "" ==> w.resolve(h).Resolved? && w.resolve(h).ips != []
                            && forall ip :: ip in w.resolve(h).ips ==> !w.net.denied(ip))
            && pins != []
            && pins == (if q != "" then [w.net.showIP(w.net.parseIP(q).value)] else [])
                       + (if h != "" then Shown(w.net, w.resolve(h).ips) else [])
  {
    DecideMeans(w, req, target, rows);
    if req.QueryHost() == "" && req.QueryIP() == "" { BlankNeverAllowed(w, req, target, rows); }
    if req.QueryHost() != "" { assert |Shown(w.net, w.resolve(req.QueryHost()).ips)| > 0; }
    assert |Decide(w, req, target, rows).response.allowedIPs| > 0;
  }

  lemma BlankRowNeverGrants(w: World, req: Request, a: Authorization)
    requires req.QueryHost() == "" && req.QueryIP() == ""
    ensures !Grants(w, req, a)
  {
    assert ToLower("") == "" && TrimSpace("") == "";
  }

  /** A request whose host and address are both blank is never allowed. */
  lemma BlankNeverAllowed(w: World, req: Request, target: Option<Target>, rows: Option<seq<Authorization>>)
    requires req.QueryHost() == "" && req.QueryIP() == ""
    ensures !Authorized(w, req, target, rows)
  {
    DecideMeans(w, req, target, rows);
    forall a { BlankRowNeverGrants(w, req, a); }
  }

  /** A linked row whose policy cannot be loaded denies as soon as it is the first decisive row. */
  lemma UnloadablePolicyDenies(w: World, req: Request, target: Option<Target>, rows: seq<Authorization>, k: nat)
    requires FirstDecisive(w, req, rows, k) && Linked(w, rows[k]) && LinkedPolicy(w, rows[k]).None?
    ensures !Authorized(w, req, target, Some(rows))
  {
    DecideMeans(w, req, target, Some(rows));
    assert forall j :: FirstDecisive(w, req, rows, j) ==> j == k;
  }

  /**
   * When a row grants. A program row whose evidence has a handle, while there is a program store: if
   * that program's policy and assets can be loaded and permit the request. Any other row: if the labels
   * of its domain are the last labels of the host, or, while address targets are enabled, if its range
   * contains or is the address.
   */
  lemma RowGrants(w: World, req: Request, a: Authorization)
    ensures var h, q := ToLower(TrimSpace(req.host)), TrimSpace(req.ip);
            var ev := if a.means == ProgramMethod && a.evidence.Some? then a.evidence.value else map[];
            var handle := TrimSpace(if "handle" in ev then ev["handle"] else "");
            var platform := TrimSpace(if "platform" in ev then ev["platform"] else "");
            if w.programs.Some? && handle != ""
            then
              var policy, assets := w.programs.value.policy(platform, handle), w.programs.value.assets(platform,
                  handle);
              Grants(w, req, a) <==>
                && policy.Some? && assets.Some?
                && Permits(w.net, policy, assets.value, h, q, req.phase, w.now)
            else if a.scopeKind == RegistrableDomain
            then Grants(w, req, a) <==> h != "" && LabelSuffix(ToLower(a.scopeValue), h)
            else Grants(w, req, a) <==>
                   && w.ipTargetsEnabled && q != ""
                   && (a.scopeValue == q
                       || (w.net.parseIP(q).Some? && w.net.cidrContains(a.scopeValue, w.net.parseIP(q).value)))
  {
    hide Permits, LabelSuffix;
    var h := ToLower(TrimSpace(req.host));
    ToLowerIdempotent(TrimSpace(req.host));
    SubdomainIsLabelWise(h, a.scopeValue);
    assert TrimSpace("") == "";
    NoPolicyPermitsNothing(w.net, [], h, req.QueryIP(), req.phase, w.now);
  }

  lemma NoPolicyPermitsNothing(net: Net, assets: seq<Asset>, host: string, ip: string, phase: string, now: Time)
    ensures !Permits(net, None, assets, host, ip, phase, now)
  {
  }

  // --- The order of the rows ------------------------------------------------------------------------

  /** The database may return the rows in any order. */
  ghost predicate Reordering(xs: seq<Authorization>, ys: seq<Authorization>) {
    multiset(xs) == multiset(ys)
  }

  ghost predicate AllOrdersAgree(w: World, req: Request, target: Option<Target>, rows: seq<Authorization>) {
    forall ys | Reordering(rows, ys) ::
      Authorized(w, req, target, Some(ys)) == Authorized(w, req, target, Some(rows))
  }

  /** All rows that settle the request settle it the same way. */
  predicate DecisiveRowsAgree(w: World, req: Request, rows: seq<Authorization>) {
    forall a, b :: a in rows && b in rows && Decisive(w, req, a) && Decisive(w, req, b) ==>
      (Grants(w, req, a) <==> Grants(w, req, b))
  }

  /** The conditions that do not depend on the rows. */
  predicate RowsConsulted(w: World, req: Request, target: Option<Target>) {
    EntryRefusal(req, target).None? && IpRefusal(w, req).None? && HostRefusal(w, req).None?
  }

  lemma ReorderingHasSameRows(xs: seq<Authorization>, ys: seq<Authorization>)
    requires Reordering(xs, ys)
    ensures forall a :: a in xs <==> a in ys
  {
    assert forall a :: a in xs <==> a in multiset(xs);
    assert forall a :: a in ys <==> a in multiset(ys);
  }

  lemma {:induction false} FirstExists(w: World, req: Request, rows: seq<Authorization>, a: Authorization)
    requires a in rows && Decisive(w, req, a)
    ensures exists k :: FirstDecisive(w, req, rows, k)
  {
    if Decisive(w, req, rows[0]) {
      assert FirstDecisive(w, req, rows, 0);
    } else {
      FirstExists(w, req, rows[1..], a);
      var k :| FirstDecisive(w, req, rows[1..], k);
      assert FirstDecisive(w, req, rows, k + 1);
    }
  }

  /** When all decisive rows agree, one granting row anywhere decides. */
  lemma AgreementDecides(w: World, req: Request, rows: seq<Authorization>)
    requires DecisiveRowsAgree(w, req, rows)
    ensures RowsResponse(w, req, rows).authorized <==>
            exists a :: a in rows && Decisive(w, req, a) && Grants(w, req, a)
  {
    RowsByFirst(w, req, rows);
    if a :| a in rows && Decisive(w, req, a) && Grants(w, req, a) {
      FirstExists(w, req, rows, a);
      var k :| FirstDecisive(w, req, rows, k);
      assert rows[k] in rows;
    }
  }

  /** Moving a row to the front is a reordering that lets it answer. */
  lemma FrontRow(w: World, req: Request, rows: seq<Authorization>, a: Authorization) returns (ys: seq<Authorization>)
    requires a in rows && Decisive(w, req, a)
    ensures Reordering(rows, ys)
    ensures RowsResponse(w, req, ys).authorized == Grants(w, req, a)
  {
    var i :| 0 <= i < |rows| && rows[i] == a;
    ys := [a] + (rows[..i] + rows[i + 1..]);
    assert rows == rows[..i] + [a] + rows[i + 1..];
    assert ys[0] == a;
  }

  lemma ConsultedDecide(w: World, req: Request, target: Option<Target>, rows: seq<Authorization>)
    requires RowsConsulted(w, req, target)
    ensures Authorized(w, req, target, Some(rows)) == RowsResponse(w, req, rows).authorized
  {
  }

  /**
   * The authorized bit is independent of the order in which the database returns the rows exactly
   * when all rows that settle the request agree. A mix of a granting and a refusing row is decided
   * by whichever comes first.
   */
  lemma OrderIndependence(w: World, req: Request, target: Option<Target>, rows: seq<Authorization>)
    requires RowsConsulted(w, req, target)
    ensures AllOrdersAgree(w, req, target, rows) <==> DecisiveRowsAgree(w, req, rows)
  {
    ConsultedDecide(w, req, target, rows);
    if DecisiveRowsAgree(w, req, rows) {
      forall ys | Reordering(rows, ys)
        ensures Authorized(w, req, target, Some(ys)) == Authorized(w, req, target, Some(rows))
      {
        ReorderingHasSameRows(rows, ys);
        ConsultedDecide(w, req, target, ys);
        AgreementDecides(w, req, rows);
        AgreementDecides(w, req, ys);
      }
    } else {
      var a, b :| a in rows && b in rows && Decisive(w, req, a) && Decisive(w, req, b)
        && Grants(w, req, a) != Grants(w, req, b);
      var ya := FrontRow(w, req, rows, a);
      var yb := FrontRow(w, req, rows, b);
      ConsultedDecide(w, req, target, ya);
      ConsultedDecide(w, req, target, yb);
    }
  }

  ghost predicate DeniedInEveryOrder(w: World, req: Request, target: Option<Target>, rows: seq<Authorization>) {
    forall ys | Reordering(rows, ys) :: !Authorized(w, req, target, Some(ys))
  }

  /** The request is denied whatever the order of the rows exactly when no row grants it. */
  lemma DenialIsFinalExactly(w: World, req: Request, target: Option<Target>, rows: seq<Authorization>)
    requires RowsConsulted(w, req, target)
    ensures DeniedInEveryOrder(w, req, target, rows) <==> forall a :: a in rows ==> !Grants(w, req, a)
  {
    hide Grants, RowsConsulted;
    if a :| a in rows && Grants(w, req, a) {
      GrantingIsDecisive(w, req, a);
      var ys := FrontRow(w, req, rows, a);
      ConsultedDecide(w, req, target, ys);
    } else {
      forall ys | Reordering(rows, ys) ensures !Authorized(w, req, target, Some(ys)) {
        ReorderingHasSameRows(rows, ys);
        ConsultedDecide(w, req, target, ys);
        RowsByFirst(w, req, ys);
      }
    }
  }

  lemma GrantingIsDecisive(w: World, req: Request, a: Authorization)
    requires Grants(w, req, a)
    ensures Decisive(w, req, a)
  {
  }

  /** A refusing linked row beside a granting unlinked one: whichever comes first decides. */
  lemma LinkedDenialNeedsToComeFirst(w: World, req: Request, target: Option<Target>, linked: Authorization,
                                     other: Authorization)
    requires RowsConsulted(w, req, target)
    requires Linked(w, linked) && !Grants(w, req, linked)
    requires !Linked(w, other) && ScopeMatches(w, req, other)
    ensures !Authorized(w, req, target, Some([linked, other]))
    ensures Authorized(w, req, target, Some([other, linked]))
  {
    hide ScopeMatches, LinkedVerdict;
    ConsultedDecide(w, req, target, [linked, other]);
    ConsultedDecide(w, req, target, [other, linked]);
    RowsByFirst(w, req, [linked, other]);
    RowsByFirst(w, req, [other, linked]);
    assert FirstDecisive(w, req, [linked, other], 0) && FirstDecisive(w, req, [other, linked], 0);
    assert [linked, other][0] == linked && [other, linked][0] == other;
    assert Grants(w, req, other);
  }

  /** Without linked rows the order is always immaterial. */
  lemma UnlinkedRowsCommute(w: World, req: Request, target: Option<Target>, xs: seq<Authorization>,
                            ys: seq<Authorization>)
    requires Reordering(xs, ys) && forall a :: a in xs ==> !Linked(w, a)
    ensures Authorized(w, req, target, Some(xs)) == Authorized(w, req, target, Some(ys))
  {
    ReorderingHasSameRows(xs, ys);
    if RowsConsulted(w, req, target) {
      ConsultedDecide(w, req, target, xs);
      ConsultedDecide(w, req, target, ys);
      AgreementDecides(w, req, xs);
      AgreementDecides(w, req, ys);
    }
  }

  // --- Relations between requests -------------------------------------------------------------------

  /** Relaxing the layer, and then the intrusiveness, never loses an authorization. */
  lemma RelaxingKeepsAuthorization(w: World, req: Request, target: Option<Target>, rows: Option<seq<Authorization>>)
    requires Authorized(w, req, target, rows)
    ensures Authorized(w, req.(layer := "application"), target, rows)
    ensures Authorized(w, req.(intrusive := Some(false)), target, rows)
    ensures Authorized(w, req.(layer := "application", intrusive := Some(false)), target, rows)
  {
    DecideMeans(w, req, target, rows);
    RelaxedEntitled(w, req, req.(layer := "application"), target, rows);
    RelaxedEntitled(w, req, req.(intrusive := Some(false)), target, rows);
    RelaxedEntitled(w, req, req.(layer := "application", intrusive := Some(false)), target, rows);
  }

  /** The two requests ask the same question of the rows. */
  predicate SameQuestion(req: Request, req': Request) {
    req'.host == req.host && req'.ip == req.ip && req'.phase == req.phase && req'.attested == req.attested
  }

  lemma SameRowsResponse(w: World, req: Request, req': Request, a: Authorization)
    requires SameQuestion(req, req')
    ensures Decisive(w, req, a) == Decisive(w, req', a) && Grants(w, req, a) == Grants(w, req', a)
  {
  }

  lemma RelaxedEntitled(w: World, req: Request, req': Request, target: Option<Target>, rows: Option<seq<Authorization>>)
    requires Entitled(w, req, target, rows) && SameQuestion(req, req')
    requires req'.IsIntrusive() ==> req.IsIntrusive()
    requires req'.IsNetworkLayer() ==> req.IsNetworkLayer()
    ensures Authorized(w, req', target, rows)
  {
    forall a { SameRowsResponse(w, req, req', a); }
    var k :| FirstDecisive(w, req, rows.value, k) && Grants(w, req, rows.value[k]);
    assert FirstDecisive(w, req', rows.value, k);
    assert Entitled(w, req', target, rows);
    DecideMeans(w, req', target, rows);
  }

  lemma SameRows(w: World, req: Request, req': Request, rows: seq<Authorization>)
    requires SameQuestion(req, req')
    ensures RowsResponse(w, req, rows) == RowsResponse(w, req', rows)
  {
    if rows != [] {
      SameRowsResponse(w, req, req', rows[0]);
      SameRows(w, req, req', rows[1..]);
    }
  }

  lemma SameDecision(w: World, req: Request, req': Request, target: Option<Target>, rows: Option<seq<Authorization>>)
    requires SameQuestion(req, req')
    requires req'.IsIntrusive() == req.IsIntrusive() && req'.IsNetworkLayer() == req.IsNetworkLayer()
    ensures Decide(w, req, target, rows) == Decide(w, req', target, rows)
  {
    if rows.Some? { SameRows(w, req, req', rows.value); }
  }

  /** Saying nothing is the same as the strictest statement. */
  lemma DefaultsAreStrict(w: World, req: Request, target: Option<Target>, rows: Option<seq<Authorization>>,
                          layer: string)
    requires layer != "application"
    ensures Decide(w, req.(intrusive := None), target, rows) == Decide(w, req.(intrusive := Some(true)), target, rows)
    ensures Decide(w, req.(layer := layer), target, rows) == Decide(w, req.(layer := "network"), target, rows)
  {
    SameDecision(w, req.(intrusive := None), req.(intrusive := Some(true)), target, rows);
    SameDecision(w, req.(layer := layer), req.(layer := "network"), target, rows);
  }

  /** A host that resolves, with a shared address among its answers. */
  predicate SharedHost(w: World, req: Request) {
    && req.QueryHost() != "" && w.resolve(req.QueryHost()).Resolved?
    && SharedAnswer(w, w.resolve(req.QueryHost()).ips)
  }

  /**
   * A host on shared infrastructure, requested for intrusive testing with everything else in order:
   * it is allowed exactly at the application layer.
   */
  lemma SharedHostNeedsApplicationLayer(w: World, req: Request, target: Option<Target>, rows: seq<Authorization>)
    requires SharedHost(w, req) && req.IsIntrusive()
    requires EntryOk(req, target) && IpOk(w, req)
    requires exists k :: FirstDecisive(w, req, rows, k) && Grants(w, req, rows[k])
    ensures Authorized(w, req, target, Some(rows)) <==> req.layer == "application"
  {
    DecideMeans(w, req, target, Some(rows));
  }

  /** A directly supplied shared address is refused for intrusive testing at every layer. */
  lemma SharedAddressIsRefused(w: World, req: Request, target: Option<Target>, rows: Option<seq<Authorization>>,
                               layer: string)
    requires req.QueryIP() != "" && w.net.parseIP(req.QueryIP()).Some?
    requires w.net.shared(w.net.parseIP(req.QueryIP()).value) && req.IsIntrusive()
    ensures !Authorized(w, req.(layer := layer), target, rows)
  {
    DecideMeans(w, req.(layer := layer), target, rows);
  }

  /** An intrusive request at the application layer for the host "a". */
  const SHARED_HOST_REQUEST := Request("a", "", "", None, "application", None)

  /** An address of a content delivery network. */
  const EDGE := IP([104, 16, 0, 1])

  /** A world in which every host resolves to that address, which is shared and not reserved. */
  function SharedWorld(net: Net): World {
    World(net.(shared := ip => ip == EDGE, denied := _ => false), _ => Resolved([EDGE]), None, false, 0)
  }

  /** The request is allowed for a target in whose scope the host is, although its only address is shared. */
  lemma SharedHostIsAllowed(net: Net, t: Target, row: Authorization)
    requires t.status == Verified && row.scopeKind == RegistrableDomain && row.scopeValue == "a"
    ensures StrictResolver(SharedWorld(net)) && SharedHost(SharedWorld(net), SHARED_HOST_REQUEST)
    ensures Authorized(SharedWorld(net), SHARED_HOST_REQUEST, Some(t), Some([row]))
  {
    var w := SharedWorld(net);
    assert TrimSpace("a") == "a" && ToLower("a") == "a" && TrimSpace("") == "";
    assert w.net.shared(w.resolve("a").ips[0]);
    assert FirstDecisive(w, SHARED_HOST_REQUEST, [row], 0) && Grants(w, SHARED_HOST_REQUEST, [row][0]);
    SharedHostNeedsApplicationLayer(w, SHARED_HOST_REQUEST, Some(t), [row]);
  }

  // --- The launch gate ------------------------------------------------------------------------------

  datatype VerifiedReason = IsVerified | NotFound | NotOwner | NotVerified | NoActive

  datatype Lookup<+T> = Found(value: T) | Missing | LookupError

  /** `None` is the error return. */
  function VerifiedDecision(target: Lookup<Target>, userId: Option<int>, rows: Option<seq<Authorization>>, now: Time)
    : Option<VerifiedReason>
  {
    match target
    case Missing => Some(NotFound)
    case LookupError => None
    case Found(t) =>
      if userId.Some? && userId.value != t.userId then Some(NotOwner)
      else if t.status != Verified then Some(NotVerified)
      else if rows.None? then None
      else if exists a :: a in rows.value && Active(a, now) then Some(IsVerified)
      else Some(NoActive)
  }

  /** No user is given, or the owner. */
  predicate MaySee(t: Target, userId: Option<int>) {
    userId.None? || userId.value == t.userId
  }

  method HasActiveAuthorization(auths: seq<Authorization>, now: Time) returns (found: bool)
    ensures found <==> exists a :: a in auths && Active(a, now)
  {
    for i := 0 to |auths|
      invariant forall j :: 0 <= j < i ==> !Active(auths[j], now)
    {
      var a := auths[i];
      assert a in auths;
      if a.verifiedAt.Some? && !(a.expiresAt.Some? && a.expiresAt.value <= now) { return true; }
    }
    found := false;
  }

  method CheckVerified(target: Lookup<Target>, userId: Option<int>, rows: Option<seq<Authorization>>, now: Time)
    returns (r: Option<VerifiedReason>)
    ensures r == VerifiedDecision(target, userId, rows, now)
    ensures r == Some(IsVerified) <==>
              && target.Found? && MaySee(target.value, userId) && target.value.status == Verified
              && rows.Some? && exists a :: a in rows.value && Active(a, now)
    ensures r.None? <==>
              target.LookupError?
              || (target.Found? && MaySee(target.value, userId) && target.value.status == Verified && rows.None?)
    ensures r == Some(NotOwner) <==> target.Found? && !MaySee(target.value, userId)
  {
    if target.Missing? { return Some(NotFound); }
    if target.LookupError? { return None; }
    var t := target.value;
    if userId.Some? && userId.value != t.userId { return Some(NotOwner); }
    if t.status != Verified { return Some(NotVerified); }
    if rows.None? { return None; }
    var active := HasActiveAuthorization(rows.value, now);
    return Some(if active then IsVerified else NoActive);
  }

  /** A user who is not the owner gets one answer, whatever the status, the rows and the time. */
  lemma NonOwnerLearnsNothing(t: Target, t': Target, userId: int, rows: Option<seq<Authorization>>,
                              rows': Option<seq<Authorization>>,
                              now: Time, now': Time)
    requires !MaySee(t, Some(userId)) && t'.userId == t.userId
    ensures VerifiedDecision(Found(t), Some(userId), rows, now)
        == VerifiedDecision(Found(t'), Some(userId), rows', now')
  {
  }

  /** The launch gate is weaker: what the scope gate allows, it reports verified. */
  lemma ScopeAllowImpliesVerified(w: World, req: Request, t: Target, rows: seq<Authorization>)
    requires Authorized(w, req, Some(t), Some(rows))
    requires forall a :: a in rows ==> Active(a, w.now)
    ensures VerifiedDecision(Found(t), None, Some(rows), w.now) == Some(IsVerified)
  {
    DecideMeans(w, req, Some(t), Some(rows));
    var k :| FirstDecisive(w, req, rows, k);
    assert rows[k] in rows;
  }
}
