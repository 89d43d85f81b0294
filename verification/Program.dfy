/** Bug-bounty program policies and the verdict they give on one request. */
module Program {
  import opened Model
  import opened Text
  import opened Domains

  datatype IP = IP(octets: seq<int>)

  /** The network library the service calls; none of its functions is constrained here. */
  datatype Net = Net(
    parseIP: string -> Option<IP>,
    showIP: IP -> string,
    denied: IP -> bool,
    shared: IP -> bool,
    cidrContains: (string, IP) -> bool,
    splitHostPort: string -> Option<string>)

  datatype ProgramStatus = ActiveProgram | PausedProgram

  datatype AssetType = DomainAsset | WildcardAsset | UrlAsset | IpAsset | CidrAsset | OtherAsset

  datatype Asset = Asset(assetType: AssetType, identifier: string, inScope: bool)

  datatype Policy = Policy(
    platform: string,
    handle: string,
    automationAllowed: bool,
    prohibited: seq<string>,
    syncedAt: Option<Time>,
    staleAfterSeconds: int,
    status: ProgramStatus)

  /** Why the gate answered as it did. */
  datatype Reason =
    | HostOrIpRequired | TargetNotFound
    | UnknownAuthPhase | UnverifiedForAuthScan | AttestationMissing
    | TargetNotVerified | NoActiveAuthorization
    | InvalidIp | ReservedIp | SharedInfraIp | IpTargetsDisabled
    | ReservedAnswer | Unresolvable | SharedInfraAnswer
    | NoPolicy | PolicyNotActive | PolicyStale | ExcludedAsset | NoInScopeAsset
    | AutomationForbidden | TechniqueProhibited
    | NotInAnyScope
    | ProgramAllows | DomainScopeMatches | IpScopeMatches

  datatype Response = Response(authorized: bool, reason: Reason, allowedIPs: seq<string>)

  function Deny(reason: Reason): Response { Response(false, reason, []) }

  function Allow(reason: Reason): Response { Response(true, reason, []) }

  const DEFAULT_STALE_WINDOW: Time := 7 * DAY

  // --- Techniques ---------------------------------------------------------------------------------

  /** The technique a phase performs, or "" for a phase that performs no restricted one. */
  function PhaseTechnique(phase: string): string {
    if phase == "cred" then "brute_force"
    else if phase == "auth_register" || phase == "auth_account_mgmt" then "account_creation"
    else if phase == "network" then "network_scanning"
    else if phase == "web_vuln" || phase == "auth_crawl" || phase == "agent" then "automated_scanning"
    else ""
  }

  function NormalizeTechnique(s: string): string {
    ReplaceAll(ReplaceAll(ToLower(TrimSpace(s)), '-', "_"), ' ', "_")
  }

  /** The non-blank canonical tokens, in order. */
  function CanonicalTechniques(ts: seq<string>): seq<string> {
    if ts == [] then []
    else
      var n := NormalizeTechnique(ts[0]);
      (if n != "" then [n] else []) + CanonicalTechniques(ts[1..])
  }

  lemma {:induction false} CanonicalSnoc(ts: seq<string>, t: string)
    ensures var n := NormalizeTechnique(t);
            CanonicalTechniques(ts + [t]) == CanonicalTechniques(ts) + (if n != "" then [n] else [])
  {
    if ts == [] {
      assert [] + [t] == [t] && [t][1..] == [];
    } else {
      CanonicalSnoc(ts[1..], t);
      assert (ts + [t])[1..] == ts[1..] + [t];
    }
  }

  method NormalizeTechniques(ts: seq<string>) returns (out: seq<string>)
    ensures out == CanonicalTechniques(ts)
  {
    out := [];
    for i := 0 to |ts|
      invariant out == CanonicalTechniques(ts[..i])
    {
      var n := NormalizeTechnique(ts[i]);
      CanonicalSnoc(ts[..i], ts[i]);
      assert ts[..i + 1] == ts[..i] + [ts[i]];
      if n != "" {
        out := out + [n];
      }
    }
    assert ts[..|ts|] == ts;
  }

  predicate PhaseProhibited(phase: string, prohibited: seq<string>) {
    PhaseTechnique(phase) != "" && PhaseTechnique(phase) in CanonicalTechniques(prohibited)
  }

  /** Some entry of the list reads as this technique. */
  predicate Bans(ts: seq<string>, technique: string) {
    exists i :: 0 <= i < |ts| && NormalizeTechnique(ts[i]) == technique
  }

  lemma {:induction false} CanonicalHolds(ts: seq<string>, technique: string)
    requires technique != ""
    ensures technique in CanonicalTechniques(ts) <==> Bans(ts, technique)
  {
    hide NormalizeTechnique;
    if ts != [] {
      CanonicalHolds(ts[1..], technique);
      assert NormalizeTechnique(ts[0]) == technique ==> Bans(ts, technique);
      if Bans(ts[1..], technique) {
        var i :| 0 <= i < |ts[1..]| && NormalizeTechnique(ts[1..][i]) == technique;
        assert NormalizeTechnique(ts[i + 1]) == technique;
      }
      if i :| 0 < i < |ts| && NormalizeTechnique(ts[i]) == technique {
        assert NormalizeTechnique(ts[1..][i - 1]) == technique;
      }
    }
  }

  /** Which phases a list of prohibited techniques shuts out; every other phase is never prohibited. */
  lemma ProhibitedPhases(phase: string, ts: seq<string>)
    ensures PhaseProhibited(phase, ts) <==>
            || (phase == "cred" && Bans(ts, "brute_force"))
            || (phase in ["auth_register", "auth_account_mgmt"] && Bans(ts, "account_creation"))
            || (phase == "network" && Bans(ts, "network_scanning"))
            || (phase in ["web_vuln", "auth_crawl", "agent"] && Bans(ts, "automated_scanning"))
  {
    hide CanonicalTechniques, Bans;
    if PhaseTechnique(phase) != "" { CanonicalHolds(ts, PhaseTechnique(phase)); }
  }

  lemma {:induction false} ReplaceByOne(s: string, c: char, d: char)
    ensures |ReplaceAll(s, c, [d])| == |s|
    ensures forall i :: 0 <= i < |s| ==> ReplaceAll(s, c, [d])[i] == if s[i] == c then d else s[i]
    decreases |s|
  {
    if s != "" { ReplaceByOne(s[1..], c, d); }
  }

  /** The canonical form of one character of a technique name. */
  function Canonical(c: char): char {
    var l := LowerChar(c);
    if l == '-' || l == ' ' then '_' else l
  }

  lemma NormalizePointwise(s: string)
    ensures var t, n := TrimSpace(s), NormalizeTechnique(s);
            |n| == |t| && forall i :: 0 <= i < |t| ==> n[i] == Canonical(t[i])
  {
    var l := ToLower(TrimSpace(s));
    ReplaceByOne(l, '-', '_');
    ReplaceByOne(ReplaceAll(l, '-', "_"), ' ', '_');
  }

  lemma NormalizeTechniqueIdempotent(s: string)
    ensures NormalizeTechnique(NormalizeTechnique(s)) == NormalizeTechnique(s)
  {
    var n := NormalizeTechnique(s);
    NormalizePointwise(s);
    TrimSpaceMeaning(s);
    TrimSpaceMeaning(n);
    NormalizePointwise(n);
  }

  /** Storing the canonical list and canonicalising it again at the gate changes nothing. */
  lemma {:induction false} CanonicalTechniquesIdempotent(ts: seq<string>)
    ensures CanonicalTechniques(CanonicalTechniques(ts)) == CanonicalTechniques(ts)
  {
    if ts != [] {
      var n := NormalizeTechnique(ts[0]);
      NormalizeTechniqueIdempotent(ts[0]);
      CanonicalTechniquesIdempotent(ts[1..]);
      var c := CanonicalTechniques(ts);
      if n != "" {
        assert c[0] == n && c[1..] == CanonicalTechniques(ts[1..]);
      } else {
        assert c == CanonicalTechniques(ts[1..]);
      }
    }
  }

  // --- Asset matching -------------------------------------------------------------------------------

  function PastScheme(id: string): string {
    var i := Index(id, "://");
    if i >= 0 then id[i + 3..] else id
  }

  function BeforePath(v: string): string {
    var j := IndexAny(v, {'/', '?', '#'});
    if j >= 0 then v[..j] else v
  }

  function PastUser(w: string): string {
    var k := IndexAny(w, {'@'});
    if k >= 0 then w[k + 1..] else w
  }

  /** The host of an identifier that may be a whole URL. */
  function UrlHost(net: Net, id: string): string {
    var u := PastUser(BeforePath(PastScheme(id)));
    match net.splitHostPort(u)
    case Some(h) => h
    case None => u
  }

  function CanonicalIdentifier(id: string): string {
    ToLower(TrimSpace(id))
  }

  predicate AssetMatches(net: Net, a: Asset, host: string, ip: string) {
    var id := CanonicalIdentifier(a.identifier);
    match a.assetType
    case DomainAsset => host != "" && host == id
    case WildcardAsset =>
      var base := TrimPrefix(id, "*.");
      host != "" && (host == base || HasSuffix(host, "." + base))
    case UrlAsset => host != "" && host == UrlHost(net, id)
    case IpAsset => ip != "" && ip == id
    case CidrAsset =>
      ip != "" && (var parsed := net.parseIP(ip); parsed.Some? && net.cidrContains(id, parsed.value))
    case OtherAsset => host != "" && host == id
  }

  // --- What an identifier names ---------------------------------------------------------------------

  /** What may stand before the rest of a URL: nothing, if no "://" follows, or all up to the first "://". */
  ghost predicate SchemeBefore(pre: string, rest: string) {
    if pre == "" then !Contains(rest, "://")
    else |pre| >= 3 && pre[|pre| - 3..] == "://" && !Contains(pre[..|pre| - 1], "://")
  }

  /** User information up to the first at sign, or none. */
  predicate UserBefore(user: string, u: string) {
    if user == "" then '@' !in u else user[|user| - 1] == '@' && '@' !in user[..|user| - 1]
  }

  predicate PathAfter(w: string, path: string) {
    && '/' !in w && '?' !in w && '#' !in w
    && (path == "" || path[0] == '/' || path[0] == '?' || path[0] == '#')
  }

  /** The identifier is this authority with a scheme, user information and a path around it. */
  ghost predicate WrittenAs(id: string, pre: string, user: string, u: string, path: string) {
    && id == pre + (user + u + path)
    && SchemeBefore(pre, user + u + path) && UserBefore(user, u) && PathAfter(user + u, path)
  }

  /** The authority is this host with a port, or this host. */
  predicate HostOf(net: Net, u: string, host: string) {
    net.splitHostPort(u) == Some(host) || (net.splitHostPort(u).None? && u == host)
  }

  /** The identifier is built around this host, with or without a port. */
  ghost predicate BuiltAround(net: Net, id: string, host: string) {
    exists pre, user, u, path :: WrittenAs(id, pre, user, u, path) && HostOf(net, u, host)
  }

  lemma PastSchemeIs(pre: string, rest: string)
    requires SchemeBefore(pre, rest)
    ensures PastScheme(pre + rest) == rest
  {
    var id := pre + rest;
    IndexMeaning(id, "://");
    var r := Index(id, "://");
    if pre == "" {
      assert id == rest;
    } else {
      var k := |pre| - 3;
      assert id[k..k + 3] == pre[k..];
      assert OccursAt(id, "://", k);
      if r < k {
        var front := pre[..|pre| - 1];
        assert front[r..r + 3] == id[r..r + 3];
        assert OccursAt(front, "://", r);
      }
      assert id[|pre|..] == rest;
    }
  }

  lemma SchemePart(id: string) returns (pre: string)
    ensures id == pre + PastScheme(id) && SchemeBefore(pre, PastScheme(id))
  {
    IndexMeaning(id, "://");
    var r := Index(id, "://");
    if r < 0 {
      pre := "";
      assert "" + id == id;
    } else {
      pre := id[..r + 3];
      assert pre[r..] == id[r..r + 3];
      var front := pre[..r + 2];
      if i :| OccursAt(front, "://", i) {
        assert id[i..i + 3] == front[i..i + 3];
        assert OccursAt(id, "://", i);
      }
    }
  }

  lemma BeforePathIs(w: string, path: string)
    requires PathAfter(w, path)
    ensures BeforePath(w + path) == w
  {
    IndexAnyIs(w, path, {'/', '?', '#'});
    assert (w + path)[..|w|] == w;
    assert path == "" ==> w + path == w;
  }

  lemma {:induction false} IndexAnyMeaning(s: string, chars: set<char>)
    ensures var r := IndexAny(s, chars);
            if r < 0 then forall c :: c in s ==> c !in chars
            else s[r] in chars && forall c :: c in s[..r] ==> c !in chars
    decreases |s|
  {
    if s != "" && s[0] !in chars {
      IndexAnyMeaning(s[1..], chars);
      var r := IndexAny(s, chars);
      if r >= 0 { assert s[..r] == [s[0]] + s[1..][..r - 1]; }
    }
  }

  lemma PathPart(v: string) returns (path: string)
    ensures v == BeforePath(v) + path && PathAfter(BeforePath(v), path)
  {
    IndexAnyMeaning(v, {'/', '?', '#'});
    var j := IndexAny(v, {'/', '?', '#'});
    path := if j >= 0 then v[j..] else "";
  }

  lemma PastUserIs(user: string, u: string)
    requires UserBefore(user, u)
    ensures PastUser(user + u) == u
  {
    if user == "" {
      assert user + u == u && u + "" == u;
      IndexAnyIs(u, "", {'@'});
    } else {
      var a := user[..|user| - 1];
      assert user + u == a + (['@'] + u);
      IndexAnyIs(a, ['@'] + u, {'@'});
      assert (user + u)[|user|..] == u;
    }
  }

  lemma UserPart(w: string) returns (user: string)
    ensures w == user + PastUser(w) && UserBefore(user, PastUser(w))
  {
    IndexAnyMeaning(w, {'@'});
    var k := IndexAny(w, {'@'});
    user := if k >= 0 then w[..k + 1] else "";
    if k >= 0 { assert user[..k] == w[..k]; }
  }

  /** A URL identifier is built around exactly one host. */
  lemma UrlHostIsBuiltAround(net: Net, id: string, host: string)
    ensures BuiltAround(net, id, host) <==> host == UrlHost(net, id)
  {
    hide PastScheme, BeforePath, PastUser, SchemeBefore, UserBefore, PathAfter;
    var pre := SchemePart(id);
    var v := PastScheme(id);
    var path := PathPart(v);
    var user := UserPart(BeforePath(v));
    var u := PastUser(BeforePath(v));
    assert WrittenAs(id, pre, user, u, path);
    if pre', user', u', path' :| WrittenAs(id, pre', user', u', path') && HostOf(net, u', host) {
      PastSchemeIs(pre', user' + u' + path');
      BeforePathIs(user' + u', path');
      PastUserIs(user', u');
    }
  }

  /**
   * The first "://" decides, wherever it stands: an identifier without a scheme whose path contains one
   * is built around the host that follows it, and not around the one it starts with.
   */
  lemma FirstSchemeNamesHost(net: Net, before: string, u: string, host: string)
    requires '/' !in u && '?' !in u && '#' !in u && '@' !in u
    requires !Contains(before + ":/", "://")
    ensures BuiltAround(net, before + "://" + u, host) <==> HostOf(net, u, host)
  {
    hide PastScheme, BeforePath, PastUser;
    var pre := before + "://";
    assert pre[|pre| - 3..] == "://" && pre[..|pre| - 1] == before + ":/";
    PastSchemeIs(pre, u);
    assert u + "" == u && "" + u == u;
    BeforePathIs(u, "");
    PastUserIs("", u);
    UrlHostIsBuiltAround(net, pre + u, host);
  }

  lemma CanonicalIdentifierIdempotent(id: string)
    ensures CanonicalIdentifier(CanonicalIdentifier(id)) == CanonicalIdentifier(id)
  {
    var t := TrimSpace(id);
    TrimSpaceMeaning(id);
    ToLowerTrimmed(t);
    TrimSpaceMeaning(ToLower(t));
    ToLowerIdempotent(t);
  }

  lemma LowerSuffix(s: string, k: nat)
    requires k <= |s| && ToLower(s) == s
    ensures ToLower(s[k..]) == s[k..]
  {
    forall i | 0 <= i < |s[k..]| ensures LowerChar(s[k..][i]) == s[k..][i] {
      assert ToLower(s)[k + i] == LowerChar(s[k + i]);
    }
  }

  /** A wildcard matches exactly the hosts label-wise equal to or under its base. */
  lemma WildcardIsSubdomainTest(net: Net, a: Asset, host: string, ip: string)
    requires a.assetType == WildcardAsset && ToLower(host) == host && host != ""
    ensures var base := TrimPrefix(CanonicalIdentifier(a.identifier), "*.");
            && (AssetMatches(net, a, host, ip) <==> IsSubdomainOf(host, base))
            && (AssetMatches(net, a, host, ip) <==> LabelSuffix(base, host))
  {
    var id := CanonicalIdentifier(a.identifier);
    var base := TrimPrefix(id, "*.");
    ToLowerIdempotent(TrimSpace(a.identifier));
    LowerSuffix(id, |id| - |base|);
    DottedSuffixIsLabelSuffix(host, base);
  }

  // --- The verdict ----------------------------------------------------------------------------------

  predicate Fresh(p: Policy, now: Time) {
    var window := if p.staleAfterSeconds > 0 then p.staleAfterSeconds * SECOND else DEFAULT_STALE_WINDOW;
    p.syncedAt.Some? && now - p.syncedAt.value <= window
  }

  predicate Excluded(net: Net, assets: seq<Asset>, host: string, ip: string) {
    exists a :: a in assets && !a.inScope && AssetMatches(net, a, host, ip)
  }

  predicate Included(net: Net, assets: seq<Asset>, host: string, ip: string) {
    exists a :: a in assets && a.inScope && AssetMatches(net, a, host, ip)
  }

  /** What an allow requires, all at once. */
  predicate Permits(net: Net, p: Option<Policy>, assets: seq<Asset>, host: string, ip: string, phase: string,
                    now: Time) {
    var h, i := ToLower(TrimSpace(host)), TrimSpace(ip);
    && p.Some? && p.value.status == ActiveProgram && Fresh(p.value, now)
    && !Excluded(net, assets, h, i) && Included(net, assets, h, i)
    && p.value.automationAllowed && !PhaseProhibited(phase, p.value.prohibited)
  }

  /** What the policy says whatever is asked for: active, fresh for as long as it says or 7 days, automation allowed. */
  predicate Open(p: Policy, phase: string, now: Time) {
    && p.status == ActiveProgram
    && p.syncedAt.Some?
    && now <= p.syncedAt.value + (if p.staleAfterSeconds > 0 then p.staleAfterSeconds * SECOND else 7 * DAY)
    && p.automationAllowed && !PhaseProhibited(phase, p.prohibited)
  }

  /** The first condition that fails, in the order in which they are checked. */
  function Refusal(net: Net, p: Option<Policy>, assets: seq<Asset>, host: string, ip: string, phase: string, now: Time)
    : Reason
  {
    var h, i := ToLower(TrimSpace(host)), TrimSpace(ip);
    if p.None? then NoPolicy
    else if p.value.status != ActiveProgram then PolicyNotActive
    else if !Fresh(p.value, now) then PolicyStale
    else if Excluded(net, assets, h, i) then ExcludedAsset
    else if !Included(net, assets, h, i) then NoInScopeAsset
    else if !p.value.automationAllowed then AutomationForbidden
    else TechniqueProhibited
  }

  function Verdict(net: Net, p: Option<Policy>, assets: seq<Asset>, host: string, ip: string, phase: string, now: Time)
    : Response
  {
    if Permits(net, p, assets, host, ip, phase, now) then Allow(ProgramAllows)
    else Deny(Refusal(net, p, assets, host, ip, phase, now))
  }

  /** The gate's two passes over the asset list. */
  method ProgramVerdict(net: Net, p: Option<Policy>, assets: seq<Asset>, host: string, ip: string, phase: string,
                        now: Time)
    returns (r: Response)
    ensures r == Verdict(net, p, assets, host, ip, phase, now)
  {
    if p.None? { return Deny(NoPolicy); }
    var policy := p.value;
    if policy.status != ActiveProgram { return Deny(PolicyNotActive); }
    var stale := DEFAULT_STALE_WINDOW;
    if policy.staleAfterSeconds > 0 { stale := policy.staleAfterSeconds * SECOND; }
    if policy.syncedAt.None? || now - policy.syncedAt.value > stale { return Deny(PolicyStale); }

    var h, q := ToLower(TrimSpace(host)), TrimSpace(ip);
    for i := 0 to |assets|
      invariant forall j :: 0 <= j < i ==> assets[j].inScope || !AssetMatches(net, assets[j], h, q)
    {
      if !assets[i].inScope && AssetMatches(net, assets[i], h, q) { return Deny(ExcludedAsset); }
    }
    var matched := false;
    var i := 0;
    while i < |assets| && !matched
      invariant 0 <= i <= |assets|
      invariant matched ==> Included(net, assets, h, q)
      invariant !matched ==> forall j :: 0 <= j < i ==> !(assets[j].inScope && AssetMatches(net, assets[j], h, q))
    {
      if assets[i].inScope && AssetMatches(net, assets[i], h, q) { matched := true; }
      i := i + 1;
    }
    if !matched { return Deny(NoInScopeAsset); }
    if !policy.automationAllowed { return Deny(AutomationForbidden); }
    var tech := PhaseTechnique(phase);
    var normalized := NormalizeTechniques(policy.prohibited);
    if tech != "" && tech in normalized { return Deny(TechniqueProhibited); }
    r := Allow(ProgramAllows);
  }

  /**
   * What one listed asset permits, type by type, in terms of its identifier trimmed and in lower case:
   * itself; the host a URL is built around; the address; the addresses of a block; a name and all
   * names under it.
   */
  lemma SingleAssetPermits(net: Net, p: Policy, a: Asset, host: string, ip: string, phase: string, now: Time)
    requires a.inScope && Open(p, phase, now)
    ensures var id, h, q := ToLower(TrimSpace(a.identifier)), ToLower(TrimSpace(host)), TrimSpace(ip);
            var permitted := Permits(net, Some(p), [a], host, ip, phase, now);
            && (a.assetType == DomainAsset || a.assetType == OtherAsset ==> (permitted <==> h != "" && h == id))
            && (a.assetType == UrlAsset ==> (permitted <==> h != "" && BuiltAround(net, id, h)))
            && (a.assetType == WildcardAsset ==>
                (permitted <==> h != "" && LabelSuffix(if "*." <= id then id[2..] else id, h)))
            && (a.assetType == IpAsset ==> (permitted <==> q != "" && q == id))
            && (a.assetType == CidrAsset ==>
                (permitted <==> q != "" && net.parseIP(q).Some? && net.cidrContains(id, net.parseIP(q).value)))
  {
    hide PhaseProhibited, BuiltAround, UrlHost, LabelSuffix;
    var id, h, q := ToLower(TrimSpace(a.identifier)), ToLower(TrimSpace(host)), TrimSpace(ip);
    OneAsset(net, a, h, q);
    UrlHostIsBuiltAround(net, id, h);
    ToLowerIdempotent(TrimSpace(host));
    if a.assetType == WildcardAsset && h != "" { WildcardIsSubdomainTest(net, a, h, q); }
  }

  lemma OneAsset(net: Net, a: Asset, h: string, q: string)
    ensures Included(net, [a], h, q) <==> a.inScope && AssetMatches(net, a, h, q)
    ensures Excluded(net, [a], h, q) <==> !a.inScope && AssetMatches(net, a, h, q)
  {
    hide AssetMatches;
    assert a in [a];
  }

  /** The asset would permit the request if it were the only one listed, and in scope. */
  predicate Alone(net: Net, p: Policy, a: Asset, host: string, ip: string, phase: string, now: Time) {
    Permits(net, Some(p), [a.(inScope := true)], host, ip, phase, now)
  }

  /** A listing permits what one of its included assets permits alone and none of its excluded ones would. */
  lemma ListingPermits(net: Net, p: Policy, assets: seq<Asset>, host: string, ip: string, phase: string, now: Time)
    ensures Permits(net, Some(p), assets, host, ip, phase, now) <==>
            && Open(p, phase, now)
            && (exists a :: a in assets && a.inScope && Alone(net, p, a, host, ip, phase, now))
            && !exists a :: a in assets && !a.inScope && Alone(net, p, a, host, ip, phase, now)
  {
    hide PhaseProhibited, AssetMatches;
    var h, q := ToLower(TrimSpace(host)), TrimSpace(ip);
    forall a ensures Alone(net, p, a, host, ip, phase, now) <==> Open(p, phase, now) && AssetMatches(net, a, h, q) {
      OneAsset(net, a.(inScope := true), h, q);
      InScopeIsNoMatch(net, a, h, q);
    }
  }

  lemma InScopeIsNoMatch(net: Net, a: Asset, h: string, q: string)
    ensures AssetMatches(net, a.(inScope := true), h, q) == AssetMatches(net, a, h, q)
  {
  }

  lemma ExcludedAlone(net: Net, p: Policy, a: Asset, host: string, ip: string, phase: string, now: Time)
    requires !a.inScope && Open(p, phase, now)
    ensures Excluded(net, [a], ToLower(TrimSpace(host)), TrimSpace(ip)) <==> Alone(net, p, a, host, ip, phase, now)
  {
    hide AssetMatches, PhaseProhibited;
    var h, q := ToLower(TrimSpace(host)), TrimSpace(ip);
    OneAsset(net, a, h, q);
    OneAsset(net, a.(inScope := true), h, q);
    InScopeIsNoMatch(net, a, h, q);
  }

  /** The asset's identifier is this host or is built around it, or is this address. */
  ghost predicate Names(net: Net, a: Asset, host: string, ip: string) {
    var id, h, q := ToLower(TrimSpace(a.identifier)), ToLower(TrimSpace(host)), TrimSpace(ip);
    (h != "" && (h == id || BuiltAround(net, id, h))) || (q != "" && q == id)
  }

  /** A listing that includes neither wildcards nor blocks permits no host and no address that it does not name. */
  lemma OnlyNamedArePermitted(net: Net, p: Policy, assets: seq<Asset>, host: string, ip: string, phase: string,
                              now: Time)
    requires forall a :: a in assets && a.inScope ==> a.assetType != WildcardAsset && a.assetType != CidrAsset
    requires Permits(net, Some(p), assets, host, ip, phase, now)
    ensures exists a :: a in assets && a.inScope && Names(net, a, host, ip)
  {
    hide Permits, Open, BuiltAround;
    ListingPermits(net, p, assets, host, ip, phase, now);
    var a :| a in assets && a.inScope && Alone(net, p, a, host, ip, phase, now);
    assert a.(inScope := true) == a;
    SingleAssetPermits(net, p, a, host, ip, phase, now);
    assert Names(net, a, host, ip);
  }

  /** Which assets are listed matters, not their order or multiplicity. */
  lemma VerdictIgnoresAssetOrder(net: Net, p: Option<Policy>, xs: seq<Asset>, ys: seq<Asset>,
                                 host: string, ip: string, phase: string, now: Time)
    requires forall a :: a in xs <==> a in ys
    ensures Verdict(net, p, xs, host, ip, phase, now) == Verdict(net, p, ys, host, ip, phase, now)
  {
    var h, q := ToLower(TrimSpace(host)), TrimSpace(ip);
    assert Excluded(net, xs, h, q) == Excluded(net, ys, h, q);
    assert Included(net, xs, h, q) == Included(net, ys, h, q);
  }

  /** More exclusions never open the gate, more inclusions never close it, and time never opens it. */
  lemma VerdictIsMonotone(net: Net, p: Option<Policy>, assets: seq<Asset>, x: Asset, k: nat,
                          host: string, ip: string, phase: string, now: Time, earlier: Time)
    requires k <= |assets| && earlier <= now
    ensures var more := assets[..k] + [x] + assets[k..];
            && (!x.inScope && Permits(net, p, more, host, ip, phase, now) ==>
                Permits(net, p, assets, host, ip, phase, now))
            && (x.inScope && Permits(net, p, assets, host, ip, phase, now) ==>
                Permits(net, p, more, host, ip, phase, now))
    ensures Permits(net, p, assets, host, ip, phase, now) ==> Permits(net, p, assets, host, ip, phase, earlier)
  {
    var more := assets[..k] + [x] + assets[k..];
    assert assets == assets[..k] + assets[k..];
    assert forall a :: a in more <==> a in assets || a == x;
    var h, q := ToLower(TrimSpace(host)), TrimSpace(ip);
    assert !x.inScope ==> Included(net, more, h, q) == Included(net, assets, h, q);
    assert x.inScope ==> Excluded(net, more, h, q) == Excluded(net, assets, h, q);
  }

  /** A request that names neither a host nor an address matches no asset. */
  lemma BlankQueryNeverPermitted(net: Net, p: Option<Policy>, assets: seq<Asset>, host: string, ip: string,
                                 phase: string, now: Time)
    requires TrimSpace(host) == "" && TrimSpace(ip) == ""
    ensures !Permits(net, p, assets, host, ip, phase, now)
  {
  }
}
