/** From a target value to the host a challenge is run on and to the scope the target authorizes. */
module HostScope {
  import opened Model
  import opened Text
  import opened Domains

  /** The public suffix lookup; `None` stands for its error return. */
  type SuffixList = string -> Option<string>

  /** Assumed of the lookup: a successful answer is a non-empty label suffix of the host. */
  ghost predicate SuffixListOk(etld: SuffixList) {
    forall h :: etld(h).Some? ==> etld(h).value != "" && Under(h, etld(h).value)
  }

  /** The value without scheme and path: what both host extractions start from. */
  function Authority(value: string): string {
    var i := Index(value, "://");
    var v := if i >= 0 then value[i + 3..] else value;
    var j := IndexAny(v, {'/'});
    if j >= 0 then v[..j] else v
  }

  /** The challenge host drops what follows the last colon only if it starts with a digit. */
  predicate PortStripped(h: string) {
    var i := LastIndex(h, ':');
    0 <= i && i + 1 < |h| && '0' <= h[i + 1] <= '9'
  }

  /** The host the challenges are run on. */
  function NormalizeHost(value: string): string {
    var h := Authority(value);
    ToLower(TrimSpace(if PortStripped(h) then h[..LastIndex(h, ':')] else h))
  }

  /** The host the registrable domain is derived from. */
  function LookupHost(value: string): string {
    var h := Authority(value);
    var i := LastIndex(h, ':');
    ToLower(TrimSpace(if '[' !in h && i >= 0 then h[..i] else h))
  }

  /** The eTLD+1, or the last two labels when the lookup fails. */
  function ExtractRegistrableDomain(etld: SuffixList, value: string): string {
    var host := LookupHost(value);
    match etld(host)
    case Some(d) => d
    case None => LastTwoLabels(host)
  }

  function LastTwoLabels(host: string): string {
    var parts := Split(host, '.');
    if |parts| < 2 then host else Join(parts[|parts| - 2..], '.')
  }

  function NormalizeTargetValue(etld: SuffixList, kind: Kind, raw: string): (string, Option<string>) {
    var value := ToLower(TrimSpace(raw));
    if kind == DomainKind || kind == UrlKind
    then (value, Some(ExtractRegistrableDomain(etld, value)))
    else (value, None)
  }

  function ScopeForTarget(t: Target): (ScopeKind, string) {
    match t.kind
    case IpKind => (IpRange, t.value)
    case CidrKind => (IpRange, t.value)
    case _ =>
      if t.registrableDomain.Some? && t.registrableDomain.value != ""
      then (RegistrableDomain, t.registrableDomain.value)
      else (RegistrableDomain, t.value)
  }

  // --- A target's own host is in its own scope -------------------------------------------------

  lemma UnderLower(h: string, a: string)
    requires ToLower(h) == h && Under(h, a)
    ensures ToLower(a) == a
  {
    if h != a {
      var k := |h| - |a|;
      assert h[k..] == a by { assert h[k - 1..][1..] == ("." + a)[1..]; }
      forall i | 0 <= i < |a| ensures LowerChar(a[i]) == a[i] {
        assert a[i] == h[k + i] == ToLower(h)[k + i];
      }
    }
  }

  lemma LastTwoLabelsCover(host: string)
    ensures Under(host, LastTwoLabels(host))
    ensures LastTwoLabels(host) == "" <==> host == ""
  {
    var parts := Split(host, '.');
    JoinSplit(host, '.');
    if |parts| >= 2 {
      var x, y := parts[..|parts| - 2], parts[|parts| - 2..];
      assert parts == x + y;
      assert Join(y, '.') == y[0] + ['.'] + Join(y[1..], '.');
      if x == [] {
        assert parts == y;
      } else {
        JoinConcat(x, y, '.');
        var p := Join(x, '.');
        assert host == p + ("." + Join(y, '.'));
        assert host[|p|..] == "." + Join(y, '.');
      }
    }
  }

  lemma {:induction false} PartsAreFree(s: string, sep: char)
    ensures forall i :: 0 <= i < |Split(s, sep)| ==> sep !in Split(s, sep)[i]
    decreases |s|
  {
    if s != "" { PartsAreFree(s[1..], sep); }
  }

  lemma {:induction false} SplitFree(s: string, sep: char)
    requires sep !in s
    ensures Split(s, sep) == [s]
    decreases |s|
  {
    if s != "" {
      assert forall c :: c in s[1..] ==> c in s;
      SplitFree(s[1..], sep);
      assert s == [s[0]] + s[1..];
    }
  }

  /** The derived domain is what the lookup says, or else the last two labels of the host, or its only one. */
  lemma DomainIsDerived(etld: SuffixList, value: string)
    ensures var host, d := LookupHost(value), ExtractRegistrableDomain(etld, value);
            && (etld(host).Some? ==> d == etld(host).value)
            && (etld(host).None? ==>
                  LabelSuffix(d, host) && |Labels(d)| == if |Labels(host)| < 2 then 1 else 2)
  {
    var host := LookupHost(value);
    var parts := Split(host, '.');
    var d := LastTwoLabels(host);
    LastTwoLabelsCover(host);
    DottedSuffixIsLabelSuffix(host, d);
    if |parts| >= 2 {
      var y := parts[|parts| - 2..];
      PartsAreFree(host, '.');
      assert Join(y, '.') == y[0] + ['.'] + Join(y[1..], '.');
      SplitSep(y[0], y[1], '.');
      SplitFree(y[0], '.');
      SplitFree(y[1], '.');
    }
  }

  /** Also in the fallback the derived domain covers the host it was derived from. */
  lemma DomainCoversLookupHost(etld: SuffixList, value: string)
    requires SuffixListOk(etld)
    ensures Under(LookupHost(value), ExtractRegistrableDomain(etld, value))
    ensures ExtractRegistrableDomain(etld, value) == "" <==> LookupHost(value) == ""
  {
    LastTwoLabelsCover(LookupHost(value));
  }

  function Colons(s: string): nat {
    if s == "" then 0 else (if s[0] == ':' then 1 else 0) + Colons(s[1..])
  }

  lemma {:induction false} ColonsConcat(a: string, b: string)
    ensures Colons(a + b) == Colons(a) + Colons(b)
    decreases |a|
  {
    if a == "" {
      assert a + b == b;
    } else {
      ColonsConcat(a[1..], b);
      assert (a + b)[1..] == a[1..] + b;
    }
  }

  lemma {:induction false} NoColons(s: string)
    requires ':' !in s
    ensures Colons(s) == 0
    decreases |s|
  {
    if s != "" {
      assert forall c :: c in s[1..] ==> c in s;
      NoColons(s[1..]);
    }
  }

  lemma {:induction false} ColonsLower(s: string)
    ensures Colons(ToLower(s)) == Colons(s)
    decreases |s|
  {
    if s != "" {
      assert ToLower(s)[1..] == ToLower(s[1..]);
      ColonsLower(s[1..]);
    }
  }

  /** Trimming and lower-casing remove no colon. */
  lemma ColonsKept(s: string)
    ensures Colons(ToLower(TrimSpace(s))) == Colons(s)
  {
    var p, q := TrimSpaceParts(s);
    var t := TrimSpace(s);
    NoColons(p); NoColons(q);
    ColonsConcat(p + t, q); ColonsConcat(p, t);
    ColonsLower(t);
  }

  /** How the authority must be written for both extractions to strip the same port. */
  predicate PortForm(h: string) {
    LastIndex(h, ':') < 0 || PortStripped(h) != ('[' in h)
  }

  /** The challenge host equals the looked-up host exactly for authorities in port form. */
  lemma HostsAgree(value: string)
    ensures NormalizeHost(value) == LookupHost(value) <==> PortForm(Authority(value))
  {
    var h := Authority(value);
    var i := LastIndex(h, ':');
    LastIndexAbsent(h, ':');
    if 0 <= i {
      var cut := h[..i];
      assert h == cut + h[i..] && h[i..][0] == ':';
      ColonsConcat(cut, h[i..]);
      ColonsKept(h); ColonsKept(cut);
    }
  }

  /** A host with a port and a path, as it stands in a target value. */
  function Located(host: string, digits: string, path: string): string {
    host + (if digits == "" then "" else ":" + digits) + path
  }

  /** A host of the ordinary kind: trimmed, in lower case, without separators. */
  predicate Ordinary(host: string, digits: string, path: string) {
    && host != "" && Trimmed(host) && ToLower(host) == host
    && ':' !in host && '/' !in host && '[' !in host
    && (forall c :: c in digits ==> '0' <= c <= '9')
    && (path == "" || path[0] == '/')
  }

  lemma AuthorityCuts(host: string, digits: string, path: string)
    requires Ordinary(host, digits, path)
    ensures var h := Located(host, digits, "");
            var v := Located(host, digits, path);
            var j := IndexAny(v, {'/'});
            (if j >= 0 then v[..j] else v) == h
  {
    var h := Located(host, digits, "");
    assert h + path == Located(host, digits, path);
    forall c | c in h ensures c != '/' { assert c in host || c == ':' || c in digits; }
    IndexAnyIs(h, path, {'/'});
    assert (h + path)[..|h|] == h;
    assert path == "" ==> h + path == h;
  }

  lemma PortCuts(host: string, digits: string, path: string)
    requires Ordinary(host, digits, path)
    ensures var h := Located(host, digits, "");
            && '[' !in h && PortStripped(h) == (digits != "")
            && (if LastIndex(h, ':') >= 0 then h[..LastIndex(h, ':')] else h) == host
  {
    var h := Located(host, digits, "");
    forall c | c in h ensures c != '[' { assert c in host || c == ':' || c in digits; }
    if digits == "" {
      assert h == host;
      LastIndexAbsent(host, ':');
    } else {
      assert h == host + [':'] + digits;
      LastIndexIs(host, ':', digits);
      assert h[|host| + 1] == digits[0] && digits[0] in digits;
      assert h[..|host|] == host;
    }
  }

  /** Both extractions find the host of a value, with and without a scheme, whatever port and path follow. */
  lemma HostIsExtracted(scheme: string, host: string, digits: string, path: string)
    requires Ordinary(host, digits, path) && ':' !in scheme
    ensures NormalizeHost(scheme + "://" + Located(host, digits, path)) == host
    ensures LookupHost(scheme + "://" + Located(host, digits, path)) == host
    ensures Index(Located(host, digits, path), "://") < 0 ==>
              NormalizeHost(Located(host, digits, path)) == host && LookupHost(Located(host, digits, path)) == host
  {
    var rest := Located(host, digits, path);
    var v := scheme + "://" + rest;
    IndexFromIs(scheme, "://", rest, 0);
    assert v[|scheme| + 3..] == rest;
    AuthorityCuts(host, digits, path);
    PortCuts(host, digits, path);
    TrimSpaceMeaning(host);
  }

  /** What every stored target value looks like. */
  predicate Normal(v: string) {
    Trimmed(v) && ToLower(v) == v
  }

  lemma NormalizedIsNormal(raw: string)
    ensures Normal(ToLower(TrimSpace(raw)))
  {
    TrimSpaceMeaning(raw);
    ToLowerTrimmed(TrimSpace(raw));
    ToLowerIdempotent(TrimSpace(raw));
  }

  /** Both hosts are lower case and no longer than the authority. */
  lemma HostShapes(v: string)
    ensures ToLower(NormalizeHost(v)) == NormalizeHost(v)
    ensures ToLower(LookupHost(v)) == LookupHost(v)
    ensures |NormalizeHost(v)| <= |Authority(v)| <= |v|
    ensures PortStripped(Authority(v)) ==> |NormalizeHost(v)| < |Authority(v)|
    ensures |Authority(v)| == |v| ==> Authority(v) == v
  {
    var h := Authority(v);
    var s := if PortStripped(h) then h[..LastIndex(h, ':')] else h;
    var s2 := if '[' !in h && LastIndex(h, ':') >= 0 then h[..LastIndex(h, ':')] else h;
    ToLowerIdempotent(TrimSpace(s));
    ToLowerIdempotent(TrimSpace(s2));
    var p, q := TrimSpaceParts(s);
    AuthorityShort(v);
  }

  lemma AuthorityShort(v: string)
    ensures |Authority(v)| <= |v|
    ensures |Authority(v)| == |v| ==> Authority(v) == v
  {
  }

  /** The scope value of a domain or url target with this (normalised) value. */
  function OwnScope(etld: SuffixList, value: string): string {
    var d := ExtractRegistrableDomain(etld, value);
    if d != "" then d else value
  }

  /** The text before the last colon, unless there is a bracket or no colon. */
  function BeforeColon(h: string): string {
    var i := LastIndex(h, ':');
    if '[' !in h && i >= 0 then h[..i] else h
  }

  /** After its last colon the text ends once more with a dot and what stands before the colon. */
  predicate RepeatsHost(h: string) {
    '[' !in h && HasSuffix(TrimSpace(h), "." + TrimSpace(BeforeColon(h)))
  }

  /**
   * When the scope covers the challenge host, read off the text between scheme and path. With
   * something before the last colon: the port form, or the host repeated after the colon. With
   * nothing there: no scheme, path or port.
   */
  predicate CoverageGuard(value: string) {
    var h := Authority(value);
    if TrimSpace(BeforeColon(h)) != "" then PortForm(h) || RepeatsHost(h)
    else h == value && !PortStripped(h)
  }

  /** The guard in terms of the two extracted hosts. */
  predicate HostGuard(value: string) {
    var h := Authority(value);
    if LookupHost(value) != ""
    then PortForm(h) || ('[' !in h && HasSuffix(NormalizeHost(value), "." + LookupHost(value)))
    else h == value && !PortStripped(h)
  }

  lemma LowerPart(s: string, i: nat, j: nat)
    requires i <= j <= |s| && ToLower(s) == s
    ensures ToLower(s[i..j]) == s[i..j]
  {
    forall k | 0 <= k < j - i ensures LowerChar(s[i..j][k]) == s[i..j][k] {
      assert ToLower(s)[i + k] == LowerChar(s[i + k]);
    }
  }

  lemma LowerAuthority(v: string)
    requires ToLower(v) == v
    ensures ToLower(Authority(v)) == Authority(v)
  {
    var i := Index(v, "://");
    var w := if i >= 0 then v[i + 3..] else v;
    if i >= 0 { LowerPart(v, i + 3, |v|); }
    var j := IndexAny(w, {'/'});
    if j >= 0 { LowerPart(w, 0, j); }
  }

  lemma LowerTrimmed(s: string)
    requires ToLower(s) == s
    ensures ToLower(TrimSpace(s)) == TrimSpace(s)
  {
    var p, q := TrimSpaceParts(s);
    LowerPart(s, |p|, |s| - |q|);
    assert s[|p|..|s| - |q|] == TrimSpace(s);
  }

  lemma GuardsAgree(v: string)
    requires Normal(v)
    ensures CoverageGuard(v) <==> HostGuard(v)
  {
    var h := Authority(v);
    LowerAuthority(v);
    LowerTrimmed(h);
    LowerPart(h, 0, |BeforeColon(h)|);
    assert h[0..|BeforeColon(h)|] == BeforeColon(h);
    LowerTrimmed(BeforeColon(h));
    assert LookupHost(v) == TrimSpace(BeforeColon(h));
  }

  lemma NormalizeHostWhole(v: string)
    requires Normal(v)
    ensures NormalizeHost(v) == v <==> Authority(v) == v && !PortStripped(v)
  {
    TrimSpaceMeaning(v);
    HostShapes(v);
  }

  /** The guard suffices, whatever the suffix list answers. */
  lemma GuardCovers(etld: SuffixList, v: string)
    requires SuffixListOk(etld) && Normal(v) && CoverageGuard(v)
    ensures IsSubdomainOf(NormalizeHost(v), OwnScope(etld, v))
  {
    GuardsAgree(v);
    var a, b, d := NormalizeHost(v), LookupHost(v), OwnScope(etld, v);
    DomainCoversLookupHost(etld, v);
    HostsAgree(v);
    HostShapes(v);
    if b != "" {
      UnderTransitive(a, b, d);
    } else {
      NormalizeHostWhole(v);
    }
    UnderLower(a, d);
  }

  /** The public suffix lookup of a host that is its own registrable domain. */
  function SelfLookup(h: string): Option<string> {
    if h == "" then None else Some(h)
  }

  lemma SelfCoveredMeansGuard(etld: SuffixList, v: string)
    requires Normal(v) && etld(LookupHost(v)) == SelfLookup(LookupHost(v))
    requires IsSubdomainOf(NormalizeHost(v), OwnScope(etld, v))
    ensures CoverageGuard(v)
  {
    GuardsAgree(v);
    var h := Authority(v);
    var a, b := NormalizeHost(v), LookupHost(v);
    HostsAgree(v);
    HostShapes(v);
    if b != "" {
      assert Under(a, b);
      if a != b && '[' in h && PortStripped(h) {
        TrimSpacePrefix(h, LastIndex(h, ':'));
      }
    } else {
      LastTwoLabelsCover("");
      NormalizeHostWhole(v);
    }
  }

  predicate Covers(etld: SuffixList, v: string) {
    IsSubdomainOf(NormalizeHost(v), OwnScope(etld, v))
  }

  /** The scope of a value covers its challenge host under every suffix list. */
  ghost predicate AlwaysCovered(v: string) {
    forall etld: SuffixList | SuffixListOk(etld) :: Covers(etld, v)
  }

  lemma GuardAlwaysCovers(v: string)
    requires Normal(v) && CoverageGuard(v)
    ensures AlwaysCovered(v)
  {
    forall etld: SuffixList | SuffixListOk(etld) ensures Covers(etld, v) {
      GuardCovers(etld, v);
    }
  }

  function SelfList(): (etld: SuffixList)
    ensures SuffixListOk(etld)
    ensures forall h :: etld(h) == SelfLookup(h)
  {
    SelfLookup
  }

  lemma AnyListCovers(etld: SuffixList, v: string)
    requires AlwaysCovered(v) && SuffixListOk(etld)
    ensures Covers(etld, v)
  {
  }

  lemma CoveredMeansGuard(v: string)
    requires Normal(v) && AlwaysCovered(v)
    ensures CoverageGuard(v)
  {
    var etld := SelfList();
    AnyListCovers(etld, v);
    SelfCoveredMeansGuard(etld, v);
  }

  /**
   * A target's scope covers the host its challenge is run on, for every suffix list,
   * exactly for the values that satisfy the guard.
   */
  lemma OwnHostInOwnScope(raw: string)
    ensures AlwaysCovered(ToLower(TrimSpace(raw))) <==> CoverageGuard(ToLower(TrimSpace(raw)))
  {
    NormalizedIsNormal(raw);
    var v := ToLower(TrimSpace(raw));
    if CoverageGuard(v) { GuardAlwaysCovers(v); }
    if AlwaysCovered(v) { CoveredMeansGuard(v); }
  }

  /** The value "host:" for a plain host. */
  ghost predicate EmptyPort(host: string, v: string) {
    && v == host + ":"
    && host != "" && Normal(host) && ':' !in host && '/' !in host && '[' !in host
  }

  lemma EmptyPortAuthority(host: string, v: string)
    requires EmptyPort(host, v)
    ensures Authority(v) == v && LastIndex(v, ':') == |host| && '[' !in v
  {
    assert forall c :: c in v ==> c in host || c == ':';
    OccursNeedsChar(v, "://", 1);
    assert v + "" == v && host + [':'] + "" == v;
    IndexAnyIs(v, "", {'/'});
    LastIndexIs(host, ':', "");
  }

  lemma EmptyPortHosts(host: string, v: string)
    requires EmptyPort(host, v)
    ensures !PortForm(v) && NormalizeHost(v) == v && LookupHost(v) == host
  {
    EmptyPortAuthority(host, v);
    assert v[..|host|] == host;
    TrimSpaceMeaning(host);
    assert v[|v| - 1] == ':' && v[0] == host[0];
    TrimSpaceMeaning(v);
    ToLowerConcat(host, ":");
    assert ToLower(":") == ":";
  }

  /** A non-empty name that ends a text without colons does not end that text followed by a colon. */
  lemma ColonEndsNoName(host: string, d: string)
    requires Under(host, d) && d != "" && ':' !in host
    ensures !Under(host + ":", d)
  {
    assert d[|d| - 1] == host[|host| - 1] by {
      if host != d { assert host[|host| - |d| - 1..][|d|] == ("." + d)[|d|]; }
    }
    assert d[|d| - 1] in host;
    assert (host + ":")[|host|] == ':';
  }

  /** A plain host with an empty port is covered by no suffix list: "example.com:" for one. */
  lemma EmptyPortIsNotCovered(etld: SuffixList, host: string)
    requires SuffixListOk(etld)
    requires host != "" && Normal(host)
    requires ':' !in host && '/' !in host && '[' !in host
    ensures !Covers(etld, host + ":")
  {
    var v := host + ":";
    var d := ExtractRegistrableDomain(etld, v);
    EmptyPortHosts(host, v);
    DomainCoversLookupHost(etld, v);
    ColonEndsNoName(host, d);
    UnderLower(host, d);
  }
}
