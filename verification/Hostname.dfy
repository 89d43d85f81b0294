/** Host name normalisation of the public tool endpoints. */
module Hostname {
  import opened Text

  datatype Rejection = Empty | BadLength | IpLiteral | NotAHostname | SingleLabel | LocalhostName | InternalName

  datatype Judgement = Accepted(host: string) | Rejected(why: Rejection)

  /** Recognises IP literals; the parser itself is not part of this model. */
  type IpTest = string -> bool

  const TAIL_START: set<char> := {'/', '?', '#'}

  const INTERNAL_SUFFIXES: seq<string> := [".local", ".localhost", ".internal", ".invalid", ".test", ".localdomain"]

  predicate IsLetter(c: char) { 'a' <= c <= 'z' }

  predicate IsDigit(c: char) { '0' <= c <= '9' }

  predicate IsHostChar(c: char) { IsLetter(c) || IsDigit(c) || c == '-' }

  /** One label of the accepted form: 1 to 63 letters, digits and inner hyphens. */
  predicate IsLabel(l: string) {
    && 1 <= |l| <= 63
    && (forall c :: c in l ==> IsHostChar(c))
    && l[0] != '-' && l[|l| - 1] != '-'
  }

  predicate IsTopLabel(l: string) {
    2 <= |l| <= 63 && forall c :: c in l ==> IsLetter(c)
  }

  /** The accepted form: labels followed by dots, then a top label of letters. */
  predicate MatchesForm(v: string) {
    var ls := Split(v, '.');
    && |ls| >= 2
    && (forall i :: 0 <= i < |ls| - 1 ==> IsLabel(ls[i]))
    && IsTopLabel(ls[|ls| - 1])
  }

  function AfterScheme(v: string): string {
    var i := Index(v, "://");
    if i >= 0 then v[i + 3..] else v
  }

  function BeforeTail(v: string): string {
    var i := IndexAny(v, TAIL_START);
    if i >= 0 then v[..i] else v
  }

  function AfterUserinfo(v: string): string {
    var i := LastIndex(v, '@');
    if i >= 0 then v[i + 1..] else v
  }

  function WithoutPort(v: string): string {
    if HasPrefix(v, "[") then
      var i := IndexAny(v, {']'});
      if i >= 0 then v[..i + 1] else v
    else
      var i := LastIndex(v, ':');
      if i >= 0 then v[..i] else v
  }

  function TrimBrackets(v: string): string
    decreases |v|
  {
    if v != "" && v[0] in {'[', ']'} then TrimBrackets(v[1..])
    else if v != "" && v[|v| - 1] in {'[', ']'} then TrimBrackets(v[..|v| - 1])
    else v
  }

  /** Everything the normaliser removes, applied to a trimmed input. */
  function Strip(v: string): string {
    StripAuthority(AfterScheme(v))
  }

  function StripAuthority(v: string): string {
    TrimBrackets(ToLower(TrimSuffix(WithoutPort(AfterUserinfo(BeforeTail(v))), ".")))
  }

  predicate InternalLooking(v: string) {
    exists suf :: suf in INTERNAL_SUFFIXES && HasSuffix(v, suf)
  }

  /** The checks, in the order they are made. */
  function Check(isIp: IpTest, v: string): Judgement {
    if v == "" || |v| > 253 then Rejected(BadLength)
    else if isIp(v) then Rejected(IpLiteral)
    else if !MatchesForm(v) then Rejected(NotAHostname)
    else if '.' !in v then Rejected(SingleLabel)
    else if v == "localhost" then Rejected(LocalhostName)
    else if InternalLooking(v) then Rejected(InternalName)
    else Accepted(v)
  }

  function Normalize(isIp: IpTest, raw: string): Judgement {
    var v := TrimSpace(raw);
    if v == "" then Rejected(Empty) else Check(isIp, Strip(v))
  }

  // --- Shape of accepted names ------------------------------------------------------------------

  predicate IsNameChar(c: char) { IsHostChar(c) || c == '.' }

  lemma {:induction false} SplitChars(s: string, sep: char, c: char)
    requires c in s && c != sep
    ensures exists p :: p in Split(s, sep) && c in p
    decreases |s|
  {
    var rest := Split(s[1..], sep);
    if s[0] != sep && c == s[0] {
      var p := Split(s, sep)[0];
      assert p == [s[0]] + rest[0] && p[0] == c;
      assert p in Split(s, sep);
    } else {
      assert c in s[1..];
      SplitChars(s[1..], sep, c);
      var p :| p in rest && c in p;
      if s[0] == sep {
        assert p in [""] + rest;
      } else if p == rest[0] {
        assert c in [s[0]] + rest[0];
        assert Split(s, sep)[0] == [s[0]] + rest[0];
      } else {
        assert p in rest[1..];
        assert p in [[s[0]] + rest[0]] + rest[1..];
      }
    }
  }

  /** The text ends with its last part. */
  lemma SplitEnd(s: string, sep: char)
    ensures var ls := Split(s, sep); HasSuffix(s, ls[|ls| - 1])
  {
    var ls := Split(s, sep);
    var n := |ls| - 1;
    JoinSplit(s, sep);
    if n == 0 {
      assert s[0..] == ls[0];
    } else {
      assert ls == ls[..n] + [ls[n]];
      JoinConcat(ls[..n], [ls[n]], sep);
      var p := Join(ls[..n], sep) + [sep];
      assert s == p + ls[n];
      assert s[|p|..] == ls[n];
    }
  }

  lemma {:induction false} SplitCount(s: string, sep: char)
    ensures sep in s <==> |Split(s, sep)| > 1
    decreases |s|
  {
    if s != "" {
      SplitCount(s[1..], sep);
      assert sep in s <==> s[0] == sep || sep in s[1..];
    }
  }

  lemma FormShape(v: string)
    requires MatchesForm(v)
    ensures forall c :: c in v ==> IsNameChar(c)
    ensures '.' in v && v != "" && IsLetter(v[|v| - 1])
  {
    var ls := Split(v, '.');
    forall c | c in v ensures IsNameChar(c) {
      if c != '.' {
        SplitChars(v, '.', c);
        var p :| p in ls && c in p;
        var i :| 0 <= i < |ls| && ls[i] == p;
        if i == |ls| - 1 { assert IsTopLabel(p); } else { assert IsLabel(p); }
      }
    }
    SplitEnd(v, '.');
    SplitCount(v, '.');
    var l := ls[|ls| - 1];
    assert v[|v| - |l|..][|l| - 1] == v[|v| - 1];
    assert l[|l| - 1] in l;
  }

  lemma BracketFree(v: string)
    requires '[' !in v && ']' !in v
    ensures TrimBrackets(v) == v
  {
    if v != "" { assert v[0] in v && v[|v| - 1] in v; }
  }

  /** The last stages keep a name made of name characters that does not end with a dot. */
  lemma LastStages(v: string, dot: bool)
    requires Plain(v)
    ensures TrimBrackets(ToLower(TrimSuffix(if dot then v + "." else v, "."))) == v
  {
    if dot {
      assert (v + ".")[|v|..] == ".";
      assert (v + ".")[..|v|] == v;
    } else {
      assert v[|v| - 1..][0] == v[|v| - 1];
    }
    assert ToLower(v) == v by {
      forall i | 0 <= i < |v| ensures LowerChar(v[i]) == v[i] { assert v[i] in v; }
    }
    BracketFree(v);
  }

  lemma CheckMeans(isIp: IpTest, v: string)
    ensures Check(isIp, v) != Rejected(SingleLabel) && Check(isIp, v) != Rejected(LocalhostName)
    ensures Check(isIp, v).Accepted? ==> Check(isIp, v).host == v && MatchesForm(v) && v != "" && |v| <= 253
  {
    SplitCount(v, '.');
  }

  /** Two of the checks can never fire: the form already excludes what they look for. */
  lemma UnreachableChecks(isIp: IpTest, raw: string)
    ensures Normalize(isIp, raw) != Rejected(SingleLabel)
    ensures Normalize(isIp, raw) != Rejected(LocalhostName)
  {
    CheckMeans(isIp, Strip(TrimSpace(raw)));
  }

  // --- Wrapping -----------------------------------------------------------------------------------

  predicate IsPort(p: string) { forall c :: c in p ==> IsDigit(c) }

  predicate IsTail(t: string) { t == "" || t[0] in TAIL_START }

  /** What may precede the host after the scheme: nothing, or user information and an at sign. */
  predicate IsUserPart(u: string) {
    u == "" || (u[|u| - 1] == '@' && '/' !in u && '?' !in u && '#' !in u)
  }

  /** What may follow the host before the tail: an optional dot and an optional port. */
  function HostTail(dot: bool, port: PortPart): string {
    (if dot then "." else "") + PortText(port)
  }

  datatype PortPart = NoPort | Port(digits: string)

  lemma SchemeStage(scheme: string, rest: string)
    requires ':' !in scheme
    ensures AfterScheme(scheme + "://" + rest) == rest
  {
    var v := scheme + "://" + rest;
    IndexFromIs(scheme, "://", rest, 0);
    assert v[|scheme| + 3..] == rest;
  }

  lemma TailStage(v: string, tail: string)
    requires '/' !in v && '?' !in v && '#' !in v && IsTail(tail)
    ensures BeforeTail(v + tail) == v
  {
    IndexAnyIs(v, tail, TAIL_START);
    assert (v + tail)[..|v|] == v;
    assert tail == "" ==> v + tail == v;
  }

  lemma UserStage(user: string, v: string)
    requires '@' !in v && IsUserPart(user)
    ensures AfterUserinfo(user + v) == v
  {
    if user == "" {
      assert user + v == v;
      LastIndexAbsent(v, '@');
    } else {
      var a := user[..|user| - 1];
      assert a + ['@'] + v == user + v;
      LastIndexIs(a, '@', v);
      assert (user + v)[|user|..] == v;
    }
  }

  function PortText(port: PortPart): string {
    match port case NoPort => "" case Port(p) => ":" + p
  }

  lemma PortStage(v: string, port: PortPart)
    requires v != "" && v[0] != '[' && ':' !in v
    requires port.Port? ==> IsPort(port.digits)
    ensures WithoutPort(v + PortText(port)) == v
  {
    assert (v + PortText(port))[0] == v[0];
    if port.Port? {
      assert v + PortText(port) == v + [':'] + port.digits;
      LastIndexIs(v, ':', port.digits);
      assert (v + PortText(port))[..|v|] == v;
    } else {
      assert v + PortText(port) == v;
      LastIndexAbsent(v, ':');
    }
  }

  /** A host name as it may appear in the input: name characters, no final dot. */
  predicate Plain(h: string) {
    h != "" && (forall c :: c in h ==> IsNameChar(c)) && h[|h| - 1] != '.'
  }

  lemma DottedChars(host: string, dot: bool, port: PortPart)
    requires Plain(host) && (port.Port? ==> IsPort(port.digits))
    ensures var hd := if dot then host + "." else host;
            && host + HostTail(dot, port) == hd + PortText(port)
            && hd != "" && hd[0] != '[' && ':' !in hd
            && (forall c :: c in hd + PortText(port) ==> IsNameChar(c) || c == ':')
  {
    var hd := if dot then host + "." else host;
    var pt := PortText(port);
    assert hd[0] == host[0] && hd[0] in host;
    forall c | c in hd ensures IsNameChar(c) { assert c in host || c == '.'; }
    PortChars(port);
    forall c | c in hd + pt ensures IsNameChar(c) || c == ':' { assert c in hd || c in pt; }
  }

  lemma PortChars(port: PortPart)
    requires port.Port? ==> IsPort(port.digits)
    ensures forall c :: c in PortText(port) ==> IsDigit(c) || c == ':'
  {
    if port.Port? {
      forall c | c in PortText(port) ensures IsDigit(c) || c == ':' { assert c == ':' || c in port.digits; }
    }
  }

  /** Stripping undoes user information, a trailing dot, a port and a tail. */
  lemma AuthorityStripped(user: string, host: string, dot: bool, port: PortPart, tail: string)
    requires Plain(host)
    requires IsUserPart(user) && IsTail(tail) && (port.Port? ==> IsPort(port.digits))
    ensures StripAuthority(user + (host + HostTail(dot, port)) + tail) == host
  {
    hide BeforeTail, AfterUserinfo, WithoutPort, TrimBrackets, ToLower, TrimSuffix;
    DottedChars(host, dot, port);
    var hd := if dot then host + "." else host;
    var t := hd + PortText(port);
    assert forall c :: c in user + t ==> c in user || c in t;
    TailStage(user + t, tail);
    UserStage(user, t);
    PortStage(hd, port);
    LastStages(host, dot);
  }

  lemma TrimTail(b: string, tail: string) returns (t: string)
    requires b != "" && !IsSpace(b[0]) && !IsSpace(b[|b| - 1])
    ensures t <= tail && TrimSpace(b + tail) == b + t
  {
    var q := TrimRightParts(tail);
    t := TrimRight(tail);
    var w := b + t;
    assert w[0] == b[0];
    assert w[|w| - 1] == if t == "" then b[|b| - 1] else t[|t| - 1];
    assert "" + w + q == b + tail;
    TrimSpaceIs("", w, q);
  }

  /** A name that passes the checks and is made of name characters. */
  predicate Clean(isIp: IpTest, h: string) {
    && Check(isIp, h) == Accepted(h)
    && h != ""
    && (forall c :: c in h ==> IsNameChar(c))
    && IsLetter(h[|h| - 1])
  }

  lemma AcceptedMeans(isIp: IpTest, raw: string)
    requires Normalize(isIp, raw).Accepted?
    ensures var h := Normalize(isIp, raw).host;
            Clean(isIp, h) && MatchesForm(h) && |h| <= 253
  {
    CheckedIsClean(isIp, Strip(TrimSpace(raw)));
  }

  lemma CheckedIsClean(isIp: IpTest, v: string)
    ensures Check(isIp, v).Accepted? ==>
              Check(isIp, v).host == v && Clean(isIp, v) && MatchesForm(v) && |v| <= 253
  {
    CheckMeans(isIp, v);
    if Check(isIp, v).Accepted? { FormShape(v); }
  }

  lemma HostEnd(h: string, dot: bool, port: PortPart)
    requires h != "" && IsLetter(h[|h| - 1])
    requires port.Port? ==> IsPort(port.digits)
    ensures var t := h + HostTail(dot, port); !IsSpace(t[|t| - 1])
  {
    if port.Port? && port.digits != "" {
      var p := port.digits;
      var t := h + HostTail(dot, port);
      assert t[|t| - 1] == p[|p| - 1] && p[|p| - 1] in p;
    }
  }

  /** Stripping the wrapped host, once surrounding white space is gone. */
  lemma WrappedStrip(isIp: IpTest, h: string, scheme: string, user: string, dot: bool, port: PortPart, tail: string)
    requires Clean(isIp, h)
    requires ':' !in scheme
    requires IsUserPart(user) && IsTail(tail) && (port.Port? ==> IsPort(port.digits))
    ensures Strip(scheme + "://" + (user + (h + HostTail(dot, port)) + tail)) == h
  {
    SchemeStage(scheme, user + (h + HostTail(dot, port)) + tail);
    AuthorityStripped(user, h, dot, port, tail);
  }

  lemma WrappedTrim(h: string, scheme: string, user: string, dot: bool, port: PortPart, tail: string)
    returns (t: string)
    requires h != "" && IsLetter(h[|h| - 1])
    requires scheme != "" ==> !IsSpace(scheme[0])
    requires IsTail(tail) && (port.Port? ==> IsPort(port.digits))
    ensures IsTail(t)
    ensures TrimSpace(scheme + "://" + (user + (h + HostTail(dot, port)) + tail))
            == scheme + "://" + (user + (h + HostTail(dot, port)) + t)
  {
    HostEnd(h, dot, port);
    t := InnerTrim(scheme, user, h + HostTail(dot, port), tail);
  }

  lemma InnerTrim(scheme: string, user: string, e: string, tail: string) returns (t: string)
    requires e != "" && !IsSpace(e[|e| - 1])
    requires scheme != "" ==> !IsSpace(scheme[0])
    requires IsTail(tail)
    ensures IsTail(t)
    ensures TrimSpace(scheme + "://" + (user + e + tail)) == scheme + "://" + (user + e + t)
  {
    var b := scheme + "://" + (user + e);
    assert b[|b| - 1] == e[|e| - 1];
    assert b[0] == if scheme == "" then ':' else scheme[0];
    t := TrimTail(b, tail);
    assert t != "" ==> t[0] == tail[0];
    assert scheme + "://" + (user + e + tail) == b + tail;
    assert scheme + "://" + (user + e + t) == b + t;
  }

  lemma WrappedClean(isIp: IpTest, h: string, scheme: string, user: string, dot: bool, port: PortPart, tail: string)
    requires Clean(isIp, h)
    requires ':' !in scheme && (scheme != "" ==> !IsSpace(scheme[0]))
    requires IsUserPart(user) && IsTail(tail) && (port.Port? ==> IsPort(port.digits))
    ensures Normalize(isIp, scheme + "://" + (user + (h + HostTail(dot, port)) + tail)) == Accepted(h)
  {
    var t := WrappedTrim(h, scheme, user, dot, port, tail);
    WrappedStrip(isIp, h, scheme, user, dot, port, t);
  }

  /**
   * Wrapping an accepted host with a scheme, user information, a trailing dot, a port and a tail
   * changes nothing. The scheme may be any text without a colon that does not start with a space.
   */
  lemma WrappingIsIgnored(isIp: IpTest, raw: string,
                          scheme: string, user: string, dot: bool, port: PortPart, tail: string)
    requires Normalize(isIp, raw).Accepted?
    requires ':' !in scheme && (scheme != "" ==> !IsSpace(scheme[0]))
    requires IsUserPart(user) && IsTail(tail) && (port.Port? ==> IsPort(port.digits))
    ensures var h := Normalize(isIp, raw).host;
            Normalize(isIp, scheme + "://" + (user + (h + HostTail(dot, port)) + tail)) == Accepted(h)
  {
    AcceptedMeans(isIp, raw);
    WrappedClean(isIp, Normalize(isIp, raw).host, scheme, user, dot, port, tail);
  }

  lemma CleanStrip(isIp: IpTest, h: string)
    requires Clean(isIp, h)
    ensures Strip(h) == h
  {
    NoScheme(h);
    BareAuthority(h);
  }

  lemma BareAuthority(h: string)
    requires Plain(h)
    ensures StripAuthority(h) == h
  {
    AuthorityStripped("", h, false, NoPort, "");
    assert "" + (h + HostTail(false, NoPort)) + "" == h;
  }

  lemma NoScheme(h: string)
    requires forall c :: c in h ==> IsNameChar(c)
    ensures AfterScheme(h) == h
  {
    OccursNeedsChar(h, "://", 0);
  }

  lemma CleanTrim(isIp: IpTest, h: string)
    requires Clean(isIp, h)
    ensures TrimSpace(h) == h
  {
    assert h[0] in h;
    TrimSpaceMeaning(h);
  }

  lemma CleanIsFixedPoint(isIp: IpTest, h: string)
    requires Clean(isIp, h)
    ensures Normalize(isIp, h) == Accepted(h)
  {
    CleanTrim(isIp, h);
    CleanStrip(isIp, h);
  }

  /** Every accepted output is a fixed point of the required shape. */
  lemma AcceptedIsFixedPoint(isIp: IpTest, raw: string)
    requires Normalize(isIp, raw).Accepted?
    ensures var h := Normalize(isIp, raw).host;
            var ls := Split(h, '.');
            && Normalize(isIp, h) == Accepted(h)
            && |ls| >= 2 && (forall l :: l in ls ==> 1 <= |l| <= 63)
            && |h| <= 253
  {
    AcceptedMeans(isIp, raw);
    var h := Normalize(isIp, raw).host;
    CleanIsFixedPoint(isIp, h);
    LabelLengths(h);
  }

  /** The accepted names, label by label: lower-case letters, digits and inner hyphens, and a last label of letters. */
  predicate NameForm(h: string) {
    var ls := Split(h, '.');
    && |ls| >= 2
    && (forall i, k :: 0 <= i < |ls| && 0 <= k < |ls[i]| ==>
          || 'a' <= ls[i][k] <= 'z'
          || (i < |ls| - 1 && ('0' <= ls[i][k] <= '9' || (ls[i][k] == '-' && 0 < k < |ls[i]| - 1))))
    && (forall i :: 0 <= i < |ls| ==> 1 <= |ls[i]| <= 63)
    && |ls[|ls| - 1]| >= 2
  }

  lemma FormIsNameForm(h: string)
    ensures MatchesForm(h) <==> NameForm(h)
  {
    var ls := Split(h, '.');
    if MatchesForm(h) {
      forall i | 0 <= i < |ls| ensures 1 <= |ls[i]| <= 63 {
        assert i < |ls| - 1 ==> IsLabel(ls[i]);
      }
      forall i, k | 0 <= i < |ls| && 0 <= k < |ls[i]|
        ensures || 'a' <= ls[i][k] <= 'z'
                || (i < |ls| - 1 && ('0' <= ls[i][k] <= '9' || (ls[i][k] == '-' && 0 < k < |ls[i]| - 1)))
      {
        assert ls[i][k] in ls[i];
        assert i < |ls| - 1 ==> IsLabel(ls[i]);
      }
    }
    if NameForm(h) {
      forall i | 0 <= i < |ls| - 1 ensures IsLabel(ls[i]) {
        assert forall k :: 0 <= k < |ls[i]| ==> IsHostChar(ls[i][k]);
      }
    }
  }

  /** Which names are accepted as they are; by the fixed point no others come out. */
  lemma AcceptedExactly(isIp: IpTest, h: string)
    ensures Normalize(isIp, h) == Accepted(h) <==>
            && |h| <= 253 && !isIp(h) && NameForm(h)
            && !HasSuffix(h, ".local") && !HasSuffix(h, ".localhost") && !HasSuffix(h, ".internal")
            && !HasSuffix(h, ".invalid") && !HasSuffix(h, ".test") && !HasSuffix(h, ".localdomain")
  {
    hide TrimSpace, Strip, MatchesForm, NameForm, HasSuffix;
    FormIsNameForm(h);
    InternalNames(h);
    if Normalize(isIp, h) == Accepted(h) {
      CheckMeans(isIp, Strip(TrimSpace(h)));
    }
    if MatchesForm(h) && |h| <= 253 && !isIp(h) && !InternalLooking(h) {
      FormShape(h);
      SplitCount(h, '.');
      NotLocalhost(h);
      CleanIsFixedPoint(isIp, h);
    }
  }

  lemma NotLocalhost(h: string)
    requires '.' in h
    ensures h != "localhost"
  {
  }

  lemma InternalNames(h: string)
    ensures InternalLooking(h) <==>
            || HasSuffix(h, ".local") || HasSuffix(h, ".localhost") || HasSuffix(h, ".internal")
            || HasSuffix(h, ".invalid") || HasSuffix(h, ".test") || HasSuffix(h, ".localdomain")
  {
    hide HasSuffix;
    var all := INTERNAL_SUFFIXES;
    assert all[0] in all && all[1] in all && all[2] in all && all[3] in all && all[4] in all && all[5] in all;
  }

  lemma LabelLengths(h: string)
    requires MatchesForm(h)
    ensures forall l :: l in Split(h, '.') ==> 1 <= |l| <= 63
  {
    var ls := Split(h, '.');
    forall l | l in ls ensures 1 <= |l| <= 63 {
      var i :| 0 <= i < |ls| && ls[i] == l;
      if i < |ls| - 1 { assert IsLabel(ls[i]); }
    }
  }

  // --- Wrapping without a scheme --------------------------------------------------------------------

  lemma UserPartTrimmed(u: string)
    requires IsUserPart(u)
    ensures IsUserPart(TrimLeft(u)) && (TrimLeft(u) != "" ==> !IsSpace(TrimLeft(u)[0]))
  {
    var p := TrimLeftParts(u);
    if u != "" {
      var t := TrimLeft(u);
      assert forall k :: 0 <= k < |p| ==> p[k] in p;
      assert u[|u| - 1] == t[|t| - 1];
      assert forall c :: c in t ==> c in u;
    }
  }

  lemma BareTrim(user: string, e: string, tail: string) returns (t: string)
    requires IsUserPart(user) && IsTail(tail) && e != "" && !IsSpace(e[0]) && !IsSpace(e[|e| - 1])
    ensures IsTail(t) && IsUserPart(TrimLeft(user))
    ensures TrimSpace(user + e + tail) == TrimLeft(user) + e + t
  {
    hide IsSpace, TrimSpace, TrimLeft, TrimRight;
    UserPartTrimmed(user);
    var p := TrimLeftParts(user);
    var b := TrimLeft(user) + e;
    assert b[0] == if TrimLeft(user) == "" then e[0] else TrimLeft(user)[0];
    assert b[|b| - 1] == e[|e| - 1];
    var q := TrimRightParts(tail);
    t := TrimRight(tail);
    var w := b + t;
    assert w[0] == b[0];
    assert w[|w| - 1] == if t == "" then b[|b| - 1] else t[|t| - 1];
    assert p + w + q == user + e + tail;
    TrimSpaceIs(p, w, q);
    assert t != "" ==> t[0] == tail[0];
  }

  /** A text without "://" has none after trimming either. */
  lemma TrimmedHasNoScheme(s: string)
    requires Index(s, "://") < 0
    ensures AfterScheme(TrimSpace(s)) == TrimSpace(s)
  {
    var p, q := TrimSpaceParts(s);
    var t := TrimSpace(s);
    IndexMeaning(s, "://");
    IndexMeaning(t, "://");
    var i := Index(t, "://");
    if i >= 0 {
      assert s[|p| + i..|p| + i + 3] == t[i..i + 3];
      assert OccursAt(s, "://", |p| + i);
    }
  }

  lemma SchemelessClean(isIp: IpTest, h: string, user: string, dot: bool, port: PortPart, tail: string)
    requires Clean(isIp, h)
    requires IsUserPart(user) && IsTail(tail) && (port.Port? ==> IsPort(port.digits))
    requires Index(user + (h + HostTail(dot, port)) + tail, "://") < 0
    ensures Normalize(isIp, user + (h + HostTail(dot, port)) + tail) == Accepted(h)
  {
    hide StripAuthority, Check, Index;
    var e := h + HostTail(dot, port);
    HostEnd(h, dot, port);
    assert e[0] == h[0] && h[0] in h;
    var t := BareTrim(user, e, tail);
    TrimmedHasNoScheme(user + e + tail);
    AuthorityStripped(TrimLeft(user), h, dot, port, t);
  }

  /** Wrapping without a scheme is ignored as long as "://" does not occur anywhere. */
  lemma SchemelessWrappingIsIgnored(isIp: IpTest, raw: string, user: string, dot: bool, port: PortPart, tail: string)
    requires Normalize(isIp, raw).Accepted?
    requires IsUserPart(user) && IsTail(tail) && (port.Port? ==> IsPort(port.digits))
    ensures var h := Normalize(isIp, raw).host;
            var text := user + (h + HostTail(dot, port)) + tail;
            Index(text, "://") < 0 ==> Normalize(isIp, text) == Accepted(h)
  {
    AcceptedMeans(isIp, raw);
    var h := Normalize(isIp, raw).host;
    if Index(user + (h + HostTail(dot, port)) + tail, "://") < 0 {
      SchemelessClean(isIp, h, user, dot, port, tail);
    }
  }

  /** What follows the first "://" of a text. */
  function Named(text: string): string
    requires Index(text, "://") >= 0
  {
    text[Index(text, "://") + 3..]
  }

  /** The first "://" lies within the trimmed text. */
  lemma FirstSchemeInside(text: string, p: string, m: string, q: string)
    requires text == p + m + q && Index(text, "://") >= 0
    requires (forall c :: c in p ==> IsSpace(c)) && (forall c :: c in q ==> IsSpace(c))
    ensures |p| <= Index(text, "://") && Index(text, "://") + 3 <= |p| + |m|
  {
    hide IsSpace;
    var i := Index(text, "://");
    IndexMeaning(text, "://");
    var sub := text[i..i + 3];
    assert sub[0] == text[i] && sub[2] == text[i + 2];
    NoSpaceInScheme();
  }

  lemma NoSpaceInScheme()
    ensures !IsSpace(':') && !IsSpace('/')
  {
  }

  /** And is the first one there. */
  lemma FirstSchemeShifts(text: string, p: string, m: string, q: string)
    requires text == p + m + q && Index(text, "://") >= 0
    requires |p| <= Index(text, "://") && Index(text, "://") + 3 <= |p| + |m|
    ensures Index(m, "://") == Index(text, "://") - |p|
  {
    hide Index;
    var k := Index(text, "://") - |p|;
    IndexMeaning(text, "://");
    IndexMeaning(m, "://");
    assert m[k..k + 3] == text[|p| + k..|p| + k + 3];
    assert OccursAt(m, "://", k);
    var j := Index(m, "://");
    assert text[|p| + j..|p| + j + 3] == m[j..j + 3];
    assert OccursAt(text, "://", |p| + j);
  }

  lemma FirstSchemeTrimmed(text: string) returns (b: string)
    requires Index(text, "://") >= 0
    ensures AfterScheme(TrimSpace(text)) == b && TrimSpace("://" + Named(text)) == "://" + b
    ensures TrimSpace(text) != ""
  {
    hide Index, IsSpace, TrimSpace;
    var p, q := TrimSpaceParts(text);
    var m := TrimSpace(text);
    FirstSchemeInside(text, p, m, q);
    FirstSchemeShifts(text, p, m, q);
    var k := Index(m, "://");
    b := m[k + 3..];
    assert Named(text) == b + q;
    NoSpaceInScheme();
    var w := "://" + b;
    assert w[|w| - 1] == if b == "" then '/' else m[|m| - 1];
    assert "" + w + q == "://" + Named(text);
    TrimSpaceIs("", w, q);
  }

  /** Otherwise the result is the one of what follows the first "://". */
  lemma FirstSchemeWins(isIp: IpTest, text: string)
    requires Index(text, "://") >= 0
    ensures Normalize(isIp, text) == Normalize(isIp, "://" + Named(text))
  {
    hide StripAuthority, Check, Index;
    var b := FirstSchemeTrimmed(text);
    SchemeStage("", b);
    assert "" + "://" + b == "://" + b;
  }

  /**
   * Without a scheme a "://" further on is taken for one: the host named there wins.
   * For example "example.com/?u=http" followed by "://" and another host yields the other host.
   */
  lemma LaterSchemeWins(isIp: IpTest, rawFirst: string, rawOther: string, path: string)
    requires Normalize(isIp, rawFirst).Accepted? && Normalize(isIp, rawOther).Accepted?
    requires ':' !in path && IsTail(path)
    ensures Normalize(isIp, Normalize(isIp, rawFirst).host + path + "://" + Normalize(isIp, rawOther).host)
            == Normalize(isIp, rawOther)
  {
    AcceptedMeans(isIp, rawFirst);
    AcceptedMeans(isIp, rawOther);
    CleanThenOther(isIp, Normalize(isIp, rawFirst).host, Normalize(isIp, rawOther).host, path);
  }

  lemma CleanThenOther(isIp: IpTest, h1: string, h2: string, path: string)
    requires Clean(isIp, h1) && Clean(isIp, h2) && ':' !in path
    ensures Normalize(isIp, h1 + path + "://" + h2) == Accepted(h2)
  {
    var scheme := h1 + path;
    assert scheme[0] == h1[0] && h1[0] in h1;
    assert forall c :: c in scheme ==> c in h1 || c in path;
    WrappedClean(isIp, h2, scheme, "", false, NoPort, "");
    assert "" + (h2 + HostTail(false, NoPort)) + "" == h2;
  }
}
