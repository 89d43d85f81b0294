/** The ASCII string operations the service is built from, written as functions:
    trimming, case folding, searching, splitting and character replacement. */
module Text {
  predicate IsSpace(c: char) {
    c as int in {9, 10, 11, 12, 13, 32}
  }

  function LowerChar(c: char): char {
    if 'A' <= c <= 'Z' then (c as int + 32) as char else c
  }

  function ToLower(s: string): (r: string)
    ensures |r| == |s|
  {
    seq(|s|, i requires 0 <= i < |s| => LowerChar(s[i]))
  }

  function UpperChar(c: char): char {
    if 'a' <= c <= 'z' then (c as int - 32) as char else c
  }

  function ToUpper(s: string): (r: string)
    ensures |r| == |s|
  {
    seq(|s|, i requires 0 <= i < |s| => UpperChar(s[i]))
  }

  function TrimLeft(s: string): (r: string)
    ensures |r| <= |s|
  {
    if s != "" && IsSpace(s[0]) then TrimLeft(s[1..]) else s
  }

  function TrimRight(s: string): (r: string)
    ensures |r| <= |s|
  {
    if s != "" && IsSpace(s[|s| - 1]) then TrimRight(s[..|s| - 1]) else s
  }

  function TrimSpace(s: string): string {
    TrimRight(TrimLeft(s))
  }

  /** No leading and no trailing white space. */
  predicate Trimmed(s: string) {
    s == "" || (!IsSpace(s[0]) && !IsSpace(s[|s| - 1]))
  }

  predicate HasPrefix(s: string, p: string) {
    p <= s
  }

  predicate HasSuffix(s: string, p: string) {
    |p| <= |s| && s[|s| - |p|..] == p
  }

  function TrimPrefix(s: string, p: string): string {
    if HasPrefix(s, p) then s[|p|..] else s
  }

  function TrimSuffix(s: string, p: string): string {
    if HasSuffix(s, p) then s[..|s| - |p|] else s
  }

  predicate OccursAt(s: string, sub: string, i: int) {
    0 <= i && i + |sub| <= |s| && s[i..i + |sub|] == sub
  }

  /** `q` is a substring of `s`. */
  ghost predicate Contains(s: string, q: string) {
    exists i :: OccursAt(s, q, i)
  }

  /** Position of the first occurrence of `sub`, or -1. */
  function Index(s: string, sub: string): (r: int)
    ensures r == -1 || (0 <= r && r + |sub| <= |s|)
  {
    IndexFrom(s, sub, 0)
  }

  function IndexFrom(s: string, sub: string, from: nat): (r: int)
    requires from <= |s|
    ensures r == -1 || (from <= r && r + |sub| <= |s|)
    decreases |s| - from
  {
    if OccursAt(s, sub, from) then from
    else if from == |s| then -1
    else IndexFrom(s, sub, from + 1)
  }

  /** Position of the first character that belongs to `chars`, or -1. */
  function IndexAny(s: string, chars: set<char>): (r: int)
    ensures -1 <= r < |s|
  {
    if s == "" then -1
    else if s[0] in chars then 0
    else var r := IndexAny(s[1..], chars); if r < 0 then -1 else r + 1
  }

  /** Position of the last occurrence of `c`, or -1. */
  function LastIndex(s: string, c: char): (r: int)
    ensures -1 <= r < |s|
  {
    if s == "" then -1
    else if s[|s| - 1] == c then |s| - 1
    else LastIndex(s[..|s| - 1], c)
  }

  /** Every occurrence of the character `c` replaced by the string `w`. */
  function ReplaceAll(s: string, c: char, w: string): string {
    if s == "" then ""
    else (if s[0] == c then w else [s[0]]) + ReplaceAll(s[1..], c, w)
  }

  function Split(s: string, sep: char): (r: seq<string>)
    ensures |r| >= 1
  {
    if s == "" then [""] else Prepend(s[0], Split(s[1..], sep), sep)
  }

  /** The parts of a text that gets one more character in front. */
  function Prepend(c: char, rest: seq<string>, sep: char): (r: seq<string>)
    requires |rest| >= 1
    ensures |r| >= 1
  {
    if c == sep then [""] + rest else [[c] + rest[0]] + rest[1..]
  }

  function Join(parts: seq<string>, sep: char): string {
    if parts == [] then ""
    else if |parts| == 1 then parts[0]
    else parts[0] + [sep] + Join(parts[1..], sep)
  }

  // --- Trimming ---------------------------------------------------------------------------------

  lemma {:induction false} TrimLeftParts(s: string) returns (p: string)
    ensures s == p + TrimLeft(s)
    ensures forall c :: c in p ==> IsSpace(c)
    ensures TrimLeft(s) != "" ==> !IsSpace(TrimLeft(s)[0])
    decreases |s|
  {
    if s != "" && IsSpace(s[0]) {
      var q := TrimLeftParts(s[1..]);
      p := [s[0]] + q;
      assert s == [s[0]] + s[1..];
    } else {
      p := "";
    }
  }

  lemma {:induction false} TrimRightParts(s: string) returns (q: string)
    ensures s == TrimRight(s) + q
    ensures forall c :: c in q ==> IsSpace(c)
    ensures TrimRight(s) != "" ==> !IsSpace(TrimRight(s)[|TrimRight(s)| - 1])
    decreases |s|
  {
    if s != "" && IsSpace(s[|s| - 1]) {
      var p := TrimRightParts(s[..|s| - 1]);
      q := p + [s[|s| - 1]];
      assert s == s[..|s| - 1] + [s[|s| - 1]];
    } else {
      q := "";
    }
  }

  /** What trimming removes: white space on both sides and nothing else. */
  lemma TrimSpaceParts(s: string) returns (p: string, q: string)
    ensures s == p + TrimSpace(s) + q
    ensures forall c :: c in p ==> IsSpace(c)
    ensures forall c :: c in q ==> IsSpace(c)
    ensures Trimmed(TrimSpace(s))
  {
    p := TrimLeftParts(s);
    var l := TrimLeft(s);
    q := TrimRightParts(l);
    var t := TrimRight(l);
    hide TrimLeft, TrimRight;
    assert t != "" ==> l[0] == t[0];
  }

  lemma TrimSpaceMeaning(s: string)
    ensures Trimmed(TrimSpace(s))
    ensures Trimmed(s) ==> TrimSpace(s) == s
  {
    var p, q := TrimSpaceParts(s);
  }

  /** Trimming is decided by where the first and the last other character stand. */
  lemma TrimSpaceIs(p: string, t: string, q: string)
    requires forall c :: c in p ==> IsSpace(c)
    requires forall c :: c in q ==> IsSpace(c)
    requires Trimmed(t) && t != ""
    ensures TrimSpace(p + t + q) == t
  {
    assert p + t + q == p + (t + q);
    TrimLeftIs(p, t + q);
    TrimRightIs(t, q);
  }

  lemma {:induction false} TrimLeftIs(p: string, t: string)
    requires forall c :: c in p ==> IsSpace(c)
    requires t != "" && !IsSpace(t[0])
    ensures TrimLeft(p + t) == t
    decreases |p|
  {
    if p == "" {
      assert p + t == t;
    } else {
      assert p[0] in p && forall c :: c in p[1..] ==> c in p;
      assert (p + t)[1..] == p[1..] + t;
      TrimLeftIs(p[1..], t);
    }
  }

  lemma {:induction false} TrimRightIs(t: string, q: string)
    requires forall c :: c in q ==> IsSpace(c)
    requires t != "" && !IsSpace(t[|t| - 1])
    ensures TrimRight(t + q) == t
    decreases |q|
  {
    if q == "" {
      assert t + q == t;
    } else {
      var n := |q| - 1;
      assert q[n] in q && forall c :: c in q[..n] ==> c in q;
      assert (t + q)[|t + q| - 1] == q[n];
      assert (t + q)[..|t + q| - 1] == t + q[..n];
      TrimRightIs(t, q[..n]);
    }
  }

  /** Cutting before trimming leaves no more than trimming the whole. */
  lemma TrimSpacePrefix(h: string, i: nat)
    requires i <= |h|
    ensures |TrimSpace(h[..i])| <= |TrimSpace(h)|
  {
    var p, q := TrimSpaceParts(h[..i]);
    var t := TrimSpace(h[..i]);
    var u, v := TrimSpaceParts(h);
    var w := TrimSpace(h);
    if t != "" {
      SpaceBefore(h, u, w + v, |p|);
      assert h[|p|] == t[0];
      SpaceAfter(h, u + w, v, |p| + |t| - 1);
      assert h[|p| + |t| - 1] == t[|t| - 1];
    }
  }

  lemma SpaceBefore(s: string, p: string, r: string, i: nat)
    requires s == p + r && (forall c :: c in p ==> IsSpace(c)) && i < |s|
    ensures i < |p| ==> IsSpace(s[i])
  {
    assert i < |p| ==> s[i] == p[i] && p[i] in p;
  }

  lemma SpaceAfter(s: string, r: string, q: string, i: nat)
    requires s == r + q && (forall c :: c in q ==> IsSpace(c)) && i < |s|
    ensures |r| <= i ==> IsSpace(s[i])
  {
    assert |r| <= i ==> s[i] == q[i - |r|] && q[i - |r|] in q;
  }

  // --- Searching --------------------------------------------------------------------------------

  lemma {:induction false} IndexFromMeaning(s: string, sub: string, from: nat)
    requires from <= |s|
    ensures var r := IndexFrom(s, sub, from);
            && (r >= 0 ==> OccursAt(s, sub, r))
            && (forall i :: from <= i && OccursAt(s, sub, i) ==> 0 <= r <= i)
    decreases |s| - from
  {
    if !OccursAt(s, sub, from) && from < |s| {
      IndexFromMeaning(s, sub, from + 1);
    }
  }

  lemma IndexMeaning(s: string, sub: string)
    ensures var r := Index(s, sub);
            && (r >= 0 ==> OccursAt(s, sub, r))
            && (forall i :: OccursAt(s, sub, i) ==> 0 <= r <= i)
  {
    IndexFromMeaning(s, sub, 0);
  }

  /** A string can only occur where all of its characters do. */
  lemma OccursNeedsChar(s: string, sub: string, k: nat)
    requires k < |sub|
    ensures Index(s, sub) >= 0 ==> sub[k] in s
  {
    IndexMeaning(s, sub);
    var i := Index(s, sub);
    if i >= 0 {
      assert s[i..i + |sub|][k] == s[i + k];
    }
  }

  lemma {:induction false} IndexFromIs(a: string, sub: string, b: string, k: nat)
    requires sub != "" && sub[0] !in a && k <= |a|
    ensures IndexFrom(a + sub + b, sub, k) == |a|
    decreases |a| - k
  {
    var s := a + sub + b;
    if k == |a| {
      assert s[k..k + |sub|] == sub;
    } else {
      assert s[k..k + |sub|][0] == a[k] && a[k] in a;
      IndexFromIs(a, sub, b, k + 1);
    }
  }

  /** The first hit, when the text before it is free of the characters looked for. */
  lemma {:induction false} IndexAnyIs(a: string, b: string, chars: set<char>)
    requires forall c :: c in a ==> c !in chars
    requires b != "" ==> b[0] in chars
    ensures IndexAny(a + b, chars) == if b == "" then -1 else |a|
    decreases |a|
  {
    if a == "" {
      assert a + b == b;
    } else {
      assert a[0] in a && forall c :: c in a[1..] ==> c in a;
      assert (a + b)[1..] == a[1..] + b;
      IndexAnyIs(a[1..], b, chars);
    }
  }

  /** The last hit, when the text after it is free of the character. */
  lemma {:induction false} LastIndexIs(a: string, c: char, b: string)
    requires c !in b
    ensures LastIndex(a + [c] + b, c) == |a|
    decreases |b|
  {
    var s := a + [c] + b;
    if b != "" {
      var n := |b| - 1;
      assert b[n] in b && forall x :: x in b[..n] ==> x in b;
      assert s[|s| - 1] == b[n];
      assert s[..|s| - 1] == a + [c] + b[..n];
      LastIndexIs(a, c, b[..n]);
    }
  }

  lemma {:induction false} LastIndexAbsent(s: string, c: char)
    ensures LastIndex(s, c) < 0 <==> c !in s
    ensures LastIndex(s, c) >= 0 ==> s[LastIndex(s, c)] == c
    decreases |s|
  {
    if s != "" {
      LastIndexAbsent(s[..|s| - 1], c);
      assert c in s <==> c in s[..|s| - 1] || s[|s| - 1] == c;
    }
  }

  // --- Case -------------------------------------------------------------------------------------

  lemma ToLowerConcat(a: string, b: string)
    ensures ToLower(a + b) == ToLower(a) + ToLower(b)
  {
  }

  lemma ToLowerIdempotent(s: string)
    ensures ToLower(ToLower(s)) == ToLower(s)
  {
  }

  lemma ToLowerTrimmed(s: string)
    ensures Trimmed(s) ==> Trimmed(ToLower(s))
  {
  }

  // --- Replacing and splitting --------------------------------------------------------------------

  lemma {:induction false} ReplaceAllConcat(a: string, b: string, c: char, w: string)
    ensures ReplaceAll(a + b, c, w) == ReplaceAll(a, c, w) + ReplaceAll(b, c, w)
    decreases |a|
  {
    if a == "" {
      assert a + b == b;
    } else {
      ReplaceAllConcat(a[1..], b, c, w);
      assert (a + b)[1..] == a[1..] + b && (a + b)[0] == a[0];
      var h, x, y := if a[0] == c then w else [a[0]], ReplaceAll(a[1..], c, w), ReplaceAll(b, c, w);
      assert h + (x + y) == h + x + y;
    }
  }

  lemma PrependConcat(c: char, x: seq<string>, y: seq<string>, sep: char)
    requires |x| >= 1
    ensures Prepend(c, x + y, sep) == Prepend(c, x, sep) + y
  {
  }

  lemma {:induction false} SplitSep(a: string, b: string, sep: char)
    ensures Split(a + [sep] + b, sep) == Split(a, sep) + Split(b, sep)
    decreases |a|
  {
    var t := a + [sep] + b;
    if a == "" {
      assert t[0] == sep && t[1..] == b;
    } else {
      SplitSep(a[1..], b, sep);
      assert t[0] == a[0] && t[1..] == a[1..] + [sep] + b;
      PrependConcat(a[0], Split(a[1..], sep), Split(b, sep), sep);
    }
  }

  lemma {:induction false} JoinSplit(s: string, sep: char)
    ensures Join(Split(s, sep), sep) == s
    decreases |s|
  {
    if s != "" {
      JoinSplit(s[1..], sep);
      var rest := Split(s[1..], sep);
      if s[0] == sep {
        assert Join([""] + rest, sep) == "" + [sep] + Join(rest, sep);
      } else if |rest| > 1 {
        var r := [[s[0]] + rest[0]] + rest[1..];
        assert r[1..] == rest[1..];
        assert Join(r, sep) == r[0] + [sep] + Join(r[1..], sep);
        assert Join(rest, sep) == rest[0] + [sep] + Join(rest[1..], sep);
      }
    }
  }

  lemma {:induction false} JoinConcat(a: seq<string>, b: seq<string>, sep: char)
    requires a != [] && b != []
    ensures Join(a + b, sep) == Join(a, sep) + [sep] + Join(b, sep)
    decreases |a|
  {
    if |a| == 1 {
      assert (a + b)[1..] == b;
    } else {
      JoinConcat(a[1..], b, sep);
      assert (a + b)[1..] == a[1..] + b;
    }
  }
}
