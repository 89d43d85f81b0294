/** The admin list filter: LIKE escaping and the WHERE clause built around it. */
module Like {
  import opened Model
  import opened Text

  // PostgreSQL LIKE (section 9.7.1 of the PostgreSQL manual) with the default escape character:
  // '%' stands for any string, '_' for any one character, and '\' makes the next one literal.

  /** No dangling escape: PostgreSQL raises an error for a pattern that ends with one. */
  predicate PatternOk(p: string) {
    p == "" || (if p[0] == '\\' then |p| >= 2 && PatternOk(p[2..]) else PatternOk(p[1..]))
  }

  predicate LikeMatch(s: string, p: string)
    decreases |s| + |p|
  {
    if p == "" then s == ""
    else if p[0] == '%' then LikeMatch(s, p[1..]) || (s != "" && LikeMatch(s[1..], p))
    else if p[0] == '_' then s != "" && LikeMatch(s[1..], p[1..])
    else if p[0] == '\\' then |p| >= 2 && s != "" && s[0] == p[1] && LikeMatch(s[1..], p[2..])
    else s != "" && s[0] == p[0] && LikeMatch(s[1..], p[1..])
  }

  /** Case-insensitive form. */
  predicate ILikeMatch(s: string, p: string) {
    LikeMatch(ToLower(s), ToLower(p))
  }

  /** The service's escaping: three passes over the whole string, backslash first. */
  function EscapeLike(s: string): string {
    var s1 := ReplaceAll(s, '\\', "\\\\");
    var s2 := ReplaceAll(s1, '%', "\\%");
    ReplaceAll(s2, '_', "\\_")
  }

  predicate Meta(c: char) {
    c == '\\' || c == '%' || c == '_'
  }

  /** Reference definition: one pass that puts a backslash before each metacharacter. */
  function EscapeEach(s: string): string {
    if s == "" then ""
    else (if Meta(s[0]) then ['\\', s[0]] else [s[0]]) + EscapeEach(s[1..])
  }

  lemma ReplaceSingle(x: char, c: char, w: string)
    ensures ReplaceAll([x], c, w) == (if x == c then w else [x])
  {
    assert [x][1..] == "";
  }

  lemma EscapeOne(c: char)
    ensures EscapeLike([c]) == (if Meta(c) then ['\\', c] else [c])
  {
    forall x, d, w { ReplaceSingle(x, d, w); }
    ReplaceAllConcat(['\\'], [c], '%', "\\%");
    ReplaceAllConcat(['\\'], [c], '_', "\\_");
    assert "\\%" == ['\\'] + ['%'] && "\\\\" == ['\\'] + ['\\'];
  }

  lemma {:induction false} ThreePassesAreOnePass(s: string)
    ensures EscapeLike(s) == EscapeEach(s)
    decreases |s|
  {
    if s != "" {
      var h, t := [s[0]], s[1..];
      assert s == h + t;
      ReplaceAllConcat(h, t, '\\', "\\\\");
      var h1, t1 := ReplaceAll(h, '\\', "\\\\"), ReplaceAll(t, '\\', "\\\\");
      ReplaceAllConcat(h1, t1, '%', "\\%");
      ReplaceAllConcat(ReplaceAll(h1, '%', "\\%"), ReplaceAll(t1, '%', "\\%"), '_', "\\_");
      EscapeOne(s[0]);
      ThreePassesAreOnePass(t);
    }
  }

  // --- Exactness --------------------------------------------------------------------------

  /** An escaped query followed by '%' matches exactly the strings that start with the query. */
  lemma {:induction false} EscapedPrefix(s: string, q: string)
    ensures LikeMatch(s, EscapeEach(q) + "%") <==> q <= s
    decreases |q|
  {
    if q == "" {
      assert EscapeEach(q) + "%" == "%";
      PercentMatchesAll(s);
    } else {
      var p := EscapeEach(q) + "%";
      var rest := EscapeEach(q[1..]) + "%";
      if Meta(q[0]) {
        assert p[0] == '\\' && p[1] == q[0] && p[2..] == rest;
      } else {
        assert p[0] == q[0] && p[1..] == rest;
      }
      if s != "" {
        EscapedPrefix(s[1..], q[1..]);
        assert q <= s <==> s[0] == q[0] && q[1..] <= s[1..];
      }
    }
  }

  lemma {:induction false} PercentMatchesAll(s: string)
    ensures LikeMatch(s, "%")
    decreases |s|
  {
    assert "%"[1..] == "";
    if s != "" { PercentMatchesAll(s[1..]); }
  }

  lemma {:induction false} ContainsStep(s: string, q: string)
    ensures Contains(s, q) <==> q <= s || (s != "" && Contains(s[1..], q))
  {
    if Contains(s, q) {
      var i :| OccursAt(s, q, i);
      if i > 0 {
        assert s[1..][i - 1..i - 1 + |q|] == s[i..i + |q|];
        assert OccursAt(s[1..], q, i - 1);
      }
    }
    if q <= s { assert OccursAt(s, q, 0); }
    if s != "" && Contains(s[1..], q) {
      var i :| OccursAt(s[1..], q, i);
      assert s[i + 1..i + 1 + |q|] == s[1..][i..i + |q|];
      assert OccursAt(s, q, i + 1);
    }
  }

  lemma {:induction false} EscapedSubstring(s: string, q: string)
    ensures LikeMatch(s, "%" + EscapeEach(q) + "%") <==> Contains(s, q)
    decreases |s|
  {
    var p := "%" + EscapeEach(q) + "%";
    assert p[0] == '%' && p[1..] == EscapeEach(q) + "%";
    EscapedPrefix(s, q);
    ContainsStep(s, q);
    if s != "" { EscapedSubstring(s[1..], q); }
  }

  lemma {:induction false} EscapedPatternOk(q: string)
    ensures PatternOk(EscapeEach(q) + "%")
    decreases |q|
  {
    if q == "" {
      assert EscapeEach(q) + "%" == "%" && "%"[1..] == "";
    } else {
      EscapedPatternOk(q[1..]);
      var p := EscapeEach(q) + "%";
      if Meta(q[0]) {
        assert p[0] == '\\' && p[2..] == EscapeEach(q[1..]) + "%";
      } else {
        assert p[0] == q[0] && p[1..] == EscapeEach(q[1..]) + "%";
      }
    }
  }

  /** The escaped pattern is legal and selects exactly the strings that contain the query. */
  lemma EscapeIsExact(s: string, q: string)
    ensures PatternOk("%" + EscapeLike(q) + "%")
    ensures LikeMatch(s, "%" + EscapeLike(q) + "%") <==> Contains(s, q)
  {
    ThreePassesAreOnePass(q);
    EscapedSubstring(s, q);
    EscapedPatternOk(q);
    var p := "%" + EscapeEach(q) + "%";
    assert p[0] == '%' && p[1..] == EscapeEach(q) + "%";
  }

  lemma {:induction false} LowerCommutesWithEscape(q: string)
    ensures ToLower(EscapeEach(q)) == EscapeEach(ToLower(q))
    decreases |q|
  {
    if q != "" {
      LowerCommutesWithEscape(q[1..]);
      assert ToLower(q)[1..] == ToLower(q[1..]);
      var h := if Meta(q[0]) then ['\\', q[0]] else [q[0]];
      ToLowerConcat(h, EscapeEach(q[1..]));
      assert ToLower(h) == if Meta(q[0]) then ['\\', q[0]] else [LowerChar(q[0])];
    }
  }

  lemma EscapeIsExactIgnoringCase(s: string, q: string)
    ensures ILikeMatch(s, "%" + EscapeLike(q) + "%") <==> Contains(ToLower(s), ToLower(q))
  {
    ThreePassesAreOnePass(q);
    ThreePassesAreOnePass(ToLower(q));
    LowerCommutesWithEscape(q);
    ToLowerConcat("%" + EscapeEach(q), "%");
    ToLowerConcat("%", EscapeEach(q));
    assert ToLower("%") == "%";
    EscapeIsExact(ToLower(s), ToLower(q));
  }

  // --- The order of the passes matters ------------------------------------------------------

  /** The same three passes with the backslash pass last. */
  function EscapeBackslashLast(s: string): string {
    ReplaceAll(ReplaceAll(ReplaceAll(s, '%', "\\%"), '_', "\\_"), '\\', "\\\\")
  }

  function Count(s: string, c: char): nat {
    if s == "" then 0 else (if s[0] == c then 1 else 0) + Count(s[1..], c)
  }

  lemma {:induction false} CountConcat(a: string, b: string, c: char)
    ensures Count(a + b, c) == Count(a, c) + Count(b, c)
    decreases |a|
  {
    if a == "" {
      assert a + b == b;
    } else {
      CountConcat(a[1..], b, c);
      assert (a + b)[1..] == a[1..] + b;
    }
  }

  /** A pass that doubles a character adds one backslash for each occurrence. */
  lemma {:induction false} PassCounts(s: string, c: char, d: char)
    ensures |ReplaceAll(s, c, ['\\', c])| == |s| + Count(s, c)
    ensures Count(ReplaceAll(s, c, ['\\', c]), d) == Count(s, d) + (if d == '\\' then Count(s, c) else 0)
    decreases |s|
  {
    if s != "" {
      PassCounts(s[1..], c, d);
      var h := if s[0] == c then ['\\', c] else [s[0]];
      CountConcat(h, ReplaceAll(s[1..], c, ['\\', c]), d);
      assert h[1..] == if s[0] == c then [c] else "";
      assert [c][1..] == "";
    }
  }

  lemma {:induction false} CountZero(s: string, c: char)
    ensures Count(s, c) == 0 <==> c !in s
    decreases |s|
  {
    if s != "" {
      CountZero(s[1..], c);
      assert c in s <==> s[0] == c || c in s[1..];
    }
  }

  lemma {:induction false} ReplaceAbsent(s: string, c: char, w: string)
    requires c !in s
    ensures ReplaceAll(s, c, w) == s
    decreases |s|
  {
    if s != "" {
      assert forall x :: x in s[1..] ==> x in s;
      ReplaceAbsent(s[1..], c, w);
    }
  }

  /** Running the backslash pass last is harmless exactly for queries without '%' and '_'. */
  lemma BackslashPassMustComeFirst(s: string)
    ensures EscapeBackslashLast(s) == EscapeLike(s) <==> '%' !in s && '_' !in s
  {
    var right1 := ReplaceAll(s, '\\', "\\\\");
    var right2 := ReplaceAll(right1, '%', "\\%");
    var wrong1 := ReplaceAll(s, '%', "\\%");
    var wrong2 := ReplaceAll(wrong1, '_', "\\_");
    PassCounts(s, '\\', '%'); PassCounts(s, '\\', '_');
    PassCounts(right1, '%', '_'); PassCounts(right2, '_', '_');
    PassCounts(s, '%', '_'); PassCounts(s, '%', '\\');
    PassCounts(wrong1, '_', '\\'); PassCounts(wrong2, '\\', '\\');
    assert |EscapeLike(s)| == |s| + Count(s, '\\') + Count(s, '%') + Count(s, '_');
    assert |EscapeBackslashLast(s)| == |s| + Count(s, '\\') + 2 * Count(s, '%') + 2 * Count(s, '_');
    CountZero(s, '%'); CountZero(s, '_');
    CountZero(right1, '%'); CountZero(right2, '_');
    if '%' !in s && '_' !in s {
      ReplaceAbsent(s, '%', "\\%"); ReplaceAbsent(s, '_', "\\_");
      ReplaceAbsent(right1, '%', "\\%"); ReplaceAbsent(right1, '_', "\\_");
    }
  }

  // --- The WHERE clause --------------------------------------------------------------------

  datatype Filter = Filter(userId: Option<int>, status: Option<Status>, source: Option<Source>, query: Option<string>)

  datatype ListRow = ListRow(userId: int, status: Status, source: Source, value: string, title: Option<string>)

  datatype Arg = IntArg(n: int) | StatusArg(st: Status) | SourceArg(src: Source) | TextArg(text: string)

  /** One conjunct of the clause; `k` is the number of its `$k` placeholder. */
  datatype Conjunct = Always | UserIdIs(k: nat) | StatusIs(k: nat) | SourceIs(k: nat) | ValueOrLabelILike(k: nat)

  /** The value bound to `$k`; a number outside the argument list is a database error. */
  function Bound(args: seq<Arg>, k: nat): Option<Arg> {
    if 1 <= k <= |args| then Some(args[k - 1]) else None
  }

  /** Truth of one conjunct on a row (a NULL label satisfies no ILIKE). */
  predicate Holds(c: Conjunct, args: seq<Arg>, row: ListRow) {
    match c
    case Always => true
    case UserIdIs(k) => Bound(args, k) == Some(IntArg(row.userId))
    case StatusIs(k) => Bound(args, k) == Some(StatusArg(row.status))
    case SourceIs(k) => Bound(args, k) == Some(SourceArg(row.source))
    case ValueOrLabelILike(k) =>
      var b := Bound(args, k);
      && b.Some? && b.value.TextArg?
      && (ILikeMatch(row.value, b.value.text) || (row.title.Some? && ILikeMatch(row.title.value, b.value.text)))
  }

  predicate HoldsAll(cs: seq<Conjunct>, args: seq<Arg>, row: ListRow) {
    forall c :: c in cs ==> Holds(c, args, row)
  }

  /** What the list filter promises: each given field equal, and the query a substring. */
  ghost predicate Selects(f: Filter, row: ListRow) {
    && (f.userId.Some? ==> f.userId.value == row.userId)
    && (f.status.Some? ==> f.status.value == row.status)
    && (f.source.Some? ==> f.source.value == row.source)
    && (f.query.Some? && TrimSpace(f.query.value) != "" ==>
          var q := ToLower(TrimSpace(f.query.value));
          Contains(ToLower(row.value), q) || (row.title.Some? && Contains(ToLower(row.title.value), q)))
  }

  /** The clause built so far is well-formed and means exactly the filter `f`. */
  ghost predicate Exact(cs: seq<Conjunct>, args: seq<Arg>, f: Filter) {
    && (forall c :: c in cs ==> c.Always? || 1 <= c.k <= |args|)
    && (forall row :: HoldsAll(cs, args, row) <==> Selects(f, row))
  }

  /** Appending one argument and the conjunct that refers to it. */
  lemma Extend(cs: seq<Conjunct>, args: seq<Arg>, c: Conjunct, a: Arg, before: Filter, after: Filter)
    requires Exact(cs, args, before)
    requires !c.Always? && c.k == |args| + 1
    requires forall row :: Selects(after, row) <==> Selects(before, row) && Holds(c, args + [a], row)
    ensures Exact(cs + [c], args + [a], after)
  {
    assert forall x :: x in cs + [c] <==> x in cs || x == c;
    forall row
      ensures HoldsAll(cs + [c], args + [a], row) <==> HoldsAll(cs, args, row) && Holds(c, args + [a], row)
    {
      forall x | x in cs
        ensures Holds(x, args, row) == Holds(x, args + [a], row)
      {
        if !x.Always? { assert Bound(args, x.k) == Bound(args + [a], x.k); }
      }
    }
  }

  lemma AddUser(cs: seq<Conjunct>, args: seq<Arg>, f: Filter, u: int)
    requires Exact(cs, args, f) && f.userId.None?
    ensures Exact(cs + [UserIdIs(|args| + 1)], args + [IntArg(u)], f.(userId := Some(u)))
  {
    Extend(cs, args, UserIdIs(|args| + 1), IntArg(u), f, f.(userId := Some(u)));
  }

  lemma AddStatus(cs: seq<Conjunct>, args: seq<Arg>, f: Filter, st: Status)
    requires Exact(cs, args, f) && f.status.None?
    ensures Exact(cs + [StatusIs(|args| + 1)], args + [StatusArg(st)], f.(status := Some(st)))
  {
    Extend(cs, args, StatusIs(|args| + 1), StatusArg(st), f, f.(status := Some(st)));
  }

  lemma AddSource(cs: seq<Conjunct>, args: seq<Arg>, f: Filter, src: Source)
    requires Exact(cs, args, f) && f.source.None?
    ensures Exact(cs + [SourceIs(|args| + 1)], args + [SourceArg(src)], f.(source := Some(src)))
  {
    Extend(cs, args, SourceIs(|args| + 1), SourceArg(src), f, f.(source := Some(src)));
  }

  lemma AddQuery(cs: seq<Conjunct>, args: seq<Arg>, f: Filter, query: string)
    requires Exact(cs, args, f) && f.query.None? && TrimSpace(query) != ""
    ensures Exact(cs + [ValueOrLabelILike(|args| + 1)],
                  args + [TextArg("%" + EscapeLike(TrimSpace(query)) + "%")], f.(query := Some(query)))
  {
    var q := TrimSpace(query);
    forall s { EscapeIsExactIgnoringCase(s, q); }
    Extend(cs, args, ValueOrLabelILike(|args| + 1), TextArg("%" + EscapeLike(q) + "%"), f, f.(query := Some(query)));
  }

  /** Builds the clause step by step; every row satisfies it exactly when the filter selects it. */
  method BuildWhere(f: Filter) returns (where: seq<Conjunct>, args: seq<Arg>)
    ensures Exact(where, args, f)
  {
    where, args := [Always], [];
    ghost var g := Filter(None, None, None, None);
    if f.userId.Some? {
      AddUser(where, args, g, f.userId.value);
      where, args := where + [UserIdIs(|args| + 1)], args + [IntArg(f.userId.value)];
      g := g.(userId := f.userId);
    }
    assert Exact(where, args, g);
    if f.status.Some? {
      AddStatus(where, args, g, f.status.value);
      where, args := where + [StatusIs(|args| + 1)], args + [StatusArg(f.status.value)];
      g := g.(status := f.status);
    }
    assert Exact(where, args, g);
    if f.source.Some? {
      AddSource(where, args, g, f.source.value);
      where, args := where + [SourceIs(|args| + 1)], args + [SourceArg(f.source.value)];
      g := g.(source := f.source);
    }
    assert Exact(where, args, g);
    if f.query.Some? && TrimSpace(f.query.value) != "" {
      AddQuery(where, args, g, f.query.value);
      where, args := where + [ValueOrLabelILike(|args| + 1)],
          args + [TextArg("%" + EscapeLike(TrimSpace(f.query.value)) + "%")];
    }
  }
}
