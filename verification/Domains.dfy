/** Label-wise reading of the dotted-suffix test that the scope gate relies on. */
module Domains {
  import opened Text

  /** The gate's subdomain test (lower-cases both sides, then compares text). */
  predicate IsSubdomainOf(host: string, apex: string) {
    var h := ToLower(host);
    var a := ToLower(apex);
    Under(h, a)
  }

  /** The text comparison itself. */
  predicate Under(h: string, a: string) {
    h == a || HasSuffix(h, "." + a)
  }

  function Labels(s: string): seq<string> {
    Split(s, '.')
  }

  /** `a`'s labels are the last labels of `h`. */
  predicate LabelSuffix(a: string, h: string) {
    var la, lh := Labels(a), Labels(h);
    |la| <= |lh| && lh[|lh| - |la|..] == la
  }

  lemma SuffixHasLabels(h: string, a: string)
    requires Under(h, a)
    ensures LabelSuffix(a, h)
  {
    var la, lh := Labels(a), Labels(h);
    if h == a {
      assert lh[0..] == la;
    } else {
      var p := h[..|h| - |a| - 1];
      assert h == p + ['.'] + a;
      SplitSep(p, a, '.');
      assert lh[|lh| - |la|..] == la;
    }
  }

  lemma LabelsAreSuffix(h: string, a: string)
    requires LabelSuffix(a, h)
    ensures Under(h, a)
  {
    var la, lh := Labels(a), Labels(h);
    JoinSplit(a, '.');
    JoinSplit(h, '.');
    var x := lh[..|lh| - |la|];
    assert lh == x + la;
    if x == [] {
      assert lh == la;
    } else {
      JoinConcat(x, la, '.');
      var p := Join(x, '.');
      assert h == p + ("." + a);
      assert h[|p|..] == "." + a;
    }
  }

  /** The dotted-suffix text comparison is exactly the label-suffix relation. */
  lemma DottedSuffixIsLabelSuffix(h: string, a: string)
    ensures Under(h, a) <==> LabelSuffix(a, h)
  {
    if Under(h, a) { SuffixHasLabels(h, a); }
    if LabelSuffix(a, h) { LabelsAreSuffix(h, a); }
  }

  lemma SubdomainIsLabelWise(host: string, apex: string)
    ensures IsSubdomainOf(host, apex) <==> LabelSuffix(ToLower(apex), ToLower(host))
  {
    DottedSuffixIsLabelSuffix(ToLower(host), ToLower(apex));
  }

  lemma UnderTransitive(h: string, m: string, a: string)
    requires Under(h, m) && Under(m, a)
    ensures Under(h, a)
  {
    if h != m && m != a {
      var i, j := |h| - |m|, |m| - |a| - 1;
      assert h[i - 1..][1..] == h[i..];
      assert ("." + m)[1..] == m;
      assert h[i..][j..] == h[i + j..];
    }
  }

  lemma UnderComparable(h: string, a: string, b: string)
    requires Under(h, a) && Under(h, b) && |b| <= |a|
    ensures Under(a, b)
  {
    var i, j := |h| - |a|, |h| - |b|;
    if |b| < |a| {
      assert h != b;
      assert h[j - 1..] == "." + b;
      if h != a {
        assert h[i - 1..][1..] == h[i..] && ("." + a)[1..] == a;
      }
      assert h[i..] == a;
      assert h[i..][j - 1 - i..] == h[j - 1..];
    } else {
      assert h[j..] == b by { if h != b { assert h[j - 1..][1..] == h[j..] && ("." + b)[1..] == b; } }
      assert h[i..] == a by { if h != a { assert h[i - 1..][1..] == h[i..] && ("." + a)[1..] == a; } }
    }
  }

  /** The relation is a partial order on case-folded names. */
  lemma SubdomainIsPartialOrder(a: string, b: string, c: string)
    ensures IsSubdomainOf(a, a)
    ensures IsSubdomainOf(a, b) && IsSubdomainOf(b, c) ==> IsSubdomainOf(a, c)
    ensures IsSubdomainOf(a, b) && IsSubdomainOf(b, a) ==> ToLower(a) == ToLower(b)
  {
    if IsSubdomainOf(a, b) && IsSubdomainOf(b, c) {
      UnderTransitive(ToLower(a), ToLower(b), ToLower(c));
    }
  }

  /** The domains a host lies under form a chain: two scopes that cover one host nest. */
  lemma AncestorsAreComparable(host: string, a: string, b: string)
    requires IsSubdomainOf(host, a) && IsSubdomainOf(host, b)
    ensures IsSubdomainOf(a, b) || IsSubdomainOf(b, a)
  {
    if |b| <= |a| {
      UnderComparable(ToLower(host), ToLower(a), ToLower(b));
    } else {
      UnderComparable(ToLower(host), ToLower(b), ToLower(a));
    }
  }
}
