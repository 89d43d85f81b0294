/** From the platform's paged listing to the policy the gate reads: fetch, normalise, replace, list. */
module Sync {
  import opened Model
  import opened Text
  import opened Program
  import Domains
  import Gate

  // --- Fetching -------------------------------------------------------------------------------------

  /** One structured scope as the platform reports it. */
  datatype Scope = Scope(assetType: string, identifier: string, eligible: bool)

  datatype Page = Page(scopes: seq<Scope>, hasNext: bool)

  /** A platform's API: whether a program can be read, and its numbered pages (`None` is an error). */
  datatype Connector = Connector(program: string -> bool, page: (string, nat) -> Option<Page>)

  const MAX_PAGES: nat := 10

  function MapAssetType(stated: string, identifier: string): AssetType {
    if HasPrefix(identifier, "*.") then WildcardAsset
    else
      var t := ToUpper(TrimSpace(stated));
      if t == "WILDCARD" then WildcardAsset
      else if t == "DOMAIN" then DomainAsset
      else if t == "IP_ADDRESS" then IpAsset
      else if t == "CIDR" then CidrAsset
      else if t == "URL" then UrlAsset
      else OtherAsset
  }

  /** The asset that a scope stands for; a blank identifier stands for none. */
  function ImportedOne(s: Scope): seq<Asset> {
    var id := TrimSpace(s.identifier);
    if id == "" then [] else [Asset(MapAssetType(s.assetType, id), id, s.eligible)]
  }

  function Imported(scopes: seq<Scope>): seq<Asset> {
    if scopes == [] then [] else ImportedOne(scopes[0]) + Imported(scopes[1..])
  }

  lemma Regroup<T>(x: seq<T>, y: seq<T>, z: seq<T>)
    ensures x + (y + z) == (x + y) + z
  {
  }

  lemma {:induction false} ImportedConcat(a: seq<Scope>, b: seq<Scope>)
    ensures Imported(a + b) == Imported(a) + Imported(b)
  {
    hide ImportedOne;
    if a == [] {
      assert a + b == b;
    } else {
      ImportedConcat(a[1..], b);
      assert (a + b)[0] == a[0] && (a + b)[1..] == a[1..] + b;
      Regroup(ImportedOne(a[0]), Imported(a[1..]), Imported(b));
    }
  }

  lemma ImportedSnoc(a: seq<Scope>, s: Scope)
    ensures Imported(a + [s]) == Imported(a) + ImportedOne(s)
  {
    hide ImportedOne;
    ImportedConcat(a, [s]);
    assert [s][0] == s && [s][1..] == [];
  }

  /** What remains to be fetched from page `n` on; `None` when some page fails. */
  function Remaining(c: Connector, handle: string, n: nat): Option<seq<Asset>>
    decreases MAX_PAGES + 1 - n
  {
    if n > MAX_PAGES then Some([])
    else match c.page(handle, n)
      case None => None
      case Some(p) =>
        if p.scopes == [] then Some([])
        else if !p.hasNext then Some(Imported(p.scopes))
        else Prefixed(Imported(p.scopes), Remaining(c, handle, n + 1))
  }

  /** Page `n` is served, lists something, and links to the next. */
  predicate Continues(c: Connector, handle: string, n: nat) {
    c.page(handle, n).Some? && c.page(handle, n).value.scopes != [] && c.page(handle, n).value.hasNext
  }

  /** Paging gets as far as page `n`, one of the first ten. */
  predicate Gets(c: Connector, handle: string, n: nat) {
    1 <= n <= 10 && forall k :: 1 <= k < n ==> Continues(c, handle, k)
  }

  /** Paging gets to a page that fails. */
  ghost predicate BreaksOff(c: Connector, handle: string) {
    exists n :: Gets(c, handle, n) && c.page(handle, n).None?
  }

  /** Paging ends with page `n`, which is served: it is the tenth, or empty, or links to no other. */
  predicate EndsWith(c: Connector, handle: string, n: nat) {
    Gets(c, handle, n) && c.page(handle, n).Some? && (n == 10 || !Continues(c, handle, n))
  }

  /** The scopes of one page. */
  function ScopesOn(c: Connector, handle: string, n: nat): seq<Scope> {
    match c.page(handle, n) case Some(p) => p.scopes case None => []
  }

  /** The scopes of the first `n` pages, in order. */
  function FirstPages(c: Connector, handle: string, n: nat): seq<Scope> {
    if n == 0 then [] else FirstPages(c, handle, n - 1) + ScopesOn(c, handle, n)
  }

  /** Paging gets through these pages, to the end. */
  ghost predicate Pages(c: Connector, handle: string, assets: seq<Asset>) {
    exists n :: EndsWith(c, handle, n) && assets == Imported(FirstPages(c, handle, n))
  }

  /** The policy assets of a program, or `None` for any error on the way. */
  function Fetched(c: Connector, handle: string): Option<seq<Asset>> {
    var h := TrimSpace(handle);
    if h == "" || !c.program(h) then None else Remaining(c, h, 1)
  }

  function Prefixed(done: seq<Asset>, rest: Option<seq<Asset>>): Option<seq<Asset>> {
    match rest
    case None => None
    case Some(more) => Some(done + more)
  }

  lemma PrefixedMore(done: seq<Asset>, page: seq<Asset>, rest: Option<seq<Asset>>)
    ensures Prefixed(done, Prefixed(page, rest)) == Prefixed(done + page, rest)
    ensures Prefixed([], rest) == rest
  {
    match rest
    case None =>
    case Some(more) =>
      assert done + (page + more) == (done + page) + more;
      assert [] + more == more;
  }

  lemma PrefixedEnds(done: seq<Asset>, last: seq<Asset>)
    ensures Prefixed(done, None) == None
    ensures Prefixed(done, Some(last)) == Some(done + last)
    ensures Prefixed(done, Some([])) == Some(done)
  {
    assert done + [] == done;
  }

  lemma GetsOn(c: Connector, handle: string, n: nat)
    requires Gets(c, handle, n) && Continues(c, handle, n) && n < 10
    ensures Gets(c, handle, n + 1)
  {
  }

  /** Beyond a page at which paging ends there is none it gets to. */
  lemma GetsNoFurther(c: Connector, handle: string, n: nat, m: nat)
    requires Gets(c, handle, m) && 1 <= n < m
    ensures Continues(c, handle, n)
  {
  }

  lemma NextPage(c: Connector, handle: string, n: nat)
    requires n > 0
    ensures Imported(FirstPages(c, handle, n))
            == Imported(FirstPages(c, handle, n - 1)) + Imported(ScopesOn(c, handle, n))
  {
    ImportedConcat(FirstPages(c, handle, n - 1), ScopesOn(c, handle, n));
  }

  /** From a page that paging gets to: it fails exactly if it breaks off there or later, and else gets to the end. */
  lemma {:induction false} RemainingMeans(c: Connector, handle: string, n: nat)
    requires Gets(c, handle, n)
    ensures Remaining(c, handle, n).None? <==> exists m :: n <= m && Gets(c, handle, m) && c.page(handle, m).None?
    ensures Remaining(c, handle, n).Some? ==>
              Pages(c, handle, Imported(FirstPages(c, handle, n - 1)) + Remaining(c, handle, n).value)
    decreases MAX_PAGES + 1 - n
  {
    hide Imported, FirstPages;
    NothingListed();
    NextPage(c, handle, n);
    var before := Imported(FirstPages(c, handle, n - 1));
    var here := Imported(ScopesOn(c, handle, n));
    if m :| n < m && Gets(c, handle, m) && c.page(handle, m).None? { GetsNoFurther(c, handle, n, m); }
    if Continues(c, handle, n) && n < 10 {
      GetsOn(c, handle, n);
      RemainingMeans(c, handle, n + 1);
      if Remaining(c, handle, n + 1).Some? {
        Regroup(before, here, Remaining(c, handle, n + 1).value);
      }
    } else if c.page(handle, n).Some? {
      assert EndsWith(c, handle, n);
      assert before + (here + []) == before + here && here + [] == here;
    }
  }

  lemma FetchedMeans(c: Connector, handle: string)
    ensures var h := TrimSpace(handle);
            && (Fetched(c, handle).None? <==> h == "" || !c.program(h) || BreaksOff(c, h))
            && (Fetched(c, handle).Some? ==> Pages(c, h, Fetched(c, handle).value))
  {
    hide Imported, TrimSpace;
    var h := TrimSpace(handle);
    NothingListed();
    RemainingMeans(c, h, 1);
    if h != "" && c.program(h) && Remaining(c, h, 1).Some? {
      var v := Remaining(c, h, 1).value;
      assert [] + v == v;
    }
  }

  /** One page's scopes, appended. */
  method AppendPage(scopes: seq<Scope>, assets: seq<Asset>) returns (r: seq<Asset>)
    ensures r == assets + Imported(scopes)
  {
    assert Imported([]) == [];
    hide Imported, MapAssetType, TrimSpace;
    r := assets;
    for i := 0 to |scopes|
      invariant r == assets + Imported(scopes[..i])
    {
      var id := TrimSpace(scopes[i].identifier);
      ImportedSnoc(scopes[..i], scopes[i]);
      assert scopes[..i + 1] == scopes[..i] + [scopes[i]];
      if id != "" {
        r := r + [Asset(MapAssetType(scopes[i].assetType, id), id, scopes[i].eligible)];
      }
    }
    assert scopes[..|scopes|] == scopes;
  }

  /** The paging loop: at most ten pages, ended early by an empty page or a missing next link. */
  method FetchProgram(c: Connector, handle: string) returns (r: Option<seq<Asset>>)
    ensures r == Fetched(c, handle)
    ensures r.None? <==> TrimSpace(handle) == "" || !c.program(TrimSpace(handle)) || BreaksOff(c, TrimSpace(handle))
    ensures r.Some? ==> Pages(c, TrimSpace(handle), r.value)
  {
    hide Imported, TrimSpace, Prefixed, BreaksOff, Pages;
    FetchedMeans(c, handle);
    var h := TrimSpace(handle);
    if h == "" { return None; }
    if !c.program(h) { return None; }
    var assets: seq<Asset> := [];
    var n: nat := 1;
    var more := true;
    PrefixedMore([], [], Remaining(c, h, 1));
    while n <= MAX_PAGES && more
      invariant 1 <= n <= MAX_PAGES + 1
      invariant Fetched(c, handle) == if more then Prefixed(assets, Remaining(c, h, n)) else Some(assets)
      decreases MAX_PAGES + 1 - n, more
    {
      var p := c.page(h, n);
      PrefixedEnds(assets, if p.Some? then Imported(p.value.scopes) else []);
      if p.None? { return None; }
      if p.value.scopes == [] {
        more := false;
      } else {
        ghost var before := assets;
        assets := AppendPage(p.value.scopes, assets);
        PrefixedMore(before, Imported(p.value.scopes), Remaining(c, h, n + 1));
        if !p.value.hasNext {
          more := false;
        } else {
          n := n + 1;
        }
      }
    }
    PrefixedEnds(assets, []);
    r := Some(assets);
  }

  // --- What paging visits -----------------------------------------------------------------------------

  /** The scopes of a listing, page after page. */
  function Listed(pages: seq<Page>): seq<Scope> {
    if pages == [] then [] else pages[0].scopes + Listed(pages[1..])
  }

  /** The platform serves this listing, whatever its pages hold and link to, and nothing after it. */
  ghost predicate Serves(c: Connector, handle: string, pages: seq<Page>) {
    && c.program(handle)
    && (forall k :: 1 <= k <= |pages| ==> c.page(handle, k) == Some(pages[k - 1]))
    && c.page(handle, |pages| + 1).Some? && c.page(handle, |pages| + 1).value.scopes == []
  }

  /** How many pages are visited: up to the first one that is empty or has no next link, and within the budget. */
  function Visited(pages: seq<Page>, budget: nat): (n: nat)
    ensures n <= |pages| && n <= budget
    decreases budget
  {
    if pages == [] || budget == 0 then 0
    else if pages[0].scopes == [] || !pages[0].hasNext then 1
    else 1 + Visited(pages[1..], budget - 1)
  }

  /** Every page but the last is non-empty and links to the next. */
  predicate Chained(pages: seq<Page>) {
    forall k :: 0 <= k < |pages| - 1 ==> pages[k].scopes != [] && pages[k].hasNext
  }

  /** A properly linked listing is visited up to the budget. */
  lemma {:induction false} ChainedPagesAreVisited(pages: seq<Page>, budget: nat)
    requires Chained(pages)
    ensures Visited(pages, budget) == if |pages| <= budget then |pages| else budget
    decreases budget
  {
    if pages != [] && budget > 0 {
      var rest := pages[1..];
      assert forall k :: 0 <= k < |rest| ==> rest[k] == pages[k + 1];
      ChainedPagesAreVisited(rest, budget - 1);
      assert rest != [] ==> pages[0].scopes != [] && pages[0].hasNext;
    }
  }

  lemma TakesFirst(pages: seq<Page>, n: nat)
    requires n < |pages|
    ensures Listed(pages[..n + 1]) == pages[0].scopes + Listed(pages[1..][..n])
  {
    assert pages[..n + 1][0] == pages[0] && pages[..n + 1][1..] == pages[1..][..n];
  }

  lemma {:induction false} ServedFrom(c: Connector, handle: string, pages: seq<Page>, n: nat)
    requires Serves(c, handle, pages) && 1 <= n <= |pages| + 1
    ensures n <= MAX_PAGES ==>
              var here := pages[n - 1..];
              Remaining(c, handle, n) == Some(Imported(Listed(here[..Visited(here, MAX_PAGES + 1 - n)])))
    ensures n > MAX_PAGES ==> Remaining(c, handle, n) == Some([])
    decreases MAX_PAGES + 1 - n
  {
    hide Imported, Listed;
    NothingListed();
    if n <= MAX_PAGES && n <= |pages| {
      var here := pages[n - 1..];
      var p := here[0];
      assert c.page(handle, n) == Some(p) && here[1..] == pages[n..];
      var rest := Visited(pages[n..], MAX_PAGES - n);
      if p.scopes == [] || !p.hasNext {
        TakesFirst(here, 0);
        assert pages[n..][..0] == [] && p.scopes + [] == p.scopes;
      } else {
        ServedFrom(c, handle, pages, n + 1);
        TakesFirst(here, rest);
        ImportedConcat(p.scopes, Listed(pages[n..][..rest]));
        PrefixedEnds(Imported(p.scopes), Imported(Listed(pages[n..][..rest])));
        assert n == MAX_PAGES ==> pages[n..][..rest] == [];
      }
    } else if n <= MAX_PAGES {
      assert pages[n - 1..] == [];
    }
  }

  lemma NothingListed()
    ensures Listed([]) == [] && Imported([]) == []
  {
  }

  /** The visited pages are fetched, in order and each once. */
  lemma FetchesVisited(c: Connector, handle: string, pages: seq<Page>)
    requires TrimSpace(handle) != "" && Serves(c, TrimSpace(handle), pages)
    ensures Fetched(c, handle) == Some(Imported(Listed(pages[..Visited(pages, MAX_PAGES)])))
  {
    hide Imported, Listed, Visited;
    ServedFrom(c, TrimSpace(handle), pages, 1);
    assert pages[0..] == pages;
  }

  lemma {:induction false} ListedConcat(a: seq<Page>, b: seq<Page>)
    ensures Listed(a + b) == Listed(a) + Listed(b)
  {
    if a == [] {
      assert a + b == b;
    } else {
      var s := a + b;
      ListedConcat(a[1..], b);
      assert s[0] == a[0] && s[1..] == a[1..] + b;
      Regroup(a[0].scopes, Listed(a[1..]), Listed(b));
    }
  }

  predicate AllBlank(scopes: seq<Scope>) {
    forall i :: 0 <= i < |scopes| ==> TrimSpace(scopes[i].identifier) == ""
  }

  lemma {:induction false} BlankImportsNothing(scopes: seq<Scope>)
    ensures Imported(scopes) == [] <==> AllBlank(scopes)
  {
    if scopes != [] {
      BlankImportsNothing(scopes[1..]);
      assert AllBlank(scopes) <==> TrimSpace(scopes[0].identifier) == "" && AllBlank(scopes[1..]);
    }
  }

  lemma Appending(x: seq<Asset>, y: seq<Asset>)
    ensures x == x + y <==> y == []
  {
    assert |x + y| == |x| + |y|;
  }

  lemma SplitListing(pages: seq<Page>, n: nat)
    requires n <= |pages|
    ensures Imported(Listed(pages)) == Imported(Listed(pages[..n])) + Imported(Listed(pages[n..]))
  {
    hide Imported, Listed;
    assert pages == pages[..n] + pages[n..];
    ListedConcat(pages[..n], pages[n..]);
    ImportedConcat(Listed(pages[..n]), Listed(pages[n..]));
  }

  /**
   * Paging loses and duplicates nothing exactly when the pages that are not visited, after the
   * tenth or after the first that is empty or has no next link, list only blank identifiers.
   */
  lemma PagingIsComplete(c: Connector, handle: string, pages: seq<Page>)
    requires TrimSpace(handle) != "" && Serves(c, TrimSpace(handle), pages)
    ensures Fetched(c, handle) == Some(Imported(Listed(pages)))
            <==> AllBlank(Listed(pages[Visited(pages, MAX_PAGES)..]))
  {
    hide Imported, Serves, Fetched, AllBlank, Listed;
    FetchesVisited(c, handle, pages);
    var n := Visited(pages, MAX_PAGES);
    SplitListing(pages, n);
    BlankImportsNothing(Listed(pages[n..]));
    Appending(Imported(Listed(pages[..n])), Imported(Listed(pages[n..])));
  }

  /** For a properly linked listing: exactly when it has at most ten pages, or only blanks beyond them. */
  lemma ChainedPagingIsComplete(c: Connector, handle: string, pages: seq<Page>)
    requires TrimSpace(handle) != "" && Serves(c, TrimSpace(handle), pages) && Chained(pages)
    ensures Fetched(c, handle) == Some(Imported(Listed(pages)))
            <==> |pages| <= MAX_PAGES || AllBlank(Listed(pages[MAX_PAGES..]))
  {
    hide Imported, Serves, Fetched, Chained;
    PagingIsComplete(c, handle, pages);
    ChainedPagesAreVisited(pages, MAX_PAGES);
    if |pages| <= MAX_PAGES { assert pages[|pages|..] == []; }
  }

  // --- Storing --------------------------------------------------------------------------------------

  /** What an administrator attests when asking for a sync. */
  datatype Attestation = Attestation(
    platform: string,
    handle: string,
    automationAllowed: bool,
    prohibited: seq<string>,
    staleAfterSeconds: int,
    status: Option<ProgramStatus>)

  /** The policy in the administrator's own words, before any normalisation. */
  function RawPolicy(q: Attestation, syncedAt: Time): Policy {
    Policy(q.platform, q.handle, q.automationAllowed, q.prohibited, Some(syncedAt), q.staleAfterSeconds,
           if q.status.None? then ActiveProgram else q.status.value)
  }

  /** The policy row that is stored. */
  function StoredPolicy(q: Attestation, syncedAt: Time): Policy {
    RawPolicy(q, syncedAt).(handle := TrimSpace(q.handle), prohibited := CanonicalTechniques(q.prohibited))
  }

  function LoweredAsset(a: Asset): Asset {
    a.(identifier := CanonicalIdentifier(a.identifier))
  }

  function Lowered(assets: seq<Asset>): (r: seq<Asset>)
    ensures |r| == |assets|
  {
    seq(|assets|, i requires 0 <= i < |assets| => LoweredAsset(assets[i]))
  }

  type Key = (string, string)

  datatype AssetRow = AssetRow(program: Key, asset: Asset)

  /** The assets of one program, in table order. */
  function AssetsOf(rows: seq<AssetRow>, key: Key): seq<Asset> {
    if rows == [] then []
    else (if rows[0].program == key then [rows[0].asset] else []) + AssetsOf(rows[1..], key)
  }

  lemma {:induction false} AssetsOfConcat(a: seq<AssetRow>, b: seq<AssetRow>, key: Key)
    ensures AssetsOf(a + b, key) == AssetsOf(a, key) + AssetsOf(b, key)
  {
    if a == [] {
      assert a + b == b;
    } else {
      AssetsOfConcat(a[1..], b, key);
      assert (a + b)[0] == a[0] && (a + b)[1..] == a[1..] + b;
      Regroup(if a[0].program == key then [a[0].asset] else [], AssetsOf(a[1..], key), AssetsOf(b, key));
    }
  }

  lemma AssetsOfSnoc(rows: seq<AssetRow>, row: AssetRow, key: Key)
    ensures AssetsOf(rows + [row], key) == AssetsOf(rows, key) + (if row.program == key then [row.asset] else [])
  {
    AssetsOfConcat(rows, [row], key);
  }

  /** One of the first `n` statements fails. */
  predicate SomeFails(fails: nat -> bool, n: nat) {
    exists k: nat :: k < n && fails(k)
  }

  /** The two tables. Writes happen in a transaction: all of them or none. */
  class ProgramRepository {
    var programs: map<Key, Policy>
    var rows: seq<AssetRow>

    constructor ()
      ensures programs == map[] && rows == []
    {
      programs, rows := map[], [];
    }

    /** DELETE of a program's assets. */
    method DeleteAssets(key: Key)
      modifies `rows
      ensures AssetsOf(rows, key) == []
      ensures forall other :: other != key ==> AssetsOf(rows, other) == AssetsOf(old(rows), other)
    {
      var kept: seq<AssetRow> := [];
      for i := 0 to |rows|
        invariant rows == old(rows)
        invariant AssetsOf(kept, key) == []
        invariant forall other :: other != key ==> AssetsOf(kept, other) == AssetsOf(rows[..i], other)
      {
        assert rows[..i + 1] == rows[..i] + [rows[i]];
        forall other: Key
          ensures AssetsOf(rows[..i + 1], other)
                  == AssetsOf(rows[..i], other) + (if rows[i].program == other then [rows[i].asset] else [])
          ensures AssetsOf(kept + [rows[i]], other)
                  == AssetsOf(kept, other) + (if rows[i].program == other then [rows[i].asset] else [])
        {
          AssetsOfSnoc(rows[..i], rows[i], other);
          AssetsOfSnoc(kept, rows[i], other);
        }
        if rows[i].program != key { kept := kept + [rows[i]]; }
      }
      assert rows[..|rows|] == rows;
      rows := kept;
    }

    /**
     * Upserts the program and replaces its assets in one transaction. `fails(k)` says whether
     * statement `k` fails, and `commit` how the commit goes.
     */
    method Sync(key: Key, policy: Policy, assets: seq<Asset>, fails: nat -> bool, commit: Outcome) returns (ok: bool)
      modifies this
      ensures ok <==> commit.Done? && !SomeFails(fails, |assets| + 2)
      ensures if commit.Failed? || SomeFails(fails, |assets| + 2)
              then programs == old(programs) && rows == old(rows)
              else
                && programs == old(programs)[key := policy] && AssetsOf(rows, key) == assets
                && forall other :: other != key ==> AssetsOf(rows, other) == AssetsOf(old(rows), other)
    {
      var programs0, rows0 := programs, rows;
      if fails(0) { return false; }
      programs := programs[key := policy];
      if fails(1) {
        programs := programs0;
        return false;
      }
      DeleteAssets(key);
      for i := 0 to |assets|
        invariant !SomeFails(fails, i + 2)
        invariant programs == old(programs)[key := policy]
        invariant AssetsOf(rows, key) == assets[..i]
        invariant forall other :: other != key ==> AssetsOf(rows, other) == AssetsOf(old(rows), other)
      {
        if fails(i + 2) {
          programs, rows := programs0, rows0;
          return false;
        }
        var row := AssetRow(key, assets[i]);
        forall other: Key { AssetsOfSnoc(rows, row, other); }
        rows := rows + [row];
        assert assets[..i + 1] == assets[..i] + [assets[i]];
      }
      assert assets[..|assets|] == assets;
      if commit.Failed? {
        programs, rows := programs0, rows0;
        return false;
      }
      ok := commit.Done?;
    }

    /** SELECT of a program's assets. */
    method SelectAssets(key: Key) returns (r: seq<Asset>)
      ensures r == AssetsOf(rows, key)
    {
      r := [];
      for i := 0 to |rows|
        invariant r == AssetsOf(rows[..i], key)
      {
        assert rows[..i + 1] == rows[..i] + [rows[i]];
        AssetsOfSnoc(rows[..i], rows[i], key);
        if rows[i].program == key { r := r + [rows[i].asset]; }
      }
      assert rows[..|rows|] == rows;
    }

    /** The assets of a program, included ones first. */
    method ListAssets(key: Key) returns (r: seq<Asset>)
      ensures multiset(r) == multiset(AssetsOf(rows, key))
      ensures IncludedFirst(r)
    {
      hide AssetsOf;
      var found := SelectAssets(key);
      r := [];
      var n := 0;
      for i := 0 to |found|
        invariant n <= |r|
        invariant forall k :: 0 <= k < |r| ==> (r[k].inScope <==> k < n)
        invariant multiset(r) == multiset(found[..i])
      {
        assert found[..i + 1] == found[..i] + [found[i]];
        SameAssets(r, found[..i], found[i], n);
        if found[i].inScope {
          r := Placed(r, found[i], n);
          n := n + 1;
        } else {
          r := r + [found[i]];
        }
      }
      assert found[..|found|] == found;
    }
  }

  predicate IncludedFirst(assets: seq<Asset>) {
    forall i, j :: 0 <= i < j < |assets| && assets[j].inScope ==> assets[i].inScope
  }

  /** The list with the asset placed at position `n`. */
  function Placed(s: seq<Asset>, a: Asset, n: nat): (r: seq<Asset>)
    requires n <= |s|
    ensures |r| == |s| + 1
    ensures forall k :: 0 <= k < |r| ==> r[k] == if k < n then s[k] else if k == n then a else s[k - 1]
  {
    s[..n] + [a] + s[n..]
  }

  lemma SameAssets(s: seq<Asset>, t: seq<Asset>, a: Asset, n: nat)
    requires multiset(s) == multiset(t) && n <= |s|
    ensures multiset(s + [a]) == multiset(t + [a])
    ensures multiset(Placed(s, a, n)) == multiset(t + [a])
  {
    assert s == s[..n] + s[n..];
  }

  // --- Syncing --------------------------------------------------------------------------------------

  function SyncKey(q: Attestation): Key {
    (q.platform, TrimSpace(q.handle))
  }

  /** The same assets in the same order, their identifiers trimmed and in lower case. */
  predicate LowerCased(fetched: seq<Asset>, stored: seq<Asset>) {
    && |stored| == |fetched|
    && forall i :: 0 <= i < |fetched| ==>
         stored[i] == Asset(fetched[i].assetType, ToLower(TrimSpace(fetched[i].identifier)), fetched[i].inScope)
  }

  method LowerAssets(fetched: seq<Asset>) returns (assets: seq<Asset>)
    ensures assets == Lowered(fetched) && LowerCased(fetched, assets)
  {
    assets := [];
    for i := 0 to |fetched|
      invariant assets == Lowered(fetched)[..i]
    {
      var a := fetched[i];
      assets := assets + [Asset(a.assetType, ToLower(TrimSpace(a.identifier)), a.inScope)];
    }
  }

  class ProgramService {
    const repo: ProgramRepository
    const connectors: map<string, Connector>

    constructor (repo: ProgramRepository, connectors: map<string, Connector>)
      ensures this.repo == repo && this.connectors == connectors
    {
      this.repo, this.connectors := repo, connectors;
    }

    /** The store now holds this sync's result, and every other program as before. */
    twostate predicate Replaced(q: Attestation, now: Time)
      reads repo
    {
      && q.platform in connectors && Fetched(connectors[q.platform], q.handle).Some?
      && var key, status := (q.platform, TrimSpace(q.handle)), if q.status.Some? then q.status.value else ActiveProgram;
      && repo.programs == old(repo.programs)[key := Policy(key.0, key.1, q.automationAllowed,
             CanonicalTechniques(q.prohibited), Some(now), q.staleAfterSeconds, status)]
      && LowerCased(Fetched(connectors[q.platform], q.handle).value, AssetsOf(repo.rows, key))
      && AssetsOf(repo.rows, key) == Lowered(Fetched(connectors[q.platform], q.handle).value)
      && forall other :: other != key ==> AssetsOf(repo.rows, other) == AssetsOf(old(repo.rows), other)
    }

    /** The platform is not supported, the handle blank or its program unknown, or a page that paging gets to fails. */
    ghost predicate Refuses(q: Attestation)
    {
      q.platform !in connectors
      || (var c, h := connectors[q.platform], TrimSpace(q.handle); h == "" || !c.program(h) || BreaksOff(c, h))
    }

    /** How many statements it takes to store what is fetched: the program, the deletion, and one for each asset. */
    function Statements(q: Attestation): nat {
      if q.platform !in connectors then 0
      else match Fetched(connectors[q.platform], q.handle)
        case Some(assets) => 2 + |assets|
        case None => 0
    }

    method SyncProgram(q: Attestation, now: Time, fails: nat -> bool, commit: Outcome, listed: bool)
      returns (r: Option<(Policy, seq<Asset>)>)
      modifies repo
      ensures if Refuses(q) || commit.Failed? || SomeFails(fails, Statements(q))
              then repo.programs == old(repo.programs) && repo.rows == old(repo.rows)
              else Replaced(q, now)
      ensures r.Some? <==> !Refuses(q) && commit.Done? && listed
                           && !SomeFails(fails, Statements(q))
      ensures r.Some? ==>
                && r.value.0 == repo.programs[SyncKey(q)]
                && multiset(r.value.1) == multiset(AssetsOf(repo.rows, SyncKey(q)))
    {
      hide Fetched, Lowered, AssetsOf, TrimSpace, CanonicalTechniques;
      r := None;
      if q.platform !in connectors { return; }
      var fetched := FetchProgram(connectors[q.platform], q.handle);
      if fetched.None? { return; }
      var techniques := NormalizeTechniques(q.prohibited);
      var status := if q.status.None? then ActiveProgram else q.status.value;
      var policy := Policy(q.platform, TrimSpace(q.handle), q.automationAllowed, techniques, Some(now),
                           q.staleAfterSeconds, status);
      var assets := LowerAssets(fetched.value);
      assert policy == StoredPolicy(q, now);
      var ok := repo.Sync(SyncKey(q), policy, assets, fails, commit);
      if repo.programs != old(repo.programs) || repo.rows != old(repo.rows) {
        assert forall other :: other != SyncKey(q) ==> AssetsOf(repo.rows, other) == AssetsOf(old(repo.rows), other);
        assert Replaced(q, now);
      }
      if !ok || !listed { return; }
      var stored := repo.ListAssets(SyncKey(q));
      r := Some((policy, stored));
    }
  }

  // --- Syncing keeps the meaning of the policy ------------------------------------------------------

  lemma LoweringKeepsMatches(net: Net, a: Asset, host: string, ip: string)
    ensures AssetMatches(net, LoweredAsset(a), host, ip) == AssetMatches(net, a, host, ip)
  {
    CanonicalIdentifierIdempotent(a.identifier);
  }

  /** An asset of the stored list is the lowered form of a fetched one, and each fetched one is there. */
  lemma StoredIsLowered(fetched: seq<Asset>, listed: seq<Asset>)
    requires multiset(listed) == multiset(Lowered(fetched))
    ensures forall x :: x in listed ==> exists a :: a in fetched && x == LoweredAsset(a)
    ensures forall a :: a in fetched ==> LoweredAsset(a) in listed
  {
    var lowered := Lowered(fetched);
    forall x | x in listed ensures exists a :: a in fetched && x == LoweredAsset(a) {
      assert x in multiset(listed);
      var i :| 0 <= i < |lowered| && lowered[i] == x;
      assert fetched[i] in fetched;
    }
    forall a | a in fetched ensures LoweredAsset(a) in listed {
      var i :| 0 <= i < |fetched| && fetched[i] == a;
      assert lowered[i] in multiset(lowered);
    }
  }

  lemma SyncKeepsMatches(net: Net, fetched: seq<Asset>, listed: seq<Asset>, host: string, ip: string)
    requires multiset(listed) == multiset(Lowered(fetched))
    ensures Excluded(net, listed, host, ip) == Excluded(net, fetched, host, ip)
    ensures Included(net, listed, host, ip) == Included(net, fetched, host, ip)
  {
    hide AssetMatches;
    StoredIsLowered(fetched, listed);
    forall a { LoweringKeepsMatches(net, a, host, ip); }
  }

  /**
   * The gate's answer on the lowered, canonicalised, replaced and re-listed policy is its answer on
   * the fetched assets with the administrator's raw technique list.
   */
  lemma SyncPreservesVerdict(net: Net, q: Attestation, syncedAt: Time, fetched: seq<Asset>, listed: seq<Asset>,
                             host: string, ip: string, phase: string, now: Time)
    requires multiset(listed) == multiset(Lowered(fetched))
    ensures Permits(net, Some(StoredPolicy(q, syncedAt)), listed, host, ip, phase, now)
            <==> Permits(net, Some(RawPolicy(q, syncedAt)), fetched, host, ip, phase, now)
  {
    hide AssetMatches, CanonicalTechniques;
    SyncKeepsMatches(net, fetched, listed, ToLower(TrimSpace(host)), TrimSpace(ip));
    CanonicalTechniquesIdempotent(q.prohibited);
  }

  /**
   * What a synced policy can permit at all: only with the administrator's leave for automation, only
   * while not paused, and only for as long after the sync as he said, or 7 days.
   */
  lemma SyncedPolicyNeedsLeave(net: Net, q: Attestation, syncedAt: Time, listed: seq<Asset>,
                               host: string, ip: string, phase: string, now: Time)
    requires Permits(net, Some(StoredPolicy(q, syncedAt)), listed, host, ip, phase, now)
    ensures q.automationAllowed && q.status != Some(PausedProgram)
    ensures now <= syncedAt + (if q.staleAfterSeconds > 0 then q.staleAfterSeconds * SECOND else 7 * DAY)
    ensures !PhaseProhibited(phase, q.prohibited)
  {
    hide Included, Excluded, CanonicalTechniques;
    CanonicalTechniquesIdempotent(q.prohibited);
    ListingPermits(net, StoredPolicy(q, syncedAt), listed, host, ip, phase, now);
  }

  /** The type under which the platform lists a scope: the stated one, or a wildcard by its spelling. */
  predicate ListedAs(s: Scope, stated: string) {
    ToUpper(TrimSpace(s.assetType)) == stated && !("*." <= TrimSpace(s.identifier))
  }

  /**
   * From a line of the platform's listing to the gate: what a single scope permits under an open
   * policy if submissions are eligible, and what it shuts out if they are not.
   */
  lemma ListedScopePermits(net: Net, p: Policy, s: Scope, host: string, ip: string, phase: string, now: Time)
    requires TrimSpace(s.identifier) != "" && Open(p, phase, now)
    ensures var id, h, q := ToLower(TrimSpace(s.identifier)), ToLower(TrimSpace(host)), TrimSpace(ip);
            var permitted := Permits(net, Some(p), Imported([s]), host, ip, phase, now);
            && (!s.eligible ==>
                && !permitted
                && (Excluded(net, Imported([s]), h, q) <==>
                    Permits(net, Some(p), Imported([s.(eligible := true)]), host, ip, phase, now)))
            && (s.eligible && ListedAs(s, "DOMAIN") ==> (permitted <==> h != "" && h == id))
            && (s.eligible && ListedAs(s, "URL") ==> (permitted <==> h != "" && BuiltAround(net, id, h)))
            && (s.eligible && ListedAs(s, "IP_ADDRESS") ==> (permitted <==> q != "" && q == id))
            && (s.eligible && ListedAs(s, "CIDR") ==>
                (permitted <==> q != "" && net.parseIP(q).Some? && net.cidrContains(id, net.parseIP(q).value)))
            && (s.eligible && ListedAs(s, "WILDCARD") ==> (permitted <==> h != "" && Domains.LabelSuffix(id, h)))
            && (s.eligible && "*." <= TrimSpace(s.identifier) ==>
                (permitted <==> h != "" && Domains.LabelSuffix(id[2..], h)))
  {
    hide Open, BuiltAround, Domains.LabelSuffix, Permits, AssetMatches;
    var id := TrimSpace(s.identifier);
    var a := Asset(MapAssetType(s.assetType, id), id, s.eligible);
    ImportedSingle(s);
    ImportedSingle(s.(eligible := true));
    TrimSpaceMeaning(s.identifier);
    TrimSpaceMeaning(id);
    if s.eligible {
      SingleAssetPermits(net, p, a, host, ip, phase, now);
      LowerWildcard(id);
    } else {
      ListingPermits(net, p, [a], host, ip, phase, now);
      ExcludedAlone(net, p, a, host, ip, phase, now);
    }
  }

  lemma ImportedSingle(s: Scope)
    requires TrimSpace(s.identifier) != ""
    ensures var id := TrimSpace(s.identifier); Imported([s]) == [Asset(MapAssetType(s.assetType, id), id, s.eligible)]
  {
    var a := ImportedOne(s);
    assert [s][0] == s && [s][1..] == [] && Imported([s]) == a + [] && a + [] == a;
  }

  lemma LowerWildcard(id: string)
    ensures "*." <= ToLower(id) <==> "*." <= id
  {
    assert |id| >= 2 ==> ToLower(id)[..2] == [LowerChar(id[0]), LowerChar(id[1])] && id[..2] == [id[0], id[1]];
    assert forall c :: LowerChar(c) == '*' <==> c == '*';
  }

  /** When nothing is lost in paging, the gate enforces exactly what the platform lists. */
  lemma PlatformPolicyIsEnforced(net: Net, c: Connector, pages: seq<Page>, q: Attestation, syncedAt: Time,
                                 fetched: seq<Asset>, stored: seq<Asset>,
                                 host: string, ip: string, phase: string, now: Time)
    requires TrimSpace(q.handle) != "" && Serves(c, TrimSpace(q.handle), pages)
    requires AllBlank(Listed(pages[Visited(pages, MAX_PAGES)..]))
    requires Fetched(c, q.handle) == Some(fetched) && multiset(stored) == multiset(Lowered(fetched))
    ensures Permits(net, Some(StoredPolicy(q, syncedAt)), stored, host, ip, phase, now)
            <==> Permits(net, Some(RawPolicy(q, syncedAt)), Imported(Listed(pages)), host, ip, phase, now)
  {
    hide Permits, Imported, Serves, Fetched, Listed;
    PagingIsComplete(c, q.handle, pages);
    SyncPreservesVerdict(net, q, syncedAt, Imported(Listed(pages)), stored, host, ip, phase, now);
  }

  /** An exclusion on a page that is not visited is lost, and then the gate allows what the platform excludes. */
  lemma LostExclusionOpensTheGate(net: Net, c: Connector, pages: seq<Page>, q: Attestation, syncedAt: Time,
                                  fetched: seq<Asset>, stored: seq<Asset>,
                                  host: string, ip: string, phase: string, now: Time)
    requires TrimSpace(q.handle) != "" && Serves(c, TrimSpace(q.handle), pages)
    requires Fetched(c, q.handle) == Some(fetched) && multiset(stored) == multiset(Lowered(fetched))
    requires var seen := pages[..Visited(pages, MAX_PAGES)];
             Permits(net, Some(RawPolicy(q, syncedAt)), Imported(Listed(seen)), host, ip, phase, now)
    requires var unseen := pages[Visited(pages, MAX_PAGES)..];
             Excluded(net, Imported(Listed(unseen)), ToLower(TrimSpace(host)), TrimSpace(ip))
    ensures Permits(net, Some(StoredPolicy(q, syncedAt)), stored, host, ip, phase, now)
    ensures !Permits(net, Some(RawPolicy(q, syncedAt)), Imported(Listed(pages)), host, ip, phase, now)
  {
    hide Imported, Serves, Fetched, AssetMatches, Listed, Visited;
    var n := Visited(pages, MAX_PAGES);
    FetchesVisited(c, q.handle, pages);
    SplitListing(pages, n);
    SyncPreservesVerdict(net, q, syncedAt, Imported(Listed(pages[..n])), stored, host, ip, phase, now);
  }

  /** A listing of eleven pages that names one host on each: ten times in scope, then excluded. */
  const ELEVEN_PAGES: seq<Page> := seq(11, k => Page([Scope("DOMAIN", "a", k < 10)], k < 10))

  const ELEVEN_PAGE_PLATFORM: Connector :=
    Connector(_ => true, (_, n) => Some(if 1 <= n <= 11 then ELEVEN_PAGES[n - 1] else Page([], false)))

  lemma {:induction false} SamePageOver(pages: seq<Page>, x: Scope)
    requires forall k :: 0 <= k < |pages| ==> pages[k].scopes == [x]
    requires TrimSpace(x.identifier) == x.identifier != ""
    ensures forall a :: a in Imported(Listed(pages)) <==>
              pages != [] && a == Asset(MapAssetType(x.assetType, x.identifier), x.identifier, x.eligible)
  {
    hide MapAssetType, TrimSpace;
    if pages != [] {
      SamePageOver(pages[1..], x);
      ImportedConcat(pages[0].scopes, Listed(pages[1..]));
      assert pages[0].scopes[1..] == [];
    }
  }

  lemma TenAreVisited()
    ensures Visited(ELEVEN_PAGES, MAX_PAGES) == MAX_PAGES
  {
    ChainedPagesAreVisited(ELEVEN_PAGES, MAX_PAGES);
  }

  lemma NamesHost(net: Net)
    ensures forall inScope :: AssetMatches(net, Asset(MapAssetType("DOMAIN", "a"), "a", inScope), "a", "")
  {
    assert TrimSpace("DOMAIN") == "DOMAIN";
    assert ToUpper("DOMAIN") == "DOMAIN";
    assert CanonicalIdentifier("a") == "a";
  }

  const ELEVEN_PAGE_SYNC := Attestation("hackerone", "h", true, [], 0, None)

  lemma FirstTenPermit(net: Net)
    ensures Permits(net, Some(RawPolicy(ELEVEN_PAGE_SYNC, 0)), Imported(Listed(ELEVEN_PAGES[..MAX_PAGES])),
                    "a", "", "osint", 0)
  {
    hide Imported;
    assert TrimSpace("a") == "a" && ToLower("a") == "a" && TrimSpace("") == "";
    SamePageOver(ELEVEN_PAGES[..MAX_PAGES], Scope("DOMAIN", "a", true));
    NamesHost(net);
    assert Asset(MapAssetType("DOMAIN", "a"), "a", true) in Imported(Listed(ELEVEN_PAGES[..MAX_PAGES]));
  }

  lemma EleventhExcludes(net: Net)
    ensures Excluded(net, Imported(Listed(ELEVEN_PAGES[MAX_PAGES..])), ToLower(TrimSpace("a")), TrimSpace(""))
  {
    hide Imported;
    assert TrimSpace("a") == "a" && ToLower("a") == "a" && TrimSpace("") == "";
    SamePageOver(ELEVEN_PAGES[MAX_PAGES..], Scope("DOMAIN", "a", false));
    NamesHost(net);
    assert Asset(MapAssetType("DOMAIN", "a"), "a", false) in Imported(Listed(ELEVEN_PAGES[MAX_PAGES..]));
  }

  /** A concrete listing on which the stored policy allows a host that the platform excludes. */
  lemma EleventhPageIsIgnored(net: Net)
    ensures var q := ELEVEN_PAGE_SYNC;
            && Serves(ELEVEN_PAGE_PLATFORM, q.handle, ELEVEN_PAGES)
            && Fetched(ELEVEN_PAGE_PLATFORM, q.handle).Some?
            && Permits(net, Some(StoredPolicy(q, 0)), Lowered(Fetched(ELEVEN_PAGE_PLATFORM, q.handle).value),
                       "a", "", "osint", 0)
            && !Permits(net, Some(RawPolicy(q, 0)), Imported(Listed(ELEVEN_PAGES)), "a", "", "osint", 0)
  {
    hide Permits, Imported, Fetched, Excluded, StoredPolicy, RawPolicy;
    assert TrimSpace("h") == "h";
    TenAreVisited();
    FetchesVisited(ELEVEN_PAGE_PLATFORM, "h", ELEVEN_PAGES);
    FirstTenPermit(net);
    EleventhExcludes(net);
    var fetched := Fetched(ELEVEN_PAGE_PLATFORM, "h").value;
    LostExclusionOpensTheGate(net, ELEVEN_PAGE_PLATFORM, ELEVEN_PAGES, ELEVEN_PAGE_SYNC, 0,
                              fetched, Lowered(fetched), "a", "", "osint", 0);
  }

  // --- The link from an authorization to its policy -------------------------------------------------

  /** The evidence stored with a program authorization. */
  function ProgramEvidence(platform: string, name: string, url: string, policyUrl: string, notes: string,
                           handle: string)
    : map<string, string>
  {
    var ev := map["platform" := platform, "name" := TrimSpace(name), "url" := TrimSpace(url),
                  "policy_url" := TrimSpace(policyUrl), "scope_notes" := TrimSpace(notes)];
    if TrimSpace(handle) != "" then ev["handle" := TrimSpace(handle)] else ev
  }

  /** A program authorization is linked exactly when a handle was given, and to the key its sync stores under. */
  lemma LinkFindsTheSyncedKey(a: Authorization, q: Attestation, name: string, url: string, policyUrl: string,
                              notes: string)
    requires a.means == ProgramMethod
    requires a.evidence == Some(ProgramEvidence(q.platform, name, url, policyUrl, notes, q.handle))
    requires Trimmed(q.platform)
    ensures Gate.ProgramHandle(a) == if TrimSpace(q.handle) == "" then None else Some(SyncKey(q))
  {
    TrimSpaceMeaning(q.handle);
    TrimSpaceMeaning(TrimSpace(q.handle));
    TrimSpaceMeaning(q.platform);
  }

  /** The gate's two reads return this policy and, in any order, these assets. */
  ghost predicate Serving(w: Gate.World, key: Key, policy: Policy, assets: seq<Asset>) {
    && w.programs.Some?
    && w.programs.value.policy(key.0, key.1) == Some(policy)
    && w.programs.value.assets(key.0, key.1).Some?
    && multiset(w.programs.value.assets(key.0, key.1).value) == multiset(assets)
  }

  /**
   * From the platform to the gate: when nothing is lost in paging, a program authorization that
   * names the synced program is granted exactly when the platform's own listing, read with the
   * administrator's raw terms, permits it.
   */
  lemma LinkedRowEnforcesThePlatform(w: Gate.World, req: Gate.Request, a: Authorization,
                                     c: Connector, pages: seq<Page>, q: Attestation, syncedAt: Time,
                                     fetched: seq<Asset>,
                                     name: string, url: string, policyUrl: string, notes: string)
    requires a.means == ProgramMethod && Trimmed(q.platform) && TrimSpace(q.handle) != ""
    requires a.evidence == Some(ProgramEvidence(q.platform, name, url, policyUrl, notes, q.handle))
    requires Serves(c, TrimSpace(q.handle), pages) && AllBlank(Listed(pages[Visited(pages, MAX_PAGES)..]))
    requires Fetched(c, q.handle) == Some(fetched)
    requires Serving(w, SyncKey(q), StoredPolicy(q, syncedAt), Lowered(fetched))
    ensures Gate.Grants(w, req, a) <==>
            Permits(w.net, Some(RawPolicy(q, syncedAt)), Imported(Listed(pages)),
                    req.QueryHost(), req.QueryIP(), req.phase, w.now)
  {
    hide Permits, Imported, Serves, Fetched, Lowered, StoredPolicy, ProgramEvidence, Listed;
    LinkFindsTheSyncedKey(a, q, name, url, policyUrl, notes);
    var key := SyncKey(q);
    PlatformPolicyIsEnforced(w.net, c, pages, q, syncedAt, fetched, w.programs.value.assets(key.0, key.1).value,
                             req.QueryHost(), req.QueryIP(), req.phase, w.now);
  }
}
