/** The bounded search over the catalogue: one scan that keeps at most as many
    items as were asked for, replacing the worst in place. */
module Search {
  import opened Common
  import opened Uploads
  import opened Downloads

  datatype SearchAlg =
    | HighestRated | LowestRated | MostDownloaded | LeastDownloaded | Newest | Oldest
    | Trending | HighestPrice | LowestPrice
  {
    /** The orders whose comparison is not a `todo!()`. */
    predicate Implemented() {
      MostDownloaded? || LeastDownloaded? || Newest? || Oldest?
    }
  }

  const MAX_NUM_RESULTS: nat := 100

  datatype SearchReq = SearchReq(term: Bytes, sortBy: SearchAlg, numResults: nat)

  datatype SearchResult = SearchResult(title: Bytes, itemId: nat, creationTime: nat, numDownloads: nat)

  datatype Reply = TooMany | Panicked | Found(results: seq<SearchResult>)

  /** Lower rank, better item. */
  function Rank(alg: SearchAlg, counts: Counts, item: Item): int {
    var id: int := item.id;
    var count: int := CountOf(counts, item.id);
    match alg
    case Newest => -id
    case Oldest => id
    case MostDownloaded => -count
    case LeastDownloaded => count
    case _ => 0
  }

  // ---------- what a search should return ----------

  predicate Contains(text: Bytes, term: Bytes) {
    exists i :: 0 <= i <= |text| && term <= text[i..]
  }

  predicate IsMatch(lower: Bytes -> Bytes, term: Bytes, item: Item) {
    item.creationTime.Some? && Contains(lower(item.title), term)
  }

  /** The matching published items in scan order. */
  function Matches(lower: Bytes -> Bytes, term: Bytes, scan: seq<Item>): (r: seq<Item>)
    ensures |r| <= |scan|
  {
    if scan == [] then []
    else
      Matches(lower, term, scan[..|scan| - 1])
      + if IsMatch(lower, term, scan[|scan| - 1]) then [scan[|scan| - 1]] else []
  }

  /** No item of `left` is strictly better than one of `kept`. */
  ghost predicate NoneBetter(alg: SearchAlg, counts: Counts, kept: seq<Item>, left: seq<Item>) {
    forall x, y :: x in kept && y in left ==> Rank(alg, counts, x) <= Rank(alg, counts, y)
  }

  /** `kept` is a best selection of `k` of the `matches`, or all of them. */
  ghost predicate TopK(alg: SearchAlg, counts: Counts, kept: seq<Item>, matches: seq<Item>, k: nat) {
    && |kept| == Min(k, |matches|)
    && exists left :: multiset(kept + left) == multiset(matches) && NoneBetter(alg, counts, kept, left)
  }

  // ---------- the same in titles, ids and counts ----------

  /** The item is published and its lower-case title has the term in it. */
  ghost predicate Wanted(lower: Bytes -> Bytes, term: Bytes, item: Item) {
    var title := lower(item.title);
    item.creationTime.Some? && exists i, j :: 0 <= i <= j <= |title| && title[i..j] == term
  }

  /** The later id for newest, the earlier for oldest, the larger set of downloads for
      most downloaded, the smaller for least. */
  predicate NoWorse(alg: SearchAlg, counts: Counts, x: Item, y: Item) {
    var dx := if x.id in counts then |counts[x.id]| else 0;
    var dy := if y.id in counts then |counts[y.id]| else 0;
    match alg
    case Newest => x.id >= y.id
    case Oldest => x.id <= y.id
    case MostDownloaded => dx >= dy
    case LeastDownloaded => dx <= dy
    case _ => true
  }

  /** `kept` and `left` are the items wanted, each as often as it was scanned, at most
      `k` are kept and as many as there are, and none left out is better. */
  ghost predicate Splitting(req: SearchReq, lower: Bytes -> Bytes, scan: seq<Item>, counts: Counts,
                            kept: seq<Item>, left: seq<Item>) {
    && (forall x :: multiset(kept + left)[x] == if Wanted(lower, req.term, x) then multiset(scan)[x] else 0)
    && |kept| == Min(req.numResults, |kept| + |left|)
    && forall x, y :: x in kept && y in left ==> NoWorse(req.sortBy, counts, x, y)
  }

  ghost predicate BestFound(req: SearchReq, lower: Bytes -> Bytes, scan: seq<Item>, counts: Counts, kept: seq<Item>) {
    exists left :: Splitting(req, lower, scan, counts, kept, left)
  }

  lemma WantedIsMatch(lower: Bytes -> Bytes, term: Bytes, item: Item)
    ensures Wanted(lower, term, item) <==> IsMatch(lower, term, item)
  {
    var title := lower(item.title);
    if i, j :| 0 <= i <= j <= |title| && title[i..j] == term {
      assert title[i..][..|term|] == title[i..j];
    }
    if i :| 0 <= i <= |title| && term <= title[i..] {
      assert title[i..i + |term|] == term;
    }
  }

  lemma {:induction false} MatchesAreWanted(lower: Bytes -> Bytes, term: Bytes, scan: seq<Item>, x: Item)
    ensures multiset(Matches(lower, term, scan))[x] == if Wanted(lower, term, x) then multiset(scan)[x] else 0
  {
    if scan == [] {
    } else {
      var n := |scan| - 1;
      MatchesAreWanted(lower, term, scan[..n], x);
      WantedIsMatch(lower, term, scan[n]);
      assert scan == scan[..n] + [scan[n]];
    }
  }

  lemma RankIsNoWorse(alg: SearchAlg, counts: Counts, x: Item, y: Item)
    ensures alg.Implemented() ==> (Rank(alg, counts, x) <= Rank(alg, counts, y) <==> NoWorse(alg, counts, x, y))
    ensures Rank(alg, counts, x) <= Rank(alg, counts, y) ==> NoWorse(alg, counts, x, y)
  {
  }

  /** A best selection is one in titles, ids and counts. */
  lemma TopKIsBest(req: SearchReq, lower: Bytes -> Bytes, scan: seq<Item>, counts: Counts, kept: seq<Item>)
    requires TopK(req.sortBy, counts, kept, Matches(lower, req.term, scan), req.numResults)
    ensures BestFound(req, lower, scan, counts, kept)
  {
    var matches := Matches(lower, req.term, scan);
    var left :| multiset(kept + left) == multiset(matches) && NoneBetter(req.sortBy, counts, kept, left);
    assert |multiset(kept + left)| == |multiset(matches)|;
    forall x ensures multiset(kept + left)[x] == if Wanted(lower, req.term, x) then multiset(scan)[x] else 0 {
      MatchesAreWanted(lower, req.term, scan, x);
    }
    forall x, y | x in kept && y in left ensures NoWorse(req.sortBy, counts, x, y) {
      RankIsNoWorse(req.sortBy, counts, x, y);
    }
    assert Splitting(req, lower, scan, counts, kept, left);
  }

  // ---------- the comparators and the scan ----------

  /** Each comparator is one fixed preorder during a scan: the download orders may
      store empty entries, but no count they look at changes. */
  method CompareItems(alg: SearchAlg, item1: Item, item2: Item, trees: DownloadTrees, ghost counts: Counts)
    returns (o: Ordering)
    requires alg.Implemented() && SameCounts(counts, trees.counts)
    modifies trees`counts
    ensures o == Compare(Rank(alg, counts, item1), Rank(alg, counts, item2))
    ensures SameCounts(counts, trees.counts)
  {
    if alg == Newest {
      o := Compare(item2.id, item1.id);
    } else if alg == Oldest {
      o := Compare(item1.id, item2.id);
    } else {
      assert CountOf(counts, item1.id) == CountOf(trees.counts, item1.id);
      var count1 := trees.GetOrInsert(item1.id);
      assert CountOf(counts, item2.id) == CountOf(trees.counts, item2.id);
      var count2 := trees.GetOrInsert(item2.id);
      o := if alg == MostDownloaded then Compare(|count2|, |count1|) else Compare(|count1|, |count2|);
    }
  }

  /** The worst of the results so far: of equally bad ones the first. */
  method WorstOf(alg: SearchAlg, results: seq<Item>, trees: DownloadTrees, ghost counts: Counts)
    returns (worst: nat)
    requires alg.Implemented() && SameCounts(counts, trees.counts)
    requires results != []
    modifies trees`counts
    ensures worst < |results|
    ensures forall i :: 0 <= i < |results| ==> Rank(alg, counts, results[i]) <= Rank(alg, counts, results[worst])
    ensures forall i :: 0 <= i < worst ==> Rank(alg, counts, results[i]) < Rank(alg, counts, results[worst])
    ensures SameCounts(counts, trees.counts)
  {
    worst := 0;
    for n := 1 to |results|
      invariant worst < n
      invariant SameCounts(counts, trees.counts)
      invariant forall i :: 0 <= i < n ==> Rank(alg, counts, results[i]) <= Rank(alg, counts, results[worst])
      invariant forall i :: 0 <= i < worst ==> Rank(alg, counts, results[i]) < Rank(alg, counts, results[worst])
    {
      var o := CompareItems(alg, results[worst], results[n], trees, counts);
      match o {
        case Greater =>
        case Less => worst := n;
        case Equal =>
      }
    }
  }

  /** `kept` and `left` split the matches seen so far, best first. */
  ghost predicate Splits(alg: SearchAlg, counts: Counts, kept: seq<Item>, left: seq<Item>, matches: seq<Item>) {
    multiset(kept + left) == multiset(matches) && NoneBetter(alg, counts, kept, left)
  }

  lemma KeepOne(alg: SearchAlg, counts: Counts, kept: seq<Item>, left: seq<Item>, matches: seq<Item>, item: Item)
    requires left == [] && Splits(alg, counts, kept, left, matches)
    ensures Splits(alg, counts, kept + [item], [], matches + [item])
  {
  }

  lemma DropOne(alg: SearchAlg, counts: Counts, kept: seq<Item>, left: seq<Item>, matches: seq<Item>, item: Item,
                worst: nat)
    requires worst < |kept| && Splits(alg, counts, kept, left, matches)
    requires forall x :: x in kept ==> Rank(alg, counts, x) <= Rank(alg, counts, kept[worst])
    requires Rank(alg, counts, item) >= Rank(alg, counts, kept[worst])
    ensures Splits(alg, counts, kept, left + [item], matches + [item])
  {
  }

  lemma ReplaceOne(alg: SearchAlg, counts: Counts, kept: seq<Item>, left: seq<Item>, matches: seq<Item>, item: Item,
                   worst: nat)
    requires worst < |kept| && Splits(alg, counts, kept, left, matches)
    requires forall x :: x in kept ==> Rank(alg, counts, x) <= Rank(alg, counts, kept[worst])
    requires Rank(alg, counts, item) < Rank(alg, counts, kept[worst])
    ensures Splits(alg, counts, kept[worst := item], left + [kept[worst]], matches + [item])
  {
    var kept' := kept[worst := item];
    assert multiset(kept') == multiset(kept) - multiset{kept[worst]} + multiset{item};
    assert multiset(kept' + (left + [kept[worst]])) == multiset(kept + left) + multiset{item};
    forall x, y | x in kept' && y in left + [kept[worst]] ensures Rank(alg, counts, x) <= Rank(alg, counts, y) {
      assert kept[worst] in kept;
      if x != item {
        assert x in kept;
      }
    }
  }

  /** The state of the scan after `matches`: the results hold a best selection,
      and nothing has been dropped before they were full. */
  ghost predicate Scanned(alg: SearchAlg, counts: Counts, capacity: nat, results: seq<Item>, left: seq<Item>,
                          matches: seq<Item>)
  {
    && |results| == Min(capacity, |matches|)
    && (left != [] ==> |results| == capacity && capacity > 0 && alg.Implemented())
    && Splits(alg, counts, results, left, matches)
    && forall x :: x in results ==> x.creationTime.Some?
  }

  /** Treat one matching item; `taken` is false where the handler panics. */
  method Consider(alg: SearchAlg, capacity: nat, results: seq<Item>, item: Item, trees: DownloadTrees,
                  ghost counts: Counts, ghost left: seq<Item>, ghost matches: seq<Item>)
    returns (taken: bool, results': seq<Item>, ghost left': seq<Item>)
    requires SameCounts(counts, trees.counts)
    requires Scanned(alg, counts, capacity, results, left, matches) && item.creationTime.Some?
    modifies trees`counts
    ensures SameCounts(counts, trees.counts)
    ensures taken <==> |matches| < capacity || (capacity > 0 && alg.Implemented())
    ensures taken ==> Scanned(alg, counts, capacity, results', left', matches + [item])
  {
    taken, results', left' := true, results, left;
    if |results| < capacity {
      KeepOne(alg, counts, results, left, matches, item);
      results' := results + [item];
    } else {
      if !alg.Implemented() || |results| == 0 {
        return false, results, left;
      }
      var worst := WorstOf(alg, results, trees, counts);
      var o := CompareItems(alg, item, results[worst], trees, counts);
      if o == Less {
        ReplaceOne(alg, counts, results, left, matches, item, worst);
        left' := left + [results[worst]];
        results' := results[worst := item];
      } else {
        DropOne(alg, counts, results, left, matches, item, worst);
        left' := left + [item];
      }
    }
  }

  /** The search handler. `scan` is the software tree in iteration order. */
  method SearchSoftware(req: SearchReq, lower: Bytes -> Bytes, scan: seq<Item>, trees: DownloadTrees)
    returns (reply: Reply, ghost kept: seq<Item>)
    modifies trees`counts
    ensures SameCounts(old(trees.counts), trees.counts)
    ensures reply.TooMany? <==> req.numResults > 100
    ensures reply.Panicked? <==>
              && req.numResults <= 100
              && |Matches(lower, req.term, scan)| > req.numResults
              && (req.numResults == 0
                  || !(req.sortBy in {MostDownloaded, LeastDownloaded, Newest, Oldest}))
    ensures reply.Found? ==>
              && Reports(old(trees.counts), kept, reply.results)
              && TopK(req.sortBy, old(trees.counts), kept, Matches(lower, req.term, scan), req.numResults)
              && BestFound(req, lower, scan, old(trees.counts), kept)
  {
    kept := [];
    if req.numResults > MAX_NUM_RESULTS {
      return TooMany, [];
    }
    ghost var counts := trees.counts;
    var capacity := Min(|scan|, req.numResults);
    var results: seq<Item> := [];
    ghost var left: seq<Item> := [];
    ghost var matches: seq<Item> := [];
    for n := 0 to |scan|
      invariant SameCounts(counts, trees.counts)
      invariant matches == Matches(lower, req.term, scan[..n])
      invariant Scanned(req.sortBy, counts, capacity, results, left, matches)
    {
      var item := scan[n];
      MatchesStep(lower, req.term, scan, n);
      if IsMatch(lower, req.term, item) {
        var taken;
        taken, results, left := Consider(req.sortBy, capacity, results, item, trees, counts, left, matches);
        if !taken {
          MatchesGrow(lower, req.term, scan, n + 1);
          return Panicked, [];
        }
        matches := matches + [item];
      }
    }
    assert scan[..|scan|] == scan;
    kept := results;
    var found := Report(results, trees, counts);
    reply := Found(found);
    ScanIsTopK(req.sortBy, counts, capacity, kept, left, matches, req.numResults);
    TopKIsBest(req, lower, scan, counts, kept);
  }

  lemma ScanIsTopK(alg: SearchAlg, counts: Counts, capacity: nat, kept: seq<Item>, left: seq<Item>, matches: seq<Item>,
                   k: nat)
    requires Scanned(alg, counts, capacity, kept, left, matches)
    requires capacity == k || |matches| <= capacity <= k
    ensures TopK(alg, counts, kept, matches, k)
    ensures |matches| > k ==> k > 0 && alg.Implemented()
  {
    assert multiset(kept + left) == multiset(matches) && NoneBetter(alg, counts, kept, left);
    assert |multiset(kept + left)| == |multiset(matches)|;
  }

  lemma MatchesStep(lower: Bytes -> Bytes, term: Bytes, scan: seq<Item>, n: nat)
    requires n < |scan|
    ensures Matches(lower, term, scan[..n + 1])
         == Matches(lower, term, scan[..n]) + if IsMatch(lower, term, scan[n]) then [scan[n]] else []
  {
    assert scan[..n + 1][..n] == scan[..n];
  }

  lemma {:induction false} MatchesGrow(lower: Bytes -> Bytes, term: Bytes, scan: seq<Item>, n: nat)
    requires n <= |scan|
    ensures |Matches(lower, term, scan[..n])| <= |Matches(lower, term, scan)|
    decreases |scan| - n
  {
    if n == |scan| {
      assert scan[..n] == scan;
    } else {
      assert scan[..n + 1][..n] == scan[..n];
      MatchesGrow(lower, term, scan, n + 1);
    }
  }

  /** `found` describes the items `kept`, one by one, with their counts. */
  ghost predicate Reports(counts: Counts, kept: seq<Item>, found: seq<SearchResult>) {
    && |found| == |kept|
    && forall i :: 0 <= i < |kept| ==>
         && kept[i].creationTime.Some?
         && found[i] == SearchResult(kept[i].title, kept[i].id, kept[i].creationTime.value, CountOf(counts, kept[i].id))
  }

  /** Turn the kept items into the reply, in the order they are held. */
  method Report(results: seq<Item>, trees: DownloadTrees, ghost counts: Counts) returns (found: seq<SearchResult>)
    requires SameCounts(counts, trees.counts)
    requires forall x :: x in results ==> x.creationTime.Some?
    modifies trees`counts
    ensures SameCounts(counts, trees.counts)
    ensures Reports(counts, results, found)
  {
    found := [];
    for n := 0 to |results|
      invariant SameCounts(counts, trees.counts)
      invariant |found| == n
      invariant forall i :: 0 <= i < n ==>
                  found[i] == SearchResult(results[i].title, results[i].id, results[i].creationTime.value,
                                           CountOf(counts, results[i].id))
    {
      var item := results[n];
      assert CountOf(counts, item.id) == CountOf(trees.counts, item.id);
      var downloads := trees.GetOrInsert(item.id);
      found := found + [SearchResult(item.title, item.id, item.creationTime.value, |downloads|)];
    }
  }
}
