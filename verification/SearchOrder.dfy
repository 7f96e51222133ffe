/** What the bounded search computes, independently of the scan: the best `k` of
    the matches, as sorting them and taking `k` would give. */
module SearchOrder {
  import opened Common
  import opened Uploads
  import opened Downloads
  import opened Search
  import Db

  /** How many items of `s` are at least as good as rank `t`. */
  function CountLe(alg: SearchAlg, counts: Counts, s: seq<Item>, t: int): nat {
    if s == [] then 0
    else (if Rank(alg, counts, s[0]) <= t then 1 else 0) + CountLe(alg, counts, s[1..], t)
  }

  lemma {:induction false} CountLeAppend(alg: SearchAlg, counts: Counts, a: seq<Item>, b: seq<Item>, t: int)
    ensures CountLe(alg, counts, a + b, t) == CountLe(alg, counts, a, t) + CountLe(alg, counts, b, t)
  {
    if a == [] {
      assert a + b == b;
    } else {
      assert (a + b)[1..] == a[1..] + b;
      CountLeAppend(alg, counts, a[1..], b, t);
    }
  }

  lemma CountLeWithout(alg: SearchAlg, counts: Counts, s: seq<Item>, j: nat, t: int)
    requires j < |s|
    ensures CountLe(alg, counts, s, t)
         == CountLe(alg, counts, s[..j] + s[j + 1..], t) + if Rank(alg, counts, s[j]) <= t then 1 else 0
  {
    var before, after := s[..j], s[j + 1..];
    assert s == before + ([s[j]] + after);
    CountLeAppend(alg, counts, before, [s[j]] + after, t);
    CountLeAppend(alg, counts, before, after, t);
    assert ([s[j]] + after)[1..] == after;
  }

  lemma {:induction false} CountLePermutation(alg: SearchAlg, counts: Counts, a: seq<Item>, b: seq<Item>, t: int)
    requires multiset(a) == multiset(b)
    ensures CountLe(alg, counts, a, t) == CountLe(alg, counts, b, t)
    decreases |a|
  {
    if a == [] {
      assert |multiset(b)| == 0;
    } else {
      var j := FindsHead(a, b);
      CountLePermutation(alg, counts, a[1..], b[..j] + b[j + 1..], t);
      CountLeWithout(alg, counts, b, j, t);
    }
  }

  lemma {:induction false} CountLeAll(alg: SearchAlg, counts: Counts, s: seq<Item>, t: int)
    ensures CountLe(alg, counts, s, t) <= |s|
    ensures (forall x :: x in s ==> Rank(alg, counts, x) <= t) ==> CountLe(alg, counts, s, t) == |s|
    ensures (forall x :: x in s ==> Rank(alg, counts, x) > t) ==> CountLe(alg, counts, s, t) == 0
  {
    if s == [] {
    } else {
      assert s[0] in s;
      CountLeAll(alg, counts, s[1..], t);
    }
  }

  /** A best selection of `k` has, at or above every rank, either everything the
      matches have there or `k` items. */
  lemma TopKProfile(alg: SearchAlg, counts: Counts, kept: seq<Item>, matches: seq<Item>, k: nat, t: int)
    requires TopK(alg, counts, kept, matches, k)
    ensures CountLe(alg, counts, kept, t) == Min(k, CountLe(alg, counts, matches, t))
  {
    var left :| multiset(kept + left) == multiset(matches) && NoneBetter(alg, counts, kept, left);
    assert |multiset(kept + left)| == |multiset(matches)|;
    CountLePermutation(alg, counts, kept + left, matches, t);
    CountLeAppend(alg, counts, kept, left, t);
    CountLeAll(alg, counts, kept, t);
    CountLeAll(alg, counts, left, t);
    if y :| y in left && Rank(alg, counts, y) <= t {
      assert forall x :: x in kept ==> Rank(alg, counts, x) <= t;
      assert |left| > 0;
    }
  }

  /** Items of one rank exactly. */
  function CountAt(alg: SearchAlg, counts: Counts, s: seq<Item>, t: int): int {
    CountLe(alg, counts, s, t) - CountLe(alg, counts, s, t - 1)
  }

  /** Any two best selections of the same matches, in whatever orders they were
      scanned, hold equally many items of each rank. */
  lemma SelectionsAgree(alg: SearchAlg, counts: Counts, kept1: seq<Item>, matches1: seq<Item>,
                        kept2: seq<Item>, matches2: seq<Item>, k: nat, t: int)
    requires TopK(alg, counts, kept1, matches1, k) && TopK(alg, counts, kept2, matches2, k)
    requires multiset(matches1) == multiset(matches2)
    ensures CountAt(alg, counts, kept1, t) == CountAt(alg, counts, kept2, t)
  {
    TopKProfile(alg, counts, kept1, matches1, k, t);
    TopKProfile(alg, counts, kept2, matches2, k, t);
    TopKProfile(alg, counts, kept1, matches1, k, t - 1);
    TopKProfile(alg, counts, kept2, matches2, k, t - 1);
    CountLePermutation(alg, counts, matches1, matches2, t);
    CountLePermutation(alg, counts, matches1, matches2, t - 1);
  }

  // ---------- sort, then take k ----------

  function Insert(alg: SearchAlg, counts: Counts, x: Item, s: seq<Item>): seq<Item> {
    if s == [] || Rank(alg, counts, x) <= Rank(alg, counts, s[0]) then [x] + s
    else [s[0]] + Insert(alg, counts, x, s[1..])
  }

  function Sort(alg: SearchAlg, counts: Counts, s: seq<Item>): seq<Item> {
    if s == [] then [] else Insert(alg, counts, s[0], Sort(alg, counts, s[1..]))
  }

  ghost predicate Sorted(alg: SearchAlg, counts: Counts, s: seq<Item>) {
    forall i, j :: 0 <= i < j < |s| ==> Rank(alg, counts, s[i]) <= Rank(alg, counts, s[j])
  }

  lemma InsertBehind<T>(x: T, s: seq<T>, tail: seq<T>)
    requires s != [] && multiset(tail) == multiset{x} + multiset(s[1..])
    ensures multiset([s[0]] + tail) == multiset{x} + multiset(s)
  {
    MultisetCons(s[0], tail);
    WithoutHead(s);
  }

  lemma {:induction false} InsertKeeps(alg: SearchAlg, counts: Counts, x: Item, s: seq<Item>)
    ensures multiset(Insert(alg, counts, x, s)) == multiset{x} + multiset(s)
  {
    if s == [] || Rank(alg, counts, x) <= Rank(alg, counts, s[0]) {
      MultisetCons(x, s);
    } else {
      InsertKeeps(alg, counts, x, s[1..]);
      InsertBehind(x, s, Insert(alg, counts, x, s[1..]));
    }
  }

  lemma SortedBehind(alg: SearchAlg, counts: Counts, x: Item, y: Item, s: seq<Item>, tail: seq<Item>)
    requires Sorted(alg, counts, [y] + s) && Sorted(alg, counts, tail)
    requires Rank(alg, counts, y) <= Rank(alg, counts, x) && multiset(tail) == multiset{x} + multiset(s)
    ensures Sorted(alg, counts, [y] + tail)
  {
    forall i | 0 <= i < |tail| ensures Rank(alg, counts, y) <= Rank(alg, counts, tail[i]) {
      assert tail[i] in multiset(tail);
      if tail[i] != x {
        assert tail[i] in multiset(s);
        var j :| 0 <= j < |s| && s[j] == tail[i];
        assert ([y] + s)[0] == y && ([y] + s)[j + 1] == s[j];
      }
    }
  }

  lemma {:induction false} InsertSorts(alg: SearchAlg, counts: Counts, x: Item, s: seq<Item>)
    requires Sorted(alg, counts, s)
    ensures Sorted(alg, counts, Insert(alg, counts, x, s))
  {
    if s == [] || Rank(alg, counts, x) <= Rank(alg, counts, s[0]) {
    } else {
      InsertSorts(alg, counts, x, s[1..]);
      InsertKeeps(alg, counts, x, s[1..]);
      assert s == [s[0]] + s[1..];
      SortedBehind(alg, counts, x, s[0], s[1..], Insert(alg, counts, x, s[1..]));
    }
  }

  lemma {:induction false} SortSorts(alg: SearchAlg, counts: Counts, s: seq<Item>)
    ensures Sorted(alg, counts, Sort(alg, counts, s))
    ensures multiset(Sort(alg, counts, s)) == multiset(s)
  {
    if s == [] {
    } else {
      SortSorts(alg, counts, s[1..]);
      InsertSorts(alg, counts, s[0], Sort(alg, counts, s[1..]));
      InsertKeeps(alg, counts, s[0], Sort(alg, counts, s[1..]));
      WithoutHead(s);
    }
  }

  lemma CutSorted(alg: SearchAlg, counts: Counts, sorted: seq<Item>, n: nat)
    requires n <= |sorted| && Sorted(alg, counts, sorted)
    ensures sorted[..n] + sorted[n..] == sorted
    ensures NoneBetter(alg, counts, sorted[..n], sorted[n..])
  {
  }

  lemma SortTakeIsTopK(alg: SearchAlg, counts: Counts, matches: seq<Item>, k: nat)
    ensures |Sort(alg, counts, matches)| == |matches|
    ensures TopK(alg, counts, Sort(alg, counts, matches)[..Min(k, |matches|)], matches, k)
  {
    var sorted := Sort(alg, counts, matches);
    SortSorts(alg, counts, matches);
    assert |multiset(sorted)| == |multiset(matches)|;
    CutSorted(alg, counts, sorted, Min(k, |matches|));
  }

  /** The scan refines sorting: what it keeps has, rank for rank, as many items as
      the first `k` of the sorted matches. */
  lemma ScanRefinesSort(alg: SearchAlg, counts: Counts, kept: seq<Item>, matches: seq<Item>, k: nat, t: int)
    requires TopK(alg, counts, kept, matches, k)
    ensures |Sort(alg, counts, matches)| == |matches|
    ensures CountAt(alg, counts, kept, t)
         == CountAt(alg, counts, Sort(alg, counts, matches)[..Min(k, |matches|)], t)
  {
    SortTakeIsTopK(alg, counts, matches, k);
    SelectionsAgree(alg, counts, kept, matches, Sort(alg, counts, matches)[..Min(k, |matches|)], matches, k, t);
  }

  // ---------- newest and oldest ----------

  ghost predicate DistinctIds(s: seq<Item>) {
    forall i, j :: 0 <= i < j < |s| ==> s[i].id != s[j].id
  }

  lemma {:induction false} CountAtPresence(alg: SearchAlg, counts: Counts, s: seq<Item>, t: int)
    ensures CountAt(alg, counts, s, t) >= 0
    ensures CountAt(alg, counts, s, t) > 0 <==> exists x :: x in s && Rank(alg, counts, x) == t
  {
    if s == [] {
    } else {
      CountAtPresence(alg, counts, s[1..], t);
      assert s == [s[0]] + s[1..];
      if Rank(alg, counts, s[0]) == t {
        assert s[0] in s;
      }
    }
  }

  lemma KeptIsMatch(alg: SearchAlg, counts: Counts, kept: seq<Item>, matches: seq<Item>, k: nat, x: Item)
    requires TopK(alg, counts, kept, matches, k) && x in kept
    ensures x in matches
  {
    var left :| multiset(kept + left) == multiset(matches) && NoneBetter(alg, counts, kept, left);
    assert x in kept + left;
    assert x in multiset(matches);
  }

  /** For the id orders the scan order is irrelevant: with distinct ids the same
      items are kept, whichever way the tree is iterated. */
  lemma IdOrdersIgnoreScanOrder(alg: SearchAlg, counts: Counts, kept1: seq<Item>, matches1: seq<Item>,
                                kept2: seq<Item>, matches2: seq<Item>, k: nat, x: Item)
    requires alg.Newest? || alg.Oldest?
    requires TopK(alg, counts, kept1, matches1, k) && TopK(alg, counts, kept2, matches2, k)
    requires multiset(matches1) == multiset(matches2) && DistinctIds(matches1)
    ensures x in kept1 ==> x in kept2
  {
    if x in kept1 {
      var t := Rank(alg, counts, x);
      SelectionsAgree(alg, counts, kept1, matches1, kept2, matches2, k, t);
      CountAtPresence(alg, counts, kept1, t);
      CountAtPresence(alg, counts, kept2, t);
      var y :| y in kept2 && Rank(alg, counts, y) == t;
      KeptIsMatch(alg, counts, kept1, matches1, k, x);
      KeptIsMatch(alg, counts, kept2, matches2, k, y);
      assert y in multiset(matches1);
      assert x.id == y.id;
    }
  }

  /** An item is kept exactly when fewer than `k` matches are better than it. */
  lemma KeptExactly(alg: SearchAlg, counts: Counts, kept: seq<Item>, matches: seq<Item>, k: nat, x: Item)
    requires alg.Newest? || alg.Oldest?
    requires TopK(alg, counts, kept, matches, k) && DistinctIds(matches) && x in matches
    ensures x in kept <==> CountLe(alg, counts, matches, Rank(alg, counts, x) - 1) < k
  {
    var t := Rank(alg, counts, x);
    TopKProfile(alg, counts, kept, matches, k, t);
    TopKProfile(alg, counts, kept, matches, k, t - 1);
    CountAtPresence(alg, counts, kept, t);
    CountAtPresence(alg, counts, matches, t);
    if y :| y in kept && Rank(alg, counts, y) == t {
      KeptIsMatch(alg, counts, kept, matches, k, y);
      assert x.id == y.id;
    }
  }

  // ---------- iteration order of the tree ----------

  /** Ids are stored little-endian, so the tree does not iterate them in numeric
      order: id 256 comes before id 1. */
  lemma TreeOrderIsNotNumeric()
    ensures Db.BytesBefore(ToLe(256, 8), ToLe(1, 8))
  {
    assert ToLe(256, 8)[0] == 0 && ToLe(1, 8)[0] == 1;
  }
}
