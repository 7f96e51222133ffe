/** Sorting the wallet's transfers into one bucket per requested subaddress. */
module WalletRpc {
  import opened Common
  import opened Money

  /** The transfers of subaddress `index`, in order. */
  function Select(ts: seq<Transfer>, index: nat): seq<Transfer> {
    if ts == [] then []
    else
      Select(ts[..|ts| - 1], index) + if ts[|ts| - 1].addrIndex == index then [ts[|ts| - 1]] else []
  }

  lemma SelectMore(ts: seq<Transfer>, t: Transfer, index: nat)
    ensures Select(ts + [t], index) == Select(ts, index) + if t.addrIndex == index then [t] else []
  {
    assert (ts + [t])[..|ts|] == ts;
  }

  lemma SelectMoreEach(ts: seq<Transfer>, t: Transfer)
    ensures forall j :: Select(ts + [t], j) == Select(ts, j) + if t.addrIndex == j then [t] else []
  {
  }

  /** One bucket per requested index, labelled with it; bucket `j` holds the
      transfers of subaddress `j + 1`. */
  function Buckets(indices: seq<nat>, ins: seq<Transfer>, outs: seq<Transfer>): (r: seq<Transfers>)
    ensures |r| == |indices|
    ensures forall j :: 0 <= j < |r| ==> r[j] == Transfers(indices[j], Select(ins, j + 1), Select(outs, j + 1))
  {
    seq(|indices|, j requires 0 <= j < |indices| => Transfers(indices[j], Select(ins, j + 1), Select(outs, j + 1)))
  }

  ghost predicate Filled(buckets: array<Transfers>, indices: seq<nat>, ins: seq<Transfer>, outs: seq<Transfer>)
    reads buckets
  {
    && buckets.Length == |indices|
    && forall j :: 0 <= j < |indices| ==> buckets[j] == Transfers(indices[j], Select(ins, j + 1), Select(outs, j + 1))
  }

  /** Push one transfer into its bucket, if there is one. */
  method Push(buckets: array<Transfers>, t: Transfer, outgoing: bool, ghost indices: seq<nat>,
              ghost ins: seq<Transfer>, ghost outs: seq<Transfer>)
    requires Filled(buckets, indices, ins, outs) && t.addrIndex > 0
    modifies buckets
    ensures Filled(buckets, indices, if outgoing then ins else ins + [t], if outgoing then outs + [t] else outs)
  {
    var at := t.addrIndex - 1;
    if outgoing {
      SelectMoreEach(outs, t);
      if at < buckets.Length {
        buckets[at] := buckets[at].(transfersOut := buckets[at].transfersOut + [t]);
      }
    } else {
      SelectMoreEach(ins, t);
      if at < buckets.Length {
        buckets[at] := buckets[at].(transfersIn := buckets[at].transfersIn + [t]);
      }
    }
  }

  /** An incoming transfer of subaddress 0 panics. */
  method SortIncoming(buckets: array<Transfers>, indices: seq<nat>, ins: seq<Transfer>) returns (ok: bool)
    requires Filled(buckets, indices, [], [])
    modifies buckets
    ensures ok <==> forall t :: t in ins ==> t.addrIndex != 0
    ensures ok ==> Filled(buckets, indices, ins, [])
  {
    for n := 0 to |ins|
      invariant Filled(buckets, indices, ins[..n], [])
      invariant forall t :: t in ins[..n] ==> t.addrIndex != 0
    {
      if ins[n].addrIndex == 0 {
        return false;
      }
      assert ins[..n + 1] == ins[..n] + [ins[n]];
      Push(buckets, ins[n], false, indices, ins[..n], []);
    }
    assert ins[..|ins|] == ins;
    ok := true;
  }

  lemma IgnoredOutgoing(outs: seq<Transfer>, t: Transfer, j: nat)
    requires t.addrIndex == 0 && j > 0
    ensures Select(outs + [t], j) == Select(outs, j)
  {
  }

  /** An outgoing transfer of subaddress 0 is ignored. */
  method SortOutgoing(buckets: array<Transfers>, indices: seq<nat>, ghost ins: seq<Transfer>, outs: seq<Transfer>)
    requires Filled(buckets, indices, ins, [])
    modifies buckets
    ensures Filled(buckets, indices, ins, outs)
  {
    for n := 0 to |outs|
      invariant Filled(buckets, indices, ins, outs[..n])
    {
      assert outs[..n + 1] == outs[..n] + [outs[n]];
      if outs[n].addrIndex > 0 {
        Push(buckets, outs[n], true, indices, ins, outs[..n]);
      } else {
        forall j: nat | j > 0 ensures Select(outs[..n + 1], j) == Select(outs[..n], j) {
          IgnoredOutgoing(outs[..n], outs[n], j);
        }
      }
    }
    assert outs[..|outs|] == outs;
  }

  /** The second half of `get_transfers`. */
  method SortTransfers(indices: seq<nat>, ins: seq<Transfer>, outs: seq<Transfer>) returns (r: Option<seq<Transfers>>)
    ensures r.None? <==> exists t :: t in ins && t.addrIndex == 0
    ensures r.Some? ==> r.value == Buckets(indices, ins, outs)
  {
    var buckets := new Transfers[|indices|](j requires 0 <= j < |indices| => Transfers(indices[j], [], []));
    var ok := SortIncoming(buckets, indices, ins);
    if !ok {
      return None;
    }
    SortOutgoing(buckets, indices, ins, outs);
    assert buckets[..] == Buckets(indices, ins, outs);
    r := Some(buckets[..]);
  }

  // ---------- what the buckets hold ----------

  /** Exactly the given subaddress's transfers: each as often as it was reported. */
  lemma {:induction false} SelectExactly(ts: seq<Transfer>, index: nat, t: Transfer)
    ensures multiset(Select(ts, index))[t] == if t.addrIndex == index then multiset(ts)[t] else 0
  {
    if ts == [] {
    } else {
      var n := |ts| - 1;
      SelectExactly(ts[..n], index, t);
      assert ts == ts[..n] + [ts[n]];
    }
  }

  lemma AscendingSnoc(at: seq<nat>, x: nat)
    requires Ascending(at) && forall i :: i in at ==> i < x
    ensures Ascending(at + [x])
  {
    forall i, j | 0 <= i < j < |at + [x]| ensures (at + [x])[i] < (at + [x])[j] {
      assert at[i] in at;
    }
  }

  /** The places of the subaddress's transfers. */
  ghost predicate PlacesOf(ts: seq<Transfer>, index: nat, at: seq<nat>) {
    forall i: nat :: i in at <==> i < |ts| && ts[i].addrIndex == index
  }

  lemma PlaceMore(ts: seq<Transfer>, t: Transfer, index: nat, at: seq<nat>)
    requires At(Select(ts, index), ts, at) && PlacesOf(ts, index, at)
    ensures t.addrIndex != index ==> At(Select(ts + [t], index), ts + [t], at) && PlacesOf(ts + [t], index, at)
    ensures t.addrIndex == index ==>
              At(Select(ts + [t], index), ts + [t], at + [|ts|]) && PlacesOf(ts + [t], index, at + [|ts|])
  {
    SelectMore(ts, t, index);
    AscendingSnoc(at, |ts|);
  }

  lemma {:induction false} SelectPlaces(ts: seq<Transfer>, index: nat) returns (at: seq<nat>)
    ensures At(Select(ts, index), ts, at) && PlacesOf(ts, index, at)
  {
    if ts == [] {
      at := [];
    } else {
      var n := |ts| - 1;
      at := SelectPlaces(ts[..n], index);
      PlaceMore(ts[..n], ts[n], index, at);
      assert ts == ts[..n] + [ts[n]];
      if ts[n].addrIndex == index {
        at := at + [n];
      }
    }
  }

  /** In the order of the report: the selection holds what stands at the places of
      the subaddress, and nothing else. */
  lemma SelectInOrder(ts: seq<Transfer>, index: nat)
    ensures exists at :: At(Select(ts, index), ts, at) && PlacesOf(ts, index, at)
  {
    var at := SelectPlaces(ts, index);
  }

  /** Transfers that go into no bucket. */
  function Dropped(ts: seq<Transfer>, n: nat): nat {
    if ts == [] then 0
    else Dropped(ts[..|ts| - 1], n) + if 1 <= ts[|ts| - 1].addrIndex <= n then 0 else 1
  }

  /** Sizes of the first `n` buckets together. */
  function Sizes(ts: seq<Transfer>, n: nat): nat {
    if n == 0 then 0 else Sizes(ts, n - 1) + |Select(ts, n)|
  }

  lemma {:induction false} SizesMore(ts: seq<Transfer>, t: Transfer, n: nat)
    ensures Sizes(ts + [t], n) == Sizes(ts, n) + if 1 <= t.addrIndex <= n then 1 else 0
  {
    if n == 0 {
    } else {
      SizesMore(ts, t, n - 1);
      SelectMore(ts, t, n);
    }
  }

  lemma {:induction false} SizesOfNothing(n: nat)
    ensures Sizes([], n) == 0
  {
    if n == 0 {
    } else {
      SizesOfNothing(n - 1);
    }
  }

  /** The buckets and the dropped transfers account for the whole input. */
  lemma {:induction false} BucketsAndDropped(ts: seq<Transfer>, n: nat)
    ensures Sizes(ts, n) + Dropped(ts, n) == |ts|
  {
    if ts == [] {
      SizesOfNothing(n);
    } else {
      var k := |ts| - 1;
      BucketsAndDropped(ts[..k], n);
      SizesMore(ts[..k], ts[k], n);
      assert ts == ts[..k] + [ts[k]];
    }
  }

  /** Every transfer of a bucket bears the bucket's label. */
  ghost predicate Labelled(b: Transfers) {
    && (forall t :: t in b.transfersIn ==> t.addrIndex == b.addrIndex)
    && (forall t :: t in b.transfersOut ==> t.addrIndex == b.addrIndex)
  }

  lemma SelectedIndex(ts: seq<Transfer>, index: nat, t: Transfer)
    requires t in Select(ts, index)
    ensures t.addrIndex == index
  {
  }

  /** A bucket is labelled correctly exactly when it is empty or the index asked
      for at its place is its place: all buckets are, for every reply of the
      wallet, only if the indices were asked for as 1 to n in order. */
  lemma LabelledExactly(indices: seq<nat>, ins: seq<Transfer>, outs: seq<Transfer>, j: nat)
    requires j < |indices|
    ensures Labelled(Buckets(indices, ins, outs)[j])
       <==> (Select(ins, j + 1) == [] && Select(outs, j + 1) == []) || indices[j] == j + 1
  {
    var b := Buckets(indices, ins, outs)[j];
    forall t | t in b.transfersIn ensures t.addrIndex == j + 1 {
      SelectedIndex(ins, j + 1, t);
    }
    forall t | t in b.transfersOut ensures t.addrIndex == j + 1 {
      SelectedIndex(outs, j + 1, t);
    }
    if b.transfersIn != [] {
      assert b.transfersIn[0] in b.transfersIn;
    }
    if b.transfersOut != [] {
      assert b.transfersOut[0] in b.transfersOut;
    }
  }
}
