/** Fetching transactions from the daemon, at most a hundred at a time. */
module DaemonRpc {
  import opened Common

  const MAX_REQUESTED_TRANSACTIONS: nat := 100

  /** The list cut into consecutive slices of a hundred, the last one shorter. */
  function Slices<T>(hashes: seq<T>): seq<seq<T>>
    decreases |hashes|
  {
    if hashes == [] then []
    else
      var n := Min(MAX_REQUESTED_TRANSACTIONS, |hashes|);
      [hashes[..n]] + Slices(hashes[n..])
  }

  /** The transactions answered to the first `n` requests, in order. */
  function Answered<T, X>(answers: (nat, seq<T>) -> Option<seq<X>>, slices: seq<seq<T>>, n: nat): seq<X>
    requires n <= |slices|
    decreases n
  {
    if n == 0 then []
    else Answered(answers, slices, n - 1)
         + match answers(n - 1, slices[n - 1]) { case Some(txs) => txs case None => [] }
  }

  lemma {:induction false} SliceAt<T>(hashes: seq<T>, i: nat)
    ensures i * MAX_REQUESTED_TRANSACTIONS < |hashes| ==>
              && i < |Slices(hashes)|
              && Slices(hashes)[i] == hashes[i * MAX_REQUESTED_TRANSACTIONS
                                             ..Min(MAX_REQUESTED_TRANSACTIONS * (i + 1), |hashes|)]
    ensures i * MAX_REQUESTED_TRANSACTIONS >= |hashes| ==> i >= |Slices(hashes)|
    decreases i
  {
    if hashes != [] && i > 0 {
      var n := Min(MAX_REQUESTED_TRANSACTIONS, |hashes|);
      SliceAt(hashes[n..], i - 1);
    }
  }

  /** The slices are never empty, never longer than a hundred, concatenate to the
      list, and there are a hundredth of its length, rounded up, of them. */
  lemma {:induction false} SlicesCover<T>(hashes: seq<T>)
    ensures Concat(Slices(hashes)) == hashes
    ensures forall s :: s in Slices(hashes) ==> 1 <= |s| <= 100
    ensures |Slices(hashes)| == (|hashes| + 99) / 100
    decreases |hashes|
  {
    if hashes == [] {
    } else {
      var n := Min(MAX_REQUESTED_TRANSACTIONS, |hashes|);
      SlicesCover(hashes[n..]);
      assert hashes == hashes[..n] + hashes[n..];
    }
  }

  /** All slices but the last are full. */
  lemma FullSlices<T>(hashes: seq<T>, i: nat)
    requires i + 1 < |Slices(hashes)|
    ensures |Slices(hashes)[i]| == 100
  {
    SliceAt(hashes, i);
    SliceAt(hashes, i + 1);
  }

  /** What the daemon answers to each slice. */
  function Replies<T, X>(answers: (nat, seq<T>) -> Option<seq<X>>, slices: seq<seq<T>>): (r: seq<seq<X>>)
    requires forall i :: 0 <= i < |slices| ==> answers(i, slices[i]).Some?
    ensures |r| == |slices| && forall i :: 0 <= i < |r| ==> r[i] == answers(i, slices[i]).value
  {
    seq(|slices|, i requires 0 <= i < |slices| => answers(i, slices[i]).value)
  }

  /** The answers are joined in the order of the requests. */
  lemma {:induction false} AnsweredInOrder<T, X>(answers: (nat, seq<T>) -> Option<seq<X>>, slices: seq<seq<T>>, n: nat)
    requires n <= |slices| && forall i :: 0 <= i < |slices| ==> answers(i, slices[i]).Some?
    ensures Answered(answers, slices, n) == Concat(Replies(answers, slices)[..n])
  {
    var replies := Replies(answers, slices);
    if n > 0 {
      AnsweredInOrder(answers, slices, n - 1);
      ConcatSnoc(replies[..n - 1], replies[n - 1]);
      assert replies[..n] == replies[..n - 1] + [replies[n - 1]];
    }
  }

  /** The loop of the source. `answers` is the daemon: the transactions it returns
      for the given request, or an error. `requests` are the requests made. */
  method TransactionsByHashes<T, X>(hashes: seq<T>, answers: (nat, seq<T>) -> Option<seq<X>>)
    returns (transactions: Option<seq<X>>, requests: seq<seq<T>>)
    ensures requests <= Slices(hashes)
    ensures transactions.Some? <==>
              forall i :: 0 <= i < |Slices(hashes)| ==> answers(i, Slices(hashes)[i]).Some?
    ensures transactions.Some? ==>
              && requests == Slices(hashes)
              && transactions.value == Concat(Replies(answers, Slices(hashes)))
    ensures transactions.None? ==>
              requests != [] && answers(|requests| - 1, requests[|requests| - 1]).None?
              && forall i :: 0 <= i < |requests| - 1 ==> answers(i, requests[i]).Some?
  {
    var txs: seq<X> := [];
    requests := [];
    ghost var slices := Slices(hashes);
    for i := 0 to |hashes| / MAX_REQUESTED_TRANSACTIONS + 1
      invariant i <= |slices| && requests == slices[..i]
      invariant forall k :: 0 <= k < i ==> answers(k, slices[k]).Some?
      invariant txs == Answered(answers, slices, i)
    {
      var startingIndex := i * MAX_REQUESTED_TRANSACTIONS;
      var endingIndex := Min(MAX_REQUESTED_TRANSACTIONS * (i + 1), |hashes|);
      SliceAt(hashes, i);
      if endingIndex == startingIndex {
        AnsweredInOrder(answers, slices, i);
        assert Replies(answers, slices)[..i] == Replies(answers, slices);
        return Some(txs), requests;
      }
      var slice := hashes[startingIndex..endingIndex];
      requests := requests + [slice];
      match answers(i, slice) {
        case None => return None, requests;
        case Some(more) => txs := txs + more;
      }
    }
    SliceAt(hashes, |hashes| / MAX_REQUESTED_TRANSACTIONS + 1);
    AnsweredInOrder(answers, slices, |slices|);
    assert Replies(answers, slices)[..|slices|] == Replies(answers, slices);
    transactions := Some(txs);
  }
}
