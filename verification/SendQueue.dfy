/** The withdrawal queue: requests come in over a channel, wait in a list, and are
    sent one by one; a request that fails stays for the next pass. */
module SendQueue {
  import opened Common
  import opened Money

  /** The wallet's answers in one pass, by attempt: the fee paid, or a failure. */
  type Answers = nat -> Option<u64>

  /** A completed request with the fee it cost. */
  datatype Sent = Sent(req: TransferReq, fee: u64)

  // ---------- what one pass does ----------

  /** Requests that fail, when the first of `reqs` is attempt number `n`. */
  function Failed(reqs: seq<TransferReq>, answers: Answers, n: nat): seq<TransferReq> {
    if reqs == [] then []
    else (if answers(n).None? then [reqs[0]] else []) + Failed(reqs[1..], answers, n + 1)
  }

  function Succeeded(reqs: seq<TransferReq>, answers: Answers, n: nat): seq<Sent> {
    if reqs == [] then []
    else (if answers(n).Some? then [Sent(reqs[0], answers(n).value)] else [])
         + Succeeded(reqs[1..], answers, n + 1)
  }

  function Booked(f: FinancialInfo, s: Sent): FinancialInfo {
    f.(serviceFeeTotal := Wrap(f.serviceFeeTotal + RecoveredFee(s.req.amt, s.fee)))
  }

  function Credit(money: Ledger, s: Sent): Ledger
    requires s.req.username in money
  {
    money[s.req.username := Booked(money[s.req.username], s)]
  }

  ghost predicate Known(money: Ledger, reqs: seq<TransferReq>) {
    forall r :: r in reqs ==> r.username in money
  }

  ghost predicate KnownSent(money: Ledger, sent: seq<Sent>) {
    forall s :: s in sent ==> s.req.username in money
  }

  /** All completed requests booked, in order. */
  function CreditAll(money: Ledger, sent: seq<Sent>): (r: Ledger)
    requires KnownSent(money, sent)
    ensures r.Keys == money.Keys
  {
    if sent == [] then money else CreditAll(Credit(money, sent[0]), sent[1..])
  }

  lemma {:induction false} SucceededKnown(money: Ledger, reqs: seq<TransferReq>, answers: Answers, n: nat)
    requires Known(money, reqs)
    ensures KnownSent(money, Succeeded(reqs, answers, n)) && Known(money, Failed(reqs, answers, n))
  {
    if reqs == [] {
    } else {
      assert reqs[0] in reqs;
      SucceededKnown(money, reqs[1..], answers, n + 1);
    }
  }

  /** Unfolding one attempt. */
  lemma OneAttempt(req: TransferReq, rest: seq<TransferReq>, answers: Answers, n: nat)
    ensures var reqs := [req] + rest;
            && (answers(n).Some? ==>
                  && Failed(reqs, answers, n) == Failed(rest, answers, n + 1)
                  && Succeeded(reqs, answers, n) == [Sent(req, answers(n).value)] + Succeeded(rest, answers, n + 1))
            && (answers(n).None? ==>
                  && Failed(reqs, answers, n) == [req] + Failed(rest, answers, n + 1)
                  && Succeeded(reqs, answers, n) == Succeeded(rest, answers, n + 1))
  {
    assert ([req] + rest)[1..] == rest;
  }

  /** The pass at request `i`, its attempts so far being `attempted`: what is left
      to do leads to the outcome that was due at the start. */
  ghost predicate Underway(money0: Ledger, pending0: seq<TransferReq>, answers: Answers,
                           money: Ledger, pending: seq<TransferReq>, i: nat, attempted: seq<TransferReq>)
  {
    && i <= |pending| && attempted + pending[i..] == pending0
    && Known(money, pending) && money.Keys == money0.Keys
    && pending[..i] + Failed(pending[i..], answers, |attempted|) == Failed(pending0, answers, 0)
    && KnownSent(money0, Succeeded(pending0, answers, 0))
    && KnownSent(money, Succeeded(pending[i..], answers, |attempted|))
    && CreditAll(money, Succeeded(pending[i..], answers, |attempted|))
       == CreditAll(money0, Succeeded(pending0, answers, 0))
  }

  lemma StepFailed(money0: Ledger, pending0: seq<TransferReq>, answers: Answers,
                   money: Ledger, pending: seq<TransferReq>, i: nat, attempted: seq<TransferReq>)
    requires Underway(money0, pending0, answers, money, pending, i, attempted)
    requires i < |pending| && answers(|attempted|).None?
    ensures Underway(money0, pending0, answers, money, pending, i + 1, attempted + [pending[i]])
  {
    var req, rest := pending[i], pending[i + 1..];
    assert pending[i..] == [req] + rest;
    OneAttempt(req, rest, answers, |attempted|);
    assert pending[..i + 1] == pending[..i] + [req];
    Assoc(pending[..i], [req], Failed(rest, answers, |attempted| + 1));
    Assoc(attempted, [req], rest);
  }

  lemma StepSent(money0: Ledger, pending0: seq<TransferReq>, answers: Answers,
                 money: Ledger, pending: seq<TransferReq>, i: nat, attempted: seq<TransferReq>)
    requires Underway(money0, pending0, answers, money, pending, i, attempted)
    requires i < |pending| && answers(|attempted|).Some?
    requires pending[i].username in money
    ensures Underway(money0, pending0, answers, Credit(money, Sent(pending[i], answers(|attempted|).value)),
                     Remove(pending, i), i, attempted + [pending[i]])
  {
  }

  class Sender {
    var money: Ledger
    var channel: seq<TransferReq>
    var pending: seq<TransferReq>

    ghost predicate Valid()
      reads this
    {
      Known(money, pending)
    }

    /** Take a request off the channel and queue it if the balance covers it;
        false where a missing record makes this loop panic. */
    method Intake() returns (ok: bool)
      requires Valid() && channel != []
      modifies this`channel, this`pending
      ensures Valid()
      ensures ok <==> old(channel)[0].username in money
      ensures channel == old(channel)[1..]
      ensures pending == old(pending)
              + if ok && GetBalance(money[old(channel)[0].username]) >= old(channel)[0].amt
                then [old(channel)[0]] else []
    {
      var req := channel[0];
      channel := channel[1..];
      if req.username !in money {
        return false;
      }
      if GetBalance(money[req.username]) >= req.amt {
        pending := pending + [req];
      }
      ok := true;
    }

    /** One pass over the list, removing what was sent: every request is attempted
        exactly once, in order, and the failures remain in order. */
    method SendPass(answers: Answers) returns (ghost attempted: seq<TransferReq>)
      requires Valid()
      modifies this`money, this`pending
      ensures Valid()
      ensures attempted == old(pending)
      ensures pending == Failed(old(pending), answers, 0)
      ensures KnownSent(old(money), Succeeded(old(pending), answers, 0))
      ensures money == CreditAll(old(money), Succeeded(old(pending), answers, 0))
    {
      attempted := [];
      var i, attempt: nat := 0, 0;
      SucceededKnown(money, pending, answers, 0);
      assert pending[0..] == pending && pending[..0] == [] && [] + pending == pending;
      while i < |pending|
        invariant 0 <= i <= |pending| && attempt == |attempted|
        invariant Underway(old(money), old(pending), answers, money, pending, i, attempted)
        decreases |pending| - i
      {
        var req := pending[i];
        match answers(attempt) {
          case Some(fee) =>
            assert req in pending;
            StepSent(old(money), old(pending), answers, money, pending, i, attempted);
            money := money[req.username := Booked(money[req.username], Sent(req, fee))];
            pending := Remove(pending, i);
          case None =>
            StepFailed(old(money), old(pending), answers, money, pending, i, attempted);
            i := i + 1;
        }
        attempted := attempted + [req];
        attempt := attempt + 1;
      }
      assert pending[i..] == [] && pending[..i] == pending;
    }
  }

  /** `Vec::remove`. */
  function Remove<T>(s: seq<T>, i: nat): (r: seq<T>)
    requires i < |s|
    ensures |r| == |s| - 1 && r[..i] == s[..i] && r[i..] == s[i + 1..]
    ensures forall x :: x in r ==> x in s
  {
    s[..i] + s[i + 1..]
  }

  // ---------- conservation ----------

  function Requests(sent: seq<Sent>): seq<TransferReq> {
    if sent == [] then [] else [sent[0].req] + Requests(sent[1..])
  }

  lemma {:induction false} RequestsAppend(a: seq<Sent>, b: seq<Sent>)
    ensures Requests(a + b) == Requests(a) + Requests(b)
  {
    if a == [] {
      assert a + b == b;
    } else {
      assert (a + b)[1..] == a[1..] + b;
      RequestsAppend(a[1..], b);
    }
  }

  lemma CountCons<T>(x: T, s: seq<T>, y: T)
    ensures multiset([x] + s)[y] == multiset(s)[y] + if x == y then 1 else 0
  {
  }

  /** How often `r` is left over or sent. */
  function Outcomes(failed: seq<TransferReq>, sent: seq<Sent>, r: TransferReq): nat {
    multiset(failed)[r] + multiset(Requests(sent))[r]
  }

  lemma OutcomesCons(req: TransferReq, fee: u64, failed: seq<TransferReq>, sent: seq<Sent>, r: TransferReq)
    ensures Outcomes([req] + failed, sent, r) == Outcomes(failed, sent, r) + if req == r then 1 else 0
    ensures Outcomes(failed, [Sent(req, fee)] + sent, r) == Outcomes(failed, sent, r) + if req == r then 1 else 0
  {
  }

  lemma OneMoreOutcome(req: TransferReq, rest: seq<TransferReq>, answers: Answers, n: nat, r: TransferReq)
    ensures Outcomes(Failed([req] + rest, answers, n), Succeeded([req] + rest, answers, n), r)
         == Outcomes(Failed(rest, answers, n + 1), Succeeded(rest, answers, n + 1), r) + if req == r then 1 else 0
  {
    OneAttempt(req, rest, answers, n);
    var fee := if answers(n).Some? then answers(n).value else 0;
    OutcomesCons(req, fee, Failed(rest, answers, n + 1), Succeeded(rest, answers, n + 1), r);
  }

  lemma {:induction false} PassConservesOne(reqs: seq<TransferReq>, answers: Answers, n: nat, r: TransferReq)
    ensures multiset(reqs)[r] == Outcomes(Failed(reqs, answers, n), Succeeded(reqs, answers, n), r)
  {
    if reqs == [] {
    } else {
      var req, rest := reqs[0], reqs[1..];
      PassConservesOne(rest, answers, n + 1, r);
      assert reqs == [req] + rest;
      CountCons(req, rest, r);
      OneMoreOutcome(req, rest, answers, n, r);
    }
  }

  /** A pass neither loses nor invents a request. */
  lemma PassConserves(reqs: seq<TransferReq>, answers: Answers, n: nat)
    ensures multiset(reqs)
         == multiset(Failed(reqs, answers, n)) + multiset(Requests(Succeeded(reqs, answers, n)))
  {
    forall r ensures multiset(reqs)[r]
                  == multiset(Failed(reqs, answers, n))[r] + multiset(Requests(Succeeded(reqs, answers, n)))[r] {
      PassConservesOne(reqs, answers, n, r);
    }
  }

  /** `a` is left of `b` when some elements of `b` are struck out. */
  ghost predicate Subsequence<T(!new)>(a: seq<T>, b: seq<T>) {
    if a == [] then true
    else if b == [] then false
    else (a[0] == b[0] && Subsequence(a[1..], b[1..])) || Subsequence(a, b[1..])
  }

  /** `failed` and `done` are the attempts from number `n` on that the wallet refused
      and that it carried out, in order. */
  ghost predicate Outcome(reqs: seq<TransferReq>, answers: Answers, n: nat, failed: seq<nat>, done: seq<nat>) {
    && Ascending(failed) && Ascending(done)
    && (forall i: nat :: i in failed <==> n <= i < n + |reqs| && answers(i).None?)
    && (forall i: nat :: i in done <==> n <= i < n + |reqs| && answers(i).Some?)
  }

  ghost predicate FailedAt(reqs: seq<TransferReq>, n: nat, failed: seq<nat>, r: seq<TransferReq>) {
    |r| == |failed| && forall k :: 0 <= k < |failed| ==> n <= failed[k] < n + |reqs| && r[k] == reqs[failed[k] - n]
  }

  ghost predicate DoneAt(reqs: seq<TransferReq>, answers: Answers, n: nat, done: seq<nat>, r: seq<Sent>) {
    && |r| == |done|
    && forall k :: 0 <= k < |done| ==>
         && n <= done[k] < n + |reqs| && answers(done[k]).Some?
         && r[k] == Sent(reqs[done[k] - n], answers(done[k]).value)
  }

  lemma AscendingCons(x: nat, at: seq<nat>)
    requires Ascending(at) && forall i :: i in at ==> x < i
    ensures Ascending([x] + at)
  {
    forall i, j | 0 <= i < j < |[x] + at| ensures ([x] + at)[i] < ([x] + at)[j] {
      assert at[j - 1] in at;
    }
  }

  ghost predicate Places(reqs: seq<TransferReq>, answers: Answers, n: nat, failed: seq<nat>, done: seq<nat>) {
    && Outcome(reqs, answers, n, failed, done)
    && FailedAt(reqs, n, failed, Failed(reqs, answers, n))
    && DoneAt(reqs, answers, n, done, Succeeded(reqs, answers, n))
  }

  /** One more request in front leaves the later attempts' places alone. */
  lemma LaterFailed(req: TransferReq, rest: seq<TransferReq>, n: nat, failed: seq<nat>, r: seq<TransferReq>)
    requires FailedAt(rest, n + 1, failed, r)
    ensures FailedAt([req] + rest, n, failed, r)
    ensures FailedAt([req] + rest, n, [n] + failed, [req] + r)
  {
  }

  lemma LaterDone(req: TransferReq, rest: seq<TransferReq>, answers: Answers, n: nat, done: seq<nat>, r: seq<Sent>)
    requires DoneAt(rest, answers, n + 1, done, r)
    ensures DoneAt([req] + rest, answers, n, done, r)
    ensures answers(n).Some? ==>
              DoneAt([req] + rest, answers, n, [n] + done, [Sent(req, answers(n).value)] + r)
  {
  }

  lemma LaterOutcome(req: TransferReq, rest: seq<TransferReq>, answers: Answers, n: nat, failed: seq<nat>,
                     done: seq<nat>)
    requires Outcome(rest, answers, n + 1, failed, done)
    ensures answers(n).None? ==> Outcome([req] + rest, answers, n, [n] + failed, done)
    ensures answers(n).Some? ==> Outcome([req] + rest, answers, n, failed, [n] + done)
  {
    AscendingCons(n, failed);
    AscendingCons(n, done);
  }

  /** The places of a pass, counted from attempt `n`. */
  lemma {:induction false} PassPlaces(reqs: seq<TransferReq>, answers: Answers, n: nat)
    returns (failed: seq<nat>, done: seq<nat>)
    ensures Places(reqs, answers, n, failed, done)
  {
    if reqs == [] {
      failed, done := [], [];
    } else {
      var req, rest := reqs[0], reqs[1..];
      failed, done := PassPlaces(rest, answers, n + 1);
      assert reqs == [req] + rest;
      OneAttempt(req, rest, answers, n);
      LaterOutcome(req, rest, answers, n, failed, done);
      LaterFailed(req, rest, n, failed, Failed(rest, answers, n + 1));
      LaterDone(req, rest, answers, n, done, Succeeded(rest, answers, n + 1));
      if answers(n).None? {
        failed := [n] + failed;
      } else {
        done := [n] + done;
      }
    }
  }

  /** What a pass leaves and what it sends: the requests whose attempt failed, and
      those whose attempt succeeded with the fee paid, each in the order of the list. */
  lemma PassOutcome(reqs: seq<TransferReq>, answers: Answers)
    ensures exists failed, done ::
              && Outcome(reqs, answers, 0, failed, done)
              && FailedAt(reqs, 0, failed, Failed(reqs, answers, 0))
              && DoneAt(reqs, answers, 0, done, Succeeded(reqs, answers, 0))
  {
    var failed, done := PassPlaces(reqs, answers, 0);
  }

  /** A booking adds a 49th of what left the wallet to the sender's fee total. */
  lemma OneBooking(money: Ledger, req: TransferReq, fee: u64)
    requires req.username in money && req.amt + fee < TWO_TO_THE_64
    ensures KnownSent(money, [Sent(req, fee)])
    ensures CreditAll(money, [Sent(req, fee)])
         == money[req.username :=
                    money[req.username].(serviceFeeTotal :=
                      (money[req.username].serviceFeeTotal + (req.amt + fee) / 49) % TWO_TO_THE_64)]
  {
    WrapIdentity(req.amt + fee);
    assert [Sent(req, fee)][1..] == [];
  }

  /** The failures keep their order. */
  lemma {:induction false} FailedInOrder(reqs: seq<TransferReq>, answers: Answers, n: nat)
    ensures Subsequence(Failed(reqs, answers, n), reqs)
  {
    if reqs == [] {
    } else {
      FailedInOrder(reqs[1..], answers, n + 1);
      assert reqs == [reqs[0]] + reqs[1..];
      OneAttempt(reqs[0], reqs[1..], answers, n);
      var failed := Failed(reqs, answers, n);
      if answers(n).None? {
        assert failed[1..] == Failed(reqs[1..], answers, n + 1);
      }
    }
  }

  /** Service fees recovered from a user's completed requests. */
  function FeesOf(sent: seq<Sent>, user: Bytes): nat {
    if sent == [] then 0
    else (if sent[0].req.username == user then RecoveredFee(sent[0].req.amt, sent[0].fee) else 0)
         + FeesOf(sent[1..], user)
  }

  lemma {:induction false} FeesOfAppend(a: seq<Sent>, b: seq<Sent>, user: Bytes)
    ensures FeesOf(a + b, user) == FeesOf(a, user) + FeesOf(b, user)
  {
    if a == [] {
      assert a + b == b;
    } else {
      assert (a + b)[1..] == a[1..] + b;
      FeesOfAppend(a[1..], b, user);
    }
  }

  /** Booking raises each user's fee total by exactly that user's fees and
      changes nothing else in any record. */
  lemma {:induction false} CreditAllBooks(money: Ledger, sent: seq<Sent>, user: Bytes)
    requires KnownSent(money, sent) && user in money
    ensures CreditAll(money, sent)[user]
         == money[user].(serviceFeeTotal := Wrap(money[user].serviceFeeTotal + FeesOf(sent, user)))
    decreases |sent|
  {
    if sent == [] {
      WrapIdentity(money[user].serviceFeeTotal);
    } else {
      var s := sent[0];
      assert s in sent;
      CreditAllBooks(Credit(money, s), sent[1..], user);
      if s.req.username == user {
        WrapTwice(money[user].serviceFeeTotal + RecoveredFee(s.req.amt, s.fee), FeesOf(sent[1..], user));
      }
    }
  }

  // ---------- whole runs ----------

  datatype Event = Queue(req: TransferReq) | Take | Pass(answers: Answers)

  /** The queue with its history: every request accepted, everything sent. */
  datatype State = State(
    money: Ledger, channel: seq<TransferReq>, pending: seq<TransferReq>,
    accepted: seq<TransferReq>, sent: seq<Sent>)

  function Step(s: State, e: Event): State {
    match e
    case Queue(req) => s.(channel := s.channel + [req])
    case Take =>
      if s.channel == [] then s
      else
        var req := s.channel[0];
        var taken := s.(channel := s.channel[1..]);
        if req.username in s.money && GetBalance(s.money[req.username]) >= req.amt
        then taken.(pending := s.pending + [req], accepted := s.accepted + [req])
        else taken
    case Pass(answers) =>
      var done := Succeeded(s.pending, answers, 0);
      if exists x :: x in done && x.req.username !in s.money then s
      else s.(money := CreditAll(s.money, done), pending := Failed(s.pending, answers, 0), sent := s.sent + done)
  }

  /** A request off the channel is accepted exactly when the balance covers it. */
  lemma TakeChecks(s: State)
    requires s.channel != [] && s.channel[0].username in s.money
    ensures var req, s' := s.channel[0], Step(s, Take);
            var kept := if GetBalance(s.money[req.username]) >= req.amt then [req] else [];
            && s'.channel == s.channel[1..] && s'.money == s.money && s'.sent == s.sent
            && s'.pending == s.pending + kept && s'.accepted == s.accepted + kept
  {
  }

  function Run(start: Ledger, events: seq<Event>): State {
    if events == [] then State(start, [], [], [], [])
    else Step(Run(start, events[..|events| - 1]), events[|events| - 1])
  }

  /** A record that changed only by the fees of what its user had sent. */
  ghost predicate FeesBooked(info0: FinancialInfo, info: FinancialInfo, sent: seq<Sent>, user: Bytes) {
    info == info0.(serviceFeeTotal := Wrap(info0.serviceFeeTotal + FeesOf(sent, user)))
  }

  ghost predicate QueueOk(start: Ledger, s: State) {
    && s.money.Keys == start.Keys && Known(s.money, s.pending)
    && multiset(s.accepted) == multiset(s.pending) + multiset(Requests(s.sent))
    && forall user :: user in start ==> FeesBooked(start[user], s.money[user], s.sent, user)
  }

  /** Two bookings in turn are one booking of the sum. */
  lemma BookedTwice(info0: FinancialInfo, info: FinancialInfo, a: nat, b: nat)
    requires info == info0.(serviceFeeTotal := Wrap(info0.serviceFeeTotal + a))
    ensures info.(serviceFeeTotal := Wrap(info.serviceFeeTotal + b))
         == info0.(serviceFeeTotal := Wrap(info0.serviceFeeTotal + (a + b)))
  {
    WrapTwice(info0.serviceFeeTotal + a, b);
  }

  lemma BookMore(info0: FinancialInfo, money: Ledger, sent: seq<Sent>, done: seq<Sent>, user: Bytes)
    requires user in money && KnownSent(money, done)
    requires FeesBooked(info0, money[user], sent, user)
    ensures FeesBooked(info0, CreditAll(money, done)[user], sent + done, user)
  {
    CreditAllBooks(money, done, user);
    BookedTwice(info0, money[user], FeesOf(sent, user), FeesOf(done, user));
    FeesOfAppend(sent, done, user);
  }

  lemma PassStep(s: State, answers: Answers)
    requires Known(s.money, s.pending)
    ensures var done := Succeeded(s.pending, answers, 0);
            && KnownSent(s.money, done)
            && Step(s, Pass(answers))
               == s.(money := CreditAll(s.money, done), pending := Failed(s.pending, answers, 0), sent := s.sent + done)
            && Known(s.money, Failed(s.pending, answers, 0))
  {
    SucceededKnown(s.money, s.pending, answers, 0);
  }

  lemma PassKeeps(start: Ledger, s: State, answers: Answers)
    requires QueueOk(start, s)
    ensures QueueOk(start, Step(s, Pass(answers)))
  {
    var done := Succeeded(s.pending, answers, 0);
    PassStep(s, answers);
    PassConserves(s.pending, answers, 0);
    RequestsAppend(s.sent, done);
    forall user | user in start
      ensures FeesBooked(start[user], CreditAll(s.money, done)[user], s.sent + done, user)
    {
      BookMore(start[user], s.money, s.sent, done, user);
    }
  }

  lemma {:induction false} QueueKept(start: Ledger, events: seq<Event>)
    ensures QueueOk(start, Run(start, events))
  {
    if events == [] {
      forall user | user in start
        ensures Wrap(start[user].serviceFeeTotal + FeesOf([], user)) == start[user].serviceFeeTotal
      {
        WrapIdentity(start[user].serviceFeeTotal);
      }
    } else {
      var before, e := events[..|events| - 1], events[|events| - 1];
      QueueKept(start, before);
      match e
      case Pass(answers) => PassKeeps(start, Run(start, before), answers);
      case _ =>
    }
  }

  /** Over any run: every accepted request is pending or sent, once; every
      record is what it was but for the fees of what its user had sent. */
  lemma AcceptedIsSentOrPending(start: Ledger, events: seq<Event>, user: Bytes)
    requires user in start
    ensures var s := Run(start, events);
            && multiset(s.accepted) == multiset(s.pending) + multiset(Requests(s.sent))
            && user in s.money
            && FeesBooked(start[user], s.money[user], s.sent, user)
  {
    QueueKept(start, events);
  }
}
