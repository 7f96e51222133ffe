/** Money under concurrency. The withdrawal queue, the balance updater and the
    handlers read a user's record, change their copy and write it back, with other
    writes in between; the wallet's view of completed transfers lags behind. */
module FeeLag {
  import opened Common
  import opened Money
  import opened WalletRpc
  import Balances

  /** A copy of a record, with the number of writes the record had seen. */
  datatype Copy = Copy(info: FinancialInfo, version: nat)

  /** What can go wrong with a record: a write puts back an outdated copy, a
      registration of the same name writes a new record over it, a restart cuts off
      the booking of a transfer that went through. */
  datatype Mishap = StaleWrite | Reregistered | BookingLost

  /** A user's record and its history: the writes so far, the transfers that went
      through, the money spent, the subaddresses given at registration, the
      mishaps; was the user shown transfers that are not the user's own. */
  datatype Account = Account(
    info: FinancialInfo, version: nat, completed: seq<Transfer>, spent: nat, homes: set<nat>, mishaps: set<Mishap>,
    foreign: bool)

  /** The sender between the steps of booking one transfer: the transfer has gone
      through; the record has been read; it has been written once (it is written
      again after a flush). */
  datatype Sender =
    | Idle
    | Sent(user: Bytes, t: Transfer)
    | Read(user: Bytes, t: Transfer, copy: Copy)
    | Flushing(user: Bytes, copy: Copy)

  /** Withdrawals wait in the channel, in the hands of the intake once the balance
      was found sufficient, and in the pending list; during a pass over the list
      its lock is held and `at` is the place of the pass. `accepted`, `sent` and
      `lost` (to restarts) are history. */
  datatype Queue = Queue(
    channel: seq<TransferReq>, held: Option<TransferReq>, pending: seq<TransferReq>, inPass: bool, at: nat,
    accepted: seq<TransferReq>, sent: seq<TransferReq>, lost: seq<TransferReq>)

  /** `registering` are the names of registrations between lookup and insertion. */
  datatype State = State(
    users: map<Bytes, Account>, queue: Queue, sender: Sender, batch: map<Bytes, Copy>,
    handlers: map<nat, (Bytes, Copy)>, registering: map<nat, Bytes>)

  datatype Event =
    // register: find the name free; later insert a record for it, whatever is there
    | Lookup(call: nat, user: Bytes)
    | Register(call: nat, addrIndex: nat)
    // withdraw_monero, then the two tasks of send_monero
    | Withdrawal(user: Bytes, amt: u64, feePerByte: u64)
    | TakeRequest
    | Push
    | PassStart
    | TrySend(answer: Option<u64>)
    | SenderRead
    | SenderWrite
    | SenderWriteAgain
    | PassEnd
    // update_acc_balances: refresh a copy into the batch, write the batch
    | BatchRead(user: Bytes, all: seq<Transfers>, unlocked: Balances.Answer, total: Balances.Answer)
    | BatchApply
    // new_software and attach_xmr_address: read a record, write it back
    | HandlerRead(handler: nat, user: Bytes)
    | Buy(handler: nat)
    | Attach(handler: nat, addr: Bytes)
    // the process stops and starts again over the same tree
    | Restart

  function Start(): State {
    State(map[], Queue([], None, [], false, 0, [], [], []), Idle, map[], map[], map[])
  }

  function CopyOf(a: Account): Copy {
    Copy(a.info, a.version)
  }

  /** `info`, made from `copy`, is written over the record. */
  function Written(a: Account, copy: Copy, info: FinancialInfo): Account {
    a.(info := info, version := a.version + 1,
       mishaps := if copy.version == a.version then a.mishaps else a.mishaps + {StaleWrite})
  }

  function BookFee(f: FinancialInfo, t: Transfer): FinancialInfo {
    f.(serviceFeeTotal := Wrap(f.serviceFeeTotal + RecoveredFee(t.amount, t.fee)))
  }

  /** The transfers shown are all the user's own. */
  ghost predicate OwnReport(a: Account, f: FinancialInfo) {
    multiset(f.transfers.transfersOut) <= multiset(a.completed)
  }

  // ---------- the withdrawal queue ----------

  function Queued(s: State, user: Bytes, amt: u64, feePerByte: u64): State {
    var info := if user in s.users then Some(s.users[user].info) else None;
    match Withdraw(true, Some(feePerByte), info, user, amt)
    case Queued(req, _) => s.(queue := s.queue.(channel := s.queue.channel + [req]))
    case _ => s
  }

  function Taken(s: State): State {
    var q := s.queue;
    if q.held.Some? || q.channel == [] || q.channel[0].username !in s.users then s
    else if GetBalance(s.users[q.channel[0].username].info) >= q.channel[0].amt
    then s.(queue := q.(channel := q.channel[1..], held := Some(q.channel[0])))
    else s.(queue := q.(channel := q.channel[1..]))
  }

  function Pushed(q: Queue): Queue {
    if q.held.Some? && !q.inPass
    then q.(held := None, pending := q.pending + [q.held.value], accepted := q.accepted + [q.held.value])
    else q
  }

  /** The wallet's answer to the request at the place of the pass. */
  function Tried(s: State, answer: Option<u64>): State {
    var q := s.queue;
    if !s.sender.Idle? || !q.inPass || q.at >= |q.pending| || q.pending[q.at].username !in s.users then s
    else match answer
      case None => s.(queue := q.(at := q.at + 1))
      case Some(fee) =>
        var req := q.pending[q.at];
        var a := s.users[req.username];
        var t := Transfer(req.addrIndex, req.amt, fee);
        s.(users := s.users[req.username := a.(completed := a.completed + [t])],
           queue := q.(sent := q.sent + [req]), sender := Sent(req.username, t))
  }

  /** The request at the place of the pass leaves the list. */
  function Removed(q: Queue): Queue {
    if q.at < |q.pending| then q.(pending := q.pending[..q.at] + q.pending[q.at + 1..]) else q
  }

  /** A restart loses channel, intake and pending list. The request whose fee is
      being booked has been sent, the other pending ones are lost. */
  function Emptied(q: Queue, booking: bool): Queue {
    Queue([], None, [], false, 0, q.accepted, q.sent, q.lost + if booking then Removed(q).pending else q.pending)
  }

  // ---------- registrations and restarts ----------

  /** The insertion of a record, over an old one if there is one. */
  function RegisterStep(s: State, call: nat, addrIndex: nat): State {
    if call !in s.registering then s
    else
      var user := s.registering[call];
      var info := NewInfo(addrIndex);
      var a := if user in s.users
               then s.users[user].(info := info, version := s.users[user].version + 1,
                                   homes := s.users[user].homes + {addrIndex},
                                   mishaps := s.users[user].mishaps + {Reregistered})
               else Account(info, 0, [], 0, {addrIndex}, {}, false);
      s.(users := s.users[user := a], registering := s.registering - {call})
  }

  /** The user of the transfer that is being booked. */
  predicate BookingFor(s: State, user: Bytes) {
    (s.sender.Sent? || s.sender.Read?) && s.sender.user == user
  }

  function RestartStep(s: State): State {
    State(map u | u in s.users ::
            if BookingFor(s, u) then s.users[u].(mishaps := s.users[u].mishaps + {BookingLost}) else s.users[u],
          Emptied(s.queue, !s.sender.Idle?), Idle, map[], map[], map[])
  }

  // ---------- the handlers' steps ----------

  /** A handler writes `a'` over the record. */
  function HandlerWrites(s: State, h: nat, user: Bytes, a': Account): State {
    s.(users := s.users[user := a'], handlers := s.handlers - {h})
  }

  /** The record with the copy's money spent on an item. */
  function Bought(a: Account, copy: Copy): Account {
    Written(a, copy, Spent(copy.info, PRICE).0).(spent := a.spent + PRICE)
  }

  function BuyStep(s: State, h: nat): State {
    if h !in s.handlers || s.handlers[h].0 !in s.users then s
    else
      var (user, copy) := s.handlers[h];
      if Spent(copy.info, PRICE).1.Err? then s.(handlers := s.handlers - {h})
      else HandlerWrites(s, h, user, Bought(s.users[user], copy))
  }

  function AttachStep(s: State, h: nat, addr: Bytes): State {
    if h !in s.handlers || s.handlers[h].0 !in s.users then s
    else
      var (user, copy) := s.handlers[h];
      HandlerWrites(s, h, user, Written(s.users[user], copy, copy.info.(xmrAddr := Some(addr))))
  }

  function LookupStep(s: State, call: nat, user: Bytes): State {
    if user in s.users || call in s.registering then s
    else s.(registering := s.registering[call := user])
  }

  // ---------- the sender's steps ----------

  function ReadStep(s: State): State {
    if s.sender.Sent? && s.sender.user in s.users
    then s.(sender := Read(s.sender.user, s.sender.t, CopyOf(s.users[s.sender.user])))
    else s
  }

  function WriteStep(s: State): State {
    if s.sender.Read? && s.sender.user in s.users then
      var a := Written(s.users[s.sender.user], s.sender.copy, BookFee(s.sender.copy.info, s.sender.t));
      s.(users := s.users[s.sender.user := a], sender := Flushing(s.sender.user, CopyOf(a)))
    else s
  }

  function WriteAgainStep(s: State): State {
    if s.sender.Flushing? && s.sender.user in s.users then
      var a := Written(s.users[s.sender.user], s.sender.copy, s.sender.copy.info);
      s.(users := s.users[s.sender.user := a], sender := Idle, queue := Removed(s.queue))
    else s
  }

  // ---------- the balance update's steps ----------

  ghost function RefreshStep(s: State, user: Bytes, all: seq<Transfers>, unlocked: Balances.Answer,
                             total: Balances.Answer): State {
    if user in s.users && s.users[user].info.transfers.addrIndex > 0 then
      var a := s.users[user];
      var info := Balances.Refreshed(a.info, all, unlocked, total);
      s.(users := s.users[user := a.(foreign := a.foreign || !OwnReport(a, info))],
         batch := s.batch[user := Copy(info, a.version)])
    else s
  }

  function ApplyStep(s: State): State {
    s.(users := map u | u in s.users ::
                  if u in s.batch then Written(s.users[u], s.batch[u], s.batch[u].info) else s.users[u],
       batch := map[])
  }

  function CopyStep(s: State, h: nat, user: Bytes): State {
    if user in s.users then s.(handlers := s.handlers[h := (user, CopyOf(s.users[user]))]) else s
  }

  // ---------- one step ----------

  /** One step; an event that does not apply leaves the state as it is. */
  ghost function Step(s: State, e: Event): State {
    match e
    case Lookup(call, user) => LookupStep(s, call, user)
    case Register(call, addrIndex) => RegisterStep(s, call, addrIndex)
    case Withdrawal(user, amt, feePerByte) => Queued(s, user, amt, feePerByte)
    case TakeRequest => Taken(s)
    case Push => s.(queue := Pushed(s.queue))
    case PassStart => if s.queue.inPass then s else s.(queue := s.queue.(inPass := true, at := 0))
    case TrySend(answer) => Tried(s, answer)
    case SenderRead => ReadStep(s)
    case SenderWrite => WriteStep(s)
    case SenderWriteAgain => WriteAgainStep(s)
    case PassEnd =>
      if s.sender.Idle? && s.queue.at >= |s.queue.pending| then s.(queue := s.queue.(inPass := false)) else s
    case BatchRead(user, all, unlocked, total) => RefreshStep(s, user, all, unlocked, total)
    case BatchApply => ApplyStep(s)
    case HandlerRead(h, user) => CopyStep(s, h, user)
    case Buy(h) => BuyStep(s, h)
    case Attach(h, addr) => AttachStep(s, h, addr)
    case Restart => RestartStep(s)
  }

  ghost function Run(events: seq<Event>): State {
    if events == [] then Start()
    else Step(Run(events[..|events| - 1]), events[|events| - 1])
  }

  // ---------- fee sums ----------

  lemma {:induction false} FeeSumAppend(a: seq<Transfer>, b: seq<Transfer>)
    ensures FeeSum(a + b) == FeeSum(a) + FeeSum(b)
  {
    if a == [] {
      assert a + b == b;
    } else {
      assert (a + b)[1..] == a[1..] + b;
      FeeSumAppend(a[1..], b);
    }
  }

  lemma FeeSumCons(t: Transfer, ts: seq<Transfer>)
    ensures FeeSum([t] + ts) == RecoveredFee(t.amount, t.fee) + FeeSum(ts)
  {
    assert ([t] + ts)[1..] == ts;
  }

  lemma FeeSumSnoc(ts: seq<Transfer>, t: Transfer)
    ensures FeeSum(ts + [t]) == FeeSum(ts) + RecoveredFee(t.amount, t.fee)
  {
    FeeSumAppend(ts, [t]);
    FeeSumCons(t, []);
    assert [t] + [] == [t];
  }

  lemma FeeSumWithout(s: seq<Transfer>, j: nat)
    requires j < |s|
    ensures FeeSum(s) == FeeSum(s[..j] + s[j + 1..]) + RecoveredFee(s[j].amount, s[j].fee)
  {
    FeeSumAppend(s[..j], [s[j]] + s[j + 1..]);
    FeeSumAppend(s[..j], s[j + 1..]);
    FeeSumCons(s[j], s[j + 1..]);
    assert s == s[..j] + ([s[j]] + s[j + 1..]);
  }

  /** Part of the transfers carries at most the fees of all of them. */
  lemma {:induction false} FeeSumMonotone(part: seq<Transfer>, all: seq<Transfer>)
    requires multiset(part) <= multiset(all)
    ensures FeeSum(part) <= FeeSum(all)
    ensures multiset(part) == multiset(all) ==> FeeSum(part) == FeeSum(all)
    decreases |part|
  {
    if part == [] {
      assert multiset(all) == multiset{} ==> |multiset(all)| == 0;
    } else {
      var j := FindsHead(part, all);
      FeeSumWithout(all, j);
      FeeSumMonotone(part[1..], all[..j] + all[j + 1..]);
    }
  }

  // ---------- the invariant ----------

  /** The fee of the transfer the sender has not booked yet. */
  function Unbooked(s: State, user: Bytes): nat {
    if BookingFor(s, user)
    then RecoveredFee(s.sender.t.amount, s.sender.t.fee) else 0
  }

  function TotalFees(a: Account): nat {
    FeeSum(a.completed)
  }

  /** No copy of a record claims more fees than have been earned; a copy of the
      latest version of a record without mishaps claims exactly the fees earned and
      the money spent. */
  ghost predicate Good(a: Account, open: nat, c: Copy) {
    && (!a.foreign ==> OwnReport(a, c.info))
    && c.version <= a.version
    && (TotalFees(a) < TWO_TO_THE_64 ==> c.info.serviceFeeTotal + open <= TotalFees(a))
    && (c.version == a.version && a.mishaps <= {BookingLost} ==> c.info.amountSpent == Wrap(a.spent))
    && (c.version == a.version && a.mishaps == {} && TotalFees(a) < TWO_TO_THE_64 ==>
          c.info.serviceFeeTotal + open == TotalFees(a))
  }

  ghost predicate CopyOk(s: State, user: Bytes, c: Copy) {
    user in s.users && Good(s.users[user], Unbooked(s, user), c)
  }

  ghost predicate UsersOk(s: State) {
    forall u :: u in s.users ==> CopyOk(s, u, CopyOf(s.users[u]))
  }

  ghost predicate CopiesOk(s: State) {
    && (forall u :: u in s.batch ==> CopyOk(s, u, s.batch[u]))
    && (forall h :: h in s.handlers ==> CopyOk(s, s.handlers[h].0, s.handlers[h].1))
  }

  ghost predicate SenderOk(s: State) {
    match s.sender
    case Idle => true
    case Sent(user, t) => user in s.users
    case Read(user, t, copy) => CopyOk(s, user, copy)
    case Flushing(user, copy) => CopyOk(s, user, copy)
  }

  ghost predicate Ok(s: State) {
    UsersOk(s) && CopiesOk(s) && SenderOk(s)
  }

  /** Copies that were good for `a` are good for `a'`: the same transfers, no mishap
      or flag taken back, and unless the record was rewritten or a booking lost the
      same open fee. */
  ghost predicate Later(a: Account, open: nat, a': Account, open': nat) {
    && a'.completed == a.completed && a.version <= a'.version
    && a.mishaps <= a'.mishaps && (a.foreign ==> a'.foreign)
    && open' <= open
    && (a'.version == a.version ==> (open' == open || BookingLost in a'.mishaps) && a'.spent == a.spent)
  }

  /** Every copy that was good still is. */
  ghost predicate Follows(s: State, s': State) {
    forall u, c :: CopyOk(s, u, c) ==> CopyOk(s', u, c)
  }

  lemma LaterFollows(s: State, s': State)
    requires forall u :: u in s.users ==>
               u in s'.users && Later(s.users[u], Unbooked(s, u), s'.users[u], Unbooked(s', u))
    ensures Follows(s, s')
  {
  }

  /** Batch, handlers and an undisturbed sender keep good copies. */
  lemma CopiesFollow(s: State, s': State)
    requires CopiesOk(s) && Follows(s, s')
    requires forall u :: u in s'.batch ==> u in s.batch && s'.batch[u] == s.batch[u]
    requires forall h :: h in s'.handlers ==> h in s.handlers && s'.handlers[h] == s.handlers[h]
    ensures CopiesOk(s')
  {
  }

  lemma SenderFollows(s: State, s': State)
    requires SenderOk(s) && Follows(s, s') && s'.sender == s.sender && s.users.Keys <= s'.users.Keys
    ensures SenderOk(s')
  {
  }

  /** Nothing but the queue changes. */
  lemma QuietKeeps(s: State, q: Queue)
    requires Ok(s)
    ensures Ok(s.(queue := q))
  {
    var s' := s.(queue := q);
    LaterFollows(s, s');
    CopiesFollow(s, s');
    SenderFollows(s, s');
  }

  /** One user's record is rewritten as `a'`, which is good, from a good copy; at
      most that user's open fee disappears. */
  ghost predicate Rewrites(s: State, s': State, user: Bytes, a': Account) {
    && user in s.users && s'.users == s.users[user := a'] && s'.batch == s.batch
    && (forall h :: h in s'.handlers ==> h in s.handlers && s'.handlers[h] == s.handlers[h])
    && a'.version > s.users[user].version && a'.completed == s.users[user].completed
    && s.users[user].mishaps <= a'.mishaps && (s.users[user].foreign ==> a'.foreign)
    && Unbooked(s', user) <= Unbooked(s, user)
    && (forall u :: u != user ==> Unbooked(s', u) == Unbooked(s, u))
    && Good(a', Unbooked(s', user), CopyOf(a'))
  }

  lemma RewriteKeeps(s: State, s': State, user: Bytes, a': Account)
    requires UsersOk(s) && CopiesOk(s) && Rewrites(s, s', user, a')
    ensures UsersOk(s') && CopiesOk(s') && Follows(s, s')
  {
    forall u | u in s.users ensures u in s'.users && Later(s.users[u], Unbooked(s, u), s'.users[u], Unbooked(s', u)) {
    }
    LaterFollows(s, s');
    CopiesFollow(s, s');
    forall u | u in s'.users ensures CopyOk(s', u, CopyOf(s'.users[u])) {
      if u != user {
        assert CopyOk(s, u, CopyOf(s.users[u]));
      }
    }
  }

  /** Booking the open fee turns it into booked fee. */
  lemma BookingGood(a: Account, t: Transfer, copy: Copy)
    requires Good(a, RecoveredFee(t.amount, t.fee), copy)
    ensures var a' := Written(a, copy, BookFee(copy.info, t));
            Good(a', 0, CopyOf(a'))
  {
    if TotalFees(a) < TWO_TO_THE_64 {
      WrapIdentity(copy.info.serviceFeeTotal + RecoveredFee(t.amount, t.fee));
    }
  }

  /** A write that leaves fees, transfers and the amount spent of the copy alone. */
  lemma PlainWriteGood(a: Account, open: nat, copy: Copy, info: FinancialInfo)
    requires Good(a, open, copy)
    requires info.transfers == copy.info.transfers && info.serviceFeeTotal == copy.info.serviceFeeTotal
    requires info.amountSpent == copy.info.amountSpent
    ensures var a' := Written(a, copy, info);
            Good(a', open, CopyOf(a'))
  {
  }

  lemma BuyGood(a: Account, open: nat, copy: Copy)
    requires Good(a, open, copy) && Spent(copy.info, PRICE).1.Ok?
    ensures Good(Bought(a, copy), open, CopyOf(Bought(a, copy)))
  {
    WrapTwice(a.spent, PRICE);
  }

  lemma SenderWriteKeeps(s: State)
    requires Ok(s)
    ensures Ok(WriteStep(s))
  {
    if s.sender.Read? {
      var user, copy, s' := s.sender.user, s.sender.copy, WriteStep(s);
      BookingGood(s.users[user], s.sender.t, copy);
      RewriteKeeps(s, s', user, s'.users[user]);
    }
  }

  lemma SenderWriteAgainKeeps(s: State)
    requires Ok(s)
    ensures Ok(WriteAgainStep(s))
  {
    if s.sender.Flushing? {
      var user, copy, s' := s.sender.user, s.sender.copy, WriteAgainStep(s);
      PlainWriteGood(s.users[user], 0, copy, copy.info);
      RewriteKeeps(s, s', user, s'.users[user]);
    }
  }

  lemma HandlerWriteKeeps(s: State, h: nat, user: Bytes, a': Account)
    requires Ok(s) && user in s.users && Good(a', Unbooked(s, user), CopyOf(a'))
    requires a'.version > s.users[user].version && a'.completed == s.users[user].completed
    requires s.users[user].mishaps <= a'.mishaps && (s.users[user].foreign ==> a'.foreign)
    ensures Ok(HandlerWrites(s, h, user, a'))
  {
    var s' := HandlerWrites(s, h, user, a');
    RewriteKeeps(s, s', user, a');
    SenderFollows(s, s');
  }

  lemma BuyKeeps(s: State, h: nat)
    requires Ok(s)
    ensures Ok(BuyStep(s, h))
  {
    if h in s.handlers {
      var (user, copy) := s.handlers[h];
      assert CopyOk(s, user, copy);
      if Spent(copy.info, PRICE).1.Ok? {
        BuyGood(s.users[user], Unbooked(s, user), copy);
        HandlerWriteKeeps(s, h, user, Bought(s.users[user], copy));
      } else {
        GivenUpKeeps(s, h);
      }
    }
  }

  lemma GivenUpKeeps(s: State, h: nat)
    requires Ok(s)
    ensures Ok(s.(handlers := s.handlers - {h}))
  {
    var s' := s.(handlers := s.handlers - {h});
    LaterFollows(s, s');
    CopiesFollow(s, s');
    SenderFollows(s, s');
  }

  lemma AttachKeeps(s: State, h: nat, addr: Bytes)
    requires Ok(s)
    ensures Ok(AttachStep(s, h, addr))
  {
    if h in s.handlers {
      var (user, copy) := s.handlers[h];
      assert CopyOk(s, user, copy);
      PlainWriteGood(s.users[user], Unbooked(s, user), copy, copy.info.(xmrAddr := Some(addr)));
      HandlerWriteKeeps(s, h, user, Written(s.users[user], copy, copy.info.(xmrAddr := Some(addr))));
    }
  }

  lemma BatchApplyKeeps(s: State)
    requires Ok(s)
    ensures Ok(ApplyStep(s))
  {
    var s' := ApplyStep(s);
    assert s'.users.Keys == s.users.Keys;
    LaterFollows(s, s');
    CopiesFollow(s, s');
    SenderFollows(s, s');
    forall u | u in s'.users ensures CopyOk(s', u, CopyOf(s'.users[u])) {
      if u in s.batch {
        PlainWriteGood(s.users[u], Unbooked(s, u), s.batch[u], s.batch[u].info);
      } else {
        assert CopyOk(s, u, CopyOf(s.users[u]));
      }
    }
  }

  /** A refreshed copy is as good as the record, or the user's flag is up. */
  lemma RefreshGood(a: Account, open: nat, all: seq<Transfers>, unlocked: Balances.Answer, total: Balances.Answer)
    requires Good(a, open, CopyOf(a)) && a.info.transfers.addrIndex > 0
    ensures var info := Balances.Refreshed(a.info, all, unlocked, total);
            var a' := a.(foreign := a.foreign || !OwnReport(a, info));
            Good(a', open, Copy(info, a.version)) && Good(a', open, CopyOf(a'))
  {
  }

  /** A record changes only by a flag, a good copy enters the batch. */
  lemma FlagKeeps(s: State, user: Bytes, a': Account, copy: Copy)
    requires Ok(s) && user in s.users && a' == s.users[user].(foreign := a'.foreign)
    requires s.users[user].foreign ==> a'.foreign
    requires Good(a', Unbooked(s, user), copy) && Good(a', Unbooked(s, user), CopyOf(a'))
    ensures Ok(s.(users := s.users[user := a'], batch := s.batch[user := copy]))
  {
    var s' := s.(users := s.users[user := a'], batch := s.batch[user := copy]);
    LaterFollows(s, s');
    SenderFollows(s, s');
    forall u | u in s'.users ensures CopyOk(s', u, CopyOf(s'.users[u])) {
      if u != user {
        assert CopyOk(s, u, CopyOf(s.users[u]));
      }
    }
    forall u | u in s'.batch ensures CopyOk(s', u, s'.batch[u]) {
      if u != user {
        assert CopyOk(s, u, s.batch[u]);
      }
    }
  }

  lemma RefreshKeeps(s: State, user: Bytes, all: seq<Transfers>, unlocked: Balances.Answer, total: Balances.Answer)
    requires Ok(s)
    ensures Ok(RefreshStep(s, user, all, unlocked, total))
  {
    if user in s.users && s.users[user].info.transfers.addrIndex > 0 {
      var a := s.users[user];
      var info := Balances.Refreshed(a.info, all, unlocked, total);
      assert CopyOk(s, user, CopyOf(a));
      RefreshGood(a, Unbooked(s, user), all, unlocked, total);
      FlagKeeps(s, user, a.(foreign := a.foreign || !OwnReport(a, info)), Copy(info, a.version));
    }
  }

  /** A completed transfer adds to what was earned and leaves as much unbooked. */
  lemma TransferGood(a: Account, t: Transfer, c: Copy)
    requires Good(a, 0, c)
    ensures Good(a.(completed := a.completed + [t]), RecoveredFee(t.amount, t.fee), c)
  {
    FeeSumSnoc(a.completed, t);
  }

  lemma TrySendFollows(s: State, fee: u64)
    requires Ok(s)
    ensures Follows(s, Tried(s, Some(fee)))
  {
    var s' := Tried(s, Some(fee));
    if s'.sender != s.sender {
      var user, t := s'.sender.user, s'.sender.t;
      forall u, c | CopyOk(s, u, c) ensures CopyOk(s', u, c) {
        if u == user {
          TransferGood(s.users[user], t, c);
        }
      }
    } else {
      LaterFollows(s, s');
    }
  }

  lemma SentUsersKeep(s: State, fee: u64)
    requires UsersOk(s) && Follows(s, Tried(s, Some(fee)))
    ensures UsersOk(Tried(s, Some(fee)))
  {
    var s' := Tried(s, Some(fee));
    forall u | u in s'.users ensures CopyOk(s', u, CopyOf(s'.users[u])) {
      assert CopyOk(s, u, CopyOf(s.users[u]));
      assert CopyOf(s'.users[u]) == CopyOf(s.users[u]);
    }
  }

  lemma SentKeeps(s: State, fee: u64)
    requires Ok(s)
    ensures Ok(Tried(s, Some(fee)))
  {
    var s' := Tried(s, Some(fee));
    TrySendFollows(s, fee);
    CopiesFollow(s, s');
    SentUsersKeep(s, fee);
    if s'.sender == s.sender {
      SenderFollows(s, s');
    }
  }

  lemma TrySendKeeps(s: State, answer: Option<u64>)
    requires Ok(s)
    ensures Ok(Tried(s, answer))
  {
    match answer
    case Some(fee) => SentKeeps(s, fee);
    case None => QuietKeeps(s, Tried(s, None).queue);
  }

  lemma SenderReadKeeps(s: State)
    requires Ok(s)
    ensures Ok(ReadStep(s))
  {
    if s.sender.Sent? {
      var s' := ReadStep(s);
      LaterFollows(s, s');
      CopiesFollow(s, s');
      assert CopyOk(s, s.sender.user, CopyOf(s.users[s.sender.user]));
    }
  }

  lemma HandlerReadKeeps(s: State, h: nat, user: Bytes)
    requires Ok(s)
    ensures Ok(CopyStep(s, h, user))
  {
    if user in s.users {
      var s' := CopyStep(s, h, user);
      LaterFollows(s, s');
      SenderFollows(s, s');
    }
  }

  /** Some record for every user whose fee is open. */
  lemma OpenFeeEarned(s: State, user: Bytes)
    requires Ok(s) && user in s.users
    ensures TotalFees(s.users[user]) < TWO_TO_THE_64 ==> Unbooked(s, user) <= TotalFees(s.users[user])
  {
    assert CopyOk(s, user, CopyOf(s.users[user]));
  }

  lemma FreshRecordGood(s: State, user: Bytes, addrIndex: nat)
    requires SenderOk(s) && user !in s.users
    ensures var a := Account(NewInfo(addrIndex), 0, [], 0, {addrIndex}, {}, false);
            Unbooked(s, user) == 0 && Good(a, 0, CopyOf(a))
  {
    WrapIdentity(0);
  }

  lemma FirstRegistrationKeeps(s: State, call: nat, addrIndex: nat)
    requires Ok(s) && call in s.registering && s.registering[call] !in s.users
    ensures Ok(RegisterStep(s, call, addrIndex))
  {
    var user, s' := s.registering[call], RegisterStep(s, call, addrIndex);
    LaterFollows(s, s');
    CopiesFollow(s, s');
    SenderFollows(s, s');
    FreshRecordGood(s, user, addrIndex);
    forall u | u in s'.users ensures CopyOk(s', u, CopyOf(s'.users[u])) {
      if u != user {
        assert CopyOk(s, u, CopyOf(s.users[u]));
      }
    }
  }

  lemma SecondRegistrationKeeps(s: State, call: nat, addrIndex: nat)
    requires Ok(s) && call in s.registering && s.registering[call] in s.users
    ensures Ok(RegisterStep(s, call, addrIndex))
  {
    var user, s' := s.registering[call], RegisterStep(s, call, addrIndex);
    OpenFeeEarned(s, user);
    RewriteKeeps(s, s', user, s'.users[user]);
    SenderFollows(s, s');
  }

  lemma RegisterKeeps(s: State, call: nat, addrIndex: nat)
    requires Ok(s)
    ensures Ok(RegisterStep(s, call, addrIndex))
  {
    if call in s.registering {
      if s.registering[call] in s.users {
        SecondRegistrationKeeps(s, call, addrIndex);
      } else {
        FirstRegistrationKeeps(s, call, addrIndex);
      }
    }
  }

  lemma LookupKeeps(s: State, call: nat, user: Bytes)
    requires Ok(s)
    ensures Ok(LookupStep(s, call, user))
  {
    var s' := LookupStep(s, call, user);
    LaterFollows(s, s');
    CopiesFollow(s, s');
    SenderFollows(s, s');
  }

  lemma RestartKeeps(s: State)
    requires Ok(s)
    ensures Ok(RestartStep(s))
  {
    var s' := RestartStep(s);
    LaterFollows(s, s');
    forall u | u in s'.users ensures CopyOk(s', u, CopyOf(s'.users[u])) {
      assert CopyOk(s, u, CopyOf(s.users[u]));
    }
  }

  /** The queue's events. */
  predicate QueueEvent(e: Event) {
    e.Withdrawal? || e.TakeRequest? || e.Push? || e.PassStart? || e.PassEnd?
  }

  lemma QueueEventKeeps(s: State, e: Event)
    requires Ok(s) && QueueEvent(e)
    ensures Ok(Step(s, e))
  {
    QuietKeeps(s, Step(s, e).queue);
  }

  lemma StepKeeps(s: State, e: Event)
    requires Ok(s)
    ensures Ok(Step(s, e))
  {
    match e
    case Lookup(call, user) => LookupKeeps(s, call, user);
    case Register(call, addrIndex) => RegisterKeeps(s, call, addrIndex);
    case Restart => RestartKeeps(s);
    case TrySend(answer) => TrySendKeeps(s, answer);
    case SenderRead => SenderReadKeeps(s);
    case SenderWrite => SenderWriteKeeps(s);
    case SenderWriteAgain => SenderWriteAgainKeeps(s);
    case BatchRead(user, all, unlocked, total) => RefreshKeeps(s, user, all, unlocked, total);
    case BatchApply => BatchApplyKeeps(s);
    case HandlerRead(h, user) => HandlerReadKeeps(s, h, user);
    case Buy(h) => BuyKeeps(s, h);
    case Attach(h, addr) => AttachKeeps(s, h, addr);
    case _ => QueueEventKeeps(s, e);
  }

  lemma {:induction false} RunOk(events: seq<Event>)
    ensures Ok(Run(events))
  {
    if events == [] {
    } else {
      RunOk(events[..|events| - 1]);
      StepKeeps(Run(events[..|events| - 1]), events[|events| - 1]);
    }
  }

  // ---------- what the balance charges ----------

  /** Under every interleaving: unless a user was shown transfers that are not the
      user's own, the service fee charged never exceeds the fees of the completed
      transfers, and equals them once the wallet shows all of them, or while the
      user's record has met with no mishap and no booking is under way. */
  lemma NeverOverCharged(events: seq<Event>, user: Bytes)
    requires var s := Run(events);
             user in s.users && !s.users[user].foreign && TotalFees(s.users[user]) < TWO_TO_THE_64
    ensures var s := Run(events);
            var a := s.users[user];
            && Charged(a.info) <= TotalFees(a)
            && (multiset(a.info.transfers.transfersOut) == multiset(a.completed) ==> Charged(a.info) == TotalFees(a))
            && (a.mishaps == {} && Unbooked(s, user) == 0 ==> Charged(a.info) == TotalFees(a))
  {
    RunOk(events);
    var a := Run(events).users[user];
    assert CopyOk(Run(events), user, CopyOf(a));
    var seen := a.info.transfers.transfersOut;
    FeeSumMonotone(seen, a.completed);
    WrapIdentity(FeeSum(seen));
  }

  /** So a user whose record has met with no mishap, who was shown only own transfers
      and for whom no booking is under way sees what was received less the fees of the
      completed transfers and less the purchases. */
  lemma BalanceShown(events: seq<Event>, user: Bytes)
    requires user in Run(events).users
    requires var a := Run(events).users[user];
             a.mishaps == {} && !a.foreign && TotalFees(a) < TWO_TO_THE_64 && Unbooked(Run(events), user) == 0
    ensures var a := Run(events).users[user];
            && GetBalance(a.info) == (a.info.balance - TotalFees(a) - a.spent) % TWO_TO_THE_64
            && (TotalFees(a) + a.spent <= a.info.balance ==>
                  GetBalance(a.info) == a.info.balance - TotalFees(a) - a.spent)
  {
    NothingOpen(events, user);
    var a := Run(events).users[user];
    ExactBalance(a.info, TotalFees(a), a.spent);
  }

  lemma NothingOpen(events: seq<Event>, user: Bytes)
    requires user in Run(events).users
    requires var a := Run(events).users[user];
             a.mishaps == {} && !a.foreign && TotalFees(a) < TWO_TO_THE_64 && Unbooked(Run(events), user) == 0
    ensures var a := Run(events).users[user];
            && FeeSum(a.info.transfers.transfersOut) <= TotalFees(a)
            && a.info.serviceFeeTotal == TotalFees(a) && a.info.amountSpent == Wrap(a.spent)
  {
    RunOk(events);
    var a := Run(events).users[user];
    assert CopyOk(Run(events), user, CopyOf(a));
    FeeSumMonotone(a.info.transfers.transfersOut, a.completed);
  }

  lemma ExactBalance(f: FinancialInfo, fees: nat, spent: nat)
    requires FeeSum(f.transfers.transfersOut) <= fees < TWO_TO_THE_64
    requires f.serviceFeeTotal == fees && f.amountSpent == Wrap(spent)
    ensures GetBalance(f) == (f.balance - fees - spent) % TWO_TO_THE_64
    ensures fees + spent <= f.balance ==> GetBalance(f) == f.balance - fees - spent
  {
    BalanceWraps(f);
    LessSpent(f.balance - fees, f.amountSpent, spent);
    if fees + spent <= f.balance {
      WrapIdentity(f.balance - fees - spent);
    }
  }

  lemma LessSpent(left: int, booked: u64, spent: nat)
    requires booked == Wrap(spent)
    ensures (left - booked) % TWO_TO_THE_64 == (left - spent) % TWO_TO_THE_64
  {
    var k := spent / TWO_TO_THE_64;
    WrapShift(left - spent, k);
    assert left - booked == left - spent + k * TWO_TO_THE_64;
  }

  // ---------- what is checked ----------

  /** The intake keeps a request exactly when the balance covers it at that moment;
      a request it does not keep is gone. */
  lemma IntakeChecks(s: State)
    requires s.queue.held.None? && s.queue.channel != [] && s.queue.channel[0].username in s.users
    ensures var req, q := s.queue.channel[0], Step(s, TakeRequest).queue;
            && q.channel == s.queue.channel[1..] && q.pending == s.queue.pending
            && q.held == if GetBalance(s.users[req.username].info) >= req.amt then Some(req) else None
  {
  }

  /** An item is bought exactly when the balance the handler has read covers the price. */
  lemma BuyChecks(s: State, h: nat)
    requires h in s.handlers && s.handlers[h].0 in s.users
    ensures var (user, copy) := s.handlers[h];
            var s' := Step(s, Buy(h));
            && user in s'.users
            && s'.users[user].spent
               == s.users[user].spent + (if GetBalance(copy.info) >= 4_271_880_000 then 4_271_880_000 else 0)
            && forall u :: u in s.users && u != user ==> u in s'.users && s'.users[u] == s.users[u]
  {
  }

  // ---------- when reports are the users' own ----------

  /** The buckets are labelled in order, and hold for each user who ever got the
      subaddress only transfers the user has made, each at most once. */
  ghost predicate Honest(s: State, all: seq<Transfers>) {
    forall j :: 0 <= j < |all| ==>
      && all[j].addrIndex == j + 1
      && forall u :: u in s.users && j + 1 in s.users[u].homes ==>
           multiset(all[j].transfersOut) <= multiset(s.users[u].completed)
  }

  /** Every refresh took honest buckets. */
  ghost predicate HonestRun(events: seq<Event>) {
    events == [] ||
    var before, e := events[..|events| - 1], events[|events| - 1];
    HonestRun(before) && (e.BatchRead? ==> Honest(Run(before), e.all))
  }

  /** Every copy of the user's record bears a subaddress of a registration. */
  ghost predicate Home(s: State, user: Bytes, f: FinancialInfo) {
    user in s.users && f.transfers.addrIndex in s.users[user].homes
  }

  ghost predicate AtHome(s: State) {
    && (forall u :: u in s.users ==> Home(s, u, s.users[u].info) && !s.users[u].foreign)
    && (forall u :: u in s.batch ==> Home(s, u, s.batch[u].info))
    && (forall h :: h in s.handlers ==> Home(s, s.handlers[h].0, s.handlers[h].1.info))
    && (s.sender.Read? || s.sender.Flushing? ==> Home(s, s.sender.user, s.sender.copy.info))
  }

  /** An honest bucket, or none, shows the user the user's own transfers. */
  lemma HonestRefresh(s: State, user: Bytes, all: seq<Transfers>, unlocked: Balances.Answer, total: Balances.Answer)
    requires Honest(s, all) && user in s.users
    requires var a := s.users[user];
             a.info.transfers.addrIndex in a.homes && a.info.transfers.addrIndex > 0 && OwnReport(a, a.info)
    ensures var a := s.users[user];
            var info := Balances.Refreshed(a.info, all, unlocked, total);
            OwnReport(a, info) && info.transfers.addrIndex in a.homes
  {
    var at := s.users[user].info.transfers.addrIndex - 1;
    if at < |all| {
      assert all[at].addrIndex == at + 1;
    }
  }

  lemma HonestRead(s: State, user: Bytes, all: seq<Transfers>, unlocked: Balances.Answer, total: Balances.Answer)
    requires UsersOk(s) && AtHome(s) && Honest(s, all)
    ensures AtHome(RefreshStep(s, user, all, unlocked, total))
  {
    if user in s.users && s.users[user].info.transfers.addrIndex > 0 {
      var a := s.users[user];
      assert CopyOk(s, user, CopyOf(a));
      HonestRefresh(s, user, all, unlocked, total);
      var copy := Copy(Balances.Refreshed(a.info, all, unlocked, total), a.version);
      assert s.users[user := a] == s.users;
      assert RefreshStep(s, user, all, unlocked, total) == s.(batch := s.batch[user := copy]);
      MoreAtHome(s, user, copy);
    }
  }

  lemma MoreAtHome(s: State, user: Bytes, copy: Copy)
    requires AtHome(s) && Home(s, user, copy.info)
    ensures AtHome(s.(batch := s.batch[user := copy]))
  {
  }

  lemma BuyHome(s: State, h: nat)
    requires AtHome(s)
    ensures AtHome(BuyStep(s, h))
  {
  }

  lemma CopyHome(s: State, h: nat, user: Bytes)
    requires AtHome(s)
    ensures AtHome(CopyStep(s, h, user))
  {
  }

  lemma AttachHome(s: State, h: nat, addr: Bytes)
    requires AtHome(s)
    ensures AtHome(AttachStep(s, h, addr))
  {
  }

  lemma ReadHome(s: State)
    requires AtHome(s)
    ensures AtHome(ReadStep(s))
  {
  }

  lemma WriteHome(s: State)
    requires AtHome(s)
    ensures AtHome(WriteStep(s))
  {
  }

  lemma WriteAgainHome(s: State)
    requires AtHome(s)
    ensures AtHome(WriteAgainStep(s))
  {
  }

  lemma TrySendHome(s: State, answer: Option<u64>)
    requires AtHome(s)
    ensures AtHome(Tried(s, answer))
  {
  }

  lemma RegisterHome(s: State, call: nat, addrIndex: nat)
    requires AtHome(s)
    ensures AtHome(RegisterStep(s, call, addrIndex))
  {
  }

  lemma LookupHome(s: State, call: nat, user: Bytes)
    requires AtHome(s)
    ensures AtHome(LookupStep(s, call, user))
  {
  }

  lemma RestartHome(s: State)
    requires AtHome(s)
    ensures AtHome(RestartStep(s))
  {
  }

  lemma QuietHome(s: State, q: Queue)
    requires AtHome(s)
    ensures AtHome(s.(queue := q))
  {
  }

  lemma ApplyHome(s: State)
    requires AtHome(s)
    ensures AtHome(ApplyStep(s))
  {
  }

  lemma QueueEventsHome(s: State, e: Event)
    requires AtHome(s) && QueueEvent(e)
    ensures AtHome(Step(s, e))
  {
    assert Step(s, e) == s.(queue := Step(s, e).queue);
    QuietHome(s, Step(s, e).queue);
  }

  lemma MoneyEventsHome(s: State, e: Event)
    requires UsersOk(s) && AtHome(s) && (e.BatchRead? ==> Honest(s, e.all))
    requires e.BatchRead? || e.BatchApply? || e.HandlerRead? || e.Buy? || e.Attach?
    ensures AtHome(Step(s, e))
  {
    match e
    case BatchRead(user, all, unlocked, total) => HonestRead(s, user, all, unlocked, total);
    case BatchApply => ApplyHome(s);
    case HandlerRead(h, user) => CopyHome(s, h, user);
    case Buy(h) => BuyHome(s, h);
    case Attach(h, addr) => AttachHome(s, h, addr);
  }

  lemma OtherEventsHome(s: State, e: Event)
    requires AtHome(s)
    requires e.Lookup? || e.Register? || e.Restart? || e.TrySend? || e.SenderRead? || e.SenderWrite?
             || e.SenderWriteAgain?
    ensures AtHome(Step(s, e))
  {
    match e
    case Lookup(call, user) => LookupHome(s, call, user);
    case Register(call, addrIndex) => RegisterHome(s, call, addrIndex);
    case Restart => RestartHome(s);
    case TrySend(answer) => TrySendHome(s, answer);
    case SenderRead => ReadHome(s);
    case SenderWrite => WriteHome(s);
    case SenderWriteAgain => WriteAgainHome(s);
  }

  lemma {:induction false} HonestAtHome(events: seq<Event>)
    requires HonestRun(events)
    ensures AtHome(Run(events))
  {
    if events == [] {
    } else {
      var before, e := events[..|events| - 1], events[|events| - 1];
      HonestAtHome(before);
      RunOk(before);
      if QueueEvent(e) {
        QueueEventsHome(Run(before), e);
      } else if e.BatchRead? || e.BatchApply? || e.HandlerRead? || e.Buy? || e.Attach? {
        MoneyEventsHome(Run(before), e);
      } else {
        OtherEventsHome(Run(before), e);
      }
    }
  }

  /** So while buckets are labelled in order and the wallet reports of each
      subaddress what its user sent, no interleaving overcharges anyone. */
  lemma HonestNeverOverCharges(events: seq<Event>, user: Bytes)
    requires HonestRun(events)
    requires user in Run(events).users && TotalFees(Run(events).users[user]) < TWO_TO_THE_64
    ensures var a := Run(events).users[user];
            && Charged(a.info) <= TotalFees(a) && a.info.transfers.addrIndex in a.homes
            && (Reregistered !in a.mishaps ==> a.homes == {a.info.transfers.addrIndex})
  {
    HonestAtHome(events);
    NeverOverCharged(events, user);
    HomesKept(events, user);
  }

  ghost predicate OneHome(a: Account) {
    Reregistered !in a.mishaps ==> exists i :: a.homes == {i}
  }

  lemma FirstHome(s: State, e: Event, user: Bytes)
    requires user !in s.users && user in Step(s, e).users
    ensures OneHome(Step(s, e).users[user])
  {
    assert e.Register?;
    assert Step(s, e).users[user].homes == {e.addrIndex};
  }

  /** A user has one subaddress, unless registered again. */
  lemma {:induction false} HomesKept(events: seq<Event>, user: Bytes)
    requires user in Run(events).users
    ensures OneHome(Run(events).users[user])
  {
    if events != [] {
      var before, e := events[..|events| - 1], events[|events| - 1];
      if user in Run(before).users {
        HomesKept(before, user);
        HomesStep(Run(before), e, user);
      } else {
        FirstHome(Run(before), e, user);
      }
    }
  }

  lemma HomesStep(s: State, e: Event, user: Bytes)
    requires user in s.users
    ensures user in Step(s, e).users
    ensures var a, a' := s.users[user], Step(s, e).users[user];
            a.mishaps <= a'.mishaps && (a'.homes == a.homes || Reregistered in a'.mishaps)
  {
  }

  /** Buckets asked for in the order of the subaddresses are honest when the wallet
      is: of each user's subaddress it reports each of the user's transfers at
      most as often as it went through. */
  lemma InOrderIsHonest(s: State, indices: seq<nat>, ins: seq<Transfer>, outs: seq<Transfer>)
    requires forall j :: 0 <= j < |indices| ==> indices[j] == j + 1
    requires forall u, t: Transfer :: u in s.users && t.addrIndex in s.users[u].homes ==>
               multiset(outs)[t] <= multiset(s.users[u].completed)[t]
    ensures Honest(s, Buckets(indices, ins, outs))
  {
    var all := Buckets(indices, ins, outs);
    forall j, u | 0 <= j < |all| && u in s.users && j + 1 in s.users[u].homes
      ensures multiset(all[j].transfersOut) <= multiset(s.users[u].completed)
    {
      forall t ensures multiset(all[j].transfersOut)[t] <= multiset(s.users[u].completed)[t] {
        SelectExactly(outs, j + 1, t);
      }
    }
  }

  // ---------- purchases ----------

  /** Under every interleaving, restarts included, a user whom no stale write and no
      second registration has hit has booked exactly the purchases made. */
  lemma PurchasesKept(events: seq<Event>, user: Bytes)
    requires user in Run(events).users && Run(events).users[user].mishaps <= {BookingLost}
    ensures Run(events).users[user].info.amountSpent == Wrap(Run(events).users[user].spent)
  {
    RunOk(events);
    assert CopyOk(Run(events), user, CopyOf(Run(events).users[user]));
  }

  /** The copy of the user's record that the event writes back, if it does; a second
      registration writes a new record. */
  function WritesBack(s: State, e: Event, user: Bytes): Option<Copy> {
    match e
    case SenderWrite => if s.sender.Read? && s.sender.user == user then Some(s.sender.copy) else None
    case SenderWriteAgain => if s.sender.Flushing? && s.sender.user == user then Some(s.sender.copy) else None
    case BatchApply => if user in s.batch then Some(s.batch[user]) else None
    case Buy(h) =>
      if h in s.handlers && s.handlers[h].0 == user && Spent(s.handlers[h].1.info, PRICE).1.Ok?
      then Some(s.handlers[h].1) else None
    case Attach(h, _) => if h in s.handlers && s.handlers[h].0 == user then Some(s.handlers[h].1) else None
    case Register(call, addrIndex) =>
      if call in s.registering && s.registering[call] == user then Some(Copy(NewInfo(addrIndex), 0)) else None
    case _ => None
  }

  ghost predicate Books(a: Account) {
    a.info.amountSpent == Wrap(a.spent)
  }

  lemma WrapAgree(x: u64, y: int, p: int)
    ensures Wrap(x + p) == Wrap(y + p) <==> x == Wrap(y)
  {
    WrapTwice(y, p);
    WrapTwice(x + p, -p);
    WrapTwice(y + p, -p);
    WrapIdentity(x);
  }

  /** The amount spent of the record is now that of the copy written back, if any. */
  ghost predicate TakesSpent(s: State, s': State, written: Option<Copy>, user: Bytes)
    requires user in s.users
  {
    && user in s'.users && s'.users[user].spent == s.users[user].spent
    && s'.users[user].info.amountSpent
       == if written.Some? then written.value.info.amountSpent else s.users[user].info.amountSpent
  }

  lemma HandlerSpent(s: State, e: Event, user: Bytes)
    requires user in s.users && (e.HandlerRead? || e.Attach? || e.Lookup? || e.Register?)
    ensures TakesSpent(s, Step(s, e), WritesBack(s, e, user), user)
  {
  }

  lemma UpdateSpent(s: State, e: Event, user: Bytes)
    requires user in s.users
    requires e.BatchRead? || e.BatchApply? || e.SenderRead? || e.SenderWrite? || e.SenderWriteAgain?
    ensures TakesSpent(s, Step(s, e), WritesBack(s, e, user), user)
  {
  }

  lemma QueueSpent(s: State, e: Event, user: Bytes)
    requires user in s.users && (QueueEvent(e) || e.TrySend? || e.Restart?)
    ensures TakesSpent(s, Step(s, e), WritesBack(s, e, user), user)
  {
  }

  lemma BuySpent(s: State, h: nat, user: Bytes)
    requires user in s.users && Books(s.users[user])
    ensures user in BuyStep(s, h).users
    ensures Books(BuyStep(s, h).users[user])
       <==> (WritesBack(s, Buy(h), user).Some? ==>
               WritesBack(s, Buy(h), user).value.info.amountSpent == s.users[user].info.amountSpent)
  {
    if WritesBack(s, Buy(h), user).Some? {
      WrapAgree(WritesBack(s, Buy(h), user).value.info.amountSpent, s.users[user].spent, PRICE);
    }
  }

  /** A write keeps a user's purchases booked exactly when the copy it writes back
      has them all; an event that writes nothing back keeps them. */
  lemma WriteKeepsPurchases(s: State, e: Event, user: Bytes)
    requires user in s.users && Books(s.users[user])
    ensures user in Step(s, e).users
    ensures Books(Step(s, e).users[user])
       <==> (WritesBack(s, e, user).Some? ==>
               WritesBack(s, e, user).value.info.amountSpent == s.users[user].info.amountSpent)
  {
    if e.Buy? {
      BuySpent(s, e.handler, user);
    } else if e.HandlerRead? || e.Attach? || e.Lookup? || e.Register? {
      HandlerSpent(s, e, user);
    } else if QueueEvent(e) || e.TrySend? || e.Restart? {
      QueueSpent(s, e, user);
    } else {
      UpdateSpent(s, e, user);
    }
  }

  /** What a user has booked and what is about to be is what the user has earned. */
  ghost predicate FeesExact(s: State, user: Bytes) {
    user in s.users && s.users[user].info.serviceFeeTotal + Unbooked(s, user) == TotalFees(s.users[user])
  }

  lemma SentKeepsFees(s: State, answer: Option<u64>, user: Bytes)
    requires FeesExact(s, user)
    ensures FeesExact(Tried(s, answer), user)
  {
    var s' := Tried(s, answer);
    if s'.sender != s.sender && s'.sender.user == user {
      FeeSumSnoc(s.users[user].completed, s'.sender.t);
    }
  }

  /** The booked fee is what the copy had and the fee that was open. */
  lemma BookedFee(copy: FinancialInfo, info: FinancialInfo, t: Transfer)
    requires copy.serviceFeeTotal + RecoveredFee(t.amount, t.fee) < TWO_TO_THE_64
    ensures BookFee(copy, t).serviceFeeTotal == info.serviceFeeTotal + RecoveredFee(t.amount, t.fee)
       <==> copy.serviceFeeTotal == info.serviceFeeTotal
  {
    WrapIdentity(copy.serviceFeeTotal + RecoveredFee(t.amount, t.fee));
  }

  /** What a write does to the user's record and open fee. */
  lemma SenderWriteFees(s: State, user: Bytes)
    requires s.sender.Read? && s.sender.user == user && user in s.users
    ensures var s' := WriteStep(s);
            && user in s'.users && s'.users[user].completed == s.users[user].completed
            && s'.users[user].info == BookFee(s.sender.copy.info, s.sender.t)
            && Unbooked(s', user) == 0
            && Unbooked(s, user) == RecoveredFee(s.sender.t.amount, s.sender.t.fee)
  {
  }

  lemma BookingKeepsFees(s: State, user: Bytes)
    requires SenderOk(s) && FeesExact(s, user) && TotalFees(s.users[user]) < TWO_TO_THE_64
    requires s.sender.Read? && s.sender.user == user
    ensures FeesExact(WriteStep(s), user)
       <==> s.sender.copy.info.serviceFeeTotal == s.users[user].info.serviceFeeTotal
  {
    SenderWriteFees(s, user);
    BookedFee(s.sender.copy.info, s.users[user].info, s.sender.t);
  }

  /** The fees of the record are now those of the copy written back, if any, and
      neither transfers nor open fee have changed. */
  ghost predicate TakesFees(s: State, s': State, written: Option<Copy>, user: Bytes)
    requires user in s.users
  {
    && user in s'.users && s'.users[user].completed == s.users[user].completed
    && Unbooked(s', user) == Unbooked(s, user)
    && s'.users[user].info.serviceFeeTotal
       == if written.Some? then written.value.info.serviceFeeTotal else s.users[user].info.serviceFeeTotal
  }

  lemma HandlerFees(s: State, e: Event, user: Bytes)
    requires user in s.users && (e.HandlerRead? || e.Buy? || e.Attach? || e.Lookup? || e.Register?)
    ensures TakesFees(s, Step(s, e), WritesBack(s, e, user), user)
  {
  }

  lemma UpdateFees(s: State, e: Event, user: Bytes)
    requires user in s.users && (e.BatchRead? || e.BatchApply? || e.SenderRead? || e.SenderWriteAgain?)
    ensures TakesFees(s, Step(s, e), WritesBack(s, e, user), user)
  {
  }

  lemma QueueFees(s: State, e: Event, user: Bytes)
    requires user in s.users && QueueEvent(e)
    ensures TakesFees(s, Step(s, e), None, user)
  {
  }

  lemma OthersBooked(s: State, user: Bytes)
    requires user in s.users && !(s.sender.Read? && s.sender.user == user)
    ensures var s' := WriteStep(s);
            user in s'.users && s'.users[user] == s.users[user] && Unbooked(s', user) == Unbooked(s, user)
  {
  }

  /** The fees a user has earned fit the 64 bits of the record. */
  ghost predicate FeesFit(s: State, user: Bytes) {
    user in s.users && TotalFees(s.users[user]) < TWO_TO_THE_64
  }

  lemma TakenExactly(s: State, s': State, written: Option<Copy>, user: Bytes)
    requires FeesExact(s, user) && TakesFees(s, s', written, user)
    ensures FeesExact(s', user)
       <==> (written.Some? ==> written.value.info.serviceFeeTotal == s.users[user].info.serviceFeeTotal)
  {
  }

  lemma PlainEventFees(s: State, e: Event, user: Bytes)
    requires user in s.users && !e.SenderWrite? && !e.TrySend? && !e.Restart?
    ensures TakesFees(s, Step(s, e), WritesBack(s, e, user), user)
  {
    if QueueEvent(e) {
      QueueFees(s, e, user);
    } else if e.BatchRead? || e.BatchApply? || e.SenderRead? || e.SenderWriteAgain? {
      UpdateFees(s, e, user);
    } else {
      HandlerFees(s, e, user);
    }
  }

  lemma SenderWriteKeepsFees(s: State, user: Bytes)
    requires SenderOk(s) && FeesExact(s, user) && TotalFees(s.users[user]) < TWO_TO_THE_64
    ensures FeesExact(WriteStep(s), user)
       <==> (WritesBack(s, SenderWrite, user).Some? ==>
               WritesBack(s, SenderWrite, user).value.info.serviceFeeTotal == s.users[user].info.serviceFeeTotal)
  {
    if s.sender.Read? && s.sender.user == user {
      BookingKeepsFees(s, user);
    } else {
      OthersBooked(s, user);
    }
  }

  /** In every reachable state an event keeps a user's fees exact if and only if the
      copy it writes back, if any, has all of them, and it is no restart while a fee
      of the user's is still to be booked. */
  lemma WriteKeepsFees(events: seq<Event>, e: Event, user: Bytes)
    requires FeesExact(Run(events), user) && FeesFit(Step(Run(events), e), user)
    ensures var s := Run(events);
            FeesExact(Step(s, e), user)
            <==> (WritesBack(s, e, user).Some? ==>
                    WritesBack(s, e, user).value.info.serviceFeeTotal == s.users[user].info.serviceFeeTotal)
                 && (e.Restart? ==> Unbooked(s, user) == 0)
  {
    var s := Run(events);
    RunOk(events);
    if e.TrySend? {
      SentKeepsFees(s, e.answer, user);
    } else if e.SenderWrite? {
      CompletedStays(s, user);
      SenderWriteKeepsFees(s, user);
    } else if e.Restart? {
      RestartFees(s, user);
    } else {
      PlainEventFees(s, e, user);
      TakenExactly(s, Step(s, e), WritesBack(s, e, user), user);
    }
  }

  lemma CompletedStays(s: State, user: Bytes)
    requires user in s.users
    ensures user in WriteStep(s).users && WriteStep(s).users[user].completed == s.users[user].completed
  {
  }

  lemma RestartFees(s: State, user: Bytes)
    requires user in s.users
    ensures var s' := RestartStep(s);
            && user in s'.users && s'.users[user].completed == s.users[user].completed
            && s'.users[user].info == s.users[user].info && Unbooked(s', user) == 0
  {
  }

  // ---------- the queue ----------

  /** How often `r` is the request whose fee is being booked. */
  function InFlight(q: Queue, booking: bool, r: TransferReq): nat {
    if booking && q.at < |q.pending| && q.pending[q.at] == r then 1 else 0
  }

  ghost predicate Accounted(q: Queue, booking: bool, r: TransferReq) {
    multiset(q.accepted)[r] + InFlight(q, booking, r)
    == multiset(q.pending)[r] + multiset(q.sent)[r] + multiset(q.lost)[r]
  }

  /** During a booking the request that was sent stands at the place of the pass. */
  ghost predicate QueueOk(q: Queue, booking: bool) {
    && (booking ==> q.inPass && q.at < |q.pending|)
    && forall r :: Accounted(q, booking, r)
  }

  lemma CountSnoc(s: seq<TransferReq>, x: TransferReq, r: TransferReq)
    ensures multiset(s + [x])[r] == multiset(s)[r] + if x == r then 1 else 0
  {
  }

  lemma RemovedOk(q: Queue)
    requires QueueOk(q, true)
    ensures QueueOk(Removed(q), false)
  {
    WithoutOne(q.pending, q.at);
    forall r ensures Accounted(Removed(q), false, r) {
      assert Accounted(q, true, r);
    }
  }

  lemma CountBoth(a: seq<TransferReq>, b: seq<TransferReq>, r: TransferReq)
    ensures multiset(a + b)[r] == multiset(a)[r] + multiset(b)[r]
  {
  }

  lemma EmptiedOk(q: Queue, booking: bool)
    requires QueueOk(q, booking)
    ensures QueueOk(Emptied(q, booking), false)
  {
    if booking {
      RemovedOk(q);
    }
    var left := if booking then Removed(q) else q;
    forall r ensures Accounted(Emptied(q, booking), false, r) {
      assert Accounted(left, false, r);
      CountBoth(q.lost, left.pending, r);
    }
  }

  lemma PushedOk(q: Queue, booking: bool)
    requires QueueOk(q, booking)
    ensures QueueOk(Pushed(q), booking)
  {
    if q.held.Some? && !q.inPass {
      forall r ensures Accounted(Pushed(q), booking, r) {
        assert Accounted(q, booking, r);
        CountSnoc(q.pending, q.held.value, r);
        CountSnoc(q.accepted, q.held.value, r);
      }
    }
  }

  lemma SentOk(q: Queue)
    requires QueueOk(q, false) && q.inPass && q.at < |q.pending|
    ensures QueueOk(q.(sent := q.sent + [q.pending[q.at]]), true)
  {
    forall r ensures Accounted(q.(sent := q.sent + [q.pending[q.at]]), true, r) {
      assert Accounted(q, false, r);
      CountSnoc(q.sent, q.pending[q.at], r);
    }
  }

  lemma SameRequestsOk(q: Queue, q': Queue, booking: bool)
    requires QueueOk(q, booking)
    requires q'.accepted == q.accepted && q'.pending == q.pending && q'.sent == q.sent && q'.lost == q.lost
    requires booking ==> q'.inPass && q'.at == q.at
    ensures QueueOk(q', booking)
  {
    forall r ensures Accounted(q', booking, r) {
      assert Accounted(q, booking, r);
    }
  }

  lemma TriedOk(s: State, answer: Option<u64>)
    requires QueueOk(s.queue, !s.sender.Idle?)
    ensures QueueOk(Tried(s, answer).queue, !Tried(s, answer).sender.Idle?)
  {
    var s' := Tried(s, answer);
    if s'.sender != s.sender {
      SentOk(s.queue);
    } else {
      SameRequestsOk(s.queue, s'.queue, !s.sender.Idle?);
    }
  }

  lemma BookingStepsQueue(s: State, e: Event)
    requires QueueOk(s.queue, !s.sender.Idle?)
    requires e.SenderRead? || e.SenderWrite? || e.SenderWriteAgain?
    ensures QueueOk(Step(s, e).queue, !Step(s, e).sender.Idle?)
  {
    if e.SenderWriteAgain? && s.sender.Flushing? {
      RemovedOk(s.queue);
    }
  }

  lemma QueueEventsQueue(s: State, e: Event)
    requires QueueOk(s.queue, !s.sender.Idle?) && QueueEvent(e) && !e.Push?
    ensures QueueOk(Step(s, e).queue, !Step(s, e).sender.Idle?)
  {
    SameRequests(s, e);
    SameRequestsOk(s.queue, Step(s, e).queue, !s.sender.Idle?);
  }

  lemma SameRequests(s: State, e: Event)
    requires QueueEvent(e) && !e.Push?
    ensures var q, q' := s.queue, Step(s, e).queue;
            && q'.accepted == q.accepted && q'.pending == q.pending && q'.sent == q.sent && q'.lost == q.lost
            && Step(s, e).sender == s.sender
            && (!s.sender.Idle? && q.inPass ==> q'.inPass && q'.at == q.at)
  {
  }

  lemma QueueAlone(s: State, e: Event)
    requires !QueueEvent(e) && !e.TrySend? && !e.Restart?
    requires !e.SenderRead? && !e.SenderWrite? && !e.SenderWriteAgain?
    ensures Step(s, e).queue == s.queue && Step(s, e).sender == s.sender
  {
  }

  lemma QueueStep(s: State, e: Event)
    requires QueueOk(s.queue, !s.sender.Idle?)
    ensures QueueOk(Step(s, e).queue, !Step(s, e).sender.Idle?)
  {
    if e.Push? {
      PushedOk(s.queue, !s.sender.Idle?);
    } else if e.Restart? {
      EmptiedOk(s.queue, !s.sender.Idle?);
    } else if e.TrySend? {
      TriedOk(s, e.answer);
    } else if e.SenderRead? || e.SenderWrite? || e.SenderWriteAgain? {
      BookingStepsQueue(s, e);
    } else if QueueEvent(e) {
      QueueEventsQueue(s, e);
    } else {
      QueueAlone(s, e);
    }
  }

  lemma {:induction false} QueueKept(events: seq<Event>)
    ensures QueueOk(Run(events).queue, !Run(events).sender.Idle?)
  {
    if events == [] {
    } else {
      QueueKept(events[..|events| - 1]);
      QueueStep(Run(events[..|events| - 1]), events[|events| - 1]);
    }
  }

  lemma SameCounts(q: Queue)
    requires QueueOk(q, false)
    ensures multiset(q.accepted) == multiset(q.pending) + multiset(q.sent) + multiset(q.lost)
  {
    forall r: TransferReq
      ensures multiset(q.accepted)[r] == multiset(q.pending)[r] + multiset(q.sent)[r] + multiset(q.lost)[r]
    {
      assert Accounted(q, false, r);
    }
  }

  /** Under every interleaving of handlers, balance updates, intake and passes, with
      restarts: each accepted request is pending, sent or lost to a restart, once,
      but for the one whose fee is being booked. */
  lemma AcceptedOnce(events: seq<Event>)
    requires Run(events).sender.Idle?
    ensures var q := Run(events).queue;
            multiset(q.accepted) == multiset(q.pending) + multiset(q.sent) + multiset(q.lost)
  {
    QueueKept(events);
    SameCounts(Run(events).queue);
  }
}
