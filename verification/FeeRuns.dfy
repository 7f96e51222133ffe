/** Runs of the money handlers in which interleaving or mislabelled buckets do
    harm: a fee that is lost, a purchase that is undone, a record that is replaced, a
    fee charged to the wrong user. Every step is one the handlers take: money is spent and withdrawn only
    where the balance allows it. */
module FeeRuns {
  import opened Common
  import opened Money
  import opened WalletRpc
  import opened FeeLag
  import Balances
  import Db

  lemma Then(events: seq<Event>, e: Event, s: State, s': State)
    requires Run(events) == s && Step(s, e) == s'
    ensures Run(events + [e]) == s'
  {
    assert (events + [e])[..|events|] == events;
  }

  /** The record of the first user, with a balance and an address. */
  function Rich(balance: u64, addr: Bytes): FinancialInfo {
    NewInfo(1).(balance := balance, xmrAddr := Some(addr))
  }

  /** An account without mishaps. */
  function Plain(info: FinancialInfo, version: nat): Account {
    Account(info, version, [], 0, {1}, {}, false)
  }

  const EMPTY_QUEUE := Queue([], None, [], false, 0, [], [], [])

  /** A second registration of the same name may have been looked up as well. */
  function Waiting(user: Bytes, again: bool): map<nat, Bytes> {
    if again then map[1 := user] else map[]
  }

  /** A state of one user with nothing under way. */
  function Quiet(user: Bytes, a: Account, again: bool): State {
    State(map[user := a], EMPTY_QUEUE, Idle, map[], map[], Waiting(user, again))
  }

  /** One user, registered, funded and with an address. */
  function FundedState(user: Bytes, balance: u64, addr: Bytes, again: bool): State {
    Quiet(user, Plain(Rich(balance, addr), 2), again)
  }

  lemma LookedUp(user: Bytes, again: bool) returns (events: seq<Event>)
    ensures Run(events) == Start().(registering := Waiting(user, again)[0 := user])
  {
    events := [];
    if again {
      Then([], Lookup(1, user), Start(), Start().(registering := map[1 := user]));
      events := [] + [Lookup(1, user)];
    }
    var s := Start().(registering := Waiting(user, again));
    Then(events, Lookup(0, user), s, s.(registering := s.registering[0 := user]));
    events := events + [Lookup(0, user)];
  }

  lemma Registered(user: Bytes, again: bool) returns (events: seq<Event>)
    ensures Run(events) == Quiet(user, Plain(NewInfo(1), 0), again)
  {
    var r := LookedUp(user, again);
    var s := Start().(registering := Waiting(user, again)[0 := user]);
    assert s.registering - {0} == Waiting(user, again);
    assert RegisterStep(s, 0, 1).users == map[user := Plain(NewInfo(1), 0)];
    Then(r, Register(0, 1), s, Quiet(user, Plain(NewInfo(1), 0), again));
    events := r + [Register(0, 1)];
  }

  /** A balance update that finds the given balance for the one user. */
  function Update1(user: Bytes, balance: u64): Event {
    BatchRead(user, [], Some(map[1 := balance]), None)
  }

  lemma BalanceRead(user: Bytes, info: FinancialInfo, version: nat, balance: u64, again: bool)
    requires info.transfers.addrIndex == 1 && info.transfers.transfersOut == []
    ensures var s := Quiet(user, Plain(info, version), again);
            Step(s, Update1(user, balance)) == s.(batch := map[user := Copy(info.(balance := balance), version)])
  {
    var s := Quiet(user, Plain(info, version), again);
    assert Balances.Refreshed(info, [], Some(map[1 := balance]), None) == info.(balance := balance);
    assert OwnReport(Plain(info, version), info.(balance := balance));
    assert s.users[user := Plain(info, version)] == s.users;
  }

  lemma BalanceApplied(user: Bytes, info: FinancialInfo, version: nat, balance: u64, again: bool)
    ensures var s := Quiet(user, Plain(info, version), again);
            var copy := Copy(info.(balance := balance), version);
            ApplyStep(s.(batch := map[user := copy])) == Quiet(user, Plain(copy.info, version + 1), again)
  {
    var s := Quiet(user, Plain(info, version), again);
    var copy := Copy(info.(balance := balance), version);
    assert ApplyStep(s.(batch := map[user := copy])).users == map[user := Plain(copy.info, version + 1)];
  }

  lemma Deposited(user: Bytes, balance: u64, again: bool) returns (events: seq<Event>)
    ensures Run(events) == Quiet(user, Plain(NewInfo(1).(balance := balance), 1), again)
  {
    var r := Registered(user, again);
    var s := Run(r);
    BalanceRead(user, NewInfo(1), 0, balance, again);
    var s1 := Step(s, Update1(user, balance));
    Then(r, Update1(user, balance), s, s1);
    BalanceApplied(user, NewInfo(1), 0, balance, again);
    Then(r + [Update1(user, balance)], BatchApply, s1, ApplyStep(s1));
    events := r + [Update1(user, balance)] + [BatchApply];
  }

  /** A record read and written back with an address. */
  lemma Addressed(user: Bytes, info: FinancialInfo, version: nat, addr: Bytes, again: bool)
    ensures var s := Quiet(user, Plain(info, version), again);
            var s1 := s.(handlers := map[0 := (user, Copy(info, version))]);
            && Step(s, HandlerRead(0, user)) == s1
            && Step(s1, Attach(0, addr)) == Quiet(user, Plain(info.(xmrAddr := Some(addr)), version + 1), again)
  {
    var s := Quiet(user, Plain(info, version), again);
    var s1 := s.(handlers := map[0 := (user, Copy(info, version))]);
    var s2 := AttachStep(s1, 0, addr);
    assert s2.users == map[user := Plain(info.(xmrAddr := Some(addr)), version + 1)] && s2.handlers == map[];
  }

  lemma Funded(user: Bytes, balance: u64, addr: Bytes, again: bool) returns (events: seq<Event>)
    ensures Run(events) == FundedState(user, balance, addr, again)
  {
    var r := Deposited(user, balance, again);
    var s := Run(r);
    Addressed(user, NewInfo(1).(balance := balance), 1, addr, again);
    var s1 := Step(s, HandlerRead(0, user));
    Then(r, HandlerRead(0, user), s, s1);
    Then(r + [HandlerRead(0, user)], Attach(0, addr), s1, Step(s1, Attach(0, addr)));
    events := r + [HandlerRead(0, user)] + [Attach(0, addr)];
  }

  // ---------- a withdrawal ----------

  /** What a user asks for, at which fee, and what the transfer then costs. */
  datatype Ask = Ask(user: Bytes, balance: u64, addr: Bytes, amt: u64, feePerByte: u64, fee: u64) {
    /** The wallet's fee is in range, the amount reaches the minimum and the
        balance covers it; some service fee can be recovered. */
    predicate Possible() {
      && feePerByte * (FEE_BYTES * 5) < TWO_TO_THE_64
      && 5 * feePerByte * FEE_BYTES <= amt <= balance
      && 0 < RecoveredFee(Amount(), fee)
    }

    /** The amount sent after fees. */
    function Amount(): u64 {
      Wrap(amt - feePerByte * FEE_BYTES - ServiceFee(amt))
    }

    function Request(): TransferReq {
      TransferReq(user, addr, Amount(), 1)
    }

    function Transferred(): Transfer {
      Transfer(1, Amount(), fee)
    }

    function BookedInfo(): FinancialInfo {
      BookFee(Rich(balance, addr), Transferred())
    }
  }

  lemma RichBalance(balance: u64, addr: Bytes)
    ensures GetBalance(Rich(balance, addr)) == balance && Charged(Rich(balance, addr)) == 0
  {
    WrapIdentity(0);
    WrapIdentity(balance);
  }

  lemma Asked(k: Ask)
    requires k.Possible()
    ensures Withdraw(true, Some(k.feePerByte), Some(Rich(k.balance, k.addr)), k.user, k.amt).Queued?
    ensures Withdraw(true, Some(k.feePerByte), Some(Rich(k.balance, k.addr)), k.user, k.amt).req == k.Request()
    ensures k.Amount() <= k.balance
  {
    RichBalance(k.balance, k.addr);
    WithdrawalArithmetic(true, k.feePerByte, Some(Rich(k.balance, k.addr)), k.user, k.amt);
    var req := Withdraw(true, Some(k.feePerByte), Some(Rich(k.balance, k.addr)), k.user, k.amt).req;
    assert req.amt == k.amt - k.feePerByte * FEE_BYTES - ServiceFee(k.amt);
    WrapIdentity(req.amt);
  }

  /** The queue with the one request pending, a pass just begun. */
  function Begun(k: Ask): Queue {
    EMPTY_QUEUE.(pending := [k.Request()], accepted := [k.Request()], inPass := true)
  }

  lemma AskedFor(k: Ask) returns (events: seq<Event>)
    requires k.Possible()
    ensures Run(events)
         == FundedState(k.user, k.balance, k.addr, false).(queue := EMPTY_QUEUE.(channel := [k.Request()]))
  {
    var r := Funded(k.user, k.balance, k.addr, false);
    Asked(k);
    var w := Withdrawal(k.user, k.amt, k.feePerByte);
    assert [] + [k.Request()] == [k.Request()];
    events := r + [w];
    Then(r, w, Run(r), Run(r).(queue := EMPTY_QUEUE.(channel := [k.Request()])));
  }

  /** The withdrawal goes through the channel and the intake, and a pass begins. */
  lemma Accepted(k: Ask) returns (events: seq<Event>)
    requires k.Possible()
    ensures Run(events) == FundedState(k.user, k.balance, k.addr, false).(queue := Begun(k))
  {
    var req := k.Request();
    var r := AskedFor(k);
    var s := Run(r);
    Asked(k);
    RichBalance(k.balance, k.addr);
    assert [req][1..] == [] && [] + [req] == [req];
    var s1 := s.(queue := EMPTY_QUEUE.(held := Some(req)));
    Then(r, TakeRequest, s, s1);
    var s2 := s.(queue := EMPTY_QUEUE.(pending := [req], accepted := [req]));
    Then(r + [TakeRequest], Push, s1, s2);
    events := r + [TakeRequest] + [Push] + [PassStart];
    Then(r + [TakeRequest] + [Push], PassStart, s2, s.(queue := Begun(k)));
  }

  /** The queue after the pass has sent the one request. */
  function AllSent(k: Ask): Queue {
    Begun(k).(pending := [], sent := [k.Request()])
  }

  /** The one user's record with so many writes and the transfer completed. */
  function Holding(k: Ask, info: FinancialInfo, version: nat): map<Bytes, Account> {
    map[k.user := Plain(info, version).(completed := [k.Transferred()])]
  }

  /** The transfer has gone through, nothing has been booked. */
  function SentState(k: Ask, handlers: map<nat, (Bytes, Copy)>): State {
    State(Holding(k, Rich(k.balance, k.addr), 2), Begun(k).(sent := [k.Request()]),
          FeeLag.Sent(k.user, k.Transferred()), map[], handlers, map[])
  }

  lemma SentOff(k: Ask, before: seq<Event>, handlers: map<nat, (Bytes, Copy)>)
    requires Run(before) == FundedState(k.user, k.balance, k.addr, false).(queue := Begun(k), handlers := handlers)
    ensures Run(before + [TrySend(Some(k.fee))]) == SentState(k, handlers)
  {
    var t := k.Transferred();
    assert [] + [t] == [t] && [] + [k.Request()] == [k.Request()];
    assert Tried(Run(before), Some(k.fee)).users == SentState(k, handlers).users;
    Then(before, TrySend(Some(k.fee)), Run(before), SentState(k, handlers));
  }

  /** The sender reads the record and writes it twice. */
  lemma BookingSteps(k: Ask, handlers: map<nat, (Bytes, Copy)>)
    ensures var s, info := SentState(k, handlers), k.BookedInfo();
            var s1 := s.(sender := Read(k.user, k.Transferred(), Copy(Rich(k.balance, k.addr), 2)));
            var s2 := s.(users := Holding(k, info, 3), sender := Flushing(k.user, Copy(info, 3)));
            var s3 := State(Holding(k, info, 4), AllSent(k), Idle, map[], handlers, map[]);
            ReadStep(s) == s1 && WriteStep(s1) == s2 && WriteAgainStep(s2) == s3
  {
    var s, info := SentState(k, handlers), k.BookedInfo();
    var s1 := s.(sender := Read(k.user, k.Transferred(), Copy(Rich(k.balance, k.addr), 2)));
    var s2 := s.(users := Holding(k, info, 3), sender := Flushing(k.user, Copy(info, 3)));
    assert WriteStep(s1).users == s2.users;
    assert Removed(s.queue) == AllSent(k);
    assert WriteAgainStep(s2).users == Holding(k, info, 4);
  }

  lemma Booked(k: Ask, before: seq<Event>, handlers: map<nat, (Bytes, Copy)>) returns (events: seq<Event>)
    requires Run(before) == FundedState(k.user, k.balance, k.addr, false).(queue := Begun(k), handlers := handlers)
    ensures Run(events) == State(Holding(k, k.BookedInfo(), 4), AllSent(k), Idle, map[], handlers, map[])
  {
    var r := before + [TrySend(Some(k.fee))];
    SentOff(k, before, handlers);
    BookingSteps(k, handlers);
    var s := Run(r);
    RunThree(r, [SenderRead, SenderWrite, SenderWriteAgain], ReadStep(s), WriteStep(ReadStep(s)));
    events := r + [SenderRead, SenderWrite, SenderWriteAgain];
  }

  /** Three more steps, by way of `s1` and `s2`. */
  lemma RunThree(before: seq<Event>, es: seq<Event>, s1: State, s2: State)
    requires |es| == 3 && Step(Run(before), es[0]) == s1 && Step(s1, es[1]) == s2
    ensures Run(before + es) == Step(s2, es[2])
  {
    var one, two := before + [es[0]], before + [es[0]] + [es[1]];
    Then(before, es[0], Run(before), s1);
    Then(one, es[1], s1, s2);
    Then(two, es[2], s2, Step(s2, es[2]));
    assert before + es == two + [es[2]];
  }

  // ---------- stale writes ----------

  lemma OverwrittenInfo(k: Ask, s: State)
    requires s == State(Holding(k, k.BookedInfo(), 4), AllSent(k), Idle, map[],
                        map[0 := (k.user, Copy(Rich(k.balance, k.addr), 2))], map[])
    ensures var s' := AttachStep(s, 0, k.addr);
            && s'.users == map[k.user := Plain(Rich(k.balance, k.addr), 5).(completed := [k.Transferred()],
                                                                            mishaps := {StaleWrite})]
            && s'.sender.Idle?
  {
    var s' := AttachStep(s, 0, k.addr);
    assert {} + {StaleWrite} == {StaleWrite};
    assert s'.users.Keys == {k.user};
    assert s'.users[k.user].info == Rich(k.balance, k.addr);
  }

  /** A stale write does lose a fee: whatever can be withdrawn, some run withdraws
      it and ends, nothing being under way, with a record that charges nothing for
      the completed transfer. */
  lemma StaleWriteUndercharges(k: Ask)
    requires k.Possible()
    ensures exists events ::
              var s := Run(events);
              && k.user in s.users && s.sender.Idle?
              && s.users[k.user].mishaps == {StaleWrite} && !s.users[k.user].foreign
              && TotalFees(s.users[k.user]) == RecoveredFee(k.Amount(), k.fee) > 0
              && Charged(s.users[k.user].info) == 0
  {
    var e := HandlerRead(0, k.user);
    var r := Accepted(k);
    var held := map[0 := (k.user, Copy(Rich(k.balance, k.addr), 2))];
    Then(r, e, Run(r), Run(r).(handlers := held));
    var b := Booked(k, r + [e], held);
    OverwrittenInfo(k, Run(b));
    Then(b, Attach(0, k.addr), Run(b), AttachStep(Run(b), 0, k.addr));
    RichBalance(k.balance, k.addr);
    OneFee(k.Transferred());
    assert k.user in Run(b + [Attach(0, k.addr)]).users;
  }

  /** A record with an item paid for. */
  function Paid(balance: u64, addr: Bytes): FinancialInfo {
    Rich(balance, addr).(amountSpent := PRICE)
  }

  /** A user who can pay buys an item, a batch holding whatever it holds. */
  lemma BoughtState(user: Bytes, balance: u64, addr: Bytes, s: State)
    requires balance >= PRICE && s.users == map[user := Plain(Rich(balance, addr), 2)]
    requires s.handlers == map[0 := (user, Copy(Rich(balance, addr), 2))]
    ensures BuyStep(s, 0)
         == s.(users := map[user := Plain(Paid(balance, addr), 3).(spent := PRICE)], handlers := map[])
  {
    RichBalance(balance, addr);
    WrapIdentity(PRICE);
    assert Spent(Rich(balance, addr), PRICE) == (Paid(balance, addr), Ok(balance - PRICE));
    assert BuyStep(s, 0).users == map[user := Plain(Paid(balance, addr), 3).(spent := PRICE)];
    assert BuyStep(s, 0).handlers == map[];
  }

  /** A balance update has read the record of a user who then buys an item. */
  lemma BoughtMeanwhile(user: Bytes, balance: u64, addr: Bytes) returns (events: seq<Event>)
    requires balance >= PRICE
    ensures Run(events)
         == Quiet(user, Plain(Paid(balance, addr), 3).(spent := PRICE), false)
              .(batch := map[user := Copy(Rich(balance, addr), 2)])
  {
    var rich := Rich(balance, addr);
    var r := Funded(user, balance, addr, false);
    BalanceRead(user, rich, 2, balance, false);
    var s1 := Step(Run(r), Update1(user, balance));
    var s2 := s1.(handlers := map[0 := (user, Copy(rich, 2))]);
    BoughtState(user, balance, addr, s2);
    RunThree(r, [Update1(user, balance), HandlerRead(0, user), Buy(0)], s1, s2);
    events := r + [Update1(user, balance), HandlerRead(0, user), Buy(0)];
  }

  /** So is spending: whoever can pay for an item, some run of that user's purchase
      and one balance update undoes the purchase. */
  lemma BatchUndoesPurchase(user: Bytes, balance: u64, addr: Bytes)
    requires balance >= PRICE
    ensures exists before ::
              var s, s' := Run(before), Run(before + [BatchApply]);
              && user in s.users && user in s'.users && s'.users[user].spent == PRICE
              && s.users[user].info.amountSpent == PRICE && s'.users[user].info.amountSpent == 0
  {
    var before := BoughtMeanwhile(user, balance, addr);
    var s := Run(before);
    Then(before, BatchApply, s, ApplyStep(s));
    assert user in Run(before + [BatchApply]).users;
  }

  // ---------- registrations and restarts ----------

  /** A registration that was looked up before the name was taken replaces the
      record: whoever can pay for an item, in some run loses the purchase, gets
      another subaddress, and no stale write is involved. */
  lemma ReregistrationResets(user: Bytes, balance: u64, addr: Bytes)
    requires balance >= PRICE
    ensures exists before ::
              var s, s' := Run(before), Run(before + [Register(1, 2)]);
              && user in s.users && s.users[user].info == Paid(balance, addr) && s.users[user].mishaps == {}
              && user in s'.users && s'.users[user].info == NewInfo(2) && s'.users[user].spent == PRICE
              && s'.users[user].mishaps == {Reregistered}
  {
    var r := Funded(user, balance, addr, true);
    var s1 := Run(r).(handlers := map[0 := (user, Copy(Rich(balance, addr), 2))]);
    Then(r, HandlerRead(0, user), Run(r), s1);
    BoughtState(user, balance, addr, s1);
    var before := r + [HandlerRead(0, user)] + [Buy(0)];
    Then(r + [HandlerRead(0, user)], Buy(0), s1, BuyStep(s1, 0));
    var s2 := BuyStep(s1, 0);
    assert user in s2.users && s2.registering == map[1 := user];
    Then(before, Register(1, 2), s2, RegisterStep(s2, 1, 2));
    assert Run(before + [Register(1, 2)]).users[user].mishaps == {Reregistered};
  }

  /** A restart loses an accepted withdrawal that has not been sent. */
  lemma RestartLosesRequest(k: Ask)
    requires k.Possible()
    ensures exists events ::
              var q := Run(events).queue;
              q.accepted == [k.Request()] && q.pending == [] && q.sent == [] && q.lost == [k.Request()]
  {
    var r := Accepted(k);
    Then(r, Restart, Run(r), RestartStep(Run(r)));
    assert [] + [k.Request()] == [k.Request()];
    assert Run(r + [Restart]).queue.lost == [k.Request()];
  }

  /** And the fee of one that has been sent and not yet booked. */
  lemma RestartLosesFee(k: Ask)
    requires k.Possible()
    ensures exists events ::
              var s := Run(events);
              && k.user in s.users && s.sender.Idle? && s.users[k.user].mishaps == {BookingLost}
              && TotalFees(s.users[k.user]) == RecoveredFee(k.Amount(), k.fee) > 0
              && Charged(s.users[k.user].info) == 0
  {
    var r := Accepted(k);
    SentOff(k, r, map[]);
    var sent := r + [TrySend(Some(k.fee))];
    Then(sent, Restart, Run(sent), RestartStep(Run(sent)));
    RichBalance(k.balance, k.addr);
    OneFee(k.Transferred());
    assert k.user in Run(sent + [Restart]).users;
  }

  // ---------- another user's fee ----------

  /** The records alone. */
  function Records(s: State): Ledger {
    map u | u in s.users :: s.users[u].info
  }

  /** A balance update reads a record: no record's contents change. */
  lemma Refreshes(s: State, u: Bytes, all: seq<Transfers>, unlocked: Balances.Answer, total: Balances.Answer)
    requires u in s.users && s.users[u].info.transfers.addrIndex > 0
    ensures var s' := RefreshStep(s, u, all, unlocked, total);
            && s'.users.Keys == s.users.Keys
            && (forall w :: w in s.users ==>
                  s'.users[w].info == s.users[w].info && s'.users[w].completed == s.users[w].completed)
            && u in s'.batch && s'.batch[u].info == Balances.Refreshed(s.users[u].info, all, unlocked, total)
            && s'.batch == s.batch[u := s'.batch[u]]
  {
  }

  lemma Applies(s: State)
    requires s.batch.Keys == s.users.Keys
    ensures var s' := ApplyStep(s);
            && s'.users.Keys == s.users.Keys && s'.batch == map[]
            && forall w :: w in s.users ==>
                 s'.users[w].info == s.batch[w].info && s'.users[w].completed == s.users[w].completed
  {
  }

  /** A balance update over two users: both copies, then the batch. */
  ghost function Updated(s: State, u: Bytes, v: Bytes, all: seq<Transfers>, r: Balances.Report): State {
    ApplyStep(RefreshStep(RefreshStep(s, u, all, r.unlocked, r.total), v, all, r.unlocked, r.total))
  }

  lemma UpdateRecords(s: State, u: Bytes, v: Bytes, all: seq<Transfers>, r: Balances.Report)
    requires u != v && s.users.Keys == {u, v} && s.batch == map[]
    requires s.users[u].info.transfers.addrIndex > 0 && s.users[v].info.transfers.addrIndex > 0
    ensures var s' := Updated(s, u, v, all, r);
            && s'.users.Keys == {u, v} && s'.batch == map[]
            && s'.users[u].info == Balances.Refreshed(s.users[u].info, all, r.unlocked, r.total)
            && s'.users[v].info == Balances.Refreshed(s.users[v].info, all, r.unlocked, r.total)
            && s'.users[u].completed == s.users[u].completed
  {
    Refreshes(s, u, all, r.unlocked, r.total);
    var s1 := RefreshStep(s, u, all, r.unlocked, r.total);
    Refreshes(s1, v, all, r.unlocked, r.total);
    var s2 := RefreshStep(s1, v, all, r.unlocked, r.total);
    assert s2.batch.Keys == {u, v};
    Applies(s2);
  }

  lemma RoundOfTwo(s: State, s': State, u: Bytes, v: Bytes, r: Balances.Report)
    requires s.users.Keys == {u, v} == s'.users.Keys && Balances.Runnable(Records(s), [u, v])
    requires var all := Buckets(Balances.Indices(Records(s), [u, v]), r.ins, r.outs);
             && s'.users[u].info == Balances.Refreshed(Records(s)[u], all, r.unlocked, r.total)
             && s'.users[v].info == Balances.Refreshed(Records(s)[v], all, r.unlocked, r.total)
    ensures Records(s') == Balances.Round(Records(s), [u, v], r)
  {
  }

  /** With the buckets for all users' indices it is a round over the ledger. */
  lemma UpdateIsRound(s: State, u: Bytes, v: Bytes, all: seq<Transfers>, r: Balances.Report)
    requires u != v && s.users.Keys == {u, v} && s.batch == map[] && Balances.Runnable(Records(s), [u, v])
    requires all == Buckets(Balances.Indices(Records(s), [u, v]), r.ins, r.outs)
    ensures var s' := Updated(s, u, v, all, r);
            && s'.users.Keys == {u, v} && s'.batch == map[]
            && Records(s') == Balances.Round(Records(s), [u, v], r)
            && s'.users[u].completed == s.users[u].completed
  {
    assert u in Records(s) && Records(s)[u] == s.users[u].info;
    assert v in Records(s) && Records(s)[v] == s.users[v].info;
    UpdateRecords(s, u, v, all, r);
    RoundOfTwo(s, Updated(s, u, v, all, r), u, v, r);
  }

  /** A balance update that asks for the users' indices in the order of the tree. */
  lemma TwoRefreshes(before: seq<Event>, u: Bytes, v: Bytes, r: Balances.Report) returns (events: seq<Event>)
    requires Db.TreeOrder([u, v])
    requires var s := Run(before);
             && u != v && s.users.Keys == {u, v} && s.batch == map[] && Balances.Runnable(Records(s), [u, v])
    ensures var s, s' := Run(before), Run(events);
            && s'.users.Keys == {u, v} && s'.batch == map[]
            && Records(s') == Balances.Round(Records(s), [u, v], r)
            && s'.users[u].completed == s.users[u].completed
  {
    var s := Run(before);
    var all := Buckets(Balances.Indices(Records(s), [u, v]), r.ins, r.outs);
    UpdateIsRound(s, u, v, all, r);
    events := RunUpdate(before, u, v, all, r);
  }

  lemma RunUpdate(before: seq<Event>, u: Bytes, v: Bytes, all: seq<Transfers>, r: Balances.Report)
    returns (events: seq<Event>)
    ensures Run(events) == Updated(Run(before), u, v, all, r)
  {
    var s1 := RefreshStep(Run(before), u, all, r.unlocked, r.total);
    var es := [BatchRead(u, all, r.unlocked, r.total), BatchRead(v, all, r.unlocked, r.total), BatchApply];
    RunThree(before, es, s1, RefreshStep(s1, v, all, r.unlocked, r.total));
    events := before + es;
  }

  /** The first user's transfer is booked; a second user registers. */
  lemma SecondRegisters(k: Ask, second: Bytes) returns (events: seq<Event>)
    requires k.Possible() && second != k.user
    ensures var s := Run(events);
            && s.users.Keys == {second, k.user} && s.batch == map[]
            && s.users[second].info == NewInfo(2) && s.users[second].completed == []
            && s.users[k.user].info == k.BookedInfo() && s.users[k.user].completed == [k.Transferred()]
  {
    var r := Accepted(k);
    var b := Booked(k, r, map[]);
    var s := Run(b).(registering := map[0 := second]);
    Then(b, Lookup(0, second), Run(b), s);
    events := b + [Lookup(0, second)] + [Register(0, 2)];
    Then(b + [Lookup(0, second)], Register(0, 2), s, RegisterStep(s, 0, 2));
    assert Run(events).users.Keys == {second, k.user};
  }

  /** A correct report may charge a user for another's withdrawal: the first user
      registered withdraws, a second one registers whose name the tree visits first,
      and after two balance updates the second is charged a fee without ever having
      sent anything. */
  lemma OthersFeeCharged(k: Ask, second: Bytes, unlocked: Balances.Answer, total: Balances.Answer)
    requires k.Possible() && Db.BytesBefore(Db.TreeKey(second), Db.TreeKey(k.user))
    ensures exists events ::
              var s := Run(events);
              && second in s.users && s.users[second].completed == [] && s.users[second].foreign
              && Charged(s.users[second].info) >= RecoveredFee(k.Amount(), k.fee) > 0
  {
    var t, order := k.Transferred(), [second, k.user];
    var report := Balances.Report([], [t], unlocked, total);
    Db.NotBeforeItself(Db.TreeKey(second));
    var n := SecondRegisters(k, second);
    Balances.OthersFeeShown(Records(Run(n)), second, k.user, t, unlocked, total);
    var r1 := TwoRefreshes(n, second, k.user, report);
    var r2 := TwoRefreshes(r1, second, k.user, report);
    assert second in Records(Run(r2));
    ForeignFlag(r2, second, t);
  }

  lemma NotOwn(a: Account, t: Transfer)
    requires a.completed == [] && t in a.info.transfers.transfersOut
    ensures !OwnReport(a, a.info)
  {
    assert t in multiset(a.info.transfers.transfersOut) && t !in multiset(a.completed);
  }

  /** Whoever is shown a transfer without having made one is flagged. */
  lemma ForeignFlag(events: seq<Event>, user: Bytes, t: Transfer)
    requires user in Run(events).users && Run(events).users[user].completed == []
    requires t in Run(events).users[user].info.transfers.transfersOut
    ensures Run(events).users[user].foreign
  {
    RunOk(events);
    assert CopyOk(Run(events), user, CopyOf(Run(events).users[user]));
    NotOwn(Run(events).users[user], t);
  }
}
