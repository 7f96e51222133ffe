/** The periodic refresh of all users' records from the wallet. */
module Balances {
  import opened Common
  import opened Money
  import opened WalletRpc
  import Db

  /** Balances per subaddress, or no answer from the wallet. */
  type Answer = Option<map<nat, u64>>

  /** One record refreshed. The transfers are taken from the bucket at the place the
      record's subaddress index points to, label included. */
  function Refreshed(f: FinancialInfo, all: seq<Transfers>, unlocked: Answer, total: Answer): FinancialInfo
    requires f.transfers.addrIndex > 0
  {
    var at := f.transfers.addrIndex - 1;
    var transfers := if at < |all| then all[at] else f.transfers;
    var balance := if unlocked.Some? && transfers.addrIndex in unlocked.value
                   then unlocked.value[transfers.addrIndex] else f.balance;
    var pending := if total.Some? && transfers.addrIndex in total.value
                   then Wrap(total.value[transfers.addrIndex] - balance) else f.pendingBalance;
    f.(transfers := transfers, balance := balance, pendingBalance := pending)
  }

  /** A refresh shows the bucket at the record's index, if there is one; balance and
      pending balance then add up to the wallet's total of the bucket's label; without
      an answer for that label the record keeps both, and it always keeps the rest. */
  lemma RefreshAddsUp(f: FinancialInfo, all: seq<Transfers>, unlocked: Answer, total: Answer)
    requires f.transfers.addrIndex > 0
    ensures var g := Refreshed(f, all, unlocked, total);
            var mark := g.transfers.addrIndex;
            var known := unlocked.Some? && mark in unlocked.value;
            var sum := total.Some? && mark in total.value;
            && g.transfers == (if f.transfers.addrIndex <= |all| then all[f.transfers.addrIndex - 1] else f.transfers)
            && g.balance == (if known then unlocked.value[mark] else f.balance)
            && (sum ==> (g.balance + g.pendingBalance) % TWO_TO_THE_64 == total.value[mark])
            && (!sum ==> g.pendingBalance == f.pendingBalance)
            && g.xmrAddr == f.xmrAddr && g.serviceFeeTotal == f.serviceFeeTotal && g.amountSpent == f.amountSpent
  {
    var g := Refreshed(f, all, unlocked, total);
    var mark := g.transfers.addrIndex;
    if total.Some? && mark in total.value {
      WrapTwice(total.value[mark] - g.balance, g.balance);
      WrapIdentity(total.value[mark]);
    }
  }

  class Updater {
    var money: Ledger

    /** One round: build a batch over all records, then apply it. False where a
        record without a subaddress panics; nothing is written then. */
    method UpdateAccBalances(all: seq<Transfers>, unlocked: Answer, total: Answer) returns (ok: bool)
      modifies this
      ensures ok <==> forall u :: u in old(money) ==> old(money)[u].transfers.addrIndex > 0
      ensures ok ==> money.Keys == old(money).Keys
      ensures ok ==> forall u :: u in money ==> money[u] == Refreshed(old(money)[u], all, unlocked, total)
      ensures !ok ==> money == old(money)
    {
      var batch: Ledger := map[];
      var left := money.Keys;
      while left != {}
        invariant left <= money.Keys && money == old(money)
        invariant batch.Keys == money.Keys - left
        invariant forall u :: u in batch ==>
                    money[u].transfers.addrIndex > 0 && batch[u] == Refreshed(money[u], all, unlocked, total)
        decreases left
      {
        var username :| username in left;
        var info := money[username];
        if info.transfers.addrIndex == 0 {
          return false;
        }
        var at := info.transfers.addrIndex - 1;
        if at < |all| {
          info := info.(transfers := all[at]);
        }
        if unlocked.Some? && info.transfers.addrIndex in unlocked.value {
          info := info.(balance := unlocked.value[info.transfers.addrIndex]);
        }
        if total.Some? && info.transfers.addrIndex in total.value {
          info := info.(pendingBalance := Wrap(total.value[info.transfers.addrIndex] - info.balance));
        }
        batch := batch[username := info];
        left := left - {username};
      }
      money := money + batch;
      ok := true;
    }
  }

  // ---------- rounds ----------

  /** The subaddress indices the records hold, in iteration order of the tree. */
  function Indices(money: Ledger, order: seq<Bytes>): (r: seq<nat>)
    requires forall u :: u in order ==> u in money
    ensures |r| == |order| && forall i :: 0 <= i < |r| ==> r[i] == money[order[i]].transfers.addrIndex
  {
    seq(|order|, i requires 0 <= i < |order| => money[order[i]].transfers.addrIndex)
  }

  /** What the wallet reports in one round. */
  datatype Report = Report(ins: seq<Transfer>, outs: seq<Transfer>, unlocked: Answer, total: Answer)

  /** Every record has a subaddress of its own. */
  ghost predicate OwnAddresses(money: Ledger, order: seq<Bytes>) {
    && Enumerates(order, money.Keys)
    && (forall u :: u in money ==> money[u].transfers.addrIndex > 0)
    && (forall u, v :: u in money && v in money && u != v ==>
          money[u].transfers.addrIndex != money[v].transfers.addrIndex)
  }

  /** Ask for all users' indices in iteration order, sort the reply into buckets,
      refresh every record from them. */
  function Round(money: Ledger, order: seq<Bytes>, r: Report): Ledger
    requires forall u :: u in order ==> u in money
    requires forall u :: u in money ==> money[u].transfers.addrIndex > 0
  {
    var all := Buckets(Indices(money, order), r.ins, r.outs);
    map u | u in money :: Refreshed(money[u], all, r.unlocked, r.total)
  }

  /** The user at place `i` of the iteration is the one with subaddress `i + 1`. */
  ghost predicate InOrder(money: Ledger, order: seq<Bytes>)
    requires forall u :: u in order ==> u in money
  {
    forall i :: 0 <= i < |order| && money[order[i]].transfers.addrIndex <= |order| ==>
      money[order[i]].transfers.addrIndex == i + 1
  }

  ghost predicate SameAddresses(money: Ledger, money': Ledger) {
    money'.Keys == money.Keys &&
    forall u :: u in money ==> money'[u].transfers.addrIndex == money[u].transfers.addrIndex
  }

  lemma AddressesKeptNeeds(money: Ledger, order: seq<Bytes>, r: Report)
    requires OwnAddresses(money, order) && SameAddresses(money, Round(money, order, r))
    ensures InOrder(money, order)
  {
  }

  lemma InOrderKeepsAddresses(money: Ledger, order: seq<Bytes>, r: Report)
    requires OwnAddresses(money, order) && InOrder(money, order)
    ensures SameAddresses(money, Round(money, order, r))
  {
  }

  /** A round leaves every user's subaddress index alone exactly when the tree
      iterates the users in the order of their indices. */
  lemma AddressesKeptExactly(money: Ledger, order: seq<Bytes>, r: Report)
    requires OwnAddresses(money, order)
    ensures SameAddresses(money, Round(money, order, r)) <==> InOrder(money, order)
  {
    if SameAddresses(money, Round(money, order, r)) {
      AddressesKeptNeeds(money, order, r);
    }
    if InOrder(money, order) {
      InOrderKeepsAddresses(money, order, r);
    }
  }

  lemma StaysInOrder(money: Ledger, order: seq<Bytes>, money': Ledger)
    requires OwnAddresses(money, order) && InOrder(money, order) && SameAddresses(money, money')
    ensures OwnAddresses(money', order) && InOrder(money', order)
  {
  }

  /** In that case a user within the buckets gets exactly the user's own transfers,
      and the balance of the user's own subaddress. */
  lemma OwnTransfers(money: Ledger, order: seq<Bytes>, r: Report, u: Bytes)
    requires OwnAddresses(money, order) && InOrder(money, order)
    requires u in money && money[u].transfers.addrIndex <= |order|
    ensures var index := money[u].transfers.addrIndex;
            var f := Round(money, order, r)[u];
            && f.transfers == Transfers(index, Select(r.ins, index), Select(r.outs, index))
            && (r.unlocked.Some? && index in r.unlocked.value ==> f.balance == r.unlocked.value[index])
            && f.serviceFeeTotal == money[u].serviceFeeTotal && f.amountSpent == money[u].amountSpent
  {
    assert u in order;
    var i :| 0 <= i < |order| && order[i] == u;
  }

  ghost predicate Runnable(money: Ledger, order: seq<Bytes>) {
    && (forall u :: u in order ==> u in money)
    && (forall u :: u in money ==> money[u].transfers.addrIndex > 0)
  }

  /** The ledgers before, between and after the given rounds. */
  ghost predicate Rounds(ledgers: seq<Ledger>, order: seq<Bytes>, reports: seq<Report>) {
    && |ledgers| == |reports| + 1
    && forall i :: 0 <= i < |reports| ==>
         Runnable(ledgers[i], order) && ledgers[i + 1] == Round(ledgers[i], order, reports[i])
  }

  /** Any number of rounds, whatever the wallet reports, leaves the indices alone. */
  lemma {:induction false} RoundsKeepAddresses(ledgers: seq<Ledger>, order: seq<Bytes>, reports: seq<Report>, n: nat)
    requires Rounds(ledgers, order, reports) && n <= |reports|
    requires OwnAddresses(ledgers[0], order) && InOrder(ledgers[0], order)
    ensures SameAddresses(ledgers[0], ledgers[n])
    ensures OwnAddresses(ledgers[n], order) && InOrder(ledgers[n], order)
  {
    if n == 0 {
    } else {
      RoundsKeepAddresses(ledgers, order, reports, n - 1);
      InOrderKeepsAddresses(ledgers[n - 1], order, reports[n - 1]);
      StaysInOrder(ledgers[n - 1], order, ledgers[n]);
    }
  }

  /** Where the tree visits the second subaddress first, one round swaps the two
      users' addresses, and each is shown the other's balance. */
  lemma AddressesSwap(first: Bytes, second: Bytes, b1: u64, b2: u64)
    requires first != second
    ensures var money := map[first := NewInfo(2), second := NewInfo(1)];
            var order := [first, second];
            var report := Report([], [], Some(map[1 := b1, 2 := b2]), None);
            && (forall u :: u in order ==> u in money)
            && (forall u :: u in money ==> money[u].transfers.addrIndex > 0)
            && var money' := Round(money, order, report);
            && money'[first].transfers.addrIndex == 1 && money'[first].balance == b1
            && money'[second].transfers.addrIndex == 2 && money'[second].balance == b2
  {
    var money := map[first := NewInfo(2), second := NewInfo(1)];
    var order := [first, second];
    assert Indices(money, order)[0] == 2 && Indices(money, order)[1] == 1;
  }

  // ---------- whose transfers a user is shown ----------

  /** Every outgoing transfer in the user's record is of subaddress `home`. */
  ghost predicate ShowsOnly(f: FinancialInfo, home: nat) {
    forall t :: t in f.transfers.transfersOut ==> t.addrIndex == home
  }

  /** Whatever the wallet reports over any number of rounds, users are shown only
      transfers of the subaddresses they started with. */
  ghost predicate NeverForeign(money: Ledger, order: seq<Bytes>) {
    forall ledgers, reports, n: nat, u ::
      Rounds(ledgers, order, reports) && ledgers[0] == money && n <= |reports| && u in money ==>
        u in ledgers[n] && ShowsOnly(ledgers[n][u], money[u].transfers.addrIndex)
  }

  /** The label of the bucket a user's index points to. */
  function LabelOf(money: Ledger, order: seq<Bytes>, index: nat): nat
    requires forall u :: u in order ==> u in money
    requires 0 < index <= |order|
  {
    money[order[index - 1]].transfers.addrIndex
  }

  /** No bucket within the list bears the label of another one within the list. */
  ghost predicate NoneSwapped(money: Ledger, order: seq<Bytes>)
    requires OwnAddresses(money, order)
  {
    forall u :: u in money && money[u].transfers.addrIndex <= |order| ==>
      var mark := LabelOf(money, order, money[u].transfers.addrIndex);
      mark == money[u].transfers.addrIndex || mark > |order|
  }

  /** A record some rounds later: at its own index or stuck beyond the list. */
  ghost predicate Settled(f: FinancialInfo, home: nat, n: nat) {
    (f.transfers.addrIndex == home || f.transfers.addrIndex > n) && ShowsOnly(f, home)
  }

  ghost predicate AllSettled(money0: Ledger, money: Ledger, n: nat) {
    && money.Keys == money0.Keys
    && forall u :: u in money ==>
         money[u].transfers.addrIndex > 0 && Settled(money[u], money0[u].transfers.addrIndex, n)
  }

  lemma BucketShows(outs: seq<Transfer>, index: nat)
    ensures forall t :: t in Select(outs, index) ==> t.addrIndex == index
  {
    forall t | t in Select(outs, index) ensures t.addrIndex == index {
      SelectedIndex(outs, index, t);
    }
  }

  /** What a round does to one user's transfers. */
  lemma RoundOf(money: Ledger, order: seq<Bytes>, r: Report, u: Bytes)
    requires Runnable(money, order) && u in money
    ensures var a := money[u].transfers.addrIndex;
            Round(money, order, r)[u].transfers
            == if a <= |order| then Transfers(LabelOf(money, order, a), Select(r.ins, a), Select(r.outs, a))
               else money[u].transfers
  {
  }

  /** The label a settled user meets: the user's own, or one beyond the list. */
  lemma LabelSettles(money0: Ledger, money: Ledger, order: seq<Bytes>, u: Bytes)
    requires OwnAddresses(money0, order) && NoneSwapped(money0, order)
    requires AllSettled(money0, money, |order|) && u in money
    requires money[u].transfers.addrIndex == money0[u].transfers.addrIndex <= |order|
    requires Runnable(money, order)
    ensures var mark := LabelOf(money, order, money[u].transfers.addrIndex);
            0 < mark && (mark == money0[u].transfers.addrIndex || mark > |order|)
  {
    var a := money[u].transfers.addrIndex;
    var v := order[a - 1];
    assert v in order && v in money;
    assert LabelOf(money0, order, a) == money0[v].transfers.addrIndex;
    if money0[v].transfers.addrIndex == a {
      assert u == v;
    }
  }

  lemma RoundSettles(money0: Ledger, money: Ledger, order: seq<Bytes>, r: Report, u: Bytes)
    requires OwnAddresses(money0, order) && NoneSwapped(money0, order)
    requires AllSettled(money0, money, |order|) && u in money && Runnable(money, order)
    ensures var f := Round(money, order, r)[u];
            f.transfers.addrIndex > 0 && Settled(f, money0[u].transfers.addrIndex, |order|)
  {
    var a := money[u].transfers.addrIndex;
    RoundOf(money, order, r, u);
    assert Settled(money[u], money0[u].transfers.addrIndex, |order|);
    if a <= |order| {
      BucketShows(r.outs, a);
      LabelSettles(money0, money, order, u);
    }
  }

  lemma {:induction false} RoundsSettle(ledgers: seq<Ledger>, order: seq<Bytes>, reports: seq<Report>, n: nat)
    requires Rounds(ledgers, order, reports) && n <= |reports|
    requires OwnAddresses(ledgers[0], order) && NoneSwapped(ledgers[0], order)
    requires forall u :: u in ledgers[0] ==> ShowsOnly(ledgers[0][u], ledgers[0][u].transfers.addrIndex)
    ensures AllSettled(ledgers[0], ledgers[n], |order|)
  {
    if n == 0 {
    } else {
      RoundsSettle(ledgers, order, reports, n - 1);
      forall u | u in ledgers[n] ensures u in ledgers[0] && ledgers[n][u].transfers.addrIndex > 0
        && Settled(ledgers[n][u], ledgers[0][u].transfers.addrIndex, |order|)
      {
        RoundSettles(ledgers[0], ledgers[n - 1], order, reports[n - 1], u);
      }
    }
  }

  lemma StillRunnable(money: Ledger, order: seq<Bytes>, r: Report)
    requires Runnable(money, order)
    ensures Runnable(Round(money, order, r), order)
  {
    forall u | u in money ensures Round(money, order, r)[u].transfers.addrIndex > 0 {
      RoundOf(money, order, r, u);
      if money[u].transfers.addrIndex <= |order| {
        assert order[money[u].transfers.addrIndex - 1] in money;
      }
    }
  }

  /** Two rounds, in the second of which the user is shown a transfer of the index
      the first one put in the record. */
  lemma SecondRound(money: Ledger, order: seq<Bytes>, u: Bytes, r1: Report, r2: Report, t: Transfer)
    requires Runnable(money, order) && u in money && money[u].transfers.addrIndex <= |order|
    requires t.addrIndex == LabelOf(money, order, money[u].transfers.addrIndex) <= |order| && r2.outs == [t]
    ensures var next := Round(money, order, r1);
            Runnable(next, order) && u in next && Round(next, order, r2)[u].transfers.transfersOut == [t]
  {
    var next := Round(money, order, r1);
    StillRunnable(money, order, r1);
    RoundOf(money, order, r1, u);
    RoundOf(next, order, r2, u);
    assert [] + [t] == [t];
    SelectMore([], t, t.addrIndex);
  }

  lemma TwoRounds(money: Ledger, order: seq<Bytes>, r1: Report, r2: Report)
    requires Runnable(money, order) && Runnable(Round(money, order, r1), order)
    ensures var next := Round(money, order, r1);
            Rounds([money, next, Round(next, order, r2)], order, [r1, r2])
  {
    var next := Round(money, order, r1);
    var ledgers, reports := [money, next, Round(next, order, r2)], [r1, r2];
    forall i | 0 <= i < |reports|
      ensures Runnable(ledgers[i], order) && ledgers[i + 1] == Round(ledgers[i], order, reports[i])
    {
      if i == 0 {
        assert ledgers[i] == money;
      } else {
        assert ledgers[i] == next;
      }
    }
  }

  /** A user whose bucket bears another label within the list is shown a transfer
      of that label's subaddress in the second round. */
  lemma SwappedIsForeign(money: Ledger, order: seq<Bytes>, u: Bytes, t: Transfer)
    requires Runnable(money, order) && u in money && money[u].transfers.addrIndex <= |order|
    requires t.addrIndex == LabelOf(money, order, money[u].transfers.addrIndex) <= |order|
    requires t.addrIndex != money[u].transfers.addrIndex
    ensures !NeverForeign(money, order)
  {
    var r1, r2 := Report([], [], None, None), Report([], [t], None, None);
    SecondRound(money, order, u, r1, r2, t);
    TwoRounds(money, order, r1, r2);
    var next := Round(money, order, r1);
    NotNever(money, order, [money, next, Round(next, order, r2)], [r1, r2], u, t);
  }

  lemma NotNever(money: Ledger, order: seq<Bytes>, ledgers: seq<Ledger>, reports: seq<Report>, u: Bytes, t: Transfer)
    requires Rounds(ledgers, order, reports) && ledgers[0] == money && u in money
    requires u in ledgers[|reports|] && t in ledgers[|reports|][u].transfers.transfersOut
    requires t.addrIndex != money[u].transfers.addrIndex
    ensures !NeverForeign(money, order)
  {
    assert !ShowsOnly(ledgers[|reports|][u], money[u].transfers.addrIndex);
  }

  /** Users are never shown another subaddress's transfers exactly when no bucket
      within the list bears the label of another one within the list. */
  lemma NeverForeignExactly(money: Ledger, order: seq<Bytes>)
    requires OwnAddresses(money, order)
    requires forall u :: u in money ==> ShowsOnly(money[u], money[u].transfers.addrIndex)
    ensures NeverForeign(money, order) <==> NoneSwapped(money, order)
  {
    if NoneSwapped(money, order) {
      forall ledgers, reports, n: nat, u |
        Rounds(ledgers, order, reports) && ledgers[0] == money && n <= |reports| && u in money
        ensures u in ledgers[n] && ShowsOnly(ledgers[n][u], money[u].transfers.addrIndex)
      {
        RoundsSettle(ledgers, order, reports, n);
      }
    } else {
      var u :| u in money && money[u].transfers.addrIndex <= |order|
        && var mark := LabelOf(money, order, money[u].transfers.addrIndex);
           mark != money[u].transfers.addrIndex && mark <= |order|;
      SwappedIsForeign(money, order, u, Transfer(LabelOf(money, order, money[u].transfers.addrIndex), 0, 0));
    }
  }

  // ---------- what users are charged for ----------

  /** Records as registrations write them, for whatever subaddress. */
  ghost predicate NothingSent(money: Ledger) {
    forall u :: u in money ==> money[u].transfers.transfersOut == [] && money[u].serviceFeeTotal == 0
  }

  /** Whatever the wallet reports over any number of rounds, a user of whose
      subaddress it reports no outgoing transfer is charged no service fee. */
  ghost predicate NeverChargedForOthers(money: Ledger, order: seq<Bytes>) {
    forall ledgers, reports, n: nat, u ::
      Rounds(ledgers, order, reports) && ledgers[0] == money && n <= |reports| && u in money
      && SendsNothing(reports, money[u].transfers.addrIndex) ==>
        u in ledgers[n] && Charged(ledgers[n][u]) == 0
  }

  ghost predicate SendsNothing(reports: seq<Report>, index: nat) {
    forall i :: 0 <= i < |reports| ==> Select(reports[i].outs, index) == []
  }

  /** Without swapped labels a user is shown nothing where nothing was sent. */
  lemma {:induction false} NothingShown(ledgers: seq<Ledger>, order: seq<Bytes>, reports: seq<Report>, n: nat, u: Bytes)
    requires Rounds(ledgers, order, reports) && n <= |reports|
    requires OwnAddresses(ledgers[0], order) && NoneSwapped(ledgers[0], order) && NothingSent(ledgers[0])
    requires u in ledgers[0] && SendsNothing(reports, ledgers[0][u].transfers.addrIndex)
    ensures u in ledgers[n] && ledgers[n][u].transfers.transfersOut == [] && ledgers[n][u].serviceFeeTotal == 0
  {
    if n > 0 {
      NothingShown(ledgers, order, reports, n - 1, u);
      RoundsSettle(ledgers, order, reports, n - 1);
      assert Settled(ledgers[n - 1][u], ledgers[0][u].transfers.addrIndex, |order|);
      RoundOf(ledgers[n - 1], order, reports[n - 1], u);
    }
  }

  lemma NoCharge(f: FinancialInfo)
    requires f.transfers.transfersOut == [] && f.serviceFeeTotal == 0
    ensures Charged(f) == 0
  {
    WrapIdentity(0);
  }

  /** A transfer whose fee is one piconero. */
  function SmallTransfer(index: nat): Transfer {
    Transfer(index, 49, 0)
  }

  lemma SmallFee(f: FinancialInfo, index: nat)
    requires f.transfers.transfersOut == [SmallTransfer(index)]
    ensures Charged(f) >= 1
  {
    OneFee(SmallTransfer(index));
    WrapIdentity(49);
    WrapIdentity(1);
  }

  /** A user whose bucket bears another label within the list is charged for a
      transfer of that label's subaddress in the second round. */
  lemma SwappedIsCharged(money: Ledger, order: seq<Bytes>, u: Bytes)
    requires OwnAddresses(money, order) && NothingSent(money) && u in money
    requires money[u].transfers.addrIndex <= |order|
    requires var mark := LabelOf(money, order, money[u].transfers.addrIndex);
             mark != money[u].transfers.addrIndex && mark <= |order|
    ensures !NeverChargedForOthers(money, order)
  {
    var home := money[u].transfers.addrIndex;
    var t := SmallTransfer(LabelOf(money, order, home));
    var r1, r2 := Report([], [], None, None), Report([], [t], None, None);
    SecondRound(money, order, u, r1, r2, t);
    TwoRounds(money, order, r1, r2);
    var next := Round(money, order, r1);
    OnlyOtherSends([r1, r2], t, home);
    ChargedAgainst(money, order, [money, next, Round(next, order, r2)], [r1, r2], u, t);
  }

  lemma OnlyOtherSends(reports: seq<Report>, t: Transfer, index: nat)
    requires |reports| == 2 && reports[0].outs == [] && reports[1].outs == [t] && t.addrIndex != index
    ensures SendsNothing(reports, index)
  {
    assert [] + [t] == [t];
    SelectMore([], t, index);
  }

  lemma ChargedAgainst(money: Ledger, order: seq<Bytes>, ledgers: seq<Ledger>, reports: seq<Report>, u: Bytes,
                       t: Transfer)
    requires Rounds(ledgers, order, reports) && ledgers[0] == money && u in money && |reports| == 2
    requires u in ledgers[2] && ledgers[2][u].transfers.transfersOut == [t] && t == SmallTransfer(t.addrIndex)
    requires SendsNothing(reports, money[u].transfers.addrIndex)
    ensures !NeverChargedForOthers(money, order)
  {
    SmallFee(ledgers[2][u], t.addrIndex);
  }

  /** No one is ever charged for another's transfers exactly when no bucket within
      the list bears the label of another one within the list. */
  lemma ChargedForOthersExactly(money: Ledger, order: seq<Bytes>)
    requires OwnAddresses(money, order) && NothingSent(money)
    ensures NeverChargedForOthers(money, order) <==> NoneSwapped(money, order)
  {
    if NoneSwapped(money, order) {
      forall ledgers, reports, n: nat, u |
        Rounds(ledgers, order, reports) && ledgers[0] == money && n <= |reports| && u in money
        && SendsNothing(reports, money[u].transfers.addrIndex)
        ensures u in ledgers[n] && Charged(ledgers[n][u]) == 0
      {
        NothingShown(ledgers, order, reports, n, u);
        NoCharge(ledgers[n][u]);
      }
    } else {
      var u :| u in money && money[u].transfers.addrIndex <= |order|
        && var mark := LabelOf(money, order, money[u].transfers.addrIndex);
           mark != money[u].transfers.addrIndex && mark <= |order|;
      SwappedIsCharged(money, order, u);
    }
  }

  lemma InOrderNoneSwapped(money: Ledger, order: seq<Bytes>)
    requires OwnAddresses(money, order) && InOrder(money, order)
    ensures NoneSwapped(money, order)
  {
    forall u | u in money && money[u].transfers.addrIndex <= |order|
      ensures LabelOf(money, order, money[u].transfers.addrIndex) == money[u].transfers.addrIndex
    {
      assert u in order;
      var i :| 0 <= i < |order| && order[i] == u;
      assert money[order[i]].transfers.addrIndex == i + 1;
    }
  }

  /** Users listed in the order of their subaddresses are charged for themselves. */
  lemma InOrderNeverCharged(money: Ledger, order: seq<Bytes>)
    requires OwnAddresses(money, order) && InOrder(money, order) && NothingSent(money)
    ensures NeverChargedForOthers(money, order)
  {
    InOrderNoneSwapped(money, order);
    ChargedForOthersExactly(money, order);
  }

  lemma TwoOwn(money: Ledger, first: Bytes, second: Bytes, order: seq<Bytes>)
    requires first != second && money.Keys == {first, second}
    requires money[first].transfers.addrIndex == 1 && money[second].transfers.addrIndex == 2
    requires order == [first, second] || order == [second, first]
    ensures OwnAddresses(money, order)
    ensures NoneSwapped(money, order) <==> order == [first, second]
  {
    forall k ensures k in money.Keys <==> k in order {}
    assert LabelOf(money, order, 1) == money[order[0]].transfers.addrIndex;
    assert LabelOf(money, order, 2) == money[order[1]].transfers.addrIndex;
    assert first in money;
  }

  lemma TreeOrderOfTwo(first: Bytes, second: Bytes, order: seq<Bytes>)
    requires first != second && (order == [first, second] || order == [second, first]) && Db.TreeOrder(order)
    ensures order == [first, second] <==> Db.BytesBefore(Db.TreeKey(first), Db.TreeKey(second))
  {
    assert Db.BytesBefore(Db.TreeKey(order[0]), Db.TreeKey(order[1]));
    Db.OneBefore(Db.TreeKey(first), Db.TreeKey(second));
  }

  /** Of two users the one registered first has to come first in the tree: exactly
      then no one is ever charged for the other. */
  lemma TwoUsersExactly(money: Ledger, first: Bytes, second: Bytes, order: seq<Bytes>)
    requires first != second && money.Keys == {first, second} && NothingSent(money)
    requires money[first].transfers.addrIndex == 1 && money[second].transfers.addrIndex == 2
    requires Db.TreeOrder(order) && (order == [first, second] || order == [second, first])
    ensures OwnAddresses(money, order)
    ensures NeverChargedForOthers(money, order) <==> Db.BytesBefore(Db.TreeKey(first), Db.TreeKey(second))
  {
    TwoOwn(money, first, second, order);
    TreeOrderOfTwo(first, second, order);
    ChargedForOthersExactly(money, order);
  }

  lemma SwapReports(t: Transfer)
    requires t.addrIndex == 1
    ensures Select([t], 1) == [t] && Select([t], 2) == []
  {
    assert [] + [t] == [t];
    SelectMore([], t, 1);
    SelectMore([], t, 2);
  }

  /** Where the tree visits the second subaddress first, a transfer of the first
      subaddress, correctly reported, is charged to the other user two rounds later. */
  lemma OthersFeeShown(money: Ledger, first: Bytes, second: Bytes, t: Transfer, unlocked: Answer, total: Answer)
    requires first != second && money.Keys == {first, second} && t.addrIndex == 1
    requires money[first].transfers.addrIndex == 2 && money[second].transfers.addrIndex == 1
    ensures var order, report := [first, second], Report([], [t], unlocked, total);
            && Runnable(money, order) && Runnable(Round(money, order, report), order)
            && var f := Round(Round(money, order, report), order, report)[first];
               f.transfers.transfersOut == [t] && Charged(f) >= RecoveredFee(t.amount, t.fee)
  {
    var order, report := [first, second], Report([], [t], unlocked, total);
    StillRunnable(money, order, report);
    var next := Round(money, order, report);
    RoundOf(money, order, report, first);
    RoundOf(next, order, report, first);
    SwapReports(t);
    OneFee(t);
    WrapIdentity(RecoveredFee(t.amount, t.fee));
  }
}
