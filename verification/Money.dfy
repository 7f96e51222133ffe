/** Balances, spending and the arithmetic of withdrawals. */
module Money {
  import opened Common

  /** A transfer as the wallet reports it. */
  datatype Transfer = Transfer(addrIndex: nat, amount: u64, fee: u64)

  datatype Transfers = Transfers(addrIndex: nat, transfersIn: seq<Transfer>, transfersOut: seq<Transfer>)

  /** A user's record. Handlers work on copies of it, so it is a value. */
  datatype FinancialInfo = FinancialInfo(
    xmrAddr: Option<Bytes>, transfers: Transfers, balance: u64, pendingBalance: u64,
    serviceFeeTotal: u64, amountSpent: u64)

  type Ledger = map<Bytes, FinancialInfo>

  function NewInfo(addrIndex: nat): FinancialInfo {
    FinancialInfo(None, Transfers(addrIndex, [], []), 0, 0, 0, 0)
  }

  /** The service fee recovered from a completed transfer. */
  function RecoveredFee(amount: u64, fee: u64): u64 {
    Wrap(amount + fee) / 49
  }

  /** Exact sum of the fees recovered from the given transfers. */
  function FeeSum(ts: seq<Transfer>): nat {
    if ts == [] then 0 else RecoveredFee(ts[0].amount, ts[0].fee) + FeeSum(ts[1..])
  }

  lemma OneFee(t: Transfer)
    ensures FeeSum([t]) == RecoveredFee(t.amount, t.fee)
  {
    assert [t][1..] == [];
  }

  /** The service fee charged: the larger of what the sender booked and what the
      wallet's transfers show. */
  function Charged(f: FinancialInfo): u64 {
    Max(f.serviceFeeTotal, Wrap(FeeSum(f.transfers.transfersOut)))
  }

  function GetBalance(f: FinancialInfo): u64 {
    Wrap(Wrap(f.balance - Charged(f)) - f.amountSpent)
  }

  lemma WrapTwice(a: int, b: int)
    ensures Wrap(Wrap(a) + b) == Wrap(a + b)
  {
    var k := a / TWO_TO_THE_64;
    assert a + b == Wrap(a) + b + k * TWO_TO_THE_64;
    WrapShift(Wrap(a) + b, k);
  }

  lemma {:induction false} WrapShift(a: int, k: int)
    ensures Wrap(a + k * TWO_TO_THE_64) == Wrap(a)
    decreases if k < 0 then -k else k
  {
    if k > 0 {
      WrapShift(a, k - 1);
      WrapStep(a + (k - 1) * TWO_TO_THE_64);
    } else if k < 0 {
      WrapShift(a, k + 1);
      WrapStep(a + k * TWO_TO_THE_64);
    }
  }

  lemma WrapStep(a: int)
    ensures Wrap(a + TWO_TO_THE_64) == Wrap(a)
  {
  }

  /** The fee of a transfer is a 49th of what left the wallet for it, and fees add
      up over transfers. */
  lemma FeesAddUp(t: Transfer, ts: seq<Transfer>)
    ensures FeeSum([]) == 0
    ensures t.amount + t.fee < TWO_TO_THE_64 ==> FeeSum([t] + ts) == (t.amount + t.fee) / 49 + FeeSum(ts)
  {
    assert ([t] + ts)[1..] == ts;
    if t.amount + t.fee < TWO_TO_THE_64 {
      WrapIdentity(t.amount + t.fee);
    }
  }

  /** The balance is what was received less the larger of booked and visible service
      fees and less what was spent. */
  lemma BalanceIsWhatIsLeft(f: FinancialInfo)
    requires FeeSum(f.transfers.transfersOut) < TWO_TO_THE_64
    requires f.serviceFeeTotal + f.amountSpent <= f.balance
    requires FeeSum(f.transfers.transfersOut) + f.amountSpent <= f.balance
    ensures GetBalance(f)
         == f.balance - (if f.serviceFeeTotal >= FeeSum(f.transfers.transfersOut) then f.serviceFeeTotal
                         else FeeSum(f.transfers.transfersOut)) - f.amountSpent
  {
    WrapIdentity(FeeSum(f.transfers.transfersOut));
    WrapIdentity(f.balance - Charged(f));
    WrapIdentity(f.balance - Charged(f) - f.amountSpent);
  }

  /** Beyond that range the difference wraps once around 64 bits. */
  lemma BalanceWraps(f: FinancialInfo)
    requires FeeSum(f.transfers.transfersOut) < TWO_TO_THE_64
    ensures var charged := if f.serviceFeeTotal >= FeeSum(f.transfers.transfersOut) then f.serviceFeeTotal
                           else FeeSum(f.transfers.transfersOut);
            GetBalance(f) == (f.balance - charged - f.amountSpent) % TWO_TO_THE_64
  {
    WrapIdentity(FeeSum(f.transfers.transfersOut));
    var spent: int := f.amountSpent;
    WrapTwice(f.balance - Charged(f), -spent);
  }

  /** A record as registrations write it. */
  lemma FreshRecord(addrIndex: nat)
    ensures var f := NewInfo(addrIndex);
            && GetBalance(f) == 0 && f.xmrAddr.None? && f.pendingBalance == 0
            && f.transfers == Transfers(addrIndex, [], [])
  {
    WrapIdentity(0);
  }

  // ---------- spending ----------

  /** Price of an item, in piconero. */
  const PRICE: u64 := 4_271_880_000

  datatype Spend = Ok(balance: u64) | Err(balance: u64)

  method SpendMoney(f: FinancialInfo, amount: u64) returns (f': FinancialInfo, r: Spend)
    ensures (f', r) == Spent(f, amount)
  {
    var oldBalance := GetBalance(f);
    if oldBalance >= amount {
      f' := f.(amountSpent := Wrap(f.amountSpent + amount));
      r := Ok(oldBalance - amount);
    } else {
      f' := f;
      r := Err(oldBalance);
    }
  }

  function Spent(f: FinancialInfo, amount: u64): (FinancialInfo, Spend) {
    if GetBalance(f) >= amount
    then (f.(amountSpent := Wrap(f.amountSpent + amount)), Ok(GetBalance(f) - amount))
    else (f, Err(GetBalance(f)))
  }

  /** The returned balance is the balance afterwards, in wrapping arithmetic too:
      it went down by exactly the amount, or nothing changed and it was too low. */
  lemma SpendIsExact(f: FinancialInfo, amount: u64)
    ensures var (f', r) := Spent(f, amount);
            && GetBalance(f') == r.balance
            && (r.Ok? <==> GetBalance(f) >= amount)
            && (r.Ok? ==> r.balance == GetBalance(f) - amount)
            && f' == f.(amountSpent := f'.amountSpent)
  {
    if GetBalance(f) >= amount {
      var rest := Wrap(f.balance - Charged(f));
      var spent' := Wrap(f.amountSpent + amount);
      var a: int := amount;
      WrapTwice(rest - f.amountSpent, -a);
      WrapIdentity(GetBalance(f) - amount);
      var k := (f.amountSpent + amount) / TWO_TO_THE_64;
      assert rest - f.amountSpent - amount == rest - spent' + (-k) * TWO_TO_THE_64;
      WrapShift(rest - spent', -k);
    }
  }

  // ---------- withdrawals ----------

  const FEE_BYTES: nat := 2_000

  datatype TransferReq = TransferReq(username: Bytes, dst: Bytes, amt: u64, addrIndex: nat)

  datatype Withdrawal =
    | BadLogin | NoFee | BelowMinimum | NoRecord | LowBalance | NegativeAfterFees | NoAddress
    | Queued(req: TransferReq, feeTaken: u64)

  function NetFee(feePerByte: u64): u64 {
    Wrap(feePerByte * FEE_BYTES)
  }

  function ServiceFee(amt: u64): u64 {
    2 * (amt / 100)
  }

  /** The withdrawal handler up to the request it puts in the channel. */
  function Withdraw(loginOk: bool, feePerByte: Option<u64>, info: Option<FinancialInfo>, username: Bytes, amt: u64)
    : Withdrawal
  {
    if !loginOk then BadLogin
    else if feePerByte.None? then NoFee
    else
      var netFee := NetFee(feePerByte.value);
      var minAmt := Wrap(netFee * 5);
      if amt < minAmt then BelowMinimum
      else if info.None? then NoRecord
      else if GetBalance(info.value) < minAmt then LowBalance
      else if amt < Wrap(netFee + ServiceFee(amt)) then NegativeAfterFees
      else if info.value.xmrAddr.None? then NoAddress
      else Queued(
          TransferReq(username, info.value.xmrAddr.value, amt - Wrap(netFee + ServiceFee(amt)),
                      info.value.transfers.addrIndex),
          Wrap(ServiceFee(amt) + netFee))
  }

  /** With a network fee whose minimum, five times 2,000 bytes, fits 64 bits, every
      outcome has its condition, and amounts after fees are never negative. */
  lemma WithdrawalOutcome(loginOk: bool, feePerByte: Option<u64>, info: Option<FinancialInfo>, username: Bytes,
                          amt: u64)
    requires feePerByte.Some? ==> feePerByte.value * 10_000 < TWO_TO_THE_64
    ensures var w := Withdraw(loginOk, feePerByte, info, username, amt);
            var min := if feePerByte.Some? then feePerByte.value * 10_000 else 0;
            var enough := loginOk && feePerByte.Some? && amt >= min;
            var covered := enough && info.Some? && GetBalance(info.value) >= min;
            && (w.BadLogin? <==> !loginOk)
            && (w.NoFee? <==> loginOk && feePerByte.None?)
            && (w.BelowMinimum? <==> loginOk && feePerByte.Some? && amt < min)
            && (w.NoRecord? <==> enough && info.None?)
            && (w.LowBalance? <==> enough && info.Some? && !covered)
            && !w.NegativeAfterFees?
            && (w.NoAddress? <==> covered && info.value.xmrAddr.None?)
            && (w.Queued? <==> covered && info.value.xmrAddr.Some?)
  {
    if feePerByte.Some? {
      WithdrawalArithmetic(loginOk, feePerByte.value, info, username, amt);
      WrapIdentity(feePerByte.value * 2_000);
      WrapIdentity(feePerByte.value * 2_000 * 5);
    }
  }

  /** A withdrawal is queued exactly when amount and balance both reach the minimum
      and an address is known; what is sent and what is kept, the network fee and two
      percent, add up to the request, and at least 78 percent of it is sent. */
  lemma WithdrawalArithmetic(loginOk: bool, feePerByte: u64, info: Option<FinancialInfo>, username: Bytes, amt: u64)
    requires feePerByte * 10_000 < TWO_TO_THE_64
    ensures var w := Withdraw(loginOk, Some(feePerByte), info, username, amt);
            var min := feePerByte * 10_000;
            && !w.NegativeAfterFees?
            && (w.Queued? <==>
                  loginOk && amt >= min && info.Some? && GetBalance(info.value) >= min && info.value.xmrAddr.Some?)
            && (w.Queued? ==>
                  && w.req.amt + w.feeTaken == amt
                  && w.feeTaken == feePerByte * 2_000 + 2 * (amt / 100)
                  && 50 * w.req.amt >= 39 * amt
                  && w.req.username == username && w.req.addrIndex == info.value.transfers.addrIndex
                  && info.value.xmrAddr == Some(w.req.dst))
  {
    var net := feePerByte * FEE_BYTES;
    WrapIdentity(net);
    WrapIdentity(net * 5);
    if amt >= net * 5 {
      WrapIdentity(net + ServiceFee(amt));
    }
  }

  /** The fees exceed the amount, in wrapping arithmetic. */
  predicate FeesExceed(netFee: u64, amt: u64) {
    amt < Wrap(netFee + ServiceFee(amt))
  }

  /** A wrapped fee sum never exceeds the amount. */
  lemma FeesExceedPlainly(netFee: u64, amt: u64)
    ensures FeesExceed(netFee, amt) <==> netFee + ServiceFee(amt) < TWO_TO_THE_64 && amt < netFee + ServiceFee(amt)
  {
    if netFee + ServiceFee(amt) < TWO_TO_THE_64 {
      WrapIdentity(netFee + ServiceFee(amt));
    } else {
      assert Wrap(netFee + ServiceFee(amt)) == netFee + ServiceFee(amt) - TWO_TO_THE_64;
    }
  }

  /** Some amount from `min` on is exceeded by its fees: `min` itself, or the next
      multiple of 100, where another service fee falls due. */
  predicate SomeExceeds(netFee: u64, min: u64) {
    FeesExceed(netFee, min) || (min % 100 == 99 && FeesExceed(netFee, min + 1))
  }

  /** What is left after the service fee grows with the amount but for one step. */
  lemma LeastLeft(min: u64, amt: u64)
    requires min <= amt
    ensures ServiceFee(min) <= ServiceFee(amt)
    ensures min - ServiceFee(min) <= amt - ServiceFee(amt)
         || (min % 100 == 99 && min < amt && ServiceFee(min + 1) <= ServiceFee(amt)
             && min + 1 - ServiceFee(min + 1) <= amt - ServiceFee(amt))
  {
    assert min == 100 * (min / 100) + min % 100 && amt == 100 * (amt / 100) + amt % 100;
    if min % 100 == 99 && min < amt {
      assert (min + 1) / 100 == min / 100 + 1;
    }
  }

  lemma SomeExceedsExactly(netFee: u64, min: u64)
    ensures SomeExceeds(netFee, min) <==> exists amt: u64 :: min <= amt && FeesExceed(netFee, amt)
  {
    if amt: u64 :| min <= amt && FeesExceed(netFee, amt) {
      LeastLeft(min, amt);
      FeesExceedPlainly(netFee, amt);
      FeesExceedPlainly(netFee, min);
      if min % 100 == 99 {
        FeesExceedPlainly(netFee, min + 1);
      }
    }
  }

  /** One withdrawal, once login and fee are in order and the record is there. */
  lemma RefusedAsNegative(feePerByte: u64, info: FinancialInfo, username: Bytes, amt: u64)
    ensures Withdraw(true, Some(feePerByte), Some(info), username, amt).NegativeAfterFees?
       <==> var netFee := NetFee(feePerByte);
            Wrap(netFee * 5) <= amt && Wrap(netFee * 5) <= GetBalance(info) && FeesExceed(netFee, amt)
  {
  }

  lemma AmpleBalance(min: u64) returns (info: FinancialInfo)
    ensures GetBalance(info) == min
  {
    info := NewInfo(0).(balance := min);
    WrapIdentity(0);
    WrapIdentity(min);
  }

  /** For every fee: some withdrawal is refused as negative after fees exactly when
      the wrapped minimum, or the next multiple of 100, is below its own fees. */
  lemma NegativeBranchExactly(feePerByte: u64, username: Bytes)
    ensures (exists amt: u64, info: FinancialInfo ::
               Withdraw(true, Some(feePerByte), Some(info), username, amt).NegativeAfterFees?)
       <==> SomeExceeds(NetFee(feePerByte), Wrap(NetFee(feePerByte) * 5))
  {
    var netFee: int := NetFee(feePerByte);
    var min := Wrap(netFee * 5);
    SomeExceedsExactly(netFee, min);
    if amt: u64, info: FinancialInfo :| Withdraw(true, Some(feePerByte), Some(info), username, amt).NegativeAfterFees? {
      RefusedAsNegative(feePerByte, info, username, amt);
    }
    if amt: u64 :| min <= amt && FeesExceed(netFee, amt) {
      var info := AmpleBalance(min);
      RefusedAsNegative(feePerByte, info, username, amt);
    }
  }

  /** Such a fee: five times the network fee wraps to 8384, less than the network
      fee itself. */
  lemma NegativeBranchReached(info: FinancialInfo, username: Bytes)
    requires GetBalance(info) >= 8384
    ensures Withdraw(true, Some(1_844_674_407_370_956), Some(info), username, 10_000).NegativeAfterFees?
  {
    assert NetFee(1_844_674_407_370_956) == 3_689_348_814_741_912_000;
    assert Wrap(3_689_348_814_741_912_000 * 5) == 8384;
  }

  /** What the balance later recovers as the service fee of a withdrawal is the
      fee charged plus one for each 49 in the odd amount and the fee difference. */
  lemma RecoveredVersusCharged(amt: u64, estimate: u64, actual: u64)
    requires estimate + ServiceFee(amt) <= amt
    requires amt - (estimate + ServiceFee(amt)) + actual < TWO_TO_THE_64
    ensures var sent := amt - (estimate + ServiceFee(amt));
            var odd := amt % 100 + actual - estimate;
            && RecoveredFee(sent, actual) == ServiceFee(amt) + odd / 49
            && (RecoveredFee(sent, actual) == ServiceFee(amt) <==> 0 <= odd < 49)
  {
    var sent := amt - (estimate + ServiceFee(amt));
    var odd := amt % 100 + actual - estimate;
    WrapIdentity(sent + actual);
    assert amt == 100 * (amt / 100) + amt % 100;
    assert sent + actual == 49 * ServiceFee(amt) + odd;
    assert (49 * ServiceFee(amt) + odd) / 49 == ServiceFee(amt) + odd / 49;
  }

  /** When the transfer costs what was estimated, the recovered fee is the charged
      one plus 0, 1 or 2, and equals it exactly below 49 odd piconero: the
      algebra in the source's comment holds up to this rounding. */
  lemma RecoveredFeeRounding(amt: u64, fee: u64)
    requires fee + ServiceFee(amt) <= amt
    ensures var sent := amt - (fee + ServiceFee(amt));
            && ServiceFee(amt) <= RecoveredFee(sent, fee) <= ServiceFee(amt) + 2
            && (RecoveredFee(sent, fee) == ServiceFee(amt) <==> amt % 100 < 49)
  {
    RecoveredVersusCharged(amt, fee, fee);
  }

  /** The comment's claim fails at a usual network fee: of 50,000,049 piconero
      1,000,000 are charged and 1,000,001 recovered. */
  lemma CommentIsInexact()
    ensures var fee := 4157 * FEE_BYTES;
            ServiceFee(50_000_049) == 1_000_000 && RecoveredFee(50_000_049 - 1_000_000 - fee, fee) == 1_000_001
  {
    WrapIdentity(49_000_049);
  }
}
