/** The paid creation of catalogue items, and the ledger it leaves behind. */
module Spending {
  import opened Common
  import opened Uploads
  import opened Money
  import Catalogue

  datatype CreateReq = CreateReq(
    captchaOk: bool, username: Bytes, loginOk: bool, title: Bytes, compressedSize: nat, uploadId: Digest)

  datatype Outcome = BadCaptcha | BadLogin | LowBalance(balance: u64) | TooLarge | Created(id: nat) | Panicked

  datatype Shop = Shop(
    money: map<Bytes, FinancialInfo>, software: map<nat, Item>, uploadIds: map<Digest, nat>, nextId: nat)

  /** The handler as a whole. */
  function Create(s: Shop, req: CreateReq): (Shop, Outcome) {
    if !req.captchaOk then (s, BadCaptcha)
    else if !req.loginOk then (s, Outcome.BadLogin)
    else if req.username !in s.money then (s, Panicked)
    else
      var (info, r) := Spent(s.money[req.username], PRICE);
      if r.Err? then (s, Outcome.LowBalance(r.balance))
      else
        var paid := s.(money := s.money[req.username := info]);
        if req.compressedSize > MAX_COMPRESSED_SIZE then (paid, TooLarge)
        else
          var item := Catalogue.NewItem(s.nextId, req.title, req.username, req.compressedSize);
          (paid.(software := s.software[s.nextId := item],
                 uploadIds := s.uploadIds[req.uploadId := s.nextId],
                 nextId := s.nextId + 1),
           Created(s.nextId))
  }

  class ShopTrees {
    var money: map<Bytes, FinancialInfo>
    var software: map<nat, Item>
    var uploadIds: map<Digest, nat>
    var nextId: nat

    function View(): Shop
      reads this
    {
      Shop(money, software, uploadIds, nextId)
    }

    method NewSoftware(req: CreateReq) returns (outcome: Outcome)
      modifies this
      ensures (View(), outcome) == Create(old(View()), req)
    {
      if !req.captchaOk {
        return BadCaptcha;
      }
      if !req.loginOk {
        return Outcome.BadLogin;
      }
      if req.username !in money {
        return Panicked;
      }
      var info, r := SpendMoney(money[req.username], PRICE);
      if r.Err? {
        return Outcome.LowBalance(r.balance);
      }
      money := money[req.username := info];
      if req.compressedSize > MAX_COMPRESSED_SIZE {
        return TooLarge;
      }
      var id := nextId;
      nextId := nextId + 1;
      software := software[id := Catalogue.NewItem(id, req.title, req.username, req.compressedSize)];
      uploadIds := uploadIds[req.uploadId := id];
      outcome := Created(id);
    }
  }

  // ---------- what a creation does ----------

  /** No id of the catalogue has reached the counter. */
  predicate IdsBelow(s: Shop) {
    forall id :: id in s.software ==> id < s.nextId
  }

  /** The outcomes of a creation: a wrong captcha, a wrong login, a missing record,
      a low balance, a size above 10,485,760, or a new item. */
  lemma CreationOutcome(s: Shop, req: CreateReq)
    ensures var o := Create(s, req).1;
            var authorised := req.captchaOk && req.loginOk;
            var known := authorised && req.username in s.money;
            var paid := known && GetBalance(s.money[req.username]) >= 4_271_880_000;
            && (o.BadCaptcha? <==> !req.captchaOk)
            && (o.BadLogin? <==> req.captchaOk && !req.loginOk)
            && (o.Panicked? <==> authorised && !known)
            && (o.LowBalance? <==> known && !paid)
            && (o.LowBalance? ==> o.balance == GetBalance(s.money[req.username]))
            && (o.TooLarge? <==> paid && req.compressedSize > 10_485_760)
            && (o.Created? <==> paid && req.compressedSize <= 10_485_760)
            && (!paid ==> Create(s, req).0 == s)
  {
  }

  /** Whoever is not refused pays the price, even for an item that is too large;
      nothing else changes in the money tree. */
  lemma CreationPays(s: Shop, req: CreateReq)
    requires Create(s, req).1.TooLarge? || Create(s, req).1.Created?
    ensures var s' := Create(s, req).0;
            && s'.money.Keys == s.money.Keys
            && (forall u :: u in s.money && u != req.username ==> s'.money[u] == s.money[u])
            && req.username in s.money
            && GetBalance(s'.money[req.username]) == GetBalance(s.money[req.username]) - 4_271_880_000
            && (Create(s, req).1.TooLarge? ==> s'.software == s.software && s'.uploadIds == s.uploadIds)
  {
    SpendIsExact(s.money[req.username], PRICE);
  }

  /** A created item is new, is what was asked for, and is what its upload id leads
      to; no other entry of the two trees changes. */
  lemma CreatedExactly(s: Shop, req: CreateReq)
    requires IdsBelow(s) && Create(s, req).1.Created?
    ensures var (s', o) := Create(s, req);
            && o.id == s.nextId && o.id !in s.software && s'.nextId == s.nextId + 1 && IdsBelow(s')
            && s'.software.Keys == s.software.Keys + {o.id}
            && s'.software[o.id].id == o.id && s'.software[o.id].title == req.title
            && s'.software[o.id].creator == req.username
            && s'.software[o.id].compressedSize == req.compressedSize
            && s'.software[o.id].files == map[] && s'.software[o.id].creationTime.None?
            && (forall id :: id in s.software ==> s'.software[id] == s.software[id])
            && s'.uploadIds == s.uploadIds[req.uploadId := o.id]
  {
  }

  /** In every reachable state ids are below the counter, so no creation overwrites. */
  lemma {:induction false} IdsStayBelow(events: seq<Event>)
    ensures IdsBelow(Run(events))
  {
    if events == [] {
    } else {
      IdsStayBelow(events[..|events| - 1]);
    }
  }

  // ---------- whole runs ----------

  /** Handlers taken one at a time. `Refresh` stands for every other handler: it
      rewrites a record in any way that leaves the amount spent alone. */
  datatype Event =
    | Register(user: Bytes, addrIndex: nat)
    | Deposit(user: Bytes, amount: nat)
    | Buy(req: CreateReq)
    | Refresh(user: Bytes, info: FinancialInfo)

  function Step(s: Shop, e: Event): Shop {
    match e
    case Register(user, addrIndex) =>
      if user in s.money then s else s.(money := s.money[user := NewInfo(addrIndex)])
    case Deposit(user, amount) =>
      if user in s.money && s.money[user].balance + amount < TWO_TO_THE_64
      then s.(money := s.money[user := s.money[user].(balance := s.money[user].balance + amount)])
      else s
    case Buy(req) => Create(s, req).0
    case Refresh(user, info) =>
      if user in s.money then s.(money := s.money[user := info.(amountSpent := s.money[user].amountSpent)]) else s
  }

  function Run(events: seq<Event>): Shop {
    if events == [] then Shop(map[], map[], map[], 0)
    else Step(Run(events[..|events| - 1]), events[|events| - 1])
  }

  /** How often a user has paid for an item that was then refused as too large. */
  function Refused(events: seq<Event>, user: Bytes): nat {
    if events == [] then 0
    else
      var before, e := events[..|events| - 1], events[|events| - 1];
      Refused(before, user)
      + if e.Buy? && e.req.username == user && Create(Run(before), e.req).1.TooLarge? then 1 else 0
  }

  function ItemsBy(software: map<nat, Item>, user: Bytes): set<nat> {
    set id | id in software && software[id].creator == user
  }

  ghost predicate LedgerOk(s: Shop, user: Bytes, refused: nat) {
    && (forall id :: id in s.software ==> id < s.nextId)
    && (user !in s.money ==> ItemsBy(s.software, user) == {} && refused == 0)
    && (user in s.money ==> s.money[user].amountSpent == Wrap(PRICE * (|ItemsBy(s.software, user)| + refused)))
  }

  lemma OneMore(n: nat)
    ensures Wrap(Wrap(PRICE * n) + PRICE) == Wrap(PRICE * (n + 1))
  {
    WrapTwice(PRICE * n, PRICE);
    assert PRICE * (n + 1) == PRICE * n + PRICE;
  }

  lemma CreatedKeepsLedger(s: Shop, req: CreateReq, user: Bytes, refused: nat)
    requires LedgerOk(s, user, refused) && Create(s, req).1.Created?
    ensures LedgerOk(Create(s, req).0, user, refused)
  {
    var s' := Create(s, req).0;
    var mine := ItemsBy(s.software, user);
    if req.username == user {
      assert ItemsBy(s'.software, user) == mine + {s.nextId};
      assert s.nextId !in mine;
      OneMore(|mine| + refused);
    } else {
      assert ItemsBy(s'.software, user) == mine;
    }
  }

  lemma CreateKeepsLedger(s: Shop, req: CreateReq, user: Bytes, refused: nat)
    requires LedgerOk(s, user, refused)
    ensures var (s', o) := Create(s, req);
            LedgerOk(s', user, refused + if req.username == user && o.TooLarge? then 1 else 0)
  {
    var (s', o) := Create(s, req);
    if o.Created? {
      CreatedKeepsLedger(s, req, user, refused);
    } else {
      assert s'.software == s.software;
      if o.TooLarge? && req.username == user {
        OneMore(|ItemsBy(s.software, user)| + refused);
      }
    }
  }

  lemma {:induction false} LedgerKept(events: seq<Event>, user: Bytes)
    ensures LedgerOk(Run(events), user, Refused(events, user))
  {
    if events == [] {
    } else {
      var before, e := events[..|events| - 1], events[|events| - 1];
      LedgerKept(before, user);
      match e
      case Buy(req) => CreateKeepsLedger(Run(before), req, user, Refused(before, user));
      case _ => assert Refused(events, user) == Refused(before, user);
    }
  }

  /** Whatever else happens, what a user has spent is the price times the items
      the user created and the creations refused as too large. */
  lemma SpentIsCreations(events: seq<Event>, user: Bytes)
    requires user in Run(events).money
    ensures Run(events).money[user].amountSpent
         == Wrap(PRICE * (|ItemsBy(Run(events).software, user)| + Refused(events, user)))
  {
    LedgerKept(events, user);
  }

  /** Only registrations, deposits and purchases. */
  ghost predicate DepositsAndSpends(events: seq<Event>) {
    forall e :: e in events ==> !e.Refresh?
  }

  ghost predicate Solvent(f: FinancialInfo) {
    f.serviceFeeTotal == 0 && f.transfers.transfersOut == [] && f.amountSpent <= f.balance
  }

  lemma SolventBalance(f: FinancialInfo)
    requires Solvent(f)
    ensures GetBalance(f) == f.balance - f.amountSpent
  {
    WrapIdentity(0);
    WrapIdentity(f.balance);
    WrapIdentity(f.balance - f.amountSpent);
  }

  lemma SpendStaysSolvent(f: FinancialInfo)
    requires Solvent(f)
    ensures Solvent(Spent(f, PRICE).0)
  {
    SolventBalance(f);
    if GetBalance(f) >= PRICE {
      WrapIdentity(f.amountSpent + PRICE);
    }
  }

  lemma {:induction false} SolventKept(events: seq<Event>)
    requires DepositsAndSpends(events)
    ensures forall user :: user in Run(events).money ==> Solvent(Run(events).money[user])
  {
    if events == [] {
    } else {
      var before, e := events[..|events| - 1], events[|events| - 1];
      SolventKept(before);
      assert e in events;
      if e.Buy? && e.req.username in Run(before).money {
        SpendStaysSolvent(Run(before).money[e.req.username]);
      }
    }
  }

  /** With deposits and spends alone a balance is never negative: no user's record
      wraps, and the balance shown is what was deposited less what was spent. */
  lemma BalancesNeverUnderflow(events: seq<Event>, user: Bytes)
    requires DepositsAndSpends(events) && user in Run(events).money
    ensures var f := Run(events).money[user];
            f.amountSpent <= f.balance && GetBalance(f) == f.balance - f.amountSpent
  {
    SolventKept(events);
    SolventBalance(Run(events).money[user]);
  }
}
