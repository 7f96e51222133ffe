/** Registration, login, cookies and captchas, with the tree accesses of any
    number of calls and of the expiry sweeps interleaved. */
module Accounts {
  import opened Common
  import opened Frames

  /** Text and hashing, left uninterpreted: `lower` is `to_lowercase`, `alnum` is
      "every character is alphanumeric". */
  datatype Env = Env(text: Text, lower: Bytes -> Bytes, alnum: Bytes -> bool, hash: Bytes -> Digest)

  predicate AsciiAlnum(b: byte) {
    48 <= b <= 57 || 65 <= b <= 90 || 97 <= b <= 122
  }

  /** What `thread_rng` with the alphanumeric distribution yields. */
  predicate CookieText(c: Bytes) {
    |c| == COOKIE_LEN && forall b :: b in c ==> AsciiAlnum(b)
  }

  /** Alphanumeric text is text, and the NUL character is not alphanumeric. */
  ghost predicate Lawful(env: Env) {
    && (forall s :: env.alnum(s) ==> env.text.valid(s) && NoNul(s))
    && (forall c :: CookieText(c) ==> env.text.valid(c))
  }

  const MIN_USER_LEN: nat := 4
  const MAX_USER_LEN: nat := 50

  function Ascii(s: string): Bytes {
    seq(|s|, i requires 0 <= i < |s| => (s[i] as int % 256) as byte)
  }

  function Reserved(): set<Bytes> {
    {Ascii("admin"), Ascii("root"), Ascii("0xd34db33f"), Ascii("d34db33f")}
  }

  datatype InvalidUser = UsernameLenIncorrect | NotAlphanumeric | ReservedUsername

  function InvalidUserReason(env: Env, username: Bytes): (r: Option<InvalidUser>)
    ensures r.None? ==> MIN_USER_LEN <= |username| <= MAX_USER_LEN && env.alnum(username)
  {
    if |username| < MIN_USER_LEN || |username| > MAX_USER_LEN then Some(UsernameLenIncorrect)
    else if !env.alnum(username) then Some(NotAlphanumeric)
    else if env.lower(username) in Reserved() then Some(ReservedUsername)
    else None
  }

  datatype User = User(salt: Digest, hashedPassword: Digest)
  datatype Cookie = Cookie(cookie: Bytes, expirationTime: nat)
  datatype Captcha = Captcha(answer: Bytes, expirationTime: nat)

  function HashPassword(env: Env, password: Bytes, salt: Digest): Digest {
    env.hash(password + salt)
  }

  /** The captcha hash of a request after hex decoding. */
  datatype HexField = BadHex | WrongLength | Hash(hash: Digest)

  datatype AuthRequest = AuthRequest(username: Bytes, password: Bytes, captchaHash: HexField, answer: Bytes)

  // ---------- the calls, step by step ----------

  /** Where a call stands: the tree access or outside call it makes next. */
  datatype Call =
    | RegisterLookup(req: AuthRequest)
    | LoginLookup(req: AuthRequest)
    | CaptchaLookup(user: Bytes, password: Bytes, hash: Digest, answer: Bytes, account: Option<User>)
    | CaptchaRemove(user: Bytes, password: Bytes, hash: Digest, account: Option<User>)
    | CreateAddress(user: Bytes, password: Bytes)
    | InsertUser(user: Bytes, record: User)
    | InsertMoney(user: Bytes)
    | VerifyPassword(user: Bytes, password: Bytes, record: User)
    | CheckUser(user: Bytes)
    | InsertCookie(user: Bytes)
    | Finished | Denied | Panicked

  /** `money` are the users with a financial record. `inserted` and `passed` count,
      per captcha, its insertions and the calls it let through. */
  datatype State = State(
    auth: map<Bytes, User>, money: set<Bytes>, cookies: map<Bytes, Cookie>, captchas: map<Digest, Captcha>,
    calls: map<nat, Call>, sweeping: Option<Digest>, expiring: Option<Bytes>,
    inserted: multiset<Digest>, passed: multiset<Digest>)

  /** What a call learns from outside: does the wallet give it an address, the
      random salt and cookie, and the clock. */
  datatype Outside = Outside(addressOk: bool, salt: Digest, cookie: Bytes, now: nat)

  datatype Event =
    | Begin(call: nat, call0: Call)
    | Advance(call: nat, out: Outside)
    | CreateCaptcha(hash: Digest, answer: Bytes, now: nat)
    // the sweeps: notice an expired entry, then remove it
    | SeeCaptcha(hash: Digest, now: nat)
    | RemoveCaptcha
    | SeeCookie(user: Bytes, now: nat)
    | RemoveCookie
    | Restart

  const NINETY_DAYS: nat := 7_776_000
  const CAPTCHA_LIFE: nat := 300

  function Start(): State {
    State(map[], {}, map[], map[], map[], None, None, multiset{}, multiset{})
  }

  /** After the lookup of a registration: the checks that need no tree. */
  function RegisterChecks(env: Env, user: Bytes, req: AuthRequest): Call {
    if req.captchaHash.BadHex? then Denied
    else if InvalidUserReason(env, user).Some? then Denied
    else if req.captchaHash.WrongLength? then Call.Panicked
    else CaptchaLookup(user, req.password, req.captchaHash.hash, req.answer, None)
  }

  function SetCall(s: State, k: nat, c: Call): State {
    s.(calls := s.calls[k := c])
  }

  /** One tree access of call `k`, which stands at `c`. */
  function AdvanceCall(env: Env, s: State, k: nat, c: Call, out: Outside): State {
    match c
    case RegisterLookup(req) =>
      var user := env.lower(req.username);
      SetCall(s, k, if user in s.auth then Denied else RegisterChecks(env, user, req))
    case LoginLookup(req) =>
      var user := env.lower(req.username);
      SetCall(s, k, if user !in s.auth then Denied
                    else if !req.captchaHash.Hash? then Call.Panicked
                    else CaptchaLookup(user, req.password, req.captchaHash.hash, req.answer, Some(s.auth[user])))
    case CaptchaLookup(user, password, hash, answer, account) =>
      SetCall(s, k, if hash in s.captchas && s.captchas[hash].answer == answer
                    then CaptchaRemove(user, password, hash, account) else Denied)
    case CaptchaRemove(user, password, hash, account) =>
      if hash !in s.captchas then SetCall(s, k, Call.Panicked)
      else
        SetCall(s.(captchas := s.captchas - {hash}, passed := s.passed + multiset{hash}), k,
                if account.Some? then VerifyPassword(user, password, account.value) else CreateAddress(user, password))
    case CreateAddress(user, password) =>
      SetCall(s, k, if out.addressOk then InsertUser(user, User(out.salt, HashPassword(env, password, out.salt)))
                    else Denied)
    case InsertUser(user, account) =>
      SetCall(s.(auth := s.auth[user := account]), k, InsertMoney(user))
    case InsertMoney(user) =>
      SetCall(s.(money := s.money + {user}), k, CheckUser(user))
    case VerifyPassword(user, password, account) =>
      SetCall(s, k, if HashPassword(env, password, account.salt) == account.hashedPassword then CheckUser(user)
                    else Denied)
    case CheckUser(user) =>
      SetCall(s, k, if user in s.auth then InsertCookie(user) else Denied)
    case InsertCookie(user) =>
      if CookieText(out.cookie)
      then SetCall(s.(cookies := s.cookies[user := Cookie(out.cookie, out.now + NINETY_DAYS)]), k, Finished)
      else s
    case _ => s
  }

  function Step(env: Env, s: State, e: Event): State {
    match e
    case Begin(k, call) =>
      if k !in s.calls && (call.RegisterLookup? || call.LoginLookup?) then SetCall(s, k, call) else s
    case Advance(k, out) =>
      if k in s.calls then AdvanceCall(env, s, k, s.calls[k], out) else s
    case CreateCaptcha(hash, answer, now) =>
      s.(captchas := s.captchas[hash := Captcha(answer, now + CAPTCHA_LIFE)], inserted := s.inserted + multiset{hash})
    case SeeCaptcha(hash, now) =>
      if s.sweeping.None? && hash in s.captchas && now > s.captchas[hash].expirationTime
      then s.(sweeping := Some(hash)) else s
    case RemoveCaptcha =>
      // The removal is unwrapped: if a call was faster the sweep thread panics.
      if s.sweeping.Some? && s.sweeping.value in s.captchas
      then s.(captchas := s.captchas - {s.sweeping.value}, sweeping := None) else s
    case SeeCookie(user, now) =>
      if s.expiring.None? && user in s.cookies && now > s.cookies[user].expirationTime
      then s.(expiring := Some(user)) else s
    case RemoveCookie =>
      if s.expiring.Some? then s.(cookies := s.cookies - {s.expiring.value}, expiring := None) else s
    case Restart => s.(calls := map[], sweeping := None, expiring := None)
  }

  function Run(env: Env, events: seq<Event>): State {
    if events == [] then Start()
    else Step(env, Run(env, events[..|events| - 1]), events[|events| - 1])
  }

  // ---------- captchas ----------

  function Present(s: State, h: Digest): nat {
    if h in s.captchas then 1 else 0
  }

  lemma AdvanceKeepsCaptchas(env: Env, s: State, k: nat, c: Call, out: Outside, h: Digest)
    requires s.passed[h] + Present(s, h) <= s.inserted[h]
    ensures var s' := AdvanceCall(env, s, k, c, out);
            s'.passed[h] + Present(s', h) <= s'.inserted[h]
  {
  }

  lemma OtherStepKeepsCaptchas(env: Env, s: State, e: Event, h: Digest)
    requires s.passed[h] + Present(s, h) <= s.inserted[h] && !e.Advance?
    ensures var s' := Step(env, s, e);
            s'.passed[h] + Present(s', h) <= s'.inserted[h]
  {
  }

  lemma {:induction false} CaptchasKept(env: Env, events: seq<Event>, h: Digest)
    ensures var s := Run(env, events); s.passed[h] + Present(s, h) <= s.inserted[h]
  {
    if events == [] {
    } else {
      var before, e := events[..|events| - 1], events[|events| - 1];
      CaptchasKept(env, before, h);
      var s := Run(env, before);
      if !e.Advance? {
        OtherStepKeepsCaptchas(env, s, e, h);
      } else if e.call in s.calls {
        AdvanceKeepsCaptchas(env, s, e.call, s.calls[e.call], e.out, h);
      }
    }
  }

  /** However lookups and removals interleave, a captcha lets through no more calls
      than it was inserted times, because only a successful removal lets one pass. */
  lemma CaptchaUsedOnce(env: Env, events: seq<Event>, h: Digest)
    ensures Run(env, events).passed[h] <= Run(env, events).inserted[h]
  {
    CaptchasKept(env, events, h);
  }

  /** A captcha lives for five minutes: no sweep notices it before. */
  lemma CaptchaLives(env: Env, s: State, hash: Digest, answer: Bytes, now: nat, later: nat)
    ensures var s' := Step(env, s, CreateCaptcha(hash, answer, now));
            && hash in s'.captchas && s'.captchas[hash].answer == answer
            && (s'.sweeping.None? && later <= now + 300 ==> Step(env, s', SeeCaptcha(hash, later)).sweeping.None?)
            && (s'.sweeping.None? && later > now + 300 ==>
                  Step(env, s', SeeCaptcha(hash, later)).sweeping == Some(hash))
  {
  }

  /** A cookie lives for ninety days: no sweep notices it before. */
  lemma CookieLives(env: Env, s: State, k: nat, out: Outside, later: nat)
    requires k in s.calls && s.calls[k].InsertCookie? && CookieText(out.cookie) && s.expiring.None?
    ensures var user := s.calls[k].user;
            var s' := Step(env, s, Advance(k, out));
            && user in s'.cookies && s'.cookies[user].cookie == out.cookie
            && Step(env, s', SeeCookie(user, later)).expiring
               == if later > out.now + 7_776_000 then Some(user) else None
  {
  }

  // ---------- accounts, money records, cookies ----------

  /** A registration of `user` is between its two inserts. */
  predicate BetweenInserts(s: State, user: Bytes) {
    exists k :: k in s.calls && s.calls[k] == InsertMoney(user)
  }

  /** The name is one that passed the checks of a registration. */
  predicate GoodName(env: Env, user: Bytes) {
    MIN_USER_LEN <= |user| <= MAX_USER_LEN && env.alnum(user)
  }

  predicate CallOk(env: Env, s: State, c: Call) {
    match c
    case CaptchaLookup(user, _, _, _, account) => if account.None? then GoodName(env, user) else user in s.auth
    case CaptchaRemove(user, _, _, account) => if account.None? then GoodName(env, user) else user in s.auth
    case CreateAddress(user, _) => GoodName(env, user)
    case InsertUser(user, _) => GoodName(env, user)
    case InsertMoney(user) => user in s.auth
    case VerifyPassword(user, _, _) => user in s.auth
    case CheckUser(user) => user in s.auth
    case InsertCookie(user) => user in s.auth
    case _ => true
  }

  predicate TreesOk(env: Env, s: State) {
    && (forall u :: u in s.auth ==> GoodName(env, u))
    && s.money <= s.auth.Keys
    && s.cookies.Keys <= s.auth.Keys
    && (forall u :: u in s.cookies ==> CookieText(s.cookies[u].cookie))
  }

  predicate Ok(env: Env, s: State) {
    TreesOk(env, s) && forall k :: k in s.calls ==> CallOk(env, s, s.calls[k])
  }

  lemma AdvanceKeepsTrees(env: Env, s: State, k: nat, c: Call, out: Outside)
    requires TreesOk(env, s) && CallOk(env, s, c)
    ensures var s' := AdvanceCall(env, s, k, c, out);
            TreesOk(env, s') && s.auth.Keys <= s'.auth.Keys
  {
  }

  lemma AdvanceKeepsCall(env: Env, s: State, k: nat, c: Call, out: Outside)
    requires CallOk(env, s, c) && k in s.calls && s.calls[k] == c
    ensures var s' := AdvanceCall(env, s, k, c, out);
            && k in s'.calls && CallOk(env, s', s'.calls[k])
            && s'.calls == s.calls[k := s'.calls[k]]
  {
  }

  lemma CallStands(env: Env, s: State, s': State, c: Call)
    requires CallOk(env, s, c) && s.auth.Keys <= s'.auth.Keys
    ensures CallOk(env, s', c)
  {
  }

  lemma AdvanceKeeps(env: Env, s: State, k: nat, out: Outside)
    requires Ok(env, s) && k in s.calls
    ensures Ok(env, AdvanceCall(env, s, k, s.calls[k], out))
  {
    var s' := AdvanceCall(env, s, k, s.calls[k], out);
    AdvanceKeepsTrees(env, s, k, s.calls[k], out);
    AdvanceKeepsCall(env, s, k, s.calls[k], out);
    forall j | j in s'.calls ensures CallOk(env, s', s'.calls[j]) {
      if j != k {
        CallStands(env, s, s', s.calls[j]);
      }
    }
  }

  lemma OtherStepKeeps(env: Env, s: State, e: Event)
    requires Ok(env, s) && !e.Advance?
    ensures Ok(env, Step(env, s, e))
  {
  }

  lemma StepKeeps(env: Env, s: State, e: Event)
    requires Ok(env, s)
    ensures Ok(env, Step(env, s, e))
  {
    if !e.Advance? {
      OtherStepKeeps(env, s, e);
    } else if e.call in s.calls {
      AdvanceKeeps(env, s, e.call, e.out);
    }
  }

  lemma {:induction false} RunKeeps(env: Env, events: seq<Event>)
    ensures Ok(env, Run(env, events))
  {
    if events == [] {
    } else {
      RunKeeps(env, events[..|events| - 1]);
      StepKeeps(env, Run(env, events[..|events| - 1]), events[|events| - 1]);
    }
  }

  ghost predicate NoRestart(events: seq<Event>) {
    forall e :: e in events ==> !e.Restart?
  }

  /** Every account has a money record or is about to get one. */
  predicate Funded(s: State) {
    forall u :: u in s.auth ==> u in s.money || BetweenInserts(s, u)
  }

  lemma AdvanceFunds(env: Env, s: State, k: nat, out: Outside)
    requires Funded(s) && k in s.calls
    ensures Funded(AdvanceCall(env, s, k, s.calls[k], out))
  {
    var c := s.calls[k];
    var s' := AdvanceCall(env, s, k, c, out);
    forall u | u in s'.auth ensures u in s'.money || BetweenInserts(s', u) {
      if c.InsertUser? && u == c.user {
        assert s'.calls[k] == InsertMoney(u);
      } else {
        assert u in s.auth;
        if u !in s.money && !(c.InsertMoney? && c.user == u) {
          var j :| j in s.calls && s.calls[j] == InsertMoney(u);
          assert s'.calls[j] == InsertMoney(u);
        }
      }
    }
  }

  lemma {:induction false} AccountsFunded(env: Env, events: seq<Event>)
    requires NoRestart(events)
    ensures Funded(Run(env, events))
  {
    if events == [] {
    } else {
      var before, e := events[..|events| - 1], events[|events| - 1];
      AccountsFunded(env, before);
      var s, s' := Run(env, before), Run(env, events);
      assert e in events;
      if e.Advance? {
        if e.call in s.calls {
          AdvanceFunds(env, s, e.call, e.out);
        }
      } else {
        forall u | u in s'.auth ensures u in s'.money || BetweenInserts(s', u) {
          if u !in s.money {
            var j :| j in s.calls && s.calls[j] == InsertMoney(u);
            assert s'.calls[j] == InsertMoney(u);
          }
        }
      }
    }
  }

  /** At every step of every interleaving, users with a cookie or a money record
      have an account; between restarts a user with a cookie has a money record,
      except while a registration of that user is between its two inserts. */
  lemma CookiesAreFunded(env: Env, events: seq<Event>, user: Bytes)
    ensures var s := Run(env, events);
            && s.money <= s.auth.Keys && s.cookies.Keys <= s.auth.Keys
            && (NoRestart(events) && user in s.cookies && !BetweenInserts(s, user) ==> user in s.money)
  {
    RunKeeps(env, events);
    if NoRestart(events) {
      AccountsFunded(env, events);
    }
  }

  /** No login ever looks up an account that has no money record yet. */
  ghost predicate LoginsFunded(env: Env, events: seq<Event>) {
    events == [] ||
    var before, e := events[..|events| - 1], events[|events| - 1];
    var s := Run(env, before);
    && LoginsFunded(env, before)
    && (e.Advance? && e.call in s.calls && s.calls[e.call].LoginLookup? ==>
          var user := env.lower(s.calls[e.call].req.username);
          user in s.auth ==> user in s.money)
  }

  /** Calls on the way to a cookie concern users with a money record. */
  predicate CallFunded(s: State, c: Call) {
    match c
    case CaptchaLookup(user, _, _, _, account) => account.Some? ==> user in s.money
    case CaptchaRemove(user, _, _, account) => account.Some? ==> user in s.money
    case VerifyPassword(user, _, _) => user in s.money
    case CheckUser(user) => user in s.money
    case InsertCookie(user) => user in s.money
    case _ => true
  }

  predicate CookiesFunded(s: State) {
    && s.cookies.Keys <= s.money
    && forall k :: k in s.calls ==> CallFunded(s, s.calls[k])
  }

  lemma AdvanceFundsCall(env: Env, s: State, k: nat, c: Call, out: Outside)
    requires s.cookies.Keys <= s.money && CallFunded(s, c) && k in s.calls && s.calls[k] == c
    requires c.LoginLookup? ==> var user := env.lower(c.req.username); user in s.auth ==> user in s.money
    ensures var s' := AdvanceCall(env, s, k, c, out);
            && s'.cookies.Keys <= s'.money && s.money <= s'.money
            && k in s'.calls && CallFunded(s', s'.calls[k])
            && s'.calls == s.calls[k := s'.calls[k]]
  {
  }

  lemma AdvanceFundsCookies(env: Env, s: State, k: nat, out: Outside)
    requires CookiesFunded(s) && k in s.calls
    requires s.calls[k].LoginLookup? ==>
               var user := env.lower(s.calls[k].req.username); user in s.auth ==> user in s.money
    ensures CookiesFunded(AdvanceCall(env, s, k, s.calls[k], out))
  {
    var s' := AdvanceCall(env, s, k, s.calls[k], out);
    AdvanceFundsCall(env, s, k, s.calls[k], out);
    forall j | j in s'.calls ensures CallFunded(s', s'.calls[j]) {
      if j != k {
        assert CallFunded(s, s.calls[j]);
      }
    }
  }

  lemma OtherStepFunds(env: Env, s: State, e: Event)
    requires CookiesFunded(s) && !e.Advance?
    ensures CookiesFunded(Step(env, s, e))
  {
  }

  /** Provided no login looks up an account before its money record is in, every
      user with a cookie has a money record, restarts or not: the unwraps of the
      authorised handlers succeed. */
  lemma {:induction false} CookiesAlwaysFunded(env: Env, events: seq<Event>)
    requires LoginsFunded(env, events)
    ensures CookiesFunded(Run(env, events))
    ensures Run(env, events).cookies.Keys <= Run(env, events).money
  {
    if events == [] {
    } else {
      var before, e := events[..|events| - 1], events[|events| - 1];
      CookiesAlwaysFunded(env, before);
      var s := Run(env, before);
      if !e.Advance? {
        OtherStepFunds(env, s, e);
      } else if e.call in s.calls {
        AdvanceFundsCookies(env, s, e.call, e.out);
      }
    }
  }

  // ---------- a call left to itself ----------

  /** The next tree access of call `k`. */
  function Access(env: Env, k: nat, out: Outside): State -> State {
    (s: State) => if k in s.calls then AdvanceCall(env, s, k, s.calls[k], out) else s
  }

  /** `n` tree accesses of call `k` with nothing in between. */
  function Alone(env: Env, s: State, k: nat, n: nat, out: Outside): State {
    Iterate(Access(env, k, out), n, s)
  }

  lemma AloneMore(env: Env, s: State, k: nat, m: nat, n: nat, out: Outside)
    ensures Alone(env, s, k, m + n, out) == Alone(env, Alone(env, s, k, m, out), k, n, out)
  {
    IterateAdd(Access(env, k, out), m, n, s);
  }

  lemma AloneOne(env: Env, s: State, k: nat, c: Call, n: nat, out: Outside)
    requires n > 0 && k in s.calls && s.calls[k] == c
    ensures Alone(env, s, k, n, out) == Alone(env, AdvanceCall(env, s, k, c, out), k, n - 1, out)
  {
  }

  /** A call that is over stays as it is. */
  lemma AloneOver(env: Env, s: State, k: nat, n: nat, out: Outside)
    requires k in s.calls && (s.calls[k].Finished? || s.calls[k].Denied? || s.calls[k].Panicked?)
    ensures Alone(env, s, k, n, out) == s
  {
    IterateFixed(Access(env, k, out), n, s);
  }

  /** The trees without the bookkeeping. */
  datatype Trees = Trees(
    auth: map<Bytes, User>, money: set<Bytes>, cookies: map<Bytes, Cookie>, captchas: map<Digest, Captcha>)

  function TreesOf(s: State): Trees {
    Trees(s.auth, s.money, s.cookies, s.captchas)
  }

  predicate Answered(t: Trees, req: AuthRequest) {
    && req.captchaHash.Hash? && req.captchaHash.hash in t.captchas
    && t.captchas[req.captchaHash.hash].answer == req.answer
  }

  /** A right captcha is used up, a wrong one is not. */
  function CaptchasAfter(t: Trees, req: AuthRequest, taken: bool): map<Digest, Captcha> {
    if taken && req.captchaHash.Hash? then t.captchas - {req.captchaHash.hash} else t.captchas
  }

  /** What a registration does: it succeeds exactly for a free, valid name with a
      right captcha and a wallet address; then account, money record and cookie
      are in. Otherwise all three stay, but a right captcha is used up. */
  predicate Registers(env: Env, req: AuthRequest, out: Outside, t: Trees, t': Trees, success: bool) {
    var user := env.lower(req.username);
    var taken := user !in t.auth && InvalidUserReason(env, user).None? && Answered(t, req);
    && (success <==> taken && out.addressOk)
    && t'.captchas == CaptchasAfter(t, req, taken)
    && t'.auth == (if success then t.auth[user := User(out.salt, HashPassword(env, req.password, out.salt))]
                   else t.auth)
    && t'.money == (if success then t.money + {user} else t.money)
    && t'.cookies == (if success then t.cookies[user := Cookie(out.cookie, out.now + 7_776_000)] else t.cookies)
  }

  /** What a login does: it succeeds exactly for a known user with a right captcha
      and the password of the account; only cookies and captchas ever change. */
  predicate LogsIn(env: Env, req: AuthRequest, out: Outside, t: Trees, t': Trees, success: bool) {
    var user := env.lower(req.username);
    var taken := user in t.auth && Answered(t, req);
    && (success <==> taken && HashPassword(env, req.password, t.auth[user].salt) == t.auth[user].hashedPassword)
    && t'.captchas == CaptchasAfter(t, req, taken)
    && t'.cookies == (if success then t.cookies[user := Cookie(out.cookie, out.now + 7_776_000)] else t.cookies)
    && t'.auth == t.auth && t'.money == t.money
  }

  /** Two accesses of a call. */
  lemma AloneTwo(env: Env, s: State, k: nat, c: Call, s1: State, c1: Call, out: Outside)
    requires k in s.calls && s.calls[k] == c && AdvanceCall(env, s, k, c, out) == s1
    requires k in s1.calls && s1.calls[k] == c1
    ensures Alone(env, s, k, 2, out) == AdvanceCall(env, s1, k, c1, out)
  {
  }

  /** Lookup and removal of the captcha. */
  lemma GateAlone(env: Env, s: State, k: nat, out: Outside)
    requires k in s.calls && s.calls[k].CaptchaLookup?
    ensures var c := s.calls[k];
            Alone(env, s, k, 2, out)
            == if c.hash in s.captchas && s.captchas[c.hash].answer == c.answer
               then s.(captchas := s.captchas - {c.hash}, passed := s.passed + multiset{c.hash},
                       calls := s.calls[k := if c.account.Some? then VerifyPassword(c.user, c.password, c.account.value)
                                             else CreateAddress(c.user, c.password)])
               else SetCall(s, k, Denied)
  {
    var c := s.calls[k];
    if c.hash in s.captchas && s.captchas[c.hash].answer == c.answer {
      var c1 := CaptchaRemove(c.user, c.password, c.hash, c.account);
      AloneTwo(env, s, k, c, SetCall(s, k, c1), c1, out);
    } else {
      AloneTwo(env, s, k, c, SetCall(s, k, Denied), Denied, out);
    }
  }

  /** Check of the account and insertion of the cookie. */
  lemma CookieAlone(env: Env, s: State, k: nat, out: Outside)
    requires k in s.calls && s.calls[k].CheckUser? && s.calls[k].user in s.auth && CookieText(out.cookie)
    ensures Alone(env, s, k, 2, out)
         == s.(cookies := s.cookies[s.calls[k].user := Cookie(out.cookie, out.now + NINETY_DAYS)],
               calls := s.calls[k := Finished])
  {
    var c1 := InsertCookie(s.calls[k].user);
    AloneTwo(env, s, k, s.calls[k], SetCall(s, k, c1), c1, out);
  }

  /** From the address to the account. */
  lemma AccountAlone(env: Env, s: State, k: nat, out: Outside)
    requires k in s.calls && s.calls[k].CreateAddress? && out.addressOk
    ensures var c := s.calls[k];
            Alone(env, s, k, 2, out)
            == s.(auth := s.auth[c.user := User(out.salt, HashPassword(env, c.password, out.salt))],
                  calls := s.calls[k := InsertMoney(c.user)])
  {
    var c := s.calls[k];
    var c1 := InsertUser(c.user, User(out.salt, HashPassword(env, c.password, out.salt)));
    AloneTwo(env, s, k, c, SetCall(s, k, c1), c1, out);
  }

  /** The rest of a registration behind the captcha. */
  lemma CreationAlone(env: Env, s: State, k: nat, out: Outside)
    requires k in s.calls && s.calls[k].CreateAddress? && CookieText(out.cookie)
    ensures var c := s.calls[k];
            Alone(env, s, k, 5, out)
            == if out.addressOk
               then s.(auth := s.auth[c.user := User(out.salt, HashPassword(env, c.password, out.salt))],
                       money := s.money + {c.user},
                       cookies := s.cookies[c.user := Cookie(out.cookie, out.now + NINETY_DAYS)],
                       calls := s.calls[k := Finished])
               else SetCall(s, k, Denied)
  {
    var c := s.calls[k];
    if out.addressOk {
      var s2 := Alone(env, s, k, 2, out);
      AloneMore(env, s, k, 2, 3, out);
      AccountAlone(env, s, k, out);
      var s3 := SetCall(s2.(money := s2.money + {c.user}), k, CheckUser(c.user));
      AloneOne(env, s2, k, InsertMoney(c.user), 3, out);
      CookieAlone(env, s3, k, out);
    } else {
      AloneOne(env, s, k, c, 5, out);
      AloneOver(env, SetCall(s, k, Denied), k, 4, out);
    }
  }

  /** The rest of a login behind the captcha. */
  lemma PasswordAlone(env: Env, s: State, k: nat, out: Outside)
    requires k in s.calls && s.calls[k].VerifyPassword? && s.calls[k].user in s.auth && CookieText(out.cookie)
    ensures var c := s.calls[k];
            Alone(env, s, k, 3, out)
            == if HashPassword(env, c.password, c.record.salt) == c.record.hashedPassword
               then s.(cookies := s.cookies[c.user := Cookie(out.cookie, out.now + NINETY_DAYS)],
                       calls := s.calls[k := Finished])
               else SetCall(s, k, Denied)
  {
    var c := s.calls[k];
    AloneOne(env, s, k, c, 3, out);
    if HashPassword(env, c.password, c.record.salt) == c.record.hashedPassword {
      CookieAlone(env, SetCall(s, k, CheckUser(c.user)), k, out);
    } else {
      AloneOver(env, SetCall(s, k, Denied), k, 2, out);
    }
  }

  /** The first lookup of a registration that goes on to the captcha. */
  lemma RegisterBegins(env: Env, s: State, k: nat, req: AuthRequest, n: nat, out: Outside)
    requires k in s.calls && s.calls[k] == RegisterLookup(req)
    ensures var user := env.lower(req.username);
            var goesOn := user !in s.auth && InvalidUserReason(env, user).None? && req.captchaHash.Hash?;
            && (goesOn ==>
                  Alone(env, s, k, n + 1, out)
                  == Alone(env,
                           SetCall(s, k, CaptchaLookup(user, req.password, req.captchaHash.hash, req.answer, None)),
                           k, n, out))
            && (!goesOn ==>
                  TreesOf(Alone(env, s, k, n + 1, out)) == TreesOf(s)
                  && k in Alone(env, s, k, n + 1, out).calls && !Alone(env, s, k, n + 1, out).calls[k].Finished?)
  {
    var s1 := AdvanceCall(env, s, k, s.calls[k], out);
    AloneOne(env, s, k, s.calls[k], n + 1, out);
    if !s1.calls[k].CaptchaLookup? {
      AloneOver(env, s1, k, n, out);
    }
  }

  /** The captcha and what follows of a registration. */
  lemma CaptchaThenCreation(env: Env, s: State, k: nat, out: Outside)
    requires k in s.calls && s.calls[k].CaptchaLookup? && s.calls[k].account.None? && CookieText(out.cookie)
    ensures var c, t, s' := s.calls[k], TreesOf(s), Alone(env, s, k, 7, out);
            var taken := c.hash in s.captchas && s.captchas[c.hash].answer == c.answer;
            && k in s'.calls && (s'.calls[k].Finished? <==> taken && out.addressOk)
            && (!taken ==> TreesOf(s') == t)
            && (taken && !out.addressOk ==> TreesOf(s') == t.(captchas := t.captchas - {c.hash}))
            && (taken && out.addressOk ==>
                  TreesOf(s') == Trees(t.auth[c.user := User(out.salt, HashPassword(env, c.password, out.salt))],
                                       t.money + {c.user},
                                       t.cookies[c.user := Cookie(out.cookie, out.now + NINETY_DAYS)],
                                       t.captchas - {c.hash}))
  {
    var c, s2 := s.calls[k], Alone(env, s, k, 2, out);
    AloneMore(env, s, k, 2, 5, out);
    GateAlone(env, s, k, out);
    if c.hash in s.captchas && s.captchas[c.hash].answer == c.answer {
      CreationAlone(env, s2, k, out);
    } else {
      AloneOver(env, s2, k, 5, out);
    }
  }

  /** Step by step without interference, a registration does what it should. */
  lemma RegisterAlone(env: Env, s: State, k: nat, req: AuthRequest, out: Outside)
    requires k in s.calls && s.calls[k] == RegisterLookup(req) && CookieText(out.cookie)
    ensures var s' := Alone(env, s, k, 8, out);
            k in s'.calls && Registers(env, req, out, TreesOf(s), TreesOf(s'), s'.calls[k].Finished?)
  {
    var user := env.lower(req.username);
    RegisterBegins(env, s, k, req, 7, out);
    if user !in s.auth && InvalidUserReason(env, user).None? && req.captchaHash.Hash? {
      var c := CaptchaLookup(user, req.password, req.captchaHash.hash, req.answer, None);
      CaptchaThenCreation(env, SetCall(s, k, c), k, out);
    }
  }

  /** And so does a login. */
  lemma LoginAlone(env: Env, s: State, k: nat, req: AuthRequest, out: Outside)
    requires k in s.calls && s.calls[k] == LoginLookup(req) && CookieText(out.cookie)
    ensures var s' := Alone(env, s, k, 6, out);
            k in s'.calls && LogsIn(env, req, out, TreesOf(s), TreesOf(s'), s'.calls[k].Finished?)
  {
    var user := env.lower(req.username);
    var s1 := AdvanceCall(env, s, k, s.calls[k], out);
    AloneOne(env, s, k, s.calls[k], 6, out);
    if user in s.auth && req.captchaHash.Hash? {
      var c := CaptchaLookup(user, req.password, req.captchaHash.hash, req.answer, Some(s.auth[user]));
      assert s1 == SetCall(s, k, c);
      AloneMore(env, s1, k, 2, 3, out);
      GateAlone(env, s1, k, out);
      var s3 := Alone(env, s1, k, 2, out);
      if Answered(TreesOf(s), req) {
        PasswordAlone(env, s3, k, out);
      } else {
        AloneOver(env, s3, k, 3, out);
      }
    } else {
      AloneOver(env, s1, k, 5, out);
    }
  }

  // ---------- a login in the gap ----------

  lemma RunMore(env: Env, events: seq<Event>, e: Event)
    ensures Run(env, events + [e]) == Step(env, Run(env, events), e)
  {
    assert (events + [e])[..|events|] == events;
  }

  /** A run in which call `k` goes on alone. */
  lemma {:induction false} RunAlone(env: Env, events: seq<Event>, k: nat, n: nat, out: Outside)
    returns (more: seq<Event>)
    requires NoRestart(events)
    ensures Run(env, more) == Alone(env, Run(env, events), k, n, out)
    ensures NoRestart(more)
    decreases n
  {
    if n == 0 {
      more := events;
    } else {
      RunMore(env, events, Advance(k, out));
      more := RunAlone(env, events + [Advance(k, out)], k, n - 1, out);
    }
  }

  /** Two captchas and a registration that has just begun. */
  lemma Begun(env: Env, req: AuthRequest, h2: Digest) returns (events: seq<Event>)
    requires req.captchaHash.Hash? && req.captchaHash.hash != h2
    ensures var s := Run(env, events);
            && TreesOf(s) == Trees(map[], {}, map[], map[req.captchaHash.hash := Captcha(req.answer, CAPTCHA_LIFE),
                                                         h2 := Captcha(req.answer, CAPTCHA_LIFE)])
            && s.calls == map[0 := RegisterLookup(req)]
    ensures NoRestart(events)
  {
    var c1 := CreateCaptcha(req.captchaHash.hash, req.answer, 0);
    var c2 := CreateCaptcha(h2, req.answer, 0);
    var r1 := [c1];
    RunMore(env, [], c1);
    assert [] + r1 == r1;
    var r2 := r1 + [c2];
    RunMore(env, r1, c2);
    events := r2 + [Begin(0, RegisterLookup(req))];
    RunMore(env, r2, Begin(0, RegisterLookup(req)));
  }

  /** Five accesses later the account is in and the money record is not. */
  lemma GapAlone(env: Env, s: State, req: AuthRequest, out: Outside)
    requires 0 in s.calls && s.calls[0] == RegisterLookup(req) && Answered(TreesOf(s), req) && out.addressOk
    requires var user := env.lower(req.username); user !in s.auth && InvalidUserReason(env, user).None?
    ensures var s', user := Alone(env, s, 0, 5, out), env.lower(req.username);
            && TreesOf(s') == Trees(s.auth[user := User(out.salt, HashPassword(env, req.password, out.salt))],
                                    s.money, s.cookies, s.captchas - {req.captchaHash.hash})
            && s'.calls == s.calls[0 := InsertMoney(user)]
  {
    var user := env.lower(req.username);
    var s1 := SetCall(s, 0, CaptchaLookup(user, req.password, req.captchaHash.hash, req.answer, None));
    RegisterBegins(env, s, 0, req, 4, out);
    AloneMore(env, s1, 0, 2, 2, out);
    GateAlone(env, s1, 0, out);
    AccountAlone(env, Alone(env, s1, 0, 2, out), 0, out);
  }

  /** A run that stops between the two inserts of a registration. */
  lemma ReachGap(env: Env, req: AuthRequest, h2: Digest, out: Outside) returns (events: seq<Event>)
    requires req.captchaHash.Hash? && req.captchaHash.hash != h2 && out.addressOk
    requires InvalidUserReason(env, env.lower(req.username)).None?
    ensures var s, user := Run(env, events), env.lower(req.username);
            && user in s.auth && s.auth[user] == User(out.salt, HashPassword(env, req.password, out.salt))
            && user !in s.money && Answered(TreesOf(s), req.(captchaHash := Hash(h2)))
            && 1 !in s.calls
    ensures NoRestart(events)
  {
    var begun := Begun(env, req, h2);
    GapAlone(env, Run(env, begun), req, out);
    events := RunAlone(env, begun, 0, 5, out);
  }

  /** There a login of the same user begins. */
  lemma LoginBegins(env: Env, req: AuthRequest, h2: Digest, out: Outside) returns (events: seq<Event>)
    requires req.captchaHash.Hash? && req.captchaHash.hash != h2 && out.addressOk
    requires InvalidUserReason(env, env.lower(req.username)).None?
    ensures var s, user := Run(env, events), env.lower(req.username);
            && user in s.auth && s.auth[user] == User(out.salt, HashPassword(env, req.password, out.salt))
            && user !in s.money && Answered(TreesOf(s), req.(captchaHash := Hash(h2)))
            && 1 in s.calls && s.calls[1] == LoginLookup(req.(captchaHash := Hash(h2)))
    ensures NoRestart(events)
  {
    var e := Begin(1, LoginLookup(req.(captchaHash := Hash(h2))));
    var gap := ReachGap(env, req, h2, out);
    RunMore(env, gap, e);
    events := gap + [e];
    assert TreesOf(Run(env, events)) == TreesOf(Run(env, gap));
  }

  /** Without that provision it fails, for every name that can be registered: some
      interleaving gives the user a cookie before the money record. */
  lemma CookieWithoutMoney(env: Env, req: AuthRequest, h2: Digest)
    requires req.captchaHash.Hash? && req.captchaHash.hash != h2
    requires InvalidUserReason(env, env.lower(req.username)).None?
    ensures exists events ::
              var s, user := Run(env, events), env.lower(req.username);
              NoRestart(events) && user in s.cookies && user !in s.money
  {
    var out := Outside(true, seq(32, i requires 0 <= i < 32 => i as byte), seq(50, _ => 65), 0);
    var begun := LoginBegins(env, req, h2, out);
    LoginAlone(env, Run(env, begun), 1, req.(captchaHash := Hash(h2)), out);
    var events := RunAlone(env, begun, 1, 6, out);
  }

  // ---------- names ----------

  /** The strings the source reserves. */
  lemma ReservedNames()
    ensures Reserved()
         == {[97, 100, 109, 105, 110], [114, 111, 111, 116], [48, 120, 100, 51, 52, 100, 98, 51, 51, 102],
             [100, 51, 52, 100, 98, 51, 51, 102]}
  {
    assert Ascii("admin") == [97, 100, 109, 105, 110];
    assert Ascii("root") == [114, 111, 111, 116];
    assert Ascii("0xd34db33f") == [48, 120, 100, 51, 52, 100, 98, 51, 51, 102];
    assert Ascii("d34db33f") == [100, 51, 52, 100, 98, 51, 51, 102];
  }

  /** Why a name is refused: its length first, then its characters, then whether it is
      "admin", "root", "0xd34db33f" or "d34db33f" in whatever case. */
  lemma NameRefused(env: Env, username: Bytes)
    ensures var r := InvalidUserReason(env, username);
            var long := 4 <= |username| <= 50;
            var lower := env.lower(username);
            var reserved := lower == [97, 100, 109, 105, 110] || lower == [114, 111, 111, 116]
                            || lower == [48, 120, 100, 51, 52, 100, 98, 51, 51, 102]
                            || lower == [100, 51, 52, 100, 98, 51, 51, 102];
            && (r == Some(UsernameLenIncorrect) <==> !long)
            && (r == Some(NotAlphanumeric) <==> long && !env.alnum(username))
            && (r == Some(ReservedUsername) <==> long && env.alnum(username) && reserved)
            && (r == None <==> long && env.alnum(username) && !reserved)
  {
    ReservedNames();
  }

  // ---------- passwords ----------

  /** Where an account of the user comes from: the password and salt of the
      registration that inserted it. */
  datatype Origin = Origin(password: Bytes, salt: Digest)

  /** The account the call is about to insert was made from this. */
  ghost predicate MadeFrom(env: Env, record: User, o: Origin) {
    record.salt == o.salt && record.hashedPassword == env.hash(o.password + o.salt)
  }

  /** The password and salt of the account the call has just made, if it has. */
  function Makes(s: State, e: Event): Option<(nat, Origin)> {
    if e.Advance? && e.call in s.calls && s.calls[e.call].CreateAddress? && e.out.addressOk
    then Some((e.call, Origin(s.calls[e.call].password, e.out.salt))) else None
  }

  /** What call `k` will insert an account from. */
  ghost function Made(env: Env, events: seq<Event>, k: nat): Origin {
    if events == [] then Origin([], seq(32, _ => 0))
    else
      var before, e := events[..|events| - 1], events[|events| - 1];
      match Makes(Run(env, before), e)
      case Some((call, o)) => if call == k then o else Made(env, before, k)
      case None => Made(env, before, k)
  }

  /** What the account in force comes from: the insertion for the name that was last. */
  ghost function InForce(env: Env, events: seq<Event>, user: Bytes): Origin {
    if events == [] then Origin([], seq(32, _ => 0))
    else
      var before, e := events[..|events| - 1], events[|events| - 1];
      if Inserts(Run(env, before), e, user) then Made(env, before, e.call) else InForce(env, before, user)
  }

  ghost predicate CallMade(env: Env, c: Call, o: Origin) {
    c.InsertUser? ==> MadeFrom(env, c.record, o)
  }

  lemma AdvanceMakes(env: Env, s: State, k: nat, c: Call, out: Outside)
    requires k in s.calls && s.calls[k] == c
    ensures var s' := AdvanceCall(env, s, k, c, out);
            k in s'.calls && (s'.calls[k].InsertUser? ==>
              c.CreateAddress? && out.addressOk && MadeFrom(env, s'.calls[k].record, Origin(c.password, out.salt)))
  {
  }

  lemma StepMakes(env: Env, s: State, e: Event, k: nat, o: Origin)
    requires k in s.calls ==> CallMade(env, s.calls[k], o)
    requires k in Step(env, s, e).calls
    ensures var o' := match Makes(s, e) case Some((call, p)) => (if call == k then p else o) case None => o;
            CallMade(env, Step(env, s, e).calls[k], o')
  {
    if e.Advance? {
      if e.call in s.calls {
        AdvancesOne(env, s, e.call, s.calls[e.call], e.out);
        AdvanceMakes(env, s, e.call, s.calls[e.call], e.out);
      }
    } else {
      OtherCallsStand(env, s, e, k);
    }
  }

  lemma {:induction false} CallsMade(env: Env, events: seq<Event>, k: nat)
    requires k in Run(env, events).calls
    ensures CallMade(env, Run(env, events).calls[k], Made(env, events, k))
  {
    if events != [] {
      var before, e := events[..|events| - 1], events[|events| - 1];
      if k in Run(env, before).calls {
        CallsMade(env, before, k);
      }
      StepMakes(env, Run(env, before), e, k, Made(env, before, k));
    }
  }

  lemma InsertionSets(env: Env, s: State, e: Event, user: Bytes)
    ensures var s' := Step(env, s, e);
            && (Inserts(s, e, user) ==> user in s'.auth && s'.auth[user] == s.calls[e.call].record)
            && (!Inserts(s, e, user) ==>
                  && (user in s'.auth <==> user in s.auth)
                  && (user in s.auth ==> s'.auth[user] == s.auth[user]))
  {
  }

  lemma {:induction false} AccountsInForce(env: Env, events: seq<Event>, user: Bytes)
    requires user in Run(env, events).auth
    ensures MadeFrom(env, Run(env, events).auth[user], InForce(env, events, user))
  {
    if events != [] {
      var before, e := events[..|events| - 1], events[|events| - 1];
      InsertionSets(env, Run(env, before), e, user);
      if Inserts(Run(env, before), e, user) {
        CallsMade(env, before, e.call);
      } else {
        AccountsInForce(env, before, user);
      }
    }
  }

  /** In every reachable state, a login with a right captcha succeeds if and only if
      its password hashes, behind the salt of the account in force, as the password of
      the registration that inserted it. */
  lemma LoginNeedsPassword(env: Env, events: seq<Event>, k: nat, req: AuthRequest, out: Outside)
    requires CookieText(out.cookie) && k in Run(env, events).calls && Run(env, events).calls[k] == LoginLookup(req)
    requires Answered(TreesOf(Run(env, events)), req) && env.lower(req.username) in Run(env, events).auth
    ensures var s' := Alone(env, Run(env, events), k, 6, out);
            var o := InForce(env, events, env.lower(req.username));
            && k in s'.calls
            && (s'.calls[k].Finished? <==> env.hash(req.password + o.salt) == env.hash(o.password + o.salt))
            && (HashSeparates(env, req.password + o.salt, o.password + o.salt) ==>
                  (s'.calls[k].Finished? <==> req.password == o.password))
  {
    var user := env.lower(req.username);
    var o := InForce(env, events, user);
    LoginAlone(env, Run(env, events), k, req, out);
    AccountsInForce(env, events, user);
    SaltEnds(req.password, o.password, o.salt);
  }

  /** The hash tells the two byte strings apart. */
  predicate HashSeparates(env: Env, a: Bytes, b: Bytes) {
    a != b ==> env.hash(a) != env.hash(b)
  }

  lemma SaltEnds(a: Bytes, b: Bytes, salt: Digest)
    ensures a + salt == b + salt <==> a == b
  {
    if a + salt == b + salt {
      assert a == (a + salt)[..|a + salt| - 32] == (b + salt)[..|b + salt| - 32] == b;
    }
  }

  /** A registration stores its salt and the hash of its password behind it. */
  lemma RegistrationSets(env: Env, s: State, k: nat, req: AuthRequest, out: Outside)
    requires CookieText(out.cookie) && k in s.calls && s.calls[k] == RegisterLookup(req)
    ensures var s', user := Alone(env, s, k, 8, out), env.lower(req.username);
            k in s'.calls && (s'.calls[k].Finished? ==>
              && user in s'.auth && s'.auth[user].salt == out.salt
              && s'.auth[user].hashedPassword == env.hash(req.password + out.salt))
  {
    RegisterAlone(env, s, k, req, out);
  }

  /** A registration and then a login of the same name, captchas being right: the
      login succeeds if and only if both passwords hash alike behind the salt. */
  lemma PasswordDecides(env: Env, first: AuthRequest, second: AuthRequest, out: Outside, again: Outside,
                        t0: Trees, t1: Trees, t2: Trees, success: bool)
    requires Registers(env, first, out, t0, t1, true) && LogsIn(env, second, again, t1, t2, success)
    requires env.lower(second.username) == env.lower(first.username) && Answered(t1, second)
    ensures success <==> env.hash(second.password + out.salt) == env.hash(first.password + out.salt)
    ensures HashSeparates(env, second.password + out.salt, first.password + out.salt) ==>
              (success <==> second.password == first.password)
  {
    SaltEnds(second.password, first.password, out.salt);
  }

  // ---------- two registrations of one name ----------

  /** The call is a registration of the user whose lookup found the name free and
      whose account is not in yet. */
  predicate Registering(c: Call, user: Bytes) {
    match c
    case CaptchaLookup(u, _, _, _, account) => u == user && account.None?
    case CaptchaRemove(u, _, _, account) => u == user && account.None?
    case CreateAddress(u, _) => u == user
    case InsertUser(u, _) => u == user
    case _ => false
  }

  /** The event inserts an account for the user. */
  predicate Inserts(s: State, e: Event, user: Bytes) {
    e.Advance? && e.call in s.calls && s.calls[e.call].InsertUser? && s.calls[e.call].user == user
  }

  /** Call `k` makes its lookup. */
  predicate LooksUp(s: State, e: Event, k: nat) {
    e.Advance? && e.call == k && k in s.calls && s.calls[k].RegisterLookup?
  }

  /** Has an account for the user been inserted since the lookup of call `k`? */
  predicate InsertedSince(env: Env, events: seq<Event>, k: nat, user: Bytes) {
    events != [] &&
    var before, e := events[..|events| - 1], events[|events| - 1];
    !LooksUp(Run(env, before), e, k) && (Inserts(Run(env, before), e, user) || InsertedSince(env, before, k, user))
  }

  lemma LookupFindsFree(env: Env, s: State, e: Event, k: nat, user: Bytes)
    requires LooksUp(s, e, k)
    ensures var s' := Step(env, s, e);
            k in s'.calls && (Registering(s'.calls[k], user) ==> user !in s'.auth)
  {
  }

  lemma AccountsGrow(env: Env, s: State, e: Event, user: Bytes)
    ensures user in Step(env, s, e).auth <==> user in s.auth || Inserts(s, e, user)
  {
  }

  lemma AdvancesOne(env: Env, s: State, k: nat, c: Call, out: Outside)
    requires k in s.calls && s.calls[k] == c
    ensures k in AdvanceCall(env, s, k, c, out).calls
    ensures AdvanceCall(env, s, k, c, out).calls == s.calls[k := AdvanceCall(env, s, k, c, out).calls[k]]
  {
  }

  lemma RegisteringOn(env: Env, s: State, k: nat, c: Call, out: Outside, user: Bytes)
    requires k in s.calls && s.calls[k] == c && !c.RegisterLookup?
    requires k in AdvanceCall(env, s, k, c, out).calls && Registering(AdvanceCall(env, s, k, c, out).calls[k], user)
    ensures Registering(c, user)
  {
  }

  lemma RegisteringBefore(env: Env, s: State, e: Event, k: nat, user: Bytes)
    requires !LooksUp(s, e, k)
    requires k in Step(env, s, e).calls && Registering(Step(env, s, e).calls[k], user)
    ensures k in s.calls && Registering(s.calls[k], user)
  {
    if e.Advance? {
      if e.call in s.calls {
        AdvancesOne(env, s, e.call, s.calls[e.call], e.out);
        if e.call == k {
          RegisteringOn(env, s, k, s.calls[k], e.out, user);
        }
      }
    } else {
      OtherCallsStand(env, s, e, k);
    }
  }

  lemma OtherCallsStand(env: Env, s: State, e: Event, k: nat)
    requires !e.Advance? && k in Step(env, s, e).calls
    ensures k in s.calls ==> Step(env, s, e).calls[k] == s.calls[k]
    ensures k !in s.calls ==> Step(env, s, e).calls[k].RegisterLookup? || Step(env, s, e).calls[k].LoginLookup?
  {
  }

  /** In every reachable state a registration between its lookup and its insertion
      meets the name taken if and only if another registration has inserted it since
      the lookup. Its own insertion then writes over that account. */
  lemma {:induction false} OverwritesExactly(env: Env, events: seq<Event>, k: nat, user: Bytes)
    requires k in Run(env, events).calls && Registering(Run(env, events).calls[k], user)
    ensures user in Run(env, events).auth <==> InsertedSince(env, events, k, user)
  {
    if events != [] {
      var before, e := events[..|events| - 1], events[|events| - 1];
      var s := Run(env, before);
      if LooksUp(s, e, k) {
        LookupFindsFree(env, s, e, k, user);
      } else {
        RegisteringBefore(env, s, e, k, user);
        OverwritesExactly(env, before, k, user);
        AccountsGrow(env, s, e, user);
      }
    }
  }

  /** Calls that stand by while another goes on alone. */
  lemma {:induction false} StandsBy(env: Env, s: State, k: nat, n: nat, out: Outside, j: nat)
    requires k in s.calls && j in s.calls && j != k
    ensures j in Alone(env, s, k, n, out).calls && Alone(env, s, k, n, out).calls[j] == s.calls[j]
    decreases n
  {
    if n > 0 {
      AloneOne(env, s, k, s.calls[k], n, out);
      AdvancesOne(env, s, k, s.calls[k], out);
      StandsBy(env, AdvanceCall(env, s, k, s.calls[k], out), k, n - 1, out, j);
    }
  }

  /** Two registrations of one name, both looked up before either goes on. */
  lemma BothLookedUp(env: Env, req: AuthRequest, again: AuthRequest, out: Outside) returns (events: seq<Event>)
    requires req.captchaHash.Hash? && again.captchaHash.Hash? && req.captchaHash != again.captchaHash
    requires env.lower(again.username) == env.lower(req.username) && again.answer == req.answer
    requires InvalidUserReason(env, env.lower(req.username)).None?
    ensures var s, user := Run(env, events), env.lower(req.username);
            && user !in s.auth && Answered(TreesOf(s), req) && Answered(TreesOf(s), again)
            && s.calls == map[0 := CaptchaLookup(user, req.password, req.captchaHash.hash, req.answer, None),
                              1 := RegisterLookup(again)]
    ensures NoRestart(events)
  {
    var begun := Begun(env, req, again.captchaHash.hash);
    RegisterBegins(env, Run(env, begun), 0, req, 0, out);
    var looked := RunAlone(env, begun, 0, 1, out);
    RunMore(env, looked, Begin(1, RegisterLookup(again)));
    events := looked + [Begin(1, RegisterLookup(again))];
  }

  /** The second of them goes on alone. */
  lemma SecondRegisters(env: Env, req: AuthRequest, again: AuthRequest, out: Outside, outAgain: Outside)
    returns (events: seq<Event>)
    requires req.captchaHash.Hash? && again.captchaHash.Hash? && req.captchaHash != again.captchaHash
    requires env.lower(again.username) == env.lower(req.username) && again.answer == req.answer
    requires InvalidUserReason(env, env.lower(req.username)).None?
    requires outAgain.addressOk && CookieText(outAgain.cookie)
    ensures var s, user := Run(env, events), env.lower(req.username);
            && Answered(TreesOf(s), req) && user in s.auth
            && 0 in s.calls && 1 in s.calls && s.calls[1].Finished?
            && s.calls[0] == CaptchaLookup(user, req.password, req.captchaHash.hash, req.answer, None)
    ensures NoRestart(events)
  {
    var r := BothLookedUp(env, req, again, out);
    RegisterAlone(env, Run(env, r), 1, again, outAgain);
    StandsBy(env, Run(env, r), 1, 8, outAgain, 0);
    events := RunAlone(env, r, 1, 8, outAgain);
  }

  /** Both of two overlapping registrations of a free name succeed: the one that
      inserts last owns account and cookie, though the other was answered with a
      cookie too. */
  lemma BothRegister(env: Env, req: AuthRequest, again: AuthRequest, out: Outside, outAgain: Outside)
    requires req.captchaHash.Hash? && again.captchaHash.Hash? && req.captchaHash != again.captchaHash
    requires env.lower(again.username) == env.lower(req.username) && again.answer == req.answer
    requires InvalidUserReason(env, env.lower(req.username)).None?
    requires out.addressOk && outAgain.addressOk && CookieText(out.cookie) && CookieText(outAgain.cookie)
    ensures exists events ::
              var s, user := Run(env, events), env.lower(req.username);
              && NoRestart(events) && 0 in s.calls && s.calls[0].Finished? && 1 in s.calls && s.calls[1].Finished?
              && user in s.auth && s.auth[user] == User(out.salt, HashPassword(env, req.password, out.salt))
              && CookieOk(s.cookies)(user, out.cookie)
  {
    var r := SecondRegisters(env, req, again, out, outAgain);
    CaptchaThenCreation(env, Run(env, r), 0, out);
    StandsBy(env, Run(env, r), 0, 7, out, 1);
    var both := RunAlone(env, r, 0, 7, out);
  }

  // ---------- which cookies are accepted ----------

  /** The check of the authorised handlers. */
  function CookieOk(cookies: map<Bytes, Cookie>): (Bytes, Bytes) -> bool {
    (username, cookie) => username in cookies && cookies[username].cookie == cookie
  }

  /** The cookie the event issues to the user, if it does. */
  function Issued(s: State, e: Event, user: Bytes): Option<Bytes> {
    if e.Advance? && e.call in s.calls && s.calls[e.call] == InsertCookie(user) && CookieText(e.out.cookie)
    then Some(e.out.cookie) else None
  }

  /** The cookie issued to the user last, unless the sweep has taken it since. */
  function LastIssued(env: Env, events: seq<Event>, user: Bytes): Option<Bytes> {
    if events == [] then None
    else
      var before, e := events[..|events| - 1], events[|events| - 1];
      var s := Run(env, before);
      if Issued(s, e, user).Some? then Issued(s, e, user)
      else if e.RemoveCookie? && s.expiring == Some(user) then None
      else LastIssued(env, before, user)
  }

  lemma CookieOf(env: Env, s: State, e: Event, user: Bytes)
    ensures var s' := Step(env, s, e);
            && (Issued(s, e, user).Some? ==> user in s'.cookies && s'.cookies[user].cookie == Issued(s, e, user).value)
            && (Issued(s, e, user).None? && e.RemoveCookie? && s.expiring == Some(user) ==> user !in s'.cookies)
            && (Issued(s, e, user).None? && !(e.RemoveCookie? && s.expiring == Some(user)) ==>
                  && (user in s'.cookies <==> user in s.cookies)
                  && (user in s.cookies ==> s'.cookies[user] == s.cookies[user]))
  {
  }

  /** Over any interleaving of registrations, logins, sweeps and restarts, the check
      accepts exactly the cookie issued to the user last, until it is swept. */
  lemma {:induction false} OnlyLastCookie(env: Env, events: seq<Event>, user: Bytes, cookie: Bytes)
    ensures CookieOk(Run(env, events).cookies)(user, cookie) <==> LastIssued(env, events, user) == Some(cookie)
  {
    if events == [] {
    } else {
      var before, e := events[..|events| - 1], events[|events| - 1];
      OnlyLastCookie(env, before, user, cookie);
      CookieOf(env, Run(env, before), e, user);
    }
  }

  // ---------- names and cookies in frames ----------

  /** Whoever holds a cookie can send a download request: the frame of the
      registered name and the generated cookie parses back to both. */
  lemma RequestsParse(env: Env, events: seq<Event>, user: Bytes, softwareId: nat)
    requires Lawful(env) && user in Run(env, events).cookies && softwareId < TWO_TO_THE_64
    ensures var cookies := Run(env, events).cookies;
            var request := Request(user, cookies[user].cookie, softwareId);
            ParseRequest(env.text, CookieOk(cookies), EncodeRequest(request)) == Accepted(request)
  {
    RunKeeps(env, events);
    var cookies := Run(env, events).cookies;
    RequestRoundTrip(env.text, CookieOk(cookies), Request(user, cookies[user].cookie, softwareId));
  }

  /** Registered names and generated cookies are text without NULs, as the upload
      header needs them. */
  lemma CredentialsSendable(env: Env, events: seq<Event>, user: Bytes)
    requires Lawful(env) && user in Run(env, events).cookies
    ensures Sendable(env.text, user) && Sendable(env.text, Run(env, events).cookies[user].cookie)
    ensures MIN_USER_LEN <= |user| <= MAX_USER_LEN
  {
    RunKeeps(env, events);
  }
}
