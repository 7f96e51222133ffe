/** The account handlers run one at a time, and the expiry sweeps as loops over a
    snapshot of their tree. */
module AccountHandlers {
  import opened Common
  import opened Accounts

  datatype Outcome = Conflict | BadRequest | WrongCaptcha | ServerError | Unauthorized | Panic | Success(cookie: Bytes)

  class AccountTrees {
    var auth: map<Bytes, User>
    var money: set<Bytes>
    var cookies: map<Bytes, Cookie>
    var captchas: map<Digest, Captcha>

    function View(): Trees
      reads this
    {
      Trees(auth, money, cookies, captchas)
    }

    /** The captcha gate: a right answer uses the captcha up, a wrong one does not. */
    method TakeCaptcha(hash: Digest, answer: Bytes) returns (correct: bool)
      modifies this`captchas
      ensures correct <==> hash in old(captchas) && old(captchas)[hash].answer == answer
      ensures captchas == if correct then old(captchas) - {hash} else old(captchas)
    {
      correct := hash in captchas && captchas[hash].answer == answer;
      if correct {
        captchas := captchas - {hash};
      }
    }

    method GenerateAuthCookie(username: Bytes, cookie: Bytes, now: nat) returns (r: Option<Cookie>)
      modifies this`cookies
      ensures r.Some? <==> username in auth
      ensures r.Some? ==> r.value == Cookie(cookie, now + 7_776_000)
      ensures cookies == if r.Some? then old(cookies)[username := r.value] else old(cookies)
    {
      if username !in auth {
        return None;
      }
      r := Some(Cookie(cookie, now + NINETY_DAYS));
      cookies := cookies[username := r.value];
    }

    /** The registration handler, with no other access in between. */
    method Register(env: Env, req: AuthRequest, out: Outside) returns (outcome: Outcome)
      modifies this
      ensures Registers(env, req, out, old(View()), View(), outcome.Success?)
      ensures outcome.Success? ==> outcome.cookie == out.cookie
      ensures var user := env.lower(req.username);
              var free := user !in old(auth);
              var valid := free && !req.captchaHash.BadHex? && InvalidUserReason(env, user).None?;
              && (outcome.Conflict? <==> !free)
              && (outcome.BadRequest? <==> free && !valid)
              && (outcome.Panic? <==> valid && req.captchaHash.WrongLength?)
              && (outcome.WrongCaptcha? <==> valid && req.captchaHash.Hash? && !Answered(old(View()), req))
              && (outcome.ServerError? <==> valid && Answered(old(View()), req) && !out.addressOk)
    {
      var user := env.lower(req.username);
      if user in auth {
        return Conflict;
      }
      if req.captchaHash.BadHex? || InvalidUserReason(env, user).Some? {
        return BadRequest;
      }
      if req.captchaHash.WrongLength? {
        return Panic;
      }
      var correct := TakeCaptcha(req.captchaHash.hash, req.answer);
      if !correct {
        return WrongCaptcha;
      }
      if !out.addressOk {
        return ServerError;
      }
      auth := auth[user := User(out.salt, HashPassword(env, req.password, out.salt))];
      money := money + {user};
      var made := GenerateAuthCookie(user, out.cookie, out.now);
      outcome := Success(made.value.cookie);
    }

    method Login(env: Env, req: AuthRequest, out: Outside) returns (outcome: Outcome)
      modifies this`cookies, this`captchas
      ensures LogsIn(env, req, out, old(View()), View(), outcome.Success?)
      ensures outcome.Success? ==> outcome.cookie == out.cookie
      ensures var known := env.lower(req.username) in old(auth);
              && (outcome.Panic? <==> known && !req.captchaHash.Hash?)
              && (outcome.WrongCaptcha? <==> known && req.captchaHash.Hash? && !Answered(old(View()), req))
              && (outcome.Unauthorized? <==>
                    !known || (Answered(old(View()), req) && !outcome.Success?))
    {
      var user := env.lower(req.username);
      if user !in auth {
        return Unauthorized;
      }
      if !req.captchaHash.Hash? {
        return Panic;
      }
      var correct := TakeCaptcha(req.captchaHash.hash, req.answer);
      if !correct {
        return WrongCaptcha;
      }
      if HashPassword(env, req.password, auth[user].salt) != auth[user].hashedPassword {
        return Unauthorized;
      }
      var made := GenerateAuthCookie(user, out.cookie, out.now);
      outcome := Success(made.value.cookie);
    }

    /** The sweep removes the expired cookies and no other. */
    method DestroyExpiredAuthCookies(now: nat)
      modifies this`cookies
      ensures cookies == map u | u in old(cookies) && now <= old(cookies)[u].expirationTime :: old(cookies)[u]
    {
      var left := cookies.Keys;
      while left != {}
        invariant left <= cookies.Keys <= old(cookies).Keys
        invariant forall u :: u in old(cookies) ==>
                    (u in cookies <==> u in left || now <= old(cookies)[u].expirationTime)
        invariant forall u :: u in cookies ==> cookies[u] == old(cookies)[u]
        decreases left
      {
        var u :| u in left;
        if now > cookies[u].expirationTime {
          cookies := cookies - {u};
        }
        left := left - {u};
      }
    }

    method DestroyExpiredCaptchas(now: nat)
      modifies this`captchas
      ensures captchas == map h | h in old(captchas) && now <= old(captchas)[h].expirationTime :: old(captchas)[h]
    {
      var left := captchas.Keys;
      while left != {}
        invariant left <= captchas.Keys <= old(captchas).Keys
        invariant forall h :: h in old(captchas) ==>
                    (h in captchas <==> h in left || now <= old(captchas)[h].expirationTime)
        invariant forall h :: h in captchas ==> captchas[h] == old(captchas)[h]
        decreases left
      {
        var h :| h in left;
        if now > captchas[h].expirationTime {
          captchas := captchas - {h};
        }
        left := left - {h};
      }
    }
  }
}
