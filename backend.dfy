/**
 * The eight route handlers, as methods of a store that holds the two tables.
 * Each request is one atomic step. The inputs that the Express handlers take
 * from outside are parameters: the salt that bcrypt draws, the random bytes
 * of a reset token, the clock `now` in milliseconds, and `fault`, which says
 * that a statement of this request throws and the handler answers 500.
 */
module Backend {
  import opened Wrappers
  import opened Requests
  import opened Users
  import opened Ipos
  import opened Http
  import Bcrypt
  import Hex

  /** A reset token is valid for one hour. */
  const RESET_WINDOW_MS := 3600000

  class Store {
    var users: seq<User>
    var ipos: seq<Ipo>
    var nextUserId: nat  // AUTO_INCREMENT of `users`
    var nextIpoId: nat   // AUTO_INCREMENT of `ipo_info`

    ghost predicate Valid()
      reads this
    {
      Users.WellFormed(users, nextUserId) && Ipos.WellFormed(ipos, nextIpoId)
    }

    constructor ()
      ensures Valid()
      ensures users == [] && ipos == [] && nextUserId == 1 && nextIpoId == 1
    {
      users, ipos := [], [];
      nextUserId, nextIpoId := 1, 1;
    }

    /** `POST /signup` */
    method Signup(req: SignupRequest, salt: Bcrypt.Salt, fault: bool) returns (r: Response)
      requires Valid()
      modifies this`users, this`nextUserId
      ensures Valid() && Consistent(r)
      ensures !SignupComplete(req) ==>
        r == Failure(400, ALL_FIELDS_REQUIRED) && users == old(users) && nextUserId == old(nextUserId)
      ensures SignupComplete(req) && fault ==>
        r == Failure(500, SIGNUP_STORE_ERROR) && users == old(users) && nextUserId == old(nextUserId)
      ensures SignupComplete(req) && !fault ==>
        && r == Success(201, USER_CREATED, NoBody)
        && users == old(users) + [User(old(nextUserId), req.name.value, req.email.value,
                                       Bcrypt.Hash(req.password.value, salt), None, None)]
        && nextUserId == old(nextUserId) + 1
      ensures r.status == 201 ==> users[|users| - 1].password != req.password.value
    {
      if !SignupComplete(req) {
        return Failure(400, ALL_FIELDS_REQUIRED);
      }
      if fault {
        return Failure(500, SIGNUP_STORE_ERROR);
      }
      var hashed := Bcrypt.Hash(req.password.value, salt);
      Users.AppendKeepsWellFormed(users, nextUserId, req.name.value, req.email.value, hashed);
      users := users + [User(nextUserId, req.name.value, req.email.value, hashed, None, None)];
      nextUserId := nextUserId + 1;
      r := Success(201, USER_CREATED, NoBody);
    }

    /** `POST /registerIpo` */
    method RegisterIpo(req: IpoRequest, fault: bool) returns (r: Response)
      requires Valid()
      modifies this`ipos, this`nextIpoId
      ensures Valid() && Consistent(r)
      ensures !IpoComplete(req) ==>
        r == Failure(400, IPO_FIELDS_MISSING) && ipos == old(ipos) && nextIpoId == old(nextIpoId)
      ensures IpoComplete(req) && fault ==>
        r == Failure(500, IPO_REGISTER_ERROR) && ipos == old(ipos) && nextIpoId == old(nextIpoId)
      ensures IpoComplete(req) && !fault ==>
        && r == Success(201, IPO_REGISTERED, IpoIdBody(old(nextIpoId)))
        && ipos == old(ipos) + [Ipo(old(nextIpoId), req)]
        && nextIpoId == old(nextIpoId) + 1
    {
      if !IpoComplete(req) {
        return Failure(400, IPO_FIELDS_MISSING);
      }
      if fault {
        return Failure(500, IPO_REGISTER_ERROR);
      }
      var id := nextIpoId;
      Ipos.AppendKeepsWellFormed(ipos, nextIpoId, req);
      ipos := ipos + [Ipo(id, req)];
      nextIpoId := nextIpoId + 1;
      r := Success(201, IPO_REGISTERED, IpoIdBody(id));
    }

    /** `GET /registerIpo`: an empty table is answered with 404, not with an empty list. */
    method ListIpos(fault: bool) returns (r: Response)
      requires Valid()
      ensures Consistent(r)
      ensures fault ==> r == Failure(500, IPO_LIST_ERROR)
      ensures !fault ==> (r.status == 404 <==> ipos == [])
      ensures !fault && ipos == [] ==> r == Failure(404, NO_IPOS)
      ensures !fault && ipos != [] ==> r == Response(200, true, None, IpoRows(ipos))
    {
      if fault {
        return Failure(500, IPO_LIST_ERROR);
      }
      var rows := ipos;
      if |rows| == 0 {
        return Failure(404, NO_IPOS);
      }
      r := Response(200, true, None, IpoRows(rows));
    }

    /** `DELETE /deleteIpo/:id` */
    method DeleteIpo(id: int, fault: bool) returns (r: Response)
      requires Valid()
      modifies this`ipos
      ensures Valid() && Consistent(r)
      ensures fault ==> r == Failure(500, IPO_DELETE_ERROR) && ipos == old(ipos)
      ensures !fault ==> ipos == RemoveId(old(ipos), id)
      ensures !fault ==> (r.status == 404 <==> forall x :: x in old(ipos) ==> x.id != id)
      ensures !fault && r.status == 404 ==> r == Failure(404, IPO_NOT_FOUND) && ipos == old(ipos)
      ensures !fault && r.status != 404 ==>
        && r == Success(200, IPO_DELETED, NoBody)
        && exists k :: 0 <= k < |old(ipos)| && old(ipos)[k].id == id && ipos == old(ipos)[..k] + old(ipos)[k + 1..]
    {
      if fault {
        return Failure(500, IPO_DELETE_ERROR);
      }
      var rest := RemoveId(ipos, id);
      DeleteCases(ipos, nextIpoId, id);
      var affectedRows := |ipos| - |rest|;
      if affectedRows == 0 {
        return Failure(404, IPO_NOT_FOUND);
      }
      ipos := rest;
      r := Success(200, IPO_DELETED, NoBody);
    }

    /** `GET /ipo-stats` */
    method IpoStats(fault: bool) returns (r: Response)
      requires Valid()
      ensures Consistent(r)
      ensures fault ==> r == Failure(500, IPO_STATS_ERROR)
      ensures !fault ==> r.status == 200 && r.message == None && r.body.StatsBody?
      ensures r.body.StatsBody? ==>
        && r.body.totalIpo == |ipos|
        && r.body.gainIpo == CountGain(ipos)
        && r.body.lossIpo == CountLoss(ipos)
        && r.body.gainIpo + r.body.lossIpo <= r.body.totalIpo
      ensures !fault && ipos == [] ==> r.body == StatsBody(0, 0, 0)
    {
      if fault {
        return Failure(500, IPO_STATS_ERROR);
      }
      StatsPartition(ipos);
      r := Response(200, true, None, StatsBody(|ipos|, CountGain(ipos), CountLoss(ipos)));
    }

    /**
     * `POST /login`. An unknown email and a wrong password give the same
     * response; only the first row with the email is tried.
     */
    method Login(req: LoginRequest, fault: bool) returns (r: Response)
      requires Valid()
      ensures Consistent(r)
      ensures !LoginComplete(req) ==> r == Failure(400, ALL_FIELDS_REQUIRED)
      ensures LoginComplete(req) && fault ==> r == Failure(500, LOGIN_ERROR)
      ensures r.status == 401 ==> r == Failure(401, INVALID_CREDENTIALS)
      ensures LoginComplete(req) && !fault ==>
        match FirstWithEmail(users, req.email.value)
        case None => r.status == 401
        case Some(i) =>
          if Bcrypt.Compare(req.password.value, users[i].password)
          then r == Success(200, LOGIN_OK, UserBody(SummaryOf(users[i])))
          else r.status == 401
      ensures r.status in {200, 400, 401, 500}
    {
      if !LoginComplete(req) {
        return Failure(400, ALL_FIELDS_REQUIRED);
      }
      if fault {
        return Failure(500, LOGIN_ERROR);
      }
      var rows := WithEmail(users, req.email.value);
      if |rows| == 0 {
        return Failure(401, INVALID_CREDENTIALS);
      }
      var user := rows[0];
      if !Bcrypt.Compare(req.password.value, user.password) {
        return Failure(401, INVALID_CREDENTIALS);
      }
      r := Success(200, LOGIN_OK, UserBody(SummaryOf(user)));
    }

    /** `POST /forgot-password`: sets a fresh token pair on every row with the email and returns the token. */
    method ForgotPassword(req: ForgotRequest, random: Hex.RandomBytes, now: int, fault: bool) returns (r: Response)
      requires Valid()
      modifies this`users
      ensures Valid() && Consistent(r)
      ensures !ForgotComplete(req) ==> r == Failure(400, EMAIL_REQUIRED) && users == old(users)
      ensures ForgotComplete(req) && fault ==> r == Failure(500, FORGOT_ERROR) && users == old(users)
      ensures ForgotComplete(req) && !fault ==>
        (r.status == 404 <==> forall u :: u in old(users) ==> u.email != req.email.value)
      ensures ForgotComplete(req) && !fault && r.status == 404 ==>
        r == Failure(404, USER_NOT_FOUND) && users == old(users)
      ensures ForgotComplete(req) && !fault && r.status != 404 ==>
        && r == Success(200, RESET_LINK_SENT, TokenBody(Hex.Token(random)))
        && users == SetResetToken(old(users), req.email.value, Hex.Token(random), now + RESET_WINDOW_MS)
      ensures r.body.TokenBody? ==> |r.body.debugToken| == 64
    {
      if !ForgotComplete(req) {
        return Failure(400, EMAIL_REQUIRED);
      }
      if fault {
        return Failure(500, FORGOT_ERROR);
      }
      var email := req.email.value;
      var rows := WithEmail(users, email);
      if |rows| == 0 {
        return Failure(404, USER_NOT_FOUND);
      }
      var token := Hex.Token(random);
      var expiry := now + RESET_WINDOW_MS;
      SetResetTokenKeepsWellFormed(users, nextUserId, email, token, expiry);
      users := SetResetToken(users, email, token, expiry);
      r := Success(200, RESET_LINK_SENT, TokenBody(token));
    }

    /**
     * `POST /reset-password`: a live token replaces the password and clears
     * the token pair; an unknown or expired token changes nothing.
     */
    method ResetPassword(req: ResetRequest, salt: Bcrypt.Salt, now: int, fault: bool) returns (r: Response)
      requires Valid()
      modifies this`users
      ensures Valid() && Consistent(r)
      ensures !ResetComplete(req) ==> r == Failure(400, RESET_FIELDS_REQUIRED) && users == old(users)
      ensures ResetComplete(req) && fault ==> r == Failure(500, RESET_ERROR) && users == old(users)
      ensures ResetComplete(req) && !fault ==>
        (r.status == 200 <==> exists u :: u in old(users) && HoldsLiveToken(u, req.token.value, now))
      ensures ResetComplete(req) && !fault && r.status != 200 ==>
        r == Failure(400, INVALID_TOKEN) && users == old(users)
      ensures ResetComplete(req) && !fault && r.status == 200 ==>
        && r == Success(200, PASSWORD_RESET, NoBody)
        && users == ClearResetToken(old(users), req.token.value, Bcrypt.Hash(req.newPassword.value, salt))
      ensures r.status == 200 ==> forall u :: u in users ==> u.resetToken != Some(req.token.value)
    {
      if !ResetComplete(req) {
        return Failure(400, RESET_FIELDS_REQUIRED);
      }
      if fault {
        return Failure(500, RESET_ERROR);
      }
      var token := req.token.value;
      var rows := WithLiveToken(users, token, now);
      if |rows| == 0 {
        return Failure(400, INVALID_TOKEN);
      }
      assert rows[0] in users;
      var hashed := Bcrypt.Hash(req.newPassword.value, salt);
      ClearResetTokenKeepsWellFormed(users, nextUserId, token, hashed);
      ClearedTokenIsDead(users, token, hashed, now);
      users := ClearResetToken(users, token, hashed);
      r := Success(200, PASSWORD_RESET, NoBody);
    }
  }
}
