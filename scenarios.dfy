/** Sequences of requests against one store, and what a client can conclude from the handlers' contracts alone. */
module Scenarios {
  import opened Wrappers
  import opened Requests
  import opened Users
  import opened Ipos
  import opened Http
  import opened Backend
  import Bcrypt
  import Hex

  const EMAIL := "a@x.com"
  const SALT1: Bcrypt.Salt := "saltsaltsaltsaltsalt01"
  const SALT2: Bcrypt.Salt := "saltsaltsaltsaltsalt02"
  const ALICE := User(1, "Alice", EMAIL, Bcrypt.Hash("pw1", SALT1), None, None)

  /**
   * Alice signs up, logs in, fails with a wrong password, resets the password
   * through the returned token and can then log in with the new password only.
   */
  method AliceScenario() returns (codes: seq<nat>)
    ensures codes == [201, 200, 401, 200, 200, 401, 200]
  {
    var store := new Store();
    var first := AliceSignsUp(store);
    var second := AliceResets(store, seq(Hex.TOKEN_BYTES, i => i), 1000);
    codes := first + second;
  }

  method AliceSignsUp(store: Store) returns (codes: seq<nat>)
    requires store.Valid() && store.users == [] && store.nextUserId == 1
    modifies store`users, store`nextUserId
    ensures store.Valid() && store.users == [ALICE]
    ensures codes == [201, 200, 401]
  {
    var r1 := store.Signup(SignupRequest(Some("Alice"), Some(EMAIL), Some("pw1")), SALT1, false);
    assert store.users == [ALICE];
    assert FirstWithEmail(store.users, EMAIL) == Some(0);
    var r2 := store.Login(LoginRequest(Some(EMAIL), Some("pw1")), false);
    var r3 := store.Login(LoginRequest(Some(EMAIL), Some("wrong")), false);
    codes := [r1.status, r2.status, r3.status];
  }

  method AliceResets(store: Store, random: Hex.RandomBytes, now: int) returns (codes: seq<nat>)
    requires store.Valid() && store.users == [ALICE]
    modifies store`users
    ensures codes == [200, 200, 401, 200]
  {
    var r4 := store.ForgotPassword(ForgotRequest(Some(EMAIL)), random, now, false);
    assert ALICE in [ALICE];
    var token := r4.body.debugToken;
    var pending := ALICE.(resetToken := Some(token), resetTokenExpiry := Some(now + RESET_WINDOW_MS));
    assert store.users == [pending];
    assert pending in store.users && HoldsLiveToken(pending, token, now + 1);
    var r5 := store.ResetPassword(ResetRequest(Some(token), Some("pw2")), SALT2, now + 1, false);
    assert store.users == [ALICE.(password := Bcrypt.Hash("pw2", SALT2))];
    assert FirstWithEmail(store.users, EMAIL) == Some(0);
    var r6 := store.Login(LoginRequest(Some(EMAIL), Some("pw1")), false);
    var r7 := store.Login(LoginRequest(Some(EMAIL), Some("pw2")), false);
    codes := [r4.status, r5.status, r6.status, r7.status];
  }

  function Listing(name: string, gain: Option<int>): IpoRequest {
    IpoRequest(Some(name), Some("100-110"), None, None, Some("500 Cr"), Some("Book Built"),
               None, Some("Listed"), None, None, gain, None, None, None, None, None)
  }

  /** Statistics on an empty table, then after one IPO listed at a gain and one at a loss. */
  method StatsScenario() returns (before: Body, after: Body)
    ensures before == StatsBody(0, 0, 0)
    ensures after == StatsBody(2, 1, 1)
  {
    var store := new Store();
    var s1 := store.IpoStats(false);
    before := s1.body;
    var a := store.RegisterIpo(Listing("Alpha", Some(5)), false);
    var b := store.RegisterIpo(Listing("Beta", Some(-2)), false);
    CountsAppend([], store.ipos[0]);
    CountsAppend([store.ipos[0]], store.ipos[1]);
    assert store.ipos == [store.ipos[0]] + [store.ipos[1]];
    var s2 := store.IpoStats(false);
    after := s2.body;
  }

  /** For any new email, signup then login with the same password returns the new user's id, name and email. */
  method SignupThenLogin(store: Store, name: string, email: string, pw: string, salt: Bcrypt.Salt)
    returns (signup: Response, login: Response)
    requires store.Valid()
    requires name != "" && email != "" && pw != ""
    requires FirstWithEmail(store.users, email).None?
    modifies store`users, store`nextUserId
    ensures signup == Success(201, USER_CREATED, NoBody)
    ensures login == Success(200, LOGIN_OK, UserBody(Summary(old(store.nextUserId), name, email)))
  {
    ghost var before := store.users;
    var id := store.nextUserId;
    signup := store.Signup(SignupRequest(Some(name), Some(email), Some(pw)), salt, false);
    SignupIsFound(before, User(id, name, email, Bcrypt.Hash(pw, salt), None, None));
    login := store.Login(LoginRequest(Some(email), Some(pw)), false);
  }

  /**
   * Signup does not refuse an email that is already registered: the second
   * signup succeeds, but login keeps trying the earlier row, so the new
   * password is turned away.
   */
  method DuplicateSignupCannotLogin(store: Store, name: string, email: string, pw: string, salt: Bcrypt.Salt)
    returns (signup: Response, login: Response)
    requires store.Valid()
    requires name != "" && email != "" && pw != ""
    requires FirstWithEmail(store.users, email).Some?
    requires !Bcrypt.Compare(pw, store.users[FirstWithEmail(store.users, email).value].password)
    modifies store`users, store`nextUserId
    ensures signup == Success(201, USER_CREATED, NoBody)
    ensures login == Failure(401, INVALID_CREDENTIALS)
  {
    ghost var before := store.users;
    var i := FirstWithEmail(store.users, email).value;
    var id := store.nextUserId;
    signup := store.Signup(SignupRequest(Some(name), Some(email), Some(pw)), salt, false);
    SignupKeepsFirst(before, User(id, name, email, Bcrypt.Hash(pw, salt), None, None), i);
    assert store.users[i] == before[i];
    login := store.Login(LoginRequest(Some(email), Some(pw)), false);
  }

  /** A token that has served one reset is refused by every later one, whatever the time. */
  method TokenIsSingleUse(store: Store, req: ResetRequest, salt1: Bcrypt.Salt, salt2: Bcrypt.Salt,
                          now: int, later: int) returns (first: Response, second: Response)
    requires store.Valid()
    modifies store`users
    ensures first.status == 200 ==> second == Failure(400, INVALID_TOKEN)
  {
    first := store.ResetPassword(req, salt1, now, false);
    second := store.ResetPassword(req, salt2, later, false);
  }

  /**
   * For any registered email: forgot-password, then a reset within the hour,
   * lets the new password log in as the same user and turns the old one away.
   */
  method ForgotResetLogin(store: Store, email: string, random: Hex.RandomBytes, now: int, later: int,
                          oldPassword: string, newPassword: string, salt: Bcrypt.Salt)
    returns (withNew: Response, withOld: Response)
    requires store.Valid()
    requires email != "" && newPassword != "" && oldPassword != "" && oldPassword != newPassword
    requires now <= later < now + RESET_WINDOW_MS
    requires FirstWithEmail(store.users, email).Some?
    modifies store`users
    ensures withNew.status == 200
    ensures withNew.body == UserBody(SummaryOf(old(store.users)[FirstWithEmail(old(store.users), email).value]))
    ensures withOld == Failure(401, INVALID_CREDENTIALS)
  {
    var i := FirstWithEmail(store.users, email).value;
    ghost var before := store.users;
    var f := store.ForgotPassword(ForgotRequest(Some(email)), random, now, false);
    assert before[i] in before;
    var token := f.body.debugToken;
    ForgotMakesTokenLive(before, email, token, now + RESET_WINDOW_MS, later, i);
    ghost var pending := store.users;
    var r := store.ResetPassword(ResetRequest(Some(token), Some(newPassword)), salt, later, false);
    ResetChangesLogin(pending, email, token, newPassword, salt, i);
    withNew := store.Login(LoginRequest(Some(email), Some(newPassword)), false);
    withOld := store.Login(LoginRequest(Some(email), Some(oldPassword)), false);
  }
}
