/**
 * The `users` table as a sequence of rows in primary-key order, and the SQL
 * statements the authentication routes run over it, each as a function on
 * that sequence.
 */
module Users {
  import opened Wrappers
  import Bcrypt

  datatype User = User(
    id: nat, name: string, email: string,
    password: string,               // always a bcrypt hash
    resetToken: Option<string>,
    resetTokenExpiry: Option<int>)  // milliseconds

  /** The user summary that a successful login returns: no hash, no token. */
  datatype Summary = Summary(id: nat, name: string, email: string)

  function SummaryOf(u: User): Summary {
    Summary(u.id, u.name, u.email)
  }

  /** The reset token and its expiry are set and cleared together. */
  predicate TokenPairConsistent(u: User) {
    u.resetToken.None? <==> u.resetTokenExpiry.None?
  }

  /** Ids are positive, below the next auto-increment value and increase along the table. */
  predicate WellFormed(users: seq<User>, nextId: nat) {
    && 1 <= nextId
    && (forall i :: 0 <= i < |users| ==> 1 <= users[i].id < nextId && TokenPairConsistent(users[i]))
    && (forall i, j :: 0 <= i < j < |users| ==> users[i].id < users[j].id)
  }

  /** A signup appends a row under the next id with no token pair, which keeps the table well formed. */
  lemma AppendKeepsWellFormed(users: seq<User>, nextId: nat, name: string, e: string, hash: string)
    requires WellFormed(users, nextId)
    ensures WellFormed(users + [User(nextId, name, e, hash, None, None)], nextId + 1)
  {
  }

  /** The index of the first row with email `e`, the row `users[0]` of a `WHERE email = ?` result. */
  function FirstWithEmail(users: seq<User>, e: string): (r: Option<nat>)
    ensures r.Some? ==> r.value < |users| && users[r.value].email == e
    ensures r.Some? ==> forall j :: 0 <= j < r.value ==> users[j].email != e
    ensures r.None? <==> forall j :: 0 <= j < |users| ==> users[j].email != e
  {
    if users == [] then None
    else if users[0].email == e then Some(0)
    else
      match FirstWithEmail(users[1..], e)
      case None => None
      case Some(k) => Some(k + 1)
  }

  /** `SELECT * FROM users WHERE email = ?` */
  function WithEmail(users: seq<User>, e: string): (r: seq<User>)
    ensures forall u :: u in r <==> u in users && u.email == e
    ensures r == [] <==> FirstWithEmail(users, e).None?
    ensures r != [] ==> r[0] == users[FirstWithEmail(users, e).value]
  {
    if users == [] then []
    else if users[0].email == e then [users[0]] + WithEmail(users[1..], e)
    else WithEmail(users[1..], e)
  }

  /** A row whose reset token is `token` and whose expiry is later than `now`. */
  predicate HoldsLiveToken(u: User, token: string, now: int) {
    u.resetToken == Some(token) && u.resetTokenExpiry.Some? && u.resetTokenExpiry.value > now
  }

  /** `SELECT * FROM users WHERE reset_token = ? AND reset_token_expiry > NOW()` */
  function WithLiveToken(users: seq<User>, token: string, now: int): (r: seq<User>)
    ensures forall u :: u in r <==> u in users && HoldsLiveToken(u, token, now)
  {
    if users == [] then []
    else if HoldsLiveToken(users[0], token, now) then [users[0]] + WithLiveToken(users[1..], token, now)
    else WithLiveToken(users[1..], token, now)
  }

  /** `UPDATE users SET reset_token = ?, reset_token_expiry = ? WHERE email = ?` */
  function SetResetToken(users: seq<User>, e: string, token: string, expiry: int): (r: seq<User>)
    ensures |r| == |users|
    ensures forall i :: 0 <= i < |users| && users[i].email == e ==>
              r[i] == users[i].(resetToken := Some(token), resetTokenExpiry := Some(expiry))
    ensures forall i :: 0 <= i < |users| && users[i].email != e ==> r[i] == users[i]
  {
    if users == [] then []
    else
      var head := if users[0].email == e
        then users[0].(resetToken := Some(token), resetTokenExpiry := Some(expiry))
        else users[0];
      [head] + SetResetToken(users[1..], e, token, expiry)
  }

  /** `UPDATE users SET password = ?, reset_token = NULL, reset_token_expiry = NULL WHERE reset_token = ?` */
  function ClearResetToken(users: seq<User>, token: string, hash: string): (r: seq<User>)
    ensures |r| == |users|
    ensures forall i :: 0 <= i < |users| && users[i].resetToken == Some(token) ==>
              r[i] == users[i].(password := hash, resetToken := None, resetTokenExpiry := None)
    ensures forall i :: 0 <= i < |users| && users[i].resetToken != Some(token) ==> r[i] == users[i]
  {
    if users == [] then []
    else
      var head := if users[0].resetToken == Some(token)
        then users[0].(password := hash, resetToken := None, resetTokenExpiry := None)
        else users[0];
      [head] + ClearResetToken(users[1..], token, hash)
  }

  /** Once a reset has cleared a token, no row holds it any more: the token is single-use. */
  lemma {:induction false} ClearedTokenIsDead(users: seq<User>, token: string, hash: string, later: int)
    ensures forall u :: u in ClearResetToken(users, token, hash) ==> u.resetToken != Some(token)
    ensures WithLiveToken(ClearResetToken(users, token, hash), token, later) == []
  {
    var r := ClearResetToken(users, token, hash);
    forall u | u in r ensures u.resetToken != Some(token) {
      var i :| 0 <= i < |r| && r[i] == u;
    }
    if WithLiveToken(r, token, later) != [] {
      var w := WithLiveToken(r, token, later);
      assert w[0] in r;
    }
  }

  /** Setting a token pair touches no id and sets both halves of the pair. */
  lemma SetResetTokenKeepsWellFormed(users: seq<User>, nextId: nat, e: string, token: string, expiry: int)
    requires WellFormed(users, nextId)
    ensures WellFormed(SetResetToken(users, e, token, expiry), nextId)
  {
  }

  /** Clearing a token pair touches no id and clears both halves of the pair. */
  lemma ClearResetTokenKeepsWellFormed(users: seq<User>, nextId: nat, token: string, hash: string)
    requires WellFormed(users, nextId)
    ensures WellFormed(ClearResetToken(users, token, hash), nextId)
  {
  }

  /** Updates that keep every email keep the first row for each email. */
  lemma FirstWithEmailFollowsEmails(a: seq<User>, b: seq<User>, e: string)
    requires |a| == |b|
    requires forall i :: 0 <= i < |a| ==> a[i].email == b[i].email
    ensures FirstWithEmail(a, e) == FirstWithEmail(b, e)
  {
  }

  /** A row appended for a new email is the row a login for that email finds. */
  lemma {:induction false} SignupIsFound(users: seq<User>, u: User)
    requires FirstWithEmail(users, u.email).None?
    ensures FirstWithEmail(users + [u], u.email) == Some(|users|)
  {
    if users != [] {
      assert users[0].email != u.email;
      assert (users + [u])[1..] == users[1..] + [u];
      SignupIsFound(users[1..], u);
    }
  }

  /** A signup for an email that is already registered leaves the earlier row first. */
  lemma SignupKeepsFirst(users: seq<User>, u: User, i: nat)
    requires FirstWithEmail(users, u.email) == Some(i)
    ensures FirstWithEmail(users + [u], u.email) == Some(i)
  {
    var s := users + [u];
    assert forall j :: 0 <= j <= i ==> s[j] == users[j];
  }

  /**
   * After a reset through a token that the first row for `e` holds, that row
   * accepts the new password and no other one.
   */
  lemma ResetChangesLogin(users: seq<User>, e: string, token: string, pw: string, salt: Bcrypt.Salt, i: nat)
    requires FirstWithEmail(users, e) == Some(i)
    requires users[i].resetToken == Some(token)
    ensures FirstWithEmail(ClearResetToken(users, token, Bcrypt.Hash(pw, salt)), e) == Some(i)
    ensures forall q :: Bcrypt.Compare(q, ClearResetToken(users, token, Bcrypt.Hash(pw, salt))[i].password) <==> q == pw
  {
    FirstWithEmailFollowsEmails(users, ClearResetToken(users, token, Bcrypt.Hash(pw, salt)), e);
  }

  /**
   * A forgot-password request sets its token on the row a login for `e` would
   * find, and that token stays live until the expiry.
   */
  lemma ForgotMakesTokenLive(users: seq<User>, e: string, token: string, expiry: int, now: int, i: nat)
    requires FirstWithEmail(users, e) == Some(i)
    requires now < expiry
    ensures var r := SetResetToken(users, e, token, expiry);
      FirstWithEmail(r, e) == Some(i) && HoldsLiveToken(r[i], token, now) && r[i] in WithLiveToken(r, token, now)
  {
    FirstWithEmailFollowsEmails(users, SetResetToken(users, e, token, expiry), e);
  }

  /**
   * A second forgot-password request for the same email supersedes the first:
   * if only rows with email `e` held `earlier`, a fresh, different token leaves
   * `earlier` live nowhere.
   */
  lemma ForgotSupersedes(users: seq<User>, e: string, earlier: string, token: string, expiry: int, now: int)
    requires forall u :: u in users && u.resetToken == Some(earlier) ==> u.email == e
    requires earlier != token
    ensures WithLiveToken(SetResetToken(users, e, token, expiry), earlier, now) == []
  {
  }
}
