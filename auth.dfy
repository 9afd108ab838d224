/** The account service (`app/services/auth.py`): user creation, password
    authentication and the password-reset token lifecycle over the user
    collection. Password hashing, password checking, token generation and
    the clock are parameters: a hash or token is passed in as the value the
    hasher or `secrets.token_urlsafe` produced. */
module Auth {
  import opened Wrappers
  import opened Timeline

  /** How long a reset token stays valid. */
  const ResetTokenExpireHours: int := 1

  /** A `User` document (the fields the service reads or writes). */
  datatype User = User(
    email: string,
    hashedPassword: string,
    resetToken: Option<string>,
    resetTokenExpires: Option<DateTime>,
    createdAt: int,
    updatedAt: Option<int>)

  /** `User.find_one({"email": email})`: the position of the first match. */
  function FindEmailIndex(users: seq<User>, email: string): (r: Option<nat>)
    ensures r.None? <==> forall i :: 0 <= i < |users| ==> users[i].email != email
    ensures r.Some? ==> (r.value < |users| && users[r.value].email == email
                         && forall i :: 0 <= i < r.value ==> users[i].email != email)
  {
    if users == [] then None
    else if users[0].email == email then Some(0)
    else
      match FindEmailIndex(users[1..], email)
      case None => None
      case Some(i) => Some(i + 1)
  }

  /** `User.find_one({"reset_token": token})`: the position of the first user
      holding the token. */
  function FindTokenIndex(users: seq<User>, token: string): (r: Option<nat>)
    ensures r.None? <==> forall i :: 0 <= i < |users| ==> users[i].resetToken != Some(token)
    ensures r.Some? ==> (r.value < |users| && users[r.value].resetToken == Some(token)
                         && forall i :: 0 <= i < r.value ==> users[i].resetToken != Some(token))
  {
    if users == [] then None
    else if users[0].resetToken == Some(token) then Some(0)
    else
      match FindTokenIndex(users[1..], token)
      case None => None
      case Some(i) => Some(i + 1)
  }

  /** `authenticate_user`: the first user with this email when `verify`
      accepts the password against the stored hash, otherwise `None`. */
  function Authenticate(users: seq<User>, email: string, password: string, verify: (string, string) -> bool): (r: Option<User>)
    ensures r.Some? <==> FindEmailIndex(users, email).Some?
                         && verify(password, users[FindEmailIndex(users, email).value].hashedPassword)
    ensures r.Some? ==> r.value in users && r.value.email == email
    ensures r.Some? ==> r.value == users[FindEmailIndex(users, email).value]
  {
    match FindEmailIndex(users, email)
    case None => None
    case Some(i) => if verify(password, users[i].hashedPassword) then Some(users[i]) else None
  }

  /** The reset check: no expiry, or an expiry (its wall clock read as UTC)
      strictly before now, refuses the token. */
  predicate ResetExpired(expires: Option<DateTime>, now: int) {
    expires.None? || Instant(AsUtc(expires.value)) < now
  }

  /** The user collection after user `i` was given `token`, valid until one
      hour after `now`. */
  function WithResetToken(users: seq<User>, i: nat, token: string, now: int): (r: seq<User>)
    requires i < |users|
    ensures |r| == |users| && r[i].resetToken == Some(token)
    ensures r[i].resetTokenExpires.Some? && r[i].resetTokenExpires.value.offset == Some(0)
    ensures Instant(r[i].resetTokenExpires.value) == now + ResetTokenExpireHours * MicrosPerHour
    ensures forall j :: 0 <= j < |users| && j != i ==> r[j] == users[j]
    ensures r[i].email == users[i].email && r[i].hashedPassword == users[i].hashedPassword
  {
    users[i := users[i].(resetToken := Some(token),
                         resetTokenExpires := Some(UtcDateTime(now + ResetTokenExpireHours * MicrosPerHour)))]
  }

  /** The user collection after user `i` reset the password to `newHash` at
      `now`: token and expiry cleared, `updated_at` set. */
  function AfterReset(users: seq<User>, i: nat, newHash: string, now: int): (r: seq<User>)
    requires i < |users|
    ensures |r| == |users| && r[i].hashedPassword == newHash
    ensures r[i].resetToken.None? && r[i].resetTokenExpires.None? && r[i].updatedAt == Some(now)
    ensures forall j :: 0 <= j < |users| && j != i ==> r[j] == users[j]
    ensures r[i].email == users[i].email && r[i].createdAt == users[i].createdAt
  {
    users[i := users[i].(hashedPassword := newHash, resetToken := None,
                         resetTokenExpires := None, updatedAt := Some(now))]
  }

  /** The user collection, whose documents `save()` replaces and `insert()`
      appends to. */
  class UserStore {
    var users: seq<User>

    constructor(initial: seq<User>)
      ensures users == initial
    {
      users := initial;
    }

    /** `create_user`: a user with the hashed password and no reset token,
        created now, appended to the collection. */
    method CreateUser(email: string, passwordHash: string, now: int) returns (u: User)
      modifies this
      ensures u == User(email, passwordHash, None, None, now, None)
      ensures users == old(users) + [u]
    {
      u := User(email, passwordHash, None, None, now, None);
      users := users + [u];
    }

    /** `create_password_reset_token`: `None` and nothing saved for an unknown
        email; otherwise the user gets `token`, valid for one hour from now,
        and the same token is returned. */
    method CreatePasswordResetToken(email: string, token: string, now: int) returns (r: Option<string>)
      modifies this
      ensures FindEmailIndex(old(users), email).None? ==> r.None? && users == old(users)
      ensures FindEmailIndex(old(users), email).Some? ==>
        r == Some(token) && users == WithResetToken(old(users), FindEmailIndex(old(users), email).value, token, now)
    {
      var found := FindEmailIndex(users, email);
      if found.None? {
        return None;
      }
      var i := found.value;
      var user := users[i];
      user := user.(resetToken := Some(token));
      user := user.(resetTokenExpires := Some(UtcDateTime(now + ResetTokenExpireHours * MicrosPerHour)));
      users := users[i := user];
      r := Some(token);
    }

    /** `reset_password`: false and nothing saved when no user holds the token
        or its expiry is missing or past; otherwise the holder's password hash
        is replaced, the token and expiry cleared, `updated_at` set, and the
        answer is true. */
    method ResetPassword(token: string, newHash: string, now: int) returns (ok: bool)
      modifies this
      ensures FindTokenIndex(old(users), token).None? ==> !ok && users == old(users)
      ensures FindTokenIndex(old(users), token).Some? ==>
        var i := FindTokenIndex(old(users), token).value;
        if ResetExpired(old(users)[i].resetTokenExpires, now) then !ok && users == old(users)
        else ok && users == AfterReset(old(users), i, newHash, now)
    {
      var found := FindTokenIndex(users, token);
      if found.None? {
        return false;
      }
      var i := found.value;
      var user := users[i];
      if user.resetTokenExpires.None? || Instant(AsUtc(user.resetTokenExpires.value)) < now {
        return false;
      }
      user := user.(hashedPassword := newHash);
      user := user.(resetToken := None);
      user := user.(resetTokenExpires := None);
      user := user.(updatedAt := Some(now));
      users := users[i := user];
      ok := true;
    }
  }

  /** A token nobody else holds, issued at `issued`, is found again and is
      accepted exactly up to and including one hour later. */
  lemma TokenLifetime(users: seq<User>, i: nat, token: string, issued: int, now: int)
    requires i < |users|
    requires forall j :: 0 <= j < |users| && j != i ==> users[j].resetToken != Some(token)
    ensures var after := WithResetToken(users, i, token, issued);
      && FindTokenIndex(after, token) == Some(i)
      && (!ResetExpired(after[i].resetTokenExpires, now) <==> now <= issued + MicrosPerHour)
  {
    var after := WithResetToken(users, i, token, issued);
    var k := FindTokenIndex(after, token);
    assert k.Some? by {
      assert after[i].resetToken == Some(token);
    }
  }

  /** A token works at most once: after a successful reset nobody holds it
      any more, so a second reset with it fails; and the new password then
      authenticates when the verifier accepts it against the new hash. */
  lemma TokenSingleUse(users: seq<User>, i: nat, token: string, newHash: string, newPassword: string,
                       now: int, verify: (string, string) -> bool)
    requires i < |users| && users[i].resetToken == Some(token)
    requires forall j :: 0 <= j < |users| && j != i ==> users[j].resetToken != Some(token)
    requires FindEmailIndex(users, users[i].email) == Some(i)
    requires verify(newPassword, newHash)
    ensures var after := AfterReset(users, i, newHash, now);
      && FindTokenIndex(after, token).None?
      && Authenticate(after, users[i].email, newPassword, verify) == Some(after[i])
  {
    var after := AfterReset(users, i, newHash, now);
    assert FindEmailIndex(after, users[i].email) == Some(i) by {
      EmailIndexKept(users, users[i].email, i, after);
    }
  }

  /** Replacing the found document by one with the same email keeps the
      email lookup at the same position. */
  lemma {:induction false} EmailIndexKept(users: seq<User>, email: string, i: nat, after: seq<User>)
    requires FindEmailIndex(users, email) == Some(i)
    requires |after| == |users| && after[i].email == email
    requires forall j :: 0 <= j < |users| && j != i ==> after[j] == users[j]
    ensures FindEmailIndex(after, email) == Some(i)
  {
    if i > 0 {
      EmailIndexKept(users[1..], email, i - 1, after[1..]);
    }
  }
}
