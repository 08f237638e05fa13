/**
 * The account rules of backend/controllers/authController.js (login,
 * e-mail verification, the two registrations) and
 * backend/controllers/userController.js (profile update, password change,
 * the reset-token flow), acting on the User table.
 *
 * Hashing, `comparePassword`, token signing, SHA-256, random tokens, the
 * password-strength test of the `validator` package and the clock are
 * parameters: `hash` is what the User model stores for a plaintext
 * password, `matches(plain, stored)` is `comparePassword`.
 */
module Accounts {
  import opened Wrappers
  import opened Seqs
  import opened Http

  /** Ten minutes in milliseconds: the lifetime of a reset token. */
  const TenMinutes: int := 10 * 60 * 1000

  /** A User row. `password` is the stored (hashed) value. */
  datatype User = User(
    id: string,
    name: string,
    email: string,
    password: string,
    role: string,
    isVerified: bool,
    resetToken: Option<string>,
    resetExpires: Option<int>)

  /** The body of a successful login or user registration. */
  datatype Session = Session(id: string, name: string, email: string, role: string, token: string)

  /** A mail handed to the transport, recorded in place of being sent. */
  datatype Mail = Verification(userId: string, to: string) | ResetLink(to: string, rawToken: string)

  /** JavaScript truthiness of an optional string body field: present and non-empty. */
  predicate Truthy(v: Option<string>)
  {
    v.Some? && v.value != ""
  }

  function UserId(u: User): string
  {
    u.id
  }

  function UserEmail(u: User): string
  {
    u.email
  }

  /** The `where: { email }` test. */
  function HasEmail(email: string): User -> bool
  {
    (u: User) => u.email == email
  }

  /** The primary-key test of `findByPk`. */
  function HasId(id: string): User -> bool
  {
    (u: User) => u.id == id
  }

  /** The reset lookup: the stored token equals `hashed` and its expiry is strictly after `now`. */
  predicate HoldsToken(u: User, hashed: string, now: int)
  {
    u.resetToken == Some(hashed) && u.resetExpires.Some? && u.resetExpires.value > now
  }

  function TokenHeldAt(hashed: string, now: int): User -> bool
  {
    (u: User) => HoldsToken(u, hashed, now)
  }

  /** The role a registration stores: `role || 'user'`. */
  function RoleOrUser(role: Option<string>): (r: string)
    ensures Truthy(role) ==> r == role.value
    ensures !Truthy(role) ==> r == "user"
  {
    if Truthy(role) then role.value else "user"
  }

  /**
   * The lookup by e-mail finds the account with that e-mail when there is
   * one; with distinct e-mails it is the only one.
   */
  lemma FindByEmailIsUnique(users: seq<User>, email: string)
    requires UniqueBy(users, UserEmail)
    ensures FirstIndex(users, HasEmail(email)).None? <==> forall j :: 0 <= j < |users| ==> users[j].email != email
    ensures FirstIndex(users, HasEmail(email)).Some? ==>
      forall j :: 0 <= j < |users| && users[j].email == email ==> j == FirstIndex(users, HasEmail(email)).value
  {
    var k := FirstIndex(users, HasEmail(email));
    if k.Some? {
      assert UserEmail(users[k.value]) == email;
      forall j | 0 <= j < |users| && users[j].email == email ensures j == k.value {
        assert UserEmail(users[j]) == UserEmail(users[k.value]);
      }
    }
  }

  /**
   * A token stored at time `t0` with the ten-minute expiry is accepted at
   * time `t` exactly when `t` is before `t0 + 600000`.
   */
  lemma TokenWindow(u: User, hashed: string, t0: int, t: int)
    ensures HoldsToken(u.(resetToken := Some(hashed), resetExpires := Some(t0 + TenMinutes)), hashed, t)
        <==> t < t0 + 600000
  {
  }

  /**
   * Once a reset has cleared the token of the account it matched, the same
   * token matches no account at any later time, unless some other account
   * holds the same hash.
   */
  lemma {:induction false} ResetTokenIsSingleUse(users: seq<User>, hashed: string, now: int, later: int, newPassword: string)
    requires FirstIndex(users, TokenHeldAt(hashed, now)).Some?
    requires forall j :: 0 <= j < |users| && j != FirstIndex(users, TokenHeldAt(hashed, now)).value ==>
      users[j].resetToken != Some(hashed)
    ensures var k := FirstIndex(users, TokenHeldAt(hashed, now)).value;
      FirstIndex(users[k := users[k].(password := newPassword, resetToken := None, resetExpires := None)],
                 TokenHeldAt(hashed, later)).None?
  {
    var k := FirstIndex(users, TokenHeldAt(hashed, now)).value;
    var after := users[k := users[k].(password := newPassword, resetToken := None, resetExpires := None)];
    forall j | 0 <= j < |after| ensures !TokenHeldAt(hashed, later)(after[j]) {
      if j != k {
        assert after[j] == users[j];
      }
    }
  }

  /** Replacing one row by a row with the same id and an e-mail no other row has keeps ids and e-mails distinct. */
  lemma {:induction false} ReplaceKeepsUnique(users: seq<User>, k: nat, u: User)
    requires k < |users| && u.id == users[k].id
    requires UniqueBy(users, UserId) && UniqueBy(users, UserEmail)
    requires u.email == users[k].email || forall j :: 0 <= j < |users| ==> users[j].email != u.email
    ensures UniqueBy(users[k := u], UserId) && UniqueBy(users[k := u], UserEmail)
  {
    var after := users[k := u];
    forall i, j | 0 <= i < |after| && 0 <= j < |after| && UserId(after[i]) == UserId(after[j])
      ensures i == j
    {
      assert UserId(users[i]) == UserId(after[i]) && UserId(users[j]) == UserId(after[j]);
    }
    forall i, j | 0 <= i < |after| && 0 <= j < |after| && UserEmail(after[i]) == UserEmail(after[j])
      ensures i == j
    {
      if i != k && j != k {
        assert after[i] == users[i] && after[j] == users[j];
      } else if u.email == users[k].email {
        assert UserEmail(users[i]) == UserEmail(after[i]) && UserEmail(users[j]) == UserEmail(after[j]);
      }
    }
  }

  /** Appending an account whose id and e-mail are new keeps ids and e-mails distinct. */
  lemma AppendKeepsUnique(users: seq<User>, u: User)
    requires UniqueBy(users, UserId) && UniqueBy(users, UserEmail)
    requires FirstIndex(users, HasId(u.id)).None? && FirstIndex(users, HasEmail(u.email)).None?
    ensures UniqueBy(users + [u], UserId) && UniqueBy(users + [u], UserEmail)
  {
    forall j | 0 <= j < |users| ensures UserId(users[j]) != UserId(u) && UserEmail(users[j]) != UserEmail(u) {
      assert !HasId(u.id)(users[j]) && !HasEmail(u.email)(users[j]);
    }
    AppendFreshKeepsUnique(users, u, UserId);
    AppendFreshKeepsUnique(users, u, UserEmail);
  }

  /** The User table and the mails handed to the transport. */
  class UserTable {
    var users: seq<User>
    var outbox: seq<Mail>

    /** Every account has its own id and its own e-mail. */
    ghost predicate Valid()
      reads this
    {
      UniqueBy(users, UserId) && UniqueBy(users, UserEmail)
    }

    constructor ()
      ensures Valid() && users == [] && outbox == []
    {
      users := [];
      outbox := [];
    }

    /**
     * `loginUser`: an unknown e-mail and a wrong password get the same 401
     * answer; otherwise the account's public fields and a signed token.
     */
    method LoginUser(email: string, password: string,
                     matches: (string, string) -> bool, sign: (string, string) -> string)
      returns (resp: Response, session: Option<Session>)
      ensures var k := FirstIndex(users, HasEmail(email));
        k.None? || !matches(password, users[k.value].password) ==>
          resp == Response(401, "Invalid email or password") && session.None?
      ensures var k := FirstIndex(users, HasEmail(email));
        k.Some? && matches(password, users[k.value].password) ==>
          && resp.status == 200
          && session == Some(Session(users[k.value].id, users[k.value].name, users[k.value].email,
                                     users[k.value].role, sign(users[k.value].id, users[k.value].role)))
      ensures resp.status == 401 <==> session.None?
    {
      var k := FirstIndex(users, HasEmail(email));
      if k.None? {
        return Response(401, "Invalid email or password"), None;
      }
      var u := users[k.value];
      if !matches(password, u.password) {
        return Response(401, "Invalid email or password"), None;
      }
      resp := Response(200, "");
      session := Some(Session(u.id, u.name, u.email, u.role, sign(u.id, u.role)));
    }

    /** `verifyEmail`: marks the account verified, or 404 when there is none with that id. */
    method VerifyEmail(userId: string) returns (resp: Response)
      requires Valid()
      modifies this
      ensures Valid() && outbox == old(outbox)
      ensures FirstIndex(old(users), HasId(userId)).None? ==>
        resp == Response(404, "User not found") && users == old(users)
      ensures FirstIndex(old(users), HasId(userId)).Some? ==>
        var k := FirstIndex(old(users), HasId(userId)).value;
        resp == Response(200, "Email verified successfully!") &&
        users == old(users)[k := old(users)[k].(isVerified := true)]
    {
      var k := FirstIndex(users, HasId(userId));
      if k.None? {
        return Response(404, "User not found");
      }
      ReplaceKeepsUnique(users, k.value, users[k.value].(isVerified := true));
      users := users[k.value := users[k.value].(isVerified := true)];
      resp := Response(200, "Email verified successfully!");
    }

    /**
     * `registerUser`: a weak password is refused before the e-mail is looked
     * up, an e-mail already in use is refused, and otherwise the account is
     * created with role `role || 'user'`. A verification mail that fails to
     * send turns the answer into 500, but the account stays created.
     */
    method RegisterUser(name: string, email: string, password: string, role: Option<string>,
                        strong: string -> bool, hash: string -> string, sign: (string, string) -> string,
                        freshId: string, mailOk: bool)
      returns (resp: Response, session: Option<Session>)
      requires Valid()
      requires FirstIndex(users, HasId(freshId)).None?  // a fresh UUID
      modifies this
      ensures Valid()
      ensures !strong(password) ==>
        && resp == Response(400, "Password must be at least 8 characters long, contain a number, a symbol, and an uppercase letter")
        && session.None? && users == old(users) && outbox == old(outbox)
      ensures strong(password) && FirstIndex(old(users), HasEmail(email)).Some? ==>
        && resp == Response(400, "User already exists")
        && session.None? && users == old(users) && outbox == old(outbox)
      ensures strong(password) && FirstIndex(old(users), HasEmail(email)).None? ==>
        && users == old(users) + [User(freshId, name, email, hash(password), RoleOrUser(role), false, None, None)]
        && (mailOk ==>
              && outbox == old(outbox) + [Verification(freshId, email)]
              && resp.status == 201
              && session == Some(Session(freshId, name, email, RoleOrUser(role), sign(freshId, RoleOrUser(role)))))
        && (!mailOk ==>
              && outbox == old(outbox)
              && resp == Response(500, "An error occurred during registration") && session.None?)
    {
      if !strong(password) {
        return Response(400, "Password must be at least 8 characters long, contain a number, a symbol, and an uppercase letter"), None;
      }
      if FirstIndex(users, HasEmail(email)).Some? {
        return Response(400, "User already exists"), None;
      }
      var u := User(freshId, name, email, hash(password), RoleOrUser(role), false, None, None);
      AppendKeepsUnique(users, u);
      users := users + [u];
      if !mailOk {
        return Response(500, "An error occurred during registration"), None;
      }
      outbox := outbox + [Verification(freshId, email)];
      resp := Response(201, "");
      session := Some(Session(u.id, u.name, u.email, u.role, sign(u.id, u.role)));
    }

    /**
     * `registerBusinessOwner`: an empty name, e-mail or password is refused
     * first, then a weak password, then an e-mail in use; a created account
     * always has role `businessOwner` and is not verified.
     */
    method RegisterBusinessOwner(name: string, email: string, password: string,
                                 strong: string -> bool, hash: string -> string, sign: (string, string) -> string,
                                 freshId: string)
      returns (resp: Response, token: Option<string>)
      requires Valid()
      requires FirstIndex(users, HasId(freshId)).None?
      modifies this
      ensures Valid() && outbox == old(outbox)
      ensures token.Some? <==> resp.status == 201
      ensures name == "" || email == "" || password == "" ==>
        resp == Response(400, "Name, email, and password are required.") && users == old(users)
      ensures name != "" && email != "" && password != "" && !strong(password) ==>
        resp == Response(400, "Password must be at least 8 characters and include uppercase, number, symbol.") &&
        users == old(users)
      ensures name != "" && email != "" && password != "" && strong(password) &&
              FirstIndex(old(users), HasEmail(email)).Some? ==>
        resp == Response(400, "A user with this email already exists.") && users == old(users)
      ensures name != "" && email != "" && password != "" && strong(password) &&
              FirstIndex(old(users), HasEmail(email)).None? ==>
        && users == old(users) + [User(freshId, name, email, hash(password), "businessOwner", false, None, None)]
        && resp == Response(201, "Business owner user registered successfully. You can now create your restaurant.")
        && token == Some(sign(freshId, "businessOwner"))
    {
      if name == "" || email == "" || password == "" {
        return Response(400, "Name, email, and password are required."), None;
      }
      if !strong(password) {
        return Response(400, "Password must be at least 8 characters and include uppercase, number, symbol."), None;
      }
      if FirstIndex(users, HasEmail(email)).Some? {
        return Response(400, "A user with this email already exists."), None;
      }
      var u := User(freshId, name, email, hash(password), "businessOwner", false, None, None);
      AppendKeepsUnique(users, u);
      users := users + [u];
      resp := Response(201, "Business owner user registered successfully. You can now create your restaurant.");
      token := Some(sign(u.id, u.role));
    }

    /**
     * `updateUserProfile`: a new e-mail that another account uses is refused
     * with 400, and one whose verification mail fails with 500, both without
     * saving anything; otherwise the e-mail changes only if a different one
     * was given, the name falls back to the stored one when the body's is
     * empty, and the password is replaced when the body's differs from the
     * stored value.
     */
    method UpdateUserProfile(id: string, name: Option<string>, email: Option<string>, password: Option<string>,
                             hash: string -> string, mailOk: bool)
      returns (resp: Response)
      requires Valid()
      modifies this
      ensures Valid()
      ensures FirstIndex(old(users), HasId(id)).None? ==>
        resp == Response(404, "User not found") && users == old(users) && outbox == old(outbox)
      ensures FirstIndex(old(users), HasId(id)).Some? ==>
        var k := FirstIndex(old(users), HasId(id)).value;
        var u := old(users)[k];
        var emailChange := Truthy(email) && email.value != u.email;
        && (emailChange && FirstIndex(old(users), HasEmail(email.value)).Some? ==>
              resp == Response(400, "Email is already in use by another account") &&
              users == old(users) && outbox == old(outbox))
        && (emailChange && FirstIndex(old(users), HasEmail(email.value)).None? && !mailOk ==>
              resp == Response(500, "Failed to send verification email") &&
              users == old(users) && outbox == old(outbox))
        && (!emailChange || (FirstIndex(old(users), HasEmail(email.value)).None? && mailOk) ==>
              && resp.status == 200
              && resp.message == (if Truthy(email) then "Profile updated. Please verify your new email."
                                  else "Profile updated successfully.")
              && users == old(users)[k := u.(
                   name := if Truthy(name) then name.value else u.name,
                   email := if emailChange then email.value else u.email,
                   password := if Truthy(password) && password.value != u.password then hash(password.value)
                               else u.password)]
              && outbox == old(outbox) + (if emailChange then [Verification(id, email.value)] else []))
    {
      var k := FirstIndex(users, HasId(id));
      if k.None? {
        return Response(404, "User not found");
      }
      var u := users[k.value];
      var passwordChanged := Truthy(password) && password.value != u.password;
      var newEmail := u.email;
      if Truthy(email) && email.value != u.email {
        if FirstIndex(users, HasEmail(email.value)).Some? {
          return Response(400, "Email is already in use by another account");
        }
        if !mailOk {
          return Response(500, "Failed to send verification email");
        }
        outbox := outbox + [Verification(id, email.value)];
        newEmail := email.value;
      }
      var newName := if Truthy(name) then name.value else u.name;
      var newPassword := if passwordChanged then hash(password.value) else u.password;
      var updated := u.(name := newName, email := newEmail, password := newPassword);
      ReplaceKeepsUnique(users, k.value, updated);
      users := users[k.value := updated];
      resp := Response(200, if Truthy(email) then "Profile updated. Please verify your new email."
                            else "Profile updated successfully.");
    }

    /**
     * `changeUserPassword`: checks in order that the account exists (404),
     * that the current password matches (400), that the new one does not
     * match the stored one (400) and that it is strong (400); only then is
     * the password replaced, and a failed check changes nothing.
     */
    method ChangeUserPassword(id: string, currentPassword: string, newPassword: string,
                              matches: (string, string) -> bool, strong: string -> bool, hash: string -> string)
      returns (resp: Response)
      requires Valid()
      modifies this
      ensures Valid() && outbox == old(outbox)
      ensures FirstIndex(old(users), HasId(id)).None? ==>
        resp == Response(404, "User not found") && users == old(users)
      ensures FirstIndex(old(users), HasId(id)).Some? ==>
        var k := FirstIndex(old(users), HasId(id)).value;
        var stored := old(users)[k].password;
        && (!matches(currentPassword, stored) ==>
              resp == Response(400, "Current password is incorrect") && users == old(users))
        && (matches(currentPassword, stored) && matches(newPassword, stored) ==>
              resp == Response(400, "New password cannot be the same as the current password") && users == old(users))
        && (matches(currentPassword, stored) && !matches(newPassword, stored) && !strong(newPassword) ==>
              resp == Response(400, "Password must be at least 8 characters long, contain a number, a symbol, and an uppercase letter") &&
              users == old(users))
        && (matches(currentPassword, stored) && !matches(newPassword, stored) && strong(newPassword) ==>
              resp == Response(200, "Password updated successfully") &&
              users == old(users)[k := old(users)[k].(password := hash(newPassword))])
      ensures resp.status != 200 ==> users == old(users)
    {
      var k := FirstIndex(users, HasId(id));
      if k.None? {
        return Response(404, "User not found");
      }
      var u := users[k.value];
      if !matches(currentPassword, u.password) {
        return Response(400, "Current password is incorrect");
      }
      if matches(newPassword, u.password) {
        return Response(400, "New password cannot be the same as the current password");
      }
      if !strong(newPassword) {
        return Response(400, "Password must be at least 8 characters long, contain a number, a symbol, and an uppercase letter");
      }
      ReplaceKeepsUnique(users, k.value, u.(password := hash(newPassword)));
      users := users[k.value := u.(password := hash(newPassword))];
      resp := Response(200, "Password updated successfully");
    }

    /**
     * `forgotPassword`: 404 and no token for an unknown e-mail; otherwise the
     * hash of a fresh random token is stored with the expiry `now + 600000`
     * before the link is mailed, so a failed send (500) leaves the token in
     * place.
     */
    method ForgotPassword(email: string, rawToken: string, sha: string -> string, now: int, mailOk: bool)
      returns (resp: Response)
      requires Valid()
      modifies this
      ensures Valid()
      ensures FirstIndex(old(users), HasEmail(email)).None? ==>
        resp == Response(404, "No user found with this email") && users == old(users) && outbox == old(outbox)
      ensures FirstIndex(old(users), HasEmail(email)).Some? ==>
        var k := FirstIndex(old(users), HasEmail(email)).value;
        && users == old(users)[k := old(users)[k].(resetToken := Some(sha(rawToken)), resetExpires := Some(now + TenMinutes))]
        && (forall t :: HoldsToken(users[k], sha(rawToken), t) <==> t < now + 600000)
        && (mailOk ==> resp == Response(200, "Password reset link sent to your email.") &&
                       outbox == old(outbox) + [ResetLink(email, rawToken)])
        && (!mailOk ==> resp == Response(500, "Failed to send reset link") && outbox == old(outbox))
    {
      var k := FirstIndex(users, HasEmail(email));
      if k.None? {
        return Response(404, "No user found with this email");
      }
      var u := users[k.value].(resetToken := Some(sha(rawToken)), resetExpires := Some(now + TenMinutes));
      ReplaceKeepsUnique(users, k.value, u);
      users := users[k.value := u];
      if !mailOk {
        return Response(500, "Failed to send reset link");
      }
      outbox := outbox + [ResetLink(email, rawToken)];
      resp := Response(200, "Password reset link sent to your email.");
    }

    /**
     * `resetPassword`: the first account whose stored token is the hash of
     * the presented one and whose expiry is strictly after `now` gets the
     * new password, and its token and expiry are cleared; with no such
     * account the answer is 400 and nothing changes.
     */
    method ResetPassword(token: string, password: string, sha: string -> string, hash: string -> string, now: int)
      returns (resp: Response)
      requires Valid()
      modifies this
      ensures Valid() && outbox == old(outbox)
      ensures FirstIndex(old(users), TokenHeldAt(sha(token), now)).None? ==>
        resp == Response(400, "Invalid or expired token.") && users == old(users)
      ensures FirstIndex(old(users), TokenHeldAt(sha(token), now)).Some? ==>
        var k := FirstIndex(old(users), TokenHeldAt(sha(token), now)).value;
        && resp == Response(200, "Password reset successfully.")
        && users == old(users)[k := old(users)[k].(password := hash(password), resetToken := None, resetExpires := None)]
        && forall t :: !HoldsToken(users[k], sha(token), t)
    {
      var k := FirstIndex(users, TokenHeldAt(sha(token), now));
      if k.None? {
        return Response(400, "Invalid or expired token.");
      }
      var u := users[k.value].(password := hash(password), resetToken := None, resetExpires := None);
      ReplaceKeepsUnique(users, k.value, u);
      users := users[k.value := u];
      resp := Response(200, "Password reset successfully.");
    }
  }
}
