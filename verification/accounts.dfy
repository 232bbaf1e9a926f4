/** The user table and the account handlers: log-in, sign-up, the password
    recovery code, and the profile changes of a signed-in user. */
module Accounts {
  import opened Wrappers
  import opened Records
  import opened Validation

  /** What getUser returns for a user id. */
  datatype UserCard = UserCard(id: int, name: string, imagePath: string)

  /** The stand-in getUser returns for id 0, the id anonymous answers carry. */
  const Anonymous := UserCard(0, "Unknown User", "user-images/anonymous.png")

  /** `users` with `edit` applied to every row whose email is `email`. */
  function UpdateWhereEmail(users: seq<User>, email: string, edit: User -> User): (r: seq<User>)
    ensures |r| == |users|
    ensures forall i :: 0 <= i < |users| ==> r[i] == if users[i].email == email then edit(users[i]) else users[i]
  {
    seq(|users|, i requires 0 <= i < |users| => if users[i].email == email then edit(users[i]) else users[i])
  }

  class UserTable {
    /** The rows in creation order; ids auto-increment from 1. */
    var users: seq<User>

    ghost predicate Valid()
      reads this
    {
      && (forall i :: 0 <= i < |users| ==> users[i].id == i + 1)
      && (forall i, j :: 0 <= i < j < |users| ==> users[i].email != users[j].email)
    }

    constructor ()
      ensures Valid() && users == []
    {
      users := [];
    }

    /** `User.findOne({ where: { email } })`. */
    function FindByEmail(email: string): (r: Option<User>)
      reads this
      ensures r.Some? <==> EmailTaken(users, email)
      ensures r.Some? ==> r.value in users && r.value.email == email
    {
      FindByEmailFrom(users, email)
    }

    /** `User.findOne({ where: { id } })`. */
    function FindById(id: int): (r: Option<User>)
      reads this
      requires Valid()
      ensures r.Some? <==> exists i :: 0 <= i < |users| && users[i].id == id
      ensures r.Some? ==> r.value == users[id - 1] && r.value.id == id
    {
      if 1 <= id <= |users| then Some(users[id - 1]) else None
    }

    /** getUser: the anonymous stand-in for 0, otherwise the row's id, name and
        image; a missing row throws (None). */
    function GetUser(id: int): (r: Option<UserCard>)
      reads this
      requires Valid()
      ensures id == 0 ==> r == Some(Anonymous)
      ensures id != 0 ==> (r.Some? <==> exists i :: 0 <= i < |users| && users[i].id == id)
      ensures id != 0 && r.Some? ==>
        r.value.id == id && r.value.name == users[id - 1].name && r.value.imagePath == users[id - 1].imagePath
    {
      if id == 0 then Some(Anonymous)
      else match FindById(id)
        case None => None
        case Some(u) => Some(UserCard(u.id, u.name, u.imagePath))
    }

    /** log-in: a token for the user with that email when validateLogin
        passes, otherwise 400 with its message. Nothing is written. */
    function LogIn(email: string, password: string, crypto: Crypto): (r: Reply)
      reads this
      ensures var v := ValidateLogin(FindByEmail(email), email, password, crypto);
        && (v.isValid ==> var u := FindByEmail(email).value;
              r == Reply(201, Session(crypto.sign(u.id), u.id, u.name, u.imagePath)))
        && (!v.isValid ==> r == Reply(400, Message(v.message)))
      ensures r.status == 201 ==>
        exists i :: 0 <= i < |users| && users[i].email == email && crypto.compare(password, users[i].passwordHash)
    {
      var user := FindByEmail(email);
      var v := ValidateLogin(user, email, password, crypto);
      if v.isValid then
        Reply(201, Session(crypto.sign(user.value.id), user.value.id, user.value.name, user.value.imagePath))
      else Reply(400, Message(v.message))
    }

    /** sign-up: when validateSignup passes, exactly one user is created with
        the hashed password, the default role, no pending recovery code and a
        generated picture; otherwise 400 and nothing is written. */
    method SignUp(name: string, email: string, password: string, confirm: string, termsAccepted: bool,
                  rx: Patterns, crypto: Crypto, generatedName: string) returns (reply: Reply)
      requires Valid()
      modifies this
      ensures Valid()
      ensures var v := old(ValidateSignup(name, email, password, confirm, termsAccepted, rx, users));
        && (!v.isValid ==> reply == Reply(400, Message(v.message)) && users == old(users))
        && (v.isValid ==>
              var id := |old(users)| + 1;
              var path := "user-images/" + generatedName + ".png";
              && users == old(users) + [User(id, name, email, crypto.hash(password), "Student", path, "")]
              && reply == Reply(201, Session(crypto.sign(id), id, name, path)))
    {
      var v := ValidateSignup(name, email, password, confirm, termsAccepted, rx, users);
      if !v.isValid {
        return Reply(400, Message(v.message));
      }
      var id := |users| + 1;
      var path := "user-images/" + generatedName + ".png";
      users := users + [User(id, name, email, crypto.hash(password), "Student", path, "")];
      reply := Reply(201, Session(crypto.sign(id), id, name, path));
    }

    /** forgot-password: when validateEmail passes, `code` (random in the
        source) becomes the pending recovery code of the user with that email,
        and the reply is 201 even if there is no such user. */
    method ForgotPassword(email: string, rx: Patterns, code: string) returns (reply: Reply)
      requires Valid()
      modifies this
      ensures Valid()
      ensures var v := ValidateEmail(email, rx);
        && (!v.isValid ==> reply == Reply(400, Message(v.message)) && users == old(users))
        && (v.isValid ==>
              && reply == Reply(201, Message("A code was sent to your mail."))
              && users == UpdateWhereEmail(old(users), email, (u: User) => u.(forgotPasswordCode := code)))
      ensures ValidateEmail(email, rx).isValid && EmailTaken(old(users), email) ==>
        FindByEmail(email).Some? && FindByEmail(email).value.forgotPasswordCode == code
    {
      var v := ValidateEmail(email, rx);
      if !v.isValid {
        return Reply(400, Message(v.message));
      }
      users := UpdateWhereEmail(users, email, (u: User) => u.(forgotPasswordCode := code));
      reply := Reply(201, Message("A code was sent to your mail."));
    }

    /** change-password with a recovery code, as written: a missing user
        throws (500); validateForgotPassword decides, so an empty code matches
        a user who never requested one (see EmptyCodeAlwaysMatches). On
        success the code is consumed and the hash replaced. */
    method ResetPassword(email: string, code: string, password: string, confirm: string,
                         rx: Patterns, crypto: Crypto) returns (reply: Reply)
      requires Valid()
      modifies this
      ensures Valid()
      ensures old(FindByEmail(email)).None? ==> reply == Reply(500, ServerError) && users == old(users)
      ensures old(FindByEmail(email)).Some? ==>
        var v := ValidateForgotPassword(old(FindByEmail(email)).value.forgotPasswordCode, code, password, confirm, rx);
        && (!v.isValid ==> reply == Reply(400, Message(v.message)) && users == old(users))
        && (v.isValid ==>
              && reply == Reply(201, Message(v.message))
              && users == UpdateWhereEmail(old(users), email,
                            (u: User) => u.(forgotPasswordCode := "", passwordHash := crypto.hash(password)))
              && FindByEmail(email).Some?
              && FindByEmail(email).value.forgotPasswordCode == ""
              && FindByEmail(email).value.passwordHash == crypto.hash(password))
    {
      var user := FindByEmail(email);
      if user.None? {
        return Reply(500, ServerError);
      }
      var v := ValidateForgotPassword(user.value.forgotPasswordCode, code, password, confirm, rx);
      if !v.isValid {
        return Reply(400, Message(v.message));
      }
      Redeem(email, password, crypto);
      reply := Reply(201, Message(v.message));
    }

    /** The same route with the corrected check: only a pending code can be
        redeemed (see ValidateIssuedCode). */
    method ResetPasswordIssued(email: string, code: string, password: string, confirm: string,
                               rx: Patterns, crypto: Crypto) returns (reply: Reply)
      requires Valid()
      modifies this
      ensures Valid()
      ensures old(FindByEmail(email)).None? ==> reply == Reply(500, ServerError) && users == old(users)
      ensures old(FindByEmail(email)).Some? && old(FindByEmail(email)).value.forgotPasswordCode == "" ==>
        reply == Reply(400, Message("Invalid Code")) && users == old(users)
      ensures old(FindByEmail(email)).Some? ==>
        var v := ValidateIssuedCode(old(FindByEmail(email)).value.forgotPasswordCode, code, password, confirm, rx);
        && (!v.isValid ==> reply == Reply(400, Message(v.message)) && users == old(users))
        && (v.isValid ==>
              && reply == Reply(201, Message(v.message))
              && users == UpdateWhereEmail(old(users), email,
                            (u: User) => u.(forgotPasswordCode := "", passwordHash := crypto.hash(password)))
              && FindByEmail(email).Some?
              && FindByEmail(email).value.forgotPasswordCode == ""
              && FindByEmail(email).value.passwordHash == crypto.hash(password))
    {
      var user := FindByEmail(email);
      if user.None? {
        return Reply(500, ServerError);
      }
      var v := ValidateIssuedCode(user.value.forgotPasswordCode, code, password, confirm, rx);
      if !v.isValid {
        return Reply(400, Message(v.message));
      }
      Redeem(email, password, crypto);
      reply := Reply(201, Message(v.message));
    }

    /** The write of a successful reset: every row with that email gets the
        new hash and an empty code. */
    method Redeem(email: string, password: string, crypto: Crypto)
      requires Valid() && EmailTaken(users, email)
      modifies this
      ensures Valid()
      ensures users == UpdateWhereEmail(old(users), email,
                         (u: User) => u.(forgotPasswordCode := "", passwordHash := crypto.hash(password)))
      ensures FindByEmail(email).Some?
      ensures FindByEmail(email).value.forgotPasswordCode == ""
      ensures FindByEmail(email).value.passwordHash == crypto.hash(password)
    {
      users := UpdateWhereEmail(users, email,
                 (u: User) => u.(forgotPasswordCode := "", passwordHash := crypto.hash(password)));
    }

    /** change-password of a signed-in user: a missing user throws (500);
        validatePassword decides; on success only that user's hash changes. */
    method ChangePassword(userId: int, current: string, newPassword: string, confirm: string,
                          rx: Patterns, crypto: Crypto) returns (reply: Reply)
      requires Valid()
      modifies this
      ensures Valid()
      ensures old(FindById(userId)).None? ==> reply == Reply(500, ServerError) && users == old(users)
      ensures old(FindById(userId)).Some? ==>
        var u := old(FindById(userId)).value;
        var v := ValidatePassword(current, newPassword, confirm, u.passwordHash, rx, crypto);
        && (!v.isValid ==> reply == Reply(400, Message(v.message)) && users == old(users))
        && (v.isValid ==>
              && reply == Reply(201, Message(v.message))
              && users == old(users)[userId - 1 := u.(passwordHash := crypto.hash(newPassword))])
    {
      var user := FindById(userId);
      if user.None? {
        return Reply(500, ServerError);
      }
      var v := ValidatePassword(current, newPassword, confirm, user.value.passwordHash, rx, crypto);
      if !v.isValid {
        return Reply(400, Message(v.message));
      }
      users := users[userId - 1 := user.value.(passwordHash := crypto.hash(newPassword))];
      reply := Reply(201, Message(v.message));
    }

    /** change-name: when validateUsername passes, the caller's name changes
        (no uniqueness check) and is echoed back. */
    method ChangeName(userId: int, name: string, rx: Patterns) returns (reply: Reply)
      requires Valid()
      modifies this
      ensures Valid()
      ensures var v := ValidateUsername(name, rx);
        && (!v.isValid ==> reply == Reply(400, Message(v.message)) && users == old(users))
        && (v.isValid ==> reply == Reply(201, NameEcho(v.message, name)))
      ensures ValidateUsername(name, rx).isValid && old(FindById(userId)).Some? ==>
        users == old(users)[userId - 1 := old(users[userId - 1]).(name := name)]
      ensures old(FindById(userId)).None? ==> users == old(users)
    {
      var v := ValidateUsername(name, rx);
      if !v.isValid {
        return Reply(400, Message(v.message));
      }
      if 1 <= userId <= |users| {
        users := users[userId - 1 := users[userId - 1].(name := name)];
      }
      reply := Reply(201, NameEcho(v.message, name));
    }

    /** change-role: when validateRole passes (5-50 characters), the caller's
        role changes. */
    method ChangeRole(userId: int, role: string) returns (reply: Reply)
      requires Valid()
      modifies this
      ensures Valid()
      ensures var v := ValidateRole(role);
        && (!v.isValid ==> reply == Reply(400, Message(v.message)) && users == old(users))
        && (v.isValid ==> reply == Reply(201, Message(v.message)))
      ensures ValidateRole(role).isValid && old(FindById(userId)).Some? ==>
        users == old(users)[userId - 1 := old(users[userId - 1]).(role := role)]
      ensures old(FindById(userId)).None? ==> users == old(users)
    {
      var v := ValidateRole(role);
      if !v.isValid {
        return Reply(400, Message(v.message));
      }
      if 1 <= userId <= |users| {
        users := users[userId - 1 := users[userId - 1].(role := role)];
      }
      reply := Reply(201, Message(v.message));
    }

    /** change-image: without an accepted file, 400 "Invalid image" and no
        change; otherwise the caller's image path points at the upload. */
    method ChangeImage(userId: int, file: Option<string>) returns (reply: Reply)
      requires Valid()
      modifies this
      ensures Valid()
      ensures file.None? ==> reply == Reply(400, Message("Invalid image")) && users == old(users)
      ensures file.Some? && old(FindById(userId)).None? ==> reply == Reply(500, ServerError) && users == old(users)
      ensures file.Some? && old(FindById(userId)).Some? ==>
        var path := "user-images/" + file.value;
        && reply == Reply(201, ImageSaved("Image successfully saved", path))
        && users == old(users)[userId - 1 := old(users[userId - 1]).(imagePath := path)]
    {
      if file.None? {
        return Reply(400, Message("Invalid image"));
      }
      if !(1 <= userId <= |users|) {
        return Reply(500, ServerError);
      }
      var path := "user-images/" + file.value;
      users := users[userId - 1 := users[userId - 1].(imagePath := path)];
      reply := Reply(201, ImageSaved("Image successfully saved", path));
    }
  }

  /** The first row with that email. */
  function FindByEmailFrom(users: seq<User>, email: string): (r: Option<User>)
    ensures r.Some? <==> EmailTaken(users, email)
    ensures r.Some? ==> r.value in users && r.value.email == email
  {
    if |users| == 0 then None
    else if users[0].email == email then Some(users[0])
    else
      var r := FindByEmailFrom(users[1..], email);
      assert EmailTaken(users, email) ==> EmailTaken(users[1..], email) by {
        if EmailTaken(users, email) {
          var i :| 0 <= i < |users| && users[i].email == email;
          assert users[1..][i - 1] == users[i];
        }
      }
      assert EmailTaken(users[1..], email) ==> EmailTaken(users, email) by {
        if EmailTaken(users[1..], email) {
          var i :| 0 <= i < |users[1..]| && users[1..][i].email == email;
          assert users[i + 1] == users[1..][i];
        }
      }
      r
  }
}
