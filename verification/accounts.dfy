/** The account routes of the second web application: log in, register and
    change the password of the logged-in user. The user table is a list in
    insertion order, a password is stored as the digest of its text (two
    passwords check against each other exactly when they are equal), and the
    login session names a user by position. */
module Accounts {
  import opened Common

  /** What `set_password` stores for a password. */
  datatype Digest = Digest(password: string)

  /** `check_password`: the stored digest is the digest of the candidate. */
  predicate CheckPassword(stored: Digest, candidate: string) {
    stored == Digest(candidate)
  }

  datatype User = User(username: string, email: string, passwordHash: Digest, lastLogin: Option<int>)

  /** The logged-in user and the "remember me" flag. */
  datatype Session = Session(user: nat, remember: bool)

  datatype Flash = Flash(message: string, category: string)

  const LoginFailed := Flash("Please check your login details and try again.", "error")
  const LoginOk := Flash("Logged in successfully. Welcome back!", "success")
  const EmailTaken := Flash("Email address already exists", "error")
  const Registered := Flash("Registration successful. Welcome!", "success")
  const WrongPassword := Flash("Current password is incorrect.", "error")
  const PasswordsDiffer := Flash("New passwords do not match.", "error")
  const PasswordChanged := Flash("Password changed successfully.", "success")

  /** `User.query.filter_by(email=email).first()`: the first user with the
      e-mail, if any. */
  function FindByEmail(users: seq<User>, email: string): (r: Option<nat>)
    ensures r.Some? ==> r.value < |users| && users[r.value].email == email &&
                        forall j :: 0 <= j < r.value ==> users[j].email != email
    ensures r.None? <==> forall j :: 0 <= j < |users| ==> users[j].email != email
  {
    if users == [] then None
    else if users[0].email == email then Some(0)
    else
      var r := FindByEmail(users[1..], email);
      if r.None? then None else Some(r.value + 1)
  }

  /** No two users share an e-mail. */
  predicate EmailsUnique(users: seq<User>) {
    forall i, j :: 0 <= i < j < |users| ==> users[i].email != users[j].email
  }

  /** With unique e-mails, the user found for an e-mail is the only one
      holding it. */
  lemma FindByEmailUnique(users: seq<User>, email: string, k: nat)
    requires EmailsUnique(users)
    requires k < |users| && users[k].email == email
    ensures FindByEmail(users, email) == Some(k)
  {
  }

  /** Registering appends only when the e-mail is unused, so e-mails stay
      unique; the username is never compared, so a second user with the same
      username is accepted. */
  lemma RegisterKeepsEmailsUnique(users: seq<User>, u: User)
    requires EmailsUnique(users)
    requires FindByEmail(users, u.email).None?
    ensures EmailsUnique(users + [u])
  {
  }

  /** `remember = True if request.form.get('remember') else False`. */
  predicate Remember(field: Option<string>) {
    field.Some? && field.value != ""
  }

  /** The `User` table and the login session. */
  class AccountStore {
    var users: seq<User>
    var session: Option<Session>

    ghost predicate Valid()
      reads this
    {
      EmailsUnique(users) && (session.Some? ==> session.value.user < |users|)
    }

    constructor ()
      ensures Valid() && users == [] && session.None?
    {
      users := [];
      session := None;
    }

    /** `login`: an unknown e-mail or a wrong password changes nothing;
        otherwise the user is logged in and their last login is `now`. */
    method Login(email: string, password: string, rememberField: Option<string>, now: int) returns (flash: Flash)
      requires Valid()
      modifies this
      ensures Valid()
      ensures var k := FindByEmail(old(users), email);
        if k.None? || !CheckPassword(old(users)[k.value].passwordHash, password) then
          users == old(users) && session == old(session) && flash == LoginFailed
        else
          users == old(users)[k.value := old(users)[k.value].(lastLogin := Some(now))] &&
          session == Some(Session(k.value, Remember(rememberField))) && flash == LoginOk
    {
      var k := FindByEmail(users, email);
      if k.None? || !CheckPassword(users[k.value].passwordHash, password) {
        return LoginFailed;
      }
      session := Some(Session(k.value, Remember(rememberField)));
      users := users[k.value := users[k.value].(lastLogin := Some(now))];
      flash := LoginOk;
    }

    /** `register`: a used e-mail changes nothing; otherwise exactly one
        user is appended, with the given username, e-mail and password, and
        logged in. */
    method Register(username: string, email: string, password: string) returns (flash: Flash)
      requires Valid()
      modifies this
      ensures Valid()
      ensures FindByEmail(old(users), email).Some? ==>
                users == old(users) && session == old(session) && flash == EmailTaken
      ensures FindByEmail(old(users), email).None? ==>
                users == old(users) + [User(username, email, Digest(password), None)] &&
                session == Some(Session(|old(users)|, false)) && flash == Registered
    {
      if FindByEmail(users, email).Some? {
        return EmailTaken;
      }
      var u := User(username, email, Digest(password), None);
      RegisterKeepsEmailsUnique(users, u);
      users := users + [u];
      session := Some(Session(|users| - 1, false));
      flash := Registered;
    }

    /** `change_password` for the logged-in user: the current password is
        checked first, then the confirmation; only when both pass is the
        stored password replaced. Without a session `login_required`
        redirects and nothing changes. */
    method ChangePassword(current: string, newPassword: string, confirm: string) returns (flash: Option<Flash>)
      requires Valid()
      modifies this
      ensures Valid() && session == old(session)
      ensures session.None? ==> users == old(users) && flash.None?
      ensures session.Some? ==>
                var k := session.value.user;
                if !CheckPassword(old(users)[k].passwordHash, current) then
                  users == old(users) && flash == Some(WrongPassword)
                else if newPassword != confirm then
                  users == old(users) && flash == Some(PasswordsDiffer)
                else
                  users == old(users)[k := old(users)[k].(passwordHash := Digest(newPassword))] &&
                  flash == Some(PasswordChanged)
    {
      if session.None? {
        return None;
      }
      var k := session.value.user;
      if !CheckPassword(users[k].passwordHash, current) {
        return Some(WrongPassword);
      }
      if newPassword != confirm {
        return Some(PasswordsDiffer);
      }
      users := users[k := users[k].(passwordHash := Digest(newPassword))];
      flash := Some(PasswordChanged);
    }
  }
}
