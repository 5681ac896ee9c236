/** The photo-sharing prototype's sign-up form: the users kept in the
    browser's storage under "users" gain the submitted values unless their
    username is taken. The storage is a field holding the parsed list, or
    nothing when the key was never set. */
module Signup {
  import opened Common

  /** The values the form submits. */
  datatype Values = Values(name: string, username: string, email: string, password: string)

  /** `existingUsers.some(user => user.username === username)`. */
  predicate UsernameTaken(users: seq<Values>, username: string) {
    exists k :: 0 <= k < |users| && users[k].username == username
  }

  /** No two stored users share a username. */
  predicate UsernamesDistinct(users: seq<Values>) {
    forall i, j :: 0 <= i < j < |users| ==> users[i].username != users[j].username
  }

  /** The list after a submission: unchanged for a taken username, the new
      values appended otherwise. */
  function AfterSignup(users: seq<Values>, values: Values): (r: seq<Values>)
    ensures UsernamesDistinct(users) ==> UsernamesDistinct(r)
    ensures UsernameTaken(r, values.username)
    ensures |users| <= |r| <= |users| + 1 && r[..|users|] == users
    ensures |r| == |users| <==> UsernameTaken(users, values.username)
  {
    if UsernameTaken(users, values.username) then users
    else
      var r := users + [values];
      assert r[|users|].username == values.username;
      r
  }

  /** Only the username is compared: a submission whose e-mail is already
      stored, under another username, is appended. */
  lemma DuplicateEmailAccepted(users: seq<Values>, values: Values, k: nat)
    requires k < |users| && users[k].email == values.email
    requires !UsernameTaken(users, values.username)
    ensures AfterSignup(users, values) == users + [values]
    ensures exists i, j :: 0 <= i < j < |AfterSignup(users, values)| &&
              AfterSignup(users, values)[i].email == AfterSignup(users, values)[j].email
  {
    var r := AfterSignup(users, values);
    assert r[k].email == r[|users|].email;
  }

  datatype Alert = UsernameExists | SignupSuccessful

  class SignupForm {
    /** `localStorage.getItem("users")`, parsed; `None` when unset. */
    var stored: Option<seq<Values>>

    constructor (initial: Option<seq<Values>>)
      ensures stored == initial
    {
      stored := initial;
    }

    /** `onSubmit`: a missing list counts as empty; a taken username raises
        the alert and stores nothing; otherwise the list with the new values
        appended is stored. */
    method OnSubmit(values: Values) returns (alert: Alert)
      modifies this
      ensures var existing := old(stored).GetOr([]);
        if UsernameTaken(existing, values.username) then
          stored == old(stored) && alert == UsernameExists
        else
          stored == Some(existing + [values]) && alert == SignupSuccessful
      ensures stored.Some? ==> stored.value == AfterSignup(old(stored).GetOr([]), values)
    {
      var existingUsers := stored.GetOr([]);
      if UsernameTaken(existingUsers, values.username) {
        return UsernameExists;
      }
      existingUsers := existingUsers + [values];
      stored := Some(existingUsers);
      alert := SignupSuccessful;
    }
  }
}
