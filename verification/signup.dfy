/**
 * The sign-up form (`Signup`): `handleSubmit` validates the name, the email
 * and the password, and only a valid form reaches `onSubmit`, which creates
 * the account (the auth service then opens a session for it), loads the
 * user into the store and goes home.
 */
module Signup {
  import opened Wrappers
  import opened Ui
  import opened Credentials

  const SignupFallback := "Unable to create your account. Please try again."

  /** The form reaches the auth service exactly when the name has at least
      two characters, the email matches the pattern and the password has at
      least six characters; the sign-up rules are the log-in rules plus the
      name. */
  lemma ReachesServiceIffValid(name: string, email: string, password: string)
    ensures SignupErrors(name, email, password) == map[] <==>
            |name| >= 2 && MatchesEmailPattern(email) && |password| >= 6
    ensures SignupErrors(name, email, password) == map[] <==>
            |name| >= 2 && LoginErrors(email, password) == map[]
  {
    var e := SignupErrors(name, email, password);
    if e == map[] {
      assert NameField !in e && EmailField !in e && PasswordField !in e;
    }
    if LoginErrors(email, password) == map[] {
      assert EmailField !in LoginErrors(email, password);
      assert PasswordField !in LoginErrors(email, password);
    }
  }

  class SignupForm {
    var errors: map<CredentialField, string>
    var formError: string
    var effects: seq<Effect>

    /** `defaultValues` are empty; nothing is shown yet. */
    constructor ()
      ensures errors == map[] && formError == "" && effects == []
    {
      errors := map[];
      formError := "";
      effects := [];
    }

    /** `handleSubmit(onSubmit)`: `reply` is how `createAccount` ends
        (creating the account or opening its session may throw) and `user`
        what `getCurrentUser` returns. */
    method Submit(name: string, email: string, password: string, reply: AuthReply, user: Option<User>)
      modifies this
      ensures errors == SignupErrors(name, email, password)
      ensures errors != map[] ==> formError == old(formError) && effects == old(effects)
      ensures errors == map[] ==>
        && formError == (if reply.Rejected? then ErrorText(reply.message, SignupFallback) else "")
        && effects == old(effects) + SubmitEffects(AuthCreateAccount(name, email, password), reply, user)
    {
      var e := SignupErrors(name, email, password);
      errors := e;
      if e == map[] {
        OnSubmit(name, email, password, reply, user);
      }
    }

    /** `onSubmit`: clears the form error, then creates the account; a
        rejection shows its message, or the fallback when it has none. */
    method OnSubmit(name: string, email: string, password: string, reply: AuthReply, user: Option<User>)
      modifies this
      ensures errors == old(errors)
      ensures formError == (if reply.Rejected? then ErrorText(reply.message, SignupFallback) else "")
      ensures effects == old(effects) + SubmitEffects(AuthCreateAccount(name, email, password), reply, user)
    {
      formError := "";
      effects := effects + [AuthCreateAccount(name, email, password)];
      match reply
      case Rejected(m) =>
        formError := ErrorText(m, SignupFallback);
      case Resolved(session) =>
        if session {
          effects := effects + [AuthCurrentUser];
          if user.Some? {
            effects := effects + [DispatchLogin(user.value)];
          }
          effects := effects + [Navigate("/")];
        }
    }
  }
}
