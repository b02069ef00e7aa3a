/**
 * The log-in form (`Login`): `handleSubmit` validates the email and the
 * password, and only a valid form reaches `onSubmit`, which signs in through
 * the auth service, loads the user into the store and goes home.
 */
module Login {
  import opened Wrappers
  import opened Ui
  import opened Credentials

  const LoginFallback := "Unable to log in. Please check your credentials and try again."

  /** The form reaches the auth service exactly when the email matches the
      pattern and the password has at least six characters. */
  lemma ReachesServiceIffValid(email: string, password: string)
    ensures LoginErrors(email, password) == map[] <==> MatchesEmailPattern(email) && |password| >= 6
  {
    if LoginErrors(email, password) == map[] {
      assert EmailField !in LoginErrors(email, password);
      assert PasswordField !in LoginErrors(email, password);
    }
  }

  class LoginForm {
    var errors: map<CredentialField, string>
    var formError: string
    var effects: seq<Effect>

    /** `defaultValues` are empty; nothing is shown yet. */
    constructor ()
      ensures errors == map[] && formError == "" && effects == []
    {
      errors := map[];
      formError := "";
      effects := [];
    }

    /** `handleSubmit(onSubmit)`: `reply` is how `login` ends and `user`
        what `getCurrentUser` returns (it turns its own failures into
        null). */
    method Submit(email: string, password: string, reply: AuthReply, user: Option<User>)
      modifies this
      ensures errors == LoginErrors(email, password)
      ensures errors != map[] ==> formError == old(formError) && effects == old(effects)
      ensures errors == map[] ==>
        && formError == (if reply.Rejected? then ErrorText(reply.message, LoginFallback) else "")
        && effects == old(effects) + SubmitEffects(AuthLogin(email, password), reply, user)
    {
      var e := LoginErrors(email, password);
      errors := e;
      if e == map[] {
        OnSubmit(email, password, reply, user);
      }
    }

    /** `onSubmit`: clears the form error, then signs in; a rejection shows
        its message, or the fallback when it has none. */
    method OnSubmit(email: string, password: string, reply: AuthReply, user: Option<User>)
      modifies this
      ensures errors == old(errors)
      ensures formError == (if reply.Rejected? then ErrorText(reply.message, LoginFallback) else "")
      ensures effects == old(effects) + SubmitEffects(AuthLogin(email, password), reply, user)
    {
      formError := "";
      effects := effects + [AuthLogin(email, password)];
      match reply
      case Rejected(m) =>
        formError := ErrorText(m, LoginFallback);
      case Resolved(session) =>
        if session {
          effects := effects + [AuthCurrentUser];
          if user.Some? {
            effects := effects + [DispatchLogin(user.value)];
          }
          effects := effects + [Navigate("/")];
        }
    }
  }
}
