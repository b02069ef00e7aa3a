/**
 * What the components hand to their surroundings: calls on the auth service,
 * actions dispatched to the auth slice of the Redux store, and navigations.
 * Each component records them, in order, in a sequence of effects.
 */
module Ui {
  import opened Wrappers

  /** The signed-in user as `getCurrentUser` returns it; `id` is `$id`. */
  datatype User = User(id: string, name: string, email: string)

  datatype Effect =
    | AuthLogin(email: string, password: string)
    | AuthCreateAccount(name: string, email: string, password: string)
    | AuthCurrentUser
    | AuthLogout
    | DispatchLogin(user: User)
    | DispatchLogout
    | Navigate(path: string)

  /** `err?.message || fallback`: the banner shown for a thrown error. */
  function ErrorText(message: string, fallback: string): (r: string)
    ensures message != "" ==> r == message
    ensures message == "" ==> r == fallback
  {
    if message != "" then message else fallback
  }

  /** How a `login` or `createAccount` call ended: it threw, or it resolved
      to a session that is truthy or not. */
  datatype AuthReply = Rejected(message: string) | Resolved(session: bool)

  /** What follows a truthy session: ask for the current user, store it
      when there is one, and go home. */
  function SignedInEffects(user: Option<User>): seq<Effect> {
    [AuthCurrentUser] + (if user.Some? then [DispatchLogin(user.value)] else []) + [Navigate("/")]
  }

  /** The effects of a credential submit that made the auth call `call`. */
  function SubmitEffects(call: Effect, reply: AuthReply, user: Option<User>): seq<Effect> {
    [call] + (if reply == Resolved(true) then SignedInEffects(user) else [])
  }

  /** Only a truthy session leads anywhere: then the user is looked up,
      stored exactly when there is one, and the visitor always sent home,
      last; a rejected or empty session leaves only the auth call. */
  lemma SessionFlow(call: Effect, reply: AuthReply, user: Option<User>)
    requires call.AuthLogin? || call.AuthCreateAccount?
    ensures var e := SubmitEffects(call, reply, user);
      && e[0] == call
      && (Navigate("/") in e <==> reply == Resolved(true))
      && (reply == Resolved(true) ==> e[|e| - 1] == Navigate("/") && e[1] == AuthCurrentUser)
      && (forall u :: DispatchLogin(u) in e <==> reply == Resolved(true) && user == Some(u))
      && (reply != Resolved(true) ==> e == [call])
  {
  }
}
