/**
 * The client's authentication state and its reducer
 * (frontend/src/redux/UserSlice.js). `U` is the user profile and `E` the
 * error payload; both are opaque to the reducer, and either may be null.
 */
module UserSlice {
  import opened Base

  datatype AuthState<U, E> = AuthState(
    user: Option<U>,
    loading: bool,
    error: Option<E>,
    isAuthenticated: bool)

  datatype Action<U, E> =
    | SetUser(user: Option<U>)
    | SetLoading(loading: bool)
    | SetError(error: Option<E>)
    | ClearUser

  /** Signed out, idle, no error. */
  function Initial<U, E>(): (r: AuthState<U, E>)
    ensures r.user.None? && r.error.None? && !r.loading && !r.isAuthenticated
  {
    AuthState(None, false, None, false)
  }

  /** Applies one action. */
  function Reduce<U, E>(s: AuthState<U, E>, a: Action<U, E>): (r: AuthState<U, E>)
    ensures a.SetUser? ==> r.user == a.user && r.isAuthenticated && !r.loading && r.error.None?
    ensures a.SetLoading? ==> r.loading == a.loading && r.user == s.user && r.error == s.error
                              && r.isAuthenticated == s.isAuthenticated
    ensures a.SetError? ==> r.error == a.error && !r.loading && r.user == s.user
                            && r.isAuthenticated == s.isAuthenticated
    ensures a.ClearUser? ==> r == Initial()
  {
    match a
    case SetUser(p) => s.(user := p, isAuthenticated := true, loading := false, error := None)
    case SetLoading(b) => s.(loading := b)
    case SetError(e) => s.(error := e, loading := false)
    case ClearUser => s.(user := None, isAuthenticated := false, loading := false, error := None)
  }

  /** Applies the actions in order. */
  function ReduceAll<U, E>(s: AuthState<U, E>, actions: seq<Action<U, E>>): AuthState<U, E>
    decreases |actions|
  {
    if actions == [] then s else ReduceAll(Reduce(s, actions[0]), actions[1..])
  }

  /** Signing out twice is the same as signing out once. */
  lemma ClearUserIdempotent<U, E>(s: AuthState<U, E>)
    ensures Reduce(Reduce(s, ClearUser), ClearUser) == Reduce(s, ClearUser)
  {
  }

  /** A known user implies a signed-in state. */
  ghost predicate Consistent<U, E>(s: AuthState<U, E>) {
    s.user.Some? ==> s.isAuthenticated
  }

  /** Every action keeps a consistent state consistent. */
  lemma ReducePreservesConsistent<U, E>(s: AuthState<U, E>, a: Action<U, E>)
    requires Consistent(s)
    ensures Consistent(Reduce(s, a))
  {
  }

  /** Signing in with a null profile still counts as signed in: the converse of consistency fails. */
  lemma NullUserCanBeAuthenticated<U, E>(s: AuthState<U, E>)
    ensures Reduce(s, SetUser(None)).isAuthenticated && Reduce(s, SetUser(None)).user.None?
  {
  }

  /** The last sign-in or sign-out among the actions, if any. */
  function LastSession<U, E>(actions: seq<Action<U, E>>): Option<Action<U, E>>
    decreases |actions|
  {
    if actions == [] then None
    else
      var a := actions[|actions| - 1];
      if a.SetUser? || a.ClearUser? then Some(a) else LastSession(actions[..|actions| - 1])
  }

  /** Applying `actions` then `a` is applying `actions + [a]`. */
  lemma {:induction false} ReduceAllSnoc<U, E>(s: AuthState<U, E>, actions: seq<Action<U, E>>, a: Action<U, E>)
    ensures ReduceAll(s, actions + [a]) == Reduce(ReduceAll(s, actions), a)
    decreases |actions|
  {
    if actions != [] {
      assert (actions + [a])[1..] == actions[1..] + [a];
      ReduceAllSnoc(Reduce(s, actions[0]), actions[1..], a);
    }
  }

  /**
   * From the initial state, the client is signed in exactly when the last
   * session action was a sign-in, and the user is the one it carried.
   */
  lemma {:induction false} SessionFollowsLastSignIn<U, E>(actions: seq<Action<U, E>>)
    ensures var r := ReduceAll(Initial<U, E>(), actions);
      && (r.isAuthenticated <==> LastSession(actions).Some? && LastSession(actions).value.SetUser?)
      && r.user == (if LastSession(actions).Some? && LastSession(actions).value.SetUser?
                    then LastSession(actions).value.user else None)
    decreases |actions|
  {
    if actions != [] {
      var init, a := actions[..|actions| - 1], actions[|actions| - 1];
      assert actions == init + [a];
      ReduceAllSnoc(Initial<U, E>(), init, a);
      SessionFollowsLastSignIn<U, E>(init);
    }
  }
}
