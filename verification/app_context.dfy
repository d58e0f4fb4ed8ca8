/**
 * The application-wide UI state and its reducer (src/context/AppContext.js). The
 * provider's action creators only wrap their argument in an action; the reducer is
 * the whole behaviour.
 */
module AppContext {
  import opened Wrappers
  import opened Records

  const LOGIN_PAGE := "login"
  const PROFILE_PAGE := "profile"

  /** `user` and `error` are `null` when `None`. */
  datatype State = State(user: Option<User>, currentPage: string, isLoading: bool, error: Option<string>, theme: string)

  const INITIAL := State(None, LOGIN_PAGE, false, None, "light")

  /**
   * The dispatched actions, with their payloads. `Unknown` stands for any other
   * action type.
   */
  datatype Action =
    | SetUser(user: Option<User>)
    | SetCurrentPage(page: string)
    | SetLoading(loading: bool)
    | SetError(error: Option<string>)
    | ClearError
    | SetTheme(theme: string)
    | ResetState
    | Unknown(kind: string)

  /**
   * `appReducer`: each action replaces its own fields and keeps the rest. Setting
   * the user also moves to the profile page when there is a user and to the login
   * page when there is none; setting an error also ends loading.
   */
  function Reduce(s: State, a: Action): (r: State)
    ensures a.SetUser? ==>
      && r.user == a.user && r.currentPage == (if a.user.Some? then PROFILE_PAGE else LOGIN_PAGE)
      && r.isLoading == s.isLoading && r.error == s.error && r.theme == s.theme
    ensures a.SetCurrentPage? ==> r == s.(currentPage := a.page)
    ensures a.SetLoading? ==> r == s.(isLoading := a.loading)
    ensures a.SetError? ==>
      && r.error == a.error && !r.isLoading
      && r.user == s.user && r.currentPage == s.currentPage && r.theme == s.theme
    ensures a.ClearError? ==> r.error.None? && r == s.(error := None)
    ensures a.SetTheme? ==> r == s.(theme := a.theme)
    ensures a.ResetState? ==> r == INITIAL
    ensures a.Unknown? ==> r == s
  {
    match a
    case SetUser(u) => s.(user := u, currentPage := if u.Some? then PROFILE_PAGE else LOGIN_PAGE)
    case SetCurrentPage(p) => s.(currentPage := p)
    case SetLoading(l) => s.(isLoading := l)
    case SetError(e) => s.(error := e, isLoading := false)
    case ClearError => s.(error := None)
    case SetTheme(t) => s.(theme := t)
    case ResetState => INITIAL
    case Unknown(_) => s
  }

  /** Dispatching the same action twice in a row is the same as dispatching it once. */
  lemma ReduceIdempotent(s: State, a: Action)
    ensures Reduce(Reduce(s, a), a) == Reduce(s, a)
  {
  }

  /** The state after dispatching `actions` in order. */
  function ReduceAll(s: State, actions: seq<Action>): State
    decreases |actions|
  {
    if actions == [] then s
    else Reduce(ReduceAll(s, actions[..|actions| - 1]), actions[|actions| - 1])
  }

  /** Dispatching two batches one after the other is dispatching their concatenation. */
  lemma {:induction false} ReduceAllAppend(s: State, xs: seq<Action>, ys: seq<Action>)
    ensures ReduceAll(s, xs + ys) == ReduceAll(ReduceAll(s, xs), ys)
    decreases |ys|
  {
    if ys != [] {
      var last := ys[|ys| - 1];
      var init := ys[..|ys| - 1];
      var all := xs + ys;
      assert all[..|all| - 1] == xs + init;
      assert all[|all| - 1] == last;
      ReduceAllAppend(s, xs, init);
    } else {
      assert xs + ys == xs;
    }
  }

  /** Whatever came before, a reset leaves the state as if only the later actions had run. */
  lemma {:induction false} ResetForgetsHistory(s: State, before: seq<Action>, after: seq<Action>)
    ensures ReduceAll(s, before + [ResetState] + after) == ReduceAll(INITIAL, after)
  {
    ReduceAllAppend(s, before + [ResetState], after);
    ReduceAllAppend(s, before, [ResetState]);
    assert ReduceAll(ReduceAll(s, before), [ResetState]) == INITIAL by {
      assert [ResetState][..0] == [];
    }
  }

  /** Only `SET_THEME` and `RESET_STATE` can change the theme. */
  lemma {:induction false} ThemeNeedsThemeAction(s: State, actions: seq<Action>)
    requires forall i :: 0 <= i < |actions| ==> !actions[i].SetTheme? && !actions[i].ResetState?
    ensures ReduceAll(s, actions).theme == s.theme
    decreases |actions|
  {
    if actions != [] {
      ThemeNeedsThemeAction(s, actions[..|actions| - 1]);
    }
  }

  /** A user logged in by `SET_USER` is on the profile page until a page, user or reset action. */
  lemma {:induction false} LoggedInStaysOnProfile(s: State, u: User, actions: seq<Action>)
    requires forall i :: 0 <= i < |actions| ==>
      !actions[i].SetUser? && !actions[i].SetCurrentPage? && !actions[i].ResetState?
    ensures var r := ReduceAll(Reduce(s, SetUser(Some(u))), actions);
      r.user == Some(u) && r.currentPage == PROFILE_PAGE
    decreases |actions|
  {
    if actions != [] {
      LoggedInStaysOnProfile(s, u, actions[..|actions| - 1]);
    }
  }
}
