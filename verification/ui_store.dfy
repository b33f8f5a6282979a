/**
 * The global UI store: whether the search bar is open, and whether the
 * filter drawer is open together with the configuration it was opened
 * with. Each action is a state transition; the store object applies them
 * to its fields in place.
 */
module UiStore {
  import opened Json

  /** A snapshot of the store's fields. The drawer configuration is whatever value the caller passed. */
  datatype UiState = UiState(isSearchOpen: bool, isDrawerOpen: bool, drawerConfig: Value)

  /** The store's actions. */
  datatype Action =
    | OpenSearch
    | CloseSearch
    | ToggleSearch
    | OpenDrawer(config: Value)
    | CloseDrawer

  predicate IsSearchAction(a: Action)
  {
    a.OpenSearch? || a.CloseSearch? || a.ToggleSearch?
  }

  /** The state the store starts in: everything closed and no drawer configuration. */
  const Initial := UiState(false, false, Null)

  /** The state after one action: search actions only touch the search flag, drawer actions only the drawer fields. */
  function Step(s: UiState, a: Action): (r: UiState)
    ensures IsSearchAction(a) ==> r.isDrawerOpen == s.isDrawerOpen && r.drawerConfig == s.drawerConfig
    ensures !IsSearchAction(a) ==> r.isSearchOpen == s.isSearchOpen
    ensures a.OpenSearch? ==> r.isSearchOpen
    ensures a.CloseSearch? ==> !r.isSearchOpen
    ensures a.ToggleSearch? ==> r.isSearchOpen != s.isSearchOpen
    ensures a.OpenDrawer? ==> r.isDrawerOpen && r.drawerConfig == a.config
    ensures a.CloseDrawer? ==> !r.isDrawerOpen && r.drawerConfig == Null
  {
    match a
    case OpenSearch => s.(isSearchOpen := true)
    case CloseSearch => s.(isSearchOpen := false)
    case ToggleSearch => s.(isSearchOpen := !s.isSearchOpen)
    case OpenDrawer(config) => s.(isDrawerOpen := true, drawerConfig := config)
    case CloseDrawer => s.(isDrawerOpen := false, drawerConfig := Null)
  }

  /** The state after a sequence of actions, applied in order. */
  function Run(s: UiState, actions: seq<Action>): UiState
    decreases |actions|
  {
    if actions == [] then s else Run(Step(s, actions[0]), actions[1..])
  }

  /** Toggling the search twice restores the state. */
  lemma ToggleTwice(s: UiState)
    ensures Step(Step(s, ToggleSearch), ToggleSearch) == s
  {
  }

  /** The search actions among `actions`, in order. */
  function SearchActions(actions: seq<Action>): (r: seq<Action>)
    ensures forall a :: a in r ==> IsSearchAction(a)
    decreases |actions|
  {
    if actions == [] then []
    else (if IsSearchAction(actions[0]) then [actions[0]] else []) + SearchActions(actions[1..])
  }

  /** The drawer actions among `actions`, in order. */
  function DrawerActions(actions: seq<Action>): (r: seq<Action>)
    ensures forall a :: a in r ==> !IsSearchAction(a)
    decreases |actions|
  {
    if actions == [] then []
    else (if IsSearchAction(actions[0]) then [] else [actions[0]]) + DrawerActions(actions[1..])
  }

  /**
   * The two halves of the store are independent: after any sequence of
   * actions the search flag is what the search actions alone make it, and
   * the drawer fields are what the drawer actions alone make them.
   */
  lemma {:induction false} HalvesIndependent(s: UiState, actions: seq<Action>)
    ensures Run(s, actions).isSearchOpen == Run(s, SearchActions(actions)).isSearchOpen
    ensures Run(s, actions).isDrawerOpen == Run(s, DrawerActions(actions)).isDrawerOpen
    ensures Run(s, actions).drawerConfig == Run(s, DrawerActions(actions)).drawerConfig
    decreases |actions|
  {
    if actions != [] {
      var a, rest := actions[0], actions[1..];
      var t := Step(s, a);
      HalvesIndependent(t, rest);
      if IsSearchAction(a) {
        assert SearchActions(actions) == [a] + SearchActions(rest);
        assert DrawerActions(actions) == DrawerActions(rest);
        assert ([a] + SearchActions(rest))[1..] == SearchActions(rest);
        DrawerUnaffected(s, t, DrawerActions(rest));
      } else {
        assert DrawerActions(actions) == [a] + DrawerActions(rest);
        assert SearchActions(actions) == SearchActions(rest);
        assert ([a] + DrawerActions(rest))[1..] == DrawerActions(rest);
        SearchUnaffected(s, t, SearchActions(rest));
      }
    }
  }

  /** Drawer actions see only the drawer fields of the state they start from. */
  lemma {:induction false} DrawerUnaffected(s: UiState, t: UiState, actions: seq<Action>)
    requires s.isDrawerOpen == t.isDrawerOpen && s.drawerConfig == t.drawerConfig
    requires forall a :: a in actions ==> !IsSearchAction(a)
    ensures Run(s, actions).isDrawerOpen == Run(t, actions).isDrawerOpen
    ensures Run(s, actions).drawerConfig == Run(t, actions).drawerConfig
    decreases |actions|
  {
    if actions != [] {
      assert actions[0] in actions;
      assert forall a :: a in actions[1..] ==> a in actions;
      DrawerUnaffected(Step(s, actions[0]), Step(t, actions[0]), actions[1..]);
    }
  }

  /** Search actions see only the search flag of the state they start from. */
  lemma {:induction false} SearchUnaffected(s: UiState, t: UiState, actions: seq<Action>)
    requires s.isSearchOpen == t.isSearchOpen
    requires forall a :: a in actions ==> IsSearchAction(a)
    ensures Run(s, actions).isSearchOpen == Run(t, actions).isSearchOpen
    decreases |actions|
  {
    if actions != [] {
      assert actions[0] in actions;
      assert forall a :: a in actions[1..] ==> a in actions;
      SearchUnaffected(Step(s, actions[0]), Step(t, actions[0]), actions[1..]);
    }
  }

  /** A closed drawer holds no configuration; every action keeps this. */
  predicate ClosedDrawerEmpty(s: UiState)
  {
    !s.isDrawerOpen ==> s.drawerConfig == Null
  }

  /** From the initial state, every reachable state has a closed drawer only with a `null` configuration. */
  lemma {:induction false} ReachableClosedDrawerEmpty(s: UiState, actions: seq<Action>)
    requires ClosedDrawerEmpty(s)
    ensures ClosedDrawerEmpty(Run(s, actions))
    decreases |actions|
  {
    if actions != [] {
      ReachableClosedDrawerEmpty(Step(s, actions[0]), actions[1..]);
    }
  }

  /** The store object: `useUIStore`'s fields, updated in place by its actions. */
  class Store {
    var isSearchOpen: bool
    var isDrawerOpen: bool
    var drawerConfig: Value

    function State(): UiState
      reads this
    {
      UiState(isSearchOpen, isDrawerOpen, drawerConfig)
    }

    constructor ()
      ensures State() == Initial
    {
      isSearchOpen, isDrawerOpen, drawerConfig := false, false, Null;
    }

    /** `openSearch`. */
    method OpenSearch()
      modifies this
      ensures State() == Step(old(State()), Action.OpenSearch)
    {
      isSearchOpen := true;
    }

    /** `closeSearch`. */
    method CloseSearch()
      modifies this
      ensures State() == Step(old(State()), Action.CloseSearch)
    {
      isSearchOpen := false;
    }

    /** `toggleSearch`. */
    method ToggleSearch()
      modifies this
      ensures State() == Step(old(State()), Action.ToggleSearch)
    {
      isSearchOpen := !isSearchOpen;
    }

    /** `openDrawer(config)`. */
    method OpenDrawer(config: Value)
      modifies this
      ensures State() == Step(old(State()), Action.OpenDrawer(config))
    {
      isDrawerOpen, drawerConfig := true, config;
    }

    /** `closeDrawer`. */
    method CloseDrawer()
      modifies this
      ensures State() == Step(old(State()), Action.CloseDrawer)
    {
      isDrawerOpen, drawerConfig := false, Null;
    }
  }
}
