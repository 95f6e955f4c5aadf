/** The reducer behind the UI context (frontend/src/contexts/UIContext.tsx):
    a pure version of the panel rules, without the mobile exclusion of the
    UI store and with a close-all that also closes the controls. */
module UiContext {

  datatype UiState = UiState(isInfoPanelVisible: bool, isLibraryVisible: bool, isControlsVisible: bool, isMobile: bool)

  /** `UIAction`; `Unrecognised` is any other action type a caller dispatches. */
  datatype UiAction =
    | ToggleInfoPanel
    | ToggleLibrary
    | ToggleControls
    | SetMobile(payload: bool)
    | CloseAllPanels
    | Unrecognised(actionType: string)

  /** `initialState` */
  const InitialState: UiState := UiState(false, true, true, false)

  /** `uiReducer(state, action)` */
  function Reduce(state: UiState, action: UiAction): (r: UiState)
    ensures IsToggle(action) ==> Flag(r, action) == !Flag(state, action) && Differences(state, r) == 1
    ensures r.isMobile == (if action.SetMobile? then action.payload else state.isMobile)
    ensures r.isMobile && !state.isMobile ==> !r.isLibraryVisible
    ensures action.CloseAllPanels? ==> !r.isInfoPanelVisible && !r.isLibraryVisible && !r.isControlsVisible
    ensures action.Unrecognised? ==> r == state
  {
    match action
    case ToggleInfoPanel => state.(isInfoPanelVisible := !state.isInfoPanelVisible)
    case ToggleLibrary => state.(isLibraryVisible := !state.isLibraryVisible)
    case ToggleControls => state.(isControlsVisible := !state.isControlsVisible)
    case SetMobile(payload) => state.(isMobile := payload, isLibraryVisible := if payload then false else state.isLibraryVisible)
    case CloseAllPanels => state.(isInfoPanelVisible := false, isLibraryVisible := false, isControlsVisible := false)
    case Unrecognised(_) => state
  }

  predicate IsToggle(a: UiAction)
  {
    a.ToggleInfoPanel? || a.ToggleLibrary? || a.ToggleControls?
  }

  /** The flag a toggle action flips. */
  function Flag(s: UiState, a: UiAction): bool
    requires IsToggle(a)
  {
    if a.ToggleInfoPanel? then s.isInfoPanelVisible
    else if a.ToggleLibrary? then s.isLibraryVisible
    else s.isControlsVisible
  }

  /** The number of fields in which two states differ. */
  function Differences(s: UiState, t: UiState): nat
  {
    (if s.isInfoPanelVisible != t.isInfoPanelVisible then 1 else 0)
    + (if s.isLibraryVisible != t.isLibraryVisible then 1 else 0)
    + (if s.isControlsVisible != t.isControlsVisible then 1 else 0)
    + (if s.isMobile != t.isMobile then 1 else 0)
  }

  /** Each toggle flips exactly its own flag: the states differ in that one
      field only. */
  lemma ToggleFlipsOwnFlag(s: UiState, a: UiAction)
    requires IsToggle(a)
    ensures Flag(Reduce(s, a), a) == !Flag(s, a)
    ensures Differences(s, Reduce(s, a)) == 1
    ensures Reduce(s, a).isMobile == s.isMobile
  {
  }

  /** Applying the same toggle twice restores the state. */
  lemma ToggleTwiceIsIdentity(s: UiState, a: UiAction)
    requires IsToggle(a)
    ensures Reduce(Reduce(s, a), a) == s
  {
  }

  /** `SET_MOBILE(true)` records mobile and closes the library;
      `SET_MOBILE(false)` keeps it; the other panels are untouched. */
  lemma SetMobileRule(s: UiState, mobile: bool)
    ensures Reduce(s, SetMobile(mobile)).isMobile == mobile
    ensures mobile ==> !Reduce(s, SetMobile(mobile)).isLibraryVisible
    ensures !mobile ==> Reduce(s, SetMobile(mobile)).isLibraryVisible == s.isLibraryVisible
    ensures Reduce(s, SetMobile(mobile)).isInfoPanelVisible == s.isInfoPanelVisible
    ensures Reduce(s, SetMobile(mobile)).isControlsVisible == s.isControlsVisible
  {
  }

  /** `CLOSE_ALL_PANELS` closes all three panels, the controls included,
      keeps `isMobile`, and a second close changes nothing. */
  lemma CloseAllClosesEverything(s: UiState)
    ensures var r := Reduce(s, CloseAllPanels);
      !r.isInfoPanelVisible && !r.isLibraryVisible && !r.isControlsVisible && r.isMobile == s.isMobile
    ensures Reduce(Reduce(s, CloseAllPanels), CloseAllPanels) == Reduce(s, CloseAllPanels)
  {
  }

  /** An unrecognised action returns the state unchanged. */
  lemma UnrecognisedIsIdentity(s: UiState, t: string)
    ensures Reduce(s, Unrecognised(t)) == s
  {
  }

  /** The initial state shows the library and the controls, hides the
      information panel and is not mobile. */
  lemma InitialStateShape()
    ensures InitialState.isLibraryVisible && InitialState.isControlsVisible
    ensures !InitialState.isInfoPanelVisible && !InitialState.isMobile
  {
  }

  /** Unlike the UI store, the reducer lets a mobile layout show the
      information panel and the library together. */
  lemma NoMobileExclusion()
    ensures var s := Reduce(Reduce(InitialState, SetMobile(true)), ToggleLibrary);
      var t := Reduce(s, ToggleInfoPanel);
      t.isMobile && t.isInfoPanelVisible && t.isLibraryVisible
  {
  }

  /** The state after dispatching `actions` in order. */
  function ReduceAll(s: UiState, actions: seq<UiAction>): UiState
    decreases |actions|
  {
    if actions == [] then s else ReduceAll(Reduce(s, actions[0]), actions[1..])
  }

  /** A run of panel toggles never changes `isMobile`, so the only way
      into or out of the mobile layout is `SET_MOBILE`. */
  lemma {:induction false} TogglesKeepMobile(s: UiState, actions: seq<UiAction>)
    requires forall i :: 0 <= i < |actions| ==> IsToggle(actions[i])
    ensures ReduceAll(s, actions).isMobile == s.isMobile
    decreases |actions|
  {
    if actions != [] {
      ToggleFlipsOwnFlag(s, actions[0]);
      TogglesKeepMobile(Reduce(s, actions[0]), actions[1..]);
    }
  }

  /** After a close-all, what a run of toggles leaves open depends only on
      `isMobile` and the run, not on the panels that were open before. */
  lemma CloseAllForgetsHistory(s: UiState, t: UiState, actions: seq<UiAction>)
    requires s.isMobile == t.isMobile
    ensures ReduceAll(Reduce(s, CloseAllPanels), actions) == ReduceAll(Reduce(t, CloseAllPanels), actions)
  {
  }
}
