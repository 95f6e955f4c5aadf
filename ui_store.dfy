/** The UI store (frontend/src/store/uiStore.ts): panel flags with the
    mobile rules, the toast list, the modal and keyboard shortcuts. What the
    browser reports (viewport, user agent, media queries, whether the
    fullscreen request succeeds) and generated toast ids are parameters. */
module UiStore {
  import opened Options
  import opened JsValues
  import opened Records

  datatype ToastKind = Info | Success | Warning | Error

  /** `ToastMessage` */
  datatype Toast = Toast(id: string, message: string, kind: ToastKind, duration: real, visible: bool)

  /** `ModalState` */
  datatype Modal = Modal(visible: bool, component: Option<string>, props: Entries<JsValue>)

  const ClosedModal: Modal := Modal(false, None, [])

  /** The themes `setTheme` accepts. */
  const Themes: seq<string> := ["dark", "light", "high-contrast"]

  /** The toast shown when the fullscreen request fails. */
  const FullscreenFailure: string := "풀스크린 모드를 변경할 수 없습니다."

  /** `toasts.findIndex(t => t.id === id)`, `|toasts|` standing for -1. */
  function ToastIndex(toasts: seq<Toast>, id: string): (i: nat)
    ensures i <= |toasts|
    ensures forall j :: 0 <= j < i ==> toasts[j].id != id
    ensures i < |toasts| ==> toasts[i].id == id
  {
    if toasts == [] then 0 else if toasts[0].id == id then 0 else 1 + ToastIndex(toasts[1..], id)
  }

  /** The list without its first toast carrying `id`, defined element by
      element. */
  function WithoutFirst(toasts: seq<Toast>, id: string): seq<Toast>
  {
    if toasts == [] then []
    else if toasts[0].id == id then toasts[1..]
    else [toasts[0]] + WithoutFirst(toasts[1..], id)
  }

  /** Splicing out the found index is removing the first toast with the id;
      an unknown id leaves the list alone, a known one loses exactly one
      toast and the others keep their order. */
  lemma {:induction false} SpliceRemovesFirst(toasts: seq<Toast>, id: string)
    ensures var i := ToastIndex(toasts, id);
      WithoutFirst(toasts, id) == if i < |toasts| then toasts[..i] + toasts[i + 1..] else toasts
  {
    if toasts != [] && toasts[0].id != id {
      var t := toasts[1..];
      SpliceRemovesFirst(t, id);
      var j := ToastIndex(t, id);
      assert ToastIndex(toasts, id) == j + 1;
      assert WithoutFirst(toasts, id) == [toasts[0]] + WithoutFirst(t, id);
      assert [toasts[0]] + t == toasts;
      if j < |t| {
        ConsSplice(toasts[0], t, j);
      }
    }
  }

  /** Splicing index `j` out of `t` and putting `a` in front is splicing
      index `j + 1` out of `[a] + t`. */
  lemma ConsSplice<T>(a: T, t: seq<T>, j: nat)
    requires j < |t|
    ensures [a] + (t[..j] + t[j + 1..]) == ([a] + t)[..j + 1] + ([a] + t)[j + 2..]
  {
    var s := [a] + t;
    assert [a] + t[..j] == s[..j + 1];
    assert t[j + 1..] == s[j + 2..];
  }

  /** How many of the flags are set. */
  function CountTrue(flags: seq<bool>): (n: nat)
    ensures n <= |flags|
  {
    if flags == [] then 0 else (if flags[0] then 1 else 0) + CountTrue(flags[1..])
  }

  /** A snapshot of every field of the store's state. */
  datatype UiState = UiState(
    isInfoPanelVisible: bool, isLibraryVisible: bool, isControlsVisible: bool,
    isFullscreen: bool, isMobile: bool, theme: string,
    prefersReducedMotion: bool, glowEffects: bool, backgroundParticles: bool,
    toasts: seq<Toast>, modal: Modal)

  /** On mobile the information panel and the library are never both open. */
  predicate MobileExclusive(s: UiState)
  {
    s.isMobile ==> !(s.isInfoPanelVisible && s.isLibraryVisible)
  }

  /** The `toggleInfoPanel` update: info flips, and on mobile opening it
      closes the library. */
  function ToggledInfo(s: UiState): (r: UiState)
    ensures r.isInfoPanelVisible == !s.isInfoPanelVisible
    ensures r.isLibraryVisible <==> s.isLibraryVisible && !(s.isMobile && r.isInfoPanelVisible)
    ensures r == s.(isInfoPanelVisible := r.isInfoPanelVisible, isLibraryVisible := r.isLibraryVisible)
    ensures MobileExclusive(s) ==> MobileExclusive(r)
  {
    var info := !s.isInfoPanelVisible;
    s.(isInfoPanelVisible := info, isLibraryVisible := if s.isMobile && info then false else s.isLibraryVisible)
  }

  /** The `toggleLibrary` update: the library flips, and on mobile opening
      it closes the information panel. */
  function ToggledLibrary(s: UiState): (r: UiState)
    ensures r.isLibraryVisible == !s.isLibraryVisible
    ensures r.isInfoPanelVisible <==> s.isInfoPanelVisible && !(s.isMobile && r.isLibraryVisible)
    ensures r == s.(isInfoPanelVisible := r.isInfoPanelVisible, isLibraryVisible := r.isLibraryVisible)
    ensures MobileExclusive(s) ==> MobileExclusive(r)
  {
    var library := !s.isLibraryVisible;
    s.(isLibraryVisible := library, isInfoPanelVisible := if s.isMobile && library then false else s.isInfoPanelVisible)
  }

  /** The `toggleControls` update: only the controls flag flips. */
  function ToggledControls(s: UiState): (r: UiState)
    ensures r.isControlsVisible == !s.isControlsVisible
    ensures r.(isControlsVisible := s.isControlsVisible) == s
  {
    s.(isControlsVisible := !s.isControlsVisible)
  }

  /** The `closeAllPanels` update: info and library close, the controls
      stay as they are. */
  function PanelsClosed(s: UiState): (r: UiState)
    ensures !r.isInfoPanelVisible && !r.isLibraryVisible && MobileExclusive(r)
    ensures r.(isInfoPanelVisible := s.isInfoPanelVisible, isLibraryVisible := s.isLibraryVisible) == s
  {
    s.(isInfoPanelVisible := false, isLibraryVisible := false)
  }

  /** The `showToast` update: the toast goes at the end of the list. */
  function WithToast(s: UiState, toast: Toast): (r: UiState)
    ensures |r.toasts| == |s.toasts| + 1 && r.toasts[..|s.toasts|] == s.toasts && r.toasts[|s.toasts|] == toast
    ensures r.(toasts := s.toasts) == s
  {
    s.(toasts := s.toasts + [toast])
  }

  /** The `toggleFullscreen` update: a granted request flips the flag; a
      refused one keeps it and shows the warning toast `toastId`. */
  function FullscreenToggled(s: UiState, requestSucceeds: bool, toastId: string): (r: UiState)
    ensures requestSucceeds ==> r.isFullscreen == !s.isFullscreen && r.(isFullscreen := s.isFullscreen) == s
    ensures !requestSucceeds ==> r == WithToast(s, Toast(toastId, FullscreenFailure, Warning, 3000.0, true))
  {
    if requestSucceeds then s.(isFullscreen := !s.isFullscreen)
    else WithToast(s, Toast(toastId, FullscreenFailure, Warning, 3000.0, true))
  }

  /** The `detectMobile` update: the mobile flag follows the screen, and
      the panels close only on the switch from desktop to mobile. */
  function DetectedMobile(s: UiState, mobileNow: bool): (r: UiState)
    ensures r.isMobile == mobileNow
    ensures mobileNow && !s.isMobile ==> r == PanelsClosed(s).(isMobile := true)
    ensures !(mobileNow && !s.isMobile) ==> r == s.(isMobile := mobileNow)
    ensures MobileExclusive(s) ==> MobileExclusive(r)
  {
    var r := s.(isMobile := mobileNow);
    if mobileNow && !s.isMobile then PanelsClosed(r) else r
  }

  /** On a desktop, toggling the information panel or the library twice
      gives back the state; the controls toggle is an involution anywhere. */
  lemma ToggleTwiceOnDesktop(s: UiState)
    requires !s.isMobile
    ensures ToggledInfo(ToggledInfo(s)) == s
    ensures ToggledLibrary(ToggledLibrary(s)) == s
    ensures ToggledControls(ToggledControls(s)) == s
  {
  }

  /** On mobile, opening and closing the information panel does not bring
      back a library that was open: the second toggle does not reopen it. */
  lemma ToggleTwiceOnMobileLosesLibrary(s: UiState)
    requires s.isMobile && !s.isInfoPanelVisible && s.isLibraryVisible
    ensures ToggledInfo(ToggledInfo(s)) == s.(isLibraryVisible := false)
  {
  }

  /** Closing the panels twice is closing them once. */
  lemma PanelsClosedIdempotent(s: UiState)
    ensures PanelsClosed(PanelsClosed(s)) == PanelsClosed(s)
  {
  }

  /** The panel actions of the store. */
  datatype PanelAction = ToggleInfo | ToggleLibrary | ToggleControls | CloseAll | Detect(mobileNow: bool)

  function ApplyPanel(s: UiState, a: PanelAction): UiState
  {
    match a
    case ToggleInfo => ToggledInfo(s)
    case ToggleLibrary => ToggledLibrary(s)
    case ToggleControls => ToggledControls(s)
    case CloseAll => PanelsClosed(s)
    case Detect(m) => DetectedMobile(s, m)
  }

  /** The state after the actions, applied in order. */
  function RunPanels(s: UiState, actions: seq<PanelAction>): UiState
    decreases actions
  {
    if actions == [] then s else RunPanels(ApplyPanel(s, actions[0]), actions[1..])
  }

  /** Whatever panel actions run, on mobile the information panel and the
      library are never open together, and the toasts, modal, theme,
      fullscreen and display flags are untouched. */
  lemma {:induction false} RunPanelsKeepsExclusive(s: UiState, actions: seq<PanelAction>)
    requires MobileExclusive(s)
    decreases actions
    ensures MobileExclusive(RunPanels(s, actions))
    ensures var r := RunPanels(s, actions);
      r.toasts == s.toasts && r.modal == s.modal && r.theme == s.theme && r.isFullscreen == s.isFullscreen
      && r.prefersReducedMotion == s.prefersReducedMotion && r.glowEffects == s.glowEffects
      && r.backgroundParticles == s.backgroundParticles
  {
    if actions != [] {
      var next := ApplyPanel(s, actions[0]);
      ApplyPanelKeeps(s, actions[0]);
      RunPanelsKeepsExclusive(next, actions[1..]);
      assert RunPanels(s, actions) == RunPanels(next, actions[1..]);
    }
  }

  /** One panel action keeps the invariant and the fields panels do not own. */
  lemma ApplyPanelKeeps(s: UiState, a: PanelAction)
    requires MobileExclusive(s)
    ensures var r := ApplyPanel(s, a);
      MobileExclusive(r)
      && r.toasts == s.toasts && r.modal == s.modal && r.theme == s.theme && r.isFullscreen == s.isFullscreen
      && r.prefersReducedMotion == s.prefersReducedMotion && r.glowEffects == s.glowEffects
      && r.backgroundParticles == s.backgroundParticles
  {
    match a
    case ToggleInfo =>
    case ToggleLibrary =>
    case ToggleControls =>
    case CloseAll =>
    case Detect(m) =>
  }

  class Ui {
    var isInfoPanelVisible: bool
    var isLibraryVisible: bool
    var isControlsVisible: bool
    var isFullscreen: bool
    var isMobile: bool
    var theme: string
    var prefersReducedMotion: bool
    var glowEffects: bool
    var backgroundParticles: bool
    var toasts: seq<Toast>
    var modal: Modal

    /** The store's whole state. */
    function State(): UiState
      reads this
    {
      UiState(isInfoPanelVisible, isLibraryVisible, isControlsVisible, isFullscreen, isMobile, theme,
              prefersReducedMotion, glowEffects, backgroundParticles, toasts, modal)
    }

    ghost predicate Valid()
      reads this
    {
      MobileExclusive(State())
    }

    /** `initialState` with no toasts and a closed modal. */
    constructor()
      ensures Valid()
      ensures State() == UiState(false, true, true, false, false, "dark", false, true, true, [], ClosedModal)
    {
      isInfoPanelVisible := false;
      isLibraryVisible := true;
      isControlsVisible := true;
      isFullscreen := false;
      isMobile := false;
      theme := "dark";
      prefersReducedMotion := false;
      glowEffects := true;
      backgroundParticles := true;
      toasts := [];
      modal := ClosedModal;
    }

    /** `isOverlayOpen()` */
    predicate IsOverlayOpen()
      reads this
    {
      isInfoPanelVisible || isLibraryVisible || modal.visible
    }

    /** `isSidebarOpen()` */
    predicate IsSidebarOpen()
      reads this
    {
      isInfoPanelVisible || isLibraryVisible
    }

    /** `isCanvasMainView()` */
    predicate IsCanvasMainView()
      reads this
    {
      !isInfoPanelVisible && !isLibraryVisible
    }

    /** `themeClass()` */
    function ThemeClass(): (r: string)
      reads this
      ensures |r| == 6 + |theme| && r[..6] == "theme-" && r[6..] == theme
    {
      "theme-" + theme
    }

    function PanelFlags(): seq<bool>
      reads this
    {
      [isInfoPanelVisible, isLibraryVisible, isControlsVisible]
    }

    /** `activePanelCount()`: the number of open panels among information,
        library and controls. */
    method ActivePanelCount() returns (count: nat)
      ensures count == CountTrue(PanelFlags())
      ensures count <= 3
      ensures count == 0 <==> !isInfoPanelVisible && !isLibraryVisible && !isControlsVisible
      ensures IsCanvasMainView() ==> count <= 1
    {
      count := 0;
      if isInfoPanelVisible { count := count + 1; }
      if isLibraryVisible { count := count + 1; }
      if isControlsVisible { count := count + 1; }
      CountThree(isInfoPanelVisible, isLibraryVisible, isControlsVisible);
    }

    /** `toggleInfoPanel()`: on mobile, opening the information panel
        closes the library. */
    method ToggleInfoPanel()
      requires Valid()
      modifies this
      ensures Valid()
      ensures State() == ToggledInfo(old(State()))
    {
      isInfoPanelVisible := !isInfoPanelVisible;
      if isMobile && isInfoPanelVisible {
        isLibraryVisible := false;
      }
    }

    /** `toggleLibrary()`: on mobile, opening the library closes the
        information panel. */
    method ToggleLibrary()
      requires Valid()
      modifies this
      ensures Valid()
      ensures State() == ToggledLibrary(old(State()))
    {
      isLibraryVisible := !isLibraryVisible;
      if isMobile && isLibraryVisible {
        isInfoPanelVisible := false;
      }
    }

    /** `toggleControls()` */
    method ToggleControls()
      requires Valid()
      modifies this
      ensures Valid()
      ensures State() == ToggledControls(old(State()))
    {
      isControlsVisible := !isControlsVisible;
    }

    /** `closeAllPanels()`: closes the information panel and the library;
        the controls panel is left as it is. */
    method CloseAllPanels()
      modifies this
      ensures Valid() && IsCanvasMainView()
      ensures State() == PanelsClosed(old(State()))
    {
      isInfoPanelVisible := false;
      isLibraryVisible := false;
    }

    /** `showToast(message, type?, duration?)` with the generated `id`:
        appends one visible toast; the type defaults to info and the
        duration to 3000 ms. */
    method ShowToast(id: string, message: string, kind: Option<ToastKind>, duration: Option<real>)
      modifies this
      ensures State() == WithToast(old(State()), Toast(id, message,
        if kind.Some? then kind.value else Info, if duration.Some? then duration.value else 3000.0, true))
    {
      var toast := Toast(id, message, if kind.Some? then kind.value else Info,
                         if duration.Some? then duration.value else 3000.0, true);
      toasts := toasts + [toast];
    }

    /** `hideToast(id)`: the first toast with that id is spliced out. */
    method HideToast(id: string)
      modifies this
      ensures State() == old(State()).(toasts := WithoutFirst(old(toasts), id))
    {
      SpliceRemovesFirst(toasts, id);
      var index := ToastIndex(toasts, id);
      if index < |toasts| {
        toasts := toasts[..index] + toasts[index + 1..];
      }
    }

    /** `openModal(component, props?)` */
    method OpenModal(component: string, props: Option<Entries<JsValue>>)
      modifies this
      ensures State() == old(State()).(modal := Modal(true, Some(component), if props.Some? then props.value else []))
    {
      modal := Modal(true, Some(component), if props.Some? then props.value else []);
    }

    /** `closeModal()` */
    method CloseModal()
      modifies this
      ensures State() == old(State()).(modal := ClosedModal)
    {
      modal := ClosedModal;
    }

    /** `toggleFullscreen()`: `requestSucceeds` says whether the browser
        granted the request; a refusal shows a warning toast with `toastId`. */
    method ToggleFullscreen(requestSucceeds: bool, toastId: string)
      modifies this
      ensures State() == FullscreenToggled(old(State()), requestSucceeds, toastId)
    {
      if requestSucceeds {
        isFullscreen := !isFullscreen;
      } else {
        ShowToast(toastId, FullscreenFailure, Some(Warning), None);
      }
    }

    /** `setTheme(theme)`: anything but the three known themes is ignored. */
    method SetTheme(newTheme: string)
      modifies this
      ensures newTheme in Themes ==> State() == old(State()).(theme := newTheme)
      ensures newTheme !in Themes ==> State() == old(State())
    {
      if newTheme !in Themes {
        return;
      }
      theme := newTheme;
    }

    /** `detectMobile()`, `mobileNow` being the viewport-or-user-agent test:
        the panels are closed only when the device becomes mobile. */
    method DetectMobile(mobileNow: bool)
      requires Valid()
      modifies this
      ensures Valid()
      ensures State() == DetectedMobile(old(State()), mobileNow)
    {
      var wasMobile := isMobile;
      isMobile := mobileNow;
      if mobileNow && !wasMobile {
        CloseAllPanels();
      }
    }

    /** `handleResize()`: detects the device again, and closes the panels
        once more on a switch to mobile, which leaves them closed. */
    method HandleResize(mobileNow: bool)
      requires Valid()
      modifies this
      ensures Valid()
      ensures State() == DetectedMobile(old(State()), mobileNow)
    {
      var wasMobile := isMobile;
      DetectMobile(mobileNow);
      if wasMobile != isMobile && isMobile {
        CloseAllPanels();
      }
    }

    /** `detectReducedMotion()`, `matches` being the media query's answer. */
    method DetectReducedMotion(matches: bool)
      modifies this
      ensures State() == old(State()).(prefersReducedMotion := matches)
    {
      prefersReducedMotion := matches;
    }

    /** `setGlowEffects(enabled)` */
    method SetGlowEffects(enabled: bool)
      modifies this
      ensures State() == old(State()).(glowEffects := enabled)
    {
      glowEffects := enabled;
    }

    /** `setBackgroundParticles(enabled)` */
    method SetBackgroundParticles(enabled: bool)
      modifies this
      ensures State() == old(State()).(backgroundParticles := enabled)
    {
      backgroundParticles := enabled;
    }

    /** `handleKeyboardShortcut(event)`. Escape closes the modal when it is
        open, and otherwise closes the panels when an overlay is open.
        With Ctrl or Cmd, 'i', 'l' and 'k' toggle the information panel, the
        library and the controls, and Enter toggles fullscreen; these four
        report `prevented` (`preventDefault()`). Any other key does nothing. */
    method HandleKeyboardShortcut(key: string, ctrlKey: bool, metaKey: bool, requestSucceeds: bool, toastId: string)
      returns (prevented: bool)
      requires Valid()
      modifies this
      ensures Valid()
      ensures prevented <==> key != "Escape" && (ctrlKey || metaKey) && key in ["i", "l", "Enter", "k"]
      ensures key == "Escape" ==> (State() ==
        if old(modal.visible) then old(State()).(modal := ClosedModal)
        else if old(IsOverlayOpen()) then PanelsClosed(old(State()))
        else old(State()))
      ensures prevented && key == "i" ==> State() == ToggledInfo(old(State()))
      ensures prevented && key == "l" ==> State() == ToggledLibrary(old(State()))
      ensures prevented && key == "Enter" ==> State() == FullscreenToggled(old(State()), requestSucceeds, toastId)
      ensures prevented && key == "k" ==> State() == ToggledControls(old(State()))
      ensures key != "Escape" && !prevented ==> State() == old(State())
    {
      prevented := false;
      if key == "Escape" {
        if modal.visible {
          CloseModal();
        } else if IsOverlayOpen() {
          CloseAllPanels();
        }
        return;
      }
      if ctrlKey || metaKey {
        if key == "i" {
          prevented := true;
          ToggleInfoPanel();
        } else if key == "l" {
          prevented := true;
          ToggleLibrary();
        } else if key == "Enter" {
          prevented := true;
          ToggleFullscreen(requestSucceeds, toastId);
        } else if key == "k" {
          prevented := true;
          ToggleControls();
        }
      }
    }
  }

  lemma CountThree(a: bool, b: bool, c: bool)
    ensures CountTrue([a, b, c]) == (if a then 1 else 0) + (if b then 1 else 0) + (if c then 1 else 0)
  {
    assert [a, b, c][1..] == [b, c];
    assert [b, c][1..] == [c];
    assert [c][1..] == [];
    assert CountTrue([c]) == (if c then 1 else 0) + CountTrue([]);
    assert CountTrue([b, c]) == (if b then 1 else 0) + CountTrue([c]);
    assert CountTrue([a, b, c]) == (if a then 1 else 0) + CountTrue([b, c]);
  }

  /** The count of open panels is at most three, and zero exactly when all
      three are closed. */
  lemma {:induction false} CountTrueBounds(flags: seq<bool>)
    ensures CountTrue(flags) == 0 <==> forall i :: 0 <= i < |flags| ==> !flags[i]
    ensures CountTrue(flags) == |flags| <==> forall i :: 0 <= i < |flags| ==> flags[i]
  {
    if flags != [] {
      CountTrueBounds(flags[1..]);
      assert forall i :: 1 <= i < |flags| ==> flags[1..][i - 1] == flags[i];
    }
  }
}
