/**
 Collapsing the sidebar on narrow windows and restoring it on wide ones, without
 overriding the user (frontend/components/ui/sidebar.tsx, SidebarProvider, with its
 own open state).
 */
module SidebarViewport {
  /** `intent` is no field of the component: the initial value, or what the user asked for last. */
  datatype View = View(
    open: bool,
    openRef: bool,
    autoCollapsed: bool,
    wasCollapse: bool,
    wasRestore: bool,
    intent: bool)

  predicate ShouldCollapse(width: nat) {
    width < 1180
  }

  predicate ShouldRestore(width: nat) {
    width >= 1360
  }

  function Mounted(initialOpen: bool, width: nat): View {
    var open := initialOpen && !ShouldCollapse(width);
    View(open, open, initialOpen && ShouldCollapse(width), ShouldCollapse(width), ShouldRestore(width), initialOpen)
  }

  datatype Event = SetOpen(value: bool) | Toggle | Resize(width: nat)

  /** The effect that follows the window. */
  function Follow(v: View, shouldCollapse: bool, shouldRestore: bool): View {
    var entersCollapse, entersRestore := shouldCollapse && !v.wasCollapse, shouldRestore && !v.wasRestore;
    var w := v.(wasCollapse := shouldCollapse, wasRestore := shouldRestore);
    if entersCollapse then
      var a := w.(autoCollapsed := w.open);
      if !w.open then a else a.(open := false, openRef := false)
    else if !entersRestore || !w.autoCollapsed then w
    else w.(autoCollapsed := false, open := true, openRef := true)
  }

  function Apply(v: View, e: Event): View {
    match e
    case SetOpen(value) => v.(open := value, openRef := value, autoCollapsed := false, intent := value)
    case Toggle => v.(open := !v.openRef, openRef := !v.openRef, autoCollapsed := false, intent := !v.openRef)
    case Resize(width) => Follow(v, ShouldCollapse(width), ShouldRestore(width))
  }

  function Run(v: View, events: seq<Event>): View
    decreases |events|
  {
    if events == [] then v else Run(Apply(v, events[0]), events[1..])
  }

  /** The sidebar is never shown, nor kept for showing, against the user's wish. */
  predicate Inv(v: View) {
    && v.openRef == v.open
    && (v.open || v.autoCollapsed ==> v.intent)
    && (v.autoCollapsed ==> !v.open && !v.wasRestore)
    && !(v.wasCollapse && v.wasRestore)
  }

  /** The user's wish is still known: shown now, or remembered for a wider window. */
  predicate Remembered(v: View) {
    v.intent ==> v.open || v.autoCollapsed
  }

  /** The one event that forgets: narrow again before the window was wide. */
  predicate Forgets(v: View, e: Event) {
    e.Resize? && ShouldCollapse(e.width) && !v.wasCollapse && v.autoCollapsed
  }

  lemma StepKeepsInv(v: View, e: Event)
    requires Inv(v)
    ensures Inv(Apply(v, e))
  {
  }

  lemma RememberedIff(v: View, e: Event)
    requires Inv(v) && Remembered(v)
    ensures Remembered(Apply(v, e)) <==> !Forgets(v, e)
  {
  }

  /** What the user asks for is shown at once, on any window. */
  lemma AskedIsShown(v: View, value: bool)
    requires Inv(v)
    ensures var after := Apply(v, SetOpen(value));
            after.open == value && after.intent == value && !after.autoCollapsed
    ensures var after := Apply(v, Toggle);
            after.open == !v.open && after.intent == !v.open && !after.autoCollapsed
  {
  }

  /**
   Below 1180 pixels the sidebar closes when the window gets there, from 1360 on it opens
   again if it closed by itself, and in between nothing changes.
   */
  lemma ResizedIs(v: View, width: nat)
    requires Inv(v)
    ensures var after := Apply(v, Resize(width));
            && after.intent == v.intent
            && (width < 1180 && !v.wasCollapse ==> !after.open && after.autoCollapsed == v.open)
            && (width >= 1360 && !v.wasRestore ==> after.open == (v.open || v.autoCollapsed) && !after.autoCollapsed)
            && (1180 <= width < 1360 || (width < 1180 && v.wasCollapse) || (width >= 1360 && v.wasRestore) ==>
                  after.open == v.open && after.autoCollapsed == v.autoCollapsed)
            && after.wasCollapse == (width < 1180) && after.wasRestore == (width >= 1360)
  {
  }

  predicate NeverForgets(v: View, events: seq<Event>)
    decreases |events|
  {
    events == [] || (!Forgets(v, events[0]) && NeverForgets(Apply(v, events[0]), events[1..]))
  }

  /** In every run: shown or kept for showing implies wished; the converse in runs that never forget. */
  lemma {:induction false} RunRespectsIntent(v: View, events: seq<Event>)
    requires Inv(v)
    ensures Inv(Run(v, events))
    ensures Remembered(v) && NeverForgets(v, events) ==> Remembered(Run(v, events))
    decreases |events|
  {
    if events != [] {
      StepKeepsInv(v, events[0]);
      if Remembered(v) && NeverForgets(v, events) {
        RememberedIff(v, events[0]);
      }
      RunRespectsIntent(Apply(v, events[0]), events[1..]);
    }
  }

  /** From any start, on a wide window the sidebar shows exactly what the user wished, unless it forgot. */
  lemma WideShowsIntent(initialOpen: bool, width: nat, events: seq<Event>)
    requires NeverForgets(Mounted(initialOpen, width), events)
    requires Run(Mounted(initialOpen, width), events).wasRestore
    ensures var v := Run(Mounted(initialOpen, width), events);
            v.open == v.intent
  {
    RunRespectsIntent(Mounted(initialOpen, width), events);
  }

  /** Narrow, a little wider, narrow, wide: the sidebar stays closed though the user never closed it. */
  lemma NarrowTwiceForgets()
    ensures var v := Run(Mounted(true, 1400), [Resize(1100), Resize(1200), Resize(1100), Resize(1400)]);
            v.intent && v.wasRestore && !v.open && !v.autoCollapsed
  {
    var v0 := Mounted(true, 1400);
    var e := [Resize(1100), Resize(1200), Resize(1100), Resize(1400)];
    var v1 := Apply(v0, e[0]);
    var v2 := Apply(v1, e[1]);
    var v3 := Apply(v2, e[2]);
    var v4 := Apply(v3, e[3]);
    assert e[1..][1..] == e[2..] && e[2..][1..] == e[3..] && e[3..][1..] == [];
    assert Run(v4, []) == v4 && Run(v3, e[3..]) == v4 && Run(v2, e[2..]) == v4 && Run(v1, e[1..]) == v4;
  }

  // The component's state and refs, updated in place

  class SidebarProviderState {
    var open: bool
    var openRef: bool
    var autoCollapsedRef: bool
    var wasAutoCollapseViewportRef: bool
    var wasAutoRestoreViewportRef: bool
    ghost var intent: bool

    constructor (initialOpen: bool, width: nat)
      ensures State() == Mounted(initialOpen, width)
    {
      autoCollapsedRef := initialOpen && ShouldCollapse(width);
      wasAutoCollapseViewportRef, wasAutoRestoreViewportRef := ShouldCollapse(width), ShouldRestore(width);
      open := initialOpen && !ShouldCollapse(width);
      openRef := initialOpen && !ShouldCollapse(width);
      intent := initialOpen;
    }

    ghost function State(): View
      reads this
    {
      View(open, openRef, autoCollapsedRef, wasAutoCollapseViewportRef, wasAutoRestoreViewportRef, intent)
    }

    method SetOpen(value: bool)
      modifies this
      ensures State() == Apply(old(State()), Event.SetOpen(value))
    {
      openRef := value;
      autoCollapsedRef := false;
      open := value;
      intent := value;
    }

    method ToggleSidebar()
      modifies this
      ensures State() == Apply(old(State()), Toggle)
    {
      SetOpen(!openRef);
    }

    method ViewportEffect(width: nat)
      modifies this
      ensures State() == Apply(old(State()), Resize(width))
    {
      var shouldCollapse, shouldRestore := ShouldCollapse(width), ShouldRestore(width);
      var enteredAutoCollapseViewport := shouldCollapse && !wasAutoCollapseViewportRef;
      var enteredAutoRestoreViewport := shouldRestore && !wasAutoRestoreViewportRef;
      wasAutoCollapseViewportRef, wasAutoRestoreViewportRef := shouldCollapse, shouldRestore;
      if enteredAutoCollapseViewport {
        autoCollapsedRef := open;
        if !open {
          return;
        }
        openRef := false;
        open := false;
        return;
      }
      if !enteredAutoRestoreViewport || !autoCollapsedRef {
        return;
      }
      autoCollapsedRef := false;
      openRef := true;
      open := true;
    }
  }
}
