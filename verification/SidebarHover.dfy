/**
 The hover expansion of the sidebar: locks held by open menus, the pointer, and the
 timer that collapses (frontend/components/ui/sidebar.tsx, Sidebar).
 */
module SidebarHover {
  import opened Text

  /**
   `timers` are the browser's pending timers and `timerRef` the one the component
   remembers; `released` has one flag for every lock ever handed out.
   */
  datatype Hover = Hover(
    expanded: bool,
    timers: set<nat>,
    timerRef: Option<nat>,
    nextTimer: nat,
    lockCount: int,
    released: seq<bool>,
    inside: bool)

  const MOUNTED := Hover(false, {}, None, 0, 0, [], false)

  /** `enabled` stands for expandOnHover with the icon variant, `mouse` for the pointer type. */
  datatype Event =
    | Acquire
    | Release(lock: nat)
    | Enter(mouse: bool, enabled: bool, open: bool)
    | Leave(mouse: bool, enabled: bool)
    | Fire(timer: nat)
    | Reset

  function ClearTimer(h: Hover): Hover {
    if h.timerRef.None? then h else h.(timers := h.timers - {h.timerRef.value}, timerRef := None)
  }

  function Schedule(h: Hover): Hover {
    var c := ClearTimer(h);
    c.(timers := c.timers + {c.nextTimer}, timerRef := Some(c.nextTimer), nextTimer := c.nextTimer + 1)
  }

  predicate Enabled(h: Hover, e: Event) {
    match e
    case Release(lock) => lock < |h.released|
    case Fire(timer) => timer in h.timers
    case _ => true
  }

  function Max(a: int, b: int): int {
    if a < b then b else a
  }

  function Apply(h: Hover, e: Event): Hover
    requires Enabled(h, e)
  {
    match e
    case Acquire => ClearTimer(h.(lockCount := h.lockCount + 1, released := h.released + [false]))
    case Release(lock) =>
      if h.released[lock] then h
      else
        var r := h.(released := h.released[lock := true], lockCount := Max(0, h.lockCount - 1));
        if r.lockCount == 0 && !r.inside then Schedule(r) else r
    case Enter(mouse, enabled, open) =>
      var c := ClearTimer(h.(inside := true));
      if enabled && mouse && !open then c.(expanded := true) else c
    case Leave(mouse, enabled) =>
      var l := h.(inside := false);
      if enabled && mouse && l.lockCount <= 0 then Schedule(l) else l
    case Fire(timer) => h.(timers := h.timers - {timer}, timerRef := None, expanded := false)
    case Reset => ClearTimer(h).(expanded := false)
  }

  function Unreleased(released: seq<bool>): nat {
    if released == [] then 0 else Unreleased(released[..|released| - 1]) + if released[|released| - 1] then 0 else 1
  }

  /** What every reachable state satisfies. */
  predicate Inv(h: Hover) {
    && h.lockCount == Unreleased(h.released)
    && h.timers == (if h.timerRef.Some? then {h.timerRef.value} else {})
    && (h.timerRef.Some? ==> h.timerRef.value < h.nextTimer && h.lockCount == 0 && !h.inside)
  }

  lemma {:induction false} ReleaseCounts(released: seq<bool>, lock: nat)
    requires lock < |released| && !released[lock]
    ensures Unreleased(released) == Unreleased(released[lock := true]) + 1
  {
    var n := |released| - 1;
    var front := released[..n];
    if lock < n {
      ReleaseCounts(front, lock);
      assert released[lock := true][..n] == front[lock := true];
    } else {
      assert released[lock := true][..n] == front;
    }
  }

  /** The count is that of the locks held, so the clamp at zero never matters and a second release does nothing. */
  lemma StepKeepsInv(h: Hover, e: Event)
    requires Inv(h) && Enabled(h, e)
    ensures Inv(Apply(h, e))
    ensures e.Release? ==> Apply(h, e).lockCount == h.lockCount - if h.released[e.lock] then 0 else 1
    ensures e.Release? && h.released[e.lock] ==> Apply(h, e) == h
  {
    match e
    case Acquire =>
      assert (h.released + [false])[..|h.released|] == h.released;
    case Release(lock) =>
      if !h.released[lock] {
        ReleaseCounts(h.released, lock);
      }
    case _ =>
  }

  predicate ValidRun(h: Hover, events: seq<Event>)
    decreases |events|
  {
    events == [] || (Enabled(h, events[0]) && ValidRun(Apply(h, events[0]), events[1..]))
  }

  function Run(h: Hover, events: seq<Event>): Hover
    requires ValidRun(h, events)
    decreases |events|
  {
    if events == [] then h else Run(Apply(h, events[0]), events[1..])
  }

  lemma {:induction false} RunKeepsInv(h: Hover, events: seq<Event>)
    requires Inv(h) && ValidRun(h, events)
    ensures Inv(Run(h, events))
    decreases |events|
  {
    if events != [] {
      StepKeepsInv(h, events[0]);
      RunKeepsInv(Apply(h, events[0]), events[1..]);
    }
  }

  /** A timer that fires never collapses a sidebar that is held open or hovered, and it is the only timer. */
  lemma TimerFiresOnlyWhenFree(events: seq<Event>, timer: nat)
    requires ValidRun(MOUNTED, events) && timer in Run(MOUNTED, events).timers
    ensures var h := Run(MOUNTED, events);
            && Unreleased(h.released) == 0 && !h.inside
            && h.timers == {timer} && h.timerRef == Some(timer)
  {
    RunKeepsInv(MOUNTED, events);
    var h := Run(MOUNTED, events);
    assert h.timers == {h.timerRef.value};
  }

  /** While one lock is held the sidebar stays expanded, whatever the pointer, other locks and timers do. */
  lemma {:induction false} HeldStaysExpanded(h: Hover, lock: nat, events: seq<Event>)
    requires Inv(h) && ValidRun(h, events)
    requires h.expanded && lock < |h.released| && !h.released[lock]
    requires forall i | 0 <= i < |events| :: events[i] != Release(lock) && !events[i].Reset?
    ensures Run(h, events).expanded
    decreases |events|
  {
    if events != [] {
      ReleaseCounts(h.released, lock);
      StepKeepsInv(h, events[0]);
      HeldStaysExpanded(Apply(h, events[0]), lock, events[1..]);
    }
  }

  /** So does one under the pointer. */
  lemma {:induction false} HoveredStaysExpanded(h: Hover, events: seq<Event>)
    requires Inv(h) && ValidRun(h, events)
    requires h.expanded && h.inside
    requires forall i | 0 <= i < |events| :: !events[i].Leave? && !events[i].Reset?
    ensures Run(h, events).expanded && Run(h, events).inside
    decreases |events|
  {
    if events != [] {
      StepKeepsInv(h, events[0]);
      HoveredStaysExpanded(Apply(h, events[0]), events[1..]);
    }
  }

  /** What expands the sidebar, and what collapses it. */
  lemma ExpandedIff(h: Hover, e: Event)
    requires Enabled(h, e)
    ensures Apply(h, e).expanded <==>
              || (e.Enter? && e.enabled && e.mouse && !e.open)
              || (h.expanded && !e.Fire? && !e.Reset?)
  {
  }

  /** When hovering is switched off the sidebar is collapsed at once and nothing is pending; locks stay held. */
  lemma ResetCollapses(h: Hover)
    requires Inv(h)
    ensures var after := Apply(h, Reset);
            !after.expanded && after.timers == {} && after.timerRef == None && Inv(after)
            && after.lockCount == h.lockCount && after.inside == h.inside
  {
    StepKeepsInv(h, Reset);
  }

  /** When a collapse is pending: from the last release or the pointer's leaving, until a lock, the pointer or a reset. */
  lemma PendingIff(h: Hover, e: Event)
    requires Inv(h) && Enabled(h, e)
    ensures Apply(h, e).timerRef.Some? <==>
              match e
              case Release(lock) =>
                if h.released[lock] then h.timerRef.Some? else h.lockCount == 1 && !h.inside
              case Leave(mouse, enabled) =>
                (enabled && mouse && h.lockCount == 0) || h.timerRef.Some?
              case _ => false
  {
    if e.Release? && !h.released[e.lock] {
      ReleaseCounts(h.released, e.lock);
    }
  }

  /** An expanded sidebar that is neither held nor hovered is about to collapse. */
  predicate NotStuck(h: Hover) {
    h.expanded && h.lockCount == 0 && !h.inside ==> h.timerRef.Some?
  }

  /** This is lost in exactly one way: the pointer leaves as something other than an enabled mouse. */
  lemma StuckIff(h: Hover, e: Event)
    requires Inv(h) && NotStuck(h) && Enabled(h, e)
    ensures NotStuck(Apply(h, e)) <==>
              !(e.Leave? && !(e.enabled && e.mouse) && h.expanded && h.lockCount == 0 && h.timerRef.None?)
  {
    StepKeepsInv(h, e);
    if e.Release? && !h.released[e.lock] {
      ReleaseCounts(h.released, e.lock);
    }
  }

  lemma TouchLeaveSticks() returns (events: seq<Event>)
    ensures ValidRun(MOUNTED, events) && !NotStuck(Run(MOUNTED, events))
  {
    var e0, e1 := Enter(true, true, false), Leave(false, true);
    events := [e0, e1];
    assert events[1..] == [e1] && [e1][1..] == [];
    assert Run(Apply(Apply(MOUNTED, e0), e1), []) == Apply(Apply(MOUNTED, e0), e1);
    assert Run(Apply(MOUNTED, e0), [e1]) == Apply(Apply(MOUNTED, e0), e1);
  }

  // The component's refs, updated in place

  class SidebarHoverState {
    var hoverExpanded: bool
    var pendingTimers: set<nat>
    var hoverCollapseTimerRef: Option<nat>
    var nextTimer: nat
    var hoverExpansionLockCountRef: int
    var released: seq<bool>
    var pointerInsideRef: bool

    constructor ()
      ensures State() == MOUNTED
    {
      hoverExpanded, pendingTimers, hoverCollapseTimerRef, nextTimer := false, {}, None, 0;
      hoverExpansionLockCountRef, released, pointerInsideRef := 0, [], false;
    }

    function State(): Hover
      reads this
    {
      Hover(hoverExpanded, pendingTimers, hoverCollapseTimerRef, nextTimer,
            hoverExpansionLockCountRef, released, pointerInsideRef)
    }

    method ClearHoverCollapseTimer()
      modifies this
      ensures State() == ClearTimer(old(State()))
    {
      if hoverCollapseTimerRef.None? {
        return;
      }
      pendingTimers := pendingTimers - {hoverCollapseTimerRef.value};
      hoverCollapseTimerRef := None;
    }

    method ScheduleHoverCollapse()
      modifies this
      ensures State() == Schedule(old(State()))
    {
      ClearHoverCollapseTimer();
      pendingTimers := pendingTimers + {nextTimer};
      hoverCollapseTimerRef := Some(nextTimer);
      nextTimer := nextTimer + 1;
    }

    method TimerFires(timer: nat)
      requires timer in pendingTimers
      modifies this
      ensures State() == Apply(old(State()), Fire(timer))
    {
      pendingTimers := pendingTimers - {timer};
      hoverCollapseTimerRef := None;
      hoverExpanded := false;
    }

    method AcquireHoverExpansionLock() returns (lock: nat)
      modifies this
      ensures State() == Apply(old(State()), Acquire) && lock == |old(released)|
    {
      lock := |released|;
      released := released + [false];
      hoverExpansionLockCountRef := hoverExpansionLockCountRef + 1;
      ClearHoverCollapseTimer();
    }

    method ReleaseHoverExpansionLock(lock: nat)
      requires lock < |released|
      modifies this
      ensures State() == Apply(old(State()), Release(lock))
    {
      if released[lock] {
        return;
      }
      released := released[lock := true];
      hoverExpansionLockCountRef := Max(0, hoverExpansionLockCountRef - 1);
      if hoverExpansionLockCountRef == 0 && !pointerInsideRef {
        ScheduleHoverCollapse();
      }
    }

    method HandlePointerEnter(mouse: bool, enabled: bool, open: bool)
      modifies this
      ensures State() == Apply(old(State()), Enter(mouse, enabled, open))
    {
      pointerInsideRef := true;
      ClearHoverCollapseTimer();
      if enabled && mouse && !open {
        hoverExpanded := true;
      }
    }

    method HandlePointerLeave(mouse: bool, enabled: bool)
      modifies this
      ensures State() == Apply(old(State()), Leave(mouse, enabled))
    {
      pointerInsideRef := false;
      if enabled && mouse {
        if hoverExpansionLockCountRef > 0 {
          return;
        }
        ScheduleHoverCollapse();
      }
    }

    /** The effect that runs when the sidebar opens, turns mobile or stops expanding on hover. */
    method ResetHover()
      modifies this
      ensures State() == Apply(old(State()), Reset)
    {
      ClearHoverCollapseTimer();
      hoverExpanded := false;
    }
  }
}
