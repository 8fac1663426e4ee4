/**
 The reveal transition of the sidebar: a reducer for the stable child layout
 (frontend/components/ui/sidebar-hover-transition.ts) driven by a layout effect, a
 fallback timer and the end of the CSS transition (frontend/components/ui/sidebar.tsx).
 */
module SidebarReveal {
  import opened Text

  datatype Target = Expanded | Collapsed

  datatype Transition = Transition(target: Target, layout: Target, resizing: bool)

  datatype Action = Begin(target: Target) | Settle(target: Target) | Sync(target: Target)

  function Create(target: Target): Transition {
    Transition(target, target, false)
  }

  function Reduce(state: Transition, action: Action): Transition {
    match action
    case Sync(target) => Create(target)
    case Begin(target) => Transition(target, if target.Expanded? then Expanded else state.layout, true)
    case Settle(target) => if target != state.target then state else Transition(target, target, false)
  }

  /** A settle for another target than the current one comes too late and is ignored; the other actions set the target. */
  lemma ReducerMeaning(state: Transition, target: Target)
    ensures Reduce(state, Settle(target)) == if target == state.target then Transition(target, target, false) else state
    ensures var begun := Reduce(state, Begin(target));
            begun.target == target && begun.resizing && begun.layout == if target.Expanded? then Expanded else state.layout
    ensures Reduce(state, Sync(target)) == Transition(target, target, false)
  {
  }

  /** `timers` maps the browser's pending timers to the target each will settle. */
  datatype Reveal = Reveal(
    transition: Transition,
    targetRef: Target,
    timers: map<nat, Target>,
    timerRef: Option<nat>,
    nextTimer: nat,
    uses: bool,
    visual: Target)

  function Mounted(uses: bool, visual: Target): Reveal {
    Reveal(Create(visual), visual, map[], None, 0, uses, visual)
  }

  function ClearTimer(r: Reveal): Reveal {
    if r.timerRef.None? then r else r.(timers := r.timers - {r.timerRef.value}, timerRef := None)
  }

  function SettleTransition(r: Reveal, target: Target): Reveal {
    var c := ClearTimer(r);
    c.(transition := Reduce(c.transition, Settle(target)))
  }

  /** The body of the layout effect for the dependencies stored in `r`. */
  function Effect(r: Reveal, reducedMotion: bool): Reveal {
    var c := ClearTimer(r);
    if !c.uses || reducedMotion then
      c.(targetRef := c.visual, transition := Reduce(c.transition, Sync(c.visual)))
    else if c.targetRef == c.visual then c
    else
      c.(targetRef := c.visual,
         transition := Reduce(c.transition, Begin(c.visual)),
         timers := c.timers[c.nextTimer := c.visual],
         timerRef := Some(c.nextTimer),
         nextTimer := c.nextTimer + 1)
  }

  /** A render with new dependencies runs the effect; one with the same dependencies does not. */
  datatype Event = Render(uses: bool, visual: Target, reducedMotion: bool) | Fire(timer: nat) | TransitionEnd

  predicate Enabled(r: Reveal, e: Event) {
    e.Fire? ==> e.timer in r.timers
  }

  function Apply(r: Reveal, e: Event): Reveal
    requires Enabled(r, e)
  {
    match e
    case Render(uses, visual, reducedMotion) =>
      if uses == r.uses && visual == r.visual then r
      else Effect(r.(uses := uses, visual := visual), reducedMotion)
    case Fire(timer) => SettleTransition(r.(timers := r.timers - {timer}), r.timers[timer])
    case TransitionEnd => if r.uses then SettleTransition(r, r.targetRef) else r
  }

  /** What every reachable state satisfies. */
  predicate Inv(r: Reveal) {
    && r.targetRef == r.transition.target == r.visual
    && (r.transition.resizing <==> r.timerRef.Some?)
    && r.timers == (if r.timerRef.Some? then map[r.timerRef.value := r.visual] else map[])
    && (r.timerRef.Some? ==> r.timerRef.value < r.nextTimer && r.uses)
    && (!r.transition.resizing ==> r.transition.layout == r.transition.target)
    && (r.transition.target.Expanded? ==> r.transition.layout.Expanded?)
  }

  lemma ClearedTimers(r: Reveal)
    requires Inv(r)
    ensures ClearTimer(r).timers == map[] && ClearTimer(r).timerRef == None
  {
    if r.timerRef.Some? {
      assert (r.timers - {r.timerRef.value}).Keys == {};
    }
  }

  lemma StepKeepsInv(r: Reveal, e: Event)
    requires Inv(r) && Enabled(r, e)
    ensures Inv(Apply(r, e))
  {
    ClearedTimers(r);
    if e.Fire? {
      assert r.timerRef == Some(e.timer);
      assert (r.timers - {e.timer}).Keys == {} && (r.timers - {e.timer} - {e.timer}).Keys == {};
    }
  }

  predicate ValidRun(r: Reveal, events: seq<Event>)
    decreases |events|
  {
    events == [] || (Enabled(r, events[0]) && ValidRun(Apply(r, events[0]), events[1..]))
  }

  function Run(r: Reveal, events: seq<Event>): Reveal
    requires ValidRun(r, events)
    decreases |events|
  {
    if events == [] then r else Run(Apply(r, events[0]), events[1..])
  }

  lemma {:induction false} RunKeepsInv(r: Reveal, events: seq<Event>)
    requires Inv(r) && ValidRun(r, events)
    ensures Inv(Run(r, events))
    decreases |events|
  {
    if events != [] {
      StepKeepsInv(r, events[0]);
      RunKeepsInv(Apply(r, events[0]), events[1..]);
    }
  }

  /** In every run: one timer exactly while resizing, and its firing settles the layout at the current target. */
  lemma PendingTimerEndsResize(uses: bool, visual: Target, events: seq<Event>, timer: nat)
    requires ValidRun(Mounted(uses, visual), events) && timer in Run(Mounted(uses, visual), events).timers
    ensures var r := Run(Mounted(uses, visual), events);
            && r.transition.resizing && r.timers.Keys == {timer}
            && Apply(r, Fire(timer)).transition == Create(r.visual)
            && Apply(r, Fire(timer)).timers == map[]
  {
    RunKeepsInv(Mounted(uses, visual), events);
    var r := Run(Mounted(uses, visual), events);
    StepKeepsInv(r, Fire(timer));
  }

  /** Expanded children keep their layout until a collapse is complete: at its end, or at once without animation. */
  lemma LayoutCollapsesIff(r: Reveal, e: Event)
    requires Inv(r) && Enabled(r, e) && r.transition.layout.Expanded?
    ensures Apply(r, e).transition.layout.Collapsed? <==>
              match e
              case Render(uses, visual, reducedMotion) =>
                visual.Collapsed? && (uses != r.uses || visual != r.visual) && (!uses || reducedMotion)
              case Fire(_) => r.visual.Collapsed?
              case TransitionEnd => r.uses && r.visual.Collapsed?
  {
    ClearedTimers(r);
    if e.Fire? {
      assert r.timerRef == Some(e.timer);
    }
  }

  /** A change of the visible state is animated, in both directions, exactly where reveals are used and motion is not reduced. */
  lemma AnimatesIff(r: Reveal, uses: bool, visual: Target, reducedMotion: bool)
    requires Inv(r)
    ensures var after := Apply(r, Render(uses, visual, reducedMotion));
            && after.visual == visual
            && (uses == r.uses && visual == r.visual ==> after == r)
            && (uses != r.uses || visual != r.visual ==>
                  (after.transition.resizing <==> uses && !reducedMotion && visual != r.visual))
            && (visual.Expanded? ==> after.transition.layout.Expanded?)
  {
    ClearedTimers(r);
  }

  /**
   The invariant leans on the effect's dependency list: run again without a change,
   the effect would drop the timer of a resize in progress, and only then do harm.
   */
  lemma EffectAgainIff(r: Reveal, reducedMotion: bool)
    requires Inv(r)
    ensures Inv(Effect(r, reducedMotion)) <==> !(r.uses && !reducedMotion && r.transition.resizing)
  {
    ClearedTimers(r);
  }

  // The component's refs, updated in place

  class SidebarRevealState {
    var revealTransition: Transition
    var transitionTargetRef: Target
    var pendingTimers: map<nat, Target>
    var transitionTimerRef: Option<nat>
    var nextTimer: nat
    var usesHoverReveal: bool
    var visualState: Target

    constructor (uses: bool, visual: Target)
      ensures State() == Mounted(uses, visual)
    {
      revealTransition, transitionTargetRef := Create(visual), visual;
      pendingTimers, transitionTimerRef, nextTimer := map[], None, 0;
      usesHoverReveal, visualState := uses, visual;
    }

    function State(): Reveal
      reads this
    {
      Reveal(revealTransition, transitionTargetRef, pendingTimers, transitionTimerRef, nextTimer,
             usesHoverReveal, visualState)
    }

    method ClearTransitionTimer()
      modifies this
      ensures State() == ClearTimer(old(State()))
    {
      if transitionTimerRef.None? {
        return;
      }
      pendingTimers := pendingTimers - {transitionTimerRef.value};
      transitionTimerRef := None;
    }

    method Settle(state: Target)
      modifies this
      ensures State() == SettleTransition(old(State()), state)
    {
      ClearTransitionTimer();
      revealTransition := Reduce(revealTransition, Action.Settle(state));
    }

    method LayoutEffect(uses: bool, visual: Target, reducedMotion: bool)
      requires uses != usesHoverReveal || visual != visualState
      modifies this
      ensures State() == Apply(old(State()), Render(uses, visual, reducedMotion))
    {
      usesHoverReveal, visualState := uses, visual;
      ClearTransitionTimer();
      if !usesHoverReveal || reducedMotion {
        transitionTargetRef := visualState;
        ClearTransitionTimer();
        revealTransition := Reduce(revealTransition, Sync(visualState));
        return;
      }
      if transitionTargetRef == visualState {
        return;
      }
      transitionTargetRef := visualState;
      revealTransition := Reduce(revealTransition, Begin(visualState));
      pendingTimers := pendingTimers[nextTimer := visualState];
      transitionTimerRef := Some(nextTimer);
      nextTimer := nextTimer + 1;
    }

    method TimerFires(timer: nat)
      requires timer in pendingTimers
      modifies this
      ensures State() == Apply(old(State()), Fire(timer))
    {
      var state := pendingTimers[timer];
      pendingTimers := pendingTimers - {timer};
      Settle(state);
    }

    method HandleContainerTransitionEnd()
      modifies this
      ensures State() == Apply(old(State()), TransitionEnd)
    {
      if !usesHoverReveal {
        return;
      }
      Settle(transitionTargetRef);
    }
  }
}
