/**
 Results about every run of the refresh protocol, and the three things it does
 not promise, each with a run that shows it.
 */
module RefreshSafety {
  import opened Text
  import opened Session
  import opened RefreshClient
  import opened RefreshProtocol

  /** A step in front of a run. */
  lemma RunCons(w: World, step: Step, v: World, steps: seq<Step>)
    requires Enabled(w, step) && Apply(w, step) == v && ValidRun(v, steps)
    ensures ValidRun(w, [step] + steps) && Run(w, [step] + steps) == Run(v, steps)
  {
    assert ([step] + steps)[1..] == steps;
  }

  lemma ConsAppend<T>(a: seq<T>, b: seq<T>)
    requires a != []
    ensures [a[0]] + (a[1..] + b) == a + b
  {
  }

  lemma {:induction false} RunAppend(w: World, a: seq<Step>, b: seq<Step>)
    requires ValidRun(w, a) && ValidRun(Run(w, a), b)
    ensures ValidRun(w, a + b) && Run(w, a + b) == Run(Run(w, a), b)
    decreases |a|
  {
    if a == [] {
      assert a + b == b;
    } else {
      var v := Apply(w, a[0]);
      RunAppend(v, a[1..], b);
      RunCons(w, a[0], v, a[1..] + b);
      ConsAppend(a, b);
    }
  }

  lemma InitialInv(w: World)
    requires Initial(w)
    ensures Inv(w)
  {
  }

  /** What a step can do to what was already there. */
  predicate Frame(w: World, v: World) {
    && v.locks == w.locks && |v.tabs| == |w.tabs|
    && |w.flights| <= |v.flights| && |w.calls| <= |v.calls|
  }

  lemma StartFrame(w: World, t: nat, failed: string)
    requires t < |w.tabs|
    ensures Frame(w, EnsureFlight(w, t, failed))
  {
  }

  lemma FirstAnswerFrame(w: World, c: nat, answer: ApiAnswer, aborted: bool)
    requires Enabled(w, FirstAnswered(c, answer, aborted))
    ensures Frame(w, Apply(w, FirstAnswered(c, answer, aborted)))
  {
    var call := w.calls[c];
    StartFrame(OpenChannel(w, call.tab), call.tab, call.failed);
  }

  lemma StepFrame(w: World, step: Step)
    requires Enabled(w, step)
    ensures Frame(w, Apply(w, step))
  {
    match step
    case StartRefresh(t, failed) => StartFrame(w, t, failed);
    case FirstAnswered(c, answer, aborted) => FirstAnswerFrame(w, c, answer, aborted);
    case Write(_, _, _) =>
    case Deliver(_) =>
    case StartCall(_, _) =>
    case LockGranted(_) =>
    case LockRefused(_) =>
    case RefreshAnswered(_, _) =>
    case Settle(_) =>
    case Resume(_, _) =>
    case RetryAnswered(_, _) =>
  }

  lemma {:induction false} RunFrame(w: World, steps: seq<Step>)
    requires ValidRun(w, steps)
    ensures Frame(w, Run(w, steps))
    decreases |steps|
  {
    if steps != [] {
      StepFrame(w, steps[0]);
      RunFrame(Apply(w, steps[0]), steps[1..]);
    }
  }

  // Single flight

  /** At most one refresh request is outstanding: across all tabs with locks, in each tab without. */
  lemma OneRefreshAtATime(w: World, steps: seq<Step>, f: nat, g: nat)
    requires Initial(w) && ValidRun(w, steps)
    requires var v := Run(w, steps);
             && f < |v.flights| && v.flights[f].stage.Requesting?
             && g < |v.flights| && v.flights[g].stage.Requesting?
             && (w.locks || v.flights[f].tab == v.flights[g].tab)
    ensures f == g
  {
    InitialInv(w);
    RunKeepsInv(w, steps);
    RunFrame(w, steps);
  }

  /** The slot of a tab is taken exactly while one of its refreshes is unfinished, whatever its outcome. */
  lemma SlotIsFreeIffSettled(w: World, steps: seq<Step>, t: nat)
    requires Initial(w) && ValidRun(w, steps) && t < |w.tabs|
    ensures |Run(w, steps).tabs| == |w.tabs|
    ensures var v := Run(w, steps);
            v.tabs[t].slot.None? <==> forall f | 0 <= f < |v.flights| && v.flights[f].tab == t :: v.flights[f].stage.Done?
  {
    InitialInv(w);
    RunKeepsInv(w, steps);
    RunFrame(w, steps);
    var v := Run(w, steps);
    if v.tabs[t].slot.Some? {
      assert !v.flights[v.tabs[t].slot.value].stage.Done?;
    }
  }

  /** How a refresh can develop: forward only, with its starting revision and its outcome fixed. */
  lemma FlightStep(w: World, step: Step, f: nat)
    requires Enabled(w, step) && f < |w.flights|
    ensures f < |Apply(w, step).flights|
    ensures var x, y := w.flights[f], Apply(w, step).flights[f];
            && y.tab == x.tab && y.failed == x.failed
            && (x.stage.Requesting? ==> y.stage == x.stage || y.stage.Settled?)
            && (x.stage.Settled? ==> y == x || y == x.(stage := Done(x.stage.outcome)))
            && (x.stage.Done? ==> y == x)
  {
  }

  /** Once a refresh is done its outcome never changes. */
  lemma {:induction false} DoneForever(w: World, steps: seq<Step>, f: nat)
    requires ValidRun(w, steps) && f < |w.flights| && w.flights[f].stage.Done?
    ensures f < |Run(w, steps).flights| && Run(w, steps).flights[f] == w.flights[f]
    decreases |steps|
  {
    if steps != [] {
      FlightStep(w, steps[0], f);
      DoneForever(Apply(w, steps[0]), steps[1..], f);
    }
  }

  /** A request outstanding before and after is the same request. */
  lemma {:induction false} SameRequest(w: World, steps: seq<Step>, f: nat)
    requires ValidRun(w, steps) && f < |w.flights|
    ensures f < |Run(w, steps).flights|
    ensures var x, y := w.flights[f], Run(w, steps).flights[f];
            && y.tab == x.tab
            && (x.stage.Requesting? && y.stage.Requesting? ==> y.stage == x.stage)
            && (x.stage.Settled? || x.stage.Done? ==> !y.stage.Requesting?)
    decreases |steps|
  {
    if steps != [] {
      FlightStep(w, steps[0], f);
      SameRequest(Apply(w, steps[0]), steps[1..], f);
    }
  }

  /**
   Any two callers that joined one refresh hear one outcome, that of the refresh, once
   they no longer wait; `Followed` says what each of them does with it.
   */
  lemma JoinedCallersAgree(w: World, steps: seq<Step>, c: nat, d: nat)
    requires Initial(w) && ValidRun(w, steps)
    requires var v := Run(w, steps);
             && c < |v.calls| && d < |v.calls|
             && v.calls[c].joined.Some? && v.calls[c].joined == v.calls[d].joined
    ensures var v := Run(w, steps);
            var x, y := v.calls[c], v.calls[d];
            && (x.heard.None? <==> x.stage.Waiting?) && (y.heard.None? <==> y.stage.Waiting?)
            && (x.heard.Some? ==>
                  && x.joined.value < |v.flights| && v.flights[x.joined.value].stage == Done(x.heard.value)
                  && Followed(x))
            && (x.heard.Some? && y.heard.Some? ==> x.heard == y.heard && Followed(y))
  {
    InitialInv(w);
    RunKeepsInv(w, steps);
    var v := Run(w, steps);
    assert CallOk(v, v.calls[c]) && CallOk(v, v.calls[d]);
  }

  /** What a call joined and what it heard stay as they are. */
  lemma {:induction false} HeardForever(w: World, steps: seq<Step>, c: nat)
    requires Inv(w) && ValidRun(w, steps) && c < |w.calls| && w.calls[c].heard.Some?
    ensures c < |Run(w, steps).calls|
    ensures Run(w, steps).calls[c].heard == w.calls[c].heard && Run(w, steps).calls[c].joined == w.calls[c].joined
    decreases |steps|
  {
    if steps != [] {
      HeardStays(w, steps[0], c);
      StepKeepsInv(w, steps[0]);
      HeardForever(Apply(w, steps[0]), steps[1..], c);
    }
  }

  lemma HeardStays(w: World, step: Step, c: nat)
    requires Inv(w) && Enabled(w, step) && c < |w.calls| && w.calls[c].heard.Some?
    ensures c < |Apply(w, step).calls|
    ensures Apply(w, step).calls[c].heard == w.calls[c].heard && Apply(w, step).calls[c].joined == w.calls[c].joined
  {
    assert CallOk(w, w.calls[c]);
    match step
    case StartCall(_, _) =>
    case StartRefresh(t, failed) => StartKeepsCalls(w, t, failed);
    case FirstAnswered(d, answer, aborted) => FirstAnswerKeepsOthers(w, d, answer, aborted, c);
    case Resume(_, _) =>
    case RetryAnswered(_, _) =>
    case _ => OtherStepsKeepCalls(w, step);
  }

  lemma OtherStepsKeepCalls(w: World, step: Step)
    requires Enabled(w, step)
    requires step.Write? || step.Deliver? || step.LockGranted? || step.LockRefused? || step.RefreshAnswered? || step.Settle?
    ensures Apply(w, step).calls == w.calls
  {
  }

  lemma StartKeepsCalls(w: World, t: nat, failed: string)
    requires t < |w.tabs|
    ensures EnsureFlight(w, t, failed).calls == w.calls
  {
  }

  lemma FirstAnswerKeepsOthers(w: World, d: nat, answer: ApiAnswer, aborted: bool, c: nat)
    requires Inv(w) && Enabled(w, FirstAnswered(d, answer, aborted)) && c < |w.calls| && w.calls[c].heard.Some?
    ensures var v := Apply(w, FirstAnswered(d, answer, aborted));
            c < |v.calls| && v.calls[c] == w.calls[c]
  {
    assert CallOk(w, w.calls[c]);
    var call := w.calls[d];
    StartKeepsCalls(OpenChannel(w, call.tab), call.tab, call.failed);
  }

  // Which token a refresh brings

  predicate Brings(w: World, f: nat, x: string) {
    && f < |w.flights| && (w.flights[f].stage.Settled? || w.flights[f].stage.Done?)
    && w.flights[f].stage.outcome == Token(x)
  }

  /**
   The branch taken when refresh `f` begins or is answered gives it the token `x`: the
   tab holds `x` and the refresh was started for another token, or the server sends `x`.
   */
  predicate Gives(w: World, step: Step, f: nat, x: string)
    requires Enabled(w, step)
  {
    match step
    case LockGranted(g) =>
      g == f && w.tabs[w.flights[f].tab].session.snapshot.accessToken == x && w.flights[f].failed != x
    case StartRefresh(t, failed) =>
      && !w.locks && w.tabs[t].slot.None? && f == |w.flights|
      && w.tabs[t].session.snapshot.accessToken == x && failed != x
    case RefreshAnswered(g, reply) => g == f && Stores(reply) && reply.accessToken == x
    case _ => false
  }

  predicate GivenIn(w: World, steps: seq<Step>, f: nat, x: string)
    requires ValidRun(w, steps)
    decreases |steps|
  {
    steps != [] && (Gives(w, steps[0], f, x) || GivenIn(Apply(w, steps[0]), steps[1..], f, x))
  }

  lemma StepBringsIff(w: World, step: Step, f: nat, x: string)
    requires Inv(w) && Enabled(w, step) && x != ""
    ensures Brings(Apply(w, step), f, x) <==> Brings(w, f, x) || Gives(w, step, f, x)
  {
    match step
    case StartRefresh(t, failed) => StartBringsIff(w, t, failed, f, x);
    case FirstAnswered(c, answer, aborted) => FirstAnswerBringsNothing(w, c, answer, aborted, f, x);
    case LockGranted(g) => LockBringsIff(w, g, f, x);
    case LockRefused(_) =>
    case RefreshAnswered(_, _) =>
    case Settle(_) =>
    case _ => OtherStepsKeepFlights(w, step);
  }

  lemma OtherStepsKeepFlights(w: World, step: Step)
    requires Enabled(w, step)
    requires step.Write? || step.Deliver? || step.StartCall? || step.Resume? || step.RetryAnswered?
    ensures Apply(w, step).flights == w.flights
  {
  }

  lemma LockBringsIff(w: World, g: nat, f: nat, x: string)
    requires Enabled(w, LockGranted(g)) && x != ""
    ensures Brings(Apply(w, LockGranted(g)), f, x) <==> Brings(w, f, x) || Gives(w, LockGranted(g), f, x)
  {
  }

  /** A refused call that starts a refresh found no other token in its tab, so the refresh asks. */
  lemma FirstAnswerBringsNothing(w: World, c: nat, answer: ApiAnswer, aborted: bool, f: nat, x: string)
    requires Enabled(w, FirstAnswered(c, answer, aborted)) && x != ""
    ensures Brings(Apply(w, FirstAnswered(c, answer, aborted)), f, x) <==> Brings(w, f, x)
  {
    var call := w.calls[c];
    if answer.Error? && !aborted {
      StartBringsIff(OpenChannel(w, call.tab), call.tab, call.failed, f, x);
    }
  }

  /** Starting a refresh brings a token only if it runs at once and finds one. */
  lemma StartBringsIff(w: World, t: nat, failed: string, f: nat, x: string)
    requires t < |w.tabs| && x != ""
    ensures Brings(EnsureFlight(w, t, failed), f, x) <==>
              || Brings(w, f, x)
              || (&& !w.locks && w.tabs[t].slot.None? && f == |w.flights|
                  && w.tabs[t].session.snapshot.accessToken == x && failed != x)
  {
  }

  /** A refresh brings `x` if and only if one of those branches was taken for it. */
  lemma {:induction false} BringsIff(w: World, steps: seq<Step>, f: nat, x: string)
    requires Inv(w) && ValidRun(w, steps) && x != ""
    ensures Brings(Run(w, steps), f, x) <==> Brings(w, f, x) || GivenIn(w, steps, f, x)
    decreases |steps|
  {
    if steps != [] {
      StepBringsIff(w, steps[0], f, x);
      StepKeepsInv(w, steps[0]);
      BringsIff(Apply(w, steps[0]), steps[1..], f, x);
    }
  }

  /**
   A call sends at most two requests, the second with a token.  That token is the one
   that failed if and only if the call waited for a refresh that was given that very
   token: by the server, or by its tab because it was started for another.
   */
  lemma CallTheorem(w: World, steps: seq<Step>, c: nat)
    requires Initial(w) && ValidRun(w, steps) && c < |Run(w, steps).calls|
    ensures var v := Run(w, steps);
            var call := v.calls[c];
            && call.sent <= 2
            && (call.stage.Retrying? ==> call.sent == 2 && call.stage.token != "")
            && (call.stage.Retrying? ==>
                  (call.stage.token == call.failed
                   <==> call.failed != "" && call.joined.Some? && GivenIn(w, steps, call.joined.value, call.failed)))
            && (call.stage.Retrying? && call.stage.token == call.failed ==>
                  && call.joined.Some? && call.joined.value < |v.flights|
                  && var flight := v.flights[call.joined.value];
                     !flight.reused || flight.failed != call.failed)
  {
    InitialInv(w);
    RunKeepsInv(w, steps);
    var v := Run(w, steps);
    var call := v.calls[c];
    assert CallOk(v, call);
    if call.joined.Some? {
      assert FlightOk(v, v.flights[call.joined.value]);
      if call.failed != "" {
        BringsIff(w, steps, call.joined.value, call.failed);
      }
    }
  }

  /**
   The same before the retry: resumed and not aborted, a call goes on to send its failed
   token again exactly when the refresh it waited for was given that token.
   */
  lemma FailedTokenComesBackIff(w: World, steps: seq<Step>, c: nat)
    requires Initial(w) && ValidRun(w, steps) && Enabled(Run(w, steps), Resume(c, false))
    ensures var v := Run(w, steps);
            var call := v.calls[c];
            && c < |Apply(v, Resume(c, false)).calls|
            && (Apply(v, Resume(c, false)).calls[c].stage == Retrying(call.failed)
                <==> && call.sent > 0 && call.failed != ""
                     && call.joined.Some? && GivenIn(w, steps, call.joined.value, call.failed))
  {
    InitialInv(w);
    RunKeepsInv(w, steps);
    var v := Run(w, steps);
    var call := v.calls[c];
    assert CallOk(v, call);
    if call.joined.Some? && call.failed != "" {
      BringsIff(w, steps, call.joined.value, call.failed);
    }
  }

  // Revisions

  /** Steps that only start, carry or finish work leave sessions and the channel alone. */
  lemma OtherStepsKeepSessions(w: World, step: Step)
    requires Enabled(w, step)
    requires !step.Write? && !step.Deliver? && !step.RefreshAnswered?
    requires step.RetryAnswered? ==> step.answer.Ok? || !IsSessionTerminating(step.answer.error)
    ensures var v := Apply(w, step);
            && v.channel == w.channel && |v.tabs| == |w.tabs|
            && forall t | 0 <= t < |w.tabs| ::
                 v.tabs[t].session == w.tabs[t].session && (w.tabs[t].open ==> v.tabs[t].open)
  {
    if step.RetryAnswered? && step.answer.Error? {
      var t := w.calls[step.call].tab;
      assert Post(w.tabs, t, [], 0) == [];
    }
  }

  /** A step raises a tab's revision by one if it changed the tab's snapshot, and not otherwise. */
  lemma StepRevision(w: World, step: Step, t: nat)
    requires Enabled(w, step) && t < |w.tabs|
    ensures |Apply(w, step).tabs| == |w.tabs|
    ensures var x, y := w.tabs[t].session, Apply(w, step).tabs[t].session;
            y.revision == x.revision + if y.snapshot != x.snapshot then 1 else 0
  {
    if step.Write? || step.Deliver? || step.RefreshAnswered? {
    } else if step.RetryAnswered? && step.answer.Error? && IsSessionTerminating(step.answer.error) {
    } else {
      OtherStepsKeepSessions(w, step);
    }
  }

  /** The number of steps of a run that changed the snapshot of tab `t`. */
  function Changes(w: World, steps: seq<Step>, t: nat): nat
    requires ValidRun(w, steps) && t < |w.tabs|
    decreases |steps|
  {
    if steps == [] then 0
    else
      StepFrame(w, steps[0]);
      var v := Apply(w, steps[0]);
      (if v.tabs[t].session.snapshot != w.tabs[t].session.snapshot then 1 else 0) + Changes(v, steps[1..], t)
  }

  lemma {:induction false} RevisionCounts(w: World, steps: seq<Step>, t: nat)
    requires ValidRun(w, steps) && t < |w.tabs|
    ensures |Run(w, steps).tabs| == |w.tabs|
    ensures Run(w, steps).tabs[t].session.revision == w.tabs[t].session.revision + Changes(w, steps, t)
    ensures Changes(w, steps, t) == 0 ==> Run(w, steps).tabs[t].session == w.tabs[t].session
    decreases |steps|
  {
    if steps != [] {
      StepRevision(w, steps[0], t);
      RevisionCounts(Apply(w, steps[0]), steps[1..], t);
    }
  }

  /** Equal revisions at two points of a run: the session was the same at every point between, too. */
  lemma EqualRevisionsMeanUnchanged(w: World, before: seq<Step>, after: seq<Step>, t: nat)
    requires ValidRun(w, before) && ValidRun(Run(w, before), after) && t < |w.tabs|
    ensures |Run(w, before).tabs| == |Run(Run(w, before), after).tabs| == |w.tabs|
    ensures Run(Run(w, before), after).tabs[t].session.revision == w.tabs[t].session.revision ==>
              Run(w, before).tabs[t].session == w.tabs[t].session == Run(Run(w, before), after).tabs[t].session
  {
    RevisionCounts(w, before, t);
    RevisionCounts(Run(w, before), after, t);
  }

  /**
   A refresh that brings no token never erases a session written after it began,
   not even if the snapshot went back to what it was.
   */
  lemma NewerSessionIsKept(w: World, before: seq<Step>, after: seq<Step>, f: nat, reply: Answer)
    requires ValidRun(w, before) && ValidRun(Run(w, before), after)
    requires f < |w.flights| && w.flights[f].tab < |w.tabs|
    requires w.flights[f].stage == Requesting(w.tabs[w.flights[f].tab].session.revision)
    requires f < |Run(Run(w, before), after).flights| && Run(Run(w, before), after).flights[f].stage.Requesting?
    requires |Run(w, before).tabs| == |w.tabs|
    requires Run(w, before).tabs[w.flights[f].tab].session.snapshot != w.tabs[w.flights[f].tab].session.snapshot
    requires !Stores(reply)
    ensures var v, t := Run(Run(w, before), after), w.flights[f].tab;
            && Enabled(v, RefreshAnswered(f, reply))
            && |v.tabs| == |w.tabs| == |Apply(v, RefreshAnswered(f, reply)).tabs|
            && Apply(v, RefreshAnswered(f, reply)).tabs[t].session == v.tabs[t].session
  {
    var t := w.flights[f].tab;
    var m := Run(w, before);
    var v := Run(m, after);
    SameRequest(w, before, f);
    SameRequest(m, after, f);
    RunAppend(w, before, after);
    SameRequest(w, before + after, f);
    EqualRevisionsMeanUnchanged(w, before, after, t);
    assert v.tabs[t].session.revision != w.tabs[t].session.revision;
  }

  // No refresh is stuck

  function Weight(flight: Flight): nat {
    match flight.stage
    case WaitingLock => 3
    case Requesting(_) => 2
    case Settled(_) => 1
    case Done(_) => 0
  }

  function Pending(flights: seq<Flight>): nat {
    if flights == [] then 0 else Weight(flights[0]) + Pending(flights[1..])
  }

  lemma {:induction false} PendingUpdate(flights: seq<Flight>, f: nat, flight: Flight)
    requires f < |flights|
    ensures Pending(flights[f := flight]) == Pending(flights) - Weight(flights[f]) + Weight(flight)
  {
    if f > 0 {
      PendingUpdate(flights[1..], f - 1, flight);
      assert flights[f := flight][1..] == flights[1..][f - 1 := flight];
    } else {
      assert flights[f := flight][1..] == flights[1..];
    }
  }

  /** The steps that carry refreshes on: the lock scheduler, the server, the event loop. */
  predicate Internal(step: Step) {
    step.LockGranted? || step.LockRefused? || step.RefreshAnswered? || step.Settle?
  }

  /** While any refresh is unfinished one of those steps can happen, whatever the server answers. */
  lemma SomethingCanHappen(w: World, f: nat, reply: Answer) returns (step: Step)
    requires Inv(w) && f < |w.flights| && !w.flights[f].stage.Done?
    ensures Internal(step) && Enabled(w, step)
  {
    assert FlightOk(w, w.flights[f]);
    match w.flights[f].stage
    case Settled(_) => step := Settle(f);
    case Requesting(_) => step := RefreshAnswered(f, reply);
    case WaitingLock =>
      if w.holder.None? {
        step := LockGranted(f);
      } else {
        assert FlightOk(w, w.flights[w.holder.value]);
        step := RefreshAnswered(w.holder.value, reply);
      }
  }

  lemma InternalStepsProgress(w: World, step: Step)
    requires Enabled(w, step) && Internal(step)
    ensures Pending(Apply(w, step).flights) < Pending(w.flights)
    ensures |Apply(w, step).flights| == |w.flights|
  {
    var f := step.flight;
    PendingUpdate(w.flights, f, Apply(w, step).flights[f]);
    assert Apply(w, step).flights == w.flights[f := Apply(w, step).flights[f]];
  }

  /**
   So there is a bound on them, and whenever none of them can happen any more, every
   refresh is done: as long as one is not, `SomethingCanHappen` names the next step.
   */
  lemma {:induction false} RefreshesSettle(w: World, steps: seq<Step>)
    requires Inv(w) && ValidRun(w, steps) && forall i | 0 <= i < |steps| :: Internal(steps[i])
    ensures |steps| <= Pending(w.flights)
    ensures |Run(w, steps).flights| == |w.flights|
    ensures (forall step | Internal(step) :: !Enabled(Run(w, steps), step)) <==>
              forall f | 0 <= f < |Run(w, steps).flights| :: Run(w, steps).flights[f].stage.Done?
    decreases |steps|
  {
    if steps == [] {
      QuietIffDone(w);
    } else {
      InternalStepsProgress(w, steps[0]);
      StepKeepsInv(w, steps[0]);
      assert forall i | 0 <= i < |steps[1..]| :: steps[1..][i] == steps[i + 1];
      RefreshesSettle(Apply(w, steps[0]), steps[1..]);
    }
  }

  lemma QuietIffDone(w: World)
    requires Inv(w)
    ensures (forall step | Internal(step) :: !Enabled(w, step)) <==>
              forall f | 0 <= f < |w.flights| :: w.flights[f].stage.Done?
  {
    forall f: nat | f < |w.flights| && !w.flights[f].stage.Done?
      ensures exists step :: Internal(step) && Enabled(w, step)
    {
      var step := SomethingCanHappen(w, f, Unreachable);
    }
  }

  // Broadcasts

  /** A post never comes back to its sender, and reaches every other listening tab once. */
  lemma {:induction false} PostNeverEchoes(tabs: seq<Tab>, from: nat, snapshots: seq<Snapshot>, to: nat)
    requires to <= |tabs|
    ensures forall i | 0 <= i < |Post(tabs, from, snapshots, to)| ::
              var m := Post(tabs, from, snapshots, to)[i];
              m.from == from && to <= m.to < |tabs| && m.to != from && tabs[m.to].open
              && snapshots != [] && m.snapshot == snapshots[0]
    decreases |tabs| - to
  {
    if to < |tabs| && snapshots != [] {
      var rest := Post(tabs, from, snapshots, to + 1);
      var head: seq<Message> := if to != from && tabs[to].open then [Message(from, to, snapshots[0])] else [];
      PostNeverEchoes(tabs, from, snapshots, to + 1);
      assert Post(tabs, from, snapshots, to) == head + rest;
      forall i | 0 <= i < |head + rest|
        ensures var m: Message := (head + rest)[i];
                m.from == from && to <= m.to < |tabs| && m.to != from && tabs[m.to].open && m.snapshot == snapshots[0]
      {
        assert (head + rest)[i] == if i < |head| then head[i] else rest[i - |head|];
      }
    } else {
      assert Post(tabs, from, snapshots, to) == [];
    }
  }

  /** Delivering removes the message and posts nothing, so the channel drains. */
  lemma DeliveryDrains(w: World, i: nat)
    requires Enabled(w, Deliver(i))
    ensures Apply(w, Deliver(i)).channel == Without(w.channel, i)
    ensures |Apply(w, Deliver(i)).channel| == |w.channel| - 1
  {
    assert Post(w.tabs, w.channel[i].to, [], 0) == [];
  }

  lemma {:induction false} DrainingRun(w: World, steps: seq<Step>)
    requires ValidRun(w, steps) && forall i | 0 <= i < |steps| :: steps[i].Deliver?
    ensures |Run(w, steps).channel| == |w.channel| - |steps|
    decreases |steps|
  {
    if steps != [] {
      DeliveryDrains(w, steps[0].index);
      assert forall i | 0 <= i < |steps[1..]| :: steps[1..][i] == steps[i + 1];
      DrainingRun(Apply(w, steps[0]), steps[1..]);
    }
  }

  // One writer

  /** Only tab `a` changes its own session, and it announces each change. */
  predicate OnlyWriter(w: World, step: Step, a: nat)
    requires Enabled(w, step)
  {
    match step
    case Write(t, next, syncPeers) =>
      var s := w.tabs[t].session;
      (t == a && syncPeers) || Written(s, next) == s
    case RefreshAnswered(f, reply) =>
      var s := w.tabs[w.flights[f].tab].session;
      (w.flights[f].tab == a && Stores(reply)) || AfterAnswer(s, w.flights[f].stage.startedRevision, reply) == s
    case RetryAnswered(c, answer) =>
      var s := w.tabs[w.calls[c].tab].session;
      answer.Ok? || AfterRetry(s, answer.error) == s
    case _ => true
  }

  predicate OnlyWriterRun(w: World, steps: seq<Step>, a: nat)
    requires ValidRun(w, steps)
    decreases |steps|
  {
    steps == [] || (OnlyWriter(w, steps[0], a) && OnlyWriterRun(Apply(w, steps[0]), steps[1..], a))
  }

  /** What tab `t` will hold once its messages have arrived. */
  function Eventually(channel: seq<Message>, t: nat, now: Snapshot): Snapshot {
    if channel == [] then now
    else Eventually(channel[1..], t, if channel[0].to == t then channel[0].snapshot else now)
  }

  /** Everyone is on the way to what `a` holds. */
  ghost predicate Converging(w: World, a: nat) {
    && a < |w.tabs|
    && (forall i | 0 <= i < |w.channel| ::
          w.channel[i].from == a && w.channel[i].to < |w.tabs| && w.channel[i].to != a)
    && (forall t | 0 <= t < |w.tabs| ::
          && w.tabs[t].open
          && Eventually(w.channel, t, w.tabs[t].session.snapshot) == w.tabs[a].session.snapshot)
  }

  lemma {:induction false} EventuallyAppend(x: seq<Message>, y: seq<Message>, t: nat, now: Snapshot)
    ensures Eventually(x + y, t, now) == Eventually(y, t, Eventually(x, t, now))
    decreases |x|
  {
    if x == [] {
      assert x + y == y;
    } else {
      assert (x + y)[1..] == x[1..] + y;
      EventuallyAppend(x[1..], y, t, if x[0].to == t then x[0].snapshot else now);
    }
  }

  lemma {:induction false} EventuallyNothing(channel: seq<Message>, t: nat, now: Snapshot)
    requires forall i | 0 <= i < |channel| :: channel[i].to != t
    ensures Eventually(channel, t, now) == now
    decreases |channel|
  {
    if channel != [] {
      EventuallyNothing(channel[1..], t, now);
    }
  }

  lemma {:induction false} EventuallyPosted(tabs: seq<Tab>, from: nat, snapshot: Snapshot, to: nat, t: nat, now: Snapshot)
    requires to <= |tabs| && t < |tabs| && tabs[t].open && t != from
    ensures Eventually(Post(tabs, from, [snapshot], to), t, now) == if to <= t then snapshot else now
    decreases |tabs| - to
  {
    if to < |tabs| {
      var rest := Post(tabs, from, [snapshot], to + 1);
      if to == t {
        assert Post(tabs, from, [snapshot], to)[1..] == rest;
        PostNeverEchoes(tabs, from, [snapshot], to + 1);
        EventuallyNothing(rest, t, snapshot);
      } else {
        EventuallyPosted(tabs, from, snapshot, to + 1, t, now);
        var head := if to != from && tabs[to].open then [Message(from, to, snapshot)] else [];
        assert Post(tabs, from, [snapshot], to) == head + rest;
        EventuallyAppend(head, rest, t, now);
        EventuallyNothing(head, t, now);
      }
    }
  }

  /** Taking out the first message to `t` and applying it does not change what `t` ends with. */
  lemma EventuallyDelivered(channel: seq<Message>, i: nat, t: nat, now: Snapshot)
    requires i < |channel| && forall j | 0 <= j < i :: channel[j].to != channel[i].to
    ensures Eventually(Without(channel, i), t, if channel[i].to == t then channel[i].snapshot else now)
            == Eventually(channel, t, now)
  {
    var m := channel[i];
    var front, back := channel[..i], channel[i + 1..];
    var next := if m.to == t then m.snapshot else now;
    assert channel == front + ([m] + back);
    EventuallyAppend(front, [m] + back, t, now);
    EventuallyAppend(front, back, t, next);
    assert ([m] + back)[1..] == back;
    if m.to == t {
      EventuallyNothing(front, t, now);
      EventuallyNothing(front, t, next);
    }
  }

  lemma AnnouncedWriteConverges(w: World, a: nat, session: SessionState)
    requires Converging(w, a)
    ensures var posts := if session.snapshot != w.tabs[a].session.snapshot then [session.snapshot] else [];
            Converging(WriteSession(w, a, session, posts), a)
  {
    var posts := if session.snapshot != w.tabs[a].session.snapshot then [session.snapshot] else [];
    var posted := Post(w.tabs, a, posts, 0);
    var v := WriteSession(w, a, session, posts);
    PostNeverEchoes(w.tabs, a, posts, 0);
    forall t | 0 <= t < |v.tabs|
      ensures v.tabs[t].open
      ensures Eventually(v.channel, t, v.tabs[t].session.snapshot) == session.snapshot
    {
      EventuallyAppend(w.channel, posted, t, v.tabs[t].session.snapshot);
      if t == a {
        EventuallyNothing(w.channel, t, session.snapshot);
        EventuallyNothing(posted, t, session.snapshot);
      } else if posts != [] {
        EventuallyPosted(w.tabs, a, session.snapshot, 0, t, w.tabs[a].session.snapshot);
      }
    }
  }

  lemma DeliveryConverges(w: World, a: nat, i: nat)
    requires Converging(w, a) && Enabled(w, Deliver(i))
    ensures Converging(Apply(w, Deliver(i)), a)
  {
    var m := w.channel[i];
    var v := Apply(w, Deliver(i));
    DeliveryDrains(w, i);
    forall t | 0 <= t < |v.tabs|
      ensures v.tabs[t].open
      ensures Eventually(v.channel, t, v.tabs[t].session.snapshot) == w.tabs[a].session.snapshot
    {
      EventuallyDelivered(w.channel, i, t, w.tabs[t].session.snapshot);
    }
  }

  /** Writing what is there already posts nothing, not even a refreshed token. */
  lemma NoChangeNoPost(s: SessionState, next: Partial, syncPeers: bool)
    requires Written(s, next) == s
    ensures Posted(s, next, syncPeers) == []
  {
  }

  lemma UnchangedConverges(w: World, a: nat, t: nat)
    requires Converging(w, a) && t < |w.tabs|
    ensures Converging(WriteSession(w, t, w.tabs[t].session, []), a)
  {
    assert Post(w.tabs, t, [], 0) == [];
    assert w.channel + [] == w.channel;
  }

  lemma AnswerConverges(w: World, f: nat, reply: Answer, a: nat)
    requires Converging(w, a) && Enabled(w, RefreshAnswered(f, reply)) && OnlyWriter(w, RefreshAnswered(f, reply), a)
    ensures Converging(Apply(w, RefreshAnswered(f, reply)), a)
  {
    var t := w.flights[f].tab;
    var s := w.tabs[t].session;
    var after := AfterAnswer(s, w.flights[f].stage.startedRevision, reply);
    if after == s {
      if Stores(reply) {
        NoChangeNoPost(s, AnswerWrite(reply), true);
      }
      UnchangedConverges(w, a, t);
    } else {
      AnnouncedWriteConverges(w, a, after);
    }
  }

  lemma StepConverges(w: World, step: Step, a: nat)
    requires Converging(w, a) && Enabled(w, step) && OnlyWriter(w, step, a)
    ensures Converging(Apply(w, step), a)
  {
    match step
    case Write(t, next, syncPeers) =>
      if Written(w.tabs[t].session, next) == w.tabs[t].session {
        NoChangeNoPost(w.tabs[t].session, next, syncPeers);
        UnchangedConverges(w, a, t);
      } else {
        AnnouncedWriteConverges(w, a, Written(w.tabs[a].session, next));
      }
    case RefreshAnswered(f, reply) =>
      AnswerConverges(w, f, reply, a);
    case RetryAnswered(c, answer) =>
      if answer.Error? {
        UnchangedConverges(w, a, w.calls[c].tab);
      }
    case Deliver(i) =>
      DeliveryConverges(w, a, i);
    case _ =>
      OtherStepsKeepSessions(w, step);
  }

  /** With one announcing writer and equal starts, an empty channel means every tab holds the writer's session. */
  lemma {:induction false} OneWriterConverges(w: World, steps: seq<Step>, a: nat)
    requires Converging(w, a) && ValidRun(w, steps) && OnlyWriterRun(w, steps, a)
    ensures Converging(Run(w, steps), a)
    ensures Run(w, steps).channel == [] ==>
              forall t | 0 <= t < |Run(w, steps).tabs| ::
                Run(w, steps).tabs[t].session.snapshot == Run(w, steps).tabs[a].session.snapshot
    decreases |steps|
  {
    if steps != [] {
      StepConverges(w, steps[0], a);
      OneWriterConverges(Apply(w, steps[0]), steps[1..], a);
    }
  }

  lemma EqualStartsConverge(w: World, a: nat)
    requires Initial(w) && a < |w.tabs|
    requires forall t | 0 <= t < |w.tabs| ::
               w.tabs[t].open && w.tabs[t].session.snapshot == w.tabs[a].session.snapshot
    ensures Converging(w, a)
  {
  }

  // Any writers: exactly when the tabs agree after the channel has drained

  predicate SamePair(m: Message, n: Message) {
    m.from == n.from && m.to == n.to
  }

  /** The message nothing later from its sender to its receiver will overtake. */
  ghost predicate LastOfPair(channel: seq<Message>, i: nat) {
    i < |channel| && forall j | i < j < |channel| :: !SamePair(channel[j], channel[i])
  }

  /** Every sender's last word to every tab is `v`, and so is the session of a tab nobody writes to. */
  ghost predicate Agreed(w: World, v: Snapshot) {
    && (forall i: nat | LastOfPair(w.channel, i) :: w.channel[i].snapshot == v)
    && (forall t | 0 <= t < |w.tabs| ::
          (forall i | 0 <= i < |w.channel| :: w.channel[i].to != t) ==> w.tabs[t].session.snapshot == v)
  }

  predicate ChannelOk(w: World) {
    forall i | 0 <= i < |w.channel| :: w.channel[i].to < |w.tabs|
  }

  predicate Delivers(steps: seq<Step>) {
    forall i | 0 <= i < |steps| :: steps[i].Deliver?
  }

  /** Taking out the next message of its pair leaves the last words of the pairs as they were. */
  lemma LastOfPairWithout(c: seq<Message>, i: nat, j: nat)
    requires Next(c, i) && LastOfPair(Without(c, i), j)
    ensures var k := if j < i then j else j + 1;
            LastOfPair(c, k) && c[k] == Without(c, i)[j]
  {
    var d := Without(c, i);
    var k := if j < i then j else j + 1;
    assert d[j] == c[k];
    forall l | k < l < |c|
      ensures !SamePair(c[l], c[k])
    {
      if l != i {
        assert c[l] == d[if l < i then l else l - 1];
      }
    }
  }

  /** If nothing is left for the receiver, the message was the last word of its pair. */
  lemma LastForReceiver(c: seq<Message>, i: nat, t: nat)
    requires i < |c|
    requires forall j | 0 <= j < |Without(c, i)| :: Without(c, i)[j].to != t
    ensures forall l | 0 <= l < |c| && l != i :: c[l].to != t
    ensures c[i].to == t ==> LastOfPair(c, i)
  {
    forall l | 0 <= l < |c| && l != i
      ensures c[l].to != t
    {
      assert c[l] == Without(c, i)[if l < i then l else l - 1];
    }
  }

  /** What a delivery does to the tabs. */
  lemma Delivered(w: World, i: nat)
    requires Enabled(w, Deliver(i))
    ensures |Apply(w, Deliver(i)).tabs| == |w.tabs|
    ensures forall t | 0 <= t < |w.tabs| ::
              Apply(w, Deliver(i)).tabs[t].session.snapshot
              == if w.channel[i].to == t then w.channel[i].snapshot else w.tabs[t].session.snapshot
  {
  }

  lemma DeliveryKeepsAgreed(w: World, v: Snapshot, i: nat)
    requires Agreed(w, v) && ChannelOk(w) && Enabled(w, Deliver(i))
    ensures Agreed(Apply(w, Deliver(i)), v) && ChannelOk(Apply(w, Deliver(i)))
  {
    DeliveryDrains(w, i);
    Delivered(w, i);
    AgreedWithout(w, v, i, Apply(w, Deliver(i)));
  }

  lemma AgreedWithout(w: World, v: Snapshot, i: nat, x: World)
    requires Agreed(w, v) && ChannelOk(w) && Next(w.channel, i)
    requires x.channel == Without(w.channel, i) && |x.tabs| == |w.tabs|
    requires forall t | 0 <= t < |w.tabs| ::
               x.tabs[t].session.snapshot
               == if w.channel[i].to == t then w.channel[i].snapshot else w.tabs[t].session.snapshot
    ensures Agreed(x, v) && ChannelOk(x)
  {
    forall j: nat | LastOfPair(x.channel, j)
      ensures x.channel[j].snapshot == v
    {
      LastOfPairWithout(w.channel, i, j);
    }
    forall t: nat | t < |x.tabs| && (forall j | 0 <= j < |x.channel| :: x.channel[j].to != t)
      ensures x.tabs[t].session.snapshot == v
    {
      LastForReceiver(w.channel, i, t);
    }
  }

  lemma {:induction false} AgreedTabsAgree(w: World, v: Snapshot, steps: seq<Step>)
    requires Agreed(w, v) && ChannelOk(w)
    requires Delivers(steps) && ValidRun(w, steps) && Run(w, steps).channel == []
    ensures forall t | 0 <= t < |Run(w, steps).tabs| :: Run(w, steps).tabs[t].session.snapshot == v
    decreases |steps|
  {
    if steps != [] {
      DeliveryKeepsAgreed(w, v, steps[0].index);
      assert forall i | 0 <= i < |steps[1..]| :: steps[1..][i] == steps[i + 1];
      AgreedTabsAgree(Apply(w, steps[0]), v, steps[1..]);
    }
  }

  lemma {:induction false} DrainAll(w: World, t: nat) returns (steps: seq<Step>)
    requires ChannelOk(w) && t < |w.tabs| && forall i | 0 <= i < |w.channel| :: w.channel[i].to != t
    ensures Delivers(steps) && ValidRun(w, steps) && Run(w, steps).channel == []
    ensures |Run(w, steps).tabs| == |w.tabs| && Run(w, steps).tabs[t] == w.tabs[t]
    decreases |w.channel|
  {
    if w.channel == [] {
      steps := [];
    } else {
      var v := Apply(w, Deliver(0));
      DeliveryDrains(w, 0);
      var rest := DrainAll(v, t);
      RunCons(w, Deliver(0), v, rest);
      steps := [Deliver(0)] + rest;
    }
  }

  /** Another message can be delivered first. */
  lemma OtherDelivered(c: seq<Message>, i: nat)
    requires LastOfPair(c, i) && |c| > 1
    ensures var k, j := if i == 0 then 1 else 0, if i == 0 then 0 else i - 1;
            Next(c, k) && LastOfPair(Without(c, k), j) && Without(c, k)[j] == c[i]
  {
    assert i == 0 ==> !SamePair(c[1], c[0]);
    var k, j := if i == 0 then 1 else 0, if i == 0 then 0 else i - 1;
    assert forall l | j < l < |Without(c, k)| :: Without(c, k)[l] == c[l + 1];
  }

  /** The last message of a pair can be made the very last to arrive. */
  lemma {:induction false} DrainLast(w: World, i: nat) returns (steps: seq<Step>)
    requires ChannelOk(w) && LastOfPair(w.channel, i)
    ensures Delivers(steps) && ValidRun(w, steps) && Run(w, steps).channel == []
    ensures |Run(w, steps).tabs| == |w.tabs|
    ensures Run(w, steps).tabs[w.channel[i].to].session.snapshot == w.channel[i].snapshot
    decreases |w.channel|
  {
    if |w.channel| == 1 {
      DeliveryDrains(w, 0);
      steps := [Deliver(0)];
      RunCons(w, Deliver(0), Apply(w, Deliver(0)), []);
    } else {
      var k := if i == 0 then 1 else 0;
      var j := if i == 0 then 0 else i - 1;
      OtherDelivered(w.channel, i);
      var v := Apply(w, Deliver(k));
      DeliveryDrains(w, k);
      var rest := DrainLast(v, j);
      RunCons(w, Deliver(k), v, rest);
      steps := [Deliver(k)] + rest;
    }
  }

  /** Unless that holds, some order of delivery leaves some tab with another session. */
  lemma DisagreementIsPossible(w: World, v: Snapshot) returns (steps: seq<Step>, t: nat)
    requires ChannelOk(w) && !Agreed(w, v)
    ensures Delivers(steps) && ValidRun(w, steps) && Run(w, steps).channel == []
    ensures t < |Run(w, steps).tabs| && Run(w, steps).tabs[t].session.snapshot != v
  {
    if exists i: nat :: LastOfPair(w.channel, i) && w.channel[i].snapshot != v {
      var i: nat :| LastOfPair(w.channel, i) && w.channel[i].snapshot != v;
      steps := DrainLast(w, i);
      t := w.channel[i].to;
    } else {
      t :| 0 <= t < |w.tabs| && (forall i | 0 <= i < |w.channel| :: w.channel[i].to != t)
           && w.tabs[t].session.snapshot != v;
      steps := DrainAll(w, t);
    }
  }

  // What the protocol does not promise

  function OneWorld(locks: bool, sessions: seq<Snapshot>): World {
    World(locks, seq(|sessions|, i requires 0 <= i < |sessions| => Tab(SessionState(sessions[i], 0), true, None)),
          [], None, [], [])
  }

  /**
   Without locks any two tabs that start a refresh for the token they hold ask at the
   same time, from every start: the lock in `OneRefreshAtATime` is needed.
   */
  lemma WithoutLocksTwoTabsAsk(w: World, t: nat, u: nat)
    requires Initial(w) && !w.locks && t < |w.tabs| && u < |w.tabs| && t != u
    ensures var steps := [StartRefresh(t, w.tabs[t].session.snapshot.accessToken)]
                         + [StartRefresh(u, w.tabs[u].session.snapshot.accessToken)];
            && ValidRun(w, steps)
            && var v := Run(w, steps);
               |v.flights| == 2 && v.flights[0].stage.Requesting? && v.flights[1].stage.Requesting?
               && v.flights[0].tab == t && v.flights[1].tab == u
  {
    var s0 := StartRefresh(t, w.tabs[t].session.snapshot.accessToken);
    var s1 := StartRefresh(u, w.tabs[u].session.snapshot.accessToken);
    var w1 := Apply(w, s0);
    var w2 := Apply(w1, s1);
    RunCons(w1, s1, w2, []);
    RunCons(w, s0, w1, [s1]);
    assert [s1] + [] == [s1];
  }

  lemma PostToOther(tabs: seq<Tab>, from: nat, snapshot: Snapshot)
    requires |tabs| == 2 && from < 2 && tabs[1 - from].open
    ensures Post(tabs, from, [snapshot], 0) == [Message(from, 1 - from, snapshot)]
  {
    assert Post(tabs, from, [snapshot], 2) == [];
    assert Post(tabs, from, [snapshot], 1) == if from == 1 then [] else [Message(0, 1, snapshot)];
  }

  /** Two tabs that write at once can end with each other's session. */
  lemma TwoWritersCanSwap(x: Snapshot, y: Snapshot) returns (w: World, steps: seq<Step>)
    requires x != NO_SESSION && y != NO_SESSION && x != y
    ensures Initial(w) && ValidRun(w, steps)
    ensures var v := Run(w, steps);
            && v.channel == [] && |v.tabs| == 2
            && v.tabs[0].session.snapshot == y && v.tabs[1].session.snapshot == x
  {
    w := OneWorld(true, [NO_SESSION, NO_SESSION]);
    var s0, s1 := Write(0, Whole(x), true), Write(1, Whole(y), true);
    FirstWrite(x);
    SecondWrite(x, y);
    BothDelivered(x, y);
    RunCons(FirstWritten(x), s1, BothWritten(x, y), [Deliver(0)] + [Deliver(0)]);
    RunCons(w, s0, FirstWritten(x), [s1] + ([Deliver(0)] + [Deliver(0)]));
    steps := [s0] + ([s1] + ([Deliver(0)] + [Deliver(0)]));
  }

  lemma FirstWrite(x: Snapshot)
    requires x != NO_SESSION
    ensures Apply(OneWorld(true, [NO_SESSION, NO_SESSION]), Write(0, Whole(x), true)) == FirstWritten(x)
  {
    PostToOther(OneWorld(true, [NO_SESSION, NO_SESSION]).tabs, 0, x);
  }

  lemma SecondWrite(x: Snapshot, y: Snapshot)
    requires y != NO_SESSION
    ensures Apply(FirstWritten(x), Write(1, Whole(y), true)) == BothWritten(x, y)
  {
    PostToOther(FirstWritten(x).tabs, 1, y);
  }

  function FirstWritten(x: Snapshot): World {
    World(true, [Tab(SessionState(x, 1), true, None), Tab(SessionState(NO_SESSION, 0), true, None)],
          [], None, [], [Message(0, 1, x)])
  }

  function BothWritten(x: Snapshot, y: Snapshot): World {
    World(true, [Tab(SessionState(x, 1), true, None), Tab(SessionState(y, 1), true, None)],
          [], None, [], [Message(0, 1, x), Message(1, 0, y)])
  }

  lemma BothDelivered(x: Snapshot, y: Snapshot)
    requires x != y
    ensures var w, steps := BothWritten(x, y), [Deliver(0)] + [Deliver(0)];
            ValidRun(w, steps)
            && var v := Run(w, steps);
               v.channel == [] && |v.tabs| == 2
               && v.tabs[0].session.snapshot == y && v.tabs[1].session.snapshot == x
  {
    var w2 := BothWritten(x, y);
    DeliveryDrains(w2, 0);
    var w3 := Apply(w2, Deliver(0));
    assert w3.channel == [Message(1, 0, y)];
    DeliveryDrains(w3, 0);
    var w4 := Apply(w3, Deliver(0));
    RunCons(w3, Deliver(0), w4, []);
    RunCons(w2, Deliver(0), w3, [Deliver(0)]);
  }

  const UNAUTHORIZED := Refused(401, "")

  lemma PostAlone(tabs: seq<Tab>, snapshots: seq<Snapshot>)
    requires |tabs| == 1
    ensures Post(tabs, 0, snapshots, 0) == []
  {
    assert Post(tabs, 0, snapshots, 1) == [];
  }

  /** One tab waits for the lock with a refresh for no token; the call for "old" has joined it. */
  function JoinedTooEarly(): World {
    World(true, [Tab(SessionState(Snapshot("old", "s"), 1), true, Some(0))],
          [Flight(0, "", false, WaitingLock)], None,
          [Call(0, "", Some(0), 0, None, None, Waiting(Unreachable)), Call(0, "old", Some(0), 1, Some(UNAUTHORIZED), None, Waiting(UNAUTHORIZED))], [])
  }

  lemma JoiningTooEarly() returns (steps: seq<Step>)
    ensures var w := OneWorld(true, [NO_SESSION]);
            Initial(w) && ValidRun(w, steps) && Run(w, steps) == JoinedTooEarly()
  {
    var w := OneWorld(true, [NO_SESSION]);
    var s0, s1 := StartRefresh(0, ""), Write(0, Whole(Snapshot("old", "s")), true);
    var s2, s3 := StartCall(0, "old"), FirstAnswered(1, Error(UNAUTHORIZED), false);
    var w1 := Apply(w, s0);
    PostAlone(w1.tabs, Posted(w1.tabs[0].session, Whole(Snapshot("old", "s")), true));
    var w2 := Apply(w1, s1);
    var w3 := Apply(w2, s2);
    assert w3.calls[1] == Call(0, "old", None, 1, None, None, Sending);
    RunCons(w3, s3, JoinedTooEarly(), []);
    RunCons(w2, s2, w3, [s3]);
    RunCons(w1, s1, w2, [s2] + [s3]);
    RunCons(w, s0, w1, [s1] + ([s2] + [s3]));
    steps := [s0] + ([s1] + ([s2] + [s3]));
  }

  /**
   A call that joined a refresh started for no token at all can be handed back the
   token that just failed: the exception in `CallTheorem` happens.
   */
  lemma FailedTokenCanComeBack() returns (w: World, steps: seq<Step>)
    ensures Initial(w) && ValidRun(w, steps)
    ensures var v := Run(w, steps);
            |v.calls| == 2 && v.calls[1].stage == Retrying("old") && v.calls[1].failed == "old"
  {
    w := OneWorld(true, [NO_SESSION]);
    var first := JoiningTooEarly();
    var w4 := JoinedTooEarly();
    var w5 := Apply(w4, LockGranted(0));
    assert w5.flights == [Flight(0, "", true, Settled(Token("old")))];
    var w6 := Apply(w5, Settle(0));
    var w7 := Apply(w6, Resume(1, false));
    RunCons(w6, Resume(1, false), w7, []);
    RunCons(w5, Settle(0), w6, [Resume(1, false)]);
    RunCons(w4, LockGranted(0), w5, [Settle(0)] + [Resume(1, false)]);
    var rest := [LockGranted(0)] + ([Settle(0)] + [Resume(1, false)]);
    RunAppend(w, first, rest);
    steps := first + rest;
  }

  /** A failed retry erases the session exactly when the error ends sessions, whoever wrote it and when. */
  lemma RetryErasesIff(w: World, c: nat, error: Answer)
    requires Enabled(w, RetryAnswered(c, Error(error)))
    ensures var t, v := w.calls[c].tab, Apply(w, RetryAnswered(c, Error(error)));
            && |v.tabs| == |w.tabs|
            && (v.tabs[t].session != w.tabs[t].session
                <==> IsSessionTerminating(error) && w.tabs[t].session.snapshot != NO_SESSION)
            && (v.tabs[t].session != w.tabs[t].session ==> v.tabs[t].session.snapshot == NO_SESSION)
  {
  }

  /** So a retry sent before a new login can erase the new login. */
  lemma RetryCanEraseNewLogin(login: Snapshot) returns (w: World, before: seq<Step>, after: seq<Step>)
    requires login != NO_SESSION
    ensures Initial(w) && ValidRun(w, before) && ValidRun(Run(w, before), after)
    ensures |after| == 2 && after[0] == Write(0, Whole(login), true)
    ensures |Run(w, before).calls| == 1 && Run(w, before).calls[0].stage.Retrying?
    ensures var v := Run(Run(w, before), after);
            |v.tabs| == 1 && v.tabs[0].session.snapshot == NO_SESSION
  {
    w := OneWorld(false, [Snapshot("old", "s")]);
    before := RetryingFresh();
    var w5 := FreshRetry();
    var s5, s6 := Write(0, Whole(login), true), RetryAnswered(0, Error(Refused(401, "auth.session_invalid")));
    var w6 := Apply(w5, s5);
    assert w6.tabs[0].session.snapshot == login && w6.calls == w5.calls;
    var w7 := Apply(w6, s6);
    RetryErasesIff(w6, 0, Refused(401, "auth.session_invalid"));
    RunCons(w6, s6, w7, []);
    RunCons(w5, s5, w6, [s6]);
    after := [s5] + [s6];
  }

  /** One tab whose call, refused once, is retrying with the refreshed token. */
  function FreshRetry(): World {
    World(false, [Tab(SessionState(Snapshot("fresh", "s"), 1), true, None)],
          [Flight(0, "old", false, Done(Token("fresh")))], None,
          [Call(0, "old", Some(0), 2, Some(UNAUTHORIZED), Some(Token("fresh")), Retrying("fresh"))], [])
  }

  lemma RetryingFresh() returns (steps: seq<Step>)
    ensures var w := OneWorld(false, [Snapshot("old", "s")]);
            Initial(w) && ValidRun(w, steps) && Run(w, steps) == FreshRetry()
  {
    var w := OneWorld(false, [Snapshot("old", "s")]);
    var first, asked := AskingAgain();
    var s2 := RefreshAnswered(0, Tokens("fresh", None));
    PostAlone(asked.tabs, AnswerPosts(asked.tabs[0].session, Tokens("fresh", None)));
    var last := RetryAfterAnswer();
    RunCons(asked, s2, FreshAnswer(), last);
    RunAppend(w, first, [s2] + last);
    steps := first + ([s2] + last);
  }

  function FreshAnswer(): World {
    World(false, [Tab(SessionState(Snapshot("fresh", "s"), 1), true, Some(0))],
          [Flight(0, "old", false, Settled(Token("fresh")))], None,
          [Call(0, "old", Some(0), 1, Some(UNAUTHORIZED), None, Waiting(UNAUTHORIZED))], [])
  }

  lemma RetryAfterAnswer() returns (steps: seq<Step>)
    ensures ValidRun(FreshAnswer(), steps) && Run(FreshAnswer(), steps) == FreshRetry()
  {
    var w3 := FreshAnswer();
    var w4 := Apply(w3, Settle(0));
    RunCons(w4, Resume(0, false), FreshRetry(), []);
    RunCons(w3, Settle(0), w4, [Resume(0, false)]);
    steps := [Settle(0)] + [Resume(0, false)];
  }

  lemma AskingAgain() returns (steps: seq<Step>, asked: World)
    ensures var w := OneWorld(false, [Snapshot("old", "s")]);
            ValidRun(w, steps) && Run(w, steps) == asked
    ensures asked == World(false, [Tab(SessionState(Snapshot("old", "s"), 0), true, Some(0))],
                           [Flight(0, "old", false, Requesting(0))], None,
                           [Call(0, "old", Some(0), 1, Some(UNAUTHORIZED), None, Waiting(UNAUTHORIZED))], [])
  {
    var w := OneWorld(false, [Snapshot("old", "s")]);
    var s0, s1 := StartCall(0, "old"), FirstAnswered(0, Error(UNAUTHORIZED), false);
    var w1 := Apply(w, s0);
    assert w1.calls == [Call(0, "old", None, 1, None, None, Sending)];
    asked := Apply(w1, s1);
    RunCons(w1, s1, asked, []);
    RunCons(w, s0, w1, [s1]);
    steps := [s0] + [s1];
  }
}
