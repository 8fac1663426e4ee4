/**
 Many tabs of one origin sharing a login: each tab has its own session, its own
 single-flight slot and its own API calls; all tabs share one exclusive lock and a
 broadcast channel (frontend/shared/api/authed-client.ts and
 frontend/shared/auth/session.ts).

 A step is one segment between awaits.  Servers, other code that writes the
 session, lock scheduling and message delivery are free to do anything.
 */
module RefreshProtocol {
  import opened Text
  import opened Session
  import opened RefreshClient

  datatype Tab = Tab(session: SessionState, open: bool, slot: Option<nat>)

  /** A refresh: started for `failed`, and `reused` if it found a token without asking the server. */
  datatype Flight = Flight(tab: nat, failed: string, reused: bool, stage: FlightStage)

  datatype FlightStage =
    | WaitingLock
    | Requesting(startedRevision: nat)
    | Settled(outcome: Outcome)
    | Done(outcome: Outcome)

  /**
   An API call, or a bare refresh (`sent == 0`).  `joined` is the flight it waited for,
   `heard` the outcome that flight gave it, `refused` the error of its first request.
   */
  datatype Call = Call(
    tab: nat,
    failed: string,
    joined: Option<nat>,
    sent: nat,
    refused: Option<Answer>,
    heard: Option<Outcome>,
    stage: CallStage)

  datatype CallStage =
    | Sending
    | Waiting(error: Answer)
    | Recovered(token: string)
    | Retrying(token: string)
    | Finished(result: CallResult)

  datatype CallResult =
    | Succeeded
    | Failed(error: Answer)
    | WasAborted
    | Got(outcome: Outcome)

  datatype ApiAnswer = Ok | Error(error: Answer)

  datatype Message = Message(from: nat, to: nat, snapshot: Snapshot)

  datatype World = World(
    locks: bool,
    tabs: seq<Tab>,
    flights: seq<Flight>,
    holder: Option<nat>,
    calls: seq<Call>,
    channel: seq<Message>)

  datatype Step =
    | Write(tab: nat, next: Partial, syncPeers: bool)
    | Deliver(index: nat)
    | StartCall(tab: nat, token: string)
    | StartRefresh(tab: nat, failed: string)
    | FirstAnswered(call: nat, answer: ApiAnswer, aborted: bool)
    | LockGranted(flight: nat)
    | LockRefused(flight: nat)
    | RefreshAnswered(flight: nat, reply: Answer)
    | Settle(flight: nat)
    | Resume(call: nat, aborted: bool)
    | RetryAnswered(call: nat, answer: ApiAnswer)

  // Sessions and the channel

  /** One message for every other tab that has the channel open; a post never reaches its sender. */
  function Post(tabs: seq<Tab>, from: nat, snapshots: seq<Snapshot>, to: nat): seq<Message>
    requires to <= |tabs|
    decreases |tabs| - to
  {
    if to == |tabs| || snapshots == [] then []
    else (if to != from && tabs[to].open then [Message(from, to, snapshots[0])] else [])
         + Post(tabs, from, snapshots, to + 1)
  }

  /** A change also announces itself within the tab, which opens the channel. */
  function WriteSession(w: World, t: nat, session: SessionState, posts: seq<Snapshot>): World
    requires t < |w.tabs|
  {
    var listens := w.tabs[t].open || session != w.tabs[t].session;
    w.(tabs := w.tabs[t := w.tabs[t].(session := session, open := listens)],
       channel := w.channel + Post(w.tabs, t, posts, 0))
  }

  function OpenChannel(w: World, t: nat): World
    requires t < |w.tabs|
  {
    w.(tabs := w.tabs[t := w.tabs[t].(open := true)])
  }

  /** Between one sender and one receiver, messages arrive in the order they were posted. */
  predicate Next(channel: seq<Message>, i: nat) {
    && i < |channel|
    && forall j | 0 <= j < i :: channel[j].from != channel[i].from || channel[j].to != channel[i].to
  }

  function Without<T>(s: seq<T>, i: nat): seq<T>
    requires i < |s|
  {
    s[..i] + s[i + 1..]
  }

  // Refreshes

  /** The callback runs: under the lock if there is one, and up to its request. */
  function RunFlight(w: World, f: nat): World
    requires f < |w.flights| && w.flights[f].tab < |w.tabs|
  {
    var t := w.flights[f].tab;
    var listening := OpenChannel(w, t);
    match Begin(w.tabs[t].session, w.flights[f].failed)
    case Reused(token) =>
      listening.(flights := w.flights[f := w.flights[f].(reused := true, stage := Settled(Token(token)))])
    case Asked(revision) =>
      listening.(flights := w.flights[f := w.flights[f].(stage := Requesting(revision))],
              holder := if w.locks then Some(f) else w.holder)
  }

  function NewFlight(w: World, t: nat, failed: string): World
    requires t < |w.tabs|
  {
    w.(flights := w.flights + [Flight(t, failed, false, WaitingLock)],
       tabs := w.tabs[t := w.tabs[t].(slot := Some(|w.flights|))])
  }

  /** refreshAccessToken: start a flight if the tab has none. */
  function EnsureFlight(w: World, t: nat, failed: string): World
    requires t < |w.tabs|
  {
    if w.tabs[t].slot.Some? then w
    else
      var started := NewFlight(w, t, failed);
      if w.locks then started else RunFlight(started, |w.flights|)
  }

  /** The flight a call of tab `t` joins after `EnsureFlight`. */
  function FlightOf(w: World, t: nat): nat
    requires t < |w.tabs|
  {
    if w.tabs[t].slot.Some? then w.tabs[t].slot.value else |w.flights|
  }

  // Steps

  predicate Enabled(w: World, step: Step) {
    match step
    case Write(t, _, _) => t < |w.tabs|
    case Deliver(i) => Next(w.channel, i) && w.channel[i].to < |w.tabs|
    case StartCall(t, _) => t < |w.tabs|
    case StartRefresh(t, _) => t < |w.tabs|
    case FirstAnswered(c, _, _) => c < |w.calls| && w.calls[c].stage.Sending? && w.calls[c].tab < |w.tabs|
    case LockGranted(f) =>
      f < |w.flights| && w.flights[f].stage.WaitingLock? && w.holder.None? && w.flights[f].tab < |w.tabs|
    case LockRefused(f) => w.locks && f < |w.flights| && w.flights[f].stage.WaitingLock?
    case RefreshAnswered(f, _) =>
      f < |w.flights| && w.flights[f].stage.Requesting? && w.flights[f].tab < |w.tabs|
    case Settle(f) => f < |w.flights| && w.flights[f].stage.Settled? && w.flights[f].tab < |w.tabs|
    case Resume(c, _) => c < |w.calls| && Resumable(w, w.calls[c])
    case RetryAnswered(c, _) => c < |w.calls| && w.calls[c].stage.Retrying? && w.calls[c].tab < |w.tabs|
  }

  predicate Resumable(w: World, call: Call) {
    || call.stage.Recovered?
    || (call.stage.Waiting? && call.joined.Some? && call.joined.value < |w.flights|
        && w.flights[call.joined.value].stage.Done?)
  }

  function SetCall(w: World, c: nat, call: Call): World
    requires c < |w.calls|
  {
    w.(calls := w.calls[c := call])
  }

  /** The first request fails: only an unauthorized call that was not aborted looks for another token. */
  function FirstError(w: World, c: nat, error: Answer, aborted: bool): World
    requires c < |w.calls| && w.calls[c].tab < |w.tabs|
  {
    var call := w.calls[c];
    if aborted then SetCall(w, c, call.(stage := Finished(WasAborted)))
    else if !(error.Refused? && error.status == 401) then SetCall(w, c, call.(stage := Finished(Failed(error))))
    else
      var listening := OpenChannel(w, call.tab);
      match RefreshClient.Recovered(w.tabs[call.tab].session, call.failed)
      case Some(token) => SetCall(listening, c, call.(stage := Recovered(token)))
      case None =>
        SetCall(EnsureFlight(listening, call.tab, call.failed), c,
                call.(joined := Some(FlightOf(w, call.tab)), refused := Some(error), stage := Waiting(error)))
  }

  /** The refresh is over, or a newer token was found: retry, or give up. */
  function Resumed(w: World, call: Call, aborted: bool): Call
    requires Resumable(w, call)
  {
    match call.stage
    case Recovered(token) =>
      if aborted then call.(stage := Finished(WasAborted)) else call.(sent := call.sent + 1, stage := Retrying(token))
    case Waiting(error) =>
      var outcome := w.flights[call.joined.value].stage.outcome;
      var told := call.(heard := Some(outcome));
      if call.sent == 0 then told.(stage := Finished(Got(outcome)))
      else if outcome.Rejected? then told.(stage := Finished(Failed(outcome.error)))
      else if aborted then told.(stage := Finished(WasAborted))
      else if outcome.token == "" then told.(stage := Finished(Failed(error)))
      else told.(sent := call.sent + 1, stage := Retrying(outcome.token))
    case _ => call
  }

  function Apply(w: World, step: Step): World
    requires Enabled(w, step)
  {
    match step
    case Write(t, next, syncPeers) =>
      var s := w.tabs[t].session;
      WriteSession(w, t, Written(s, next), Posted(s, next, syncPeers))
    case Deliver(i) =>
      var m := w.channel[i];
      WriteSession(w.(channel := Without(w.channel, i)), m.to, Written(w.tabs[m.to].session, Whole(m.snapshot)), [])
    case StartCall(t, token) =>
      w.(calls := w.calls + [Call(t, token, None, 1, None, None, Sending)])
    case StartRefresh(t, failed) =>
      EnsureFlight(w, t, failed).(calls := w.calls + [Call(t, failed, Some(FlightOf(w, t)), 0, None, None, Waiting(Unreachable))])
    case FirstAnswered(c, answer, aborted) =>
      if answer.Ok? then SetCall(w, c, w.calls[c].(stage := Finished(Succeeded)))
      else FirstError(w, c, answer.error, aborted)
    case LockGranted(f) => RunFlight(w, f)
    case LockRefused(f) =>
      w.(flights := w.flights[f := w.flights[f].(stage := Settled(Rejected(Unreachable)))])
    case RefreshAnswered(f, reply) =>
      var t := w.flights[f].tab;
      var s := w.tabs[t].session;
      WriteSession(w, t, AfterAnswer(s, w.flights[f].stage.startedRevision, reply), AnswerPosts(s, reply))
        .(flights := w.flights[f := w.flights[f].(stage := Settled(AnswerOutcome(reply)))], holder := None)
    case Settle(f) =>
      var t := w.flights[f].tab;
      w.(flights := w.flights[f := w.flights[f].(stage := Done(w.flights[f].stage.outcome))],
         tabs := w.tabs[t := w.tabs[t].(slot := None)])
    case Resume(c, aborted) => SetCall(w, c, Resumed(w, w.calls[c], aborted))
    case RetryAnswered(c, answer) =>
      var call := w.calls[c];
      if answer.Ok? then SetCall(w, c, call.(stage := Finished(Succeeded)))
      else
        SetCall(WriteSession(w, call.tab, AfterRetry(w.tabs[call.tab].session, answer.error), []),
                c, call.(stage := Finished(Failed(answer.error))))
  }

  // Runs

  predicate ValidRun(w: World, steps: seq<Step>)
    decreases |steps|
  {
    steps == [] || (Enabled(w, steps[0]) && ValidRun(Apply(w, steps[0]), steps[1..]))
  }

  function Run(w: World, steps: seq<Step>): World
    requires ValidRun(w, steps)
    decreases |steps|
  {
    if steps == [] then w else Run(Apply(w, steps[0]), steps[1..])
  }

  /** Any tabs, any sessions; nothing in flight and nothing on the channel. */
  predicate Initial(w: World) {
    && w.flights == [] && w.holder == None && w.calls == [] && w.channel == []
    && forall t | 0 <= t < |w.tabs| :: w.tabs[t].slot == None
  }

  // What every reachable state satisfies

  /** A tab's slot names exactly its unfinished flight. */
  ghost predicate SlotsOk(w: World) {
    && (forall f | 0 <= f < |w.flights| ::
          && w.flights[f].tab < |w.tabs|
          && (w.flights[f].stage.Done? <==> w.tabs[w.flights[f].tab].slot != Some(f)))
    && (forall t | 0 <= t < |w.tabs| ::
          w.tabs[t].slot.Some? ==>
            w.tabs[t].slot.value < |w.flights| && w.flights[w.tabs[t].slot.value].tab == t)
  }

  /** With locks, the flight that waits for the server is the one that holds the lock. */
  ghost predicate LockOk(w: World) {
    && (forall f | 0 <= f < |w.flights| :: w.flights[f].stage.Requesting? && w.locks ==> w.holder == Some(f))
    && (w.holder.Some? ==>
          w.locks && w.holder.value < |w.flights| && w.flights[w.holder.value].stage.Requesting?)
  }

  /** What is known of a flight: it began in the past, and a reused token is not the failed one. */
  ghost predicate FlightOk(w: World, flight: Flight) {
    && flight.tab < |w.tabs|
    && (flight.stage.Requesting? ==> flight.stage.startedRevision <= w.tabs[flight.tab].session.revision)
    && (flight.reused ==>
          && (flight.stage.Settled? || flight.stage.Done?)
          && flight.stage.outcome.Token?
          && flight.stage.outcome.token != "" && flight.stage.outcome.token != flight.failed)
  }

  /**
   What a call does with the outcome it heard.  A bare refresh passes it on; an API call
   fails with the error of the refresh, fails with its own error for want of a token, or
   retries with the token, unless it is aborted first.
   */
  predicate Followed(call: Call)
    requires call.heard.Some?
  {
    if call.sent == 0 then call.stage == Finished(Got(call.heard.value))
    else
      match call.heard.value
      case Rejected(error) => call.sent == 1 && call.stage == Finished(Failed(error))
      case Token(token) =>
        if call.sent == 1 then
          || call.stage == Finished(WasAborted)
          || (token == "" && call.refused.Some? && call.stage == Finished(Failed(call.refused.value)))
        else
          && token != ""
          && (|| call.stage == Retrying(token)
              || call.stage == Finished(Succeeded)
              || (call.stage.Finished? && call.stage.result.Failed?))
  }

  /** What is known of a call; see `CallTheorem`. */
  ghost predicate CallOk(w: World, call: Call) {
    && call.tab < |w.tabs|
    && (call.joined.Some? ==> call.joined.value < |w.flights| && w.flights[call.joined.value].tab == call.tab)
    && (call.stage.Waiting? ==> call.joined.Some? && call.heard.None?)
    && (call.stage.Waiting? && call.sent > 0 ==>
          call.refused == Some(call.stage.error) && call.refused.value.Refused? && call.refused.value.status == 401)
    && (call.joined.Some? && !call.stage.Waiting? ==> call.heard.Some?)
    && (call.heard.Some? ==>
          && call.joined.Some? && w.flights[call.joined.value].stage == Done(call.heard.value)
          && Followed(call))
    && (call.stage.Sending? ==> call.joined.None?)
    && call.sent <= 2
    && (call.sent == 0 ==> call.stage.Waiting? || (call.stage.Finished? && call.stage.result.Got?))
    && (call.stage.Sending? || call.stage.Waiting? || call.stage.Recovered? ==> call.sent <= 1)
    && (call.stage.Recovered? ==> call.joined.None? && call.stage.token != "" && call.stage.token != call.failed)
    && (call.stage.Retrying? ==>
          && call.sent == 2 && call.stage.token != ""
          && (call.joined.None? ==> call.stage.token != call.failed)
          && (call.joined.Some? ==> w.flights[call.joined.value].stage == Done(Token(call.stage.token))))
    && (call.stage.Finished? && call.stage.result.Got? ==>
          call.joined.Some? && w.flights[call.joined.value].stage == Done(call.stage.result.outcome))
  }

  ghost predicate Inv(w: World) {
    && SlotsOk(w)
    && LockOk(w)
    && (forall f | 0 <= f < |w.flights| :: FlightOk(w, w.flights[f]))
    && (forall c | 0 <= c < |w.calls| :: CallOk(w, w.calls[c]))
  }

  // One segment at a time

  /** Sessions only move forward: what is known of flights and calls does not depend on which write it was. */
  lemma SessionWriteKeepsInv(w: World, t: nat, session: SessionState, posts: seq<Snapshot>)
    requires Inv(w) && t < |w.tabs| && w.tabs[t].session.revision <= session.revision
    ensures Inv(WriteSession(w, t, session, posts))
  {
    var v := WriteSession(w, t, session, posts);
    forall f | 0 <= f < |v.flights|
      ensures FlightOk(v, v.flights[f])
    {
      assert FlightOk(w, w.flights[f]);
    }
    forall c | 0 <= c < |v.calls|
      ensures CallOk(v, v.calls[c])
    {
      assert CallOk(w, w.calls[c]);
    }
  }

  lemma OpenChannelKeepsInv(w: World, t: nat)
    requires Inv(w) && t < |w.tabs|
    ensures Inv(OpenChannel(w, t))
  {
    var v := OpenChannel(w, t);
    forall f | 0 <= f < |v.flights|
      ensures FlightOk(v, v.flights[f])
    {
      assert FlightOk(w, w.flights[f]);
    }
    forall c | 0 <= c < |v.calls|
      ensures CallOk(v, v.calls[c])
    {
      assert CallOk(w, w.calls[c]);
    }
  }

  lemma SetCallKeepsInv(w: World, c: nat, call: Call)
    requires Inv(w) && c < |w.calls| && CallOk(w, call)
    ensures Inv(SetCall(w, c, call))
  {
    var v := SetCall(w, c, call);
    forall f | 0 <= f < |v.flights|
      ensures FlightOk(v, v.flights[f])
    {
      assert FlightOk(w, w.flights[f]);
    }
    forall d | 0 <= d < |v.calls|
      ensures CallOk(v, v.calls[d])
    {
      assert CallOk(w, w.calls[d]) || d == c;
    }
  }

  lemma AddCallKeepsInv(w: World, call: Call)
    requires Inv(w) && CallOk(w, call)
    ensures Inv(w.(calls := w.calls + [call]))
  {
    var v := w.(calls := w.calls + [call]);
    forall f | 0 <= f < |v.flights|
      ensures FlightOk(v, v.flights[f])
    {
      assert FlightOk(w, w.flights[f]);
    }
    forall d | 0 <= d < |v.calls|
      ensures CallOk(v, v.calls[d])
    {
      if d < |w.calls| {
        assert CallOk(w, w.calls[d]);
      }
    }
  }

  /** A finished flight is never written again, so what calls rely on stays. */
  lemma FlightChangeKeepsCalls(w: World, v: World)
    requires forall c | 0 <= c < |w.calls| :: CallOk(w, w.calls[c])
    requires v.calls == w.calls && |v.tabs| == |w.tabs| && |w.flights| <= |v.flights|
    requires forall f | 0 <= f < |w.flights| ::
               && v.flights[f].tab == w.flights[f].tab
               && (w.flights[f].stage.Done? ==> v.flights[f] == w.flights[f])
    ensures forall c | 0 <= c < |v.calls| :: CallOk(v, v.calls[c])
  {
    forall c | 0 <= c < |v.calls|
      ensures CallOk(v, v.calls[c])
    {
      assert CallOk(w, w.calls[c]);
    }
  }

  lemma RunFlightKeepsInv(w: World, f: nat)
    requires Inv(w) && f < |w.flights|
    requires !w.flights[f].stage.Done? && !w.flights[f].stage.Settled? && w.holder.None?
    ensures Inv(RunFlight(w, f))
  {
    var v := RunFlight(w, f);
    assert FlightOk(w, w.flights[f]);
    forall g | 0 <= g < |v.flights|
      ensures FlightOk(v, v.flights[g])
    {
      assert FlightOk(w, w.flights[g]);
    }
    FlightChangeKeepsCalls(w, v);
  }

  lemma NewFlightKeepsInv(w: World, t: nat, failed: string)
    requires Inv(w) && t < |w.tabs| && w.tabs[t].slot.None?
    ensures Inv(NewFlight(w, t, failed))
  {
    var v := NewFlight(w, t, failed);
    forall g | 0 <= g < |v.flights|
      ensures FlightOk(v, v.flights[g])
    {
      if g < |w.flights| {
        assert FlightOk(w, w.flights[g]);
      }
    }
    FlightChangeKeepsCalls(w, v);
  }

  lemma EnsureFlightKeepsInv(w: World, t: nat, failed: string)
    requires Inv(w) && t < |w.tabs|
    ensures var v := EnsureFlight(w, t, failed);
            && Inv(v) && v.calls == w.calls && |v.tabs| == |w.tabs|
            && FlightOf(w, t) < |v.flights| && v.flights[FlightOf(w, t)].tab == t
  {
    if w.tabs[t].slot.None? {
      NewFlightKeepsInv(w, t, failed);
      if !w.locks {
        RunFlightKeepsInv(NewFlight(w, t, failed), |w.flights|);
      }
    }
  }

  lemma RefreshAnsweredKeepsInv(w: World, f: nat, reply: Answer)
    requires Inv(w) && Enabled(w, RefreshAnswered(f, reply))
    ensures Inv(Apply(w, RefreshAnswered(f, reply)))
  {
    var t := w.flights[f].tab;
    var s := w.tabs[t].session;
    var written := WriteSession(w, t, AfterAnswer(s, w.flights[f].stage.startedRevision, reply), AnswerPosts(s, reply));
    SessionWriteKeepsInv(w, t, AfterAnswer(s, w.flights[f].stage.startedRevision, reply), AnswerPosts(s, reply));
    var v := Apply(w, RefreshAnswered(f, reply));
    assert FlightOk(w, w.flights[f]);
    forall g | 0 <= g < |v.flights|
      ensures FlightOk(v, v.flights[g])
    {
      assert FlightOk(written, written.flights[g]);
    }
    FlightChangeKeepsCalls(written, v);
  }

  lemma LockRefusedKeepsInv(w: World, f: nat)
    requires Inv(w) && Enabled(w, LockRefused(f))
    ensures Inv(Apply(w, LockRefused(f)))
  {
    var v := Apply(w, LockRefused(f));
    forall g | 0 <= g < |v.flights|
      ensures FlightOk(v, v.flights[g])
    {
      assert FlightOk(w, w.flights[g]);
    }
    FlightChangeKeepsCalls(w, v);
  }

  lemma SettleKeepsInv(w: World, f: nat)
    requires Inv(w) && Enabled(w, Settle(f))
    ensures Inv(Apply(w, Settle(f)))
  {
    var v := Apply(w, Settle(f));
    forall g | 0 <= g < |v.flights|
      ensures FlightOk(v, v.flights[g])
    {
      assert FlightOk(w, w.flights[g]);
    }
    FlightChangeKeepsCalls(w, v);
  }

  lemma FirstErrorKeepsInv(w: World, c: nat, error: Answer, aborted: bool)
    requires Inv(w) && Enabled(w, FirstAnswered(c, Error(error), aborted))
    ensures Inv(FirstError(w, c, error, aborted))
  {
    var call := w.calls[c];
    assert CallOk(w, call);
    if aborted {
      SetCallKeepsInv(w, c, call.(stage := Finished(WasAborted)));
    } else if !(error.Refused? && error.status == 401) {
      SetCallKeepsInv(w, c, call.(stage := Finished(Failed(error))));
    } else {
      var listening := OpenChannel(w, call.tab);
      OpenChannelKeepsInv(w, call.tab);
      match RefreshClient.Recovered(w.tabs[call.tab].session, call.failed)
      case Some(token) =>
        SendingHasNotJoined(w, c);
        SetCallKeepsInv(listening, c, call.(stage := Recovered(token)));
      case None =>
        EnsureFlightKeepsInv(listening, call.tab, call.failed);
        SetCallKeepsInv(EnsureFlight(listening, call.tab, call.failed), c,
                        call.(joined := Some(FlightOf(w, call.tab)), refused := Some(error), stage := Waiting(error)));
    }
  }

  lemma SendingHasNotJoined(w: World, c: nat)
    requires Inv(w) && c < |w.calls| && w.calls[c].stage.Sending?
    ensures w.calls[c].joined.None?
  {
    assert CallOk(w, w.calls[c]);
  }

  lemma WriteKeepsInv(w: World, t: nat, next: Partial, syncPeers: bool)
    requires Inv(w) && t < |w.tabs|
    ensures Inv(Apply(w, Write(t, next, syncPeers)))
  {
    SessionWriteKeepsInv(w, t, Written(w.tabs[t].session, next), Posted(w.tabs[t].session, next, syncPeers));
  }

  lemma DeliverKeepsInv(w: World, i: nat)
    requires Inv(w) && Enabled(w, Deliver(i))
    ensures Inv(Apply(w, Deliver(i)))
  {
    var m := w.channel[i];
    ChannelKeepsInv(w, Without(w.channel, i));
    SessionWriteKeepsInv(w.(channel := Without(w.channel, i)), m.to,
                         Written(w.tabs[m.to].session, Whole(m.snapshot)), []);
  }

  lemma StartRefreshKeepsInv(w: World, t: nat, failed: string)
    requires Inv(w) && t < |w.tabs|
    ensures Inv(Apply(w, StartRefresh(t, failed)))
  {
    EnsureFlightKeepsInv(w, t, failed);
    AddCallKeepsInv(EnsureFlight(w, t, failed),
                    Call(t, failed, Some(FlightOf(w, t)), 0, None, None, Waiting(Unreachable)));
  }

  lemma FirstAnsweredKeepsInv(w: World, c: nat, answer: ApiAnswer, aborted: bool)
    requires Inv(w) && Enabled(w, FirstAnswered(c, answer, aborted))
    ensures Inv(Apply(w, FirstAnswered(c, answer, aborted)))
  {
    if answer.Ok? {
      SendingHasNotJoined(w, c);
      assert CallOk(w, w.calls[c]);
      SetCallKeepsInv(w, c, w.calls[c].(stage := Finished(Succeeded)));
    } else {
      FirstErrorKeepsInv(w, c, answer.error, aborted);
    }
  }

  lemma ResumeKeepsInv(w: World, c: nat, aborted: bool)
    requires Inv(w) && Enabled(w, Resume(c, aborted))
    ensures Inv(Apply(w, Resume(c, aborted)))
  {
    assert CallOk(w, w.calls[c]);
    SetCallKeepsInv(w, c, Resumed(w, w.calls[c], aborted));
  }

  lemma RetryAnsweredKeepsInv(w: World, c: nat, answer: ApiAnswer)
    requires Inv(w) && Enabled(w, RetryAnswered(c, answer))
    ensures Inv(Apply(w, RetryAnswered(c, answer)))
  {
    var call := w.calls[c];
    assert CallOk(w, call);
    if answer.Ok? {
      SetCallKeepsInv(w, c, call.(stage := Finished(Succeeded)));
    } else {
      var session := AfterRetry(w.tabs[call.tab].session, answer.error);
      SessionWriteKeepsInv(w, call.tab, session, []);
      SetCallKeepsInv(WriteSession(w, call.tab, session, []), c, call.(stage := Finished(Failed(answer.error))));
    }
  }

  lemma StepKeepsInv(w: World, step: Step)
    requires Inv(w) && Enabled(w, step)
    ensures Inv(Apply(w, step))
  {
    match step
    case Write(t, next, syncPeers) => WriteKeepsInv(w, t, next, syncPeers);
    case Deliver(i) => DeliverKeepsInv(w, i);
    case StartCall(t, token) => AddCallKeepsInv(w, Call(t, token, None, 1, None, None, Sending));
    case StartRefresh(t, failed) => StartRefreshKeepsInv(w, t, failed);
    case FirstAnswered(c, answer, aborted) => FirstAnsweredKeepsInv(w, c, answer, aborted);
    case LockGranted(f) => RunFlightKeepsInv(w, f);
    case LockRefused(f) => LockRefusedKeepsInv(w, f);
    case RefreshAnswered(f, reply) => RefreshAnsweredKeepsInv(w, f, reply);
    case Settle(f) => SettleKeepsInv(w, f);
    case Resume(c, aborted) => ResumeKeepsInv(w, c, aborted);
    case RetryAnswered(c, answer) => RetryAnsweredKeepsInv(w, c, answer);
  }

  lemma ChannelKeepsInv(w: World, channel: seq<Message>)
    requires Inv(w)
    ensures Inv(w.(channel := channel))
  {
    var v := w.(channel := channel);
    forall f | 0 <= f < |v.flights|
      ensures FlightOk(v, v.flights[f])
    {
      assert FlightOk(w, w.flights[f]);
    }
    forall c | 0 <= c < |v.calls|
      ensures CallOk(v, v.calls[c])
    {
      assert CallOk(w, w.calls[c]);
    }
  }

  lemma {:induction false} RunKeepsInv(w: World, steps: seq<Step>)
    requires Inv(w) && ValidRun(w, steps)
    ensures Inv(Run(w, steps))
    decreases |steps|
  {
    if steps != [] {
      StepKeepsInv(w, steps[0]);
      RunKeepsInv(Apply(w, steps[0]), steps[1..]);
    }
  }
}
