/**
 What single steps of the refresh protocol do, in terms of the fields they touch: what
 a refresh begins with, what each answer stores, posts and comes to, and how a call
 goes on (frontend/shared/api/authed-client.ts, frontend/shared/auth/session.ts).
 */
module RefreshSteps {
  import opened Text
  import opened Session
  import opened RefreshClient
  import opened RefreshProtocol
  import opened RefreshSafety

  // Posting

  /** What is new on the channel: one message with `snapshot` to each other listening tab, and nothing else. */
  ghost predicate PostedToEach(tabs: seq<Tab>, from: nat, snapshot: Snapshot, messages: seq<Message>) {
    && (forall i | 0 <= i < |messages| ::
          && messages[i].from == from && messages[i].snapshot == snapshot
          && messages[i].to < |tabs| && messages[i].to != from && tabs[messages[i].to].open)
    && (forall i, j | 0 <= i < j < |messages| :: messages[i].to != messages[j].to)
    && (forall u: nat | u < |tabs| && u != from && tabs[u].open :: exists i :: 0 <= i < |messages| && messages[i].to == u)
  }

  lemma {:induction false} PostReaches(tabs: seq<Tab>, from: nat, snapshot: Snapshot, to: nat)
    requires to <= |tabs|
    ensures var messages := Post(tabs, from, [snapshot], to);
            && (forall i, j | 0 <= i < j < |messages| :: messages[i].to < messages[j].to)
            && (forall u: nat | to <= u < |tabs| && u != from && tabs[u].open ::
                  exists i :: 0 <= i < |messages| && messages[i].to == u)
    decreases |tabs| - to
  {
    if to < |tabs| {
      var rest := Post(tabs, from, [snapshot], to + 1);
      var head: seq<Message> := if to != from && tabs[to].open then [Message(from, to, snapshot)] else [];
      PostReaches(tabs, from, snapshot, to + 1);
      PostNeverEchoes(tabs, from, [snapshot], to + 1);
      PostCons(tabs, from, to, head, rest);
    }
  }

  lemma PostCons(tabs: seq<Tab>, from: nat, to: nat, head: seq<Message>, rest: seq<Message>)
    requires to < |tabs| && |head| <= 1 && (head == [] ==> to == from || !tabs[to].open) && (head != [] ==> head[0].to == to)
    requires forall i | 0 <= i < |rest| :: to < rest[i].to
    requires forall i, j | 0 <= i < j < |rest| :: rest[i].to < rest[j].to
    requires forall u: nat | to + 1 <= u < |tabs| && u != from && tabs[u].open ::
               exists i :: 0 <= i < |rest| && rest[i].to == u
    ensures var messages := head + rest;
            && (forall i, j | 0 <= i < j < |messages| :: messages[i].to < messages[j].to)
            && (forall u: nat | to <= u < |tabs| && u != from && tabs[u].open ::
                  exists i :: 0 <= i < |messages| && messages[i].to == u)
  {
    var messages := head + rest;
    forall u: nat | to <= u < |tabs| && u != from && tabs[u].open
      ensures exists i :: 0 <= i < |messages| && messages[i].to == u
    {
      if u == to {
        assert messages[0].to == u;
      } else {
        var i :| 0 <= i < |rest| && rest[i].to == u;
        assert messages[|head| + i].to == u;
      }
    }
  }

  lemma PostIsToEach(tabs: seq<Tab>, from: nat, snapshot: Snapshot)
    ensures PostedToEach(tabs, from, snapshot, Post(tabs, from, [snapshot], 0))
  {
    PostReaches(tabs, from, snapshot, 0);
    PostNeverEchoes(tabs, from, [snapshot], 0);
  }

  // Writes

  /** A write stores the fields it brings, keeps the others, and is announced if it changed anything and should be. */
  lemma WriteIsStored(w: World, t: nat, next: Partial, syncPeers: bool)
    requires t < |w.tabs|
    ensures var v := Apply(w, Write(t, next, syncPeers));
            && |v.tabs| == |w.tabs|
            && var before, after := w.tabs[t].session.snapshot, v.tabs[t].session.snapshot;
               && after.accessToken == (if next.accessToken.Some? then next.accessToken.value else before.accessToken)
               && after.sessionID == (if next.sessionID.Some? then next.sessionID.value else before.sessionID)
               && |w.channel| <= |v.channel| && v.channel[..|w.channel|] == w.channel
               && (if syncPeers && after != before then PostedToEach(w.tabs, t, after, v.channel[|w.channel|..])
                   else v.channel == w.channel)
  {
    PostIsToEach(w.tabs, t, Merge(w.tabs[t].session.snapshot, next));
    assert Post(w.tabs, t, [], 0) == [];
  }

  /** The tab whose session a step may change. */
  function Writer(w: World, step: Step): Option<nat>
    requires Enabled(w, step)
  {
    match step
    case Write(t, _, _) => Some(t)
    case Deliver(i) => Some(w.channel[i].to)
    case RefreshAnswered(f, _) => Some(w.flights[f].tab)
    case RetryAnswered(c, _) => Some(w.calls[c].tab)
    case _ => None
  }

  lemma OtherTabsKeepTheirs(w: World, step: Step, u: nat)
    requires Enabled(w, step) && u < |w.tabs| && Writer(w, step) != Some(u)
    ensures |Apply(w, step).tabs| == |w.tabs|
    ensures Apply(w, step).tabs[u].session == w.tabs[u].session
  {
    match step
    case Write(_, _, _) =>
    case Deliver(_) =>
    case RefreshAnswered(_, _) =>
    case RetryAnswered(_, _) =>
    case _ => OtherStepsKeepSessions(w, step);
  }

  // Answers of the refresh request

  /** The snapshot a token in an answer leads to: its session ID too, if the answer has one. */
  lemma TokenIsStored(w: World, f: nat, reply: Answer)
    requires Enabled(w, RefreshAnswered(f, reply)) && reply.Tokens? && reply.accessToken != ""
    ensures var v, t := Apply(w, RefreshAnswered(f, reply)), w.flights[f].tab;
            && |v.tabs| == |w.tabs| && f < |v.flights|
            && var before, after := w.tabs[t].session.snapshot, v.tabs[t].session.snapshot;
               && after.accessToken == reply.accessToken
               && after.sessionID == (if reply.sessionID.Some? then reply.sessionID.value else before.sessionID)
               && v.flights[f].stage == Settled(Token(reply.accessToken))
               && |w.channel| <= |v.channel| && v.channel[..|w.channel|] == w.channel
               && (if after == before then v.channel == w.channel
                   else PostedToEach(w.tabs, t, after, v.channel[|w.channel|..]))
  {
    var t := w.flights[f].tab;
    var s := w.tabs[t].session;
    var after := Snapshot(reply.accessToken, if reply.sessionID.Some? then reply.sessionID.value else s.snapshot.sessionID);
    PostIsToEach(w.tabs, t, after);
    assert Post(w.tabs, t, [], 0) == [];
  }

  /** Every other answer posts nothing; it empties the session or passes on the error. */
  lemma NoTokenIsStored(w: World, f: nat, reply: Answer)
    requires Enabled(w, RefreshAnswered(f, reply)) && !(reply.Tokens? && reply.accessToken != "")
    ensures var v, t := Apply(w, RefreshAnswered(f, reply)), w.flights[f].tab;
            var over := reply.Tokens? || IsSessionTerminating(reply);
            && |v.tabs| == |w.tabs| && f < |v.flights| && v.channel == w.channel
            && v.flights[f].stage == Settled(if over then Token("") else Rejected(reply))
            && v.tabs[t].session.snapshot
               == (if over && w.tabs[t].session.revision == w.flights[f].stage.startedRevision then Snapshot("", "")
                   else w.tabs[t].session.snapshot)
  {
    assert Post(w.tabs, w.flights[f].tab, [], 0) == [];
  }

  // The beginning of a refresh

  /** With the lock a refresh takes another token its tab holds, or asks the server and notes the current revision. */
  lemma LockedBeginning(w: World, f: nat)
    requires Enabled(w, LockGranted(f))
    ensures var v, s := Apply(w, LockGranted(f)), w.tabs[w.flights[f].tab].session;
            var current := s.snapshot.accessToken;
            && f < |v.flights|
            && v.flights[f].stage == (if current != "" && current != w.flights[f].failed then Settled(Token(current))
                                      else Requesting(s.revision))
            && v.holder == (if w.locks && v.flights[f].stage.Requesting? then Some(f) else w.holder)
  {
  }

  /** A refused lock request is an error of the refresh, and changes nothing else. */
  lemma LockIsRefused(w: World, f: nat)
    requires Enabled(w, LockRefused(f))
    ensures var v := Apply(w, LockRefused(f));
            && f < |v.flights|
            && v == w.(flights := v.flights) && v.flights == w.flights[f := v.flights[f]]
            && v.flights[f] == w.flights[f].(stage := Settled(Rejected(Unreachable)))
  {
  }

  /**
   A caller joins the refresh of its tab.  If there is none it starts one, which without
   locks begins at once, in the same way.
   */
  lemma JoiningOrStarting(w: World, t: nat, failed: string)
    requires t < |w.tabs|
    ensures var v, s := EnsureFlight(w, t, failed), w.tabs[t].session;
            && |v.tabs| == |w.tabs|
            && (w.tabs[t].slot.Some? ==> v == w && FlightOf(w, t) == w.tabs[t].slot.value)
            && (w.tabs[t].slot.None? ==>
                  && |v.flights| == |w.flights| + 1 && v.flights[..|w.flights|] == w.flights
                  && FlightOf(w, t) == |w.flights| && v.tabs[t].slot == Some(|w.flights|)
                  && var flight, current := v.flights[|w.flights|], s.snapshot.accessToken;
                     && flight.tab == t && flight.failed == failed
                     && flight.stage == (if w.locks then WaitingLock
                                         else if current != "" && current != failed then Settled(Token(current))
                                         else Requesting(s.revision)))
  {
  }

  // How a call goes on

  /** The first answer: who finishes at once, who finds another token, who waits for a refresh. */
  lemma AfterFirstAnswer(w: World, c: nat, answer: ApiAnswer, aborted: bool)
    requires Enabled(w, FirstAnswered(c, answer, aborted))
    ensures var v, call := Apply(w, FirstAnswered(c, answer, aborted)), w.calls[c];
            var unauthorized := answer.Error? && answer.error.Refused? && answer.error.status == 401;
            var current := w.tabs[call.tab].session.snapshot.accessToken;
            && c < |v.calls| && |v.tabs| == |w.tabs|
            && v.tabs[call.tab].session == w.tabs[call.tab].session
            && (if answer.Ok? then v.calls[c].stage == Finished(Succeeded)
                else if aborted then v.calls[c].stage == Finished(WasAborted)
                else if !unauthorized then v.calls[c].stage == Finished(Failed(answer.error))
                else if current != "" && current != call.failed then v.calls[c].stage == Recovered(current)
                else
                  && v.calls[c].stage == Waiting(answer.error)
                  && v.calls[c].joined == Some(if w.tabs[call.tab].slot.Some? then w.tabs[call.tab].slot.value
                                               else |w.flights|))
            && (v.calls[c].stage.Waiting? || v.flights == w.flights)
  {
    if answer.Error? && !aborted {
      var listening := OpenChannel(w, w.calls[c].tab);
      JoiningOrStarting(listening, w.calls[c].tab, w.calls[c].failed);
    }
  }

  /** After the wait: a token found or brought is retried with, an error of the refresh is passed on. */
  lemma AfterWaiting(w: World, c: nat, aborted: bool)
    requires Inv(w) && Enabled(w, Resume(c, aborted))
    ensures var call := w.calls[c];
            && c < |Apply(w, Resume(c, aborted)).calls|
            && var next := Apply(w, Resume(c, aborted)).calls[c];
               match call.stage
               case Recovered(token) =>
                 if aborted then next.stage == Finished(WasAborted) && next.sent == call.sent
                 else next.stage == Retrying(token) && next.sent == call.sent + 1
               case Waiting(error) =>
                 && call.joined.Some? && call.joined.value < |w.flights|
                 && w.flights[call.joined.value].stage.Done?
                 && var outcome := w.flights[call.joined.value].stage.outcome;
                    && next.heard == Some(outcome)
                    && next.stage == (if call.sent == 0 then Finished(Got(outcome))
                                      else if outcome.Rejected? then Finished(Failed(outcome.error))
                                      else if aborted then Finished(WasAborted)
                                      else if outcome.token == "" then Finished(Failed(error))
                                      else Retrying(outcome.token))
               case _ => false
  {
  }

  /** The retry decides: there is no third request. */
  lemma AfterRetryAnswer(w: World, c: nat, answer: ApiAnswer)
    requires Enabled(w, RetryAnswered(c, answer))
    ensures var v, t := Apply(w, RetryAnswered(c, answer)), w.calls[c].tab;
            && c < |v.calls| && |v.tabs| == |w.tabs|
            && v.calls[c] == w.calls[c].(stage := Finished(if answer.Ok? then Succeeded else Failed(answer.error)))
            && v.tabs[t].session.snapshot
               == (if answer.Error? && IsSessionTerminating(answer.error) then Snapshot("", "")
                   else w.tabs[t].session.snapshot)
            && v.channel == w.channel && v.flights == w.flights
  {
    assert Post(w.tabs, w.calls[c].tab, [], 0) == [];
  }
}
