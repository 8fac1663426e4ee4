/**
 The segments between awaits of the token refresh (frontend/shared/api/authed-client.ts),
 as functions of the tab's session, and the same segments as methods on the
 module's state.  Each segment runs without interruption in its tab.
 */
module RefreshClient {
  import opened Text
  import opened Session

  /** An API answer.  An empty `accessToken` stands for a missing one, `Unreachable` for every error without a status. */
  datatype Answer =
    | Tokens(accessToken: string, sessionID: Option<string>)
    | Refused(status: int, errorCode: string)
    | Unreachable

  predicate IsSessionTerminating(answer: Answer) {
    && answer.Refused? && answer.status == 401
    && answer.errorCode in {"auth.invalid_token", "auth.invalid_refresh_token", "auth.session_invalid"}
  }

  /** Three error codes end a session, and only with status 401. */
  lemma SessionTerminatingIff(answer: Answer)
    ensures IsSessionTerminating(answer) <==>
              && answer.Refused? && answer.status == 401
              && (|| answer.errorCode == "auth.invalid_token"
                  || answer.errorCode == "auth.invalid_refresh_token"
                  || answer.errorCode == "auth.session_invalid")
  {
  }

  /** How a refresh ends: with a token (empty if there is none) or with the error passed on. */
  datatype Outcome = Token(token: string) | Rejected(error: Answer)

  /** The callback run under the lock: a token newer than the failed one is used without asking. */
  datatype Begun = Reused(token: string) | Asked(startedRevision: nat)

  function Begin(s: SessionState, failedToken: string): Begun {
    var current := s.snapshot.accessToken;
    if current != "" && current != failedToken then Reused(current) else Asked(s.revision)
  }

  /** The answer carries a token that will be stored. */
  predicate Stores(answer: Answer) {
    answer.Tokens? && answer.accessToken != ""
  }

  function AnswerWrite(answer: Answer): Partial {
    if Stores(answer) then Partial(Some(answer.accessToken), answer.sessionID) else Whole(NO_SESSION)
  }

  /** The answer says the session is over, and the session is still the one the request was made for. */
  predicate Ends(s: SessionState, startedRevision: nat, answer: Answer) {
    && (answer.Tokens? || IsSessionTerminating(answer)) && !Stores(answer)
    && s.revision == startedRevision
  }

  function AfterAnswer(s: SessionState, startedRevision: nat, answer: Answer): SessionState {
    if Stores(answer) || Ends(s, startedRevision, answer) then Written(s, AnswerWrite(answer)) else s
  }

  /** Only a new token is announced to the other tabs. */
  function AnswerPosts(s: SessionState, answer: Answer): seq<Snapshot> {
    Posted(s, AnswerWrite(answer), Stores(answer))
  }

  function AnswerOutcome(answer: Answer): Outcome {
    if answer.Tokens? then Token(answer.accessToken)
    else if IsSessionTerminating(answer) then Token("")
    else Rejected(answer)
  }

  /** The retry path clears the session without looking at the revision. */
  function AfterRetry(s: SessionState, answer: Answer): SessionState {
    if IsSessionTerminating(answer) then Written(s, Whole(NO_SESSION)) else s
  }

  /** An answer that brings no token changes nothing once the session has been written again. */
  lemma NewerSessionSurvives(s: SessionState, startedRevision: nat, answer: Answer)
    requires !Stores(answer)
    ensures AfterAnswer(s, startedRevision, answer) != s <==>
              && s.revision == startedRevision && s.snapshot != NO_SESSION
              && (answer.Tokens? || IsSessionTerminating(answer))
    ensures AfterAnswer(s, startedRevision, answer) != s ==>
              AfterAnswer(s, startedRevision, answer).snapshot == NO_SESSION
  {
  }

  /** The module state of authed-client.ts in one tab; a promise is named by a number. */
  class AuthedClient {
    const session: SessionStore
    var refreshAccessTokenPromise: Option<nat>

    constructor (session: SessionStore)
      ensures this.session == session && refreshAccessTokenPromise == None
    {
      this.session := session;
      refreshAccessTokenPromise := None;
    }

    /** `refresh` in runAccessTokenRefresh, up to the request it may send. */
    method Refresh(failedToken: string) returns (begun: Begun)
      modifies session`channelOpen
      ensures begun == Begin(session.State(), failedToken)
      ensures session.channelOpen == (old(session.channelOpen) || session.broadcastSupported)
    {
      var currentToken := session.ReadAccessToken();
      if currentToken != "" && currentToken != failedToken {
        return Reused(currentToken);
      }
      var startedRevision := session.ReadSessionRevision();
      return Asked(startedRevision);
    }

    /** requestAccessTokenRefresh, from the answer to its result. */
    method FinishRefresh(startedRevision: nat, answer: Answer) returns (outcome: Outcome)
      modifies session
      ensures outcome == AnswerOutcome(answer)
      ensures session.State() == AfterAnswer(old(session.State()), startedRevision, answer)
      ensures session.broadcastSupported ==>
                && session.posted == old(session.posted) + AnswerPosts(old(session.State()), answer)
                && (session.State() != old(session.State()) || old(session.channelOpen) ==> session.channelOpen)
      ensures answer.Tokens? && answer.accessToken != "" ==>
                && outcome == Token(answer.accessToken)
                && session.accessToken == answer.accessToken
                && session.sessionID == (if answer.sessionID.Some? then answer.sessionID.value else old(session.sessionID))
                && (session.broadcastSupported ==>
                      session.posted == old(session.posted)
                                        + if session.accessToken != old(session.accessToken)
                                             || session.sessionID != old(session.sessionID)
                                          then [Snapshot(session.accessToken, session.sessionID)] else [])
      ensures (answer.Tokens? && answer.accessToken == "") || IsSessionTerminating(answer) ==>
                && outcome == Token("")
                && session.State().snapshot
                   == if old(session.sessionRevision) == startedRevision then Snapshot("", "") else old(session.State().snapshot)
      ensures !answer.Tokens? && !IsSessionTerminating(answer) ==>
                outcome == Rejected(answer) && session.State() == old(session.State())
    {
      if answer.Tokens? {
        if answer.accessToken == "" {
          var revision := session.ReadSessionRevision();
          if revision == startedRevision {
            session.ClearSessionSnapshot(false);
          }
          return Token("");
        }
        session.ApplySessionSnapshot(Partial(Some(answer.accessToken), answer.sessionID), true);
        return Token(answer.accessToken);
      }
      if IsSessionTerminating(answer) {
        var revision := session.ReadSessionRevision();
        if revision == startedRevision {
          session.ClearSessionSnapshot(false);
        }
        return Token("");
      }
      return Rejected(answer);
    }

    /** refreshAccessToken: join the refresh in flight, or start one under the name `next`. */
    method RefreshAccessToken(next: nat) returns (promise: nat, started: bool)
      modifies this`refreshAccessTokenPromise
      ensures started == old(refreshAccessTokenPromise).None?
      ensures promise == if started then next else old(refreshAccessTokenPromise).value
      ensures refreshAccessTokenPromise == Some(promise)
    {
      started := refreshAccessTokenPromise.None?;
      if started {
        refreshAccessTokenPromise := Some(next);
      }
      promise := refreshAccessTokenPromise.value;
    }

    /** The `finally` callback: whatever the outcome, the slot is free again. */
    method Settled()
      modifies this`refreshAccessTokenPromise
      ensures refreshAccessTokenPromise == None
    {
      refreshAccessTokenPromise := None;
    }

    /** recoverAccessToken, up to joining a refresh. */
    method Recover(failedToken: string) returns (recovered: Option<string>)
      modifies session`channelOpen
      ensures recovered == Recovered(session.State(), failedToken)
      ensures session.channelOpen == (old(session.channelOpen) || session.broadcastSupported)
    {
      var currentToken := session.ReadAccessToken();
      if currentToken != "" && currentToken != failedToken {
        return Some(currentToken);
      }
      return None;
    }

    /** The failure branch of the retry. */
    method FinishRetry(answer: Answer)
      modifies session
      ensures session.State() == AfterRetry(old(session.State()), answer)
      ensures session.broadcastSupported ==>
                && session.posted == old(session.posted)
                && session.channelOpen == (old(session.channelOpen) || session.State() != old(session.State()))
    {
      if IsSessionTerminating(answer) {
        session.ClearSessionSnapshot(false);
      }
    }
  }

  function Recovered(s: SessionState, failedToken: string): Option<string> {
    var current := s.snapshot.accessToken;
    if current != "" && current != failedToken then Some(current) else None
  }
}
