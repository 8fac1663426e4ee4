/**
 The session snapshot of one browser tab (frontend/shared/auth/session.ts).

 The functions say what each entry point does to the snapshot, the revision and
 the channel; the class is the module's state, updated in place.
 */
module Session {
  import opened Text

  datatype Snapshot = Snapshot(accessToken: string, sessionID: string)

  const NO_SESSION := Snapshot("", "")

  /** A partial write: a missing field keeps its value. */
  datatype Partial = Partial(accessToken: Option<string>, sessionID: Option<string>)

  datatype SessionState = SessionState(snapshot: Snapshot, revision: nat)

  function Merge(snapshot: Snapshot, next: Partial): Snapshot {
    Snapshot(if next.accessToken.Some? then next.accessToken.value else snapshot.accessToken,
             if next.sessionID.Some? then next.sessionID.value else snapshot.sessionID)
  }

  function Whole(snapshot: Snapshot): Partial {
    Partial(Some(snapshot.accessToken), Some(snapshot.sessionID))
  }

  function Written(s: SessionState, next: Partial): SessionState {
    var merged := Merge(s.snapshot, next);
    if merged == s.snapshot then s else SessionState(merged, s.revision + 1)
  }

  /** What a write posts to the other tabs. */
  function Posted(s: SessionState, next: Partial, syncPeers: bool): seq<Snapshot> {
    if syncPeers && Merge(s.snapshot, next) != s.snapshot then [Merge(s.snapshot, next)] else []
  }

  /** The revision counts the real changes, one each. */
  lemma RevisionCountsChanges(s: SessionState, next: Partial)
    ensures var after := Written(s, next);
            && after.snapshot == Merge(s.snapshot, next)
            && after.revision == s.revision + (if after.snapshot != s.snapshot then 1 else 0)
    ensures Written(Written(s, next), next) == Written(s, next)
    ensures Merge(s.snapshot, Whole(NO_SESSION)) == NO_SESSION
  {
  }

  /** The module state of session.ts.  `posted` records the messages sent on the channel, oldest first. */
  class SessionStore {
    const broadcastSupported: bool
    var accessToken: string
    var sessionID: string
    var sessionRevision: nat
    var channelOpen: bool
    var posted: seq<Snapshot>

    constructor (broadcastSupported: bool)
      ensures this.broadcastSupported == broadcastSupported
      ensures State() == SessionState(NO_SESSION, 0) && posted == [] && !channelOpen
    {
      this.broadcastSupported := broadcastSupported;
      accessToken, sessionID, sessionRevision := "", "", 0;
      channelOpen, posted := false, [];
    }

    function State(): SessionState
      reads this
    {
      SessionState(Snapshot(accessToken, sessionID), sessionRevision)
    }

    method EnsureSessionChannel()
      modifies this`channelOpen
      ensures channelOpen == (old(channelOpen) || broadcastSupported)
    {
      if !channelOpen && broadcastSupported {
        channelOpen := true;
      }
    }

    method ReadAccessToken() returns (token: string)
      modifies this`channelOpen
      ensures token == accessToken && channelOpen == (old(channelOpen) || broadcastSupported)
    {
      EnsureSessionChannel();
      token := accessToken;
    }

    method ReadSessionRevision() returns (revision: nat)
      modifies this`channelOpen
      ensures revision == sessionRevision && channelOpen == (old(channelOpen) || broadcastSupported)
    {
      EnsureSessionChannel();
      revision := sessionRevision;
    }

    /** The event within the tab carries a snapshot, and reading one opens the channel. */
    method DispatchSessionSnapshotChanged()
      modifies this`channelOpen
      ensures channelOpen == (old(channelOpen) || broadcastSupported)
    {
      EnsureSessionChannel();
    }

    method PublishSessionSnapshotChanged()
      modifies this`channelOpen, this`posted
      ensures channelOpen == (old(channelOpen) || broadcastSupported)
      ensures posted == old(posted) + if channelOpen then [State().snapshot] else []
    {
      EnsureSessionChannel();
      if channelOpen {
        posted := posted + [Snapshot(accessToken, sessionID)];
      }
    }

    method ApplySessionSnapshot(next: Partial, syncPeers: bool)
      modifies this
      ensures State() == Written(old(State()), next)
      ensures accessToken == if next.accessToken.Some? then next.accessToken.value else old(accessToken)
      ensures sessionID == if next.sessionID.Some? then next.sessionID.value else old(sessionID)
      ensures sessionRevision == old(sessionRevision)
                                 + if accessToken != old(accessToken) || sessionID != old(sessionID) then 1 else 0
      ensures broadcastSupported ==>
                && posted == old(posted) + Posted(old(State()), next, syncPeers)
                && channelOpen == (old(channelOpen) || State() != old(State()))
      ensures !broadcastSupported && !old(channelOpen) ==> posted == old(posted) && !channelOpen
    {
      var previousAccessToken, previousSessionID := accessToken, sessionID;
      if next.accessToken.Some? {
        accessToken := next.accessToken.value;
      }
      if next.sessionID.Some? {
        sessionID := next.sessionID.value;
      }
      if accessToken != previousAccessToken || sessionID != previousSessionID {
        sessionRevision := sessionRevision + 1;
        DispatchSessionSnapshotChanged();
        if syncPeers {
          PublishSessionSnapshotChanged();
        }
      }
    }

    /** A message from another tab; one of another shape is ignored.  It is never passed on. */
    method OnMessage(message: Option<Snapshot>)
      modifies this
      ensures State() == if message.Some? then Written(old(State()), Whole(message.value)) else old(State())
      ensures broadcastSupported ==>
                posted == old(posted) && channelOpen == (old(channelOpen) || State() != old(State()))
      ensures !broadcastSupported && !old(channelOpen) ==> posted == old(posted) && !channelOpen
    {
      if message.Some? {
        ApplySessionSnapshot(Whole(message.value), false);
      }
    }

    method ClearSessionSnapshot(syncPeers: bool)
      modifies this
      ensures State() == Written(old(State()), Whole(NO_SESSION))
      ensures State().snapshot == NO_SESSION
      ensures broadcastSupported ==>
                && posted == old(posted) + Posted(old(State()), Whole(NO_SESSION), syncPeers)
                && channelOpen == (old(channelOpen) || State() != old(State()))
      ensures !broadcastSupported && !old(channelOpen) ==> posted == old(posted) && !channelOpen
    {
      ApplySessionSnapshot(Whole(NO_SESSION), syncPeers);
    }
  }
}
