# Client protocols of DEEIX-Chat, verified

The web client of DEEIX-Chat reads message streams, follows run events, keeps a login
alive across browser tabs and drives a few stateful components. This project models that
code in Dafny and proves what it is relied on for.

- **Message streams** (`JsonSplitter`, `JsonGrammar`, `StreamReader`,
  `StreamOutcome`). A reply arrives in
  pieces cut anywhere. A brace counter takes complete JSON objects off the front of a
  buffer; a dispatcher turns each into callbacks and keeps the outcome. The splitter is
  characterized by an if-and-only-if that does not mention it (blanks and balanced
  documents, interleaved, then a remainder holding no complete document). It is proved to
  commute with cutting, and to return exactly the objects of any stream printed by the
  grammar of RFC 8259 (sections 2 to 7). The reader's whole behaviour is a function of the
  concatenated text. What the dispatcher is offered, every callback and every outcome are
  stated in terms of the text and its parsed events alone.
- **Server-sent events** (`EventStream`). Frames are cut at `\r?\n\r?\n`, for any cut of
  the text, even inside a separator. The frame reader is proved equal to a line-by-line
  reader in the manner of the HTML Living Standard, sections 9.2.5 and 9.2.6.
- **Token refresh** (`Session`, `RefreshClient`, `RefreshProtocol`, `RefreshSteps`,
  `RefreshSafety`). Any
  number of tabs, each with a session, a revision counter, a single-flight slot and its
  calls, sharing a lock and a channel. One step is one segment between awaits; the same
  functions specify the segments written as methods on the modules' state. What every step
  keeps gives the results about every run; three things the code does not give are stated
  with their exact condition or a run that shows them.
- **Notification sender cache** (`NotificationCache`). The cached answer is the uncached
  one after any history, and the same sender is handed out exactly as long as it should be.
- **Smaller machines**: page ranges of the OCR services (`PageRanges`), the sidebar's hover
  locks, reveal transition and viewport rule (`SidebarHover`, `SidebarReveal`,
  `SidebarViewport`), the logo carousel (`LogoCarousel`), onboarding (`Onboarding`) and
  request batching (`Batching`).

`Text` holds what several modules share: blanks as `\s` sees them, trimming, concatenation.

Check everything with `dafny verify dfyconfig.toml`.

Where the source changes state in place the model is a class or a loop, proved equal to a
function; the results are about that function.

## Model

| member | source | states |
|---|---|---|
| JsonSplitter.ExtractJSONDocuments | frontend/shared/api/conversation.ts:166-236 | the single pass with start index, depth, string and escape flags returns the documents and remainder of the recursive `Extract`, on every text |
| Text.BlankCharacters | frontend/shared/api/conversation.ts:182 | the blanks are exactly the WhiteSpace and LineTerminator characters of ECMA-262, listed one by one |
| Text.TrimMeaning | frontend/shared/api/conversation.ts:1178 | trimming takes blanks off both ends, and what it leaves is empty or begins and ends with something else |
| Text.TrimOfCore | frontend/shared/api/conversation.ts:883 | of a text between blanks, that begins and ends with something else, exactly that text is left |
| JsonSplitter.DocumentEndIffDocument | frontend/shared/api/conversation.ts:190-222 | the scan stops at `k` if and only if the first `k` characters are brace-balanced outside strings and no proper prefix is |
| JsonSplitter.ExtractIsLossless | frontend/shared/api/conversation.ts:166-236 | the text is blanks and complete documents interleaved, followed by the remainder, which is empty or starts with a non-blank and has no complete document in front |
| JsonSplitter.ExtractIsUnique | frontend/shared/api/conversation.ts:166-236 | there is only one such reading of a text, the splitter's |
| JsonSplitter.ExtractCharacterized | frontend/shared/api/conversation.ts:166-236 | if and only if: given documents and remainder are the result exactly when some blanks make them such a reading |
| JsonSplitter.ExtractAppend | frontend/shared/api/conversation.ts:1164-1167 | docs(a+b) is docs(a) followed by docs(remainder(a)+b), with the same final remainder |
| JsonSplitter.RemainderIsStable | frontend/shared/api/conversation.ts:1166-1167 | extracting a remainder again gives no document and the same remainder |
| JsonSplitter.FeedIsExtract | frontend/shared/api/conversation.ts:1152-1176 | append, extract, keep the remainder: over any chunks this gives the documents and remainder of one extraction of the whole text |
| JsonGrammar.ItemsKeepString | frontend/shared/api/conversation.ts:190-199 | reading any printed string body, escaped quotes, backslashes and braces included, leaves the scan inside the string at the same depth |
| JsonGrammar.ValueIsNeutral | frontend/shared/api/conversation.ts:190-218 | a printed value of any nesting returns the scan to where it was and never goes below that depth |
| JsonGrammar.ObjectIsDocument | frontend/shared/api/conversation.ts:166-236 | every printed object is one complete document |
| JsonGrammar.ExtractPrinted | frontend/shared/api/conversation.ts:166-236 | objects printed per RFC 8259 with any blanks between them come back as exactly those texts, with nothing left |
| JsonGrammar.FeedPrinted | frontend/shared/api/conversation.ts:1152-1176 | the same for every way of cutting the printed stream into chunks |
| JsonGrammar.TextsStartNonBlank | frontend/shared/api/conversation.ts:177-188 | no JSON text starts with a blank |
| JsonGrammar.WhitespaceSeparatedComesBack | frontend/shared/api/conversation.ts:1152-1176 | printed objects separated by any spaces, tabs, line feeds and carriage returns come back for every way of cutting the stream |
| JsonGrammar.LinesComeBack | frontend/shared/api/conversation.ts:1152-1176 | so do objects written one a line, each ended by a line feed, as backend/internal/transport/http/conversation/handler_message_send.go writes them |
| StreamReader.DispatchByKind | frontend/shared/api/conversation.ts:238-324 | an event makes exactly the callbacks that belong to its kind, with its own content, each once, its number first; it throws exactly if it is an error without data or of no known kind, and returns only the data of a completed event or an error |
| StreamReader.ConversationStream.ConsumeEvent | frontend/shared/api/conversation.ts:1142-1150 | one document updates block, payload and callbacks as `Consume` says, or raises its error |
| StreamReader.ConversationStream.ReadConversationStream | frontend/shared/api/conversation.ts:1128-1184 | callbacks, payload, block and error are a function of the whole text and of how reading ended, never of the cuts |
| StreamReader.ErrorIsFinal | frontend/shared/api/conversation.ts:1169-1171 | an error among the documents read so far is the error of the whole stream, whatever comes later |
| StreamReader.QuietProgress | frontend/shared/api/conversation.ts:1142-1150 | if nothing throws, every callback is made in order and the last block and the last payload are kept |
| StreamReader.FirstThrowWins | frontend/shared/api/conversation.ts:1169-1181 | the first throwing document decides the error, and the callbacks are those up to it |
| StreamReader.ThrowDecides | frontend/shared/api/conversation.ts:1222-1238 | a throw comes before any block or payload, earlier or later |
| StreamReader.FailedReadDecides | frontend/shared/api/conversation.ts:1154-1161 | a read that fails after quiet documents is the outcome, as an abort if the signal was aborted |
| StreamReader.QuietStreamOutcome | frontend/shared/api/conversation.ts:1222-1238 | otherwise the last moderation block, then the last payload, then the missing-payload error |
| StreamReader.PostSucceedsIff | frontend/shared/api/conversation.ts:1203-1239 | success with a payload if and only if reading ended, nothing threw, nothing was blocked and that payload was the last |
| StreamReader.PostMessageStreamRequest | frontend/shared/api/conversation.ts:1218-1238 | an empty body is an error; otherwise the outcome of the whole text, payload required |
| StreamReader.ResumeMessageGenerationStream | frontend/shared/api/conversation.ts:1029-1046 | an empty body is no result; otherwise the outcome of the whole text, payload optional |
| StreamReader.PrintedStreamItems | frontend/shared/api/conversation.ts:1164-1181 | on a well-formed stream the dispatcher sees exactly the printed objects and no tail |
| StreamOutcome.OffersIff | frontend/shared/api/conversation.ts:1164-1181 | what the dispatcher is offered: the documents of the text and, only if it was read to the end, the rest without the blanks after it unless there is none; if and only if |
| StreamOutcome.StreamComes | frontend/shared/api/conversation.ts:1203-1239 | the outcome of every stream in terms of its parsed items: the error of the first bad one with its message and status, else the failed read, else the last block, else the last payload, else the missing payload |
| StreamOutcome.TruncatedStreamFails | frontend/shared/api/conversation.ts:1178-1181 | a stream that ends cleanly inside an object fails as malformed, even after a completed event |
| StreamOutcome.StreamCalls | frontend/shared/api/conversation.ts:238-324 | the callbacks of a stream are those of the items up to the first bad one, item by item, each event making exactly its own |
| EventStream.CrossingMatch | frontend/shared/api/conversation.ts:875 | a separator that spans a cut starts in text that is still all one piece |
| EventStream.SplitAppend | frontend/shared/api/conversation.ts:875-876 | more text can change only the last piece |
| EventStream.ActiveRunStream.ConsumeFrames | frontend/shared/api/conversation.ts:873-893 | delivers the finished frames of the buffer (all of them on a flush) and keeps the last piece (nothing on a flush) |
| EventStream.ActiveRunStream.DeliverFrame | frontend/shared/api/conversation.ts:878-891 | one frame delivers what its joined and trimmed data lines parse to, or nothing if empty or malformed |
| EventStream.ActiveRunStream.ReadAll | frontend/shared/api/conversation.ts:895-907 | over all reads and the flush the events are those of the split of the whole text, and the buffer ends empty; if a read fails, exactly the finished frames of the text read so far were delivered |
| EventStream.FramesAreDispatches | frontend/shared/api/conversation.ts:873-892 | cutting into frames and then lines collects the same payloads as reading lines and dispatching at each blank one and at the end |
| EventStream.ReaderIsLineReader | frontend/shared/api/conversation.ts:873-892 | so the reader delivers the events of the line-by-line reading |
| EventStream.JoinMeaning | frontend/shared/api/conversation.ts:882 | one line is itself, and between any two parts there is one line feed |
| EventStream.CoreMessage | frontend/shared/api/conversation.ts:878-883 | data lines that keep their ends arrive as they are, joined |
| EventStream.EncodedComesBack | frontend/shared/api/conversation.ts:873-892 | events written with several data lines, blanks around the data, other fields and comments among them and either line ending anywhere arrive as their joined and trimmed data; events without data do not arrive |
| EventStream.EventsComeBack | frontend/shared/api/conversation.ts:873-892 | and if all of it parses, the delivered events are its parses, in order |
| Session.RevisionCountsChanges | frontend/shared/auth/session.ts:82-94 | a write merges, raises the revision by one if and only if the snapshot changed, and is idempotent |
| Session.SessionStore.ApplySessionSnapshot | frontend/shared/auth/session.ts:82-94 | the new state, what is posted to peers (once, only on a change, only if asked) and whether the channel is open |
| Session.SessionStore.OnMessage | frontend/shared/auth/session.ts:50-56 | a peer's snapshot is written and never passed on; anything else is ignored |
| Session.SessionStore.PublishSessionSnapshotChanged | frontend/shared/auth/session.ts:75-80 | posts the current snapshot if the channel can be opened |
| Session.SessionStore.ClearSessionSnapshot | frontend/shared/auth/session.ts:126-134 | the session is empty afterwards; a change counts and is posted like any other |
| Session.SessionStore.EnsureSessionChannel | frontend/shared/auth/session.ts:38-62 | the channel is open afterwards exactly when it was or the browser supports it |
| RefreshClient.NewerSessionSurvives | frontend/shared/api/authed-client.ts:45-72 | an answer without a token changes the session if and only if it ends sessions, the revision is the starting one and there is a session; the change empties it |
| RefreshClient.SessionTerminatingIff | frontend/shared/api/authed-client.ts:30-43 | exactly three error codes end a session, and only with status 401 |
| RefreshClient.AuthedClient.Refresh | frontend/shared/api/authed-client.ts:74-81 | a current token other than the failed one is reused without a request; otherwise the revision is noted and the server asked |
| RefreshClient.AuthedClient.FinishRefresh | frontend/shared/api/authed-client.ts:48-71 | a token is stored with the session ID of the answer, if it has one, and a change is posted once as exactly the new snapshot; no token or an ended session empties the session if the revision is the starting one and gives no token; any other error is passed on |
| RefreshClient.AuthedClient.RefreshAccessToken | frontend/shared/api/authed-client.ts:91-98 | joins the refresh in flight or starts one; afterwards the slot names it |
| RefreshClient.AuthedClient.Recover | frontend/shared/api/authed-client.ts:100-106 | returns a current token other than the failed one, or asks for a refresh |
| RefreshClient.AuthedClient.FinishRetry | frontend/shared/api/authed-client.ts:139-144 | an error that ends sessions clears the session, with no look at the revision and no post |
| RefreshProtocol.StepKeepsInv | frontend/shared/api/authed-client.ts:74-224 | every step keeps: a slot names exactly its tab's unfinished refresh, the lock is held by the one waiting for the server, and what calls know of what they joined |
| RefreshProtocol.RunKeepsInv | frontend/shared/api/authed-client.ts:36-224 | so does every run |
| RefreshSteps.TokenIsStored | frontend/shared/api/authed-client.ts:58-62 | an answered refresh stores the token and the answer's session ID, or keeps the old one, and posts exactly that snapshot once to each other listening tab if it is new |
| RefreshSteps.NoTokenIsStored | frontend/shared/api/authed-client.ts:51-70 | every other answer posts nothing, empties the session or leaves it, and gives no token or the error |
| RefreshSteps.LockedBeginning | frontend/shared/api/authed-client.ts:46-81 | a refresh that begins under the lock takes another token its tab holds, or asks and notes the current revision |
| RefreshSteps.LockIsRefused | frontend/shared/api/authed-client.ts:83-95 | a refused lock request ends the refresh with an error and changes nothing else |
| RefreshSteps.JoiningOrStarting | frontend/shared/api/authed-client.ts:91-98 | a caller joins the refresh of its tab or starts one for its own failed token |
| RefreshSteps.AfterFirstAnswer | frontend/shared/api/authed-client.ts:113-133 | an aborted call ends as aborted and starts no refresh, other errors end the call, an unauthorized one retries with another token of the tab or waits for its refresh |
| RefreshSteps.AfterWaiting | frontend/shared/api/authed-client.ts:125-138 | after the wait a call passes on the error, ends as aborted, fails with its own error for want of a token, or retries with the token |
| RefreshSteps.AfterRetryAnswer | frontend/shared/api/authed-client.ts:134-145 | the second answer is the last |
| RefreshSteps.WriteIsStored | frontend/shared/auth/session.ts:82-94 | a write stores the fields it brings, keeps the others, and posts the new snapshot once to each other listening tab if something changed and it should be announced |
| RefreshSteps.OtherTabsKeepTheirs | frontend/shared/auth/session.ts:82-94 | no step changes the session of a tab other than the one that writes |
| RefreshSafety.OneRefreshAtATime | frontend/shared/api/authed-client.ts:74-98 | in every run with locks at most one refresh request is outstanding over all tabs; without locks at most one per tab |
| RefreshSafety.SlotIsFreeIffSettled | frontend/shared/api/authed-client.ts:91-98 | in every run a tab's slot is free if and only if all its refreshes are done |
| RefreshSafety.JoinedCallersAgree | frontend/shared/api/authed-client.ts:91-146 | in every run any two callers that joined one refresh hear one outcome, that of the refresh, once they no longer wait; each then passes it on, fails with its error, fails with its own error for want of a token, or retries with the token, unless aborted |
| RefreshSafety.HeardForever | frontend/shared/api/authed-client.ts:125-146 | what a call joined and what it heard never change |
| RefreshSafety.DoneForever | frontend/shared/api/authed-client.ts:91-98 | a settled refresh keeps its outcome for the rest of every run |
| RefreshSafety.SameRequest | frontend/shared/api/authed-client.ts:45-72 | a request outstanding at two points of a run is the same request with the same starting revision |
| RefreshSafety.BringsIff | frontend/shared/api/authed-client.ts:45-89 | in every run a refresh brings a token if and only if its tab held it when the refresh began for another token, or the server sent it |
| RefreshSafety.CallTheorem | frontend/shared/api/authed-client.ts:108-224 | a call sends at most two requests, the second with a token, which is the one that failed if and only if the call waited for a refresh that was given that token by one of those branches |
| RefreshSafety.FailedTokenComesBackIff | frontend/shared/api/authed-client.ts:125-138 | the same before the retry: an unaborted call resumes with its failed token if and only if the refresh it waited for was given that token |
| RefreshSafety.SomethingCanHappen | frontend/shared/api/authed-client.ts:74-98 | while a refresh is unfinished some step of the lock, the server or the event loop is possible |
| RefreshSafety.RefreshesSettle | frontend/shared/api/authed-client.ts:74-98 | those steps are bounded, and none is possible any more if and only if every refresh is done |
| RefreshSafety.StepRevision | frontend/shared/auth/session.ts:82-94 | every step of the protocol raises a tab's revision by one if it changed its snapshot, and leaves it otherwise |
| RefreshSafety.RevisionCounts | frontend/shared/auth/session.ts:82-94 | over every run the revision grows by the number of real changes |
| RefreshSafety.EqualRevisionsMeanUnchanged | frontend/shared/auth/session.ts:82-94 | equal revisions at two points of a run mean the same session at every point between, even if a token value recurs |
| RefreshSafety.NewerSessionIsKept | frontend/shared/api/authed-client.ts:45-72 | a refresh without a token never erases a session written after it started, in any run |
| RefreshSafety.PostNeverEchoes | frontend/shared/auth/session.ts:75-80 | a post reaches listening tabs other than its sender, each with the posted snapshot |
| RefreshSafety.DeliveryDrains | frontend/shared/auth/session.ts:50-56 | a delivery takes exactly one message off the channel and adds none |
| RefreshSafety.Delivered | frontend/shared/auth/session.ts:50-56 | the receiver of a message holds its snapshot afterwards, every other tab what it held |
| RefreshSafety.DrainingRun | frontend/shared/auth/session.ts:50-56 | so the channel empties after as many deliveries as it has messages |
| RefreshSafety.StepConverges | frontend/shared/auth/session.ts:50-94 | if one tab alone changes its session and announces each change, every step, failed and stale refreshes of any tab included, keeps every tab on the way to that tab's session |
| RefreshSafety.OneWriterConverges | frontend/shared/auth/session.ts:50-94 | so whenever the channel is empty all tabs hold the writer's session, in every such run |
| RefreshSafety.EqualStartsConverge | frontend/shared/auth/session.ts:50-94 | equal listening starts satisfy what `OneWriterConverges` needs |
| RefreshSafety.AgreedTabsAgree | frontend/shared/auth/session.ts:50-94 | any writers: if every sender's last message to every tab says `v`, and tabs without messages hold `v`, every order of delivery ends with `v` everywhere |
| RefreshSafety.DisagreementIsPossible | frontend/shared/auth/session.ts:50-94 | and only then: otherwise some order of delivery leaves a tab with something else |
| RefreshSafety.WithoutLocksTwoTabsAsk | frontend/shared/api/authed-client.ts:83-86 | without locks, from every start, any two tabs that refresh the token they hold have two requests outstanding at once |
| RefreshSafety.TwoWritersCanSwap | frontend/shared/auth/session.ts:75-94 | two tabs writing at once can end with each other's session |
| RefreshSafety.FailedTokenCanComeBack | frontend/shared/api/authed-client.ts:91-106 | a run in which that happens: the call joined a refresh started for no token |
| RefreshSafety.RetryErasesIff | frontend/shared/api/authed-client.ts:139-142 | a failed retry changes the session if and only if the error ends sessions and there is one; whoever wrote it and when does not matter |
| RefreshSafety.RetryCanEraseNewLogin | frontend/shared/api/authed-client.ts:139-142 | a retry sent before a login can erase that login |
| NotificationCache.CompanionNotificationProvider.Provide | backend/internal/app/companion_notification.go:18-41 | the closure's variables and its result for every configuration, the disabled and the refused one included |
| NotificationCache.CallMatchesUncached | backend/internal/app/companion_notification.go:18-41 | a call keeps the cache coherent, agrees with a provider without a cache and builds at most one client |
| NotificationCache.AfterIsCoherent | backend/internal/app/companion_notification.go:13-41 | any sequence of calls keeps the cache coherent |
| NotificationCache.ProviderMatchesUncached | backend/internal/app/companion_notification.go:13-41 | after any history the answer is empty or wholly built from the current config, AppID and secret, as without a cache |
| NotificationCache.SenderIff | backend/internal/app/companion_notification.go:21-40 | after any history a sender is handed out if and only if the settings parse and are enabled, both trimmed credentials are there and the client accepts the fields; everything in it is of the current settings |
| NotificationCache.SameSenderIff | backend/internal/app/companion_notification.go:24-40 | for the same key the same client is returned if and only if nothing in between disabled notifications or built another |
| NotificationCache.DroppedWhenNotKept | backend/internal/app/companion_notification.go:24-40 | a client once dropped never comes back |
| PageRanges.ParsePageRanges | docker/tesseract/app.py:23-54 | the nested loops return the sorted selection for every text and page count |
| PageRanges.ResultMeaning | docker/rapidocr/app.py:19-50 | strictly increasing, within 1..total, exactly the selected pages, and not empty if the document is not |
| PageRanges.SelectedIff | docker/tesseract/app.py:23-54 | a page comes out if and only if the document has it and the text is blank, or some part asks for it, or no part asks for any page |
| PageRanges.SinglePart | docker/tesseract/app.py:48-53 | what a part without a dash asks for |
| PageRanges.DashedPart | docker/tesseract/app.py:34-47 | what a part with a dash asks for, cut at the first one |
| PageRanges.PartsAreTheText | docker/tesseract/app.py:30 | the parts are the text cut at every comma |
| PageRanges.IncreasingIsUnique | docker/tesseract/app.py:54 | strictly increasing lists with the same pages are equal, so the selection determines the result |
| PageRanges.OrderAndRepeatsDoNotMatter | docker/tesseract/app.py:30-53 | texts with the same set of parts give the same result |
| PageRanges.WrittenRange | docker/tesseract/app.py:34-47 | `a-b` selects the pages from a to b within the total, for b below a just a, and nothing for a zero; of `int` this needs only numerals up to the larger of a and b |
| PageRanges.RangesRoundTrip | docker/tesseract/app.py:23-54 | a printed list of ranges gives exactly the pages of the ranges, if `int` reads the numerals up to the total |
| PageRanges.PagesRoundTrip | docker/tesseract/app.py:23-54 | a run-length printing of any non-empty set of pages within 1..total gives that set back, on the same condition |
| PageRanges.PlainIffWithinLimit | docker/tesseract/app.py:36-50 | a reader that refuses more than so many digits meets that condition if and only if the total has no more digits |
| PageRanges.PlainIsPossible | docker/tesseract/app.py:36-50 | with the 4300 digits of Python 3.11 it is met for every document of fewer than 10^4300 pages |
| SidebarHover.StepKeepsInv | frontend/components/ui/sidebar.tsx:386-481 | every event keeps: the count is that of the unreleased locks, a timer is pending only with none held and the pointer outside; a second release does nothing and the clamp never acts |
| SidebarHover.TimerFiresOnlyWhenFree | frontend/components/ui/sidebar.tsx:386-409 | in every run a timer about to fire is the only one and nothing is held or hovered |
| SidebarHover.HeldStaysExpanded | frontend/components/ui/sidebar.tsx:394-409 | in every run an expanded sidebar stays so until the held lock is released or hovering is switched off |
| SidebarHover.HoveredStaysExpanded | frontend/components/ui/sidebar.tsx:452-481 | and until the pointer leaves |
| SidebarHover.ExpandedIff | frontend/components/ui/sidebar.tsx:386-481 | what expands the sidebar and what collapses it |
| SidebarHover.PendingIff | frontend/components/ui/sidebar.tsx:386-481 | when a collapse is pending: from the last release outside or the mouse's leaving, until a lock, the pointer or a reset |
| SidebarHover.ResetCollapses | frontend/components/ui/sidebar.tsx:416-421 | once hovering is switched off the sidebar is collapsed and no timer is pending |
| SidebarHover.StuckIff | frontend/components/ui/sidebar.tsx:469-481 | an expanded, free sidebar always has a timer, lost if and only if the pointer leaves as something else than an enabled mouse |
| SidebarHover.TouchLeaveSticks | frontend/components/ui/sidebar.tsx:469-481 | a run in which that happens |
| SidebarHover.SidebarHoverState.ReleaseHoverExpansionLock | frontend/components/ui/sidebar.tsx:399-408 | the refs after a release |
| SidebarHover.SidebarHoverState.HandlePointerLeave | frontend/components/ui/sidebar.tsx:469-481 | the refs after the pointer leaves |
| SidebarReveal.StepKeepsInv | frontend/components/ui/sidebar.tsx:362-497 | every event keeps: target ref, reducer target and visual state agree; resizing exactly while one timer is pending; at rest layout is target; an expanded target has an expanded layout |
| SidebarReveal.ReducerMeaning | frontend/components/ui/sidebar-hover-transition.ts:20-47 | a settle for another target is ignored; collapsing keeps the layout until then |
| SidebarReveal.PendingTimerEndsResize | frontend/components/ui/sidebar.tsx:439-441 | in every run the pending timer is the only one and its firing settles the layout at the current target |
| SidebarReveal.LayoutCollapsesIff | frontend/components/ui/sidebar-hover-transition.ts:20-47 | an expanded layout collapses exactly at the end of a collapse, or at once without animation |
| SidebarReveal.AnimatesIff | frontend/components/ui/sidebar.tsx:423-442 | a change is animated in both directions exactly where reveals are used and motion is not reduced |
| SidebarReveal.EffectAgainIff | frontend/components/ui/sidebar.tsx:423-442 | running the effect without a change does harm if and only if a resize is in progress |
| SidebarReveal.SidebarRevealState.LayoutEffect | frontend/components/ui/sidebar.tsx:423-442 | reducer state, target ref and timers after the effect |
| SidebarViewport.RunRespectsIntent | frontend/components/ui/sidebar.tsx:180-250 | in every run open or auto-collapsed implies wished, auto-collapsed implies closed; the converse in runs that do not forget |
| SidebarViewport.RememberedIff | frontend/components/ui/sidebar.tsx:222-226 | an event forgets the wish if and only if it narrows the window while auto-collapsed |
| SidebarViewport.WideShowsIntent | frontend/components/ui/sidebar.tsx:238-249 | on a wide window the sidebar shows exactly what the user wished, in runs that did not forget |
| SidebarViewport.AskedIsShown | frontend/components/ui/sidebar.tsx:194-214 | what the user asks for is shown at once, on any window |
| SidebarViewport.ResizedIs | frontend/components/ui/sidebar.tsx:216-250 | below 1180 pixels the sidebar closes, from 1360 on it opens again if it closed by itself, in between nothing changes |
| SidebarViewport.NarrowTwiceForgets | frontend/components/ui/sidebar.tsx:222-226 | a run that forgets |
| SidebarViewport.SidebarProviderState.ViewportEffect | frontend/components/ui/sidebar.tsx:216-250 | open state and refs after the effect |
| SidebarViewport.SidebarProviderState.SetOpen | frontend/components/ui/sidebar.tsx:194-214 | open state and refs after the user's choice |
| LogoCarousel.ShuffleArray | frontend/components/ui/logo-carousel.tsx:24-31 | for any random choices a permutation, in a fresh array |
| LogoCarousel.DistributeLogos | frontend/components/ui/logo-carousel.tsx:35-57 | nothing for no logos or columns; otherwise columns of length ceil(n/c), dealt round robin from a permutation and padded from the input |
| LogoCarousel.RowMajorIsShuffled | frontend/components/ui/logo-carousel.tsx:43-54 | read row by row such columns are the permutation and then padding |
| LogoCarousel.EveryLogoAppears | frontend/components/ui/logo-carousel.tsx:43-54 | every logo appears, and exactly c*ceil(n/c)-n entries, fewer than c, are padding from the input |
| LogoCarousel.IndexInBoundsIff | frontend/components/ui/logo-carousel.tsx:73-79 | for a positive interval the index is in bounds if and only if time is not negative or an integer multiple of the whole cycle |
| LogoCarousel.NegativeTimeIsOut | frontend/components/ui/logo-carousel.tsx:73-79 | at every time less than one cycle before zero the index is negative |
| LogoCarousel.LogoOnShow | frontend/components/ui/logo-carousel.tsx:73-79 | from time zero on the logo is the number of whole intervals passed, modulo the number of logos |
| LogoCarousel.LogoMovesOn | frontend/components/ui/logo-carousel.tsx:73-79 | the first at time zero, and one further after each interval |
| Onboarding.WalkOnALine | frontend/components/ui/onboarding.tsx:207-236 | with ranks: next is +1 capped, back is -1 floored, each undoes the other inside, and going back is offered exactly above zero |
| Onboarding.RankIsInjective | frontend/components/ui/onboarding.tsx:207-236 | positions with one rank are one position |
| Onboarding.NextsReachTheEnd | frontend/components/ui/onboarding.tsx:211-225 | n nexts move n places or to the end, and the end is the last step |
| Onboarding.OnboardingState.HandleNext | frontend/components/ui/onboarding.tsx:211-218 | step and sub-step after next |
| Onboarding.OnboardingState.HandleBack | frontend/components/ui/onboarding.tsx:227-236 | step and sub-step after back |
| Batching.BatchesPartition | frontend/shared/api/file.ts:250-263 | batches concatenate to the input, each has 1 to 100 ids, all but the last 100, and there are ceil(n/100) |
| Batching.SteppingBatches | frontend/shared/api/file.ts:250-262 | the stepping loop makes those batches |
| Batching.CeilBatchesAreBatches | frontend/shared/api/knowledge-bases.ts:122-125 | so does the list of ceil(n/100) slices, for every input |
| Batching.DistinctKeepsFirsts | frontend/shared/api/conversation.ts:830 | the set keeps every value once |
| Batching.DistinctKeepsOrder | frontend/shared/api/conversation.ts:830 | in the order of first occurrence |
| Batching.AskedInOrder | frontend/shared/api/conversation.ts:830-846 | ids are asked for in the order in which they first occur |
| Batching.RunStatusBatches | frontend/shared/api/conversation.ts:830-846 | every non-blank trimmed id is asked for exactly once, in requests of 1 to 100, and nothing else is |

## Left out

- The server side: repositories, billing, queues and circuit breaking are interfaces here; their bodies are not part of this model.
- Endpoint wrappers, rendering, translations, OCR engines and process wiring: nothing but easy claims.
- `fetch`, UTF-8 decoding, `JSON.parse`, BroadcastChannel, Web Locks, timers and React scheduling: parameters or steps that may happen in any order. Stream text is already decoded.
- The JSON grammar is over concrete syntax, and a number is any non-empty text of digits, signs, points and exponent letters, which includes every number of RFC 8259; duplicate keys and number ranges play no part in splitting.
- StreamReader.DispatchByKind: the fields that trace normalization fills with defaults (conversation.ts:125-160) and the fields of errors other than message and status are carried unopened.
- StreamReader.ConversationStream.ReadConversationStream: a callback that throws is not modelled; callbacks are recorded and return. A body missing at this point is handled by its two callers before the read.
- StreamReader.ResumeMessageGenerationStream: the `after` query parameter, which only the server sees.
- EventStream: the code differs from the standard, and the code is followed: a lone CR ends no line, every leading blank after `data:` is trimmed, a payload is trimmed as a whole, and an event left open at the end of the stream is delivered. A callback that throws is swallowed by the same `catch` as a parse error and is part of `parse` here.
- RefreshProtocol.StepKeepsInv: every tab can open a BroadcastChannel, no tab is closed, and an abort is seen where the code looks for it, after an answer and after a refresh. A refused lock request is a step; its error is one without a status. Calls made with `allowRefresh` false only end at their first error. An abort during the retry, like a network failure, is an error that does not end sessions.
- RefreshProtocol.StepKeepsInv: channel messages of one sender to one receiver arrive in order; messages of other pairs in any order.
- NotificationCache.ProviderMatchesUncached: a client's own access token is only its serial number; parsing, trimming and the client's validation of its fields are parameters. The mutex makes calls one after another.
- PageRanges.PagesRoundTrip: `strip` and `int` are parameters, so digits outside ASCII are covered only as far as a caller says what `int` makes of them; the round trips use the ASCII digits.
- SidebarHover.StepKeepsInv: timers cleared on unmount, and which callbacks a parent passes in.
- SidebarReveal.StepKeepsInv: the effect is run only by a change of its dependencies; `EffectAgainIff` says what another run would do. A change of the motion preference alone does not run it in the code either.
- SidebarViewport.RunRespectsIntent: `open` controlled from outside, the mobile sheet, the cookie and the stored value (the initial value is a parameter). An event is handled after the previous one is rendered.
- LogoCarousel.IndexInBoundsIff: times are exact reals; rounding is left out. `Math.floor(Math.random() * k)` is any index below k.
- Onboarding.WalkOnALine: `value` and `stepValue` controlled from outside, `canGoNext` (advice to buttons, not looked at by `handleNext`), the setters handed to consumers, and two clicks within one render.
