/**
 Reading a message stream: pieces of decoded text in, callbacks and one outcome out
 (frontend/shared/api/conversation.ts, readConversationStream and its callers).

 JSON.parse is a parameter: some total function from text to what the reader can
 do with it.  Callbacks are recorded in the order they are called.
 */
module StreamReader {
  import opened Text
  import opened JsonSplitter
  import JsonGrammar

  /** A JSON value the reader passes on without looking inside. */
  type Payload = string

  datatype Kind =
    | FileProc | RagSearch | CompactDone | ProcessUpdate | UpstreamThinkDelta | Delta | Usage
    | MediaStatus | MediaImageDelta | ModerationChecking | ModerationBlocked | Completed | Error | Other

  /** `seq` as it arrives: absent or of another type, a number, or one too large to be finite. */
  datatype SeqField = NoNumber | Finite(value: real) | Infinite

  /** An event object.  `message` is empty and `data` is `None` when the field is missing or falsy. */
  datatype StreamEvent = StreamEvent(
    kind: Kind,
    seqField: SeqField,
    message: string,
    status: Option<int>,
    replace: bool,
    body: Payload,
    data: Option<Payload>)

  datatype Parsed = Malformed | NotAnObject | Event(event: StreamEvent)

  datatype Callback =
    | OnEventSeq(seqNumber: real)
    | OnText(kind: Kind, text: string)
    | OnTextSnapshot(text: string)
    | OnEvent(kind: Kind, event: StreamEvent)
    | OnTerminal(event: StreamEvent)
    | OnInterrupted(event: StreamEvent)

  datatype StreamError =
    | SyntaxError
    | InvalidEvent
    | EventFailed(message: string, status: int, event: StreamEvent)
    | ReadFailed
    | Aborted
    | EmptyBody
    | ContentBlocked(event: StreamEvent)
    | MissingPayload

  datatype Reply = Returned(data: Option<Payload>) | Threw(error: StreamError)

  datatype Reaction = Reaction(calls: seq<Callback>, reply: Reply)

  function StreamEventSeq(event: StreamEvent): real {
    if event.seqField.Finite? && event.seqField.value > 0.0 then event.seqField.value else 0.0
  }

  function HandleStreamEvent(event: StreamEvent, responseStatus: int): Reaction {
    var s := StreamEventSeq(event);
    var r := Dispatch(event, responseStatus);
    if s > 0.0 then Reaction([OnEventSeq(s)] + r.calls, r.reply) else r
  }

  /** The branches on the type of the event. */
  function Dispatch(event: StreamEvent, responseStatus: int): Reaction {
    var failed := Threw(EventFailed(if event.message == "" then "stream failed" else event.message,
                                    if event.status.Some? then event.status.value else responseStatus,
                                    event));
    match event.kind
    case FileProc | RagSearch => Reaction([OnText(event.kind, event.message)], Returned(None))
    case CompactDone | ProcessUpdate | UpstreamThinkDelta | Usage | MediaStatus | MediaImageDelta
      | ModerationChecking => Reaction([OnEvent(event.kind, event)], Returned(None))
    case Delta =>
      Reaction([if event.replace then OnTextSnapshot(event.body) else OnText(Delta, event.body)], Returned(None))
    case ModerationBlocked => Reaction([OnTerminal(event), OnEvent(ModerationBlocked, event)], Returned(None))
    case Completed => Reaction([OnTerminal(event)], Returned(event.data))
    case Error =>
      if event.data.Some? then Reaction([OnTerminal(event), OnInterrupted(event)], Returned(event.data))
      else Reaction([OnTerminal(event)], failed)
    case Other => Reaction([], failed)
  }

  /** The callbacks an event of this kind may make, apart from its number: its own, with its own content. */
  predicate Belongs(call: Callback, event: StreamEvent) {
    match call
    case OnEventSeq(n) => event.seqField == Finite(n) && n > 0.0
    case OnText(kind, text) =>
      && kind == event.kind
      && (if event.kind.Delta? then text == event.body && !event.replace
          else (event.kind.FileProc? || event.kind.RagSearch?) && text == event.message)
    case OnTextSnapshot(text) => event.kind.Delta? && event.replace && text == event.body
    case OnEvent(kind, e) =>
      && kind == event.kind && e == event
      && !(event.kind.FileProc? || event.kind.RagSearch? || event.kind.Delta?
           || event.kind.Completed? || event.kind.Error? || event.kind.Other?)
    case OnTerminal(e) => e == event && (event.kind.Completed? || event.kind.Error? || event.kind.ModerationBlocked?)
    case OnInterrupted(e) => e == event && event.kind.Error? && event.data.Some?
  }

  /** Every callback that belongs to the event and no other, each once, its number first and then its end, if any. */
  ghost predicate MakesItsCalls(event: StreamEvent, calls: seq<Callback>) {
    && (forall i | 0 <= i < |calls| :: Belongs(calls[i], event))
    && (forall call | Belongs(call, event) :: call in calls)
    && Ordered(calls)
  }

  predicate Ordered(calls: seq<Callback>) {
    forall i, j | 0 <= i < j < |calls| ::
      calls[i] != calls[j] && !calls[j].OnEventSeq? && (calls[j].OnTerminal? ==> calls[i].OnEventSeq?)
  }

  lemma OwnCalls(event: StreamEvent, responseStatus: int)
    ensures var calls := Dispatch(event, responseStatus).calls;
            && (forall i | 0 <= i < |calls| :: Belongs(calls[i], event) && !calls[i].OnEventSeq?)
            && (forall call | Belongs(call, event) && !call.OnEventSeq? :: call in calls)
            && Ordered(calls)
            && forall i | 0 < i < |calls| :: !calls[i].OnTerminal?
  {
    var calls := Dispatch(event, responseStatus).calls;
    forall call | Belongs(call, event) && !call.OnEventSeq?
      ensures call in calls
    {
      if call.OnInterrupted? || (call.OnEvent? && event.kind.ModerationBlocked?) {
        assert calls[1] == call;
      } else {
        assert calls[0] == call;
      }
    }
  }

  lemma NumberFirst(event: StreamEvent, calls: seq<Callback>)
    requires forall i | 0 <= i < |calls| :: Belongs(calls[i], event) && !calls[i].OnEventSeq?
    requires forall call | Belongs(call, event) && !call.OnEventSeq? :: call in calls
    requires Ordered(calls) && forall i | 0 < i < |calls| :: !calls[i].OnTerminal?
    requires StreamEventSeq(event) > 0.0
    ensures MakesItsCalls(event, [OnEventSeq(StreamEventSeq(event))] + calls)
  {
    var all := [OnEventSeq(StreamEventSeq(event))] + calls;
    forall call | Belongs(call, event)
      ensures call in all
    {
      if call.OnEventSeq? {
        assert all[0] == call;
      }
    }
  }

  /**
   An event makes its callbacks; it throws if it is an error without data or of no known
   kind, and only the data of a completed event or an error is returned.
   */
  lemma DispatchByKind(event: StreamEvent, responseStatus: int)
    ensures var r := HandleStreamEvent(event, responseStatus);
            && MakesItsCalls(event, r.calls)
            && (r.reply.Threw? <==> event.kind.Other? || (event.kind.Error? && event.data.None?))
            && (r.reply.Returned? && r.reply.data.Some? <==>
                  (event.kind.Completed? || event.kind.Error?) && event.data.Some?)
            && (r.reply.Returned? && r.reply.data.Some? ==> r.reply.data == event.data)
  {
    OwnCalls(event, responseStatus);
    if StreamEventSeq(event) > 0.0 {
      NumberFirst(event, Dispatch(event, responseStatus).calls);
    }
  }

  // One item at a time

  /** What the reader has done so far; after an error it does nothing more. */
  datatype Progress = Progress(
    calls: seq<Callback>,
    completed: Option<Payload>,
    blocked: Option<StreamEvent>,
    error: Option<StreamError>)

  const NOTHING_YET := Progress([], None, None, None)

  datatype Source = Source(parse: string -> Parsed, responseStatus: int)

  function Consume(src: Source, p: Progress, item: string): Progress {
    if p.error.Some? then p
    else match src.parse(item)
      case Malformed => p.(error := Some(SyntaxError))
      case NotAnObject => p.(error := Some(InvalidEvent))
      case Event(event) =>
        var r := HandleStreamEvent(event, src.responseStatus);
        var seen := p.(calls := p.calls + r.calls,
                       blocked := if event.kind.ModerationBlocked? then Some(event) else p.blocked);
        match r.reply
        case Threw(error) => seen.(error := Some(error))
        case Returned(None) => seen
        case Returned(Some(data)) => seen.(completed := Some(data))
  }

  function ConsumeAll(src: Source, p: Progress, items: seq<string>): Progress
    decreases |items|
  {
    if items == [] then p else ConsumeAll(src, Consume(src, p, items[0]), items[1..])
  }

  lemma {:induction false} ConsumeAllAppend(src: Source, p: Progress, a: seq<string>, b: seq<string>)
    ensures ConsumeAll(src, p, a + b) == ConsumeAll(src, ConsumeAll(src, p, a), b)
    decreases |a|
  {
    if a == [] {
      assert a + b == b;
    } else {
      assert (a + b)[1..] == a[1..] + b;
      ConsumeAllAppend(src, Consume(src, p, a[0]), a[1..], b);
    }
  }

  lemma {:induction false} NothingAfterError(src: Source, p: Progress, items: seq<string>)
    requires p.error.Some?
    ensures ConsumeAll(src, p, items) == p
  {
    if items != [] {
      NothingAfterError(src, p, items[1..]);
    }
  }

  // A whole stream

  /** How the reads end: the decoder's last output, or a failed read. */
  datatype Ending = Done(flush: string) | Failed(aborted: bool)

  function WholeText(chunks: seq<string>, ending: Ending): string {
    Concat(chunks) + if ending.Done? then ending.flush else ""
  }

  /** What the stream offers to the dispatcher: its documents, and a left-over tail if it was read to the end. */
  function Items(text: string, ending: Ending): seq<string> {
    var x := Extract(text);
    x.documents + if ending.Done? && Trim(x.remainder) != "" then [Trim(x.remainder)] else []
  }

  /** The result of reading, as a function of the whole text alone. */
  function Transcript(src: Source, text: string, ending: Ending): Progress {
    var p := ConsumeAll(src, NOTHING_YET, Items(text, ending));
    if p.error.None? && ending.Failed? then p.(error := Some(if ending.aborted then Aborted else ReadFailed)) else p
  }

  datatype Outcome = Success(data: Option<Payload>) | Failure(error: StreamError)

  function Finish(p: Progress, payloadRequired: bool): Outcome {
    if p.error.Some? then Failure(p.error.value)
    else if p.blocked.Some? then Failure(ContentBlocked(p.blocked.value))
    else if p.completed.None? && payloadRequired then Failure(MissingPayload)
    else Success(p.completed)
  }

  datatype Body = Body(chunks: seq<string>, ending: Ending)

  // The source's reader, with its local variables as fields

  class ConversationStream {
    const src: Source
    var buffer: string
    var completed: Option<Payload>
    var moderationBlocked: Option<StreamEvent>
    var calls: seq<Callback>

    constructor (src: Source)
      ensures this.src == src && buffer == "" && State(None) == NOTHING_YET
    {
      this.src := src;
      buffer, completed, moderationBlocked, calls := "", None, None, [];
    }

    function State(error: Option<StreamError>): Progress
      reads this
    {
      Progress(calls, completed, moderationBlocked, error)
    }

    method ConsumeEvent(item: string) returns (error: Option<StreamError>)
      modifies this`completed, this`moderationBlocked, this`calls
      ensures State(error) == Consume(src, old(State(None)), item)
    {
      var parsed := src.parse(item);
      if parsed.Malformed? {
        return Some(SyntaxError);
      }
      if parsed.NotAnObject? {
        return Some(InvalidEvent);
      }
      var event := parsed.event;
      if event.kind.ModerationBlocked? {
        moderationBlocked := Some(event);
      }
      var reaction := HandleStreamEvent(event, src.responseStatus);
      calls := calls + reaction.calls;
      if reaction.reply.Threw? {
        return Some(reaction.reply.error);
      }
      if reaction.reply.data.Some? {
        completed := reaction.reply.data;
      }
      return None;
    }

    method ConsumeDocuments(documents: seq<string>) returns (error: Option<StreamError>)
      modifies this`completed, this`moderationBlocked, this`calls
      ensures State(error) == ConsumeAll(src, old(State(None)), documents)
    {
      ghost var start := State(None);
      error := None;
      var i := 0;
      assert documents[..0] == [];
      while i < |documents|
        invariant 0 <= i <= |documents| && error == None
        invariant State(None) == ConsumeAll(src, start, documents[..i])
      {
        assert documents[..i + 1] == documents[..i] + [documents[i]];
        ConsumeAllAppend(src, start, documents[..i], [documents[i]]);
        error := ConsumeEvent(documents[i]);
        i := i + 1;
        if error.Some? {
          assert documents == documents[..i] + documents[i..];
          ConsumeAllAppend(src, start, documents[..i], documents[i..]);
          NothingAfterError(src, State(error), documents[i..]);
          return;
        }
      }
      assert documents[..i] == documents;
    }

    /**
     The callbacks made, the result kept and the error raised depend only on the
     text as a whole and on how reading ended, never on where the text was cut.
     */
    method ReadConversationStream(body: Body) returns (error: Option<StreamError>)
      requires buffer == "" && State(None) == NOTHING_YET
      modifies this
      ensures State(error) == Transcript(src, WholeText(body.chunks, body.ending), body.ending)
    {
      var chunks, ending := body.chunks, body.ending;
      ghost var text := "";
      var i, done := 0, false;
      assert Concat(chunks[..0]) == "";
      assert Extract("") == Extraction([], "");
      while !done
        invariant 0 <= i <= |chunks|
        invariant text == if done then WholeText(chunks, ending) else Concat(chunks[..i])
        invariant done ==> ending.Done?
        invariant buffer == Extract(text).remainder
        invariant State(None) == ConsumeAll(src, NOTHING_YET, Extract(text).documents)
        decreases !done, |chunks| - i
      {
        var piece;
        ghost var before := text;
        if i < |chunks| {
          piece := chunks[i];
          text := Concat(chunks[..i + 1]);
          ConcatTake(chunks, i);
          i := i + 1;
        } else if ending.Failed? {
          assert chunks[..i] == chunks;
          assert text == WholeText(chunks, ending);
          assert Items(text, ending) == Extract(text).documents;
          return Some(if ending.aborted then Aborted else ReadFailed);
        } else {
          piece := ending.flush;
          done := true;
          assert chunks[..i] == chunks;
          text := WholeText(chunks, ending);
        }
        ExtractAppend(before, piece);
        assert text == before + piece;
        buffer := buffer + piece;
        var documents, remainder := ExtractJSONDocuments(buffer);
        buffer := remainder;
        ConsumeAllAppend(src, NOTHING_YET, Extract(before).documents, documents);
        error := ConsumeDocuments(documents);
        if error.Some? {
          ErrorIsFinal(src, chunks, ending, i, done);
          return;
        }
      }
      var tail := Trim(buffer);
      ConsumeAllAppend(src, NOTHING_YET, Extract(text).documents, if tail != "" then [tail] else []);
      if tail != "" {
        error := ConsumeEvent(tail);
      } else {
        error := None;
      }
    }
  }

  lemma WholeTextFrom(chunks: seq<string>, ending: Ending, i: nat)
    requires i <= |chunks|
    ensures WholeText(chunks, ending) == Concat(chunks[..i]) + WholeText(chunks[i..], ending)
  {
    assert chunks == chunks[..i] + chunks[i..];
    ConcatAppend(chunks[..i], chunks[i..]);
  }

  /** An error among the documents of the text read so far is the error of the whole stream. */
  lemma ErrorIsFinal(src: Source, chunks: seq<string>, ending: Ending, i: nat, done: bool)
    requires i <= |chunks| && (done ==> ending.Done?)
    requires var text := if done then WholeText(chunks, ending) else Concat(chunks[..i]);
             ConsumeAll(src, NOTHING_YET, Extract(text).documents).error.Some?
    ensures var text := if done then WholeText(chunks, ending) else Concat(chunks[..i]);
            Transcript(src, WholeText(chunks, ending), ending) == ConsumeAll(src, NOTHING_YET, Extract(text).documents)
  {
    var whole := WholeText(chunks, ending);
    if done {
      ErrorInPrefix(src, whole, "", ending);
      assert whole + "" == whole;
    } else {
      WholeTextFrom(chunks, ending, i);
      ErrorInPrefix(src, Concat(chunks[..i]), WholeText(chunks[i..], ending), ending);
    }
  }

  lemma ErrorInPrefix(src: Source, text: string, rest: string, ending: Ending)
    requires ConsumeAll(src, NOTHING_YET, Extract(text).documents).error.Some?
    ensures Transcript(src, text + rest, ending) == ConsumeAll(src, NOTHING_YET, Extract(text).documents)
  {
    ExtractAppend(text, rest);
    var seen, items := Extract(text).documents, Items(text + rest, ending);
    assert items[..|seen|] == seen;
    ErrorInItems(src, items, |seen|);
  }

  lemma ErrorInItems(src: Source, items: seq<string>, k: nat)
    requires k <= |items| && ConsumeAll(src, NOTHING_YET, items[..k]).error.Some?
    ensures ConsumeAll(src, NOTHING_YET, items) == ConsumeAll(src, NOTHING_YET, items[..k])
  {
    assert items == items[..k] + items[k..];
    ConsumeAllAppend(src, NOTHING_YET, items[..k], items[k..]);
    NothingAfterError(src, ConsumeAll(src, NOTHING_YET, items[..k]), items[k..]);
  }

  /** A new message: a body and a final payload are required. */
  method PostMessageStreamRequest(src: Source, body: Option<Body>) returns (outcome: Outcome)
    ensures outcome == if body.None? then Failure(EmptyBody)
                       else Finish(Transcript(src, WholeText(body.value.chunks, body.value.ending), body.value.ending), true)
  {
    if body.None? {
      return Failure(EmptyBody);
    }
    var stream := new ConversationStream(src);
    var error := stream.ReadConversationStream(body.value);
    if error.Some? {
      return Failure(error.value);
    }
    if stream.moderationBlocked.Some? {
      return Failure(ContentBlocked(stream.moderationBlocked.value));
    }
    if stream.completed.Some? {
      return Success(stream.completed);
    }
    return Failure(MissingPayload);
  }

  /** Resuming a run: no body and no payload are both fine. */
  method ResumeMessageGenerationStream(src: Source, body: Option<Body>) returns (outcome: Outcome)
    ensures outcome == if body.None? then Success(None)
                       else Finish(Transcript(src, WholeText(body.value.chunks, body.value.ending), body.value.ending), false)
  {
    if body.None? {
      return Success(None);
    }
    var stream := new ConversationStream(src);
    var error := stream.ReadConversationStream(body.value);
    if error.Some? {
      return Failure(error.value);
    }
    if stream.moderationBlocked.Some? {
      return Failure(ContentBlocked(stream.moderationBlocked.value));
    }
    return Success(stream.completed);
  }

  // Which item decides

  /** The error an item raises, whatever came before it. */
  function ErrorOf(src: Source, item: string): Option<StreamError> {
    match src.parse(item)
    case Malformed => Some(SyntaxError)
    case NotAnObject => Some(InvalidEvent)
    case Event(event) =>
      var reply := HandleStreamEvent(event, src.responseStatus).reply;
      if reply.Threw? then Some(reply.error) else None
  }

  function BlockOf(src: Source, item: string): Option<StreamEvent> {
    match src.parse(item)
    case Event(event) => if event.kind.ModerationBlocked? then Some(event) else None
    case _ => None
  }

  /** A final payload: the data of a completed event, or of an error that carries data. */
  function ResultOf(src: Source, item: string): Option<Payload> {
    match src.parse(item)
    case Event(event) => if event.kind.Completed? || event.kind.Error? then event.data else None
    case _ => None
  }

  function Blocks(src: Source): string -> Option<StreamEvent> {
    item => BlockOf(src, item)
  }

  function Results(src: Source): string -> Option<Payload> {
    item => ResultOf(src, item)
  }

  function CallsOf(src: Source, item: string): seq<Callback> {
    match src.parse(item)
    case Event(event) => HandleStreamEvent(event, src.responseStatus).calls
    case _ => []
  }

  function CallsOfAll(src: Source, items: seq<string>): seq<Callback> {
    if items == [] then [] else CallsOfAll(src, items[..|items| - 1]) + CallsOf(src, items[|items| - 1])
  }

  /** `i` is the first item that throws. */
  ghost predicate FirstThrow(src: Source, items: seq<string>, i: nat) {
    && i < |items| && ErrorOf(src, items[i]).Some?
    && forall j | 0 <= j < i :: ErrorOf(src, items[j]).None?
  }

  ghost predicate Quiet(src: Source, items: seq<string>) {
    forall j | 0 <= j < |items| :: ErrorOf(src, items[j]).None?
  }

  /** `found` is the last answer `f` gives on the items, or none. */
  ghost predicate LastOf<T>(f: string -> Option<T>, items: seq<string>, found: Option<T>) {
    if found.None? then forall j | 0 <= j < |items| :: f(items[j]).None?
    else exists i | 0 <= i < |items| ::
        f(items[i]) == found && forall j | i < j < |items| :: f(items[j]).None?
  }

  lemma LastOfSnoc<T>(f: string -> Option<T>, items: seq<string>, item: string, found: Option<T>)
    requires LastOf(f, items, found)
    ensures LastOf(f, items + [item], if f(item).Some? then f(item) else found)
  {
    var all := items + [item];
    assert all[|items|] == item;
    if f(item).None? && found.Some? {
      var i :| 0 <= i < |items| && f(items[i]) == found && forall j | i < j < |items| :: f(items[j]).None?;
      assert all[i] == items[i];
      assert forall j | i < j < |all| :: f(all[j]).None?;
    }
  }

  lemma ConsumeSnoc(src: Source, front: seq<string>, last: string)
    ensures ConsumeAll(src, NOTHING_YET, front + [last]) == Consume(src, ConsumeAll(src, NOTHING_YET, front), last)
  {
    ConsumeAllAppend(src, NOTHING_YET, front, [last]);
  }

  /** One item at the end of a quiet stream. */
  lemma ConsumeOne(src: Source, p: Progress, item: string)
    requires p.error.None?
    ensures var q := Consume(src, p, item);
            && q.error == ErrorOf(src, item)
            && q.calls == p.calls + CallsOf(src, item)
            && q.blocked == (if BlockOf(src, item).Some? then BlockOf(src, item) else p.blocked)
            && (q.error.None? ==>
                  q.completed == if ResultOf(src, item).Some? then ResultOf(src, item) else p.completed)
  {
  }

  /** Every callback was made, and the last block and the last payload are kept. */
  ghost predicate QuietlyRead(src: Source, items: seq<string>, p: Progress) {
    && p.error.None?
    && p.calls == CallsOfAll(src, items)
    && LastOf(Blocks(src), items, p.blocked)
    && LastOf(Results(src), items, p.completed)
  }

  lemma CallsSnoc(src: Source, front: seq<string>, last: string)
    ensures CallsOfAll(src, front + [last]) == CallsOfAll(src, front) + CallsOf(src, last)
  {
    var items := front + [last];
    assert items[..|items| - 1] == front;
  }

  lemma QuietSnoc(src: Source, front: seq<string>, last: string, items: seq<string>)
    requires QuietlyRead(src, front, ConsumeAll(src, NOTHING_YET, front)) && ErrorOf(src, last).None?
    requires items == front + [last]
    ensures QuietlyRead(src, items, ConsumeAll(src, NOTHING_YET, items))
  {
    var p := ConsumeAll(src, NOTHING_YET, front);
    ConsumeSnoc(src, front, last);
    ConsumeOne(src, p, last);
    CallsSnoc(src, front, last);
    LastOfSnoc(Blocks(src), front, last, p.blocked);
    LastOfSnoc(Results(src), front, last, p.completed);
  }

  /** A stream no item of which throws is quietly read. */
  lemma {:induction false} QuietProgress(src: Source, items: seq<string>)
    requires Quiet(src, items)
    ensures QuietlyRead(src, items, ConsumeAll(src, NOTHING_YET, items))
  {
    if items != [] {
      var n := |items| - 1;
      QuietProgress(src, items[..n]);
      QuietSnoc(src, items[..n], items[n], items);
    }
  }

  /** The first throwing item decides, and no item after it is looked at. */
  lemma FirstThrowWins(src: Source, items: seq<string>, i: nat)
    requires FirstThrow(src, items, i)
    ensures var p := ConsumeAll(src, NOTHING_YET, items);
            p.error == ErrorOf(src, items[i]) && p.calls == CallsOfAll(src, items[..i + 1])
  {
    var front := items[..i];
    ThrowAtEnd(src, front, items[i]);
    assert items[..i + 1] == front + [items[i]];
    ErrorInItems(src, items, i + 1);
  }

  lemma ThrowAtEnd(src: Source, front: seq<string>, item: string)
    requires Quiet(src, front) && ErrorOf(src, item).Some?
    ensures var p := ConsumeAll(src, NOTHING_YET, front + [item]);
            p.error == ErrorOf(src, item) && p.calls == CallsOfAll(src, front + [item])
  {
    QuietProgress(src, front);
    ConsumeOne(src, ConsumeAll(src, NOTHING_YET, front), item);
    ConsumeSnoc(src, front, item);
    CallsSnoc(src, front, item);
  }

  lemma {:induction false} FindThrow(src: Source, items: seq<string>) returns (i: nat)
    ensures if i == |items| then Quiet(src, items) else FirstThrow(src, items, i)
  {
    if items == [] {
      i := 0;
    } else if ErrorOf(src, items[0]).Some? {
      i := 0;
    } else {
      var k := FindThrow(src, items[1..]);
      i := k + 1;
      assert forall j | 0 < j < |items| :: items[j] == items[1..][j - 1];
    }
  }

  // The fixed precedence of outcomes: the first throwing item, then a failed read,
  // then the last moderation block, then the last final payload, then its absence.

  lemma ThrowDecides(src: Source, text: string, ending: Ending, payloadRequired: bool, i: nat)
    requires FirstThrow(src, Items(text, ending), i)
    ensures Finish(Transcript(src, text, ending), payloadRequired)
            == Failure(ErrorOf(src, Items(text, ending)[i]).value)
  {
    FirstThrowWins(src, Items(text, ending), i);
  }

  lemma FailedReadDecides(src: Source, text: string, ending: Ending, payloadRequired: bool)
    requires Quiet(src, Items(text, ending)) && ending.Failed?
    ensures Finish(Transcript(src, text, ending), payloadRequired)
            == Failure(if ending.aborted then Aborted else ReadFailed)
  {
    QuietProgress(src, Items(text, ending));
  }

  /** The precedence among a block, a payload and neither. */
  function OutcomeOf(block: Option<StreamEvent>, result: Option<Payload>, payloadRequired: bool): Outcome {
    if block.Some? then Failure(ContentBlocked(block.value))
    else if result.None? && payloadRequired then Failure(MissingPayload)
    else Success(result)
  }

  lemma QuietOutcome(src: Source, items: seq<string>, payloadRequired: bool)
    returns (block: Option<StreamEvent>, result: Option<Payload>)
    requires Quiet(src, items)
    ensures LastOf(Blocks(src), items, block) && LastOf(Results(src), items, result)
    ensures ConsumeAll(src, NOTHING_YET, items).error.None?
    ensures Finish(ConsumeAll(src, NOTHING_YET, items), payloadRequired) == OutcomeOf(block, result, payloadRequired)
  {
    QuietProgress(src, items);
    var p := ConsumeAll(src, NOTHING_YET, items);
    block, result := p.blocked, p.completed;
  }

  lemma QuietStreamOutcome(src: Source, text: string, ending: Ending, payloadRequired: bool)
    returns (block: Option<StreamEvent>, result: Option<Payload>)
    requires Quiet(src, Items(text, ending)) && ending.Done?
    ensures LastOf(Blocks(src), Items(text, ending), block)
    ensures LastOf(Results(src), Items(text, ending), result)
    ensures Finish(Transcript(src, text, ending), payloadRequired) == OutcomeOf(block, result, payloadRequired)
  {
    block, result := QuietOutcome(src, Items(text, ending), payloadRequired);
  }

  /** Success means exactly: read to the end, nothing threw, nothing was blocked, and this payload came last. */
  lemma PostSucceedsIff(src: Source, text: string, ending: Ending, data: Payload)
    ensures Finish(Transcript(src, text, ending), true) == Success(Some(data)) <==>
            && ending.Done?
            && Quiet(src, Items(text, ending))
            && (forall i | 0 <= i < |Items(text, ending)| :: BlockOf(src, Items(text, ending)[i]).None?)
            && LastOf(Results(src), Items(text, ending), Some(data))
  {
    var items := Items(text, ending);
    var i := FindThrow(src, items);
    if i < |items| {
      ThrowDecides(src, text, ending, true, i);
    } else if ending.Failed? {
      FailedReadDecides(src, text, ending, true);
    } else {
      var block, result := QuietStreamOutcome(src, text, ending, true);
      NothingBlockedIff(src, items, block);
      LastOfUniqueIff(Results(src), items, result, Some(data));
    }
  }

  lemma NothingBlockedIff(src: Source, items: seq<string>, block: Option<StreamEvent>)
    requires LastOf(Blocks(src), items, block)
    ensures block.None? <==> forall i | 0 <= i < |items| :: BlockOf(src, items[i]).None?
  {
    assert forall i | 0 <= i < |items| :: Blocks(src)(items[i]) == BlockOf(src, items[i]);
  }

  lemma LastOfUniqueIff<T>(f: string -> Option<T>, items: seq<string>, a: Option<T>, b: Option<T>)
    requires LastOf(f, items, a)
    ensures LastOf(f, items, b) <==> a == b
  {
    if LastOf(f, items, b) {
      LastOfUnique(f, items, a, b);
    }
  }

  lemma LastOfUnique<T>(f: string -> Option<T>, items: seq<string>, a: Option<T>, b: Option<T>)
    requires LastOf(f, items, a) && LastOf(f, items, b)
    ensures a == b
  {
  }

  /**
   A well-formed stream, whatever its cuts: the dispatcher sees exactly the printed
   objects, and no left-over tail.
   */
  lemma PrintedStreamItems(vs: seq<JsonGrammar.Value>, gaps: seq<string>, chunks: seq<string>, ending: Ending)
    requires forall i | 0 <= i < |vs| :: JsonGrammar.ValueOk(vs[i]) && vs[i].Object?
    requires |gaps| == |vs| + 1 && forall i | 0 <= i < |gaps| :: Blank(gaps[i])
    requires WholeText(chunks, ending) == Weave(gaps, JsonGrammar.PrintAll(vs))
    ensures Items(WholeText(chunks, ending), ending) == JsonGrammar.PrintAll(vs)
  {
    JsonGrammar.ExtractPrinted(vs, gaps);
    assert Trim("") == "";
  }
}
