/**
 What a message stream comes to, in terms of its text and its parsed events alone
 (frontend/shared/api/conversation.ts): what the dispatcher is offered, the callbacks
 made, and the outcome, whichever it is.
 */
module StreamOutcome {
  import opened Text
  import opened JsonSplitter
  import opened StreamReader

  // What is offered

  /** The text of the stream: every chunk, and what the decoder still held if reading ended. */
  function TextOf(chunks: seq<string>, ending: Ending): string {
    if ending.Done? then Concat(chunks) + ending.flush else Concat(chunks)
  }

  /**
   The documents of the text; and, if it was read to the end, the rest without the
   blanks after it, unless there is none.
   */
  ghost predicate Offers(text: string, ending: Ending, items: seq<string>) {
    exists gaps, docs, rest :: SplitsAs(text, gaps, docs, rest) && OffersRest(docs, rest, ending, items)
  }

  ghost predicate OffersRest(docs: seq<string>, rest: string, ending: Ending, items: seq<string>) {
    if ending.Failed? || Blank(rest) then items == docs
    else exists core, gap :: rest == core + gap && Core(core) && Blank(gap) && items == docs + [core]
  }

  /** A rest starts with something, so trimming it only takes blanks off its end. */
  lemma TailIsCore(rest: string) returns (core: string, gap: string)
    requires Stuck(rest) && !Blank(rest)
    ensures rest == core + gap && Core(core) && Blank(gap) && core == Trim(rest)
  {
    assert TrimStart(rest) == rest;
    core := Trim(rest);
    gap := TrimEndGap(rest);
    assert core == "" ==> rest == gap;
    assert core[0] == rest[0];
  }

  lemma BlankRest(rest: string)
    requires Stuck(rest)
    ensures Blank(rest) <==> rest == ""
    ensures Trim("") == ""
  {
    if rest != "" {
      assert !IsBlank(rest[0]);
    }
  }

  lemma ItemsAreOffered(text: string, ending: Ending)
    ensures Offers(text, ending, Items(text, ending))
  {
    var gaps := ExtractIsLossless(text);
    var x := Extract(text);
    BlankRest(x.remainder);
    if ending.Done? && !Blank(x.remainder) {
      var core, gap := TailIsCore(x.remainder);
      assert OffersRest(x.documents, x.remainder, ending, Items(text, ending));
    } else {
      assert OffersRest(x.documents, x.remainder, ending, Items(text, ending)) by {
        assert x.documents + [] == x.documents;
      }
    }
  }

  /** What is offered is determined by the text and the ending. */
  lemma OffersIff(text: string, ending: Ending, items: seq<string>)
    ensures Offers(text, ending, items) <==> items == Items(text, ending)
  {
    ItemsAreOffered(text, ending);
    if Offers(text, ending, items) {
      var gaps, docs, rest :| SplitsAs(text, gaps, docs, rest) && OffersRest(docs, rest, ending, items);
      ExtractIsUnique(text, gaps, docs, rest);
      BlankRest(rest);
      if ending.Done? && !Blank(rest) {
        var core, gap :| rest == core + gap && Core(core) && Blank(gap) && items == docs + [core];
        assert "" + (core + gap) == rest;
        TrimOfCore("", core, gap);
      } else {
        assert docs + [] == docs;
      }
    }
  }

  // What an item is good for

  /** An item the reader cannot get past: no JSON, no object, an error without data, an unknown event. */
  predicate Bad(parsed: Parsed) {
    || !parsed.Event?
    || parsed.event.kind.Other?
    || (parsed.event.kind.Error? && parsed.event.data.None?)
  }

  /** The error such an item raises: the event's message and status, where it has them. */
  predicate RaisedBy(parsed: Parsed, responseStatus: int, error: StreamError)
    requires Bad(parsed)
  {
    match parsed
    case Malformed => error == SyntaxError
    case NotAnObject => error == InvalidEvent
    case Event(event) =>
      && error.EventFailed? && error.event == event
      && (if event.message != "" then error.message == event.message else error.message == "stream failed")
      && (if event.status.Some? then error.status == event.status.value else error.status == responseStatus)
  }

  predicate Block(parsed: Parsed) {
    parsed.Event? && parsed.event.kind.ModerationBlocked?
  }

  predicate Payloads(parsed: Parsed) {
    parsed.Event? && (parsed.event.kind.Completed? || parsed.event.kind.Error?) && parsed.event.data.Some?
  }

  ghost predicate FirstBad(src: Source, items: seq<string>, i: nat) {
    && i < |items| && Bad(src.parse(items[i]))
    && forall j | 0 <= j < i :: !Bad(src.parse(items[j]))
  }

  ghost predicate NoneBad(src: Source, items: seq<string>) {
    forall j | 0 <= j < |items| :: !Bad(src.parse(items[j]))
  }

  ghost predicate NoneBlocked(src: Source, items: seq<string>) {
    forall j | 0 <= j < |items| :: !Block(src.parse(items[j]))
  }

  ghost predicate LastBlock(src: Source, items: seq<string>, i: nat) {
    && i < |items| && Block(src.parse(items[i]))
    && forall j | i < j < |items| :: !Block(src.parse(items[j]))
  }

  ghost predicate NoPayload(src: Source, items: seq<string>) {
    forall j | 0 <= j < |items| :: !Payloads(src.parse(items[j]))
  }

  ghost predicate LastPayload(src: Source, items: seq<string>, i: nat) {
    && i < |items| && Payloads(src.parse(items[i]))
    && forall j | i < j < |items| :: !Payloads(src.parse(items[j]))
  }

  lemma ErrorOfMeaning(src: Source, item: string)
    ensures ErrorOf(src, item).Some? <==> Bad(src.parse(item))
    ensures ErrorOf(src, item).Some? ==> RaisedBy(src.parse(item), src.responseStatus, ErrorOf(src, item).value)
  {
  }

  lemma BlockOfMeaning(src: Source, item: string)
    ensures BlockOf(src, item).Some? <==> Block(src.parse(item))
    ensures BlockOf(src, item).Some? ==> BlockOf(src, item).value == src.parse(item).event
  {
  }

  lemma ResultOfMeaning(src: Source, item: string)
    ensures ResultOf(src, item).Some? <==> Payloads(src.parse(item))
    ensures ResultOf(src, item).Some? ==> ResultOf(src, item) == src.parse(item).event.data
  {
  }

  lemma QuietIff(src: Source, items: seq<string>)
    ensures Quiet(src, items) <==> NoneBad(src, items)
  {
    forall j | 0 <= j < |items|
      ensures ErrorOf(src, items[j]).None? <==> !Bad(src.parse(items[j]))
    {
      ErrorOfMeaning(src, items[j]);
    }
  }

  // The outcome

  /** The outcome of a stream that offers `items`, case by case; exactly one case applies. */
  ghost predicate Comes(src: Source, items: seq<string>, ending: Ending, payloadRequired: bool, outcome: Outcome) {
    && (forall i: nat | FirstBad(src, items, i) ::
          outcome.Failure? && RaisedBy(src.parse(items[i]), src.responseStatus, outcome.error))
    && (NoneBad(src, items) && ending.Failed? ==> outcome == Failure(if ending.aborted then Aborted else ReadFailed))
    && (NoneBad(src, items) && ending.Done? ==> Read(src, items, payloadRequired, outcome))
  }

  ghost predicate Read(src: Source, items: seq<string>, payloadRequired: bool, outcome: Outcome) {
    && (forall i: nat | LastBlock(src, items, i) :: outcome == Failure(ContentBlocked(src.parse(items[i]).event)))
    && (NoneBlocked(src, items) ==>
          && (forall i: nat | LastPayload(src, items, i) :: outcome == Success(src.parse(items[i]).event.data))
          && (NoPayload(src, items) ==> outcome == if payloadRequired then Failure(MissingPayload) else Success(None)))
  }

  /** Both callers of the reader end as `Comes` says of what the stream offers, however it was cut. */
  lemma StreamComes(src: Source, chunks: seq<string>, ending: Ending, payloadRequired: bool, items: seq<string>)
    requires Offers(TextOf(chunks, ending), ending, items)
    ensures Comes(src, items, ending, payloadRequired,
                  Finish(Transcript(src, WholeText(chunks, ending), ending), payloadRequired))
  {
    TextIsWhole(chunks, ending);
    OffersIff(WholeText(chunks, ending), ending, items);
    ItemsCome(src, WholeText(chunks, ending), ending, payloadRequired);
  }

  lemma TextIsWhole(chunks: seq<string>, ending: Ending)
    ensures WholeText(chunks, ending) == TextOf(chunks, ending)
  {
    assert Concat(chunks) + "" == Concat(chunks);
  }

  lemma ItemsCome(src: Source, text: string, ending: Ending, payloadRequired: bool)
    ensures Comes(src, Items(text, ending), ending, payloadRequired,
                  Finish(Transcript(src, text, ending), payloadRequired))
  {
    var items := Items(text, ending);
    QuietIff(src, items);
    if NoneBad(src, items) {
      if ending.Failed? {
        FailedReadDecides(src, text, ending, payloadRequired);
      } else {
        var block, result := QuietStreamOutcome(src, text, ending, payloadRequired);
        QuietRead(src, items, payloadRequired, block, result);
      }
    } else {
      BadItemDecides(src, text, ending, payloadRequired);
    }
  }

  lemma BadItemDecides(src: Source, text: string, ending: Ending, payloadRequired: bool)
    ensures var items, outcome := Items(text, ending), Finish(Transcript(src, text, ending), payloadRequired);
            forall i: nat | FirstBad(src, items, i) ::
              outcome.Failure? && RaisedBy(src.parse(items[i]), src.responseStatus, outcome.error)
  {
    var items, outcome := Items(text, ending), Finish(Transcript(src, text, ending), payloadRequired);
    forall i: nat | FirstBad(src, items, i)
      ensures outcome.Failure? && RaisedBy(src.parse(items[i]), src.responseStatus, outcome.error)
    {
      FirstBadIsFirstThrow(src, items, i);
      ThrowDecides(src, text, ending, payloadRequired, i);
      ErrorOfMeaning(src, items[i]);
    }
  }

  lemma FirstBadIsFirstThrow(src: Source, items: seq<string>, i: nat)
    requires FirstBad(src, items, i)
    ensures FirstThrow(src, items, i)
  {
    forall j | 0 <= j <= i
      ensures ErrorOf(src, items[j]).None? <==> !Bad(src.parse(items[j]))
    {
      ErrorOfMeaning(src, items[j]);
    }
  }

  lemma QuietRead(src: Source, items: seq<string>, payloadRequired: bool, block: Option<StreamEvent>, result: Option<Payload>)
    requires LastOf(Blocks(src), items, block) && LastOf(Results(src), items, result)
    ensures Read(src, items, payloadRequired, OutcomeOf(block, result, payloadRequired))
  {
    LastBlockMeaning(src, items, block);
    LastResultMeaning(src, items, result);
  }

  lemma LastBlockMeaning(src: Source, items: seq<string>, block: Option<StreamEvent>)
    requires LastOf(Blocks(src), items, block)
    ensures block.None? <==> NoneBlocked(src, items)
    ensures forall i: nat | LastBlock(src, items, i) :: block == Some(src.parse(items[i]).event)
  {
    forall j | 0 <= j < |items|
      ensures Blocks(src)(items[j]).Some? <==> Block(src.parse(items[j]))
      ensures Block(src.parse(items[j])) ==> Blocks(src)(items[j]) == Some(src.parse(items[j]).event)
    {
      BlockOfMeaning(src, items[j]);
    }
  }

  lemma LastResultMeaning(src: Source, items: seq<string>, result: Option<Payload>)
    requires LastOf(Results(src), items, result)
    ensures result.None? <==> NoPayload(src, items)
    ensures forall i: nat | LastPayload(src, items, i) :: result == src.parse(items[i]).event.data
  {
    forall j | 0 <= j < |items|
      ensures Results(src)(items[j]).Some? <==> Payloads(src.parse(items[j]))
      ensures Payloads(src.parse(items[j])) ==> Results(src)(items[j]) == src.parse(items[j]).event.data
    {
      ResultOfMeaning(src, items[j]);
    }
  }

  /** A stream that ends cleanly inside an object fails, whatever came before it was quiet or complete. */
  lemma TruncatedStreamFails(src: Source, chunks: seq<string>, flush: string, payloadRequired: bool,
                             gaps: seq<string>, docs: seq<string>, core: string, gap: string)
    requires SplitsAs(Concat(chunks) + flush, gaps, docs, core + gap) && Core(core) && Blank(gap)
    requires NoneBad(src, docs) && src.parse(core).Malformed?
    ensures Finish(Transcript(src, WholeText(chunks, Done(flush)), Done(flush)), payloadRequired) == Failure(SyntaxError)
  {
    var items := docs + [core];
    assert (core + gap)[0] == core[0];
    assert !Blank(core + gap);
    assert OffersRest(docs, core + gap, Done(flush), items);
    assert Offers(TextOf(chunks, Done(flush)), Done(flush), items);
    StreamComes(src, chunks, Done(flush), payloadRequired, items);
    assert FirstBad(src, items, |docs|) by {
      assert items[|docs|] == core;
      assert forall j | 0 <= j < |docs| :: items[j] == docs[j];
    }
  }

  // The callbacks

  /** The items the reader gets to: up to and with the first bad one. */
  ghost predicate Reaches(src: Source, items: seq<string>, n: nat) {
    if NoneBad(src, items) then n == |items| else n > 0 && FirstBad(src, items, n - 1)
  }

  /** Each event makes its own callbacks, an item that is no event none. */
  ghost predicate Calls(parsed: Parsed, calls: seq<Callback>) {
    if parsed.Event? then MakesItsCalls(parsed.event, calls) else calls == []
  }

  /** The callbacks of a stream are those of the items the reader gets to, item by item. */
  lemma StreamCalls(src: Source, chunks: seq<string>, ending: Ending, items: seq<string>, n: nat)
    returns (parts: seq<seq<Callback>>)
    requires Offers(TextOf(chunks, ending), ending, items) && Reaches(src, items, n)
    ensures n <= |items| && |parts| == n
    ensures forall i | 0 <= i < n :: Calls(src.parse(items[i]), parts[i])
    ensures Transcript(src, WholeText(chunks, ending), ending).calls == Concat(parts)
  {
    TextIsWhole(chunks, ending);
    OffersIff(WholeText(chunks, ending), ending, items);
    CallsReached(src, items, n);
    parts := PartsOf(src, items[..n]);
    assert forall i | 0 <= i < n :: items[..n][i] == items[i];
  }

  lemma CallsReached(src: Source, items: seq<string>, n: nat)
    requires Reaches(src, items, n)
    ensures n <= |items| && ConsumeAll(src, NOTHING_YET, items).calls == CallsOfAll(src, items[..n])
  {
    if NoneBad(src, items) {
      QuietIff(src, items);
      QuietProgress(src, items);
      assert items[..n] == items;
    } else {
      FirstBadIsFirstThrow(src, items, n - 1);
      FirstThrowWins(src, items, n - 1);
    }
  }

  lemma {:induction false} PartsOf(src: Source, items: seq<string>) returns (parts: seq<seq<Callback>>)
    ensures |parts| == |items| && CallsOfAll(src, items) == Concat(parts)
    ensures forall i | 0 <= i < |items| :: Calls(src.parse(items[i]), parts[i])
  {
    if items == [] {
      parts := [];
    } else {
      var n := |items| - 1;
      var front := PartsOf(src, items[..n]);
      var last := CallsOf(src, items[n]);
      CallsOfMeaning(src, items[n]);
      parts := front + [last];
      ConcatAppend(front, [last]);
      assert Concat([last]) == last + [];
    }
  }

  lemma CallsOfMeaning(src: Source, item: string)
    ensures Calls(src.parse(item), CallsOf(src, item))
  {
    if src.parse(item).Event? {
      DispatchByKind(src.parse(item).event, src.responseStatus);
    }
  }
}
