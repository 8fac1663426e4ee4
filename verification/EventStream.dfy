/**
 The server-sent event reader (frontend/shared/api/conversation.ts,
 streamActiveConversationRuns): frames are cut at `\r?\n\r?\n`, the `data:` lines
 of a frame are joined, and what parses as JSON is delivered.

 Four differences from the HTML Living Standard (sections 9.2.5 and 9.2.6) are in the
 code and are kept: a lone CR ends no line, every leading blank after `data:` is
 dropped, a payload is trimmed as a whole, and an event left open at the end of the
 stream is delivered.
 */
module EventStream {
  import opened Text

  /** The two regular expressions the code splits at. */
  datatype Separator = Line | Frame

  /** The length of `\r?\n` at the front of `s`, or 0. */
  function TerminatorLength(s: string): (n: nat)
    ensures n <= |s| && n <= 2
  {
    if |s| > 0 && s[0] == '\n' then 1
    else if |s| > 1 && s[0] == '\r' && s[1] == '\n' then 2
    else 0
  }

  /** The length of the separator at the front of `s`, or 0. */
  function MatchLength(sep: Separator, s: string): (n: nat)
    ensures n <= |s|
  {
    var first := TerminatorLength(s);
    match sep
    case Line => first
    case Frame =>
      var second := TerminatorLength(s[first..]);
      if first == 0 || second == 0 then 0 else first + second
  }

  /** `split`: cut at every leftmost match.  There is always at least one piece. */
  function Split(sep: Separator, s: string): (pieces: seq<string>)
    ensures |pieces| > 0
    decreases |s|
  {
    if s == "" then [""]
    else
      var n := MatchLength(sep, s);
      if n > 0 then [""] + Split(sep, s[n..]) else Glue([s[0]], Split(sep, s[1..]))
  }

  /** Put text in front of the first piece. */
  function Glue(text: string, pieces: seq<string>): (glued: seq<string>)
    requires |pieces| > 0
    ensures |glued| == |pieces|
  {
    [text + pieces[0]] + pieces[1..]
  }

  function Front(pieces: seq<string>): seq<string>
    requires |pieces| > 0
  {
    pieces[..|pieces| - 1]
  }

  function Last(pieces: seq<string>): string
    requires |pieces| > 0
  {
    pieces[|pieces| - 1]
  }

  // The content of a frame

  const DATA := "data:"

  function DataLines(lines: seq<string>): seq<string> {
    if lines == [] then []
    else (if DATA <= lines[0] then [TrimStart(lines[0][5..])] else []) + DataLines(lines[1..])
  }

  function JoinLines(lines: seq<string>): string {
    if lines == [] then ""
    else if |lines| == 1 then lines[0]
    else lines[0] + "\n" + JoinLines(lines[1..])
  }

  /** The payload of the collected data lines; an empty one is skipped. */
  function Emit(data: seq<string>): seq<string> {
    var payload := Trim(JoinLines(data));
    if payload == "" then [] else [payload]
  }

  function DataOf(frame: string): string {
    Trim(JoinLines(DataLines(Split(Line, frame))))
  }

  function FramePayload(frame: string): seq<string> {
    if DataOf(frame) == "" then [] else [DataOf(frame)]
  }

  function FramePayloads(frames: seq<string>): seq<string> {
    if frames == [] then [] else FramePayload(frames[0]) + FramePayloads(frames[1..])
  }

  lemma {:induction false} FramePayloadsAppend(a: seq<string>, b: seq<string>)
    ensures FramePayloads(a + b) == FramePayloads(a) + FramePayloads(b)
  {
    if a == [] {
      assert a + b == b;
    } else {
      assert (a + b)[1..] == a[1..] + b;
      FramePayloadsAppend(a[1..], b);
    }
  }

  // Arbitrary cuts

  lemma {:induction false} OnePieceIsWhole(sep: Separator, s: string)
    ensures |Split(sep, s)| == 1 ==> Split(sep, s) == [s]
    decreases |s|
  {
    if s != "" && MatchLength(sep, s) == 0 {
      OnePieceIsWhole(sep, s[1..]);
      assert s == [s[0]] + s[1..];
    }
  }

  lemma PieceOfOne(sep: Separator, c: char)
    requires sep.Frame? || c != '\n'
    ensures |Split(sep, [c])| == 1
  {
    assert [c][1..] == "";
    assert MatchLength(sep, [c]) == 0;
  }

  lemma PieceOfTwo(sep: Separator)
    requires sep.Frame?
    ensures |Split(sep, ['\n', '\r'])| == 1
  {
    assert ['\n', '\r'][1..] == ['\r'];
    PieceOfOne(sep, '\r');
  }

  lemma TerminatorAppend(a: string, b: string)
    requires |a| >= 2
    ensures TerminatorLength(a + b) == TerminatorLength(a)
  {
  }

  /** A separator is at most four characters long. */
  lemma LongEnough(sep: Separator, a: string, b: string)
    requires |a| >= 4
    ensures MatchLength(sep, a + b) == MatchLength(sep, a)
  {
    TerminatorAppend(a, b);
    var n := TerminatorLength(a);
    assert (a + b)[n..] == a[n..] + b;
    TerminatorAppend(a[n..], b);
  }

  /** A separator that needs the text after the cut starts in text that is all one piece. */
  lemma CrossingMatch(sep: Separator, a: string, b: string)
    requires a != "" && MatchLength(sep, a) == 0 && MatchLength(sep, a + b) > 0
    ensures Split(sep, a) == [a]
  {
    if |a| >= 4 {
      LongEnough(sep, a, b);
    }
    assert forall i | 0 <= i < |a| :: (a + b)[i] == a[i];
    if |a| == 2 {
      assert a[1..] == [a[1]];
      PieceOfOne(sep, a[1]);
    } else if |a| == 3 {
      assert a[1..] == [a[1], a[2]] && a[1] == '\n' && a[2] == '\r';
      PieceOfTwo(sep);
    }
    OnePieceIsWhole(sep, a);
  }

  lemma MatchAppend(sep: Separator, a: string, b: string)
    ensures MatchLength(sep, a) > 0 ==> MatchLength(sep, a + b) == MatchLength(sep, a)
  {
    var n := TerminatorLength(a);
    if MatchLength(sep, a) > 0 {
      assert TerminatorLength(a + b) == n;
      assert (a + b)[n..] == a[n..] + b;
    }
  }

  lemma FrontOfCons(piece: string, rest: seq<string>, more: seq<string>)
    requires |rest| > 0
    ensures Front([piece] + rest) + more == [piece] + (Front(rest) + more)
    ensures Last([piece] + rest) == Last(rest)
  {
  }

  lemma FrontOfGlued(text: string, rest: seq<string>, more: seq<string>)
    requires |rest| > 1 && |more| > 0
    ensures Front(Glue(text, rest)) + more == Glue(text, Front(rest) + more)
    ensures Last(Glue(text, rest)) == Last(rest)
  {
  }

  lemma NoMatchAcross(sep: Separator, a: string, b: string)
    requires a != "" && MatchLength(sep, a) == 0 && |Split(sep, a)| > 1
    ensures MatchLength(sep, a + b) == 0
  {
    if MatchLength(sep, a + b) > 0 {
      CrossingMatch(sep, a, b);
    }
  }

  /** What `SplitAppend` says of `a` and `b`. */
  predicate OnlyLastChanges(sep: Separator, a: string, b: string) {
    Split(sep, a + b) == Front(Split(sep, a)) + Split(sep, Last(Split(sep, a)) + b)
  }

  lemma SplitHere(sep: Separator, s: string, n: nat, rest: string)
    requires s != "" && n == MatchLength(sep, s) > 0 && s[n..] == rest
    ensures Split(sep, s) == [""] + Split(sep, rest)
  {
  }

  lemma SplitAtMatch(sep: Separator, a: string, b: string, n: nat, rest: string)
    requires a != "" && n == MatchLength(sep, a) > 0 && rest == a[n..] && OnlyLastChanges(sep, rest, b)
    ensures OnlyLastChanges(sep, a, b)
  {
    MatchAppend(sep, a, b);
    assert (a + b)[n..] == rest + b;
    SplitHere(sep, a, n, rest);
    SplitHere(sep, a + b, n, rest + b);
    FrontOfCons("", Split(sep, rest), Split(sep, Last(Split(sep, rest)) + b));
  }

  lemma SplitLater(sep: Separator, s: string, c: char, rest: string)
    requires s != "" && MatchLength(sep, s) == 0 && s[0] == c && s[1..] == rest
    ensures Split(sep, s) == Glue([c], Split(sep, rest))
  {
  }

  lemma SplitLaterTwice(sep: Separator, a: string, b: string, rest: string)
    requires a != "" && rest == a[1..] && MatchLength(sep, a) == 0 && MatchLength(sep, a + b) == 0
    ensures Split(sep, a) == Glue([a[0]], Split(sep, rest)) && Split(sep, a + b) == Glue([a[0]], Split(sep, rest + b))
  {
    assert (a + b)[1..] == rest + b;
    SplitLater(sep, a, a[0], rest);
    SplitLater(sep, a + b, a[0], rest + b);
  }

  lemma SplitAfterText(sep: Separator, a: string, b: string, rest: string)
    requires a != "" && MatchLength(sep, a) == 0 && rest == a[1..]
    requires |Split(sep, a)| > 1 && OnlyLastChanges(sep, rest, b)
    ensures OnlyLastChanges(sep, a, b)
  {
    NoMatchAcross(sep, a, b);
    SplitLaterTwice(sep, a, b, rest);
    var pieces := Split(sep, rest);
    var more := Split(sep, Last(pieces) + b);
    FrontOfGlued([a[0]], pieces, more);
    calc {
      Split(sep, a + b);
      Glue([a[0]], Split(sep, rest + b));
      Glue([a[0]], Front(pieces) + more);
      Front(Split(sep, a)) + more;
    }
  }

  /** Only the last piece can change when more text arrives. */
  lemma {:induction false} SplitAppend(sep: Separator, a: string, b: string)
    ensures Split(sep, a + b) == Front(Split(sep, a)) + Split(sep, Last(Split(sep, a)) + b)
    decreases |a|
  {
    var n := MatchLength(sep, a);
    if |Split(sep, a)| == 1 {
      OnePieceIsWhole(sep, a);
      assert [] + Split(sep, a + b) == Split(sep, a + b);
    } else if n > 0 {
      SplitAppend(sep, a[n..], b);
      SplitAtMatch(sep, a, b, n, a[n..]);
    } else {
      SplitAppend(sep, a[1..], b);
      SplitAfterText(sep, a, b, a[1..]);
    }
  }

  // The reader

  /** Malformed payloads are ignored. */
  function Parse<E>(parse: string -> Option<E>, payloads: seq<string>): seq<E> {
    if payloads == [] then []
    else ParseOne(parse, payloads[0]) + Parse(parse, payloads[1..])
  }

  function ParseOne<E>(parse: string -> Option<E>, payload: string): seq<E> {
    var parsed := parse(payload);
    if parsed.Some? then [parsed.value] else []
  }

  lemma AppendAssoc<T>(a: seq<T>, b: seq<T>, c: seq<T>)
    ensures a + (b + c) == (a + b) + c
  {
  }

  lemma {:induction false} ParseAppend<E>(parse: string -> Option<E>, a: seq<string>, b: seq<string>)
    ensures Parse(parse, a + b) == Parse(parse, a) + Parse(parse, b)
  {
    if a == [] {
      assert a + b == b;
    } else {
      assert (a + b)[1..] == a[1..] + b && (a + b)[0] == a[0];
      ParseAppend(parse, a[1..], b);
      AppendAssoc(ParseOne(parse, a[0]), Parse(parse, a[1..]), Parse(parse, b));
    }
  }

  /** The events a list of frames delivers. */
  function Deliver<E>(parse: string -> Option<E>, frames: seq<string>): seq<E> {
    Parse(parse, FramePayloads(frames))
  }

  lemma DeliverAppend<E>(parse: string -> Option<E>, a: seq<string>, b: seq<string>)
    ensures Deliver(parse, a + b) == Deliver(parse, a) + Deliver(parse, b)
  {
    FramePayloadsAppend(a, b);
    ParseAppend(parse, FramePayloads(a), FramePayloads(b));
  }

  /** A frame whose payload is empty or does not parse is skipped. */
  lemma DeliverOne<E>(parse: string -> Option<E>, frame: string)
    ensures var data := DataOf(frame);
            Deliver(parse, [frame]) == if data == "" || parse(data).None? then [] else [parse(data).value]
  {
    assert [frame][1..] == [] && FramePayloads([]) == [];
    assert FramePayloads([frame]) == FramePayload(frame);
    assert [DataOf(frame)][1..] == [] && Parse(parse, []) == [];
  }

  lemma DeliverNext<E>(parse: string -> Option<E>, events: seq<E>, frames: seq<string>, i: nat)
    requires i < |frames|
    ensures events + Deliver(parse, frames[..i + 1])
            == (events + Deliver(parse, frames[..i])) + Deliver(parse, [frames[i]])
  {
    assert frames[..i + 1] == frames[..i] + [frames[i]];
    DeliverAppend(parse, frames[..i], [frames[i]]);
    AppendAssoc(events, Deliver(parse, frames[..i]), Deliver(parse, [frames[i]]));
  }

  lemma DeliverNone<E>(parse: string -> Option<E>, events: seq<E>, frames: seq<string>)
    ensures events == events + Deliver(parse, frames[..0])
    ensures Deliver(parse, frames[..|frames|]) == Deliver(parse, frames)
  {
    assert Deliver(parse, frames[..0]) == [];
    assert frames[..|frames|] == frames;
  }

  class ActiveRunStream<E> {
    const parse: string -> Option<E>
    var buffer: string
    var events: seq<E>

    constructor (parse: string -> Option<E>)
      ensures this.parse == parse && buffer == "" && events == []
    {
      this.parse := parse;
      buffer, events := "", [];
    }

    /** `flush` is the decoder's last output; without it the last piece waits for more text. */
    method ConsumeFrames(flush: Option<string>)
      modifies this
      ensures flush.None? ==>
                && buffer == Last(Split(Frame, old(buffer)))
                && events == old(events) + Deliver(parse, Front(Split(Frame, old(buffer))))
      ensures flush.Some? ==>
                && buffer == ""
                && events == old(events) + Deliver(parse, Split(Frame, old(buffer) + flush.value))
    {
      assert buffer + "" == buffer;
      buffer := buffer + if flush.Some? then flush.value else "";
      var frames := Split(Frame, buffer);
      if flush.Some? {
        buffer := "";
      } else {
        buffer := Last(frames);
        frames := Front(frames);
      }
      DeliverFrames(frames);
    }

    /** The loop of `ConsumeFrames` over the finished frames. */
    method DeliverFrames(frames: seq<string>)
      modifies this`events
      ensures events == old(events) + Deliver(parse, frames)
    {
      var i := 0;
      DeliverNone(parse, events, frames);
      while i < |frames|
        invariant 0 <= i <= |frames|
        invariant events == old(events) + Deliver(parse, frames[..i])
      {
        DeliverFrame(frames[i]);
        DeliverNext(parse, old(events), frames, i);
        i := i + 1;
      }
    }

    method DeliverFrame(frame: string)
      modifies this`events
      ensures events == old(events) + Deliver(parse, [frame])
    {
      DeliverOne(parse, frame);
      var data := DataOf(frame);
      if data == "" {
        return;
      }
      var parsed := parse(data);
      if parsed.Some? {
        events := events + [parsed.value];
      }
    }

    /**
     However the text is cut, even inside a separator, the events are those of the whole
     text, and nothing is left.  If a read fails instead (`flush` is `None`), the error is
     passed on, and only the finished frames of the text read so far were delivered.
     */
    method ReadAll(chunks: seq<string>, flush: Option<string>) returns (completed: bool)
      requires buffer == "" && events == []
      modifies this
      ensures completed == flush.Some?
      ensures completed ==>
                buffer == "" && events == Deliver(parse, Split(Frame, Concat(chunks) + flush.value))
      ensures !completed ==>
                && buffer == Last(Split(Frame, Concat(chunks)))
                && events == Deliver(parse, Front(Split(Frame, Concat(chunks))))
    {
      ReadChunks(chunks);
      completed := flush.Some?;
      if completed {
        FlushProgress(parse, Concat(chunks), flush.value);
        ConsumeFrames(flush);
      }
    }

    /** The reads before the last one. */
    method ReadChunks(chunks: seq<string>)
      requires buffer == "" && events == []
      modifies this
      ensures buffer == Last(Split(Frame, Concat(chunks)))
      ensures events == Deliver(parse, Front(Split(Frame, Concat(chunks))))
    {
      var i := 0;
      NothingRead(parse, chunks);
      while i < |chunks|
        invariant 0 <= i <= |chunks|
        invariant buffer == Last(Split(Frame, Concat(chunks[..i])))
        invariant events == Deliver(parse, Front(Split(Frame, Concat(chunks[..i]))))
      {
        ReadStep(parse, chunks, i);
        buffer := buffer + chunks[i];
        ConsumeFrames(None);
        i := i + 1;
      }
      assert chunks[..i] == chunks;
    }
  }

  lemma NothingRead<E>(parse: string -> Option<E>, chunks: seq<string>)
    ensures Last(Split(Frame, Concat(chunks[..0]))) == ""
    ensures Deliver(parse, Front(Split(Frame, Concat(chunks[..0])))) == []
  {
    assert chunks[..0] == [] && Split(Frame, "") == [""] && Front([""]) == [];
  }

  lemma ReadStep<E>(parse: string -> Option<E>, chunks: seq<string>, i: nat)
    requires i < |chunks|
    ensures var before, after := Split(Frame, Concat(chunks[..i])), Split(Frame, Concat(chunks[..i + 1]));
            var buffered := Split(Frame, Last(before) + chunks[i]);
            && Last(after) == Last(buffered)
            && Deliver(parse, Front(after)) == Deliver(parse, Front(before)) + Deliver(parse, Front(buffered))
  {
    ConcatTake(chunks, i);
    ReadProgress(parse, Concat(chunks[..i]), chunks[i]);
  }

  lemma FlushProgress<E>(parse: string -> Option<E>, text: string, flush: string)
    ensures var pieces := Split(Frame, text);
            Deliver(parse, Split(Frame, text + flush))
            == Deliver(parse, Front(pieces)) + Deliver(parse, Split(Frame, Last(pieces) + flush))
  {
    var pieces := Split(Frame, text);
    SplitAppend(Frame, text, flush);
    DeliverAppend(parse, Front(pieces), Split(Frame, Last(pieces) + flush));
  }

  /** One read: the finished frames of the buffer extend the finished frames of the text. */
  lemma ReadProgress<E>(parse: string -> Option<E>, text: string, chunk: string)
    ensures var before, after := Split(Frame, text), Split(Frame, text + chunk);
            var buffered := Split(Frame, Last(before) + chunk);
            && Last(after) == Last(buffered)
            && Deliver(parse, Front(after)) == Deliver(parse, Front(before)) + Deliver(parse, Front(buffered))
  {
    var before := Split(Frame, text);
    var buffered := Split(Frame, Last(before) + chunk);
    SplitAppend(Frame, text, chunk);
    assert Front(Front(before) + buffered) == Front(before) + Front(buffered);
    DeliverAppend(parse, Front(before), Front(buffered));
  }

  // Line by line, as the standard reads a stream

  /** Collect data lines; a blank line dispatches what was collected. */
  function Dispatch(lines: seq<string>, data: seq<string>): seq<string>
    decreases |lines|
  {
    if lines == [] then Emit(data)
    else if lines[0] == "" then Emit(data) + Dispatch(lines[1..], [])
    else Dispatch(lines[1..], data + DataLines([lines[0]]))
  }

  /** `t` ends the line `line`; an empty `t` means the text stops there. */
  predicate EndsLine(line: string, t: string) {
    && (t == "" || t == "\n" || t == "\r\n")
    && '\n' !in line
    && (t == "\n" ==> line == "" || line[|line| - 1] != '\r')
  }

  /** Every text is its first line, the terminator, and the rest. */
  lemma {:induction false} FirstLine(s: string) returns (line: string, t: string, rest: string)
    ensures EndsLine(line, t) && s == line + (t + rest) && (t == "" ==> rest == "")
    decreases |s|
  {
    var n := TerminatorLength(s);
    if s == "" {
      line, t, rest := "", "", "";
    } else if n > 0 {
      line, t, rest := "", s[..n], s[n..];
      assert s == t + rest;
    } else {
      line, t, rest := FirstLine(s[1..]);
      assert s == [s[0]] + s[1..];
      if line == "" && t == "\n" {
        assert s[1] == '\n';
      }
      line := [s[0]] + line;
    }
  }

  lemma InsideLine(line: string, t: string, rest: string)
    requires line != "" && EndsLine(line, t) && (t == "" ==> rest == "")
    ensures var s := line + (t + rest);
            TerminatorLength(s) == 0 && s[0] == line[0] && s[1..] == line[1..] + (t + rest)
    ensures EndsLine(line[1..], t)
  {
    var s := line + (t + rest);
    if |s| > 1 && line[0] == '\r' {
      if |line| > 1 {
        assert s[1] == line[1] && line[1] in line;
      } else {
        assert s[1] == t[0];
      }
    }
  }

  lemma AtTerminator(t: string, rest: string)
    requires t == "\n" || t == "\r\n"
    ensures TerminatorLength(t + rest) == |t| && (t + rest)[|t|..] == rest
  {
  }

  lemma {:induction false} SplitLine(line: string, t: string, rest: string)
    requires EndsLine(line, t) && t != ""
    ensures Split(Line, line + (t + rest)) == [line] + Split(Line, rest)
    decreases |line|
  {
    if line == "" {
      assert line + (t + rest) == t + rest;
      AtTerminator(t, rest);
    } else {
      InsideLine(line, t, rest);
      SplitLater(Line, line + (t + rest), line[0], line[1..] + (t + rest));
      SplitLine(line[1..], t, rest);
      assert [line[0]] + line[1..] == line;
    }
  }

  lemma {:induction false} SplitLastLine(sep: Separator, line: string)
    requires '\n' !in line
    ensures Split(sep, line) == [line]
    decreases |line|
  {
    if line != "" {
      assert line == [line[0]] + line[1..];
      SplitLastLine(sep, line[1..]);
    }
  }

  lemma GlueTwice(a: string, b: string, pieces: seq<string>)
    requires |pieces| > 0
    ensures Glue(a, Glue(b, pieces)) == Glue(a + b, pieces)
  {
    assert a + (b + pieces[0]) == (a + b) + pieces[0];
  }

  lemma ClosedAtStart(t: string, u: string, rest: string)
    requires (t == "\n" || t == "\r\n") && (u == "\n" || u == "\r\n")
    ensures Split(Frame, t + (u + rest)) == [""] + Split(Frame, rest)
  {
    AtTerminator(u, rest);
    AtTerminator(t, u + rest);
    assert (t + (u + rest))[|t| + |u|..] == rest;
  }

  /** A terminator in front of another closes the frame. */
  lemma {:induction false} SplitClosed(line: string, t: string, u: string, rest: string)
    requires EndsLine(line, t) && t != "" && (u == "\n" || u == "\r\n")
    ensures Split(Frame, line + (t + (u + rest))) == [line] + Split(Frame, rest)
    decreases |line|
  {
    if line == "" {
      ClosedAtStart(t, u, rest);
      assert line + (t + (u + rest)) == t + (u + rest);
    } else {
      InsideLine(line, t, u + rest);
      SplitLater(Frame, line + (t + (u + rest)), line[0], line[1..] + (t + (u + rest)));
      SplitClosed(line[1..], t, u, rest);
      assert [line[0]] + line[1..] == line;
    }
  }

  lemma OpenAtStart(t: string, rest: string)
    requires (t == "\n" || t == "\r\n") && TerminatorLength(rest) == 0
    ensures Split(Frame, t + rest) == Glue(t, Split(Frame, rest))
  {
    AtTerminator(t, rest);
    if t == "\r\n" {
      assert (t + rest)[1..] == "\n" + rest;
      AtTerminator("\n", rest);
      GlueTwice("\r", "\n", Split(Frame, rest));
      assert "\r" + "\n" == t;
    }
  }

  lemma HeadAndTail(line: string, t: string)
    requires line != ""
    ensures [line[0]] + (line[1..] + t) == line + t
  {
  }

  /** A terminator in front of anything else belongs to the frame. */
  lemma {:induction false} SplitOpen(line: string, t: string, rest: string)
    requires EndsLine(line, t) && t != "" && TerminatorLength(rest) == 0
    ensures Split(Frame, line + (t + rest)) == Glue(line + t, Split(Frame, rest))
    decreases |line|
  {
    if line == "" {
      OpenAtStart(t, rest);
      assert line + (t + rest) == t + rest && line + t == t;
    } else {
      InsideLine(line, t, rest);
      SplitLater(Frame, line + (t + rest), line[0], line[1..] + (t + rest));
      SplitOpen(line[1..], t, rest);
      GlueTwice([line[0]], line[1..] + t, Split(Frame, rest));
      HeadAndTail(line, t);
    }
  }

  lemma DataLinesCons(line: string, lines: seq<string>)
    ensures DataLines([line] + lines) == DataLines([line]) + DataLines(lines)
  {
    assert ([line] + lines)[1..] == lines;
  }

  /** What the frames of `s` deliver when `data` was collected before `s`. */
  function Continued(data: seq<string>, frames: seq<string>): seq<string>
    requires |frames| > 0
  {
    Emit(data + DataLines(Split(Line, frames[0]))) + FramePayloads(frames[1..])
  }

  lemma ContinuedNothing(frames: seq<string>)
    requires |frames| > 0
    ensures Continued([], frames) == FramePayloads(frames)
  {
    assert [] + DataLines(Split(Line, frames[0])) == DataLines(Split(Line, frames[0]));
  }

  lemma DispatchStep(line: string, lines: seq<string>, data: seq<string>)
    requires line == "" ==> data == []
    ensures Dispatch([line] + lines, data) == Dispatch(lines, data + DataLines([line]))
  {
    assert ([line] + lines)[1..] == lines;
    if line == "" {
      assert Emit([]) == [] && data + DataLines([line]) == [];
    }
  }

  lemma ContinuedClosed(line: string, rest: seq<string>, data: seq<string>)
    requires '\n' !in line
    ensures Continued(data, [line] + rest) == Emit(data + DataLines([line])) + FramePayloads(rest)
  {
    SplitLastLine(Line, line);
    assert ([line] + rest)[1..] == rest;
  }

  lemma ContinuedOpen(line: string, t: string, frames: seq<string>, data: seq<string>)
    requires EndsLine(line, t) && t != "" && |frames| > 0
    ensures Continued(data, Glue(line + t, frames)) == Continued(data + DataLines([line]), frames)
  {
    assert (line + t) + frames[0] == line + (t + frames[0]);
    SplitLine(line, t, frames[0]);
    DataLinesCons(line, Split(Line, frames[0]));
    assert (data + DataLines([line])) + DataLines(Split(Line, frames[0]))
        == data + (DataLines([line]) + DataLines(Split(Line, frames[0])));
  }

  /** What `FramesAreDispatches` says of `s` and `data`. */
  predicate SamePayloads(s: string, data: seq<string>) {
    Dispatch(Split(Line, s), data) == Continued(data, Split(Frame, s))
  }

  lemma FirstTerminator(s: string) returns (t: string, rest: string)
    requires TerminatorLength(s) > 0
    ensures s == t + rest && (t == "\n" || t == "\r\n")
  {
    var n := TerminatorLength(s);
    t, rest := s[..n], s[n..];
  }

  /** The text is one last line. */
  lemma LastFrame(s: string, data: seq<string>)
    requires '\n' !in s
    ensures SamePayloads(s, data)
  {
    SplitLastLine(Line, s);
    SplitLastLine(Frame, s);
    LastLine(s, data);
  }

  /** The frame goes on after the first line. */
  lemma OpenFrame(line: string, t: string, rest: string, data: seq<string>)
    requires EndsLine(line, t) && t != "" && TerminatorLength(rest) == 0
    requires line == "" ==> data == []
    requires SamePayloads(rest, data + DataLines([line]))
    ensures SamePayloads(line + (t + rest), data)
  {
    SplitLine(line, t, rest);
    DispatchStep(line, Split(Line, rest), data);
    SplitOpen(line, t, rest);
    ContinuedOpen(line, t, Split(Frame, rest), data);
  }

  /** The frame ends after the first line. */
  lemma ClosedFrame(line: string, t: string, u: string, more: string, data: seq<string>)
    requires EndsLine(line, t) && t != "" && (u == "\n" || u == "\r\n")
    requires line == "" ==> data == []
    requires SamePayloads(more, [])
    ensures SamePayloads(line + (t + (u + more)), data)
  {
    ContinuedNothing(Split(Frame, more));
    SplitClosed(line, t, u, more);
    ContinuedClosed(line, Split(Frame, more), data);
    SplitLine(line, t, u + more);
    DispatchStep(line, Split(Line, u + more), data);
    assert "" + (u + more) == u + more;
    SplitLine("", u, more);
    BlankDispatches(Split(Line, more), data + DataLines([line]));
  }

  /**
   Cutting frames first and lines second gives the same payloads as reading the
   stream line by line and dispatching at blank lines, for every text.
   */
  lemma {:induction false} FramesAreDispatches(s: string, data: seq<string>)
    requires data == [] || TerminatorLength(s) == 0
    ensures Dispatch(Split(Line, s), data) == Continued(data, Split(Frame, s))
    decreases |s|
  {
    var line, t, rest := FirstLine(s);
    if t == "" {
      assert s == line;
      LastFrame(s, data);
    } else {
      assert line == "" ==> data == [] by {
        if line == "" {
          assert s == t + rest;
          AtTerminator(t, rest);
        }
      }
      if TerminatorLength(rest) == 0 {
        FramesAreDispatches(rest, data + DataLines([line]));
        OpenFrame(line, t, rest, data);
      } else {
        var u, more := FirstTerminator(rest);
        FramesAreDispatches(more, []);
        ClosedFrame(line, t, u, more, data);
      }
    }
  }

  lemma BlankDispatches(lines: seq<string>, data: seq<string>)
    ensures Dispatch([""] + lines, data) == Emit(data) + Dispatch(lines, [])
  {
    assert ([""] + lines)[1..] == lines;
  }

  lemma LastLine(s: string, data: seq<string>)
    requires '\n' !in s
    ensures Dispatch([s], data) == Continued(data, [s])
  {
    SplitLastLine(Line, s);
    assert Emit([]) == [] && DataLines([""]) == [];
    assert FramePayloads([s][1..]) == [];
    assert Dispatch([s][1..], []) == [];
    if s == "" {
      assert data + [] == data;
    } else {
      assert Dispatch([s][1..], data + DataLines([s])) == Emit(data + DataLines([s]));
    }
  }

  /** The whole stream: the reader is a line reader that dispatches at blank lines and at the end. */
  lemma ReaderIsLineReader<E>(parse: string -> Option<E>, s: string)
    ensures Deliver(parse, Split(Frame, s)) == Parse(parse, Dispatch(Split(Line, s), []))
  {
    FramesAreDispatches(s, []);
    ContinuedNothing(Split(Frame, s));
  }

  // Round trip

  /** Joining with line feeds: one line is itself, and between two parts there is one line feed. */
  lemma {:induction false} JoinMeaning(a: seq<string>, b: seq<string>)
    requires a != [] && b != []
    ensures JoinLines(a + b) == JoinLines(a) + ("\n" + JoinLines(b))
    ensures |a| == 1 ==> JoinLines(a) == a[0]
    decreases |a|
  {
    assert (a + b)[0] == a[0] && (a + b)[1..] == a[1..] + b;
    if |a| > 1 {
      JoinMeaning(a[1..], b);
    } else {
      assert a[1..] + b == b;
    }
  }

  /** A line of an event: data after any blanks, perhaps none, or another field or comment. */
  datatype Field = Data(gap: string, text: string) | Unread(line: string)

  predicate FieldOk(field: Field) {
    match field
    case Data(gap, text) => Blank(gap) && (text == "" || !IsBlank(text[0])) && LineOk("data:" + (gap + text))
    case Unread(line) => line != "" && LineOk(line) && !("data:" <= line)
  }

  function Written(field: Field): string {
    if field.Data? then "data:" + (field.gap + field.text) else field.line
  }

  /** The lines of the events, with an empty line after each event. */
  function LinesOf(event: seq<Field>): seq<string> {
    if event == [] then [""] else [Written(event[0])] + LinesOf(event[1..])
  }

  function AllLines(events: seq<seq<Field>>): seq<string> {
    if events == [] then [] else LinesOf(events[0]) + AllLines(events[1..])
  }

  /** Lines on the wire, each ended by LF or CRLF. */
  function Encode(lines: seq<string>, crlf: seq<bool>): string
    requires |lines| == |crlf|
  {
    if lines == [] then "" else lines[0] + (Eol(crlf[0]) + Encode(lines[1..], crlf[1..]))
  }

  function Eol(crlf: bool): string {
    if crlf then "\r\n" else "\n"
  }

  function Texts(event: seq<Field>): seq<string> {
    if event == [] then []
    else TextOf(event[0]) + Texts(event[1..])
  }

  function TextOf(field: Field): seq<string> {
    if field.Data? then [field.text] else []
  }

  /** The texts joined by line feeds and trimmed; if nothing is left it is no message. */
  function Message(texts: seq<string>): seq<string> {
    var joined := Trim(JoinLines(texts));
    if joined == "" then [] else [joined]
  }

  /** What should arrive: one message an event, but none for an event without data. */
  function Messages(events: seq<seq<Field>>): seq<string> {
    if events == [] then [] else Message(Texts(events[0])) + Messages(events[1..])
  }

  predicate EventOk(event: seq<Field>) {
    forall i | 0 <= i < |event| :: FieldOk(event[i])
  }

  /** A line that can stand in front of either terminator. */
  predicate LineOk(line: string) {
    '\n' !in line && (line == "" || line[|line| - 1] != '\r')
  }

  lemma WrittenIsLine(field: Field)
    requires FieldOk(field)
    ensures Written(field) != "" && LineOk(Written(field))
  {
  }

  lemma {:induction false} EventLinesOk(event: seq<Field>)
    requires EventOk(event)
    ensures forall i | 0 <= i < |LinesOf(event)| :: LineOk(LinesOf(event)[i])
  {
    if event != [] {
      WrittenIsLine(event[0]);
      EventLinesOk(event[1..]);
    }
  }

  lemma {:induction false} AllLinesOk(events: seq<seq<Field>>)
    requires forall i | 0 <= i < |events| :: EventOk(events[i])
    ensures forall i | 0 <= i < |AllLines(events)| :: LineOk(AllLines(events)[i])
  {
    if events != [] {
      EventLinesOk(events[0]);
      AllLinesOk(events[1..]);
    }
  }

  /** Reading lines undoes writing them. */
  lemma {:induction false} LinesComeBack(lines: seq<string>, crlf: seq<bool>)
    requires |lines| == |crlf| && forall i | 0 <= i < |lines| :: LineOk(lines[i])
    ensures Split(Line, Encode(lines, crlf)) == lines + [""]
    decreases |lines|
  {
    if lines != [] {
      LinesComeBack(lines[1..], crlf[1..]);
      SplitLine(lines[0], Eol(crlf[0]), Encode(lines[1..], crlf[1..]));
      assert lines + [""] == [lines[0]] + (lines[1..] + [""]);
    }
  }

  /** A data line gives its text, any other line nothing. */
  lemma FieldData(field: Field)
    requires FieldOk(field)
    ensures DataLines([Written(field)]) == TextOf(field)
  {
    var line := Written(field);
    var lines: seq<string> := [line];
    assert lines[1..] == [] && DataLines([]) == [];
    if field.Data? {
      assert line[..5] == DATA && line[5..] == field.gap + field.text;
      TrimStartBlank(field.gap, field.text);
    } else {
      assert !(DATA <= line);
    }
  }

  lemma {:induction false} JoinIsCore(texts: seq<string>)
    requires texts != [] && forall i | 0 <= i < |texts| :: Core(texts[i])
    ensures Core(JoinLines(texts))
  {
    if |texts| > 1 {
      JoinIsCore(texts[1..]);
      var s := texts[0] + "\n" + JoinLines(texts[1..]);
      assert s[0] == texts[0][0] && s[|s| - 1] == JoinLines(texts[1..])[|JoinLines(texts[1..])| - 1];
    }
  }

  /** Texts that keep their ends arrive as they are, joined. */
  lemma CoreMessage(texts: seq<string>)
    requires forall i | 0 <= i < |texts| :: Core(texts[i])
    ensures Message(texts) == if texts == [] then [] else [JoinLines(texts)]
  {
    if texts != [] {
      JoinIsCore(texts);
      var s := JoinLines(texts);
      assert "" + (s + "") == s;
      TrimOfCore("", s, "");
    }
  }

  lemma LinesOfCons(field: Field, later: seq<Field>, rest: seq<string>)
    ensures LinesOf([field] + later) + rest == [Written(field)] + (LinesOf(later) + rest)
    ensures Texts([field] + later) == TextOf(field) + Texts(later)
  {
    assert ([field] + later)[1..] == later;
  }

  /** Reading one event after `data` was collected from its first lines. */
  lemma {:induction false} DispatchEvent(event: seq<Field>, rest: seq<string>, data: seq<string>)
    requires EventOk(event)
    ensures Dispatch(LinesOf(event) + rest, data) == Message(data + Texts(event)) + Dispatch(rest, [])
    decreases |event|
  {
    if event == [] {
      BlankDispatches(rest, data);
      assert data + [] == data;
    } else {
      var field, later := event[0], event[1..];
      assert event == [field] + later;
      DispatchField(field, LinesOf(later) + rest, data);
      LinesOfCons(field, later, rest);
      DispatchEvent(later, rest, data + TextOf(field));
      AppendAssoc(data, TextOf(field), Texts(later));
    }
  }

  lemma DispatchField(field: Field, lines: seq<string>, data: seq<string>)
    requires FieldOk(field)
    ensures Dispatch([Written(field)] + lines, data) == Dispatch(lines, data + TextOf(field))
  {
    WrittenIsLine(field);
    FieldData(field);
    DispatchStep(Written(field), lines, data);
  }

  lemma {:induction false} DispatchEvents(events: seq<seq<Field>>)
    requires forall i | 0 <= i < |events| :: EventOk(events[i])
    ensures Dispatch(AllLines(events) + [""], []) == Messages(events)
  {
    if events == [] {
      BlankDispatches([], []);
      assert AllLines(events) + [""] == [""] + [];
    } else {
      var rest := AllLines(events[1..]) + [""];
      DispatchEvents(events[1..]);
      assert AllLines(events) + [""] == LinesOf(events[0]) + rest;
      DispatchEvent(events[0], rest, []);
      assert [] + Texts(events[0]) == Texts(events[0]);
    }
  }

  /**
   Events written line by line, with several data lines, blanks around them, other fields
   and comments among them and either line ending anywhere, arrive as their messages.
   */
  lemma EncodedComesBack(events: seq<seq<Field>>, crlf: seq<bool>)
    requires |crlf| == |AllLines(events)| && forall i | 0 <= i < |events| :: EventOk(events[i])
    ensures FramePayloads(Split(Frame, Encode(AllLines(events), crlf))) == Messages(events)
  {
    var s := Encode(AllLines(events), crlf);
    AllLinesOk(events);
    LinesComeBack(AllLines(events), crlf);
    DispatchEvents(events);
    FramesAreDispatches(s, []);
    ContinuedNothing(Split(Frame, s));
  }

  /** The events of such a stream are those of its messages that parse, in order. */
  lemma EventsComeBack<E>(parse: string -> Option<E>, events: seq<seq<Field>>, crlf: seq<bool>)
    requires |crlf| == |AllLines(events)| && forall i | 0 <= i < |events| :: EventOk(events[i])
    requires forall i | 0 <= i < |Messages(events)| :: parse(Messages(events)[i]).Some?
    ensures var delivered := Deliver(parse, Split(Frame, Encode(AllLines(events), crlf)));
            |delivered| == |Messages(events)|
            && forall i | 0 <= i < |delivered| :: Some(delivered[i]) == parse(Messages(events)[i])
  {
    EncodedComesBack(events, crlf);
    AllParse(parse, Messages(events));
  }

  lemma {:induction false} AllParse<E>(parse: string -> Option<E>, payloads: seq<string>)
    requires forall i | 0 <= i < |payloads| :: parse(payloads[i]).Some?
    ensures |Parse(parse, payloads)| == |payloads|
    ensures forall i | 0 <= i < |payloads| :: Some(Parse(parse, payloads)[i]) == parse(payloads[i])
  {
    if payloads != [] {
      AllParse(parse, payloads[1..]);
    }
  }
}
