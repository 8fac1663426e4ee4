/**
 Cutting a growing text into top-level JSON objects
 (frontend/shared/api/conversation.ts, extractJSONDocuments).

 `Extract` is the splitter as a recursive function; `ExtractJSONDocuments` is
 the source's single pass over indices, proved equal to it.  What the splitter
 means is `SplitsAs`: blanks and complete documents, interleaved, in front of a
 remainder that holds no complete document.
 */
module JsonSplitter {
  import opened Text

  /** Where a reader stands after some text: open braces, and whether it is inside a string. */
  datatype Scan = Scan(depth: int, inString: bool, escaped: bool)

  const START := Scan(0, false, false)

  function Step(st: Scan, c: char): Scan {
    if st.inString then
      if st.escaped then st.(escaped := false)
      else if c == '\\' then st.(escaped := true)
      else if c == '"' then st.(inString := false)
      else st
    else if c == '"' then st.(inString := true)
    else if c == '{' then st.(depth := st.depth + 1)
    else if c == '}' then st.(depth := st.depth - 1)
    else st
  }

  function After(st: Scan, s: string): Scan
    decreases |s|
  {
    if s == "" then st else After(Step(st, s[0]), s[1..])
  }

  /** The number of braces still open after `s`, braces inside strings not counted. */
  function Depth(s: string): int {
    After(START, s).depth
  }

  /** A complete document: it opens a brace, closes it with its last character and not before. */
  predicate Document(s: string) {
    && |s| > 0 && s[0] == '{'
    && Depth(s) == 0
    && forall k | 0 < k < |s| :: Depth(s[..k]) > 0
  }

  /** Nothing more can be taken from the front of `s`. */
  ghost predicate Stuck(s: string) {
    && (s == "" || !IsBlank(s[0]))
    && forall k | 0 <= k <= |s| :: !Document(s[..k])
  }

  function Weave(gaps: seq<string>, docs: seq<string>): string
    requires |gaps| == |docs| + 1
  {
    if docs == [] then gaps[0] else gaps[0] + (docs[0] + Weave(gaps[1..], docs[1..]))
  }

  ghost predicate SplitsAs(source: string, gaps: seq<string>, docs: seq<string>, remainder: string) {
    && |gaps| == |docs| + 1
    && (forall i | 0 <= i < |gaps| :: Blank(gaps[i]))
    && (forall i | 0 <= i < |docs| :: Document(docs[i]))
    && Stuck(remainder)
    && source == Weave(gaps, docs) + remainder
  }

  // The splitter as a function

  function EndFrom(s: string, i: nat, st: Scan): (end: Option<nat>)
    requires i <= |s|
    decreases |s| - i
    ensures end.Some? ==> i < end.value <= |s|
  {
    if i == |s| then None
    else
      var next := Step(st, s[i]);
      if next.depth == 0 then Some(i + 1) else EndFrom(s, i + 1, next)
  }

  function DocumentEnd(s: string): (end: Option<nat>)
    ensures end.Some? ==> 0 < end.value <= |s|
  {
    if s == "" || s[0] != '{' then None else EndFrom(s, 1, Step(START, s[0]))
  }

  datatype Extraction = Extraction(documents: seq<string>, remainder: string)

  function Prepend(documents: seq<string>, x: Extraction): Extraction {
    x.(documents := documents + x.documents)
  }

  function Extract(source: string): Extraction
    decreases |source|
  {
    var s := TrimStart(source);
    match DocumentEnd(s)
    case None => Extraction([], s)
    case Some(end) => Prepend([s[..end]], Extract(s[end..]))
  }

  // Scanning

  lemma {:induction false} AfterAppend(st: Scan, a: string, b: string)
    ensures After(st, a + b) == After(After(st, a), b)
    decreases |a|
  {
    if a == "" {
      assert a + b == b;
    } else {
      assert (a + b)[1..] == a[1..] + b;
      AfterAppend(Step(st, a[0]), a[1..], b);
    }
  }

  lemma AfterExtend(st: Scan, s: string, i: nat)
    requires i < |s|
    ensures After(st, s[..i + 1]) == Step(After(st, s[..i]), s[i])
  {
    assert s[..i + 1] == s[..i] + [s[i]];
    AfterAppend(st, s[..i], [s[i]]);
    assert After(After(st, s[..i]), [s[i]]) == Step(After(st, s[..i]), s[i]);
  }

  /** The forward scan finds the first place where the depth returns to zero, or proves there is none. */
  lemma {:induction false} EndFromIsFirst(s: string, i: nat, st: Scan)
    requires i <= |s| && st == After(START, s[..i])
    ensures var end := EndFrom(s, i, st);
            && (forall k | i < k <= |s| && (end.None? || k < end.value) :: Depth(s[..k]) != 0)
            && (end.Some? ==> Depth(s[..end.value]) == 0)
    decreases |s| - i
  {
    if i < |s| {
      AfterExtend(START, s, i);
      if Step(st, s[i]).depth != 0 {
        EndFromIsFirst(s, i + 1, Step(st, s[i]));
      }
    }
  }

  /** One character moves the depth by at most one, so it cannot jump over zero. */
  lemma {:induction false} DepthStaysPositive(s: string, k: nat)
    requires 0 < k <= |s| && s[0] == '{'
    requires forall j | 0 < j <= k :: Depth(s[..j]) != 0
    ensures Depth(s[..k]) > 0
  {
    if k == 1 {
      assert s[..1] == [s[0]];
      assert After(START, s[..1]) == Step(START, s[0]);
    } else {
      DepthStaysPositive(s, k - 1);
      AfterExtend(START, s, k - 1);
    }
  }

  lemma DocumentPrefix(s: string, k: nat, m: nat)
    requires k <= m <= |s|
    ensures s[..m][..k] == s[..k]
  {
  }

  /** `DocumentEnd` finds exactly the length of the complete document in front of `s`. */
  lemma DocumentEndIffDocument(s: string, k: nat)
    requires k <= |s|
    ensures DocumentEnd(s) == Some(k) <==> Document(s[..k])
  {
    if s == "" || s[0] != '{' || k == 0 {
      return;
    }
    assert s[..1] == [s[0]];
    assert After(START, s[..1]) == Step(START, s[0]);
    EndFromIsFirst(s, 1, Step(START, s[0]));
    var end := DocumentEnd(s);
    if end == Some(k) {
      forall j | 0 < j < k
        ensures Depth(s[..k][..j]) > 0
      {
        DocumentPrefix(s, j, k);
        assert Depth(s[..1]) == 1;
        DepthStaysPositive(s, j);
      }
    } else if end.Some? && end.value < k {
      DocumentPrefix(s, end.value, k);
      assert !Document(s[..k]);
    }
  }

  lemma StuckIffNoEnd(s: string)
    ensures Stuck(s) <==> (s == "" || !IsBlank(s[0])) && DocumentEnd(s).None?
  {
    forall k | 0 <= k <= |s|
      ensures DocumentEnd(s) == Some(k) <==> Document(s[..k])
    {
      DocumentEndIffDocument(s, k);
    }
    if DocumentEnd(s).Some? {
      assert Document(s[..DocumentEnd(s).value]);
    }
  }

  // What extraction means

  lemma ExtractNext(gap: string, s: string)
    requires Blank(gap) && (s == "" || !IsBlank(s[0]))
    ensures Extract(gap + s) == match DocumentEnd(s)
                                case None => Extraction([], s)
                                case Some(end) => Prepend([s[..end]], Extract(s[end..]))
  {
    TrimStartBlank(gap, s);
  }

  lemma WeaveCons(gap: string, doc: string, gaps: seq<string>, docs: seq<string>, remainder: string)
    requires |gaps| == |docs| + 1
    ensures Weave([gap] + gaps, [doc] + docs) + remainder == gap + (doc + (Weave(gaps, docs) + remainder))
  {
    assert ([gap] + gaps)[1..] == gaps && ([doc] + docs)[1..] == docs;
  }

  lemma SplitsAsCons(gap: string, doc: string, source: string, gaps: seq<string>, docs: seq<string>, remainder: string)
    requires Blank(gap) && Document(doc)
    requires SplitsAs(source, gaps, docs, remainder)
    ensures SplitsAs(gap + (doc + source), [gap] + gaps, [doc] + docs, remainder)
  {
    WeaveCons(gap, doc, gaps, docs, remainder);
  }

  lemma StuckSplitsAs(gap: string, s: string)
    requires Blank(gap) && (s == "" || !IsBlank(s[0])) && DocumentEnd(s).None?
    ensures SplitsAs(gap + s, [gap], [], s)
  {
    StuckIffNoEnd(s);
  }

  lemma DocumentSplitsAs(gap: string, s: string, end: nat, gaps: seq<string>)
    requires Blank(gap) && DocumentEnd(s) == Some(end)
    requires SplitsAs(s[end..], gaps, Extract(s[end..]).documents, Extract(s[end..]).remainder)
    ensures SplitsAs(gap + s, [gap] + gaps, [s[..end]] + Extract(s[end..]).documents, Extract(s[end..]).remainder)
  {
    DocumentEndIffDocument(s, end);
    SplitsAsCons(gap, s[..end], s[end..], gaps, Extract(s[end..]).documents, Extract(s[end..]).remainder);
    assert s == s[..end] + s[end..];
  }

  /** Nothing is lost: the source is blanks and complete documents, interleaved, then the remainder. */
  lemma {:induction false} ExtractIsLossless(source: string) returns (gaps: seq<string>)
    ensures SplitsAs(source, gaps, Extract(source).documents, Extract(source).remainder)
    decreases |source|
  {
    var s := TrimStart(source);
    var gap := TrimStartGap(source);
    ExtractNext(gap, s);
    match DocumentEnd(s)
    case None =>
      gaps := [gap];
      StuckSplitsAs(gap, s);
    case Some(end) =>
      var rest := ExtractIsLossless(s[end..]);
      gaps := [gap] + rest;
      DocumentSplitsAs(gap, s, end, rest);
  }

  /** There is no other way to read the source: any such decomposition is the one extraction returns. */
  lemma {:induction false} ExtractIsUnique(source: string, gaps: seq<string>, docs: seq<string>, remainder: string)
    requires SplitsAs(source, gaps, docs, remainder)
    ensures Extract(source) == Extraction(docs, remainder)
    decreases |docs|
  {
    if docs == [] {
      ExtractNext(gaps[0], remainder);
      StuckIffNoEnd(remainder);
    } else {
      var rest := Weave(gaps[1..], docs[1..]) + remainder;
      ExtractIsUnique(rest, gaps[1..], docs[1..], remainder);
      WeaveCons(gaps[0], docs[0], gaps[1..], docs[1..], remainder);
      assert gaps == [gaps[0]] + gaps[1..] && docs == [docs[0]] + docs[1..];
      ExtractDocument(gaps[0], docs[0], rest);
    }
  }

  lemma ExtractDocument(gap: string, doc: string, rest: string)
    requires Blank(gap) && Document(doc)
    ensures Extract(gap + (doc + rest)) == Prepend([doc], Extract(rest))
  {
    var s := doc + rest;
    assert s[..|doc|] == doc && s[|doc|..] == rest;
    DocumentEndIffDocument(s, |doc|);
    ExtractNext(gap, s);
  }

  /** Extraction is the only splitting there is. */
  lemma ExtractCharacterized(source: string, docs: seq<string>, remainder: string)
    ensures Extract(source) == Extraction(docs, remainder)
            <==> exists gaps :: SplitsAs(source, gaps, docs, remainder)
  {
    var found := ExtractIsLossless(source);
    if exists gaps :: SplitsAs(source, gaps, docs, remainder) {
      var gaps :| SplitsAs(source, gaps, docs, remainder);
      ExtractIsUnique(source, gaps, docs, remainder);
    }
  }

  // Arbitrary cuts

  lemma {:induction false} EndFromAppend(a: string, b: string, i: nat, st: Scan)
    requires i <= |a|
    ensures EndFrom(a, i, st).Some? ==> EndFrom(a + b, i, st) == EndFrom(a, i, st)
    decreases |a| - i
  {
    if i < |a| && Step(st, a[i]).depth != 0 {
      EndFromAppend(a, b, i + 1, Step(st, a[i]));
    }
  }

  lemma PrependTwice(a: seq<string>, b: seq<string>, x: Extraction)
    ensures Prepend(a, Prepend(b, x)) == Prepend(a + b, x)
  {
    assert a + (b + x.documents) == (a + b) + x.documents;
  }

  lemma PrependNothing(x: Extraction)
    ensures Prepend([], x) == x
  {
  }

  /** The text after a cut never changes which documents were complete before it. */
  lemma {:induction false} ExtractAppend(a: string, b: string)
    ensures Extract(a + b) == Prepend(Extract(a).documents, Extract(Extract(a).remainder + b))
    decreases |a|
  {
    var s := TrimStart(a);
    TrimStartAppend(a, b);
    if s == "" {
      assert "" + b == b;
      PrependNothing(Extract(b));
    } else {
      match DocumentEnd(s)
      case None =>
        TrimStartBlank("", s + b);
        assert "" + (s + b) == s + b;
        PrependNothing(Extract(s + b));
      case Some(end) =>
        EndFromAppend(s, b, 1, Step(START, s[0]));
        assert (s + b)[..end] == s[..end] && (s + b)[end..] == s[end..] + b;
        ExtractAppend(s[end..], b);
        PrependTwice([s[..end]], Extract(s[end..]).documents, Extract(Extract(a).remainder + b));
    }
  }

  /** The remainder carried to the next chunk is left alone by a second extraction. */
  lemma RemainderIsStable(source: string)
    ensures Extract(Extract(source).remainder) == Extraction([], Extract(source).remainder)
  {
    var gaps := ExtractIsLossless(source);
    var r := Extract(source).remainder;
    assert SplitsAs(r, [""], [], r);
    ExtractIsUnique(r, [""], [], r);
  }

  /** The reader's loop on values: append a chunk, extract, carry the remainder. */
  function Feed(buffer: string, chunks: seq<string>): Extraction
    decreases |chunks|
  {
    if chunks == [] then Extraction([], buffer)
    else
      var x := Extract(buffer + chunks[0]);
      Prepend(x.documents, Feed(x.remainder, chunks[1..]))
  }

  lemma ConcatAfter(buffer: string, chunks: seq<string>)
    requires chunks != []
    ensures buffer + Concat(chunks) == (buffer + chunks[0]) + Concat(chunks[1..])
  {
  }

  /** However the text is cut, feeding the pieces delivers the documents of the whole text, in order. */
  lemma {:induction false} FeedIsExtract(buffer: string, chunks: seq<string>)
    requires Extract(buffer) == Extraction([], buffer)
    ensures Feed(buffer, chunks) == Extract(buffer + Concat(chunks))
    decreases |chunks|
  {
    if chunks == [] {
      assert buffer + "" == buffer;
    } else {
      var text, rest := buffer + chunks[0], chunks[1..];
      RemainderIsStable(text);
      FeedIsExtract(Extract(text).remainder, rest);
      ConcatAfter(buffer, chunks);
      ExtractAppend(text, Concat(rest));
    }
  }

  // The source's own loop

  /** Between documents: everything before `index` is accounted for by `documents`. */
  ghost predicate Between(source: string, documents: seq<string>, index: nat) {
    index <= |source| && Extract(source) == Prepend(documents, Extract(source[index..]))
  }

  /** Inside the document that opened at `start`, with the scan standing at `index`. */
  ghost predicate Inside(source: string, documents: seq<string>, start: nat, index: nat, st: Scan) {
    && start < index <= |source| && source[start] == '{' && st.depth > 0
    && Between(source, documents, start)
    && DocumentEnd(source[start..]) == EndFrom(source[start..], index - start, st)
  }

  /** Where the loop stands: `start` is -1 between documents. */
  ghost predicate Standing(source: string, documents: seq<string>, start: int, index: nat, st: Scan) {
    if start < 0 then Between(source, documents, index) else Inside(source, documents, start, index, st)
  }

  lemma BetweenStep(source: string, documents: seq<string>, index: nat, st: Scan)
    requires Standing(source, documents, -1, index, st) && index < |source|
    ensures IsBlank(source[index]) ==> Standing(source, documents, -1, index + 1, st)
    ensures source[index] == '{' ==> Standing(source, documents, index, index + 1, Scan(1, false, false))
  {
    var rest := source[index..];
    assert rest[0] == source[index] && rest[1..] == source[index + 1..];
  }

  lemma InsideStep(source: string, documents: seq<string>, start: nat, index: nat, st: Scan)
    requires Standing(source, documents, start, index, st) && index < |source|
    ensures start < index
    ensures var next := Step(st, source[index]);
            if next.depth != 0 then Standing(source, documents, start, index + 1, next)
            else Standing(source, documents + [source[start..index + 1]], -1, index + 1, next)
  {
    if Step(st, source[index]).depth != 0 {
      InsideMore(source, documents, start, index, st);
    } else {
      InsideEnd(source[start..], index - start, st);
      DocumentTaken(source, documents, start, index + 1);
    }
  }

  lemma InsideMore(source: string, documents: seq<string>, start: nat, index: nat, st: Scan)
    requires Inside(source, documents, start, index, st) && index < |source|
    requires Step(st, source[index]).depth != 0
    ensures Inside(source, documents, start, index + 1, Step(st, source[index]))
  {
    assert source[start..][index - start] == source[index];
    EndFromStep(source[start..], index - start, st);
  }

  lemma InsideEnd(doc: string, k: nat, st: Scan)
    requires k < |doc| && DocumentEnd(doc) == EndFrom(doc, k, st) && Step(st, doc[k]).depth == 0
    ensures DocumentEnd(doc) == Some(k + 1)
  {
    EndFromStep(doc, k, st);
  }

  lemma EndFromStep(s: string, i: nat, st: Scan)
    requires i < |s|
    ensures var next := Step(st, s[i]);
            EndFrom(s, i, st) == if next.depth == 0 then Some(i + 1) else EndFrom(s, i + 1, next)
  {
  }

  lemma DocumentTaken(source: string, documents: seq<string>, start: nat, end: nat)
    requires Between(source, documents, start) && start < end <= |source| && source[start] == '{'
    requires DocumentEnd(source[start..]) == Some(end - start)
    ensures Between(source, documents + [source[start..end]], end)
  {
    var doc := source[start..];
    var rest := source[end..];
    assert doc[..end - start] == source[start..end] && doc[end - start..] == rest;
    assert TrimStart(doc) == doc;
    assert Extract(doc) == Prepend([source[start..end]], Extract(rest));
    PrependTwice(documents, [source[start..end]], Extract(rest));
  }

  lemma StopsAt(source: string, documents: seq<string>, index: nat)
    requires Between(source, documents, index)
    requires index < |source| ==> !IsBlank(source[index])
    requires DocumentEnd(source[index..]).None?
    ensures Extract(source) == Extraction(documents, source[index..])
  {
    ExtractNext("", source[index..]);
    assert "" + source[index..] == source[index..];
    assert documents + [] == documents;
  }

  /** The rest of the single pass, from where the loop stands. */
  function Pass(source: string, documents: seq<string>, start: int, index: nat, st: Scan): Extraction
    requires start <= index <= |source|
    decreases |source| - index
  {
    if index == |source| then Extraction(documents, source[if start < 0 then index else start..])
    else if start < 0 then
      if source[index] == '{' then Pass(source, documents, index, index + 1, Scan(1, false, false))
      else if IsBlank(source[index]) then Pass(source, documents, -1, index + 1, st)
      else Extraction(documents, source[index..])
    else
      var next := Step(st, source[index]);
      if next.depth != 0 then Pass(source, documents, start, index + 1, next)
      else Pass(source, documents + [source[start..index + 1]], -1, index + 1, next)
  }

  /** The loop stops in front of a character that is neither blank nor a brace. */
  predicate Stops(source: string, start: int, index: nat)
    requires index < |source|
  {
    start < 0 && source[index] != '{' && !IsBlank(source[index])
  }

  lemma PassStep(source: string, documents: seq<string>, start: int, index: nat, st: Scan)
    returns (documents': seq<string>, start': int, st': Scan)
    requires -1 <= start <= index < |source| && Standing(source, documents, start, index, st)
    requires !Stops(source, start, index)
    ensures -1 <= start' <= index + 1 && Standing(source, documents', start', index + 1, st')
    ensures Pass(source, documents, start, index, st) == Pass(source, documents', start', index + 1, st')
  {
    if start < 0 {
      BetweenStep(source, documents, index, st);
      documents' := documents;
      if source[index] == '{' {
        start', st' := index, Scan(1, false, false);
      } else {
        start', st' := -1, st;
      }
    } else {
      InsideStep(source, documents, start, index, st);
      st' := Step(st, source[index]);
      if st'.depth != 0 {
        documents', start' := documents, start;
      } else {
        documents', start' := documents + [source[start..index + 1]], -1;
      }
    }
  }

  /** From wherever it may stand, the pass ends with the splitting of the whole text. */
  lemma {:induction false} PassIsExtract(source: string, documents: seq<string>, start: int, index: nat, st: Scan)
    requires -1 <= start <= index <= |source| && Standing(source, documents, start, index, st)
    ensures Pass(source, documents, start, index, st) == Extract(source)
    decreases |source| - index
  {
    if index == |source| || Stops(source, start, index) {
      StopsAt(source, documents, if start < 0 then index else start);
    } else {
      var documents', start', st' := PassStep(source, documents, start, index, st);
      PassIsExtract(source, documents', start', index + 1, st');
    }
  }

  lemma PassFromTheStart(source: string)
    ensures Pass(source, [], -1, 0, START) == Extract(source)
  {
    assert source[0..] == source;
    PrependNothing(Extract(source));
    PassIsExtract(source, [], -1, 0, START);
  }

  /** The source's single pass over the indices computes exactly the splitting. */
  method ExtractJSONDocuments(source: string) returns (documents: seq<string>, remainder: string)
    ensures Extraction(documents, remainder) == Extract(source)
  {
    documents := [];
    var startIndex, depth, inString, escaped, lastConsumedIndex := -1, 0, false, false, 0;
    var index := 0;
    PassFromTheStart(source);
    while index < |source|
      invariant -1 <= startIndex <= index <= |source| && (escaped ==> inString)
      invariant if startIndex < 0 then !inString && lastConsumedIndex == index else depth > 0
      invariant Pass(source, documents, startIndex, index, Scan(depth, inString, escaped)) == Extract(source)
    {
      var ch := source[index];
      if startIndex < 0 {
        if ch == '{' {
          startIndex := index;
          depth := 1;
          lastConsumedIndex := index;
        } else if !IsBlank(ch) {
          break;
        } else {
          lastConsumedIndex := index + 1;
        }
        index := index + 1;
        continue;
      }
      if inString {
        if escaped {
          escaped := false;
        } else if ch == '\\' {
          escaped := true;
        } else if ch == '"' {
          inString := false;
        }
        index := index + 1;
        continue;
      }
      if ch == '"' {
        inString := true;
        index := index + 1;
        continue;
      }
      if ch == '{' {
        depth := depth + 1;
        index := index + 1;
        continue;
      }
      if ch != '}' {
        index := index + 1;
        continue;
      }
      depth := depth - 1;
      if depth != 0 {
        index := index + 1;
        continue;
      }
      documents := documents + [source[startIndex..index + 1]];
      startIndex := -1;
      lastConsumedIndex := index + 1;
      index := index + 1;
    }
    if startIndex >= 0 {
      remainder := source[startIndex..];
    } else {
      remainder := source[lastConsumedIndex..];
    }
  }
}
