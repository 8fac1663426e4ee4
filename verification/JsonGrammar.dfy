/**
 JSON texts as RFC 8259 writes them, in concrete syntax: every choice the
 grammar leaves open (insignificant whitespace, the form of each escape) is part
 of the value, so the printed texts are all the texts of the grammar.

 The splitter counts braces and knows nothing else about JSON.  The results here
 say that this is enough: a printed object is one complete document, and a
 stream of printed objects comes back as exactly those objects.
 */
module JsonGrammar {
  import opened Text
  import opened JsonSplitter

  /** Section 7: a string is made of plain characters and escapes. */
  datatype StringItem =
    | Plain(c: char)
    | Short(c: char)
    | Unicode(hex: string)

  /** Sections 3 to 5.  Literals and numbers are kept as their text. */
  datatype Value =
    | Scalar(text: string)
    | String(items: seq<StringItem>)
    | Array(open: string, elements: Elements)
    | Object(open: string, members: Members)

  datatype Elements =
    | NoElements
    | Element(before: string, value: Value, after: string, rest: Elements)

  datatype Members =
    | NoMembers
    | Member(before: string, key: seq<StringItem>, beforeColon: string, afterColon: string,
             value: Value, after: string, rest: Members)

  // Well-formedness

  /** Section 2: insignificant whitespace. */
  predicate Whitespace(s: string) {
    forall i | 0 <= i < |s| :: s[i] in " \t\n\r"
  }

  /** At least every number of section 6. */
  predicate NumberText(s: string) {
    s != "" && forall i | 0 <= i < |s| :: s[i] in "+-.0123456789eE"
  }

  predicate ItemOk(item: StringItem) {
    match item
    case Plain(c) => c >= ' ' && c != '"' && c != '\\'
    case Short(c) => c in "\"\\/bfnrt"
    case Unicode(hex) => |hex| == 4 && forall i | 0 <= i < 4 :: hex[i] in "0123456789abcdefABCDEF"
  }

  predicate StringOk(items: seq<StringItem>) {
    forall i | 0 <= i < |items| :: ItemOk(items[i])
  }

  predicate ValueOk(v: Value) {
    match v
    case Scalar(text) => text == "true" || text == "false" || text == "null" || NumberText(text)
    case String(items) => StringOk(items)
    case Array(open, elements) => Whitespace(open) && ElementsOk(elements)
    case Object(open, members) => Whitespace(open) && MembersOk(members)
  }

  predicate ElementsOk(es: Elements) {
    match es
    case NoElements => true
    case Element(before, value, after, rest) =>
      Whitespace(before) && ValueOk(value) && Whitespace(after) && ElementsOk(rest)
  }

  predicate MembersOk(ms: Members) {
    match ms
    case NoMembers => true
    case Member(before, key, beforeColon, afterColon, value, after, rest) =>
      && Whitespace(before) && StringOk(key) && Whitespace(beforeColon) && Whitespace(afterColon)
      && ValueOk(value) && Whitespace(after) && MembersOk(rest)
  }

  // Printing

  function PrintItem(item: StringItem): string {
    match item
    case Plain(c) => [c]
    case Short(c) => ['\\', c]
    case Unicode(hex) => "\\u" + hex
  }

  function PrintItems(items: seq<StringItem>): string {
    if items == [] then "" else PrintItem(items[0]) + PrintItems(items[1..])
  }

  function PrintString(items: seq<StringItem>): string {
    "\"" + (PrintItems(items) + "\"")
  }

  function Print(v: Value): string {
    match v
    case Scalar(text) => text
    case String(items) => PrintString(items)
    case Array(open, elements) => "[" + (open + (PrintElements(elements) + "]"))
    case Object(open, members) => "{" + ((open + PrintMembers(members)) + "}")
  }

  function PrintElements(es: Elements): string {
    match es
    case NoElements => ""
    case Element(before, value, after, rest) =>
      before + (Print(value) + (after + (Comma(rest.Element?) + PrintElements(rest))))
  }

  function PrintMembers(ms: Members): string {
    match ms
    case NoMembers => ""
    case Member(before, key, beforeColon, afterColon, value, after, rest) =>
      before + (PrintString(key) + (beforeColon + (":" + (afterColon + (Print(value)
      + (after + (Comma(rest.Member?) + PrintMembers(rest))))))))
  }

  /** Items are separated, not terminated. */
  function Comma(another: bool): string {
    if another then "," else ""
  }

  // Scanning printed text

  /** The least depth reached anywhere in `s`, both ends included. */
  function Low(st: Scan, s: string): int
    decreases |s|
  {
    if s == "" then st.depth
    else
      var rest := Low(Step(st, s[0]), s[1..]);
      if st.depth < rest then st.depth else rest
  }

  lemma {:induction false} LowAppend(st: Scan, a: string, b: string)
    ensures var x, y := Low(st, a), Low(After(st, a), b);
            Low(st, a + b) == if x < y then x else y
    decreases |a|
  {
    if a == "" {
      assert a + b == b;
      LowIsLow(st, b, 0);
    } else {
      assert (a + b)[1..] == a[1..] + b;
      LowAppend(Step(st, a[0]), a[1..], b);
    }
  }

  lemma {:induction false} LowIsLow(st: Scan, s: string, k: nat)
    requires k <= |s|
    ensures Low(st, s) <= After(st, s[..k]).depth
    decreases |s|
  {
    if k > 0 {
      LowIsLow(Step(st, s[0]), s[1..], k - 1);
      assert s[..k][1..] == s[1..][..k - 1];
    }
  }

  /** Reading `s` outside strings changes nothing in the end and never goes below where it began. */
  predicate Neutral(depth: int, s: string) {
    var st := Scan(depth, false, false);
    After(st, s) == st && Low(st, s) == depth
  }

  lemma NeutralAppend(depth: int, a: string, b: string)
    requires Neutral(depth, a) && Neutral(depth, b)
    ensures Neutral(depth, a + b)
  {
    AfterAppend(Scan(depth, false, false), a, b);
    LowAppend(Scan(depth, false, false), a, b);
  }

  lemma {:induction false} PlainTextIsNeutral(depth: int, s: string)
    requires forall i | 0 <= i < |s| :: s[i] != '"' && s[i] != '{' && s[i] != '}'
    ensures Neutral(depth, s)
    decreases |s|
  {
    if s != "" {
      PlainTextIsNeutral(depth, s[1..]);
    }
  }

  /** Inside a string nothing counts: every escape is consumed whole, braces and quotes included. */
  lemma ItemKeepsString(depth: int, item: StringItem)
    requires ItemOk(item)
    ensures var st := Scan(depth, true, false);
            After(st, PrintItem(item)) == st && Low(st, PrintItem(item)) == depth
  {
    var st := Scan(depth, true, false);
    var text := PrintItem(item);
    var escaped := Step(st, '\\');
    match item
    case Plain(c) =>
      assert text[1..] == "";
    case Short(c) =>
      assert text[1..] == [c] && text[1..][1..] == "";
      assert After(escaped, text[1..]) == st && Low(escaped, text[1..]) == depth;
    case Unicode(hex) =>
      assert text[1..] == "u" + hex && text[1..][1..] == hex;
      HexKeepsString(depth, hex);
      assert After(escaped, text[1..]) == st && Low(escaped, text[1..]) == depth;
  }

  lemma {:induction false} HexKeepsString(depth: int, hex: string)
    requires forall i | 0 <= i < |hex| :: hex[i] in "0123456789abcdefABCDEF"
    ensures var st := Scan(depth, true, false);
            After(st, hex) == st && Low(st, hex) == depth
    decreases |hex|
  {
    if hex != "" {
      HexKeepsString(depth, hex[1..]);
    }
  }

  lemma {:induction false} ItemsKeepString(depth: int, items: seq<StringItem>)
    requires StringOk(items)
    ensures var st := Scan(depth, true, false);
            After(st, PrintItems(items)) == st && Low(st, PrintItems(items)) == depth
  {
    if items != [] {
      var st := Scan(depth, true, false);
      ItemKeepsString(depth, items[0]);
      ItemsKeepString(depth, items[1..]);
      AfterAppend(st, PrintItem(items[0]), PrintItems(items[1..]));
      LowAppend(st, PrintItem(items[0]), PrintItems(items[1..]));
    }
  }

  lemma StringIsNeutral(depth: int, items: seq<StringItem>)
    requires StringOk(items)
    ensures Neutral(depth, PrintString(items))
  {
    var st, body := Scan(depth, true, false), PrintItems(items);
    ItemsKeepString(depth, items);
    AfterAppend(st, body, "\"");
    LowAppend(st, body, "\"");
    assert "\""[1..] == "";
    assert PrintString(items)[1..] == body + "\"";
  }

  /** Braces around neutral text: back at the same depth, and above it everywhere in between. */
  lemma BracesAround(depth: int, body: string)
    requires Neutral(depth + 1, body)
    ensures Neutral(depth, "{" + (body + "}"))
    ensures forall k | 0 < k < |body| + 2 ::
              After(Scan(depth, false, false), ("{" + (body + "}"))[..k]).depth > depth
  {
    var st, inner := Scan(depth, false, false), Scan(depth + 1, false, false);
    var text := "{" + (body + "}");
    assert text[1..] == body + "}";
    AfterAppend(inner, body, "}");
    LowAppend(inner, body, "}");
    assert "}"[1..] == "";
    forall k | 0 < k < |body| + 2
      ensures After(st, text[..k]).depth > depth
    {
      LowIsLow(inner, body, k - 1);
      assert text[..k][1..] == body[..k - 1];
    }
  }

  lemma WhitespaceIsNeutral(depth: int, s: string)
    requires Whitespace(s)
    ensures Neutral(depth, s)
  {
    PlainTextIsNeutral(depth, s);
  }

  lemma {:induction false} ValueIsNeutral(depth: int, v: Value)
    requires ValueOk(v)
    ensures Neutral(depth, Print(v))
    decreases v
  {
    match v
    case Scalar(text) =>
      PlainTextIsNeutral(depth, text);
    case String(items) =>
      StringIsNeutral(depth, items);
    case Array(open, elements) =>
      PlainTextIsNeutral(depth, "[");
      PlainTextIsNeutral(depth, "]");
      WhitespaceIsNeutral(depth, open);
      ElementsAreNeutral(depth, elements);
      NeutralAppend(depth, PrintElements(elements), "]");
      NeutralAppend(depth, open, PrintElements(elements) + "]");
      NeutralAppend(depth, "[", open + (PrintElements(elements) + "]"));
    case Object(open, members) =>
      ObjectBodyIsNeutral(depth + 1, open, members);
      BracesAround(depth, open + PrintMembers(members));
  }

  lemma {:induction false} ObjectBodyIsNeutral(depth: int, open: string, members: Members)
    requires Whitespace(open) && MembersOk(members)
    ensures Neutral(depth, open + PrintMembers(members))
    decreases members, 1
  {
    WhitespaceIsNeutral(depth, open);
    MembersAreNeutral(depth, members);
    NeutralAppend(depth, open, PrintMembers(members));
  }

  lemma {:induction false} ElementsAreNeutral(depth: int, es: Elements)
    requires ElementsOk(es)
    ensures Neutral(depth, PrintElements(es))
    decreases es
  {
    match es
    case NoElements =>
    case Element(before, value, after, rest) =>
      ElementsAreNeutral(depth, rest);
      ValueIsNeutral(depth, value);
      SeparatedIsNeutral(depth, before, Print(value), after, Comma(rest.Element?), PrintElements(rest));
  }

  lemma SeparatedIsNeutral(depth: int, before: string, text: string, after: string, comma: string, rest: string)
    requires Whitespace(before) && Whitespace(after) && (comma == "" || comma == "," || comma == ":")
    requires Neutral(depth, text) && Neutral(depth, rest)
    ensures Neutral(depth, before + (text + (after + (comma + rest))))
  {
    WhitespaceIsNeutral(depth, before);
    WhitespaceIsNeutral(depth, after);
    PlainTextIsNeutral(depth, comma);
    NeutralAppend(depth, comma, rest);
    NeutralAppend(depth, after, comma + rest);
    NeutralAppend(depth, text, after + (comma + rest));
    NeutralAppend(depth, before, text + (after + (comma + rest)));
  }

  lemma {:induction false} MembersAreNeutral(depth: int, ms: Members)
    requires MembersOk(ms)
    ensures Neutral(depth, PrintMembers(ms))
    decreases ms, 0
  {
    match ms
    case NoMembers =>
    case Member(before, key, beforeColon, afterColon, value, after, rest) =>
      MembersAreNeutral(depth, rest);
      ValueIsNeutral(depth, value);
      StringIsNeutral(depth, key);
      var tail := Print(value) + (after + (Comma(rest.Member?) + PrintMembers(rest)));
      SeparatedIsNeutral(depth, afterColon, Print(value), after, Comma(rest.Member?), PrintMembers(rest));
      SeparatedIsNeutral(depth, before, PrintString(key), beforeColon, ":", afterColon + tail);
  }

  // Results

  /** Every printed object is one complete document, whatever its strings contain. */
  lemma ObjectIsDocument(v: Value)
    requires ValueOk(v) && v.Object?
    ensures Document(Print(v))
  {
    ObjectBodyIsNeutral(1, v.open, v.members);
    BracesAround(0, v.open + PrintMembers(v.members));
    forall k | 0 < k < |Print(v)|
      ensures Depth(Print(v)[..k]) > 0
    {
      assert After(Scan(0, false, false), Print(v)[..k]).depth > 0;
    }
  }

  function PrintAll(vs: seq<Value>): seq<string> {
    seq(|vs|, i requires 0 <= i < |vs| => Print(vs[i]))
  }

  /** Round trip: printed objects, separated by any blanks, are what extraction returns. */
  lemma ExtractPrinted(vs: seq<Value>, gaps: seq<string>)
    requires forall i | 0 <= i < |vs| :: ValueOk(vs[i]) && vs[i].Object?
    requires |gaps| == |vs| + 1 && forall i | 0 <= i < |gaps| :: Blank(gaps[i])
    ensures Extract(Weave(gaps, PrintAll(vs))) == Extraction(PrintAll(vs), "")
  {
    forall i | 0 <= i < |vs|
      ensures Document(PrintAll(vs)[i])
    {
      ObjectIsDocument(vs[i]);
    }
    var source := Weave(gaps, PrintAll(vs));
    assert source == source + "";
    assert SplitsAs(source, gaps, PrintAll(vs), "");
    ExtractIsUnique(source, gaps, PrintAll(vs), "");
  }

  /** The same through the reader: the stream may be cut anywhere, even inside an escape. */
  lemma FeedPrinted(vs: seq<Value>, gaps: seq<string>, chunks: seq<string>)
    requires forall i | 0 <= i < |vs| :: ValueOk(vs[i]) && vs[i].Object?
    requires |gaps| == |vs| + 1 && forall i | 0 <= i < |gaps| :: Blank(gaps[i])
    requires Concat(chunks) == Weave(gaps, PrintAll(vs))
    ensures Feed("", chunks) == Extraction(PrintAll(vs), "")
  {
    FeedIsExtract("", chunks);
    assert "" + Concat(chunks) == Concat(chunks);
    ExtractPrinted(vs, gaps);
  }

  // Streams as a server writes them

  /** The whitespace of section 2 is blank to the splitter: space, tab, line feed and carriage return. */
  lemma WhitespaceIsBlank(s: string)
    requires forall i | 0 <= i < |s| :: s[i] == ' ' || s[i] == '\t' || s[i] == '\n' || s[i] == '\r'
    ensures Blank(s)
  {
  }

  lemma ScalarStartsNonBlank(text: string)
    requires text == "true" || text == "false" || text == "null" || NumberText(text)
    ensures text != "" && !IsBlank(text[0])
  {
    assert text[0] in "+-.0123456789eEtfn";
  }

  /** No JSON text starts with a blank, so the splitter never takes one for separation. */
  lemma TextsStartNonBlank(v: Value)
    requires ValueOk(v)
    ensures Print(v) != "" && !IsBlank(Print(v)[0])
  {
    if v.Scalar? {
      ScalarStartsNonBlank(v.text);
    }
  }

  /** Round trip through the reader, for any whitespace between the objects and any cuts. */
  lemma WhitespaceSeparatedComesBack(vs: seq<Value>, gaps: seq<string>, chunks: seq<string>)
    requires forall i | 0 <= i < |vs| :: ValueOk(vs[i]) && vs[i].Object?
    requires |gaps| == |vs| + 1
    requires forall i, k | 0 <= i < |gaps| && 0 <= k < |gaps[i]| ::
               gaps[i][k] == ' ' || gaps[i][k] == '\t' || gaps[i][k] == '\n' || gaps[i][k] == '\r'
    requires Concat(chunks) == Weave(gaps, PrintAll(vs))
    ensures Feed("", chunks) == Extraction(PrintAll(vs), "")
  {
    forall i | 0 <= i < |gaps|
      ensures Blank(gaps[i])
    {
      WhitespaceIsBlank(gaps[i]);
    }
    FeedPrinted(vs, gaps, chunks);
  }

  /** One text a line. */
  function OnLines(texts: seq<string>): string {
    if texts == [] then "" else texts[0] + ("\n" + OnLines(texts[1..]))
  }

  lemma {:induction false} WeaveFrom(first: string, texts: seq<string>)
    ensures Weave([first] + seq(|texts|, i => "\n"), texts) == first + OnLines(texts)
    decreases |texts|
  {
    var gaps := [first] + seq(|texts|, i => "\n");
    if texts != [] {
      var rest := texts[1..];
      assert gaps[1..] == ["\n"] + seq(|rest|, i => "\n");
      WeaveFrom("\n", rest);
      assert texts[0] + ("\n" + OnLines(rest)) == OnLines(texts);
    }
  }

  /** Newline-delimited objects, as the server writes them: each comes back, and nothing is left. */
  lemma LinesComeBack(vs: seq<Value>, chunks: seq<string>)
    requires forall i | 0 <= i < |vs| :: ValueOk(vs[i]) && vs[i].Object?
    requires Concat(chunks) == OnLines(PrintAll(vs))
    ensures Feed("", chunks) == Extraction(PrintAll(vs), "")
  {
    WeaveFrom("", PrintAll(vs));
    var gaps := [""] + seq(|vs|, i => "\n");
    assert gaps == [""] + seq(|PrintAll(vs)|, i => "\n");
    WhitespaceSeparatedComesBack(vs, gaps, chunks);
  }
}
