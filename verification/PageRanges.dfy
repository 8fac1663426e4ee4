/**
 The page selection of the OCR services (docker/tesseract/app.py and
 docker/rapidocr/app.py hold the same function).

 `str.strip` and `int` are parameters.  The round trips assume of them only what
 `Plain` says: numerals of the page numbers in use are read, and text between two
 digits is not stripped.  The services run Python 3.11, whose `int` refuses numerals
 of more than 4300 digits, so nothing is assumed of larger ones.
 */
module PageRanges {
  import opened Text

  datatype Python = Python(strip: string -> string, toInt: string -> Option<int>)

  /** `text.split(",")` */
  function SplitCommas(s: string): (parts: seq<string>)
    ensures |parts| > 0
  {
    if s == "" then [""]
    else if s[0] == ',' then [""] + SplitCommas(s[1..])
    else
      var rest := SplitCommas(s[1..]);
      [[s[0]] + rest[0]] + rest[1..]
  }

  /** The index of the first dash, or the length. */
  function Dash(s: string): (k: nat)
    ensures k <= |s|
    ensures k < |s| ==> s[k] == '-'
    ensures forall i | 0 <= i < k :: s[i] != '-'
  {
    if s == "" || s[0] == '-' then 0 else 1 + Dash(s[1..])
  }

  // What a text denotes

  function Between(first: int, last: int): (pages: set<int>)
    ensures forall p :: p in pages <==> first <= p <= last
    decreases last + 1 - first
  {
    if first > last then {} else {first} + Between(first + 1, last)
  }

  function Min(a: int, b: int): int {
    if a < b then a else b
  }

  function Max(a: int, b: int): int {
    if a < b then b else a
  }

  /** The pages one part asks for; a part that does not parse asks for none. */
  function PartPages(py: Python, part: string, total: int): set<int> {
    var chunk := py.strip(part);
    var k := Dash(chunk);
    if chunk == "" then {}
    else if k < |chunk| then
      var start, end := py.toInt(chunk[..k]), py.toInt(chunk[k + 1..]);
      if start.None? || end.None? || start.value <= 0 then {}
      else Between(start.value, Min(Max(start.value, end.value), total))
    else
      var page := py.toInt(chunk);
      if page.Some? && 1 <= page.value <= total then {page.value} else {}
  }

  function AllPages(py: Python, parts: seq<string>, total: int): set<int> {
    if parts == [] then {} else PartPages(py, parts[0], total) + AllPages(py, parts[1..], total)
  }

  /** `sorted` on a set of pages from `first` up to `last`. */
  function Sorted(pages: set<int>, first: int, last: int): seq<int>
    decreases last + 1 - first
  {
    if first > last then []
    else (if first in pages then [first] else []) + Sorted(pages, first + 1, last)
  }

  predicate Increasing(s: seq<int>) {
    forall i, j | 0 <= i < j < |s| :: s[i] < s[j]
  }

  /** The selection: the pages asked for, or every page if none was. */
  function Selection(py: Python, raw: Option<string>, total: int): set<int> {
    var text := py.strip(if raw.Some? then raw.value else "");
    var pages := if text == "" then {} else AllPages(py, SplitCommas(text), total);
    if pages == {} then Between(1, total) else pages
  }

  // The source's loops

  /** The inner loop: `for page in range(first, last + 1)`. */
  method AddRange(pages: set<int>, first: int, last: int) returns (more: set<int>)
    ensures more == pages + Between(first, last)
  {
    more := pages;
    var page := first;
    while page < last + 1
      invariant first <= page && (page <= last + 1 || page == first)
      invariant more == pages + Between(first, page - 1)
    {
      more := more + {page};
      page := page + 1;
    }
  }

  method ParsePageRanges(py: Python, raw: Option<string>, totalPages: int) returns (result: seq<int>)
    ensures result == Sorted(Selection(py, raw, totalPages), 1, totalPages)
  {
    if totalPages <= 0 {
      return [];
    }
    var text := py.strip(if raw.Some? then raw.value else "");
    if text == "" {
      return Sorted(Between(1, totalPages), 1, totalPages);
    }
    var pages: set<int> := {};
    var parts := SplitCommas(text);
    var i := 0;
    assert parts[..0] == [];
    while i < |parts|
      invariant 0 <= i <= |parts|
      invariant pages == AllPages(py, parts[..i], totalPages)
    {
      AllPagesSnoc(py, parts, i, totalPages);
      var chunk := py.strip(parts[i]);
      i := i + 1;
      if chunk == "" {
        continue;
      }
      var k := Dash(chunk);
      if k < |chunk| {
        var start, end := py.toInt(chunk[..k]), py.toInt(chunk[k + 1..]);
        if start.None? || end.None? {
          continue;
        }
        if start.value <= 0 {
          continue;
        }
        var last := if end.value < start.value then start.value else end.value;
        pages := AddRange(pages, start.value, Min(last, totalPages));
        continue;
      }
      var page := py.toInt(chunk);
      if page.None? {
        continue;
      }
      if 1 <= page.value <= totalPages {
        pages := pages + {page.value};
      }
    }
    assert parts[..i] == parts;
    return Sorted(if pages == {} then Between(1, totalPages) else pages, 1, totalPages);
  }

  lemma {:induction false} AllPagesAppend(py: Python, a: seq<string>, b: seq<string>, total: int)
    ensures AllPages(py, a + b, total) == AllPages(py, a, total) + AllPages(py, b, total)
  {
    if a == [] {
      assert a + b == b;
    } else {
      assert (a + b)[1..] == a[1..] + b;
      AllPagesAppend(py, a[1..], b, total);
    }
  }

  lemma AllPagesSnoc(py: Python, parts: seq<string>, i: nat, total: int)
    requires i < |parts|
    ensures AllPages(py, parts[..i + 1], total) == AllPages(py, parts[..i], total) + PartPages(py, parts[i], total)
  {
    assert parts[..i + 1] == parts[..i] + [parts[i]];
    AllPagesAppend(py, parts[..i], [parts[i]], total);
    assert AllPages(py, [parts[i]], total) == PartPages(py, parts[i], total) + {};
  }

  // What the result is

  lemma {:induction false} SortedIsIncreasing(pages: set<int>, first: int, last: int)
    ensures Increasing(Sorted(pages, first, last))
    ensures forall p :: p in Sorted(pages, first, last) <==> p in pages && first <= p <= last
    decreases last + 1 - first
  {
    if first <= last {
      SortedIsIncreasing(pages, first + 1, last);
      var rest := Sorted(pages, first + 1, last);
      forall i | 0 <= i < |rest|
        ensures first < rest[i]
      {
        assert rest[i] in rest;
      }
    }
  }

  /** There is only one increasing list of a given set. */
  lemma {:induction false} IncreasingIsUnique(a: seq<int>, b: seq<int>)
    requires Increasing(a) && Increasing(b) && forall p :: p in a <==> p in b
    ensures a == b
  {
    EmptyTogether(a, b);
    if a != [] {
      assert a[0] in a && b[0] in b;
      forall p
        ensures p in a[1..] <==> p in b[1..]
      {
        assert p in a[1..] <==> p in a && p != a[0];
        assert p in b[1..] <==> p in b && p != b[0];
      }
      IncreasingIsUnique(a[1..], b[1..]);
      assert a == [a[0]] + a[1..] && b == [b[0]] + b[1..];
    }
  }

  lemma EmptyTogether(a: seq<int>, b: seq<int>)
    requires forall p :: p in a <==> p in b
    ensures a == [] <==> b == []
  {
    if a != [] {
      var p := a[0];
      assert p in a && p in b;
    }
    if b != [] {
      var p := b[0];
      assert p in b && p in a;
    }
  }

  lemma {:induction false} AllPagesInRange(py: Python, parts: seq<string>, total: int)
    ensures forall p | p in AllPages(py, parts, total) :: 1 <= p <= total
    ensures forall p :: p in AllPages(py, parts, total) <==>
              exists i | 0 <= i < |parts| :: p in PartPages(py, parts[i], total)
  {
    if parts != [] {
      AllPagesInRange(py, parts[1..], total);
      forall p
        ensures p in AllPages(py, parts, total) <==> exists i | 0 <= i < |parts| :: p in PartPages(py, parts[i], total)
      {
        if p in AllPages(py, parts[1..], total) {
          var j :| 0 <= j < |parts[1..]| && p in PartPages(py, parts[1..][j], total);
          assert parts[j + 1] == parts[1..][j];
        }
        if i :| 0 <= i < |parts| && p in PartPages(py, parts[i], total) {
          if i > 0 {
            assert parts[1..][i - 1] == parts[i];
          }
        }
      }
    }
  }

  /** Strictly increasing, within 1..total, and exactly the selected pages. */
  lemma ResultMeaning(py: Python, raw: Option<string>, total: int)
    ensures var result := Sorted(Selection(py, raw, total), 1, total);
            && Increasing(result)
            && (forall p :: p in result <==> p in Selection(py, raw, total))
            && (forall p | p in result :: 1 <= p <= total)
            && (total >= 1 ==> result != [])
  {
    SortedIsIncreasing(Selection(py, raw, total), 1, total);
    var text := py.strip(if raw.Some? then raw.value else "");
    AllPagesInRange(py, SplitCommas(text), total);
    if total >= 1 {
      assert 1 in Between(1, total) && Selection(py, raw, total) != {};
      var p :| p in Selection(py, raw, total);
      assert p in Sorted(Selection(py, raw, total), 1, total);
    }
  }

  function Raw(raw: Option<string>): string {
    if raw.Some? then raw.value else ""
  }

  /**
   Which pages come out: all of the document for a blank text or a missing one; otherwise
   those that some part asks for, or again all of them if no part asks for any.
   */
  lemma SelectedIff(py: Python, raw: Option<string>, total: int, p: int)
    ensures var result, text := Sorted(Selection(py, raw, total), 1, total), py.strip(Raw(raw));
            && (text == "" ==> (p in result <==> 1 <= p <= total))
            && (text != "" ==>
                  (p in result <==>
                     && 1 <= p <= total
                     && (|| (exists part :: part in SplitCommas(text) && p in PartPages(py, part, total))
                         || (forall part, q | part in SplitCommas(text) && 1 <= q <= total :: q !in PartPages(py, part, total)))))
  {
    ResultMeaning(py, raw, total);
    var text := py.strip(Raw(raw));
    if text != "" {
      AskedIff(py, SplitCommas(text), total);
    }
  }

  lemma AskedIff(py: Python, parts: seq<string>, total: int)
    ensures forall p :: p in AllPages(py, parts, total) <==> exists part :: part in parts && p in PartPages(py, part, total)
    ensures AllPages(py, parts, total) == {} <==>
              forall part, q | part in parts && 1 <= q <= total :: q !in PartPages(py, part, total)
  {
    AllPagesInRange(py, parts, total);
    forall p
      ensures p in AllPages(py, parts, total) <==> exists part :: part in parts && p in PartPages(py, part, total)
    {
      if p in AllPages(py, parts, total) {
        var i :| 0 <= i < |parts| && p in PartPages(py, parts[i], total);
        assert parts[i] in parts;
      }
      if part :| part in parts && p in PartPages(py, part, total) {
        var i :| 0 <= i < |parts| && parts[i] == part;
      }
    }
  }

  /** A part without a dash asks for its number, if it is one and the document has that page; an empty one for nothing. */
  lemma SinglePart(py: Python, part: string, total: int, p: int)
    requires '-' !in py.strip(part)
    ensures p in PartPages(py, part, total) <==>
              py.strip(part) != "" && py.toInt(py.strip(part)) == Some(p) && 1 <= p <= total
  {
  }

  /**
   A part with a dash, cut at the first one: if both sides are numbers and the first is
   positive it asks for the pages from the first to the second, at least the first, that
   the document has.
   */
  lemma DashedPart(py: Python, part: string, total: int, k: nat, p: int)
    requires k < |py.strip(part)| && py.strip(part)[k] == '-' && '-' !in py.strip(part)[..k]
    ensures var first, last := py.toInt(py.strip(part)[..k]), py.toInt(py.strip(part)[k + 1..]);
            p in PartPages(py, part, total) <==>
              first.Some? && last.Some? && 1 <= first.value <= p <= total && (p == first.value || p <= last.value)
  {
    var chunk := py.strip(part);
    assert forall i | 0 <= i < k :: chunk[i] == chunk[..k][i];
    assert Dash(chunk) == k;
  }

  function JoinCommas(parts: seq<string>): string
    requires |parts| > 0
  {
    if |parts| == 1 then parts[0] else parts[0] + ("," + JoinCommas(parts[1..]))
  }

  /** The parts are the text cut at every comma. */
  lemma {:induction false} PartsAreTheText(s: string)
    ensures JoinCommas(SplitCommas(s)) == s
    ensures forall i | 0 <= i < |SplitCommas(s)| :: ',' !in SplitCommas(s)[i]
  {
    if s != "" {
      PartsAreTheText(s[1..]);
      var rest := SplitCommas(s[1..]);
      if s[0] == ',' {
        assert ([""] + rest)[1..] == rest;
        assert "" + ("," + JoinCommas(rest)) == [s[0]] + s[1..] == s;
      } else {
        var parts := [[s[0]] + rest[0]] + rest[1..];
        assert parts[1..] == rest[1..];
        if |rest| > 1 {
          assert ([s[0]] + rest[0]) + ("," + JoinCommas(rest[1..])) == [s[0]] + JoinCommas(rest);
        }
        assert [s[0]] + s[1..] == s;
      }
    }
  }

  /** The order of the parts and their repetition do not matter. */
  lemma OrderAndRepeatsDoNotMatter(py: Python, raw: string, raw': string, total: int)
    requires py.strip(raw) != "" && py.strip(raw') != ""
    requires forall part :: part in SplitCommas(py.strip(raw)) <==> part in SplitCommas(py.strip(raw'))
    ensures Sorted(Selection(py, Some(raw), total), 1, total) == Sorted(Selection(py, Some(raw'), total), 1, total)
  {
    var parts, parts' := SplitCommas(py.strip(raw)), SplitCommas(py.strip(raw'));
    AllPagesInRange(py, parts, total);
    AllPagesInRange(py, parts', total);
    forall p
      ensures p in AllPages(py, parts, total) <==> p in AllPages(py, parts', total)
    {
      if i :| 0 <= i < |parts| && p in PartPages(py, parts[i], total) {
        assert parts[i] in parts';
        var j :| 0 <= j < |parts'| && parts'[j] == parts[i];
      }
      if j :| 0 <= j < |parts'| && p in PartPages(py, parts'[j], total) {
        assert parts'[j] in parts;
        var i :| 0 <= i < |parts| && parts[i] == parts'[j];
      }
    }
    assert AllPages(py, parts, total) == AllPages(py, parts', total);
  }

  // Round trip

  function Digit(d: nat): char
    requires d < 10
  {
    "0123456789"[d]
  }

  predicate IsDigit(c: char) {
    '0' <= c <= '9'
  }

  /** The decimal numeral of `n`. */
  function Numeral(n: nat): (s: string)
    ensures s != "" && forall i | 0 <= i < |s| :: IsDigit(s[i])
  {
    if n < 10 then [Digit(n)] else Numeral(n / 10) + [Digit(n % 10)]
  }

  /** What the round trips need of `strip` and `int`, for pages up to `last`. */
  ghost predicate Plain(py: Python, last: int) {
    && (forall n: nat {:trigger py.toInt(Numeral(n))} | n <= last :: py.toInt(Numeral(n)) == Some(n))
    && (forall s: string {:trigger py.strip(s)} | s != "" && IsDigit(s[0]) && IsDigit(s[|s| - 1]) :: py.strip(s) == s)
  }

  /** Digits read from the left, as `int` does: an instance of what `Plain` asks for. */
  function ReadDigits(s: string): Option<int> {
    if s == "" then None
    else
      var c, front := s[|s| - 1], s[..|s| - 1];
      if !IsDigit(c) then None
      else if front == "" then Some(c as int - '0' as int)
      else
        var n := ReadDigits(front);
        if n.None? then None else Some(10 * n.value + (c as int - '0' as int))
  }

  lemma {:induction false} ReadDigitsNumeral(n: nat)
    ensures ReadDigits(Numeral(n)) == Some(n)
  {
    if n >= 10 {
      ReadDigitsNumeral(n / 10);
      assert Numeral(n)[..|Numeral(n)| - 1] == Numeral(n / 10);
    }
  }

  lemma StripKeepsDigits(s: string)
    requires s != "" && IsDigit(s[0]) && IsDigit(s[|s| - 1])
    ensures Trim(s) == s
  {
    assert TrimStart(s) == s;
  }

  lemma {:induction false} LongerNumeral(m: nat, n: nat)
    requires m <= n
    ensures |Numeral(m)| <= |Numeral(n)|
  {
    if m >= 10 {
      LongerNumeral(m / 10, n / 10);
    }
  }

  /** Python 3.11's default limit on the digits `int` reads. */
  const MAX_DIGITS := 4300

  function ReadAtMost(digits: nat): string -> Option<int> {
    s => if |s| > digits then None else ReadDigits(s)
  }

  /** A reader with a limit on digits meets `Plain` exactly up to the pages within its limit. */
  lemma PlainIffWithinLimit(digits: nat, last: nat)
    ensures Plain(Python(Trim, ReadAtMost(digits)), last) <==> |Numeral(last)| <= digits
  {
    var py := Python(Trim, ReadAtMost(digits));
    forall n: nat | n <= last
      ensures ReadDigits(Numeral(n)) == Some(n) && |Numeral(n)| <= |Numeral(last)|
    {
      ReadDigitsNumeral(n);
      LongerNumeral(n, last);
    }
    forall s: string | s != "" && IsDigit(s[0]) && IsDigit(s[|s| - 1])
      ensures Trim(s) == s
    {
      StripKeepsDigits(s);
    }
    assert Plain(py, last) ==> py.toInt(Numeral(last)) == Some(last);
  }

  /** So with the services' limit the round trips hold for all documents of fewer than 10^4300 pages. */
  lemma PlainIsPossible(last: nat)
    requires last < PowerOfTen(MAX_DIGITS)
    ensures Plain(Python(Trim, ReadAtMost(MAX_DIGITS)), last)
  {
    PlainIffWithinLimit(MAX_DIGITS, last);
    ShortNumeral(last, MAX_DIGITS);
  }

  lemma {:induction false} ShortNumeral(n: nat, digits: nat)
    requires digits > 0 && n < PowerOfTen(digits)
    ensures |Numeral(n)| <= digits
  {
    if n >= 10 {
      ShortNumeral(n / 10, digits - 1);
    }
  }

  function PowerOfTen(k: nat): nat {
    if k == 0 then 1 else 10 * PowerOfTen(k - 1)
  }

  datatype Range = Range(first: nat, last: nat)

  predicate RangesOk(ranges: seq<Range>, total: int) {
    forall i | 0 <= i < |ranges| :: 1 <= ranges[i].first <= ranges[i].last <= total
  }

  function PrintRange(r: Range): string {
    if r.first == r.last then Numeral(r.first) else Numeral(r.first) + ("-" + Numeral(r.last))
  }

  function PrintRanges(ranges: seq<Range>): string {
    if ranges == [] then ""
    else if |ranges| == 1 then PrintRange(ranges[0])
    else PrintRange(ranges[0]) + ("," + PrintRanges(ranges[1..]))
  }

  function Covered(ranges: seq<Range>): set<int> {
    if ranges == [] then {} else Between(ranges[0].first, ranges[0].last) + Covered(ranges[1..])
  }

  lemma PrintRangeShape(r: Range)
    ensures var s := PrintRange(r);
            s != "" && IsDigit(s[0]) && IsDigit(s[|s| - 1]) && forall i | 0 <= i < |s| :: s[i] != ','
  {
    var x, y := Numeral(r.first), Numeral(r.last);
    if r.first != r.last {
      var s := x + ("-" + y);
      assert s[|s| - 1] == y[|y| - 1];
      forall i | 0 <= i < |s|
        ensures s[i] != ','
      {
        assert s[i] == if i < |x| then x[i] else if i == |x| then '-' else y[i - |x| - 1];
      }
    }
  }

  lemma {:induction false} DashInNumeral(s: string, rest: string)
    requires forall i | 0 <= i < |s| :: IsDigit(s[i])
    ensures Dash(s) == |s| && Dash(s + ("-" + rest)) == |s|
  {
    var t := s + ("-" + rest);
    if s == "" {
      assert t == "-" + rest;
    } else {
      assert t[1..] == s[1..] + ("-" + rest);
      DashInNumeral(s[1..], rest);
    }
  }

  lemma PartOfRange(py: Python, r: Range, total: int)
    requires Plain(py, total) && 1 <= r.first <= r.last <= total
    ensures PartPages(py, PrintRange(r), total) == Between(r.first, r.last)
  {
    PrintRangeShape(r);
    var s, x, y := PrintRange(r), Numeral(r.first), Numeral(r.last);
    DashInNumeral(x, y);
    assert py.strip(s) == s;
    assert py.toInt(x) == Some(r.first) && py.toInt(y) == Some(r.last);
    if r.first != r.last {
      TwoNumerals(py, x, y, total);
    }
  }

  lemma TwoNumerals(py: Python, x: string, y: string, total: int)
    requires var s := x + ("-" + y); py.strip(s) == s && Dash(s) == |x|
    requires py.toInt(x).Some? && py.toInt(y).Some?
    ensures PartPages(py, x + ("-" + y), total)
            == if py.toInt(x).value <= 0 then {}
               else Between(py.toInt(x).value, Min(Max(py.toInt(x).value, py.toInt(y).value), total))
  {
    var s := x + ("-" + y);
    assert s[..|x|] == x && s[|x| + 1..] == y;
  }

  /** A written range means its pages within the document; one that runs backwards means its first page. */
  lemma WrittenRange(py: Python, a: nat, b: nat, total: int, p: int)
    requires Plain(py, Max(a, b))
    ensures p in PartPages(py, Numeral(a) + ("-" + Numeral(b)), total)
            <==> 1 <= a <= p <= total && (p == a || p <= b)
  {
    var x, y := Numeral(a), Numeral(b);
    var s := x + ("-" + y);
    DashInNumeral(x, y);
    assert py.strip(s) == s by {
      assert s[0] == x[0] && s[|s| - 1] == y[|y| - 1];
    }
    assert py.toInt(x) == Some(a) && py.toInt(y) == Some(b);
    TwoNumerals(py, x, y, total);
  }

  lemma {:induction false} SplitFirst(part: string, rest: string)
    requires forall i | 0 <= i < |part| :: part[i] != ','
    ensures SplitCommas(part) == [part]
    ensures SplitCommas(part + ("," + rest)) == [part] + SplitCommas(rest)
  {
    var s := part + ("," + rest);
    if part == "" {
      assert s == "," + rest && s[1..] == rest;
    } else {
      SplitFirst(part[1..], rest);
      assert s[1..] == part[1..] + ("," + rest);
      assert [part[0]] + part[1..] == part;
    }
  }

  lemma {:induction false} PrintedRanges(py: Python, ranges: seq<Range>, total: int)
    requires Plain(py, total) && ranges != [] && RangesOk(ranges, total)
    ensures AllPages(py, SplitCommas(PrintRanges(ranges)), total) == Covered(ranges)
    ensures var s := PrintRanges(ranges);
            s != "" && IsDigit(s[0]) && IsDigit(s[|s| - 1])
  {
    var r := ranges[0];
    PrintRangeShape(r);
    if |ranges| == 1 {
      assert ranges == [r];
      PrintedRange(py, r, total);
    } else {
      var rest := PrintRanges(ranges[1..]);
      assert RangesOk(ranges[1..], total) by {
        assert forall i | 0 <= i < |ranges[1..]| :: ranges[1..][i] == ranges[i + 1];
      }
      PrintedRanges(py, ranges[1..], total);
      PrintedMore(py, r, rest, total);
      var s := PrintRanges(ranges);
      assert s[|s| - 1] == rest[|rest| - 1];
    }
  }

  lemma PrintedRange(py: Python, r: Range, total: int)
    requires Plain(py, total) && 1 <= r.first <= r.last <= total
    ensures AllPages(py, SplitCommas(PrintRange(r)), total) == Covered([r])
  {
    PrintRangeShape(r);
    PartOfRange(py, r, total);
    SplitFirst(PrintRange(r), "");
    assert AllPages(py, [PrintRange(r)], total) == PartPages(py, PrintRange(r), total) + AllPages(py, [], total);
    assert Covered([r]) == Between(r.first, r.last) + Covered([]);
  }

  lemma PrintedMore(py: Python, r: Range, rest: string, total: int)
    requires Plain(py, total) && 1 <= r.first <= r.last <= total
    ensures AllPages(py, SplitCommas(PrintRange(r) + ("," + rest)), total)
            == Between(r.first, r.last) + AllPages(py, SplitCommas(rest), total)
  {
    PrintRangeShape(r);
    PartOfRange(py, r, total);
    SplitFirst(PrintRange(r), rest);
    assert ([PrintRange(r)] + SplitCommas(rest))[1..] == SplitCommas(rest);
  }

  /** Any list of ranges, overlapping or not, selects exactly what it covers. */
  lemma RangesRoundTrip(py: Python, ranges: seq<Range>, total: int)
    requires Plain(py, total) && ranges != [] && RangesOk(ranges, total)
    ensures Selection(py, Some(PrintRanges(ranges)), total) == Covered(ranges)
  {
    PrintedRanges(py, ranges, total);
    assert ranges[0].first in Covered(ranges);
  }

  /** The end of the run of pages that starts at `p`. */
  function RunEnd(pages: set<int>, p: nat, total: nat): (e: nat)
    requires p <= total && p in pages
    decreases total - p
    ensures p <= e <= total && Between(p, e) <= pages && (e < total ==> e + 1 !in pages)
  {
    if p < total && p + 1 in pages then RunEnd(pages, p + 1, total) else p
  }

  /** The maximal runs of a set of pages, from `p` on. */
  function Runs(pages: set<int>, p: nat, total: nat): seq<Range>
    decreases total + 1 - p
  {
    if p > total then []
    else if p !in pages then Runs(pages, p + 1, total)
    else [Range(p, RunEnd(pages, p, total))] + Runs(pages, RunEnd(pages, p, total) + 1, total)
  }

  lemma {:induction false} RunsCover(pages: set<int>, p: nat, total: nat)
    requires 1 <= p
    ensures RangesOk(Runs(pages, p, total), total)
    ensures Covered(Runs(pages, p, total)) == set q | q in pages && p <= q <= total
    decreases total + 1 - p
  {
    if p <= total {
      var next := if p !in pages then p + 1 else RunEnd(pages, p, total) + 1;
      RunsCover(pages, next, total);
      if p in pages {
        assert Runs(pages, p, total)[1..] == Runs(pages, next, total);
      }
    }
  }

  /** Printing a set of pages by runs and parsing the text gives the set back, in order. */
  lemma PagesRoundTrip(py: Python, pages: set<int>, total: nat)
    requires Plain(py, total) && pages != {} && forall p | p in pages :: 1 <= p <= total
    ensures Sorted(Selection(py, Some(PrintRanges(Runs(pages, 1, total))), total), 1, total) == Sorted(pages, 1, total)
    ensures Selection(py, Some(PrintRanges(Runs(pages, 1, total))), total) == pages
  {
    RunsCover(pages, 1, total);
    var p :| p in pages;
    assert p in Covered(Runs(pages, 1, total));
    RangesRoundTrip(py, Runs(pages, 1, total), total);
    assert Covered(Runs(pages, 1, total)) == pages;
  }
}
