/**
 Strings as the browser code sees them: decoded Unicode text, cut anywhere.
 A decoder only ever hands over whole scalar values, so `char` is exact here.
 */
module Text {
  datatype Option<+T> = None | Some(value: T)

  /** The characters `\s` matches and `trim` removes in ECMAScript. */
  predicate IsBlank(c: char) {
    || '\t' <= c <= '\r'
    || c == ' '
    || c == '\U{A0}'
    || c == '\U{1680}'
    || '\U{2000}' <= c <= '\U{200A}'
    || c == '\U{2028}' || c == '\U{2029}' || c == '\U{202F}' || c == '\U{205F}'
    || c == '\U{3000}' || c == '\U{FEFF}'
  }

  /** The same characters one by one: WhiteSpace and LineTerminator of ECMA-262, section 12. */
  const BLANKS :=
    "\t\n\U{B}\U{C}\r \U{A0}\U{1680}\U{2000}\U{2001}\U{2002}\U{2003}\U{2004}\U{2005}\U{2006}\U{2007}"
    + "\U{2008}\U{2009}\U{200A}\U{2028}\U{2029}\U{202F}\U{205F}\U{3000}\U{FEFF}"

  lemma BlankCharacters(c: char)
    ensures IsBlank(c) <==> c in BLANKS
  {
    var b := BLANKS;
    assert b[0] == '\t' && b[1] == '\n' && b[2] == '\U{B}' && b[3] == '\U{C}' && b[4] == '\r' && b[5] == ' ';
    assert b[6] == '\U{A0}' && b[7] == '\U{1680}' && b[8] == '\U{2000}' && b[9] == '\U{2001}' && b[10] == '\U{2002}';
    assert b[11] == '\U{2003}' && b[12] == '\U{2004}' && b[13] == '\U{2005}' && b[14] == '\U{2006}';
    assert b[15] == '\U{2007}' && b[16] == '\U{2008}' && b[17] == '\U{2009}' && b[18] == '\U{200A}';
    assert b[19] == '\U{2028}' && b[20] == '\U{2029}' && b[21] == '\U{202F}' && b[22] == '\U{205F}';
    assert b[23] == '\U{3000}' && b[24] == '\U{FEFF}';
  }

  predicate Blank(s: string) {
    forall i | 0 <= i < |s| :: IsBlank(s[i])
  }

  function TrimStart(s: string): (t: string)
    ensures |t| <= |s|
    ensures t == "" || !IsBlank(t[0])
  {
    if s != "" && IsBlank(s[0]) then TrimStart(s[1..]) else s
  }

  function TrimEnd(s: string): (t: string)
    ensures |t| <= |s|
    ensures t == "" || !IsBlank(t[|t| - 1])
  {
    if s != "" && IsBlank(s[|s| - 1]) then TrimEnd(s[..|s| - 1]) else s
  }

  /** What `TrimStart` removes is blank, and it removes nothing else. */
  lemma {:induction false} TrimStartGap(s: string) returns (gap: string)
    ensures Blank(gap) && s == gap + TrimStart(s)
  {
    if s != "" && IsBlank(s[0]) {
      var inner := TrimStartGap(s[1..]);
      gap := [s[0]] + inner;
      assert gap + TrimStart(s) == [s[0]] + (inner + TrimStart(s[1..]));
    } else {
      gap := "";
    }
  }

  /** What `TrimEnd` removes is blank, and it removes nothing else. */
  lemma {:induction false} TrimEndGap(s: string) returns (gap: string)
    ensures Blank(gap) && s == TrimEnd(s) + gap
  {
    if s != "" && IsBlank(s[|s| - 1]) {
      var inner := TrimEndGap(s[..|s| - 1]);
      gap := inner + [s[|s| - 1]];
      assert TrimEnd(s) + gap == (TrimEnd(s[..|s| - 1]) + inner) + [s[|s| - 1]];
    } else {
      gap := "";
    }
  }

  function Trim(s: string): string {
    TrimEnd(TrimStart(s))
  }

  /** A text that begins and ends with something else than a blank. */
  predicate Core(s: string) {
    s != "" && !IsBlank(s[0]) && !IsBlank(s[|s| - 1])
  }

  /** Trimming takes blanks off both ends, and all of them. */
  lemma TrimMeaning(s: string) returns (front: string, back: string)
    ensures Blank(front) && Blank(back) && s == front + (Trim(s) + back)
    ensures Trim(s) == "" || Core(Trim(s))
  {
    front := TrimStartGap(s);
    back := TrimEndGap(TrimStart(s));
    if Trim(s) != "" {
      assert Trim(s)[0] == TrimStart(s)[0];
    }
  }

  /** Of a core between blanks, the core is what trimming leaves. */
  lemma TrimOfCore(front: string, core: string, back: string)
    requires Blank(front) && Core(core) && Blank(back)
    ensures Trim(front + (core + back)) == core
  {
    TrimStartBlank(front, core + back);
    TrimEndBlank(core, back);
  }

  lemma {:induction false} TrimEndBlank(core: string, back: string)
    requires Core(core) && Blank(back)
    ensures TrimEnd(core + back) == core
    decreases |back|
  {
    if back == "" {
      assert core + back == core;
    } else {
      var n := |back| - 1;
      assert (core + back)[..|core + back| - 1] == core + back[..n];
      TrimEndBlank(core, back[..n]);
    }
  }

  function Concat<T>(parts: seq<seq<T>>): seq<T> {
    if parts == [] then [] else parts[0] + Concat(parts[1..])
  }

  lemma {:induction false} ConcatAppend<T>(a: seq<seq<T>>, b: seq<seq<T>>)
    ensures Concat(a + b) == Concat(a) + Concat(b)
  {
    if a == [] {
      assert a + b == b;
    } else {
      assert (a + b)[1..] == a[1..] + b;
      ConcatAppend(a[1..], b);
    }
  }

  lemma ConcatTake<T>(parts: seq<seq<T>>, i: nat)
    requires i < |parts|
    ensures Concat(parts[..i + 1]) == Concat(parts[..i]) + parts[i]
  {
    assert parts[..i + 1] == parts[..i] + [parts[i]];
    ConcatAppend(parts[..i], [parts[i]]);
    assert Concat([parts[i]]) == parts[i] + [];
  }

  /** Leading blanks are removed no matter what follows them. */
  lemma {:induction false} TrimStartAppend(a: string, b: string)
    ensures TrimStart(a + b) == if TrimStart(a) == "" then TrimStart(b) else TrimStart(a) + b
  {
    if a == "" {
      assert a + b == b;
    } else if IsBlank(a[0]) {
      assert (a + b)[1..] == a[1..] + b;
      TrimStartAppend(a[1..], b);
    }
  }

  lemma {:induction false} TrimStartBlank(gap: string, s: string)
    requires Blank(gap) && (s == "" || !IsBlank(s[0]))
    ensures TrimStart(gap + s) == s
  {
    if gap == "" {
      assert gap + s == s;
    } else {
      assert (gap + s)[1..] == gap[1..] + s;
      TrimStartBlank(gap[1..], s);
    }
  }
}
