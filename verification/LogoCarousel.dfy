/**
 Shuffling logos, dealing them into columns and picking the one on show
 (frontend/components/ui/logo-carousel.tsx).  `Math.random` may return anything it
 is allowed to.
 */
module LogoCarousel {

  /** A shuffled copy: the loop swaps in place, from the end. */
  method ShuffleArray<T>(input: seq<T>) returns (shuffled: array<T>)
    ensures fresh(shuffled) && shuffled.Length == |input|
    ensures multiset(shuffled[..]) == multiset(input)
  {
    shuffled := new T[|input|](i requires 0 <= i < |input| => input[i]);
    assert shuffled[..] == input;
    var i := shuffled.Length - 1;
    while i > 0
      invariant i < shuffled.Length
      invariant multiset(shuffled[..]) == multiset(input)
    {
      var j :| 0 <= j <= i;
      shuffled[i], shuffled[j] := shuffled[j], shuffled[i];
      i := i - 1;
    }
  }

  // Columns

  /** After dealing full rows and `extra` more logos. */
  ghost predicate Dealt<T>(columns: seq<seq<T>>, shuffled: seq<T>, rows: nat, extra: nat) {
    && extra < |columns|
    && forall k | 0 <= k < |columns| ::
         && |columns[k]| == (if k < extra then rows + 1 else rows)
         && forall r | 0 <= r < |columns[k]| ::
              r * |columns| + k < |shuffled| && columns[k][r] == shuffled[r * |columns| + k]
  }

  /** Every column has `height` logos: those dealt to it, then any logos of the input. */
  ghost predicate Filled<T>(columns: seq<seq<T>>, shuffled: seq<T>, height: nat) {
    forall k | 0 <= k < |columns| ::
      && |columns[k]| == height
      && forall r | 0 <= r < height ::
           if r * |columns| + k < |shuffled| then columns[k][r] == shuffled[r * |columns| + k]
           else columns[k][r] in shuffled
  }

  function MaxLength<T>(columns: seq<seq<T>>): nat {
    if columns == [] then 0
    else
      var rest := MaxLength(columns[1..]);
      if |columns[0]| < rest then rest else |columns[0]|
  }

  lemma MaxLengthIs<T>(columns: seq<seq<T>>, n: nat)
    requires forall k | 0 <= k < |columns| :: |columns[k]| <= n
    requires exists k | 0 <= k < |columns| :: |columns[k]| == n
    ensures MaxLength(columns) == n
  {
    MaxLengthBounds(columns, n);
  }

  lemma {:induction false} MaxLengthBounds<T>(columns: seq<seq<T>>, n: nat)
    requires forall k | 0 <= k < |columns| :: |columns[k]| <= n
    ensures MaxLength(columns) <= n
    ensures forall k | 0 <= k < |columns| :: |columns[k]| <= MaxLength(columns)
  {
    if columns != [] {
      MaxLengthBounds(columns[1..], n);
      forall k | 0 <= k < |columns|
        ensures |columns[k]| <= MaxLength(columns)
      {
        if k > 0 {
          assert columns[1..][k - 1] == columns[k];
        }
      }
    }
  }

  lemma MulMonotone(a: int, b: int, c: nat)
    requires a <= b
    ensures a * c <= b * c
  {
    assert (b - a) * c >= 0;
  }

  lemma DivMod(rows: nat, c: nat, extra: nat)
    requires extra < c
    ensures (rows * c + extra) / c == rows && (rows * c + extra) % c == extra
  {
    var n := rows * c + extra;
    var q := n / c;
    assert n == q * c + n % c;
    if q > rows {
      MulMonotone(rows + 1, q, c);
    } else if q < rows {
      MulMonotone(q + 1, rows, c);
    }
  }

  function Ceil(n: nat, c: nat): nat
    requires c > 0
  {
    (n + c - 1) / c
  }

  lemma CeilOf(rows: nat, c: nat, extra: nat)
    requires extra < c
    ensures Ceil(rows * c + extra, c) == if extra == 0 then rows else rows + 1
  {
    if extra == 0 {
      DivMod(rows, c, c - 1);
    } else {
      DivMod(rows + 1, c, extra - 1);
      assert (rows + 1) * c == rows * c + c;
    }
  }

  lemma DealOne<T>(columns: seq<seq<T>>, shuffled: seq<T>, rows: nat, extra: nat)
    requires Dealt(columns, shuffled, rows, extra) && rows * |columns| + extra < |shuffled|
    ensures var dealt := columns[extra := columns[extra] + [shuffled[rows * |columns| + extra]]];
            if extra + 1 < |columns| then Dealt(dealt, shuffled, rows, extra + 1)
            else Dealt(dealt, shuffled, rows + 1, 0)
  {
  }

  /**
   Any shuffle, any padding: every column gets ceil(n / c) logos, dealt round robin
   from a permutation of the input and filled up from the input.
   */
  method DistributeLogos<T>(allLogos: seq<T>, columnCount: int) returns (columns: seq<seq<T>>)
    ensures allLogos == [] || columnCount <= 0 ==> columns == []
    ensures allLogos != [] && columnCount > 0 ==>
              && |columns| == columnCount
              && exists shuffled :: multiset(shuffled) == multiset(allLogos)
                   && Filled(columns, shuffled, Ceil(|allLogos|, columnCount))
  {
    if |allLogos| == 0 || columnCount <= 0 {
      return [];
    }
    var array' := ShuffleArray(allLogos);
    var shuffled := array'[..];
    assert |shuffled| == |multiset(shuffled)| == |multiset(allLogos)| == |allLogos|;
    ghost var rows, extra;
    columns, rows, extra := DealColumns(shuffled, columnCount);
    CeilOf(rows, columnCount, extra);
    assert |columns[0]| == Ceil(|allLogos|, columnCount);
    MaxLengthIs(columns, Ceil(|allLogos|, columnCount));
    columns := FillColumns(columns, shuffled, rows, extra, MaxLength(columns));
  }

  lemma NextRow(rows: nat, c: nat)
    ensures rows * c + c == (rows + 1) * c
  {
  }

  /** The first loop: one logo at a time, round robin. */
  method DealColumns<T>(shuffled: seq<T>, columnCount: nat)
    returns (columns: seq<seq<T>>, ghost rows: nat, ghost extra: nat)
    requires columnCount > 0
    ensures |columns| == columnCount && Dealt(columns, shuffled, rows, extra)
    ensures |shuffled| == rows * columnCount + extra
  {
    columns := seq(columnCount, _ => []);
    rows, extra := 0, 0;
    var index := 0;
    while index < |shuffled|
      invariant 0 <= index <= |shuffled| && |columns| == columnCount
      invariant index == rows * columnCount + extra
      invariant Dealt(columns, shuffled, rows, extra)
    {
      DivMod(rows, columnCount, extra);
      DealOne(columns, shuffled, rows, extra);
      NextRow(rows, columnCount);
      var k := index % columnCount;
      columns := columns[k := columns[k] + [shuffled[index]]];
      index := index + 1;
      if extra + 1 < columnCount {
        extra := extra + 1;
      } else {
        rows, extra := rows + 1, 0;
      }
    }
  }

  /** The last loop: short columns take random logos until all are as long as the longest. */
  method FillColumns<T>(dealt: seq<seq<T>>, shuffled: seq<T>, ghost rows: nat, ghost extra: nat, maxLength: nat)
    returns (columns: seq<seq<T>>)
    requires shuffled != [] && Dealt(dealt, shuffled, rows, extra)
    requires |shuffled| == rows * |dealt| + extra && maxLength == (if extra == 0 then rows else rows + 1)
    ensures |columns| == |dealt| && Filled(columns, shuffled, maxLength)
  {
    columns := dealt;
    var k := 0;
    while k < |columns|
      invariant 0 <= k <= |columns| == |dealt|
      invariant forall l | k <= l < |columns| :: columns[l] == dealt[l]
      invariant forall l | 0 <= l < k :: FilledColumn(columns[l], shuffled, |dealt|, l, maxLength)
    {
      var column := columns[k];
      ghost var old' := column;
      while |column| < maxLength
        invariant |old'| <= |column| <= maxLength || |column| == |old'|
        invariant forall r | 0 <= r < |old'| :: column[r] == old'[r]
        invariant forall r | |old'| <= r < |column| :: column[r] in shuffled
      {
        var i :| 0 <= i < |shuffled|;
        column := column + [shuffled[i]];
      }
      ColumnIsFilled(dealt, shuffled, rows, extra, k, column, maxLength);
      columns := columns[k := column];
      k := k + 1;
    }
    assert forall l | 0 <= l < |columns| :: FilledColumn(columns[l], shuffled, |dealt|, l, maxLength);
  }

  ghost predicate FilledColumn<T>(column: seq<T>, shuffled: seq<T>, c: nat, k: nat, height: nat) {
    && |column| == height
    && forall r | 0 <= r < height ::
         if r * c + k < |shuffled| then column[r] == shuffled[r * c + k] else column[r] in shuffled
  }

  lemma ColumnIsFilled<T>(dealt: seq<seq<T>>, shuffled: seq<T>, rows: nat, extra: nat, k: nat, column: seq<T>, height: nat)
    requires Dealt(dealt, shuffled, rows, extra) && k < |dealt|
    requires |shuffled| == rows * |dealt| + extra && height == (if extra == 0 then rows else rows + 1)
    requires |column| == height && |dealt[k]| <= height
    requires forall r | 0 <= r < |dealt[k]| :: column[r] == dealt[k][r]
    requires forall r | |dealt[k]| <= r < height :: column[r] in shuffled
    ensures FilledColumn(column, shuffled, |dealt|, k, height)
  {
    forall r | 0 <= r < height
      ensures if r * |dealt| + k < |shuffled| then column[r] == shuffled[r * |dealt| + k] else column[r] in shuffled
    {
      if r >= |dealt[k]| {
        assert r == rows && k >= extra;
      }
    }
  }

  // What filled columns hold

  /** The columns read row by row. */
  function RowMajor<T>(columns: seq<seq<T>>, height: nat): (grid: seq<T>)
    requires |columns| > 0 && forall k | 0 <= k < |columns| :: |columns[k]| == height
    ensures |grid| == height * |columns|
  {
    seq(height * |columns|, i requires 0 <= i < height * |columns| => EntryAt(columns, height, i))
  }

  function EntryAt<T>(columns: seq<seq<T>>, height: nat, i: nat): T
    requires |columns| > 0 && forall k | 0 <= k < |columns| :: |columns[k]| == height
    requires i < height * |columns|
  {
    PositionInGrid(i, |columns|, height);
    columns[i % |columns|][i / |columns|]
  }

  lemma PositionInGrid(i: nat, c: nat, height: nat)
    requires c > 0 && i < height * c
    ensures i / c < height && i == (i / c) * c + i % c
  {
    if i / c >= height {
      MulMonotone(height, i / c, c);
    }
  }

  lemma EntryOf<T>(columns: seq<seq<T>>, shuffled: seq<T>, height: nat, i: nat)
    requires |columns| > 0 && Filled(columns, shuffled, height) && i < height * |columns|
    ensures var x := EntryAt(columns, height, i);
            if i < |shuffled| then x == shuffled[i] else x in shuffled
  {
    PositionInGrid(i, |columns|, height);
  }

  /** Read row by row, filled columns are the whole permutation followed by padding from the input, and no more. */
  lemma RowMajorIsShuffled<T>(columns: seq<seq<T>>, shuffled: seq<T>, height: nat)
    requires |columns| > 0 && Filled(columns, shuffled, height)
    ensures var grid := RowMajor(columns, height);
            forall i | 0 <= i < |grid| :: if i < |shuffled| then grid[i] == shuffled[i] else grid[i] in shuffled
  {
    forall i | 0 <= i < height * |columns|
      ensures var x := EntryAt(columns, height, i);
              if i < |shuffled| then x == shuffled[i] else x in shuffled
    {
      EntryOf(columns, shuffled, height, i);
    }
  }

  lemma CeilBounds(n: nat, c: nat)
    requires c > 0
    ensures n <= Ceil(n, c) * c < n + c
  {
    var h := Ceil(n, c);
    assert n + c - 1 == h * c + (n + c - 1) % c;
  }

  /** Every logo is on some column, and exactly c * ceil(n / c) - n entries are padding. */
  lemma EveryLogoAppears<T>(columns: seq<seq<T>>, allLogos: seq<T>, shuffled: seq<T>)
    requires |columns| > 0 && allLogos != [] && multiset(shuffled) == multiset(allLogos)
    requires Filled(columns, shuffled, Ceil(|allLogos|, |columns|))
    ensures var height := Ceil(|allLogos|, |columns|);
            && |allLogos| <= height * |columns|
            && var grid := RowMajor(columns, height);
               && |grid| == height * |columns|
               && multiset(grid[..|allLogos|]) == multiset(allLogos)
               && |grid[|allLogos|..]| == |columns| * height - |allLogos| < |columns|
               && forall x | x in grid[|allLogos|..] :: x in allLogos
  {
    var height := Ceil(|allLogos|, |columns|);
    CeilBounds(|allLogos|, |columns|);
    RowMajorIsShuffled(columns, shuffled, height);
    var grid := RowMajor(columns, height);
    assert |shuffled| == |multiset(shuffled)| == |multiset(allLogos)| == |allLogos|;
    assert grid[..|allLogos|] == shuffled;
    forall x | x in grid[|allLogos|..]
      ensures x in allLogos
    {
      assert x in multiset(shuffled);
      assert x in multiset(allLogos);
    }
  }

  // The logo on show

  /** `x % m` of ECMAScript: the remainder has the sign of `x`. */
  function Remainder(x: real, m: real): real
    requires m > 0.0
  {
    if x >= 0.0 then x - m * (x / m).Floor as real else -(-x - m * (-x / m).Floor as real)
  }

  predicate WholePeriods(x: real, m: real, k: int) {
    x == m * k as real
  }

  ghost predicate IsWholePeriods(x: real, m: real) {
    exists k :: WholePeriods(x, m, k)
  }

  /** The remainder takes whole periods away, and stays between zero and one period on the side of `x`. */
  lemma RemainderBounds(x: real, m: real) returns (k: int)
    requires m > 0.0
    ensures x >= 0.0 ==> 0.0 <= Remainder(x, m) < m
    ensures x <= 0.0 ==> -m < Remainder(x, m) <= 0.0
    ensures WholePeriods(x - Remainder(x, m), m, k)
  {
    if x >= 0.0 {
      k := (x / m).Floor;
      FloorBounds(x, m);
    } else {
      var j := (-x / m).Floor;
      k := -j;
      FloorBounds(-x, m);
      Opposite(m, j);
    }
  }

  lemma Opposite(m: real, j: int)
    ensures m * (-j) as real == -(m * j as real)
  {
  }

  lemma FloorBounds(y: real, m: real)
    requires m > 0.0
    ensures m * (y / m).Floor as real <= y < m * (y / m).Floor as real + m
  {
    var d := y / m;
    var q := d.Floor as real;
    var p := q + 1.0;
    Divided(y, m);
    ScaledAtMost(m, q, d);
    calc {
      y;
      m * d;
    <  { ScaledBelow(m, d, p); }
      m * p;
      { OneMore(m, q); }
      m * q + m;
    }
  }

  lemma Divided(y: real, m: real)
    requires m > 0.0
    ensures m * (y / m) == y
  {
  }

  lemma ScaledBelow(m: real, a: real, b: real)
    requires m > 0.0 && a < b
    ensures m * a < m * b
  {
    assert m * (b - a) > 0.0;
  }

  lemma ScaledAtMost(m: real, a: real, b: real)
    requires m > 0.0 && a <= b
    ensures m * a <= m * b
  {
    assert m * (b - a) >= 0.0;
  }

  lemma OneMore(m: real, q: real)
    ensures m * (q + 1.0) == m * q + m
  {
  }

  function CurrentIndex(currentTime: real, staggerDelay: real, cycleInterval: real, n: nat): int
    requires cycleInterval > 0.0 && n > 0
  {
    (Remainder(currentTime + staggerDelay, cycleInterval * n as real) / cycleInterval).Floor
  }

  lemma DivideWithin(x: real, c: real, n: nat)
    requires c > 0.0 && 0.0 <= x < c * n as real
    ensures 0 <= (x / c).Floor < n
  {
    var d := x / c;
    Divided(x, c);
    if d < 0.0 {
      ScaledBelow(c, d, 0.0);
    } else if d >= n as real {
      ScaledAtMost(c, n as real, d);
    }
  }

  /** A whole number of periods leaves nothing over, and nothing else does. */
  lemma NothingOverIff(x: real, m: real)
    requires m > 0.0
    ensures Remainder(x, m) == 0.0 <==> IsWholePeriods(x, m)
  {
    var j := RemainderBounds(x, m);
    if Remainder(x, m) == 0.0 {
      assert WholePeriods(x, m, j);
    }
    if k :| WholePeriods(x, m, k) {
      if x >= 0.0 {
        FloorOfWhole(x, m, k);
      } else {
        Opposite(m, k);
        FloorOfWhole(-x, m, -k);
      }
    }
  }

  lemma FloorOfWhole(y: real, m: real, k: int)
    requires m > 0.0 && WholePeriods(y, m, k)
    ensures (y / m).Floor == k
  {
    Divided(y, m);
    Cancel(m, y / m, k as real);
  }

  lemma Cancel(m: real, a: real, b: real)
    requires m > 0.0 && m * a == m * b
    ensures a == b
  {
    if a < b {
      ScaledBelow(m, a, b);
    } else if b < a {
      ScaledBelow(m, b, a);
    }
  }

  lemma DivideNegative(r: real, c: real)
    requires c > 0.0 && r < 0.0
    ensures (r / c).Floor < 0
  {
    Divided(r, c);
    if r / c >= 0.0 {
      ScaledAtMost(c, 0.0, r / c);
    }
  }

  /** The index is in bounds exactly from time zero on, or a whole number of periods before it. */
  lemma IndexInBoundsIff(currentTime: real, staggerDelay: real, cycleInterval: real, n: nat)
    requires cycleInterval > 0.0 && n > 0
    ensures 0 <= CurrentIndex(currentTime, staggerDelay, cycleInterval, n) < n <==>
              || currentTime + staggerDelay >= 0.0
              || IsWholePeriods(currentTime + staggerDelay, cycleInterval * n as real)
  {
    var x, m := currentTime + staggerDelay, cycleInterval * n as real;
    var _ := RemainderBounds(x, m);
    NothingOverIff(x, m);
    var r := Remainder(x, m);
    if r >= 0.0 {
      DivideWithin(r, cycleInterval, n);
    } else {
      DivideNegative(r, cycleInterval);
    }
  }

  /** Less than one period before time zero the index is negative, so no logo is picked. */
  lemma NegativeTimeIsOut(currentTime: real, staggerDelay: real, cycleInterval: real, n: nat)
    requires cycleInterval > 0.0 && n > 0
    requires -(cycleInterval * n as real) < currentTime + staggerDelay < 0.0
    ensures CurrentIndex(currentTime, staggerDelay, cycleInterval, n) < 0
  {
    var x, m := currentTime + staggerDelay, cycleInterval * n as real;
    DivideWithin(-x, m, 1);
    assert m * 0 as real == 0.0;
    assert Remainder(x, m) == x;
    DivideNegative(x, cycleInterval);
  }

  lemma FloorShift(q: int, z: real)
    ensures (q as real + z).Floor == q + z.Floor
  {
  }

  lemma Regroup(c: real, n: nat, q: int, z: real)
    ensures c * ((n * q) as real + z) == c * n as real * q as real + c * z
  {
    assert (n * q) as real == n as real * q as real;
  }

  /** From time zero on, the intervals that have passed pick the logo, around and around. */
  lemma LogoOnShow(currentTime: real, staggerDelay: real, cycleInterval: real, n: nat)
    requires cycleInterval > 0.0 && n > 0 && currentTime + staggerDelay >= 0.0
    ensures CurrentIndex(currentTime, staggerDelay, cycleInterval, n)
            == ((currentTime + staggerDelay) / cycleInterval).Floor % n
  {
    var x, m := currentTime + staggerDelay, cycleInterval * n as real;
    var q := RemainderBounds(x, m);
    var r := Remainder(x, m);
    Quotient(x, cycleInterval, n, q, r);
    FloorShift(n * q, r / cycleInterval);
    DivideWithin(r, cycleInterval, n);
    WholeTurns(q, n, (r / cycleInterval).Floor);
  }

  lemma Quotient(x: real, c: real, n: nat, q: int, r: real)
    requires c > 0.0 && WholePeriods(x - r, c * n as real, q)
    ensures x / c == (n * q) as real + r / c
  {
    var z := r / c;
    Divided(r, c);
    Divided(x, c);
    Regroup(c, n, q, z);
    Cancel(c, x / c, (n * q) as real + z);
  }

  lemma WholeTurns(q: int, n: nat, f: int)
    requires n > 0 && 0 <= f < n
    ensures (n * q + f) % n == f
  {
    var k := (n * q + f) / n;
    assert n * q + f == n * k + (n * q + f) % n;
    if k > q {
      MulMonotone(q + 1, k, n);
    } else if k < q {
      MulMonotone(k + 1, q, n);
    }
  }

  /** The first logo is on show at time zero, and each interval moves on by one. */
  lemma LogoMovesOn(currentTime: real, staggerDelay: real, cycleInterval: real, n: nat)
    requires cycleInterval > 0.0 && n > 0 && currentTime + staggerDelay >= 0.0
    ensures currentTime + staggerDelay == 0.0 ==> CurrentIndex(currentTime, staggerDelay, cycleInterval, n) == 0
    ensures CurrentIndex(currentTime + cycleInterval, staggerDelay, cycleInterval, n)
            == (CurrentIndex(currentTime, staggerDelay, cycleInterval, n) + 1) % n
  {
    var x := currentTime + staggerDelay;
    LogoOnShow(currentTime, staggerDelay, cycleInterval, n);
    LogoOnShow(currentTime + cycleInterval, staggerDelay, cycleInterval, n);
    NextInterval(x, cycleInterval);
    NextModulo((x / cycleInterval).Floor, n);
  }

  lemma NextInterval(x: real, c: real)
    requires c > 0.0
    ensures ((x + c) / c).Floor == (x / c).Floor + 1
  {
    Divided(x, c);
    Divided(x + c, c);
    OneMore(c, x / c);
    Cancel(c, (x + c) / c, x / c + 1.0);
  }

  lemma NextModulo(f: int, n: nat)
    requires n > 0
    ensures (f + 1) % n == (f % n + 1) % n
  {
    var q, r := f / n, f % n;
    NextAfterTurns(q, r, n);
    NextAfterTurns(0, r, n);
  }

  lemma NextAfterTurns(q: int, r: int, n: nat)
    requires 0 <= r < n
    ensures (n * q + r + 1) % n == if r + 1 < n then r + 1 else 0
  {
    if r + 1 < n {
      WholeTurns(q, n, r + 1);
    } else {
      OneTurn(q, n);
      WholeTurns(q + 1, n, 0);
    }
  }

  lemma OneTurn(q: int, n: nat)
    ensures n * (q + 1) == n * q + n
  {
  }
}
