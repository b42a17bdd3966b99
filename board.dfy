/** Board generator: the colour list, its Fisher-Yates shuffle and the row-major
    layout of the dots, with the random draws supplied as explicit choices. */
module Board {
  import opened Level

  datatype Color = Red | Green | Blue | Yellow | Orange

  /** The palette, in the order the colours are taken from it. */
  const Palette: seq<Color> := [Red, Green, Blue, Yellow, Orange]

  /** Side of one grid square, in pixels. */
  const SquareSize: int := 80

  /** Diameter of one dot, in pixels. */
  const DotSize: int := 40

  datatype Position = Position(x: int, y: int)

  datatype Dot = Dot(id: string, color: Color, position: Position, connected: bool)

  function Min(a: nat, b: nat): nat
  {
    if a <= b then a else b
  }

  // ---------------------------------------------------------------------------
  // Dot ids: the text "row-col"
  // ---------------------------------------------------------------------------

  function DigitChar(d: nat): char
    requires d < 10
  {
    (48 + d) as char
  }

  /** Decimal text of a natural number, as a template literal renders it. */
  function Decimal(n: nat): (s: string)
    ensures 1 <= |s|
    ensures forall i :: 0 <= i < |s| ==> '0' <= s[i] <= '9'
    decreases n
  {
    if n < 10 then [DigitChar(n)] else Decimal(n / 10) + [DigitChar(n % 10)]
  }

  /** Two numbers with the same decimal text are equal. */
  lemma {:induction false} DecimalInjective(m: nat, n: nat)
    ensures Decimal(m) == Decimal(n) ==> m == n
    decreases m
  {
    if m >= 10 && n >= 10 {
      var s, t := Decimal(m), Decimal(n);
      assert Decimal(m / 10) == s[..|s| - 1];
      assert Decimal(n / 10) == t[..|t| - 1];
      DecimalInjective(m / 10, n / 10);
      if s == t {
        assert DigitChar(m % 10) == s[|s| - 1] == DigitChar(n % 10);
      }
    }
  }

  /** The id of the dot in cell (row, col): the row's digits, one dash, the
      column's digits. */
  function CellId(row: nat, col: nat): (id: string)
    ensures |id| == |Decimal(row)| + 1 + |Decimal(col)|
    ensures id[|Decimal(row)|] == '-'
    ensures forall i :: 0 <= i < |id| && i != |Decimal(row)| ==> '0' <= id[i] <= '9'
  {
    Decimal(row) + "-" + Decimal(col)
  }

  /** Index of the first '-' in `s`, or |s| when there is none. */
  function FirstDash(s: string): (i: nat)
    ensures i <= |s|
  {
    if s == [] then 0 else if s[0] == '-' then 0 else 1 + FirstDash(s[1..])
  }

  /** In `a-rest`, with `a` made of digits, the first dash ends `a`. */
  lemma {:induction false} FirstDashAfterDigits(a: string, rest: string)
    requires forall i :: 0 <= i < |a| ==> '0' <= a[i] <= '9'
    ensures FirstDash(a + "-" + rest) == |a|
  {
    if a != [] {
      assert (a + "-" + rest)[1..] == a[1..] + "-" + rest;
      FirstDashAfterDigits(a[1..], rest);
    }
  }

  /** Text of the form `a-rest`, with `a` made of digits, splits uniquely at its
      first dash. */
  lemma DashSplit(a: string, rest: string, b: string, rest': string)
    requires forall i :: 0 <= i < |a| ==> '0' <= a[i] <= '9'
    requires forall i :: 0 <= i < |b| ==> '0' <= b[i] <= '9'
    ensures a + "-" + rest == b + "-" + rest' ==> a == b && rest == rest'
  {
    var s, t := a + "-" + rest, b + "-" + rest';
    FirstDashAfterDigits(a, rest);
    FirstDashAfterDigits(b, rest');
    assert a == s[..|a|] && rest == s[|a| + 1..];
    assert b == t[..|b|] && rest' == t[|b| + 1..];
  }

  /** Distinct cells have distinct ids: the first '-' separates the two decimals. */
  lemma CellIdInjective(r1: nat, c1: nat, r2: nat, c2: nat)
    ensures CellId(r1, c1) == CellId(r2, c2) ==> r1 == r2 && c1 == c2
  {
    var a, b := Decimal(r1), Decimal(r2);
    var s, t := CellId(r1, c1), CellId(r2, c2);
    FirstDashAfterDigits(a, Decimal(c1));
    FirstDashAfterDigits(b, Decimal(c2));
    if s == t {
      assert |a| == |b|;
      assert a == s[..|a|] && b == t[..|b|];
      assert Decimal(c1) == s[|a| + 1..] && Decimal(c2) == t[|b| + 1..];
      DecimalInjective(r1, r2);
      DecimalInjective(c1, c2);
    }
  }

  predicate IdsUnique(dots: seq<Dot>)
  {
    forall i, j :: 0 <= i < |dots| && 0 <= j < |dots| && i != j ==> dots[i].id != dots[j].id
  }

  // ---------------------------------------------------------------------------
  // Placement
  // ---------------------------------------------------------------------------

  /** Top-left corner of the dot centred in cell (row, col): the dot's box lies
      inside the cell's square with equal margins on both sides. */
  function CellPosition(row: nat, col: nat): (p: Position)
    ensures col * SquareSize <= p.x && p.x + DotSize <= (col + 1) * SquareSize
    ensures row * SquareSize <= p.y && p.y + DotSize <= (row + 1) * SquareSize
    ensures p.x - col * SquareSize == (col + 1) * SquareSize - (p.x + DotSize)
    ensures p.y - row * SquareSize == (row + 1) * SquareSize - (p.y + DotSize)
  {
    Position(col * SquareSize + SquareSize / 2 - DotSize / 2,
             row * SquareSize + SquareSize / 2 - DotSize / 2)
  }

  /** The fresh, unconnected dot of cell (row, col). */
  function CellDot(row: nat, col: nat, color: Color): Dot
  {
    Dot(CellId(row, col), color, CellPosition(row, col), false)
  }

  /** Row of the k-th cell in row-major order. */
  function RowOf(n: nat, k: nat): nat
    requires n > 0
  {
    MulBounds(n, k / n);
    k / n
  }

  /** Column of the k-th cell in row-major order. */
  function ColOf(n: nat, k: nat): nat
    requires n > 0
  {
    k % n
  }

  /** Row-major board of side `n`: the k-th colour goes to the k-th cell, as long
      as colours last. */
  function Layout(n: nat, colors: seq<Color>): (dots: seq<Dot>)
    ensures |dots| == if n == 0 then 0 else Min(n * n, |colors|)
    ensures forall k :: 0 <= k < |dots| ==> dots[k].color == colors[k] && !dots[k].connected
  {
    if n == 0 then []
    else seq(Min(n * n, |colors|), k requires 0 <= k < Min(n * n, |colors|) => CellDot(RowOf(n, k), ColOf(n, k), colors[k]))
  }

  lemma MulBounds(n: int, d: int)
    requires n > 0
    ensures d >= 1 ==> n * d >= n
    ensures d <= -1 ==> n * d <= -n
  {
  }

  /** Quotient and remainder are determined by k == q * n + r with 0 <= r < n. */
  lemma DivModUnique(n: int, k: int, q: int, r: int)
    requires n > 0 && 0 <= r < n && k == q * n + r
    ensures k / n == q && k % n == r
  {
    var q', r' := k / n, k % n;
    assert k == n * q' + r';
    assert n * (q - q') == r' - r;
    MulBounds(n, q - q');
  }

  lemma DivModCell(n: nat, row: nat, col: nat)
    requires col < n
    ensures RowOf(n, row * n + col) == row && ColOf(n, row * n + col) == col
  {
    DivModUnique(n, row * n + col, row, col);
  }

  lemma CellIndexBound(n: nat, row: nat, col: nat)
    requires row < n && col < n
    ensures row * n + col < n * n
  {
    MulBounds(n, n - row);
    assert n * (n - row) == n * n - row * n;
  }

  /** Cell (row, col) of a full board holds the fresh dot with id "row-col",
      position (col*80+20, row*80+20) for 80-pixel squares and 40-pixel dots and the (row*n+col)-th colour. */
  lemma LayoutCell(n: nat, colors: seq<Color>, row: nat, col: nat)
    requires row < n && col < n && |colors| == n * n
    ensures row * n + col < |Layout(n, colors)|
    ensures Layout(n, colors)[row * n + col] == CellDot(row, col, colors[row * n + col])
    ensures Layout(n, colors)[row * n + col].id == CellId(row, col)
    ensures Layout(n, colors)[row * n + col].position ==
      Position(col * SquareSize + (SquareSize - DotSize) / 2, row * SquareSize + (SquareSize - DotSize) / 2)
    ensures !Layout(n, colors)[row * n + col].connected
  {
    DivModCell(n, row, col);
    CellIndexBound(n, row, col);
  }

  lemma LayoutAt(n: nat, colors: seq<Color>, k: nat)
    requires k < |Layout(n, colors)|
    ensures n > 0 && k < |colors| && Layout(n, colors)[k] == CellDot(RowOf(n, k), ColOf(n, k), colors[k])
  {
  }

  /** No two dots of a board share an id. */
  lemma LayoutIdsUnique(n: nat, colors: seq<Color>)
    ensures IdsUnique(Layout(n, colors))
  {
    var dots := Layout(n, colors);
    forall i, j | 0 <= i < |dots| && 0 <= j < |dots| && i != j
      ensures dots[i].id != dots[j].id
    {
      LayoutAt(n, colors, i);
      LayoutAt(n, colors, j);
      DistinctCells(n, i, j);
      CellIdInjective(RowOf(n, i), ColOf(n, i), RowOf(n, j), ColOf(n, j));
    }
  }

  /** Distinct indices fall into distinct cells. */
  lemma DistinctCells(n: nat, i: nat, j: nat)
    requires n > 0 && i != j
    ensures RowOf(n, i) != RowOf(n, j) || ColOf(n, i) != ColOf(n, j)
  {
  }

  /** The colours of a board, in board order. */
  function Colors(dots: seq<Dot>): (cs: seq<Color>)
    ensures |cs| == |dots|
  {
    seq(|dots|, k requires 0 <= k < |dots| => dots[k].color)
  }

  // ---------------------------------------------------------------------------
  // The colour list: each usable colour twice, then random fill
  // ---------------------------------------------------------------------------

  /** The palette prefix that a board of side `n` draws from. */
  function ColorsToUse(n: nat): (use: seq<Color>)
    ensures |use| == Min(5, n * n / 2)
    ensures 2 * |use| <= n * n
  {
    Palette[..Min(|Palette|, n * n / 2)]
  }

  /** Boards of levels 1 to 4 use the first four palette colours, larger levels
      all five. */
  lemma UsableColors(level: int)
    ensures level < LargeGridLevel ==> ColorsToUse(GridSize(level)) == [Red, Green, Blue, Yellow]
    ensures level >= LargeGridLevel ==> ColorsToUse(GridSize(level)) == Palette
  {
  }

  /** Each usable colour twice, in palette order. */
  function PairSeed(use: seq<Color>): (s: seq<Color>)
    ensures |s| == 2 * |use|
    ensures forall k :: 0 <= k < |s| ==> s[k] in use
  {
    seq(2 * |use|, k requires 0 <= k < 2 * |use| => use[k / 2])
  }

  /** The pair list holds each usable colour twice, side by side, in palette order. */
  lemma PairSeedPairs(use: seq<Color>)
    ensures forall i :: 0 <= i < |use| ==> PairSeed(use)[2 * i] == use[i] && PairSeed(use)[2 * i + 1] == use[i]
  {
    forall i | 0 <= i < |use|
      ensures PairSeed(use)[2 * i] == use[i] && PairSeed(use)[2 * i + 1] == use[i]
    {
      assert (2 * i) / 2 == i && (2 * i + 1) / 2 == i;
    }
  }

  /** The random fill draws admissible for filling a list seeded from `use` up to `total`. */
  predicate PicksFit(use: seq<Color>, total: nat, picks: seq<nat>)
  {
    2 * |use| <= total &&
    |picks| == total - 2 * |use| &&
    forall k :: 0 <= k < |picks| ==> picks[k] < |use|
  }

  /** The colour list before shuffling: the pairs, then one colour per draw. */
  function ColorList(use: seq<Color>, picks: seq<nat>): (list: seq<Color>)
    requires forall k :: 0 <= k < |picks| ==> picks[k] < |use|
    ensures |list| == 2 * |use| + |picks|
    ensures forall k :: 0 <= k < |list| ==> list[k] in use
  {
    PairSeed(use) + seq(|picks|, k requires 0 <= k < |picks| => use[picks[k]])
  }

  lemma TwoOccurrences(s: seq<Color>, p: nat, q: nat)
    requires p < q < |s| && s[p] == s[q]
    ensures multiset(s)[s[p]] >= 2
  {
    assert s == s[..q] + s[q..];
    assert s[p] in multiset(s[..q]);
    assert s[q] in multiset(s[q..]);
  }

  /** The colour list covers the board, draws only usable colours and holds every
      usable colour at least twice. */
  lemma {:induction false} ColorListShape(use: seq<Color>, total: nat, picks: seq<nat>)
    requires PicksFit(use, total, picks)
    ensures |ColorList(use, picks)| == total
    ensures forall k :: 0 <= k < total ==> ColorList(use, picks)[k] in use
    ensures forall c :: c in use ==> multiset(ColorList(use, picks))[c] >= 2
  {
    var list := ColorList(use, picks);
    forall c | c in use
      ensures multiset(list)[c] >= 2
    {
      var i :| 0 <= i < |use| && use[i] == c;
      assert list[2 * i] == use[(2 * i) / 2] == c;
      assert list[2 * i + 1] == use[(2 * i + 1) / 2] == c;
      TwoOccurrences(list, 2 * i, 2 * i + 1);
    }
  }

  /** The pair loop and the fill loop of the generator. */
  method PairAndFill(use: seq<Color>, total: nat, picks: seq<nat>) returns (list: seq<Color>)
    requires PicksFit(use, total, picks)
    ensures list == ColorList(use, picks)
  {
    list := [];
    for i := 0 to |use|
      invariant |list| == 2 * i
      invariant forall k :: 0 <= k < |list| ==> list[k] == use[k / 2]
    {
      list := list + [use[i], use[i]];
    }
    var drawn := 0;
    while |list| < total
      invariant |list| == 2 * |use| + drawn <= total
      invariant list == ColorList(use, picks[..drawn])
      decreases total - |list|
    {
      var color := use[picks[drawn]];
      list := list + [color];
      drawn := drawn + 1;
    }
    assert picks[..drawn] == picks;
  }

  // ---------------------------------------------------------------------------
  // Fisher-Yates shuffle
  // ---------------------------------------------------------------------------

  /** Swap draws for a list of length `len`: the k-th iteration swaps position
      len-1-k with a position j <= len-1-k. */
  predicate SwapsFit(len: nat, swaps: seq<nat>)
  {
    |swaps| == (if len == 0 then 0 else len - 1) &&
    forall k :: 0 <= k < |swaps| ==> swaps[k] <= len - 1 - k
  }

  /** The list after the first `steps` iterations of the shuffle loop. */
  function ShuffleSteps(s: seq<Color>, swaps: seq<nat>, steps: nat): (r: seq<Color>)
    requires SwapsFit(|s|, swaps) && steps <= |swaps|
    ensures |r| == |s|
  {
    if steps == 0 then s
    else
      var t := ShuffleSteps(s, swaps, steps - 1);
      var i, j := |s| - steps, swaps[steps - 1];
      t[i := t[j]][j := t[i]]
  }

  function Shuffled(s: seq<Color>, swaps: seq<nat>): seq<Color>
    requires SwapsFit(|s|, swaps)
  {
    ShuffleSteps(s, swaps, |swaps|)
  }

  /** Swapping two entries keeps the multiset of the list. */
  lemma SwapPermutes(t: seq<Color>, i: nat, j: nat)
    requires i < |t| && j < |t|
    ensures multiset(t[i := t[j]][j := t[i]]) == multiset(t)
  {
  }

  /** Every prefix of the shuffle only permutes the list. */
  lemma {:induction false} ShufflePermutes(s: seq<Color>, swaps: seq<nat>, steps: nat)
    requires SwapsFit(|s|, swaps) && steps <= |swaps|
    ensures multiset(ShuffleSteps(s, swaps, steps)) == multiset(s)
  {
    if steps > 0 {
      ShufflePermutes(s, swaps, steps - 1);
      SwapPermutes(ShuffleSteps(s, swaps, steps - 1), |s| - steps, swaps[steps - 1]);
    }
  }

  /** The in-place shuffle loop of the generator. */
  method Shuffle(a: array<Color>, swaps: seq<nat>)
    requires SwapsFit(a.Length, swaps)
    modifies a
    ensures a[..] == Shuffled(old(a[..]), swaps)
    ensures multiset(a[..]) == multiset(old(a[..]))
  {
    var i := a.Length - 1;
    while i > 0
      invariant -1 <= i < a.Length
      invariant a.Length > 0 ==> 0 <= i
      invariant a[..] == ShuffleSteps(old(a[..]), swaps, a.Length - 1 - i)
    {
      var j := swaps[a.Length - 1 - i];
      a[i], a[j] := a[j], a[i];
      i := i - 1;
    }
    ShufflePermutes(old(a[..]), swaps, |swaps|);
  }

  // ---------------------------------------------------------------------------
  // The whole generator
  // ---------------------------------------------------------------------------

  /** Admissible random draws for generating the board of `level`. */
  predicate Choices(level: int, picks: seq<nat>, swaps: seq<nat>)
  {
    var n := GridSize(level);
    PicksFit(ColorsToUse(n), n * n, picks) && SwapsFit(n * n, swaps)
  }

  /** The board that the generator lays out for `level` and the given draws. */
  function Generated(level: int, picks: seq<nat>, swaps: seq<nat>): seq<Dot>
    requires Choices(level, picks, swaps)
  {
    var n := GridSize(level);
    ColorListShape(ColorsToUse(n), n * n, picks);
    Layout(n, Shuffled(ColorList(ColorsToUse(n), picks), swaps))
  }

  /** The nested row/column placement loop of the generator. */
  method PlaceDots(n: nat, colors: seq<Color>) returns (dots: seq<Dot>)
    ensures dots == Layout(n, colors)
  {
    dots := [];
    var colorIndex := 0;
    var row := 0;
    while row < n
      invariant 0 <= row <= n
      invariant colorIndex == |dots| == Min(row * n, |colors|)
      invariant forall k :: 0 <= k < |dots| ==> dots[k] == CellDot(RowOf(n, k), ColOf(n, k), colors[k])
    {
      var col := 0;
      while col < n
        invariant 0 <= col <= n
        invariant colorIndex == |dots| == Min(row * n + col, |colors|)
        invariant forall k :: 0 <= k < |dots| ==> dots[k] == CellDot(RowOf(n, k), ColOf(n, k), colors[k])
      {
        if colorIndex < |colors| {
          DivModCell(n, row, col);
          dots := dots + [CellDot(row, col, colors[colorIndex])];
          colorIndex := colorIndex + 1;
        }
        col := col + 1;
      }
      assert row * n + n == (row + 1) * n;
      row := row + 1;
    }
    assert row * n == n * n;
  }

  /** Board generation on a level change: the colour list, shuffled, laid out. */
  method GenerateDots(level: int, picks: seq<nat>, swaps: seq<nat>) returns (dots: seq<Dot>)
    requires Choices(level, picks, swaps)
    ensures dots == Generated(level, picks, swaps)
    ensures |dots| == GridSize(level) * GridSize(level)
    ensures IdsUnique(dots) && forall k :: 0 <= k < |dots| ==> !dots[k].connected
  {
    var n := GridSize(level);
    var total := n * n;
    var use := ColorsToUse(n);
    var list := PairAndFill(use, total, picks);
    ColorListShape(use, total, picks);
    var a := new Color[|list|](k requires 0 <= k < |list| => list[k]);
    assert a[..] == list;
    Shuffle(a, swaps);
    dots := PlaceDots(n, a[..]);
    GeneratedBoard(level, picks, swaps);
  }

  /** A generated board: n*n fresh dots in row-major order with unique ids, whose
      colours are the colour list permuted, so that every usable colour appears at
      least twice and no other colour appears. */
  lemma GeneratedBoard(level: int, picks: seq<nat>, swaps: seq<nat>)
    requires Choices(level, picks, swaps)
    ensures var n, dots := GridSize(level), Generated(level, picks, swaps);
      && |dots| == n * n
      && IdsUnique(dots)
      && (forall k :: 0 <= k < |dots| ==> dots[k] == CellDot(RowOf(n, k), ColOf(n, k), dots[k].color))
      && multiset(Colors(dots)) == multiset(ColorList(ColorsToUse(n), picks))
      && (forall c :: c in ColorsToUse(n) ==> multiset(Colors(dots))[c] >= 2)
      && (forall k :: 0 <= k < |dots| ==> dots[k].color in ColorsToUse(n))
  {
    var n := GridSize(level);
    var use := ColorsToUse(n);
    ColorListShape(use, n * n, picks);
    var list := ColorList(use, picks);
    var shuffled := Shuffled(list, swaps);
    ShufflePermutes(list, swaps, |swaps|);
    var dots := Generated(level, picks, swaps);
    LayoutIdsUnique(n, shuffled);
    assert Colors(dots) == shuffled;
    forall k | 0 <= k < |dots|
      ensures dots[k].color in use
    {
      assert dots[k].color == shuffled[k];
      assert shuffled[k] in multiset(list);
    }
  }
}
