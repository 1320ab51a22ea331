/**
 * The 2048 merge-grid kernel: one row is compacted and merged to the left,
 * every direction is reduced to "left" by rotating the grid, a move runs all
 * rows, spawns a tile and adds to the score, and a full grid without equal
 * neighbours ends the game.
 *
 * Math.random is replaced by caller-supplied numbers u with 0 <= u < 1.
 */
module Game2048 {

  /** The side length of the board. */
  const Size: nat := 4

  type Grid = seq<seq<int>>

  /** A Size by Size grid, stored row by row. */
  predicate IsGrid(g: Grid)
  {
    |g| == Size && forall i :: 0 <= i < |g| ==> |g[i]| == Size
  }

  /** The direction of a move; any other name falls to the default branch. */
  datatype Direction = Left | Right | Up | Down | Other(name: string)

  // ---------------------------------------------------------------------
  // Rows
  // ---------------------------------------------------------------------

  function Sum(s: seq<int>): int
  {
    if s == [] then 0 else s[0] + Sum(s[1..])
  }

  lemma {:induction false} SumAppend(a: seq<int>, b: seq<int>)
    ensures Sum(a + b) == Sum(a) + Sum(b)
  {
    if a == [] {
      assert a + b == b;
    } else {
      assert (a + b)[1..] == a[1..] + b;
      SumAppend(a[1..], b);
    }
  }

  /** The non-zero entries of a row, in their order. */
  function NonZero(row: seq<int>): (r: seq<int>)
    ensures |r| <= |row|
    ensures forall k :: 0 <= k < |r| ==> r[k] != 0
  {
    if row == [] then [] else (if row[0] != 0 then [row[0]] else []) + NonZero(row[1..])
  }

  lemma {:induction false} NonZeroAppend(a: seq<int>, b: seq<int>)
    ensures NonZero(a + b) == NonZero(a) + NonZero(b)
  {
    if a == [] {
      assert a + b == b;
    } else {
      assert (a + b)[1..] == a[1..] + b;
      NonZeroAppend(a[1..], b);
    }
  }

  /** A row without zeros is its own compaction. */
  lemma {:induction false} NonZeroOfCompact(s: seq<int>)
    requires forall k :: 0 <= k < |s| ==> s[k] != 0
    ensures NonZero(s) == s
  {
    if s != [] {
      NonZeroOfCompact(s[1..]);
    }
  }

  lemma {:induction false} NonZeroSum(s: seq<int>)
    ensures Sum(NonZero(s)) == Sum(s)
  {
    if s != [] {
      NonZeroSum(s[1..]);
      SumAppend(if s[0] != 0 then [s[0]] else [], NonZero(s[1..]));
    }
  }

  /**
   * The merge rule on a compacted row, scanning from the left: two equal
   * neighbours become one tile of twice the value, and that tile takes no
   * further part in the pass.
   */
  function Slide(xs: seq<int>): (r: seq<int>)
    ensures |r| <= |xs|
  {
    if |xs| < 2 then xs
    else if xs[0] == xs[1] then [2 * xs[0]] + Slide(xs[2..])
    else [xs[0]] + Slide(xs[1..])
  }

  /** The points one pass of Slide earns: the value of every tile a merge produces. */
  function SlideScore(xs: seq<int>): int
  {
    if |xs| < 2 then 0
    else if xs[0] == xs[1] then 2 * xs[0] + SlideScore(xs[2..])
    else SlideScore(xs[1..])
  }

  /** Appends zeros until the row has n entries. */
  function Pad(xs: seq<int>, n: nat): (r: seq<int>)
    ensures |r| == if |xs| < n then n else |xs|
    ensures r[..|xs|] == xs
    ensures forall k :: |xs| <= k < |r| ==> r[k] == 0
    decreases n - |xs|
  {
    if |xs| < n then Pad(xs + [0], n) else xs
  }

  /** The row that mergeRow returns for `row`. */
  function Merged(row: seq<int>): (r: seq<int>)
    ensures |row| <= Size ==> |r| == Size
  {
    Pad(Slide(NonZero(row)), Size)
  }

  /** The score that mergeRow returns for `row`. */
  function MergeScore(row: seq<int>): int
  {
    SlideScore(NonZero(row))
  }

  /**
   * mergeRow: drop the zeros, merge equal neighbours left to right in place
   * (the left one doubles, the right one becomes 0), drop the zeros again and
   * pad with zeros to Size.
   */
  method MergeRow(row: seq<int>) returns (merged: seq<int>, score: int)
    ensures merged == Merged(row)
    ensures score == MergeScore(row)
  {
    var arr := NonZero(row);
    ghost var orig := arr;
    NonZeroOfCompact(orig);
    score := 0;
    var i := 0;
    assert arr[..0] == [] && arr[0..] == arr;
    while i < |arr| - 1
      invariant PassInvariant(arr, orig, i, score)
    {
      MergeStepKeeps(arr, orig, i, score);
      if arr[i] == arr[i + 1] {
        arr := arr[i := arr[i] * 2];
        score := score + arr[i];
        arr := arr[i + 1 := 0];
      }
      i := i + 1;
    }
    MergeLoopDone(arr, i);
    arr := NonZero(arr);
    assert arr == Slide(orig);
    while |arr| < Size
      invariant Pad(arr, Size) == Pad(Slide(orig), Size)
      decreases Size - |arr|
    {
      arr := arr + [0];
    }
    merged := arr;
  }

  /**
   * What mergeRow's loop keeps: `orig` is the compacted row, entries after i
   * are untouched, entry i is untouched or a cleared right half of a merge,
   * and the part done plus the merge of the rest gives the reference result.
   */
  predicate PassInvariant(arr: seq<int>, orig: seq<int>, i: int, score: int)
  {
    && 0 <= i <= |arr| && |arr| == |orig|
    && (forall k :: 0 <= k < |orig| ==> orig[k] != 0)
    && (forall k :: i < k < |arr| ==> arr[k] == orig[k])
    && (i < |arr| ==> arr[i] == orig[i] || arr[i] == 0)
    && NonZero(arr[..i]) + Slide(NonZero(arr[i..])) == Slide(orig)
    && score + SlideScore(NonZero(arr[i..])) == SlideScore(orig)
  }

  /** One pass of mergeRow's loop keeps PassInvariant. */
  lemma {:induction false} MergeStepKeeps(arr: seq<int>, orig: seq<int>, i: int, score: int)
    requires PassInvariant(arr, orig, i, score) && i < |arr| - 1
    ensures arr[i] == arr[i + 1] ==>
      PassInvariant(arr[i := arr[i] * 2][i + 1 := 0], orig, i + 1, score + arr[i] * 2)
    ensures arr[i] != arr[i + 1] ==> PassInvariant(arr, orig, i + 1, score)
  {
    var p, h, t := arr[..i], arr[i], arr[i + 1..];
    assert arr[i..] == [h] + t;
    assert t == orig[i + 1..];
    if h == t[0] {
      MergeStepEqual(p, h, t);
      MergeScoreStepEqual(h, t);
      var arr' := arr[i := arr[i] * 2][i + 1 := 0];
      assert arr'[..i + 1] == p + [2 * h];
      assert arr'[i + 1..] == [0] + t[1..];
    } else {
      MergeStepOther(p, h, t);
      assert arr[..i + 1] == p + [h];
    }
  }

  /** Compacting a row with a non-zero entry appended. */
  lemma NonZeroSnoc(p: seq<int>, x: int)
    requires x != 0
    ensures NonZero(p + [x]) == NonZero(p) + [x]
  {
    NonZeroAppend(p, [x]);
    assert NonZero([x]) == [x] by { assert [x][1..] == []; }
  }

  /** Compacting a row that starts with an empty cell. */
  lemma NonZeroZeroCons(w: seq<int>)
    ensures NonZero([0] + w) == NonZero(w)
  {
    assert ([0] + w)[1..] == w;
  }

  /** One step of mergeRow's loop when the current entry equals the next one: the rows agree. */
  lemma {:induction false} MergeStepEqual(p: seq<int>, h: int, t: seq<int>)
    requires |t| >= 1 && h == t[0]
    requires forall k :: 0 <= k < |t| ==> t[k] != 0
    ensures NonZero(p + [2 * h]) + Slide(NonZero([0] + t[1..])) == NonZero(p) + Slide(NonZero([h] + t))
  {
    var w := t[1..];
    var merged := [2 * h] + Slide(w);
    assert Slide(NonZero([h] + t)) == merged by {
      SlideEqualPair(h, t);
    }
    assert NonZero(p + [2 * h]) == NonZero(p) + [2 * h] by {
      NonZeroSnoc(p, 2 * h);
    }
    assert NonZero([0] + w) == w by {
      NonZeroZeroCons(w);
      NonZeroOfCompact(w);
    }
    assert (NonZero(p) + [2 * h]) + Slide(w) == NonZero(p) + merged;
  }

  /** One step of mergeRow's loop when the current entry equals the next one: the scores agree. */
  lemma {:induction false} MergeScoreStepEqual(h: int, t: seq<int>)
    requires |t| >= 1 && h == t[0]
    requires forall k :: 0 <= k < |t| ==> t[k] != 0
    ensures SlideScore(NonZero([h] + t)) == 2 * h + SlideScore(NonZero([0] + t[1..]))
  {
    var w := t[1..];
    SlideEqualPair(h, t);
    NonZeroZeroCons(w);
    NonZeroOfCompact(w);
  }

  /** A compacted row that starts with two equal tiles: they merge and the rest slides on. */
  lemma {:induction false} SlideEqualPair(h: int, t: seq<int>)
    requires |t| >= 1 && h == t[0]
    requires forall k :: 0 <= k < |t| ==> t[k] != 0
    ensures Slide(NonZero([h] + t)) == [2 * h] + Slide(t[1..])
    ensures SlideScore(NonZero([h] + t)) == 2 * h + SlideScore(t[1..])
  {
    var u := [h] + t;
    NonZeroOfCompact(u);
    assert u[2..] == t[1..];
  }

  /** One step of mergeRow's loop when the current entry differs from the next one. */
  lemma {:induction false} MergeStepOther(p: seq<int>, h: int, t: seq<int>)
    requires |t| >= 1 && h != t[0]
    requires forall k :: 0 <= k < |t| ==> t[k] != 0
    ensures NonZero(p + [h]) + Slide(NonZero(t)) == NonZero(p) + Slide(NonZero([h] + t))
    ensures SlideScore(NonZero([h] + t)) == SlideScore(NonZero(t))
  {
    NonZeroOfCompact(t);
    NonZeroAppend(p, [h]);
    NonZeroAppend([h], t);
    assert [h][1..] == [];
    if h != 0 {
      var u := [h] + t;
      assert NonZero(u) == u;
      assert u[1..] == t;
      assert Slide(u) == [h] + Slide(t);
    } else {
      assert NonZero([h]) == [];
      assert NonZero([h] + t) == t;
      assert NonZero(p + [h]) == NonZero(p);
    }
  }

  /** When mergeRow's loop stops, at most one entry is left to look at. */
  lemma {:induction false} MergeLoopDone(arr: seq<int>, i: nat)
    requires i <= |arr| && i >= |arr| - 1
    ensures NonZero(arr[..i]) + Slide(NonZero(arr[i..])) == NonZero(arr)
    ensures SlideScore(NonZero(arr[i..])) == 0
  {
    assert arr == arr[..i] + arr[i..];
    NonZeroAppend(arr[..i], arr[i..]);
  }

  // --- properties of one row ---

  lemma {:induction false} SlideCompact(xs: seq<int>)
    requires forall k :: 0 <= k < |xs| ==> xs[k] != 0
    ensures forall k :: 0 <= k < |Slide(xs)| ==> Slide(xs)[k] != 0
  {
    if |xs| >= 2 {
      if xs[0] == xs[1] {
        SlideCompact(xs[2..]);
      } else {
        SlideCompact(xs[1..]);
      }
    }
  }

  lemma {:induction false} SlideSum(xs: seq<int>)
    ensures Sum(Slide(xs)) == Sum(xs)
  {
    if |xs| >= 2 {
      assert xs[1..][1..] == xs[2..];
      if xs[0] == xs[1] {
        SlideSum(xs[2..]);
        SumAppend([2 * xs[0]], Slide(xs[2..]));
      } else {
        SlideSum(xs[1..]);
        SumAppend([xs[0]], Slide(xs[1..]));
      }
    }
  }

  lemma {:induction false} PadSum(xs: seq<int>, n: nat)
    ensures Sum(Pad(xs, n)) == Sum(xs)
    decreases n - |xs|
  {
    if |xs| < n {
      SumAppend(xs, [0]);
      PadSum(xs + [0], n);
    }
  }

  /** A merged row of length Size keeps every non-zero entry before every zero. */
  lemma MergedIsCompacted(row: seq<int>)
    requires |row| == Size
    ensures |Merged(row)| == Size
    ensures forall i, j :: 0 <= i < j < Size && Merged(row)[i] == 0 ==> Merged(row)[j] == 0
  {
    var s := Slide(NonZero(row));
    SlideCompact(NonZero(row));
  }

  /** Merging neither creates nor destroys value: the row's sum is kept. */
  lemma MergedKeepsSum(row: seq<int>)
    ensures Sum(Merged(row)) == Sum(row)
  {
    NonZeroSum(row);
    SlideSum(NonZero(row));
    PadSum(Slide(NonZero(row)), Size);
  }

  /**
   * For positive tiles the score lies between 0 and the row's sum, so no
   * value is counted twice (a tile produced by a merge does not merge again),
   * and it is 0 exactly when the pass merges nothing.
   */
  lemma {:induction false} SlideScoreBounds(xs: seq<int>)
    requires forall k :: 0 <= k < |xs| ==> xs[k] > 0
    ensures 0 <= SlideScore(xs) <= Sum(xs)
    ensures SlideScore(xs) == 0 <==> Slide(xs) == xs
  {
    if |xs| >= 2 {
      assert xs[1..][1..] == xs[2..];
      if xs[0] == xs[1] {
        SlideScoreBounds(xs[2..]);
        assert |Slide(xs)| < |xs|;
      } else {
        SlideScoreBounds(xs[1..]);
        assert xs == [xs[0]] + xs[1..];
      }
    }
  }

  /** Four equal tiles make two merges, not a chain: [2, 2, 2, 2] gives [4, 4, 0, 0] and 8 points. */
  lemma MergeExampleFourEqual()
    ensures Merged([2, 2, 2, 2]) == [4, 4, 0, 0] && MergeScore([2, 2, 2, 2]) == 8
  {
  }

  /** A merged tile is not merged again: [2, 2, 4, 0] gives [4, 4, 0, 0] and 4 points. */
  lemma MergeExampleNoChain()
    ensures Merged([2, 2, 4, 0]) == [4, 4, 0, 0] && MergeScore([2, 2, 4, 0]) == 4
  {
  }

  /** One pair: [2, 2, 0, 0] gives [4, 0, 0, 0] and 4 points. */
  lemma MergeExamplePair()
    ensures Merged([2, 2, 0, 0]) == [4, 0, 0, 0] && MergeScore([2, 2, 0, 0]) == 4
  {
  }

  /** arraysEqual: every entry of `a` equals the entry of `b` at the same index. */
  function ArraysEqual(a: seq<int>, b: seq<int>): (r: bool)
    ensures |a| == |b| ==> (r <==> a == b)
  {
    forall i :: 0 <= i < |a| ==> i < |b| && a[i] == b[i]
  }

  // ---------------------------------------------------------------------
  // Rotations
  // ---------------------------------------------------------------------

  /** `[...r].reverse()` */
  function Reverse(s: seq<int>): (r: seq<int>)
    ensures |r| == |s|
    ensures forall k :: 0 <= k < |s| ==> r[k] == s[|s| - 1 - k]
  {
    if s == [] then [] else Reverse(s[1..]) + [s[0]]
  }

  /** `grid.map((r) => [...r].reverse())` */
  function ReverseRows(g: Grid): (r: Grid)
    ensures |r| == |g|
    ensures forall i :: 0 <= i < |g| ==> r[i] == Reverse(g[i])
  {
    seq(|g|, i requires 0 <= i < |g| => Reverse(g[i]))
  }

  /** transpose: column i of `g` becomes row i. */
  function Transpose(g: Grid): (t: Grid)
    requires IsGrid(g)
    ensures IsGrid(t)
    ensures forall i, j :: 0 <= i < Size && 0 <= j < Size ==> t[i][j] == g[j][i]
  {
    seq(Size, i requires 0 <= i < Size => seq(Size, j requires 0 <= j < Size => g[j][i]))
  }

  /** rotate: turns the grid so that the move in direction `d` becomes a move to the left. */
  function Rotate(g: Grid, d: Direction): (r: Grid)
    requires IsGrid(g)
    ensures IsGrid(r)
  {
    match d
    case Left => g
    case Right => ReverseRows(g)
    case Up => Transpose(g)
    case Down => ReverseRows(Transpose(g))
    case Other(_) => g
  }

  /** rotateBack: turns a grid produced in rotated position back. */
  function RotateBack(g: Grid, d: Direction): (r: Grid)
    requires IsGrid(g)
    ensures IsGrid(r)
  {
    match d
    case Left => g
    case Right => ReverseRows(g)
    case Up => Transpose(g)
    case Down => Transpose(ReverseRows(g))
    case Other(_) => g
  }

  lemma ReverseRowsTwice(g: Grid)
    requires IsGrid(g)
    ensures ReverseRows(ReverseRows(g)) == g
  {
    var r := ReverseRows(ReverseRows(g));
    forall i | 0 <= i < Size
      ensures r[i] == g[i]
    {
      assert Reverse(Reverse(g[i])) == g[i];
    }
  }

  lemma TransposeTwice(g: Grid)
    requires IsGrid(g)
    ensures Transpose(Transpose(g)) == g
  {
    var t := Transpose(Transpose(g));
    forall i | 0 <= i < Size
      ensures t[i] == g[i]
    {
      assert forall j :: 0 <= j < Size ==> t[i][j] == g[i][j];
    }
  }

  /** Rotating back undoes the rotation, for every direction. */
  lemma RotateRoundTrip(g: Grid, d: Direction)
    requires IsGrid(g)
    ensures RotateBack(Rotate(g, d), d) == g
  {
    match d
    case Left =>
    case Right => ReverseRowsTwice(g);
    case Up => TransposeTwice(g);
    case Down =>
      ReverseRowsTwice(Transpose(g));
      TransposeTwice(g);
    case Other(_) =>
  }

  /** Rotating undoes rotating back, so RotateBack is one-to-one. */
  lemma RotateBackRoundTrip(g: Grid, d: Direction)
    requires IsGrid(g)
    ensures Rotate(RotateBack(g, d), d) == g
  {
    match d
    case Left =>
    case Right => ReverseRowsTwice(g);
    case Up => TransposeTwice(g);
    case Down =>
      TransposeTwice(ReverseRows(g));
      ReverseRowsTwice(g);
    case Other(_) =>
  }

  // ---------------------------------------------------------------------
  // Whole-grid move
  // ---------------------------------------------------------------------

  /** Every row merged: `rotated.map((row) => mergeRow(row).row)`. */
  function SlideGrid(g: Grid): (r: Grid)
    ensures |r| == |g|
    ensures forall i :: 0 <= i < |g| ==> r[i] == Merged(g[i])
    ensures IsGrid(g) ==> IsGrid(r)
  {
    seq(|g|, i requires 0 <= i < |g| => Merged(g[i]))
  }

  /** The score of merging every row of `rows`, accumulated from the first row on. */
  function RowsGain(rows: Grid): int
  {
    if rows == [] then 0 else RowsGain(rows[..|rows| - 1]) + MergeScore(rows[|rows| - 1])
  }

  /** The grid a move in direction `d` produces before a tile is spawned. */
  function MoveGrid(g: Grid, d: Direction): (r: Grid)
    requires IsGrid(g)
    ensures IsGrid(r)
  {
    RotateBack(SlideGrid(Rotate(g, d)), d)
  }

  /** The source's `moved` flag: some rotated row changed when merged. */
  predicate Moves(g: Grid, d: Direction)
    requires IsGrid(g)
  {
    SlideGrid(Rotate(g, d)) != Rotate(g, d)
  }

  /** The points a move in direction `d` gains. */
  function Gain(g: Grid, d: Direction): int
    requires IsGrid(g)
  {
    RowsGain(Rotate(g, d))
  }

  /** The `moved` flag is set exactly when the move changes the grid. */
  lemma MovesIffChanged(g: Grid, d: Direction)
    requires IsGrid(g)
    ensures Moves(g, d) <==> MoveGrid(g, d) != g
  {
    RotateRoundTrip(g, d);
    RotateBackRoundTrip(SlideGrid(Rotate(g, d)), d);
  }

  /** An unrecognised direction is handled exactly like "left". */
  lemma OtherDirectionIsLeft(g: Grid, name: string)
    requires IsGrid(g)
    ensures Rotate(g, Other(name)) == g && RotateBack(g, Other(name)) == g
    ensures MoveGrid(g, Other(name)) == MoveGrid(g, Left)
    ensures Moves(g, Other(name)) == Moves(g, Left) && Gain(g, Other(name)) == Gain(g, Left)
  {
  }

  // --- the sum of a grid ---

  function GridSum(g: Grid): int
  {
    if g == [] then 0 else Sum(g[0]) + GridSum(g[1..])
  }

  lemma SumOfFour(s: seq<int>)
    requires |s| == Size
    ensures Sum(s) == s[0] + s[1] + s[2] + s[3]
  {
    assert Sum(s[3..]) == s[3] by { assert s[3..][1..] == []; }
    assert Sum(s[2..]) == s[2] + Sum(s[3..]) by { assert s[2..][1..] == s[3..]; }
    assert Sum(s[1..]) == s[1] + Sum(s[2..]) by { assert s[1..][1..] == s[2..]; }
  }

  /** The grid sum spelled out cell by cell. */
  lemma GridSumCells(g: Grid)
    requires IsGrid(g)
    ensures GridSum(g) == Sum(g[0]) + Sum(g[1]) + Sum(g[2]) + Sum(g[3])
  {
    assert GridSum(g[3..]) == Sum(g[3]) by { assert g[3..][1..] == []; }
    assert GridSum(g[2..]) == Sum(g[2]) + GridSum(g[3..]) by { assert g[2..][1..] == g[3..]; }
    assert GridSum(g[1..]) == Sum(g[1]) + GridSum(g[2..]) by { assert g[1..][1..] == g[2..]; }
  }

  lemma GridSumCellByCell(g: Grid)
    requires IsGrid(g)
    ensures GridSum(g) ==
      g[0][0] + g[0][1] + g[0][2] + g[0][3] +
      g[1][0] + g[1][1] + g[1][2] + g[1][3] +
      g[2][0] + g[2][1] + g[2][2] + g[2][3] +
      g[3][0] + g[3][1] + g[3][2] + g[3][3]
  {
    GridSumCells(g);
    SumOfFour(g[0]);
    SumOfFour(g[1]);
    SumOfFour(g[2]);
    SumOfFour(g[3]);
  }

  lemma TransposeKeepsSum(g: Grid)
    requires IsGrid(g)
    ensures GridSum(Transpose(g)) == GridSum(g)
  {
    GridSumCellByCell(g);
    GridSumCellByCell(Transpose(g));
  }

  lemma ReverseRowsKeepsSum(g: Grid)
    requires IsGrid(g)
    ensures GridSum(ReverseRows(g)) == GridSum(g)
  {
    GridSumCellByCell(g);
    GridSumCellByCell(ReverseRows(g));
  }

  lemma RotateKeepsSum(g: Grid, d: Direction)
    requires IsGrid(g)
    ensures GridSum(Rotate(g, d)) == GridSum(g)
    ensures GridSum(RotateBack(g, d)) == GridSum(g)
  {
    match d
    case Right => ReverseRowsKeepsSum(g);
    case Up => TransposeKeepsSum(g);
    case Down =>
      TransposeKeepsSum(g);
      ReverseRowsKeepsSum(Transpose(g));
      ReverseRowsKeepsSum(g);
      TransposeKeepsSum(ReverseRows(g));
    case _ =>
  }

  lemma {:induction false} SlideGridKeepsSum(g: Grid)
    ensures GridSum(SlideGrid(g)) == GridSum(g)
  {
    if g != [] {
      assert SlideGrid(g)[1..] == SlideGrid(g[1..]);
      MergedKeepsSum(g[0]);
      SlideGridKeepsSum(g[1..]);
    }
  }

  /** Before the spawn, a move keeps the total of all tiles. */
  lemma MoveKeepsSum(g: Grid, d: Direction)
    requires IsGrid(g)
    ensures GridSum(MoveGrid(g, d)) == GridSum(g)
  {
    RotateKeepsSum(g, d);
    SlideGridKeepsSum(Rotate(g, d));
    RotateKeepsSum(SlideGrid(Rotate(g, d)), d);
  }

  // --- tiles are powers of two ---

  predicate IsPowerOfTwo(v: int)
    decreases if v < 0 then 0 else v
  {
    v == 1 || (v >= 2 && v % 2 == 0 && IsPowerOfTwo(v / 2))
  }

  /** A tile value: a power of two, at least 2. */
  predicate IsTile(v: int)
  {
    v >= 2 && IsPowerOfTwo(v)
  }

  /** Every cell is empty (0) or holds a tile. */
  predicate AllTiles(g: Grid)
    requires IsGrid(g)
  {
    forall i, j :: 0 <= i < Size && 0 <= j < Size ==> g[i][j] == 0 || IsTile(g[i][j])
  }

  lemma {:induction false} SlideKeepsTiles(xs: seq<int>)
    requires forall k :: 0 <= k < |xs| ==> IsTile(xs[k])
    ensures forall k :: 0 <= k < |Slide(xs)| ==> IsTile(Slide(xs)[k])
  {
    if |xs| >= 2 {
      if xs[0] == xs[1] {
        assert (2 * xs[0]) / 2 == xs[0];
        SlideKeepsTiles(xs[2..]);
      } else {
        SlideKeepsTiles(xs[1..]);
      }
    }
  }

  lemma {:induction false} NonZeroKeepsTiles(row: seq<int>)
    requires forall k :: 0 <= k < |row| ==> row[k] == 0 || IsTile(row[k])
    ensures forall k :: 0 <= k < |NonZero(row)| ==> IsTile(NonZero(row)[k])
  {
    if row != [] {
      NonZeroKeepsTiles(row[1..]);
    }
  }

  lemma MergedKeepsTiles(row: seq<int>)
    requires forall k :: 0 <= k < |row| ==> row[k] == 0 || IsTile(row[k])
    ensures forall k :: 0 <= k < |Merged(row)| ==> Merged(row)[k] == 0 || IsTile(Merged(row)[k])
  {
    NonZeroKeepsTiles(row);
    SlideKeepsTiles(NonZero(row));
    var s := Slide(NonZero(row));
    forall k | 0 <= k < |Merged(row)|
      ensures Merged(row)[k] == 0 || IsTile(Merged(row)[k])
    {
      if k < |s| {
        assert Merged(row)[..|s|][k] == s[k];
      }
    }
  }

  lemma TransposeKeepsTiles(g: Grid)
    requires IsGrid(g) && AllTiles(g)
    ensures AllTiles(Transpose(g))
  {
  }

  lemma ReverseRowsKeepsTiles(g: Grid)
    requires IsGrid(g) && AllTiles(g)
    ensures AllTiles(ReverseRows(g))
  {
  }

  lemma RotateKeepsTiles(g: Grid, d: Direction)
    requires IsGrid(g) && AllTiles(g)
    ensures AllTiles(Rotate(g, d)) && AllTiles(RotateBack(g, d))
  {
    match d
    case Right => ReverseRowsKeepsTiles(g);
    case Up => TransposeKeepsTiles(g);
    case Down =>
      TransposeKeepsTiles(g);
      ReverseRowsKeepsTiles(Transpose(g));
      ReverseRowsKeepsTiles(g);
      TransposeKeepsTiles(ReverseRows(g));
    case _ =>
  }

  /** A move keeps every cell empty or a power of two at least 2. */
  lemma MoveKeepsTiles(g: Grid, d: Direction)
    requires IsGrid(g) && AllTiles(g)
    ensures AllTiles(MoveGrid(g, d))
  {
    var r := Rotate(g, d);
    RotateKeepsTiles(g, d);
    forall i | 0 <= i < Size
      ensures forall j :: 0 <= j < Size ==> SlideGrid(r)[i][j] == 0 || IsTile(SlideGrid(r)[i][j])
    {
      MergedKeepsTiles(r[i]);
    }
    RotateKeepsTiles(SlideGrid(r), d);
  }

  lemma {:induction false} RowsGainNonNegative(rows: Grid)
    requires forall i, j :: 0 <= i < |rows| && 0 <= j < |rows[i]| ==> rows[i][j] == 0 || IsTile(rows[i][j])
    ensures RowsGain(rows) >= 0
  {
    if rows != [] {
      var last := rows[|rows| - 1];
      RowsGainNonNegative(rows[..|rows| - 1]);
      NonZeroKeepsTiles(last);
      SlideScoreBounds(NonZero(last));
    }
  }

  /** On a grid of tiles a move never loses points. */
  lemma GainNonNegative(g: Grid, d: Direction)
    requires IsGrid(g) && AllTiles(g)
    ensures Gain(g, d) >= 0
  {
    RotateKeepsTiles(g, d);
    RowsGainNonNegative(Rotate(g, d));
  }

  // ---------------------------------------------------------------------
  // The end of the game
  // ---------------------------------------------------------------------

  /** No cell is empty and no two horizontally or vertically adjacent cells are equal. */
  predicate IsTerminal(g: Grid)
    requires IsGrid(g)
  {
    && (forall i, j :: 0 <= i < Size && 0 <= j < Size ==> g[i][j] != 0)
    && (forall i, j :: 0 <= i < Size && 0 <= j < Size - 1 ==> g[i][j] != g[i][j + 1])
    && (forall i :: 0 <= i < Size - 1 ==> NoEqualBelow(g[i], g[i + 1]))
  }

  /** No cell of `above` equals the cell right below it in `below`. */
  predicate NoEqualBelow(above: seq<int>, below: seq<int>)
    requires |above| == Size && |below| == Size
  {
    forall j :: 0 <= j < Size ==> above[j] != below[j]
  }

  /** What isGameOver checks at cell (r, c). */
  predicate Settled(g: Grid, r: int, c: int)
    requires IsGrid(g) && 0 <= r < Size && 0 <= c < Size
  {
    && g[r][c] != 0
    && (c + 1 < Size ==> g[r][c] != g[r][c + 1])
    && (r + 1 < Size ==> g[r][c] != g[r + 1][c])
  }

  /** isGameOver: scans every cell, stopping at the first empty cell or equal right or lower neighbour. */
  method IsGameOver(g: Grid) returns (over: bool)
    requires IsGrid(g)
    ensures over <==> IsTerminal(g)
  {
    for r := 0 to Size
      invariant forall r', c' :: 0 <= r' < r && 0 <= c' < Size ==> Settled(g, r', c')
    {
      for c := 0 to Size
        invariant forall r', c' :: 0 <= r' < r && 0 <= c' < Size ==> Settled(g, r', c')
        invariant forall c' :: 0 <= c' < c ==> Settled(g, r, c')
      {
        if g[r][c] == 0 {
          return false;
        }
        if c + 1 < Size && g[r][c] == g[r][c + 1] {
          return false;
        }
        if r + 1 < Size && g[r][c] == g[r + 1][c] {
          return false;
        }
      }
    }
    forall i, j | 0 <= i < Size && 0 <= j < Size
      ensures g[i][j] != 0
      ensures j < Size - 1 ==> g[i][j] != g[i][j + 1]
      ensures i < Size - 1 ==> g[i][j] != g[i + 1][j]
    {
      assert Settled(g, i, j);
    }
    assert forall i :: 0 <= i < Size - 1 ==> NoEqualBelow(g[i], g[i + 1]);
    return true;
  }

  /** Every rotated row is full and free of equal neighbours. */
  predicate RowsSettled(g: Grid)
    requires IsGrid(g)
  {
    && (forall i, j :: 0 <= i < Size && 0 <= j < Size ==> g[i][j] != 0)
    && (forall i, j :: 0 <= i < Size && 0 <= j < Size - 1 ==> g[i][j] != g[i][j + 1])
  }

  lemma {:induction false} SlideOfSettled(xs: seq<int>)
    requires forall k :: 0 <= k < |xs| - 1 ==> xs[k] != xs[k + 1]
    ensures Slide(xs) == xs
  {
    if |xs| >= 2 {
      SlideOfSettled(xs[1..]);
      assert xs == [xs[0]] + xs[1..];
    }
  }

  lemma TerminalRotatesSettled(g: Grid, d: Direction)
    requires IsGrid(g) && IsTerminal(g)
    ensures RowsSettled(Rotate(g, d))
  {
    var r := Rotate(g, d);
    if d == Down {
      forall i, j | 0 <= i < Size && 0 <= j < Size - 1
        ensures r[i][j] != r[i][j + 1]
      {
        assert r[i][j] == g[Size - 1 - j][i];
        assert r[i][j + 1] == g[Size - 1 - (j + 1)][i];
      }
    }
  }

  /** On a terminal grid no direction moves anything. */
  lemma TerminalIsStuck(g: Grid, d: Direction)
    requires IsGrid(g) && IsTerminal(g)
    ensures !Moves(g, d)
  {
    var r := Rotate(g, d);
    TerminalRotatesSettled(g, d);
    forall i | 0 <= i < Size
      ensures Merged(r[i]) == r[i]
    {
      NonZeroOfCompact(r[i]);
      SlideOfSettled(r[i]);
    }
    assert SlideGrid(r) == r;
  }

  // ---------------------------------------------------------------------
  // Spawning a tile
  // ---------------------------------------------------------------------

  /** `emptyGrid`: a Size by Size grid of zeros. */
  function EmptyGrid(): (g: Grid)
    ensures IsGrid(g)
    ensures forall i, j :: 0 <= i < Size && 0 <= j < Size ==> g[i][j] == 0
  {
    seq(Size, _ => seq(Size, _ => 0))
  }

  /** The empty cells among the first k cells, in row-major order. */
  function EmptyPrefix(g: Grid, k: nat): (cells: seq<(int, int)>)
    requires IsGrid(g) && k <= 16
    ensures |cells| <= k
  {
    if k == 0 then []
    else
      var i, j := (k - 1) / 4, (k - 1) % 4;
      EmptyPrefix(g, k - 1) + (if g[i][j] == 0 then [(i, j)] else [])
  }

  /** The first k cells in row-major order contribute exactly their empty cells. */
  lemma {:induction false} EmptyPrefixSpec(g: Grid, k: nat)
    requires IsGrid(g) && k <= 16
    ensures forall p :: p in EmptyPrefix(g, k) ==>
      0 <= p.0 < Size && 0 <= p.1 < Size && g[p.0][p.1] == 0 && 4 * p.0 + p.1 < k
    ensures forall i, j :: 0 <= i < Size && 0 <= j < Size && 4 * i + j < k && g[i][j] == 0 ==>
      (i, j) in EmptyPrefix(g, k)
  {
    if k > 0 {
      EmptyPrefixSpec(g, k - 1);
      var i, j := (k - 1) / 4, (k - 1) % 4;
      assert 4 * i + j == k - 1;
      forall i', j' | 0 <= i' < Size && 0 <= j' < Size && 4 * i' + j' < k && g[i'][j'] == 0
        ensures (i', j') in EmptyPrefix(g, k)
      {
        if 4 * i' + j' == k - 1 {
          assert i' == i && j' == j;
        }
      }
    }
  }

  /** Scanning cell (i, j) of the row-major order appends it when it is empty. */
  lemma EmptyPrefixStep(g: Grid, i: int, j: int)
    requires IsGrid(g) && 0 <= i < Size && 0 <= j < Size
    ensures EmptyPrefix(g, 4 * i + j + 1) == EmptyPrefix(g, 4 * i + j) + (if g[i][j] == 0 then [(i, j)] else [])
  {
    var k := 4 * i + j + 1;
    assert (k - 1) / 4 == i && (k - 1) % 4 == j;
  }

  /** The list `empty` that addRandom collects: every empty cell, in row-major order. */
  function EmptyCells(g: Grid): (cells: seq<(int, int)>)
    requires IsGrid(g)
    ensures forall p :: p in cells ==> 0 <= p.0 < Size && 0 <= p.1 < Size && g[p.0][p.1] == 0
    ensures forall i, j :: 0 <= i < Size && 0 <= j < Size && g[i][j] == 0 ==> (i, j) in cells
  {
    EmptyPrefixSpec(g, |g| * Size);
    EmptyPrefix(g, |g| * Size)
  }

  /** `Math.floor(u * n)` for a random number u in [0, 1). */
  function PickIndex(u: real, n: nat): (k: nat)
    requires 0.0 <= u < 1.0 && n > 0
    ensures k < n
  {
    var x := u * (n as real);
    assert 0.0 <= x < n as real;
    x.Floor
  }

  /** `Math.random() < 0.9 ? 2 : 4` */
  function SpawnValue(u: real): (v: int)
    ensures v == 2 || v == 4
  {
    if u < 0.9 then 2 else 4
  }

  /** The grid addRandom returns, given the two random numbers it draws. */
  function PlaceTile(g: Grid, uPick: real, uCoin: real): (r: Grid)
    requires IsGrid(g) && 0.0 <= uPick < 1.0
    ensures IsGrid(r)
  {
    var empty := EmptyCells(g);
    if |empty| == 0 then g
    else
      var cell := empty[PickIndex(uPick, |empty|)];
      g[cell.0 := g[cell.0][cell.1 := SpawnValue(uCoin)]]
  }

  /**
   * A grid without a zero is returned unchanged; otherwise exactly one
   * formerly empty cell receives a 2 or a 4 and every other cell is kept.
   */
  lemma PlaceTileSpec(g: Grid, uPick: real, uCoin: real)
    requires IsGrid(g) && 0.0 <= uPick < 1.0
    ensures (forall i, j :: 0 <= i < Size && 0 <= j < Size ==> g[i][j] != 0) ==> PlaceTile(g, uPick, uCoin) == g
    ensures (exists i, j :: 0 <= i < Size && 0 <= j < Size && g[i][j] == 0) ==>
      exists x, y :: 0 <= x < Size && 0 <= y < Size && g[x][y] == 0 && Spawned(g, PlaceTile(g, uPick, uCoin), x, y)
  {
    var empty := EmptyCells(g);
    if |empty| > 0 {
      var cell := empty[PickIndex(uPick, |empty|)];
      assert cell in empty;
      assert Spawned(g, PlaceTile(g, uPick, uCoin), cell.0, cell.1);
    }
  }

  /** `r` is `g` with cell (x, y) set to 2 or 4 and nothing else changed. */
  predicate Spawned(g: Grid, r: Grid, x: int, y: int)
    requires IsGrid(g) && IsGrid(r) && 0 <= x < Size && 0 <= y < Size
  {
    && (r[x][y] == 2 || r[x][y] == 4)
    && forall i, j :: 0 <= i < Size && 0 <= j < Size && (i != x || j != y) ==> r[i][j] == g[i][j]
  }

  /** A spawn keeps every cell empty or a tile. */
  lemma PlaceTileKeepsTiles(g: Grid, uPick: real, uCoin: real)
    requires IsGrid(g) && AllTiles(g) && 0.0 <= uPick < 1.0
    ensures AllTiles(PlaceTile(g, uPick, uCoin))
  {
    PlaceTileSpec(g, uPick, uCoin);
    assert IsPowerOfTwo(1) && IsPowerOfTwo(2) && IsPowerOfTwo(4);
  }

  /** addRandom: collects the empty cells row by row, then writes 2 or 4 into the chosen one. */
  method AddRandom(g: Grid, uPick: real, uCoin: real) returns (r: Grid)
    requires IsGrid(g) && 0.0 <= uPick < 1.0
    ensures r == PlaceTile(g, uPick, uCoin)
  {
    var empty := CollectEmpty(g);
    if |empty| == 0 {
      return g;
    }
    var cell := empty[PickIndex(uPick, |empty|)];
    r := g[cell.0 := g[cell.0][cell.1 := SpawnValue(uCoin)]];
  }

  /** addRandom's scan: the empty cells of `g`, row by row. */
  method CollectEmpty(g: Grid) returns (empty: seq<(int, int)>)
    requires IsGrid(g)
    ensures empty == EmptyCells(g)
  {
    empty := [];
    for i := 0 to Size
      invariant empty == EmptyPrefix(g, 4 * i)
    {
      for j := 0 to Size
        invariant empty == EmptyPrefix(g, 4 * i + j)
      {
        EmptyPrefixStep(g, i, j);
        if g[i][j] == 0 {
          empty := empty + [(i, j)];
        }
        assert empty == EmptyPrefix(g, 4 * i + j + 1);
      }
      assert 4 * i + Size == 4 * (i + 1);
    }
    assert 4 * Size == |g| * Size;
  }

  /** Cells (x1, y1) and (x2, y2) differ and hold a 2 or a 4, and every other cell is empty. */
  predicate TilesAt(g: Grid, x1: int, y1: int, x2: int, y2: int)
    requires IsGrid(g)
  {
    && 0 <= x1 < Size && 0 <= y1 < Size && 0 <= x2 < Size && 0 <= y2 < Size
    && (x1 != x2 || y1 != y2)
    && (g[x1][y1] == 2 || g[x1][y1] == 4) && (g[x2][y2] == 2 || g[x2][y2] == 4)
    && forall i, j :: 0 <= i < Size && 0 <= j < Size && (i != x1 || j != y1) && (i != x2 || j != y2) ==> g[i][j] == 0
  }

  /** Exactly two cells hold a 2 or a 4 and every other cell is empty. */
  ghost predicate TwoTiles(g: Grid)
    requires IsGrid(g)
  {
    exists x1, y1, x2, y2 :: TilesAt(g, x1, y1, x2, y2)
  }

  /** All tiles are 2 or 4: a grid from the start of the game. */
  lemma SmallTiles(g: Grid)
    requires IsGrid(g)
    requires forall i, j :: 0 <= i < Size && 0 <= j < Size ==> g[i][j] in {0, 2, 4}
    ensures AllTiles(g)
  {
    assert IsPowerOfTwo(1) && IsPowerOfTwo(2) && IsPowerOfTwo(4);
  }

  /** The first spawn on an empty grid leaves one tile. */
  lemma {:induction false} FirstSpawn(e: Grid, u1: real, u2: real) returns (x: int, y: int)
    requires IsGrid(e) && (forall i, j :: 0 <= i < Size && 0 <= j < Size ==> e[i][j] == 0) && 0.0 <= u1 < 1.0
    ensures 0 <= x < Size && 0 <= y < Size
    ensures Spawned(e, PlaceTile(e, u1, u2), x, y)
  {
    PlaceTileSpec(e, u1, u2);
    assert e[0][0] == 0;
    x, y :| 0 <= x < Size && 0 <= y < Size && e[x][y] == 0 && Spawned(e, PlaceTile(e, u1, u2), x, y);
  }

  /** Two spawns on distinct cells of an empty grid leave exactly those two tiles. */
  lemma TwoSpawns(e: Grid, g1: Grid, g: Grid, x1: int, y1: int, x2: int, y2: int)
    requires IsGrid(e) && IsGrid(g1) && IsGrid(g)
    requires forall i, j :: 0 <= i < Size && 0 <= j < Size ==> e[i][j] == 0
    requires 0 <= x1 < Size && 0 <= y1 < Size && 0 <= x2 < Size && 0 <= y2 < Size
    requires Spawned(e, g1, x1, y1) && g1[x2][y2] == 0 && Spawned(g1, g, x2, y2)
    ensures TilesAt(g, x1, y1, x2, y2)
  {
    assert (x1 != x2 || y1 != y2) && g[x1][y1] == g1[x1][y1];
  }

  /** The second spawn goes to another cell, so two tiles and fourteen empty cells remain. */
  lemma {:induction false} SecondSpawn(e: Grid, u1: real, u2: real, u3: real, u4: real)
    requires IsGrid(e) && (forall i, j :: 0 <= i < Size && 0 <= j < Size ==> e[i][j] == 0)
    requires 0.0 <= u1 < 1.0 && 0.0 <= u3 < 1.0
    ensures TwoTiles(PlaceTile(PlaceTile(e, u1, u2), u3, u4))
  {
    var g1 := PlaceTile(e, u1, u2);
    var g := PlaceTile(g1, u3, u4);
    var x1, y1 := FirstSpawn(e, u1, u2);
    var y0 := if x1 == 0 && y1 == 0 then 1 else 0;
    assert g1[0][y0] == 0;
    PlaceTileSpec(g1, u3, u4);
    var x2, y2 :| 0 <= x2 < Size && 0 <= y2 < Size && g1[x2][y2] == 0 && Spawned(g1, g, x2, y2);
    TwoSpawns(e, g1, g, x1, y1, x2, y2);
  }

  /** A start grid is not terminal: with two tiles, some cell is empty. */
  lemma {:induction false} StartNotTerminal(g: Grid)
    requires IsGrid(g) && TwoTiles(g)
    ensures AllTiles(g) && !IsTerminal(g)
  {
    var x1, y1, x2, y2 :| TilesAt(g, x1, y1, x2, y2);
    SmallTiles(g);
    var y3 := if (x1, y1) != (0, 0) && (x2, y2) != (0, 0) then 0
              else if (x1, y1) != (0, 1) && (x2, y2) != (0, 1) then 1 else 2;
    assert g[0][y3] == 0;
  }

  /** createStartGrid: an empty grid with two random tiles. */
  method CreateStartGrid(u1: real, u2: real, u3: real, u4: real) returns (g: Grid)
    requires 0.0 <= u1 < 1.0 && 0.0 <= u3 < 1.0
    ensures IsGrid(g) && g == PlaceTile(PlaceTile(EmptyGrid(), u1, u2), u3, u4)
    ensures TwoTiles(g) && AllTiles(g) && !IsTerminal(g)
  {
    g := EmptyGrid();
    g := AddRandom(g, u1, u2);
    g := AddRandom(g, u3, u4);
    SecondSpawn(EmptyGrid(), u1, u2, u3, u4);
    StartNotTerminal(g);
  }

  /** Merging one more row appends its merged row and adds its score. */
  lemma SlideGridSnoc(rows: Grid, row: seq<int>)
    ensures SlideGrid(rows + [row]) == SlideGrid(rows) + [Merged(row)]
    ensures RowsGain(rows + [row]) == RowsGain(rows) + MergeScore(row)
  {
    assert (rows + [row])[..|rows|] == rows;
  }

  /** One row of the merge pass: the merged rows, the moved flag and the points grow by that row. */
  lemma SlideRowsStep(done: Grid, row: seq<int>, rows: Grid, newRow: seq<int>)
    requires rows == SlideGrid(done) && newRow == Merged(row)
    ensures rows + [newRow] == SlideGrid(done + [row])
    ensures rows + [newRow] != done + [row] <==> rows != done || newRow != row
    ensures RowsGain(done + [row]) == RowsGain(done) + MergeScore(row)
  {
    SlideGridSnoc(done, row);
    SnocEquals(rows, done, newRow, row);
  }

  /** Two grids extended by one row are equal exactly when the grids and the rows are. */
  lemma SnocEquals(a: Grid, b: Grid, x: seq<int>, y: seq<int>)
    requires |a| == |b|
    ensures a + [x] == b + [y] <==> a == b && x == y
  {
    if a + [x] == b + [y] {
      assert a == (a + [x])[..|a|] && b == (b + [y])[..|b|];
      assert x == (a + [x])[|a|] && y == (b + [y])[|b|];
    }
  }

  /**
   * The merge pass of move: every rotated row through mergeRow, recording
   * whether some row changed and summing the points.
   */
  method SlideRows(rotated: Grid) returns (rows: Grid, moved: bool, gained: int)
    requires IsGrid(rotated)
    ensures rows == SlideGrid(rotated)
    ensures moved <==> rows != rotated
    ensures gained == RowsGain(rotated)
  {
    moved := false;
    gained := 0;
    rows := [];
    for i := 0 to Size
      invariant rows == SlideGrid(rotated[..i])
      invariant moved <==> rows != rotated[..i]
      invariant gained == RowsGain(rotated[..i])
    {
      var row := rotated[i];
      var newRow, s := MergeRow(row);
      SlideRowsStep(rotated[..i], row, rows, newRow);
      assert rotated[..i + 1] == rotated[..i] + [row];
      var same := ArraysEqual(row, newRow);
      assert |row| == Size && |newRow| == Size;
      assert same <==> newRow == row;
      if !same {
        moved := true;
      }
      gained := gained + s;
      rows := rows + [newRow];
    }
    assert rotated[..Size] == rotated;
  }

  // ---------------------------------------------------------------------
  // The game
  // ---------------------------------------------------------------------

  /** The state the 2048 component keeps: grid, score and the game-over flag. */
  class Game {
    var grid: Grid
    var score: int
    var gameOver: bool

    ghost predicate Valid()
      reads this
    {
      && IsGrid(grid) && AllTiles(grid) && score >= 0
      && (gameOver <==> IsTerminal(grid))
    }

    /** The initial state: a start grid, score 0, game not over. */
    constructor (u1: real, u2: real, u3: real, u4: real)
      requires 0.0 <= u1 < 1.0 && 0.0 <= u3 < 1.0
      ensures Valid() && TwoTiles(grid)
      ensures grid == PlaceTile(PlaceTile(EmptyGrid(), u1, u2), u3, u4)
      ensures score == 0 && !gameOver
    {
      var g := CreateStartGrid(u1, u2, u3, u4);
      grid := g;
      score := 0;
      gameOver := false;
    }

    /**
     * move: nothing happens when the game is over or no row changes;
     * otherwise the moved grid receives a random tile, the gained points are
     * added and the game-over flag is recomputed.
     */
    method Move(dir: Direction, uPick: real, uCoin: real)
      requires Valid() && 0.0 <= uPick < 1.0
      modifies this
      ensures Valid()
      ensures old(gameOver) || !Moves(old(grid), dir) ==>
        grid == old(grid) && score == old(score) && gameOver == old(gameOver)
      ensures !old(gameOver) && Moves(old(grid), dir) ==>
        && MoveGrid(old(grid), dir) != old(grid)
        && grid == PlaceTile(MoveGrid(old(grid), dir), uPick, uCoin)
        && score == old(score) + Gain(old(grid), dir)
        && gameOver == IsTerminal(grid)
      ensures score >= old(score)
    {
      if gameOver {
        return;
      }
      var rows, moved, gained := SlideRows(Rotate(grid, dir));
      if !moved {
        return;
      }
      MovesIffChanged(grid, dir);
      MoveKeepsTiles(grid, dir);
      GainNonNegative(grid, dir);
      var next := RotateBack(rows, dir);
      next := AddRandom(next, uPick, uCoin);
      PlaceTileKeepsTiles(MoveGrid(grid, dir), uPick, uCoin);
      grid := next;
      score := score + gained;
      var over := IsGameOver(next);
      if over {
        gameOver := true;
      }
    }

    /** restart: a new start grid, score 0, game not over. */
    method Restart(u1: real, u2: real, u3: real, u4: real)
      requires 0.0 <= u1 < 1.0 && 0.0 <= u3 < 1.0
      modifies this
      ensures Valid() && TwoTiles(grid)
      ensures grid == PlaceTile(PlaceTile(EmptyGrid(), u1, u2), u3, u4)
      ensures score == 0 && !gameOver
    {
      var g := CreateStartGrid(u1, u2, u3, u4);
      grid := g;
      score := 0;
      gameOver := false;
    }
  }
}
