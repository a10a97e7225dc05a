/** The template-grid generator of the Python implementation
    (ExtractBpmPatterns.py). A grid has one layer per tempo candidate, one row
    per window position `x` and 32 predicted beat offsets per row. The beat
    period of a candidate, `int(60 / bpm * frame_rate)` in the source, is a
    floating-point computation and is supplied by the caller as `period`. */
module PyPatterns {
  import Common

  /** Tempo of coarse candidate `i`: the running `add` is incremented by
      0.25 BEFORE the period is computed. */
  function CoarseTempo(startBpm: int, i: nat): real
  {
    (startBpm - 10) as real + (i + 1) as real * 0.25
  }

  /** Tempo of fine candidate `i`: the running `add` is incremented by 0.05
      AFTER the period is computed. */
  function FineTempo(startBpm: int, i: nat): real
  {
    (startBpm - 10) as real + i as real * 0.05
  }

  /** `int((width + 10) / 0.25)`, with the division taken exactly. */
  function CoarseCount(width: int): nat
    requires width + 10 >= 0
  {
    4 * (width + 10)
  }

  /** `int((width + 10) / 0.05)`, with the division taken exactly. */
  function FineCount(width: int): nat
    requires width + 10 >= 0
  {
    20 * (width + 10)
  }

  /** The value written at `array[i][x][y]` for a candidate of beat period
      `period`: `y` periods after the window offset `20 * (x + 1)`. */
  function Entry(period: nat, x: nat, y: nat): nat
  {
    y * period + 20 * (x + 1)
  }

  /** `g` is the grid of shape (count, lengh, 32) whose layer `i` is built
      from the period of tempo `tempo(i)`. */
  ghost predicate GridOf(g: array3<int>, count: nat, lengh: nat, tempo: nat -> real, period: real -> nat)
    reads g
  {
    && g.Length0 == count && g.Length1 == lengh && g.Length2 == 32
    && forall i, x, y :: 0 <= i < count && 0 <= x < lengh && 0 <= y < 32 ==>
         g[i, x, y] == Entry(period(tempo(i)), x, y)
  }

  /** The shared triple loop of `extract_bpm_pattern` and
      `extract_bpm_pattern_fine`: fills a zero-initialised array in place,
      writing the running `timestamp_next` first and adding `jump` to the
      whole row afterwards. `tempo` is the candidate's tempo as the running
      `add` gives it (the two generators differ only there). */
  method FillGrid(count: nat, lengh: nat, tempo: nat -> real, period: real -> nat)
    returns (g: array3<int>)
    ensures GridOf(g, count, lengh, tempo, period)
  {
    g := new int[count, lengh, 32]((_, _, _) => 0);
    for i := 0 to count
      invariant g.Length0 == count && g.Length1 == lengh && g.Length2 == 32
      invariant forall i', x, y :: 0 <= i' < i && 0 <= x < lengh && 0 <= y < 32 ==>
                  g[i', x, y] == Entry(period(tempo(i')), x, y)
    {
      FillLayer(g, i, period(tempo(i)));
    }
  }

  /** The rows of layer `i`, `jump` growing by 20 per row; other layers
      are left as they were. */
  method FillLayer(g: array3<int>, i: nat, timestamp: nat)
    requires i < g.Length0 && g.Length2 == 32
    modifies g
    ensures forall x, y :: 0 <= x < g.Length1 && 0 <= y < 32 ==> g[i, x, y] == Entry(timestamp, x, y)
    ensures forall i', x, y :: 0 <= i' < g.Length0 && i' != i && 0 <= x < g.Length1 && 0 <= y < 32 ==>
              g[i', x, y] == old(g[i', x, y])
  {
    var jump := 0;
    for x := 0 to g.Length1
      invariant jump == 20 * x
      invariant forall x', y :: 0 <= x' < x && 0 <= y < 32 ==> g[i, x', y] == Entry(timestamp, x', y)
      invariant forall i', x', y :: 0 <= i' < g.Length0 && i' != i && 0 <= x' < g.Length1 && 0 <= y < 32 ==>
                  g[i', x', y] == old(g[i', x', y])
    {
      jump := jump + 20;
      FillRow(g, i, x, timestamp, jump);
    }
  }

  /** One row: the running `timestamp_next` is written first, then `jump`
      is added to the whole row (`array[i][x] = array[i][x] + jump`); other
      rows are left as they were. */
  method FillRow(g: array3<int>, i: nat, x: nat, timestamp: nat, jump: int)
    requires i < g.Length0 && x < g.Length1 && g.Length2 == 32
    requires jump == 20 * (x + 1)
    modifies g
    ensures forall y :: 0 <= y < 32 ==> g[i, x, y] == Entry(timestamp, x, y)
    ensures forall i', x', y :: 0 <= i' < g.Length0 && 0 <= x' < g.Length1 && 0 <= y < 32 && (i' != i || x' != x) ==>
              g[i', x', y] == old(g[i', x', y])
  {
    var timestampNext := 0;
    for y := 0 to 32
      invariant timestampNext == y * timestamp
      invariant forall y' :: 0 <= y' < y ==> g[i, x, y'] == y' * timestamp
      invariant forall i', x', y' :: 0 <= i' < g.Length0 && 0 <= x' < g.Length1 && 0 <= y' < 32 && (i' != i || x' != x) ==>
                  g[i', x', y'] == old(g[i', x', y'])
    {
      g[i, x, y] := timestampNext;
      timestampNext := timestampNext + timestamp;
    }
    for y := 0 to 32
      invariant forall y' :: 0 <= y' < y ==> g[i, x, y'] == Entry(timestamp, x, y')
      invariant forall y' :: y <= y' < 32 ==> g[i, x, y'] == y' * timestamp
      invariant forall i', x', y' :: 0 <= i' < g.Length0 && 0 <= x' < g.Length1 && 0 <= y' < 32 && (i' != i || x' != x) ==>
                  g[i', x', y'] == old(g[i', x', y'])
    {
      g[i, x, y] := g[i, x, y] + jump;
    }
  }

  /** `extract_bpm_pattern`: the coarse grid, 0.25 BPM apart. */
  method ExtractBpmPattern(lengh: nat, width: int, startBpm: int, period: real -> nat)
    returns (g: array3<int>)
    requires width + 10 >= 0
    ensures GridOf(g, CoarseCount(width), lengh, (i: nat) => CoarseTempo(startBpm, i), period)
  {
    g := FillGrid(CoarseCount(width), lengh, (i: nat) => CoarseTempo(startBpm, i), period);
  }

  /** `extract_bpm_pattern_fine`: the fine grid, 0.05 BPM apart. */
  method ExtractBpmPatternFine(lengh: nat, width: int, startBpm: int, period: real -> nat)
    returns (g: array3<int>)
    requires width + 10 >= 0
    ensures GridOf(g, FineCount(width), lengh, (i: nat) => FineTempo(startBpm, i), period)
  {
    g := FillGrid(FineCount(width), lengh, (i: nat) => FineTempo(startBpm, i), period);
  }

  /** `int((frame_rate / 2) / 20)`: the number of window positions. */
  function Lengh(frameRate: nat): (r: nat)
    ensures 40 * r <= frameRate < 40 * (r + 1)
  {
    frameRate / 40
  }

  /** `extract`: the coarse and fine grids of the three tempo bands, each
      100 BPM wide, for bases 60, 130 and 210. */
  method Extract(frameRate: nat, period: real -> nat)
    returns (c60: array3<int>, f60: array3<int>, c130: array3<int>, f130: array3<int>,
             c210: array3<int>, f210: array3<int>)
    ensures GridOf(c60, 440, Lengh(frameRate), (i: nat) => CoarseTempo(60, i), period)
    ensures GridOf(f60, 2200, Lengh(frameRate), (i: nat) => FineTempo(60, i), period)
    ensures GridOf(c130, 440, Lengh(frameRate), (i: nat) => CoarseTempo(130, i), period)
    ensures GridOf(f130, 2200, Lengh(frameRate), (i: nat) => FineTempo(130, i), period)
    ensures GridOf(c210, 440, Lengh(frameRate), (i: nat) => CoarseTempo(210, i), period)
    ensures GridOf(f210, 2200, Lengh(frameRate), (i: nat) => FineTempo(210, i), period)
  {
    var lengh := Lengh(frameRate);
    c60 := ExtractBpmPattern(lengh, 100, 60, period);
    f60 := ExtractBpmPatternFine(lengh, 100, 60, period);
    c130 := ExtractBpmPattern(lengh, 100, 130, period);
    f130 := ExtractBpmPatternFine(lengh, 100, 130, period);
    c210 := ExtractBpmPattern(lengh, 100, 210, period);
    f210 := ExtractBpmPatternFine(lengh, 100, 210, period);
  }

  /** Within a row, consecutive entries are exactly one period apart, so a
      row is strictly increasing whenever the period is positive. */
  lemma RowIncreasing(g: array3<int>, count: nat, lengh: nat, tempo: nat -> real, period: real -> nat,
                      i: nat, x: nat, y1: nat, y2: nat)
    requires GridOf(g, count, lengh, tempo, period)
    requires i < count && x < lengh && y1 < y2 < 32
    ensures g[i, x, y2] - g[i, x, y1] == (y2 - y1) * period(tempo(i))
    ensures period(tempo(i)) > 0 ==> g[i, x, y1] < g[i, x, y2]
  {
    var p := period(tempo(i));
    assert g[i, x, y1] == Entry(p, x, y1);
    assert g[i, x, y2] == Entry(p, x, y2);
    EntryDifference(p, x, y1, y2);
  }

  /** Entries of one row differ by whole periods. */
  lemma EntryDifference(p: nat, x: nat, y1: nat, y2: nat)
    requires y1 < y2
    ensures Entry(p, x, y2) - Entry(p, x, y1) == (y2 - y1) * p
    ensures p > 0 ==> Entry(p, x, y1) < Entry(p, x, y2)
  {
    var d := y2 - y1;
    assert y2 * p == y1 * p + d * p by {
      assert y2 == y1 + d;
    }
    Common.MulMonotone(1, d, p);
  }

  /** Row `x + 1` is row `x` shifted by 20 samples, and column 0 holds the
      window offset `20 * (x + 1)` whatever the candidate. */
  lemma RowShift(g: array3<int>, count: nat, lengh: nat, tempo: nat -> real, period: real -> nat,
                 i: nat, x: nat, y: nat)
    requires GridOf(g, count, lengh, tempo, period)
    requires i < count && x + 1 < lengh && y < 32
    ensures g[i, x + 1, y] == g[i, x, y] + 20
    ensures g[i, x, 0] == 20 * (x + 1)
  {
  }

  /** Coarse candidate `i` and fine candidate `5 * (i + 1)` hypothesise the
      same tempo: the two generators are offset by one coarse step. */
  lemma CoarseFineAlignment(startBpm: int, i: nat)
    ensures CoarseTempo(startBpm, i) == FineTempo(startBpm, 5 * (i + 1))
    ensures FineTempo(startBpm, 5 * i) == CoarseTempo(startBpm, i) - 0.25
  {
  }

  /** Default band width: 440 coarse and 2200 fine candidates. */
  lemma DefaultCounts()
    ensures CoarseCount(100) == 440 && FineCount(100) == 2200
  {
  }
}
