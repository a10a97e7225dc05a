/** The template-grid generator of the Rust port (`BpmPattern::generate` in
    src/core_bpm/bpm_pattern.rs). Offsets are `u32` and accumulate with
    saturating additions; the beat period of a tempo, `(60.0 / bpm *
    frame_rate as f32) as u32` in the source, is supplied by the caller. */
module RsPattern {
  import opened Common
  import PyPatterns

  /** A generated grid with the metadata it was generated from. */
  datatype BpmPattern = BpmPattern(
    data: seq<seq<seq<U32>>>,
    startBpm: real,
    step: real,
    lengh: nat,
    frameRate: nat)

  /** `((end_bpm - start_bpm + 10.0) / step).ceil() as usize`; a negative
      quotient saturates to 0 in the float-to-integer cast. */
  function CandidateCount(startBpm: real, endBpm: real, step: real): nat
    requires step > 0.0
  {
    var q := (endBpm - startBpm + 10.0) / step;
    var c := -((-q).Floor);
    if c < 0 then 0 else c
  }

  /** Tempo of candidate `i`: `add += step` happens before use, at every
      resolution. */
  function Tempo(startBpm: real, step: real, i: nat): real
  {
    startBpm - 10.0 + (i + 1) as real * step
  }

  /** The offset stored at `data[i][x][y]` for beat period `period`:
      `(y * period) + 20 * (x + 1)`, pinned at `u32::MAX`. */
  function Entry(period: U32, x: nat, y: nat): U32
  {
    Min(y * period + 20 * (x + 1), U32_MAX)
  }

  /** `p` holds, for every candidate, `lengh` rows of 32 entries built from
      that candidate's period. */
  predicate Generated(p: BpmPattern, count: nat, startBpm: real, step: real, lengh: nat,
                      period: real -> U32)
  {
    && |p.data| == count
    && forall i | 0 <= i < count ::
         && |p.data[i]| == lengh
         && forall x | 0 <= x < lengh ::
              && |p.data[i][x]| == 32
              && forall y | 0 <= y < 32 ::
                   p.data[i][x][y] == Entry(period(Tempo(startBpm, step, i)), x, y)
  }

  /** Iterated `saturating_add` of the period gives the true multiple, pinned. */
  lemma SatMultiple(t: U32, period: U32, y: nat)
    requires t == Min(y * period, U32_MAX)
    ensures SatAdd(t, period) == Min((y + 1) * period, U32_MAX)
  {
    assert (y + 1) * period == y * period + period;
  }

  /** The innermost loop of `generate`: 32 saturating multiples of the
      period, then `jump` added to each with `saturating_add`. */
  method BeatPositions(timestamp: U32, jump: U32, ghost x: nat) returns (row: seq<U32>)
    requires jump == 20 * (x + 1)
    ensures |row| == 32
    ensures forall y | 0 <= y < 32 :: row[y] == Entry(timestamp, x, y)
  {
    var beatPositions: seq<U32> := [];
    var timestampNext: U32 := 0;
    for y := 0 to 32
      invariant timestampNext as int == Min(y * (timestamp as int), U32_MAX)
      invariant |beatPositions| == y
      invariant forall y' | 0 <= y' < y :: beatPositions[y'] == Min(y' * timestamp, U32_MAX)
    {
      beatPositions := beatPositions + [timestampNext];
      SatMultiple(timestampNext, timestamp, y);
      timestampNext := SatAdd(timestampNext, timestamp);
    }
    row := seq(32, k requires 0 <= k < 32 => SatAdd(beatPositions[k], jump));
  }

  /** The rows of one candidate: `jump` grows by 20 per row. */
  method CandidateRows(timestamp: U32, lengh: nat) returns (rows: seq<seq<U32>>)
    requires 20 * lengh <= U32_MAX
    ensures |rows| == lengh
    ensures forall x | 0 <= x < lengh :: |rows[x]| == 32
    ensures forall x, y | 0 <= x < lengh && 0 <= y < 32 :: rows[x][y] == Entry(timestamp, x, y)
  {
    rows := [];
    var jump: U32 := 0;
    for x := 0 to lengh
      invariant jump == 20 * x
      invariant |rows| == x
      invariant forall x' | 0 <= x' < x :: |rows[x']| == 32
      invariant forall x', y | 0 <= x' < x && 0 <= y < 32 :: rows[x'][y] == Entry(timestamp, x', y)
    {
      jump := jump + 20;
      var row := BeatPositions(timestamp, jump, x);
      rows := rows + [row];
    }
  }

  /** `BpmPattern::generate`. The running `jump` is a plain `u32` that
      overflows past `u32::MAX`, so `20 * lengh` must stay within range. */
  method Generate(startBpm: real, endBpm: real, step: real, lengh: nat, frameRate: nat,
                  period: real -> U32)
    returns (p: BpmPattern)
    requires step > 0.0
    requires 20 * lengh <= U32_MAX
    ensures Generated(p, CandidateCount(startBpm, endBpm, step), startBpm, step, lengh, period)
    ensures p.startBpm == startBpm && p.step == step && p.lengh == lengh && p.frameRate == frameRate
  {
    var sample := CandidateCount(startBpm, endBpm, step);
    var data: seq<seq<seq<U32>>> := [];
    var add := 0.0;
    for i := 0 to sample
      invariant add == i as real * step
      invariant Generated(BpmPattern(data, startBpm, step, lengh, frameRate), i, startBpm, step, lengh, period)
    {
      add := add + step;
      var bpm := startBpm - 10.0 + add;
      assert bpm == Tempo(startBpm, step, i);
      var bpmPatterns := CandidateRows(period(bpm), lengh);
      data := data + [bpmPatterns];
    }
    p := BpmPattern(data, startBpm, step, lengh, frameRate);
  }

  /** Every row of a generated grid is sorted (non-decreasing), which the
      binary searches of the analyzer rely on. */
  lemma RowsSorted(p: BpmPattern, count: nat, startBpm: real, step: real, lengh: nat,
                   period: real -> U32, i: nat, x: nat, y1: nat, y2: nat)
    requires Generated(p, count, startBpm, step, lengh, period)
    requires i < count && x < lengh && y1 <= y2 < 32
    ensures p.data[i][x][y1] <= p.data[i][x][y2]
  {
    var t := period(Tempo(startBpm, step, i));
    assert p.data[i][x][y1] == Entry(t, x, y1);
    assert p.data[i][x][y2] == Entry(t, x, y2);
    MulMonotone(y1, y2, t);
  }

  /** Without saturation, the Rust entries are the Python entries. */
  lemma EntryMatchesPython(period: U32, x: nat, y: nat)
    requires y * period + 20 * (x + 1) <= U32_MAX
    ensures Entry(period, x, y) == PyPatterns.Entry(period, x, y)
  {
  }

  /** With the default 0.25 step over a 100 BPM band both ports build 440
      coarse candidates, and candidate `i` of the Rust port has the tempo of
      the Python coarse candidate `i`. */
  lemma CountAndTempoMatchPython(startBpm: int, i: nat)
    ensures CandidateCount(startBpm as real, (startBpm + 100) as real, 0.25) == PyPatterns.CoarseCount(100)
    ensures Tempo(startBpm as real, 0.25, i) == PyPatterns.CoarseTempo(startBpm, i)
  {
    var q := ((startBpm + 100) as real - startBpm as real + 10.0) / 0.25;
    assert q == 440.0;
    assert (-q).Floor == -440;
  }

  /** At the fine resolution the Rust candidate `i` is one fine step above
      the Python fine candidate `i`. */
  lemma FineTempoOffByOneStep(startBpm: int, i: nat)
    ensures Tempo(startBpm as real, 0.05, i) == PyPatterns.FineTempo(startBpm, i + 1)
  {
  }
}
