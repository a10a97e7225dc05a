/** The tempo search of the Rust port (`BpmAnalyzer` in
    src/core_bpm/analyzer.rs): the sliding analysis buffer, beat events by
    non-overlapping windows, the binary-search vote container, the wrap by
    candidate, the mode score, the gate, the fine window and the final
    tempo. Samples after the band-pass filter are compared only with each
    other, and are modelled as integers; the filter chain is an
    uninterpreted step on its state and one sample. */
module RsAnalyzer {
  import opened Common
  import opened Voting
  import RsPattern
  import PyAnalyzer

  /** `ANALYSIS_BUFFER_SIZE`: ten seconds at 11025 Hz. */
  const AnalysisBufferSize: nat := 110250

  // ---------------------------------------------------------------------
  // search_beat_events

  /** Events of the full windows `s[p..p + step]`, `s[p + step..p + 2 * step]`,
      ...: the window start plus the last index of the window's maximum
      (`max_by` keeps the later of two equal elements). A trailing partial
      window yields nothing (`windows(step).step_by(step)`). */
  function EventsFrom(s: seq<int>, step: nat, p: nat): seq<nat>
    requires step > 0
    decreases |s| - p
  {
    if p + step > |s| then []
    else [WindowEvent(s, step, p)] + EventsFrom(s, step, p + step)
  }

  /** The event of the full window starting at `p`. */
  function WindowEvent(s: seq<int>, step: nat, p: nat): nat
    requires 0 < step && p + step <= |s|
  {
    p + LastArgMax(s[p..p + step])
  }

  /** `search_beat_events` with `step_size = frame_rate / 2`. */
  function SearchBeatEvents(s: seq<int>, step: nat): seq<nat>
    requires step > 0
  {
    if |s| < step then [] else EventsFrom(s, step, 0)
  }

  /** The windows from `p` on number the whole multiples of `step` that fit
      in the rest of the signal. */
  lemma {:induction false} EventsFromCount(s: seq<int>, step: nat, p: nat)
    requires step > 0 && p <= |s|
    ensures |EventsFrom(s, step, p)| * step <= |s| - p < |EventsFrom(s, step, p)| * step + step
    decreases |s| - p
  {
    if p + step <= |s| {
      EventsFromCount(s, step, p + step);
      var c := |EventsFrom(s, step, p + step)|;
      assert |EventsFrom(s, step, p)| == c + 1;
      MulPred(c + 1, step);
    }
  }

  /** Floor division is the only count `c` with `c * step <= n < c * step + step`. */
  lemma FloorUnique(n: nat, step: nat, c: nat)
    requires step > 0
    requires c * step <= n < c * step + step
    ensures n / step == c
  {
    var d := n / step;
    assert d * step <= n < d * step + step;
    MulStrict(d, c, step);
    MulStrict(c, d, step);
  }

  /** `search_beat_events` returns `floor(len / step)` events (none when the
      signal is shorter than one window). */
  lemma EventCount(s: seq<int>, step: nat)
    requires step > 0
    ensures |SearchBeatEvents(s, step)| == |s| / step
  {
    EventsFromCount(s, step, 0);
    FloorUnique(|s|, step, |SearchBeatEvents(s, step)|);
  }

  /** Event `j` is the window start `p + j * step` plus the last position of
      the maximum of that full window. */
  lemma {:induction false} EventAt(s: seq<int>, step: nat, p: nat, j: nat, lo: nat)
    requires step > 0
    requires j < |EventsFrom(s, step, p)|
    requires lo == p + j * step
    ensures lo + step <= |s|
    ensures EventsFrom(s, step, p)[j] == lo + LastArgMax(s[lo..lo + step])
    decreases j
  {
    var rest := EventsFrom(s, step, p + step);
    assert p + step <= |s|;
    assert EventsFrom(s, step, p) == [WindowEvent(s, step, p)] + rest;
    if j > 0 {
      MulPred(j, step);
      EventAt(s, step, p + step, j - 1, lo);
      assert EventsFrom(s, step, p)[j] == rest[j - 1];
    }
  }

  /** The last position of a window's maximum, as a position in the signal. */
  lemma WindowLastMax(s: seq<int>, lo: nat, step: nat)
    requires 0 < step && lo + step <= |s|
    ensures var e := lo + LastArgMax(s[lo..lo + step]);
            && lo <= e < lo + step
            && (forall k :: lo <= k < lo + step ==> s[k] <= s[e])
            && (forall k :: e < k < lo + step ==> s[k] < s[e])
  {
    var w := s[lo..lo + step];
    assert forall k :: lo <= k < lo + step ==> s[k] == w[k - lo];
  }

  /** Event `j` lies in the full window `[lo, lo + step)` with
      `lo = p + j * step`, holds the window's maximum, and every later
      position of the window holds less. */
  lemma EventInWindow(s: seq<int>, step: nat, p: nat, j: nat, lo: nat)
    requires step > 0
    requires j < |EventsFrom(s, step, p)|
    requires lo == p + j * step
    ensures lo <= EventsFrom(s, step, p)[j] < lo + step <= |s|
    ensures forall k :: lo <= k < lo + step ==> s[k] <= s[EventsFrom(s, step, p)[j]]
    ensures forall k :: EventsFrom(s, step, p)[j] < k < lo + step ==> s[k] < s[EventsFrom(s, step, p)[j]]
  {
    EventAt(s, step, p, j, lo);
    WindowLastMax(s, lo, step);
  }

  /** A count by ceiling `k` and a count by floor `c` of the same `n`
      agree on a multiple of `step` and differ by one otherwise. */
  lemma CeilVersusFloor(n: nat, step: nat, k: nat, c: nat)
    requires step > 0 && n > 0 && k >= 1
    requires (k - 1) * step < n <= k * step
    requires c * step <= n < c * step + step
    ensures c * step == n ==> k == c
    ensures c * step < n ==> k == c + 1
  {
    MulStrict(k, c, step);
    MulStrict(c, k - 1, step);
  }

  /** The Python port counts a trailing partial window as well: it has one
      event more than this port exactly when the length is not a multiple of
      the window. */
  lemma EventCountVersusPython(s: seq<int>, step: nat)
    requires step > 0
    ensures |PyAnalyzer.EventsFrom(s, step, 0)| == |SearchBeatEvents(s, step)| + (if |s| % step == 0 then 0 else 1)
  {
    var n := |s|;
    EventsFromCount(s, step, 0);
    PyAnalyzer.EventCount(PyAnalyzer.WindowEvents(s, step), n, step, 0);
    PyAnalyzer.WindowsCount(n, step, 0);
    CountsDiffer(n, step, PyAnalyzer.Windows(n, step, 0), |EventsFrom(s, step, 0)|);
  }

  /** A ceiling count `k` of `n` is the floor count `c` plus one exactly
      when `n` is not a multiple of `step`. */
  lemma CountsDiffer(n: nat, step: nat, k: nat, c: nat)
    requires step > 0
    requires n == 0 ==> k == 0
    requires n > 0 ==> k >= 1 && (k - 1) * step < n <= k * step
    requires c * step <= n < c * step + step
    ensures k == c + (if n % step == 0 then 0 else 1)
  {
    FloorUnique(n, step, c);
    DivMod(n, step);
    if n > 0 {
      CeilVersusFloor(n, step, k, c);
    } else {
      MulStrict(0, c, step);
    }
  }

  lemma DivMod(n: nat, step: nat)
    requires step > 0
    ensures n == (n / step) * step + n % step
  {
  }

  /** On a window of two equal samples the Python port takes the first and
      this port the last position. */
  lemma TieBreakDiffers()
    ensures PyAnalyzer.EventsFrom([5, 5], 2, 0) == [0]
    ensures SearchBeatEvents([5, 5], 2) == [1]
  {
    assert [5, 5][0..2] == [5, 5];
    assert PyAnalyzer.ChunkMax([5, 5]) == 5;
    assert PyAnalyzer.MarkChunk([5, 5]) == [1, 1];
  }

  // ---------------------------------------------------------------------
  // bpm_container

  /** A row is sorted (non-decreasing), as `partition_point` requires. */
  predicate Sorted(row: seq<U32>)
  {
    forall y1, y2 :: 0 <= y1 <= y2 < |row| ==> row[y1] <= row[y2]
  }

  predicate SortedRows(g: seq<seq<seq<U32>>>)
  {
    forall q, x :: 0 <= q < |g| && 0 <= x < |g[q]| ==> Sorted(g[q][x])
  }

  /** `|&p| p < bound`. */
  function Below(bound: int): int -> bool
  {
    p => p < bound
  }

  /** `|&p| p <= bound`. */
  function AtMost(bound: int): int -> bool
  {
    p => p <= bound
  }

  /** `slice::partition_point(pred)` on a slice partitioned by `pred`: the
      length of the leading run that satisfies `pred`. */
  function PartitionPoint(row: seq<U32>, pred: int -> bool): (r: nat)
    ensures r <= |row|
    ensures forall j :: 0 <= j < r ==> pred(row[j])
    ensures r < |row| ==> !pred(row[r])
  {
    if |row| == 0 || !pred(row[0]) then 0 else 1 + PartitionPoint(row[1..], pred)
  }

  /** The number of matches `end_idx - start_idx` that the two binary
      searches give for event `e`. */
  function RangeCount(row: seq<U32>, e: nat): int
  {
    PartitionPoint(row, AtMost(e + 20)) - PartitionPoint(row, Below(Max(e - 20, 0)))
  }

  /** If the matching entries of `row` are exactly those at `[a, b)`, the
      row has `b - a` hits. */
  lemma {:induction false} RowHitsBlock(row: seq<int>, e: int, a: nat, b: nat)
    requires a <= b <= |row|
    requires forall j :: 0 <= j < |row| ==> (InTolerance(row[j], e) <==> a <= j < b)
    ensures RowHits(row, e) == b - a
    decreases |row|
  {
    if |row| > 0 {
      var n := |row| - 1;
      var init := row[..n];
      assert forall j :: 0 <= j < n ==> init[j] == row[j];
      if a <= n < b {
        RowHitsBlock(init, e, a, n);
      } else if b <= n {
        RowHitsBlock(init, e, a, b);
      } else {
        RowHitsBlock(init, e, n, n);
      }
    }
  }

  /** On a sorted row the two binary searches bracket exactly the entries
      within 20 samples of the event: the count is the linear count of the
      Python port (the lower bound clamped at 0 loses nothing, as entries
      are unsigned). */
  lemma RangeCountIsRowHits(row: seq<U32>, e: nat)
    requires Sorted(row)
    ensures PartitionPoint(row, Below(Max(e - 20, 0))) <= PartitionPoint(row, AtMost(e + 20))
    ensures RangeCount(row, e) == RowHits(row, e)
  {
    var lo := Max(e - 20, 0);
    var a := PartitionPoint(row, Below(lo));
    var b := PartitionPoint(row, AtMost(e + 20));
    forall j | 0 <= j < |row|
      ensures InTolerance(row[j], e) <==> a <= j < b
    {
      if j < a {
        assert Below(lo)(row[j]);
      } else if j >= b {
        assert !AtMost(e + 20)(row[b]);
        assert row[b] <= row[j];
      } else {
        assert AtMost(e + 20)(row[j]);
        assert !Below(lo)(row[a]);
        assert row[a] <= row[j];
      }
    }
    RowHitsBlock(row, e, a, b);
  }

  /** The `x` loop of `bpm_container` for one event and one candidate: row
      index `x` is appended `count` times (`resize`) when its rows count
      `count > 0` matches. */
  method CandidateMatches(cand: seq<seq<U32>>, e: nat) returns (m: seq<int>)
    requires forall x :: 0 <= x < |cand| ==> Sorted(cand[x])
    ensures m == Matches(cand, e)
  {
    m := [];
    var lowerBound := Max(e - 20, 0);
    var upperBound := e + 20;
    for x := 0 to |cand|
      invariant m == Matches(cand[..x], e)
    {
      var startIdx := PartitionPoint(cand[x], Below(lowerBound));
      var endIdx := PartitionPoint(cand[x], AtMost(upperBound));
      RangeCountIsRowHits(cand[x], e);
      var count := endIdx - startIdx;
      MatchesSnoc(cand, e, x);
      if count > 0 {
        m := m + Repeat<int>(x, count);
      }
    }
    assert cand[..|cand|] == cand;
  }

  /** The `q` loop of `bpm_container` for event `i`: the matches of every
      candidate go to list `i * steps + q`; the other lists are untouched. */
  method FillEvent(c0: seq<seq<int>>, events: seq<nat>, pattern: seq<seq<seq<U32>>>, i: nat)
    returns (c: seq<seq<int>>)
    requires SortedRows(pattern)
    requires |c0| == |events| * |pattern| && i < |events|
    ensures |c| == |c0|
    ensures forall i', q :: 0 <= i' < |events| && i' != i && 0 <= q < |pattern| ==>
              c[Idx(|events|, |pattern|, i', q)] == c0[Idx(|events|, |pattern|, i', q)]
    ensures forall q :: 0 <= q < |pattern| ==>
              c[Idx(|events|, |pattern|, i, q)] == c0[Idx(|events|, |pattern|, i, q)] + Matches(pattern[q], events[i])
  {
    var n := |events|;
    var steps := |pattern|;
    c := c0;
    for q := 0 to steps
      invariant |c| == |c0|
      invariant forall i', q' :: 0 <= i' < n && 0 <= q' < steps && (i' != i || q' >= q) ==>
                  c[Idx(n, steps, i', q')] == c0[Idx(n, steps, i', q')]
      invariant forall q' :: 0 <= q' < q ==>
                  c[Idx(n, steps, i, q')] == c0[Idx(n, steps, i, q')] + Matches(pattern[q'], events[i])
    {
      var m := CandidateMatches(pattern[q], events[i]);
      var k := Idx(n, steps, i, q);
      forall i', q' | 0 <= i' < n && 0 <= q' < steps && (i' != i || q' != q)
        ensures Idx(n, steps, i', q') != k
      {
        IdxDistinct(n, steps, i', q', i, q);
      }
      c := c[k := c[k] + m];
    }
  }

  /** `bpm_container`: one list per (event, candidate) pair, list
      `i * steps + q` holding the matches of event `i` in candidate `q`'s
      rows. There is no seed value, unlike the Python port. */
  method BpmContainer(events: seq<nat>, pattern: seq<seq<seq<U32>>>) returns (c: seq<seq<int>>)
    requires SortedRows(pattern)
    ensures |c| == |events| * |pattern|
    ensures forall i, q :: 0 <= i < |events| && 0 <= q < |pattern| ==>
              c[Idx(|events|, |pattern|, i, q)] == Matches(pattern[q], events[i])
  {
    var n := |events|;
    var steps := |pattern|;
    c := seq(n * steps, _ => []);
    for i := 0 to n
      invariant |c| == n * steps
      invariant forall i', q :: 0 <= i' < i && 0 <= q < steps ==>
                  c[Idx(n, steps, i', q)] == Matches(pattern[q], events[i'])
      invariant forall i', q :: i <= i' < n && 0 <= q < steps ==> c[Idx(n, steps, i', q)] == []
    {
      c := FillEvent(c, events, pattern, i);
    }
  }

  // ---------------------------------------------------------------------
  // wrap_bpm_container

  /** The inner loop of `wrap_bpm_container`: lists `q`, `q + steps`, ...
      appended in order (`(q..len).step_by(steps)`). */
  method Gather(c: seq<seq<int>>, q: nat, steps: nat) returns (w: seq<int>)
    requires steps > 0
    ensures w == Flatten(Stride(c, q, steps))
  {
    w := [];
    var j := q;
    while j < |c|
      invariant w + Flatten(Stride(c, j, steps)) == Flatten(Stride(c, q, steps))
      decreases |c| - j
    {
      assert Stride(c, j, steps) == [c[j]] + Stride(c, j + steps, steps);
      FlattenCons(c[j], Stride(c, j + steps, steps));
      assert w + (c[j] + Flatten(Stride(c, j + steps, steps))) == (w + c[j]) + Flatten(Stride(c, j + steps, steps));
      w := w + c[j];
      j := j + steps;
    }
  }

  /** `wrap_bpm_container`: list `q` is the concatenation of the container
      lists `j` with `j % steps == q`, in increasing `j`; nothing is
      filtered. */
  method WrapBpmContainer(c: seq<seq<int>>, steps: nat) returns (wrapped: seq<seq<int>>)
    ensures |wrapped| == steps
    ensures forall q :: 0 <= q < steps ==> wrapped[q] == Flatten(Stride(c, q, steps))
  {
    wrapped := seq(steps, _ => []);
    for i := 0 to steps
      invariant |wrapped| == steps
      invariant forall q :: 0 <= q < i ==> wrapped[q] == Flatten(Stride(c, q, steps))
      invariant forall q :: i <= q < steps ==> wrapped[q] == []
    {
      var w := Gather(c, i, steps);
      wrapped := wrapped[i := wrapped[i] + w];
    }
  }

  /** The lists `q + i * steps` of a container, gathered, are the
      concatenation of their cells. */
  lemma {:induction false} StrideCells(c: seq<seq<int>>, n: nat, steps: nat, q: nat,
                                       cells: seq<seq<int>>, i: nat, pos: nat)
    requires |c| == n * steps && |cells| == n
    requires q < steps
    requires forall i' {:trigger Idx(n, steps, i', q)} :: 0 <= i' < n ==> c[Idx(n, steps, i', q)] == cells[i']
    requires i <= n
    requires i < n ==> pos == Idx(n, steps, i, q)
    requires i == n ==> pos >= |c|
    ensures Flatten(Stride(c, pos, steps)) == Flatten(cells[i..])
    decreases n - i
  {
    if i == n {
      assert cells[i..] == [];
    } else {
      IdxNext(n, steps, i, q);
      StrideCells(c, n, steps, q, cells, i + 1, pos + steps);
      assert Stride(c, pos, steps) == [c[pos]] + Stride(c, pos + steps, steps);
      FlattenCons(c[pos], Stride(c, pos + steps, steps));
      assert cells[i..] == [cells[i]] + cells[i + 1..];
      FlattenCons(cells[i], cells[i + 1..]);
    }
  }

  /** Wrapping the container of `bpm_container` gives each candidate all its
      votes over the events, row-0 votes included. */
  lemma WrapIsVotes(c: seq<seq<int>>, events: seq<nat>, pattern: seq<seq<seq<U32>>>, q: nat)
    requires |c| == |events| * |pattern|
    requires forall i, q' :: 0 <= i < |events| && 0 <= q' < |pattern| ==>
               c[Idx(|events|, |pattern|, i, q')] == Matches(pattern[q'], events[i])
    requires q < |pattern|
    ensures Flatten(Stride(c, q, |pattern|)) == Votes(pattern[q], events)
  {
    var n := |events|;
    var steps := |pattern|;
    var cells := seq(n, i requires 0 <= i < n => Matches(pattern[q], events[i]));
    if n > 0 {
      assert Idx(n, steps, 0, q) == q;
    }
    StrideCells(c, n, steps, q, cells, 0, q);
    assert cells[0..] == cells;
    VotesFlatten(pattern[q], events);
  }

  // ---------------------------------------------------------------------
  // finalise_bpm_container, get_bpm_wrapped, check_bpm_wrapped

  /** The score of one list: the largest count in its histogram, 0 for an
      empty list. */
  function Score(w: seq<int>): nat
  {
    if |w| == 0 then 0 else MaxMult(w)
  }

  /** An empty list scores 0; otherwise the score lies in `[1, |w|]`, some
      value occurs that often and none occurs more often. */
  lemma ScoreSpec(w: seq<int>)
    ensures |w| == 0 ==> Score(w) == 0
    ensures |w| > 0 ==> 1 <= Score(w) <= |w| && (exists v :: v in w && Mult(w, v) == Score(w))
    ensures forall v :: Mult(w, v) <= Score(w)
  {
    if |w| > 0 {
      MaxMultBounds(w);
    }
  }

  /** `finalise_bpm_container`: one score per list. */
  function Finalise(wrapped: seq<seq<int>>): (r: seq<nat>)
    ensures |r| == |wrapped|
    ensures forall q :: 0 <= q < |r| ==> r[q] == Score(wrapped[q])
  {
    seq(|wrapped|, q requires 0 <= q < |wrapped| => Score(wrapped[q]))
  }

  /** Where the Python port scores a list at all, both ports agree on
      lists of positive votes (the Python port keeps only positive votes). */
  lemma ScoreMatchesPython(w: seq<int>)
    requires |w| > 0
    requires forall j :: 0 <= j < |w| ==> w[j] > 0
    ensures PyAnalyzer.PyScore(w) == Score(w)
  {
    PyAnalyzer.PositiveScore(w);
  }

  /** `get_bpm_wrapped`: every index of the largest score, ascending; none
      when there are no scores or the largest is 0. */
  function Winners(scores: seq<nat>): (r: seq<nat>)
    ensures forall j :: 0 <= j < |r| ==> r[j] < |scores|
  {
    if |scores| == 0 then []
    else
      var m := scores[FirstArgMax(scores)];
      if m == 0 then [] else IndicesOf(scores, m)
  }

  /** The winners are exactly the indices of the largest score, ascending,
      and there are none exactly when every score is 0. */
  lemma WinnersSpec(scores: seq<nat>)
    ensures |Winners(scores)| == 0 <==> forall k :: 0 <= k < |scores| ==> scores[k] == 0
    ensures forall j :: 0 <= j < |Winners(scores)| ==>
              Winners(scores)[j] < |scores| && forall k :: 0 <= k < |scores| ==> scores[k] <= scores[Winners(scores)[j]]
    ensures forall k :: 0 <= k < |scores| && scores[k] > 0 && (forall k' :: 0 <= k' < |scores| ==> scores[k'] <= scores[k]) ==>
              k in Winners(scores)
    ensures forall j1, j2 :: 0 <= j1 < j2 < |Winners(scores)| ==> Winners(scores)[j1] < Winners(scores)[j2]
  {
    if |scores| > 0 {
      var m := scores[FirstArgMax(scores)];
      if m > 0 {
        assert FirstArgMax(scores) in Winners(scores);
      }
    }
  }

  /** `check_bpm_wrapped`: exactly one winner, with a score of at least 6. */
  predicate Check(winners: seq<nat>, scores: seq<nat>)
    requires forall j :: 0 <= j < |winners| ==> winners[j] < |scores|
  {
    |winners| == 1 && scores[winners[0]] >= 6
  }

  /** An accepted score list has its largest score at one index only, and
      that score is at least 6. */
  lemma GateSound(scores: seq<nat>)
    requires Check(Winners(scores), scores)
    ensures |scores| > 0
    ensures forall j :: 0 <= j < |scores| && j != FirstArgMax(scores) ==> scores[j] < scores[FirstArgMax(scores)]
    ensures scores[FirstArgMax(scores)] >= 6
  {
    WinnersSpec(scores);
    var r := Winners(scores);
    var k := FirstArgMax(scores);
    assert k in r;
    forall j | 0 <= j < |scores| && j != k
      ensures scores[j] < scores[k]
    {
      assert scores[j] == scores[k] ==> j in r;
    }
  }

  /** A largest score reached at one index only and at least 6 is accepted. */
  lemma GateComplete(scores: seq<nat>)
    requires |scores| > 0
    requires forall j :: 0 <= j < |scores| && j != FirstArgMax(scores) ==> scores[j] < scores[FirstArgMax(scores)]
    requires scores[FirstArgMax(scores)] >= 6
    ensures Check(Winners(scores), scores)
  {
    WinnersSpec(scores);
    var r := Winners(scores);
    var k := FirstArgMax(scores);
    assert k in r;
    forall j | 0 <= j < |r|
      ensures r[j] == k
    {
      assert scores[r[j]] >= scores[k];
    }
  }

  /** This port's gate is the Python gate as evidently intended (unique
      winner, score at least 6). */
  lemma GateIsIntendedPythonGate(scores: seq<nat>)
    requires |scores| > 0
    ensures Check(Winners(scores), scores) <==> PyAnalyzer.UniqueWinnerGate(scores)
  {
    PyAnalyzer.UniqueWinnerGateSpec(scores);
    if Check(Winners(scores), scores) {
      GateSound(scores);
    }
    if PyAnalyzer.UniqueWinnerGate(scores) {
      GateComplete(scores);
    }
  }

  // ---------------------------------------------------------------------
  // get_bpm_pattern_fine_window, bpm_indices_to_float

  /** `f32::round`: to the nearest integer, halves away from zero. */
  function Round(x: real): (r: int)
    ensures x - 0.5 <= r as real <= x + 0.5
  {
    if x >= 0.0 then (x + 0.5).Floor else -((-x + 0.5).Floor)
  }

  lemma RoundWhole(k: int)
    ensures Round(k as real) == k
  {
  }

  /** `get_bpm_pattern_fine_window`: 40 fine candidates from 20 below the
      fine index computed for the coarse winner, clamped to the fine grid;
      `(0, 0)` without a winner. */
  function FineWindow(winners: seq<nat>, coarse: RsPattern.BpmPattern, fine: RsPattern.BpmPattern): (w: (nat, nat))
    requires fine.step > 0.0
    ensures |winners| == 0 ==> w == (0, 0)
    ensures w.1 <= |fine.data| && w.1 <= w.0 + 40
    ensures |winners| > 0 && w.0 + 40 <= |fine.data| ==> w.1 == w.0 + 40
  {
    if |winners| == 0 then (0, 0)
    else
      var coarseBpmValue := coarse.startBpm - 2.0 + winners[0] as real * coarse.step;
      var fineEquivalentIndex := Round((coarseBpmValue - (fine.startBpm - 10.0)) / fine.step);
      var start := Max(fineEquivalentIndex - 20, 0);
      (start, Min(start + 40, |fine.data|))
  }

  /** The band both grids of the analyzer are generated for: the same
      start, 0.25 BPM coarse and 0.05 BPM fine steps. */
  predicate DefaultSteps(coarse: RsPattern.BpmPattern, fine: RsPattern.BpmPattern)
  {
    coarse.startBpm == fine.startBpm && coarse.step == 0.25 && fine.step == 0.05
  }

  /** As written, the window for coarse winner `idx` starts at fine
      candidate `5 * idx + 140`, far past candidate `5 * idx + 4` that has
      the coarse winner's tempo: every candidate in the window is at least
      6.8 BPM faster than the coarse winner. */
  lemma WindowMissesCoarseTempo(coarse: RsPattern.BpmPattern, fine: RsPattern.BpmPattern, idx: nat)
    requires DefaultSteps(coarse, fine)
    ensures FineWindow([idx], coarse, fine).0 == 5 * idx + 140
    ensures RsPattern.Tempo(fine.startBpm, fine.step, 5 * idx + 4) == RsPattern.Tempo(coarse.startBpm, coarse.step, idx)
    ensures forall f: nat :: FineWindow([idx], coarse, fine).0 <= f ==>
              RsPattern.Tempo(fine.startBpm, fine.step, f) >= RsPattern.Tempo(coarse.startBpm, coarse.step, idx) + 6.8
  {
    var v := coarse.startBpm - 2.0 + idx as real * 0.25;
    assert (v - (fine.startBpm - 10.0)) / 0.05 == (5 * idx + 160) as real;
    RoundWhole(5 * idx + 160);
  }

  /** The window as evidently intended: centred on the fine candidate whose
      tempo is the coarse winner's tempo. */
  function IntendedFineWindow(winners: seq<nat>, coarse: RsPattern.BpmPattern, fine: RsPattern.BpmPattern): (w: (nat, nat))
    requires fine.step > 0.0
    ensures |winners| == 0 ==> w == (0, 0)
    ensures w.1 <= |fine.data| && w.1 <= w.0 + 40
  {
    if |winners| == 0 then (0, 0)
    else
      var coarseTempo := RsPattern.Tempo(coarse.startBpm, coarse.step, winners[0]);
      var centre := Round((coarseTempo - (fine.startBpm - 10.0)) / fine.step) - 1;
      var start := Max(centre - 20, 0);
      (start, Min(start + 40, |fine.data|))
  }

  /** The intended window holds the fine candidate of the coarse winner's
      tempo whenever the fine grid has that candidate. */
  lemma IntendedWindowHoldsCoarseTempo(coarse: RsPattern.BpmPattern, fine: RsPattern.BpmPattern, idx: nat)
    requires DefaultSteps(coarse, fine)
    requires 5 * idx + 4 < |fine.data|
    ensures IntendedFineWindow([idx], coarse, fine).0 <= 5 * idx + 4 < IntendedFineWindow([idx], coarse, fine).1
    ensures RsPattern.Tempo(fine.startBpm, fine.step, 5 * idx + 4) == RsPattern.Tempo(coarse.startBpm, coarse.step, idx)
  {
    var t := RsPattern.Tempo(coarse.startBpm, coarse.step, idx);
    assert (t - (fine.startBpm - 10.0)) / 0.05 == (5 * idx + 5) as real;
    RoundWhole(5 * idx + 5);
  }

  /** `(x * 100.0).round() / 100.0`. */
  function RoundCents(x: real): (r: real)
    ensures x - 0.005 <= r <= x + 0.005
  {
    Round(x * 100.0) as real / 100.0
  }

  /** `bpm_indices_to_float`: the tempo formula of the Python fine grid
      applied to the fine index, rounded to two decimals; the coarse index
      is not used. */
  function BpmIndicesToFloat(fine: RsPattern.BpmPattern, coarseIndex: nat, fineIndex: nat): real
  {
    RoundCents(fine.startBpm - 10.0 + fineIndex as real * fine.step)
  }

  /** As written, the reported tempo is one fine step below the tempo the
      winning fine candidate was generated from (before rounding). */
  lemma ReportedOneStepBelow(fine: RsPattern.BpmPattern, coarseIndex: nat, fineIndex: nat)
    ensures BpmIndicesToFloat(fine, coarseIndex, fineIndex) <= RsPattern.Tempo(fine.startBpm, fine.step, fineIndex) - fine.step + 0.005
    ensures BpmIndicesToFloat(fine, coarseIndex, fineIndex) >= RsPattern.Tempo(fine.startBpm, fine.step, fineIndex) - fine.step - 0.005
  {
  }

  /** The tempo as evidently intended: that of the winning fine candidate,
      rounded to two decimals. */
  function CandidateBpm(fine: RsPattern.BpmPattern, fineIndex: nat): (r: real)
    ensures RsPattern.Tempo(fine.startBpm, fine.step, fineIndex) - 0.005 <= r
    ensures r <= RsPattern.Tempo(fine.startBpm, fine.step, fineIndex) + 0.005
  {
    RoundCents(RsPattern.Tempo(fine.startBpm, fine.step, fineIndex))
  }

  // ---------------------------------------------------------------------
  // search_bpm

  /** The scores of one pass: every candidate's votes over the events,
      finalised. */
  function Scores(events: seq<nat>, pattern: seq<seq<seq<U32>>>): seq<nat>
  {
    Finalise(seq(|pattern|, q requires 0 <= q < |pattern| => Votes(pattern[q], events)))
  }

  /** One pass of `search_bpm`: container, wrap, finalise. */
  method Pass(events: seq<nat>, pattern: seq<seq<seq<U32>>>) returns (scores: seq<nat>)
    requires SortedRows(pattern)
    ensures scores == Scores(events, pattern)
  {
    var c := BpmContainer(events, pattern);
    var wrapped := WrapBpmContainer(c, |pattern|);
    forall q | 0 <= q < |pattern|
      ensures wrapped[q] == Votes(pattern[q], events)
    {
      WrapIsVotes(c, events, pattern, q);
    }
    assert wrapped == seq(|pattern|, q requires 0 <= q < |pattern| => Votes(pattern[q], events));
    scores := Finalise(wrapped);
  }

  /** The search `search_bpm` evidently intends: the coarse pass and its
      gate, the fine window, a fine pass that only needs some winner, and
      the tempo of the first fine winner, with the corrected
      `IntendedFineWindow` and `CandidateBpm` (the analyzer computes
      `SearchAsWritten`). */
  function Search(events: seq<nat>, coarse: RsPattern.BpmPattern, fine: RsPattern.BpmPattern): Option<real>
    requires fine.step > 0.0
  {
    if |events| == 0 then None
    else
      var coarseScores := Scores(events, coarse.data);
      var coarseWinners := Winners(coarseScores);
      if !Check(coarseWinners, coarseScores) then None
      else
        var w := IntendedFineWindow(coarseWinners, coarse, fine);
        if w.0 >= w.1 then None
        else match FineStage(events, fine, w)
             case None => None
             case Some(fineIndex) => Some(CandidateBpm(fine, fineIndex))
  }

  /** `search_bpm` as written, with `get_bpm_pattern_fine_window` and
      `bpm_indices_to_float` as the source has them. */
  function SearchAsWritten(events: seq<nat>, coarse: RsPattern.BpmPattern, fine: RsPattern.BpmPattern): Option<real>
    requires fine.step > 0.0
  {
    if |events| == 0 then None
    else
      var coarseScores := Scores(events, coarse.data);
      var coarseWinners := Winners(coarseScores);
      if !Check(coarseWinners, coarseScores) then None
      else
        var w := FineWindow(coarseWinners, coarse, fine);
        if w.0 >= w.1 then None
        else match FineStage(events, fine, w)
             case None => None
             case Some(fineIndex) => Some(BpmIndicesToFloat(fine, coarseWinners[0], fineIndex))
  }

  /** The fine pass of `search_bpm` over the window, which only needs some
      winner: the fine index of the first one. */
  function FineStage(events: seq<nat>, fine: RsPattern.BpmPattern, w: (nat, nat)): Option<nat>
    requires w.0 <= w.1 <= |fine.data|
  {
    FirstWinner(w.0, Scores(events, fine.data[w.0..w.1]))
  }

  /** The first winner of `scores`, as an index of the grid the scored
      window starts at `lo` in; none when every score is 0. */
  function FirstWinner(lo: nat, scores: seq<nat>): (r: Option<nat>)
    ensures r.None? <==> |Winners(scores)| == 0
  {
    var winners := Winners(scores);
    if |winners| == 0 then None else Some(lo + winners[0])
  }

  /** With the analyzer's steps, the fine index found in the window of
      coarse winner `idx` has a tempo at least 6.8 BPM above the coarse
      winner's. */
  lemma FineIndexAbove(events: seq<nat>, coarse: RsPattern.BpmPattern, fine: RsPattern.BpmPattern, idx: nat, f: nat)
    requires DefaultSteps(coarse, fine)
    requires FineWindow([idx], coarse, fine).0 < FineWindow([idx], coarse, fine).1
    requires FineStage(events, fine, FineWindow([idx], coarse, fine)) == Some(f)
    ensures RsPattern.Tempo(fine.startBpm, fine.step, f) >= RsPattern.Tempo(coarse.startBpm, coarse.step, idx) + 6.8
  {
    WindowMissesCoarseTempo(coarse, fine, idx);
  }

  /** As written, an estimate needs beat events and a coarse winner that
      cleared the gate, and with the analyzer's steps it lies at least
      6.7 BPM above the coarse winner's tempo. */
  lemma AsWrittenEstimateAbove(events: seq<nat>, coarse: RsPattern.BpmPattern, fine: RsPattern.BpmPattern, b: real)
    requires fine.step > 0.0
    requires SearchAsWritten(events, coarse, fine) == Some(b)
    ensures |events| > 0
    ensures Check(Winners(Scores(events, coarse.data)), Scores(events, coarse.data))
    ensures DefaultSteps(coarse, fine) ==>
              b >= RsPattern.Tempo(coarse.startBpm, coarse.step, Winners(Scores(events, coarse.data))[0]) + 6.7
  {
    var coarseWinners := Winners(Scores(events, coarse.data));
    if DefaultSteps(coarse, fine) {
      var idx := coarseWinners[0];
      assert coarseWinners == [idx];
      var w := FineWindow([idx], coarse, fine);
      var f := FineStage(events, fine, w).value;
      FineIndexAbove(events, coarse, fine, idx, f);
      ReportedOneStepBelow(fine, idx, f);
    }
  }

  /** The fine index a fine pass reports lies in the window it searched. */
  lemma FineStageInWindow(events: seq<nat>, fine: RsPattern.BpmPattern, w: (nat, nat), f: nat)
    requires w.0 <= w.1 <= |fine.data|
    requires FineStage(events, fine, w) == Some(f)
    ensures w.0 <= f < w.1
  {
    var scores := Scores(events, fine.data[w.0..w.1]);
    assert |scores| == w.1 - w.0;
  }

  /** With the analyzer's steps, the corrected window of coarse winner
      `idx` starts 20 candidates below fine candidate `5 * idx + 4`, clamped
      at the first candidate. */
  lemma IntendedWindowStart(coarse: RsPattern.BpmPattern, fine: RsPattern.BpmPattern, idx: nat)
    requires DefaultSteps(coarse, fine)
    ensures IntendedFineWindow([idx], coarse, fine).0 == Max(5 * idx - 16, 0)
  {
    var t := RsPattern.Tempo(coarse.startBpm, coarse.step, idx);
    assert (t - (fine.startBpm - 10.0)) / 0.05 == (5 * idx + 5) as real;
    RoundWhole(5 * idx + 5);
  }

  /** An estimate needs beat events and a coarse winner that cleared the
      gate; with the analyzer's steps it lies within 1 BPM (plus rounding)
      below the coarse winner's tempo, and, once the window is not clamped
      at the bottom of the grid, within 0.95 BPM above it. */
  lemma SearchEstimate(events: seq<nat>, coarse: RsPattern.BpmPattern, fine: RsPattern.BpmPattern, b: real)
    requires fine.step > 0.0
    requires Search(events, coarse, fine) == Some(b)
    ensures |events| > 0
    ensures Check(Winners(Scores(events, coarse.data)), Scores(events, coarse.data))
    ensures DefaultSteps(coarse, fine) ==>
              var idx := Winners(Scores(events, coarse.data))[0];
              var t := RsPattern.Tempo(coarse.startBpm, coarse.step, idx);
              && t - 1.005 <= b
              && (idx >= 4 ==> b <= t + 0.955)
  {
    var coarseWinners := Winners(Scores(events, coarse.data));
    if DefaultSteps(coarse, fine) {
      var idx := coarseWinners[0];
      assert coarseWinners == [idx];
      var w := IntendedFineWindow([idx], coarse, fine);
      var f := FineStage(events, fine, w).value;
      FineStageInWindow(events, fine, w, f);
      IntendedWindowStart(coarse, fine, idx);
      CandidateNearCoarse(coarse, fine, idx, f);
    }
  }

  /** A fine candidate from the corrected window of coarse winner `idx`
      reports a tempo close to the coarse winner's. */
  lemma CandidateNearCoarse(coarse: RsPattern.BpmPattern, fine: RsPattern.BpmPattern, idx: nat, f: nat)
    requires DefaultSteps(coarse, fine)
    requires Max(5 * idx - 16, 0) <= f < Max(5 * idx - 16, 0) + 40
    ensures RsPattern.Tempo(coarse.startBpm, coarse.step, idx) - 1.005 <= CandidateBpm(fine, f)
    ensures idx >= 4 ==> CandidateBpm(fine, f) <= RsPattern.Tempo(coarse.startBpm, coarse.step, idx) + 0.955
  {
    var t := RsPattern.Tempo(coarse.startBpm, coarse.step, idx);
    var tf := RsPattern.Tempo(fine.startBpm, fine.step, f);
    assert tf - t == (f as real - (5 * idx + 4) as real) * 0.05;
  }

  /** Every row of a generated grid is sorted. */
  lemma GeneratedSorted(p: RsPattern.BpmPattern, count: nat, startBpm: real, step: real, lengh: nat,
                        period: real -> U32)
    requires RsPattern.Generated(p, count, startBpm, step, lengh, period)
    ensures SortedRows(p.data)
  {
    forall i, x, y1, y2 | 0 <= i < count && 0 <= x < lengh && 0 <= y1 <= y2 < 32
      ensures p.data[i][x][y1] <= p.data[i][x][y2]
    {
      RsPattern.RowsSorted(p, count, startBpm, step, lengh, period, i, x, y1, y2);
    }
  }

  /** A window of a grid with sorted rows has sorted rows. */
  lemma SliceSorted(g: seq<seq<seq<U32>>>, lo: nat, hi: nat)
    requires SortedRows(g) && lo <= hi <= |g|
    ensures SortedRows(g[lo..hi])
  {
    assert forall q :: 0 <= q < hi - lo ==> g[lo..hi][q] == g[lo + q];
  }

  /** The band-pass chain run over `input` from state `s`, sample by
      sample (`AudioFilter::process`): each step yields the chain's next
      state and one output sample, so an output depends on every earlier
      sample. The result is the final state and the outputs. */
  function FilterRun<S>(filter: (S, int) -> (S, int), s: S, input: seq<int>): (r: (S, seq<int>))
    ensures |r.1| == |input|
    decreases |input|
  {
    if |input| == 0 then (s, [])
    else
      var p := FilterRun(filter, s, input[..|input| - 1]);
      var step := filter(p.0, input[|input| - 1]);
      (step.0, p.1 + [step.1])
  }

  /** Filtering two blocks one after the other, the state carried across,
      is filtering their concatenation: splitting the audio into calls of
      `process` does not change the filtered samples. */
  lemma {:induction false} FilterRunAppend<S>(filter: (S, int) -> (S, int), s: S, a: seq<int>, b: seq<int>)
    ensures var first := FilterRun(filter, s, a);
            var second := FilterRun(filter, first.0, b);
            FilterRun(filter, s, a + b) == (second.0, first.1 + second.1)
    decreases |b|
  {
    var first := FilterRun(filter, s, a);
    if |b| > 0 {
      var b' := b[..|b| - 1];
      FilterRunAppend(filter, s, a, b');
      var before := FilterRun(filter, first.0, b');
      assert (a + b)[..|a + b| - 1] == a + b';
      assert (a + b)[|a + b| - 1] == b[|b| - 1];
      var step := filter(before.0, b[|b| - 1]);
      assert FilterRun(filter, s, a + b) == (step.0, (first.1 + before.1) + [step.1]);
      assert FilterRun(filter, first.0, b) == (step.0, before.1 + [step.1]);
      assert (first.1 + before.1) + [step.1] == first.1 + (before.1 + [step.1]);
    } else {
      assert a + b == a;
      assert first.1 + [] == first.1;
    }
  }

  /** A filter without memory maps every sample on its own and keeps its
      state. */
  lemma {:induction false} FilterRunStateless<S>(filter: (S, int) -> (S, int), g: int -> int, s: S, input: seq<int>)
    requires forall s', x :: filter(s', x) == (s', g(x))
    ensures FilterRun(filter, s, input).0 == s
    ensures forall k :: 0 <= k < |input| ==> FilterRun(filter, s, input).1[k] == g(input[k])
    decreases |input|
  {
    if |input| > 0 {
      var init := input[..|input| - 1];
      FilterRunStateless(filter, g, s, init);
      var p := FilterRun(filter, s, init);
      assert filter(p.0, input[|input| - 1]) == (s, g(input[|input| - 1]));
      assert FilterRun(filter, s, input).1 == p.1 + [g(input[|input| - 1])];
      forall k | 0 <= k < |input| - 1
        ensures FilterRun(filter, s, input).1[k] == g(input[k])
      {
        assert init[k] == input[k];
      }
    }
  }

  /** The analyzer: the two grids generated for the 130-230 BPM band, the
      band-pass chain with its state `S`, and the sliding buffer of filtered
      samples. */
  class Analyzer<S> {
    const filter: (S, int) -> (S, int)
    var filterState: S
    const patternCoarse: RsPattern.BpmPattern
    const patternFine: RsPattern.BpmPattern
    var audioBuffer: seq<int>

    /** What `search_bpm` relies on: sorted rows, a positive fine step and a
        positive window size. */
    predicate Ready()
    {
      && SortedRows(patternCoarse.data) && SortedRows(patternFine.data)
      && patternFine.step > 0.0 && patternCoarse.frameRate / 2 > 0
    }

    /** `BpmAnalyzer::new`: both grids for 130-230 BPM at 11025 Hz with
        `11025 / 2 / 20 = 275` rows, and an empty buffer. */
    constructor(period: real -> U32, filter: (S, int) -> (S, int), initial: S)
      ensures Ready()
      ensures RsPattern.Generated(patternCoarse, RsPattern.CandidateCount(130.0, 230.0, 0.25), 130.0, 0.25, 275, period)
      ensures RsPattern.Generated(patternFine, RsPattern.CandidateCount(130.0, 230.0, 0.05), 130.0, 0.05, 275, period)
      ensures patternCoarse.frameRate == 11025 && patternFine.frameRate == 11025
      ensures DefaultSteps(patternCoarse, patternFine)
      ensures this.filter == filter && filterState == initial && audioBuffer == []
    {
      var coarse := RsPattern.Generate(130.0, 230.0, 0.25, 11025 / 2 / 20, 11025, period);
      var fine := RsPattern.Generate(130.0, 230.0, 0.05, 11025 / 2 / 20, 11025, period);
      GeneratedSorted(coarse, RsPattern.CandidateCount(130.0, 230.0, 0.25), 130.0, 0.25, 275, period);
      GeneratedSorted(fine, RsPattern.CandidateCount(130.0, 230.0, 0.05), 130.0, 0.05, 275, period);
      this.filter := filter;
      filterState := initial;
      patternCoarse := coarse;
      patternFine := fine;
      audioBuffer := [];
    }

    /** `search_bpm` on a signal, with `get_bpm_pattern_fine_window` and
        `bpm_indices_to_float` as written. */
    method SearchBpm(signal: seq<int>) returns (r: Option<real>)
      requires Ready()
      ensures r == SearchAsWritten(SearchBeatEvents(signal, patternCoarse.frameRate / 2), patternCoarse, patternFine)
    {
      var beatEvents := SearchBeatEvents(signal, patternCoarse.frameRate / 2);
      if |beatEvents| == 0 {
        return None;
      }
      var finalCoarse := Pass(beatEvents, patternCoarse.data);
      var wrappedCoarse := Winners(finalCoarse);
      if !Check(wrappedCoarse, finalCoarse) {
        return None;
      }
      var window := FineWindow(wrappedCoarse, patternCoarse, patternFine);
      if window.0 >= window.1 {
        return None;
      }
      var fineIndex := FinePass(beatEvents, window);
      if fineIndex.None? {
        return None;
      }
      r := Some(BpmIndicesToFloat(patternFine, wrappedCoarse[0], fineIndex.value));
    }

    /** The fine half of `search_bpm`. */
    method FinePass(beatEvents: seq<nat>, window: (nat, nat)) returns (r: Option<nat>)
      requires Ready()
      requires window.0 <= window.1 <= |patternFine.data|
      ensures r == FineStage(beatEvents, patternFine, window)
    {
      var finePatternWindow := patternFine.data[window.0..window.1];
      SliceSorted(patternFine.data, window.0, window.1);
      var finalFine := Pass(beatEvents, finePatternWindow);
      var wrappedFine := Winners(finalFine);
      if |wrappedFine| == 0 {
        return None;
      }
      r := Some(window.0 + wrappedFine[0]);
      assert r == FirstWinner(window.0, finalFine);
    }

    /** `process`: the samples are filtered one by one through the chain,
        whose state carries over from the previous call, and appended; the
        buffer keeps its last 110250 samples, and the search runs once it
        holds at least one window of `frame_rate / 2` samples. */
    method Process(input: seq<int>) returns (r: Option<real>)
      requires Ready()
      modifies this
      ensures filterState == FilterRun(filter, old(filterState), input).0
      ensures audioBuffer == Suffix(old(audioBuffer) + FilterRun(filter, old(filterState), input).1, AnalysisBufferSize)
      ensures |audioBuffer| < patternCoarse.frameRate / 2 ==> r == None
      ensures |audioBuffer| >= patternCoarse.frameRate / 2 ==>
                r == SearchAsWritten(SearchBeatEvents(audioBuffer, patternCoarse.frameRate / 2), patternCoarse, patternFine)
    {
      for k := 0 to |input|
        invariant filterState == FilterRun(filter, old(filterState), input[..k]).0
        invariant audioBuffer == old(audioBuffer) + FilterRun(filter, old(filterState), input[..k]).1
      {
        assert input[..k + 1][..k] == input[..k];
        var step := filter(filterState, input[k]);
        filterState := step.0;
        audioBuffer := audioBuffer + [step.1];
      }
      assert input[..|input|] == input;
      if |audioBuffer| > AnalysisBufferSize {
        var drainCount := |audioBuffer| - AnalysisBufferSize;
        audioBuffer := audioBuffer[drainCount..];
      }
      var stepSize := patternCoarse.frameRate / 2;
      if |audioBuffer| < stepSize {
        return None;
      }
      r := SearchBpm(audioBuffer);
    }
  }

  /** The buffer never holds more than ten seconds, and its newest samples
      are the filtered input. */
  lemma BufferBounded(old_: seq<int>, filtered: seq<int>)
    ensures |Suffix(old_ + filtered, AnalysisBufferSize)| <= AnalysisBufferSize
    ensures |filtered| <= AnalysisBufferSize ==>
              Suffix(old_ + filtered, AnalysisBufferSize)[|Suffix(old_ + filtered, AnalysisBufferSize)| - |filtered|..] == filtered
  {
    var r := Suffix(old_ + filtered, AnalysisBufferSize);
    if |filtered| <= AnalysisBufferSize {
      var t := r[|r| - |filtered|..];
      assert forall k :: 0 <= k < |filtered| ==> t[k] == (old_ + filtered)[|old_| + k];
    }
  }
}
