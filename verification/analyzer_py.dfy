/** The tempo search of the Python implementation (`BpmAnalyzer` in
    BpmAnalizer.py): beat events, the per-event vote container, the wrap by
    candidate, the mode score, the gate, the fine window and the two-pass
    search. Grids are the arrays written by the pattern generator, read here
    as nested lists. */
module PyAnalyzer {
  import opened Common
  import opened Voting
  import PyPatterns

  // ---------------------------------------------------------------------
  // search_beat_events

  /** `window.max()` of a non-empty window. */
  function ChunkMax(c: seq<int>): (m: int)
    requires |c| > 0
    ensures m in c
    ensures forall k :: 0 <= k < |c| ==> c[k] <= m
  {
    if |c| == 1 then c[0]
    else
      var m := ChunkMax(c[..|c| - 1]);
      assert c[..|c| - 1] <= c;
      if c[|c| - 1] > m then c[|c| - 1] else m
  }

  /** What the two masked assignments leave in a cell of value `v` of a
      window whose maximum is `m`: values below the maximum become 0, then
      positive values become 1. */
  function Mark(v: int, m: int): int
  {
    if v < m then 0 else if v > 0 then 1 else v
  }

  function MarkChunk(c: seq<int>): (r: seq<int>)
    requires |c| > 0
    ensures |r| == |c|
  {
    seq(|c|, k requires 0 <= k < |c| => Mark(c[k], ChunkMax(c)))
  }

  /** End of the window that starts at `p`. */
  function ChunkEnd(n: nat, p: nat, step: nat): nat
  {
    Min(p + step, n)
  }

  /** The events of the windows of a signal of length `n` starting at `p`,
      `p + step`, ..., where `ev(q)` is the event of the window starting
      at `q`. */
  function EventsOf(ev: nat -> int, n: nat, step: nat, p: nat): seq<int>
    requires step > 0
    decreases n - p
  {
    if p >= n then [] else [ev(p)] + EventsOf(ev, n, step, p + step)
  }

  /** The events of the windows starting at `p`, `p + step`, ...: the
      window start plus `np.argmax` of the marked window. */
  function EventsFrom(s: seq<int>, step: nat, p: nat): seq<int>
    requires step > 0
  {
    EventsOf(WindowEvents(s, step), |s|, step, p)
  }

  /** The event rule of the windows of `s`. */
  function WindowEvents(s: seq<int>, step: nat): nat -> int
    requires step > 0
  {
    (q: nat) => WindowEvent(s, step, q)
  }

  /** The event of the window starting at `p` (`p` itself past the end of
      the signal, where there is no window). */
  function WindowEvent(s: seq<int>, step: nat, p: nat): (e: int)
    requires 0 < step
    ensures p < |s| ==> p <= e < ChunkEnd(|s|, p, step)
  {
    if p < |s| then p + FirstArgMax(MarkChunk(s[p..ChunkEnd(|s|, p, step)])) else p
  }

  /** The window structure of `EventsFrom` without the contents. */
  lemma EventsFromUnfold(s: seq<int>, step: nat, p: nat)
    requires step > 0
    ensures p >= |s| ==> EventsFrom(s, step, p) == []
    ensures p < |s| ==> EventsFrom(s, step, p) == [WindowEvent(s, step, p)] + EventsFrom(s, step, p + step)
  {
  }

  /** The signal from `p` on, after the windows have been marked in place. */
  function MarkedFrom(s: seq<int>, step: nat, p: nat): seq<int>
    requires step > 0
    decreases |s| - p
  {
    if p >= |s| then []
    else MarkedWindow(s, step, p) + MarkedFrom(s, step, p + step)
  }

  /** The window starting at `p`, marked. */
  function MarkedWindow(s: seq<int>, step: nat, p: nat): seq<int>
    requires 0 < step && p < |s|
  {
    MarkChunk(s[p..ChunkEnd(|s|, p, step)])
  }

  /** `window.max()` over `a[lo..hi]`. */
  method WindowMax(a: array<int>, lo: nat, hi: nat) returns (m: int)
    requires lo < hi <= a.Length
    ensures m == ChunkMax(a[lo..hi])
  {
    m := a[lo];
    for k := lo + 1 to hi
      invariant m == ChunkMax(a[lo..k])
    {
      assert a[lo..k + 1][..k - lo] == a[lo..k];
      if a[k] > m {
        m := a[k];
      }
    }
  }

  /** `window[window < m] = 0`, written through the view into `a[lo..hi]`. */
  method ZeroBelow(a: array<int>, lo: nat, hi: nat, m: int)
    requires lo <= hi <= a.Length
    modifies a
    ensures forall j :: 0 <= j < a.Length && !(lo <= j < hi) ==> a[j] == old(a[j])
    ensures forall j :: lo <= j < hi ==> a[j] == if old(a[j]) < m then 0 else old(a[j])
  {
    for k := lo to hi
      invariant forall j :: 0 <= j < a.Length && !(lo <= j < k) ==> a[j] == old(a[j])
      invariant forall j :: lo <= j < k ==> a[j] == if old(a[j]) < m then 0 else old(a[j])
    {
      if a[k] < m {
        a[k] := 0;
      }
    }
  }

  /** `window[window > 0] = 1`, written through the view into `a[lo..hi]`. */
  method OnePositive(a: array<int>, lo: nat, hi: nat)
    requires lo <= hi <= a.Length
    modifies a
    ensures forall j :: 0 <= j < a.Length && !(lo <= j < hi) ==> a[j] == old(a[j])
    ensures forall j :: lo <= j < hi ==> a[j] == if old(a[j]) > 0 then 1 else old(a[j])
  {
    for k := lo to hi
      invariant forall j :: 0 <= j < a.Length && !(lo <= j < k) ==> a[j] == old(a[j])
      invariant forall j :: lo <= j < k ==> a[j] == if old(a[j]) > 0 then 1 else old(a[j])
    {
      if a[k] > 0 {
        a[k] := 1;
      }
    }
  }

  /** `np.argmax(window)` over `a[lo..hi]`, as an index into `a`. */
  method WindowArgMax(a: array<int>, lo: nat, hi: nat) returns (best: nat)
    requires lo < hi <= a.Length
    ensures best == lo + FirstArgMax(a[lo..hi])
  {
    best := lo;
    for k := lo + 1 to hi
      invariant lo <= best < k
      invariant best - lo == FirstArgMax(a[lo..k])
    {
      assert a[lo..k + 1][..k - lo] == a[lo..k];
      if a[k] > a[best] {
        best := k;
      }
    }
  }

  /** `s` with the window `s[lo..hi]` marked. */
  function Spliced(s: seq<int>, lo: nat, hi: nat): seq<int>
    requires lo < hi <= |s|
  {
    s[..lo] + MarkChunk(s[lo..hi]) + s[hi..]
  }

  /** One iteration of `search_beat_events`: the masked assignments write
      through the slice view into `a[lo..hi]`, and the event is the first
      index of the marked window's maximum. */
  method MarkWindow(a: array<int>, lo: nat, hi: nat) returns (event: int)
    requires lo < hi <= a.Length
    modifies a
    ensures a[..] == Spliced(old(a[..]), lo, hi)
    ensures event == lo + FirstArgMax(MarkChunk(old(a[..])[lo..hi]))
  {
    ghost var s := a[..];
    var m := WindowMax(a, lo, hi);
    ZeroBelow(a, lo, hi, m);
    ghost var z := a[..];
    OnePositive(a, lo, hi);
    assert forall j :: lo <= j < hi ==> a[..][j] == Mark(s[j], m) by {
      forall j | lo <= j < hi
        ensures a[..][j] == Mark(s[j], m)
      {
        assert a[j] == if z[j] > 0 then 1 else z[j];
        assert z[j] == if s[j] < m then 0 else s[j];
      }
    }
    SpliceMarked(s, a[..], lo, hi, m);
    event := WindowArgMax(a, lo, hi);
  }

  /** A signal whose cells in `[lo, hi)` are marked against the window's
      maximum and whose other cells are unchanged is the spliced signal. */
  lemma SpliceMarked(s: seq<int>, t: seq<int>, lo: nat, hi: nat, m: int)
    requires |t| == |s| && lo < hi <= |s|
    requires m == ChunkMax(s[lo..hi])
    requires forall j :: lo <= j < hi ==> t[j] == Mark(s[j], m)
    requires forall j :: 0 <= j < |s| && !(lo <= j < hi) ==> t[j] == s[j]
    ensures t == Spliced(s, lo, hi)
    ensures t[lo..hi] == MarkChunk(s[lo..hi])
  {
    var c := s[lo..hi];
    var mc := MarkChunk(c);
    forall k | 0 <= k < hi - lo
      ensures t[lo..hi][k] == mc[k]
    {
      assert c[k] == s[lo + k];
      assert t[lo + k] == Mark(s[lo + k], m);
    }
    assert t[lo..hi] == mc;
    assert t[..lo] == s[..lo] && t[hi..] == s[hi..];
    assert t == t[..lo] + t[lo..hi] + t[hi..];
  }

  /** Moving the boundary between processed and pending windows by one
      window keeps the events accumulated so far plus the pending ones equal
      to all events. */
  lemma EventsStep(s: seq<int>, step: nat, p: nat, events: seq<int>, event: int)
    requires step > 0 && p < |s|
    requires event == WindowEvent(s, step, p)
    requires events + EventsFrom(s, step, p) == EventsFrom(s, step, 0)
    ensures (events + [event]) + EventsFrom(s, step, p + step) == EventsFrom(s, step, 0)
  {
    EventsFromUnfold(s, step, p);
    assert (events + [event]) + EventsFrom(s, step, p + step) == events + EventsFrom(s, step, p);
  }

  /** Likewise for the marked signal. */
  lemma MarkedStep(s: seq<int>, step: nat, p: nat, done: seq<int>)
    requires step > 0 && p < |s|
    requires done + MarkedFrom(s, step, p) == MarkedFrom(s, step, 0)
    ensures (done + MarkedWindow(s, step, p)) + MarkedFrom(s, step, p + step) == MarkedFrom(s, step, 0)
  {
    assert MarkedFrom(s, step, p) == MarkedWindow(s, step, p) + MarkedFrom(s, step, p + step);
    assert (done + MarkedWindow(s, step, p)) + MarkedFrom(s, step, p + step) == done + MarkedFrom(s, step, p);
  }

  /** Marking the first pending window of a partly marked signal extends
      the marked prefix by that window. */
  lemma Splice(x: seq<int>, s: seq<int>, lo: nat, hi: nat)
    requires |x| == lo < hi <= |s|
    ensures (x + s[lo..])[lo..hi] == s[lo..hi]
    ensures Spliced(x + s[lo..], lo, hi) == (x + MarkChunk(s[lo..hi])) + s[hi..]
  {
    var t := x + s[lo..];
    assert t[..lo] == x;
    assert t[lo..hi] == s[lo..hi];
    assert t[hi..] == s[hi..];
  }

  /** The state of `search_beat_events` between windows: the windows
      before `p` are marked in place and their events collected. */
  ghost predicate BeatScan(a: seq<int>, s: seq<int>, step: nat, p: nat, marked: seq<int>, events: seq<int>)
    requires step > 0
  {
    && |a| == |s|
    && |marked| == Min(p, |s|)
    && a == marked + s[|marked|..]
    && marked + MarkedFrom(s, step, p) == MarkedFrom(s, step, 0)
    && events + EventsFrom(s, step, p) == EventsFrom(s, step, 0)
  }

  /** One iteration of `search_beat_events`. */
  method ScanWindow(a: array<int>, step: nat, p: nat, ghost s: seq<int>, ghost marked: seq<int>, events: seq<int>)
    returns (events': seq<int>, ghost marked': seq<int>)
    requires step > 0 && p < a.Length
    requires BeatScan(a[..], s, step, p, marked, events)
    modifies a
    ensures BeatScan(a[..], s, step, p + step, marked', events')
  {
    var hi := ChunkEnd(a.Length, p, step);
    ghost var before := a[..];
    var event := MarkWindow(a, p, hi);
    ScanStep(before, a[..], s, step, p, marked, events, event);
    events' := events + [event];
    marked' := marked + MarkedWindow(s, step, p);
  }

  /** Marking the window at `p` and collecting its event moves the scan
      state one window on. */
  lemma ScanStep(before: seq<int>, after: seq<int>, s: seq<int>, step: nat, p: nat,
                 marked: seq<int>, events: seq<int>, event: int)
    requires step > 0 && p < |s|
    requires BeatScan(before, s, step, p, marked, events)
    requires after == Spliced(before, p, ChunkEnd(|s|, p, step))
    requires event == p + FirstArgMax(MarkChunk(before[p..ChunkEnd(|s|, p, step)]))
    ensures BeatScan(after, s, step, p + step, marked + MarkedWindow(s, step, p), events + [event])
  {
    var hi := ChunkEnd(|s|, p, step);
    Splice(marked, s, p, hi);
    assert event == WindowEvent(s, step, p);
    EventsStep(s, step, p, events, event);
    MarkedStep(s, step, p, marked);
  }

  /** `search_beat_events`: one event per window of `frame_rate // 2`
      samples; the windows are rewritten in place in the caller's array. */
  method SearchBeatEvents(a: array<int>, frameRate: nat) returns (events: seq<int>)
    requires frameRate / 2 > 0
    modifies a
    ensures a[..] == MarkedFrom(old(a[..]), frameRate / 2, 0)
    ensures events == EventsFrom(old(a[..]), frameRate / 2, 0)
  {
    ghost var s := a[..];
    var stepSize := frameRate / 2;
    events := [];
    var stepStart := 0;
    ghost var marked: seq<int> := [];
    while stepStart < a.Length
      invariant BeatScan(a[..], s, stepSize, stepStart, marked, events)
      decreases a.Length - stepStart
    {
      events, marked := ScanWindow(a, stepSize, stepStart, s, marked, events);
      stepStart := stepStart + stepSize;
    }
    assert EventsFrom(s, stepSize, stepStart) == [];
    assert MarkedFrom(s, stepSize, stepStart) == [];
    assert s[|marked|..] == [];
  }

  /** Number of windows `range(p, n, step)` visits. */
  function Windows(n: nat, step: nat, p: nat): nat
    requires step > 0
    decreases n - p
  {
    if p >= n then 0 else 1 + Windows(n, step, p + step)
  }

  /** `range(p, n, step)` visits ceil((n - p) / step) windows: `k` of them
      with `(k - 1) * step < n - p <= k * step`, and none when `p >= n`. */
  lemma {:induction false} WindowsCount(n: nat, step: nat, p: nat)
    requires step > 0
    ensures p >= n ==> Windows(n, step, p) == 0
    ensures p < n ==> Windows(n, step, p) >= 1
                      && p + (Windows(n, step, p) - 1) * step < n <= p + Windows(n, step, p) * step
    decreases n - p
  {
    if p < n {
      WindowsCount(n, step, p + step);
      var r := Windows(n, step, p + step);
      if p + step < n {
        assert (r - 1) * step + step == r * step;
        assert r * step + step == (r + 1) * step;
      }
    }
  }

  /** One event per window. */
  lemma {:induction false} EventCount(ev: nat -> int, n: nat, step: nat, p: nat)
    requires step > 0
    ensures |EventsOf(ev, n, step, p)| == Windows(n, step, p)
    decreases n - p
  {
    if p < n {
      EventCount(ev, n, step, p + step);
    }
  }

  /** Event `j` lies in window `j`: `[p + j * step, min(p + (j + 1) * step, len))`. */
  lemma EventInWindow(s: seq<int>, step: nat, p: nat, j: nat)
    requires step > 0
    requires j < |EventsFrom(s, step, p)|
    ensures p + j * step <= EventsFrom(s, step, p)[j] < Min(p + (j + 1) * step, |s|)
  {
    EventNth(WindowEvents(s, step), |s|, step, p, j);
    OffsetIsProduct(j, step);
    MulPred(j + 1, step);
  }

  /** `j * step`, by repeated addition. */
  function Offset(j: nat, step: nat): nat
  {
    if j == 0 then 0 else Offset(j - 1, step) + step
  }

  lemma {:induction false} OffsetIsProduct(j: nat, step: nat)
    ensures Offset(j, step) == j * step
  {
    if j > 0 {
      OffsetIsProduct(j - 1, step);
      MulPred(j, step);
    }
  }

  /** Event `j` is the event of the window starting `j` windows after `p`. */
  lemma {:induction false} EventNth(ev: nat -> int, n: nat, step: nat, p: nat, j: nat)
    requires step > 0
    requires j < |EventsOf(ev, n, step, p)|
    ensures p + Offset(j, step) < n
    ensures EventsOf(ev, n, step, p)[j] == ev(p + Offset(j, step))
    decreases j
  {
    if j > 0 {
      EventNth(ev, n, step, p + step, j - 1);
    }
  }

  /** When a window's maximum is positive the marking leaves a 0/1 indicator
      of the maximum, and the event is the earliest index of the maximum. */
  lemma PositiveWindowEvent(c: seq<int>)
    requires |c| > 0 && ChunkMax(c) > 0
    ensures forall k :: 0 <= k < |c| ==> MarkChunk(c)[k] == if c[k] == ChunkMax(c) then 1 else 0
    ensures c[FirstArgMax(MarkChunk(c))] == ChunkMax(c)
    ensures forall k :: 0 <= k < FirstArgMax(MarkChunk(c)) ==> c[k] < ChunkMax(c)
  {
    var m := ChunkMax(c);
    var mc := MarkChunk(c);
    forall k | 0 <= k < |c|
      ensures mc[k] == if c[k] == m then 1 else 0
    {
      assert mc[k] == Mark(c[k], m);
    }
    var f := FirstArgMax(c);
    assert c[f] == m;
    forall j | 0 <= j < f
      ensures mc[j] < mc[f]
    {
      assert c[j] < c[f];
    }
    FirstArgMaxUnique(mc, f);
  }

  /** A window whose samples are all negative gets its event at a position
      that is not its maximum: the marking turns the smaller samples into 0,
      which then exceeds the (negative) maximum. */
  lemma NegativeWindowEvent()
    ensures MarkChunk([-3, -5]) == [-3, 0]
    ensures FirstArgMax(MarkChunk([-3, -5])) == 1 && FirstArgMax([-3, -5]) == 0
  {
    assert ChunkMax([-3, -5]) == -3;
    assert MarkChunk([-3, -5]) == [-3, 0];
  }

  // ---------------------------------------------------------------------
  // bpm_container

  /** The matches of event `e` in candidate `q`'s rows; none for a list
      index past the last candidate. */
  function Cell(pattern: Grid, q: nat, e: int): seq<int>
  {
    if q < |pattern| then Matches(pattern[q], e) else []
  }

  /** The (candidate, row) coordinates `np.where` reports for the matching
      entries of candidate `q`: one pair per matching entry, row by row. */
  function RowPairs(cand: seq<seq<int>>, q: nat, e: int): (r: seq<(nat, nat)>)
    ensures forall j :: 0 <= j < |r| ==> r[j].0 == q
  {
    if |cand| == 0 then []
    else RowPairs(cand[..|cand| - 1], q, e) + Repeat<(nat, nat)>((q, |cand| - 1), RowHits(cand[|cand| - 1], e))
  }

  /** The first two coordinate arrays of `np.where(...)` over the whole grid,
      paired, in row-major order. */
  function Hits(pattern: Grid, e: int): (r: seq<(nat, nat)>)
    ensures forall j :: 0 <= j < |r| ==> r[j].0 < |pattern|
  {
    if |pattern| == 0 then []
    else Hits(pattern[..|pattern| - 1], e) + RowPairs(pattern[|pattern| - 1], |pattern| - 1, e)
  }

  /** The row indices of the pairs of `h` that belong to candidate `q`, in
      order: what the appends deliver to that candidate's list. */
  function Select(h: seq<(nat, nat)>, q: nat): seq<int>
  {
    if |h| == 0 then []
    else Select(h[..|h| - 1], q) + (if h[|h| - 1].0 == q then [h[|h| - 1].1 as int] else [])
  }

  lemma {:induction false} SelectAppend(h1: seq<(nat, nat)>, h2: seq<(nat, nat)>, q: nat)
    ensures Select(h1 + h2, q) == Select(h1, q) + Select(h2, q)
    decreases |h2|
  {
    if |h2| > 0 {
      var h := h1 + h2;
      assert h[..|h| - 1] == h1 + h2[..|h2| - 1];
      SelectAppend(h1, h2[..|h2| - 1], q);
    } else {
      assert h1 + h2 == h1;
    }
  }

  lemma {:induction false} SelectRepeat(q': nat, x: nat, k: nat, q: nat)
    ensures Select(Repeat<(nat, nat)>((q', x), k), q) == if q == q' then Repeat<int>(x, k) else []
    decreases k
  {
    if k > 0 {
      assert Repeat<(nat, nat)>((q', x), k)[..k - 1] == Repeat<(nat, nat)>((q', x), k - 1);
      SelectRepeat(q', x, k - 1, q);
    }
  }

  lemma {:induction false} SelectRowPairs(cand: seq<seq<int>>, q': nat, e: int, q: nat)
    ensures Select(RowPairs(cand, q', e), q) == if q == q' then Matches(cand, e) else []
    decreases |cand|
  {
    if |cand| > 0 {
      var last := |cand| - 1;
      assert RowPairs(cand, q', e) == RowPairs(cand[..last], q', e) + Repeat<(nat, nat)>((q', last), RowHits(cand[last], e));
      assert Matches(cand, e) == Matches(cand[..last], e) + Repeat<int>(last, RowHits(cand[last], e));
      SelectRowPairs(cand[..last], q', e, q);
      SelectAppend(RowPairs(cand[..last], q', e), Repeat<(nat, nat)>((q', last), RowHits(cand[last], e)), q);
      SelectRepeat(q', last, RowHits(cand[last], e), q);
    }
  }

  /** Collecting the appends of one event by candidate gives each candidate
      exactly its matches. */
  lemma {:induction false} SelectHits(pattern: Grid, e: int, q: nat)
    ensures Select(Hits(pattern, e), q) == Cell(pattern, q, e)
    decreases |pattern|
  {
    if |pattern| > 0 {
      var last := |pattern| - 1;
      assert Hits(pattern, e) == Hits(pattern[..last], e) + RowPairs(pattern[last], last, e);
      SelectHits(pattern[..last], e, q);
      SelectAppend(Hits(pattern[..last], e), RowPairs(pattern[last], last, e), q);
      SelectRowPairs(pattern[last], last, e, q);
    }
  }

  /** The inner loop of `bpm_container` for event `i`: each reported match
      appends its row index to the list of its candidate. */
  method AppendMatches(c0: seq<seq<int>>, n: nat, steps: nat, i: nat, found: seq<(nat, nat)>)
    returns (c: seq<seq<int>>)
    requires |c0| == n * steps && i < n
    requires forall j :: 0 <= j < |found| ==> found[j].0 < steps
    ensures |c| == n * steps
    ensures forall i', q :: 0 <= i' < n && i' != i && 0 <= q < steps ==>
              c[Idx(n, steps, i', q)] == c0[Idx(n, steps, i', q)]
    ensures forall q :: 0 <= q < steps ==> c[Idx(n, steps, i, q)] == c0[Idx(n, steps, i, q)] + Select(found, q)
  {
    c := c0;
    for x := 0 to |found|
      invariant |c| == n * steps
      invariant forall i', q :: 0 <= i' < n && i' != i && 0 <= q < steps ==>
                  c[Idx(n, steps, i', q)] == c0[Idx(n, steps, i', q)]
      invariant forall q :: 0 <= q < steps ==> c[Idx(n, steps, i, q)] == c0[Idx(n, steps, i, q)] + Select(found[..x], q)
    {
      var q := found[x].0;
      var k := Idx(n, steps, i, q);
      forall i', q' | 0 <= i' < n && 0 <= q' < steps && (i' != i || q' != q)
        ensures Idx(n, steps, i', q') != k
      {
        IdxDistinct(n, steps, i', q', i, q);
      }
      assert found[..x + 1][..x] == found[..x];
      c := c[k := c[k] + [found[x].1]];
    }
    assert found[..|found|] == found;
  }

  /** `bpm_container`: `n * steps` lists seeded with 0; list `i * steps + q`
      receives, for event `i`, the row index of every entry of candidate `q`
      within 20 samples of the event. Candidates beyond the grid's last get
      nothing; a grid with more candidates than `steps` would write past the
      container, so the caller keeps the grid within `steps`. */
  method BpmContainer(beatEvents: seq<int>, bpmPattern: Grid, steps: nat) returns (c: seq<seq<int>>)
    requires |bpmPattern| <= steps
    ensures |c| == |beatEvents| * steps
    ensures forall i, q :: 0 <= i < |beatEvents| && 0 <= q < steps ==>
              c[Idx(|beatEvents|, steps, i, q)] == [0] + Cell(bpmPattern, q, beatEvents[i])
  {
    var n := |beatEvents|;
    c := seq(n * steps, _ => [0]);
    for i := 0 to n
      invariant |c| == n * steps
      invariant forall i', q :: 0 <= i' < i && 0 <= q < steps ==>
                  c[Idx(n, steps, i', q)] == [0] + Cell(bpmPattern, q, beatEvents[i'])
      invariant forall i', q :: i <= i' < n && 0 <= q < steps ==> c[Idx(n, steps, i', q)] == [0]
    {
      var found := Hits(bpmPattern, beatEvents[i]);
      c := AppendMatches(c, n, steps, i, found);
      forall q | 0 <= q < steps
        ensures Select(found, q) == Cell(bpmPattern, q, beatEvents[i])
      {
        SelectHits(bpmPattern, beatEvents[i], q);
      }
    }
  }

  // ---------------------------------------------------------------------
  // wrap_bpm_container

  /** `filter(lambda num: num != 0, w)`. */
  function NonZero(s: seq<int>): seq<int>
  {
    if |s| == 0 then []
    else NonZero(s[..|s| - 1]) + (if s[|s| - 1] != 0 then [s[|s| - 1]] else [])
  }

  lemma {:induction false} NonZeroAppend(a: seq<int>, b: seq<int>)
    ensures NonZero(a + b) == NonZero(a) + NonZero(b)
    decreases |b|
  {
    if |b| > 0 {
      assert (a + b)[..|a + b| - 1] == a + b[..|b| - 1];
      NonZeroAppend(a, b[..|b| - 1]);
    } else {
      assert a + b == a;
    }
  }

  /** Filtering removes every 0 and keeps every other value as often as it
      occurs. */
  lemma {:induction false} NonZeroKeeps(s: seq<int>, v: int)
    ensures 0 !in NonZero(s)
    ensures v != 0 ==> multiset(NonZero(s))[v] == multiset(s)[v]
    decreases |s|
  {
    if |s| > 0 {
      var init := s[..|s| - 1];
      var x := s[|s| - 1];
      NonZeroKeeps(init, v);
      assert s == init + [x];
      assert multiset(s) == multiset(init) + multiset{x};
      if x != 0 {
        assert NonZero(s) == NonZero(init) + [x];
        assert multiset(NonZero(s)) == multiset(NonZero(init)) + multiset{x};
      } else {
        assert NonZero(s) == NonZero(init);
      }
    }
  }

  /** The first index holding `v` (`list.index`). */
  function FirstIndex(s: seq<int>, v: int): (i: nat)
    requires v in s
    ensures i < |s| && s[i] == v
    ensures forall j :: 0 <= j < i ==> s[j] != v
  {
    if s[0] == v then 0
    else
      assert v in s[1..] by {
        assert s == [s[0]] + s[1..];
      }
      FirstIndex(s[1..], v) + 1
  }

  /** `list.remove(v)`: drops the first occurrence of `v`, keeping the rest
      of the list in order. */
  function RemoveFirst(s: seq<int>, v: int): (r: seq<int>)
    requires v in s
    ensures |r| == |s| - 1
    ensures forall k :: 0 <= k < FirstIndex(s, v) ==> r[k] == s[k]
    ensures forall k :: FirstIndex(s, v) <= k < |r| ==> r[k] == s[k + 1]
  {
    assert s == [s[0]] + s[1..];
    if s[0] == v then s[1..] else [s[0]] + RemoveFirst(s[1..], v)
  }

  /** `list.remove(v)` takes away exactly one copy of `v`. */
  lemma RemoveFirstCount(s: seq<int>, v: int)
    requires v in s
    ensures multiset(RemoveFirst(s, v)) == multiset(s) - multiset{v}
  {
    var i := FirstIndex(s, v);
    assert RemoveFirst(s, v) == s[..i] + s[i + 1..];
    DropAt(s, i);
  }

  /** Dropping index `i` takes away one copy of `s[i]`. */
  lemma DropAt(s: seq<int>, i: nat)
    requires i < |s|
    ensures multiset(s[..i] + s[i + 1..]) == multiset(s) - multiset{s[i]}
  {
    assert s == s[..i] + [s[i]] + s[i + 1..];
  }

  /** `wrap_bpm_container`: list `q` of the result gathers the container
      lists `q`, `q + steps`, `q + 2 * steps`, ... (the slice
      `container[q::steps]`) behind a seed 0, removes the seed and filters
      out every remaining 0. */
  method WrapBpmContainer(c: seq<seq<int>>, steps: nat) returns (wrapped: seq<seq<int>>)
    requires steps > 0
    ensures |wrapped| == steps
    ensures forall q :: 0 <= q < steps ==> wrapped[q] == NonZero(Flatten(Stride(c, q, steps)))
  {
    wrapped := seq(steps, _ => [0]);
    for q := 0 to steps
      invariant |wrapped| == steps
      invariant forall q' :: 0 <= q' < q ==> wrapped[q'] == NonZero(Flatten(Stride(c, q', steps)))
      invariant forall q' :: q <= q' < steps ==> wrapped[q'] == [0]
    {
      var w := wrapped[q] + Flatten(Stride(c, q, steps));
      w := RemoveFirst(w, 0);
      wrapped := wrapped[q := NonZero(w)];
    }
  }

  /** The votes candidate `q` collects over `events` (none past the grid's
      last candidate). */
  function CandVotes(pattern: Grid, q: nat, events: seq<int>): seq<int>
  {
    if q < |pattern| then Votes(pattern[q], events) else []
  }

  /** The lists `q + i * steps` of a container, gathered and filtered, are
      the filtered concatenation of what follows their seeds. */
  lemma {:induction false} StrideSeeded(c: seq<seq<int>>, n: nat, steps: nat, q: nat,
                                        cells: seq<seq<int>>, i: nat, pos: nat)
    requires |c| == n * steps && |cells| == n
    requires q < steps
    requires forall i' {:trigger Idx(n, steps, i', q)} :: 0 <= i' < n ==> c[Idx(n, steps, i', q)] == [0] + cells[i']
    requires i <= n
    requires i < n ==> pos == Idx(n, steps, i, q)
    requires i == n ==> pos >= |c|
    ensures NonZero(Flatten(Stride(c, pos, steps))) == NonZero(Flatten(cells[i..]))
    decreases n - i
  {
    if i == n {
      assert cells[i..] == [];
    } else {
      IdxNext(n, steps, i, q);
      StrideSeeded(c, n, steps, q, cells, i + 1, pos + steps);
      var rest := Flatten(Stride(c, pos + steps, steps));
      var later := Flatten(cells[i + 1..]);
      assert Stride(c, pos, steps) == [c[pos]] + Stride(c, pos + steps, steps);
      FlattenCons(c[pos], Stride(c, pos + steps, steps));
      assert cells[i..] == [cells[i]] + cells[i + 1..];
      FlattenCons(cells[i], cells[i + 1..]);
      SeededStep(cells[i], rest, later);
    }
  }

  /** Dropping a seed 0 in front of a cell does not change the filtered
      concatenation. */
  lemma SeededStep(cell: seq<int>, rest: seq<int>, later: seq<int>)
    requires NonZero(rest) == NonZero(later)
    ensures NonZero(([0] + cell) + rest) == NonZero(cell + later)
  {
    var seeded := [0] + cell;
    NonZeroAppend(seeded, rest);
    NonZeroAppend([0], cell);
    assert [0][..0] == [];
    assert NonZero([0]) == [];
    assert NonZero(seeded) == NonZero(cell);
    NonZeroAppend(cell, later);
    calc {
      NonZero(seeded + rest);
      NonZero(seeded) + NonZero(rest);
      NonZero(cell) + NonZero(later);
      NonZero(cell + later);
    }
  }

  /** Wrapping the container of `bpm_container` gives each candidate its
      votes over all events with every 0 removed: genuine votes for row 0
      are dropped together with the seeds. */
  lemma WrapIsVotes(c: seq<seq<int>>, events: seq<int>, pattern: Grid, steps: nat, q: nat)
    requires |c| == |events| * steps
    requires forall i, q' :: 0 <= i < |events| && 0 <= q' < steps ==>
               c[Idx(|events|, steps, i, q')] == [0] + Cell(pattern, q', events[i])
    requires q < steps
    ensures NonZero(Flatten(Stride(c, q, steps))) == NonZero(CandVotes(pattern, q, events))
  {
    var n := |events|;
    var cells := seq(n, i requires 0 <= i < n => Cell(pattern, q, events[i]));
    if n > 0 {
      assert Idx(n, steps, 0, q) == q;
    }
    StrideSeeded(c, n, steps, q, cells, 0, q);
    assert cells[0..] == cells;
    CellsAreVotes(pattern, q, events);
  }

  /** The cells of candidate `q`, event by event, concatenate to its votes. */
  lemma CellsAreVotes(pattern: Grid, q: nat, events: seq<int>)
    ensures Flatten(seq(|events|, i requires 0 <= i < |events| => Cell(pattern, q, events[i])))
              == CandVotes(pattern, q, events)
  {
    var n := |events|;
    var cells := seq(n, i requires 0 <= i < n => Cell(pattern, q, events[i]));
    if q < |pattern| {
      VotesFlatten(pattern[q], events);
      assert cells == seq(n, i requires 0 <= i < n => Matches(pattern[q], events[i]));
    } else {
      EmptyCells(cells);
    }
  }

  // ---------------------------------------------------------------------
  // finalise_bpm_container

  /** The score of a non-empty list: how often its smallest most frequent
      value occurs (`values[0]` of `np.unique` filtered by the largest
      count), provided that value is positive; 0 otherwise. */
  function PyScore(w: seq<int>): int
    requires |w| > 0
  {
    var v := SmallestMode(w);
    if v > 0 then Mult(w, v) else 0
  }

  /** The scores of `finalise_bpm_container`, one per list and 0 for the
      positions past the last list, or `None` where `counts.max()` raises
      ValueError on an empty list. */
  function PyFinalise(wrapped: seq<seq<int>>, steps: nat): Option<seq<int>>
    requires |wrapped| <= steps
  {
    if exists i :: 0 <= i < |wrapped| && |wrapped[i]| == 0 then None
    else Some(seq(steps, i requires 0 <= i < steps => if i < |wrapped| then PyScore(wrapped[i]) else 0))
  }

  method FinaliseBpmContainer(wrapped: seq<seq<int>>, steps: nat) returns (r: Option<seq<int>>)
    requires |wrapped| <= steps
    ensures r == PyFinalise(wrapped, steps)
  {
    var final := seq(steps, _ => 0);
    for i := 0 to |wrapped|
      invariant |final| == steps
      invariant forall j :: 0 <= j < i ==> |wrapped[j]| > 0 && final[j] == PyScore(wrapped[j])
      invariant forall j :: i <= j < steps ==> final[j] == 0
    {
      var w := wrapped[i];
      if |w| == 0 {
        // `counts.max()` of an empty array
        return None;
      }
      var v := SmallestMode(w);
      if v > 0 {
        final := final[i := Mult(w, v)];
      }
    }
    assert final == seq(steps, i requires 0 <= i < steps => if i < |wrapped| then PyScore(wrapped[i]) else 0);
    r := Some(final);
  }

  /** On a list of positive votes the score is the largest multiplicity, so
      it lies between 1 and the list's length. */
  lemma PositiveScore(w: seq<int>)
    requires |w| > 0
    requires forall j :: 0 <= j < |w| ==> w[j] > 0
    ensures PyScore(w) == MaxMult(w)
    ensures 1 <= PyScore(w) <= |w|
  {
    SmallestModeIsMode(w, w[0]);
    MaxMultBounds(w);
  }

  // ---------------------------------------------------------------------
  // get_bpm_wrapped, check_bpm_wrapped, get_bpm_pattern_fine_window

  /** `np.where(final == np.amax(final))`: the indices of the largest score,
      ascending; its first element is the first index of the maximum. */
  function GetBpmWrapped(scores: seq<int>): (r: seq<nat>)
    requires |scores| > 0
    ensures |r| > 0 && r[0] == FirstArgMax(scores)
    ensures forall j :: 0 <= j < |r| ==> r[j] < |scores| && scores[r[j]] == scores[FirstArgMax(scores)]
    ensures forall j :: 0 <= j < |scores| && scores[j] == scores[FirstArgMax(scores)] ==> j in r
  {
    var k := FirstArgMax(scores);
    var r := IndicesOf(scores, scores[k]);
    assert k in r;
    r
  }

  /** `check_bpm_wrapped` as written: it rejects when more than one score
      equals the winner's INDEX (not its score), or when the winner's score
      is below 6. */
  predicate CheckBpmWrapped(winners: seq<nat>, scores: seq<int>)
    requires |winners| > 0 && winners[0] < |scores|
  {
    var idx := winners[0];
    !(Mult(scores, idx) > 1 || scores[idx] < 6)
  }

  /** The gate the comparison evidently stands for: a single winner whose
      score is at least 6. */
  predicate UniqueWinnerGate(scores: seq<int>)
    requires |scores| > 0
  {
    |GetBpmWrapped(scores)| == 1 && scores[FirstArgMax(scores)] >= 6
  }

  /** The corrected gate accepts exactly when the largest score is reached
      at one index only and is at least 6. */
  lemma UniqueWinnerGateSpec(scores: seq<int>)
    requires |scores| > 0
    ensures UniqueWinnerGate(scores) <==>
              (forall j :: 0 <= j < |scores| && j != FirstArgMax(scores) ==> scores[j] < scores[FirstArgMax(scores)])
              && scores[FirstArgMax(scores)] >= 6
  {
    var k := FirstArgMax(scores);
    var r := GetBpmWrapped(scores);
    if |r| > 1 {
      assert r[0] < r[1];
    }
  }

  /** As written, the gate accepts the tie `[0, 7, 7]`, which the corrected
      gate rejects. */
  lemma CheckAcceptsTie()
    ensures CheckBpmWrapped(GetBpmWrapped([0, 7, 7]), [0, 7, 7])
    ensures !UniqueWinnerGate([0, 7, 7])
  {
    var a := [0, 7, 7];
    FirstArgMaxUnique(a, 1);
    assert multiset(a)[1] == 0;
    UniqueWinnerGateSpec(a);
    assert a[2] == a[1];
  }

  /** As written, the gate rejects the unique winner of `[9, 0, 0]`, which
      the corrected gate accepts. */
  lemma CheckRejectsUniqueWinner()
    ensures !CheckBpmWrapped(GetBpmWrapped([9, 0, 0]), [9, 0, 0])
    ensures UniqueWinnerGate([9, 0, 0])
  {
    var b := [9, 0, 0];
    FirstArgMaxUnique(b, 0);
    assert multiset(b)[0] == 2;
    UniqueWinnerGateSpec(b);
  }

  /** `get_bpm_pattern_fine_window`: `start = int(idx / 4 / 0.05 - 20)` and
      `end = start + 40`, the quotients taken exactly. */
  function FineWindow(idx: nat): (w: (int, int))
    ensures w.0 as real == idx as real / 4.0 / 0.05 - 20.0
    ensures w.1 == w.0 + 40
  {
    (5 * idx - 20, 5 * idx + 20)
  }

  /** A Python slice bound: negative values count from the end, and the
      result is clipped to `[0, n]`. */
  function SliceBound(i: int, n: nat): (r: nat)
    ensures r <= n
  {
    if i < 0 then (if i + n < 0 then 0 else i + n) else if i > n then n else i
  }

  /** The Python slice `s[start:end]`. */
  function PySlice<T>(s: seq<T>, start: int, end: int): (r: seq<T>)
    ensures |r| <= |s|
    ensures start <= end ==> |r| <= end - start
  {
    var a := SliceBound(start, |s|);
    var b := SliceBound(end, |s|);
    if a < b then s[a..b] else []
  }

  /** The fine grid the second pass searches: the 40 fine candidates from
      `5 * idx - 20` when they all exist, and nothing at all for a coarse
      winner below 4, whose negative start wraps to the end of the grid. */
  lemma FineSlice<T>(fine: seq<T>, idx: nat)
    ensures 4 <= idx && 5 * idx + 20 <= |fine| ==>
              PySlice(fine, FineWindow(idx).0, FineWindow(idx).1) == fine[5 * idx - 20..5 * idx + 20]
    ensures idx < 4 && |fine| >= 40 ==> PySlice(fine, FineWindow(idx).0, FineWindow(idx).1) == []
  {
  }

  /** `bpm_wrapped_to_float_str` before rounding to two decimals: the tempo
      of fine candidate `5 * idx - 20 + fineIdx`, i.e. of the row the fine
      pass voted for when the window starts inside the grid. */
  function PyBpm(startBpm: int, idx: nat, fineIdx: nat): (b: real)
    ensures idx >= 4 ==> b == PyPatterns.FineTempo(startBpm, 5 * idx - 20 + fineIdx)
  {
    ((idx as real / 4.0) + startBpm as real - 10.0) - 1.0 + fineIdx as real * 0.05
  }

  /** The fine window of coarse winner `idx` holds, at offset 25, the fine
      candidate of exactly the coarse winner's tempo. */
  lemma WindowHoldsCoarseTempo(startBpm: int, idx: nat)
    requires idx >= 4
    ensures PyPatterns.FineTempo(startBpm, FineWindow(idx).0 + 25) == PyPatterns.CoarseTempo(startBpm, idx)
  {
  }

  // ---------------------------------------------------------------------
  // search_bpm

  /** Outcome of a search: `search_bpm` returns 0 (or falls off its loop)
      when it finds nothing. */
  datatype Estimate = NoEstimate | Estimate(bpm: real)

  /** The scores of one pass over `pattern` with `steps` lists per event:
      every candidate's non-zero votes, finalised. */
  function PyScores(events: seq<int>, pattern: Grid, steps: nat): Option<seq<int>>
    requires |pattern| <= steps
  {
    PyFinalise(seq(steps, q requires 0 <= q < steps => NonZero(CandVotes(pattern, q, events))), steps)
  }

  /** One pass of the loop in `search_bpm`: container, wrap, finalise. */
  method Pass(events: seq<int>, pattern: Grid, steps: nat) returns (r: Option<seq<int>>)
    requires 0 < steps && |pattern| <= steps
    ensures r == PyScores(events, pattern, steps)
  {
    var c := BpmContainer(events, pattern, steps);
    var wrapped := WrapBpmContainer(c, steps);
    forall q | 0 <= q < steps
      ensures wrapped[q] == NonZero(CandVotes(pattern, q, events))
    {
      WrapIsVotes(c, events, pattern, steps, q);
    }
    assert wrapped == seq(steps, q requires 0 <= q < steps => NonZero(CandVotes(pattern, q, events)));
    r := FinaliseBpmContainer(wrapped, steps);
  }

  /** The gate a search applies to the scores of each pass:
      `check_bpm_wrapped` as the program writes it, or the corrected
      unique-winner gate. */
  datatype Gate = AsWrittenGate | CorrectedGate

  predicate Passes(gate: Gate, scores: seq<int>)
    requires |scores| > 0
  {
    match gate
    case AsWrittenGate => CheckBpmWrapped(GetBpmWrapped(scores), scores)
    case CorrectedGate => UniqueWinnerGate(scores)
  }

  /** The whole search on the events of a signal: a coarse pass over
      `coarseSteps` candidates, the gate, the fine window around the coarse
      winner, a fine pass over 40 candidates, the gate again and the tempo
      of the fine winner. `search_bpm` is this search with `AsWrittenGate`. */
  function PySearch(gate: Gate, events: seq<int>, coarse: Grid, fine: Grid, coarseSteps: nat, startBpm: int): Estimate
    requires 0 < coarseSteps && |coarse| <= coarseSteps
  {
    match PyScores(events, coarse, coarseSteps)
    case None => NoEstimate
    case Some(cs) =>
      var winners := GetBpmWrapped(cs);
      if !Passes(gate, cs) then NoEstimate
      // with `coarse_steps == 40` the second iteration takes the coarse branch again
      // and the loop ends without a return
      else if coarseSteps == 40 then NoEstimate
      else
        var w := FineWindow(winners[0]);
        match PyScores(events, PySlice(fine, w.0, w.1), 40)
        case None => NoEstimate
        case Some(fs) =>
          var fineWinners := GetBpmWrapped(fs);
          if !Passes(gate, fs) then NoEstimate
          else Estimate(PyBpm(startBpm, winners[0], fineWinners[0]))
  }

  /** A pass over fewer candidates than lists leaves the last lists empty,
      which `finalise_bpm_container` turns into ValueError. */
  lemma ShortGridFails(events: seq<int>, pattern: Grid, steps: nat)
    requires |pattern| < steps
    ensures PyScores(events, pattern, steps) == None
  {
    var wrapped := seq(steps, q requires 0 <= q < steps => NonZero(CandVotes(pattern, q, events)));
    assert wrapped[|pattern|] == [];
  }

  /** A fine pass that yields scores at all had a full window of 40 fine
      candidates: the coarse winner is at least 4 and its window
      `[5 * idx - 20, 5 * idx + 20)` lies inside the fine grid. */
  lemma FineWindowInside(events: seq<int>, fine: Grid, idx: nat)
    requires |fine| >= 40
    requires PyScores(events, PySlice(fine, FineWindow(idx).0, FineWindow(idx).1), 40).Some?
    ensures 4 <= idx && 5 * idx + 20 <= |fine|
    ensures PySlice(fine, FineWindow(idx).0, FineWindow(idx).1) == fine[5 * idx - 20..5 * idx + 20]
  {
    var fg := PySlice(fine, FineWindow(idx).0, FineWindow(idx).1);
    FineSlice(fine, idx);
    if idx < 4 || 5 * idx + 20 > |fine| {
      ShortGridFails(events, fg, 40);
    }
  }

  /** What an estimate of `PySearch` is made of, under either gate, stated
      over the window the search slices. */
  lemma SearchUnfold(gate: Gate, events: seq<int>, coarse: Grid, fine: Grid, coarseSteps: nat, startBpm: int, b: real)
    requires 0 < coarseSteps && |coarse| <= coarseSteps && |fine| >= 40
    requires PySearch(gate, events, coarse, fine, coarseSteps, startBpm) == Estimate(b)
    ensures PyScores(events, coarse, coarseSteps).Some?
    ensures var cs := PyScores(events, coarse, coarseSteps).value;
            var idx := FirstArgMax(cs);
            var window := PySlice(fine, FineWindow(idx).0, FineWindow(idx).1);
            var fsc := PyScores(events, window, 40);
            && |cs| == coarseSteps && Passes(gate, cs)
            && 4 <= idx && 5 * idx + 20 <= |fine|
            && window == fine[5 * idx - 20..5 * idx + 20]
            && fsc.Some? && |fsc.value| == 40 && Passes(gate, fsc.value)
            && b == PyPatterns.FineTempo(startBpm, 5 * idx - 20 + FirstArgMax(fsc.value))
  {
    var cs := PyScores(events, coarse, coarseSteps).value;
    var winners := GetBpmWrapped(cs);
    assert Passes(gate, cs) && coarseSteps != 40;
    var w := FineWindow(winners[0]);
    var fsc := PyScores(events, PySlice(fine, w.0, w.1), 40);
    assert fsc.Some?;
    FineWindowInside(events, fine, winners[0]);
  }

  /** An estimate of the corrected search comes only from a coarse winner
      `idx >= 4` (the first largest coarse score) whose whole fine window
      `[5 * idx - 20, 5 * idx + 20)` lies inside the fine grid; both winners
      are unique and scored at least 6, and the estimate is the tempo of
      fine candidate `5 * idx - 20 + f` for the fine winner `f`. */
  lemma SearchEstimate(events: seq<int>, coarse: Grid, fine: Grid, coarseSteps: nat, startBpm: int, b: real)
    requires 0 < coarseSteps && |coarse| <= coarseSteps && |fine| >= 40
    requires PySearch(CorrectedGate, events, coarse, fine, coarseSteps, startBpm) == Estimate(b)
    ensures PyScores(events, coarse, coarseSteps).Some?
    ensures var cs := PyScores(events, coarse, coarseSteps).value;
            var idx := FirstArgMax(cs);
            var window := PySlice(fine, FineWindow(idx).0, FineWindow(idx).1);
            var fsc := PyScores(events, window, 40);
            && 4 <= idx && 5 * idx + 20 <= |fine| && cs[idx] >= 6
            && (forall j :: 0 <= j < |cs| && j != idx ==> cs[j] < cs[idx])
            && window == fine[5 * idx - 20..5 * idx + 20]
            && fsc.Some?
            && fsc.value[FirstArgMax(fsc.value)] >= 6
            && (forall j :: 0 <= j < |fsc.value| && j != FirstArgMax(fsc.value) ==>
                  fsc.value[j] < fsc.value[FirstArgMax(fsc.value)])
            && b == PyPatterns.FineTempo(startBpm, 5 * idx - 20 + FirstArgMax(fsc.value))
  {
    SearchUnfold(CorrectedGate, events, coarse, fine, coarseSteps, startBpm, b);
    var cs := PyScores(events, coarse, coarseSteps).value;
    UniqueWinnerGateSpec(cs);
    var idx := FirstArgMax(cs);
    UniqueWinnerGateSpec(PyScores(events, PySlice(fine, FineWindow(idx).0, FineWindow(idx).1), 40).value);
  }

  /** An estimate of `search_bpm` as written: the coarse winner `idx >= 4`
      scores at least 6 and fewer than two coarse scores equal the number
      `idx`; the fine winner `f` likewise scores at least 6 and fewer than
      two fine scores equal `f`; the estimate is the tempo of fine candidate
      `5 * idx - 20 + f`. Nothing requires either winner to be unique. */
  lemma AsWrittenSearchEstimate(events: seq<int>, coarse: Grid, fine: Grid, coarseSteps: nat, startBpm: int, b: real)
    requires 0 < coarseSteps && |coarse| <= coarseSteps && |fine| >= 40
    requires PySearch(AsWrittenGate, events, coarse, fine, coarseSteps, startBpm) == Estimate(b)
    ensures PyScores(events, coarse, coarseSteps).Some?
    ensures var cs := PyScores(events, coarse, coarseSteps).value;
            var idx := FirstArgMax(cs);
            var window := PySlice(fine, FineWindow(idx).0, FineWindow(idx).1);
            var fsc := PyScores(events, window, 40);
            && 4 <= idx && 5 * idx + 20 <= |fine|
            && cs[idx] >= 6 && Mult(cs, idx) <= 1
            && window == fine[5 * idx - 20..5 * idx + 20]
            && fsc.Some?
            && fsc.value[FirstArgMax(fsc.value)] >= 6
            && Mult(fsc.value, FirstArgMax(fsc.value)) <= 1
            && b == PyPatterns.FineTempo(startBpm, 5 * idx - 20 + FirstArgMax(fsc.value))
  {
    SearchUnfold(AsWrittenGate, events, coarse, fine, coarseSteps, startBpm, b);
  }

  /** Once the winner's index exceeds every score, no score can equal it,
      and the gate as written only asks for a score of at least 6: ties at
      the maximum pass. */
  lemma AsWrittenGateIsThreshold(scores: seq<int>)
    requires |scores| > 0
    requires forall j :: 0 <= j < |scores| ==> scores[j] < FirstArgMax(scores)
    ensures Passes(AsWrittenGate, scores) <==> scores[FirstArgMax(scores)] >= 6
  {
    var idx := FirstArgMax(scores);
    assert forall j :: 0 <= j < |scores| ==> scores[j] != idx;
    assert idx !in scores;
  }

  /** The two searches give the same result on every input whose coarse
      scores, and the fine scores of the window the coarse winner selects,
      pass both gates or neither. */
  lemma SearchesAgree(events: seq<int>, coarse: Grid, fine: Grid, coarseSteps: nat, startBpm: int)
    requires 0 < coarseSteps && |coarse| <= coarseSteps
    requires PyScores(events, coarse, coarseSteps).Some? ==>
               var cs := PyScores(events, coarse, coarseSteps).value;
               && |cs| > 0
               && (Passes(AsWrittenGate, cs) <==> Passes(CorrectedGate, cs))
               && var w := FineWindow(FirstArgMax(cs));
                  var fsc := PyScores(events, PySlice(fine, w.0, w.1), 40);
                  fsc.Some? && |fsc.value| > 0 ==>
                    (Passes(AsWrittenGate, fsc.value) <==> Passes(CorrectedGate, fsc.value))
    ensures PySearch(AsWrittenGate, events, coarse, fine, coarseSteps, startBpm)
              == PySearch(CorrectedGate, events, coarse, fine, coarseSteps, startBpm)
  {
  }

  /** The analyzer of BpmAnalizer.py with the grids it loaded for the three
      tempo bands and the band currently searched. */
  class BpmAnalyzer {
    const frameRate: nat
    const coarseSteps: nat
    var startBpm: int
    var bpmPattern: Grid
    var bpmPatternFine: Grid
    const pattern60: Grid
    const patternFine60: Grid
    const pattern130: Grid
    const patternFine130: Grid
    const pattern210: Grid
    const patternFine210: Grid

    /** `__init__` after the six grids are loaded: the 60-160 band is
        selected. */
    constructor(frameRate: nat, startBpm: int, coarseSteps: nat,
                p60: Grid, f60: Grid, p130: Grid, f130: Grid, p210: Grid, f210: Grid)
      ensures this.frameRate == frameRate && this.startBpm == startBpm && this.coarseSteps == coarseSteps
      ensures pattern60 == p60 && patternFine60 == f60 && pattern130 == p130
      ensures patternFine130 == f130 && pattern210 == p210 && patternFine210 == f210
      ensures bpmPattern == p60 && bpmPatternFine == f60
    {
      this.frameRate := frameRate;
      this.startBpm := startBpm;
      this.coarseSteps := coarseSteps;
      pattern60 := p60;
      patternFine60 := f60;
      pattern130 := p130;
      patternFine130 := f130;
      pattern210 := p210;
      patternFine210 := f210;
      bpmPattern := p60;
      bpmPatternFine := f60;
    }

    /** `change_bpm_pattern`: the three band keys select their grid pair and
        base tempo; any other key changes nothing. */
    method ChangeBpmPattern(rangeKey: string)
      modifies this
      ensures rangeKey == "60\U{2013}160" ==>
                bpmPattern == pattern60 && bpmPatternFine == patternFine60 && startBpm == 60
      ensures rangeKey == "130\U{2013}230" ==>
                bpmPattern == pattern130 && bpmPatternFine == patternFine130 && startBpm == 130
      ensures rangeKey == "210\U{2013}300" ==>
                bpmPattern == pattern210 && bpmPatternFine == patternFine210 && startBpm == 210
      ensures rangeKey !in {"60\U{2013}160", "130\U{2013}230", "210\U{2013}300"} ==>
                bpmPattern == old(bpmPattern) && bpmPatternFine == old(bpmPatternFine) && startBpm == old(startBpm)
    {
      if rangeKey == "60\U{2013}160" {
        bpmPattern := pattern60;
        bpmPatternFine := patternFine60;
        startBpm := 60;
      } else if rangeKey == "130\U{2013}230" {
        bpmPattern := pattern130;
        bpmPatternFine := patternFine130;
        startBpm := 130;
      } else if rangeKey == "210\U{2013}300" {
        bpmPattern := pattern210;
        bpmPatternFine := patternFine210;
        startBpm := 210;
      }
    }

    /** `search_bpm`: the beat events overwrite the signal in place, and the
        result is the search on those events, gated by `check_bpm_wrapped`
        as written. The two iterations of
        `for switch_pattern in [coarse_steps, 40]` are written out. */
    method SearchBpm(signal: array<int>) returns (r: Estimate)
      requires frameRate / 2 > 0
      requires 0 < coarseSteps && |bpmPattern| <= coarseSteps
      modifies signal
      ensures signal[..] == MarkedFrom(old(signal[..]), frameRate / 2, 0)
      ensures r == PySearch(AsWrittenGate, EventsFrom(old(signal[..]), frameRate / 2, 0), bpmPattern,
                            bpmPatternFine, coarseSteps, startBpm)
    {
      var pattern := bpmPattern;
      var patternFine := bpmPatternFine;
      var beatEvents := SearchBeatEvents(signal, frameRate);
      var coarse := Pass(beatEvents, pattern, coarseSteps);
      if coarse.None? {
        return NoEstimate;
      }
      var wrappedFull := GetBpmWrapped(coarse.value);
      assert Passes(AsWrittenGate, coarse.value) == CheckBpmWrapped(wrappedFull, coarse.value);
      if !CheckBpmWrapped(wrappedFull, coarse.value) {
        return NoEstimate;
      }
      if coarseSteps == 40 {
        return NoEstimate;
      }
      var window := FineWindow(wrappedFull[0]);
      var fineGrid := PySlice(patternFine, window.0, window.1);
      var fine := Pass(beatEvents, fineGrid, 40);
      if fine.None? {
        return NoEstimate;
      }
      var wrappedFine := GetBpmWrapped(fine.value);
      assert Passes(AsWrittenGate, fine.value) == CheckBpmWrapped(wrappedFine, fine.value);
      if !CheckBpmWrapped(wrappedFine, fine.value) {
        return NoEstimate;
      }
      r := Estimate(PyBpm(startBpm, wrappedFull[0], wrappedFine[0]));
    }
  }
}
