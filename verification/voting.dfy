/** Vocabulary of the template vote shared by both ports: which grid entries
    a beat event matches, and the mode statistics of the collected votes. */
module Voting {
  import opened Common

  /** A grid: candidate, row, entry. */
  type Grid = seq<seq<seq<int>>>

  /** A grid entry `v` matches beat event `e` when it lies within 20
      samples of it, both ends included. */
  predicate InTolerance(v: int, e: int)
  {
    e - 20 <= v <= e + 20
  }

  /** Number of entries of `row` that match `e`. */
  function RowHits(row: seq<int>, e: int): (r: nat)
    ensures r <= |row|
  {
    if |row| == 0 then 0
    else RowHits(row[..|row| - 1], e) + (if InTolerance(row[|row| - 1], e) then 1 else 0)
  }

  /** The votes one candidate gets from event `e`: each row index `x`, in
      ascending order, once per matching entry of row `x`. */
  function Matches(cand: seq<seq<int>>, e: int): seq<int>
  {
    if |cand| == 0 then []
    else Matches(cand[..|cand| - 1], e) + Repeat<int>(|cand| - 1, RowHits(cand[|cand| - 1], e))
  }

  /** One more candidate row appends its row index once per hit. */
  lemma MatchesSnoc(cand: seq<seq<int>>, e: int, x: nat)
    requires x < |cand|
    ensures Matches(cand[..x + 1], e) == Matches(cand[..x], e) + Repeat<int>(x, RowHits(cand[x], e))
    ensures RowHits(cand[x], e) == 0 ==> Matches(cand[..x + 1], e) == Matches(cand[..x], e)
  {
    assert cand[..x + 1][..x] == cand[..x];
    assert cand[..x + 1][x] == cand[x];
    assert Repeat<int>(x, 0) == [];
  }

  /** Multiplicity of `v` in `w`. */
  function Mult(w: seq<int>, v: int): nat
  {
    multiset(w)[v]
  }

  /** Among `w[..k]`, the value of highest multiplicity in `w`, the smallest
      such value on a tie. */
  function ModeOf(w: seq<int>, k: nat): (r: int)
    requires 0 < k <= |w|
    ensures exists j :: 0 <= j < k && w[j] == r
    ensures forall j :: 0 <= j < k ==> Mult(w, w[j]) <= Mult(w, r)
    ensures forall j :: 0 <= j < k && Mult(w, w[j]) == Mult(w, r) ==> r <= w[j]
  {
    if k == 1 then w[0]
    else
      var b := ModeOf(w, k - 1);
      var c := w[k - 1];
      if Mult(w, c) > Mult(w, b) || (Mult(w, c) == Mult(w, b) && c < b) then c else b
  }

  /** The smallest most frequent value of a non-empty list (what
      `np.unique(w, return_counts=True)` filtered by the largest count
      yields first). */
  function SmallestMode(w: seq<int>): int
    requires |w| > 0
  {
    ModeOf(w, |w|)
  }

  /** The largest multiplicity of any value of `w`; 0 for an empty list. */
  function MaxMult(w: seq<int>): nat
  {
    if |w| == 0 then 0 else Mult(w, SmallestMode(w))
  }

  /** The smallest mode occurs in `w`, no value occurs more often and every
      value that occurs as often is at least as large. */
  lemma {:induction false} SmallestModeIsMode(w: seq<int>, v: int)
    requires |w| > 0
    ensures SmallestMode(w) in w
    ensures Mult(w, v) <= Mult(w, SmallestMode(w))
    ensures v in w && Mult(w, v) == Mult(w, SmallestMode(w)) ==> SmallestMode(w) <= v
  {
    var m := SmallestMode(w);
    if v in w {
      var j :| 0 <= j < |w| && w[j] == v;
      assert Mult(w, w[j]) <= Mult(w, m);
    } else {
      assert Mult(w, v) == 0;
    }
  }

  /** For a non-empty list the largest multiplicity lies in `[1, |w|]`, is
      reached by some value, and bounds every value's multiplicity. */
  lemma MaxMultBounds(w: seq<int>)
    requires |w| > 0
    ensures 1 <= MaxMult(w) <= |w|
    ensures exists v :: v in w && Mult(w, v) == MaxMult(w)
    ensures forall v :: Mult(w, v) <= MaxMult(w)
  {
    var m := SmallestMode(w);
    SmallestModeIsMode(w, m);
    assert Mult(w, m) <= |multiset(w)|;
    forall v ensures Mult(w, v) <= MaxMult(w) {
      SmallestModeIsMode(w, v);
    }
  }

  /** The votes of one candidate over a list of events: the matches of each
      event in turn. */
  function Votes(cand: seq<seq<int>>, events: seq<int>): seq<int>
  {
    if |events| == 0 then [] else Matches(cand, events[0]) + Votes(cand, events[1..])
  }

  /** The first index of a largest element (`np.argmax`). */
  function FirstArgMax(s: seq<int>): (k: nat)
    requires |s| > 0
    ensures k < |s|
    ensures forall j :: 0 <= j < |s| ==> s[j] <= s[k]
    ensures forall j :: 0 <= j < k ==> s[j] < s[k]
  {
    if |s| == 1 then 0
    else
      var k := FirstArgMax(s[..|s| - 1]);
      if s[|s| - 1] > s[k] then |s| - 1 else k
  }

  /** The last index of a largest element (`Iterator::max_by`, which keeps
      the later of two equal elements). */
  function LastArgMax(s: seq<int>): (k: nat)
    requires |s| > 0
    ensures k < |s|
    ensures forall j :: 0 <= j < |s| ==> s[j] <= s[k]
    ensures forall j :: k < j < |s| ==> s[j] < s[k]
  {
    if |s| == 1 then 0
    else
      var k := LastArgMax(s[..|s| - 1]);
      if s[|s| - 1] >= s[k] then |s| - 1 else k
  }

  /** The ascending list of the indices of `s` holding `v`. */
  function IndicesOf(s: seq<int>, v: int): (r: seq<nat>)
    ensures forall j :: 0 <= j < |r| ==> r[j] < |s| && s[r[j]] == v
    ensures forall k :: 0 <= k < |s| && s[k] == v ==> k in r
    ensures forall j1, j2 :: 0 <= j1 < j2 < |r| ==> r[j1] < r[j2]
  {
    if |s| == 0 then []
    else IndicesOf(s[..|s| - 1], v) + (if s[|s| - 1] == v then [|s| - 1] else [])
  }

  /** An index that holds a largest element and has only smaller elements
      before it is the first index of the maximum. */
  lemma FirstArgMaxUnique(s: seq<int>, k: nat)
    requires k < |s|
    requires forall j :: 0 <= j < |s| ==> s[j] <= s[k]
    requires forall j :: 0 <= j < k ==> s[j] < s[k]
    ensures FirstArgMax(s) == k
  {
    var f := FirstArgMax(s);
    assert s[f] <= s[k] && s[k] <= s[f];
  }

  /** Every vote for a candidate is one of its row indices. */
  lemma {:induction false} MatchesRange(cand: seq<seq<int>>, e: int)
    ensures forall j :: 0 <= j < |Matches(cand, e)| ==> 0 <= Matches(cand, e)[j] < |cand|
    decreases |cand|
  {
    if |cand| > 0 {
      MatchesRange(cand[..|cand| - 1], e);
    }
  }

  lemma {:induction false} VotesRange(cand: seq<seq<int>>, events: seq<int>)
    ensures forall j :: 0 <= j < |Votes(cand, events)| ==> 0 <= Votes(cand, events)[j] < |cand|
    decreases |events|
  {
    if |events| > 0 {
      MatchesRange(cand, events[0]);
      VotesRange(cand, events[1..]);
    }
  }

  // ---------------------------------------------------------------------
  // Layout of the flat container: one list per (event, candidate) pair

  /** Position of the list of event `i` and candidate `q` in the flat
      container of `n * steps` lists: `i * steps + q`. */
  function Idx(n: nat, steps: nat, i: nat, q: nat): (k: nat)
    requires i < n && q < steps
    ensures k < n * steps
  {
    MulGap(i, n, steps);
    i * steps + q
  }

  lemma {:induction false} MulGap(a: nat, b: nat, steps: nat)
    requires a < b
    ensures a * steps + steps <= b * steps
    decreases b - a
  {
    assert (a + 1) * steps == a * steps + steps;
    if a + 1 < b {
      MulGap(a + 1, b, steps);
    }
  }

  /** Different (event, candidate) pairs use different lists. */
  lemma IdxDistinct(n: nat, steps: nat, i: nat, q: nat, i': nat, q': nat)
    requires i < n && q < steps && i' < n && q' < steps
    requires i != i' || q != q'
    ensures Idx(n, steps, i, q) != Idx(n, steps, i', q')
  {
    if i < i' {
      MulGap(i, i', steps);
    } else if i' < i {
      MulGap(i', i, steps);
    }
  }

  /** The list of the next event for the same candidate is `steps` further;
      past the last event that position is past the container. */
  lemma IdxNext(n: nat, steps: nat, i: nat, q: nat)
    requires i < n && q < steps
    ensures i + 1 < n ==> Idx(n, steps, i, q) + steps == Idx(n, steps, i + 1, q)
    ensures i + 1 == n ==> Idx(n, steps, i, q) + steps >= n * steps
  {
    assert (i + 1) * steps == i * steps + steps;
  }

  /** The votes of a candidate are the concatenation of its matches event
      by event. */
  lemma {:induction false} VotesFlatten(cand: seq<seq<int>>, events: seq<int>)
    ensures Votes(cand, events) == Flatten(seq(|events|, i requires 0 <= i < |events| => Matches(cand, events[i])))
    decreases |events|
  {
    var cells := seq(|events|, i requires 0 <= i < |events| => Matches(cand, events[i]));
    if |events| > 0 {
      VotesFlatten(cand, events[1..]);
      var tail := seq(|events| - 1, i requires 0 <= i < |events| - 1 => Matches(cand, events[1..][i]));
      assert cells == [Matches(cand, events[0])] + tail;
      FlattenCons(Matches(cand, events[0]), tail);
    } else {
      assert cells == [];
    }
  }

  lemma {:induction false} EmptyCells(cells: seq<seq<int>>)
    requires forall i :: 0 <= i < |cells| ==> cells[i] == []
    ensures Flatten(cells) == []
    decreases |cells|
  {
    if |cells| > 0 {
      EmptyCells(cells[..|cells| - 1]);
    }
  }
}
