/** Shared vocabulary: optional values, unsigned 32-bit saturation and a few
    sequence operations that several components use. */
module Common {

  datatype Option<+T> = None | Some(value: T)

  /** Outcome of an operation that can fail with an error of type `E`. */
  datatype Result<+T, +E> = Ok(value: T) | Err(error: E)

  /** Largest value of a Rust `u32`. */
  const U32_MAX: int := 0xFFFF_FFFF

  type U32 = x: int | 0 <= x <= U32_MAX

  function Min(a: int, b: int): int { if a <= b then a else b }

  function Max(a: int, b: int): int { if a >= b then a else b }

  /** `u32::saturating_add`. */
  function SatAdd(a: U32, b: U32): U32
  {
    if a + b <= U32_MAX then a + b else U32_MAX
  }

  /** `n` copies of `x`, in the way `Vec::resize` pads a vector. */
  function Repeat<T>(x: T, n: nat): (r: seq<T>)
    ensures |r| == n
    ensures forall k :: 0 <= k < n ==> r[k] == x
  {
    seq(n, _ => x)
  }

  /** Concatenation of a list of lists, left to right. */
  function Flatten<T>(ss: seq<seq<T>>): seq<T>
  {
    if |ss| == 0 then [] else Flatten(ss[..|ss| - 1]) + ss[|ss| - 1]
  }

  /** The Python slice `c[q::step]`: every `step`-th element from index `q`. */
  function Stride<T>(c: seq<T>, q: nat, step: nat): seq<T>
    requires step > 0
    decreases |c| - q
  {
    if q >= |c| then [] else [c[q]] + Stride(c, q + step, step)
  }

  lemma {:induction false} FlattenCons<T>(x: seq<T>, r: seq<seq<T>>)
    ensures Flatten([x] + r) == x + Flatten(r)
    decreases |r|
  {
    if |r| == 0 {
      assert [x] + r == [x];
      assert Flatten([x]) == Flatten([x][..0]) + x;
    } else {
      var all := [x] + r;
      assert all[..|all| - 1] == [x] + r[..|r| - 1];
      FlattenCons(x, r[..|r| - 1]);
    }
  }

  lemma FlattenSnoc<T>(r: seq<seq<T>>, x: seq<T>)
    ensures Flatten(r + [x]) == Flatten(r) + x
  {
    assert (r + [x])[..|r|] == r;
  }

  /** The last `n` items of `s` (all of `s` when it is shorter). */
  function Suffix<T>(s: seq<T>, n: nat): (r: seq<T>)
    ensures |r| == Min(|s|, n)
    ensures forall k :: 0 <= k < |r| ==> r[k] == s[|s| - |r| + k]
  {
    if |s| <= n then s else s[|s| - n..]
  }

  /** Appending one item to a window already cut to `n` and cutting again
      gives the same window as cutting once after the append: a bounded
      deque that drops its oldest item keeps the last `n` items pushed. */
  lemma SuffixSnoc<T>(s: seq<T>, x: T, n: nat)
    ensures Suffix(Suffix(s, n) + [x], n) == Suffix(s + [x], n)
  {
    var a := Suffix(Suffix(s, n) + [x], n);
    var b := Suffix(s + [x], n);
    assert |a| == |b|;
    forall k | 0 <= k < |a| ensures a[k] == b[k] {
      if k == |a| - 1 {
      } else {
        assert a[k] == (Suffix(s, n) + [x])[|Suffix(s, n)| + 1 - |a| + k];
      }
    }
  }

  /** Pushing onto a list of at most `n` items and dropping the oldest item
      when there are then more than `n` keeps the last `n` items. */
  lemma BoundedPush<T>(h: seq<T>, x: T, n: nat)
    requires |h| <= n
    ensures (if |h + [x]| > n then (h + [x])[1..] else h + [x]) == Suffix(h + [x], n)
  {
  }

  /** Sum of a list of reals, added left to right. */
  function Sum(s: seq<real>): real
  {
    if |s| == 0 then 0.0 else Sum(s[..|s| - 1]) + s[|s| - 1]
  }

  /** A larger count of steps spans at least as much. */
  lemma MulMonotone(a: nat, b: nat, step: nat)
    requires a <= b
    ensures a * step <= b * step
  {
    assert b * step - a * step == (b - a) * step;
  }

  /** A smaller count of whole steps is at least one step shorter. */
  lemma MulStrict(a: nat, b: nat, step: nat)
    ensures a < b ==> a * step + step <= b * step
  {
    if a < b {
      assert (a + 1) * step == a * step + step;
      MulMonotone(a + 1, b, step);
    }
  }

  /** `j` steps are one step followed by `j - 1` steps. */
  lemma MulPred(j: nat, step: nat)
    requires j > 0
    ensures j * step == step + (j - 1) * step
  {
  }
}
