/**
 * The pieces of Python semantics that the two scripts lean on: `int()` on a
 * float, float `%` with a positive modulus, slicing and indexing with negative
 * positions counted from the end.
 */
module PySemantics {
  import opened Wrappers

  /** Python's `int(r)` on a float: truncation toward zero. */
  function Trunc(r: real): (k: int)
    ensures r >= 0.0 ==> 0 <= k && k as real <= r < k as real + 1.0
    ensures r < 0.0 ==> k <= 0 && k as real - 1.0 < r <= k as real
  {
    if r >= 0.0 then r.Floor else -((-r).Floor)
  }

  /** Python's float `a % m` for `m > 0`: the remainder of floor division, in [0, m). */
  function FMod(a: real, m: real): (r: real)
    requires m > 0.0
    ensures 0.0 <= r < m
    ensures (a - r) / m == ((a - r) / m).Floor as real
  {
    var q: real := (a / m).Floor as real;
    FloorRemainder(a, m, q);
    a - q * m
  }

  /** The remainder left by the floored quotient `q` lies in [0, m), and taking it off leaves a multiple of `m`. */
  lemma FloorRemainder(a: real, m: real, q: real)
    requires m > 0.0 && q == (a / m).Floor as real
    ensures 0.0 <= a - q * m < m
    ensures (a - (a - q * m)) / m == q
  {
    DivSplit(a, q, m);
    DivBounds(a - q * m, m);
    ProductQuotient(q, m);
    assert a - (a - q * m) == q * m;
  }

  /** Used by `FloorRemainder`: multiplying by `m` and dividing by it again gives back `q`. */
  lemma ProductQuotient(q: real, m: real)
    requires m > 0.0
    ensures (q * m) / m == q
  {
  }

  /** Used by `FloorRemainder`: a quotient in [0, 1) comes from a value in [0, m). */
  lemma DivBounds(x: real, m: real)
    requires m > 0.0 && 0.0 <= x / m < 1.0
    ensures 0.0 <= x < m
  {
    assert x == (x / m) * m;
  }

  /** Used by `FloorRemainder`: taking `q * m` off the dividend takes `q` off the quotient. */
  lemma DivSplit(a: real, q: real, m: real)
    requires m > 0.0
    ensures (a - q * m) / m == a / m - q
  {
  }

  /** How Python normalises one bound of a slice `s[start:stop]` of a sequence of length `len`. */
  function SliceBound(i: int, len: nat): (b: nat)
    ensures b <= len
    ensures 0 <= i <= len ==> b == i
    ensures i < 0 <= i + len ==> b == len + i
    ensures i + len < 0 ==> b == 0
    ensures len < i ==> b == len
  {
    if i < 0 then (if i + len < 0 then 0 else i + len)
    else if i > len then len
    else i
  }

  /** Python's `s[start:stop]`: out-of-range bounds are clipped, negative ones count from the end. */
  function Slice<T>(s: seq<T>, start: int, stop: int): (r: seq<T>)
    ensures |r| <= |s|
    ensures 0 <= start <= stop <= |s| ==> r == s[start..stop]
    ensures 0 <= stop <= start ==> r == []
  {
    var lo := SliceBound(start, |s|);
    var hi := SliceBound(stop, |s|);
    if lo < hi then s[lo..hi] else []
  }

  /** Python's `s[i]`: `None` stands for the IndexError it raises out of range. */
  function Index<T>(s: seq<T>, i: int): (r: Option<T>)
    ensures r.Some? <==> 0 <= i + |s| && i < |s|
    ensures 0 <= i < |s| ==> r == Some(s[i])
    ensures i < 0 <= i + |s| ==> r == Some(s[|s| + i])
  {
    match Position(i, |s|)
    case Some(p) => Some(s[p])
    case None => None
  }

  /** The position Python reaches with `s[i]`, when there is one. */
  function Position(i: int, len: nat): (p: Option<nat>)
    ensures p.Some? <==> 0 <= i + len && i < len
    ensures p.Some? ==> p.value < len
    ensures 0 <= i < len ==> p == Some(i)
  {
    if 0 <= i < len then Some(i)
    else if i < 0 <= i + len then Some(len + i)
    else None
  }
}
