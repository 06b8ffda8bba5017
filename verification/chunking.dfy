/**
 List chunking (leads_uploader/src/config.py, `divide_list` and `divide_m_parts`):
 cutting a list into consecutive slices of bounded length, used to keep every
 reference lookup at or below 1000 identifiers.
 */
module Chunking {
  import opened Common

  /**
   Reference definition: consecutive slices of `n` elements, the last one
   holding whatever is left.
   */
  function Chunks<T>(l: seq<T>, n: nat): seq<seq<T>>
    requires n > 0
    decreases |l|
  {
    if |l| == 0 then []
    else if n < |l| then [l[..n]] + Chunks(l[n..], n)
    else [l]
  }

  /**
   The slices put back together give the list; none is empty, none is longer
   than `n`, and all but the last hold exactly `n`.
   */
  lemma {:induction false} ChunksShape<T>(l: seq<T>, n: nat)
    requires n > 0
    ensures Flatten(Chunks(l, n)) == l
    ensures forall k | 0 <= k < |Chunks(l, n)| :: 0 < |Chunks(l, n)[k]| <= n
    ensures forall k | 0 <= k < |Chunks(l, n)| - 1 :: |Chunks(l, n)[k]| == n
    decreases |l|
  {
    if |l| == 0 {
    } else if n < |l| {
      var rest := Chunks(l[n..], n);
      ChunksShape(l[n..], n);
      assert l[..n] + l[n..] == l;
      assert ([l[..n]] + rest)[1..] == rest;
    } else {
      assert [l][1..] == [];
    }
  }

  /** There are ceil(|l| / n) slices. */
  lemma {:induction false} ChunksCount<T>(l: seq<T>, n: nat)
    requires n > 0
    ensures |Chunks(l, n)| == (|l| + n - 1) / n
    decreases |l|
  {
    if |l| == 0 {
      DivUnique(n - 1, n, 0, n - 1);
    } else if n < |l| {
      ChunksCount(l[n..], n);
      CeilingStep(|l| - n, n);
    } else {
      CeilingOne(|l|, n);
    }
  }

  /** Division is determined by any quotient/remainder decomposition. */
  lemma DivUnique(a: int, n: int, q: int, r: int)
    requires n > 0 && 0 <= r < n && a == q * n + r
    ensures a / n == q
  {
    var q0, r0 := a / n, a % n;
    assert a == q0 * n + r0;
    var d := q - q0;
    assert d * n == r0 - r;
    MulSmall(d, n);
  }

  lemma MulSmall(d: int, n: int)
    requires n > 0 && -n < d * n < n
    ensures d == 0
  {
  }

  lemma MulCancel(x: int, y: int, n: int)
    requires n > 0 && x * n >= y * n
    ensures x >= y
  {
  }

  /** ceil((a + n) / n) = ceil(a / n) + 1, written with Dafny's division on naturals. */
  lemma CeilingStep(a: nat, n: nat)
    requires n > 0
    ensures (a + n + n - 1) / n == (a + n - 1) / n + 1
  {
    var q := (a + n - 1) / n;
    var r := (a + n - 1) % n;
    assert a + n - 1 == q * n + r;
    assert a + n + n - 1 == (q + 1) * n + r;
    DivUnique(a + n + n - 1, n, q + 1, r);
  }

  lemma CeilingOne(len: nat, n: nat)
    requires 0 < len <= n
    ensures (len + n - 1) / n == 1
  {
    DivUnique(len + n - 1, n, 1, len - 1);
  }

  /**
   `divide_list`: a range from 0 in steps of `n` walks the start of every
   slice; a slice that would run past the end stops at the end. A step of zero
   makes `range` raise; a negative step gives an empty range.
   */
  method DivideList<T>(l: seq<T>, n: int) returns (divisions: seq<seq<T>>)
    requires n != 0
    ensures n > 0 ==> divisions == Chunks(l, n)
    ensures n > 0 ==> Flatten(divisions) == l
    ensures n > 0 ==> forall k | 0 <= k < |divisions| :: 0 < |divisions[k]| <= n
    ensures n < 0 ==> divisions == []
  {
    divisions := [];
    if n < 0 {
      return;
    }
    var i := 0;
    while i < |l|
      invariant 0 <= i
      invariant i < |l| ==> divisions + Chunks(l[i..], n) == Chunks(l, n)
      invariant i >= |l| ==> divisions == Chunks(l, n)
      decreases |l| - i
    {
      ChunkAt(l, i, n);
      ghost var before := divisions;
      if i + n < |l| {
        divisions := divisions + [l[i..i + n]];
        assert before + Chunks(l[i..], n) == divisions + Chunks(l[i + n..], n);
      } else {
        divisions := divisions + [l[i..]];
      }
      i := i + n;
    }
    ChunksShape(l, n);
  }

  /** The slice starting at `i`: `n` elements, or all the rest when fewer remain. */
  lemma ChunkAt<T>(l: seq<T>, i: nat, n: nat)
    requires i < |l| && n > 0
    ensures i + n < |l| ==> Chunks(l[i..], n) == [l[i..i + n]] + Chunks(l[i + n..], n)
    ensures i + n >= |l| ==> Chunks(l[i..], n) == [l[i..]]
  {
    SliceOfSuffix(l, i, if i + n < |l| then n else 0);
  }

  lemma SliceOfSuffix<T>(l: seq<T>, i: nat, n: nat)
    requires i + n <= |l|
    ensures l[i..][..n] == l[i..i + n]
    ensures l[i..][n..] == l[i + n..]
  {
  }

  /** Python's `//`: floor division, which differs from Dafny's `/` for a negative divisor. */
  function FloorDiv(a: int, b: int): int
    requires b != 0
  {
    if b > 0 then a / b else (-a) / (-b)
  }

  /**
   `divide_m_parts(l, m)`: slices of `len(l) // m` elements. `m == 0` and
   `len(l) // m == 0` (fewer elements than parts) make Python raise.
   */
  method DivideMParts<T>(l: seq<T>, m: int) returns (parts: seq<seq<T>>)
    requires m != 0 && FloorDiv(|l|, m) != 0
    ensures m > 0 ==> Flatten(parts) == l && |parts| >= m
    ensures m > 0 ==> forall k | 0 <= k < |parts| :: 0 < |parts[k]| <= |l| / m
    ensures m < 0 ==> parts == []
  {
    var n := FloorDiv(|l|, m);
    parts := DivideList(l, n);
    if m > 0 {
      assert n == |l| / m;
      NonNegativeQuotient(|l|, m);
      ChunksCount(l, n);
      AtLeastMParts(|l|, n, m);
    } else {
      NonPositiveQuotient(-|l|, -m);
    }
  }

  lemma NonNegativeQuotient(a: int, b: int)
    requires a >= 0 && b > 0
    ensures a / b >= 0
  {
  }

  lemma NonPositiveQuotient(a: int, b: int)
    requires a <= 0 && b > 0
    ensures a / b <= 0
  {
    assert a == (a / b) * b + a % b;
    MulCancel(0, a / b, b);
  }

  /** Slices of `len // m` elements number at least `m`. */
  lemma AtLeastMParts(len: nat, n: nat, m: nat)
    requires m > 0 && n == len / m && n > 0
    ensures (len + n - 1) / n >= m
  {
    assert len == n * m + len % m;
    assert m * n <= len;
    var q := (len + n - 1) / n;
    var r := (len + n - 1) % n;
    assert len + n - 1 == q * n + r;
    assert q * n >= m * n;
    MulCancel(q, m, n);
  }

  /** `divide_m_parts` does not give exactly `m` parts: ten elements asked for three parts come in four. */
  lemma TenIntoThreeGivesFour()
    ensures |Chunks(seq(10, i => i), 10 / 3)| == 4
  {
    ChunksCount(seq(10, i => i), 10 / 3);
  }
}
