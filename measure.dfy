/**
 * Measurement of the register. One draw r (uniform on [0, 1) in the engine)
 * is compared against consecutive buckets, one per basis state in index order:
 * bucket k is as wide as |phi_k|^2 plus the error threshold, and starts where
 * bucket k - 1 ends. The state collapses to 1 in the bucket holding r and to 0
 * everywhere else.
 */
module Measurement {
  import opened Matrices
  import opened Operators

  /** Where bucket k starts: the widths of buckets 0 .. k - 1 added up. */
  function BucketStart(v: Vector, k: nat): real
    requires k <= |v|
  {
    if k == 0 then 0.0 else BucketStart(v, k - 1) + v[k - 1] * v[k - 1] + ErrThresh
  }

  /** Sum of the squared amplitudes of entries 0 .. k - 1. */
  function SquaresUpTo(v: Vector, k: nat): real
    requires k <= |v|
  {
    if k == 0 then 0.0 else SquaresUpTo(v, k - 1) + v[k - 1] * v[k - 1]
  }

  /** Squared Euclidean norm: the total probability held by the state. */
  function SquaredNorm(v: Vector): real
  {
    SquaresUpTo(v, |v|)
  }

  /** The draw r falls in bucket k. */
  predicate InBucket(v: Vector, k: int, r: real)
  {
    0 <= k < |v| && BucketStart(v, k) <= r < BucketStart(v, k + 1)
  }

  /** The state after a measurement with draw r. */
  function Collapse(v: Vector, r: real): (w: Vector)
    ensures |w| == |v|
    ensures forall k :: 0 <= k < |v| ==> w[k] == if InBucket(v, k, r) then 1.0 else 0.0
  {
    seq(|v|, k => if InBucket(v, k, r) then 1.0 else 0.0)
  }

  /**
   * The engine's scan: one pass over the amplitudes carrying the start of the
   * current bucket.
   */
  method CollapseScan(v: Vector, r: real) returns (w: Vector)
    ensures w == Collapse(v, r)
  {
    var bucketStart := 0.0;
    w := [];
    var k := 0;
    while k < |v|
      invariant 0 <= k <= |v|
      invariant bucketStart == BucketStart(v, k)
      invariant w == Collapse(v, r)[..k]
    {
      var a := v[k];
      var ret := 0.0;
      var bucketEnd := bucketStart + a * a + ErrThresh;
      if bucketStart <= r && r < bucketEnd {
        ret := 1.0;
      }
      bucketStart := bucketEnd;
      w := w + [ret];
      k := k + 1;
    }
  }

  // ---------------------------------------------------------------------------
  // Buckets

  /** Each bucket is at least ErrThresh wide, so later buckets start strictly later. */
  lemma {:induction false} BucketsIncrease(v: Vector, k: nat, m: nat)
    requires k < m <= |v|
    ensures BucketStart(v, k) + ErrThresh <= BucketStart(v, m)
  {
    if k < m - 1 {
      BucketsIncrease(v, k, m - 1);
    }
  }

  /** The buckets before k cover the squared amplitudes before k plus k thresholds. */
  lemma {:induction false} BucketTotal(v: Vector, k: nat)
    requires k <= |v|
    ensures BucketStart(v, k) == SquaresUpTo(v, k) + k as real * ErrThresh
  {
    if k > 0 {
      BucketTotal(v, k - 1);
    }
  }

  /** No draw falls in two buckets. */
  lemma AtMostOneBucket(v: Vector, r: real, k1: int, k2: int)
    requires InBucket(v, k1, r) && InBucket(v, k2, r)
    ensures k1 == k2
  {
    if k1 < k2 {
      if k1 + 1 < k2 {
        BucketsIncrease(v, k1 + 1, k2);
      }
    } else if k2 < k1 {
      if k2 + 1 < k1 {
        BucketsIncrease(v, k2 + 1, k1);
      }
    }
  }

  /** A draw in [0, start of bucket m) falls in one of the buckets before m. */
  lemma {:induction false} FindBucket(v: Vector, r: real, m: nat)
    requires m <= |v| && 0.0 <= r < BucketStart(v, m)
    ensures exists k :: 0 <= k < m && InBucket(v, k, r)
  {
    if BucketStart(v, m - 1) <= r {
      assert InBucket(v, m - 1, r);
    } else {
      FindBucket(v, r, m - 1);
    }
  }

  /** A draw before the first bucket or past the last falls in no bucket. */
  lemma NoBucket(v: Vector, r: real, k: int)
    requires r < 0.0 || BucketStart(v, |v|) <= r
    ensures !InBucket(v, k, r)
  {
    if InBucket(v, k, r) {
      if k > 0 {
        BucketsIncrease(v, 0, k);
      }
      if k + 1 < |v| {
        BucketsIncrease(v, k + 1, |v|);
      }
    }
  }

  // ---------------------------------------------------------------------------
  // Outcomes

  /**
   * A measurement leaves a basis state exactly when the draw lies within the
   * buckets, and then the basis state is the one whose bucket holds the draw.
   */
  lemma CollapseOutcome(v: Vector, r: real)
    ensures (exists k :: 0 <= k < |v| && Collapse(v, r) == Basis(|v|, k))
        <==> 0.0 <= r < BucketStart(v, |v|)
    ensures forall k :: 0 <= k < |v| && InBucket(v, k, r) ==> Collapse(v, r) == Basis(|v|, k)
  {
    forall k | 0 <= k < |v| && InBucket(v, k, r) ensures Collapse(v, r) == Basis(|v|, k) {
      forall t | 0 <= t < |v| ensures Collapse(v, r)[t] == Basis(|v|, k)[t] {
        if InBucket(v, t, r) {
          AtMostOneBucket(v, r, k, t);
        }
      }
    }
    if 0.0 <= r < BucketStart(v, |v|) {
      FindBucket(v, r, |v|);
    } else if k :| 0 <= k < |v| && Collapse(v, r) == Basis(|v|, k) {
      NoBucket(v, r, k);
    }
  }

  /** A draw outside the buckets clears every amplitude. */
  lemma CollapseOutside(v: Vector, r: real)
    requires r < 0.0 || BucketStart(v, |v|) <= r
    ensures forall k :: 0 <= k < |v| ==> Collapse(v, r)[k] == 0.0
  {
    forall k | 0 <= k < |v| ensures Collapse(v, r)[k] == 0.0 {
      NoBucket(v, r, k);
    }
  }

  /**
   * A state whose squared norm is within ErrThresh of the draw, as a normalised
   * state is for every draw in [0, 1), always collapses to a basis state.
   */
  lemma NormalisedCollapse(v: Vector, r: real)
    requires |v| >= 1 && 0.0 <= r < SquaredNorm(v) + ErrThresh
    ensures exists k :: 0 <= k < |v| && Collapse(v, r) == Basis(|v|, k)
  {
    BucketTotal(v, |v|);
    CollapseOutcome(v, r);
  }

  /** A draw of 0 always lands in the first bucket, whatever the amplitudes. */
  lemma ZeroDrawSelectsFirst(v: Vector)
    requires |v| >= 1
    ensures Collapse(v, 0.0) == Basis(|v|, 0)
  {
    assert BucketStart(v, 1) == v[0] * v[0] + ErrThresh;
    assert InBucket(v, 0, 0.0);
    CollapseOutcome(v, 0.0);
  }

  /**
   * The threshold widens the bucket of a zero amplitude too: a draw of 0 on
   * the state |1> of one qubit yields |0>, which had probability 0.
   */
  lemma ZeroAmplitudeObserved()
    ensures Collapse([0.0, 1.0], 0.0) == [1.0, 0.0]
  {
    assert InBucket([0.0, 1.0], 0, 0.0);
    assert !InBucket([0.0, 1.0], 1, 0.0);
  }

  /** Measuring 1/sqrt 2 (|0> + |1>) with draw 0 gives |0>, and with draw 1 gives |1>. */
  lemma EqualSuperpositionOutcomes()
    ensures Collapse([OneOverSqrt2, OneOverSqrt2], 0.0) == [1.0, 0.0]
    ensures Collapse([OneOverSqrt2, OneOverSqrt2], 1.0) == [0.0, 1.0]
  {
    var v := [OneOverSqrt2, OneOverSqrt2];
    assert InBucket(v, 0, 0.0) && !InBucket(v, 1, 0.0);
    assert !InBucket(v, 0, 1.0) && InBucket(v, 1, 1.0);
  }

  // ---------------------------------------------------------------------------
  // Permuting the amplitudes keeps the squared norm

  /** s maps the indices below m one-to-one onto themselves. */
  ghost predicate IsPermutation(s: int -> int, m: nat)
  {
    (forall b :: 0 <= b < m ==> 0 <= s(b) < m)
    && (forall b, c :: 0 <= b < m && 0 <= c < m && b != c ==> s(b) != s(c))
    && (forall t :: 0 <= t < m ==> Hits(s, m, t))
  }

  /** Some index below m is sent to t. */
  ghost predicate Hits(s: int -> int, m: nat, t: int)
  {
    exists b :: 0 <= b < m && s(b) == t
  }

  /** A map of the indices below m into themselves that undoes itself is a permutation. */
  lemma InvolutionIsPermutation(s: int -> int, m: nat)
    requires forall b :: 0 <= b < m ==> 0 <= s(b) < m && s(s(b)) == b
    ensures IsPermutation(s, m)
  {
    forall b, c | 0 <= b < m && 0 <= c < m && b != c ensures s(b) != s(c) {
      assert s(s(b)) == b && s(s(c)) == c;
    }
    forall t | 0 <= t < m ensures Hits(s, m, t) {
      assert 0 <= s(t) < m && s(s(t)) == t;
    }
  }

  /** Sum of the squares of v[s(0)], ..., v[s(m - 1)]. */
  ghost function PermutedSquares(v: Vector, s: int -> int, m: nat): real
    requires m <= |v| && forall b :: 0 <= b < m ==> 0 <= s(b) < |v|
  {
    if m == 0 then 0.0 else PermutedSquares(v, s, m - 1) + v[s(m - 1)] * v[s(m - 1)]
  }

  /** The squares of a vector whose entry b is v[s(b)] add up to PermutedSquares. */
  lemma {:induction false} SquaresOfPermuted(v: Vector, w: Vector, s: int -> int, m: nat)
    requires m <= |w| && m <= |v| && forall b :: 0 <= b < m ==> 0 <= s(b) < |v| && w[b] == v[s(b)]
    ensures SquaresUpTo(w, m) == PermutedSquares(v, s, m)
  {
    if m > 0 {
      SquaresOfPermuted(v, w, s, m - 1);
    }
  }

  /** Changing s at one index p below m changes the sum by that one square. */
  lemma {:induction false} PermutedSquaresPoint(v: Vector, s: int -> int, t: int -> int, m: nat, p: nat)
    requires m <= |v| && p < m
    requires forall b :: 0 <= b < m ==> 0 <= s(b) < |v| && 0 <= t(b) < |v|
    requires forall b :: 0 <= b < m && b != p ==> s(b) == t(b)
    ensures PermutedSquares(v, t, m) == PermutedSquares(v, s, m) - v[s(p)] * v[s(p)] + v[t(p)] * v[t(p)]
  {
    if m - 1 != p {
      PermutedSquaresPoint(v, s, t, m - 1, p);
    } else {
      PermutedSquaresAgree(v, s, t, m - 1);
    }
  }

  /** Maps that agree below m give the same sum. */
  lemma {:induction false} PermutedSquaresAgree(v: Vector, s: int -> int, t: int -> int, m: nat)
    requires m <= |v|
    requires forall b :: 0 <= b < m ==> 0 <= s(b) < |v| && s(b) == t(b)
    ensures PermutedSquares(v, t, m) == PermutedSquares(v, s, m)
  {
    if m > 0 {
      PermutedSquaresAgree(v, s, t, m - 1);
    }
  }

  /** s with the image of index p replaced by the image of index k. */
  ghost function Retarget(s: int -> int, p: int, k: int): int -> int
  {
    b => if b == p then s(k) else s(b)
  }

  /**
   * When s permutes the indices below k + 1 and sends p to k, giving p the
   * image of k leaves a permutation of the indices below k.
   */
  lemma RetargetIsPermutation(s: int -> int, k: nat, p: nat)
    requires IsPermutation(s, k + 1) && p <= k && s(p) == k
    ensures IsPermutation(Retarget(s, p, k), k)
    ensures forall b :: 0 <= b < k && b != p ==> Retarget(s, p, k)(b) == s(b)
  {
    var t := Retarget(s, p, k);
    forall b | 0 <= b < k ensures 0 <= t(b) < k {
      assert s(b) != k || b == p;
    }
    forall u | 0 <= u < k ensures Hits(t, k, u) {
      assert Hits(s, k + 1, u);
      var b :| 0 <= b < k + 1 && s(b) == u;
      if b == k {
        assert t(p) == u;
      } else {
        assert t(b) == u;
      }
    }
  }

  /**
   * The step of PermutedSquaresTotal: s sends p to k, and t agrees with s below
   * k except that it sends p where s sends k. If t's sum below k is the plain
   * sum, so is s's sum below k + 1.
   */
  lemma MoveLastStep(v: Vector, s: int -> int, t: int -> int, k: nat, p: nat)
    requires k < |v| && p <= k && s(p) == k
    requires forall b :: 0 <= b <= k ==> 0 <= s(b) < |v|
    requires forall b :: 0 <= b < k ==> 0 <= t(b) < |v|
    requires forall b :: 0 <= b < k && b != p ==> t(b) == s(b)
    requires p < k ==> t(p) == s(k)
    requires PermutedSquares(v, t, k) == SquaresUpTo(v, k)
    ensures PermutedSquares(v, s, k + 1) == SquaresUpTo(v, k + 1)
  {
    if p == k {
      PermutedSquaresAgree(v, s, t, k);
    } else {
      PermutedSquaresPoint(v, s, t, k, p);
    }
  }

  /**
   * Summing the squares in permuted order gives the same total. The step moves
   * the index p that s sends to m - 1 onto the last place.
   */
  lemma {:induction false} PermutedSquaresTotal(v: Vector, s: int -> int, m: nat)
    requires m <= |v| && IsPermutation(s, m)
    ensures PermutedSquares(v, s, m) == SquaresUpTo(v, m)
  {
    if m > 0 {
      var k := m - 1;
      assert Hits(s, m, k);
      var p :| 0 <= p < m && s(p) == k;
      var t := Retarget(s, p, k);
      RetargetIsPermutation(s, k, p);
      PermutedSquaresTotal(v, t, k);
      MoveLastStep(v, s, t, k, p);
    }
  }

  /** A vector whose amplitudes are those of v in permuted order has the same squared norm. */
  lemma PermutationKeepsNorm(v: Vector, w: Vector, s: int -> int)
    requires |w| == |v| && IsPermutation(s, |v|)
    requires forall b :: 0 <= b < |v| ==> w[b] == v[s(b)]
    ensures SquaredNorm(w) == SquaredNorm(v)
  {
    SquaresOfPermuted(v, w, s, |v|);
    PermutedSquaresTotal(v, s, |v|);
  }
}
