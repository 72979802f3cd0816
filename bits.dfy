/**
 * Basis indices of an n-qubit register. Index b of the state vector is the
 * computational basis state whose n-bit binary form, read most significant bit
 * first, gives qubit 1, qubit 2, ..., qubit n. Qubits are numbered from 1.
 *
 * All definitions recurse on the least significant bit (b % 2, b / 2) so that
 * the verifier only ever sees linear arithmetic; `BitIsPositional` and
 * `FlipIsXor` connect them to the positional reading 2^(n-q).
 */
module Bits {

  function Pow2(k: nat): (p: nat)
    ensures p >= 1
  {
    if k == 0 then 1 else 2 * Pow2(k - 1)
  }

  /** The value (0 or 1) of qubit q in basis index b of an n-qubit register. */
  function Bit(b: nat, q: int, n: nat): (v: nat)
    requires 1 <= q <= n
    ensures v == 0 || v == 1
    decreases n
  {
    if q == n then b % 2 else Bit(b / 2, q, n - 1)
  }

  /** Qubits other than q have the same value in b and c. */
  ghost predicate SameBitsExcept(b: nat, c: nat, n: nat, q: int)
  {
    forall p :: 1 <= p <= n && p != q ==> Bit(b, p, n) == Bit(c, p, n)
  }

  /** Basis index b with qubit q inverted. */
  function Flip(b: nat, q: int, n: nat): (f: nat)
    requires 1 <= q <= n
    decreases n
  {
    if q == n then (if b % 2 == 0 then b + 1 else b - 1)
    else 2 * Flip(b / 2, q, n - 1) + b % 2
  }

  /** Target of a controlled not: qubit j inverted when qubit i is 1. */
  function CnotTarget(b: nat, i: int, j: int, n: nat): nat
    requires 1 <= i <= n && 1 <= j <= n
  {
    if Bit(b, i, n) == 1 then Flip(b, j, n) else b
  }

  /** Basis index b with the values of qubits i and j exchanged. */
  function SwapBits(b: nat, i: int, j: int, n: nat): nat
    requires 1 <= i <= n && 1 <= j <= n
  {
    if Bit(b, i, n) == Bit(b, j, n) then b else Flip(Flip(b, i, n), j, n)
  }

  /** Target of a Toffoli gate: qubit k inverted when qubits i and j are both 1. */
  function CcnotTarget(b: nat, i: int, j: int, k: int, n: nat): nat
    requires 1 <= i <= n && 1 <= j <= n && 1 <= k <= n
  {
    if Bit(b, i, n) == 1 && Bit(b, j, n) == 1 then Flip(b, k, n) else b
  }

  /** Target of a Fredkin gate: qubits j and k exchanged when qubit i is 1. */
  function CswapTarget(b: nat, i: int, j: int, k: int, n: nat): nat
    requires 1 <= i <= n && 1 <= j <= n && 1 <= k <= n
  {
    if Bit(b, i, n) == 1 then SwapBits(b, j, k, n) else b
  }

  // ---------------------------------------------------------------------------
  // Arithmetic helpers

  lemma DivUnique(b: int, d: int, t: int, rem: int)
    requires d > 0 && 0 <= rem < d && b == d * t + rem
    ensures b / d == t && b % d == rem
  {
    var q, m := b / d, b % d;
    assert b == d * q + m;
    assert d * (t - q) == m - rem;
    if t - q >= 1 {
    } else if t - q <= -1 {
    }
  }

  lemma HalfDiv(b: nat, p: nat)
    requires p >= 1
    ensures (b / 2) / p == b / (2 * p)
  {
    var t, u := (b / 2) / p, (b / 2) % p;
    assert b / 2 == p * t + u;
    assert b == (2 * p) * t + (2 * u + b % 2);
    DivUnique(b, 2 * p, t, 2 * u + b % 2);
  }

  // ---------------------------------------------------------------------------
  // Positional reading: qubit 1 is the most significant bit

  /** Qubit q of index b is the binary digit of weight 2^(n-q). */
  lemma {:induction false} BitIsPositional(b: nat, q: int, n: nat)
    requires 1 <= q <= n
    ensures Bit(b, q, n) == (b / Pow2(n - q)) % 2
    decreases n
  {
    if q < n {
      BitIsPositional(b / 2, q, n - 1);
      assert Pow2(n - q) == 2 * Pow2(n - 1 - q);
      HalfDiv(b, Pow2(n - 1 - q));
    }
  }

  /** Indices below 2^n split as 2 * (b / 2) + b % 2 with b / 2 below 2^(n-1). */
  lemma HalfBound(b: nat, n: nat)
    requires n >= 1 && b < Pow2(n)
    ensures b / 2 < Pow2(n - 1)
  {
  }

  /** An index below 2^n is determined by its n qubit values. */
  lemma {:induction false} BitsDetermine(b: nat, c: nat, n: nat)
    requires n >= 1 && b < Pow2(n) && c < Pow2(n)
    requires forall p :: 1 <= p <= n ==> Bit(b, p, n) == Bit(c, p, n)
    ensures b == c
    decreases n
  {
    assert b % 2 == Bit(b, n, n) == Bit(c, n, n) == c % 2;
    if n > 1 {
      var b2, c2, m := b / 2, c / 2, n - 1;
      forall p | 1 <= p <= m ensures Bit(b2, p, m) == Bit(c2, p, m) {
        assert Bit(b, p, n) == Bit(c, p, n);
      }
      BitsDetermine(b2, c2, m);
    }
  }

  /** Equality of indices as agreement on every qubit. */
  lemma SameIff(b: nat, c: nat, n: nat, q: int)
    requires 1 <= q <= n && b < Pow2(n) && c < Pow2(n)
    ensures b == c <==> SameBitsExcept(b, c, n, q) && Bit(c, q, n) == Bit(b, q, n)
  {
    if SameBitsExcept(b, c, n, q) && Bit(c, q, n) == Bit(b, q, n) {
      BitsDetermine(b, c, n);
    }
  }

  // ---------------------------------------------------------------------------
  // Flip

  /** Flip inverts qubit q, keeps every other qubit and stays below 2^n. */
  lemma {:induction false} FlipBits(b: nat, q: int, n: nat)
    requires 1 <= q <= n
    ensures b < Pow2(n) ==> Flip(b, q, n) < Pow2(n)
    ensures Bit(Flip(b, q, n), q, n) == 1 - Bit(b, q, n)
    ensures SameBitsExcept(b, Flip(b, q, n), n, q)
    decreases n
  {
    var f := Flip(b, q, n);
    if q == n {
      forall p | 1 <= p <= n && p != q ensures Bit(b, p, n) == Bit(f, p, n) {
        assert f / 2 == b / 2;
      }
    } else {
      var g := Flip(b / 2, q, n - 1);
      FlipBits(b / 2, q, n - 1);
      assert f / 2 == g && f % 2 == b % 2;
      forall p | 1 <= p <= n && p != q ensures Bit(b, p, n) == Bit(f, p, n) {
        if p < n {
          assert Bit(b / 2, p, n - 1) == Bit(g, p, n - 1);
        }
      }
    }
  }

  /** The flip of b is the only index that differs from b exactly at qubit q. */
  lemma FlipIff(b: nat, c: nat, q: int, n: nat)
    requires 1 <= q <= n && b < Pow2(n) && c < Pow2(n)
    ensures c == Flip(b, q, n) <==> SameBitsExcept(b, c, n, q) && Bit(c, q, n) != Bit(b, q, n)
  {
    var f := Flip(b, q, n);
    FlipBits(b, q, n);
    if SameBitsExcept(b, c, n, q) && Bit(c, q, n) != Bit(b, q, n) {
      forall p | 1 <= p <= n ensures Bit(c, p, n) == Bit(f, p, n) {
        if p != q {
          assert Bit(b, p, n) == Bit(c, p, n) && Bit(b, p, n) == Bit(f, p, n);
        }
      }
      BitsDetermine(c, f, n);
    }
  }

  /** Inverting a qubit twice restores the index. */
  lemma FlipInvolutive(b: nat, q: int, n: nat)
    requires 1 <= q <= n && b < Pow2(n)
    ensures Flip(Flip(b, q, n), q, n) == b
  {
    var f := Flip(b, q, n);
    FlipBits(b, q, n);
    FlipBits(f, q, n);
    FlipIff(f, b, q, n);
    forall p | 1 <= p <= n && p != q ensures Bit(f, p, n) == Bit(b, p, n) {
      assert SameBitsExcept(b, f, n, q);
    }
  }

  /** Inverting qubit q adds 2^(n-q) when the qubit is 0 and subtracts it when it is 1. */
  lemma {:induction false} FlipIsXor(b: nat, q: int, n: nat)
    requires 1 <= q <= n
    ensures Flip(b, q, n) == if Bit(b, q, n) == 0 then b + Pow2(n - q) else b - Pow2(n - q)
    decreases n
  {
    if q < n {
      FlipIsXor(b / 2, q, n - 1);
      assert Pow2(n - q) == 2 * Pow2(n - 1 - q);
    }
  }

  // ---------------------------------------------------------------------------
  // Controlled targets, by qubit

  lemma CnotBits(b: nat, i: int, j: int, n: nat)
    requires 1 <= i <= n && 1 <= j <= n && i != j && b < Pow2(n)
    ensures CnotTarget(b, i, j, n) < Pow2(n)
    ensures Bit(CnotTarget(b, i, j, n), i, n) == Bit(b, i, n)
    ensures Bit(CnotTarget(b, i, j, n), j, n)
         == if Bit(b, i, n) == 1 then 1 - Bit(b, j, n) else Bit(b, j, n)
    ensures SameBitsExcept(b, CnotTarget(b, i, j, n), n, j)
  {
    FlipBits(b, j, n);
  }

  /** A controlled not undoes itself. */
  lemma CnotInvolutive(b: nat, i: int, j: int, n: nat)
    requires 1 <= i <= n && 1 <= j <= n && i != j && b < Pow2(n)
    ensures CnotTarget(CnotTarget(b, i, j, n), i, j, n) == b
  {
    CnotBits(b, i, j, n);
    if Bit(b, i, n) == 1 {
      FlipInvolutive(b, j, n);
    }
  }

  lemma SwapBitsBits(b: nat, i: int, j: int, n: nat)
    requires 1 <= i <= n && 1 <= j <= n && i != j && b < Pow2(n)
    ensures SwapBits(b, i, j, n) < Pow2(n)
    ensures forall p :: 1 <= p <= n ==>
      Bit(SwapBits(b, i, j, n), p, n)
        == (if p == i then Bit(b, j, n) else if p == j then Bit(b, i, n) else Bit(b, p, n))
  {
    if Bit(b, i, n) != Bit(b, j, n) {
      var f := Flip(b, i, n);
      FlipBits(b, i, n);
      FlipBits(f, j, n);
      var g := Flip(f, j, n);
      forall p | 1 <= p <= n ensures Bit(g, p, n)
        == if p == i then Bit(b, j, n) else if p == j then Bit(b, i, n) else Bit(b, p, n)
      {
        assert SameBitsExcept(b, f, n, i) && SameBitsExcept(f, g, n, j);
      }
    }
  }

  /** Exchanging two qubits twice restores the index. */
  lemma SwapBitsInvolutive(b: nat, i: int, j: int, n: nat)
    requires 1 <= i <= n && 1 <= j <= n && i != j && b < Pow2(n)
    ensures SwapBits(SwapBits(b, i, j, n), i, j, n) == b
  {
    var s := SwapBits(b, i, j, n);
    SwapBitsBits(b, i, j, n);
    SwapBitsBits(s, i, j, n);
    BitsDetermine(SwapBits(s, i, j, n), b, n);
  }

  /**
   * Three controlled nots, alternating control and target, exchange the two
   * qubits: the swap-as-three-CNOTs identity, on basis indices.
   */
  lemma ThreeCnotsSwap(b: nat, i: int, j: int, n: nat)
    requires 1 <= i <= n && 1 <= j <= n && i != j && b < Pow2(n)
    ensures CnotTarget(CnotTarget(CnotTarget(b, i, j, n), j, i, n), i, j, n) == SwapBits(b, i, j, n)
  {
    var t1 := CnotTarget(b, i, j, n);
    CnotBits(b, i, j, n);
    var t2 := CnotTarget(t1, j, i, n);
    CnotBits(t1, j, i, n);
    var t3 := CnotTarget(t2, i, j, n);
    CnotBits(t2, i, j, n);
    var s := SwapBits(b, i, j, n);
    SwapBitsBits(b, i, j, n);
    forall p | 1 <= p <= n ensures Bit(t3, p, n) == Bit(s, p, n) {
      if p != i && p != j {
        assert SameBitsExcept(b, t1, n, j) && SameBitsExcept(t1, t2, n, i)
            && SameBitsExcept(t2, t3, n, j);
        assert Bit(b, p, n) == Bit(t1, p, n) == Bit(t2, p, n) == Bit(t3, p, n);
      } else if p == i {
        assert SameBitsExcept(t2, t3, n, j);
      } else {
        assert SameBitsExcept(t1, t2, n, i);
      }
    }
    BitsDetermine(t3, s, n);
  }

  lemma CcnotBits(b: nat, i: int, j: int, k: int, n: nat)
    requires 1 <= i <= n && 1 <= j <= n && 1 <= k <= n && i != k && j != k && b < Pow2(n)
    ensures CcnotTarget(b, i, j, k, n) < Pow2(n)
    ensures Bit(CcnotTarget(b, i, j, k, n), i, n) == Bit(b, i, n)
    ensures Bit(CcnotTarget(b, i, j, k, n), j, n) == Bit(b, j, n)
    ensures SameBitsExcept(b, CcnotTarget(b, i, j, k, n), n, k)
  {
    FlipBits(b, k, n);
  }

  /** A Toffoli gate undoes itself. */
  lemma CcnotInvolutive(b: nat, i: int, j: int, k: int, n: nat)
    requires 1 <= i <= n && 1 <= j <= n && 1 <= k <= n && i != k && j != k && b < Pow2(n)
    ensures CcnotTarget(CcnotTarget(b, i, j, k, n), i, j, k, n) == b
  {
    CcnotBits(b, i, j, k, n);
    if Bit(b, i, n) == 1 && Bit(b, j, n) == 1 {
      FlipInvolutive(b, k, n);
    }
  }

  lemma CswapBits(b: nat, i: int, j: int, k: int, n: nat)
    requires 1 <= i <= n && 1 <= j <= n && 1 <= k <= n && i != j && i != k && j != k
    requires b < Pow2(n)
    ensures CswapTarget(b, i, j, k, n) < Pow2(n)
    ensures Bit(CswapTarget(b, i, j, k, n), i, n) == Bit(b, i, n)
  {
    SwapBitsBits(b, j, k, n);
  }

  /** A Fredkin gate undoes itself. */
  lemma CswapInvolutive(b: nat, i: int, j: int, k: int, n: nat)
    requires 1 <= i <= n && 1 <= j <= n && 1 <= k <= n && i != j && i != k && j != k
    requires b < Pow2(n)
    ensures CswapTarget(CswapTarget(b, i, j, k, n), i, j, k, n) == b
  {
    CswapBits(b, i, j, k, n);
    if Bit(b, i, n) == 1 {
      SwapBitsInvolutive(b, j, k, n);
    }
  }
}
