/**
 * Chains of Kronecker products of 2 x 2 single-qubit operators, composed left
 * to right in qubit order: factor 1 is outermost, so it acts on the most
 * significant bit of a basis index. The closed form `ChainEntry` says that an
 * entry of the chain is the product, over the qubits, of the factor entries
 * selected by the qubit values of the row and of the column.
 */
module Kronecker {
  import opened Bits
  import opened Matrices

  /**
   * fs[0] (x) fs[1] (x) ... (x) fs[m-1], accumulated from the left and
   * starting from the first factor itself, so one factor is returned as is.
   */
  function Chain(fs: seq<Op>, m: nat): (K: Matrix)
    requires 1 <= m <= |fs|
    ensures IsSquare(K, Pow2(m))
  {
    if m == 1 then fs[0].AsMatrix() else Kron(Chain(fs, m - 1), fs[m - 1])
  }

  /** The Kronecker product of all the factors. */
  function KronChain(fs: seq<Op>): (K: Matrix)
    requires |fs| >= 1
    ensures IsSquare(K, Pow2(|fs|))
  {
    Chain(fs, |fs|)
  }

  /** Entry of factor p selected by the values of qubit p (of n) in row r and column c. */
  function FactorEntry(fs: seq<Op>, r: nat, c: nat, p: int, n: nat): real
    requires 1 <= p <= n <= |fs|
  {
    fs[p - 1].At(Bit(r, p, n), Bit(c, p, n))
  }

  /** Product of the factor entries of qubits 1..m, reading r and c as n-qubit indices. */
  function EntryProduct(fs: seq<Op>, r: nat, c: nat, m: nat, n: nat): real
    requires m <= n <= |fs|
  {
    if m == 0 then 1.0 else EntryProduct(fs, r, c, m - 1, n) * FactorEntry(fs, r, c, m, n)
  }

  /** Dropping the last qubit of row and column keeps the entries of the other factors. */
  lemma {:induction false} ProductShift(fs: seq<Op>, r: nat, c: nat, k: nat, m: nat)
    requires 2 <= m <= |fs| && k <= m - 1
    ensures EntryProduct(fs, r / 2, c / 2, k, m - 1) == EntryProduct(fs, r, c, k, m)
  {
    if k > 0 {
      ProductShift(fs, r, c, k - 1, m);
    }
  }

  /** One more factor: an entry of the chain is a block entry times an entry of the new factor. */
  lemma {:induction false} ChainStep(fs: seq<Op>, m: nat, r: nat, c: nat)
    requires 2 <= m <= |fs| && r < Pow2(m) && c < Pow2(m)
    ensures r / 2 < Pow2(m - 1) && c / 2 < Pow2(m - 1)
    ensures Chain(fs, m)[r][c] == Chain(fs, m - 1)[r / 2][c / 2] * fs[m - 1].At(r % 2, c % 2)
  {
    KronEntry(Chain(fs, m - 1), fs[m - 1], r, c);
  }

  /** The closed form for one factor. */
  lemma {:induction false} ChainEntryBase(fs: seq<Op>, r: nat, c: nat)
    requires 1 <= |fs| && r < 2 && c < 2
    ensures Chain(fs, 1)[r][c] == EntryProduct(fs, r, c, 1, 1)
  {
    assert Bit(r, 1, 1) == r && Bit(c, 1, 1) == c;
    assert EntryProduct(fs, r, c, 1, 1) == 1.0 * FactorEntry(fs, r, c, 1, 1);
  }

  /** The product for m qubits is the product for the first m - 1 qubits times the last factor entry. */
  lemma {:induction false} ProductStep(fs: seq<Op>, r: nat, c: nat, m: nat)
    requires 2 <= m <= |fs|
    ensures EntryProduct(fs, r, c, m, m) == EntryProduct(fs, r / 2, c / 2, m - 1, m - 1) * fs[m - 1].At(r % 2, c % 2)
  {
    ProductShift(fs, r, c, m - 1, m);
    assert FactorEntry(fs, r, c, m, m) == fs[m - 1].At(r % 2, c % 2);
  }

  /** Closed form of a Kronecker chain: each entry is a product over the qubits. */
  lemma {:induction false} ChainEntry(fs: seq<Op>, m: nat, r: nat, c: nat)
    requires 1 <= m <= |fs| && r < Pow2(m) && c < Pow2(m)
    ensures Chain(fs, m)[r][c] == EntryProduct(fs, r, c, m, m)
  {
    if m == 1 {
      ChainEntryBase(fs, r, c);
    } else {
      ChainStep(fs, m, r, c);
      ChainEntry(fs, m - 1, r / 2, c / 2);
      ProductStep(fs, r, c, m);
    }
  }

  /** A zero factor entry makes the whole product zero. */
  lemma {:induction false} ProductZero(fs: seq<Op>, r: nat, c: nat, m: nat, n: nat, q: int)
    requires m <= n <= |fs| && 1 <= q <= m
    requires FactorEntry(fs, r, c, q, n) == 0.0
    ensures EntryProduct(fs, r, c, m, n) == 0.0
  {
    var e := EntryProduct(fs, r, c, m - 1, n);
    assert EntryProduct(fs, r, c, m, n) == e * FactorEntry(fs, r, c, m, n);
    if q < m {
      ProductZero(fs, r, c, m - 1, n, q);
      assert e == 0.0;
    }
  }

  /** When every factor entry but the one of qubit q is 1, the product is that entry. */
  lemma {:induction false} ProductOnlyAt(fs: seq<Op>, r: nat, c: nat, m: nat, n: nat, q: int)
    requires m <= n <= |fs| && 1 <= q <= n
    requires forall p :: 1 <= p <= m && p != q ==> FactorEntry(fs, r, c, p, n) == 1.0
    ensures EntryProduct(fs, r, c, m, n) == if q <= m then FactorEntry(fs, r, c, q, n) else 1.0
  {
    if m > 0 {
      ProductOnlyAt(fs, r, c, m - 1, n, q);
      if m != q {
        assert FactorEntry(fs, r, c, m, n) == 1.0;
      }
    }
  }
}
