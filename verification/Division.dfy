/** The few facts about integer division that chunk arithmetic needs. */
module Division {
  lemma MulGrows(a: nat, b: nat, d: nat)
    requires a < b
    ensures a * d + d <= b * d
  {
    assert b * d == a * d + (b - a) * d;
    MulAtLeast(b - a, d);
  }

  lemma MulAtLeast(k: nat, d: nat)
    requires 1 <= k
    ensures d <= k * d
  {
    assert k * d == d + (k - 1) * d;
  }

  /** Quotient and remainder are determined by their defining equation. */
  lemma DivisionUnique(n: nat, d: nat, q: nat, r: nat)
    requires 0 < d && n == q * d + r && r < d
    ensures n / d == q && n % d == r
  {
    var p, s := n / d, n % d;
    assert n == p * d + s;
    if p < q { MulGrows(p, q, d); }
    if q < p { MulGrows(q, p, d); }
  }

  lemma RemainderStep(n: nat, d: nat)
    requires 0 < d <= n
    ensures (n - d) % d == n % d && 1 <= n / d && (n - d) / d == n / d - 1
  {
    var q, r := n / d, n % d;
    assert n == q * d + r;
    assert q == 0 ==> n == r;
    assert q * d == (q - 1) * d + d;
    DivisionUnique(n - d, d, q - 1, r);
  }

  lemma SmallDivision(n: nat, d: nat)
    requires n < d
    ensures n / d == 0 && n % d == n
  {
    DivisionUnique(n, d, 0, n);
  }

  /** The byte offset at which chunk `k` starts. */
  function Boundary(k: nat, cs: nat): nat {
    k * cs
  }

  /** The chunk that holds byte `p`. */
  function ChunkOf(p: nat, cs: nat): (k: nat)
    requires 0 < cs
    ensures Boundary(k, cs) <= p < Boundary(k, cs) + cs
  {
    assert p == (p / cs) * cs + p % cs;
    p / cs
  }

  lemma BoundaryStep(k: nat, cs: nat)
    ensures Boundary(0, cs) == 0
    ensures Boundary(k + 1, cs) == Boundary(k, cs) + cs
  {
  }

  lemma BoundaryOrder(a: nat, b: nat, cs: nat)
    ensures a < b ==> Boundary(a, cs) + cs <= Boundary(b, cs)
    ensures a <= b ==> Boundary(a, cs) <= Boundary(b, cs) && Boundary(b - a, cs) == Boundary(b, cs) - Boundary(a, cs)
  {
    if a < b { MulGrows(a, b, cs); }
    if a <= b { assert b * cs == (b - a) * cs + a * cs; }
  }

  /** A byte lies in one chunk only. */
  lemma ChunkUnique(p: nat, cs: nat, k: nat)
    requires 0 < cs && Boundary(k, cs) <= p < Boundary(k, cs) + cs
    ensures ChunkOf(p, cs) == k
  {
    BoundaryOrder(k, ChunkOf(p, cs), cs);
    BoundaryOrder(ChunkOf(p, cs), k, cs);
  }

  lemma WholeSum(a: nat, b: nat, cs: nat)
    requires 0 < cs && a % cs == 0 && b % cs == 0
    ensures (a + b) % cs == 0
  {
    var p, q := a / cs, b / cs;
    assert a == p * cs && b == q * cs;
    assert (p + q) * cs == p * cs + q * cs;
    DivisionUnique(a + b, cs, p + q, 0);
  }
}
