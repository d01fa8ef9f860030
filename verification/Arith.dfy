/** Facts about multiplication, division and modulus that the solver needs spelled out. */
module Arith {

  lemma MulMono(a: int, b: int, c: int)
    requires a <= b && 0 <= c
    ensures a * c <= b * c
  {
  }

  /** Euclid: quotient and remainder are determined by a == b * q + r. */
  lemma DivModUnique(a: int, b: int, q: int, r: int)
    requires 0 < b && 0 <= r < b && a == b * q + r
    ensures a / b == q && a % b == r
  {
    var q', r' := a / b, a % b;
    assert b * (q - q') == r' - r;
    if q < q' {
      MulMono(1, q' - q, b);
    } else if q' < q {
      MulMono(1, q - q', b);
    }
  }

  /** a mod n moves by one when a does, wrapping at n. */
  lemma ModSucc(a: nat, n: nat)
    requires 0 < n
    ensures (a + 1) % n == if a % n + 1 == n then 0 else a % n + 1
    ensures (a + 1) / n == if a % n + 1 == n then a / n + 1 else a / n
  {
    var q, r := a / n, a % n;
    assert a == n * q + r;
    if r + 1 == n {
      assert n * (q + 1) == n * q + n;
      DivModUnique(a + 1, n, q + 1, 0);
    } else {
      DivModUnique(a + 1, n, q, r + 1);
    }
  }

  /** Reducing a summand first does not change a sum's residue. */
  lemma ModAdd(b: nat, x: nat, n: nat)
    requires 0 < n
    ensures (b + x % n) % n == (b + x) % n
  {
    var q, r := x / n, x % n;
    var q', r' := (b + r) / n, (b + r) % n;
    assert b + x == n * (q + q') + r' by {
      assert x == n * q + r && b + r == n * q' + r';
      assert n * (q + q') == n * q + n * q';
    }
    DivModUnique(b + x, n, q + q', r');
  }

  /** Two residues shifted by the same amount differ. */
  lemma ModCancel(b: nat, j: nat, r: nat, n: nat)
    requires j < n && r < n && (b + j) % n == (b + r) % n
    ensures j == r
  {
    var x, y := (b + j) / n, (b + r) / n;
    assert j - r == n * (x - y);
    if x > y {
      MulMono(1, x - y, n);
    } else if y > x {
      MulMono(1, y - x, n);
    }
  }

  /** ceil(a / b), counted out. */
  function CeilDiv(a: nat, b: nat): nat
    requires b > 0
  {
    if a == 0 then 0 else if a <= b then 1 else 1 + CeilDiv(a - b, b)
  }

  lemma {:induction false} CeilDivIs(a: nat, b: nat)
    requires b > 0
    ensures CeilDiv(a, b) == (a + b - 1) / b
  {
    if a > b {
      CeilDivIs(a - b, b);
      var q, r := (a - 1) / b, (a - 1) % b;
      assert a - 1 == b * q + r;
      DivModUnique(a + b - 1, b, q + 1, r) by {
        assert b * (q + 1) == b * q + b;
      }
    } else {
      DivModUnique(a + b - 1, b, if a == 0 then 0 else 1, if a == 0 then b - 1 else a - 1);
    }
  }

  /** q divisors are too few exactly when q is below the ceiling. */
  lemma {:induction false} CeilDivAbove(a: nat, b: nat, q: nat)
    requires b > 0
    ensures q * b < a <==> q < CeilDiv(a, b)
  {
    if q == 0 {
    } else if a <= b {
      MulMono(1, q, b);
    } else {
      CeilDivAbove(a - b, b, q - 1);
      assert q * b == (q - 1) * b + b;
    }
  }

  /** Reduction of a value below 2n: counting, or adding in a type of n values, with the
      carry dropped. */
  function Wrap(i: nat, n: nat): (r: nat)
    requires i < 2 * n
    ensures r < n
  {
    if i < n then i else i - n
  }

  lemma WrapIsMod(i: nat, n: nat)
    requires i < 2 * n
    ensures Wrap(i, n) == i % n
  {
    DivModUnique(i, n, if i < n then 0 else 1, Wrap(i, n));
  }
}
