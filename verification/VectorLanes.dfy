/** The vector adder and multiplier (fu/vector/): a word is cut into lanes, each lane is
    computed by its own small unit, and the lanes are put together again.

    In combined mode the lanes must act as one wide unit; otherwise each lane must ignore
    the others.  Both are proved on whole words, and where the units fall short the exact
    condition is given. */
module VectorLanes {
  import Arith

  function Pow(b: nat, n: nat): (p: nat)
    ensures b > 0 ==> p > 0
  {
    if n == 0 then 1 else b * Pow(b, n - 1)
  }

  /** The lanes of a word, lowest first; `b` is the number of values of one lane. */
  function Split(v: nat, b: nat, n: nat): (s: seq<nat>)
    requires b > 0
    ensures |s| == n
    decreases n
  {
    if n == 0 then [] else [v % b] + Split(v / b, b, n - 1)
  }

  /** Lanes put together. */
  function Join(s: seq<nat>, b: nat): nat {
    if s == [] then 0 else s[0] + b * Join(s[1..], b)
  }

  predicate InLanes(s: seq<nat>, b: nat) {
    forall k :: 0 <= k < |s| ==> s[k] < b
  }

  lemma {:induction false} JoinBound(s: seq<nat>, b: nat)
    requires b > 0 && InLanes(s, b)
    ensures Join(s, b) < Pow(b, |s|)
  {
    if s != [] {
      JoinBound(s[1..], b);
      Arith.MulMono(Join(s[1..], b) + 1, Pow(b, |s| - 1), b);
      assert b * (Join(s[1..], b) + 1) == b * Join(s[1..], b) + b;
    }
  }

  lemma DivBelow(v: nat, b: nat, p: nat)
    requires b > 0 && v < b * p
    ensures v / b < p
  {
    var q := v / b;
    assert v == b * q + v % b;
    if q >= p { Arith.MulMono(p, q, b); }
  }

  /** Cutting a word into lanes and putting them together gives the word back. */
  lemma {:induction false} SplitJoin(v: nat, b: nat, n: nat)
    requires b > 0 && v < Pow(b, n)
    ensures InLanes(Split(v, b, n), b) && Join(Split(v, b, n), b) == v
    decreases n
  {
    if n > 0 {
      DivBelow(v, b, Pow(b, n - 1));
      SplitJoin(v / b, b, n - 1);
      SplitStep(v, b, n);
    }
  }

  lemma SplitStep(v: nat, b: nat, n: nat)
    requires b > 0 && n > 0
    ensures Split(v, b, n)[0] == v % b && Split(v, b, n)[1..] == Split(v / b, b, n - 1)
    ensures v == b * (v / b) + v % b
  {
  }

  lemma DivTwice(v: nat, b: nat, p: nat)
    requires b > 0 && p > 0
    ensures b * p > 0 && v / b / p == v / (b * p)
  {
    var q, r := v / b, v % b;
    var u, s := q / p, q % p;
    assert v == b * q + r && q == p * u + s;
    Regroup(b, p, q, r, u, s, 0);
    LowBoundWide(b, p, r, s);
    Arith.DivModUnique(v, b * p, u, r + b * s);
  }

  lemma DivOne(v: nat)
    ensures v / 1 == v
  {
  }

  /** Lane k of a word. */
  lemma {:induction false} SplitAt(v: nat, b: nat, n: nat, k: nat)
    requires b > 0 && k < n
    ensures Pow(b, k) > 0 && Split(v, b, n)[k] == v / Pow(b, k) % b
    decreases n
  {
    if k == 0 {
      DivOne(v);
    } else {
      var p := Pow(b, k - 1);
      var up := Split(v / b, b, n - 1);
      SplitAt(v / b, b, n - 1, k - 1);
      DivTwice(v, b, p);
      assert Split(v, b, n)[k] == up[k - 1];
    }
  }

  lemma {:induction false} JoinSplit(s: seq<nat>, b: nat)
    requires b > 0 && InLanes(s, b)
    ensures Split(Join(s, b), b, |s|) == s
  {
    if s != [] {
      JoinSplit(s[1..], b);
      Arith.DivModUnique(Join(s, b), b, Join(s[1..], b), s[0]);
      assert s == [s[0]] + s[1..];
    }
  }

  /** Words with different lanes are different. */
  lemma JoinInjective(s: seq<nat>, t: seq<nat>, b: nat)
    requires b > 0 && InLanes(s, b) && InLanes(t, b) && |s| == |t|
    ensures Join(s, b) == Join(t, b) <==> s == t
  {
    JoinSplit(s, b);
    JoinSplit(t, b);
  }

  // ---- the adder ----

  datatype AddOp =
    | VecAdd | VecAddCombined | VecSub | VecSubCombined
    | VecAddConst | VecAddConstCombined | VecSubConst | VecSubConstCombined

  predicate Subtracts(op: AddOp) {
    op.VecSub? || op.VecSubCombined? || op.VecSubConst? || op.VecSubConstCombined?
  }

  /** `combine_adder`.  For both constant additions the source compares the operation with
      OPT_VEC_ADD_COMBINED, which it is not. */
  predicate Combines(op: AddOp) {
    op.VecAddCombined? || op.VecSubCombined? || op.VecSubConstCombined?
  }

  /** One lane: a result one bit wider than the lane; the top bit is the carry or borrow. */
  function LaneMsg(b: nat, sub: bool, x: nat, y: nat, c: nat): (m: nat)
    requires x < b && y < b && c <= 1
    ensures m < 2 * b
  {
    if !sub then x + y + c
    else if x >= y + c then x - y - c
    else 2 * b + x - y - c
  }

  function CarryOf(b: nat, m: nat): (c: nat)
    requires m < 2 * b
    ensures c <= 1
  {
    if m >= b then 1 else 0
  }

  function LaneOf(b: nat, m: nat): (r: nat)
    requires m < 2 * b
    ensures r < b
  {
    if m >= b then m - b else m
  }

  /** The lanes' results; the carry is passed on only in combined mode. */
  function AddLanes(b: nat, sub: bool, combine: bool, xs: seq<nat>, ys: seq<nat>, c: nat): (r: seq<nat>)
    requires |xs| == |ys| && InLanes(xs, b) && InLanes(ys, b) && c <= 1
    ensures |r| == |xs| && InLanes(r, b)
  {
    if xs == [] then []
    else
      var m := LaneMsg(b, sub, xs[0], ys[0], if combine then c else 0);
      [LaneOf(b, m)] + AddLanes(b, sub, combine, xs[1..], ys[1..], CarryOf(b, m))
  }

  /** The carry or borrow out of the top lane. */
  function TopCarry(b: nat, sub: bool, combine: bool, xs: seq<nat>, ys: seq<nat>, c: nat): (t: nat)
    requires |xs| == |ys| && InLanes(xs, b) && InLanes(ys, b) && c <= 1
    ensures t <= 1
  {
    if xs == [] then c
    else
      var m := LaneMsg(b, sub, xs[0], ys[0], if combine then c else 0);
      TopCarry(b, sub, combine, xs[1..], ys[1..], CarryOf(b, m))
  }

  lemma OneMoreLane(b: nat, sub: bool, combine: bool, xs: seq<nat>, ys: seq<nat>, i: nat, c: nat)
    requires |xs| == |ys| && InLanes(xs, b) && InLanes(ys, b) && c <= 1 && i < |xs|
    ensures var m := LaneMsg(b, sub, xs[i], ys[i], if combine then c else 0);
            && AddLanes(b, sub, combine, xs[i..], ys[i..], c)
               == [LaneOf(b, m)] + AddLanes(b, sub, combine, xs[i + 1..], ys[i + 1..], CarryOf(b, m))
            && TopCarry(b, sub, combine, xs[i..], ys[i..], c)
              == TopCarry(b, sub, combine, xs[i + 1..], ys[i + 1..], CarryOf(b, m))
  {
    assert xs[i..][1..] == xs[i + 1..] && ys[i..][1..] == ys[i + 1..];
  }

  /** The row of lane units, from the lowest: each gets the carry of the one below. */
  method ComputeLanes(b: nat, sub: bool, combine: bool, xs: seq<nat>, ys: seq<nat>) returns (lanes: seq<nat>,
          carry: nat)
    requires |xs| == |ys| && InLanes(xs, b) && InLanes(ys, b)
    ensures lanes == AddLanes(b, sub, combine, xs, ys, 0) && carry == TopCarry(b, sub, combine, xs, ys, 0)
  {
    lanes, carry := [], 0;
    for i := 0 to |xs|
      invariant carry <= 1
      invariant AddLanes(b, sub, combine, xs, ys, 0) == lanes + AddLanes(b, sub, combine, xs[i..], ys[i..], carry)
      invariant TopCarry(b, sub, combine, xs, ys, 0) == TopCarry(b, sub, combine, xs[i..], ys[i..], carry)
    {
      OneMoreLane(b, sub, combine, xs, ys, i, carry);
      var m := LaneMsg(b, sub, xs[i], ys[i], if combine then carry else 0);
      lanes := lanes + [LaneOf(b, m)];
      carry := CarryOf(b, m);
    }
  }

  /** `VectorAdderComboRTL` on whole words of n lanes. */
  function VectorAdd(b: nat, n: nat, op: AddOp, x: nat, y: nat): nat
    requires b > 0 && x < Pow(b, n) && y < Pow(b, n)
  {
    SplitJoin(x, b, n);
    SplitJoin(y, b, n);
    Join(AddLanes(b, Subtracts(op), Combines(op), Split(x, b, n), Split(y, b, n), 0), b)
  }

  /** What the lanes together owe: the sum or difference, carries included. */
  predicate Balanced(sub: bool, r: int, p: int, t: int, x: int, y: int, c: int) {
    if sub then r - p * t == x - y - c else r + p * t == x + y + c
  }

  lemma {:induction false} CarryChain(b: nat, sub: bool, xs: seq<nat>, ys: seq<nat>, c: nat)
    requires b > 0 && |xs| == |ys| && InLanes(xs, b) && InLanes(ys, b) && c <= 1
    ensures Balanced(sub, Join(AddLanes(b, sub, true, xs, ys, c), b), Pow(b, |xs|), TopCarry(b, sub, true, xs, ys, c),
                     Join(xs, b), Join(ys, b), c)
  {
    if xs != [] {
      var m := LaneMsg(b, sub, xs[0], ys[0], c);
      var c' := CarryOf(b, m);
      CarryChain(b, sub, xs[1..], ys[1..], c');
      var rest := AddLanes(b, sub, true, xs[1..], ys[1..], c');
      assert AddLanes(b, sub, true, xs, ys, c) == [LaneOf(b, m)] + rest && ([LaneOf(b, m)] + rest)[1..] == rest;
      Scale(b, sub, Join(rest, b), Pow(b, |xs| - 1), TopCarry(b, sub, true, xs[1..], ys[1..], c'),
            Join(xs[1..], b), Join(ys[1..], b), c', xs[0], ys[0], c);
    }
  }

  /** One more lane below. */
  lemma Scale(b: nat, sub: bool, r: nat, p: nat, t: nat, x: nat, y: nat, c': nat, x0: nat, y0: nat, c: nat)
    requires Balanced(sub, r, p, t, x, y, c') && x0 < b && y0 < b && c <= 1
    requires c' == CarryOf(b, LaneMsg(b, sub, x0, y0, c))
    ensures Balanced(sub, LaneOf(b, LaneMsg(b, sub, x0, y0, c)) + b * r, b * p, t, x0 + b * x, y0 + b * y, c)
  {
    assert b * p * t == b * (p * t);
    if sub {
      assert b * (r - p * t) == b * r - b * (p * t);
      assert b * (x - y - c') == b * x - b * y - b * c';
    } else {
      assert b * (r + p * t) == b * r + b * (p * t);
      assert b * (x + y + c') == b * x + b * y + b * c';
    }
  }

  /** The exact sum or difference. */
  function Wide(sub: bool, x: int, y: int): int {
    if sub then x - y else x + y
  }

  lemma WideResidue(sub: bool, x: int, y: int, p: nat, t: int, r: nat)
    requires p > 0 && r < p && Balanced(sub, r, p, t, x, y, 0)
    ensures r == Wide(sub, x, y) % p
  {
    var q: int := if sub then -t else t;
    assert p * q == if sub then -(p * t) else p * t;
    Arith.DivModUnique(Wide(sub, x, y), p, q, r);
  }

  lemma ChainIsWide(b: nat, sub: bool, xs: seq<nat>, ys: seq<nat>)
    requires b > 0 && |xs| == |ys| && InLanes(xs, b) && InLanes(ys, b)
    ensures Pow(b, |xs|) > 0
    ensures Join(AddLanes(b, sub, true, xs, ys, 0), b) == Wide(sub, Join(xs, b), Join(ys, b)) % Pow(b, |xs|)
  {
    CarryChain(b, sub, xs, ys, 0);
    var r := AddLanes(b, sub, true, xs, ys, 0);
    JoinBound(r, b);
    WideResidue(sub, Join(xs, b), Join(ys, b), Pow(b, |xs|), TopCarry(b, sub, true, xs, ys, 0), Join(r, b));
  }

  lemma OneUnit(b: nat, n: nat, op: AddOp, x: nat, y: nat)
    requires b > 0 && x < Pow(b, n) && y < Pow(b, n) && Combines(op)
    ensures Pow(b, n) > 0
    ensures VectorAdd(b, n, op, x, y) == Wide(Subtracts(op), x, y) % Pow(b, n)
  {
    SplitJoin(x, b, n);
    SplitJoin(y, b, n);
    ChainIsWide(b, Subtracts(op), Split(x, b, n), Split(y, b, n));
  }

  /** OPT_VEC_ADD_COMBINED is one wide addition modulo the word, OPT_VEC_SUB_COMBINED and
      OPT_VEC_SUB_CONST_COMBINED are one wide subtraction. */
  lemma CombinedIsWide(b: nat, n: nat, x: nat, y: nat)
    requires b > 0 && x < Pow(b, n) && y < Pow(b, n)
    ensures Pow(b, n) > 0
    ensures VectorAdd(b, n, VecAddCombined, x, y) == (x + y) % Pow(b, n)
    ensures VectorAdd(b, n, VecSubCombined, x, y) == (x - y) % Pow(b, n)
    ensures VectorAdd(b, n, VecSubConstCombined, x, y) == (x - y) % Pow(b, n)
  {
    OneUnit(b, n, VecAddCombined, x, y);
    OneUnit(b, n, VecSubCombined, x, y);
    OneUnit(b, n, VecSubConstCombined, x, y);
  }

  lemma LaneIsModular(b: nat, sub: bool, x: nat, y: nat)
    requires b > 0 && x < b && y < b
    ensures LaneOf(b, LaneMsg(b, sub, x, y, 0)) == Wide(sub, x, y) % b
  {
    var r := LaneOf(b, LaneMsg(b, sub, x, y, 0));
    var q := if sub then (if x >= y then 0 else -1) else if x + y >= b then 1 else 0;
    Arith.DivModUnique(Wide(sub, x, y), b, q, r);
  }

  lemma {:induction false} UncombinedLane(b: nat, sub: bool, xs: seq<nat>, ys: seq<nat>, c: nat, k: nat)
    requires b > 0 && |xs| == |ys| && InLanes(xs, b) && InLanes(ys, b) && c <= 1 && k < |xs|
    ensures AddLanes(b, sub, false, xs, ys, c)[k] == LaneOf(b, LaneMsg(b, sub, xs[k], ys[k], 0))
  {
    if k > 0 {
      UncombinedLane(b, sub, xs[1..], ys[1..], CarryOf(b, LaneMsg(b, sub, xs[0], ys[0], 0)), k - 1);
    }
  }

  lemma SeparateUnits(b: nat, n: nat, op: AddOp, x: nat, y: nat, k: nat)
    requires b > 0 && x < Pow(b, n) && y < Pow(b, n) && !Combines(op) && k < n
    ensures Split(VectorAdd(b, n, op, x, y), b, n)[k] == Wide(Subtracts(op), Split(x, b, n)[k], Split(y, b, n)[k]) % b
  {
    SplitJoin(x, b, n);
    SplitJoin(y, b, n);
    var xs, ys := Split(x, b, n), Split(y, b, n);
    JoinSplit(AddLanes(b, Subtracts(op), false, xs, ys, 0), b);
    UncombinedLane(b, Subtracts(op), xs, ys, 0, k);
    LaneIsModular(b, Subtracts(op), xs[k], ys[k]);
  }

  /** In the other five operations every lane is its own modular addition or subtraction;
      OPT_VEC_ADD_CONST_COMBINED is one of them. */
  lemma UncombinedIsLanewise(b: nat, n: nat, op: AddOp, x: nat, y: nat, k: nat)
    requires b > 0 && x < Pow(b, n) && y < Pow(b, n) && k < n
    ensures op in {VecAdd, VecAddConst, VecAddConstCombined}
        ==> Split(VectorAdd(b, n, op, x, y), b, n)[k] == (Split(x, b, n)[k] + Split(y, b, n)[k]) % b
    ensures op in {VecSub, VecSubConst}
        ==> Split(VectorAdd(b, n, op, x, y), b, n)[k] == (Split(x, b, n)[k] - Split(y, b, n)[k]) % b
  {
    if op in {VecAdd, VecAddConst, VecAddConstCombined, VecSub, VecSubConst} {
      SeparateUnits(b, n, op, x, y, k);
    }
  }

  // ---- the combined constant addition ----

  /** No lane below the top one carries. */
  predicate NoCarries(xs: seq<nat>, ys: seq<nat>, b: nat)
    requires |xs| == |ys|
  {
    forall k :: 0 <= k < |xs| - 1 ==> xs[k] + ys[k] < b
  }

  /** With a carry in of zero, chaining changes no lane exactly when no lane below the top
      carries. */
  lemma {:induction false} ChainingIsIdle(b: nat, xs: seq<nat>, ys: seq<nat>)
    requires b > 1 && |xs| == |ys| && InLanes(xs, b) && InLanes(ys, b)
    ensures AddLanes(b, false, true, xs, ys, 0) == AddLanes(b, false, false, xs, ys, 0) <==> NoCarries(xs, ys, b)
  {
    if |xs| > 1 {
      var m := LaneMsg(b, false, xs[0], ys[0], 0);
      var on := AddLanes(b, false, true, xs[1..], ys[1..], CarryOf(b, m));
      var off := AddLanes(b, false, false, xs[1..], ys[1..], CarryOf(b, m));
      assert AddLanes(b, false, true, xs, ys, 0) == [LaneOf(b, m)] + on;
      assert AddLanes(b, false, false, xs, ys, 0) == [LaneOf(b, m)] + off;
      assert ([LaneOf(b, m)] + on)[1..] == on && ([LaneOf(b, m)] + off)[1..] == off;
      assert off == AddLanes(b, false, false, xs[1..], ys[1..], 0);
      assert NoCarries(xs, ys, b) <==> xs[0] + ys[0] < b && NoCarries(xs[1..], ys[1..], b) by {
        assert forall k :: 0 <= k < |xs| - 2 ==> xs[1..][k] == xs[k + 1] && ys[1..][k] == ys[k + 1];
        if xs[0] + ys[0] < b && NoCarries(xs[1..], ys[1..], b) {
          forall k | 0 <= k < |xs| - 1 ensures xs[k] + ys[k] < b {
            if k > 0 { assert xs[1..][k - 1] + ys[1..][k - 1] < b; }
          }
        }
      }
      if m < b {
        ChainingIsIdle(b, xs[1..], ys[1..]);
      } else {
        CarryDisturbs(b, xs[1], ys[1]);
        assert on[0] != off[0];
      }
    }
  }

  lemma CarryDisturbs(b: nat, x: nat, y: nat)
    requires b > 1 && x < b && y < b
    ensures LaneOf(b, LaneMsg(b, false, x, y, 1)) != LaneOf(b, LaneMsg(b, false, x, y, 0))
  {
  }

  /** OPT_VEC_ADD_CONST_COMBINED never chains its lanes: it is the wide addition its name
      promises exactly when no lane below the top one carries. */
  lemma ConstCombinedIsWideExactly(b: nat, n: nat, x: nat, y: nat)
    requires b > 1 && x < Pow(b, n) && y < Pow(b, n)
    ensures Pow(b, n) > 0
    ensures VectorAdd(b, n, VecAddConstCombined, x, y) == (x + y) % Pow(b, n)
       <==> NoCarries(Split(x, b, n), Split(y, b, n), b)
  {
    CombinedIsWide(b, n, x, y);
    SplitJoin(x, b, n);
    SplitJoin(y, b, n);
    var xs, ys := Split(x, b, n), Split(y, b, n);
    ChainingIsIdle(b, xs, ys);
    JoinInjective(AddLanes(b, false, true, xs, ys, 0), AddLanes(b, false, false, xs, ys, 0), b);
  }

  // ---- the multiplier ----

  /** Four lanes. */
  predicate FourLanes(x: seq<nat>, b: nat) {
    |x| == 4 && InLanes(x, b)
  }

  /** The word 1, b, b^2, b^3 times the four products, kept to the word's width. */
  function Recombine(b: nat, p0: nat, p1: nat, p2: nat, p3: nat): nat
    requires b > 0
  {
    (p0 + b * p1 + b * b * p2 + b * b * b * p3) % Pow(b, 4)
  }

  /** OPT_VEC_MUL: every lane's double-width product, shifted to its lane. */
  function VectorMul(b: nat, x: seq<nat>, y: seq<nat>): nat
    requires b > 0 && FourLanes(x, b) && FourLanes(y, b)
  {
    Recombine(b, x[0] * y[0], x[1] * y[1], x[2] * y[2], x[3] * y[3])
  }

  /** OPT_VEC_MUL_COMBINED: the four partial products of the two low lanes. */
  function CombinedMul(b: nat, x: seq<nat>, y: seq<nat>): nat
    requires b > 0 && FourLanes(x, b) && FourLanes(y, b)
  {
    (x[0] * y[0] + b * (x[0] * y[1]) + b * (x[1] * y[0]) + b * b * (x[1] * y[1])) % Pow(b, 4)
  }

  /** The word formed by two lanes. */
  function TwoLanes(b: nat, x0: nat, x1: nat): nat {
    x0 + b * x1
  }

  lemma PartialProducts(b: nat, x0: nat, x1: nat, y0: nat, y1: nat)
    ensures TwoLanes(b, x0, x1) * TwoLanes(b, y0, y1) == x0 * y0 + b * (x0 * y1) + b * (x1 * y0) + b * b * (x1 * y1)
  {
    assert (x0 + b * x1) * (y0 + b * y1) == x0 * (y0 + b * y1) + (b * x1) * (y0 + b * y1);
    assert x0 * (y0 + b * y1) == x0 * y0 + b * (x0 * y1);
    assert (b * x1) * (y0 + b * y1) == b * (x1 * y0) + b * b * (x1 * y1);
  }

  lemma ProductBound(a: nat, c: nat, m: nat)
    requires a < m && c < m
    ensures a * c < m * m
  {
    Arith.MulMono(a, m, c);
    Arith.MulMono(c + 1, m, m);
    assert (c + 1) * m == c * m + m && m * c == c * m;
  }

  lemma TwoLanesBound(b: nat, x0: nat, x1: nat)
    requires x0 < b && x1 < b
    ensures TwoLanes(b, x0, x1) < b * b
  {
    Arith.MulMono(x1 + 1, b, b);
    assert (x1 + 1) * b == b * x1 + b;
  }

  lemma ProductFits(b: nat, u: nat, v: nat)
    requires u < b * b && v < b * b
    ensures 0 <= u * v < Pow(b, 4)
  {
    Arith.MulMono(0, u, v);
    ProductBound(u, v, b * b);
    assert (b * b) * (b * b) == b * b * b * b;
    Powers(b);
  }

  /** Combined multiplication is the exact product of the two low-lane operands. */
  lemma CombinedMulIsExact(b: nat, x: seq<nat>, y: seq<nat>)
    requires b > 0 && FourLanes(x, b) && FourLanes(y, b)
    ensures CombinedMul(b, x, y) == TwoLanes(b, x[0], x[1]) * TwoLanes(b, y[0], y[1])
  {
    var u, v := TwoLanes(b, x[0], x[1]), TwoLanes(b, y[0], y[1]);
    PartialProducts(b, x[0], x[1], y[0], y[1]);
    TwoLanesBound(b, x[0], x[1]);
    TwoLanesBound(b, y[0], y[1]);
    ProductFits(b, u, v);
    Arith.DivModUnique(u * v, Pow(b, 4), 0, u * v);
  }

  // ---- lane-wise multiplication ----

  /** Adding a value shifted up by one lane: the low lane keeps its residue, the rest is
      carried. */
  lemma LowLane(b: nat, p: nat, rest: nat, w: nat)
    requires b > 0 && w > 0
    ensures b * w > 0 && (p + b * rest) % (b * w) == p % b + b * ((p / b + rest) % w)
  {
    var q, r := p / b, p % b;
    var u, s := (q + rest) / w, (q + rest) % w;
    assert p == b * q + r && q + rest == w * u + s;
    Regroup(b, w, q, r, u, s, rest);
    LowBoundWide(b, w, r, s);
    Arith.DivModUnique(p + b * rest, b * w, u, r + b * s);
  }

  lemma Regroup(b: nat, w: nat, q: nat, r: nat, u: nat, s: nat, rest: nat)
    requires q + rest == w * u + s
    ensures b * q + r + b * rest == b * w * u + (r + b * s)
  {
    assert b * (q + rest) == b * q + b * rest;
    assert b * (w * u + s) == b * w * u + b * s;
  }

  lemma LowBoundWide(b: nat, w: nat, r: nat, s: nat)
    requires r < b && s < w
    ensures r + b * s < b * w
  {
    Arith.MulMono(s + 1, w, b);
    assert (s + 1) * b == b * s + b && w * b == b * w;
  }

  /** The lanes of a lane-wise product, from the lowest: each takes what the lanes below
      carry into it. */
  function MulLanes(b: nat, ps: seq<nat>, c: nat): (r: seq<nat>)
    requires b > 0
    ensures |r| == |ps| && InLanes(r, b)
  {
    if ps == [] then [] else [(ps[0] + c) % b] + MulLanes(b, ps[1..], (ps[0] + c) / b)
  }

  /** The products, each shifted to its lane, added up. */
  function Total(ps: seq<nat>, b: nat): nat {
    if ps == [] then 0 else ps[0] + b * Total(ps[1..], b)
  }

  lemma {:induction false} MulLanesAre(b: nat, ps: seq<nat>, c: nat)
    requires b > 0
    ensures Pow(b, |ps|) > 0
    ensures ps != [] || c == 0 ==> (c + Total(ps, b)) % Pow(b, |ps|) == Join(MulLanes(b, ps, c), b)
  {
    if ps == [] {
    } else if |ps| == 1 {
      assert Total(ps[1..], b) == 0 && MulLanes(b, ps[1..], (ps[0] + c) / b) == [];
      assert Pow(b, 1) == b * Pow(b, 0) == b;
      LowLane(b, ps[0] + c, 0, 1);
      OneLane(b, ps, c);
    } else {
      var c' := (ps[0] + c) / b;
      MulLanesAre(b, ps[1..], c');
      LowLane(b, ps[0] + c, Total(ps[1..], b), Pow(b, |ps| - 1));
      var rest := MulLanes(b, ps[1..], c');
      assert MulLanes(b, ps, c) == [(ps[0] + c) % b] + rest && ([(ps[0] + c) % b] + rest)[1..] == rest;
    }
  }

  lemma OneLane(b: nat, ps: seq<nat>, c: nat)
    requires b > 0 && |ps| == 1
    ensures Join(MulLanes(b, ps, c), b) == (ps[0] + c) % b && Total(ps, b) == ps[0]
  {
    assert MulLanes(b, ps[1..], (ps[0] + c) / b) == [];
    assert MulLanes(b, ps, c) == [(ps[0] + c) % b] && [(ps[0] + c) % b][1..] == [];
    assert Join([], b) == 0 && Total(ps[1..], b) == 0;
  }

  /** Every lane holds its own product, modulo the lane. */
  predicate Exact(b: nat, lanes: seq<nat>, ps: seq<nat>)
    requires b > 0 && |lanes| == |ps|
  {
    forall k :: 0 <= k < |ps| ==> lanes[k] == ps[k] % b
  }

  /** Every product but the top one fits its lane. */
  predicate Fit(b: nat, ps: seq<nat>) {
    forall k :: 0 <= k < |ps| - 1 ==> ps[k] < b
  }

  lemma ExactStep(b: nat, lanes: seq<nat>, ps: seq<nat>)
    requires b > 0 && |lanes| == |ps| > 0
    ensures Exact(b, lanes, ps) <==> lanes[0] == ps[0] % b && Exact(b, lanes[1..], ps[1..])
  {
    assert forall k :: 0 < k < |ps| ==> lanes[1..][k - 1] == lanes[k] && ps[1..][k - 1] == ps[k];
  }

  lemma FitStep(b: nat, ps: seq<nat>)
    requires |ps| > 1
    ensures Fit(b, ps) <==> ps[0] < b && Fit(b, ps[1..])
  {
    assert forall k :: 0 < k < |ps| ==> ps[1..][k - 1] == ps[k];
  }

  /** A lane-wise product is exact in every lane exactly when no product but the top one
      overflows its lane. */
  lemma {:induction false} LanesExact(b: nat, ps: seq<nat>)
    requires b > 1 && forall k :: 0 <= k < |ps| ==> ps[k] < b * b
    ensures Exact(b, MulLanes(b, ps, 0), ps) <==> Fit(b, ps)
  {
    if |ps| > 1 {
      var c := MulLanesStep(b, ps);
      ExactStep(b, MulLanes(b, ps, 0), ps);
      FitStep(b, ps);
      if c == 0 {
        LanesExact(b, ps[1..]);
      } else {
        CarriedInto(b, ps[1..], c);
      }
    }
  }

  /** The lowest lane and the carry it passes up. */
  lemma MulLanesStep(b: nat, ps: seq<nat>) returns (c: nat)
    requires b > 0 && ps != [] && ps[0] < b * b
    ensures MulLanes(b, ps, 0)[0] == ps[0] % b && MulLanes(b, ps, 0)[1..] == MulLanes(b, ps[1..], c)
    ensures c < b && (c == 0 <==> ps[0] < b)
  {
    c := ps[0] / b;
    DivBelow(ps[0], b, b);
    assert ps[0] == b * c + ps[0] % b;
    if c > 0 { Arith.MulMono(1, c, b); }
  }

  /** A carry into the lowest lane shows there. */
  lemma CarriedInto(b: nat, ps: seq<nat>, c: nat)
    requires ps != [] && 0 < c < b
    ensures !Exact(b, MulLanes(b, ps, c), ps)
  {
    CarryShows(b, ps[0], c);
    assert MulLanes(b, ps, c)[0] == (ps[0] + c) % b;
  }

  lemma CarryShows(b: nat, p: nat, c: nat)
    requires 0 < c < b
    ensures (p + c) % b != p % b
  {
    if (p + c) % b == p % b {
      var q := p / b;
      assert p == b * q + p % b;
      Arith.ModCancel(p, c, 0, b);
    }
  }

  function Products(x: seq<nat>, y: seq<nat>): seq<nat>
    requires |x| == |y| == 4
  {
    [x[0] * y[0], x[1] * y[1], x[2] * y[2], x[3] * y[3]]
  }

  lemma Powers(b: nat)
    ensures Pow(b, 4) == b * b * b * b
  {
    assert Pow(b, 1) == b && Pow(b, 2) == b * b && Pow(b, 3) == b * Pow(b, 2) && Pow(b, 4) == b * Pow(b, 3);
    assert b * (b * (b * b)) == b * b * b * b;
  }

  lemma Horner(b: nat, p1: nat, p2: nat, p3: nat)
    ensures b * (p1 + b * (p2 + b * p3)) == b * p1 + b * b * p2 + b * b * b * p3
  {
    assert b * (p2 + b * p3) == b * p2 + b * b * p3;
    assert b * (b * p2) == b * b * p2 && b * (b * b * p3) == b * b * b * p3;
  }

  lemma RecombineIsTotal(b: nat, ps: seq<nat>)
    requires b > 0 && |ps| == 4
    ensures Pow(b, 4) > 0 && Recombine(b, ps[0], ps[1], ps[2], ps[3]) == Total(ps, b) % Pow(b, 4)
  {
    Powers(b);
    Total4(b, ps);
    Horner(b, ps[1], ps[2], ps[3]);
  }

  lemma Total4(b: nat, ps: seq<nat>)
    requires |ps| == 4
    ensures Total(ps, b) == ps[0] + b * (ps[1] + b * (ps[2] + b * ps[3]))
  {
    var t1 := ps[1..];
    var t2 := t1[1..];
    var t3 := t2[1..];
    assert Total(t3[1..], b) == 0;
    assert Total(t3, b) == ps[3];
    assert Total(t2, b) == ps[2] + b * ps[3];
    assert Total(t1, b) == ps[1] + b * (ps[2] + b * ps[3]);
  }

  /** OPT_VEC_MUL gives every lane its own product, modulo the lane, exactly when the three
      lower products fit their lanes. */
  lemma VectorMulIsLanewiseExactly(b: nat, x: seq<nat>, y: seq<nat>)
    requires b > 1 && FourLanes(x, b) && FourLanes(y, b)
    ensures Exact(b, Split(VectorMul(b, x, y), b, 4), Products(x, y)) <==> Fit(b, Products(x, y))
  {
    var ps := Products(x, y);
    RecombineIsTotal(b, ps);
    MulLanesAre(b, ps, 0);
    JoinSplit(MulLanes(b, ps, 0), b);
    forall k | 0 <= k < 4 ensures ps[k] < b * b {
      assert ps[k] == x[k] * y[k];
      ProductBound(x[k], y[k], b);
    }
    LanesExact(b, ps);
  }
}
