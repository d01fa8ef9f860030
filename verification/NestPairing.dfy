/** Which outer value meets which inner one.  The inner values come out of a count step, the
    outer ones out of a delivery step, an operation of its own that reads a shadow register:
    the crossbars keep both streams in order, so the i-th result of the one meets the i-th
    result of the other.  In a modulo schedule both steps recur every ii time steps, and on
    one tile their time steps fix the order of all of them.

    `NestEqualsSoftware`: on one tile, with the register refreshed before the leaf is reset and
    the delivery step less than an interval behind the count step, the pairs are those of the
    two nested software loops.  NestMispairs says what happens to all others. */
module NestPairing {
  import Arith
  import LC = LoopController
  import DCU = LoopCounter
  import opened LoopNest
  import opened NestTiles

  // ---- the program ----

  /** The time steps of the count and the delivery step, repeated every ii. */
  datatype Schedule = Schedule(ii: nat, count: nat, delivery: nat)

  /** Two operations never share a control word. */
  predicate ScheduleOk(p: Schedule) {
    p.ii > 0 && p.count % p.ii != p.delivery % p.ii
  }

  /** Count number c comes before delivery number d. */
  predicate CountFirst(p: Schedule, c: nat, d: nat) {
    p.count + c * p.ii < p.delivery + d * p.ii
  }

  /** How many counts precede the first delivery, if any; if none, how far deliveries lead. */
  function Lag(p: Schedule): int
    requires p.ii > 0
  {
    (p.delivery - p.count + p.ii - 1) / p.ii
  }

  lemma CeilAbove(x: int, n: nat, j: int)
    requires n > 0
    ensures j * n < x <==> j < (x + n - 1) / n
  {
    var q := (x + n - 1) / n;
    assert x + n - 1 == n * q + (x + n - 1) % n;
    if j < q {
      Arith.MulMono(j, q - 1, n);
    } else {
      Arith.MulMono(q, j, n);
    }
  }

  lemma LagIs(p: Schedule, c: nat, d: nat)
    requires p.ii > 0
    ensures CountFirst(p, c, d) <==> c < d + Lag(p)
  {
    CeilAbove(p.delivery - p.count, p.ii, c - d);
    assert (c - d) * p.ii == c * p.ii - d * p.ii;
  }

  /** Every delivery directly behind its own count. */
  predicate Paced(p: Schedule) {
    p.count < p.delivery < p.count + p.ii
  }

  lemma PacedIs(p: Schedule)
    requires ScheduleOk(p)
    ensures Paced(p) <==> Lag(p) == 1
  {
    var x := p.delivery - p.count;
    CeilAbove(x, p.ii, 0);
    CeilAbove(x, p.ii, 1);
    if x == p.ii {
      SameResidue(p.count, p.ii);
    }
  }

  lemma SameResidue(a: nat, n: nat)
    requires n > 0
    ensures (a + n) % n == a % n
  {
    Arith.DivModUnique(a + n, n, a / n + 1, a % n);
  }

  // ---- what the two steps have put out ----

  /** Where the shadow register is: its control address on the leaf's tile, or on the other. */
  datatype Place = Here(b: nat) | There(b: nat)

  /** The results of the count steps and those of the delivery steps. */
  datatype Trace = Trace(counts: seq<DCU.Token>, delivered: seq<nat>)

  predicate PlaceOk(n: Net, at: Place) {
    at.b < |PlaceTile(n, at).slots|
  }

  function PlaceTile(n: Net, at: Place): Tile {
    if at.Here? then n.here else n.there
  }

  function PlaceEnv(e: NetEnv, at: Place): TileEnv {
    if at.Here? then e.here else e.there
  }

  function Register(n: Net, at: Place): DCU.Slot
    requires PlaceOk(n, at)
  {
    PlaceTile(n, at).slots[at.b]
  }

  predicate Counts(n: Net, e: NetEnv)
    requires 1 <= n.ccu.numTargets <= |n.ccu.targets| && Leaf(n.ccu) < |n.here.slots|
  {
    DCU.Counted(n.here.slots[Leaf(n.ccu)], InputOf(n.here, e.here), Leaf(n.ccu))
  }

  predicate Delivers(n: Net, e: NetEnv, at: Place)
    requires PlaceOk(n, at)
  {
    DCU.Fetched(Register(n, at), InputOf(PlaceTile(n, at), PlaceEnv(e, at)), at.b)
  }

  /** What a count step puts out. */
  function TokenOf(s: DCU.Slot): DCU.Token {
    if DCU.Terminated(s) then DCU.Void else DCU.Value(s.value)
  }

  function Grow(t: Trace, n: Net, e: NetEnv, at: Place): Trace
    requires 1 <= n.ccu.numTargets <= |n.ccu.targets| && Leaf(n.ccu) < |n.here.slots| && PlaceOk(n, at)
  {
    Trace(t.counts + (if Counts(n, e) then [TokenOf(n.here.slots[Leaf(n.ccu)])] else []),
          t.delivered + (if Delivers(n, e, at) then [Register(n, at).shadow] else []))
  }

  /** A step is executed only in its turn. */
  predicate InTurn(p: Schedule, t: Trace, n: Net, e: NetEnv, at: Place)
    requires 1 <= n.ccu.numTargets <= |n.ccu.targets|
  {
    var first, i := CountFirst(p, |t.counts|, |t.delivered|), PlaceEnv(e, at).input;
    && (DCU.Counting(e.here.input, Leaf(n.ccu)) ==> first)
    && (i.optVal && i.op.LoopDelivery? && i.addr == at.b ==> !first)
  }

  ghost function TraceOf(w: LC.Widths, n: Net, es: seq<NetEnv>, at: Place): Trace
    requires NetOk(w, n) && NetEnvsOk(w, n.ccu, es) && PlaceOk(n, at)
  {
    if es == [] then Trace([], [])
    else Grow(TraceOf(w, n, es[..|es| - 1], at), NetRun(w, n, es[..|es| - 1]), es[|es| - 1], at)
  }

  /** The steps are executed in the order of the schedule. */
  ghost predicate InOrder(w: LC.Widths, n: Net, es: seq<NetEnv>, at: Place, p: Schedule)
    requires NetOk(w, n) && NetEnvsOk(w, n.ccu, es) && PlaceOk(n, at)
  {
    es != [] ==>
      var now, e := NetRun(w, n, es[..|es| - 1]), es[|es| - 1];
      && InOrder(w, n, es[..|es| - 1], at, p)
      && InTurn(p, TraceOf(w, n, es[..|es| - 1], at), now, e, at)
  }

  // ---- pairs ----

  datatype Pair = Pair(outer: nat, inner: nat)

  /** A predicate-0 token pairs with nothing. */
  function Match(k: DCU.Token, v: nat): seq<Pair> {
    if k.Value? then [Pair(v, k.v)] else []
  }

  /** Each count step's result meets that of the delivery step of the same number. */
  function Meet(ks: seq<DCU.Token>, vs: seq<nat>, n: nat): seq<Pair>
    requires n <= |ks| && n <= |vs|
  {
    if n == 0 then [] else Meet(ks, vs, n - 1) + Match(ks[n - 1], vs[n - 1])
  }

  function Pairs(t: Trace): seq<Pair> {
    Meet(t.counts, t.delivered, if |t.counts| <= |t.delivered| then |t.counts| else |t.delivered|)
  }

  /** The values among the tokens. */
  function Values(ks: seq<DCU.Token>): seq<nat> {
    if ks == [] then [] else Values(ks[..|ks| - 1]) + if ks[|ks| - 1].Value? then [ks[|ks| - 1].v] else []
  }

  lemma ValuesAdd(ks: seq<DCU.Token>, k: DCU.Token)
    ensures Values(ks + [k]) == Values(ks) + if k.Value? then [k.v] else []
  {
    assert (ks + [k])[..|ks|] == ks;
  }

  lemma {:induction false} MeetKeeps(ks: seq<DCU.Token>, vs: seq<nat>, ks': seq<DCU.Token>, vs': seq<nat>, n: nat)
    requires n <= |ks| && n <= |vs| && ks <= ks' && vs <= vs'
    ensures Meet(ks', vs', n) == Meet(ks, vs, n)
  {
    if n > 0 {
      MeetKeeps(ks, vs, ks', vs', n - 1);
    }
  }

  lemma {:induction false} MeetPrefix(ks: seq<DCU.Token>, vs: seq<nat>, m: nat, n: nat)
    requires m <= n <= |ks| && n <= |vs|
    ensures Meet(ks, vs, m) <= Meet(ks, vs, n)
  {
    if m < n {
      MeetPrefix(ks, vs, m, n - 1);
    }
  }

  // ---- the software nest ----

  /** The first j inner iterations at one outer value. */
  function Row(v: nat, leaf: DCU.Slot, j: nat): (r: seq<Pair>)
    ensures |r| == j
  {
    if j == 0 then [] else Row(v, leaf, j - 1) + [Pair(v, DCU.ValueAt(leaf, j - 1))]
  }

  /** The first k outer iterations. */
  function Nest(c: LC.Ccu, leaf: DCU.Slot, k: nat): seq<Pair>
    requires leaf.step > 0
  {
    if k == 0 then [] else Nest(c, leaf, k - 1) + Row(LC.ValueAt(c, k - 1), leaf, DCU.Trips(leaf))
  }

  lemma {:induction false} RowIsPrefix(v: nat, leaf: DCU.Slot, j: nat, n: nat)
    requires j <= n
    ensures Row(v, leaf, j) <= Row(v, leaf, n)
  {
    if j < n {
      RowIsPrefix(v, leaf, j, n - 1);
    }
  }

  lemma {:induction false} NestIsPrefix(c: LC.Ccu, leaf: DCU.Slot, k: nat, n: nat)
    requires leaf.step > 0 && k <= n
    ensures Nest(c, leaf, k) <= Nest(c, leaf, n)
  {
    if k < n {
      NestIsPrefix(c, leaf, k, n - 1);
    }
  }

  lemma {:induction false} RowAt(v: nat, leaf: DCU.Slot, n: nat, j: nat)
    requires j < n
    ensures Row(v, leaf, n)[j] == Pair(v, leaf.lower + j * leaf.step)
  {
    if j == n - 1 {
      DCU.ValueIs(leaf, j);
    } else {
      RowAt(v, leaf, n - 1, j);
    }
  }

  /** The number of the output of iteration k and inner iteration j, t to a row. */
  function Index(t: nat, k: nat, j: nat): nat {
    k * t + j
  }

  lemma IndexBelow(t: nat, n: nat, k: nat, j: nat)
    requires k < n && j < t
    ensures Index(t, k, j) < Index(t, n, 0) && Index(t, n, 0) == Index(t, n - 1, 0) + t
    ensures Index(t, k, j) < Index(t, n - 1, 0) <==> k < n - 1
  {
    assert n * t == (n - 1) * t + t;
    Arith.MulMono(k, n - 1, t);
    if k < n - 1 {
      Arith.MulMono(k + 1, n - 1, t);
    }
  }

  /** The software nest, written out: output number k * trips + j is the pair of the k-th
      outer and the j-th inner value. */
  lemma {:induction false} NestAt(c: LC.Ccu, leaf: DCU.Slot, n: nat, k: nat, j: nat)
    requires leaf.step > 0 && k < n && j < DCU.Trips(leaf)
    ensures var i := Index(DCU.Trips(leaf), k, j);
            && |Nest(c, leaf, n)| == n * DCU.Trips(leaf) && i < |Nest(c, leaf, n)|
            && Nest(c, leaf, n)[i] == Pair(c.lower + k * c.step, leaf.lower + j * leaf.step)
  {
    var t := DCU.Trips(leaf);
    NestLength(c, leaf, n);
    NestLength(c, leaf, n - 1);
    IndexBelow(t, n, k, j);
    if k == n - 1 {
      RowAt(LC.ValueAt(c, k), leaf, t, j);
      LC.ValueIs(c, k);
    } else {
      NestAt(c, leaf, n - 1, k, j);
    }
  }

  lemma {:induction false} NestLength(c: LC.Ccu, leaf: DCU.Slot, n: nat)
    requires leaf.step > 0
    ensures |Nest(c, leaf, n)| == n * DCU.Trips(leaf)
  {
    if n > 0 {
      NestLength(c, leaf, n - 1);
      assert n * DCU.Trips(leaf) == (n - 1) * DCU.Trips(leaf) + DCU.Trips(leaf);
    }
  }

  // ---- deliveries in time ----

  /** The pairs that should have. */
  function Expected(c: LC.Ccu, leaf: DCU.Slot, p: Phase): seq<Pair>
    requires leaf.step > 0
  {
    match p.stage
    case Counting(j) => Nest(c, leaf, p.k) + Row(LC.ValueAt(c, p.k), leaf, j)
    case Reported => Nest(c, leaf, p.k + 1)
    case _ => Nest(c, leaf, p.k)
  }

  lemma ExpectedStep(c: LC.Ccu, leaf: DCU.Slot, p: Phase, v: Acts)
    requires 1 <= c.numTargets <= |c.targets| && leaf.step > 0 && Possible(c, p, v)
    requires v.report ==> !v.emit && p.stage == Counting(DCU.Trips(leaf))
    ensures Expected(c, leaf, After(c, p, v))
      == Expected(c, leaf, p) + if v.emit then [Pair(LC.ValueAt(c, p.k), DCU.ValueAt(leaf, p.stage.j))] else []
  {
  }

  /** The pairs are those that should be out by then; if a delivery is due, the last count's is
      still to come, and the loop has not gone on from it. */
  ghost predicate InPace(o: LC.Ccu, leaf: DCU.Slot, p: Phase, t: Trace)
    requires leaf.step > 0
  {
    var d := |t.delivered|;
    && d <= |t.counts| <= d + 1
    && (d < |t.counts| && t.counts[d].Value? ==> p.stage.Counting?)
    && Expected(o, leaf, p)
      == Meet(t.counts, t.delivered, d) + if d < |t.counts| then Match(t.counts[d], LC.ValueAt(o, p.k)) else []
  }

  /** ks and vs are what the cycle puts out. */
  lemma PaceStep(o: LC.Ccu, leaf: DCU.Slot, p: Phase, v: Acts, t: Trace, ks: seq<DCU.Token>, vs: seq<nat>)
    requires 1 <= o.numTargets <= |o.targets| && leaf.step > 0 && Possible(o, p, v) && InPace(o, leaf, p, t)
    requires |ks| <= 1 && |vs| <= 1
    requires ks != [] || v.report ==> |t.counts| == |t.delivered|
    requires vs != [] ==> |t.counts| > |t.delivered|
    requires v.emit <==> ks != [] && ks[0].Value?
    requires v.emit ==> ks[0].v == DCU.ValueAt(leaf, p.stage.j)
    requires v.report ==> !v.emit && p.stage == Counting(DCU.Trips(leaf))
    requires vs != [] && t.counts[|t.delivered|].Value? ==> vs[0] == LC.ValueAt(o, p.k)
    ensures InPace(o, leaf, After(o, p, v), Trace(t.counts + ks, t.delivered + vs))
  {
    var d := |t.delivered|;
    ExpectedStep(o, leaf, p, v);
    MeetKeeps(t.counts, t.delivered, t.counts + ks, t.delivered + vs, d);
  }

  /** The tiles' own inputs leave the register alone. */
  predicate Spared(e: NetEnv, at: Place) {
    PlaceEnv(e, at).input.cmd.UpdateShadow? ==> PlaceEnv(e, at).input.cmd.addr != at.b
  }

  ghost predicate AllSpared(es: seq<NetEnv>, at: Place) {
    forall t :: 0 <= t < |es| ==> Spared(es[t], at)
  }

  /** The register starts with the loop's first value. */
  predicate Primed(n: Net, at: Place) {
    PlaceOk(n, at) && Register(n, at).shadow == n.ccu.lower && Register(n, at).shadowValid
  }

  /** What the leaf's cycle is to the count step. */
  lemma CountActs(w: LC.Widths, o: LC.Ccu, leaf: DCU.Slot, n: Net, e: NetEnv, p: Phase)
    requires NetReady(w, o, leaf, n, p)
    ensures SysOk(w, View(n)) && Possible(o, p, ActsOf(View(n), ViewEnv(n, e)))
    ensures var v, s := ActsOf(View(n), ViewEnv(n, e)), n.here.slots[Leaf(n.ccu)];
            && (v.emit <==> Counts(n, e) && TokenOf(s).Value?) && (v.emit ==> s.value == DCU.ValueAt(leaf, p.stage.j))
            && (v.emit || v.report ==> DCU.Counting(e.here.input, Leaf(n.ccu)))
            && (v.report ==> !v.emit && p.stage == Counting(DCU.Trips(leaf)))
  {
    ViewOk(w, n);
    ViewEvents(n, e);
    IsPossible(w, o, leaf, View(n), ViewEnv(n, e), p);
    ValueStep(w, o, leaf, View(n), ViewEnv(n, e), p);
  }

  lemma {:induction false} RegisterHolds(w: LC.Widths, n: Net, es: seq<NetEnv>, b: nat)
    requires FreshNet(w, n) && Primed(n, Here(b)) && NetEnvsOk(w, n.ccu, es) && AllSpared(es, Here(b))
    ensures NetPhase(w, n, es).d <= |Seen(w, n).targets|
    ensures Holds(Seen(w, n), NetRun(w, n, es).here.slots[b], b, NetPhase(w, n, es))
  {
    if es != [] {
      var m := |es| - 1;
      RegisterHolds(w, n, es[..m], b);
      NetInPhase(w, n, es[..m]);
      assert NetEnvOk(w, n.ccu, es[m]) && Spared(es[m], Here(b));
      HoldsNext(w, Seen(w, n), n.here.slots[Leaf(n.ccu)], NetRun(w, n, es[..m]), es[m], NetPhase(w, n, es[..m]), b);
    }
  }

  lemma HoldsNext(w: LC.Widths, o: LC.Ccu, leaf: DCU.Slot, n: Net, e: NetEnv, p: Phase, b: nat)
    requires NetReady(w, o, leaf, n, p) && NetEnvOk(w, n.ccu, e) && Spared(e, Here(b)) && b < |n.here.slots|
    requires Holds(o, n.here.slots[b], b, p)
    ensures NetNext(w, o, n, e, p).d <= |o.targets|
    ensures Holds(o, NetCycle(w, n, e).here.slots[b], b, NetNext(w, o, n, e, p))
  {
    ViewStep(w, n, e);
    HoldsStep(w, o, leaf, View(n), ViewEnv(n, e), p, b);
  }

  /** A delivery in time delivers the value of the loop. */
  lemma InTime(o: LC.Ccu, leaf: DCU.Slot, p: Phase, s: DCU.Slot, b: nat)
    requires 1 <= o.numTargets <= |o.targets| && Shape(o, p) && p.stage.Counting? && FedFirst(o, b) && Holds(o, s, b, p)
    ensures s.shadow == LC.ValueAt(o, p.k)
  {
    assert Fed(o, b, p.d);
  }

  lemma PacedNext(w: LC.Widths, o: LC.Ccu, leaf: DCU.Slot, n: Net, e: NetEnv, p: Phase, t: Trace, b: nat, q: Schedule)
    requires NetReady(w, o, leaf, n, p) && NetEnvOk(w, n.ccu, e) && b < |n.here.slots|
    requires Holds(o, n.here.slots[b], b, p)
    requires ScheduleOk(q) && Paced(q) && FedFirst(o, b) && InPace(o, leaf, p, t) && InTurn(q, t, n, e, Here(b))
    ensures InPace(o, leaf, NetNext(w, o, n, e, p), Grow(t, n, e, Here(b)))
  {
    var at, v := Here(b), ActsOf(View(n), ViewEnv(n, e));
    var ks := if Counts(n, e) then [TokenOf(n.here.slots[Leaf(n.ccu)])] else [];
    var vs := if Delivers(n, e, at) then [Register(n, at).shadow] else [];
    CountActs(w, o, leaf, n, e, p);
    PacedIs(q);
    LagIs(q, |t.counts|, |t.delivered|);
    if vs != [] && t.counts[|t.delivered|].Value? {
      InTime(o, leaf, p, Register(n, at), b);
    }
    PaceStep(o, leaf, p, v, t, ks, vs);
  }

  lemma {:induction false} RunPaced(w: LC.Widths, n: Net, es: seq<NetEnv>, b: nat, q: Schedule)
    requires FreshNet(w, n) && Primed(n, Here(b)) && NetEnvsOk(w, n.ccu, es) && AllSpared(es, Here(b))
    requires ScheduleOk(q) && Paced(q) && FedFirst(Seen(w, n), b) && InOrder(w, n, es, Here(b), q)
    ensures InPace(Seen(w, n), n.here.slots[Leaf(n.ccu)], NetPhase(w, n, es), TraceOf(w, n, es, Here(b)))
  {
    if es != [] {
      var m := |es| - 1;
      RunPaced(w, n, es[..m], b, q);
      NetInPhase(w, n, es[..m]);
      RegisterHolds(w, n, es[..m], b);
      assert NetEnvOk(w, n.ccu, es[m]);
      PacedNext(w, Seen(w, n), n.here.slots[Leaf(n.ccu)], NetRun(w, n, es[..m]), es[m], NetPhase(w, n, es[..m]),
                TraceOf(w, n, es[..m], Here(b)), b, q);
    }
  }

  // ---- the nest ----

  /** A target before the leaf refreshes register b of the leaf's tile. */
  predicate RefreshedFirst(n: Net, b: nat)
    requires 1 <= n.ccu.numTargets <= |n.ccu.targets|
  {
    exists t :: 0 <= t < Pos(n.ccu) && Refreshes(n.ccu.targets[t], n.here.id, b)
  }

  predicate Refreshes(t: LC.Target, id: nat, b: nat) {
    t.shadowOnly && t.tile == id && t.addr == b
  }

  lemma RefreshedFirstIs(w: LC.Widths, n: Net, b: nat)
    requires NetOk(w, n)
    ensures RefreshedFirst(n, b) <==> FedFirst(Seen(w, n), b)
  {
    var c, o, h := n.ccu, Seen(w, n), n.here.id;
    OwnLeaf(c, n.here, n.there);
    OnAt(c.targets, h, c.numTargets, Pos(c));
    if RefreshedFirst(n, b) {
      var t :| 0 <= t < Pos(c) && Refreshes(c.targets[t], h, b);
      OnAt(c.targets, h, Pos(c), t);
      assert o.targets[|On(c.targets, h, t)|] == c.targets[t];
    }
    if FedFirst(o, b) {
      var i :| 0 <= i < Pos(o) && o.targets[i].shadowOnly && o.targets[i].addr == b;
      assert Refreshes(c.targets[Where(c.targets, h, Pos(c), i)], h, b);
    }
  }

  lemma {:induction false} SameLoop(c: LC.Ccu, o: LC.Ccu, leaf: DCU.Slot, k: nat)
    requires leaf.step > 0 && o.lower == c.lower && o.step == c.step
    ensures Nest(o, leaf, k) == Nest(c, leaf, k) && LC.ValueAt(o, k) == LC.ValueAt(c, k)
  {
    if k > 0 {
      SameLoop(c, o, leaf, k - 1);
    }
  }

  lemma ExpectedIsPrefix(c: LC.Ccu, leaf: DCU.Slot, p: Phase)
    requires c.step > 0 && leaf.step > 0 && Bounded(c, leaf, p)
    ensures Expected(c, leaf, p) <= Nest(c, leaf, LC.Trips(c))
  {
    NestIsPrefix(c, leaf, if p.stage.Waiting? || p.stage.Finished? then p.k else p.k + 1, LC.Trips(c));
    if p.stage.Counting? {
      RowIsPrefix(LC.ValueAt(c, p.k), leaf, p.stage.j, DCU.Trips(leaf));
    }
  }

  /** On one tile, refreshed before the leaf is reset and paced, the pairs are the two nested
      loops' under every timing: always a prefix of them, and all when the nest is done. */
  lemma NestEqualsSoftware(w: LC.Widths, n: Net, es: seq<NetEnv>, b: nat, q: Schedule)
    requires FreshNet(w, n) && Primed(n, Here(b)) && NetEnvsOk(w, n.ccu, es) && AllSpared(es, Here(b))
    requires ScheduleOk(q) && InOrder(w, n, es, Here(b), q)
    requires RefreshedFirst(n, b) && q.count < q.delivery < q.count + q.ii
    ensures var leaf, pairs := n.here.slots[Leaf(n.ccu)], Pairs(TraceOf(w, n, es, Here(b)));
            && pairs <= Nest(n.ccu, leaf, LC.Trips(n.ccu))
            && (NetRun(w, n, es).ccu.state.Complete? ==> pairs == Nest(n.ccu, leaf, LC.Trips(n.ccu)))
  {
    var o, leaf, p := Seen(w, n), n.here.slots[Leaf(n.ccu)], NetPhase(w, n, es);
    assert InPace(o, leaf, p, TraceOf(w, n, es, Here(b))) by {
      RefreshedFirstIs(w, n, b);
      RunPaced(w, n, es, b, q);
    }
    NetBound(w, n, es);
    OwnTrips(w, n);
    PaceGives(n.ccu, o, leaf, p, TraceOf(w, n, es, Here(b)));
  }

  lemma PaceGives(c: LC.Ccu, o: LC.Ccu, leaf: DCU.Slot, p: Phase, t: Trace)
    requires leaf.step > 0 && c.step > 0 && o.lower == c.lower && o.step == c.step && LC.Trips(o) == LC.Trips(c)
    requires InPace(o, leaf, p, t) && Bounded(c, leaf, p)
    ensures Pairs(t) <= Nest(c, leaf, LC.Trips(c)) && (p.stage.Finished? ==> Pairs(t) == Nest(c, leaf, LC.Trips(c)))
  {
    assert Pairs(t) <= Expected(o, leaf, p) && (p.stage.Finished? ==> Pairs(t) == Expected(o, leaf, p));
    ExpectedIsPrefix(o, leaf, p);
    SameLoop(c, o, leaf, LC.Trips(c));
  }

  // ---- without a second iteration, or without values ----

  lemma {:induction false} ValuesPrefix(ks: seq<DCU.Token>, m: nat, n: nat)
    requires m <= n <= |ks|
    ensures Values(ks[..m]) <= Values(ks[..n])
  {
    if m < n {
      ValuesPrefix(ks, m, n - 1);
      assert ks[..n][..n - 1] == ks[..n - 1];
    }
  }

  /** Met by one outer value, the first m values of a leaf are a row. */
  lemma {:induction false} MeetRow(ks: seq<DCU.Token>, vs: seq<nat>, n: nat, v: nat, leaf: DCU.Slot, m: nat)
    requires n <= |ks| && n <= |vs| && (forall i :: 0 <= i < n ==> vs[i] == v) && Values(ks[..n]) == DCU.Range(leaf, m)
    ensures Meet(ks, vs, n) == Row(v, leaf, m)
  {
    if n > 0 {
      assert ks[..n][..n - 1] == ks[..n - 1];
      if ks[n - 1].Value? {
        assert Values(ks[..n])[..m - 1] == Values(ks[..n - 1]);
        assert DCU.Range(leaf, m)[..m - 1] == DCU.Range(leaf, m - 1);
        MeetRow(ks, vs, n - 1, v, leaf, m - 1);
      } else {
        MeetRow(ks, vs, n - 1, v, leaf, m);
      }
    }
  }

  lemma {:induction false} MeetNothing(ks: seq<DCU.Token>, vs: seq<nat>, n: nat)
    requires n <= |ks| && n <= |vs| && Values(ks[..n]) == []
    ensures Meet(ks, vs, n) == []
  {
    if n > 0 {
      assert ks[..n][..n - 1] == ks[..n - 1];
      MeetNothing(ks, vs, n - 1);
    }
  }

  lemma {:induction false} TraceValues(w: LC.Widths, n: Net, es: seq<NetEnv>, at: Place)
    requires FreshNet(w, n) && NetEnvsOk(w, n.ccu, es) && PlaceOk(n, at)
    ensures Values(TraceOf(w, n, es, at).counts) == NetValues(w, n, es)
  {
    if es != [] {
      var m := |es| - 1;
      TraceValues(w, n, es[..m], at);
      GrowValues(TraceOf(w, n, es[..m], at), NetRun(w, n, es[..m]), es[m], at);
    }
  }

  lemma GrowValues(t: Trace, n: Net, e: NetEnv, at: Place)
    requires 1 <= n.ccu.numTargets <= |n.ccu.targets| && Leaf(n.ccu) < |n.here.slots| && PlaceOk(n, at)
    ensures Values(Grow(t, n, e, at).counts) == Values(t.counts) + NetValue(n, e)
  {
    if Counts(n, e) {
      ValuesAdd(t.counts, TokenOf(n.here.slots[Leaf(n.ccu)]));
    } else {
      assert t.counts + [] == t.counts;
    }
  }

  /** With a single iteration nothing is ever sent. */
  lemma {:induction false} StaysFirst(w: LC.Widths, n: Net, es: seq<NetEnv>, at: Place)
    requires FreshNet(w, n) && Primed(n, at) && NetEnvsOk(w, n.ccu, es) && AllSpared(es, at) && LC.Trips(n.ccu) < 2
    ensures Register(NetRun(w, n, es), at).shadow == n.ccu.lower
    ensures NetRun(w, n, es).here.down == NetRun(w, n, es).there.down == []
    ensures forall i :: 0 <= i < |TraceOf(w, n, es, at).delivered| ==> TraceOf(w, n, es, at).delivered[i] == n.ccu.lower
  {
    if es != [] {
      var m := |es| - 1;
      StaysFirst(w, n, es[..m], at);
      var now := NetRun(w, n, es[..m]);
      assert NetEnvOk(w, n.ccu, es[m]) && Spared(es[m], at);
      NeverSends(w, n, es[..m]);
      Untouched(w, now, es[m], at);
    }
  }

  lemma Untouched(w: LC.Widths, n: Net, e: NetEnv, at: Place)
    requires NetOk(w, n) && NetEnvOk(w, n.ccu, e) && Spared(e, at) && PlaceOk(n, at)
    requires !n.ccu.state.Dispatching? && n.here.down == n.there.down == []
    ensures Register(NetCycle(w, n, e), at).shadow == Register(n, at).shadow
    ensures NetCycle(w, n, e).here.down == NetCycle(w, n, e).there.down == []
  {
  }

  lemma NeverSends(w: LC.Widths, n: Net, es: seq<NetEnv>)
    requires FreshNet(w, n) && NetEnvsOk(w, n.ccu, es) && LC.Trips(n.ccu) < 2
    ensures !NetRun(w, n, es).ccu.state.Dispatching?
  {
    NetInPhase(w, n, es);
    NetBound(w, n, es);
  }

  /** Whatever the order of the steps and wherever the register is. */
  lemma PairsAnyway(w: LC.Widths, n: Net, es: seq<NetEnv>, at: Place)
    requires FreshNet(w, n) && Primed(n, at) && NetEnvsOk(w, n.ccu, es) && AllSpared(es, at)
    requires LC.Trips(n.ccu) < 2 || DCU.Trips(n.here.slots[Leaf(n.ccu)]) == 0
    ensures Pairs(TraceOf(w, n, es, at)) <= Nest(n.ccu, n.here.slots[Leaf(n.ccu)], LC.Trips(n.ccu))
  {
    var leaf, t := n.here.slots[Leaf(n.ccu)], TraceOf(w, n, es, at);
    var l := if |t.counts| <= |t.delivered| then |t.counts| else |t.delivered|;
    InnerStream(w, n, es);
    TraceValues(w, n, es, at);
    ValuesPrefix(t.counts, l, |t.counts|);
    assert t.counts[..|t.counts|] == t.counts;
    if DCU.Trips(leaf) == 0 {
      NoCopies(leaf, LC.Trips(n.ccu));
      MeetNothing(t.counts, t.delivered, l);
    } else {
      StaysFirst(w, n, es, at);
      OneRow(n.ccu, leaf, t, l);
    }
  }

  lemma {:induction false} NoCopies(leaf: DCU.Slot, k: nat)
    requires leaf.step > 0 && DCU.Trips(leaf) == 0
    ensures Copies(leaf, k) == []
  {
    if k > 0 {
      NoCopies(leaf, k - 1);
    }
  }

  lemma OneRow(c: LC.Ccu, leaf: DCU.Slot, t: Trace, l: nat)
    requires c.step > 0 && leaf.step > 0 && LC.Trips(c) < 2 && l <= |t.counts| && l <= |t.delivered|
    requires forall i :: 0 <= i < |t.delivered| ==> t.delivered[i] == c.lower
    requires Values(t.counts[..l]) <= Copies(leaf, LC.Trips(c))
    ensures Meet(t.counts, t.delivered, l) <= Nest(c, leaf, LC.Trips(c))
  {
    var m, trips := |Values(t.counts[..l])|, DCU.Trips(leaf);
    LC.IterationExactly(c, 0);
    assert Copies(leaf, 1) == DCU.Range(leaf, trips) && Nest(c, leaf, 1) == Row(c.lower, leaf, trips);
    RangeIsPrefix(leaf, m, trips);
    MeetRow(t.counts, t.delivered, l, c.lower, leaf, m);
    RowIsPrefix(c.lower, leaf, m, trips);
  }
}
