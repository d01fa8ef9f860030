/** When the pairs of NestPairing go wrong.  `PairingExactly`: under every timing they are the
    software nest's exactly when the register is on the leaf's tile, is refreshed before the
    leaf is reset, and its delivery step is less than an interval behind the count step; or
    there is no second iteration; or no value.

    In all other cases a run is built that mispairs.  The leaf runs out, the controller goes on,
    and no message but those up to the leaf's reset arrives: `Ahead`, `Behind` and `Overtaken`
    place the deliveries around that.  `Realize` turns such a plan into cycles. */
module NestMispairs {
  import LC = LoopController
  import DCU = LoopCounter
  import opened LoopNest
  import opened NestTiles
  import opened NestPairing

  // ---- cycles ----

  function Input(op: DCU.Op, a: nat): DCU.Input {
    DCU.Input(op != DCU.OtherOp, op, a, true, true, DCU.NoCmd, false)
  }

  function Still(): TileEnv {
    TileEnv(false, Input(DCU.OtherOp, 0))
  }

  /** Only the leaf counts; only the register is delivered. */
  function Count(a: nat): NetEnv {
    NetEnv(false, false, TileEnv(false, Input(DCU.LoopCount, a)), Still())
  }

  function Fetch(at: Place): NetEnv {
    var fetch := TileEnv(false, Input(DCU.LoopDelivery, at.b));
    if at.Here? then NetEnv(false, false, fetch, Still()) else NetEnv(false, false, Still(), fetch)
  }

  /** Only the controller counts; only it sends; only the leaf's tile takes a command. */
  function Turn(): NetEnv {
    NetEnv(false, true, Still(), Still())
  }

  function Send(): NetEnv {
    NetEnv(true, false, Still(), Still())
  }

  function Take(): NetEnv {
    NetEnv(false, false, TileEnv(true, Input(DCU.OtherOp, 0)), Still())
  }

  // ---- runs ----

  /** A nest, a register of one of its tiles, and the schedule of the two steps. */
  datatype Setup = Setup(w: LC.Widths, n: Net, at: Place, q: Schedule)

  /** It is about to start, with a second iteration and a value to pair. */
  predicate Starts(x: Setup) {
    && FreshNet(x.w, x.n) && Primed(x.n, x.at) && ScheduleOk(x.q)
    && LC.Trips(x.n.ccu) >= 2 && DCU.Trips(x.n.here.slots[Leaf(x.n.ccu)]) > 0
  }

  type Starting = x: Setup | NetOk(x.w, x.n) && PlaceOk(x.n, x.at) ghost witness Example()

  /** Three outer iterations over a leaf of two values, with the targets given: the leaf at
      address 0, and a register at address 2 of its tile and of the next one. */
  function Small(targets: seq<LC.Target>): Net {
    var free := DCU.Slot(0, 0, 0, 0, false, 0, false);
    var slots := [DCU.Slot(0, 2, 1, 0, false, 0, false), free, free.(shadowValid := true)];
    var unused := [LC.Target(0, 0, false, false), LC.Target(0, 0, false, false)];
    Net(LC.Ccu(0, 3, 1, 0, LC.Running, 1, 0, targets + unused, 2, 0, true, 0),
        Tile(0, slots, []), Tile(1, slots, []), 0)
  }

  /** The leaf listed before the register, as in the repository's three-layer test; and
      behind it; and before a register on another tile. */
  function LeafFirst(): seq<LC.Target> {
    [LC.Target(0, 0, false, false), LC.Target(0, 2, false, true)]
  }

  function LeafLast(): seq<LC.Target> {
    [LC.Target(0, 2, false, true), LC.Target(0, 0, false, false)]
  }

  function Apart(): seq<LC.Target> {
    [LC.Target(1, 2, false, true), LC.Target(0, 0, false, false)]
  }

  function SmallWidths(): LC.Widths {
    LC.Widths(256, 16, 4, 4)
  }

  ghost function Example(): (x: Setup)
    ensures Starts(x)
  {
    SmallIs(LeafFirst(), Here(2));
    Setup(SmallWidths(), Small(LeafFirst()), Here(2), Schedule(3, 0, 2))
  }

  lemma SmallIs(ts: seq<LC.Target>, at: Place)
    requires ts == LeafFirst() || ts == LeafLast() || ts == Apart()
    requires at.b == 2
    ensures FreshNet(SmallWidths(), Small(ts)) && Primed(Small(ts), at)
    ensures Leaf(Small(ts).ccu) == 0 && LC.Trips(Small(ts).ccu) >= 2 && DCU.Trips(Small(ts).here.slots[0]) == 2
  {
    var c := Small(ts).ccu;
    assert Pos(c) == if ts == LeafFirst() then 0 else 1;
    TwoTrips(Small(ts).here.slots[0]);
    LC.IterationExactly(c, 1);
    assert LC.ValueAt(c, 1) == 1;
  }

  lemma TwoTrips(leaf: DCU.Slot)
    requires leaf.lower == 0 && leaf.step == 1 && leaf.upper == 2
    ensures DCU.Trips(leaf) == 2
  {
    assert DCU.ValueAt(leaf, 1) == 1 && DCU.ValueAt(leaf, 2) == 2;
    DCU.TripsIsLast(leaf, 2);
  }

  function Inner(x: Starting): DCU.Slot {
    x.n.here.slots[Leaf(x.n.ccu)]
  }

  ghost function Outer(x: Starting): LC.Ccu {
    Seen(x.w, x.n)
  }

  /** How many messages of the present round are sent. */
  function Sent(c: LC.Ccu): nat {
    if c.state.Dispatching? then c.dispatchIdx else c.numTargets
  }

  /** What a run leads to. */
  datatype Probe = Probe(p: Phase, sent: nat, t: Trace)

  /** The other tile takes no command. */
  ghost predicate Withheld(es: seq<NetEnv>) {
    forall t :: 0 <= t < |es| ==> !es[t].there.deliver
  }

  ghost predicate Goes(x: Starting, es: seq<NetEnv>) {
    NetEnvsOk(x.w, x.n.ccu, es) && AllSpared(es, x.at) && Withheld(es) && InOrder(x.w, x.n, es, x.at, x.q)
  }

  ghost function Log(x: Starting, es: seq<NetEnv>): Probe
    requires Goes(x, es)
  {
    Probe(NetPhase(x.w, x.n, es), Sent(NetRun(x.w, x.n, es).ccu), TraceOf(x.w, x.n, es, x.at))
  }

  ghost predicate Leads(x: Starting, es: seq<NetEnv>, r: Probe) {
    Goes(x, es) && Log(x, es) == r
  }

  /** One of the cycles above. */
  predicate Plain(x: Starting, e: NetEnv) {
    && NetEnvOk(x.w, x.n.ccu, e) && !e.there.deliver && e.here.input.cmd == e.there.input.cmd == DCU.NoCmd
  }

  lemma OneMore(w: LC.Widths, n: Net, es: seq<NetEnv>, e: NetEnv, at: Place, q: Schedule)
    requires NetOk(w, n) && NetEnvsOk(w, n.ccu, es) && NetEnvOk(w, n.ccu, e) && PlaceOk(n, at)
    ensures NetEnvsOk(w, n.ccu, es + [e]) && NetEnvOk(w, NetRun(w, n, es).ccu, e)
    ensures NetRun(w, n, es + [e]) == NetCycle(w, NetRun(w, n, es), e)
    ensures NetPhase(w, n, es + [e]) == NetNext(w, Seen(w, n), NetRun(w, n, es), e, NetPhase(w, n, es))
    ensures TraceOf(w, n, es + [e], at) == Grow(TraceOf(w, n, es, at), NetRun(w, n, es), e, at)
    ensures InOrder(w, n, es + [e], at, q) <==>
              InOrder(w, n, es, at, q) && InTurn(q, TraceOf(w, n, es, at), NetRun(w, n, es), e, at)
  {
    var es' := es + [e];
    assert es'[..|es'| - 1] == es && es'[|es'| - 1] == e;
  }

  /** Where cycle e leads. */
  ghost function Led(x: Starting, now: Net, r: Probe, e: NetEnv): Probe
    requires NetOk(x.w, now) && NetEnvOk(x.w, now.ccu, e) && PlaceOk(now, x.at)
  {
    Probe(NetNext(x.w, Outer(x), now, e, r.p), Sent(NetCycle(x.w, now, e).ccu), Grow(r.t, now, e, x.at))
  }

  lemma GoesOn(x: Starting, es: seq<NetEnv>, e: NetEnv)
    requires Goes(x, es) && Plain(x, e) && InTurn(x.q, TraceOf(x.w, x.n, es, x.at), NetRun(x.w, x.n, es), e, x.at)
    ensures Goes(x, es + [e]) && NetEnvOk(x.w, NetRun(x.w, x.n, es).ccu, e)
    ensures Log(x, es + [e]) == Led(x, NetRun(x.w, x.n, es), Log(x, es), e)
  {
    OneMore(x.w, x.n, es, e, x.at, x.q);
    StillSpared(es, e, x.at);
  }

  lemma StillSpared(es: seq<NetEnv>, e: NetEnv, at: Place)
    requires AllSpared(es, at) && Withheld(es) && !e.there.deliver && e.here.input.cmd == e.there.input.cmd == DCU.NoCmd
    ensures AllSpared(es + [e], at) && Withheld(es + [e])
  {
  }

  // ---- moves ----

  /** The leaf's stage after another count step, and what the step puts out. */
  function AfterCount(leaf: DCU.Slot, g: Stage): Stage
    requires leaf.step > 0
  {
    if g.Counting? && g.j < DCU.Trips(leaf) then Counting(g.j + 1) else Reported
  }

  function CountPutsOut(leaf: DCU.Slot, g: Stage): DCU.Token
    requires leaf.step > 0
  {
    if g.Counting? && g.j < DCU.Trips(leaf) then DCU.Value(DCU.ValueAt(leaf, g.j)) else DCU.Void
  }

  /** What the runs built here are made of: one of the cycles above. */
  datatype Move = CountMove | FetchMove(v: nat) | TurnMove | SendMove | TakeMove

  /** The CCU, the same as the leaf's tile knows it, the leaf, its tile, and the steps. */
  datatype Rules = Rules(c: LC.Ccu, o: LC.Ccu, leaf: DCU.Slot, h: nat, at: Place, q: Schedule)

  predicate RulesOk(g: Rules) {
    && 1 <= g.o.numTargets <= |g.o.targets| && g.c.numTargets <= |g.c.targets| == |g.o.targets|
    && |On(g.c.targets, g.h, g.c.numTargets)| == g.o.numTargets && !g.o.targets[Pos(g.o)].shadowOnly
    && g.leaf.step > 0 && g.q.ii > 0
  }

  ghost function RulesOf(x: Starting): (g: Rules)
    requires Starts(x)
    ensures RulesOk(g)
  {
    Rules(x.n.ccu, Outer(x), Inner(x), x.n.here.id, x.at, x.q)
  }

  /** What the register shows in a phase: on the leaf's tile, the loop's value once its
      message has arrived; before that, and on the other tile, the first one. */
  predicate Shows(g: Rules, p: Phase, v: nat) {
    if g.at.There? || p.k == 0 then v == g.c.lower
    else p.k == 1 && p.d <= |g.o.targets| && v == if Fed(g.o, g.at.b, p.d) then LC.ValueAt(g.c, 1) else g.c.lower
  }

  function Apply(g: Rules, r: Probe, mv: Move): Probe
    requires RulesOk(g) && (mv.SendMove? ==> r.sent < g.c.numTargets)
  {
    match mv
    case CountMove =>
      Probe(r.p.(stage := AfterCount(g.leaf, r.p.stage)), r.sent,
            r.t.(counts := r.t.counts + [CountPutsOut(g.leaf, r.p.stage)]))
    case FetchMove(v) => r.(t := r.t.(delivered := r.t.delivered + [v]))
    case TurnMove => Probe(Phase(1, g.o.numTargets, 0, 0, Waiting), 0, r.t)
    case SendMove => Probe(if g.c.targets[r.sent].tile == g.h then r.p.(m := r.p.m + 1) else r.p, r.sent + 1, r.t)
    case TakeMove =>
      r.(p := r.p.(d := r.p.d + 1, stage := if r.p.d == Pos(g.o) then Counting(0) else Waiting))
  }

  predicate May(g: Rules, r: Probe, mv: Move)
    requires RulesOk(g)
  {
    match mv
    case CountMove =>
      (r.p.stage.Counting? || r.p.stage.Reported?) && CountFirst(g.q, |r.t.counts|, |r.t.delivered|)
    case FetchMove(v) => Shows(g, r.p, v) && !CountFirst(g.q, |r.t.counts|, |r.t.delivered|)
    case TurnMove => r.p.k == 0 && r.p.stage.Reported?
    case SendMove => r.p.stage.Waiting? && r.sent < g.c.numTargets
    case TakeMove => r.p.k > 0 && r.p.e == g.o.numTargets && r.p.d < r.p.m && r.p.stage.Waiting?
  }

  function Play(g: Rules, ms: seq<Move>): Probe
    requires RulesOk(g) && Legal(g, ms)
    decreases |ms|, 1
  {
    if ms == [] then Probe(Start(g.o), g.c.numTargets, Trace([], []))
    else Apply(g, Play(g, ms[..|ms| - 1]), ms[|ms| - 1])
  }

  predicate Legal(g: Rules, ms: seq<Move>)
    requires RulesOk(g)
    decreases |ms|, 0
  {
    ms != [] ==> Legal(g, ms[..|ms| - 1]) && May(g, Play(g, ms[..|ms| - 1]), ms[|ms| - 1])
  }

  function CycleOf(x: Setup, mv: Move): NetEnv
    requires 1 <= x.n.ccu.numTargets <= |x.n.ccu.targets|
  {
    match mv
    case CountMove => Count(Leaf(x.n.ccu))
    case FetchMove(_) => Fetch(x.at)
    case TurnMove => Turn()
    case SendMove => Send()
    case TakeMove => Take()
  }

  // ---- one step at a time ----

  lemma CountDoes(w: LC.Widths, o: LC.Ccu, leaf: DCU.Slot, n: Net, p: Phase)
    requires NetReady(w, o, leaf, n, p) && (p.stage.Counting? || p.stage.Reported?)
    requires p.stage.Counting? ==> p.stage.j <= DCU.Trips(leaf)
    ensures NetEnvOk(w, n.ccu, Count(Leaf(n.ccu)))
    ensures var e := Count(Leaf(n.ccu));
            && NetNext(w, o, n, e, p) == p.(stage := AfterCount(leaf, p.stage))
            && Counts(n, e) && TokenOf(n.here.slots[Leaf(n.ccu)]) == CountPutsOut(leaf, p.stage)
            && NetCycle(w, n, e).ccu == n.ccu
  {
    var e := Count(Leaf(n.ccu));
    ViewOk(w, n);
    ViewEvents(n, e);
    if p.stage.Counting? {
      DCU.InsideExactly(leaf, p.stage.j);
    }
  }

  lemma CountLeads(x: Starting, es: seq<NetEnv>)
    requires Starts(x) && Goes(x, es) && (Log(x, es).p.stage.Counting? || Log(x, es).p.stage.Reported?)
    requires CountFirst(x.q, |Log(x, es).t.counts|, |Log(x, es).t.delivered|)
    ensures var r, e, now := Log(x, es), Count(Leaf(x.n.ccu)), NetRun(x.w, x.n, es);
            && Plain(x, e) && InTurn(x.q, r.t, now, e, x.at) && NetEnvOk(x.w, now.ccu, e)
            && Led(x, now, r, e) == Probe(r.p.(stage := AfterCount(Inner(x), r.p.stage)), r.sent,
                                          r.t.(counts := r.t.counts + [CountPutsOut(Inner(x), r.p.stage)]))
  {
    NetInPhase(x.w, x.n, es);
    assert Log(x, es).p.stage.Counting? ==> Log(x, es).p.stage.j <= DCU.Trips(Inner(x)) by {
      NetBound(x.w, x.n, es);
    }
    CountDoes(x.w, Outer(x), Inner(x), NetRun(x.w, x.n, es), Log(x, es).p);
    CountGrows(Log(x, es).t, NetRun(x.w, x.n, es), x.at);
  }

  lemma CountGrows(t: Trace, n: Net, at: Place)
    requires 1 <= n.ccu.numTargets <= |n.ccu.targets| && Leaf(n.ccu) < |n.here.slots| && PlaceOk(n, at)
    ensures var e := Count(Leaf(n.ccu));
            Counts(n, e) ==> Grow(t, n, e, at) == t.(counts := t.counts + [TokenOf(n.here.slots[Leaf(n.ccu)])])
  {
    assert t.delivered + [] == t.delivered;
  }

  lemma {:induction false} StaysValid(w: LC.Widths, n: Net, es: seq<NetEnv>, at: Place)
    requires NetOk(w, n) && PlaceOk(n, at) && NetEnvsOk(w, n.ccu, es) && AllSpared(es, at) && Withheld(es)
    ensures Register(n, at).shadowValid ==> Register(NetRun(w, n, es), at).shadowValid
    ensures at.There? ==> Register(NetRun(w, n, es), at).shadow == Register(n, at).shadow
  {
    if es != [] {
      var m := |es| - 1;
      StaysValid(w, n, es[..m], at);
      assert NetEnvOk(w, n.ccu, es[m]) && Spared(es[m], at) && !es[m].there.deliver;
      KeepsRegister(w, NetRun(w, n, es[..m]), es[m], at);
    }
  }

  lemma KeepsRegister(w: LC.Widths, n: Net, e: NetEnv, at: Place)
    requires NetOk(w, n) && NetEnvOk(w, n.ccu, e) && PlaceOk(n, at) && Spared(e, at) && !e.there.deliver
    ensures Register(n, at).shadowValid ==> Register(NetCycle(w, n, e), at).shadowValid
    ensures at.There? ==> Register(NetCycle(w, n, e), at).shadow == Register(n, at).shadow
  {
  }

  lemma ItShows(x: Starting, es: seq<NetEnv>, v: nat)
    requires Starts(x) && Goes(x, es) && Shows(RulesOf(x), NetPhase(x.w, x.n, es), v)
    ensures Register(NetRun(x.w, x.n, es), x.at).shadow == v
  {
    if x.at.There? {
      StaysValid(x.w, x.n, es, x.at);
    } else {
      RegisterHolds(x.w, x.n, es, x.at.b);
      SameLoop(x.n.ccu, Outer(x), Inner(x), 1);
    }
  }

  lemma FetchDoes(w: LC.Widths, o: LC.Ccu, leaf: DCU.Slot, n: Net, p: Phase, at: Place, t: Trace)
    requires NetReady(w, o, leaf, n, p) && PlaceOk(n, at) && Register(n, at).shadowValid
    ensures NetEnvOk(w, n.ccu, Fetch(at)) && NetNext(w, o, n, Fetch(at), p) == p
    ensures NetCycle(w, n, Fetch(at)).ccu == n.ccu
    ensures Grow(t, n, Fetch(at), at) == t.(delivered := t.delivered + [Register(n, at).shadow])
  {
    assert NetEnvOk(w, n.ccu, Fetch(at));
    NothingElse(w, o, leaf, n, Fetch(at), p);
    assert t.counts + [] == t.counts;
  }

  /** A cycle in which no one else moves and the leaf is not executed changes no phase. */
  lemma NothingElse(w: LC.Widths, o: LC.Ccu, leaf: DCU.Slot, n: Net, e: NetEnv, p: Phase)
    requires NetReady(w, o, leaf, n, p) && NetEnvOk(w, n.ccu, e)
    requires !e.grant && !e.child && !e.here.deliver && !DCU.Counting(e.here.input, Leaf(n.ccu))
    ensures NetNext(w, o, n, e, p) == p && NetCycle(w, n, e).ccu == n.ccu
  {
    assert ActsOf(View(n), ViewEnv(n, e)) == Acts(false, false, false, false, false) by {
      ViewOk(w, n);
      ViewEvents(n, e);
    }
  }

  lemma FetchLeads(x: Starting, es: seq<NetEnv>, v: nat)
    requires Starts(x) && Goes(x, es) && Shows(RulesOf(x), Log(x, es).p, v)
    requires !CountFirst(x.q, |Log(x, es).t.counts|, |Log(x, es).t.delivered|)
    ensures var r, e, now := Log(x, es), Fetch(x.at), NetRun(x.w, x.n, es);
            && Plain(x, e) && InTurn(x.q, r.t, now, e, x.at) && NetEnvOk(x.w, now.ccu, e)
            && Led(x, now, r, e) == r.(t := r.t.(delivered := r.t.delivered + [v]))
  {
    assert Register(NetRun(x.w, x.n, es), x.at).shadow == v && Register(NetRun(x.w, x.n, es), x.at).shadowValid by {
      StaysValid(x.w, x.n, es, x.at);
      ItShows(x, es, v);
    }
    NetInPhase(x.w, x.n, es);
    FetchDoes(x.w, Outer(x), Inner(x), NetRun(x.w, x.n, es), Log(x, es).p, x.at, Log(x, es).t);
  }

  /** A cycle in which neither step is executed. */
  predicate Silent(e: NetEnv) {
    !e.here.input.optVal && !e.there.input.optVal
  }

  lemma SilentGrows(t: Trace, n: Net, e: NetEnv, at: Place)
    requires 1 <= n.ccu.numTargets <= |n.ccu.targets| && Leaf(n.ccu) < |n.here.slots| && PlaceOk(n, at) && Silent(e)
    ensures Grow(t, n, e, at) == t
  {
    assert t.counts + [] == t.counts && t.delivered + [] == t.delivered;
  }

  lemma TurnDoes(w: LC.Widths, o: LC.Ccu, leaf: DCU.Slot, n: Net, p: Phase)
    requires NetReady(w, o, leaf, n, p) && p.k == 0 && p.stage.Reported? && LC.Trips(o) >= 2
    ensures NetEnvOk(w, n.ccu, Turn()) && NetNext(w, o, n, Turn(), p) == Phase(1, o.numTargets, 0, 0, Waiting)
    ensures NetCycle(w, n, Turn()).ccu.state.Dispatching? && Sent(NetCycle(w, n, Turn()).ccu) == 0
  {
    ViewOk(w, n);
    ViewEvents(n, Turn());
    LC.IterationExactly(o, 1);
    NetStep(w, o, leaf, n, Turn(), p);
  }

  lemma SendDoes(w: LC.Widths, o: LC.Ccu, leaf: DCU.Slot, n: Net, p: Phase)
    requires NetReady(w, o, leaf, n, p) && n.ccu.state.Dispatching? && p.stage.Waiting?
    ensures NetEnvOk(w, n.ccu, Send()) && Sent(NetCycle(w, n, Send()).ccu) == n.ccu.dispatchIdx + 1
    ensures NetNext(w, o, n, Send(), p)
      == if n.ccu.targets[n.ccu.dispatchIdx].tile == n.here.id then p.(m := p.m + 1) else p
  {
    var near := n.ccu.targets[n.ccu.dispatchIdx].tile == n.here.id;
    assert ActsOf(View(n), ViewEnv(n, Send())) == Acts(near, false, false, false, false) by {
      ViewOk(w, n);
      ViewEvents(n, Send());
    }
    AfterSend(o, p, near);
    SentOne(w, n);
  }

  lemma AfterSend(o: LC.Ccu, p: Phase, near: bool)
    requires 1 <= o.numTargets <= |o.targets| && Shape(o, p) && p.stage.Waiting?
    ensures After(o, p, Acts(near, false, false, false, false)) == if near then p.(m := p.m + 1) else p
  {
  }

  lemma SentOne(w: LC.Widths, n: Net)
    requires NetOk(w, n) && n.ccu.state.Dispatching? && NetEnvOk(w, n.ccu, Send())
    ensures Sent(NetCycle(w, n, Send()).ccu) == n.ccu.dispatchIdx + 1
  {
  }

  lemma TakeDoes(w: LC.Widths, o: LC.Ccu, leaf: DCU.Slot, n: Net, p: Phase)
    requires NetReady(w, o, leaf, n, p) && p.k > 0 && p.e == o.numTargets && p.d < p.m && p.stage.Waiting?
    ensures NetEnvOk(w, n.ccu, Take()) && NetCycle(w, n, Take()).ccu == n.ccu
    ensures NetNext(w, o, n, Take(), p) == p.(d := p.d + 1, stage := if p.d == Pos(o) then Counting(0) else Waiting)
  {
    ViewOk(w, n);
    ViewEvents(n, Take());
    ChannelSize(o, p);
  }

  lemma TurnLeads(x: Starting, es: seq<NetEnv>)
    requires Starts(x) && Goes(x, es) && May(RulesOf(x), Log(x, es), TurnMove)
    ensures NetEnvOk(x.w, NetRun(x.w, x.n, es).ccu, Turn())
    ensures Led(x, NetRun(x.w, x.n, es), Log(x, es), Turn()) == Apply(RulesOf(x), Log(x, es), TurnMove)
  {
    NetInPhase(x.w, x.n, es);
    OwnTrips(x.w, x.n);
    TurnDoes(x.w, Outer(x), Inner(x), NetRun(x.w, x.n, es), Log(x, es).p);
    SilentGrows(Log(x, es).t, NetRun(x.w, x.n, es), Turn(), x.at);
  }

  lemma SendLeads(x: Starting, es: seq<NetEnv>)
    requires Starts(x) && Goes(x, es) && May(RulesOf(x), Log(x, es), SendMove)
    ensures NetEnvOk(x.w, NetRun(x.w, x.n, es).ccu, Send())
    ensures Led(x, NetRun(x.w, x.n, es), Log(x, es), Send()) == Apply(RulesOf(x), Log(x, es), SendMove)
  {
    NetInPhase(x.w, x.n, es);
    SendDoes(x.w, Outer(x), Inner(x), NetRun(x.w, x.n, es), Log(x, es).p);
    SilentGrows(Log(x, es).t, NetRun(x.w, x.n, es), Send(), x.at);
  }

  lemma TakeLeads(x: Starting, es: seq<NetEnv>)
    requires Starts(x) && Goes(x, es) && May(RulesOf(x), Log(x, es), TakeMove)
    ensures NetEnvOk(x.w, NetRun(x.w, x.n, es).ccu, Take())
    ensures Led(x, NetRun(x.w, x.n, es), Log(x, es), Take()) == Apply(RulesOf(x), Log(x, es), TakeMove)
  {
    NetInPhase(x.w, x.n, es);
    TakeDoes(x.w, Outer(x), Inner(x), NetRun(x.w, x.n, es), Log(x, es).p);
    SilentGrows(Log(x, es).t, NetRun(x.w, x.n, es), Take(), x.at);
  }

  /** Each move is a cycle that does what the move says. */
  lemma MoveLeads(x: Starting, es: seq<NetEnv>, mv: Move)
    requires Starts(x) && Goes(x, es) && May(RulesOf(x), Log(x, es), mv)
    ensures var e, now := CycleOf(x, mv), NetRun(x.w, x.n, es);
            && Plain(x, e) && InTurn(x.q, Log(x, es).t, now, e, x.at) && NetEnvOk(x.w, now.ccu, e)
            && Led(x, now, Log(x, es), e) == Apply(RulesOf(x), Log(x, es), mv)
  {
    match mv {
      case CountMove => CountLeads(x, es);
      case FetchMove(v) => FetchLeads(x, es, v);
      case TurnMove => TurnLeads(x, es);
      case SendMove => SendLeads(x, es);
      case TakeMove => TakeLeads(x, es);
    }
  }

  /** Every legal sequence of moves is a run. */
  lemma {:induction false} Realize(x: Starting, ms: seq<Move>) returns (es: seq<NetEnv>)
    requires Starts(x) && Legal(RulesOf(x), ms)
    ensures Leads(x, es, Play(RulesOf(x), ms))
  {
    if ms == [] {
      es := [];
    } else {
      es := Realize(x, ms[..|ms| - 1]);
      MoveLeads(x, es, ms[|ms| - 1]);
      GoesOn(x, es, CycleOf(x, ms[|ms| - 1]));
      es := es + [CycleOf(x, ms[|ms| - 1])];
    }
  }

  // ---- iteration 0, and the way to iteration 1 ----

  /** The moves lead to r. */
  predicate Plays(g: Rules, ms: seq<Move>, r: Probe) {
    RulesOk(g) && Legal(g, ms) && Play(g, ms) == r
  }

  lemma Then(g: Rules, ms: seq<Move>, r: Probe, mv: Move)
    requires Plays(g, ms, r) && May(g, r, mv)
    ensures Plays(g, ms + [mv], Apply(g, r, mv))
  {
    assert (ms + [mv])[..|ms|] == ms;
  }

  function Repeat(v: nat, m: nat): (r: seq<nat>)
    ensures |r| == m && forall i :: 0 <= i < m ==> r[i] == v
  {
    seq(m, _ => v)
  }

  /** How many deliveries come before count number c. */
  function Due(q: Schedule, c: nat): nat
    requires q.ii > 0
  {
    if c + 1 > Lag(q) then c + 1 - Lag(q) else 0
  }

  lemma DueIs(q: Schedule, c: nat, d: nat)
    requires q.ii > 0
    ensures CountFirst(q, c, d) <==> d >= Due(q, c)
  {
    LagIs(q, c, d);
  }

  /** m deliveries that are due. */
  lemma {:induction false} Fetches(g: Rules, ms: seq<Move>, r: Probe, v: nat, m: nat) returns (ms': seq<Move>)
    requires Plays(g, ms, r) && Shows(g, r.p, v) && |r.t.delivered| + m <= Due(g.q, |r.t.counts|)
    ensures Plays(g, ms', r.(t := r.t.(delivered := r.t.delivered + Repeat(v, m))))
  {
    if m == 0 {
      assert r.t.delivered + Repeat(v, 0) == r.t.delivered;
      ms' := ms;
    } else {
      ms' := Fetches(g, ms, r, v, m - 1);
      var d := r.t.delivered + Repeat(v, m - 1);
      DueIs(g.q, |r.t.counts|, |d|);
      Then(g, ms', r.(t := r.t.(delivered := d)), FetchMove(v));
      ms' := ms' + [FetchMove(v)];
      assert d + [v] == r.t.delivered + Repeat(v, m);
    }
  }

  /** What c counts of a leaf put out in iteration 0, and where they lead. */
  function Tokens(leaf: DCU.Slot, trips: nat, c: nat): (ks: seq<DCU.Token>)
    ensures |ks| == c
  {
    if c == 0 then []
    else Tokens(leaf, trips, c - 1) + [if c <= trips then DCU.Value(DCU.ValueAt(leaf, c - 1)) else DCU.Void]
  }

  function StageAt(trips: nat, c: nat): Stage {
    if c <= trips then Counting(c) else Reported
  }

  /** After c counts of iteration 0, with m deliveries. */
  function FirstProbe(g: Rules, c: nat, m: nat): Probe
    requires RulesOk(g)
  {
    var n, trips := g.o.numTargets, DCU.Trips(g.leaf);
    Probe(Phase(0, n, n, n, StageAt(trips, c)), g.c.numTargets, Trace(Tokens(g.leaf, trips, c), Repeat(g.c.lower, m)))
  }

  lemma {:induction false} First(g: Rules, c: nat) returns (ms: seq<Move>)
    requires RulesOk(g)
    ensures Plays(g, ms, FirstProbe(g, c, Due(g.q, c)))
  {
    var before := 0;
    if c == 0 {
      ms := [];
      assert Repeat(g.c.lower, 0) == [];
    } else {
      ms := First(g, c - 1);
      before := Due(g.q, c - 1);
      ms := FirstCount(g, ms, c - 1);
    }
    ms := Fetches(g, ms, FirstProbe(g, c, before), g.c.lower, Due(g.q, c) - before);
    assert Repeat(g.c.lower, before) + Repeat(g.c.lower, Due(g.q, c) - before) == Repeat(g.c.lower, Due(g.q, c));
  }

  /** One more count. */
  lemma FirstCount(g: Rules, ms: seq<Move>, c: nat) returns (ms': seq<Move>)
    requires RulesOk(g) && Plays(g, ms, FirstProbe(g, c, Due(g.q, c)))
    ensures Plays(g, ms', FirstProbe(g, c + 1, Due(g.q, c)))
  {
    DueIs(g.q, c, Due(g.q, c));
    Then(g, ms, FirstProbe(g, c, Due(g.q, c)), CountMove);
    ms' := ms + [CountMove];
  }

  /** i messages of round 1 sent, none delivered. */
  function Sending(g: Rules, i: nat, t: Trace): Probe
    requires i <= |g.c.targets|
  {
    Probe(Phase(1, g.o.numTargets, |On(g.c.targets, g.h, i)|, 0, Waiting), i, t)
  }

  lemma {:induction false} Sends(g: Rules, start: seq<Move>, i: nat, t: Trace) returns (ms: seq<Move>)
    requires RulesOk(g) && Plays(g, start, Sending(g, 0, t)) && i <= g.c.numTargets
    ensures Plays(g, ms, Sending(g, i, t))
  {
    if i == 0 {
      ms := start;
    } else {
      ms := Sends(g, start, i - 1, t);
      Then(g, ms, Sending(g, i - 1, t), SendMove);
      ms := ms + [SendMove];
    }
  }

  /** All of round 1 sent, d messages of the leaf's tile delivered. */
  function Taking(g: Rules, d: nat, t: Trace): Probe
    requires RulesOk(g)
  {
    var n := g.o.numTargets;
    Probe(Phase(1, n, n, d, if d > Pos(g.o) then Counting(0) else Waiting), g.c.numTargets, t)
  }

  lemma {:induction false} Takes(g: Rules, start: seq<Move>, d: nat, t: Trace) returns (ms: seq<Move>)
    requires RulesOk(g) && Plays(g, start, Taking(g, 0, t)) && d <= Pos(g.o) + 1
    ensures Plays(g, ms, Taking(g, d, t))
  {
    if d == 0 {
      ms := start;
    } else {
      ms := Takes(g, start, d - 1, t);
      Then(g, ms, Taking(g, d - 1, t), TakeMove);
      ms := ms + [TakeMove];
    }
  }

  /** The controller goes on, and the messages up to the leaf's reset arrive. */
  lemma Restart(g: Rules, start: seq<Move>, r: Probe) returns (ms: seq<Move>)
    requires RulesOk(g) && Plays(g, start, r) && r.p.k == 0 && r.p.stage.Reported?
    ensures Plays(g, ms, Taking(g, Pos(g.o) + 1, r.t))
  {
    Then(g, start, r, TurnMove);
    ms := Sends(g, start + [TurnMove], g.c.numTargets, r.t);
    ms := Takes(g, ms, Pos(g.o) + 1, r.t);
  }

  // ---- runs that mispair ----

  /** Nest k of the leaf's first value in iteration 1, met by the first outer value. */
  function Wrong(c: LC.Ccu, leaf: DCU.Slot): seq<Pair>
    requires leaf.step > 0
  {
    Row(c.lower, leaf, DCU.Trips(leaf)) + [Pair(c.lower, leaf.lower)]
  }

  lemma WrongDiffers(c: LC.Ccu, leaf: DCU.Slot)
    requires c.step > 0 && leaf.step > 0 && LC.Trips(c) >= 2 && DCU.Trips(leaf) > 0
    ensures !(Wrong(c, leaf) <= Nest(c, leaf, LC.Trips(c)))
  {
    var t := DCU.Trips(leaf);
    NestIsPrefix(c, leaf, 2, LC.Trips(c));
    assert Nest(c, leaf, 1) == Row(c.lower, leaf, t);
    assert LC.ValueAt(c, 1) == c.lower + c.step;
    RowAt(LC.ValueAt(c, 1), leaf, t, 0);
    assert Nest(c, leaf, 2)[t] == Pair(c.lower + c.step, leaf.lower);
    assert Nest(c, leaf, LC.Trips(c))[t] == Nest(c, leaf, 2)[t];
  }

  /** The values of iteration 0, a predicate-0 token, and the first value of iteration 1, each
      with a delivery of the first outer value. */
  predicate Stale(c: LC.Ccu, leaf: DCU.Slot, trips: nat, t: Trace) {
    && Tokens(leaf, trips, trips + 1) + [DCU.Value(leaf.lower)] <= t.counts && trips + 1 < |t.delivered|
    && forall i :: 0 <= i <= trips + 1 ==> t.delivered[i] == c.lower
  }

  lemma {:induction false} TokenValues(leaf: DCU.Slot, trips: nat, c: nat)
    ensures Values(Tokens(leaf, trips, c)) == DCU.Range(leaf, if c <= trips then c else trips)
  {
    if c > 0 {
      TokenValues(leaf, trips, c - 1);
      ValuesAdd(Tokens(leaf, trips, c - 1), if c <= trips then DCU.Value(DCU.ValueAt(leaf, c - 1)) else DCU.Void);
    }
  }

  /** n deliveries of v. */
  lemma MeetTokens(leaf: DCU.Slot, trips: nat, t: Trace, n: nat, v: nat)
    requires n <= |t.counts| && n <= |t.delivered| && t.counts[..n] == Tokens(leaf, trips, n)
    requires forall i :: 0 <= i < n ==> t.delivered[i] == v
    ensures Meet(t.counts, t.delivered, n) == Row(v, leaf, if n <= trips then n else trips)
  {
    TokenValues(leaf, trips, n);
    MeetRow(t.counts, t.delivered, n, v, leaf, if n <= trips then n else trips);
  }

  lemma MeetStale(c: LC.Ccu, leaf: DCU.Slot, trips: nat, t: Trace)
    requires Stale(c, leaf, trips, t)
    ensures Meet(t.counts, t.delivered, trips + 2) == Row(c.lower, leaf, trips) + [Pair(c.lower, leaf.lower)]
  {
    assert t.counts[..trips + 1] == Tokens(leaf, trips, trips + 1);
    MeetTokens(leaf, trips, t, trips + 1, c.lower);
    assert t.counts[trips + 1] == DCU.Value(leaf.lower);
  }

  lemma StaleMispairs(c: LC.Ccu, leaf: DCU.Slot, t: Trace)
    requires c.step > 0 && leaf.step > 0 && LC.Trips(c) >= 2 && DCU.Trips(leaf) > 0
    requires Stale(c, leaf, DCU.Trips(leaf), t)
    ensures Wrong(c, leaf) <= Pairs(t) && !(Pairs(t) <= Nest(c, leaf, LC.Trips(c)))
    ensures |t.counts| == DCU.Trips(leaf) + 2 ==> Pairs(t) == Wrong(c, leaf)
  {
    MeetStale(c, leaf, DCU.Trips(leaf), t);
    MeetPrefix(t.counts, t.delivered, DCU.Trips(leaf) + 2,
               if |t.counts| <= |t.delivered| then |t.counts| else |t.delivered|);
    WrongDiffers(c, leaf);
  }

  /** A delivery step ahead of its count step reads the register before its message can have
      been sent. */
  lemma Ahead(g: Rules) returns (ms: seq<Move>, r: Probe)
    requires RulesOk(g) && Lag(g.q) <= 0 && DCU.Trips(g.leaf) > 0
    ensures Plays(g, ms, r) && Stale(g.c, g.leaf, DCU.Trips(g.leaf), r.t) && |r.t.counts| == DCU.Trips(g.leaf) + 2
  {
    var n := DCU.Trips(g.leaf) + 1;
    ms := First(g, n);
    ms := Restart(g, ms, FirstProbe(g, n, Due(g.q, n)));
    r := Taking(g, Pos(g.o) + 1, FirstProbe(g, n, Due(g.q, n)).t);
    DueIs(g.q, n, Due(g.q, n));
    Then(g, ms, r, CountMove);
    ms, r := ms + [CountMove], Apply(g, r, CountMove);
  }

  /** Before its message arrives the register shows the first value. */
  predicate Unrefreshed(g: Rules)
    requires RulesOk(g)
  {
    g.at.There? || !FedFirst(g.o, g.at.b)
  }

  /** In iteration 1, with the messages up to the leaf's reset delivered and all due
      deliveries made, all of the first value. */
  predicate Lagging(g: Rules, r: Probe)
    requires RulesOk(g)
  {
    && r.p.k == 1 && r.p.d == Pos(g.o) + 1 && (r.p.stage.Counting? || r.p.stage.Reported?)
    && |r.t.delivered| == Due(g.q, |r.t.counts|)
    && forall i :: 0 <= i < |r.t.delivered| ==> r.t.delivered[i] == g.c.lower
  }

  /** Another count and the deliveries it makes due. */
  lemma Pump(g: Rules, ms: seq<Move>, r: Probe) returns (ms': seq<Move>, r': Probe)
    requires RulesOk(g) && Unrefreshed(g) && Lag(g.q) >= 1 && Plays(g, ms, r) && Lagging(g, r)
    ensures Plays(g, ms', r') && Lagging(g, r') && r'.t.counts == r.t.counts + [CountPutsOut(g.leaf, r.p.stage)]
  {
    DueIs(g.q, |r.t.counts|, |r.t.delivered|);
    Then(g, ms, r, CountMove);
    var q, m := Apply(g, r, CountMove), Due(g.q, |r.t.counts| + 1) - Due(g.q, |r.t.counts|);
    ms' := Fetches(g, ms + [CountMove], q, g.c.lower, m);
    r' := q.(t := q.t.(delivered := q.t.delivered + Repeat(g.c.lower, m)));
  }

  lemma {:induction false} Pumps(g: Rules, ms: seq<Move>, r: Probe, m: nat) returns (ms': seq<Move>, r': Probe)
    requires RulesOk(g) && Unrefreshed(g) && Lag(g.q) >= 1 && Plays(g, ms, r) && Lagging(g, r)
    ensures Plays(g, ms', r') && Lagging(g, r') && r.t.counts <= r'.t.counts && |r'.t.counts| == |r.t.counts| + m
  {
    ms', r' := ms, r;
    if m > 0 {
      ms', r' := Pumps(g, ms, r, m - 1);
      ms', r' := Pump(g, ms', r');
    }
  }

  /** A register not refreshed in time is read stale however far the delivery step lags. */
  lemma Behind(g: Rules) returns (ms: seq<Move>, r: Probe)
    requires RulesOk(g) && Unrefreshed(g) && Lag(g.q) >= 1 && DCU.Trips(g.leaf) > 0
    ensures Plays(g, ms, r) && Stale(g.c, g.leaf, DCU.Trips(g.leaf), r.t)
    ensures Lag(g.q) == 1 ==> |r.t.counts| == DCU.Trips(g.leaf) + 2
  {
    var n := DCU.Trips(g.leaf) + 1;
    ms := First(g, n);
    ms := Restart(g, ms, FirstProbe(g, n, Due(g.q, n)));
    r := Taking(g, Pos(g.o) + 1, FirstProbe(g, n, Due(g.q, n)).t);
    ms, r := Pump(g, ms, r);
    ms, r := Pumps(g, ms, r, Lag(g.q) - 1);
  }

  lemma {:induction false} TokensPrefix(leaf: DCU.Slot, trips: nat, m: nat, n: nat)
    requires m <= n
    ensures Tokens(leaf, trips, m) <= Tokens(leaf, trips, n)
  {
    if m < n {
      TokensPrefix(leaf, trips, m, n - 1);
    }
  }

  /** The last value of iteration 0 meets the outer value of iteration 1. */
  predicate TooNew(c: LC.Ccu, leaf: DCU.Slot, trips: nat, t: Trace)
    requires trips > 0
  {
    && Tokens(leaf, trips, trips) <= t.counts && trips <= |t.delivered| && t.delivered[trips - 1] == LC.ValueAt(c, 1)
    && forall i :: 0 <= i < trips - 1 ==> t.delivered[i] == c.lower
  }

  lemma MeetTooNew(c: LC.Ccu, leaf: DCU.Slot, trips: nat, t: Trace)
    requires trips > 0 && TooNew(c, leaf, trips, t)
    ensures Meet(t.counts, t.delivered, trips)
      == Row(c.lower, leaf, trips - 1) + [Pair(LC.ValueAt(c, 1), DCU.ValueAt(leaf, trips - 1))]
  {
    assert t.counts[..trips - 1] == Tokens(leaf, trips, trips)[..trips - 1] == Tokens(leaf, trips, trips - 1);
    MeetTokens(leaf, trips, t, trips - 1, c.lower);
    assert t.counts[trips - 1] == Tokens(leaf, trips, trips)[trips - 1];
  }

  lemma TooNewMispairs(c: LC.Ccu, leaf: DCU.Slot, t: Trace)
    requires c.step > 0 && leaf.step > 0 && LC.Trips(c) >= 2
    requires DCU.Trips(leaf) > 0 && TooNew(c, leaf, DCU.Trips(leaf), t)
    ensures !(Pairs(t) <= Nest(c, leaf, LC.Trips(c)))
  {
    var n, m := DCU.Trips(leaf), Meet(t.counts, t.delivered, DCU.Trips(leaf));
    assert |m| == n && m[n - 1].outer == c.lower + c.step by {
      MeetTooNew(c, leaf, n, t);
      assert LC.ValueAt(c, 1) == LC.ValueAt(c, 0) + c.step;
    }
    MeetPrefix(t.counts, t.delivered, n, if |t.counts| <= |t.delivered| then |t.counts| else |t.delivered|);
    FirstRow(c, leaf, n - 1);
  }

  lemma FirstRow(c: LC.Ccu, leaf: DCU.Slot, j: nat)
    requires c.step > 0 && leaf.step > 0 && LC.Trips(c) >= 1 && j < DCU.Trips(leaf)
    ensures j < |Nest(c, leaf, LC.Trips(c))| && Nest(c, leaf, LC.Trips(c))[j].outer == c.lower
  {
    NestIsPrefix(c, leaf, 1, LC.Trips(c));
    assert Nest(c, leaf, 1) == Row(c.lower, leaf, DCU.Trips(leaf));
    RowAt(c.lower, leaf, DCU.Trips(leaf), j);
  }

  /** A delivery step an interval or more behind is overtaken by the controller. */
  lemma Overtaken(g: Rules) returns (ms: seq<Move>, r: Probe)
    requires RulesOk(g) && g.at.Here? && FedFirst(g.o, g.at.b) && Lag(g.q) >= 2 && DCU.Trips(g.leaf) > 0
    ensures Plays(g, ms, r) && TooNew(g.c, g.leaf, DCU.Trips(g.leaf), r.t)
  {
    var n, v := DCU.Trips(g.leaf) + Lag(g.q) - 2, LC.ValueAt(g.c, 1);
    ms := First(g, n);
    ms := FirstCount(g, ms, n);
    r := FirstProbe(g, n + 1, Due(g.q, n));
    ms := Restart(g, ms, r);
    DueIs(g.q, n + 1, Due(g.q, n));
    assert Fed(g.o, g.at.b, Pos(g.o) + 1);
    Then(g, ms, Taking(g, Pos(g.o) + 1, r.t), FetchMove(v));
    ms, r := ms + [FetchMove(v)], Apply(g, Taking(g, Pos(g.o) + 1, r.t), FetchMove(v));
    TokensPrefix(g.leaf, DCU.Trips(g.leaf), DCU.Trips(g.leaf), n + 1);
  }

  // ---- exactly when ----

  lemma PlaysWrong(g: Rules) returns (ms: seq<Move>, r: Probe)
    requires RulesOk(g) && g.c.step > 0 && LC.Trips(g.c) >= 2 && DCU.Trips(g.leaf) > 0
    requires Unrefreshed(g) || Lag(g.q) != 1
    ensures Plays(g, ms, r) && !(Pairs(r.t) <= Nest(g.c, g.leaf, LC.Trips(g.c)))
    ensures Lag(g.q) <= 0 || (Lag(g.q) == 1 && Unrefreshed(g)) ==> Pairs(r.t) == Wrong(g.c, g.leaf)
  {
    if Lag(g.q) <= 0 {
      ms, r := Ahead(g);
      StaleMispairs(g.c, g.leaf, r.t);
    } else if Unrefreshed(g) {
      ms, r := Behind(g);
      StaleMispairs(g.c, g.leaf, r.t);
    } else {
      ms, r := Overtaken(g);
      TooNewMispairs(g.c, g.leaf, r.t);
    }
  }

  /** The register is on the leaf's tile and refreshed before the leaf is reset, and its
      deliveries directly follow their counts. */
  predicate Right(n: Net, at: Place, q: Schedule)
    requires 1 <= n.ccu.numTargets <= |n.ccu.targets|
  {
    at.Here? && RefreshedFirst(n, at.b) && q.count < q.delivery < q.count + q.ii
  }

  /** In all other cases some timing mispairs. */
  lemma Mispairs(x: Starting) returns (es: seq<NetEnv>)
    requires Starts(x) && !Right(x.n, x.at, x.q)
    ensures Goes(x, es) && !(Pairs(Log(x, es).t) <= Nest(x.n.ccu, Inner(x), LC.Trips(x.n.ccu)))
    ensures x.q.delivery < x.q.count + x.q.ii ==> Pairs(Log(x, es).t) == Wrong(x.n.ccu, Inner(x))
  {
    RefreshedFirstIs(x.w, x.n, x.at.b);
    PacedIs(x.q);
    NotLate(x.q);
    var ms, r := PlaysWrong(RulesOf(x));
    es := Realize(x, ms);
  }

  lemma NotLate(q: Schedule)
    requires ScheduleOk(q)
    ensures Lag(q) <= 1 <==> q.delivery < q.count + q.ii
  {
    var x := q.delivery - q.count;
    CeilAbove(x, q.ii, 1);
    if x == q.ii {
      SameResidue(q.count, q.ii);
    }
  }

  /** Under every timing the pairs are the software nest's exactly when the register is on the
      leaf's tile, refreshed before the leaf is reset, and delivered in the interval behind
      each count; or there is no second iteration; or no value. */
  lemma PairingExactly(w: LC.Widths, n: Net, at: Place, q: Schedule)
    requires FreshNet(w, n) && Primed(n, at) && ScheduleOk(q)
    ensures (forall es :: NetEnvsOk(w, n.ccu, es) && AllSpared(es, at) && InOrder(w, n, es, at, q) ==>
               Pairs(TraceOf(w, n, es, at)) <= Nest(n.ccu, n.here.slots[Leaf(n.ccu)], LC.Trips(n.ccu)))
      <==> Right(n, at, q) || LC.Trips(n.ccu) < 2 || DCU.Trips(n.here.slots[Leaf(n.ccu)]) == 0
  {
    if Right(n, at, q) || LC.Trips(n.ccu) < 2 || DCU.Trips(n.here.slots[Leaf(n.ccu)]) == 0 {
      forall es | NetEnvsOk(w, n.ccu, es) && AllSpared(es, at) && InOrder(w, n, es, at, q)
        ensures Pairs(TraceOf(w, n, es, at)) <= Nest(n.ccu, n.here.slots[Leaf(n.ccu)], LC.Trips(n.ccu))
      {
        if Right(n, at, q) {
          NestEqualsSoftware(w, n, es, at.b, q);
        } else {
          PairsAnyway(w, n, es, at);
        }
      }
    } else {
      var es := Mispairs(Setup(w, n, at, q));
    }
  }

  /** A register on another tile: whatever the target order, and whatever order the steps of
      the two tiles keep, some timing mispairs. */
  lemma SeparateTilesMispair(w: LC.Widths, n: Net, b: nat, q: Schedule) returns (es: seq<NetEnv>)
    requires FreshNet(w, n) && Primed(n, There(b)) && ScheduleOk(q)
    requires LC.Trips(n.ccu) >= 2 && DCU.Trips(n.here.slots[Leaf(n.ccu)]) > 0
    ensures NetEnvsOk(w, n.ccu, es) && AllSpared(es, There(b)) && InOrder(w, n, es, There(b), q)
    ensures !(Pairs(TraceOf(w, n, es, There(b))) <= Nest(n.ccu, n.here.slots[Leaf(n.ccu)], LC.Trips(n.ccu)))
  {
    es := Mispairs(Setup(w, n, There(b), q));
  }

  // ---- three layouts ----

  /** Some timing of the small nest gives the first value of iteration 1 the outer value 0. */
  ghost predicate SmallMispairs(ts: seq<LC.Target>, at: Place, q: Schedule, es: seq<NetEnv>)
    requires ts == LeafFirst() || ts == LeafLast() || ts == Apart()
    requires at.b == 2
  {
    SmallIs(ts, at);
    var w, n := SmallWidths(), Small(ts);
    && NetEnvsOk(w, n.ccu, es) && AllSpared(es, at) && InOrder(w, n, es, at, q)
    && Pairs(TraceOf(w, n, es, at)) == [Pair(0, 0), Pair(0, 1), Pair(0, 0)]
  }

  lemma SmallRun(ts: seq<LC.Target>, at: Place, q: Schedule) returns (es: seq<NetEnv>)
    requires ts == LeafFirst() || ts == LeafLast() || ts == Apart()
    requires at.b == 2 && ScheduleOk(q) && q.delivery < q.count + q.ii && !Right(Small(ts), at, q)
    ensures SmallMispairs(ts, at, q, es)
  {
    SmallIs(ts, at);
    es := Mispairs(Setup(SmallWidths(), Small(ts), at, q));
    TwoValues(Small(ts).here.slots[0]);
  }

  lemma TwoValues(leaf: DCU.Slot)
    requires leaf.lower == 0 && leaf.step == 1
    ensures Row(0, leaf, 2) == [Pair(0, 0), Pair(0, 1)]
  {
    assert DCU.ValueAt(leaf, 1) == 1;
    assert Row(0, leaf, 1) == [Pair(0, 0)];
  }

  /** The register listed behind the leaf. */
  lemma LeafFirstMispairs() returns (es: seq<NetEnv>)
    ensures SmallMispairs(LeafFirst(), Here(2), Schedule(3, 0, 2), es)
  {
    assert Pos(Small(LeafFirst()).ccu) == 0;
    es := SmallRun(LeafFirst(), Here(2), Schedule(3, 0, 2));
  }

  /** The register listed first, but its delivery step ahead of the count step. */
  lemma DeliveryFirstMispairs() returns (es: seq<NetEnv>)
    ensures SmallMispairs(LeafLast(), Here(2), Schedule(3, 3, 2), es)
  {
    es := SmallRun(LeafLast(), Here(2), Schedule(3, 3, 2));
  }

  /** Count and delivery on two tiles, in lockstep, the register listed first. */
  lemma ApartMispairs() returns (es: seq<NetEnv>)
    ensures SmallMispairs(Apart(), There(2), Schedule(3, 0, 2), es)
  {
    es := SmallRun(Apart(), There(2), Schedule(3, 0, 2));
  }
}
