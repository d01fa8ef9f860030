/** A loop nest spread over tiles: the CCU's targets stand on the leaf's tile, on another one,
    or elsewhere, and every tile has a command channel of its own.  Commands for one tile
    arrive in order; between tiles there is no order.

    `ViewStep`: the leaf's tile cannot tell: what it sees is LoopNest's nest over the targets
    that stand on it.  So whatever the timing the leaf's values are its range once per
    iteration (`InnerStream`), and the nest finishes (`NestFinishes`). */
module NestTiles {
  import Arith
  import LC = LoopController
  import DCU = LoopCounter
  import opened LoopNest

  /** The tile's id, its loop counters, and the commands in flight to it. */
  datatype Tile = Tile(id: nat, slots: seq<DCU.Slot>, down: seq<LC.Msg>)

  /** The controller, the leaf's tile, one other tile, and completions in flight to the
      controller.  Messages to third tiles leave the picture. */
  datatype Net = Net(ccu: LC.Ccu, here: Tile, there: Tile, up: nat)

  /** One cycle of a tile: whether it takes a command, and its own inputs. */
  datatype TileEnv = TileEnv(deliver: bool, input: DCU.Input)

  /** One cycle: whether a dispatch is accepted, whether a completion is taken, and the tiles. */
  datatype NetEnv = NetEnv(grant: bool, child: bool, here: TileEnv, there: TileEnv)

  /** One leaf, on the tile here; shadow registers anywhere. */
  predicate TargetsOk(c: LC.Ccu, here: Tile, there: Tile) {
    && 1 <= c.numTargets <= |c.targets| && LC.Need(c) == 1
    && c.targets[Pos(c)].tile == here.id && there.id != here.id
    && forall t :: 0 <= t < c.numTargets ==> TargetOk(c.targets[t], t == Pos(c), here, there)
  }

  predicate TargetOk(t: LC.Target, leaf: bool, here: Tile, there: Tile) {
    && !t.remote && (t.shadowOnly <==> !leaf)
    && (t.tile == here.id ==> t.addr < |here.slots|) && (t.tile == there.id ==> t.addr < |there.slots|)
  }

  /** The target index counts only during a round. */
  predicate IndexOk(w: LC.Widths, c: LC.Ccu) {
    && LC.CcuOk(w, c) && c.numTargets < w.idx
    && if c.state.Dispatching? then c.dispatchIdx < c.numTargets else c.dispatchIdx == 0
  }

  predicate NetOk(w: LC.Widths, n: Net) {
    && IndexOk(w, n.ccu) && TargetsOk(n.ccu, n.here, n.there)
    && DCU.SlotsOk(w.value, n.here.slots) && DCU.SlotsOk(w.value, n.there.slots)
  }

  /** The tiles' own inputs: no configuration of the leaf, no clear. */
  predicate NetEnvOk(w: LC.Widths, c: LC.Ccu, e: NetEnv)
    requires 1 <= c.numTargets <= |c.targets|
  {
    && DCU.NoConfig(w.value, e.here.input, Leaf(c)) && e.here.input.cmd != DCU.ResetLeaf(Leaf(c))
    && DCU.InputOk(w.value, e.there.input) && !e.there.input.clear && !e.there.input.cmd.Rearm?
  }

  // ---- one cycle ----

  function NetEvent(n: Net, e: NetEnv): LC.Event {
    if e.grant && n.ccu.state.Dispatching? then LC.Grant
    else if e.child && n.ccu.state.Running? && n.up > 0 then LC.Child
    else LC.Nothing
  }

  predicate Takes(t: Tile, e: TileEnv) {
    e.deliver && t.down != []
  }

  function InputOf(t: Tile, e: TileEnv): DCU.Input {
    if Takes(t, e) then e.input.(cmd := AsCmd(t.down[0])) else e.input
  }

  /** What the controller sends to a tile. */
  function SentTo(c: LC.Ccu, ev: LC.Event, id: nat): seq<LC.Msg>
    requires c.dispatchIdx < |c.targets|
  {
    if ev.Grant? && c.targets[c.dispatchIdx].tile == id then [LC.MsgFor(c, c.dispatchIdx)] else []
  }

  function NextTile(w: LC.Widths, t: Tile, e: TileEnv, sent: seq<LC.Msg>): (t': Tile)
    requires DCU.SlotsOk(w.value, t.slots) && DCU.InputOk(w.value, e.input)
    ensures t'.id == t.id && |t'.slots| == |t.slots| && DCU.SlotsOk(w.value, t'.slots)
  {
    Tile(t.id, DCU.Next(w.value, t.slots, InputOf(t, e)), (if Takes(t, e) then t.down[1..] else t.down) + sent)
  }

  function NetUp(n: Net, e: NetEnv): nat
    requires 1 <= n.ccu.numTargets <= |n.ccu.targets| && Leaf(n.ccu) < |n.here.slots|
  {
    n.up + (if DCU.Reports(n.here.slots[Leaf(n.ccu)], InputOf(n.here, e.here), Leaf(n.ccu)) then 1 else 0)
      - (if NetEvent(n, e).Child? then 1 else 0)
  }

  function NetCycle(w: LC.Widths, n: Net, e: NetEnv): (n': Net)
    requires NetOk(w, n) && NetEnvOk(w, n.ccu, e)
    ensures NetOk(w, n') && SameNet(n, n')
  {
    var ev := NetEvent(n, e);
    Net(LC.NextCcu(w, n.ccu, ev),
        NextTile(w, n.here, e.here, SentTo(n.ccu, ev, n.here.id)),
        NextTile(w, n.there, e.there, SentTo(n.ccu, ev, n.there.id)),
        NetUp(n, e))
  }

  /** The configuration of the nest. */
  predicate SameNet(n: Net, n': Net) {
    && n'.ccu.targets == n.ccu.targets && n'.ccu.numTargets == n.ccu.numTargets
    && n'.here.id == n.here.id && n'.there.id == n.there.id
    && |n'.here.slots| == |n.here.slots| && |n'.there.slots| == |n.there.slots|
  }

  // ---- what the leaf's tile sees of it ----

  /** Those of the first n targets that stand on tile h. */
  function On(ts: seq<LC.Target>, h: nat, n: nat): (r: seq<LC.Target>)
    requires n <= |ts|
    ensures |r| <= n
  {
    if n == 0 then [] else On(ts, h, n - 1) + if ts[n - 1].tile == h then [ts[n - 1]] else []
  }

  lemma {:induction false} OnAt(ts: seq<LC.Target>, h: nat, n: nat, q: nat)
    requires q < n <= |ts|
    ensures On(ts, h, q) <= On(ts, h, n)
    ensures ts[q].tile == h ==> |On(ts, h, q)| < |On(ts, h, n)| && On(ts, h, n)[|On(ts, h, q)|] == ts[q]
  {
    if q < n - 1 {
      OnAt(ts, h, n - 1, q);
    }
  }

  /** Where the i-th of them stands. */
  function Where(ts: seq<LC.Target>, h: nat, n: nat, i: nat): (q: nat)
    requires n <= |ts| && i < |On(ts, h, n)|
    ensures q < n && ts[q].tile == h && |On(ts, h, q)| == i && On(ts, h, n)[i] == ts[q]
  {
    if i < |On(ts, h, n - 1)| then Where(ts, h, n - 1, i) else n - 1
  }

  /** The CCU with the targets of tile h only. */
  function Own(c: LC.Ccu, h: nat): LC.Ccu
    requires c.numTargets <= |c.targets|
  {
    var own := On(c.targets, h, c.numTargets);
    c.(targets := own + c.targets[|own|..], numTargets := |own|)
  }

  /** Its state: a round is over for tile h once all its own messages are sent. */
  function OwnState(c: LC.Ccu, h: nat): LC.Ccu
    requires c.numTargets <= |c.targets| && (c.state.Dispatching? ==> c.dispatchIdx < c.numTargets)
  {
    if !c.state.Dispatching? then Own(c, h)
    else
      var i := |On(c.targets, h, c.dispatchIdx)|;
      if i < Own(c, h).numTargets then Own(c, h).(dispatchIdx := i)
      else Own(c, h).(state := LC.Running, received := 0, dispatchIdx := 0)
  }

  function View(n: Net): Sys
    requires n.ccu.numTargets <= |n.ccu.targets| && (n.ccu.state.Dispatching? ==> n.ccu.dispatchIdx < n.ccu.numTargets)
  {
    Sys(OwnState(n.ccu, n.here.id), n.here.slots, n.here.down, n.up)
  }

  /** The cycle as the leaf's tile sees it. */
  function ViewEnv(n: Net, e: NetEnv): Env
    requires n.ccu.state.Dispatching? ==> n.ccu.dispatchIdx < |n.ccu.targets|
  {
    Env(e.grant && n.ccu.state.Dispatching? && n.ccu.targets[n.ccu.dispatchIdx].tile == n.here.id,
        e.child && n.ccu.state.Running?, e.here.deliver, e.here.input)
  }

  lemma {:induction false} LeafIndexIs(ts: seq<LC.Target>, n: nat, q: nat)
    requires q < n <= |ts| && forall t :: 0 <= t < n ==> (ts[t].shadowOnly <==> t != q)
    ensures LeafIndex(ts, n) == q
  {
    if q < n - 1 {
      LeafIndexIs(ts, n - 1, q);
    }
  }

  /** The leaf is the one leaf among the targets of its tile. */
  lemma OwnLeaf(c: LC.Ccu, here: Tile, there: Tile)
    requires TargetsOk(c, here, there)
    ensures var o := Own(c, here.id);
            1 <= o.numTargets <= |o.targets| == |c.targets| && NestTargets(o, |here.slots|)
    ensures Pos(Own(c, here.id)) == |On(c.targets, here.id, Pos(c))| && Leaf(Own(c, here.id)) == Leaf(c)
  {
    var o, q := Own(c, here.id), |On(c.targets, here.id, Pos(c))|;
    OnAt(c.targets, here.id, c.numTargets, Pos(c));
    forall i | 0 <= i < o.numTargets
      ensures !o.targets[i].remote && o.targets[i].addr < |here.slots| && (o.targets[i].shadowOnly <==> i != q)
    {
      var t := Where(c.targets, here.id, c.numTargets, i);
      assert TargetOk(c.targets[t], t == Pos(c), here, there);
    }
    LeafIndexIs(o.targets, o.numTargets, q);
  }

  /** What an event of the controller is to tile h. */
  function OwnEvent(c: LC.Ccu, ev: LC.Event, h: nat): LC.Event
    requires ev.Grant? ==> c.dispatchIdx < |c.targets|
  {
    if ev.Grant? && c.targets[c.dispatchIdx].tile != h then LC.Nothing else ev
  }

  lemma OwnOk(w: LC.Widths, c: LC.Ccu, h: nat)
    requires IndexOk(w, c)
    ensures LC.CcuOk(w, OwnState(c, h))
  {
  }

  lemma OwnGrant(w: LC.Widths, c: LC.Ccu, h: nat)
    requires IndexOk(w, c) && c.state.Dispatching?
    ensures LC.CcuOk(w, OwnState(c, h)) && IndexOk(w, LC.Dispatched(w, c))
    ensures OwnState(LC.Dispatched(w, c), h)
      == if c.targets[c.dispatchIdx].tile == h then LC.Dispatched(w, OwnState(c, h)) else OwnState(c, h)
    ensures c.targets[c.dispatchIdx].tile == h ==> OwnState(c, h).state.Dispatching?
  {
    OwnOk(w, c, h);
    OnAt(c.targets, h, c.numTargets, c.dispatchIdx);
    if c.dispatchIdx + 1 < c.numTargets {
      OnAt(c.targets, h, c.numTargets, c.dispatchIdx + 1);
    }
  }

  lemma OwnMsg(c: LC.Ccu, h: nat)
    requires c.numTargets <= |c.targets| && c.state.Dispatching? && c.dispatchIdx < c.numTargets
    requires c.targets[c.dispatchIdx].tile == h
    ensures OwnState(c, h).dispatchIdx < |OwnState(c, h).targets|
    ensures LC.MsgFor(OwnState(c, h), OwnState(c, h).dispatchIdx) == LC.MsgFor(c, c.dispatchIdx)
  {
    OnAt(c.targets, h, c.numTargets, c.dispatchIdx);
  }

  lemma OwnChild(w: LC.Widths, c: LC.Ccu, h: nat)
    requires IndexOk(w, c) && c.state.Running? && Own(c, h).numTargets > 0
    ensures LC.CcuOk(w, OwnState(c, h)) && IndexOk(w, LC.Completed(w, c))
    ensures OwnState(LC.Completed(w, c), h) == LC.Completed(w, OwnState(c, h))
  {
  }

  lemma OwnNext(w: LC.Widths, c: LC.Ccu, ev: LC.Event, h: nat)
    requires IndexOk(w, c) && LC.EventOk(c, ev) && Own(c, h).numTargets > 0
    ensures LC.CcuOk(w, OwnState(c, h)) && IndexOk(w, LC.NextCcu(w, c, ev))
    ensures OwnState(LC.NextCcu(w, c, ev), h) == LC.NextCcu(w, OwnState(c, h), OwnEvent(c, ev, h))
  {
    OwnOk(w, c, h);
    match ev {
      case Nothing =>
      case Grant => OwnGrant(w, c, h);
      case Child => OwnChild(w, c, h);
    }
  }

  lemma ViewEvents(n: Net, e: NetEnv)
    requires n.ccu.numTargets <= |n.ccu.targets| && (n.ccu.state.Dispatching? ==> n.ccu.dispatchIdx < n.ccu.numTargets)
    ensures LC.EventOk(n.ccu, NetEvent(n, e))
    ensures EventOf(View(n), ViewEnv(n, e)) == OwnEvent(n.ccu, NetEvent(n, e), n.here.id)
    ensures Taken(View(n), ViewEnv(n, e)) == Takes(n.here, e.here)
    ensures TileInput(View(n), ViewEnv(n, e)) == InputOf(n.here, e.here)
  {
    if n.ccu.state.Dispatching? && n.ccu.targets[n.ccu.dispatchIdx].tile == n.here.id {
      OnAt(n.ccu.targets, n.here.id, n.ccu.numTargets, n.ccu.dispatchIdx);
    }
  }

  lemma ViewOk(w: LC.Widths, n: Net)
    requires NetOk(w, n)
    ensures SysOk(w, View(n)) && Leaf(View(n).ccu) == Leaf(n.ccu) && View(n).ccu.numTargets > 0
  {
    OwnLeaf(n.ccu, n.here, n.there);
    OwnOk(w, n.ccu, n.here.id);
    assert NestTargets(View(n).ccu, |n.here.slots|) by {
      SameNest(Own(n.ccu, n.here.id), View(n).ccu, |n.here.slots|);
    }
  }

  /** The shape of a nest does not depend on the registers that change. */
  lemma SameNest(c: LC.Ccu, t: LC.Ccu, addrs: nat)
    requires NestTargets(c, addrs) && t.targets == c.targets && t.numTargets == c.numTargets
    requires t.childCount == c.childCount
    ensures NestTargets(t, addrs) && Leaf(t) == Leaf(c)
  {
  }

  /** Each cycle is, to the leaf's tile, a cycle of the nest over its own targets. */
  lemma ViewStep(w: LC.Widths, n: Net, e: NetEnv)
    requires NetOk(w, n) && NetEnvOk(w, n.ccu, e)
    ensures SysOk(w, View(n)) && EnvOk(w, View(n).ccu, ViewEnv(n, e))
    ensures View(NetCycle(w, n, e)) == Cycle(w, View(n), ViewEnv(n, e))
  {
    var ev, n' := NetEvent(n, e), NetCycle(w, n, e);
    ViewOk(w, n);
    ViewEvents(n, e);
    OwnNext(w, n.ccu, ev, n.here.id);
    assert n'.here.down == Down(View(n), ViewEnv(n, e)) by {
      if ev.Grant? && n.ccu.targets[n.ccu.dispatchIdx].tile == n.here.id {
        OwnMsg(n.ccu, n.here.id);
      }
    }
    assert n'.up == Up(View(n), ViewEnv(n, e));
  }

  // ---- runs ----

  ghost predicate NetEnvsOk(w: LC.Widths, c: LC.Ccu, es: seq<NetEnv>)
    requires 1 <= c.numTargets <= |c.targets|
  {
    forall t :: 0 <= t < |es| ==> NetEnvOk(w, c, es[t])
  }

  ghost function NetRun(w: LC.Widths, n: Net, es: seq<NetEnv>): (n': Net)
    requires NetOk(w, n) && NetEnvsOk(w, n.ccu, es)
    ensures NetOk(w, n') && SameNet(n, n')
  {
    if es == [] then n else NetCycle(w, NetRun(w, n, es[..|es| - 1]), es[|es| - 1])
  }

  /** The leaf's tile goes from phase p on. */
  ghost function NetNext(w: LC.Widths, o: LC.Ccu, n: Net, e: NetEnv, p: Phase): Phase
    requires NetOk(w, n) && 1 <= o.numTargets <= |o.targets|
  {
    ViewOk(w, n);
    NextPhase(o, View(n), ViewEnv(n, e), p)
  }

  /** The CCU as the leaf's tile knows it. */
  ghost function Seen(w: LC.Widths, n: Net): (o: LC.Ccu)
    requires NetOk(w, n)
    ensures 1 <= o.numTargets <= |o.targets| == |n.ccu.targets| && NestTargets(o, |n.here.slots|)
    ensures Leaf(o) == Leaf(n.ccu)
  {
    OwnLeaf(n.ccu, n.here, n.there);
    Own(n.ccu, n.here.id)
  }

  /** Where the run is. */
  ghost function NetPhase(w: LC.Widths, n: Net, es: seq<NetEnv>): Phase
    requires NetOk(w, n) && NetEnvsOk(w, n.ccu, es)
  {
    if es == [] then Start(Seen(w, n))
    else NetNext(w, Seen(w, n), NetRun(w, n, es[..|es| - 1]), es[|es| - 1], NetPhase(w, n, es[..|es| - 1]))
  }

  /** A nest about to start: the CCU launched, the leaf at its lower bound, nothing in flight. */
  predicate FreshNet(w: LC.Widths, n: Net) {
    && NetOk(w, n) && LC.Launched(w, n.ccu) && n.here.down == n.there.down == [] && n.up == 0
    && var leaf := n.here.slots[Leaf(n.ccu)];
       DCU.Counts(w.value, leaf) && leaf.value == leaf.lower && !leaf.done
  }

  /** o is the CCU at the launch, as the leaf's tile knows it. */
  predicate NetReady(w: LC.Widths, o: LC.Ccu, leaf: DCU.Slot, n: Net, p: Phase) {
    NetOk(w, n) && Ready(w, o, leaf, View(n), p) && (n.ccu.state.Dispatching? ==> p.k > 0)
  }

  lemma FreshNetIsReady(w: LC.Widths, n: Net)
    requires FreshNet(w, n)
    ensures NetReady(w, Seen(w, n), n.here.slots[Leaf(n.ccu)], n, Start(Seen(w, n)))
  {
    ViewOk(w, n);
    FreshIsReady(w, View(n));
  }

  /** Every cycle keeps the leaf's tile in step with the loop. */
  lemma NetStep(w: LC.Widths, o: LC.Ccu, leaf: DCU.Slot, n: Net, e: NetEnv, p: Phase)
    requires NetReady(w, o, leaf, n, p) && NetEnvOk(w, n.ccu, e)
    ensures NetReady(w, o, leaf, NetCycle(w, n, e), NetNext(w, o, n, e, p))
  {
    assert Ready(w, o, leaf, View(NetCycle(w, n, e)), NetNext(w, o, n, e, p)) by {
      ViewStep(w, n, e);
      PhaseStep(w, o, leaf, View(n), ViewEnv(n, e), p);
    }
    assert NetCycle(w, n, e).ccu.state.Dispatching? ==> NetNext(w, o, n, e, p).k > 0 by {
      RoundsFollow(w, o, n, e, p);
    }
  }

  /** No round precedes iteration 1. */
  lemma RoundsFollow(w: LC.Widths, o: LC.Ccu, n: Net, e: NetEnv, p: Phase)
    requires NetOk(w, n) && NetEnvOk(w, n.ccu, e) && 1 <= o.numTargets <= |o.targets|
    requires n.ccu.state.Dispatching? ==> p.k > 0
    ensures NetCycle(w, n, e).ccu.state.Dispatching? ==> NetNext(w, o, n, e, p).k > 0
  {
    ViewOk(w, n);
    ViewEvents(n, e);
  }

  lemma {:induction false} NetInPhase(w: LC.Widths, n: Net, es: seq<NetEnv>)
    requires FreshNet(w, n) && NetEnvsOk(w, n.ccu, es)
    ensures NetReady(w, Seen(w, n), n.here.slots[Leaf(n.ccu)], NetRun(w, n, es), NetPhase(w, n, es))
  {
    if es == [] {
      FreshNetIsReady(w, n);
    } else {
      var m := |es| - 1;
      NetInPhase(w, n, es[..m]);
      assert NetEnvOk(w, n.ccu, es[m]);
      NetStep(w, Seen(w, n), n.here.slots[Leaf(n.ccu)], NetRun(w, n, es[..m]), es[m], NetPhase(w, n, es[..m]));
    }
  }

  // ---- the leaf's values ----

  /** A predicate-1 value of the leaf. */
  function NetValue(n: Net, e: NetEnv): seq<nat>
    requires 1 <= n.ccu.numTargets <= |n.ccu.targets| && Leaf(n.ccu) < |n.here.slots|
  {
    var a := Leaf(n.ccu);
    if DCU.Emits(n.here.slots[a], InputOf(n.here, e.here), a) then [n.here.slots[a].value] else []
  }

  ghost function NetValues(w: LC.Widths, n: Net, es: seq<NetEnv>): seq<nat>
    requires NetOk(w, n) && NetEnvsOk(w, n.ccu, es)
  {
    if es == [] then []
    else NetValues(w, n, es[..|es| - 1]) + NetValue(NetRun(w, n, es[..|es| - 1]), es[|es| - 1])
  }

  lemma NetValueStep(w: LC.Widths, o: LC.Ccu, leaf: DCU.Slot, n: Net, e: NetEnv, p: Phase)
    requires NetReady(w, o, leaf, n, p)
    ensures Counted(leaf, NetNext(w, o, n, e, p)) == Counted(leaf, p) + NetValue(n, e)
  {
    ViewOk(w, n);
    ViewEvents(n, e);
    ValueStep(w, o, leaf, View(n), ViewEnv(n, e), p);
  }

  lemma {:induction false} NetCounted(w: LC.Widths, n: Net, es: seq<NetEnv>)
    requires FreshNet(w, n) && NetEnvsOk(w, n.ccu, es)
    ensures NetValues(w, n, es) == Counted(n.here.slots[Leaf(n.ccu)], NetPhase(w, n, es))
  {
    if es != [] {
      var m := |es| - 1;
      NetCounted(w, n, es[..m]);
      NetInPhase(w, n, es[..m]);
      NetValueStep(w, Seen(w, n), n.here.slots[Leaf(n.ccu)], NetRun(w, n, es[..m]), es[m], NetPhase(w, n, es[..m]));
    }
  }

  lemma OwnTrips(w: LC.Widths, n: Net)
    requires NetOk(w, n) && n.ccu.step > 0
    ensures LC.Trips(Seen(w, n)) == LC.Trips(n.ccu)
  {
  }

  /** Where the leaf and the controller stand in their ranges. */
  lemma NetBound(w: LC.Widths, n: Net, es: seq<NetEnv>)
    requires FreshNet(w, n) && NetEnvsOk(w, n.ccu, es)
    ensures Bounded(n.ccu, n.here.slots[Leaf(n.ccu)], NetPhase(w, n, es))
    ensures NetPhase(w, n, es).stage.Finished? <==> NetRun(w, n, es).ccu.state.Complete?
  {
    NetInPhase(w, n, es);
    PhaseBound(w, Seen(w, n), n.here.slots[Leaf(n.ccu)], View(NetRun(w, n, es)), NetPhase(w, n, es));
    OwnTrips(w, n);
  }

  /** At every moment, under any timing, wherever the leaf stands among the targets and
      wherever the others stand, the leaf's values are a prefix of its range repeated once per
      iteration; when the controller is done, they are all of it. */
  lemma InnerStream(w: LC.Widths, n: Net, es: seq<NetEnv>)
    requires FreshNet(w, n) && NetEnvsOk(w, n.ccu, es)
    ensures NetValues(w, n, es) <= Copies(n.here.slots[Leaf(n.ccu)], LC.Trips(n.ccu))
    ensures NetRun(w, n, es).ccu.state.Complete? ==>
              NetValues(w, n, es) == Copies(n.here.slots[Leaf(n.ccu)], LC.Trips(n.ccu))
  {
    NetCounted(w, n, es);
    NetBound(w, n, es);
    CountedIsPrefix(n.ccu, n.here.slots[Leaf(n.ccu)], NetPhase(w, n, es));
  }

  // ---- progress ----

  /** Everyone is willing: the leaf is executed with room for its output and its message,
      its commands and completions are taken, dispatches accepted. */
  predicate NetWilling(c: LC.Ccu, e: NetEnv)
    requires 1 <= c.numTargets <= |c.targets|
  {
    && e.grant && e.child && e.here.deliver
    && DCU.Counting(e.here.input, Leaf(c)) && e.here.input.outRdy && e.here.input.msgRdy
  }

  /** Messages a round sends to other tiles, and those of them the present round has sent. */
  function Elsewhere(c: LC.Ccu, h: nat): nat
    requires c.numTargets <= |c.targets|
  {
    c.numTargets - |On(c.targets, h, c.numTargets)|
  }

  function SentElsewhere(c: LC.Ccu, h: nat): nat
    requires c.numTargets <= |c.targets| && (c.state.Dispatching? ==> c.dispatchIdx < c.numTargets)
  {
    if c.state.Dispatching? then c.dispatchIdx - |On(c.targets, h, c.dispatchIdx)| else Elsewhere(c, h)
  }

  /** The work left on the leaf's tile, and the messages left to send to others. */
  function NetWork(o: LC.Ccu, leaf: DCU.Slot, p: Phase, elsewhere: int, sent: int): int
    requires leaf.step > 0 && o.step > 0
  {
    if p.stage.Finished? then 0 else WorkLeft(o, leaf, p) + (LC.Trips(o) - p.k) * elsewhere - sent
  }

  function WorkOf(o: LC.Ccu, leaf: DCU.Slot, p: Phase, n: Net): int
    requires leaf.step > 0 && o.step > 0
    requires n.ccu.numTargets <= |n.ccu.targets| && (n.ccu.state.Dispatching? ==> n.ccu.dispatchIdx < n.ccu.numTargets)
  {
    NetWork(o, leaf, p, Elsewhere(n.ccu, n.here.id), SentElsewhere(n.ccu, n.here.id))
  }

  lemma IndexStep(w: LC.Widths, c: LC.Ccu, ev: LC.Event)
    requires IndexOk(w, c) && LC.EventOk(c, ev) && c.numTargets > 0
    ensures IndexOk(w, LC.NextCcu(w, c, ev))
  {
    match ev {
      case Nothing =>
      case Grant =>
      case Child =>
    }
  }

  /** What sending does to the account. */
  lemma ElsewhereStep(w: LC.Widths, c: LC.Ccu, ev: LC.Event, h: nat)
    requires IndexOk(w, c) && LC.EventOk(c, ev) && c.numTargets > 0
    ensures IndexOk(w, LC.NextCcu(w, c, ev)) && Elsewhere(LC.NextCcu(w, c, ev), h) == Elsewhere(c, h)
    ensures SentElsewhere(LC.NextCcu(w, c, ev), h) ==
      if ev.Grant? && c.targets[c.dispatchIdx].tile != h then SentElsewhere(c, h) + 1
      else if ev.Child? && LC.NextCcu(w, c, ev).state.Dispatching? then 0
      else SentElsewhere(c, h)
    ensures ev.Child? ==> SentElsewhere(c, h) == Elsewhere(c, h)
  {
    IndexStep(w, c, ev);
    if ev.Grant? && c.dispatchIdx + 1 < c.numTargets {
      OnAt(c.targets, h, c.numTargets, c.dispatchIdx + 1);
    }
  }

  /** With f messages a round for others, s of them sent. */
  lemma Balance(o: LC.Ccu, leaf: DCU.Slot, p: Phase, q: Phase, f: int, s: int, s': int, child: bool, far: bool)
    requires leaf.step > 0 && o.step > 0 && !p.stage.Finished? && !q.stage.Finished?
    requires q.k == if child then p.k + 1 else p.k
    requires s' == if far then s + 1 else if child then 0 else s
    requires child ==> s == f && !far
    ensures NetWork(o, leaf, q, f, s') - NetWork(o, leaf, p, f, s)
      == WorkLeft(o, leaf, q) - WorkLeft(o, leaf, p) - if far then 1 else 0
  {
    assert (LC.Trips(o) - (p.k + 1)) * f == (LC.Trips(o) - p.k) * f - f;
  }

  /** What the phase does when a completion is counted. */
  lemma ChildTurns(w: LC.Widths, o: LC.Ccu, leaf: DCU.Slot, n: Net, e: NetEnv, p: Phase)
    requires NetReady(w, o, leaf, n, p) && NetEnvOk(w, n.ccu, e)
    ensures var q, c' := NetNext(w, o, n, e, p), NetCycle(w, n, e).ccu;
            if NetEvent(n, e).Child? then q.k == p.k + 1 && (q.stage.Finished? || c'.state.Dispatching?)
            else q.k == p.k && (q.stage.Finished? <==> p.stage.Finished?)
  {
    var v := ActsOf(View(n), ViewEnv(n, e));
    assert v.child == NetEvent(n, e).Child? && Possible(o, p, v) by {
      ViewOk(w, n);
      ViewEvents(n, e);
      IsPossible(w, o, leaf, View(n), ViewEnv(n, e), p);
    }
    AfterChild(o, p, v);
    assert v.child && !After(o, p, v).stage.Finished? ==> NetCycle(w, n, e).ccu.state.Dispatching? by {
      NetStep(w, o, leaf, n, e, p);
      RoundStarts(w, o, leaf, NetCycle(w, n, e), After(o, p, v));
    }
  }

  /** With nothing sent yet, a round is under way. */
  lemma RoundStarts(w: LC.Widths, o: LC.Ccu, leaf: DCU.Slot, n: Net, p: Phase)
    requires NetReady(w, o, leaf, n, p)
    ensures p.m == 0 && !p.stage.Finished? ==> n.ccu.state.Dispatching?
  {
  }

  lemma AfterChild(o: LC.Ccu, p: Phase, v: Acts)
    requires 1 <= o.numTargets <= |o.targets| && Possible(o, p, v)
    ensures var q := After(o, p, v);
            if v.child then q.k == p.k + 1 && q.m == 0 else q.k == p.k && (q.stage.Finished? <==> p.stage.Finished?)
  {
  }

  /** Across a cycle the account changes by what happened on the leaf's tile and by what was
      sent to others. */
  lemma NetWorkStep(w: LC.Widths, o: LC.Ccu, leaf: DCU.Slot, n: Net, e: NetEnv, p: Phase)
    requires NetReady(w, o, leaf, n, p) && NetEnvOk(w, n.ccu, e) && !p.stage.Finished?
    ensures var q := NetNext(w, o, n, e, p);
            q.stage.Finished? ||
            WorkOf(o, leaf, q, NetCycle(w, n, e)) - WorkOf(o, leaf, p, n)
              == WorkLeft(o, leaf, q) - WorkLeft(o, leaf, p) - if FarGrant(n, e) then 1 else 0
  {
    var q, c', h := NetNext(w, o, n, e, p), NetCycle(w, n, e).ccu, n.here.id;
    if !q.stage.Finished? {
      var child, far := NetEvent(n, e).Child?, FarGrant(n, e);
      SentStep(w, o, leaf, n, e, p);
      Balance(o, leaf, p, q, Elsewhere(n.ccu, h), SentElsewhere(n.ccu, h), SentElsewhere(c', h), child, far);
    }
  }

  lemma SentStep(w: LC.Widths, o: LC.Ccu, leaf: DCU.Slot, n: Net, e: NetEnv, p: Phase)
    requires NetReady(w, o, leaf, n, p) && NetEnvOk(w, n.ccu, e)
    ensures var q, c', h, child := NetNext(w, o, n, e, p), NetCycle(w, n, e).ccu, n.here.id, NetEvent(n, e).Child?;
            && q.k == (if child then p.k + 1 else p.k) && Elsewhere(c', h) == Elsewhere(n.ccu, h)
            && (child ==> SentElsewhere(n.ccu, h) == Elsewhere(n.ccu, h))
            && (q.stage.Finished? || SentElsewhere(c', h) ==
                  if FarGrant(n, e) then SentElsewhere(n.ccu, h) + 1 else if child then 0 else SentElsewhere(n.ccu, h))
  {
    ChildTurns(w, o, leaf, n, e, p);
    ElsewhereStep(w, n.ccu, NetEvent(n, e), n.here.id);
  }

  /** A message is sent to another tile. */
  predicate FarGrant(n: Net, e: NetEnv)
    requires n.ccu.dispatchIdx < |n.ccu.targets|
  {
    NetEvent(n, e).Grant? && n.ccu.targets[n.ccu.dispatchIdx].tile != n.here.id
  }

  /** An unfinished nest has work left. */
  lemma NetWorkPositive(w: LC.Widths, o: LC.Ccu, leaf: DCU.Slot, n: Net, p: Phase)
    requires NetReady(w, o, leaf, n, p) && !p.stage.Finished?
    ensures WorkOf(o, leaf, p, n) > 0
  {
    PhaseBound(w, o, leaf, View(n), p);
    WorkPositive(o, leaf, p);
    if n.ccu.state.Dispatching? {
      OnRest(n.ccu.targets, n.here.id, n.ccu.dispatchIdx, n.ccu.numTargets);
    }
    Arith.MulMono(1, LC.Trips(o) - p.k, Elsewhere(n.ccu, n.here.id));
  }

  /** Of the targets from i on, at most n - i stand on one tile. */
  lemma {:induction false} OnRest(ts: seq<LC.Target>, h: nat, i: nat, n: nat)
    requires i <= n <= |ts|
    ensures i - |On(ts, h, i)| <= n - |On(ts, h, n)|
  {
    if i < n {
      OnRest(ts, h, i, n - 1);
    }
  }

  /** The work left never grows, is positive until the nest is finished, and drops in every
      cycle in which everyone is willing. */
  lemma NetWorkDrops(w: LC.Widths, o: LC.Ccu, leaf: DCU.Slot, n: Net, e: NetEnv, p: Phase)
    requires NetReady(w, o, leaf, n, p) && NetEnvOk(w, n.ccu, e) && !p.stage.Finished?
    ensures WorkOf(o, leaf, NetNext(w, o, n, e, p), NetCycle(w, n, e)) + (if NetWilling(n.ccu, e) then 1 else 0)
      <= WorkOf(o, leaf, p, n)
  {
    var q := NetNext(w, o, n, e, p);
    NetWorkPositive(w, o, leaf, n, p);
    if !q.stage.Finished? {
      NetWorkStep(w, o, leaf, n, e, p);
      ViewDrops(w, o, leaf, n, e, p);
    }
  }

  lemma ViewDrops(w: LC.Widths, o: LC.Ccu, leaf: DCU.Slot, n: Net, e: NetEnv, p: Phase)
    requires NetReady(w, o, leaf, n, p) && NetEnvOk(w, n.ccu, e) && !p.stage.Finished?
    ensures WorkLeft(o, leaf, NetNext(w, o, n, e, p)) + (if NetWilling(n.ccu, e) && !FarGrant(n, e) then 1 else 0)
      <= WorkLeft(o, leaf, p)
  {
    WorkDrops(w, o, leaf, View(n), ViewEnv(n, e), p);
    WillingSeen(w, n, e);
  }

  lemma WillingSeen(w: LC.Widths, n: Net, e: NetEnv)
    requires NetOk(w, n)
    ensures 1 <= View(n).ccu.numTargets <= |View(n).ccu.targets|
    ensures NetWilling(n.ccu, e) && !FarGrant(n, e) ==> Willing(View(n).ccu, View(n), ViewEnv(n, e))
  {
    ViewOk(w, n);
    ViewEvents(n, e);
  }

  /** Cycles in which everyone was willing. */
  function WillingCycles(c: LC.Ccu, es: seq<NetEnv>): nat
    requires 1 <= c.numTargets <= |c.targets|
  {
    if es == [] then 0 else WillingCycles(c, es[..|es| - 1]) + if NetWilling(c, es[|es| - 1]) then 1 else 0
  }

  /** What the whole nest takes: per iteration the values, the completion sent and counted,
      and each message of the leaf's tile sent and delivered; per round the messages to other
      tiles. */
  function WholeWork(c: LC.Ccu, h: nat, leaf: DCU.Slot): nat
    requires leaf.step > 0 && c.step > 0 && c.numTargets <= |c.targets|
  {
    LC.Trips(c) * PerIteration(Own(c, h), leaf) + (LC.Trips(c) - 1) * Elsewhere(c, h)
  }

  lemma WholeAtStart(w: LC.Widths, n: Net)
    requires FreshNet(w, n)
    ensures var leaf := n.here.slots[Leaf(n.ccu)];
            WorkOf(Seen(w, n), leaf, Start(Seen(w, n)), n) <= WholeWork(n.ccu, n.here.id, leaf)
  {
    var f, trips := Elsewhere(n.ccu, n.here.id), LC.Trips(n.ccu);
    OwnTrips(w, n);
    assert (trips - 1) * f == trips * f - f;
  }

  lemma {:induction false} WorkInRun(w: LC.Widths, n: Net, es: seq<NetEnv>)
    requires FreshNet(w, n) && NetEnvsOk(w, n.ccu, es)
    ensures var o, leaf, p, now := Seen(w, n), n.here.slots[Leaf(n.ccu)], NetPhase(w, n, es), NetRun(w, n, es);
            p.stage.Finished? ||
            WorkOf(o, leaf, p, now) + WillingCycles(n.ccu, es) <= WholeWork(n.ccu, n.here.id, leaf)
  {
    var o, leaf := Seen(w, n), n.here.slots[Leaf(n.ccu)];
    if es == [] {
      WholeAtStart(w, n);
    } else {
      var m := |es| - 1;
      WorkInRun(w, n, es[..m]);
      NetInPhase(w, n, es[..m]);
      assert NetEnvOk(w, n.ccu, es[m]);
      if !NetPhase(w, n, es).stage.Finished? {
        ChildTurns(w, o, leaf, NetRun(w, n, es[..m]), es[m], NetPhase(w, n, es[..m]));
        NetWorkDrops(w, o, leaf, NetRun(w, n, es[..m]), es[m], NetPhase(w, n, es[..m]));
      }
    }
  }

  /** The nest cannot get stuck: it is done after a known number of willing cycles, whatever
      happens in between. */
  lemma NestFinishes(w: LC.Widths, n: Net, es: seq<NetEnv>)
    requires FreshNet(w, n) && NetEnvsOk(w, n.ccu, es)
    requires WillingCycles(n.ccu, es) >= WholeWork(n.ccu, n.here.id, n.here.slots[Leaf(n.ccu)])
    ensures NetRun(w, n, es).ccu.state.Complete?
    ensures NetValues(w, n, es) == Copies(n.here.slots[Leaf(n.ccu)], LC.Trips(n.ccu))
  {
    assert NetPhase(w, n, es).stage.Finished? by {
      WorkInRun(w, n, es);
      NetInPhase(w, n, es);
      if !NetPhase(w, n, es).stage.Finished? {
        NetWorkPositive(w, Seen(w, n), n.here.slots[Leaf(n.ccu)], NetRun(w, n, es), NetPhase(w, n, es));
      }
    }
    NetBound(w, n, es);
    InnerStream(w, n, es);
  }
}
