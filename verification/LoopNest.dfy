/** The hardware loop nest on one tile: a CCU of the loop controller drives one leaf counter
    over two reliable channels, commands one way and completions the other.  The leaf may
    stand anywhere in the CCU's target list, or be all of it; the other targets are shadow
    registers of the same tile.

    `PhaseStep` says where such a nest can be and how every cycle moves it on, `HoldsStep`
    what a shadow register holds meanwhile, and `WorkDrops` that it gets on.  NestTiles turns
    this into theorems about runs of nests whose targets are spread over tiles. */
module LoopNest {
  import Arith
  import LC = LoopController
  import DCU = LoopCounter

  /** Commands in flight to the tile, and completions in flight to the controller. */
  datatype Sys = Sys(ccu: LC.Ccu, slots: seq<DCU.Slot>, down: seq<LC.Msg>, up: nat)

  /** One cycle: whether the controller's dispatch is accepted, whether it takes a
      completion, whether the tile takes a command, and the tile's own inputs. */
  datatype Env = Env(grant: bool, child: bool, deliver: bool, tile: DCU.Input)

  /** The position of the last leaf among the first n targets. */
  function LeafIndex(ts: seq<LC.Target>, n: nat): (p: nat)
    requires n <= |ts|
    ensures p < n || p == n == 0
  {
    if n == 0 then 0 else if !ts[n - 1].shadowOnly || n == 1 then n - 1 else LeafIndex(ts, n - 1)
  }

  /** The CCU waits for one leaf; all its other targets are shadow registers. */
  predicate NestTargets(c: LC.Ccu, addrs: nat) {
    && 1 <= c.numTargets <= |c.targets| && LC.Need(c) == 1
    && (forall t :: 0 <= t < c.numTargets ==> !c.targets[t].remote && c.targets[t].addr < addrs)
    && (forall t :: 0 <= t < c.numTargets ==> (c.targets[t].shadowOnly <==> t != LeafIndex(c.targets, c.numTargets)))
  }

  function Pos(c: LC.Ccu): (p: nat)
    requires 1 <= c.numTargets <= |c.targets|
    ensures p < c.numTargets
  {
    LeafIndex(c.targets, c.numTargets)
  }

  /** The leaf's control address. */
  function Leaf(c: LC.Ccu): nat
    requires 1 <= c.numTargets <= |c.targets|
  {
    c.targets[Pos(c)].addr
  }

  /** One of the first d targets is shadow register b. */
  predicate Fed(c: LC.Ccu, b: nat, d: nat)
    requires d <= |c.targets|
  {
    exists t :: 0 <= t < d && c.targets[t].shadowOnly && c.targets[t].addr == b
  }

  /** Register b is refreshed before the leaf is reset. */
  predicate FedFirst(c: LC.Ccu, b: nat)
    requires 1 <= c.numTargets <= |c.targets|
  {
    Fed(c, b, Pos(c))
  }

  function AsCmd(m: LC.Msg): DCU.Cmd {
    match m
    case Reset(a) => DCU.ResetLeaf(a)
    case Shadow(a, v) => DCU.UpdateShadow(a, v)
  }

  predicate SysOk(w: LC.Widths, s: Sys) {
    && LC.CcuOk(w, s.ccu) && NestTargets(s.ccu, |s.slots|) && DCU.SlotsOk(w.value, s.slots)
  }

  /** The tile's own inputs leave the leaf alone: other loops may be configured, reset and run
      on the same tile. */
  predicate EnvOk(w: LC.Widths, c: LC.Ccu, e: Env)
    requires 1 <= c.numTargets <= |c.targets|
  {
    DCU.NoConfig(w.value, e.tile, Leaf(c)) && e.tile.cmd != DCU.ResetLeaf(Leaf(c))
  }

  /** They leave register b alone, too. */
  predicate Spares(e: Env, b: nat) {
    e.tile.cmd.UpdateShadow? ==> e.tile.cmd.addr != b
  }

  function EventOf(s: Sys, e: Env): LC.Event {
    if e.grant && s.ccu.state.Dispatching? then LC.Grant
    else if e.child && s.ccu.state.Running? && s.up > 0 then LC.Child
    else LC.Nothing
  }

  predicate Taken(s: Sys, e: Env) {
    e.deliver && s.down != []
  }

  function TileInput(s: Sys, e: Env): DCU.Input {
    if Taken(s, e) then e.tile.(cmd := AsCmd(s.down[0])) else e.tile
  }

  /** The command channel after the cycle. */
  function Down(s: Sys, e: Env): seq<LC.Msg>
    requires s.ccu.dispatchIdx < |s.ccu.targets|
  {
    (if Taken(s, e) then s.down[1..] else s.down)
      + (if EventOf(s, e).Grant? then [LC.MsgFor(s.ccu, s.ccu.dispatchIdx)] else [])
  }

  function Up(s: Sys, e: Env): nat
    requires 1 <= s.ccu.numTargets <= |s.ccu.targets| && Leaf(s.ccu) < |s.slots|
  {
    s.up + (if DCU.Reports(s.slots[Leaf(s.ccu)], TileInput(s, e), Leaf(s.ccu)) then 1 else 0)
      - (if EventOf(s, e).Child? then 1 else 0)
  }

  function Cycle(w: LC.Widths, s: Sys, e: Env): (s': Sys)
    requires SysOk(w, s) && EnvOk(w, s.ccu, e)
    ensures SysOk(w, s') && SameShape(s, s')
  {
    Sys(LC.NextCcu(w, s.ccu, EventOf(s, e)), DCU.Next(w.value, s.slots, TileInput(s, e)), Down(s, e), Up(s, e))
  }

  /** The configuration of the nest. */
  predicate SameShape(s: Sys, s': Sys) {
    s'.ccu.targets == s.ccu.targets && s'.ccu.numTargets == s.ccu.numTargets && |s'.slots| == |s.slots|
  }

  /** A predicate-1 value of the leaf. */
  function Value(s: Sys, e: Env): seq<nat>
    requires 1 <= s.ccu.numTargets <= |s.ccu.targets| && Leaf(s.ccu) < |s.slots|
  {
    var a := Leaf(s.ccu);
    if DCU.Emits(s.slots[a], TileInput(s, e), a) then [s.slots[a].value] else []
  }

  // ---- what should come out ----

  /** The leaf's whole range, k times over. */
  function Copies(leaf: DCU.Slot, k: nat): seq<nat>
    requires leaf.step > 0
  {
    if k == 0 then [] else Copies(leaf, k - 1) + DCU.Range(leaf, DCU.Trips(leaf))
  }

  // ---- where a run can be ----

  /** What the leaf is doing: delivering, having delivered j values; spent, its completion on
      the way; spent and waiting for its reset; spent for good. */
  datatype Stage = Counting(j: nat) | Reported | Waiting | Finished

  /** The controller is at its k-th value.  Of the messages of round k, m have been sent and
      d delivered; of those of the round before, e have been delivered. */
  datatype Phase = Phase(k: nat, e: nat, m: nat, d: nat, stage: Stage)

  /** Iteration 0 needs no round. */
  function Start(c: LC.Ccu): Phase {
    Phase(0, c.numTargets, c.numTargets, c.numTargets, Counting(0))
  }

  /** The previous round reached the leaf before the controller could go on, and messages
      arrive in order; the leaf counts in round k once its own message has arrived. */
  predicate Shape(c: LC.Ccu, p: Phase)
    requires 1 <= c.numTargets <= |c.targets|
  {
    && Pos(c) < p.e <= c.numTargets && p.d <= p.m <= c.numTargets && (p.d > 0 ==> p.e == c.numTargets)
    && (p.k == 0 ==> p.d == c.numTargets) && (p.k == 1 ==> p.e == c.numTargets)
    && match p.stage
       case Counting(_) => p.d > Pos(c) && LC.HasIteration(c, p.k)
       case Reported => p.d > Pos(c) && LC.HasIteration(c, p.k)
       case Waiting => p.d <= Pos(c) && LC.HasIteration(c, p.k)
       case Finished => p.m == 0 && LC.HasIteration(c, p.k - 1) && LC.ValueAt(c, p.k) >= c.upper
  }

  /** The controller's registers. */
  function Controller(c: LC.Ccu, p: Phase, received: nat): LC.Ccu {
    if p.stage.Finished? then c.(value := LC.ValueAt(c, p.k), state := LC.Complete, received := received)
    else if p.m < c.numTargets
    then c.(value := LC.ValueAt(c, p.k), state := LC.Dispatching, received := received, dispatchIdx := p.m)
    else c.(value := LC.ValueAt(c, p.k))
  }

  /** What is left of the round before. */
  function Tail(c: LC.Ccu, k: nat, e: nat): seq<LC.Msg>
    requires e <= c.numTargets <= |c.targets|
  {
    if k == 0 then [] else LC.Round(c, k - 1, c.numTargets)[e..]
  }

  /** What is in flight to the tile. */
  function Channel(c: LC.Ccu, k: nat, e: nat, m: nat, d: nat): seq<LC.Msg>
    requires e <= c.numTargets <= |c.targets| && d <= m <= c.numTargets
  {
    Tail(c, k, e) + LC.Round(c, k, m)[d..]
  }

  predicate ChannelIn(c: LC.Ccu, p: Phase, down: seq<LC.Msg>)
    requires p.e <= c.numTargets <= |c.targets| && p.d <= p.m <= c.numTargets
  {
    down == Channel(c, p.k, p.e, p.m, p.d)
  }

  /** The leaf has run out and said so. */
  predicate Spent(leaf: DCU.Slot, s: DCU.Slot) {
    s.done && s == leaf.(value := s.value, done := true, shadow := s.shadow, shadowValid := s.shadowValid)
      && DCU.Terminated(s)
  }

  predicate Active(leaf: DCU.Slot, s: DCU.Slot, j: nat) {
    && !s.done && DCU.Inside(leaf, j)
    && s == leaf.(value := DCU.ValueAt(leaf, j), done := false, shadow := s.shadow, shadowValid := s.shadowValid)
  }

  predicate LeafIn(leaf: DCU.Slot, s: DCU.Slot, up: nat, g: Stage) {
    && up == (if g.Reported? then 1 else 0)
    && if g.Counting? then Active(leaf, s, g.j) else Spent(leaf, s)
  }

  predicate In(c: LC.Ccu, leaf: DCU.Slot, s: Sys, p: Phase)
    requires NestTargets(c, |s.slots|)
  {
    && Shape(c, p) && s.ccu == Controller(c, p, s.ccu.received)
    && ChannelIn(c, p, s.down) && LeafIn(leaf, s.slots[Leaf(c)], s.up, p.stage)
  }

  /** The values that have come out by then. */
  function Counted(leaf: DCU.Slot, p: Phase): seq<nat>
    requires leaf.step > 0
  {
    match p.stage
    case Counting(j) => Copies(leaf, p.k) + DCU.Range(leaf, j)
    case Reported => Copies(leaf, p.k + 1)
    case _ => Copies(leaf, p.k)
  }

  /** What happened in a cycle: a dispatch, a completion counted, a command delivered, a
      value out of the leaf, its completion sent. */
  datatype Acts = Acts(grant: bool, child: bool, take: bool, emit: bool, report: bool)

  function ActsOf(s: Sys, e: Env): Acts
    requires 1 <= s.ccu.numTargets <= |s.ccu.targets| && Leaf(s.ccu) < |s.slots|
  {
    var a := Leaf(s.ccu);
    Acts(EventOf(s, e).Grant?, EventOf(s, e).Child?, Taken(s, e),
         DCU.Emits(s.slots[a], TileInput(s, e), a), DCU.Reports(s.slots[a], TileInput(s, e), a))
  }

  /** What can happen in a phase. */
  predicate Possible(c: LC.Ccu, p: Phase, v: Acts) {
    && (v.grant ==> p.m < c.numTargets && !p.stage.Finished? && !v.child)
    && (v.child ==> p.stage.Reported? && p.m == c.numTargets)
    && (v.take ==> p.k > 0 && (p.e < c.numTargets || p.d < p.m))
    && (v.emit || v.report ==> p.stage.Counting?)
  }

  /** The phase after it. */
  function After(c: LC.Ccu, p: Phase, v: Acts): Phase
    requires 1 <= c.numTargets <= |c.targets|
  {
    var m' := if v.grant then p.m + 1 else p.m;
    var e' := if v.take && p.e < c.numTargets then p.e + 1 else p.e;
    var d' := if v.take && p.e == c.numTargets then p.d + 1 else p.d;
    if v.child then Phase(p.k + 1, d', 0, 0, if LC.ValueAt(c, p.k + 1) >= c.upper then Finished else Waiting)
    else if v.emit && p.stage.Counting? then Phase(p.k, e', m', d', Counting(p.stage.j + 1))
    else if v.report then Phase(p.k, e', m', d', Reported)
    else if p.stage.Waiting? && d' > Pos(c) then Phase(p.k, e', m', d', Counting(0))
    else Phase(p.k, e', m', d', p.stage)
  }

  function NextPhase(c: LC.Ccu, s: Sys, e: Env, p: Phase): Phase
    requires 1 <= c.numTargets <= |c.targets|
    requires 1 <= s.ccu.numTargets <= |s.ccu.targets| && Leaf(s.ccu) < |s.slots|
  {
    After(c, p, ActsOf(s, e))
  }

  predicate Ready(w: LC.Widths, c: LC.Ccu, leaf: DCU.Slot, s: Sys, p: Phase) {
    && SysOk(w, s) && LC.Launched(w, c) && NestTargets(c, |s.slots|) && s.ccu.numTargets == c.numTargets
    && s.ccu.targets == c.targets && DCU.Counts(w.value, leaf) && In(c, leaf, s, p)
  }

  // ---- one cycle ----

  /** The oldest message in flight. */
  function NextMsg(c: LC.Ccu, p: Phase): LC.Msg
    requires p.k > 0 && p.e <= c.numTargets <= |c.targets| && (p.e < c.numTargets || p.d < c.numTargets)
  {
    if p.e < c.numTargets then LC.MsgFor(c.(value := LC.ValueAt(c, p.k - 1)), p.e)
    else LC.MsgFor(c.(value := LC.ValueAt(c, p.k)), p.d)
  }

  lemma ChannelHead(c: LC.Ccu, p: Phase)
    requires 1 <= c.numTargets <= |c.targets| && Shape(c, p) && Channel(c, p.k, p.e, p.m, p.d) != []
    ensures p.k > 0 && (p.e < c.numTargets || p.d < p.m) && Channel(c, p.k, p.e, p.m, p.d)[0] == NextMsg(c, p)
  {
    if p.e == c.numTargets {
      assert Tail(c, p.k, p.e) == [];
      LC.RoundAt(c, p.k, p.m);
    } else {
      LC.RoundAt(c, p.k - 1, c.numTargets);
    }
  }

  /** The controller's next message, and the next one to reach the tile. */
  lemma Head(w: LC.Widths, c: LC.Ccu, leaf: DCU.Slot, s: Sys, e: Env, p: Phase)
    requires Ready(w, c, leaf, s, p)
    ensures EventOf(s, e).Grant? ==>
              && p.m < c.numTargets && !p.stage.Finished?
              && LC.MsgFor(s.ccu, s.ccu.dispatchIdx) == LC.MsgFor(c.(value := LC.ValueAt(c, p.k)), p.m)
    ensures EventOf(s, e).Child? ==> p.stage.Reported? && p.m == c.numTargets
    ensures Taken(s, e) ==> p.k > 0 && (p.e < c.numTargets || p.d < p.m) && s.down[0] == NextMsg(c, p)
  {
    if Taken(s, e) {
      ChannelHead(c, p);
    }
  }

  /** The leaf's reset is the next message exactly when the leaf waits and all before it has
      been delivered. */
  lemma NextMsgIs(c: LC.Ccu, p: Phase, addrs: nat)
    requires NestTargets(c, addrs) && Shape(c, p) && p.k > 0 && (p.e < c.numTargets || p.d < p.m)
    ensures NextMsg(c, p) == LC.Reset(Leaf(c)) <==> p.stage.Waiting? && p.e == c.numTargets && p.d == Pos(c)
    ensures NextMsg(c, p).Reset? ==> NextMsg(c, p) == LC.Reset(Leaf(c))
  {
  }

  lemma IsPossible(w: LC.Widths, c: LC.Ccu, leaf: DCU.Slot, s: Sys, e: Env, p: Phase)
    requires Ready(w, c, leaf, s, p)
    ensures Possible(c, p, ActsOf(s, e))
  {
    Head(w, c, leaf, s, e, p);
  }

  /** A message joins the channel. */
  lemma ChannelGrant(c: LC.Ccu, k: nat, e: nat, m: nat, d: nat)
    requires e <= c.numTargets <= |c.targets| && d <= m < c.numTargets
    ensures Channel(c, k, e, m + 1, d) == Channel(c, k, e, m, d) + [LC.MsgFor(c.(value := LC.ValueAt(c, k)), m)]
  {
    var sent, msg := LC.Round(c, k, m), LC.MsgFor(c.(value := LC.ValueAt(c, k)), m);
    assert LC.Round(c, k, m + 1) == sent + [msg];
    assert (sent + [msg])[d..] == sent[d..] + [msg];
  }

  /** The oldest message leaves it. */
  lemma ChannelTake(c: LC.Ccu, k: nat, e: nat, m: nat, d: nat)
    requires e <= c.numTargets <= |c.targets| && d <= m <= c.numTargets && Channel(c, k, e, m, d) != []
    ensures k > 0 && e < c.numTargets ==> Channel(c, k, e + 1, m, d) == Channel(c, k, e, m, d)[1..]
    ensures e == c.numTargets ==> d < m && Channel(c, k, e, m, d + 1) == Channel(c, k, e, m, d)[1..]
  {
    if e == c.numTargets {
      assert Tail(c, k, e) == [];
    } else if k > 0 {
      assert Tail(c, k, e)[1..] == Tail(c, k, e + 1);
    }
  }

  /** Take the oldest message if asked to, and add one if asked to. */
  function Flow(now: seq<LC.Msg>, take: bool, grant: bool, msg: LC.Msg): seq<LC.Msg>
    requires take ==> now != []
  {
    (if take then now[1..] else now) + (if grant then [msg] else [])
  }

  /** Within a round. */
  lemma ChannelMoves(c: LC.Ccu, p: Phase, q: Phase, take: bool, grant: bool)
    requires p.e <= c.numTargets <= |c.targets| && p.d <= p.m <= c.numTargets && (grant ==> p.m < c.numTargets)
    requires take ==> Channel(c, p.k, p.e, p.m, p.d) != [] && (p.k > 0 || p.e == c.numTargets)
    requires q.k == p.k && q.m == (if grant then p.m + 1 else p.m)
    requires q.e == if take && p.e < c.numTargets then p.e + 1 else p.e
    requires q.d == if take && p.e == c.numTargets then p.d + 1 else p.d
    ensures q.d <= q.m && ChannelIn(c, q, Flow(Channel(c, p.k, p.e, p.m, p.d), take, grant, Message(c, p.k, p.m)))
  {
    if take {
      ChannelTake(c, p.k, p.e, p.m, p.d);
    }
    if grant {
      ChannelGrant(c, p.k, q.e, p.m, q.d);
    }
  }

  /** Message number m of round k, if there is one. */
  function Message(c: LC.Ccu, k: nat, m: nat): LC.Msg
  {
    if m < |c.targets| then LC.MsgFor(c.(value := LC.ValueAt(c, k)), m) else LC.Reset(0)
  }

  /** The next round starts behind the present one. */
  lemma ChannelTurns(c: LC.Ccu, p: Phase, q: Phase)
    requires p.e == p.m == c.numTargets <= |c.targets| && p.d <= p.m
    requires q.k == p.k + 1 && q.e == p.d && q.m == q.d == 0
    ensures Channel(c, p.k, p.e, p.m, p.d) == Channel(c, q.k, q.e, q.m, q.d)
  {
    assert Tail(c, p.k, c.numTargets) == [];
  }

  lemma ShapeStep(c: LC.Ccu, p: Phase, v: Acts)
    requires 1 <= c.numTargets <= |c.targets| && Shape(c, p) && Possible(c, p, v)
    ensures Shape(c, After(c, p, v))
  {
  }

  /** The channel follows the phase. */
  lemma ChannelStep(c: LC.Ccu, p: Phase, v: Acts)
    requires 1 <= c.numTargets <= |c.targets| && Shape(c, p) && Possible(c, p, v) && Shape(c, After(c, p, v))
    requires v.take ==> Channel(c, p.k, p.e, p.m, p.d) != []
    ensures ChannelIn(c, After(c, p, v), Flow(Channel(c, p.k, p.e, p.m, p.d), v.take, v.grant, Message(c, p.k, p.m)))
  {
    if v.child {
      var q := Phase(p.k, p.e, p.m, if v.take then p.d + 1 else p.d, p.stage);
      ChannelMoves(c, p, q, v.take, v.grant);
      ChannelTurns(c, q, After(c, p, v));
    } else {
      ChannelMoves(c, p, After(c, p, v), v.take, v.grant);
    }
  }

  lemma ControllerStep(w: LC.Widths, c: LC.Ccu, t: LC.Ccu, p: Phase, v: Acts)
    requires LC.Launched(w, c) && LC.CcuOk(w, t) && LC.Need(c) == 1
    requires Shape(c, p) && Possible(c, p, v) && t == Controller(c, p, t.received)
    ensures var t' := LC.NextCcu(w, t, if v.grant then LC.Grant else if v.child then LC.Child else LC.Nothing);
            t' == Controller(c, After(c, p, v), t'.received)
  {
    if v.child {
      ControllerCounts(w, c, t, p.k);
    } else if v.grant {
      ControllerSends(w, c, t, p);
    }
  }

  lemma ControllerSends(w: LC.Widths, c: LC.Ccu, t: LC.Ccu, p: Phase)
    requires LC.Launched(w, c) && t == Controller(c, p, t.received) && LC.CcuOk(w, t) && p.m < c.numTargets
    requires !p.stage.Finished?
    ensures LC.Dispatched(w, t) == Controller(c, p.(m := p.m + 1), LC.Dispatched(w, t).received)
  {
  }

  /** The leaf's completion ends the iteration. */
  lemma ControllerCounts(w: LC.Widths, c: LC.Ccu, t: LC.Ccu, k: nat)
    requires LC.Launched(w, c) && LC.HasIteration(c, k) && LC.Need(c) == 1 && t == c.(value := LC.ValueAt(c, k))
    requires LC.CcuOk(w, t)
    ensures var v, t' := LC.ValueAt(c, k + 1), LC.Completed(w, t);
            t' == if v >= c.upper then c.(value := v, state := LC.Complete, received := t'.received)
                  else c.(value := v, state := LC.Dispatching, received := t'.received, dispatchIdx := 0)
  {
    assert LC.ValueAt(c, k + 1) == LC.ValueAt(c, k) + c.step;
  }

  /** A spent leaf stays spent until it is reset, and reports nothing more. */
  lemma SpentKeeps(w: LC.Widths, leaf: DCU.Slot, s: DCU.Slot, i: DCU.Input, a: nat)
    requires DCU.SlotOk(w.value, s) && Spent(leaf, s) && DCU.NoConfig(w.value, i, a)
    ensures if i.cmd == DCU.ResetLeaf(a) then Active(leaf, DCU.NextSlot(w.value, s, i, a), 0)
            else Spent(leaf, DCU.NextSlot(w.value, s, i, a))
    ensures !DCU.Reports(s, i, a) && !DCU.Emits(s, i, a)
  {
  }

  lemma ActiveStep(w: LC.Widths, leaf: DCU.Slot, s: DCU.Slot, i: DCU.Input, a: nat, j: nat)
    requires DCU.SlotOk(w.value, s) && DCU.Counts(w.value, leaf) && Active(leaf, s, j)
    requires DCU.NoConfig(w.value, i, a) && i.cmd != DCU.ResetLeaf(a)
    ensures var s' := DCU.NextSlot(w.value, s, i, a);
            if DCU.Emits(s, i, a) then Active(leaf, s', j + 1)
            else if DCU.Reports(s, i, a) then Spent(leaf, s')
            else Active(leaf, s', j)
  {
    if DCU.Emits(s, i, a) {
      DCU.InsideBelow(leaf, j);
      assert DCU.ValueAt(leaf, j + 1) == DCU.ValueAt(leaf, j) + leaf.step;
    }
  }

  /** The leaf follows the phase: i is the tile's input, addressed to the leaf at a. */
  lemma LeafStep(w: LC.Widths, c: LC.Ccu, leaf: DCU.Slot, s: DCU.Slot, up: nat, i: DCU.Input, a: nat, p: Phase, v: Acts)
    requires DCU.SlotOk(w.value, s) && DCU.Counts(w.value, leaf) && LeafIn(leaf, s, up, p.stage)
    requires 1 <= c.numTargets <= |c.targets| && Shape(c, p) && Possible(c, p, v)
    requires v.emit == DCU.Emits(s, i, a) && v.report == DCU.Reports(s, i, a) && DCU.NoConfig(w.value, i, a)
    requires i.cmd == DCU.ResetLeaf(a) <==> v.take && p.stage.Waiting? && p.e == c.numTargets && p.d == Pos(c)
    ensures LeafIn(leaf, DCU.NextSlot(w.value, s, i, a), up + (if v.report then 1 else 0) - (if v.child then 1 else 0),
                   After(c, p, v).stage)
  {
    if p.stage.Counting? {
      ActiveStep(w, leaf, s, i, a, p.stage.j);
    } else {
      SpentKeeps(w, leaf, s, i, a);
    }
  }

  lemma LeafInStep(w: LC.Widths, c: LC.Ccu, leaf: DCU.Slot, s: Sys, e: Env, p: Phase)
    requires Ready(w, c, leaf, s, p) && EnvOk(w, c, e)
    ensures LeafIn(leaf, DCU.NextSlot(w.value, s.slots[Leaf(c)], TileInput(s, e), Leaf(c)), Up(s, e),
                   NextPhase(c, s, e, p).stage)
  {
    Head(w, c, leaf, s, e, p);
    if Taken(s, e) {
      NextMsgIs(c, p, |s.slots|);
    }
    LeafStep(w, c, leaf, s.slots[Leaf(c)], s.up, TileInput(s, e), Leaf(c), p, ActsOf(s, e));
  }

  lemma DownStep(w: LC.Widths, c: LC.Ccu, leaf: DCU.Slot, s: Sys, e: Env, p: Phase)
    requires Ready(w, c, leaf, s, p)
    ensures Shape(c, NextPhase(c, s, e, p)) && ChannelIn(c, NextPhase(c, s, e, p), Down(s, e))
  {
    Head(w, c, leaf, s, e, p);
    ShapeStep(c, p, ActsOf(s, e));
    ChannelStep(c, p, ActsOf(s, e));
  }

  /** Every cycle keeps the controller, the channels and the leaf in step. */
  lemma PhaseStep(w: LC.Widths, c: LC.Ccu, leaf: DCU.Slot, s: Sys, e: Env, p: Phase)
    requires Ready(w, c, leaf, s, p) && EnvOk(w, c, e)
    ensures Ready(w, c, leaf, Cycle(w, s, e), NextPhase(c, s, e, p))
  {
    IsPossible(w, c, leaf, s, e, p);
    DownStep(w, c, leaf, s, e, p);
    ControllerStep(w, c, s.ccu, p, ActsOf(s, e));
    LeafInStep(w, c, leaf, s, e, p);
    LeafSlot(w, s, e);
  }

  lemma LeafSlot(w: LC.Widths, s: Sys, e: Env)
    requires SysOk(w, s) && EnvOk(w, s.ccu, e)
    ensures Cycle(w, s, e).slots[Leaf(s.ccu)]
      == DCU.NextSlot(w.value, s.slots[Leaf(s.ccu)], TileInput(s, e), Leaf(s.ccu))
  {
  }

  // ---- what comes out ----

  /** Register b holds the controller's value: from the start in iteration 0, and in a round
      once its message has been delivered; in round 1 it holds the first value until then. */
  predicate Holds(c: LC.Ccu, s: DCU.Slot, b: nat, p: Phase)
    requires p.d <= |c.targets|
  {
    && (p.k == 0 || Fed(c, b, p.d) ==> s.shadow == LC.ValueAt(c, p.k))
    && (p.k == 1 && !Fed(c, b, p.d) ==> s.shadow == c.lower)
  }

  /** Only the next message can change register b. */
  lemma ShadowStep(w: LC.Widths, c: LC.Ccu, leaf: DCU.Slot, s: Sys, e: Env, p: Phase, b: nat)
    requires Ready(w, c, leaf, s, p) && EnvOk(w, c, e) && Spares(e, b) && b < |s.slots|
    ensures Taken(s, e) ==> p.k > 0 && (p.e < c.numTargets || p.d < p.m)
    ensures Cycle(w, s, e).slots[b].shadow ==
      if Taken(s, e) && NextMsg(c, p).Shadow? && NextMsg(c, p).addr == b then NextMsg(c, p).value else s.slots[b].shadow
  {
    Head(w, c, leaf, s, e, p);
    assert Cycle(w, s, e).slots[b] == DCU.NextSlot(w.value, s.slots[b], TileInput(s, e), b);
  }

  lemma HoldsStep(w: LC.Widths, c: LC.Ccu, leaf: DCU.Slot, s: Sys, e: Env, p: Phase, b: nat)
    requires Ready(w, c, leaf, s, p) && EnvOk(w, c, e) && Spares(e, b) && b < |s.slots| && Holds(c, s.slots[b], b, p)
    ensures NextPhase(c, s, e, p).d <= |c.targets| && Holds(c, Cycle(w, s, e).slots[b], b, NextPhase(c, s, e, p))
  {
    IsPossible(w, c, leaf, s, e, p);
    ShapeStep(c, p, ActsOf(s, e));
    ShadowStep(w, c, leaf, s, e, p, b);
    HoldsAfter(c, p, ActsOf(s, e), s.slots[b], Cycle(w, s, e).slots[b], b);
  }

  lemma HoldsAfter(c: LC.Ccu, p: Phase, v: Acts, s: DCU.Slot, s': DCU.Slot, b: nat)
    requires 1 <= c.numTargets <= |c.targets| && Shape(c, p) && Possible(c, p, v) && Shape(c, After(c, p, v))
    requires s'.shadow
      == if v.take && NextMsg(c, p).Shadow? && NextMsg(c, p).addr == b then NextMsg(c, p).value else s.shadow
    requires Holds(c, s, b, p)
    ensures Holds(c, s', b, After(c, p, v))
  {
    if !v.child {
      assert v.take && p.e == c.numTargets && Fed(c, b, p.d + 1) ==>
        Fed(c, b, p.d) || (c.targets[p.d].shadowOnly && c.targets[p.d].addr == b);
    }
  }

  /** One cycle's value is the one the loop says comes next. */
  lemma ValueStep(w: LC.Widths, c: LC.Ccu, leaf: DCU.Slot, s: Sys, e: Env, p: Phase)
    requires Ready(w, c, leaf, s, p)
    ensures Counted(leaf, NextPhase(c, s, e, p)) == Counted(leaf, p) + Value(s, e)
    ensures ActsOf(s, e).emit ==> Value(s, e) == [DCU.ValueAt(leaf, p.stage.j)]
    ensures ActsOf(s, e).report ==> p.stage == Counting(DCU.Trips(leaf)) && !ActsOf(s, e).emit
  {
    IsPossible(w, c, leaf, s, e, p);
    var v := ActsOf(s, e);
    if v.report {
      DCU.TripsIsLast(leaf, p.stage.j);
    }
    CountedStep(c, leaf, p, v);
  }

  lemma CountedStep(c: LC.Ccu, leaf: DCU.Slot, p: Phase, v: Acts)
    requires 1 <= c.numTargets <= |c.targets| && leaf.step > 0 && Possible(c, p, v)
    requires v.report ==> !v.emit && p.stage == Counting(DCU.Trips(leaf))
    ensures Counted(leaf, After(c, p, v)) == Counted(leaf, p) + if v.emit then [DCU.ValueAt(leaf, p.stage.j)] else []
  {
  }

  // ---- the start ----

  /** A nest about to start: the CCU launched, the leaf at its lower bound, nothing in flight. */
  predicate Fresh(w: LC.Widths, s: Sys) {
    && SysOk(w, s) && LC.Launched(w, s.ccu)
    && var leaf := s.slots[Leaf(s.ccu)];
       DCU.Counts(w.value, leaf) && leaf.value == leaf.lower && !leaf.done && s.down == [] && s.up == 0
  }

  lemma FreshIsReady(w: LC.Widths, s: Sys)
    requires Fresh(w, s)
    ensures Ready(w, s.ccu, s.slots[Leaf(s.ccu)], s, Start(s.ccu))
  {
  }

  // ---- bounds ----

  lemma {:induction false} RangeIsPrefix(leaf: DCU.Slot, j: nat, n: nat)
    requires j <= n
    ensures DCU.Range(leaf, j) <= DCU.Range(leaf, n)
  {
    if j < n {
      RangeIsPrefix(leaf, j, n - 1);
    }
  }

  lemma {:induction false} CopiesIsPrefix(leaf: DCU.Slot, k: nat, n: nat)
    requires leaf.step > 0 && k <= n
    ensures Copies(leaf, k) <= Copies(leaf, n)
  {
    if k < n {
      CopiesIsPrefix(leaf, k, n - 1);
    }
  }

  lemma InsideBound(leaf: DCU.Slot, j: nat)
    requires leaf.step > 0 && DCU.Inside(leaf, j)
    ensures j <= DCU.Trips(leaf)
  {
    if j > 0 {
      DCU.InsideExactly(leaf, j - 1);
    }
  }

  /** Which iteration a phase can be in. */
  predicate Bounded(c: LC.Ccu, leaf: DCU.Slot, p: Phase)
    requires c.step > 0 && leaf.step > 0
  {
    && (if p.stage.Finished? then p.k == LC.Trips(c) else p.k < LC.Trips(c))
    && (p.stage.Counting? ==> p.stage.j <= DCU.Trips(leaf))
  }

  lemma ShapeBound(c: LC.Ccu, leaf: DCU.Slot, p: Phase)
    requires 1 <= c.numTargets <= |c.targets| && Shape(c, p) && c.step > 0 && leaf.step > 0
    requires p.stage.Counting? ==> DCU.Inside(leaf, p.stage.j)
    ensures Bounded(c, leaf, p)
  {
    if p.stage.Finished? {
      LC.TripsIsLast(c, p.k);
    } else {
      LC.IterationExactly(c, p.k);
    }
    if p.stage.Counting? {
      InsideBound(leaf, p.stage.j);
    }
  }

  lemma PhaseBound(w: LC.Widths, c: LC.Ccu, leaf: DCU.Slot, s: Sys, p: Phase)
    requires Ready(w, c, leaf, s, p)
    ensures Bounded(c, leaf, p) && (p.stage.Finished? <==> s.ccu.state.Complete?)
  {
    ShapeBound(c, leaf, p);
  }

  lemma CountedIsPrefix(c: LC.Ccu, leaf: DCU.Slot, p: Phase)
    requires c.step > 0 && leaf.step > 0 && Bounded(c, leaf, p)
    ensures Counted(leaf, p) <= Copies(leaf, LC.Trips(c))
  {
    var k := if p.stage.Waiting? || p.stage.Finished? then p.k else p.k + 1;
    CopiesIsPrefix(leaf, k, LC.Trips(c));
    if p.stage.Counting? {
      RangeIsPrefix(leaf, p.stage.j, DCU.Trips(leaf));
    }
  }

  // ---- progress ----

  /** Everyone is willing: the leaf is executed with room for its output and its message,
      completions and commands are taken, dispatches accepted. */
  predicate Willing(c: LC.Ccu, s: Sys, e: Env)
    requires 1 <= c.numTargets <= |c.targets|
  {
    && (s.ccu.state.Dispatching? ==> e.grant) && (s.ccu.state.Running? ==> e.child)
    && e.deliver && DCU.Counting(e.tile, Leaf(c)) && e.tile.outRdy && e.tile.msgRdy
  }

  /** What one outer iteration takes: the values, the completion sent and counted, and each
      message dispatched and delivered. */
  function PerIteration(c: LC.Ccu, leaf: DCU.Slot): nat
    requires leaf.step > 0
  {
    DCU.Trips(leaf) + 2 + 2 * c.numTargets
  }

  function WorkLeft(c: LC.Ccu, leaf: DCU.Slot, p: Phase): int
    requires leaf.step > 0 && c.step > 0
  {
    var left := (LC.Trips(c) - p.k) * PerIteration(c, leaf) + 2 * c.numTargets - p.m - p.d;
    match p.stage
    case Counting(j) => left - j
    case Reported => left - DCU.Trips(leaf) - 1
    case Waiting => left + c.numTargets - p.e
    case Finished => 0
  }

  lemma WorkPositive(c: LC.Ccu, leaf: DCU.Slot, p: Phase)
    requires 1 <= c.numTargets <= |c.targets| && leaf.step > 0 && c.step > 0 && Shape(c, p) && Bounded(c, leaf, p)
    ensures if p.stage.Finished? then WorkLeft(c, leaf, p) == 0 else WorkLeft(c, leaf, p) > 0
  {
    if !p.stage.Finished? {
      Arith.MulMono(1, LC.Trips(c) - p.k, PerIteration(c, leaf));
    }
  }

  /** Whatever happens is progress. */
  lemma WorkStep(c: LC.Ccu, leaf: DCU.Slot, p: Phase, v: Acts)
    requires 1 <= c.numTargets <= |c.targets| && leaf.step > 0 && c.step > 0 && Shape(c, p) && Possible(c, p, v)
    requires v.report ==> !v.emit && p.stage == Counting(DCU.Trips(leaf))
    requires Bounded(c, leaf, p)
    ensures WorkLeft(c, leaf, After(c, p, v)) <= WorkLeft(c, leaf, p)
    ensures !p.stage.Finished? && (v.grant || v.child || v.take || v.emit || v.report) ==>
              WorkLeft(c, leaf, After(c, p, v)) < WorkLeft(c, leaf, p)
  {
    var per, left := PerIteration(c, leaf), LC.Trips(c) - p.k;
    if !p.stage.Finished? {
      Arith.MulMono(1, left, per);
    }
    assert left * per == (left - 1) * per + per;
  }

  lemma WillingActs(w: LC.Widths, c: LC.Ccu, leaf: DCU.Slot, s: Sys, e: Env, p: Phase)
    requires Ready(w, c, leaf, s, p) && Willing(c, s, e) && !p.stage.Finished?
    ensures var v := ActsOf(s, e); v.grant || v.child || v.take || v.emit || v.report
  {
    if p.stage.Waiting? && p.m == c.numTargets {
      ChannelSize(c, p);
    }
  }

  lemma ChannelSize(c: LC.Ccu, p: Phase)
    requires 1 <= c.numTargets <= |c.targets| && Shape(c, p) && p.k > 0
    ensures |Channel(c, p.k, p.e, p.m, p.d)| == c.numTargets - p.e + p.m - p.d
  {
  }

  /** The work left never grows, is positive until the nest is finished, and drops in every
      cycle in which everyone is willing. */
  lemma WorkDrops(w: LC.Widths, c: LC.Ccu, leaf: DCU.Slot, s: Sys, e: Env, p: Phase)
    requires Ready(w, c, leaf, s, p)
    ensures WorkLeft(c, leaf, NextPhase(c, s, e, p)) <= WorkLeft(c, leaf, p)
    ensures Willing(c, s, e) && !p.stage.Finished? ==> WorkLeft(c, leaf, NextPhase(c, s, e, p)) < WorkLeft(c, leaf, p)
    ensures if p.stage.Finished? then WorkLeft(c, leaf, p) == 0 else WorkLeft(c, leaf, p) > 0
  {
    IsPossible(w, c, leaf, s, e, p);
    ValueStep(w, c, leaf, s, e, p);
    PhaseBound(w, c, leaf, s, p);
    if Willing(c, s, e) && !p.stage.Finished? {
      WillingActs(w, c, leaf, s, e, p);
    }
    WorkPositive(c, leaf, p);
    WorkStep(c, leaf, p, ActsOf(s, e));
  }

}
