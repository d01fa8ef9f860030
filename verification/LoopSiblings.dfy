/** Sibling leaves under one CCU: several leaf counters, each with a command channel of its
    own, send their completions to one counter of the controller, which counts them without
    telling them apart.

    `SiblingStreams`: when the configured child count is the number of leaves, then under any
    timing every leaf's predicate-1 values are its own range, once per iteration; and no leaf
    is ever an iteration ahead of another (`Barrier`). */
module LoopSiblings {
  import Arith
  import LC = LoopController
  import DCU = LoopCounter
  import opened LoopNest

  /** The controller; per target a leaf and the resets in flight to it; and the completions in
      flight to the controller.  A target that is a shadow register has no leaf. */
  datatype Group = Group(ccu: LC.Ccu, slots: seq<DCU.Slot>, resets: seq<nat>, up: nat)

  /** One cycle of a leaf: whether its tile takes a command, and the tile's own inputs. */
  datatype LeafEnv = LeafEnv(deliver: bool, input: DCU.Input)

  /** One cycle: whether a dispatch is accepted, whether a completion is taken, the leaves. */
  datatype GroupEnv = GroupEnv(grant: bool, child: bool, leaves: seq<LeafEnv>)

  predicate IsLeaf(c: LC.Ccu, t: nat) {
    t < |c.targets| && !c.targets[t].shadowOnly
  }

  /** The leaves among the first n targets. */
  function Leaves(c: LC.Ccu, n: nat): (r: nat)
    ensures r <= n
  {
    if n == 0 then 0 else Leaves(c, n - 1) + if IsLeaf(c, n - 1) then 1 else 0
  }

  predicate GroupOk(w: LC.Widths, g: Group) {
    && LC.CcuOk(w, g.ccu) && |g.slots| == |g.resets| == g.ccu.numTargets <= |g.ccu.targets|
    && DCU.SlotsOk(w.value, g.slots)
  }

  /** The tiles' own inputs leave the leaves alone. */
  predicate GroupEnvOk(w: LC.Widths, c: LC.Ccu, e: GroupEnv)
    requires c.numTargets <= |c.targets|
  {
    && |e.leaves| == c.numTargets
    && forall t :: 0 <= t < c.numTargets ==> LeafEnvOk(w, c.targets[t].addr, e.leaves[t])
  }

  predicate LeafEnvOk(w: LC.Widths, a: nat, e: LeafEnv) {
    DCU.NoConfig(w.value, e.input, a) && e.input.cmd != DCU.ResetLeaf(a)
  }

  // ---- one cycle ----

  function EventIn(g: Group, e: GroupEnv): LC.Event {
    if e.grant && g.ccu.state.Dispatching? then LC.Grant
    else if e.child && g.ccu.state.Running? && g.up > 0 then LC.Child
    else LC.Nothing
  }

  /** A reset arrives at a leaf. */
  predicate Arrives(resets: nat, e: LeafEnv) {
    e.deliver && resets > 0
  }

  function LeafInput(a: nat, resets: nat, e: LeafEnv): DCU.Input {
    if Arrives(resets, e) then e.input.(cmd := DCU.ResetLeaf(a)) else e.input
  }

  /** The completions sent by the first n leaves. */
  function Reports(c: LC.Ccu, slots: seq<DCU.Slot>, resets: seq<nat>, es: seq<LeafEnv>, n: nat): nat
    requires n <= |slots| == |resets| == |es| && n <= |c.targets|
  {
    if n == 0 then 0
    else
      var a := c.targets[n - 1].addr;
      Reports(c, slots, resets, es, n - 1)
        + if IsLeaf(c, n - 1) && DCU.Reports(slots[n - 1], LeafInput(a, resets[n - 1], es[n - 1]), a) then 1 else 0
  }

  function ResetsAfter(c: LC.Ccu, ev: LC.Event, resets: nat, e: LeafEnv, t: nat): nat {
    (if Arrives(resets, e) then resets - 1 else resets)
      + if ev.Grant? && c.dispatchIdx == t && IsLeaf(c, t) then 1 else 0
  }

  function GroupCycle(w: LC.Widths, g: Group, e: GroupEnv): (g': Group)
    requires GroupOk(w, g) && GroupEnvOk(w, g.ccu, e)
    ensures GroupOk(w, g') && g'.ccu.targets == g.ccu.targets && g'.ccu.numTargets == g.ccu.numTargets
  {
    var c, ev := g.ccu, EventIn(g, e);
    Group(LC.NextCcu(w, c, ev),
          seq(c.numTargets, t requires 0 <= t < c.numTargets =>
            DCU.NextSlot(w.value, g.slots[t], LeafInput(c.targets[t].addr, g.resets[t], e.leaves[t]),
                c.targets[t].addr)),
          seq(c.numTargets, t requires 0 <= t < c.numTargets => ResetsAfter(c, ev, g.resets[t], e.leaves[t], t)),
          g.up + Reports(c, g.slots, g.resets, e.leaves, c.numTargets) - if ev.Child? then 1 else 0)
  }

  // ---- where a run can be ----

  /** The controller's iteration, and what each leaf is doing. */
  datatype Place = Place(k: nat, stages: seq<Stage>)

  /** The leaf at target t has been sent its reset of iteration k. */
  predicate SentTo(c: LC.Ccu, k: nat, t: nat) {
    k == 0 || c.state.Running? || (c.state.Dispatching? && t < c.dispatchIdx)
  }

  /** A leaf waits while its reset is on the way, counts, and is done once it has reported. */
  predicate LeafAt(leaf: DCU.Slot, s: DCU.Slot, resets: nat, sent: bool, k: nat, stage: Stage) {
    match stage
    case Counting(j) => Active(leaf, s, j) && resets == 0 && sent
    case Reported => Spent(leaf, s) && resets == 0 && sent
    case Waiting => Spent(leaf, s) && resets == (if sent then 1 else 0) && k > 0
    case Finished => Spent(leaf, s) && resets == 0
  }

  /** Leaves among the first n targets that have reported in this iteration. */
  function Done(c: LC.Ccu, stages: seq<Stage>, n: nat): (r: nat)
    requires n <= |stages|
    ensures r <= Leaves(c, n)
  {
    if n == 0 then 0 else Done(c, stages, n - 1) + if IsLeaf(c, n - 1) && stages[n - 1].Reported? then 1 else 0
  }

  /** Every completion of this iteration is on the way or counted. */
  predicate Balance(c: LC.Ccu, up: nat, done: nat) {
    match c.state
    case Running => up + c.received == done
    case Dispatching => up == done
    case _ => up == 0
  }

  /** The controller of a CCU launched as c is in iteration k. */
  predicate CcuAt(c: LC.Ccu, t: LC.Ccu, k: nat) {
    && t == c.(value := LC.ValueAt(c, k), state := t.state, received := t.received, dispatchIdx := t.dispatchIdx)
    && match t.state
       case Idle => false
       case Running => LC.HasIteration(c, k) && t.received < LC.Need(c) && t.dispatchIdx == 0
       case Dispatching => k > 0 && LC.HasIteration(c, k) && t.dispatchIdx < c.numTargets
       case Complete => k > 0 && LC.HasIteration(c, k - 1) && LC.ValueAt(c, k) >= c.upper
  }

  /** Leaf t of a group that started with the given leaves. */
  predicate LeafOk(leaves: seq<DCU.Slot>, g: Group, p: Place, t: nat)
    requires t < |leaves| && t < |g.slots| == |g.resets| && t < |p.stages|
  {
    && LeafAt(leaves[t], g.slots[t], g.resets[t], SentTo(g.ccu, p.k, t), p.k, p.stages[t])
    && (p.stages[t].Finished? <==> g.ccu.state.Complete?)
  }

  ghost predicate GroupAt(w: LC.Widths, c: LC.Ccu, leaves: seq<DCU.Slot>, g: Group, p: Place) {
    && GroupOk(w, g) && LC.Launched(w, c) && Leaves(c, c.numTargets) <= LC.Need(c) && CcuAt(c, g.ccu, p.k)
    && |leaves| == |p.stages| == c.numTargets && Balance(g.ccu, g.up, Done(c, p.stages, c.numTargets))
    && forall t :: 0 <= t < c.numTargets && IsLeaf(c, t) ==> DCU.Counts(w.value, leaves[t]) && LeafOk(leaves, g, p, t)
  }

  // ---- one leaf ----

  /** The leaf's next stage while the controller stays in its iteration. */
  function NextStage(stage: Stage, emits: bool, reports: bool, arrives: bool): Stage {
    match stage
    case Counting(j) => if emits then Counting(j + 1) else if reports then Reported else stage
    case Waiting => if arrives then Counting(0) else Waiting
    case _ => stage
  }

  lemma LeafStays(w: LC.Widths, leaf: DCU.Slot, s: DCU.Slot, resets: nat, sent: bool, k: nat, stage: Stage,
                  e: LeafEnv, a: nat, grant: bool)
    requires DCU.SlotOk(w.value, s) && DCU.Counts(w.value, leaf) && LeafAt(leaf, s, resets, sent, k, stage)
    requires LeafEnvOk(w, a, e) && (grant ==> !sent && !stage.Finished?)
    ensures var i := LeafInput(a, resets, e);
            LeafAt(leaf, DCU.NextSlot(w.value, s, i, a),
                   (if Arrives(resets, e) then resets - 1 else resets) + (if grant then 1 else 0), sent || grant, k,
                   NextStage(stage, DCU.Emits(s, i, a), DCU.Reports(s, i, a), Arrives(resets, e)))
  {
    var i := LeafInput(a, resets, e);
    if stage.Counting? {
      ActiveStep(w, leaf, s, i, a, stage.j);
    } else {
      SpentKeeps(w, leaf, s, i, a);
    }
  }

  /** The controller goes on: to the next iteration, or to its end. */
  lemma LeafTurns(w: LC.Widths, leaf: DCU.Slot, s: DCU.Slot, k: nat, e: LeafEnv, a: nat)
    requires DCU.SlotOk(w.value, s) && DCU.Counts(w.value, leaf) && LeafAt(leaf, s, 0, true, k, Reported)
    requires LeafEnvOk(w, a, e)
    ensures var s' := DCU.NextSlot(w.value, s, LeafInput(a, 0, e), a);
            LeafAt(leaf, s', 0, false, k + 1, Waiting) && LeafAt(leaf, s', 0, false, k + 1, Finished)
    ensures !DCU.Reports(s, LeafInput(a, 0, e), a) && !DCU.Emits(s, LeafInput(a, 0, e), a)
  {
    SpentKeeps(w, leaf, s, LeafInput(a, 0, e), a);
  }

  /** What a leaf has put out by then. */
  function OutBy(leaf: DCU.Slot, k: nat, stage: Stage): seq<nat>
    requires leaf.step > 0
  {
    Counted(leaf, Phase(k, 0, 0, 0, stage))
  }

  lemma OutStays(w: LC.Widths, leaf: DCU.Slot, s: DCU.Slot, resets: nat, sent: bool, k: nat, stage: Stage, i: DCU.Input,
                 a: nat, arrives: bool)
    requires DCU.SlotOk(w.value, s) && DCU.Counts(w.value, leaf) && LeafAt(leaf, s, resets, sent, k, stage)
    ensures OutBy(leaf, k, NextStage(stage, DCU.Emits(s, i, a), DCU.Reports(s, i, a), arrives))
      == OutBy(leaf, k, stage) + if DCU.Emits(s, i, a) then [s.value] else []
  {
    if DCU.Reports(s, i, a) && stage.Counting? {
      DCU.TripsIsLast(leaf, stage.j);
    }
  }

  // ---- the controller ----

  /** The last completion of an iteration. */
  predicate Turns(c: LC.Ccu, ev: LC.Event) {
    ev.Child? && c.received + 1 >= LC.Need(c)
  }

  lemma CcuStep(w: LC.Widths, c: LC.Ccu, t: LC.Ccu, ev: LC.Event, k: nat)
    requires LC.Launched(w, c) && LC.CcuOk(w, t) && CcuAt(c, t, k) && LC.EventOk(t, ev)
    ensures var t' := LC.NextCcu(w, t, ev);
            && CcuAt(c, t', if Turns(t, ev) then k + 1 else k)
            && (if Turns(t, ev) then t'.state.Complete? || (t'.state.Dispatching? && t'.dispatchIdx == 0)
                else if ev.Child? then t'.state.Running? && t'.received == t.received + 1
                else if ev.Grant? then if t.dispatchIdx + 1 < c.numTargets
                                       then t'.state.Dispatching? && t'.dispatchIdx == t.dispatchIdx + 1
                                       else t'.state.Running? && t'.received == 0
                else t' == t)
  {
    if ev.Child? {
      assert LC.ValueAt(c, k + 1) == LC.ValueAt(c, k) + c.step;
    }
  }

  // ---- all leaves ----

  /** What leaf t sees in a cycle, and whether it puts out a value or reports. */
  function InputAt(g: Group, e: GroupEnv, t: nat): DCU.Input
    requires t < |g.resets| && t < |e.leaves| && t < |g.ccu.targets|
  {
    LeafInput(g.ccu.targets[t].addr, g.resets[t], e.leaves[t])
  }

  predicate EmitsAt(g: Group, e: GroupEnv, t: nat)
    requires t < |g.slots| && t < |g.resets| && t < |e.leaves| && t < |g.ccu.targets|
  {
    DCU.Emits(g.slots[t], InputAt(g, e, t), g.ccu.targets[t].addr)
  }

  predicate ReportsAt(g: Group, e: GroupEnv, t: nat)
    requires t < |g.slots| && t < |g.resets| && t < |e.leaves| && t < |g.ccu.targets|
  {
    DCU.Reports(g.slots[t], InputAt(g, e, t), g.ccu.targets[t].addr)
  }

  function StageAfter(g: Group, e: GroupEnv, turn: bool, over: bool, stage: Stage, t: nat): Stage
    requires t < |g.slots| && t < |g.resets| && t < |e.leaves| && t < |g.ccu.targets|
  {
    if !turn then NextStage(stage, EmitsAt(g, e, t), ReportsAt(g, e, t), Arrives(g.resets[t], e.leaves[t]))
    else if over then Finished
    else Waiting
  }

  function NextPlace(w: LC.Widths, g: Group, e: GroupEnv, p: Place): Place
    requires GroupOk(w, g) && GroupEnvOk(w, g.ccu, e) && |p.stages| == g.ccu.numTargets
  {
    var ev := EventIn(g, e);
    var turn, over := Turns(g.ccu, ev), LC.NextCcu(w, g.ccu, ev).state.Complete?;
    Place(if turn then p.k + 1 else p.k,
          seq(|p.stages|, t requires 0 <= t < |p.stages| => StageAfter(g, e, turn, over, p.stages[t], t)))
  }

  lemma {:induction false} DoneStep(c: LC.Ccu, g: Group, e: GroupEnv, stages: seq<Stage>, stages': seq<Stage>, n: nat)
    requires n <= |stages| == |stages'| == |g.slots| == |g.resets| == |e.leaves| && n <= |g.ccu.targets|
    requires c.targets == g.ccu.targets
    requires forall t :: 0 <= t < n && IsLeaf(c, t) ==>
               (stages'[t].Reported? <==> stages[t].Reported? || ReportsAt(g, e, t))
               && (ReportsAt(g, e, t) ==> !stages[t].Reported?)
    ensures Done(c, stages', n) == Done(c, stages, n) + Reports(g.ccu, g.slots, g.resets, e.leaves, n)
  {
    if n > 0 {
      DoneStep(c, g, e, stages, stages', n - 1);
    }
  }

  lemma {:induction false} NoReports(g: Group, e: GroupEnv, n: nat)
    requires n <= |g.slots| == |g.resets| == |e.leaves| && n <= |g.ccu.targets|
    requires forall t :: 0 <= t < n && IsLeaf(g.ccu, t) ==> !ReportsAt(g, e, t)
    ensures Reports(g.ccu, g.slots, g.resets, e.leaves, n) == 0
  {
    if n > 0 {
      NoReports(g, e, n - 1);
    }
  }

  /** As many reports as leaves are one from each. */
  lemma {:induction false} AllDone(c: LC.Ccu, stages: seq<Stage>, n: nat)
    requires n <= |stages| && Done(c, stages, n) == Leaves(c, n)
    ensures forall t :: 0 <= t < n && IsLeaf(c, t) ==> stages[t].Reported?
  {
    if n > 0 {
      AllDone(c, stages, n - 1);
    }
  }

  lemma {:induction false} NoneDone(c: LC.Ccu, stages: seq<Stage>, n: nat)
    requires n <= |stages| && forall t :: 0 <= t < n && IsLeaf(c, t) ==> !stages[t].Reported?
    ensures Done(c, stages, n) == 0
  {
    if n > 0 {
      NoneDone(c, stages, n - 1);
    }
  }

  /** The completion that ends an iteration is the last one of all leaves. */
  lemma TurnsWhenAllDone(w: LC.Widths, c: LC.Ccu, leaves: seq<DCU.Slot>, g: Group, e: GroupEnv, p: Place)
    requires GroupAt(w, c, leaves, g, p) && GroupEnvOk(w, g.ccu, e) && Turns(g.ccu, EventIn(g, e))
    ensures g.up == 1 && forall t :: 0 <= t < c.numTargets && IsLeaf(c, t) ==> p.stages[t].Reported?
    ensures Reports(g.ccu, g.slots, g.resets, e.leaves, c.numTargets) == 0
  {
    AllDone(c, p.stages, c.numTargets);
    forall t | 0 <= t < c.numTargets && IsLeaf(c, t)
      ensures !ReportsAt(g, e, t)
    {
      assert LeafOk(leaves, g, p, t);
    }
    NoReports(g, e, c.numTargets);
  }

  /** Any other cycle moves each leaf by itself. */
  lemma DoneStays(w: LC.Widths, c: LC.Ccu, leaves: seq<DCU.Slot>, g: Group, e: GroupEnv, p: Place)
    requires GroupAt(w, c, leaves, g, p) && GroupEnvOk(w, g.ccu, e) && !Turns(g.ccu, EventIn(g, e))
    ensures Done(c, NextPlace(w, g, e, p).stages, c.numTargets)
      == Done(c, p.stages, c.numTargets) + Reports(g.ccu, g.slots, g.resets, e.leaves, c.numTargets)
  {
    var q := NextPlace(w, g, e, p);
    forall t | 0 <= t < c.numTargets && IsLeaf(c, t)
      ensures (q.stages[t].Reported? <==> p.stages[t].Reported? || ReportsAt(g, e, t))
              && (ReportsAt(g, e, t) ==> !p.stages[t].Reported?)
    {
      assert LeafOk(leaves, g, p, t);
    }
    DoneStep(c, g, e, p.stages, q.stages, c.numTargets);
  }

  /** Completions stay accounted for. */
  lemma BalanceStep(w: LC.Widths, c: LC.Ccu, leaves: seq<DCU.Slot>, g: Group, e: GroupEnv, p: Place)
    requires GroupAt(w, c, leaves, g, p) && GroupEnvOk(w, g.ccu, e)
    ensures var g', q := GroupCycle(w, g, e), NextPlace(w, g, e, p);
            Balance(g'.ccu, g'.up, Done(c, q.stages, c.numTargets))
  {
    CcuStep(w, c, g.ccu, EventIn(g, e), p.k);
    if Turns(g.ccu, EventIn(g, e)) {
      TurnsWhenAllDone(w, c, leaves, g, e, p);
      NoneDone(c, NextPlace(w, g, e, p).stages, c.numTargets);
    } else {
      DoneStays(w, c, leaves, g, e, p);
      if g.ccu.state.Complete? {
        forall t | 0 <= t < c.numTargets && IsLeaf(c, t)
          ensures !ReportsAt(g, e, t)
        {
          assert LeafOk(leaves, g, p, t);
        }
        NoReports(g, e, c.numTargets);
      }
    }
  }

  lemma LeafFollows(w: LC.Widths, c: LC.Ccu, leaves: seq<DCU.Slot>, g: Group, e: GroupEnv, p: Place, t: nat)
    requires GroupAt(w, c, leaves, g, p) && GroupEnvOk(w, g.ccu, e) && t < c.numTargets && IsLeaf(c, t)
    ensures LeafOk(leaves, GroupCycle(w, g, e), NextPlace(w, g, e, p), t)
  {
    var ev, a := EventIn(g, e), c.targets[t].addr;
    assert LeafOk(leaves, g, p, t) && LeafEnvOk(w, a, e.leaves[t]);
    CcuStep(w, c, g.ccu, ev, p.k);
    if Turns(g.ccu, ev) {
      TurnsWhenAllDone(w, c, leaves, g, e, p);
      LeafTurns(w, leaves[t], g.slots[t], p.k, e.leaves[t], a);
    } else {
      LeafStays(w, leaves[t], g.slots[t], g.resets[t], SentTo(g.ccu, p.k, t), p.k, p.stages[t], e.leaves[t], a,
                ev.Grant? && g.ccu.dispatchIdx == t);
    }
  }

  /** Every cycle keeps the controller and all leaves in step. */
  lemma GroupStep(w: LC.Widths, c: LC.Ccu, leaves: seq<DCU.Slot>, g: Group, e: GroupEnv, p: Place)
    requires GroupAt(w, c, leaves, g, p) && GroupEnvOk(w, g.ccu, e)
    ensures GroupAt(w, c, leaves, GroupCycle(w, g, e), NextPlace(w, g, e, p))
  {
    CcuStep(w, c, g.ccu, EventIn(g, e), p.k);
    BalanceStep(w, c, leaves, g, e, p);
    forall t | 0 <= t < c.numTargets && IsLeaf(c, t)
      ensures LeafOk(leaves, GroupCycle(w, g, e), NextPlace(w, g, e, p), t)
    {
      LeafFollows(w, c, leaves, g, e, p, t);
    }
  }

  // ---- runs ----

  ghost predicate GroupEnvsOk(w: LC.Widths, c: LC.Ccu, es: seq<GroupEnv>)
    requires c.numTargets <= |c.targets|
  {
    forall i :: 0 <= i < |es| ==> GroupEnvOk(w, c, es[i])
  }

  ghost function GroupRun(w: LC.Widths, g: Group, es: seq<GroupEnv>): (g': Group)
    requires GroupOk(w, g) && GroupEnvsOk(w, g.ccu, es)
    ensures GroupOk(w, g') && g'.ccu.targets == g.ccu.targets && g'.ccu.numTargets == g.ccu.numTargets
  {
    if es == [] then g else GroupCycle(w, GroupRun(w, g, es[..|es| - 1]), es[|es| - 1])
  }

  /** The predicate-1 values of the leaf at target t. */
  ghost function ValuesAt(w: LC.Widths, g: Group, es: seq<GroupEnv>, t: nat): seq<nat>
    requires GroupOk(w, g) && GroupEnvsOk(w, g.ccu, es) && t < g.ccu.numTargets
  {
    if es == [] then []
    else
      var now, e := GroupRun(w, g, es[..|es| - 1]), es[|es| - 1];
      ValuesAt(w, g, es[..|es| - 1], t) + if EmitsAt(now, e, t) then [now.slots[t].value] else []
  }

  /** Where the run is. */
  ghost function PlaceOf(w: LC.Widths, g: Group, es: seq<GroupEnv>): (p: Place)
    requires GroupOk(w, g) && GroupEnvsOk(w, g.ccu, es)
    ensures |p.stages| == g.ccu.numTargets
  {
    if es == [] then Place(0, seq(g.ccu.numTargets, _ => Counting(0)))
    else NextPlace(w, GroupRun(w, g, es[..|es| - 1]), es[|es| - 1], PlaceOf(w, g, es[..|es| - 1]))
  }

  /** A group about to start: the CCU launched, every leaf at its lower bound, nothing in
      flight; the controller waits for at least as many completions as there are leaves. */
  predicate FreshGroup(w: LC.Widths, g: Group) {
    && GroupOk(w, g) && LC.Launched(w, g.ccu) && g.up == 0 && Leaves(g.ccu, g.ccu.numTargets) <= LC.Need(g.ccu)
    && (forall t :: 0 <= t < g.ccu.numTargets ==> !g.ccu.targets[t].remote)
    && forall t :: 0 <= t < g.ccu.numTargets && IsLeaf(g.ccu, t) ==> FreshLeaf(w, g.slots[t], g.resets[t])
  }

  predicate FreshLeaf(w: LC.Widths, s: DCU.Slot, resets: nat) {
    DCU.Counts(w.value, s) && s.value == s.lower && !s.done && resets == 0
  }

  lemma {:induction false} InPlace(w: LC.Widths, g: Group, es: seq<GroupEnv>)
    requires FreshGroup(w, g) && GroupEnvsOk(w, g.ccu, es)
    ensures GroupAt(w, g.ccu, g.slots, GroupRun(w, g, es), PlaceOf(w, g, es))
  {
    if es == [] {
      NoneDone(g.ccu, PlaceOf(w, g, es).stages, g.ccu.numTargets);
    } else {
      var m := |es| - 1;
      InPlace(w, g, es[..m]);
      assert GroupEnvOk(w, g.ccu, es[m]);
      GroupStep(w, g.ccu, g.slots, GroupRun(w, g, es[..m]), es[m], PlaceOf(w, g, es[..m]));
    }
  }

  lemma OutStep(w: LC.Widths, c: LC.Ccu, leaves: seq<DCU.Slot>, g: Group, e: GroupEnv, p: Place, t: nat)
    requires GroupAt(w, c, leaves, g, p) && GroupEnvOk(w, g.ccu, e) && t < c.numTargets && IsLeaf(c, t)
    ensures OutBy(leaves[t], NextPlace(w, g, e, p).k, NextPlace(w, g, e, p).stages[t])
      == OutBy(leaves[t], p.k, p.stages[t]) + if EmitsAt(g, e, t) then [g.slots[t].value] else []
  {
    assert LeafOk(leaves, g, p, t) && LeafEnvOk(w, c.targets[t].addr, e.leaves[t]);
    if Turns(g.ccu, EventIn(g, e)) {
      TurnsWhenAllDone(w, c, leaves, g, e, p);
      LeafTurns(w, leaves[t], g.slots[t], p.k, e.leaves[t], c.targets[t].addr);
    } else {
      OutStays(w, leaves[t], g.slots[t], g.resets[t], SentTo(g.ccu, p.k, t), p.k, p.stages[t], InputAt(g, e, t),
               c.targets[t].addr, Arrives(g.resets[t], e.leaves[t]));
    }
  }

  lemma {:induction false} OutIs(w: LC.Widths, g: Group, es: seq<GroupEnv>, t: nat)
    requires FreshGroup(w, g) && GroupEnvsOk(w, g.ccu, es) && t < g.ccu.numTargets && IsLeaf(g.ccu, t)
    ensures ValuesAt(w, g, es, t) == OutBy(g.slots[t], PlaceOf(w, g, es).k, PlaceOf(w, g, es).stages[t])
  {
    if es != [] {
      var m := |es| - 1;
      OutIs(w, g, es[..m], t);
      InPlace(w, g, es[..m]);
      assert GroupEnvOk(w, g.ccu, es[m]);
      OutStep(w, g.ccu, g.slots, GroupRun(w, g, es[..m]), es[m], PlaceOf(w, g, es[..m]), t);
    }
  }

  /** How far a leaf can be in iteration k. */
  lemma OutBounds(leaf: DCU.Slot, s: DCU.Slot, resets: nat, sent: bool, k: nat, stage: Stage)
    requires leaf.step > 0 && LeafAt(leaf, s, resets, sent, k, stage)
    ensures Copies(leaf, k) <= OutBy(leaf, k, stage) <= Copies(leaf, k + 1)
    ensures stage.Waiting? || stage.Finished? ==> OutBy(leaf, k, stage) == Copies(leaf, k)
  {
    if stage.Counting? {
      InsideBound(leaf, stage.j);
      RangeIsPrefix(leaf, stage.j, DCU.Trips(leaf));
    }
  }

  /** At every moment, under any timing, all leaves are in the same iteration k: each has put
      out its range k times, and part of it once more. */
  lemma Barrier(w: LC.Widths, g: Group, es: seq<GroupEnv>) returns (k: nat)
    requires FreshGroup(w, g) && GroupEnvsOk(w, g.ccu, es)
    ensures GroupRun(w, g, es).ccu.value == LC.ValueAt(g.ccu, k)
    ensures if GroupRun(w, g, es).ccu.state.Complete? then k == LC.Trips(g.ccu) else k < LC.Trips(g.ccu)
    ensures forall t :: 0 <= t < g.ccu.numTargets && IsLeaf(g.ccu, t) ==>
              Copies(g.slots[t], k) <= ValuesAt(w, g, es, t) <= Copies(g.slots[t], k + 1)
    ensures GroupRun(w, g, es).ccu.state.Complete? ==>
              forall t :: 0 <= t < g.ccu.numTargets && IsLeaf(g.ccu, t) ==>
                ValuesAt(w, g, es, t) == Copies(g.slots[t], k)
  {
    var now, p := GroupRun(w, g, es), PlaceOf(w, g, es);
    k := p.k;
    InPlace(w, g, es);
    if now.ccu.state.Complete? {
      LC.TripsIsLast(g.ccu, k);
    } else {
      LC.IterationExactly(g.ccu, k);
    }
    forall t | 0 <= t < g.ccu.numTargets && IsLeaf(g.ccu, t)
      ensures Copies(g.slots[t], k) <= ValuesAt(w, g, es, t) <= Copies(g.slots[t], k + 1)
      ensures now.ccu.state.Complete? ==> ValuesAt(w, g, es, t) == Copies(g.slots[t], k)
    {
      assert LeafOk(g.slots, now, p, t);
      OutIs(w, g, es, t);
      OutBounds(g.slots[t], now.slots[t], now.resets[t], SentTo(now.ccu, k, t), k, p.stages[t]);
    }
  }

  /** Each leaf's values are a prefix of its own range repeated once per iteration, and all of
      it when the controller is done. */
  lemma SiblingStreams(w: LC.Widths, g: Group, es: seq<GroupEnv>, t: nat)
    requires FreshGroup(w, g) && GroupEnvsOk(w, g.ccu, es) && t < g.ccu.numTargets && IsLeaf(g.ccu, t)
    ensures ValuesAt(w, g, es, t) <= Copies(g.slots[t], LC.Trips(g.ccu))
    ensures GroupRun(w, g, es).ccu.state.Complete? ==> ValuesAt(w, g, es, t) == Copies(g.slots[t], LC.Trips(g.ccu))
  {
    var k := Barrier(w, g, es);
    CopiesIsPrefix(g.slots[t], if k < LC.Trips(g.ccu) then k + 1 else k, LC.Trips(g.ccu));
  }

  /** A child count above the number of leaves is never reached: the controller stays in its
      first iteration for ever. */
  lemma {:induction false} TooManyAwaited(w: LC.Widths, g: Group, es: seq<GroupEnv>)
    requires FreshGroup(w, g) && GroupEnvsOk(w, g.ccu, es) && Leaves(g.ccu, g.ccu.numTargets) < LC.Need(g.ccu)
    ensures GroupRun(w, g, es).ccu.state.Running? && GroupRun(w, g, es).ccu.value == g.ccu.lower
    ensures PlaceOf(w, g, es).k == 0
  {
    if es != [] {
      var m := |es| - 1;
      TooManyAwaited(w, g, es[..m]);
      InPlace(w, g, es[..m]);
      assert GroupEnvOk(w, g.ccu, es[m]);
      CcuStep(w, g.ccu, GroupRun(w, g, es[..m]).ccu, EventIn(GroupRun(w, g, es[..m]), es[m]), 0);
    }
  }

  // ---- progress ----

  /** Everyone is willing: every leaf is executed with room for its output and its message,
      resets and completions are taken, dispatches accepted. */
  predicate Eager(c: LC.Ccu, e: GroupEnv)
    requires c.numTargets <= |c.targets| && |e.leaves| == c.numTargets
  {
    e.grant && e.child && forall t :: 0 <= t < c.numTargets ==> LeafEager(c.targets[t].addr, e.leaves[t])
  }

  predicate LeafEager(a: nat, e: LeafEnv) {
    e.deliver && DCU.Counting(e.input, a) && e.input.outRdy && e.input.msgRdy
  }

  /** What a leaf has done of an iteration: been reset, put out j values, reported. */
  function LeafDone(leaf: DCU.Slot, stage: Stage): nat
    requires leaf.step > 0
  {
    match stage
    case Counting(j) => 1 + j
    case Reported => DCU.Trips(leaf) + 2
    case _ => 0
  }

  ghost predicate AllCount(c: LC.Ccu, leaves: seq<DCU.Slot>) {
    |leaves| == c.numTargets && forall t :: 0 <= t < |leaves| && IsLeaf(c, t) ==> leaves[t].step > 0
  }

  /** What the first n leaves have done, and what they do in an iteration. */
  ghost function LeavesDone(c: LC.Ccu, leaves: seq<DCU.Slot>, stages: seq<Stage>, n: nat): nat
    requires AllCount(c, leaves) && n <= |leaves| == |stages|
  {
    if n == 0 then 0
    else LeavesDone(c, leaves, stages, n - 1) + if IsLeaf(c, n - 1) then LeafDone(leaves[n - 1], stages[n - 1]) else 0
  }

  ghost function LeavesWhole(c: LC.Ccu, leaves: seq<DCU.Slot>, n: nat): nat
    requires AllCount(c, leaves) && n <= |leaves|
  {
    if n == 0 then 0
    else LeavesWhole(c, leaves, n - 1) + if IsLeaf(c, n - 1) then DCU.Trips(leaves[n - 1]) + 2 else 0
  }

  /** What the controller has done: messages sent and completions counted. */
  function CcuDone(c: LC.Ccu): nat {
    if c.state.Dispatching? then c.dispatchIdx else c.numTargets + c.received
  }

  /** What an iteration takes. */
  ghost function IterationWork(c: LC.Ccu, leaves: seq<DCU.Slot>): nat
    requires AllCount(c, leaves)
  {
    LeavesWhole(c, leaves, c.numTargets) + c.numTargets + LC.Need(c)
  }

  ghost function GroupWork(c: LC.Ccu, leaves: seq<DCU.Slot>, t: LC.Ccu, p: Place): int
    requires AllCount(c, leaves) && |p.stages| == |leaves| && c.step > 0
  {
    if t.state.Complete? then 0
    else (LC.Trips(c) - p.k) * IterationWork(c, leaves) - LeavesDone(c, leaves, p.stages, c.numTargets) - CcuDone(t)
  }

  lemma {:induction false} WholeWhenReported(c: LC.Ccu, leaves: seq<DCU.Slot>, stages: seq<Stage>, n: nat)
    requires AllCount(c, leaves) && n <= |leaves| == |stages|
    requires forall t :: 0 <= t < n && IsLeaf(c, t) ==> stages[t].Reported?
    ensures LeavesDone(c, leaves, stages, n) == LeavesWhole(c, leaves, n)
  {
    if n > 0 {
      WholeWhenReported(c, leaves, stages, n - 1);
    }
  }

  lemma {:induction false} NothingWhenWaiting(c: LC.Ccu, leaves: seq<DCU.Slot>, stages: seq<Stage>, n: nat)
    requires AllCount(c, leaves) && n <= |leaves| == |stages|
    requires forall t :: 0 <= t < n && IsLeaf(c, t) ==> stages[t].Waiting? || stages[t].Finished?
    ensures LeavesDone(c, leaves, stages, n) == 0
  {
    if n > 0 {
      NothingWhenWaiting(c, leaves, stages, n - 1);
    }
  }

  /** Leaves only go on; x is one that does. */
  lemma {:induction false} LeavesGoOn(c: LC.Ccu, leaves: seq<DCU.Slot>, stages: seq<Stage>, stages': seq<Stage>,
                                          n: nat, x: int)
    requires AllCount(c, leaves) && n <= |leaves| == |stages| == |stages'|
    requires forall t :: 0 <= t < n && IsLeaf(c, t) ==>
               LeafDone(leaves[t], stages[t]) <= LeafDone(leaves[t], stages'[t])
    requires 0 <= x < n ==> IsLeaf(c, x) && LeafDone(leaves[x], stages[x]) < LeafDone(leaves[x], stages'[x])
    ensures LeavesDone(c, leaves, stages, n) + (if 0 <= x < n then 1 else 0) <= LeavesDone(c, leaves, stages', n)
  {
    if n > 0 {
      LeavesGoOn(c, leaves, stages, stages', n - 1, x);
    }
  }

  lemma {:induction false} AtMostWhole(c: LC.Ccu, leaves: seq<DCU.Slot>, stages: seq<Stage>, n: nat)
    requires AllCount(c, leaves) && n <= |leaves| == |stages|
    requires forall t :: 0 <= t < n && IsLeaf(c, t) ==> LeafDone(leaves[t], stages[t]) <= DCU.Trips(leaves[t]) + 2
    ensures LeavesDone(c, leaves, stages, n) <= LeavesWhole(c, leaves, n)
  {
    if n > 0 {
      AtMostWhole(c, leaves, stages, n - 1);
    }
  }

  /** Some leaf has not reported. */
  lemma {:induction false} FindLeaf(c: LC.Ccu, stages: seq<Stage>, n: nat) returns (t: nat)
    requires n <= |stages| && Done(c, stages, n) < Leaves(c, n)
    ensures t < n && IsLeaf(c, t) && !stages[t].Reported?
  {
    if IsLeaf(c, n - 1) && !stages[n - 1].Reported? {
      t := n - 1;
    } else {
      t := FindLeaf(c, stages, n - 1);
    }
  }

  /** One leaf's cycle: it does not go back, and if it is eager it goes on, unless it has
      reported or its reset has not been sent. */
  lemma LeafGoesOn(leaf: DCU.Slot, s: DCU.Slot, resets: nat, sent: bool, k: nat, stage: Stage, e: LeafEnv, a: nat)
    requires leaf.step > 0 && LeafAt(leaf, s, resets, sent, k, stage)
    ensures var i := LeafInput(a, resets, e);
            var stage' := NextStage(stage, DCU.Emits(s, i, a), DCU.Reports(s, i, a), Arrives(resets, e));
            && LeafDone(leaf, stage) <= LeafDone(leaf, stage')
            && (LeafEager(a, e) && sent && !stage.Reported? && !stage.Finished? ==>
                  LeafDone(leaf, stage) < LeafDone(leaf, stage'))
    ensures LeafDone(leaf, stage) <= DCU.Trips(leaf) + 2
  {
    if stage.Counting? {
      DCU.InsideExactly(leaf, stage.j);
      InsideBound(leaf, stage.j);
    }
  }

  /** All leaves over a cycle in which the controller stays in its iteration. */
  lemma LeavesStay(w: LC.Widths, c: LC.Ccu, leaves: seq<DCU.Slot>, g: Group, e: GroupEnv, p: Place, x: int)
    requires GroupAt(w, c, leaves, g, p) && AllCount(c, leaves) && GroupEnvOk(w, g.ccu, e)
    requires !Turns(g.ccu, EventIn(g, e))
    requires !g.ccu.state.Complete?
    requires 0 <= x < c.numTargets ==>
               Eager(g.ccu, e) && IsLeaf(c, x) && SentTo(g.ccu, p.k, x) && !p.stages[x].Reported?
    ensures LeavesDone(c, leaves, p.stages, c.numTargets) + (if 0 <= x < c.numTargets then 1 else 0)
      <= LeavesDone(c, leaves, NextPlace(w, g, e, p).stages, c.numTargets)
  {
    var q := NextPlace(w, g, e, p);
    forall t | 0 <= t < c.numTargets && IsLeaf(c, t)
      ensures LeafDone(leaves[t], p.stages[t]) + (if t == x then 1 else 0) <= LeafDone(leaves[t], q.stages[t])
    {
      assert LeafOk(leaves, g, p, t) && (t == x ==> LeafEager(c.targets[t].addr, e.leaves[t]));
      LeafGoesOn(leaves[t], g.slots[t], g.resets[t], SentTo(g.ccu, p.k, t), p.k, p.stages[t], e.leaves[t],
          c.targets[t].addr);
    }
    LeavesGoOn(c, leaves, p.stages, q.stages, c.numTargets, x);
  }

  /** The leaf that an eager cycle moves, if the controller does nothing. */
  lemma SomeoneMoves(w: LC.Widths, c: LC.Ccu, leaves: seq<DCU.Slot>, g: Group, e: GroupEnv, p: Place) returns (x: int)
    requires GroupAt(w, c, leaves, g, p) && GroupEnvOk(w, g.ccu, e) && Leaves(c, c.numTargets) == LC.Need(c)
    requires !g.ccu.state.Complete?
    ensures 0 <= x < c.numTargets ==>
              Eager(g.ccu, e) && IsLeaf(c, x) && SentTo(g.ccu, p.k, x) && !p.stages[x].Reported?
    ensures Eager(g.ccu, e) ==> 0 <= x < c.numTargets || !EventIn(g, e).Nothing?
  {
    x := -1;
    if Eager(g.ccu, e) && g.ccu.state.Running? && g.up == 0 {
      x := FindLeaf(c, p.stages, c.numTargets);
    }
  }

  lemma CcuGoesOn(w: LC.Widths, c: LC.Ccu, t: LC.Ccu, ev: LC.Event, k: nat)
    requires LC.Launched(w, c) && LC.CcuOk(w, t) && CcuAt(c, t, k) && LC.EventOk(t, ev) && !Turns(t, ev)
    requires !t.state.Complete?
    ensures CcuDone(LC.NextCcu(w, t, ev)) == CcuDone(t) + if ev.Nothing? then 0 else 1
    ensures !LC.NextCcu(w, t, ev).state.Complete?
  {
    CcuStep(w, c, t, ev, k);
  }

  /** An unfinished group has work left. */
  lemma GroupWorkPositive(w: LC.Widths, c: LC.Ccu, leaves: seq<DCU.Slot>, g: Group, p: Place)
    requires GroupAt(w, c, leaves, g, p) && AllCount(c, leaves) && !g.ccu.state.Complete?
    ensures GroupWork(c, leaves, g.ccu, p) > 0
  {
    forall t | 0 <= t < c.numTargets && IsLeaf(c, t)
      ensures LeafDone(leaves[t], p.stages[t]) <= DCU.Trips(leaves[t]) + 2
    {
      assert LeafOk(leaves, g, p, t);
      LeafGoesOn(leaves[t], g.slots[t], g.resets[t], SentTo(g.ccu, p.k, t), p.k, p.stages[t],
                 LeafEnv(false, DCU.Input(false, DCU.OtherOp, 0, false, false, DCU.NoCmd, false)), c.targets[t].addr);
    }
    AtMostWhole(c, leaves, p.stages, c.numTargets);
    LC.IterationExactly(c, p.k);
    Arith.MulMono(1, LC.Trips(c) - p.k, IterationWork(c, leaves));
  }

  /** The last completion of an iteration. */
  lemma TurnWork(w: LC.Widths, c: LC.Ccu, leaves: seq<DCU.Slot>, g: Group, e: GroupEnv, p: Place)
    requires GroupAt(w, c, leaves, g, p) && AllCount(c, leaves) && GroupEnvOk(w, g.ccu, e)
    requires Turns(g.ccu, EventIn(g, e))
    ensures GroupWork(c, leaves, GroupCycle(w, g, e).ccu, NextPlace(w, g, e, p)) + 1 <= GroupWork(c, leaves, g.ccu, p)
  {
    var q, t' := NextPlace(w, g, e, p), GroupCycle(w, g, e).ccu;
    GroupWorkPositive(w, c, leaves, g, p);
    if !t'.state.Complete? {
      CcuStep(w, c, g.ccu, EventIn(g, e), p.k);
      TurnsWhenAllDone(w, c, leaves, g, e, p);
      WholeWhenReported(c, leaves, p.stages, c.numTargets);
      NothingWhenWaiting(c, leaves, q.stages, c.numTargets);
      assert (LC.Trips(c) - p.k) * IterationWork(c, leaves)
        == (LC.Trips(c) - (p.k + 1)) * IterationWork(c, leaves) + IterationWork(c, leaves);
    }
  }

  /** The work left never grows, is positive until the group is finished, and drops in every
      eager cycle. */
  lemma GroupWorkDrops(w: LC.Widths, c: LC.Ccu, leaves: seq<DCU.Slot>, g: Group, e: GroupEnv, p: Place)
    requires GroupAt(w, c, leaves, g, p) && AllCount(c, leaves) && GroupEnvOk(w, g.ccu, e)
    requires Leaves(c, c.numTargets) == LC.Need(c) && !g.ccu.state.Complete?
    ensures GroupWork(c, leaves, GroupCycle(w, g, e).ccu, NextPlace(w, g, e, p)) + (if Eager(g.ccu, e) then 1 else 0)
      <= GroupWork(c, leaves, g.ccu, p)
    ensures GroupWork(c, leaves, g.ccu, p) > 0
  {
    GroupWorkPositive(w, c, leaves, g, p);
    if Turns(g.ccu, EventIn(g, e)) {
      TurnWork(w, c, leaves, g, e, p);
    } else {
      var x := SomeoneMoves(w, c, leaves, g, e, p);
      LeavesStay(w, c, leaves, g, e, p, x);
      CcuGoesOn(w, c, g.ccu, EventIn(g, e), p.k);
    }
  }

  function EagerCycles(c: LC.Ccu, es: seq<GroupEnv>): nat
    requires c.numTargets <= |c.targets| && forall i :: 0 <= i < |es| ==> |es[i].leaves| == c.numTargets
  {
    if es == [] then 0 else EagerCycles(c, es[..|es| - 1]) + if Eager(c, es[|es| - 1]) then 1 else 0
  }

  lemma SameEager(c: LC.Ccu, t: LC.Ccu, e: GroupEnv)
    requires c.numTargets <= |c.targets| && |e.leaves| == c.numTargets
    requires t.targets == c.targets && t.numTargets == c.numTargets
    ensures Eager(t, e) == Eager(c, e)
  {
  }

  lemma {:induction false} GroupWorkInRun(w: LC.Widths, g: Group, es: seq<GroupEnv>)
    requires FreshGroup(w, g) && AllCount(g.ccu, g.slots) && GroupEnvsOk(w, g.ccu, es)
    requires Leaves(g.ccu, g.ccu.numTargets) == LC.Need(g.ccu)
    ensures GroupRun(w, g, es).ccu.state.Complete? ||
            GroupWork(g.ccu, g.slots, GroupRun(w, g, es).ccu, PlaceOf(w, g, es)) + EagerCycles(g.ccu, es)
              <= LC.Trips(g.ccu) * IterationWork(g.ccu, g.slots)
  {
    if es != [] {
      var m := |es| - 1;
      GroupWorkInRun(w, g, es[..m]);
      InPlace(w, g, es[..m]);
      assert GroupEnvOk(w, g.ccu, es[m]);
      SameEager(g.ccu, GroupRun(w, g, es[..m]).ccu, es[m]);
      if !GroupRun(w, g, es[..m]).ccu.state.Complete? {
        GroupWorkDrops(w, g.ccu, g.slots, GroupRun(w, g, es[..m]), es[m], PlaceOf(w, g, es[..m]));
      }
    }
  }

  /** The barrier cannot deadlock: with the child count equal to the number of leaves the group
      is finished after a known number of eager cycles, whatever happens in between. */
  lemma SiblingsFinish(w: LC.Widths, g: Group, es: seq<GroupEnv>)
    requires FreshGroup(w, g) && AllCount(g.ccu, g.slots) && GroupEnvsOk(w, g.ccu, es)
    requires Leaves(g.ccu, g.ccu.numTargets) == LC.Need(g.ccu)
    requires EagerCycles(g.ccu, es) >= LC.Trips(g.ccu) * IterationWork(g.ccu, g.slots)
    ensures GroupRun(w, g, es).ccu.state.Complete?
    ensures forall t :: 0 <= t < g.ccu.numTargets && IsLeaf(g.ccu, t) ==>
              ValuesAt(w, g, es, t) == Copies(g.slots[t], LC.Trips(g.ccu))
  {
    GroupWorkInRun(w, g, es);
    InPlace(w, g, es);
    if !GroupRun(w, g, es).ccu.state.Complete? {
      GroupWorkPositive(w, g.ccu, g.slots, GroupRun(w, g, es), PlaceOf(w, g, es));
    }
    var k := Barrier(w, g, es);
  }

  // ---- too few completions awaited ----

  /** Two leaves, of one and of two values, under a CCU of two iterations that waits for one
      completion: the controller, the leaves' values, and what is in flight. */
  function Two(v: nat, state: LC.State, received: nat, idx: nat, a: nat, aDone: bool, b: nat, rs: seq<nat>,
               up: nat): Group
    requires |rs| == 2
  {
    var ts := [LC.Target(0, 0, false, false), LC.Target(1, 1, false, false)];
    Group(LC.Ccu(0, 2, 1, v, state, 1, received, ts + ts, 2, idx, true, 0),
          [DCU.Slot(0, 1, 1, a, aDone, 0, false), DCU.Slot(0, 2, 1, b, false, 0, false)], rs, up)
  }

  function TwoWidths(): LC.Widths {
    LC.Widths(256, 16, 4, 4)
  }

  function OneLeaf(t: nat, deliver: bool, counts: bool): LeafEnv {
    LeafEnv(deliver, DCU.Input(counts, DCU.LoopCount, t, true, true, DCU.NoCmd, false))
  }

  /** The second leaf puts out 0, the first one its only value and its completion; the
      controller counts that and sends both resets; the second leaf takes its own and puts
      out 0 again. */
  function StateAt(i: nat): Group {
    if i == 0 then Two(0, LC.Running, 0, 0, 0, false, 0, [0, 0], 0)
    else if i == 1 then Two(0, LC.Running, 0, 0, 0, false, 1, [0, 0], 0)
    else if i == 2 then Two(0, LC.Running, 0, 0, 1, false, 1, [0, 0], 0)
    else if i == 3 then Two(0, LC.Running, 0, 0, 1, true, 1, [0, 0], 1)
    else if i == 4 then Two(1, LC.Dispatching, 1, 0, 1, true, 1, [0, 0], 0)
    else if i == 5 then Two(1, LC.Dispatching, 1, 1, 1, true, 1, [1, 0], 0)
    else if i == 6 then Two(1, LC.Running, 0, 0, 1, true, 1, [1, 1], 0)
    else if i == 7 then Two(1, LC.Running, 0, 0, 1, true, 0, [1, 0], 0)
    else Two(1, LC.Running, 0, 0, 1, true, 1, [1, 0], 0)
  }

  function CycleAt(i: nat): GroupEnv {
    GroupEnv(i == 4 || i == 5, i == 3, [OneLeaf(0, false, i == 1 || i == 2), OneLeaf(1, i == 6, i == 0 || i == 7)])
  }

  lemma StateOk(i: nat)
    ensures GroupOk(TwoWidths(), StateAt(i)) && GroupEnvOk(TwoWidths(), StateAt(i).ccu, CycleAt(i))
  {
  }

  lemma SlotsAt(i: nat)
    requires i < 8 && GroupOk(TwoWidths(), StateAt(i)) && GroupEnvOk(TwoWidths(), StateAt(i).ccu, CycleAt(i))
    ensures GroupCycle(TwoWidths(), StateAt(i), CycleAt(i)).slots == StateAt(i + 1).slots
    ensures EmitsAt(StateAt(i), CycleAt(i), 1) == (i == 0 || i == 7)
  {
  }

  lemma StepAt(i: nat)
    requires i < 8
    ensures GroupOk(TwoWidths(), StateAt(i)) && GroupEnvOk(TwoWidths(), StateAt(i).ccu, CycleAt(i))
    ensures GroupCycle(TwoWidths(), StateAt(i), CycleAt(i)) == StateAt(i + 1)
    ensures EmitsAt(StateAt(i), CycleAt(i), 1) == (i == 0 || i == 7)
  {
    var g, e := StateAt(i), CycleAt(i);
    StateOk(i);
    SlotsAt(i);
    assert GroupCycle(TwoWidths(), g, e).resets == StateAt(i + 1).resets;
    assert Reports(g.ccu, g.slots, g.resets, e.leaves, 1) == if i == 2 then 1 else 0;
  }

  lemma {:induction false} RunTo(i: nat) returns (es: seq<GroupEnv>)
    requires i <= 8
    ensures GroupOk(TwoWidths(), StateAt(0)) && GroupEnvsOk(TwoWidths(), StateAt(0).ccu, es)
    ensures GroupRun(TwoWidths(), StateAt(0), es) == StateAt(i)
    ensures ValuesAt(TwoWidths(), StateAt(0), es, 1) == if i == 0 then [] else if i < 8 then [0] else [0, 0]
  {
    StepAt(0);
    es := [];
    if i > 0 {
      es := RunTo(i - 1);
      StepAt(i - 1);
      assert (es + [CycleAt(i - 1)])[..|es|] == es;
      es := es + [CycleAt(i - 1)];
    }
  }

  /** One completion alone ends iteration 0, and the other leaf, reset halfway, starts its
      range again. */
  lemma TooFewAwaited() returns (es: seq<GroupEnv>)
    ensures var w, g := TwoWidths(), StateAt(0);
            && GroupOk(w, g) && LC.Launched(w, g.ccu) && Leaves(g.ccu, 2) == 2 && LC.Need(g.ccu) == 1
            && FreshLeaf(w, g.slots[0], 0) && FreshLeaf(w, g.slots[1], 0) && GroupEnvsOk(w, g.ccu, es)
            && ValuesAt(w, g, es, 1) == [0, 0] && !([0, 0] <= Copies(g.slots[1], LC.Trips(g.ccu)))
  {
    es := RunTo(8);
    TwoCopies(StateAt(0).slots[1], LC.Trips(StateAt(0).ccu));
  }

  lemma TwoCopies(leaf: DCU.Slot, k: nat)
    requires leaf.lower == 0 && leaf.step == 1 && leaf.upper == 2
    ensures !([0, 0] <= Copies(leaf, k))
  {
    assert DCU.ValueAt(leaf, 1) == 1 && DCU.ValueAt(leaf, 2) == 2;
    DCU.TripsIsLast(leaf, 2);
    assert DCU.Range(leaf, 1) == [0];
    if k > 0 {
      CopiesIsPrefix(leaf, 1, k);
      assert Copies(leaf, 1)[1] == 1;
    }
  }
}
