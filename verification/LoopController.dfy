/** The loop controller's configurable counter units (controller/LoopControllerRTL.py).  A
    CCU waits for its children's completions, advances its counter, and then sends one
    message to each of its targets before it waits again.

    Runs are those of independent root CCUs: `RunsItsLoop` says what one CCU does over a whole
    run; `Projects` says that among others, each still does exactly that.  `NextAny` is the
    edge of CCUs that may have parents. */
module LoopController {
  import Arith

  /** The tile is stored with a target, but no message carries it. */
  datatype Target = Target(tile: nat, addr: nat, remote: bool, shadowOnly: bool)

  datatype State = Idle | Running | Dispatching | Complete

  datatype Ccu = Ccu(lower: nat, upper: nat, step: nat, value: nat, state: State,
                     childCount: nat, received: nat, targets: seq<Target>, numTargets: nat,
                     dispatchIdx: nat, isRoot: bool, parent: nat)

  /** Numbers of values of the payload, the 4-bit counts and the target index; and how many
      targets a CCU has room for. */
  datatype Widths = Widths(value: nat, count: nat, idx: nat, maxTargets: nat)

  predicate WidthsOk(w: Widths) {
    w.value > 0 && w.count > 0 && 0 < w.maxTargets <= w.idx
  }

  predicate CcuOk(w: Widths, c: Ccu) {
    && WidthsOk(w) && |c.targets| == w.maxTargets && c.numTargets <= w.maxTargets && c.numTargets < w.count
    && c.value < w.value && c.step < w.value && c.received < w.count && c.childCount < w.count
    && c.dispatchIdx < w.maxTargets
  }

  function LaunchOne(c: Ccu): Ccu {
    if c.numTargets != 0 || c.isRoot
    then c.(state := Running, value := c.lower, received := 0, dispatchIdx := 0) else c
  }

  // ---- one CCU ----

  /** A dispatch handshake; the index wraps at its own width before it is compared. */
  function Dispatched(w: Widths, c: Ccu): (c': Ccu)
    requires CcuOk(w, c)
    ensures CcuOk(w, c')
  {
    var next := Arith.Wrap(c.dispatchIdx + 1, w.idx);
    if next >= c.numTargets then c.(dispatchIdx := 0, state := Running, received := 0) else c.(dispatchIdx := next)
  }

  /** A child's completion: done is checked before dispatching. */
  function Completed(w: Widths, c: Ccu): (c': Ccu)
    requires CcuOk(w, c)
    ensures CcuOk(w, c')
  {
    var n := Arith.Wrap(c.received + 1, w.count);
    if n < c.childCount then c.(received := n)
    else
      var v := Arith.Wrap(c.value + c.step, w.value);
      if v >= c.upper then c.(received := n, value := v, state := Complete)
      else c.(received := n, value := v, state := Dispatching, dispatchIdx := 0)
  }

  /** What can happen to a CCU in one cycle. */
  datatype Event = Nothing | Grant | Child

  predicate EventOk(c: Ccu, e: Event) {
    && (e.Grant? ==> c.state.Dispatching?)
    && (e.Child? ==> c.state.Running?)
  }

  function NextCcu(w: Widths, c: Ccu, e: Event): (c': Ccu)
    requires CcuOk(w, c)
    ensures CcuOk(w, c')
  {
    match e
    case Nothing => c
    case Grant => Dispatched(w, c)
    case Child => Completed(w, c)
  }

  /** A message to a target: a reset, or a new shadow value. */
  datatype Msg = Reset(addr: nat) | Shadow(addr: nat, value: nat)

  function MsgFor(c: Ccu, t: nat): Msg
    requires t < |c.targets|
  {
    if c.targets[t].shadowOnly then Shadow(c.targets[t].addr, c.value) else Reset(c.targets[t].addr)
  }

  ghost function Run(w: Widths, c: Ccu, es: seq<Event>): (c': Ccu)
    requires CcuOk(w, c)
    ensures CcuOk(w, c')
  {
    if es == [] then c else NextCcu(w, Run(w, c, es[..|es| - 1]), es[|es| - 1])
  }

  ghost predicate EventsOk(w: Widths, c: Ccu, es: seq<Event>)
    requires CcuOk(w, c)
  {
    es != [] ==> EventsOk(w, c, es[..|es| - 1]) && EventOk(Run(w, c, es[..|es| - 1]), es[|es| - 1])
  }

  /** Messages sent. */
  ghost function Sent(w: Widths, c: Ccu, es: seq<Event>): seq<Msg>
    requires CcuOk(w, c)
  {
    if es == [] then []
    else
      var before := Run(w, c, es[..|es| - 1]);
      Sent(w, c, es[..|es| - 1]) + if es[|es| - 1].Grant? then [MsgFor(before, before.dispatchIdx)] else []
  }

  /** Completions consumed. */
  function Consumed(es: seq<Event>): nat {
    if es == [] then 0 else Consumed(es[..|es| - 1]) + if es[|es| - 1].Child? then 1 else 0
  }

  // ---- the loop it stands for ----

  /** A CCU just launched, whose counter cannot overflow and whose target index can count
      its targets. */
  predicate Launched(w: Widths, c: Ccu) {
    && CcuOk(w, c) && c.state.Running? && c.value == c.lower && c.received == 0 && c.dispatchIdx == 0
    && c.step > 0 && 1 <= c.numTargets < w.idx
    && (if c.lower < c.upper then c.upper - 1 else c.lower) + c.step < w.value
  }

  /** Completions per iteration; a configured count of 0 acts as 1. */
  function Need(c: Ccu): (n: nat)
    ensures n > 0
  {
    if c.childCount == 0 then 1 else c.childCount
  }

  /** The counter after k iterations. */
  function ValueAt(c: Ccu, k: nat): nat {
    if k == 0 then c.lower else ValueAt(c, k - 1) + c.step
  }

  /** Some iteration other than the last one of the loop; the first always runs. */
  predicate HasIteration(c: Ccu, k: nat) {
    k == 0 || ValueAt(c, k) < c.upper
  }

  /** The messages of one round: one per target, in order, with that round's value. */
  function Round(c: Ccu, k: nat, n: nat): (r: seq<Msg>)
    requires n <= |c.targets|
    ensures |r| == n
  {
    if n == 0 then [] else Round(c, k, n - 1) + [MsgFor(c.(value := ValueAt(c, k)), n - 1)]
  }

  /** Rounds 1 to k: iteration 0 needs none. */
  function Rounds(c: Ccu, k: nat): seq<Msg>
    requires c.numTargets <= |c.targets|
  {
    if k == 0 then [] else Rounds(c, k - 1) + Round(c, k, c.numTargets)
  }

  /** k iterations have been completed, and `sent` and `consumed` are what that takes. */
  ghost predicate At(w: Widths, c: Ccu, c': Ccu, k: nat, sent: seq<Msg>, consumed: nat)
    requires Launched(w, c)
  {
    && CcuOk(w, c')
    && c' == c.(value := ValueAt(c, k), state := c'.state, received := c'.received, dispatchIdx := c'.dispatchIdx)
    && match c'.state
       case Idle => false
       case Running =>
         HasIteration(c, k) && c'.received < Need(c) && c'.dispatchIdx == 0
         && consumed == Iterations(c, k) + c'.received && sent == Rounds(c, k)
       case Dispatching =>
         k > 0 && HasIteration(c, k) && c'.dispatchIdx < c.numTargets
         && consumed == Iterations(c, k) && sent == Rounds(c, k - 1) + Round(c, k, c'.dispatchIdx)
       case Complete =>
         k > 0 && HasIteration(c, k - 1) && ValueAt(c, k) >= c.upper
         && consumed == Iterations(c, k) && sent == Rounds(c, k - 1)
  }

  /** Completions that k iterations consume. */
  function Iterations(c: Ccu, k: nat): nat {
    if k == 0 then 0 else Iterations(c, k - 1) + Need(c)
  }

  lemma ChildStep(w: Widths, c: Ccu, c': Ccu, k: nat, sent: seq<Msg>, consumed: nat)
    requires Launched(w, c) && At(w, c, c', k, sent, consumed) && c'.state.Running?
    ensures At(w, c, Completed(w, c'), if c'.received + 1 < Need(c) then k else k + 1, sent, consumed + 1)
  {
    if c'.received + 1 >= Need(c) {
      assert ValueAt(c, k + 1) == ValueAt(c, k) + c.step;
    }
  }

  lemma GrantStep(w: Widths, c: Ccu, c': Ccu, k: nat, sent: seq<Msg>, consumed: nat)
    requires Launched(w, c) && At(w, c, c', k, sent, consumed) && c'.state.Dispatching?
    ensures At(w, c, Dispatched(w, c'), k, sent + [MsgFor(c', c'.dispatchIdx)], consumed)
  {
    var i := c'.dispatchIdx;
    assert Round(c, k, i + 1) == Round(c, k, i) + [MsgFor(c', i)];
    assert sent + [MsgFor(c', i)] == Rounds(c, k - 1) + Round(c, k, i + 1);
  }

  lemma Step(w: Widths, c: Ccu, c': Ccu, e: Event, k: nat, sent: seq<Msg>, consumed: nat) returns (k': nat)
    requires Launched(w, c) && At(w, c, c', k, sent, consumed) && EventOk(c', e)
    ensures At(w, c, NextCcu(w, c', e), k', sent + (if e.Grant? then [MsgFor(c', c'.dispatchIdx)] else []),
               consumed + if e.Child? then 1 else 0)
  {
    k' := k;
    match e
    case Nothing =>
      assert sent + [] == sent;
    case Grant =>
      GrantStep(w, c, c', k, sent, consumed);
    case Child =>
      assert sent + [] == sent;
      ChildStep(w, c, c', k, sent, consumed);
      k' := if c'.received + 1 < Need(c) then k else k + 1;
  }

  /** A launched CCU runs its loop: at every moment it has consumed exactly the completions
      of k whole iterations and part of one more, and sent exactly the messages of the
      corresponding rounds, every target once per round in order. */
  lemma {:induction false} RunsItsLoop(w: Widths, c: Ccu, es: seq<Event>) returns (k: nat)
    requires Launched(w, c) && EventsOk(w, c, es)
    ensures At(w, c, Run(w, c, es), k, Sent(w, c, es), Consumed(es))
  {
    if es == [] {
      k := 0;
    } else {
      var n := |es| - 1;
      k := RunsItsLoop(w, c, es[..n]);
      k := Step(w, c, Run(w, c, es[..n]), es[n], k, Sent(w, c, es[..n]), Consumed(es[..n]));
    }
  }

  // ---- closed forms ----

  /** Iterations of the loop: ceil((upper - lower) / step), but at least one. */
  function Trips(c: Ccu): nat
    requires c.step > 0
  {
    if c.lower >= c.upper then 1 else Arith.CeilDiv(c.upper - c.lower, c.step)
  }

  lemma {:induction false} ValueIs(c: Ccu, k: nat)
    ensures ValueAt(c, k) == c.lower + k * c.step
    ensures Iterations(c, k) == k * Need(c)
  {
    if k > 0 {
      ValueIs(c, k - 1);
      assert k * c.step == (k - 1) * c.step + c.step;
      assert k * Need(c) == (k - 1) * Need(c) + Need(c);
    }
  }

  lemma {:induction false} RoundsLength(c: Ccu, k: nat)
    requires c.numTargets <= |c.targets|
    ensures |Rounds(c, k)| == k * c.numTargets
  {
    if k > 0 {
      RoundsLength(c, k - 1);
      assert k * c.numTargets == (k - 1) * c.numTargets + c.numTargets;
    }
  }

  /** Target t's message in round k. */
  lemma {:induction false} RoundAt(c: Ccu, k: nat, n: nat)
    requires n <= |c.targets|
    ensures forall t :: 0 <= t < n ==> Round(c, k, n)[t] == MsgFor(c.(value := ValueAt(c, k)), t)
  {
    if n > 0 {
      RoundAt(c, k, n - 1);
    }
  }

  /** Iteration k runs exactly when k is below the trip count. */
  lemma IterationExactly(c: Ccu, k: nat)
    requires c.step > 0
    ensures HasIteration(c, k) <==> k < Trips(c)
  {
    ValueIs(c, k);
    if c.lower >= c.upper {
      Arith.MulMono(0, k, c.step);
    } else {
      Arith.CeilDivAbove(c.upper - c.lower, c.step, k);
      Arith.CeilDivAbove(c.upper - c.lower, c.step, 0);
    }
  }

  /** The last iteration is the one whose successor reaches the upper bound. */
  lemma TripsIsLast(c: Ccu, k: nat)
    requires c.step > 0 && k > 0 && HasIteration(c, k - 1) && ValueAt(c, k) >= c.upper
    ensures k == Trips(c)
    ensures c.lower < c.upper ==> k == (c.upper - c.lower + c.step - 1) / c.step
  {
    IterationExactly(c, k);
    IterationExactly(c, k - 1);
    if c.lower < c.upper {
      Arith.CeilDivIs(c.upper - c.lower, c.step);
    }
  }

  /** A finished loop has consumed exactly childCount completions per iteration and made one
      dispatch round fewer than it has iterations; round k carried lower + k * step. */
  lemma FinishedLoop(w: Widths, c: Ccu, es: seq<Event>)
    requires Launched(w, c) && EventsOk(w, c, es) && Run(w, c, es).state.Complete?
    ensures Consumed(es) == Trips(c) * Need(c)
    ensures Sent(w, c, es) == Rounds(c, Trips(c) - 1)
    ensures |Sent(w, c, es)| == (Trips(c) - 1) * c.numTargets
  {
    var k := RunsItsLoop(w, c, es);
    TripsIsLast(c, k);
    ValueIs(c, k);
    RoundsLength(c, k - 1);
  }

  // ---- from the LAUNCH command ----

  /** A CCU that LAUNCH can start on a loop, whatever it was doing: it is a root or has
      targets, its counter cannot overflow and its target index can count its targets. */
  predicate Configured(w: Widths, c: Ccu) {
    && CcuOk(w, c) && c.step > 0 && 1 <= c.numTargets < w.idx
    && (if c.lower < c.upper then c.upper - 1 else c.lower) + c.step < w.value
  }

  /** LAUNCH starts every such CCU at its lower bound, and leaves an unconfigured one alone. */
  lemma LaunchStarts(w: Widths, c: Ccu)
    ensures Configured(w, c) ==> Launched(w, LaunchOne(c))
    ensures c.isRoot ==> LaunchOne(c).state.Running? && LaunchOne(c).value == c.lower
    ensures !c.isRoot && c.numTargets == 0 ==> LaunchOne(c) == c
  {
  }

  /** A launched loop is finished exactly when it has consumed all its completions. */
  lemma CompleteExactly(w: Widths, c: Ccu, es: seq<Event>)
    requires Launched(w, c) && EventsOk(w, c, es)
    ensures Consumed(es) <= Trips(c) * Need(c)
    ensures Run(w, c, es).state.Complete? <==> Consumed(es) == Trips(c) * Need(c)
  {
    var k := RunsItsLoop(w, c, es);
    ValueIs(c, k);
    if Run(w, c, es).state.Complete? {
      TripsIsLast(c, k);
    } else {
      IterationExactly(c, k);
      Arith.MulMono(k + 1, Trips(c), Need(c));
      assert (k + 1) * Need(c) == k * Need(c) + Need(c);
    }
  }

  lemma {:induction false} SameValues(c: Ccu, d: Ccu, k: nat)
    requires d.lower == c.lower && d.step == c.step
    ensures ValueAt(d, k) == ValueAt(c, k)
  {
    if k > 0 {
      SameValues(c, d, k - 1);
    }
  }

  lemma {:induction false} SameRoundsAt(c: Ccu, d: Ccu, k: nat, n: nat)
    requires d.lower == c.lower && d.step == c.step && d.targets == c.targets && n <= |c.targets|
    ensures Round(d, k, n) == Round(c, k, n)
  {
    SameValues(c, d, k);
    if n > 0 {
      SameRoundsAt(c, d, k, n - 1);
    }
  }

  /** The messages of a loop depend on its configuration only. */
  lemma {:induction false} SameRounds(c: Ccu, d: Ccu, k: nat)
    requires d.lower == c.lower && d.step == c.step && d.targets == c.targets && d.numTargets == c.numTargets
    requires c.numTargets <= |c.targets|
    ensures Rounds(d, k) == Rounds(c, k)
  {
    if k > 0 {
      SameRounds(c, d, k - 1);
      SameRoundsAt(c, d, k, c.numTargets);
    }
  }

  /** From a LAUNCH, whatever the CCU did before: the loop is finished exactly when all its
      completions are consumed, and by then it has sent the rounds of its configuration; and
      a second LAUNCH does the same again. */
  lemma LaunchRunsTheLoop(w: Widths, c: Ccu, es: seq<Event>)
    requires Configured(w, c) && EventsOk(w, LaunchOne(c), es)
    ensures var c' := Run(w, LaunchOne(c), es);
            && (c'.state.Complete? <==> Consumed(es) == Trips(c) * Need(c)) && Consumed(es) <= Trips(c) * Need(c)
            && (c'.state.Complete? ==> Sent(w, LaunchOne(c), es) == Rounds(c, Trips(c) - 1))
            && Configured(w, c') && LaunchOne(c') == LaunchOne(c)
  {
    LaunchStarts(w, c);
    var l := LaunchOne(c);
    CompleteExactly(w, l, es);
    var k := RunsItsLoop(w, l, es);
    if Run(w, l, es).state.Complete? {
      FinishedLoop(w, l, es);
      SameRounds(c, l, Trips(c) - 1);
    }
  }

  /** Where target t's message of round r is among all messages of a loop with n targets. */
  function Position(n: nat, r: nat, t: nat): nat
    requires 1 <= r
  {
    (r - 1) * n + t
  }

  /** The message a target gets when the loop's value is v. */
  function Due(t: Target, v: nat): Msg {
    if t.shadowOnly then Shadow(t.addr, v) else Reset(t.addr)
  }

  lemma RoundIsDue(c: Ccu, r: nat, t: nat)
    requires t < c.numTargets <= |c.targets|
    ensures Round(c, r, c.numTargets)[t] == Due(c.targets[t], c.lower + r * c.step)
  {
    RoundAt(c, r, c.numTargets);
    ValueIs(c, r);
  }

  lemma BehindAll<T>(before: seq<T>, last: seq<T>, t: nat)
    requires t < |last|
    ensures (before + last)[|before| + t] == last[t]
  {
  }

  /** A message of a loop, told from its bounds: target t's in round r. */
  lemma SentAt(w: Widths, c: Ccu, r: nat, t: nat)
    requires CcuOk(w, c) && 1 <= r && t < c.numTargets
    ensures Position(c.numTargets, r, t) < |Rounds(c, r)|
    ensures Rounds(c, r)[Position(c.numTargets, r, t)] == Due(c.targets[t], c.lower + r * c.step)
  {
    RoundsLength(c, r - 1);
    BehindAll(Rounds(c, r - 1), Round(c, r, c.numTargets), t);
    RoundIsDue(c, r, t);
  }

  lemma {:induction false} RoundsPrefix(c: Ccu, r: nat, k: nat)
    requires c.numTargets <= |c.targets| && r <= k
    ensures Rounds(c, r) <= Rounds(c, k)
  {
    if r < k {
      RoundsPrefix(c, r, k - 1);
    }
  }

  // ---- configuration commands ----

  /** CMD_LC_CONFIG_*: each addresses one CCU. */
  datatype Config =
    | Lower(v: nat) | Upper(v: nat) | Step(v: nat) | ChildCount(v: nat)
    | AddTarget(target: Target) | Parent(parent: nat, root: bool)

  /** A command and the CCU it is for. */
  datatype Command = Command(ccu: nat, config: Config)

  /** `ccu_config_target_idx` always equals the number of targets, so that a new target goes
      behind those already there. */
  predicate ConfigOk(w: Widths, c: Ccu, g: Config) {
    match g
    case Lower(v) => v < w.value
    case Step(v) => v < w.value
    case AddTarget(_) => c.numTargets < w.maxTargets && c.numTargets + 1 < w.count
    case _ => true
  }

  function ConfigureOne(w: Widths, c: Ccu, g: Config): (c': Ccu)
    requires CcuOk(w, c) && c.lower < w.value && ConfigOk(w, c, g)
    ensures CcuOk(w, c') && c'.lower < w.value
  {
    match g
    case Lower(v) => c.(lower := v, value := v)
    case Upper(v) => c.(upper := v)
    case Step(v) => c.(step := v)
    case ChildCount(v) => c.(childCount := v % w.count)
    case AddTarget(t) => c.(targets := c.targets[c.numTargets := t], numTargets := c.numTargets + 1)
    case Parent(p, root) => c.(parent := p, isRoot := root)
  }

  /** A CCU after reset. */
  function Blank(w: Widths): (c: Ccu)
    requires WidthsOk(w)
    ensures CcuOk(w, c)
  {
    Ccu(0, 0, 0, 0, Idle, 0, 0, seq(w.maxTargets, _ => Target(0, 0, false, false)), 0, 0, false, 0)
  }

  /** The CCU after some commands from reset, as far as they are well formed. */
  ghost function ConfiguredBy(w: Widths, gs: seq<Config>): (c: Ccu)
    requires WidthsOk(w)
    ensures CcuOk(w, c) && c.lower < w.value
  {
    if gs == [] then Blank(w)
    else
      var c := ConfiguredBy(w, gs[..|gs| - 1]);
      if ConfigOk(w, c, gs[|gs| - 1]) then ConfigureOne(w, c, gs[|gs| - 1]) else c
  }

  ghost predicate AllConfigOk(w: Widths, gs: seq<Config>)
    requires WidthsOk(w)
  {
    forall k :: 0 <= k < |gs| ==> ConfigOk(w, ConfiguredBy(w, gs[..k]), gs[k])
  }

  /** The last value written by the commands of one kind. */
  ghost function LowerOf(gs: seq<Config>): nat {
    if gs == [] then 0 else if gs[|gs| - 1].Lower? then gs[|gs| - 1].v else LowerOf(gs[..|gs| - 1])
  }

  ghost function UpperOf(gs: seq<Config>): nat {
    if gs == [] then 0 else if gs[|gs| - 1].Upper? then gs[|gs| - 1].v else UpperOf(gs[..|gs| - 1])
  }

  ghost function StepOf(gs: seq<Config>): nat {
    if gs == [] then 0 else if gs[|gs| - 1].Step? then gs[|gs| - 1].v else StepOf(gs[..|gs| - 1])
  }

  ghost function ChildCountOf(gs: seq<Config>): nat {
    if gs == [] then 0 else if gs[|gs| - 1].ChildCount? then gs[|gs| - 1].v else ChildCountOf(gs[..|gs| - 1])
  }

  /** The last parent written, and whether as a root. */
  ghost function ParentOf(gs: seq<Config>): (nat, bool) {
    if gs == [] then (0, false)
    else if gs[|gs| - 1].Parent? then (gs[|gs| - 1].parent, gs[|gs| - 1].root)
    else ParentOf(gs[..|gs| - 1])
  }

  /** All targets, in the order they were added. */
  ghost function TargetsOf(gs: seq<Config>): seq<Target> {
    if gs == [] then []
    else TargetsOf(gs[..|gs| - 1]) + if gs[|gs| - 1].AddTarget? then [gs[|gs| - 1].target] else []
  }

  /** A CCU holds what its commands say. */
  ghost predicate Holds(w: Widths, c: Ccu, gs: seq<Config>)
    requires WidthsOk(w)
  {
    && CcuOk(w, c) && c.lower == LowerOf(gs) && c.upper == UpperOf(gs) && c.step == StepOf(gs)
    && c.childCount == ChildCountOf(gs) % w.count && (c.parent, c.isRoot) == ParentOf(gs)
    && c.targets[..c.numTargets] == TargetsOf(gs)
  }

  lemma HoldsStep(w: Widths, c: Ccu, gs: seq<Config>)
    requires WidthsOk(w) && gs != [] && Holds(w, c, gs[..|gs| - 1]) && c.lower < w.value
    requires ConfigOk(w, c, gs[|gs| - 1])
    ensures Holds(w, ConfigureOne(w, c, gs[|gs| - 1]), gs)
  {
    var g := gs[|gs| - 1];
    if g.AddTarget? {
      var c' := ConfigureOne(w, c, g);
      assert c'.targets[..c'.numTargets] == c.targets[..c.numTargets] + [g.target];
    }
  }

  lemma {:induction false} ConfigHolds(w: Widths, gs: seq<Config>)
    requires WidthsOk(w) && AllConfigOk(w, gs)
    ensures Holds(w, ConfiguredBy(w, gs), gs) && ConfiguredBy(w, gs).state.Idle?
  {
    if gs == [] {
      Arith.DivModUnique(0, w.count, 0, 0);
    } else {
      var n := |gs| - 1;
      forall k | 0 <= k < n ensures ConfigOk(w, ConfiguredBy(w, gs[..n][..k]), gs[..n][k]) {
        assert gs[..n][..k] == gs[..k];
      }
      ConfigHolds(w, gs[..n]);
      assert ConfigOk(w, ConfiguredBy(w, gs[..n]), gs[n]);
      HoldsStep(w, ConfiguredBy(w, gs[..n]), gs);
    }
  }

  /** What the commands configure is a loop that can run. */
  ghost predicate Loops(w: Widths, gs: seq<Config>)
    requires WidthsOk(w)
  {
    && StepOf(gs) > 0 && 1 <= |TargetsOf(gs)| < w.idx
    && (if LowerOf(gs) < UpperOf(gs) then UpperOf(gs) - 1 else LowerOf(gs)) + StepOf(gs) < w.value
  }

  /** ceil((upper - lower) / step), and at least one. */
  ghost function TripsOf(gs: seq<Config>): nat
    requires StepOf(gs) > 0
  {
    if LowerOf(gs) >= UpperOf(gs) then 1 else (UpperOf(gs) - LowerOf(gs) + StepOf(gs) - 1) / StepOf(gs)
  }

  /** The completions one iteration awaits. */
  ghost function NeedOf(w: Widths, gs: seq<Config>): nat
    requires WidthsOk(w)
  {
    if ChildCountOf(gs) % w.count == 0 then 1 else ChildCountOf(gs) % w.count
  }

  lemma TripsAre(c: Ccu)
    requires c.step > 0
    ensures Trips(c) == if c.lower >= c.upper then 1 else (c.upper - c.lower + c.step - 1) / c.step
  {
    if c.lower < c.upper {
      Arith.CeilDivIs(c.upper - c.lower, c.step);
    }
  }

  /** A CCU that holds these commands is launched on their loop. */
  lemma HeldLoop(w: Widths, c: Ccu, gs: seq<Config>)
    requires WidthsOk(w) && Holds(w, c, gs) && Loops(w, gs)
    ensures Launched(w, LaunchOne(c)) && LaunchOne(c).numTargets == |TargetsOf(gs)|
    ensures Trips(LaunchOne(c)) == TripsOf(gs) && Need(LaunchOne(c)) == NeedOf(w, gs)
    ensures forall t :: 0 <= t < |TargetsOf(gs)| ==> LaunchOne(c).targets[t] == TargetsOf(gs)[t]
  {
    assert |TargetsOf(gs)| == c.numTargets;
    LaunchStarts(w, c);
    TripsAre(LaunchOne(c));
  }

  /** A launched CCU from its configuration commands on is complete exactly when it has
      consumed trips * need completions. */
  lemma FinishesFromCommands(w: Widths, gs: seq<Config>, es: seq<Event>)
    requires WidthsOk(w) && AllConfigOk(w, gs) && Loops(w, gs)
    requires EventsOk(w, LaunchOne(ConfiguredBy(w, gs)), es)
    ensures Consumed(es) <= TripsOf(gs) * NeedOf(w, gs)
    ensures Run(w, LaunchOne(ConfiguredBy(w, gs)), es).state.Complete? <==>
              Consumed(es) == TripsOf(gs) * NeedOf(w, gs)
  {
    ConfigHolds(w, gs);
    HeldLoop(w, ConfiguredBy(w, gs), gs);
    CompleteExactly(w, LaunchOne(ConfiguredBy(w, gs)), es);
  }

  /** And every message it has sent is the one due: round by round, each target in the order
      it was added, with that round's value. */
  lemma SendsFromCommands(w: Widths, gs: seq<Config>, es: seq<Event>, r: nat, t: nat)
    requires WidthsOk(w) && AllConfigOk(w, gs) && Loops(w, gs)
    requires EventsOk(w, LaunchOne(ConfiguredBy(w, gs)), es) && 1 <= r && t < |TargetsOf(gs)|
    requires Position(|TargetsOf(gs)|, r, t) < |Sent(w, LaunchOne(ConfiguredBy(w, gs)), es)|
    ensures Sent(w, LaunchOne(ConfiguredBy(w, gs)), es)[Position(|TargetsOf(gs)|, r, t)]
         == Due(TargetsOf(gs)[t], LowerOf(gs) + r * StepOf(gs))
  {
    ConfigHolds(w, gs);
    HeldLoop(w, ConfiguredBy(w, gs), gs);
    var c := LaunchOne(ConfiguredBy(w, gs));
    var k := RunsItsLoop(w, c, es);
    SentIsDue(w, c, Run(w, c, es), Sent(w, c, es), Consumed(es), k, r, t);
  }

  lemma SentIsDue(w: Widths, c: Ccu, c': Ccu, sent: seq<Msg>, consumed: nat, k: nat, r: nat, t: nat)
    requires Launched(w, c) && At(w, c, c', k, sent, consumed)
    requires t < c.numTargets && 1 <= r && Position(c.numTargets, r, t) < |sent|
    ensures sent[Position(c.numTargets, r, t)] == Due(c.targets[t], c.lower + r * c.step)
  {
    var last := if k > 0 then k else 1;
    SentPrefix(w, c, c', k, sent, consumed);
    RoundsLength(c, last);
    RoundOf(c.numTargets, last, r, t);
    RoundsPrefix(c, r, last);
    SentAt(w, c, r, t);
  }

  lemma RoundOf(n: nat, k: nat, r: nat, t: nat)
    requires 1 <= r && t < n && Position(n, r, t) < k * n
    ensures r <= k
  {
    if r > k { Arith.MulMono(k, r - 1, n); }
  }

  lemma {:induction false} RoundGrows(c: Ccu, k: nat, i: nat, n: nat)
    requires i <= n <= |c.targets|
    ensures Round(c, k, i) <= Round(c, k, n)
  {
    if i < n {
      RoundGrows(c, k, i, n - 1);
    }
  }

  lemma SentPrefix(w: Widths, c: Ccu, c': Ccu, k: nat, sent: seq<Msg>, consumed: nat)
    requires Launched(w, c) && At(w, c, c', k, sent, consumed)
    ensures sent <= Rounds(c, if k > 0 then k else 1)
  {
    if c'.state.Dispatching? {
      RoundGrows(c, k, c'.dispatchIdx, c.numTargets);
    } else if c'.state.Running? && k == 0 {
      assert sent == [];
    } else if c'.state.Complete? {
      RoundsPrefix(c, k - 1, k);
    }
  }

  /** When the number of targets is the number of index values, the round never ends: every
      handshake leaves the CCU dispatching. */
  lemma FullTargetsNeverFinish(w: Widths, c: Ccu)
    requires CcuOk(w, c) && c.state.Dispatching? && c.dispatchIdx < c.numTargets
    ensures c.numTargets == w.idx && c.numTargets > 0 ==> Dispatched(w, c).state.Dispatching?
    ensures c.numTargets < w.idx ==>
      (Dispatched(w, c).state.Running? <==> c.dispatchIdx == c.numTargets - 1)
  {
  }

  // ---- several CCUs ----

  /** Wires of one cycle: the messages from the tiles and from other CGRAs, and the two outputs'
      readiness. */
  datatype Input = Input(tileVal: bool, tileComplete: bool, tileAddr: nat, remoteVal: bool, remoteComplete: bool,
                         sendTileRdy: bool, sendRemoteRdy: bool)

  predicate AllOk(w: Widths, cs: seq<Ccu>) {
    WidthsOk(w) && forall k :: 0 <= k < |cs| ==> CcuOk(w, cs[k])
  }

  /** No parents: every CCU is a root or has no targets. */
  predicate Independent(cs: seq<Ccu>) {
    forall k :: 0 <= k < |cs| ==> cs[k].isRoot || cs[k].numTargets == 0
  }

  /** The first CCU, from i on, that is dispatching, or |cs|. */
  function Active(cs: seq<Ccu>, i: nat): (a: nat)
    requires i <= |cs|
    ensures i <= a <= |cs| && (a < |cs| ==> cs[a].state.Dispatching?)
    ensures forall k :: i <= k < a ==> !cs[k].state.Dispatching?
    decreases |cs| - i
  {
    if i == |cs| || cs[i].state.Dispatching? then i else Active(cs, i + 1)
  }

  /** What is offered, and where. */
  datatype Dispatch = NoDispatch | ToTile(msg: Msg) | ToRemote(msg: Msg)

  /** The active CCU's message to its current target. */
  function DispatchOf(w: Widths, cs: seq<Ccu>): Dispatch
    requires AllOk(w, cs)
  {
    var a := Active(cs, 0);
    if a == |cs| then NoDispatch
    else if cs[a].targets[cs[a].dispatchIdx].remote then ToRemote(MsgFor(cs[a], cs[a].dispatchIdx))
    else ToTile(MsgFor(cs[a], cs[a].dispatchIdx))
  }

  predicate SentNow(w: Widths, cs: seq<Ccu>, i: Input)
    requires AllOk(w, cs)
  {
    match DispatchOf(w, cs)
    case NoDispatch => false
    case ToTile(_) => i.sendTileRdy
    case ToRemote(_) => i.sendRemoteRdy
  }

  /** CCU c has a local leaf target at this address. */
  predicate OwnsLeaf(w: Widths, c: Ccu, addr: nat)
    requires CcuOk(w, c)
  {
    exists t :: 0 <= t < c.numTargets && !c.targets[t].remote && !c.targets[t].shadowOnly && c.targets[t].addr == addr
  }

  /** A running CCU counts completions from its own leaves. */
  predicate Matches(w: Widths, c: Ccu, addr: nat)
    requires CcuOk(w, c)
  {
    c.state.Running? && OwnsLeaf(w, c, addr)
  }

  /** `recv_from_tile.rdy`: a completion waits until a CCU can count it. */
  predicate TileRdy(w: Widths, cs: seq<Ccu>, i: Input)
    requires AllOk(w, cs)
  {
    i.tileVal && (i.tileComplete ==> exists k :: 0 <= k < |cs| && Matches(w, cs[k], i.tileAddr))
  }

  /** A loop of another CGRA has completed. */
  predicate RemoteEvent(i: Input) {
    i.remoteVal && i.remoteComplete
  }

  /** `recv_from_remote.rdy`: such a completion waits until any CCU runs. */
  predicate RemoteRdy(cs: seq<Ccu>, i: Input) {
    i.remoteVal && (i.remoteComplete ==> exists k :: 0 <= k < |cs| && cs[k].state.Running?)
  }

  /** A completion counted at CCU k: its own leaf's, or any remote one. */
  predicate CountsAt(w: Widths, cs: seq<Ccu>, i: Input, k: nat)
    requires AllOk(w, cs) && k < |cs|
  {
    (i.tileVal && i.tileComplete && Matches(w, cs[k], i.tileAddr)) || (RemoteEvent(i) && cs[k].state.Running?)
  }

  function EventOf(w: Widths, cs: seq<Ccu>, i: Input, k: nat): Event
    requires AllOk(w, cs) && k < |cs|
  {
    if k == Active(cs, 0) then if SentNow(w, cs, i) then Grant else Nothing
    else if CountsAt(w, cs, i, k) then Child
    else Nothing
  }

  /** The active CCU ends its round: CCUs that name it as parent restart. */
  predicate Restarts(w: Widths, cs: seq<Ccu>, i: Input, k: nat)
    requires AllOk(w, cs) && k < |cs|
  {
    var a := Active(cs, 0);
    && SentNow(w, cs, i) && Dispatched(w, cs[a]).state.Running?
    && !cs[k].isRoot && cs[k].parent == a
  }

  // ---- with parents ----

  /** A completion counted at a CCU: its old registers decide, its next ones change; this is
      `Completed` when nothing else changed them. */
  function Count(w: Widths, was: Ccu, c: Ccu): (c': Ccu)
    requires CcuOk(w, was) && CcuOk(w, c)
    ensures CcuOk(w, c') && c'.lower == c.lower && c'.isRoot == c.isRoot && c'.parent == c.parent
    ensures c'.numTargets == c.numTargets && c'.targets == c.targets
  {
    var n := Arith.Wrap(was.received + 1, w.count);
    if n < was.childCount then c.(received := n)
    else
      var v := Arith.Wrap(was.value + was.step, w.value);
      if v >= was.upper then c.(received := n, value := v, state := Complete)
      else c.(received := n, value := v, state := Dispatching, dispatchIdx := 0)
  }

  /** This completion finishes the CCU's loop. */
  predicate Finishes(w: Widths, c: Ccu)
    requires CcuOk(w, c)
  {
    Completed(w, c).state.Complete?
  }

  predicate ParentsOk(cs: seq<Ccu>) {
    forall k :: 0 <= k < |cs| ==> cs[k].parent < |cs|
  }

  /** CCU k's registers as far as dispatching goes. */
  function AdvancedOne(w: Widths, cs: seq<Ccu>, i: Input, k: nat): (c: Ccu)
    requires AllOk(w, cs) && k < |cs| && cs[k].lower < w.value
    ensures CcuOk(w, c) && c.lower == cs[k].lower && c.isRoot == cs[k].isRoot && c.parent == cs[k].parent
    ensures c.numTargets == cs[k].numTargets
  {
    if Restarts(w, cs, i, k) then cs[k].(state := Running, value := cs[k].lower, received := 0, dispatchIdx := 0)
    else if k == Active(cs, 0) && SentNow(w, cs, i) then Dispatched(w, cs[k])
    else cs[k]
  }

  function Advance(w: Widths, cs: seq<Ccu>, i: Input): (r: seq<Ccu>)
    requires AllOk(w, cs) && LowersOk(w, cs)
    ensures |r| == |cs| && AllOk(w, r)
  {
    seq(|cs|, k requires 0 <= k < |cs| => AdvancedOne(w, cs, i, k))
  }

  /** Without parents a CCU dispatches or counts by itself. */
  function NextOne(w: Widths, cs: seq<Ccu>, i: Input, k: nat): (c: Ccu)
    requires AllOk(w, cs) && k < |cs| && cs[k].lower < w.value
    ensures CcuOk(w, c) && c.lower == cs[k].lower && c.isRoot == cs[k].isRoot && c.numTargets == cs[k].numTargets
    ensures cs[k].isRoot ==> c == NextCcu(w, cs[k], EventOf(w, cs, i, k))
  {
    var c := AdvancedOne(w, cs, i, k);
    if CountsAt(w, cs, i, k) then Count(w, cs[k], c) else c
  }

  /** The first n CCUs have looked at a completion from this leaf; later assignments win, and
      a CCU that finishes tells its parent. */
  function Counted(w: Widths, cs: seq<Ccu>, addr: nat, next: seq<Ccu>, n: nat): (r: seq<Ccu>)
    requires AllOk(w, cs) && AllOk(w, next) && ParentsOk(cs) && n <= |cs| == |next|
    ensures |r| == |cs| && AllOk(w, r)
    ensures forall k :: 0 <= k < |cs| ==> SameConfig(r[k], next[k])
  {
    if n == 0 then next
    else
      var r := Counted(w, cs, addr, next, n - 1);
      var k := n - 1;
      if !Matches(w, cs[k], addr) then r
      else
        var r1 := r[k := Count(w, cs[k], r[k])];
        if Finishes(w, cs[k]) && !cs[k].isRoot
        then r1[cs[k].parent := Count(w, cs[cs[k].parent], r1[cs[k].parent])]
        else r1
  }

  predicate SameConfig(c: Ccu, d: Ccu) {
    c.lower == d.lower && c.isRoot == d.isRoot && c.parent == d.parent && c.numTargets == d.numTargets
  }

  /** A remote completion is counted by every running CCU. */
  function CountedRemote(w: Widths, cs: seq<Ccu>, next: seq<Ccu>): (r: seq<Ccu>)
    requires AllOk(w, cs) && AllOk(w, next) && |next| == |cs|
    ensures |r| == |cs| && AllOk(w, r)
    ensures forall k :: 0 <= k < |cs| ==> SameConfig(r[k], next[k])
  {
    seq(|cs|, k requires 0 <= k < |cs| => if cs[k].state.Running? then Count(w, cs[k], next[k]) else next[k])
  }

  /** After the dispatch, completions from the tiles, then from other CGRAs. */
  function CountedLocal(w: Widths, cs: seq<Ccu>, i: Input): (r: seq<Ccu>)
    requires AllOk(w, cs) && LowersOk(w, cs) && ParentsOk(cs)
    ensures |r| == |cs| && AllOk(w, r) && LowersOk(w, r) && ParentsOk(r)
  {
    if i.tileVal && i.tileComplete then Counted(w, cs, i.tileAddr, Advance(w, cs, i), |cs|) else Advance(w, cs, i)
  }

  /** The edge of a controller whose CCUs may have parents. */
  function NextAny(w: Widths, cs: seq<Ccu>, i: Input): (cs': seq<Ccu>)
    requires AllOk(w, cs) && LowersOk(w, cs) && ParentsOk(cs)
    ensures |cs'| == |cs| && AllOk(w, cs') && LowersOk(w, cs') && ParentsOk(cs')
  {
    if RemoteEvent(i) then CountedRemote(w, cs, CountedLocal(w, cs, i)) else CountedLocal(w, cs, i)
  }

  /** Counting twice in a cycle counts once: both read the same registers. */
  lemma CountTwice(w: Widths, was: Ccu, c: Ccu)
    requires CcuOk(w, was) && CcuOk(w, c)
    ensures Count(w, was, Count(w, was, c)) == Count(w, was, c)
  {
  }

  lemma {:induction false} CountedAlone(w: Widths, cs: seq<Ccu>, addr: nat, next: seq<Ccu>, n: nat)
    requires AllOk(w, cs) && AllOk(w, next) && ParentsOk(cs) && Independent(cs) && n <= |cs| == |next|
    ensures forall k :: 0 <= k < |cs| ==>
      Counted(w, cs, addr, next, n)[k] == if k < n && Matches(w, cs[k], addr) then Count(w, cs[k], next[k]) else next[k]
  {
    if n > 0 {
      CountedAlone(w, cs, addr, next, n - 1);
      assert Matches(w, cs[n - 1], addr) ==> cs[n - 1].isRoot;
    }
  }

  /** Without parents it is the edge of the independent CCUs. */
  lemma IndependentNext(w: Widths, cs: seq<Ccu>, i: Input)
    requires AllOk(w, cs) && LowersOk(w, cs) && ParentsOk(cs) && Independent(cs)
    ensures NextAny(w, cs, i) == Next(w, cs, i) && Independent(NextAny(w, cs, i))
  {
    forall k | 0 <= k < |cs|
      ensures NextAny(w, cs, i)[k] == NextOne(w, cs, i, k) && NextOne(w, cs, i, k).numTargets == cs[k].numTargets
    {
      CountedAlone(w, cs, i.tileAddr, Advance(w, cs, i), |cs|);
      CountTwice(w, cs[k], AdvancedOne(w, cs, i, k));
    }
  }

  lemma {:induction false} CountedElsewhere(w: Widths, cs: seq<Ccu>, addr: nat, next: seq<Ccu>, n: nat, k: nat)
    requires AllOk(w, cs) && AllOk(w, next) && ParentsOk(cs) && n <= |cs| == |next| && k < |cs|
    requires Matches(w, cs[k], addr) && forall j :: 0 <= j < |cs| && Matches(w, cs[j], addr) ==> j == k
    ensures Counted(w, cs, addr, next, n) == if n <= k then next else Counted(w, cs, addr, next, k + 1)
  {
    if n > 0 {
      CountedElsewhere(w, cs, addr, next, n - 1, k);
    }
  }

  /** A loop that finishes is one completion of its parent's loop, counted in the same cycle
      by a parent that neither dispatches nor is restarted in it. */
  lemma ChildCountsAtParent(w: Widths, cs: seq<Ccu>, i: Input, k: nat)
    requires AllOk(w, cs) && LowersOk(w, cs) && ParentsOk(cs) && DisjointLeaves(w, cs) && i.tileVal && i.tileComplete
    requires k < |cs| && Matches(w, cs[k], i.tileAddr) && !cs[k].isRoot && cs[k].parent != k
    requires cs[cs[k].parent].state.Running? && !Restarts(w, cs, i, cs[k].parent) && !Restarts(w, cs, i, k)
    ensures NextAny(w, cs, i)[k] == Completed(w, cs[k])
    ensures NextAny(w, cs, i)[cs[k].parent]
      == if Completed(w, cs[k]).state.Complete? || RemoteEvent(i)
         then Completed(w, cs[cs[k].parent])
         else cs[cs[k].parent]
  {
    var p := cs[k].parent;
    var advanced := Advance(w, cs, i);
    forall j | 0 <= j < |cs| && Matches(w, cs[j], i.tileAddr) ensures j == k {
      CountedByOwnerOnly(w, cs, i, k, j);
    }
    CountedElsewhere(w, cs, i.tileAddr, advanced, |cs|, k);
    CountedElsewhere(w, cs, i.tileAddr, advanced, k, k);
    assert advanced[k] == cs[k] && advanced[p] == cs[p];
    CountTwice(w, cs[k], cs[k]);
    CountTwice(w, cs[p], cs[p]);
  }

  /** A remote completion is counted by every running CCU, whoever it was meant for; and one
      that arrives together with a leaf's is taken but not counted. */
  lemma RemoteCompletions(w: Widths, cs: seq<Ccu>, i: Input, k: nat)
    requires AllOk(w, cs) && LowersOk(w, cs) && ParentsOk(cs) && Independent(cs) && RemoteEvent(i)
    requires k < |cs| && cs[k].isRoot && cs[k].state.Running?
    ensures RemoteRdy(cs, i) && NextAny(w, cs, i)[k] == Completed(w, cs[k])
    ensures i.tileVal && i.tileComplete && Matches(w, cs[k], i.tileAddr) ==> TileRdy(w, cs, i)
  {
    IndependentNext(w, cs, i);
  }

  predicate LowersOk(w: Widths, cs: seq<Ccu>) {
    forall k :: 0 <= k < |cs| ==> cs[k].lower < w.value
  }

  function Next(w: Widths, cs: seq<Ccu>, i: Input): (cs': seq<Ccu>)
    requires AllOk(w, cs) && LowersOk(w, cs)
    ensures |cs'| == |cs| && AllOk(w, cs')
    ensures LowersOk(w, cs')
  {
    seq(|cs|, k requires 0 <= k < |cs| => NextOne(w, cs, i, k))
  }

  ghost function RunAll(w: Widths, cs: seq<Ccu>, ins: seq<Input>): (cs': seq<Ccu>)
    requires AllOk(w, cs) && LowersOk(w, cs)
    ensures AllOk(w, cs') && LowersOk(w, cs') && |cs'| == |cs|
  {
    if ins == [] then cs else Next(w, RunAll(w, cs, ins[..|ins| - 1]), ins[|ins| - 1])
  }

  /** What happens to CCU k over the run. */
  ghost function EventsOf(w: Widths, cs: seq<Ccu>, ins: seq<Input>, k: nat): (es: seq<Event>)
    requires AllOk(w, cs) && LowersOk(w, cs) && k < |cs|
    ensures |es| == |ins|
  {
    if ins == [] then []
    else
      var n := |ins| - 1;
      EventsOf(w, cs, ins[..n], k) + [EventOf(w, RunAll(w, cs, ins[..n]), ins[n], k)]
  }

  /** Among independent CCUs, each root does exactly what it would do alone: the others only
      decide when its dispatch handshakes happen. */
  lemma {:induction false} Projects(w: Widths, cs: seq<Ccu>, ins: seq<Input>, k: nat)
    requires AllOk(w, cs) && LowersOk(w, cs) && k < |cs| && cs[k].isRoot
    ensures RunAll(w, cs, ins)[k] == Run(w, cs[k], EventsOf(w, cs, ins, k))
    ensures EventsOk(w, cs[k], EventsOf(w, cs, ins, k))
  {
    if ins != [] {
      var n := |ins| - 1;
      Projects(w, cs, ins[..n], k);
      var es := EventsOf(w, cs, ins, k);
      assert es[..n] == EventsOf(w, cs, ins[..n], k);
      StaysRoot(w, cs[k], es[..n]);
    }
  }

  lemma {:induction false} StaysRoot(w: Widths, c: Ccu, es: seq<Event>)
    requires CcuOk(w, c)
    ensures Run(w, c, es).isRoot == c.isRoot && Run(w, c, es).targets == c.targets
  {
    if es != [] {
      StaysRoot(w, c, es[..|es| - 1]);
    }
  }

  /** No leaf address belongs to two CCUs. */
  ghost predicate DisjointLeaves(w: Widths, cs: seq<Ccu>)
    requires AllOk(w, cs)
  {
    forall i, j, addr :: 0 <= i < j < |cs| && OwnsLeaf(w, cs[i], addr) ==> !OwnsLeaf(w, cs[j], addr)
  }

  /** With disjoint leaves a completion is accepted exactly when its owner is running, and
      then the owner, and no other CCU, counts it. */
  lemma CountedByOwnerOnly(w: Widths, cs: seq<Ccu>, i: Input, k: nat, j: nat)
    requires AllOk(w, cs) && DisjointLeaves(w, cs) && i.tileVal && i.tileComplete
    requires k < |cs| && j < |cs| && OwnsLeaf(w, cs[k], i.tileAddr)
    ensures TileRdy(w, cs, i) <==> cs[k].state.Running?
    ensures EventOf(w, cs, i, j).Child? <==> (j == k || RemoteEvent(i)) && cs[j].state.Running?
  {
    assert OwnsLeaf(w, cs[j], i.tileAddr) ==> j == k;
    assert cs[k].state.Running? ==> Matches(w, cs[k], i.tileAddr);
  }

  /** `all_loops_complete`. */
  predicate AllLoopsComplete(cs: seq<Ccu>) {
    forall k :: 0 <= k < |cs| && cs[k].isRoot ==> cs[k].state.Complete? || cs[k].state.Idle?
  }

  /** The completion signal means what it says: every launched root has run all of its loop. */
  lemma AllCompleteMeansFinished(w: Widths, cs: seq<Ccu>, ins: seq<Input>, k: nat)
    requires AllOk(w, cs) && LowersOk(w, cs) && k < |cs| && cs[k].isRoot && Launched(w, cs[k])
    requires AllLoopsComplete(RunAll(w, cs, ins))
    ensures Consumed(EventsOf(w, cs, ins, k)) == Trips(cs[k]) * Need(cs[k])
    ensures Sent(w, cs[k], EventsOf(w, cs, ins, k)) == Rounds(cs[k], Trips(cs[k]) - 1)
  {
    assert Consumed(EventsOf(w, cs, ins, k)) == Trips(cs[k]) * Need(cs[k]) by {
      CompleteRoot(w, cs, ins, k);
      FinishedLoop(w, cs[k], EventsOf(w, cs, ins, k));
    }
    assert Sent(w, cs[k], EventsOf(w, cs, ins, k)) == Rounds(cs[k], Trips(cs[k]) - 1) by {
      CompleteRoot(w, cs, ins, k);
      FinishedLoop(w, cs[k], EventsOf(w, cs, ins, k));
    }
  }

  lemma CompleteRoot(w: Widths, cs: seq<Ccu>, ins: seq<Input>, k: nat)
    requires AllOk(w, cs) && LowersOk(w, cs) && k < |cs| && cs[k].isRoot && Launched(w, cs[k])
    requires AllLoopsComplete(RunAll(w, cs, ins))
    ensures EventsOk(w, cs[k], EventsOf(w, cs, ins, k))
    ensures Run(w, cs[k], EventsOf(w, cs, ins, k)).state.Complete?
  {
    Projects(w, cs, ins, k);
    var es := EventsOf(w, cs, ins, k);
    StaysRoot(w, cs[k], es);
    StaysLaunched(w, cs[k], es);
    assert RunAll(w, cs, ins)[k].isRoot;
  }

  /** LAUNCH: every CCU at once. */
  function LaunchAll(w: Widths, cs: seq<Ccu>): (r: seq<Ccu>)
    requires AllOk(w, cs) && LowersOk(w, cs)
    ensures |r| == |cs| && AllOk(w, r) && LowersOk(w, r)
  {
    seq(|cs|, k requires 0 <= k < |cs| => LaunchOne(cs[k]))
  }

  /** After a LAUNCH of configured roots the completion signal is up exactly when every root
      has consumed all the completions of its loop. */
  lemma SignalExactly(w: Widths, cs: seq<Ccu>, ins: seq<Input>)
    requires AllOk(w, cs) && LowersOk(w, cs) && forall k :: 0 <= k < |cs| && cs[k].isRoot ==> Configured(w, cs[k])
    ensures AllLoopsComplete(RunAll(w, LaunchAll(w, cs), ins)) <==>
              forall k :: 0 <= k < |cs| && cs[k].isRoot ==>
                Configured(w, cs[k]) && Consumed(EventsOf(w, LaunchAll(w, cs), ins, k)) == Trips(cs[k]) * Need(cs[k])
  {
    var ls := LaunchAll(w, cs);
    var now := RunAll(w, ls, ins);
    forall k | 0 <= k < |cs|
      ensures now[k].isRoot == cs[k].isRoot
      ensures cs[k].isRoot ==>
                Configured(w, cs[k]) && !now[k].state.Idle?
                && (now[k].state.Complete? <==> Consumed(EventsOf(w, ls, ins, k)) == Trips(cs[k]) * Need(cs[k]))
    {
      RootStays(w, ls, ins, k);
      if cs[k].isRoot {
        Projects(w, ls, ins, k);
        LaunchStarts(w, cs[k]);
        LaunchRunsTheLoop(w, cs[k], EventsOf(w, ls, ins, k));
        StaysLaunched(w, ls[k], EventsOf(w, ls, ins, k));
      }
    }
  }

  lemma {:induction false} RootStays(w: Widths, cs: seq<Ccu>, ins: seq<Input>, k: nat)
    requires AllOk(w, cs) && LowersOk(w, cs) && k < |cs|
    ensures RunAll(w, cs, ins)[k].isRoot == cs[k].isRoot
  {
    if ins != [] {
      RootStays(w, cs, ins[..|ins| - 1], k);
    }
  }

  lemma StaysLaunched(w: Widths, c: Ccu, es: seq<Event>)
    requires Launched(w, c) && EventsOk(w, c, es)
    ensures !Run(w, c, es).state.Idle?
  {
    var n := RunsItsLoop(w, c, es);
  }

  // ---- the register-level controller ----

  class LoopControllerRTL {
    const widths: Widths
    var ccus: seq<Ccu>

    ghost predicate Valid()
      reads this
    {
      AllOk(widths, ccus) && LowersOk(widths, ccus)
    }

    constructor (w: Widths, n: nat)
      requires WidthsOk(w)
      ensures Valid() && widths == w && ccus == seq(n, _ => Blank(w))
    {
      widths, ccus := w, seq(n, _ => Blank(w));
    }

    /** A configuration command for one CCU. */
    method Configure(cmd: Command)
      requires Valid() && cmd.ccu < |ccus| && ConfigOk(widths, ccus[cmd.ccu], cmd.config)
      modifies this
      ensures Valid() && |ccus| == old(|ccus|)
      ensures ccus == old(ccus)[cmd.ccu := ConfigureOne(widths, old(ccus[cmd.ccu]), cmd.config)]
    {
      var k, c := cmd.ccu, ccus[cmd.ccu];
      match cmd.config {
        case Lower(v) => c := c.(lower := v, value := v);
        case Upper(v) => c := c.(upper := v);
        case Step(v) => c := c.(step := v);
        case ChildCount(v) => c := c.(childCount := v % widths.count);
        case AddTarget(t) => c := c.(targets := c.targets[c.numTargets := t], numTargets := c.numTargets + 1);
        case Parent(p, root) => c := c.(parent := p, isRoot := root);
      }
      ccus := ccus[k := c];
    }

    /** CMD_LC_LAUNCH: every configured CCU starts at its lower bound. */
    method Launch()
      requires Valid()
      modifies this
      ensures Valid() && ccus == LaunchAll(widths, old(ccus))
    {
      ghost var before := ccus;
      for i := 0 to |ccus|
        invariant |ccus| == |before|
        invariant forall k :: 0 <= k < i ==> ccus[k] == LaunchOne(before[k])
        invariant forall k :: i <= k < |ccus| ==> ccus[k] == before[k]
      {
        if ccus[i].numTargets != 0 || ccus[i].isRoot {
          ccus := ccus[i := ccus[i].(state := Running, value := ccus[i].lower, received := 0, dispatchIdx := 0)];
        }
      }
    }

    /** The priority encoder. */
    method FindActive() returns (a: nat)
      ensures a == Active(ccus, 0)
    {
      a := 0;
      while a < |ccus| && !ccus[a].state.Dispatching?
        invariant a <= |ccus| && Active(ccus, 0) == Active(ccus, a)
      {
        a := a + 1;
      }
    }

    method MatchesOne(c: Ccu, addr: nat) returns (found: bool)
      requires CcuOk(widths, c)
      ensures found <==> Matches(widths, c, addr)
    {
      found := false;
      if c.state.Running? {
        for t := 0 to widths.maxTargets
          invariant found <==> exists u :: && 0 <= u < t && u < c.numTargets && !c.targets[u].remote
                                           && !c.targets[u].shadowOnly && c.targets[u].addr == addr
        {
          if t < c.numTargets && !c.targets[t].remote && !c.targets[t].shadowOnly && c.targets[t].addr == addr {
            found := true;
          }
        }
      }
    }

    /** Dispatch progress: the active CCU moves on, and at the end of its round restarts the
        CCUs below it. */
    method AdvanceDispatch(i: Input) returns (next: seq<Ccu>)
      requires Valid()
      ensures next == Advance(widths, ccus, i)
    {
      next := ccus;
      var a := FindActive();
      if a < |ccus| {
        var c := ccus[a];
        var sent := if c.targets[c.dispatchIdx].remote then i.sendRemoteRdy else i.sendTileRdy;
        if sent {
          var nextIdx := Arith.Wrap(c.dispatchIdx + 1, widths.idx);
          if nextIdx < c.numTargets {
            next := next[a := c.(dispatchIdx := nextIdx)];
          } else {
            next := next[a := c.(dispatchIdx := 0, state := Running, received := 0)];
            for k := 0 to |ccus|
              invariant |next| == |ccus|
              invariant forall j :: 0 <= j < k ==> next[j] == AdvancedOne(widths, ccus, i, j)
              invariant forall j :: k <= j < |ccus| ==> next[j] == if j == a then Dispatched(widths, c) else ccus[j]
            {
              if !ccus[k].isRoot && ccus[k].parent == a {
                next := next[k := ccus[k].(state := Running, value := ccus[k].lower, received := 0, dispatchIdx := 0)];
              }
            }
          }
        }
      }
    }

    /** Tile events: every running CCU that owns the leaf counts the completion, and tells its
        parent if that was its last. */
    method CountCompletion(i: Input, advanced: seq<Ccu>) returns (event: bool, next: seq<Ccu>)
      requires Valid() && ParentsOk(ccus) && |advanced| == |ccus| && AllOk(widths, advanced)
      ensures event <==> exists k :: 0 <= k < |ccus| && Matches(widths, ccus[k], i.tileAddr)
      ensures next == Counted(widths, ccus, i.tileAddr, advanced, |ccus|)
    {
      event, next := false, advanced;
      for k := 0 to |ccus|
        invariant event <==> exists j :: 0 <= j < k && Matches(widths, ccus[j], i.tileAddr)
        invariant next == Counted(widths, ccus, i.tileAddr, advanced, k)
      {
        var hit := MatchesOne(ccus[k], i.tileAddr);
        if hit {
          event := true;
          next := next[k := Count(widths, ccus[k], next[k])];
          var finished := Completed(widths, ccus[k]);
          if finished.state.Complete? && !ccus[k].isRoot {
            var p := ccus[k].parent;
            next := next[p := Count(widths, ccus[p], next[p])];
          }
        }
      }
    }

    /** Remote events: every running CCU counts. */
    method CountRemote(counted: seq<Ccu>) returns (event: bool, next: seq<Ccu>)
      requires Valid() && |counted| == |ccus| && AllOk(widths, counted)
      ensures event <==> exists k :: 0 <= k < |ccus| && ccus[k].state.Running?
      ensures next == CountedRemote(widths, ccus, counted)
    {
      event, next := false, counted;
      for k := 0 to |ccus|
        invariant event <==> exists j :: 0 <= j < k && ccus[j].state.Running?
        invariant |next| == |ccus|
        invariant forall j :: 0 <= j < k ==> next[j] == CountedRemote(widths, ccus, counted)[j]
        invariant forall j :: k <= j < |ccus| ==> next[j] == counted[j]
      {
        if ccus[k].state.Running? {
          event := true;
          next := next[k := Count(widths, ccus[k], next[k])];
        }
      }
    }

    /** The message on offer. */
    method Offer() returns (dispatch: Dispatch)
      requires Valid()
      ensures dispatch == DispatchOf(widths, ccus)
    {
      var a := FindActive();
      dispatch := NoDispatch;
      if a < |ccus| {
        var c := ccus[a];
        var target := c.targets[c.dispatchIdx];
        var msg := if target.shadowOnly then Shadow(target.addr, c.value) else Reset(target.addr);
        dispatch := if target.remote then ToRemote(msg) else ToTile(msg);
      }
    }

    /** `all_loops_complete`. */
    method Finished() returns (all: bool)
      ensures all == AllLoopsComplete(ccus)
    {
      all := true;
      for k := 0 to |ccus|
        invariant all <==> forall j :: 0 <= j < k && ccus[j].isRoot ==> ccus[j].state.Complete? || ccus[j].state.Idle?
      {
        if ccus[k].isRoot && !ccus[k].state.Complete? && !ccus[k].state.Idle? {
          all := false;
        }
      }
    }

    /** Returns the message on offer, `recv_from_tile.rdy`, `recv_from_remote.rdy` and
        `all_loops_complete`. */
    method Clock(i: Input) returns (dispatch: Dispatch, tileRdy: bool, remoteRdy: bool, all: bool)
      requires Valid() && ParentsOk(ccus)
      modifies this
      ensures dispatch == DispatchOf(widths, old(ccus)) && all == AllLoopsComplete(old(ccus))
      ensures tileRdy <==> TileRdy(widths, old(ccus), i)
      ensures remoteRdy <==> RemoteRdy(old(ccus), i)
      ensures Valid() && ParentsOk(ccus) && ccus == NextAny(widths, old(ccus), i)
    {
      dispatch := Offer();
      all := Finished();
      var next := AdvanceDispatch(i);
      var event, remote := false, false;
      if i.tileVal && i.tileComplete {
        event, next := CountCompletion(i, next);
      }
      if i.remoteVal && i.remoteComplete {
        remote, next := CountRemote(next);
      }
      tileRdy := i.tileVal && (event || !i.tileComplete);
      remoteRdy := i.remoteVal && (remote || !i.remoteComplete);
      ccus := next;
    }
  }
}
