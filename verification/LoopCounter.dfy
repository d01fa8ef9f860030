/** The loop-counter FU (fu/single/LoopCounterRTL.py): per control address a leaf counter
    and a shadow register.  A leaf delivers its range with predicate 1, then delivers
    predicate 0 and reports completion once, until the loop controller resets it. */
module LoopCounter {
  import Arith

  /** The registers of one control address. */
  datatype Slot = Slot(lower: nat, upper: nat, step: nat, value: nat, done: bool, shadow: nat, shadowValid: bool)

  datatype Op = LoopCount | LoopDelivery | OtherOp

  datatype Cmd =
    | NoCmd
    | ResetLeaf(addr: nat)
    | UpdateShadow(addr: nat, v: nat)
    | ConfigLower(addr: nat, v: nat)
    | ConfigUpper(addr: nat, v: nat)
    | ConfigStep(addr: nat, v: nat)
    | Rearm

  /** Wires of one cycle: the operation and its control address, the consumers' readiness,
      and the command from the control memory. */
  datatype Input = Input(optVal: bool, op: Op, addr: nat, outRdy: bool, msgRdy: bool, cmd: Cmd, clear: bool)

  /** `w` is the number of payload values. */
  predicate SlotOk(w: nat, s: Slot) {
    s.value < w && s.step < w && s.lower < w
  }

  predicate CmdOk(w: nat, c: Cmd) {
    match c
    case ConfigLower(_, v) => v < w
    case ConfigStep(_, v) => v < w
    case _ => true
  }

  predicate InputOk(w: nat, i: Input) {
    w > 0 && CmdOk(w, i.cmd)
  }

  predicate Terminated(s: Slot) {
    s.value >= s.upper
  }

  /** Address a's leaf counter is being executed. */
  predicate Counting(i: Input, a: nat) {
    i.optVal && i.op.LoopCount? && i.addr == a
  }

  /** A predicate-1 result leaves. */
  predicate Emits(s: Slot, i: Input, a: nat) {
    Counting(i, a) && i.outRdy && !Terminated(s)
  }

  predicate MsgVal(s: Slot, i: Input, a: nat) {
    Counting(i, a) && Terminated(s) && !s.done
  }

  /** The completion message leaves. */
  predicate Reports(s: Slot, i: Input, a: nat) {
    MsgVal(s, i, a) && i.msgRdy
  }

  /** What an operation puts out: a value with predicate 1, or a token with predicate 0. */
  datatype Token = Value(v: nat) | Void

  /** The count operation at a completes, its completion message gone or leaving. */
  predicate Counted(s: Slot, i: Input, a: nat) {
    Counting(i, a) && i.outRdy && (MsgVal(s, i, a) ==> i.msgRdy)
  }

  /** The delivery operation at b completes. */
  predicate Fetched(s: Slot, i: Input, b: nat) {
    i.optVal && i.op.LoopDelivery? && i.addr == b && s.shadowValid && i.outRdy
  }

  /** The wires of the cycle: what is put out and whether it is valid, the completion message,
      and whether the operation completes. */
  datatype Wires = Wires(val: bool, out: Token, msgVal: bool, optRdy: bool)

  function WiresOf(s: Slot, i: Input): (o: Wires)
    ensures o.optRdy <==> Counted(s, i, i.addr) || Fetched(s, i, i.addr)
    ensures o.val && i.outRdy && o.out.Value? <==> Emits(s, i, i.addr) || Fetched(s, i, i.addr)
    ensures o.msgVal && i.msgRdy <==> Reports(s, i, i.addr)
    ensures !i.optVal || i.op.OtherOp? ==> !o.val && !o.msgVal && !o.optRdy
  {
    if !i.optVal || i.op.OtherOp? || (i.op.LoopDelivery? && !s.shadowValid) then Wires(false, Void, false, false)
    else if i.op.LoopDelivery? then Wires(true, Value(s.shadow), false, i.outRdy)
    else if !Terminated(s) then Wires(true, Value(s.value), false, i.outRdy)
    else Wires(true, Void, !s.done, if s.done then i.outRdy else i.msgRdy && i.outRdy)
  }

  /** A configuration or shadow command addressed to a. */
  function ConfigureSlot(s: Slot, c: Cmd, a: nat): Slot {
    match c
    case ConfigLower(b, v) => if a == b then s.(lower := v, value := v) else s
    case ConfigUpper(b, v) => if a == b then s.(upper := v) else s
    case ConfigStep(b, v) => if a == b then s.(step := v) else s
    case UpdateShadow(b, v) => if a == b then s.(shadow := v, shadowValid := true) else s
    case _ => s
  }

  /** Execution, from the registers s, over what configuration left. */
  function ExecuteSlot(w: nat, s: Slot, configured: Slot, i: Input, a: nat): Slot
    requires SlotOk(w, s)
  {
    configured.(value := if Emits(s, i, a) then Arith.Wrap(s.value + s.step, w) else configured.value,
                done := configured.done || Reports(s, i, a))
  }

  /** The loop controller's reset, to the lower bound held in s. */
  function ResetSlot(s: Slot, executed: Slot, c: Cmd, a: nat): Slot {
    if c == ResetLeaf(a) then executed.(value := s.lower, done := false) else executed
  }

  function ClearSlot(s: Slot, rearm: bool): Slot {
    if rearm then Slot(s.lower, s.upper, s.step, s.lower, false, 0, false) else Slot(0, 0, 0, 0, false, 0, false)
  }

  /** Later assignments win: a reset outranks an advance, which outranks configuration. */
  function NextSlot(w: nat, s: Slot, i: Input, a: nat): (s': Slot)
    requires InputOk(w, i) && SlotOk(w, s)
    ensures SlotOk(w, s')
  {
    if i.clear || i.cmd.Rearm? then ClearSlot(s, i.cmd.Rearm?)
    else ResetSlot(s, ExecuteSlot(w, s, ConfigureSlot(s, i.cmd, a), i, a), i.cmd, a)
  }

  predicate SlotsOk(w: nat, ss: seq<Slot>) {
    forall a :: 0 <= a < |ss| ==> SlotOk(w, ss[a])
  }

  function Next(w: nat, ss: seq<Slot>, i: Input): (ss': seq<Slot>)
    requires InputOk(w, i) && SlotsOk(w, ss)
    ensures |ss'| == |ss| && SlotsOk(w, ss')
  {
    seq(|ss|, a requires 0 <= a < |ss| => NextSlot(w, ss[a], i, a))
  }

  // ---- the range a leaf stands for ----

  function ValueAt(s: Slot, j: nat): nat {
    if j == 0 then s.lower else ValueAt(s, j - 1) + s.step
  }

  function Range(s: Slot, j: nat): (r: seq<nat>)
    ensures |r| == j
  {
    if j == 0 then [] else Range(s, j - 1) + [ValueAt(s, j - 1)]
  }

  /** Every value before the j-th is inside the range. */
  predicate Inside(s: Slot, j: nat) {
    j == 0 || ValueAt(s, j - 1) < s.upper
  }

  /** Counts up without overflowing. */
  predicate Counts(w: nat, s: Slot) {
    SlotOk(w, s) && s.step > 0 && (s.lower < s.upper ==> s.upper - 1 + s.step < w)
  }

  function Trips(s: Slot): nat
    requires s.step > 0
  {
    if s.lower >= s.upper then 0 else Arith.CeilDiv(s.upper - s.lower, s.step)
  }

  lemma {:induction false} ValueIs(s: Slot, j: nat)
    ensures ValueAt(s, j) == s.lower + j * s.step
  {
    if j > 0 {
      ValueIs(s, j - 1);
      assert j * s.step == (j - 1) * s.step + s.step;
    }
  }

  /** The j-th value is inside the range exactly when j is below the trip count. */
  lemma InsideExactly(s: Slot, j: nat)
    requires s.step > 0
    ensures ValueAt(s, j) < s.upper <==> j < Trips(s)
  {
    ValueIs(s, j);
    if s.lower >= s.upper {
      Arith.MulMono(0, j, s.step);
    } else {
      Arith.CeilDivAbove(s.upper - s.lower, s.step, j);
    }
  }

  /** A leaf that stops after j values has delivered all of its range:
      ceil((upper - lower) / step) values. */
  lemma TripsIsLast(s: Slot, j: nat)
    requires s.step > 0 && Inside(s, j) && ValueAt(s, j) >= s.upper
    ensures j == Trips(s)
    ensures s.lower < s.upper ==> j == (s.upper - s.lower + s.step - 1) / s.step
  {
    InsideExactly(s, j);
    if j > 0 {
      InsideExactly(s, j - 1);
    }
    if s.lower < s.upper {
      Arith.CeilDivIs(s.upper - s.lower, s.step);
    }
  }

  // ---- runs of one control address ----

  predicate Inputs(w: nat, es: seq<Input>) {
    forall t :: 0 <= t < |es| ==> InputOk(w, es[t])
  }

  ghost function Run(w: nat, s: Slot, es: seq<Input>, a: nat): (s': Slot)
    requires SlotOk(w, s) && Inputs(w, es)
    ensures SlotOk(w, s')
  {
    if es == [] then s else NextSlot(w, Run(w, s, es[..|es| - 1], a), es[|es| - 1], a)
  }

  /** What the count operation at a puts out in a cycle with these wires. */
  function Delivery(o: Wires, i: Input, a: nat): seq<nat> {
    if Counting(i, a) && o.val && i.outRdy && o.out.Value? then [o.out.v] else []
  }

  /** Values delivered since the last reset, read off the wires. */
  ghost function Emitted(w: nat, s: Slot, es: seq<Input>, a: nat): seq<nat>
    requires SlotOk(w, s) && Inputs(w, es)
  {
    if es == [] || es[|es| - 1].cmd == ResetLeaf(a) then []
    else
      var i := es[|es| - 1];
      Emitted(w, s, es[..|es| - 1], a) + Delivery(WiresOf(Run(w, s, es[..|es| - 1], a), i), i, a)
  }

  /** Completion messages sent for a since the last reset. */
  ghost function Reported(w: nat, s: Slot, es: seq<Input>, a: nat): nat
    requires SlotOk(w, s) && Inputs(w, es)
  {
    if es == [] || es[|es| - 1].cmd == ResetLeaf(a) then 0
    else
      var i := es[|es| - 1];
      var o := WiresOf(Run(w, s, es[..|es| - 1], a), i);
      Reported(w, s, es[..|es| - 1], a) + if Counting(i, a) && o.msgVal && i.msgRdy then 1 else 0
  }

  // ---- a leaf between resets ----

  /** No configuration; commands for other addresses are allowed. */
  predicate NoConfig(w: nat, i: Input, a: nat) {
    && InputOk(w, i) && !i.clear && !i.cmd.Rearm?
    && (i.cmd.ConfigLower? || i.cmd.ConfigUpper? || i.cmd.ConfigStep? ==> i.cmd.addr != a)
  }

  predicate Configured(w: nat, es: seq<Input>, a: nat) {
    Inputs(w, es) && forall t :: 0 <= t < |es| ==> NoConfig(w, es[t], a)
  }

  /** The leaf has delivered j values since its last reset. */
  predicate LeafAt(s: Slot, s': Slot, j: nat) {
    && s'.lower == s.lower && s'.upper == s.upper && s'.step == s.step
    && s'.value == ValueAt(s, j) && Inside(s, j) && (s'.done ==> Terminated(s'))
  }

  lemma LeafStep(w: nat, s: Slot, s': Slot, i: Input, a: nat, j: nat)
    requires Counts(w, s) && SlotOk(w, s') && LeafAt(s, s', j) && NoConfig(w, i, a)
    ensures LeafAt(s, NextSlot(w, s', i, a), if i.cmd == ResetLeaf(a) then 0 else if Emits(s', i, a) then j + 1 else j)
  {
    if Emits(s', i, a) {
      InsideBelow(s, j);
      assert ValueAt(s, j + 1) == s'.value + s.step;
    }
  }

  lemma {:induction false} InsideBelow(s: Slot, j: nat)
    requires ValueAt(s, j) < s.upper
    ensures s.lower < s.upper
  {
    if j > 0 {
      InsideBelow(s, j - 1);
    }
  }

  /** What a leaf has put out since its last reset is a prefix of its range, and its completion
      went out exactly if it is done. */
  ghost predicate Delivered(s: Slot, s': Slot, out: seq<nat>, sent: nat) {
    LeafAt(s, s', |out|) && out == Range(s, |out|) && sent == if s'.done then 1 else 0
  }

  lemma DeliverStep(w: nat, s: Slot, s': Slot, out: seq<nat>, sent: nat, i: Input, a: nat)
    requires Counts(w, s) && SlotOk(w, s') && NoConfig(w, i, a) && Delivered(s, s', out, sent)
    ensures if i.cmd == ResetLeaf(a) then Delivered(s, NextSlot(w, s', i, a), [], 0)
            else Delivered(s, NextSlot(w, s', i, a), out + Delivery(WiresOf(s', i), i, a),
                           sent + if Counting(i, a) && WiresOf(s', i).msgVal && i.msgRdy then 1 else 0)
  {
    LeafStep(w, s, s', i, a, |out|);
    assert out + [] == out;
  }

  /** Since its last reset a leaf has delivered a prefix of its range, in order, each value
      once; it has reported completion at most once, and only after the whole range. */
  lemma {:induction false} DeliversRange(w: nat, s: Slot, es: seq<Input>, a: nat)
    requires Counts(w, s) && s.value == s.lower && !s.done && Configured(w, es, a)
    ensures Delivered(s, Run(w, s, es, a), Emitted(w, s, es, a), Reported(w, s, es, a))
    ensures Reported(w, s, es, a) == 1 ==> Emitted(w, s, es, a) == Range(s, Trips(s))
  {
    if es != [] {
      var n := |es| - 1;
      DeliversRange(w, s, es[..n], a);
      DeliverStep(w, s, Run(w, s, es[..n], a), Emitted(w, s, es[..n], a), Reported(w, s, es[..n], a), es[n], a);
    }
    if Run(w, s, es, a).done {
      TripsIsLast(s, |Emitted(w, s, es, a)|);
    }
  }

  // ---- from reset on, under any commands ----

  const CLEARED: Slot := Slot(0, 0, 0, 0, false, 0, false)

  /** The bounds of address a: what was last written to each since the last clear. */
  datatype Bounds = Bounds(lower: nat, upper: nat, step: nat)

  ghost function Written(es: seq<Input>, a: nat): Bounds {
    if es == [] then Bounds(0, 0, 0)
    else
      var b := Written(es[..|es| - 1], a);
      var i := es[|es| - 1];
      if i.cmd == Rearm then b
      else if i.clear then Bounds(0, 0, 0)
      else match i.cmd
        case ConfigLower(c, v) => if c == a then b.(lower := v) else b
        case ConfigUpper(c, v) => if c == a then b.(upper := v) else b
        case ConfigStep(c, v) => if c == a then b.(step := v) else b
        case _ => b
  }

  /** The shadow value that reached a since the last clear or rearm. */
  ghost function Received(es: seq<Input>, a: nat): Token {
    if es == [] || es[|es| - 1].clear || es[|es| - 1].cmd.Rearm? then Void
    else
      var cmd := es[|es| - 1].cmd;
      if cmd.UpdateShadow? && cmd.addr == a then Value(cmd.v) else Received(es[..|es| - 1], a)
  }

  /** Nothing counted at a since it was cleared, rearmed or reset. */
  ghost predicate Primed(es: seq<Input>, a: nat) {
    || es == [] || es[|es| - 1].clear || es[|es| - 1].cmd == Rearm || es[|es| - 1].cmd == ResetLeaf(a)
    || (!Counting(es[|es| - 1], a) && Primed(es[..|es| - 1], a))
  }

  /** The registers s are what the commands es tell. */
  ghost predicate Follows(s: Slot, es: seq<Input>, a: nat) {
    && Bounds(s.lower, s.upper, s.step) == Written(es, a)
    && (if s.shadowValid then Value(s.shadow) else Void) == Received(es, a)
    && (Primed(es, a) ==> s.value == s.lower && !s.done)
  }

  lemma FollowStep(w: nat, es: seq<Input>, s: Slot, a: nat)
    requires SlotOk(w, s) && Inputs(w, es) && es != [] && InputOk(w, es[|es| - 1]) && Follows(s, es[..|es| - 1], a)
    ensures Follows(NextSlot(w, s, es[|es| - 1], a), es, a)
  {
  }

  /** The registers after any run from reset, told from the commands alone. */
  lemma {:induction false} RegistersFollow(w: nat, es: seq<Input>, a: nat)
    requires w > 0 && Inputs(w, es)
    ensures Follows(Run(w, CLEARED, es, a), es, a)
  {
    if es != [] {
      RegistersFollow(w, es[..|es| - 1], a);
      FollowStep(w, es, Run(w, CLEARED, es[..|es| - 1], a), a);
    }
  }

  /** A delivery operation waits for a shadow value and then puts it out, every time it
      executes, until the next one arrives. */
  lemma {:induction false} DeliversShadow(w: nat, es: seq<Input>, i: Input)
    requires w > 0 && Inputs(w, es) && i.optVal && i.op.LoopDelivery?
    ensures var o := WiresOf(Run(w, CLEARED, es, i.addr), i);
            && (o.val <==> Received(es, i.addr) != Void)
            && (o.val ==> o.out == Received(es, i.addr))
            && (o.optRdy <==> o.val && i.outRdy) && !o.msgVal
  {
    RegistersFollow(w, es, i.addr);
  }

  /** The leaf of some bounds, at its start. */
  function LeafOf(b: Bounds): Slot {
    Slot(b.lower, b.upper, b.step, b.lower, false, 0, false)
  }

  lemma {:induction false} SameRange(s: Slot, t: Slot, j: nat)
    requires s.lower == t.lower && s.upper == t.upper && s.step == t.step
    ensures ValueAt(s, j) == ValueAt(t, j) && Range(s, j) == Range(t, j) && (Inside(s, j) <==> Inside(t, j))
    ensures s.step > 0 ==> Trips(s) == Trips(t)
  {
    if j > 0 {
      SameRange(s, t, j - 1);
    }
  }

  /** The wires of a leaf with j values delivered and this many completions sent. */
  function DueWires(leaf: Slot, j: nat, sent: nat, i: Input): Wires
    requires leaf.step > 0
  {
    if j < Trips(leaf) then Wires(true, Value(ValueAt(leaf, j)), false, i.outRdy)
    else Wires(true, Void, sent == 0, i.outRdy && (sent == 0 ==> i.msgRdy))
  }

  /** From the registers s: values out, completions sent, and the wires of the next cycle. */
  ghost predicate Delivers(w: nat, leaf: Slot, s: Slot, es: seq<Input>, i: Input)
    requires SlotOk(w, s) && Inputs(w, es) && leaf.step > 0
  {
    var out, sent := Emitted(w, s, es, i.addr), Reported(w, s, es, i.addr);
    && |out| <= Trips(leaf) && out == Range(leaf, |out|) && sent <= 1
    && (sent == 1 ==> |out| == Trips(leaf))
    && (Counting(i, i.addr) ==> WiresOf(Run(w, s, es, i.addr), i) == DueWires(leaf, |out|, sent, i))
  }

  lemma WiresDue(leaf: Slot, s: Slot, i: Input, j: nat)
    requires leaf.step > 0 && LeafAt(leaf, s, j)
    ensures j <= Trips(leaf)
    ensures Counting(i, i.addr) ==> WiresOf(s, i) == DueWires(leaf, j, if s.done then 1 else 0, i)
  {
    InsideExactly(leaf, j);
    if j > 0 { InsideExactly(leaf, j - 1); }
  }

  lemma LeafDelivers(w: nat, leaf: Slot, s: Slot, es: seq<Input>, i: Input)
    requires Counts(w, leaf) && SlotOk(w, s) && s.lower == leaf.lower && s.upper == leaf.upper && s.step == leaf.step
    requires s.value == s.lower && !s.done && Configured(w, es, i.addr)
    ensures Delivers(w, leaf, s, es, i)
  {
    DeliversRange(w, s, es, i.addr);
    var j := |Emitted(w, s, es, i.addr)|;
    SameRange(s, leaf, j);
    WiresDue(leaf, Run(w, s, es, i.addr), i, j);
  }

  /** A leaf from its configuration commands on: after any commands us that leave it primed,
      and while it is not reconfigured, it delivers the range of the bounds last written, and
      its wires tell what is due next. */
  lemma DeliversConfigured(w: nat, us: seq<Input>, es: seq<Input>, i: Input)
    requires w > 0 && Inputs(w, us) && Primed(us, i.addr) && Configured(w, es, i.addr)
    requires Counts(w, LeafOf(Written(us, i.addr)))
    ensures Delivers(w, LeafOf(Written(us, i.addr)), Run(w, CLEARED, us, i.addr), es, i)
  {
    RegistersFollow(w, us, i.addr);
    LeafDelivers(w, LeafOf(Written(us, i.addr)), Run(w, CLEARED, us, i.addr), es, i);
  }

  // ---- the register-level counter ----

  class LoopCounterRTL {
    const width: nat
    var slots: seq<Slot>

    ghost predicate Valid()
      reads this
    {
      width > 0 && SlotsOk(width, slots)
    }

    constructor (width: nat, addrs: nat)
      requires width > 0
      ensures Valid() && this.width == width && slots == seq(addrs, _ => CLEARED)
    {
      this.width := width;
      slots := seq(addrs, _ => CLEARED);
    }

    /** The clear signal, or a rearm, which keeps the leaf's configuration. */
    method ClearAll(rearm: bool)
      requires Valid()
      modifies this
      ensures |slots| == old(|slots|)
      ensures forall a :: 0 <= a < |slots| ==> slots[a] == ClearSlot(old(slots[a]), rearm)
    {
      ghost var before := slots;
      for a := 0 to |slots|
        invariant |slots| == |before|
        invariant forall b :: 0 <= b < a ==> slots[b] == ClearSlot(before[b], rearm)
        invariant forall b :: a <= b < |slots| ==> slots[b] == before[b]
      {
        var s := slots[a];
        if rearm {
          slots := slots[a := Slot(s.lower, s.upper, s.step, s.lower, false, 0, false)];
        } else {
          slots := slots[a := Slot(0, 0, 0, 0, false, 0, false)];
        }
      }
    }

    method Configure(c: Cmd)
      requires !c.NoCmd? && !c.Rearm? ==> c.addr < |slots|
      modifies this
      ensures |slots| == old(|slots|)
      ensures forall a :: 0 <= a < |slots| ==> slots[a] == ConfigureSlot(old(slots[a]), c, a)
    {
      match c
      case ConfigLower(a, v) => slots := slots[a := slots[a].(lower := v, value := v)];
      case ConfigUpper(a, v) => slots := slots[a := slots[a].(upper := v)];
      case ConfigStep(a, v) => slots := slots[a := slots[a].(step := v)];
      case UpdateShadow(a, v) => slots := slots[a := slots[a].(shadow := v, shadowValid := true)];
      case _ =>
    }

    method Execute(i: Input, s: Slot)
      requires width > 0 && i.addr < |slots| && SlotOk(width, s)
      modifies this
      ensures |slots| == old(|slots|)
      ensures forall a :: 0 <= a < |slots| && a != i.addr ==> slots[a] == old(slots[a])
      ensures slots[i.addr] == ExecuteSlot(width, s, old(slots[i.addr]), i, i.addr)
    {
      var counting := i.optVal && i.op == LoopCount;
      if counting && i.outRdy && s.value < s.upper {
        slots := slots[i.addr := slots[i.addr].(value := Arith.Wrap(s.value + s.step, width))];
      }
      if counting && s.value >= s.upper && !s.done && i.msgRdy {
        slots := slots[i.addr := slots[i.addr].(done := true)];
      }
    }

    /** The combinational block. */
    method Drive(i: Input) returns (wires: Wires)
      requires i.addr < |slots|
      ensures wires == WiresOf(slots[i.addr], i)
    {
      var s := slots[i.addr];
      var terminated := s.value >= s.upper;
      wires := Wires(false, Void, false, false);
      if i.optVal {
        if i.op == LoopCount {
          wires := wires.(val := true, out := if terminated then Void else Value(s.value), optRdy := i.outRdy);
          if terminated && !s.done {
            wires := wires.(msgVal := true, optRdy := i.msgRdy && i.outRdy);
          }
        } else if i.op == LoopDelivery {
          if s.shadowValid {
            wires := wires.(val := true, out := Value(s.shadow), optRdy := i.outRdy);
          }
        }
      }
    }

    method Clock(i: Input) returns (wires: Wires)
      requires Valid() && InputOk(width, i) && i.addr < |slots|
      requires !i.cmd.NoCmd? && !i.cmd.Rearm? ==> i.cmd.addr < |slots|
      modifies this
      ensures Valid() && slots == Next(width, old(slots), i)
      ensures wires == WiresOf(old(slots[i.addr]), i)
    {
      ghost var before := slots;
      wires := Drive(i);
      if i.clear || i.cmd.Rearm? {
        ClearAll(i.cmd.Rearm?);
      } else {
        var s := slots[i.addr];
        var lower := if i.cmd.ResetLeaf? then slots[i.cmd.addr].lower else 0;
        Configure(i.cmd);
        Execute(i, s);
        if i.cmd.ResetLeaf? {
          slots := slots[i.cmd.addr := slots[i.cmd.addr].(value := lower, done := false)];
        }
      }
      forall a | 0 <= a < |slots| ensures slots[a] == NextSlot(width, before[a], i, a) {}
    }
  }
}
