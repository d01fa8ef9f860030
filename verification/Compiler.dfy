/** Control-word generation (validation/script_generator.py, class InstructionSignals):
    one instruction of the compiler's IR, a set of operations that share a tile and a
    control step, becomes one control word.

    This module says what an instruction means, what a control word means to the tile's
    crossbars and register cluster, and how `Build` allocates lanes, ports and register
    banks.  CompilerProofs shows when the two meanings agree. */
module Compiler {

  datatype Dir = North | South | West | East

  /** `direction_to_idx`. */
  function Index(d: Dir): (i: nat)
    ensures i < 4
  {
    match d
    case North => 0
    case South => 1
    case West => 2
    case East => 3
  }

  datatype Operand = Reg(n: nat) | Port(dir: Dir) | Imm(value: int)

  datatype Opcode = Mov | Store | Other(name: string)

  datatype Operation = Operation(opcode: Opcode, srcs: seq<Operand>, dsts: seq<Operand>, timeStep: nat)

  datatype Const = Const(value: int, timeStep: nat)

  /** A translation step either yields a value or raises. */
  datatype Result<+T> = Ok(value: T) | Raised {
    predicate IsFailure() { Raised? }
    function PropagateFailure<U>(): Result<U>
      requires Raised?
    {
      Raised
    }
    function Extract(): T
      requires Ok?
    {
      value
    }
  }

  /** FU inputs (and register banks), tile ports, registers per bank. */
  datatype Shape = Shape(lanes: nat, ports: nat, regs: nat)

  predicate ShapeOk(h: Shape) {
    h.lanes > 0 && h.ports >= 4 && h.regs > 0
  }

  function Bank(h: Shape, n: nat): nat
    requires ShapeOk(h)
  {
    n / h.regs
  }

  function Slot(h: Shape, n: nat): nat
    requires ShapeOk(h)
  {
    n % h.regs
  }

  datatype Feed = Unfed | FedByPort | FedByReg

  /** The signals under construction; 0 stands for an unset crossbar or shuffle code,
      -1 for an unset register index.
      - tileIn[j]: what routing-crossbar output j takes (ports first, then lanes)
      - fuOut[j]: whether FU-crossbar output j takes the FU's result
      - shuffle[k]: the lane, plus one, that FU operand k reads */
  datatype Signals = Signals(tileIn: seq<nat>, fuOut: seq<nat>, readFu: seq<bool>, readXbar: seq<bool>,
                             fed: seq<Feed>, readIdx: seq<int>, writeFrom: seq<nat>, writeIdx: seq<int>,
                             shuffle: seq<nat>)

  const FROM_NOWHERE: nat := 0
  const FROM_PORT: nat := 1
  const FROM_FU: nat := 2

  predicate SignalsOk(h: Shape, s: Signals) {
    && ShapeOk(h) && |s.tileIn| == |s.fuOut| == h.ports + h.lanes
    && |s.readFu| == |s.readXbar| == |s.fed| == |s.readIdx| == |s.writeFrom| == |s.writeIdx| == |s.shuffle| == h.lanes
  }

  function Blank(h: Shape): (s: Signals)
    requires ShapeOk(h)
    ensures SignalsOk(h, s)
  {
    var all, lanes := h.ports + h.lanes, h.lanes;
    Signals(seq(all, _ => 0), seq(all, _ => 0), seq(lanes, _ => false), seq(lanes, _ => false),
            seq(lanes, _ => Unfed), seq(lanes, _ => -1), seq(lanes, _ => FROM_NOWHERE), seq(lanes, _ => -1),
            seq(lanes, _ => 0))
  }

  // ---- classification ----

  predicate AllPorts(ds: seq<Operand>) {
    forall i :: 0 <= i < |ds| ==> ds[i].Port?
  }

  /** `_is_take_up_fu_operation`. */
  function TakesFu(op: Operation): Result<bool> {
    if !op.opcode.Mov? then Ok(true)
    else if |op.srcs| != 1 then Raised
    else if op.srcs[0].Port? then Ok(false)
    else Ok(!(op.dsts != [] && AllPorts(op.dsts)))
  }

  predicate IsMove(op: Operation) {
    TakesFu(op) == Ok(false)
  }

  predicate IsFu(op: Operation) {
    TakesFu(op) == Ok(true)
  }

  function Select(ops: seq<Operation>, fu: bool): seq<Operation> {
    if ops == [] then []
    else (if TakesFu(ops[0]) == Ok(fu) then [ops[0]] else []) + Select(ops[1..], fu)
  }

  /** `_take_up_fu_operation_idx_of`: no malformed move, and at most one FU operation. */
  predicate WellFormed(ops: seq<Operation>) {
    (forall i :: 0 <= i < |ops| ==> TakesFu(ops[i]).Ok?) && |Select(ops, true)| <= 1
  }

  // ---- operands ----

  /** STORE wants the address first; the IR gives the data first. */
  function Swapped(op: Operation): seq<Operand> {
    if op.opcode.Store? && |op.srcs| >= 2 then [op.srcs[1], op.srcs[0]] + op.srcs[2..] else op.srcs
  }

  /** Deleting immediates while walking the list: each deletion makes the walk skip the
      element that slides into its place. */
  function StripImms(s: seq<Operand>, i: nat): seq<Operand>
    requires i <= |s|
    decreases |s| - i
  {
    if i == |s| then s
    else if !s[i].Imm? then StripImms(s, i + 1)
    else
      var s' := s[..i] + s[i + 1..];
      if i + 1 <= |s'| then StripImms(s', i + 1) else s'
  }

  function NonImms(s: seq<Operand>): seq<Operand> {
    if s == [] then [] else (if s[0].Imm? then [] else [s[0]]) + NonImms(s[1..])
  }

  function Sources(op: Operation): seq<Operand> {
    StripImms(Swapped(op), 0)
  }

  // ---- moves that do not take the FU ----

  function CheckRegMove(h: Shape, s: Signals, n: nat): Result<()>
    requires SignalsOk(h, s)
  {
    var b := Bank(h, n);
    if b >= h.lanes then Raised
    else if s.readXbar[b] && s.readIdx[b] != Slot(h, n) then Raised
    else if s.fed[b].FedByPort? then Raised
    else Ok(())
  }

  /** Register n to port d through the routing crossbar. */
  function RegToPort(h: Shape, s: Signals, n: nat, d: Operand): (r: Result<Signals>)
    requires SignalsOk(h, s) && Bank(h, n) < h.lanes
    ensures r.Ok? ==> SignalsOk(h, r.value)
  {
    var b := Bank(h, n);
    if !d.Port? || s.tileIn[Index(d.dir)] != 0 then Raised
    else
      Ok(s.(tileIn := s.tileIn[Index(d.dir) := b + 1 + h.ports], readXbar := s.readXbar[b := true],
            readIdx := s.readIdx[b := Slot(h, n)], fed := s.fed[b := FedByReg]))
  }

  /** Port p to a register or to another port. */
  function PortTo(h: Shape, s: Signals, p: Dir, d: Operand): (r: Result<Signals>)
    requires SignalsOk(h, s)
    ensures r.Ok? ==> SignalsOk(h, r.value)
  {
    var code := Index(p) + 1;
    match d
    case Reg(n) =>
      var b := Bank(h, n);
      if b >= h.lanes then Raised
      else if s.tileIn[h.ports + b] != 0 && s.tileIn[h.ports + b] != code then Raised
      else if s.writeIdx[b] != -1 && s.writeIdx[b] != Slot(h, n) then Raised
      else
        Ok(s.(tileIn := s.tileIn[h.ports + b := code], writeFrom := s.writeFrom[b := FROM_PORT],
              writeIdx := s.writeIdx[b := Slot(h, n)]))
    case Port(e) =>
      if s.tileIn[Index(e)] != 0 && s.tileIn[Index(e)] != code then Raised
      else Ok(s.(tileIn := s.tileIn[Index(e) := code]))
    case Imm(_) => Raised
  }

  function MoveTo(h: Shape, s: Signals, src: Operand, d: Operand): (r: Result<Signals>)
    requires SignalsOk(h, s) && (src.Reg? ==> Bank(h, src.n) < h.lanes)
    ensures r.Ok? ==> SignalsOk(h, r.value)
  {
    match src
    case Reg(n) => RegToPort(h, s, n, d)
    case Port(p) => PortTo(h, s, p, d)
    case Imm(_) => Raised
  }

  function MoveToAll(h: Shape, s: Signals, src: Operand, ds: seq<Operand>): (r: Result<Signals>)
    requires SignalsOk(h, s) && (src.Reg? ==> Bank(h, src.n) < h.lanes)
    ensures r.Ok? ==> SignalsOk(h, r.value)
  {
    if ds == [] then Ok(s)
    else
      var s1 :- MoveToAll(h, s, src, ds[..|ds| - 1]);
      MoveTo(h, s1, src, ds[|ds| - 1])
  }

  function AddMove(h: Shape, s: Signals, op: Operation): (r: Result<Signals>)
    requires SignalsOk(h, s)
    ensures r.Ok? ==> SignalsOk(h, r.value)
  {
    var srcs := Sources(op);
    if |srcs| != 1 then Raised
    else if srcs[0].Reg? then
      var _ :- CheckRegMove(h, s, srcs[0].n);
      MoveToAll(h, s, srcs[0], op.dsts)
    else MoveToAll(h, s, srcs[0], op.dsts)
  }

  function AddMoves(h: Shape, s: Signals, ops: seq<Operation>): (r: Result<Signals>)
    requires SignalsOk(h, s)
    ensures r.Ok? ==> SignalsOk(h, r.value)
  {
    if ops == [] then Ok(s)
    else
      var s1 :- AddMoves(h, s, ops[..|ops| - 1]);
      AddMove(h, s1, ops[|ops| - 1])
  }

  // ---- the operation that takes the FU ----

  datatype Slotted = Slotted(k: nat, operand: Operand)

  /** Operands with their positions: registers, or all others. */
  function Placed(srcs: seq<Operand>, regs: bool): seq<Slotted> {
    if srcs == [] then []
    else
      var n := |srcs| - 1;
      Placed(srcs[..n], regs) + if srcs[n].Reg? == regs then [Slotted(n, srcs[n])] else []
  }

  /** Registers first: they cannot choose their lane. */
  function Reordered(srcs: seq<Operand>): seq<Slotted> {
    Placed(srcs, true) + Placed(srcs, false)
  }

  predicate LaneFree(h: Shape, s: Signals, code: nat, i: nat)
    requires SignalsOk(h, s) && i < h.lanes
  {
    var t := s.tileIn[h.ports + i];
    match s.fed[i]
    case Unfed => t == 0 || t == code
    case FedByPort => t == code
    case FedByReg => false
  }

  /** First usable lane from i on, or `lanes`. */
  function FindLane(h: Shape, s: Signals, code: nat, i: nat): (r: nat)
    requires SignalsOk(h, s) && i <= h.lanes
    ensures i <= r <= h.lanes && (r < h.lanes ==> LaneFree(h, s, code, r))
    decreases h.lanes - i
  {
    if i == h.lanes || LaneFree(h, s, code, i) then i else FindLane(h, s, code, i + 1)
  }

  function ReadOperand(h: Shape, s: Signals, o: Slotted): (r: Result<Signals>)
    requires SignalsOk(h, s)
    ensures r.Ok? ==> SignalsOk(h, r.value)
  {
    if o.k >= h.lanes || s.shuffle[o.k] != 0 then Raised
    else
      match o.operand
      case Reg(n) =>
        var b := Bank(h, n);
        if b >= h.lanes then Raised
        else if s.readFu[b] && s.readIdx[b] != Slot(h, n) then Raised
        else if s.fed[b].FedByPort? then Raised
        else
          Ok(s.(fed := s.fed[b := FedByReg], readIdx := s.readIdx[b := Slot(h, n)],
                readFu := s.readFu[b := true], shuffle := s.shuffle[o.k := b + 1]))
      case Port(p) =>
        var lane := FindLane(h, s, Index(p) + 1, 0);
        if lane == h.lanes then Raised
        else
          Ok(s.(tileIn := s.tileIn[h.ports + lane := Index(p) + 1], fed := s.fed[lane := FedByPort],
                shuffle := s.shuffle[o.k := lane + 1]))
      case Imm(_) => Raised
  }

  function ReadOperands(h: Shape, s: Signals, os: seq<Slotted>): (r: Result<Signals>)
    requires SignalsOk(h, s)
    ensures r.Ok? ==> SignalsOk(h, r.value)
  {
    if os == [] then Ok(s)
    else
      var s1 :- ReadOperands(h, s, os[..|os| - 1]);
      ReadOperand(h, s1, os[|os| - 1])
  }

  function WriteResult(h: Shape, s: Signals, d: Operand): (r: Result<Signals>)
    requires SignalsOk(h, s)
    ensures r.Ok? ==> SignalsOk(h, r.value)
  {
    match d
    case Reg(n) =>
      var b := Bank(h, n);
      if b >= h.lanes then Raised
      else if s.writeIdx[b] != -1 && s.writeIdx[b] != Slot(h, n) then Raised
      else if s.fuOut[h.ports + b] != 0 then Raised
      else
        Ok(s.(writeFrom := s.writeFrom[b := FROM_FU], writeIdx := s.writeIdx[b := Slot(h, n)],
              fuOut := s.fuOut[h.ports + b := 1]))
    case Port(e) =>
      if s.fuOut[Index(e)] != 0 then Raised else Ok(s.(fuOut := s.fuOut[Index(e) := 1]))
    case Imm(_) => Raised
  }

  function WriteResults(h: Shape, s: Signals, ds: seq<Operand>): (r: Result<Signals>)
    requires SignalsOk(h, s)
    ensures r.Ok? ==> SignalsOk(h, r.value)
  {
    if ds == [] then Ok(s)
    else
      var s1 :- WriteResults(h, s, ds[..|ds| - 1]);
      WriteResult(h, s1, ds[|ds| - 1])
  }

  function AddFu(h: Shape, s: Signals, op: Operation): (r: Result<Signals>)
    requires SignalsOk(h, s)
    ensures r.Ok? ==> SignalsOk(h, r.value)
  {
    var s1 :- ReadOperands(h, s, Reordered(Sources(op)));
    WriteResults(h, s1, op.dsts)
  }

  /** `buildCtrlPkt`: moves first, then the FU operation if there is one. */
  function Build(h: Shape, ops: seq<Operation>): (r: Result<Signals>)
    requires ShapeOk(h)
    ensures r.Ok? ==> SignalsOk(h, r.value)
  {
    if !WellFormed(ops) then Raised
    else
      var s :- AddMoves(h, Blank(h), Select(ops, false));
      var fus := Select(ops, true);
      if fus == [] then Ok(s) else AddFu(h, s, fus[0])
  }

  // ---- the control word ----

  const TOWARDS_NOTHING: nat := 0
  const TOWARDS_FU: nat := 1
  const TOWARDS_XBAR: nat := 2
  const TOWARDS_BOTH: nat := 3

  datatype Word = Word(fuIn: seq<nat>, routing: seq<nat>, fuXbar: seq<nat>, writeFrom: seq<nat>,
                       writeIdx: seq<nat>, readTowards: seq<nat>, readIdx: seq<nat>)

  function OrZero(i: int): nat {
    if i < 0 then 0 else i
  }

  /** `makeCtrlPkt`. */
  function Encode(h: Shape, s: Signals): (w: Word)
    requires SignalsOk(h, s)
  {
    Word(s.shuffle, s.tileIn, s.fuOut, s.writeFrom,
         seq(h.lanes, i requires 0 <= i < h.lanes => OrZero(s.writeIdx[i])),
         seq(h.lanes, i requires 0 <= i < h.lanes =>
           if s.readFu[i] && s.readXbar[i] then TOWARDS_BOTH
           else if s.readFu[i] then TOWARDS_FU
           else if s.readXbar[i] then TOWARDS_XBAR
           else TOWARDS_NOTHING),
         seq(h.lanes, i requires 0 <= i < h.lanes => OrZero(s.readIdx[i])))
  }

  // ---- what a word means to the hardware ----

  /** Where a value comes from; `Ored` is no value anyone named, but the bitwise or of a
      routed one and the FU's. */
  datatype Source = FromDir(i: nat) | FromReg(n: nat) | FuResult | Ored

  predicate WordOk(h: Shape, w: Word) {
    && ShapeOk(h) && |w.routing| == |w.fuXbar| == h.ports + h.lanes
    && |w.fuIn| == |w.writeFrom| == |w.writeIdx| == |w.readTowards| == |w.readIdx| == h.lanes
  }

  /** The register a bank's single read address selects. */
  function ReadReg(h: Shape, w: Word, b: nat): Source
    requires WordOk(h, w) && b < h.lanes
  {
    FromReg(b * h.regs + w.readIdx[b])
  }

  /** What routing-crossbar output j delivers: nothing, a tile port's value, or a bank's
      when that bank is read towards the crossbar. */
  function Routed(h: Shape, w: Word, j: nat): set<Source>
    requires WordOk(h, w) && j < h.ports + h.lanes
  {
    var v := w.routing[j];
    if v == 0 then {}
    else if v <= h.ports then {FromDir(v - 1)}
    else if v - 1 - h.ports < h.lanes && w.readTowards[v - 1 - h.ports] >= TOWARDS_XBAR
    then {ReadReg(h, w, v - 1 - h.ports)}
    else {}
  }

  /** What FU operand k receives: a bank read towards the FU outranks routed data.  The mux
      (mem/register_cluster/RegisterClusterRTL.py:81-90) looks at whether the bank's value is
      valid; a word is read here under the assumption that every register it reads holds a
      token. */
  function OperandSource(h: Shape, w: Word, k: nat): set<Source>
    requires WordOk(h, w) && k < h.lanes
  {
    if w.fuIn[k] == 0 || w.fuIn[k] > h.lanes then {}
    else
      var lane := w.fuIn[k] - 1;
      if w.readTowards[lane] == TOWARDS_FU || w.readTowards[lane] == TOWARDS_BOTH then {ReadReg(h, w, lane)}
      else Routed(h, w, h.ports + lane)
  }

  /** What FU operand k can receive if registers may be without a token: then the mux passes on
      what is routed to the lane. */
  function OperandChoices(h: Shape, w: Word, k: nat): set<Source>
    requires WordOk(h, w) && k < h.lanes
  {
    if w.fuIn[k] == 0 || w.fuIn[k] > h.lanes then {}
    else OperandSource(h, w, k) + Routed(h, w, h.ports + w.fuIn[k] - 1)
  }

  function FromFu(h: Shape, w: Word, j: nat): set<Source>
    requires WordOk(h, w) && j < h.ports + h.lanes
  {
    if w.fuXbar[j] == 1 then {FuResult} else {}
  }

  /** What leaves through tile port i: both crossbars drive it, and its link ors what they
      send (noc/LinkOrRTL.py:33-37). */
  function PortSources(h: Shape, w: Word, i: nat): set<Source>
    requires WordOk(h, w) && i < h.ports
  {
    if Routed(h, w, i) != {} && FromFu(h, w, i) != {} then {Ored} else Routed(h, w, i) + FromFu(h, w, i)
  }

  /** What is written to register n. */
  function RegSources(h: Shape, w: Word, n: nat): set<Source>
    requires WordOk(h, w)
  {
    var b := Bank(h, n);
    if b >= h.lanes || w.writeIdx[b] != Slot(h, n) then {}
    else if w.writeFrom[b] == FROM_PORT then Routed(h, w, h.ports + b)
    else if w.writeFrom[b] == FROM_FU then FromFu(h, w, h.ports + b)
    else {}
  }

  // ---- what an instruction means ----

  datatype Transfer = Transfer(src: Source, dst: Operand)

  function SourceOf(o: Operand): Source
    requires !o.Imm?
  {
    match o
    case Reg(n) => FromReg(n)
    case Port(p) => FromDir(Index(p))
  }

  function TransfersTo(src: Source, ds: seq<Operand>): seq<Transfer> {
    seq(|ds|, i requires 0 <= i < |ds| => Transfer(src, ds[i]))
  }

  /** Every transfer the moves of an instruction name. */
  function MoveTransfers(ops: seq<Operation>): seq<Transfer> {
    if ops == [] then []
    else
      var op := ops[|ops| - 1];
      var rest := MoveTransfers(ops[..|ops| - 1]);
      if |op.srcs| == 1 && !op.srcs[0].Imm? then rest + TransfersTo(SourceOf(op.srcs[0]), op.dsts) else rest
  }

  /** Every transfer an instruction names: its moves, and its FU result's destinations. */
  function Transfers(ops: seq<Operation>): seq<Transfer> {
    var fus := Select(ops, true);
    MoveTransfers(Select(ops, false)) + if fus == [] then [] else TransfersTo(FuResult, fus[0].dsts)
  }

  ghost function Into(ts: seq<Transfer>, d: Operand): set<Source> {
    set i | 0 <= i < |ts| && ts[i].dst == d :: ts[i].src
  }

  /** The FU operation's operands in hardware order, constants left out. */
  function FuOperands(ops: seq<Operation>): seq<Operand> {
    var fus := Select(ops, true);
    if fus == [] then [] else NonImms(Swapped(fus[0]))
  }

  /** The word does what the instruction says: operand k is its k-th source and no
      further operand is connected; every port and register receives exactly the
      sources named for it. */
  ghost predicate Faithful(h: Shape, w: Word, ops: seq<Operation>)
    requires WordOk(h, w)
  {
    var os := FuOperands(ops);
    && |os| <= h.lanes
    && (forall k :: 0 <= k < |os| ==> !os[k].Imm? && OperandSource(h, w, k) == {SourceOf(os[k])})
    && (forall k :: |os| <= k < h.lanes ==> OperandSource(h, w, k) == {})
    && (forall d: Dir :: PortSources(h, w, Index(d)) == Into(Transfers(ops), Port(d)))
    && (forall i :: 4 <= i < h.ports ==> PortSources(h, w, i) == {})
    && (forall n: nat :: RegSources(h, w, n) == Into(Transfers(ops), Reg(n)))
  }

  /** The clashes the translator does not report: a register moved to a port while the FU
      reads another register of the same bank; and a destination, register or port, that
      receives both a moved value and the FU's result. */
  ghost predicate Clash(h: Shape, ops: seq<Operation>)
    requires ShapeOk(h)
  {
    var ms := MoveTransfers(Select(ops, false));
    var fus := Select(ops, true);
    || (exists i, k :: && 0 <= i < |ms| && 0 <= k < |FuOperands(ops)|
                       && ReadClash(h, ms[i].src, FuOperands(ops)[k]))
    || (fus != [] && exists i, j :: 0 <= i < |ms| && 0 <= j < |fus[0].dsts| && ms[i].dst == fus[0].dsts[j])
  }

  predicate ReadClash(h: Shape, moved: Source, read: Operand)
    requires ShapeOk(h)
  {
    moved.FromReg? && read.Reg? && Bank(h, moved.n) == Bank(h, read.n) && moved.n != read.n
  }

  /** A register operand shares its bank with a register a move writes, whose value is routed
      to the bank's lane. */
  ghost predicate SharesLane(h: Shape, ops: seq<Operation>)
    requires ShapeOk(h)
  {
    var ms, os := MoveTransfers(Select(ops, false)), FuOperands(ops);
    exists i, k :: 0 <= i < |ms| && 0 <= k < |os| && SameLane(h, ms[i].dst, os[k])
  }

  predicate SameLane(h: Shape, written: Operand, read: Operand)
    requires ShapeOk(h)
  {
    written.Reg? && read.Reg? && Bank(h, written.n) == Bank(h, read.n)
  }
}
