/** The translator object itself: the lists `buildCtrlPkt` fills in place, one loop per
    source loop, proved against the functions of Compiler. */
module InstructionSignals {
  import opened Compiler
  import opened CompilerProofs

  /** The constants of an operand list, in order. */
  function Constants(s: seq<Operand>, t: nat): seq<Const> {
    if s == [] then [] else (if s[0].Imm? then [Const(s[0].value, t)] else []) + Constants(s[1..], t)
  }

  lemma {:induction false} ConstantsConcat(a: seq<Operand>, b: seq<Operand>, t: nat)
    ensures Constants(a + b, t) == Constants(a, t) + Constants(b, t)
  {
    if a == [] {
      assert a + b == b;
    } else {
      assert (a + b)[1..] == a[1..] + b;
      ConstantsConcat(a[1..], b, t);
      var first := if a[0].Imm? then [Const(a[0].value, t)] else [];
      assert Constants(a + b, t) == first + (Constants(a[1..], t) + Constants(b, t));
    }
  }

  /** What one deletion does to the constants still in the list, when none lies before it. */
  lemma DeleteFirstImm(s: seq<Operand>, i: nat, t: nat)
    requires i < |s| && s[i].Imm? && Constants(s[..i], t) == []
    ensures Constants(s, t) == [Const(s[i].value, t)] + Constants(s[..i] + s[i + 1..], t)
  {
    assert s == s[..i] + ([s[i]] + s[i + 1..]);
    ConstantsConcat(s[..i], [s[i]] + s[i + 1..], t);
    ConstantsConcat([s[i]], s[i + 1..], t);
    ConstantsConcat(s[..i], s[i + 1..], t);
  }

  lemma {:induction false} NoConstants(s: seq<Operand>, t: nat)
    ensures NoImms(s) <==> Constants(s, t) == []
  {
    if s != [] {
      NoConstants(s[1..], t);
      assert NoImms(s) <==> !s[0].Imm? && NoImms(s[1..]);
    }
  }

  // ---- the deleting walk ----

  /** The walk stands at i; if no constant lies behind it, those met and those ahead are all. */
  ghost predicate Walked(srcs: seq<Operand>, t: nat, kept: seq<Operand>, consts: seq<Const>, i: nat) {
    if i <= |kept| then
      && StripImms(srcs, 0) == StripImms(kept, i)
      && (NoImms(kept[..i]) ==> Constants(srcs, t) == consts + Constants(kept, t))
    else
      && StripImms(srcs, 0) == kept
      && (NoImms(kept) ==> Constants(srcs, t) == consts)
  }

  lemma PrefixNoImms(s: seq<Operand>, i: nat)
    requires i < |s| && NoImms(s[..i + 1])
    ensures NoImms(s[..i]) && !s[i].Imm?
  {
    assert s[..i + 1][i] == s[i];
    assert forall j :: 0 <= j < i ==> s[..i][j] == s[..i + 1][j];
  }

  lemma WalkKeeps(srcs: seq<Operand>, t: nat, kept: seq<Operand>, consts: seq<Const>, i: nat)
    requires Walked(srcs, t, kept, consts, i) && i < |kept| && !kept[i].Imm?
    ensures Walked(srcs, t, kept, consts, i + 1)
  {
    if NoImms(kept[..i + 1]) {
      PrefixNoImms(kept, i);
    }
  }

  lemma WalkDrops(srcs: seq<Operand>, t: nat, kept: seq<Operand>, consts: seq<Const>, i: nat)
    requires Walked(srcs, t, kept, consts, i) && i < |kept| && kept[i].Imm?
    ensures Walked(srcs, t, kept[..i] + kept[i + 1..], consts + [Const(kept[i].value, t)], i + 1)
  {
    var next, more := kept[..i] + kept[i + 1..], consts + [Const(kept[i].value, t)];
    assert next[..i] == kept[..i];
    assert NoImms(kept[..i]) ==> Constants(srcs, t) == more + Constants(next, t) by {
      if NoImms(kept[..i]) {
        NoConstants(kept[..i], t);
        DeleteFirstImm(kept, i, t);
        assert more + Constants(next, t) == consts + ([Const(kept[i].value, t)] + Constants(next, t));
      }
    }
    if i + 1 <= |next| {
      if NoImms(next[..i + 1]) {
        PrefixNoImms(next, i);
      }
    } else if NoImms(next) {
      assert next == kept[..i];
      NoConstants(next, t);
      assert more + [] == more;
    }
  }

  lemma WalkEnds(srcs: seq<Operand>, t: nat, kept: seq<Operand>, consts: seq<Const>, i: nat)
    requires Walked(srcs, t, kept, consts, i) && i >= |kept|
    ensures kept == StripImms(srcs, 0)
    ensures NoImms(kept) ==> kept == NonImms(srcs) && consts == Constants(srcs, t)
  {
    if NoImms(kept) {
      StripImmsExact(srcs, 0);
      NoConstants(kept, t);
      assert i == |kept| ==> kept[..i] == kept;
      assert consts + [] == consts;
    }
  }

  // ---- a step that raises makes the whole translation raise ----

  lemma {:induction false} MoveToAllRaises(h: Shape, s: Signals, src: Operand, ds: seq<Operand>, i: nat)
    requires SignalsOk(h, s) && (src.Reg? ==> Bank(h, src.n) < h.lanes) && i <= |ds|
    requires MoveToAll(h, s, src, ds[..i]).Raised?
    ensures MoveToAll(h, s, src, ds).Raised?
    decreases |ds|
  {
    if i == |ds| {
      assert ds[..i] == ds;
    } else {
      var init := ds[..|ds| - 1];
      assert init[..i] == ds[..i];
      MoveToAllRaises(h, s, src, init, i);
    }
  }

  lemma {:induction false} AddMovesRaises(h: Shape, s: Signals, ops: seq<Operation>, i: nat)
    requires SignalsOk(h, s) && i <= |ops| && AddMoves(h, s, ops[..i]).Raised?
    ensures AddMoves(h, s, ops).Raised?
    decreases |ops|
  {
    if i == |ops| {
      assert ops[..i] == ops;
    } else {
      var init := ops[..|ops| - 1];
      assert init[..i] == ops[..i];
      AddMovesRaises(h, s, init, i);
    }
  }

  lemma OneMoreMove(h: Shape, s: Signals, ops: seq<Operation>, i: nat)
    requires SignalsOk(h, s) && i < |ops| && AddMoves(h, s, ops[..i]).Ok?
    ensures AddMoves(h, s, ops[..i + 1]) == AddMove(h, AddMoves(h, s, ops[..i]).value, ops[i])
  {
    assert ops[..i + 1][..i] == ops[..i];
  }

  lemma {:induction false} ReadOperandsRaises(h: Shape, s: Signals, os: seq<Slotted>, i: nat)
    requires SignalsOk(h, s) && i <= |os| && ReadOperands(h, s, os[..i]).Raised?
    ensures ReadOperands(h, s, os).Raised?
    decreases |os|
  {
    if i == |os| {
      assert os[..i] == os;
    } else {
      var init := os[..|os| - 1];
      assert init[..i] == os[..i];
      ReadOperandsRaises(h, s, init, i);
    }
  }

  lemma {:induction false} WriteResultsRaises(h: Shape, s: Signals, ds: seq<Operand>, i: nat)
    requires SignalsOk(h, s) && i <= |ds| && WriteResults(h, s, ds[..i]).Raised?
    ensures WriteResults(h, s, ds).Raised?
    decreases |ds|
  {
    if i == |ds| {
      assert ds[..i] == ds;
    } else {
      var init := ds[..|ds| - 1];
      assert init[..i] == ds[..i];
      WriteResultsRaises(h, s, init, i);
    }
  }

  class InstructionSignals {
    const shape: Shape
    var tileIn: seq<nat>
    var fuOut: seq<nat>
    var readFu: seq<bool>
    var readXbar: seq<bool>
    var fed: seq<Feed>
    var readIdx: seq<int>
    var writeFrom: seq<nat>
    var writeIdx: seq<int>
    var shuffle: seq<nat>

    ghost function View(): Signals
      reads this
    {
      Signals(tileIn, fuOut, readFu, readXbar, fed, readIdx, writeFrom, writeIdx, shuffle)
    }

    ghost predicate Valid()
      reads this
    {
      SignalsOk(shape, View())
    }

    constructor (h: Shape)
      requires ShapeOk(h)
      ensures shape == h && Valid() && View() == Blank(h)
    {
      var all, lanes := h.ports + h.lanes, h.lanes;
      shape := h;
      tileIn, fuOut := seq(all, _ => 0), seq(all, _ => 0);
      readFu, readXbar := seq(lanes, _ => false), seq(lanes, _ => false);
      fed, readIdx := seq(lanes, _ => Unfed), seq(lanes, _ => -1);
      writeFrom, writeIdx := seq(lanes, _ => FROM_NOWHERE), seq(lanes, _ => -1);
      shuffle := seq(lanes, _ => 0);
    }

    /** Walks the sources, deleting each constant it meets; the walk does not step back
        after a deletion. */
    method TakeConstants(srcs: seq<Operand>, t: nat) returns (kept: seq<Operand>, consts: seq<Const>)
      ensures kept == StripImms(srcs, 0)
      ensures NoImms(kept) ==> kept == NonImms(srcs) && consts == Constants(srcs, t)
    {
      kept, consts := srcs, [];
      var i := 0;
      assert [] + Constants(srcs, t) == Constants(srcs, t);
      while i < |kept|
        invariant 0 <= i && Walked(srcs, t, kept, consts, i)
        decreases |kept| - i
      {
        if kept[i].Imm? {
          WalkDrops(srcs, t, kept, consts, i);
          consts := consts + [Const(kept[i].value, t)];
          kept := kept[..i] + kept[i + 1..];
        } else {
          WalkKeeps(srcs, t, kept, consts, i);
        }
        i := i + 1;
      }
      WalkEnds(srcs, t, kept, consts, i);
    }

    /** One move: the source's value to every destination. */
    method AddMoveTo(src: Operand, ds: seq<Operand>) returns (ok: bool)
      requires Valid() && (src.Reg? ==> Bank(shape, src.n) < shape.lanes)
      modifies this
      ensures ok <==> MoveToAll(shape, old(View()), src, ds).Ok?
      ensures ok ==> Valid() && View() == MoveToAll(shape, old(View()), src, ds).value
    {
      ghost var before := View();
      var i := 0;
      assert ds[..0] == [];
      while i < |ds|
        invariant 0 <= i <= |ds| && Valid()
        invariant MoveToAll(shape, before, src, ds[..i]) == Ok(View())
      {
        assert ds[..i + 1][..i] == ds[..i];
        ok := StepMove(src, ds[i]);
        if !ok {
          MoveToAllRaises(shape, before, src, ds, i + 1);
          return;
        }
        i := i + 1;
      }
      assert ds[..i] == ds;
      ok := true;
    }

    method StepMove(src: Operand, d: Operand) returns (ok: bool)
      requires Valid() && (src.Reg? ==> Bank(shape, src.n) < shape.lanes)
      modifies this
      ensures ok <==> MoveTo(shape, old(View()), src, d).Ok?
      ensures ok ==> Valid() && View() == MoveTo(shape, old(View()), src, d).value
    {
      match src
      case Imm(_) =>
        return false;
      case Reg(n) =>
        var b := n / shape.regs;
        if !d.Port? || tileIn[Index(d.dir)] != 0 { return false; }
        tileIn := tileIn[Index(d.dir) := b + 1 + shape.ports];
        readXbar := readXbar[b := true];
        readIdx := readIdx[b := n % shape.regs];
        fed := fed[b := FedByReg];
        return true;
      case Port(p) =>
        var code := Index(p) + 1;
        match d
        case Imm(_) =>
          return false;
        case Port(e) =>
          if tileIn[Index(e)] != 0 && tileIn[Index(e)] != code { return false; }
          tileIn := tileIn[Index(e) := code];
          return true;
        case Reg(n) =>
          var b, slot := n / shape.regs, n % shape.regs;
          if b >= shape.lanes { return false; }
          if tileIn[shape.ports + b] != 0 && tileIn[shape.ports + b] != code { return false; }
          tileIn := tileIn[shape.ports + b := code];
          if writeIdx[b] != -1 && writeIdx[b] != slot { return false; }
          writeFrom := writeFrom[b := FROM_PORT];
          writeIdx := writeIdx[b := slot];
          return true;
    }

    method AddOneMove(op: Operation) returns (ok: bool)
      requires Valid()
      modifies this
      ensures ok <==> AddMove(shape, old(View()), op).Ok?
      ensures ok ==> Valid() && View() == AddMove(shape, old(View()), op).value
    {
      var srcs, _ := TakeConstants(Swapped(op), op.timeStep);
      if |srcs| != 1 { return false; }
      if srcs[0].Reg? {
        var b := srcs[0].n / shape.regs;
        if b >= shape.lanes { return false; }
        if readXbar[b] && readIdx[b] != srcs[0].n % shape.regs { return false; }
        if fed[b] == FedByPort { return false; }
      }
      ok := AddMoveTo(srcs[0], op.dsts);
    }

    /** Operands with their positions, registers first. */
    method Reorder(srcs: seq<Operand>) returns (os: seq<Slotted>)
      ensures os == Reordered(srcs)
    {
      os := [];
      for i := 0 to |srcs|
        invariant os == Placed(srcs[..i], true)
      {
        assert srcs[..i + 1][..i] == srcs[..i];
        if srcs[i].Reg? { os := os + [Slotted(i, srcs[i])]; }
      }
      assert srcs[..|srcs|] == srcs;
      for i := 0 to |srcs|
        invariant os == Placed(srcs, true) + Placed(srcs[..i], false)
      {
        assert srcs[..i + 1][..i] == srcs[..i];
        if !srcs[i].Reg? { os := os + [Slotted(i, srcs[i])]; }
      }
    }

    /** The first lane that can carry a port's value. */
    method SearchLane(code: nat) returns (lane: nat)
      requires Valid()
      ensures lane == FindLane(shape, View(), code, 0)
    {
      lane := 0;
      while lane < shape.lanes
        invariant lane <= shape.lanes && FindLane(shape, View(), code, 0) == FindLane(shape, View(), code, lane)
      {
        var t := tileIn[shape.ports + lane];
        var free := fed[lane] == Unfed && t == 0;
        free := free || (fed[lane] == FedByPort && t == code);
        free := free || (fed[lane] == Unfed && t == code);
        if free { break; }
        lane := lane + 1;
      }
    }

    method StepRead(o: Slotted) returns (ok: bool)
      requires Valid()
      modifies this
      ensures ok <==> ReadOperand(shape, old(View()), o).Ok?
      ensures ok ==> Valid() && View() == ReadOperand(shape, old(View()), o).value
    {
      if o.k >= shape.lanes || shuffle[o.k] != 0 { return false; }
      match o.operand
      case Imm(_) =>
        return false;
      case Reg(n) =>
        var b, slot := n / shape.regs, n % shape.regs;
        if b >= shape.lanes { return false; }
        if readFu[b] && readIdx[b] != slot { return false; }
        if fed[b] == FedByPort { return false; }
        fed := fed[b := FedByReg];
        readIdx := readIdx[b := slot];
        readFu := readFu[b := true];
        shuffle := shuffle[o.k := b + 1];
        return true;
      case Port(p) =>
        var lane := SearchLane(Index(p) + 1);
        if lane == shape.lanes { return false; }
        tileIn := tileIn[shape.ports + lane := Index(p) + 1];
        fed := fed[lane := FedByPort];
        shuffle := shuffle[o.k := lane + 1];
        return true;
    }

    method StepWrite(d: Operand) returns (ok: bool)
      requires Valid()
      modifies this
      ensures ok <==> WriteResult(shape, old(View()), d).Ok?
      ensures ok ==> Valid() && View() == WriteResult(shape, old(View()), d).value
    {
      match d
      case Imm(_) =>
        return false;
      case Port(e) =>
        if fuOut[Index(e)] != 0 { return false; }
        fuOut := fuOut[Index(e) := 1];
        return true;
      case Reg(n) =>
        var b, slot := n / shape.regs, n % shape.regs;
        if b >= shape.lanes { return false; }
        if writeIdx[b] != -1 && writeIdx[b] != slot { return false; }
        writeFrom := writeFrom[b := FROM_FU];
        writeIdx := writeIdx[b := slot];
        if fuOut[shape.ports + b] != 0 { return false; }
        fuOut := fuOut[shape.ports + b := 1];
        return true;
    }

    method AddOperands(os: seq<Slotted>) returns (ok: bool)
      requires Valid()
      modifies this
      ensures ok <==> ReadOperands(shape, old(View()), os).Ok?
      ensures ok ==> Valid() && View() == ReadOperands(shape, old(View()), os).value
    {
      ghost var before := View();
      var i := 0;
      assert os[..0] == [];
      while i < |os|
        invariant 0 <= i <= |os| && Valid()
        invariant ReadOperands(shape, before, os[..i]) == Ok(View())
      {
        assert os[..i + 1][..i] == os[..i];
        ok := StepRead(os[i]);
        if !ok {
          ReadOperandsRaises(shape, before, os, i + 1);
          return;
        }
        i := i + 1;
      }
      assert os[..i] == os;
      ok := true;
    }

    method AddResults(ds: seq<Operand>) returns (ok: bool)
      requires Valid()
      modifies this
      ensures ok <==> WriteResults(shape, old(View()), ds).Ok?
      ensures ok ==> Valid() && View() == WriteResults(shape, old(View()), ds).value
    {
      ghost var before := View();
      var i := 0;
      assert ds[..0] == [];
      while i < |ds|
        invariant 0 <= i <= |ds| && Valid()
        invariant WriteResults(shape, before, ds[..i]) == Ok(View())
      {
        assert ds[..i + 1][..i] == ds[..i];
        ok := StepWrite(ds[i]);
        if !ok {
          WriteResultsRaises(shape, before, ds, i + 1);
          return;
        }
        i := i + 1;
      }
      assert ds[..i] == ds;
      ok := true;
    }

    /** The FU operation; its constants go to the constant queue, in order. */
    method AddFuOperation(op: Operation) returns (ok: bool, consts: seq<Const>)
      requires Valid()
      modifies this
      ensures ok <==> AddFu(shape, old(View()), op).Ok?
      ensures ok ==> Valid() && View() == AddFu(shape, old(View()), op).value
      ensures ok && NoImms(Sources(op)) ==> consts == Constants(Swapped(op), op.timeStep)
    {
      var srcs;
      srcs, consts := TakeConstants(Swapped(op), op.timeStep);
      var os := Reorder(srcs);
      ok := AddOperands(os);
      if ok { ok := AddResults(op.dsts); }
    }

    /** `buildCtrlPkt`: translates an instruction, or reports that it cannot; a translated
        instruction's constants are its FU operation's, in operand order. */
    method BuildCtrlPkt(ops: seq<Operation>) returns (ok: bool, consts: seq<Const>)
      requires Valid() && View() == Blank(shape)
      modifies this
      ensures ok <==> Build(shape, ops).Ok?
      ensures ok ==> Valid() && View() == Build(shape, ops).value
      ensures ok ==> (Faithful(shape, Encode(shape, View()), ops) <==> !Clash(shape, ops))
      ensures ok && Select(ops, true) != [] ==>
        consts == Constants(Swapped(Select(ops, true)[0]), Select(ops, true)[0].timeStep)
    {
      consts := [];
      if !WellFormed(ops) { return false, []; }
      ok := AddAllMoves(Select(ops, false));
      var fus := Select(ops, true);
      if ok && fus != [] {
        ghost var s0 := View();
        ok, consts := AddFuOperation(fus[0]);
        if ok {
          assert NoImms(Sources(fus[0])) by {
            SelectKind(ops, false);
            AddMovesDelivers(shape, Select(ops, false));
            FuPhases(shape, s0, MoveTransfers(Select(ops, false)), fus[0]);
          }
        }
      }
      if ok { BuildMeansWhatItSays(shape, ops); }
    }

    /** The moves, in order. */
    method AddAllMoves(moves: seq<Operation>) returns (ok: bool)
      requires Valid()
      modifies this
      ensures ok <==> AddMoves(shape, old(View()), moves).Ok?
      ensures ok ==> Valid() && View() == AddMoves(shape, old(View()), moves).value
    {
      ghost var before := View();
      var i := 0;
      assert moves[..0] == [];
      while i < |moves|
        invariant 0 <= i <= |moves| && Valid()
        invariant AddMoves(shape, before, moves[..i]) == Ok(View())
      {
        OneMoreMove(shape, before, moves, i);
        ok := AddOneMove(moves[i]);
        if !ok {
          AddMovesRaises(shape, before, moves, i + 1);
          return;
        }
        i := i + 1;
      }
      assert moves[..i] == moves;
      ok := true;
    }

    /** `makeCtrlPkt`: unset entries become zero, and the two read requests of a bank
        become one code. */
    method MakeCtrlPkt() returns (w: Word)
      requires Valid()
      ensures w == Encode(shape, View())
    {
      var towards: seq<nat>, readAt: seq<nat>, writeAt: seq<nat> := [], [], [];
      for i := 0 to shape.lanes
        invariant |towards| == |readAt| == |writeAt| == i
        invariant towards == Encode(shape, View()).readTowards[..i]
        invariant readAt == Encode(shape, View()).readIdx[..i]
        invariant writeAt == Encode(shape, View()).writeIdx[..i]
      {
        var code := TOWARDS_NOTHING;
        if readFu[i] && readXbar[i] { code := TOWARDS_BOTH; }
        else if readFu[i] { code := TOWARDS_FU; }
        else if readXbar[i] { code := TOWARDS_XBAR; }
        towards := towards + [code];
        readAt := readAt + [OrZero(readIdx[i])];
        writeAt := writeAt + [OrZero(writeIdx[i])];
      }
      w := Word(shuffle, tileIn, fuOut, writeFrom, writeAt, towards, readAt);
    }
  }
}
