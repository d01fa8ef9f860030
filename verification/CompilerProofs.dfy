/** What the translator guarantees.  `BuildMeansWhatItSays` is the result: for every
    instruction `Build` accepts, the emitted word does exactly what the instruction says
    if and only if the instruction is free of the clashes that `Build` does not report.

    The proof follows the three phases of `Build`: the moves, then the FU's operands,
    then the FU's result. */
module CompilerProofs {
  import Arith
  import opened Compiler

  // ---- transfers into one destination ----

  lemma IntoAppend(ts: seq<Transfer>, t: Transfer, d: Operand)
    ensures Into(ts + [t], d) == Into(ts, d) + if t.dst == d then {t.src} else {}
  {
    var all := ts + [t];
    assert all[|ts|] == t;
    forall x | x in Into(ts, d) ensures x in Into(all, d) {
      var i :| 0 <= i < |ts| && ts[i].dst == d && ts[i].src == x;
      assert all[i] == ts[i];
    }
  }

  lemma IntoConcat(ts: seq<Transfer>, us: seq<Transfer>, d: Operand)
    ensures Into(ts + us, d) == Into(ts, d) + Into(us, d)
  {
    var all := ts + us;
    forall x | x in Into(ts, d) ensures x in Into(all, d) {
      var i :| 0 <= i < |ts| && ts[i].dst == d && ts[i].src == x;
      assert all[i] == ts[i];
    }
    forall x | x in Into(us, d) ensures x in Into(all, d) {
      var i :| 0 <= i < |us| && us[i].dst == d && us[i].src == x;
      assert all[|ts| + i] == us[i];
    }
  }

  lemma TransfersToInto(src: Source, ds: seq<Operand>, d: Operand)
    ensures Into(TransfersTo(src, ds), d) == if d in ds then {src} else {}
  {
    var ts := TransfersTo(src, ds);
    if d in ds {
      var i :| 0 <= i < |ds| && ds[i] == d;
      assert ts[i].dst == d && ts[i].src == src;
    }
  }

  lemma TransfersToAppend(src: Source, ds: seq<Operand>)
    requires ds != []
    ensures TransfersTo(src, ds) == TransfersTo(src, ds[..|ds| - 1]) + [Transfer(src, ds[|ds| - 1])]
  {
  }

  // ---- registers and their banks ----

  /** Register i of bank b. */
  function RegisterNo(h: Shape, b: nat, i: nat): nat {
    b * h.regs + i
  }

  lemma SameRegister(h: Shape, m: nat, n: nat)
    requires ShapeOk(h) && Bank(h, m) == Bank(h, n) && Slot(h, m) == Slot(h, n)
    ensures m == n
  {
    assert m == h.regs * (m / h.regs) + m % h.regs;
    assert n == h.regs * (n / h.regs) + n % h.regs;
  }

  lemma RegisterAt(h: Shape, b: nat, i: nat)
    requires ShapeOk(h) && i < h.regs
    ensures Bank(h, b * h.regs + i) == b && Slot(h, b * h.regs + i) == i
  {
    Arith.DivModUnique(b * h.regs + i, h.regs, b, i);
  }

  lemma SlotBound(h: Shape, n: nat)
    requires ShapeOk(h)
    ensures Slot(h, n) < h.regs && Bank(h, n) * h.regs + Slot(h, n) == n
  {
  }

  // ---- phase 1: moves ----

  /** What routing-crossbar output j carries under these signals. */
  function Carried(h: Shape, s: Signals, j: nat): set<Source>
    requires SignalsOk(h, s) && j < h.ports + h.lanes
  {
    var v := s.tileIn[j];
    if v == 0 then {}
    else if v <= h.ports then {FromDir(v - 1)}
    else if v - 1 - h.ports < h.lanes then {FromReg(RegisterNo(h, v - 1 - h.ports, OrZero(s.readIdx[v - 1 - h.ports])))}
    else {}
  }

  /** What a port write to register n stores. */
  function Stored(h: Shape, s: Signals, n: nat): set<Source>
    requires SignalsOk(h, s)
  {
    var b := Bank(h, n);
    if b >= h.lanes || s.writeIdx[b] != Slot(h, n) then {} else Carried(h, s, h.ports + b)
  }

  ghost predicate BankAfterMoves(h: Shape, s: Signals, b: nat)
    requires SignalsOk(h, s) && b < h.lanes
  {
    && !s.readFu[b] && s.shuffle[b] == 0 && s.fuOut[h.ports + b] == 0
    && s.fed[b] == (if s.readXbar[b] then FedByReg else Unfed)
    && -1 <= s.readIdx[b] < h.regs && -1 <= s.writeIdx[b] < h.regs
    && (s.readXbar[b] <==> s.readIdx[b] != -1)
    && (s.tileIn[h.ports + b] != 0 <==> s.writeIdx[b] != -1)
    && s.writeFrom[b] == (if s.writeIdx[b] == -1 then FROM_NOWHERE else FROM_PORT)
    && s.tileIn[h.ports + b] <= 4
  }

  ghost predicate PortAfterMoves(h: Shape, s: Signals, i: nat)
    requires SignalsOk(h, s) && i < h.ports
  {
    && s.fuOut[i] == 0
    && (4 <= i ==> s.tileIn[i] == 0)
    && (s.tileIn[i] > h.ports ==> s.tileIn[i] - 1 - h.ports < h.lanes && s.readXbar[s.tileIn[i] - 1 - h.ports])
  }

  ghost predicate Delivers(h: Shape, s: Signals, ts: seq<Transfer>)
    requires SignalsOk(h, s)
  {
    && (forall i :: 0 <= i < |ts| ==> !ts[i].dst.Imm?)
    && (forall d: Dir :: Carried(h, s, Index(d)) == Into(ts, Port(d)))
    && (forall n: nat :: Stored(h, s, n) == Into(ts, Reg(n)))
  }

  ghost predicate AfterMoves(h: Shape, s: Signals)
    requires SignalsOk(h, s)
  {
    && (forall b :: 0 <= b < h.lanes ==> BankAfterMoves(h, s, b))
    && (forall i :: 0 <= i < h.ports ==> PortAfterMoves(h, s, i))
  }

  lemma BlankDelivers(h: Shape)
    requires ShapeOk(h)
    ensures AfterMoves(h, Blank(h)) && Delivers(h, Blank(h), [])
  {
  }

  /** Register n may be read towards the crossbar. */
  ghost predicate Readable(h: Shape, s: Signals, n: nat)
    requires SignalsOk(h, s)
  {
    Bank(h, n) < h.lanes && (s.readXbar[Bank(h, n)] ==> s.readIdx[Bank(h, n)] == Slot(h, n))
  }

  lemma RegToPortKeeps(h: Shape, s: Signals, n: nat, d: Operand)
    requires SignalsOk(h, s) && AfterMoves(h, s) && Readable(h, s, n)
    requires RegToPort(h, s, n, d).Ok?
    ensures AfterMoves(h, RegToPort(h, s, n, d).value) && Readable(h, RegToPort(h, s, n, d).value, n)
  {
    var s' := RegToPort(h, s, n, d).value;
    SlotBound(h, n);
    assert BankAfterMoves(h, s, Bank(h, n));
    forall b | 0 <= b < h.lanes ensures BankAfterMoves(h, s', b) {
      assert BankAfterMoves(h, s, b);
    }
    forall i | 0 <= i < h.ports ensures PortAfterMoves(h, s', i) {
      assert PortAfterMoves(h, s, i);
    }
  }

  lemma RegToPortDelivers(h: Shape, s: Signals, n: nat, d: Operand, ts: seq<Transfer>)
    requires SignalsOk(h, s) && AfterMoves(h, s) && Delivers(h, s, ts) && Readable(h, s, n)
    requires RegToPort(h, s, n, d).Ok?
    ensures Delivers(h, RegToPort(h, s, n, d).value, ts + [Transfer(FromReg(n), d)])
  {
    var s' := RegToPort(h, s, n, d).value;
    var ts' := ts + [Transfer(FromReg(n), d)];
    SlotBound(h, n);
    forall e: Dir ensures Carried(h, s', Index(e)) == Into(ts', Port(e)) {
      IntoAppend(ts, Transfer(FromReg(n), d), Port(e));
      assert PortAfterMoves(h, s, Index(e));
      assert Carried(h, s, Index(e)) == Into(ts, Port(e));
    }
    forall m: nat ensures Stored(h, s', m) == Into(ts', Reg(m)) {
      IntoAppend(ts, Transfer(FromReg(n), d), Reg(m));
      assert Stored(h, s, m) == Into(ts, Reg(m));
      if Bank(h, m) < h.lanes { assert BankAfterMoves(h, s, Bank(h, m)); }
    }
  }

  lemma PortToKeeps(h: Shape, s: Signals, p: Dir, d: Operand)
    requires SignalsOk(h, s) && AfterMoves(h, s) && PortTo(h, s, p, d).Ok?
    ensures AfterMoves(h, PortTo(h, s, p, d).value)
  {
    var s' := PortTo(h, s, p, d).value;
    if d.Reg? { SlotBound(h, d.n); }
    forall b | 0 <= b < h.lanes ensures BankAfterMoves(h, s', b) {
      assert BankAfterMoves(h, s, b);
    }
    forall i | 0 <= i < h.ports ensures PortAfterMoves(h, s', i) {
      assert PortAfterMoves(h, s, i);
    }
  }

  lemma PortToPorts(h: Shape, s: Signals, p: Dir, d: Operand, ts: seq<Transfer>, e: Dir)
    requires SignalsOk(h, s) && PortTo(h, s, p, d).Ok? && Carried(h, s, Index(e)) == Into(ts, Port(e))
    ensures Carried(h, PortTo(h, s, p, d).value, Index(e)) == Into(ts + [Transfer(FromDir(Index(p)), d)], Port(e))
  {
    IntoAppend(ts, Transfer(FromDir(Index(p)), d), Port(e));
  }

  lemma PortToRegs(h: Shape, s: Signals, p: Dir, d: Operand, ts: seq<Transfer>, m: nat)
    requires SignalsOk(h, s) && PortTo(h, s, p, d).Ok? && Stored(h, s, m) == Into(ts, Reg(m))
    requires Bank(h, m) < h.lanes ==> BankAfterMoves(h, s, Bank(h, m))
    ensures Stored(h, PortTo(h, s, p, d).value, m) == Into(ts + [Transfer(FromDir(Index(p)), d)], Reg(m))
  {
    IntoAppend(ts, Transfer(FromDir(Index(p)), d), Reg(m));
    if d.Reg? && Bank(h, m) == Bank(h, d.n) && Slot(h, m) == Slot(h, d.n) { SameRegister(h, m, d.n); }
  }

  lemma PortToDelivers(h: Shape, s: Signals, p: Dir, d: Operand, ts: seq<Transfer>)
    requires SignalsOk(h, s) && AfterMoves(h, s) && Delivers(h, s, ts) && PortTo(h, s, p, d).Ok?
    ensures Delivers(h, PortTo(h, s, p, d).value, ts + [Transfer(FromDir(Index(p)), d)])
  {
    forall e: Dir
      ensures Carried(h, PortTo(h, s, p, d).value, Index(e)) == Into(ts + [Transfer(FromDir(Index(p)), d)], Port(e))
    {
      PortToPorts(h, s, p, d, ts, e);
    }
    forall m: nat
      ensures Stored(h, PortTo(h, s, p, d).value, m) == Into(ts + [Transfer(FromDir(Index(p)), d)], Reg(m))
    {
      PortToRegs(h, s, p, d, ts, m);
    }
  }

  lemma {:induction false} MoveToAllDelivers(h: Shape, s: Signals, src: Operand, ds: seq<Operand>, ts: seq<Transfer>)
    requires SignalsOk(h, s) && AfterMoves(h, s) && Delivers(h, s, ts)
    requires src.Reg? ==> Readable(h, s, src.n)
    requires !src.Imm? && MoveToAll(h, s, src, ds).Ok?
    ensures AfterMoves(h, MoveToAll(h, s, src, ds).value)
    ensures Delivers(h, MoveToAll(h, s, src, ds).value, ts + TransfersTo(SourceOf(src), ds))
    ensures src.Reg? ==> Readable(h, MoveToAll(h, s, src, ds).value, src.n)
  {
    if ds == [] {
      assert ts + TransfersTo(SourceOf(src), ds) == ts;
    } else {
      var init, d := ds[..|ds| - 1], ds[|ds| - 1];
      MoveToAllDelivers(h, s, src, init, ts);
      var s1 := MoveToAll(h, s, src, init).value;
      var ts1 := ts + TransfersTo(SourceOf(src), init);
      TransfersToAppend(SourceOf(src), ds);
      assert ts + TransfersTo(SourceOf(src), ds) == ts1 + [Transfer(SourceOf(src), d)];
      match src
      case Reg(n) =>
        RegToPortKeeps(h, s1, n, d);
        RegToPortDelivers(h, s1, n, d, ts1);
      case Port(p) =>
        PortToKeeps(h, s1, p, d);
        PortToDelivers(h, s1, p, d, ts1);
    }
  }

  lemma MoveSources(op: Operation)
    requires IsMove(op) && |Sources(op)| == 1
    ensures Sources(op) == op.srcs && |op.srcs| == 1 && !op.srcs[0].Imm?
  {
    assert Swapped(op) == op.srcs;
    assert op.srcs[..0] + op.srcs[1..] == [];
    assert !op.srcs[0].Imm? ==> StripImms(op.srcs, 0) == StripImms(op.srcs, 1);
  }

  lemma {:induction false} AddMovesDelivers(h: Shape, ops: seq<Operation>)
    requires ShapeOk(h) && (forall i :: 0 <= i < |ops| ==> IsMove(ops[i]))
    requires AddMoves(h, Blank(h), ops).Ok?
    ensures AfterMoves(h, AddMoves(h, Blank(h), ops).value)
    ensures Delivers(h, AddMoves(h, Blank(h), ops).value, MoveTransfers(ops))
  {
    if ops == [] {
      BlankDelivers(h);
    } else {
      var init, op := ops[..|ops| - 1], ops[|ops| - 1];
      assert IsMove(ops[|ops| - 1]);
      AddMovesDelivers(h, init);
      var s1 := AddMoves(h, Blank(h), init).value;
      MoveSources(op);
      MoveToAllDelivers(h, s1, op.srcs[0], op.dsts, MoveTransfers(init));
    }
  }

  // ---- immediates ----

  predicate NoImms(s: seq<Operand>) {
    forall i :: 0 <= i < |s| ==> !s[i].Imm?
  }

  lemma {:induction false} NonImmsConcat(a: seq<Operand>, b: seq<Operand>)
    ensures NonImms(a + b) == NonImms(a) + NonImms(b)
  {
    if a == [] {
      assert a + b == b;
    } else {
      assert (a + b)[1..] == a[1..] + b;
      NonImmsConcat(a[1..], b);
    }
  }

  lemma {:induction false} NonImmsOfNone(s: seq<Operand>)
    requires NoImms(s)
    ensures NonImms(s) == s
  {
    if s != [] {
      NonImmsOfNone(s[1..]);
      assert s == [s[0]] + s[1..];
    }
  }

  /** Deleting while walking may overlook an immediate; when it does not, it has removed
      exactly the immediates. */
  lemma {:induction false} StripImmsExact(s: seq<Operand>, i: nat)
    requires i <= |s| && NoImms(StripImms(s, i))
    ensures StripImms(s, i) == NonImms(s)
    decreases |s| - i
  {
    if i == |s| {
      NonImmsOfNone(s);
    } else if !s[i].Imm? {
      StripImmsExact(s, i + 1);
    } else {
      var s' := s[..i] + s[i + 1..];
      assert NonImms(s') == NonImms(s) by {
        assert s == s[..i] + ([s[i]] + s[i + 1..]);
        NonImmsConcat(s[..i], [s[i]] + s[i + 1..]);
        NonImmsConcat([s[i]], s[i + 1..]);
        NonImmsConcat(s[..i], s[i + 1..]);
      }
      if i + 1 <= |s'| {
        StripImmsExact(s', i + 1);
      } else {
        NonImmsOfNone(s');
      }
    }
  }

  // ---- phase 2: the FU's operands ----

  lemma {:induction false} PlacedExact(srcs: seq<Operand>, regs: bool)
    ensures forall o :: o in Placed(srcs, regs) <==> o.k < |srcs| && o.operand == srcs[o.k] && o.operand.Reg? == regs
  {
    if srcs != [] {
      PlacedExact(srcs[..|srcs| - 1], regs);
    }
  }

  /** Every operand is placed, at its own position. */
  lemma ReorderedExact(srcs: seq<Operand>)
    ensures forall o :: o in Reordered(srcs) <==> o.k < |srcs| && o.operand == srcs[o.k]
  {
    PlacedExact(srcs, true);
    PlacedExact(srcs, false);
  }

  /** Lane b after some operands, starting from the signals s0 the moves left. */
  ghost predicate LaneAfterReads(h: Shape, s0: Signals, s: Signals, b: nat)
    requires SignalsOk(h, s0) && SignalsOk(h, s) && b < h.lanes
  {
    && (s.fed[b].FedByReg? <==> s.readFu[b] || s0.readXbar[b])
    && (s.fed[b].FedByPort? ==> s.tileIn[h.ports + b] != 0)
    && (s.fed[b].FedByPort? || s.tileIn[h.ports + b] == s0.tileIn[h.ports + b])
    && s.tileIn[h.ports + b] <= 4
    && (s0.tileIn[h.ports + b] != 0 ==> s.tileIn[h.ports + b] == s0.tileIn[h.ports + b])
    && (!s.readFu[b] ==> s.readIdx[b] == s0.readIdx[b])
  }

  ghost predicate Elsewhere(h: Shape, s0: Signals, s: Signals)
    requires SignalsOk(h, s0) && SignalsOk(h, s)
  {
    && s.fuOut == s0.fuOut && s.readXbar == s0.readXbar && s.writeFrom == s0.writeFrom && s.writeIdx == s0.writeIdx
    && (forall i :: 0 <= i < h.ports ==> s.tileIn[i] == s0.tileIn[i])
  }

  /** Operand o has been wired: its shuffle code names a lane that carries it. */
  ghost predicate Wired(h: Shape, s: Signals, o: Slotted)
    requires SignalsOk(h, s)
  {
    && o.k < h.lanes && 0 < s.shuffle[o.k] <= h.lanes && !o.operand.Imm?
    && var lane := s.shuffle[o.k] - 1;
       match o.operand
       case Reg(n) => lane == Bank(h, n) && s.readFu[lane] && s.readIdx[lane] == Slot(h, n)
       case Port(p) => s.fed[lane].FedByPort? && s.tileIn[h.ports + lane] == Index(p) + 1
       case Imm(_) => false
  }

  ghost predicate AfterReads(h: Shape, s0: Signals, s: Signals, done: seq<Slotted>)
    requires SignalsOk(h, s0) && SignalsOk(h, s)
  {
    && Elsewhere(h, s0, s)
    && (forall b :: 0 <= b < h.lanes ==> LaneAfterReads(h, s0, s, b))
    && (forall o :: o in done ==> Wired(h, s, o))
    && (forall b :: 0 <= b < h.lanes && s.readFu[b] ==>
          exists o :: o in done && o.operand.Reg? && Bank(h, o.operand.n) == b)
    && (forall k :: 0 <= k < h.lanes && s.shuffle[k] != 0 ==> exists o :: o in done && o.k == k)
  }

  lemma ReadKeepsLanes(h: Shape, s0: Signals, s: Signals, o: Slotted)
    requires SignalsOk(h, s0) && SignalsOk(h, s) && Elsewhere(h, s0, s)
    requires forall b :: 0 <= b < h.lanes ==> LaneAfterReads(h, s0, s, b)
    requires ReadOperand(h, s, o).Ok?
    ensures Elsewhere(h, s0, ReadOperand(h, s, o).value)
    ensures forall b :: 0 <= b < h.lanes ==> LaneAfterReads(h, s0, ReadOperand(h, s, o).value, b)
  {
    var s' := ReadOperand(h, s, o).value;
    forall b | 0 <= b < h.lanes ensures LaneAfterReads(h, s0, s', b) {
      assert LaneAfterReads(h, s0, s, b);
    }
  }

  lemma ReadKeepsWired(h: Shape, s0: Signals, s: Signals, o: Slotted, x: Slotted)
    requires SignalsOk(h, s0) && SignalsOk(h, s) && ReadOperand(h, s, o).Ok?
    requires forall b :: 0 <= b < h.lanes ==> LaneAfterReads(h, s0, s, b)
    requires x == o || Wired(h, s, x)
    ensures Wired(h, ReadOperand(h, s, o).value, x)
  {
    if x != o {
      assert LaneAfterReads(h, s0, s, s.shuffle[x.k] - 1);
    }
  }

  lemma ReadKeeps(h: Shape, s0: Signals, s: Signals, done: seq<Slotted>, o: Slotted)
    requires SignalsOk(h, s0) && SignalsOk(h, s) && AfterReads(h, s0, s, done) && ReadOperand(h, s, o).Ok?
    ensures AfterReads(h, s0, ReadOperand(h, s, o).value, done + [o])
  {
    var s' := ReadOperand(h, s, o).value;
    ReadKeepsLanes(h, s0, s, o);
    forall x | x in done + [o] ensures Wired(h, s', x) {
      ReadKeepsWired(h, s0, s, o, x);
    }
    forall b | 0 <= b < h.lanes && s'.readFu[b]
      ensures exists x :: x in done + [o] && x.operand.Reg? && Bank(h, x.operand.n) == b
    {
      if s.readFu[b] {
        var x :| x in done && x.operand.Reg? && Bank(h, x.operand.n) == b;
        assert x in done + [o];
      } else {
        assert o in done + [o];
      }
    }
    forall k | 0 <= k < h.lanes && s'.shuffle[k] != 0 ensures exists x :: x in done + [o] && x.k == k {
      if s.shuffle[k] != 0 {
        var x :| x in done && x.k == k;
        assert x in done + [o];
      } else {
        assert o in done + [o];
      }
    }
  }

  lemma {:induction false} ReadsKeep(h: Shape, s0: Signals, os: seq<Slotted>)
    requires SignalsOk(h, s0) && AfterMoves(h, s0) && ReadOperands(h, s0, os).Ok?
    ensures AfterReads(h, s0, ReadOperands(h, s0, os).value, os)
  {
    if os == [] {
      forall b | 0 <= b < h.lanes ensures LaneAfterReads(h, s0, s0, b) && !s0.readFu[b] && s0.shuffle[b] == 0 {
        assert BankAfterMoves(h, s0, b);
      }
    } else {
      var init := os[..|os| - 1];
      ReadsKeep(h, s0, init);
      ReadKeeps(h, s0, ReadOperands(h, s0, init).value, init, os[|os| - 1]);
      assert os == init + [os[|os| - 1]];
    }
  }

  // ---- phase 3: the FU's result ----

  /** Everything but the FU crossbar and the write ports. */
  ghost predicate SameReads(s: Signals, s': Signals) {
    && s'.tileIn == s.tileIn && s'.readFu == s.readFu && s'.readXbar == s.readXbar
    && s'.fed == s.fed && s'.readIdx == s.readIdx && s'.shuffle == s.shuffle
  }

  ghost predicate BankAfterWrites(h: Shape, s0: Signals, s: Signals, b: nat)
    requires SignalsOk(h, s0) && SignalsOk(h, s) && b < h.lanes
  {
    && (s0.writeIdx[b] != -1 ==> s.writeIdx[b] == s0.writeIdx[b])
    && (s.fuOut[h.ports + b] == 0 ==> s.writeFrom[b] == s0.writeFrom[b] && s.writeIdx[b] == s0.writeIdx[b])
    && (s.fuOut[h.ports + b] != 0 ==> s.fuOut[h.ports + b] == 1 && s.writeFrom[b] == FROM_FU && s.writeIdx[b] >= 0)
  }

  ghost predicate Written(h: Shape, s: Signals, d: Operand)
    requires SignalsOk(h, s)
  {
    match d
    case Reg(n) => Bank(h, n) < h.lanes && s.fuOut[h.ports + Bank(h, n)] != 0 && s.writeIdx[Bank(h, n)] == Slot(h, n)
    case Port(e) => s.fuOut[Index(e)] == 1
    case Imm(_) => false
  }

  ghost predicate BankIsWritten(h: Shape, done: seq<Operand>, b: nat)
    requires ShapeOk(h)
  {
    exists x :: x in done && x.Reg? && Bank(h, x.n) == b
  }

  ghost predicate AfterWrites(h: Shape, s0: Signals, s: Signals, done: seq<Operand>)
    requires SignalsOk(h, s0) && SignalsOk(h, s)
  {
    && SameReads(s0, s)
    && (forall b :: 0 <= b < h.lanes ==> BankAfterWrites(h, s0, s, b))
    && (forall d :: d in done ==> Written(h, s, d))
    && (forall e: Dir :: s.fuOut[Index(e)] != 0 ==> Port(e) in done)
    && (forall i :: 4 <= i < h.ports ==> s.fuOut[i] == 0)
    && (forall b :: 0 <= b < h.lanes && s.fuOut[h.ports + b] != 0 ==> BankIsWritten(h, done, b))
  }

  lemma WriteKeepsBanks(h: Shape, s0: Signals, s: Signals, d: Operand)
    requires SignalsOk(h, s0) && SignalsOk(h, s) && WriteResult(h, s, d).Ok?
    requires forall b :: 0 <= b < h.lanes ==> BankAfterWrites(h, s0, s, b)
    ensures forall b :: 0 <= b < h.lanes ==> BankAfterWrites(h, s0, WriteResult(h, s, d).value, b)
  {
    var s' := WriteResult(h, s, d).value;
    forall b | 0 <= b < h.lanes ensures BankAfterWrites(h, s0, s', b) {
      assert BankAfterWrites(h, s0, s, b);
    }
  }

  lemma WriteKeepsWritten(h: Shape, s: Signals, d: Operand, x: Operand)
    requires SignalsOk(h, s) && WriteResult(h, s, d).Ok? && (x == d || Written(h, s, x))
    ensures Written(h, WriteResult(h, s, d).value, x)
  {
  }

  lemma WriteKeeps(h: Shape, s0: Signals, s: Signals, done: seq<Operand>, d: Operand)
    requires SignalsOk(h, s0) && SignalsOk(h, s) && AfterWrites(h, s0, s, done) && WriteResult(h, s, d).Ok?
    ensures AfterWrites(h, s0, WriteResult(h, s, d).value, done + [d])
  {
    var s' := WriteResult(h, s, d).value;
    WriteKeepsBanks(h, s0, s, d);
    forall x | x in done + [d] ensures Written(h, s', x) {
      WriteKeepsWritten(h, s, d, x);
    }
    forall b | 0 <= b < h.lanes && s'.fuOut[h.ports + b] != 0
      ensures BankIsWritten(h, done + [d], b)
    {
      if s.fuOut[h.ports + b] != 0 {
        assert BankIsWritten(h, done, b);
        var x :| x in done && x.Reg? && Bank(h, x.n) == b;
        assert x in done + [d];
      } else {
        assert d in done + [d];
      }
    }
  }

  lemma {:induction false} WritesKeep(h: Shape, s0: Signals, ds: seq<Operand>)
    requires SignalsOk(h, s0) && (forall j :: 0 <= j < |s0.fuOut| ==> s0.fuOut[j] == 0) && WriteResults(h, s0, ds).Ok?
    ensures AfterWrites(h, s0, WriteResults(h, s0, ds).value, ds)
  {
    if ds != [] {
      var init := ds[..|ds| - 1];
      WritesKeep(h, s0, init);
      WriteKeeps(h, s0, WriteResults(h, s0, init).value, init, ds[|ds| - 1]);
      assert ds == init + [ds[|ds| - 1]];
    }
  }

  // ---- meaning ----

  lemma {:induction false} SelectKind(ops: seq<Operation>, fu: bool)
    ensures forall i :: 0 <= i < |Select(ops, fu)| ==> TakesFu(Select(ops, fu)[i]) == Ok(fu)
  {
    if ops != [] {
      SelectKind(ops[1..], fu);
    }
  }

  lemma RoutedIsCarried(h: Shape, s: Signals, j: nat)
    requires SignalsOk(h, s) && j < h.ports + h.lanes
    requires s.tileIn[j] > h.ports ==> s.tileIn[j] - 1 - h.ports < h.lanes && s.readXbar[s.tileIn[j] - 1 - h.ports]
    ensures Routed(h, Encode(h, s), j) == Carried(h, s, j)
  {
  }

  /** The three phases of an accepted instruction with an FU operation: signals after the
      moves, after the operand reads and after the result writes. */
  ghost predicate Phases(h: Shape, s0: Signals, s1: Signals, s: Signals, ms: seq<Transfer>, os: seq<Operand>,
          ds: seq<Operand>) {
    && SignalsOk(h, s0) && SignalsOk(h, s1) && SignalsOk(h, s)
    && AfterMoves(h, s0) && Delivers(h, s0, ms)
    && AfterReads(h, s0, s1, Reordered(os)) && AfterWrites(h, s1, s, ds)
  }

  lemma OperandWired(h: Shape, s0: Signals, s1: Signals, s: Signals, o: Slotted)
    requires SignalsOk(h, s0) && SignalsOk(h, s1) && SignalsOk(h, s) && SameReads(s1, s) && Wired(h, s1, o)
    requires forall b :: 0 <= b < h.lanes ==> LaneAfterReads(h, s0, s1, b)
    ensures OperandSource(h, Encode(h, s), o.k) == {SourceOf(o.operand)}
  {
    var lane := s1.shuffle[o.k] - 1;
    assert LaneAfterReads(h, s0, s1, lane);
    match o.operand
    case Reg(n) => SlotBound(h, n);
    case Port(p) => RoutedIsCarried(h, s, h.ports + lane);
  }

  /** FU operand k is the k-th source; no further operand is connected. */
  lemma OperandsFaithful(h: Shape, s0: Signals, s1: Signals, s: Signals, ms: seq<Transfer>, os: seq<Operand>,
          ds: seq<Operand>)
    requires Phases(h, s0, s1, s, ms, os, ds)
    ensures |os| <= h.lanes && NoImms(os)
    ensures forall k :: 0 <= k < |os| ==> OperandSource(h, Encode(h, s), k) == {SourceOf(os[k])}
    ensures forall k :: |os| <= k < h.lanes ==> OperandSource(h, Encode(h, s), k) == {}
  {
    ReorderedExact(os);
    forall k | 0 <= k < |os|
      ensures k < h.lanes && !os[k].Imm? && OperandSource(h, Encode(h, s), k) == {SourceOf(os[k])}
    {
      assert Slotted(k, os[k]) in Reordered(os);
      OperandWired(h, s0, s1, s, Slotted(k, os[k]));
    }
    assert |os| > 0 ==> !os[|os| - 1].Imm?;
    forall k | |os| <= k < h.lanes ensures OperandSource(h, Encode(h, s), k) == {} {
      assert s1.shuffle[k] != 0 ==> exists o :: o in Reordered(os) && o.k == k;
    }
  }

  lemma PortSourcesAre(h: Shape, s0: Signals, s1: Signals, s: Signals, ms: seq<Transfer>, os: seq<Operand>,
          ds: seq<Operand>, e: Dir)
    requires Phases(h, s0, s1, s, ms, os, ds)
    ensures PortSources(h, Encode(h, s), Index(e)) ==
      if Port(e) !in ds then Carried(h, s, Index(e)) else if Carried(h, s, Index(e)) == {} then {FuResult} else {Ored}
    ensures s.tileIn[Index(e)] == s0.tileIn[Index(e)]
  {
    assert PortAfterMoves(h, s0, Index(e));
    RoutedIsCarried(h, s, Index(e));
    assert Port(e) in ds ==> Written(h, s, Port(e));
  }

  lemma HighPortsIdle(h: Shape, s0: Signals, s1: Signals, s: Signals, ms: seq<Transfer>, os: seq<Operand>,
          ds: seq<Operand>, i: nat)
    requires Phases(h, s0, s1, s, ms, os, ds) && 4 <= i < h.ports
    ensures PortSources(h, Encode(h, s), i) == {}
  {
    assert PortAfterMoves(h, s0, i);
  }

  /** A register is read towards the crossbar because some move names it. */
  lemma ReadByAMove(h: Shape, s0: Signals, ms: seq<Transfer>, e: Dir, b: nat)
    requires SignalsOk(h, s0) && AfterMoves(h, s0) && Delivers(h, s0, ms)
    requires b < h.lanes && s0.tileIn[Index(e)] == b + 1 + h.ports
    ensures 0 <= s0.readIdx[b] < h.regs
    ensures exists i :: 0 <= i < |ms| && ms[i].src == FromReg(b * h.regs + s0.readIdx[b])
  {
    assert PortAfterMoves(h, s0, Index(e));
    assert BankAfterMoves(h, s0, b);
    var x := FromReg(b * h.regs + s0.readIdx[b]);
    assert Carried(h, s0, Index(e)) == {x};
    assert x in Into(ms, Port(e));
  }

  ghost predicate ReadsClash(h: Shape, ms: seq<Transfer>, os: seq<Operand>)
    requires ShapeOk(h)
  {
    exists i, k :: 0 <= i < |ms| && 0 <= k < |os| && ReadClash(h, ms[i].src, os[k])
  }

  /** A bank's read address changes only to that of an operand read from it. */
  lemma ReadByAnOperand(h: Shape, s0: Signals, s1: Signals, os: seq<Operand>, b: nat)
    requires SignalsOk(h, s0) && SignalsOk(h, s1) && AfterReads(h, s0, s1, Reordered(os)) && b < h.lanes
    requires s1.readIdx[b] != s0.readIdx[b]
    ensures exists k :: 0 <= k < |os| && os[k].Reg? && Bank(h, os[k].n) == b && Slot(h, os[k].n) == s1.readIdx[b]
  {
    assert LaneAfterReads(h, s0, s1, b);
    var o :| o in Reordered(os) && o.operand.Reg? && Bank(h, o.operand.n) == b;
    ReorderedExact(os);
    assert Wired(h, s1, o);
    assert os[o.k] == o.operand;
  }

  lemma OneReadPerBank(h: Shape, ms: seq<Transfer>, os: seq<Operand>, b: nat, x: nat, y: int)
    requires ShapeOk(h) && x < h.regs && !ReadsClash(h, ms, os)
    requires exists i :: 0 <= i < |ms| && ms[i].src == FromReg(b * h.regs + x)
    requires exists k :: 0 <= k < |os| && os[k].Reg? && Bank(h, os[k].n) == b && Slot(h, os[k].n) == y
    ensures x == y
  {
    var i :| 0 <= i < |ms| && ms[i].src == FromReg(b * h.regs + x);
    var k :| 0 <= k < |os| && os[k].Reg? && Bank(h, os[k].n) == b && Slot(h, os[k].n) == y;
    RegisterAt(h, b, x);
    assert !ReadClash(h, ms[i].src, os[k]);
  }

  /** Without a read clash, what the FU reads leaves the register read for a port alone. */
  lemma BankUndisturbed(h: Shape, s0: Signals, s1: Signals, ms: seq<Transfer>, os: seq<Operand>, e: Dir, b: nat)
    requires SignalsOk(h, s0) && AfterMoves(h, s0) && Delivers(h, s0, ms) && SignalsOk(h, s1)
    requires AfterReads(h, s0, s1, Reordered(os)) && !ReadsClash(h, ms, os)
    requires b < h.lanes && s0.tileIn[Index(e)] == b + 1 + h.ports
    ensures s1.readIdx[b] == s0.readIdx[b]
  {
    if s1.readIdx[b] != s0.readIdx[b] {
      ReadByAMove(h, s0, ms, e, b);
      ReadByAnOperand(h, s0, s1, os, b);
      OneReadPerBank(h, ms, os, b, s0.readIdx[b], s1.readIdx[b]);
    }
  }

  lemma PortsFaithful(h: Shape, s0: Signals, s1: Signals, s: Signals, ms: seq<Transfer>, os: seq<Operand>,
          ds: seq<Operand>, e: Dir)
    requires Phases(h, s0, s1, s, ms, os, ds) && !ReadsClash(h, ms, os) && !WritesClash(ms, ds)
    ensures PortSources(h, Encode(h, s), Index(e)) == Into(ms + TransfersTo(FuResult, ds), Port(e))
  {
    assert Into(ms + TransfersTo(FuResult, ds), Port(e))
      == Into(ms, Port(e)) + if Port(e) in ds then {FuResult} else {} by {
      IntoConcat(ms, TransfersTo(FuResult, ds), Port(e));
      TransfersToInto(FuResult, ds, Port(e));
    }
    assert Carried(h, s, Index(e)) == Into(ms, Port(e)) by {
      assert s.tileIn[Index(e)] == s0.tileIn[Index(e)] && PortAfterMoves(h, s0, Index(e));
      if s0.tileIn[Index(e)] > h.ports {
        BankUndisturbed(h, s0, s1, ms, os, e, s0.tileIn[Index(e)] - 1 - h.ports);
      }
    }
    assert Port(e) in ds ==> Into(ms, Port(e)) == {} by {
      assert forall j :: 0 <= j < |ds| && ds[j] == Port(e) ==> forall i :: 0 <= i < |ms| ==> ms[i].dst != ds[j];
    }
    PortSourcesAre(h, s0, s1, s, ms, os, ds, e);
  }

  lemma StoredFromDirs(h: Shape, s: Signals, m: nat)
    requires SignalsOk(h, s) && AfterMoves(h, s)
    ensures forall x :: x in Stored(h, s, m) ==> x.FromDir?
  {
    if Bank(h, m) < h.lanes { assert BankAfterMoves(h, s, Bank(h, m)); }
  }

  /** A move out of a register ends at a port, which takes that register's bank. */
  lemma MovedRegister(h: Shape, s0: Signals, ms: seq<Transfer>, i: nat, n: nat)
    requires SignalsOk(h, s0) && AfterMoves(h, s0) && Delivers(h, s0, ms) && i < |ms| && ms[i].src == FromReg(n)
    ensures ms[i].dst.Port? && Bank(h, n) < h.lanes
    ensures s0.tileIn[Index(ms[i].dst.dir)] == Bank(h, n) + 1 + h.ports
  {
    var d := ms[i].dst;
    assert FromReg(n) in Into(ms, d);
    if d.Reg? {
      StoredFromDirs(h, s0, d.n);
    } else if d.Port? {
      assert FromReg(n) in Carried(h, s0, Index(d.dir));
      var b := s0.tileIn[Index(d.dir)] - 1 - h.ports;
      assert PortAfterMoves(h, s0, Index(d.dir));
      assert BankAfterMoves(h, s0, b);
      RegisterAt(h, b, s0.readIdx[b]);
    }
  }

  lemma RegOperandRead(h: Shape, s1: Signals, os: seq<Operand>, k: nat)
    requires SignalsOk(h, s1) && (forall o :: o in Reordered(os) ==> Wired(h, s1, o)) && k < |os| && os[k].Reg?
    ensures Bank(h, os[k].n) < h.lanes && s1.readIdx[Bank(h, os[k].n)] == Slot(h, os[k].n)
  {
    ReorderedExact(os);
    assert Slotted(k, os[k]) in Reordered(os);
    assert Wired(h, s1, Slotted(k, os[k]));
  }

  /** With a read clash, the port gets the register the FU reads instead. */
  lemma PortsUnfaithful(h: Shape, s0: Signals, s1: Signals, s: Signals, ms: seq<Transfer>, os: seq<Operand>,
          ds: seq<Operand>)
    requires Phases(h, s0, s1, s, ms, os, ds) && ReadsClash(h, ms, os)
    ensures exists e: Dir :: PortSources(h, Encode(h, s), Index(e)) != Into(ms + TransfersTo(FuResult, ds), Port(e))
  {
    var i, k :| 0 <= i < |ms| && 0 <= k < |os| && ReadClash(h, ms[i].src, os[k]);
    var n, r := ms[i].src.n, os[k].n;
    var e := PortClashes(h, s0, s1, s, ms, os, ds, i, k);
    IntoConcat(ms, TransfersTo(FuResult, ds), Port(e));
    assert FromReg(n) in Into(ms, Port(e));
  }

  lemma PortClashes(h: Shape, s0: Signals, s1: Signals, s: Signals, ms: seq<Transfer>, os: seq<Operand>,
          ds: seq<Operand>, i: nat, k: nat)
    returns (e: Dir)
    requires Phases(h, s0, s1, s, ms, os, ds) && i < |ms| && k < |os| && ReadClash(h, ms[i].src, os[k])
    ensures ms[i].dst == Port(e) && ms[i].src !in PortSources(h, Encode(h, s), Index(e))
  {
    MovedRegister(h, s0, ms, i, ms[i].src.n);
    e := ms[i].dst.dir;
    assert Carried(h, s, Index(e)) == {FromReg(os[k].n)} by {
      RegOperandRead(h, s1, os, k);
      SlotBound(h, os[k].n);
      assert s.tileIn[Index(e)] == s0.tileIn[Index(e)];
    }
    PortSourcesAre(h, s0, s1, s, ms, os, ds, e);
  }

  ghost predicate WritesClash(ms: seq<Transfer>, ds: seq<Operand>) {
    exists i, j :: 0 <= i < |ms| && 0 <= j < |ds| && ms[i].dst == ds[j]
  }

  lemma BankStores(h: Shape, s0: Signals, s1: Signals, s: Signals, n: nat)
    requires SignalsOk(h, s0) && SignalsOk(h, s1) && SignalsOk(h, s) && Bank(h, n) < h.lanes
    requires SameReads(s1, s) && s1.writeFrom == s0.writeFrom && s1.writeIdx == s0.writeIdx
    requires BankAfterMoves(h, s0, Bank(h, n)) && LaneAfterReads(h, s0, s1, Bank(h, n))
    requires BankAfterWrites(h, s1, s, Bank(h, n))
    ensures RegSources(h, Encode(h, s), n) ==
      if s.fuOut[h.ports + Bank(h, n)] == 0 then Stored(h, s0, n)
      else if s.writeIdx[Bank(h, n)] == Slot(h, n) then {FuResult} else {}
    ensures s.fuOut[h.ports + Bank(h, n)] != 0 && s.writeIdx[Bank(h, n)] != Slot(h, n) ==> Stored(h, s0, n) == {}
  {
    var b := Bank(h, n);
    RoutedIsCarried(h, s, h.ports + b);
    assert OrZero(s.writeIdx[b]) == Slot(h, n) ==> s.writeIdx[b] == Slot(h, n) || s.writeIdx[b] < 0;
  }

  lemma WrittenRegisters(h: Shape, s1: Signals, s: Signals, ds: seq<Operand>, n: nat)
    requires SignalsOk(h, s1) && SignalsOk(h, s) && AfterWrites(h, s1, s, ds) && Bank(h, n) < h.lanes
    ensures Reg(n) in ds <==> s.fuOut[h.ports + Bank(h, n)] != 0 && s.writeIdx[Bank(h, n)] == Slot(h, n)
  {
    var b := Bank(h, n);
    if Reg(n) in ds {
      assert Written(h, s, Reg(n));
    } else if s.fuOut[h.ports + b] != 0 && s.writeIdx[b] == Slot(h, n) {
      assert BankIsWritten(h, ds, b);
      var x :| x in ds && x.Reg? && Bank(h, x.n) == b;
      assert Written(h, s, x);
      SameRegister(h, x.n, n);
    }
  }

  /** What register n receives. */
  lemma RegSourcesAre(h: Shape, s0: Signals, s1: Signals, s: Signals, ms: seq<Transfer>, os: seq<Operand>,
          ds: seq<Operand>, n: nat)
    requires Phases(h, s0, s1, s, ms, os, ds)
    ensures RegSources(h, Encode(h, s), n) == if Reg(n) in ds then {FuResult} else Stored(h, s0, n)
  {
    var b := Bank(h, n);
    if b < h.lanes {
      BankStores(h, s0, s1, s, n);
      WrittenRegisters(h, s1, s, ds, n);
    } else {
      assert Reg(n) in ds ==> Written(h, s, Reg(n));
    }
  }

  lemma RegsFaithful(h: Shape, s0: Signals, s1: Signals, s: Signals, ms: seq<Transfer>, os: seq<Operand>,
          ds: seq<Operand>, n: nat)
    requires Phases(h, s0, s1, s, ms, os, ds) && !WritesClash(ms, ds)
    ensures RegSources(h, Encode(h, s), n) == Into(ms + TransfersTo(FuResult, ds), Reg(n))
  {
    RegSourcesAre(h, s0, s1, s, ms, os, ds, n);
    IntoConcat(ms, TransfersTo(FuResult, ds), Reg(n));
    TransfersToInto(FuResult, ds, Reg(n));
    if Reg(n) in ds {
      var j :| 0 <= j < |ds| && ds[j] == Reg(n);
      assert Into(ms, Reg(n)) == {};
    }
  }

  /** With a write clash at a register, the FU's result replaces the port's value. */
  lemma RegsUnfaithful(h: Shape, s0: Signals, s1: Signals, s: Signals, ms: seq<Transfer>, os: seq<Operand>,
          ds: seq<Operand>, i: nat, n: nat)
    requires Phases(h, s0, s1, s, ms, os, ds) && i < |ms| && ms[i].dst == Reg(n) && Reg(n) in ds
    ensures ms[i].src !in RegSources(h, Encode(h, s), n) && ms[i].src in Into(ms + TransfersTo(FuResult, ds), Reg(n))
  {
    RegSourcesAre(h, s0, s1, s, ms, os, ds, n);
    IntoConcat(ms, TransfersTo(FuResult, ds), Reg(n));
    assert ms[i].src in Into(ms, Reg(n));
    assert Stored(h, s0, n) == Into(ms, Reg(n));
  }

  /** With a write clash at a port, neither value leaves through it, but their or. */
  lemma PortsOred(h: Shape, s0: Signals, s1: Signals, s: Signals, ms: seq<Transfer>, os: seq<Operand>,
          ds: seq<Operand>, i: nat, e: Dir)
    requires Phases(h, s0, s1, s, ms, os, ds) && i < |ms| && ms[i].dst == Port(e) && Port(e) in ds
    ensures PortSources(h, Encode(h, s), Index(e)) == {Ored}
    ensures ms[i].src in Into(ms + TransfersTo(FuResult, ds), Port(e)) && ms[i].src != Ored
  {
    PortSourcesAre(h, s0, s1, s, ms, os, ds, e);
    IntoConcat(ms, TransfersTo(FuResult, ds), Port(e));
    assert ms[i].src in Into(ms, Port(e));
    assert ms[i].src in Carried(h, s0, Index(e));
  }

  /** A write clash shows at the register or port it is about. */
  lemma WritesUnfaithful(h: Shape, s0: Signals, s1: Signals, s: Signals, ms: seq<Transfer>, os: seq<Operand>,
          ds: seq<Operand>)
    requires Phases(h, s0, s1, s, ms, os, ds) && WritesClash(ms, ds)
    ensures (exists n: nat :: RegSources(h, Encode(h, s), n) != Into(ms + TransfersTo(FuResult, ds), Reg(n)))
         || (exists e: Dir :: PortSources(h, Encode(h, s), Index(e)) != Into(ms + TransfersTo(FuResult, ds), Port(e)))
  {
    var i, j :| 0 <= i < |ms| && 0 <= j < |ds| && ms[i].dst == ds[j];
    match ms[i].dst {
      case Reg(n) => RegsUnfaithful(h, s0, s1, s, ms, os, ds, i, n);
      case Port(e) => PortsOred(h, s0, s1, s, ms, os, ds, i, e);
      case Imm(_) => assert false;
    }
  }

  lemma MovesOnlyRegs(h: Shape, s: Signals, n: nat)
    requires SignalsOk(h, s) && AfterMoves(h, s)
    ensures RegSources(h, Encode(h, s), n) == Stored(h, s, n)
  {
    if Bank(h, n) < h.lanes {
      assert BankAfterMoves(h, s, Bank(h, n));
      RoutedIsCarried(h, s, h.ports + Bank(h, n));
    }
  }

  lemma MovesOnlyPorts(h: Shape, s: Signals, i: nat)
    requires SignalsOk(h, s) && AfterMoves(h, s) && i < h.ports
    ensures PortSources(h, Encode(h, s), i) == Carried(h, s, i)
    ensures 4 <= i ==> Carried(h, s, i) == {}
  {
    assert PortAfterMoves(h, s, i);
    RoutedIsCarried(h, s, i);
  }

  lemma MovesOnly(h: Shape, s: Signals, ops: seq<Operation>)
    requires SignalsOk(h, s) && AfterMoves(h, s) && Delivers(h, s, MoveTransfers(Select(ops, false)))
    requires Select(ops, true) == []
    ensures Faithful(h, Encode(h, s), ops)
  {
    var w, ms := Encode(h, s), MoveTransfers(Select(ops, false));
    assert Transfers(ops) == ms;
    forall k | 0 <= k < h.lanes ensures OperandSource(h, w, k) == {} {
      assert BankAfterMoves(h, s, k);
    }
    forall i | 0 <= i < h.ports
      ensures PortSources(h, w, i) == Carried(h, s, i) && (4 <= i ==> PortSources(h, w, i) == {})
    {
      MovesOnlyPorts(h, s, i);
    }
    forall n: nat ensures RegSources(h, w, n) == Into(ms, Reg(n)) {
      MovesOnlyRegs(h, s, n);
    }
  }

  lemma WithFu(h: Shape, s0: Signals, s1: Signals, s: Signals, ops: seq<Operation>)
    requires |Select(ops, true)| == 1
    requires Phases(h, s0, s1, s, MoveTransfers(Select(ops, false)), FuOperands(ops), Select(ops, true)[0].dsts)
    ensures Faithful(h, Encode(h, s), ops) <==> !Clash(h, ops)
  {
    var ms, os, ds := MoveTransfers(Select(ops, false)), FuOperands(ops), Select(ops, true)[0].dsts;
    assert Transfers(ops) == ms + TransfersTo(FuResult, ds);
    OperandsFaithful(h, s0, s1, s, ms, os, ds);
    if ReadsClash(h, ms, os) {
      PortsUnfaithful(h, s0, s1, s, ms, os, ds);
    } else if WritesClash(ms, ds) {
      WritesUnfaithful(h, s0, s1, s, ms, os, ds);
    } else {
      forall e: Dir ensures PortSources(h, Encode(h, s), Index(e)) == Into(Transfers(ops), Port(e)) {
        PortsFaithful(h, s0, s1, s, ms, os, ds, e);
      }
      forall i | 4 <= i < h.ports ensures PortSources(h, Encode(h, s), i) == {} {
        HighPortsIdle(h, s0, s1, s, ms, os, ds, i);
      }
      forall n: nat ensures RegSources(h, Encode(h, s), n) == Into(Transfers(ops), Reg(n)) {
        RegsFaithful(h, s0, s1, s, ms, os, ds, n);
      }
    }
  }

  /** A register operand's lane is routed to exactly if a move writes its bank. */
  lemma LaneShared(h: Shape, s0: Signals, ms: seq<Transfer>, b: nat)
    requires SignalsOk(h, s0) && AfterMoves(h, s0) && Delivers(h, s0, ms) && b < h.lanes
    ensures s0.tileIn[h.ports + b] != 0 <==> exists i :: 0 <= i < |ms| && ms[i].dst.Reg? && Bank(h, ms[i].dst.n) == b
  {
    assert BankAfterMoves(h, s0, b);
    if s0.tileIn[h.ports + b] != 0 {
      var n := RegisterNo(h, b, s0.writeIdx[b]);
      RegisterAt(h, b, s0.writeIdx[b]);
      assert FromDir(s0.tileIn[h.ports + b] - 1) in Stored(h, s0, n);
      assert Into(ms, Reg(n)) != {};
    }
    if i :| 0 <= i < |ms| && ms[i].dst.Reg? && Bank(h, ms[i].dst.n) == b {
      assert ms[i].src in Into(ms, Reg(ms[i].dst.n));
      assert Stored(h, s0, ms[i].dst.n) != {};
    }
  }

  /** What else a register operand can receive: what a move brings to its lane. */
  lemma ChoicesAre(h: Shape, s0: Signals, s1: Signals, s: Signals, o: Slotted, ms: seq<Transfer>)
    requires SignalsOk(h, s0) && SignalsOk(h, s1) && SignalsOk(h, s) && SameReads(s1, s) && Wired(h, s1, o)
    requires AfterMoves(h, s0) && Delivers(h, s0, ms) && forall b :: 0 <= b < h.lanes ==> LaneAfterReads(h, s0, s1, b)
    ensures OperandChoices(h, Encode(h, s), o.k) == {SourceOf(o.operand)} <==>
              !exists i :: 0 <= i < |ms| && SameLane(h, ms[i].dst, o.operand)
  {
    var lane := s1.shuffle[o.k] - 1;
    OperandWired(h, s0, s1, s, o);
    assert LaneAfterReads(h, s0, s1, lane);
    RoutedIsCarried(h, s, h.ports + lane);
    if o.operand.Reg? {
      LaneShared(h, s0, ms, lane);
      assert forall i :: 0 <= i < |ms| ==>
        (SameLane(h, ms[i].dst, o.operand) <==> ms[i].dst.Reg? && Bank(h, ms[i].dst.n) == lane);
      assert s.tileIn[h.ports + lane] != 0 ==>
        FromDir(s.tileIn[h.ports + lane] - 1) in OperandChoices(h, Encode(h, s), o.k);
    }
  }

  /** A missing token can give an operand another value exactly when a move brings one to its
      lane; if not, the operand waits. */
  lemma TokensMatterExactly(h: Shape, ops: seq<Operation>)
    requires ShapeOk(h) && Build(h, ops).Ok?
    ensures var w, os := Encode(h, Build(h, ops).value), FuOperands(ops);
            && |os| <= h.lanes && NoImms(os)
            && ((forall k :: 0 <= k < |os| ==> OperandChoices(h, w, k) == {SourceOf(os[k])}) <==> !SharesLane(h, ops))
  {
    SelectKind(ops, false);
    var moves, fus := Select(ops, false), Select(ops, true);
    AddMovesDelivers(h, moves);
    var s0, os, ms := AddMoves(h, Blank(h), moves).value, FuOperands(ops), MoveTransfers(moves);
    if fus != [] {
      var s1, s := ReadOperands(h, s0, Reordered(Sources(fus[0]))).value, Build(h, ops).value;
      FuPhases(h, s0, ms, fus[0]);
      StripImmsExact(Swapped(fus[0]), 0);
      OperandsFaithful(h, s0, s1, s, ms, os, fus[0].dsts);
      forall k | 0 <= k < |os|
        ensures OperandChoices(h, Encode(h, s), k) == {SourceOf(os[k])} <==>
                  !exists i :: 0 <= i < |ms| && SameLane(h, ms[i].dst, os[k])
      {
        ReorderedExact(os);
        assert Slotted(k, os[k]) in Reordered(os);
        ChoicesAre(h, s0, s1, s, Slotted(k, os[k]), ms);
      }
    }
  }

  lemma FuCrossbarUnused(h: Shape, s0: Signals)
    requires SignalsOk(h, s0) && AfterMoves(h, s0)
    ensures forall j :: 0 <= j < |s0.fuOut| ==> s0.fuOut[j] == 0
  {
    forall j | 0 <= j < h.ports + h.lanes ensures s0.fuOut[j] == 0 {
      if j < h.ports { assert PortAfterMoves(h, s0, j); } else { assert BankAfterMoves(h, s0, j - h.ports); }
    }
  }

  lemma ReadsHaveNoImms(h: Shape, s0: Signals, s1: Signals, os: seq<Operand>)
    requires SignalsOk(h, s0) && SignalsOk(h, s1) && AfterReads(h, s0, s1, Reordered(os))
    ensures NoImms(os)
  {
    ReorderedExact(os);
    forall k | 0 <= k < |os| ensures !os[k].Imm? {
      assert Slotted(k, os[k]) in Reordered(os);
      assert Wired(h, s1, Slotted(k, os[k]));
    }
  }

  lemma FuPhases(h: Shape, s0: Signals, ms: seq<Transfer>, op: Operation)
    requires SignalsOk(h, s0) && AfterMoves(h, s0) && Delivers(h, s0, ms) && AddFu(h, s0, op).Ok?
    ensures NoImms(Sources(op))
    ensures Phases(h, s0, ReadOperands(h, s0, Reordered(Sources(op))).value, AddFu(h, s0, op).value,
                   ms, Sources(op), op.dsts)
  {
    var os := Sources(op);
    ReadsKeep(h, s0, Reordered(os));
    var s1 := ReadOperands(h, s0, Reordered(os)).value;
    ReadsHaveNoImms(h, s0, s1, os);
    FuCrossbarUnused(h, s0);
    WritesKeep(h, s1, op.dsts);
  }

  /** Translation preserves meaning, exactly on the instructions free of the clashes. */
  lemma BuildMeansWhatItSays(h: Shape, ops: seq<Operation>)
    requires ShapeOk(h) && Build(h, ops).Ok?
    ensures Faithful(h, Encode(h, Build(h, ops).value), ops) <==> !Clash(h, ops)
  {
    SelectKind(ops, false);
    var moves, fus := Select(ops, false), Select(ops, true);
    AddMovesDelivers(h, moves);
    var s0 := AddMoves(h, Blank(h), moves).value;
    if fus == [] {
      MovesOnly(h, s0, ops);
    } else {
      var op := fus[0];
      FuPhases(h, s0, MoveTransfers(moves), op);
      StripImmsExact(Swapped(op), 0);
      WithFu(h, s0, ReadOperands(h, s0, Reordered(Sources(op))).value, Build(h, ops).value, ops);
    }
  }

  // ---- the clashes are accepted ----

  lemma OneSource(op: Operation)
    requires !op.opcode.Store? && |op.srcs| == 1 && !op.srcs[0].Imm?
    ensures Sources(op) == op.srcs
  {
    assert StripImms(op.srcs, 0) == StripImms(op.srcs, 1);
  }

  lemma OneMove(h: Shape, s: Signals, op: Operation)
    requires SignalsOk(h, s) && IsMove(op) && |op.srcs| == 1 && !op.srcs[0].Imm? && |op.dsts| == 1
    requires op.srcs[0].Reg? ==> CheckRegMove(h, s, op.srcs[0].n).Ok?
    ensures AddMoves(h, s, [op]) == MoveTo(h, s, op.srcs[0], op.dsts[0])
    ensures MoveTransfers([op]) == [Transfer(SourceOf(op.srcs[0]), op.dsts[0])]
  {
    OneSource(op);
    assert [op][..0] == [] && op.dsts[..0] == [];
    assert MoveToAll(h, s, op.srcs[0], []) == Ok(s) && AddMoves(h, s, []) == Ok(s) && MoveTransfers([]) == [];
  }

  lemma OneFu(h: Shape, s: Signals, op: Operation)
    requires SignalsOk(h, s) && !op.opcode.Store? && |op.srcs| == 1 && op.srcs[0].Reg? && |op.dsts| == 1
    requires ReadOperand(h, s, Slotted(0, op.srcs[0])).Ok?
    ensures AddFu(h, s, op) == WriteResult(h, ReadOperand(h, s, Slotted(0, op.srcs[0])).value, op.dsts[0])
    ensures NonImms(Swapped(op)) == op.srcs
  {
    OneSource(op);
    NonImmsOfNone(op.srcs);
    var o := Slotted(0, op.srcs[0]);
    assert op.srcs[..0] == [];
    assert Placed([], true) == [] && Placed([], false) == [];
    assert Reordered(op.srcs) == [o];
    assert [o][..0] == [] && op.dsts[..0] == [];
    assert ReadOperands(h, s, []) == Ok(s);
    assert ReadOperands(h, s, [o]) == ReadOperand(h, s, o);
    var s1 := ReadOperand(h, s, o).value;
    assert WriteResults(h, s1, []) == Ok(s1);
  }

  lemma SelectTwo(move: Operation, fu: Operation)
    requires IsMove(move) && IsFu(fu)
    ensures Select([move, fu], false) == [move] && Select([move, fu], true) == [fu] && WellFormed([move, fu])
  {
    var none: seq<Operation> := [];
    assert [move, fu][1..] == [fu] && [fu][1..] == none;
    assert Select(none, true) == none && Select(none, false) == none;
    assert Select([fu], false) == none && Select([fu], true) == [fu];
  }

  /** The first clash: the register moved east shares a bank with the one the FU reads,
      and the word sends the wrong one. */
  lemma ReadClashIsAccepted()
    ensures
      var h, ops := Shape(1, 4, 2),
          [Operation(Mov, [Reg(1)], [Port(East)], 0), Operation(Other("NOT"), [Reg(0)], [Port(North)], 0)];
      Build(h, ops).Ok? && !Faithful(h, Encode(h, Build(h, ops).value), ops)
  {
    var h, move := Shape(1, 4, 2), Operation(Mov, [Reg(1)], [Port(East)], 0);
    var fu := Operation(Other("NOT"), [Reg(0)], [Port(North)], 0);
    SelectTwo(move, fu);
    OneMove(h, Blank(h), move);
    OneFu(h, AddMoves(h, Blank(h), [move]).value, fu);
    assert ReadClash(h, MoveTransfers([move])[0].src, FuOperands([move, fu])[0]);
    BuildMeansWhatItSays(h, [move, fu]);
  }

  /** The second, at a register: the FU's result replaces the value the port brings. */
  lemma WriteClashIsAccepted()
    ensures
      var h, ops := Shape(1, 4, 2),
          [Operation(Mov, [Port(West)], [Reg(0)], 0), Operation(Other("NOT"), [Reg(1)], [Reg(0)], 0)];
      Build(h, ops).Ok? && !Faithful(h, Encode(h, Build(h, ops).value), ops)
  {
    var h, move := Shape(1, 4, 2), Operation(Mov, [Port(West)], [Reg(0)], 0);
    var fu := Operation(Other("NOT"), [Reg(1)], [Reg(0)], 0);
    SelectTwo(move, fu);
    OneMove(h, Blank(h), move);
    OneFu(h, AddMoves(h, Blank(h), [move]).value, fu);
    assert MoveTransfers([move])[0].dst == fu.dsts[0];
    BuildMeansWhatItSays(h, [move, fu]);
  }

  /** The third: a port routed to and written by the FU carries the or of both values. */
  lemma PortClashIsAccepted()
    ensures
      var h, ops := Shape(1, 4, 2),
          [Operation(Mov, [Port(West)], [Port(North)], 0), Operation(Other("NOT"), [Reg(0)], [Port(North)], 0)];
      && Build(h, ops).Ok? && PortSources(h, Encode(h, Build(h, ops).value), Index(North)) == {Ored}
      && !Faithful(h, Encode(h, Build(h, ops).value), ops)
  {
    var h, move := Shape(1, 4, 2), Operation(Mov, [Port(West)], [Port(North)], 0);
    var fu := Operation(Other("NOT"), [Reg(0)], [Port(North)], 0);
    SelectTwo(move, fu);
    OneMove(h, Blank(h), move);
    OneFu(h, AddMoves(h, Blank(h), [move]).value, fu);
    assert MoveTransfers([move])[0].dst == fu.dsts[0];
    BuildMeansWhatItSays(h, [move, fu]);
  }
}
