/** Which instructions the translator accepts, told from their operations.  A rejection is
    an exception in validation/script_generator.py; each has its cause here. */
module CompilerAccepts {
  import opened Compiler
  import opened CompilerProofs
  import opened CompilerMeaning

  // ---- the moves ----

  /** A transfer between ports, from a port to a register, or from a register to a port. */
  predicate Fits(h: Shape, t: Transfer)
    requires ShapeOk(h)
  {
    && (t.src.FromDir? || (t.src.FromReg? && Bank(h, t.src.n) < h.lanes && t.dst.Port?))
    && !t.dst.Imm? && (t.dst.Reg? ==> Bank(h, t.dst.n) < h.lanes)
  }

  /** Two transfers that one word can hold: a port or a bank takes one port's value, a port
      takes a register only once, a bank reads and writes one register. */
  predicate Compatible(h: Shape, t: Transfer, u: Transfer)
    requires ShapeOk(h)
  {
    && (t.dst == u.dst ==> t.src == u.src && t.src.FromDir?)
    && (t.dst.Reg? && u.dst.Reg? && Bank(h, t.dst.n) == Bank(h, u.dst.n) ==> t == u)
    && (t.src.FromReg? && u.src.FromReg? && Bank(h, t.src.n) == Bank(h, u.src.n) ==> t.src == u.src)
  }

  ghost predicate FitTogether(h: Shape, ts: seq<Transfer>)
    requires ShapeOk(h)
  {
    && (forall i :: 0 <= i < |ts| ==> Fits(h, ts[i]))
    && forall i, j :: 0 <= i < j < |ts| ==> Compatible(h, ts[i], ts[j])
  }

  /** t may join ts. */
  ghost predicate Joins(h: Shape, ts: seq<Transfer>, t: Transfer)
    requires ShapeOk(h)
  {
    Fits(h, t) && forall i :: 0 <= i < |ts| ==> Compatible(h, ts[i], t)
  }

  lemma FitOneMore(h: Shape, ts: seq<Transfer>, t: Transfer)
    requires ShapeOk(h)
    ensures FitTogether(h, ts + [t]) <==> FitTogether(h, ts) && Joins(h, ts, t)
  {
    var all := ts + [t];
    if FitTogether(h, all) {
      forall i | 0 <= i < |ts| ensures Fits(h, ts[i]) && Compatible(h, ts[i], t) {
        assert all[i] == ts[i] && all[|ts|] == t;
      }
      forall i, j | 0 <= i < j < |ts| ensures Compatible(h, ts[i], ts[j]) {
        assert Compatible(h, all[i], all[j]);
      }
      assert Fits(h, all[|ts|]);
    }
  }

  /** The banks read towards the crossbar are those of the transfers' registers. */
  ghost predicate ReadsTold(h: Shape, s: Signals, ts: seq<Transfer>)
    requires SignalsOk(h, s)
  {
    && (forall i :: 0 <= i < |ts| && ts[i].src.FromReg? ==>
          Readable(h, s, ts[i].src.n) && s.readXbar[Bank(h, ts[i].src.n)])
    && forall b :: 0 <= b < h.lanes && s.readXbar[b] ==> ReadOf(h, ts, b)
  }

  ghost predicate ReadOf(h: Shape, ts: seq<Transfer>, b: nat)
    requires ShapeOk(h)
  {
    exists i :: 0 <= i < |ts| && ts[i].src.FromReg? && Bank(h, ts[i].src.n) == b
  }

  /** The signals after the transfers ts. */
  ghost predicate Told(h: Shape, s: Signals, ts: seq<Transfer>)
    requires SignalsOk(h, s)
  {
    AfterMoves(h, s) && Delivers(h, s, ts) && ReadsTold(h, s, ts) && FitTogether(h, ts)
  }

  /** Routing-crossbar output j takes this tile port. */
  predicate Takes(s: Signals, j: nat, x: Source)
    requires j < |s.tileIn|
  {
    x.FromDir? && s.tileIn[j] == x.i + 1
  }

  /** The register index at a bank's write port belongs to a transfer. */
  lemma WriteTold(h: Shape, s: Signals, ts: seq<Transfer>, b: nat)
    requires SignalsOk(h, s) && Told(h, s, ts) && b < h.lanes
    ensures s.writeIdx[b] == -1 ==> s.tileIn[h.ports + b] == 0
    ensures s.writeIdx[b] != -1 ==> exists i ::
      && 0 <= i < |ts| && ts[i].dst.Reg? && Bank(h, ts[i].dst.n) == b && Slot(h, ts[i].dst.n) == s.writeIdx[b]
      && Takes(s, h.ports + b, ts[i].src)
  {
    assert BankAfterMoves(h, s, b);
    if s.writeIdx[b] != -1 {
      RegisterAt(h, b, s.writeIdx[b]);
      var m := b * h.regs + s.writeIdx[b];
      assert Stored(h, s, m) == {FromDir(s.tileIn[h.ports + b] - 1)};
      assert FromDir(s.tileIn[h.ports + b] - 1) in Into(ts, Reg(m));
    }
  }

  /** A transfer into a register shows at its bank. */
  lemma WriteShows(h: Shape, s: Signals, ts: seq<Transfer>, i: nat)
    requires SignalsOk(h, s) && Told(h, s, ts) && i < |ts| && ts[i].dst.Reg?
    ensures var b := Bank(h, ts[i].dst.n);
            b < h.lanes && s.writeIdx[b] == Slot(h, ts[i].dst.n) && Takes(s, h.ports + b, ts[i].src)
  {
    assert Fits(h, ts[i]);
    assert BankAfterMoves(h, s, Bank(h, ts[i].dst.n));
    assert ts[i].src in Into(ts, Reg(ts[i].dst.n));
    assert Stored(h, s, ts[i].dst.n) == Into(ts, Reg(ts[i].dst.n));
  }

  /** What a port takes is the source of a transfer to it. */
  lemma PortTold(h: Shape, s: Signals, ts: seq<Transfer>, e: Dir)
    requires SignalsOk(h, s) && Told(h, s, ts)
    ensures s.tileIn[Index(e)] != 0 <==> exists i :: 0 <= i < |ts| && ts[i].dst == Port(e)
    ensures forall i :: 0 <= i < |ts| && ts[i].dst == Port(e) ==> Carried(h, s, Index(e)) == {ts[i].src}
  {
    assert PortAfterMoves(h, s, Index(e));
    assert Carried(h, s, Index(e)) == Into(ts, Port(e));
    forall i | 0 <= i < |ts| && ts[i].dst == Port(e) ensures Carried(h, s, Index(e)) == {ts[i].src} {
      assert ts[i].src in Into(ts, Port(e));
    }
  }

  lemma RegToPortExactly(h: Shape, s: Signals, ts: seq<Transfer>, n: nat, d: Operand)
    requires SignalsOk(h, s) && Told(h, s, ts) && Readable(h, s, n)
    ensures RegToPort(h, s, n, d).Ok? <==> Joins(h, ts, Transfer(FromReg(n), d))
  {
    var t := Transfer(FromReg(n), d);
    if d.Port? { PortTold(h, s, ts, d.dir); }
    if RegToPort(h, s, n, d).Ok? {
      forall i | 0 <= i < |ts| ensures Compatible(h, ts[i], t) {
        assert ts[i].src.FromReg? && Bank(h, ts[i].src.n) == Bank(h, n) ==> ts[i].src == t.src by {
          if ts[i].src.FromReg? && Bank(h, ts[i].src.n) == Bank(h, n) {
            assert Readable(h, s, ts[i].src.n);
            SameRegister(h, ts[i].src.n, n);
          }
        }
      }
    }
  }

  lemma PortToPortExactly(h: Shape, s: Signals, ts: seq<Transfer>, p: Dir, e: Dir)
    requires SignalsOk(h, s) && Told(h, s, ts)
    ensures PortTo(h, s, p, Port(e)).Ok? <==> Joins(h, ts, Transfer(FromDir(Index(p)), Port(e)))
  {
    var t := Transfer(FromDir(Index(p)), Port(e));
    PortTold(h, s, ts, e);
    assert PortAfterMoves(h, s, Index(e));
    if PortTo(h, s, p, Port(e)).Ok? {
      forall i | 0 <= i < |ts| ensures Compatible(h, ts[i], t) {
        if ts[i].dst == Port(e) { assert {t.src} == {ts[i].src}; }
      }
    } else {
      var i :| 0 <= i < |ts| && ts[i].dst == Port(e);
      assert Carried(h, s, Index(e)) == {ts[i].src};
      assert !Compatible(h, ts[i], t);
    }
  }

  lemma PortToRegExactly(h: Shape, s: Signals, ts: seq<Transfer>, p: Dir, n: nat)
    requires SignalsOk(h, s) && Told(h, s, ts)
    ensures PortTo(h, s, p, Reg(n)).Ok? <==> Joins(h, ts, Transfer(FromDir(Index(p)), Reg(n)))
  {
    var t, b := Transfer(FromDir(Index(p)), Reg(n)), Bank(h, n);
    if b < h.lanes {
      WriteTold(h, s, ts, b);
      if PortTo(h, s, p, Reg(n)).Ok? {
        forall i | 0 <= i < |ts| ensures Compatible(h, ts[i], t) {
          if ts[i].dst.Reg? && Bank(h, ts[i].dst.n) == b {
            WriteShows(h, s, ts, i);
            SameRegister(h, ts[i].dst.n, n);
          }
        }
      } else {
        var i :| && 0 <= i < |ts| && ts[i].dst.Reg? && Bank(h, ts[i].dst.n) == b
                 && Slot(h, ts[i].dst.n) == s.writeIdx[b] && Takes(s, h.ports + b, ts[i].src);
        assert !Compatible(h, ts[i], t);
      }
    }
  }

  /** One transfer is accepted exactly if it may join those before it. */
  lemma MoveToExactly(h: Shape, s: Signals, ts: seq<Transfer>, src: Operand, d: Operand)
    requires SignalsOk(h, s) && Told(h, s, ts) && !src.Imm? && (src.Reg? ==> Readable(h, s, src.n))
    ensures MoveTo(h, s, src, d).Ok? <==> Joins(h, ts, Transfer(SourceOf(src), d))
  {
    match src {
      case Reg(n) => RegToPortExactly(h, s, ts, n, d);
      case Port(p) =>
        match d {
          case Port(e) => PortToPortExactly(h, s, ts, p, e);
          case Reg(n) => PortToRegExactly(h, s, ts, p, n);
          case Imm(_) =>
        }
    }
  }

  lemma MoveToTold(h: Shape, s: Signals, ts: seq<Transfer>, src: Operand, d: Operand)
    requires SignalsOk(h, s) && Told(h, s, ts) && !src.Imm? && (src.Reg? ==> Readable(h, s, src.n))
    requires MoveTo(h, s, src, d).Ok?
    ensures Told(h, MoveTo(h, s, src, d).value, ts + [Transfer(SourceOf(src), d)])
    ensures src.Reg? ==> Readable(h, MoveTo(h, s, src, d).value, src.n)
  {
    var s', t := MoveTo(h, s, src, d).value, Transfer(SourceOf(src), d);
    MoveToExactly(h, s, ts, src, d);
    FitOneMore(h, ts, t);
    match src {
      case Reg(n) =>
        RegToPortKeeps(h, s, n, d);
        RegToPortDelivers(h, s, n, d, ts);
      case Port(p) =>
        PortToKeeps(h, s, p, d);
        PortToDelivers(h, s, p, d, ts);
    }
    ReadsToldMore(h, s, s', ts, t);
  }

  lemma ReadsToldMore(h: Shape, s: Signals, s': Signals, ts: seq<Transfer>, t: Transfer)
    requires SignalsOk(h, s) && SignalsOk(h, s') && ReadsTold(h, s, ts)
    requires if t.src.FromReg? then
               && Readable(h, s, t.src.n) && s'.readXbar == s.readXbar[Bank(h, t.src.n) := true]
               && s'.readIdx == s.readIdx[Bank(h, t.src.n) := Slot(h, t.src.n)]
             else s'.readXbar == s.readXbar && s'.readIdx == s.readIdx
    ensures ReadsTold(h, s', ts + [t])
  {
    var all := ts + [t];
    forall i | 0 <= i < |all| && all[i].src.FromReg?
      ensures Readable(h, s', all[i].src.n) && s'.readXbar[Bank(h, all[i].src.n)]
    {
      if i < |ts| { assert all[i] == ts[i] && Readable(h, s, ts[i].src.n); }
    }
    forall b | 0 <= b < h.lanes && s'.readXbar[b] ensures ReadOf(h, all, b) {
      if s.readXbar[b] {
        assert ReadOf(h, ts, b);
        var i :| 0 <= i < |ts| && ts[i].src.FromReg? && Bank(h, ts[i].src.n) == b;
        assert all[i] == ts[i];
      } else {
        assert all[|ts|] == t;
      }
    }
  }

  /** All transfers of one move. */
  lemma {:induction false} MoveToAllExactly(h: Shape, s: Signals, ts: seq<Transfer>, src: Operand, ds: seq<Operand>)
    requires SignalsOk(h, s) && Told(h, s, ts) && !src.Imm? && (src.Reg? ==> Readable(h, s, src.n))
    ensures MoveToAll(h, s, src, ds).Ok? <==> FitTogether(h, ts + TransfersTo(SourceOf(src), ds))
    ensures MoveToAll(h, s, src, ds).Ok? ==>
              && Told(h, MoveToAll(h, s, src, ds).value, ts + TransfersTo(SourceOf(src), ds))
              && (src.Reg? ==> Readable(h, MoveToAll(h, s, src, ds).value, src.n))
  {
    if ds == [] {
      assert ts + TransfersTo(SourceOf(src), ds) == ts;
    } else {
      var init, d := ds[..|ds| - 1], ds[|ds| - 1];
      var ts1, t := ts + TransfersTo(SourceOf(src), init), Transfer(SourceOf(src), d);
      MoveToAllExactly(h, s, ts, src, init);
      TransfersToAppend(SourceOf(src), ds);
      assert ts + TransfersTo(SourceOf(src), ds) == ts1 + [t];
      FitOneMore(h, ts1, t);
      if MoveToAll(h, s, src, init).Ok? {
        var s1 := MoveToAll(h, s, src, init).value;
        MoveToExactly(h, s1, ts1, src, d);
        if MoveTo(h, s1, src, d).Ok? { MoveToTold(h, s1, ts1, src, d); }
      }
    }
  }

  /** A register whose transfer fits in can be read towards the crossbar. */
  lemma FitsSoReadable(h: Shape, s: Signals, ts: seq<Transfer>, us: seq<Transfer>, n: nat)
    requires SignalsOk(h, s) && Told(h, s, ts) && us != [] && us[0].src == FromReg(n) && FitTogether(h, ts + us)
    ensures Readable(h, s, n)
  {
    var all := ts + us;
    assert all[|ts|] == us[0];
    assert Fits(h, all[|ts|]);
    if s.readXbar[Bank(h, n)] {
      assert ReadOf(h, ts, Bank(h, n));
      var i :| 0 <= i < |ts| && ts[i].src.FromReg? && Bank(h, ts[i].src.n) == Bank(h, n);
      assert all[i] == ts[i];
      assert Compatible(h, all[i], all[|ts|]);
      assert Readable(h, s, ts[i].src.n);
    }
  }

  lemma CheckIsReadable(h: Shape, s: Signals, n: nat)
    requires SignalsOk(h, s) && AfterMoves(h, s)
    ensures CheckRegMove(h, s, n).Ok? <==> Readable(h, s, n)
  {
    if Bank(h, n) < h.lanes { assert BankAfterMoves(h, s, Bank(h, n)); }
  }

  /** A move of a constant loses its only source. */
  lemma OnlySource(op: Operation)
    requires Moves(op)
    ensures |Sources(op)| == 1 <==> !op.srcs[0].Imm?
    ensures !op.srcs[0].Imm? ==> Sources(op) == op.srcs
  {
    assert Swapped(op) == op.srcs;
    assert op.srcs[..0] + op.srcs[1..] == [];
    assert !op.srcs[0].Imm? ==> StripImms(op.srcs, 0) == StripImms(op.srcs, 1);
  }

  lemma AddMoveExactly(h: Shape, s: Signals, ts: seq<Transfer>, op: Operation)
    requires SignalsOk(h, s) && Told(h, s, ts) && Moves(op)
    ensures AddMove(h, s, op).Ok? <==> NamesSource(op) && FitTogether(h, ts + TransfersTo(Brings(op), op.dsts))
    ensures AddMove(h, s, op).Ok? ==> Told(h, AddMove(h, s, op).value, ts + TransfersTo(Brings(op), op.dsts))
  {
    OnlySource(op);
    var src := op.srcs[0];
    if src.Reg? {
      CheckIsReadable(h, s, src.n);
      if FitTogether(h, ts + TransfersTo(Brings(op), op.dsts)) {
        FitsSoReadable(h, s, ts, TransfersTo(Brings(op), op.dsts), src.n);
      }
    }
    if !src.Imm? && (src.Reg? ==> Readable(h, s, src.n)) {
      MoveToAllExactly(h, s, ts, src, op.dsts);
    }
  }

  /** The transfers of an instruction's moves, in order. */
  function Moved(ops: seq<Operation>): seq<Transfer> {
    if ops == [] then []
    else
      var op := ops[|ops| - 1];
      Moved(ops[..|ops| - 1]) + if Moves(op) then TransfersTo(Brings(op), op.dsts) else []
  }

  /** No move is of a constant, and all of their transfers fit together. */
  ghost predicate MovesFit(h: Shape, ops: seq<Operation>)
    requires ShapeOk(h)
  {
    && (forall i :: 0 <= i < |ops| && Moves(ops[i]) ==> NamesSource(ops[i]))
    && FitTogether(h, Moved(ops))
  }

  lemma FitPrefix(h: Shape, ts: seq<Transfer>, us: seq<Transfer>)
    requires ShapeOk(h) && FitTogether(h, ts + us)
    ensures FitTogether(h, ts)
  {
    var all := ts + us;
    forall i | 0 <= i < |ts| ensures Fits(h, ts[i]) { assert all[i] == ts[i]; }
    forall i, j | 0 <= i < j < |ts| ensures Compatible(h, ts[i], ts[j]) {
      assert all[i] == ts[i] && all[j] == ts[j];
    }
  }

  lemma MovesFitOneMore(h: Shape, ops: seq<Operation>)
    requires ShapeOk(h) && ops != [] && Moves(ops[|ops| - 1])
    ensures var n, op := |ops| - 1, ops[|ops| - 1];
            MovesFit(h, ops) <==>
              && MovesFit(h, ops[..n]) && NamesSource(op)
              && FitTogether(h, Moved(ops[..n]) + TransfersTo(Brings(op), op.dsts))
  {
    var n, op := |ops| - 1, ops[|ops| - 1];
    var us := TransfersTo(Brings(op), op.dsts);
    assert forall i :: 0 <= i < n ==> ops[..n][i] == ops[i];
    if FitTogether(h, Moved(ops[..n]) + us) { FitPrefix(h, Moved(ops[..n]), us); }
  }

  lemma BlankTold(h: Shape)
    requires ShapeOk(h)
    ensures Told(h, Blank(h), [])
  {
    BlankDelivers(h);
  }

  /** The moves are accepted exactly if no two of their transfers are in each other's way. */
  lemma {:induction false} AddMovesExactly(h: Shape, ops: seq<Operation>)
    requires ShapeOk(h) && forall i :: 0 <= i < |ops| ==> Moves(ops[i])
    ensures AddMoves(h, Blank(h), ops).Ok? <==> MovesFit(h, ops)
    ensures AddMoves(h, Blank(h), ops).Ok? ==> Told(h, AddMoves(h, Blank(h), ops).value, Moved(ops))
  {
    if ops == [] {
      BlankTold(h);
    } else {
      var n := |ops| - 1;
      AddMovesExactly(h, ops[..n]);
      MovesFitOneMore(h, ops);
      if AddMoves(h, Blank(h), ops[..n]).Ok? {
        AddMoveExactly(h, AddMoves(h, Blank(h), ops[..n]).value, Moved(ops[..n]), ops[n]);
      }
    }
  }

  // ---- the FU's constants ----

  ghost predicate NoAdjacentImms(s: seq<Operand>) {
    forall k :: 0 <= k < |s| - 1 ==> !(s[k].Imm? && s[k + 1].Imm?)
  }

  lemma NoImmsAppend(s: seq<Operand>, o: Operand)
    ensures NoImms(s + [o]) <==> NoImms(s) && !o.Imm?
  {
    if NoImms(s + [o]) {
      forall k | 0 <= k < |s| ensures !s[k].Imm? { assert (s + [o])[k] == s[k]; }
      assert (s + [o])[|s|] == o;
    }
  }

  /** The deleting walk from i on removes every constant exactly if no two are neighbours. */
  lemma {:induction false} WalkRemoves(s: seq<Operand>, i: nat)
    requires i <= |s|
    ensures NoImms(StripImms(s, i)) <==> NoImms(s[..i]) && NoAdjacentImms(s[i..])
    decreases |s| - i
  {
    if i == |s| {
      assert s[..i] == s;
    } else if !s[i].Imm? {
      WalkRemoves(s, i + 1);
      assert s[..i + 1] == s[..i] + [s[i]];
      NoImmsAppend(s[..i], s[i]);
      NoneInFront(s[i..]);
      assert s[i..][1..] == s[i + 1..];
    } else {
      var s' := s[..i] + s[i + 1..];
      if i + 1 <= |s'| {
        WalkRemoves(s', i + 1);
        assert s'[..i + 1] == s[..i] + [s[i + 1]];
        NoImmsAppend(s[..i], s[i + 1]);
        assert s'[i + 1..] == s[i + 2..];
        OneInFront(s[i..]);
        assert s[i..][2..] == s[i + 2..];
      } else {
        assert s' == s[..i];
      }
    }
  }

  lemma NoneInFront(s: seq<Operand>)
    requires s != [] && !s[0].Imm?
    ensures NoAdjacentImms(s) <==> NoAdjacentImms(s[1..])
  {
    if NoAdjacentImms(s[1..]) {
      forall k | 0 <= k < |s| - 1 ensures !(s[k].Imm? && s[k + 1].Imm?) {
        if k > 0 { assert !(s[1..][k - 1].Imm? && s[1..][k].Imm?); }
      }
    } else {
      var k :| 0 <= k < |s| - 2 && s[1..][k].Imm? && s[1..][k + 1].Imm?;
      assert s[k + 1].Imm? && s[k + 2].Imm?;
    }
  }

  lemma OneInFront(s: seq<Operand>)
    requires |s| >= 2 && s[0].Imm?
    ensures NoAdjacentImms(s) <==> !s[1].Imm? && NoAdjacentImms(s[2..])
  {
    assert s[1..][1..] == s[2..];
    if !s[1].Imm? {
      NoneInFront(s[1..]);
      if NoAdjacentImms(s[1..]) {
        forall k | 0 <= k < |s| - 1 ensures !(s[k].Imm? && s[k + 1].Imm?) {
          if k > 0 { assert !(s[1..][k - 1].Imm? && s[1..][k].Imm?); }
        }
      } else {
        var k :| 0 <= k < |s| - 2 && s[1..][k].Imm? && s[1..][k + 1].Imm?;
        assert s[k + 1].Imm? && s[k + 2].Imm?;
      }
    }
  }

  // ---- the FU's register operands ----

  /** Register operands have a bank, and one bank reads one register. */
  ghost predicate RegsFit(h: Shape, os: seq<Operand>)
    requires ShapeOk(h)
  {
    && (forall k :: 0 <= k < |os| && os[k].Reg? ==> Bank(h, os[k].n) < h.lanes)
    && forall k, l :: && 0 <= k < l < |os| && os[k].Reg? && os[l].Reg? && Bank(h, os[k].n) == Bank(h, os[l].n) ==>
         os[k] == os[l]
  }

  /** The signals after some register operands. */
  ghost predicate AfterRegs(h: Shape, s0: Signals, s: Signals, done: seq<Slotted>)
    requires SignalsOk(h, s0) && SignalsOk(h, s)
  {
    && AfterReads(h, s0, s, done) && s.tileIn == s0.tileIn
    && forall b :: 0 <= b < h.lanes ==> !s.fed[b].FedByPort?
  }

  lemma ReadOneMore(h: Shape, s: Signals, os: seq<Slotted>, o: Slotted)
    requires SignalsOk(h, s)
    ensures ReadOperands(h, s, os + [o])
         == if ReadOperands(h, s, os).Ok? then ReadOperand(h, ReadOperands(h, s, os).value, o) else Raised
  {
    assert (os + [o])[..|os|] == os;
  }

  /** The banks read towards the FU are those of the register operands. */
  ghost predicate RegsTold(h: Shape, s: Signals, os: seq<Operand>)
    requires SignalsOk(h, s)
  {
    && (forall k :: 0 <= k < |os| && os[k].Reg? ==> RegTold(h, s, os[k].n))
    && forall b :: 0 <= b < h.lanes && s.readFu[b] ==> RegIn(h, os, b)
  }

  predicate RegTold(h: Shape, s: Signals, n: nat)
    requires SignalsOk(h, s)
  {
    Bank(h, n) < h.lanes && s.readFu[Bank(h, n)] && s.readIdx[Bank(h, n)] == Slot(h, n)
  }

  ghost predicate RegIn(h: Shape, os: seq<Operand>, b: nat)
    requires ShapeOk(h)
  {
    exists k :: 0 <= k < |os| && os[k].Reg? && Bank(h, os[k].n) == b
  }

  lemma IsPlaced(os: seq<Operand>, k: nat)
    requires k < |os|
    ensures Slotted(k, os[k]) in Placed(os, os[k].Reg?)
  {
    PlacedExact(os, os[k].Reg?);
  }

  lemma IsWired(h: Shape, s0: Signals, s: Signals, done: seq<Slotted>, o: Slotted)
    requires SignalsOk(h, s0) && SignalsOk(h, s) && AfterReads(h, s0, s, done) && o in done
    ensures Wired(h, s, o)
  {
  }

  lemma WiredIsTold(h: Shape, s: Signals, o: Slotted)
    requires SignalsOk(h, s) && Wired(h, s, o) && o.operand.Reg?
    ensures RegTold(h, s, o.operand.n)
  {
  }

  lemma ReadIsReg(h: Shape, s0: Signals, s: Signals, os: seq<Operand>, b: nat)
    requires SignalsOk(h, s0) && SignalsOk(h, s) && AfterReads(h, s0, s, Placed(os, true)) && b < h.lanes && s.readFu[b]
    ensures RegIn(h, os, b)
  {
    var o :| o in Placed(os, true) && o.operand.Reg? && Bank(h, o.operand.n) == b;
    assert o.k < |os| && os[o.k] == o.operand by { PlacedExact(os, true); }
  }

  lemma NextUnwired(h: Shape, s0: Signals, s: Signals, os: seq<Operand>)
    requires SignalsOk(h, s0) && SignalsOk(h, s) && AfterReads(h, s0, s, Placed(os, true)) && |os| < h.lanes
    ensures s.shuffle[|os|] == 0
  {
    if s.shuffle[|os|] != 0 {
      var o :| o in Placed(os, true) && o.k == |os|;
      PlacedExact(os, true);
      assert false;
    }
  }

  lemma RegsAreTold(h: Shape, s0: Signals, s: Signals, os: seq<Operand>)
    requires SignalsOk(h, s0) && SignalsOk(h, s) && AfterReads(h, s0, s, Placed(os, true))
    ensures RegsTold(h, s, os)
  {
    forall k | 0 <= k < |os| && os[k].Reg? ensures RegTold(h, s, os[k].n) {
      IsPlaced(os, k);
      IsWired(h, s0, s, Placed(os, true), Slotted(k, os[k]));
      WiredIsTold(h, s, Slotted(k, os[k]));
    }
    forall b | 0 <= b < h.lanes && s.readFu[b] ensures RegIn(h, os, b) { ReadIsReg(h, s0, s, os, b); }
  }

  lemma RegReadExactly(h: Shape, s: Signals, os: seq<Operand>, n: nat)
    requires SignalsOk(h, s) && RegsTold(h, s, os) && |os| < h.lanes && s.shuffle[|os|] == 0
    requires Bank(h, n) < h.lanes ==> !s.fed[Bank(h, n)].FedByPort?
    ensures ReadOperand(h, s, Slotted(|os|, Reg(n))).Ok? <==> Bank(h, n) < h.lanes && SameInBank(h, os, n)
  {
    var b := Bank(h, n);
    if b < h.lanes && s.readFu[b] {
      assert RegIn(h, os, b);
      var k :| 0 <= k < |os| && os[k].Reg? && Bank(h, os[k].n) == b;
      assert RegTold(h, s, os[k].n);
      if s.readIdx[b] == Slot(h, n) {
        forall l | 0 <= l < |os| && os[l].Reg? && Bank(h, os[l].n) == b ensures os[l].n == n {
          assert RegTold(h, s, os[l].n);
          SameRegister(h, os[l].n, n);
        }
      }
    }
  }

  /** The registers of n's bank among os are n itself. */
  ghost predicate SameInBank(h: Shape, os: seq<Operand>, n: nat)
    requires ShapeOk(h)
  {
    forall k :: 0 <= k < |os| && os[k].Reg? && Bank(h, os[k].n) == Bank(h, n) ==> os[k].n == n
  }

  lemma RegsFitOneMore(h: Shape, os: seq<Operand>)
    requires ShapeOk(h) && os != []
    ensures var n, o := |os| - 1, os[|os| - 1];
            RegsFit(h, os) <==>
              && RegsFit(h, os[..n])
              && (o.Reg? ==> Bank(h, o.n) < h.lanes && SameInBank(h, os[..n], o.n))
  {
    var n := |os| - 1;
    assert forall k :: 0 <= k < n ==> os[..n][k] == os[k];
  }

  lemma RegReadKeeps(h: Shape, s0: Signals, s: Signals, done: seq<Slotted>, o: Slotted)
    requires SignalsOk(h, s0) && SignalsOk(h, s) && AfterRegs(h, s0, s, done) && o.operand.Reg?
    requires ReadOperand(h, s, o).Ok?
    ensures AfterRegs(h, s0, ReadOperand(h, s, o).value, done + [o])
  {
    ReadKeeps(h, s0, s, done, o);
  }

  /** The register operands are accepted exactly if their banks allow it. */
  lemma {:induction false} RegsExactly(h: Shape, s0: Signals, os: seq<Operand>)
    requires SignalsOk(h, s0) && AfterMoves(h, s0) && |os| <= h.lanes
    ensures ReadOperands(h, s0, Placed(os, true)).Ok? <==> RegsFit(h, os)
    ensures ReadOperands(h, s0, Placed(os, true)).Ok? ==>
              AfterRegs(h, s0, ReadOperands(h, s0, Placed(os, true)).value, Placed(os, true))
  {
    if os == [] {
      ReadsKeep(h, s0, []);
      forall b | 0 <= b < h.lanes ensures !s0.fed[b].FedByPort? { assert BankAfterMoves(h, s0, b); }
    } else {
      var n := |os| - 1;
      var before := Placed(os[..n], true);
      RegsExactly(h, s0, os[..n]);
      RegsFitOneMore(h, os);
      if os[n].Reg? {
        assert Placed(os, true) == before + [Slotted(n, os[n])];
        ReadOneMore(h, s0, before, Slotted(n, os[n]));
        if ReadOperands(h, s0, before).Ok? {
          NextReg(h, s0, ReadOperands(h, s0, before).value, os[..n], os[n]);
        }
      } else {
        assert Placed(os, true) == before;
      }
    }
  }

  lemma NextReg(h: Shape, s0: Signals, s: Signals, os: seq<Operand>, o: Operand)
    requires SignalsOk(h, s0) && SignalsOk(h, s) && AfterRegs(h, s0, s, Placed(os, true)) && |os| < h.lanes && o.Reg?
    ensures ReadOperand(h, s, Slotted(|os|, o)).Ok? <==> Bank(h, o.n) < h.lanes && SameInBank(h, os, o.n)
    ensures ReadOperand(h, s, Slotted(|os|, o)).Ok? ==>
              AfterRegs(h, s0, ReadOperand(h, s, Slotted(|os|, o)).value, Placed(os, true) + [Slotted(|os|, o)])
  {
    RegsAreTold(h, s0, s, os);
    NextUnwired(h, s0, s, os);
    RegReadExactly(h, s, os, o.n);
    if ReadOperand(h, s, Slotted(|os|, o)).Ok? {
      RegReadKeeps(h, s0, s, Placed(os, true), Slotted(|os|, o));
    }
  }

  // ---- the FU's port operands ----

  /** A lane of the FU: taken by a register read, open, or used by what comes from one port. */
  datatype Lane = Blocked | Open | Used(port: nat)

  predicate Usable(l: Lane, p: Dir) {
    l.Open? || l == Used(Index(p))
  }

  /** Lane i is the lowest that port p can use. */
  ghost predicate Lowest(lanes: seq<Lane>, p: Dir, i: nat) {
    i < |lanes| && Usable(lanes[i], p) && forall j :: 0 <= j < i ==> !Usable(lanes[j], p)
  }

  /** Each port in turn finds a lane, and keeps the lowest one. */
  ghost predicate Placeable(lanes: seq<Lane>, ps: seq<Dir>)
    decreases |ps|
  {
    ps == [] || exists i: nat :: Lowest(lanes, ps[0], i) && Placeable(lanes[i := Used(Index(ps[0]))], ps[1..])
  }

  /** The lanes as the signals have them. */
  function LanesOf(h: Shape, s: Signals): (lanes: seq<Lane>)
    requires SignalsOk(h, s)
    ensures |lanes| == h.lanes
  {
    seq(h.lanes, i requires 0 <= i < h.lanes =>
      if s.fed[i].FedByReg? then Blocked
      else if s.tileIn[h.ports + i] == 0 then Open
      else Used(s.tileIn[h.ports + i] - 1))
  }

  /** A lane fed by a port carries something. */
  ghost predicate LanesFed(h: Shape, s: Signals)
    requires SignalsOk(h, s)
  {
    forall i :: 0 <= i < h.lanes && s.fed[i].FedByPort? ==> s.tileIn[h.ports + i] != 0
  }

  /** These operands are not wired yet, and each has its own position. */
  ghost predicate Unwired(h: Shape, s: Signals, os: seq<Slotted>)
    requires SignalsOk(h, s)
  {
    && (forall i :: 0 <= i < |os| ==> os[i].operand.Port? && os[i].k < h.lanes && s.shuffle[os[i].k] == 0)
    && forall i, j :: 0 <= i < j < |os| ==> os[i].k != os[j].k
  }

  function DirsOf(os: seq<Slotted>): seq<Dir>
    requires forall i :: 0 <= i < |os| ==> os[i].operand.Port?
  {
    seq(|os|, i requires 0 <= i < |os| => os[i].operand.dir)
  }

  lemma {:induction false} FindIsLowest(h: Shape, s: Signals, p: Dir, i: nat)
    requires SignalsOk(h, s) && LanesFed(h, s) && i <= h.lanes
    requires forall j :: 0 <= j < i ==> !Usable(LanesOf(h, s)[j], p)
    ensures var r := FindLane(h, s, Index(p) + 1, i);
            if r < h.lanes then Lowest(LanesOf(h, s), p, r)
            else forall j :: 0 <= j < h.lanes ==> !Usable(LanesOf(h, s)[j], p)
    decreases h.lanes - i
  {
    if i < h.lanes {
      assert LaneFree(h, s, Index(p) + 1, i) <==> Usable(LanesOf(h, s)[i], p);
      if !LaneFree(h, s, Index(p) + 1, i) { FindIsLowest(h, s, p, i + 1); }
    }
  }

  lemma LowestIsUnique(lanes: seq<Lane>, p: Dir, i: nat, j: nat)
    requires Lowest(lanes, p, i) && Lowest(lanes, p, j)
    ensures i == j
  {
  }

  /** Reading a port operand takes the lowest lane, if there is one. */
  lemma PortReadExactly(h: Shape, s: Signals, o: Slotted)
    requires SignalsOk(h, s) && LanesFed(h, s) && o.operand.Port? && o.k < h.lanes && s.shuffle[o.k] == 0
    ensures ReadOperand(h, s, o).Ok? <==> exists i: nat :: Lowest(LanesOf(h, s), o.operand.dir, i)
    ensures ReadOperand(h, s, o).Ok? ==>
      var s', i := ReadOperand(h, s, o).value, FindLane(h, s, Index(o.operand.dir) + 1, 0);
      && Lowest(LanesOf(h, s), o.operand.dir, i) && LanesFed(h, s')
      && LanesOf(h, s') == LanesOf(h, s)[i := Used(Index(o.operand.dir))]
      && s'.shuffle == s.shuffle[o.k := i + 1]
  {
    FindIsLowest(h, s, o.operand.dir, 0);
  }

  lemma ReadConcat(h: Shape, s: Signals, os: seq<Slotted>, xs: seq<Slotted>)
    requires SignalsOk(h, s)
    ensures ReadOperands(h, s, os + xs)
         == if ReadOperands(h, s, os).Ok? then ReadOperands(h, ReadOperands(h, s, os).value, xs) else Raised
    decreases |xs|
  {
    if xs == [] {
      assert os + xs == os;
    } else {
      var n := |xs| - 1;
      ReadConcat(h, s, os, xs[..n]);
      assert os + xs == (os + xs[..n]) + [xs[n]];
      ReadOneMore(h, s, os + xs[..n], xs[n]);
    }
  }

  lemma ReadFirst(h: Shape, s: Signals, os: seq<Slotted>)
    requires SignalsOk(h, s) && os != []
    ensures ReadOperands(h, s, os)
         == if ReadOperand(h, s, os[0]).Ok? then ReadOperands(h, ReadOperand(h, s, os[0]).value, os[1..]) else Raised
  {
    assert os == [os[0]] + os[1..];
    ReadConcat(h, s, [os[0]], os[1..]);
    assert [os[0]] == [] + [os[0]];
    ReadOneMore(h, s, [], os[0]);
    assert ReadOperands(h, s, [os[0]]) == ReadOperand(h, s, os[0]);
  }

  /** The port operands are accepted exactly if each in turn finds a lane. */
  lemma {:induction false} PortsExactly(h: Shape, s: Signals, os: seq<Slotted>)
    requires SignalsOk(h, s) && LanesFed(h, s) && Unwired(h, s, os)
    ensures ReadOperands(h, s, os).Ok? <==> Placeable(LanesOf(h, s), DirsOf(os))
    decreases |os|
  {
    if os != [] {
      var o, p := os[0], os[0].operand.dir;
      ReadFirst(h, s, os);
      PortReadExactly(h, s, o);
      assert DirsOf(os)[0] == p && DirsOf(os)[1..] == DirsOf(os[1..]);
      if ReadOperand(h, s, o).Ok? {
        var s', i := ReadOperand(h, s, o).value, FindLane(h, s, Index(p) + 1, 0);
        assert Unwired(h, s', os[1..]);
        PortsExactly(h, s', os[1..]);
        PlaceFirst(LanesOf(h, s), DirsOf(os), i);
      }
    }
  }

  lemma PlaceFirst(lanes: seq<Lane>, ps: seq<Dir>, i: nat)
    requires ps != [] && Lowest(lanes, ps[0], i)
    ensures Placeable(lanes, ps) <==> Placeable(lanes[i := Used(Index(ps[0]))], ps[1..])
  {
    if Placeable(lanes, ps) {
      var j: nat :| Lowest(lanes, ps[0], j) && Placeable(lanes[j := Used(Index(ps[0]))], ps[1..]);
      LowestIsUnique(lanes, ps[0], i, j);
    }
  }

  // ---- how many lanes are enough ----

  ghost function Opens(lanes: seq<Lane>): set<nat> {
    set i: nat | i < |lanes| && lanes[i].Open?
  }

  /** Port p has a lane of its own. */
  ghost predicate Reserved(lanes: seq<Lane>, p: Dir) {
    Used(Index(p)) in lanes
  }

  /** And no open lane lies below it. */
  ghost predicate Settled(lanes: seq<Lane>, p: Dir) {
    exists i: nat :: Lowest(lanes, p, i) && lanes[i] == Used(Index(p))
  }

  ghost function Unreserved(lanes: seq<Lane>, ps: seq<Dir>): set<Dir> {
    set p | p in ps && !Reserved(lanes, p)
  }

  ghost function Unsettled(lanes: seq<Lane>, ps: seq<Dir>): set<Dir> {
    set p | p in ps && !Settled(lanes, p)
  }

  lemma SubsetCard<T>(a: set<T>, b: set<T>)
    requires a <= b
    ensures |a| <= |b|
  {
    if a != {} {
      var x :| x in a;
      SubsetCard(a - {x}, b - {x});
    }
  }

  lemma OpensTaken(lanes: seq<Lane>, i: nat, p: Dir)
    requires i < |lanes| && lanes[i].Open?
    ensures Opens(lanes[i := Used(Index(p))]) == Opens(lanes) - {i} && i in Opens(lanes)
  {
  }

  /** An open lane for every port without one of its own is needed. */
  lemma {:induction false} LanesNeeded(lanes: seq<Lane>, ps: seq<Dir>)
    requires Placeable(lanes, ps)
    ensures |Unreserved(lanes, ps)| <= |Opens(lanes)|
    decreases |ps|
  {
    if ps == [] {
      assert Unreserved(lanes, ps) == {};
    } else {
      var p := ps[0];
      var i: nat :| Lowest(lanes, p, i) && Placeable(lanes[i := Used(Index(p))], ps[1..]);
      var lanes' := lanes[i := Used(Index(p))];
      LanesNeeded(lanes', ps[1..]);
      if lanes[i].Open? {
        OpensTaken(lanes, i, p);
        forall q | q in Unreserved(lanes, ps) && q != p ensures q in Unreserved(lanes', ps[1..]) {
          assert q in ps[1..];
        }
        SubsetCard(Unreserved(lanes, ps) - {p}, Unreserved(lanes', ps[1..]));
      } else {
        assert lanes' == lanes;
        forall q | q in Unreserved(lanes, ps) ensures q in Unreserved(lanes, ps[1..]) {
          assert lanes[i] in lanes && q != p;
        }
        SubsetCard(Unreserved(lanes, ps), Unreserved(lanes, ps[1..]));
      }
    }
  }

  lemma {:induction false} LowestOf(lanes: seq<Lane>, p: Dir, j: nat) returns (i: nat)
    requires j < |lanes| && Usable(lanes[j], p)
    ensures i <= j && Lowest(lanes, p, i)
    decreases j
  {
    if k: nat :| k < j && Usable(lanes[k], p) {
      i := LowestOf(lanes, p, k);
    } else {
      i := j;
    }
  }

  /** Taking the lowest lane settles p and leaves the settled ports settled. */
  lemma SettledStays(lanes: seq<Lane>, p: Dir, i: nat, q: Dir)
    requires Lowest(lanes, p, i) && lanes[i].Open? && (q == p || Settled(lanes, q))
    ensures Settled(lanes[i := Used(Index(p))], q)
  {
    var lanes' := lanes[i := Used(Index(p))];
    if q == p {
      assert Lowest(lanes', p, i);
    } else {
      var j: nat :| Lowest(lanes, q, j) && lanes[j] == Used(Index(q));
      assert Lowest(lanes', q, j);
    }
  }

  /** An open lane for every port without a settled one is enough. */
  lemma {:induction false} LanesSuffice(lanes: seq<Lane>, ps: seq<Dir>)
    requires |Unsettled(lanes, ps)| <= |Opens(lanes)|
    ensures Placeable(lanes, ps)
    decreases |ps|
  {
    if ps != [] {
      var p := ps[0];
      if Settled(lanes, p) {
        var i: nat :| Lowest(lanes, p, i) && lanes[i] == Used(Index(p));
        assert lanes[i := Used(Index(p))] == lanes;
        SubsetCard(Unsettled(lanes, ps[1..]), Unsettled(lanes, ps));
        LanesSuffice(lanes, ps[1..]);
      } else {
        OneLaneTaken(lanes, ps);
      }
    }
  }

  lemma OneLaneTaken(lanes: seq<Lane>, ps: seq<Dir>)
    requires ps != [] && !Settled(lanes, ps[0]) && |Unsettled(lanes, ps)| <= |Opens(lanes)|
    ensures Placeable(lanes, ps)
    decreases |ps|, 0
  {
    var p := ps[0];
    assert p in Unsettled(lanes, ps);
    SubsetCard({p}, Unsettled(lanes, ps));
    assert Opens(lanes) != {};
    var j: nat :| j in Opens(lanes);
    var i := LowestOf(lanes, p, j);
    assert lanes[i].Open?;
    var lanes' := lanes[i := Used(Index(p))];
    OpensTaken(lanes, i, p);
    forall q | q in Unsettled(lanes', ps[1..]) ensures q in Unsettled(lanes, ps) - {p} {
      if q == p || Settled(lanes, q) { SettledStays(lanes, p, i, q); }
    }
    SubsetCard(Unsettled(lanes', ps[1..]), Unsettled(lanes, ps) - {p});
    LanesSuffice(lanes', ps[1..]);
  }

  /** Exactly enough, unless some port's own lane lies above an open one. */
  lemma LanesExactly(lanes: seq<Lane>, ps: seq<Dir>)
    requires forall p :: p in ps && Reserved(lanes, p) ==> Settled(lanes, p)
    ensures Placeable(lanes, ps) <==> |Unreserved(lanes, ps)| <= |Opens(lanes)|
  {
    SubsetCard(Unsettled(lanes, ps), Unreserved(lanes, ps));
    if Placeable(lanes, ps) {
      LanesNeeded(lanes, ps);
    } else if |Unreserved(lanes, ps)| <= |Opens(lanes)| {
      LanesSuffice(lanes, ps);
    }
  }

  // ---- the FU's result ----

  /** Destinations have a bank, and no bank or port is written twice. */
  ghost predicate WritesFit(h: Shape, ds: seq<Operand>)
    requires ShapeOk(h)
  {
    && (forall j :: 0 <= j < |ds| ==> !ds[j].Imm? && (ds[j].Reg? ==> Bank(h, ds[j].n) < h.lanes))
    && forall i, j :: 0 <= i < j < |ds| ==> Apart(h, ds[i], ds[j])
  }

  predicate Apart(h: Shape, d: Operand, e: Operand)
    requires ShapeOk(h)
  {
    d != e && (d.Reg? && e.Reg? ==> Bank(h, d.n) != Bank(h, e.n))
  }

  /** The moves write no other register of the banks the result is written to. */
  ghost predicate WritesAgree(h: Shape, ts: seq<Transfer>, ds: seq<Operand>)
    requires ShapeOk(h)
  {
    forall i, j :: 0 <= i < |ts| && 0 <= j < |ds| ==> Agree(h, ts[i].dst, ds[j])
  }

  predicate Agree(h: Shape, d: Operand, e: Operand)
    requires ShapeOk(h)
  {
    d.Reg? && e.Reg? && Bank(h, d.n) == Bank(h, e.n) ==> d == e
  }

  /** The write ports the moves set up: bank b's index is told by the transfers into it. */
  ghost predicate WritePortsTold(h: Shape, s: Signals, ts: seq<Transfer>)
    requires SignalsOk(h, s)
  {
    && (forall i :: 0 <= i < |ts| && ts[i].dst.Reg? ==>
          Bank(h, ts[i].dst.n) < h.lanes && s.writeIdx[Bank(h, ts[i].dst.n)] == Slot(h, ts[i].dst.n))
    && forall b :: 0 <= b < h.lanes && s.writeIdx[b] != -1 ==> WrittenTo(h, s, ts, b)
  }

  ghost predicate WrittenTo(h: Shape, s: Signals, ts: seq<Transfer>, b: nat)
    requires SignalsOk(h, s) && b < h.lanes
  {
    exists i :: 0 <= i < |ts| && ts[i].dst.Reg? && Bank(h, ts[i].dst.n) == b && Slot(h, ts[i].dst.n) == s.writeIdx[b]
  }

  lemma WritePortsAreTold(h: Shape, s: Signals, ts: seq<Transfer>)
    requires SignalsOk(h, s) && Told(h, s, ts)
    ensures WritePortsTold(h, s, ts)
  {
    forall i | 0 <= i < |ts| && ts[i].dst.Reg?
      ensures Bank(h, ts[i].dst.n) < h.lanes && s.writeIdx[Bank(h, ts[i].dst.n)] == Slot(h, ts[i].dst.n)
    {
      WriteShows(h, s, ts, i);
    }
    forall b | 0 <= b < h.lanes && s.writeIdx[b] != -1 ensures WrittenTo(h, s, ts, b) {
      WriteTold(h, s, ts, b);
    }
  }

  /** d may be written after done. */
  ghost predicate MayWrite(h: Shape, ts: seq<Transfer>, done: seq<Operand>, d: Operand)
    requires ShapeOk(h)
  {
    && !d.Imm? && (d.Reg? ==> Bank(h, d.n) < h.lanes)
    && (forall i :: 0 <= i < |done| ==> Apart(h, done[i], d))
    && forall i :: 0 <= i < |ts| ==> Agree(h, ts[i].dst, d)
  }

  lemma WriteExactly(h: Shape, s0: Signals, s: Signals, ts: seq<Transfer>, done: seq<Operand>, d: Operand)
    requires SignalsOk(h, s0) && SignalsOk(h, s) && WritePortsTold(h, s0, ts) && AfterWrites(h, s0, s, done)
    ensures WriteResult(h, s, d).Ok? <==> MayWrite(h, ts, done, d)
  {
    if d.Reg? && Bank(h, d.n) < h.lanes {
      WriteRegExactly(h, s0, s, ts, done, d.n);
    } else if d.Port? {
      assert s.fuOut[Index(d.dir)] != 0 <==> d in done by {
        if d in done { assert Written(h, s, d); }
      }
    }
  }

  lemma WriteRegExactly(h: Shape, s0: Signals, s: Signals, ts: seq<Transfer>, done: seq<Operand>, n: nat)
    requires SignalsOk(h, s0) && SignalsOk(h, s) && WritePortsTold(h, s0, ts) && AfterWrites(h, s0, s, done)
    requires Bank(h, n) < h.lanes
    ensures WriteResult(h, s, Reg(n)).Ok? <==> MayWrite(h, ts, done, Reg(n))
  {
    var b := Bank(h, n);
    assert BankAfterWrites(h, s0, s, b);
    if s.fuOut[h.ports + b] != 0 {
      assert BankIsWritten(h, done, b);
      var x :| x in done && x.Reg? && Bank(h, x.n) == b;
      var i :| 0 <= i < |done| && done[i] == x;
      assert !Apart(h, done[i], Reg(n));
    } else {
      forall i | 0 <= i < |done| ensures Apart(h, done[i], Reg(n)) {
        assert Written(h, s, done[i]);
      }
      if s0.writeIdx[b] != -1 {
        assert WrittenTo(h, s0, ts, b);
        var i :| 0 <= i < |ts| && ts[i].dst.Reg? && Bank(h, ts[i].dst.n) == b && Slot(h, ts[i].dst.n) == s0.writeIdx[b];
        if s0.writeIdx[b] == Slot(h, n) {
          forall k | 0 <= k < |ts| ensures Agree(h, ts[k].dst, Reg(n)) {
            if ts[k].dst.Reg? && Bank(h, ts[k].dst.n) == b { SameRegister(h, ts[k].dst.n, n); }
          }
        } else {
          assert !Agree(h, ts[i].dst, Reg(n));
        }
      }
    }
  }

  lemma WritesOneMore(h: Shape, ts: seq<Transfer>, ds: seq<Operand>)
    requires ShapeOk(h) && ds != []
    ensures var n := |ds| - 1;
            WritesFit(h, ds) && WritesAgree(h, ts, ds) <==>
              WritesFit(h, ds[..n]) && WritesAgree(h, ts, ds[..n]) && MayWrite(h, ts, ds[..n], ds[n])
  {
    var n := |ds| - 1;
    assert forall k :: 0 <= k < n ==> ds[..n][k] == ds[k];
  }

  /** The result's destinations are accepted exactly if they are apart and agree with the
      moves. */
  lemma {:induction false} WritesExactly(h: Shape, s0: Signals, ts: seq<Transfer>, ds: seq<Operand>)
    requires SignalsOk(h, s0) && (forall j :: 0 <= j < |s0.fuOut| ==> s0.fuOut[j] == 0) && WritePortsTold(h, s0, ts)
    ensures WriteResults(h, s0, ds).Ok? <==> WritesFit(h, ds) && WritesAgree(h, ts, ds)
  {
    if ds != [] {
      var n := |ds| - 1;
      WritesExactly(h, s0, ts, ds[..n]);
      WritesOneMore(h, ts, ds);
      if WriteResults(h, s0, ds[..n]).Ok? {
        WritesKeep(h, s0, ds[..n]);
        WriteExactly(h, s0, WriteResults(h, s0, ds[..n]).value, ts, ds[..n], ds[n]);
      }
    }
  }

  // ---- lanes as the instruction leaves them ----

  ghost predicate BankRead(h: Shape, ts: seq<Transfer>, os: seq<Operand>, b: nat)
    requires ShapeOk(h)
  {
    ReadOf(h, ts, b) || RegIn(h, os, b)
  }

  predicate IntoBank(h: Shape, t: Transfer, b: nat)
    requires ShapeOk(h)
  {
    t.dst.Reg? && Bank(h, t.dst.n) == b
  }

  /** Lane b before the port operands are placed: blocked if its bank is read, used if a move
      brings a port's value to its bank. */
  ghost predicate LaneIs(h: Shape, ts: seq<Transfer>, os: seq<Operand>, b: nat, l: Lane)
    requires ShapeOk(h)
  {
    match l
    case Blocked => BankRead(h, ts, os, b)
    case Open => !BankRead(h, ts, os, b) && forall i :: 0 <= i < |ts| ==> !IntoBank(h, ts[i], b)
    case Used(c) =>
      !BankRead(h, ts, os, b) && exists i :: 0 <= i < |ts| && IntoBank(h, ts[i], b) && ts[i].src == FromDir(c)
  }

  ghost predicate LanesAre(h: Shape, ts: seq<Transfer>, os: seq<Operand>, lanes: seq<Lane>)
    requires ShapeOk(h)
  {
    |lanes| == h.lanes && forall b :: 0 <= b < h.lanes ==> LaneIs(h, ts, os, b, lanes[b])
  }

  lemma LanesUnique(h: Shape, ts: seq<Transfer>, os: seq<Operand>, lanes: seq<Lane>, lanes': seq<Lane>)
    requires ShapeOk(h) && FitTogether(h, ts) && LanesAre(h, ts, os, lanes) && LanesAre(h, ts, os, lanes')
    ensures lanes == lanes'
  {
    forall b | 0 <= b < h.lanes ensures lanes[b] == lanes'[b] {
      assert LaneIs(h, ts, os, b, lanes[b]) && LaneIs(h, ts, os, b, lanes'[b]);
      if lanes[b].Used? && lanes'[b].Used? {
        var i :| 0 <= i < |ts| && IntoBank(h, ts[i], b) && ts[i].src == FromDir(lanes[b].port);
        var j :| 0 <= j < |ts| && IntoBank(h, ts[j], b) && ts[j].src == FromDir(lanes'[b].port);
        assert i < j ==> Compatible(h, ts[i], ts[j]);
        assert j < i ==> Compatible(h, ts[j], ts[i]);
      }
    }
  }

  /** The signals after the register operands have just these lanes. */
  lemma LaneTold(h: Shape, s0: Signals, s: Signals, ts: seq<Transfer>, os: seq<Operand>, b: nat)
    requires SignalsOk(h, s0) && SignalsOk(h, s) && Told(h, s0, ts) && RegsTold(h, s, os) && b < h.lanes
    requires s.tileIn == s0.tileIn && LaneAfterReads(h, s0, s, b)
    ensures LaneIs(h, ts, os, b, LanesOf(h, s)[b])
  {
    assert s.readFu[b] <==> RegIn(h, os, b) by {
      if RegIn(h, os, b) {
        var k :| 0 <= k < |os| && os[k].Reg? && Bank(h, os[k].n) == b;
        assert RegTold(h, s, os[k].n);
      }
    }
    assert s0.readXbar[b] <==> ReadOf(h, ts, b) by {
      if ReadOf(h, ts, b) {
        var i :| 0 <= i < |ts| && ts[i].src.FromReg? && Bank(h, ts[i].src.n) == b;
        assert Readable(h, s0, ts[i].src.n);
      }
    }
    WriteTold(h, s0, ts, b);
    assert BankAfterMoves(h, s0, b);
    if s.tileIn[h.ports + b] == 0 {
      forall i | 0 <= i < |ts| ensures !IntoBank(h, ts[i], b) {
        if IntoBank(h, ts[i], b) { WriteShows(h, s0, ts, i); }
      }
    } else {
      var i :| && 0 <= i < |ts| && ts[i].dst.Reg? && Bank(h, ts[i].dst.n) == b
               && Slot(h, ts[i].dst.n) == s0.writeIdx[b] && Takes(s0, h.ports + b, ts[i].src);
      assert IntoBank(h, ts[i], b);
    }
  }

  // ---- all operands ----

  /** The ports among the operands, in order. */
  function PortsOf(os: seq<Operand>): seq<Dir> {
    if os == [] then []
    else
      var o := os[|os| - 1];
      PortsOf(os[..|os| - 1]) + if o.Port? then [o.dir] else []
  }

  lemma {:induction false} PlacedPorts(os: seq<Operand>)
    requires NoImms(os)
    ensures forall i :: 0 <= i < |Placed(os, false)| ==>
              && Placed(os, false)[i].operand.Port? && Placed(os, false)[i].k < |os|
              && Placed(os, false)[i].operand == os[Placed(os, false)[i].k]
    ensures forall i, j :: 0 <= i < j < |Placed(os, false)| ==> Placed(os, false)[i].k < Placed(os, false)[j].k
    ensures DirsOf(Placed(os, false)) == PortsOf(os)
  {
    if os != [] {
      var n := |os| - 1;
      PlacedPorts(os[..n]);
      assert Placed(os, false) == Placed(os[..n], false) + if os[n].Reg? then [] else [Slotted(n, os[n])];
      assert DirsOf(Placed(os, false)) == DirsOf(Placed(os[..n], false)) + if os[n].Reg? then [] else [os[n].dir];
    }
  }

  lemma PortsUnwired(h: Shape, s0: Signals, s: Signals, os: seq<Operand>)
    requires SignalsOk(h, s0) && SignalsOk(h, s) && AfterReads(h, s0, s, Placed(os, true))
    requires NoImms(os) && |os| <= h.lanes
    ensures Unwired(h, s, Placed(os, false))
  {
    PlacedPorts(os);
    forall i | 0 <= i < |Placed(os, false)| ensures s.shuffle[Placed(os, false)[i].k] == 0 {
      var k := Placed(os, false)[i].k;
      if s.shuffle[k] != 0 {
        var o :| o in Placed(os, true) && o.k == k;
        PlacedExact(os, true);
        assert false;
      }
    }
  }

  /** The FU's operands fit: as many as there are lanes, each bank reads one register, and
      each port in turn finds a lane. */
  ghost predicate OperandsFit(h: Shape, ts: seq<Transfer>, os: seq<Operand>)
    requires ShapeOk(h)
  {
    && |os| <= h.lanes && RegsFit(h, os)
    && exists lanes :: LanesAre(h, ts, os, lanes) && Placeable(lanes, PortsOf(os))
  }

  lemma AfterRegsExactly(h: Shape, s0: Signals, s: Signals, ts: seq<Transfer>, os: seq<Operand>)
    requires SignalsOk(h, s0) && SignalsOk(h, s) && Told(h, s0, ts) && AfterRegs(h, s0, s, Placed(os, true))
    requires NoImms(os) && |os| <= h.lanes
    ensures ReadOperands(h, s, Placed(os, false)).Ok? <==>
              exists lanes :: LanesAre(h, ts, os, lanes) && Placeable(lanes, PortsOf(os))
  {
    RegsAreTold(h, s0, s, os);
    var lanes := LanesOf(h, s);
    forall b | 0 <= b < h.lanes ensures LaneIs(h, ts, os, b, lanes[b]) {
      LaneTold(h, s0, s, ts, os, b);
    }
    assert LanesAre(h, ts, os, lanes);
    PortsUnwired(h, s0, s, os);
    PortsExactly(h, s, Placed(os, false));
    PlacedPorts(os);
    if lanes' :| LanesAre(h, ts, os, lanes') && Placeable(lanes', PortsOf(os)) {
      LanesUnique(h, ts, os, lanes, lanes');
    }
  }

  lemma PlacedExactly(h: Shape, s0: Signals, ts: seq<Transfer>, os: seq<Operand>)
    requires SignalsOk(h, s0) && Told(h, s0, ts) && NoImms(os) && |os| <= h.lanes
    ensures ReadOperands(h, s0, Reordered(os)).Ok? <==> OperandsFit(h, ts, os)
  {
    ReadConcat(h, s0, Placed(os, true), Placed(os, false));
    RegsExactly(h, s0, os);
    if ReadOperands(h, s0, Placed(os, true)).Ok? {
      AfterRegsExactly(h, s0, ReadOperands(h, s0, Placed(os, true)).value, ts, os);
    }
  }

  lemma FewEnough(h: Shape, s0: Signals, os: seq<Operand>)
    requires SignalsOk(h, s0) && AfterMoves(h, s0) && ReadOperands(h, s0, Reordered(os)).Ok?
    ensures NoImms(os) && |os| <= h.lanes
  {
    ReadsKeep(h, s0, Reordered(os));
    var s := ReadOperands(h, s0, Reordered(os)).value;
    ReadsHaveNoImms(h, s0, s, os);
    if os != [] {
      ReorderedExact(os);
      IsWired(h, s0, s, Reordered(os), Slotted(|os| - 1, os[|os| - 1]));
    }
  }

  lemma OperandsExactly(h: Shape, s0: Signals, ts: seq<Transfer>, op: Operation)
    requires SignalsOk(h, s0) && Told(h, s0, ts)
    ensures ReadOperands(h, s0, Reordered(Sources(op))).Ok? <==>
              NoAdjacentImms(Swapped(op)) && OperandsFit(h, ts, NonImms(Swapped(op)))
  {
    var os := Sources(op);
    WalkRemoves(Swapped(op), 0);
    assert Swapped(op)[0..] == Swapped(op);
    if ReadOperands(h, s0, Reordered(os)).Ok? { FewEnough(h, s0, os); }
    if NoImms(os) {
      StripImmsExact(Swapped(op), 0);
      if |os| <= h.lanes { PlacedExactly(h, s0, ts, os); }
    }
  }

  /** The operation that takes the FU fits the moves. */
  ghost predicate FuFits(h: Shape, ts: seq<Transfer>, op: Operation)
    requires ShapeOk(h)
  {
    && NoAdjacentImms(Swapped(op)) && OperandsFit(h, ts, NonImms(Swapped(op)))
    && WritesFit(h, op.dsts) && WritesAgree(h, ts, op.dsts)
  }

  lemma AddFuExactly(h: Shape, s0: Signals, ts: seq<Transfer>, op: Operation)
    requires SignalsOk(h, s0) && Told(h, s0, ts)
    ensures AddFu(h, s0, op).Ok? <==> FuFits(h, ts, op)
  {
    OperandsExactly(h, s0, ts, op);
    if ReadOperands(h, s0, Reordered(Sources(op))).Ok? {
      ReadsKeep(h, s0, Reordered(Sources(op)));
      ResultExactly(h, s0, ReadOperands(h, s0, Reordered(Sources(op))).value, ts, Reordered(Sources(op)), op.dsts);
    }
  }

  lemma ResultExactly(h: Shape, s0: Signals, s: Signals, ts: seq<Transfer>, os: seq<Slotted>, ds: seq<Operand>)
    requires SignalsOk(h, s0) && SignalsOk(h, s) && Told(h, s0, ts) && AfterReads(h, s0, s, os)
    ensures WriteResults(h, s, ds).Ok? <==> WritesFit(h, ds) && WritesAgree(h, ts, ds)
  {
    WritePortsAreTold(h, s0, ts);
    assert WritePortsTold(h, s, ts) by {
      forall b | 0 <= b < h.lanes && s.writeIdx[b] != -1 ensures WrittenTo(h, s, ts, b) {
        assert WrittenTo(h, s0, ts, b);
      }
    }
    FuCrossbarUnused(h, s0);
    WritesExactly(h, s, ts, ds);
  }

  // ---- whole instructions ----

  lemma {:induction false} SelectAppend(ops: seq<Operation>, us: seq<Operation>, fu: bool)
    ensures Select(ops + us, fu) == Select(ops, fu) + Select(us, fu)
  {
    if ops == [] {
      assert ops + us == us;
    } else {
      var all, head := ops + us, if TakesFu(ops[0]) == Ok(fu) then [ops[0]] else [];
      SelectAppend(ops[1..], us, fu);
      assert all[0] == ops[0] && all[1..] == ops[1..] + us;
      assert head + (Select(ops[1..], fu) + Select(us, fu)) == (head + Select(ops[1..], fu)) + Select(us, fu);
    }
  }

  lemma SelectLast(ops: seq<Operation>, fu: bool)
    requires ops != []
    ensures Select(ops, fu)
         == Select(ops[..|ops| - 1], fu) + if TakesFu(ops[|ops| - 1]) == Ok(fu) then [ops[|ops| - 1]] else []
  {
    var n := |ops| - 1;
    assert ops == ops[..n] + [ops[n]];
    SelectAppend(ops[..n], [ops[n]], fu);
    assert [ops[n]][1..] == [];
  }

  lemma MovedLast(ops: seq<Operation>, op: Operation)
    requires Moves(op)
    ensures Moved(ops + [op]) == Moved(ops) + TransfersTo(Brings(op), op.dsts)
  {
    assert (ops + [op])[..|ops|] == ops;
  }

  /** Only the moves matter to the moves. */
  lemma {:induction false} MovedIsSelected(ops: seq<Operation>)
    ensures Moved(ops) == Moved(Select(ops, false))
  {
    if ops != [] {
      var n := |ops| - 1;
      MovedIsSelected(ops[..n]);
      SelectLast(ops, false);
      MovesIs(ops[n]);
      if Moves(ops[n]) {
        MovedLast(Select(ops[..n], false), ops[n]);
        assert Moved(ops) == Moved(ops[..n]) + TransfersTo(Brings(ops[n]), ops[n].dsts);
      } else {
        assert Select(ops, false) == Select(ops[..n], false);
        assert Moved(ops) == Moved(ops[..n]);
      }
    }
  }

  lemma MovesFitSelected(h: Shape, ops: seq<Operation>)
    requires ShapeOk(h)
    ensures MovesFit(h, ops) <==> MovesFit(h, Select(ops, false))
    ensures forall i :: 0 <= i < |Select(ops, false)| ==> Moves(Select(ops, false)[i])
  {
    MovedIsSelected(ops);
    SelectKind(ops, false);
    var moves := Select(ops, false);
    forall i | 0 <= i < |moves| ensures Moves(moves[i]) { MovesIs(moves[i]); }
    if MovesFit(h, moves) {
      forall i | 0 <= i < |ops| && Moves(ops[i]) ensures NamesSource(ops[i]) {
        MovesIs(ops[i]);
        SelectHas(ops, i, false);
      }
    }
    if MovesFit(h, ops) {
      forall i | 0 <= i < |moves| ensures NamesSource(moves[i]) {
        var k := SelectFrom(ops, false, i);
      }
    }
  }

  /** Every move has one source, and at most one operation takes the FU. */
  ghost predicate OneFuOperation(ops: seq<Operation>) {
    && (forall i :: 0 <= i < |ops| && ops[i].opcode.Mov? ==> |ops[i].srcs| == 1)
    && forall i, j :: 0 <= i < j < |ops| ==> Moves(ops[i]) || Moves(ops[j])
  }

  lemma {:induction false} WellFormedExactly(ops: seq<Operation>)
    ensures WellFormed(ops) <==> OneFuOperation(ops)
    ensures OneFuOperation(ops) ==>
              (Select(ops, true) == [] <==> forall i :: 0 <= i < |ops| ==> Moves(ops[i]))
  {
    if ops != [] {
      var n, op := |ops| - 1, ops[|ops| - 1];
      WellFormedExactly(ops[..n]);
      SelectLast(ops, true);
      MovesIs(op);
      assert forall i :: 0 <= i < n ==> ops[..n][i] == ops[i];
      assert TakesFu(op).Ok? <==> (op.opcode.Mov? ==> |op.srcs| == 1);
    }
  }

  /** What a caller can check beforehand. */
  ghost predicate Acceptable(h: Shape, ops: seq<Operation>)
    requires ShapeOk(h)
  {
    && OneFuOperation(ops) && MovesFit(h, ops)
    && forall i :: 0 <= i < |ops| && !Moves(ops[i]) ==> FuFits(h, Moved(ops), ops[i])
  }

  /** The translator accepts exactly these instructions. */
  lemma AcceptsExactly(h: Shape, ops: seq<Operation>)
    requires ShapeOk(h)
    ensures Build(h, ops).Ok? <==> Acceptable(h, ops)
  {
    WellFormedExactly(ops);
    MovesFitSelected(h, ops);
    MovedIsSelected(ops);
    AddMovesExactly(h, Select(ops, false));
    if OneFuOperation(ops) && MovesFit(h, ops) && Select(ops, true) != [] {
      var i :| 0 <= i < |ops| && !Moves(ops[i]);
      FuIs(ops, i);
      AddFuExactly(h, AddMoves(h, Blank(h), Select(ops, false)).value, Moved(ops), ops[i]);
      forall j | 0 <= j < |ops| && !Moves(ops[j]) ensures j == i {}
    }
  }

  /** An instruction is accepted and its word does what is written exactly if it is acceptable
      and none of the clashes that go unreported is in it. */
  lemma TranslatesExactly(h: Shape, ops: seq<Operation>)
    requires ShapeOk(h)
    ensures Build(h, ops).Ok? && AsWritten(h, Encode(h, Build(h, ops).value), ops)
       <==> Acceptable(h, ops) && !Clashing(h, ops)
  {
    AcceptsExactly(h, ops);
    if Build(h, ops).Ok? {
      WordDoesWhatIsWritten(h, ops);
    }
  }

  // ---- a rejection that is not needed ----

  const SHAPE: Shape := Shape(2, 4, 8)
  const TO_BANK_ONE: Operation := Operation(Mov, [Port(West)], [Reg(8)], 0)

  function AddOf(a: Operand, b: Operand): Operation {
    Operation(Other("OPT_ADD"), [a, b], [Port(East)], 0)
  }

  lemma MovedToBankOne(fu: Operation)
    requires !Moves(fu)
    ensures Moved([TO_BANK_ONE, fu]) == [Transfer(FromDir(2), Reg(8))]
  {
    var ops := [TO_BANK_ONE, fu];
    assert ops[..1] == [] + [TO_BANK_ONE];
    MovedLast([], TO_BANK_ONE);
    assert TransfersTo(FromDir(2), [Reg(8)]) == [Transfer(FromDir(2), Reg(8))];
  }

  lemma LanesOfExample(os: seq<Operand>)
    requires NoImms(os) && RegsFit(SHAPE, os) && |os| == 2 && os[0].Port? && os[1].Port?
    ensures OperandsFit(SHAPE, [Transfer(FromDir(2), Reg(8))], os) <==> Placeable([Open, Used(2)], PortsOf(os))
  {
    var ts := [Transfer(FromDir(2), Reg(8))];
    assert LanesAre(SHAPE, ts, os, [Open, Used(2)]) by {
      assert IntoBank(SHAPE, ts[0], 1);
    }
    if lanes :| LanesAre(SHAPE, ts, os, lanes) && Placeable(lanes, PortsOf(os)) {
      LanesUnique(SHAPE, ts, os, lanes, [Open, Used(2)]);
    }
  }

  lemma PortsOfTwo(a: Dir, b: Dir)
    ensures PortsOf([Port(a), Port(b)]) == [a, b]
  {
    var os := [Port(a), Port(b)];
    assert os[..1] == [Port(a)] && os[..1][..0] == [];
    assert PortsOf([Port(a)]) == [a];
  }

  lemma MoveThenFu(h: Shape, move: Operation, fu: Operation)
    requires ShapeOk(h) && Moves(move) && NamesSource(move) && !Moves(fu) && !fu.opcode.Mov?
    ensures var ts := Moved([move, fu]);
            Build(h, [move, fu]).Ok? <==> FitTogether(h, ts) && FuFits(h, ts, fu)
  {
    var ops := [move, fu];
    AcceptsExactly(h, ops);
    assert ops[0] == move && ops[1] == fu;
    assert OneFuOperation(ops);
  }

  lemma FuOfExample(a: Dir, b: Dir)
    ensures var ts := [Transfer(FromDir(2), Reg(8))];
            FuFits(SHAPE, ts, AddOf(Port(a), Port(b))) == Placeable([Open, Used(2)], [a, b])
  {
    var os, ts, op := [Port(a), Port(b)], [Transfer(FromDir(2), Reg(8))], AddOf(Port(a), Port(b));
    PlainFuFits(SHAPE, ts, op);
    PortsOfTwo(a, b);
    LanesOfExample(os);
    assert WritesFit(SHAPE, op.dsts) && WritesAgree(SHAPE, ts, op.dsts);
  }

  /** Without constants and for no STORE, only lanes, banks and destinations matter. */
  lemma PlainFuFits(h: Shape, ts: seq<Transfer>, op: Operation)
    requires ShapeOk(h) && NoImms(op.srcs) && !op.opcode.Store?
    ensures FuFits(h, ts, op)
         == (OperandsFit(h, ts, op.srcs) && WritesFit(h, op.dsts) && WritesAgree(h, ts, op.dsts))
  {
    NonImmsOfNone(op.srcs);
  }

  lemma OnlyLanesMatter(a: Dir, b: Dir)
    ensures Build(SHAPE, [TO_BANK_ONE, AddOf(Port(a), Port(b))]).Ok? <==> Placeable([Open, Used(2)], [a, b])
  {
    var fu := AddOf(Port(a), Port(b));
    MoveThenFu(SHAPE, TO_BANK_ONE, fu);
    MovedToBankOne(fu);
    FuOfExample(a, b);
    assert FitTogether(SHAPE, [Transfer(FromDir(2), Reg(8))]);
  }

  /** An instruction that is turned away although it can be translated: with a move from the
      west into bank 1, the FU's west operand takes the free lane 0 rather than lane 1, which
      already carries the west port's value, and leaves none to the north operand; with the
      operands in the other order each gets its lane. */
  lemma FreeLaneFirstRejects()
    ensures Build(SHAPE, [TO_BANK_ONE, AddOf(Port(West), Port(North))]) == Raised
    ensures Build(SHAPE, [TO_BANK_ONE, AddOf(Port(North), Port(West))]).Ok?
  {
    OnlyLanesMatter(West, North);
    OnlyLanesMatter(North, West);
    var lanes := [Open, Used(2)];
    assert !Placeable(lanes, [West, North]) by {
      assert Lowest(lanes, West, 0);
      PlaceFirst(lanes, [West, North], 0);
      assert lanes[0 := Used(2)] == [Used(2), Used(2)] && [West, North][1..] == [North];
      assert forall i: nat :: !Lowest([Used(2), Used(2)], North, i);
    }
    assert Placeable(lanes, [North, West]) by {
      assert Lowest(lanes, North, 0);
      PlaceFirst(lanes, [North, West], 0);
      assert lanes[0 := Used(0)] == [Used(0), Used(2)] && [North, West][1..] == [West];
      assert Lowest([Used(0), Used(2)], West, 1);
      PlaceFirst([Used(0), Used(2)], [West], 1);
    }
  }
}
