/** The same guarantee read off the operations themselves.  `Faithful` and `Clash` speak of
    transfers and operand lists that the translator's own notions single out; here an
    instruction is only its operations, each with its opcode and operands as written. */
module CompilerMeaning {
  import opened Compiler
  import opened CompilerProofs

  /** A move that needs no FU: from a port, or from a register to ports only. */
  predicate Moves(op: Operation) {
    && op.opcode == Mov && |op.srcs| == 1
    && (op.srcs[0].Port? || (op.dsts != [] && forall j :: 0 <= j < |op.dsts| ==> op.dsts[j].Port?))
  }

  /** What an operation brings to its destinations. */
  function Brings(op: Operation): Source {
    if Moves(op) && !op.srcs[0].Imm? then SourceOf(op.srcs[0]) else FuResult
  }

  /** The sources that an instruction names for d. */
  function Named(ops: seq<Operation>, d: Operand): set<Source> {
    set i, j | 0 <= i < |ops| && 0 <= j < |ops[i].dsts| && ops[i].dsts[j] == d :: Brings(ops[i])
  }

  /** How many of the first q operands are not constants. */
  function Before(s: seq<Operand>, q: nat): nat
    requires q <= |s|
  {
    if q == 0 then 0 else Before(s, q - 1) + if s[q - 1].Imm? then 0 else 1
  }

  // ---- operands ----

  lemma {:induction false} NonImmsLength(s: seq<Operand>, q: nat)
    requires q <= |s|
    ensures |NonImms(s[..q])| == Before(s, q)
  {
    if q == 0 {
      assert s[..0] == [];
    } else {
      NonImmsLength(s, q - 1);
      assert s[..q] == s[..q - 1] + [s[q - 1]];
      NonImmsConcat(s[..q - 1], [s[q - 1]]);
      assert [s[q - 1]][1..] == [];
    }
  }

  /** Operand q of a list comes after the non-constants before it. */
  lemma NonImmsAt(s: seq<Operand>, q: nat)
    requires q < |s| && !s[q].Imm?
    ensures Before(s, q) < |NonImms(s)| && NonImms(s)[Before(s, q)] == s[q]
  {
    var before, rest := s[..q], s[q..];
    assert s == before + rest && rest[0] == s[q];
    NonImmsLength(s, q);
    NonImmsConcat(before, rest);
    assert NonImms(rest)[0] == s[q];
  }

  lemma AllBefore(s: seq<Operand>)
    ensures |NonImms(s)| == Before(s, |s|)
  {
    NonImmsLength(s, |s|);
    assert s[..|s|] == s;
  }

  /** The word feeds FU operand k the k-th non-constant of a list, and no further operand. */
  ghost predicate Feeds(h: Shape, w: Word, srcs: seq<Operand>)
    requires WordOk(h, w)
  {
    && Before(srcs, |srcs|) <= h.lanes
    && (forall q :: 0 <= q < |srcs| && !srcs[q].Imm? ==>
          Before(srcs, q) < h.lanes && OperandSource(h, w, Before(srcs, q)) == {SourceOf(srcs[q])})
    && forall k :: Before(srcs, |srcs|) <= k < h.lanes ==> OperandSource(h, w, k) == {}
  }

  lemma MovesIs(op: Operation)
    ensures Moves(op) <==> IsMove(op)
    ensures TakesFu(op).Ok? ==> (IsFu(op) <==> !Moves(op))
  {
  }

  lemma {:induction false} SelectHas(ops: seq<Operation>, i: nat, fu: bool)
    requires i < |ops| && TakesFu(ops[i]) == Ok(fu)
    ensures ops[i] in Select(ops, fu)
  {
    if i > 0 {
      SelectHas(ops[1..], i - 1, fu);
    }
  }

  /** The operation that takes the FU. */
  lemma FuIs(ops: seq<Operation>, i: nat)
    requires WellFormed(ops) && i < |ops| && !Moves(ops[i])
    ensures Select(ops, true) == [ops[i]]
  {
    assert TakesFu(ops[i]) == Ok(true) by {
      MovesIs(ops[i]);
    }
    SelectHas(ops, i, true);
    OnlyOne(Select(ops, true), ops[i]);
  }

  lemma OnlyOne(s: seq<Operation>, op: Operation)
    requires |s| <= 1 && op in s
    ensures s == [op]
  {
  }

  /** Operand lists in hardware order are fed in that order. */
  lemma FuFed(h: Shape, ops: seq<Operation>, i: nat)
    requires ShapeOk(h) && Build(h, ops).Ok? && i < |ops| && !Moves(ops[i])
    ensures Feeds(h, Encode(h, Build(h, ops).value), Swapped(ops[i]))
  {
    FuIs(ops, i);
    var srcs, w := Swapped(ops[i]), Encode(h, Build(h, ops).value);
    assert FuOperands(ops) == NonImms(srcs);
    AllOperandsFaithful(h, ops);
    AllBefore(srcs);
    forall q | 0 <= q < |srcs| && !srcs[q].Imm?
      ensures Before(srcs, q) < h.lanes && OperandSource(h, w, Before(srcs, q)) == {SourceOf(srcs[q])}
    {
      NonImmsAt(srcs, q);
    }
  }

  lemma AllOperandsFaithful(h: Shape, ops: seq<Operation>)
    requires ShapeOk(h) && Build(h, ops).Ok? && Select(ops, true) != []
    ensures var w, os := Encode(h, Build(h, ops).value), FuOperands(ops);
            && |os| <= h.lanes && NoImms(os)
            && (forall k :: 0 <= k < |os| ==> OperandSource(h, w, k) == {SourceOf(os[k])})
            && forall k :: |os| <= k < h.lanes ==> OperandSource(h, w, k) == {}
  {
    SelectKind(ops, false);
    var moves, op := Select(ops, false), Select(ops, true)[0];
    AddMovesDelivers(h, moves);
    var s0, ms := AddMoves(h, Blank(h), moves).value, MoveTransfers(moves);
    FuPhases(h, s0, ms, op);
    StripImmsExact(Swapped(op), 0);
    OperandsFaithful(h, s0, ReadOperands(h, s0, Reordered(Sources(op))).value, Build(h, ops).value, ms,
                     FuOperands(ops), op.dsts);
  }

  /** Whatever the FU operation of an accepted instruction, its operands reach the FU in order
      without the constants, except that a STORE's first two change places: the hardware wants
      the address first, the instruction names the data first. */
  lemma OperandsInOrder(h: Shape, ops: seq<Operation>, i: nat)
    requires ShapeOk(h) && Build(h, ops).Ok? && i < |ops| && !Moves(ops[i])
    ensures var w, op := Encode(h, Build(h, ops).value), ops[i];
            if op.opcode == Store && |op.srcs| >= 2
            then Feeds(h, w, [op.srcs[1], op.srcs[0]] + op.srcs[2..])
            else Feeds(h, w, op.srcs)
  {
    FuFed(h, ops, i);
  }

  /** A STORE of data to an address: input 0 gets the address and input 1 the data; if one of
      them is a constant, input 0 gets the other one. */
  lemma StoreOperands(h: Shape, ops: seq<Operation>, i: nat)
    requires ShapeOk(h) && Build(h, ops).Ok? && i < |ops| && ops[i].opcode == Store && |ops[i].srcs| == 2
    ensures var w, data, address := Encode(h, Build(h, ops).value), ops[i].srcs[0], ops[i].srcs[1];
            && (!address.Imm? ==> OperandSource(h, w, 0) == {SourceOf(address)})
            && (!data.Imm? && !address.Imm? ==> h.lanes >= 2 && OperandSource(h, w, 1) == {SourceOf(data)})
            && (!data.Imm? && address.Imm? ==> OperandSource(h, w, 0) == {SourceOf(data)})
  {
    var srcs := ops[i].srcs;
    OperandsInOrder(h, ops, i);
    var s := [srcs[1], srcs[0]];
    assert s + srcs[2..] == s;
    assert Before(s, 0) == 0 && Before(s, 1) == if srcs[1].Imm? then 0 else 1;
  }

  // ---- destinations ----

  lemma {:induction false} MovesIn(ops: seq<Operation>, x: Source, d: Operand)
    requires forall i :: 0 <= i < |ops| ==> NamesSource(ops[i])
    ensures x in Into(MoveTransfers(ops), d) <==> exists i :: 0 <= i < |ops| && MoveNames(ops[i], d, x)
  {
    if ops != [] {
      var n, op := |ops| - 1, ops[|ops| - 1];
      MovesIn(ops[..n], x, d);
      IntoConcat(MoveTransfers(ops[..n]), TransfersTo(SourceOf(op.srcs[0]), op.dsts), d);
      TransfersToInto(SourceOf(op.srcs[0]), op.dsts, d);
      assert forall i :: 0 <= i < n ==> ops[..n][i] == ops[i];
    }
  }

  lemma {:induction false} SelectFrom(ops: seq<Operation>, fu: bool, i: nat) returns (k: nat)
    requires i < |Select(ops, fu)|
    ensures k < |ops| && ops[k] == Select(ops, fu)[i]
  {
    if TakesFu(ops[0]) == Ok(fu) && i == 0 {
      k := 0;
    } else {
      k := SelectFrom(ops[1..], fu, if TakesFu(ops[0]) == Ok(fu) then i - 1 else i);
      k := k + 1;
    }
  }

  /** The moves of an accepted instruction name a port or a register. */
  lemma {:induction false} MovesNameSources(h: Shape, ops: seq<Operation>)
    requires ShapeOk(h) && (forall i :: 0 <= i < |ops| ==> IsMove(ops[i])) && AddMoves(h, Blank(h), ops).Ok?
    ensures forall i :: 0 <= i < |ops| ==> NamesSource(ops[i])
  {
    if ops != [] {
      var n := |ops| - 1;
      MovesNameSources(h, ops[..n]);
      MoveSources(ops[n]);
      forall i | 0 <= i < |ops|
        ensures NamesSource(ops[i])
      {
        assert i < n ==> ops[i] == ops[..n][i];
      }
    }
  }

  /** x is brought to d by a move, or by the operation that takes the FU. */
  ghost predicate Brought(ops: seq<Operation>, d: Operand, x: Source) {
    || (exists i :: 0 <= i < |Select(ops, false)| && MoveNames(Select(ops, false)[i], d, x))
    || (Select(ops, true) != [] && d in Select(ops, true)[0].dsts && x == FuResult)
  }

  predicate MoveNames(op: Operation, d: Operand, x: Source) {
    |op.srcs| == 1 && !op.srcs[0].Imm? && d in op.dsts && x == SourceOf(op.srcs[0])
  }

  lemma BroughtIsNamed(ops: seq<Operation>, d: Operand, x: Source)
    requires Brought(ops, d, x)
    ensures x in Named(ops, d)
  {
    var move := exists i :: 0 <= i < |Select(ops, false)| && MoveNames(Select(ops, false)[i], d, x);
    var i := 0;
    if move {
      i :| 0 <= i < |Select(ops, false)| && MoveNames(Select(ops, false)[i], d, x);
    }
    SelectKind(ops, !move);
    var k := SelectFrom(ops, !move, i);
    MovesIs(ops[k]);
    var j :| 0 <= j < |ops[k].dsts| && ops[k].dsts[j] == d;
    assert Brings(ops[k]) == x;
  }

  lemma NamedIsBrought(ops: seq<Operation>, d: Operand, x: Source)
    requires WellFormed(ops) && x in Named(ops, d)
    requires forall i :: 0 <= i < |Select(ops, false)| ==> NamesSource(Select(ops, false)[i])
    ensures Brought(ops, d, x)
  {
    var i, j :| 0 <= i < |ops| && 0 <= j < |ops[i].dsts| && ops[i].dsts[j] == d && Brings(ops[i]) == x;
    if Moves(ops[i]) {
      MovesIs(ops[i]);
      SelectHas(ops, i, false);
      var k :| 0 <= k < |Select(ops, false)| && Select(ops, false)[k] == ops[i];
      assert NamesSource(Select(ops, false)[k]);
      assert MoveNames(Select(ops, false)[k], d, x);
    } else {
      FuIs(ops, i);
    }
  }

  predicate NamesSource(op: Operation) {
    |op.srcs| == 1 && !op.srcs[0].Imm?
  }

  /** The transfers of an accepted instruction are those its operations name, each of them. */
  lemma TransfersAreNamed(h: Shape, ops: seq<Operation>, d: Operand)
    requires ShapeOk(h) && Build(h, ops).Ok?
    ensures Into(Transfers(ops), d) == Named(ops, d)
  {
    SelectKind(ops, false);
    MovesNameSources(h, Select(ops, false));
    forall x
      ensures x in Into(Transfers(ops), d) <==> x in Named(ops, d)
    {
      IntoIsBrought(h, ops, d, x);
      if Brought(ops, d, x) {
        BroughtIsNamed(ops, d, x);
      }
      if x in Named(ops, d) {
        NamedIsBrought(ops, d, x);
      }
    }
  }

  lemma IntoIsBrought(h: Shape, ops: seq<Operation>, d: Operand, x: Source)
    requires forall i :: 0 <= i < |Select(ops, false)| ==> NamesSource(Select(ops, false)[i])
    ensures x in Into(Transfers(ops), d) <==> Brought(ops, d, x)
  {
    var moves, fus := Select(ops, false), Select(ops, true);
    MovesIn(moves, x, d);
    IntoConcat(MoveTransfers(moves), if fus == [] then [] else TransfersTo(FuResult, fus[0].dsts), d);
    if fus != [] {
      TransfersToInto(FuResult, fus[0].dsts, d);
    }
  }

  // ---- clashes ----

  /** A move reads another register of a bank the FU reads; or a move and the operation that
      takes the FU name the same destination. */
  ghost predicate Clashing(h: Shape, ops: seq<Operation>)
    requires ShapeOk(h)
  {
    exists i, f :: 0 <= i < |ops| && 0 <= f < |ops| && Moves(ops[i]) && !Moves(ops[f]) && ClashesWith(h, ops[i], ops[f])
  }

  ghost predicate ClashesWith(h: Shape, move: Operation, fu: Operation)
    requires ShapeOk(h) && Moves(move)
  {
    || (move.dsts != [] && exists q :: 0 <= q < |fu.srcs| && OtherRegister(h, move.srcs[0], fu.srcs[q]))
    || exists j :: 0 <= j < |move.dsts| && move.dsts[j] in fu.dsts
  }

  predicate OtherRegister(h: Shape, m: Operand, o: Operand)
    requires ShapeOk(h)
  {
    m.Reg? && o.Reg? && m.n / h.regs == o.n / h.regs && m.n != o.n
  }

  lemma {:induction false} NonImmsHas(s: seq<Operand>, o: Operand)
    ensures o in NonImms(s) <==> o in s && !o.Imm?
  {
    if s != [] {
      NonImmsHas(s[1..], o);
    }
  }

  lemma SwappedHas(op: Operation, o: Operand)
    ensures o in Swapped(op) <==> o in op.srcs
  {
    if op.opcode.Store? && |op.srcs| >= 2 {
      assert op.srcs == [op.srcs[0], op.srcs[1]] + op.srcs[2..];
    }
  }

  /** Some move brings x to d. */
  ghost predicate MoveBrings(ops: seq<Operation>, d: Operand, x: Source) {
    exists i :: 0 <= i < |ops| && Moves(ops[i]) && MoveNames(ops[i], d, x)
  }

  lemma MovedIs(h: Shape, ops: seq<Operation>, d: Operand, x: Source)
    requires ShapeOk(h) && Build(h, ops).Ok?
    ensures (exists k :: 0 <= k < |MoveTransfers(Select(ops, false))|
                         && MoveTransfers(Select(ops, false))[k] == Transfer(x, d)) <==> MoveBrings(ops, d, x)
  {
    var moves, ms := Select(ops, false), MoveTransfers(Select(ops, false));
    SelectKind(ops, false);
    MovesNameSources(h, moves);
    MovesIn(moves, x, d);
    assert x in Into(ms, d) <==> exists k :: 0 <= k < |ms| && ms[k] == Transfer(x, d);
    if i :| 0 <= i < |moves| && MoveNames(moves[i], d, x) {
      var k := SelectFrom(ops, false, i);
      MovesIs(ops[k]);
      assert MoveBrings(ops, d, x);
    }
    if MoveBrings(ops, d, x) {
      var i :| 0 <= i < |ops| && Moves(ops[i]) && MoveNames(ops[i], d, x);
      MovesIs(ops[i]);
      SelectHas(ops, i, false);
      var k :| 0 <= k < |moves| && moves[k] == ops[i];
      assert MoveNames(moves[k], d, x);
    }
  }

  /** What `Clash` means for the operations as written. */
  lemma ClashIs(h: Shape, ops: seq<Operation>)
    requires ShapeOk(h) && Build(h, ops).Ok?
    ensures Clash(h, ops) <==> Clashing(h, ops)
  {
    if Clash(h, ops) {
      ClashFound(h, ops);
    }
    if Clashing(h, ops) {
      ClashingFound(h, ops);
    }
  }

  lemma ClashFound(h: Shape, ops: seq<Operation>)
    requires ShapeOk(h) && Build(h, ops).Ok? && Clash(h, ops)
    ensures Clashing(h, ops)
  {
    var ms, fus, os := MoveTransfers(Select(ops, false)), Select(ops, true), FuOperands(ops);
    var f := SelectFrom(ops, true, 0);
    SelectKind(ops, true);
    MovesIs(ops[f]);
    if i, k :| 0 <= i < |ms| && 0 <= k < |os| && ReadClash(h, ms[i].src, os[k]) {
      var n := MoverOf(h, ops, i);
      NonImmsHas(Swapped(fus[0]), os[k]);
      SwappedHas(fus[0], os[k]);
      var q :| 0 <= q < |fus[0].srcs| && fus[0].srcs[q] == os[k];
      assert OtherRegister(h, ops[n].srcs[0], ops[f].srcs[q]);
      assert ClashesWith(h, ops[n], ops[f]);
    } else {
      var i, j :| 0 <= i < |ms| && 0 <= j < |fus[0].dsts| && ms[i].dst == fus[0].dsts[j];
      var n := MoverOf(h, ops, i);
      assert ClashesWith(h, ops[n], ops[f]);
    }
  }

  /** The move behind a transfer. */
  lemma MoverOf(h: Shape, ops: seq<Operation>, k: nat) returns (n: nat)
    requires ShapeOk(h) && Build(h, ops).Ok? && k < |MoveTransfers(Select(ops, false))|
    ensures var t := MoveTransfers(Select(ops, false))[k];
            n < |ops| && Moves(ops[n]) && MoveNames(ops[n], t.dst, t.src)
  {
    var t := MoveTransfers(Select(ops, false))[k];
    MovedIs(h, ops, t.dst, t.src);
    n :| 0 <= n < |ops| && Moves(ops[n]) && MoveNames(ops[n], t.dst, t.src);
  }

  lemma ClashingFound(h: Shape, ops: seq<Operation>)
    requires ShapeOk(h) && Build(h, ops).Ok? && Clashing(h, ops)
    ensures Clash(h, ops)
  {
    var ms, os := MoveTransfers(Select(ops, false)), FuOperands(ops);
    var i, f :| 0 <= i < |ops| && 0 <= f < |ops| && Moves(ops[i]) && !Moves(ops[f]) && ClashesWith(h, ops[i], ops[f]);
    FuIs(ops, f);
    if j :| 0 <= j < |ops[i].dsts| && ops[i].dsts[j] in ops[f].dsts {
      var k := TransferOf(h, ops, i, ops[i].dsts[j]);
      var m :| 0 <= m < |ops[f].dsts| && ops[f].dsts[m] == ops[i].dsts[j];
    } else {
      var q :| 0 <= q < |ops[f].srcs| && OtherRegister(h, ops[i].srcs[0], ops[f].srcs[q]);
      var k := TransferOf(h, ops, i, ops[i].dsts[0]);
      NonImmsHas(Swapped(ops[f]), ops[f].srcs[q]);
      SwappedHas(ops[f], ops[f].srcs[q]);
      var p :| 0 <= p < |os| && os[p] == ops[f].srcs[q];
      assert ReadClash(h, ms[k].src, os[p]);
    }
  }

  lemma TransferOf(h: Shape, ops: seq<Operation>, i: nat, d: Operand) returns (k: nat)
    requires ShapeOk(h) && Build(h, ops).Ok? && i < |ops| && Moves(ops[i]) && d in ops[i].dsts
    ensures k < |MoveTransfers(Select(ops, false))| && !ops[i].srcs[0].Imm?
    ensures MoveTransfers(Select(ops, false))[k] == Transfer(SourceOf(ops[i].srcs[0]), d)
  {
    SelectKind(ops, false);
    MovesNameSources(h, Select(ops, false));
    MovesIs(ops[i]);
    SelectHas(ops, i, false);
    var n :| 0 <= n < |Select(ops, false)| && Select(ops, false)[n] == ops[i];
    assert NamesSource(Select(ops, false)[n]);
    MovedIs(h, ops, d, SourceOf(ops[i].srcs[0]));
    assert MoveNames(ops[i], d, SourceOf(ops[i].srcs[0]));
    k :| 0 <= k < |MoveTransfers(Select(ops, false))|
         && MoveTransfers(Select(ops, false))[k] == Transfer(SourceOf(ops[i].srcs[0]), d);
  }

  // ---- the word ----

  /** Every port and every register gets exactly what the operations name for it. */
  ghost predicate AsWritten(h: Shape, w: Word, ops: seq<Operation>)
    requires WordOk(h, w)
  {
    && (forall d: Dir :: PortSources(h, w, Index(d)) == Named(ops, Port(d)))
    && (forall i :: 4 <= i < h.ports ==> PortSources(h, w, i) == {})
    && (forall n: nat :: RegSources(h, w, n) == Named(ops, Reg(n)))
  }

  /** For every accepted instruction the word does what is written, exactly if no move and the
      operation that takes the FU clash; and in any case that operation gets its operands. */
  lemma WordDoesWhatIsWritten(h: Shape, ops: seq<Operation>)
    requires ShapeOk(h) && Build(h, ops).Ok?
    ensures AsWritten(h, Encode(h, Build(h, ops).value), ops) <==> !Clashing(h, ops)
  {
    ClashIs(h, ops);
    BuildMeansWhatItSays(h, ops);
    NamedEverywhere(h, ops);
    if Clashing(h, ops) {
      AllOperandsFaithful(h, ops);
    }
  }

  lemma NamedEverywhere(h: Shape, ops: seq<Operation>)
    requires ShapeOk(h) && Build(h, ops).Ok?
    ensures forall d: Dir :: Into(Transfers(ops), Port(d)) == Named(ops, Port(d))
    ensures forall n: nat :: Into(Transfers(ops), Reg(n)) == Named(ops, Reg(n))
  {
    forall d: Dir
      ensures Into(Transfers(ops), Port(d)) == Named(ops, Port(d))
    {
      TransfersAreNamed(h, ops, Port(d));
    }
    forall n: nat
      ensures Into(Transfers(ops), Reg(n)) == Named(ops, Reg(n))
    {
      TransfersAreNamed(h, ops, Reg(n));
    }
  }
}
