/** One register bank of a tile's register cluster (mem/register_cluster/RegisterBankRTL.py):
    registers with token and armed bits, and a one-entry write skid for a write whose
    target is being read by its own control step.

    A control step is a run of cycles under one control word; it ends on `proceed`.
    A token is a written value nobody has consumed yet. */
module RegisterBank {
  import opened Seqs

  datatype Towards = Nothing | Fu | RoutingXbar | Both

  /** The bank's slice of a control word.  `writeFrom` is 0 for no write, else the
      write source (routing crossbar, FU crossbar, constant) plus one. */
  datatype Opt = Opt(towards: Towards, readIdx: nat, writeFrom: nat, writeIdx: nat)

  datatype Input<T> = Input(opt: Opt, wdata: seq<T>, valid: seq<bool>, proceed: bool, clear: bool, reset: bool)

  datatype Bank<T> = Bank(regs: seq<T>, token: seq<bool>, armed: seq<bool>,
                          skidValid: bool, skidData: T, skidIdx: nat)

  /** What a read port shows in a cycle. */
  datatype Port<T> = Idle | Port(toFu: bool, toXbar: bool, data: T)

  predicate Valid<T>(b: Bank<T>) {
    |b.regs| == |b.token| == |b.armed| && b.skidIdx < |b.regs|
  }

  /** Well-formed inputs for a bank of n registers. */
  predicate InputFor<T>(n: nat, i: Input<T>) {
    && |i.wdata| == |i.valid| == 3
    && i.opt.readIdx < n && i.opt.writeIdx < n && i.opt.writeFrom <= 3
  }

  predicate InputOk<T>(b: Bank<T>, i: Input<T>) {
    Valid(b) && InputFor(|b.regs|, i)
  }

  /** The state a reset or a clear leaves behind; register data survives. */
  predicate Fresh<T>(b: Bank<T>) {
    Valid(b) && !b.skidValid && forall r :: 0 <= r < |b.regs| ==> !b.token[r] && !b.armed[r]
  }

  // ---- combinational logic ----

  predicate BeingRead(o: Opt, r: nat) {
    !o.towards.Nothing? && o.readIdx == r
  }

  predicate SkidCommit<T>(b: Bank<T>, i: Input<T>)
    requires InputOk(b, i)
  {
    b.skidValid && if BeingRead(i.opt, b.skidIdx) then i.proceed else !b.token[b.skidIdx]
  }

  /** `outport_wr_rdy`. */
  predicate WriteRdy<T>(b: Bank<T>, o: Opt)
    requires Valid(b) && o.writeIdx < |b.regs|
  {
    if BeingRead(o, o.writeIdx) then !b.skidValid else !b.token[o.writeIdx]
  }

  predicate Accept<T>(b: Bank<T>, i: Input<T>)
    requires InputOk(b, i)
  {
    !i.reset && i.opt.writeFrom > 0 && i.valid[i.opt.writeFrom - 1] && WriteRdy(b, i.opt)
  }

  /** An accepted write lands at once unless the current step still reads its target. */
  predicate DirectWrite<T>(b: Bank<T>, i: Input<T>)
    requires InputOk(b, i)
  {
    Accept(b, i) && (BeingRead(i.opt, i.opt.writeIdx) ==> i.proceed)
  }

  predicate Park<T>(b: Bank<T>, i: Input<T>)
    requires InputOk(b, i)
  {
    Accept(b, i) && !DirectWrite(b, i)
  }

  predicate Consumes<T>(b: Bank<T>, i: Input<T>, r: nat)
    requires InputOk(b, i) && r < |b.regs|
  {
    i.proceed && BeingRead(i.opt, r) && b.token[r]
  }

  predicate TokenSet<T>(b: Bank<T>, i: Input<T>, r: nat)
    requires InputOk(b, i)
  {
    (DirectWrite(b, i) && i.opt.writeIdx == r) || (SkidCommit(b, i) && b.skidIdx == r)
  }

  /** Nothing is offered during a reset. */
  function ReadPort<T>(b: Bank<T>, i: Input<T>): Port<T>
    requires InputOk(b, i)
  {
    var o := i.opt;
    var live := !i.reset && (b.token[o.readIdx] || !b.armed[o.readIdx]);
    if o.towards.Nothing? then Idle
    else Port(!o.towards.RoutingXbar? && live, !o.towards.Fu? && live, b.regs[o.readIdx])
  }

  // ---- clock edge ----

  function NextRegs<T>(b: Bank<T>, i: Input<T>): seq<T>
    requires InputOk(b, i)
  {
    if SkidCommit(b, i) then b.regs[b.skidIdx := b.skidData]
    else if DirectWrite(b, i) then b.regs[i.opt.writeIdx := i.wdata[i.opt.writeFrom - 1]]
    else b.regs
  }

  function Next<T>(b: Bank<T>, i: Input<T>): (b': Bank<T>)
    requires InputOk(b, i)
    ensures Valid(b') && |b'.regs| == |b.regs|
  {
    var n := |b.regs|;
    var regs := NextRegs(b, i);
    if i.reset || i.clear then
      Bank(regs, seq(n, _ => false), seq(n, _ => false), false, b.skidData, b.skidIdx)
    else
      Bank(regs,
           seq(n, r requires 0 <= r < n => TokenSet(b, i, r) || (b.token[r] && !Consumes(b, i, r))),
           seq(n, r requires 0 <= r < n => TokenSet(b, i, r) || b.armed[r]),
           if Park(b, i) then true else if SkidCommit(b, i) then false else b.skidValid,
           if Park(b, i) then i.wdata[i.opt.writeFrom - 1] else b.skidData,
           if Park(b, i) then i.opt.writeIdx else b.skidIdx)
  }

  // ---- the environment rule and the invariant it gives ----

  /** The control word changes only after `proceed` (or a clear or reset). */
  predicate StepStable<T>(ins: seq<Input<T>>) {
    forall t {:trigger ins[t]} :: 0 < t < |ins| && !EndsStep(ins[t - 1]) ==> ins[t].opt == ins[t - 1].opt
  }

  predicate EndsStep<T>(i: Input<T>) {
    i.proceed || i.clear || i.reset
  }

  /** A parked write belongs to the word in force, which reads and writes its register. */
  predicate SkidMatches<T>(b: Bank<T>, o: Opt)
    requires Valid(b)
  {
    b.skidValid ==> BeingRead(o, b.skidIdx) && o.writeIdx == b.skidIdx
  }

  lemma SkidStaysMatched<T>(b: Bank<T>, i: Input<T>)
    requires InputOk(b, i) && SkidMatches(b, i.opt)
    ensures EndsStep(i) ==> !Next(b, i).skidValid
    ensures SkidMatches(Next(b, i), i.opt)
  {
  }

  // ---- exactly-once delivery, register by register ----

  /** Values of register r accepted and not yet consumed, oldest first. */
  function Pending<T>(b: Bank<T>, r: nat): seq<T>
    requires Valid(b) && r < |b.regs|
  {
    (if b.token[r] then [b.regs[r]] else [])
    + (if b.skidValid && b.skidIdx == r then [b.skidData] else [])
  }

  function Accepted<T>(b: Bank<T>, i: Input<T>, r: nat): seq<T>
    requires InputOk(b, i)
  {
    if Accept(b, i) && i.opt.writeIdx == r then [i.wdata[i.opt.writeFrom - 1]] else []
  }

  function Consumed<T>(b: Bank<T>, i: Input<T>, r: nat): seq<T>
    requires InputOk(b, i) && r < |b.regs|
  {
    if Consumes(b, i, r) then [b.regs[r]] else []
  }

  lemma StepIsFifo<T>(b: Bank<T>, i: Input<T>, r: nat)
    requires InputOk(b, i) && SkidMatches(b, i.opt) && r < |b.regs| && !i.clear && !i.reset
    ensures Pending(b, r) + Accepted(b, i, r) == Consumed(b, i, r) + Pending(Next(b, i), r)
  {
  }

  /** A run with, for one register, what was accepted and consumed since the last
      clear or reset, and how many writes the bank accepted in the current step. */
  datatype Log<T> = Log(b: Bank<T>, accepted: seq<T>, consumed: seq<T>, inStep: nat)

  predicate InputsOk<T>(b: Bank<T>, ins: seq<Input<T>>) {
    Valid(b) && forall t :: 0 <= t < |ins| ==> InputFor(|b.regs|, ins[t])
  }

  ghost function Run<T>(b: Bank<T>, ins: seq<Input<T>>, r: nat): (l: Log<T>)
    requires InputsOk(b, ins) && r < |b.regs|
    ensures Valid(l.b) && |l.b.regs| == |b.regs|
  {
    if ins == [] then Log(b, [], [], 0)
    else
      var i := ins[|ins| - 1];
      var l := Run(b, ins[..|ins| - 1], r);
      var drop := i.clear || i.reset;
      Log(Next(l.b, i),
          if drop then [] else l.accepted + Accepted(l.b, i, r),
          if drop then [] else l.consumed + Consumed(l.b, i, r),
          if EndsStep(i) then 0 else l.inStep + if Accept(l.b, i) then 1 else 0)
  }

  lemma {:induction false} RunKeepsSkid<T>(b: Bank<T>, ins: seq<Input<T>>, r: nat)
    requires InputsOk(b, ins) && r < |b.regs| && Fresh(b) && StepStable(ins)
    ensures ins == [] || EndsStep(ins[|ins| - 1]) ==> !Run(b, ins, r).b.skidValid
    ensures ins != [] ==> SkidMatches(Run(b, ins, r).b, ins[|ins| - 1].opt)
  {
    if ins != [] {
      var n := |ins| - 1;
      RunKeepsSkid(b, ins[..n], r);
      SkidStaysMatched(Run(b, ins[..n], r).b, ins[n]);
    }
  }

  /** In every run with step-stable words, for every register: what was accepted since
      the last clear equals what was consumed, then the held token, then the parked
      write.  Nothing is lost, repeated, reordered or overwritten. */
  lemma {:induction false} ExactlyOnce<T>(b: Bank<T>, ins: seq<Input<T>>, r: nat)
    requires InputsOk(b, ins) && r < |b.regs| && Fresh(b) && StepStable(ins)
    ensures var l := Run(b, ins, r); l.accepted == l.consumed + Pending(l.b, r)
  {
    if ins != [] {
      var n := |ins| - 1;
      var i := ins[n];
      ExactlyOnce(b, ins[..n], r);
      RunKeepsSkid(b, ins[..n], r);
      var l := Run(b, ins[..n], r);
      if !i.clear && !i.reset {
        StepIsFifo(l.b, i, r);
        FifoExtend(l.accepted, l.consumed, Pending(l.b, r),
                   Accepted(l.b, i, r), Consumed(l.b, i, r), Pending(Next(l.b, i), r));
      }
    }
  }

  // ---- step discipline ----

  /** The single write port never gets a direct write and a skid commit together. */
  lemma NoPortClash<T>(b: Bank<T>, ins: seq<Input<T>>, i: Input<T>, r: nat)
    requires InputsOk(b, ins + [i]) && r < |b.regs| && Fresh(b) && StepStable(ins + [i])
    ensures InputsOk(b, ins) && InputOk(Run(b, ins, r).b, i)
    ensures !(SkidCommit(Run(b, ins, r).b, i) && DirectWrite(Run(b, ins, r).b, i))
  {
    PrefixOk(b, ins, i);
    RunKeepsSkid(b, ins, r);
  }

  lemma PrefixOk<T>(b: Bank<T>, ins: seq<Input<T>>, i: Input<T>)
    requires InputsOk(b, ins + [i])
    ensures InputsOk(b, ins) && InputFor(|b.regs|, i)
    ensures StepStable(ins + [i]) ==> StepStable(ins)
    ensures StepStable(ins + [i]) && ins != [] && !EndsStep(ins[|ins| - 1]) ==> i.opt == ins[|ins| - 1].opt
  {
    var all := ins + [i];
    assert all[|ins|] == i && all[..|ins|] == ins;
    assert forall t :: 0 <= t < |ins| ==> all[t] == ins[t];
  }

  /** An occupied skid drains while a write to an idle, token-free register is offered. */
  predicate Clashes<T>(b: Bank<T>, i: Input<T>)
    requires InputOk(b, i)
  {
    && b.skidValid && (if BeingRead(i.opt, b.skidIdx) then i.proceed else !b.token[b.skidIdx])
    && !i.reset && i.opt.writeFrom > 0 && i.valid[i.opt.writeFrom - 1]
    && !BeingRead(i.opt, i.opt.writeIdx) && !b.token[i.opt.writeIdx]
  }

  /** That is when the two writers meet at the write port. */
  lemma PortClashExactly<T>(b: Bank<T>, i: Input<T>)
    requires InputOk(b, i)
    ensures SkidCommit(b, i) && DirectWrite(b, i) <==> Clashes(b, i)
  {
  }

  /** Whatever the words do, one edge keeps every register's FIFO exactly when the two
      writers do not meet, or meet on different registers and the losing value
      happens to be the one already stored. */
  lemma StepIsFifoExactly<T>(b: Bank<T>, i: Input<T>)
    requires InputOk(b, i) && !i.clear && !i.reset
    ensures (forall r :: 0 <= r < |b.regs| ==> FifoAt(b, i, r))
      <==> !Clashes(b, i) || (i.opt.writeIdx != b.skidIdx && b.regs[i.opt.writeIdx] == i.wdata[i.opt.writeFrom - 1])
  {
    PortClashExactly(b, i);
    if Clashes(b, i) {
      ClashBreaksFifo(b, i);
    }
  }

  lemma ClashBreaksFifo<T>(b: Bank<T>, i: Input<T>)
    requires InputOk(b, i) && !i.clear && !i.reset && SkidCommit(b, i) && DirectWrite(b, i)
    ensures (forall r :: 0 <= r < |b.regs| ==> FifoAt(b, i, r))
      <==> i.opt.writeIdx != b.skidIdx && b.regs[i.opt.writeIdx] == i.wdata[i.opt.writeFrom - 1]
  {
    var w := i.opt.writeIdx;
    assert Accepted(b, i, w) == [i.wdata[i.opt.writeFrom - 1]];
    if w == b.skidIdx {
      assert |Pending(b, w) + Accepted(b, i, w)| == 2;
      assert !FifoAt(b, i, w);
    } else {
      assert Pending(b, w) + Accepted(b, i, w) == Accepted(b, i, w);
      assert Consumed(b, i, w) + Pending(Next(b, i), w) == [b.regs[w]];
      assert FifoAt(b, i, w) <==> b.regs[w] == i.wdata[i.opt.writeFrom - 1];
    }
  }

  ghost predicate FifoAt<T>(b: Bank<T>, i: Input<T>, r: nat)
    requires InputOk(b, i) && r < |b.regs|
  {
    Pending(b, r) + Accepted(b, i, r) == Consumed(b, i, r) + Pending(Next(b, i), r)
  }

  /** A word that changes before `proceed` can lose an accepted write: the second write
      is accepted and marked as a token, but the skid takes the write port. */
  lemma WordChangeLosesWrite<T>(b: Bank<T>, v: T, w: T)
    requires Fresh(b) && |b.regs| >= 2 && b.regs[1] != w
    ensures var park := Input(Opt(Fu, 0, 2, 0), [v, v, v], [false, true, false], false, false, false);
            var other := Input(Opt(Nothing, 0, 2, 1), [w, w, w], [false, true, false], false, false, false);
            var l := Run(b, [park, other], 1);
            l.accepted == [w] && l.consumed == [] && Pending(l.b, 1) == [b.regs[1]]
  {
    var park := Input(Opt(Fu, 0, 2, 0), [v, v, v], [false, true, false], false, false, false);
    var other := Input(Opt(Nothing, 0, 2, 1), [w, w, w], [false, true, false], false, false, false);
    RunTwo(b, park, other, 1);
    assert Accepted(b, park, 1) == [] && Consumed(b, park, 1) == [];
    var parked := Next(b, park);
    assert Accepted(parked, other, 1) == [w] && Consumed(parked, other, 1) == [];
  }

  lemma RunTwo<T>(b: Bank<T>, i: Input<T>, j: Input<T>, r: nat)
    requires InputsOk(b, [i, j]) && r < |b.regs| && !i.clear && !i.reset && !j.clear && !j.reset
    ensures InputOk(b, i) && InputOk(Next(b, i), j)
    ensures var l := Run(b, [i, j], r);
            && l.b == Next(Next(b, i), j) && l.accepted == Accepted(b, i, r) + Accepted(Next(b, i), j, r)
            && l.consumed == Consumed(b, i, r) + Consumed(Next(b, i), j, r)
  {
    var none: seq<Input<T>>, one, two := [], [i], [i, j];
    assert one[..|one| - 1] == none && two[..|two| - 1] == one && two[0] == i && two[1] == j;
    assert Run(b, none, r) == Log(b, [], [], 0);
    var l := Run(b, one, r);
    assert l.b == Next(b, i) && l.accepted == [] + Accepted(b, i, r) && l.consumed == [] + Consumed(b, i, r);
  }

  /** At the start of a step a same-register read-modify-write is always acceptable. */
  lemma ReadModifyWriteAccepted<T>(b: Bank<T>, ins: seq<Input<T>>, o: Opt, r: nat)
    requires InputsOk(b, ins) && r < |b.regs| && Fresh(b) && StepStable(ins)
    requires ins == [] || EndsStep(ins[|ins| - 1])
    requires o.writeIdx < |b.regs| && BeingRead(o, o.writeIdx)
    ensures WriteRdy(Run(b, ins, r).b, o)
  {
    RunKeepsSkid(b, ins, r);
  }

  /** Having accepted a write, the bank refuses all others until the step ends. */
  lemma {:induction false} RefusesAfterAccept<T>(b: Bank<T>, ins: seq<Input<T>>, r: nat)
    requires InputsOk(b, ins) && r < |b.regs| && Fresh(b) && StepStable(ins)
    ensures var l := Run(b, ins, r);
            l.inStep <= 1
            && (l.inStep == 1 ==> ins != [] && !EndsStep(ins[|ins| - 1]) && !WriteRdy(l.b, ins[|ins| - 1].opt))
  {
    if ins != [] {
      var n := |ins| - 1;
      RefusesAfterAccept(b, ins[..n], r);
      RunKeepsSkid(b, ins[..n], r);
    }
  }

  /** So a second write is accepted only after the step has ended. */
  lemma OneWritePerStep<T>(b: Bank<T>, ins: seq<Input<T>>, i: Input<T>, r: nat)
    requires InputsOk(b, ins + [i]) && r < |b.regs| && Fresh(b) && StepStable(ins + [i])
    ensures InputsOk(b, ins) && InputOk(Run(b, ins, r).b, i)
    ensures Accept(Run(b, ins, r).b, i) ==> Run(b, ins, r).inStep == 0
  {
    PrefixOk(b, ins, i);
    RefusesAfterAccept(b, ins, r);
  }

  /** A parked write belongs to the word of the next cycle, too. */
  lemma SkidForNext<T>(b: Bank<T>, ins: seq<Input<T>>, n: nat, r: nat)
    requires InputsOk(b, ins) && r < |b.regs| && Fresh(b) && StepStable(ins) && n < |ins|
    ensures SkidMatches(Run(b, ins[..n], r).b, ins[n].opt)
  {
    assert StepStable(ins[..n]);
    RunKeepsSkid(b, ins[..n], r);
    if n > 0 {
      assert ins[..n][n - 1] == ins[n - 1];
      assert EndsStep(ins[n - 1]) || ins[n].opt == ins[n - 1].opt;
    }
  }

  lemma PortKept<T>(b: Bank<T>, ins: seq<Input<T>>, n: nat, r: nat)
    requires InputsOk(b, ins) && r < |b.regs| && Fresh(b) && StepStable(ins) && n < |ins| && !EndsStep(ins[n])
    ensures ReadPort(Run(b, ins[..n + 1], r).b, ins[n]) == ReadPort(Run(b, ins[..n], r).b, ins[n])
  {
    var before := Run(b, ins[..n], r).b;
    assert ReadPort(Next(before, ins[n]), ins[n]) == ReadPort(before, ins[n]) by {
      SkidForNext(b, ins, n, r);
      PortSteady(before, ins[n]);
    }
    assert Run(b, ins[..n + 1], r).b == Next(before, ins[n]) by {
      assert ins[..n + 1][..n] == ins[..n];
    }
  }

  /** Both read ports show one value throughout a step, up to a reset. */
  lemma {:induction false} PortsSteady<T>(b: Bank<T>, ins: seq<Input<T>>, first: nat, last: nat, r: nat)
    requires InputsOk(b, ins) && r < |b.regs| && Fresh(b) && StepStable(ins)
    requires first <= last < |ins| && forall t :: first <= t < last ==> !EndsStep(ins[t])
    ensures ins[last].opt == ins[first].opt
    ensures ins[last].reset || ReadPort(Run(b, ins[..last], r).b, ins[last])
      == ReadPort(Run(b, ins[..first], r).b, ins[first])
    decreases last
  {
    if first < last {
      assert !EndsStep(ins[last - 1]);
      assert ins[last].opt == ins[last - 1].opt;
      PortsSteady(b, ins, first, last - 1, r);
      PortKept(b, ins, last - 1, r);
    }
  }

  lemma PortSteady<T>(b: Bank<T>, i: Input<T>)
    requires InputOk(b, i) && SkidMatches(b, i.opt) && !EndsStep(i)
    ensures ReadPort(Next(b, i), i) == ReadPort(b, i)
  {
  }

  // ---- what the ports show ----

  /** What has happened to one register since the last clear or reset, as its neighbours see
      it: the values they got accepted, how many of those have landed in the register, and how
      many have been taken by steps that read it. */
  datatype History<T> = History(accepted: seq<T>, landed: nat, taken: nat)

  /** A cycle: an accepted write lands at once, or with the end of the step if the step reads
      the register; and the end of a step that reads takes the value that has landed. */
  function Observe<T>(h: History<T>, i: Input<T>, writeRdy: bool, r: nat): History<T>
    requires |i.wdata| == |i.valid| == 3 && i.opt.writeFrom <= 3
  {
    if i.clear || i.reset then History([], 0, 0)
    else
      var reading := i.opt.towards != Nothing && i.opt.readIdx == r;
      var writing := i.opt.writeFrom > 0 && i.valid[i.opt.writeFrom - 1] && writeRdy && i.opt.writeIdx == r;
      var accepted := if writing then h.accepted + [i.wdata[i.opt.writeFrom - 1]] else h.accepted;
      History(accepted, if reading && !i.proceed then h.landed else |accepted|,
              if reading && i.proceed && h.taken < h.landed then h.taken + 1 else h.taken)
  }

  ghost function HistoryOf<T>(b: Bank<T>, ins: seq<Input<T>>, r: nat): History<T>
    requires InputsOk(b, ins) && r < |b.regs|
  {
    if ins == [] then History([], 0, 0)
    else
      var n := |ins| - 1;
      Observe(HistoryOf(b, ins[..n], r), ins[n], WriteRdy(Run(b, ins[..n], r).b, ins[n].opt), r)
  }

  /** The bank's bits say what has happened. */
  ghost predicate Remembers<T>(b: Bank<T>, h: History<T>, r: nat)
    requires Valid(b) && r < |b.regs|
  {
    && h.taken <= h.landed <= h.taken + 1 && h.landed <= |h.accepted| <= h.landed + 1
    && (b.token[r] <==> h.taken < h.landed) && (b.armed[r] <==> h.landed > 0)
    && (b.token[r] ==> b.regs[r] == h.accepted[h.taken])
    && (b.skidValid && b.skidIdx == r <==> |h.accepted| == h.landed + 1)
    && (b.skidValid && b.skidIdx == r ==> b.skidData == h.accepted[h.landed])
  }

  lemma RemembersStep<T>(b: Bank<T>, i: Input<T>, h: History<T>, r: nat)
    requires InputOk(b, i) && r < |b.regs| && SkidMatches(b, i.opt) && Remembers(b, h, r)
    ensures Remembers(Next(b, i), Observe(h, i, WriteRdy(b, i.opt), r), r)
  {
  }

  lemma {:induction false} RunRemembers<T>(b: Bank<T>, ins: seq<Input<T>>, r: nat)
    requires InputsOk(b, ins) && r < |b.regs| && Fresh(b) && StepStable(ins)
    ensures Remembers(Run(b, ins, r).b, HistoryOf(b, ins, r), r)
  {
    if ins != [] {
      var n := |ins| - 1;
      RunRemembers(b, ins[..n], r);
      SkidForNext(b, ins, n, r);
      RemembersStep(Run(b, ins[..n], r).b, ins[n], HistoryOf(b, ins[..n], r), r);
    }
  }

  /** What the bank counts as consumed is what the reading steps have taken. */
  lemma {:induction false} ConsumedIsTaken<T>(b: Bank<T>, ins: seq<Input<T>>, r: nat)
    requires InputsOk(b, ins) && r < |b.regs| && Fresh(b) && StepStable(ins)
    ensures var l, h := Run(b, ins, r), HistoryOf(b, ins, r);
            l.accepted == h.accepted && h.taken <= |h.accepted| && l.consumed == h.accepted[..h.taken]
  {
    if ins != [] {
      var n := |ins| - 1;
      ConsumedIsTaken(b, ins[..n], r);
      RunRemembers(b, ins[..n], r);
      TakenStep(Run(b, ins[..n], r).b, ins[n], HistoryOf(b, ins[..n], r), r);
    }
  }

  lemma TakenStep<T>(b: Bank<T>, i: Input<T>, h: History<T>, r: nat)
    requires InputOk(b, i) && r < |b.regs| && Remembers(b, h, r)
    ensures var h' := Observe(h, i, WriteRdy(b, i.opt), r);
            && h'.taken <= |h'.accepted|
            && (!i.clear && !i.reset ==>
                  && h'.accepted == h.accepted + Accepted(b, i, r)
                  && h'.accepted[..h'.taken] == h.accepted[..h.taken] + Consumed(b, i, r))
  {
  }

  /** In every run with step-stable words, outside resets: a register is offered to the FU or
      the crossbar, as the word says, exactly while nothing has landed in it yet or a value
      that has landed has not been taken, and what is offered is the oldest such value; a
      write is accepted exactly while the step has got none accepted yet, if it reads the
      register, or while nothing landed is waiting, if not. */
  lemma PortsFollowHistory<T>(b: Bank<T>, ins: seq<Input<T>>, i: Input<T>, r: nat)
    requires InputsOk(b, ins + [i]) && r < |b.regs| && Fresh(b) && StepStable(ins + [i])
    ensures InputsOk(b, ins) && InputOk(Run(b, ins, r).b, i)
    ensures var o, port, h := i.opt, ReadPort(Run(b, ins, r).b, i), HistoryOf(b, ins, r);
            && (o.towards == Nothing ==> port == Idle)
            && (o.towards != Nothing && o.readIdx == r ==>
                  && port.Port?
                  && (port.toFu <==> !i.reset && o.towards in {Fu, Both} && (h.landed == 0 || h.taken < h.landed))
                  && (port.toXbar <==>
                        !i.reset && o.towards in {RoutingXbar, Both} && (h.landed == 0 || h.taken < h.landed))
                  && (h.taken < h.landed ==> h.taken < |h.accepted| && port.data == h.accepted[h.taken]))
    ensures var o, h := i.opt, HistoryOf(b, ins, r);
            o.writeIdx == r ==>
              (WriteRdy(Run(b, ins, r).b, o) <==>
                if o.towards != Nothing && o.readIdx == r then |h.accepted| == h.landed else h.taken == h.landed)
  {
    PrefixOk(b, ins, i);
    RunRemembers(b, ins, r);
    assert SkidMatches(Run(b, ins, r).b, i.opt) by {
      SkidForNext(b, ins + [i], |ins|, r);
      assert (ins + [i])[..|ins|] == ins;
    }
  }

  // ---- the register-level bank ----

  class RegisterBankRTL<T(0)> {
    const regs: array<T>
    var token: seq<bool>
    var armed: seq<bool>
    var skidValid: bool
    var skidData: T
    var skidIdx: nat

    ghost function View(): Bank<T>
      reads this, regs
    {
      Bank(regs[..], token, armed, skidValid, skidData, skidIdx)
    }

    constructor (numRegisters: nat)
      requires numRegisters > 0
      ensures Fresh(View()) && regs.Length == numRegisters && fresh(regs)
    {
      regs := new T[numRegisters];
      token := seq(numRegisters, _ => false);
      armed := seq(numRegisters, _ => false);
      skidValid, skidIdx := false, 0;
      skidData := *;
    }

    /** One clock edge; `port` and `wrRdy` are the combinational outputs before it. */
    method Clock(i: Input<T>) returns (port: Port<T>, wrRdy: bool)
      requires InputOk(View(), i)
      modifies this, regs
      ensures port == ReadPort(old(View()), i) && wrRdy == WriteRdy(old(View()), i.opt)
      ensures View() == Next(old(View()), i)
    {
      ghost var after := Next(View(), i);
      var skidCommit, accept, direct;
      port, wrRdy, skidCommit, accept, direct := Wires(i);
      var tokenNext, armedNext := NextBits(i, direct, skidCommit);
      if skidCommit {
        regs[skidIdx] := skidData;
      } else if direct {
        regs[i.opt.writeIdx] := i.wdata[i.opt.writeFrom - 1];
      }
      assert regs[..] == after.regs;
      token, armed := tokenNext, armedNext;
      if i.reset || i.clear {
        skidValid := false;
      } else if accept && !direct {
        skidValid, skidData, skidIdx := true, i.wdata[i.opt.writeFrom - 1], i.opt.writeIdx;
      } else if skidCommit {
        skidValid := false;
      }
    }

    method Wires(i: Input<T>) returns (port: Port<T>, wrRdy: bool, skidCommit: bool, accept: bool, direct: bool)
      requires InputOk(View(), i)
      ensures port == ReadPort(View(), i) && wrRdy == WriteRdy(View(), i.opt)
      ensures skidCommit == SkidCommit(View(), i) && accept == Accept(View(), i) && direct == DirectWrite(View(), i)
    {
      var reading, w := !i.opt.towards.Nothing?, i.opt.writeIdx;
      var targetBeingRead := reading && i.opt.readIdx == w;
      var skidBeingRead := reading && i.opt.readIdx == skidIdx;
      port := Idle;
      if reading {
        var live := !i.reset && (token[i.opt.readIdx] || !armed[i.opt.readIdx]);
        port := Port((i.opt.towards.Fu? || i.opt.towards.Both?) && live,
                     (i.opt.towards.RoutingXbar? || i.opt.towards.Both?) && live,
                     regs[i.opt.readIdx]);
      }
      skidCommit := skidValid && ((skidBeingRead && i.proceed) || (!skidBeingRead && !token[skidIdx]));
      wrRdy := (!token[w] && !targetBeingRead) || (targetBeingRead && !skidValid);
      accept := !i.reset && i.opt.writeFrom > 0 && i.valid[i.opt.writeFrom - 1] && wrRdy;
      direct := accept && ((!token[w] && !targetBeingRead) || (targetBeingRead && i.proceed));
    }

    /** The token and armed bits after the edge, register by register. */
    method NextBits(i: Input<T>, direct: bool, skidCommit: bool) returns (tokenNext: seq<bool>, armedNext: seq<bool>)
      requires InputOk(View(), i)
      requires direct == DirectWrite(View(), i) && skidCommit == SkidCommit(View(), i)
      ensures tokenNext == Next(View(), i).token && armedNext == Next(View(), i).armed
    {
      tokenNext, armedNext := [], [];
      for r := 0 to regs.Length
        invariant |tokenNext| == |armedNext| == r
        invariant forall q :: 0 <= q < r ==> tokenNext[q] == Next(View(), i).token[q]
        invariant forall q :: 0 <= q < r ==> armedNext[q] == Next(View(), i).armed[q]
      {
        var sets := (direct && i.opt.writeIdx == r) || (skidCommit && skidIdx == r);
        var clears := i.proceed && !i.opt.towards.Nothing? && i.opt.readIdx == r && token[r];
        var dropped := i.reset || i.clear;
        tokenNext := tokenNext + [!dropped && ((token[r] && !clears) || sets)];
        armedNext := armedNext + [!dropped && (armed[r] || sets)];
      }
    }
  }
}
