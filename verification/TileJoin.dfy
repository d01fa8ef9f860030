/** The three-way join of a tile (tile/TileRTL.py): one control word is given to the FU
    (`element`), the FU crossbar and the routing crossbar; each may finish in a different
    cycle, and the word is retired when all three have.

    `OncePerStep` says each of them executes exactly the control memory's schedule. */
module TileJoin {
  import Arith
  import opened CtrlMem

  const ELEMENT: nat := 0
  const FU_CROSSBAR: nat := 1
  const ROUTING_CROSSBAR: nat := 2
  const PARTS: nat := 3

  /** The control memory and who has finished the current word. */
  datatype Tile<R> = Tile(mem: Mem<R>, done: seq<bool>)

  /** Wires of one cycle: each part's `recv_opt.rdy`, and the packet side of the memory. */
  datatype Wires = Wires(rdy: seq<bool>, elemVal: bool, elemComplete: bool, pktRdy: bool)

  predicate TileOk<R>(w: Widths, t: Tile<R>) {
    MemOk(w, t.mem) && |t.done| == PARTS
  }

  predicate WiresOk(i: Wires) {
    |i.rdy| == PARTS
  }

  /** `send_ctrl.rdy`. */
  predicate AllDone(done: seq<bool>, rdy: seq<bool>)
    requires |done| == |rdy| == PARTS
  {
    forall p :: 0 <= p < PARTS ==> rdy[p] || done[p]
  }

  function MemInput<R>(t: Tile<R>, i: Wires): Input<R>
    requires |t.done| == PARTS && WiresOk(i)
  {
    Input(NoCmd, i.elemVal, i.elemComplete, i.pktRdy, AllDone(t.done, i.rdy))
  }

  /** Part p's `recv_opt.val`: the word is offered to it until it has finished. */
  predicate Offers(ctrlVal: bool, done: seq<bool>, p: nat)
    requires |done| == PARTS && p < PARTS
  {
    ctrlVal && !done[p]
  }

  /** What the join drives: the word's validity for each part, the control memory's ready, the
      pulse that ends a step, and whether the FU is done with the current word. */
  datatype Joined = Joined(offered: seq<bool>, ctrlRdy: bool, proceed: bool, computeDone: bool)

  function OutputOf(done: seq<bool>, rdy: seq<bool>, ctrlVal: bool): Joined
    requires |done| == |rdy| == PARTS
  {
    Joined([Offers(ctrlVal, done, 0), Offers(ctrlVal, done, 1), Offers(ctrlVal, done, 2)], AllDone(done, rdy),
           AllDone(done, rdy) && ctrlVal, done[ELEMENT])
  }

  /** Part p is given the word and finishes it this cycle. */
  predicate Executes<R>(w: Widths, t: Tile<R>, i: Wires, p: nat)
    requires TileOk(w, t) && WiresOk(i) && p < PARTS
  {
    Offers(SendVal(w, t.mem, MemInput(t, i)), t.done, p) && i.rdy[p]
  }

  /** `already_done`; REARM clears all flags. */
  function NextDone(done: seq<bool>, rdy: seq<bool>, rearm: bool): (done': seq<bool>)
    requires |done| == |rdy| == PARTS
    ensures |done'| == PARTS
  {
    seq(PARTS, p requires 0 <= p < PARTS => !rearm && !AllDone(done, rdy) && (done[p] || rdy[p]))
  }

  function Next<R>(w: Widths, t: Tile<R>, i: Wires): (t': Tile<R>)
    requires TileOk(w, t) && WiresOk(i)
    ensures TileOk(w, t')
  {
    Tile(CtrlMem.Next(w, t.mem, MemInput(t, i)), NextDone(t.done, i.rdy, false))
  }

  // ---- runs ----

  predicate AllOk(es: seq<Wires>) {
    forall k :: 0 <= k < |es| ==> WiresOk(es[k])
  }

  ghost function Run<R>(w: Widths, t: Tile<R>, es: seq<Wires>): (t': Tile<R>)
    requires TileOk(w, t) && AllOk(es)
    ensures TileOk(w, t')
  {
    if es == [] then t else Next(w, Run(w, t, es[..|es| - 1]), es[|es| - 1])
  }

  /** The control memory's side of the run. */
  ghost function MemInputs<R>(w: Widths, t: Tile<R>, es: seq<Wires>): (ms: seq<Input<R>>)
    requires TileOk(w, t) && AllOk(es)
    ensures |ms| == |es| && Quiet(ms)
  {
    if es == [] then []
    else
      var n := |es| - 1;
      MemInputs(w, t, es[..n]) + [MemInput(Run(w, t, es[..n]), es[n])]
  }

  /** The words part p executed. */
  ghost function Executed<R>(w: Widths, t: Tile<R>, es: seq<Wires>, p: nat): seq<Word<R>>
    requires TileOk(w, t) && AllOk(es) && p < PARTS
  {
    if es == [] then []
    else
      var n := |es| - 1;
      var before := Run(w, t, es[..n]);
      Executed(w, t, es[..n], p) + if Executes(w, before, es[n], p) then [SendMsg(w, before.mem)] else []
  }

  /** The memory has a word on offer in every cycle of the run: it is neither complete nor
      out of budget. */
  ghost predicate Offering<R>(w: Widths, t: Tile<R>, es: seq<Wires>)
    requires TileOk(w, t) && AllOk(es)
  {
    forall k :: 0 <= k < |es| ==> OfferedAt(w, t, es, k)
  }

  ghost predicate OfferedAt<R>(w: Widths, t: Tile<R>, es: seq<Wires>, k: nat)
    requires TileOk(w, t) && AllOk(es) && k < |es|
  {
    SendVal(w, Run(w, t, es[..k]).mem, MemInput(Run(w, t, es[..k]), es[k]))
  }

  lemma {:induction false} MemRunIs<R>(w: Widths, t: Tile<R>, es: seq<Wires>)
    requires TileOk(w, t) && AllOk(es)
    ensures CtrlMem.Run(w, t.mem, MemInputs(w, t, es)) == Run(w, t, es).mem
  {
    if es != [] {
      var n := |es| - 1;
      MemRunIs(w, t, es[..n]);
      assert MemInputs(w, t, es)[..n] == MemInputs(w, t, es[..n]);
    }
  }

  lemma OfferingPrefix<R>(w: Widths, t: Tile<R>, es: seq<Wires>, n: nat)
    requires TileOk(w, t) && AllOk(es) && Offering(w, t, es) && n <= |es|
    ensures Offering(w, t, es[..n])
  {
    forall k | 0 <= k < n ensures OfferedAt(w, t, es[..n], k) {
      assert es[..n][..k] == es[..k];
      assert OfferedAt(w, t, es, k);
    }
  }

  function Carry<R>(b: bool, x: Word<R>): seq<Word<R>> {
    if b then [x] else []
  }

  /** One cycle: a part's flag rises when it executes, falls when the word retires, and
      the word stays the same until then. */
  lemma StepOnce<R>(w: Widths, t: Tile<R>, i: Wires, p: nat)
    requires TileOk(w, t) && WiresOk(i) && p < PARTS && SendVal(w, t.mem, MemInput(t, i))
    ensures var fires, done' := Fires(w, t.mem, MemInput(t, i)), Next(w, t, i).done[p];
            && (fires ==> !done' && (t.done[p] || Executes(w, t, i, p)))
            && (!fires ==> SendMsg(w, Next(w, t, i).mem) == SendMsg(w, t.mem))
            && (!fires ==> (done' <==> t.done[p] || Executes(w, t, i, p)))
            && !(t.done[p] && Executes(w, t, i, p))
  {
    if !AllDone(t.done, i.rdy) {
      OfferIsStable(w, t.mem, MemInput(t, i), MemInput(t, i));
    }
  }

  lemma CycleAppends<R>(carry: seq<Word<R>>, executed: seq<Word<R>>, issued: seq<Word<R>>,
                        done: bool, executes: bool, fires: bool, done': bool, x: Word<R>, x': Word<R>)
    requires carry + executed == issued + Carry(done, x) && !(done && executes)
    requires if fires then !done' && (done || executes) else x' == x && (done' <==> done || executes)
    ensures carry + (executed + Carry(executes, x)) == (issued + Carry(fires, x)) + Carry(done', x')
  {
    assert carry + (executed + Carry(executes, x)) == (carry + executed) + Carry(executes, x);
    assert (issued + Carry(done, x)) + Carry(executes, x) == issued + (Carry(done, x) + Carry(executes, x));
  }

  lemma CycleOnce<R>(w: Widths, t: Tile<R>, i: Wires, p: nat, carry: seq<Word<R>>, executed: seq<Word<R>>,
          issued: seq<Word<R>>)
    requires TileOk(w, t) && WiresOk(i) && p < PARTS && SendVal(w, t.mem, MemInput(t, i))
    requires carry + executed == issued + Carry(t.done[p], SendMsg(w, t.mem))
    ensures carry + (executed + Carry(Executes(w, t, i, p), SendMsg(w, t.mem)))
         == (issued + Carry(Fires(w, t.mem, MemInput(t, i)), SendMsg(w, t.mem)))
            + Carry(Next(w, t, i).done[p], SendMsg(w, Next(w, t, i).mem))
  {
    StepOnce(w, t, i, p);
    CycleAppends(carry, executed, issued, t.done[p], Executes(w, t, i, p), Fires(w, t.mem, MemInput(t, i)),
                 Next(w, t, i).done[p], SendMsg(w, t.mem), SendMsg(w, Next(w, t, i).mem));
  }

  lemma IssuedStep<R>(w: Widths, t: Tile<R>, es: seq<Wires>)
    requires TileOk(w, t) && AllOk(es) && es != []
    ensures var n := |es| - 1;
            var now := Run(w, t, es[..n]);
            Issued(w, t.mem, MemInputs(w, t, es)) == Issued(w, t.mem, MemInputs(w, t, es[..n]))
              + Carry(Fires(w, now.mem, MemInput(now, es[n])), SendMsg(w, now.mem))
  {
    var n := |es| - 1;
    MemRunIs(w, t, es[..n]);
    assert MemInputs(w, t, es)[..n] == MemInputs(w, t, es[..n]);
  }

  /** Every retired word was executed exactly once by every part, and nothing else was:
      what part p executed is what was retired, less a word it counted as done before the
      run, plus the current word if it has already done that. */
  lemma {:induction false} OncePerStep<R>(w: Widths, t: Tile<R>, es: seq<Wires>, p: nat)
    requires TileOk(w, t) && Launched(w, t.mem) && AllOk(es) && Offering(w, t, es) && p < PARTS
    ensures Carry(t.done[p], SendMsg(w, t.mem)) + Executed(w, t, es, p)
         == Issued(w, t.mem, MemInputs(w, t, es)) + Carry(Run(w, t, es).done[p], SendMsg(w, Run(w, t, es).mem))
  {
    if es != [] {
      var n := |es| - 1;
      OfferingPrefix(w, t, es, n);
      OncePerStep(w, t, es[..n], p);
      IssuedStep(w, t, es);
      assert OfferedAt(w, t, es, n);
      CycleOnce(w, Run(w, t, es[..n]), es[n], p, Carry(t.done[p], SendMsg(w, t.mem)),
                Executed(w, t, es[..n], p), Issued(w, t.mem, MemInputs(w, t, es[..n])));
    }
  }

  /** What part p executed is what was issued, and possibly the word on offer. */
  lemma ExecutesIssued<R>(w: Widths, t: Tile<R>, es: seq<Wires>, p: nat, k: nat, at: nat)
    requires TileOk(w, t) && Launched(w, t.mem) && AllOk(es) && Offering(w, t, es) && p < PARTS
    requires k < |Executed(w, t, es, p)| && at == (if t.done[p] then k + 1 else k)
    ensures var issued := Issued(w, t.mem, MemInputs(w, t, es));
            && at <= |issued|
            && Executed(w, t, es, p)[k] == if at < |issued| then issued[at] else SendMsg(w, Run(w, t, es).mem)
  {
    OncePerStep(w, t, es, p);
    var now := Run(w, t, es);
    ElementAt(t.done[p], SendMsg(w, t.mem), Executed(w, t, es, p), Issued(w, t.mem, MemInputs(w, t, es)),
              now.done[p], SendMsg(w, now.mem), k, at);
  }

  /** The k-th word part p executes is the k-th word of the modulo schedule, whatever the
      three parts' timing; if p's flag was already set at the launch, it misses the first
      word and executes the rest. */
  lemma ExecutesSchedule<R>(w: Widths, t: Tile<R>, es: seq<Wires>, p: nat, k: nat, at: nat)
    requires TileOk(w, t) && Launched(w, t.mem) && AllOk(es) && Offering(w, t, es) && p < PARTS
    requires k < |Executed(w, t, es, p)| && at == (if t.done[p] then k + 1 else k)
    ensures Executed(w, t, es, p)[k] == Scheduled(w, t.mem, at)
  {
    var ms := MemInputs(w, t, es);
    ExecutesIssued(w, t, es, p, k, at);
    if at < |Issued(w, t.mem, ms)| {
      IssuedScheduled(w, t.mem, ms, at);
    } else {
      MemRunIs(w, t, es);
      OfferScheduled(w, t.mem, ms, Run(w, t, es).mem, at);
    }
  }

  lemma ElementAt<R>(early: bool, x: Word<R>, executed: seq<Word<R>>, issued: seq<Word<R>>, done: bool, y: Word<R>,
          k: nat, at: nat)
    requires Carry(early, x) + executed == issued + Carry(done, y)
    requires k < |executed| && at == (if early then k + 1 else k)
    ensures at <= |issued| && executed[k] == if at < |issued| then issued[at] else y
  {
    assert (Carry(early, x) + executed)[at] == executed[k];
  }

  lemma IssuedScheduled<R>(w: Widths, s: Mem<R>, ms: seq<Input<R>>, k: nat)
    requires Launched(w, s) && Quiet(ms) && k < |Issued(w, s, ms)|
    ensures Issued(w, s, ms)[k] == Scheduled(w, s, k)
  {
    StaysOnSchedule(w, s, ms);
  }

  lemma OfferScheduled<R>(w: Widths, s: Mem<R>, ms: seq<Input<R>>, s': Mem<R>, n: nat)
    requires Launched(w, s) && Quiet(ms) && s' == CtrlMem.Run(w, s, ms) && n == |Issued(w, s, ms)|
    ensures SendMsg(w, s') == Scheduled(w, s, n)
  {
    StateFollows(w, s, ms);
    OfferAt(w, s, s', n);
  }

  lemma OfferAt<R>(w: Widths, s: Mem<R>, s': Mem<R>, n: nat)
    requires Launched(w, s) && At(w, s, s', n)
    ensures SendMsg(w, s') == Scheduled(w, s, n)
  {
    VisitsSoFar(s, n);
  }

  // ---- flags left over from before the launch ----

  /** Nothing is offered, but the FU reports ready: it does so whenever the addressed
      prologue count is not zero (fu/flexible/FlexibleFuRTL.py:138). */
  const EARLY_READY := Wires([true, false, false], false, false, false)
  const NOBODY := Wires([false, false, false], false, false, false)
  const CROSSBARS := Wires([false, true, true], false, false, false)

  lemma EarlyReadySetsFlag<R>(w: Widths, t: Tile<R>)
    requires TileOk(w, t) && !t.mem.started && t.done == [false, false, false]
    ensures Next(w, t, EARLY_READY) == t.(done := [true, false, false])
  {
    assert !EARLY_READY.rdy[FU_CROSSBAR];
  }

  /** Two commands: the lower bound moves to v, then the launch. */
  function MoveAndLaunch<R>(w: Widths, t: Tile<R>, v: nat): Tile<R>
    requires TileOk(w, t)
  {
    var i := MemInput(t, NOBODY);
    Tile(CtrlMem.Next(w, CtrlMem.Next(w, t.mem, i.(cmd := LowerBound(v))), i.(cmd := Launch)),
         NextDone(NextDone(t.done, NOBODY.rdy, false), NOBODY.rdy, false))
  }

  lemma MoveAndLaunchIs<R>(w: Widths, t: Tile<R>, v: nat)
    requires TileOk(w, t) && !t.mem.started && v < w.addr && t.done == [true, false, false]
    ensures MoveAndLaunch(w, t, v)
      == Tile(t.mem.(raddr := v, lower := v, started := true, sentComplete := false), t.done)
  {
    Arith.DivModUnique(v, w.addr, 0, v);
    assert !(NOBODY.rdy[FU_CROSSBAR] || t.done[FU_CROSSBAR]);
    assert !AllDone(t.done, NOBODY.rdy);
    var done' := NextDone(t.done, NOBODY.rdy, false);
    assert forall p :: 0 <= p < PARTS ==> done'[p] == t.done[p];
    assert NextDone(t.done, NOBODY.rdy, false) == t.done;
  }

  /** How a working instruction is lost: a prologue is configured at the current address,
      the lower bound then moves the program counter to an address v without one, and the
      instruction at v is retired without the FU having executed it. */
  lemma MovedLowerBoundLosesFirstInstruction<R>(w: Widths, t: Tile<R>, v: nat)
    requires TileOk(w, t) && !t.mem.started && v < w.addr && t.done == [false, false, false]
    requires t.mem.prologueFu[t.mem.raddr] != 0 && t.mem.prologueFu[v] == 0 && t.mem.words[v].op.Compute?
    requires !Spent(t.mem)
    ensures var t2 := MoveAndLaunch(w, Next(w, t, EARLY_READY), v);
            && Fires(w, t2.mem, MemInput(t2, CROSSBARS)) && SendMsg(w, t2.mem) == t.mem.words[v]
            && !Executes(w, t2, CROSSBARS, ELEMENT)
  {
    assert MoveAndLaunch(w, Next(w, t, EARLY_READY), v)
        == Tile(t.mem.(raddr := v, lower := v, started := true, sentComplete := false), [true, false, false]) by {
      EarlyReadySetsFlag(w, t);
      MoveAndLaunchIs(w, Next(w, t, EARLY_READY), v);
    }
  }

  // ---- configuring a tile, then launching it ----

  predicate CmdsOk<R>(w: Widths, cs: seq<Cmd<R>>) {
    forall k :: 0 <= k < |cs| ==> CmdOk(w, cs[k]) && !cs[k].Launch? && !cs[k].Resume?
  }

  /** The FU idles at the current address, and says it is ready although nothing is offered. */
  predicate Idling<R>(w: Widths, t: Tile<R>)
    requires TileOk(w, t)
  {
    t.mem.prologueFu[t.mem.raddr] != 0
  }

  /** One cycle before the launch: a command, and the FU as ready as its prologue makes it. */
  function Prepare<R>(w: Widths, t: Tile<R>, c: Cmd<R>): (t': Tile<R>)
    requires TileOk(w, t) && CmdOk(w, c)
    ensures TileOk(w, t')
  {
    var rdy := [Idling(w, t), false, false];
    Tile(CtrlMem.Next(w, t.mem, Input(c, false, false, false, AllDone(t.done, rdy))), NextDone(t.done, rdy, c.Rearm?))
  }

  ghost function Prepared<R>(w: Widths, t: Tile<R>, cs: seq<Cmd<R>>): (t': Tile<R>)
    requires TileOk(w, t) && CmdsOk(w, cs)
    ensures TileOk(w, t')
  {
    if cs == [] then t else Prepare(w, Prepared(w, t, cs[..|cs| - 1]), cs[|cs| - 1])
  }

  /** At some moment since the last REARM the current address had a prologue. */
  ghost predicate WasIdle<R>(w: Widths, t: Tile<R>, cs: seq<Cmd<R>>)
    requires TileOk(w, t) && CmdsOk(w, cs)
  {
    cs != [] && !cs[|cs| - 1].Rearm? && (WasIdle(w, t, cs[..|cs| - 1]) || Idling(w, Prepared(w, t, cs[..|cs| - 1])))
  }

  lemma PrepareFlags<R>(w: Widths, t: Tile<R>, c: Cmd<R>, flag: bool)
    requires TileOk(w, t) && CmdOk(w, c) && t.done == [flag, false, false]
    ensures Prepare(w, t, c).done == [!c.Rearm? && (flag || Idling(w, t)), false, false]
    ensures !t.mem.started && !c.Launch? && !c.Resume? ==> !Prepare(w, t, c).mem.started
  {
    var rdy := [Idling(w, t), false, false];
    assert !(rdy[FU_CROSSBAR] || t.done[FU_CROSSBAR]);
  }

  lemma {:induction false} PreparedFlags<R>(w: Widths, t: Tile<R>, cs: seq<Cmd<R>>)
    requires TileOk(w, t) && CmdsOk(w, cs) && !t.mem.started && t.done == [false, false, false]
    ensures Prepared(w, t, cs).done == [WasIdle(w, t, cs), false, false] && !Prepared(w, t, cs).mem.started
  {
    if cs != [] {
      var n := |cs| - 1;
      PreparedFlags(w, t, cs[..n]);
      PrepareFlags(w, Prepared(w, t, cs[..n]), cs[n], WasIdle(w, t, cs[..n]));
    }
  }

  /** The tile after the configuration and the launch. */
  ghost function LaunchedTile<R>(w: Widths, t: Tile<R>, cs: seq<Cmd<R>>): (t': Tile<R>)
    requires TileOk(w, t) && CmdsOk(w, cs)
    ensures TileOk(w, t')
  {
    Prepare(w, Prepared(w, t, cs), Launch)
  }

  /** Whether the FU misses the first word of a launch is decided by the configuration: it
      does exactly when, at some moment since the last REARM, the launch included, the
      current address had a prologue.  The crossbars never miss it. */
  lemma FirstWordLostExactly<R>(w: Widths, t: Tile<R>, cs: seq<Cmd<R>>, es: seq<Wires>, p: nat, k: nat)
    requires TileOk(w, t) && CmdsOk(w, cs) && !t.mem.started && t.done == [false, false, false]
    requires Launched(w, LaunchedTile(w, t, cs).mem) && AllOk(es) && Offering(w, LaunchedTile(w, t, cs), es)
    requires p < PARTS && k < |Executed(w, LaunchedTile(w, t, cs), es, p)|
    ensures var lost := p == ELEMENT && (WasIdle(w, t, cs) || Idling(w, Prepared(w, t, cs)));
            Executed(w, LaunchedTile(w, t, cs), es, p)[k]
            == Scheduled(w, LaunchedTile(w, t, cs).mem, if lost then k + 1 else k)
  {
    LaunchedFlags(w, t, cs);
    LostExactly(w, LaunchedTile(w, t, cs), es, p, k, WasIdle(w, t, cs) || Idling(w, Prepared(w, t, cs)));
  }

  lemma LostExactly<R>(w: Widths, t: Tile<R>, es: seq<Wires>, p: nat, k: nat, lost: bool)
    requires TileOk(w, t) && Launched(w, t.mem) && AllOk(es) && Offering(w, t, es) && t.done == [lost, false, false]
    requires p < PARTS && k < |Executed(w, t, es, p)|
    ensures Executed(w, t, es, p)[k] == Scheduled(w, t.mem, if p == ELEMENT && lost then k + 1 else k)
  {
    ExecutesSchedule(w, t, es, p, k, if t.done[p] then k + 1 else k);
  }

  lemma LaunchedFlags<R>(w: Widths, t: Tile<R>, cs: seq<Cmd<R>>)
    requires TileOk(w, t) && CmdsOk(w, cs) && !t.mem.started && t.done == [false, false, false]
    ensures LaunchedTile(w, t, cs).done == [WasIdle(w, t, cs) || Idling(w, Prepared(w, t, cs)), false, false]
  {
    PreparedFlags(w, t, cs);
    PrepareFlags(w, Prepared(w, t, cs), Launch, WasIdle(w, t, cs));
  }

  // ---- the same, told from the commands ----

  /** The commands as the control memory gets them. */
  function InputsOf<R>(cs: seq<Cmd<R>>): seq<Input<R>> {
    seq(|cs|, k requires 0 <= k < |cs| => Input(cs[k], false, false, false, false))
  }

  /** The commands so far leave the FU passes to idle at the lower bound. */
  ghost predicate IdlesAtStart<R>(w: Widths, cs: seq<Cmd<R>>)
    requires WidthsOk(w)
  {
    IdleOf(w, InputsOf(cs), LowerOf(w, InputsOf(cs))) > 0
  }

  /** They did so at some moment since the last REARM. */
  ghost predicate IdledAtStart<R>(w: Widths, cs: seq<Cmd<R>>)
    requires WidthsOk(w)
  {
    IdlesAtStart(w, cs) || (cs != [] && !cs[|cs| - 1].Rearm? && IdledAtStart(w, cs[..|cs| - 1]))
  }

  lemma InputsPrefix<R>(cs: seq<Cmd<R>>)
    requires cs != []
    ensures InputsOf(cs)[..|cs| - 1] == InputsOf(cs[..|cs| - 1])
  {
  }

  lemma {:induction false} NeverLaunched<R>(w: Widths, cs: seq<Cmd<R>>)
    requires CmdsOk(w, cs)
    ensures Armed(InputsOf(cs)) && Accepted(w, InputsOf(cs))
  {
    if cs != [] {
      NeverLaunched(w, cs[..|cs| - 1]);
      InputsPrefix(cs);
    }
  }

  /** Before the launch the parts' readiness does not reach the memory. */
  lemma PrepareFollows<R>(w: Widths, s0: Mem<R>, t: Tile<R>, cs: seq<Cmd<R>>)
    requires MemOk(w, s0) && TileOk(w, t) && cs != [] && CmdsOk(w, cs) && !t.mem.started
    requires Follows(w, s0, t.mem, InputsOf(cs[..|cs| - 1]))
    ensures Follows(w, s0, Prepare(w, t, cs[|cs| - 1]).mem, InputsOf(cs))
  {
    var n := |cs| - 1;
    NeverLaunched(w, cs);
    InputsPrefix(cs);
    assert InputsOf(cs)[n].cmd == cs[n];
    FollowStep(w, s0, t.mem, InputsOf(cs));
    assert Prepare(w, t, cs[n]).mem == CtrlMem.Next(w, t.mem, InputsOf(cs)[n]);
  }

  lemma {:induction false} PreparedFollows<R>(w: Widths, t: Tile<R>, cs: seq<Cmd<R>>)
    requires TileOk(w, t) && CmdsOk(w, cs) && t == ResetTile(w, t.mem)
    ensures Follows(w, t.mem, Prepared(w, t, cs).mem, InputsOf(cs))
    ensures Prepared(w, t, cs).done[ELEMENT] == WasIdle(w, t, cs)
  {
    PreparedFlags(w, t, cs);
    if cs != [] {
      var n := |cs| - 1;
      PreparedFollows(w, t, cs[..n]);
      PreparedFlags(w, t, cs[..n]);
      PrepareFollows(w, t.mem, Prepared(w, t, cs[..n]), cs);
    }
  }

  /** A tile after reset. */
  function ResetTile<R>(w: Widths, m: Mem<R>): Tile<R>
    requires MemOk(w, m)
  {
    Tile(Fresh(w, m.words, m.perIter, m.total), [false, false, false])
  }

  lemma IdlingIs<R>(w: Widths, t: Tile<R>, cs: seq<Cmd<R>>)
    requires TileOk(w, t) && CmdsOk(w, cs) && t == ResetTile(w, t.mem)
    ensures Idling(w, Prepared(w, t, cs)) <==> IdlesAtStart(w, cs)
  {
    PreparedFollows(w, t, cs);
    NeverLaunched(w, cs);
  }

  lemma {:induction false} WasIdleIs<R>(w: Widths, t: Tile<R>, cs: seq<Cmd<R>>)
    requires TileOk(w, t) && CmdsOk(w, cs) && t == ResetTile(w, t.mem)
    ensures WasIdle(w, t, cs) || Idling(w, Prepared(w, t, cs)) <==> IdledAtStart(w, cs)
  {
    IdlingIs(w, t, cs);
    if cs != [] {
      WasIdleIs(w, t, cs[..|cs| - 1]);
      IdlingIs(w, t, cs[..|cs| - 1]);
    }
  }

  /** From reset through any configuration to a launch, under any timing: the word the FU
      executes k-th, and each crossbar executes k-th, is the one the commands put there; only
      the FU is one word ahead, exactly if at some moment since the last REARM it was to idle
      at what was then the lower bound. */
  lemma ExecutesCommands<R>(w: Widths, t: Tile<R>, cs: seq<Cmd<R>>, es: seq<Wires>, p: nat, k: nat)
    requires TileOk(w, t) && CmdsOk(w, cs) && t == ResetTile(w, t.mem) && Runnable(w, t.mem, InputsOf(cs))
    requires AllOk(es) && Offering(w, LaunchedTile(w, t, cs), es)
    requires p < PARTS && k < |Executed(w, LaunchedTile(w, t, cs), es, p)|
    ensures Executed(w, LaunchedTile(w, t, cs), es, p)[k]
         == Expected(w, t.mem, InputsOf(cs), if p == ELEMENT && IdledAtStart(w, cs) then k + 1 else k)
  {
    var t' := LaunchedTile(w, t, cs);
    var n := if p == ELEMENT && IdledAtStart(w, cs) then k + 1 else k;
    LaunchedStarts(w, t, cs);
    WasIdleIs(w, t, cs);
    FirstWordLostExactly(w, t, cs, es, p, k);
    ExpectedIsScheduled(w, t.mem, t'.mem, InputsOf(cs), n);
  }

  lemma LaunchedStarts<R>(w: Widths, t: Tile<R>, cs: seq<Cmd<R>>)
    requires TileOk(w, t) && CmdsOk(w, cs) && t == ResetTile(w, t.mem) && Runnable(w, t.mem, InputsOf(cs))
    ensures Starts(w, t.mem, LaunchedTile(w, t, cs).mem, InputsOf(cs))
  {
    var s := Prepared(w, t, cs);
    PreparedFollows(w, t, cs);
    NeverLaunched(w, cs);
    var go := Input(Launch, false, false, false, AllDone(s.done, [Idling(w, s), false, false]));
    CtrlMem.LaunchStarts(w, t.mem, s.mem, InputsOf(cs), go);
  }

  lemma ExpectedIsScheduled<R>(w: Widths, s0: Mem<R>, s: Mem<R>, us: seq<Input<R>>, k: nat)
    requires MemOk(w, s0) && Runnable(w, s0, us) && Starts(w, s0, s, us)
    ensures Scheduled(w, s, k) == Expected(w, s0, us, k)
  {
    var a := LowerOf(w, us) + k % PerIterOf(w, us, s0.perIter);
    assert StepAddr(s, k) == a by {
      StepAddrIsModulo(s, k);
    }
    assert s.words[a] == WordOf(us, a, s0.words[a]) && s.prologueFu[a] == IdleOf(w, us, a);
  }

  // ---- the register-level flags ----

  /** The flags, one by one. */
  lemma PartByPart(done: seq<bool>, rdy: seq<bool>, rearm: bool)
    requires |done| == |rdy| == PARTS
    ensures AllDone(done, rdy) <==> (rdy[0] || done[0]) && (rdy[1] || done[1]) && (rdy[2] || done[2])
    ensures NextDone(done, rdy, rearm)
         == if rearm || AllDone(done, rdy) then [false, false, false]
            else [done[0] || rdy[0], done[1] || rdy[1], done[2] || rdy[2]]
  {
  }

  class TileJoinRTL {
    var elementDone: bool
    var fuCrossbarDone: bool
    var routingCrossbarDone: bool

    ghost function View(): seq<bool>
      reads this
    {
      [elementDone, fuCrossbarDone, routingCrossbarDone]
    }

    constructor ()
      ensures View() == [false, false, false]
    {
      elementDone, fuCrossbarDone, routingCrossbarDone := false, false, false;
    }

    /** `update_opt`, `notify_const_mem`, `notify_crossbars_compute_status` and `already_done`. */
    method Clock(ctrlVal: bool, elementRdy: bool, fuCrossbarRdy: bool, routingCrossbarRdy: bool, rearm: bool)
      returns (o: Joined)
      modifies this
      ensures o == OutputOf(old(View()), [elementRdy, fuCrossbarRdy, routingCrossbarRdy], ctrlVal)
      ensures View() == NextDone(old(View()), [elementRdy, fuCrossbarRdy, routingCrossbarRdy], rearm)
    {
      ghost var done, rdy := View(), [elementRdy, fuCrossbarRdy, routingCrossbarRdy];
      PartByPart(done, rdy, rearm);
      var ctrlRdy := (elementRdy || elementDone)
                  && (routingCrossbarRdy || routingCrossbarDone)
                  && (fuCrossbarRdy || fuCrossbarDone);
      o := Joined([ctrlVal && !elementDone, ctrlVal && !fuCrossbarDone, ctrlVal && !routingCrossbarDone], ctrlRdy,
                  ctrlRdy && ctrlVal, elementDone);
      if ctrlRdy || rearm {
        elementDone, fuCrossbarDone, routingCrossbarDone := false, false, false;
      } else {
        if elementRdy { elementDone := true; }
        if fuCrossbarRdy { fuCrossbarDone := true; }
        if routingCrossbarRdy { routingCrossbarDone := true; }
      }
    }
  }
}
