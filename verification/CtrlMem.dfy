/** The control memory (mem/ctrl/CtrlMemDynamicRTL.py): a program counter that walks the
    words `lower .. lower + perIter - 1` round and round, a per-address count of passes
    during which the FU idles, a step budget, and one completion packet per launch.

    `FollowsSchedule` says what a launched memory issues, under any handshake timing. */
module CtrlMem {
  import Arith

  datatype Op = Start | Nah | Compute(code: nat)

  datatype Word<R> = Word(op: Op, rest: R)

  /** The command at the head of the controller's queue. */
  datatype Cmd<R> =
    | NoCmd
    | Config(addr: nat, word: Word<R>)
    | PrologueFu(addr: nat, count: nat)
    | PrologueRouting(addr: nat, inport: nat, count: nat)
    | PrologueFuXbar(addr: nat, outport: nat, count: nat)
    | LowerBound(v: nat)
    | CountPerIter(v: nat)
    | TotalCount(v: nat)
    | Launch
    | Resume
    | Terminate
    | Rearm

  /** Numbers of values of the source's bit types: control address, upper bound, step
      count, prologue count, count per iteration. */
  datatype Widths = Widths(addr: nat, bound: nat, time: nat, prologue: nat, pc: nat)

  predicate WidthsOk(w: Widths) {
    w.addr > 0 && w.bound > w.addr && w.time > 1 && w.prologue > 1 && w.pc > 1
  }

  datatype Mem<R> = Mem(words: seq<Word<R>>, raddr: nat, times: nat, started: bool, sentComplete: bool,
                        prologueFu: seq<nat>, lower: nat, perIter: nat, total: nat)

  predicate MemOk<R>(w: Widths, s: Mem<R>) {
    && WidthsOk(w) && |s.words| == |s.prologueFu| == w.addr
    && s.raddr < w.addr && s.lower < w.addr && s.times < w.time && s.total < w.time
  }

  /** Wires of one cycle: the command, the message the FU offers to the controller
      (`elemComplete` if it is a COMPLETE), and the two consumers' readiness. */
  datatype Input<R> = Input(cmd: Cmd<R>, elemVal: bool, elemComplete: bool, pktRdy: bool, ctrlRdy: bool)

  predicate CmdOk<R>(w: Widths, c: Cmd<R>) {
    match c
    case Config(a, _) => a < w.addr
    case PrologueFu(a, _) => a < w.addr
    case PrologueRouting(a, _, _) => a < w.addr
    case PrologueFuXbar(a, _, _) => a < w.addr
    case _ => true
  }

  // ---- combinational outputs ----

  function Current<R>(w: Widths, s: Mem<R>): Word<R>
    requires MemOk(w, s)
  {
    s.words[s.raddr]
  }

  /** The budget is used up. */
  predicate Spent<R>(s: Mem<R>) {
    s.total > 0 && s.times == s.total
  }

  predicate SendVal<R>(w: Widths, s: Mem<R>, i: Input<R>)
    requires MemOk(w, s)
  {
    && s.started && !s.sentComplete && !(Spent(s) || Current(w, s).op.Start?)
    && !i.cmd.Terminate? && !i.cmd.Rearm?
  }

  /** The word offered: its operation is replaced while the FU is in its prologue. */
  function SendMsg<R>(w: Widths, s: Mem<R>): Word<R>
    requires MemOk(w, s)
  {
    if s.prologueFu[s.raddr] != 0 then Current(w, s).(op := Nah) else Current(w, s)
  }

  predicate Fires<R>(w: Widths, s: Mem<R>, i: Input<R>)
    requires MemOk(w, s)
  {
    SendVal(w, s, i) && i.ctrlRdy
  }

  predicate PktVal<R>(s: Mem<R>, i: Input<R>) {
    s.started && !i.cmd.Rearm? && !s.sentComplete && (i.elemVal || Spent(s))
  }

  /** What is offered to the controller: a message of the FU outranks the completion. */
  datatype Packet = NoPacket | FuMessage | Completion

  function PktMsg<R>(s: Mem<R>, i: Input<R>): (p: Packet)
    ensures p != NoPacket <==> PktVal(s, i)
  {
    if !PktVal(s, i) then NoPacket else if i.elemVal then FuMessage else Completion
  }

  /** What the memory drives: the word for the tile and its address, the packet for the
      controller, and whether the FU's message is taken. */
  datatype Output<R> = Output(ctrlVal: bool, ctrl: Word<R>, ctrlAddr: nat, pkt: Packet, elemRdy: bool)

  function Wires<R>(w: Widths, s: Mem<R>, i: Input<R>): Output<R>
    requires MemOk(w, s)
  {
    Output(SendVal(w, s, i), SendMsg(w, s), s.raddr, PktMsg(s, i), PktMsg(s, i).FuMessage? && i.pktRdy)
  }

  /** A completion packet leaves this cycle: this memory's, or the FU's. */
  predicate Completes<R>(s: Mem<R>, i: Input<R>) {
    PktVal(s, i) && i.pktRdy && (i.elemVal ==> i.elemComplete)
  }

  // ---- clock edge ----

  function NextAddr<R>(w: Widths, s: Mem<R>): (a: nat)
    requires MemOk(w, s)
    ensures a < w.addr
  {
    if s.raddr == (s.lower + s.perIter + w.bound - 1) % w.bound then s.lower else Arith.Wrap(s.raddr + 1, w.addr)
  }

  /** The current step is taken; a new lower bound in the same cycle outranks it. */
  predicate Steps<R>(w: Widths, s: Mem<R>, i: Input<R>)
    requires MemOk(w, s)
  {
    Fires(w, s, i) && !i.cmd.LowerBound?
  }

  function NextRaddr<R>(w: Widths, s: Mem<R>, i: Input<R>): (a: nat)
    requires MemOk(w, s)
    ensures a < w.addr
  {
    if i.cmd.Rearm? then s.lower
    else if i.cmd.LowerBound? then i.cmd.v % w.addr
    else if Steps(w, s, i) then NextAddr(w, s) else s.raddr
  }

  function NextTimes<R>(w: Widths, s: Mem<R>, i: Input<R>): (t: nat)
    requires MemOk(w, s)
    ensures t < w.time
  {
    if i.cmd.Rearm? || i.cmd.Terminate? then 0
    else if Steps(w, s, i) && (s.total == 0 || s.times < s.total) then Arith.Wrap(s.times + 1, w.time) else s.times
  }

  /** The counts left; the step just taken outranks a configuration of the same address. */
  function NextPrologue<R>(w: Widths, s: Mem<R>, i: Input<R>): (p: seq<nat>)
    requires MemOk(w, s) && CmdOk(w, i.cmd)
    ensures |p| == w.addr
  {
    var configured := if i.cmd.PrologueFu? then s.prologueFu[i.cmd.addr := i.cmd.count % w.prologue] else s.prologueFu;
    if i.cmd.Rearm? then seq(w.addr, _ => 0)
    else if Steps(w, s, i) && s.prologueFu[s.raddr] > 0 then configured[s.raddr := s.prologueFu[s.raddr] - 1]
    else configured
  }

  predicate NextStarted<R>(s: Mem<R>, i: Input<R>) {
    if i.cmd.Rearm? || i.cmd.Terminate? then false else s.started || i.cmd.Launch? || i.cmd.Resume?
  }

  predicate NextSent<R>(s: Mem<R>, i: Input<R>) {
    if i.cmd.Rearm? then false
    else if Completes(s, i) then true
    else s.sentComplete && !i.cmd.Launch? && !i.cmd.Resume?
  }

  function Next<R>(w: Widths, s: Mem<R>, i: Input<R>): (s': Mem<R>)
    requires MemOk(w, s) && CmdOk(w, i.cmd)
    ensures MemOk(w, s')
  {
    Mem(if i.cmd.Config? then s.words[i.cmd.addr := i.cmd.word] else s.words,
        NextRaddr(w, s, i), NextTimes(w, s, i), NextStarted(s, i), NextSent(s, i), NextPrologue(w, s, i),
        if i.cmd.LowerBound? then i.cmd.v % w.addr else s.lower,
        if i.cmd.CountPerIter? then i.cmd.v % w.pc else s.perIter,
        if i.cmd.TotalCount? then i.cmd.v % w.time else s.total)
  }

  /** The prologue counts the memory keeps for the two crossbars, per address and input. */
  datatype XbarPrologues = XbarPrologues(routing: seq<seq<nat>>, fu: seq<seq<nat>>)

  /** An input is named by its crossbar code, 0 being none; an FU output by its number. */
  predicate XbarCmdOk<R>(p: XbarPrologues, c: Cmd<R>) {
    match c
    case PrologueRouting(a, i, _) => a < |p.routing| && i <= |p.routing[a]|
    case PrologueFuXbar(a, o, _) => a < |p.fu| && o < |p.fu[a]|
    case _ => true
  }

  /** Only a configuration changes them, not even REARM. */
  function NextXbarPrologues<R>(w: Widths, p: XbarPrologues, c: Cmd<R>): XbarPrologues
    requires WidthsOk(w) && XbarCmdOk(p, c)
  {
    match c
    case PrologueRouting(a, i, n) =>
      if i == 0 then p
      else
        var row: seq<nat> := p.routing[a][i - 1 := n % w.prologue];
        p.(routing := p.routing[a := row])
    case PrologueFuXbar(a, o, n) =>
      var row: seq<nat> := p.fu[a][o := n % w.prologue];
      p.(fu := p.fu[a := row])
    case _ => p
  }

  // ---- a launch ----

  predicate Quiet<R>(es: seq<Input<R>>) {
    forall t :: 0 <= t < |es| ==> es[t].cmd.NoCmd?
  }

  predicate Accepted<R>(w: Widths, es: seq<Input<R>>) {
    forall t :: 0 <= t < |es| ==> CmdOk(w, es[t].cmd)
  }

  ghost function Run<R>(w: Widths, s: Mem<R>, es: seq<Input<R>>): (s': Mem<R>)
    requires MemOk(w, s) && Accepted(w, es)
    ensures MemOk(w, s')
  {
    if es == [] then s else Next(w, Run(w, s, es[..|es| - 1]), es[|es| - 1])
  }

  /** The words issued. */
  ghost function Issued<R>(w: Widths, s: Mem<R>, es: seq<Input<R>>): seq<Word<R>>
    requires MemOk(w, s) && Quiet(es)
  {
    if es == [] then []
    else
      var n := |es| - 1;
      var o := Wires(w, Run(w, s, es[..n]), es[n]);
      Issued(w, s, es[..n]) + if o.ctrlVal && es[n].ctrlRdy then [o.ctrl] else []
  }

  /** Completion packets sent. */
  ghost function Completions<R>(w: Widths, s: Mem<R>, es: seq<Input<R>>): nat
    requires MemOk(w, s) && Quiet(es)
  {
    if es == [] then 0
    else
      var n := |es| - 1;
      Completions(w, s, es[..n]) + if Completes(Run(w, s, es[..n]), es[n]) then 1 else 0
  }

  predicate InWindow<R>(s: Mem<R>) {
    s.perIter >= 1 && s.lower <= s.raddr < s.lower + s.perIter
  }

  /** Launched and not complete, inside a window of `perIter` words that fits the memory
      and holds no OPT_START. */
  predicate Launched<R>(w: Widths, s: Mem<R>) {
    && MemOk(w, s) && s.started && !s.sentComplete
    && InWindow(s) && s.lower + s.perIter <= w.addr
    && (s.total > 0 ==> s.times <= s.total)
    && forall a :: s.lower <= a < s.lower + s.perIter ==> !s.words[a].op.Start?
  }

  /** Where the k-th step from s reads. */
  function StepAddr<R>(s: Mem<R>, k: nat): (a: nat)
    requires InWindow(s)
    ensures s.lower <= a < s.lower + s.perIter
  {
    if k == 0 then s.raddr
    else if StepAddr(s, k - 1) == s.lower + s.perIter - 1 then s.lower
    else StepAddr(s, k - 1) + 1
  }

  /** Which is the modulo schedule. */
  lemma {:induction false} StepAddrIsModulo<R>(s: Mem<R>, k: nat)
    requires InWindow(s)
    ensures StepAddr(s, k) == s.lower + (s.raddr - s.lower + k) % s.perIter
  {
    if k == 0 {
      Arith.DivModUnique(s.raddr - s.lower, s.perIter, 0, s.raddr - s.lower);
    } else {
      StepAddrIsModulo(s, k - 1);
      Arith.ModSucc(s.raddr - s.lower + k - 1, s.perIter);
    }
  }

  /** Of the first n steps, those that read address a. */
  function Visits<R>(s: Mem<R>, a: nat, n: nat): nat
    requires InWindow(s)
  {
    if n == 0 then 0 else Visits(s, a, n - 1) + if StepAddr(s, n - 1) == a then 1 else 0
  }

  /** Step k is one of the first passes over its address, during which the FU idles. */
  predicate Idled<R>(w: Widths, s: Mem<R>, k: nat)
    requires Launched(w, s)
  {
    k / s.perIter < s.prologueFu[StepAddr(s, k)]
  }

  /** What step k issues: the word at its address, without its operation while idled. */
  function Scheduled<R>(w: Widths, s: Mem<R>, k: nat): Word<R>
    requires Launched(w, s)
  {
    var x := s.words[StepAddr(s, k)];
    if Idled(w, s, k) then x.(op := Nah) else x
  }

  lemma StepAddrWraps<R>(s: Mem<R>, k: nat)
    requires InWindow(s)
    ensures StepAddr(s, k) == StepAddr(s, k % s.perIter)
  {
    Arith.ModAdd(s.raddr - s.lower, k, s.perIter);
    StepAddrIsModulo(s, k);
    StepAddrIsModulo(s, k % s.perIter);
  }

  lemma StepAddrsDiffer<R>(s: Mem<R>, j: nat, k: nat)
    requires InWindow(s) && j < s.perIter
    ensures StepAddr(s, j) == StepAddr(s, k) <==> j == k % s.perIter
  {
    StepAddrWraps(s, k);
    if StepAddr(s, j) == StepAddr(s, k % s.perIter) {
      StepAddrIsModulo(s, j);
      StepAddrIsModulo(s, k % s.perIter);
      Arith.ModCancel(s.raddr - s.lower, j, k % s.perIter, s.perIter);
    }
  }

  /** Address d of the round has been visited once per full round, and once more if the
      current round is past it. */
  lemma {:induction false} VisitsAre<R>(s: Mem<R>, d: nat, n: nat)
    requires InWindow(s) && d < s.perIter
    ensures Visits(s, StepAddr(s, d), n) == n / s.perIter + if d < n % s.perIter then 1 else 0
  {
    if n == 0 {
      Arith.DivModUnique(0, s.perIter, 0, 0);
    } else {
      VisitsAre(s, d, n - 1);
      StepAddrsDiffer(s, d, n - 1);
      OneMoreVisit(n, s.perIter, d, Visits(s, StepAddr(s, d), n - 1));
    }
  }

  /** The count of address d of p after n steps, from that after n - 1. */
  lemma OneMoreVisit(n: nat, p: nat, d: nat, v: nat)
    requires 0 < n && 0 < p && v == (n - 1) / p + if d < (n - 1) % p then 1 else 0
    requires d < p
    ensures v + (if d == (n - 1) % p then 1 else 0) == n / p + if d < n % p then 1 else 0
  {
    Arith.ModSucc(n - 1, p);
  }

  /** Step k is pass k / perIter over its own address. */
  lemma VisitsSoFar<R>(s: Mem<R>, k: nat)
    requires InWindow(s)
    ensures Visits(s, StepAddr(s, k), k) == k / s.perIter
  {
    StepAddrWraps(s, k);
    VisitsAre(s, k % s.perIter, k);
  }

  lemma NextAddrFollows<R>(w: Widths, s: Mem<R>, s': Mem<R>, k: nat)
    requires Launched(w, s) && MemOk(w, s') && s'.lower == s.lower && s'.perIter == s.perIter
    requires s'.raddr == StepAddr(s, k)
    ensures NextAddr(w, s') == StepAddr(s, k + 1)
  {
    Arith.DivModUnique(s.lower + s.perIter + w.bound - 1, w.bound, 1, s.lower + s.perIter - 1);
  }

  function Less(p: nat, k: nat): nat {
    if p < k then 0 else p - k
  }

  /** The state after n steps. */
  ghost predicate At<R>(w: Widths, s: Mem<R>, s': Mem<R>, n: nat)
    requires Launched(w, s)
  {
    && MemOk(w, s') && s'.started && s'.words == s.words
    && s'.lower == s.lower && s'.perIter == s.perIter && s'.total == s.total
    && s'.raddr == StepAddr(s, n)
    && (if s.total > 0 then s'.times == s.times + n <= s.total else s'.times == (s.times + n) % w.time)
    && forall a :: 0 <= a < w.addr ==> s'.prologueFu[a] == Less(s.prologueFu[a], Visits(s, a, n))
  }

  lemma StepKeepsPrologue<R>(w: Widths, s: Mem<R>, s': Mem<R>, i: Input<R>, n: nat, a: nat)
    requires Launched(w, s) && At(w, s, s', n) && i.cmd.NoCmd? && Fires(w, s', i) && a < w.addr
    ensures Next(w, s', i).prologueFu[a] == Less(s.prologueFu[a], Visits(s, a, n + 1))
  {
    assert s'.prologueFu[a] == Less(s.prologueFu[a], Visits(s, a, n));
  }

  lemma StepKeepsAddr<R>(w: Widths, s: Mem<R>, s': Mem<R>, i: Input<R>, n: nat)
    requires Launched(w, s) && At(w, s, s', n) && i.cmd.NoCmd? && Fires(w, s', i)
    ensures Next(w, s', i).raddr == StepAddr(s, n + 1)
    ensures SendMsg(w, s') == Scheduled(w, s, n)
  {
    NextAddrFollows(w, s, s', n);
    VisitsSoFar(s, n);
  }

  lemma StepKeepsAt<R>(w: Widths, s: Mem<R>, s': Mem<R>, i: Input<R>, n: nat)
    requires Launched(w, s) && At(w, s, s', n) && i.cmd.NoCmd?
    ensures At(w, s, Next(w, s', i), if Fires(w, s', i) then n + 1 else n)
    ensures Fires(w, s', i) ==> SendMsg(w, s') == Scheduled(w, s, n) && !s'.sentComplete
  {
    if Fires(w, s', i) {
      StepKeepsAddr(w, s, s', i, n);
      Arith.ModSucc(s.times + n, w.time);
      forall a | 0 <= a < w.addr
        ensures Next(w, s', i).prologueFu[a] == Less(s.prologueFu[a], Visits(s, a, n + 1))
      {
        StepKeepsPrologue(w, s, s', i, n, a);
      }
    }
  }

  lemma {:induction false} StateFollows<R>(w: Widths, s: Mem<R>, es: seq<Input<R>>)
    requires Launched(w, s) && Quiet(es)
    ensures At(w, s, Run(w, s, es), |Issued(w, s, es)|)
  {
    if es == [] {
      Arith.DivModUnique(s.times, w.time, 0, s.times);
    } else {
      var n := |es| - 1;
      StateFollows(w, s, es[..n]);
      StepKeepsAt(w, s, Run(w, s, es[..n]), es[n], |Issued(w, s, es[..n])|);
    }
  }

  lemma {:induction false} CompletesOnce<R>(w: Widths, s: Mem<R>, es: seq<Input<R>>)
    requires MemOk(w, s) && !s.sentComplete && Quiet(es)
    ensures Completions(w, s, es) == if Run(w, s, es).sentComplete then 1 else 0
  {
    if es != [] {
      CompletesOnce(w, s, es[..|es| - 1]);
    }
  }

  lemma IssuesNext<R>(w: Widths, s: Mem<R>, es: seq<Input<R>>)
    requires Launched(w, s) && Quiet(es) && es != []
    ensures var before := Issued(w, s, es[..|es| - 1]);
            Issued(w, s, es) == before || Issued(w, s, es) == before + [Scheduled(w, s, |before|)]
  {
    var n := |es| - 1;
    StateFollows(w, s, es[..n]);
    StepKeepsAt(w, s, Run(w, s, es[..n]), es[n], |Issued(w, s, es[..n])|);
  }

  ghost predicate OnSchedule<R>(w: Widths, s: Mem<R>, out: seq<Word<R>>)
    requires Launched(w, s)
  {
    forall k :: 0 <= k < |out| ==> out[k] == Scheduled(w, s, k)
  }

  lemma {:induction false} StaysOnSchedule<R>(w: Widths, s: Mem<R>, es: seq<Input<R>>)
    requires Launched(w, s) && Quiet(es)
    ensures OnSchedule(w, s, Issued(w, s, es))
  {
    if es != [] {
      StaysOnSchedule(w, s, es[..|es| - 1]);
      IssuesNext(w, s, es);
      OneMoreOnSchedule(w, s, Issued(w, s, es[..|es| - 1]));
    }
  }

  lemma OneMoreOnSchedule<R>(w: Widths, s: Mem<R>, out: seq<Word<R>>)
    requires Launched(w, s) && OnSchedule(w, s, out)
    ensures OnSchedule(w, s, out + [Scheduled(w, s, |out|)])
  {
  }

  /** What a launch does, for any timing: the words issued are the schedule's, in order,
      each as idle as its prologue demands; never more than the budget; at most one
      completion. */
  lemma FollowsSchedule<R>(w: Widths, s: Mem<R>, es: seq<Input<R>>)
    requires Launched(w, s) && Quiet(es)
    ensures OnSchedule(w, s, Issued(w, s, es))
    ensures s.total > 0 ==> |Issued(w, s, es)| <= s.total - s.times
    ensures Completions(w, s, es) <= 1
  {
    StaysOnSchedule(w, s, es);
    StateFollows(w, s, es);
    CompletesOnce(w, s, es);
  }

  /** The same in closed form: word k is memory[lower + (r + k) mod perIter], r being the
      program counter's offset at the start; it is idle in the first passes over its
      address. */
  lemma ModuloSchedule<R>(w: Widths, s: Mem<R>, es: seq<Input<R>>, k: nat)
    requires Launched(w, s) && Quiet(es) && k < |Issued(w, s, es)|
    ensures var a := s.lower + (s.raddr - s.lower + k) % s.perIter;
            && 0 <= a < |s.words|
            && Issued(w, s, es)[k] == if k / s.perIter < s.prologueFu[a] then s.words[a].(op := Nah) else s.words[a]
  {
    StaysOnSchedule(w, s, es);
    StepAddrIsModulo(s, k);
  }

  /** Once complete, nothing more is issued and nothing changes until the next command. */
  lemma {:induction false} SilentWhenComplete<R>(w: Widths, s: Mem<R>, es: seq<Input<R>>)
    requires MemOk(w, s) && s.sentComplete && Quiet(es)
    ensures Run(w, s, es) == s && Issued(w, s, es) == [] && Completions(w, s, es) == 0
  {
    if es != [] {
      SilentWhenComplete(w, s, es[..|es| - 1]);
    }
  }

  predicate NoEarlyComplete<R>(es: seq<Input<R>>) {
    forall t :: 0 <= t < |es| ==> !(es[t].elemVal && es[t].elemComplete)
  }

  /** Unless the FU reports completion itself, the budget is used up exactly: a finished
      launch has issued all of it, an unfinished one offers the next word. */
  lemma {:induction false} UsesWholeBudget<R>(w: Widths, s: Mem<R>, es: seq<Input<R>>, i: Input<R>)
    requires Launched(w, s) && Quiet(es) && NoEarlyComplete(es) && i.cmd.NoCmd? && s.total > 0
    ensures Run(w, s, es).sentComplete ==> |Issued(w, s, es)| == s.total - s.times
    ensures SendVal(w, Run(w, s, es), i) <==> |Issued(w, s, es)| < s.total - s.times
  {
    StateFollows(w, s, es);
    if es != [] {
      var n := |es| - 1;
      StateFollows(w, s, es[..n]);
      UsesWholeBudget(w, s, es[..n], es[n]);
    }
  }

  /** What a launched memory drives, told from what it has issued and completed so far: the
      next word while some of the budget is left, then the completion, whenever the FU has no
      message of its own; once a completion is taken, nothing. */
  lemma OffersExactly<R>(w: Widths, s: Mem<R>, es: seq<Input<R>>, i: Input<R>)
    requires Launched(w, s) && Quiet(es) && i.cmd.NoCmd?
    ensures var o, n := Wires(w, Run(w, s, es), i), |Issued(w, s, es)|;
            var spent := s.total > 0 && n == s.total - s.times;
            && (o.ctrlVal <==> Completions(w, s, es) == 0 && !spent)
            && o.ctrl == Scheduled(w, s, n) && o.ctrlAddr == StepAddr(s, n)
            && o.pkt == (if Completions(w, s, es) > 0 then NoPacket
                         else if i.elemVal then FuMessage
                         else if spent then Completion else NoPacket)
            && (o.elemRdy <==> o.pkt == FuMessage && i.pktRdy)
  {
    StateFollows(w, s, es);
    CompletesOnce(w, s, es);
    VisitsSoFar(s, |Issued(w, s, es)|);
  }

  /** A word stays offered, unchanged, until it is taken. */
  lemma OfferIsStable<R>(w: Widths, s: Mem<R>, i: Input<R>, j: Input<R>)
    requires MemOk(w, s) && i.cmd.NoCmd? && j.cmd.NoCmd? && SendVal(w, s, i) && !i.ctrlRdy
    ensures SendMsg(w, Next(w, s, i)) == SendMsg(w, s)
    ensures SendVal(w, Next(w, s, i), j) <==> !Completes(s, i)
  {
  }

  /** LAUNCH alone does not restart a finished program: the step count stays at the
      budget, so nothing is issued and completion is reported again. */
  lemma RelaunchIssuesNothing<R>(w: Widths, s: Mem<R>, i: Input<R>, es: seq<Input<R>>)
    requires Launched(w, s.(sentComplete := false, started := true)) && s.sentComplete && Spent(s)
    requires i.cmd.Launch? && Quiet(es)
    ensures Launched(w, Next(w, s, i)) && Issued(w, Next(w, s, i), es) == []
    ensures Completions(w, Next(w, s, i), es) <= 1
  {
    FollowsSchedule(w, Next(w, s, i), es);
  }

  /** TERMINATE then LAUNCH runs the whole budget again, from wherever the program counter
      stopped: step k of the second run reads what step n + k of the first would have, n
      being the number of words the first issued. */
  lemma RestartContinues<R>(w: Widths, s: Mem<R>, es: seq<Input<R>>, stop: Input<R>, go: Input<R>, k: nat)
    requires Launched(w, s) && Quiet(es) && stop.cmd.Terminate? && go.cmd.Launch?
    ensures Launched(w, Restarted(w, s, es, stop, go)) && Restarted(w, s, es, stop, go).times == 0
    ensures StepAddr(Restarted(w, s, es, stop, go), k) == StepAddr(s, |Issued(w, s, es)| + k)
  {
    RestartState(w, s, es, stop, go);
    RestartAddr(s, Restarted(w, s, es, stop, go), |Issued(w, s, es)|, k);
  }

  ghost function Restarted<R>(w: Widths, s: Mem<R>, es: seq<Input<R>>, stop: Input<R>, go: Input<R>): Mem<R>
    requires MemOk(w, s) && Quiet(es) && stop.cmd.Terminate? && go.cmd.Launch?
  {
    Next(w, Next(w, Run(w, s, es), stop), go)
  }

  lemma RestartState<R>(w: Widths, s: Mem<R>, es: seq<Input<R>>, stop: Input<R>, go: Input<R>)
    requires Launched(w, s) && Quiet(es) && stop.cmd.Terminate? && go.cmd.Launch?
    ensures var s1 := Restarted(w, s, es, stop, go);
            && Launched(w, s1) && s1.times == 0 && s1.lower == s.lower && s1.perIter == s.perIter
            && s1.raddr == StepAddr(s, |Issued(w, s, es)|)
  {
    StateFollows(w, s, es);
    Restart(w, s, Run(w, s, es), |Issued(w, s, es)|, stop, go);
  }

  lemma Restart<R>(w: Widths, s: Mem<R>, s': Mem<R>, n: nat, stop: Input<R>, go: Input<R>)
    requires Launched(w, s) && At(w, s, s', n) && stop.cmd.Terminate? && go.cmd.Launch?
    ensures var s1 := Next(w, Next(w, s', stop), go);
            && Launched(w, s1) && s1.times == 0
            && s1.lower == s.lower && s1.perIter == s.perIter && s1.raddr == StepAddr(s, n)
  {
  }

  lemma {:induction false} RestartAddr<R>(s: Mem<R>, s1: Mem<R>, n: nat, k: nat)
    requires InWindow(s) && s1.lower == s.lower && s1.perIter == s.perIter && s1.raddr == StepAddr(s, n)
    ensures StepAddr(s1, k) == StepAddr(s, n + k)
  {
    if k > 0 {
      RestartAddr(s, s1, n, k - 1);
      assert n + k - 1 == n + (k - 1);
    }
  }

  // ---- from the configuration commands on ----

  /** The memory after reset. */
  function Fresh<R>(w: Widths, words: seq<Word<R>>, perIter: nat, total: nat): (s: Mem<R>)
    requires WidthsOk(w) && |words| == w.addr && total < w.time
    ensures MemOk(w, s)
  {
    Mem(words, 0, 0, false, false, seq(w.addr, _ => 0), 0, perIter, total)
  }

  /** What the commands so far configure: the word of address a, the window, the budget. */
  ghost function WordOf<R>(es: seq<Input<R>>, a: nat, x: Word<R>): Word<R> {
    if es == [] then x
    else
      var c := es[|es| - 1].cmd;
      if c.Config? && c.addr == a then c.word else WordOf(es[..|es| - 1], a, x)
  }

  ghost function LowerOf<R>(w: Widths, es: seq<Input<R>>): nat
    requires WidthsOk(w)
  {
    if es == [] then 0
    else
      var c := es[|es| - 1].cmd;
      if c.LowerBound? then c.v % w.addr else LowerOf(w, es[..|es| - 1])
  }

  ghost function PerIterOf<R>(w: Widths, es: seq<Input<R>>, d: nat): nat
    requires WidthsOk(w)
  {
    if es == [] then d
    else
      var c := es[|es| - 1].cmd;
      if c.CountPerIter? then c.v % w.pc else PerIterOf(w, es[..|es| - 1], d)
  }

  ghost function TotalOf<R>(w: Widths, es: seq<Input<R>>, d: nat): nat
    requires WidthsOk(w)
  {
    if es == [] then d
    else
      var c := es[|es| - 1].cmd;
      if c.TotalCount? then c.v % w.time else TotalOf(w, es[..|es| - 1], d)
  }

  /** How many passes over address a the FU is to idle: REARM forgets it. */
  ghost function IdleOf<R>(w: Widths, es: seq<Input<R>>, a: nat): nat
    requires WidthsOk(w)
  {
    if es == [] || es[|es| - 1].cmd.Rearm? then 0
    else
      var c := es[|es| - 1].cmd;
      if c.PrologueFu? && c.addr == a then c.count % w.prologue else IdleOf(w, es[..|es| - 1], a)
  }

  /** Not launched or resumed since reset or the last REARM. */
  ghost predicate Armed<R>(es: seq<Input<R>>) {
    || es == [] || es[|es| - 1].cmd.Rearm?
    || (!es[|es| - 1].cmd.Launch? && !es[|es| - 1].cmd.Resume? && Armed(es[..|es| - 1]))
  }

  /** The registers hold what the commands configure; before a launch the program counter is
      at the lower bound and nothing is spent. */
  ghost predicate Follows<R>(w: Widths, s0: Mem<R>, s: Mem<R>, es: seq<Input<R>>)
    requires MemOk(w, s0) && MemOk(w, s)
  {
    && (forall a :: 0 <= a < w.addr ==> s.words[a] == WordOf(es, a, s0.words[a]))
    && s.lower == LowerOf(w, es) && s.perIter == PerIterOf(w, es, s0.perIter) && s.total == TotalOf(w, es, s0.total)
    && (Armed(es) ==> FollowsArmed(w, s, es))
  }

  ghost predicate FollowsArmed<R>(w: Widths, s: Mem<R>, es: seq<Input<R>>)
    requires MemOk(w, s)
  {
    && !s.started && !s.sentComplete && s.times == 0 && s.raddr == s.lower
    && forall a :: 0 <= a < w.addr ==> s.prologueFu[a] == IdleOf(w, es, a)
  }

  lemma FollowStep<R>(w: Widths, s0: Mem<R>, s: Mem<R>, es: seq<Input<R>>)
    requires MemOk(w, s0) && MemOk(w, s) && Accepted(w, es) && es != [] && Follows(w, s0, s, es[..|es| - 1])
    requires CmdOk(w, es[|es| - 1].cmd)
    ensures Follows(w, s0, Next(w, s, es[|es| - 1]), es)
  {
    var i := es[|es| - 1];
    var s' := Next(w, s, i);
    forall a | 0 <= a < w.addr ensures s'.words[a] == WordOf(es, a, s0.words[a]) {}
    if Armed(es) {
      forall a | 0 <= a < w.addr ensures s'.prologueFu[a] == IdleOf(w, es, a) {}
    }
  }

  lemma {:induction false} RegistersFollow<R>(w: Widths, s0: Mem<R>, es: seq<Input<R>>)
    requires MemOk(w, s0) && s0 == Fresh(w, s0.words, s0.perIter, s0.total) && Accepted(w, es)
    ensures Follows(w, s0, Run(w, s0, es), es)
  {
    if es != [] {
      RegistersFollow(w, s0, es[..|es| - 1]);
      FollowStep(w, s0, Run(w, s0, es[..|es| - 1]), es);
    }
  }

  /** The window the commands configure fits the memory and holds no OPT_START. */
  ghost predicate Runnable<R>(w: Widths, s0: Mem<R>, es: seq<Input<R>>)
    requires MemOk(w, s0)
  {
    && 1 <= PerIterOf(w, es, s0.perIter) && LowerOf(w, es) + PerIterOf(w, es, s0.perIter) <= w.addr
    && forall a :: LowerOf(w, es) <= a < LowerOf(w, es) + PerIterOf(w, es, s0.perIter) ==>
         !WordOf(es, a, s0.words[a]).op.Start?
  }

  /** Word k of a launch, told from the commands alone: the schedule starts at the lower
      bound, and the first passes over an address idle. */
  ghost function Expected<R>(w: Widths, s0: Mem<R>, us: seq<Input<R>>, k: nat): Word<R>
    requires MemOk(w, s0) && Runnable(w, s0, us)
  {
    var p := PerIterOf(w, us, s0.perIter);
    var a := LowerOf(w, us) + k % p;
    var x := WordOf(us, a, s0.words[a]);
    if k / p < IdleOf(w, us, a) then x.(op := Nah) else x
  }

  /** The state of a launch of what us configures. */
  ghost predicate Starts<R>(w: Widths, s0: Mem<R>, s: Mem<R>, us: seq<Input<R>>)
    requires MemOk(w, s0)
  {
    && Launched(w, s) && s.times == 0 && s.raddr == s.lower == LowerOf(w, us)
    && s.perIter == PerIterOf(w, us, s0.perIter) && s.total == TotalOf(w, us, s0.total)
    && forall a :: 0 <= a < w.addr ==>
         s.words[a] == WordOf(us, a, s0.words[a]) && s.prologueFu[a] == IdleOf(w, us, a)
  }

  lemma LaunchStarts<R>(w: Widths, s0: Mem<R>, s1: Mem<R>, us: seq<Input<R>>, go: Input<R>)
    requires MemOk(w, s0) && MemOk(w, s1) && Follows(w, s0, s1, us) && Armed(us) && Runnable(w, s0, us)
    requires go.cmd.Launch? || go.cmd.Resume?
    ensures Starts(w, s0, Next(w, s1, go), us)
  {
  }

  /** What a launch of that issues. */
  ghost predicate Issues<R>(w: Widths, s0: Mem<R>, s: Mem<R>, us: seq<Input<R>>, es: seq<Input<R>>)
    requires MemOk(w, s0) && Runnable(w, s0, us) && MemOk(w, s) && Quiet(es)
  {
    var out, total := Issued(w, s, es), TotalOf(w, us, s0.total);
    && (forall k :: 0 <= k < |out| ==> out[k] == Expected(w, s0, us, k))
    && (total > 0 ==> |out| <= total)
    && Completions(w, s, es) <= 1
    && (total > 0 && NoEarlyComplete(es) && Completions(w, s, es) == 1 ==> |out| == total)
  }

  lemma StartedIssues<R>(w: Widths, s0: Mem<R>, s: Mem<R>, us: seq<Input<R>>, es: seq<Input<R>>)
    requires MemOk(w, s0) && Runnable(w, s0, us) && Starts(w, s0, s, us) && Quiet(es)
    ensures Issues(w, s0, s, us, es)
  {
    FollowsSchedule(w, s, es);
    forall k | 0 <= k < |Issued(w, s, es)| ensures Issued(w, s, es)[k] == Expected(w, s0, us, k) {
      ModuloSchedule(w, s, es, k);
    }
    CompletesOnce(w, s, es);
    if s.total > 0 && NoEarlyComplete(es) {
      UsesWholeBudget(w, s, es, Input(NoCmd, false, false, false, false));
    }
  }

  /** A control memory from its commands on: after any commands us, whatever was launched and
      rearmed among them, a launch issues the words last configured, in the window last
      configured, up to the budget last configured, under any timing. */
  lemma LaunchFollowsCommands<R>(w: Widths, s0: Mem<R>, us: seq<Input<R>>, go: Input<R>, es: seq<Input<R>>)
    requires MemOk(w, s0) && s0 == Fresh(w, s0.words, s0.perIter, s0.total) && Accepted(w, us)
    requires Armed(us) && Runnable(w, s0, us) && (go.cmd.Launch? || go.cmd.Resume?) && Quiet(es)
    ensures Issues(w, s0, Next(w, Run(w, s0, us), go), us, es)
  {
    RegistersFollow(w, s0, us);
    LaunchStarts(w, s0, Run(w, s0, us), us, go);
    StartedIssues(w, s0, Next(w, Run(w, s0, us), go), us, es);
  }

  // ---- the crossbars' prologue counts ----

  ghost predicate XbarAccepted<R>(p: XbarPrologues, cs: seq<Cmd<R>>) {
    forall t :: 0 <= t < |cs| ==> XbarCmdOk(p, cs[t])
  }

  ghost predicate SameShape(p: XbarPrologues, q: XbarPrologues) {
    && |p.routing| == |q.routing| && |p.fu| == |q.fu|
    && (forall a :: 0 <= a < |p.routing| ==> |p.routing[a]| == |q.routing[a]|)
    && (forall a :: 0 <= a < |p.fu| ==> |p.fu[a]| == |q.fu[a]|)
  }

  ghost function XbarRun<R>(w: Widths, p: XbarPrologues, cs: seq<Cmd<R>>): (q: XbarPrologues)
    requires WidthsOk(w) && XbarAccepted(p, cs)
    ensures SameShape(p, q)
  {
    if cs == [] then p else NextXbarPrologues(w, XbarRun(w, p, cs[..|cs| - 1]), cs[|cs| - 1])
  }

  /** The last count configured for the crossbar code i + 1 at address a. */
  ghost function RoutingOf<R>(w: Widths, cs: seq<Cmd<R>>, a: nat, i: nat, d: nat): nat
    requires WidthsOk(w)
  {
    if cs == [] then d
    else
      var c := cs[|cs| - 1];
      if c.PrologueRouting? && c.addr == a && c.inport == i + 1 then c.count % w.prologue
      else RoutingOf(w, cs[..|cs| - 1], a, i, d)
  }

  /** The last count configured for FU output o at address a. */
  ghost function FuOutOf<R>(w: Widths, cs: seq<Cmd<R>>, a: nat, o: nat, d: nat): nat
    requires WidthsOk(w)
  {
    if cs == [] then d
    else
      var c := cs[|cs| - 1];
      if c.PrologueFuXbar? && c.addr == a && c.outport == o then c.count % w.prologue
      else FuOutOf(w, cs[..|cs| - 1], a, o, d)
  }

  /** After any commands, REARM and launches included, every count the crossbars are given
      is the last one configured for its address and input. */
  lemma {:induction false} XbarHoldsLast<R>(w: Widths, p: XbarPrologues, cs: seq<Cmd<R>>)
    requires WidthsOk(w) && XbarAccepted(p, cs)
    ensures var q := XbarRun(w, p, cs);
            && (forall a, i :: 0 <= a < |p.routing| && 0 <= i < |p.routing[a]| ==>
                  q.routing[a][i] == RoutingOf(w, cs, a, i, p.routing[a][i]))
            && (forall a, o :: 0 <= a < |p.fu| && 0 <= o < |p.fu[a]| ==>
                  q.fu[a][o] == FuOutOf(w, cs, a, o, p.fu[a][o]))
  {
    if cs != [] {
      XbarHoldsLast(w, p, cs[..|cs| - 1]);
    }
  }

  /** The edge, register by register. */
  lemma NextIs<R>(w: Widths, s: Mem<R>, i: Input<R>, s': Mem<R>)
    requires MemOk(w, s) && CmdOk(w, i.cmd)
    requires s'.words == if i.cmd.Config? then s.words[i.cmd.addr := i.cmd.word] else s.words
    requires s'.raddr == NextRaddr(w, s, i) && s'.times == NextTimes(w, s, i) && s'.prologueFu == NextPrologue(w, s, i)
    requires s'.started == NextStarted(s, i) && s'.sentComplete == NextSent(s, i)
    requires s'.lower == if i.cmd.LowerBound? then i.cmd.v % w.addr else s.lower
    requires s'.perIter == if i.cmd.CountPerIter? then i.cmd.v % w.pc else s.perIter
    requires s'.total == if i.cmd.TotalCount? then i.cmd.v % w.time else s.total
    ensures s' == Next(w, s, i)
  {
  }

  // ---- the register-level control memory ----

  class CtrlMemDynamicRTL<R> {
    const widths: Widths
    var regFile: seq<Word<R>>
    var raddr: nat
    var times: nat
    var startIterateCtrl: bool
    var sentComplete: bool
    var prologueCountRegFu: seq<nat>
    var ctrlCountLowerBound: nat
    var ctrlCountPerIter: nat
    var totalCtrlSteps: nat
    var prologueCountRegRoutingCrossbar: seq<seq<nat>>
    var prologueCountRegFuCrossbar: seq<seq<nat>>

    ghost function View(): Mem<R>
      reads this
    {
      Mem(regFile, raddr, times, startIterateCtrl, sentComplete, prologueCountRegFu,
          ctrlCountLowerBound, ctrlCountPerIter, totalCtrlSteps)
    }

    ghost function Prologues(): XbarPrologues
      reads this
    {
      XbarPrologues(prologueCountRegRoutingCrossbar, prologueCountRegFuCrossbar)
    }

    ghost predicate Valid()
      reads this
    {
      MemOk(widths, View())
    }

    constructor (w: Widths, words: seq<Word<R>>, perIter: nat, total: nat, inports: nat, fuOuts: nat)
      requires WidthsOk(w) && |words| == w.addr && total < w.time
      ensures Valid() && widths == w
      ensures View() == Fresh(w, words, perIter, total)
      ensures Prologues()
        == XbarPrologues(seq(w.addr, _ => seq(inports, _ => 0)), seq(w.addr, _ => seq(fuOuts, _ => 0)))
    {
      widths, regFile := w, words;
      raddr, times, startIterateCtrl, sentComplete := 0, 0, false, false;
      prologueCountRegFu := seq(w.addr, _ => 0);
      ctrlCountLowerBound, ctrlCountPerIter, totalCtrlSteps := 0, perIter, total;
      prologueCountRegRoutingCrossbar := seq(w.addr, _ => seq(inports, _ => 0));
      prologueCountRegFuCrossbar := seq(w.addr, _ => seq(fuOuts, _ => 0));
    }

    /** `update_raddr_and_fu_prologue`. */
    method UpdateRaddr(i: Input<R>, fires: bool)
      requires Valid() && CmdOk(widths, i.cmd) && fires == Fires(widths, View(), i)
      modifies `raddr, `times, `prologueCountRegFu
      ensures raddr == NextRaddr(widths, old(View()), i)
      ensures times == NextTimes(widths, old(View()), i)
      ensures prologueCountRegFu == NextPrologue(widths, old(View()), i)
    {
      if i.cmd.Rearm? {
        times, raddr := 0, ctrlCountLowerBound;
        prologueCountRegFu := seq(widths.addr, _ => 0);
      } else if i.cmd.LowerBound? {
        raddr := i.cmd.v % widths.addr;
      } else if i.cmd.Terminate? {
        times := 0;
      } else {
        var current, left := raddr, prologueCountRegFu[raddr];
        if i.cmd.PrologueFu? {
          prologueCountRegFu := prologueCountRegFu[i.cmd.addr := i.cmd.count % widths.prologue];
        }
        if fires {
          if totalCtrlSteps == 0 || times < totalCtrlSteps {
            times := Arith.Wrap(times + 1, widths.time);
          }
          if current == (ctrlCountLowerBound + ctrlCountPerIter + widths.bound - 1) % widths.bound {
            raddr := ctrlCountLowerBound;
          } else {
            raddr := Arith.Wrap(current + 1, widths.addr);
          }
          if left > 0 {
            prologueCountRegFu := prologueCountRegFu[current := left - 1];
          }
        }
      }
    }

    /** `send_pkt_to_controller`. */
    method Offer(i: Input<R>) returns (pkt: Packet)
      ensures pkt == PktMsg(View(), i)
    {
      pkt := NoPacket;
      if startIterateCtrl && !i.cmd.Rearm? {
        if i.elemVal && !sentComplete {
          pkt := FuMessage;
        } else if !sentComplete && totalCtrlSteps > 0 && times == totalCtrlSteps {
          pkt := Completion;
        }
      }
    }

    /** The combinational blocks. */
    method Drive(i: Input<R>) returns (o: Output<R>)
      requires Valid()
      ensures o == Wires(widths, View(), i)
    {
      var spent := totalCtrlSteps > 0 && times == totalCtrlSteps;
      var pkt := Offer(i);
      o := Output(false, regFile[raddr], raddr, pkt, false);
      if startIterateCtrl && !sentComplete && !spent && regFile[raddr].op != Start
         && !i.cmd.Terminate? && !i.cmd.Rearm? {
        o := o.(ctrlVal := true);
      }
      if prologueCountRegFu[raddr] != 0 {
        o := o.(ctrl := o.ctrl.(op := Nah));
      }
      if pkt == FuMessage {
        o := o.(elemRdy := i.pktRdy);
      }
    }

    /** Everything but the crossbars' prologue counts. */
    method Step(i: Input<R>, o: Output<R>)
      requires Valid() && CmdOk(widths, i.cmd) && o == Wires(widths, View(), i)
      modifies `raddr, `times, `prologueCountRegFu, `startIterateCtrl, `sentComplete
      modifies `regFile, `ctrlCountLowerBound, `ctrlCountPerIter, `totalCtrlSteps
      ensures Valid() && View() == Next(widths, old(View()), i)
    {
      ghost var before := View();
      var completes := i.pktRdy && (o.pkt.Completion? || (o.pkt.FuMessage? && i.elemComplete));
      UpdateRaddr(i, o.ctrlVal && i.ctrlRdy);
      UpdateFlags(i, completes, before);
      UpdateConfig(i);
      NextIs(widths, before, i, View());
    }

    /** One clock edge; `o` is what the memory drives in the cycle before it. */
    method Clock(i: Input<R>) returns (o: Output<R>)
      requires Valid() && CmdOk(widths, i.cmd) && XbarCmdOk(Prologues(), i.cmd)
      modifies this
      ensures Valid() && View() == Next(widths, old(View()), i)
      ensures Prologues() == NextXbarPrologues(widths, old(Prologues()), i.cmd)
      ensures o == Wires(widths, old(View()), i)
    {
      o := Drive(i);
      UpdatePrologueReg(i.cmd);
      Step(i, o);
    }

    /** `update_prologue_reg`. */
    method UpdatePrologueReg(c: Cmd<R>)
      requires WidthsOk(widths) && XbarCmdOk(Prologues(), c)
      modifies `prologueCountRegRoutingCrossbar, `prologueCountRegFuCrossbar
      ensures Prologues() == NextXbarPrologues(widths, old(Prologues()), c)
    {
      match c {
        case PrologueRouting(a, inport, n) =>
          if inport > 0 {
            var row: seq<nat> := prologueCountRegRoutingCrossbar[a][inport - 1 := n % widths.prologue];
            prologueCountRegRoutingCrossbar := prologueCountRegRoutingCrossbar[a := row];
          }
        case PrologueFuXbar(a, outport, n) =>
          var row: seq<nat> := prologueCountRegFuCrossbar[a][outport := n % widths.prologue];
          prologueCountRegFuCrossbar := prologueCountRegFuCrossbar[a := row];
        case _ =>
      }
    }

    /** `update_whether_we_can_iterate_ctrl` and `issue_complete`. */
    method UpdateFlags(i: Input<R>, completes: bool, ghost before: Mem<R>)
      requires startIterateCtrl == before.started && sentComplete == before.sentComplete
      requires completes == Completes(before, i)
      modifies `startIterateCtrl, `sentComplete
      ensures startIterateCtrl == NextStarted(before, i) && sentComplete == NextSent(before, i)
    {
      if i.cmd.Rearm? {
        startIterateCtrl := false;
      } else if i.cmd.Launch? || i.cmd.Resume? {
        startIterateCtrl := true;
      } else if i.cmd.Terminate? {
        startIterateCtrl := false;
      }
      if i.cmd.Rearm? {
        sentComplete := false;
      } else if completes {
        sentComplete := true;
      } else if i.cmd.Launch? || i.cmd.Resume? {
        sentComplete := false;
      }
    }

    /** The register file and the three configuration registers. */
    method UpdateConfig(i: Input<R>)
      requires WidthsOk(widths) && |regFile| == widths.addr && CmdOk(widths, i.cmd)
      modifies `regFile, `ctrlCountLowerBound, `ctrlCountPerIter, `totalCtrlSteps
      ensures regFile == if i.cmd.Config? then old(regFile)[i.cmd.addr := i.cmd.word] else old(regFile)
      ensures ctrlCountLowerBound == if i.cmd.LowerBound? then i.cmd.v % widths.addr else old(ctrlCountLowerBound)
      ensures ctrlCountPerIter == if i.cmd.CountPerIter? then i.cmd.v % widths.pc else old(ctrlCountPerIter)
      ensures totalCtrlSteps == if i.cmd.TotalCount? then i.cmd.v % widths.time else old(totalCtrlSteps)
    {
      match i.cmd
      case Config(a, x) => regFile := regFile[a := x];
      case LowerBound(v) => ctrlCountLowerBound := v % widths.addr;
      case CountPerIter(v) => ctrlCountPerIter := v % widths.pc;
      case TotalCount(v) => totalCtrlSteps := v % widths.time;
      case _ =>
    }
  }
}
