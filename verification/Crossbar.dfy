/** The data-driven multicast crossbar (noc/CrossbarRTL.py).  Each output names at most
    one input; a word fires once every output it needs has taken the input's head.
    Outputs may take it in different cycles: `accepted` remembers who already did.

    `Fire` (one word, no clock) says what a word means.  CrossbarProofs shows that every
    clocked run, under any handshake timing, computes exactly that. */
module Crossbar {

  /** What the control word tells the crossbar: per output the input's number plus one,
      or 0; and the control address that selects the prologue counters. */
  datatype Word = Word(start: bool, dirs: seq<nat>, addr: nat)

  /** Registers: outputs already served in this word, prologue passes per address and input. */
  datatype Xbar = Xbar(accepted: seq<bool>, counter: seq<seq<nat>>)

  /** Sizes and configuration; outputs from `fuBase` on face the FU. */
  datatype Config = Config(numIn: nat, numOut: nat, fuBase: nat, limit: seq<seq<nat>>)

  /** Wires of one cycle. */
  datatype Input<T> = Input(optVal: bool, word: Word, inVal: seq<bool>, inMsg: seq<T>,
                            outRdy: seq<bool>, computeDone: bool, clear: bool)

  predicate TableOk(c: Config, t: seq<seq<nat>>) {
    |t| == |c.limit| && forall a :: 0 <= a < |t| ==> |t[a]| == c.numIn
  }

  predicate ConfigOk(c: Config) {
    TableOk(c, c.limit)
  }

  predicate WordOk(c: Config, w: Word) {
    && |w.dirs| == c.numOut && w.addr < |c.limit|
    && forall j :: 0 <= j < |w.dirs| ==> w.dirs[j] <= c.numIn
  }

  predicate XbarOk(c: Config, x: Xbar) {
    ConfigOk(c) && |x.accepted| == c.numOut && TableOk(c, x.counter)
  }

  predicate InputOk<T>(c: Config, i: Input<T>) {
    && WordOk(c, i.word) && |i.inVal| == |i.inMsg| == c.numIn && |i.outRdy| == c.numOut
  }

  // ---- what a word asks for, given the prologue counters ----

  predicate InPrologue(c: Config, t: seq<seq<nat>>, w: Word, j: nat)
    requires ConfigOk(c) && TableOk(c, t) && WordOk(c, w) && j < c.numOut
  {
    w.dirs[j] > 0 && t[w.addr][w.dirs[j] - 1] < c.limit[w.addr][w.dirs[j] - 1]
  }

  /** Output j must receive its input's head. */
  predicate Required(c: Config, t: seq<seq<nat>>, w: Word, j: nat)
    requires ConfigOk(c) && TableOk(c, t) && WordOk(c, w) && j < c.numOut
  {
    w.dirs[j] > 0 && !InPrologue(c, t, w, j)
  }

  /** Input i is mapped to some output at all. */
  predicate Uses(w: Word, i: nat) {
    exists j :: 0 <= j < |w.dirs| && w.dirs[j] == i + 1
  }

  /** Input i must be dequeued. */
  predicate Needs(c: Config, t: seq<seq<nat>>, w: Word, i: nat)
    requires ConfigOk(c) && TableOk(c, t) && WordOk(c, w)
  {
    exists j :: 0 <= j < c.numOut && w.dirs[j] == i + 1 && Required(c, t, w, j)
  }

  function BumpCounters(c: Config, t: seq<seq<nat>>, w: Word): (t': seq<seq<nat>>)
    requires ConfigOk(c) && TableOk(c, t) && WordOk(c, w)
    ensures TableOk(c, t')
  {
    seq(|t|, a requires 0 <= a < |t| =>
      seq(c.numIn, i requires 0 <= i < c.numIn =>
        if a == w.addr && Uses(w, i) && t[a][i] < c.limit[a][i] then t[a][i] + 1 else t[a][i]))
  }

  // ---- combinational outputs ----

  predicate Active<T>(i: Input<T>) {
    i.optVal && !i.word.start
  }

  /** Every mapped input outside its prologue offers data. */
  predicate AllValid<T>(c: Config, x: Xbar, i: Input<T>)
    requires XbarOk(c, x) && InputOk(c, i)
  {
    forall j :: 0 <= j < c.numOut && i.word.dirs[j] > 0 ==>
      i.inVal[i.word.dirs[j] - 1] || InPrologue(c, x.counter, i.word, j)
  }

  /** `send_rdy_or_during_prologue_vector`: FU-facing outputs are not asked once the FU is done. */
  predicate OutOk<T>(c: Config, x: Xbar, i: Input<T>, j: nat)
    requires XbarOk(c, x) && InputOk(c, i) && j < c.numOut
  {
    if i.word.dirs[j] > 0 && (!i.computeDone || j < c.fuBase)
    then i.outRdy[j] || InPrologue(c, x.counter, i.word, j)
    else true
  }

  predicate AllServed<T>(c: Config, x: Xbar, i: Input<T>)
    requires XbarOk(c, x) && InputOk(c, i)
  {
    forall j :: 0 <= j < c.numOut && Required(c, x.counter, i.word, j) && !x.accepted[j] ==> OutOk(c, x, i, j)
  }

  /** `recv_opt.rdy`: the word completes this cycle. */
  predicate Fires<T>(c: Config, x: Xbar, i: Input<T>)
    requires XbarOk(c, x) && InputOk(c, i)
  {
    Active(i) && AllValid(c, x, i) && AllServed(c, x, i)
  }

  predicate RecvRdy<T>(c: Config, x: Xbar, i: Input<T>, k: nat)
    requires XbarOk(c, x) && InputOk(c, i)
  {
    Fires(c, x, i) && Needs(c, x.counter, i.word, k)
  }

  predicate SendVal<T>(c: Config, x: Xbar, i: Input<T>, j: nat)
    requires XbarOk(c, x) && InputOk(c, i) && j < c.numOut
  {
    Active(i) && AllValid(c, x, i) && Required(c, x.counter, i.word, j) && !x.accepted[j]
  }

  predicate Delivers<T>(c: Config, x: Xbar, i: Input<T>, j: nat)
    requires XbarOk(c, x) && InputOk(c, i) && j < c.numOut
  {
    SendVal(c, x, i, j) && i.outRdy[j]
  }

  function SendMsg<T>(c: Config, x: Xbar, i: Input<T>, j: nat): T
    requires XbarOk(c, x) && InputOk(c, i) && j < c.numOut && i.word.dirs[j] > 0
  {
    i.inMsg[i.word.dirs[j] - 1]
  }

  // ---- clock edge ----

  function Next<T>(c: Config, x: Xbar, i: Input<T>): (x': Xbar)
    requires XbarOk(c, x) && InputOk(c, i)
    ensures XbarOk(c, x')
  {
    if i.clear then
      Xbar(seq(c.numOut, _ => false), seq(|x.counter|, _ => seq(c.numIn, _ => 0)))
    else
      Xbar(seq(c.numOut, j requires 0 <= j < c.numOut =>
             Active(i) && !Fires(c, x, i) && (x.accepted[j] || Delivers(c, x, i, j))),
           if Fires(c, x, i) then BumpCounters(c, x.counter, i.word) else x.counter)
  }

  predicate Idle(x: Xbar) {
    forall j :: 0 <= j < |x.accepted| ==> !x.accepted[j]
  }

  // ---- timing-free meaning of a word sequence ----

  /** Streams still to come, streams delivered, prologue counters. */
  datatype Machine<T> = Machine(ins: seq<seq<T>>, outs: seq<seq<T>>, counter: seq<seq<nat>>)

  predicate MachineOk<T>(c: Config, m: Machine<T>) {
    ConfigOk(c) && |m.ins| == c.numIn && |m.outs| == c.numOut && TableOk(c, m.counter)
  }

  /** Every required output gets the head of its input; every needed input loses its head. */
  function Fire<T>(c: Config, m: Machine<T>, w: Word): (m': Machine<T>)
    requires MachineOk(c, m) && WordOk(c, w)
    ensures MachineOk(c, m')
  {
    Machine(
      seq(c.numIn, i requires 0 <= i < c.numIn =>
        if Needs(c, m.counter, w, i) && m.ins[i] != [] then m.ins[i][1..] else m.ins[i]),
      seq(c.numOut, j requires 0 <= j < c.numOut =>
        if Required(c, m.counter, w, j) && m.ins[w.dirs[j] - 1] != []
        then m.outs[j] + [m.ins[w.dirs[j] - 1][0]] else m.outs[j]),
      BumpCounters(c, m.counter, w))
  }

  predicate WordsOk(c: Config, ws: seq<Word>) {
    forall k :: 0 <= k < |ws| ==> WordOk(c, ws[k]) && !ws[k].start
  }

  ghost function FireAll<T>(c: Config, m: Machine<T>, ws: seq<Word>): (m': Machine<T>)
    requires MachineOk(c, m) && WordsOk(c, ws)
    ensures MachineOk(c, m')
  {
    if ws == [] then m else Fire(c, FireAll(c, m, ws[..|ws| - 1]), ws[|ws| - 1])
  }

  // ---- the crossbar among its neighbours ----

  /** Who is ready when: the only freedom the environment has. */
  datatype Timing<T> = Timing(optVal: bool, inVal: seq<bool>, outRdy: seq<bool>, computeDone: bool, junk: T)

  /** The crossbar, its streams, and how many of the words it has completed. */
  datatype Sys<T> = Sys(x: Xbar, ins: seq<seq<T>>, outs: seq<seq<T>>, fired: nat)

  predicate SysOk<T>(c: Config, ws: seq<Word>, s: Sys<T>) {
    && XbarOk(c, s.x) && |s.ins| == c.numIn && |s.outs| == c.numOut
    && WordsOk(c, ws) && s.fired <= |ws|
  }

  /** A word is offered only while one remains, and not withdrawn once an output has
      taken its data; an input is valid only while its stream is not exhausted. */
  predicate TimingOk<T>(c: Config, ws: seq<Word>, s: Sys<T>, e: Timing<T>)
    requires SysOk(c, ws, s)
  {
    && |e.inVal| == c.numIn && |e.outRdy| == c.numOut
    && (e.optVal ==> s.fired < |ws|)
    && ((exists j :: 0 <= j < c.numOut && s.x.accepted[j]) ==> e.optVal)
    && forall i :: 0 <= i < c.numIn && e.inVal[i] ==> s.ins[i] != []
  }

  function Wires<T>(c: Config, ws: seq<Word>, s: Sys<T>, e: Timing<T>): (i: Input<T>)
    requires SysOk(c, ws, s) && TimingOk(c, ws, s, e) && e.optVal
    ensures InputOk(c, i)
  {
    Input(true, ws[s.fired], e.inVal,
          seq(c.numIn, k requires 0 <= k < c.numIn => if e.inVal[k] then s.ins[k][0] else e.junk),
          e.outRdy, e.computeDone, false)
  }

  /** One cycle of the whole: the crossbar's edge plus the handshakes around it. */
  function Cycle<T>(c: Config, ws: seq<Word>, s: Sys<T>, e: Timing<T>): (s': Sys<T>)
    requires SysOk(c, ws, s) && TimingOk(c, ws, s, e)
    ensures SysOk(c, ws, s')
  {
    if !e.optVal then s.(x := Xbar(seq(c.numOut, _ => false), s.x.counter))
    else
      var i := Wires(c, ws, s, e);
      Sys(Next(c, s.x, i),
          seq(c.numIn, k requires 0 <= k < c.numIn =>
            if RecvRdy(c, s.x, i, k) && i.inVal[k] then s.ins[k][1..] else s.ins[k]),
          seq(c.numOut, j requires 0 <= j < c.numOut =>
            if Delivers(c, s.x, i, j) then s.outs[j] + [SendMsg(c, s.x, i, j)] else s.outs[j]),
          if Fires(c, s.x, i) then s.fired + 1 else s.fired)
  }

  // ---- the register-level crossbar ----

  class CrossbarRTL {
    const cfg: Config
    var sendAccepted: seq<bool>
    var prologueCounter: seq<seq<nat>>

    ghost function View(): Xbar
      reads this
    {
      Xbar(sendAccepted, prologueCounter)
    }

    ghost predicate Valid()
      reads this
    {
      XbarOk(cfg, View())
    }

    constructor (cfg: Config)
      requires ConfigOk(cfg)
      ensures Valid() && this.cfg == cfg && Idle(View())
      ensures forall a, i :: 0 <= a < |cfg.limit| && 0 <= i < cfg.numIn ==> prologueCounter[a][i] == 0
    {
      this.cfg := cfg;
      sendAccepted := seq(cfg.numOut, _ => false);
      prologueCounter := seq(|cfg.limit|, _ => seq(cfg.numIn, _ => 0));
    }

    /** One clock edge; the returned wires are the combinational outputs before it.  An output
        that sends nothing carries the blank message. */
    method Clock<T>(i: Input<T>, blank: T)
      returns (optRdy: bool, recvRdy: seq<bool>, sendVal: seq<bool>, sendMsg: seq<T>)
      requires Valid() && InputOk(cfg, i)
      modifies this
      ensures optRdy == Fires(cfg, old(View()), i)
      ensures |recvRdy| == cfg.numIn && |sendVal| == |sendMsg| == cfg.numOut
      ensures forall k :: 0 <= k < cfg.numIn ==> recvRdy[k] == RecvRdy(cfg, old(View()), i, k)
      ensures forall j :: 0 <= j < cfg.numOut ==> sendVal[j] == SendVal(cfg, old(View()), i, j)
      ensures forall j :: 0 <= j < cfg.numOut ==>
                sendMsg[j] == if SendVal(cfg, old(View()), i, j) then SendMsg(cfg, old(View()), i, j) else blank
      ensures Valid() && View() == Next(cfg, old(View()), i)
    {
      var prologue, needed := RequiredVectors(i.word);
      var allValid, allServed := Gates(i, prologue);
      optRdy := i.optVal && !i.word.start && allValid && allServed;
      recvRdy := seq(cfg.numIn, k requires 0 <= k < cfg.numIn => optRdy && needed[k]);
      sendVal, sendMsg := SendWires(i, blank, prologue, allValid);
      var acceptedNext := AcceptedNext(i, optRdy, sendVal);
      if i.clear {
        prologueCounter := seq(|prologueCounter|, _ => seq(cfg.numIn, _ => 0));
      } else if optRdy {
        CountPass(i.word);
      }
      sendAccepted := acceptedNext;
    }

    /** `send_data` of `update_signal`. */
    method SendWires<T>(i: Input<T>, blank: T, prologue: seq<bool>, allValid: bool)
      returns (sendVal: seq<bool>, sendMsg: seq<T>)
      requires Valid() && InputOk(cfg, i) && |prologue| == cfg.numOut && allValid == AllValid(cfg, View(), i)
      requires forall j :: 0 <= j < cfg.numOut ==> prologue[j] == InPrologue(cfg, prologueCounter, i.word, j)
      ensures |sendVal| == |sendMsg| == cfg.numOut
      ensures forall j :: 0 <= j < cfg.numOut ==> sendVal[j] == SendVal(cfg, View(), i, j)
      ensures forall j :: 0 <= j < cfg.numOut ==>
                sendMsg[j] == if SendVal(cfg, View(), i, j) then SendMsg(cfg, View(), i, j) else blank
    {
      sendVal, sendMsg := [], [];
      for j := 0 to cfg.numOut
        invariant |sendVal| == |sendMsg| == j
        invariant forall q :: 0 <= q < j ==> sendVal[q] == SendVal(cfg, View(), i, q)
        invariant forall q :: 0 <= q < j ==>
                    sendMsg[q] == if SendVal(cfg, View(), i, q) then SendMsg(cfg, View(), i, q) else blank
      {
        var val := i.optVal && !i.word.start && allValid && i.word.dirs[j] > 0 && !prologue[j] && !sendAccepted[j];
        sendVal := sendVal + [val];
        sendMsg := sendMsg + [if val then i.inMsg[i.word.dirs[j] - 1] else blank];
      }
    }

    /** `update_send_accepted_next`, or all cleared. */
    method AcceptedNext<T>(i: Input<T>, optRdy: bool, sendVal: seq<bool>) returns (accepted: seq<bool>)
      requires Valid() && InputOk(cfg, i) && |sendVal| == cfg.numOut && optRdy == Fires(cfg, View(), i)
      requires forall j :: 0 <= j < cfg.numOut ==> sendVal[j] == SendVal(cfg, View(), i, j)
      ensures accepted == Next(cfg, View(), i).accepted
    {
      accepted := [];
      for j := 0 to cfg.numOut
        invariant |accepted| == j
        invariant forall q :: 0 <= q < j ==> accepted[q] == Next(cfg, View(), i).accepted[q]
      {
        accepted := accepted
          + [!i.clear && i.optVal && !i.word.start && !optRdy && (sendAccepted[j] || (sendVal[j] && i.outRdy[j]))];
      }
    }

    /** `during_prologue_allowing_vector` and, OR-accumulated over the outputs,
        `recv_required_vector`. */
    method RequiredVectors(w: Word) returns (prologue: seq<bool>, needed: seq<bool>)
      requires Valid() && WordOk(cfg, w)
      ensures |prologue| == cfg.numOut && |needed| == cfg.numIn
      ensures forall j :: 0 <= j < cfg.numOut ==> prologue[j] == InPrologue(cfg, prologueCounter, w, j)
      ensures forall k :: 0 <= k < cfg.numIn ==> needed[k] == Needs(cfg, prologueCounter, w, k)
    {
      prologue, needed := [], seq(cfg.numIn, _ => false);
      for j := 0 to cfg.numOut
        invariant |prologue| == j && |needed| == cfg.numIn
        invariant forall q :: 0 <= q < j ==> prologue[q] == InPrologue(cfg, prologueCounter, w, q)
        invariant forall k :: 0 <= k < cfg.numIn ==>
                    needed[k] == exists q :: 0 <= q < j && w.dirs[q] == k + 1 && Required(cfg, prologueCounter, w, q)
      {
        var p := w.dirs[j] > 0 && prologueCounter[w.addr][w.dirs[j] - 1] < cfg.limit[w.addr][w.dirs[j] - 1];
        prologue := prologue + [p];
        if w.dirs[j] > 0 && !p {
          needed := needed[w.dirs[j] - 1 := true];
        }
      }
    }

    method Gates<T>(i: Input<T>, prologue: seq<bool>) returns (allValid: bool, allServed: bool)
      requires Valid() && InputOk(cfg, i) && |prologue| == cfg.numOut
      requires forall j :: 0 <= j < cfg.numOut ==> prologue[j] == InPrologue(cfg, prologueCounter, i.word, j)
      ensures allValid == AllValid(cfg, View(), i) && allServed == AllServed(cfg, View(), i)
    {
      allValid, allServed := true, true;
      for j := 0 to cfg.numOut
        invariant allValid == forall q :: 0 <= q < j && i.word.dirs[q] > 0 ==>
                                i.inVal[i.word.dirs[q] - 1] || InPrologue(cfg, prologueCounter, i.word, q)
        invariant allServed == forall q :: 0 <= q < j && Required(cfg, prologueCounter, i.word, q) && !sendAccepted[q]
                                 ==> OutOk(cfg, View(), i, q)
      {
        var d := i.word.dirs[j];
        if d > 0 && !(i.inVal[d - 1] && !prologue[j]) && !prologue[j] {
          allValid := false;
        }
        var ok := if d > 0 && (!i.computeDone || j < cfg.fuBase) then i.outRdy[j] || prologue[j] else true;
        if d > 0 && !prologue[j] && !sendAccepted[j] && !ok {
          allServed := false;
        }
      }
    }

    /** `update_prologue_counter_next` on a completing word. */
    method CountPass(w: Word)
      requires Valid() && WordOk(cfg, w)
      modifies this`prologueCounter
      ensures prologueCounter == BumpCounters(cfg, old(prologueCounter), w)
    {
      ghost var t := prologueCounter;
      var row := prologueCounter[w.addr];
      for j := 0 to cfg.numOut
        invariant |row| == cfg.numIn
        invariant forall k :: 0 <= k < cfg.numIn ==>
                    row[k] == if (exists q :: 0 <= q < j && w.dirs[q] == k + 1) && t[w.addr][k] < cfg.limit[w.addr][k]
                              then t[w.addr][k] + 1 else t[w.addr][k]
      {
        var d := w.dirs[j];
        if d > 0 && prologueCounter[w.addr][d - 1] < cfg.limit[w.addr][d - 1] {
          row := row[d - 1 := prologueCounter[w.addr][d - 1] + 1];
        }
      }
      prologueCounter := prologueCounter[w.addr := row];
      forall a | 0 <= a < |t| ensures prologueCounter[a] == BumpCounters(cfg, t, w)[a] {
      }
    }
  }
}
