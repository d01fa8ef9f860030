/** The latency-insensitive queues of lib/basic/val_rdy/queues.py and the channel
    that chains them (noc/ChannelWithClearRTL.py).

    A queue is a circular buffer; `Contents` is the FIFO it stands for.  Every clock
    edge satisfies  Contents + received == sent + Contents',  whatever the
    handshake pattern, so over any run the received stream is the sent stream
    followed by what is still held. */
module Queues {
  import opened Arith
  import opened Seqs

  datatype Kind = Normal | Pipe | Bypass

  /** Inputs of one cycle: producer side, consumer side, and the clear pulse. */
  datatype Input<T> = Input(recvVal: bool, recvMsg: T, sendRdy: bool, clear: bool)

  /** Registers of a queue with two or more entries. */
  datatype Ring<T> = Ring(rf: seq<T>, head: nat, tail: nat, count: nat)

  /** Registers of the one-entry variants. */
  datatype Slot<T> = Slot(full: bool, entry: T)

  predicate Valid<T>(q: Ring<T>) {
    && 2 <= |q.rf|
    && q.head < |q.rf|
    && q.count <= |q.rf|
    && q.tail == Wrap(q.head + q.count, |q.rf|)
  }

  /** The abstract FIFO, oldest first. */
  function Contents<T>(q: Ring<T>): (s: seq<T>)
    requires Valid(q)
    ensures |s| == q.count
  {
    seq(q.count, k requires 0 <= k < q.count => q.rf[Wrap(q.head + k, |q.rf|)])
  }

  function SlotContents<T>(q: Slot<T>): seq<T> {
    if q.full then [q.entry] else []
  }

  // ---- combinational outputs ----

  predicate RecvRdy<T>(kind: Kind, count: nat, capacity: nat, i: Input<T>) {
    count < capacity || (kind.Pipe? && i.sendRdy)
  }

  predicate SendVal<T>(kind: Kind, count: nat, i: Input<T>) {
    count > 0 || (kind.Bypass? && i.recvVal)
  }

  predicate RecvXfer<T>(kind: Kind, count: nat, capacity: nat, i: Input<T>) {
    i.recvVal && RecvRdy(kind, count, capacity, i)
  }

  predicate SendXfer<T>(kind: Kind, count: nat, i: Input<T>) {
    i.sendRdy && SendVal(kind, count, i)
  }

  function SendMsg<T>(kind: Kind, q: Ring<T>, i: Input<T>): T
    requires Valid(q)
  {
    if kind.Bypass? && q.count == 0 then i.recvMsg else q.rf[q.head]
  }

  function SlotSendMsg<T>(kind: Kind, q: Slot<T>, i: Input<T>): T {
    if kind.Bypass? && !q.full then i.recvMsg else q.entry
  }

  // ---- clock edges ----

  function Bump(p: nat, n: nat): nat {
    if p + 1 < n then p + 1 else 0
  }

  function Next<T>(kind: Kind, q: Ring<T>, i: Input<T>): Ring<T>
    requires Valid(q)
  {
    var n := |q.rf|;
    var rx := RecvXfer(kind, q.count, n, i);
    var sx := SendXfer(kind, q.count, i);
    var rf := if rx then q.rf[q.tail := i.recvMsg] else q.rf;
    if i.clear then Ring(rf, 0, 0, 0)
    else Ring(rf,
              if sx then Bump(q.head, n) else q.head,
              if rx then Bump(q.tail, n) else q.tail,
              if rx && !sx then q.count + 1 else if !rx && sx then q.count - 1 else q.count)
  }

  /** The three one-entry queues update `full` by three different equations. */
  function SlotNext<T>(kind: Kind, q: Slot<T>, i: Input<T>): Slot<T> {
    match kind
    case Normal =>
      Slot(!i.clear && ((i.recvVal && !q.full) || (q.full && !i.sendRdy)),
           if i.recvVal && !q.full then i.recvMsg else q.entry)
    case Pipe =>
      var recvRdy := i.sendRdy || !q.full;
      Slot(!i.clear && (!recvRdy || i.recvVal), if recvRdy && i.recvVal then i.recvMsg else q.entry)
    case Bypass =>
      Slot(!i.clear && !i.sendRdy && (q.full || i.recvVal),
           if !i.sendRdy && !q.full && i.recvVal then i.recvMsg else q.entry)
  }

  function Recvd<T>(kind: Kind, count: nat, capacity: nat, i: Input<T>): seq<T> {
    if RecvXfer(kind, count, capacity, i) then [i.recvMsg] else []
  }

  function Sent<T>(kind: Kind, q: Ring<T>, i: Input<T>): seq<T>
    requires Valid(q)
  {
    if SendXfer(kind, q.count, i) then [SendMsg(kind, q, i)] else []
  }

  function SlotSent<T>(kind: Kind, q: Slot<T>, i: Input<T>): seq<T> {
    if SendXfer(kind, SlotCount(q), i) then [SlotSendMsg(kind, q, i)] else []
  }

  function SlotCount<T>(q: Slot<T>): nat {
    if q.full then 1 else 0
  }

  // ---- one edge refines the FIFO ----

  lemma StepValid<T>(kind: Kind, q: Ring<T>, i: Input<T>)
    requires Valid(q)
    ensures Valid(Next(kind, q, i)) && |Next(kind, q, i).rf| == |q.rf|
    ensures i.clear ==> Contents(Next(kind, q, i)) == []
  {
  }

  /** A refused message is never stored and an accepted one is stored exactly once,
      including a push into a full pipe queue while it pops and a push through an
      empty bypass queue. */
  lemma StepRefinesFifo<T>(kind: Kind, q: Ring<T>, i: Input<T>)
    requires Valid(q) && !i.clear
    ensures Valid(Next(kind, q, i))
    ensures Contents(q) + Recvd(kind, q.count, |q.rf|, i)
            == Sent(kind, q, i) + Contents(Next(kind, q, i))
  {
    StepValid(kind, q, i);
    var c, c' := Contents(q), Contents(Next(kind, q, i));
    var recvd, sent := Recvd(kind, q.count, |q.rf|, i), Sent(kind, q, i);
    forall k | 0 <= k < |c'| ensures c'[k] == (c + recvd)[k + |sent|] {
      StoredAt(kind, q, i, k);
    }
    if q.count > 0 {
      assert c[0] == q.rf[Wrap(q.head + 0, |q.rf|)];
    }
    Shifted(c + recvd, sent, c');
  }

  lemma Shifted<T>(all: seq<T>, sent: seq<T>, kept: seq<T>)
    requires |all| == |sent| + |kept| && |sent| <= 1
    requires sent != [] ==> sent[0] == all[0]
    requires forall k :: 0 <= k < |kept| ==> kept[k] == all[k + |sent|]
    ensures all == sent + kept
  {
  }

  lemma StoredAt<T>(kind: Kind, q: Ring<T>, i: Input<T>, k: nat)
    requires Valid(q) && !i.clear && k < Next(kind, q, i).count
    ensures var d := if SendXfer(kind, q.count, i) then 1 else 0;
            var q' := Next(kind, q, i);
            && k + d < q.count + |Recvd(kind, q.count, |q.rf|, i)|
            && Wrap(q'.head + k, |q.rf|) == Wrap(q.head + (k + d), |q.rf|)
            && q'.rf[Wrap(q'.head + k, |q.rf|)]
               == if k + d < q.count then q.rf[Wrap(q.head + (k + d), |q.rf|)] else i.recvMsg
  {
  }

  lemma SlotStepRefinesFifo<T>(kind: Kind, q: Slot<T>, i: Input<T>)
    requires !i.clear
    ensures SlotContents(q) + Recvd(kind, SlotCount(q), 1, i)
            == SlotSent(kind, q, i) + SlotContents(SlotNext(kind, q, i))
  {
  }

  // ---- whole runs ----

  /** A run's state with the messages taken and given since the last clear. */
  datatype Log<T> = Log(q: Ring<T>, recvd: seq<T>, sent: seq<T>)

  function LogStep<T>(kind: Kind, l: Log<T>, i: Input<T>): Log<T>
    requires Valid(l.q)
  {
    if i.clear then Log(Next(kind, l.q, i), [], [])
    else Log(Next(kind, l.q, i),
             l.recvd + Recvd(kind, l.q.count, |l.q.rf|, i),
             l.sent + Sent(kind, l.q, i))
  }

  ghost function Run<T>(kind: Kind, q: Ring<T>, ins: seq<Input<T>>): (l: Log<T>)
    requires Valid(q) && q.count == 0
    ensures Valid(l.q) && |l.q.rf| == |q.rf|
  {
    if ins == [] then Log(q, [], [])
    else
      var l := Run(kind, q, ins[..|ins| - 1]);
      StepValid(kind, l.q, ins[|ins| - 1]);
      LogStep(kind, l, ins[|ins| - 1])
  }

  /** Over every run, from any empty queue of any capacity and for every handshake
      pattern: what came in since the last clear is what went out, followed by what
      is still held, which is never more than the capacity. */
  lemma {:induction false} RunIsFifo<T>(kind: Kind, q: Ring<T>, ins: seq<Input<T>>)
    requires Valid(q) && q.count == 0
    ensures var l := Run(kind, q, ins);
            l.recvd == l.sent + Contents(l.q) && |l.recvd| - |l.sent| <= |q.rf|
  {
    if ins != [] {
      var i := ins[|ins| - 1];
      RunIsFifo(kind, q, ins[..|ins| - 1]);
      var l := Run(kind, q, ins[..|ins| - 1]);
      if i.clear {
        StepValid(kind, l.q, i);
      } else {
        StepRefinesFifo(kind, l.q, i);
        FifoExtend(l.recvd, l.sent, Contents(l.q), Recvd(kind, l.q.count, |l.q.rf|, i),
                   Sent(kind, l.q, i), Contents(Next(kind, l.q, i)));
      }
    }
  }

  /** What the neighbours see next depends on nothing but how much is held: a queue is ready
      exactly while it is not full, or, if a pipe queue, popped; it offers exactly while it is
      not empty, or, if a bypass queue, pushed. */
  lemma HandshakesFollowFill<T>(kind: Kind, q: Ring<T>, ins: seq<Input<T>>, i: Input<T>)
    requires Valid(q) && q.count == 0
    ensures var l := Run(kind, q, ins);
            var held := |l.recvd| - |l.sent|;
            && (RecvRdy(kind, l.q.count, |l.q.rf|, i) <==> held < |q.rf| || (kind.Pipe? && i.sendRdy))
            && (SendVal(kind, l.q.count, i) <==> held > 0 || (kind.Bypass? && i.recvVal))
  {
    RunIsFifo(kind, q, ins);
  }

  /** The same for the one-entry queues. */
  datatype SlotLog<T> = SlotLog(q: Slot<T>, recvd: seq<T>, sent: seq<T>)

  ghost function SlotRun<T>(kind: Kind, q: Slot<T>, ins: seq<Input<T>>): SlotLog<T> {
    if ins == [] then SlotLog(q, [], [])
    else
      var l, i := SlotRun(kind, q, ins[..|ins| - 1]), ins[|ins| - 1];
      if i.clear then SlotLog(SlotNext(kind, l.q, i), [], [])
      else SlotLog(SlotNext(kind, l.q, i), l.recvd + Recvd(kind, SlotCount(l.q), 1, i), l.sent + SlotSent(kind, l.q, i))
  }

  lemma {:induction false} SlotRunIsFifo<T>(kind: Kind, q: Slot<T>, ins: seq<Input<T>>)
    requires !q.full
    ensures var l := SlotRun(kind, q, ins); l.recvd == l.sent + SlotContents(l.q)
  {
    if ins != [] {
      var i := ins[|ins| - 1];
      SlotRunIsFifo(kind, q, ins[..|ins| - 1]);
      var l := SlotRun(kind, q, ins[..|ins| - 1]);
      if !i.clear {
        SlotStepRefinesFifo(kind, l.q, i);
        FifoExtend(l.recvd, l.sent, SlotContents(l.q), Recvd(kind, SlotCount(l.q), 1, i),
                   SlotSent(kind, l.q, i), SlotContents(SlotNext(kind, l.q, i)));
      }
    }
  }

  // ---- the register-level queue ----

  /** NormalQueueRTL, NormalQueueWithClearRTL, PipeQueueRTL and BypassQueueRTL with at
      least two entries: a register file and three pointers, updated in place. */
  class RingQueue<T(0)> {
    const kind: Kind
    const rf: array<T>
    var head: nat
    var tail: nat
    var count: nat

    ghost function View(): Ring<T>
      reads this, rf
    {
      Ring(rf[..], head, tail, count)
    }

    constructor (kind: Kind, numEntries: nat)
      requires numEntries >= 2
      ensures Valid(View()) && Contents(View()) == []
      ensures rf.Length == numEntries && this.kind == kind && fresh(rf)
    {
      this.kind := kind;
      rf := new T[numEntries];
      head, tail, count := 0, 0, 0;
      new;
      assert |rf[..]| == numEntries;
    }

    /** One clock edge: the returned wires are the combinational outputs before it. */
    method Clock(i: Input<T>) returns (recvRdy: bool, sendVal: bool, sendMsg: T)
      requires Valid(View())
      modifies this, rf
      ensures recvRdy == RecvRdy(kind, old(count), rf.Length, i)
      ensures sendVal == SendVal(kind, old(count), i)
      ensures sendMsg == SendMsg(kind, old(View()), i)
      ensures View() == Next(kind, old(View()), i) && Valid(View())
      ensures !i.clear ==>
                old(Contents(View())) + (if i.recvVal && recvRdy then [i.recvMsg] else [])
                == (if sendVal && i.sendRdy then [sendMsg] else []) + Contents(View())
    {
      ghost var was := View();
      StepValid(kind, was, i);
      if !i.clear {
        StepRefinesFifo(kind, was, i);
      }
      recvRdy := count < rf.Length || (kind.Pipe? && i.sendRdy);
      sendVal := count > 0 || (kind.Bypass? && i.recvVal);
      sendMsg := if kind.Bypass? && count == 0 then i.recvMsg else rf[head];
      var recvXfer := i.recvVal && recvRdy;
      var sendXfer := sendVal && i.sendRdy;
      if recvXfer {
        rf[tail] := i.recvMsg;
      }
      if i.clear {
        head, tail, count := 0, 0, 0;
      } else {
        if recvXfer {
          tail := if tail < rf.Length - 1 then tail + 1 else 0;
        }
        if sendXfer {
          head := if head < rf.Length - 1 then head + 1 else 0;
        }
        if recvXfer && !sendXfer {
          count := count + 1;
        } else if !recvXfer && sendXfer {
          count := count - 1;
        }
      }
    }
  }

  // ---- a channel: a chain of normal queues ----

  predicate ChainValid<T>(c: seq<Ring<T>>) {
    forall k :: 0 <= k < |c| ==> Valid(c[k])
  }

  /** Everything in flight, oldest first: the last queue's contents lead. */
  function ChainContents<T>(c: seq<Ring<T>>): seq<T>
    requires ChainValid(c)
  {
    if c == [] then [] else ChainContents(c[1..]) + Contents(c[0])
  }

  predicate ChainRdy<T>(c: seq<Ring<T>>, i: Input<T>) {
    if c == [] then i.sendRdy else c[0].count < |c[0].rf|
  }

  /** What the first queue of a chain sees: its consumer is the rest of the chain. */
  function FirstInput<T>(c: seq<Ring<T>>, i: Input<T>): Input<T>
    requires c != []
  {
    Input(i.recvVal, i.recvMsg, ChainRdy(c[1..], i), i.clear)
  }

  /** What the rest of a chain sees: its producer is the first queue. */
  function RestInput<T>(c: seq<Ring<T>>, i: Input<T>): Input<T>
    requires c != [] && ChainValid(c)
  {
    Input(c[0].count > 0, c[0].rf[c[0].head], i.sendRdy, i.clear)
  }

  function ChainNext<T>(c: seq<Ring<T>>, i: Input<T>): (c': seq<Ring<T>>)
    requires ChainValid(c)
    ensures ChainValid(c') && |c'| == |c|
    decreases |c|
  {
    if c == [] then []
    else
      StepValid(Normal, c[0], FirstInput(c, i));
      [Next(Normal, c[0], FirstInput(c, i))] + ChainNext(c[1..], RestInput(c, i))
  }

  function ChainRecvd<T>(c: seq<Ring<T>>, i: Input<T>): seq<T> {
    if i.recvVal && ChainRdy(c, i) then [i.recvMsg] else []
  }

  function ChainSent<T>(c: seq<Ring<T>>, i: Input<T>): seq<T>
    requires ChainValid(c)
    decreases |c|
  {
    if c == [] then if i.recvVal && i.sendRdy then [i.recvMsg] else []
    else ChainSent(c[1..], RestInput(c, i))
  }

  /** A channel of any latency, latency 0 included, is one lossless FIFO. */
  lemma {:induction false} ChainStepRefinesFifo<T>(c: seq<Ring<T>>, i: Input<T>)
    requires ChainValid(c) && !i.clear
    ensures ChainContents(c) + ChainRecvd(c, i) == ChainSent(c, i) + ChainContents(ChainNext(c, i))
    decreases |c|
  {
    if c != [] {
      var q, rest := c[0], c[1..];
      var fi, ri := FirstInput(c, i), RestInput(c, i);
      ChainStepRefinesFifo(rest, ri);
      StepRefinesFifo(Normal, q, fi);
      ChainNextParts(c, i);
      Regroup(ChainContents(rest), Contents(q), ChainRecvd(c, i), ChainRecvd(rest, ri),
              Contents(Next(Normal, q, fi)), ChainSent(rest, ri), ChainContents(ChainNext(rest, ri)));
    }
  }

  lemma ChainNextParts<T>(c: seq<Ring<T>>, i: Input<T>)
    requires ChainValid(c) && c != []
    ensures var c' := ChainNext(c, i);
            c'[0] == Next(Normal, c[0], FirstInput(c, i)) && c'[1..] == ChainNext(c[1..], RestInput(c, i))
  {
  }

  lemma Regroup<T>(rest: seq<T>, q: seq<T>, recvd: seq<T>, mid: seq<T>, q': seq<T>, sent: seq<T>, rest': seq<T>)
    requires q + recvd == mid + q' && rest + mid == sent + rest'
    ensures (rest + q) + recvd == sent + (rest' + q')
  {
    calc {
      (rest + q) + recvd;
      rest + (q + recvd);
      rest + (mid + q');
      (rest + mid) + q';
      (sent + rest') + q';
      sent + (rest' + q');
    }
  }

  /** `recvd` starts with whatever the channel already held. */
  datatype ChainLog<T> = ChainLog(c: seq<Ring<T>>, recvd: seq<T>, sent: seq<T>)

  ghost function ChainRun<T>(c: seq<Ring<T>>, ins: seq<Input<T>>): (l: ChainLog<T>)
    requires ChainValid(c)
    ensures ChainValid(l.c) && |l.c| == |c|
  {
    if ins == [] then ChainLog(c, ChainContents(c), [])
    else
      var l := ChainRun(c, ins[..|ins| - 1]);
      var i := ins[|ins| - 1];
      if i.clear then ChainLog(ChainNext(l.c, i), [], [])
      else ChainLog(ChainNext(l.c, i), l.recvd + ChainRecvd(l.c, i), l.sent + ChainSent(l.c, i))
  }

  lemma {:induction false} ClearEmptiesChain<T>(c: seq<Ring<T>>, i: Input<T>)
    requires ChainValid(c) && i.clear
    ensures ChainContents(ChainNext(c, i)) == []
    decreases |c|
  {
    if c != [] {
      ClearEmptiesChain(c[1..], RestInput(c, i));
      StepValid(Normal, c[0], FirstInput(c, i));
      assert ChainNext(c, i)[1..] == ChainNext(c[1..], RestInput(c, i));
    }
  }

  /** Entries of all stages together. */
  function Capacity<T>(c: seq<Ring<T>>): nat {
    if c == [] then 0 else |c[0].rf| + Capacity(c[1..])
  }

  lemma {:induction false} CapacityKept<T>(c: seq<Ring<T>>, i: Input<T>)
    requires ChainValid(c)
    ensures Capacity(ChainNext(c, i)) == Capacity(c)
    decreases |c|
  {
    if c != [] {
      CapacityKept(c[1..], RestInput(c, i));
      ChainNextParts(c, i);
    }
  }

  lemma {:induction false} HeldBound<T>(c: seq<Ring<T>>)
    requires ChainValid(c)
    ensures |ChainContents(c)| <= Capacity(c)
  {
    if c != [] {
      HeldBound(c[1..]);
    }
  }

  lemma {:induction false} RunCapacity<T>(c: seq<Ring<T>>, ins: seq<Input<T>>)
    requires ChainValid(c)
    ensures Capacity(ChainRun(c, ins).c) == Capacity(c)
  {
    if ins != [] {
      RunCapacity(c, ins[..|ins| - 1]);
      CapacityKept(ChainRun(c, ins[..|ins| - 1]).c, ins[|ins| - 1]);
    }
  }

  /** Over every run a channel delivers what it took, in order, each message once, and holds
      no more than its stages together. */
  lemma ChainRunIsFifo<T>(c: seq<Ring<T>>, ins: seq<Input<T>>)
    requires ChainValid(c)
    ensures var l := ChainRun(c, ins);
            l.recvd == l.sent + ChainContents(l.c) && |l.recvd| - |l.sent| <= Capacity(c)
  {
    ChainKeepsOrder(c, ins);
    RunCapacity(c, ins);
    HeldBound(ChainRun(c, ins).c);
  }

  lemma {:induction false} ChainKeepsOrder<T>(c: seq<Ring<T>>, ins: seq<Input<T>>)
    requires ChainValid(c)
    ensures var l := ChainRun(c, ins); l.recvd == l.sent + ChainContents(l.c)
  {
    if ins != [] {
      var i := ins[|ins| - 1];
      ChainKeepsOrder(c, ins[..|ins| - 1]);
      var l := ChainRun(c, ins[..|ins| - 1]);
      if i.clear {
        ClearEmptiesChain(l.c, i);
      } else {
        ChainStepRefinesFifo(l.c, i);
        FifoExtend(l.recvd, l.sent, ChainContents(l.c), ChainRecvd(l.c, i),
                   ChainSent(l.c, i), ChainContents(ChainNext(l.c, i)));
      }
    }
  }

  // ---- progress: a channel whose consumer keeps taking drains ----

  /** Stages still to be crossed, summed over the messages in flight. */
  function Hops<T>(c: seq<Ring<T>>): nat {
    if c == [] then 0 else c[0].count * |c| + Hops(c[1..])
  }

  /** The first queue of a chain gains what the chain takes and loses what the rest takes. */
  lemma FirstCount<T>(c: seq<Ring<T>>, i: Input<T>)
    requires ChainValid(c) && c != [] && !i.clear
    ensures ChainNext(c, i)[0].count
            == c[0].count + |ChainRecvd(c, i)| - |ChainRecvd(c[1..], RestInput(c, i))|
  {
  }

  /** Gaining r and losing s at the first of `stages` stages; `restHops` and
      `restHops'` bound the rest, which takes the s as r. */
  lemma HopsMove(count: nat, r: nat, s: nat, stages: nat, restHops: nat, restHops': nat, moved: nat)
    requires s <= 1 && count + r >= s && 1 <= stages
    requires restHops' + moved <= restHops + s * (stages - 1)
    ensures (count + r - s) * stages + restHops' + moved + s <= count * stages + restHops + r * stages
  {
    assert (count + r - s) * stages == count * stages + r * stages - s * stages;
    assert s * (stages - 1) == s * stages - s;
  }

  lemma {:induction false} HopsDrop<T>(c: seq<Ring<T>>, i: Input<T>)
    requires ChainValid(c) && i.sendRdy && !i.clear
    ensures Hops(ChainNext(c, i)) + (if ChainContents(c) != [] then 1 else 0)
            <= Hops(c) + |ChainRecvd(c, i)| * |c|
    decreases |c|
  {
    if c != [] {
      var rest, ri := c[1..], RestInput(c, i);
      HopsDrop(rest, ri);
      ChainNextParts(c, i);
      FirstCount(c, i);
      var moved := if ChainContents(rest) != [] then 1 else 0;
      HopsMove(c[0].count, |ChainRecvd(c, i)|, |ChainRecvd(rest, ri)|, |c|,
               Hops(rest), Hops(ChainNext(rest, ri)), moved);
      if moved == 0 && c[0].count > 0 {
        EmptyChainIsReady(rest, ri);
      }
    }
  }

  lemma EmptyChainIsReady<T>(c: seq<Ring<T>>, i: Input<T>)
    requires ChainValid(c) && ChainContents(c) == [] && i.sendRdy
    ensures ChainRdy(c, i)
  {
    if c != [] {
      assert |Contents(c[0])| == 0;
    }
  }

  /** With nothing arriving and an always-ready consumer, `Hops` cycles deliver
      everything in flight, in order. */
  lemma {:induction false} ChannelDrains<T>(c: seq<Ring<T>>, idle: seq<Input<T>>)
    requires ChainValid(c) && |idle| >= Hops(c)
    requires forall i :: i in idle ==> !i.recvVal && i.sendRdy && !i.clear
    ensures ChainRun(c, idle).sent == ChainContents(c) && ChainContents(ChainRun(c, idle).c) == []
  {
    HopsRunOut(c, idle);
    ChainRunIsFifo(c, idle);
  }

  lemma {:induction false} HopsRunOut<T>(c: seq<Ring<T>>, idle: seq<Input<T>>)
    requires ChainValid(c)
    requires forall i :: i in idle ==> !i.recvVal && i.sendRdy && !i.clear
    ensures var l := ChainRun(c, idle);
            l.recvd == ChainContents(c) && (ChainContents(l.c) == [] || Hops(l.c) + |idle| <= Hops(c))
            && (ChainContents(l.c) != [] ==> Hops(l.c) > 0)
  {
    if idle == [] {
      HopsPositive(c);
    } else {
      var i := idle[|idle| - 1];
      assert i in idle;
      HopsRunOut(c, idle[..|idle| - 1]);
      var l := ChainRun(c, idle[..|idle| - 1]);
      HopsDrop(l.c, i);
      ChainStepRefinesFifo(l.c, i);
      HopsPositive(ChainNext(l.c, i));
    }
  }

  lemma {:induction false} HopsPositive<T>(c: seq<Ring<T>>)
    requires ChainValid(c)
    ensures ChainContents(c) != [] ==> Hops(c) > 0
  {
    if c != [] {
      HopsPositive(c[1..]);
      assert c[0].count > 0 ==> c[0].count * |c| > 0;
    }
  }
}
