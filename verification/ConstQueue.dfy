/** The constant queue (mem/const/ConstQueueDynamicRTL.py): constants are loaded once, then
    read round and round.  The reader may raise ready cycles before the control step it
    belongs to completes; `pending` remembers that until it does. */
module ConstQueue {
  import Arith

  /** Cursor types: `addr` values for the read cursor, `cur` for the write cursor. */
  datatype Widths = Widths(size: nat, addr: nat, cur: nat)

  predicate WidthsOk(w: Widths) {
    0 < w.size <= w.addr && w.size < w.cur && w.addr <= w.cur
  }

  datatype Queue<T> = Queue(mem: seq<T>, wr: nat, rd: nat, pending: bool)

  predicate QueueOk<T>(w: Widths, q: Queue<T>) {
    WidthsOk(w) && |q.mem| == w.addr && q.wr <= w.size && q.rd < w.addr
  }

  datatype Input<T> = Input(recvVal: bool, recvMsg: T, sendRdy: bool, proceed: bool, clear: bool)

  /** What the queue drives: the writer's ready, and the constant on offer. */
  datatype Output<T> = Output(recvRdy: bool, sendVal: bool, sendMsg: T)

  predicate RecvRdy<T>(w: Widths, q: Queue<T>) {
    q.wr < w.size
  }

  function Wires<T>(w: Widths, q: Queue<T>): Output<T>
    requires QueueOk(w, q)
  {
    Output(RecvRdy(w, q), q.rd < q.wr, q.mem[q.rd])
  }

  /** The owed consumption is retired by the completing step. */
  predicate Retires<T>(q: Queue<T>, i: Input<T>) {
    (q.pending || i.sendRdy) && i.proceed
  }

  /** The read cursor after a consumption; `wr - 1` is computed in the cursor's width. */
  function Advance<T>(w: Widths, q: Queue<T>): (rd: nat)
    requires QueueOk(w, q)
    ensures rd < w.addr
  {
    var last := if q.wr == 0 then w.cur - 1 else q.wr - 1;
    if q.rd < last then if q.rd + 1 == w.addr then 0 else q.rd + 1 else 0
  }

  function Next<T>(w: Widths, q: Queue<T>, i: Input<T>): (q': Queue<T>)
    requires QueueOk(w, q)
    ensures QueueOk(w, q')
  {
    var push := i.recvVal && RecvRdy(w, q);
    Queue(if push then q.mem[q.wr := i.recvMsg] else q.mem,
          if i.clear then 0 else if push then q.wr + 1 else q.wr,
          if i.clear then 0 else if Retires(q, i) then Advance(w, q) else q.rd,
          !i.clear && !Retires(q, i) && (q.pending || i.sendRdy))
  }

  ghost function Run<T>(w: Widths, q: Queue<T>, es: seq<Input<T>>): (q': Queue<T>)
    requires QueueOk(w, q)
    ensures QueueOk(w, q')
  {
    if es == [] then q else Next(w, Run(w, q, es[..|es| - 1]), es[|es| - 1])
  }

  // ---- loading ----

  function Loads<T>(xs: seq<T>, junk: seq<Input<T>>): seq<Input<T>>
    requires |junk| == |xs|
  {
    seq(|xs|, k requires 0 <= k < |xs| => Input(true, xs[k], false, junk[k].proceed, false))
  }

  /** Loading fills the queue in order, as far as it has room. */
  lemma {:induction false} LoadsInOrder<T>(w: Widths, q: Queue<T>, xs: seq<T>, junk: seq<Input<T>>)
    requires QueueOk(w, q) && q.wr == 0 && q.rd == 0 && !q.pending && |junk| == |xs|
    ensures var q' := Run(w, q, Loads(xs, junk));
            && q'.rd == 0 && !q'.pending && q'.wr == (if |xs| <= w.size then |xs| else w.size)
            && forall k :: 0 <= k < q'.wr ==> q'.mem[k] == xs[k]
  {
    if xs != [] {
      var n := |xs| - 1;
      LoadsInOrder(w, q, xs[..n], junk[..n]);
      assert Loads(xs, junk)[..n] == Loads(xs[..n], junk[..n]);
    }
  }

  // ---- reading ----

  /** Loaded: nothing more is written or cleared. */
  predicate Reading<T>(es: seq<Input<T>>) {
    forall t :: 0 <= t < |es| ==> !es[t].recvVal && !es[t].clear
  }

  /** Completed control steps. */
  function Steps<T>(es: seq<Input<T>>): nat {
    if es == [] then 0 else Steps(es[..|es| - 1]) + if es[|es| - 1].proceed then 1 else 0
  }

  /** The reader raised ready in the step that is still running. */
  predicate Asked<T>(es: seq<Input<T>>) {
    es != [] && !es[|es| - 1].proceed && (es[|es| - 1].sendRdy || Asked(es[..|es| - 1]))
  }

  /** Completed steps in which the reader raised ready at least once, in any cycle. */
  function Consumed<T>(es: seq<Input<T>>): nat {
    if es == [] then 0
    else
      var last := es[|es| - 1];
      Consumed(es[..|es| - 1]) + if last.proceed && (last.sendRdy || Asked(es[..|es| - 1])) then 1 else 0
  }

  lemma {:induction false} PendingIsAsked<T>(w: Widths, q: Queue<T>, es: seq<Input<T>>)
    requires QueueOk(w, q) && !q.pending && Reading(es)
    ensures Run(w, q, es).mem == q.mem && Run(w, q, es).wr == q.wr && (Run(w, q, es).pending <==> Asked(es))
  {
    if es != [] {
      PendingIsAsked(w, q, es[..|es| - 1]);
    }
  }

  /** The queue advances exactly once per consuming step, however early in the step the
      reader raised ready and however often. */
  lemma {:induction false} OneAdvancePerStep<T>(w: Widths, q: Queue<T>, es: seq<Input<T>>)
    requires QueueOk(w, q) && q.wr > 0 && q.rd == 0 && !q.pending && Reading(es)
    ensures Run(w, q, es).rd == Consumed(es) % q.wr
  {
    if es == [] {
      Arith.DivModUnique(0, q.wr, 0, 0);
    } else {
      var n := |es| - 1;
      PendingIsAsked(w, q, es[..n]);
      OneAdvancePerStep(w, q, es[..n]);
      AdvanceCounts(w, Run(w, q, es[..n]), Consumed(es[..n]), es[n]);
      assert Consumed(es) == if Retires(Run(w, q, es[..n]), es[n]) then Consumed(es[..n]) + 1 else Consumed(es[..n]);
    }
  }

  lemma AdvanceCounts<T>(w: Widths, q: Queue<T>, k: nat, i: Input<T>)
    requires QueueOk(w, q) && q.wr > 0 && q.rd == k % q.wr && !i.recvVal && !i.clear
    ensures Next(w, q, i).rd == (if Retires(q, i) then k + 1 else k) % q.wr
  {
    Arith.ModSucc(k, q.wr);
  }

  /** What the reader sees, throughout a step, is the constant number `Consumed` modulo the
      number loaded. */
  lemma Sees<T>(w: Widths, q: Queue<T>, es: seq<Input<T>>)
    requires QueueOk(w, q) && q.wr > 0 && q.rd == 0 && !q.pending && Reading(es)
    ensures Wires(w, Run(w, q, es)) == Output(RecvRdy(w, q), true, q.mem[Consumed(es) % q.wr])
  {
    PendingIsAsked(w, q, es);
    OneAdvancePerStep(w, q, es);
  }

  lemma {:induction false} RunAppends<T>(w: Widths, q: Queue<T>, us: seq<Input<T>>, es: seq<Input<T>>)
    requires QueueOk(w, q)
    ensures Run(w, q, us + es) == Run(w, Run(w, q, us), es)
    decreases |es|
  {
    if es == [] {
      assert us + es == us;
    } else {
      var n := |es| - 1;
      assert (us + es)[..|us| + n] == us + es[..n] && (us + es)[|us| + n] == es[n];
      RunAppends(w, q, us, es[..n]);
    }
  }

  /** From a clear on, whatever ran before it: the constants written next are kept as far as
      there is room, the writer is turned away once the queue is full, and the reader sees
      them round and round, one per consuming step. */
  lemma LoadedThenRead<T>(w: Widths, q: Queue<T>, c: Input<T>, xs: seq<T>, junk: seq<Input<T>>, es: seq<Input<T>>)
    requires QueueOk(w, q) && c.clear && |junk| == |xs| && Reading(es)
    ensures var o := Wires(w, Run(w, q, [c] + Loads(xs, junk) + es));
            var n := if |xs| <= w.size then |xs| else w.size;
            && (o.recvRdy <==> |xs| < w.size)
            && (n > 0 ==> o.sendVal && o.sendMsg == xs[Consumed(es) % n])
            && (n == 0 ==> !o.sendVal)
  {
    var q0 := Next(w, q, c);
    assert Run(w, q, [c]) == q0 by {
      assert Run(w, q, [c][..0]) == q;
    }
    RunAppends(w, q, [c], Loads(xs, junk));
    RunAppends(w, q, [c] + Loads(xs, junk), es);
    LoadsInOrder(w, q0, xs, junk);
    var q1 := Run(w, q0, Loads(xs, junk));
    PendingIsAsked(w, q1, es);
    if q1.wr > 0 {
      Sees(w, q1, es);
    }
  }

  /** Read before anything is loaded the queue walks off: its cursor counts the consuming
      steps through all addresses, and what is then loaded is read from there. */
  lemma {:induction false} ReadingEmptyWalksOff<T>(w: Widths, q: Queue<T>, es: seq<Input<T>>)
    requires QueueOk(w, q) && q.wr == 0 && q.rd == 0 && !q.pending && Reading(es)
    ensures Run(w, q, es).rd == Consumed(es) % w.addr && !Wires(w, Run(w, q, es)).sendVal
  {
    PendingIsAsked(w, q, es);
    if es == [] {
      Arith.DivModUnique(0, w.addr, 0, 0);
    } else {
      var n := |es| - 1;
      ReadingEmptyWalksOff(w, q, es[..n]);
      PendingIsAsked(w, q, es[..n]);
      Arith.ModSucc(Consumed(es[..n]), w.addr);
    }
  }

  // ---- the register-level queue ----

  class ConstQueueDynamicRTL<T> {
    const widths: Widths
    var regFile: seq<T>
    var wrCur: nat
    var rdCur: nat
    var consumePending: bool

    ghost function View(): Queue<T>
      reads this
    {
      Queue(regFile, wrCur, rdCur, consumePending)
    }

    ghost predicate Valid()
      reads this
    {
      QueueOk(widths, View())
    }

    constructor (w: Widths, blank: T)
      requires WidthsOk(w)
      ensures Valid() && widths == w && wrCur == 0 && rdCur == 0 && !consumePending
    {
      widths := w;
      regFile := seq(w.addr, _ => blank);
      wrCur, rdCur, consumePending := 0, 0, false;
    }

    /** One clock edge; `o` is what the queue drives in the cycle before it. */
    method Clock(i: Input<T>) returns (o: Output<T>)
      requires Valid()
      modifies this
      ensures Valid() && View() == Next(widths, old(View()), i)
      ensures o == Wires(widths, old(View()))
    {
      var notFull := wrCur < widths.size;
      o := Output(notFull, rdCur < wrCur, regFile[rdCur]);
      var last := if wrCur == 0 then widths.cur - 1 else wrCur - 1;
      if i.clear {
        rdCur, consumePending := 0, false;
      } else {
        var retire := (consumePending || i.sendRdy) && i.proceed;
        if retire {
          if rdCur < last {
            rdCur := if rdCur + 1 == widths.addr then 0 else rdCur + 1;
          } else {
            rdCur := 0;
          }
          consumePending := false;
        } else {
          consumePending := consumePending || i.sendRdy;
        }
      }
      if i.recvVal && notFull {
        regFile := regFile[wrCur := i.recvMsg];
      }
      if i.clear {
        wrCur := 0;
      } else if i.recvVal && notFull {
        wrCur := wrCur + 1;
      }
    }
  }
}
