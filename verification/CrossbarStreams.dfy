/** What leaves a crossbar, message by message, from the words and prologue limits alone: when
    a word maps output j to input i, past the prologue of i at the word's address, output j
    gets the message of input i whose number is how many words before this one have used
    input i past its prologue.  Every output mapped to i gets that same message.

    `DeliversExactly`: every run, under any handshake timing, delivers exactly these. */
module CrossbarStreams {
  import opened Crossbar
  import opened CrossbarProofs

  // ---- the reference ----

  /** Input i is mapped to some output. */
  predicate Maps(w: Word, i: nat) {
    exists j :: 0 <= j < |w.dirs| && w.dirs[j] == i + 1
  }

  /** Of the first k words, those at address a that map input i. */
  function Visits(ws: seq<Word>, k: nat, a: nat, i: nat): nat
    requires k <= |ws|
  {
    if k == 0 then 0 else Visits(ws, k - 1, a, i) + if ws[k - 1].addr == a && Maps(ws[k - 1], i) then 1 else 0
  }

  /** Word k is past the prologue of input i. */
  predicate Past(c: Config, ws: seq<Word>, k: nat, i: nat)
    requires ConfigOk(c) && WordsOk(c, ws) && k < |ws| && i < c.numIn
  {
    Visits(ws, k, ws[k].addr, i) >= c.limit[ws[k].addr][i]
  }

  /** Messages of input i that the first k words use up. */
  function Taken(c: Config, ws: seq<Word>, k: nat, i: nat): nat
    requires ConfigOk(c) && WordsOk(c, ws) && k <= |ws| && i < c.numIn
  {
    if k == 0 then 0 else Taken(c, ws, k - 1, i) + if Maps(ws[k - 1], i) && Past(c, ws, k - 1, i) then 1 else 0
  }

  /** There are as many. */
  predicate Enough<T>(c: Config, ws: seq<Word>, ins: seq<seq<T>>, k: nat)
    requires ConfigOk(c) && WordsOk(c, ws) && k <= |ws| && |ins| == c.numIn
  {
    forall i :: 0 <= i < c.numIn ==> Taken(c, ws, k, i) <= |ins[i]|
  }

  /** Word k asks for output j. */
  predicate Asks(c: Config, ws: seq<Word>, k: nat, j: nat)
    requires ConfigOk(c) && WordsOk(c, ws) && k < |ws| && j < c.numOut
  {
    ws[k].dirs[j] > 0 && Past(c, ws, k, ws[k].dirs[j] - 1)
  }

  /** Message n of an input, if there is one. */
  function Message<T>(s: seq<T>, n: nat): seq<T> {
    if n < |s| then [s[n]] else []
  }

  /** What word k carries to output j: the next message of the input it maps to j. */
  function Carries<T>(c: Config, ws: seq<Word>, ins: seq<seq<T>>, k: nat, j: nat): seq<T>
    requires ConfigOk(c) && WordsOk(c, ws) && |ins| == c.numIn && j < c.numOut && k < |ws|
  {
    if Asks(c, ws, k, j) then Message(ins[ws[k].dirs[j] - 1], Taken(c, ws, k, ws[k].dirs[j] - 1)) else []
  }

  /** What output j gets of the first k words, leaving out those that skip it. */
  function Gets<T>(c: Config, ws: seq<Word>, ins: seq<seq<T>>, skips: seq<seq<bool>>, k: nat, j: nat): seq<T>
    requires ConfigOk(c) && WordsOk(c, ws) && |ins| == c.numIn && j < c.numOut && k <= |skips| && k <= |ws|
    requires SkipsOk(c, skips)
  {
    if k == 0 then []
    else Gets(c, ws, ins, skips, k - 1, j) + if skips[k - 1][j] then [] else Carries(c, ws, ins, k - 1, j)
  }

  lemma GetsOneMore<T>(c: Config, ws: seq<Word>, ins: seq<seq<T>>, skips: seq<seq<bool>>, k: nat, j: nat)
    requires ConfigOk(c) && WordsOk(c, ws) && |ins| == c.numIn && j < c.numOut && k < |skips| && k < |ws|
    requires SkipsOk(c, skips)
    ensures Gets(c, ws, ins, skips, k + 1, j)
         == Gets(c, ws, ins, skips, k, j) + if skips[k][j] then [] else Carries(c, ws, ins, k, j)
  {
  }

  lemma EnoughBefore<T>(c: Config, ws: seq<Word>, ins: seq<seq<T>>, k: nat)
    requires ConfigOk(c) && WordsOk(c, ws) && k < |ws| && |ins| == c.numIn && Enough(c, ws, ins, k + 1)
    ensures Enough(c, ws, ins, k)
  {
    forall i | 0 <= i < c.numIn
      ensures Taken(c, ws, k, i) <= |ins[i]|
    {
      assert Taken(c, ws, k, i) <= Taken(c, ws, k + 1, i) <= |ins[i]|;
    }
  }

  /** The state that construction and clear leave behind. */
  predicate Cleared(c: Config, x: Xbar) {
    XbarOk(c, x) && Idle(x) && forall a, i :: 0 <= a < |c.limit| && 0 <= i < c.numIn ==> x.counter[a][i] == 0
  }

  lemma ClearStartsOver<T>(c: Config, x: Xbar, i: Input<T>)
    requires XbarOk(c, x) && InputOk(c, i) && i.clear
    ensures Cleared(c, Next(c, x, i))
  {
  }

  // ---- the timing-free execution computes it ----

  /** The machine after k words. */
  ghost predicate After<T>(c: Config, m: Machine<T>, ws: seq<Word>, k: nat, m': Machine<T>)
    requires MachineOk(c, m) && MachineOk(c, m') && WordsOk(c, ws) && k <= |ws| && Enough(c, ws, m.ins, k)
  {
    && (forall a, i :: 0 <= a < |c.limit| && 0 <= i < c.numIn ==>
          m'.counter[a][i] == Min(Visits(ws, k, a, i), c.limit[a][i]))
    && forall i :: 0 <= i < c.numIn ==> m'.ins[i] == m.ins[i][Taken(c, ws, k, i)..]
  }

  lemma FireStep<T>(c: Config, m: Machine<T>, ws: seq<Word>, k: nat, m': Machine<T>)
    requires MachineOk(c, m) && MachineOk(c, m') && WordsOk(c, ws) && k < |ws| && Enough(c, ws, m.ins, k + 1)
    requires Enough(c, ws, m.ins, k) && After(c, m, ws, k, m')
    ensures After(c, m, ws, k + 1, Fire(c, m', ws[k]))
  {
    var w, next := ws[k], Fire(c, m', ws[k]);
    forall a, i | 0 <= a < |c.limit| && 0 <= i < c.numIn
      ensures next.counter[a][i] == Min(Visits(ws, k + 1, a, i), c.limit[a][i])
    {
      assert Uses(w, i) <==> Maps(w, i);
    }
    forall i | 0 <= i < c.numIn
      ensures next.ins[i] == m.ins[i][Taken(c, ws, k + 1, i)..]
    {
      TakesOne(c, m, ws, k, m', i);
    }
  }

  lemma TakesOne<T>(c: Config, m: Machine<T>, ws: seq<Word>, k: nat, m': Machine<T>, i: nat)
    requires MachineOk(c, m) && MachineOk(c, m') && WordsOk(c, ws) && k < |ws| && Enough(c, ws, m.ins, k + 1)
    requires Enough(c, ws, m.ins, k) && After(c, m, ws, k, m') && i < c.numIn
    ensures Needs(c, m'.counter, ws[k], i) <==> Maps(ws[k], i) && Past(c, ws, k, i)
    ensures Fire(c, m', ws[k]).ins[i] == m.ins[i][Taken(c, ws, k + 1, i)..]
  {
    assert Uses(ws[k], i) <==> Maps(ws[k], i);
    NeedsIsUsePastPrologue(c, m'.counter, ws[k], i);
    assert Taken(c, ws, k + 1, i) <= |m.ins[i]|;
  }

  /** What word k gives output j. */
  lemma GivesCarried<T>(c: Config, m: Machine<T>, ws: seq<Word>, k: nat, m': Machine<T>, j: nat)
    requires MachineOk(c, m) && MachineOk(c, m') && WordsOk(c, ws) && k < |ws| && Enough(c, ws, m.ins, k + 1)
    requires Enough(c, ws, m.ins, k) && After(c, m, ws, k, m') && j < c.numOut
    ensures Gives(c, m', ws[k], j) == Carries(c, ws, m.ins, k, j)
  {
    if ws[k].dirs[j] > 0 {
      var i := ws[k].dirs[j] - 1;
      assert m'.counter[ws[k].addr][i] == Min(Visits(ws, k, ws[k].addr, i), c.limit[ws[k].addr][i]);
      assert m'.ins[i] == m.ins[i][Taken(c, ws, k, i)..];
      assert Maps(ws[k], i) && Taken(c, ws, k + 1, i) <= |m.ins[i]|;
    }
  }

  /** Whether a machine with fresh counters can execute the first k of these words. */
  datatype Standing = Fit | Unfit

  ghost function StandingOf<T>(c: Config, m: Machine<T>, ws: seq<Word>, k: nat): Standing {
    if && MachineOk(c, m) && WordsOk(c, ws) && k <= |ws| && Enough(c, ws, m.ins, k)
       && forall a, i :: 0 <= a < |c.limit| && 0 <= i < c.numIn ==> m.counter[a][i] == 0
    then Fit else Unfit
  }

  lemma FitBefore<T>(c: Config, m: Machine<T>, ws: seq<Word>, k: nat)
    requires StandingOf(c, m, ws, k + 1) == Fit
    ensures StandingOf(c, m, ws, k) == Fit
  {
    EnoughBefore(c, ws, m.ins, k);
  }

  lemma FitPrefix<T>(c: Config, m: Machine<T>, ws: seq<Word>, k: nat)
    requires StandingOf(c, m, ws, k) == Fit
    ensures MachineOk(c, m) && WordsOk(c, ws) && WordsOk(c, ws[..k]) && k <= |ws| && Enough(c, ws, m.ins, k)
  {
  }

  /** `After`, of the machine that has executed the first k words. */
  ghost function Executed<T>(c: Config, m: Machine<T>, ws: seq<Word>, k: nat): Standing {
    if && StandingOf(c, m, ws, k) == Fit && k <= |ws| && WordsOk(c, ws[..k])
       && After(c, m, ws, k, FireAll(c, m, ws[..k]))
    then Fit else Unfit
  }

  lemma FirstExecuted<T>(c: Config, m: Machine<T>, ws: seq<Word>)
    requires StandingOf(c, m, ws, 0) == Fit
    ensures Executed(c, m, ws, 0) == Fit
  {
  }

  lemma ExecutedStep<T>(c: Config, m: Machine<T>, ws: seq<Word>, k: nat)
    requires StandingOf(c, m, ws, k + 1) == Fit && Executed(c, m, ws, k) == Fit
    ensures Executed(c, m, ws, k + 1) == Fit
  {
    FireStep(c, m, ws, k, FireAll(c, m, ws[..k]));
    assert ws[..k + 1][..k] == ws[..k];
  }

  lemma {:induction false} FireAllIs<T>(c: Config, m: Machine<T>, ws: seq<Word>, k: nat)
    requires StandingOf(c, m, ws, k) == Fit
    ensures Executed(c, m, ws, k) == Fit
  {
    if k == 0 {
      FirstExecuted(c, m, ws);
    } else {
      FitBefore(c, m, ws, k - 1);
      FireAllIs(c, m, ws, k - 1);
      ExecutedStep(c, m, ws, k - 1);
    }
  }

  /** Output j's stream of the first k words is what it gets of them. */
  ghost function StreamOk<T>(c: Config, m: Machine<T>, ws: seq<Word>, skips: seq<seq<bool>>, k: nat, j: nat): Standing {
    if && StandingOf(c, m, ws, k) == Fit && k <= |ws| && WordsOk(c, ws[..k]) && k <= |skips| && SkipsOk(c, skips)
       && j < c.numOut && StreamOf(c, m, ws[..k], skips[..k], j) == Gets(c, ws, m.ins, skips, k, j)
    then Fit else Unfit
  }

  lemma StreamStarts<T>(c: Config, m: Machine<T>, ws: seq<Word>, skips: seq<seq<bool>>, j: nat)
    requires StandingOf(c, m, ws, 0) == Fit && SkipsOk(c, skips) && j < c.numOut
    ensures StreamOk(c, m, ws, skips, 0, j) == Fit
  {
  }

  lemma StreamStep<T>(c: Config, m: Machine<T>, ws: seq<Word>, skips: seq<seq<bool>>, k: nat, j: nat)
    requires StandingOf(c, m, ws, k + 1) == Fit && k < |skips| && StreamOk(c, m, ws, skips, k, j) == Fit
    ensures StreamOk(c, m, ws, skips, k + 1, j) == Fit
  {
    FitPrefix(c, m, ws, k + 1);
    StreamOneMore(c, m, ws, skips, k, j);
    FiredGives(c, m, ws, k, j);
    GetsOneMore(c, ws, m.ins, skips, k, j);
  }

  lemma {:induction false} StreamIs<T>(c: Config, m: Machine<T>, ws: seq<Word>, skips: seq<seq<bool>>, k: nat, j: nat)
    requires StandingOf(c, m, ws, k) == Fit && k <= |skips| && SkipsOk(c, skips) && j < c.numOut
    ensures StreamOk(c, m, ws, skips, k, j) == Fit
  {
    if k == 0 {
      StreamStarts(c, m, ws, skips, j);
    } else {
      FitBefore(c, m, ws, k - 1);
      StreamIs(c, m, ws, skips, k - 1, j);
      StreamStep(c, m, ws, skips, k - 1, j);
    }
  }

  lemma FiredGives<T>(c: Config, m: Machine<T>, ws: seq<Word>, k: nat, j: nat)
    requires StandingOf(c, m, ws, k + 1) == Fit && j < c.numOut
    ensures k < |ws| && MachineOk(c, m) && WordsOk(c, ws) && WordsOk(c, ws[..k])
    ensures Gives(c, FireAll(c, m, ws[..k]), ws[k], j) == Carries(c, ws, m.ins, k, j)
  {
    FitBefore(c, m, ws, k);
    FireAllIs(c, m, ws, k);
    GivesCarried(c, m, ws, k, FireAll(c, m, ws[..k]), j);
  }

  lemma StreamOneMore<T>(c: Config, m: Machine<T>, ws: seq<Word>, skips: seq<seq<bool>>, k: nat, j: nat)
    requires MachineOk(c, m) && WordsOk(c, ws) && k < |ws| && k < |skips| && SkipsOk(c, skips) && j < c.numOut
    ensures StreamOf(c, m, ws[..k + 1], skips[..k + 1], j)
      == StreamOf(c, m, ws[..k], skips[..k], j)
         + if skips[k][j] then [] else Gives(c, FireAll(c, m, ws[..k]), ws[k], j)
  {
    var w, s := ws[..k + 1], skips[..k + 1];
    assert w[..k] == ws[..k] && s[..k] == skips[..k] && w[k] == ws[k] && s[k] == skips[k];
  }

  // ---- every run ----

  /** A run never uses up more than there is: an input is dequeued only when it is valid. */
  lemma {:induction false} EnoughInRun<T>(c: Config, ws: seq<Word>, s: Sys<T>, es: seq<Timing<T>>)
    requires SysOk(c, ws, s) && s.fired == 0 && Cleared(c, s.x) && TimingsOk(c, ws, s, es)
    ensures Enough(c, ws, s.ins, Run(c, ws, s, es).fired)
    ensures After(c, Start(s), ws, Run(c, ws, s, es).fired, FireAll(c, Start(s), ws[..Run(c, ws, s, es).fired]))
    ensures Run(c, ws, s, es).ins == FireAll(c, Start(s), ws[..Run(c, ws, s, es).fired]).ins
    ensures Run(c, ws, s, es).x.counter == FireAll(c, Start(s), ws[..Run(c, ws, s, es).fired]).counter
  {
    LatencyInsensitive(c, ws, s, es);
    if es != [] {
      var n := |es| - 1;
      var mid := Run(c, ws, s, es[..n]);
      EnoughInRun(c, ws, s, es[..n]);
      CompletesStep(c, ws, s, es);
      if Completes(c, ws, mid, es[n]) {
        EnoughForOne(c, ws, s, mid, es[n]);
      }
    }
    FireAllIs(c, Start(s), ws, Run(c, ws, s, es).fired);
  }

  lemma EnoughForOne<T>(c: Config, ws: seq<Word>, s: Sys<T>, mid: Sys<T>, e: Timing<T>)
    requires SysOk(c, ws, s) && SysOk(c, ws, mid) && TimingOk(c, ws, mid, e) && Completes(c, ws, mid, e)
    requires Enough(c, ws, s.ins, mid.fired) && mid.fired < |ws|
    requires After(c, Start(s), ws, mid.fired, Machine(mid.ins, mid.outs, mid.x.counter))
    ensures Enough(c, ws, s.ins, mid.fired + 1)
  {
    var k := mid.fired;
    forall i | 0 <= i < c.numIn
      ensures Taken(c, ws, k + 1, i) <= |s.ins[i]|
    {
      assert mid.ins[i] == s.ins[i][Taken(c, ws, k, i)..];
      if Maps(ws[k], i) && Past(c, ws, k, i) {
        var j :| 0 <= j < |ws[k].dirs| && ws[k].dirs[j] == i + 1;
        assert mid.x.counter[ws[k].addr][i] == Min(Visits(ws, k, ws[k].addr, i), c.limit[ws[k].addr][i]);
        assert e.inVal[ws[k].dirs[j] - 1];
      }
    }
  }

  /** Every run, under any handshake timing, from a cleared crossbar: with k words completed,
      each input has lost exactly the messages those words use up, and each output has
      exactly the messages they carry to it, in order, each once, except where a word skipped
      it; a word under way may have served some of its outputs already. */
  lemma DeliversExactly<T>(c: Config, ws: seq<Word>, s: Sys<T>, es: seq<Timing<T>>, j: nat)
    requires SysOk(c, ws, s) && s.fired == 0 && Cleared(c, s.x) && TimingsOk(c, ws, s, es) && j < c.numOut
    ensures var s', k := Run(c, ws, s, es), Run(c, ws, s, es).fired;
            && Enough(c, ws, s.ins, k) && |Skips(c, ws, s, es)| == k
            && (forall i :: 0 <= i < c.numIn ==> s'.ins[i] == s.ins[i][Taken(c, ws, k, i)..])
            && s'.outs[j] == s.outs[j] + Gets(c, ws, s.ins, Skips(c, ws, s, es), k, j) + UnderWay(c, ws, s', j)
  {
    LatencyInsensitive(c, ws, s, es);
    EnoughInRun(c, ws, s, es);
    var k, skips := Run(c, ws, s, es).fired, Skips(c, ws, s, es);
    StreamIs(c, Start(s), ws, skips, k, j);
    assert skips[..k] == skips;
  }

  /** What the word under way has given output j already: the head of its input. */
  function UnderWay<T>(c: Config, ws: seq<Word>, s: Sys<T>, j: nat): seq<T>
    requires SysOk(c, ws, s) && j < c.numOut
  {
    if s.x.accepted[j] && s.fired < |ws| && ws[s.fired].dirs[j] > 0 && s.ins[ws[s.fired].dirs[j] - 1] != []
    then [s.ins[ws[s.fired].dirs[j] - 1][0]] else []
  }

  /** Multicast: outputs that every word maps to the same input get the same messages. */
  lemma MulticastIsSame<T>(c: Config, ws: seq<Word>, s: Sys<T>, es: seq<Timing<T>>, j: nat, q: nat)
    requires SysOk(c, ws, s) && s.fired == 0 && Cleared(c, s.x) && TimingsOk(c, ws, s, es)
    requires j < c.numOut && q < c.numOut && s.outs[j] == s.outs[q] == []
    requires forall k :: 0 <= k < |ws| ==> ws[k].dirs[j] == ws[k].dirs[q]
    requires (j < c.fuBase && q < c.fuBase) || forall t :: 0 <= t < |es| ==> !es[t].computeDone
    requires Idle(Run(c, ws, s, es).x)
    ensures Run(c, ws, s, es).outs[j] == Run(c, ws, s, es).outs[q]
  {
    var k, skips := Run(c, ws, s, es).fired, Skips(c, ws, s, es);
    DeliversExactly(c, ws, s, es, j);
    DeliversExactly(c, ws, s, es, q);
    NeverSkipped(c, ws, s, es, j);
    NeverSkipped(c, ws, s, es, q);
    SameGets(c, ws, s.ins, skips, k, j, q);
  }

  lemma SameCarries<T>(c: Config, ws: seq<Word>, ins: seq<seq<T>>, k: nat, j: nat, q: nat)
    requires ConfigOk(c) && WordsOk(c, ws) && |ins| == c.numIn && j < c.numOut && q < c.numOut
    requires k < |ws| && ws[k].dirs[j] == ws[k].dirs[q]
    ensures Carries(c, ws, ins, k, j) == Carries(c, ws, ins, k, q)
  {
    assert Asks(c, ws, k, j) <==> Asks(c, ws, k, q);
  }

  lemma SameOneMore<T>(c: Config, ws: seq<Word>, ins: seq<seq<T>>, skips: seq<seq<bool>>, k: nat, j: nat, q: nat)
    requires ConfigOk(c) && WordsOk(c, ws) && |ins| == c.numIn && j < c.numOut && q < c.numOut
    requires k < |skips| && k < |ws| && SkipsOk(c, skips) && ws[k].dirs[j] == ws[k].dirs[q]
    requires skips[k][j] == skips[k][q] && Gets(c, ws, ins, skips, k, j) == Gets(c, ws, ins, skips, k, q)
    ensures Gets(c, ws, ins, skips, k + 1, j) == Gets(c, ws, ins, skips, k + 1, q)
  {
    SameCarries(c, ws, ins, k, j, q);
    GetsOneMore(c, ws, ins, skips, k, j);
    GetsOneMore(c, ws, ins, skips, k, q);
  }

  /** Two outputs that every word maps to the same input, and none of the words skips. */
  ghost function Twins(c: Config, ws: seq<Word>, skips: seq<seq<bool>>, j: nat, q: nat): Standing {
    if && ConfigOk(c) && WordsOk(c, ws) && SkipsOk(c, skips) && j < c.numOut && q < c.numOut
       && (forall n :: 0 <= n < |ws| ==> ws[n].dirs[j] == ws[n].dirs[q])
       && forall n :: 0 <= n < |skips| ==> !skips[n][j] && !skips[n][q]
    then Fit else Unfit
  }

  lemma {:induction false} SameGets<T>(c: Config, ws: seq<Word>, ins: seq<seq<T>>, skips: seq<seq<bool>>,
                                       k: nat, j: nat, q: nat)
    requires Twins(c, ws, skips, j, q) == Fit && |ins| == c.numIn && k <= |skips| && k <= |ws|
    ensures ConfigOk(c) && WordsOk(c, ws) && SkipsOk(c, skips) && j < c.numOut && q < c.numOut
    ensures Gets(c, ws, ins, skips, k, j) == Gets(c, ws, ins, skips, k, q)
  {
    if k > 0 {
      SameGets(c, ws, ins, skips, k - 1, j, q);
      SameOneMore(c, ws, ins, skips, k - 1, j, q);
    }
  }

  // ---- when a word completes, and whom it skips ----

  /** Output j waits for the head of its input: it is mapped past the input's prologue. */
  predicate Wants(c: Config, x: Xbar, w: Word, j: nat)
    requires XbarOk(c, x) && WordOk(c, w) && j < c.numOut
  {
    w.dirs[j] > 0 && x.counter[w.addr][w.dirs[j] - 1] >= c.limit[w.addr][w.dirs[j] - 1]
  }

  /** A word completes exactly when every output that wants a message finds one, and has it, is
      ready for it, or faces an FU that is done. */
  lemma CompletesExactly<T>(c: Config, x: Xbar, i: Input<T>)
    requires XbarOk(c, x) && InputOk(c, i)
    ensures Fires(c, x, i) <==>
              && i.optVal && !i.word.start
              && forall j :: 0 <= j < c.numOut && Wants(c, x, i.word, j) ==>
                   && i.inVal[i.word.dirs[j] - 1]
                   && (x.accepted[j] || i.outRdy[j] || (i.computeDone && c.fuBase <= j))
  {
  }

  /** An output is offered its message exactly while all messages the word needs are there and
      it has not got it. */
  lemma OffersExactly<T>(c: Config, x: Xbar, i: Input<T>, j: nat)
    requires XbarOk(c, x) && InputOk(c, i) && j < c.numOut
    ensures SendVal(c, x, i, j) <==>
              && i.optVal && !i.word.start && Wants(c, x, i.word, j) && !x.accepted[j]
              && forall q :: 0 <= q < c.numOut && Wants(c, x, i.word, q) ==> i.inVal[i.word.dirs[q] - 1]
    ensures SendVal(c, x, i, j) ==> SendMsg(c, x, i, j) == i.inMsg[i.word.dirs[j] - 1]
  {
  }

  /** With the FU not done, a completed word has given every output that wants one the head of
      its input. */
  lemma ServesAll<T>(c: Config, ws: seq<Word>, s: Sys<T>, e: Timing<T>, m: Machine<T>, j: nat)
    requires SysOk(c, ws, s) && MachineOk(c, m) && TimingOk(c, ws, s, e) && Refines(c, ws, s, m) && j < c.numOut
    requires Completes(c, ws, s, e) && !e.computeDone && Wants(c, s.x, ws[s.fired], j)
    ensures s.ins[ws[s.fired].dirs[j] - 1] != []
    ensures Cycle(c, ws, s, e).outs[j] == m.outs[j] + [s.ins[ws[s.fired].dirs[j] - 1][0]]
  {
    CycleRefines(c, ws, s, e, m);
    FiringOut(c, ws, s, e, m, j);
    ServedUnlessExempt(c, s.x, Wires(c, ws, s, e), j);
    FiringIn(c, ws, s, e, m, ws[s.fired].dirs[j] - 1);
  }
}
