/** What the crossbar guarantees: every clocked run is the timing-free execution of its
    words, with exactly the deliveries left out that the FU-done exemption skipped; and its
    prologue counters account for every pass. */
module CrossbarProofs {
  import opened Crossbar

  // ---- deliveries that were skipped ----

  /** Outputs the word under way asks for and that are not served when this cycle ends. */
  function Unserved<T>(c: Config, x: Xbar, i: Input<T>): (r: seq<bool>)
    requires XbarOk(c, x) && InputOk(c, i)
    ensures |r| == c.numOut
  {
    seq(c.numOut, j requires 0 <= j < c.numOut =>
      Required(c, x.counter, i.word, j) && !x.accepted[j] && !Delivers(c, x, i, j))
  }

  /** Skipped outputs get nothing; all else is as in `Fire`. */
  function FireExcept<T>(c: Config, m: Machine<T>, w: Word, skip: seq<bool>): (m': Machine<T>)
    requires MachineOk(c, m) && WordOk(c, w) && |skip| == c.numOut
    ensures MachineOk(c, m')
  {
    var full := Fire(c, m, w);
    full.(outs := seq(c.numOut, j requires 0 <= j < c.numOut => if skip[j] then m.outs[j] else full.outs[j]))
  }

  ghost predicate SkipsOk(c: Config, skips: seq<seq<bool>>) {
    forall k :: 0 <= k < |skips| ==> |skips[k]| == c.numOut
  }

  ghost function FireAllExcept<T>(c: Config, m: Machine<T>, ws: seq<Word>, skips: seq<seq<bool>>): (m': Machine<T>)
    requires MachineOk(c, m) && WordsOk(c, ws) && |skips| == |ws| && SkipsOk(c, skips)
    ensures MachineOk(c, m')
  {
    if ws == [] then m
    else FireExcept(c, FireAllExcept(c, m, ws[..|ws| - 1], skips[..|ws| - 1]), ws[|ws| - 1], skips[|ws| - 1])
  }

  /** The messages that a word gives output j. */
  function Gives<T>(c: Config, m: Machine<T>, w: Word, j: nat): seq<T>
    requires MachineOk(c, m) && WordOk(c, w) && j < c.numOut
  {
    if Required(c, m.counter, w, j) && m.ins[w.dirs[j] - 1] != [] then [m.ins[w.dirs[j] - 1][0]] else []
  }

  /** What the timing-free execution gives output j, without the words that skipped it. */
  ghost function StreamOf<T>(c: Config, m: Machine<T>, ws: seq<Word>, skips: seq<seq<bool>>, j: nat): seq<T>
    requires MachineOk(c, m) && WordsOk(c, ws) && |skips| == |ws| && SkipsOk(c, skips) && j < c.numOut
  {
    if ws == [] then []
    else
      var n := |ws| - 1;
      StreamOf(c, m, ws[..n], skips[..n], j)
        + if skips[n][j] then [] else Gives(c, FireAll(c, m, ws[..n]), ws[n], j)
  }

  /** Skipping changes what an output gets, and nothing else. */
  lemma {:induction false} ExceptIs<T>(c: Config, m: Machine<T>, ws: seq<Word>, skips: seq<seq<bool>>, j: nat)
    requires MachineOk(c, m) && WordsOk(c, ws) && |skips| == |ws| && SkipsOk(c, skips) && j < c.numOut
    ensures var e, f := FireAllExcept(c, m, ws, skips), FireAll(c, m, ws);
            && e.ins == f.ins && e.counter == f.counter
            && e.outs[j] == m.outs[j] + StreamOf(c, m, ws, skips, j)
  {
    if ws != [] {
      var n := |ws| - 1;
      ExceptIs(c, m, ws[..n], skips[..n], j);
      var e, f := FireAllExcept(c, m, ws[..n], skips[..n]), FireAll(c, m, ws[..n]);
      assert FireExcept(c, e, ws[n], skips[n]).outs[j] == e.outs[j] + if skips[n][j] then [] else Gives(c, f, ws[n], j);
    }
  }

  /** An output that no word skipped gets all of it. */
  lemma {:induction false} NothingSkipped<T>(c: Config, m: Machine<T>, ws: seq<Word>, skips: seq<seq<bool>>, j: nat)
    requires MachineOk(c, m) && WordsOk(c, ws) && |skips| == |ws| && SkipsOk(c, skips) && j < c.numOut
    requires forall k :: 0 <= k < |skips| ==> !skips[k][j]
    ensures FireAllExcept(c, m, ws, skips).outs[j] == FireAll(c, m, ws).outs[j]
  {
    if ws != [] {
      var n := |ws| - 1;
      NothingSkipped(c, m, ws[..n], skips[..n], j);
      ExceptIs(c, m, ws[..n], skips[..n], j);
    }
  }

  // ---- one cycle ----

  /** The head an output has already taken for the word under way. */
  function Pending<T>(c: Config, ws: seq<Word>, s: Sys<T>, j: nat): seq<T>
    requires SysOk(c, ws, s) && j < c.numOut
    requires s.x.accepted[j] ==> s.fired < |ws| && ws[s.fired].dirs[j] > 0 && s.ins[ws[s.fired].dirs[j] - 1] != []
  {
    if s.x.accepted[j] then [s.ins[ws[s.fired].dirs[j] - 1][0]] else []
  }

  ghost predicate AcceptedOk<T>(c: Config, ws: seq<Word>, s: Sys<T>)
    requires SysOk(c, ws, s)
  {
    forall j :: 0 <= j < c.numOut && s.x.accepted[j] ==>
      s.fired < |ws| && Required(c, s.x.counter, ws[s.fired], j) && s.ins[ws[s.fired].dirs[j] - 1] != []
  }

  /** The clocked system stands for machine m: same inputs and counters, and each
      output has m's stream plus the current head if it was already served. */
  ghost predicate Refines<T>(c: Config, ws: seq<Word>, s: Sys<T>, m: Machine<T>)
    requires SysOk(c, ws, s) && MachineOk(c, m)
  {
    && s.ins == m.ins && s.x.counter == m.counter && AcceptedOk(c, ws, s)
    && (forall j :: 0 <= j < c.numOut ==> s.outs[j] == m.outs[j] + Pending(c, ws, s, j))
  }

  predicate Completes<T>(c: Config, ws: seq<Word>, s: Sys<T>, e: Timing<T>)
    requires SysOk(c, ws, s) && TimingOk(c, ws, s, e)
  {
    e.optVal && Fires(c, s.x, Wires(c, ws, s, e))
  }

  lemma CycleRefines<T>(c: Config, ws: seq<Word>, s: Sys<T>, e: Timing<T>, m: Machine<T>)
    requires SysOk(c, ws, s) && MachineOk(c, m) && TimingOk(c, ws, s, e) && Refines(c, ws, s, m)
    ensures Refines(c, ws, Cycle(c, ws, s, e),
              if Completes(c, ws, s, e) then FireExcept(c, m, ws[s.fired], Unserved(c, s.x, Wires(c, ws, s, e))) else m)
  {
    if e.optVal {
      if Fires(c, s.x, Wires(c, ws, s, e)) {
        FiringCycle(c, ws, s, e, m);
      } else {
        WaitingCycle(c, ws, s, e, m);
      }
    }
  }

  lemma WaitingCycle<T>(c: Config, ws: seq<Word>, s: Sys<T>, e: Timing<T>, m: Machine<T>)
    requires SysOk(c, ws, s) && MachineOk(c, m) && TimingOk(c, ws, s, e) && Refines(c, ws, s, m)
    requires e.optVal && !Fires(c, s.x, Wires(c, ws, s, e))
    ensures Refines(c, ws, Cycle(c, ws, s, e), m)
  {
    WaitingKeeps(c, ws, s, e);
    var s' := Cycle(c, ws, s, e);
    forall j | 0 <= j < c.numOut ensures WaitingOut(c, ws, s, s', m, j) {
      WaitingOutput(c, ws, s, e, m, j);
    }
    forall j | 0 <= j < c.numOut && s'.x.accepted[j]
      ensures s.fired < |ws| && Required(c, s.x.counter, ws[s.fired], j) && s.ins[ws[s.fired].dirs[j] - 1] != []
    {
      assert WaitingOut(c, ws, s, s', m, j);
    }
    forall j | 0 <= j < c.numOut ensures s'.outs[j] == m.outs[j] + Pending(c, ws, s', j) {
      assert WaitingOut(c, ws, s, s', m, j);
    }
  }

  lemma WaitingKeeps<T>(c: Config, ws: seq<Word>, s: Sys<T>, e: Timing<T>)
    requires SysOk(c, ws, s) && TimingOk(c, ws, s, e) && e.optVal && !Fires(c, s.x, Wires(c, ws, s, e))
    ensures var s' := Cycle(c, ws, s, e);
            s'.fired == s.fired && s'.ins == s.ins && s'.x.counter == s.x.counter
  {
  }

  /** What `Refines` says of output j while word `s.fired` waits. */
  ghost predicate WaitingOut<T>(c: Config, ws: seq<Word>, s: Sys<T>, s': Sys<T>, m: Machine<T>, j: nat)
    requires SysOk(c, ws, s) && SysOk(c, ws, s') && MachineOk(c, m) && s.fired < |ws|
    requires s.x.counter == m.counter && j < c.numOut
  {
    && (s'.x.accepted[j] ==> Required(c, m.counter, ws[s.fired], j) && s.ins[ws[s.fired].dirs[j] - 1] != [])
    && s'.outs[j] == m.outs[j] + if s'.x.accepted[j] then [s.ins[ws[s.fired].dirs[j] - 1][0]] else []
  }

  lemma WaitingOutput<T>(c: Config, ws: seq<Word>, s: Sys<T>, e: Timing<T>, m: Machine<T>, j: nat)
    requires SysOk(c, ws, s) && MachineOk(c, m) && TimingOk(c, ws, s, e) && Refines(c, ws, s, m)
    requires e.optVal && !Fires(c, s.x, Wires(c, ws, s, e)) && j < c.numOut
    ensures WaitingOut(c, ws, s, Cycle(c, ws, s, e), m, j)
  {
    assert s.outs[j] == m.outs[j] + Pending(c, ws, s, j);
  }

  lemma FiringCycle<T>(c: Config, ws: seq<Word>, s: Sys<T>, e: Timing<T>, m: Machine<T>)
    requires SysOk(c, ws, s) && MachineOk(c, m) && TimingOk(c, ws, s, e) && Refines(c, ws, s, m)
    requires e.optVal && Fires(c, s.x, Wires(c, ws, s, e))
    ensures Refines(c, ws, Cycle(c, ws, s, e), FireExcept(c, m, ws[s.fired], Unserved(c, s.x, Wires(c, ws, s, e))))
  {
    var s', m' := Cycle(c, ws, s, e), FireExcept(c, m, ws[s.fired], Unserved(c, s.x, Wires(c, ws, s, e)));
    forall k | 0 <= k < c.numIn ensures s'.ins[k] == m'.ins[k] {
      FiringIn(c, ws, s, e, m, k);
    }
    forall j | 0 <= j < c.numOut ensures s'.outs[j] == m'.outs[j] + Pending(c, ws, s', j) {
      FiringOut(c, ws, s, e, m, j);
      assert m'.outs[j] + [] == m'.outs[j];
    }
  }

  lemma FiringIn<T>(c: Config, ws: seq<Word>, s: Sys<T>, e: Timing<T>, m: Machine<T>, k: nat)
    requires SysOk(c, ws, s) && MachineOk(c, m) && TimingOk(c, ws, s, e) && Refines(c, ws, s, m)
    requires e.optVal && Fires(c, s.x, Wires(c, ws, s, e)) && k < c.numIn
    ensures Cycle(c, ws, s, e).ins[k] == Fire(c, m, ws[s.fired]).ins[k]
    ensures Needs(c, m.counter, ws[s.fired], k) ==> e.inVal[k]
  {
  }

  lemma FiringOut<T>(c: Config, ws: seq<Word>, s: Sys<T>, e: Timing<T>, m: Machine<T>, j: nat)
    requires SysOk(c, ws, s) && MachineOk(c, m) && TimingOk(c, ws, s, e) && Refines(c, ws, s, m)
    requires e.optVal && Fires(c, s.x, Wires(c, ws, s, e)) && j < c.numOut
    ensures Cycle(c, ws, s, e).outs[j] == FireExcept(c, m, ws[s.fired], Unserved(c, s.x, Wires(c, ws, s, e))).outs[j]
  {
    var w := ws[s.fired];
    assert s.outs[j] == m.outs[j] + Pending(c, ws, s, j);
    if Required(c, m.counter, w, j) {
      FiringIn(c, ws, s, e, m, w.dirs[j] - 1);
    }
  }

  // ---- runs ----

  ghost predicate TimingsOk<T>(c: Config, ws: seq<Word>, s: Sys<T>, es: seq<Timing<T>>)
    requires SysOk(c, ws, s)
    decreases |es|, 0
  {
    es == [] || (TimingsOk(c, ws, s, es[..|es| - 1]) && TimingOk(c, ws, Run(c, ws, s, es[..|es| - 1]), es[|es| - 1]))
  }

  ghost function Run<T>(c: Config, ws: seq<Word>, s: Sys<T>, es: seq<Timing<T>>): (s': Sys<T>)
    requires SysOk(c, ws, s) && TimingsOk(c, ws, s, es)
    ensures SysOk(c, ws, s')
    decreases |es|, 1
  {
    if es == [] then s else Cycle(c, ws, Run(c, ws, s, es[..|es| - 1]), es[|es| - 1])
  }

  /** For each word the run completed, the outputs it left unserved. */
  ghost function Skips<T>(c: Config, ws: seq<Word>, s: Sys<T>, es: seq<Timing<T>>): (r: seq<seq<bool>>)
    requires SysOk(c, ws, s) && TimingsOk(c, ws, s, es)
    ensures SkipsOk(c, r) && s.fired + |r| == Run(c, ws, s, es).fired
  {
    if es == [] then []
    else
      var n := |es| - 1;
      var mid := Run(c, ws, s, es[..n]);
      Skips(c, ws, s, es[..n])
        + if Completes(c, ws, mid, es[n]) then [Unserved(c, mid.x, Wires(c, ws, mid, es[n]))] else []
  }

  function Start<T>(s: Sys<T>): Machine<T> {
    Machine(s.ins, s.outs, s.x.counter)
  }

  /** The timing-free execution of the words the run completed, without what they skipped. */
  ghost function Done<T>(c: Config, ws: seq<Word>, s: Sys<T>, es: seq<Timing<T>>): (m: Machine<T>)
    requires SysOk(c, ws, s) && s.fired == 0 && TimingsOk(c, ws, s, es)
    ensures MachineOk(c, m)
  {
    FireAllExcept(c, Start(s), ws[..Run(c, ws, s, es).fired], Skips(c, ws, s, es))
  }

  /** One more cycle completes one more word, or none. */
  lemma CompletesStep<T>(c: Config, ws: seq<Word>, s: Sys<T>, es: seq<Timing<T>>)
    requires SysOk(c, ws, s) && es != [] && TimingsOk(c, ws, s, es)
    ensures var n := |es| - 1;
            var mid := Run(c, ws, s, es[..n]);
            if Completes(c, ws, mid, es[n])
            then && mid.fired < |ws| && Run(c, ws, s, es).fired == mid.fired + 1
                 && Skips(c, ws, s, es) == Skips(c, ws, s, es[..n]) + [Unserved(c, mid.x, Wires(c, ws, mid, es[n]))]
            else Run(c, ws, s, es).fired == mid.fired && Skips(c, ws, s, es) == Skips(c, ws, s, es[..n])
  {
  }

  lemma DoneStep<T>(c: Config, ws: seq<Word>, s: Sys<T>, es: seq<Timing<T>>)
    requires SysOk(c, ws, s) && s.fired == 0 && es != [] && TimingsOk(c, ws, s, es)
    ensures var n := |es| - 1;
            var mid, before := Run(c, ws, s, es[..n]), Done(c, ws, s, es[..n]);
            Done(c, ws, s, es) == if Completes(c, ws, mid, es[n])
                                  then FireExcept(c, before, ws[mid.fired],
                                                   Unserved(c, mid.x, Wires(c, ws, mid, es[n])))
                                  else before
  {
    var n := |es| - 1;
    CompletesStep(c, ws, s, es);
    DoneIs(c, ws, s, Run(c, ws, s, es[..n]), es[n], Skips(c, ws, s, es[..n]),
           Run(c, ws, s, es).fired, Skips(c, ws, s, es));
  }

  lemma DoneIs<T>(c: Config, ws: seq<Word>, s: Sys<T>, mid: Sys<T>, e: Timing<T>,
                  skips: seq<seq<bool>>, k: nat, skips': seq<seq<bool>>)
    requires SysOk(c, ws, s) && SysOk(c, ws, mid) && TimingOk(c, ws, mid, e)
    requires |skips| == mid.fired && SkipsOk(c, skips) && |skips'| == k <= |ws| && SkipsOk(c, skips')
    requires if Completes(c, ws, mid, e)
             then k == mid.fired + 1 && skips' == skips + [Unserved(c, mid.x, Wires(c, ws, mid, e))]
             else k == mid.fired && skips' == skips
    ensures var before := FireAllExcept(c, Start(s), ws[..mid.fired], skips);
            FireAllExcept(c, Start(s), ws[..k], skips')
              == if Completes(c, ws, mid, e)
                 then FireExcept(c, before, ws[mid.fired], Unserved(c, mid.x, Wires(c, ws, mid, e)))
                 else before
  {
    if Completes(c, ws, mid, e) {
      DoneOneMore(c, Start(s), ws, mid.fired, skips, Unserved(c, mid.x, Wires(c, ws, mid, e)));
    }
  }

  lemma DoneOneMore<T>(c: Config, m: Machine<T>, ws: seq<Word>, k: nat, skips: seq<seq<bool>>, skip: seq<bool>)
    requires MachineOk(c, m) && WordsOk(c, ws) && k < |ws| && |skips| == k && SkipsOk(c, skips) && |skip| == c.numOut
    ensures SkipsOk(c, skips + [skip])
    ensures FireAllExcept(c, m, ws[..k + 1], skips + [skip])
      == FireExcept(c, FireAllExcept(c, m, ws[..k], skips), ws[k], skip)
  {
    assert ws[..k + 1][..k] == ws[..k] && (skips + [skip])[..k] == skips;
  }

  lemma {:induction false} RunRefines<T>(c: Config, ws: seq<Word>, s: Sys<T>, es: seq<Timing<T>>)
    requires SysOk(c, ws, s) && s.fired == 0 && Idle(s.x) && TimingsOk(c, ws, s, es)
    ensures Refines(c, ws, Run(c, ws, s, es), Done(c, ws, s, es))
  {
    if es == [] {
      StartRefines(c, ws, s);
    } else {
      var n := |es| - 1;
      RunRefines(c, ws, s, es[..n]);
      CycleRefines(c, ws, Run(c, ws, s, es[..n]), es[n], Done(c, ws, s, es[..n]));
      DoneStep(c, ws, s, es);
    }
  }

  lemma StartRefines<T>(c: Config, ws: seq<Word>, s: Sys<T>)
    requires SysOk(c, ws, s) && s.fired == 0 && Idle(s.x)
    ensures Refines(c, ws, s, Done(c, ws, s, []))
  {
    assert ws[..0] == [];
    assert forall j :: 0 <= j < c.numOut ==> s.outs[j] + [] == s.outs[j];
  }

  /** In the cycle in which word k completes, an output is skipped exactly when the word asks
      for it, it was not served before, it is not ready, it faces the FU and the FU is done. */
  lemma {:induction false} SkippedExactly<T>(c: Config, ws: seq<Word>, s: Sys<T>, es: seq<Timing<T>>, t: nat, j: nat)
    requires SysOk(c, ws, s) && s.fired == 0 && TimingsOk(c, ws, s, es) && t < |es| && j < c.numOut
    ensures TimingsOk(c, ws, s, es[..t]) && TimingOk(c, ws, Run(c, ws, s, es[..t]), es[t])
    ensures var mid := Run(c, ws, s, es[..t]);
            Completes(c, ws, mid, es[t]) ==>
              && mid.fired < |Skips(c, ws, s, es)|
              && (Skips(c, ws, s, es)[mid.fired][j] <==>
                    Required(c, mid.x.counter, ws[mid.fired], j) && !mid.x.accepted[j]
                    && es[t].computeDone && c.fuBase <= j && !es[t].outRdy[j])
  {
    var n := |es| - 1;
    if t == n {
      var mid := Run(c, ws, s, es[..n]);
      if Completes(c, ws, mid, es[n]) && Required(c, mid.x.counter, ws[mid.fired], j) {
        ServedUnlessExempt(c, mid.x, Wires(c, ws, mid, es[n]), j);
      }
    } else {
      SkippedExactly(c, ws, s, es[..n], t, j);
      assert es[..n][..t] == es[..t];
    }
  }

  /** Outputs that do not face the FU are never skipped, and none is while the FU is not done. */
  lemma {:induction false} NeverSkipped<T>(c: Config, ws: seq<Word>, s: Sys<T>, es: seq<Timing<T>>, j: nat)
    requires SysOk(c, ws, s) && TimingsOk(c, ws, s, es) && j < c.numOut
    requires j < c.fuBase || forall t :: 0 <= t < |es| ==> !es[t].computeDone
    ensures forall k :: 0 <= k < |Skips(c, ws, s, es)| ==> !Skips(c, ws, s, es)[k][j]
  {
    if es != [] {
      var n := |es| - 1;
      NeverSkipped(c, ws, s, es[..n], j);
      var mid := Run(c, ws, s, es[..n]);
      if Completes(c, ws, mid, es[n]) && Required(c, mid.x.counter, ws[mid.fired], j) {
        ServedUnlessExempt(c, mid.x, Wires(c, ws, mid, es[n]), j);
      }
    }
  }

  /** Any run, under any timing, is the timing-free execution of the words it has
      completed: the streams left and the counters are the same, and each output has got
      exactly that execution's messages, in order, without those of the words that skipped
      it, and with the one already taken for the word under way. */
  lemma LatencyInsensitive<T>(c: Config, ws: seq<Word>, s: Sys<T>, es: seq<Timing<T>>)
    requires SysOk(c, ws, s) && s.fired == 0 && Idle(s.x) && TimingsOk(c, ws, s, es)
    ensures var s' := Run(c, ws, s, es);
            var m := FireAll(c, Start(s), ws[..s'.fired]);
            && s'.ins == m.ins && s'.x.counter == m.counter && AcceptedOk(c, ws, s')
            && forall j :: 0 <= j < c.numOut ==>
                 s'.outs[j] == s.outs[j] + StreamOf(c, Start(s), ws[..s'.fired], Skips(c, ws, s, es), j)
                               + Pending(c, ws, s', j)
  {
    RunRefines(c, ws, s, es);
    var s', skips := Run(c, ws, s, es), Skips(c, ws, s, es);
    var done := ws[..s'.fired];
    SameInputs(c, Start(s), done, skips);
    forall j | 0 <= j < c.numOut
      ensures s'.outs[j] == s.outs[j] + StreamOf(c, Start(s), done, skips, j) + Pending(c, ws, s', j)
    {
      ExceptIs(c, Start(s), done, skips, j);
    }
  }

  lemma {:induction false} SameInputs<T>(c: Config, m: Machine<T>, ws: seq<Word>, skips: seq<seq<bool>>)
    requires MachineOk(c, m) && WordsOk(c, ws) && |skips| == |ws| && SkipsOk(c, skips)
    ensures FireAllExcept(c, m, ws, skips).ins == FireAll(c, m, ws).ins
    ensures FireAllExcept(c, m, ws, skips).counter == FireAll(c, m, ws).counter
  {
    if ws != [] {
      SameInputs(c, m, ws[..|ws| - 1], skips[..|ws| - 1]);
    }
  }

  /** An output that is never skipped has all of the execution's messages. */
  lemma WholeStream<T>(c: Config, ws: seq<Word>, s: Sys<T>, es: seq<Timing<T>>, j: nat)
    requires SysOk(c, ws, s) && s.fired == 0 && Idle(s.x) && TimingsOk(c, ws, s, es) && j < c.numOut
    requires j < c.fuBase || forall t :: 0 <= t < |es| ==> !es[t].computeDone
    ensures var s' := Run(c, ws, s, es);
            && AcceptedOk(c, ws, s')
            && s'.outs[j] == FireAll(c, Start(s), ws[..s'.fired]).outs[j] + Pending(c, ws, s', j)
  {
    RunRefines(c, ws, s, es);
    NeverSkipped(c, ws, s, es, j);
    NothingSkipped(c, Start(s), ws[..Run(c, ws, s, es).fired], Skips(c, ws, s, es), j);
  }

  /** Hence timing cannot be observed: two complete runs of the same words on the same
      streams deliver the same streams and leave the same ones. */
  lemma TimingIsInvisible<T>(c: Config, ws: seq<Word>, s: Sys<T>, es1: seq<Timing<T>>, es2: seq<Timing<T>>)
    requires SysOk(c, ws, s) && s.fired == 0 && Idle(s.x)
    requires TimingsOk(c, ws, s, es1) && TimingsOk(c, ws, s, es2)
    requires forall t :: 0 <= t < |es1| ==> !es1[t].computeDone
    requires forall t :: 0 <= t < |es2| ==> !es2[t].computeDone
    requires Run(c, ws, s, es1).fired == |ws| == Run(c, ws, s, es2).fired
    ensures Run(c, ws, s, es1).ins == Run(c, ws, s, es2).ins
    ensures Run(c, ws, s, es1).outs == Run(c, ws, s, es2).outs
  {
    LatencyInsensitive(c, ws, s, es1);
    LatencyInsensitive(c, ws, s, es2);
    var s1, s2 := Run(c, ws, s, es1), Run(c, ws, s, es2);
    forall j | 0 <= j < c.numOut ensures s1.outs[j] == s2.outs[j] {
      WholeStream(c, ws, s, es1, j);
      WholeStream(c, ws, s, es2, j);
    }
  }

  /** The word completes with output j served exactly when j did not rely on the
      FU-done exemption: that exemption is the only way a delivery is skipped. */
  lemma ServedUnlessExempt<T>(c: Config, x: Xbar, i: Input<T>, j: nat)
    requires XbarOk(c, x) && InputOk(c, i) && j < c.numOut && Fires(c, x, i) && Required(c, x.counter, i.word, j)
    ensures x.accepted[j] || Delivers(c, x, i, j)
      <==> !(i.computeDone && c.fuBase <= j && !i.outRdy[j] && !x.accepted[j])
  {
  }

  /** An enabled word never waits on anything but its own inputs and outputs. */
  lemma FiresWhenServed<T>(c: Config, x: Xbar, i: Input<T>)
    requires XbarOk(c, x) && InputOk(c, i) && Active(i)
    requires forall j :: 0 <= j < c.numOut && Required(c, x.counter, i.word, j) ==>
               i.inVal[i.word.dirs[j] - 1] && (x.accepted[j] || i.outRdy[j])
    ensures Fires(c, x, i)
  {
  }

  // ---- prologue accounting ----

  /** Completed words at address a that map input i. */
  function Passes(ws: seq<Word>, a: nat, i: nat): nat {
    if ws == [] then 0
    else
      var w := ws[|ws| - 1];
      Passes(ws[..|ws| - 1], a, i) + if w.addr == a && Uses(w, i) then 1 else 0
  }

  /** Of those, the ones that dequeued input i. */
  ghost function Dequeues<T>(c: Config, m: Machine<T>, ws: seq<Word>, a: nat, i: nat): nat
    requires MachineOk(c, m) && WordsOk(c, ws)
  {
    if ws == [] then 0
    else
      var w := ws[|ws| - 1];
      var before := FireAll(c, m, ws[..|ws| - 1]);
      Dequeues(c, m, ws[..|ws| - 1], a, i) + if w.addr == a && Needs(c, before.counter, w, i) then 1 else 0
  }

  function Min(a: int, b: int): int {
    if a < b then a else b
  }

  /** After k passes over an input with prologue count p from cleared counters, its
      counter is min(k, p), and only k - min(k, p) passes took data from it. */
  lemma {:induction false} PrologueAccounting<T>(c: Config, m: Machine<T>, ws: seq<Word>, a: nat, i: nat)
    requires MachineOk(c, m) && WordsOk(c, ws) && a < |c.limit| && i < c.numIn
    requires m.counter[a][i] == 0
    ensures var k := Passes(ws, a, i);
            var p := c.limit[a][i];
            && FireAll(c, m, ws).counter[a][i] == Min(k, p)
            && Dequeues(c, m, ws, a, i) == k - Min(k, p)
  {
    if ws != [] {
      var n := |ws| - 1;
      PrologueAccounting(c, m, ws[..n], a, i);
      NeedsIsUsePastPrologue(c, FireAll(c, m, ws[..n]).counter, ws[n], i);
    }
  }

  lemma NeedsIsUsePastPrologue(c: Config, t: seq<seq<nat>>, w: Word, i: nat)
    requires ConfigOk(c) && TableOk(c, t) && WordOk(c, w) && i < c.numIn
    ensures Needs(c, t, w, i) <==> Uses(w, i) && t[w.addr][i] >= c.limit[w.addr][i]
  {
    if Uses(w, i) {
      var j :| 0 <= j < |w.dirs| && w.dirs[j] == i + 1;
      assert Required(c, t, w, j) <==> t[w.addr][i] >= c.limit[w.addr][i];
    }
  }
}
