/** Software pipelining's prologue, seen from both sides of a tile: the control memory
    idles the FU for the first passes over an address, and the FU crossbar skips the FU's
    result for the first passes.  With equal counts the two agree at every step. */
module PrologueAlignment {
  import CtrlMem
  import Crossbar
  import CrossbarProofs
  import TileSignals

  /** The FU-crossbar word of step k; `dirs` picks the FU-crossbar field of a control word. */
  function XbarWord<R>(s: CtrlMem.Mem<R>, dirs: R -> seq<nat>, k: nat): Crossbar.Word
    requires CtrlMem.InWindow(s) && s.lower + s.perIter <= |s.words|
  {
    var a := CtrlMem.StepAddr(s, k);
    Crossbar.Word(false, dirs(s.words[a].rest), a)
  }

  function XbarWords<R>(s: CtrlMem.Mem<R>, dirs: R -> seq<nat>, n: nat): (ws: seq<Crossbar.Word>)
    requires CtrlMem.InWindow(s) && s.lower + s.perIter <= |s.words|
    ensures |ws| == n
  {
    if n == 0 then [] else XbarWords(s, dirs, n - 1) + [XbarWord(s, dirs, n - 1)]
  }

  /** The program's FU-crossbar fields suit the crossbar, and both prologue tables agree
      at every address. */
  ghost predicate Configured<R>(w: CtrlMem.Widths, s: CtrlMem.Mem<R>, c: Crossbar.Config, dirs: R -> seq<nat>) {
    && CtrlMem.Launched(w, s) && Crossbar.ConfigOk(c) && |c.limit| == w.addr && c.numIn >= 1
    && (forall a :: 0 <= a < w.addr ==> Crossbar.WordOk(c, Crossbar.Word(false, dirs(s.words[a].rest), a)))
    && (forall a :: 0 <= a < w.addr ==> c.limit[a][0] == s.prologueFu[a])
  }

  lemma {:induction false} WordsSuit<R>(w: CtrlMem.Widths, s: CtrlMem.Mem<R>, c: Crossbar.Config,
          dirs: R -> seq<nat>, n: nat)
    requires Configured(w, s, c, dirs)
    ensures Crossbar.WordsOk(c, XbarWords(s, dirs, n))
  {
    if n > 0 {
      WordsSuit(w, s, c, dirs, n - 1);
    }
  }

  /** The FU crossbar passes over address a once per visit of the program counter. */
  lemma {:induction false} PassesAreVisits<R>(w: CtrlMem.Widths, s: CtrlMem.Mem<R>, c: Crossbar.Config,
          dirs: R -> seq<nat>, n: nat, a: nat)
    requires Configured(w, s, c, dirs) && a < w.addr && Crossbar.Uses(Crossbar.Word(false, dirs(s.words[a].rest), a), 0)
    ensures CrossbarProofs.Passes(XbarWords(s, dirs, n), a, 0) == CtrlMem.Visits(s, a, n)
  {
    if n > 0 {
      PassesAreVisits(w, s, c, dirs, n - 1, a);
      var ws := XbarWords(s, dirs, n);
      assert ws[..n - 1] == XbarWords(s, dirs, n - 1);
    }
  }

  /** Before step n, the FU outport's prologue counter at that step's address. */
  lemma CounterAt<R, T>(w: CtrlMem.Widths, s: CtrlMem.Mem<R>, c: Crossbar.Config, dirs: R -> seq<nat>,
                        m: Crossbar.Machine<T>, n: nat)
    requires Configured(w, s, c, dirs) && Crossbar.MachineOk(c, m) && Crossbar.Uses(XbarWord(s, dirs, n), 0)
    requires forall a :: 0 <= a < w.addr ==> m.counter[a][0] == 0
    ensures Crossbar.WordsOk(c, XbarWords(s, dirs, n))
    ensures var a := CtrlMem.StepAddr(s, n);
            Crossbar.FireAll(c, m, XbarWords(s, dirs, n)).counter[a][0]
            == CrossbarProofs.Min(n / s.perIter, s.prologueFu[a])
  {
    WordsSuit(w, s, c, dirs, n);
    PassesAreVisits(w, s, c, dirs, n, CtrlMem.StepAddr(s, n));
    CtrlMem.VisitsSoFar(s, n);
    CrossbarProofs.PrologueAccounting(c, m, XbarWords(s, dirs, n), CtrlMem.StepAddr(s, n), 0);
  }

  /** At every step, the FU crossbar waits for the FU's result exactly when the control
      memory lets the FU produce one: both skip the first p passes over an address. */
  lemma Aligned<R, T>(w: CtrlMem.Widths, s: CtrlMem.Mem<R>, c: Crossbar.Config, dirs: R -> seq<nat>,
                      m: Crossbar.Machine<T>, n: nat, j: nat)
    requires Configured(w, s, c, dirs) && Crossbar.MachineOk(c, m) && j < c.numOut
    requires forall a :: 0 <= a < w.addr ==> m.counter[a][0] == 0
    requires XbarWord(s, dirs, n).dirs[j] == 1
    ensures Crossbar.WordsOk(c, XbarWords(s, dirs, n)) && Crossbar.WordOk(c, XbarWord(s, dirs, n))
    ensures Crossbar.Required(c, Crossbar.FireAll(c, m, XbarWords(s, dirs, n)).counter, XbarWord(s, dirs, n), j)
       <==> !CtrlMem.Idled(w, s, n)
  {
    assert Crossbar.Uses(XbarWord(s, dirs, n), 0);
    CounterAt(w, s, c, dirs, m, n);
  }

  /** The steps in which the constant queue expects an operation of time step t are those
      in which the control memory lets it execute: a fresh program, and a prologue of
      t div ii at the operation's address. */
  lemma ExecutesUnlessIdled<R>(w: CtrlMem.Widths, s: CtrlMem.Mem<R>, t: nat, k: nat)
    requires CtrlMem.Launched(w, s) && s.lower == 0 && s.raddr == 0
    requires t % s.perIter < |s.prologueFu| && s.prologueFu[t % s.perIter] == t / s.perIter
    ensures TileSignals.Executes(t, s.perIter, k)
       <==> CtrlMem.StepAddr(s, k) == t % s.perIter && !CtrlMem.Idled(w, s, k)
  {
    CtrlMem.StepAddrIsModulo(s, k);
  }
}
