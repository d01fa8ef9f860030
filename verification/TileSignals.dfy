/** A tile's whole configuration (validation/script_generator.py, `makeTileSignals`): the
    constants in the order the tile will consume them, and one control word per address. */
module TileSignals {
  import Arith
  import ConstQueue
  import Seqs
  import opened Compiler

  // ---- constants sorted by time step ----

  function Insert(x: Const, s: seq<Const>): seq<Const> {
    if s == [] || x.timeStep <= s[0].timeStep then [x] + s else [s[0]] + Insert(x, s[1..])
  }

  /** `consts.sort(key=...)`: stable. */
  function SortByTime(s: seq<Const>): seq<Const> {
    if s == [] then [] else Insert(s[0], SortByTime(s[1..]))
  }

  predicate Ascending(s: seq<Const>) {
    forall i, j :: 0 <= i < j < |s| ==> s[i].timeStep <= s[j].timeStep
  }

  function OfTime(s: seq<Const>, t: nat): seq<Const> {
    if s == [] then [] else (if s[0].timeStep == t then [s[0]] else []) + OfTime(s[1..], t)
  }

  lemma {:induction false} InsertKeeps(x: Const, s: seq<Const>)
    ensures multiset(Insert(x, s)) == multiset{x} + multiset(s)
  {
    if s != [] && s[0].timeStep < x.timeStep {
      InsertKeeps(x, s[1..]);
      assert s == [s[0]] + s[1..];
    }
  }

  lemma {:induction false} InsertSorts(x: Const, s: seq<Const>)
    requires Ascending(s)
    ensures Ascending(Insert(x, s))
  {
    if s != [] && s[0].timeStep < x.timeStep {
      InsertSorts(x, s[1..]);
      InsertKeeps(x, s[1..]);
      var rest := Insert(x, s[1..]);
      forall j | 0 <= j < |rest| ensures s[0].timeStep <= rest[j].timeStep {
        assert rest[j] in multiset(rest);
        assert rest[j] == x || rest[j] in s[1..];
      }
    }
  }

  lemma OfTimeCons(x: Const, s: seq<Const>, t: nat)
    ensures OfTime([x] + s, t) == (if x.timeStep == t then [x] else []) + OfTime(s, t)
  {
    assert ([x] + s)[1..] == s;
  }

  lemma {:induction false} InsertIsStable(x: Const, s: seq<Const>, t: nat)
    ensures OfTime(Insert(x, s), t) == (if x.timeStep == t then [x] else []) + OfTime(s, t)
  {
    if s == [] || x.timeStep <= s[0].timeStep {
      OfTimeCons(x, s, t);
    } else {
      InsertIsStable(x, s[1..], t);
      OfTimeCons(s[0], Insert(x, s[1..]), t);
      var none: seq<Const> := [];
      var rest := OfTime(s[1..], t);
      if s[0].timeStep == t {
        assert OfTime(Insert(x, s[1..]), t) == none + rest == rest;
      } else {
        assert none + OfTime(Insert(x, s[1..]), t) == OfTime(Insert(x, s[1..]), t) && none + rest == rest;
      }
    }
  }

  /** The sort orders by time step, keeps every constant, and keeps the order of constants
      with equal time steps. */
  lemma {:induction false} SortIsStableSort(s: seq<Const>, t: nat)
    ensures Ascending(SortByTime(s)) && multiset(SortByTime(s)) == multiset(s)
    ensures OfTime(SortByTime(s), t) == OfTime(s, t)
  {
    if s != [] {
      SortIsStableSort(s[1..], t);
      InsertSorts(s[0], SortByTime(s[1..]));
      InsertKeeps(s[0], SortByTime(s[1..]));
      InsertIsStable(s[0], SortByTime(s[1..]), t);
      assert s == [s[0]] + s[1..];
    }
  }

  // ---- when constants are consumed ----

  /** Control step j executes an operation of time step t: j reads its address, and its
      address has passed the t / ii idle passes of its prologue. */
  predicate Executes(t: nat, ii: nat, j: nat)
    requires ii > 0
  {
    j % ii == t % ii && j / ii >= t / ii
  }

  lemma ExecutesAfterPasses(t: nat, ii: nat, m: nat)
    requires ii > 0
    ensures Executes(t, ii, t + m * ii)
  {
    var q, r := t / ii, t % ii;
    assert t + m * ii == ii * (q + m) + r;
    Arith.DivModUnique(t + m * ii, ii, q + m, r);
  }

  lemma PassesOf(t: nat, ii: nat, j: nat) returns (m: nat)
    requires ii > 0 && Executes(t, ii, j)
    ensures j == t + m * ii
  {
    m := j / ii - t / ii;
    assert j == ii * (j / ii) + j % ii && t == ii * (t / ii) + t % ii;
    assert ii * (j / ii) - ii * (t / ii) == m * ii;
  }

  /** Some operation with a constant executes in step j. */
  ghost predicate Consumes(cs: seq<Const>, ii: nat, j: nat)
    requires ii > 0
  {
    exists i :: 0 <= i < |cs| && Executes(cs[i].timeStep, ii, j)
  }

  /** Of the first j steps, those that consume a constant. */
  ghost function Count(cs: seq<Const>, ii: nat, j: nat): nat
    requires ii > 0
  {
    if j == 0 then 0 else Count(cs, ii, j - 1) + if Consumes(cs, ii, j - 1) then 1 else 0
  }

  /** One constant per operation, and all of them within less than one initiation interval. */
  predicate Window(cs: seq<Const>, ii: nat) {
    && (forall i, j :: 0 <= i < j < |cs| ==> cs[i].timeStep < cs[j].timeStep)
    && (cs != [] ==> cs[|cs| - 1].timeStep < cs[0].timeStep + ii)
  }

  lemma {:induction false} NoneConsumed(cs: seq<Const>, ii: nat, lo: nat, hi: nat)
    requires ii > 0 && lo <= hi && forall j :: lo <= j < hi ==> !Consumes(cs, ii, j)
    ensures Count(cs, ii, hi) == Count(cs, ii, lo)
    decreases hi - lo
  {
    if lo < hi {
      NoneConsumed(cs, ii, lo, hi - 1);
    }
  }

  lemma EarlierPass(ii: nat, m: nat, p: nat)
    requires p < m
    ensures p * ii + ii <= m * ii
  {
    Arith.MulMono(p + 1, m, ii);
    assert (p + 1) * ii == p * ii + ii;
  }

  /** Every consuming step lies in some round m, at or after the first constant and at or
      before the last. */
  lemma ConsumesInRound(cs: seq<Const>, ii: nat, j: nat) returns (i: nat, m: nat)
    requires ii > 0 && Window(cs, ii) && Consumes(cs, ii, j)
    ensures i < |cs| && j == cs[i].timeStep + m * ii
    ensures cs[0].timeStep + m * ii <= j <= cs[|cs| - 1].timeStep + m * ii
  {
    i :| 0 <= i < |cs| && Executes(cs[i].timeStep, ii, j);
    m := PassesOf(cs[i].timeStep, ii, j);
  }

  /** Between two neighbouring constants of a round, nothing is consumed. */
  lemma GapInRound(cs: seq<Const>, ii: nat, i: nat, m: nat, j: nat)
    requires ii > 0 && Window(cs, ii) && i + 1 < |cs|
    requires cs[i].timeStep + m * ii < j < cs[i + 1].timeStep + m * ii
    ensures !Consumes(cs, ii, j)
  {
    if Consumes(cs, ii, j) {
      var l, p := ConsumesInRound(cs, ii, j);
      if p < m { EarlierPass(ii, m, p); }
      if m < p { EarlierPass(ii, p, m); }
    }
  }

  /** Nor between the last constant of a round and the first of the next. */
  lemma GapBetweenRounds(cs: seq<Const>, ii: nat, m: nat, j: nat)
    requires ii > 0 && Window(cs, ii) && cs != []
    requires cs[|cs| - 1].timeStep + m * ii < j < cs[0].timeStep + (m + 1) * ii
    ensures !Consumes(cs, ii, j)
  {
    if Consumes(cs, ii, j) {
      var l, p := ConsumesInRound(cs, ii, j);
      if p < m { EarlierPass(ii, m, p); }
      if m + 1 < p { EarlierPass(ii, p, m + 1); }
    }
  }

  lemma BeforeFirst(cs: seq<Const>, ii: nat, j: nat)
    requires ii > 0 && Window(cs, ii) && cs != [] && j < cs[0].timeStep
    ensures !Consumes(cs, ii, j)
  {
    if Consumes(cs, ii, j) {
      var l, p := ConsumesInRound(cs, ii, j);
    }
  }

  lemma OneMore(cs: seq<Const>, ii: nat, lo: nat, hi: nat)
    requires ii > 0 && lo < hi && Consumes(cs, ii, lo) && forall j :: lo < j < hi ==> !Consumes(cs, ii, j)
    ensures Count(cs, ii, hi) == Count(cs, ii, lo) + 1
  {
    NoneConsumed(cs, ii, lo + 1, hi);
  }

  lemma NextInRound(cs: seq<Const>, ii: nat, i: nat, m: nat)
    requires ii > 0 && Window(cs, ii) && i + 1 < |cs|
    ensures Count(cs, ii, cs[i + 1].timeStep + m * ii) == Count(cs, ii, cs[i].timeStep + m * ii) + 1
  {
    var lo, hi := cs[i].timeStep + m * ii, cs[i + 1].timeStep + m * ii;
    ExecutesAfterPasses(cs[i].timeStep, ii, m);
    forall j | lo < j < hi ensures !Consumes(cs, ii, j) { GapInRound(cs, ii, i, m, j); }
    OneMore(cs, ii, lo, hi);
  }

  lemma NextRound(cs: seq<Const>, ii: nat, m: nat)
    requires ii > 0 && Window(cs, ii) && cs != []
    ensures Count(cs, ii, cs[0].timeStep + (m + 1) * ii) == Count(cs, ii, cs[|cs| - 1].timeStep + m * ii) + 1
  {
    var lo, hi := cs[|cs| - 1].timeStep + m * ii, cs[0].timeStep + (m + 1) * ii;
    ExecutesAfterPasses(cs[|cs| - 1].timeStep, ii, m);
    EarlierPass(ii, m + 1, m);
    forall j | lo < j < hi ensures !Consumes(cs, ii, j) { GapBetweenRounds(cs, ii, m, j); }
    OneMore(cs, ii, lo, hi);
  }

  lemma FirstRound(cs: seq<Const>, ii: nat)
    requires ii > 0 && Window(cs, ii) && cs != []
    ensures Count(cs, ii, cs[0].timeStep) == 0
  {
    forall j | 0 <= j < cs[0].timeStep ensures !Consumes(cs, ii, j) { BeforeFirst(cs, ii, j); }
    NoneConsumed(cs, ii, 0, cs[0].timeStep);
  }

  lemma AddRound(m: nat, n: nat)
    ensures m * n + n == (m + 1) * n
  {
  }

  /** Before constant i is used for the (m+1)-th time, m full rounds and i more constants
      have been consumed. */
  lemma {:induction false} CountAt(cs: seq<Const>, ii: nat, i: nat, m: nat)
    requires ii > 0 && Window(cs, ii) && i < |cs|
    ensures Count(cs, ii, cs[i].timeStep + m * ii) == m * |cs| + i
    decreases m, i
  {
    if i > 0 {
      CountAt(cs, ii, i - 1, m);
      NextInRound(cs, ii, i - 1, m);
    } else if m > 0 {
      CountAt(cs, ii, |cs| - 1, m - 1);
      RoundStarts(cs, ii, m - 1);
    } else {
      FirstRound(cs, ii);
      assert 0 * ii == 0 && 0 * |cs| == 0;
    }
  }

  lemma RoundStarts(cs: seq<Const>, ii: nat, m: nat)
    requires ii > 0 && Window(cs, ii) && cs != []
    requires Count(cs, ii, cs[|cs| - 1].timeStep + m * ii) == m * |cs| + (|cs| - 1)
    ensures Count(cs, ii, cs[0].timeStep + (m + 1) * ii) == (m + 1) * |cs|
  {
    NextRound(cs, ii, m);
    AddRound(m, |cs|);
  }

  // ---- the queue and the schedule together ----

  /** In every completed step the FU raises the constant's ready, at some cycle of the step,
      if and only if an operation with a constant executes. */
  ghost predicate AsksOnSchedule<T>(cs: seq<Const>, ii: nat, es: seq<ConstQueue.Input<T>>)
    requires ii > 0
  {
    forall t :: 0 <= t < |es| && es[t].proceed ==>
      (es[t].sendRdy || ConstQueue.Asked(es[..t]) <==> Consumes(cs, ii, ConstQueue.Steps(es[..t])))
  }

  lemma {:induction false} ConsumedIsCount<T>(cs: seq<Const>, ii: nat, es: seq<ConstQueue.Input<T>>)
    requires ii > 0 && AsksOnSchedule(cs, ii, es)
    ensures ConstQueue.Consumed(es) == Count(cs, ii, ConstQueue.Steps(es))
  {
    if es != [] {
      var n := |es| - 1;
      forall t | 0 <= t < n ensures es[..n][..t] == es[..t] {}
      ConsumedIsCount(cs, ii, es[..n]);
    }
  }

  function Values(cs: seq<Const>): seq<int> {
    seq(|cs|, k requires 0 <= k < |cs| => cs[k].value)
  }

  lemma SortedAt(consts: seq<Const>, c: Const) returns (i: nat)
    requires c in consts
    ensures i < |SortByTime(consts)| && SortByTime(consts)[i] == c
  {
    SortIsStableSort(consts, 0);
    assert c in multiset(SortByTime(consts));
    i :| 0 <= i < |SortByTime(consts)| && SortByTime(consts)[i] == c;
  }

  /** When the operation of constant i executes, the queue is at constant i. */
  lemma QueueAt<T>(cs: seq<Const>, ii: nat, es: seq<ConstQueue.Input<T>>, i: nat)
    requires ii > 0 && Window(cs, ii) && AsksOnSchedule(cs, ii, es) && i < |cs|
    requires Executes(cs[i].timeStep, ii, ConstQueue.Steps(es))
    ensures ConstQueue.Consumed(es) % |cs| == i
  {
    var m := PassesOf(cs[i].timeStep, ii, ConstQueue.Steps(es));
    ConsumedIsCount(cs, ii, es);
    CountAt(cs, ii, i, m);
    Arith.DivModUnique(m * |cs| + i, |cs|, m, i);
  }

  /** Constant order: after a clear, loaded in time-step order, every constant is seen by the
      operation that named it, in every step that operation executes. */
  lemma SeesOwnConstant(w: ConstQueue.Widths, q: ConstQueue.Queue<int>, clr: ConstQueue.Input<int>,
                        junk: seq<ConstQueue.Input<int>>, consts: seq<Const>, ii: nat,
                        es: seq<ConstQueue.Input<int>>, c: Const)
    requires ConstQueue.QueueOk(w, q) && clr.clear
    requires ii > 0 && c in consts && Window(SortByTime(consts), ii)
    requires |SortByTime(consts)| == |junk| <= w.size
    requires ConstQueue.Reading(es) && AsksOnSchedule(SortByTime(consts), ii, es)
    requires Executes(c.timeStep, ii, ConstQueue.Steps(es))
    ensures var loads := ConstQueue.Loads(Values(SortByTime(consts)), junk);
            var o := ConstQueue.Wires(w, ConstQueue.Run(w, q, [clr] + loads + es));
            o.sendVal && o.sendMsg == c.value
  {
    var cs := SortByTime(consts);
    var i := SortedAt(consts, c);
    QueueAt(cs, ii, es, i);
    ConstQueue.LoadedThenRead(w, q, clr, Values(cs), junk, es);
  }

  // ---- a window of ii or more is too wide ----

  predicate StrictlyAscending(cs: seq<Const>) {
    forall i, j :: 0 <= i < j < |cs| ==> cs[i].timeStep < cs[j].timeStep
  }

  lemma FirstPassOnly(cs: seq<Const>, ii: nat, j: nat) returns (l: nat)
    requires ii > 0 && StrictlyAscending(cs) && cs != [] && Consumes(cs, ii, j) && j < cs[0].timeStep + ii
    ensures l < |cs| && j == cs[l].timeStep
  {
    l :| 0 <= l < |cs| && Executes(cs[l].timeStep, ii, j);
    var m := PassesOf(cs[l].timeStep, ii, j);
    if m > 0 { Arith.MulMono(1, m, ii); }
  }

  /** Up to the second use of the first constant, constants are consumed in order. */
  lemma {:induction false} FirstPassCount(cs: seq<Const>, ii: nat, i: nat)
    requires ii > 0 && StrictlyAscending(cs) && i < |cs| && cs[i].timeStep < cs[0].timeStep + ii
    ensures Count(cs, ii, cs[i].timeStep) == i
  {
    var hi := cs[i].timeStep;
    var lo := if i == 0 then 0 else cs[i - 1].timeStep;
    forall j | lo <= j < hi && (i == 0 || j != lo) ensures !Consumes(cs, ii, j) {
      if Consumes(cs, ii, j) {
        var l := FirstPassOnly(cs, ii, j);
      }
    }
    if i == 0 {
      NoneConsumed(cs, ii, 0, hi);
    } else {
      FirstPassCount(cs, ii, i - 1);
      ExecutesAfterPasses(lo, ii, 0);
      OneMore(cs, ii, lo, hi);
    }
  }

  /** The window is exactly what order needs: when it spans ii steps or more, the first
      operation's second execution finds some other operation's constant. */
  lemma WideWindowMisorders(cs: seq<Const>, ii: nat, i: nat)
    requires ii > 0 && StrictlyAscending(cs) && i + 1 < |cs|
    requires cs[i].timeStep < cs[0].timeStep + ii <= cs[i + 1].timeStep
    ensures Executes(cs[0].timeStep, ii, cs[0].timeStep + ii)
    ensures Count(cs, ii, cs[0].timeStep + ii) % |cs| == i + 1 != 0
  {
    var lo, hi := cs[i].timeStep, cs[0].timeStep + ii;
    FirstPassCount(cs, ii, i);
    ExecutesAfterPasses(cs[0].timeStep, ii, 1);
    ExecutesAfterPasses(lo, ii, 0);
    forall j | lo < j < hi ensures !Consumes(cs, ii, j) {
      if Consumes(cs, ii, j) {
        var l := FirstPassOnly(cs, ii, j);
      }
    }
    OneMore(cs, ii, lo, hi);
    Arith.DivModUnique(i + 1, |cs|, 0, i + 1);
  }

  /** Before constant i is used for the (m+1)-th time, the cursor stands at it. */
  ghost predicate CursorAt(cs: seq<Const>, ii: nat, i: nat, m: nat)
    requires ii > 0 && i < |cs|
  {
    Count(cs, ii, cs[i].timeStep + m * ii) % |cs| == i
  }

  /** The last constant less than one initiation interval after the first. */
  lemma {:induction false} WindowEnd(cs: seq<Const>, ii: nat, n: nat) returns (i: nat)
    requires ii > 0 && StrictlyAscending(cs) && 0 < n < |cs| && cs[0].timeStep + ii <= cs[n].timeStep
    ensures i < n && cs[i].timeStep < cs[0].timeStep + ii <= cs[i + 1].timeStep
  {
    if cs[n - 1].timeStep < cs[0].timeStep + ii {
      i := n - 1;
    } else {
      i := WindowEnd(cs, ii, n - 1);
    }
  }

  /** In time-step order the cursor stands at the right constant in every execution exactly
      when no two constants share a time step and all lie within less than one initiation
      interval. */
  lemma OrderExactly(cs: seq<Const>, ii: nat)
    requires ii > 0 && Ascending(cs)
    ensures (forall i: nat, m: nat :: i < |cs| ==> CursorAt(cs, ii, i, m)) <==> Window(cs, ii)
  {
    if Window(cs, ii) {
      forall i: nat, m: nat | i < |cs| ensures CursorAt(cs, ii, i, m) {
        CountAt(cs, ii, i, m);
        Arith.DivModUnique(m * |cs| + i, |cs|, m, i);
      }
    } else if i, j :| 0 <= i < j < |cs| && cs[i].timeStep >= cs[j].timeStep {
      SharedStep(cs, ii, i, j);
    } else {
      var i := WindowEnd(cs, ii, |cs| - 1);
      WideWindowMisorders(cs, ii, i);
      OneRound(ii);
      assert !CursorAt(cs, ii, 0, 1);
    }
  }

  lemma OneRound(ii: nat)
    ensures 1 * ii == ii && 0 * ii == 0
  {
  }

  /** Two constants of one time step are wanted at once; the cursor stands at one of them. */
  lemma SharedStep(cs: seq<Const>, ii: nat, i: nat, j: nat)
    requires ii > 0 && Ascending(cs) && i < j < |cs| && cs[i].timeStep >= cs[j].timeStep
    ensures !(CursorAt(cs, ii, i, 0) && CursorAt(cs, ii, j, 0))
  {
    assert cs[i].timeStep == cs[j].timeStep;
  }

  // ---- one control word per address ----

  datatype Packet<W> = Packet(addr: nat, word: W)

  predicate HasAddr<W>(main: seq<Packet<W>>, a: nat) {
    exists k :: 0 <= k < |main| && main[k].addr == a
  }

  /** Addresses below n that carry an instruction. */
  ghost function Taken<W>(main: seq<Packet<W>>, n: nat): set<nat> {
    set a: nat | a < n && HasAddr(main, a)
  }

  function Addrs<W>(main: seq<Packet<W>>): (s: seq<nat>)
    ensures |s| == |main| && forall k :: 0 <= k < |s| ==> s[k] == main[k].addr
  {
    seq(|main|, k requires 0 <= k < |main| => main[k].addr)
  }

  predicate Distinct<W>(main: seq<Packet<W>>) {
    forall i, j :: 0 <= i < j < |main| ==> main[i].addr != main[j].addr
  }

  lemma TakenStep<W>(main: seq<Packet<W>>, n: nat)
    ensures |Taken(main, n + 1)| == |Taken(main, n)| + if HasAddr(main, n) then 1 else 0
  {
    if HasAddr(main, n) {
      assert Taken(main, n + 1) == Taken(main, n) + {n};
    } else {
      assert Taken(main, n + 1) == Taken(main, n);
    }
  }

  /** There are never more taken addresses than instructions; with distinct addresses below
      n there are exactly as many. */
  lemma TakenCount<W>(main: seq<Packet<W>>, n: nat)
    ensures |Taken(main, n)| <= |main|
    ensures Distinct(main) && (forall k :: 0 <= k < |main| ==> main[k].addr < n) ==> |Taken(main, n)| == |main|
  {
    var s := Addrs(main);
    Seqs.ElemsCount(s);
    forall a | a in Taken(main, n) ensures a in Seqs.Elems(s) {
      Seqs.ElemsAre(s, a);
      var k :| 0 <= k < |main| && main[k].addr == a;
      assert s[k] == a;
    }
    Seqs.SubsetSize(Taken(main, n), Seqs.Elems(s));
    if Distinct(main) && forall k :: 0 <= k < |main| ==> main[k].addr < n {
      forall a | a in Seqs.Elems(s) ensures a in Taken(main, n) {
        Seqs.ElemsAre(s, a);
        var k :| 0 <= k < |s| && s[k] == a;
        assert main[k].addr == a;
      }
      assert Taken(main, n) == Seqs.Elems(s);
    }
  }

  /** The packets sent: an idle word at every address without an instruction; at the
      others, the next instruction in the order given. */
  method FillIdle<W>(main: seq<Packet<W>>, ii: nat, idle: W) returns (filled: seq<Packet<W>>, ghost used: nat)
    ensures used == |Taken(main, ii)| <= |main| && |filled| == ii
    ensures forall k :: 0 <= k < used ==> main[k] in filled
    ensures forall a :: 0 <= a < ii && !HasAddr(main, a) ==> Packet(a, idle) in filled
    ensures forall p :: p in filled ==> p in main[..used] || (p.word == idle && p.addr < ii && !HasAddr(main, p.addr))
  {
    filled := [];
    var idx := 0;
    assert Taken(main, 0) == {};
    for step := 0 to ii
      invariant |filled| == step && idx == |Taken(main, step)| <= |main|
      invariant forall k :: 0 <= k < idx ==> main[k] in filled
      invariant forall a :: 0 <= a < step && !HasAddr(main, a) ==> Packet(a, idle) in filled
      invariant forall p :: p in filled ==>
                p in main[..idx] || (p.word == idle && p.addr < step && !HasAddr(main, p.addr))
    {
      TakenStep(main, step);
      TakenCount(main, step + 1);
      ghost var before := filled;
      if !HasAddr(main, step) {
        filled := filled + [Packet(step, idle)];
        assert Packet(step, idle) in filled;
      } else {
        filled := filled + [main[idx]];
        assert main[..idx + 1] == main[..idx] + [main[idx]];
        idx := idx + 1;
      }
      forall p | p in before ensures p in filled {}
    }
    used := idx;
  }

  /** Writing the packets into a memory. */
  function Configure<W>(mem: map<nat, W>, ps: seq<Packet<W>>): map<nat, W> {
    if ps == [] then mem else Configure(mem, ps[..|ps| - 1])[ps[|ps| - 1].addr := ps[|ps| - 1].word]
  }

  lemma {:induction false} ConfiguredWord<W>(mem: map<nat, W>, ps: seq<Packet<W>>, a: nat, x: W)
    requires Packet(a, x) in ps && forall p :: p in ps && p.addr == a ==> p.word == x
    ensures a in Configure(mem, ps) && Configure(mem, ps)[a] == x
  {
    var n := |ps| - 1;
    if ps[n].addr != a {
      assert ps == ps[..n] + [ps[n]];
      assert Packet(a, x) in ps[..n];
      ConfiguredWord(mem, ps[..n], a, x);
    }
  }

  /** However the instructions are ordered, as long as their addresses are distinct and
      below ii, the filled packets configure every address: its own instruction's word, or
      the idle word. */
  lemma FilledConfiguresAll<W>(main: seq<Packet<W>>, ii: nat, idle: W, filled: seq<Packet<W>>, mem: map<nat, W>, a: nat)
    requires Distinct(main) && (forall k :: 0 <= k < |main| ==> main[k].addr < ii) && a < ii
    requires forall k :: 0 <= k < |Taken(main, ii)| && k < |main| ==> main[k] in filled
    requires forall b :: 0 <= b < ii && !HasAddr(main, b) ==> Packet(b, idle) in filled
    requires forall p :: p in filled ==> p in main || (p.word == idle && !HasAddr(main, p.addr))
    ensures a in Configure(mem, filled)
    ensures forall k :: 0 <= k < |main| && main[k].addr == a ==> Configure(mem, filled)[a] == main[k].word
    ensures !HasAddr(main, a) ==> Configure(mem, filled)[a] == idle
  {
    TakenCount(main, ii);
    if HasAddr(main, a) {
      var k :| 0 <= k < |main| && main[k].addr == a;
      assert main[k] in filled && main[k] == Packet(a, main[k].word);
      forall p | p in filled && p.addr == a ensures p.word == main[k].word {
        var j :| 0 <= j < |main| && main[j] == p;
      }
      ConfiguredWord(mem, filled, a, main[k].word);
    } else {
      ConfiguredWord(mem, filled, a, idle);
    }
  }
}
