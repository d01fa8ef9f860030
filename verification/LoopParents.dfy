/** Two loops held by one loop controller: a root CCU and a CCU that names it as parent
    (controller/test/LoopControllerRTL_test.py:219-240, the outer two of three loops).

    `NestedRun` says what the controller itself does, given the leaf's completions.
    `ThirdLevelStalls` says what becomes of that with a leaf that answers its resets: the
    parent's dispatch restarts the child CCU but nothing resets the leaf. */
module LoopParents {
  import Arith
  import opened LoopController

  // ---- the controller ----

  /** No other CGRA takes part. */
  predicate Local(ins: seq<Input>) {
    forall t :: 0 <= t < |ins| ==> !RemoteEvent(ins[t])
  }

  ghost predicate Ready(w: Widths, cs: seq<Ccu>) {
    AllOk(w, cs) && LowersOk(w, cs) && ParentsOk(cs)
  }

  ghost function RunBoth(w: Widths, cs: seq<Ccu>, ins: seq<Input>): (cs': seq<Ccu>)
    requires Ready(w, cs)
    ensures Ready(w, cs') && |cs'| == |cs|
  {
    if ins == [] then cs else NextAny(w, RunBoth(w, cs, ins[..|ins| - 1]), ins[|ins| - 1])
  }

  /** The message that leaves in a cycle, read off the wires. */
  function Leaves(d: Dispatch, i: Input): seq<Dispatch> {
    if (d.ToTile? && i.sendTileRdy) || (d.ToRemote? && i.sendRemoteRdy) then [d] else []
  }

  /** All messages that left. */
  ghost function Log(w: Widths, cs: seq<Ccu>, ins: seq<Input>): seq<Dispatch>
    requires Ready(w, cs)
  {
    if ins == [] then []
    else
      var n := |ins| - 1;
      Log(w, cs, ins[..n]) + Leaves(DispatchOf(w, RunBoth(w, cs, ins[..n])), ins[n])
  }

  /** A completion is taken. */
  function Hit(w: Widths, cs: seq<Ccu>, e: Input): nat
    requires AllOk(w, cs)
  {
    if e.tileComplete && TileRdy(w, cs, e) then 1 else 0
  }

  /** The completions taken. */
  ghost function Taken(w: Widths, cs: seq<Ccu>, ins: seq<Input>): nat
    requires Ready(w, cs)
  {
    if ins == [] then 0
    else
      var n := |ins| - 1;
      Taken(w, cs, ins[..n]) + Hit(w, RunBoth(w, cs, ins[..n]), ins[n])
  }

  // ---- the two loops ----

  /** An unconfigured CCU: it may be restarted, but has nothing to wait for or to send. */
  predicate Inert(x: Ccu) {
    x.numTargets == 0 && !x.state.Dispatching?
  }

  /** None of a CCU's targets sends completions to it. */
  predicate NoLeaf(x: Ccu)
    requires x.numTargets <= |x.targets|
  {
    forall t :: 0 <= t < x.numTargets ==> x.targets[t].remote || x.targets[t].shadowOnly
  }

  /** CCU p and its child c, just launched; p awaits one completion an iteration, the child's. */
  ghost predicate Nested(w: Widths, cs: seq<Ccu>, p: nat, c: nat) {
    && Ready(w, cs) && p < |cs| && c < |cs| && p != c
    && Launched(w, cs[p]) && cs[p].isRoot && Need(cs[p]) == 1 && NoLeaf(cs[p])
    && Launched(w, cs[c]) && !cs[c].isRoot && cs[c].parent == p
    && forall k :: 0 <= k < |cs| && k != p && k != c ==> Inert(cs[k])
  }

  /** The message for a target when the loop's value is v, on the target's channel. */
  function Sends(t: Target, v: nat): Dispatch {
    if t.remote then ToRemote(Due(t, v)) else ToTile(Due(t, v))
  }

  /** The first n messages of round r. */
  function Turn(x: Ccu, r: nat, n: nat): (d: seq<Dispatch>)
    requires n <= |x.targets|
    ensures |d| == n
  {
    if n == 0 then [] else Turn(x, r, n - 1) + [Sends(x.targets[n - 1], ValueAt(x, r))]
  }

  /** Rounds 1 to k. */
  function Turns(x: Ccu, k: nat): seq<Dispatch>
    requires x.numTargets <= |x.targets|
  {
    if k == 0 then [] else Turns(x, k - 1) + Turn(x, k, x.numTargets)
  }

  /** i whole iterations of the outer loop: the inner loop's rounds, then the outer one's. */
  function Outer(P: Ccu, C: Ccu, i: nat): seq<Dispatch>
    requires P.numTargets <= |P.targets| && C.numTargets <= |C.targets| && C.step > 0
  {
    if i == 0 then [] else Outer(P, C, i - 1) + Turns(C, Trips(C) - 1) + Turn(P, i, P.numTargets)
  }

  /** What a loop in its j-th iteration has sent. */
  function SoFar(x: Ccu, now: Ccu, j: nat): seq<Dispatch>
    requires x.numTargets <= |x.targets| && now.dispatchIdx <= |x.targets|
  {
    if j == 0 then []
    else if now.state.Running? then Turns(x, j)
    else Turns(x, j - 1) + if now.state.Dispatching? then Turn(x, j, now.dispatchIdx) else []
  }

  /** The loop x is in its j-th iteration. */
  ghost predicate InLoop(w: Widths, x: Ccu, now: Ccu, j: nat)
    requires Launched(w, x)
  {
    && CcuOk(w, now)
    && now == x.(value := ValueAt(x, j), state := now.state, received := now.received, dispatchIdx := now.dispatchIdx)
    && match now.state
       case Idle => false
       case Running => HasIteration(x, j) && now.received < Need(x) && now.dispatchIdx == 0
       case Dispatching => j > 0 && HasIteration(x, j) && now.dispatchIdx < x.numTargets
       case Complete => j > 0 && HasIteration(x, j - 1) && ValueAt(x, j) >= x.upper
  }

  /** Completions that j iterations and the current one's have used. */
  function Used(x: Ccu, now: Ccu, j: nat): nat {
    Iterations(x, j) + if now.state.Running? then now.received else 0
  }

  /** The two loops together: the parent in iteration i, the child in iteration j of its own. */
  ghost predicate Both(w: Widths, P: Ccu, C: Ccu, cs: seq<Ccu>, p: nat, c: nat, i: nat, j: nat,
                       log: seq<Dispatch>, taken: nat)
    requires Launched(w, P) && Launched(w, C)
  {
    && Ready(w, cs) && p < |cs| && c < |cs| && p != c
    && (forall k :: 0 <= k < |cs| && k != p && k != c ==> Inert(cs[k]))
    && InLoop(w, P, cs[p], i) && InLoop(w, C, cs[c], j)
    && (if cs[p].state.Running? then
          && !cs[c].state.Complete?
          && log == Outer(P, C, i) + SoFar(C, cs[c], j) && taken == i * Iterations(C, Trips(C)) + Used(C, cs[c], j)
        else
          && cs[c].state.Complete? && i > 0 && taken == i * Iterations(C, Trips(C))
          && log == Outer(P, C, i - 1) + Turns(C, Trips(C) - 1)
                    + if cs[p].state.Dispatching? then Turn(P, i, cs[p].dispatchIdx) else [])
  }

  /** The two CCUs have different roles. */
  ghost predicate Roles(P: Ccu, C: Ccu, p: nat) {
    P.isRoot && Need(P) == 1 && P.numTargets <= |P.targets| && NoLeaf(P) && !C.isRoot && C.parent == p
  }

  // ---- one loop's step ----

  /** A completion taken by a loop. */
  lemma LoopCounts(w: Widths, x: Ccu, now: Ccu, j: nat) returns (j': nat)
    requires Launched(w, x) && InLoop(w, x, now, j) && now.state.Running?
    ensures InLoop(w, x, Completed(w, now), j') && !Completed(w, now).state.Idle?
    ensures Used(x, Completed(w, now), j') == Used(x, now, j) + 1
    ensures SoFar(x, Completed(w, now), j') == SoFar(x, now, j)
    ensures Completed(w, now).state.Complete? ==> j' == Trips(x) && SoFar(x, now, j) == Turns(x, Trips(x) - 1)
    ensures Need(x) == 1 ==> j' == j + 1 && !Completed(w, now).state.Running?
    ensures Completed(w, now).state.Dispatching? ==> Completed(w, now).dispatchIdx == 0
  {
    j' := if now.received + 1 < Need(x) then j else j + 1;
    assert ValueAt(x, j + 1) == ValueAt(x, j) + x.step;
    if Completed(w, now).state.Complete? {
      TripsIsLast(x, j');
    }
  }

  /** A message sent by a loop. */
  lemma LoopSends(w: Widths, x: Ccu, now: Ccu, j: nat)
    requires Launched(w, x) && InLoop(w, x, now, j) && now.state.Dispatching?
    ensures InLoop(w, x, Dispatched(w, now), j)
    ensures Dispatched(w, now).state.Running? || Dispatched(w, now).state.Dispatching?
    ensures SoFar(x, Dispatched(w, now), j)
         == SoFar(x, now, j) + [Sends(x.targets[now.dispatchIdx], ValueAt(x, j))]
    ensures Used(x, Dispatched(w, now), j) == Used(x, now, j)
    ensures Dispatched(w, now).state.Running? ==>
              Turn(x, j, x.numTargets)
              == Turn(x, j, now.dispatchIdx) + [Sends(x.targets[now.dispatchIdx], ValueAt(x, j))]
    ensures Dispatched(w, now).state.Dispatching? ==>
              && Dispatched(w, now).dispatchIdx == now.dispatchIdx + 1
              && Turn(x, j, now.dispatchIdx + 1)
                 == Turn(x, j, now.dispatchIdx) + [Sends(x.targets[now.dispatchIdx], ValueAt(x, j))]
  {
    var d := now.dispatchIdx;
    TurnGrows(x, j, d);
    Assoc(Turns(x, j - 1), Turn(x, j, d), Sends(x.targets[d], ValueAt(x, j)));
  }

  lemma TurnGrows(x: Ccu, r: nat, n: nat)
    requires n < |x.targets|
    ensures Turn(x, r, n + 1) == Turn(x, r, n) + [Sends(x.targets[n], ValueAt(x, r))]
  {
  }

  lemma Assoc(a: seq<Dispatch>, b: seq<Dispatch>, d: Dispatch)
    ensures a + (b + [d]) == (a + b) + [d]
  {
  }

  // ---- one cycle of the controller ----

  lemma InertOwnsNothing(w: Widths, x: Ccu, addr: nat)
    requires CcuOk(w, x) && (Inert(x) || NoLeaf(x))
    ensures !Matches(w, x, addr)
  {
  }

  /** Only CCU c can match: then only c and, if it finishes, its parent change. */
  lemma {:induction false} CountedOnlyAt(w: Widths, cs: seq<Ccu>, addr: nat, next: seq<Ccu>, n: nat, c: nat)
    requires AllOk(w, cs) && AllOk(w, next) && ParentsOk(cs) && n <= |cs| == |next| && c < |cs|
    requires forall k :: 0 <= k < |cs| && Matches(w, cs[k], addr) ==> k == c
    requires !cs[c].isRoot && cs[c].parent != c
    ensures n <= c || !Matches(w, cs[c], addr) ==> Counted(w, cs, addr, next, n) == next
    ensures n > c && Matches(w, cs[c], addr) ==>
              Counted(w, cs, addr, next, n)
              == if Finishes(w, cs[c])
                 then next[c := Count(w, cs[c], next[c])]
                          [cs[c].parent := Count(w, cs[cs[c].parent], next[cs[c].parent])]
                 else next[c := Count(w, cs[c], next[c])]
  {
    if n > 0 {
      CountedOnlyAt(w, cs, addr, next, n - 1, c);
    }
  }

  /** A completion is taken from the tile exactly when the child counts it. */
  lemma TakenByChild(w: Widths, cs: seq<Ccu>, e: Input, p: nat, c: nat)
    requires Ready(w, cs) && p < |cs| && c < |cs| && NoLeaf(cs[p])
    requires forall k :: 0 <= k < |cs| && k != p && k != c ==> Inert(cs[k])
    ensures forall k :: 0 <= k < |cs| && Matches(w, cs[k], e.tileAddr) ==> k == c
    ensures e.tileComplete && TileRdy(w, cs, e) <==> e.tileVal && e.tileComplete && Matches(w, cs[c], e.tileAddr)
  {
    forall k | 0 <= k < |cs| && k != c ensures !Matches(w, cs[k], e.tileAddr) {
      InertOwnsNothing(w, cs[k], e.tileAddr);
    }
  }

  /** The edge when at most the child counts. */
  lemma EdgeIs(w: Widths, cs: seq<Ccu>, e: Input, p: nat, c: nat)
    requires Ready(w, cs) && p < |cs| && c < |cs| && p != c && NoLeaf(cs[p]) && !RemoteEvent(e)
    requires forall k :: 0 <= k < |cs| && k != p && k != c ==> Inert(cs[k])
    requires !cs[c].isRoot && cs[c].parent == p
    ensures var next, hit := Advance(w, cs, e), e.tileVal && e.tileComplete && Matches(w, cs[c], e.tileAddr);
            && NextAny(w, cs, e)[c] == (if hit then Count(w, cs[c], next[c]) else next[c])
            && NextAny(w, cs, e)[p] == (if hit && Finishes(w, cs[c]) then Count(w, cs[p], next[p]) else next[p])
            && forall k :: 0 <= k < |cs| && k != p && k != c ==> NextAny(w, cs, e)[k] == next[k]
  {
    TakenByChild(w, cs, e, p, c);
    CountedOnlyAt(w, cs, e.tileAddr, Advance(w, cs, e), |cs|, c);
  }

  lemma StayInert(w: Widths, cs: seq<Ccu>, e: Input, k: nat)
    requires Ready(w, cs) && k < |cs| && Inert(cs[k])
    ensures Inert(AdvancedOne(w, cs, e, k))
  {
  }

  /** The dispatching CCU's message and what its leaving does. */
  lemma OnlyActive(w: Widths, cs: seq<Ccu>, e: Input, a: nat)
    requires Ready(w, cs) && a < |cs| && cs[a].state.Dispatching?
    requires forall k :: 0 <= k < |cs| && k != a ==> !cs[k].state.Dispatching?
    ensures Active(cs, 0) == a
    ensures DispatchOf(w, cs) == Sends(cs[a].targets[cs[a].dispatchIdx], cs[a].value)
    ensures Leaves(DispatchOf(w, cs), e) == if SentNow(w, cs, e) then [DispatchOf(w, cs)] else []
  {
  }

  lemma NoneActive(w: Widths, cs: seq<Ccu>, e: Input)
    requires Ready(w, cs) && forall k :: 0 <= k < |cs| ==> !cs[k].state.Dispatching?
    ensures Advance(w, cs, e) == cs && Leaves(DispatchOf(w, cs), e) == []
  {
  }

  /** The registers around a parent and its child that is not restarted by another. */
  ghost predicate Frame(w: Widths, cs: seq<Ccu>, p: nat, c: nat) {
    && Ready(w, cs) && p < |cs| && c < |cs| && p != c && NoLeaf(cs[p]) && cs[p].isRoot
    && !cs[c].isRoot && cs[c].parent == p
    && forall k :: 0 <= k < |cs| && k != p && k != c ==> Inert(cs[k])
  }

  /** The edge when both run. */
  lemma RunningEdge(w: Widths, cs: seq<Ccu>, e: Input, p: nat, c: nat)
    requires Frame(w, cs, p, c) && !RemoteEvent(e) && cs[p].state.Running? && cs[c].state.Running?
    ensures var cs', hit := NextAny(w, cs, e), e.tileComplete && TileRdy(w, cs, e);
            && Ready(w, cs') && (forall k :: 0 <= k < |cs| && k != p && k != c ==> Inert(cs'[k]))
            && Leaves(DispatchOf(w, cs), e) == []
            && cs'[c] == (if hit then Completed(w, cs[c]) else cs[c])
            && cs'[p] == if hit && Completed(w, cs[c]).state.Complete? then Completed(w, cs[p]) else cs[p]
  {
    NoneActive(w, cs, e);
    TakenByChild(w, cs, e, p, c);
    EdgeIs(w, cs, e, p, c);
  }

  /** The edge when the child has a message to send. */
  lemma ChildEdge(w: Widths, cs: seq<Ccu>, e: Input, p: nat, c: nat)
    requires Frame(w, cs, p, c) && !RemoteEvent(e) && cs[p].state.Running? && cs[c].state.Dispatching?
    ensures var cs', out := NextAny(w, cs, e), Leaves(DispatchOf(w, cs), e);
            && Ready(w, cs') && (forall k :: 0 <= k < |cs| && k != p && k != c ==> Inert(cs'[k]))
            && !(e.tileComplete && TileRdy(w, cs, e)) && cs'[p] == cs[p]
            && (out == [] || out == [Sends(cs[c].targets[cs[c].dispatchIdx], cs[c].value)])
            && cs'[c] == if out == [] then cs[c] else Dispatched(w, cs[c])
  {
    OnlyActive(w, cs, e, c);
    TakenByChild(w, cs, e, p, c);
    EdgeIs(w, cs, e, p, c);
    forall k | 0 <= k < |cs| && k != p && k != c ensures Inert(NextAny(w, cs, e)[k]) { StayInert(w, cs, e, k); }
  }

  /** The edge when the parent has one; after its last the child starts over. */
  lemma ParentEdge(w: Widths, cs: seq<Ccu>, e: Input, p: nat, c: nat)
    requires Frame(w, cs, p, c) && !RemoteEvent(e) && cs[p].state.Dispatching? && cs[c].state.Complete?
    ensures var cs', out := NextAny(w, cs, e), Leaves(DispatchOf(w, cs), e);
            && Ready(w, cs') && (forall k :: 0 <= k < |cs| && k != p && k != c ==> Inert(cs'[k]))
            && !(e.tileComplete && TileRdy(w, cs, e))
            && (out == [] || out == [Sends(cs[p].targets[cs[p].dispatchIdx], cs[p].value)])
            && cs'[p] == (if out == [] then cs[p] else Dispatched(w, cs[p]))
            && cs'[c] == if out != [] && Dispatched(w, cs[p]).state.Running?
                         then cs[c].(state := Running, value := cs[c].lower, received := 0, dispatchIdx := 0)
                         else cs[c]
  {
    OnlyActive(w, cs, e, p);
    TakenByChild(w, cs, e, p, c);
    EdgeIs(w, cs, e, p, c);
    forall k | 0 <= k < |cs| && k != p && k != c ensures Inert(NextAny(w, cs, e)[k]) { StayInert(w, cs, e, k); }
  }

  lemma FrameOf(w: Widths, P: Ccu, C: Ccu, cs: seq<Ccu>, p: nat, c: nat, i: nat, j: nat, log: seq<Dispatch>, taken: nat)
    requires Launched(w, P) && Launched(w, C) && Roles(P, C, p) && Both(w, P, C, cs, p, c, i, j, log, taken)
    ensures Frame(w, cs, p, c)
  {
  }

  /** A cycle in which the child counts a completion that is not its last. */
  lemma ChildCounts(w: Widths, P: Ccu, C: Ccu, cs: seq<Ccu>, cs': seq<Ccu>, p: nat, c: nat,
                    i: nat, j: nat, log: seq<Dispatch>, taken: nat) returns (j': nat)
    requires Launched(w, P) && Launched(w, C) && Roles(P, C, p)
    requires Both(w, P, C, cs, p, c, i, j, log, taken) && cs[p].state.Running? && cs[c].state.Running?
    requires Ready(w, cs') && |cs'| == |cs| && (forall k :: 0 <= k < |cs| && k != p && k != c ==> Inert(cs'[k]))
    requires cs'[c] == Completed(w, cs[c]) && !cs'[c].state.Complete? && cs'[p] == cs[p]
    ensures Both(w, P, C, cs', p, c, i, j', log, taken + 1)
  {
    j' := LoopCounts(w, C, cs[c], j);
  }

  /** A cycle in which it counts its last, which is one of the parent's. */
  lemma ChildFinishes(w: Widths, P: Ccu, C: Ccu, cs: seq<Ccu>, cs': seq<Ccu>, p: nat, c: nat,
                      i: nat, j: nat, log: seq<Dispatch>, taken: nat) returns (i': nat, j': nat)
    requires Launched(w, P) && Launched(w, C) && Roles(P, C, p)
    requires Both(w, P, C, cs, p, c, i, j, log, taken) && cs[p].state.Running? && cs[c].state.Running?
    requires Ready(w, cs') && |cs'| == |cs| && (forall k :: 0 <= k < |cs| && k != p && k != c ==> Inert(cs'[k]))
    requires cs'[c] == Completed(w, cs[c]) && cs'[c].state.Complete? && cs'[p] == Completed(w, cs[p])
    ensures Both(w, P, C, cs', p, c, i', j', log, taken + 1)
  {
    j' := LoopCounts(w, C, cs[c], j);
    i' := LoopCounts(w, P, cs[p], i);
    OneMoreIteration(w, P, cs[p], i, i');
    Iterated(C, i);
  }

  lemma OneMoreIteration(w: Widths, x: Ccu, now: Ccu, i: nat, i': nat)
    requires Launched(w, x) && InLoop(w, x, now, i) && now.state.Running? && Need(x) == 1
    requires InLoop(w, x, Completed(w, now), i') && Used(x, Completed(w, now), i') == Used(x, now, i) + 1
    ensures i' == i + 1 && !Completed(w, now).state.Running?
    ensures Completed(w, now).state.Dispatching? ==> Completed(w, now).dispatchIdx == 0
  {
    ValueIs(x, i);
    ValueIs(x, i');
  }

  /** A cycle in which nothing is counted. */
  lemma NothingCounts(w: Widths, P: Ccu, C: Ccu, cs: seq<Ccu>, cs': seq<Ccu>, p: nat, c: nat,
                      i: nat, j: nat, log: seq<Dispatch>, taken: nat)
    requires Launched(w, P) && Launched(w, C) && Roles(P, C, p)
    requires Both(w, P, C, cs, p, c, i, j, log, taken) && cs[p].state.Running? && cs[c].state.Running?
    requires Ready(w, cs') && |cs'| == |cs| && (forall k :: 0 <= k < |cs| && k != p && k != c ==> Inert(cs'[k]))
    requires cs'[c] == cs[c] && cs'[p] == cs[p]
    ensures Both(w, P, C, cs', p, c, i, j, log, taken)
  {
  }

  lemma Iterated(C: Ccu, i: nat)
    requires C.step > 0
    ensures (i + 1) * Iterations(C, Trips(C)) == i * Iterations(C, Trips(C)) + Iterations(C, Trips(C))
  {
  }

  /** A cycle in which the child sends a message. */
  lemma ChildCycle(w: Widths, P: Ccu, C: Ccu, cs: seq<Ccu>, cs': seq<Ccu>, p: nat, c: nat,
                   i: nat, j: nat, log: seq<Dispatch>, taken: nat)
    requires Launched(w, P) && Launched(w, C) && Roles(P, C, p)
    requires Both(w, P, C, cs, p, c, i, j, log, taken) && cs[p].state.Running? && cs[c].state.Dispatching?
    requires Ready(w, cs') && |cs'| == |cs| && (forall k :: 0 <= k < |cs| && k != p && k != c ==> Inert(cs'[k]))
    requires cs'[p] == cs[p] && cs'[c] == Dispatched(w, cs[c])
    ensures Both(w, P, C, cs', p, c, i, j, log + [Sends(cs[c].targets[cs[c].dispatchIdx], cs[c].value)], taken)
  {
    LoopSends(w, C, cs[c], j);
    Assoc(Outer(P, C, i), SoFar(C, cs[c], j), Sends(cs[c].targets[cs[c].dispatchIdx], cs[c].value));
  }

  /** A cycle in which the parent sends one that is not its last. */
  lemma ParentGoesOn(w: Widths, P: Ccu, C: Ccu, cs: seq<Ccu>, cs': seq<Ccu>, p: nat, c: nat,
                     i: nat, j: nat, log: seq<Dispatch>, taken: nat)
    requires Launched(w, P) && Launched(w, C) && Roles(P, C, p)
    requires Both(w, P, C, cs, p, c, i, j, log, taken) && cs[p].state.Dispatching?
    requires Ready(w, cs') && |cs'| == |cs| && (forall k :: 0 <= k < |cs| && k != p && k != c ==> Inert(cs'[k]))
    requires cs'[p] == Dispatched(w, cs[p]) && cs'[p].state.Dispatching? && cs'[c] == cs[c]
    ensures Both(w, P, C, cs', p, c, i, j, log + [Sends(cs[p].targets[cs[p].dispatchIdx], cs[p].value)], taken)
  {
    LoopSends(w, P, cs[p], i);
    Assoc(Outer(P, C, i - 1) + Turns(C, Trips(C) - 1), Turn(P, i, cs[p].dispatchIdx),
          Sends(cs[p].targets[cs[p].dispatchIdx], cs[p].value));
  }

  /** A cycle in which it sends its last: the child starts over. */
  lemma ParentEnds(w: Widths, P: Ccu, C: Ccu, cs: seq<Ccu>, cs': seq<Ccu>, p: nat, c: nat,
                   i: nat, j: nat, log: seq<Dispatch>, taken: nat)
    requires Launched(w, P) && Launched(w, C) && Roles(P, C, p)
    requires Both(w, P, C, cs, p, c, i, j, log, taken) && cs[p].state.Dispatching?
    requires Ready(w, cs') && |cs'| == |cs| && (forall k :: 0 <= k < |cs| && k != p && k != c ==> Inert(cs'[k]))
    requires cs'[p] == Dispatched(w, cs[p]) && cs'[p].state.Running?
    requires cs'[c] == cs[c].(state := Running, value := cs[c].lower, received := 0, dispatchIdx := 0)
    ensures Both(w, P, C, cs', p, c, i, 0, log + [Sends(cs[p].targets[cs[p].dispatchIdx], cs[p].value)], taken)
  {
    var m := Sends(cs[p].targets[cs[p].dispatchIdx], cs[p].value);
    assert InLoop(w, P, cs'[p], i) && Turn(P, i, cs[p].dispatchIdx) + [m] == Turn(P, i, P.numTargets) by {
      LoopSends(w, P, cs[p], i);
    }
    RestartIs(w, C, cs[c], j);
    assert log + [m] == Outer(P, C, i) + SoFar(C, C, 0) by {
      RoundEnds(P, C, i, cs[p].dispatchIdx, m);
    }
  }

  /** A restarted loop is the launched one. */
  lemma RestartIs(w: Widths, x: Ccu, now: Ccu, j: nat)
    requires Launched(w, x) && InLoop(w, x, now, j)
    ensures now.(state := Running, value := now.lower, received := 0, dispatchIdx := 0) == x
    ensures InLoop(w, x, x, 0) && Used(x, x, 0) == 0
  {
  }

  /** With its last message an outer iteration is whole. */
  lemma RoundEnds(P: Ccu, C: Ccu, i: nat, d: nat, m: Dispatch)
    requires P.numTargets <= |P.targets| && C.numTargets <= |C.targets| && C.step > 0 && C.dispatchIdx <= |C.targets|
    requires i > 0 && Trips(C) > 0 && d <= P.numTargets && Turn(P, i, d) + [m] == Turn(P, i, P.numTargets)
    ensures Outer(P, C, i - 1) + Turns(C, Trips(C) - 1) + Turn(P, i, d) + [m] == Outer(P, C, i) + SoFar(C, C, 0)
  {
    Assoc(Outer(P, C, i - 1) + Turns(C, Trips(C) - 1), Turn(P, i, d), m);
    Nothing(Outer(P, C, i));
  }

  datatype Standing = InStep | OutOfStep

  /** `Both`, as a value. */
  ghost function Nesting(w: Widths, P: Ccu, C: Ccu, cs: seq<Ccu>, p: nat, c: nat, i: nat, j: nat,
                         log: seq<Dispatch>, taken: nat): (s: Standing)
    ensures s == InStep ==> Ready(w, cs) && p < |cs| && c < |cs|
  {
    if Launched(w, P) && Launched(w, C) && Both(w, P, C, cs, p, c, i, j, log, taken) then InStep else OutOfStep
  }

  lemma Nothing<T>(s: seq<T>)
    ensures s + [] == s
  {
  }

  lemma ParentStep(w: Widths, P: Ccu, C: Ccu, cs: seq<Ccu>, cs': seq<Ccu>, e: Input, p: nat, c: nat,
                   i: nat, j: nat, log: seq<Dispatch>, taken: nat) returns (j': nat)
    requires Nesting(w, P, C, cs, p, c, i, j, log, taken) == InStep && Roles(P, C, p)
    requires !RemoteEvent(e) && cs' == NextAny(w, cs, e) && cs[p].state.Dispatching?
    ensures Nesting(w, P, C, cs', p, c, i, j', log + Leaves(DispatchOf(w, cs), e),
                    taken + Hit(w, cs, e)) == InStep
  {
    j' := j;
    FrameOf(w, P, C, cs, p, c, i, j, log, taken);
    ParentEdge(w, cs, e, p, c);
    Nothing(log);
    if Leaves(DispatchOf(w, cs), e) != [] {
      if cs'[p].state.Dispatching? {
        ParentGoesOn(w, P, C, cs, cs', p, c, i, j, log, taken);
      } else {
        j' := 0;
        LoopSends(w, P, cs[p], i);
        ParentEnds(w, P, C, cs, cs', p, c, i, j, log, taken);
      }
    }
  }

  lemma RunningStep(w: Widths, P: Ccu, C: Ccu, cs: seq<Ccu>, cs': seq<Ccu>, e: Input, p: nat, c: nat,
                    i: nat, j: nat, log: seq<Dispatch>, taken: nat) returns (i': nat, j': nat)
    requires Nesting(w, P, C, cs, p, c, i, j, log, taken) == InStep && Roles(P, C, p)
    requires !RemoteEvent(e) && cs' == NextAny(w, cs, e)
    requires cs[p].state.Running? && cs[c].state.Running?
    ensures Nesting(w, P, C, cs', p, c, i', j', log + Leaves(DispatchOf(w, cs), e),
                    taken + Hit(w, cs, e)) == InStep
  {
    FrameOf(w, P, C, cs, p, c, i, j, log, taken);
    RunningEdge(w, cs, e, p, c);
    Nothing(log);
    i', j' := i, j;
    if Hit(w, cs, e) == 0 {
      NothingCounts(w, P, C, cs, cs', p, c, i, j, log, taken);
    } else if cs'[c].state.Complete? {
      i', j' := ChildFinishes(w, P, C, cs, cs', p, c, i, j, log, taken);
    } else {
      j' := ChildCounts(w, P, C, cs, cs', p, c, i, j, log, taken);
    }
  }

  lemma ChildStepOn(w: Widths, P: Ccu, C: Ccu, cs: seq<Ccu>, cs': seq<Ccu>, e: Input, p: nat, c: nat,
                    i: nat, j: nat, log: seq<Dispatch>, taken: nat)
    requires Nesting(w, P, C, cs, p, c, i, j, log, taken) == InStep && Roles(P, C, p)
    requires !RemoteEvent(e) && cs' == NextAny(w, cs, e)
    requires cs[p].state.Running? && cs[c].state.Dispatching?
    ensures Nesting(w, P, C, cs', p, c, i, j, log + Leaves(DispatchOf(w, cs), e),
                    taken + Hit(w, cs, e)) == InStep
  {
    FrameOf(w, P, C, cs, p, c, i, j, log, taken);
    ChildEdge(w, cs, e, p, c);
    Nothing(log);
    if Leaves(DispatchOf(w, cs), e) != [] { ChildCycle(w, P, C, cs, cs', p, c, i, j, log, taken); }
  }

  lemma DoneStep(w: Widths, P: Ccu, C: Ccu, cs: seq<Ccu>, cs': seq<Ccu>, e: Input, p: nat, c: nat,
                 i: nat, j: nat, log: seq<Dispatch>, taken: nat)
    requires Nesting(w, P, C, cs, p, c, i, j, log, taken) == InStep && Roles(P, C, p)
    requires !RemoteEvent(e) && cs' == NextAny(w, cs, e)
    requires !cs[p].state.Running? && !cs[p].state.Dispatching?
    ensures Nesting(w, P, C, cs', p, c, i, j, log + Leaves(DispatchOf(w, cs), e),
                    taken + Hit(w, cs, e)) == InStep
  {
    FrameOf(w, P, C, cs, p, c, i, j, log, taken);
    NoneActive(w, cs, e);
    TakenByChild(w, cs, e, p, c);
    EdgeIs(w, cs, e, p, c);
    Nothing(log);
  }

  /** Every cycle keeps the two loops in step. */
  lemma NestStep(w: Widths, P: Ccu, C: Ccu, cs: seq<Ccu>, cs': seq<Ccu>, e: Input, p: nat, c: nat,
                 i: nat, j: nat, log: seq<Dispatch>, taken: nat) returns (i': nat, j': nat)
    requires Nesting(w, P, C, cs, p, c, i, j, log, taken) == InStep && Roles(P, C, p)
    requires !RemoteEvent(e) && cs' == NextAny(w, cs, e)
    ensures Nesting(w, P, C, cs', p, c, i', j', log + Leaves(DispatchOf(w, cs), e),
                    taken + Hit(w, cs, e)) == InStep
  {
    i', j' := i, j;
    if cs[p].state.Dispatching? {
      j' := ParentStep(w, P, C, cs, cs', e, p, c, i, j, log, taken);
    } else if !cs[p].state.Running? {
      DoneStep(w, P, C, cs, cs', e, p, c, i, j, log, taken);
    } else if cs[c].state.Running? {
      i', j' := RunningStep(w, P, C, cs, cs', e, p, c, i, j, log, taken);
    } else {
      ChildStepOn(w, P, C, cs, cs', e, p, c, i, j, log, taken);
    }
  }

  // ---- whole runs from a launch ----

  /** CCUs p and c configured as the two loops, and no others. */
  ghost predicate NestConfigured(w: Widths, ds: seq<Ccu>, p: nat, c: nat) {
    && Ready(w, ds) && p < |ds| && c < |ds| && p != c
    && Configured(w, ds[p]) && ds[p].isRoot && Need(ds[p]) == 1 && NoLeaf(ds[p])
    && Configured(w, ds[c]) && !ds[c].isRoot && ds[c].parent == p
    && forall k :: 0 <= k < |ds| && k != p && k != c ==> Inert(ds[k])
  }

  lemma LaunchNests(w: Widths, ds: seq<Ccu>, p: nat, c: nat)
    requires NestConfigured(w, ds, p, c)
    ensures Nested(w, LaunchAll(w, ds), p, c)
  {
    LaunchStarts(w, ds[p]);
    LaunchStarts(w, ds[c]);
  }

  lemma NestStarts(w: Widths, cs: seq<Ccu>, p: nat, c: nat)
    requires Nested(w, cs, p, c)
    ensures Nesting(w, cs[p], cs[c], cs, p, c, 0, 0, [], 0) == InStep
  {
    assert Outer(cs[p], cs[c], 0) + [] == [];
  }

  /** Under any timing the controller is, at every moment, in some iteration of both loops:
      it has taken just the completions of the inner loop's iterations so far, and sent just
      the messages of the rounds between them. */
  lemma {:induction false} NestedRun(w: Widths, cs: seq<Ccu>, ins: seq<Input>, p: nat, c: nat) returns (i: nat, j: nat)
    requires Nested(w, cs, p, c) && Local(ins)
    ensures Nesting(w, cs[p], cs[c], RunBoth(w, cs, ins), p, c, i, j, Log(w, cs, ins), Taken(w, cs, ins)) == InStep
  {
    if ins == [] {
      i, j := 0, 0;
      NestStarts(w, cs, p, c);
    } else {
      var n := |ins| - 1;
      i, j := NestedRun(w, cs, ins[..n], p, c);
      assert !RemoteEvent(ins[n]);
      i, j := NestStep(w, cs[p], cs[c], RunBoth(w, cs, ins[..n]), RunBoth(w, cs, ins), ins[n], p, c, i, j,
                       Log(w, cs, ins[..n]), Taken(w, cs, ins[..n]));
    }
  }

  lemma UsedBelow(w: Widths, x: Ccu, now: Ccu, j: nat)
    requires Launched(w, x) && InLoop(w, x, now, j) && !now.state.Complete?
    ensures j < Trips(x) && Used(x, now, j) < Iterations(x, Trips(x)) == Trips(x) * Need(x)
  {
    IterationExactly(x, j);
    ValueIs(x, j);
    ValueIs(x, Trips(x));
    Arith.MulMono(j + 1, Trips(x), Need(x));
    assert (j + 1) * Need(x) == j * Need(x) + Need(x);
  }

  /** The outer loop is complete exactly when the completions of all inner iterations have
      been taken; and by then the messages that left are those of the two nested loops, in
      order, each on its target's channel. */
  ghost predicate RunsTheNest(w: Widths, P: Ccu, C: Ccu, now: Ccu, log: seq<Dispatch>, taken: nat)
    requires Launched(w, P) && Launched(w, C)
  {
    && taken <= Trips(P) * (Trips(C) * Need(C))
    && (now.state.Complete? <==> taken == Trips(P) * (Trips(C) * Need(C)))
    && (now.state.Complete? ==> log == Outer(P, C, Trips(P) - 1) + Turns(C, Trips(C) - 1))
  }

  lemma TotalIs(w: Widths, P: Ccu, C: Ccu, cs: seq<Ccu>, p: nat, c: nat, i: nat, j: nat,
                log: seq<Dispatch>, taken: nat)
    requires Launched(w, P) && Launched(w, C) && Both(w, P, C, cs, p, c, i, j, log, taken)
    ensures RunsTheNest(w, P, C, cs[p], log, taken)
  {
    var all := Iterations(C, Trips(C));
    ValueIs(C, Trips(C));
    if cs[p].state.Complete? {
      TripsIsLast(P, i);
    } else {
      UsedBelow(w, P, cs[p], i);
      if cs[p].state.Running? { UsedBelow(w, C, cs[c], j); }
      Arith.MulMono(i + 1, Trips(P), all);
      assert (i + 1) * all == i * all + all && all > 0;
    }
  }

  lemma LaunchedNestRuns(w: Widths, cs: seq<Ccu>, ins: seq<Input>, p: nat, c: nat)
    requires Nested(w, cs, p, c) && Local(ins)
    ensures RunsTheNest(w, cs[p], cs[c], RunBoth(w, cs, ins)[p], Log(w, cs, ins), Taken(w, cs, ins))
  {
    var i, j := NestedRun(w, cs, ins, p, c);
    TotalIs(w, cs[p], cs[c], RunBoth(w, cs, ins), p, c, i, j, Log(w, cs, ins), Taken(w, cs, ins));
  }

  /** From the LAUNCH on, under any timing. */
  lemma NestedLoops(w: Widths, ds: seq<Ccu>, ins: seq<Input>, p: nat, c: nat)
    requires NestConfigured(w, ds, p, c) && Local(ins)
    ensures Nested(w, LaunchAll(w, ds), p, c)
    ensures var cs := LaunchAll(w, ds);
            RunsTheNest(w, cs[p], cs[c], RunBoth(w, cs, ins)[p], Log(w, cs, ins), Taken(w, cs, ins))
  {
    LaunchNests(w, ds, p, c);
    LaunchedNestRuns(w, LaunchAll(w, ds), ins, p, c);
  }

  /** One message of a round, in closed form. */
  lemma {:induction false} TurnAt(x: Ccu, r: nat, n: nat, t: nat)
    requires t < n <= |x.targets|
    ensures Turn(x, r, n)[t] == Sends(x.targets[t], x.lower + r * x.step)
  {
    if t == n - 1 {
      ValueIs(x, r);
    } else {
      TurnAt(x, r, n - 1, t);
    }
  }

  // ---- with a leaf that answers its resets ----

  /** How often the leaf at address a is reset. */
  function Resets(log: seq<Dispatch>, a: nat): nat {
    if log == [] then 0
    else Resets(log[..|log| - 1], a) + if log[|log| - 1] == ToTile(Reset(a)) then 1 else 0
  }

  lemma {:induction false} ResetsConcat(x: seq<Dispatch>, y: seq<Dispatch>, a: nat)
    ensures Resets(x + y, a) == Resets(x, a) + Resets(y, a)
    decreases |y|
  {
    if y == [] {
      assert x + y == x;
    } else {
      ResetsConcat(x, y[..|y| - 1], a);
      assert (x + y)[..|x + y| - 1] == x + y[..|y| - 1];
    }
  }

  /** Target t is the leaf at address a. */
  predicate IsLeaf(t: Target, a: nat) {
    !t.remote && !t.shadowOnly && t.addr == a
  }

  /** Just one of a CCU's targets is this leaf. */
  ghost predicate OneLeaf(x: Ccu, a: nat)
    requires x.numTargets <= |x.targets|
  {
    exists t :: LeafAt(x, a, t)
  }

  ghost predicate LeafAt(x: Ccu, a: nat, t: nat)
    requires x.numTargets <= |x.targets|
  {
    t < x.numTargets && forall u :: 0 <= u < x.numTargets ==> (IsLeaf(x.targets[u], a) <==> u == t)
  }

  lemma {:induction false} TurnResets(x: Ccu, a: nat, t: nat, r: nat, n: nat)
    requires x.numTargets <= |x.targets| && LeafAt(x, a, t) && n <= x.numTargets
    ensures Resets(Turn(x, r, n), a) == if n <= t then 0 else 1
  {
    if n > 0 {
      TurnResets(x, a, t, r, n - 1);
      assert Turn(x, r, n)[..n - 1] == Turn(x, r, n - 1);
    }
  }

  lemma {:induction false} TurnHasNone(x: Ccu, a: nat, r: nat, n: nat)
    requires x.numTargets <= |x.targets| && NoLeaf(x) && n <= x.numTargets
    ensures Resets(Turn(x, r, n), a) == 0
  {
    if n > 0 {
      TurnHasNone(x, a, r, n - 1);
      assert Turn(x, r, n)[..n - 1] == Turn(x, r, n - 1);
    }
  }

  lemma {:induction false} TurnsReset(x: Ccu, a: nat, t: nat, k: nat)
    requires x.numTargets <= |x.targets| && LeafAt(x, a, t)
    ensures Resets(Turns(x, k), a) == k
  {
    if k > 0 {
      TurnsReset(x, a, t, k - 1);
      TurnResets(x, a, t, k, x.numTargets);
      ResetsConcat(Turns(x, k - 1), Turn(x, k, x.numTargets), a);
    }
  }

  lemma {:induction false} OuterResets(P: Ccu, C: Ccu, a: nat, t: nat, i: nat)
    requires P.numTargets <= |P.targets| && NoLeaf(P) && C.numTargets <= |C.targets| && LeafAt(C, a, t) && C.step > 0
    requires Trips(C) >= 1
    ensures Resets(Outer(P, C, i), a) == i * (Trips(C) - 1)
  {
    if i > 0 {
      OuterResets(P, C, a, t, i - 1);
      TurnsReset(C, a, t, Trips(C) - 1);
      TurnHasNone(P, a, i, P.numTargets);
      ResetsConcat(Outer(P, C, i - 1), Turns(C, Trips(C) - 1), a);
      ResetsConcat(Outer(P, C, i - 1) + Turns(C, Trips(C) - 1), Turn(P, i, P.numTargets), a);
      assert i * (Trips(C) - 1) == (i - 1) * (Trips(C) - 1) + (Trips(C) - 1);
    }
  }

  lemma OneLess(i: nat, n: nat)
    requires n > 0
    ensures i * n == i * (n - 1) + i
    ensures i > 0 ==> i * (n - 1) == (i - 1) * (n - 1) + (n - 1)
  {
  }

  lemma SomeTrip(x: Ccu)
    requires x.step > 0
    ensures Trips(x) >= 1
  {
    IterationExactly(x, 0);
  }

  /** Completions taken beyond the resets sent: one for each inner loop finished, and one more
      while the reset of the current inner iteration is still to come. */
  lemma DebtRunning(w: Widths, P: Ccu, C: Ccu, cs: seq<Ccu>, p: nat, c: nat, i: nat, j: nat,
                    log: seq<Dispatch>, taken: nat, a: nat, t: nat)
    requires Launched(w, P) && Launched(w, C) && Roles(P, C, p) && LeafAt(C, a, t) && Need(C) == 1
    requires Both(w, P, C, cs, p, c, i, j, log, taken) && cs[p].state.Running?
    ensures taken >= Resets(log, a) + i
    ensures cs[c].state.Dispatching? && cs[c].dispatchIdx == 0 ==> taken == Resets(log, a) + i + 1
  {
    SomeTrip(C);
    ValueIs(C, Trips(C));
    ValueIs(C, j);
    OneLess(i, Trips(C));
    OuterResets(P, C, a, t, i);
    ResetsConcat(Outer(P, C, i), SoFar(C, cs[c], j), a);
    SoFarResets(w, C, cs[c], j, a, t);
  }

  lemma WholeResets(P: Ccu, C: Ccu, a: nat, t: nat, i: nat, now: seq<Dispatch>)
    requires P.numTargets <= |P.targets| && NoLeaf(P) && C.numTargets <= |C.targets| && LeafAt(C, a, t) && C.step > 0
    requires i > 0 && Resets(now, a) == 0
    ensures Trips(C) >= 1 && Resets(Outer(P, C, i - 1) + Turns(C, Trips(C) - 1) + now, a) == i * (Trips(C) - 1)
  {
    SomeTrip(C);
    OneLess(i, Trips(C));
    TurnsReset(C, a, t, Trips(C) - 1);
    OuterResets(P, C, a, t, i - 1);
    ResetsConcat(Outer(P, C, i - 1), Turns(C, Trips(C) - 1), a);
    ResetsConcat(Outer(P, C, i - 1) + Turns(C, Trips(C) - 1), now, a);
  }

  lemma DebtElse(w: Widths, P: Ccu, C: Ccu, cs: seq<Ccu>, p: nat, c: nat, i: nat, j: nat,
                 log: seq<Dispatch>, taken: nat, a: nat, t: nat)
    requires Launched(w, P) && Launched(w, C) && Roles(P, C, p) && LeafAt(C, a, t) && Need(C) == 1
    requires Both(w, P, C, cs, p, c, i, j, log, taken) && !cs[p].state.Running?
    ensures taken >= Resets(log, a) + i
  {
    var now := if cs[p].state.Dispatching? then Turn(P, i, cs[p].dispatchIdx) else [];
    if cs[p].state.Dispatching? { TurnHasNone(P, a, i, cs[p].dispatchIdx); }
    WholeResets(P, C, a, t, i, now);
    ValueIs(C, Trips(C));
    OneLess(i, Trips(C));
  }

  lemma SoFarResets(w: Widths, x: Ccu, now: Ccu, j: nat, a: nat, t: nat)
    requires Launched(w, x) && InLoop(w, x, now, j) && LeafAt(x, a, t) && !now.state.Complete?
    ensures Resets(SoFar(x, now, j), a) <= j
    ensures now.state.Dispatching? && now.dispatchIdx == 0 ==> Resets(SoFar(x, now, j), a) == j - 1
  {
    if j > 0 {
      TurnsReset(x, a, t, j);
      TurnsReset(x, a, t, j - 1);
      if now.state.Dispatching? {
        TurnResets(x, a, t, j, now.dispatchIdx);
        ResetsConcat(Turns(x, j - 1), Turn(x, j, now.dispatchIdx), a);
      }
    }
  }

  /** The second outer iteration cannot get under way. */
  ghost predicate Stuck(cs: seq<Ccu>, C: Ccu, p: nat, c: nat, i: nat)
    requires p < |cs| && c < |cs|
  {
    i == 0 || (i == 1 && (cs[p].state.Dispatching? || (cs[p].state.Running? && cs[c] == C)))
  }

  lemma SameIteration(w: Widths, x: Ccu, now: Ccu, i: nat, i': nat)
    requires Launched(w, x) && InLoop(w, x, now, i) && InLoop(w, x, now, i')
    ensures i == i'
  {
    ValueIs(x, i);
    ValueIs(x, i');
    SameFactor(i, i', x.step);
  }

  lemma SameFactor(i: nat, k: nat, n: nat)
    requires n > 0 && i * n == k * n
    ensures i == k
  {
    if i < k { Arith.MulMono(i + 1, k, n); } else if k < i { Arith.MulMono(k + 1, i, n); }
    assert (i + 1) * n == i * n + n && (k + 1) * n == k * n + n;
  }

  lemma StuckStep(w: Widths, P: Ccu, C: Ccu, cs: seq<Ccu>, cs': seq<Ccu>, e: Input, p: nat, c: nat,
                  i: nat, j: nat, i': nat, j': nat, log: seq<Dispatch>, log': seq<Dispatch>, taken: nat, taken': nat,
                  a: nat, t: nat)
    requires Launched(w, P) && Launched(w, C) && Roles(P, C, p) && LeafAt(C, a, t) && Need(C) == 1 && Trips(P) >= 2
    requires Both(w, P, C, cs, p, c, i, j, log, taken) && Stuck(cs, C, p, c, i)
    requires !RemoteEvent(e) && cs' == NextAny(w, cs, e)
    requires Both(w, P, C, cs', p, c, i', j', log', taken') && taken' <= 1 + Resets(log', a)
    ensures Stuck(cs', C, p, c, i')
  {
    if cs'[p].state.Running? {
      DebtRunning(w, P, C, cs', p, c, i', j', log', taken', a, t);
    } else {
      DebtElse(w, P, C, cs', p, c, i', j', log', taken', a, t);
    }
    FrameOf(w, P, C, cs, p, c, i, j, log, taken);
    if i' == 1 && cs'[p].state.Complete? {
      TripsIsLast(P, i');
    } else if i' == 1 && cs'[p].state.Running? {
      StillFresh(w, P, C, cs, cs', e, p, c, i, j, i');
    }
  }

  /** The parent runs in its second iteration: the child has just been started. */
  lemma StillFresh(w: Widths, P: Ccu, C: Ccu, cs: seq<Ccu>, cs': seq<Ccu>, e: Input, p: nat, c: nat,
                   i: nat, j: nat, i': nat)
    requires Launched(w, P) && Launched(w, C) && Roles(P, C, p) && Need(C) == 1 && Frame(w, cs, p, c)
    requires InLoop(w, P, cs[p], i) && InLoop(w, C, cs[c], j) && Stuck(cs, C, p, c, i)
    requires cs[c].state.Complete? <==> !cs[p].state.Running?
    requires !RemoteEvent(e) && cs' == NextAny(w, cs, e)
    requires i' == 1 && InLoop(w, P, cs'[p], i') && cs'[p].state.Running?
    requires !(cs'[c].state.Dispatching? && cs'[c].dispatchIdx == 0)
    ensures cs'[c] == C
  {
    if cs[p].state.Dispatching? {
      ParentEdge(w, cs, e, p, c);
    } else if cs[p].state.Running? && cs[c].state.Running? {
      RunningEdge(w, cs, e, p, c);
      FirstCompletion(w, P, cs[p], i);
      SameIteration(w, P, cs[p], i, i');
      FirstCompletion(w, C, cs[c], j);
    } else if cs[p].state.Running? {
      ChildEdge(w, cs, e, p, c);
      SameIteration(w, P, cs[p], i, i');
    } else {
      NoneActive(w, cs, e);
      EdgeIs(w, cs, e, p, c);
    }
  }

  /** A loop that awaits one completion never stays running over it. */
  lemma FirstCompletion(w: Widths, x: Ccu, now: Ccu, j: nat)
    requires Launched(w, x) && InLoop(w, x, now, j) && now.state.Running? && Need(x) == 1
    ensures !Completed(w, now).state.Running?
    ensures Completed(w, now).state.Dispatching? ==> Completed(w, now).dispatchIdx == 0
  {
  }

  /** The leaf completes at most once for the launch and once for each reset, as
      `LoopCounter.DeliversConfigured` says of it. */
  ghost predicate LeafAnswers(w: Widths, cs: seq<Ccu>, ins: seq<Input>, a: nat)
    requires Ready(w, cs)
  {
    forall n :: 0 <= n <= |ins| ==> AnswersSoFar(w, cs, ins[..n], a) == InStep
  }

  ghost function AnswersSoFar(w: Widths, cs: seq<Ccu>, ins: seq<Input>, a: nat): (s: Standing)
    requires Ready(w, cs)
  {
    if Taken(w, cs, ins) <= 1 + Resets(Log(w, cs, ins), a) then InStep else OutOfStep
  }

  lemma AnswersBefore(w: Widths, cs: seq<Ccu>, ins: seq<Input>, a: nat)
    requires Ready(w, cs) && ins != [] && LeafAnswers(w, cs, ins, a)
    ensures LeafAnswers(w, cs, ins[..|ins| - 1], a) && AnswersSoFar(w, cs, ins, a) == InStep
  {
    var n := |ins| - 1;
    forall m | 0 <= m <= n ensures AnswersSoFar(w, cs, ins[..n][..m], a) == InStep {
      assert ins[..n][..m] == ins[..m];
    }
    assert ins[..n + 1] == ins;
  }

  lemma StaysStuck(w: Widths, P: Ccu, C: Ccu, cs: seq<Ccu>, cs': seq<Ccu>, e: Input, p: nat, c: nat,
                   i: nat, j: nat, log: seq<Dispatch>, log': seq<Dispatch>, taken: nat, taken': nat, a: nat, t: nat)
    returns (i': nat, j': nat)
    requires Launched(w, P) && Launched(w, C) && Roles(P, C, p) && LeafAt(C, a, t) && Need(C) == 1 && Trips(P) >= 2
    requires Nesting(w, P, C, cs, p, c, i, j, log, taken) == InStep && Stuck(cs, C, p, c, i)
    requires !RemoteEvent(e) && cs' == NextAny(w, cs, e)
    requires log' == log + Leaves(DispatchOf(w, cs), e) && taken' == taken + Hit(w, cs, e)
    requires taken' <= 1 + Resets(log', a)
    ensures Nesting(w, P, C, cs', p, c, i', j', log', taken') == InStep && Stuck(cs', C, p, c, i')
  {
    i', j' := NestStep(w, P, C, cs, cs', e, p, c, i, j, log, taken);
    StuckStep(w, P, C, cs, cs', e, p, c, i, j, i', j', log, log', taken, taken', a, t);
  }

  lemma {:induction false} StuckRun(w: Widths, cs: seq<Ccu>, ins: seq<Input>, p: nat, c: nat, a: nat, t: nat)
    returns (i: nat, j: nat)
    requires Nested(w, cs, p, c) && Local(ins) && Trips(cs[p]) >= 2
    requires LeafAt(cs[c], a, t) && Need(cs[c]) == 1 && LeafAnswers(w, cs, ins, a)
    ensures Nesting(w, cs[p], cs[c], RunBoth(w, cs, ins), p, c, i, j, Log(w, cs, ins), Taken(w, cs, ins)) == InStep
    ensures Stuck(RunBoth(w, cs, ins), cs[c], p, c, i)
  {
    if ins == [] {
      i, j := 0, 0;
      NestStarts(w, cs, p, c);
    } else {
      var n := |ins| - 1;
      AnswersBefore(w, cs, ins, a);
      i, j := StuckRun(w, cs, ins[..n], p, c, a, t);
      assert !RemoteEvent(ins[n]);
      i, j := StaysStuck(w, cs[p], cs[c], RunBoth(w, cs, ins[..n]), RunBoth(w, cs, ins), ins[n], p, c, i, j,
                         Log(w, cs, ins[..n]), Log(w, cs, ins), Taken(w, cs, ins[..n]), Taken(w, cs, ins), a, t);
    }
  }

  lemma StuckTakesFew(w: Widths, P: Ccu, C: Ccu, cs: seq<Ccu>, p: nat, c: nat, i: nat, j: nat,
                      log: seq<Dispatch>, taken: nat)
    requires Launched(w, P) && Launched(w, C) && Need(C) == 1
    requires Both(w, P, C, cs, p, c, i, j, log, taken) && Stuck(cs, C, p, c, i)
    ensures taken <= Trips(C) && !cs[p].state.Complete?
    ensures P.isRoot ==> !AllLoopsComplete(cs)
  {
    ValueIs(C, Trips(C));
    if cs[p].state.Running? {
      UsedBelow(w, C, cs[c], j);
      if i == 1 {
        SameIteration(w, C, C, j, 0);
      }
    }
  }

  lemma LaunchedStalls(w: Widths, cs: seq<Ccu>, ins: seq<Input>, p: nat, c: nat, a: nat, t: nat)
    requires Nested(w, cs, p, c) && Local(ins) && Trips(cs[p]) >= 2
    requires LeafAt(cs[c], a, t) && Need(cs[c]) == 1 && LeafAnswers(w, cs, ins, a)
    ensures Taken(w, cs, ins) <= Trips(cs[c])
    ensures !RunBoth(w, cs, ins)[p].state.Complete? && !AllLoopsComplete(RunBoth(w, cs, ins))
  {
    var i, j := StuckRun(w, cs, ins, p, c, a, t);
    StuckTakesFew(w, cs[p], cs[c], RunBoth(w, cs, ins), p, c, i, j, Log(w, cs, ins), Taken(w, cs, ins));
  }

  lemma LaunchKeeps(w: Widths, ds: seq<Ccu>, k: nat)
    requires AllOk(w, ds) && LowersOk(w, ds) && k < |ds| && ds[k].step > 0
    ensures var x := LaunchAll(w, ds)[k];
            && x.targets == ds[k].targets && x.numTargets == ds[k].numTargets && x.step > 0
            && Need(x) == Need(ds[k]) && Trips(x) == Trips(ds[k])
  {
  }

  lemma SameLeaf(x: Ccu, y: Ccu, a: nat, t: nat)
    requires x.targets == y.targets && x.numTargets == y.numTargets <= |x.targets| && LeafAt(x, a, t)
    ensures LeafAt(y, a, t)
  {
  }

  /** Three loops in one another, the inmost in a leaf, stall: when the leaf completes once per
      start, the outer loop never gets through its second iteration, since its dispatch starts
      the middle CCU again but resets no leaf. */
  lemma ThirdLevelStalls(w: Widths, ds: seq<Ccu>, ins: seq<Input>, p: nat, c: nat, a: nat)
    requires NestConfigured(w, ds, p, c) && Local(ins) && OneLeaf(ds[c], a) && Need(ds[c]) == 1 && Trips(ds[p]) >= 2
    requires LeafAnswers(w, LaunchAll(w, ds), ins, a)
    ensures var cs := LaunchAll(w, ds);
            && Taken(w, cs, ins) <= Trips(ds[c])
            && !RunBoth(w, cs, ins)[p].state.Complete? && !AllLoopsComplete(RunBoth(w, cs, ins))
  {
    LaunchNests(w, ds, p, c);
    LaunchKeeps(w, ds, p);
    LaunchKeeps(w, ds, c);
    var t: nat :| LeafAt(ds[c], a, t);
    SameLeaf(ds[c], LaunchAll(w, ds)[c], a, t);
    LaunchedStalls(w, LaunchAll(w, ds), ins, p, c, a, t);
  }

  lemma CountIs(w: Widths, was: Ccu, x: Ccu)
    requires CcuOk(w, was) && (x == was || x == Completed(w, was))
    ensures Count(w, was, x) == Completed(w, was)
  {
    CountTwice(w, was, was);
  }

  /** What one look at a completion may leave of the two. */
  ghost predicate PartlyCounted(w: Widths, cs: seq<Ccu>, r: seq<Ccu>, n: nat, p: nat, c: nat)
    requires AllOk(w, cs) && |r| == |cs| && p < |cs| && c < |cs|
  {
    && r[c] == (if n > c then Completed(w, cs[c]) else cs[c])
    && (r[p] == cs[p] || r[p] == Completed(w, cs[p])) && (n > p ==> r[p] == Completed(w, cs[p]))
  }

  lemma {:induction false} CountedAtBoth(w: Widths, cs: seq<Ccu>, addr: nat, n: nat, p: nat, c: nat)
    requires AllOk(w, cs) && ParentsOk(cs) && n <= |cs| && p < |cs| && c < |cs| && p != c
    requires cs[p].isRoot && !cs[c].isRoot && cs[c].parent == p
    requires forall k :: 0 <= k < |cs| ==> (Matches(w, cs[k], addr) <==> k == p || k == c)
    ensures PartlyCounted(w, cs, Counted(w, cs, addr, cs, n), n, p, c)
  {
    if n > 0 {
      CountedAtBoth(w, cs, addr, n - 1, p, c);
      CountedNext(w, cs, addr, n - 1, p, c);
      PartlyStep(w, cs, Counted(w, cs, addr, cs, n - 1), Counted(w, cs, addr, cs, n), n - 1, p, c);
    }
  }

  /** CCU k's turn to look at the completion. */
  lemma CountedNext(w: Widths, cs: seq<Ccu>, addr: nat, k: nat, p: nat, c: nat)
    requires AllOk(w, cs) && ParentsOk(cs) && k < |cs| && p < |cs| && c < |cs| && p != c
    requires cs[p].isRoot && !cs[c].isRoot && cs[c].parent == p
    requires Matches(w, cs[k], addr) <==> k == p || k == c
    ensures var r, r' := Counted(w, cs, addr, cs, k), Counted(w, cs, addr, cs, k + 1);
            r' == if k == p then r[p := Count(w, cs[p], r[p])]
                  else if k != c then r
                  else if Finishes(w, cs[c]) then r[c := Count(w, cs[c], r[c])][p := Count(w, cs[p], r[p])]
                  else r[c := Count(w, cs[c], r[c])]
  {
  }

  lemma PartlyStep(w: Widths, cs: seq<Ccu>, r: seq<Ccu>, r': seq<Ccu>, k: nat, p: nat, c: nat)
    requires AllOk(w, cs) && AllOk(w, r) && k < |cs| == |r| == |r'| && p < |cs| && c < |cs| && p != c
    requires cs[p].isRoot && !cs[c].isRoot && cs[c].parent == p && PartlyCounted(w, cs, r, k, p, c)
    requires k == c ==> r' == if Finishes(w, cs[c])
                              then r[c := Count(w, cs[c], r[c])][p := Count(w, cs[p], r[p])]
                              else r[c := Count(w, cs[c], r[c])]
    requires k == p ==> r' == r[p := Count(w, cs[p], r[p])]
    requires k != p && k != c ==> r' == r
    ensures PartlyCounted(w, cs, r', k + 1, p, c)
  {
    CountIs(w, cs[p], r[p]);
    if k == c { CountIs(w, cs[c], r[c]); }
  }

  /** Nor does it help to make the leaf a target of the outer CCU too: then each of its
      completions counts at both, and the outer loop advances with the middle one. */
  lemma SharedLeafAdvancesBoth(w: Widths, cs: seq<Ccu>, e: Input, p: nat, c: nat)
    requires Ready(w, cs) && p < |cs| && c < |cs| && p != c && cs[p].isRoot && !cs[c].isRoot && cs[c].parent == p
    requires e.tileVal && e.tileComplete && !RemoteEvent(e)
    requires forall k :: 0 <= k < |cs| ==> (Matches(w, cs[k], e.tileAddr) <==> k == p || k == c)
    requires forall k :: 0 <= k < |cs| ==> !cs[k].state.Dispatching?
    ensures NextAny(w, cs, e)[p] == Completed(w, cs[p]) && NextAny(w, cs, e)[c] == Completed(w, cs[c])
  {
    NoneActive(w, cs, e);
    CountedAtBoth(w, cs, e.tileAddr, |cs|, p, c);
  }
}
