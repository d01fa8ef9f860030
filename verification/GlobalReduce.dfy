/** The global reduce unit (controller/GlobalReduceUnitRTL.py): it collects as many
    contributions as it was told to expect, then answers each of them with the round's sum or
    product, whichever the contribution asked for, and starts over.

    The packet queue is its contents; Queues shows that the ring buffer behaves so. */
module GlobalReduce {
  import Arith

  const CAPACITY: nat := 16

  /** A contribution: who sent it, to whom, whether it is multiplied or added, and its data;
      `valid` is the data's predicate bit. */
  datatype Pkt = Pkt(src: nat, dst: nat, mul: bool, value: nat, valid: bool)

  /** An accumulator. */
  datatype Acc = Acc(value: nat, valid: bool)

  datatype Unit = Unit(target: nat, receiving: nat, sending: nat, add: Acc, mul: Acc, queue: seq<Pkt>)

  /** The network delivers at most one packet a cycle: a count, a contribution, or none. */
  datatype Arrival = Nothing | Count(n: nat) | Data(pkt: Pkt)

  datatype Input = Input(arrival: Arrival, sendRdy: bool)

  /** `w`: number of payload values. */
  predicate UnitOk(w: nat, s: Unit) {
    && w > 1 && s.target < w && s.receiving < w && s.sending < w && s.add.value < w && s.mul.value < w
    && |s.queue| <= CAPACITY
  }

  predicate InputOk(w: nat, i: Input) {
    match i.arrival
    case Nothing => true
    case Count(n) => n < w
    case Data(p) => p.value < w
  }

  predicate DataRdy(s: Unit) {
    s.target > s.receiving && |s.queue| < CAPACITY
  }

  predicate Accepts(s: Unit, i: Input) {
    i.arrival.Data? && DataRdy(s)
  }

  /** `send.val`. */
  predicate SendVal(s: Unit) {
    s.target > 0 && s.receiving == s.target && s.queue != []
  }

  /** The answer to the oldest contribution: source and destination change places. */
  function SendMsg(s: Unit): Pkt
    requires s.queue != []
  {
    var p := s.queue[0];
    var acc := if p.mul then s.mul else s.add;
    Pkt(p.dst, p.src, p.mul, acc.value, acc.valid)
  }

  predicate Sends(s: Unit, i: Input) {
    SendVal(s) && i.sendRdy
  }

  /** What the unit drives: its ready for contributions, and the answer on offer. */
  datatype Output = Output(dataRdy: bool, send: Option<Pkt>)

  datatype Option<T> = None | Some(value: T)

  function Wires(s: Unit): Output {
    Output(DataRdy(s), if SendVal(s) then Some(SendMsg(s)) else None)
  }

  /** The accumulators after a contribution. */
  function Add(w: nat, a: Acc, p: Pkt): (a': Acc)
    requires a.value < w && p.value < w
    ensures a'.value < w
  {
    if p.mul then a else Acc(Arith.Wrap(a.value + p.value, w), p.valid)
  }

  function Mul(w: nat, a: Acc, p: Pkt): (a': Acc)
    requires a.value < w
    ensures a'.value < w
  {
    if p.mul then Acc(Times(a.value, p.value, w), p.valid) else a
  }

  function Times(x: nat, y: nat, w: nat): (r: nat)
    requires w > 0
    ensures r < w
  {
    x * y % w
  }

  function Next(w: nat, s: Unit, i: Input): (s': Unit)
    requires UnitOk(w, s) && InputOk(w, i)
    ensures UnitOk(w, s')
  {
    var closes := !Sends(s, i) && s.sending == s.receiving == s.target && s.target > 0;
    var clears := s.sending == s.target;
    Unit(if i.arrival.Count? then i.arrival.n else s.target,
         if closes then 0 else if Accepts(s, i) then Arith.Wrap(s.receiving + 1, w) else s.receiving,
         if Sends(s, i) then Arith.Wrap(s.sending + 1, w) else if closes then 0 else s.sending,
         if clears then Acc(0, false) else if Accepts(s, i) then Add(w, s.add, i.arrival.pkt) else s.add,
         if clears then Acc(1, false) else if Accepts(s, i) then Mul(w, s.mul, i.arrival.pkt) else s.mul,
         (if Sends(s, i) then s.queue[1..] else s.queue) + (if Accepts(s, i) then [i.arrival.pkt] else []))
  }

  // ---- runs without count changes ----

  predicate NoCounts(w: nat, es: seq<Input>) {
    forall t :: 0 <= t < |es| ==> InputOk(w, es[t]) && !es[t].arrival.Count?
  }

  ghost function Run(w: nat, s: Unit, es: seq<Input>): (s': Unit)
    requires UnitOk(w, s) && NoCounts(w, es)
    ensures UnitOk(w, s')
  {
    if es == [] then s else Next(w, Run(w, s, es[..|es| - 1]), es[|es| - 1])
  }

  /** Contributions accepted, in order. */
  ghost function Accepted(w: nat, s: Unit, es: seq<Input>): seq<Pkt>
    requires UnitOk(w, s) && NoCounts(w, es)
  {
    if es == [] then []
    else
      var n := |es| - 1;
      Accepted(w, s, es[..n])
      + if es[n].arrival.Data? && Wires(Run(w, s, es[..n])).dataRdy then [es[n].arrival.pkt] else []
  }

  /** Responses sent, in order. */
  ghost function Responses(w: nat, s: Unit, es: seq<Input>): seq<Pkt>
    requires UnitOk(w, s) && NoCounts(w, es)
  {
    if es == [] then []
    else
      var n := |es| - 1;
      var o := Wires(Run(w, s, es[..n]));
      Responses(w, s, es[..n]) + if o.send.Some? && es[n].sendRdy then [o.send.value] else []
  }

  // ---- what a round should give ----

  /** The sum of the contributions that are added. */
  function Sum(ps: seq<Pkt>): nat {
    if ps == [] then 0
    else Sum(ps[..|ps| - 1]) + if ps[|ps| - 1].mul then 0 else ps[|ps| - 1].value
  }

  /** The product of those that are multiplied. */
  function Product(ps: seq<Pkt>): nat {
    if ps == [] then 1
    else if ps[|ps| - 1].mul then TimesExact(Product(ps[..|ps| - 1]), ps[|ps| - 1].value)
    else Product(ps[..|ps| - 1])
  }

  function TimesExact(x: nat, y: nat): nat {
    x * y
  }

  /** The predicate bit of the last contribution of this kind. */
  function LastValid(ps: seq<Pkt>, mul: bool): bool {
    ps != [] && if ps[|ps| - 1].mul == mul then ps[|ps| - 1].valid else LastValid(ps[..|ps| - 1], mul)
  }

  /** The answer to contribution p of a round. */
  function Answer(w: nat, p: Pkt, round: seq<Pkt>): Pkt
    requires w > 0
  {
    Pkt(p.dst, p.src, p.mul, Residue(if p.mul then Product(round) else Sum(round), w), LastValid(round, p.mul))
  }

  function Residue(x: nat, w: nat): (r: nat)
    requires w > 0
    ensures r < w
  {
    x % w
  }

  /** A unit waiting for the first of n contributions. */
  predicate Fresh(w: nat, s: Unit, n: nat) {
    UnitOk(w, s) && s == Unit(n, 0, 0, Acc(0, false), Acc(1, false), []) && n < w
  }

  /** The accumulators stand for these contributions. */
  predicate Accumulates(w: nat, s: Unit, ps: seq<Pkt>)
    requires w > 0
  {
    && s.add == Acc(Residue(Sum(ps), w), LastValid(ps, false))
    && s.mul == Acc(Residue(Product(ps), w), LastValid(ps, true))
  }

  /** The round that starts at contribution b is under way. */
  ghost predicate InRound(w: nat, s: Unit, n: nat, b: nat, accepted: seq<Pkt>, responses: seq<Pkt>) {
    && UnitOk(w, s) && s.target == n
    && s.sending <= s.receiving <= n && (s.sending > 0 ==> s.receiving == n)
    && |accepted| == b + s.receiving && |responses| == b + s.sending
    && s.queue == accepted[b + s.sending..]
    && Accumulates(w, s, accepted[b..])
  }

  lemma AddResidue(w: nat, x: nat, v: nat)
    requires w > 0 && v < w
    ensures Residue(x + v, w) == Arith.Wrap(Residue(x, w) + v, w)
  {
    Arith.ModAdd(v, x, w);
    Arith.WrapIsMod(Residue(x, w) + v, w);
  }

  lemma MulResidue(w: nat, x: nat, v: nat)
    requires w > 0
    ensures Residue(TimesExact(x, v), w) == Times(Residue(x, w), v, w)
  {
    var q, r := x / w, x % w;
    var q', r' := r * v / w, r * v % w;
    assert x * v == w * (q * v + q') + r' by {
      assert x == w * q + r && r * v == w * q' + r';
      assert x * v == w * q * v + r * v;
      assert w * (q * v + q') == w * q * v + w * q';
    }
    Arith.DivModUnique(x * v, w, q * v + q', r');
  }

  lemma EmptyResidues(w: nat)
    requires w > 1
    ensures Residue(0, w) == 0 && Residue(1, w) == 1
  {
    Arith.DivModUnique(0, w, 0, 0);
    Arith.DivModUnique(1, w, 0, 1);
  }

  /** One more contribution. */
  lemma AccumulateStep(w: nat, s: Unit, s': Unit, ps: seq<Pkt>, p: Pkt)
    requires w > 1 && s.add.value < w && s.mul.value < w && p.value < w && Accumulates(w, s, ps)
    requires s'.add == Add(w, s.add, p) && s'.mul == Mul(w, s.mul, p)
    ensures Accumulates(w, s', ps + [p])
  {
    assert (ps + [p])[..|ps|] == ps;
    if p.mul {
      MulResidue(w, Product(ps), p.value);
    } else {
      AddResidue(w, Sum(ps), p.value);
    }
  }

  lemma CloseStep(w: nat, s: Unit, i: Input, n: nat, b: nat, accepted: seq<Pkt>, responses: seq<Pkt>)
    requires InRound(w, s, n, b, accepted, responses) && InputOk(w, i) && !i.arrival.Count? && n > 0 && s.sending == n
    ensures !Accepts(s, i) && !Sends(s, i) && InRound(w, Next(w, s, i), n, b + n, accepted, responses)
  {
    assert accepted[b + n..] == [];
    EmptyResidues(w);
  }

  lemma AcceptStep(w: nat, s: Unit, i: Input, n: nat, b: nat, accepted: seq<Pkt>, responses: seq<Pkt>)
    requires InRound(w, s, n, b, accepted, responses) && InputOk(w, i) && n > 0 && s.sending < n && Accepts(s, i)
    ensures !Sends(s, i) && InRound(w, Next(w, s, i), n, b, accepted + [i.arrival.pkt], responses)
  {
    var p := i.arrival.pkt;
    assert (accepted + [p])[b..] == accepted[b..] + [p];
    assert (accepted + [p])[b + s.sending..] == accepted[b + s.sending..] + [p];
    AccumulateStep(w, s, Next(w, s, i), accepted[b..], p);
  }

  lemma SendStep(w: nat, s: Unit, i: Input, n: nat, b: nat, accepted: seq<Pkt>, responses: seq<Pkt>)
    requires InRound(w, s, n, b, accepted, responses) && InputOk(w, i) && !i.arrival.Count? && n > 0
    requires s.sending < n && Sends(s, i)
    ensures !Accepts(s, i) && |accepted| == b + n
    ensures SendMsg(s) == Answer(w, accepted[|responses|], accepted[b..b + n])
    ensures InRound(w, Next(w, s, i), n, b, accepted, responses + [SendMsg(s)])
  {
    assert accepted[b..b + n] == accepted[b..];
    assert accepted[b + s.sending..][1..] == accepted[b + s.sending + 1..];
  }

  /** Where round q starts. */
  function RoundBase(q: nat, n: nat): nat {
    q * n
  }

  /** Where the round of contribution j starts. */
  function RoundStart(n: nat, j: nat): nat
    requires n > 0
  {
    RoundBase(j / n, n)
  }

  lemma RoundStartIs(n: nat, q: nat, j: nat)
    requires n > 0 && RoundBase(q, n) <= j < RoundBase(q, n) + n
    ensures RoundStart(n, j) == RoundBase(q, n)
  {
    Arith.DivModUnique(j, n, q, j - q * n);
  }

  /** x is the answer to contribution j: its own round's sum, all of which had arrived. */
  ghost predicate Answers(w: nat, n: nat, accepted: seq<Pkt>, x: Pkt, j: nat)
    requires w > 0 && n > 0
  {
    var b := RoundStart(n, j);
    b + n <= |accepted| && j < |accepted| && x == Answer(w, accepted[j], accepted[b..b + n])
  }

  ghost predicate Answered(w: nat, n: nat, accepted: seq<Pkt>, responses: seq<Pkt>)
    requires w > 0 && n > 0
  {
    forall j :: 0 <= j < |responses| ==> Answers(w, n, accepted, responses[j], j)
  }

  lemma AnswersExtends(w: nat, n: nat, accepted: seq<Pkt>, p: Pkt, x: Pkt, j: nat)
    requires w > 0 && n > 0 && Answers(w, n, accepted, x, j)
    ensures Answers(w, n, accepted + [p], x, j)
  {
    var b := RoundStart(n, j);
    assert (accepted + [p])[b..b + n] == accepted[b..b + n];
  }

  lemma AnsweredExtends(w: nat, n: nat, accepted: seq<Pkt>, responses: seq<Pkt>, p: Pkt)
    requires w > 0 && n > 0 && Answered(w, n, accepted, responses)
    ensures Answered(w, n, accepted + [p], responses)
  {
    forall j | 0 <= j < |responses| ensures Answers(w, n, accepted + [p], responses[j], j) {
      AnswersExtends(w, n, accepted, p, responses[j], j);
    }
  }

  /** A response extends the history. */
  lemma SendAnswers(w: nat, s: Unit, i: Input, n: nat, b: nat, accepted: seq<Pkt>, responses: seq<Pkt>)
    requires InRound(w, s, n, b, accepted, responses) && InputOk(w, i) && !i.arrival.Count? && n > 0
    requires s.sending < n && Sends(s, i) && Answered(w, n, accepted, responses) && RoundStart(n, |responses|) == b
    ensures Answered(w, n, accepted, responses + [SendMsg(s)])
  {
    SendStep(w, s, i, n, b, accepted, responses);
    assert Answers(w, n, accepted, SendMsg(s), |responses|);
  }

  lemma RoundStep(w: nat, s: Unit, i: Input, n: nat, q: nat, accepted: seq<Pkt>, responses: seq<Pkt>) returns (q': nat)
    requires InRound(w, s, n, RoundBase(q, n), accepted, responses) && InputOk(w, i) && !i.arrival.Count? && n > 0
    ensures InRound(w, Next(w, s, i), n, RoundBase(q', n), accepted + (if Accepts(s, i) then [i.arrival.pkt] else []),
                    responses + if Sends(s, i) then [SendMsg(s)] else [])
  {
    q' := q;
    assert accepted + [] == accepted && responses + [] == responses;
    if s.sending == n {
      CloseStep(w, s, i, n, RoundBase(q, n), accepted, responses);
      q' := q + 1;
      assert RoundBase(q', n) == RoundBase(q, n) + n;
    } else if Accepts(s, i) {
      AcceptStep(w, s, i, n, RoundBase(q, n), accepted, responses);
    } else if Sends(s, i) {
      SendStep(w, s, i, n, RoundBase(q, n), accepted, responses);
    }
  }

  lemma AnswersStep(w: nat, s: Unit, i: Input, n: nat, q: nat, accepted: seq<Pkt>, responses: seq<Pkt>)
    requires InRound(w, s, n, RoundBase(q, n), accepted, responses) && InputOk(w, i) && !i.arrival.Count? && n > 0
    requires Answered(w, n, accepted, responses)
    ensures Answered(w, n, accepted + (if Accepts(s, i) then [i.arrival.pkt] else []),
                     responses + if Sends(s, i) then [SendMsg(s)] else [])
  {
    assert accepted + [] == accepted && responses + [] == responses;
    if Accepts(s, i) {
      AnsweredExtends(w, n, accepted, responses, i.arrival.pkt);
    } else if Sends(s, i) {
      RoundStartIs(n, q, |responses|);
      SendAnswers(w, s, i, n, RoundBase(q, n), accepted, responses);
    }
  }

  lemma {:induction false} RoundsHold(w: nat, s: Unit, es: seq<Input>, n: nat) returns (q: nat)
    requires Fresh(w, s, n) && 0 < n && NoCounts(w, es)
    ensures InRound(w, Run(w, s, es), n, RoundBase(q, n), Accepted(w, s, es), Responses(w, s, es))
    ensures Answered(w, n, Accepted(w, s, es), Responses(w, s, es))
  {
    if es == [] {
      q := 0;
      EmptyResidues(w);
    } else {
      var m := |es| - 1;
      q := RoundsHold(w, s, es[..m], n);
      AnswersStep(w, Run(w, s, es[..m]), es[m], n, q, Accepted(w, s, es[..m]), Responses(w, s, es[..m]));
      q := RoundStep(w, Run(w, s, es[..m]), es[m], n, q, Accepted(w, s, es[..m]), Responses(w, s, es[..m]));
    }
  }

  /** Rounds never mix: response number j goes back to contributor number j, and carries the
      sum of contributions of j's own round, all of which had arrived. */
  lemma RoundsNeverMix(w: nat, s: Unit, es: seq<Input>, n: nat, j: nat)
    requires Fresh(w, s, n) && 0 < n && NoCounts(w, es) && j < |Responses(w, s, es)|
    ensures Answers(w, n, Accepted(w, s, es), Responses(w, s, es)[j], j)
  {
    var q := RoundsHold(w, s, es, n);
  }

  /** Each round's contributors are answered once each: between rounds, everyone who
      contributed has been answered, and the unit is ready for the next count. */
  lemma QuietBetweenRounds(w: nat, s: Unit, es: seq<Input>, n: nat, i: Input)
    requires Fresh(w, s, n) && 0 < n && NoCounts(w, es) && InputOk(w, i) && i.arrival.Count?
    requires Run(w, s, es).receiving == 0
    ensures |Responses(w, s, es)| == |Accepted(w, s, es)| && |Accepted(w, s, es)| % n == 0
    ensures Fresh(w, Next(w, Run(w, s, es), i), i.arrival.n)
  {
    var q := RoundsHold(w, s, es, n);
    WholeRounds(q, n);
    RoundOver(w, Run(w, s, es), i, n, RoundBase(q, n), Accepted(w, s, es), Responses(w, s, es));
  }

  lemma WholeRounds(q: nat, n: nat)
    requires n > 0
    ensures RoundBase(q, n) % n == 0
  {
    Arith.DivModUnique(q * n, n, q, 0);
  }

  lemma RoundOver(w: nat, s: Unit, i: Input, n: nat, b: nat, accepted: seq<Pkt>, responses: seq<Pkt>)
    requires InRound(w, s, n, b, accepted, responses) && InputOk(w, i) && i.arrival.Count? && n > 0 && s.receiving == 0
    ensures |responses| == |accepted| == b && Fresh(w, Next(w, s, i), i.arrival.n)
  {
    assert accepted[b..] == [];
    EmptyResidues(w);
  }

  lemma WithinRound(n: nat, q: nat, r: nat)
    requires 0 < n && r <= n
    ensures (RoundBase(q, n) + r) % n == if r == n then 0 else r
  {
    if r == n {
      Arith.DivModUnique(q * n + n, n, q + 1, 0);
    } else {
      Arith.DivModUnique(q * n + r, n, q, r);
    }
  }

  lemma WiresInRound(w: nat, s: Unit, n: nat, b: nat, accepted: seq<Pkt>, responses: seq<Pkt>, i: Input)
    requires InRound(w, s, n, b, accepted, responses) && 0 < n && InputOk(w, i) && !i.arrival.Count?
    ensures s.receiving < n ==> Wires(s) == Output(|accepted| - |responses| < CAPACITY, None)
    ensures s.receiving == n && s.sending < n ==>
              Wires(s) == Output(false, Some(Answer(w, accepted[|responses|], accepted[|accepted| - n..])))
    ensures s.sending == n ==> Wires(s) == Output(false, None) && Wires(Next(w, s, i)).dataRdy
    ensures s.receiving == 0 ==> Wires(s).dataRdy
  {
    if s.sending == n {
      CloseStep(w, s, i, n, b, accepted, responses);
    }
  }

  /** What a unit drives that has accepted and answered so much: contributions are taken until
      the round is complete, as far as the queue has room; then its answers are offered in
      turn; when all have gone, at most one cycle passes before the next round. */
  ghost predicate Offers(w: nat, s: Unit, n: nat, accepted: seq<Pkt>, responses: seq<Pkt>, i: Input)
    requires 0 < n && UnitOk(w, s) && InputOk(w, i)
  {
    var a, r := |accepted|, |responses|;
    && r <= a
    && (a % n != 0 ==> Wires(s) == Output(a - r < CAPACITY, None))
    && (a % n == 0 && r < a ==> n <= a && Wires(s) == Output(false, Some(Answer(w, accepted[r], accepted[a - n..]))))
    && (r == a && a % n == 0 ==> Wires(s).send == None && (Wires(s).dataRdy || Wires(Next(w, s, i)).dataRdy))
  }

  lemma RoundOffers(w: nat, s: Unit, n: nat, q: nat, accepted: seq<Pkt>, responses: seq<Pkt>, i: Input)
    requires InRound(w, s, n, RoundBase(q, n), accepted, responses)
    requires 0 < n && InputOk(w, i) && !i.arrival.Count?
    ensures Offers(w, s, n, accepted, responses, i)
  {
    WithinRound(n, q, s.receiving);
    WiresInRound(w, s, n, RoundBase(q, n), accepted, responses, i);
  }

  /** The wires follow from the history alone. */
  lemma OffersExactly(w: nat, s: Unit, es: seq<Input>, n: nat, i: Input)
    requires Fresh(w, s, n) && 0 < n && NoCounts(w, es) && InputOk(w, i) && !i.arrival.Count?
    ensures Offers(w, Run(w, s, es), n, Accepted(w, s, es), Responses(w, s, es), i)
  {
    var q := RoundsHold(w, s, es, n);
    RoundOffers(w, Run(w, s, es), n, q, Accepted(w, s, es), Responses(w, s, es), i);
  }

  /** Before a count arrives nothing is taken and nothing is sent. */
  lemma {:induction false} UncountedIsSilent(w: nat, s: Unit, es: seq<Input>)
    requires Fresh(w, s, 0) && NoCounts(w, es)
    ensures Run(w, s, es) == s && Wires(s) == Output(false, None)
  {
    if es != [] {
      UncountedIsSilent(w, s, es[..|es| - 1]);
    }
  }

  /** A round makes progress as long as contributions come and responses are taken. */
  lemma Progress(w: nat, s: Unit, es: seq<Input>, n: nat, i: Input)
    requires Fresh(w, s, n) && 0 < n <= CAPACITY && NoCounts(w, es) && InputOk(w, i) && i.arrival.Data? && i.sendRdy
    ensures var now := Run(w, s, es); Accepts(now, i) || Sends(now, i) || now.sending == n
  {
    var q := RoundsHold(w, s, es, n);
  }

  /** More contributors than the queue holds: no round ever completes. */
  lemma {:induction false} TooManyContributors(w: nat, s: Unit, es: seq<Input>, n: nat)
    requires Fresh(w, s, n) && n > CAPACITY && NoCounts(w, es)
    ensures Responses(w, s, es) == []
    ensures var now := Run(w, s, es); now.target == n && now.sending == 0 && now.receiving == |now.queue| <= CAPACITY
  {
    if es != [] {
      TooManyContributors(w, s, es[..|es| - 1], n);
    }
  }

  // ---- the register-level unit ----

  class GlobalReduceUnitRTL {
    const width: nat
    var targetCount: nat
    var receivingCount: nat
    var sendingCount: nat
    var reduceAdd: Acc
    var reduceMul: Acc
    var queue: seq<Pkt>

    ghost function View(): Unit
      reads this
    {
      Unit(targetCount, receivingCount, sendingCount, reduceAdd, reduceMul, queue)
    }

    ghost predicate Valid()
      reads this
    {
      UnitOk(width, View())
    }

    constructor (width: nat)
      requires width > 1
      ensures Valid() && this.width == width && Fresh(width, View(), 0)
    {
      this.width := width;
      targetCount, receivingCount, sendingCount := 0, 0, 0;
      reduceAdd, reduceMul, queue := Acc(0, false), Acc(1, false), [];
    }

    /** `set_recv_rdy` and `update_send`. */
    method Drive() returns (o: Output)
      ensures o == Wires(View())
    {
      o := Output(false, None);
      if targetCount > receivingCount {
        o := o.(dataRdy := |queue| < CAPACITY);
      }
      if targetCount > 0 && receivingCount == targetCount && queue != [] {
        var p := queue[0];
        var acc := if p.mul then reduceMul else reduceAdd;
        o := o.(send := Some(Pkt(p.dst, p.src, p.mul, acc.value, acc.valid)));
      }
    }

    /** One clock edge; `o` is what the unit drives in the cycle before it. */
    method Clock(i: Input) returns (o: Output)
      requires Valid() && InputOk(width, i)
      modifies this
      ensures Valid() && View() == Next(width, old(View()), i)
      ensures o == Wires(old(View()))
    {
      o := Drive();
      var accepts := i.arrival.Data? && o.dataRdy;
      var sends := o.send.Some? && i.sendRdy;
      Accumulate(i, accepts);
      UpdateCount(i, accepts, sends);
      if sends { queue := queue[1..]; }
      if accepts { queue := queue + [i.arrival.pkt]; }
    }

    /** `accumulate_value`. */
    method Accumulate(i: Input, accepts: bool)
      requires Valid() && InputOk(width, i) && accepts == Accepts(View(), i)
      modifies `reduceAdd, `reduceMul
      ensures reduceAdd == Next(width, old(View()), i).add && reduceMul == Next(width, old(View()), i).mul
    {
      if sendingCount == targetCount {
        reduceAdd, reduceMul := Acc(0, false), Acc(1, false);
      } else if accepts {
        var p := i.arrival.pkt;
        if p.mul {
          reduceMul := Acc(Times(reduceMul.value, p.value, width), p.valid);
        } else {
          reduceAdd := Acc(Arith.Wrap(reduceAdd.value + p.value, width), p.valid);
        }
      }
    }

    /** `update_count`. */
    method UpdateCount(i: Input, accepts: bool, sends: bool)
      requires InputOk(width, i) && targetCount < width && receivingCount < width && sendingCount < width
      modifies `targetCount, `receivingCount, `sendingCount
      ensures targetCount == if i.arrival.Count? then i.arrival.n else old(targetCount)
      ensures var closes := !sends && old(sendingCount == receivingCount == targetCount && targetCount > 0);
              && receivingCount == (if closes then 0
                                    else if accepts then Arith.Wrap(old(receivingCount) + 1, width)
                                    else old(receivingCount))
              && sendingCount == if sends then Arith.Wrap(old(sendingCount) + 1, width)
                                 else if closes then 0 else old(sendingCount)
    {
      var receiving, sending, target := receivingCount, sendingCount, targetCount;
      if i.arrival.Count? { targetCount := i.arrival.n; }
      if accepts { receivingCount := Arith.Wrap(receiving + 1, width); }
      if sends {
        sendingCount := Arith.Wrap(sending + 1, width);
      } else if sending == receiving && sending == target && target > 0 {
        sendingCount, receivingCount := 0, 0;
      }
    }
  }
}
