/** The DMA engine (mem/dma/DmaEngineRTL.py): it moves 32-bit words between a
    byte-addressed DRAM, four words to a beat, and a word-addressed scratchpad.

    A word is its four bytes and a beat its four words, least significant first. */
module DmaEngine {
  import opened Arith

  newtype Byte = x: int | 0 <= x < 256

  type Word = s: seq<Byte> | |s| == 4 witness [0, 0, 0, 0]

  type Beat = s: seq<Word> | |s| == 4 witness Zeros()

  type Mask = s: seq<bool> | |s| == 16 witness seq(16, _ => false)

  datatype State = Idle | InReq | InResp | InWrite | OutRead | OutResp | OutWrite | OutWait | Done

  /** Numbers of values of the DRAM and scratchpad address types and of the byte count.  No
      byte count makes a command wrap onto itself: the source's default widths of 64, 32
      and 32 bits leave ample room. */
  datatype Config = Config(dramSize: nat, spmSize: nat, byteMod: nat)

  predicate ConfigOk(c: Config) {
    4 <= c.byteMod <= 4 * c.spmSize && c.byteMod + 16 <= c.dramSize
  }

  datatype Command = Command(mvin: bool, dramAddr: nat, spmAddr: nat, nbytes: nat, tag: nat)

  predicate CommandOk(c: Config, d: Command) {
    d.dramAddr < c.dramSize && d.spmAddr < c.spmSize && d.nbytes < c.byteMod
  }

  datatype Engine = Engine(state: State, mvin: bool, dramAddr: nat, spmAddr: nat, left: nat, tag: nat,
                           beat: Beat, idx: nat, mask: Mask)

  predicate EngineOk(c: Config, g: Engine) {
    ConfigOk(c) && g.dramAddr < c.dramSize && g.spmAddr < c.spmSize && g.left < c.byteMod && g.idx < 4
  }

  /** Input wires of one cycle: one ready or valid bit per channel, and what arrives. */
  datatype Input = Input(cmdVal: bool, cmd: Command, rdReqRdy: bool, rdRespVal: bool, rdResp: Beat,
                         wrReqRdy: bool, wrRespVal: bool, spmWrRdy: bool, spmRdRdy: bool,
                         spmRespVal: bool, spmResp: Word, doneRdy: bool)

  /** Output wires: what is offered on each channel, and where something is awaited. */
  datatype Output = Output(cmdRdy: bool, rdReqVal: bool, rdReqAddr: nat, rdRespRdy: bool,
                           wrReqVal: bool, wrReqAddr: nat, wrReqData: Beat, wrReqMask: Mask, wrRespRdy: bool,
                           spmWrVal: bool, spmWrAddr: nat, spmWrData: Word, spmRdVal: bool, spmRdAddr: nat,
                           spmRespRdy: bool, doneVal: bool, doneTag: nat)

  function OutputOf(g: Engine): Output
    requires g.idx < 4
  {
    Output(g.state.Idle?, g.state.InReq?, g.dramAddr, g.state.InResp?,
           g.state.OutWrite?, g.dramAddr, g.beat, g.mask, g.state.OutWait?,
           g.state.InWrite?, g.spmAddr, g.beat[g.idx], g.state.OutRead?, g.spmAddr,
           g.state.OutResp?, g.state.Done?, g.tag)
  }

  /** How far a lies after base, going up around an address space of n. */
  function Offset(a: nat, base: nat, n: nat): (r: nat)
    requires a < n && base < n
    ensures r < n
  {
    if a >= base then a - base else a - base + n
  }

  function LowBytes(k: nat): Mask {
    seq(16, j => j < k)
  }

  function Zeros(): (z: seq<Word>)
    ensures |z| == 4
  {
    seq(4, _ => [0, 0, 0, 0])
  }

  function Next(c: Config, g: Engine, i: Input): (g': Engine)
    requires EngineOk(c, g) && CommandOk(c, i.cmd)
    ensures EngineOk(c, g')
  {
    match g.state
    case Idle =>
      if !i.cmdVal then g
      else
        Engine(if i.cmd.nbytes == 0 then Done else if i.cmd.mvin then InReq else OutRead,
               i.cmd.mvin, i.cmd.dramAddr, i.cmd.spmAddr, i.cmd.nbytes / 4, i.cmd.tag, Zeros(), 0, LowBytes(0))
    case InReq =>
      if !i.rdReqRdy then g
      else g.(dramAddr := Wrap(g.dramAddr + 16, c.dramSize), state := InResp)
    case InResp =>
      if !i.rdRespVal then g else g.(beat := i.rdResp, idx := 0, state := InWrite)
    case InWrite =>
      if !i.spmWrRdy then g
      else
        var g1 := g.(spmAddr := Wrap(g.spmAddr + 1, c.spmSize),
                     left := if g.left == 0 then c.byteMod - 1 else g.left - 1);
        if g.left == 1 then g1.(state := Done)
        else if g.idx == 3 then g1.(idx := 0, state := InReq)
        else g1.(idx := g.idx + 1)
    case OutRead =>
      if !i.spmRdRdy then g else g.(state := OutResp)
    case OutResp =>
      if !i.spmRespVal then g
      else
        var g1 := g.(beat := g.beat[g.idx := i.spmResp],
                     spmAddr := Wrap(g.spmAddr + 1, c.spmSize),
                     left := if g.left == 0 then c.byteMod - 1 else g.left - 1);
        if g.left == 1 then g1.(mask := LowBytes(4 * g.idx + 4), state := OutWrite)
        else if g.idx == 3 then g1.(mask := LowBytes(16), state := OutWrite)
        else g1.(idx := g.idx + 1, state := OutRead)
    case OutWrite =>
      if !i.wrReqRdy then g else g.(state := OutWait)
    case OutWait =>
      if !i.wrRespVal then g
      else
        g.(dramAddr := Wrap(g.dramAddr + 16, c.dramSize), beat := Zeros(), idx := 0, mask := LowBytes(0),
           state := if g.left == 0 then Done else OutRead)
    case Done =>
      if !i.doneRdy then g else g.(state := Idle)
  }

  // ---- the engine among its memories ----

  /** A read that waits for its answer. */
  datatype Read = NoRead | Asked(addr: nat)

  /** The memories remember what they have been asked; the counts are the transactions of
      the command in hand. */
  datatype Sys = Sys(g: Engine, dram: seq<Byte>, spm: seq<Word>, rd: Read, wr: bool, spmRd: Read,
                     dramTxns: nat, spmTxns: nat)

  /** An answer is outstanding exactly while the engine waits for one. */
  predicate SysOk(c: Config, s: Sys) {
    && EngineOk(c, s.g) && |s.dram| == c.dramSize && |s.spm| == c.spmSize
    && (s.rd.Asked? ==> s.rd.addr < c.dramSize) && (s.spmRd.Asked? ==> s.spmRd.addr < c.spmSize)
    && (s.rd.Asked? <==> s.g.state.InResp?) && (s.wr <==> s.g.state.OutWait?)
    && (s.spmRd.Asked? <==> s.g.state.OutResp?)
  }

  /** What the others do in a cycle: which command is offered, if any; which requests the
      memories take and which answers they give, if asked; and whether a completion is taken. */
  datatype Timing = Timing(cmdVal: bool, cmd: Command, rdReqRdy: bool, rdRespVal: bool, wrReqRdy: bool,
                           wrRespVal: bool, spmWrRdy: bool, spmRdRdy: bool, spmRespVal: bool, doneRdy: bool)

  function DramWord(dram: seq<Byte>, a: nat): Word
    requires a < |dram| && |dram| >= 16
  {
    var w: seq<Byte> := seq(4, j requires 0 <= j < 4 => dram[Wrap(a + j, |dram|)]);
    w
  }

  function BeatAt(dram: seq<Byte>, a: nat): Beat
    requires |dram| >= 16 && a < |dram|
  {
    [DramWord(dram, a), DramWord(dram, Wrap(a + 4, |dram|)),
     DramWord(dram, Wrap(a + 8, |dram|)), DramWord(dram, Wrap(a + 12, |dram|))]
  }

  function WriteBeat(dram: seq<Byte>, a: nat, b: Beat, m: Mask): (d: seq<Byte>)
    requires |dram| >= 16 && a < |dram|
    ensures |d| == |dram|
  {
    seq(|dram|, x requires 0 <= x < |dram| =>
      if Offset(x, a, |dram|) < 16 && m[Offset(x, a, |dram|)]
      then b[Offset(x, a, |dram|) / 4][Offset(x, a, |dram|) % 4]
      else dram[x])
  }

  /** The wires the engine sees: memories answer what they were asked with what they hold. */
  function Wires(c: Config, s: Sys, t: Timing): Input
    requires SysOk(c, s)
  {
    Input(t.cmdVal, t.cmd,
          t.rdReqRdy, t.rdRespVal && s.rd.Asked?, if s.rd.Asked? then BeatAt(s.dram, s.rd.addr) else Zeros(),
          t.wrReqRdy, t.wrRespVal && s.wr, t.spmWrRdy, t.spmRdRdy,
          t.spmRespVal && s.spmRd.Asked?, if s.spmRd.Asked? then s.spm[s.spmRd.addr] else [0, 0, 0, 0], t.doneRdy)
  }

  /** One cycle: the engine's edge, and the handshakes on its channels. */
  function Cycle(c: Config, s: Sys, t: Timing): (s': Sys)
    requires SysOk(c, s) && CommandOk(c, t.cmd)
    ensures SysOk(c, s')
  {
    var i, o := Wires(c, s, t), OutputOf(s.g);
    var rdAsked, wrAsked, spmAsked := o.rdReqVal && i.rdReqRdy, o.wrReqVal && i.wrReqRdy, o.spmRdVal && i.spmRdRdy;
    var stored, accepted := o.spmWrVal && i.spmWrRdy, o.cmdRdy && i.cmdVal;
    Sys(Next(c, s.g, i),
        if wrAsked then WriteBeat(s.dram, o.wrReqAddr, o.wrReqData, o.wrReqMask) else s.dram,
        if stored then s.spm[o.spmWrAddr := o.spmWrData] else s.spm,
        if rdAsked then Asked(o.rdReqAddr) else if o.rdRespRdy && i.rdRespVal then NoRead else s.rd,
        wrAsked || (s.wr && !(o.wrRespRdy && i.wrRespVal)),
        if spmAsked then Asked(o.spmRdAddr) else if o.spmRespRdy && i.spmRespVal then NoRead else s.spmRd,
        if accepted then 0 else s.dramTxns + (if rdAsked then 1 else 0) + (if wrAsked then 1 else 0),
        if accepted then 0 else s.spmTxns + (if stored then 1 else 0) + (if spmAsked then 1 else 0))
  }

  /** The party the engine waits for answers. */
  predicate Served(s: Sys, t: Timing) {
    match s.g.state
    case Idle => t.cmdVal
    case InReq => t.rdReqRdy
    case InResp => t.rdRespVal
    case InWrite => t.spmWrRdy
    case OutRead => t.spmRdRdy
    case OutResp => t.spmRespVal
    case OutWrite => t.wrReqRdy
    case OutWait => t.wrRespVal
    case Done => t.doneRdy
  }

  // ---- the memory effect of the first k words ----

  /** Scratchpad after k words from DRAM address D arrived at S. */
  function SpmAfter(dram: seq<Byte>, spm: seq<Word>, D: nat, S: nat, k: nat): seq<Word>
    requires D < |dram| && S < |spm| && 16 <= |dram| && 4 * k <= |dram|
  {
    seq(|spm|, a requires 0 <= a < |spm| =>
      if Offset(a, S, |spm|) < k then DramWord(dram, Wrap(D + 4 * Offset(a, S, |spm|), |dram|)) else spm[a])
  }

  /** DRAM after k words from scratchpad address S arrived at D. */
  function DramAfter(dram: seq<Byte>, spm: seq<Word>, D: nat, S: nat, k: nat): seq<Byte>
    requires D < |dram| && S < |spm| && k <= |spm|
  {
    seq(|dram|, x requires 0 <= x < |dram| =>
      var o := Offset(x, D, |dram|);
      if o < 4 * k then spm[Wrap(S + o / 4, |spm|)][o % 4] else dram[x])
  }

  /** Words that have crossed the scratchpad port. */
  function Moved(d: Command, s: Sys): int {
    d.nbytes / 4 - s.g.left
  }

  predicate Tagged(c: Config, d: Command, s: Sys)
    requires SysOk(c, s) && CommandOk(c, d)
  {
    s.g.tag == d.tag && 0 <= Moved(d, s) && s.g.spmAddr == Wrap(d.spmAddr + Moved(d, s), c.spmSize)
  }

  // One predicate per state of the engine says how far command d, begun with memories
  // dram0 and spm0, has come.

  ghost predicate AtInReq(c: Config, d: Command, dram0: seq<Byte>, spm0: seq<Word>, s: Sys)
    requires SysOk(c, s) && CommandOk(c, d) && |dram0| == c.dramSize && |spm0| == c.spmSize
  {
    && Tagged(c, d, s)
    && d.mvin && s.g.left > 0 && s.spmTxns == Moved(d, s)
    && s.dram == dram0 && s.spm == SpmAfter(dram0, spm0, d.dramAddr, d.spmAddr, Moved(d, s))
    && s.g.dramAddr == Wrap(d.dramAddr + 4 * Moved(d, s), c.dramSize) && 4 * s.dramTxns == Moved(d, s)
  }

  ghost predicate AtInResp(c: Config, d: Command, dram0: seq<Byte>, spm0: seq<Word>, s: Sys)
    requires SysOk(c, s) && CommandOk(c, d) && |dram0| == c.dramSize && |spm0| == c.spmSize
  {
    && Tagged(c, d, s)
    && d.mvin && s.g.left > 0 && s.spmTxns == Moved(d, s)
    && s.dram == dram0 && s.spm == SpmAfter(dram0, spm0, d.dramAddr, d.spmAddr, Moved(d, s))
    && s.rd == Asked(Wrap(d.dramAddr + 4 * Moved(d, s), c.dramSize))
    && s.g.dramAddr == Wrap(d.dramAddr + 4 * Moved(d, s) + 16, c.dramSize) && 4 * s.dramTxns == Moved(d, s) + 4
  }

  ghost predicate AtInWrite(c: Config, d: Command, dram0: seq<Byte>, spm0: seq<Word>, s: Sys)
    requires SysOk(c, s) && CommandOk(c, d) && |dram0| == c.dramSize && |spm0| == c.spmSize
  {
    && Tagged(c, d, s)
    && d.mvin && s.g.left > 0 && s.spmTxns == Moved(d, s)
    && s.dram == dram0 && s.spm == SpmAfter(dram0, spm0, d.dramAddr, d.spmAddr, Moved(d, s))
    && s.g.idx <= Moved(d, s)
    && var f := Moved(d, s) - s.g.idx;
       && s.g.beat == BeatAt(dram0, Wrap(d.dramAddr + 4 * f, c.dramSize))
       && s.g.dramAddr == Wrap(d.dramAddr + 4 * f + 16, c.dramSize) && 4 * s.dramTxns == f + 4
  }

  /** The first f words are in DRAM, the next n in the beat. */
  ghost predicate Packed(c: Config, d: Command, dram0: seq<Byte>, spm0: seq<Word>, s: Sys, f: int, n: nat)
    requires SysOk(c, s) && CommandOk(c, d) && |dram0| == c.dramSize && |spm0| == c.spmSize
  {
    && !d.mvin && n <= 4 && 0 <= f && f + n <= d.nbytes / 4 && OutBeat(c, d, spm0, s.g.beat, f, n)
    && s.spm == spm0 && s.dram == DramAfter(dram0, spm0, d.dramAddr, d.spmAddr, f)
    && s.g.dramAddr == Wrap(d.dramAddr + 4 * f, c.dramSize) && 4 * s.dramTxns == f
  }

  ghost predicate AtOutRead(c: Config, d: Command, dram0: seq<Byte>, spm0: seq<Word>, s: Sys)
    requires SysOk(c, s) && CommandOk(c, d) && |dram0| == c.dramSize && |spm0| == c.spmSize
  {
    && Tagged(c, d, s)
    && s.g.left > 0 && s.spmTxns == Moved(d, s)
    && Packed(c, d, dram0, spm0, s, Moved(d, s) - s.g.idx, s.g.idx)
  }

  ghost predicate AtOutResp(c: Config, d: Command, dram0: seq<Byte>, spm0: seq<Word>, s: Sys)
    requires SysOk(c, s) && CommandOk(c, d) && |dram0| == c.dramSize && |spm0| == c.spmSize
  {
    && Tagged(c, d, s)
    && s.g.left > 0 && s.spmTxns == Moved(d, s) + 1 && s.spmRd == Asked(s.g.spmAddr)
    && Packed(c, d, dram0, spm0, s, Moved(d, s) - s.g.idx, s.g.idx)
  }

  ghost predicate AtOutWrite(c: Config, d: Command, dram0: seq<Byte>, spm0: seq<Word>, s: Sys)
    requires SysOk(c, s) && CommandOk(c, d) && |dram0| == c.dramSize && |spm0| == c.spmSize
  {
    && Tagged(c, d, s)
    && (s.g.left == 0 || s.g.idx == 3) && s.spmTxns == Moved(d, s) && s.g.mask == LowBytes(4 * s.g.idx + 4)
    && Packed(c, d, dram0, spm0, s, Moved(d, s) - s.g.idx - 1, s.g.idx + 1)
  }

  ghost predicate AtOutWait(c: Config, d: Command, dram0: seq<Byte>, spm0: seq<Word>, s: Sys)
    requires SysOk(c, s) && CommandOk(c, d) && |dram0| == c.dramSize && |spm0| == c.spmSize
  {
    && Tagged(c, d, s)
    && !d.mvin && (s.g.left == 0 || s.g.idx == 3) && s.spmTxns == Moved(d, s) && s.g.idx < Moved(d, s)
    && s.spm == spm0 && s.dram == DramAfter(dram0, spm0, d.dramAddr, d.spmAddr, Moved(d, s))
    && s.g.dramAddr == Wrap(d.dramAddr + 4 * (Moved(d, s) - s.g.idx - 1), c.dramSize)
    && 4 * s.dramTxns == Moved(d, s) - s.g.idx + 3
  }

  ghost predicate Progress(c: Config, d: Command, dram0: seq<Byte>, spm0: seq<Word>, s: Sys)
    requires SysOk(c, s) && CommandOk(c, d) && |dram0| == c.dramSize && |spm0| == c.spmSize
  {
    match s.g.state
    case Idle => false
    case InReq => AtInReq(c, d, dram0, spm0, s)
    case InResp => AtInResp(c, d, dram0, spm0, s)
    case InWrite => AtInWrite(c, d, dram0, spm0, s)
    case OutRead => AtOutRead(c, d, dram0, spm0, s)
    case OutResp => AtOutResp(c, d, dram0, spm0, s)
    case OutWrite => AtOutWrite(c, d, dram0, spm0, s)
    case OutWait => AtOutWait(c, d, dram0, spm0, s)
    case Done => s.g.tag == d.tag && Finished(c, d, dram0, spm0, s)
  }

  /** The first n lanes of the beat hold the scratchpad words from the `first`-th on. */
  predicate OutBeat(c: Config, d: Command, spm0: seq<Word>, b: Beat, first: nat, n: nat)
    requires CommandOk(c, d) && ConfigOk(c) && |spm0| == c.spmSize && n <= 4
    requires first + n <= c.spmSize
  {
    forall j :: 0 <= j < n ==> b[j] == spm0[Wrap(d.spmAddr + first + j, c.spmSize)]
  }

  /** What a command promises when it reports done. */
  ghost predicate Finished(c: Config, d: Command, dram0: seq<Byte>, spm0: seq<Word>, s: Sys)
    requires SysOk(c, s) && CommandOk(c, d) && |dram0| == c.dramSize && |spm0| == c.spmSize
  {
    var w := d.nbytes / 4;
    && s.dram == (if d.mvin then dram0 else DramAfter(dram0, spm0, d.dramAddr, d.spmAddr, w))
    && s.spm == (if d.mvin then SpmAfter(dram0, spm0, d.dramAddr, d.spmAddr, w) else spm0)
    && s.spmTxns == w && s.dramTxns == (w + 3) / 4
  }

  // ---- every step keeps the progress ----

  lemma SpmStep(dram: seq<Byte>, spm: seq<Word>, D: nat, S: nat, k: nat)
    requires D < |dram| && S < |spm| && 16 <= |dram| && 4 * k + 4 <= |dram| && k < |spm|
    ensures SpmAfter(dram, spm, D, S, k + 1)
            == SpmAfter(dram, spm, D, S, k)[Wrap(S + k, |spm|) := DramWord(dram, Wrap(D + 4 * k, |dram|))]
  {
  }

  /** Writing the low 4n bytes of a beat adds words first .. first + n to the DRAM effect. */
  lemma DramStep(c: Config, d: Command, dram: seq<Byte>, spm: seq<Word>, b: Beat, first: nat, n: nat)
    requires ConfigOk(c) && CommandOk(c, d) && |dram| == c.dramSize && |spm| == c.spmSize
    requires n <= 4 && first + n <= c.spmSize && 4 * first + 16 <= c.dramSize && OutBeat(c, d, spm, b, first, n)
    ensures DramAfter(dram, spm, d.dramAddr, d.spmAddr, first + n)
            == WriteBeat(DramAfter(dram, spm, d.dramAddr, d.spmAddr, first),
                         Wrap(d.dramAddr + 4 * first, c.dramSize), b, LowBytes(4 * n))
  {
    var l := DramAfter(dram, spm, d.dramAddr, d.spmAddr, first + n);
    var before := DramAfter(dram, spm, d.dramAddr, d.spmAddr, first);
    var A := Wrap(d.dramAddr + 4 * first, c.dramSize);
    var r := WriteBeat(before, A, b, LowBytes(4 * n));
    forall x | 0 <= x < c.dramSize ensures l[x] == r[x] {
      var o, p := Offset(x, d.dramAddr, c.dramSize), Offset(x, A, c.dramSize);
      if 4 * first <= o < 4 * (first + n) {
        assert p == o - 4 * first;
        var j := p / 4;
        assert o / 4 == first + j && o % 4 == p % 4;
      } else if o < 4 * first {
        assert p >= 16 || p >= 4 * n;
      }
    }
  }

  lemma Accepted(c: Config, d: Command, s: Sys, t: Timing)
    requires SysOk(c, s) && CommandOk(c, d) && s.g.state.Idle? && t.cmdVal && t.cmd == d
    requires d.nbytes == 0 || d.nbytes >= 4
    ensures Progress(c, d, s.dram, s.spm, Cycle(c, s, t))
  {
    assert SpmAfter(s.dram, s.spm, d.dramAddr, d.spmAddr, 0) == s.spm;
    assert DramAfter(s.dram, s.spm, d.dramAddr, d.spmAddr, 0) == s.dram;
  }

  lemma InReqStep(c: Config, d: Command, dram0: seq<Byte>, spm0: seq<Word>, s: Sys, t: Timing)
    requires SysOk(c, s) && CommandOk(c, d) && CommandOk(c, t.cmd) && |dram0| == c.dramSize && |spm0| == c.spmSize
    requires Served(s, t) && s.g.state.InReq? && AtInReq(c, d, dram0, spm0, s)
    ensures Progress(c, d, dram0, spm0, Cycle(c, s, t))
  {
    assert AtInResp(c, d, dram0, spm0, Cycle(c, s, t));
  }

  lemma InRespStep(c: Config, d: Command, dram0: seq<Byte>, spm0: seq<Word>, s: Sys, t: Timing)
    requires SysOk(c, s) && CommandOk(c, d) && CommandOk(c, t.cmd) && |dram0| == c.dramSize && |spm0| == c.spmSize
    requires Served(s, t) && s.g.state.InResp? && AtInResp(c, d, dram0, spm0, s)
    ensures Progress(c, d, dram0, spm0, Cycle(c, s, t))
  {
    assert AtInWrite(c, d, dram0, spm0, Cycle(c, s, t));
  }

  lemma InWriteStep(c: Config, d: Command, dram0: seq<Byte>, spm0: seq<Word>, s: Sys, t: Timing)
    requires SysOk(c, s) && CommandOk(c, d) && CommandOk(c, t.cmd) && |dram0| == c.dramSize && |spm0| == c.spmSize
    requires Served(s, t) && s.g.state.InWrite? && AtInWrite(c, d, dram0, spm0, s)
    ensures Progress(c, d, dram0, spm0, Cycle(c, s, t))
  {
    WordStored(c, d, dram0, spm0, s, Cycle(c, s, t));
  }

  /** A word written to the scratchpad advances the progress: to the next lane, to the
      next beat, or to the end. */
  lemma WordStored(c: Config, d: Command, dram0: seq<Byte>, spm0: seq<Word>, s: Sys, s': Sys)
    requires SysOk(c, s) && SysOk(c, s') && CommandOk(c, d) && |dram0| == c.dramSize && |spm0| == c.spmSize
    requires s.g.state.InWrite? && AtInWrite(c, d, dram0, spm0, s) && Stored(c, s, s')
    ensures if s.g.left == 1 then Finished(c, d, dram0, spm0, s')
            else if s.g.idx == 3 then AtInReq(c, d, dram0, spm0, s')
            else AtInWrite(c, d, dram0, spm0, s')
  {
    SpmGrew(c, d, dram0, spm0, s, s');
  }

  predicate Stored(c: Config, s: Sys, s': Sys)
    requires SysOk(c, s) && s.g.state.InWrite? && s.g.left > 0
  {
    && s'.dram == s.dram && s'.spm == s.spm[s.g.spmAddr := s.g.beat[s.g.idx]]
    && s'.dramTxns == s.dramTxns && s'.spmTxns == s.spmTxns + 1
    && s'.g == s.g.(spmAddr := Wrap(s.g.spmAddr + 1, c.spmSize), left := s.g.left - 1,
                    idx := if s.g.left == 1 then s.g.idx else if s.g.idx == 3 then 0 else s.g.idx + 1,
                    state := if s.g.left == 1 then Done else if s.g.idx == 3 then InReq else InWrite)
  }

  lemma SpmGrew(c: Config, d: Command, dram0: seq<Byte>, spm0: seq<Word>, s: Sys, s': Sys)
    requires SysOk(c, s) && SysOk(c, s') && CommandOk(c, d) && |dram0| == c.dramSize && |spm0| == c.spmSize
    requires s.g.state.InWrite? && AtInWrite(c, d, dram0, spm0, s) && Stored(c, s, s')
    ensures s'.spm == SpmAfter(dram0, spm0, d.dramAddr, d.spmAddr, Moved(d, s'))
  {
    StoredWord(c, d, dram0, spm0, s, s');
    SpmStep(dram0, spm0, d.dramAddr, d.spmAddr, Moved(d, s));
  }

  lemma StoredWord(c: Config, d: Command, dram0: seq<Byte>, spm0: seq<Word>, s: Sys, s': Sys)
    requires SysOk(c, s) && SysOk(c, s') && CommandOk(c, d) && |dram0| == c.dramSize && |spm0| == c.spmSize
    requires s.g.state.InWrite? && AtInWrite(c, d, dram0, spm0, s) && Stored(c, s, s')
    ensures var k := Moved(d, s);
            && Moved(d, s') == k + 1 && 4 * k <= c.dramSize
            && s'.spm == s.spm[Wrap(d.spmAddr + k, c.spmSize) := DramWord(dram0, Wrap(d.dramAddr + 4 * k, c.dramSize))]
  {
    BeatLane(dram0, d.dramAddr, Moved(d, s) - s.g.idx, s.g.idx);
  }

  /** Lane j of the beat at word f is word f + j. */
  lemma BeatLane(dram: seq<Byte>, a: nat, f: nat, j: nat)
    requires |dram| >= 16 && a < |dram| && 4 * f <= |dram| && 4 * (f + j) <= |dram| && j < 4
    ensures BeatAt(dram, Wrap(a + 4 * f, |dram|))[j] == DramWord(dram, Wrap(a + 4 * (f + j), |dram|))
  {
    assert j == 0 || j == 1 || j == 2 || j == 3;
  }

  lemma OutReadStep(c: Config, d: Command, dram0: seq<Byte>, spm0: seq<Word>, s: Sys, t: Timing)
    requires SysOk(c, s) && CommandOk(c, d) && CommandOk(c, t.cmd) && |dram0| == c.dramSize && |spm0| == c.spmSize
    requires Served(s, t) && s.g.state.OutRead? && AtOutRead(c, d, dram0, spm0, s)
    ensures Progress(c, d, dram0, spm0, Cycle(c, s, t))
  {
    Requested(c, d, dram0, spm0, s, Cycle(c, s, t));
  }

  /** A read request changes nothing that was moved. */
  lemma Requested(c: Config, d: Command, dram0: seq<Byte>, spm0: seq<Word>, s: Sys, s': Sys)
    requires SysOk(c, s) && SysOk(c, s') && CommandOk(c, d) && |dram0| == c.dramSize && |spm0| == c.spmSize
    requires AtOutRead(c, d, dram0, spm0, s)
    requires s' == s.(g := s.g.(state := OutResp), spmRd := Asked(s.g.spmAddr), spmTxns := s.spmTxns + 1)
    ensures AtOutResp(c, d, dram0, spm0, s')
  {
    assert Moved(d, s') == Moved(d, s);
  }

  lemma OutRespStep(c: Config, d: Command, dram0: seq<Byte>, spm0: seq<Word>, s: Sys, t: Timing)
    requires SysOk(c, s) && CommandOk(c, d) && CommandOk(c, t.cmd) && |dram0| == c.dramSize && |spm0| == c.spmSize
    requires Served(s, t) && s.g.state.OutResp? && AtOutResp(c, d, dram0, spm0, s)
    ensures Progress(c, d, dram0, spm0, Cycle(c, s, t))
  {
    if s.g.left == 1 || s.g.idx == 3 {
      BeatFull(c, d, dram0, spm0, s, Cycle(c, s, t));
    } else {
      BeatOpen(c, d, dram0, spm0, s, Cycle(c, s, t));
    }
  }

  /** A word read from the scratchpad joins the beat and completes it. */
  lemma BeatFull(c: Config, d: Command, dram0: seq<Byte>, spm0: seq<Word>, s: Sys, s': Sys)
    requires SysOk(c, s) && SysOk(c, s') && CommandOk(c, d) && |dram0| == c.dramSize && |spm0| == c.spmSize
    requires s.g.state.OutResp? && AtOutResp(c, d, dram0, spm0, s) && Joined(c, s, s')
    requires s.g.left == 1 || s.g.idx == 3
    ensures AtOutWrite(c, d, dram0, spm0, s')
  {
    BeatGrew(c, d, dram0, spm0, s, s');
    FullBeat(c, d, dram0, spm0, s', Moved(d, s) - s.g.idx);
  }

  /** A beat is complete with its last lane or its last word. */
  lemma FullBeat(c: Config, d: Command, dram0: seq<Byte>, spm0: seq<Word>, s: Sys, f: int)
    requires SysOk(c, s) && CommandOk(c, d) && |dram0| == c.dramSize && |spm0| == c.spmSize
    requires Tagged(c, d, s) && Packed(c, d, dram0, spm0, s, f, s.g.idx + 1) && f == Moved(d, s) - s.g.idx - 1
    requires (s.g.left == 0 || s.g.idx == 3) && s.spmTxns == Moved(d, s) && s.g.mask == LowBytes(4 * s.g.idx + 4)
    ensures AtOutWrite(c, d, dram0, spm0, s)
  {
  }

  /** A word read from the scratchpad joins the beat and leaves room. */
  lemma BeatOpen(c: Config, d: Command, dram0: seq<Byte>, spm0: seq<Word>, s: Sys, s': Sys)
    requires SysOk(c, s) && SysOk(c, s') && CommandOk(c, d) && |dram0| == c.dramSize && |spm0| == c.spmSize
    requires s.g.state.OutResp? && AtOutResp(c, d, dram0, spm0, s) && Joined(c, s, s')
    requires s.g.left != 1 && s.g.idx != 3
    ensures AtOutRead(c, d, dram0, spm0, s')
  {
    BeatGrew(c, d, dram0, spm0, s, s');
    assert Moved(d, s') - s'.g.idx == Moved(d, s) - s.g.idx;
  }

  predicate Joined(c: Config, s: Sys, s': Sys)
    requires SysOk(c, s) && s.g.state.OutResp? && s.g.left > 0
  {
    && s'.dram == s.dram && s'.spm == s.spm && s'.dramTxns == s.dramTxns && s'.spmTxns == s.spmTxns
    && s'.g.beat == s.g.beat[s.g.idx := s.spm[s.spmRd.addr]]
    && s'.g.spmAddr == Wrap(s.g.spmAddr + 1, c.spmSize) && s'.g.left == s.g.left - 1
    && s'.g.dramAddr == s.g.dramAddr && s'.g.tag == s.g.tag
    && if s.g.left == 1 || s.g.idx == 3
       then s'.g.state.OutWrite? && s'.g.idx == s.g.idx && s'.g.mask == LowBytes(4 * s.g.idx + 4)
       else s'.g.state.OutRead? && s'.g.idx == s.g.idx + 1
  }

  lemma BeatGrew(c: Config, d: Command, dram0: seq<Byte>, spm0: seq<Word>, s: Sys, s': Sys)
    requires SysOk(c, s) && SysOk(c, s') && CommandOk(c, d) && |dram0| == c.dramSize && |spm0| == c.spmSize
    requires s.g.state.OutResp? && AtOutResp(c, d, dram0, spm0, s) && Joined(c, s, s')
    ensures Tagged(c, d, s') && Packed(c, d, dram0, spm0, s', Moved(d, s) - s.g.idx, s.g.idx + 1)
  {
    assert Moved(d, s') == Moved(d, s) + 1;
    BeatJoined(c, d, spm0, s.g.beat, s'.g.beat, Moved(d, s) - s.g.idx, s.g.idx);
  }

  /** Word n after the first ones joins a beat that holds n. */
  lemma BeatJoined(c: Config, d: Command, spm0: seq<Word>, b: Beat, b': Beat, first: nat, n: nat)
    requires CommandOk(c, d) && ConfigOk(c) && |spm0| == c.spmSize && n < 4 && first + n + 1 <= c.spmSize
    requires OutBeat(c, d, spm0, b, first, n) && b' == b[n := spm0[Wrap(d.spmAddr + first + n, c.spmSize)]]
    ensures OutBeat(c, d, spm0, b', first, n + 1)
  {
  }

  lemma OutWriteStep(c: Config, d: Command, dram0: seq<Byte>, spm0: seq<Word>, s: Sys, t: Timing)
    requires SysOk(c, s) && CommandOk(c, d) && CommandOk(c, t.cmd) && |dram0| == c.dramSize && |spm0| == c.spmSize
    requires Served(s, t) && s.g.state.OutWrite? && AtOutWrite(c, d, dram0, spm0, s)
    ensures Progress(c, d, dram0, spm0, Cycle(c, s, t))
  {
    BeatWritten(c, d, dram0, spm0, s, Cycle(c, s, t));
  }

  /** A masked beat written to DRAM delivers exactly the words packed in it. */
  lemma BeatWritten(c: Config, d: Command, dram0: seq<Byte>, spm0: seq<Word>, s: Sys, s': Sys)
    requires SysOk(c, s) && SysOk(c, s') && CommandOk(c, d) && |dram0| == c.dramSize && |spm0| == c.spmSize
    requires s.g.state.OutWrite? && AtOutWrite(c, d, dram0, spm0, s)
    requires s' == s.(g := s.g.(state := OutWait), wr := true, dramTxns := s.dramTxns + 1,
                      dram := WriteBeat(s.dram, s.g.dramAddr, s.g.beat, s.g.mask))
    ensures AtOutWait(c, d, dram0, spm0, s')
  {
    DramGrew(c, d, dram0, spm0, s, s');
  }

  lemma DramGrew(c: Config, d: Command, dram0: seq<Byte>, spm0: seq<Word>, s: Sys, s': Sys)
    requires SysOk(c, s) && SysOk(c, s') && CommandOk(c, d) && |dram0| == c.dramSize && |spm0| == c.spmSize
    requires s.g.state.OutWrite? && AtOutWrite(c, d, dram0, spm0, s)
    requires s'.dram == WriteBeat(s.dram, s.g.dramAddr, s.g.beat, s.g.mask)
    ensures s'.dram == DramAfter(dram0, spm0, d.dramAddr, d.spmAddr, Moved(d, s))
  {
    var f, n := Moved(d, s) - s.g.idx - 1, s.g.idx + 1;
    DramStep(c, d, dram0, spm0, s.g.beat, f, n);
    assert f + n == Moved(d, s) && 4 * n == 4 * s.g.idx + 4;
  }

  lemma OutWaitStep(c: Config, d: Command, dram0: seq<Byte>, spm0: seq<Word>, s: Sys, t: Timing)
    requires SysOk(c, s) && CommandOk(c, d) && CommandOk(c, t.cmd) && |dram0| == c.dramSize && |spm0| == c.spmSize
    requires Served(s, t) && s.g.state.OutWait? && AtOutWait(c, d, dram0, spm0, s)
    ensures Progress(c, d, dram0, spm0, Cycle(c, s, t))
  {
  }

  lemma BusyStep(c: Config, d: Command, dram0: seq<Byte>, spm0: seq<Word>, s: Sys, t: Timing)
    requires SysOk(c, s) && CommandOk(c, d) && CommandOk(c, t.cmd) && |dram0| == c.dramSize && |spm0| == c.spmSize
    requires Progress(c, d, dram0, spm0, s) && !s.g.state.Done?
    ensures Progress(c, d, dram0, spm0, Cycle(c, s, t))
  {
    if !Served(s, t) {
      StalledStep(c, s, t);
    } else {
      match s.g.state
      case InReq => InReqStep(c, d, dram0, spm0, s, t);
      case InResp => InRespStep(c, d, dram0, spm0, s, t);
      case InWrite => InWriteStep(c, d, dram0, spm0, s, t);
      case OutRead => OutReadStep(c, d, dram0, spm0, s, t);
      case OutResp => OutRespStep(c, d, dram0, spm0, s, t);
      case OutWrite => OutWriteStep(c, d, dram0, spm0, s, t);
      case OutWait => OutWaitStep(c, d, dram0, spm0, s, t);
    }
  }

  lemma StalledStep(c: Config, s: Sys, t: Timing)
    requires SysOk(c, s) && CommandOk(c, t.cmd) && !s.g.state.Idle? && !Served(s, t)
    ensures Cycle(c, s, t) == s
  {
  }

  // ---- termination: every handshake uses up work ----

  function Work(g: Engine): int {
    match g.state
    case Idle => 0
    case InReq => 3 * g.left + 2
    case InResp => 3 * g.left + 1
    case InWrite => 3 * g.left
    case OutRead => 4 * g.left
    case OutResp => 4 * g.left - 1
    case OutWrite => 4 * g.left + 2
    case OutWait => 4 * g.left + 1
    case Done => 0
  }

  /** What `Progress` says of the word count. */
  predicate Counts(g: Engine) {
    match g.state
    case Idle => false
    case OutWrite => g.left == 0 || g.idx == 3
    case OutWait => g.left == 0 || g.idx == 3
    case Done => true
    case _ => g.left > 0
  }

  /** The channel the engine waits on handshakes. */
  predicate Handshakes(g: Engine, i: Input) {
    match g.state
    case Idle => i.cmdVal
    case InReq => i.rdReqRdy
    case InResp => i.rdRespVal
    case InWrite => i.spmWrRdy
    case OutRead => i.spmRdRdy
    case OutResp => i.spmRespVal
    case OutWrite => i.wrReqRdy
    case OutWait => i.wrRespVal
    case Done => i.doneRdy
  }

  lemma EngineDrops(c: Config, g: Engine, i: Input)
    requires EngineOk(c, g) && CommandOk(c, i.cmd) && Counts(g) && !g.state.Done? && Handshakes(g, i)
    requires Counts(Next(c, g, i))
    ensures 0 <= Work(Next(c, g, i)) < Work(g)
  {
  }

  lemma ProgressCounts(c: Config, d: Command, dram0: seq<Byte>, spm0: seq<Word>, s: Sys)
    requires SysOk(c, s) && CommandOk(c, d) && |dram0| == c.dramSize && |spm0| == c.spmSize
    requires Progress(c, d, dram0, spm0, s)
    ensures Counts(s.g)
  {
  }

  lemma WorkDrops(c: Config, d: Command, dram0: seq<Byte>, spm0: seq<Word>, s: Sys, t: Timing)
    requires SysOk(c, s) && CommandOk(c, d) && CommandOk(c, t.cmd) && |dram0| == c.dramSize && |spm0| == c.spmSize
    requires Progress(c, d, dram0, spm0, s) && !s.g.state.Done? && Served(s, t)
    ensures 0 <= Work(Cycle(c, s, t).g) < Work(s.g)
  {
    assert Counts(s.g) by {
      ProgressCounts(c, d, dram0, spm0, s);
    }
    assert Counts(Cycle(c, s, t).g) by {
      BusyStep(c, d, dram0, spm0, s, t);
      ProgressCounts(c, d, dram0, spm0, Cycle(c, s, t));
    }
    EngineDrops(c, s.g, Wires(c, s, t));
  }

  lemma WorkPositive(g: Engine)
    requires Counts(g)
    ensures Work(g) >= 0
  {
  }

  // ---- sequences of commands ----

  /** The system with its host: how many commands it has had accepted, and the tags of the
      completions it has taken. */
  datatype Host = Host(s: Sys, accepted: nat, reported: seq<nat>)

  /** The host offers its commands in order. */
  function Offered(c: Config, ds: seq<Command>, accepted: nat, t: Timing): (u: Timing)
    requires CommandsOk(c, ds) && CommandOk(c, t.cmd)
    ensures CommandOk(c, u.cmd)
  {
    if accepted < |ds| then t.(cmd := ds[accepted]) else t.(cmdVal := false)
  }

  function HostCycle(c: Config, h: Host, t: Timing): (h': Host)
    requires SysOk(c, h.s) && CommandOk(c, t.cmd)
    ensures SysOk(c, h'.s)
  {
    var o := OutputOf(h.s.g);
    Host(Cycle(c, h.s, t),
         if o.cmdRdy && t.cmdVal then h.accepted + 1 else h.accepted,
         if o.doneVal && t.doneRdy then h.reported + [o.doneTag] else h.reported)
  }

  predicate CommandsOk(c: Config, ds: seq<Command>) {
    forall k :: 0 <= k < |ds| ==> CommandOk(c, ds[k])
  }

  predicate TimingsOk(c: Config, ts: seq<Timing>) {
    forall k :: 0 <= k < |ts| ==> CommandOk(c, ts[k].cmd)
  }

  ghost function Serve(c: Config, ds: seq<Command>, h: Host, ts: seq<Timing>): (h': Host)
    requires SysOk(c, h.s) && CommandsOk(c, ds) && TimingsOk(c, ts)
    ensures SysOk(c, h'.s)
  {
    if ts == [] then h
    else
      var before := Serve(c, ds, h, ts[..|ts| - 1]);
      HostCycle(c, before, Offered(c, ds, before.accepted, ts[|ts| - 1]))
  }

  /** Cycles in which the party the engine waits for answered. */
  ghost function ServedCycles(c: Config, ds: seq<Command>, h: Host, ts: seq<Timing>): nat
    requires SysOk(c, h.s) && CommandsOk(c, ds) && TimingsOk(c, ts)
  {
    if ts == [] then 0
    else
      var n := |ts| - 1;
      var mid := Serve(c, ds, h, ts[..n]);
      ServedCycles(c, ds, h, ts[..n]) + if Served(mid.s, Offered(c, ds, mid.accepted, ts[n])) then 1 else 0
  }

  datatype Memory = Memory(dram: seq<Byte>, spm: seq<Word>)

  predicate MemoryOk(c: Config, m: Memory) {
    ConfigOk(c) && |m.dram| == c.dramSize && |m.spm| == c.spmSize
  }

  /** What a command does to the two memories. */
  function Effect(c: Config, d: Command, m: Memory): (m': Memory)
    requires MemoryOk(c, m) && CommandOk(c, d)
    ensures MemoryOk(c, m')
  {
    var w := d.nbytes / 4;
    if d.mvin then m.(spm := SpmAfter(m.dram, m.spm, d.dramAddr, d.spmAddr, w))
    else m.(dram := DramAfter(m.dram, m.spm, d.dramAddr, d.spmAddr, w))
  }

  function Effects(c: Config, ds: seq<Command>, m: Memory): (m': Memory)
    requires MemoryOk(c, m) && CommandsOk(c, ds)
    ensures MemoryOk(c, m')
  {
    if ds == [] then m else Effect(c, ds[|ds| - 1], Effects(c, ds[..|ds| - 1], m))
  }

  function Tags(ds: seq<Command>): seq<nat> {
    seq(|ds|, k requires 0 <= k < |ds| => ds[k].tag)
  }

  /** No command of 1 to 3 bytes. */
  predicate WholeWords(ds: seq<Command>) {
    forall k :: 0 <= k < |ds| ==> ds[k].nbytes == 0 || ds[k].nbytes >= 4
  }

  /** Whether the account of command d, begun with memory m, is right. */
  datatype Account = Kept | Broken

  ghost function AccountOf(c: Config, d: Command, m: Memory, s: Sys): Account
    requires SysOk(c, s) && CommandOk(c, d) && MemoryOk(c, m)
  {
    if Progress(c, d, m.dram, m.spm, s) then Kept else Broken
  }

  /** After k reports the engine is idle, having done k commands and nothing else, or under way
      with the next one. */
  ghost predicate Serving(c: Config, ds: seq<Command>, m: Memory, h: Host)
    requires SysOk(c, h.s) && MemoryOk(c, m) && CommandsOk(c, ds)
  {
    var k := |h.reported|;
    && k <= |ds| && h.reported == Tags(ds[..k])
    && var now := Effects(c, ds[..k], m);
       if h.s.g.state.Idle?
       then h.accepted == k && h.s.dram == now.dram && h.s.spm == now.spm && Transactions(ds[..k], h.s)
       else h.accepted == k + 1 && k < |ds| && AccountOf(c, ds[k], now, h.s).Kept?
  }

  /** The last command took one scratchpad transaction a word and one DRAM transaction a beat. */
  predicate Transactions(ds: seq<Command>, s: Sys) {
    if ds == [] then s.spmTxns == s.dramTxns == 0
    else
      var w := ds[|ds| - 1].nbytes / 4;
      s.spmTxns == w && s.dramTxns == (w + 3) / 4
  }

  /** A completion taken. */
  lemma Reports(c: Config, ds: seq<Command>, m: Memory, h: Host, s: Sys)
    requires SysOk(c, h.s) && SysOk(c, s) && MemoryOk(c, m) && CommandsOk(c, ds) && Serving(c, ds, m, h)
    requires h.s.g.state.Done? && s == h.s.(g := h.s.g.(state := Idle))
    ensures Serving(c, ds, m, Host(s, h.accepted, h.reported + [h.s.g.tag]))
  {
    var k := |h.reported|;
    assert ds[..k + 1][..k] == ds[..k] && ds[..k + 1][k] == ds[k];
    assert Tags(ds[..k + 1]) == Tags(ds[..k]) + [ds[k].tag];
    assert Effects(c, ds[..k + 1], m) == Effect(c, ds[k], Effects(c, ds[..k], m));
  }

  lemma DoneStep(c: Config, s: Sys, t: Timing)
    requires SysOk(c, s) && CommandOk(c, t.cmd) && s.g.state.Done?
    ensures Cycle(c, s, t) == if t.doneRdy then s.(g := s.g.(state := Idle)) else s
    ensures OutputOf(s.g).doneVal && OutputOf(s.g).doneTag == s.g.tag && !OutputOf(s.g).cmdRdy
  {
  }

  lemma IdleStep(c: Config, s: Sys, t: Timing)
    requires SysOk(c, s) && CommandOk(c, t.cmd) && s.g.state.Idle?
    ensures t.cmdVal ==> !Cycle(c, s, t).g.state.Idle?
    ensures !t.cmdVal ==> Cycle(c, s, t) == s
    ensures !OutputOf(s.g).doneVal && OutputOf(s.g).cmdRdy
  {
  }

  lemma StaysBusy(c: Config, s: Sys, t: Timing)
    requires SysOk(c, s) && CommandOk(c, t.cmd) && !s.g.state.Idle? && !s.g.state.Done?
    ensures !Cycle(c, s, t).g.state.Idle? && !OutputOf(s.g).doneVal && !OutputOf(s.g).cmdRdy
  {
  }

  lemma BusyKeeps(c: Config, d: Command, m: Memory, s: Sys, t: Timing)
    requires SysOk(c, s) && CommandOk(c, d) && MemoryOk(c, m) && CommandOk(c, t.cmd)
    requires AccountOf(c, d, m, s).Kept? && !s.g.state.Done?
    ensures AccountOf(c, d, m, Cycle(c, s, t)).Kept?
  {
    BusyStep(c, d, m.dram, m.spm, s, t);
  }

  lemma AcceptKeeps(c: Config, d: Command, m: Memory, s: Sys, t: Timing)
    requires SysOk(c, s) && CommandOk(c, d) && MemoryOk(c, m) && s.g.state.Idle? && t.cmdVal && t.cmd == d
    requires s.dram == m.dram && s.spm == m.spm && (d.nbytes == 0 || d.nbytes >= 4)
    ensures AccountOf(c, d, m, Cycle(c, s, t)).Kept?
  {
    Accepted(c, d, s, t);
  }

  /** What is offered is the next command. */
  predicate OffersNext(ds: seq<Command>, h: Host, t: Timing) {
    t.cmdVal ==> h.accepted < |ds| && t.cmd == ds[h.accepted]
  }

  lemma HostStep(c: Config, ds: seq<Command>, m: Memory, h: Host, t: Timing)
    requires SysOk(c, h.s) && MemoryOk(c, m) && CommandsOk(c, ds) && WholeWords(ds) && CommandOk(c, t.cmd)
    requires Serving(c, ds, m, h) && OffersNext(ds, h, t)
    ensures Serving(c, ds, m, HostCycle(c, h, t))
  {
    if h.s.g.state.Idle? {
      IdleStep(c, h.s, t);
      if t.cmdVal {
        HostIdle(c, ds, m, h, t, Cycle(c, h.s, t));
      }
    } else if h.s.g.state.Done? {
      DoneStep(c, h.s, t);
      if t.doneRdy {
        Reports(c, ds, m, h, Cycle(c, h.s, t));
      }
    } else {
      StaysBusy(c, h.s, t);
      HostBusy(c, ds, m, h, t, Cycle(c, h.s, t));
    }
  }

  /** The next command is under way. */
  lemma Goes(c: Config, ds: seq<Command>, m: Memory, h: Host)
    requires SysOk(c, h.s) && MemoryOk(c, m) && CommandsOk(c, ds) && |h.reported| < |ds|
    requires h.reported == Tags(ds[..|h.reported|]) && h.accepted == |h.reported| + 1 && !h.s.g.state.Idle?
    requires AccountOf(c, ds[|h.reported|], Effects(c, ds[..|h.reported|], m), h.s).Kept?
    ensures Serving(c, ds, m, h)
  {
  }

  lemma HostIdle(c: Config, ds: seq<Command>, m: Memory, h: Host, u: Timing, s: Sys)
    requires SysOk(c, h.s) && MemoryOk(c, m) && CommandsOk(c, ds) && WholeWords(ds) && CommandOk(c, u.cmd)
    requires Serving(c, ds, m, h) && h.s.g.state.Idle? && s == Cycle(c, h.s, u)
    requires u.cmdVal && h.accepted < |ds| && u.cmd == ds[h.accepted]
    ensures Serving(c, ds, m, Host(s, h.accepted + 1, h.reported))
  {
    var k := |h.reported|;
    assert SysOk(c, s) && !s.g.state.Idle? && AccountOf(c, ds[k], Effects(c, ds[..k], m), s).Kept? by {
      IdleStep(c, h.s, u);
      AcceptKeeps(c, ds[k], Effects(c, ds[..k], m), h.s, u);
    }
    Goes(c, ds, m, Host(s, k + 1, h.reported));
  }

  lemma HostBusy(c: Config, ds: seq<Command>, m: Memory, h: Host, u: Timing, s: Sys)
    requires SysOk(c, h.s) && MemoryOk(c, m) && CommandsOk(c, ds) && CommandOk(c, u.cmd)
    requires Serving(c, ds, m, h) && !h.s.g.state.Idle? && !h.s.g.state.Done? && s == Cycle(c, h.s, u)
    ensures Serving(c, ds, m, Host(s, h.accepted, h.reported))
  {
    var k := |h.reported|;
    assert SysOk(c, s) && !s.g.state.Idle? && AccountOf(c, ds[k], Effects(c, ds[..k], m), s).Kept? by {
      StaysBusy(c, h.s, u);
      BusyKeeps(c, ds[k], Effects(c, ds[..k], m), h.s, u);
    }
    Goes(c, ds, m, Host(s, h.accepted, h.reported));
  }

  /** A host at the start: the engine idle, nothing accepted. */
  predicate Starts(c: Config, h: Host) {
    SysOk(c, h.s) && h.s.g.state.Idle? && h.s.spmTxns == h.s.dramTxns == h.accepted == 0 && h.reported == []
  }

  function MemoryOf(s: Sys): Memory {
    Memory(s.dram, s.spm)
  }

  lemma {:induction false} ServesInOrder(c: Config, ds: seq<Command>, h: Host, ts: seq<Timing>)
    requires Starts(c, h) && CommandsOk(c, ds) && WholeWords(ds) && TimingsOk(c, ts)
    ensures Serving(c, ds, MemoryOf(h.s), Serve(c, ds, h, ts))
  {
    if ts == [] {
      assert ds[..0] == [];
    } else {
      var n := |ts| - 1;
      ServesInOrder(c, ds, h, ts[..n]);
      var mid := Serve(c, ds, h, ts[..n]);
      HostStep(c, ds, MemoryOf(h.s), mid, Offered(c, ds, mid.accepted, ts[n]));
    }
  }

  // ---- progress ----

  /** What a command takes: being accepted, at most so many handshakes, being reported. */
  function CommandWork(d: Command): nat {
    4 * (d.nbytes / 4) + 4
  }

  function Ahead(ds: seq<Command>, k: nat): nat
    requires k <= |ds|
    decreases |ds| - k
  {
    if k == |ds| then 0 else CommandWork(ds[k]) + Ahead(ds, k + 1)
  }

  function WorkLeft(ds: seq<Command>, h: Host): int
    requires h.accepted <= |ds|
  {
    Ahead(ds, h.accepted) + if h.s.g.state.Idle? then 0 else Work(h.s.g) + 1
  }

  lemma HostCounts(c: Config, ds: seq<Command>, m: Memory, h: Host)
    requires SysOk(c, h.s) && MemoryOk(c, m) && CommandsOk(c, ds) && Serving(c, ds, m, h)
    ensures h.accepted <= |ds| && (h.s.g.state.Idle? || Counts(h.s.g))
  {
    if !h.s.g.state.Idle? {
      var k := |h.reported|;
      ProgressCounts(c, ds[k], Effects(c, ds[..k], m).dram, Effects(c, ds[..k], m).spm, h.s);
    }
  }

  /** Work left once command d is accepted. */
  lemma AcceptedWork(c: Config, g: Engine, i: Input)
    requires EngineOk(c, g) && CommandOk(c, i.cmd) && g.state.Idle? && i.cmdVal && Counts(Next(c, g, i))
    ensures Work(Next(c, g, i)) + 2 <= CommandWork(i.cmd)
  {
  }

  lemma WorkLeftDrops(c: Config, ds: seq<Command>, h: Host, t: Timing)
    requires SysOk(c, h.s) && CommandOk(c, t.cmd) && OffersNext(ds, h, t)
    requires h.accepted <= |ds| && (h.s.g.state.Idle? || Counts(h.s.g))
    requires var g := Cycle(c, h.s, t).g; g.state.Idle? || Counts(g)
    ensures HostCycle(c, h, t).accepted <= |ds|
    ensures WorkLeft(ds, HostCycle(c, h, t)) + (if Served(h.s, t) then 1 else 0) <= WorkLeft(ds, h)
  {
    if h.s.g.state.Idle? {
      IdleStep(c, h.s, t);
      if t.cmdVal {
        AcceptedWork(c, h.s.g, Wires(c, h.s, t));
      }
    } else if h.s.g.state.Done? {
      DoneStep(c, h.s, t);
    } else {
      StaysBusy(c, h.s, t);
      if Served(h.s, t) {
        EngineDrops(c, h.s.g, Wires(c, h.s, t));
      } else {
        StalledStep(c, h.s, t);
      }
    }
  }

  lemma RunCounts(c: Config, ds: seq<Command>, h: Host, ts: seq<Timing>)
    requires Starts(c, h) && CommandsOk(c, ds) && WholeWords(ds) && TimingsOk(c, ts)
    ensures var g := Serve(c, ds, h, ts).s.g; g.state.Idle? || Counts(g)
  {
    ServesInOrder(c, ds, h, ts);
    HostCounts(c, ds, MemoryOf(h.s), Serve(c, ds, h, ts));
  }

  lemma {:induction false} WorkInRun(c: Config, ds: seq<Command>, h: Host, ts: seq<Timing>)
    requires Starts(c, h) && CommandsOk(c, ds) && WholeWords(ds) && TimingsOk(c, ts)
    ensures Serve(c, ds, h, ts).accepted <= |ds|
    ensures WorkLeft(ds, Serve(c, ds, h, ts)) + ServedCycles(c, ds, h, ts) <= Ahead(ds, 0)
  {
    if ts != [] {
      var n := |ts| - 1;
      var mid := Serve(c, ds, h, ts[..n]);
      WorkInRun(c, ds, h, ts[..n]);
      var t := Offered(c, ds, mid.accepted, ts[n]);
      assert Serve(c, ds, h, ts).accepted <= |ds|
        && WorkLeft(ds, Serve(c, ds, h, ts)) + (if Served(mid.s, t) then 1 else 0) <= WorkLeft(ds, mid) by {
        RunCounts(c, ds, h, ts[..n]);
        RunCounts(c, ds, h, ts);
        WorkLeftDrops(c, ds, mid, t);
      }
    }
  }

  /** Any commands of 0 or at least 4 bytes, under any delays on any channel: at every moment
      the completions taken are those of the first k commands, in order, each once; whenever
      the engine is idle both memories are what the first k commands make of them, one after
      the other; and after enough cycles in which the party waited for answers, k is all. */
  lemma CommandsMoveTheirWords(c: Config, ds: seq<Command>, h: Host, ts: seq<Timing>)
    requires Starts(c, h) && CommandsOk(c, ds) && WholeWords(ds) && TimingsOk(c, ts)
    ensures var h', k := Serve(c, ds, h, ts), |Serve(c, ds, h, ts).reported|;
            && k <= |ds| && h'.reported == Tags(ds[..k]) && k <= h'.accepted <= k + 1
            && (h'.s.g.state.Idle? ==> MemoryOf(h'.s) == Effects(c, ds[..k], MemoryOf(h.s)))
            && (ServedCycles(c, ds, h, ts) >= Ahead(ds, 0) ==> k == |ds| && h'.s.g.state.Idle?)
  {
    ServesInOrder(c, ds, h, ts);
    WorkInRun(c, ds, h, ts);
    WorkIsSome(c, ds, MemoryOf(h.s), Serve(c, ds, h, ts));
  }

  lemma WorkIsSome(c: Config, ds: seq<Command>, m: Memory, h: Host)
    requires SysOk(c, h.s) && MemoryOk(c, m) && CommandsOk(c, ds) && Serving(c, ds, m, h)
    ensures h.accepted <= |ds| && (WorkLeft(ds, h) <= 0 ==> h.s.g.state.Idle? && h.accepted == |ds|)
  {
    HostCounts(c, ds, m, h);
    if !h.s.g.state.Idle? {
      WorkPositive(h.s.g);
    }
  }

  lemma Bounded(c: Config, d: Command, m: Memory, s: Sys)
    requires SysOk(c, s) && CommandOk(c, d) && MemoryOk(c, m) && AccountOf(c, d, m, s).Kept?
    ensures s.spmTxns <= d.nbytes / 4
  {
  }

  /** What `Serving` says of a single command. */
  lemma OneCommand(c: Config, d: Command, m: Memory, h: Host)
    requires SysOk(c, h.s) && CommandOk(c, d) && MemoryOk(c, m) && Serving(c, [d], m, h)
    ensures h.reported == [] || h.reported == [d.tag]
    ensures h.reported != [] ==> MemoryOf(h.s) == Effect(c, d, m) && Transactions([d], h.s)
    ensures h.s.spmTxns <= d.nbytes / 4
  {
    var k := |h.reported|;
    assert [d][..0] == [] && [d][..1] == [d];
    assert Effects(c, [d], m) == Effect(c, d, Effects(c, [], m));
    assert Tags([]) == [] && Tags([d]) == [d.tag];
    if !h.s.g.state.Idle? {
      Bounded(c, d, m, h.s);
    }
  }

  /** One command: when it has been reported exactly floor(nbytes / 4) words have moved; nothing
      else in either memory changed, including the DRAM bytes behind a partial last beat; and
      it took ceil(w / 4) DRAM and w scratchpad transactions. */
  lemma CommandMovesItsWords(c: Config, d: Command, h: Host, ts: seq<Timing>)
    requires Starts(c, h) && CommandOk(c, d) && TimingsOk(c, ts) && (d.nbytes == 0 || d.nbytes >= 4)
    ensures var h', w := Serve(c, [d], h, ts), d.nbytes / 4;
            && (ServedCycles(c, [d], h, ts) >= CommandWork(d) ==> h'.reported == [d.tag])
            && (h'.reported != [] ==>
                  && h'.s.dram == (if d.mvin then h.s.dram else DramAfter(h.s.dram, h.s.spm, d.dramAddr, d.spmAddr, w))
                  && h'.s.spm == (if d.mvin then SpmAfter(h.s.dram, h.s.spm, d.dramAddr, d.spmAddr, w) else h.s.spm)
                  && h'.s.spmTxns == w && h'.s.dramTxns == (w + 3) / 4)
            && h'.s.spmTxns <= w
  {
    var h' := Serve(c, [d], h, ts);
    assert ServedCycles(c, [d], h, ts) >= CommandWork(d) ==> |h'.reported| == 1 by {
      assert Ahead([d], 0) == CommandWork(d) + Ahead([d], 1);
      CommandsMoveTheirWords(c, [d], h, ts);
    }
    ServesInOrder(c, [d], h, ts);
    OneCommand(c, d, MemoryOf(h.s), h');
  }

  /** DRAM with w words of dram0 from D1 on copied to D2. */
  ghost predicate Copied(dram0: seq<Byte>, dram: seq<Byte>, D1: nat, D2: nat, w: nat)
    requires |dram0| == |dram| && D1 < |dram0| && D2 < |dram0|
  {
    forall x :: 0 <= x < |dram| ==>
      dram[x] == var o := Offset(x, D2, |dram|); if o < 4 * w then dram0[Wrap(D1 + o, |dram|)] else dram0[x]
  }

  /** Data moved in and out again arrives unchanged at its new place, and nothing else in DRAM
      has changed. */
  lemma RoundTrip(c: Config, d1: Command, d2: Command, h: Host, ts: seq<Timing>)
    requires Starts(c, h) && CommandsOk(c, [d1, d2]) && WholeWords([d1, d2]) && TimingsOk(c, ts)
    requires d1.mvin && !d2.mvin && d1.spmAddr == d2.spmAddr && d1.nbytes == d2.nbytes
    requires ServedCycles(c, [d1, d2], h, ts) >= CommandWork(d1) + CommandWork(d2)
    ensures CommandOk(c, d1) && CommandOk(c, d2)
    ensures var h' := Serve(c, [d1, d2], h, ts);
            h'.reported == [d1.tag, d2.tag] && Copied(h.s.dram, h'.s.dram, d1.dramAddr, d2.dramAddr, d1.nbytes / 4)
  {
    BothMoved(c, d1, d2, h, ts);
    CopiedBack(c, d1, d2, MemoryOf(h.s));
  }

  lemma CopiedBack(c: Config, d1: Command, d2: Command, m: Memory)
    requires MemoryOk(c, m) && CommandOk(c, d1) && CommandOk(c, d2)
    requires d1.mvin && !d2.mvin && d1.spmAddr == d2.spmAddr && d1.nbytes == d2.nbytes
    ensures Copied(m.dram, Effect(c, d2, Effect(c, d1, m)).dram, d1.dramAddr, d2.dramAddr, d1.nbytes / 4)
  {
    forall x | 0 <= x < c.dramSize
      ensures Effect(c, d2, Effect(c, d1, m)).dram[x]
        == var o := Offset(x, d2.dramAddr, c.dramSize);
           if o < 4 * (d1.nbytes / 4) then m.dram[Wrap(d1.dramAddr + o, c.dramSize)] else m.dram[x]
    {
      RoundTripByte(c, m.dram, m.spm, d1.dramAddr, d2.dramAddr, d1.spmAddr, d1.nbytes / 4, x);
    }
  }

  lemma BothMoved(c: Config, d1: Command, d2: Command, h: Host, ts: seq<Timing>)
    requires Starts(c, h) && CommandsOk(c, [d1, d2]) && WholeWords([d1, d2]) && TimingsOk(c, ts)
    requires ServedCycles(c, [d1, d2], h, ts) >= CommandWork(d1) + CommandWork(d2)
    ensures CommandOk(c, d1) && CommandOk(c, d2)
    ensures var h' := Serve(c, [d1, d2], h, ts);
            h'.reported == [d1.tag, d2.tag] && MemoryOf(h'.s) == Effect(c, d2, Effect(c, d1, MemoryOf(h.s)))
  {
    TwoCommands(c, d1, d2);
    TwoEffects(c, d1, d2, MemoryOf(h.s));
    CommandsMoveTheirWords(c, [d1, d2], h, ts);
  }

  lemma TwoCommands(c: Config, d1: Command, d2: Command)
    requires CommandsOk(c, [d1, d2])
    ensures CommandOk(c, d1) && CommandOk(c, d2) && [d1, d2][..2] == [d1, d2] && Tags([d1, d2]) == [d1.tag, d2.tag]
    ensures Ahead([d1, d2], 0) == CommandWork(d1) + CommandWork(d2)
  {
    var ds := [d1, d2];
    assert ds[0] == d1 && ds[1] == d2;
    assert Ahead(ds, 1) == CommandWork(d2) + Ahead(ds, 2);
  }

  lemma TwoEffects(c: Config, d1: Command, d2: Command, m: Memory)
    requires MemoryOk(c, m) && CommandOk(c, d1) && CommandOk(c, d2)
    ensures CommandsOk(c, [d1, d2]) && Effects(c, [d1, d2], m) == Effect(c, d2, Effect(c, d1, m))
  {
    assert [d1, d2][..1] == [d1] && [d1][..0] == [];
    assert Effects(c, [d1], m) == Effect(c, d1, Effects(c, [], m));
  }

  lemma RoundTripByte(c: Config, dram: seq<Byte>, spm: seq<Word>, D1: nat, D2: nat, S: nat, w: nat, x: nat)
    requires ConfigOk(c) && |dram| == c.dramSize && |spm| == c.spmSize
    requires D1 < c.dramSize && D2 < c.dramSize && S < c.spmSize && x < c.dramSize
    requires w <= c.spmSize && 4 * w <= c.dramSize
    ensures DramAfter(dram, SpmAfter(dram, spm, D1, S, w), D2, S, w)[x]
            == var o := Offset(x, D2, c.dramSize); if o < 4 * w then dram[Wrap(D1 + o, c.dramSize)] else dram[x]
  {
    var o := Offset(x, D2, c.dramSize);
    if o < 4 * w {
      var a := Wrap(S + o / 4, c.spmSize);
      assert Offset(a, S, c.spmSize) == o / 4;
      assert SpmAfter(dram, spm, D1, S, w)[a] == DramWord(dram, Wrap(D1 + 4 * (o / 4), c.dramSize));
      WrapTwice(D1, o, c.dramSize);
    }
  }

  /** Byte o is byte o % 4 of word o / 4. */
  lemma WrapTwice(D: nat, o: nat, n: nat)
    requires D < n && o < n && n >= 4
    ensures Wrap(Wrap(D + 4 * (o / 4), n) + o % 4, n) == Wrap(D + o, n)
  {
    assert o == 4 * (o / 4) + o % 4;
  }

  // ---- byte counts 1, 2 and 3 ----

  /** Every party answers at once. */
  predicate Prompt(t: Timing) {
    && t.cmdVal && t.rdReqRdy && t.rdRespVal && t.wrReqRdy && t.wrRespVal && t.spmWrRdy && t.spmRdRdy
    && t.spmRespVal
  }

  /** A prompt cycle under one command, accepted before: the engine goes on to state st. */
  lemma Prompts(c: Config, d: Command, h: Host, ts: seq<Timing>, t: Timing, mid: Host) returns (next: Host)
    requires SysOk(c, h.s) && CommandOk(c, d) && TimingsOk(c, ts) && CommandOk(c, t.cmd) && Prompt(t)
    requires Serve(c, [d], h, ts) == mid && mid.accepted == 1 && mid.s.g.left == mid.s.g.idx == mid.s.spmTxns == 0
    requires mid.s.g.state.InReq? || mid.s.g.state.InResp? || mid.s.g.state.OutRead?
    ensures TimingsOk(c, ts + [t]) && Serve(c, [d], h, ts + [t]) == next
    ensures SysOk(c, next.s) && next.accepted == 1 && next.s.g.left == next.s.g.idx == 0
    ensures next.s.dram == mid.s.dram && next.s.g.spmAddr == mid.s.g.spmAddr
    ensures match mid.s.g.state
            case InReq => next.s.g.state.InResp? && next.s.rd == Asked(mid.s.g.dramAddr) && next.s.spmTxns == 0
            case InResp => && next.s.g.state.InWrite? && next.s.spmTxns == 0
                           && next.s.g.beat == BeatAt(mid.s.dram, mid.s.rd.addr)
            case _ => next.s.g.state.OutResp? && next.s.spmTxns == 1
  {
    ServeNext(c, [d], h, ts, t);
    next := HostCycle(c, mid, t.(cmdVal := false));
  }

  lemma PromptStart(c: Config, d: Command, h: Host, t: Timing) returns (next: Host)
    requires Starts(c, h) && CommandOk(c, d) && CommandOk(c, t.cmd) && Prompt(t) && 1 <= d.nbytes <= 3
    ensures TimingsOk(c, [t]) && Serve(c, [d], h, [t]) == next
    ensures SysOk(c, next.s) && next.accepted == 1 && next.s.g.left == next.s.g.idx == next.s.spmTxns == 0
    ensures next.s.dram == h.s.dram && next.s.g.dramAddr == d.dramAddr && next.s.g.spmAddr == d.spmAddr
    ensures if d.mvin then next.s.g.state.InReq? else next.s.g.state.OutRead?
  {
    next := HostCycle(c, h, t.(cmd := d));
    assert TimingsOk(c, [t]) && Serve(c, [d], h, [t]) == next by {
      ServeNext(c, [d], h, [], t);
      assert [] + [t] == [t];
    }
    IdleStep(c, h.s, t.(cmd := d));
    ShortAccepted(c, d, h.s, t.(cmd := d));
  }

  lemma ShortAccepted(c: Config, d: Command, s: Sys, t: Timing)
    requires SysOk(c, s) && CommandOk(c, d) && s.g.state.Idle? && t.cmdVal && t.cmd == d && 1 <= d.nbytes <= 3
    ensures var s' := Cycle(c, s, t);
            && s'.g.left == s'.g.idx == s'.spmTxns == 0 && s'.g.dramAddr == d.dramAddr && s'.g.spmAddr == d.spmAddr
            && s'.dram == s.dram && if d.mvin then s'.g.state.InReq? else s'.g.state.OutRead?
  {
  }

  /** The word that should not move: stored, or read. */
  lemma PromptEnd(c: Config, d: Command, h: Host, ts: seq<Timing>, t: Timing, mid: Host) returns (s: Sys)
    requires SysOk(c, h.s) && CommandOk(c, d) && TimingsOk(c, ts) && CommandOk(c, t.cmd) && Prompt(t)
    requires Serve(c, [d], h, ts) == mid && mid.accepted == 1 && mid.s.g.left == mid.s.g.idx == 0
    requires if mid.s.g.state.InWrite? then mid.s.spmTxns == 0 else mid.s.g.state.OutResp? && mid.s.spmTxns == 1
    ensures TimingsOk(c, ts + [t]) && Serve(c, [d], h, ts + [t]).s == s && SysOk(c, s)
    ensures s.g.left == c.byteMod - 1 && !s.g.state.Done? && s.spmTxns == 1
    ensures mid.s.g.state.InWrite? ==> s.spm[mid.s.g.spmAddr] == mid.s.g.beat[0]
  {
    s := Cycle(c, mid.s, t.(cmdVal := false));
    assert TimingsOk(c, ts + [t]) && Serve(c, [d], h, ts + [t]).s == s by {
      ServeNext(c, [d], h, ts, t);
    }
    Overruns(c, mid.s, t.(cmdVal := false));
  }

  lemma Overruns(c: Config, s: Sys, t: Timing)
    requires SysOk(c, s) && CommandOk(c, t.cmd) && s.g.left == s.g.idx == 0
    requires if s.g.state.InWrite? then t.spmWrRdy && s.spmTxns == 0
             else s.g.state.OutResp? && t.spmRespVal && s.spmTxns == 1
    ensures var s' := Cycle(c, s, t);
            && s'.g.left == c.byteMod - 1 && !s'.g.state.Done? && s'.spmTxns == 1
            && (s.g.state.InWrite? ==> s'.spm[s.g.spmAddr] == s.g.beat[0])
  {
  }

  /** They are no words, yet the engine does not finish: its word count starts at zero,
      the first word moves anyway, and the count wraps. */
  lemma ShortCommandOverruns(c: Config, d: Command, h: Host, t: Timing)
    requires Starts(c, h) && CommandOk(c, d) && CommandOk(c, t.cmd) && Prompt(t) && 1 <= d.nbytes <= 3
    ensures var h' := Serve(c, [d], h, if d.mvin then [t, t, t, t] else [t, t, t]);
            && h'.s.g.left == c.byteMod - 1 && !h'.s.g.state.Done? && h'.s.spmTxns == 1
            && (d.mvin ==> h'.s.spm[d.spmAddr] == DramWord(h.s.dram, d.dramAddr))
  {
    assert [t] + [t] == [t, t] && [t, t] + [t] == [t, t, t] && [t, t, t] + [t] == [t, t, t, t];
    var h1 := PromptStart(c, d, h, t);
    var h2 := Prompts(c, d, h, [t], t, h1);
    if d.mvin {
      var h3 := Prompts(c, d, h, [t, t], t, h2);
      var s := PromptEnd(c, d, h, [t, t, t], t, h3);
    } else {
      var s := PromptEnd(c, d, h, [t, t], t, h2);
    }
  }

  lemma ServeNext(c: Config, ds: seq<Command>, h: Host, ts: seq<Timing>, t: Timing)
    requires SysOk(c, h.s) && CommandsOk(c, ds) && TimingsOk(c, ts) && CommandOk(c, t.cmd)
    ensures TimingsOk(c, ts + [t])
    ensures Serve(c, ds, h, ts + [t])
      == var h' := Serve(c, ds, h, ts); HostCycle(c, h', Offered(c, ds, h'.accepted, t))
  {
    assert (ts + [t])[..|ts|] == ts;
  }

  /** So a command never moves more than its whole words exactly when its byte count is
      0 or at least 4. */
  lemma NeverOverrunsExactly(c: Config, d: Command, h: Host)
    requires Starts(c, h) && CommandOk(c, d)
    ensures (forall ts :: TimingsOk(c, ts) ==> Serve(c, [d], h, ts).s.spmTxns <= d.nbytes / 4)
      <==> d.nbytes == 0 || d.nbytes >= 4
  {
    if d.nbytes == 0 || d.nbytes >= 4 {
      forall ts | TimingsOk(c, ts)
        ensures Serve(c, [d], h, ts).s.spmTxns <= d.nbytes / 4
      {
        CommandMovesItsWords(c, d, h, ts);
      }
    } else {
      var ts := Overrun(c, d, h);
    }
  }

  lemma Overrun(c: Config, d: Command, h: Host) returns (ts: seq<Timing>)
    requires Starts(c, h) && CommandOk(c, d) && 1 <= d.nbytes <= 3
    ensures TimingsOk(c, ts) && Serve(c, [d], h, ts).s.spmTxns == 1
  {
    var t := Timing(true, d, true, true, true, true, true, true, true, true);
    ts := if d.mvin then [t, t, t, t] else [t, t, t];
    assert forall k :: 0 <= k < |ts| ==> ts[k] == t;
    ShortCommandOverruns(c, d, h, t);
  }

  // ---- the register-level engine ----

  class DmaEngineRTL {
    const cfg: Config
    var state: State
    var mvin: bool
    var dramAddr: nat
    var spmAddr: nat
    var left: nat
    var tag: nat
    var beat: Beat
    var idx: nat
    var mask: Mask

    ghost function View(): Engine
      reads this
    {
      Engine(state, mvin, dramAddr, spmAddr, left, tag, beat, idx, mask)
    }

    constructor (cfg: Config)
      requires ConfigOk(cfg)
      ensures this.cfg == cfg && EngineOk(cfg, View()) && state == Idle
    {
      this.cfg := cfg;
      state, mvin, dramAddr, spmAddr, left, tag := Idle, true, 0, 0, 0, 0;
      beat, idx, mask := Zeros(), 0, LowBytes(0);
    }

    /** `comb_outputs`. */
    method Drive() returns (o: Output)
      requires EngineOk(cfg, View())
      ensures o == OutputOf(View())
    {
      var word := if idx == 0 then beat[0] else if idx == 1 then beat[1] else if idx == 2 then beat[2] else beat[3];
      o := Output(state == Idle, state == InReq, dramAddr, state == InResp,
                  state == OutWrite, dramAddr, beat, mask, state == OutWait,
                  state == InWrite, spmAddr, word, state == OutRead, spmAddr,
                  state == OutResp, state == Done, tag);
    }

    /** `seq_state`: one clock edge. */
    method Clock(i: Input) returns (o: Output)
      requires EngineOk(cfg, View()) && CommandOk(cfg, i.cmd)
      modifies this
      ensures View() == Next(cfg, old(View()), i) && o == OutputOf(old(View()))
    {
      o := Drive();
      match state {
        case Idle =>
          if i.cmdVal {
            mvin, dramAddr, spmAddr, tag := i.cmd.mvin, i.cmd.dramAddr, i.cmd.spmAddr, i.cmd.tag;
            left := i.cmd.nbytes / 4;
            beat, idx, mask := Zeros(), 0, LowBytes(0);
            state := if i.cmd.nbytes == 0 then Done else if i.cmd.mvin then InReq else OutRead;
          }
        case InReq =>
          if i.rdReqRdy {
            dramAddr := Wrap(dramAddr + 16, cfg.dramSize);
            state := InResp;
          }
        case InResp =>
          if i.rdRespVal {
            beat, idx := i.rdResp, 0;
            state := InWrite;
          }
        case InWrite =>
          if i.spmWrRdy {
            var last := left == 1;
            CountWord();
            if last {
              state := Done;
            } else if idx == 3 {
              idx := 0;
              state := InReq;
            } else {
              idx := idx + 1;
            }
          }
        case OutRead =>
          if i.spmRdRdy {
            state := OutResp;
          }
        case OutResp =>
          if i.spmRespVal {
            var last := left == 1;
            beat := beat[idx := i.spmResp];
            CountWord();
            if last {
              mask := LowBytes(4 * idx + 4);
              state := OutWrite;
            } else if idx == 3 {
              mask := LowBytes(16);
              state := OutWrite;
            } else {
              idx := idx + 1;
              state := OutRead;
            }
          }
        case OutWrite =>
          if i.wrReqRdy {
            state := OutWait;
          }
        case OutWait =>
          if i.wrRespVal {
            dramAddr := Wrap(dramAddr + 16, cfg.dramSize);
            beat, idx, mask := Zeros(), 0, LowBytes(0);
            state := if left == 0 then Done else OutRead;
          }
        case Done =>
          if i.doneRdy {
            state := Idle;
          }
      }
    }

    /** One word crossed the scratchpad port. */
    method CountWord()
      requires EngineOk(cfg, View())
      modifies this`spmAddr, this`left
      ensures spmAddr == Wrap(old(spmAddr) + 1, cfg.spmSize)
      ensures left == if old(left) == 0 then cfg.byteMod - 1 else old(left) - 1
    {
      spmAddr := Wrap(spmAddr + 1, cfg.spmSize);
      left := if left == 0 then cfg.byteMod - 1 else left - 1;
    }
  }
}
