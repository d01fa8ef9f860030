/** The im2col engine (fu/others/Im2colEngineRTL.py): a four-deep counter nest that
    streams the (kH * kW) x (Hout * Wout) column matrix of an image, one store packet
    per element.  All registers have the width of a scratchpad address, so every sum
    and product is taken modulo `addrMod`. */
module Im2col {
  import opened Arith

  datatype State = Idle | Read | Emit | Done

  datatype Param = H | W | KH | KW | Log2Stride | Base

  datatype Command = Set(param: Param, value: nat) | Launch

  datatype Option<T> = None | Some(value: T)

  /** Position in the nest: kernel row and column, output row and column. */
  datatype Pos = Pos(ky: nat, kx: nat, oy: nat, ox: nat)

  /** Latched configuration; Hout and Wout are computed at launch. */
  datatype Config = Config(H: nat, W: nat, kH: nat, kW: nat, log2Stride: nat, base: nat, hOut: nat, wOut: nat)

  datatype Packet = Packet(addr: nat, data: int)

  datatype Engine = Engine(state: State, cfg: Config, pos: Pos, emitIdx: nat, data: int)

  /** addrMod and dstMod are the ranges of scratchpad and shared-memory addresses. */
  datatype Widths = Widths(addrMod: nat, dstMod: nat)

  /** What a cycle brings: a command offered, a completed scratchpad read, a ready output. */
  datatype Input = Input(cmd: Option<Command>, memGo: bool, sendRdy: bool)

  /** What the engine drives: the command side's ready, the scratchpad read, the packet on
      offer, and the completion. */
  datatype Output = Output(cmdRdy: bool, raddr: Option<nat>, send: Option<Packet>, done: bool)

  predicate WidthsOk(z: Widths) {
    z.addrMod > 0 && z.dstMod > 0
  }

  function Pow2(n: nat): (p: nat)
    ensures p >= 1
  {
    if n == 0 then 1 else 2 * Pow2(n - 1)
  }

  // ---- combinational address path ----

  /** One coordinate: window position times stride, plus kernel offset. */
  function Coord(n: nat, o: nat, s: nat, d: nat): (r: nat)
    requires n > 0
    ensures r < n
  {
    (o * s % n + d) % n
  }

  function InAddr(z: Widths, c: Config, p: Pos): (a: nat)
    requires WidthsOk(z)
    ensures a < z.addrMod
  {
    var s := Pow2(c.log2Stride);
    (Coord(z.addrMod, p.oy, s, p.ky) * c.W + Coord(z.addrMod, p.ox, s, p.kx)) % z.addrMod
  }

  function Load(mem: seq<int>, a: nat): int {
    if a < |mem| then mem[a] else 0
  }

  function OutSize(z: Widths, size: nat, k: nat, log2Stride: nat): nat
    requires WidthsOk(z)
  {
    ((size - k) % z.addrMod / Pow2(log2Stride) + 1) % z.addrMod
  }

  // ---- clock edge ----

  function Latch(z: Widths, c: Config, p: Param, v: nat): Config
    requires WidthsOk(z)
  {
    match p
    case H => c.(H := v % z.addrMod)
    case W => c.(W := v % z.addrMod)
    case KH => c.(kH := v % z.addrMod)
    case KW => c.(kW := v % z.addrMod)
    case Log2Stride => c.(log2Stride := v % z.addrMod)
    case Base => c.(base := v % z.dstMod)
  }

  predicate Last(z: Widths, c: Config, p: Pos)
    requires WidthsOk(z)
  {
    && (p.ox + 1) % z.addrMod >= c.wOut && (p.oy + 1) % z.addrMod >= c.hOut
    && (p.kx + 1) % z.addrMod >= c.kW && (p.ky + 1) % z.addrMod >= c.kH
  }

  function Advance(z: Widths, c: Config, p: Pos): Pos
    requires WidthsOk(z)
  {
    if (p.ox + 1) % z.addrMod < c.wOut then p.(ox := (p.ox + 1) % z.addrMod)
    else if (p.oy + 1) % z.addrMod < c.hOut then p.(ox := 0, oy := (p.oy + 1) % z.addrMod)
    else if (p.kx + 1) % z.addrMod < c.kW then p.(ox := 0, oy := 0, kx := (p.kx + 1) % z.addrMod)
    else if (p.ky + 1) % z.addrMod < c.kH then Pos((p.ky + 1) % z.addrMod, 0, 0, 0)
    else p
  }

  function Wires(z: Widths, g: Engine): Output
    requires WidthsOk(z)
  {
    Output(g.state.Idle?, if g.state.Read? then Some(InAddr(z, g.cfg, g.pos)) else None,
           if g.state.Emit? then Some(Packet((g.cfg.base + g.emitIdx) % z.dstMod, g.data)) else None, g.state.Done?)
  }

  function Next(z: Widths, mem: seq<int>, g: Engine, i: Input): Engine
    requires WidthsOk(z)
  {
    match g.state
    case Idle =>
      (match i.cmd
       case None => g
       case Some(Set(p, v)) => g.(cfg := Latch(z, g.cfg, p, v))
       case Some(Launch) =>
         g.(state := Read, pos := Pos(0, 0, 0, 0), emitIdx := 0,
            cfg := g.cfg.(hOut := OutSize(z, g.cfg.H, g.cfg.kH, g.cfg.log2Stride),
                          wOut := OutSize(z, g.cfg.W, g.cfg.kW, g.cfg.log2Stride))))
    case Read =>
      if !i.memGo then g else g.(data := Load(mem, InAddr(z, g.cfg, g.pos)), state := Emit)
    case Emit =>
      if !i.sendRdy then g
      else g.(pos := Advance(z, g.cfg, g.pos), emitIdx := (g.emitIdx + 1) % z.dstMod,
              state := if Last(z, g.cfg, g.pos) then Done else Read)
    case Done => g
  }

  /** The packet taken from the output in a cycle. */
  function Sent(o: Output, i: Input): seq<Packet> {
    if o.send.Some? && i.sendRdy then [o.send.value] else []
  }

  // ---- the geometry the engine is for ----

  /** A kernel no larger than the image, and an image that fits the scratchpad. */
  predicate Geometry(z: Widths, mem: seq<int>, c: Config) {
    && WidthsOk(z) && |mem| <= z.addrMod
    && 1 <= c.kH <= c.H < z.addrMod && 1 <= c.kW <= c.W < z.addrMod && c.H * c.W <= |mem|
  }

  /** The output sizes the engine should compute. */
  predicate Sized(c: Config) {
    && c.kH <= c.H && c.kW <= c.W
    && c.hOut == (c.H - c.kH) / Pow2(c.log2Stride) + 1 && c.wOut == (c.W - c.kW) / Pow2(c.log2Stride) + 1
  }

  predicate InNest(c: Config, p: Pos) {
    p.ky < c.kH && p.kx < c.kW && p.oy < c.hOut && p.ox < c.wOut
  }

  function PixelRow(c: Config, p: Pos): nat {
    p.oy * Pow2(c.log2Stride) + p.ky
  }

  function PixelCol(c: Config, p: Pos): nat {
    p.ox * Pow2(c.log2Stride) + p.kx
  }

  /** The pixel under kernel element (ky, kx) when the window is at output (oy, ox). */
  function Pixel(c: Config, p: Pos): nat {
    PixelRow(c, p) * c.W + PixelCol(c, p)
  }

  lemma Fits(x: nat, n: nat)
    requires x < n
    ensures x % n == x
  {
    DivModUnique(x, n, 0, x);
  }

  lemma DivBound(x: nat, s: nat)
    requires s >= 1
    ensures x / s * s <= x && 0 <= x / s <= x
  {
    assert x == s * (x / s) + x % s;
    MulMono(1, s, x / s);
  }

  lemma OutSizeExact(z: Widths, size: nat, k: nat, l: nat)
    requires WidthsOk(z) && 1 <= k <= size < z.addrMod
    ensures 1 <= OutSize(z, size, k, l) == (size - k) / Pow2(l) + 1 <= size
  {
    var q := (size - k) / Pow2(l);
    Fits(size - k, z.addrMod);
    DivBound(size - k, Pow2(l));
    Fits(q + 1, z.addrMod);
  }

  /** One axis: a window position plus a kernel offset stays inside the image. */
  lemma InsideAxis(n: nat, size: nat, k: nat, s: nat, o: nat, d: nat)
    requires 1 <= k <= size < n && s >= 1 && o < (size - k) / s + 1 && d < k
    ensures o * s + d < size && Coord(n, o, s, d) == o * s + d
  {
    MulMono(o, (size - k) / s, s);
    DivBound(size - k, s);
    assert 0 <= o * s;
    Fits(o * s, n);
    Fits(o * s + d, n);
  }

  lemma RowMajor(row: nat, col: nat, h: nat, w: nat)
    requires row < h && col < w
    ensures row * w + col < h * w
  {
    MulMono(row + 1, h, w);
  }

  /** No intermediate value overflows its register and the read is inside the image. */
  lemma AddressExact(z: Widths, mem: seq<int>, c: Config, p: Pos)
    requires Geometry(z, mem, c) && Sized(c) && InNest(c, p)
    ensures PixelRow(c, p) < c.H && PixelCol(c, p) < c.W
    ensures InAddr(z, c, p) == Pixel(c, p) < c.H * c.W
  {
    InsideAxis(z.addrMod, c.H, c.kH, Pow2(c.log2Stride), p.oy, p.ky);
    InsideAxis(z.addrMod, c.W, c.kW, Pow2(c.log2Stride), p.ox, p.kx);
    var row, col := PixelRow(c, p), PixelCol(c, p);
    RowMajor(row, col, c.H, c.W);
    Fits(row * c.W + col, z.addrMod);
  }

  // ---- the nest counts through the flat index ----

  function Flat(c: Config, p: Pos): nat {
    ((p.ky * c.kW + p.kx) * c.hOut + p.oy) * c.wOut + p.ox
  }

  function Total(c: Config): nat {
    c.kH * c.kW * c.hOut * c.wOut
  }

  /** A two-level counter whose low digit is at its end counts on by one when the high
      digit moves and the low one restarts. */
  lemma Carry(hi: nat, lo: nat, n: nat)
    requires lo + 1 == n
    ensures (hi + 1) * n == hi * n + lo + 1
  {
  }

  lemma CountOy(c: Config, p: Pos)
    requires p.ox + 1 == c.wOut
    ensures Flat(c, p.(ox := 0, oy := p.oy + 1)) == Flat(c, p) + 1
  {
    Carry((p.ky * c.kW + p.kx) * c.hOut + p.oy, p.ox, c.wOut);
  }

  lemma CountKx(c: Config, p: Pos)
    requires p.ox + 1 == c.wOut && p.oy + 1 == c.hOut
    ensures Flat(c, p.(ox := 0, oy := 0, kx := p.kx + 1)) == Flat(c, p) + 1
  {
    CountOy(c, p);
    Carry(p.ky * c.kW + p.kx, p.oy, c.hOut);
    SameFlat(c, p.(ox := 0, oy := p.oy + 1), p.(ox := 0, oy := 0, kx := p.kx + 1));
  }

  lemma CountKy(c: Config, p: Pos)
    requires p.ox + 1 == c.wOut && p.oy + 1 == c.hOut && p.kx + 1 == c.kW
    ensures Flat(c, Pos(p.ky + 1, 0, 0, 0)) == Flat(c, p) + 1
  {
    CountKx(c, p);
    Carry(p.ky, p.kx, c.kW);
    assert (p.ky + 1) * c.kW + 0 == p.ky * c.kW + (p.kx + 1);
  }

  /** Positions on the same row of the column matrix's flat order. */
  lemma SameFlat(c: Config, p: Pos, q: Pos)
    requires p.ox == q.ox
    requires (p.ky * c.kW + p.kx) * c.hOut + p.oy == (q.ky * c.kW + q.kx) * c.hOut + q.oy
    ensures Flat(c, p) == Flat(c, q)
  {
  }

  lemma CountEnd(c: Config, p: Pos)
    requires p.ox + 1 == c.wOut && p.oy + 1 == c.hOut && p.kx + 1 == c.kW && p.ky + 1 == c.kH
    ensures Flat(c, p) + 1 == Total(c)
  {
    CountKy(c, p);
  }

  lemma AdvanceCounts(z: Widths, mem: seq<int>, c: Config, p: Pos)
    requires Geometry(z, mem, c) && Sized(c) && InNest(c, p)
    requires c.hOut <= c.H && c.wOut <= c.W
    ensures !Last(z, c, p) ==> InNest(c, Advance(z, c, p)) && Flat(c, Advance(z, c, p)) == Flat(c, p) + 1
    ensures Last(z, c, p) ==> Flat(c, p) + 1 == Total(c)
  {
    Fits(p.ox + 1, z.addrMod);
    Fits(p.oy + 1, z.addrMod);
    Fits(p.kx + 1, z.addrMod);
    Fits(p.ky + 1, z.addrMod);
    if p.ox + 1 == c.wOut {
      if p.oy + 1 < c.hOut {
        CountOy(c, p);
      } else if p.kx + 1 < c.kW {
        CountKx(c, p);
      } else if p.ky + 1 < c.kH {
        CountKy(c, p);
      } else {
        CountEnd(c, p);
      }
    }
  }

  lemma MixInjective(n: nat, hi: nat, lo: nat, hi': nat, lo': nat)
    requires lo < n && lo' < n && hi * n + lo == hi' * n + lo'
    ensures hi == hi' && lo == lo'
  {
    DivModUnique(hi * n + lo, n, hi, lo);
    DivModUnique(hi * n + lo, n, hi', lo');
  }

  lemma MixThrice(k: nat, h: nat, w: nat, p: Pos, q: Pos, kp: nat, kq: nat, hp: nat, hq: nat)
    requires p.kx < k && q.kx < k && p.oy < h && q.oy < h && p.ox < w && q.ox < w
    requires kp == p.ky * k + p.kx && kq == q.ky * k + q.kx
    requires hp == kp * h + p.oy && hq == kq * h + q.oy && hp * w + p.ox == hq * w + q.ox
    ensures p == q
  {
    MixInjective(w, hp, p.ox, hq, q.ox);
    MixInjective(h, kp, p.oy, kq, q.oy);
    MixInjective(k, p.ky, p.kx, q.ky, q.kx);
  }

  lemma FlatInjective(c: Config, p: Pos, q: Pos)
    requires InNest(c, p) && InNest(c, q) && Flat(c, p) == Flat(c, q)
    ensures p == q
  {
    var kp, kq := p.ky * c.kW + p.kx, q.ky * c.kW + q.kx;
    MixThrice(c.kW, c.hOut, c.wOut, p, q, kp, kq, kp * c.hOut + p.oy, kq * c.hOut + q.oy);
  }

  lemma FlatBound(c: Config, p: Pos)
    requires InNest(c, p)
    ensures Flat(c, p) < Total(c)
  {
    RowMajor(p.ky, p.kx, c.kH, c.kW);
    RowMajor(p.ky * c.kW + p.kx, p.oy, c.kH * c.kW, c.hOut);
    RowMajor((p.ky * c.kW + p.kx) * c.hOut + p.oy, p.ox, c.kH * c.kW * c.hOut, c.wOut);
  }

  // ---- whole runs ----

  /** The engine and every packet it has sent since launch. */
  datatype Sys = Sys(g: Engine, sent: seq<Packet>)

  function Cycle(z: Widths, mem: seq<int>, s: Sys, i: Input): Sys
    requires WidthsOk(z)
  {
    Sys(Next(z, mem, s.g, i), s.sent + Sent(Wires(z, s.g), i))
  }

  ghost function Exec(z: Widths, mem: seq<int>, s: Sys, ts: seq<Input>): Sys
    requires WidthsOk(z)
  {
    if ts == [] then s else Cycle(z, mem, Exec(z, mem, s, ts[..|ts| - 1]), ts[|ts| - 1])
  }

  /** The packet due at a position of the nest. */
  function Due(z: Widths, mem: seq<int>, c: Config, p: Pos): Packet
    requires Geometry(z, mem, c) && Sized(c) && InNest(c, p)
  {
    AddressExact(z, mem, c, p);
    Packet((c.base + Flat(c, p)) % z.dstMod, mem[Pixel(c, p)])
  }

  /** Packets so far are exactly the due ones below the current flat index. */
  ghost predicate Streamed(z: Widths, mem: seq<int>, c: Config, sent: seq<Packet>)
    requires Geometry(z, mem, c) && Sized(c)
  {
    forall p :: InNest(c, p) && Flat(c, p) < |sent| ==> sent[Flat(c, p)] == Due(z, mem, c, p)
  }

  ghost predicate Running(z: Widths, mem: seq<int>, c: Config, s: Sys)
    requires Geometry(z, mem, c) && Sized(c)
  {
    && s.g.cfg == c && !s.g.state.Idle? && Streamed(z, mem, c, s.sent)
    && (s.g.state.Done? ==> |s.sent| == Total(c))
    && (!s.g.state.Done? ==>
          InNest(c, s.g.pos) && |s.sent| == Flat(c, s.g.pos) && s.g.emitIdx == |s.sent| % z.dstMod)
    && (s.g.state.Emit? ==> s.g.data == Due(z, mem, c, s.g.pos).data)
  }

  lemma RunningStep(z: Widths, mem: seq<int>, c: Config, s: Sys, i: Input)
    requires Geometry(z, mem, c) && Sized(c) && c.hOut <= c.H && c.wOut <= c.W && Running(z, mem, c, s)
    ensures Running(z, mem, c, Cycle(z, mem, s, i))
  {
    var p := s.g.pos;
    if s.g.state.Read? {
      AddressExact(z, mem, c, p);
    } else if s.g.state.Emit? && i.sendRdy {
      AdvanceCounts(z, mem, c, p);
      ModSucc(|s.sent|, z.dstMod);
      Fits(|s.sent| % z.dstMod, z.dstMod);
      ModAdd(1, |s.sent|, z.dstMod);
      ModAdd(c.base, |s.sent|, z.dstMod);
      StreamGrows(z, mem, c, s.sent, p);
    }
  }

  lemma StreamGrows(z: Widths, mem: seq<int>, c: Config, sent: seq<Packet>, p: Pos)
    requires Geometry(z, mem, c) && Sized(c) && Streamed(z, mem, c, sent)
    requires InNest(c, p) && |sent| == Flat(c, p)
    ensures Streamed(z, mem, c, sent + [Due(z, mem, c, p)])
  {
    var sent' := sent + [Due(z, mem, c, p)];
    forall q | InNest(c, q) && Flat(c, q) < |sent'| ensures sent'[Flat(c, q)] == Due(z, mem, c, q) {
      if Flat(c, q) == Flat(c, p) {
        FlatInjective(c, p, q);
      }
    }
  }

  /** The configuration a launch computes from the latched one. */
  function Launched(z: Widths, c: Config): Config
    requires WidthsOk(z)
  {
    c.(hOut := OutSize(z, c.H, c.kH, c.log2Stride), wOut := OutSize(z, c.W, c.kW, c.log2Stride))
  }

  /** From a launch with a legal geometry, under any memory and output delays, the k-th
      packet goes to base + k and carries the pixel of the k-th nest position; when the
      engine is done every position has been sent exactly once, in order. */
  lemma {:induction false} StreamIsColumnMatrix(z: Widths, mem: seq<int>, g: Engine, i: Input, ts: seq<Input>)
    requires Geometry(z, mem, g.cfg) && g.state.Idle? && i.cmd == Some(Launch)
    ensures var c := Launched(z, g.cfg);
            Sized(c) && Running(z, mem, c, Exec(z, mem, Sys(Next(z, mem, g, i), []), ts))
  {
    LaunchRuns(z, mem, g, i);
    if ts != [] {
      StreamIsColumnMatrix(z, mem, g, i, ts[..|ts| - 1]);
      RunningStep(z, mem, Launched(z, g.cfg), Exec(z, mem, Sys(Next(z, mem, g, i), []), ts[..|ts| - 1]), ts[|ts| - 1]);
    }
  }

  lemma LaunchRuns(z: Widths, mem: seq<int>, g: Engine, i: Input)
    requires Geometry(z, mem, g.cfg) && g.state.Idle? && i.cmd == Some(Launch)
    ensures var c := Launched(z, g.cfg);
            Sized(c) && c.hOut <= c.H && c.wOut <= c.W && Running(z, mem, c, Sys(Next(z, mem, g, i), []))
  {
    LaunchSized(z, mem, g.cfg);
    FlatZero(Launched(z, g.cfg));
    Fits(0, z.dstMod);
  }

  lemma LaunchSized(z: Widths, mem: seq<int>, c: Config)
    requires Geometry(z, mem, c)
    ensures var c' := Launched(z, c);
            Sized(c') && 1 <= c'.hOut <= c'.H && 1 <= c'.wOut <= c'.W && Geometry(z, mem, c')
  {
    OutSizeExact(z, c.H, c.kH, c.log2Stride);
    OutSizeExact(z, c.W, c.kW, c.log2Stride);
  }

  lemma FlatZero(c: Config)
    ensures Flat(c, Pos(0, 0, 0, 0)) == 0
  {
  }

  /** Each handshake uses up work, so the stream ends. */
  function Work(c: Config, s: Sys): int {
    match s.g.state
    case Idle => 0
    case Read => 2 * (Total(c) - |s.sent|)
    case Emit => 2 * (Total(c) - |s.sent|) - 1
    case Done => 0
  }

  lemma WorkDrops(z: Widths, mem: seq<int>, c: Config, s: Sys, i: Input)
    requires Geometry(z, mem, c) && Sized(c) && Running(z, mem, c, s) && !s.g.state.Done?
    requires if s.g.state.Read? then i.memGo else i.sendRdy
    requires c.hOut <= c.H && c.wOut <= c.W
    ensures 0 <= Work(c, Cycle(z, mem, s, i)) < Work(c, s)
  {
    FlatBound(c, s.g.pos);
    RunningStep(z, mem, c, s, i);
    if s.g.state.Emit? {
      AdvanceCounts(z, mem, c, s.g.pos);
      if !Last(z, c, s.g.pos) {
        FlatBound(c, Advance(z, c, s.g.pos));
      }
    }
  }

  // ---- convolution through the column matrix ----

  /** Direct form: kernel row ky against the image, elements below n. */
  function RowSum(kern: seq<int>, mem: seq<int>, c: Config, p: Pos, n: nat): int {
    if n == 0 then 0
    else RowSum(kern, mem, c, p, n - 1) + At(kern, p.ky * c.kW + (n - 1)) * At(mem, Pixel(c, p.(kx := n - 1)))
  }

  /** Direct form: kernel rows below n. */
  function Direct(kern: seq<int>, mem: seq<int>, c: Config, oy: nat, ox: nat, n: nat): int {
    if n == 0 then 0
    else Direct(kern, mem, c, oy, ox, n - 1) + RowSum(kern, mem, c, Pos(n - 1, 0, oy, ox), c.kW)
  }

  /** Matrix form: the flattened kernel's first n entries times one matrix column. */
  function Column(kern: seq<int>, col: seq<Packet>, c: Config, oy: nat, ox: nat, n: nat): int {
    if n == 0 then 0
    else
      var k := n - 1;
      Column(kern, col, c, oy, ox, k) + At(kern, k) * DataAt(col, Entry(c, k, oy, ox))
  }

  /** Where row k of the matrix keeps the column of output (oy, ox). */
  function Entry(c: Config, k: nat, oy: nat, ox: nat): nat {
    k * (c.hOut * c.wOut) + (oy * c.wOut + ox)
  }

  /** The first matrix row of kernel row ky. */
  function RowStart(c: Config, ky: nat): nat {
    ky * c.kW
  }

  lemma RowStartStep(c: Config, ky: nat)
    ensures RowStart(c, ky + 1) == RowStart(c, ky) + c.kW
  {
  }

  function At(s: seq<int>, i: nat): int {
    if i < |s| then s[i] else 0
  }

  function DataAt(s: seq<Packet>, i: nat): int {
    if i < |s| then s[i].data else 0
  }

  /** Row k of the matrix, column oy * Wout + ox, is at the flat index of its position. */
  lemma FlatIsRowColumn(c: Config, p: Pos)
    ensures Flat(c, p) == Entry(c, RowStart(c, p.ky) + p.kx, p.oy, p.ox)
  {
    var k := p.ky * c.kW + p.kx;
    assert (k * c.hOut + p.oy) * c.wOut == k * c.hOut * c.wOut + p.oy * c.wOut;
    assert k * c.hOut * c.wOut == k * (c.hOut * c.wOut);
  }

  lemma {:induction false} ColumnRow(z: Widths, mem: seq<int>, kern: seq<int>, col: seq<Packet>, c: Config,
                                     p: Pos, first: nat, n: nat)
    requires Geometry(z, mem, c) && Sized(c) && Streamed(z, mem, c, col) && |col| == Total(c)
    requires p.ky < c.kH && p.oy < c.hOut && p.ox < c.wOut && n <= c.kW && first == RowStart(c, p.ky)
    ensures Column(kern, col, c, p.oy, p.ox, first + n)
            == Column(kern, col, c, p.oy, p.ox, first) + RowSum(kern, mem, c, p, n)
  {
    if n > 0 {
      ColumnRow(z, mem, kern, col, c, p, first, n - 1);
      ColumnEntry(z, mem, col, c, p.(kx := n - 1), first + (n - 1));
    }
  }

  /** The matrix entry in row k, at the column of p's output, is the pixel under p. */
  lemma ColumnEntry(z: Widths, mem: seq<int>, col: seq<Packet>, c: Config, p: Pos, k: nat)
    requires Geometry(z, mem, c) && Sized(c) && Streamed(z, mem, c, col) && |col| == Total(c)
    requires InNest(c, p) && k == RowStart(c, p.ky) + p.kx
    ensures DataAt(col, Entry(c, k, p.oy, p.ox)) == At(mem, Pixel(c, p))
  {
    FlatIsRowColumn(c, p);
    FlatBound(c, p);
    AddressExact(z, mem, c, p);
    assert col[Flat(c, p)] == Due(z, mem, c, p);
  }

  lemma {:induction false} ColumnRows(z: Widths, mem: seq<int>, kern: seq<int>, col: seq<Packet>, c: Config,
                                      oy: nat, ox: nat, n: nat)
    requires Geometry(z, mem, c) && Sized(c) && Streamed(z, mem, c, col) && |col| == Total(c)
    requires oy < c.hOut && ox < c.wOut && n <= c.kH
    ensures Column(kern, col, c, oy, ox, RowStart(c, n)) == Direct(kern, mem, c, oy, ox, n)
  {
    if n > 0 {
      ColumnRows(z, mem, kern, col, c, oy, ox, n - 1);
      ColumnRow(z, mem, kern, col, c, Pos(n - 1, 0, oy, ox), RowStart(c, n - 1), c.kW);
      RowStartStep(c, n - 1);
    }
  }

  /** The flattened kernel times the streamed matrix is the strided 2-D convolution, at
      every output position. */
  lemma PreservesConvolution(z: Widths, mem: seq<int>, g: Engine, i: Input, ts: seq<Input>, kern: seq<int>,
          oy: nat, ox: nat)
    requires Geometry(z, mem, g.cfg) && g.state.Idle? && i.cmd == Some(Launch)
    requires Exec(z, mem, Sys(Next(z, mem, g, i), []), ts).g.state.Done?
    requires oy < Launched(z, g.cfg).hOut && ox < Launched(z, g.cfg).wOut
    ensures var c := Launched(z, g.cfg);
            var sent := Exec(z, mem, Sys(Next(z, mem, g, i), []), ts).sent;
            Column(kern, sent, c, oy, ox, RowStart(c, c.kH)) == Direct(kern, mem, c, oy, ox, c.kH)
  {
    StreamIsColumnMatrix(z, mem, g, i, ts);
    ColumnRows(z, mem, kern, Exec(z, mem, Sys(Next(z, mem, g, i), []), ts).sent, Launched(z, g.cfg), oy, ox, g.cfg.kH);
  }

  // ---- from the configuration commands on ----

  /** The value of the last write of a parameter, or `d` when there is none. */
  ghost function Written(ts: seq<Input>, p: Param, d: nat): nat {
    if ts == [] then d
    else
      var cmd := ts[|ts| - 1].cmd;
      if cmd.Some? && cmd.value.Set? && cmd.value.param == p then cmd.value.value
      else Written(ts[..|ts| - 1], p, d)
  }

  ghost predicate Unlaunched(ts: seq<Input>) {
    forall k :: 0 <= k < |ts| ==> ts[k].cmd != Some(Launch)
  }

  /** An engine in which some commands left every parameter at its last written value. */
  ghost predicate Holds(z: Widths, a: Config, ts: seq<Input>, c: Config)
    requires WidthsOk(z)
  {
    && c.H == Written(ts, H, a.H) % z.addrMod && c.W == Written(ts, W, a.W) % z.addrMod
    && c.kH == Written(ts, KH, a.kH) % z.addrMod && c.kW == Written(ts, KW, a.kW) % z.addrMod
    && c.log2Stride == Written(ts, Log2Stride, a.log2Stride) % z.addrMod
    && c.base == Written(ts, Base, a.base) % z.dstMod
  }

  /** Registers hold values of their width. */
  predicate InWidth(z: Widths, c: Config)
    requires WidthsOk(z)
  {
    && c.H < z.addrMod && c.W < z.addrMod && c.kH < z.addrMod && c.kW < z.addrMod && c.log2Stride < z.addrMod
    && c.base < z.dstMod
  }

  lemma {:induction false} LastWriteHolds(z: Widths, mem: seq<int>, g: Engine, ts: seq<Input>)
    requires WidthsOk(z) && g.state.Idle? && InWidth(z, g.cfg) && Unlaunched(ts)
    ensures var s := Exec(z, mem, Sys(g, []), ts);
            s.g.state.Idle? && s.sent == [] && Holds(z, g.cfg, ts, s.g.cfg)
  {
    if ts == [] {
      InWidthFits(z, g.cfg);
    } else {
      var n := |ts| - 1;
      assert Unlaunched(ts[..n]);
      LastWriteHolds(z, mem, g, ts[..n]);
      WriteStep(z, mem, g.cfg, Exec(z, mem, Sys(g, []), ts[..n]), ts);
    }
  }

  lemma WriteStep(z: Widths, mem: seq<int>, a: Config, s: Sys, ts: seq<Input>)
    requires WidthsOk(z) && ts != [] && Unlaunched(ts) && s.g.state.Idle? && Holds(z, a, ts[..|ts| - 1], s.g.cfg)
    ensures var s' := Cycle(z, mem, s, ts[|ts| - 1]);
            s'.g.state.Idle? && s'.sent == s.sent && Holds(z, a, ts, s'.g.cfg)
  {
    var cmd := ts[|ts| - 1].cmd;
    assert cmd != Some(Launch);
    if cmd.Some? {
      assert cmd.value.Set?;
    }
  }

  lemma InWidthFits(z: Widths, c: Config)
    requires WidthsOk(z) && InWidth(z, c)
    ensures c.H % z.addrMod == c.H && c.W % z.addrMod == c.W && c.kH % z.addrMod == c.kH && c.kW % z.addrMod == c.kW
    ensures c.log2Stride % z.addrMod == c.log2Stride && c.base % z.dstMod == c.base
  {
    Fits(c.H, z.addrMod);
    Fits(c.W, z.addrMod);
    Fits(c.kH, z.addrMod);
    Fits(c.kW, z.addrMod);
    Fits(c.log2Stride, z.addrMod);
    Fits(c.base, z.dstMod);
  }

  lemma {:induction false} ExecAppends(z: Widths, mem: seq<int>, s: Sys, us: seq<Input>, ts: seq<Input>)
    requires WidthsOk(z)
    ensures Exec(z, mem, s, us + ts) == Exec(z, mem, Exec(z, mem, s, us), ts)
    decreases |ts|
  {
    if ts == [] {
      assert us + ts == us;
    } else {
      var n := |ts| - 1;
      assert (us + ts)[..|us| + n] == us + ts[..n] && (us + ts)[|us| + n] == ts[n];
      ExecAppends(z, mem, s, us, ts[..n]);
    }
  }

  /** What can be seen of the engine while it streams: the packets sent so far, and on its
      wires the read or the packet of the next position, or the completion after all of them. */
  ghost predicate Shows(z: Widths, mem: seq<int>, c: Config, s: Sys)
    requires Geometry(z, mem, c) && Sized(c)
  {
    var o := Wires(z, s.g);
    && Streamed(z, mem, c, s.sent) && !o.cmdRdy && (o.done <==> |s.sent| == Total(c))
    && (o.done ==> o.raddr.None? && o.send.None?)
    && (!o.done ==> exists p :: InNest(c, p) && Flat(c, p) == |s.sent| && ShowsPosition(z, mem, c, p, o))
  }

  ghost predicate ShowsPosition(z: Widths, mem: seq<int>, c: Config, p: Pos, o: Output)
    requires Geometry(z, mem, c) && Sized(c) && InNest(c, p)
  {
    || (o.raddr == Some(Pixel(c, p)) && o.send.None?)
    || (o.raddr.None? && o.send == Some(Due(z, mem, c, p)))
  }

  lemma RunningShows(z: Widths, mem: seq<int>, c: Config, s: Sys)
    requires Geometry(z, mem, c) && Sized(c) && Running(z, mem, c, s)
    ensures Shows(z, mem, c, s)
  {
    if !s.g.state.Done? {
      var p := s.g.pos;
      FlatBound(c, p);
      AddressExact(z, mem, c, p);
      ModAdd(c.base, |s.sent|, z.dstMod);
      assert ShowsPosition(z, mem, c, p, Wires(z, s.g));
    }
  }

  /** Every index of the stream belongs to one position. */
  lemma FlatReaches(c: Config, k: nat) returns (p: Pos)
    requires k < Total(c)
    ensures InNest(c, p) && Flat(c, p) == k
  {
    SplitIndex(k, c.kH * c.kW * c.hOut, c.wOut);
    var r := k / c.wOut;
    SplitIndex(r, c.kH * c.kW, c.hOut);
    var q := r / c.hOut;
    SplitIndex(q, c.kH, c.kW);
    p := Pos(q / c.kW, q % c.kW, r % c.hOut, k % c.wOut);
  }

  lemma SplitIndex(k: nat, m: nat, n: nat)
    requires k < m * n
    ensures n > 0 && k / n < m && k % n < n && k == k / n * n + k % n
  {
    var q := k / n;
    assert k == n * q + k % n;
    if q >= m { MulMono(m, q, n); }
  }

  /** The state the commands leave for the launch. */
  lemma CommandsConfigure(z: Widths, mem: seq<int>, g: Engine, us: seq<Input>, i: Input, ts: seq<Input>, c: Config)
    returns (g': Engine)
    requires Geometry(z, mem, c) && Sized(c)
    requires g.state.Idle? && InWidth(z, g.cfg) && Unlaunched(us) && Holds(z, g.cfg, us, c)
    ensures g'.state.Idle? && Geometry(z, mem, g'.cfg) && Launched(z, g'.cfg) == c
    ensures Exec(z, mem, Sys(g, []), us + [i] + ts) == Exec(z, mem, Sys(Next(z, mem, g', i), []), ts)
  {
    var s := Exec(z, mem, Sys(g, []), us);
    g' := s.g;
    LastWriteHolds(z, mem, g, us);
    SameLaunch(z, mem, g.cfg, us, s.g.cfg, c);
    assert Exec(z, mem, Sys(g, []), us + [i]) == Cycle(z, mem, s, i) == Sys(Next(z, mem, g', i), []) by {
      assert (us + [i])[..|us|] == us;
    }
    ExecAppends(z, mem, Sys(g, []), us + [i], ts);
  }

  lemma SameLaunch(z: Widths, mem: seq<int>, a: Config, us: seq<Input>, d: Config, c: Config)
    requires Geometry(z, mem, c) && Sized(c) && Holds(z, a, us, d) && Holds(z, a, us, c)
    ensures Geometry(z, mem, d) && Launched(z, d) == c
  {
    LaunchSized(z, mem, c);
  }

  /** The engine from its configuration commands on: whatever the order of the writes and
      however often a parameter is written, a launch streams the column matrix of the
      geometry the last writes describe. */
  lemma CommandsStream(z: Widths, mem: seq<int>, g: Engine, us: seq<Input>, i: Input, ts: seq<Input>, c: Config)
    requires Geometry(z, mem, c) && Sized(c)
    requires g.state.Idle? && InWidth(z, g.cfg) && Unlaunched(us) && Holds(z, g.cfg, us, c) && i.cmd == Some(Launch)
    ensures Shows(z, mem, c, Exec(z, mem, Sys(g, []), us + [i] + ts))
  {
    var g' := CommandsConfigure(z, mem, g, us, i, ts, c);
    StreamIsColumnMatrix(z, mem, g', i, ts);
    RunningShows(z, mem, c, Exec(z, mem, Sys(Next(z, mem, g', i), []), ts));
  }

  /** Cycles in which both neighbours are willing. */
  ghost function Willing(ts: seq<Input>): nat {
    if ts == [] then 0
    else Willing(ts[..|ts| - 1]) + if ts[|ts| - 1].memGo && ts[|ts| - 1].sendRdy then 1 else 0
  }

  lemma {:induction false} WorkIn(z: Widths, mem: seq<int>, c: Config, s: Sys, ts: seq<Input>)
    requires Geometry(z, mem, c) && Sized(c) && c.hOut <= c.H && c.wOut <= c.W && Running(z, mem, c, s)
    ensures Running(z, mem, c, Exec(z, mem, s, ts))
    ensures Exec(z, mem, s, ts).g.state.Done? || 0 < Work(c, Exec(z, mem, s, ts)) <= Work(c, s) - Willing(ts)
  {
    if ts == [] {
      if !s.g.state.Done? { FlatBound(c, s.g.pos); }
    } else {
      var n := |ts| - 1;
      WorkIn(z, mem, c, s, ts[..n]);
      RunningStep(z, mem, c, Exec(z, mem, s, ts[..n]), ts[n]);
      WorkStep(z, mem, c, Exec(z, mem, s, ts[..n]), ts[n]);
    }
  }

  lemma WorkStep(z: Widths, mem: seq<int>, c: Config, s: Sys, i: Input)
    requires Geometry(z, mem, c) && Sized(c) && Running(z, mem, c, s) && c.hOut <= c.H && c.wOut <= c.W
    ensures var s' := Cycle(z, mem, s, i);
            || s'.g.state.Done?
            || 0 < Work(c, s') <= Work(c, s) - if i.memGo && i.sendRdy then 1 else 0
  {
    if s.g.state.Done? {
    } else if if s.g.state.Read? then i.memGo else i.sendRdy {
      WorkDrops(z, mem, c, s, i);
      RunningStep(z, mem, c, s, i);
      if !Cycle(z, mem, s, i).g.state.Done? { FlatBound(c, Cycle(z, mem, s, i).g.pos); }
    } else {
      FlatBound(c, s.g.pos);
    }
  }

  /** Twice as many willing cycles as there are elements finish the stream; and then the
      flattened kernel times the streamed matrix is the strided 2-D convolution. */
  lemma CommandsConvolve(z: Widths, mem: seq<int>, g: Engine, us: seq<Input>, i: Input, ts: seq<Input>, c: Config,
                         kern: seq<int>, oy: nat, ox: nat)
    requires Geometry(z, mem, c) && Sized(c) && oy < c.hOut && ox < c.wOut
    requires g.state.Idle? && InWidth(z, g.cfg) && Unlaunched(us) && Holds(z, g.cfg, us, c) && i.cmd == Some(Launch)
    requires Willing(ts) >= 2 * Total(c)
    ensures var s := Exec(z, mem, Sys(g, []), us + [i] + ts);
            && Wires(z, s.g).done && |s.sent| == Total(c)
            && Column(kern, s.sent, c, oy, ox, c.kH * c.kW) == Direct(kern, mem, c, oy, ox, c.kH)
  {
    var g' := CommandsConfigure(z, mem, g, us, i, ts, c);
    LaunchRuns(z, mem, g', i);
    FlatZero(c);
    WorkIn(z, mem, c, Sys(Next(z, mem, g', i), []), ts);
    PreservesConvolution(z, mem, g', i, ts, kern, oy, ox);
  }

  // ---- the register-level engine ----

  class Im2colEngineRTL {
    const widths: Widths
    var state: State
    var cfg: Config
    var pos: Pos
    var emitIdx: nat
    var data: int

    ghost function View(): Engine
      reads this
    {
      Engine(state, cfg, pos, emitIdx, data)
    }

    constructor (widths: Widths)
      requires WidthsOk(widths)
      ensures this.widths == widths && state == Idle
    {
      this.widths := widths;
      state, cfg := Idle, Config(0, 0, 0, 0, 0, 0, 0, 0);
      pos, emitIdx, data := Pos(0, 0, 0, 0), 0, 0;
    }

    /** The wires of a cycle. */
    method Drive() returns (o: Output)
      requires WidthsOk(widths)
      ensures o == Wires(widths, View())
    {
      o := Output(state == Idle, None, None, false);
      if state == Read {
        o := o.(raddr := Some(InAddr(widths, cfg, pos)));
      }
      if state == Emit {
        o := o.(send := Some(Packet((cfg.base + emitIdx) % widths.dstMod, data)));
      }
      if state == Done {
        o := o.(done := true);
      }
    }

    /** One clock edge; `o` is what the engine drives in the cycle before it. */
    method Clock(mem: array<int>, i: Input) returns (o: Output)
      requires WidthsOk(widths)
      modifies this
      ensures View() == Next(widths, mem[..], old(View()), i)
      ensures o == Wires(widths, old(View()))
    {
      o := Drive();
      var n := widths.addrMod;
      match state {
        case Idle =>
          match i.cmd {
            case None =>
            case Some(Set(p, v)) =>
              match p {
                case H => cfg := cfg.(H := v % n);
                case W => cfg := cfg.(W := v % n);
                case KH => cfg := cfg.(kH := v % n);
                case KW => cfg := cfg.(kW := v % n);
                case Log2Stride => cfg := cfg.(log2Stride := v % n);
                case Base => cfg := cfg.(base := v % widths.dstMod);
              }
            case Some(Launch) =>
              cfg := cfg.(hOut := OutSize(widths, cfg.H, cfg.kH, cfg.log2Stride),
                          wOut := OutSize(widths, cfg.W, cfg.kW, cfg.log2Stride));
              state, pos, emitIdx := Read, Pos(0, 0, 0, 0), 0;
          }
        case Read =>
          if i.memGo {
            var a := InAddr(widths, cfg, pos);
            data := if a < mem.Length then mem[a] else 0;
            state := Emit;
          }
        case Emit =>
          if i.sendRdy {
            if (pos.ox + 1) % n < cfg.wOut {
              pos := pos.(ox := (pos.ox + 1) % n);
              state := Read;
            } else if (pos.oy + 1) % n < cfg.hOut {
              pos := pos.(ox := 0, oy := (pos.oy + 1) % n);
              state := Read;
            } else if (pos.kx + 1) % n < cfg.kW {
              pos := pos.(ox := 0, oy := 0, kx := (pos.kx + 1) % n);
              state := Read;
            } else if (pos.ky + 1) % n < cfg.kH {
              pos := Pos((pos.ky + 1) % n, 0, 0, 0);
              state := Read;
            } else {
              state := Done;
            }
            emitIdx := (emitIdx + 1) % widths.dstMod;
          }
        case Done =>
      }
    }
  }
}
