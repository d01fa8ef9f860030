/** The distributed scratchpad: an address is looked up in every controller's
    address-to-CGRA table (controller/ControllerRTL.py), routed to its owner, and split into
    bank and offset there (mem/data/DataMemControllerRTL.py, mem/data/DataMemWrapperRTL.py).

    `BuildTable` fills the table from the address map; `RefinesFlatMemory` says that, from
    any CGRA, the whole behaves as one flat memory; `OutsideNeverServed` says what happens to
    addresses beyond it. */
module BankedMemory {
  import Arith
  import Seqs

  /** The check `length & (length - 1) == 0`, for a positive length. */
  predicate PowerOfTwo(n: nat) {
    n == 1 || (n > 1 && n % 2 == 0 && PowerOfTwo(n / 2))
  }

  /** One entry of the address map; both ends are included. */
  datatype Range = Range(cgra: nat, begin: nat, end: nat)

  /** The lookup table; an address is shifted right by the last range's width, that is,
      divided by its length, to index it. */
  datatype Table = Table(lut: seq<int>, length: nat)

  datatype Result<+T> = Ok(value: T) | Raised

  /** Which of the slots of this length a range occupies. */
  function Base(r: Range, length: nat): nat
    requires length > 0
  {
    r.begin / length
  }

  /** One iteration of the construction: a length that is no power of two, an index beyond
      the table and an occupied entry all raise. */
  function Enter(t: Table, r: Range): Result<Table>
    requires r.begin <= r.end
  {
    var length := r.end - r.begin + 1;
    var base := Base(r, length);
    if !PowerOfTwo(length) || base >= |t.lut| || t.lut[base] != -1 then Raised
    else Ok(Table(t.lut[base := r.cgra], length))
  }

  predicate RangesOk(rs: seq<Range>) {
    forall i :: 0 <= i < |rs| ==> rs[i].begin <= rs[i].end
  }

  function Fill(n: nat, rs: seq<Range>): Result<Table>
    requires RangesOk(rs)
  {
    if rs == [] then Ok(Table(seq(n, _ => -1), 1))
    else
      match Fill(n, rs[..|rs| - 1])
      case Raised => Raised
      case Ok(t) => Enter(t, rs[|rs| - 1])
  }

  /** The construction loop; false is an assertion or index failure. */
  method BuildTable(rs: seq<Range>) returns (ok: bool, lut: seq<int>, last: nat)
    requires RangesOk(rs)
    ensures ok <==> Fill(|rs|, rs).Ok?
    ensures ok ==> Fill(|rs|, rs) == Ok(Table(lut, last))
  {
    lut, last := seq(|rs|, _ => -1), 1;
    for i := 0 to |rs|
      invariant Fill(|rs|, rs[..i]) == Ok(Table(lut, last))
    {
      assert rs[..i + 1][..i] == rs[..i];
      var length := rs[i].end - rs[i].begin + 1;
      var base := Base(rs[i], length);
      if !PowerOfTwo(length) || base >= |lut| || lut[base] != -1 {
        FillRaises(|rs|, rs, i + 1);
        return false, lut, last;
      }
      last := length;
      lut := lut[base := rs[i].cgra];
    }
    assert rs[..|rs|] == rs;
    ok := true;
  }

  lemma {:induction false} FillRaises(n: nat, rs: seq<Range>, i: nat)
    requires RangesOk(rs) && i <= |rs| && Fill(n, rs[..i]).Raised?
    ensures Fill(n, rs).Raised?
    decreases |rs|
  {
    if i == |rs| {
      assert rs[..i] == rs;
    } else {
      assert rs[..|rs| - 1][..i] == rs[..i];
      FillRaises(n, rs[..|rs| - 1], i);
    }
  }

  // ---- which maps are accepted ----

  function Power(k: nat): (p: nat)
    ensures p > 0
  {
    if k == 0 then 1 else 2 * Power(k - 1)
  }

  lemma PowerParity(k: nat)
    ensures if k == 0 then Power(k) == 1 else Power(k) == 2 * Power(k - 1)
    ensures k > 0 ==> Power(k) % 2 == 0
  {
    if k > 0 {
      assert Power(k) == 2 * Power(k - 1);
    }
  }

  /** The check is passed by the powers of two and nothing else. */
  lemma {:induction false} PowerOfTwoExactly(n: nat)
    ensures PowerOfTwo(n) <==> exists k: nat :: n == Power(k)
  {
    if n > 1 && n % 2 == 0 {
      PowerOfTwoExactly(n / 2);
      if PowerOfTwo(n) {
        var k: nat :| n / 2 == Power(k);
        assert n == Power(k + 1);
      }
      forall k: nat | n == Power(k) ensures PowerOfTwo(n) {
        PowerParity(k);
        assert n / 2 == Power(k - 1);
      }
    } else if n == 1 {
      assert n == Power(0);
    } else {
      forall k: nat ensures n != Power(k) {
        PowerParity(k);
      }
    }
  }

  function LengthOf(r: Range): (n: nat)
    requires r.begin <= r.end
    ensures n > 0
  {
    r.end - r.begin + 1
  }

  /** The slot a range takes, by its own length. */
  function OwnSlot(r: Range): nat
    requires r.begin <= r.end
  {
    r.begin / LengthOf(r)
  }

  /** Lengths are powers of two, and each range has a slot of its own in the table. */
  predicate SlotsFit(n: nat, rs: seq<Range>)
    requires RangesOk(rs)
  {
    && (forall i :: 0 <= i < |rs| ==> PowerOfTwo(LengthOf(rs[i])) && OwnSlot(rs[i]) < n)
    && forall i, j :: 0 <= i < j < |rs| ==> OwnSlot(rs[i]) != OwnSlot(rs[j])
  }

  /** The slots taken by some ranges, and no others, are filled, each with its CGRA. */
  predicate SlotsTaken(t: Table, n: nat, rs: seq<Range>)
    requires RangesOk(rs)
  {
    && |t.lut| == n
    && (forall i :: 0 <= i < |rs| && OwnSlot(rs[i]) < n ==> t.lut[OwnSlot(rs[i])] == rs[i].cgra)
    && (forall b :: 0 <= b < n && t.lut[b] != -1 ==> SlotTaken(rs, b))
    && (rs != [] ==> t.length == LengthOf(rs[|rs| - 1]))
  }

  predicate SlotTaken(rs: seq<Range>, b: nat)
    requires RangesOk(rs)
  {
    exists i :: 0 <= i < |rs| && OwnSlot(rs[i]) == b
  }

  lemma SlotsFitOneMore(n: nat, rs: seq<Range>)
    requires RangesOk(rs) && rs != []
    ensures var m := |rs| - 1;
            SlotsFit(n, rs) <==>
              && SlotsFit(n, rs[..m]) && PowerOfTwo(LengthOf(rs[m])) && OwnSlot(rs[m]) < n
              && !SlotTaken(rs[..m], OwnSlot(rs[m]))
  {
    var m := |rs| - 1;
    assert forall i :: 0 <= i < m ==> rs[..m][i] == rs[i];
    if SlotTaken(rs[..m], OwnSlot(rs[m])) {
      var i :| 0 <= i < m && OwnSlot(rs[..m][i]) == OwnSlot(rs[m]);
      assert OwnSlot(rs[i]) == OwnSlot(rs[m]);
    }
  }

  lemma SlotsTakenOneMore(t: Table, n: nat, rs: seq<Range>)
    requires RangesOk(rs) && rs != [] && SlotsTaken(t, n, rs[..|rs| - 1]) && SlotsFit(n, rs)
    ensures Enter(t, rs[|rs| - 1]).Ok? ==> SlotsTaken(Enter(t, rs[|rs| - 1]).value, n, rs)
  {
    var m := |rs| - 1;
    if Enter(t, rs[m]).Ok? {
      var t' := Enter(t, rs[m]).value;
      forall i | 0 <= i < |rs| && OwnSlot(rs[i]) < n ensures t'.lut[OwnSlot(rs[i])] == rs[i].cgra {
        if i < m { assert rs[..m][i] == rs[i] && OwnSlot(rs[i]) != OwnSlot(rs[m]); }
      }
      forall b | 0 <= b < n && t'.lut[b] != -1 ensures SlotTaken(rs, b) {
        if b == OwnSlot(rs[m]) {
          assert OwnSlot(rs[m]) == b;
        } else {
          assert SlotTaken(rs[..m], b);
          var i :| 0 <= i < m && OwnSlot(rs[..m][i]) == b;
          assert OwnSlot(rs[i]) == b;
        }
      }
    }
  }

  /** Any ranges: the construction fails exactly when some length is no power of two, or a
      range's slot, by its own length, is beyond the table or another's. */
  lemma {:induction false} AcceptsExactlyFitting(n: nat, rs: seq<Range>)
    requires RangesOk(rs)
    ensures Fill(n, rs).Ok? <==> SlotsFit(n, rs)
    ensures Fill(n, rs).Ok? ==> SlotsTaken(Fill(n, rs).value, n, rs)
  {
    if rs != [] {
      var m := |rs| - 1;
      AcceptsExactlyFitting(n, rs[..m]);
      SlotsFitOneMore(n, rs);
      if Fill(n, rs[..m]).Ok? {
        EnterExactly(Fill(n, rs[..m]).value, n, rs[..m], rs[m]);
        if Enter(Fill(n, rs[..m]).value, rs[m]).Ok? { SlotsTakenOneMore(Fill(n, rs[..m]).value, n, rs); }
      }
    }
  }

  lemma EnterExactly(t: Table, n: nat, rs: seq<Range>, r: Range)
    requires RangesOk(rs) && r.begin <= r.end && SlotsTaken(t, n, rs)
    ensures Enter(t, r).Ok? <==> PowerOfTwo(LengthOf(r)) && OwnSlot(r) < n && !SlotTaken(rs, OwnSlot(r))
  {
  }

  // ---- equal, aligned ranges ----

  /** Every range has this many addresses, a power of two, and starts at a multiple of it,
      among the first n. */
  predicate Uniform(rs: seq<Range>, n: nat, length: nat) {
    && PowerOfTwo(length)
    && forall i :: 0 <= i < |rs| ==>
         Base(rs[i], length) < n && rs[i].begin == Base(rs[i], length) * length && rs[i].end == rs[i].begin + length - 1
  }

  predicate Disjoint(rs: seq<Range>) {
    forall i, j :: 0 <= i < j < |rs| ==> rs[i].end < rs[j].begin || rs[j].end < rs[i].begin
  }

  predicate DistinctBases(rs: seq<Range>, length: nat)
    requires length > 0
  {
    forall i, j :: 0 <= i < j < |rs| ==> Base(rs[i], length) != Base(rs[j], length)
  }

  lemma ApartMeansOtherBase(r: Range, s: Range, length: nat, x: nat, y: nat)
    requires length > 0 && r.begin == x * length && r.end == r.begin + length - 1
    requires s.begin == y * length && s.end == s.begin + length - 1
    ensures r.end < s.begin || s.end < r.begin <==> x != y
  {
    if x < y {
      Arith.MulMono(x + 1, y, length);
    } else if y < x {
      Arith.MulMono(y + 1, x, length);
    }
  }

  lemma DisjointMeansDistinct(rs: seq<Range>, n: nat, length: nat)
    requires Uniform(rs, n, length)
    ensures Disjoint(rs) <==> DistinctBases(rs, length)
  {
    forall i, j | 0 <= i < j < |rs|
      ensures rs[i].end < rs[j].begin || rs[j].end < rs[i].begin <==> Base(rs[i], length) != Base(rs[j], length)
    {
      ApartMeansOtherBase(rs[i], rs[j], length, Base(rs[i], length), Base(rs[j], length));
    }
  }

  predicate Occupied(rs: seq<Range>, length: nat, b: nat)
    requires length > 0
  {
    exists i :: 0 <= i < |rs| && Base(rs[i], length) == b
  }

  /** The table after some ranges: their slots name them, the others are empty. */
  predicate Filled(t: Table, rs: seq<Range>, n: nat, length: nat)
    requires length > 0
  {
    && |t.lut| == n && (rs != [] ==> t.length == length)
    && (forall i :: 0 <= i < |rs| && Base(rs[i], length) < n ==> t.lut[Base(rs[i], length)] == rs[i].cgra)
    && (forall b :: 0 <= b < n ==> t.lut[b] == -1 || Occupied(rs, length, b))
  }

  /** The construction succeeds exactly when no two ranges overlap, and then every range's
      slot names its CGRA. */
  lemma {:induction false} FillsUnlessOverlapping(rs: seq<Range>, n: nat, length: nat)
    requires RangesOk(rs) && Uniform(rs, n, length)
    ensures Fill(n, rs).Ok? <==> DistinctBases(rs, length)
    ensures Fill(n, rs).Ok? ==> Filled(Fill(n, rs).value, rs, n, length)
  {
    if rs != [] {
      var m := |rs| - 1;
      FillsUnlessOverlapping(rs[..m], n, length);
      assert Base(rs[m], length) < n && rs == rs[..m] + [rs[m]];
      if Fill(n, rs[..m]).Ok? {
        EnterStep(Fill(n, rs[..m]).value, rs[..m], rs[m], n, length);
      } else {
        assert forall i, j :: 0 <= i < j < m ==> rs[..m][i] == rs[i] && rs[..m][j] == rs[j];
      }
    }
  }

  lemma EnterStep(t: Table, rs: seq<Range>, r: Range, n: nat, length: nat)
    requires length > 0 && Filled(t, rs, n, length) && DistinctBases(rs, length) && Base(r, length) < n
    requires r.begin <= r.end && r.end - r.begin + 1 == length && PowerOfTwo(length)
    requires forall i :: 0 <= i < |rs| ==> Base(rs[i], length) < n
    ensures Enter(t, r).Ok? <==> DistinctBases(rs + [r], length)
    ensures Enter(t, r).Ok? ==> Filled(Enter(t, r).value, rs + [r], n, length)
  {
    var b, all := Base(r, length), rs + [r];
    assert all[|rs|] == r && forall i :: 0 <= i < |rs| ==> all[i] == rs[i];
    if t.lut[b] != -1 {
      assert Occupied(rs, length, b);
      var i :| 0 <= i < |rs| && Base(rs[i], length) == b;
      assert Base(all[i], length) == Base(all[|rs|], length);
    } else {
      assert DistinctBases(all, length) by {
        forall i | 0 <= i < |rs| ensures Base(rs[i], length) != b {
          assert t.lut[Base(rs[i], length)] == rs[i].cgra;
        }
      }
      EnterFills(t, rs, r, n, length);
    }
  }

  lemma EnterFills(t: Table, rs: seq<Range>, r: Range, n: nat, length: nat)
    requires length > 0 && Filled(t, rs, n, length) && DistinctBases(rs + [r], length) && Base(r, length) < n
    requires forall i :: 0 <= i < |rs| ==> Base(rs[i], length) < n
    ensures Filled(Table(t.lut[Base(r, length) := r.cgra], length), rs + [r], n, length)
  {
    var b, all, lut := Base(r, length), rs + [r], t.lut[Base(r, length) := r.cgra];
    assert all[|rs|] == r && forall i :: 0 <= i < |rs| ==> all[i] == rs[i];
    forall i | 0 <= i < |all| ensures lut[Base(all[i], length)] == all[i].cgra {
      if i < |rs| {
        assert Base(all[i], length) != Base(all[|rs|], length);
        assert t.lut[Base(rs[i], length)] == rs[i].cgra;
      }
    }
    forall c | 0 <= c < n ensures lut[c] == -1 || Occupied(all, length, c) {
      if c == b {
        assert Base(all[|rs|], length) == c;
      } else if t.lut[c] != -1 {
        var i :| 0 <= i < |rs| && Base(rs[i], length) == c;
        assert Base(all[i], length) == c;
      }
    }
  }

  // ---- every address has an owner ----

  /** n disjoint ranges in n slots leave none empty. */
  lemma SomeRangeAt(rs: seq<Range>, length: nat, b: nat) returns (i: nat)
    requires Uniform(rs, |rs|, length) && DistinctBases(rs, length) && b < |rs|
    ensures i < |rs| && Base(rs[i], length) == b
  {
    var bases: seq<nat> := seq(|rs|, j requires 0 <= j < |rs| => Base(rs[j], length));
    assert forall j :: 0 <= j < |rs| ==> bases[j] == Base(rs[j], length);
    i := Seqs.Pigeonhole(bases, b);
  }

  // ---- where an address lives ----

  /** Words per bank, banks per CGRA, and how many values a CGRA id has. */
  datatype Shape = Shape(bankSize: nat, banks: nat, ids: nat)

  function Length(h: Shape): nat {
    h.banks * h.bankSize
  }

  /** A whole system: its address map, in the map's order, with CGRA ids 0 .. n - 1. */
  predicate MapOk(h: Shape, rs: seq<Range>) {
    && h.bankSize > 0 && h.banks > 0 && 0 < |rs| <= h.ids
    && RangesOk(rs) && Uniform(rs, |rs|, Length(h)) && Disjoint(rs)
    && (forall i :: 0 <= i < |rs| ==> rs[i].cgra < |rs|)
    && (forall i, j :: 0 <= i < j < |rs| ==> rs[i].cgra != rs[j].cgra)
  }

  datatype Place = Place(cgra: nat, bank: nat, offset: nat)

  /** The bank that a CGRA with this range selects; `banks` stands for the port to the NoC. */
  function BankOf(h: Shape, r: Range, addr: nat): (b: nat)
    requires h.bankSize > 0
  {
    if r.begin <= addr <= r.end then (addr - r.begin) / h.bankSize else h.banks
  }

  function OffsetOf(h: Shape, addr: nat): nat
    requires h.bankSize > 0
  {
    addr % h.bankSize
  }

  /** The index, from i on, of CGRA id's range. */
  function RangeOf(rs: seq<Range>, id: int, i: nat): (j: nat)
    requires i <= |rs|
    ensures i <= j <= |rs| && (j < |rs| ==> rs[j].cgra == id)
    ensures forall m :: i <= m < j ==> rs[m].cgra != id
    decreases |rs| - i
  {
    if i == |rs| || rs[i].cgra == id then i else RangeOf(rs, id, i + 1)
  }

  /** What a CGRA does with an access: serve it from a bank, or send it through the NoC to
      the CGRA the table names. */
  datatype Hop = Local(place: Place) | Forward(to: nat) | NoEntry

  /** The entry of the table an address selects; the index has the width of a CGRA id. */
  function SlotIn(h: Shape, t: Table, addr: nat): nat
    requires t.length > 0 && h.ids > 0
  {
    addr / t.length % h.ids
  }

  /** CGRAs are numbered by their ranges here. */
  function HopAt(h: Shape, rs: seq<Range>, t: Table, c: nat, addr: nat): (r: Hop)
    requires h.bankSize > 0 && h.ids > 0 && t.length > 0 && c < |rs|
    ensures r.Forward? ==> r.to < |rs|
  {
    if BankOf(h, rs[c], addr) < h.banks then Local(Place(rs[c].cgra, BankOf(h, rs[c], addr), OffsetOf(h, addr)))
    else
      var slot := SlotIn(h, t, addr);
      if slot >= |t.lut| then NoEntry
      else
        var owner := RangeOf(rs, t.lut[slot], 0);
        if owner == |rs| then NoEntry else Forward(owner)
  }

  /** Where an access is after some hops: served, on its way to a CGRA, or stopped by an
      index beyond the table. */
  datatype Outcome = Served(place: Place) | Travelling(to: nat) | Failed

  function Route(h: Shape, rs: seq<Range>, t: Table, c: nat, addr: nat, hops: nat): Outcome
    requires h.bankSize > 0 && h.ids > 0 && t.length > 0 && c < |rs|
    decreases hops
  {
    match HopAt(h, rs, t, c, addr)
    case Local(p) => Served(p)
    case NoEntry => Failed
    case Forward(o) => if hops == 0 then Travelling(o) else Route(h, rs, t, o, addr, hops - 1)
  }

  /** The address that place p, in the range r, holds. */
  function AddrOf(h: Shape, r: Range, p: Place): nat {
    r.begin + (p.bank * h.bankSize + p.offset)
  }

  lemma Splits(begin: nat, x: nat, banks: nat, size: nat, d: nat)
    requires size > 0 && begin == x * (banks * size) && d < banks * size
    ensures d / size < banks && (begin + d) % size == d % size
    ensures d == d / size * size + d % size
  {
    var q, o := d / size, d % size;
    assert d == size * q + o;
    if q >= banks { Arith.MulMono(banks, q, size); }
    assert begin + d == size * (x * banks + q) + o by {
      assert x * (banks * size) == size * (x * banks);
      assert size * (x * banks + q) == size * (x * banks) + size * q;
    }
    Arith.DivModUnique(begin + d, size, x * banks + q, o);
  }

  /** Inside its own range, an address selects a real bank, and bank and offset determine it. */
  lemma SplitsInRange(h: Shape, rs: seq<Range>, i: nat, addr: nat)
    requires MapOk(h, rs) && i < |rs| && rs[i].begin <= addr <= rs[i].end
    ensures BankOf(h, rs[i], addr) < h.banks && OffsetOf(h, addr) < h.bankSize
    ensures AddrOf(h, rs[i], Place(rs[i].cgra, BankOf(h, rs[i], addr), OffsetOf(h, addr))) == addr
  {
    Splits(rs[i].begin, Base(rs[i], Length(h)), h.banks, h.bankSize, addr - rs[i].begin);
  }

  /** The range an address belongs to. */
  lemma OwnerRange(h: Shape, rs: seq<Range>, addr: nat) returns (i: nat)
    requires MapOk(h, rs) && addr < |rs| * Length(h)
    ensures i < |rs| && rs[i].begin <= addr <= rs[i].end
  {
    var b := SlotOf(addr, Length(h), |rs|);
    i := RangeAtSlot(h, rs, b, b * Length(h));
  }

  lemma RangeAtSlot(h: Shape, rs: seq<Range>, b: nat, begin: nat) returns (i: nat)
    requires MapOk(h, rs) && b < |rs| && begin == b * Length(h)
    ensures i < |rs| && rs[i].begin == begin && rs[i].end == begin + Length(h) - 1
  {
    DisjointMeansDistinct(rs, |rs|, Length(h));
    i := SomeRangeAt(rs, Length(h), b);
  }

  lemma SlotOf(addr: nat, size: nat, n: nat) returns (b: nat)
    requires size > 0 && addr < n * size
    ensures b < n && b * size <= addr < b * size + size
  {
    b := addr / size;
    assert addr == size * b + addr % size;
    if b >= n { Arith.MulMono(n, b, size); }
  }

  lemma BaseOf(h: Shape, rs: seq<Range>, i: nat, addr: nat)
    requires MapOk(h, rs) && i < |rs| && rs[i].begin <= addr <= rs[i].end
    ensures addr / Length(h) == Base(rs[i], Length(h)) < |rs|
  {
    Arith.DivModUnique(addr, Length(h), Base(rs[i], Length(h)), addr - rs[i].begin);
  }

  /** The table the construction leaves. */
  function TableOf(rs: seq<Range>): Table
    requires RangesOk(rs)
  {
    if Fill(|rs|, rs).Ok? then Fill(|rs|, rs).value else Table([], 1)
  }

  lemma TableIsFilled(h: Shape, rs: seq<Range>)
    requires MapOk(h, rs)
    ensures Fill(|rs|, rs) == Ok(TableOf(rs)) && Filled(TableOf(rs), rs, |rs|, Length(h))
  {
    DisjointMeansDistinct(rs, |rs|, Length(h));
    FillsUnlessOverlapping(rs, |rs|, Length(h));
  }

  lemma TableOfMap(h: Shape, rs: seq<Range>)
    requires MapOk(h, rs)
    ensures |TableOf(rs).lut| == |rs| && TableOf(rs).length == Length(h) > 0
  {
    TableIsFilled(h, rs);
  }

  /** The entry of an owned slot names the owner. */
  lemma SlotNamesOwner(h: Shape, rs: seq<Range>, i: nat, slot: nat)
    requires MapOk(h, rs) && i < |rs| && Base(rs[i], Length(h)) == slot
    ensures slot < |TableOf(rs).lut| == |rs| && RangeOf(rs, TableOf(rs).lut[slot], 0) == i
  {
    TableIsFilled(h, rs);
  }

  lemma SmallMod(x: nat, n: nat)
    requires x < n
    ensures x % n == x
  {
    Arith.DivModUnique(x, n, 0, x);
  }

  /** From whichever CGRA an access starts, it ends in the owner's bank, after one hop at most. */
  lemma RoutesToOwner(h: Shape, rs: seq<Range>, c: nat, i: nat, addr: nat, hops: nat)
    requires MapOk(h, rs) && c < |rs| && i < |rs| && rs[i].begin <= addr <= rs[i].end && hops > 0
    ensures TableOf(rs).length > 0
    ensures Route(h, rs, TableOf(rs), c, addr, hops)
      == Served(Place(rs[i].cgra, BankOf(h, rs[i], addr), OffsetOf(h, addr)))
  {
    TableOfMap(h, rs);
    SplitsInRange(h, rs, i, addr);
    if rs[c].begin <= addr <= rs[c].end {
      assert c == i;
    } else {
      BaseOf(h, rs, i, addr);
      SmallMod(Base(rs[i], Length(h)), h.ids);
      SlotNamesOwner(h, rs, i, Base(rs[i], Length(h)));
      assert HopAt(h, rs, TableOf(rs), c, addr) == Forward(i);
      assert Route(h, rs, TableOf(rs), i, addr, hops - 1)
        == Served(Place(rs[i].cgra, BankOf(h, rs[i], addr), OffsetOf(h, addr)));
    }
  }

  /** Where every address is held, whoever asks. */
  lemma PlaceOfAddr(h: Shape, rs: seq<Range>, c: nat, addr: nat, hops: nat) returns (i: nat)
    requires MapOk(h, rs) && c < |rs| && addr < |rs| * Length(h) && hops > 0
    ensures TableOf(rs).length > 0 && Route(h, rs, TableOf(rs), c, addr, hops).Served? && i < |rs|
    ensures var p := Route(h, rs, TableOf(rs), c, addr, hops).place;
            && p.cgra == rs[i].cgra && p.bank < h.banks && p.offset == OffsetOf(h, addr) < h.bankSize
            && AddrOf(h, rs[i], p) == addr
  {
    i := OwnerRange(h, rs, addr);
    RoutesToOwner(h, rs, c, i, addr, hops);
    SplitsInRange(h, rs, i, addr);
  }

  /** Different addresses are held at different places, and the place does not depend on
      who asks. */
  lemma PlacesAreUnique(h: Shape, rs: seq<Range>, c: nat, c': nat, a: nat, a': nat, hops: nat)
    requires MapOk(h, rs) && c < |rs| && c' < |rs| && a < |rs| * Length(h) && a' < |rs| * Length(h) && hops > 0
    ensures TableOf(rs).length > 0
    ensures Route(h, rs, TableOf(rs), c, a, hops) == Route(h, rs, TableOf(rs), c', a', hops) <==> a == a'
  {
    var i, p := Home(h, rs, a, hops);
    var i', p' := Home(h, rs, a', hops);
    if p == p' {
      assert i == i';
    }
  }

  /** The place of an address, the same from everywhere. */
  lemma Home(h: Shape, rs: seq<Range>, addr: nat, hops: nat) returns (i: nat, p: Place)
    requires MapOk(h, rs) && addr < |rs| * Length(h) && hops > 0
    ensures TableOf(rs).length > 0 && i < |rs| && p.cgra == rs[i].cgra && AddrOf(h, rs[i], p) == addr
    ensures forall c :: 0 <= c < |rs| ==> Route(h, rs, TableOf(rs), c, addr, hops) == Served(p)
  {
    i := OwnerRange(h, rs, addr);
    p := Place(rs[i].cgra, BankOf(h, rs[i], addr), OffsetOf(h, addr));
    TableOfMap(h, rs);
    SplitsInRange(h, rs, i, addr);
    forall c | 0 <= c < |rs| ensures Route(h, rs, TableOf(rs), c, addr, hops) == Served(p) {
      RoutesToOwner(h, rs, c, i, addr, hops);
    }
  }

  lemma AddrInRange(h: Shape, rs: seq<Range>, i: nat, p: Place)
    requires MapOk(h, rs) && i < |rs| && p.bank < h.banks && p.offset < h.bankSize
    ensures rs[i].begin <= AddrOf(h, rs[i], p) <= rs[i].end
    ensures BankOf(h, rs[i], AddrOf(h, rs[i], p)) == p.bank && OffsetOf(h, AddrOf(h, rs[i], p)) == p.offset
  {
    var d := p.bank * h.bankSize + p.offset;
    Arith.MulMono(p.bank + 1, h.banks, h.bankSize);
    assert (p.bank + 1) * h.bankSize == p.bank * h.bankSize + h.bankSize;
    Arith.DivModUnique(d, h.bankSize, p.bank, p.offset);
    Splits(rs[i].begin, Base(rs[i], Length(h)), h.banks, h.bankSize, d);
  }

  lemma InMap(h: Shape, rs: seq<Range>, i: nat, addr: nat)
    requires MapOk(h, rs) && i < |rs| && addr <= rs[i].end
    ensures addr < |rs| * Length(h)
  {
    Arith.MulMono(Base(rs[i], Length(h)) + 1, |rs|, Length(h));
  }

  /** Every place holds some address. */
  lemma EveryPlaceIsUsed(h: Shape, rs: seq<Range>, c: nat, i: nat, p: Place, hops: nat)
    requires MapOk(h, rs) && c < |rs| && i < |rs| && p.cgra == rs[i].cgra && p.bank < h.banks && p.offset < h.bankSize
    requires hops > 0
    ensures TableOf(rs).length > 0 && AddrOf(h, rs[i], p) < |rs| * Length(h)
    ensures Route(h, rs, TableOf(rs), c, AddrOf(h, rs[i], p), hops) == Served(p)
  {
    var addr := AddrOf(h, rs[i], p);
    AddrInRange(h, rs, i, p);
    InMap(h, rs, i, addr);
    RoutesToOwner(h, rs, c, i, addr, hops);
  }

  /** For equal aligned ranges that fit the table, the construction succeeds exactly when
      they do not overlap. */
  lemma AcceptsExactlyDisjoint(rs: seq<Range>, length: nat)
    requires RangesOk(rs) && Uniform(rs, |rs|, length)
    ensures Fill(|rs|, rs).Ok? <==> Disjoint(rs)
  {
    DisjointMeansDistinct(rs, |rs|, length);
    FillsUnlessOverlapping(rs, |rs|, length);
  }

  /** No CGRA serves an address outside the map itself. */
  lemma OutsideEveryRange(h: Shape, rs: seq<Range>, c: nat, addr: nat)
    requires MapOk(h, rs) && c < |rs| && addr >= |rs| * Length(h)
    ensures BankOf(h, rs[c], addr) == h.banks
  {
    if addr <= rs[c].end { InMap(h, rs, c, addr); }
  }

  /** Outside the map the index of the table wraps at the width of a CGRA id.  If that hits an
      entry, the CGRA named does not have the address either and names itself again: the
      access travels for ever.  If not, the index is beyond the table. */
  lemma {:induction false} OutsideNeverServed(h: Shape, rs: seq<Range>, c: nat, addr: nat, hops: nat)
    requires MapOk(h, rs) && c < |rs| && addr >= |rs| * Length(h)
    ensures Length(h) == TableOf(rs).length > 0
    ensures var slot, r := addr / Length(h) % h.ids, Route(h, rs, TableOf(rs), c, addr, hops);
            if slot < |rs| then r.Travelling? && r.to < |rs| && Base(rs[r.to], Length(h)) == slot else r == Failed
    decreases hops
  {
    TableOfMap(h, rs);
    OutsideEveryRange(h, rs, c, addr);
    var slot := SlotIn(h, TableOf(rs), addr);
    if slot < |rs| {
      DisjointMeansDistinct(rs, |rs|, Length(h));
      var i := SomeRangeAt(rs, Length(h), slot);
      SlotNamesOwner(h, rs, i, slot);
      assert HopAt(h, rs, TableOf(rs), c, addr) == Forward(i);
      if hops > 0 {
        OutsideNeverServed(h, rs, i, addr, hops - 1);
      }
    }
  }

  /** The address map of the repository's CGRA test: four CGRAs of four words each. */
  function FourRanges(): seq<Range> {
    seq(4, i requires 0 <= i < 4 => Range(i, 4 * i, 4 * i + 3))
  }

  lemma FourRangesOk()
    ensures RangesOk(FourRanges()) && Uniform(FourRanges(), 4, 4) && Disjoint(FourRanges())
    ensures forall i :: 0 <= i < 4 ==> Base(FourRanges()[i], 4) == i
  {
    assert PowerOfTwo(2) && PowerOfTwo(4);
    forall i | 0 <= i < 4 ensures Base(FourRanges()[i], 4) == i {
      Arith.DivModUnique(4 * i, 4, i, 0);
    }
  }

  lemma FourRangesMap()
    ensures MapOk(Shape(4, 1, 4), FourRanges())
  {
    FourRangesOk();
  }

  /** Address 16, the first beyond that map, selects CGRA 0 again and travels for ever. */
  lemma WrappedAddressTravels(c: nat, hops: nat)
    requires c < 4
    ensures TableOf(FourRanges()).length > 0
    ensures Route(Shape(4, 1, 4), FourRanges(), TableOf(FourRanges()), c, 16, hops) == Travelling(0)
  {
    var h, rs := Shape(4, 1, 4), FourRanges();
    FourRangesMap();
    OutsideNeverServed(h, rs, c, 16, hops);
    var r := Route(h, rs, TableOf(rs), c, 16, hops);
    assert r.Travelling? && r.to < 4 && Base(rs[r.to], 4) == 0;
    assert r.to == 0 by {
      FourRangesOk();
    }
  }

  // ---- the memory ----

  /** Loads and stores, issued at the CGRA of range `at`. */
  datatype Op<T> = Load(at: nat, addr: nat) | Store(at: nat, addr: nat, value: T)

  /** What an operation answers, if it does. */
  datatype Reply<T> = Loaded(value: T) | Stored | Unanswered

  // ---- one bank ----

  /** A bank reduces every address to its size. */
  function BankRead<T>(bank: seq<T>, addr: nat): T
    requires bank != []
  {
    bank[addr % |bank|]
  }

  function BankWrite<T>(bank: seq<T>, addr: nat, value: T): (r: seq<T>)
    requires bank != []
    ensures |r| == |bank|
  {
    bank[addr % |bank| := value]
  }

  datatype Write<T> = Write(addr: nat, value: T)

  function BankWrites<T>(bank: seq<T>, ws: seq<Write<T>>): (r: seq<T>)
    requires bank != []
    ensures |r| == |bank|
  {
    if ws == [] then bank else BankWrite(BankWrites(bank, ws[..|ws| - 1]), ws[|ws| - 1].addr, ws[|ws| - 1].value)
  }

  /** What was last written to this address, or one that differs by whole banks. */
  function Latest<T>(ws: seq<Write<T>>, size: nat, addr: nat, initial: T): T
    requires size > 0
  {
    if ws == [] then initial
    else if ws[|ws| - 1].addr % size == addr % size then ws[|ws| - 1].value
    else Latest(ws[..|ws| - 1], size, addr, initial)
  }

  /** A read returns the last write to its word. */
  lemma {:induction false} ReadsLatest<T>(bank: seq<T>, ws: seq<Write<T>>, addr: nat)
    requires bank != []
    ensures BankRead(BankWrites(bank, ws), addr) == Latest(ws, |bank|, addr, BankRead(bank, addr))
  {
    if ws != [] {
      ReadsLatest(bank, ws[..|ws| - 1], addr);
    }
  }

  // ---- all banks ----

  /** Every bank's registers, by CGRA and bank. */
  type Memory<T> = seq<seq<seq<T>>>

  predicate MemoryOk<T>(h: Shape, rs: seq<Range>, m: Memory<T>) {
    && |m| == |rs|
    && forall c :: 0 <= c < |m| ==> |m[c]| == h.banks && forall b :: 0 <= b < h.banks ==> |m[c][b]| == h.bankSize
  }

  predicate Within<T>(m: Memory<T>, p: Place) {
    p.cgra < |m| && p.bank < |m[p.cgra]| && p.offset < |m[p.cgra][p.bank]|
  }

  function At<T>(m: Memory<T>, p: Place): T
    requires Within(m, p)
  {
    m[p.cgra][p.bank][p.offset]
  }

  function Put<T>(m: Memory<T>, p: Place, v: T): Memory<T>
    requires Within(m, p)
  {
    m[p.cgra := m[p.cgra][p.bank := m[p.cgra][p.bank][p.offset := v]]]
  }

  /** One operation on the banked memory: routed, then performed in the bank it reaches; no
      answer if it has not reached one after this many hops. */
  function Exec<T>(h: Shape, rs: seq<Range>, t: Table, m: Memory<T>, op: Op<T>, hops: nat): (Memory<T>, Reply<T>)
    requires h.bankSize > 0 && h.ids > 0 && t.length > 0 && op.at < |rs|
  {
    var r := Route(h, rs, t, op.at, op.addr, hops);
    if !r.Served? || !Within(m, r.place) then (m, Unanswered)
    else
      var c, b := r.place.cgra, r.place.bank;
      if op.Load? then (m, Loaded(BankRead(m[c][b], op.addr)))
      else (m[c := m[c][b := BankWrite(m[c][b], op.addr, op.value)]], Stored)
  }

  function FlatExec<T>(m: seq<T>, op: Op<T>): (seq<T>, Reply<T>) {
    if op.addr >= |m| then (m, Unanswered)
    else if op.Load? then (m, Loaded(m[op.addr]))
    else (m[op.addr := op.value], Stored)
  }

  predicate OpsOk<T>(rs: seq<Range>, ops: seq<Op<T>>) {
    forall k :: 0 <= k < |ops| ==> ops[k].at < |rs|
  }

  ghost function Run<T>(h: Shape, rs: seq<Range>, t: Table, m: Memory<T>, ops: seq<Op<T>>, hops: nat)
    : (Memory<T>, seq<Reply<T>>)
    requires h.bankSize > 0 && h.ids > 0 && t.length > 0 && OpsOk(rs, ops)
  {
    if ops == [] then (m, [])
    else
      var (m1, replies) := Run(h, rs, t, m, ops[..|ops| - 1], hops);
      var (m2, reply) := Exec(h, rs, t, m1, ops[|ops| - 1], hops);
      (m2, replies + [reply])
  }

  ghost function FlatRun<T>(m: seq<T>, ops: seq<Op<T>>): (seq<T>, seq<Reply<T>>) {
    if ops == [] then (m, [])
    else
      var (m1, replies) := FlatRun(m, ops[..|ops| - 1]);
      var (m2, reply) := FlatExec(m1, ops[|ops| - 1]);
      (m2, replies + [reply])
  }

  /** Place p is one of range r's. */
  predicate Holds(h: Shape, r: Range, p: Place) {
    p.cgra == r.cgra && p.bank < h.banks && p.offset < h.bankSize
  }

  /** Place p, in the range of its CGRA, holds what the flat memory has at its address. */
  ghost predicate Mirrors<T>(h: Shape, rs: seq<Range>, m: Memory<T>, flat: seq<T>)
    requires MapOk(h, rs) && MemoryOk(h, rs, m)
  {
    && |flat| == |rs| * Length(h)
    && forall i, p: Place :: 0 <= i < |rs| && Holds(h, rs[i], p) && AddrOf(h, rs[i], p) < |flat| ==>
         At(m, p) == flat[AddrOf(h, rs[i], p)]
  }

  lemma ExecMirrors<T>(h: Shape, rs: seq<Range>, m: Memory<T>, flat: seq<T>, op: Op<T>, hops: nat)
    requires MapOk(h, rs) && MemoryOk(h, rs, m) && Mirrors(h, rs, m, flat) && op.at < |rs| && hops > 0
    ensures TableOf(rs).length > 0
    ensures var (m', reply) := Exec(h, rs, TableOf(rs), m, op, hops);
            var (flat', reply') := FlatExec(flat, op);
            MemoryOk(h, rs, m') && Mirrors(h, rs, m', flat') && reply == reply'
  {
    if op.addr >= |flat| {
      OutsideNeverServed(h, rs, op.at, op.addr, hops);
    } else {
      var i := PlaceOfAddr(h, rs, op.at, op.addr, hops);
      var p := Route(h, rs, TableOf(rs), op.at, op.addr, hops).place;
      assert |m[p.cgra][p.bank]| == h.bankSize;
      assert At(m, p) == flat[AddrOf(h, rs[i], p)];
      if op.Store? { PutMirrors(h, rs, m, flat, i, p, op.value); }
    }
  }

  /** Writing one place changes the flat memory at its address and nowhere else. */
  lemma PutMirrors<T>(h: Shape, rs: seq<Range>, m: Memory<T>, flat: seq<T>, i: nat, p: Place, v: T)
    requires MapOk(h, rs) && MemoryOk(h, rs, m) && Mirrors(h, rs, m, flat) && i < |rs|
    requires Holds(h, rs[i], p) && AddrOf(h, rs[i], p) < |flat|
    ensures MemoryOk(h, rs, Put(m, p, v)) && Mirrors(h, rs, Put(m, p, v), flat[AddrOf(h, rs[i], p) := v])
  {
    var m', flat' := Put(m, p, v), flat[AddrOf(h, rs[i], p) := v];
    assert MemoryOk(h, rs, m');
    forall j, q: Place | 0 <= j < |rs| && Holds(h, rs[j], q) && AddrOf(h, rs[j], q) < |flat'|
      ensures At(m', q) == flat'[AddrOf(h, rs[j], q)]
    {
      assert At(m, q) == flat[AddrOf(h, rs[j], q)];
      SamePlace(h, rs, i, p, j, q);
    }
  }

  lemma SamePlace(h: Shape, rs: seq<Range>, i: nat, p: Place, j: nat, q: Place)
    requires MapOk(h, rs) && i < |rs| && Holds(h, rs[i], p) && j < |rs| && Holds(h, rs[j], q)
    ensures AddrOf(h, rs[i], p) == AddrOf(h, rs[j], q) <==> p == q
  {
    EveryPlaceIsUsed(h, rs, i, i, p, 1);
    EveryPlaceIsUsed(h, rs, i, j, q, 1);
    assert i < j ==> rs[i].cgra != rs[j].cgra;
    assert j < i ==> rs[j].cgra != rs[i].cgra;
  }

  /** Any sequence of loads and stores, from any CGRAs, gets the replies one flat memory
      would give, and leaves what it would leave; accesses beyond it are never answered,
      however many hops they make. */
  lemma {:induction false} RefinesFlatMemory<T>(h: Shape, rs: seq<Range>, m: Memory<T>, flat: seq<T>, ops: seq<Op<T>>,
        hops: nat)
    requires MapOk(h, rs) && MemoryOk(h, rs, m) && Mirrors(h, rs, m, flat) && OpsOk(rs, ops) && hops > 0
    ensures TableOf(rs).length > 0
    ensures var (m', replies) := Run(h, rs, TableOf(rs), m, ops, hops);
            var (flat', replies') := FlatRun(flat, ops);
            MemoryOk(h, rs, m') && Mirrors(h, rs, m', flat') && replies == replies'
  {
    TableOfMap(h, rs);
    if ops != [] {
      var n := |ops| - 1;
      RefinesFlatMemory(h, rs, m, flat, ops[..n], hops);
      var (m1, _) := Run(h, rs, TableOf(rs), m, ops[..n], hops);
      var (flat1, _) := FlatRun(flat, ops[..n]);
      ExecMirrors(h, rs, m1, flat1, ops[n], hops);
    }
  }

  // ---- a bank's registers ----

  class DataMemWrapperRTL<T> {
    const memory: array<T>

    constructor (memory: array<T>)
      ensures this.memory == memory
    {
      this.memory := memory;
    }

    /** A read request: the address is reduced to the bank's size. */
    method Read(addr: nat) returns (data: T)
      requires memory.Length > 0
      ensures data == BankRead(memory[..], addr)
    {
      data := memory[addr % memory.Length];
    }

    /** A write request. */
    method Write(addr: nat, data: T)
      requires memory.Length > 0
      modifies memory
      ensures memory[..] == BankWrite(old(memory[..]), addr, data)
    {
      memory[addr % memory.Length] := data;
    }
  }
}
