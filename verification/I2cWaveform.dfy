// What the snooper makes of whole I2C transactions, sample by sample.
module I2cWaveform {
  import opened Deglitcher
  import opened I2cSnoop

  // ---- A held segment of the waveform ----

  // Both lines held for len samples.
  datatype Segment = Segment(scl: bool, sda: bool, len: nat)

  ghost function Hold(c: Core, s: Sample, n: nat, self: Byte): Core
    decreases n
  {
    if n == 0 then c else Hold(CoreStep(c, s, self), s, n - 1, self)
  }

  ghost function Quiet(p: Proto, scl: bool, sda: bool, n: nat, self: Byte): Proto
    decreases n
  {
    if n == 0 then p else Quiet(NextProto(p, Level(scl), Level(sda), self), scl, sda, n - 1, self)
  }

  // p comes to rest in q within three clocks without an edge.
  ghost predicate Settles(p: Proto, q: Proto, scl: bool, sda: bool, self: Byte) {
    Quiet(p, scl, sda, 3, self) == q && NextProto(q, Level(scl), Level(sda), self) == q
  }

  // The lines are settled and the protocol machine is coming to rest in q.
  ghost predicate At(c: Core, scl: bool, sda: bool, q: Proto, self: Byte) {
    && c.scl == Deglitch(Level(scl), 0) && c.sda == Deglitch(Level(sda), 0)
    && Settles(c.p, q, scl, sda, self)
  }

  lemma {:induction false} RestIsKept(q: Proto, scl: bool, sda: bool, n: nat, self: Byte)
    requires NextProto(q, Level(scl), Level(sda), self) == q
    ensures Quiet(q, scl, sda, n, self) == q
  {
    hide NextProto;
    if n > 0 {
      RestIsKept(q, scl, sda, n - 1, self);
    }
  }

  lemma {:induction false} QuietSplit(p: Proto, scl: bool, sda: bool, n: nat, m: nat, self: Byte)
    ensures Quiet(p, scl, sda, n + m, self) == Quiet(Quiet(p, scl, sda, n, self), scl, sda, m, self)
    decreases n
  {
    hide NextProto;
    if n > 0 {
      QuietSplit(NextProto(p, Level(scl), Level(sda), self), scl, sda, n - 1, m, self);
    }
  }

  // Quiet clocks do not change where a state comes to rest, and three are enough.
  lemma SettlesOn(p: Proto, q: Proto, scl: bool, sda: bool, n: nat, self: Byte)
    requires Settles(p, q, scl, sda, self)
    ensures Settles(Quiet(p, scl, sda, n, self), q, scl, sda, self)
    ensures n >= 3 ==> Quiet(p, scl, sda, n, self) == q
  {
    hide NextProto;
    QuietSplit(p, scl, sda, n, 3, self);
    QuietSplit(p, scl, sda, 3, n, self);
    RestIsKept(q, scl, sda, n, self);
    if n >= 3 {
      QuietSplit(p, scl, sda, 3, n - 3, self);
      RestIsKept(q, scl, sda, n - 3, self);
    }
  }

  lemma {:induction false} HoldSteady(c: Core, scl: bool, sda: bool, n: nat, self: Byte)
    requires c.scl == Deglitch(Level(scl), 0) && c.sda == Deglitch(Level(sda), 0)
    ensures Hold(c, Sample(scl, sda), n, self) == Core(c.scl, c.sda, Quiet(c.p, scl, sda, n, self))
    decreases n
  {
    hide NextProto;
    if n > 0 {
      HoldSteady(CoreStep(c, Sample(scl, sda), self), scl, sda, n - 1, self);
    }
  }

  // A level change on SCL: ten quiet clocks, one clock with the edge, then quiet.
  lemma {:induction false} HoldSclEdge(c: Core, to: bool, sda: bool, k: nat, n: nat, self: Byte)
    requires k <= 9 && n >= 11 - k
    requires c.scl == Deglitch(Level(!to), k) && c.sda == Deglitch(Level(sda), 0)
    ensures var e := NextProto(Quiet(c.p, !to, sda, 10 - k, self), Edge(to), Level(sda), self);
            Hold(c, Sample(to, sda), n, self)
            == Core(Deglitch(Level(to), 0), c.sda, Quiet(e, to, sda, n - (11 - k), self))
    decreases n
  {
    hide NextProto;
    var d := CoreStep(c, Sample(to, sda), self);
    if k < 9 {
      HoldSclEdge(d, to, sda, k + 1, n - 1, self);
    } else {
      var e := CoreStep(d, Sample(to, sda), self);
      assert Quiet(c.p, !to, sda, 1, self) == d.p;
      HoldSteady(e, to, sda, n - 2, self);
    }
  }

  lemma {:induction false} HoldSdaEdge(c: Core, scl: bool, to: bool, k: nat, n: nat, self: Byte)
    requires k <= 9 && n >= 11 - k
    requires c.sda == Deglitch(Level(!to), k) && c.scl == Deglitch(Level(scl), 0)
    ensures var e := NextProto(Quiet(c.p, scl, !to, 10 - k, self), Level(scl), Edge(to), self);
            Hold(c, Sample(scl, to), n, self)
            == Core(c.scl, Deglitch(Level(to), 0), Quiet(e, scl, to, n - (11 - k), self))
    decreases n
  {
    hide NextProto;
    var d := CoreStep(c, Sample(scl, to), self);
    if k < 9 {
      HoldSdaEdge(d, scl, to, k + 1, n - 1, self);
    } else {
      var e := CoreStep(d, Sample(scl, to), self);
      assert Quiet(c.p, scl, !to, 1, self) == d.p;
      HoldSteady(e, scl, to, n - 2, self);
    }
  }

  // ---- Segments as transitions between rest states ----

  lemma SclEdge(c: Core, to: bool, sda: bool, q: Proto, r: Proto, n: nat, self: Byte)
    requires At(c, !to, sda, q, self) && n >= 11
    requires Settles(NextProto(q, Edge(to), Level(sda), self), r, to, sda, self)
    ensures At(Hold(c, Sample(to, sda), n, self), to, sda, r, self)
  {
    hide NextProto, Settles;
    SettlesOn(c.p, q, !to, sda, 10, self);
    HoldSclEdge(c, to, sda, 0, n, self);
    SettlesOn(NextProto(q, Edge(to), Level(sda), self), r, to, sda, n - 11, self);
  }

  lemma SdaEdge(c: Core, scl: bool, to: bool, q: Proto, r: Proto, n: nat, self: Byte)
    requires At(c, scl, !to, q, self) && n >= 11
    requires Settles(NextProto(q, Level(scl), Edge(to), self), r, scl, to, self)
    ensures At(Hold(c, Sample(scl, to), n, self), scl, to, r, self)
  {
    hide NextProto, Settles;
    SettlesOn(c.p, q, scl, !to, 10, self);
    HoldSdaEdge(c, scl, to, 0, n, self);
    SettlesOn(NextProto(q, Level(scl), Edge(to), self), r, scl, to, n - 11, self);
  }

  lemma NoEdge(c: Core, scl: bool, sda: bool, q: Proto, n: nat, self: Byte)
    requires At(c, scl, sda, q, self)
    ensures At(Hold(c, Sample(scl, sda), n, self), scl, sda, q, self)
  {
    hide NextProto, Settles;
    HoldSteady(c, scl, sda, n, self);
    SettlesOn(c.p, q, scl, sda, n, self);
  }

  // ---- Bits, as transitions between rest states ----

  // The rest states a transaction passes through.
  ghost predicate Rested(q: Proto) {
    match q.state
    case Daddr => q.wdata == 0 && q.rdata == 0 && !q.update && !q.aksv14
    case AckDaddr => q.bitcnt == 0 && q.wdata == 0 && q.rdata == q.bank[q.addr % 32] && !q.update && !q.aksv14
    case Addr => q.wdata == 0 && q.rdata == 0 && !q.update && !q.aksv14
    case AckAddr => q.bitcnt == 0 && q.wdata == 0 && q.rdata == q.bank[q.addr % 32] && !q.update && !q.aksv14
    case WrData => !q.update && !q.aksv14
    case AckWr => q.bitcnt == 0 && q.update && q.aksv14 == (q.addr == 0x14)
                  && (q.addr < 0x20 ==> q.bank[q.addr] == q.wdata)
    case RdData => q.wdata == q.rdata && !q.update && !q.aksv14
    case AckRd => q.bitcnt == 0 && q.wdata == q.rdata && q.update && !q.aksv14
                  && (q.addr < 5 ==> q.bank[q.addr] == q.wdata)
    case EndRd2 => q.bitcnt == 0 && q.daddr == 0 && !q.update && !q.aksv14
    case WaitStop => q.bitcnt == 0 && q.daddr == 0 && !q.update && !q.aksv14
    case Start => q == Idle(q.addr, q.strobes, q.bank)
    case _ => false
  }

  // Waiting for a start condition.
  function Idle(addr: Byte, strobes: nat, bank: Bank): Proto {
    Proto(Start, 0, addr, 0, 0, 0, false, false, strobes, bank)
  }

  function AfterRise(q: Proto, bit: bool): Proto {
    match q.state
    case Daddr => q.(bitcnt := (q.bitcnt + 1) % 16, daddr := Shift(q.daddr, bit))
    case Addr => q.(bitcnt := (q.bitcnt + 1) % 16, addr := Shift(q.addr, bit))
    case WrData => q.(bitcnt := (q.bitcnt + 1) % 16, wdata := Shift(q.wdata, bit))
    case RdData => q.(bitcnt := (q.bitcnt + 1) % 16, wdata := Shift(q.rdata, bit), rdata := Shift(q.rdata, bit))
    case AckRd => if bit then Idle(Successor(q.addr), q.strobes, q.bank)
                  else q.(state := EndRd2, addr := Successor(q.addr), daddr := 0, update := false)
    case _ => q
  }

  // One more written byte in the bank; one more byte seen in a read.
  function Stored(bank: Bank, addr: Byte, v: Byte): Bank {
    if addr < 0x20 then bank[addr := v] else bank
  }

  function Noted(bank: Bank, addr: Byte, v: Byte): Bank {
    if addr < 5 then bank[addr := v] else bank
  }

  function AfterFall(q: Proto, self: Byte): Proto {
    match q.state
    case Daddr => if q.bitcnt > 7 then q.(state := AckDaddr, bitcnt := 0, rdata := q.bank[q.addr % 32]) else q
    case AckDaddr =>
      if q.daddr / 2 != self / 2 then q.(state := WaitStop, daddr := 0)
      else if q.daddr % 2 == 0 then q.(state := Addr, rdata := 0)
      else q.(state := RdData, wdata := q.rdata)
    case Addr => if q.bitcnt > 7 then q.(state := AckAddr, bitcnt := 0, rdata := q.bank[q.addr % 32]) else q
    case AckAddr => q.(state := WrData)
    case WrData =>
      if q.bitcnt > 7 then
        q.(state := AckWr, bitcnt := 0, update := true, bank := Stored(q.bank, q.addr, q.wdata),
           aksv14 := q.addr == 0x14, strobes := q.strobes + if q.addr == 0x14 then 1 else 0)
      else q
    case AckWr => q.(state := WrData, addr := Successor(q.addr), wdata := 0, update := false, aksv14 := false)
    case RdData => if q.bitcnt > 7 then q.(state := AckRd, bitcnt := 0, update := true, bank := Noted(q.bank, q.addr, q.rdata)) else q
    case EndRd2 => q.(state := RdData, wdata := q.rdata)
    case _ => q
  }

  lemma RestedIsAtRest(q: Proto, line: Line, scl: bool, self: Byte)
    requires Rested(q) && (scl ==> line in {High, Low})
    ensures NextProto(q, Level(scl), line, self) == q
  {
  }

  lemma RestedSettles(q: Proto, scl: bool, sda: bool, self: Byte)
    requires Rested(q)
    ensures Settles(q, q, scl, sda, self)
  {
    hide NextProto, Rested;
    RestedIsAtRest(q, Level(sda), scl, self);
    RestIsKept(q, scl, sda, 3, self);
  }

  lemma Unroll(p: Proto, scl: bool, sda: bool, self: Byte)
    ensures var n := NextProto(p, Level(scl), Level(sda), self);
            var m := NextProto(n, Level(scl), Level(sda), self);
            Quiet(p, scl, sda, 3, self) == NextProto(m, Level(scl), Level(sda), self)
  {
    hide NextProto;
    var n := NextProto(p, Level(scl), Level(sda), self);
    assert Quiet(n, scl, sda, 2, self) == Quiet(NextProto(n, Level(scl), Level(sda), self), scl, sda, 1, self);
  }

  lemma RiseSettles(q: Proto, bit: bool, self: Byte)
    requires Rested(q)
    ensures Rested(AfterRise(q, bit))
    ensures Settles(NextProto(q, Rise, Level(bit), self), AfterRise(q, bit), true, bit, self)
  {
    hide NextProto, AfterRise, Settles;
    if q.state in {RdData, AckRd} {
      RiseSettlesRead(q, bit, self);
    } else {
      RiseIsImmediate(q, bit, self);
      RestedSettles(AfterRise(q, bit), true, bit, self);
    }
  }

  lemma RiseSettlesRead(q: Proto, bit: bool, self: Byte)
    requires Rested(q) && q.state in {RdData, AckRd}
    ensures Rested(AfterRise(q, bit))
    ensures Settles(NextProto(q, Rise, Level(bit), self), AfterRise(q, bit), true, bit, self)
  {
    Unroll(NextProto(q, Rise, Level(bit), self), true, bit, self);
  }

  lemma RiseIsImmediate(q: Proto, bit: bool, self: Byte)
    requires Rested(q) && q.state !in {RdData, AckRd}
    ensures Rested(AfterRise(q, bit)) && NextProto(q, Rise, Level(bit), self) == AfterRise(q, bit)
  {
  }

  lemma FallSettlesWrData(q: Proto, sda: bool, self: Byte)
    requires Rested(q) && q.state == WrData
    ensures Rested(AfterFall(q, self))
    ensures Settles(NextProto(q, Fall, Level(sda), self), AfterFall(q, self), false, sda, self)
  {
    Unroll(NextProto(q, Fall, Level(sda), self), false, sda, self);
  }

  lemma FallSettlesAckWr(q: Proto, sda: bool, self: Byte)
    requires Rested(q) && q.state == AckWr
    ensures Rested(AfterFall(q, self))
    ensures Settles(NextProto(q, Fall, Level(sda), self), AfterFall(q, self), false, sda, self)
  {
    Unroll(NextProto(q, Fall, Level(sda), self), false, sda, self);
  }

  lemma FallSettlesRdData(q: Proto, sda: bool, self: Byte)
    requires Rested(q) && q.state == RdData
    ensures Rested(AfterFall(q, self))
    ensures Settles(NextProto(q, Fall, Level(sda), self), AfterFall(q, self), false, sda, self)
  {
    Unroll(NextProto(q, Fall, Level(sda), self), false, sda, self);
  }

  lemma FallSettlesRead(q: Proto, sda: bool, self: Byte)
    requires Rested(q) && q.state in {AckRd, EndRd2, Start}
    ensures Rested(AfterFall(q, self))
    ensures Settles(NextProto(q, Fall, Level(sda), self), AfterFall(q, self), false, sda, self)
  {
    Unroll(NextProto(q, Fall, Level(sda), self), false, sda, self);
  }

  lemma FallSettlesDaddr(q: Proto, sda: bool, self: Byte)
    requires Rested(q) && q.state == Daddr
    ensures Rested(AfterFall(q, self))
    ensures Settles(NextProto(q, Fall, Level(sda), self), AfterFall(q, self), false, sda, self)
  {
    Unroll(NextProto(q, Fall, Level(sda), self), false, sda, self);
  }

  lemma FallSettlesAckDaddr(q: Proto, sda: bool, self: Byte)
    requires Rested(q) && q.state == AckDaddr
    ensures Rested(AfterFall(q, self))
    ensures Settles(NextProto(q, Fall, Level(sda), self), AfterFall(q, self), false, sda, self)
  {
    Unroll(NextProto(q, Fall, Level(sda), self), false, sda, self);
  }

  lemma FallSettlesAddress(q: Proto, sda: bool, self: Byte)
    requires Rested(q) && q.state in {Addr, AckAddr, WaitStop}
    ensures Rested(AfterFall(q, self))
    ensures Settles(NextProto(q, Fall, Level(sda), self), AfterFall(q, self), false, sda, self)
  {
    Unroll(NextProto(q, Fall, Level(sda), self), false, sda, self);
  }

  lemma FallSettles(q: Proto, sda: bool, self: Byte)
    requires Rested(q)
    ensures Rested(AfterFall(q, self))
    ensures Settles(NextProto(q, Fall, Level(sda), self), AfterFall(q, self), false, sda, self)
  {
    hide Settles, NextProto, AfterFall;
    match q.state
    case WrData => FallSettlesWrData(q, sda, self);
    case AckWr => FallSettlesAckWr(q, sda, self);
    case RdData => FallSettlesRdData(q, sda, self);
    case Daddr => FallSettlesDaddr(q, sda, self);
    case AckDaddr => FallSettlesAckDaddr(q, sda, self);
    case AckRd => FallSettlesRead(q, sda, self);
    case EndRd2 => FallSettlesRead(q, sda, self);
    case Start => FallSettlesRead(q, sda, self);
    case _ => FallSettlesAddress(q, sda, self);
  }

  function OnBit(q: Proto, bit: bool, self: Byte): Proto {
    AfterFall(AfterRise(q, bit), self)
  }

  ghost function OnBits(q: Proto, bits: seq<bool>, self: Byte): Proto {
    if bits == [] then q else OnBit(OnBits(q, bits[..|bits| - 1], self), bits[|bits| - 1], self)
  }

  ghost function Play(c: Core, w: seq<Segment>, self: Byte): Core {
    if w == [] then c
    else
      var s := w[|w| - 1];
      Hold(Play(c, w[..|w| - 1], self), Sample(s.scl, s.sda), s.len, self)
  }

  lemma {:induction false} PlayConcat(c: Core, v: seq<Segment>, w: seq<Segment>, self: Byte)
    ensures Play(c, v + w, self) == Play(Play(c, v, self), w, self)
  {
    if w == [] {
      assert v + w == v;
    } else {
      assert (v + w)[..|v + w| - 1] == v + w[..|w| - 1];
      PlayConcat(c, v, w[..|w| - 1], self);
    }
  }

  // Long enough for the filter to settle on every level.
  predicate Held(s: Segment, scl: bool, sda: bool) {
    s.scl == scl && s.sda == sda && s.len >= 11
  }

  // One bit: SDA is set while SCL is low, then SCL pulses.
  predicate IsBit(w: seq<Segment>, bit: bool) {
    |w| == 3 && Held(w[0], false, bit) && Held(w[1], true, bit) && Held(w[2], false, bit)
  }

  lemma BitPlays(c: Core, q: Proto, sda: bool, bit: bool, w: seq<Segment>, self: Byte)
    requires At(c, false, sda, q, self) && Rested(q) && IsBit(w, bit)
    ensures At(Play(c, w, self), false, bit, OnBit(q, bit, self), self) && Rested(OnBit(q, bit, self))
  {
    hide NextProto, At, Settles, Rested, AfterFall, AfterRise, Hold;
    var c1 := Hold(c, Sample(false, bit), w[0].len, self);
    RestedSettles(q, false, bit, self);
    if sda == bit {
      NoEdge(c, false, bit, q, w[0].len, self);
    } else {
      RestedIsAtRest(q, Edge(bit), false, self);
      SdaEdge(c, false, bit, q, q, w[0].len, self);
    }
    var c2 := Hold(c1, Sample(true, bit), w[1].len, self);
    var r := AfterRise(q, bit);
    RiseSettles(q, bit, self);
    SclEdge(c1, true, bit, q, r, w[1].len, self);
    FallSettles(r, bit, self);
    SclEdge(c2, false, bit, r, OnBit(q, bit, self), w[2].len, self);
    assert w[..2][..1] == [w[0]] && [w[0]][..0] == [];
    assert Play(c, [], self) == c;
    assert Play(c, w[..1], self) == c1 by { assert w[..1][..0] == []; }
    assert Play(c, w[..2], self) == c2 by { assert w[..2][..1] == w[..1]; }
  }

  ghost predicate AreBits(w: seq<Segment>, bits: seq<bool>) {
    if bits == [] then w == []
    else |w| >= 3 && IsBit(w[|w| - 3..], bits[|bits| - 1]) && AreBits(w[..|w| - 3], bits[..|bits| - 1])
  }

  function LastBit(bits: seq<bool>, sda: bool): bool {
    if bits == [] then sda else bits[|bits| - 1]
  }

  lemma {:induction false} BitsPlay(c: Core, q: Proto, sda: bool, bits: seq<bool>, w: seq<Segment>, self: Byte)
    requires At(c, false, sda, q, self) && Rested(q) && AreBits(w, bits)
    ensures At(Play(c, w, self), false, LastBit(bits, sda), OnBits(q, bits, self), self)
    ensures Rested(OnBits(q, bits, self))
    decreases |bits|
  {
    hide At, Rested, OnBit;
    if bits != [] {
      var k, init := |w| - 3, bits[..|bits| - 1];
      BitsPlay(c, q, sda, init, w[..k], self);
      BitPlays(Play(c, w[..k], self), OnBits(q, init, self), LastBit(init, sda), bits[|bits| - 1], w[k..], self);
      PlayConcat(c, w[..k], w[k..], self);
      assert w[..k] + w[k..] == w;
    }
  }

  lemma {:induction false} OnBitsConcat(q: Proto, a: seq<bool>, b: seq<bool>, self: Byte)
    ensures OnBits(q, a + b, self) == OnBits(OnBits(q, a, self), b, self)
  {
    hide OnBit;
    if b == [] {
      assert a + b == a;
    } else {
      assert (a + b)[..|a + b| - 1] == a + b[..|b| - 1];
      OnBitsConcat(q, a, b[..|b| - 1], self);
    }
  }

  // ---- Bytes ----

  // The n leading bits of x, as a number.
  function Top(x: Byte, n: nat): nat
    decreases 8 - n
  {
    if n >= 8 then x else Top(x, n + 1) / 2
  }

  // Bit n in the order of transmission: the most significant bit comes first.
  function BitAt(x: Byte, n: nat): bool {
    Top(x, n + 1) % 2 == 1
  }

  function BitsOf(x: Byte): seq<bool> {
    seq(8, n requires 0 <= n < 8 => BitAt(x, n))
  }

  ghost function ShiftAll(v: Byte, bits: seq<bool>): Byte {
    if bits == [] then v else Shift(ShiftAll(v, bits[..|bits| - 1]), bits[|bits| - 1])
  }

  lemma ShiftWraps(y: nat, bit: bool)
    ensures Shift(y % 256, bit) == (2 * y + if bit then 1 else 0) % 256
  {
    var b := if bit then 1 else 0;
    assert y == 256 * (y / 256) + y % 256;
    Multiples(2 * (y % 256) + b, 2 * (y / 256));
  }

  lemma Multiples(a: nat, k: nat)
    ensures (a + 256 * k) % 256 == a % 256
  {
  }

  ghost function Scaled(v: Byte, n: nat): nat {
    if n == 0 then v else 2 * Scaled(v, n - 1)
  }

  lemma {:induction false} ShiftPrefix(v: Byte, x: Byte, n: nat)
    requires n <= 8
    ensures ShiftAll(v, BitsOf(x)[..n]) == (Scaled(v, n) + Top(x, n)) % 256
  {
    hide Shift;
    if n == 0 {
      TopVanishes(x);
    } else {
      assert BitsOf(x)[..n][..n - 1] == BitsOf(x)[..n - 1];
      ShiftPrefix(v, x, n - 1);
      ShiftWraps(Scaled(v, n - 1) + Top(x, n - 1), BitAt(x, n - 1));
    }
  }

  lemma TopVanishes(x: Byte)
    ensures Top(x, 0) == 0
  {
    assert Top(x, 7) < 128 && Top(x, 6) < 64 && Top(x, 5) < 32 && Top(x, 4) < 16;
    assert Top(x, 3) < 8 && Top(x, 2) < 4 && Top(x, 1) < 2;
  }

  lemma ScaledByte(v: Byte)
    ensures Scaled(v, 8) == 256 * v
  {
    assert Scaled(v, 1) == 2 * v && Scaled(v, 2) == 4 * v && Scaled(v, 3) == 8 * v && Scaled(v, 4) == 16 * v;
    assert Scaled(v, 5) == 32 * v && Scaled(v, 6) == 64 * v && Scaled(v, 7) == 128 * v;
  }

  // Shifting in the bits of a byte gives the byte, whatever was there before.
  lemma ShiftInByte(v: Byte, x: Byte)
    ensures ShiftAll(v, BitsOf(x)) == x
  {
    hide Shift, ShiftAll, Scaled;
    ShiftPrefix(v, x, 8);
    ScaledByte(v);
    assert BitsOf(x)[..8] == BitsOf(x);
  }

  // Up to eight bits go into the register that the state is filling.
  ghost function Filled(q: Proto, bits: seq<bool>): Proto
    requires |bits| <= 8
  {
    var p := q.(bitcnt := |bits|);
    match q.state
    case Daddr => p.(daddr := ShiftAll(q.daddr, bits))
    case Addr => p.(addr := ShiftAll(q.addr, bits))
    case RdData => p.(wdata := ShiftAll(q.rdata, bits), rdata := ShiftAll(q.rdata, bits))
    case _ => p.(wdata := ShiftAll(q.wdata, bits))
  }

  lemma FilledStep(q: Proto, bits: seq<bool>, self: Byte)
    requires q.state in {Daddr, Addr, WrData, RdData} && 0 < |bits| <= 8
    ensures var p := Filled(q, bits[..|bits| - 1]);
            AfterRise(p, bits[|bits| - 1]) == Filled(q, bits)
            && (|bits| < 8 ==> AfterFall(Filled(q, bits), self) == Filled(q, bits))
  {
    hide Shift;
  }

  lemma {:induction false} BitsFill(q: Proto, bits: seq<bool>, self: Byte)
    requires q.state in {Daddr, Addr, WrData, RdData} && Rested(q) && q.bitcnt == 0 && |bits| <= 8
    ensures OnBits(q, bits, self) == if |bits| < 8 then Filled(q, bits) else AfterFall(Filled(q, bits), self)
  {
    hide AfterFall, AfterRise, Filled, Rested;
    if bits == [] {
      assert Filled(q, []) == q by { FilledNone(q); }
    } else {
      BitsFill(q, bits[..|bits| - 1], self);
      FilledStep(q, bits, self);
    }
  }

  lemma FilledNone(q: Proto)
    requires q.bitcnt == 0 && Rested(q)
    ensures Filled(q, []) == q
  {
  }

  // What one byte and its acknowledge bit, low when taken, do.
  function OnByte(q: Proto, x: Byte, ack: bool, self: Byte): Proto {
    match q.state
    case Daddr =>
      var v := q.bank[q.addr % 32];
      if x / 2 != self / 2 then q.(state := WaitStop, rdata := v)
      else if x % 2 == 0 then q.(state := Addr, daddr := x)
      else q.(state := RdData, daddr := x, wdata := v, rdata := v)
    case Addr => q.(state := WrData, addr := x, rdata := q.bank[x % 32])
    case WrData => q.(addr := Successor(q.addr), bank := Stored(q.bank, q.addr, x),
                      strobes := q.strobes + if q.addr == 0x14 then 1 else 0)
    case RdData =>
      var bank := Noted(q.bank, q.addr, x);
      if ack then Idle(Successor(q.addr), q.strobes, bank)
      else q.(addr := Successor(q.addr), bank := bank, daddr := 0, wdata := x, rdata := x)
    case _ => q
  }

  ghost predicate AtByte(q: Proto) {
    && Rested(q) && q.state in {Daddr, Addr, WrData, RdData, WaitStop, Start} && q.bitcnt == 0
    && (q.state in {Daddr, Addr, WrData} ==> q.wdata == 0) && (q.state == Daddr ==> q.daddr == 0)
  }

  lemma ByteAct(q: Proto, x: Byte, ack: bool, self: Byte)
    requires AtByte(q)
    ensures |BitsOf(x)| == 8 && OnBits(q, BitsOf(x) + [ack], self) == OnByte(q, x, ack, self)
    ensures AtByte(OnByte(q, x, ack, self)) && OnByte(q, x, ack, self).state != Daddr
  {
    hide Shift, BitsOf, Filled, ShiftAll;
    var bits := BitsOf(x) + [ack];
    BitsOfLength(x);
    assert bits[..8] == BitsOf(x) && bits[8] == ack;
    if q.state in {WaitStop, Start} {
      Ignored(q, bits, self);
    } else {
      FilledByte(q, x);
      BitsFill(q, BitsOf(x), self);
    }
  }

  lemma FilledByte(q: Proto, x: Byte)
    requires q.state in {Daddr, Addr, WrData, RdData}
    ensures |BitsOf(x)| == 8
    ensures Filled(q, BitsOf(x)) ==
            if q.state == Daddr then q.(bitcnt := 8, daddr := x)
            else if q.state == Addr then q.(bitcnt := 8, addr := x)
            else if q.state == RdData then q.(bitcnt := 8, wdata := x, rdata := x)
            else q.(bitcnt := 8, wdata := x)
  {
    hide BitsOf, ShiftAll;
    ShiftInByte(q.daddr, x);
    ShiftInByte(q.addr, x);
    ShiftInByte(q.wdata, x);
    ShiftInByte(q.rdata, x);
    assert |BitsOf(x)| == 8 by { BitsOfLength(x); }
  }

  lemma BitsOfLength(x: Byte)
    ensures |BitsOf(x)| == 8
  {
  }

  // Not addressed, or done with a read: bits change nothing.
  lemma {:induction false} Ignored(q: Proto, bits: seq<bool>, self: Byte)
    requires q.state in {WaitStop, Start}
    ensures OnBits(q, bits, self) == q
  {
    if bits != [] {
      Ignored(q, bits[..|bits| - 1], self);
    }
  }

  // The bits of a sequence of bytes, each followed by its acknowledge bit.
  ghost function FrameBits(bytes: seq<Byte>, acks: seq<bool>): seq<bool>
    requires |acks| == |bytes|
  {
    if bytes == [] then []
    else
      var n := |bytes| - 1;
      FrameBits(bytes[..n], acks[..n]) + (BitsOf(bytes[n]) + [acks[n]])
  }

  ghost function OnBytes(q: Proto, bytes: seq<Byte>, acks: seq<bool>, self: Byte): Proto
    requires |acks| == |bytes|
  {
    if bytes == [] then q
    else
      var n := |bytes| - 1;
      OnByte(OnBytes(q, bytes[..n], acks[..n], self), bytes[n], acks[n], self)
  }

  lemma {:induction false} FrameActs(q: Proto, bytes: seq<Byte>, acks: seq<bool>, self: Byte)
    requires |acks| == |bytes| && AtByte(q)
    ensures OnBits(q, FrameBits(bytes, acks), self) == OnBytes(q, bytes, acks, self)
    ensures AtByte(OnBytes(q, bytes, acks, self)) && (bytes != [] ==> OnBytes(q, bytes, acks, self).state != Daddr)
    decreases |bytes|
  {
    hide OnBit, AtByte, BitsOf, OnByte;
    if bytes != [] {
      var k := |bytes| - 1;
      FrameActs(q, bytes[..k], acks[..k], self);
      OnBitsConcat(q, FrameBits(bytes[..k], acks[..k]), BitsOf(bytes[k]) + [acks[k]], self);
      ByteAct(OnBytes(q, bytes[..k], acks[..k], self), bytes[k], acks[k], self);
    }
  }

  // ---- Whole transactions ----

  // What follows a start condition, up to the next one or the stop.
  datatype Transfer = Transfer(bytes: seq<Byte>, acks: seq<bool>)

  type Phase = h: Transfer | |h.acks| == |h.bytes| witness Transfer([], [])

  // A start condition in place of the next bit: SDA goes up, SCL goes up, SDA
  // falls, SCL falls.
  predicate IsRestart(w: seq<Segment>) {
    |w| == 4 && Held(w[0], false, true) && Held(w[1], true, true) && Held(w[2], true, false) && Held(w[3], false, false)
  }

  // The phases of a transaction with repeated starts between them.
  ghost predicate IsBody(w: seq<Segment>, hs: seq<Phase>)
  {
    hs != []
    && var n := |hs| - 1;
       var bits := FrameBits(hs[n].bytes, hs[n].acks);
       var k := |w| - 3 * |bits|;
       k >= 0 && AreBits(w[k..], bits)
       && if n == 0 then k == 0 else k >= 4 && IsRestart(w[k - 4..k]) && IsBody(w[..k - 4], hs[..n])
  }

  // Start condition, phases, stop condition, every level held long enough.
  ghost predicate IsTransaction(w: seq<Segment>, hs: seq<Phase>)
  {
    && |w| >= 5
    && Held(w[0], true, false) && Held(w[1], false, false)
    && IsBody(w[2..|w| - 3], hs)
    && Held(w[|w| - 3], false, false) && Held(w[|w| - 2], true, false) && Held(w[|w| - 1], true, true)
  }

  // After a start condition.
  function Begun(q: Proto): Proto {
    Idle(q.addr, q.strobes, q.bank).(state := Daddr)
  }

  ghost function OnPhases(q: Proto, hs: seq<Phase>, self: Byte): Proto
  {
    if hs == [] then q
    else
      var n := |hs| - 1;
      OnBytes(Begun(OnPhases(q, hs[..n], self)), hs[n].bytes, hs[n].acks, self)
  }

  // Where the machine notices a repeated start: not while it collects an address.
  predicate Noticing(q: Proto) {
    q.state in {WrData, RdData, WaitStop, Start}
  }

  lemma PlayOne(c: Core, s: Segment, self: Byte)
    ensures Play(c, [s], self) == Hold(c, Sample(s.scl, s.sda), s.len, self)
  {
    hide Hold;
    assert [s][..0] == [];
    assert Play(c, [], self) == c;
  }

  lemma BegunIsAtByte(q: Proto)
    ensures AtByte(Begun(q)) && Rested(Begun(q)) && Begun(q).state == Daddr
  {
  }

  lemma StartPlays(c: Core, p: Proto, s: Segment, t: Segment, self: Byte)
    requires p == Idle(p.addr, p.strobes, p.bank) && At(c, true, true, p, self)
    requires Held(s, true, false) && Held(t, false, false)
    ensures At(Play(c, [s, t], self), false, false, Begun(p), self)
  {
    hide At, Settles, Hold, Play;
    var q := Begun(p);
    var c1 := Hold(c, Sample(true, false), s.len, self);
    RestedSettles(q, true, false, self);
    SdaEdge(c, true, false, p, q, s.len, self);
    FallSettles(q, false, self);
    SclEdge(c1, false, false, q, q, t.len, self);
    PlayConcat(c, [s], [t], self);
    assert [s] + [t] == [s, t];
    PlayOne(c, s, self);
    PlayOne(c1, t, self);
  }

  lemma RestartSettles(q: Proto, self: Byte)
    requires Rested(q) && Noticing(q)
    ensures Settles(NextProto(q, High, Fall, self), Begun(q), true, false, self)
  {
    Unroll(NextProto(q, High, Fall, self), true, false, self);
  }

  lemma AfterRiseNoticing(q: Proto, bit: bool)
    requires Noticing(q)
    ensures Noticing(AfterRise(q, bit)) && Begun(AfterRise(q, bit)) == Begun(q)
  {
  }

  // A repeated start begins a new phase if and only if it does not come straight
  // after the start condition or the device address of a write.
  lemma RestartIsNoticedIff(q: Proto, self: Byte)
    requires AtByte(q)
    ensures Settles(NextProto(AfterRise(q, true), High, Fall, self), Begun(q), true, false, self) <==> Noticing(q)
  {
    hide Shift;
    if Noticing(q) {
      RiseSettles(q, true, self);
      AfterRiseNoticing(q, true);
      RestartSettles(AfterRise(q, true), self);
    } else {
      StaysCounting(AfterRise(q, true), self);
    }
  }

  lemma StaysCounting(q: Proto, self: Byte)
    requires q.state in {Daddr, Addr} && q.bitcnt == 1
    ensures Quiet(NextProto(q, High, Fall, self), true, false, 3, self).bitcnt == 1
  {
    Unroll(NextProto(q, High, Fall, self), true, false, self);
  }

  lemma RestartPlays(c: Core, q: Proto, sda: bool, w: seq<Segment>, self: Byte)
    requires At(c, false, sda, q, self) && Rested(q) && Noticing(q) && IsRestart(w)
    ensures At(Play(c, w, self), false, false, Begun(q), self)
  {
    hide At, Settles, Hold, Play, NextProto, Rested, AfterRise, Begun;
    var c1 := Hold(c, Sample(false, true), w[0].len, self);
    if sda {
      NoEdge(c, false, true, q, w[0].len, self);
    } else {
      RestedIsAtRest(q, Rise, false, self);
      RestedSettles(q, false, true, self);
      SdaEdge(c, false, true, q, q, w[0].len, self);
    }
    var c2, p := Hold(c1, Sample(true, true), w[1].len, self), AfterRise(q, true);
    RiseSettles(q, true, self);
    SclEdge(c1, true, true, q, p, w[1].len, self);
    AfterRiseNoticing(q, true);
    RestartSettles(p, self);
    BegunIsAtByte(q);
    var c3 := Hold(c2, Sample(true, false), w[2].len, self);
    SdaEdge(c2, true, false, p, Begun(q), w[2].len, self);
    FallSettles(Begun(q), false, self);
    BegunFalls(q, self);
    SclEdge(c3, false, false, Begun(q), Begun(q), w[3].len, self);
    PlayFour(c, w, self);
  }

  lemma BegunFalls(q: Proto, self: Byte)
    ensures AfterFall(Begun(q), self) == Begun(q)
  {
  }

  lemma PlayFour(c: Core, w: seq<Segment>, self: Byte)
    requires |w| == 4
    ensures var c1 := Hold(c, Sample(w[0].scl, w[0].sda), w[0].len, self);
            var c2 := Hold(c1, Sample(w[1].scl, w[1].sda), w[1].len, self);
            var c3 := Hold(c2, Sample(w[2].scl, w[2].sda), w[2].len, self);
            Play(c, w, self) == Hold(c3, Sample(w[3].scl, w[3].sda), w[3].len, self)
  {
    hide Hold;
    assert w[..0] == [] && Play(c, w[..0], self) == c;
    assert w[..1][..0] == w[..0] && w[..2][..1] == w[..1] && w[..3][..2] == w[..2];
    assert Play(c, w[..1], self) == Hold(c, Sample(w[0].scl, w[0].sda), w[0].len, self);
    assert Play(c, w[..2], self) == Hold(Play(c, w[..1], self), Sample(w[1].scl, w[1].sda), w[1].len, self);
    assert Play(c, w[..3], self) == Hold(Play(c, w[..2], self), Sample(w[2].scl, w[2].sda), w[2].len, self);
  }

  // After the stop condition the machine is idle again. The bank stays; the
  // register address too, unless the stop's own rise of SCL shifted it.
  lemma StopSettles(q: Proto, self: Byte)
    requires Rested(q) && q.state !in {AckWr, AckRd}
    ensures Settles(NextProto(q, High, Rise, self), Idle(q.addr, q.strobes, q.bank), true, true, self)
  {
    Unroll(NextProto(q, High, Rise, self), true, true, self);
  }

  lemma AfterRiseAtByte(q: Proto)
    requires AtByte(q)
    ensures var p := AfterRise(q, false);
            p.state !in {AckWr, AckRd} && p.strobes == q.strobes && p.bank == q.bank
            && p.addr == if q.state == Addr then Shift(q.addr, false) else q.addr
  {
  }

  lemma StopPlays(c: Core, q: Proto, sda: bool, r: Segment, s: Segment, t: Segment, self: Byte)
    requires At(c, false, sda, q, self) && AtByte(q)
    requires Held(r, false, false) && Held(s, true, false) && Held(t, true, true)
    ensures At(Play(c, [r, s, t], self), true, true, Stopped(q), self)
  {
    hide At, Settles, Hold, Play, NextProto, Rested, AfterRise, AtByte, Shift;
    assert Rested(q) by { AtByteIsRested(q); }
    var c1 := Hold(c, Sample(false, false), r.len, self);
    if sda {
      RestedIsAtRest(q, Fall, false, self);
      RestedSettles(q, false, false, self);
      SdaEdge(c, false, false, q, q, r.len, self);
    } else {
      NoEdge(c, false, false, q, r.len, self);
    }
    var c2, p := Hold(c1, Sample(true, false), s.len, self), AfterRise(q, false);
    RiseSettles(q, false, self);
    SclEdge(c1, true, false, q, p, s.len, self);
    AfterRiseAtByte(q);
    StopSettles(p, self);
    SdaEdge(c2, true, true, p, Stopped(q), t.len, self);
    PlayConcat(c, [r], [s], self);
    PlayConcat(c, [r] + [s], [t], self);
    assert [r] + [s] + [t] == [r, s, t];
    PlayOne(c, r, self);
    PlayOne(c1, s, self);
    PlayOne(c2, t, self);
  }

  // Idle after a stop condition in q.
  function Stopped(q: Proto): Proto {
    Idle(if q.state == Addr then Shift(q.addr, false) else q.addr, q.strobes, q.bank)
  }

  lemma AtByteIsRested(q: Proto)
    requires AtByte(q)
    ensures Rested(q)
  {
  }

  // Every phase but the last ends where a repeated start is noticed.
  ghost predicate Restartable(q: Proto, hs: seq<Phase>, self: Byte)
  {
    forall n | 0 < n < |hs| :: Noticing(OnPhases(q, hs[..n], self))
  }

  lemma {:induction false} BodyPlays(c: Core, q: Proto, w: seq<Segment>, hs: seq<Phase>, self: Byte) returns (sda: bool)
    requires IsBody(w, hs) && Restartable(q, hs, self)
    requires At(c, false, false, Begun(q), self)
    ensures At(Play(c, w, self), false, sda, OnPhases(q, hs, self), self) && AtByte(OnPhases(q, hs, self))
    decreases |hs|
  {
    hide At, Play, Held, OnByte, AtByte, OnBits, AreBits, Begun, IsRestart, FrameBits, OnBytes;
    var n := |hs| - 1;
    var last := hs[n];
    assert last in hs;
    var bits := FrameBits(last.bytes, last.acks);
    var k := |w| - 3 * |bits|;
    var p := OnPhases(q, hs[..n], self);
    if n > 0 {
      assert forall x | 0 < x < n :: hs[..n][..x] == hs[..x];
      var s := BodyPlays(c, q, w[..k - 4], hs[..n], self);
      AtByteIsRested(p);
      RestartPlays(Play(c, w[..k - 4], self), p, s, w[k - 4..k], self);
      PlayConcat(c, w[..k - 4], w[k - 4..k], self);
      assert w[..k - 4] + w[k - 4..k] == w[..k];
    } else {
      assert w[..k] == [] && hs[..0] == [];
      PlayNothing(c, self);
    }
    assert At(Play(c, w[..k], self), false, false, Begun(p), self);
    BegunIsAtByte(p);
    FrameActs(Begun(p), last.bytes, last.acks, self);
    BitsPlay(Play(c, w[..k], self), Begun(p), false, bits, w[k..], self);
    PlayConcat(c, w[..k], w[k..], self);
    assert w[..k] + w[k..] == w;
    sda := LastBit(bits, false);
  }

  lemma PlayNothing(c: Core, self: Byte)
    ensures Play(c, [], self) == c
  {
  }

  // From idle through any transaction back to idle.
  lemma TransactionPlays(c: Core, p: Proto, w: seq<Segment>, hs: seq<Phase>, self: Byte)
    requires p == Idle(p.addr, p.strobes, p.bank) && At(c, true, true, p, self)
    requires IsTransaction(w, hs) && Restartable(p, hs, self)
    ensures At(Play(c, w, self), true, true, Stopped(OnPhases(p, hs, self)), self)
  {
    hide At, Play, Held, OnByte, AtByte, IsBody, Begun, OnPhases, Restartable, Stopped;
    var k := |w| - 3;
    StartPlays(c, p, w[0], w[1], self);
    assert w[..2] == [w[0], w[1]];
    var sda := BodyPlays(Play(c, w[..2], self), p, w[2..k], hs, self);
    PlayConcat(c, w[..2], w[2..k], self);
    assert w[..2] + w[2..k] == w[..k];
    StopPlays(Play(c, w[..k], self), OnPhases(p, hs, self), sda, w[k], w[k + 1], w[k + 2], self);
    PlayConcat(c, w[..k], w[k..], self);
    assert w[k..] == [w[k], w[k + 1], w[k + 2]] && w[..k] + w[k..] == w;
  }

  // ---- What writes and reads do ----

  // Data byte i goes to address a + i modulo 256, if that lies in the bank.
  ghost function StoreAll(bank: Bank, a: Byte, data: seq<Byte>): Bank {
    if data == [] then bank
    else
      var n := |data| - 1;
      Stored(StoreAll(bank, a, data[..n]), (a + n) % 256, data[n])
  }

  // Byte i of a read is noted at address a + i modulo 256, if that is below 5.
  ghost function NoteAll(bank: Bank, a: Byte, data: seq<Byte>): Bank {
    if data == [] then bank
    else
      var n := |data| - 1;
      Noted(NoteAll(bank, a, data[..n]), (a + n) % 256, data[n])
  }

  // Up to a full turn of the address counter, the address x of the bank holds
  // the one byte sent to it, if there was one.
  lemma {:induction false} StoreAllAt(bank: Bank, a: Byte, data: seq<Byte>, x: nat)
    requires |data| <= 256 && x < 32
    ensures StoreAll(bank, a, data)[x] == var i := (256 + x - a) % 256; if i < |data| then data[i] else bank[x]
  {
    if data != [] {
      StoreAllAt(bank, a, data[..|data| - 1], x);
      AddressesMeet(a, |data| - 1, x);
    }
  }

  // A read leaves all but the first five registers alone.
  lemma {:induction false} NoteAllAt(bank: Bank, a: Byte, data: seq<Byte>, x: nat)
    requires |data| <= 256 && x < 32
    ensures NoteAll(bank, a, data)[x] == var i := (256 + x - a) % 256; if x < 5 && i < |data| then data[i] else bank[x]
  {
    if data != [] {
      NoteAllAt(bank, a, data[..|data| - 1], x);
      AddressesMeet(a, |data| - 1, x);
    }
  }

  lemma AddressesMeet(a: Byte, n: nat, x: nat)
    requires n < 256 && x < 256
    ensures (a + n) % 256 == x <==> n == (256 + x - a) % 256
  {
  }

  // How many of n bytes written from address a on go to address 0x14.
  ghost function Hits(a: Byte, n: nat): nat {
    if n == 0 then 0 else Hits(a, n - 1) + if (a + (n - 1)) % 256 == 0x14 then 1 else 0
  }

  lemma {:induction false} DataActs(q: Proto, data: seq<Byte>, acks: seq<bool>, self: Byte)
    requires q.state == WrData && |acks| == |data|
    ensures OnBytes(q, data, acks, self) ==
            q.(addr := (q.addr + |data|) % 256, bank := StoreAll(q.bank, q.addr, data),
               strobes := q.strobes + Hits(q.addr, |data|))
    decreases |data|
  {
    hide Stored, Successor;
    if data != [] {
      DataActs(q, data[..|data| - 1], acks[..|data| - 1], self);
      SuccessorWraps(q.addr, |data| - 1);
    }
  }

  // The master takes every byte but the last one, which it may refuse.
  predicate Taken(acks: seq<bool>) {
    forall n | 0 <= n < |acks| - 1 :: !acks[n]
  }

  lemma {:induction false} ReadActs(q: Proto, data: seq<Byte>, acks: seq<bool>, self: Byte)
    requires q.state == RdData && |acks| == |data| && Taken(acks)
    ensures var r := OnBytes(q, data, acks, self);
            && r.addr == (q.addr + |data|) % 256 && r.bank == NoteAll(q.bank, q.addr, data) && r.strobes == q.strobes
            && r.state == if data != [] && acks[|data| - 1] then Start else RdData
    decreases |data|
  {
    hide Noted, Successor;
    if data != [] {
      var n := |data| - 1;
      ReadActs(q, data[..n], acks[..n], self);
      SuccessorWraps(q.addr, n);
    }
  }

  lemma SuccessorWraps(a: Byte, n: nat)
    ensures Successor((a + n) % 256) == (a + n + 1) % 256
  {
  }

  lemma {:induction false} OnBytesConcat(q: Proto, a: seq<Byte>, b: seq<Byte>, ka: seq<bool>, kb: seq<bool>, self: Byte)
    requires |ka| == |a| && |kb| == |b|
    ensures OnBytes(q, a + b, ka + kb, self) == OnBytes(OnBytes(q, a, ka, self), b, kb, self)
    decreases |b|
  {
    hide OnByte;
    if b == [] {
      assert a + b == a && ka + kb == ka;
    } else {
      var n := |b| - 1;
      assert (a + b)[..|a + b| - 1] == a + b[..n] && (ka + kb)[..|a + b| - 1] == ka + kb[..n];
      OnBytesConcat(q, a, b[..n], ka, kb[..n], self);
    }
  }

  lemma OneByte(q: Proto, d: Byte, k: bool, self: Byte)
    ensures OnBytes(q, [d], [k], self) == OnByte(q, d, k, self)
  {
    hide OnByte;
    assert [d][..0] == [] && [k][..0] == [];
    assert OnBytes(q, [], [], self) == q;
  }

  // Device and register address.
  lemma HeaderActs(q: Proto, d: Byte, a: Byte, acks: seq<bool>, self: Byte)
    requires |acks| == 2
    ensures OnBytes(q, [d, a], acks, self) == OnByte(OnByte(q, d, acks[0], self), a, acks[1], self)
  {
    hide OnByte;
    OneByte(q, d, acks[0], self);
    assert [d, a][..1] == [d] && acks[..1] == [acks[0]];
  }

  // ---- The same for samples ----

  // The samples of a waveform.
  ghost function Samples(w: seq<Segment>): seq<Sample> {
    if w == [] then []
    else
      var s := w[|w| - 1];
      Samples(w[..|w| - 1]) + seq(s.len, _ => Sample(s.scl, s.sda))
  }

  lemma {:induction false} CoreRunConcat(c: Core, v: seq<Sample>, w: seq<Sample>, self: Byte)
    ensures CoreRun(c, v + w, self) == CoreRun(CoreRun(c, v, self), w, self)
    decreases |v|
  {
    hide CoreStep;
    if v == [] {
      assert v + w == w;
    } else {
      assert (v + w)[1..] == v[1..] + w;
      CoreRunConcat(CoreStep(c, v[0], self), v[1..], w, self);
    }
  }

  lemma {:induction false} HoldIsRun(c: Core, s: Sample, n: nat, self: Byte)
    ensures CoreRun(c, seq(n, _ => s), self) == Hold(c, s, n, self)
    decreases n
  {
    hide CoreStep;
    if n > 0 {
      assert seq(n, _ => s)[1..] == seq(n - 1, _ => s);
      HoldIsRun(CoreStep(c, s, self), s, n - 1, self);
    }
  }

  lemma {:induction false} PlayIsRun(c: Core, w: seq<Segment>, self: Byte)
    ensures CoreRun(c, Samples(w), self) == Play(c, w, self)
  {
    hide CoreRun, Hold;
    if w == [] {
      assert CoreRun(c, [], self) == c by { CoreRunNothing(c, self); }
    } else {
      var s := w[|w| - 1];
      var v := w[..|w| - 1];
      PlayIsRun(c, v, self);
      CoreRunConcat(c, Samples(v), seq(s.len, _ => Sample(s.scl, s.sda)), self);
      HoldIsRun(Play(c, v, self), Sample(s.scl, s.sda), s.len, self);
    }
  }

  lemma CoreRunNothing(c: Core, self: Byte)
    ensures CoreRun(c, [], self) == c
  {
  }

  // Both lines high through the synchronisers and filters, and the protocol
  // machine coming to rest in p.
  ghost predicate BusIdle(n: Snoop, p: Proto, self: Byte) {
    && n.first == Sample(true, true) && n.second == Sample(true, true)
    && p == Idle(p.addr, p.strobes, p.bank) && At(n.core, true, true, p, self)
  }

  // A transaction as the snooper samples it, and two clocks for the synchronisers.
  ghost predicate Sampled(samples: seq<Sample>, hs: seq<Phase>) {
    exists w: seq<Segment> | IsTransaction(w, hs) ::
      samples == Samples(w) + [Sample(true, true), Sample(true, true)]
  }

  lemma SampledPlays(n: Snoop, p: Proto, samples: seq<Sample>, hs: seq<Phase>, self: Byte)
    requires BusIdle(n, p, self) && Sampled(samples, hs) && Restartable(p, hs, self)
    ensures BusIdle(Run(n, samples, self), Stopped(OnPhases(p, hs, self)), self)
  {
    hide At, CoreStep, Play, Hold, Samples, IsTransaction, Restartable, OnPhases, Run;
    var w: seq<Segment> :| IsTransaction(w, hs) && samples == Samples(w) + [Sample(true, true), Sample(true, true)];
    var idle := Sample(true, true);
    NoEdge(n.core, true, true, p, 2, self);
    SynchronisersDelay(n, Samples(w), idle, idle, self);
    HoldIsRun(n.core, idle, 2, self);
    assert seq(2, _ => idle) == [n.second, n.first];
    CoreRunConcat(n.core, [n.second, n.first], Samples(w), self);
    var c := Hold(n.core, idle, 2, self);
    PlayIsRun(c, w, self);
    TransactionPlays(c, p, w, hs, self);
  }

  lemma OnePhase(q: Proto, h: Phase, self: Byte)
    ensures OnPhases(q, [h], self) == OnBytes(Begun(q), h.bytes, h.acks, self) && Restartable(q, [h], self)
  {
    assert [h][..0] == [];
  }

  // A write addressed to the snooper, of any number of data bytes, sampled with
  // every level held for at least eleven clocks: two clocks later the bank holds
  // the prior bank with the data folded in, Aksv14_write has risen once for each
  // byte written at 0x14, and the bus machine is idle again.
  lemma AddressedWrite(n: Snoop, p: Proto, samples: seq<Sample>, d: Byte, a: Byte, data: seq<Byte>, acks: seq<bool>, self: Byte)
    requires BusIdle(n, p, self) && |acks| == 2 + |data| && d / 2 == self / 2 && d % 2 == 0
    requires Sampled(samples, [Transfer([d, a] + data, acks)])
    ensures BusIdle(Run(n, samples, self),
                    Idle((a + |data|) % 256, p.strobes + Hits(a, |data|), StoreAll(p.bank, a, data)), self)
  {
    hide Run, Sampled, StoreAll, Hits, OnBytes, At, Restartable, OnPhases;
    var h, q := Transfer([d, a] + data, acks), Begun(p);
    OnePhase(p, h, self);
    assert acks[..2] + acks[2..] == acks;
    HeaderActs(q, d, a, acks[..2], self);
    OnBytesConcat(q, [d, a], data, acks[..2], acks[2..], self);
    DataActs(OnBytes(q, [d, a], acks[..2], self), data, acks[2..], self);
    SampledPlays(n, p, samples, [h], self);
  }

  // A read of any number of bytes, its register address set by a write and a
  // repeated start: the bytes below address 5 are noted, as in the source's
  // Bksv, and nothing else in the bank changes.
  lemma AddressedRead(n: Snoop, p: Proto, samples: seq<Sample>, d: Byte, a: Byte, head: seq<bool>,
                      data: seq<Byte>, k: bool, acks: seq<bool>, self: Byte)
    requires BusIdle(n, p, self) && |head| == 2 && |acks| == |data| && Taken(acks)
    requires d / 2 == self / 2 && d % 2 == 0
    requires Sampled(samples, [Transfer([d, a], head), Transfer([d + 1] + data, [k] + acks)])
    ensures BusIdle(Run(n, samples, self), Idle((a + |data|) % 256, p.strobes, NoteAll(p.bank, a, data)), self)
  {
    hide Run, Sampled, NoteAll, OnBytes, At, Restartable, OnPhases;
    var h, g := Transfer([d, a], head), Transfer([d + 1] + data, [k] + acks);
    OnePhase(p, h, self);
    HeaderActs(Begun(p), d, a, head, self);
    var q := OnPhases(p, [h], self);
    TwoPhases(p, h, g, self);
    OneByte(Begun(q), d + 1, k, self);
    OnBytesConcat(Begun(q), [d + 1], data, [k], acks, self);
    ReadActs(OnByte(Begun(q), d + 1, k, self), data, acks, self);
    SampledPlays(n, p, samples, [h, g], self);
  }

  lemma TwoPhases(p: Proto, h: Phase, g: Phase, self: Byte)
    ensures var q := OnPhases(p, [h], self);
            OnPhases(p, [h, g], self) == OnBytes(Begun(q), g.bytes, g.acks, self)
            && (Noticing(q) ==> Restartable(p, [h, g], self))
  {
    hide OnBytes;
    assert [h, g][..1] == [h];
  }

  lemma {:induction false} OthersAreIgnored(q: Proto, hs: seq<Phase>, self: Byte)
    requires forall h <- hs :: h.bytes != [] && h.bytes[0] / 2 != self / 2
    ensures var r := OnPhases(q, hs, self);
            r.addr == q.addr && r.bank == q.bank && r.strobes == q.strobes && (hs != [] ==> r.state == WaitStop)
    decreases |hs|
  {
    hide OnBytes;
    if hs != [] {
      var h, r := hs[|hs| - 1], OnPhases(q, hs[..|hs| - 1], self);
      assert h in hs;
      OthersAreIgnored(q, hs[..|hs| - 1], self);
      OneByte(Begun(r), h.bytes[0], h.acks[0], self);
      OnBytesConcat(Begun(r), [h.bytes[0]], h.bytes[1..], [h.acks[0]], h.acks[1..], self);
      assert [h.bytes[0]] + h.bytes[1..] == h.bytes && [h.acks[0]] + h.acks[1..] == h.acks;
      WaitStopKeeps(OnByte(Begun(r), h.bytes[0], h.acks[0], self), h.bytes[1..], h.acks[1..], self);
    }
  }

  lemma {:induction false} WaitStopKeeps(q: Proto, bytes: seq<Byte>, acks: seq<bool>, self: Byte)
    requires q.state == WaitStop && |acks| == |bytes|
    ensures OnBytes(q, bytes, acks, self) == q
    decreases |bytes|
  {
    if bytes != [] {
      WaitStopKeeps(q, bytes[..|bytes| - 1], acks[..|bytes| - 1], self);
    }
  }

  // Any transaction with other devices, of any number of reads and writes with
  // repeated starts between them, leaves address, bank and strobe alone.
  lemma UnaddressedTransaction(n: Snoop, p: Proto, samples: seq<Sample>, hs: seq<Phase>, self: Byte)
    requires BusIdle(n, p, self) && hs != []
    requires forall h <- hs :: h.bytes != [] && h.bytes[0] / 2 != self / 2
    requires Sampled(samples, hs)
    ensures BusIdle(Run(n, samples, self), p, self)
  {
    hide Run, Sampled, At, OnPhases;
    OthersAreIgnored(p, hs, self);
    forall x | 0 < x < |hs|
      ensures Noticing(OnPhases(p, hs[..x], self))
    {
      assert forall h <- hs[..x] :: h in hs;
      OthersAreIgnored(p, hs[..x], self);
    }
    SampledPlays(n, p, samples, hs, self);
  }

  // A stop straight after the device address shifts the register address, a
  // zero coming in; nothing else changes.
  lemma AddressOnly(n: Snoop, p: Proto, samples: seq<Sample>, d: Byte, k: bool, self: Byte)
    requires BusIdle(n, p, self) && d / 2 == self / 2 && d % 2 == 0
    requires Sampled(samples, [Transfer([d], [k])])
    ensures BusIdle(Run(n, samples, self), p.(addr := 2 * p.addr % 256), self)
  {
    hide Run, Sampled, At, OnBytes, OnPhases, Restartable;
    OnePhase(p, Transfer([d], [k]), self);
    OneByte(Begun(p), d, k, self);
    SampledPlays(n, p, samples, [Transfer([d], [k])], self);
  }

  // A snooper that samples a write from an idle bus.
  method Receive(u: SnoopUnit, samples: seq<Sample>, self: Byte, ghost p: Proto,
                 ghost d: Byte, ghost a: Byte, ghost data: seq<Byte>, ghost acks: seq<bool>)
    requires u.Valid() && BusIdle(u.State(), p, self) && |acks| == 2 + |data| && d / 2 == self / 2 && d % 2 == 0
    requires Sampled(samples, [Transfer([d, a] + data, acks)])
    modifies u, u.bank
    ensures u.Valid()
    ensures BusIdle(u.State(), Idle((a + |data|) % 256, p.strobes + Hits(a, |data|), StoreAll(p.bank, a, data)), self)
  {
    hide Run, Sampled, StoreAll, Hits, BusIdle;
    AddressedWrite(u.State(), p, samples, d, a, data, acks, self);
    u.ClockAll(samples, self);
  }

  lemma {:induction false} IdleStays(n: Snoop, p: Proto, k: nat, self: Byte)
    requires BusIdle(n, p, self)
    ensures BusIdle(Run(n, seq(k, _ => Sample(true, true)), self), p, self)
    decreases k
  {
    hide CoreStep, At, Idle;
    var w := seq(k, _ => Sample(true, true));
    if k > 0 {
      assert w[1..] == seq(k - 1, _ => Sample(true, true));
      NoEdge(n.core, true, true, p, 1, self);
      HoldOnce(n.core, Sample(true, true), self);
      IdleStays(Step(n, w[0], self), p, k - 1, self);
    }
  }

  lemma HoldOnce(c: Core, s: Sample, self: Byte)
    ensures Hold(c, s, 1, self) == CoreStep(c, s, self)
  {
    hide CoreStep;
  }

  // Three clocks with both lines high after reset, and the machine is ready for
  // a transaction, the bank as it was.
  lemma ResetThenIdle(strobes: nat, bank: Bank, k: nat, self: Byte)
    requires k >= 3
    ensures BusIdle(Run(ResetState(strobes, bank), seq(k, _ => Sample(true, true)), self), Idle(0, strobes, bank), self)
  {
    hide Settles;
    var high, p := Sample(true, true), Idle(0, strobes, bank);
    var w, n := seq(k, _ => high), ResetState(strobes, bank);
    var n1 := Step(n, high, self);
    var n2 := Step(n1, high, self);
    var n3 := Step(n2, high, self);
    assert w[1..][1..][1..] == seq(k - 3, _ => high);
    assert Run(n, w, self) == Run(n1, w[1..], self);
    assert Run(n1, w[1..], self) == Run(n2, w[1..][1..], self);
    assert Run(n2, w[1..][1..], self) == Run(n3, w[1..][1..][1..], self);
    IdleIsRest(p, self);
    assert BusIdle(n3, p, self);
    IdleStays(n3, p, k - 3, self);
  }

  lemma IdleIsRest(p: Proto, self: Byte)
    requires p == Idle(p.addr, p.strobes, p.bank)
    ensures NextProto(p, High, High, self) == p && Settles(p, p, true, true, self)
  {
    RestIsKept(p, true, true, 3, self);
  }
}
