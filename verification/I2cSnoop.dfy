// The I2C bus snooper (overlay/i2c_snoop.v): the protocol machine and the
// register bank, behind synchronisers and deglitchers.
module I2cSnoop {
  import opened Deglitcher

  type Byte = n: nat | n < 256

  type Count4 = n: nat | n < 16

  type Bank = s: seq<Byte> | |s| == 32 witness seq(32, _ => 0)

  datatype PState =
    | Start | Restart | Daddr | AckDaddr | Addr | AckAddr | WrData | AckWr | EndWr
    | RdData | AckRd | EndRd | EndRd2 | WaitStop

  // strobes is a history variable: the rising edges of Aksv14_write so far.
  datatype Proto = Proto(
    state: PState, bitcnt: Count4, addr: Byte, daddr: Byte, wdata: Byte, rdata: Byte,
    update: bool, aksv14: bool, strobes: nat, bank: Bank)

  function Shift(v: Byte, bit: bool): Byte {
    (2 * v + if bit then 1 else 0) % 256
  }

  function Successor(a: Byte): Byte {
    (a + 1) % 256
  }

  function NextPState(p: Proto, scl: Line, sda: Line, self: Byte): PState {
    if scl == High && sda == Rise then Start
    else
      var begin := scl == High && sda == Fall;
      var full := p.bitcnt > 7 && scl == Fall;
      match p.state
      case Start => if begin then Daddr else Start
      case Restart => Daddr
      case Daddr => if full then AckDaddr else Daddr
      case AckDaddr =>
        if scl != Fall then AckDaddr
        else if p.daddr / 2 != self / 2 then WaitStop
        else if p.daddr % 2 == 0 then Addr else RdData
      case Addr => if full then AckAddr else Addr
      case AckAddr => if scl == Fall then WrData else AckAddr
      case WrData => if begin then Restart else if full then AckWr else WrData
      case AckWr => if scl == Fall then EndWr else AckWr
      case EndWr => WrData
      case RdData => if begin then Restart else if full then AckRd else RdData
      case AckRd => if scl == Rise then EndRd else AckRd
      case EndRd => if sda == Low then EndRd2 else Start
      case EndRd2 => if scl == Fall then RdData else EndRd2
      case WaitStop => if begin then Restart else WaitStop
  }

  // The bit counter and the shift registers.
  function NextRegs(p: Proto, scl: Line, sda: Line): Proto {
    var bit := sda == High;
    var count := if scl == Rise then (p.bitcnt + 1) % 16 else p.bitcnt;
    match p.state
    case Start => p.(bitcnt := 0, daddr := 0, wdata := 0, rdata := 0, update := false)
    case Restart => p.(bitcnt := 0, daddr := 0, wdata := 0, rdata := 0, update := false)
    case Daddr => p.(bitcnt := count, daddr := if scl == Rise then Shift(p.daddr, bit) else p.daddr,
                     wdata := 0, rdata := 0, update := false)
    case AckDaddr => p.(bitcnt := 0, wdata := 0, rdata := p.bank[p.addr % 32], update := false)
    case Addr => p.(bitcnt := count, addr := if scl == Rise then Shift(p.addr, bit) else p.addr,
                    wdata := 0, rdata := 0, update := false)
    case AckAddr => p.(bitcnt := 0, wdata := 0, rdata := p.bank[p.addr % 32], update := false)
    case WrData => p.(bitcnt := count, wdata := if scl == Rise then Shift(p.wdata, bit) else p.wdata, update := false)
    case AckWr => p.(bitcnt := 0, update := true)
    case EndWr => p.(bitcnt := 0, addr := Successor(p.addr), wdata := 0, update := false)
    case RdData => p.(bitcnt := count, rdata := if scl == Rise then Shift(p.rdata, bit) else p.rdata,
                      wdata := p.rdata, update := false)
    case AckRd => p.(bitcnt := 0, wdata := p.rdata, update := true)
    case EndRd => p.(bitcnt := 0, addr := Successor(p.addr), update := false)
    case EndRd2 => p.(bitcnt := 0, daddr := 0, update := false)
    case WaitStop => p.(bitcnt := 0, daddr := 0, update := false)
  }

  function NextBank(p: Proto): Bank {
    if p.update && ((p.state == AckWr && p.addr < 0x20) || (p.state == AckRd && p.addr < 5))
    then p.bank[p.addr % 32 := p.wdata] else p.bank
  }

  function NextAksv14(p: Proto): bool {
    p.addr == 0x14 && p.state == AckWr
  }

  function NextProto(p: Proto, scl: Line, sda: Line, self: Byte): Proto {
    NextRegs(p, scl, sda).(
      state := NextPState(p, scl, sda, self),
      bank := NextBank(p),
      aksv14 := NextAksv14(p),
      strobes := p.strobes + if NextAksv14(p) && !p.aksv14 then 1 else 0)
  }

  // ---- The machine behind the synchronisers ----

  datatype Sample = Sample(scl: bool, sda: bool)

  datatype Core = Core(scl: Deglitch, sda: Deglitch, p: Proto)

  function CoreStep(c: Core, s: Sample, self: Byte): Core {
    Core(Next(c.scl, s.scl), Next(c.sda, s.sda), NextProto(c.p, c.scl.line, c.sda.line, self))
  }

  ghost function CoreRun(c: Core, w: seq<Sample>, self: Byte): Core
    decreases |w|
  {
    if w == [] then c else CoreRun(CoreStep(c, w[0], self), w[1..], self)
  }

  // The whole machine: two synchroniser flip-flops in front of each line.
  datatype Snoop = Snoop(first: Sample, second: Sample, core: Core)

  function Step(n: Snoop, s: Sample, self: Byte): Snoop {
    Snoop(s, n.first, CoreStep(n.core, n.second, self))
  }

  ghost function Run(n: Snoop, w: seq<Sample>, self: Byte): Snoop
    decreases |w|
  {
    if w == [] then n else Run(Step(n, w[0], self), w[1..], self)
  }

  // The synchronisers are a pure delay of two clocks.
  lemma {:induction false} SynchronisersDelay(n: Snoop, w: seq<Sample>, x: Sample, y: Sample, self: Byte)
    ensures Run(n, w + [x, y], self) == Snoop(y, x, CoreRun(n.core, [n.second, n.first] + w, self))
    decreases |w|
  {
    hide CoreStep;
    if w == [] {
      var m := Step(n, x, self);
      assert [x, y][1..] == [y] && [n.second, n.first][1..] == [n.first];
      assert Run(n, w + [x, y], self) == Run(m, [y], self) == Step(m, y, self) by {
        assert w + [x, y] == [x, y] && [y][1..] == [];
      }
      assert CoreRun(n.core, [n.second, n.first] + w, self) == CoreStep(CoreStep(n.core, n.second, self), n.first, self) by {
        assert [n.second, n.first] + w == [n.second, n.first] && [n.first][1..] == [];
        assert CoreRun(m.core, [n.first], self) == CoreStep(m.core, n.first, self);
      }
    } else {
      var m := Step(n, w[0], self);
      assert (w + [x, y])[1..] == w[1..] + [x, y];
      SynchronisersDelay(m, w[1..], x, y, self);
      assert ([n.second, n.first] + w)[1..] == [m.second, m.first] + w[1..];
    }
  }

  // Reset clears everything but the bank, and starts both filters in High.
  function ResetState(strobes: nat, bank: Bank): Snoop {
    var g := Deglitch(High, 0);
    Snoop(Sample(false, false), Sample(false, false),
          Core(g, g, Proto(Start, 0, 0, 0, 0, 0, false, false, strobes, bank)))
  }

  // The registers of the module.
  class SnoopUnit {
    var first: Sample
    var second: Sample
    var scl: Deglitch
    var sda: Deglitch
    var state: PState
    var bitcnt: Count4
    var addr: Byte
    var daddr: Byte
    var wdata: Byte
    var rdata: Byte
    var update: bool
    var aksv14: bool
    ghost var strobes: nat
    const bank: array<Byte>

    ghost predicate Valid()
      reads this
    {
      bank.Length == 32
    }

    ghost function Registers(): Proto
      reads this, bank
      requires Valid()
    {
      Proto(state, bitcnt, addr, daddr, wdata, rdata, update, aksv14, strobes, bank[..])
    }

    ghost function State(): Snoop
      reads this, bank
      requires Valid()
    {
      Snoop(first, second, Core(scl, sda, Registers()))
    }

    constructor ()
      ensures Valid() && fresh(bank) && strobes == 0 && State() == ResetState(0, bank[..])
    {
      bank := new Byte[32];
      first, second := Sample(false, false), Sample(false, false);
      scl, sda := Deglitch(High, 0), Deglitch(High, 0);
      state, bitcnt, addr, daddr, wdata, rdata := Start, 0, 0, 0, 0, 0;
      update, aksv14, strobes := false, false, 0;
    }

    method Reset()
      requires Valid()
      modifies this
      ensures Valid() && State() == ResetState(old(strobes), old(bank[..]))
    {
      first, second := Sample(false, false), Sample(false, false);
      scl, sda := Deglitch(High, 0), Deglitch(High, 0);
      state, bitcnt, addr, daddr, wdata, rdata := Start, 0, 0, 0, 0, 0;
      update, aksv14 := false, false;
    }

    // Bit counter and shift registers.
    method ClockRegisters()
      requires Valid()
      modifies this`bitcnt, this`addr, this`daddr, this`wdata, this`rdata, this`update
      ensures Registers() == NextRegs(old(Registers()), scl.line, sda.line)
    {
      hide Shift, Successor;
      var bit, rise := sda.line == High, scl.line == Rise;
      var count := if rise then (bitcnt + 1) % 16 else bitcnt;
      var read := bank[addr % 32];
      match state {
        case Start => bitcnt, daddr, wdata, rdata, update := 0, 0, 0, 0, false;
        case Restart => bitcnt, daddr, wdata, rdata, update := 0, 0, 0, 0, false;
        case Daddr =>
          if rise {
            daddr := Shift(daddr, bit);
          }
          bitcnt, wdata, rdata, update := count, 0, 0, false;
        case AckDaddr => bitcnt, wdata, rdata, update := 0, 0, read, false;
        case Addr =>
          if rise {
            addr := Shift(addr, bit);
          }
          bitcnt, wdata, rdata, update := count, 0, 0, false;
        case AckAddr => bitcnt, wdata, rdata, update := 0, 0, read, false;
        case WrData =>
          if rise {
            wdata := Shift(wdata, bit);
          }
          bitcnt, update := count, false;
        case AckWr => bitcnt, update := 0, true;
        case EndWr => bitcnt, addr, wdata, update := 0, Successor(addr), 0, false;
        case RdData =>
          wdata := rdata;
          if rise {
            rdata := Shift(rdata, bit);
          }
          bitcnt, update := count, false;
        case AckRd => bitcnt, wdata, update := 0, rdata, true;
        case EndRd => bitcnt, addr, update := 0, Successor(addr), false;
        case EndRd2 => bitcnt, daddr, update := 0, 0, false;
        case WaitStop => bitcnt, daddr, update := 0, 0, false;
      }
    }

    // State and strobe, from the registers before the clock.
    method ClockState(ghost p: Proto, next: PState, strobe: bool, self: Byte)
      requires Valid() && next == NextPState(p, scl.line, sda.line, self) && strobe == NextAksv14(p)
      requires aksv14 == p.aksv14 && strobes == p.strobes
      modifies this`state, this`aksv14, this`strobes
      ensures state == next && aksv14 == strobe && strobes == p.strobes + if strobe && !p.aksv14 then 1 else 0
    {
      if strobe && !aksv14 {
        strobes := strobes + 1;
      }
      state, aksv14 := next, strobe;
    }

    method ClockProtocol(self: Byte)
      requires Valid()
      modifies this`state, this`bitcnt, this`addr, this`daddr, this`wdata, this`rdata, this`update
      modifies this`aksv14, this`strobes, bank
      ensures Registers() == NextProto(old(Registers()), scl.line, sda.line, self)
    {
      hide NextRegs, NextPState;
      ghost var p := Registers();
      var next := NextPState(Proto(state, bitcnt, addr, daddr, wdata, rdata, update, aksv14, 0, bank[..]),
                             scl.line, sda.line, self);
      SameNextState(p, p.(strobes := 0), scl.line, sda.line, self);
      var write := update && ((state == AckWr && addr < 0x20) || (state == AckRd && addr < 5));
      var target, value, strobe := addr % 32, wdata, addr == 0x14 && state == AckWr;
      ClockRegisters();
      ClockState(p, next, strobe, self);
      if write {
        bank[target] := value;
      }
    }

    method Clock(s: Sample, self: Byte)
      requires Valid()
      modifies this, bank
      ensures Valid() && State() == Step(old(State()), s, self)
    {
      hide NextProto, Next;
      ClockProtocol(self);
      scl, sda := Next(scl, second.scl), Next(sda, second.sda);
      second := first;
      first := s;
    }

    // One clock for each of the samples.
    method ClockAll(w: seq<Sample>, self: Byte)
      requires Valid()
      modifies this, bank
      ensures Valid() && State() == Run(old(State()), w, self)
    {
      hide Step, State;
      ghost var was := State();
      assert w[0..] == w;
      for n := 0 to |w|
        invariant Valid() && Run(State(), w[n..], self) == Run(was, w, self)
      {
        assert w[n..][1..] == w[n + 1..];
        Clock(w[n], self);
      }
      assert w[|w|..] == [];
    }
  }

  lemma SameNextState(p: Proto, r: Proto, scl: Line, sda: Line, self: Byte)
    requires r == p.(strobes := r.strobes)
    ensures NextPState(p, scl, sda, self) == NextPState(r, scl, sda, self)
  {
  }
}
