// The sequencer that drives the block module and the shift registers
// (overlay/hdcp_cipher.v).
module HdcpCipher {
  import opened Bits
  import opened HdcpBlock
  import opened HdcpLfsr

  datatype CState =
    | Init | Block1 | Block2 | Block3 | Block4 | Block5 | Block6 | Block7 | Block8 | Block9
    | GetM | Stream | Rekey

  type Count6 = n: nat | n < 64

  // The control registers; each acts on the clock after the one that sets it.
  datatype Ctl = Ctl(
    cnt: Count6, rekey: bool, loadBlock: bool, load56: bool, loadLfsr: bool,
    advanceLfsr: bool, advanceBlock: bool, loadKs: bool, auth: bool, ready: bool)

  datatype Inputs = Inputs(
    reset: bool, km: Word56, an: Word64, init: bool, authentication: bool, rekey: bool, stream: bool)

  datatype Cipher = Cipher(
    state: CState, ctl: Ctl, ks: Word84, ki: Word84, mi: Word64, block: Block, lfsr: Lfsr)

  const IDLE := Ctl(0, false, false, false, false, false, false, false, false, false)

  function Wrap6(n: nat): Count6 {
    n % 64
  }

  function NextCState(s: CState, cnt: Count6, i: Inputs): CState {
    match s
    case Init => if i.init then Block1 else Init
    case Block1 => Block2
    case Block2 => if cnt >= 47 then Block3 else Block2
    case Block3 => Block4
    case Block4 => Block5
    case Block5 => Block6
    case Block6 => Block7
    case Block7 => Block8
    case Block8 => if cnt >= 55 then Block9 else Block8
    case Block9 => GetM
    case GetM => Stream
    case Stream => if i.init then Block1 else if i.rekey then Rekey else Stream
    case Rekey => if i.init then Block1 else if cnt >= 55 then Stream else Rekey
  }

  function NextCtl(s: CState, c: Ctl, i: Inputs): Ctl {
    var idle := IDLE.(auth := c.auth);
    var rekeying := idle.(cnt := Wrap6(c.cnt + 1), rekey := true, advanceLfsr := true, advanceBlock := true);
    match s
    case Init => IDLE.(auth := i.authentication)
    case Block1 => idle.(loadBlock := true, load56 := true)
    case Block2 => idle.(cnt := Wrap6(c.cnt + 1), advanceBlock := true)
    case Block3 => idle.(loadKs := true)
    case Block4 => idle.(loadKs := true)
    case Block5 => idle.(loadBlock := true)
    case Block6 => idle.(loadLfsr := true)
    case Block7 => idle.(rekey := true)
    case Block8 => rekeying
    case Block9 => idle
    case GetM => IDLE
    case Stream =>
      if !i.init && i.rekey then rekeying
      else IDLE.(advanceLfsr := i.stream, advanceBlock := i.stream, auth := i.authentication, ready := true)
    case Rekey => rekeying
  }

  function Wide(w: Bits): Word84
    requires |w| <= 84
  {
    w + Zeros(84 - |w|)
  }

  function BlockInput(c: Cipher, an: Word64): Word84 {
    Wide(if c.ctl.auth then an else c.mi)
  }

  function Kmod(c: Cipher, km: Word56): Word84 {
    if c.ctl.auth then (if c.ctl.load56 then Wide(km) else c.ks)
    else if c.ctl.load56 then Wide(c.ks[..56]) else c.ki
  }

  function NextBlock(c: Cipher, i: Inputs): Block {
    if c.ctl.loadBlock then Loaded(BlockInput(c, i.an), Kmod(c, i.km))
    else if c.ctl.advanceBlock then Round(c.block, c.ctl.rekey, OneBit(c.lfsr))
    else c.block
  }

  function NextLfsr(c: Cipher): Lfsr {
    if c.ctl.loadLfsr then LoadIv(if c.ctl.auth then c.ks[..56] else c.ki[..56])
    else if c.ctl.advanceLfsr then Advance(c.lfsr)
    else c.lfsr
  }

  function NextMi(c: Cipher): Word64 {
    if c.state in {Block8, Block9, GetM} then c.block.ostream[..16] + c.mi[..48] else c.mi
  }

  // Reset leaves load_lfsr alone.
  function Reset(c: Cipher): Cipher {
    Cipher(Init, IDLE.(loadLfsr := c.ctl.loadLfsr), Zeros(84), Zeros(84), Zeros(64), RESET_BLOCK, RESET_LFSR)
  }

  function Step(c: Cipher, i: Inputs): Cipher {
    if i.reset then Reset(c)
    else Cipher(
      NextCState(c.state, c.ctl.cnt, i),
      NextCtl(c.state, c.ctl, i),
      if c.ctl.loadKs && c.ctl.auth then Bo(c.block) else c.ks,
      if c.ctl.loadKs then (if c.ctl.auth then Zeros(84) else Bo(c.block)) else c.ki,
      NextMi(c), NextBlock(c, i), NextLfsr(c))
  }

  ghost function Run(c: Cipher, ins: seq<Inputs>): Cipher
    decreases |ins|
  {
    if ins == [] then c else Run(Step(c, ins[0]), ins[1..])
  }

  lemma {:induction false} RunSplit(c: Cipher, ins: seq<Inputs>, n: nat)
    requires n <= |ins|
    ensures Run(c, ins) == Run(Run(c, ins[..n]), ins[n..])
    decreases n
  {
    hide Step;
    if n == 0 {
      assert ins[..0] == [] && ins[0..] == ins;
    } else {
      assert ins[..n][1..] == ins[1..][..n - 1] && ins[1..][n - 1..] == ins[n..];
      RunSplit(Step(c, ins[0]), ins[1..], n - 1);
    }
  }

  // ---- The block cipher as a function ----

  datatype Engine = Engine(block: Block, lfsr: Lfsr)

  ghost function PlainRounds(s: Block, n: nat): Block {
    if n == 0 then s else Round(PlainRounds(s, n - 1), false, 0)
  }

  ghost function RekeyRounds(e: Engine, n: nat): Engine {
    if n == 0 then e
    else
      var p := RekeyRounds(e, n - 1);
      Engine(Round(p.block, true, OneBit(p.lfsr)), Advance(p.lfsr))
  }

  ghost function SessionKey(key: Word56, seed: Word64): Word84 {
    Bo(PlainRounds(Loaded(Wide(seed), Wide(key)), 48))
  }

  ghost function Rekeyed(session: Word84, seed: Word64, n: nat): Engine {
    RekeyRounds(Engine(Loaded(Wide(seed), session), LoadIv(session[..56])), n)
  }

  ghost function Low16(session: Word84, seed: Word64, n: nat): Word16 {
    Rekeyed(session, seed, n).block.ostream[..16]
  }

  function Concat4(a: Word16, b: Word16, c: Word16, d: Word16): Word64 {
    a + b + c + d
  }

  ghost function MValue(session: Word84, seed: Word64): Word64 {
    Concat4(Low16(session, seed, 56), Low16(session, seed, 55), Low16(session, seed, 54), Low16(session, seed, 53))
  }

  class CipherUnit {
    var state: CState
    var ctl: Ctl
    var ks: Word84
    var ki: Word84
    var mi: Word64
    const block: BlockUnit
    const lfsr: LfsrUnit

    function State(): Cipher
      reads this, block, lfsr
    {
      Cipher(state, ctl, ks, ki, mi, block.State(), lfsr.State())
    }

    constructor ()
      ensures fresh(block) && fresh(lfsr)
      ensures State() == Cipher(Init, IDLE, Zeros(84), Zeros(84), Zeros(64), RESET_BLOCK, RESET_LFSR)
    {
      state, ctl := Init, IDLE;
      ks, ki, mi := Zeros(84), Zeros(84), Zeros(64);
      block := new BlockUnit();
      lfsr := new LfsrUnit();
    }

    // The sequencer's own registers, given what the block module puts out.
    method Latch(reset: bool, next: CState, nextCtl: Ctl, bo: Word84, out: Word24)
      modifies this`state, this`ctl, this`ks, this`ki, this`mi
      ensures state == (if reset then Init else next)
      ensures ctl == if reset then IDLE.(loadLfsr := old(ctl).loadLfsr) else nextCtl
      ensures ks == if reset then Zeros(84) else if old(ctl).loadKs && old(ctl).auth then bo else old(ks)
      ensures ki == if reset then Zeros(84)
                    else if old(ctl).loadKs then (if old(ctl).auth then Zeros(84) else bo) else old(ki)
      ensures mi == if reset then Zeros(64)
                    else if old(state) in {Block8, Block9, GetM} then out[..16] + old(mi)[..48] else old(mi)
    {
      if reset {
        state, ctl := Init, IDLE.(loadLfsr := ctl.loadLfsr);
        ks, ki, mi := Zeros(84), Zeros(84), Zeros(64);
      } else {
        if state in {Block8, Block9, GetM} {
          mi := out[..16] + mi[..48];
        }
        if ctl.loadKs && ctl.auth {
          ks, ki := bo, Zeros(84);
        } else if ctl.loadKs {
          ki := bo;
        }
        state, ctl := next, nextCtl;
      }
    }

    // All right-hand sides are read before any register moves.
    method Clock(i: Inputs)
      modifies this, block, lfsr
      ensures State() == Step(old(State()), i)
    {
      hide OneBit, Advance, LoadIv, Round, Loaded, NextCState, NextCtl, Bo, BlockInput, Kmod, Zeros;
      var now := State();
      block.Clock(i.reset, ctl.loadBlock, BlockInput(now, i.an), Kmod(now, i.km),
                  ctl.advanceBlock, ctl.rekey, OneBit(now.lfsr));
      lfsr.Clock(i.reset, if ctl.auth then ks[..56] else ki[..56], ctl.loadLfsr, ctl.advanceLfsr);
      Latch(i.reset, NextCState(state, ctl.cnt, i), NextCtl(state, ctl, i), Bo(now.block), now.block.ostream);
    }

    // One clock for each of the inputs.
    method ClockAll(ins: seq<Inputs>)
      modifies this, block, lfsr
      ensures State() == Run(old(State()), ins)
    {
      hide Step, State;
      ghost var was := State();
      assert ins[0..] == ins;
      for n := 0 to |ins|
        invariant Run(State(), ins[n..]) == Run(was, ins)
      {
        assert ins[n..][1..] == ins[n + 1..];
        Clock(ins[n]);
      }
      assert ins[|ins|..] == [];
    }
  }

  // ---- What the control registers hold in each state ----

  function RekeyCtl(cnt: Count6, auth: bool): Ctl {
    IDLE.(cnt := cnt, rekey := true, advanceLfsr := true, advanceBlock := true, auth := auth)
  }

  predicate CtlFits(s: CState, c: Ctl) {
    var idle := IDLE.(auth := c.auth);
    match s
    case Init => c == idle.(loadLfsr := c.loadLfsr)
    case Block1 => c == idle.(ready := c.ready, advanceLfsr := c.advanceLfsr, advanceBlock := c.advanceLfsr)
                   || c == RekeyCtl(c.cnt, c.auth)
    case Block2 => if c.cnt == 0 then c == idle.(loadBlock := true, load56 := true)
                   else c.cnt <= 47 && c == idle.(cnt := c.cnt, advanceBlock := true)
    case Block3 => c == idle.(cnt := 48, advanceBlock := true)
    case Block4 => c == idle.(loadKs := true)
    case Block5 => c == idle.(loadKs := true)
    case Block6 => c == idle.(loadBlock := true)
    case Block7 => c == idle.(loadLfsr := true)
    case Block8 => if c.cnt == 0 then c == idle.(rekey := true)
                   else c.cnt <= 55 && c == RekeyCtl(c.cnt, c.auth)
    case Block9 => c == RekeyCtl(56, c.auth)
    case GetM => c == idle
    case Stream => c == idle.(ready := c.ready, advanceLfsr := c.advanceLfsr, advanceBlock := c.advanceLfsr)
                   || ((c.cnt == 0 || c.cnt >= 56) && c.cnt % 2 == 0 && c == RekeyCtl(c.cnt, c.auth))
    case Rekey => (1 <= c.cnt <= 55 || (c.cnt >= 57 && c.cnt % 2 == 1)) && c == RekeyCtl(c.cnt, c.auth)
  }

  ghost predicate Inv(c: Cipher) {
    && CtlFits(c.state, c.ctl)
    && (c.state in {Block8, Block9, GetM, Stream, Rekey} ==> Live(c.lfsr))
  }

  lemma NextCtlFits(s: CState, c: Ctl, i: Inputs)
    requires CtlFits(s, c)
    ensures CtlFits(NextCState(s, c.cnt, i), NextCtl(s, c, i))
  {
    match s
    case Init =>
    case Block1 =>
    case Block2 =>
    case Block3 =>
    case Block4 =>
    case Block5 =>
    case Block6 =>
    case Block7 =>
    case Block8 =>
    case Block9 =>
    case GetM =>
    case Stream =>
    case Rekey =>
  }

  // The shift registers are loaded before Block8 and never run dry afterwards.
  lemma StepKeepsInv(c: Cipher, i: Inputs)
    requires Inv(c) || i.reset
    ensures Inv(Step(c, i))
  {
    hide Live, Advance, LoadIv, NextBlock, NextMi, NextCtl, Bo;
    if !i.reset {
      NextCtlFits(c.state, c.ctl, i);
      if c.ctl.loadLfsr {
        LoadIsLive(if c.ctl.auth then c.ks[..56] else c.ki[..56]);
      } else if Live(c.lfsr) {
        AdvanceKeepsLive(c.lfsr);
      }
    }
  }

  // A key and a seed are loaded as they are: the seed fills the low 64 bits of
  // B, the key the low 56 bits of K, and all the rest is zero.
  lemma OperandsAreLoaded(key: Word56, seed: Word64)
    ensures var s := Loaded(Wide(seed), Wide(key));
            Bo(s) == seed + Zeros(20) && s.k.x + s.k.y + s.k.z == key + Zeros(28)
  {
    hide Loaded, Bo;
    LoadKeepsWords(Wide(seed), Wide(key));
    assert Wide(seed)[..64] == seed;
  }

  // Two machines with the same load_lfsr are the same after a reset: no key, no
  // M value and nothing of the engine outlives it.
  lemma ResetForgets(c: Cipher, d: Cipher, i: Inputs, j: Inputs)
    requires i.reset && j.reset && c.ctl.loadLfsr == d.ctl.loadLfsr
    ensures Step(c, i) == Step(d, j) && Step(c, i).state == Init && !Step(c, i).ctl.ready
    ensures Step(c, i).ks == Step(c, i).ki == Bo(Step(c, i).block) == Zeros(84) && Step(c, i).mi == Zeros(64)
  {
    hide NextBlock, NextLfsr;
  }

  // In every clock that advances with rekey high, K takes in the bit that the
  // shift registers then show.
  lemma RekeyClockTakesBit(c: Cipher, i: Inputs)
    requires CtlFits(c.state, c.ctl) && c.ctl.advanceBlock && c.ctl.rekey && !i.reset
    ensures Step(c, i).block.k.y[13] == OneBit(c.lfsr)
  {
    hide RoundK, RoundB, Output, OneBit, Loaded, NextLfsr, NextMi, Bo;
    RekeyRoundTakesBit(c.block.k, OneBit(c.lfsr));
  }

  // Rekey round n takes in bit n of the sequence the shift registers give.
  lemma {:induction false} RekeyFollowsRegisters(e: Engine, n: nat)
    ensures RekeyRounds(e, n).lfsr == AdvanceN(e.lfsr, n)
    ensures n > 0 ==> RekeyRounds(e, n).block.k.y[13] == OneBit(AdvanceN(e.lfsr, n - 1))
  {
    hide RoundK, RoundB, Output, OneBit, Advance;
    if n > 0 {
      var p := RekeyRounds(e, n - 1);
      RekeyFollowsRegisters(e, n - 1);
      RekeyRoundTakesBit(p.block.k, OneBit(p.lfsr));
    }
  }

  // ---- One initialisation, clock by clock ----

  // The 48 plain rounds lose nothing: run backwards they give B and K again.
  ghost function Unplain(b: Regs, k: Regs, n: nat): (Regs, Regs)
    decreases n
  {
    if n == 0 then (b, k) else Unplain(UnroundB(b, UnroundK(k)), UnroundK(k), n - 1)
  }

  lemma {:induction false} PlainRoundsAreReversible(s: Block, n: nat)
    ensures var t := PlainRounds(s, n); Unplain(t.b, t.k, n) == (s.b, s.k)
  {
    hide RoundB, RoundK, UnroundB, UnroundK, Output;
    if n > 0 {
      var t := PlainRounds(s, n - 1);
      PlainRoundsAreReversible(s, n - 1);
      RoundKIsPermutation(t.k, 0);
      RoundBIsPermutation(t.b, t.k);
    }
  }

  // What an accepted init pulse works on.
  datatype Job = Job(auth: bool, ks: Word84, ki: Word84, mi: Word64, key: Word56, seed: Word64) {
    ghost function Plain(n: nat): Block {
      PlainRounds(Loaded(Wide(seed), Wide(key)), n)
    }

    ghost function Session(): Word84 {
      SessionKey(key, seed)
    }

    ghost function Low(n: nat): Word16 {
      Low16(Session(), seed, n)
    }

    ghost function Ks(): Word84 {
      if auth then Session() else ks
    }

    ghost function Ki(): Word84 {
      if auth then Zeros(84) else Session()
    }
  }

  // The whole machine n clocks after the clock that saw the pulse.
  ghost predicate Timeline(j: Job, n: nat, d: Cipher)
    requires 1 <= n <= 113
  {
    if n <= 55 then Establishing(j, n, d) else Rekeying(j, n, d)
  }

  ghost predicate Establishing(j: Job, n: nat, d: Cipher)
    requires 1 <= n <= 55
  {
    var idle := IDLE.(auth := j.auth);
    && d.mi == j.mi
    && (if n < 52 then d.ks == j.ks && d.ki == j.ki else d.ks == j.Ks() && d.ki == j.Ki())
    && if n == 1 then d.state == Block1 && d.ctl.auth == j.auth && !d.ctl.loadKs
       else if n == 2 then d.state == Block2 && d.ctl == idle.(loadBlock := true, load56 := true)
       else if n <= 50 then
         && d.state == (if n < 50 then Block2 else Block3)
         && d.ctl == idle.(cnt := n - 2, advanceBlock := true)
         && d.block == j.Plain(n - 3)
       else if n <= 52 then
         d.state == (if n == 51 then Block4 else Block5) && d.ctl == idle.(loadKs := true) && d.block == j.Plain(48)
       else if n == 53 then d.state == Block6 && d.ctl == idle.(loadBlock := true)
       else
         && d.block == Rekeyed(j.Session(), j.seed, 0).block
         && if n == 54 then d.state == Block7 && d.ctl == idle.(loadLfsr := true)
            else
              && d.state == Block8 && d.ctl == idle.(rekey := true)
              && d.lfsr == Rekeyed(j.Session(), j.seed, 0).lfsr
  }

  // The low output halves shifted into Mi so far, latest first.
  ghost predicate Collected(j: Job, n: nat, mi: Word64) {
    && (n >= 57 ==> mi[..16] == j.Low(n - 57))
    && (n >= 58 ==> mi[16..32] == j.Low(n - 58))
    && (n >= 59 ==> mi[32..48] == j.Low(n - 59))
    && (n >= 60 ==> mi[48..] == j.Low(n - 60))
  }

  ghost predicate Rekeying(j: Job, n: nat, d: Cipher)
    requires 56 <= n <= 113
  {
    && d.ks == j.Ks() && d.ki == j.Ki()
    && Engine(d.block, d.lfsr) == Rekeyed(j.Session(), j.seed, if n <= 112 then n - 56 else 56)
    && Collected(j, n, d.mi)
    && if n <= 111 then d.state == (if n < 111 then Block8 else Block9) && d.ctl == RekeyCtl(n - 55, j.auth)
       else if n == 112 then d.state == GetM && d.ctl == IDLE.(auth := j.auth)
       else d.state == Stream && d.ctl == IDLE
  }

  lemma EstablishingStep(j: Job, n: nat, d: Cipher, i: Inputs)
    requires 1 <= n <= 54 && Establishing(j, n, d) && !i.reset
    requires n == 2 ==> j.key == (if j.auth then i.km else j.ks[..56])
    requires n == 2 || n == 53 ==> j.seed == if j.auth then i.an else j.mi
    ensures Establishing(j, n + 1, Step(d, i))
  {
    hide Round, Loaded, LoadIv, Advance, OneBit, Bo, Wide;
    PlainRoundIgnoresBit(d.block, OneBit(d.lfsr));
  }

  lemma PlainRoundIgnoresBit(s: Block, bit: bv1)
    ensures Round(s, false, bit) == Round(s, false, 0)
  {
    hide RoundB, Output, LinearX, LinearY, SubstK;
  }

  lemma RekeyingStep(j: Job, n: nat, d: Cipher, i: Inputs)
    requires 55 <= n <= 112 && Timeline(j, n, d) && !i.reset
    ensures Rekeying(j, n + 1, Step(d, i))
  {
    hide Round, Loaded, LoadIv, Advance, OneBit, Bo, Wide;
  }

  ghost predicate NoReset(ins: seq<Inputs>) {
    forall i <- ins :: !i.reset
  }

  // The operands an init pulse in c will use, given the inputs that follow it.
  ghost function JobOf(c: Cipher, ins: seq<Inputs>): Job
    requires |ins| > 2
  {
    var auth := if c.state == Rekey then c.ctl.auth else ins[0].authentication;
    Job(auth, c.ks, c.ki, c.mi,
        if auth then ins[2].km else c.ks[..56],
        if auth then ins[2].an else c.mi)
  }

  // A pulse that the sequencer accepts, and inputs that hold An between its two loads.
  ghost predicate Accepted(c: Cipher, ins: seq<Inputs>) {
    && c.state in {Init, Stream, Rekey} && CtlFits(c.state, c.ctl)
    && |ins| == 113 && NoReset(ins) && ins[0].init
    && (JobOf(c, ins).auth ==> ins[53].an == ins[2].an)
  }

  lemma {:induction false} RunSnoc(c: Cipher, ins: seq<Inputs>, n: nat)
    requires n < |ins|
    ensures Run(c, ins[..n + 1]) == Step(Run(c, ins[..n]), ins[n])
  {
    hide Step;
    RunSplit(c, ins[..n + 1], n);
    assert ins[..n + 1][..n] == ins[..n] && ins[..n + 1][n..] == [ins[n]];
    assert Run(Run(c, ins[..n]), [ins[n]]) == Step(Run(c, ins[..n]), ins[n]);
  }

  lemma {:induction false} InitFollowsTimeline(c: Cipher, ins: seq<Inputs>, n: nat)
    requires Accepted(c, ins) && 1 <= n <= 113
    ensures Timeline(JobOf(c, ins), n, Run(c, ins[..n]))
  {
    hide Step, Timeline, Establishing, Rekeying;
    if n == 1 {
      PulseIsAccepted(c, ins);
      RunSnoc(c, ins, 0);
    } else {
      InitFollowsTimeline(c, ins, n - 1);
      RunSnoc(c, ins, n - 1);
      TimelineStep(JobOf(c, ins), n - 1, Run(c, ins[..n - 1]), ins[n - 1]);
    }
  }

  lemma PulseIsAccepted(c: Cipher, ins: seq<Inputs>)
    requires Accepted(c, ins)
    ensures Timeline(JobOf(c, ins), 1, Step(c, ins[0]))
  {
    hide Round, NextLfsr, Bo;
  }

  lemma TimelineStep(j: Job, n: nat, d: Cipher, i: Inputs)
    requires 1 <= n <= 112 && Timeline(j, n, d) && !i.reset
    requires n == 2 ==> j.key == (if j.auth then i.km else j.ks[..56])
    requires n == 2 || n == 53 ==> j.seed == if j.auth then i.an else j.mi
    ensures Timeline(j, n + 1, Step(d, i))
  {
    hide Step, Establishing, Rekeying;
    if n <= 54 {
      EstablishingStep(j, n, d, i);
    } else {
      RekeyingStep(j, n, d, i);
    }
  }

  // From Init, Stream or Rekey one init pulse is answered in exactly 113 clocks,
  // whatever the other inputs do: the machine is then in Stream for the first
  // time, idle, and holds the results of the block cipher function.
  lemma InitTakes113Clocks(c: Cipher, ins: seq<Inputs>)
    requires Accepted(c, ins)
    ensures forall n | 1 <= n < 113 :: Run(c, ins[..n]).state !in {Init, Stream, Rekey}
    ensures var j := JobOf(c, ins);
            var e := Rekeyed(j.Session(), j.seed, 56);
            Run(c, ins) == Cipher(Stream, IDLE, j.Ks(), j.Ki(), MValue(j.Session(), j.seed), e.block, e.lfsr)
  {
    hide Step, Rekeyed;
    var j := JobOf(c, ins);
    forall n | 1 <= n < 113
      ensures Run(c, ins[..n]).state !in {Init, Stream, Rekey}
    {
      InitFollowsTimeline(c, ins, n);
    }
    InitFollowsTimeline(c, ins, 113);
    assert ins[..113] == ins;
    var m := Run(c, ins).mi;
    assert m == m[..16] + m[16..32] + m[32..48] + m[48..];
  }

  // ---- Streaming and rekeying: the machine without its one-clock delay ----

  // The engine once the operation already registered has been carried out.
  function View(c: Cipher): Engine {
    Engine(if c.ctl.advanceBlock then Round(c.block, c.ctl.rekey, OneBit(c.lfsr)) else c.block,
           if c.ctl.advanceLfsr then Advance(c.lfsr) else c.lfsr)
  }

  ghost function StreamRounds(e: Engine, n: nat): Engine {
    if n == 0 then e
    else
      var p := StreamRounds(e, n - 1);
      Engine(Round(p.block, false, 0), Advance(p.lfsr))
  }

  ghost function Requests(ins: seq<Inputs>): nat {
    if ins == [] then 0 else Requests(ins[..|ins| - 1]) + if ins[|ins| - 1].stream then 1 else 0
  }

  lemma StreamStep(c: Cipher, i: Inputs)
    requires c.state == Stream && CtlFits(Stream, c.ctl) && !i.reset && (i.init || !i.rekey)
    ensures View(Step(c, i)) == StreamRounds(View(c), if i.stream then 1 else 0)
    ensures Step(c, i).ctl.ready && Step(c, i).ctl.cnt == 0
    ensures Step(c, i).state == if i.init then Block1 else Stream
  {
    hide Round, Advance, OneBit, Loaded, LoadIv;
    var d := Step(c, i);
    PlainRoundIgnoresBit(d.block, OneBit(d.lfsr));
    assert StreamRounds(View(c), 0) == View(c);
  }

  // In Stream the engine moves once for every clock that asks for data, and
  // not otherwise.
  lemma {:induction false} StreamAdvancesOnRequest(c: Cipher, ins: seq<Inputs>)
    requires c.state == Stream && CtlFits(Stream, c.ctl) && NoReset(ins)
    requires forall i <- ins :: !i.init && !i.rekey
    ensures var d := Run(c, ins);
            d.state == Stream && CtlFits(Stream, d.ctl) && View(d) == StreamRounds(View(c), Requests(ins))
  {
    hide Step, View, CtlFits, Round, Advance;
    if ins == [] {
    } else {
      var n := |ins| - 1;
      StreamAdvancesOnRequest(c, ins[..n]);
      var d := Run(c, ins[..n]);
      RunSnoc(c, ins, n);
      assert ins[..n + 1] == ins;
      StreamStep(d, ins[n]);
      StepFits(d, ins[n]);
    }
  }

  lemma StepFits(c: Cipher, i: Inputs)
    requires CtlFits(c.state, c.ctl) && !i.reset
    ensures CtlFits(Step(c, i).state, Step(c, i).ctl)
  {
    hide CtlFits, NextCState, NextCtl, NextBlock, NextLfsr, NextMi, Bo;
    NextCtlFits(c.state, c.ctl, i);
  }

  // The rounds a rekey accepted in Stream will run: the step counter is not
  // cleared in the first Stream clock after a rekey.
  function RekeyLength(c: Cipher): nat {
    if c.ctl.cnt == 0 then 56 else 2
  }

  ghost predicate RekeyAccepted(c: Cipher, ins: seq<Inputs>) {
    && c.state == Stream && CtlFits(Stream, c.ctl) && NoReset(ins)
    && |ins| >= RekeyLength(c) && ins[0].rekey && forall n | 0 <= n < RekeyLength(c) :: !ins[n].init
  }

  ghost predicate RekeyTimeline(c: Cipher, n: nat, d: Cipher) {
    && d.state == (if n < RekeyLength(c) then Rekey else Stream)
    && d.ctl == RekeyCtl(Wrap6(c.ctl.cnt + n), c.ctl.auth)
    && View(d) == RekeyRounds(View(c), n)
    && d.ks == c.ks && d.ki == c.ki && d.mi == c.mi
  }

  lemma RekeyStarts(c: Cipher, i: Inputs)
    requires c.state == Stream && CtlFits(Stream, c.ctl) && !i.reset && !i.init && i.rekey
    ensures RekeyTimeline(c, 1, Step(c, i))
  {
    hide Round, Advance, OneBit, Loaded, LoadIv, Bo, BlockInput, Kmod;
    assert RekeyRounds(View(c), 0) == View(c);
  }

  lemma RekeyContinues(c: Cipher, n: nat, d: Cipher, i: Inputs)
    requires CtlFits(Stream, c.ctl) && !i.reset && !i.init && 1 <= n < RekeyLength(c) && RekeyTimeline(c, n, d)
    ensures RekeyTimeline(c, n + 1, Step(d, i))
  {
    hide Round, Advance, OneBit, Loaded, LoadIv, Bo, BlockInput, Kmod;
  }

  // Rekey pulses during the rekey are ignored.
  lemma {:induction false} RekeyRunsItsLength(c: Cipher, ins: seq<Inputs>, n: nat)
    requires RekeyAccepted(c, ins) && 1 <= n <= RekeyLength(c)
    ensures RekeyTimeline(c, n, Run(c, ins[..n]))
  {
    hide Step, RekeyTimeline, View, CtlFits;
    RunSnoc(c, ins, n - 1);
    if n == 1 {
      RekeyStarts(c, ins[0]);
    } else {
      RekeyRunsItsLength(c, ins, n - 1);
      RekeyContinues(c, n - 1, Run(c, ins[..n - 1]), ins[n - 1]);
    }
  }

  // The promised 56 rounds are run if and only if the step counter is clear
  // when the pulse arrives.
  lemma RekeyIsWholeIffCounterClear(c: Cipher, ins: seq<Inputs>)
    requires RekeyAccepted(c, ins) && |ins| == 56 && forall i <- ins :: !i.init
    ensures (forall n | 1 <= n < 56 :: Run(c, ins[..n]).state == Rekey)
            && Run(c, ins).state == Stream && View(Run(c, ins)) == RekeyRounds(View(c), 56)
            <==> c.ctl.cnt == 0
  {
    hide Step, View, CtlFits, RekeyRounds;
    forall n | 1 <= n <= RekeyLength(c)
      ensures RekeyTimeline(c, n, Run(c, ins[..n]))
    {
      RekeyRunsItsLength(c, ins, n);
    }
    assert ins[..56] == ins;
    if c.ctl.cnt != 0 {
      assert Run(c, ins[..2]).state == Stream;
    }
  }

  // A pulse 56 clocks after an accepted one gets only two rounds of rekeying.
  lemma BackToBackRekeyIsCutShort(c: Cipher, ins: seq<Inputs>)
    requires RekeyAccepted(c, ins) && c.ctl.cnt == 0
    requires |ins| == 58 && ins[56].rekey && forall i <- ins :: !i.init
    ensures Run(c, ins).state == Stream
    ensures View(Run(c, ins)) == RekeyRounds(RekeyRounds(View(c), 56), 2)
  {
    hide Step, View, RekeyRounds;
    RekeyRunsItsLength(c, ins, 56);
    var d := Run(c, ins[..56]);
    RunSplit(c, ins, 56);
    RekeyRunsItsLength(d, ins[56..], 2);
    assert ins[56..][..2] == ins[56..];
  }

  // One clock of silence after a rekey is enough: the next one is full again.
  lemma SpacedRekeyIsWhole(c: Cipher, ins: seq<Inputs>)
    requires RekeyAccepted(c, ins) && c.ctl.cnt == 0
    requires |ins| == 57 && !ins[56].rekey && !ins[56].init
    ensures var d := Run(c, ins);
            && d.state == Stream && d.ctl.ready && RekeyLength(d) == 56
            && View(d) == StreamRounds(RekeyRounds(View(c), 56), if ins[56].stream then 1 else 0)
  {
    hide Step, View, RekeyRounds, StreamRounds, CtlFits;
    RekeyRunsItsLength(c, ins, 56);
    RunSnoc(c, ins, 56);
    assert ins[..57] == ins;
    assert CtlFits(Stream, RekeyCtl(56, c.ctl.auth)) by { RekeyCtlFitsStream(c.ctl.auth); }
    StreamStep(Run(c, ins[..56]), ins[56]);
  }

  lemma RekeyCtlFitsStream(auth: bool)
    ensures CtlFits(Stream, RekeyCtl(56, auth))
  {
  }
}
