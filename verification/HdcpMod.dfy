// The controller of overlay/hdcp_mod.v and its product with the cipher.
module HdcpMod {
  import opened Bits
  import C = HdcpCipher

  datatype MState =
    | Unplug | WaitAksv | WaitKmrdy
    | AuthPulse | AuthSent | AuthWait
    | AuthVsyncPulse | AuthVsyncSent | AuthVsyncWait
    | Wait1001 | Wait1001End
    | VsyncPulse | VsyncSent | VsyncWait
    | Ready | RekeySent | RekeyWait

  datatype Inputs = Inputs(
    rst: bool, hpd: bool, aksv: bool, vsync: bool, lineEnd: bool, code1001: bool,
    hdcpEna: bool, kmValid: bool, an: Word64, km: Word56)

  datatype Mod = Mod(
    state: MState, init: bool, auth: bool, vsyncD: bool, km0: bool, km1: bool, km2: bool, cipher: C.Cipher) {
    predicate StreamReady() {
      cipher.ctl.ready
    }
  }

  function VsyncRising(m: Mod, i: Inputs): bool {
    i.vsync && !m.vsyncD
  }

  function NextMState(m: Mod, i: Inputs): MState {
    var ready := m.StreamReady();
    match m.state
    case Unplug => if i.hpd then Unplug else WaitAksv
    case WaitAksv => if i.aksv then AuthPulse else WaitAksv
    case WaitKmrdy => if m.km2 then AuthPulse else WaitKmrdy
    case AuthPulse => AuthSent
    case AuthSent => if ready then AuthSent else AuthWait
    case AuthWait => if ready then AuthVsyncPulse else AuthWait
    case AuthVsyncPulse => AuthVsyncSent
    case AuthVsyncSent => if ready then AuthVsyncSent else AuthVsyncWait
    case AuthVsyncWait => if ready then Wait1001 else AuthVsyncWait
    case Wait1001 => if i.vsync && i.code1001 then Wait1001End else Wait1001
    case Wait1001End => if i.vsync && i.code1001 then Wait1001End else Ready
    case VsyncPulse => VsyncSent
    case VsyncSent => if ready then VsyncSent else VsyncWait
    case VsyncWait => if ready then Wait1001 else VsyncWait
    case Ready => if !ready then RekeyWait else if VsyncRising(m, i) then VsyncPulse else Ready
    case RekeySent => if ready then RekeySent else RekeyWait
    case RekeyWait => if ready then Ready else RekeyWait
  }

  function CipherInputs(m: Mod, i: Inputs): C.Inputs {
    C.Inputs(i.rst, i.km, i.an, m.init, m.auth, i.lineEnd, i.hdcpEna && m.state == Ready)
  }

  function Step(m: Mod, i: Inputs): Mod {
    var off := i.rst || i.hpd;
    Mod(if off then Unplug else if i.aksv then AuthPulse else NextMState(m, i),
        !off && m.state in {AuthPulse, AuthVsyncPulse, VsyncPulse},
        !off && m.state == AuthPulse,
        i.vsync,
        !off && i.kmValid, !off && m.km0, !off && m.km1,
        C.Step(m.cipher, CipherInputs(m, i)))
  }

  ghost function Run(m: Mod, ins: seq<Inputs>): Mod
    decreases |ins|
  {
    if ins == [] then m else Run(Step(m, ins[0]), ins[1..])
  }

  class ModUnit {
    var state: MState
    var init: bool
    var auth: bool
    var vsyncD: bool
    var km0: bool
    var km1: bool
    var km2: bool
    const cipher: C.CipherUnit

    function State(): Mod
      reads this, cipher, cipher.block, cipher.lfsr
    {
      Mod(state, init, auth, vsyncD, km0, km1, km2, cipher.State())
    }

    constructor ()
      ensures fresh(cipher) && fresh(cipher.block) && fresh(cipher.lfsr)
      ensures state == Unplug && !init && !auth && cipher.state == C.Init
    {
      state := Unplug;
      init, auth, vsyncD, km0, km1, km2 := false, false, false, false, false, false;
      cipher := new C.CipherUnit();
    }

    // The controller's own registers.
    method Latch(next: MState, i: Inputs)
      modifies this
      ensures var off := i.rst || i.hpd;
              && state == (if off then Unplug else if i.aksv then AuthPulse else next)
              && init == (!off && old(state) in {AuthPulse, AuthVsyncPulse, VsyncPulse})
              && auth == (!off && old(state) == AuthPulse) && vsyncD == i.vsync
              && km0 == (!off && i.kmValid) && km1 == (!off && old(km0)) && km2 == (!off && old(km1))
    {
      vsyncD := i.vsync;
      if i.rst || i.hpd {
        state := Unplug;
        auth, init := false, false;
        km0, km1, km2 := false, false, false;
      } else {
        km0, km1, km2 := i.kmValid, km0, km1;
        init := state in {AuthPulse, AuthVsyncPulse, VsyncPulse};
        auth := state == AuthPulse;
        state := if i.aksv then AuthPulse else next;
      }
    }

    method Clock(i: Inputs)
      modifies this, cipher, cipher.block, cipher.lfsr
      ensures State() == Step(old(State()), i)
    {
      hide C.Step, NextMState, CipherInputs, C.CipherUnit.State;
      var now := State();
      cipher.Clock(CipherInputs(now, i));
      Latch(NextMState(now, i), i);
    }

    // One clock for each of the inputs.
    method ClockAll(ins: seq<Inputs>)
      modifies this, cipher, cipher.block, cipher.lfsr
      ensures State() == Run(old(State()), ins)
    {
      hide Step, State;
      ghost var was := State();
      assert ins[0..] == ins;
      for n := 0 to |ins|
        invariant Run(State(), ins[n..]) == Run(was, ins)
      {
        assert ins[n..][1..] == ins[n + 1..];
        Clock(ins[n]);
      }
      assert ins[|ins|..] == [];
    }
  }

  // ---- Product invariant ----

  ghost predicate Inv(m: Mod) {
    && C.CtlFits(m.cipher.state, m.cipher.ctl)
    && m.state !in {WaitKmrdy, RekeySent}
    && (m.auth ==> m.init)
    && (m.init ==> m.state in {AuthPulse, AuthSent, AuthVsyncSent, VsyncSent})
    && (m.cipher.state == C.Block1 ==>
          m.state in {Unplug, AuthPulse, AuthSent, AuthWait, AuthVsyncSent, AuthVsyncWait, VsyncSent, VsyncWait})
    && (m.cipher.state in {C.Stream, C.Rekey} ==> !m.cipher.ctl.auth)
  }

  lemma InvIsInvariant(m: Mod, i: Inputs)
    requires i.rst || Inv(m)
    ensures Inv(Step(m, i))
  {
    hide C.NextBlock, C.NextLfsr, C.NextMi, C.CtlFits;
    if i.rst {
      ResetFits(m.cipher);
    } else {
      C.StepFits(m.cipher, CipherInputs(m, i));
    }
  }

  lemma ResetFits(c: C.Cipher)
    ensures C.CtlFits(C.Reset(c).state, C.Reset(c).ctl)
  {
  }

  // Whatever happens after a clock with reset, the invariant holds.
  lemma {:induction false} InvHoldsAfterReset(m: Mod, i: Inputs, ins: seq<Inputs>)
    requires i.rst || Inv(m)
    ensures Inv(Run(Step(m, i), ins))
    decreases |ins|
  {
    hide Step, Inv;
    InvIsInvariant(m, i);
    if ins != [] {
      InvHoldsAfterReset(Step(m, i), ins[0], ins[1..]);
    }
  }

  // ---- Nothing happens without a key write ----

  // After a reset or an unplug the controller only waits, and it stays unplugged
  // exactly as long as it is told so; after a reset the cipher stands still too.
  lemma {:induction false} NothingWithoutKeyWrite(m: Mod, ins: seq<Inputs>, n: nat)
    requires 0 < n <= |ins| && (ins[0].rst || ins[0].hpd) && forall i <- ins :: !i.aksv
    ensures var d, i := Run(m, ins[..n]), ins[n - 1];
            && d.state == (if i.rst || i.hpd then Unplug else WaitAksv) && !d.init && !d.auth
            && (ins[0].rst ==> d.cipher.state == C.Init && d.cipher.ks == Zeros(84) && !d.cipher.ctl.loadKs && !d.StreamReady())
    decreases n
  {
    hide C.NextBlock, C.NextLfsr, C.NextMi, Run;
    NothingRuns(m);
    assert ins[..0] == [];
    RunSnoc(m, ins, n - 1);
    assert ins[n - 1] in ins;
    if n > 1 {
      NothingWithoutKeyWrite(m, ins, n - 1);
    }
  }

  // ---- The core assumption ----

  lemma ReadyMeansStreaming(m: Mod)
    requires Inv(m) && m.StreamReady()
    ensures m.cipher.state in {C.Stream, C.Block1}
    ensures m.state in {Ready, RekeyWait} ==> m.cipher.state == C.Stream && m.cipher.ctl.cnt == 0 && !m.init
  {
  }

  // While the controller stays in Ready, the stream becomes unready exactly
  // when a line ended one clock earlier: vsync is never the cause.
  lemma OnlyLineEndMakesUnready(m: Mod, i: Inputs)
    requires Inv(m) && m.state == Ready && m.StreamReady()
    requires Step(m, i).state == Ready
    ensures !Step(m, i).StreamReady() <==> i.lineEnd
  {
    hide C.NextBlock, C.NextLfsr, C.NextMi;
    ReadyMeansStreaming(m);
  }

  // The stream is ready on a return to Ready exactly when the cipher is
  // streaming and no line ends in that clock.
  lemma ReadyOnReturnIff(m: Mod, i: Inputs)
    requires Inv(m) && m.state != Ready && Step(m, i).state == Ready
    ensures Step(m, i).StreamReady() <==> m.cipher.state == C.Stream && !i.lineEnd
    ensures m.state == RekeyWait ==> m.cipher.state == C.Stream
  {
    hide C.NextBlock, C.NextLfsr, C.NextMi;
  }

  // ---- Initialisations complete ----

  // The three places where the controller pulses init and waits for the stream.
  datatype Flow = Auth | AuthVsync | Vsync {
    function Pulse(): MState {
      match this case Auth => AuthPulse case AuthVsync => AuthVsyncPulse case Vsync => VsyncPulse
    }

    function Sent(): MState {
      match this case Auth => AuthSent case AuthVsync => AuthVsyncSent case Vsync => VsyncSent
    }

    function Wait(): MState {
      match this case Auth => AuthWait case AuthVsync => AuthVsyncWait case Vsync => VsyncWait
    }

    function Done(): MState {
      match this case Auth => AuthVsyncPulse case AuthVsync => Wait1001 case Vsync => Wait1001
    }

    predicate Covers(s: MState) {
      s in {Pulse(), Sent(), Wait()}
    }
  }

  // No interruption, and line ends at least 57 clocks apart, the last one
  // before these inputs having come age clocks ago.
  ghost predicate Calm(ins: seq<Inputs>, age: nat) {
    && (forall i <- ins :: !i.rst && !i.hpd && !i.aksv)
    && (forall a | 0 <= a < |ins| && ins[a].lineEnd :: age + a >= 57)
    && (forall a, b | 0 <= a < b < |ins| && ins[a].lineEnd && ins[b].lineEnd :: b - a >= 57)
  }

  function Age(age: nat, i: Inputs): nat {
    if i.lineEnd then 1 else age + 1
  }

  lemma CalmTail(ins: seq<Inputs>, age: nat)
    requires ins != [] && Calm(ins, age)
    ensures Calm(ins[1..], Age(age, ins[0]))
  {
    var t := ins[1..];
    forall a | 0 <= a < |t| && t[a].lineEnd
      ensures Age(age, ins[0]) + a >= 57
    {
      assert t[a] == ins[a + 1];
    }
    forall a, b | 0 <= a < b < |t| && t[a].lineEnd && t[b].lineEnd
      ensures b - a >= 57
    {
      assert t[a] == ins[a + 1] && t[b] == ins[b + 1];
    }
  }

  // The clocks a block cipher run still needs before it streams.
  function Remaining(s: C.CState, cnt: nat): int {
    match s
    case Block1 => 112
    case Block2 => 111 - cnt
    case Block3 => 63
    case Block4 => 62
    case Block5 => 61
    case Block6 => 60
    case Block7 => 59
    case Block8 => 58 - cnt
    case Block9 => 2
    case GetM => 1
    case _ => 0
  }

  // Where the cipher can be while the controller runs flow f.
  ghost predicate InFlow(f: Flow, m: Mod, age: nat) {
    var s, c := m.cipher.state, m.cipher.ctl;
    && f.Covers(m.state) && Inv(m)
    && if m.state == f.Pulse() then
         !m.init && (if s == C.Stream then c.ready && c.cnt == 0 else !c.ready && (s == C.Init || (s == C.Rekey && c.cnt == 1)))
       else if m.init then
         m.state == f.Sent() && (if s == C.Stream then c.ready else !c.ready && s in {C.Init, C.Rekey})
       else if m.state == f.Sent() then
         s == C.Block1 || (s == C.Block2 && c.cnt == 0)
       else
         && s != C.Init && (s == C.Block1 ==> !c.ready)
         && (s == C.Rekey ==> c.cnt <= 55 && age == c.cnt)
         && (s == C.Stream ==> c.cnt == 0 || (c.cnt == 56 && age == 56))
  }

  // A bound on the clocks until the flow is done.
  function Rank(f: Flow, m: Mod): int {
    var s, cnt := m.cipher.state, m.cipher.ctl.cnt;
    if m.state == f.Pulse() then 173
    else if m.init then 172
    else if m.StreamReady() && m.state == f.Wait() then 1
    else if s == C.Rekey then 58 - cnt
    else if s == C.Stream then (if cnt == 0 then 59 else 2)
    else 59 + Remaining(s, cnt)
  }

  predicate Finishing(f: Flow, m: Mod) {
    m.state == f.Wait() && m.StreamReady()
  }

  // The controller has just seen the stream ready; a line may have ended at
  // that very moment.
  ghost predicate JustDone(f: Flow, d: Mod, age: nat) {
    && d.state == f.Done() && Inv(d) && !d.init
    && (if d.cipher.state == C.Stream then d.StreamReady() && d.cipher.ctl.cnt == 0
        else d.cipher.state == C.Rekey && d.cipher.ctl.cnt == 1 && age == 1 && !d.StreamReady())
  }

  // What one clock of a flow establishes.
  ghost predicate Progress(f: Flow, m: Mod, n: Mod, age: nat) {
    && f.Covers(m.state)
    && if Finishing(f, m) then JustDone(f, n, age) else InFlow(f, n, age) && 0 < Rank(f, n) < Rank(f, m)
  }

  lemma InvGives(m: Mod)
    requires Inv(m)
    ensures C.CtlFits(m.cipher.state, m.cipher.ctl)
    ensures m.init ==> m.state in {AuthPulse, AuthSent, AuthVsyncSent, VsyncSent}
    ensures m.cipher.state in {C.Stream, C.Rekey} ==> !m.cipher.ctl.auth
  {
  }

  lemma FlowStepPulse(f: Flow, m: Mod, i: Inputs, age: nat)
    requires InFlow(f, m, age) && m.state == f.Pulse() && !i.rst && !i.hpd && !i.aksv
    ensures Progress(f, m, Step(m, i), Age(age, i))
  {
    hide C.NextBlock, C.NextLfsr, C.NextMi, Inv;
    InvIsInvariant(m, i);
    InvGives(m);
  }

  lemma FlowStepSent(f: Flow, m: Mod, i: Inputs, age: nat)
    requires InFlow(f, m, age) && !i.rst && !i.hpd && !i.aksv
    requires m.state == f.Sent() && m.init
    ensures Progress(f, m, Step(m, i), Age(age, i))
  {
    hide C.NextBlock, C.NextLfsr, C.NextMi, Inv;
    InvIsInvariant(m, i);
    InvGives(m);
  }

  lemma FlowStepAccepted(f: Flow, m: Mod, i: Inputs, age: nat)
    requires InFlow(f, m, age) && !i.rst && !i.hpd && !i.aksv
    requires m.state == f.Sent() && !m.init
    ensures Progress(f, m, Step(m, i), Age(age, i))
  {
    hide C.NextBlock, C.NextLfsr, C.NextMi, Inv;
    InvIsInvariant(m, i);
    InvGives(m);
  }

  lemma FlowStepCounting(f: Flow, m: Mod, i: Inputs, age: nat)
    requires InFlow(f, m, age) && !i.rst && !i.hpd && !i.aksv
    requires m.state == f.Wait() && m.cipher.state in {C.Block1, C.Block2, C.Block8}
    ensures Progress(f, m, Step(m, i), Age(age, i))
  {
    hide C.NextBlock, C.NextLfsr, C.NextMi, Inv;
    InvIsInvariant(m, i);
    InvGives(m);
  }

  lemma FlowStepBetween(f: Flow, m: Mod, i: Inputs, age: nat)
    requires InFlow(f, m, age) && !i.rst && !i.hpd && !i.aksv
    requires m.state == f.Wait() && m.cipher.state !in {C.Block1, C.Block2, C.Block8, C.Stream, C.Rekey}
    ensures Progress(f, m, Step(m, i), Age(age, i))
  {
    hide C.NextBlock, C.NextLfsr, C.NextMi, Inv;
    InvIsInvariant(m, i);
    InvGives(m);
  }

  lemma FlowStepRekey(f: Flow, m: Mod, i: Inputs, age: nat)
    requires InFlow(f, m, age) && !i.rst && !i.hpd && !i.aksv && (i.lineEnd ==> age >= 57)
    requires m.state == f.Wait() && m.cipher.state == C.Rekey
    ensures Progress(f, m, Step(m, i), Age(age, i))
  {
    hide C.NextBlock, C.NextLfsr, C.NextMi, Inv;
    InvIsInvariant(m, i);
    InvGives(m);
  }

  lemma FlowStepStream(f: Flow, m: Mod, i: Inputs, age: nat)
    requires InFlow(f, m, age) && !i.rst && !i.hpd && !i.aksv && (i.lineEnd ==> age >= 57)
    requires m.state == f.Wait() && m.cipher.state == C.Stream
    ensures Progress(f, m, Step(m, i), Age(age, i))
  {
    hide C.NextBlock, C.NextLfsr, C.NextMi, Inv;
    InvIsInvariant(m, i);
    InvGives(m);
  }

  lemma FlowStep(f: Flow, m: Mod, i: Inputs, age: nat)
    requires InFlow(f, m, age) && !i.rst && !i.hpd && !i.aksv && (i.lineEnd ==> age >= 57)
    ensures Progress(f, m, Step(m, i), Age(age, i))
  {
    hide Step, Progress;
    if m.state == f.Pulse() {
      FlowStepPulse(f, m, i, age);
    } else if m.state == f.Sent() && m.init {
      FlowStepSent(f, m, i, age);
    } else if m.state == f.Sent() {
      FlowStepAccepted(f, m, i, age);
    } else if m.cipher.state == C.Rekey {
      FlowStepRekey(f, m, i, age);
    } else if m.cipher.state == C.Stream {
      FlowStepStream(f, m, i, age);
    } else if m.cipher.state in {C.Block1, C.Block2, C.Block8} {
      FlowStepCounting(f, m, i, age);
    } else {
      FlowStepBetween(f, m, i, age);
    }
  }

  ghost function AgeAfter(age: nat, ins: seq<Inputs>): nat
    decreases |ins|
  {
    if ins == [] then age else AgeAfter(Age(age, ins[0]), ins[1..])
  }

  lemma RunPrefix(m: Mod, ins: seq<Inputs>, k: nat)
    requires 0 < k <= |ins|
    ensures Run(m, ins[..k]) == Run(Step(m, ins[0]), ins[1..][..k - 1])
    ensures ins[1..][k - 1..] == ins[k..]
  {
    hide Step;
    assert ins[..k][1..] == ins[1..][..k - 1];
  }

  // Waiting, with the cipher already streaming or rekeying again.
  predicate Settled(f: Flow, m: Mod) {
    m.state == f.Wait() && m.cipher.state in {C.Stream, C.Rekey}
  }

  predicate SameKeys(a: C.Cipher, b: C.Cipher) {
    a.ks == b.ks && a.ki == b.ki && a.mi == b.mi
  }

  lemma KeysStayOutsideBlocks(m: Mod, i: Inputs)
    requires Inv(m) && m.cipher.state in {C.Init, C.Stream, C.Rekey} && !i.rst
    ensures SameKeys(Step(m, i).cipher, m.cipher)
  {
    hide C.NextBlock, C.NextLfsr;
  }

  lemma SettledStep(f: Flow, m: Mod, i: Inputs, age: nat)
    requires InFlow(f, m, age) && Settled(f, m) && !i.rst && !i.hpd && !i.aksv
    ensures SameKeys(Step(m, i).cipher, m.cipher)
    ensures Finishing(f, m) || Settled(f, Step(m, i))
  {
    hide C.NextBlock, C.NextLfsr, C.NextMi, SameKeys;
    KeysStayOutsideBlocks(m, i);
  }

  // A started flow is done within Rank clocks.
  lemma {:induction false} FlowCompletes(f: Flow, m: Mod, ins: seq<Inputs>, age: nat) returns (k: nat)
    requires InFlow(f, m, age) && Calm(ins, age) && |ins| >= Rank(f, m) > 0
    ensures 0 < k <= Rank(f, m)
    ensures forall n | 0 <= n < k :: InFlow(f, Run(m, ins[..n]), AgeAfter(age, ins[..n]))
    ensures JustDone(f, Run(m, ins[..k]), AgeAfter(age, ins[..k]))
    ensures Calm(ins[k..], AgeAfter(age, ins[..k]))
    ensures Settled(f, m) ==> SameKeys(Run(m, ins[..k]).cipher, m.cipher)
    ensures Settled(f, m) ==> forall n | 0 <= n < k :: Settled(f, Run(m, ins[..n]))
    decreases |ins|
  {
    hide Step, Rank, InFlow, Finishing, JustDone, Calm, Settled;
    var n := Step(m, ins[0]);
    CalmHead(ins, age);
    FlowStep(f, m, ins[0], age);
    if Settled(f, m) {
      SettledStep(f, m, ins[0], age);
    }
    CalmTail(ins, age);
    if Finishing(f, m) {
      k := 1;
      RunPrefix(m, ins, 1);
      assert AgeAfter(age, ins[..1]) == Age(age, ins[0]);
    } else {
      var j := FlowCompletes(f, n, ins[1..], Age(age, ins[0]));
      k := j + 1;
      RunPrefix(m, ins, k);
      assert ins[..k][1..] == ins[1..][..j];
      forall q | 0 < q < k
        ensures InFlow(f, Run(m, ins[..q]), AgeAfter(age, ins[..q]))
        ensures Settled(f, m) ==> Settled(f, Run(m, ins[..q]))
      {
        RunPrefix(m, ins, q);
        assert ins[..q][1..] == ins[1..][..q - 1];
      }
    }
  }

  lemma CalmHead(ins: seq<Inputs>, age: nat)
    requires ins != [] && Calm(ins, age)
    ensures !ins[0].rst && !ins[0].hpd && !ins[0].aksv && (ins[0].lineEnd ==> age >= 57)
  {
  }

  // ---- What a flow delivers ----

  // The inputs the cipher sees during a run of the product.
  ghost function Trace(m: Mod, ins: seq<Inputs>): (t: seq<C.Inputs>)
    ensures |t| == |ins|
    decreases |ins|
  {
    if ins == [] then [] else [CipherInputs(m, ins[0])] + Trace(Step(m, ins[0]), ins[1..])
  }

  lemma {:induction false} CipherFollowsTrace(m: Mod, ins: seq<Inputs>, n: nat)
    requires n < |ins|
    ensures Run(m, ins).cipher == C.Run(m.cipher, Trace(m, ins))
    ensures Trace(m, ins)[n] == CipherInputs(Run(m, ins[..n]), ins[n])
    decreases |ins|
  {
    hide C.Step, CipherInputs, NextMState;
    var next := Step(m, ins[0]);
    if |ins| > 1 {
      CipherFollowsTrace(next, ins[1..], if n == 0 then 0 else n - 1);
    }
    if n == 0 {
      assert ins[..0] == [];
    } else {
      RunPrefix(m, ins, n);
    }
  }

  lemma {:induction false} TracePrefix(m: Mod, ins: seq<Inputs>, n: nat)
    requires n <= |ins|
    ensures Trace(m, ins[..n]) == Trace(m, ins)[..n]
    decreases n
  {
    hide Step, CipherInputs;
    if n > 0 {
      TracePrefix(Step(m, ins[0]), ins[1..], n - 1);
      assert ins[..n][1..] == ins[1..][..n - 1];
    }
  }

  lemma {:induction false} RunSplit(m: Mod, ins: seq<Inputs>, n: nat, k: nat)
    requires n <= k <= |ins|
    ensures Run(m, ins[..k]) == Run(Run(m, ins[..n]), ins[n..][..k - n])
    ensures ins[n..][k - n..] == ins[k..]
    decreases n
  {
    hide Step;
    if n == 0 {
      assert ins[0..] == ins;
    } else {
      RunPrefix(m, ins, n);
      RunPrefix(m, ins, k);
      RunSplit(Step(m, ins[0]), ins[1..], n - 1, k - 1);
      assert ins[1..][n - 1..] == ins[n..];
    }
  }

  lemma {:induction false} AgeSplit(age: nat, ins: seq<Inputs>, n: nat, k: nat)
    requires n <= k <= |ins|
    ensures AgeAfter(age, ins[..k]) == AgeAfter(AgeAfter(age, ins[..n]), ins[n..][..k - n])
    decreases n
  {
    if n == 0 {
      assert ins[0..] == ins;
    } else {
      AgeSplit(Age(age, ins[0]), ins[1..], n - 1, k - 1);
      assert ins[..n][1..] == ins[1..][..n - 1] && ins[..k][1..] == ins[1..][..k - 1] && ins[1..][n - 1..] == ins[n..];
    }
  }

  lemma {:induction false} CalmDrop(ins: seq<Inputs>, age: nat, n: nat)
    requires n <= |ins| && Calm(ins, age)
    ensures Calm(ins[n..], AgeAfter(age, ins[..n]))
    decreases n
  {
    hide Calm;
    if n == 0 {
      assert ins[0..] == ins;
    } else {
      CalmTail(ins, age);
      CalmDrop(ins[1..], Age(age, ins[0]), n - 1);
      assert ins[..n][1..] == ins[1..][..n - 1] && ins[1..][n - 1..] == ins[n..];
    }
  }

  // The operands of the initialisation that a flow starts. An authentication
  // that meets a rekey is carried out as a plain initialisation.
  ghost function FlowJob(f: Flow, m: Mod, ins: seq<Inputs>): C.Job
    requires |ins| > 3
  {
    var auth := f == Auth && Step(m, ins[0]).cipher.state != C.Rekey;
    C.Job(auth, m.cipher.ks, m.cipher.ki, m.cipher.mi,
          if auth then ins[3].km else m.cipher.ks[..56],
          if auth then ins[3].an else m.cipher.mi)
  }

  ghost predicate Holds(c: C.Cipher, j: C.Job) {
    c.ks == j.Ks() && c.ki == j.Ki() && c.mi == C.MValue(j.Session(), j.seed)
  }

  // The first clock of streaming: block module and shift registers are as 56
  // rekey rounds leave them.
  ghost predicate Answered(c: C.Cipher, j: C.Job) {
    c.state == C.Stream && c.ctl == C.IDLE && Holds(c, j)
    && C.Engine(c.block, c.lfsr) == C.Rekeyed(j.Session(), j.seed, 56)
  }

  // The pulse of the flow is not answered yet.
  predicate Opening(f: Flow, m: Mod) {
    f.Covers(m.state) && (m.state == f.Wait() ==> m.cipher.state !in {C.Init, C.Stream, C.Rekey})
  }

  // From the pulse to clock k: no answer for 114 clocks, then the right one,
  // then waiting.
  ghost predicate Delivered(f: Flow, m: Mod, ins: seq<Inputs>, k: nat)
    requires 114 < k <= |ins|
  {
    && (forall n | 0 <= n < 114 :: Opening(f, Run(m, ins[..n])))
    && Answered(Run(m, ins[..114]).cipher, FlowJob(f, m, ins))
    && (forall n | 114 <= n < k :: Settled(f, Run(m, ins[..n])))
  }

  lemma PulseIsAccepted(f: Flow, m: Mod, ins: seq<Inputs>, age: nat)
    requires InFlow(f, m, age) && m.state == f.Pulse() && Calm(ins, age) && |ins| >= 114
    requires f == Auth ==> ins[54].an == ins[3].an
    ensures var n, rest := Step(m, ins[0]), ins[1..][..113];
            C.Accepted(n.cipher, Trace(n, rest)) && C.JobOf(n.cipher, Trace(n, rest)) == FlowJob(f, m, ins)
  {
    hide Step, NextMState, InFlow, C.CtlFits;
    var n, rest := Step(m, ins[0]), ins[1..][..113];
    PulseSets(f, m, ins[0], age);
    var t := Trace(n, rest);
    forall q | 0 <= q < 113
      ensures t[q] == CipherInputs(Run(n, rest[..q]), ins[q + 1]) && !t[q].reset
    {
      assert rest[q] == ins[q + 1];
      CipherFollowsTrace(n, rest, q);
    }
    assert rest[..0] == [] && t[0] == CipherInputs(n, ins[1]);
  }

  // The pulse is accepted, and 113 clocks later the cipher has its results.
  lemma PulseDelivers(f: Flow, m: Mod, ins: seq<Inputs>, age: nat)
    requires InFlow(f, m, age) && m.state == f.Pulse() && Calm(ins, age) && |ins| >= 114
    requires f == Auth ==> ins[54].an == ins[3].an
    ensures forall n | 2 <= n < 114 :: Run(m, ins[..n]).cipher.state !in {C.Init, C.Stream, C.Rekey}
    ensures Answered(Run(m, ins[..114]).cipher, FlowJob(f, m, ins))
  {
    hide Step, Run, Trace, Calm, C.Run, C.Rekeyed, C.MValue, C.SessionKey, InFlow, C.Accepted, C.JobOf, FlowJob;
    var n, rest := Step(m, ins[0]), ins[1..][..113];
    PulseIsAccepted(f, m, ins, age);
    C.InitTakes113Clocks(n.cipher, Trace(n, rest));
    CipherFollowsTrace(n, rest, 0);
    RunPrefix(m, ins, 114);
    forall q | 2 <= q < 114
      ensures Run(m, ins[..q]).cipher.state !in {C.Init, C.Stream, C.Rekey}
    {
      RunOfTrace(m, ins, q);
    }
  }

  lemma RunOfTrace(m: Mod, ins: seq<Inputs>, q: nat)
    requires 2 <= q <= 114 <= |ins|
    ensures var n, rest := Step(m, ins[0]), ins[1..][..113];
            Run(m, ins[..q]).cipher == C.Run(n.cipher, Trace(n, rest)[..q - 1])
  {
    hide Step, Run, Trace, C.Run;
    var n, rest := Step(m, ins[0]), ins[1..][..113];
    RunPrefix(m, ins, q);
    assert rest[..q - 1] == ins[1..][..q - 1];
    TracePrefix(n, rest, q - 1);
    CipherFollowsTrace(n, rest[..q - 1], 0);
  }

  lemma PulseSets(f: Flow, m: Mod, i: Inputs, age: nat)
    requires InFlow(f, m, age) && m.state == f.Pulse() && !i.rst && !i.hpd && !i.aksv
    ensures var n := Step(m, i);
            && n.state == f.Sent() && n.init && n.auth == (f == Auth) && SameKeys(n.cipher, m.cipher)
            && n.cipher.state in {C.Init, C.Stream, C.Rekey} && C.CtlFits(n.cipher.state, n.cipher.ctl)
            && (n.cipher.state == C.Rekey ==> !n.cipher.ctl.auth)
  {
    hide C.NextBlock, C.NextLfsr, C.NextMi, SameKeys, Inv;
    InvGives(m);
    FlowStepPulse(f, m, i, age);
    KeysStayOutsideBlocks(m, i);
    InvGives(Step(m, i));
  }

  lemma IdleIsSettled(f: Flow, d: Mod, age: nat)
    requires InFlow(f, d, age) && d.cipher.state == C.Stream && d.cipher.ctl == C.IDLE
    ensures Settled(f, d) && Rank(f, d) == 59
  {
  }

  lemma FreshIsNotDone(f: Flow, d: Mod, age: nat)
    requires JustDone(f, d, age)
    ensures d.cipher.state in {C.Stream, C.Rekey} && d.cipher.ctl != C.IDLE && d.state != f.Sent()
  {
  }

  // From its pulse every flow is done within 173 clocks, and the cipher then
  // holds the results of the block cipher function on the flow's operands.
  lemma FlowDelivers(f: Flow, m: Mod, ins: seq<Inputs>, age: nat) returns (k: nat)
    requires InFlow(f, m, age) && m.state == f.Pulse() && Calm(ins, age) && |ins| >= 173
    requires f == Auth ==> ins[54].an == ins[3].an
    ensures 114 < k <= 173
    ensures forall n | 0 <= n < k :: f.Covers(Run(m, ins[..n]).state)
    ensures JustDone(f, Run(m, ins[..k]), AgeAfter(age, ins[..k])) && Holds(Run(m, ins[..k]).cipher, FlowJob(f, m, ins))
    ensures Calm(ins[k..], AgeAfter(age, ins[..k]))
    ensures Delivered(f, m, ins, k)
  {
    hide Step, Calm, InFlow, JustDone, Holds, Answered, Delivered, Opening, FlowJob, Settled, Rank, Run;
    assert Rank(f, m) == 173 by { PulseRank(f, m); }
    var k1 := FlowCompletes(f, m, ins, age);
    PulseDelivers(f, m, ins, age);
    AnsweredIsIdle(Run(m, ins[..114]).cipher, FlowJob(f, m, ins));
    FreshIsNotDone(f, Run(m, ins[..k1]), AgeAfter(age, ins[..k1]));
    CalmHead(ins, age);
    PulseSets(f, m, ins[0], age);
    RunPrefix(m, ins, 1);
    NothingRuns(Step(m, ins[0]));
    assert ins[1..][..0] == [];
    assert Run(m, ins[..1]).state == f.Sent();
    assert k1 > 114;
    var d, a := Run(m, ins[..114]), AgeAfter(age, ins[..114]);
    IdleIsSettled(f, d, a);
    CalmDrop(ins, age, 114);
    var k2 := FlowCompletes(f, d, ins[114..], a);
    k := 114 + k2;
    RunSplit(m, ins, 114, k);
    AgeSplit(age, ins, 114, k);
    CalmDrop(ins, age, k);
    assert Holds(Run(m, ins[..k]).cipher, FlowJob(f, m, ins)) by { SameKeysHold(d.cipher, Run(m, ins[..k]).cipher, FlowJob(f, m, ins)); }
    forall n | 0 <= n < k
      ensures f.Covers(Run(m, ins[..n]).state)
    {
      if n <= 114 {
        InFlowIsCovered(f, Run(m, ins[..n]), AgeAfter(age, ins[..n]));
      } else {
        RunSplit(m, ins, 114, n);
        InFlowIsCovered(f, Run(m, ins[..n]), AgeAfter(a, ins[114..][..n - 114]));
      }
    }
    forall n | 114 <= n < k
      ensures Settled(f, Run(m, ins[..n]))
    {
      RunSplit(m, ins, 114, n);
    }
    NothingRuns(m);
    assert ins[..0] == [];
    forall n | 0 <= n < 114
      ensures Opening(f, Run(m, ins[..n]))
    {
      IsOpening(f, Run(m, ins[..n]), n);
    }
    IsDelivered(f, m, ins, k);
  }

  lemma NothingRuns(m: Mod)
    ensures Run(m, []) == m
  {
  }

  lemma AnsweredIsIdle(c: C.Cipher, j: C.Job)
    requires Answered(c, j)
    ensures c.state == C.Stream && c.ctl == C.IDLE && Holds(c, j)
  {
  }

  lemma IsOpening(f: Flow, m: Mod, n: nat)
    requires f.Covers(m.state)
    requires if n == 0 then m.state == f.Pulse() else if n == 1 then m.state == f.Sent()
             else m.cipher.state !in {C.Init, C.Stream, C.Rekey}
    ensures Opening(f, m)
  {
  }

  lemma IsDelivered(f: Flow, m: Mod, ins: seq<Inputs>, k: nat)
    requires 114 < k <= |ins| && forall n | 0 <= n < 114 :: Opening(f, Run(m, ins[..n]))
    requires Answered(Run(m, ins[..114]).cipher, FlowJob(f, m, ins))
    requires forall n | 114 <= n < k :: Settled(f, Run(m, ins[..n]))
    ensures Delivered(f, m, ins, k)
  {
  }

  lemma PulseRank(f: Flow, m: Mod)
    requires m.state == f.Pulse()
    ensures Rank(f, m) == 173
  {
  }

  lemma InFlowIsCovered(f: Flow, m: Mod, age: nat)
    requires InFlow(f, m, age)
    ensures f.Covers(m.state)
  {
  }

  lemma SameKeysHold(a: C.Cipher, b: C.Cipher, j: C.Job)
    requires Holds(a, j) && SameKeys(a, b)
    ensures Holds(b, j)
  {
    hide C.MValue, C.SessionKey;
  }

  // What the cipher holds after a frame initialisation from ks and mi.
  ghost predicate FrameKeys(c: C.Cipher, ks: Word84, mi: Word64) {
    var ki := C.SessionKey(ks[..56], mi);
    c.ks == ks && c.ki == ki && c.mi == C.MValue(ki, mi)
  }

  // What it holds after an authentication and the frame initialisation after that.
  ghost predicate Authenticated(c: C.Cipher, km: Word56, an: Word64) {
    var ks := C.SessionKey(km, an);
    FrameKeys(c, ks, C.MValue(ks, an))
  }

  // A frame init issued from Ready is always accepted, even when it collides
  // with a rekey: within 174 clocks the controller waits for the next frame
  // with Ki and Mi refreshed from Ks and the old Mi.
  lemma FrameInitDelivers(m: Mod, ins: seq<Inputs>, age: nat) returns (k: nat)
    requires Inv(m) && m.state == Ready && m.StreamReady()
    requires |ins| >= 174 && Calm(ins, age) && VsyncRising(m, ins[0])
    ensures 115 < k <= 174
    ensures forall n | 0 < n < k :: Vsync.Covers(Run(m, ins[..n]).state)
    ensures var d := Run(m, ins[..k]);
            && d.state == Wait1001 && Inv(d) && !d.init && d.cipher.state in {C.Stream, C.Rekey}
            && FrameKeys(d.cipher, m.cipher.ks, m.cipher.mi)
  {
    hide Step, Calm, InFlow, Inv, Delivered, Run, C.SessionKey, C.MValue;
    var n := Step(m, ins[0]);
    CalmHead(ins, age);
    CalmTail(ins, age);
    FrameStarts(m, ins[0], Age(age, ins[0]));
    var j := FlowDelivers(Vsync, n, ins[1..], Age(age, ins[0]));
    k := j + 1;
    RunPrefix(m, ins, k);
    forall q | 0 < q < k
      ensures Vsync.Covers(Run(m, ins[..q]).state)
    {
      RunPrefix(m, ins, q);
    }
  }

  lemma FrameStarts(m: Mod, i: Inputs, age: nat)
    requires Inv(m) && m.state == Ready && m.StreamReady() && VsyncRising(m, i)
    requires !i.rst && !i.hpd && !i.aksv
    ensures InFlow(Vsync, Step(m, i), age) && Step(m, i).state == VsyncPulse
    ensures SameKeys(Step(m, i).cipher, m.cipher)
  {
    hide C.NextBlock, C.NextLfsr, C.NextMi, SameKeys;
    InvIsInvariant(m, i);
    ReadyMeansStreaming(m);
    KeysStayOutsideBlocks(m, i);
  }

  // Two initialisations follow an accepted authentication: Ks comes from Km and
  // An, then Ki and the frame's Mi from Ks and M0.
  lemma AuthenticationDelivers(m: Mod, ins: seq<Inputs>, age: nat) returns (k: nat)
    requires m.state == AuthPulse && InFlow(Auth, m, age) && Calm(ins, age) && |ins| >= 346
    requires Step(m, ins[0]).cipher.state != C.Rekey && ins[54].an == ins[3].an
    ensures 228 < k <= 346
    ensures forall n | 0 <= n < k :: Auth.Covers(Run(m, ins[..n]).state) || AuthVsync.Covers(Run(m, ins[..n]).state)
    ensures var d := Run(m, ins[..k]);
            && d.state == Wait1001 && Inv(d) && !d.init && d.cipher.state in {C.Stream, C.Rekey}
            && Authenticated(d.cipher, ins[3].km, ins[3].an)
  {
    hide Step, Calm, InFlow, Inv, Delivered, Run, C.SessionKey, C.MValue;
    var k1 := FlowDelivers(Auth, m, ins, age);
    var d, a := Run(m, ins[..k1]), AgeAfter(age, ins[..k1]);
    NextFlowStarts(d, a);
    var k2 := FlowDelivers(AuthVsync, d, ins[k1..], a);
    k := k1 + k2;
    RunSplit(m, ins, k1, k);
    forall n | 0 <= n < k
      ensures Auth.Covers(Run(m, ins[..n]).state) || AuthVsync.Covers(Run(m, ins[..n]).state)
    {
      if n >= k1 {
        RunSplit(m, ins, k1, n);
      }
    }
  }

  lemma NextFlowStarts(d: Mod, age: nat)
    requires JustDone(Auth, d, age)
    ensures InFlow(AuthVsync, d, age)
  {
  }

  // A write of the last Aksv byte starts such a flow when the cipher is idle or
  // streaming; it is honoured as an authentication unless a line has just ended.
  lemma AksvStartsAuthentication(m: Mod, i: Inputs, j: Inputs, age: nat)
    requires Inv(m) && !m.init && m.state != VsyncPulse && m.state != AuthVsyncPulse && m.state != AuthPulse
    requires m.cipher.state == C.Init || (m.cipher.state == C.Stream && m.StreamReady())
    requires i.aksv && !i.rst && !i.hpd && !j.rst
    ensures var n := Step(m, i);
            && n.state == AuthPulse && InFlow(Auth, n, age)
            && (Step(n, j).cipher.state != C.Rekey <==> m.cipher.state == C.Init || !(i.lineEnd || j.lineEnd))
  {
    hide C.NextBlock, C.NextLfsr, C.NextMi;
    InvIsInvariant(m, i);
  }

  // ---- Returning to Ready with the stream unready ----

  // n clocks after a line ended in Ready, with nothing else happening.
  ghost predicate RekeyWaiting(n: nat, d: Mod) {
    && Inv(d)
    && d.state == (if n == 1 then Ready else RekeyWait)
    && d.cipher.state == (if n < 56 then C.Rekey else C.Stream)
    && d.cipher.ctl.cnt == (if n < 57 then n else 0)
    && d.StreamReady() == (n == 57)
  }

  lemma RekeyWaitingStarts(m: Mod, i: Inputs)
    requires Inv(m) && m.state == Ready && m.StreamReady()
    requires !i.rst && !i.hpd && !i.aksv && !VsyncRising(m, i) && i.lineEnd
    ensures RekeyWaiting(1, Step(m, i))
  {
    hide C.NextBlock, C.NextLfsr, C.NextMi, Inv;
    InvGives(m);
    ReadyMeansStreaming(m);
    InvIsInvariant(m, i);
  }

  lemma RekeyWaitingStep(n: nat, d: Mod, i: Inputs)
    requires 1 <= n <= 56 && RekeyWaiting(n, d)
    requires !i.rst && !i.hpd && !i.aksv && !i.lineEnd
    ensures RekeyWaiting(n + 1, Step(d, i))
  {
    hide C.NextBlock, C.NextLfsr, C.NextMi, Inv;
    InvGives(d);
    InvIsInvariant(d, i);
  }

  lemma {:induction false} RekeyWaits(m: Mod, ins: seq<Inputs>, n: nat)
    requires Inv(m) && m.state == Ready && m.StreamReady() && 1 <= n <= 57 && |ins| == 58
    requires forall q | 0 <= q < 58 :: !ins[q].rst && !ins[q].hpd && !ins[q].aksv && !ins[q].vsync
    requires forall q | 0 <= q < 57 :: ins[q].lineEnd <==> q == 0
    ensures RekeyWaiting(n, Run(m, ins[..n]))
  {
    hide Step, Inv, RekeyWaiting;
    RunSnoc(m, ins, n - 1);
    if n == 1 {
      RekeyWaitingStarts(m, ins[0]);
    } else {
      RekeyWaits(m, ins, n - 1);
      RekeyWaitingStep(n - 1, Run(m, ins[..n - 1]), ins[n - 1]);
    }
  }

  lemma {:induction false} RunSnoc(m: Mod, ins: seq<Inputs>, n: nat)
    requires n < |ins|
    ensures Run(m, ins[..n + 1]) == Step(Run(m, ins[..n]), ins[n])
  {
    hide Step;
    RunSplit(m, ins, n, n + 1);
    assert ins[n..][..1] == [ins[n]];
  }

  lemma RekeyWaitingEnds(d: Mod, i: Inputs)
    requires RekeyWaiting(57, d) && !i.rst && !i.hpd && !i.aksv && i.lineEnd
    ensures d.state == RekeyWait && Step(d, i).state == Ready && !Step(d, i).StreamReady()
  {
    hide C.NextBlock, C.NextLfsr, C.NextMi, Inv;
    InvGives(d);
    ReadyOnReturnIff(d, i);
  }

  // Two line ends 57 clocks apart bring the controller back to Ready with the
  // stream not ready, so being in Ready does not promise a ready stream.
  lemma ReturnToReadyUnready(m: Mod, ins: seq<Inputs>)
    requires Inv(m) && m.state == Ready && m.StreamReady() && |ins| == 58
    requires forall q | 0 <= q < 58 :: !ins[q].rst && !ins[q].hpd && !ins[q].aksv && !ins[q].vsync
    requires forall q | 0 <= q < 58 :: ins[q].lineEnd <==> q in {0, 57}
    ensures Run(m, ins[..57]).state == RekeyWait
    ensures Run(m, ins).state == Ready && !Run(m, ins).StreamReady()
  {
    hide Step, Inv, RekeyWaiting;
    RekeyWaits(m, ins, 57);
    RekeyWaitingEnds(Run(m, ins[..57]), ins[57]);
    RunSnoc(m, ins, 57);
    assert ins[..58] == ins;
  }
}
