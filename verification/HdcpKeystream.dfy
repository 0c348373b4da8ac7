// What controller and cipher deliver together, against a stream cipher whose
// frames and rekeys happen at once (overlay/hdcp_mod.v, overlay/hdcp_cipher.v).
module HdcpKeystream {
  import opened Bits
  import opened HdcpMod
  import C = HdcpCipher
  import HdcpBlock
  import HdcpLfsr

  // ---- The stream cipher, without clocks ----

  datatype Event = Frame | Line | Pixel

  datatype Keystream = Keystream(ks: Word84, ki: Word84, mi: Word64, engine: C.Engine)

  // A frame makes Ki from Ks and the last Mi, then a new Mi and a new engine; a
  // line is one whole rekey, a pixel one round.
  ghost function Apply(s: Keystream, v: Event): Keystream {
    match v
    case Frame =>
      var ki := C.SessionKey(s.ks[..56], s.mi);
      Keystream(s.ks, ki, C.MValue(ki, s.mi), C.Rekeyed(ki, s.mi, 56))
    case Line => s.(engine := C.RekeyRounds(s.engine, 56))
    case Pixel => s.(engine := C.StreamRounds(s.engine, 1))
  }

  ghost function ApplyAll(s: Keystream, vs: seq<Event>): Keystream
    decreases |vs|
  {
    if vs == [] then s else ApplyAll(Apply(s, vs[0]), vs[1..])
  }

  lemma ApplyOne(s: Keystream, v: Event)
    ensures ApplyAll(s, [v]) == Apply(s, v) && ApplyAll(s, []) == s
  {
    hide Apply;
    assert [v][1..] == [];
  }

  lemma {:induction false} ApplyConcat(s: Keystream, v: seq<Event>, w: seq<Event>)
    ensures ApplyAll(s, v + w) == ApplyAll(ApplyAll(s, v), w)
    decreases |v|
  {
    hide Apply;
    if v == [] {
      assert v + w == w;
    } else {
      assert (v + w)[1..] == v[1..] + w;
      ApplyConcat(Apply(s, v[0]), v[1..], w);
    }
  }

  // The engine once the operation in its control registers, and the rekey it is
  // in, have been carried out.
  ghost function Complete(c: C.Cipher): C.Engine {
    if c.state == C.Rekey && c.ctl.cnt <= 56 then C.RekeyRounds(C.View(c), 56 - c.ctl.cnt) else C.View(c)
  }

  ghost function StreamOf(c: C.Cipher): Keystream {
    Keystream(c.ks, c.ki, c.mi, Complete(c))
  }

  // ---- The events of a run ----

  // A clock in which the controller takes up a new frame.
  predicate Begins(m: Mod, i: Inputs) {
    m.state == Ready && m.StreamReady() && VsyncRising(m, i)
  }

  // The pulse of an initialisation is being sent.
  predicate Pulsing(s: MState) {
    s in {AuthPulse, AuthSent, AuthVsyncPulse, AuthVsyncSent, VsyncPulse, VsyncSent}
  }

  function EventOf(m: Mod, i: Inputs): seq<Event> {
    if Begins(m, i) || m.state == AuthVsyncPulse then [Frame]
    else if Pulsing(m.state) || m.cipher.state != C.Stream then []
    else if i.lineEnd then [Line]
    else if i.hdcpEna && m.state == Ready then [Pixel]
    else []
  }

  ghost function Events(m: Mod, ins: seq<Inputs>): seq<Event>
    decreases |ins|
  {
    if ins == [] then [] else EventOf(m, ins[0]) + Events(Step(m, ins[0]), ins[1..])
  }

  lemma {:induction false} EventsSplit(m: Mod, ins: seq<Inputs>, k: nat)
    requires k <= |ins|
    ensures Events(m, ins) == Events(m, ins[..k]) + Events(Run(m, ins[..k]), ins[k..])
    decreases k
  {
    hide Step, EventOf;
    if k == 0 {
      assert ins[0..] == ins;
    } else {
      assert ins[..k][1..] == ins[1..][..k - 1] && ins[1..][k - 1..] == ins[k..];
      EventsSplit(Step(m, ins[0]), ins[1..], k - 1);
    }
  }

  // ---- Clocks since the last line end that the cipher heeded ----

  // Outside the streaming state the cipher does not see a line end.
  function HeedAge(c: C.Cipher, lineEnd: bool, r: nat): nat {
    if lineEnd && c.state == C.Stream then 1 else r + 1
  }

  ghost function HeedAfter(m: Mod, ins: seq<Inputs>, r: nat): nat
    decreases |ins|
  {
    if ins == [] then r else HeedAfter(Step(m, ins[0]), ins[1..], HeedAge(m.cipher, ins[0].lineEnd, r))
  }

  // What the cipher is doing r clocks after a line end it heeded.
  predicate Heeded(c: C.Cipher, r: nat) {
    match c.state
    case Init => true
    case Stream => (c.ctl.cnt == 56 && r == 56) || (c.ctl.cnt == 0 && r >= 57)
    case Rekey => 1 <= c.ctl.cnt <= 55 && r == c.ctl.cnt
    case _ => r + Remaining(c.state, c.ctl.cnt) >= 113
  }

  lemma HeededStep(c: C.Cipher, i: C.Inputs, r: nat)
    requires C.CtlFits(c.state, c.ctl) && Heeded(c, r) && !i.reset && (i.rekey ==> r >= 57)
    ensures Heeded(C.Step(c, i), HeedAge(c, i.rekey, r))
  {
    hide C.NextBlock, C.NextLfsr, C.NextMi;
  }

  lemma {:induction false} HeededRun(m: Mod, ins: seq<Inputs>, age: nat, r: nat)
    requires Inv(m) && Heeded(m.cipher, r) && Calm(ins, age) && r >= age
    ensures Inv(Run(m, ins)) && Heeded(Run(m, ins).cipher, HeedAfter(m, ins, r))
    ensures HeedAfter(m, ins, r) >= AgeAfter(age, ins)
    decreases |ins|
  {
    hide C.Step, C.CtlFits, Inv, NextMState, Calm, Heeded;
    if ins != [] {
      CalmHead(ins, age);
      CalmTail(ins, age);
      InvGives(m);
      InvIsInvariant(m, ins[0]);
      HeededStep(m.cipher, CipherInputs(m, ins[0]), r);
      HeededRun(Step(m, ins[0]), ins[1..], Age(age, ins[0]), HeedAge(m.cipher, ins[0].lineEnd, r));
    }
  }

  lemma {:induction false} HeedSplit(m: Mod, ins: seq<Inputs>, r: nat, k: nat)
    requires k <= |ins|
    ensures HeedAfter(m, ins, r) == HeedAfter(Run(m, ins[..k]), ins[k..], HeedAfter(m, ins[..k], r))
    decreases k
  {
    hide Step;
    if k == 0 {
      assert ins[0..] == ins;
    } else {
      assert ins[..k][1..] == ins[1..][..k - 1] && ins[1..][k - 1..] == ins[k..];
      HeedSplit(Step(m, ins[0]), ins[1..], HeedAge(m.cipher, ins[0].lineEnd, r), k - 1);
    }
  }

  // ---- One clock outside initialisations ----

  lemma {:induction false} RekeyRoundsAdd(e: C.Engine, a: nat, b: nat)
    ensures C.RekeyRounds(C.RekeyRounds(e, a), b) == C.RekeyRounds(e, a + b)
    decreases b
  {
    hide HdcpBlock.Round, HdcpLfsr.Advance, HdcpLfsr.OneBit;
    if b > 0 {
      RekeyRoundsAdd(e, a, b - 1);
    }
  }

  lemma RekeyClock(c: C.Cipher, i: C.Inputs)
    requires c.state == C.Rekey && C.CtlFits(C.Rekey, c.ctl) && c.ctl.cnt <= 55 && !i.reset && !i.init
    ensures Complete(C.Step(c, i)) == Complete(c)
  {
    hide HdcpBlock.Round, HdcpBlock.Loaded, HdcpBlock.Bo, HdcpLfsr.Advance, HdcpLfsr.OneBit, HdcpLfsr.LoadIv, C.Kmod;
    var d := C.Step(c, i);
    assert C.RekeyRounds(C.View(c), 0) == C.View(c);
    assert C.View(d) == C.RekeyRounds(C.View(c), 1);
    RekeyRoundsAdd(C.View(c), 1, 55 - c.ctl.cnt);
    assert C.RekeyRounds(C.View(d), 0) == C.View(d);
  }

  lemma LineClock(c: C.Cipher, i: C.Inputs)
    requires c.state == C.Stream && C.CtlFits(C.Stream, c.ctl) && c.ctl.cnt == 0
    requires !i.reset && !i.init && i.rekey
    ensures Complete(C.Step(c, i)) == C.RekeyRounds(Complete(c), 56)
  {
    hide C.Step, C.View, C.CtlFits, C.RekeyRounds;
    C.RekeyStarts(c, i);
    RekeyRoundsAdd(C.View(c), 1, 55);
  }

  lemma StreamClock(c: C.Cipher, i: C.Inputs)
    requires c.state == C.Stream && C.CtlFits(C.Stream, c.ctl) && !i.reset && !i.init && !i.rekey
    ensures Complete(C.Step(c, i)) == if i.stream then C.StreamRounds(Complete(c), 1) else Complete(c)
  {
    hide C.Step, C.View, C.CtlFits;
    C.StreamStep(c, i);
    assert C.StreamRounds(C.View(c), 0) == C.View(c);
  }

  // Streaming or rekeying, with no initialisation asked for.
  ghost predicate Carrying(m: Mod) {
    Inv(m) && !m.init && m.cipher.state in {C.Stream, C.Rekey} && !Pulsing(m.state)
  }

  lemma CarryStep(m: Mod, i: Inputs, r: nat)
    requires Carrying(m) && Heeded(m.cipher, r) && !i.rst && !i.hpd && !i.aksv && (i.lineEnd ==> r >= 57)
    requires !Begins(m, i)
    ensures StreamOf(Step(m, i).cipher) == ApplyAll(StreamOf(m.cipher), EventOf(m, i))
  {
    hide Inv, C.CtlFits, C.Step, Complete, C.RekeyRounds, C.StreamRounds;
    InvGives(m);
    KeysStayOutsideBlocks(m, i);
    var c, j := m.cipher, CipherInputs(m, i);
    ApplyOne(StreamOf(c), Line);
    ApplyOne(StreamOf(c), Pixel);
    if c.state == C.Rekey {
      RekeyClock(c, j);
    } else if i.lineEnd {
      LineClock(c, j);
    } else {
      StreamClock(c, j);
    }
  }

  // Any number of such clocks.
  lemma {:induction false} CarryRun(m: Mod, ins: seq<Inputs>, age: nat, r: nat)
    requires Inv(m) && Heeded(m.cipher, r) && Calm(ins, age) && r >= age
    requires forall n | 0 <= n < |ins| :: Carrying(Run(m, ins[..n])) && !Begins(Run(m, ins[..n]), ins[n])
    ensures StreamOf(Run(m, ins).cipher) == ApplyAll(StreamOf(m.cipher), Events(m, ins))
    decreases |ins|
  {
    hide Step, Calm, StreamOf, EventOf, Apply, Carrying, Begins, Inv, Heeded;
    if ins != [] {
      var t, q, a := ins[1..], HeedAge(m.cipher, ins[0].lineEnd, r), Age(age, ins[0]);
      assert ins[..0] == [] && Run(m, ins[..0]) == m;
      assert ins[..1] == [ins[0]] && Run(m, [ins[0]]) == Step(m, ins[0]) by {
        assert [ins[0]][1..] == [];
      }
      CalmHead(ins, age);
      CalmTail(ins, age);
      CarryStep(m, ins[0], r);
      OneHeeded(m, ins[0], age, r);
      forall n | 0 <= n < |t|
        ensures Carrying(Run(Step(m, ins[0]), t[..n])) && !Begins(Run(Step(m, ins[0]), t[..n]), t[n])
      {
        RunPrefix(m, ins, n + 1);
        assert t[n] == ins[n + 1];
      }
      CarryRun(Step(m, ins[0]), t, a, q);
      ApplyConcat(StreamOf(m.cipher), EventOf(m, ins[0]), Events(Step(m, ins[0]), t));
    }
  }

  lemma OneHeeded(m: Mod, i: Inputs, age: nat, r: nat)
    requires Inv(m) && Heeded(m.cipher, r) && r >= age && !i.rst && (i.lineEnd ==> age >= 57)
    ensures Inv(Step(m, i)) && Heeded(Step(m, i).cipher, HeedAge(m.cipher, i.lineEnd, r))
    ensures HeedAge(m.cipher, i.lineEnd, r) >= Age(age, i)
  {
    hide C.Step, C.CtlFits, Inv, NextMState, Heeded;
    InvGives(m);
    InvIsInvariant(m, i);
    HeededStep(m.cipher, CipherInputs(m, i), r);
  }

  // ---- The visible part of a frame, by its inputs alone ----

  // age clocks after a line end in the visible part of a frame.
  ghost predicate InLine(m: Mod, age: nat) {
    if 1 <= age <= 57 then RekeyWaiting(age, m)
    else age > 0 && Inv(m) && m.state == Ready && m.cipher.state == C.Stream && m.StreamReady()
  }

  // What the controller and the cipher are doing at each age.
  lemma InLineGives(m: Mod, age: nat)
    requires InLine(m, age)
    ensures age > 0 && Carrying(m) && C.CtlFits(m.cipher.state, m.cipher.ctl) && Heeded(m.cipher, age)
    ensures m.cipher.state == (if age < 56 then C.Rekey else C.Stream)
    ensures m.cipher.ctl.cnt == (if age < 57 then age else 0)
    ensures m.state == if age == 1 || age >= 58 then Ready else RekeyWait
    ensures m.StreamReady() <==> age >= 57
  {
  }

  // Within a frame the controller takes up a new one exactly at a rising vsync
  // that comes at least 58 clocks after the last line end.
  lemma BeginsIff(m: Mod, i: Inputs, age: nat)
    requires InLine(m, age)
    ensures Begins(m, i) <==> VsyncRising(m, i) && age >= 58
  {
    hide InLine;
    InLineGives(m, age);
  }

  lemma LineStep(m: Mod, i: Inputs, age: nat)
    requires InLine(m, age) && !i.rst && !i.hpd && !i.aksv && (i.lineEnd ==> age >= 57)
    requires !(VsyncRising(m, i) && age >= 58)
    ensures InLine(Step(m, i), Age(age, i))
  {
    hide Inv, RekeyWaiting;
    if age <= 56 {
      RekeyWaitingStep(age, m, i);
    } else {
      InLineGives(m, age);
      BeginsIff(m, i, age);
      StreamingStep(m, i, age);
    }
  }

  lemma StreamingStep(m: Mod, i: Inputs, age: nat)
    requires age >= 57 && Carrying(m) && !i.rst && !i.hpd && !i.aksv && !Begins(m, i)
    requires m.cipher.state == C.Stream && m.cipher.ctl.cnt == 0 && m.StreamReady() && m.state in {Ready, RekeyWait}
    ensures if i.lineEnd then RekeyWaiting(1, Step(m, i)) else InLine(Step(m, i), age + 1)
  {
    hide C.NextBlock, C.NextLfsr, C.NextMi, Inv;
    InvGives(m);
    InvIsInvariant(m, i);
  }

  // A line ends; or a pixel is asked for, the last line having ended at least
  // 58 clocks ago.
  function InputEvent(i: Inputs, age: nat): seq<Event> {
    if i.lineEnd then [Line] else if i.hdcpEna && age >= 58 then [Pixel] else []
  }

  ghost function InputEvents(ins: seq<Inputs>, age: nat): seq<Event>
    decreases |ins|
  {
    if ins == [] then [] else InputEvent(ins[0], age) + InputEvents(ins[1..], Age(age, ins[0]))
  }

  // vsync, at level v before these inputs, does not rise 58 clocks or more
  // after a line end.
  ghost predicate Unbroken(v: bool, ins: seq<Inputs>, age: nat)
    decreases |ins|
  {
    ins == [] || (!(ins[0].vsync && !v && age >= 58) && Unbroken(ins[0].vsync, ins[1..], Age(age, ins[0])))
  }

  lemma EventIsInput(m: Mod, i: Inputs, age: nat)
    requires InLine(m, age) && (i.lineEnd ==> age >= 57) && !(VsyncRising(m, i) && age >= 58)
    ensures EventOf(m, i) == InputEvent(i, age)
  {
    hide InLine;
    InLineGives(m, age);
  }

  // Through the visible part of a frame, of any length and with line ends at
  // least 57 clocks apart, controller and cipher together deliver exactly the
  // keystream of the inputs: one full rekey per line end, one round per pixel
  // asked for 58 clocks or more after it, and nothing else.
  lemma {:induction false} KeystreamFollowsInputs(m: Mod, ins: seq<Inputs>, age: nat)
    requires InLine(m, age) && Calm(ins, age) && Unbroken(m.vsyncD, ins, age)
    ensures InLine(Run(m, ins), AgeAfter(age, ins)) && Events(m, ins) == InputEvents(ins, age)
    ensures StreamOf(Run(m, ins).cipher) == ApplyAll(StreamOf(m.cipher), InputEvents(ins, age))
    decreases |ins|
  {
    hide C.Step, Calm, InLine, StreamOf, EventOf, InputEvent, Apply, NextMState, Carrying;
    if ins != [] {
      CalmHead(ins, age);
      CalmTail(ins, age);
      LineStep(m, ins[0], age);
      EventIsInput(m, ins[0], age);
      InLineGives(m, age);
      BeginsIff(m, ins[0], age);
      CarryStep(m, ins[0], age);
      KeystreamFollowsInputs(Step(m, ins[0]), ins[1..], Age(age, ins[0]));
      ApplyConcat(StreamOf(m.cipher), InputEvent(ins[0], age), InputEvents(ins[1..], Age(age, ins[0])));
    }
  }

  // A ready controller with the stream ready is at the start of such a part.
  lemma ReadyBegins(m: Mod)
    requires Inv(m) && m.state == Ready && m.StreamReady()
    ensures InLine(m, 58) && Complete(m.cipher) == C.View(m.cipher)
  {
    ReadyMeansStreaming(m);
  }
}
