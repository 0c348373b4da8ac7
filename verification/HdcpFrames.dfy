// The controller and the cipher over any number of frames (overlay/hdcp_mod.v).
module HdcpFrames {
  import opened Bits
  import opened HdcpMod
  import opened HdcpKeystream
  import C = HdcpCipher

  // ---- Edges of vsync, heard and missed ----

  // Authenticated, not in the middle of an initialisation, and r clocks after a
  // line end that the cipher heeded.
  ghost predicate Between(m: Mod, r: nat) {
    && Inv(m) && !m.init && Heeded(m.cipher, r)
    && m.state in {Wait1001, Wait1001End, Ready, RekeyWait} && (m.state == RekeyWait ==> r <= 57)
    && m.cipher.state in {C.Stream, C.Rekey} && (m.cipher.state == C.Stream ==> m.StreamReady() || m.cipher.ctl.cnt == 56)
  }

  // vsync rises after the window of a frame, where a new frame is due.
  predicate Edge(m: Mod, i: Inputs) {
    VsyncRising(m, i) && m.state in {Ready, RekeyWait}
  }

  // An edge is heard from 58 clocks after a line end on; or from 57, when the
  // window closed only in the clock before.
  predicate Heard(m: Mod, r: nat) {
    r >= 58 || (r == 57 && m.state == Ready)
  }

  ghost function Edges(m: Mod, ins: seq<Inputs>): nat
    decreases |ins|
  {
    if ins == [] then 0 else (if Edge(m, ins[0]) then 1 else 0) + Edges(Step(m, ins[0]), ins[1..])
  }

  ghost function Missed(m: Mod, ins: seq<Inputs>, r: nat): nat
    decreases |ins|
  {
    if ins == [] then 0
    else (if Edge(m, ins[0]) && !Heard(m, r) then 1 else 0)
         + Missed(Step(m, ins[0]), ins[1..], HeedAge(m.cipher, ins[0].lineEnd, r))
  }

  // The frames that the run delivers.
  ghost function Frames(m: Mod, ins: seq<Inputs>): nat {
    multiset(Events(m, ins))[Frame]
  }

  lemma {:induction false} CountsSplit(m: Mod, ins: seq<Inputs>, r: nat, k: nat)
    requires k <= |ins|
    ensures Edges(m, ins) == Edges(m, ins[..k]) + Edges(Run(m, ins[..k]), ins[k..])
    ensures Missed(m, ins, r) == Missed(m, ins[..k], r) + Missed(Run(m, ins[..k]), ins[k..], HeedAfter(m, ins[..k], r))
    decreases k
  {
    hide Step, Edge, Heard;
    if k == 0 {
      assert ins[0..] == ins;
    } else {
      assert ins[..k][1..] == ins[1..][..k - 1] && ins[1..][k - 1..] == ins[k..];
      CountsSplit(Step(m, ins[0]), ins[1..], HeedAge(m.cipher, ins[0].lineEnd, r), k - 1);
    }
  }

  lemma FramesSplit(m: Mod, ins: seq<Inputs>, k: nat)
    requires k <= |ins|
    ensures Frames(m, ins) == Frames(m, ins[..k]) + Frames(Run(m, ins[..k]), ins[k..])
  {
    hide Run, Events;
    EventsSplit(m, ins, k);
  }

  // The controller takes up exactly the edges it hears.
  lemma EdgeIsTakenIffHeard(m: Mod, i: Inputs, r: nat)
    requires Between(m, r)
    ensures Begins(m, i) <==> Edge(m, i) && Heard(m, r)
  {
  }

  lemma BetweenStep(m: Mod, i: Inputs, age: nat, r: nat)
    requires Between(m, r) && r >= age && !i.rst && !i.hpd && !i.aksv && (i.lineEnd ==> age >= 57) && !Begins(m, i)
    ensures Between(Step(m, i), HeedAge(m.cipher, i.lineEnd, r)) && SameKeys(Step(m, i).cipher, m.cipher)
    ensures StreamOf(Step(m, i).cipher) == ApplyAll(StreamOf(m.cipher), EventOf(m, i))
    ensures Frame !in EventOf(m, i)
  {
    hide Step, Inv, C.CtlFits, SameKeys, StreamOf, Heeded, Apply;
    OneHeeded(m, i, age, r);
    KeysStayOutsideBlocks(m, i);
    CarryStep(m, i, r);
    BetweenMoves(m, i, r);
  }

  lemma BetweenMoves(m: Mod, i: Inputs, r: nat)
    requires Between(m, r) && !i.rst && !i.hpd && !i.aksv && (i.lineEnd ==> r >= 57) && !Begins(m, i)
    ensures var n := Step(m, i);
            && !n.init && n.state in {Wait1001, Wait1001End, Ready, RekeyWait}
            && (n.state == RekeyWait ==> HeedAge(m.cipher, i.lineEnd, r) <= 57)
            && n.cipher.state in {C.Stream, C.Rekey} && (n.cipher.state == C.Stream ==> n.StreamReady() || n.cipher.ctl.cnt == 56)
  {
    hide C.NextBlock, C.NextLfsr, C.NextMi, Inv;
    InvGives(m);
  }

  // ---- One initialisation ----

  // Until its pulse is answered a flow stands for one frame at most.
  lemma {:induction false} OpeningEvents(f: Flow, m: Mod, ins: seq<Inputs>, age: nat)
    requires f != Auth && Calm(ins, age) && forall n | 0 <= n < |ins| :: Opening(f, Run(m, ins[..n]))
    ensures Events(m, ins) == if ins != [] && m.state == AuthVsyncPulse then [Frame] else []
    decreases |ins|
  {
    hide Calm, C.Step;
    if ins != [] {
      assert ins[..0] == [] && Run(m, ins[..0]) == m;
      CalmHead(ins, age);
      CalmTail(ins, age);
      forall n | 0 <= n < |ins[1..]|
        ensures Opening(f, Run(Step(m, ins[0]), ins[1..][..n]))
      {
        RunPrefix(m, ins, n + 1);
      }
      OpeningEvents(f, Step(m, ins[0]), ins[1..], Age(age, ins[0]));
    }
  }

  lemma AnsweredStream(f: Flow, m: Mod, ins: seq<Inputs>, d: C.Cipher)
    requires f != Auth && |ins| > 3 && Answered(d, FlowJob(f, m, ins))
    ensures StreamOf(d) == Apply(StreamOf(m.cipher), Frame)
  {
    hide C.MValue, C.SessionKey, C.Rekeyed, Step;
  }

  lemma SettledCarries(f: Flow, m: Mod, i: Inputs)
    requires Settled(f, m) && Inv(m)
    ensures Carrying(m) && !Begins(m, i)
  {
  }

  // From the clock that answers the pulse to the end of the flow.
  lemma SettledRun(f: Flow, m: Mod, ins: seq<Inputs>, age: nat, r: nat)
    requires Inv(m) && Heeded(m.cipher, r) && Calm(ins, age) && r >= age
    requires forall n | 0 <= n < |ins| :: Settled(f, Run(m, ins[..n]))
    ensures StreamOf(Run(m, ins).cipher) == ApplyAll(StreamOf(m.cipher), Events(m, ins)) && Frame !in Events(m, ins)
  {
    hide Step, Run, Settled, Inv, Heeded, Calm, StreamOf, Carrying, Begins, Events, Apply;
    forall n | 0 <= n < |ins|
      ensures Carrying(Run(m, ins[..n])) && !Begins(Run(m, ins[..n]), ins[n])
    {
      CalmTake(ins, age, n);
      HeededRun(m, ins[..n], age, r);
      SettledCarries(f, Run(m, ins[..n]), ins[n]);
    }
    CarryRun(m, ins, age, r);
    SettledEvents(f, m, ins);
  }

  lemma {:induction false} SettledEvents(f: Flow, m: Mod, ins: seq<Inputs>)
    requires forall n | 0 <= n < |ins| :: Settled(f, Run(m, ins[..n]))
    ensures Frame !in Events(m, ins)
    decreases |ins|
  {
    hide Step;
    if ins != [] {
      assert ins[..0] == [] && Run(m, ins[..0]) == m;
      forall n | 0 <= n < |ins[1..]|
        ensures Settled(f, Run(Step(m, ins[0]), ins[1..][..n]))
      {
        RunPrefix(m, ins, n + 1);
      }
      SettledEvents(f, Step(m, ins[0]), ins[1..]);
    }
  }

  lemma CalmTake(ins: seq<Inputs>, age: nat, n: nat)
    requires n <= |ins| && Calm(ins, age)
    ensures Calm(ins[..n], age)
  {
    var t := ins[..n];
    assert forall a | 0 <= a < n :: t[a] == ins[a];
    assert forall i <- t :: i in ins;
  }

  lemma OpeningPart(f: Flow, m: Mod, ins: seq<Inputs>, age: nat, k: nat)
    requires f != Auth && Calm(ins, age) && 114 < k <= |ins| && Delivered(f, m, ins, k) && m.state == f.Pulse()
    ensures Events(m, ins[..114]) == if f == AuthVsync then [Frame] else []
  {
    hide Step, Run, Calm, Events, Settled, Answered, Opening, FlowJob;
    CalmTake(ins, age, 114);
    forall n | 0 <= n < 114
      ensures Opening(f, Run(m, ins[..114][..n]))
    {
      assert ins[..114][..n] == ins[..n];
    }
    OpeningEvents(f, m, ins[..114], age);
  }

  lemma SettledPart(f: Flow, m: Mod, ins: seq<Inputs>, age: nat, r: nat, k: nat)
    requires 114 < k <= |ins| && Delivered(f, m, ins, k)
    requires Inv(m) && Heeded(m.cipher, r) && Calm(ins, age) && r >= age
    ensures StreamOf(Run(m, ins[..k]).cipher) ==
            ApplyAll(StreamOf(Run(m, ins[..114]).cipher), Events(Run(m, ins[..114]), ins[114..k]))
    ensures Frame !in Events(Run(m, ins[..114]), ins[114..k])
  {
    hide Step, Run, Calm, Events, StreamOf, Apply, Settled, Answered, Opening, Heeded, Inv, FlowJob;
    var d, w := Run(m, ins[..114]), ins[114..k];
    CalmTake(ins, age, 114);
    HeededRun(m, ins[..114], age, r);
    CalmTake(ins, age, k);
    CalmDrop(ins[..k], age, 114);
    assert ins[114..][..k - 114] == w && ins[..k][..114] == ins[..114] && ins[..k][114..] == w;
    RunSplit(m, ins, 114, k);
    forall n | 0 <= n < |w|
      ensures Settled(f, Run(d, w[..n]))
    {
      RunSplit(m, ins, 114, 114 + n);
      assert ins[114..][..n] == w[..n];
    }
    SettledRun(f, d, w, AgeAfter(age, ins[..114]), HeedAfter(m, ins[..114], r));
  }

  // A frame initialisation delivers its frame and the lines that end before
  // the controller goes on, and takes a time in which no edge is due.
  lemma FlowStream(f: Flow, m: Mod, ins: seq<Inputs>, age: nat, r: nat) returns (k: nat)
    requires f != Auth && InFlow(f, m, age) && m.state == f.Pulse() && Calm(ins, age) && |ins| >= 173
    requires Heeded(m.cipher, r) && r >= age
    ensures 114 < k <= 173 && forall n | 0 <= n < k :: f.Covers(Run(m, ins[..n]).state)
    ensures Between(Run(m, ins[..k]), HeedAfter(m, ins[..k], r)) && Run(m, ins[..k]).state == Wait1001
    ensures Events(m, ins[..k]) == (if f == AuthVsync then [Frame] else []) + Events(Run(m, ins[..114]), ins[114..k])
    ensures StreamOf(Run(m, ins[..k]).cipher) ==
            ApplyAll(Apply(StreamOf(m.cipher), Frame), Events(Run(m, ins[..114]), ins[114..k]))
    ensures Frame !in Events(Run(m, ins[..114]), ins[114..k])
  {
    hide Step, Run, Calm, InFlow, Events, StreamOf, Apply, ApplyAll, Delivered, Answered, Heeded, Inv, FlowJob, Holds;
    hide JustDone, Between, AgeAfter, HeedAfter;
    k := FlowDelivers(f, m, ins, age);
    assert Inv(m) by { InFlowFits(f, m, age); }
    DeliveredAnswer(f, m, ins, k);
    AnsweredStream(f, m, ins, Run(m, ins[..114]).cipher);
    OpeningPart(f, m, ins, age, k);
    SettledPart(f, m, ins, age, r, k);
    CalmTake(ins, age, k);
    HeededRun(m, ins[..k], age, r);
    EventsSplit(m, ins[..k], 114);
    assert ins[..k][..114] == ins[..114] && ins[..k][114..] == ins[114..k];
    DoneIsBetween(f, Run(m, ins[..k]), AgeAfter(age, ins[..k]), HeedAfter(m, ins[..k], r));
  }

  lemma InFlowFits(f: Flow, m: Mod, age: nat)
    requires InFlow(f, m, age)
    ensures Inv(m)
  {
  }

  lemma DeliveredAnswer(f: Flow, m: Mod, ins: seq<Inputs>, k: nat)
    requires 114 < k <= |ins| && Delivered(f, m, ins, k)
    ensures Answered(Run(m, ins[..114]).cipher, FlowJob(f, m, ins))
  {
    hide Step, Run, Settled, Opening, FlowJob, Answered;
  }

  lemma DoneIsBetween(f: Flow, d: Mod, age: nat, r: nat)
    requires f != Auth && JustDone(f, d, age) && Heeded(d.cipher, r)
    ensures Between(d, r) && d.state == Wait1001
  {
  }

  lemma {:induction false} NoEdgeInsideFlow(f: Flow, m: Mod, ins: seq<Inputs>, r: nat)
    requires forall n | 0 <= n < |ins| :: f.Covers(Run(m, ins[..n]).state)
    ensures Edges(m, ins) == 0 && Missed(m, ins, r) == 0
    decreases |ins|
  {
    hide Step;
    if ins != [] {
      assert ins[..0] == [] && Run(m, ins[..0]) == m;
      forall n | 0 <= n < |ins[1..]|
        ensures f.Covers(Run(Step(m, ins[0]), ins[1..][..n]).state)
      {
        RunPrefix(m, ins, n + 1);
      }
      NoEdgeInsideFlow(f, Step(m, ins[0]), ins[1..], HeedAge(m.cipher, ins[0].lineEnd, r));
    }
  }

  // ---- Any number of frames ----

  const QUIET := Inputs(false, false, false, false, false, false, false, false, Zeros(64), Zeros(56))

  lemma CalmPadded(ins: seq<Inputs>, age: nat, n: nat)
    requires Calm(ins, age)
    ensures Calm(ins + seq(n, _ => QUIET), age)
  {
    var t := ins + seq(n, _ => QUIET);
    forall i <- t
      ensures !i.rst && !i.hpd && !i.aksv
    {
      var k :| 0 <= k < |t| && t[k] == i;
      assert k < |ins| ==> i in ins;
    }
    assert forall k | 0 <= k < |t| && t[k].lineEnd :: k < |ins| && t[k] == ins[k];
  }

  lemma FrameForgetsEngine(a: C.Cipher, b: C.Cipher)
    requires SameKeys(a, b)
    ensures Apply(StreamOf(a), Frame) == Apply(StreamOf(b), Frame)
  {
    hide Complete;
  }

  // What the first k inputs of a new frame do.
  ghost predicate OneFrame(m: Mod, ins: seq<Inputs>, r: nat) {
    && Between(Run(m, ins), HeedAfter(m, ins, r))
    && StreamOf(Run(m, ins).cipher) == ApplyAll(StreamOf(m.cipher), Events(m, ins))
    && Frames(m, ins) == 1 && Edges(m, ins) == 1 && Missed(m, ins, r) == 0
  }

  lemma FrameFlow(m: Mod, ins: seq<Inputs>, age: nat, r: nat) returns (k: nat)
    requires Between(m, r) && Calm(ins, age) && r >= age && |ins| >= 174 && Begins(m, ins[0])
    ensures 0 < k <= |ins| && OneFrame(m, ins[..k], r)
    ensures forall x | 0 < x < k :: Vsync.Covers(Run(m, ins[..x]).state)
  {
    hide Step, Run, Calm, InFlow, StreamOf, Apply, ApplyAll, Inv, Heeded, HeedAge, Age, Between, Begins, OneFrame, Frames, Events;
    hide Edges, Missed, HeedAfter;
    var n, t := Step(m, ins[0]), ins[1..];
    CalmHead(ins, age);
    CalmTail(ins, age);
    FrameOpens(m, ins[0], age, r);
    var j := FlowStream(Vsync, n, t, Age(age, ins[0]), HeedAge(m.cipher, ins[0].lineEnd, r));
    k := j + 1;
    RunPrefix(m, ins, k);
    forall x | 0 < x < k
      ensures Vsync.Covers(Run(m, ins[..x]).state)
    {
      RunPrefix(m, ins, x);
    }
    assert ins[..k][1..] == t[..j] && ins[..k][0] == ins[0];
    forall x | 0 <= x < j
      ensures Vsync.Covers(Run(n, t[..j][..x]).state)
    {
      assert t[..j][..x] == t[..x];
    }
    NoEdgeInsideFlow(Vsync, n, t[..j], HeedAge(m.cipher, ins[0].lineEnd, r));
    assert [] + Events(Run(n, t[..114]), t[114..j]) == Events(Run(n, t[..114]), t[114..j]);
    IsOneFrame(m, ins[..k], r);
  }

  lemma FrameOpens(m: Mod, i: Inputs, age: nat, r: nat)
    requires Between(m, r) && r >= age && Begins(m, i) && !i.rst && !i.hpd && !i.aksv && (i.lineEnd ==> age >= 57)
    ensures InFlow(Vsync, Step(m, i), Age(age, i)) && Step(m, i).state == VsyncPulse && SameKeys(Step(m, i).cipher, m.cipher)
    ensures Heeded(Step(m, i).cipher, HeedAge(m.cipher, i.lineEnd, r)) && HeedAge(m.cipher, i.lineEnd, r) >= Age(age, i)
  {
    hide Step, InFlow, Inv, Heeded, SameKeys;
    FrameStarts(m, i, Age(age, i));
    OneHeeded(m, i, age, r);
  }

  lemma IsOneFrame(m: Mod, w: seq<Inputs>, r: nat)
    requires w != [] && Between(m, r) && Begins(m, w[0]) && SameKeys(Step(m, w[0]).cipher, m.cipher)
    requires var n, t, q := Step(m, w[0]), w[1..], HeedAge(m.cipher, w[0].lineEnd, r);
             && Between(Run(n, t), HeedAfter(n, t, q))
             && StreamOf(Run(n, t).cipher) == ApplyAll(Apply(StreamOf(n.cipher), Frame), Events(n, t)) && Frame !in Events(n, t)
             && Edges(n, t) == 0 && Missed(n, t, q) == 0
    ensures OneFrame(m, w, r)
  {
    hide Step, StreamOf, Apply, Between, Edge, Heard;
    var n, t := Step(m, w[0]), w[1..];
    FrameForgetsEngine(n.cipher, m.cipher);
    ApplyConcat(StreamOf(m.cipher), [Frame], Events(n, t));
    ApplyOne(StreamOf(m.cipher), Frame);
    EdgeIsTakenIffHeard(m, w[0], r);
  }

  // Inputs that do not end inside the initialisation of a new frame contain all
  // of it.
  lemma FramePasses(m: Mod, ins: seq<Inputs>, age: nat, r: nat) returns (k: nat)
    requires Between(m, r) && Calm(ins, age) && r >= age && ins != [] && Begins(m, ins[0])
    requires !Vsync.Covers(Run(m, ins).state)
    ensures 0 < k <= |ins| && OneFrame(m, ins[..k], r)
  {
    hide Run, Calm, Between, Begins, OneFrame;
    var padded := ins + seq(174, _ => QUIET);
    CalmPadded(ins, age, 174);
    k := FrameFlow(m, padded, age, r);
    assert padded[..|ins|] == ins;
    assert Run(m, padded[..|ins|]) == Run(m, ins);
    if k > |ins| {
      assert false;
    }
    assert padded[..k] == ins[..k];
  }

  lemma BetweenGives(m: Mod, r: nat)
    requires Between(m, r)
    ensures Inv(m) && Heeded(m.cipher, r)
  {
  }

  // In every uninterrupted run, however long and with whatever line ends at
  // least 57 clocks apart, the cipher delivers exactly the events of the run,
  // and every edge of vsync is one frame or is missed.
  lemma {:induction false} RunDelivers(m: Mod, ins: seq<Inputs>, age: nat, r: nat)
    requires Between(m, r) && Calm(ins, age) && r >= age && !Vsync.Covers(Run(m, ins).state)
    ensures Between(Run(m, ins), HeedAfter(m, ins, r))
    ensures StreamOf(Run(m, ins).cipher) == ApplyAll(StreamOf(m.cipher), Events(m, ins))
    ensures Edges(m, ins) == Frames(m, ins) + Missed(m, ins, r)
    decreases |ins|
  {
    hide Step, Calm, Between, Begins, StreamOf, Apply, Edge, Heard, EventOf;
    if ins != [] {
      if Begins(m, ins[0]) {
        var k := FramePasses(m, ins, age, r);
        var w := ins[k..];
        RunSplit(m, ins, k, |ins|);
        assert ins[..|ins|] == ins && w[..|ins| - k] == w;
        CalmDrop(ins, age, k);
        CalmTake(ins, age, k);
        HeededRun(m, ins[..k], age, r) by { BetweenGives(m, r); }
        RunDelivers(Run(m, ins[..k]), w, AgeAfter(age, ins[..k]), HeedAfter(m, ins[..k], r));
        EventsSplit(m, ins, k);
        FramesSplit(m, ins, k);
        CountsSplit(m, ins, r, k);
        HeedSplit(m, ins, r, k);
        ApplyConcat(StreamOf(m.cipher), Events(m, ins[..k]), Events(Run(m, ins[..k]), w));
      } else {
        var n, q := Step(m, ins[0]), HeedAge(m.cipher, ins[0].lineEnd, r);
        CalmHead(ins, age);
        CalmTail(ins, age);
        BetweenStep(m, ins[0], age, r);
        EdgeIsTakenIffHeard(m, ins[0], r);
        RunDelivers(n, ins[1..], Age(age, ins[0]), q);
        ApplyConcat(StreamOf(m.cipher), EventOf(m, ins[0]), Events(n, ins[1..]));
      }
    }
  }

  // The same for the registers: all the clocks of a run, from between frames.
  method Deliver(u: ModUnit, ins: seq<Inputs>, ghost age: nat, ghost r: nat)
    requires Between(u.State(), r) && Calm(ins, age) && r >= age && !Vsync.Covers(Run(u.State(), ins).state)
    modifies u, u.cipher, u.cipher.block, u.cipher.lfsr
    ensures StreamOf(u.State().cipher) == ApplyAll(old(StreamOf(u.State().cipher)), old(Events(u.State(), ins)))
    ensures Between(u.State(), old(HeedAfter(u.State(), ins, r)))
  {
    hide Run, Between, Calm, StreamOf, ApplyAll, Events, HeedAfter;
    RunDelivers(u.State(), ins, age, r);
    u.ClockAll(ins);
  }

  // ---- When is every edge a frame? ----

  ghost predicate AllHeard(m: Mod, ins: seq<Inputs>, r: nat) {
    forall n | 0 <= n < |ins| && Edge(Run(m, ins[..n]), ins[n]) :: Heard(Run(m, ins[..n]), HeedAfter(m, ins[..n], r))
  }

  lemma {:induction false} NothingMissedIff(m: Mod, ins: seq<Inputs>, r: nat)
    ensures Missed(m, ins, r) == 0 <==> AllHeard(m, ins, r)
    decreases |ins|
  {
    hide Step, Edge, Heard;
    if ins != [] {
      var n, t, q := Step(m, ins[0]), ins[1..], HeedAge(m.cipher, ins[0].lineEnd, r);
      NothingMissedIff(n, t, q);
      assert ins[..0] == [] && Run(m, ins[..0]) == m && HeedAfter(m, ins[..0], r) == r;
      forall x | 0 < x <= |t|
        ensures Run(m, ins[..x]) == Run(n, t[..x - 1]) && HeedAfter(m, ins[..x], r) == HeedAfter(n, t[..x - 1], q)
      {
        assert ins[..x][1..] == t[..x - 1];
      }
      if AllHeard(m, ins, r) {
        forall x | 0 <= x < |t| && Edge(Run(n, t[..x]), t[x])
          ensures Heard(Run(n, t[..x]), HeedAfter(n, t[..x], q))
        {
          assert t[x] == ins[x + 1] && ins[..x + 1][1..] == t[..x];
        }
      } else {
        var x :| 0 <= x < |ins| && Edge(Run(m, ins[..x]), ins[x]) && !Heard(Run(m, ins[..x]), HeedAfter(m, ins[..x], r));
        if x > 0 {
          assert t[x - 1] == ins[x];
        }
      }
    }
  }

  datatype Keys = Keys(ki: Word84, mi: Word64)

  // The keys n frames later.
  ghost function KeysAfter(ks: Word84, k: Keys, n: nat): Keys
    decreases n
  {
    if n == 0 then k
    else
      var ki := C.SessionKey(ks[..56], k.mi);
      KeysAfter(ks, Keys(ki, C.MValue(ki, k.mi)), n - 1)
  }

  lemma {:induction false} KeysOfEvents(s: Keystream, vs: seq<Event>)
    ensures var t := ApplyAll(s, vs);
            t.ks == s.ks && Keys(t.ki, t.mi) == KeysAfter(s.ks, Keys(s.ki, s.mi), multiset(vs)[Frame])
    decreases |vs|
  {
    hide C.SessionKey, C.MValue, C.Rekeyed, C.RekeyRounds, C.StreamRounds;
    if vs != [] {
      assert vs == [vs[0]] + vs[1..];
      KeysOfEvents(Apply(s, vs[0]), vs[1..]);
    }
  }

  // Ks stays, and Ki and Mi are those of as many frames as edges were heard.
  // That is every edge if and only if none comes within 57 clocks of a line end
  // that the cipher heeds.
  lemma EveryFrameHasItsKeys(m: Mod, ins: seq<Inputs>, age: nat, r: nat)
    requires Between(m, r) && Calm(ins, age) && r >= age && !Vsync.Covers(Run(m, ins).state)
    ensures var c, d, n := m.cipher, Run(m, ins).cipher, Edges(m, ins) - Missed(m, ins, r);
            n >= 0 && d.ks == c.ks && Keys(d.ki, d.mi) == KeysAfter(c.ks, Keys(c.ki, c.mi), n)
    ensures Frames(m, ins) == Edges(m, ins) <==> AllHeard(m, ins, r)
  {
    hide Between, Run, Calm, Complete, Edges, Missed, Events, AllHeard, ApplyAll;
    RunDelivers(m, ins, age, r);
    KeysOfEvents(StreamOf(m.cipher), Events(m, ins));
    NothingMissedIff(m, ins, r);
  }

  // In particular when every edge comes 58 clocks or more after any line end.
  lemma SpacedEdgesAreHeard(m: Mod, ins: seq<Inputs>, age: nat, r: nat)
    requires Between(m, r) && Calm(ins, age) && r >= age
    requires forall n | 0 <= n < |ins| && Edge(Run(m, ins[..n]), ins[n]) :: AgeAfter(age, ins[..n]) >= 58
    ensures AllHeard(m, ins, r)
  {
    hide Run, Calm, Between, Edge, Inv, Heeded;
    BetweenGives(m, r);
    forall n | 0 <= n < |ins| && Edge(Run(m, ins[..n]), ins[n])
      ensures Heard(Run(m, ins[..n]), HeedAfter(m, ins[..n], r))
    {
      CalmTake(ins, age, n);
      HeededRun(m, ins[..n], age, r);
    }
  }

  // ---- A frame that is lost ----

  ghost function Rises(v: bool, ins: seq<Inputs>): nat
    decreases |ins|
  {
    if ins == [] then 0 else (if ins[0].vsync && !v then 1 else 0) + Rises(ins[0].vsync, ins[1..])
  }

  lemma {:induction false} RisesOnce(v: bool, ins: seq<Inputs>, q: nat)
    requires forall n | 0 <= n < |ins| :: ins[n].vsync <==> n >= q
    ensures Rises(v, ins) == if q < |ins| && (q > 0 || !v) then 1 else 0
    decreases |ins|
  {
    if ins != [] {
      assert forall n | 0 <= n < |ins| - 1 :: ins[1..][n] == ins[n + 1];
      RisesOnce(ins[0].vsync, ins[1..], if q == 0 then 0 else q - 1);
    }
  }

  lemma {:induction false} EdgesAreRises(m: Mod, ins: seq<Inputs>, age: nat)
    requires InLine(m, age) && Calm(ins, age) && Unbroken(m.vsyncD, ins, age)
    ensures Edges(m, ins) == Rises(m.vsyncD, ins)
    decreases |ins|
  {
    hide InLine, Calm, C.Step, NextMState, Carrying, Heeded;
    if ins != [] {
      CalmHead(ins, age);
      CalmTail(ins, age);
      InLineGives(m, age);
      LineStep(m, ins[0], age);
      EdgesAreRises(Step(m, ins[0]), ins[1..], Age(age, ins[0]));
    }
  }

  lemma {:induction false} YoungIsUnbroken(v: bool, ins: seq<Inputs>, age: nat)
    requires |ins| + age <= 58 && forall i <- ins :: !i.lineEnd
    ensures Unbroken(v, ins, age) && AgeAfter(age, ins) == age + |ins|
    decreases |ins|
  {
    if ins != [] {
      YoungIsUnbroken(ins[0].vsync, ins[1..], age + 1);
    }
  }

  lemma {:induction false} InputsMakeNoFrame(ins: seq<Inputs>, age: nat)
    ensures Frame !in InputEvents(ins, age)
    decreases |ins|
  {
    if ins != [] {
      InputsMakeNoFrame(ins[1..], Age(age, ins[0]));
    }
  }

  lemma InLineIsBetween(m: Mod, age: nat)
    requires InLine(m, age)
    ensures Between(m, age)
  {
  }

  // A line ends, and vsync rises q clocks later, q at most 57, and stays high:
  // the controller comes back to ready with vsync high already, and the frame is
  // never taken up.
  lemma FrameIsLost(m: Mod, ins: seq<Inputs>, q: nat)
    requires InLine(m, 58) && |ins| == 58 && 1 <= q <= 57
    requires forall i <- ins :: !i.rst && !i.hpd && !i.aksv
    requires forall n | 0 <= n < 58 :: (ins[n].lineEnd <==> n == 0) && (ins[n].vsync <==> n >= q)
    ensures Between(m, 58) && Calm(ins, 58)
    ensures Edges(m, ins) == 1 && Frames(m, ins) == 0
    ensures Run(m, ins).state == Ready && Run(m, ins).StreamReady() && Run(m, ins).vsyncD
  {
    hide Step, InLine, Between, Events, StreamOf, ApplyAll, InputEvents, Edges, Carrying, Heeded;
    InLineIsBetween(m, 58);
    var t := ins[1..];
    forall i <- t
      ensures !i.lineEnd
    {
      var n :| 0 <= n < |t| && t[n] == i;
      assert t[n] == ins[n + 1];
    }
    YoungIsUnbroken(ins[0].vsync, t, 1);
    KeystreamFollowsInputs(m, ins, 58);
    InputsMakeNoFrame(ins, 58);
    EdgesAreRises(m, ins, 58);
    RisesOnce(m.vsyncD, ins, q);
    InLineGives(Run(m, ins), 58);
    RunSnoc(m, ins, 57);
    assert ins[..58] == ins;
    VsyncIsKept(Run(m, ins[..57]), ins[57]);
  }

  lemma VsyncIsKept(m: Mod, i: Inputs)
    ensures Step(m, i).vsyncD == i.vsync
  {
  }

  // ---- From authentication on ----

  // What an authentication establishes.
  ghost function Authentic(km: Word56, an: Word64): Keystream {
    var ks := C.SessionKey(km, an);
    Keystream(ks, Zeros(84), C.MValue(ks, an), C.Rekeyed(ks, an, 56))
  }

  // A heed age that fits the end of a flow.
  function AgeOf(d: Mod, age: nat): nat {
    if d.cipher.state == C.Rekey then 1 else if age < 57 then 57 else age
  }

  lemma AuthIsDone(m: Mod, ins: seq<Inputs>, d: Mod, age: nat)
    requires |ins| > 3 && JustDone(Auth, d, age) && Holds(d.cipher, FlowJob(Auth, m, ins))
    requires Step(m, ins[0]).cipher.state != C.Rekey
    ensures Apply(StreamOf(d.cipher), Frame) == Apply(Authentic(ins[3].km, ins[3].an), Frame)
    ensures Heeded(d.cipher, AgeOf(d, age)) && AgeOf(d, age) >= age
    ensures InFlow(AuthVsync, d, age) && d.state == AuthVsyncPulse
  {
    hide Step, C.SessionKey, C.MValue, C.Rekeyed, Complete;
    NextFlowStarts(d, age);
  }

  // From an accepted authentication on, whatever the cipher delivers follows
  // from Km, An and the events alone: the first frame from p on, and from k on
  // the machine is between frames.
  lemma AuthenticatedStream(m: Mod, ins: seq<Inputs>, age: nat) returns (p: nat, k: nat, r: nat)
    requires m.state == AuthPulse && InFlow(Auth, m, age) && Calm(ins, age) && |ins| >= 346
    requires Step(m, ins[0]).cipher.state != C.Rekey && ins[54].an == ins[3].an
    requires !Vsync.Covers(Run(m, ins).state)
    ensures 228 < p < k <= 346 && Between(Run(m, ins[..k]), r)
    ensures StreamOf(Run(m, ins).cipher) ==
            ApplyAll(Apply(Authentic(ins[3].km, ins[3].an), Frame), Events(Run(m, ins[..p]), ins[p..]))
    ensures var d, w := Run(m, ins[..k]), ins[k..];
            Frames(Run(m, ins[..p]), ins[p..]) + Missed(d, w, r) == Edges(d, w)
  {
    hide Step, Run, Calm, InFlow, JustDone, Holds, FlowJob, Between, StreamOf, Apply, ApplyAll, Events, Authentic, AgeOf;
    hide Edges, Missed, Heeded, AgeAfter, HeedAfter, Delivered;
    var k1 := FlowDelivers(Auth, m, ins, age);
    var d, a, t := Run(m, ins[..k1]), AgeAfter(age, ins[..k1]), ins[k1..];
    AuthIsDone(m, ins, d, a);
    var k2 := FlowStream(AuthVsync, d, t, a, AgeOf(d, a));
    r := HeedAfter(d, t[..k2], AgeOf(d, a));
    p, k := k1 + 114, k1 + k2;
    LaterRun(m, ins, k1, 114);
    LaterRun(m, ins, k1, k2);
    RunSplit(m, ins, k, |ins|);
    assert ins[..|ins|] == ins && ins[k..][..|ins| - k] == ins[k..];
    CalmDrop(t, a, k2);
    CalmTake(t, a, k2);
    HeededRun(d, t[..k2], a, AgeOf(d, a)) by { InFlowFits(AuthVsync, d, a); }
    assert t[k2..] == ins[k..];
    var e := Run(m, ins[..k]);
    RunDelivers(e, ins[k..], AgeAfter(a, t[..k2]), r);
    LaterEvents(m, ins, p, k);
    assert t[114..k2] == ins[p..k];
    ApplyConcat(Apply(Authentic(ins[3].km, ins[3].an), Frame), Events(Run(m, ins[..p]), ins[p..k]), Events(e, ins[k..]));
  }

  lemma LaterRun(m: Mod, ins: seq<Inputs>, k: nat, j: nat)
    requires k + j <= |ins|
    ensures Run(m, ins[..k + j]) == Run(Run(m, ins[..k]), ins[k..][..j])
  {
    hide Run;
    RunSplit(m, ins, k, k + j);
  }

  lemma LaterEvents(m: Mod, ins: seq<Inputs>, p: nat, k: nat)
    requires p <= k <= |ins|
    ensures Events(Run(m, ins[..p]), ins[p..]) == Events(Run(m, ins[..p]), ins[p..k]) + Events(Run(m, ins[..k]), ins[k..])
    ensures Frame !in Events(Run(m, ins[..p]), ins[p..k]) ==>
              Frames(Run(m, ins[..p]), ins[p..]) == Frames(Run(m, ins[..k]), ins[k..])
  {
    hide Run, Events;
    EventsSplit(Run(m, ins[..p]), ins[p..], k - p);
    RunSplit(m, ins, p, k);
    assert ins[p..][..k - p] == ins[p..k] && ins[p..][k - p..] == ins[k..];
  }

  // Ks is the session key of Km and An, M0 its M value, and the keys of every
  // later frame follow from those two alone.
  lemma AuthenticatedFrames(m: Mod, ins: seq<Inputs>, age: nat) returns (k: nat, r: nat)
    requires m.state == AuthPulse && InFlow(Auth, m, age) && Calm(ins, age) && |ins| >= 346
    requires Step(m, ins[0]).cipher.state != C.Rekey && ins[54].an == ins[3].an
    requires !Vsync.Covers(Run(m, ins).state)
    ensures 228 < k <= 346 && Between(Run(m, ins[..k]), r)
    ensures var ks, d := C.SessionKey(ins[3].km, ins[3].an), Run(m, ins).cipher;
            var e, w := Run(m, ins[..k]), ins[k..];
            var n := 1 + Edges(e, w) - Missed(e, w, r);
            n > 0 && d.ks == ks && Keys(d.ki, d.mi) == KeysAfter(ks, Keys(Zeros(84), C.MValue(ks, ins[3].an)), n)
  {
    hide Step, Run, Calm, InFlow, Between, Complete, Events, Edges, Missed, C.SessionKey, C.MValue, C.Rekeyed, Apply, ApplyAll;
    var p;
    p, k, r := AuthenticatedStream(m, ins, age);
    var s, vs := Authentic(ins[3].km, ins[3].an), Events(Run(m, ins[..p]), ins[p..]);
    ApplyConcat(s, [Frame], vs);
    ApplyOne(s, Frame);
    KeysOfEvents(s, [Frame] + vs);
    assert multiset([Frame] + vs)[Frame] == 1 + multiset(vs)[Frame];
  }

  // ---- The window that enables encryption ----

  predicate Window(i: Inputs) {
    i.vsync && i.code1001
  }

  // The state n clocks later, when the first window opens after k clocks and
  // stays open for j.
  function WindowState(k: nat, j: nat, n: nat): MState {
    if n <= k then Wait1001 else if n <= k + j then Wait1001End else Ready
  }

  // After an initialisation the controller waits for a window, stays in it, and
  // is ready one clock after it closes, whatever the cipher does meanwhile.
  lemma {:induction false} WindowMakesReady(m: Mod, ins: seq<Inputs>, k: nat, j: nat, n: nat)
    requires m.state == Wait1001 && j > 0 && |ins| == k + j + 1 && n <= |ins|
    requires forall i <- ins :: !i.rst && !i.hpd && !i.aksv
    requires forall q | 0 <= q < |ins| :: Window(ins[q]) <==> k <= q < k + j
    ensures Run(m, ins[..n]).state == WindowState(k, j, n)
  {
    hide Run, C.Step;
    if n == 0 {
      NothingRuns(m);
      assert ins[..0] == [];
    } else {
      WindowMakesReady(m, ins, k, j, n - 1);
      RunSnoc(m, ins, n - 1);
      assert ins[n - 1] in ins;
    }
  }
}
