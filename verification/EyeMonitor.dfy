// The eye monitor of overlay/delay_controller.v: which results it writes, and
// where the slave stands when it does.
module EyeMonitor {
  import opened Bits
  import opened DelayController

  // The verdicts of the eye runs completed during a run.
  ghost function Verdicts(d: Delay, ins: seq<Inputs>): seq<bool> {
    if ins == [] then []
    else
      var n := |ins| - 1;
      var e := Run(d, ins[..n]);
      Verdicts(d, ins[..n]) + if EyeEnds(e, ActionOf(e, ins[n])) then [ins[n].matches] else []
  }

  ghost predicate Swept(e: Monitor, f: Monitor, v: seq<bool>, bt: Tap) {
    && f.tap == (if |v| == bt + 1 then 0 else |v|)
    && forall n | 0 <= n < 32 :: f.results[n] == if n < |v| then Verdict(v[n]) else e.results[n]
  }

  lemma SweptStep(e: Monitor, f: Monitor, v: seq<bool>, bt: Tap, matches: bool)
    requires |v| <= bt && Monitored(f, bt) && Swept(e, f, v, bt)
    ensures Swept(e, NextMonitor(f, bt, matches), v + [matches], bt)
  {
    hide OneHot, RotateLeft, Mark, Verdict;
    forall n | 0 <= n < 32
      ensures NextMonitor(f, bt, matches).results[n] == if n == f.tap then Verdict(matches) else f.results[n]
    {
      MarkOnlyMarks(f.results, f.tap, matches, n);
    }
  }

  // Starting at tap 0, the first bt + 1 completed eye runs write result bits
  // 0 to bt once each, every bit with the verdict of its own run.
  lemma {:induction false} EyeSweepWritesEachBitOnce(d: Delay, ins: seq<Inputs>, bt: Tap)
    requires Inv(d, bt) && Steady(ins, bt) && d.e.tap == 0 && |Verdicts(d, ins)| <= bt + 1
    ensures Swept(d.e, Run(d, ins).e, Verdicts(d, ins), bt)
    decreases |ins|
  {
    hide Inv, NextFilter, NextSequencer, NextTaps, NextMonitor, ActionOf, Swept;
    if ins == [] {
      assert Swept(d.e, d.e, [], bt) by { SweptEmpty(d.e, bt); }
    } else {
      var n := |ins| - 1;
      var e := Run(d, ins[..n]);
      EyeSweepWritesEachBitOnce(d, ins[..n], bt);
      RunSnoc(d, ins, n);
      assert ins[..n + 1] == ins;
      InvAlways(d, ins[..n], bt);
      InvGivesMonitored(e, bt);
      if EyeEnds(e, ActionOf(e, ins[n])) {
        SweptStep(d.e, e.e, Verdicts(d, ins[..n]), bt, ins[n].matches);
      } else {
        assert Verdicts(d, ins[..n]) + [] == Verdicts(d, ins[..n]);
      }
    }
  }

  lemma SweptEmpty(e: Monitor, bt: Tap)
    requires e.tap == 0
    ensures Swept(e, e, [], bt)
  {
  }

  lemma InvGivesMonitored(d: Delay, bt: Tap)
    requires Inv(d, bt)
    ensures Monitored(d.e, bt)
  {
  }

  // ---- Where the slave stands during an eye run ----

  ghost predicate OnTap(d: Delay) {
    d.q.eye ==> d.t.s == d.e.tap
  }

  lemma MonitorKeepsTap(d: Delay, i: Inputs)
    requires Inv(d, i.btVal) && !i.reset && i.monitor && OnTap(d)
    ensures OnTap(Step(d, i))
  {
    hide NextFilter, NextMonitor, Monitored;
  }

  // While monitoring stays on, every verdict is taken with the slave at the tap
  // whose result bit it decides.
  lemma {:induction false} VerdictsAreAtTheirTaps(d: Delay, ins: seq<Inputs>, bt: Tap, i: Inputs)
    requires Inv(d, bt) && OnTap(d) && Steady(ins + [i], bt) && forall j <- ins :: j.monitor
    ensures OnTap(Run(d, ins))
    ensures var e := Run(d, ins); EyeEnds(e, ActionOf(e, i)) ==> e.t.s == e.e.tap
    decreases |ins|
  {
    hide Step, Inv, OnTap;
    if ins == [] {
      EndsOnTap(d, i, bt);
    } else {
      assert (ins + [i])[1..] == ins[1..] + [i] && ins[0] in ins + [i];
      assert forall j <- ins[1..] + [i] :: j in ins + [i];
      MonitorKeepsTap(d, ins[0]);
      StepKeepsInv(d, ins[0]);
      VerdictsAreAtTheirTaps(Step(d, ins[0]), ins[1..], bt, i);
    }
  }

  lemma EndsOnTap(d: Delay, i: Inputs, bt: Tap)
    requires Inv(d, bt) && OnTap(d)
    ensures EyeEnds(d, ActionOf(d, i)) ==> d.t.s == d.e.tap
  {
  }

  // With monitoring on, a run that begins lasts 23 clocks, at its own tap, and
  // its last clock gives the verdict.
  lemma {:induction false} EyeRunTakes23(d: Delay, ins: seq<Inputs>, bt: Tap, n: nat)
    requires Inv(d, bt) && !d.q.eye && Steady(ins, bt) && |ins| == 23 && forall j <- ins :: j.monitor
    requires ActionOf(d, ins[0]) == Eye && 1 <= n <= 22
    ensures var e := Run(d, ins[..n]); e.q.eye && e.q.step == n && e.t.s == d.e.tap && e.t.m == d.t.m && e.e == d.e
    ensures n == 22 ==> EyeEnds(Run(d, ins[..22]), ActionOf(Run(d, ins[..22]), ins[22]))
    ensures n == 22 ==> !Run(d, ins).q.eye && Run(d, ins).e == NextMonitor(d.e, bt, ins[22].matches)
  {
    hide NextFilter, NextMonitor, Inv, Run;
    RunSnoc(d, ins, n - 1);
    assert ins[n - 1] in ins;
    if n == 1 {
      NothingRuns(d);
      assert ins[..0] == [];
      EyeBegins(d, ins[0]);
    } else {
      EyeRunTakes23(d, ins, bt, n - 1);
      RunInv(d, ins, n - 1, bt);
      EyeContinues(Run(d, ins[..n - 1]), ins[n - 1]);
    }
    if n == 22 {
      RunInv(d, ins, 22, bt);
      RunSnoc(d, ins, 22);
      assert ins[..23] == ins && ins[22] in ins;
      EyeFinishes(Run(d, ins[..22]), ins[22]);
    }
  }

  lemma EyeBegins(d: Delay, i: Inputs)
    requires Inv(d, i.btVal) && !i.reset && !d.q.eye && ActionOf(d, i) == Eye
    ensures var e := Step(d, i); e.q.eye && e.q.step == 1 && e.t.s == d.e.tap && e.t.m == d.t.m && e.e == d.e
  {
    hide NextFilter, NextMonitor, Monitored;
  }

  lemma EyeContinues(d: Delay, i: Inputs)
    requires Inv(d, i.btVal) && !i.reset && d.q.eye && i.monitor && d.q.step < 22
    ensures var e := Step(d, i); e.q.eye && e.q.step == d.q.step + 1 && e.t == d.t && e.e == d.e
  {
    hide NextFilter, NextMonitor, Monitored;
  }

  lemma EyeFinishes(d: Delay, i: Inputs)
    requires Inv(d, i.btVal) && !i.reset && d.q.eye && i.monitor && d.q.step == 22
    ensures EyeEnds(d, ActionOf(d, i)) && !Step(d, i).q.eye && Step(d, i).e == NextMonitor(d.e, i.btVal, i.matches)
  {
    hide NextFilter, NextMonitor, Monitored;
  }

  // The idle place of the slave.
  function IdlePlace(m: Tap, i: Inputs): Tap {
    var half := i.btVal / 2;
    if m >= half && !i.delMech then m - half else Wrap5(m + half)
  }

  // Where the slave is after these clocks of an eye run: a clock without
  // monitoring sends it to its idle place, and nothing brings it back.
  ghost function SlaveAfter(s: Tap, m: Tap, ins: seq<Inputs>): Tap
    decreases |ins|
  {
    if ins == [] then s else SlaveAfter(if ins[0].monitor then s else IdlePlace(m, ins[0]), m, ins[1..])
  }

  // The eye run does not end in these clocks.
  ghost predicate Unfinished(d: Delay, ins: seq<Inputs>) {
    forall n | 0 <= n < |ins| :: !EyeEnds(Run(d, ins[..n]), ActionOf(Run(d, ins[..n]), ins[n]))
  }

  lemma EyeStays(d: Delay, i: Inputs)
    requires Inv(d, i.btVal) && !i.reset && d.q.eye && !EyeEnds(d, ActionOf(d, i))
    ensures var e := Step(d, i);
            e.q.eye && e.e == d.e && e.t.m == d.t.m && e.t.s == if i.monitor then d.t.s else IdlePlace(d.t.m, i)
  {
    hide NextFilter, NextMonitor, Monitored;
  }

  lemma {:induction false} SlaveDuringRun(d: Delay, ins: seq<Inputs>, bt: Tap)
    requires Inv(d, bt) && d.q.eye && Steady(ins, bt) && Unfinished(d, ins)
    ensures var e := Run(d, ins);
            e.q.eye && e.e == d.e && e.t.m == d.t.m && e.t.s == SlaveAfter(d.t.s, d.t.m, ins)
    decreases |ins|
  {
    hide Inv, Step, EyeEnds, ActionOf, IdlePlace;
    if ins != [] {
      var n, t := Step(d, ins[0]), ins[1..];
      assert ins[..0] == [] && Run(d, ins[..0]) == d;
      forall x | 0 <= x < |t|
        ensures !EyeEnds(Run(n, t[..x]), ActionOf(Run(n, t[..x]), t[x]))
      {
        assert ins[..x + 1][1..] == t[..x] && ins[x + 1] == t[x];
        assert Run(d, ins[..x + 1]) == Run(n, t[..x]);
      }
      EyeStays(d, ins[0]);
      StepKeepsInv(d, ins[0]);
      SlaveDuringRun(n, t, bt);
    }
  }

  lemma {:induction false} SlaveAfterIs(s: Tap, m: Tap, ins: seq<Inputs>, n: nat)
    requires n < |ins| && forall k | n < k < |ins| :: ins[k].monitor
    ensures !ins[n].monitor ==> SlaveAfter(s, m, ins) == IdlePlace(m, ins[n])
    ensures (forall k | 0 <= k < |ins| :: ins[k].monitor) ==> SlaveAfter(s, m, ins) == s
    decreases |ins|
  {
    hide IdlePlace;
    var t := ins[1..];
    if n > 0 {
      assert forall k | n - 1 < k < |t| :: t[k] == ins[k + 1];
      SlaveAfterIs(if ins[0].monitor then s else IdlePlace(m, ins[0]), m, t, n - 1);
      if forall k | 0 <= k < |ins| :: ins[k].monitor {
        assert forall k | 0 <= k < |t| :: t[k] == ins[k + 1];
      }
    } else {
      AllMonitored(if ins[0].monitor then s else IdlePlace(m, ins[0]), m, t);
    }
  }

  lemma {:induction false} AllMonitored(s: Tap, m: Tap, ins: seq<Inputs>)
    requires forall k | 0 <= k < |ins| :: ins[k].monitor
    ensures SlaveAfter(s, m, ins) == s
    decreases |ins|
  {
    if ins != [] {
      assert forall k | 0 <= k < |ins| - 1 :: ins[1..][k] == ins[k + 1];
      AllMonitored(s, m, ins[1..]);
    }
  }

  // The last clock without monitoring, or none.
  ghost predicate LastLow(ins: seq<Inputs>, n: nat) {
    n < |ins| && !ins[n].monitor && forall k | n < k < |ins| :: ins[k].monitor
  }

  // A run that began at its tap is still there if and only if monitoring was on
  // in every clock since, or the place the slave went to in the last clock
  // without it happens to be that tap.
  lemma RunIsAtItsTapIff(d: Delay, ins: seq<Inputs>, bt: Tap)
    requires Inv(d, bt) && d.q.eye && d.t.s == d.e.tap && Steady(ins, bt) && Unfinished(d, ins)
    ensures var e := Run(d, ins);
            e.t.s == e.e.tap
            <==> (forall j <- ins :: j.monitor) || exists n: nat | LastLow(ins, n) :: IdlePlace(d.t.m, ins[n]) == d.e.tap
  {
    hide Inv, Step, Run, Unfinished, IdlePlace, SlaveAfter;
    SlaveDuringRun(d, ins, bt);
    if forall j <- ins :: j.monitor {
      assert forall k | 0 <= k < |ins| :: ins[k] in ins;
      AllMonitored(d.t.s, d.t.m, ins);
    } else {
      var n := FindLastLow(ins);
      SlaveAfterIs(d.t.s, d.t.m, ins, n);
      forall k: nat | LastLow(ins, k)
        ensures k == n
      {
      }
    }
  }

  lemma {:induction false} FindLastLow(ins: seq<Inputs>) returns (n: nat)
    requires exists j <- ins :: !j.monitor
    ensures LastLow(ins, n)
  {
    n := |ins| - 1;
    if ins[n].monitor {
      var j :| j in ins && !j.monitor;
      var k :| 0 <= k < |ins| && ins[k] == j;
      assert ins[..n][k] == j;
      n := FindLastLow(ins[..n]);
    }
  }

  // Such a run: from reset at a full bit time of two taps or more, monitoring on
  // for a clock, off for a clock and on again. The verdict for tap zero is taken
  // with the slave half a bit time behind the master.
  lemma ResumedRunIsOffItsTap(d: Delay, bt: Tap)
    requires !d.f.pdMax && !d.f.pdMin && bt >= 2
    ensures var off := Inputs(false, bt, false, false, bt, false, false, false, false);
            var on := off.(monitor := true);
            var e := Run(Reset(d, bt), [off, on, off] + seq(21, _ => on));
            EyeEnds(e, ActionOf(e, on)) && e.e.tap == 0 && e.t.s == bt - bt / 2
  {
    hide Step, Inv, EyeEnds, ActionOf;
    var off := Inputs(false, bt, false, false, bt, false, false, false, false);
    var on := off.(monitor := true);
    var r, w := Reset(d, bt), [off, on, off];
    RunSnoc(r, w, 0);
    RunSnoc(r, w, 1);
    RunSnoc(r, w, 2);
    NothingRuns(r);
    assert w[..0] == [] && w[..3] == w && Steady(w, bt);
    ResetFits(d, bt, bt);
    InvAlways(r, w, bt);
    InterruptedAtOnce(d, bt, off);
    var e := Run(r, w);
    ResumesOffTap(e, on, 21);
    RunJoins(r, w, seq(21, _ => on));
  }

  lemma InterruptedAtOnce(d: Delay, bt: Tap, off: Inputs)
    requires off == Inputs(false, bt, false, false, bt, false, false, false, false)
    ensures var e := Step(Step(Step(Reset(d, bt), off), off.(monitor := true)), off);
            e.q.eye && e.q.step == 1 && e.e.tap == 0 && e.t.s == bt - bt / 2
  {
    hide NextFilter, NextMonitor, OneHot;
  }

  lemma {:induction false} ResumesOffTap(d: Delay, on: Inputs, n: nat)
    requires Inv(d, on.btVal) && !on.reset && on.monitor && d.q.eye && d.q.step + n == 22
    ensures var e := Run(d, seq(n, _ => on)); EyeEnds(e, ActionOf(e, on)) && e.e == d.e && e.t == d.t
    decreases n
  {
    hide Step, Inv, EyeEnds, ActionOf;
    if n == 0 {
      EyeFinishes(d, on);
      assert seq(0, _ => on) == [];
    } else {
      EyeContinues(d, on);
      StepKeepsInv(d, on);
      ResumesOffTap(Step(d, on), on, n - 1);
      assert seq(n, _ => on)[1..] == seq(n - 1, _ => on);
    }
  }

  // An eye run that is interrupted keeps the phase detector from ever starting
  // an adjustment, until monitoring is enabled again.
  lemma {:induction false} InterruptedEyeRunBlocksAdjustment(d: Delay, ins: seq<Inputs>, bt: Tap, i: Inputs)
    requires Inv(d, bt) && d.q.eye && Steady(ins, bt) && forall j <- ins :: !j.monitor
    ensures Run(d, ins).q.eye && Run(d, ins).t.m == d.t.m && !Starts(Run(d, ins), i)
    decreases |ins|
  {
    hide NextFilter, NextMonitor;
    if ins != [] {
      StepKeepsInv(d, ins[0]);
      InterruptedEyeRunBlocksAdjustment(Step(d, ins[0]), ins[1..], bt, i);
    }
  }
}
