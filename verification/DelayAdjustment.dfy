// When the phase detector of overlay/delay_controller.v adjusts the delays, and
// where that takes the master.
module DelayAdjustment {
  import opened Bits
  import opened DelayController
  import opened EyeMonitor

  // An adjustment moves the master one tap, up or down as it was ordered; at the
  // end of the range it starts a wrap instead.
  lemma AdjustmentMoves(d: Delay, i: Inputs)
    requires Inv(d, i.btVal) && !i.reset && Starts(d, i)
    ensures var up, m := d.f.pdMax, d.t.m;
            if m != (if up then i.btVal else 0) then Step(d, i).t.m == (if up then m + 1 else m - 1)
            else ActionOf(d, i) == if up then WrapUp else WrapDown
  {
    hide NextFilter, NextMonitor, Monitored;
  }

  // The detector is on, monitoring is off, and every comparison says the same:
  // too short, or too long.
  function Push(bt: Tap, up: bool): Inputs {
    Inputs(false, 0, true, false, bt, false, up, !up, false)
  }

  // The counter stands at 32 after each adjustment: 31 clocks below its one end
  // and 32 above its other.
  function Pace(up: bool): nat {
    if up then 42 else 43
  }

  // The clocks until an adjustment starts under such inputs, at most.
  function Wait(d: Delay, up: bool): nat {
    if (d.f.pdMax || d.f.pdMin) && !d.q.change then 0
    else if d.q.inc || d.q.dec then Pace(up) + 15 - d.q.step
    else if d.q.change then Pace(up) - 1
    else if d.f.hold & 0x80 != 0 then HoldClocks(d.f.hold) + Pace(up) - 10
    else if up then 64 - d.f.count else d.f.count + 1
  }

  lemma WrapAdvances(d: Delay, i: Inputs)
    requires Inv(d, i.btVal) && !i.reset && (d.q.inc || d.q.dec)
    ensures 1 <= d.q.step <= 15 && !d.f.pdMax && !d.f.pdMin
    ensures var q := Step(d, i).q;
            q.change && !q.eye && (if d.q.step < 15 then (q.inc || q.dec) && q.step == d.q.step + 1 else !q.inc && !q.dec)
    ensures !Step(d, i).f.pdMax && !Step(d, i).f.pdMin
  {
    hide NextTaps, NextMonitor, Monitored;
  }

  lemma WaitInWrap(d: Delay, bt: Tap, up: bool)
    requires Inv(d, bt) && (d.q.inc || d.q.dec)
    ensures 0 < Wait(d, up) <= 64 && Wait(Step(d, Push(bt, up)), up) < Wait(d, up) && !Step(d, Push(bt, up)).q.eye
  {
    hide HoldClocks, Step, Inv;
    WrapAdvances(d, Push(bt, up));
  }

  lemma WaitOutside(d: Delay, bt: Tap, up: bool)
    requires Inv(d, bt) && !d.q.eye && !d.q.inc && !d.q.dec && !Starts(d, Push(bt, up))
    ensures 0 < Wait(d, up) <= 64 && Wait(Step(d, Push(bt, up)), up) < Wait(d, up) && !Step(d, Push(bt, up)).q.eye
  {
    hide HoldClocks, NextTaps, NextMonitor, NextWrapStep, Monitored, Sequenced;
    assert ActionOf(d, Push(bt, up)) == Place;
    HoldShifts(d.f.hold);
    HoldShifts((d.f.hold & 0x7F) << 1);
  }

  lemma WaitStep(d: Delay, bt: Tap, up: bool)
    requires Inv(d, bt) && !d.q.eye && !Starts(d, Push(bt, up))
    ensures 0 < Wait(d, up) <= 64 && Wait(Step(d, Push(bt, up)), up) < Wait(d, up) && !Step(d, Push(bt, up)).q.eye
  {
    hide Inv, Step, Wait, Starts;
    if d.q.inc || d.q.dec {
      WaitInWrap(d, bt, up);
    } else {
      WaitOutside(d, bt, up);
    }
  }

  // A wrap ends, the hold-off drains and the counter runs to its end: with no
  // eye run under way the phase detector starts an adjustment within 64 clocks.
  lemma {:induction false} AdjustmentStarts(d: Delay, bt: Tap, up: bool) returns (k: nat)
    requires Inv(d, bt) && !d.q.eye
    ensures k <= Wait(d, up) <= 64 && Starts(Run(d, seq(k, _ => Push(bt, up))), Push(bt, up))
    decreases Wait(d, up)
  {
    hide Inv, Step, Wait, Starts;
    var i := Push(bt, up);
    WaitBound(d, bt, up);
    if Starts(d, i) {
      k := 0;
      assert Run(d, seq(0, _ => i)) == d;
    } else {
      WaitStep(d, bt, up);
      StepKeepsInv(d, i);
      var j := AdjustmentStarts(Step(d, i), bt, up);
      k := j + 1;
      assert seq(k, _ => i)[1..] == seq(j, _ => i);
    }
  }

  lemma WaitBound(d: Delay, bt: Tap, up: bool)
    requires Inv(d, bt)
    ensures Wait(d, up) <= 64
  {
    hide HoldClocks;
    HoldShifts(d.f.hold);
  }

  // Outside sequences, with no order the other way pending.
  ghost predicate Heading(d: Delay, bt: Tap, up: bool) {
    && Inv(d, bt) && !d.q.eye && !d.q.inc && !d.q.dec
    && ((if up then d.f.pdMin else d.f.pdMax) ==> d.q.change)
    && ((if up then d.f.count > 0 else d.f.count < 63) || d.q.change)
  }

  lemma HeadingMoves(d: Delay, bt: Tap, up: bool)
    requires Heading(d, bt, up) && d.t.m != (if up then bt else 0)
    ensures var i := Push(bt, up);
            Heading(Step(d, i), bt, up)
            && Step(d, i).t.m == if !Starts(d, i) then d.t.m else if up then d.t.m + 1 else d.t.m - 1
  {
    hide NextMonitor, Monitored;
    StepKeepsInv(d, Push(bt, up));
  }

  // The bound is exact now.
  lemma HeadingWaits(d: Delay, bt: Tap, up: bool)
    requires Heading(d, bt, up) && d.t.m != (if up then bt else 0)
    ensures Starts(d, Push(bt, up)) <==> Wait(d, up) == 0
    ensures Wait(Step(d, Push(bt, up)), up) == if Wait(d, up) == 0 then Pace(up) - 1 else Wait(d, up) - 1
  {
    hide HoldClocks, NextTaps, NextMonitor, NextWrapStep, Monitored, Sequenced;
    HoldShifts(d.f.hold);
    HoldShifts((d.f.hold & 0x7F) << 1);
  }

  // Under steady comparisons the next tap is reached when the wait is over, and
  // from then on the pace is that of the counter.
  lemma {:induction false} NextTap(d: Delay, bt: Tap, up: bool, n: nat)
    requires Heading(d, bt, up) && d.t.m != (if up then bt else 0) && n <= Wait(d, up) + 1
    ensures var e := Run(d, seq(n, _ => Push(bt, up)));
            && Heading(e, bt, up)
            && e.t.m == (if n <= Wait(d, up) then d.t.m else if up then d.t.m + 1 else d.t.m - 1)
            && Wait(e, up) == if n <= Wait(d, up) then Wait(d, up) - n else Pace(up) - 1
    decreases n
  {
    hide Inv, Step, Wait, Starts, Heading;
    var i := Push(bt, up);
    if n == 0 {
      assert Run(d, seq(0, _ => i)) == d;
    } else {
      HeadingMoves(d, bt, up);
      HeadingWaits(d, bt, up);
      assert seq(n, _ => i)[1..] == seq(n - 1, _ => i);
      if Wait(d, up) == 0 {
        assert Run(Step(d, i), seq(0, _ => i)) == Step(d, i);
      } else {
        NextTap(Step(d, i), bt, up, n - 1);
      }
    }
  }

  lemma HeadingGives(d: Delay, bt: Tap, up: bool)
    requires Heading(d, bt, up)
    ensures Inv(d, bt) && !d.q.eye && d.t.m <= bt
  {
  }

  // The clocks to the tap n.
  function Journey(d: Delay, up: bool, n: Tap): nat
    requires if up then d.t.m <= n else n <= d.t.m
  {
    if d.t.m == n then 0 else Wait(d, up) + 1 + Pace(up) * ((if up then n - d.t.m else d.t.m - n) - 1)
  }

  // And so, tap by tap, is every other tap on that side.
  lemma {:induction false} TapIsReached(d: Delay, bt: Tap, up: bool, n: Tap)
    requires Heading(d, bt, up) && if up then d.t.m <= n <= bt else n <= d.t.m
    ensures Run(d, seq(Journey(d, up, n), _ => Push(bt, up))).t.m == n
    decreases if up then n - d.t.m else d.t.m - n
  {
    hide Heading, Step, Wait;
    var i, k := Push(bt, up), Journey(d, up, n);
    if d.t.m == n {
      assert Run(d, seq(0, _ => i)) == d;
    } else {
      HeadingGives(d, bt, up);
      var j := Wait(d, up) + 1;
      NextTap(d, bt, up, j);
      var e := Run(d, seq(j, _ => i));
      TapIsReached(e, bt, up, n);
      var l := Journey(e, up, n);
      assert k == j + l;
      RunJoins(d, seq(j, _ => i), seq(l, _ => i));
      assert seq(j, _ => i) + seq(l, _ => i) == seq(k, _ => i);
    }
  }

  // After a reset the counter stands in the middle as well: the first adjustment
  // moves the initial delay, ten clocks sooner than the next ones.
  lemma FirstAfterReset(d: Delay, c: Tap, bt: Tap, up: bool)
    requires !d.f.pdMax && !d.f.pdMin && c <= bt && c != (if up then bt else 0)
    ensures var r, n := Reset(d, c), Pace(up) - 10;
            && Run(r, seq(n, _ => Push(bt, up))).t.m == c
            && Run(r, seq(n + 1, _ => Push(bt, up))).t.m == if up then c + 1 else c - 1
  {
    hide Step, Inv, Starts;
    ResetFits(d, c, bt);
    var r := Reset(d, c);
    assert Heading(r, bt, up) && Wait(r, up) == Pace(up) - 10;
    hide Heading, Wait;
    NextTap(r, bt, up, Pace(up) - 10);
    NextTap(r, bt, up, Pace(up) - 9);
  }

  lemma DetectorOff(d: Delay, i: Inputs, up: bool)
    requires Inv(d, i.btVal) && !d.q.eye && !d.q.inc && !d.q.dec && !i.reset && !i.phaseDetector && !i.monitor
    ensures Heading(Step(d, i), i.btVal, up) && Step(d, i).t.m == d.t.m
  {
    hide NextMonitor, Monitored;
    StepKeepsInv(d, i);
  }

  // From any tap the controller can be brought to any other in its range: one
  // clock without the detector drops a pending order, and steady comparisons
  // bring the taps of the way, one every 42 clocks up and every 43 down.
  lemma EveryTapIsReached(d: Delay, bt: Tap, n: Tap) returns (ins: seq<Inputs>)
    requires Inv(d, bt) && !d.q.eye && !d.q.inc && !d.q.dec && n <= bt
    ensures Steady(ins, bt) && Run(d, ins).t.m == n
    ensures |ins| <= 66 + 43 * (if n >= d.t.m then n - d.t.m else d.t.m - n)
  {
    hide Inv, Step, Heading, Wait;
    var up := n >= d.t.m;
    var off := Push(bt, up).(phaseDetector := false);
    DetectorOff(d, off, up);
    var e := Step(d, off);
    HeadingGives(e, bt, up);
    WaitBound(e, bt, up);
    TapIsReached(e, bt, up, n);
    var k := Journey(e, up, n);
    JourneyBound(e, up, n);
    ins := [off] + seq(k, _ => Push(bt, up));
    assert ins[1..] == seq(k, _ => Push(bt, up));
  }

  lemma JourneyBound(d: Delay, up: bool, n: Tap)
    requires (if up then d.t.m <= n else n <= d.t.m) && Wait(d, up) <= 64
    ensures Journey(d, up, n) <= 65 + 43 * (if up then n - d.t.m else d.t.m - n)
  {
    hide Wait;
  }

  // ---- When can an adjustment start? ----

  ghost predicate CanAdjust(d: Delay, bt: Tap) {
    exists ins: seq<Inputs>, i: Inputs | Steady(ins + [i], bt) && Unmonitored(ins + [i]) :: Starts(Run(d, ins), i)
  }

  ghost predicate Unmonitored(ins: seq<Inputs>) {
    forall i <- ins :: !i.monitor
  }

  // While monitoring is off, an adjustment can start in some run if and only if
  // no eye run has been left unfinished.
  lemma AdjustmentIsPossibleIff(d: Delay, bt: Tap)
    requires Inv(d, bt)
    ensures CanAdjust(d, bt) <==> !d.q.eye
  {
    hide Inv, Step, Starts, Wait;
    if d.q.eye {
      forall ins: seq<Inputs>, i: Inputs | Steady(ins + [i], bt) && Unmonitored(ins + [i])
        ensures !Starts(Run(d, ins), i)
      {
        assert forall j <- ins :: j in ins + [i];
        InterruptedEyeRunBlocksAdjustment(d, ins, bt, i);
      }
    } else {
      var k := AdjustmentStarts(d, bt, true);
      var ins := seq(k, _ => Push(bt, true));
      assert Steady(ins + [Push(bt, true)], bt) && Unmonitored(ins + [Push(bt, true)]);
    }
  }

  // Reset, a clock with the detector off and one with monitoring on leave an
  // eye run begun: turning monitoring off again then blocks every adjustment.
  lemma EyeRunCanBeLeftUnfinished(d: Delay, c: Tap, bt: Tap)
    requires !d.f.pdMax && !d.f.pdMin && c <= bt
    ensures var off := Inputs(false, c, false, false, bt, false, false, false, false);
            var e := Run(Reset(d, c), [off, off.(monitor := true)]);
            Inv(e, bt) && e.q.eye && !CanAdjust(e, bt)
  {
    hide Step, Inv, Starts;
    var off := Inputs(false, c, false, false, bt, false, false, false, false);
    var w, r := [off, off.(monitor := true)], Reset(d, c);
    RunSnoc(r, w, 0);
    RunSnoc(r, w, 1);
    assert w[..0] == [] && w[..2] == w;
    EyeRunBegins(d, c, off);
    assert Steady(w, bt);
    ResetFits(d, c, bt);
    InvAlways(r, w, bt);
    AdjustmentIsPossibleIff(Run(r, w), bt);
  }

  lemma EyeRunBegins(d: Delay, c: Tap, off: Inputs)
    requires !off.reset && !off.phaseDetector && !off.monitor
    ensures Step(Step(Reset(d, c), off), off.(monitor := true)).q.eye
  {
    hide NextMonitor, NextFilter;
  }
}
