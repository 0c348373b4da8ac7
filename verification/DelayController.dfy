// The per-bit delay controller (overlay/delay_controller.v): phase detector
// filter, master and slave taps, wrap sequences and eye monitor. The sample
// comparison itself is an input: its verdict (action) and its match flag.
module DelayController {
  import opened Bits
  import BitTime

  type Tap = n: nat | n < 32
  type Mux = n: nat | n < 4
  type Count6 = n: nat | n < 64
  type Word32 = w: Bits | |w| == 32 witness Zeros(32)

  datatype Inputs = Inputs(
    reset: bool, cDelay: Tap, phaseDetector: bool, monitor: bool, btVal: Tap, delMech: bool,
    shorter: bool, longer: bool, matches: bool)

  // The four groups of registers: which step of which sequence is running, the
  // tap settings, the phase filter and the eye monitor.
  datatype Sequencer = Sequencer(
    step: Tap, inc: bool, dec: bool, eye: bool, change: bool, dataMux: bool, mMux: Mux, sMux: Mux)

  datatype Taps = Taps(m: Tap, s: Tap, overflow: bool)

  datatype Filter = Filter(count: Count6, hold: bv8, meqMax: bool, meqMin: bool, pdMax: bool, pdMin: bool)

  datatype Monitor = Monitor(tap: Tap, shifter: Word32, results: Word32)

  datatype Delay = Delay(q: Sequencer, t: Taps, f: Filter, e: Monitor)

  function OneHot(k: Tap): Word32 {
    Zeros(32)[k := 1]
  }

  function RotateLeft(w: Word32): Word32 {
    [w[31]] + w[..31]
  }

  function Mark(results: Word32, shifter: Word32, verdict: bool): Word32 {
    seq(32, n requires 0 <= n < 32 => if verdict then results[n] | shifter[n] else results[n] & !shifter[n])
  }

  function Wrap5(n: nat): Tap {
    n % 32
  }

  // s_state[3:0] + 1: bit 4 is left alone.
  function NextWrapStep(n: Tap): Tap {
    n / 16 * 16 + (n + 1) % 16
  }

  // Reset leaves the four comparison flags alone.
  function Reset(d: Delay, c: Tap): Delay {
    Delay(Sequencer(0, false, false, false, false, false, 1, 1), Taps(c, c, false),
          d.f.(count := 32, hold := 0), Monitor(0, OneHot(0), Zeros(32)))
  }

  // What a clock does with the delays.
  datatype Action = Up | Down | WrapUp | WrapDown | Eye | Place

  function ActionOf(d: Delay, i: Inputs): Action {
    if (i.phaseDetector && d.f.pdMax && !d.q.change) || d.q.inc then
      if !d.f.meqMax && !d.q.inc then Up else WrapUp
    else if (i.phaseDetector && d.f.pdMin && !d.q.change) || d.q.dec then
      if !d.f.meqMin && !d.q.dec then Down else WrapDown
    else if i.monitor && (d.q.eye || d.q.change) then Eye
    else Place
  }

  function Sequence(q: Sequencer, a: Action): Sequencer {
    var k := q.step % 16;
    match a
    case Up => q.(change := true)
    case Down => q.(change := true)
    case WrapUp => q.(change := true, step := NextWrapStep(q.step),
                      inc := if k == 15 then false else if k in {6, 9, 14} then q.inc else true,
                      dataMux := if k == 6 then true else if k == 14 then false else q.dataMux,
                      mMux := if k == 9 then (q.mMux + 3) % 4 else q.mMux,
                      sMux := if k == 15 then q.mMux else q.sMux)
    case WrapDown => q.(change := true, step := NextWrapStep(q.step),
                        dec := if k == 15 then false else if k in {6, 9, 14} then q.dec else true,
                        dataMux := if k == 6 then true else if k == 14 then false else q.dataMux,
                        mMux := if k == 9 then (q.mMux + 1) % 4 else q.mMux,
                        sMux := if k == 15 then q.mMux else q.sMux)
    case Eye => q.(change := false, step := if q.step == 22 then 0 else Wrap5(q.step + 1), eye := q.step != 22)
    case Place => q.(change := false)
  }

  // With the phase detector off, delay_change is set whenever it was clear.
  function NextSequencer(q: Sequencer, a: Action, phaseDetector: bool): Sequencer {
    if !phaseDetector && !q.change then Sequence(q, a).(change := true) else Sequence(q, a)
  }

  // Outside sequences the slave sits half a bit time before or after the master.
  function NextTaps(d: Delay, a: Action, i: Inputs): Taps {
    var t, k, half := d.t, d.q.step % 16, i.btVal / 2;
    match a
    case Up => t.(m := Wrap5(t.m + 1))
    case Down => t.(m := Wrap5(t.m + 31))
    case WrapUp => t.(s := if k == 0 then i.btVal else t.s, m := if k == 6 then 0 else t.m)
    case WrapDown => t.(s := if k == 0 then 0 else t.s, m := if k == 6 then i.btVal else t.m)
    case Eye => t.(s := if d.q.step == 0 then d.e.tap else t.s)
    case Place =>
      if t.m >= half && !i.delMech then Taps(t.m, t.m - half, false) else Taps(t.m, Wrap5(t.m + half), true)
  }

  predicate EyeEnds(d: Delay, a: Action) {
    a == Eye && d.q.step == 22
  }

  function NextMonitor(e: Monitor, btVal: Tap, matches: bool): Monitor {
    Monitor(if e.tap == btVal then 0 else Wrap5(e.tap + 1),
            if e.tap == btVal then OneHot(0) else RotateLeft(e.shifter),
            Mark(e.results, e.shifter, matches))
  }

  predicate Holding(q: Sequencer) {
    q.change || q.inc || q.dec || q.eye
  }

  function NextFilter(d: Delay, i: Inputs): Filter {
    var f := d.f;
    Filter(
      if Holding(d.q) || f.hold & 0x80 != 0 then 32
      else if i.shorter && f.count != 63 then f.count + 1
      else if i.longer && f.count != 0 then f.count - 1
      else f.count,
      if Holding(d.q) then 0xFF else if f.hold & 0x80 != 0 then (f.hold & 0x7F) << 1 else f.hold,
      d.t.m == i.btVal, d.t.m == 0,
      f.count == 63 && !f.pdMax && !d.q.change,
      f.count == 0 && !f.pdMin && !d.q.change)
  }

  function Step(d: Delay, i: Inputs): Delay {
    if i.reset then Reset(d, i.cDelay)
    else
      var a := ActionOf(d, i);
      Delay(NextSequencer(d.q, a, i.phaseDetector), NextTaps(d, a, i), NextFilter(d, i),
            if EyeEnds(d, a) then NextMonitor(d.e, i.btVal, i.matches) else d.e)
  }

  class DelayUnit {
    var q: Sequencer
    var t: Taps
    var f: Filter
    var e: Monitor

    function State(): Delay
      reads this
    {
      Delay(q, t, f, e)
    }

    constructor (flags: Filter, c: Tap)
      ensures State() == Delay(Sequencer(0, false, false, false, false, false, 1, 1), Taps(c, c, false),
                               flags.(count := 32, hold := 0), Monitor(0, OneHot(0), Zeros(32)))
    {
      q := Sequencer(0, false, false, false, false, false, 1, 1);
      t := Taps(c, c, false);
      f := flags.(count := 32, hold := 0);
      e := Monitor(0, OneHot(0), Zeros(32));
    }

    method Clock(i: Inputs)
      modifies this
      ensures State() == Step(old(State()), i)
    {
      if i.reset {
        q := Sequencer(0, false, false, false, false, false, 1, 1);
        t := Taps(i.cDelay, i.cDelay, false);
        f := f.(count := 32, hold := 0);
        e := Monitor(0, OneHot(0), Zeros(32));
      } else {
        var d := State();
        ClockFilter(i);
        ClockDelays(d, i);
      }
    }

    // One clock for each of the inputs; the invariant below outlasts them all.
    method ClockAll(ins: seq<Inputs>, ghost bt: Tap)
      modifies this
      ensures State() == Run(old(State()), ins)
      ensures old(Inv(State(), bt)) && Steady(ins, bt) ==> Inv(State(), bt)
    {
      hide Step, Inv, State, Steady;
      ghost var was := State();
      assert ins[0..] == ins;
      for n := 0 to |ins|
        invariant Run(State(), ins[n..]) == Run(was, ins)
      {
        assert ins[n..][1..] == ins[n + 1..];
        Clock(ins[n]);
      }
      assert ins[|ins|..] == [];
      if Inv(was, bt) && Steady(ins, bt) {
        InvAlways(was, ins, bt);
      }
    }

    // Comparison flags and filter counter.
    method ClockFilter(i: Inputs)
      modifies this`f
      ensures f == NextFilter(old(State()), i)
    {
      var count, hold := f.count, f.hold;
      if q.change || q.inc || q.dec || q.eye {
        hold := 0xFF;
        count := 32;
      } else if f.hold & 0x80 != 0 {
        count := 32;
        hold := (f.hold & 0x7F) << 1;
      } else if i.shorter && f.count != 63 {
        count := f.count + 1;
      } else if i.longer && f.count != 0 {
        count := f.count - 1;
      }
      f := Filter(count, hold, t.m == i.btVal, t.m == 0,
                  f.count == 63 && !f.pdMax && !q.change, f.count == 0 && !f.pdMin && !q.change);
    }

    // One step of the sequence that takes the master from bit time to zero.
    static method StepUp(d: Delay, i: Inputs) returns (q: Sequencer, t: Taps)
      ensures q == Sequence(d.q, WrapUp) && t == NextTaps(d, WrapUp, i)
    {
      hide NextWrapStep;
      q, t := d.q.(change := true, step := NextWrapStep(d.q.step)), d.t;
      match d.q.step % 16 {
        case 0 => q := q.(inc := true); t := t.(s := i.btVal);
        case 6 => q := q.(dataMux := true); t := t.(m := 0);
        case 9 => q := q.(mMux := (q.mMux + 3) % 4);
        case 14 => q := q.(dataMux := false);
        case 15 => q := q.(sMux := q.mMux, inc := false);
        case _ => q := q.(inc := true);
      }
    }

    // One step of the sequence that takes the master from zero to bit time.
    static method StepDown(d: Delay, i: Inputs) returns (q: Sequencer, t: Taps)
      ensures q == Sequence(d.q, WrapDown) && t == NextTaps(d, WrapDown, i)
    {
      hide NextWrapStep;
      q, t := d.q.(change := true, step := NextWrapStep(d.q.step)), d.t;
      match d.q.step % 16 {
        case 0 => q := q.(dec := true); t := t.(s := 0);
        case 6 => q := q.(dataMux := true); t := t.(m := i.btVal);
        case 9 => q := q.(mMux := (q.mMux + 1) % 4);
        case 14 => q := q.(dataMux := false);
        case 15 => q := q.(sMux := q.mMux, dec := false);
        case _ => q := q.(dec := true);
      }
    }

    static method StepEye(d: Delay, i: Inputs) returns (q: Sequencer, t: Taps, e: Monitor)
      ensures q == Sequence(d.q, Eye) && t == NextTaps(d, Eye, i)
      ensures e == if EyeEnds(d, Eye) then NextMonitor(d.e, i.btVal, i.matches) else d.e
    {
      hide OneHot, RotateLeft, Mark;
      q, t, e := d.q.(change := false, step := Wrap5(d.q.step + 1), eye := true), d.t, d.e;
      match d.q.step {
        case 0 => t := t.(s := e.tap);
        case 22 =>
          q := q.(eye := false, step := 0);
          e := e.(results := Mark(e.results, e.shifter, i.matches));
          if e.tap == i.btVal {
            e := e.(shifter := OneHot(0), tap := 0);
          } else {
            e := e.(shifter := RotateLeft(e.shifter), tap := Wrap5(e.tap + 1));
          }
        case _ =>
      }
    }

    // Sequencer, taps and eye monitor.
    method ClockDelays(d: Delay, i: Inputs)
      requires q == d.q && t == d.t && e == d.e
      modifies this`q, this`t, this`e
      ensures var a := ActionOf(d, i);
              && q == NextSequencer(d.q, a, i.phaseDetector) && t == NextTaps(d, a, i)
              && e == if EyeEnds(d, a) then NextMonitor(d.e, i.btVal, i.matches) else d.e
    {
      hide Wrap5, NextWrapStep, NextMonitor;
      if (i.phaseDetector && d.f.pdMax && !d.q.change) || d.q.inc {
        if !d.f.meqMax && !d.q.inc {
          q := q.(change := true);
          t := t.(m := Wrap5(t.m + 1));
        } else {
          q, t := StepUp(d, i);
        }
      } else if (i.phaseDetector && d.f.pdMin && !d.q.change) || d.q.dec {
        if !d.f.meqMin && !d.q.dec {
          q := q.(change := true);
          t := t.(m := Wrap5(t.m + 31));
        } else {
          q, t := StepDown(d, i);
        }
      } else if i.monitor && (d.q.eye || d.q.change) {
        q, t, e := StepEye(d, i);
      } else {
        q := q.(change := false);
        if t.m >= i.btVal / 2 && !i.delMech {
          t := t.(s := t.m - i.btVal / 2, overflow := false);
        } else {
          t := t.(s := Wrap5(t.m + i.btVal / 2), overflow := true);
        }
      }
      if !i.phaseDetector && !d.q.change {
        q := q.(change := true);
      }
    }
  }

  ghost function Run(d: Delay, ins: seq<Inputs>): Delay
    decreases |ins|
  {
    if ins == [] then d else Run(Step(d, ins[0]), ins[1..])
  }

  // ---- Invariant, for a constant bit time bt ----

  // The steps of a wrap sequence, and what the multiplexers show in them.
  ghost predicate Sequenced(q: Sequencer) {
    && !(q.inc && q.dec) && !(q.inc && q.eye) && !(q.dec && q.eye)
    && (!q.inc && !q.dec && !q.eye ==> q.step == 0)
    && (q.inc || q.dec ==> 1 <= q.step <= 15 && q.change)
    && (q.eye ==> 1 <= q.step <= 22)
    && q.dataMux == ((q.inc || q.dec) && 7 <= q.step <= 14)
    && q.mMux == (if q.inc && q.step >= 10 then (q.sMux + 3) % 4
                  else if q.dec && q.step >= 10 then (q.sMux + 1) % 4 else q.sMux)
  }

  predicate UpToDate(d: Delay, bt: Tap) {
    d.f.meqMax == (d.t.m == bt) && d.f.meqMin == (d.t.m == 0)
  }

  // The comparison flags are one clock late, but never when it matters.
  ghost predicate Filtered(d: Delay, bt: Tap) {
    && (d.f.pdMax ==> d.f.count >= 62) && (d.f.pdMin ==> d.f.count <= 1)
    && (d.q.inc || d.q.dec || d.q.eye ==> !d.f.pdMax && !d.f.pdMin)
    && (d.q.eye || d.f.hold & 0x80 != 0 ==> d.f.count == 32)
    && (d.f.pdMax || d.f.pdMin ==> UpToDate(d, bt))
  }

  ghost predicate Monitored(e: Monitor, bt: Tap) {
    && e.tap <= bt && e.shifter == OneHot(e.tap)
    && forall n | bt < n < 32 :: e.results[n] == 0
  }

  ghost predicate Inv(d: Delay, bt: Tap) {
    d.t.m <= bt && Sequenced(d.q) && Filtered(d, bt) && Monitored(d.e, bt)
  }

  lemma StepKeepsSequenced(d: Delay, i: Inputs)
    requires Sequenced(d.q) && Filtered(d, i.btVal)
    ensures Sequenced(NextSequencer(d.q, ActionOf(d, i), i.phaseDetector))
  {
  }

  lemma StepKeepsFiltered(d: Delay, i: Inputs)
    requires !i.reset && Sequenced(d.q) && Filtered(d, i.btVal)
    ensures Filtered(Step(d, i), i.btVal)
  {
    hide NextMonitor, NextWrapStep;
  }

  lemma RotateOneHot(k: Tap)
    requires k < 31
    ensures RotateLeft(OneHot(k)) == OneHot(k + 1)
  {
  }

  lemma MarkOnlyMarks(results: Word32, k: Tap, verdict: bool, n: nat)
    requires n < 32
    ensures Mark(results, OneHot(k), verdict)[n] == if n == k then Verdict(verdict) else results[n]
  {
  }

  function Verdict(b: bool): bv1 {
    if b then 1 else 0
  }

  lemma StepKeepsMonitored(e: Monitor, btVal: Tap, matches: bool)
    requires Monitored(e, btVal)
    ensures Monitored(NextMonitor(e, btVal, matches), btVal)
  {
    hide OneHot, RotateLeft, Mark, Verdict;
    if e.tap < btVal {
      RotateOneHot(e.tap);
    }
    forall n | btVal < n < 32
      ensures NextMonitor(e, btVal, matches).results[n] == 0
    {
      MarkOnlyMarks(e.results, e.tap, matches, n);
    }
  }

  lemma StepKeepsRange(d: Delay, i: Inputs)
    requires Filtered(d, i.btVal) && d.t.m <= i.btVal
    ensures NextTaps(d, ActionOf(d, i), i).m <= i.btVal
  {
  }

  lemma StepKeepsInv(d: Delay, i: Inputs)
    requires !i.reset && Inv(d, i.btVal)
    ensures Inv(Step(d, i), i.btVal)
  {
    hide NextSequencer, NextTaps, NextFilter, NextMonitor, ActionOf, Sequenced, Filtered, Monitored;
    StepKeepsSequenced(d, i);
    StepKeepsFiltered(d, i);
    StepKeepsMonitored(d.e, i.btVal, i.matches);
    StepKeepsRange(d, i);
  }

  // Reset is over and the bit time stands still.
  ghost predicate Steady(ins: seq<Inputs>, bt: Tap) {
    forall i <- ins :: !i.reset && i.btVal == bt
  }

  lemma {:induction false} InvAlways(d: Delay, ins: seq<Inputs>, bt: Tap)
    requires Inv(d, bt) && Steady(ins, bt)
    ensures Inv(Run(d, ins), bt)
    decreases |ins|
  {
    hide Inv, Step;
    if ins != [] {
      StepKeepsInv(d, ins[0]);
      InvAlways(Step(d, ins[0]), ins[1..], bt);
    }
  }

  ghost predicate AlwaysFits(d: Delay, bt: Tap) {
    forall ins: seq<Inputs> | Steady(ins, bt) :: Inv(Run(d, ins), bt)
  }

  // After a reset that finds pd_max and pd_min clear, every reachable state is
  // as described if and only if the initial delay is within the bit time.
  lemma InvAfterResetIff(d: Delay, c: Tap, bt: Tap)
    requires !d.f.pdMax && !d.f.pdMin
    ensures AlwaysFits(Reset(d, c), bt) <==> c <= bt
  {
    hide Step, Inv;
    var r := Reset(d, c);
    if c <= bt {
      ResetFits(d, c, bt);
      forall ins: seq<Inputs> | Steady(ins, bt)
        ensures Inv(Run(r, ins), bt)
      {
        InvAlways(r, ins, bt);
      }
    } else {
      assert Steady([], bt) && Run(r, []) == r;
      if Inv(r, bt) {
        InvGivesRange(r, bt);
        assert false;
      }
    }
  }

  lemma ResetFits(d: Delay, c: Tap, bt: Tap)
    requires !d.f.pdMax && !d.f.pdMin && c <= bt
    ensures Inv(Reset(d, c), bt)
  {
  }

  // ---- The master delay stays between 0 and the bit time ----

  // A step that would push the master past either end.
  predicate Overruns(d: Delay, i: Inputs) {
    (ActionOf(d, i) == Up && d.t.m >= i.btVal) || (ActionOf(d, i) == Down && d.t.m == 0)
  }

  ghost predicate NeverOverruns(d: Delay, bt: Tap) {
    forall ins: seq<Inputs>, i: Inputs | Steady(ins + [i], bt) ::
      Run(d, ins).t.m <= bt && !Overruns(Run(d, ins), i)
  }

  lemma InvNeverOverruns(d: Delay, i: Inputs)
    requires Inv(d, i.btVal)
    ensures !Overruns(d, i)
  {
  }

  // The stale flags order the master past an end.
  predicate Stale(d: Delay, c: Tap, bt: Tap) {
    (d.f.pdMax && !d.f.meqMax && c == bt) || (d.f.pdMin && !d.f.pdMax && !d.f.meqMin && c == 0)
  }

  lemma FirstTaps(d: Delay, c: Tap, i: Inputs)
    requires !i.reset && c <= i.btVal && !Stale(d, c, i.btVal)
    ensures !Overruns(Reset(d, c), i) && Step(Reset(d, c), i).t.m <= i.btVal
  {
    hide NextMonitor, NextFilter, NextSequencer, OneHot;
  }

  lemma FirstSequence(d: Delay, c: Tap, i: Inputs)
    requires !i.reset
    ensures Sequenced(Step(Reset(d, c), i).q)
  {
    hide NextMonitor, NextFilter, NextTaps, OneHot;
  }

  lemma FirstFilter(d: Delay, c: Tap, i: Inputs)
    requires !i.reset
    ensures Filtered(Step(Reset(d, c), i), i.btVal)
  {
    hide NextMonitor, OneHot;
  }

  lemma FirstMonitor(d: Delay, c: Tap, i: Inputs)
    requires !i.reset
    ensures Monitored(Step(Reset(d, c), i).e, i.btVal)
  {
    hide NextFilter, NextTaps, NextSequencer;
  }

  lemma FirstStep(d: Delay, c: Tap, i: Inputs)
    requires !i.reset && c <= i.btVal && !Stale(d, c, i.btVal)
    ensures !Overruns(Reset(d, c), i) && Inv(Step(Reset(d, c), i), i.btVal)
  {
    hide Step, Reset, Overruns, Stale, Sequenced, Filtered, Monitored;
    FirstTaps(d, c, i);
    FirstSequence(d, c, i);
    FirstFilter(d, c, i);
    FirstMonitor(d, c, i);
  }

  // Reset does not clear the comparison flags. The master is safe in every run
  // after it if and only if it starts within the bit time and the flags do not
  // hold a stale order to move past an end; clear pd_max and pd_min are enough.
  lemma MasterIsSafeIff(d: Delay, c: Tap, bt: Tap)
    ensures NeverOverruns(Reset(d, c), bt)
            <==> c <= bt && !Stale(d, c, bt)
  {
    hide Step, Inv;
    var r := Reset(d, c);
    if c > bt {
      var i := Inputs(false, c, false, false, bt, false, false, false, false);
      assert Steady([] + [i], bt) && Run(r, []).t.m == c;
    } else if Stale(d, c, bt) {
      var i := Inputs(false, c, true, false, bt, false, false, false, false);
      assert Overruns(Run(r, []), i) && Steady([] + [i], bt);
    } else {
      forall ins: seq<Inputs>, i: Inputs | Steady(ins + [i], bt)
        ensures Run(r, ins).t.m <= bt && !Overruns(Run(r, ins), i)
      {
        assert i in ins + [i] && forall j <- ins :: j in ins + [i];
        if ins == [] {
          FirstStep(d, c, i);
        } else {
          FirstStep(d, c, ins[0]);
          InvAlways(Step(r, ins[0]), ins[1..], bt);
          InvNeverOverruns(Run(r, ins), i);
          assert Run(r, ins).t.m <= bt by { InvGivesRange(Run(r, ins), bt); }
        }
      }
    }
  }

  lemma InvGivesRange(d: Delay, bt: Tap)
    requires Inv(d, bt)
    ensures d.t.m <= bt
  {
  }

  // ---- Adjustments are at least 42 clocks apart ----

  // A clock in which the phase detector starts to move the delays.
  predicate Starts(d: Delay, i: Inputs) {
    i.phaseDetector && !d.q.change && (d.f.pdMax || d.f.pdMin)
  }

  function HoldClocks(h: bv8): nat {
    if h & 0x80 == 0 then 0 else if h & 0x40 == 0 then 1 else if h & 0x20 == 0 then 2
    else if h & 0x10 == 0 then 3 else if h & 0x08 == 0 then 4 else if h & 0x04 == 0 then 5
    else if h & 0x02 == 0 then 6 else if h & 0x01 == 0 then 7 else 8
  }

  // A lower bound on the clocks before the next adjustment can start.
  function Slack(d: Delay): int {
    if d.f.pdMax || d.f.pdMin then 0
    else if Holding(d.q) then 41
    else if d.f.hold & 0x80 != 0 then HoldClocks(d.f.hold) + 32
    else if d.f.count < 32 then d.f.count + 1 else 64 - d.f.count
  }

  lemma HoldShifts(h: bv8)
    ensures HoldClocks(h) <= 8 && (HoldClocks(h) == 0 <==> h & 0x80 == 0)
    ensures h & 0x80 != 0 ==> HoldClocks((h & 0x7F) << 1) == HoldClocks(h) - 1
    ensures HoldClocks(0xFF) == 8 && (0xFF as bv8) & 0x80 != 0
  {
  }

  lemma SlackStep(d: Delay, i: Inputs)
    requires Inv(d, i.btVal) && !i.reset
    ensures Slack(Step(d, i)) >= Slack(d) - 1
    ensures Starts(d, i) ==> Slack(d) == 0 && Slack(Step(d, i)) == 41
  {
    hide HoldClocks, NextTaps, NextMonitor, NextWrapStep, Monitored;
    HoldShifts(d.f.hold);
    HoldShifts((d.f.hold & 0x7F) << 1);
  }

  lemma {:induction false} SlackRun(d: Delay, ins: seq<Inputs>, bt: Tap)
    requires Inv(d, bt) && Steady(ins, bt)
    ensures Slack(Run(d, ins)) >= Slack(d) - |ins|
    decreases |ins|
  {
    hide Inv, Step, Slack;
    if ins != [] {
      SlackStep(d, ins[0]);
      StepKeepsInv(d, ins[0]);
      SlackRun(Step(d, ins[0]), ins[1..], bt);
    }
  }

  lemma AdjustmentsAreSpaced(d: Delay, ins: seq<Inputs>, bt: Tap, i: Inputs)
    requires Inv(d, bt) && Steady(ins + [i], bt) && |ins| > 0
    requires Starts(d, ins[0]) && Starts(Run(d, ins), i)
    ensures |ins| >= 42
  {
    hide Inv, Step, Slack, Starts;
    assert i in ins + [i] && forall j <- ins :: j in ins + [i];
    SlackStep(d, ins[0]);
    StepKeepsInv(d, ins[0]);
    SlackRun(Step(d, ins[0]), ins[1..], bt);
    InvAlways(d, ins, bt);
    SlackStep(Run(d, ins), i);
  }

  // ---- A wrap sequence takes sixteen clocks ----

  // n clocks into a wrap that started in d.
  ghost predicate Wrapping(d: Delay, up: bool, n: nat, e: Delay, bt: Tap) {
    && 1 <= n <= 16
    && e.q.step == n % 16
    && e.q.inc == (up && n < 16) && e.q.dec == (!up && n < 16)
    && !e.q.eye && e.q.change
    && e.q.dataMux == (7 <= n <= 14)
    && e.q.mMux == (if n < 10 then d.q.mMux else if up then (d.q.mMux + 3) % 4 else (d.q.mMux + 1) % 4)
    && e.q.sMux == (if n < 16 then d.q.sMux else e.q.mMux)
    && e.t.s == (if up then bt else 0)
    && e.t.m == (if n < 7 then d.t.m else if up then 0 else bt)
    && e.e == d.e
  }

  lemma WrapStarts(d: Delay, i: Inputs, up: bool)
    requires Inv(d, i.btVal) && !i.reset && Starts(d, i)
    requires ActionOf(d, i) == if up then WrapUp else WrapDown
    ensures Wrapping(d, up, 1, Step(d, i), i.btVal)
    ensures d.t.m == if up then i.btVal else 0
  {
  }

  lemma WrapStep(d: Delay, up: bool, n: nat, e: Delay, i: Inputs)
    requires Wrapping(d, up, n, e, i.btVal) && n < 16 && !i.reset
    ensures Wrapping(d, up, n + 1, Step(e, i), i.btVal)
  {
    hide NextFilter, NextMonitor;
  }

  // Whatever the other inputs do, a wrap moves the master from one end of the
  // range to the other, shows the slave's data in steps 7 to 14 only, and ends
  // after sixteen clocks with both multiplexers one bit further.
  lemma {:induction false} WrapTakes16(d: Delay, ins: seq<Inputs>, bt: Tap, up: bool, n: nat)
    requires Inv(d, bt) && Steady(ins, bt) && |ins| == 16 && 1 <= n <= 16
    requires Starts(d, ins[0]) && ActionOf(d, ins[0]) == if up then WrapUp else WrapDown
    ensures d.t.m == if up then bt else 0
    ensures Wrapping(d, up, n, Run(d, ins[..n]), bt)
  {
    hide Inv, Step, Starts, ActionOf, Wrapping;
    WrapStarts(d, ins[0], up);
    RunSnoc(d, ins, n - 1);
    if n > 1 {
      WrapTakes16(d, ins, bt, up, n - 1);
      WrapStep(d, up, n - 1, Run(d, ins[..n - 1]), ins[n - 1]);
    }
  }

  lemma {:induction false} RunSnoc(d: Delay, ins: seq<Inputs>, n: nat)
    requires n < |ins|
    ensures Run(d, ins[..n + 1]) == Step(Run(d, ins[..n]), ins[n])
    decreases n
  {
    hide Step;
    if n == 0 {
      assert ins[..1] == [ins[0]];
    } else {
      assert ins[..n][1..] == ins[1..][..n - 1] && ins[..n + 1][1..] == ins[1..][..n];
      RunSnoc(Step(d, ins[0]), ins[1..], n - 1);
    }
  }

  // ---- The slave tap ----

  // Outside sequences the slave is half a bit time from the master, without
  // wrapping, for every master tap the controller can reach.
  ghost predicate SlaveTracks(bt: Tap, delMech: bool) {
    forall d: Delay, i: Inputs |
      d.t.m <= bt && i.btVal == bt && i.delMech == delMech && !i.reset && ActionOf(d, i) == Place ::
      var t := Step(d, i).t; t.m == d.t.m && (t.s == t.m + bt / 2 || t.m == t.s + bt / 2)
  }

  lemma SlaveTracksIff(bt: Tap, delMech: bool)
    ensures SlaveTracks(bt, delMech) <==> (delMech ==> bt <= 21)
  {
    hide NextFilter, NextSequencer, NextMonitor;
    if delMech && bt > 21 {
      var i := Inputs(false, 0, true, false, bt, true, false, false, false);
      var f := Filter(32, 0, true, true, false, false);
      var d := Delay(Sequencer(0, false, false, false, false, false, 1, 1), Taps(bt, bt, false), f,
                     Monitor(0, OneHot(0), Zeros(32)));
      assert ActionOf(d, i) == Place;
      assert Step(d, i).t.s == (bt + bt / 2) - 32;
    }
  }

  // Every pair the firmware table gives meets that rule.
  method AutoConfigure(f: BitTime.Reference, bitRate: int) returns (bt: Tap, delMech: bool)
    ensures SlaveTracks(bt, delMech)
  {
    bt, delMech := BitTime.ComputeAutoBtVal(f, bitRate);
    SlaveTracksIff(bt, delMech);
  }

  lemma NothingRuns(d: Delay)
    ensures Run(d, []) == d
  {
  }

  lemma RunInv(d: Delay, ins: seq<Inputs>, n: nat, bt: Tap)
    requires n <= |ins| && Inv(d, bt) && Steady(ins, bt)
    ensures Inv(Run(d, ins[..n]), bt)
  {
    hide Inv, Run;
    assert forall j <- ins[..n] :: j in ins;
    InvAlways(d, ins[..n], bt);
  }

  lemma {:induction false} RunJoins(d: Delay, v: seq<Inputs>, w: seq<Inputs>)
    ensures Run(d, v + w) == Run(Run(d, v), w)
    decreases |v|
  {
    hide Step;
    if v == [] {
      assert v + w == w;
    } else {
      assert (v + w)[1..] == v[1..] + w;
      RunJoins(Step(d, v[0]), v[1..], w);
    }
  }

  // ---- Multiplexers and slave place ----

  // How far this clock turns the delay multiplexer.
  function Turn(d: Delay, i: Inputs): int {
    if d.q.step % 16 != 9 then 0
    else match ActionOf(d, i) case WrapUp => -1 case WrapDown => 1 case _ => 0
  }

  ghost function Turns(d: Delay, ins: seq<Inputs>): int
    decreases |ins|
  {
    if ins == [] then 0 else Turn(d, ins[0]) + Turns(Step(d, ins[0]), ins[1..])
  }

  // The multiplexer starts in the middle and counts the wraps, down ones up and
  // up ones down, modulo four.
  lemma {:induction false} MuxCountsWraps(d: Delay, ins: seq<Inputs>)
    requires forall i <- ins :: !i.reset
    ensures Run(d, ins).q.mMux == (d.q.mMux + Turns(d, ins)) % 4
    decreases |ins|
  {
    hide Step, Turn;
    if ins != [] {
      assert ins[0] in ins;
      MuxTurns(d, ins[0]);
      MuxCountsWraps(Step(d, ins[0]), ins[1..]);
    }
  }

  lemma MuxTurns(d: Delay, i: Inputs)
    requires !i.reset
    ensures Step(d, i).q.mMux == (d.q.mMux + Turn(d, i)) % 4
  {
    hide NextFilter, NextMonitor, NextTaps, NextWrapStep;
  }

  lemma MuxStartsCentred(d: Delay, c: Tap, ins: seq<Inputs>)
    requires forall i <- ins :: !i.reset
    ensures Run(Reset(d, c), ins).q.mMux == (1 + Turns(Reset(d, c), ins)) % 4
  {
    hide Step;
    MuxCountsWraps(Reset(d, c), ins);
  }

  // The idle slave stands before the master whenever half a bit time fits there
  // and the mechanism is not fixed; otherwise behind it, marked as overflow.
  lemma SlaveSide(d: Delay, i: Inputs)
    requires !i.reset && d.t.m <= i.btVal && ActionOf(d, i) == Place
    ensures var t, fits := Step(d, i).t, d.t.m >= i.btVal / 2 && !i.delMech;
            t.overflow == !fits && (fits ==> t.s == d.t.m - i.btVal / 2)
            && (!fits && (i.delMech ==> i.btVal <= 21) ==> t.s == d.t.m + i.btVal / 2)
  {
    hide NextFilter, NextSequencer, NextMonitor;
  }
}
