// The edge filter on SCL and on SDA (overlay/i2c_snoop.v).
module Deglitcher {

  datatype Line = High | Fall | Low | Rise

  type Count5 = n: nat | n < 32

  const TRF_CYCLES := 8

  datatype Deglitch = Deglitch(line: Line, count: Count5)

  function Wrap5(n: nat): Count5 {
    n % 32
  }

  function Next(g: Deglitch, sample: bool): Deglitch {
    match g.line
    case High => Deglitch(if g.count > TRF_CYCLES && !sample then Fall else High, if sample then 0 else Wrap5(g.count + 1))
    case Fall => Deglitch(Low, 0)
    case Low => Deglitch(if g.count > TRF_CYCLES && sample then Rise else Low, if !sample then 0 else Wrap5(g.count + 1))
    case Rise => Deglitch(High, 0)
  }

  ghost function Filtered(g: Deglitch, w: seq<bool>): Deglitch {
    if w == [] then g else Next(Filtered(g, w[..|w| - 1]), w[|w| - 1])
  }

  function Level(b: bool): Line {
    if b then High else Low
  }

  function Edge(to: bool): Line {
    if to then Rise else Fall
  }

  // How many samples at the end of w differ from level b.
  ghost function Streak(w: seq<bool>, b: bool): nat {
    if w == [] || w[|w| - 1] == b then 0 else 1 + Streak(w[..|w| - 1], b)
  }

  // From a settled level the filter counts the opposite samples at the end of
  // its input. It stays put as long as there were never ten in a row, and
  // gives the edge exactly on the tenth: shorter glitches leave no trace.
  lemma {:induction false} EdgeOnTenthSample(b: bool, w: seq<bool>)
    requires forall n | 0 <= n < |w| :: Streak(w[..n], b) < 10
    ensures Streak(w, b) <= 10
    ensures Filtered(Deglitch(Level(b), 0), w) == Deglitch(if Streak(w, b) < 10 then Level(b) else Edge(!b), Streak(w, b))
  {
    if w != [] {
      var v := w[..|w| - 1];
      assert forall n | 0 <= n < |v| :: v[..n] == w[..n];
      EdgeOnTenthSample(b, v);
      assert v == w[..|w| - 1];
    }
  }

  // An edge lasts one clock, whatever is sampled meanwhile.
  lemma {:induction false} EdgeIsOnePulse(b: bool, w: seq<bool>, s: bool)
    requires forall n | 0 <= n < |w| :: Streak(w[..n], b) < 10
    requires Streak(w, b) == 10
    ensures Filtered(Deglitch(Level(b), 0), w + [s]) == Deglitch(Level(!b), 0)
  {
    EdgeOnTenthSample(b, w);
    assert (w + [s])[..|w|] == w;
  }

  ghost predicate Sane(g: Deglitch) {
    g.count <= if g.line in {High, Low} then 9 else 10
  }

  lemma {:induction false} CounterNeverExceedsTen(g: Deglitch, w: seq<bool>)
    requires Sane(g)
    ensures Sane(Filtered(g, w))
  {
    if w != [] {
      CounterNeverExceedsTen(g, w[..|w| - 1]);
    }
  }
}
