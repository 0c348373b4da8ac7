// The four shift registers and the shuffle chain that feed a rekey
// (overlay/hdcp_lfsr.v, overlay/shuffle_network.v).
module ShuffleNetwork {
  import opened Bits

  datatype Store = Store(a: bv1, b: bv1)

  const FRESH := Store(0, 1)

  function Dout(s: Store, sel: bv1): bv1 {
    if sel == 1 then s.b else s.a
  }

  function Shuffle(s: Store, din: bv1, sel: bv1): Store {
    if sel == 1 then Store(din, s.a) else Store(s.b, din)
  }

  function Count(b: bv1): nat {
    if b == 1 then 1 else 0
  }

  function Weight(s: Store): nat {
    Count(s.a) + Count(s.b)
  }

  // Whatever the selector does, a store only ever passes bits on.
  lemma ShuffleConserves(s: Store, din: bv1, sel: bv1)
    ensures Weight(Shuffle(s, din, sel)) + Count(Dout(s, sel)) == Weight(s) + Count(din)
  {
  }

  // While the selector stands still a bit waits for one other to leave before
  // it; when the selector changes it leaves at once.
  lemma ShuffleOrders(s: Store, din: bv1, sel: bv1, next: bv1)
    ensures Dout(Shuffle(s, din, sel), next) == if next == sel then Dout(s, !sel) else din
  {
  }
}

module HdcpLfsr {
  import opened Bits
  import opened ShuffleNetwork

  type Word13 = w: Bits | |w| == 13 witness Zeros(13)
  type Word14 = w: Bits | |w| == 14 witness Zeros(14)
  type Word16 = w: Bits | |w| == 16 witness Zeros(16)
  type Word17 = w: Bits | |w| == 17 witness Zeros(17)

  datatype Lfsr = Lfsr(
    r0: Word13, r1: Word14, r2: Word16, r3: Word17,
    s0: Store, s1: Store, s2: Store, s3: Store)

  const RESET_LFSR := Lfsr(Zeros(13), Zeros(14), Zeros(16), Zeros(17), FRESH, FRESH, FRESH, FRESH)

  function LoadIv(iv: Word56): Lfsr {
    Lfsr(iv[..12] + [!iv[6]], iv[12..25] + [!iv[18]], iv[25..40] + [!iv[32]], iv[40..] + [!iv[47]],
         FRESH, FRESH, FRESH, FRESH)
  }

  function Shift0(r: Word13): Word13 {
    [r[4] ^ r[8] ^ r[10] ^ r[12]] + r[..12]
  }

  function Shift1(r: Word14): Word14 {
    [r[3] ^ r[5] ^ r[6] ^ r[9] ^ r[10] ^ r[13]] + r[..13]
  }

  function Shift2(r: Word16): Word16 {
    [r[4] ^ r[6] ^ r[7] ^ r[11] ^ r[14] ^ r[15]] + r[..15]
  }

  function Shift3(r: Word17): Word17 {
    [r[4] ^ r[10] ^ r[14] ^ r[16]] + r[..16]
  }

  // The bit entering the shuffle chain, and the bits between its stores.
  function Din(l: Lfsr): bv1 { l.r0[3] ^ l.r1[4] ^ l.r2[5] ^ l.r3[5] }
  function Dout0(l: Lfsr): bv1 { Dout(l.s0, l.r0[7]) }
  function Dout1(l: Lfsr): bv1 { Dout(l.s1, l.r1[8]) }
  function Dout2(l: Lfsr): bv1 { Dout(l.s2, l.r2[9]) }
  function Dout3(l: Lfsr): bv1 { Dout(l.s3, l.r3[11]) }

  function OneBit(l: Lfsr): bv1 {
    Dout3(l) ^ l.r0[12] ^ l.r1[13] ^ l.r2[15] ^ l.r3[16]
  }

  function Advance(l: Lfsr): Lfsr {
    Lfsr(Shift0(l.r0), Shift1(l.r1), Shift2(l.r2), Shift3(l.r3),
         Shuffle(l.s0, Din(l), l.r0[7]), Shuffle(l.s1, Dout0(l), l.r1[8]),
         Shuffle(l.s2, Dout1(l), l.r2[9]), Shuffle(l.s3, Dout2(l), l.r3[11]))
  }

  class LfsrUnit {
    var r0: Word13
    var r1: Word14
    var r2: Word16
    var r3: Word17
    var s0: Store
    var s1: Store
    var s2: Store
    var s3: Store

    function State(): Lfsr
      reads this
    {
      Lfsr(r0, r1, r2, r3, s0, s1, s2, s3)
    }

    constructor ()
      ensures State() == RESET_LFSR
    {
      r0, r1, r2, r3 := Zeros(13), Zeros(14), Zeros(16), Zeros(17);
      s0, s1, s2, s3 := FRESH, FRESH, FRESH, FRESH;
    }

    method Clock(reset: bool, iv: Word56, init: bool, advance: bool)
      modifies this
      ensures State() ==
        if reset then RESET_LFSR
        else if init then LoadIv(iv)
        else if advance then Advance(old(State()))
        else old(State())
    {
      hide Din, Dout, Shuffle, Shift0, Shift1, Shift2, Shift3;
      if reset {
        r0, r1, r2, r3 := Zeros(13), Zeros(14), Zeros(16), Zeros(17);
        s0, s1, s2, s3 := FRESH, FRESH, FRESH, FRESH;
      } else if init {
        r0, r1 := iv[..12] + [!iv[6]], iv[12..25] + [!iv[18]];
        r2, r3 := iv[25..40] + [!iv[32]], iv[40..] + [!iv[47]];
        s0, s1, s2, s3 := FRESH, FRESH, FRESH, FRESH;
      } else if advance {
        var d, d0, d1, d2 := Din(State()), Dout(s0, r0[7]), Dout(s1, r1[8]), Dout(s2, r2[9]);
        s0, s1 := Shuffle(s0, d, r0[7]), Shuffle(s1, d0, r1[8]);
        s2, s3 := Shuffle(s2, d1, r2[9]), Shuffle(s3, d2, r3[11]);
        r0, r1, r2, r3 := Shift0(r0), Shift1(r1), Shift2(r2), Shift3(r3);
      }
    }
  }

  // ---- No register ever gets stuck at zero ----

  predicate Live(l: Lfsr) {
    1 in l.r0 && 1 in l.r1 && 1 in l.r2 && 1 in l.r3
  }

  // The inverted copy of one key bit sits above that bit, so one of the two is set.
  lemma LoadIsLive(iv: Word56)
    ensures Live(LoadIv(iv))
  {
    var l := LoadIv(iv);
    assert l.r0[6] == iv[6] && l.r0[12] == !iv[6];
    assert l.r1[6] == iv[18] && l.r1[13] == !iv[18];
    assert l.r2[7] == iv[32] && l.r2[15] == !iv[32];
    assert l.r3[7] == iv[47] && l.r3[16] == !iv[47];
  }

  // The registers take the key apart without loss, each with the complement of
  // one of its bits on top; every store first gives out its selector.
  lemma LoadKeepsKey(iv: Word56)
    ensures var l := LoadIv(iv);
            && l.r0[..12] + l.r1[..13] + l.r2[..15] + l.r3[..16] == iv
            && l.r0[12] != l.r0[6] && l.r1[13] != l.r1[6] && l.r2[15] != l.r2[7] && l.r3[16] != l.r3[7]
            && Dout0(l) == l.r0[7] && Dout1(l) == l.r1[8] && Dout2(l) == l.r2[9] && Dout3(l) == l.r3[11]
  {
    assert iv == iv[..12] + iv[12..25] + iv[25..40] + iv[40..];
  }

  // A shift can only lose the top bit, and every feedback includes the top bit.
  lemma ShiftKeepsOne(w: Bits, f: bv1)
    requires |w| > 0 && 1 in w
    requires (forall n | 0 <= n < |w| - 1 :: w[n] == 0) ==> f == w[|w| - 1]
    ensures 1 in [f] + w[..|w| - 1]
  {
    var s := [f] + w[..|w| - 1];
    var n :| 0 <= n < |w| && w[n] == 1;
    if n < |w| - 1 {
      assert s[n + 1] == 1;
    } else if m :| 0 <= m < |w| - 1 && w[m] == 1 {
      assert s[m + 1] == 1;
    } else {
      assert s[0] == 1;
    }
  }

  lemma AdvanceKeepsLive(l: Lfsr)
    requires Live(l)
    ensures Live(Advance(l))
  {
    hide Shuffle, Dout;
    ShiftKeepsOne(l.r0, Shift0(l.r0)[0]);
    ShiftKeepsOne(l.r1, Shift1(l.r1)[0]);
    ShiftKeepsOne(l.r2, Shift2(l.r2)[0]);
    ShiftKeepsOne(l.r3, Shift3(l.r3)[0]);
  }

  // ---- A step of the registers can be undone ----

  // The bit that fell off the end is the feedback less its other taps.
  function Unshift0(r: Word13): Word13 { r[1..] + [r[0] ^ r[5] ^ r[9] ^ r[11]] }
  function Unshift1(r: Word14): Word14 { r[1..] + [r[0] ^ r[4] ^ r[6] ^ r[7] ^ r[10] ^ r[11]] }
  function Unshift2(r: Word16): Word16 { r[1..] + [r[0] ^ r[5] ^ r[7] ^ r[8] ^ r[12] ^ r[15]] }
  function Unshift3(r: Word17): Word17 { r[1..] + [r[0] ^ r[5] ^ r[11] ^ r[15]] }

  // Losing a bit at one end and putting it back changes nothing.
  lemma Refill(w: Bits, f: bv1, b: bv1)
    requires |w| > 0
    ensures var n := |w| - 1; b == w[n] ==> ([f] + w[..n])[1..] + [b] == w
    ensures var n := |w| - 1; f == w[0] ==> [f] + (w[1..] + [b])[..n] == w
  {
    var n := |w| - 1;
    assert ([f] + w[..n])[1..] == w[..n] && (w[1..] + [b])[..n] == w[1..];
  }

  lemma Shift0IsPermutation(r: Word13)
    ensures Unshift0(Shift0(r)) == r && Shift0(Unshift0(r)) == r
  {
    var s, u := Shift0(r), Unshift0(r);
    assert forall i | 0 < i < 13 :: s[i] == r[i - 1] && u[i - 1] == r[i];
    Refill(r, s[0], Unshift0(s)[12]);
    Refill(r, Shift0(u)[0], u[12]);
  }

  lemma Shift1IsPermutation(r: Word14)
    ensures Unshift1(Shift1(r)) == r && Shift1(Unshift1(r)) == r
  {
    var s, u := Shift1(r), Unshift1(r);
    assert forall i | 0 < i < 14 :: s[i] == r[i - 1] && u[i - 1] == r[i];
    Refill(r, s[0], Unshift1(s)[13]);
    Refill(r, Shift1(u)[0], u[13]);
  }

  lemma Shift2IsPermutation(r: Word16)
    ensures Unshift2(Shift2(r)) == r && Shift2(Unshift2(r)) == r
  {
    var s, u := Shift2(r), Unshift2(r);
    assert forall i | 0 < i < 16 :: s[i] == r[i - 1] && u[i - 1] == r[i];
    Refill(r, s[0], Unshift2(s)[15]);
    Refill(r, Shift2(u)[0], u[15]);
  }

  lemma Shift3IsPermutation(r: Word17)
    ensures Unshift3(Shift3(r)) == r && Shift3(Unshift3(r)) == r
  {
    var s, u := Shift3(r), Unshift3(r);
    assert forall i | 0 < i < 17 :: s[i] == r[i - 1] && u[i - 1] == r[i];
    Refill(r, s[0], Unshift3(s)[16]);
    Refill(r, Shift3(u)[0], u[16]);
  }

  ghost function AdvanceN(l: Lfsr, n: nat): Lfsr {
    if n == 0 then l else Advance(AdvanceN(l, n - 1))
  }

  lemma {:induction false} LiveForever(iv: Word56, n: nat)
    ensures Live(AdvanceN(LoadIv(iv), n))
  {
    hide Advance, Live;
    if n == 0 {
      LoadIsLive(iv);
    } else {
      LiveForever(iv, n - 1);
      AdvanceKeepsLive(AdvanceN(LoadIv(iv), n - 1));
    }
  }

  // ---- Bits are conserved along the shuffle chain ----

  function Held(l: Lfsr): nat {
    Weight(l.s0) + Weight(l.s1) + Weight(l.s2) + Weight(l.s3)
  }

  ghost function OnesIn(l: Lfsr, n: nat): nat {
    if n == 0 then 0 else OnesIn(l, n - 1) + Count(Din(AdvanceN(l, n - 1)))
  }

  ghost function OnesOut(l: Lfsr, n: nat): nat {
    if n == 0 then 0 else OnesOut(l, n - 1) + Count(Dout3(AdvanceN(l, n - 1)))
  }

  lemma ChainConserves(l: Lfsr)
    ensures Held(Advance(l)) + Count(Dout3(l)) == Held(l) + Count(Din(l))
  {
    hide Shift0, Shift1, Shift2, Shift3, Din, Shuffle, Weight, Count, Dout;
    ShuffleConserves(l.s0, Din(l), l.r0[7]);
    ShuffleConserves(l.s1, Dout0(l), l.r1[8]);
    ShuffleConserves(l.s2, Dout1(l), l.r2[9]);
    ShuffleConserves(l.s3, Dout2(l), l.r3[11]);
  }

  // Out plus held equals in plus the four bits the chain is loaded with.
  lemma {:induction false} OnesAreConserved(iv: Word56, n: nat)
    ensures OnesOut(LoadIv(iv), n) + Held(AdvanceN(LoadIv(iv), n)) == 4 + OnesIn(LoadIv(iv), n)
  {
    hide Advance, Din, Dout3;
    if n == 0 {
      assert LoadIv(iv).s0 == FRESH && Held(LoadIv(iv)) == 4;
    } else {
      hide Held, LoadIv, Count;
      OnesAreConserved(iv, n - 1);
      ChainConserves(AdvanceN(LoadIv(iv), n - 1));
    }
  }

  // ---- Each register is a delay line for its feedback ----

  // The feedback bits that enter the registers in advance n.
  ghost function Fed0(l: Lfsr, n: nat): bv1 { Shift0(AdvanceN(l, n).r0)[0] }
  ghost function Fed1(l: Lfsr, n: nat): bv1 { Shift1(AdvanceN(l, n).r1)[0] }
  ghost function Fed2(l: Lfsr, n: nat): bv1 { Shift2(AdvanceN(l, n).r2)[0] }
  ghost function Fed3(l: Lfsr, n: nat): bv1 { Shift3(AdvanceN(l, n).r3)[0] }

  lemma AdvanceMoves(l: Lfsr, k: nat)
    ensures k < 13 ==> Advance(l).r0[k] == if k == 0 then Shift0(l.r0)[0] else l.r0[k - 1]
    ensures k < 14 ==> Advance(l).r1[k] == if k == 0 then Shift1(l.r1)[0] else l.r1[k - 1]
    ensures k < 16 ==> Advance(l).r2[k] == if k == 0 then Shift2(l.r2)[0] else l.r2[k - 1]
    ensures k < 17 ==> Advance(l).r3[k] == if k == 0 then Shift3(l.r3)[0] else l.r3[k - 1]
  {
    hide Shuffle, Dout, Din;
  }

  lemma {:induction false} DelayLines(l: Lfsr, n: nat, k: nat)
    requires k < n
    ensures k < 13 ==> AdvanceN(l, n).r0[k] == Fed0(l, n - 1 - k)
    ensures k < 14 ==> AdvanceN(l, n).r1[k] == Fed1(l, n - 1 - k)
    ensures k < 16 ==> AdvanceN(l, n).r2[k] == Fed2(l, n - 1 - k)
    ensures k < 17 ==> AdvanceN(l, n).r3[k] == Fed3(l, n - 1 - k)
    decreases k
  {
    hide Advance, Shift0, Shift1, Shift2, Shift3;
    AdvanceMoves(AdvanceN(l, n - 1), k);
    if k > 0 {
      DelayLines(l, n - 1, k - 1);
    }
  }

  // The feedback polynomials: 13 11 9 5, 14 11 10 7 6 4, 16 15 12 8 7 5 and
  // 17 15 11 5.
  lemma FeedbackRecurs(l: Lfsr, n: nat)
    requires n >= 17
    ensures Fed0(l, n) == Fed0(l, n - 5) ^ Fed0(l, n - 9) ^ Fed0(l, n - 11) ^ Fed0(l, n - 13)
    ensures Fed1(l, n) == Fed1(l, n - 4) ^ Fed1(l, n - 6) ^ Fed1(l, n - 7) ^ Fed1(l, n - 10) ^ Fed1(l, n - 11) ^ Fed1(l, n - 14)
    ensures Fed2(l, n) == Fed2(l, n - 5) ^ Fed2(l, n - 7) ^ Fed2(l, n - 8) ^ Fed2(l, n - 12) ^ Fed2(l, n - 15) ^ Fed2(l, n - 16)
    ensures Fed3(l, n) == Fed3(l, n - 5) ^ Fed3(l, n - 11) ^ Fed3(l, n - 15) ^ Fed3(l, n - 17)
  {
    hide AdvanceN;
    Recurs0(l, n);
    Recurs1(l, n);
    Recurs2(l, n);
    Recurs3(l, n);
  }

  lemma FedIs(l: Lfsr, n: nat)
    ensures var m := AdvanceN(l, n);
            && Fed0(l, n) == m.r0[4] ^ m.r0[8] ^ m.r0[10] ^ m.r0[12]
            && Fed1(l, n) == m.r1[3] ^ m.r1[5] ^ m.r1[6] ^ m.r1[9] ^ m.r1[10] ^ m.r1[13]
            && Fed2(l, n) == m.r2[4] ^ m.r2[6] ^ m.r2[7] ^ m.r2[11] ^ m.r2[14] ^ m.r2[15]
            && Fed3(l, n) == m.r3[4] ^ m.r3[10] ^ m.r3[14] ^ m.r3[16]
  {
    hide AdvanceN;
  }

  lemma Recurs0(l: Lfsr, n: nat)
    requires n >= 13
    ensures Fed0(l, n) == Fed0(l, n - 5) ^ Fed0(l, n - 9) ^ Fed0(l, n - 11) ^ Fed0(l, n - 13)
  {
    hide AdvanceN;
    FedIs(l, n);
    hide Fed0, Fed1, Fed2, Fed3;
    DelayLines(l, n, 4);
    DelayLines(l, n, 8);
    DelayLines(l, n, 10);
    DelayLines(l, n, 12);
  }

  lemma Recurs1(l: Lfsr, n: nat)
    requires n >= 14
    ensures Fed1(l, n) == Fed1(l, n - 4) ^ Fed1(l, n - 6) ^ Fed1(l, n - 7) ^ Fed1(l, n - 10) ^ Fed1(l, n - 11) ^ Fed1(l, n - 14)
  {
    hide AdvanceN;
    FedIs(l, n);
    hide Fed0, Fed1, Fed2, Fed3;
    DelayLines(l, n, 3);
    DelayLines(l, n, 5);
    DelayLines(l, n, 6);
    DelayLines(l, n, 9);
    DelayLines(l, n, 10);
    DelayLines(l, n, 13);
  }

  lemma Recurs2(l: Lfsr, n: nat)
    requires n >= 16
    ensures Fed2(l, n) == Fed2(l, n - 5) ^ Fed2(l, n - 7) ^ Fed2(l, n - 8) ^ Fed2(l, n - 12) ^ Fed2(l, n - 15) ^ Fed2(l, n - 16)
  {
    hide AdvanceN;
    FedIs(l, n);
    hide Fed0, Fed1, Fed2, Fed3;
    DelayLines(l, n, 4);
    DelayLines(l, n, 6);
    DelayLines(l, n, 7);
    DelayLines(l, n, 11);
    DelayLines(l, n, 14);
    DelayLines(l, n, 15);
  }

  lemma Recurs3(l: Lfsr, n: nat)
    requires n >= 17
    ensures Fed3(l, n) == Fed3(l, n - 5) ^ Fed3(l, n - 11) ^ Fed3(l, n - 15) ^ Fed3(l, n - 17)
  {
    hide AdvanceN;
    FedIs(l, n);
    hide Fed0, Fed1, Fed2, Fed3;
    DelayLines(l, n, 4);
    DelayLines(l, n, 10);
    DelayLines(l, n, 14);
    DelayLines(l, n, 16);
  }

  // So the bit that enters the chain, the four selectors and what is added to
  // the bit that leaves it are the four feedbacks, each delayed.
  lemma TapsAreDelays(l: Lfsr, n: nat)
    requires n >= 17
    ensures var m := AdvanceN(l, n);
            && Din(m) == Fed0(l, n - 4) ^ Fed1(l, n - 5) ^ Fed2(l, n - 6) ^ Fed3(l, n - 6)
            && Dout0(m) == Dout(m.s0, Fed0(l, n - 8)) && Dout1(m) == Dout(m.s1, Fed1(l, n - 9))
            && Dout2(m) == Dout(m.s2, Fed2(l, n - 10)) && Dout3(m) == Dout(m.s3, Fed3(l, n - 12))
            && OneBit(m) == Dout3(m) ^ Fed0(l, n - 13) ^ Fed1(l, n - 14) ^ Fed2(l, n - 16) ^ Fed3(l, n - 17)
  {
    hide AdvanceN, Fed0, Fed1, Fed2, Fed3, Dout;
    DelayLines(l, n, 3);
    DelayLines(l, n, 4);
    DelayLines(l, n, 5);
    DelayLines(l, n, 7);
    DelayLines(l, n, 8);
    DelayLines(l, n, 9);
    DelayLines(l, n, 11);
    DelayLines(l, n, 12);
    DelayLines(l, n, 13);
    DelayLines(l, n, 15);
    DelayLines(l, n, 16);
  }

  function Flip(w: Bits, k: nat): Bits
    requires k < |w|
  {
    w[k := !w[k]]
  }

  // The bit handed to a rekey depends on the top bit of every register.
  lemma TopBitsShow(l: Lfsr)
    ensures OneBit(l.(r0 := Flip(l.r0, 12))) != OneBit(l) && OneBit(l.(r1 := Flip(l.r1, 13))) != OneBit(l)
    ensures OneBit(l.(r2 := Flip(l.r2, 15))) != OneBit(l) && OneBit(l.(r3 := Flip(l.r3, 16))) != OneBit(l)
  {
  }
}
