// The pseudo-noise data of the DMA loopback test and its alignment search
// (software/pcie/user/litepcie_util.c).
module PnData {

  const MOD: nat := 0x1_0000_0000

  type Word = n: nat | n < MOD

  const MAX_SHIFT_OFFSET: nat := 128

  function SeedToData(seed: Word): Word {
    (seed * 0x3141_5976 + 1) % MOD
  }

  // The seed i words after the given one.
  function Later(seed: nat, i: nat): Word {
    (seed + i) % MOD
  }

  lemma LaterAgain(seed: nat, k: nat, n: nat)
    ensures Later(Later(seed, k), n) == Later(seed, k + n) == Later(seed + k, n)
    ensures Later(seed, 0) == seed % MOD
    ensures (Later(seed, k) + 1) % MOD == Later(seed, k + 1)
  {
  }

  // ---- Which seeds give the same word ----

  // The multiplier is twice an odd number: that factor has an inverse modulo
  // 2^31, so only multiples of 2^31 are sent to multiples of 2^32.
  lemma OddFactorCancels(x: int, t: int)
    requires 0x3141_5976 * x == t * MOD
    ensures x % 0x8000_0000 == 0
  {
    var q := 373_602_419 * t - 71_882_377 * x;
    assert x == q * 0x8000_0000;
  }

  lemma DataDiffer(a: Word, b: Word)
    ensures SeedToData(a) == SeedToData(b) <==> (a - b) % 0x8000_0000 == 0
  {
    var u, v := a * 0x3141_5976 + 1, b * 0x3141_5976 + 1;
    if u % MOD == v % MOD {
      OddFactorCancels(a - b, u / MOD - v / MOD);
    }
    if (a - b) % 0x8000_0000 == 0 {
      var q := (a - b) / 0x8000_0000;
      assert a - b == q * 0x8000_0000;
      assert u - v == q * 0x18A0_ACBB * MOD;
      SameRemainder(u, v, q * 0x18A0_ACBB);
    }
  }

  lemma SameRemainder(u: nat, v: nat, q: int)
    requires u - v == q * MOD
    ensures u % MOD == v % MOD
  {
  }

  // The data start at one and go up by the same step, modulo 2^32, so every word
  // is odd.
  lemma DataStep(seed: Word)
    ensures SeedToData(0) == 1 && (SeedToData(Later(seed, 1)) - SeedToData(seed)) % MOD == 0x3141_5976
    ensures SeedToData(seed) % 2 == 1
  {
    var u := seed * 0x3141_5976 + 1;
    StepModulo(u, 0x3141_5976);
    OddModulo(u, seed * 0x18A0_ACBB);
    if seed == MOD - 1 {
      assert Later(seed, 1) == 0;
      SameRemainder(u + 0x3141_5976, 1, 0x3141_5976);
    } else {
      assert Later(seed, 1) == seed + 1;
    }
  }

  lemma StepModulo(u: nat, k: nat)
    requires k < MOD
    ensures ((u + k) % MOD - u % MOD) % MOD == k
  {
    assert u == u / MOD * MOD + u % MOD;
  }

  lemma OddModulo(u: nat, h: nat)
    requires u == 2 * h + 1
    ensures u % MOD % 2 == 1
  {
    assert u % MOD == 2 * (h - u / MOD * 0x8000_0000) + 1;
  }

  // ---- Writing and checking ----

  method WritePnData(dst: array<Word>, seed: Word) returns (next: Word)
    modifies dst
    ensures forall i | 0 <= i < dst.Length :: dst[i] == SeedToData(Later(seed, i))
    ensures next == Later(seed, dst.Length)
  {
    hide SeedToData;
    next := seed;
    for i := 0 to dst.Length
      invariant next == Later(seed, i)
      invariant forall j | 0 <= j < i :: dst[j] == SeedToData(Later(seed, j))
    {
      dst[i] := SeedToData(next);
      next := (next + 1) % MOD;
    }
  }

  // The words of tab that differ from the data of the given seed.
  ghost function Errors(tab: seq<Word>, seed: nat): nat {
    if tab == [] then 0
    else
      var n := |tab| - 1;
      Errors(tab[..n], seed) + if tab[n] != SeedToData(Later(seed, n)) then 1 else 0
  }

  method CheckPnData(tab: array<Word>, seed: Word) returns (errors: nat, next: Word)
    ensures errors == Errors(tab[..], seed)
    ensures next == Later(seed, tab.Length)
  {
    hide SeedToData, Later;
    errors, next := 0, seed;
    LaterAgain(seed, 0, 0);
    for i := 0 to tab.Length
      invariant errors == Errors(tab[..i], seed) && next == Later(seed, i)
    {
      assert tab[..i + 1][..i] == tab[..i];
      LaterAgain(seed, i, 0);
      if tab[i] != SeedToData(next) {
        errors := errors + 1;
      }
      next := (next + 1) % MOD;
    }
    assert tab[..tab.Length] == tab[..];
  }

  // ---- Finding the initial shift ----

  // Shift s passes when at most half the words disagree with it.
  ghost predicate Passes(tab: seq<Word>, seed: nat, s: nat) {
    Errors(tab, Later(seed, s)) <= |tab| / 2
  }

  // The first shift that passes, or 256 with the seed as it was.
  method FindShift(tab: array<Word>, seed: Word) returns (shift: nat, errors: nat, next: Word)
    ensures shift <= 2 * MAX_SHIFT_OFFSET && forall s: nat | s < shift :: !Passes(tab[..], seed, s)
    ensures if shift == 2 * MAX_SHIFT_OFFSET then next == seed
            else Passes(tab[..], seed, shift) && errors == Errors(tab[..], Later(seed, shift))
                 && next == Later(seed, shift + tab.Length)
  {
    hide Later, Errors;
    shift, errors, next := 0, 0, seed;
    while shift < 2 * MAX_SHIFT_OFFSET
      invariant shift <= 2 * MAX_SHIFT_OFFSET && next == seed
      invariant forall s: nat | s < shift :: !Passes(tab[..], seed, s)
    {
      var n;
      errors, n := CheckPnData(tab, Later(seed, shift));
      if errors <= tab.Length / 2 {
        LaterAgain(seed, shift, tab.Length);
        next := n;
        return;
      }
      shift := shift + 1;
    }
  }

  // The buffer holds what the writer produces from a seed.
  ghost predicate Holds(tab: seq<Word>, seed: nat) {
    forall i | 0 <= i < |tab| :: tab[i] == SeedToData(Later(seed, i))
  }

  lemma {:induction false} RightShiftHasNoErrors(tab: seq<Word>, seed: nat, k: nat)
    requires Holds(tab, seed + k)
    ensures Errors(tab, Later(seed, k)) == 0
  {
    hide SeedToData, Later;
    if tab != [] {
      var n := |tab| - 1;
      RightShiftHasNoErrors(tab[..n], seed, k);
      LaterAgain(seed, k, n);
    }
  }

  lemma {:induction false} WrongShiftHasOnlyErrors(tab: seq<Word>, seed: nat, k: nat, s: nat)
    requires Holds(tab, seed + k) && k < 256 && s < 256 && s != k
    ensures Errors(tab, Later(seed, s)) == |tab|
  {
    hide SeedToData, Later;
    if tab != [] {
      var n := |tab| - 1;
      WrongShiftHasOnlyErrors(tab[..n], seed, k, s);
      LaterAgain(seed, k, n);
      LaterAgain(seed, s, n);
      NearbyDiffer(seed + n, k, s);
      DataDiffer(Later(seed + n, k), Later(seed + n, s));
      LaterAgain(seed, n, k);
      LaterAgain(seed, n, s);
    }
  }

  lemma NearbyDiffer(x: nat, k: nat, s: nat)
    requires k < 256 && s < 256 && k != s
    ensures (Later(x, k) - Later(x, s)) % 0x8000_0000 != 0
  {
  }

  // A received buffer that holds data from any seed less than 256 ahead of the
  // expected one makes the search stop at exactly that shift, with no errors
  // and the seed moved past the buffer.
  method AlignmentIsFound(tab: array<Word>, seed: Word, k: nat) returns (shift: nat, errors: nat, next: Word)
    requires tab.Length >= 1 && k < 256 && Holds(tab[..], seed + k)
    ensures shift == k && errors == 0 && next == Later(seed, k + tab.Length)
  {
    shift, errors, next := FindShift(tab, seed);
    RightShiftHasNoErrors(tab[..], seed, k);
    if shift < k {
      WrongShiftHasOnlyErrors(tab[..], seed, k, shift);
    }
    assert Passes(tab[..], seed, k);
  }
}
