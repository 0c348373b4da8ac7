// The search for the multiplier and divider of a pixel clock
// (firmware/processor.c, fb_get_clock_md).
module ClockSearch {

  type Word32 = n: nat | n < 0x1_0000_0000

  const IDEAL_D: nat := 10000

  // The largest ideal multiplier below which nothing goes wrong.
  const LIMIT: nat := 17_417_294

  // a - b in unsigned 32-bit arithmetic, read as a signed number, without sign.
  function AbsDiff32(a: nat, b: nat): Word32 {
    var u := (a - b) % 0x1_0000_0000;
    if u < 0x8000_0000 then u else 0x1_0000_0000 - u
  }

  function Abs(x: int): nat {
    if x < 0 then -x else x
  }

  lemma AbsDiffIsExact(a: nat, b: nat)
    requires a < 0x8000_0000 && b < 0x8000_0000
    ensures AbsDiff32(a, b) == Abs(a - b)
  {
  }

  predicate Candidate(d: int, m: int) {
    1 <= d <= 128 && 2 <= m <= 128
  }

  // The order in which the loops visit the candidates.
  predicate Before(d: int, m: int, e: int, n: int) {
    d < e || (d == e && m < n)
  }

  // How far the multiplier m/d is from the ideal one, in units of 1/IDEAL_D.
  ghost function Error(ideal: nat, d: int, m: int): real
    requires d > 0
  {
    var x := (m * IDEAL_D) as real / d as real - ideal as real;
    if x < 0.0 then -x else x
  }

  // (bd, bm) is the first of the best candidates visited before (d, m).
  ghost predicate Best(ideal: nat, bd: int, bm: int, d: int, m: int) {
    && Candidate(bd, bm) && Before(bd, bm, d, m)
    && forall e, n | Candidate(e, n) && Before(e, n, d, m) ::
         Error(ideal, bd, bm) <= Error(ideal, e, n)
         && (Before(e, n, bd, bm) ==> Error(ideal, bd, bm) < Error(ideal, e, n))
  }

  // The cross-multiplied integer differences compare like the errors.
  lemma Scaled(ideal: nat, d: nat, m: nat, s: nat)
    requires d > 0
    ensures Abs(s * IDEAL_D * m - s * d * ideal) as real == s as real * d as real * Error(ideal, d, m)
  {
    var x := (m * IDEAL_D) as real / d as real - ideal as real;
    assert d as real * x == (m * IDEAL_D) as real - d as real * ideal as real;
    assert (s * IDEAL_D * m - s * d * ideal) == s * (m * IDEAL_D - d * ideal);
    assert (m * IDEAL_D - d * ideal) as real == d as real * x;
    assert (s * (m * IDEAL_D - d * ideal)) as real == s as real * (d as real * x);
  }

  lemma ScaledOrder(p: real, a: real, b: real)
    requires p > 0.0
    ensures p * a < p * b <==> a < b
  {
    if a < b {
      assert p * (b - a) > 0.0;
    } else {
      assert p * (a - b) >= 0.0;
    }
  }

  lemma ComparesLikeErrors(ideal: nat, bd: nat, bm: nat, d: nat, m: nat)
    requires bd > 0 && d > 0
    ensures Abs(bd * IDEAL_D * m - d * bd * ideal) < Abs(d * IDEAL_D * bm - d * bd * ideal)
            <==> Error(ideal, d, m) < Error(ideal, bd, bm)
  {
    hide Error, Abs;
    Scaled(ideal, d, m, bd);
    Scaled(ideal, bd, bm, d);
    assert bd * d * ideal == d * bd * ideal;
    assert bd as real * d as real == d as real * bd as real;
    ScaledOrder(bd as real * d as real, Error(ideal, d, m), Error(ideal, bd, bm));
  }

  // While the search runs the best divider is small for the ideal it serves.
  ghost predicate Bounded(ideal: nat, bd: int) {
    bd == 0 || bd == 1 || (bd > 1 && bd * ideal <= 2_560_000)
  }

  lemma ProductBound(a: nat, b: nat, c: nat, e: nat)
    requires a <= c && b <= e
    ensures a * b <= c * e
  {
    assert a * b <= c * b;
    assert c * b <= c * e;
  }

  lemma Regroup(a: nat, b: nat, c: nat)
    ensures a * b * c == a * (b * c) && a * IDEAL_D * b == a * b * IDEAL_D
  {
  }

  // So neither product, nor their difference, leaves 31 bits.
  lemma NoOverflow(ideal: nat, bd: nat, bm: nat, d: nat, m: nat)
    requires Bounded(ideal, bd) && bd <= 128 && Candidate(d, m) && 1 <= bm <= 128
    requires bd == 1 ==> ideal <= 1_280_000 || (d == 1 && ideal <= LIMIT)
    ensures d * bd * ideal < 0x8000_0000
    ensures d * IDEAL_D * bm < 0x8000_0000 && bd * IDEAL_D * m < 0x8000_0000
  {
    Regroup(d, bd, ideal);
    Regroup(d, bm, 0);
    Regroup(bd, m, 0);
    ProductBound(d, bm, 128, 128);
    ProductBound(bd, m, 128, 128);
    if bd == 1 {
      if d > 1 {
        ProductBound(d, ideal, 128, 1_280_000);
      }
    } else {
      ProductBound(d, bd * ideal, 128, 2_560_000);
    }
  }

  lemma UndividedError(ideal: nat, n: int)
    ensures Error(ideal, 1, n) == Abs(n * IDEAL_D - ideal) as real
  {
  }

  // Within half a multiplier step of the ideal, the divider is small.
  lemma NearIsBounded(ideal: nat, d: nat, m: nat)
    requires Candidate(d, m) && Error(ideal, d, m) < 5000.0
    ensures d * ideal <= 2_560_000
  {
    hide Error;
    Scaled(ideal, d, m, 1);
    ScaledOrder(d as real, Error(ideal, d, m), 5000.0);
    assert Abs(IDEAL_D * m - d * ideal) as real < (d * 5000) as real;
  }

  lemma FarIsNotCloser(ideal: nat, d: nat, m: nat)
    requires Candidate(d, m) && ideal > 1_280_000
    ensures Error(ideal, d, m) >= Error(ideal, 1, 128)
  {
    hide Error;
    Scaled(ideal, d, m, 1);
    UndividedError(ideal, 128);
    ScaledOrder(d as real, Error(ideal, d, m), Error(ideal, 1, 128));
    assert d as real * (ideal - 1_280_000) as real == (d * (ideal - 1_280_000)) as real;
    assert d * (ideal - 1_280_000) <= d * ideal - 1_280_000;
  }

  // A candidate with a larger divider is only taken when it comes within half a
  // multiplier step, which keeps its divider small.
  lemma TakenIsBounded(ideal: nat, bd: nat, bm: nat, d: nat, m: nat)
    requires Best(ideal, bd, bm, d, m) && Candidate(d, m)
    requires Error(ideal, d, m) < Error(ideal, bd, bm)
    ensures Bounded(ideal, d)
  {
    hide Error;
    if d > 1 && ideal <= 20_000 {
      ProductBound(d, ideal, 128, 20_000);
    } else if d > 1 {
      var n := if ideal > 1_280_000 then 128 else (ideal + 5000) / IDEAL_D;
      assert Candidate(1, n) && Before(1, n, d, m);
      assert Error(ideal, d, m) < Error(ideal, 1, n);
      UndividedError(ideal, n);
      if ideal > 1_280_000 {
        FarIsNotCloser(ideal, d, m);
      } else {
        NearIsBounded(ideal, d, m);
      }
    }
  }

  // The state of the search before it visits (d, m).
  ghost predicate Searching(ideal: nat, bd: int, bm: int, d: int, m: int) {
    if d == 1 && m == 2 then bd == 0 && bm == 1 else Best(ideal, bd, bm, d, m) && Bounded(ideal, bd)
  }

  predicate Takes(ideal: nat, bd: nat, bm: nat, d: nat, m: nat) {
    AbsDiff32(bd * IDEAL_D * m, d * bd * ideal) < AbsDiff32(d * IDEAL_D * bm, d * bd * ideal)
  }

  lemma TakesExactly(ideal: nat, bd: nat, bm: nat, d: nat, m: nat)
    requires d * bd * ideal < 0x8000_0000
    requires d * IDEAL_D * bm < 0x8000_0000 && bd * IDEAL_D * m < 0x8000_0000
    ensures Takes(ideal, bd, bm, d, m) <==>
            Abs(bd * IDEAL_D * m - d * bd * ideal) < Abs(d * IDEAL_D * bm - d * bd * ideal)
  {
    hide AbsDiff32, Abs;
    AbsDiffIsExact(d * IDEAL_D * bm, d * bd * ideal);
    AbsDiffIsExact(bd * IDEAL_D * m, d * bd * ideal);
  }

  lemma TakesFirst(ideal: nat, bm: nat, d: nat, m: nat)
    requires Candidate(d, m) && 1 <= bm <= 128
    ensures Takes(ideal, 0, bm, d, m)
  {
    ProductBound(1, bm, d, bm);
    ProductBound(d, bm, 128, 128);
    Regroup(d, bm, 0);
  }

  lemma TakesWithoutOverflow(ideal: nat, bd: nat, bm: nat, d: nat, m: nat)
    requires Bounded(ideal, bd) && bd <= 128 && Candidate(d, m) && 1 <= bm <= 128
    requires bd == 1 ==> ideal <= 1_280_000 || (d == 1 && ideal <= LIMIT)
    ensures if bd == 0 then Takes(ideal, bd, bm, d, m)
            else Takes(ideal, bd, bm, d, m) <==> Error(ideal, d, m) < Error(ideal, bd, bm)
  {
    hide Error, Takes, Abs;
    if bd == 0 {
      TakesFirst(ideal, bm, d, m);
    } else {
      NoOverflow(ideal, bd, bm, d, m);
      TakesExactly(ideal, bd, bm, d, m);
      ComparesLikeErrors(ideal, bd, bm, d, m);
    }
  }

  // Beyond the largest multiplier there is nothing better than 128/1; up to
  // LIMIT the wrapped differences still say so.
  lemma TopStays(ideal: nat, d: nat, m: nat)
    requires 1_280_000 < ideal <= LIMIT && Candidate(d, m)
    ensures !Takes(ideal, 1, 128, d, m)
  {
    var x := d * (ideal - 1_280_000);
    ProductBound(d, ideal - 1_280_000, 128, LIMIT - 1_280_000);
    assert d * 1 * ideal == d * ideal == x + d * 1_280_000;
  }

  lemma TopIsBest(ideal: nat, bm: nat, d: nat, m: nat)
    requires ideal > 1_280_000 && d > 1 && Best(ideal, 1, bm, d, m)
    ensures bm == 128
  {
    UndividedError(ideal, bm);
    UndividedError(ideal, 128);
    assert Candidate(1, 128) && Before(1, 128, d, m);
  }

  lemma Visit(ideal: nat, bd: nat, bm: nat, d: nat, m: nat)
    requires ideal <= LIMIT && Candidate(d, m) && Searching(ideal, bd, bm, d, m)
    ensures if Takes(ideal, bd, bm, d, m) then Searching(ideal, d, m, d, m + 1) else Searching(ideal, bd, bm, d, m + 1)
  {
    hide Error, Takes;
    if bd == 1 && d > 1 && ideal > 1_280_000 {
      TopIsBest(ideal, bm, d, m);
      TopStays(ideal, d, m);
      FarIsNotCloser(ideal, d, m);
    } else {
      TakesWithoutOverflow(ideal, bd, bm, d, m);
      if bd > 0 && Takes(ideal, bd, bm, d, m) {
        TakenIsBounded(ideal, bd, bm, d, m);
      }
    }
  }

  lemma NextRow(ideal: nat, bd: nat, bm: nat, d: nat)
    requires 1 <= d <= 128 && Searching(ideal, bd, bm, d, 129)
    ensures Searching(ideal, bd, bm, d + 1, 2)
  {
    hide Error;
  }

  // The rest of the search, from candidate (d, m) on: divider and multiplier.
  ghost function Search(ideal: nat, bd: nat, bm: nat, d: nat, m: nat): (nat, nat)
    decreases 129 - d, 129 - m
  {
    if d >= 129 then (bd, bm)
    else if m >= 129 then Search(ideal, bd, bm, d + 1, 2)
    else if Takes(ideal, bd, bm, d, m) then Search(ideal, d, m, d, m + 1)
    else Search(ideal, bd, bm, d, m + 1)
  }

  method GetClockMd(ideal: Word32) returns (bm: Word32, bd: Word32)
    ensures (bd, bm) == Search(ideal, 0, 1, 1, 2)
  {
    hide AbsDiff32;
    bm, bd := 1, 0;
    for d := 1 to 129
      invariant Search(ideal, bd, bm, d, 2) == Search(ideal, 0, 1, 1, 2)
    {
      for m := 2 to 129
        invariant Search(ideal, bd, bm, d, m) == Search(ideal, 0, 1, 1, 2)
      {
        var current := AbsDiff32(d * IDEAL_D * bm, d * bd * ideal);
        var tested := AbsDiff32(bd * IDEAL_D * m, d * bd * ideal);
        if tested < current {
          bm, bd := m, d;
        }
      }
    }
  }

  lemma {:induction false} SearchKeeps(ideal: nat, bd: nat, bm: nat, d: nat, m: nat)
    requires ideal <= LIMIT && 1 <= d <= 129 && 2 <= m <= 129 && (d == 129 ==> m == 2)
    requires Searching(ideal, bd, bm, d, m)
    ensures var r := Search(ideal, bd, bm, d, m); Best(ideal, r.0, r.1, 129, 2)
    decreases 129 - d, 129 - m
  {
    hide Takes, Best;
    if d == 129 {
    } else if m == 129 {
      NextRow(ideal, bd, bm, d);
      SearchKeeps(ideal, bd, bm, d + 1, 2);
    } else {
      Visit(ideal, bd, bm, d, m);
      if Takes(ideal, bd, bm, d, m) {
        SearchKeeps(ideal, d, m, d, m + 1);
      } else {
        SearchKeeps(ideal, bd, bm, d, m + 1);
      }
    }
  }

  // Up to LIMIT the search returns the first of the candidates closest to the
  // ideal, whatever the intermediate products do.
  lemma SearchFindsBest(ideal: nat)
    requires ideal <= LIMIT
    ensures var r := Search(ideal, 0, 1, 1, 2); Best(ideal, r.0, r.1, 129, 2)
  {
    SearchKeeps(ideal, 0, 1, 1, 2);
  }

  // The answer is in lowest terms, unless reducing it would bring the
  // multiplier down to one, which is not a candidate.
  lemma BestIsReduced(ideal: nat, bd: nat, bm: nat, k: nat)
    requires Best(ideal, bd, bm, 129, 2) && k >= 2 && bd % k == 0 && bm % k == 0
    ensures bm == k
  {
    hide Error;
    var d, m := bd / k, bm / k;
    Quotient(bd, k);
    Quotient(bm, k);
    if m >= 2 {
      SameError(ideal, d, m, k);
      assert false;
    }
  }

  lemma Quotient(x: nat, k: nat)
    requires x > 0 && k >= 2 && x % k == 0
    ensures x == k * (x / k) && 0 < x / k < x
  {
    var q := x / k;
    assert x == q * k;
    assert q * k >= q * 2;
  }

  lemma SameError(ideal: nat, d: nat, m: nat, k: nat)
    requires d > 0 && k > 0
    ensures Error(ideal, k * d, k * m) == Error(ideal, d, m)
  {
    var x, y := (m * IDEAL_D) as real / d as real, (k * m * IDEAL_D) as real / (k * d) as real;
    assert (k * m * IDEAL_D) as real == k as real * (m * IDEAL_D) as real;
    assert (k * d) as real == k as real * d as real;
    assert y == x;
  }

  // ---- Above the limit ----

  // Above the largest multiplier only 128/1 can be best.
  lemma OnlyTopIsBest(ideal: nat, bd: int, bm: int)
    requires ideal > 1_280_000 && Best(ideal, bd, bm, 129, 2)
    ensures bd == 1 && bm == 128
  {
    hide Error;
    assert Candidate(1, 128) && Before(1, 128, 129, 2);
    if bd > 1 {
      FarIsNotCloser(ideal, bd, bm);
      assert false;
    }
    UndividedError(ideal, bm);
    UndividedError(ideal, 128);
  }

  // The divider never comes back down to one, and then the multiplier stays.
  lemma {:induction false} DividerGrows(ideal: nat, bd: nat, bm: nat, d: nat, m: nat)
    requires d > 1
    ensures bd > 1 ==> Search(ideal, bd, bm, d, m).0 > 1
    ensures Search(ideal, bd, bm, d, m).0 > 1 || Search(ideal, bd, bm, d, m) == (bd, bm)
    decreases 129 - d, 129 - m
  {
    hide Takes;
    if d >= 129 {
    } else if m >= 129 {
      DividerGrows(ideal, bd, bm, d + 1, 2);
    } else {
      DividerGrows(ideal, d, m, d, m + 1);
      DividerGrows(ideal, bd, bm, d, m + 1);
    }
  }

  // Any later candidate that would replace 128/1 keeps it from being the answer.
  lemma {:induction false} TakenLater(ideal: nat, d: nat, m: nat, e: nat, n: nat)
    requires 1 < d <= 129 && 2 <= m <= 129 && Candidate(e, n) && !Before(e, n, d, m)
    requires Takes(ideal, 1, 128, e, n)
    ensures Search(ideal, 1, 128, d, m).0 > 1
    decreases 129 - d, 129 - m
  {
    hide Takes;
    if m == 129 {
      TakenLater(ideal, d + 1, 2, e, n);
    } else if Takes(ideal, 1, 128, d, m) {
      DividerGrows(ideal, d, m, d, m + 1);
    } else {
      TakenLater(ideal, d, m + 1, e, n);
    }
  }

  // In the first row every multiplier taken is closer, as the wrapped
  // differences measure it, than the one before.
  lemma {:induction false} FirstRow(ideal: nat, bm: nat, m: nat) returns (r: nat)
    requires 2 <= m <= 129
    ensures Search(ideal, 1, bm, 1, m) == Search(ideal, 1, r, 2, 2)
    ensures r == bm || AbsDiff32(IDEAL_D * r, ideal) < AbsDiff32(IDEAL_D * bm, ideal)
    decreases 129 - m
  {
    hide AbsDiff32;
    if m == 129 {
      r := bm;
    } else if Takes(ideal, 1, bm, 1, m) {
      r := FirstRow(ideal, m, m + 1);
    } else {
      r := FirstRow(ideal, bm, m + 1);
    }
  }

  lemma FirstCandidate(ideal: nat)
    ensures Search(ideal, 0, 1, 1, 2) == Search(ideal, 1, 2, 1, 3)
  {
    hide Takes;
    TakesFirst(ideal, 1, 1, 2);
  }

  // Beyond 2^31 the wrapped difference calls the smallest multiplier closest.
  lemma SmallestLooksClosest(ideal: Word32)
    requires ideal >= 0x8000_0000 + 650_000
    ensures AbsDiff32(IDEAL_D * 2, ideal) <= AbsDiff32(IDEAL_D * 128, ideal)
  {
  }

  // Up to there some divider brings its product into the wrapped half: the first
  // whose product passes 2^31 and the midpoint of the two candidates.
  function Culprit(ideal: nat): nat
    requires ideal > 640_000
  {
    (0x8000_0000 + 10_000) / (ideal - 640_000) + 1
  }

  lemma QuotientBounds(n: nat, x: nat)
    requires x > 0
    ensures var d := n / x + 1; (d - 1) * x <= n < d * x
  {
    assert n == n / x * x + n % x;
  }

  lemma CulpritWraps(ideal: nat)
    requires LIMIT < ideal <= 0x8000_0000 - 82_000_000
    ensures var d := Culprit(ideal);
            2 <= d <= 128 && 0x8000_0000 + 640_000 * d + 10_000 < d * ideal < 0x1_0000_0000
  {
    var n, x, d := 0x8000_0000 + 10_000, ideal - 640_000, Culprit(ideal);
    QuotientBounds(n, x);
    assert d * ideal == d * x + 640_000 * d;
    if d > 128 {
      ProductBound(128, 16_777_295, d - 1, x);
      assert false;
    }
    assert d * x == (d - 1) * x + x;
  }

  lemma WrappedIsTaken(ideal: nat, d: nat)
    requires 2 <= d <= 128 && 0x8000_0000 + 640_000 * d + 10_000 < d * ideal < 0x1_0000_0000
    ensures Takes(ideal, 1, 128, d, 2)
  {
    var x := d * ideal;
    assert d * 1 * ideal == x;
    assert 1 * IDEAL_D * 2 == 20_000 && d * IDEAL_D * 128 == 1_280_000 * d;
  }

  lemma TwiceIsTaken(ideal: nat)
    requires 0x8000_0000 - 82_000_000 < ideal < 0x8000_0000 + 960_000
    ensures Takes(ideal, 1, 128, 2, if ideal < 0x8000_0000 then 2 else 128)
  {
  }

  lemma TopIsReplaced(ideal: nat)
    requires LIMIT < ideal < 0x8000_0000 + 960_000
    ensures Search(ideal, 1, 128, 2, 2).0 > 1
  {
    hide Takes;
    if ideal <= 0x8000_0000 - 82_000_000 {
      CulpritWraps(ideal);
      WrappedIsTaken(ideal, Culprit(ideal));
      TakenLater(ideal, 2, 2, Culprit(ideal), 2);
    } else {
      TwiceIsTaken(ideal);
      TakenLater(ideal, 2, 2, 2, if ideal < 0x8000_0000 then 2 else 128);
    }
  }

  lemma SearchMissesAboveLimit(ideal: Word32)
    requires ideal > LIMIT
    ensures var r := Search(ideal, 0, 1, 1, 2); !Best(ideal, r.0, r.1, 129, 2)
  {
    hide Takes, Search, Best, AbsDiff32;
    var r := Search(ideal, 0, 1, 1, 2);
    if Best(ideal, r.0, r.1, 129, 2) {
      OnlyTopIsBest(ideal, r.0, r.1);
      FirstCandidate(ideal);
      var b := FirstRow(ideal, 2, 3);
      DividerGrows(ideal, 1, b, 2, 2);
      assert b == 128;
      if ideal < 0x8000_0000 + 960_000 {
        TopIsReplaced(ideal);
      } else {
        SmallestLooksClosest(ideal);
      }
      assert false;
    }
  }

  // For every 32-bit ideal the search finds the first of the closest candidates
  // if and only if the ideal is at most LIMIT.
  lemma SearchFindsBestIff(ideal: Word32)
    ensures var r := Search(ideal, 0, 1, 1, 2); Best(ideal, r.0, r.1, 129, 2) <==> ideal <= LIMIT
  {
    hide Search, Best;
    if ideal <= LIMIT {
      SearchFindsBest(ideal);
    } else {
      SearchMissesAboveLimit(ideal);
    }
  }
}
