// The block module of the cipher (overlay/hdcp_block.v): the round applied to
// the B and K registers, the output function, and the clocked registers.
module HdcpBlock {
  import opened Bits
  import opened DiffNetwork
  import opened Sbox

  // The three 28-bit registers of B, or of K.
  datatype Regs = Regs(x: Word28, y: Word28, z: Word28)

  // Inputs of the four networks that drive x, and of the four that drive y.
  function NetX(s: Regs, r: nat): Bits
    requires r < 4
  {
    if r == 0 then s.z[..7] else s.y[12 + 4 * r..16 + 4 * r] + s.z[16 + 3 * r..19 + 3 * r]
  }

  function NetY(s: Regs, r: nat): Bits
    requires r < 4
  {
    s.z[7 + 3 * r..10 + 3 * r] + s.y[3 * r..3 * r + 3] + [s.y[12 + r]]
  }

  // Network r of each group drives bits r, 4 + r, 8 + r, ..., 24 + r.
  function LinearX(s: Regs, k: Word28): Word28 {
    seq(28, n requires 0 <= n < 28 => Diffuse(NetX(s, n % 4), k[7 * (n % 4)..7 * (n % 4) + 7])[n / 4])
  }

  function LinearY(s: Regs): Word28 {
    seq(28, n requires 0 <= n < 28 => Diffuse(NetY(s, n % 4), Zeros(7))[n / 4])
  }

  function Column(x: Word28, c: nat): Bits
    requires c < 7
  {
    [x[c], x[c + 7], x[c + 14], x[c + 21]]
  }

  function SubstB(x: Word28): Word28 {
    seq(28, n requires 0 <= n < 28 => Unpack(BoxB(n % 7, Pack(Column(x, n % 7))))[n / 7])
  }

  function SubstK(x: Word28): Word28 {
    seq(28, n requires 0 <= n < 28 => Unpack(BoxK(n % 7, Pack(Column(x, n % 7))))[n / 7])
  }

  function RoundB(b: Regs, k: Regs): Regs {
    Regs(LinearX(b, k.y), LinearY(b), SubstB(b.x))
  }

  // With rekey high, bit 13 of y comes from the shift registers instead.
  function RoundK(k: Regs, rekey: bool, bit: bv1): Regs {
    var y := LinearY(k);
    Regs(LinearX(k, Zeros(28)), if rekey then y[13 := bit] else y, SubstK(k.x))
  }

  // ---- Inverse of a round ----

  function Strand(w: Word28, r: nat): Bits
    requires r < 4
  {
    seq(7, j requires 0 <= j < 7 => w[4 * j + r])
  }

  function BackX(x: Word28, k: Word28, r: nat): (i: Bits)
    requires r < 4
    ensures |i| == 7
  {
    Undiffuse(Strand(x, r), k[7 * r..7 * r + 7])
  }

  function BackY(y: Word28, r: nat): (i: Bits)
    requires r < 4
    ensures |i| == 7
  {
    Undiffuse(Strand(y, r), Zeros(7))
  }

  function UnlinearY(s: Regs, k: Word28): Word28 {
    seq(28, n requires 0 <= n < 28 =>
      if n < 12 then BackY(s.y, n / 3)[3 + n % 3]
      else if n < 16 then BackY(s.y, n - 12)[6]
      else BackX(s.x, k, (n - 12) / 4)[n % 4])
  }

  function UnlinearZ(s: Regs, k: Word28): Word28 {
    seq(28, n requires 0 <= n < 28 =>
      if n < 7 then BackX(s.x, k, 0)[n]
      else if n < 19 then BackY(s.y, (n - 7) / 3)[(n - 7) % 3]
      else BackX(s.x, k, (n - 16) / 3)[4 + (n - 19) % 3])
  }

  function UnsubstB(z: Word28): Word28 {
    seq(28, n requires 0 <= n < 28 => Unpack(UnboxB(n % 7, Pack(Column(z, n % 7))))[n / 7])
  }

  function UnsubstK(z: Word28): Word28 {
    seq(28, n requires 0 <= n < 28 => Unpack(UnboxK(n % 7, Pack(Column(z, n % 7))))[n / 7])
  }

  lemma BackXUndoes(s: Regs, k: Word28, r: nat)
    requires r < 4
    ensures BackX(LinearX(s, k), k, r) == NetX(s, r)
  {
    hide Diffuse, Undiffuse;
    var i, c := NetX(s, r), k[7 * r..7 * r + 7];
    forall j | 0 <= j < 7
      ensures Strand(LinearX(s, k), r)[j] == Diffuse(i, c)[j]
    {
      assert (4 * j + r) % 4 == r && (4 * j + r) / 4 == j;
    }
    assert Strand(LinearX(s, k), r) == Diffuse(i, c);
    UndiffuseUndoes(i, c);
  }

  lemma BackYUndoes(s: Regs, r: nat)
    requires r < 4
    ensures BackY(LinearY(s), r) == NetY(s, r)
  {
    var i := NetY(s, r);
    forall j | 0 <= j < 7
      ensures Strand(LinearY(s), r)[j] == Diffuse(i, Zeros(7))[j]
    {
      assert (4 * j + r) % 4 == r && (4 * j + r) / 4 == j;
    }
    assert Strand(LinearY(s), r) == Diffuse(i, Zeros(7));
    UndiffuseUndoes(i, Zeros(7));
  }

  // The places of the inverse, network by network.
  lemma UnlinearYPlaces(t: Regs, k: Word28, r: nat, c: nat)
    requires r < 4 && c < 4
    ensures c < 3 ==> UnlinearY(t, k)[3 * r + c] == BackY(t.y, r)[3 + c]
    ensures UnlinearY(t, k)[12 + r] == BackY(t.y, r)[6]
    ensures r > 0 ==> UnlinearY(t, k)[12 + 4 * r + c] == BackX(t.x, k, r)[c]
  {
    hide BackX, BackY;
    Split(r, c);
    assert (12 + 4 * r + c) % 4 == c;
  }

  lemma UnlinearZPlaces(t: Regs, k: Word28, r: nat, c: nat)
    requires r < 4 && c < 7
    ensures UnlinearZ(t, k)[c] == BackX(t.x, k, 0)[c]
    ensures c < 3 ==> UnlinearZ(t, k)[7 + 3 * r + c] == BackY(t.y, r)[c]
    ensures r > 0 && c < 3 ==> UnlinearZ(t, k)[16 + 3 * r + c] == BackX(t.x, k, r)[4 + c]
  {
    hide BackX, BackY;
    Split(r, c);
    if r > 0 {
      Split(r - 1, c);
    }
  }

  lemma Split(r: nat, c: nat)
    ensures c < 3 ==> (3 * r + c) / 3 == r && (3 * r + c) % 3 == c
    ensures c < 4 ==> (4 * r + c) / 4 == r && (4 * r + c) % 4 == c
  {
  }

  // Which bits the networks take.
  lemma NetPlaces(s: Regs, r: nat, c: nat)
    requires r < 4 && c < 7
    ensures r == 0 ==> NetX(s, r)[c] == s.z[c]
    ensures r > 0 && c < 4 ==> NetX(s, r)[c] == s.y[12 + 4 * r + c]
    ensures r > 0 && c < 3 ==> NetX(s, r)[4 + c] == s.z[16 + 3 * r + c]
    ensures c < 3 ==> NetY(s, r)[c] == s.z[7 + 3 * r + c] && NetY(s, r)[3 + c] == s.y[3 * r + c]
    ensures NetY(s, r)[6] == s.y[12 + r]
  {
  }

  lemma UnlinearYAt(s: Regs, k: Word28, z: Word28, n: nat)
    requires n < 28
    ensures UnlinearY(Regs(LinearX(s, k), LinearY(s), z), k)[n] == s.y[n]
  {
    hide LinearX, LinearY, BackX, BackY, NetX, NetY, UnlinearY;
    var t := Regs(LinearX(s, k), LinearY(s), z);
    if n < 12 {
      var r, c := n / 3, n % 3;
      BackYUndoes(s, r);
      UnlinearYPlaces(t, k, r, c);
      NetPlaces(s, r, c);
      assert n == 3 * r + c;
    } else if n < 16 {
      BackYUndoes(s, n - 12);
      UnlinearYPlaces(t, k, n - 12, 0);
      NetPlaces(s, n - 12, 0);
    } else {
      var r, c := (n - 12) / 4, n % 4;
      BackXUndoes(s, k, r);
      UnlinearYPlaces(t, k, r, c);
      NetPlaces(s, r, c);
      assert n == 12 + 4 * r + c;
    }
  }

  lemma UnlinearYUndoes(s: Regs, k: Word28, z: Word28)
    ensures UnlinearY(Regs(LinearX(s, k), LinearY(s), z), k) == s.y
  {
    hide LinearX, LinearY, UnlinearY;
    forall n | 0 <= n < 28
      ensures UnlinearY(Regs(LinearX(s, k), LinearY(s), z), k)[n] == s.y[n]
    {
      UnlinearYAt(s, k, z, n);
    }
  }

  lemma UnlinearZAt(s: Regs, k: Word28, z: Word28, n: nat)
    requires n < 28
    ensures UnlinearZ(Regs(LinearX(s, k), LinearY(s), z), k)[n] == s.z[n]
  {
    hide LinearX, LinearY, BackX, BackY, NetX, NetY, UnlinearZ;
    var t := Regs(LinearX(s, k), LinearY(s), z);
    if n < 7 {
      BackXUndoes(s, k, 0);
      UnlinearZPlaces(t, k, 0, n);
      NetPlaces(s, 0, n);
    } else if n < 19 {
      var r, c := (n - 7) / 3, (n - 7) % 3;
      BackYUndoes(s, r);
      UnlinearZPlaces(t, k, r, c);
      NetPlaces(s, r, c);
      assert n == 7 + 3 * r + c;
    } else {
      var r, c := (n - 16) / 3, (n - 16) % 3;
      BackXUndoes(s, k, r);
      UnlinearZPlaces(t, k, r, c);
      NetPlaces(s, r, c);
      assert n == 16 + 3 * r + c;
    }
  }

  lemma UnlinearZUndoes(s: Regs, k: Word28, z: Word28)
    ensures UnlinearZ(Regs(LinearX(s, k), LinearY(s), z), k) == s.z
  {
    hide LinearX, LinearY, UnlinearZ;
    forall n | 0 <= n < 28
      ensures UnlinearZ(Regs(LinearX(s, k), LinearY(s), z), k)[n] == s.z[n]
    {
      UnlinearZAt(s, k, z, n);
    }
  }

  lemma NetXOfUnlinear(t: Regs, k: Word28, x: Word28, r: nat)
    requires r < 4
    ensures NetX(Regs(x, UnlinearY(t, k), UnlinearZ(t, k)), r) == BackX(t.x, k, r)
  {
    hide BackX, BackY, UnlinearY, UnlinearZ;
    var s := Regs(x, UnlinearY(t, k), UnlinearZ(t, k));
    forall j | 0 <= j < 7
      ensures NetX(s, r)[j] == BackX(t.x, k, r)[j]
    {
      if r == 0 {
        UnlinearZPlaces(t, k, 0, j);
      } else if j < 4 {
        UnlinearYPlaces(t, k, r, j);
        assert NetX(s, r)[j] == s.y[12 + 4 * r + j];
      } else {
        UnlinearZPlaces(t, k, r, j - 4);
        assert NetX(s, r)[j] == s.z[16 + 3 * r + (j - 4)];
      }
    }
  }

  lemma NetYOfUnlinear(t: Regs, k: Word28, x: Word28, r: nat)
    requires r < 4
    ensures NetY(Regs(x, UnlinearY(t, k), UnlinearZ(t, k)), r) == BackY(t.y, r)
  {
    hide BackX, BackY, UnlinearY, UnlinearZ;
    var s := Regs(x, UnlinearY(t, k), UnlinearZ(t, k));
    forall j | 0 <= j < 7
      ensures NetY(s, r)[j] == BackY(t.y, r)[j]
    {
      if j < 3 {
        UnlinearZPlaces(t, k, r, j);
        assert NetY(s, r)[j] == s.z[7 + 3 * r + j];
      } else if j < 6 {
        UnlinearYPlaces(t, k, r, j - 3);
        assert NetY(s, r)[j] == s.y[3 * r + (j - 3)];
      } else {
        UnlinearYPlaces(t, k, r, 0);
      }
    }
  }

  lemma LinearUndoes(t: Regs, k: Word28, x: Word28)
    ensures LinearX(Regs(x, UnlinearY(t, k), UnlinearZ(t, k)), k) == t.x
    ensures LinearY(Regs(x, UnlinearY(t, k), UnlinearZ(t, k))) == t.y
  {
    hide Diffuse, Undiffuse, NetX, NetY, UnlinearY, UnlinearZ;
    var s := Regs(x, UnlinearY(t, k), UnlinearZ(t, k));
    forall n | 0 <= n < 28
      ensures LinearX(s, k)[n] == t.x[n] && LinearY(s)[n] == t.y[n]
    {
      var r := n % 4;
      NetXOfUnlinear(t, k, x, r);
      NetYOfUnlinear(t, k, x, r);
      DiffuseUndoes(Strand(t.x, r), k[7 * r..7 * r + 7]);
      DiffuseUndoes(Strand(t.y, r), Zeros(7));
    }
  }

  lemma ColumnOfSubstB(x: Word28, c: nat)
    requires c < 7
    ensures Column(SubstB(x), c) == Unpack(BoxB(c, Pack(Column(x, c))))
    ensures Column(UnsubstB(x), c) == Unpack(UnboxB(c, Pack(Column(x, c))))
  {
    hide BoxB, UnboxB, Pack;
    assert forall r | 0 <= r < 4 :: (c + 7 * r) % 7 == c && (c + 7 * r) / 7 == r;
  }

  lemma UnsubstUndoesB(x: Word28)
    ensures UnsubstB(SubstB(x)) == x && SubstB(UnsubstB(x)) == x
  {
    hide BoxB, UnboxB, Pack, Unpack, SubstB, UnsubstB;
    forall n | 0 <= n < 28
      ensures UnsubstB(SubstB(x))[n] == x[n] && SubstB(UnsubstB(x))[n] == x[n]
    {
      var c := n % 7;
      var v := Pack(Column(x, c));
      UnboxBUndoes(c, v);
      PackUnpack(v, Column(x, c));
      PackUnpack(BoxB(c, v), Column(x, c));
      PackUnpack(UnboxB(c, v), Column(x, c));
      ColumnOfSubstB(x, c);
      ColumnOfSubstB(SubstB(x), c);
      ColumnOfSubstB(UnsubstB(x), c);
      assert x[n] == Column(x, c)[n / 7];
    }
  }

  lemma ColumnOfSubstK(x: Word28, c: nat)
    requires c < 7
    ensures Column(SubstK(x), c) == Unpack(BoxK(c, Pack(Column(x, c))))
    ensures Column(UnsubstK(x), c) == Unpack(UnboxK(c, Pack(Column(x, c))))
  {
    hide BoxK, UnboxK, Pack;
    assert forall r | 0 <= r < 4 :: (c + 7 * r) % 7 == c && (c + 7 * r) / 7 == r;
  }

  lemma UnsubstUndoesK(x: Word28)
    ensures UnsubstK(SubstK(x)) == x && SubstK(UnsubstK(x)) == x
  {
    hide BoxK, UnboxK, Pack, Unpack, SubstK, UnsubstK;
    forall n | 0 <= n < 28
      ensures UnsubstK(SubstK(x))[n] == x[n] && SubstK(UnsubstK(x))[n] == x[n]
    {
      var c := n % 7;
      var v := Pack(Column(x, c));
      UnboxKUndoes(c, v);
      PackUnpack(v, Column(x, c));
      PackUnpack(BoxK(c, v), Column(x, c));
      PackUnpack(UnboxK(c, v), Column(x, c));
      ColumnOfSubstK(x, c);
      ColumnOfSubstK(SubstK(x), c);
      ColumnOfSubstK(UnsubstK(x), c);
      assert x[n] == Column(x, c)[n / 7];
    }
  }

  // ---- The round is a keyed permutation ----

  function UnroundB(b: Regs, k: Regs): Regs {
    Regs(UnsubstB(b.z), UnlinearY(b, k.y), UnlinearZ(b, k.y))
  }

  function UnroundK(k: Regs): Regs {
    Regs(UnsubstK(k.z), UnlinearY(k, Zeros(28)), UnlinearZ(k, Zeros(28)))
  }

  lemma RoundBIsPermutation(b: Regs, k: Regs)
    ensures UnroundB(RoundB(b, k), k) == b
    ensures RoundB(UnroundB(b, k), k) == b
  {
    hide LinearX, LinearY, UnlinearY, UnlinearZ, SubstB, UnsubstB;
    UnlinearYUndoes(b, k.y, SubstB(b.x));
    UnlinearZUndoes(b, k.y, SubstB(b.x));
    LinearUndoes(b, k.y, UnsubstB(b.z));
    UnsubstUndoesB(b.x);
    UnsubstUndoesB(b.z);
  }

  lemma RoundKIsPermutation(k: Regs, bit: bv1)
    ensures UnroundK(RoundK(k, false, bit)) == k
    ensures RoundK(UnroundK(k), false, bit) == k
  {
    hide LinearX, LinearY, UnlinearY, UnlinearZ, SubstK, UnsubstK;
    UnlinearYUndoes(k, Zeros(28), SubstK(k.x));
    UnlinearZUndoes(k, Zeros(28), SubstK(k.x));
    LinearUndoes(k, Zeros(28), UnsubstK(k.z));
    UnsubstUndoesK(k.x);
    UnsubstUndoesK(k.z);
  }

  // The other register value that a rekey round cannot tell apart from k.
  function Twin(k: Regs): Regs {
    var s := RoundK(k, false, 0);
    UnroundK(s.(y := s.y[13 := s.y[13] ^ 1]))
  }

  // With rekey high the K round loses exactly one bit.
  lemma RekeyRoundIsTwoToOne(k: Regs, l: Regs, bit: bv1)
    ensures Twin(k) != k
    ensures RoundK(k, true, bit) == RoundK(l, true, bit) <==> l == k || l == Twin(k)
  {
    hide LinearX, LinearY, SubstK, UnroundK;
    var s, t := RoundK(k, false, 0), RoundK(l, false, 0);
    var u := s.(y := s.y[13 := s.y[13] ^ 1]);
    RoundKIsPermutation(k, 0);
    RoundKIsPermutation(l, 0);
    RoundKIsPermutation(u, 0);
    assert u.y[13] != s.y[13];
    assert RoundK(k, true, bit) == s.(y := s.y[13 := bit]);
    assert RoundK(l, true, bit) == t.(y := t.y[13 := bit]);
    assert u.y[13 := bit] == s.y[13 := bit];
    if t.y[13 := bit] == s.y[13 := bit] {
      forall n | 0 <= n < 28 && n != 13
        ensures t.y[n] == s.y[n]
      {
        assert t.y[13 := bit][n] == t.y[n] && s.y[13 := bit][n] == s.y[n];
      }
      assert t.y == if t.y[13] == s.y[13] then s.y else u.y;
    }
  }

  // What takes the place of that bit is the bit from the shift registers: each
  // value of it gives another register, and one of the two is the plain round.
  lemma RekeyRoundTakesBit(k: Regs, bit: bv1)
    ensures RoundK(k, true, bit).y[13] == bit && RoundK(k, true, 0) != RoundK(k, true, 1)
    ensures RoundK(k, true, bit) == RoundK(k, false, 0) <==> bit == RoundK(k, false, 0).y[13]
  {
    hide LinearX, LinearY, SubstK;
    var y := LinearY(k);
    assert y[13 := y[13]] == y;
    assert y[13 := bit][13] == bit && y[13 := 0][13] == 0 && y[13 := 1][13] == 1;
  }

  // Rounds under a schedule of K registers, and back under the reversed one.
  ghost function RoundsB(b: Regs, ks: seq<Regs>): Regs
    decreases |ks|
  {
    if ks == [] then b else RoundsB(RoundB(b, ks[0]), ks[1..])
  }

  ghost function UnroundsB(b: Regs, ks: seq<Regs>): Regs {
    if ks == [] then b else UnroundB(UnroundsB(b, ks[1..]), ks[0])
  }

  lemma {:induction false} RoundsAreReversible(b: Regs, ks: seq<Regs>)
    decreases |ks|
    ensures UnroundsB(RoundsB(b, ks), ks) == b
    ensures RoundsB(UnroundsB(b, ks), ks) == b
  {
    hide RoundB, UnroundB;
    if ks != [] {
      RoundsAreReversible(RoundB(b, ks[0]), ks[1..]);
      RoundBIsPermutation(b, ks[0]);
      RoundsAreReversible(b, ks[1..]);
      RoundBIsPermutation(UnroundsB(b, ks[1..]), ks[0]);
    }
  }

  // ---- Output function ----

  // The bit of By, and of Ky, that is added into output bit n.
  function OutputTap(n: nat): (t: nat)
    ensures t < 28
  {
    match n
    case 0 => 5 case 1 => 16 case 2 => 11 case 3 => 1 case 4 => 12 case 5 => 17 case 6 => 3 case 7 => 15
    case 8 => 19 case 9 => 18 case 10 => 2 case 11 => 27 case 12 => 0 case 13 => 9 case 14 => 8 case 15 => 7
    case 16 => 21 case 17 => 26 case 18 => 22 case 19 => 4 case 20 => 24 case 21 => 6 case 22 => 13
    case _ => 23
  }

  function KeyTap(n: nat): (t: nat)
    ensures t < 28
  {
    match n
    case 0 => 10 case 1 => 25 case 2 => 21 case 3 => 24 case 4 => 8 case 5 => 12 case 6 => 11 case 7 => 23
    case 8 => 16 case 9 => 27 case 10 => 22 case 11 => 7 case 12 => 2 case 13 => 15 case 14 => 14 case 15 => 18
    case 16 => 26 case 17 => 4 case 18 => 19 case 19 => 13 case 20 => 0 case 21 => 20 case 22 => 9
    case _ => 3
  }

  type Index = n: nat | n < 28

  // Seven bits of a register.
  datatype Row = Row(a: Index, b: Index, c: Index, d: Index, e: Index, f: Index, g: Index) {
    function At(p: nat): Index {
      match p case 0 => a case 1 => b case 2 => c case 3 => d case 4 => e case 5 => f case _ => g
    }

    predicate Distinct() {
      && a !in {b, c, d, e, f, g} && b !in {c, d, e, f, g} && c !in {d, e, f, g} && d !in {e, f, g}
      && e !in {f, g} && f != g
    }
  }

  // The bits of Bz, and of Kz, whose products are added into output bit n.
  function RowB(n: nat): Row {
    match n
    case 0 => Row(17, 26, 22, 27, 21, 18, 2)
    case 1 => Row(5, 20, 15, 24, 2, 25, 0)
    case 2 => Row(22, 5, 14, 16, 25, 17, 20)
    case 3 => Row(19, 3, 15, 11, 21, 16, 27)
    case 4 => Row(19, 6, 17, 18, 22, 7, 9)
    case 5 => Row(3, 7, 4, 8, 16, 6, 5)
    case 6 => Row(8, 21, 27, 2, 11, 24, 12)
    case 7 => Row(9, 5, 7, 4, 8, 13, 3)
    case 8 => Row(26, 13, 23, 10, 11, 7, 15)
    case 9 => Row(1, 0, 19, 11, 13, 16, 24)
    case 10 => Row(26, 13, 9, 14, 10, 4, 1)
    case 11 => Row(21, 15, 5, 3, 13, 25, 16)
    case 12 => Row(20, 7, 18, 12, 17, 1, 16)
    case 13 => Row(14, 23, 1, 12, 24, 6, 18)
    case 14 => Row(19, 6, 21, 25, 23, 1, 10)
    case 15 => Row(3, 0, 27, 23, 19, 8, 4)
    case 16 => Row(6, 5, 14, 22, 24, 18, 2)
    case 17 => Row(3, 4, 2, 6, 22, 14, 12)
    case 18 => Row(25, 21, 19, 9, 10, 15, 13)
    case 19 => Row(23, 11, 10, 20, 1, 12, 14)
    case 20 => Row(11, 26, 20, 17, 8, 23, 0)
    case 21 => Row(9, 17, 26, 4, 27, 0, 15)
    case 22 => Row(22, 12, 2, 10, 7, 20, 25)
    case _ => Row(27, 24, 26, 8, 0, 9, 18)
  }

  function RowK(n: nat): Row {
    match n
    case 0 => Row(3, 6, 0, 9, 4, 22, 5)
    case 1 => Row(20, 18, 7, 23, 15, 5, 3)
    case 2 => Row(7, 19, 2, 10, 22, 4, 13)
    case 3 => Row(6, 14, 9, 8, 17, 18, 12)
    case 4 => Row(25, 6, 5, 2, 10, 15, 21)
    case 5 => Row(27, 14, 2, 4, 24, 19, 1)
    case 6 => Row(17, 26, 4, 16, 27, 7, 22)
    case 7 => Row(9, 10, 19, 11, 7, 6, 8)
    case 8 => Row(13, 12, 18, 24, 15, 23, 7)
    case 9 => Row(0, 5, 20, 25, 1, 24, 9)
    case 10 => Row(14, 23, 27, 25, 17, 19, 1)
    case 11 => Row(6, 21, 17, 15, 26, 11, 16)
    case 12 => Row(11, 22, 20, 0, 26, 23, 17)
    case 13 => Row(8, 4, 3, 14, 20, 26, 23)
    case 14 => Row(19, 0, 18, 2, 13, 8, 24)
    case 15 => Row(16, 21, 24, 25, 12, 27, 15)
    case 16 => Row(3, 5, 8, 25, 7, 27, 2)
    case 17 => Row(11, 14, 23, 17, 22, 13, 19)
    case 18 => Row(1, 16, 14, 11, 12, 6, 10)
    case 19 => Row(21, 1, 10, 20, 18, 26, 9)
    case 20 => Row(20, 21, 9, 25, 12, 3, 15)
    case 21 => Row(18, 12, 21, 27, 1, 16, 24)
    case 22 => Row(13, 0, 3, 16, 22, 11, 26)
    case _ => Row(2, 0, 13, 5, 4, 8, 10)
  }

  // The sum of the first p products.
  function Dot(n: nat, p: nat, bz: Word28, kz: Word28): bv1 {
    if p == 0 then 0 else Dot(n, p - 1, bz, kz) ^ (bz[RowB(n).At(p - 1)] & kz[RowK(n).At(p - 1)])
  }

  function OutputFilter(n: nat, bz: Word28, kz: Word28): bv1 {
    Dot(n, 7, bz, kz)
  }

  function OutputBit(n: nat, b: Regs, k: Regs): bv1 {
    OutputFilter(n, b.z, k.z) ^ b.y[OutputTap(n)] ^ k.y[KeyTap(n)]
  }

  function Output(b: Regs, k: Regs): Bits {
    seq(24, n requires 0 <= n < 24 => OutputBit(n, b, k))
  }

  // The taps are distinct, so for fixed K and Bz the 24 output bits range over
  // every value: changing By by d changes the output by exactly the tapped bits
  // of d. The same holds for Ky.
  lemma OutputIsBalanced(b: Regs, k: Regs, y: Word28, n: nat, m: nat)
    requires n < 24 && m < 24
    ensures Output(b.(y := y), k)[n] == Output(b, k)[n] ^ b.y[OutputTap(n)] ^ y[OutputTap(n)]
    ensures Output(b, k.(y := y))[n] == Output(b, k)[n] ^ k.y[KeyTap(n)] ^ y[KeyTap(n)]
    ensures n != m ==> OutputTap(n) != OutputTap(m) && KeyTap(n) != KeyTap(m)
  {
    hide OutputFilter;
  }

  function Xor(a: Word28, b: Word28): Word28 {
    seq(28, n requires 0 <= n < 28 => a[n] ^ b[n])
  }

  // The rest of each output bit is linear in Bz and in Kz.
  lemma {:induction false} DotIsBilinear(n: nat, p: nat, a: Word28, b: Word28, k: Word28)
    ensures Dot(n, p, Xor(a, b), k) == Dot(n, p, a, k) ^ Dot(n, p, b, k)
    ensures Dot(n, p, k, Xor(a, b)) == Dot(n, p, k, a) ^ Dot(n, p, k, b)
  {
    hide RowB, RowK;
    if p > 0 {
      DotIsBilinear(n, p - 1, a, b, k);
    }
  }

  lemma FilterIsBilinear(n: nat, a: Word28, b: Word28, k: Word28)
    ensures OutputFilter(n, Xor(a, b), k) == OutputFilter(n, a, k) ^ OutputFilter(n, b, k)
    ensures OutputFilter(n, k, Xor(a, b)) == OutputFilter(n, k, a) ^ OutputFilter(n, k, b)
  {
    hide Dot;
    DotIsBilinear(n, 7, a, b, k);
  }

  // Within an output bit every product takes bits of its own, and none that is
  // also added in.
  lemma TermsAreDistinct(n: nat)
    requires n < 24
    ensures RowB(n).Distinct() && RowK(n).Distinct()
  {
  }

  lemma TapsAreApart(n: nat, p: nat)
    requires n < 24 && p < 7
    ensures RowB(n).At(p) != OutputTap(n) && RowK(n).At(p) != KeyTap(n)
  {
  }

  // ---- Registers ----

  datatype Block = Block(b: Regs, k: Regs, ostream: Word24)

  // The top 20 bits of B are never loaded: only 64 bits of it are used.
  function LoadB(w: Word84): Regs {
    Regs(w[..28], w[28..56], w[56..64] + Zeros(20))
  }

  function LoadK(w: Word84): Regs {
    Regs(w[..28], w[28..56], w[56..])
  }

  function Bo(s: Block): Word84 {
    s.b.x + s.b.y + s.b.z
  }

  const RESET_BLOCK := Block(Regs(Zeros(28), Zeros(28), Zeros(28)), Regs(Zeros(28), Zeros(28), Zeros(28)), Zeros(24))

  function Loaded(b: Word84, k: Word84): Block {
    Block(LoadB(b), LoadK(k), Zeros(24))
  }

  function Round(s: Block, rekey: bool, bit: bv1): Block {
    Block(RoundB(s.b, s.k), RoundK(s.k, rekey, bit), Output(s.b, s.k))
  }

  // What is loaded is kept: the low 64 bits in B and all of K.
  lemma LoadKeepsWords(b: Word84, k: Word84)
    ensures var s := Loaded(b, k); Bo(s) == b[..64] + Zeros(20) && s.k.x + s.k.y + s.k.z == k
  {
    var s := Loaded(b, k);
    assert b[..64] == b[..28] + b[28..56] + b[56..64];
    assert s.b.x + s.b.y + s.b.z == b[..28] + b[28..56] + b[56..64] + Zeros(20);
  }

  // A K register loaded with what B puts out holds what B held.
  lemma OutputLoadsAsItIs(s: Block, b: Word84)
    ensures Loaded(b, Bo(s)).k == s.b
  {
    var w := Bo(s);
    assert w[..28] == s.b.x && w[28..56] == s.b.y && w[56..] == s.b.z;
  }

  // The output registered by a plain round is that of the registers before it.
  lemma OutputIsFromBefore(s: Block, bit: bv1)
    ensures var t := Round(s, false, bit);
            t.ostream == Output(UnroundB(t.b, UnroundK(t.k)), UnroundK(t.k))
  {
    hide RoundB, RoundK, UnroundB, UnroundK, Output;
    RoundKIsPermutation(s.k, bit);
    RoundBIsPermutation(s.b, s.k);
  }

  class BlockUnit {
    var b: Regs
    var k: Regs
    var ostream: Word24

    function State(): Block
      reads this
    {
      Block(b, k, ostream)
    }

    constructor ()
      ensures State() == RESET_BLOCK
    {
      b, k, ostream := RESET_BLOCK.b, RESET_BLOCK.k, RESET_BLOCK.ostream;
    }

    method Clock(reset: bool, load: bool, bIn: Word84, kIn: Word84, advance: bool, rekey: bool, bit: bv1)
      modifies this
      ensures State() ==
        if reset then RESET_BLOCK
        else if load then Loaded(bIn, kIn)
        else if advance then Round(old(State()), rekey, bit)
        else old(State())
    {
      if reset {
        b, k, ostream := RESET_BLOCK.b, RESET_BLOCK.k, RESET_BLOCK.ostream;
      } else if load {
        b, k, ostream := LoadB(bIn), LoadK(kIn), Zeros(24);
      } else if advance {
        b, k, ostream := RoundB(b, k), RoundK(k, rekey, bit), Output(b, k);
      }
    }
  }
}
