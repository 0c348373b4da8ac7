// The shared secret Km (firmware/km.c, firmware/compute_ksv.c), over an
// arbitrary key matrix.
module KeyMath {

  import I2cSnoop

  type Byte = I2cSnoop.Byte
  type Word32 = n: nat | n < 0x1_0000_0000
  type Word64 = n: nat | n < 0x1_0000_0000_0000_0000

  const MOD56: nat := 0x100_0000_0000_0000

  // hdcp_master: forty rows of forty keys.
  type Matrix = m: seq<seq<Word64>> | |m| == 40 && forall r <- m :: |r| == 40
    witness seq(40, _ => seq(40, _ => 0))

  // Row i, column j; columns and rows exchanged when t is set.
  function Entry(m: Matrix, t: bool, i: nat, j: nat): Word64
    requires i < 40 && j < 40
  {
    if t then m[j][i] else m[i][j]
  }

  // Unsigned 64-bit addition, then the 56-bit mask.
  function Add56(a: Word64, b: Word64): Word64 {
    (a + b) % 0x1_0000_0000_0000_0000 % MOD56
  }

  // The entries of row i from column j on, as selected by the bits of k.
  ghost function RowSum(m: Matrix, t: bool, i: nat, k: nat, j: nat): nat
    requires i < 40
    decreases 40 - j
  {
    if j >= 40 then 0 else (if k % 2 == 1 then Entry(m, t, i, j) else 0) + RowSum(m, t, i, k / 2, j + 1)
  }

  // The entries from row i and column j on, selected by the bits of a and b.
  ghost function BlockSum(m: Matrix, t: bool, a: nat, i: nat, b: nat, j: nat): nat
    decreases 40 - i
  {
    if i >= 40 then 0 else (if a % 2 == 1 then RowSum(m, t, i, b, j) else 0) + BlockSum(m, t, a / 2, i + 1, b, j)
  }

  // Summing by columns gives the same as summing by rows.
  lemma {:induction false} SumsExchange(m: Matrix, t: bool, a: nat, i: nat, b: nat, j: nat)
    ensures BlockSum(m, t, a, i, b, j) == BlockSum(m, !t, b, j, a, i)
    decreases 80 - i - j
  {
    if i >= 40 {
      NoColumns(m, !t, b, j, a, i);
    } else if j >= 40 {
      NoColumns(m, t, a, i, b, j);
    } else {
      SumsExchange(m, t, a / 2, i + 1, b, j);
      SumsExchange(m, t, a, i, b / 2, j + 1);
      SumsExchange(m, t, a / 2, i + 1, b / 2, j + 1);
      assert Entry(m, t, i, j) == Entry(m, !t, j, i);
    }
  }

  lemma {:induction false} NoColumns(m: Matrix, t: bool, a: nat, i: nat, b: nat, j: nat)
    requires j >= 40
    ensures BlockSum(m, t, a, i, b, j) == 0
    decreases 40 - i
  {
    if i < 40 {
      NoColumns(m, t, a / 2, i + 1, b, j);
    }
  }

  lemma ModAdd(a: nat, b: nat)
    ensures (a % MOD56 + b) % MOD56 == (a + b) % MOD56
  {
  }

  lemma SumsAgree(a: nat, b: nat, c: nat, d: nat)
    requires a % MOD56 == b % MOD56 && c % MOD56 == d % MOD56
    ensures (a + c) % MOD56 == (b + d) % MOD56
  {
    ModAdd(a, c);
    ModAdd(b, c);
    ModAdd(c, b);
    ModAdd(d, b);
  }

  lemma Add56IsSum(a: Word64, b: Word64, rest: nat)
    ensures (Add56(a, b) + rest) % MOD56 == (a + b + rest) % MOD56
    ensures Add56(a, b) < MOD56
  {
    ModAdd(a + b, rest);
  }

  // ---- compute_keys ----

  // What key[j] still has to collect before it is the whole selected sum.
  ghost predicate Collecting(m: Matrix, source: bool, whole: nat, j: nat, key: nat, k: nat, i: nat)
    requires j < 40
  {
    key < MOD56 && (key + RowSum(m, source, j, k, i)) % MOD56 == RowSum(m, source, j, whole, 0) % MOD56
  }

  lemma CollectStart(m: Matrix, source: bool, whole: nat)
    ensures forall j | 0 <= j < 40 :: Collecting(m, source, whole, j, 0, whole, 0)
  {
  }

  lemma CollectDone(m: Matrix, source: bool, whole: nat, j: nat, key: nat, k: nat)
    requires j < 40 && Collecting(m, source, whole, j, key, k, 40)
    ensures key == RowSum(m, source, j, whole, 0) % MOD56
  {
  }

  lemma CollectOne(m: Matrix, source: bool, whole: nat, j: nat, key: Word64, k: nat, i: nat)
    requires j < 40 && i < 40 && Collecting(m, source, whole, j, key, k, i)
    ensures Collecting(m, source, whole, j, if k % 2 == 1 then Add56(key, Entry(m, source, j, i)) else key, k / 2, i + 1)
  {
    Add56IsSum(key, Entry(m, source, j, i), RowSum(m, source, j, k / 2, i + 1));
  }

  method AddRow(m: Matrix, source: bool, i: nat, key: array<Word64>)
    requires key.Length == 40 && i < 40
    modifies key
    ensures forall j | 0 <= j < 40 :: key[j] == Add56(old(key[j]), Entry(m, source, j, i))
  {
    for j := 0 to 40
      invariant forall l | 0 <= l < j :: key[l] == Add56(old(key[l]), Entry(m, source, l, i))
      invariant forall l | j <= l < 40 :: key[l] == old(key[l])
    {
      key[j] := Add56(key[j], if source then m[i][j] else m[j][i]);
    }
  }

  method ComputeKeys(m: Matrix, hi: Word32, lo: Word32, source: bool, key: array<Word64>)
    requires key.Length == 40
    modifies key
    ensures forall j | 0 <= j < 40 :: key[j] == RowSum(m, source, j, hi * 0x1_0000_0000 + lo, 0) % MOD56
  {
    hide RowSum, Collecting;
    var whole: nat := hi * 0x1_0000_0000 + lo;
    var ksv := whole;
    for i := 0 to 40
      invariant forall j | 0 <= j < i :: key[j] == 0
    {
      key[i] := 0;
    }
    CollectStart(m, source, whole);
    for i := 0 to 40
      invariant forall j | 0 <= j < 40 :: Collecting(m, source, whole, j, key[j], ksv, i)
    {
      forall j | 0 <= j < 40
        ensures Collecting(m, source, whole, j,
                           if ksv % 2 == 1 then Add56(key[j], Entry(m, source, j, i)) else key[j], ksv / 2, i + 1)
      {
        CollectOne(m, source, whole, j, key[j], ksv, i);
      }
      if ksv % 2 == 1 {
        AddRow(m, source, i, key);
      }
      ksv := ksv / 2;
    }
    forall j | 0 <= j < 40
      ensures key[j] == RowSum(m, source, j, whole, 0) % MOD56
    {
      CollectDone(m, source, whole, j, key[j], ksv);
    }
  }

  // ---- derive_km ----

  // What one side computes: its own keys, selected by the other side's vector.
  ghost function Shared(m: Matrix, source: nat, sink: nat): nat {
    BlockSum(m, false, source, 0, sink, 0) % MOD56
  }

  function Power2(n: nat): nat {
    if n == 0 then 1 else 2 * Power2(n - 1)
  }

  lemma NextPower(n: nat)
    requires n > 0
    ensures Power2(n) % 2 == 0 && Power2(n) / 2 == Power2(n - 1)
  {
  }

  lemma {:induction false} NoBitsRow(m: Matrix, t: bool, i: nat, j: nat)
    requires i < 40
    ensures RowSum(m, t, i, 0, j) == 0
    decreases 40 - j
  {
    if j < 40 {
      NoBitsRow(m, t, i, j + 1);
    }
  }

  lemma {:induction false} NoBitsBlock(m: Matrix, t: bool, i: nat, b: nat, j: nat)
    ensures BlockSum(m, t, 0, i, b, j) == 0
    decreases 40 - i
  {
    hide RowSum;
    if i < 40 {
      NoBitsBlock(m, t, i + 1, b, j);
    }
  }

  lemma {:induction false} OneBitRow(m: Matrix, t: bool, i: nat, j: nat, q: nat)
    requires i < 40 && j + q < 40
    ensures RowSum(m, t, i, Power2(q), j) == Entry(m, t, i, j + q)
    decreases q
  {
    if q == 0 {
      NoBitsRow(m, t, i, j + 1);
    } else {
      NextPower(q);
      OneBitRow(m, t, i, j + 1, q - 1);
    }
  }

  lemma {:induction false} OneBitBlock(m: Matrix, t: bool, i: nat, p: nat, j: nat, q: nat)
    requires i + p < 40 && j + q < 40
    ensures BlockSum(m, t, Power2(p), i, Power2(q), j) == Entry(m, t, i + p, j + q)
    decreases p
  {
    hide RowSum, Entry;
    if p == 0 {
      NoBitsBlock(m, t, i + 1, Power2(q), j);
      OneBitRow(m, t, i, j, q);
    } else {
      NextPower(p);
      OneBitBlock(m, t, i + 1, p - 1, j, q);
    }
  }

  // A single bit in each vector picks a single key: the source's bit its row,
  // the sink's bit its column.
  lemma SharedOfOneBit(m: Matrix, i: nat, j: nat)
    requires i < 40 && j < 40
    ensures Shared(m, Power2(i), Power2(j)) == m[i][j] % MOD56
  {
    hide BlockSum;
    OneBitBlock(m, false, 0, i, 0, j);
  }

  // No bit is set in both.
  ghost predicate Disjoint(a: nat, b: nat)
    decreases a
  {
    a == 0 || (a % 2 + b % 2 <= 1 && Disjoint(a / 2, b / 2))
  }

  lemma HalfSum(a: nat, b: nat)
    requires a % 2 + b % 2 <= 1
    ensures (a + b) / 2 == a / 2 + b / 2 && (a + b) % 2 == a % 2 + b % 2
  {
  }

  lemma {:induction false} RowSumAdds(m: Matrix, t: bool, i: nat, a: nat, b: nat, j: nat)
    requires i < 40 && Disjoint(a, b)
    ensures RowSum(m, t, i, a + b, j) == RowSum(m, t, i, a, j) + RowSum(m, t, i, b, j)
    decreases 40 - j
  {
    hide Entry;
    if a == 0 {
      NoBitsRow(m, t, i, j);
    } else if j < 40 {
      HalfSum(a, b);
      RowSumAdds(m, t, i, a / 2, b / 2, j + 1);
    }
  }

  lemma {:induction false} BlockSumAdds(m: Matrix, t: bool, a: nat, i: nat, b: nat, c: nat, j: nat)
    requires Disjoint(b, c)
    ensures BlockSum(m, t, a, i, b + c, j) == BlockSum(m, t, a, i, b, j) + BlockSum(m, t, a, i, c, j)
    decreases 40 - i
  {
    hide RowSum, Disjoint;
    if i < 40 {
      RowSumAdds(m, t, i, b, c, j);
      BlockSumAdds(m, t, a / 2, i + 1, b, c, j);
    }
  }

  // The key of two disjoint vectors is the sum of their keys, on either side:
  // with the single bits this says what Km is for every pair of vectors.
  lemma SharedAdds(m: Matrix, a: nat, b: nat, c: nat)
    requires Disjoint(b, c)
    ensures Shared(m, a, b + c) == (Shared(m, a, b) + Shared(m, a, c)) % MOD56
    ensures Shared(m, b + c, a) == (Shared(m, b, a) + Shared(m, c, a)) % MOD56
  {
    hide BlockSum, Disjoint;
    BlockSumAdds(m, false, a, 0, b, c, 0);
    BlockSumAdds(m, true, a, 0, b, c, 0);
    SumsExchange(m, false, b + c, 0, a, 0);
    SumsExchange(m, false, b, 0, a, 0);
    SumsExchange(m, false, c, 0, a, 0);
    SumsAgree(Shared(m, a, b), BlockSum(m, false, a, 0, b, 0), Shared(m, a, c), BlockSum(m, false, a, 0, c, 0));
    SumsAgree(Shared(m, b, a), BlockSum(m, false, b, 0, a, 0), Shared(m, c, a), BlockSum(m, false, c, 0, a, 0));
  }

  ghost function Sum(keys: seq<Word64>, k: nat, i: nat): nat
    decreases |keys| - i
  {
    if i >= |keys| then 0 else (if k % 2 == 1 then keys[i] else 0) + Sum(keys, k / 2, i + 1)
  }

  lemma Reduced(a: nat)
    ensures a % MOD56 % MOD56 == a % MOD56
  {
  }

  // Sums of reduced row sums are, reduced, the block sum.
  lemma {:induction false} SumOfRows(m: Matrix, t: bool, keys: seq<Word64>, a: nat, i: nat, b: nat)
    requires |keys| == 40 && forall j | 0 <= j < 40 :: keys[j] == RowSum(m, t, j, b, 0) % MOD56
    ensures Sum(keys, a, i) % MOD56 == BlockSum(m, t, a, i, b, 0) % MOD56
    decreases 40 - i
  {
    if i < 40 {
      hide RowSum;
      SumOfRows(m, t, keys, a / 2, i + 1, b);
      Reduced(RowSum(m, t, i, b, 0));
      SumsAgree(keys[i], RowSum(m, t, i, b, 0), Sum(keys, a / 2, i + 1), BlockSum(m, t, a / 2, i + 1, b, 0));
    }
  }

  method SelectKeys(keys: array<Word64>, ksv: Word64) returns (km: Word64)
    requires keys.Length == 40
    ensures km == Sum(keys[..], ksv, 0) % MOD56
  {
    km := 0;
    var k: nat := ksv;
    for i := 0 to 40
      invariant km < MOD56
      invariant (km + Sum(keys[..], k, i)) % MOD56 == Sum(keys[..], ksv, 0) % MOD56
    {
      if k % 2 == 1 {
        Add56IsSum(km, keys[i], Sum(keys[..], k / 2, i + 1));
        km := Add56(km, keys[i]);
      }
      k := k / 2;
    }
  }

  // Bytes as a number, least significant first and most significant first.
  ghost function LittleEndian(s: seq<Byte>): nat {
    if s == [] then 0 else s[0] + 256 * LittleEndian(s[1..])
  }

  ghost function BigEndian(s: seq<Byte>): nat {
    Join(0, s)
  }

  // The number whose trailing bytes are s and whose leading part is k.
  ghost function Join(k: nat, s: seq<Byte>): nat {
    if s == [] then k else 256 * Join(k, s[..|s| - 1]) + s[|s| - 1]
  }

  lemma {:induction false} JoinSplit(k: nat, s: seq<Byte>)
    ensures Join(k / 256, [k % 256] + s) == Join(k, s)
  {
    var t := [k % 256] + s;
    if s == [] {
      assert t[..0] == [];
      assert Join(k / 256, t) == 256 * Join(k / 256, []) + k % 256;
    } else {
      assert t[..|t| - 1] == [k % 256] + s[..|s| - 1];
      JoinSplit(k, s[..|s| - 1]);
    }
  }

  ghost function Pow256(n: nat): nat {
    if n == 0 then 1 else 256 * Pow256(n - 1)
  }

  lemma Shorter(k: nat, n: nat)
    requires k < Pow256(n + 1)
    ensures k / 256 < Pow256(n)
  {
  }

  lemma JoinNothing(k: nat)
    ensures Join(k, []) == k && Pow256(0) == 1 && Pow256(7) == MOD56
  {
    assert Pow256(1) == 0x100 && Pow256(2) == 0x1_0000 && Pow256(3) == 0x100_0000 && Pow256(4) == 0x1_0000_0000;
    assert Pow256(5) == 0x100_0000_0000 && Pow256(6) == 0x1_0000_0000_0000;
  }

  lemma {:induction false} LittleEndianBound(s: seq<Byte>)
    ensures LittleEndian(s) < Pow256(|s|)
  {
    if s != [] {
      LittleEndianBound(s[1..]);
    }
  }

  // The registers the snooper collected, read from the top byte down.
  method ReadKsv(regs: I2cSnoop.Bank, base: nat) returns (ksv: Word64)
    requires base + 5 <= 32
    ensures ksv == LittleEndian(regs[base..base + 5])
  {
    var k: nat := 0;
    for i := 0 to 5
      invariant k == LittleEndian(regs[base + 5 - i..base + 5]) && k < Pow256(i)
    {
      k := k * 256 + regs[base + 4 - i];
      assert regs[base + 4 - i..base + 5][1..] == regs[base + 5 - i..base + 5];
    }
    ksv := k;
  }

  // Source keys come from the matrix rows selected by the source's vector, sink
  // keys from its columns; each side selects among the other's. For every matrix
  // and every pair of vectors both arrive at the same Km.
  method BothSides(m: Matrix, source: Word64, sink: Word64) returns (km: Word64, kmp: Word64)
    requires source < 0x100_0000_0000 && sink < 0x100_0000_0000
    ensures km == kmp == Shared(m, source, sink) && km < MOD56
  {
    hide Sum, RowSum, BlockSum;
    var sourceKeys, sinkKeys := new Word64[40], new Word64[40];
    ComputeKeys(m, source / 0x1_0000_0000, source % 0x1_0000_0000, true, sourceKeys);
    ComputeKeys(m, sink / 0x1_0000_0000, sink % 0x1_0000_0000, false, sinkKeys);
    km := SelectKeys(sinkKeys, source);
    kmp := SelectKeys(sourceKeys, sink);
    SumOfRows(m, false, sinkKeys[..], source, 0, sink);
    SumOfRows(m, true, sourceKeys[..], sink, 0, source);
    SumsExchange(m, false, source, 0, sink, 0);
  }

  class Csr {
    const km: array<Byte>
    var kmValid: bool

    ghost predicate Valid()
      reads this
    {
      km.Length == 7
    }

    constructor ()
      ensures Valid() && fresh(km) && !kmValid
    {
      km := new Byte[7];
      kmValid := false;
    }

    // The low byte goes to the highest address.
    method WriteKm(value: Word64)
      requires Valid() && value < MOD56
      modifies km
      ensures BigEndian(km[..]) == value
    {
      hide Join, Pow256;
      var rest: nat := value;
      JoinNothing(value);
      assert km[7..] == [];
      for i := 7 downto 0
        invariant rest < Pow256(i) && Join(rest, km[i..]) == value
      {
        ghost var s := km[i + 1..];
        km[i] := rest % 256;
        assert km[i..] == [rest % 256] + s;
        JoinSplit(rest, s);
        Shorter(rest, i);
        rest := rest / 256;
      }
      JoinNothing(0);
      assert km[0..] == km[..];
    }

    // The mismatch exit is never the reason for a failure: code 1 means Km is zero.
    method DeriveKm(m: Matrix, regs: I2cSnoop.Bank) returns (code: int)
      requires Valid()
      modifies this, km
      ensures Valid()
      ensures var shared := Shared(m, LittleEndian(regs[0x10..0x15]), LittleEndian(regs[..5]));
              && code == (if shared == 0 then 1 else 0)
              && kmValid == (shared != 0)
              && if shared == 0 then km[..] == old(km[..]) else BigEndian(km[..]) == shared
    {
      hide Shared, LittleEndian, BigEndian;
      kmValid := false;
      var sink := ReadKsv(regs, 0);
      var source := ReadKsv(regs, 0x10);
      KsvFits(regs[..5]);
      KsvFits(regs[0x10..0x15]);
      assert regs[0..5] == regs[..5];
      var value, other := BothSides(m, source, sink);
      if value != other || value == 0 {
        return 1;
      }
      WriteKm(value);
      kmValid := true;
      return 0;
    }
  }

  lemma KsvFits(s: seq<Byte>)
    requires |s| == 5
    ensures LittleEndian(s) < 0x100_0000_0000
  {
    LittleEndianBound(s);
    assert Pow256(1) == 0x100 && Pow256(2) == 0x1_0000 && Pow256(3) == 0x100_0000;
  }
}
