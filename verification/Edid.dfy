// Building, checking and reading an EDID block (firmware/edid.c).
module Edid {

  type Byte = n: nat | n < 256

  // A C string, without its terminating zero.
  type Text = s: seq<Byte> | forall i | 0 <= i < |s| :: s[i] != 0 witness []

  datatype Timing = Timing(
    pixelClock: nat, hActive: nat, hBlanking: nat, hSyncOffset: nat, hSyncWidth: nat,
    vActive: nat, vBlanking: nat, vSyncOffset: nat, vSyncWidth: nat, established: nat)

  const HEADER: seq<Byte> := [0x00, 0xFF, 0xFF, 0xFF, 0xFF, 0xFF, 0xFF, 0x00]

  function Low(n: int): Byte {
    n % 256
  }

  // Bitwise or of two bytes.
  function Or(a: nat, b: nat): nat
    decreases a + b
  {
    if a == 0 && b == 0 then 0 else (if a % 2 == 1 || b % 2 == 1 then 1 else 0) + 2 * Or(a / 2, b / 2)
  }

  lemma {:induction false} OrIsByte(a: nat, b: nat, n: nat)
    requires a < Power(n) && b < Power(n)
    ensures Or(a, b) < Power(n)
    decreases n
  {
    if n > 0 {
      OrIsByte(a / 2, b / 2, n - 1);
    }
  }

  // Without a common bit position, or is addition.
  lemma {:induction false} OrIsSum(h: nat, b: nat, n: nat)
    requires b < Power(n)
    ensures Or(h * Power(n), b) == h * Power(n) + b
    decreases n
  {
    if n == 0 {
      OrZero(h);
    } else {
      var a := h * Power(n);
      assert a == 2 * (h * Power(n - 1));
      OrIsSum(h, b / 2, n - 1);
    }
  }

  lemma OrZero(a: nat)
    ensures Or(a, 0) == a
  {
  }

  function Power(n: nat): nat {
    if n == 0 then 1 else 2 * Power(n - 1)
  }

  function OrByte(a: Byte, b: Byte): Byte {
    assert Power(8) == 256;
    OrIsByte(a, b, 8);
    Or(a, b)
  }

  // The high bits of two fields in one byte, as (x << k) | y keeps them.
  function Pack(x: nat, k: nat, y: nat): Byte {
    OrByte(Low(x * Power(k)), Low(y))
  }

  // ---- Detailed timing descriptor ----

  const MOD32: nat := 0x1_0000_0000

  function ImageSize(active: nat): nat {
    10 * active % MOD32 / 64
  }

  function TimingBytes(t: Timing): seq<Byte> {
    var h, v := ImageSize(t.hActive), ImageSize(t.vActive);
    [Low(t.pixelClock), Low(t.pixelClock / 256),
     Low(t.hActive), Low(t.hBlanking), Pack(t.hActive / 256, 4, t.hBlanking / 256),
     Low(t.vActive), Low(t.vBlanking), Pack(t.vActive / 256, 4, t.vBlanking / 256),
     Low(t.hSyncOffset), Low(t.hSyncWidth), Low(t.vSyncOffset),
     OrByte(Pack(t.hSyncOffset / 256, 6, 0),
            OrByte(Pack(t.hSyncWidth / 256, 4, 0), Pack(t.vSyncOffset / 256, 2, t.vSyncWidth / 256))),
     Low(h), Low(v), Pack(h / 256, 4, v / 256),
     0, 0, 0x1E]
  }

  lemma Powers()
    ensures Power(2) == 4 && Power(4) == 16 && Power(5) == 32 && Power(6) == 64 && Power(8) == 256
  {
    assert Power(3) == 8 && Power(5) == 32 && Power(7) == 128;
  }

  lemma PackSum(x: nat, k: nat, y: nat)
    requires x * Power(k) < 256 && y < Power(k) && y < 256
    ensures Pack(x, k, y) == x * Power(k) + y
  {
    hide Or, Power;
    OrIsSum(x, y, k);
  }

  function Wide(low: nat, high: nat): nat {
    low + 256 * high
  }

  // Twelve-bit fields share a byte without disturbing each other.
  lemma NibblesDecode(a: nat, b: nat)
    requires a < 4096 && b < 4096
    ensures var p := Pack(a / 256, 4, b / 256);
            Wide(Low(a), p / 16) == a && Wide(Low(b), p % 16) == b
  {
    hide Pack, Power;
    Powers();
    PackSum(a / 256, 4, b / 256);
  }

  lemma PairsShare(a: nat, b: nat, c: nat, d: nat)
    requires a < 4 && b < 4 && c < 4 && d < 4
    ensures OrByte(Pack(a, 6, 0), OrByte(Pack(b, 4, 0), Pack(c, 2, d))) == 64 * a + 16 * b + 4 * c + d
  {
    hide Pack, Power, Or;
    Powers();
    PackSum(c, 2, d);
    PackSum(b, 4, 0);
    PackSum(a, 6, 0);
    OrIsSum(b, 4 * c + d, 4);
    OrIsSum(a, 16 * b + 4 * c + d, 6);
  }

  // How a reader takes a descriptor apart; vertical sync is left out.
  datatype Decoded = Decoded(
    pixelClock: nat, hActive: nat, hBlanking: nat, hSyncOffset: nat, hSyncWidth: nat, vActive: nat, vBlanking: nat)

  function Decode(b: seq<Byte>): Decoded
    requires |b| == 18
  {
    Decoded(Wide(b[0], b[1]), Wide(b[2], b[4] / 16), Wide(b[3], b[4] % 16),
            Wide(b[8], b[11] / 64), Wide(b[9], b[11] / 16 % 4), Wide(b[5], b[7] / 16), Wide(b[6], b[7] % 16))
  }

  // Reading the descriptor gives the twelve-bit active and blanking sizes, the
  // sixteen-bit clock and, while all sync fields fit in ten bits, the horizontal
  // sync timing.
  lemma TimingDecodes(t: Timing)
    requires t.hActive < 4096 && t.hBlanking < 4096 && t.vActive < 4096 && t.vBlanking < 4096
    requires t.hSyncOffset < 1024 && t.hSyncWidth < 1024 && t.vSyncOffset < 1024 && t.vSyncWidth < 1024
    ensures Decode(TimingBytes(t)) ==
            Decoded(t.pixelClock % 0x1_0000, t.hActive, t.hBlanking, t.hSyncOffset, t.hSyncWidth, t.vActive, t.vBlanking)
  {
    hide Pack, OrByte, ImageSize, Low, Wide;
    ClockDecodes(t.pixelClock);
    NibblesDecode(t.hActive, t.hBlanking);
    NibblesDecode(t.vActive, t.vBlanking);
    SyncDecodes(t.hSyncOffset, t.hSyncWidth, t.vSyncOffset, t.vSyncWidth);
  }

  lemma ClockDecodes(c: nat)
    ensures Wide(Low(c), Low(c / 256)) == c % 0x1_0000
  {
  }

  lemma SyncDecodes(a: nat, b: nat, c: nat, d: nat)
    requires a < 1024 && b < 1024 && c < 1024 && d < 1024
    ensures var p := OrByte(Pack(a / 256, 6, 0), OrByte(Pack(b / 256, 4, 0), Pack(c / 256, 2, d / 256)));
            Wide(Low(a), p / 64) == a && Wide(Low(b), p / 16 % 4) == b
  {
    hide Pack, OrByte, Low, Wide;
    PairsShare(a / 256, b / 256, c / 256, d / 256);
    PairsSplit(a / 256, b / 256, 4 * (c / 256) + d / 256);
    LowAndHigh(a);
    LowAndHigh(b);
  }

  lemma PairsSplit(a: nat, b: nat, r: nat)
    requires b < 4 && r < 16
    ensures (64 * a + 16 * b + r) / 64 == a && (64 * a + 16 * b + r) / 16 % 4 == b
  {
  }

  lemma LowAndHigh(x: nat)
    ensures Wide(Low(x), x / 256) == x
  {
  }

  // How a reader takes the vertical sync fields: six bits each, four of them in
  // byte ten.
  function VSyncOffset(b: seq<Byte>): nat
    requires |b| == 18
  {
    b[10] / 16 + 16 * (b[11] / 4 % 4)
  }

  function VSyncWidth(b: seq<Byte>): nat
    requires |b| == 18
  {
    b[10] % 16 + 16 * (b[11] % 4)
  }

  // The code gives all of byte ten to the offset. A reader gets the offset back
  // if and only if it is zero, and the width if and only if it is the offset
  // modulo 16.
  lemma VSyncDecodesIff(t: Timing)
    requires t.hSyncOffset < 1024 && t.hSyncWidth < 1024 && t.vSyncOffset < 64 && t.vSyncWidth < 64
    ensures VSyncOffset(TimingBytes(t)) == t.vSyncOffset <==> t.vSyncOffset == 0
    ensures VSyncWidth(TimingBytes(t)) == t.vSyncWidth <==> t.vSyncWidth == t.vSyncOffset % 16
  {
    hide Pack, OrByte, ImageSize;
    PairsShare(t.hSyncOffset / 256, t.hSyncWidth / 256, t.vSyncOffset / 256, t.vSyncWidth / 256);
    var b := TimingBytes(t);
    assert b[10] == t.vSyncOffset && b[11] == 64 * (t.hSyncOffset / 256) + 16 * (t.hSyncWidth / 256);
  }

  // The image size in the descriptor, one unit for each 6.4 pixels, reads back.
  lemma ImageDecodes(t: Timing)
    requires t.hActive < 4096 && t.vActive < 4096
    ensures var b := TimingBytes(t);
            Wide(b[12], b[14] / 16) == 10 * t.hActive / 64 && Wide(b[13], b[14] % 16) == 10 * t.vActive / 64
  {
    hide Pack, OrByte, Low, Wide, ImageSize;
    ImageFits(t.hActive);
    ImageFits(t.vActive);
    NibblesDecode(ImageSize(t.hActive), ImageSize(t.vActive));
  }

  lemma ImageFits(active: nat)
    requires active < 4096
    ensures ImageSize(active) == 10 * active / 64 < 4096
  {
  }

  // ---- Writing a block ----

  function Min(a: nat, b: nat): nat {
    if a < b then a else b
  }

  const NAME_TAG: seq<Byte> := [0, 0, 0, 0xFC, 0]

  const UNUSED: seq<Byte> := [0, 0, 0, 0x10, 0, 0, 0, 0, 0, 0, 0, 0, 0, 0, 0, 0, 0, 0]

  function NameBytes(name: seq<Byte>): seq<Byte> {
    var n := Min(|name|, 12);
    NAME_TAG + name[..n] + [0x0A] + seq(12 - n, _ => 0x20)
  }

  // 'A' is one.
  function Ordinal(c: int): int {
    c - 0x40
  }

  // Three letters in five bits each.
  function MakerBytes(maker: seq<Byte>): seq<Byte>
    requires |maker| == 3
  {
    var i, j, k := Ordinal(maker[0]), Ordinal(maker[1]), Ordinal(maker[2]);
    [OrByte(Low(i * 4), Low(j / 8)), OrByte(Low(j % 8 * 32), Low(k))]
  }

  function DecodeMaker(b: seq<Byte>): seq<int>
    requires |b| == 2
  {
    [b[0] / 4 % 32 + 0x40, b[0] % 4 * 8 + b[1] / 32 + 0x40, b[1] % 32 + 0x40]
  }

  predicate Letters(maker: seq<Byte>) {
    |maker| == 3 && forall i | 0 <= i < 3 :: 0x41 <= maker[i] <= 0x5A
  }

  lemma MakerDecodes(maker: seq<Byte>)
    requires Letters(maker)
    ensures DecodeMaker(MakerBytes(maker)) == maker
  {
    hide MakerBytes;
    MakerPacks(maker);
    MakerSplits(Ordinal(maker[0]), Ordinal(maker[1]), Ordinal(maker[2]));
  }

  lemma MakerPacks(maker: seq<Byte>)
    requires Letters(maker)
    ensures var i, j, k, b := Ordinal(maker[0]), Ordinal(maker[1]), Ordinal(maker[2]), MakerBytes(maker);
            |b| == 2 && b[0] == 4 * i + j / 8 && b[1] == 32 * (j % 8) + k
  {
    hide Or, Power;
    var i, j, k := Ordinal(maker[0]), Ordinal(maker[1]), Ordinal(maker[2]);
    Powers();
    OrIsSum(i, j / 8, 2);
    OrIsSum(j % 8, k, 5);
  }

  lemma MakerSplits(i: nat, j: nat, k: nat)
    requires i < 32 && j < 32 && k < 32
    ensures (4 * i + j / 8) / 4 % 32 == i && (4 * i + j / 8) % 4 == j / 8
    ensures (32 * (j % 8) + k) / 32 == j % 8 && (32 * (j % 8) + k) % 32 == k
    ensures j / 8 * 8 + j % 8 == j
  {
  }

  // Everything in front of the four descriptors.
  function BaseBytes(maker: seq<Byte>, product: seq<Byte>, year: int, t: Timing): seq<Byte>
    requires |maker| == 3
  {
    HEADER + MakerBytes(maker) + product + [0, 0, 0, 0, 0, (year - 1990) % 256]
    + [1, 3, 0x80, Low(t.hActive / 64), Low(t.vActive / 64), 0x78, 0x06]
    + seq(10, _ => 0) + [Low(t.established / 256), Low(t.established), 0] + seq(16, _ => 1)
  }

  function BlockBytes(maker: seq<Byte>, product: seq<Byte>, year: int, name: seq<Byte>, t: Timing): seq<Byte>
    requires |maker| == 3
  {
    BaseBytes(maker, product, year, t) + TimingBytes(t) + NameBytes(name) + UNUSED + UNUSED + [0]
  }

  function Sum(s: seq<Byte>): nat {
    if s == [] then 0 else Sum(s[..|s| - 1]) + s[|s| - 1]
  }

  // Assign consecutive fields.
  method Store(out: array<Byte>, at: nat, bytes: seq<Byte>)
    requires at + |bytes| <= out.Length
    modifies out
    ensures out[..at + |bytes|] == old(out[..at]) + bytes
  {
    for i := 0 to |bytes|
      invariant out[..at + i] == old(out[..at]) + bytes[..i]
    {
      out[at + i] := bytes[i];
    }
  }

  method GenerateMonitorName(out: array<Byte>, at: nat, name: Text)
    requires at + 18 <= out.Length
    modifies out
    ensures out[..at + 18] == old(out[..at]) + NameBytes(name)
  {
    Store(out, at, NAME_TAG);
    ghost var front := out[..at + 5];
    var i := 0;
    while i < 12 && i < |name|
      invariant i <= 12 && i <= |name|
      invariant out[..at + 5 + i] == front + name[..i]
    {
      out[at + 5 + i] := name[i];
      i := i + 1;
    }
    assert i == Min(|name|, 12);
    ghost var line := out[..at + 5 + i];
    out[at + 5 + i] := 0x0A;
    assert out[..at + 6 + i] == line + [0x0A];
    Pad(out, at + 6 + i, 12 - i);
    assert out[..at + 18] == front + (name[..i] + [0x0A] + seq(12 - i, _ => 0x20));
  }

  method Pad(out: array<Byte>, at: nat, n: nat)
    requires at + n <= out.Length
    modifies out
    ensures out[..at + n] == old(out[..at]) + seq(n, _ => 0x20)
  {
    var i := 0;
    while i < n
      invariant i <= n && out[..at + i] == old(out[..at]) + seq(i, _ => 0x20)
    {
      out[at + i] := 0x20;
      i := i + 1;
    }
  }

  method ComputeChecksum(e: array<Byte>) returns (c: Byte)
    requires e.Length == 128
    ensures (Sum(e[..127]) + c) % 256 == 0
  {
    hide Sum;
    var sum: nat := 0;
    SumOfNothing();
    assert e[..0] == [];
    for i := 0 to 127
      invariant sum == Sum(e[..i]) % 256
    {
      SumAppend(e[..i], e[i]);
      assert e[..i + 1] == e[..i] + [e[i]];
      sum := (sum + e[i]) % 256;
    }
    c := (256 - sum) % 256;
    Complement(Sum(e[..127]));
  }

  lemma SumOfNothing()
    ensures Sum([]) == 0
  {
  }

  lemma Complement(n: nat)
    ensures (n + (256 - n % 256) % 256) % 256 == 0
  {
  }

  lemma SumAppend(s: seq<Byte>, b: Byte)
    ensures Sum(s + [b]) == Sum(s) + b
    ensures (Sum(s) % 256 + b) % 256 == (Sum(s) + b) % 256
  {
    assert (s + [b])[..|s|] == s;
  }

  method GenerateBase(out: array<Byte>, maker: seq<Byte>, product: seq<Byte>, year: int, t: Timing)
    requires out.Length == 128 && |maker| == 3 && |product| == 2
    modifies out
    ensures out[..54] == BaseBytes(maker, product, year, t)
  {
    hide Low;
    Store(out, 0, HEADER);
    Store(out, 8, MakerBytes(maker));
    Store(out, 10, product);
    Store(out, 12, [0, 0, 0, 0, 0, (year - 1990) % 256]);
    Store(out, 18, [1, 3, 0x80, Low(t.hActive / 64), Low(t.vActive / 64), 0x78, 0x06]);
    Store(out, 25, seq(10, _ => 0));
    Store(out, 35, [Low(t.established / 256), Low(t.established), 0]);
    Store(out, 38, seq(16, _ => 1));
  }

  method GenerateEdid(out: array<Byte>, maker: seq<Byte>, product: seq<Byte>, year: int, name: Text, t: Timing)
    requires out.Length == 128 && |maker| == 3 && |product| == 2
    modifies out
    ensures out[..127] == BlockBytes(maker, product, year, name, t)
    ensures Generated(out[..], maker, product, year, name, t)
  {
    hide TimingBytes, NameBytes, Sum, BaseBytes;
    GenerateBase(out, maker, product, year, t);
    DescriptorLengths(name, t);
    Store(out, 54, TimingBytes(t));
    GenerateMonitorName(out, 72, name);
    Store(out, 90, UNUSED);
    Store(out, 108, UNUSED);
    Store(out, 126, [0]);
    ghost var block := out[..127];
    var c := ComputeChecksum(out);
    out[127] := c;
    assert out[..127] == block && out[..][..127] == block;
  }

  lemma DescriptorLengths(name: seq<Byte>, t: Timing)
    ensures |TimingBytes(t)| == 18 && |NameBytes(name)| == 18
  {
  }

  // ---- Checking and reading a block ----

  ghost predicate ValidEdid(e: seq<Byte>)
    requires |e| == 128
  {
    e[..8] == HEADER && (Sum(e[..127]) + e[127]) % 256 == 0
  }

  method ValidateEdid(e: array<Byte>) returns (ok: bool)
    requires e.Length == 128
    ensures ok <==> ValidEdid(e[..])
  {
    assert e[..][..8] == e[..8] && e[..][..127] == e[..127];
    for i := 0 to 8
      invariant forall j | 0 <= j < i :: e[j] == HEADER[j]
    {
      if e[i] != HEADER[i] {
        assert e[..8][i] != HEADER[i];
        return false;
      }
    }
    assert e[..8] == HEADER;
    var c := ComputeChecksum(e);
    ok := c == e[127];
  }

  predicate IsNameDescriptor(e: seq<Byte>, n: nat)
    requires |e| == 128 && n < 4
  {
    e[54 + 18 * n] == 0 && e[55 + 18 * n] == 0 && e[56 + 18 * n] == 0 && e[57 + 18 * n] == 0xFC
  }

  // The first name descriptor at or after n, or 4.
  function FindName(e: seq<Byte>, n: nat): (r: nat)
    requires |e| == 128 && n <= 4
    decreases 4 - n
  {
    if n == 4 || IsNameDescriptor(e, n) then n else FindName(e, n + 1)
  }

  // The characters up to a newline or the terminating zero.
  function Line(s: seq<Byte>): seq<Byte> {
    if s == [] || s[0] == 0 || s[0] == 0x0A then [] else [s[0]] + Line(s[1..])
  }

  function CString(s: seq<Byte>): seq<Byte> {
    if s == [] || s[0] == 0 then [] else [s[0]] + CString(s[1..])
  }

  function MonitorName(e: seq<Byte>): seq<Byte>
    requires |e| == 128
  {
    var n := FindName(e, 0);
    if n == 4 then [] else Line(e[59 + 18 * n..72 + 18 * n])
  }

  // The lines of a C string are its prefixes: cutting at the first newline in
  // place gives the line.
  lemma {:induction false} CutAtNewline(s: seq<Byte>, k: nat)
    requires k < |s| && s[k] == 0x0A && forall i | 0 <= i < k :: s[i] != 0x0A && s[i] != 0
    ensures CString(s[k := 0]) == Line(s)
    decreases k
  {
    if k > 0 {
      assert s[k := 0][1..] == s[1..][k - 1 := 0];
      CutAtNewline(s[1..], k - 1);
    }
  }

  lemma {:induction false} NoNewlineNoCut(s: seq<Byte>, k: nat)
    requires k < |s| && s[k] == 0 && forall i | 0 <= i < k :: s[i] != 0x0A && s[i] != 0
    ensures CString(s) == Line(s)
    decreases k
  {
    if k > 0 {
      NoNewlineNoCut(s[1..], k - 1);
    }
  }

  lemma {:induction false} LinePrefix(s: seq<Byte>, r: seq<Byte>)
    requires r != [] && r[0] == 0
    ensures Line(s + r) == Line(s)
  {
    if s == [] {
      assert s + r == r;
    } else {
      assert (s + r)[1..] == s[1..] + r;
      LinePrefix(s[1..], r);
    }
  }

  // strchr and the store after it: end the string at its first newline.
  method CutLine(name: array<Byte>)
    requires name.Length >= 14 && name[13] == 0
    modifies name
    ensures CString(name[..]) == Line(old(name[..]))
  {
    ghost var s := name[..];
    var k := 0;
    while name[k] != 0x0A && name[k] != 0
      invariant k <= 13 && forall i | 0 <= i < k :: s[i] != 0x0A && s[i] != 0
      decreases 13 - k
    {
      k := k + 1;
    }
    if name[k] == 0x0A {
      CutAtNewline(s, k);
      name[k] := 0;
      assert name[..] == s[k := 0];
    } else {
      NoNewlineNoCut(s, k);
    }
  }

  // The caller's buffer ends up holding the name as a C string.
  method GetMonitorName(e: array<Byte>, name: array<Byte>)
    requires e.Length == 128 && name.Length >= 14 && e != name
    modifies name
    ensures CString(name[..]) == MonitorName(e[..])
  {
    hide Line;
    name[0] := 0;
    var n := 0;
    while n < 4 && !(e[54 + 18 * n] == 0 && e[55 + 18 * n] == 0 && e[56 + 18 * n] == 0 && e[57 + 18 * n] == 0xFC)
      invariant n <= 4 && FindName(e[..], 0) == FindName(e[..], n)
    {
      n := n + 1;
    }
    if n == 4 {
      return;
    }
    name[13] := 0;
    var at := 59 + 18 * n;
    for i := 0 to 13
      invariant name[13] == 0 && forall j | 0 <= j < i :: name[j] == e[at + j]
    {
      name[i] := e[at + i];
    }
    assert name[..] == e[..][at..at + 13] + name[13..];
    LinePrefix(e[..][at..at + 13], name[13..]);
    CutLine(name);
  }

  // ---- Round trip ----

  // The timing descriptor could be taken for a name.
  predicate MimicsName(t: Timing) {
    t.pixelClock % 0x1_0000 == 0 && t.hActive % 256 == 0 && t.hBlanking % 256 == 0xFC
  }

  lemma BlockParts(maker: seq<Byte>, product: seq<Byte>, year: int, name: seq<Byte>, t: Timing)
    requires |maker| == 3 && |product| == 2
    ensures var b := BlockBytes(maker, product, year, name, t);
            && |b| == 127 && b[..8] == HEADER && b[8..10] == MakerBytes(maker) && b[10..12] == product
            && b[54..72] == TimingBytes(t) && b[72..90] == NameBytes(name)
  {
    hide TimingBytes, NameBytes, OrByte, Low;
    DescriptorLengths(name, t);
    var base := BaseBytes(maker, product, year, t);
    assert |base| == 54 && base[..8] == HEADER && base[8..10] == MakerBytes(maker) && base[10..12] == product;
  }

  // What a reader finds in the rest of a block: year, version 1.3, digital
  // input, the image sizes in tens of the descriptor's unit, the established
  // timings, no standard timings, two dummy descriptors and no extension.
  ghost predicate BaseReads(e: seq<Byte>, year: int, t: Timing)
    requires |e| == 128
  {
    && (1990 <= year < 2246 ==> e[17] == year - 1990)
    && e[12..17] == [0, 0, 0, 0, 0] && e[18] == 1 && e[19] == 3 && e[20] / 128 == 1
    && (t.hActive < 4096 ==> e[21] == 10 * t.hActive / 64 / 10)
    && (t.vActive < 4096 ==> e[22] == 10 * t.vActive / 64 / 10)
    && Wide(e[36], e[35]) == t.established % 0x1_0000
    && (forall i | 38 <= i < 54 :: e[i] == 1)
    && e[90..94] == [0, 0, 0, 0x10] && e[108..112] == [0, 0, 0, 0x10] && e[126] == 0
  }

  lemma BaseDecodes(e: seq<Byte>, maker: seq<Byte>, product: seq<Byte>, year: int, name: seq<Byte>, t: Timing)
    requires |e| == 128 && |maker| == 3 && |product| == 2 && Generated(e, maker, product, year, name, t)
    ensures BaseReads(e, year, t)
  {
    hide Generated, BaseBytes, MakerBytes;
    BlockPlaces(e, maker, product, year, name, t);
    BaseFields(maker, product, year, t);
    var base := BaseBytes(maker, product, year, t);
    assert e[12..17] == e[..54][12..17] && e[18..25] == e[..54][18..25];
    assert e[18] == e[18..25][0] && e[19] == e[18..25][1] && e[20] == e[18..25][2];
    assert e[21] == e[18..25][3] && e[22] == e[18..25][4];
    assert forall i | 0 <= i < 54 :: e[i] == e[..54][i];
  }

  lemma BlockPlaces(e: seq<Byte>, maker: seq<Byte>, product: seq<Byte>, year: int, name: seq<Byte>, t: Timing)
    requires |e| == 128 && |maker| == 3 && |product| == 2 && Generated(e, maker, product, year, name, t)
    ensures e[..54] == BaseBytes(maker, product, year, t) && |BaseBytes(maker, product, year, t)| == 54
    ensures e[90..94] == [0, 0, 0, 0x10] && e[108..112] == [0, 0, 0, 0x10] && e[126] == 0
  {
    hide Sum, TimingBytes, NameBytes, BaseBytes;
    DescriptorLengths(name, t);
    BaseFields(maker, product, year, t);
    var w := e[..127];
    assert w == BaseBytes(maker, product, year, t) + (TimingBytes(t) + NameBytes(name)) + (UNUSED + UNUSED + [0]);
    assert w[90..94] == UNUSED[..4] && w[108..112] == UNUSED[..4];
    assert e[..54] == w[..54] && e[90..94] == w[90..94] && e[108..112] == w[108..112] && e[126] == w[126];
  }

  lemma BaseFields(maker: seq<Byte>, product: seq<Byte>, year: int, t: Timing)
    requires |maker| == 3 && |product| == 2
    ensures var b := BaseBytes(maker, product, year, t);
            && |b| == 54 && b[12..17] == [0, 0, 0, 0, 0] && b[17] == (year - 1990) % 256
            && b[18..25] == [1, 3, 0x80, Low(t.hActive / 64), Low(t.vActive / 64), 0x78, 0x06]
            && b[35] == Low(t.established / 256) && b[36] == Low(t.established)
            && forall i | 38 <= i < 54 :: b[i] == 1
  {
    hide MakerBytes, Low;
    MakerLength(maker);
    var b := BaseBytes(maker, product, year, t);
    var v: seq<Byte> := [1, 3, 0x80, Low(t.hActive / 64), Low(t.vActive / 64), 0x78, 0x06];
    assert |HEADER + MakerBytes(maker) + product| == 12;
    assert b[18..25] == v;
  }

  lemma MakerLength(maker: seq<Byte>)
    requires |maker| == 3
    ensures |MakerBytes(maker)| == 2
  {
  }

  ghost predicate SingleLine(name: Text) {
    forall i | 0 <= i < |name| :: name[i] != 0x0A
  }

  lemma {:induction false} LineOfName(name: Text, r: seq<Byte>)
    requires SingleLine(name) && r != [] && r[0] == 0x0A
    ensures Line(name + r) == name
  {
    if name == [] {
      assert name + r == r;
    } else {
      assert (name + r)[1..] == name[1..] + r;
      LineOfName(name[1..], r);
    }
  }

  // What GenerateEdid leaves in the buffer.
  ghost predicate Generated(e: seq<Byte>, maker: seq<Byte>, product: seq<Byte>, year: int, name: seq<Byte>, t: Timing)
    requires |maker| == 3
  {
    |e| == 128 && (Sum(e[..127]) + e[127]) % 256 == 0 && e[..127] == BlockBytes(maker, product, year, name, t)
  }

  lemma GeneratedParts(e: seq<Byte>, maker: seq<Byte>, product: seq<Byte>, year: int, name: seq<Byte>, t: Timing)
    requires |maker| == 3 && |product| == 2 && Generated(e, maker, product, year, name, t)
    ensures |e| == 128 && ValidEdid(e) && e[8..10] == MakerBytes(maker) && e[10..12] == product
    ensures e[54..72] == TimingBytes(t) && e[72..90] == NameBytes(name)
  {
    hide Sum, TimingBytes, NameBytes, BlockBytes, MakerBytes;
    BlockParts(maker, product, year, name, t);
    assert e[..8] == e[..127][..8] && e[8..10] == e[..127][8..10] && e[10..12] == e[..127][10..12];
    assert e[54..72] == e[..127][54..72] && e[72..90] == e[..127][72..90];
  }

  lemma NameIsSecond(e: seq<Byte>, name: seq<Byte>, t: Timing)
    requires |e| == 128 && e[54..72] == TimingBytes(t) && e[72..90] == NameBytes(name)
    ensures FindName(e, 0) == 1 <==> !MimicsName(t)
  {
    hide Pack, OrByte, ImageSize;
    var tb, nb := e[54..72], e[72..90];
    assert e[54] == tb[0] && e[55] == tb[1] && e[56] == tb[2] && e[57] == tb[3];
    assert e[72] == nb[0] && e[73] == nb[1] && e[74] == nb[2] && e[75] == nb[3];
    assert IsNameDescriptor(e, 1);
    assert IsNameDescriptor(e, 0) <==> MimicsName(t);
  }

  // Any generated block validates. Its name is found in the second descriptor
  // if and only if the timing does not look like a name itself, and then reads
  // back as the first twelve characters. Three letters of a maker come back too.
  lemma GeneratedBlockReadsBack(e: seq<Byte>, maker: seq<Byte>, product: seq<Byte>, year: int, name: Text, t: Timing)
    requires |maker| == 3 && |product| == 2 && Generated(e, maker, product, year, name, t)
    ensures |e| == 128 && ValidEdid(e) && e[54..72] == TimingBytes(t) && e[10..12] == product
    ensures Letters(maker) ==> DecodeMaker(e[8..10]) == maker
    ensures FindName(e, 0) == 1 <==> !MimicsName(t)
    ensures !MimicsName(t) && SingleLine(name) ==> MonitorName(e) == name[..Min(|name|, 12)]
  {
    hide Sum, TimingBytes, Line, FindName, Generated, MakerBytes, DecodeMaker;
    GeneratedParts(e, maker, product, year, name, t);
    NameIsSecond(e, name, t);
    if Letters(maker) {
      MakerDecodes(maker);
    }
    if !MimicsName(t) && SingleLine(name) {
      var n := Min(|name|, 12);
      var r := [0x0A] + seq(12 - n, _ => 0x20);
      assert e[77..90] == e[72..90][5..] == name[..n] + r;
      LineOfName(name[..n], r);
    }
  }
}
