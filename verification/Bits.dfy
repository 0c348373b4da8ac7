// Hardware words and the two invertible pieces of a cipher round: the 7-bit
// linear network of overlay/diff_network.v and the 4-bit substitution boxes
// of overlay/hdcp_block.v.
module Bits {

  // A word of wires, least significant first.
  type Bits = seq<bv1>

  function Zeros(n: nat): Bits {
    seq(n, _ => 0)
  }

  type Word24 = w: Bits | |w| == 24 witness Zeros(24)
  type Word28 = w: Bits | |w| == 28 witness Zeros(28)
  type Word56 = w: Bits | |w| == 56 witness Zeros(56)
  type Word64 = w: Bits | |w| == 64 witness Zeros(64)
  type Word84 = w: Bits | |w| == 84 witness Zeros(84)

  function Parity(s: Bits): bv1 {
    if s == [] then 0 else s[0] ^ Parity(s[1..])
  }

  lemma {:induction false} ParityFlip(s: Bits, n: nat, b: bv1)
    requires n < |s|
    ensures Parity(s[n := b]) == Parity(s) ^ s[n] ^ b
  {
    if n == 0 {
      assert s[0 := b][1..] == s[1..];
    } else {
      assert s[n := b][1..] == s[1..][n - 1 := b];
      ParityFlip(s[1..], n - 1, b);
    }
  }

  lemma {:induction false} ParityAppend(s: Bits, b: bv1)
    ensures Parity(s + [b]) == Parity(s) ^ b
  {
    if s == [] {
      assert s + [b] == [b] && [b][1..] == [];
    } else {
      assert (s + [b])[1..] == s[1..] + [b];
      ParityAppend(s[1..], b);
    }
  }
}

module DiffNetwork {
  import opened Bits

  // Outputs 0 to 5 each leave out the input of their own number; output 6
  // takes all seven inputs.
  function Diffuse(i: Bits, k: Bits): (o: Bits)
    requires |i| == 7 && |k| == 7
    ensures |o| == 7
  {
    seq(7, n requires 0 <= n < 7 => k[n] ^ Parity(if n < 6 then i[n := 0] else i))
  }

  function Undiffuse(o: Bits, k: Bits): (i: Bits)
    requires |o| == 7 && |k| == 7
    ensures |i| == 7
  {
    var p := o[6] ^ k[6];
    var u := seq(6, n requires 0 <= n < 6 => p ^ o[n] ^ k[n]);
    u + [p ^ Parity(u)]
  }

  lemma UndiffuseUndoes(i: Bits, k: Bits)
    requires |i| == 7 && |k| == 7
    ensures Undiffuse(Diffuse(i, k), k) == i
  {
    var o := Diffuse(i, k);
    var u := Undiffuse(o, k);
    assert o[6] ^ k[6] == Parity(i);
    forall n | 0 <= n < 6
      ensures u[n] == i[n]
    {
      ParityFlip(i, n, 0);
    }
    assert u[..6] == i[..6];
    ParityAppend(i[..6], i[6]);
    assert i[..6] + [i[6]] == i;
  }

  lemma DiffuseUndoes(o: Bits, k: Bits)
    requires |o| == 7 && |k| == 7
    ensures Diffuse(Undiffuse(o, k), k) == o
  {
    var u := Undiffuse(o, k);
    ParityAppend(u[..6], u[6]);
    assert u[..6] + [u[6]] == u;
    assert Parity(u) == o[6] ^ k[6];
    forall n | 0 <= n < 6
      ensures Diffuse(u, k)[n] == o[n]
    {
      ParityFlip(u, n, 0);
    }
  }
}

// The fourteen substitution boxes: column c of the B and of the K register.
module Sbox {
  import opened Bits

  function BoxB(c: nat, v: bv4): bv4 {
    if c == 0 then (
      match v
      case 0 => 12 case 1 => 9 case 2 => 3 case 3 => 0 case 4 => 11 case 5 => 5 case 6 => 13 case 7 => 6
      case 8 => 2 case 9 => 4 case 10 => 14 case 11 => 7 case 12 => 8 case 13 => 15 case 14 => 1 case _ => 10
    ) else if c == 1 then (
      match v
      case 0 => 3 case 1 => 8 case 2 => 14 case 3 => 1 case 4 => 5 case 5 => 2 case 6 => 11 case 7 => 13
      case 8 => 10 case 9 => 4 case 10 => 9 case 11 => 7 case 12 => 6 case 13 => 15 case 14 => 12 case _ => 0
    ) else if c == 2 then (
      match v
      case 0 => 7 case 1 => 4 case 2 => 1 case 3 => 10 case 4 => 11 case 5 => 13 case 6 => 14 case 7 => 3
      case 8 => 12 case 9 => 15 case 10 => 6 case 11 => 0 case 12 => 2 case 13 => 8 case 14 => 9 case _ => 5
    ) else if c == 3 then (
      match v
      case 0 => 6 case 1 => 3 case 2 => 1 case 3 => 4 case 4 => 10 case 5 => 12 case 6 => 15 case 7 => 2
      case 8 => 5 case 9 => 14 case 10 => 11 case 11 => 8 case 12 => 9 case 13 => 7 case 14 => 0 case _ => 13
    ) else if c == 4 then (
      match v
      case 0 => 3 case 1 => 6 case 2 => 15 case 3 => 12 case 4 => 4 case 5 => 1 case 6 => 9 case 7 => 2
      case 8 => 5 case 9 => 8 case 10 => 10 case 11 => 7 case 12 => 11 case 13 => 13 case 14 => 0 case _ => 14
    ) else if c == 5 then (
      match v
      case 0 => 11 case 1 => 14 case 2 => 6 case 3 => 8 case 4 => 5 case 5 => 2 case 6 => 12 case 7 => 7
      case 8 => 1 case 9 => 4 case 10 => 15 case 11 => 3 case 12 => 10 case 13 => 13 case 14 => 9 case _ => 0
    ) else (
      match v
      case 0 => 1 case 1 => 11 case 2 => 7 case 3 => 4 case 4 => 2 case 5 => 5 case 6 => 12 case 7 => 9
      case 8 => 13 case 9 => 6 case 10 => 8 case 11 => 15 case 12 => 14 case 13 => 0 case 14 => 3 case _ => 10
    )
  }

  function BoxK(c: nat, v: bv4): bv4 {
    if c == 0 then (
      match v
      case 0 => 8 case 1 => 14 case 2 => 5 case 3 => 9 case 4 => 3 case 5 => 0 case 6 => 12 case 7 => 6
      case 8 => 1 case 9 => 11 case 10 => 15 case 11 => 2 case 12 => 4 case 13 => 7 case 14 => 10 case _ => 13
    ) else if c == 1 then (
      match v
      case 0 => 1 case 1 => 6 case 2 => 4 case 3 => 15 case 4 => 8 case 5 => 3 case 6 => 11 case 7 => 5
      case 8 => 10 case 9 => 0 case 10 => 9 case 11 => 12 case 12 => 7 case 13 => 13 case 14 => 14 case _ => 2
    ) else if c == 2 then (
      match v
      case 0 => 13 case 1 => 11 case 2 => 8 case 3 => 6 case 4 => 7 case 5 => 4 case 6 => 2 case 7 => 15
      case 8 => 1 case 9 => 12 case 10 => 14 case 11 => 0 case 12 => 10 case 13 => 3 case 14 => 9 case _ => 5
    ) else if c == 3 then (
      match v
      case 0 => 0 case 1 => 14 case 2 => 11 case 3 => 7 case 4 => 12 case 5 => 3 case 6 => 2 case 7 => 13
      case 8 => 15 case 9 => 4 case 10 => 8 case 11 => 1 case 12 => 9 case 13 => 10 case 14 => 5 case _ => 6
    ) else if c == 4 then (
      match v
      case 0 => 12 case 1 => 7 case 2 => 15 case 3 => 8 case 4 => 11 case 5 => 14 case 6 => 1 case 7 => 4
      case 8 => 6 case 9 => 10 case 10 => 3 case 11 => 5 case 12 => 0 case 13 => 9 case 14 => 13 case _ => 2
    ) else if c == 5 then (
      match v
      case 0 => 1 case 1 => 12 case 2 => 7 case 3 => 2 case 4 => 8 case 5 => 3 case 6 => 4 case 7 => 14
      case 8 => 11 case 9 => 5 case 10 => 0 case 11 => 15 case 12 => 13 case 13 => 6 case 14 => 10 case _ => 9
    ) else (
      match v
      case 0 => 10 case 1 => 7 case 2 => 6 case 3 => 1 case 4 => 0 case 5 => 14 case 6 => 3 case 7 => 13
      case 8 => 12 case 9 => 9 case 10 => 11 case 11 => 2 case 12 => 15 case 13 => 5 case 14 => 4 case _ => 8
    )
  }

  function UnboxB(c: nat, v: bv4): bv4 {
    if c == 0 then (
      match v
      case 0 => 3 case 1 => 14 case 2 => 8 case 3 => 2 case 4 => 9 case 5 => 5 case 6 => 7 case 7 => 11
      case 8 => 12 case 9 => 1 case 10 => 15 case 11 => 4 case 12 => 0 case 13 => 6 case 14 => 10 case _ => 13
    ) else if c == 1 then (
      match v
      case 0 => 15 case 1 => 3 case 2 => 5 case 3 => 0 case 4 => 9 case 5 => 4 case 6 => 12 case 7 => 11
      case 8 => 1 case 9 => 10 case 10 => 8 case 11 => 6 case 12 => 14 case 13 => 7 case 14 => 2 case _ => 13
    ) else if c == 2 then (
      match v
      case 0 => 11 case 1 => 2 case 2 => 12 case 3 => 7 case 4 => 1 case 5 => 15 case 6 => 10 case 7 => 0
      case 8 => 13 case 9 => 14 case 10 => 3 case 11 => 4 case 12 => 8 case 13 => 5 case 14 => 6 case _ => 9
    ) else if c == 3 then (
      match v
      case 0 => 14 case 1 => 2 case 2 => 7 case 3 => 1 case 4 => 3 case 5 => 8 case 6 => 0 case 7 => 13
      case 8 => 11 case 9 => 12 case 10 => 4 case 11 => 10 case 12 => 5 case 13 => 15 case 14 => 9 case _ => 6
    ) else if c == 4 then (
      match v
      case 0 => 14 case 1 => 5 case 2 => 7 case 3 => 0 case 4 => 4 case 5 => 8 case 6 => 1 case 7 => 11
      case 8 => 9 case 9 => 6 case 10 => 10 case 11 => 12 case 12 => 3 case 13 => 13 case 14 => 15 case _ => 2
    ) else if c == 5 then (
      match v
      case 0 => 15 case 1 => 8 case 2 => 5 case 3 => 11 case 4 => 9 case 5 => 4 case 6 => 2 case 7 => 7
      case 8 => 3 case 9 => 14 case 10 => 12 case 11 => 0 case 12 => 6 case 13 => 13 case 14 => 1 case _ => 10
    ) else (
      match v
      case 0 => 13 case 1 => 0 case 2 => 4 case 3 => 14 case 4 => 3 case 5 => 5 case 6 => 9 case 7 => 2
      case 8 => 10 case 9 => 7 case 10 => 15 case 11 => 1 case 12 => 6 case 13 => 8 case 14 => 12 case _ => 11
    )
  }

  function UnboxK(c: nat, v: bv4): bv4 {
    if c == 0 then (
      match v
      case 0 => 5 case 1 => 8 case 2 => 11 case 3 => 4 case 4 => 12 case 5 => 2 case 6 => 7 case 7 => 13
      case 8 => 0 case 9 => 3 case 10 => 14 case 11 => 9 case 12 => 6 case 13 => 15 case 14 => 1 case _ => 10
    ) else if c == 1 then (
      match v
      case 0 => 9 case 1 => 0 case 2 => 15 case 3 => 5 case 4 => 2 case 5 => 7 case 6 => 1 case 7 => 12
      case 8 => 4 case 9 => 10 case 10 => 8 case 11 => 6 case 12 => 11 case 13 => 13 case 14 => 14 case _ => 3
    ) else if c == 2 then (
      match v
      case 0 => 11 case 1 => 8 case 2 => 6 case 3 => 13 case 4 => 5 case 5 => 15 case 6 => 3 case 7 => 4
      case 8 => 2 case 9 => 14 case 10 => 12 case 11 => 1 case 12 => 9 case 13 => 0 case 14 => 10 case _ => 7
    ) else if c == 3 then (
      match v
      case 0 => 0 case 1 => 11 case 2 => 6 case 3 => 5 case 4 => 9 case 5 => 14 case 6 => 15 case 7 => 3
      case 8 => 10 case 9 => 12 case 10 => 13 case 11 => 2 case 12 => 4 case 13 => 7 case 14 => 1 case _ => 8
    ) else if c == 4 then (
      match v
      case 0 => 12 case 1 => 6 case 2 => 15 case 3 => 10 case 4 => 7 case 5 => 11 case 6 => 8 case 7 => 1
      case 8 => 3 case 9 => 13 case 10 => 9 case 11 => 4 case 12 => 0 case 13 => 14 case 14 => 5 case _ => 2
    ) else if c == 5 then (
      match v
      case 0 => 10 case 1 => 0 case 2 => 3 case 3 => 5 case 4 => 6 case 5 => 9 case 6 => 13 case 7 => 2
      case 8 => 4 case 9 => 15 case 10 => 14 case 11 => 8 case 12 => 1 case 13 => 12 case 14 => 7 case _ => 11
    ) else (
      match v
      case 0 => 4 case 1 => 3 case 2 => 11 case 3 => 6 case 4 => 14 case 5 => 13 case 6 => 2 case 7 => 1
      case 8 => 15 case 9 => 9 case 10 => 0 case 11 => 10 case 12 => 8 case 13 => 7 case 14 => 5 case _ => 12
    )
  }

  lemma UnboxBUndoes(c: nat, v: bv4)
    ensures UnboxB(c, BoxB(c, v)) == v && BoxB(c, UnboxB(c, v)) == v
  {
    if c == 0 {} else if c == 1 {} else if c == 2 {} else if c == 3 {} else if c == 4 {} else if c == 5 {} else {}
  }

  lemma UnboxKUndoes(c: nat, v: bv4)
    ensures UnboxK(c, BoxK(c, v)) == v && BoxK(c, UnboxK(c, v)) == v
  {
    if c == 0 {} else if c == 1 {} else if c == 2 {} else if c == 3 {} else if c == 4 {} else if c == 5 {} else {}
  }

  function Pack(i: Bits): bv4
    requires |i| == 4
  {
    (i[3] as bv4 << 3) | (i[2] as bv4 << 2) | (i[1] as bv4 << 1) | (i[0] as bv4)
  }

  function Unpack(v: bv4): (i: Bits)
    ensures |i| == 4
  {
    [(v & 1) as bv1, ((v >> 1) & 1) as bv1, ((v >> 2) & 1) as bv1, (v >> 3) as bv1]
  }

  lemma PackUnpack(v: bv4, i: Bits)
    requires |i| == 4
    ensures Pack(Unpack(v)) == v && Unpack(Pack(i)) == i
  {
  }
}
