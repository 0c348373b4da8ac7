// The firmware table that gives the delay controller its bit time
// (firmware/hdmi_in0.c, hdmi_in0_compute_auto_bt_val).
module BitTime {

  // The three reference clocks the firmware knows, and the tap length in
  // picoseconds it uses with each.
  datatype Reference = MHz200 | MHz300 | MHz400

  function TapLength(f: Reference): nat {
    match f
    case MHz200 => 78
    case MHz300 => 52
    case MHz400 => 39
  }

  // The lowest bit rate, in Mbit/s, whose bit the answer still spans.
  function MinRate(f: Reference): nat {
    match f
    case MHz200 => 414
    case MHz300 => 621
    case MHz400 => 1283
  }

  // The highest bit rate, in Mbit/s, the answer is still tight for.
  function MaxRate(f: Reference): nat {
    match f
    case MHz200 => 2564
    case MHz300 => 2403
    case MHz400 => 1424
  }

  // Between these rates the answer follows the rate; above and below it stands
  // at the shortest and at the longest bit time.
  function Slowest(f: Reference): nat {
    match f case MHz200 => 435 case MHz300 => 652 case MHz400 => 0
  }

  function Fastest(f: Reference): nat {
    match f case MHz200 => 1984 case MHz300 => 2030 case MHz400 => 0
  }

  // The table answers with a tap count that spans one bit if and only if the
  // rate is at least MinRate, and that exceeds one bit by at most two taps if and
  // only if it is at most MaxRate. In between the excess is about one tap. It
  // chooses del_mech exactly up to 21 taps.
  method ComputeAutoBtVal(f: Reference, bitRate: int) returns (btVal: nat, delMech: bool)
    ensures 7 <= btVal <= 31
    ensures delMech <==> btVal <= 21
    ensures Slowest(f) < bitRate <= Fastest(f) ==>
              (25 * btVal - 13) * TapLength(f) * bitRate > 25_000_000 && (50 * btVal - 77) * TapLength(f) * bitRate < 50_000_000
    ensures f != MHz400 ==> (bitRate > Fastest(f) <==> btVal == if f == MHz200 then 7 else 10)
    ensures f != MHz400 ==> (bitRate <= Slowest(f) <==> btVal == 31)
    ensures bitRate >= MinRate(f) <==> btVal * TapLength(f) * bitRate >= 1_000_000
    ensures bitRate <= MaxRate(f) <==> (btVal - 2) * TapLength(f) * bitRate < 1_000_000
  {
    match f
    case MHz200 =>
      if bitRate > 1984 {
        btVal, delMech := 0x07, true;
      } else if bitRate > 1717 {
        btVal, delMech := 0x08, true;
      } else if bitRate > 1514 {
        btVal, delMech := 0x09, true;
      } else if bitRate > 1353 {
        btVal, delMech := 0x0A, true;
      } else if bitRate > 1224 {
        btVal, delMech := 0x0B, true;
      } else if bitRate > 1117 {
        btVal, delMech := 0x0C, true;
      } else if bitRate > 1027 {
        btVal, delMech := 0x0D, true;
      } else if bitRate > 951 {
        btVal, delMech := 0x0E, true;
      } else if bitRate > 885 {
        btVal, delMech := 0x0F, true;
      } else if bitRate > 828 {
        btVal, delMech := 0x10, true;
      } else if bitRate > 778 {
        btVal, delMech := 0x11, true;
      } else if bitRate > 733 {
        btVal, delMech := 0x12, true;
      } else if bitRate > 694 {
        btVal, delMech := 0x13, true;
      } else if bitRate > 658 {
        btVal, delMech := 0x14, true;
      } else if bitRate > 626 {
        btVal, delMech := 0x15, true;
      } else if bitRate > 597 {
        btVal, delMech := 0x16, false;
      } else if bitRate > 570 {
        btVal, delMech := 0x17, false;
      } else if bitRate > 546 {
        btVal, delMech := 0x18, false;
      } else if bitRate > 524 {
        btVal, delMech := 0x19, false;
      } else if bitRate > 503 {
        btVal, delMech := 0x1A, false;
      } else if bitRate > 484 {
        btVal, delMech := 0x1B, false;
      } else if bitRate > 466 {
        btVal, delMech := 0x1C, false;
      } else if bitRate > 450 {
        btVal, delMech := 0x1D, false;
      } else if bitRate > 435 {
        btVal, delMech := 0x1E, false;
      } else {
        btVal, delMech := 0x1F, false;
      }
    case MHz300 =>
      if bitRate > 2030 {
        btVal, delMech := 0x0A, true;
      } else if bitRate > 1836 {
        btVal, delMech := 0x0B, true;
      } else if bitRate > 1675 {
        btVal, delMech := 0x0C, true;
      } else if bitRate > 1541 {
        btVal, delMech := 0x0D, true;
      } else if bitRate > 1426 {
        btVal, delMech := 0x0E, true;
      } else if bitRate > 1328 {
        btVal, delMech := 0x0F, true;
      } else if bitRate > 1242 {
        btVal, delMech := 0x10, true;
      } else if bitRate > 1167 {
        btVal, delMech := 0x11, true;
      } else if bitRate > 1100 {
        btVal, delMech := 0x12, true;
      } else if bitRate > 1040 {
        btVal, delMech := 0x13, true;
      } else if bitRate > 987 {
        btVal, delMech := 0x14, true;
      } else if bitRate > 939 {
        btVal, delMech := 0x15, true;
      } else if bitRate > 895 {
        btVal, delMech := 0x16, false;
      } else if bitRate > 855 {
        btVal, delMech := 0x17, false;
      } else if bitRate > 819 {
        btVal, delMech := 0x18, false;
      } else if bitRate > 785 {
        btVal, delMech := 0x19, false;
      } else if bitRate > 754 {
        btVal, delMech := 0x1A, false;
      } else if bitRate > 726 {
        btVal, delMech := 0x1B, false;
      } else if bitRate > 700 {
        btVal, delMech := 0x1C, false;
      } else if bitRate > 675 {
        btVal, delMech := 0x1D, false;
      } else if bitRate > 652 {
        btVal, delMech := 0x1E, false;
      } else {
        btVal, delMech := 0x1F, false;
      }
    case MHz400 =>
      btVal, delMech := 673 / TapLength(f) + 3, true;
  }
}
