/** The SCALE codec, as far as contract calls need it: fixed-width and compact integers. */
module Scale {
  import opened Outcomes
  import opened Saturating

  type Bytes = seq<uint8>

  /** What a decoder hands on: the value read and the bytes after it. */
  datatype Decoded<+T> = Decoded(value: T, rest: Bytes)

  function Pow256(n: nat): nat {
    if n == 0 then 1 else 256 * Pow256(n - 1)
  }

  /** The low `n` bytes of `x`, least significant first. */
  function LittleEndian(x: nat, n: nat): Bytes {
    if n == 0 then [] else [x % 256] + LittleEndian(x / 256, n - 1)
  }

  function FromLittleEndian(b: Bytes): nat {
    if b == [] then 0 else b[0] + 256 * FromLittleEndian(b[1..])
  }

  lemma {:induction false} LittleEndianLength(x: nat, n: nat)
    ensures |LittleEndian(x, n)| == n
  {
    if n > 0 { LittleEndianLength(x / 256, n - 1); }
  }

  lemma {:induction false} LittleEndianRoundTrip(x: nat, n: nat)
    requires x < Pow256(n)
    ensures FromLittleEndian(LittleEndian(x, n)) == x
  {
    if n > 0 {
      LittleEndianRoundTrip(x / 256, n - 1);
      var b := LittleEndian(x, n);
      assert b[1..] == LittleEndian(x / 256, n - 1);
    }
  }

  /** Read `n` bytes as a number. */
  function DecodeFixed(b: Bytes, n: nat): Option<Decoded<nat>> {
    if |b| < n then None else Some(Decoded(FromLittleEndian(b[..n]), b[n..]))
  }

  lemma {:induction false} FixedRoundTrip(x: nat, n: nat, rest: Bytes)
    requires x < Pow256(n)
    ensures DecodeFixed(LittleEndian(x, n) + rest, n) == Some(Decoded(x, rest))
  {
    LittleEndianLength(x, n);
    LittleEndianRoundTrip(x, n);
    var b := LittleEndian(x, n) + rest;
    assert b[..n] == LittleEndian(x, n);
    assert b[n..] == rest;
  }

  // ---------- compact integers ----------

  /** The least number of bytes that hold `x`. */
  function ByteLength(x: nat): (n: nat)
    ensures n >= 1 && x < Pow256(n) && (n == 1 || Pow256(n - 1) <= x)
  {
    if x < 256 then 1 else 1 + ByteLength(x / 256)
  }

  /** Bytes of the big-integer mode: as few as hold `x`, but at least four. */
  function BigWidth(x: nat): (w: nat)
    ensures w >= 4 && x < Pow256(w) && (w == 4 || Pow256(w - 1) <= x)
  {
    var n := ByteLength(x);
    if n < 4 then PowMonotone(n, 4); 4 else n
  }

  function Compact(x: uint128): Bytes {
    if x < 0x40 then [4 * x]
    else if x < 0x4000 then LittleEndian(4 * x + 1, 2)
    else if x < 0x4000_0000 then LittleEndian(4 * x + 2, 4)
    else
      WidestFits(x);
      BigForm(x, BigWidth(x))
  }

  function BigForm(x: nat, width: nat): Bytes
    requires 4 <= width <= 16
  {
    [4 * (width - 4) + 3] + LittleEndian(x, width)
  }

  /** Read a compact integer of a type `width` bytes wide; a longer form than needed is refused. */
  function DecodeCompact(b: Bytes, width: nat): Option<Decoded<nat>>
    requires 4 <= width
  {
    if b == [] then None
    else if b[0] % 4 == 0 then Some(Decoded(b[0] / 4, b[1..]))
    else if b[0] % 4 == 1 then Narrow(DecodeFixed(b, 2), 0x40)
    else if b[0] % 4 == 2 then Narrow(DecodeFixed(b, 4), 0x4000)
    else
      var w := b[0] / 4 + 4;
      if w > width then None
      else
        match DecodeFixed(b[1..], w)
        case None => None
        case Some(d) => if d.value < (if w == 4 then 0x4000_0000 else Pow256(w - 1)) then None else Some(d)
  }

  /** Drop the mode bits of a two- or four-byte form; values below `least` have a shorter form. */
  function Narrow(d: Option<Decoded<nat>>, least: nat): Option<Decoded<nat>> {
    if d.None? || d.value.value / 4 < least then None
    else Some(Decoded(d.value.value / 4, d.value.rest))
  }

  lemma Powers()
    ensures Pow256(1) == 0x100 && Pow256(2) == 0x1_0000 && Pow256(4) == 0x1_0000_0000
    ensures Pow256(8) == U64_MAX + 1 && Pow256(16) == U128_MAX + 1
  {
    assert Pow256(3) == 256 * Pow256(2);
    assert Pow256(5) == 256 * Pow256(4);
    assert Pow256(6) == 256 * Pow256(5);
    assert Pow256(7) == 256 * Pow256(6);
    assert Pow256(9) == 256 * Pow256(8);
    assert Pow256(10) == 256 * Pow256(9);
    assert Pow256(11) == 256 * Pow256(10);
    assert Pow256(12) == 256 * Pow256(11);
    assert Pow256(13) == 256 * Pow256(12);
    assert Pow256(14) == 256 * Pow256(13);
    assert Pow256(15) == 256 * Pow256(14);
  }

  lemma {:induction false} PowMonotone(a: nat, b: nat)
    requires a <= b
    ensures Pow256(a) <= Pow256(b)
  {
    if a < b { PowMonotone(a, b - 1); }
  }

  lemma LowBits(y: nat)
    ensures y % 256 % 4 == y % 4
  {
    var q, r := y / 256, y % 256;
    assert y == 4 * (64 * q + r / 4) + r % 4;
  }

  /** The low two bits of a compact number's first byte say how long it is. */
  lemma {:induction false} ModeBits(y: nat, n: nat, rest: Bytes)
    requires n > 0
    ensures var b := LittleEndian(y, n) + rest; |b| >= n && b[0] == y % 256 && b[0] % 4 == y % 4
  {
    LittleEndianLength(y, n);
    LowBits(y);
    assert LittleEndian(y, n)[0] == y % 256;
  }

  lemma {:induction false} BigWidthFits(x: nat, width: nat)
    requires 4 <= width && x < Pow256(width)
    ensures BigWidth(x) <= width
  {
    var w := BigWidth(x);
    if w > width { PowMonotone(width, w - 1); }
  }

  lemma WidestFits(x: uint128)
    ensures BigWidth(x) <= 16
  {
    Powers();
    BigWidthFits(x, 16);
  }

  lemma {:induction false} BigFormRoundTrip(x: nat, w: nat, width: nat, rest: Bytes)
    requires 4 <= w <= width && 0x4000_0000 <= x < Pow256(w) && (w == 4 || Pow256(w - 1) <= x) && w <= 16
    ensures DecodeCompact(BigForm(x, w) + rest, width) == Some(Decoded(x, rest))
  {
    FixedRoundTrip(x, w, rest);
    var head: uint8 := 4 * (w - 4) + 3;
    var b := BigForm(x, w) + rest;
    assert b[1..] == LittleEndian(x, w) + rest;
    assert head % 4 == 3 && head / 4 + 4 == w;
  }

  lemma {:induction false} OneByteRoundTrip(x: uint128, width: nat, rest: Bytes)
    requires 4 <= width && x < 0x40
    ensures DecodeCompact(Compact(x) + rest, width) == Some(Decoded(x, rest))
  {
    var b := [4 * x] + rest;
    assert b[0] == 4 * x && b[1..] == rest;
  }

  lemma {:induction false} TwoByteRoundTrip(x: uint128, width: nat, rest: Bytes)
    requires 4 <= width && 0x40 <= x < 0x4000
    ensures DecodeCompact(Compact(x) + rest, width) == Some(Decoded(x, rest))
  {
    hide LittleEndian, Pow256, DecodeFixed;
    Powers();
    ModeBits(4 * x + 1, 2, rest);
    FixedRoundTrip(4 * x + 1, 2, rest);
  }

  lemma {:induction false} FourByteRoundTrip(x: uint128, width: nat, rest: Bytes)
    requires 4 <= width && 0x4000 <= x < 0x4000_0000
    ensures DecodeCompact(Compact(x) + rest, width) == Some(Decoded(x, rest))
  {
    hide LittleEndian, Pow256, DecodeFixed;
    Powers();
    ModeBits(4 * x + 2, 4, rest);
    FixedRoundTrip(4 * x + 2, 4, rest);
  }

  lemma {:induction false} BigRoundTrip(x: uint128, width: nat, rest: Bytes)
    requires 4 <= width <= 16 && 0x4000_0000 <= x < Pow256(width)
    ensures DecodeCompact(Compact(x) + rest, width) == Some(Decoded(x, rest))
  {
    hide DecodeCompact, ByteLength, Pow256, LittleEndian;
    WidestFits(x);
    BigWidthFits(x, width);
    BigFormRoundTrip(x, BigWidth(x), width, rest);
  }

  /** Decoding undoes encoding and leaves the rest of the input alone. */
  lemma {:induction false} CompactRoundTrip(x: uint128, width: nat, rest: Bytes)
    requires 4 <= width <= 16 && x < Pow256(width)
    ensures DecodeCompact(Compact(x) + rest, width) == Some(Decoded(x, rest))
  {
    if x < 0x40 {
      OneByteRoundTrip(x, width, rest);
    } else if x < 0x4000 {
      TwoByteRoundTrip(x, width, rest);
    } else if x < 0x4000_0000 {
      FourByteRoundTrip(x, width, rest);
    } else {
      BigRoundTrip(x, width, rest);
    }
  }

  /** The four modes on sample numbers, those of the codec's specification and the ones callbacks contain. */
  lemma CompactVectors()
    ensures Compact(0) == [0] && Compact(1) == [4] && Compact(42) == [168] && Compact(69) == [21, 1]
    ensures Compact(100) == [145, 1] && Compact(65_535) == [254, 255, 3, 0] && Compact(200_000) == [2, 53, 12, 0]
    ensures Compact(4_000_000_000) == [3, 0, 40, 107, 238]
    ensures Compact(100_000_000_000_000) == [11, 0, 64, 122, 16, 243, 90]
  {
    hide LittleEndian, BigWidth, Pow256;
    Little2(277);
    Little2(401);
    Little4(262_142);
    Little4(800_002);
    FiveByteForm(4_000_000_000);
    SevenByteForm(100_000_000_000_000);
  }

  lemma FiveByteForm(x: uint128)
    requires 0x4000_0000 <= x < 0x1_0000_0000
    ensures Compact(x) == [3, x % 256, x / 256 % 256, x / 256 / 256 % 256, x / 256 / 256 / 256 % 256]
  {
    hide LittleEndian, Pow256;
    Powers();
    WidthIs(x, 4);
    Little4(x);
  }

  lemma SevenByteForm(x: uint128)
    requires 0x100_0000_0000 <= x < 0x1_0000_0000_0000
    ensures var y := x / 256 / 256;
            Compact(x) == [11, x % 256, x / 256 % 256, y % 256, y / 256 % 256, y / 256 / 256 % 256,
                           y / 256 / 256 / 256 % 256]
  {
    Powers();
    assert Pow256(5) == 256 * Pow256(4) && Pow256(6) == 256 * Pow256(5);
    WidthIs(x, 6);
    SixBytes(x);
    Little4(x / 256 / 256);
  }

  lemma SixBytes(x: nat)
    ensures LittleEndian(x, 6) == [x % 256, x / 256 % 256] + LittleEndian(x / 256 / 256, 4)
  {
    assert LittleEndian(x / 256, 5) == [x / 256 % 256] + LittleEndian(x / 256 / 256, 4);
  }

  lemma WidthIs(x: nat, w: nat)
    requires 4 <= w && x < Pow256(w) && (w == 4 || Pow256(w - 1) <= x)
    ensures BigWidth(x) == w
  {
    if BigWidth(x) < w { PowMonotone(BigWidth(x), w - 1); }
    if BigWidth(x) > w { PowMonotone(w, BigWidth(x) - 1); }
  }

  lemma Little2(x: nat)
    ensures LittleEndian(x, 2) == [x % 256, x / 256 % 256]
  {
    var y := x / 256;
    assert LittleEndian(y / 256, 0) == [];
    assert LittleEndian(y, 1) == [y % 256];
  }

  lemma Little4(x: nat)
    ensures LittleEndian(x, 4) == [x % 256, x / 256 % 256, x / 256 / 256 % 256, x / 256 / 256 / 256 % 256]
  {
    var y := x / 256;
    Little2(y / 256);
    assert LittleEndian(y, 3) == [y % 256] + LittleEndian(y / 256, 2);
    assert LittleEndian(x, 4) == [x % 256] + LittleEndian(y, 3);
  }

  /** How many bytes the compact form of a length takes. */
  function CompactSize(x: nat): nat {
    if x < 0x40 then 1 else if x < 0x4000 then 2 else if x < 0x4000_0000 then 4 else 5
  }

  /** A compact number is never longer than its type plus one byte, and lengths take `CompactSize`. */
  lemma {:induction false} CompactLength(x: uint128, width: nat)
    requires 4 <= width <= 16 && x < Pow256(width)
    ensures 1 <= |Compact(x)| <= width + 1
    ensures width == 4 ==> |Compact(x)| == CompactSize(x)
  {
    if 0x40 <= x < 0x4000 {
      LittleEndianLength(4 * x + 1, 2);
    } else if 0x4000 <= x < 0x4000_0000 {
      LittleEndianLength(4 * x + 2, 4);
    } else if 0x4000_0000 <= x {
      var w := BigWidth(x);
      LittleEndianLength(x, w);
      BigWidthFits(x, width);
    }
  }

  // ---------- one encoding for each number ----------

  lemma {:induction false} BytesOfNumber(b: Bytes)
    ensures FromLittleEndian(b) < Pow256(|b|) && LittleEndian(FromLittleEndian(b), |b|) == b
  {
    if b != [] {
      BytesOfNumber(b[1..]);
      LowDigit(b[0], FromLittleEndian(b[1..]), Pow256(|b| - 1));
      assert b == [b[0]] + b[1..];
    }
  }

  lemma LowDigit(digit: uint8, rest: nat, bound: nat)
    requires rest < bound
    ensures (digit + 256 * rest) % 256 == digit && (digit + 256 * rest) / 256 == rest
    ensures digit + 256 * rest < 256 * bound
  {
  }

  /** What is read as a fixed number is its only encoding. */
  lemma FixedIsUnique(b: Bytes, n: nat)
    requires DecodeFixed(b, n).Some?
    ensures var d := DecodeFixed(b, n).value; d.value < Pow256(n) && b == LittleEndian(d.value, n) + d.rest
  {
    BytesOfNumber(b[..n]);
    assert b == b[..n] + b[n..];
  }

  /** The mode bits are the low bits of the whole number. */
  lemma {:induction false} LowByte(b: Bytes)
    requires b != []
    ensures FromLittleEndian(b) % 4 == b[0] % 4
  {
    LowBits(FromLittleEndian(b));
    var rest := FromLittleEndian(b[1..]);
    LowDigit(b[0], rest, rest + 1);
  }

  lemma NarrowIsUnique(b: Bytes, n: nat, mode: nat, least: nat)
    requires b != [] && b[0] % 4 == mode && Narrow(DecodeFixed(b, n), least).Some? && n > 0
    ensures var d := Narrow(DecodeFixed(b, n), least).value;
            least <= d.value && 4 * d.value + mode < Pow256(n) && b == LittleEndian(4 * d.value + mode, n) + d.rest
  {
    hide LittleEndian, FromLittleEndian, Pow256;
    FixedIsUnique(b, n);
    LowByte(b[..n]);
    var v := DecodeFixed(b, n).value.value;
    assert v == 4 * (v / 4) + v % 4;
  }

  lemma BigIsUnique(b: Bytes, width: nat)
    requires b != [] && b[0] % 4 == 3 && width <= 16 && 4 <= width && DecodeCompact(b, width).Some?
    ensures var d := DecodeCompact(b, width).value;
            0x4000_0000 <= d.value <= U128_MAX && b == Compact(d.value) + d.rest
  {
    hide LittleEndian, FromLittleEndian, Pow256;
    var w := b[0] / 4 + 4;
    var x := DecodeCompact(b, width).value.value;
    FixedIsUnique(b[1..], w);
    Powers();
    PowMonotone(w, 16);
    if w > 4 { PowMonotone(4, w - 1); }
    WidthIs(x, w);
    assert b == [b[0]] + b[1..];
    assert b[0] == 4 * (w - 4) + 3;
  }

  /** Whatever a compact number is read from is its encoding followed by the rest: no longer form is accepted. */
  lemma CompactIsUnique(b: Bytes, width: nat)
    requires 4 <= width <= 16 && DecodeCompact(b, width).Some?
    ensures var d := DecodeCompact(b, width).value; d.value <= U128_MAX && b == Compact(d.value) + d.rest
  {
    hide LittleEndian, Pow256, DecodeFixed, Narrow;
    Powers();
    if b[0] % 4 == 0 {
      assert b == [b[0]] + b[1..];
    } else if b[0] % 4 == 1 {
      NarrowIsUnique(b, 2, 1, 0x40);
    } else if b[0] % 4 == 2 {
      NarrowIsUnique(b, 4, 2, 0x4000);
    } else {
      BigIsUnique(b, width);
    }
  }
}
