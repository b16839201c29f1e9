/** The byte layouts of packed blocks, written the other way round: how fields are packed. Reading
    is the inverse of packing, in both directions, so every bit of a block has its one meaning. */
module QuantPacking {
  import opened Common
  import opened QuantBlocks

  // --- bits of a byte --------------------------------------------------------------------------

  /** Least significant bit first. */
  function OfBits(bits: seq<bool>): nat {
    if bits == [] then 0 else (if bits[0] then 1 else 0) + 2 * OfBits(bits[1..])
  }

  function Power2(n: nat): nat {
    if n == 0 then 1 else 2 * Power2(n - 1)
  }

  lemma {:induction false} OfBitsBound(bits: seq<bool>)
    ensures OfBits(bits) < Power2(|bits|)
  {
    if bits != [] {
      OfBitsBound(bits[1..]);
    }
  }

  lemma ByteBits()
    ensures Power2(8) == 256
  {
    assert Power2(4) == 16;
    assert Power2(8) == 16 * Power2(4);
  }

  function BitsByte(bits: seq<bool>): byte
    requires |bits| == 8
  {
    OfBitsBound(bits);
    ByteBits();
    OfBits(bits)
  }

  lemma {:induction false} BitOfBits(bits: seq<bool>, b: byte, k: nat)
    requires OfBits(bits) == b && k < |bits|
    ensures Bit(b, k) == bits[k]
    decreases k
  {
    if k > 0 {
      BitOfBits(bits[1..], b / 2, k - 1);
    }
  }

  lemma BitsRead(bits: seq<bool>, k: nat)
    requires |bits| == 8 && k < 8
    ensures Bit(BitsByte(bits), k) == bits[k]
  {
    BitOfBits(bits, BitsByte(bits), k);
  }

  function BitsFrom(b: byte, n: nat): (r: seq<bool>)
    ensures |r| == n
    decreases n
  {
    if n == 0 then [] else [b % 2 == 1] + BitsFrom(b / 2, n - 1)
  }

  lemma {:induction false} BitsFromBits(b: byte, n: nat, k: nat)
    requires k < n
    ensures BitsFrom(b, n)[k] == Bit(b, k)
    decreases n
  {
    if k > 0 {
      BitsFromBits(b / 2, n - 1, k - 1);
    }
  }

  lemma {:induction false} BitsFromExact(b: byte, n: nat)
    requires b < Power2(n)
    ensures OfBits(BitsFrom(b, n)) == b
    decreases n
  {
    if n > 0 {
      BitsFromExact(b / 2, n - 1);
      assert BitsFrom(b, n)[1..] == BitsFrom(b / 2, n - 1);
    }
  }

  /** A byte is determined by its eight bits. */
  lemma BitsExact(b: byte, bits: seq<bool>)
    requires |bits| == 8 && forall k | 0 <= k < 8 :: bits[k] == Bit(b, k)
    ensures BitsByte(bits) == b
  {
    ByteBits();
    BitsFromExact(b, 8);
    forall k | 0 <= k < 8 ensures bits[k] == BitsFrom(b, 8)[k] {
      BitsFromBits(b, 8, k);
    }
    assert bits == BitsFrom(b, 8);
  }

  // --- Q4_K and Q5_K -----------------------------------------------------------------------------

  /** What a block of the type can hold. */
  ghost predicate KPackable(ty: KType, p: KParts) {
    p.Valid() && p.d < 65536 && p.dmin < 65536 && (ty.Q4K? ==> Between(p.rows, 0, 15))
  }

  /** The high bits of lane `l` of all eight rows. */
  function HighBits(rows: seq<Row<int>>, l: nat): (r: seq<bool>)
    requires |rows| == 8 && l < 32 && forall g | 0 <= g < 8 :: |rows[g]| == 32
    ensures |r| == 8 && forall g | 0 <= g < 8 :: r[g] == (rows[g][l] >= 16)
  {
    seq(8, g requires 0 <= g < 8 => rows[g][l] >= 16)
  }

  /** Lane `l` of rows `2 * group` and `2 * group + 1` share a byte, low nibble first. */
  function NibblePair(rows: seq<Row<int>>, group: nat, l: nat): byte
    requires |rows| == 8 && group < 4 && l < 32 && forall g | 0 <= g < 8 :: |rows[g]| == 32
  {
    rows[2 * group][l] % 16 + 16 * (rows[2 * group + 1][l] % 16)
  }

  function TwoBytes(n: nat): (r: seq<byte>)
    requires n < 65536
    ensures |r| == 2
  {
    [n % 256, n / 256]
  }

  ghost function PackK(ty: KType, p: KParts): (r: seq<byte>)
    requires KPackable(ty, p)
    ensures KBlock(ty, r)
  {
    var high: seq<byte> := if ty.Q4K? then [] else seq(32, l requires 0 <= l < 32 => BitsByte(HighBits(p.rows, l)));
    TwoBytes(p.d) + TwoBytes(p.dmin) + PackScaleMins(p.scales, p.mins) + high +
    seq(128, i requires 0 <= i < 128 => NibblePair(p.rows, i / 32, i % 32))
  }

  /** Where the bytes of a packed block are. */
  lemma PackKAt(ty: KType, p: KParts)
    requires KPackable(ty, p)
    ensures var w := PackK(ty, p);
            w[0..2] == TwoBytes(p.d) && w[2..4] == TwoBytes(p.dmin) && w[4..16] == PackScaleMins(p.scales, p.mins) &&
            (forall l | 0 <= l < 32 && ty.Q5K? :: w[16 + l] == BitsByte(HighBits(p.rows, l))) &&
            forall group, l | 0 <= group < 4 && 0 <= l < 32 ::
              w[ty.QuantsAt() + group * 32 + l] == NibblePair(p.rows, group, l)
  {
    var w, at := PackK(ty, p), ty.QuantsAt();
    assert w[0..2] == TwoBytes(p.d) && w[2..4] == TwoBytes(p.dmin) && w[4..16] == PackScaleMins(p.scales, p.mins);
    forall group, l | 0 <= group < 4 && 0 <= l < 32 ensures w[at + group * 32 + l] == NibblePair(p.rows, group, l) {
      var i := group * 32 + l;
      assert i / 32 == group && i % 32 == l;
      assert w[at + i] == NibblePair(p.rows, i / 32, i % 32);
    }
  }

  lemma U16OfTwo(w: seq<byte>, at: nat, n: nat)
    requires n < 65536 && at + 2 <= |w| && w[at..at + 2] == TwoBytes(n)
    ensures U16(w, at) == n
  {
    assert FromLe(TwoBytes(n)) == n by {
      assert TwoBytes(n)[1..] == [n / 256] && [n / 256][1..] == [];
      assert FromLe([n / 256]) == n / 256;
    }
  }

  lemma TwoOfU16(w: seq<byte>, at: nat)
    requires at + 2 <= |w|
    ensures U16(w, at) < 65536 && TwoBytes(U16(w, at)) == w[at..at + 2]
  {
    var two := w[at..at + 2];
    assert two[1..] == [two[1]] && [two[1]][1..] == [];
    var low: int, high: int := two[0], two[1];
    assert FromLe([two[1]]) == high;
    assert FromLe(two) == low + 256 * high;
  }

  /** A quant is its nibble and its high bit. */
  lemma NibbleAndBit(q: nat)
    requires q < 32
    ensures q == q % 16 + if q >= 16 then 16 else 0
  {}

  lemma KLaneRead(ty: KType, p: KParts, group: nat, upper: bool, l: nat)
    requires KPackable(ty, p) && group < 4 && l < 32
    ensures KLane(ty, PackK(ty, p), group, upper, l) == p.rows[2 * group + if upper then 1 else 0][l]
  {
    var packed, high := PackedLane(ty, p, group, l, 2 * group + if upper then 1 else 0);
    NibbleOf(packed, p.rows[2 * group][l], p.rows[2 * group + 1][l]);
    NibbleAndBit(p.rows[2 * group + if upper then 1 else 0][l]);
  }

  lemma NibbleOf(packed: byte, a: nat, b: nat)
    requires packed == a % 16 + 16 * (b % 16)
    ensures packed % 16 == a % 16 && packed / 16 == b % 16
  {
    FourAndFour(a % 16, b % 16);
  }

  /** The byte of a lane, and its high bit in Q5_K. */
  lemma PackedLane(ty: KType, p: KParts, group: nat, l: nat, row: nat) returns (packed: byte, high: bool)
    requires KPackable(ty, p) && group < 4 && l < 32 && row < 8
    ensures var w := PackK(ty, p);
            packed == w[ty.QuantsAt() + group * 32 + l] == NibblePair(p.rows, group, l) &&
            high == (p.rows[row][l] >= 16) && (ty.Q5K? ==> Bit(w[16 + l], row) == high) && (ty.Q4K? ==> !high)
  {
    PackKAt(ty, p);
    packed, high := NibblePair(p.rows, group, l), p.rows[row][l] >= 16;
    if ty.Q5K? {
      BitsRead(HighBits(p.rows, l), row);
    }
  }

  lemma KRowRead(ty: KType, p: KParts, g: nat)
    requires KPackable(ty, p) && g < 8
    ensures KRow(ty, PackK(ty, p), g) == p.rows[g]
  {
    forall l | 0 <= l < 32 ensures KRow(ty, PackK(ty, p), g)[l] == p.rows[g][l] {
      KLaneRead(ty, p, g / 2, g % 2 == 1, l);
    }
  }

  /** Whatever quants, scales, minima and factors are packed into a block, reading the block gives
      exactly them back. */
  lemma KReadsPacked(ty: KType, p: KParts)
    requires KPackable(ty, p)
    ensures KPartsOf(ty, PackK(ty, p)) == p
  {
    var w := PackK(ty, p);
    var q := KPartsOf(ty, w);
    PackKAt(ty, p);
    U16OfTwo(w, 0, p.d);
    U16OfTwo(w, 2, p.dmin);
    ScaleMinReadsPacked(p.scales, p.mins);
    assert q.scales == Scales(w[4..16]) && q.mins == Mins(w[4..16]);
    forall g | 0 <= g < 8 ensures q.rows[g] == p.rows[g] {
      KRowRead(ty, p, g);
    }
  }

  lemma KReadPackable(ty: KType, w: seq<byte>)
    requires KBlock(ty, w)
    ensures KPackable(ty, KPartsOf(ty, w))
  {
    TwoOfU16(w, 0);
    TwoOfU16(w, 2);
  }

  lemma NibblesBack(ty: KType, w: seq<byte>, group: nat, l: nat)
    requires KBlock(ty, w) && group < 4 && l < 32
    ensures NibblePair(KPartsOf(ty, w).rows, group, l) == w[ty.QuantsAt() + group * 32 + l]
  {
    var packed := w[ty.QuantsAt() + group * 32 + l];
    assert KLane(ty, w, group, false, l) % 16 == packed % 16 && KLane(ty, w, group, true, l) % 16 == packed / 16;
    assert KRow(ty, w, 2 * group)[l] == KLane(ty, w, group, false, l);
    assert KRow(ty, w, 2 * group + 1)[l] == KLane(ty, w, group, true, l);
  }

  lemma HighBitsBack(w: seq<byte>, l: nat)
    requires KBlock(Q5K, w) && l < 32
    ensures BitsByte(HighBits(KPartsOf(Q5K, w).rows, l)) == w[16 + l]
  {
    var bits := HighBits(KPartsOf(Q5K, w).rows, l);
    forall g | 0 <= g < 8 ensures bits[g] == Bit(w[16 + l], g) {
      assert KRow(Q5K, w, g)[l] == KLane(Q5K, w, g / 2, g % 2 == 1, l);
    }
    BitsExact(w[16 + l], bits);
  }

  /** And packing what a block reads as gives exactly its bytes back. */
  lemma KPacksRead(ty: KType, w: seq<byte>)
    requires KBlock(ty, w)
    ensures KPackable(ty, KPartsOf(ty, w)) && PackK(ty, KPartsOf(ty, w)) == w
  {
    KReadPackable(ty, w);
    var p := KPartsOf(ty, w);
    PackKAt(ty, p);
    TwoOfU16(w, 0);
    TwoOfU16(w, 2);
    PackingIsOnto(w[4..16]);
    assert p.scales == Scales(w[4..16]) && p.mins == Mins(w[4..16]);
    forall i | 0 <= i < |w| ensures PackK(ty, p)[i] == w[i] {
      KByteBack(ty, w, p, PackK(ty, p), i);
    }
  }

  lemma KByteBack(ty: KType, w: seq<byte>, p: KParts, q: seq<byte>, i: nat)
    requires KBlock(ty, w) && KPackable(ty, p) && p == KPartsOf(ty, w) && q == PackK(ty, p) && i < |w|
    requires q[0..2] == w[0..2] && q[2..4] == w[2..4] && q[4..16] == w[4..16]
    ensures q[i] == w[i]
  {
    PackKAt(ty, p);
    var at := ty.QuantsAt();
    if i < 2 {
      assert q[0..2][i] == w[0..2][i];
    } else if i < 4 {
      assert q[2..4][i - 2] == w[2..4][i - 2];
    } else if i < 16 {
      assert q[4..16][i - 4] == w[4..16][i - 4];
    } else if i < at {
      HighBitsBack(w, i - 16);
    } else {
      var group, l := (i - at) / 32, (i - at) % 32;
      assert i == at + group * 32 + l;
      NibblesBack(ty, w, group, l);
    }
  }

  // --- Q8_K ------------------------------------------------------------------------------------------

  function SignedByte(q: int): (r: byte)
    requires -128 <= q <= 127
    ensures I8(r) == q
  {
    if q < 0 then q + 256 else q
  }

  function SignedWord(s: int): (r: nat)
    requires -32768 <= s <= 32767
    ensures r < 65536
  {
    if s < 0 then s + 65536 else s
  }

  ghost predicate Q8Packable(p: Q8Parts) {
    p.Valid() && p.d < 0x1_0000_0000
  }

  /** The scale, the lanes in order, then the sums of sixteen lanes each, low byte first. */
  ghost function PackQ8(p: Q8Parts): (r: Q8Block)
    requires Q8Packable(p)
  {
    Le(p.d, 4) + Q8LaneBytes(p) + seq(32, i requires 0 <= i < 32 => TwoBytes(SignedWord(p.sums[i / 2]))[i % 2])
  }

  ghost function Q8LaneBytes(p: Q8Parts): (r: seq<byte>)
    requires p.Valid()
    ensures |r| == 256
  {
    seq(256, i requires 0 <= i < 256 => SignedByte(p.rows[i / 32][i % 32]))
  }

  lemma LaneByteAt(p: Q8Parts, g: nat, l: nat)
    requires p.Valid() && g < 8 && l < 32
    ensures Q8LaneBytes(p)[32 * g + l] == SignedByte(p.rows[g][l])
  {
    assert (32 * g + l) / 32 == g && (32 * g + l) % 32 == l;
  }

  lemma Divide(i: nat, width: nat) returns (q: nat, r: nat)
    requires 0 < width
    ensures r < width && i == width * q + r
  {
    q, r := i / width, i % width;
  }

  lemma Q8ScaleAt(p: Q8Parts)
    requires Q8Packable(p)
    ensures PackQ8(p)[0..4] == Le(p.d, 4)
  {}

  lemma Q8LaneAt(p: Q8Parts, g: nat, l: nat)
    requires Q8Packable(p) && g < 8 && l < 32
    ensures PackQ8(p)[4 + 32 * g + l] == SignedByte(p.rows[g][l])
  {
    LaneByteAt(p, g, l);
    assert PackQ8(p)[4 + (32 * g + l)] == Q8LaneBytes(p)[32 * g + l];
  }

  lemma Q8SumAt(p: Q8Parts, g: nat, half: nat)
    requires Q8Packable(p) && g < 16 && half < 2
    ensures PackQ8(p)[260 + 2 * g + half] == TwoBytes(SignedWord(p.sums[g]))[half]
  {
    var i := 2 * g + half;
    assert i / 2 == g && i % 2 == half;
    assert PackQ8(p)[260 + i] == TwoBytes(SignedWord(p.sums[i / 2]))[i % 2];
  }

  lemma ByteOfI8(b: byte)
    ensures SignedByte(I8(b)) == b
  {}

  lemma I16OfWord(s: int)
    requires -32768 <= s <= 32767
    ensures I16(TwoBytes(SignedWord(s))[0], TwoBytes(SignedWord(s))[1]) == s
  {}

  lemma WordOfI16(low: byte, high: byte)
    ensures TwoBytes(SignedWord(I16(low, high))) == [low, high]
  {}

  lemma Q8LaneRead(p: Q8Parts, g: nat, l: nat)
    requires Q8Packable(p) && g < 8 && l < 32
    ensures ActRow(PackQ8(p), g)[l] == p.rows[g][l]
  {
    Q8LaneAt(p, g, l);
  }

  lemma Q8SumRead(p: Q8Parts, g: nat)
    requires Q8Packable(p) && g < 16
    ensures I16(PackQ8(p)[260 + 2 * g], PackQ8(p)[261 + 2 * g]) == p.sums[g]
  {
    Q8SumAt(p, g, 0);
    Q8SumAt(p, g, 1);
    I16OfWord(p.sums[g]);
  }

  /** Reading a packed activation block gives back its scale, its lanes and its sums. */
  lemma Q8ReadsPacked(p: Q8Parts)
    requires Q8Packable(p)
    ensures Q8PartsOf(PackQ8(p)) == p
  {
    var q := Q8PartsOf(PackQ8(p));
    Q8ScaleRead(p);
    forall g | 0 <= g < 8 ensures q.rows[g] == p.rows[g] {
      Q8RowRead(p, g);
    }
    forall g | 0 <= g < 16 ensures q.sums[g] == p.sums[g] {
      Q8SumRead(p, g);
    }
  }

  lemma Q8ScaleRead(p: Q8Parts)
    requires Q8Packable(p)
    ensures U32(PackQ8(p), 0) == p.d
  {
    Q8ScaleAt(p);
    Pow256Values();
    LeRoundTrip(p.d, 4);
  }

  lemma Q8RowRead(p: Q8Parts, g: nat)
    requires Q8Packable(p) && g < 8
    ensures ActRow(PackQ8(p), g) == p.rows[g]
  {
    forall l | 0 <= l < 32 ensures ActRow(PackQ8(p), g)[l] == p.rows[g][l] {
      Q8LaneRead(p, g, l);
    }
  }

  lemma Q8LaneBack(b: Q8Block, p: Q8Parts, i: nat)
    requires p == Q8PartsOf(b) && Q8Packable(p) && 4 <= i < 260
    ensures PackQ8(p)[i] == b[i]
  {
    var g, l := Divide(i - 4, 32);
    Q8LaneAt(p, g, l);
    assert p.rows[g] == ActRow(b, g);
    ByteOfI8(b[i]);
  }

  lemma Q8SumBack(b: Q8Block, p: Q8Parts, i: nat)
    requires p == Q8PartsOf(b) && Q8Packable(p) && 260 <= i < 292
    ensures PackQ8(p)[i] == b[i]
  {
    var g, half := Divide(i - 260, 2);
    Q8SumAt(p, g, half);
    assert p.sums[g] == I16(b[260 + 2 * g], b[261 + 2 * g]);
    WordOfI16(b[260 + 2 * g], b[261 + 2 * g]);
  }

  /** And packing what an activation block reads as gives its bytes back. */
  lemma Q8PacksRead(b: Q8Block)
    ensures Q8Packable(Q8PartsOf(b)) && PackQ8(Q8PartsOf(b)) == b
  {
    var p := Q8PartsOf(b);
    Pow256Values();
    FromLeRoundTrip(b[0..4]);
    Q8ScaleAt(p);
    forall i | 0 <= i < |b| ensures PackQ8(p)[i] == b[i] {
      if i < 4 {
        assert PackQ8(p)[0..4][i] == b[0..4][i];
      } else if i < 260 {
        Q8LaneBack(b, p, i);
      } else {
        Q8SumBack(b, p, i);
      }
    }
  }
}
