/** Packed blocks of 256 lanes: where their bits are and what their lanes decode to. The lanes
    of a block are kept as eight rows of 32: lane i is column i % 32 of row i / 32. */
module QuantBlocks {
  import opened Common

  /** Float arithmetic. Nothing is assumed of it where bit-identical results are claimed; `Exact`
      is the instance over real numbers. */
  datatype Arith<!F> = Arith(
    zero: F,
    half: F,
    quarter: F,
    eighth: F,
    add: (F, F) -> F,
    sub: (F, F) -> F,
    mul: (F, F) -> F,
    ofInt: int -> F,
    ofF16: nat -> F,
    ofF32: nat -> F)

  function Exact(ofF16: nat -> real, ofF32: nat -> real): Arith<real> {
    Arith(0.0, 0.5, 0.25, 0.125, (x, y) => x + y, (x, y) => x - y, (x, y) => x * y, (n: int) => n as real, ofF16, ofF32)
  }

  // --- bits --------------------------------------------------------------------------------

  /** `b & (1 << k) != 0` */
  predicate Bit(b: byte, k: nat)
    decreases k
  {
    if k == 0 then b % 2 == 1 else Bit(b / 2, k - 1)
  }

  function I8(b: byte): (r: int)
    ensures -128 <= r <= 127
  {
    if b < 128 then b else b - 256
  }

  function I16(low: byte, high: byte): (r: int)
    ensures -32768 <= r <= 32767
  {
    var u := low + 256 * high;
    if u < 32768 then u else u - 65536
  }

  function U16(bytes: seq<byte>, at: nat): nat
    requires at + 2 <= |bytes|
  {
    FromLe(bytes[at..at + 2])
  }

  function U32(bytes: seq<byte>, at: nat): nat
    requires at + 4 <= |bytes|
  {
    FromLe(bytes[at..at + 4])
  }

  // --- Q8_K activations -----------------------------------------------------------------------

  const Q8_BYTES: nat := 292

  type Q8Block = b: seq<byte> | |b| == Q8_BYTES witness seq(Q8_BYTES, _ => 0)

  type Row<T> = seq<T>

  ghost predicate Rows<T>(rows: seq<Row<T>>) {
    |rows| == 8 && forall g | 0 <= g < 8 :: |rows[g]| == 32
  }

  ghost predicate Between(rows: seq<Row<int>>, low: int, high: int) {
    forall g, l | 0 <= g < |rows| && 0 <= l < |rows[g]| :: low <= rows[g][l] <= high
  }

  /** The fields of an activation block: scale bits, lanes and the sixteen stored sums. */
  datatype Q8Parts = Q8Parts(d: nat, rows: seq<Row<int>>, sums: seq<int>) {
    ghost predicate Valid() {
      Rows(rows) && Between(rows, -128, 127) && |sums| == 16 && forall g | 0 <= g < 16 :: -32768 <= sums[g] <= 32767
    }
  }

  function ActRow(q8: Q8Block, g: nat): (r: Row<int>)
    requires g < 8
    ensures |r| == 32 && forall l | 0 <= l < 32 :: r[l] == I8(q8[4 + 32 * g + l])
  {
    seq(32, l requires 0 <= l < 32 => I8(q8[4 + 32 * g + l]))
  }

  function Q8PartsOf(q8: Q8Block): (r: Q8Parts)
    ensures r.Valid()
  {
    Q8Parts(U32(q8, 0), seq(8, g requires 0 <= g < 8 => ActRow(q8, g)),
            seq(16, g requires 0 <= g < 16 => I16(q8[260 + 2 * g], q8[261 + 2 * g])))
  }

  // --- Q4_K and Q5_K ----------------------------------------------------------------------------

  datatype KType = Q4K | Q5K {
    function Bytes(): nat { if Q4K? then 144 else 176 }

    function QuantsAt(): nat { if Q4K? then 16 else 48 }
  }

  predicate KBlock(ty: KType, w: seq<byte>) {
    |w| == ty.Bytes()
  }

  /** The fields of a block: bits of d and dmin, a scale and a minimum per row, unsigned quants. */
  datatype KParts = KParts(d: nat, dmin: nat, scales: seq<int>, mins: seq<int>, rows: seq<Row<int>>) {
    ghost predicate Valid() {
      |scales| == 8 && |mins| == 8 && Rows(rows) && Between(rows, 0, 31) &&
      forall g | 0 <= g < 8 :: 0 <= scales[g] <= 63 && 0 <= mins[g] <= 63
    }
  }

  /** Six-bit scale and minimum of one of the eight rows. */
  function ScaleMin(scales: seq<byte>, index: nat): (r: (int, int))
    requires |scales| == 12 && index < 8
    ensures 0 <= r.0 < 64 && 0 <= r.1 < 64
  {
    if index < 4 then (scales[index] % 64, scales[index + 4] % 64)
    else (scales[index + 4] % 16 + 16 * (scales[index - 4] / 64), scales[index + 4] / 16 + 16 * (scales[index] / 64))
  }

  type SixBits = s: seq<int> | |s| == 8 && forall i | 0 <= i < 8 :: 0 <= s[i] < 64 witness seq(8, _ => 0)

  /** One of the twelve bytes that hold eight scales and eight minima of six bits each. The first
      four of both keep their six bits together, with two bits of a later one on top; the last four
      bytes hold the low nibbles of the later ones. */
  function PackedByte(scales: SixBits, mins: SixBits, i: nat): byte
    requires i < 12
  {
    if i < 4 then scales[i] + 64 * (scales[i + 4] / 16)
    else if i < 8 then mins[i - 4] + 64 * (mins[i] / 16)
    else scales[i - 4] % 16 + 16 * (mins[i - 4] % 16)
  }

  function PackScaleMins(scales: SixBits, mins: SixBits): (r: seq<byte>)
    ensures |r| == 12 && forall i | 0 <= i < 12 :: r[i] == PackedByte(scales, mins, i)
  {
    seq(12, i requires 0 <= i < 12 => PackedByte(scales, mins, i))
  }

  function Scales(packed: seq<byte>): (r: SixBits)
    requires |packed| == 12
    ensures forall i | 0 <= i < 8 :: r[i] == ScaleMin(packed, i).0
  {
    seq(8, i requires 0 <= i < 8 => ScaleMin(packed, i).0)
  }

  function Mins(packed: seq<byte>): (r: SixBits)
    requires |packed| == 12
    ensures forall i | 0 <= i < 8 :: r[i] == ScaleMin(packed, i).1
  {
    seq(8, i requires 0 <= i < 8 => ScaleMin(packed, i).1)
  }

  lemma SixAndTwo(low: nat, high: nat)
    requires low < 64 && high < 4
    ensures (low + 64 * high) % 64 == low && (low + 64 * high) / 64 == high
  {}

  lemma FourAndFour(low: nat, high: nat)
    requires low < 16 && high < 16
    ensures (low + 16 * high) % 16 == low && (low + 16 * high) / 16 == high
  {}

  lemma SplitSix(v: nat)
    requires v < 64
    ensures v % 16 + 16 * (v / 16) == v && v / 16 < 4 && v % 16 < 16
  {}

  lemma ReadsPacked(scales: SixBits, mins: SixBits, packed: seq<byte>, i: nat)
    requires packed == PackScaleMins(scales, mins) && i < 8
    ensures ScaleMin(packed, i) == (scales[i], mins[i])
  {
    if i < 4 {
      SplitSix(scales[i + 4]);
      SplitSix(mins[i + 4]);
      SixAndTwo(scales[i], scales[i + 4] / 16);
      SixAndTwo(mins[i], mins[i + 4] / 16);
    } else {
      SplitSix(scales[i]);
      SplitSix(mins[i]);
      FourAndFour(scales[i] % 16, mins[i] % 16);
      SixAndTwo(scales[i - 4], scales[i] / 16);
      SixAndTwo(mins[i - 4], mins[i] / 16);
    }
  }

  /** No two scales share a bit: any sixteen values survive packing. */
  lemma ScaleMinReadsPacked(scales: SixBits, mins: SixBits)
    ensures Scales(PackScaleMins(scales, mins)) == scales && Mins(PackScaleMins(scales, mins)) == mins
  {
    var packed := PackScaleMins(scales, mins);
    forall i | 0 <= i < 8 ensures Scales(packed)[i] == scales[i] && Mins(packed)[i] == mins[i] {
      ReadsPacked(scales, mins, packed, i);
    }
  }

  lemma PacksRead(packed: seq<byte>, i: nat)
    requires |packed| == 12 && i < 12
    ensures PackedByte(Scales(packed), Mins(packed), i) == packed[i]
  {
    if i < 4 {
      FourAndFour(packed[i + 8] % 16, packed[i] / 64);
    } else if i < 8 {
      FourAndFour(packed[i + 4] / 16, packed[i] / 64);
    } else {
      FourAndFour(packed[i] % 16, packed[i - 8] / 64);
      FourAndFour(packed[i] / 16, packed[i - 4] / 64);
    }
  }

  /** And no bit of the twelve bytes is lost by reading them. */
  lemma PackingIsOnto(packed: seq<byte>)
    requires |packed| == 12
    ensures PackScaleMins(Scales(packed), Mins(packed)) == packed
  {
    forall i | 0 <= i < 12 ensures PackScaleMins(Scales(packed), Mins(packed))[i] == packed[i] {
      PacksRead(packed, i);
    }
  }

  /** A group of 64 lanes shares its bytes: the lower row takes the low nibbles, the upper row the
      high ones; in Q5_K, bit `2 * group` or `2 * group + 1` of the high-bit plane is added. */
  function KLane(ty: KType, w: seq<byte>, group: nat, upper: bool, l: nat): (r: int)
    requires KBlock(ty, w) && group < 4 && l < 32
    ensures 0 <= r < 32
  {
    var packed := w[ty.QuantsAt() + group * 32 + l];
    (if upper then packed / 16 else packed % 16) +
    (if ty.Q5K? && Bit(w[16 + l], 2 * group + if upper then 1 else 0) then 16 else 0)
  }

  function KHalf(ty: KType, w: seq<byte>, group: nat, upper: bool): (r: Row<int>)
    requires KBlock(ty, w) && group < 4
    ensures |r| == 32 && forall l | 0 <= l < 32 :: r[l] == KLane(ty, w, group, upper, l)
  {
    seq(32, l requires 0 <= l < 32 => KLane(ty, w, group, upper, l))
  }

  /** The unsigned quants of one row. */
  function KRow(ty: KType, w: seq<byte>, row: nat): (r: Row<int>)
    requires KBlock(ty, w) && row < 8
    ensures |r| == 32 && forall l | 0 <= l < 32 :: 0 <= r[l] < 32
  {
    KHalf(ty, w, row / 2, row % 2 == 1)
  }

  function KPartsOf(ty: KType, w: seq<byte>): (r: KParts)
    requires KBlock(ty, w)
    ensures r.Valid()
  {
    KParts(U16(w, 0), U16(w, 2),
           seq(8, g requires 0 <= g < 8 => ScaleMin(w[4..16], g).0),
           seq(8, g requires 0 <= g < 8 => ScaleMin(w[4..16], g).1),
           seq(8, g requires 0 <= g < 8 => KRow(ty, w, g)))
  }

  /** Unpacking a group into two rows; `1 << low` and `1 << high` are its two masks. */
  method UnpackKGroup(ty: KType, w: seq<byte>, group: nat, low: nat, high: nat)
    returns (lower: Row<int>, upper: Row<int>)
    requires KBlock(ty, w) && group < 4 && low == 2 * group && high == 2 * group + 1
    ensures lower == KHalf(ty, w, group, false) && upper == KHalf(ty, w, group, true)
  {
    lower, upper := [], [];
    for l := 0 to 32
      invariant |lower| == l && forall i | 0 <= i < l :: lower[i] == KLane(ty, w, group, false, i)
      invariant |upper| == l && forall i | 0 <= i < l :: upper[i] == KLane(ty, w, group, true, i)
    {
      var packed := w[ty.QuantsAt() + group * 32 + l];
      lower := lower + [packed % 16 + if ty.Q5K? && Bit(w[16 + l], low) then 16 else 0];
      upper := upper + [packed / 16 + if ty.Q5K? && Bit(w[16 + l], high) then 16 else 0];
    }
  }

  method UnpackKRows(ty: KType, w: seq<byte>) returns (rows: seq<Row<int>>)
    requires KBlock(ty, w)
    ensures rows == KPartsOf(ty, w).rows
  {
    rows := [];
    var low, high := 0, 1;
    for group := 0 to 4
      invariant low == 2 * group && high == 2 * group + 1
      invariant |rows| == 2 * group && forall r | 0 <= r < 2 * group :: rows[r] == KRow(ty, w, r)
    {
      var lower, upper := UnpackKGroup(ty, w, group, low, high);
      assert lower == KRow(ty, w, 2 * group) && upper == KRow(ty, w, 2 * group + 1);
      rows := rows + [lower, upper];
      low, high := low + 2, high + 2;
    }
  }

  method UnpackScales(ty: KType, w: seq<byte>) returns (scales: seq<int>, mins: seq<int>)
    requires KBlock(ty, w)
    ensures scales == KPartsOf(ty, w).scales && mins == KPartsOf(ty, w).mins
  {
    scales, mins := [], [];
    for g := 0 to 8
      invariant |scales| == |mins| == g
      invariant forall i | 0 <= i < g :: scales[i] == ScaleMin(w[4..16], i).0 && mins[i] == ScaleMin(w[4..16], i).1
    {
      var (scale, min) := ScaleMin(w[4..16], g);
      scales, mins := scales + [scale], mins + [min];
    }
  }

  method UnpackK(ty: KType, w: seq<byte>) returns (p: KParts)
    requires KBlock(ty, w)
    ensures p == KPartsOf(ty, w)
  {
    var rows := UnpackKRows(ty, w);
    var scales, mins := UnpackScales(ty, w);
    p := KParts(U16(w, 0), U16(w, 2), scales, mins, rows);
  }

  /** d * scale * quant - dmin * min */
  function KValue<F>(ar: Arith<F>, p: KParts, g: nat, l: nat): F
    requires p.Valid() && g < 8 && l < 32
  {
    ar.sub(ar.mul(ar.mul(ar.ofF16(p.d), ar.ofInt(p.scales[g])), ar.ofInt(p.rows[g][l])),
           ar.mul(ar.ofF16(p.dmin), ar.ofInt(p.mins[g])))
  }

  /** What a row decodes to. */
  function KValues<F>(ar: Arith<F>, p: KParts, g: nat): (r: Row<F>)
    requires p.Valid() && g < 8
    ensures |r| == 32 && forall l | 0 <= l < 32 :: r[l] == KValue(ar, p, g, l)
  {
    seq(32, l requires 0 <= l < 32 => KValue(ar, p, g, l))
  }

  method DecodeKRow<F>(ar: Arith<F>, p: KParts, g: nat) returns (values: Row<F>)
    requires p.Valid() && g < 8
    ensures values == KValues(ar, p, g)
  {
    var d, m := ar.mul(ar.ofF16(p.d), ar.ofInt(p.scales[g])), ar.mul(ar.ofF16(p.dmin), ar.ofInt(p.mins[g]));
    values := [];
    for l := 0 to 32
      invariant |values| == l && forall i | 0 <= i < l :: values[i] == KValue(ar, p, g, i)
    {
      values := values + [ar.sub(ar.mul(d, ar.ofInt(p.rows[g][l])), m)];
    }
  }

  /** The decoders of Q4_K and Q5_K blocks. */
  method DecodeK<F>(ar: Arith<F>, ty: KType, w: seq<byte>) returns (output: seq<Row<F>>)
    requires KBlock(ty, w)
    ensures |output| == 8 && forall g | 0 <= g < 8 :: output[g] == KValues(ar, KPartsOf(ty, w), g)
  {
    var p := UnpackK(ty, w);
    output := [];
    for g := 0 to 8
      invariant |output| == g && forall h | 0 <= h < g :: output[h] == KValues(ar, p, h)
    {
      var row := DecodeKRow(ar, p, g);
      output := output + [row];
    }
  }

  // --- IQ2_S and IQ3_S --------------------------------------------------------------------------

  /** `(b >> 2 * k) & 3` */
  function Pair(b: byte, k: nat): (r: nat)
    ensures r < 4
    decreases k
  {
    if k == 0 then b % 4 else Pair(b / 4, k - 1)
  }

  predicate GridOf(grid: seq<seq<int>>, entries: nat, width: nat, largest: nat) {
    |grid| == entries &&
    forall i | 0 <= i < entries :: |grid[i]| == width && forall l | 0 <= l < width :: 0 <= grid[i][l] <= largest
  }

  /** The two grid formats and their tables, which may hold any bytes up to 43 and 15. */
  datatype Iq = Iq2(grid: seq<seq<int>>) | Iq3(grid: seq<seq<int>>) {
    predicate Valid() {
      if Iq2? then GridOf(grid, 1024, 8, 43) else GridOf(grid, 512, 4, 15)
    }

    function Bytes(): nat { if Iq2? then 82 else 110 }

    function Largest(): nat { if Iq2? then 43 else 15 }

    /** Magnitudes of lanes 8 * oct to 8 * oct + 7 of a row. */
    function Mags(w: seq<byte>, g: nat, oct: nat): (r: seq<int>)
      requires Valid() && |w| == Bytes() && g < 8 && oct < 4
      ensures |r| == 8 && forall l | 0 <= l < 8 :: 0 <= r[l] <= Largest()
    {
      if Iq2? then grid[Index(w, g, oct)] else grid[Index1(w, g, oct)] + grid[Index2(w, g, oct)]
    }

    function Index(w: seq<byte>, g: nat, oct: nat): (r: nat)
      requires Iq2? && |w| == Bytes() && g < 8 && oct < 4
      ensures r < 1024
    {
      w[2 + g * 4 + oct] + Pair(w[66 + g], oct) * 256
    }

    function Index1(w: seq<byte>, g: nat, oct: nat): (r: nat)
      requires Iq3? && |w| == Bytes() && g < 8 && oct < 4
      ensures r < 512
    {
      var high: nat := if Bit(w[66 + g], 2 * oct) then 256 else 0;
      high + w[2 + g * 8 + oct * 2]
    }

    function Index2(w: seq<byte>, g: nat, oct: nat): (r: nat)
      requires Iq3? && |w| == Bytes() && g < 8 && oct < 4
      ensures r < 512
    {
      var high: nat := if Bit(w[66 + g], 2 * oct + 1) then 256 else 0;
      high + w[2 + g * 8 + oct * 2 + 1]
    }

    function SignByte(w: seq<byte>, g: nat, oct: nat): byte
      requires |w| == Bytes() && g < 8 && oct < 4
    {
      w[(if Iq2? then 34 else 74) + g * 4 + oct]
    }

    /** The four-bit scales of the two halves of a row; IQ3_S has one for the whole row. */
    function Nibbles(w: seq<byte>, g: nat): (r: seq<int>)
      requires |w| == Bytes() && g < 8
      ensures |r| == 2 && 0 <= r[0] < 16 && 0 <= r[1] < 16
    {
      if Iq2? then [w[74 + g] % 16, w[74 + g] / 16]
      else
        var nibble: int := if g % 2 == 0 then w[106 + g / 2] % 16 else w[106 + g / 2] / 16;
        [nibble, nibble]
    }
  }

  /** The fields of a block: bits of d, four-bit scales, magnitudes and signs of all lanes. */
  datatype IqParts = IqParts(d: nat, nibbles: seq<seq<int>>, mags: seq<Row<int>>, signs: seq<Row<int>>) {
    ghost predicate Valid(largest: nat) {
      |nibbles| == 8 &&
      (forall g | 0 <= g < 8 :: |nibbles[g]| == 2 && 0 <= nibbles[g][0] < 16 && 0 <= nibbles[g][1] < 16) &&
      Rows(mags) && Between(mags, 0, largest) && Rows(signs) &&
      forall g, l | 0 <= g < 8 && 0 <= l < 32 :: signs[g][l] == 1 || signs[g][l] == -1
    }
  }

  function SignsOf(b: byte): (r: seq<int>)
    ensures |r| == 8 && forall l | 0 <= l < 8 :: r[l] == 1 || r[l] == -1
  {
    seq(8, l requires 0 <= l < 8 => if Bit(b, l) then -1 else 1)
  }

  /** Octets `0 .. n` of a row, magnitudes and signs. */
  function MagsTo(iq: Iq, w: seq<byte>, g: nat, n: nat): (r: Row<int>)
    requires iq.Valid() && |w| == iq.Bytes() && g < 8 && n <= 4
    ensures |r| == 8 * n && forall l | 0 <= l < |r| :: 0 <= r[l] <= iq.Largest()
  {
    if n == 0 then [] else MagsTo(iq, w, g, n - 1) + iq.Mags(w, g, n - 1)
  }

  function SignsTo(iq: Iq, w: seq<byte>, g: nat, n: nat): (r: Row<int>)
    requires |w| == iq.Bytes() && g < 8 && n <= 4
    ensures |r| == 8 * n && forall l | 0 <= l < |r| :: r[l] == 1 || r[l] == -1
  {
    if n == 0 then [] else SignsTo(iq, w, g, n - 1) + SignsOf(iq.SignByte(w, g, n - 1))
  }

  function IqPartsOf(iq: Iq, w: seq<byte>): (r: IqParts)
    requires iq.Valid() && |w| == iq.Bytes()
    ensures r.Valid(iq.Largest())
  {
    IqParts(U16(w, 0),
            seq(8, g requires 0 <= g < 8 => iq.Nibbles(w, g)),
            seq(8, g requires 0 <= g < 8 => MagsTo(iq, w, g, 4)),
            seq(8, g requires 0 <= g < 8 => SignsTo(iq, w, g, 4)))
  }

  method UnpackSigns(b: byte) returns (signs: seq<int>)
    ensures signs == SignsOf(b)
  {
    signs := [];
    for l := 0 to 8
      invariant |signs| == l && forall i | 0 <= i < l :: signs[i] == if Bit(b, i) then -1 else 1
    {
      signs := signs + [if Bit(b, l) then -1 else 1];
    }
  }

  /** Grid lookups and sign bits of one row, eight lanes at a time. */
  method UnpackIqRow(iq: Iq, w: seq<byte>, g: nat) returns (mags: Row<int>, signs: Row<int>)
    requires iq.Valid() && |w| == iq.Bytes() && g < 8
    ensures mags == MagsTo(iq, w, g, 4) && signs == SignsTo(iq, w, g, 4)
  {
    mags, signs := [], [];
    for oct := 0 to 4
      invariant mags == MagsTo(iq, w, g, oct) && signs == SignsTo(iq, w, g, oct)
    {
      var octet := UnpackSigns(iq.SignByte(w, g, oct));
      mags, signs := mags + iq.Mags(w, g, oct), signs + octet;
    }
  }

  ghost predicate IqRowIs(iq: Iq, w: seq<byte>, g: nat, nibbles: seq<int>, mags: Row<int>, signs: Row<int>)
    requires iq.Valid() && |w| == iq.Bytes() && g < 8
  {
    nibbles == iq.Nibbles(w, g) && mags == MagsTo(iq, w, g, 4) && signs == SignsTo(iq, w, g, 4)
  }

  /** The fields hold the first `n` rows. */
  ghost predicate IqRowsTo(iq: Iq, w: seq<byte>, p: IqParts, n: nat)
    requires iq.Valid() && |w| == iq.Bytes() && n <= 8
  {
    p.d == U16(w, 0) && |p.nibbles| == |p.mags| == |p.signs| == n &&
    forall g: nat | g < n :: IqRowIs(iq, w, g, p.nibbles[g], p.mags[g], p.signs[g])
  }

  function WithRow(p: IqParts, nibbles: seq<int>, mags: Row<int>, signs: Row<int>): IqParts {
    IqParts(p.d, p.nibbles + [nibbles], p.mags + [mags], p.signs + [signs])
  }

  lemma NextIqRow(iq: Iq, w: seq<byte>, p: IqParts, n: nat, nibbles: seq<int>, mags: Row<int>, signs: Row<int>)
    requires iq.Valid() && |w| == iq.Bytes() && n < 8 && IqRowsTo(iq, w, p, n)
    requires IqRowIs(iq, w, n, nibbles, mags, signs)
    ensures IqRowsTo(iq, w, WithRow(p, nibbles, mags, signs), n + 1)
  {
    var next := WithRow(p, nibbles, mags, signs);
    forall g: nat | g < n + 1 ensures IqRowIs(iq, w, g, next.nibbles[g], next.mags[g], next.signs[g]) {
      if g < n {
        assert IqRowIs(iq, w, g, p.nibbles[g], p.mags[g], p.signs[g]);
      }
    }
  }

  lemma AllIqRows(iq: Iq, w: seq<byte>, p: IqParts)
    requires iq.Valid() && |w| == iq.Bytes() && IqRowsTo(iq, w, p, 8)
    ensures p == IqPartsOf(iq, w)
  {
    var q := IqPartsOf(iq, w);
    assert forall g: nat | g < 8 :: IqRowIs(iq, w, g, p.nibbles[g], p.mags[g], p.signs[g]);
    assert p.nibbles == q.nibbles;
    assert p.mags == q.mags;
    assert p.signs == q.signs;
  }

  method UnpackIq(iq: Iq, w: seq<byte>) returns (p: IqParts)
    requires iq.Valid() && |w| == iq.Bytes()
    ensures p == IqPartsOf(iq, w)
  {
    p := IqParts(U16(w, 0), [], [], []);
    for g := 0 to 8
      invariant IqRowsTo(iq, w, p, g)
    {
      var mags, signs := UnpackIqRow(iq, w, g);
      NextIqRow(iq, w, p, g, iq.Nibbles(w, g), mags, signs);
      p := WithRow(p, iq.Nibbles(w, g), mags, signs);
    }
    AllIqRows(iq, w, p);
  }

  /** The float scale of half a row. */
  function IqScale<F>(ar: Arith<F>, two: bool, d: nat, nibble: int): F {
    if two then ar.mul(ar.mul(ar.ofF16(d), ar.add(ar.half, ar.ofInt(nibble))), ar.quarter)
    else ar.mul(ar.ofF16(d), ar.ofInt(1 + 2 * nibble))
  }

  function IqValue<F>(ar: Arith<F>, two: bool, p: IqParts, largest: nat, g: nat, l: nat): F
    requires p.Valid(largest) && g < 8 && l < 32
  {
    var scale := IqScale(ar, two, p.d, if l < 16 then p.nibbles[g][0] else p.nibbles[g][1]);
    ar.mul(ar.mul(scale, ar.ofInt(p.mags[g][l])), ar.ofInt(p.signs[g][l]))
  }

  /** What a row decodes to. */
  function IqValues<F>(ar: Arith<F>, two: bool, p: IqParts, largest: nat, g: nat): (r: Row<F>)
    requires p.Valid(largest) && g < 8
    ensures |r| == 32 && forall l | 0 <= l < 32 :: r[l] == IqValue(ar, two, p, largest, g, l)
  {
    seq(32, l requires 0 <= l < 32 => IqValue(ar, two, p, largest, g, l))
  }

  method DecodeIqRow<F>(ar: Arith<F>, two: bool, p: IqParts, largest: nat, g: nat) returns (values: Row<F>)
    requires p.Valid(largest) && g < 8
    ensures values == IqValues(ar, two, p, largest, g)
  {
    var scale0, scale1 := IqScale(ar, two, p.d, p.nibbles[g][0]), IqScale(ar, two, p.d, p.nibbles[g][1]);
    values := [];
    for l := 0 to 32
      invariant |values| == l && forall i | 0 <= i < l :: values[i] == IqValue(ar, two, p, largest, g, i)
    {
      values := values + [ar.mul(ar.mul(if l < 16 then scale0 else scale1, ar.ofInt(p.mags[g][l])),
                                 ar.ofInt(p.signs[g][l]))];
    }
  }

  /** The decoders of IQ2_S and IQ3_S blocks. */
  method DecodeIq<F>(ar: Arith<F>, iq: Iq, w: seq<byte>) returns (output: seq<Row<F>>)
    requires iq.Valid() && |w| == iq.Bytes()
    ensures |output| == 8 &&
            forall g | 0 <= g < 8 :: output[g] == IqValues(ar, iq.Iq2?, IqPartsOf(iq, w), iq.Largest(), g)
  {
    var p := UnpackIq(iq, w);
    output := DecodeIqRows(ar, iq.Iq2?, p, iq.Largest());
  }

  method DecodeIqRows<F>(ar: Arith<F>, two: bool, p: IqParts, largest: nat) returns (output: seq<Row<F>>)
    requires p.Valid(largest)
    ensures |output| == 8 && forall g | 0 <= g < 8 :: output[g] == IqValues(ar, two, p, largest, g)
  {
    output := [];
    for g := 0 to 8
      invariant |output| == g && forall h | 0 <= h < g :: output[h] == IqValues(ar, two, p, largest, h)
    {
      var row := DecodeIqRow(ar, two, p, largest, g);
      output := output + [row];
    }
  }
}
