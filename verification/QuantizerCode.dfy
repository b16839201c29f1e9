/** The Q8_K encoder: the loops over a row, and what its stored blocks mean to the dot products. */
module QuantizerCode {
  import opened Common
  import opened QuantSums
  import opened QuantBlocks
  import opened QuantDot
  import opened QuantPacking
  import opened QuantMeaning
  import opened Quantizer

  /** How a real scale is stored in 32 bits. */
  type Encoder = real -> F32

  predicate Bytes8(lanes: seq<int>) {
    |lanes| == 256 && forall i | 0 <= i < 256 :: -127 <= lanes[i] <= 127
  }

  function LaneBytes(lanes: seq<int>): (r: seq<byte>)
    requires Bytes8(lanes)
    ensures |r| == 256 && forall i | 0 <= i < 256 :: r[i] == SignedByte(lanes[i])
  {
    seq(256, i requires 0 <= i < 256 => SignedByte(lanes[i]))
  }

  lemma GroupSum(lanes: seq<int>, group: nat)
    requires Bytes8(lanes) && group < 16
    ensures -2032 <= Sum(lanes, 16 * group, 16) <= 2032
  {
    SumWithin(lanes, 16 * group, 16, 127);
  }

  /** The sums of the first `n` groups of sixteen lanes, two bytes each. */
  function SumBytes(lanes: seq<int>, n: nat): (r: seq<byte>)
    requires Bytes8(lanes) && n <= 16
    ensures |r| == 2 * n
  {
    if n == 0 then []
    else
      GroupSum(lanes, n - 1);
      var sum := Sum(lanes, 16 * (n - 1), 16);
      SumBytes(lanes, n - 1) + TwoBytes(SignedWord(sum))
  }

  lemma {:induction false} SumBytesAt(lanes: seq<int>, n: nat, group: nat)
    requires Bytes8(lanes) && group < n <= 16
    ensures -32768 <= Sum(lanes, 16 * group, 16) <= 32767
    ensures IsSlice(SumBytes(lanes, n), 2 * group, TwoBytes(SignedWord(Sum(lanes, 16 * group, 16))))
    decreases n
  {
    GroupSum(lanes, group);
    GroupSum(lanes, n - 1);
    var last := TwoBytes(SignedWord(Sum(lanes, 16 * (n - 1), 16)));
    if group < n - 1 {
      SumBytesAt(lanes, n - 1, group);
      StillSlice(SumBytes(lanes, n - 1), last, 2 * group, TwoBytes(SignedWord(Sum(lanes, 16 * group, 16))));
    } else {
      SliceAfter(SumBytes(lanes, n - 1), last, 0, last);
    }
  }

  /** The bytes of a block: scale, lanes, sums. */
  function Packed(bits: F32, lanes: seq<int>): (r: Q8Block)
    requires Bytes8(lanes)
  {
    Le(bits, 4) + LaneBytes(lanes) + SumBytes(lanes, 16)
  }

  lemma LanesFit(values: Values)
    ensures Bytes8(QLanes(values))
  {
    forall i | 0 <= i < 256 ensures -127 <= QLanes(values)[i] <= 127 {
      LanesInRange(values, i);
    }
  }

  /** The stored form of a block of 256 values. */
  function Encoded(bits: Encoder, values: Values): Q8Block {
    LanesFit(values);
    if Extreme(values, 256) == 0.0 then Zeros(Q8_BYTES, 0) else Packed(bits(ScaleOf(values)), QLanes(values))
  }

  /** The bits of the stored scale. */
  function StoredScale(bits: Encoder, values: Values): F32 {
    if Extreme(values, 256) == 0.0 then 0 else bits(ScaleOf(values))
  }

  // --- reading a block back ------------------------------------------------------------------------

  ghost predicate Holds(a: Q8Parts, bits: nat, lanes: seq<int>) {
    a.Valid() && a.d == bits && |lanes| == 256 &&
    (forall g | 0 <= g < 8 :: a.rows[g] == lanes[32 * g..32 * g + 32]) &&
    forall k | 0 <= k < 16 :: a.sums[k] == Sum(lanes, 16 * k, 16)
  }

  lemma PackedRow(bits: F32, lanes: seq<int>, g: nat)
    requires Bytes8(lanes) && g < 8
    ensures ActRow(Packed(bits, lanes), g) == lanes[32 * g..32 * g + 32]
  {
    var block, row := Packed(bits, lanes), ActRow(Packed(bits, lanes), g);
    forall l | 0 <= l < 32 ensures row[l] == lanes[32 * g..32 * g + 32][l] {
      assert block[4 + 32 * g + l] == LaneBytes(lanes)[32 * g + l];
    }
  }

  lemma PackedSum(bits: F32, lanes: seq<int>, k: nat)
    requires Bytes8(lanes) && k < 16
    ensures var block := Packed(bits, lanes);
            I16(block[260 + 2 * k], block[261 + 2 * k]) == Sum(lanes, 16 * k, 16)
  {
    var block, sum := Packed(bits, lanes), Sum(lanes, 16 * k, 16);
    SumBytesAt(lanes, 16, k);
    SliceAfter(Le(bits, 4) + LaneBytes(lanes), SumBytes(lanes, 16), 2 * k, TwoBytes(SignedWord(sum)));
    TwoAt(block, 260 + 2 * k, TwoBytes(SignedWord(sum)));
    I16OfWord(sum);
  }

  lemma TwoAt(block: seq<byte>, at: nat, two: seq<byte>)
    requires |two| == 2 && IsSlice(block, at, two)
    ensures block[at] == two[0] && block[at + 1] == two[1]
  {
    assert block[at..at + 2][0] == two[0] && block[at..at + 2][1] == two[1];
  }

  lemma PackedHolds(bits: F32, lanes: seq<int>)
    requires Bytes8(lanes)
    ensures Holds(Q8PartsOf(Packed(bits, lanes)), bits, lanes)
  {
    var block := Packed(bits, lanes);
    assert block[0..4] == Le(bits, 4);
    Pow256Values();
    LeRoundTrip(bits, 4);
    forall g | 0 <= g < 8 ensures Q8PartsOf(block).rows[g] == lanes[32 * g..32 * g + 32] {
      PackedRow(bits, lanes, g);
    }
    forall k | 0 <= k < 16 ensures Q8PartsOf(block).sums[k] == Sum(lanes, 16 * k, 16) {
      PackedSum(bits, lanes, k);
    }
  }

  lemma ZeroHolds(lanes: seq<int>)
    requires |lanes| == 256 && forall i | 0 <= i < 256 :: lanes[i] == 0
    ensures Holds(Q8PartsOf(Zeros(Q8_BYTES, 0)), 0, lanes)
  {
    var block: Q8Block := Zeros(Q8_BYTES, 0);
    assert block[0..4] == [0, 0, 0, 0];
    assert FromLe([0, 0, 0, 0]) == 0 by {
      assert Le(0, 4) == [0, 0, 0, 0];
      Pow256Values();
      LeRoundTrip(0, 4);
    }
    forall g | 0 <= g < 8 ensures Q8PartsOf(block).rows[g] == lanes[32 * g..32 * g + 32] {
      assert ActRow(block, g) == lanes[32 * g..32 * g + 32];
    }
    forall k | 0 <= k < 16 ensures Q8PartsOf(block).sums[k] == Sum(lanes, 16 * k, 16) {
      SumWithin(lanes, 16 * k, 16, 0);
    }
  }

  lemma ZeroLanes(values: Values)
    requires Extreme(values, 256) == 0.0
    ensures forall i | 0 <= i < 256 :: QLanes(values)[i] == 0
  {}

  /** Reading a stored block gives back its scale, its lanes and the sums of its lanes. */
  lemma EncodedHolds(bits: Encoder, values: Values)
    ensures Holds(Q8PartsOf(Encoded(bits, values)), StoredScale(bits, values), QLanes(values))
  {
    LanesFit(values);
    if Extreme(values, 256) == 0.0 {
      ZeroLanes(values);
      ZeroHolds(QLanes(values));
    } else {
      PackedHolds(bits(ScaleOf(values)), QLanes(values));
    }
  }

  /** The condition under which the Q4_K and Q5_K dot products keep their meaning. */
  lemma EncodedSumsCorrect(bits: Encoder, values: Values)
    ensures SumsCorrect(Q8PartsOf(Encoded(bits, values)))
  {
    EncodedHolds(bits, values);
    HoldsSums(Q8PartsOf(Encoded(bits, values)), StoredScale(bits, values), QLanes(values));
  }

  lemma HoldsSums(a: Q8Parts, bits: nat, lanes: seq<int>)
    requires Holds(a, bits, lanes)
    ensures SumsCorrect(a)
  {
    forall g | 0 <= g < 8
      ensures a.sums[2 * g] == Sum(a.rows[g], 0, 16) && a.sums[2 * g + 1] == Sum(a.rows[g], 16, 16)
    {
      SumOfSlice(lanes, 32 * g, 32, 32);
      SumOfSlice(lanes, 32 * g, 16, 32);
      SumSplit(a.rows[g], 0, 16, 16);
      SumSplit(lanes, 32 * g, 16, 16);
      assert 16 * (2 * g) == 32 * g && 16 * (2 * g + 1) == 32 * g + 16;
    }
  }

  // --- the loops ---------------------------------------------------------------------------------------

  method FindExtreme(values: Values) returns (max: real, absoluteMax: real)
    ensures max == Extreme(values, 256) && absoluteMax == Abs(max)
  {
    max, absoluteMax := 0.0, 0.0;
    for i := 0 to 256
      invariant max == Extreme(values, i) && absoluteMax == Abs(max)
    {
      var absolute := Abs(values[i]);
      if absolute > absoluteMax {
        absoluteMax, max := absolute, values[i];
      }
    }
  }

  method QuantizeLane(inverse: real, max: real, value: real) returns (q: int)
    requires max != 0.0 && inverse == -127.0 / max && Abs(value) <= Abs(max)
    ensures q == Lane(max, value)
  {
    var scaled := inverse * value;
    Scaled(max, value, inverse, scaled);
    NearestIntRounds(scaled);
    q := NearestInt(scaled);
    if q > 127 {
      q := 127;
    }
  }

  lemma Scaled(max: real, value: real, inverse: real, scaled: real)
    requires max != 0.0 && Abs(value) <= Abs(max) && inverse == -127.0 / max && scaled == inverse * value
    ensures -127.0 <= scaled <= 127.0 && Lane(max, value) == RoundHalfEven(scaled) <= 127
  {
    assert scaled == -127.0 / max * value;
    Quotient(max, value);
    LaneIsRounded(max, value);
    RoundWithin(scaled, 127);
  }

  method SumGroup(lanes: seq<int>, group: nat) returns (sum: int)
    requires Bytes8(lanes) && group < 16
    ensures sum == Sum(lanes, 16 * group, 16)
  {
    sum := 0;
    for lane := 0 to 16
      invariant sum == Sum(lanes, 16 * group, lane)
    {
      SumWithin(lanes, 16 * group, lane, 127);
      sum := Wrap32(sum + lanes[16 * group + lane]);
    }
  }

  method PackSums(lanes: seq<int>) returns (sums: seq<byte>)
    requires Bytes8(lanes)
    ensures sums == SumBytes(lanes, 16)
  {
    sums := [];
    for group := 0 to 16
      invariant sums == SumBytes(lanes, group)
    {
      var sum := SumGroup(lanes, group);
      GroupSum(lanes, group);
      sums := sums + TwoBytes(SignedWord(sum));
    }
  }

  method QuantizeBlock(bits: Encoder, values: Values) returns (output: Q8Block)
    ensures output == Encoded(bits, values)
  {
    var max, absoluteMax := FindExtreme(values);
    if absoluteMax == 0.0 {
      return Zeros(Q8_BYTES, 0);
    }
    var inverse := -127.0 / max;
    var lanes := QuantizeLanes(values, max, inverse);
    LanesFit(values);
    var sums := PackSums(lanes);
    Quotient(max, max);
    output := Le(bits(1.0 / inverse), 4) + LaneBytes(lanes) + sums;
  }

  method QuantizeLanes(values: Values, max: real, inverse: real) returns (lanes: seq<int>)
    requires max == Extreme(values, 256) != 0.0 && inverse == -127.0 / max
    ensures lanes == QLanes(values)
  {
    lanes := [];
    for i := 0 to 256
      invariant |lanes| == i && forall j | 0 <= j < i :: lanes[j] == Lane(max, values[j])
    {
      var q := QuantizeLane(inverse, max, values[i]);
      lanes := lanes + [q];
    }
  }

  function BlockValues(input: seq<real>, n: nat, b: nat): Values
    requires |input| == 256 * n && b < n
  {
    input[256 * b..256 * b + 256]
  }

  datatype QuantizeError =
    | ZeroLogicalElements
    | NotDivisible
    | ArithmeticOverflow
    | EncodedLengthMismatch
    | NonFiniteActivation(index: nat)

  /** What the lengths alone decide, in the order of the checks. */
  function LengthError(elements: nat, length: nat): (r: Option<QuantizeError>)
    ensures r == None <==> 0 < elements && elements % 256 == 0 && length == elements / 256 * 292 <= USIZE_MAX
  {
    if elements == 0 then Some(ZeroLogicalElements)
    else if elements % 256 != 0 then Some(NotDivisible)
    else if elements / 256 * Q8_BYTES > USIZE_MAX then Some(ArithmeticOverflow)
    else if length != elements / 256 * Q8_BYTES then Some(EncodedLengthMismatch)
    else None
  }

  /** The first activation that is not finite. */
  method FirstNonFinite(input: seq<Number>) returns (index: Option<nat>)
    ensures index == None <==> Finites(input)
    ensures index.Some? ==> index.value < |input| && input[index.value].NonFinite? && Finites(input[..index.value])
  {
    for i := 0 to |input|
      invariant Finites(input[..i])
    {
      if input[i].NonFinite? {
        return Some(i);
      }
      assert input[..i + 1] == input[..i] + [input[i]];
    }
    assert input[..|input|] == input;
    index := None;
  }

  /** A whole row into a buffer of `length` bytes. Lengths are checked first, then every activation
      for finiteness; the first offender is named. */
  method QuantizeRow(bits: Encoder, input: seq<Number>, length: nat) returns (r: Result<seq<byte>, QuantizeError>)
    ensures r.Ok? <==> LengthError(|input|, length) == None && Finites(input)
    ensures LengthError(|input|, length).Some? ==> r == Err(LengthError(|input|, length).value)
    ensures r.Err? && LengthError(|input|, length) == None ==>
              r.error.NonFiniteActivation? && r.error.index < |input| &&
              input[r.error.index].NonFinite? && Finites(input[..r.error.index])
    ensures r.Ok? ==> var n := |input| / 256;
                      |input| == 256 * n && |r.value| == length && RowEncodes(bits, Reals(input), n, r.value, n)
  {
    var problem := LengthError(|input|, length);
    if problem.Some? {
      return Err(problem.value);
    }
    var index := FirstNonFinite(input);
    if index.Some? {
      return Err(NonFiniteActivation(index.value));
    }
    var output := QuantizeBlocks(bits, Reals(input), |input| / 256);
    r := Ok(output);
  }

  /** `output` holds the stored forms of the first `count` blocks. */
  ghost predicate RowEncodes(bits: Encoder, input: seq<real>, n: nat, output: seq<byte>, count: nat)
    requires |input| == 256 * n && count <= n
  {
    |output| == count * Q8_BYTES &&
    forall b | 0 <= b < count :: Block(output, Q8_BYTES, count, b) == Encoded(bits, BlockValues(input, n, b))
  }

  method QuantizeBlocks(bits: Encoder, input: seq<real>, n: nat) returns (output: seq<byte>)
    requires |input| == 256 * n
    ensures RowEncodes(bits, input, n, output, n)
  {
    output := [];
    for b := 0 to n
      invariant RowEncodes(bits, input, n, output, b)
    {
      var block := QuantizeBlock(bits, BlockValues(input, n, b));
      ExtendRow(bits, input, n, output, b, block);
      output := output + block;
    }
  }

  lemma ExtendRow(bits: Encoder, input: seq<real>, n: nat, output: seq<byte>, count: nat, block: Q8Block)
    requires |input| == 256 * n && count < n && RowEncodes(bits, input, n, output, count) &&
             block == Encoded(bits, BlockValues(input, n, count))
    ensures RowEncodes(bits, input, n, output + block, count + 1)
  {
    AppendBlock(output, block, count);
    forall b | 0 <= b < count + 1
      ensures Block(output + block, Q8_BYTES, count + 1, b) == Encoded(bits, BlockValues(input, n, b))
    {
      if b < count {
        assert Block(output, Q8_BYTES, count, b) == Encoded(bits, BlockValues(input, n, b));
      }
    }
  }

  lemma AppendBlock(output: seq<byte>, block: Q8Block, n: nat)
    requires |output| == n * Q8_BYTES
    ensures |output + block| == (n + 1) * Q8_BYTES
    ensures Block(output + block, Q8_BYTES, n + 1, n) == block
    ensures forall i | 0 <= i < n :: Block(output + block, Q8_BYTES, n + 1, i) == Block(output, Q8_BYTES, n, i)
  {
    forall i | 0 <= i < n ensures Block(output + block, Q8_BYTES, n + 1, i) == Block(output, Q8_BYTES, n, i) {
      BlockFits(i, n, Q8_BYTES);
    }
  }

  /** A quantised row, read byte by byte: lane `i` of block `b` stands for value 256 * b + i of the
      input, up to the error of one rounding, under the scale stored at the front of its block. */
  lemma StoredLane(bits: Encoder, input: seq<real>, n: nat, q8: seq<byte>, b: nat, i: nat)
    requires |input| == 256 * n && RowEncodes(bits, input, n, q8, n) && b < n && i < 256
    ensures |q8| == n * 292 && 0 <= b * 292 && b * 292 + 292 <= |q8|
    ensures var block, values := q8[b * 292..b * 292 + 292], input[256 * b..256 * b + 256];
            FromLe(block[0..4]) == StoredScale(bits, values) &&
            Close(input[256 * b + i], ScaleOf(values), I8(block[4 + i]), Extreme(values, 256))
  {
    var values: Values := input[256 * b..256 * b + 256];
    BlockFits(b, n, Q8_BYTES);
    assert values == BlockValues(input, n, b) && values[i] == input[256 * b + i];
    var block := Block(q8, Q8_BYTES, n, b);
    assert block == Encoded(bits, values);
    EncodedLane(bits, values, block, i);
    QuantisationError(values, i);
  }

  lemma EncodedLane(bits: Encoder, values: Values, block: Q8Block, i: nat)
    requires block == Encoded(bits, values) && i < 256
    ensures FromLe(block[0..4]) == StoredScale(bits, values) && I8(block[4 + i]) == QLanes(values)[i]
  {
    EncodedHolds(bits, values);
    var g, l := Divide(i, 32);
    RowLane(Q8PartsOf(block), block, StoredScale(bits, values), QLanes(values), g, l);
  }

  lemma RowLane(a: Q8Parts, block: Q8Block, bits: nat, lanes: seq<int>, g: nat, l: nat)
    requires a == Q8PartsOf(block) && Holds(a, bits, lanes) && g < 8 && l < 32
    ensures FromLe(block[0..4]) == bits && I8(block[4 + (32 * g + l)]) == lanes[32 * g + l]
  {
    assert a.rows[g] == ActRow(block, g);
    assert a.rows[g][l] == lanes[32 * g..32 * g + 32][l];
  }

  /** Quantise a row, then take a packed Q4_K or Q5_K dot product with it: over exact reals the
      result is the sum of decoded weights times stored activations. */
  lemma QuantizedDotMeaning(f: Floats, bits: Encoder, ty: KType, weights: seq<byte>, input: seq<real>, q8: seq<byte>,
                            n: nat)
    requires |weights| == n * ty.Bytes() && |input| == 256 * n && RowEncodes(bits, input, n, q8, n)
    ensures KDot(f.Ar(), KFields(ty, weights, n), Q8Fields(q8, n)) ==
            KDecodedDot(f, KFields(ty, weights, n), Q8Fields(q8, n), n)
  {
    forall b | 0 <= b < n ensures SumsCorrect(Q8Fields(q8, n)[b]) {
      EncodedSumsCorrect(bits, BlockValues(input, n, b));
    }
    KDotMeaning(f, ty, weights, q8, n);
  }
}
