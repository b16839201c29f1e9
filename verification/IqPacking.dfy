/** The byte layouts of IQ2_S and IQ3_S blocks, written as packing: grid indices, signs and scales
    in, bytes out. Reading looks up exactly the packed indices, and no byte has a second reading. */
module IqPacking {
  import opened Common
  import opened QuantBlocks
  import opened QuantPacking

  /** The fields of a block before the grid is looked up. A row has four grid indices of eight lanes
      in IQ2_S and eight of four lanes in IQ3_S; `signs` says which lanes are negative. */
  datatype Fields = Fields(d: nat, nibbles: seq<seq<int>>, indices: seq<seq<nat>>, signs: seq<seq<bool>>)

  function PerRow(iq: Iq): nat { if iq.Iq2? then 4 else 8 }

  function Entries(iq: Iq): nat { if iq.Iq2? then 1024 else 512 }

  ghost predicate RowPackable(iq: Iq, nibbles: seq<int>, indices: seq<nat>, signs: seq<bool>) {
    |nibbles| == 2 && 0 <= nibbles[0] < 16 && 0 <= nibbles[1] < 16 && (iq.Iq3? ==> nibbles[0] == nibbles[1]) &&
    |indices| == PerRow(iq) && (forall j | 0 <= j < |indices| :: indices[j] < Entries(iq)) && |signs| == 32
  }

  ghost predicate Packable(iq: Iq, f: Fields) {
    f.d < 65536 && |f.nibbles| == |f.indices| == |f.signs| == 8 &&
    forall g | 0 <= g < 8 :: RowPackable(iq, f.nibbles[g], f.indices[g], f.signs[g])
  }

  /** Two bits for each of four indices, lowest first. */
  function HighPairs(indices: seq<nat>): byte
    requires |indices| == 4 && forall j | 0 <= j < 4 :: indices[j] < 1024
  {
    indices[0] / 256 + 4 * (indices[1] / 256) + 16 * (indices[2] / 256) + 64 * (indices[3] / 256)
  }

  /** One bit for each of eight indices. */
  function HighSingles(indices: seq<nat>): (r: seq<bool>)
    requires |indices| == 8
    ensures |r| == 8 && forall j | 0 <= j < 8 :: r[j] == (indices[j] >= 256)
  {
    seq(8, j requires 0 <= j < 8 => indices[j] >= 256)
  }

  function Octet(signs: seq<bool>, oct: nat): (r: seq<bool>)
    requires |signs| == 32 && oct < 4
    ensures |r| == 8 && forall l | 0 <= l < 8 :: r[l] == signs[8 * oct + l]
  {
    signs[8 * oct..8 * oct + 8]
  }

  ghost function Pack2(iq: Iq, f: Fields): (r: seq<byte>)
    requires iq.Iq2? && Packable(iq, f)
    ensures |r| == 82
  {
    assert forall g | 0 <= g < 8 :: RowPackable(iq, f.nibbles[g], f.indices[g], f.signs[g]);
    TwoBytes(f.d) +
    seq(32, i requires 0 <= i < 32 => f.indices[i / 4][i % 4] % 256) +
    seq(32, i requires 0 <= i < 32 => BitsByte(Octet(f.signs[i / 4], i % 4))) +
    seq(8, g requires 0 <= g < 8 => HighPairs(f.indices[g])) +
    seq(8, g requires 0 <= g < 8 => f.nibbles[g][0] + 16 * f.nibbles[g][1])
  }

  ghost function Pack3(iq: Iq, f: Fields): (r: seq<byte>)
    requires iq.Iq3? && Packable(iq, f)
    ensures |r| == 110
  {
    assert forall g | 0 <= g < 8 :: RowPackable(iq, f.nibbles[g], f.indices[g], f.signs[g]);
    TwoBytes(f.d) +
    seq(64, i requires 0 <= i < 64 => f.indices[i / 8][i % 8] % 256) +
    seq(8, g requires 0 <= g < 8 => BitsByte(HighSingles(f.indices[g]))) +
    seq(32, i requires 0 <= i < 32 => BitsByte(Octet(f.signs[i / 4], i % 4))) +
    seq(4, p requires 0 <= p < 4 => f.nibbles[2 * p][0] + 16 * f.nibbles[2 * p + 1][0])
  }

  ghost function Pack(iq: Iq, f: Fields): (r: seq<byte>)
    requires Packable(iq, f)
    ensures |r| == iq.Bytes()
  {
    if iq.Iq2? then Pack2(iq, f) else Pack3(iq, f)
  }

  // --- where the bytes are -----------------------------------------------------------------------

  lemma RowOf(iq: Iq, f: Fields, g: nat)
    requires Packable(iq, f) && g < 8
    ensures RowPackable(iq, f.nibbles[g], f.indices[g], f.signs[g])
  {}

  lemma FactorAt(iq: Iq, f: Fields)
    requires Packable(iq, f)
    ensures Pack(iq, f)[0..2] == TwoBytes(f.d)
  {
    assert Pack(iq, f)[0..2] == TwoBytes(f.d);
  }

  lemma Index2At(iq: Iq, f: Fields, g: nat, oct: nat)
    requires iq.Iq2? && Packable(iq, f) && g < 8 && oct < 4
    ensures |f.indices[g]| == 4 && Pack2(iq, f)[2 + g * 4 + oct] == f.indices[g][oct] % 256
  {
    RowOf(iq, f, g);
    var i := g * 4 + oct;
    assert i / 4 == g && i % 4 == oct;
    assert Pack2(iq, f)[2 + i] == f.indices[i / 4][i % 4] % 256;
  }

  lemma Index3At(iq: Iq, f: Fields, g: nat, j: nat)
    requires iq.Iq3? && Packable(iq, f) && g < 8 && j < 8
    ensures |f.indices[g]| == 8 && Pack3(iq, f)[2 + g * 8 + j] == f.indices[g][j] % 256
  {
    RowOf(iq, f, g);
    var i := g * 8 + j;
    assert i / 8 == g && i % 8 == j;
    assert Pack3(iq, f)[2 + i] == f.indices[i / 8][i % 8] % 256;
  }

  lemma High2At(iq: Iq, f: Fields, g: nat)
    requires iq.Iq2? && Packable(iq, f) && g < 8
    ensures RowPackable(iq, f.nibbles[g], f.indices[g], f.signs[g])
    ensures Pack2(iq, f)[66 + g] == HighPairs(f.indices[g])
  {
    RowOf(iq, f, g);
  }

  lemma High3At(iq: Iq, f: Fields, g: nat)
    requires iq.Iq3? && Packable(iq, f) && g < 8
    ensures |f.indices[g]| == 8 && Pack3(iq, f)[66 + g] == BitsByte(HighSingles(f.indices[g]))
  {
    RowOf(iq, f, g);
  }

  lemma SignAt(iq: Iq, f: Fields, g: nat, oct: nat)
    requires Packable(iq, f) && g < 8 && oct < 4
    ensures |f.signs[g]| == 32
    ensures iq.SignByte(Pack(iq, f), g, oct) == BitsByte(Octet(f.signs[g], oct))
  {
    RowOf(iq, f, g);
    var i := g * 4 + oct;
    assert i / 4 == g && i % 4 == oct;
    if iq.Iq2? {
      assert Pack2(iq, f)[34 + i] == BitsByte(Octet(f.signs[i / 4], i % 4));
    } else {
      assert Pack3(iq, f)[74 + i] == BitsByte(Octet(f.signs[i / 4], i % 4));
    }
  }

  lemma Nibbles2At(iq: Iq, f: Fields, g: nat) returns (low: nat, high: nat)
    requires iq.Iq2? && Packable(iq, f) && g < 8
    ensures low < 16 && high < 16 && f.nibbles[g] == [low, high] && Pack2(iq, f)[74 + g] == low + 16 * high
  {
    RowOf(iq, f, g);
    low, high := f.nibbles[g][0], f.nibbles[g][1];
  }

  lemma Nibbles3At(iq: Iq, f: Fields, p: nat) returns (low: nat, high: nat)
    requires iq.Iq3? && Packable(iq, f) && p < 4
    ensures low < 16 && high < 16 && f.nibbles[2 * p] == [low, low] && f.nibbles[2 * p + 1] == [high, high]
    ensures Pack3(iq, f)[106 + p] == low + 16 * high
  {
    RowOf(iq, f, 2 * p);
    RowOf(iq, f, 2 * p + 1);
    low, high := f.nibbles[2 * p][0], f.nibbles[2 * p + 1][0];
  }

  // --- reading -----------------------------------------------------------------------------------

  lemma PairOf(a: nat, b: nat, c: nat, d: nat, packed: byte)
    requires a < 4 && b < 4 && c < 4 && d < 4 && packed == a + 4 * b + 16 * c + 64 * d
    ensures Pair(packed, 0) == a && Pair(packed, 1) == b && Pair(packed, 2) == c && Pair(packed, 3) == d
  {
    assert packed % 4 == a && packed / 4 == b + 4 * c + 16 * d;
    assert packed / 4 % 4 == b && packed / 4 / 4 == c + 4 * d;
    assert packed / 4 / 4 % 4 == c && packed / 4 / 4 / 4 == d;
    assert Pair(packed / 4 / 4 / 4, 0) == d;
    assert Pair(packed / 4 / 4, 1) == d && Pair(packed / 4 / 4, 0) == c;
    assert Pair(packed / 4, 2) == d && Pair(packed / 4, 1) == c && Pair(packed / 4, 0) == b;
  }

  lemma PairsOf(indices: seq<nat>, oct: nat)
    requires |indices| == 4 && (forall j | 0 <= j < 4 :: indices[j] < 1024) && oct < 4
    ensures Pair(HighPairs(indices), oct) == indices[oct] / 256
  {
    PairOf(indices[0] / 256, indices[1] / 256, indices[2] / 256, indices[3] / 256, HighPairs(indices));
  }

  lemma LowHigh(n: nat)
    ensures n == n % 256 + n / 256 * 256
  {}

  lemma IndexRead(iq: Iq, f: Fields, g: nat, oct: nat)
    requires iq.Iq2? && Packable(iq, f) && g < 8 && oct < 4
    ensures RowPackable(iq, f.nibbles[g], f.indices[g], f.signs[g])
    ensures iq.Index(Pack(iq, f), g, oct) == f.indices[g][oct]
  {
    Index2At(iq, f, g, oct);
    High2At(iq, f, g);
    PairsOf(f.indices[g], oct);
    LowHigh(f.indices[g][oct]);
  }

  /** The low byte and the high bit of index `j` of a row of IQ3_S. */
  lemma SingleRead(iq: Iq, f: Fields, g: nat, j: nat) returns (low: byte, high: bool)
    requires iq.Iq3? && Packable(iq, f) && g < 8 && j < 8
    ensures RowPackable(iq, f.nibbles[g], f.indices[g], f.signs[g])
    ensures Pack(iq, f)[2 + g * 8 + j] == low && Bit(Pack(iq, f)[66 + g], j) == high
    ensures f.indices[g][j] == low + if high then 256 else 0
  {
    RowOf(iq, f, g);
    Index3At(iq, f, g, j);
    High3At(iq, f, g);
    BitsRead(HighSingles(f.indices[g]), j);
    low, high := SplitSingle(f.indices[g][j]);
  }

  lemma SplitSingle(n: nat) returns (low: byte, high: bool)
    requires n < 512
    ensures low == n % 256 && high == (n >= 256) && n == low + if high then 256 else 0
  {
    low, high := n % 256, n >= 256;
  }

  lemma Index12Read(iq: Iq, f: Fields, g: nat, oct: nat)
    requires iq.Iq3? && Packable(iq, f) && g < 8 && oct < 4
    ensures RowPackable(iq, f.nibbles[g], f.indices[g], f.signs[g])
    ensures iq.Index1(Pack(iq, f), g, oct) == f.indices[g][2 * oct]
    ensures iq.Index2(Pack(iq, f), g, oct) == f.indices[g][2 * oct + 1]
  {
    var low, high := SingleRead(iq, f, g, 2 * oct);
    assert Pack(iq, f)[2 + g * 8 + oct * 2] == low;
    var low', high' := SingleRead(iq, f, g, 2 * oct + 1);
    assert Pack(iq, f)[2 + g * 8 + oct * 2 + 1] == low';
  }

  lemma SignsRead(iq: Iq, f: Fields, g: nat, oct: nat, l: nat)
    requires Packable(iq, f) && g < 8 && oct < 4 && l < 8
    ensures |f.signs[g]| == 32
    ensures SignsOf(iq.SignByte(Pack(iq, f), g, oct))[l] == if f.signs[g][8 * oct + l] then -1 else 1
  {
    SignAt(iq, f, g, oct);
    BitsRead(Octet(f.signs[g], oct), l);
  }

  lemma NibblesRead(iq: Iq, f: Fields, g: nat)
    requires Packable(iq, f) && g < 8
    ensures iq.Nibbles(Pack(iq, f), g) == f.nibbles[g]
  {
    if iq.Iq2? {
      var low, high := Nibbles2At(iq, f, g);
      FourAndFour(low, high);
    } else {
      var low, high := Nibbles3At(iq, f, g / 2);
      FourAndFour(low, high);
      assert g == 2 * (g / 2) + g % 2;
    }
  }

  lemma {:induction false} MagsAt(iq: Iq, w: seq<byte>, g: nat, n: nat, oct: nat, l: nat)
    requires iq.Valid() && |w| == iq.Bytes() && g < 8 && oct < n <= 4 && l < 8
    ensures MagsTo(iq, w, g, n)[8 * oct + l] == iq.Mags(w, g, oct)[l]
    decreases n
  {
    var before, last := MagsStep(iq, w, g, n);
    if oct < n - 1 {
      MagsAt(iq, w, g, n - 1, oct, l);
    }
    Joined(before, last, 8 * oct + l);
  }

  lemma MagsStep(iq: Iq, w: seq<byte>, g: nat, n: nat) returns (before: seq<int>, last: seq<int>)
    requires iq.Valid() && |w| == iq.Bytes() && g < 8 && 0 < n <= 4
    ensures before == MagsTo(iq, w, g, n - 1) && last == iq.Mags(w, g, n - 1) && |before| == 8 * (n - 1) && |last| == 8
    ensures MagsTo(iq, w, g, n) == before + last
  {
    before, last := MagsTo(iq, w, g, n - 1), iq.Mags(w, g, n - 1);
  }

  lemma Joined(a: seq<int>, b: seq<int>, i: nat)
    requires i < |a| + |b|
    ensures (a + b)[i] == if i < |a| then a[i] else b[i - |a|]
  {}

  lemma {:induction false} SignsAt(iq: Iq, w: seq<byte>, g: nat, n: nat, oct: nat, l: nat)
    requires |w| == iq.Bytes() && g < 8 && oct < n <= 4 && l < 8
    ensures SignsTo(iq, w, g, n)[8 * oct + l] == SignsOf(iq.SignByte(w, g, oct))[l]
    decreases n
  {
    if oct < n - 1 {
      SignsAt(iq, w, g, n - 1, oct, l);
      assert 8 * oct + l < |SignsTo(iq, w, g, n - 1)|;
    }
  }

  /** The grid value of one lane, looked up with the packed indices. */
  function GridLane(iq: Iq, indices: seq<nat>, oct: nat, l: nat): int
    requires iq.Valid() && |indices| == PerRow(iq) && (forall j | 0 <= j < |indices| :: indices[j] < Entries(iq))
    requires oct < 4 && l < 8
  {
    assert |iq.grid| == Entries(iq);
    if iq.Iq2? then iq.grid[indices[oct]][l]
    else if l < 4 then iq.grid[indices[2 * oct]][l] else iq.grid[indices[2 * oct + 1]][l - 4]
  }

  ghost predicate LaneIs(iq: Iq, f: Fields, p: IqParts, g: nat, oct: nat, l: nat)
    requires iq.Valid() && Packable(iq, f) && p.Valid(iq.Largest()) && g < 8 && oct < 4 && l < 8
  {
    RowPackable(iq, f.nibbles[g], f.indices[g], f.signs[g]) &&
    p.mags[g][8 * oct + l] == GridLane(iq, f.indices[g], oct, l) &&
    p.signs[g][8 * oct + l] == if f.signs[g][8 * oct + l] then -1 else 1
  }

  lemma LaneRead(iq: Iq, f: Fields, g: nat, oct: nat, l: nat)
    requires iq.Valid() && Packable(iq, f) && g < 8 && oct < 4 && l < 8
    ensures LaneIs(iq, f, IqPartsOf(iq, Pack(iq, f)), g, oct, l)
  {
    MagsAt(iq, Pack(iq, f), g, 4, oct, l);
    SignsAt(iq, Pack(iq, f), g, 4, oct, l);
    SignsRead(iq, f, g, oct, l);
    if iq.Iq2? {
      IndexRead(iq, f, g, oct);
    } else {
      Index12Read(iq, f, g, oct);
    }
  }

  /** Whatever indices, signs and scales are packed into a block: reading it finds the factor and the
      scales, and every lane is the entry of the grid at the packed index with the packed sign. */
  lemma IqReadsPacked(iq: Iq, f: Fields)
    requires iq.Valid() && Packable(iq, f)
    ensures var p := IqPartsOf(iq, Pack(iq, f));
            p.d == f.d && p.nibbles == f.nibbles &&
            forall g: nat, oct: nat, l: nat | g < 8 && oct < 4 && l < 8 :: LaneIs(iq, f, p, g, oct, l)
  {
    var w := Pack(iq, f);
    var p := IqPartsOf(iq, w);
    FactorAt(iq, f);
    U16OfTwo(w, 0, f.d);
    forall g | 0 <= g < 8 ensures p.nibbles[g] == f.nibbles[g] {
      NibblesRead(iq, f, g);
    }
    forall g: nat, oct: nat, l: nat | g < 8 && oct < 4 && l < 8 ensures LaneIs(iq, f, p, g, oct, l) {
      LaneRead(iq, f, g, oct, l);
    }
  }

  // --- no second reading --------------------------------------------------------------------------

  function RowIndices(iq: Iq, w: seq<byte>, g: nat): (r: seq<nat>)
    requires |w| == iq.Bytes() && g < 8
    ensures |r| == PerRow(iq)
  {
    if iq.Iq2? then seq(4, oct requires 0 <= oct < 4 => iq.Index(w, g, oct))
    else seq(8, j requires 0 <= j < 8 => if j % 2 == 0 then iq.Index1(w, g, j / 2) else iq.Index2(w, g, j / 2))
  }

  function RowSigns(iq: Iq, w: seq<byte>, g: nat): (r: seq<bool>)
    requires |w| == iq.Bytes() && g < 8
    ensures |r| == 32
  {
    seq(32, l requires 0 <= l < 32 => Bit(iq.SignByte(w, g, l / 8), l % 8))
  }

  ghost function Unpack(iq: Iq, w: seq<byte>): (f: Fields)
    requires |w| == iq.Bytes()
    ensures Packable(iq, f)
  {
    TwoOfU16(w, 0);
    Fields(U16(w, 0),
           seq(8, g requires 0 <= g < 8 => iq.Nibbles(w, g)),
           seq(8, g requires 0 <= g < 8 => RowIndices(iq, w, g)),
           seq(8, g requires 0 <= g < 8 => RowSigns(iq, w, g)))
  }

  lemma SignsBack(iq: Iq, w: seq<byte>, g: nat, oct: nat)
    requires |w| == iq.Bytes() && g < 8 && oct < 4
    ensures BitsByte(Octet(RowSigns(iq, w, g), oct)) == iq.SignByte(w, g, oct)
  {
    var bits := Octet(RowSigns(iq, w, g), oct);
    forall l | 0 <= l < 8 ensures bits[l] == Bit(iq.SignByte(w, g, oct), l) {
      assert (8 * oct + l) / 8 == oct && (8 * oct + l) % 8 == l;
    }
    BitsExact(iq.SignByte(w, g, oct), bits);
  }

  lemma PairsBack(b: byte)
    ensures Pair(b, 0) + 4 * Pair(b, 1) + 16 * Pair(b, 2) + 64 * Pair(b, 3) == b
  {
    assert Pair(b / 4 / 4 / 4, 0) == b / 4 / 4 / 4;
    assert Pair(b, 3) == b / 4 / 4 / 4 && Pair(b, 2) == b / 4 / 4 % 4 && Pair(b, 1) == b / 4 % 4;
  }

  lemma Row2Back(iq: Iq, w: seq<byte>, g: nat)
    requires iq.Iq2? && |w| == 82 && g < 8
    ensures var n := RowIndices(iq, w, g);
            (forall oct | 0 <= oct < 4 :: n[oct] < 1024 && n[oct] % 256 == w[2 + g * 4 + oct]) &&
            HighPairs(n) == w[66 + g]
  {
    var n := RowIndices(iq, w, g);
    forall oct | 0 <= oct < 4
      ensures n[oct] < 1024 && n[oct] % 256 == w[2 + g * 4 + oct] && n[oct] / 256 == Pair(w[66 + g], oct)
    {
      assert n[oct] == iq.Index(w, g, oct);
    }
    PairsBack(w[66 + g]);
  }

  lemma Row3Back(iq: Iq, w: seq<byte>, g: nat)
    requires iq.Iq3? && |w| == 110 && g < 8
    ensures var n := RowIndices(iq, w, g);
            (forall j | 0 <= j < 8 :: n[j] % 256 == w[2 + g * 8 + j]) && BitsByte(HighSingles(n)) == w[66 + g]
  {
    var n := RowIndices(iq, w, g);
    forall j | 0 <= j < 8 ensures n[j] % 256 == w[2 + g * 8 + j] && HighSingles(n)[j] == Bit(w[66 + g], j) {
      assert n[j] == if j % 2 == 0 then iq.Index1(w, g, j / 2) else iq.Index2(w, g, j / 2);
      assert j == 2 * (j / 2) + j % 2;
    }
    BitsExact(w[66 + g], HighSingles(n));
  }

  lemma FactorBack(iq: Iq, w: seq<byte>, i: nat)
    requires |w| == iq.Bytes() && i < 2
    ensures Pack(iq, Unpack(iq, w))[i] == w[i]
  {
    FactorAt(iq, Unpack(iq, w));
    TwoOfU16(w, 0);
    assert Pack(iq, Unpack(iq, w))[0..2][i] == w[0..2][i];
  }

  lemma SignBack(iq: Iq, w: seq<byte>, f: Fields, g: nat, oct: nat)
    requires |w| == iq.Bytes() && f == Unpack(iq, w) && g < 8 && oct < 4
    ensures iq.SignByte(Pack(iq, f), g, oct) == iq.SignByte(w, g, oct)
  {
    SignAt(iq, f, g, oct);
    assert f.signs[g] == RowSigns(iq, w, g);
    SignsBack(iq, w, g, oct);
  }

  lemma Indices2Back(iq: Iq, w: seq<byte>, f: Fields, g: nat, oct: nat)
    requires iq.Iq2? && |w| == 82 && f == Unpack(iq, w) && g < 8 && oct < 4
    ensures Pack2(iq, f)[2 + g * 4 + oct] == w[2 + g * 4 + oct] && Pack2(iq, f)[66 + g] == w[66 + g]
  {
    Index2At(iq, f, g, oct);
    High2At(iq, f, g);
    assert f.indices[g] == RowIndices(iq, w, g);
    Row2Back(iq, w, g);
  }

  lemma Indices3Back(iq: Iq, w: seq<byte>, f: Fields, g: nat, j: nat)
    requires iq.Iq3? && |w| == 110 && f == Unpack(iq, w) && g < 8 && j < 8
    ensures Pack3(iq, f)[2 + g * 8 + j] == w[2 + g * 8 + j] && Pack3(iq, f)[66 + g] == w[66 + g]
  {
    Index3At(iq, f, g, j);
    High3At(iq, f, g);
    assert f.indices[g] == RowIndices(iq, w, g);
    Row3Back(iq, w, g);
  }

  lemma Nibble2Back(iq: Iq, w: seq<byte>, f: Fields, g: nat)
    requires iq.Iq2? && |w| == 82 && g < 8 && f == Unpack(iq, w)
    ensures Pack2(iq, f)[74 + g] == w[74 + g]
  {
    var low, high := Nibbles2At(iq, f, g);
    assert f.nibbles[g] == iq.Nibbles(w, g);
  }

  lemma Nibble3Back(iq: Iq, w: seq<byte>, f: Fields, p: nat)
    requires iq.Iq3? && |w| == 110 && p < 4 && f == Unpack(iq, w)
    ensures Pack3(iq, f)[106 + p] == w[106 + p]
  {
    var low, high := Nibbles3At(iq, f, p);
    assert f.nibbles[2 * p] == iq.Nibbles(w, 2 * p) && f.nibbles[2 * p + 1] == iq.Nibbles(w, 2 * p + 1);
    assert (2 * p) / 2 == p && (2 * p) % 2 == 0 && (2 * p + 1) / 2 == p && (2 * p + 1) % 2 == 1;
  }

  lemma LowByteBack(iq: Iq, w: seq<byte>, f: Fields, i: nat)
    requires iq.Iq2? && |w| == 82 && f == Unpack(iq, w) && 2 <= i < 34
    ensures Pack2(iq, f)[i] == w[i]
  {
    var g, oct := Divide(i - 2, 4);
    Indices2Back(iq, w, f, g, oct);
  }

  lemma SignByteBack(iq: Iq, w: seq<byte>, f: Fields, i: nat)
    requires |w| == iq.Bytes() && f == Unpack(iq, w)
    requires if iq.Iq2? then 34 <= i < 66 else 74 <= i < 106
    ensures Pack(iq, f)[i] == w[i]
  {
    var g, oct := Divide(i - if iq.Iq2? then 34 else 74, 4);
    SignBack(iq, w, f, g, oct);
  }

  lemma Byte2Back(iq: Iq, w: seq<byte>, i: nat)
    requires iq.Iq2? && |w| == 82 && 2 <= i < 82
    ensures Pack(iq, Unpack(iq, w))[i] == w[i]
  {
    var f := Unpack(iq, w);
    if i < 34 {
      LowByteBack(iq, w, f, i);
    } else if i < 66 {
      SignByteBack(iq, w, f, i);
    } else if i < 74 {
      Indices2Back(iq, w, f, i - 66, 0);
    } else {
      Nibble2Back(iq, w, f, i - 74);
    }
  }

  lemma Byte3Back(iq: Iq, w: seq<byte>, i: nat)
    requires iq.Iq3? && |w| == 110 && 2 <= i < 110
    ensures Pack(iq, Unpack(iq, w))[i] == w[i]
  {
    var f := Unpack(iq, w);
    if i < 66 {
      var g, j := Divide(i - 2, 8);
      Indices3Back(iq, w, f, g, j);
    } else if i < 74 {
      Indices3Back(iq, w, f, i - 66, 0);
    } else if i < 106 {
      SignByteBack(iq, w, f, i);
    } else {
      Nibble3Back(iq, w, f, i - 106);
    }
  }

  /** And packing what a block reads as gives its bytes back: no bit is unused or used twice. */
  lemma IqPacksRead(iq: Iq, w: seq<byte>)
    requires |w| == iq.Bytes()
    ensures Pack(iq, Unpack(iq, w)) == w
  {
    forall i | 0 <= i < |w| ensures Pack(iq, Unpack(iq, w))[i] == w[i] {
      if i < 2 {
        FactorBack(iq, w, i);
      } else if iq.Iq2? {
        Byte2Back(iq, w, i);
      } else {
        Byte3Back(iq, w, i);
      }
    }
  }
}
