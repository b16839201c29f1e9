/** What packed values decode to over real numbers, from the fields a block was packed from to the
    weights: nothing but the formula of the format in between. */
module QuantDecoding {
  import opened Common
  import opened QuantBlocks
  import opened QuantDot
  import opened QuantMeaning
  import opened QuantPacking
  import opened IqPacking

  /** d * scale * quant - dmin * min */
  ghost predicate KFormula(f: Floats, p: KParts, g: nat, l: nat, value: real)
    requires p.Valid() && g < 8 && l < 32
  {
    value == f.f16(p.d) * (p.scales[g] as real) * (p.rows[g][l] as real) - f.f16(p.dmin) * (p.mins[g] as real)
  }

  lemma KValueIs(f: Floats, p: KParts, g: nat, l: nat)
    requires p.Valid() && g < 8 && l < 32
    ensures KFormula(f, p, g, l, KValue(f.Ar(), p, g, l))
  {}

  /** A Q4_K or Q5_K block packed from given fields decodes, lane by lane, to the formula of the
      format in these fields. */
  lemma KDecodes(f: Floats, ty: KType, p: KParts, g: nat, l: nat)
    requires KPackable(ty, p) && g < 8 && l < 32
    ensures KFormula(f, p, g, l, KValues(f.Ar(), KPartsOf(ty, PackK(ty, p)), g)[l])
  {
    KReadsPacked(ty, p);
    KValueIs(f, p, g, l);
  }

  /** The scale of an octet: d * (0.5 + n) / 4 in IQ2_S, d * (1 + 2 * n) in IQ3_S, where n is the nibble
      of its half row. */
  ghost function OctetScale(f: Floats, iq: Iq, d: nat, nibbles: seq<int>, oct: nat): real
    requires |nibbles| == 2 && oct < 4
  {
    var n := nibbles[oct / 2] as real;
    if iq.Iq2? then f.f16(d) * (0.5 + n) * 0.25 else f.f16(d) * (1.0 + 2.0 * n)
  }

  ghost predicate IsProduct(value: real, scale: real, magnitude: int, sign: int) {
    value == scale * (magnitude as real) * (sign as real)
  }

  /** scale * grid value * sign */
  ghost predicate IqFormula(f: Floats, iq: Iq, a: Fields, g: nat, oct: nat, l: nat, value: real)
    requires iq.Valid() && Packable(iq, a) && g < 8 && oct < 4 && l < 8
  {
    RowPackable(iq, a.nibbles[g], a.indices[g], a.signs[g]) &&
    IsProduct(value, OctetScale(f, iq, a.d, a.nibbles[g], oct), GridLane(iq, a.indices[g], oct, l),
              if a.signs[g][8 * oct + l] then -1 else 1)
  }

  lemma OctetScaleIs(f: Floats, iq: Iq, d: nat, nibbles: seq<int>, oct: nat)
    requires |nibbles| == 2 && oct < 4
    ensures OctetScale(f, iq, d, nibbles, oct) == IqScale(f.Ar(), iq.Iq2?, d, nibbles[oct / 2])
  {}

  /** The fields behind one lane. */
  lemma LaneFields(iq: Iq, a: Fields, p: IqParts, g: nat, oct: nat, l: nat) returns (magnitude: int, sign: int)
    requires iq.Valid() && Packable(iq, a) && g < 8 && oct < 4 && l < 8 && p == IqPartsOf(iq, Pack(iq, a))
    ensures RowPackable(iq, a.nibbles[g], a.indices[g], a.signs[g])
    ensures magnitude == GridLane(iq, a.indices[g], oct, l) == p.mags[g][8 * oct + l]
    ensures sign == (if a.signs[g][8 * oct + l] then -1 else 1) == p.signs[g][8 * oct + l]
  {
    LaneRead(iq, a, g, oct, l);
    magnitude, sign := p.mags[g][8 * oct + l], p.signs[g][8 * oct + l];
  }

  lemma ScaleOfLane(f: Floats, iq: Iq, a: Fields, p: IqParts, g: nat, i: nat) returns (scale: real)
    requires iq.Valid() && Packable(iq, a) && g < 8 && i < 32 && p == IqPartsOf(iq, Pack(iq, a))
    ensures |a.nibbles[g]| == 2 && scale == OctetScale(f, iq, a.d, a.nibbles[g], i / 8)
    ensures scale == IqScale(f.Ar(), iq.Iq2?, p.d, if i < 16 then p.nibbles[g][0] else p.nibbles[g][1])
  {
    IqReadsPacked(iq, a);
    RowOf(iq, a, g);
    OctetScaleIs(f, iq, a.d, a.nibbles[g], i / 8);
    scale := OctetScale(f, iq, a.d, a.nibbles[g], i / 8);
  }

  /** An IQ2_S or IQ3_S block packed from given fields decodes, lane by lane, to the formula of the
      format in these fields. */
  lemma IqDecodes(f: Floats, iq: Iq, a: Fields, g: nat, oct: nat, l: nat)
    requires iq.Valid() && Packable(iq, a) && g < 8 && oct < 4 && l < 8
    ensures var values := IqValues(f.Ar(), iq.Iq2?, IqPartsOf(iq, Pack(iq, a)), iq.Largest(), g);
            8 * oct + l < |values| && IqFormula(f, iq, a, g, oct, l, values[8 * oct + l])
  {
    var p := IqPartsOf(iq, Pack(iq, a));
    var magnitude, sign := LaneFields(iq, a, p, g, oct, l);
    var scale := ScaleOfLane(f, iq, a, p, g, 8 * oct + l);
    assert (8 * oct + l) / 8 == oct;
    IqLane(f, iq.Iq2?, p, g, 8 * oct + l, scale);
    LaneProduct(f, iq.Iq2?, p, g, 8 * oct + l, scale, magnitude, sign);
  }

  lemma LaneProduct(f: Floats, two: bool, p: IqParts, g: nat, i: nat, scale: real, magnitude: int, sign: int)
    requires p.Valid(Largest(two)) && g < 8 && i < 32 && p.mags[g][i] == magnitude && p.signs[g][i] == sign
    requires DecodedLane(IqValue(f.Ar(), two, p, Largest(two), g, i), p, Largest(two), g, i, scale)
    ensures IsProduct(IqValues(f.Ar(), two, p, Largest(two), g)[i], scale, magnitude, sign)
  {}
}
