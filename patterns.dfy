/** The seven hand presets and the ten 24-cell digit patterns (a 4 x 6 grid
    of clocks per digit, row by row). */
module Patterns {

  /** Hour-hand and minute-hand angles, in degrees. */
  datatype HandAngle = HandAngle(h: int, m: int)

  const H: HandAngle := HandAngle(0, 180)
  const V: HandAngle := HandAngle(270, 90)
  const TL: HandAngle := HandAngle(180, 270)
  const TR: HandAngle := HandAngle(0, 270)
  const BL: HandAngle := HandAngle(180, 90)
  const BR: HandAngle := HandAngle(0, 90)
  const E: HandAngle := HandAngle(135, 135)

  /** Number of clocks that draw one digit. */
  const CellsPerDigit: nat := 24

  /** One of the seven presets. */
  predicate IsPreset(a: HandAngle) {
    a == H || a == V || a == TL || a == TR || a == BL || a == BR || a == E
  }

  /** The digit table. */
  const Digits: seq<seq<HandAngle>> := [
    // digit 0
    [
      BR, H,  H,  BL,
      V,  BR, BL, V,
      V,  V,  V,  V,
      V,  V,  V,  V,
      V,  TR, TL, V,
      TR, H,  H,  TL
    ],
    // digit 1
    [
      BR, H,  BL, E,
      TR, BL, V,  E,
      E,  V,  V,  E,
      E,  V,  V,  E,
      BR, TL, TR, BL,
      TR, H,  H,  TL
    ],
    // digit 2
    [
      BR, H,  H,  BL,
      TR, H,  BL, V,
      BR, H,  TL, V,
      V,  BR, H,  TL,
      V,  TR, H,  BL,
      TR, H,  H,  TL
    ],
    // digit 3
    [
      BR, H,  H,  BL,
      TR, H,  BL, V,
      E,  BR, TL, V,
      E,  TR, BL, V,
      BR, H,  TL, V,
      TR, H,  H,  TL
    ],
    // digit 4
    [
      BR, BL, BR, BL,
      V,  V,  V,  V,
      V,  TR, TL, V,
      TR, H,  BL, V,
      E,  E,  V,  V,
      E,  E,  TR, TL
    ],
    // digit 5
    [
      BR, H,  H,  BL,
      V,  BR, H,  TL,
      V,  TR, H,  BL,
      TR, H,  BL, V,
      BR, H,  TL, V,
      TR, H,  H,  TL
    ],
    // digit 6
    [
      BR, H,  H,  BL,
      V,  BR, H,  TL,
      V,  TR, H,  BL,
      V,  BR, BL, V,
      V,  TR, TL, V,
      TR, H,  H,  TL
    ],
    // digit 7
    [
      BR, H,  H,  BL,
      TR, H,  BL, V,
      E,  E,  V,  V,
      E,  E,  V,  V,
      E,  E,  V,  V,
      E,  E,  TR, TL
    ],
    // digit 8
    [
      BR, H,  H,  BL,
      V,  BR, BL, V,
      V,  TR, TL, V,
      V,  BR, BL, V,
      V,  TR, TL, V,
      TR, H,  H,  TL
    ],
    // digit 9
    [
      BR, H,  H,  BL,
      V,  BR, BL, V,
      V,  TR, TL, V,
      TR, H,  BL, V,
      BR, H,  TL, V,
      TR, H,  H,  TL
    ]
  ]

  /** The shape of the table: ten patterns of 24 cells, every cell a preset. */
  lemma TableShape()
    ensures |Digits| == 10
    ensures forall d :: 0 <= d < |Digits| ==> |Digits[d]| == CellsPerDigit
    ensures forall d, i :: 0 <= d < |Digits| && 0 <= i < |Digits[d]| ==> IsPreset(Digits[d][i])
  {
  }

  /** Every preset points both hands at a direction in [0, 360). */
  lemma PresetsInRange(a: HandAngle)
    requires IsPreset(a)
    ensures 0 <= a.h < 360 && 0 <= a.m < 360
  {
  }

  /** `digits[d]`: the table has ten patterns; each has 24 cells, all presets. */
  function Pattern(d: nat): (p: seq<HandAngle>)
    requires d < 10
    ensures |p| == CellsPerDigit
    ensures forall i :: 0 <= i < |p| ==> IsPreset(p[i])
    ensures forall i :: 0 <= i < |p| ==> 0 <= p[i].h < 360 && 0 <= p[i].m < 360
  {
    Digits[d]
  }
}
