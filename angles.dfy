/** The forward-only angle accumulator of each clock hand. */
module Angles {
  import opened JsNumber

  /** `normalizeAngle(next, prev)`: the accumulated angle reached from `prev`
      by the smallest non-negative rotation that points the hand at `next`. */
  function NormalizeAngle(next: int, prev: int): (r: int)
    ensures prev <= r < prev + 360
    ensures (r - next) % 360 == 0
  {
    var delta := Rem(Rem(next - prev, 360) + 360, 360);
    prev + delta
  }

  /** Every forward rotation that points the hand at `next` is at least as
      long as the one `NormalizeAngle` takes. */
  lemma NormalizeIsSmallestForwardTurn(next: int, prev: int, r: int)
    requires r >= prev && (r - next) % 360 == 0
    ensures NormalizeAngle(next, prev) <= r
  {
  }

  /** No spurious full turn: a hand already pointing at `next` stays put. */
  lemma NoSpuriousTurn(next: int, prev: int)
    requires (prev - next) % 360 == 0
    ensures NormalizeAngle(next, prev) == prev
  {
    assert Rem(next - prev, 360) == 0;
  }

  /** Normalizing twice towards the same target is the same as once. */
  lemma NormalizeIdempotent(next: int, prev: int)
    ensures NormalizeAngle(next, NormalizeAngle(next, prev)) == NormalizeAngle(next, prev)
  {
    NoSpuriousTurn(next, NormalizeAngle(next, prev));
  }

  /** For a target angle in [0, 360) the new accumulated angle's Euclidean
      residue is exactly that target. */
  lemma NormalizePointsAt(next: int, prev: int)
    requires 0 <= next < 360
    ensures NormalizeAngle(next, prev) % 360 == next
  {
    var r := NormalizeAngle(next, prev);
    var k := (r - next) / 360;
    assert r == next + 360 * k;
  }
}
