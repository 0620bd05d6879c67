/** The six digit groups of 24 clocks each, and the in-place update that
    turns every clock's hands towards a digit pattern. */
module Grid {
  import opened Angles
  import opened Patterns
  import opened TimeDigits

  const Groups: nat := 6

  /** The accumulated hour-hand and minute-hand angles of one clock
      (`_prevH`, `_prevM`); the rendered angles are these values. */
  datatype Clock = Clock(prevH: int, prevM: int)

  /** A clock whose hands point in the directions of `a`. */
  ghost predicate Shows(c: Clock, a: HandAngle) {
    (c.prevH - a.h) % 360 == 0 && (c.prevM - a.m) % 360 == 0
  }

  /** One clock's step of `applyDigit`: both hands turn forward to `a`. */
  function Advance(c: Clock, a: HandAngle): (r: Clock)
    ensures Shows(r, a)
    ensures c.prevH <= r.prevH < c.prevH + 360
    ensures c.prevM <= r.prevM < c.prevM + 360
  {
    Clock(NormalizeAngle(a.h, c.prevH), NormalizeAngle(a.m, c.prevM))
  }

  /** A clock that already shows `a` does not move when `a` is applied. */
  lemma AdvanceFixesShown(c: Clock, a: HandAngle)
    requires Shows(c, a)
    ensures Advance(c, a) == c
  {
    NoSpuriousTurn(a.h, c.prevH);
    NoSpuriousTurn(a.m, c.prevM);
  }

  /** Applying the same target twice is the same as applying it once. */
  lemma AdvanceIdempotent(c: Clock, a: HandAngle)
    ensures Advance(Advance(c, a), a) == Advance(c, a)
  {
    AdvanceFixesShown(Advance(c, a), a);
  }

  /** `digitClocks`: clocks[g, i] is clock i of digit group g. */
  class ClockGrid {
    const clocks: array2<Clock>

    ghost predicate Valid() {
      clocks.Length0 == Groups && clocks.Length1 == CellsPerDigit
    }

    /** All 144 clocks start with both accumulators at 0. */
    constructor ()
      ensures Valid() && fresh(clocks)
      ensures forall g, i :: 0 <= g < Groups && 0 <= i < CellsPerDigit ==> clocks[g, i] == Clock(0, 0)
    {
      clocks := new Clock[Groups, CellsPerDigit]((g, i) => Clock(0, 0));
    }

    /** The loop of `applyDigit`: clock i of the group advances towards
        `pattern[i]`; no other clock changes; a clock that already shows its
        cell stays as it is. */
    method ApplyPattern(group: nat, pattern: seq<HandAngle>)
      requires Valid() && group < Groups && |pattern| == CellsPerDigit
      modifies clocks
      ensures forall i :: 0 <= i < CellsPerDigit ==>
        clocks[group, i] == Advance(old(clocks[group, i]), pattern[i])
      ensures forall g, i :: 0 <= g < Groups && g != group && 0 <= i < CellsPerDigit ==>
        clocks[g, i] == old(clocks[g, i])
      ensures forall i :: 0 <= i < CellsPerDigit && Shows(old(clocks[group, i]), pattern[i]) ==>
        clocks[group, i] == old(clocks[group, i])
    {
      for i := 0 to CellsPerDigit
        invariant forall j :: 0 <= j < i ==>
          clocks[group, j] == Advance(old(clocks[group, j]), pattern[j])
        invariant forall j :: i <= j < CellsPerDigit ==> clocks[group, j] == old(clocks[group, j])
        invariant forall g, j :: 0 <= g < Groups && g != group && 0 <= j < CellsPerDigit ==>
          clocks[g, j] == old(clocks[g, j])
      {
        var clock := clocks[group, i];
        clocks[group, i] := Advance(clock, pattern[i]);
      }
      forall i | 0 <= i < CellsPerDigit && Shows(old(clocks[group, i]), pattern[i])
        ensures clocks[group, i] == old(clocks[group, i])
      {
        AdvanceFixesShown(old(clocks[group, i]), pattern[i]);
      }
    }

    /** `applyDigit(digitClocks[group], digit)`: the group advances towards
        `digits[digit]`, as `ApplyPattern` states. */
    method ApplyDigit(group: nat, digit: nat)
      requires Valid() && group < Groups && digit < 10
      modifies clocks
      ensures forall i :: 0 <= i < CellsPerDigit ==>
        clocks[group, i] == Advance(old(clocks[group, i]), Pattern(digit)[i])
      ensures forall g, i :: 0 <= g < Groups && g != group && 0 <= i < CellsPerDigit ==>
        clocks[g, i] == old(clocks[g, i])
      ensures forall i :: 0 <= i < CellsPerDigit && Shows(old(clocks[group, i]), Pattern(digit)[i]) ==>
        clocks[group, i] == old(clocks[group, i])
    {
      ApplyPattern(group, Pattern(digit));
    }

    /** `renderGrid()` for the corrected instant `ms`: group g advances
        towards digit g of `getTimeDigits`, so afterwards every clock shows
        its cell of the current time's pattern; a clock that already shows its
        cell does not move, so rendering the same time twice changes nothing. */
    method RenderGrid(ms: int, zoneMs: int, use12h: bool)
      requires Valid()
      modifies clocks
      ensures forall g, i :: 0 <= g < Groups && 0 <= i < CellsPerDigit ==>
        clocks[g, i] == Advance(old(clocks[g, i]), Pattern(GetTimeDigits(ms, zoneMs, use12h)[g])[i])
      ensures forall g, i :: 0 <= g < Groups && 0 <= i < CellsPerDigit ==>
        Shows(clocks[g, i], Pattern(GetTimeDigits(ms, zoneMs, use12h)[g])[i])
      ensures forall g, i ::
        0 <= g < Groups && 0 <= i < CellsPerDigit &&
        Shows(old(clocks[g, i]), Pattern(GetTimeDigits(ms, zoneMs, use12h)[g])[i]) ==>
          clocks[g, i] == old(clocks[g, i])
    {
      var parts := GetTimeDigits(ms, zoneMs, use12h);
      for g := 0 to Groups
        invariant forall k, i :: 0 <= k < g && 0 <= i < CellsPerDigit ==>
          clocks[k, i] == Advance(old(clocks[k, i]), Pattern(parts[k])[i])
        invariant forall k, i :: g <= k < Groups && 0 <= i < CellsPerDigit ==>
          clocks[k, i] == old(clocks[k, i])
      {
        ApplyDigit(g, parts[g]);
      }
      forall g, i | 0 <= g < Groups && 0 <= i < CellsPerDigit && Shows(old(clocks[g, i]), Pattern(parts[g])[i])
        ensures clocks[g, i] == old(clocks[g, i])
      {
        AdvanceFixesShown(old(clocks[g, i]), Pattern(parts[g])[i]);
      }
    }
  }
}
