/**
 * The overlap arithmetic that runs when the player drops the moving block:
 * one axis at a time, the top of the tower and the moving block are compared
 * and the moving block is clipped to the part that rests on the top block.
 */
module Geometry {
  import opened Wrappers

  /** Offsets at or below this size keep the clipped sliver out of the scene. */
  const Epsilon: real := 0.1

  function Abs(v: real): real { if v < 0.0 then -v else v }
  function Min(a: real, b: real): real { if a <= b then a else b }
  function Max(a: real, b: real): real { if a <= b then b else a }

  /** A segment on one horizontal axis, given by its centre and its extent. */
  datatype Span = Span(center: real, extent: real) {
    function Lo(): real { center - extent / 2.0 }
    function Hi(): real { center + extent / 2.0 }
  }

  /** Whether `inner` lies inside `outer`. */
  predicate Within(inner: Span, outer: Span) {
    outer.Lo() <= inner.Lo() && inner.Hi() <= outer.Hi()
  }

  /**
   * Outcome of a drop on one axis: a miss, or the kept part of the moving
   * block, the length cut off it, and the falling fragment if one is spawned.
   */
  datatype Resolution =
    | Miss
    | Hit(kept: Span, overhang: real, fragment: Option<Span>)

  /**
   * The moving block, centred at `cur`, is dropped on the top block, centred
   * at `last` with `extent` on this axis; the moving block has the same
   * extent as the top block. The kept part is exactly the intersection of the
   * two spans, a miss is an empty or single-point intersection, and the
   * fragment (spawned only for offsets beyond Epsilon) is the rest of the
   * moving block, flush against the kept part.
   */
  function Resolve(last: real, extent: real, cur: real): (r: Resolution)
    ensures var top, moving := Span(last, extent), Span(cur, extent);
      r.Miss? <==> Min(top.Hi(), moving.Hi()) <= Max(top.Lo(), moving.Lo())
    ensures var top, moving := Span(last, extent), Span(cur, extent);
      r.Hit? ==>
        r.kept.Lo() == Max(top.Lo(), moving.Lo()) &&
        r.kept.Hi() == Min(top.Hi(), moving.Hi()) &&
        Within(r.kept, top) && Within(r.kept, moving) && r.kept.extent > 0.0
    ensures r.Hit? ==> r.kept.extent + r.overhang == extent && r.overhang == Abs(cur - last)
    ensures r.Hit? ==> (r.fragment.Some? <==> Abs(cur - last) > Epsilon)
    ensures var moving := Span(cur, extent);
      r.Hit? && r.fragment.Some? ==>
        r.fragment.value.extent == r.overhang &&
        (cur > last ==> r.fragment.value.Lo() == r.kept.Hi() && r.fragment.value.Hi() == moving.Hi()) &&
        (cur < last ==> r.fragment.value.Hi() == r.kept.Lo() && r.fragment.value.Lo() == moving.Lo())
  {
    var diff := cur - last;
    var overlap := extent - Abs(diff);
    if overlap <= 0.0 then
      Miss
    else
      var overhang := extent - overlap;
      var fragment :=
        if Abs(diff) > Epsilon then
          Some(Span(cur + (if diff > 0.0 then overlap / 2.0 else -overlap / 2.0), overhang))
        else
          None;
      Hit(Span(last + diff / 2.0, overlap), overhang, fragment)
  }

  /**
   * Exchanging the roles of the top block and the moving block (which negates
   * the offset) keeps the kept length, and the kept segment itself.
   */
  lemma ResolveSymmetric(last: real, extent: real, cur: real)
    ensures Resolve(last, extent, cur).Miss? <==> Resolve(cur, extent, last).Miss?
    ensures Resolve(last, extent, cur).Hit? ==>
      Resolve(last, extent, cur).kept == Resolve(cur, extent, last).kept
  {
  }

  /** A drop 0.05 off centre on a base of width 3 keeps 2.95 and spawns nothing. */
  lemma ScenarioNearlyAligned()
    ensures Resolve(0.0, 3.0, 0.05) == Hit(Span(0.025, 2.95), 0.05, None)
  {
  }

  /** A drop 2.0 off centre on a base of width 3 keeps 1.0 and drops 2.0 beside it. */
  lemma ScenarioLargeOverhang()
    ensures Resolve(0.0, 3.0, 2.0) == Hit(Span(1.0, 1.0), 2.0, Some(Span(2.5, 2.0)))
  {
  }

  /** Drops 3.5 or exactly 3.0 off centre on a base of width 3 miss. */
  lemma ScenarioMiss()
    ensures Resolve(0.0, 3.0, 3.5).Miss?
    ensures Resolve(0.0, 3.0, -3.0).Miss?
  {
  }
}
