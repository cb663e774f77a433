/**
 * Blocks of the tower: a box with a centre and a size, laid on layers of
 * height 0.5, sliding along X or Z.
 */
module Blocks {
  import opened Geometry

  /** Height of one layer, the height of every block. */
  const Layer: real := 0.5

  /** The two horizontal axes; axis 0 of the source is X, axis 1 is Z. */
  datatype Axis = X | Z

  /** Centre (x, y, z) and size (width along X, height, depth along Z). */
  datatype Block = Block(x: real, y: real, z: real, width: real, height: real, depth: real)

  /** The axis the next moving block slides on, from the tower's length. */
  function AxisFor(n: nat): Axis { if n % 2 == 0 then X else Z }

  function Other(a: Axis): Axis { if a == X then Z else X }

  function Coord(b: Block, a: Axis): real { if a == X then b.x else b.z }

  function Extent(b: Block, a: Axis): real { if a == X then b.width else b.depth }

  /** The segment a block covers on one axis. */
  function SpanOf(b: Block, a: Axis): Span { Span(Coord(b, a), Extent(b, a)) }

  /**
   * `b` with its centre and extent on axis `a` replaced by `s`: the segment
   * on `a` becomes `s` and nothing else about the block changes.
   */
  function Place(b: Block, a: Axis, s: Span): (r: Block)
    ensures SpanOf(r, a) == s
    ensures SpanOf(r, Other(a)) == SpanOf(b, Other(a))
    ensures r.y == b.y && r.height == b.height
  {
    if a == X then b.(x := s.center, width := s.extent) else b.(z := s.center, depth := s.extent)
  }

  /** `above` lies entirely over `below`, on both horizontal axes. */
  predicate RestsOn(below: Block, above: Block) {
    Within(SpanOf(above, X), SpanOf(below, X)) && Within(SpanOf(above, Z), SpanOf(below, Z))
  }

  /** Every block of the tower rests on the block under it. */
  ghost predicate Stacked(t: seq<Block>) {
    forall k :: 0 <= k < |t| - 1 ==> RestsOn(t[k], t[k + 1])
  }

  /**
   * In a stacked tower every block lies over every block below it, so widths
   * and depths never grow going up.
   */
  lemma {:induction false} StackedNested(t: seq<Block>, i: nat, j: nat)
    requires Stacked(t)
    requires i <= j < |t|
    ensures RestsOn(t[i], t[j])
    ensures t[j].width <= t[i].width && t[j].depth <= t[i].depth
  {
    if i < j {
      StackedNested(t, i, j - 1);
      assert RestsOn(t[j - 1], t[j]);
    }
  }
}
