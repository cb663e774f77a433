/**
 * Fragments: the pieces clipped off the moving block. Each one drops 0.2 per
 * frame, starting with the frame in which it is created, and is removed from
 * the scene at the first frame that leaves it at or below -10.
 */
module Fragments {
  import opened Wrappers
  import opened Blocks

  const FallStep: real := 0.2
  const RetireY: real := -10.0

  /** The fragment one frame lower. */
  function Lowered(f: Block): Block { f.(y := f.y - FallStep) }

  /** One frame of a fragment's fall: lowered, then kept or removed. */
  function Fall(f: Block): Option<Block> {
    var g := Lowered(f);
    if g.y > RetireY then Some(g) else None
  }

  /** One frame for every live fragment: each falls, the retired ones are dropped. */
  function Descend(fs: seq<Block>): (r: seq<Block>)
    ensures |r| <= |fs|
  {
    if fs == [] then
      []
    else
      var head := match Fall(fs[0]) case Some(g) => [g] case None => [];
      head + Descend(fs[1..])
  }

  /**
   * The survivors of a frame are exactly the fragments that are still above
   * RetireY once lowered by FallStep: every survivor is such a fragment, and
   * every such fragment survives.
   */
  lemma {:induction false} DescendSurvivors(fs: seq<Block>)
    ensures forall g :: g in Descend(fs) ==> g.y > RetireY && g.(y := g.y + FallStep) in fs
    ensures forall f {:trigger Lowered(f)} :: f in fs && Lowered(f).y > RetireY ==> Lowered(f) in Descend(fs)
  {
    if fs != [] {
      DescendSurvivors(fs[1..]);
    }
  }

  /** The fragment after `k` frames, or None once it has been removed. */
  function FallFor(f: Block, k: nat): Option<Block> {
    if k == 0 then Some(f)
    else match FallFor(f, k - 1)
      case None => None
      case Some(g) => Fall(g)
  }

  /**
   * After k >= 1 frames the fragment is still there exactly when it is above
   * RetireY, and then it has dropped k * FallStep and is otherwise unchanged.
   */
  lemma {:induction false} FallForSpec(f: Block, k: nat)
    requires k >= 1
    ensures FallFor(f, k).Some? <==> f.y - (k as real) * FallStep > RetireY
    ensures FallFor(f, k).Some? ==> FallFor(f, k).value == f.(y := f.y - (k as real) * FallStep)
  {
    if k > 1 {
      FallForSpec(f, k - 1);
    }
  }

  /** A fragment created at height 5 is removed exactly at its 75th frame. */
  lemma RetiresAtFrame75(f: Block)
    requires f.y == 5.0
    ensures FallFor(f, 74).Some? && FallFor(f, 74).value.y == -9.8
    ensures FallFor(f, 75).None?
  {
    FallForSpec(f, 74);
    FallForSpec(f, 75);
  }

  /** The live fragments after `k` frames. */
  function Frames(fs: seq<Block>, k: nat): seq<Block> {
    if k == 0 then fs else Descend(Frames(fs, k - 1))
  }

  /**
   * A lone fragment under repeated frames follows FallFor: after `k` frames
   * the live fragments are exactly the one FallFor gives, or none once it is
   * removed.
   */
  lemma {:induction false} FramesFollowFallFor(f: Block, k: nat)
    ensures Frames([f], k) == match FallFor(f, k) case Some(g) => [g] case None => []
  {
    if k > 0 {
      FramesFollowFallFor(f, k - 1);
      match FallFor(f, k - 1)
      case None =>
      case Some(g) =>
        assert Descend([g]) == (match Fall(g) case Some(h) => [h] case None => []) + Descend([]);
    }
  }
}
