/**
 * The rules of a game session as functions on values: what a commit and a
 * frame do to the session, the invariant every reachable session keeps, and
 * what follows from it over whole runs of player actions and frames.
 */
module Engine {
  import opened Wrappers
  import opened Geometry
  import opened Blocks
  import opened Difficulty
  import opened Fragments

  /** The moving block travels between -Bound and Bound on its axis. */
  const Bound: real := 5.0
  const BaseWidth: real := 3.0
  const BaseDepth: real := 3.0

  /** The block every tower starts from, centred at the origin. */
  const BaseBlock: Block := Block(0.0, 0.0, 0.0, BaseWidth, Layer, BaseDepth)

  /** The sliding block and the axis it slides on. */
  datatype Moving = Moving(block: Block, axis: Axis)

  /** Width and depth handed to the next moving block. */
  datatype Footprint = Footprint(width: real, depth: real)

  /**
   * The new moving block over a tower of `n` blocks topped by `top`: one
   * layer above the top, sliding on the axis given by the parity of `n`,
   * starting at -Bound on that axis and at the top block's coordinate on
   * the other, with the width and depth of `size`.
   */
  function Spawned(top: Block, size: Footprint, n: nat): (m: Moving)
    ensures m.axis == AxisFor(n)
    ensures m.block.y == top.y + Layer && m.block.height == Layer
    ensures m.block.width == size.width && m.block.depth == size.depth
    ensures Coord(m.block, m.axis) == -Bound
    ensures Coord(m.block, Other(m.axis)) == Coord(top, Other(m.axis))
  {
    var a := AxisFor(n);
    var startX := if a == X then -Bound else top.x;
    var startZ := if a == Z then -Bound else top.z;
    Moving(Block(startX, top.y + Layer, startZ, size.width, Layer, size.depth), a)
  }

  /** The direction after a step lands on `p`: flipped when strictly beyond the bound. */
  function NextDirection(p: real, direction: int): int {
    if p > Bound || p < -Bound then -direction else direction
  }

  /**
   * The moving block after one step of `speed * direction` on its axis: only
   * its coordinate on that axis changes, by exactly that amount.
   */
  function Stepped(m: Moving, speed: real, direction: int): (r: Moving)
    ensures r.axis == m.axis
    ensures Coord(r.block, m.axis) == Coord(m.block, m.axis) + speed * (direction as real)
    ensures Extent(r.block, m.axis) == Extent(m.block, m.axis)
    ensures SpanOf(r.block, Other(m.axis)) == SpanOf(m.block, Other(m.axis))
    ensures r.block.y == m.block.y && r.block.height == m.block.height
  {
    var p := Coord(m.block, m.axis) + speed * (direction as real);
    m.(block := Place(m.block, m.axis, Span(p, Extent(m.block, m.axis))))
  }

  /**
   * A position at most one step of `speed` beyond the travel bound, with
   * the direction already pointing back when it is beyond it.
   */
  predicate Poised(p: real, speed: real, direction: int) {
    -Bound - speed <= p <= Bound + speed &&
    (p > Bound ==> direction == -1) &&
    (p < -Bound ==> direction == 1)
  }

  /**
   * One oscillation step keeps the block poised: it never gets more than one
   * step beyond the travel bound, whatever positive speed it moves at.
   */
  lemma StepKeepsPoised(p: real, speed: real, direction: int)
    requires 0.0 < speed
    requires direction == 1 || direction == -1
    requires Poised(p, speed, direction)
    ensures var q := p + speed * (direction as real);
      Poised(q, speed, NextDirection(q, direction))
  {
    if direction == 1 {
      assert speed * (direction as real) == speed;
    } else {
      assert speed * (direction as real) == -speed;
    }
  }

  /**
   * A tower as play builds it: the base block first, the blocks one layer
   * apart, each of positive width and depth and resting on the one below.
   */
  ghost predicate WellFormed(t: seq<Block>) {
    |t| >= 1 && t[0] == BaseBlock &&
    (forall i :: 0 <= i < |t| ==>
      t[i].y == Layer * (i as real) && t[i].height == Layer &&
      t[i].width > 0.0 && t[i].depth > 0.0) &&
    Stacked(t)
  }

  /**
   * The moving block of a tower of `n` blocks topped by `top`: it slides on
   * the axis given by the parity of `n`, one layer above the top block, lined
   * up with it on the other axis, sized by `size`, and poised.
   */
  ghost predicate Aligned(m: Moving, top: Block, size: Footprint, n: nat, speed: real, direction: int) {
    m.axis == AxisFor(n) &&
    m.block.y == top.y + Layer && m.block.height == Layer &&
    m.block.width == size.width && m.block.depth == size.depth &&
    Coord(m.block, Other(m.axis)) == Coord(top, Other(m.axis)) &&
    Poised(Coord(m.block, m.axis), speed, direction)
  }

  /** One oscillation step keeps the moving block aligned with the tower. */
  lemma StepKeepsAligned(m: Moving, top: Block, size: Footprint, n: nat, speed: real, direction: int)
    requires 0.0 < speed
    requires direction == 1 || direction == -1
    requires Aligned(m, top, size, n, speed, direction)
    ensures var r := Stepped(m, speed, direction);
      Aligned(r, top, size, n, speed, NextDirection(Coord(r.block, r.axis), direction))
  {
    StepKeepsPoised(Coord(m.block, m.axis), speed, direction);
  }

  /** Everything a game session holds, as one value. */
  datatype Session = Session(
    tower: seq<Block>,
    current: Moving,
    direction: int,
    speed: real,
    score: int,
    isMoving: bool,
    gameOver: bool,
    lastBlockSize: Footprint,
    cameraTargetY: real,
    fragments: seq<Block>)
  {
    /** The top of the tower. */
    function Top(): Block
      requires |tower| > 0
    {
      tower[|tower| - 1]
    }

    /** The resolution a commit would compute now, on the moving block's axis. */
    function Placement(): Resolution
      requires |tower| > 0
    {
      var a := current.axis;
      Resolve(Coord(Top(), a), Extent(Top(), a), Coord(current.block, a))
    }
  }

  /**
   * The session invariant: a well-formed tower; a score counting the blocks
   * above the base; the speed given by the difficulty rule (the base speed
   * until the first commit); a direction of +1 or -1; moving exactly while
   * the session is not over; the next block's size and the camera target
   * taken from the top block; the moving block aligned with the top; and
   * every live fragment above the removal height.
   */
  ghost predicate Consistent(s: Session) {
    WellFormed(s.tower) &&
    s.score == |s.tower| - 1 &&
    s.speed == (if |s.tower| == 1 then BaseSpeed else Speed(|s.tower|)) &&
    (s.direction == 1 || s.direction == -1) &&
    s.isMoving == !s.gameOver &&
    s.lastBlockSize == Footprint(s.Top().width, s.Top().depth) &&
    s.cameraTargetY == s.Top().y &&
    Aligned(s.current, s.Top(), s.lastBlockSize, |s.tower|, s.speed, s.direction) &&
    (forall f :: f in s.fragments ==> f.y > RetireY)
  }

  /**
   * A fresh session: the base block alone, score 0, moving, direction +1,
   * the base speed, the base footprint, the camera on the base, no
   * fragments, and the first moving block spawned over the base.
   */
  const Start: Session :=
    var size := Footprint(BaseWidth, BaseDepth);
    Session([BaseBlock], Spawned(BaseBlock, size, 1), 1, BaseSpeed, 0, true, false, size, 0.0, [])

  /**
   * A player's commit. Ignored unless the block is moving; a miss ends the
   * session; a hit pushes the clipped block, sets the footprint on the
   * moving axis to the kept extent, starts the clipped-off fragment falling
   * (its first frame runs at once), scores, recomputes the speed from the
   * new tower length, spawns the next moving block and aims the camera at
   * the new top.
   */
  function Committed(s: Session): (r: Session)
    requires |s.tower| > 0
    ensures s.tower <= r.tower && |r.tower| <= |s.tower| + 1
  {
    if s.gameOver || !s.isMoving then
      s
    else
      match s.Placement()
      case Miss =>
        s.(gameOver := true, isMoving := false)
      case Hit(kept, _, fragment) =>
        var a, b := s.current.axis, s.current.block;
        var size :=
          if a == X then s.lastBlockSize.(width := kept.extent)
          else s.lastBlockSize.(depth := kept.extent);
        var block := Place(b, a, kept);
        var tower := s.tower + [block];
        var falling := if fragment.Some? then Descend([Place(b, a, fragment.value)]) else [];
        s.(tower := tower,
           fragments := s.fragments + falling,
           lastBlockSize := size,
           score := s.score + 1,
           speed := Speed(|tower|),
           current := Spawned(block, size, |tower|),
           cameraTargetY := block.y)
  }

  /**
   * One frame: while moving, the block steps along its axis and the
   * direction flips when it lands strictly beyond the bound; every fragment
   * falls one step, whether or not the session is over.
   */
  function Ticked(s: Session): (r: Session)
    ensures r.tower == s.tower && r.score == s.score && r.speed == s.speed
    ensures r.isMoving == s.isMoving && r.gameOver == s.gameOver
  {
    var moved :=
      if s.isMoving then
        var m := Stepped(s.current, s.speed, s.direction);
        s.(current := m, direction := NextDirection(Coord(m.block, m.axis), s.direction))
      else
        s;
    moved.(fragments := Descend(s.fragments))
  }

  /**
   * Pushing the block kept by a hit onto a well-formed tower gives a
   * well-formed tower: the kept block lies over the top block on both axes,
   * and its footprint is the kept extent on the moving axis and the
   * moving block's on the other.
   */
  lemma PushKeepsWellFormed(t: seq<Block>, m: Moving, size: Footprint, speed: real, direction: int)
    requires WellFormed(t)
    requires size == Footprint(t[|t| - 1].width, t[|t| - 1].depth)
    requires Aligned(m, t[|t| - 1], size, |t|, speed, direction)
    requires Resolve(Coord(t[|t| - 1], m.axis), Extent(t[|t| - 1], m.axis), Coord(m.block, m.axis)).Hit?
    ensures var top, a := t[|t| - 1], m.axis;
      var res := Resolve(Coord(top, a), Extent(top, a), Coord(m.block, a));
      var kept := Place(m.block, a, res.kept);
      WellFormed(t + [kept]) &&
      kept.width == (if a == X then res.kept.extent else size.width) &&
      kept.depth == (if a == Z then res.kept.extent else size.depth)
  {
    var top, a := t[|t| - 1], m.axis;
    var res := Resolve(Coord(top, a), Extent(top, a), Coord(m.block, a));
    var kept := Place(m.block, a, res.kept);
    var u := t + [kept];
    assert SpanOf(m.block, Other(a)) == SpanOf(top, Other(a));
    assert RestsOn(top, kept);
    forall k | 0 <= k < |u| - 1
      ensures RestsOn(u[k], u[k + 1])
    {
      if k < |t| - 1 {
        assert u[k] == t[k] && u[k + 1] == t[k + 1];
      }
    }
  }

  /** A fresh session satisfies the invariant. */
  lemma StartConsistent()
    ensures Consistent(Start)
  {
    assert Stacked(Start.tower);
  }

  /** A commit keeps the invariant, whatever its outcome. */
  lemma {:induction false} CommitKeepsConsistent(s: Session)
    requires Consistent(s)
    ensures Consistent(Committed(s))
  {
    if s.isMoving && s.Placement().Hit? {
      PushKeepsWellFormed(s.tower, s.current, s.lastBlockSize, s.speed, s.direction);
      var res := s.Placement();
      if res.fragment.Some? {
        DescendSurvivors([Place(s.current.block, s.current.axis, res.fragment.value)]);
      }
      var r := Committed(s);
      assert r.Top() == Place(s.current.block, s.current.axis, s.Placement().kept);
    }
  }

  /** A frame keeps the invariant. */
  lemma {:induction false} TickKeepsConsistent(s: Session)
    requires Consistent(s)
    ensures Consistent(Ticked(s))
  {
    if s.isMoving {
      StepKeepsAligned(s.current, s.Top(), s.lastBlockSize, |s.tower|, s.speed, s.direction);
    }
    DescendSurvivors(s.fragments);
  }

  /**
   * A commit on a moving block either ends the session on a miss, leaving
   * the tower and the score alone, or, on a hit, appends exactly one block
   * (the moving block clipped to the kept span), adds exactly one to the
   * score, never lowers the speed, keeps the direction, adds the clipped-off
   * piece, already one frame lower, exactly when the resolution spawned one,
   * and switches the moving axis.
   */
  lemma {:induction false} CommitOutcome(s: Session)
    requires Consistent(s) && s.isMoving
    ensures var r := Committed(s);
      (s.Placement().Miss? ==>
        r.gameOver && !r.isMoving && r.tower == s.tower && r.score == s.score) &&
      (s.Placement().Hit? ==>
        !r.gameOver && r.isMoving &&
        r.tower == s.tower + [Place(s.current.block, s.current.axis, s.Placement().kept)] &&
        r.score == s.score + 1 &&
        r.speed >= s.speed &&
        r.direction == s.direction &&
        (s.Placement().fragment.None? ==> r.fragments == s.fragments) &&
        (s.Placement().fragment.Some? ==>
          r.fragments == s.fragments + [Lowered(Place(s.current.block, s.current.axis, s.Placement().fragment.value))]) &&
        r.current.axis != s.current.axis)
  {
    if s.Placement().Hit? {
      var n := |s.tower|;
      if n > 1 {
        SpeedMonotone(n, n + 1);
      }
    }
  }

  /** A commit after the session is over changes nothing. */
  lemma CommitWhenOver(s: Session)
    requires |s.tower| > 0 && !s.isMoving
    ensures Committed(s) == s
  {
  }

  /** What the player and the page do: drop the block, let a frame pass, restart. */
  datatype Event = Click | Frame | Restart

  /** The session after a run of events. */
  function Run(s: Session, events: seq<Event>): Session
    requires |s.tower| > 0
    decreases |events|
  {
    if events == [] then
      s
    else
      var next :=
        match events[0]
        case Click => Committed(s)
        case Frame => Ticked(s)
        case Restart => Start;
      Run(next, events[1..])
  }

  /**
   * Every session reached from a consistent one by any run of events is
   * consistent; in particular the score is always the tower height minus
   * one and the speed never exceeds the cap.
   */
  lemma {:induction false} RunKeepsConsistent(s: Session, events: seq<Event>)
    requires Consistent(s)
    ensures Consistent(Run(s, events))
    ensures Run(s, events).score == |Run(s, events).tower| - 1
    ensures Run(s, events).speed <= MaxSpeed
    decreases |events|
  {
    if events != [] {
      var next :=
        match events[0]
        case Click => Committed(s)
        case Frame => Ticked(s)
        case Restart => Start;
      match events[0] {
        case Click => CommitKeepsConsistent(s);
        case Frame => TickKeepsConsistent(s);
        case Restart => StartConsistent();
      }
      RunKeepsConsistent(next, events[1..]);
    }
  }

  /**
   * Once the session is over, clicks and frames never change the tower or
   * the score and the session stays over; only a restart leaves that state.
   */
  lemma {:induction false} OverIsTerminal(s: Session, events: seq<Event>)
    requires |s.tower| > 0 && s.gameOver && !s.isMoving
    requires Restart !in events
    ensures Run(s, events).gameOver && !Run(s, events).isMoving
    ensures Run(s, events).tower == s.tower && Run(s, events).score == s.score
    decreases |events|
  {
    if events != [] {
      assert events[0] in events;
      var next := if events[0] == Click then Committed(s) else Ticked(s);
      assert forall e :: e in events[1..] ==> e in events;
      OverIsTerminal(next, events[1..]);
    }
  }

  /** Restarting twice in a row is the same as restarting once. */
  lemma RestartIdempotent(s: Session)
    requires |s.tower| > 0
    ensures Run(s, [Restart, Restart]) == Run(s, [Restart]) == Start
  {
    assert [Restart, Restart][1..] == [Restart];
  }
}
