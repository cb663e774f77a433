/**
 * The game object: the session's fields, updated in place by the player's
 * commits and by the per-frame tick, each method tied to the session rule
 * it carries out.
 */
module StackTower {
  import opened Wrappers
  import opened Geometry
  import opened Blocks
  import opened Difficulty
  import opened Fragments
  import opened Engine

  class Game {
    var tower: seq<Block>
    var current: Moving
    var direction: int
    var speed: real
    var score: int
    var isMoving: bool
    var gameOver: bool
    var lastBlockSize: Footprint
    var cameraTargetY: real
    var fragments: seq<Block>

    /** The fields as one session value. */
    function Snapshot(): Session
      reads this
    {
      Session(tower, current, direction, speed, score, isMoving, gameOver,
              lastBlockSize, cameraTargetY, fragments)
    }

    ghost predicate Valid()
      reads this
    {
      Consistent(Snapshot())
    }

    constructor ()
      ensures Valid() && Snapshot() == Start
    {
      new;
      Init();
    }

    /** Starts a session, or restarts one: every field gets its initial value. */
    method Init()
      modifies this
      ensures Valid() && Snapshot() == Start
    {
      tower := [BaseBlock];
      score := 0;
      gameOver := false;
      isMoving := true;
      direction := 1;
      speed := BaseSpeed;
      lastBlockSize := Footprint(BaseWidth, BaseDepth);
      cameraTargetY := 0.0;
      fragments := [];
      SpawnMoving();
      StartConsistent();
    }

    /** Puts the next moving block over the top of the tower. */
    method SpawnMoving()
      requires |tower| > 0
      modifies this`current
      ensures current == Spawned(Snapshot().Top(), lastBlockSize, |tower|)
      ensures old(Valid()) ==> Valid()
    {
      var top := Snapshot().Top();
      var axis := AxisFor(|tower|);
      var startX := if axis == X then -Bound else top.x;
      var startZ := if axis == Z then -Bound else top.z;
      current := Moving(Block(startX, top.y + Layer, startZ, lastBlockSize.width, Layer, lastBlockSize.depth), axis);
    }

    /** Ends the session: the moving block stops and commits are ignored. */
    method EndGame()
      requires Valid()
      modifies this`gameOver, this`isMoving
      ensures gameOver && !isMoving
      ensures Valid()
    {
      gameOver := true;
      isMoving := false;
    }

    /**
     * The player drops the moving block: ignored once the session is over,
     * the session ends on a miss, and a hit is stacked by Stack.
     */
    method Commit()
      requires Valid()
      modifies this
      ensures Valid()
      ensures Snapshot() == Committed(old(Snapshot()))
    {
      CommitKeepsConsistent(Snapshot());
      if gameOver { return; }
      if !isMoving { return; }
      var cur, top, a := current.block, Snapshot().Top(), current.axis;
      var res := Resolve(Coord(top, a), Extent(top, a), Coord(cur, a));
      if res.Miss? {
        EndGame();
        return;
      }
      Stack(res);
    }

    /** The hit half of Commit, for the resolution `res` of the current drop. */
    method Stack(res: Resolution)
      requires |tower| > 0 && isMoving && !gameOver
      requires Valid()
      requires res == Snapshot().Placement() && res.Hit?
      modifies this
      ensures Valid()
      ensures Snapshot() == Committed(old(Snapshot()))
    {
      CommitKeepsConsistent(Snapshot());
      var cur, a := current.block, current.axis;
      if res.fragment.Some? {
        fragments := fragments + Descend([Place(cur, a, res.fragment.value)]);
      }
      if a == X {
        lastBlockSize := lastBlockSize.(width := res.kept.extent);
      } else {
        lastBlockSize := lastBlockSize.(depth := res.kept.extent);
      }
      var kept := Place(cur, a, res.kept);
      tower := tower + [kept];
      score := score + 1;
      speed := Speed(|tower|);
      SpawnMoving();
      cameraTargetY := kept.y;
    }

    /** One frame: the moving block steps and bounces, the fragments fall. */
    method Tick()
      requires Valid()
      modifies this
      ensures Valid()
      ensures Snapshot() == Ticked(old(Snapshot()))
    {
      TickKeepsConsistent(Snapshot());
      if isMoving {
        current := Stepped(current, speed, direction);
        var p := Coord(current.block, current.axis);
        if p > Bound || p < -Bound {
          direction := -direction;
        }
      }
      fragments := Descend(fragments);
    }
  }
}
