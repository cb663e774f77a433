# Stack tower: the stacking engine

A model of the engine of the "stack tower" browser mini-game. A block slides back and forth over a growing tower. When the player clicks, the block is clipped to the part that overlaps the top of the tower. The clipped block is pushed, and the cut-off piece falls away as a fragment. A block that misses the top ends the game.

The same engine appears twice in the repository: as plain script state in `script.js` (`gameState`) and as a React ref in `stack-tower-game.jsx` (`gameStateRef.current`). Here both are one model:

| file | what it holds |
|---|---|
| `geometry.dfy` (module `Geometry`) | `Resolve`: the overlap arithmetic of one commit on one axis. It gives a miss, or the kept span, the overhang length and the optional fragment span. |
| `blocks.dfy` (module `Blocks`) | Blocks, the two axes (axis 0 is X, axis 1 is Z), replacing a block's span on one axis (`Place`), and "rests on" and stacked towers. |
| `difficulty.dfy` (module `Difficulty`) | The speed rule `min(0.15, 0.05 + 0.005 * blocks.length)`. |
| `fragments.dfy` (module `Fragments`) | The fall of a fragment: 0.2 per frame; it is removed at the first frame that leaves it at or below -10. |
| `engine.dfy` (module `Engine`) | The whole session as a value (`Session`) and its invariant (`Consistent`). Also what a commit (`Committed`) and a frame (`Ticked`) do to it, and lemmas over runs of clicks, frames and restarts. |
| `game.dfy` (module `StackTower`) | The class `Game`, with the session's fields updated in place by `Init`, `Commit` (with its hit half, `Stack`), `Tick`, `SpawnMoving` and `EndGame`. The constructor, `Init`, `Commit` and `Tick` are proved to take the fields from `S` to `Start`, `Committed(S)` or `Ticked(S)`; `Stack` is proved to end in `Committed(S)`. Every mutating method keeps `Valid()`. |

JavaScript doubles are modelled as exact reals, so identities such as "kept + overhang = previous extent" hold exactly.

Each source closure that runs per frame becomes an explicit step:
- the movement half of `animate` is one `Tick`;
- each fragment's `fallAnimation` is one step of `Descend` inside that `Tick`.

A fragment's first fall step runs when the fragment is created, because the source calls `fallAnimation()` right away.

Some behaviours of the code are easy to misread; the model follows the code:
- The first moving block after (re)initialisation slides on Z, because `blocks.length % 2 == 1` there.
- The speed stays at the initial 0.05 until the first commit. It does not follow the rule for a one-block tower (0.055). After each commit it is `Speed(blocks.length)`.
- A commit after the game is over is silently ignored. It is not treated as a fatal error.
- Fragments keep falling in frames after the game is over.

## Model

| member | source | states |
|---|---|---|
| `Geometry.Resolve` | script.js:255-301 | A miss exactly when the top span and the moving span (same extent) meet in at most a point, so an overlap of exactly 0 is a miss. On a hit the kept span is exactly their intersection, so it lies inside both, with positive extent. Kept extent + overhang equals the previous extent, and the overhang equals the offset. A fragment exists exactly when the offset exceeds 0.1. It has the overhang's extent, sits flush against the kept span on the offset's side, and together with it covers the moving span. |
| `Geometry.ResolveSymmetric` | stack-tower-game.jsx:136-137 | Swapping the top block and the moving block gives the same miss/hit verdict and the same kept span. |
| `Geometry.ScenarioNearlyAligned` | script.js:264-268 | A drop 0.05 off centre on a width-3 top keeps 2.95, centred at 0.025, and spawns no fragment. |
| `Geometry.ScenarioLargeOverhang` | script.js:264-276 | A drop 2.0 off centre on a width-3 top keeps 1.0 centred at 1.0, and drops a 2.0-wide fragment centred at 2.5. |
| `Geometry.ScenarioMiss` | script.js:256-262 | Offsets of 3.5 and of exactly -3.0 on a width-3 top are misses. |
| `Blocks.Place` | script.js:252-266 | Replacing a block's span on one axis changes only that axis. The other axis, the height and the y coordinate are kept, as for `newSize`/`newPosition`. |
| `Blocks.StackedNested` | script.js:309-318 | In a tower where each block rests on the one below, every block lies over every lower block. Widths and depths never grow going up. |
| `Difficulty.Speed` | script.js:323 | The speed lies between 0.05 and 0.15. It equals 0.15 exactly when the tower has at least 20 blocks, and below that it is `0.05 + 0.005 * n`. |
| `Difficulty.SpeedMonotone` | stack-tower-game.jsx:236 | A taller tower never gets a lower speed. |
| `Fragments.Descend` | script.js:335-345 | One frame never adds fragments. |
| `Fragments.DescendSurvivors` | stack-tower-game.jsx:162-172 | After one frame, the survivors are exactly the fragments that are still above -10 once lowered by 0.2. Each survivor is such a fragment lowered, and each such fragment survives. |
| `Fragments.FallForSpec` | script.js:335-346 | After k ≥ 1 frames (the first one at creation), a fragment still exists exactly when `y - 0.2k > -10`. It has then dropped exactly `0.2k` and is otherwise unchanged. |
| `Fragments.FramesFollowFallFor` | script.js:335-346 | A lone fragment under k rounds of the per-frame fall is exactly `FallFor(f, k)`'s block while it lives, and gone once removed, so the `FallFor` lemmas describe the fragments of a running session. |
| `Fragments.RetiresAtFrame75` | stack-tower-game.jsx:204-214 | A fragment created at y = 5 is at -9.8 after 74 frames and removed at frame 75. |
| `Engine.Spawned` | stack-tower-game.jsx:96-117 | The next moving block is one layer (0.5) above the top block, has height 0.5 and slides on axis `blocks.length % 2`. It starts at -5 on that axis and at the top block's coordinate on the other. It takes its width and depth from `lastBlockSize`. |
| `Engine.Stepped` | stack-tower-game.jsx:255-264 | A movement step changes only the coordinate on the block's axis, by exactly `speed * direction`. Axis, extents, the other axis, y and height stay the same. |
| `Engine.StepKeepsPoised` | script.js:370-383 | With any positive speed, the block never gets more than one step beyond ±5. Once beyond, its direction already points back, because the direction flips exactly when a step lands strictly beyond ±5. |
| `Engine.StepKeepsAligned` | script.js:367-384 | A movement step keeps the moving block aligned with the top block: same axis, layer, size and other-axis coordinate, and still poised. |
| `Engine.Committed` | script.js:318 | A commit never removes blocks and adds at most one. |
| `Engine.Ticked` | script.js:367-385 | A frame never changes the tower, score, speed or game-over flags. |
| `Engine.PushKeepsWellFormed` | script.js:279-318 | Pushing the kept block keeps the tower well formed: it rests on the old top on both axes and sits one layer higher. Its extent on the moving axis is the overlap; on the other axis it is `lastBlockSize`'s. |
| `Engine.StartConsistent` | script.js:93-111 | The initial session satisfies the invariant: one base block, score 0, speed 0.05, direction 1, moving, not over, footprint 3×3, camera target 0, and the first moving block aligned. |
| `Engine.CommitKeepsConsistent` | script.js:241-330 | Every commit keeps the invariant. This covers score = blocks − 1, the speed rule, `lastBlockSize` = the top block's width and depth, camera target = the top's y, a well-formed stacked tower and an aligned moving block. |
| `Engine.TickKeepsConsistent` | stack-tower-game.jsx:249-270 | Every frame keeps the invariant. |
| `Engine.CommitOutcome` | stack-tower-game.jsx:135-243 | A miss sets game over, stops the movement, and leaves the tower and the score as they were. A hit appends exactly one block, the moving block clipped to the kept span. It also raises the score by exactly 1, never lowers the speed, keeps the direction and switches the axis. The fragments are unchanged when no piece is cut off; when one is, exactly that piece (the moving block clipped to the fragment span), already lowered by its first fall step, is appended. |
| `Engine.CommitWhenOver` | script.js:245-246 | A commit while the block is not moving changes nothing. |
| `Engine.RunKeepsConsistent` | stack-tower-game.jsx:232-233 | After any run of clicks, frames and restarts, the session satisfies the invariant. In particular the score equals `blocks.length - 1` and the speed is at most 0.15. |
| `Engine.OverIsTerminal` | script.js:349-351 | Once the game is over, clicks and frames keep it over and never change the tower or the score. |
| `Engine.RestartIdempotent` | stack-tower-game.jsx:299-311 | Restarting twice gives the same session as restarting once: the initial session. |
| `StackTower.Game.constructor` | script.js:28-44 | A new game object holds the initial session and satisfies the invariant. |
| `StackTower.Game.Init` | script.js:93-111 | Re-initialisation sets every field to the initial session's value and re-establishes the invariant. |
| `StackTower.Game.SpawnMoving` | script.js:218-239 | The moving block is replaced by the block `Spawned` gives for the top block, `lastBlockSize` and the tower length. It keeps the invariant when it held before. |
| `StackTower.Game.EndGame` | script.js:349-351 | Sets `gameOver` and clears `isMoving`, touching no other field, and keeps the invariant. |
| `StackTower.Game.Commit` | script.js:241-330 | The fields go from session S to `Committed(S)`, and the invariant is kept. |
| `StackTower.Game.Stack` | stack-tower-game.jsx:146-242 | The hit path runs in place and ends in `Committed(S)`. In order it: spawns the falling fragment when the offset exceeds 0.1, sets `lastBlockSize` on the moving axis, pushes the clipped block, scores, recomputes the speed from the new length, spawns the next block and aims the camera at the new top. The invariant is kept. |
| `StackTower.Game.Tick` | script.js:364-385 | The fields go from S to `Ticked(S)`, and the invariant is kept. |

## Left out

- Three.js and the DOM are left out because they are foreign library calls. This covers the scene, camera, renderer, lights, ground plane, meshes and materials, the height-based colouring, disposal in `cleanupGame`, the score text and the game-over overlay.
- The modal, the Escape and resize handlers, the click-target filter in `handleClick` and the picture tilt effect are left out as page glue.
- Camera easing (`camera.position.y += (target - y) * 0.05`) is left out because it is a cosmetic floating-point lerp. Only `cameraTargetY` is modelled: it is set to the new top's y on each commit.
- Fragment rotation increments are left out because they are cosmetic and never read.
- `requestAnimationFrame` scheduling, event listeners and the React effect lifecycle are left out. Frames are explicit `Tick` calls and clicks are explicit `Commit` calls.
- The React lifecycle quirks are not reproduced: the effect re-running on `gameOver`, the stale `gameOver` captured by `handleClick`, and animation loops that are never cancelled. The React `score` state is the model's `score` field, which the invariant keeps equal to `blocks.length - 1`.
- Fragments still falling when a session restarts belong to the discarded scene, so `Init` clears the fragment collection.
- IEEE-754 rounding is not modelled: all arithmetic is on exact reals, so the 0.1 threshold, the 0.005 speed steps and the 0.2 fall steps are idealised.
