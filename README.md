# Plane game simulation in Dafny

This project models the simulation at the heart of the `PlaneGame` React
component (`app/_components/game.tsx`). A plane at the bottom of a 600-high
playfield moves left and right under the arrow keys. Pairs of buildings, with a
160-wide gap between the two members, scroll down toward it. The run ends when
the plane hits a building. The score rises by one for each pair the plane gets
past.

The component's state (`gameStarted`, `gameOver`, `score`, `plane`,
`buildings`, `gameSpeed`) becomes the class `PlaneGame.Game`, with the playfield
width as a constant field. Its two timers (the move loop and the game loop) and
its collision and scoring effect become methods:

- `MoveTick`: the move loop.
- `ScrollTick`: the game loop's scroll, recycle and speed update.
- `Evaluate`: the collision and scoring effect.
- `Tick`: runs the three in that order.

Each method is proved against pure specification functions, in these modules:

- `Entities`: the `Building`, `Plane` and `Keys` records and the game's constants.
- `BuildingPairs`: `createBuildingPair` and `PairedUp`. `PairedUp` is the
  invariant that the live list is a run of whole pairs: each even-id building is
  directly followed by its odd partner, at the same y, with the same passed flag,
  exactly 160 to its right.
- `Movement`: one move tick (`MovedX`) and any sequence of them (`Steer`).
- `Scroll`: the `map`, `filter`, `reduce` and `push` steps of the scroll tick,
  and the speed ramp.
- `Scoring`: the hit test, the pass test, the points earned, and the marking of
  passed pairs.
- `PlaneGame`: the initial buildings, the scoring pass as a loop (`CollisionPass`),
  and the `Game` class.

The `Game` class keeps `Valid()` as its object invariant:

- the plane stays within `[0, gameWidth - width]` and keeps its y and size;
- the speed stays within `[2, 4]`;
- the building list stays `PairedUp`.

Positions and speed are exact `real`s. The results of `Math.random()` and
`Date.now()` are method parameters. A random draw must lie in `[0, 1)`.

Where the code departs from an idealised version of the game, the model follows
the code:

- Only the plane's box is shrunk, by 5 on each side, before the hit test. The
  building's box is used as it is. `HitsIsShrunkPlaneOverlap` states this.
- A scroll tick appends one pair when fewer than six buildings survive. The live
  count can therefore stay below six after the tick. `RecycleMayStayBelowMinimum`
  exhibits a case.
- Buildings are not kept inside the playfield. At width 360 the left building
  always starts at x = -90. At width 800 the pair spans `[-90, 810)`.
- The speed ramps by 0.005 per scroll tick up to 4. It is not derived from the
  score, and there is no level.
- After a hit, the `forEach` callback's `return` only skips to the next
  building. Other buildings in the same pass can still score.

## Model

| member | source | states |
|---|---|---|
| `BuildingPairs.GapPosition` | app/_components/game.tsx:62-63 | the gap's left edge is at least 60 and below gameWidth - 300 when the playfield is wider than 360, and exactly 60 at width 360 |
| `BuildingPairs.CreateBuildingPair` | app/_components/game.tsx:59-84 | two unpassed 150x80 buildings at yPos, both with pair id n; the left has an even id and the right has the next id; the left ends at the gap position; the right starts 160 further on, so the two never overlap |
| `BuildingPairs.NarrowLeftBuildingOffField` | app/_components/game.tsx:63-67 | at width 360 the left building always starts at x = -90 |
| `BuildingPairs.PairExtent` | app/_components/game.tsx:63-76 | on a wider playfield a pair lies within [-90, gameWidth + 10); it is not kept inside [0, gameWidth]: a draw of 0 puts the left building at a negative x, and on the 800 playfield a draw of 0.99 puts the right building past x = 800 |
| `BuildingPairs.PairedUpAppend` | app/_components/game.tsx:88-92 | joining two runs of whole pairs gives a run of whole pairs |
| `Movement.MovedX` | app/_components/game.tsx:124-130 | a move tick keeps x in [0, gameWidth - width]; with no key held x is unchanged; left alone gives x - 5 when x >= 5 and 0 otherwise; right alone gives x + 5 when that fits and gameWidth - width otherwise; both held leave x unchanged when x >= 5 |
| `Movement.Steer` | app/_components/game.tsx:123-131 | x stays in [0, gameWidth - width] for any sequence of key states, and is unchanged when no key is ever held |
| `Movement.HoldRightReachesEdge` | app/_components/game.tsx:126-128 | holding right for n ticks gives min(gameWidth - width, x + 5n) |
| `Movement.RightForTwentyTicks` | app/_components/game.tsx:126-128 | x = 120, width 80, playfield 360, right held 20 ticks gives x = 220 |
| `Scroll.Advance` | app/_components/game.tsx:139-142 | the scroll map keeps the number of buildings |
| `Scroll.AdvanceAt` | app/_components/game.tsx:139-142 | each building's y grows by exactly the speed, and no other field changes |
| `Scroll.KeepOnScreen` | app/_components/game.tsx:143 | the filter never adds buildings |
| `Scroll.KeepOnScreenKeeps` | app/_components/game.tsx:143 | a building survives the filter if and only if it was there and its y is below 700 |
| `Scroll.KeepOnScreenAppend` | app/_components/game.tsx:143 | filtering a concatenation concatenates the filtered parts, so survivors keep their relative order |
| `Scroll.TopmostFrom` | app/_components/game.tsx:145-148 | the reduce returns the start value or a visited building, and its y is the least seen |
| `Scroll.Topmost` | app/_components/game.tsx:145-148 | the reduce over a non-empty list returns one of its buildings of least y |
| `Scroll.SpawnY` | app/_components/game.tsx:149 | the new pair's y is -150 when nothing survives; otherwise it is at least 250 above every survivor and exactly 250 above one |
| `Scroll.Recycle` | app/_components/game.tsx:144-151 | survivors are kept as a prefix; with six or more nothing is added; with fewer, exactly two unpassed buildings of pair id `now` are appended, at y = SpawnY(survivors), so at least 250 above every survivor and at -150 when none survives |
| `Scroll.ScrollBuildings` | app/_components/game.tsx:138-152 | the scroll updater's new list has at most two buildings more than the old one, and every building in it lies above the removal line y = 700 |
| `Scroll.RecycleMayStayBelowMinimum` | app/_components/game.tsx:144-151 | two survivors give four buildings, still fewer than six |
| `Scroll.AdvanceKeepsPairs` | app/_components/game.tsx:139-142 | scrolling keeps the list a run of whole pairs |
| `Scroll.KeepOnScreenPair` | app/_components/game.tsx:143 | the filter keeps or drops both members of a level pair together |
| `Scroll.KeepOnScreenKeepsPairs` | app/_components/game.tsx:143 | filtering keeps the list a run of whole pairs |
| `Scroll.ScrollKeepsPairs` | app/_components/game.tsx:138-152 | a whole scroll tick keeps the list a run of whole pairs |
| `Scroll.RampSpeed` | app/_components/game.tsx:154 | the new speed never exceeds 4; it is the old speed plus 0.005 or it is 4; it never drops below a speed of at most 4; it stays at 4 once there |
| `Scroll.RampSchedule` | app/_components/game.tsx:154 | n ticks after a reset the speed is min(2 + 0.005 n, 4) |
| `Scroll.SpeedCappedAfter400` | app/_components/game.tsx:154 | the speed is below 4 after 399 ticks and is 4 from tick 400 on |
| `Scoring.Hits` | app/_components/game.tsx:164-169 | the hit test holds if and only if the plane's box shrunk by 5 overlaps the building's box |
| `Scoring.Clears` | app/_components/game.tsx:173 | a building the pass test accepts is unpassed and is not hit |
| `Scoring.ClearedPairIds` | app/_components/game.tsx:173-179 | the pass marks at most one pair id per building; `ClearedPairIdsExactly` says which |
| `Scoring.Gain` | app/_components/game.tsx:161-174 | a pass earns at most one point per building |
| `Scoring.GainZero` | app/_components/game.tsx:173-174 | a pass over buildings none of which scores earns nothing |
| `Scoring.GainAppend` | app/_components/game.tsx:163-174 | points are additive over a split of the list |
| `Scoring.ClearedPairIdsExactly` | app/_components/game.tsx:173-179 | a pair id is marked if and only if some building of that pair id is passed without a hit |
| `Scoring.MarkPairs` | app/_components/game.tsx:175-181 | marking keeps the number of buildings |
| `Scoring.MarkPairsAt` | app/_components/game.tsx:175-181 | marking changes only the passed flag, and sets it exactly on buildings whose pair id is marked |
| `Scoring.MarkPairsUnion` | app/_components/game.tsx:175-181 | marking pair by pair equals marking all the pair ids at once |
| `Scoring.MarkPairsKeepsPairs` | app/_components/game.tsx:175-181 | marking keeps the list a run of whole pairs |
| `Scoring.HitsIsShrunkPlaneOverlap` | app/_components/game.tsx:164-169 | a hit is strict overlap of the plane's box shrunk by 5 with the building's unshrunk box; overlap of both shrunk boxes implies a hit, but not conversely: the plane at x = 120 hits a building at x = 192 whose shrunk box it does not reach |
| `Scoring.InsetForgivesGrazing` | app/_components/game.tsx:164-169 | a plane box that overlaps a building's box by no more than 5 on some side is not a hit |
| `Scoring.InsidePlaneHits` | app/_components/game.tsx:164-169 | a plane inside a building's box is hit |
| `Scoring.ClearOfAllBoxesNoHit` | app/_components/game.tsx:163-172 | a plane box that overlaps no building's box hits nothing |
| `Scoring.ClearedNeverHits` | app/_components/game.tsx:164-173 | a building far enough below the plane to be passed never hits it |
| `Scoring.NoDoubleCount` | app/_components/game.tsx:173-181 | after a pass marks the pairs it cleared, the same pass earns nothing more |
| `Scoring.GainPerPair` | app/_components/game.tsx:173-174 | on a run of whole pairs a pass earns exactly one point per pair whose left member is passed |
| `Scoring.PassStep` | app/_components/game.tsx:163-183 | one more building in the pass adds its own point, ORs in its hit, and marks its pair when it is passed without a hit |
| `PlaneGame.InitialBuildings` | app/_components/game.tsx:88-92 | reset places six unpassed buildings above the playfield as whole pairs with pair ids 1, 2 and 3, at y = -150, -350 and -550 |
| `PlaneGame.CollisionPass` | app/_components/game.tsx:161-183 | the forEach loop's score is the old score plus the pass's points; its collision flag is true if and only if some building is hit; its list is the snapshot with every cleared pair marked passed |
| `PlaneGame.Game.constructor` | app/_components/game.tsx:31-44 | the state before Start Game: not started, not over, score 0, plane at (120, 500), no buildings, speed 2 |
| `PlaneGame.Game.ResetGame` | app/_components/game.tsx:86-97 | resetGame restores the plane, places the initial buildings, and sets score 0, speed 2 and gameOver false, keeping the invariant |
| `PlaneGame.Game.StartGame` | app/_components/game.tsx:99-102 | startGame leaves the game running in its reset state |
| `PlaneGame.Game.MoveTick` | app/_components/game.tsx:121-133 | while running, only the plane's x changes, as MovedX says; otherwise nothing changes |
| `PlaneGame.Game.ScrollTick` | app/_components/game.tsx:135-157 | while running, the buildings become the scrolled, filtered and recycled list and the speed ramps; otherwise nothing changes; the speed never drops; the invariant is kept |
| `PlaneGame.Game.Evaluate` | app/_components/game.tsx:159-186 | while running, the score grows by the pass's points, gameOver is set if and only if a building is hit, and the cleared pairs are marked; otherwise nothing changes; the score never drops and gameOver is never cleared |
| `PlaneGame.Game.Tick` | app/_components/game.tsx:121-186 | while running, a whole tick moves the plane by MovedX, sets the buildings to the scrolled list with the pairs the moved plane clears marked, adds the points that pass earns, sets gameOver if and only if the moved plane hits a scrolled building, and ramps the speed; otherwise nothing changes; it keeps the invariant, never lowers score or speed, never clears gameOver, and never touches gameStarted |

## Left out

- Rendering is not modelled: the JSX, images, CSS, the title and the game-over dialog (lines 188-280).
- The window-resize listener is not modelled (lines 47-57). The playfield width is fixed when the object is made, at 360 or 800.
- The keyboard listeners are not modelled (lines 104-119). The held keys are passed to each tick as a `Keys` value.
- `setInterval` timers, effect dependency lists and React's scheduling are not modelled. The move loop, game loop and effect become one ordered tick: move, then scroll, then evaluate.
- The model does not capture how the two independent timers interleave, or a scroll tick firing between an effect and the updates it queued.
- The pass-marking updates queued during the effect are applied to the list once the pass ends. React applies them at that point.
- `Math.random()` and `Date.now()` are not modelled. Their results are parameters.
- Floating point is not modelled: positions and speed are exact reals. In JavaScript, 0.005 is not exact in binary, so the speed reaches 4 after about 400 ticks rather than exactly 400.
- The plane's y, width and height never change in the source. `Valid()` states this as part of the invariant that every method keeps.
