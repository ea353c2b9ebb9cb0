# Math Tank Mania — a Dafny model of the game rules

Math Tank Mania is a browser game about division. A problem `dividend ÷ divisor` is shown.
Five mines fall down five lanes (0..4), and each mine carries one of five answer options.
The player steers a tank between the lanes.

- Driving into the mine with the correct quotient weakens the villain by one point of strength and scores 100.
- Driving into a wrong mine costs one of three points of health and flashes the tank.
  The game is lost when health reaches 0.
- Falling coins score 50 each.
- When the villain's strength has run out, the game pauses, shows a level-complete banner and, two seconds later, moves on to the next level.

The project models two parts of the game:

- the rules in `src/utils/gameUtils.ts`: the problem generator, the collision test, and the mine and coin factories;
- the game state machine of the `MathTankMania` component: its state cells, its input handlers, the delayed callbacks and one frame of its game loop.

Modules:

- `Draws` (draws.dfy). Every random number the game draws is a parameter `u` with `0 <= u < 1`. `Pick(u, n)` is `Math.floor(u * n)`.
- `Problems` (problems.dfy). This is `generateDivisionProblem`:
  - the divisor and quotient tables;
  - the spread factor and the five options;
  - the comparator "shuffle", as an in-place array method driven by the resulting permutation, given as a sequence of exchanges.
- `Collision` (collision.dfy). This is `checkCollision`, with the screen height as a parameter.
- `Spawn` (spawn.dfy). This is `generateInitialMines` and `generateCoins`.
- `TickRules` (tick.dfy). This is what one frame does to the mines and coins: move them, dispatch hits at most once, drop those below the screen, and top the lists back up.
- `Game` (game.dfy). The component's state is a value `GameState`, and each operation is a step function on it. An invariant `Inv` covers:
  - health 0..3;
  - lane 0..4;
  - score >= 0;
  - villain strength >= 0;
  - the game over exactly when health is 0;
  - a well-formed current problem: divisor 2..9, exact quotient, five options with no repeats and the answer once;
  - every entity in a lane.

  Events and runs of events are proved to keep `Inv` and to move the counters monotonically. A second predicate, `InSync`, says that the strength is within 0..6 + level / 2 and that the problem was generated for the current level. It is kept by every event whose delayed callbacks fire with the level that is current when they fire (`OnTime`). The class `Game.MathTankMania` holds the state cells as fields, and each handler is a method proved to perform its step function.

The three delayed callbacks are separate methods:

- `ClearHitFlash`, 800 ms after a wrong hit;
- `ShowNewProblem`, 1000 ms after a correct hit;
- `FinishLevelComplete`, 2000 ms after the level is complete.

Inside one frame the component works with the values its closure captured when the frame began: the lane, the problem, the game-over flag and the villain strength. The model does the same.

Where the code and its description differ, the model follows the code:

- The level-up callback sets the villain's strength from the level before the increment (`6 + level / 2` of the old level). Level 1 → 2 gives 6, not 7.
- A topped-up mine takes a random value 1..50 when its option is 0, but its correctness is still decided on the option. `TickRules.FillerMineMislabelled` exhibits a mine with value 6 tagged wrong while the answer is 6. The generator produces such options: at levels 6 to 8 the spread is 3, and quotient 6 gives the options 0, 3, 6, 9 and 12 in some order. The model keeps the behaviour as written.
- The two delayed callbacks that use the level read the level their closure captured when they were scheduled, not the level when they fire. `ShowNewProblem` generates its problem for the captured level, and `FinishLevelComplete` sets the strength to `6 + captured level / 2`. A restart within the delay lets such a callback fire at a different level. `Game.StaleLevelUpAfterRestart` shows a level-up scheduled at level 4 that fires after a restart: level 2 with strength 8, above what level 2 starts with. `Game.StaleProblemAfterRestart` shows a level-4 problem arriving at level 1.
- The component never sets the result 'win'. `Outcome.Win` exists but no step produces it.

## Model

| member | source | states |
|---|---|---|
| Draws.Pick | src/utils/gameUtils.ts:16-17 | `Math.floor(Math.random() * n)` is a valid index into a table of `n > 0` entries |
| Problems.ResultsTable | src/utils/gameUtils.ts:7-14 | a quotient can be drawn at a level iff it is in the base table, or the level is above 3 and it is in the extra table |
| Problems.SpreadFactor | src/utils/gameUtils.ts:23 | the spread is at most 4; it lies in 1..4 for every level >= 0; it is `1 + level / 3` below level 9 and 4 from level 9 on |
| Problems.BaseOptionsOnce | src/utils/gameUtils.ts:25-31 | with a spread of at least 1, each of the five base options occurs once, and the quotient occurs exactly once |
| Problems.OnceMeansDistinct | src/utils/gameUtils.ts:25-36 | a list in which each value occurs at most once has pairwise distinct entries |
| Problems.ExactQuotient | src/utils/gameUtils.ts:18 | `result * divisor` divides by the divisor with no remainder, and the quotient is `result` |
| Problems.DivisorRange | src/utils/gameUtils.ts:7 | every divisor in the table lies in 2..9 |
| Problems.ProblemFacts | src/utils/gameUtils.ts:16-36 | a generated problem has a divisor in 2..9; its dividend is divisible by the divisor with the correct answer as quotient; its options are pairwise distinct and hold the answer exactly once |
| Problems.Exchanged | src/utils/gameUtils.ts:36 | one exchange made by the sort keeps the length and the multiset of values |
| Problems.ShuffledPermutes | src/utils/gameUtils.ts:36 | any sequence of exchanges the sort makes yields a permutation of its input |
| Problems.ShuffleOptions | src/utils/gameUtils.ts:36 | sorting in place with a random comparator leaves the array as the exchanges dictate, a permutation of the old contents |
| Problems.ShuffledOptions | src/utils/gameUtils.ts:25-36 | the returned five options are a permutation of `[r-2k, r-k, r, r+k, r+2k]` |
| Problems.GenerateDivisionProblem | src/utils/gameUtils.ts:2-38 | the problem fits its level; the divisor is in 2..9; the quotient comes from the base table up to level 3 and from the base or extra table above level 3; for levels >= 0 the options are distinct and hold the answer exactly once |
| Problems.ProblemWellFormed | src/utils/gameUtils.ts:7-36 | a problem generated for any level >= 0 has a divisor in 2..9, a dividend equal to answer times divisor, and five options with no repeated value and the answer exactly once |
| Problems.GeneratedFacts | src/utils/gameUtils.ts:7-36 | from a problem that fits its level: the divisor range, the quotient table by level, distinct options and an answer that occurs once |
| Collision.Abs | src/utils/gameUtils.ts:45-51 | the absolute value used for the distance between lane centres is non-negative and equals `v` or `-v` |
| Collision.CheckCollision | src/utils/gameUtils.ts:40-62 | collision holds iff the lane centres lie within half the summed widths, the object's top is at or above `H-40`, and its bottom is at or below `H-120`; touching edges count |
| Collision.CollisionIsCommonPoint | src/utils/gameUtils.ts:45-61 | for boxes of non-negative size, a collision is exactly a point shared by the two closed boxes |
| Collision.MineReach | src/utils/gameUtils.ts:45-61 | an 80-pixel mine hits the 80-pixel tank iff it is at most 3 lanes away and its top is between `H-200` and `H-40` |
| Collision.CoinReach | src/utils/gameUtils.ts:45-61 | a 40-pixel coin hits the tank iff it is at most 2 lanes away and its top is between `H-160` and `H-40` |
| Collision.LanesWithin | src/utils/gameUtils.ts:45-58 | lane centres 25 pixels apart lie within a reach of `n` to `n+1` lanes iff the lanes differ by at most `n` |
| Spawn.DropHeight | src/utils/gameUtils.ts:69 | `-100 - random * span` lies in `(-100 - span, -100]` |
| Spawn.InitialMines | src/utils/gameUtils.ts:65-73 | one mine per option, in order: mine `i` has the option's value, lane `i`, is not hit, starts in `(-400, -100]`, and is correct iff its value is the answer |
| Spawn.InitialCorrectCount | src/utils/gameUtils.ts:65-73 | the number of mines tagged correct equals the number of occurrences of the answer among the options |
| Spawn.SpawnCoin | src/utils/gameUtils.ts:79-84 | a spawned coin has the given id, a lane in 0..4, a start height above the screen, and is not collected |
| Spawn.GeneratedCoins | src/utils/gameUtils.ts:76-87 | `count` coins (none for a negative count); coin `i` has id `i`, lane 0..4, height in `(-900, -100]`, and is not collected |
| Spawn.GenerateCoins | src/utils/gameUtils.ts:76-87 | the counted loop returns exactly the coin list `GeneratedCoins` describes |
| TickRules.MovedMines | src/components/games/MathTankMania.tsx:93-133 | the moved list has the same length, and each mine has moved by the same rule, in the same order |
| TickRules.DispatchUsesUnhit | src/components/games/MathTankMania.tsx:110-127 | each hit dispatched in a frame uses up one mine not yet hit, so no mine dispatches twice |
| TickRules.HitIsFinal | src/components/games/MathTankMania.tsx:110-127 | a mine already hit never dispatches; a mine that dispatches leaves marked hit; a mine is marked hit only if it was already hit or has just collided |
| TickRules.VisibleMines | src/components/games/MathTankMania.tsx:136 | pruning keeps exactly the mines above `H + 200` and never lengthens the list |
| TickRules.VisibleMinesCount | src/components/games/MathTankMania.tsx:136-139 | pruning keeps every copy of each mine still on screen and no copy of any mine below `H + 200`, so the survivor count the top-up tests is the number of moved mines still on screen |
| TickRules.VisibleMinesAppend | src/components/games/MathTankMania.tsx:136 | pruning keeps the survivors in their order: pruning a concatenation gives the survivors of each part, one after the other |
| TickRules.VisibleMinesLast | src/components/games/MathTankMania.tsx:136 | pruning a list with one more mine at the end appends that mine iff it is above `H + 200` (proof helper for the two lemmas above) |
| TickRules.NewMine | src/components/games/MathTankMania.tsx:141-148 | a topped-up mine is unhit, in a lane, above the screen, correct iff its option is the answer, and carries the option, or a value 1..50 when the option is 0 |
| TickRules.TopUpMines | src/components/games/MathTankMania.tsx:139-150 | with fewer than 3 mines left and the game not over, the survivors are kept and the list is filled to exactly 5 unhit mines in lanes, each tagged correct iff its option is the answer; otherwise the list is unchanged |
| TickRules.FillerMineMislabelled | src/components/games/MathTankMania.tsx:143-146 | a 0 option replaced by the filler value 6 is tagged wrong even though 6 is the answer |
| TickRules.MovedCoins | src/components/games/MathTankMania.tsx:157-192 | the moved coin list has the same length, and each coin has moved by the same rule, in order |
| TickRules.VisibleCoins | src/components/games/MathTankMania.tsx:195-197 | pruning keeps exactly the uncollected coins above `H + 100` |
| TickRules.VisibleCoinsCount | src/components/games/MathTankMania.tsx:195-200 | pruning keeps every copy of each uncollected coin above `H + 100` and no copy of any other coin, so the survivor count the top-up tests is the number of such coins |
| TickRules.VisibleCoinsAppend | src/components/games/MathTankMania.tsx:195-197 | pruning keeps the surviving coins in their order |
| TickRules.VisibleCoinsLast | src/components/games/MathTankMania.tsx:195-197 | pruning a list with one more coin at the end appends that coin iff it is uncollected and above `H + 100` (proof helper for the two lemmas above) |
| TickRules.CollectedCoinLeaves | src/components/games/MathTankMania.tsx:162-197 | a coin collected in a frame is marked collected and does not survive that frame's pruning, so it scores at most once |
| TickRules.TopUpCoins | src/components/games/MathTankMania.tsx:200-209 | with fewer than 5 coins left and the game not over, the survivors are kept and the list is filled to exactly 10 uncollected coins in lanes, coin `i` having id `clock + i`; otherwise the list is unchanged |
| Game.Floor0 | src/components/games/MathTankMania.tsx:243 | `Math.max(0, v)` is at least `v` and equals `v` or 0 |
| Game.StrengthFitsBound | src/components/games/MathTankMania.tsx:312 | the strength bound of `InSync` is exactly `0 <= strength <= 6 + level / 2` |
| Game.SteerClamps | src/components/games/MathTankMania.tsx:324-332 | a lane change is one step in the chosen direction, clamped to 0..4, never wrapping; left from lane 0 and right from lane 4 do nothing |
| Game.HitsClosedForm | src/components/games/MathTankMania.tsx:113-120 | a frame's hits in closed form: strength drops by the number of correct hits but not below 0; score rises by 100 per correct hit; health drops by the number of wrong hits but not below 0; the flash shows after any wrong hit; the game is lost exactly when a wrong hit empties health |
| Game.HitsKeepRest | src/components/games/MathTankMania.tsx:240-300 | the hit handlers leave level, problem, lane, pause, banner, mines and coins unchanged |
| Game.HitsKeepCounters | src/components/games/MathTankMania.tsx:240-300 | any sequence of hit handlers keeps the counters in range and the game over exactly when health is 0 |
| Game.HitsMonotone | src/components/games/MathTankMania.tsx:240-300 | hits never lower the score and never raise health or strength, which stay non-negative |
| Game.CoinHitsClosedForm | src/components/games/MathTankMania.tsx:175-188 | the coin pass adds exactly 50 per collected coin and changes nothing else |
| Game.FrameEffect | src/components/games/MathTankMania.tsx:81-221 | a frame while paused or over changes nothing; otherwise the score grows by 100 per correct hit plus 50 per coin; lane, level and problem are kept; the game pauses and shows the banner exactly when the villain had no strength left |
| Game.FrameMinesInLanes | src/components/games/MathTankMania.tsx:93-150 | after a frame every mine is in a lane |
| Game.FrameCoinsLive | src/components/games/MathTankMania.tsx:157-209 | after a frame every coin is in a lane and uncollected |
| Game.FrameBodyKeepsInv | src/components/games/MathTankMania.tsx:90-209 | the body of a running frame keeps the invariant |
| Game.FrameKeepsInv | src/components/games/MathTankMania.tsx:81-221 | a frame keeps the invariant |
| Game.FrameMonotone | src/components/games/MathTankMania.tsx:81-221 | a frame never lowers the score, never raises health or strength, keeps the strength non-negative, and keeps the level |
| Game.ResetKeepsInv | src/components/games/MathTankMania.tsx:62-67 | `resetGame` with a well-formed problem, from counters in range, yields the invariant |
| Game.EventKeepsInv | src/components/games/MathTankMania.tsx:240-360 | every handler, frame, callback and restart keeps the invariant, callbacks firing with whatever level they captured |
| Game.EventKeepsSync | src/components/games/MathTankMania.tsx:240-360 | an event whose callbacks fire with the current level keeps the strength within 0..6 + level / 2 and the problem one generated for the current level |
| Game.StaleLevelUpAfterRestart | src/components/games/MathTankMania.tsx:310-321 | a level-up captured at level 4 that fires after a restart leaves level 2 with strength 8, outside `InSync` |
| Game.StaleProblemAfterRestart | src/components/games/MathTankMania.tsx:265-268 | a problem with a quotient from the extra table, scheduled at level 4, arriving after a restart is admissible and leaves level 1 with a problem not generated for level 1 |
| Game.EventMonotone | src/components/games/MathTankMania.tsx:240-360 | a restart sets the score to 0; any other event never lowers the score or the level, never raises health, and a lost game stays lost |
| Game.RunKeepsInv | src/components/games/MathTankMania.tsx:81-360 | over any run of events, restarts included, the invariant holds at the end |
| Game.RunFirst | src/components/games/MathTankMania.tsx:81-360 | a run continues from the state its first event leads to, where the invariant holds and, unless it was a restart, the counters moved monotonically (proof helper for `Game.RunMonotone`) |
| Game.RunMonotone | src/components/games/MathTankMania.tsx:81-360 | over any run of events without a restart the score and the level never fall; health never rises; a lost game stays lost |
| Game.SixCorrectHitsThenLevelUp | src/components/games/MathTankMania.tsx:240-322 | six correct hits at level 1 empty the villain and score 600; the level-up gives level 2, strength 6, the score kept, and the game unpaused |
| Game.ThreeWrongHitsLose | src/components/games/MathTankMania.tsx:82-85 | three wrong hits from full health lose the game on the third hit and not before; afterwards moves and frames change nothing |
| Game.MinePassStep | src/components/games/MathTankMania.tsx:93-127 | proof helper for the loop of `DispatchMineHits`: the mine pass over one more mine runs its handler iff it dispatches, and appends its moved copy |
| Game.CoinPassStep | src/components/games/MathTankMania.tsx:157-192 | proof helper for the loop of `CollectCoins`: the coin pass over one more coin adds 50 iff it is collected, and appends its moved copy |
| Game.RefillMines | src/components/games/MathTankMania.tsx:139-150 | the loop that pushes new mines returns the top-up `TopUpMines` describes |
| Game.RefillCoins | src/components/games/MathTankMania.tsx:200-209 | the loop that pushes new coins returns the top-up `TopUpCoins` describes |
| Game.MathTankMania.constructor | src/components/games/MathTankMania.tsx:36-78 | mounting gives level 1, score 0, health 3, strength 6, lane 2, every flag clear, a level-1 problem with its mines and ten coins, and the invariant |
| Game.MathTankMania.ResetGame | src/components/games/MathTankMania.tsx:62-67 | sets a problem generated for the given level, its initial mines and ten new coins; nothing else changes; the invariant holds |
| Game.MathTankMania.HandleTankMove | src/components/games/MathTankMania.tsx:324-335 | no change while over or paused; otherwise the lane is steered by the clamped rule; the invariant is kept |
| Game.MathTankMania.HandlePause | src/components/games/MathTankMania.tsx:337-340 | toggles the pause flag unconditionally; nothing else changes |
| Game.MathTankMania.HandleCorrectMineHit | src/components/games/MathTankMania.tsx:240-253 | strength becomes `max(0, strength-1)` and the score rises by exactly 100; nothing else changes |
| Game.MathTankMania.ShowNewProblem | src/components/games/MathTankMania.tsx:265-268 | the callback 1000 ms after a correct hit installs a new problem generated for the level it captured; nothing else changes; the invariant is kept |
| Game.MathTankMania.HandleWrongMineHit | src/components/games/MathTankMania.tsx:272-289 | health becomes `max(0, health-1)`; reaching 0 sets game over and the result 'lose'; the hit flash shows; nothing else changes |
| Game.MathTankMania.ClearHitFlash | src/components/games/MathTankMania.tsx:289 | the callback 800 ms after a wrong hit clears the hit flash; nothing else changes |
| Game.MathTankMania.HandleLevelComplete | src/components/games/MathTankMania.tsx:302-308 | shows the level-complete banner and pauses; nothing else changes |
| Game.MathTankMania.FinishLevelComplete | src/components/games/MathTankMania.tsx:310-321 | level + 1, strength `6 + captured level / 2`, unpaused, banner cleared, then `resetGame` with a problem for the new level; the invariant is kept |
| Game.MathTankMania.HandleRestart | src/components/games/MathTankMania.tsx:342-360 | from any state: level 1, score 0, health 3, strength 6, not over, no result, unpaused, lane 2, no flash, no banner, then `resetGame`; the invariant holds |
| Game.MathTankMania.DispatchMine | src/components/games/MathTankMania.tsx:93-131 | a mine falls; if it collides and was not hit, it runs the correct or wrong hit handler and is marked hit; otherwise the state is unchanged |
| Game.MathTankMania.DispatchMineHits | src/components/games/MathTankMania.tsx:92-133 | the mine pass runs the handlers of the dispatching mines in list order, keeps the invariant, and returns every mine moved |
| Game.MathTankMania.CollectCoin | src/components/games/MathTankMania.tsx:157-191 | a coin falls; an uncollected coin that collides is collected for exactly 50 points; otherwise the state is unchanged |
| Game.MathTankMania.CollectCoins | src/components/games/MathTankMania.tsx:156-192 | the coin pass adds 50 per collected coin in list order and returns every coin moved |
| Game.MathTankMania.RefreshEntities | src/components/games/MathTankMania.tsx:136-209 | mines are pruned and topped up; the coin pass scores and its survivors are pruned and topped up; nothing else changes |
| Game.MathTankMania.GameLoop | src/components/games/MathTankMania.tsx:81-221 | one frame performs exactly the frame step: nothing while paused or over; otherwise hits, coins, pruning, top-ups and the level check on the strength the frame began with; the invariant is kept |

## Left out

- Sound (`playSound`, which only logs), toasts, the sound and music toggles, and the keyboard and touch wiring, which only forwards to the handlers.
- The rendering: all presentation components and the component's JSX.
- Scheduling: `requestAnimationFrame`, the effect that restarts the loop, and the `setTimeout` calls. Each delayed action is a separate method or event, fired whenever the caller chooses.
- React's batching, and stale closures beyond the captured level of the delayed callbacks and what one frame captures. After a level-up, and after a restart from a level above 1, the source generates the problem twice. The first is for the stale level. The mount effect then runs again because the level changed, and generates the problem for the new level. The model keeps only that final problem. A restart at level 1 leaves the level unchanged, so the effect does not run again and the one problem is already for level 1.
- Game.EventKeepsInv: the invariant no longer bounds the strength by `6 + level / 2`, nor ties the problem to the level. A callback scheduled before a restart fires with its captured level (see above). `Game.EventKeepsSync` keeps both facts for callbacks that fire on time. `Game.StaleLevelUpAfterRestart` and `Game.StaleProblemAfterRestart` show how late callbacks break them.
- Floating-point timing: `deltaTime` (MathTankMania.tsx:88) and `gameSpeedRef` (line 317) are abstracted as the per-frame fall distance `fall`, a parameter. Positions are exact reals, not IEEE doubles.
- `window.innerHeight` is the parameter `screenHeight`, and `Date.now()` for coin ids is the parameter `clock`.
- Randomness: every `Math.random()` is a parameter. The shuffle's distribution is not modelled, only that it permutes.
- The problem's display text (gameUtils.ts:34) and its mis-encoded division sign; `Problem` keeps the dividend and divisor as numbers. The unused `levelMultiplier` (gameUtils.ts:4) is left out.
- The 'win' result, which the component never sets.
- Game.EventMonotone: states only that the score never decreases between restarts, not that it moves in steps of 50. `Game.FrameEffect`, `Game.HitsClosedForm` and `Game.CoinHitsClosedForm` give the exact +100/+50 amounts per frame.
