/** The game state machine of the `MathTankMania` component. The component
    keeps its state in separate mutable cells and updates them from input
    handlers, a per-frame loop and delayed callbacks. Here `GameState` is a
    value snapshot of all cells, each operation is a step function on it, the
    lemmas state what the steps promise, and the class `MathTankMania` holds
    the cells as fields and implements each operation as a method proved
    against its step. */
module Game {
  import opened Draws
  import opened Collision
  import opened Problems
  import opened Spawn
  import opened TickRules

  datatype Direction = Left | Right

  /** `gameResult`: `null` while playing. The component never sets 'win'. */
  datatype Outcome = Undecided | Win | Lose

  datatype GameState = GameState(
    level: int,
    score: int,
    tankHealth: int,
    villainStrength: int,
    problem: Problem,
    gameOver: bool,
    gameResult: Outcome,
    isPaused: bool,
    tankPosition: int,
    tankIsHit: bool,
    showLevelComplete: bool,
    mines: seq<Mine>,
    coins: seq<Coin>)

  /** `Math.max(0, v)`. */
  function Floor0(v: int): (r: nat)
    ensures r >= v && (r == v || r == 0)
  {
    if v < 0 then 0 else v
  }

  /** The villain's strength is within what the current level can start
      with: at most 6 + level / 2, written without the division. */
  predicate StrengthFits(strength: int, level: int) {
    0 <= strength && 2 * (strength - 6) <= level
  }

  /** `StrengthFits` is the bound 0..6 + level / 2 the level-up sets. */
  lemma StrengthFitsBound(strength: int, level: int)
    requires 0 <= level
    ensures StrengthFits(strength, level) <==> 0 <= strength <= 6 + level / 2
  {
  }

  /** The counters and flags stay in range, and the game is over exactly when
      the tank has no health left. */
  predicate CountersValid(s: GameState) {
    && 1 <= s.level
    && 0 <= s.score
    && 0 <= s.tankHealth <= 3
    && 0 <= s.villainStrength
    && 0 <= s.tankPosition <= 4
    && (s.gameOver <==> s.tankHealth == 0)
    && s.gameResult == (if s.gameOver then Lose else Undecided)
  }

  /** Every mine and coin sits in one of the five lanes, and no live coin is
      collected. */
  predicate EntitiesValid(mines: seq<Mine>, coins: seq<Coin>) {
    && (forall m :: m in mines ==> 0 <= m.x <= 4)
    && (forall c :: c in coins ==> 0 <= c.x <= 4 && !c.collected)
  }

  /** What holds of the game state between any two operations. */
  ghost predicate Inv(s: GameState) {
    CountersValid(s) && WellFormed(s.problem) && EntitiesValid(s.mines, s.coins)
  }

  /** The strength and the problem agree with the current level. This holds
      as long as every delayed callback fires with the level that is current
      when it fires; a callback scheduled before a restart breaks it. */
  ghost predicate InSync(s: GameState) {
    StrengthFits(s.villainStrength, s.level) && ProblemFor(s.level, s.problem)
  }

  // ------------------------------------------------------------ the steps

  /** The lane change of `handleTankMove`. */
  function Steer(lane: int, direction: Direction): int {
    match direction
    case Left => if lane > 0 then lane - 1 else lane
    case Right => if lane < 4 then lane + 1 else lane
  }

  function Clamp(v: int): int {
    if v < 0 then 0 else if v > 4 then 4 else v
  }

  /** A lane change is one step in the chosen direction, clamped to the five
      lanes: the tank never wraps around. */
  lemma SteerClamps(lane: int, direction: Direction)
    requires 0 <= lane <= 4
    ensures Steer(lane, direction) == Clamp(lane + (if direction == Left then -1 else 1))
    ensures 0 <= Steer(lane, direction) <= 4
    ensures lane == 0 ==> Steer(lane, Left) == 0
    ensures lane == 4 ==> Steer(lane, Right) == 4
  {
  }

  /** `handleTankMove`: ignored while the game is over or paused. */
  function MoveTankStep(s: GameState, direction: Direction): GameState {
    if s.gameOver || s.isPaused then s else s.(tankPosition := Steer(s.tankPosition, direction))
  }

  /** `handlePause`: toggles the pause flag, whatever the state. */
  function PauseStep(s: GameState): GameState {
    s.(isPaused := !s.isPaused)
  }

  /** The immediate part of `handleCorrectMineHit`. */
  function CorrectHitStep(s: GameState): GameState {
    s.(villainStrength := Floor0(s.villainStrength - 1), score := s.score + 100)
  }

  /** The immediate part of `handleWrongMineHit`. */
  function WrongHitStep(s: GameState): GameState {
    var health := Floor0(s.tankHealth - 1);
    s.(tankHealth := health,
       gameOver := if health == 0 then true else s.gameOver,
       gameResult := if health == 0 then Lose else s.gameResult,
       tankIsHit := true)
  }

  /** The callback 800 ms after a wrong hit. */
  function ClearHitStep(s: GameState): GameState {
    s.(tankIsHit := false)
  }

  /** The callback 1000 ms after a correct hit: a new problem. */
  function NewProblemStep(s: GameState, p: Problem): GameState {
    s.(problem := p)
  }

  /** The immediate part of `handleLevelComplete`. */
  function BeginLevelCompleteStep(s: GameState): GameState {
    s.(showLevelComplete := true, isPaused := true)
  }

  /** The draws `resetGame` consumes. */
  predicate ResetDrawsValid(p: Problem, heights: seq<real>, coinDraws: seq<CoinDraw>) {
    |heights| == |p.options| && UnitDraws(heights) && 10 <= |coinDraws| && CoinDrawsValid(coinDraws)
  }

  /** `resetGame`: the given problem, its initial mines and ten new coins. */
  function ResetStep(s: GameState, p: Problem, heights: seq<real>, coinDraws: seq<CoinDraw>): GameState
    requires ResetDrawsValid(p, heights, coinDraws)
  {
    s.(problem := p, mines := InitialMines(p.correctAnswer, p.options, heights), coins := GeneratedCoins(10, coinDraws))
  }

  /** The callback 2000 ms after `handleLevelComplete`. The level goes up by
      one from its value when the callback fires; the new strength is computed
      from `capturedLevel`, the level the callback's closure captured when it
      was scheduled. */
  function FinishLevelCompleteStep(s: GameState, capturedLevel: int, p: Problem, heights: seq<real>,
                                   coinDraws: seq<CoinDraw>): GameState
    requires ResetDrawsValid(p, heights, coinDraws)
  {
    ResetStep(s.(level := s.level + 1, villainStrength := 6 + capturedLevel / 2, isPaused := false,
                 showLevelComplete := false),
              p, heights, coinDraws)
  }

  /** The state at mount and after `handleRestart`. */
  function FreshState(p: Problem, heights: seq<real>, coinDraws: seq<CoinDraw>): GameState
    requires ResetDrawsValid(p, heights, coinDraws)
  {
    GameState(1, 0, 3, 6, p, false, Undecided, false, 2, false, false,
              InitialMines(p.correctAnswer, p.options, heights), GeneratedCoins(10, coinDraws))
  }

  /** The hit handlers the frame dispatches for `ms`, one after the other in
      list order. */
  function ApplyMineHits(s: GameState, ms: seq<Mine>, lane: int, fall: real, screenHeight: real): GameState
    decreases |ms|
  {
    if ms == [] then s
    else
      var t := ApplyMineHits(s, ms[..|ms| - 1], lane, fall, screenHeight);
      var m := ms[|ms| - 1];
      if Dispatches(m, lane, fall, screenHeight) then
        (if m.isCorrect then CorrectHitStep(t) else WrongHitStep(t))
      else t
  }

  /** The score updates the coin pass makes for `cs`, one after the other in
      list order. */
  function ApplyCoinHits(s: GameState, cs: seq<Coin>, lane: int, fall: real, screenHeight: real): GameState
    decreases |cs|
  {
    if cs == [] then s
    else
      var t := ApplyCoinHits(s, cs[..|cs| - 1], lane, fall, screenHeight);
      if Collects(cs[|cs| - 1], lane, fall, screenHeight) then t.(score := t.score + 50) else t
  }

  /** The draws one frame consumes. */
  predicate FrameDrawsValid(mineDraws: seq<MineDraw>, coinDraws: seq<CoinDraw>) {
    5 <= |mineDraws| && MineDrawsValid(mineDraws) && 10 <= |coinDraws| && CoinDrawsValid(coinDraws)
  }

  /** A running frame of `gameLoop` up to its level check. Inside the frame
      the component reads the values its closure captured when the frame
      began: the tank's lane, the problem and the game-over flag used by the
      top-up guards. */
  function FrameBody(s: GameState, fall: real, screenHeight: real, mineDraws: seq<MineDraw>,
                     coinDraws: seq<CoinDraw>, clock: int): GameState
    requires |s.problem.options| == 5 && FrameDrawsValid(mineDraws, coinDraws)
  {
    var lane := s.tankPosition;
    var hit := ApplyMineHits(s, s.mines, lane, fall, screenHeight);
    var mines := TopUpMines(VisibleMines(MovedMines(s.mines, lane, fall, screenHeight), screenHeight),
                            s.gameOver, s.problem.options, s.problem.correctAnswer, mineDraws);
    var coins := TopUpCoins(VisibleCoins(MovedCoins(s.coins, lane, fall, screenHeight), screenHeight),
                            s.gameOver, coinDraws, clock);
    hit.(mines := mines, coins := coins, score := hit.score + 50 * CoinHits(s.coins, lane, fall, screenHeight))
  }

  /** One frame of `gameLoop`: nothing while paused or over; otherwise the
      frame body, then the level check on the villain strength the frame
      began with. */
  function TickStep(s: GameState, fall: real, screenHeight: real, mineDraws: seq<MineDraw>,
                    coinDraws: seq<CoinDraw>, clock: int): GameState
    requires |s.problem.options| == 5 && FrameDrawsValid(mineDraws, coinDraws)
  {
    if s.isPaused || s.gameOver then s
    else
      var t := FrameBody(s, fall, screenHeight, mineDraws, coinDraws, clock);
      if s.villainStrength <= 0 then BeginLevelCompleteStep(t) else t
  }

  // ---------------------------------------------------- what the steps keep

  /** The hits of one frame in closed form: each correct hit takes one point
      of strength (never below 0) and adds 100 points, each wrong hit takes one
      point of health (never below 0) and shows the hit flash, and the game is
      lost exactly when a wrong hit leaves no health. */
  lemma {:induction false} HitsClosedForm(s: GameState, ms: seq<Mine>, lane: int, fall: real, screenHeight: real)
    ensures var t := ApplyMineHits(s, ms, lane, fall, screenHeight);
      var c := CorrectHits(ms, lane, fall, screenHeight);
      var w := WrongHits(ms, lane, fall, screenHeight);
      && t.villainStrength == (if c == 0 then s.villainStrength else Floor0(s.villainStrength - c))
      && t.score == s.score + 100 * c
      && t.tankHealth == (if w == 0 then s.tankHealth else Floor0(s.tankHealth - w))
      && t.tankIsHit == (s.tankIsHit || w > 0)
      && t.gameOver == (s.gameOver || (w > 0 && t.tankHealth == 0))
      && t.gameResult == (if w > 0 && t.tankHealth == 0 then Lose else s.gameResult)
    decreases |ms|
  {
    if ms != [] {
      HitsClosedForm(s, ms[..|ms| - 1], lane, fall, screenHeight);
    }
  }

  /** The hit handlers change only the strength, the score, the health, the
      hit flash and the outcome. */
  lemma {:induction false} HitsKeepRest(s: GameState, ms: seq<Mine>, lane: int, fall: real, screenHeight: real)
    ensures var t := ApplyMineHits(s, ms, lane, fall, screenHeight);
      && t.level == s.level && t.problem == s.problem && t.tankPosition == s.tankPosition
      && t.isPaused == s.isPaused && t.showLevelComplete == s.showLevelComplete
      && t.mines == s.mines && t.coins == s.coins
    decreases |ms|
  {
    if ms != [] {
      HitsKeepRest(s, ms[..|ms| - 1], lane, fall, screenHeight);
    }
  }

  /** The coin pass in closed form: 50 points per collected coin, and nothing
      else changes. */
  lemma {:induction false} CoinHitsClosedForm(s: GameState, cs: seq<Coin>, lane: int, fall: real, screenHeight: real)
    ensures ApplyCoinHits(s, cs, lane, fall, screenHeight) == s.(score := s.score + 50 * CoinHits(cs, lane, fall, screenHeight))
    decreases |cs|
  {
    if cs != [] {
      CoinHitsClosedForm(s, cs[..|cs| - 1], lane, fall, screenHeight);
    }
  }

  /** Hits never lower the score nor raise health or strength. */
  lemma {:induction false} HitsMonotone(s: GameState, ms: seq<Mine>, lane: int, fall: real, screenHeight: real)
    requires 0 <= s.tankHealth && 0 <= s.villainStrength
    ensures var t := ApplyMineHits(s, ms, lane, fall, screenHeight);
      && t.score >= s.score && 0 <= t.tankHealth <= s.tankHealth
      && 0 <= t.villainStrength <= s.villainStrength
    decreases |ms|
  {
    if ms != [] {
      HitsMonotone(s, ms[..|ms| - 1], lane, fall, screenHeight);
    }
  }

  /** Any sequence of hits keeps the counters in range. */
  lemma {:induction false} HitsKeepCounters(s: GameState, ms: seq<Mine>, lane: int, fall: real, screenHeight: real)
    requires CountersValid(s)
    ensures CountersValid(ApplyMineHits(s, ms, lane, fall, screenHeight))
    decreases |ms|
  {
    if ms != [] {
      HitsKeepCounters(s, ms[..|ms| - 1], lane, fall, screenHeight);
      HitsKeepRest(s, ms[..|ms| - 1], lane, fall, screenHeight);
    }
  }

  /** A frame while paused or over changes nothing; otherwise the score grows
      by 100 per correct hit and 50 per coin, and the lane, level and problem
      stay as they were. */
  lemma FrameEffect(s: GameState, fall: real, screenHeight: real, mineDraws: seq<MineDraw>,
                    coinDraws: seq<CoinDraw>, clock: int)
    requires |s.problem.options| == 5 && FrameDrawsValid(mineDraws, coinDraws)
    ensures s.isPaused || s.gameOver ==> TickStep(s, fall, screenHeight, mineDraws, coinDraws, clock) == s
    ensures !s.isPaused && !s.gameOver ==>
      var t := TickStep(s, fall, screenHeight, mineDraws, coinDraws, clock);
      var lane := s.tankPosition;
      && t.score == s.score + 100 * CorrectHits(s.mines, lane, fall, screenHeight)
                            + 50 * CoinHits(s.coins, lane, fall, screenHeight)
      && t.tankPosition == s.tankPosition && t.level == s.level && t.problem == s.problem
      && t.isPaused == (s.villainStrength <= 0)
      && t.showLevelComplete == (s.showLevelComplete || s.villainStrength <= 0)
  {
    if !s.isPaused && !s.gameOver {
      HitsClosedForm(s, s.mines, s.tankPosition, fall, screenHeight);
      HitsKeepRest(s, s.mines, s.tankPosition, fall, screenHeight);
    }
  }

  /** The mines after a frame all sit in a lane. */
  lemma FrameMinesInLanes(ms: seq<Mine>, lane: int, fall: real, screenHeight: real, over: bool,
                          options: seq<int>, correctAnswer: int, draws: seq<MineDraw>)
    requires forall m :: m in ms ==> 0 <= m.x <= 4
    requires |options| == 5 && 5 <= |draws| && MineDrawsValid(draws)
    ensures forall m :: m in TopUpMines(VisibleMines(MovedMines(ms, lane, fall, screenHeight), screenHeight), over, options, correctAnswer, draws) ==> 0 <= m.x <= 4
  {
    var moved := MovedMines(ms, lane, fall, screenHeight);
    var vis := VisibleMines(moved, screenHeight);
    assert forall m :: m in vis ==> 0 <= m.x <= 4 by {
      forall m | m in vis ensures 0 <= m.x <= 4 {
        var i :| 0 <= i < |moved| && moved[i] == m;
        assert ms[i] in ms;
      }
    }
    var r := TopUpMines(vis, over, options, correctAnswer, draws);
    forall m | m in r ensures 0 <= m.x <= 4 {
      var i :| 0 <= i < |r| && r[i] == m;
      if i < |vis| {
        assert r[i] == r[..|vis|][i];
      }
    }
  }

  /** The coins after a frame all sit in a lane and are uncollected. */
  lemma FrameCoinsLive(cs: seq<Coin>, lane: int, fall: real, screenHeight: real, over: bool,
                       draws: seq<CoinDraw>, clock: int)
    requires forall c :: c in cs ==> 0 <= c.x <= 4
    requires 10 <= |draws| && CoinDrawsValid(draws)
    ensures forall c :: c in TopUpCoins(VisibleCoins(MovedCoins(cs, lane, fall, screenHeight), screenHeight), over, draws, clock) ==>
      0 <= c.x <= 4 && !c.collected
  {
    var moved := MovedCoins(cs, lane, fall, screenHeight);
    var vis := VisibleCoins(moved, screenHeight);
    assert forall c :: c in vis ==> 0 <= c.x <= 4 && !c.collected by {
      forall c | c in vis ensures 0 <= c.x <= 4 && !c.collected {
        var i :| 0 <= i < |moved| && moved[i] == c;
        assert cs[i] in cs;
      }
    }
    var r := TopUpCoins(vis, over, draws, clock);
    forall c | c in r ensures 0 <= c.x <= 4 && !c.collected {
      var i :| 0 <= i < |r| && r[i] == c;
      if i < |vis| {
        assert r[i] == r[..|vis|][i];
      }
    }
  }

  /** The body of a running frame keeps the invariant. */
  lemma FrameBodyKeepsInv(s: GameState, fall: real, screenHeight: real, mineDraws: seq<MineDraw>,
                          coinDraws: seq<CoinDraw>, clock: int)
    requires Inv(s) && FrameDrawsValid(mineDraws, coinDraws)
    ensures Inv(FrameBody(s, fall, screenHeight, mineDraws, coinDraws, clock))
  {
    var lane := s.tankPosition;
    HitsKeepCounters(s, s.mines, lane, fall, screenHeight);
    HitsKeepRest(s, s.mines, lane, fall, screenHeight);
    FrameMinesInLanes(s.mines, lane, fall, screenHeight, s.gameOver, s.problem.options, s.problem.correctAnswer, mineDraws);
    FrameCoinsLive(s.coins, lane, fall, screenHeight, s.gameOver, coinDraws, clock);
    var t := FrameBody(s, fall, screenHeight, mineDraws, coinDraws, clock);
    assert t.level == s.level && t.problem == s.problem;
    assert CountersValid(t);
    assert EntitiesValid(t.mines, t.coins);
  }

  /** A frame keeps the invariant. */
  lemma FrameKeepsInv(s: GameState, fall: real, screenHeight: real, mineDraws: seq<MineDraw>,
                      coinDraws: seq<CoinDraw>, clock: int)
    requires Inv(s) && FrameDrawsValid(mineDraws, coinDraws)
    ensures Inv(TickStep(s, fall, screenHeight, mineDraws, coinDraws, clock))
  {
    if !s.isPaused && !s.gameOver {
      FrameBodyKeepsInv(s, fall, screenHeight, mineDraws, coinDraws, clock);
    }
  }

  /** `resetGame` with a generated problem keeps the invariant. */
  lemma ResetKeepsInv(s: GameState, p: Problem, heights: seq<real>, coinDraws: seq<CoinDraw>)
    requires CountersValid(s) && WellFormed(p) && ResetDrawsValid(p, heights, coinDraws)
    ensures Inv(ResetStep(s, p, heights, coinDraws))
  {
    var t := ResetStep(s, p, heights, coinDraws);
    forall c | c in t.coins ensures 0 <= c.x <= 4 && !c.collected {
      var i :| 0 <= i < |t.coins| && t.coins[i] == c;
    }
    forall m | m in t.mines ensures 0 <= m.x <= 4 {
      var i :| 0 <= i < |t.mines| && t.mines[i] == m;
    }
  }

  // ---------------------------------------------------- events and runs

  /** Everything that can happen to the game: input, a frame, one of the
      delayed callbacks firing, or a restart. Random choices travel with the
      event. */
  datatype Event =
    | Move(direction: Direction)
    | TogglePause
    | Frame(fall: real, screenHeight: real, mineDraws: seq<MineDraw>, coinDraws: seq<CoinDraw>, clock: int)
    | HitFlashOver
    | ProblemReady(capturedLevel: int, p: Problem)
    | NextLevel(capturedLevel: int, p: Problem, heights: seq<real>, coinDraws: seq<CoinDraw>)
    | Restart(p: Problem, heights: seq<real>, coinDraws: seq<CoinDraw>)

  /** The random choices an event carries are ones the game can produce. A
      delayed callback carries the level its closure captured, which is some
      level the game has been at: the new problem is generated for that
      level. After a level-up the problem that stays is the one the reset
      generates once the level has gone up. */
  ghost predicate Admissible(s: GameState, e: Event) {
    match e
    case Frame(_, _, mineDraws, coinDraws, _) => FrameDrawsValid(mineDraws, coinDraws)
    case ProblemReady(capturedLevel, p) => 1 <= capturedLevel && ProblemFor(capturedLevel, p)
    case NextLevel(capturedLevel, p, heights, coinDraws) =>
      1 <= capturedLevel && ProblemFor(s.level + 1, p) && ResetDrawsValid(p, heights, coinDraws)
    case Restart(p, heights, coinDraws) => ProblemFor(1, p) && ResetDrawsValid(p, heights, coinDraws)
    case _ => true
  }

  ghost function Apply(s: GameState, e: Event): GameState
    requires Inv(s) && Admissible(s, e)
  {
    match e
    case Move(direction) => MoveTankStep(s, direction)
    case TogglePause => PauseStep(s)
    case Frame(fall, screenHeight, mineDraws, coinDraws, clock) => TickStep(s, fall, screenHeight, mineDraws, coinDraws, clock)
    case HitFlashOver => ClearHitStep(s)
    case ProblemReady(_, p) => NewProblemStep(s, p)
    case NextLevel(capturedLevel, p, heights, coinDraws) => FinishLevelCompleteStep(s, capturedLevel, p, heights, coinDraws)
    case Restart(p, heights, coinDraws) => FreshState(p, heights, coinDraws)
  }

  /** Every event keeps the invariant: health within 0..3, a non-negative
      villain strength, the lane within 0..4, a non-negative score, the game
      over exactly when the tank has no health left, and a well-formed
      problem. */
  lemma EventKeepsInv(s: GameState, e: Event)
    requires Inv(s) && Admissible(s, e)
    ensures Inv(Apply(s, e))
  {
    match e
    case Move(direction) =>
      SteerClamps(s.tankPosition, direction);
    case Frame(fall, screenHeight, mineDraws, coinDraws, clock) =>
      FrameKeepsInv(s, fall, screenHeight, mineDraws, coinDraws, clock);
    case ProblemReady(capturedLevel, p) =>
      ProblemWellFormed(capturedLevel, p);
    case NextLevel(capturedLevel, p, heights, coinDraws) =>
      ProblemWellFormed(s.level + 1, p);
      ResetKeepsInv(s.(level := s.level + 1, villainStrength := 6 + capturedLevel / 2, isPaused := false,
                       showLevelComplete := false), p, heights, coinDraws);
    case Restart(p, heights, coinDraws) =>
      ProblemWellFormed(1, p);
      ResetKeepsInv(GameState(1, 0, 3, 6, p, false, Undecided, false, 2, false, false, [], []), p, heights, coinDraws);
    case _ =>
  }

  /** The delayed callbacks of `e`, if any, fire with the level that is
      current. */
  predicate OnTime(s: GameState, e: Event) {
    match e
    case ProblemReady(capturedLevel, _) => capturedLevel == s.level
    case NextLevel(capturedLevel, _, _, _) => capturedLevel == s.level
    case _ => true
  }

  /** An event whose callbacks fire on time keeps the strength within
      0..6 + level / 2 and the problem one generated for the current level. */
  lemma EventKeepsSync(s: GameState, e: Event)
    requires Inv(s) && InSync(s) && Admissible(s, e) && OnTime(s, e)
    ensures InSync(Apply(s, e))
  {
    match e
    case Frame(fall, screenHeight, mineDraws, coinDraws, clock) =>
      FrameMonotone(s, fall, screenHeight, mineDraws, coinDraws, clock);
      FrameEffect(s, fall, screenHeight, mineDraws, coinDraws, clock);
    case _ =>
  }

  /** A level-up scheduled at level 4 that fires after a restart: the game is
      at level 2 with strength 8, above the 7 that level 2 allows. */
  lemma StaleLevelUpAfterRestart(p: Problem, heights: seq<real>, coinDraws: seq<CoinDraw>,
                                 q: Problem, qHeights: seq<real>, qCoinDraws: seq<CoinDraw>)
    requires ResetDrawsValid(p, heights, coinDraws) && ResetDrawsValid(q, qHeights, qCoinDraws)
    ensures var t := FinishLevelCompleteStep(FreshState(p, heights, coinDraws), 4, q, qHeights, qCoinDraws);
      && t.level == 2 && t.villainStrength == 8
      && !StrengthFits(t.villainStrength, t.level) && !InSync(t)
  {
  }

  /** A new problem scheduled at level 4 that arrives after a restart: the
      game at level 1 shows a problem whose quotient only levels above 3 can
      draw. */
  lemma StaleProblemAfterRestart(p: Problem, heights: seq<real>, coinDraws: seq<CoinDraw>, q: Problem)
    requires ResetDrawsValid(p, heights, coinDraws)
    requires ProblemFor(4, q) && q.correctAnswer in ExtraResults
    ensures var s := FreshState(p, heights, coinDraws);
      var t := NewProblemStep(s, q);
      && Admissible(s, ProblemReady(4, q))
      && t.level == 1 && t.problem == q && !InSync(t)
  {
  }

  /** A frame never lowers the score, never raises health or strength, and
      keeps the level. */
  lemma FrameMonotone(s: GameState, fall: real, screenHeight: real, mineDraws: seq<MineDraw>,
                      coinDraws: seq<CoinDraw>, clock: int)
    requires CountersValid(s) && |s.problem.options| == 5 && FrameDrawsValid(mineDraws, coinDraws)
    ensures var t := TickStep(s, fall, screenHeight, mineDraws, coinDraws, clock);
      && t.score >= s.score
      && t.tankHealth <= s.tankHealth
      && 0 <= t.villainStrength <= s.villainStrength
      && t.level == s.level
  {
    if !s.isPaused && !s.gameOver {
      var lane := s.tankPosition;
      HitsMonotone(s, s.mines, lane, fall, screenHeight);
      HitsKeepRest(s, s.mines, lane, fall, screenHeight);
    }
  }

  /** Apart from a restart, which sets it to 0, the score never falls;
      health never rises, the level never falls, and a
      lost game stays lost. */
  lemma EventMonotone(s: GameState, e: Event)
    requires Inv(s) && Admissible(s, e)
    ensures e.Restart? ==> Apply(s, e).score == 0
    ensures !e.Restart? ==>
      var t := Apply(s, e);
      && t.score >= s.score
      && t.tankHealth <= s.tankHealth
      && t.level >= s.level
      && (s.gameOver ==> t.gameOver && t.gameResult == Lose)
  {
    match e
    case Frame(fall, screenHeight, mineDraws, coinDraws, clock) =>
      FrameMonotone(s, fall, screenHeight, mineDraws, coinDraws, clock);
    case _ =>
  }

  /** Once the counters and flags hold their initial values, `resetGame`
      yields the state at mount, whatever problem and entities came before. */
  lemma RestartIsFresh(s: GameState, p: Problem, heights: seq<real>, coinDraws: seq<CoinDraw>)
    requires ResetDrawsValid(p, heights, coinDraws)
    requires s.level == 1 && s.score == 0 && s.tankHealth == 3 && s.villainStrength == 6
    requires !s.gameOver && s.gameResult == Undecided && !s.isPaused
    requires s.tankPosition == 2 && !s.tankIsHit && !s.showLevelComplete
    ensures ResetStep(s, p, heights, coinDraws) == FreshState(p, heights, coinDraws)
  {
  }

  /** Events applied in order. */
  ghost function Run(s: GameState, es: seq<Event>): (t: GameState)
    requires Inv(s)
    decreases |es|
  {
    if es == [] || !Admissible(s, es[0]) then s
    else
      EventKeepsInv(s, es[0]);
      Run(Apply(s, es[0]), es[1..])
  }

  /** Over any run of events, restarts included, the invariant holds at the
      end. */
  lemma {:induction false} RunKeepsInv(s: GameState, es: seq<Event>)
    requires Inv(s)
    ensures Inv(Run(s, es))
    decreases |es|
  {
    if es != [] && Admissible(s, es[0]) {
      EventKeepsInv(s, es[0]);
      RunKeepsInv(Apply(s, es[0]), es[1..]);
    }
  }

  /** A run whose first event is admissible continues from a state where the
      invariant holds and, unless that event is a restart, the score has not
      decreased, health has not risen, the level has not fallen, and a lost
      game is still lost. */
  lemma RunFirst(s: GameState, es: seq<Event>) returns (u: GameState)
    requires Inv(s) && es != [] && Admissible(s, es[0])
    ensures Inv(u) && Run(s, es) == Run(u, es[1..])
    ensures !es[0].Restart? ==>
      && u.score >= s.score
      && u.tankHealth <= s.tankHealth && u.level >= s.level
      && (s.gameOver ==> u.gameOver)
  {
    EventKeepsInv(s, es[0]);
    EventMonotone(s, es[0]);
    u := Apply(s, es[0]);
  }

  /** Over any run without a restart the score has not decreased, health has
      not risen, the level has not fallen, and a lost game is still lost. */
  lemma {:induction false} RunMonotone(s: GameState, es: seq<Event>)
    requires Inv(s)
    requires forall i :: 0 <= i < |es| ==> !es[i].Restart?
    ensures var t := Run(s, es);
      && t.score >= s.score
      && t.tankHealth <= s.tankHealth && t.level >= s.level
      && (s.gameOver ==> t.gameOver)
    decreases |es|
  {
    if es != [] && Admissible(s, es[0]) {
      var u := RunFirst(s, es);
      assert !es[0].Restart?;
      RunMonotone(u, es[1..]);
    }
  }

  // ---------------------------------------------------------- scenarios

  /** Six correct hits at level 1 empty the villain's strength and score 600;
      the level-up that follows gives level 2 with strength 6 (computed from
      level 1) and leaves the score at 600. */
  lemma SixCorrectHitsThenLevelUp(s: GameState, p: Problem, heights: seq<real>, coinDraws: seq<CoinDraw>)
    requires s.level == 1 && s.villainStrength == 6 && s.score == 0
    requires ResetDrawsValid(p, heights, coinDraws)
    ensures var t := CorrectHitStep(CorrectHitStep(CorrectHitStep(CorrectHitStep(CorrectHitStep(CorrectHitStep(s))))));
      && t.villainStrength == 0 && t.score == 600
      && BeginLevelCompleteStep(t).isPaused && BeginLevelCompleteStep(t).showLevelComplete
      && var u := FinishLevelCompleteStep(BeginLevelCompleteStep(t), 1, p, heights, coinDraws);
      u.level == 2 && u.villainStrength == 6 && u.score == 600 && !u.isPaused && !u.showLevelComplete
  {
  }

  /** Three wrong hits from full health lose the game on the third; after that
      lane moves and frames leave the state alone. */
  lemma ThreeWrongHitsLose(s: GameState, direction: Direction, fall: real, screenHeight: real,
                           mineDraws: seq<MineDraw>, coinDraws: seq<CoinDraw>, clock: int)
    requires Inv(s) && s.tankHealth == 3 && FrameDrawsValid(mineDraws, coinDraws)
    ensures var t := WrongHitStep(WrongHitStep(WrongHitStep(s)));
      && t.tankHealth == 0 && t.gameOver && t.gameResult == Lose
      && !WrongHitStep(WrongHitStep(s)).gameOver
      && MoveTankStep(t, direction) == t
      && TickStep(t, fall, screenHeight, mineDraws, coinDraws, clock) == t
  {
  }

  /** One more mine of the mine pass. */
  lemma MinePassStep(s: GameState, ms: seq<Mine>, i: int, lane: int, fall: real, screenHeight: real)
    requires 0 <= i < |ms|
    ensures var t := ApplyMineHits(s, ms[..i], lane, fall, screenHeight);
      ApplyMineHits(s, ms[..i + 1], lane, fall, screenHeight)
        == if !Dispatches(ms[i], lane, fall, screenHeight) then t
           else if ms[i].isCorrect then CorrectHitStep(t) else WrongHitStep(t)
    ensures MovedMines(ms[..i + 1], lane, fall, screenHeight)
      == MovedMines(ms[..i], lane, fall, screenHeight) + [MoveMine(ms[i], lane, fall, screenHeight)]
  {
    assert ms[..i + 1][..i] == ms[..i];
  }

  /** One more coin of the coin pass. */
  lemma CoinPassStep(s: GameState, cs: seq<Coin>, j: int, lane: int, fall: real, screenHeight: real)
    requires 0 <= j < |cs|
    ensures var t := ApplyCoinHits(s, cs[..j], lane, fall, screenHeight);
      ApplyCoinHits(s, cs[..j + 1], lane, fall, screenHeight)
        == if Collects(cs[j], lane, fall, screenHeight) then t.(score := t.score + 50) else t
    ensures MovedCoins(cs[..j + 1], lane, fall, screenHeight)
      == MovedCoins(cs[..j], lane, fall, screenHeight) + [MoveCoin(cs[j], lane, fall, screenHeight)]
  {
    assert cs[..j + 1][..j] == cs[..j];
  }

  // ------------------------------------------------------------ the refills

  /** The mine top-up of `gameLoop`: with fewer than three mines left and the
      game not over, one new mine per slot from the current length up to 5. */
  method RefillMines(vis: seq<Mine>, over: bool, options: seq<int>, correctAnswer: int, draws: seq<MineDraw>)
    returns (r: seq<Mine>)
    requires |options| == 5 && |draws| >= 5 && MineDrawsValid(draws)
    ensures r == TopUpMines(vis, over, options, correctAnswer, draws)
  {
    r := vis;
    if |vis| < 3 && !over {
      for k := |vis| to 5
        invariant |r| == k && r[..|vis|] == vis
        invariant forall j :: |vis| <= j < k ==> r[j] == NewMine(options, correctAnswer, j, draws[j])
      {
        r := r + [NewMine(options, correctAnswer, k, draws[k])];
      }
    }
  }

  /** The coin top-up of `gameLoop`: with fewer than five coins left and the
      game not over, new coins up to 10, coin `k` with the id `clock + k`. */
  method RefillCoins(vis: seq<Coin>, over: bool, draws: seq<CoinDraw>, clock: int) returns (r: seq<Coin>)
    requires |draws| >= 10 && CoinDrawsValid(draws)
    ensures r == TopUpCoins(vis, over, draws, clock)
  {
    r := vis;
    if |vis| < 5 && !over {
      for k := |vis| to 10
        invariant |r| == k && r[..|vis|] == vis
        invariant forall n :: |vis| <= n < k ==> r[n] == SpawnCoin(clock + n, draws[n], 300.0)
      {
        r := r + [SpawnCoin(clock + k, draws[k], 300.0)];
      }
    }
  }

  // ------------------------------------------------------------ the class

  /** The component's state cells and the operations that update them. */
  class MathTankMania {
    var level: int
    var score: int
    var tankHealth: int
    var villainStrength: int
    var currentProblem: Problem
    var gameOver: bool
    var gameResult: Outcome
    var isPaused: bool
    var tankPosition: int
    var tankIsHit: bool
    var showLevelComplete: bool
    var mines: seq<Mine>
    var coins: seq<Coin>

    /** The cells as one value. */
    function State(): GameState
      reads this
    {
      GameState(level, score, tankHealth, villainStrength, currentProblem, gameOver, gameResult,
                isPaused, tankPosition, tankIsHit, showLevelComplete, mines, coins)
    }

    ghost predicate Valid()
      reads this
    {
      Inv(State())
    }

    /** Mounting the component: the initial cells and a `resetGame` run. */
    constructor (p: Problem, heights: seq<real>, coinDraws: seq<CoinDraw>)
      requires ProblemFor(1, p) && ResetDrawsValid(p, heights, coinDraws)
      ensures Valid()
      ensures State() == FreshState(p, heights, coinDraws)
    {
      ProblemWellFormed(1, p);
      ResetKeepsInv(GameState(1, 0, 3, 6, p, false, Undecided, false, 2, false, false, [], []), p, heights, coinDraws);
      level, score, tankHealth, villainStrength := 1, 0, 3, 6;
      currentProblem := p;
      gameOver, gameResult, isPaused := false, Undecided, false;
      tankPosition, tankIsHit, showLevelComplete := 2, false, false;
      mines := InitialMines(p.correctAnswer, p.options, heights);
      var generated := GenerateCoins(10, coinDraws);
      coins := generated;
      new;
    }

    /** `resetGame`: a new problem, generated for `problemLevel`, its mines
        and ten coins. */
    method ResetGame(problemLevel: int, p: Problem, heights: seq<real>, coinDraws: seq<CoinDraw>)
      requires CountersValid(State()) && 1 <= problemLevel && ProblemFor(problemLevel, p)
      requires ResetDrawsValid(p, heights, coinDraws)
      modifies this
      ensures Valid()
      ensures State() == ResetStep(old(State()), p, heights, coinDraws)
    {
      currentProblem := p;
      mines := InitialMines(p.correctAnswer, p.options, heights);
      coins := GenerateCoins(10, coinDraws);
      assert State() == ResetStep(old(State()), p, heights, coinDraws);
      ProblemWellFormed(problemLevel, p);
      ResetKeepsInv(old(State()), p, heights, coinDraws);
    }

    /** `handleTankMove`. */
    method HandleTankMove(direction: Direction)
      requires Valid()
      modifies this
      ensures Valid()
      ensures State() == MoveTankStep(old(State()), direction)
    {
      if gameOver || isPaused {
        return;
      }
      if direction == Left && tankPosition > 0 {
        tankPosition := tankPosition - 1;
      } else if direction == Right && tankPosition < 4 {
        tankPosition := tankPosition + 1;
      }
    }

    /** `handlePause`. */
    method HandlePause()
      requires Valid()
      modifies this
      ensures Valid()
      ensures State() == PauseStep(old(State()))
    {
      isPaused := !isPaused;
    }

    /** `handleCorrectMineHit`, up to the scheduling of the new problem. */
    method HandleCorrectMineHit()
      requires Valid()
      modifies this
      ensures Valid()
      ensures State() == CorrectHitStep(old(State()))
    {
      villainStrength := Floor0(villainStrength - 1);
      score := score + 100;
    }

    /** The callback 1000 ms after a correct hit, with a problem generated
        for the level the callback captured. */
    method ShowNewProblem(capturedLevel: int, p: Problem)
      requires Valid() && 1 <= capturedLevel && ProblemFor(capturedLevel, p)
      modifies this
      ensures Valid()
      ensures State() == NewProblemStep(old(State()), p)
    {
      currentProblem := p;
      ProblemWellFormed(capturedLevel, p);
    }

    /** `handleWrongMineHit`, up to the scheduling of the flash's end. */
    method HandleWrongMineHit()
      requires Valid()
      modifies this
      ensures Valid()
      ensures State() == WrongHitStep(old(State()))
    {
      tankHealth := Floor0(tankHealth - 1);
      if tankHealth == 0 {
        gameOver := true;
        gameResult := Lose;
      }
      tankIsHit := true;
    }

    /** The callback 800 ms after a wrong hit. */
    method ClearHitFlash()
      requires Valid()
      modifies this
      ensures Valid()
      ensures State() == ClearHitStep(old(State()))
    {
      tankIsHit := false;
    }

    /** The immediate half of `handleLevelComplete`. */
    method HandleLevelComplete()
      requires Valid()
      modifies this
      ensures Valid()
      ensures State() == BeginLevelCompleteStep(old(State()))
    {
      showLevelComplete := true;
      isPaused := true;
    }

    /** The half of `handleLevelComplete` run 2000 ms later. */
    method FinishLevelComplete(capturedLevel: int, p: Problem, heights: seq<real>, coinDraws: seq<CoinDraw>)
      requires Valid() && 1 <= capturedLevel && ProblemFor(level + 1, p) && ResetDrawsValid(p, heights, coinDraws)
      modifies this
      ensures Valid()
      ensures State() == FinishLevelCompleteStep(old(State()), capturedLevel, p, heights, coinDraws)
    {
      ghost var raised := old(State()).(level := old(level) + 1, villainStrength := 6 + capturedLevel / 2,
                                        isPaused := false, showLevelComplete := false);
      assert CountersValid(raised);
      level := level + 1;
      villainStrength := 6 + capturedLevel / 2;
      isPaused := false;
      showLevelComplete := false;
      assert State() == raised;
      ResetGame(level, p, heights, coinDraws);
    }

    /** `handleRestart`. */
    method HandleRestart(p: Problem, heights: seq<real>, coinDraws: seq<CoinDraw>)
      requires ProblemFor(1, p) && ResetDrawsValid(p, heights, coinDraws)
      modifies this
      ensures Valid()
      ensures State() == FreshState(p, heights, coinDraws)
    {
      level, score, tankHealth, villainStrength := 1, 0, 3, 6;
      gameOver, gameResult, isPaused := false, Undecided, false;
      tankPosition, tankIsHit, showLevelComplete := 2, false, false;
      ghost var cleared := State();
      RestartIsFresh(cleared, p, heights, coinDraws);
      ResetGame(1, p, heights, coinDraws);
    }

    /** One mine of the mine pass: it falls by `fall`, and if it newly hits
        the tank in `lane` it dispatches its hit handler and is marked hit. */
    method DispatchMine(mine: Mine, lane: int, fall: real, screenHeight: real) returns (moved: Mine)
      requires Valid()
      modifies this
      ensures Valid()
      ensures State() == if !Dispatches(mine, lane, fall, screenHeight) then old(State())
                         else if mine.isCorrect then CorrectHitStep(old(State())) else WrongHitStep(old(State()))
      ensures moved == MoveMine(mine, lane, fall, screenHeight)
    {
      var newY := mine.y + fall;
      var hasCollided := CheckCollision(TankBox(lane, TankWidth), ObjectBox(mine.x, newY, MineSize, MineSize), screenHeight);
      if hasCollided && !mine.isHit {
        if mine.isCorrect {
          HandleCorrectMineHit();
        } else {
          HandleWrongMineHit();
        }
        moved := mine.(isHit := true, y := newY);
      } else {
        moved := mine.(y := newY);
      }
    }

    /** The mine pass of `gameLoop`: every mine in turn, in list order.
        Returns the moved mines; the mine cell itself is not touched. */
    method DispatchMineHits(lane: int, fall: real, screenHeight: real) returns (moved: seq<Mine>)
      requires Valid()
      modifies this
      ensures Valid()
      ensures State() == ApplyMineHits(old(State()), old(mines), lane, fall, screenHeight)
      ensures moved == MovedMines(old(mines), lane, fall, screenHeight)
    {
      ghost var s0 := State();
      moved := [];
      var i := 0;
      while i < |mines|
        invariant Valid()
        invariant 0 <= i <= |s0.mines| && mines == s0.mines
        invariant State() == ApplyMineHits(s0, s0.mines[..i], lane, fall, screenHeight)
        invariant moved == MovedMines(s0.mines[..i], lane, fall, screenHeight)
      {
        MinePassStep(s0, s0.mines, i, lane, fall, screenHeight);
        var next := DispatchMine(mines[i], lane, fall, screenHeight);
        moved := moved + [next];
        i := i + 1;
      }
      assert s0.mines[..i] == s0.mines;
    }

    /** One coin of the coin pass: it falls by `fall`, and if it is not yet
        collected and hits the tank in `lane` it is collected for 50 points. */
    method CollectCoin(coin: Coin, lane: int, fall: real, screenHeight: real) returns (moved: Coin)
      modifies this
      ensures State() == if Collects(coin, lane, fall, screenHeight) then old(State()).(score := old(score) + 50) else old(State())
      ensures moved == MoveCoin(coin, lane, fall, screenHeight)
    {
      var newY := coin.y + fall;
      var collected := false;
      if !coin.collected {
        var hasCollided := CheckCollision(TankBox(lane, TankWidth), ObjectBox(coin.x, newY, CoinSize, CoinSize), screenHeight);
        if hasCollided {
          score := score + 50;
          collected := true;
        }
      }
      moved := if collected then coin.(collected := true, y := newY) else coin.(y := newY);
    }

    /** The coin pass of `gameLoop`: every coin in turn. Only the score
        changes. */
    method CollectCoins(lane: int, fall: real, screenHeight: real) returns (moved: seq<Coin>)
      modifies this
      ensures State() == ApplyCoinHits(old(State()), old(coins), lane, fall, screenHeight)
      ensures moved == MovedCoins(old(coins), lane, fall, screenHeight)
    {
      ghost var s0 := State();
      moved := [];
      var j := 0;
      while j < |coins|
        invariant 0 <= j <= |s0.coins| && coins == s0.coins
        invariant State() == ApplyCoinHits(s0, s0.coins[..j], lane, fall, screenHeight)
        invariant moved == MovedCoins(s0.coins[..j], lane, fall, screenHeight)
      {
        CoinPassStep(s0, s0.coins, j, lane, fall, screenHeight);
        var next := CollectCoin(coins[j], lane, fall, screenHeight);
        moved := moved + [next];
        j := j + 1;
      }
      assert s0.coins[..j] == s0.coins;
    }

    /** The rest of `gameLoop` before the level check: the moved mines below
        the screen are dropped and the list topped up, then the coin pass runs
        and its survivors are topped up in the same way. */
    method RefreshEntities(moved: seq<Mine>, lane: int, fall: real, screenHeight: real, over: bool,
                           options: seq<int>, correctAnswer: int,
                           mineDraws: seq<MineDraw>, coinDraws: seq<CoinDraw>, clock: int)
      requires |options| == 5 && FrameDrawsValid(mineDraws, coinDraws)
      modifies this
      ensures State() == old(State()).(
        mines := TopUpMines(VisibleMines(moved, screenHeight), over, options, correctAnswer, mineDraws),
        coins := TopUpCoins(VisibleCoins(MovedCoins(old(coins), lane, fall, screenHeight), screenHeight), over, coinDraws, clock),
        score := old(score) + 50 * CoinHits(old(coins), lane, fall, screenHeight))
    {
      mines := RefillMines(VisibleMines(moved, screenHeight), over, options, correctAnswer, mineDraws);
      ghost var s1 := State();
      var newCoins := CollectCoins(lane, fall, screenHeight);
      CoinHitsClosedForm(s1, s1.coins, lane, fall, screenHeight);
      coins := RefillCoins(VisibleCoins(newCoins, screenHeight), over, coinDraws, clock);
    }

    /** One frame of `gameLoop`: the mine pass, dropping the mines below the
        screen and topping the list up; the coin pass, likewise; and the start
        of the level completion if the villain had no strength left when the
        frame began. */
    method GameLoop(fall: real, screenHeight: real, mineDraws: seq<MineDraw>, coinDraws: seq<CoinDraw>, clock: int)
      requires Valid() && FrameDrawsValid(mineDraws, coinDraws)
      modifies this
      ensures Valid()
      ensures State() == TickStep(old(State()), fall, screenHeight, mineDraws, coinDraws, clock)
    {
      if isPaused || gameOver {
        return;
      }
      ghost var s0 := State();
      var lane, problem, over, strength := tankPosition, currentProblem, gameOver, villainStrength;

      var newMines := DispatchMineHits(lane, fall, screenHeight);
      HitsKeepRest(s0, s0.mines, lane, fall, screenHeight);
      RefreshEntities(newMines, lane, fall, screenHeight, over, problem.options, problem.correctAnswer,
                      mineDraws, coinDraws, clock);
      assert State() == FrameBody(s0, fall, screenHeight, mineDraws, coinDraws, clock);
      FrameBodyKeepsInv(s0, fall, screenHeight, mineDraws, coinDraws, clock);
      if strength <= 0 {
        HandleLevelComplete();
      }
    }
  }
}
