/** The entity factories `generateInitialMines` and `generateCoins`, and the
    shapes of the falling entities. */
module Spawn {
  import opened Draws

  /** A falling answer option. `isCorrect` is fixed when it is spawned;
      `isHit` records that it has already dispatched its hit. */
  datatype Mine = Mine(value: int, x: int, y: real, isCorrect: bool, isHit: bool)

  /** A falling bonus coin. */
  datatype Coin = Coin(id: int, x: int, y: real, collected: bool)

  /** The two draws a coin is spawned from: its lane and its height. */
  datatype CoinDraw = CoinDraw(lane: real, height: real)

  predicate CoinDrawsValid(draws: seq<CoinDraw>) {
    forall i :: 0 <= i < |draws| ==> IsUnit(draws[i].lane) && IsUnit(draws[i].height)
  }

  predicate UnitDraws(us: seq<real>) {
    forall i :: 0 <= i < |us| ==> IsUnit(us[i])
  }

  /** `-100 - Math.random() * span`: a start position above the top of the screen. */
  function DropHeight(u: real, span: real): (y: real)
    requires IsUnit(u) && span > 0.0
    ensures -100.0 - span < y <= -100.0
  {
    ScaledUnit(u, span);
    -100.0 - u * span
  }

  lemma ScaledUnit(u: real, span: real)
    requires IsUnit(u) && span > 0.0
    ensures 0.0 <= u * span < span
  {
  }

  /** `generateInitialMines(correctAnswer, options)`: one mine per option, in
      lane order, each starting between 400 and 100 pixels above the screen. */
  function InitialMines(correctAnswer: int, options: seq<int>, heights: seq<real>): (ms: seq<Mine>)
    requires |heights| == |options| && UnitDraws(heights)
    ensures |ms| == |options|
    ensures forall i :: 0 <= i < |ms| ==>
      && ms[i].value == options[i] && ms[i].x == i && !ms[i].isHit
      && -400.0 < ms[i].y <= -100.0
      && (ms[i].isCorrect <==> options[i] == correctAnswer)
  {
    seq(|options|, i requires 0 <= i < |options| =>
      Mine(options[i], i, DropHeight(heights[i], 300.0), options[i] == correctAnswer, false))
  }

  /** How many mines are tagged correct. */
  function CorrectCount(ms: seq<Mine>): nat
    decreases |ms|
  {
    if ms == [] then 0
    else CorrectCount(ms[..|ms| - 1]) + (if ms[|ms| - 1].isCorrect then 1 else 0)
  }

  /** The initial mines tag as correct exactly as many mines as the options
      hold copies of the correct answer. */
  lemma {:induction false} InitialCorrectCount(correctAnswer: int, options: seq<int>, heights: seq<real>)
    requires |heights| == |options| && UnitDraws(heights)
    ensures CorrectCount(InitialMines(correctAnswer, options, heights)) == multiset(options)[correctAnswer]
    decreases |options|
  {
    if options != [] {
      var n := |options| - 1;
      var ms := InitialMines(correctAnswer, options, heights);
      var front := InitialMines(correctAnswer, options[..n], heights[..n]);
      assert ms[..n] == front;
      InitialCorrectCount(correctAnswer, options[..n], heights[..n]);
      assert options == options[..n] + [options[n]];
      assert multiset(options) == multiset(options[..n]) + multiset{options[n]};
    }
  }

  /** One coin of `generateCoins`: a random lane 0..4, a start height, not collected. */
  function SpawnCoin(id: int, draw: CoinDraw, span: real): (c: Coin)
    requires IsUnit(draw.lane) && IsUnit(draw.height) && span > 0.0
    ensures c.id == id && 0 <= c.x <= 4 && -100.0 - span < c.y <= -100.0 && !c.collected
  {
    Coin(id, Pick(draw.lane, 5), DropHeight(draw.height, span), false)
  }

  /** The list `generateCoins(count)` returns: coin `i` has id `i`; a negative
      count gives no coins. */
  function GeneratedCoins(count: int, draws: seq<CoinDraw>): (cs: seq<Coin>)
    requires count <= |draws| && CoinDrawsValid(draws)
    ensures |cs| == if count < 0 then 0 else count
    ensures forall i :: 0 <= i < |cs| ==>
      && cs[i].id == i && 0 <= cs[i].x <= 4 && -900.0 < cs[i].y <= -100.0 && !cs[i].collected
  {
    seq(if count < 0 then 0 else count, i requires 0 <= i < count => SpawnCoin(i, draws[i], 800.0))
  }

  /** `generateCoins(count)`: a counted loop that appends one fresh coin per
      round. */
  method GenerateCoins(count: int, draws: seq<CoinDraw>) returns (coins: seq<Coin>)
    requires count <= |draws| && CoinDrawsValid(draws)
    ensures coins == GeneratedCoins(count, draws)
    ensures |coins| == if count < 0 then 0 else count
    ensures forall i :: 0 <= i < |coins| ==> coins[i].id == i && !coins[i].collected
  {
    coins := [];
    var i := 0;
    while i < count
      invariant 0 <= i <= (if count < 0 then 0 else count)
      invariant |coins| == i
      invariant forall k :: 0 <= k < i ==> coins[k] == SpawnCoin(k, draws[k], 800.0)
    {
      coins := coins + [SpawnCoin(i, draws[i], 800.0)];
      i := i + 1;
    }
  }
}
