/** What one frame of the game loop does to the falling entities: move them,
    find the ones that hit the tank, drop those that left the screen and top
    the pools back up. The effect of a hit on the game state is in `Game`. */
module TickRules {
  import opened Draws
  import opened Collision
  import opened Spawn

  const TankWidth: real := 80.0
  const MineSize: real := 80.0
  const CoinSize: real := 40.0

  /** The three draws a topped-up mine is spawned from. */
  datatype MineDraw = MineDraw(filler: real, lane: real, height: real)

  predicate MineDrawsValid(draws: seq<MineDraw>) {
    forall i :: 0 <= i < |draws| ==> IsUnit(draws[i].filler) && IsUnit(draws[i].lane) && IsUnit(draws[i].height)
  }

  // ---------------------------------------------------------------- mines

  /** The mine, after falling `fall` pixels, overlaps the tank in `lane`. */
  predicate MineCollides(m: Mine, lane: int, fall: real, screenHeight: real) {
    CheckCollision(TankBox(lane, TankWidth), ObjectBox(m.x, m.y + fall, MineSize, MineSize), screenHeight)
  }

  /** The mine collides and has not dispatched a hit before: it dispatches now. */
  predicate Dispatches(m: Mine, lane: int, fall: real, screenHeight: real) {
    MineCollides(m, lane, fall, screenHeight) && !m.isHit
  }

  /** One mine after the frame: lower by `fall`, marked hit if it dispatched. */
  function MoveMine(m: Mine, lane: int, fall: real, screenHeight: real): Mine {
    if Dispatches(m, lane, fall, screenHeight) then m.(isHit := true, y := m.y + fall)
    else m.(y := m.y + fall)
  }

  /** The mine list after every mine has moved, in the same order. */
  function MovedMines(ms: seq<Mine>, lane: int, fall: real, screenHeight: real): (r: seq<Mine>)
    ensures |r| == |ms|
    ensures forall i :: 0 <= i < |ms| ==> r[i] == MoveMine(ms[i], lane, fall, screenHeight)
    decreases |ms|
  {
    if ms == [] then []
    else MovedMines(ms[..|ms| - 1], lane, fall, screenHeight) + [MoveMine(ms[|ms| - 1], lane, fall, screenHeight)]
  }

  /** How many mines dispatch a correct hit this frame. */
  function CorrectHits(ms: seq<Mine>, lane: int, fall: real, screenHeight: real): nat
    decreases |ms|
  {
    if ms == [] then 0
    else
      var m := ms[|ms| - 1];
      CorrectHits(ms[..|ms| - 1], lane, fall, screenHeight)
        + (if Dispatches(m, lane, fall, screenHeight) && m.isCorrect then 1 else 0)
  }

  /** How many mines dispatch a wrong hit this frame. */
  function WrongHits(ms: seq<Mine>, lane: int, fall: real, screenHeight: real): nat
    decreases |ms|
  {
    if ms == [] then 0
    else
      var m := ms[|ms| - 1];
      WrongHits(ms[..|ms| - 1], lane, fall, screenHeight)
        + (if Dispatches(m, lane, fall, screenHeight) && !m.isCorrect then 1 else 0)
  }

  /** How many mines have not dispatched a hit yet. */
  function UnhitCount(ms: seq<Mine>): nat
    decreases |ms|
  {
    if ms == [] then 0 else UnhitCount(ms[..|ms| - 1]) + (if ms[|ms| - 1].isHit then 0 else 1)
  }

  /** A mine dispatches at most once: every dispatch this frame uses up one
      not-yet-hit mine, so the hits of all frames together never exceed the
      number of mines ever spawned unhit. */
  lemma {:induction false} DispatchUsesUnhit(ms: seq<Mine>, lane: int, fall: real, screenHeight: real)
    ensures UnhitCount(MovedMines(ms, lane, fall, screenHeight))
      + CorrectHits(ms, lane, fall, screenHeight) + WrongHits(ms, lane, fall, screenHeight)
      == UnhitCount(ms)
    decreases |ms|
  {
    if ms != [] {
      var n := |ms| - 1;
      var moved := MovedMines(ms, lane, fall, screenHeight);
      assert moved[..n] == MovedMines(ms[..n], lane, fall, screenHeight);
      DispatchUsesUnhit(ms[..n], lane, fall, screenHeight);
    }
  }

  /** A mine that has already dispatched never dispatches again, and a mine
      that dispatches comes out of the frame marked hit. */
  lemma HitIsFinal(m: Mine, lane: int, fall: real, screenHeight: real)
    ensures m.isHit ==> !Dispatches(m, lane, fall, screenHeight) && MoveMine(m, lane, fall, screenHeight).isHit
    ensures Dispatches(m, lane, fall, screenHeight) ==> MoveMine(m, lane, fall, screenHeight).isHit
    ensures MoveMine(m, lane, fall, screenHeight).isHit ==> m.isHit || MineCollides(m, lane, fall, screenHeight)
  {
  }

  /** `newMines.filter(mine => mine.y < window.innerHeight + 200)`. */
  function VisibleMines(ms: seq<Mine>, screenHeight: real): (r: seq<Mine>)
    ensures |r| <= |ms|
    ensures forall m :: m in r <==> m in ms && m.y < screenHeight + 200.0
    decreases |ms|
  {
    if ms == [] then []
    else
      var m := ms[|ms| - 1];
      VisibleMines(ms[..|ms| - 1], screenHeight) + (if m.y < screenHeight + 200.0 then [m] else [])
  }

  /** Pruning keeps every copy of a mine still on screen and no copy of a
      mine below it, so the survivors the top-up counts are exactly the
      moved mines still on screen. */
  lemma {:induction false} VisibleMinesCount(ms: seq<Mine>, screenHeight: real)
    ensures forall m ::
      multiset(VisibleMines(ms, screenHeight))[m] == if m.y < screenHeight + 200.0 then multiset(ms)[m] else 0
    decreases |ms|
  {
    if ms != [] {
      var n := |ms| - 1;
      VisibleMinesCount(ms[..n], screenHeight);
      assert ms == ms[..n] + [ms[n]];
      assert multiset(ms) == multiset(ms[..n]) + multiset{ms[n]};
    }
  }

  /** Pruning keeps the survivors in their order: pruning two lists one after
      the other gives the survivors of the first followed by those of the
      second. */
  lemma {:induction false} VisibleMinesAppend(ms: seq<Mine>, ns: seq<Mine>, screenHeight: real)
    ensures VisibleMines(ms + ns, screenHeight) == VisibleMines(ms, screenHeight) + VisibleMines(ns, screenHeight)
    decreases |ns|
  {
    if ns == [] {
      assert ms + ns == ms;
    } else {
      var n := |ns| - 1;
      assert ms + ns == (ms + ns[..n]) + [ns[n]];
      assert ns == ns[..n] + [ns[n]];
      VisibleMinesAppend(ms, ns[..n], screenHeight);
      VisibleMinesLast(ms + ns[..n], ns[n], screenHeight);
      VisibleMinesLast(ns[..n], ns[n], screenHeight);
    }
  }

  /** Pruning a list with one more mine at its end. */
  lemma VisibleMinesLast(ms: seq<Mine>, m: Mine, screenHeight: real)
    ensures VisibleMines(ms + [m], screenHeight) == VisibleMines(ms, screenHeight) + (if m.y < screenHeight + 200.0 then [m] else [])
  {
    assert (ms + [m])[..|ms|] == ms;
  }

  /** A topped-up mine for slot `i`: the option in that slot, or a random
      value from 1 to 50 when the option is 0 (`newOptions[i] || random`);
      correctness is decided on the option itself. */
  function NewMine(options: seq<int>, correctAnswer: int, i: int, d: MineDraw): Mine
    requires 0 <= i < |options| && IsUnit(d.filler) && IsUnit(d.lane) && IsUnit(d.height)
    ensures var m := NewMine(options, correctAnswer, i, d);
      && !m.isHit && 0 <= m.x <= 4 && -400.0 < m.y <= -100.0
      && (m.isCorrect <==> options[i] == correctAnswer)
      && (options[i] != 0 ==> m.value == options[i])
      && (options[i] == 0 ==> 1 <= m.value <= 50)
  {
    Mine(if options[i] != 0 then options[i] else Pick(d.filler, 50) + 1,
         Pick(d.lane, 5),
         DropHeight(d.height, 300.0),
         options[i] == correctAnswer,
         false)
  }

  /** When fewer than three mines are left and the game is not over, the
      list is filled up to five from the current options. */
  function TopUpMines(vis: seq<Mine>, over: bool, options: seq<int>, correctAnswer: int, draws: seq<MineDraw>): (r: seq<Mine>)
    requires |options| == 5 && |draws| >= 5 && MineDrawsValid(draws)
    ensures !(|vis| < 3 && !over) ==> r == vis
    ensures |vis| < 3 && !over ==>
      && |r| == 5 && r[..|vis|] == vis
      && forall i :: |vis| <= i < 5 ==>
        && !r[i].isHit && 0 <= r[i].x <= 4 && -400.0 < r[i].y <= -100.0
        && (r[i].isCorrect <==> options[i] == correctAnswer)
        && (options[i] != 0 ==> r[i].value == options[i])
        && (options[i] == 0 ==> 1 <= r[i].value <= 50)
  {
    if |vis| < 3 && !over then
      var r := vis + seq(5 - |vis|, j requires 0 <= j < 5 - |vis| => NewMine(options, correctAnswer, |vis| + j, draws[|vis| + j]));
      assert forall i :: |vis| <= i < 5 ==> r[i] == NewMine(options, correctAnswer, i, draws[i]);
      r
    else vis
  }

  /** The filler rule mislabels: a 0 option with a correct answer other than 0
      yields a mine tagged wrong even when its random value equals the answer
      (the options of a level-6 problem with quotient 6 hold a 0; the filler
      draw 0.1 gives value 6). */
  lemma FillerMineMislabelled()
    ensures var m := NewMine([0, 3, 6, 9, 12], 6, 0, MineDraw(0.1, 0.0, 0.0));
      m.value == 6 && !m.isCorrect
  {
  }

  // ---------------------------------------------------------------- coins

  /** The coin, after falling `fall` pixels, overlaps the tank in `lane`. */
  predicate CoinCollides(c: Coin, lane: int, fall: real, screenHeight: real) {
    CheckCollision(TankBox(lane, TankWidth), ObjectBox(c.x, c.y + fall, CoinSize, CoinSize), screenHeight)
  }

  /** Only an uncollected coin is tested, and collects when it collides. */
  predicate Collects(c: Coin, lane: int, fall: real, screenHeight: real) {
    !c.collected && CoinCollides(c, lane, fall, screenHeight)
  }

  function MoveCoin(c: Coin, lane: int, fall: real, screenHeight: real): Coin {
    if Collects(c, lane, fall, screenHeight) then c.(collected := true, y := c.y + fall)
    else c.(y := c.y + fall)
  }

  /** The coin list after every coin has moved, in the same order. */
  function MovedCoins(cs: seq<Coin>, lane: int, fall: real, screenHeight: real): (r: seq<Coin>)
    ensures |r| == |cs|
    ensures forall i :: 0 <= i < |cs| ==> r[i] == MoveCoin(cs[i], lane, fall, screenHeight)
    decreases |cs|
  {
    if cs == [] then []
    else MovedCoins(cs[..|cs| - 1], lane, fall, screenHeight) + [MoveCoin(cs[|cs| - 1], lane, fall, screenHeight)]
  }

  /** How many coins are collected this frame (50 points each). */
  function CoinHits(cs: seq<Coin>, lane: int, fall: real, screenHeight: real): nat
    decreases |cs|
  {
    if cs == [] then 0
    else CoinHits(cs[..|cs| - 1], lane, fall, screenHeight) + (if Collects(cs[|cs| - 1], lane, fall, screenHeight) then 1 else 0)
  }

  /** `newCoins.filter(coin => !coin.collected && coin.y < window.innerHeight + 100)`. */
  function VisibleCoins(cs: seq<Coin>, screenHeight: real): (r: seq<Coin>)
    ensures |r| <= |cs|
    ensures forall c :: c in r <==> c in cs && !c.collected && c.y < screenHeight + 100.0
    decreases |cs|
  {
    if cs == [] then []
    else
      var c := cs[|cs| - 1];
      VisibleCoins(cs[..|cs| - 1], screenHeight) + (if !c.collected && c.y < screenHeight + 100.0 then [c] else [])
  }

  /** Pruning keeps every copy of an uncollected coin still on screen and no
      copy of any other coin. */
  lemma {:induction false} VisibleCoinsCount(cs: seq<Coin>, screenHeight: real)
    ensures forall c ::
      multiset(VisibleCoins(cs, screenHeight))[c] == if !c.collected && c.y < screenHeight + 100.0 then multiset(cs)[c] else 0
    decreases |cs|
  {
    if cs != [] {
      var n := |cs| - 1;
      VisibleCoinsCount(cs[..n], screenHeight);
      assert cs == cs[..n] + [cs[n]];
      assert multiset(cs) == multiset(cs[..n]) + multiset{cs[n]};
    }
  }

  /** Pruning keeps the surviving coins in their order. */
  lemma {:induction false} VisibleCoinsAppend(cs: seq<Coin>, ds: seq<Coin>, screenHeight: real)
    ensures VisibleCoins(cs + ds, screenHeight) == VisibleCoins(cs, screenHeight) + VisibleCoins(ds, screenHeight)
    decreases |ds|
  {
    if ds == [] {
      assert cs + ds == cs;
    } else {
      var n := |ds| - 1;
      assert cs + ds == (cs + ds[..n]) + [ds[n]];
      assert ds == ds[..n] + [ds[n]];
      VisibleCoinsAppend(cs, ds[..n], screenHeight);
      VisibleCoinsLast(cs + ds[..n], ds[n], screenHeight);
      VisibleCoinsLast(ds[..n], ds[n], screenHeight);
    }
  }

  /** Pruning a list with one more coin at its end. */
  lemma VisibleCoinsLast(cs: seq<Coin>, c: Coin, screenHeight: real)
    ensures VisibleCoins(cs + [c], screenHeight) == VisibleCoins(cs, screenHeight) + (if !c.collected && c.y < screenHeight + 100.0 then [c] else [])
  {
    assert (cs + [c])[..|cs|] == cs;
  }

  /** A coin scores at most once: a coin collected this frame leaves the list
      in the same frame, so it is never tested again. */
  lemma CollectedCoinLeaves(cs: seq<Coin>, lane: int, fall: real, screenHeight: real, i: int)
    requires 0 <= i < |cs| && Collects(cs[i], lane, fall, screenHeight)
    ensures MovedCoins(cs, lane, fall, screenHeight)[i].collected
    ensures forall c :: c in VisibleCoins(MovedCoins(cs, lane, fall, screenHeight), screenHeight) ==> !c.collected
  {
  }

  /** When fewer than five coins are left and the game is not over, the list
      is filled up to ten fresh coins; coin `i` gets the id `clock + i`. */
  function TopUpCoins(vis: seq<Coin>, over: bool, draws: seq<CoinDraw>, clock: int): (r: seq<Coin>)
    requires |draws| >= 10 && CoinDrawsValid(draws)
    ensures !(|vis| < 5 && !over) ==> r == vis
    ensures |vis| < 5 && !over ==>
      && |r| == 10 && r[..|vis|] == vis
      && forall i :: |vis| <= i < 10 ==>
        !r[i].collected && 0 <= r[i].x <= 4 && -400.0 < r[i].y <= -100.0 && r[i].id == clock + i
  {
    if |vis| < 5 && !over then
      var r := vis + seq(10 - |vis|, j requires 0 <= j < 10 - |vis| => SpawnCoin(clock + |vis| + j, draws[|vis| + j], 300.0));
      assert forall i :: |vis| <= i < 10 ==> r[i] == SpawnCoin(clock + i, draws[i], 300.0);
      r
    else vis
  }
}
