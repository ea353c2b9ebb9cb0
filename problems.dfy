/** The division-problem generator of `generateDivisionProblem`. */
module Problems {
  import opened Draws

  /** The divisors a problem may use. */
  const Divisors: seq<int> := [2, 3, 4, 5, 6, 7, 8, 9]

  /** The quotients offered at every level. */
  const BaseResults: seq<int> := [6, 8, 9, 12, 15, 16, 18, 20, 24, 25]

  /** The larger quotients added above level 3. */
  const ExtraResults: seq<int> := [30, 36, 40, 42, 45, 48, 50, 54]

  /** A generated problem. The source keeps only a display text naming the
      dividend and the divisor; the model keeps the two numbers instead. */
  datatype Problem = Problem(dividend: int, divisor: int, correctAnswer: int, options: seq<int>)

  /** The quotient table for a level. */
  function Results(level: int): (rs: seq<int>)
  {
    if level > 3 then BaseResults + ExtraResults else BaseResults
  }

  /** The quotient table holds the base results at every level and the extra
      results exactly above level 3. */
  lemma ResultsTable(level: int, q: int)
    ensures q in Results(level) <==> q in BaseResults || (level > 3 && q in ExtraResults)
  {
  }

  /** How far apart the options lie: grows by one every three levels, capped at 4. */
  function SpreadFactor(level: int): (k: int)
    ensures 1 <= k <= 4 || level < 0
    ensures k <= 4
    ensures level >= 9 ==> k == 4
    ensures 0 <= level < 9 ==> k == 1 + level / 3
  {
    if 1 + level / 3 < 4 then 1 + level / 3 else 4
  }

  /** The five options before shuffling: the quotient and two steps either side. */
  function BaseOptions(r: int, k: int): seq<int> {
    [r - 2 * k, r - k, r, r + k, r + 2 * k]
  }

  /** Each value occurs at most once in `s`. */
  predicate Distinct(s: seq<int>) {
    forall i, j :: 0 <= i < j < |s| ==> s[i] != s[j]
  }

  /** `a` is a rearrangement of `b`: every value occurs as often in both. */
  ghost predicate SameValues(a: seq<int>, b: seq<int>) {
    forall v :: multiset(a)[v] == multiset(b)[v]
  }

  /** What a problem generated at `level` looks like. */
  ghost predicate ProblemFor(level: int, p: Problem) {
    && p.divisor in Divisors
    && p.correctAnswer in Results(level)
    && p.dividend == p.correctAnswer * p.divisor
    && |p.options| == 5
    && SameValues(p.options, BaseOptions(p.correctAnswer, SpreadFactor(level)))
  }

  /** With a positive spread, the unshuffled options never repeat a value. */
  lemma BaseOptionsOnce(r: int, k: int)
    requires k >= 1
    ensures multiset(BaseOptions(r, k))[r] == 1
    ensures forall v :: multiset(BaseOptions(r, k))[v] <= 1
  {
    var b := BaseOptions(r, k);
    assert multiset(b) == multiset{r - 2 * k} + multiset{r - k} + multiset{r} + multiset{r + k} + multiset{r + 2 * k} by {
      assert b == [r - 2 * k] + [r - k] + [r] + [r + k] + [r + 2 * k];
    }
  }

  /** Two equal entries make a value occur at least twice. */
  lemma RepeatCounted(s: seq<int>, i: int, j: int)
    requires 0 <= i < j < |s| && s[i] == s[j]
    ensures multiset(s)[s[i]] >= 2
  {
    assert s == s[..i] + [s[i]] + s[i + 1..j] + [s[j]] + s[j + 1..];
  }

  /** A sequence whose values each occur at most once has distinct entries. */
  lemma OnceMeansDistinct(s: seq<int>)
    requires forall v :: multiset(s)[v] <= 1
    ensures Distinct(s)
  {
    forall i, j | 0 <= i < j < |s|
      ensures s[i] != s[j]
    {
      if s[i] == s[j] {
        RepeatCounted(s, i, j);
      }
    }
  }

  /** What every generated problem looks like, whatever level it was
      generated for: a divisor in 2..9 that goes into the dividend with the
      correct answer as quotient, and five options in which no value repeats
      and the correct answer occurs once. */
  ghost predicate WellFormed(p: Problem) {
    && 2 <= p.divisor <= 9
    && p.dividend == p.correctAnswer * p.divisor
    && |p.options| == 5
    && (forall v :: multiset(p.options)[v] <= 1)
    && multiset(p.options)[p.correctAnswer] == 1
  }

  /** A problem generated at a level of at least 0 is well formed. */
  lemma ProblemWellFormed(level: int, p: Problem)
    requires level >= 0 && ProblemFor(level, p)
    ensures WellFormed(p)
  {
    DivisorRange(p.divisor);
    BaseOptionsOnce(p.correctAnswer, SpreadFactor(level));
  }

  /** Every problem generated at a level of at least 0: the divisor divides the
      dividend with the correct answer as quotient, and the five options are
      pairwise distinct and hold the correct answer exactly once. */
  lemma ProblemFacts(level: int, p: Problem)
    requires level >= 0 && ProblemFor(level, p)
    ensures 2 <= p.divisor <= 9
    ensures p.dividend % p.divisor == 0 && p.dividend / p.divisor == p.correctAnswer
    ensures multiset(p.options)[p.correctAnswer] == 1
    ensures p.correctAnswer in p.options
    ensures Distinct(p.options)
  {
    ProblemWellFormed(level, p);
    OnceMeansDistinct(p.options);
    ExactQuotient(p.correctAnswer, p.divisor);
    assert p.correctAnswer in multiset(p.options);
  }

  /** Every table divisor lies in 2..9. */
  lemma DivisorRange(d: int)
    requires d in Divisors
    ensures 2 <= d <= 9
  {
  }

  /** A product divides back exactly by a positive factor. */
  lemma ExactQuotient(q: int, d: int)
    requires d > 0
    ensures (q * d) % d == 0 && (q * d) / d == q
  {
    var n := q * d;
    var t, r := n / d, n % d;
    assert n == d * t + r && 0 <= r < d;
    assert d * (q - t) == r;
    if q - t >= 1 {
      MultipleAtLeast(d, q - t);
    } else if q - t <= -1 {
      MultipleAtLeast(d, t - q);
    }
  }

  /** A positive multiple of `d` is at least `d`. */
  lemma MultipleAtLeast(d: int, x: int)
    requires d > 0 && x >= 1
    ensures d * x >= d
  {
    assert d * x == d * (x - 1) + d;
  }

  /** `s` with the entries at `i` and `j` exchanged. */
  function Exchanged(s: seq<int>, i: nat, j: nat): (t: seq<int>)
    requires i < |s| && j < |s|
    ensures |t| == |s| && multiset(t) == multiset(s)
  {
    s[i := s[j]][j := s[i]]
  }

  /** Every exchange of `swaps` stays inside an array of length `n`. */
  predicate ExchangesWithin(swaps: seq<(nat, nat)>, n: nat) {
    forall k :: 0 <= k < |swaps| ==> swaps[k].0 < n && swaps[k].1 < n
  }

  /** The exchanges applied in order. */
  function Shuffled(s: seq<int>, swaps: seq<(nat, nat)>): (t: seq<int>)
    requires ExchangesWithin(swaps, |s|)
    ensures |t| == |s|
    decreases |swaps|
  {
    if swaps == [] then s
    else
      var last := swaps[|swaps| - 1];
      var t := Shuffled(s, swaps[..|swaps| - 1]);
      Exchanged(t, last.0, last.1)
  }

  /** However the exchanges fall, the result is a permutation of the input. */
  lemma {:induction false} ShuffledPermutes(s: seq<int>, swaps: seq<(nat, nat)>)
    requires ExchangesWithin(swaps, |s|)
    ensures multiset(Shuffled(s, swaps)) == multiset(s)
    decreases |swaps|
  {
    if swaps != [] {
      ShuffledPermutes(s, swaps[..|swaps| - 1]);
    }
  }

  /** `options.sort(() => Math.random() - 0.5)`: the engine's sort reorders the
      array in place as the random comparator answers; the model receives the
      exchanges it ends up making. */
  method ShuffleOptions(a: array<int>, swaps: seq<(nat, nat)>)
    requires ExchangesWithin(swaps, a.Length)
    modifies a
    ensures a[..] == Shuffled(old(a[..]), swaps)
    ensures multiset(a[..]) == multiset(old(a[..]))
  {
    for k := 0 to |swaps|
      invariant a[..] == Shuffled(old(a[..]), swaps[..k])
    {
      assert swaps[..k + 1][..k] == swaps[..k];
      var (i, j) := swaps[k];
      a[i], a[j] := a[j], a[i];
    }
    assert swaps[..|swaps|] == swaps;
    ShuffledPermutes(old(a[..]), swaps);
  }

  /** `generateDivisionProblem(level)`: a quotient and a divisor drawn from the
      tables, their product as dividend, and the five spread options shuffled. */
  method GenerateDivisionProblem(level: int, resultDraw: real, divisorDraw: real, swaps: seq<(nat, nat)>)
    returns (p: Problem)
    requires IsUnit(resultDraw) && IsUnit(divisorDraw)
    requires ExchangesWithin(swaps, 5)
    ensures ProblemFor(level, p)
    ensures 2 <= p.divisor <= 9
    ensures level <= 3 ==> p.correctAnswer in BaseResults
    ensures level > 3 ==> p.correctAnswer in BaseResults || p.correctAnswer in ExtraResults
    ensures level >= 0 ==> Distinct(p.options) && multiset(p.options)[p.correctAnswer] == 1
  {
    var results := Results(level);
    var result := results[Pick(resultDraw, |results|)];
    var divisor := Divisors[Pick(divisorDraw, |Divisors|)];
    var dividend := result * divisor;
    var options := ShuffledOptions(result, SpreadFactor(level), swaps);
    p := Problem(dividend, divisor, result, options);
    GeneratedFacts(level, p);
  }

  /** The options array `baseOptions`, filled around `r` with step `k` and then
      shuffled in place. */
  method ShuffledOptions(r: int, k: int, swaps: seq<(nat, nat)>) returns (options: seq<int>)
    requires ExchangesWithin(swaps, 5)
    ensures |options| == 5
    ensures multiset(options) == multiset(BaseOptions(r, k))
  {
    var a := new int[5];
    a[0], a[1], a[2], a[3], a[4] := r - 2 * k, r - k, r, r + k, r + 2 * k;
    assert a[..] == BaseOptions(r, k);
    ShuffleOptions(a, swaps);
    options := a[..];
  }

  /** What the generator establishes once its draws are made. */
  lemma GeneratedFacts(level: int, p: Problem)
    requires ProblemFor(level, p)
    ensures 2 <= p.divisor <= 9
    ensures level <= 3 ==> p.correctAnswer in BaseResults
    ensures level > 3 ==> p.correctAnswer in BaseResults || p.correctAnswer in ExtraResults
    ensures level >= 0 ==> Distinct(p.options) && multiset(p.options)[p.correctAnswer] == 1
  {
    DivisorRange(p.divisor);
    ResultsTable(level, p.correctAnswer);
    if level >= 0 {
      ProblemFacts(level, p);
    }
  }
}
