/**
 * The set sequencer (lib/ordering.ts): a memo cache of transition scores keyed
 * by the two track ids, a seed chosen by mean score against a sample, a greedy
 * order with a one-step lookahead over a window of 20 tracks, and three
 * variants of it with different lookahead weights.
 *
 * The cache is explicit state: every operation that reads it takes it and
 * returns the updated map. The greedy order and the seed are stated as pure
 * reference functions; the loop methods that use the cache are proved to
 * compute exactly those, as long as the cache holds nothing but true scores
 * for the tracks at hand.
 */
module Ordering {
  import opened Wrappers
  import opened Camelot
  import opened Scoring
  import opened Collection

  /** A named ordering of tracks; `name` is the source's `label` (a keyword here). */
  datatype SetVariant = SetVariant(name: string, tracks: seq<Track>, transitions: seq<TransitionInsight>, totalScore: real)

  // ---------------------------------------------------------------------
  // The score cache
  // ---------------------------------------------------------------------

  type ScoreCache = map<string, TransitionInsight>

  /** `${from.id}|${to.id}`: the scoring parameters are not part of the key. */
  function CacheKey(from: Track, to: Track): string {
    from.id + "|" + to.id
  }

  /**
   * How the ordering scores a move from one track to another. The ordering is
   * stated for any scorer; the page instantiates it with `ScoreWith(params)`.
   */
  type Scorer = (Track, Track) -> TransitionInsight

  /**
   * `scoreTransition` on two tracks, as getCachedScore calls it. Only tracks
   * with a key are ever ordered; for a track without one (where the source
   * would fail on the missing key) this gives an all-zero insight.
   */
  function ScoreWith(params: ScoringParams): Scorer {
    (from: Track, to: Track) =>
      if from.camelot.Some? && to.camelot.Some? then
        ScoreTransition(from.id, to.id, from.camelot.value, to.camelot.value, TempoOf(from), TempoOf(to), params)
      else
        TransitionInsight(from.id, to.id, Other, 0.0, Direct, 0.0, 0.0, 0.0, "")
  }

  /** Every score the scorer gives lies in [0, 1]. */
  ghost predicate Bounded(score: Scorer) {
    forall a, b :: 0.0 <= score(a, b).totalScore <= 1.0
  }

  lemma ScoreWithBounded(params: ScoringParams)
    requires ValidParams(params)
    ensures Bounded(ScoreWith(params))
  {
    forall a: Track, b: Track ensures 0.0 <= ScoreWith(params)(a, b).totalScore <= 1.0 {
      if a.camelot.Some? && b.camelot.Some? {
        var r := ScoreTransition(a.id, b.id, a.camelot.value, b.camelot.value, TempoOf(a), TempoOf(b), params);
        assert ScoreWith(params)(a, b) == r;
      }
    }
  }

  datatype Cached = Cached(insight: TransitionInsight, cache: ScoreCache)

  /** `getCachedScore`: a stored entry on a hit; otherwise the score, stored under its key. */
  function GetCachedScore(cache: ScoreCache, from: Track, to: Track, score: Scorer): (r: Cached)
    ensures CacheKey(from, to) in r.cache && r.cache[CacheKey(from, to)] == r.insight
    ensures r.cache.Keys == cache.Keys + {CacheKey(from, to)}
    ensures forall k :: k in cache ==> r.cache[k] == cache[k]
    ensures CacheKey(from, to) !in cache ==> r.insight == score(from, to)
  {
    var key := CacheKey(from, to);
    if key in cache then Cached(cache[key], cache)
    else
      var insight := score(from, to);
      Cached(insight, cache[key := insight])
  }

  /** `clearScoreCache`. */
  function ClearScoreCache(): (r: ScoreCache)
    ensures |r| == 0
  {
    map[]
  }

  /** Among `u`, a track's id identifies it, and no id contains the separator '|'. */
  ghost predicate IdsIdentify(u: seq<Track>) {
    && (forall i :: 0 <= i < |u| ==> '|' !in u[i].id)
    && (forall i, j :: 0 <= i < |u| && 0 <= j < |u| && u[i].id == u[j].id ==> u[i] == u[j])
  }

  /** Every entry the cache holds for two tracks of `u` is their score. */
  ghost predicate CacheSound(cache: ScoreCache, u: seq<Track>, score: Scorer) {
    forall i, j {:trigger CacheKey(u[i], u[j])} :: 0 <= i < |u| && 0 <= j < |u| && CacheKey(u[i], u[j]) in cache ==>
      cache[CacheKey(u[i], u[j])] == score(u[i], u[j])
  }

  /** In `x + "|" + y` with no '|' in `x`, the first '|' is at `|x|`. */
  lemma FirstSeparator(x: string, y: string)
    requires '|' !in x
    ensures (x + "|" + y)[|x|] == '|'
    ensures forall j :: 0 <= j < |x| ==> (x + "|" + y)[j] != '|'
  {
    forall j | 0 <= j < |x| ensures (x + "|" + y)[j] != '|' {
      assert (x + "|" + y)[j] == x[j];
    }
  }

  /** With ids free of '|', the key determines both ids. */
  lemma CacheKeyInjective(x1: string, y1: string, x2: string, y2: string)
    requires '|' !in x1 && '|' !in x2
    requires x1 + "|" + y1 == x2 + "|" + y2
    ensures x1 == x2 && y1 == y2
  {
    var k := x1 + "|" + y1;
    FirstSeparator(x1, y1);
    FirstSeparator(x2, y2);
    assert |x1| == |x2|;
    assert x1 == k[..|x1|] && x2 == k[..|x2|];
    assert y1 == k[|x1| + 1..] && y2 == k[|x2| + 1..];
  }

  /** An empty cache holds nothing wrong. */
  lemma EmptyCacheSound(u: seq<Track>, score: Scorer)
    ensures CacheSound(ClearScoreCache(), u, score)
  {
  }

  /**
   * With a sound cache and ids that identify tracks, `getCachedScore` returns
   * the true score and leaves the cache sound: the memo is invisible.
   */
  lemma CachedScoreSound(cache: ScoreCache, u: seq<Track>, from: Track, to: Track, score: Scorer)
    requires IdsIdentify(u) && from in u && to in u
    requires CacheSound(cache, u, score)
    ensures GetCachedScore(cache, from, to, score).insight == score(from, to)
    ensures CacheSound(GetCachedScore(cache, from, to, score).cache, u, score)
  {
    var fi :| 0 <= fi < |u| && u[fi] == from;
    var ti :| 0 <= ti < |u| && u[ti] == to;
    var key := CacheKey(from, to);
    if key !in cache {
      var c := GetCachedScore(cache, from, to, score).cache;
      forall i, j | 0 <= i < |u| && 0 <= j < |u| && CacheKey(u[i], u[j]) in c
        ensures c[CacheKey(u[i], u[j])] == score(u[i], u[j])
      {
        if CacheKey(u[i], u[j]) == key {
          CacheKeyInjective(u[i].id, u[j].id, from.id, to.id);
          assert u[i] == u[fi] && u[j] == u[ti];
        }
      }
    }
  }

  /** A cache sound for a collection is sound for any part of it. */
  lemma CacheSoundPart(cache: ScoreCache, u: seq<Track>, v: seq<Track>, score: Scorer)
    requires CacheSound(cache, u, score)
    requires forall t :: t in v ==> t in u
    ensures CacheSound(cache, v, score)
  {
    forall i, j | 0 <= i < |v| && 0 <= j < |v| && CacheKey(v[i], v[j]) in cache
      ensures cache[CacheKey(v[i], v[j])] == score(v[i], v[j])
    {
      assert v[i] in v && v[j] in v;
      var a :| 0 <= a < |u| && u[a] == v[i];
      var b :| 0 <= b < |u| && u[b] == v[j];
    }
  }

  /**
   * The key leaves out the parameters: after they change, a stored entry is
   * returned as it was, which is why every change of parameters clears the cache.
   */
  lemma StaleEntryAfterParamsChange(t1: Track, t2: Track, p1: ScoringParams, p2: ScoringParams)
    requires ScoreWith(p1)(t1, t2) != ScoreWith(p2)(t1, t2)
    ensures var c := GetCachedScore(map[], t1, t2, ScoreWith(p1)).cache;
      GetCachedScore(c, t1, t2, ScoreWith(p2)).insight != ScoreWith(p2)(t1, t2)
  {
  }

  // ---------------------------------------------------------------------
  // Reference definitions
  // ---------------------------------------------------------------------

  /**
   * The earliest index of the greatest value: a scan with a strict `>` from
   * minus infinity, so a later tie never displaces the first.
   */
  function FirstMaxIndex(xs: seq<real>): (b: nat)
    requires xs != []
    ensures b < |xs|
  {
    if |xs| == 1 then 0
    else
      var b := FirstMaxIndex(xs[..|xs| - 1]);
      if xs[|xs| - 1] > xs[b] then |xs| - 1 else b
  }

  /** No value exceeds the one at FirstMaxIndex, and every earlier value is strictly smaller. */
  lemma {:induction false} FirstMaxIndexIsFirstMax(xs: seq<real>)
    requires xs != []
    ensures forall j :: 0 <= j < |xs| ==> xs[j] <= xs[FirstMaxIndex(xs)]
    ensures forall j :: 0 <= j < FirstMaxIndex(xs) ==> xs[j] < xs[FirstMaxIndex(xs)]
  {
    if |xs| > 1 {
      var p := xs[..|xs| - 1];
      FirstMaxIndexIsFirstMax(p);
      assert forall j :: 0 <= j < |p| ==> p[j] == xs[j];
    }
  }

  lemma FirstMaxIndexSnoc(xs: seq<real>, x: real)
    requires xs != []
    ensures FirstMaxIndex(xs + [x]) == if x > xs[FirstMaxIndex(xs)] then |xs| else FirstMaxIndex(xs)
  {
    assert (xs + [x])[..|xs|] == xs;
  }

  /** `remaining.splice(k, 1)`: the sequence without its element at `k`, order kept. */
  function Remove(s: seq<Track>, k: nat): (r: seq<Track>)
    requires k < |s|
    ensures |r| == |s| - 1
    ensures forall j :: 0 <= j < |r| ==> r[j] == if j < k then s[j] else s[j + 1]
  {
    s[..k] + s[k + 1..]
  }

  /** Removing one element takes exactly that element out of the multiset. */
  lemma RemoveCounts(s: seq<Track>, k: nat)
    requires k < |s|
    ensures multiset(Remove(s, k)) + multiset{s[k]} == multiset(s)
  {
    assert s == s[..k] + [s[k]] + s[k + 1..];
  }

  lemma RemoveKeepsMembers(s: seq<Track>, k: nat)
    requires k < |s|
    ensures forall t :: t in Remove(s, k) ==> t in s
  {
    forall t | t in Remove(s, k) ensures t in s {
      var j :| 0 <= j < |Remove(s, k)| && Remove(s, k)[j] == t;
      assert t == if j < k then s[j] else s[j + 1];
    }
  }

  const LookaheadWindow: nat := 20

  /** The best score from `rem[i]` to another of `rem[..n]`, and 0 if none is positive. */
  function Lookahead(rem: seq<Track>, i: nat, n: nat, score: Scorer): (f: real)
    requires i < |rem| && n <= |rem|
  {
    if n == 0 then 0.0
    else
      var m := Lookahead(rem, i, n - 1, score);
      if n - 1 == i then m
      else
        var s := score(rem[i], rem[n - 1]).totalScore;
        if s > m then s else m
  }

  /** The lookahead is the largest of 0 and the scores from `rem[i]` to the others among the first `n`. */
  lemma {:induction false} LookaheadIsBest(rem: seq<Track>, i: nat, n: nat, score: Scorer)
    requires i < |rem| && n <= |rem|
    ensures Lookahead(rem, i, n, score) >= 0.0
    ensures forall j :: 0 <= j < n && j != i ==> score(rem[i], rem[j]).totalScore <= Lookahead(rem, i, n, score)
    ensures Lookahead(rem, i, n, score) == 0.0
      || exists j :: 0 <= j < n && j != i && Lookahead(rem, i, n, score) == score(rem[i], rem[j]).totalScore
  {
    if n > 0 {
      LookaheadIsBest(rem, i, n - 1, score);
    }
  }

  /** The lookahead term: over the first 20 remaining tracks, 0 when only one track remains. */
  function Future(rem: seq<Track>, i: nat, score: Scorer): real
    requires i < |rem|
  {
    if |rem| > 1 then Lookahead(rem, i, if |rem| < LookaheadWindow then |rem| else LookaheadWindow, score) else 0.0
  }

  /** What choosing `rem[i]` next is worth: its score plus `alpha` times its lookahead. */
  function StepValue(curr: Track, rem: seq<Track>, i: nat, alpha: real, score: Scorer): real
    requires i < |rem|
  {
    score(curr, rem[i]).totalScore + alpha * Future(rem, i, score)
  }

  /** The values of choosing each of `rem[..n]` next. */
  function StepValuesUpTo(curr: Track, rem: seq<Track>, n: nat, alpha: real, score: Scorer): (r: seq<real>)
    requires n <= |rem|
    ensures |r| == n
  {
    if n == 0 then [] else StepValuesUpTo(curr, rem, n - 1, alpha, score) + [StepValue(curr, rem, n - 1, alpha, score)]
  }

  lemma {:induction false} StepValuesUpToValues(curr: Track, rem: seq<Track>, n: nat, alpha: real, score: Scorer)
    requires n <= |rem|
    ensures forall j :: 0 <= j < n ==> StepValuesUpTo(curr, rem, n, alpha, score)[j] == StepValue(curr, rem, j, alpha, score)
  {
    if n > 0 {
      StepValuesUpToValues(curr, rem, n - 1, alpha, score);
    }
  }

  /** The index greedyOrder picks next from `rem` after `curr`: the earliest of greatest value. */
  function NextIndex(curr: Track, rem: seq<Track>, alpha: real, score: Scorer): (b: nat)
    requires rem != []
    ensures b < |rem|
  {
    FirstMaxIndex(StepValuesUpTo(curr, rem, |rem|, alpha, score))
  }

  /** The greedy continuation after `curr` through all of `rem`. */
  function GreedyTail(curr: Track, rem: seq<Track>, alpha: real, score: Scorer): (r: seq<Track>)
    decreases |rem|
  {
    if rem == [] then []
    else
      var b := NextIndex(curr, rem, alpha, score);
      [rem[b]] + GreedyTail(rem[b], Remove(rem, b), alpha, score)
  }

  /** The scores of consecutive pairs. */
  function Transitions(s: seq<Track>, score: Scorer): (r: seq<TransitionInsight>)
    ensures |r| == if s == [] then 0 else |s| - 1
  {
    if |s| < 2 then [] else [score(s[0], s[1])] + Transitions(s[1..], score)
  }

  /** Transition `k` is the score from track `k` to track `k + 1`. */
  lemma {:induction false} TransitionsArePairScores(s: seq<Track>, score: Scorer)
    ensures forall k :: 0 <= k < |Transitions(s, score)| ==> Transitions(s, score)[k] == score(s[k], s[k + 1])
  {
    if |s| >= 2 {
      TransitionsArePairScores(s[1..], score);
    }
  }

  /** `transitions.reduce((sum, t) => sum + t.totalScore, 0)`. */
  function SumTotals(ts: seq<TransitionInsight>): real {
    if ts == [] then 0.0 else SumTotals(ts[..|ts| - 1]) + ts[|ts| - 1].totalScore
  }

  /** The sum divided by `max(length, 1)`. */
  function MeanTotal(ts: seq<TransitionInsight>): real {
    SumTotals(ts) / (if |ts| == 0 then 1.0 else |ts| as real)
  }

  /** greedyOrder's result, computed without a cache. */
  function GreedyOrderSpec(tracks: seq<Track>, startIdx: nat, alpha: real, score: Scorer): SetVariant
    requires startIdx < |tracks|
  {
    var first := tracks[startIdx];
    var ordered := [first] + GreedyTail(first, Remove(tracks, startIdx), alpha, score);
    var transitions := Transitions(ordered, score);
    SetVariant("", ordered, transitions, MeanTotal(transitions))
  }

  // ---------------------------------------------------------------------
  // Properties of the reference
  // ---------------------------------------------------------------------

  /** The greedy continuation uses every remaining track exactly once. */
  lemma {:induction false} GreedyTailPermutation(curr: Track, rem: seq<Track>, alpha: real, score: Scorer)
    ensures multiset(GreedyTail(curr, rem, alpha, score)) == multiset(rem)
    decreases |rem|
  {
    if rem != [] {
      var b := NextIndex(curr, rem, alpha, score);
      GreedyTailPermutation(rem[b], Remove(rem, b), alpha, score);
      RemoveCounts(rem, b);
    }
  }

  lemma {:induction false} SumTotalsBounds(ts: seq<TransitionInsight>)
    requires forall k :: 0 <= k < |ts| ==> 0.0 <= ts[k].totalScore <= 1.0
    ensures 0.0 <= SumTotals(ts) <= |ts| as real
  {
    if ts != [] {
      SumTotalsBounds(ts[..|ts| - 1]);
    }
  }

  /** The mean of scores in [0, 1] lies in [0, 1]; with no transitions it is 0. */
  lemma MeanTotalBounds(ts: seq<TransitionInsight>)
    requires forall k :: 0 <= k < |ts| ==> 0.0 <= ts[k].totalScore <= 1.0
    ensures 0.0 <= MeanTotal(ts) <= 1.0
    ensures ts == [] ==> MeanTotal(ts) == 0.0
  {
    SumTotalsBounds(ts);
    var n := if |ts| == 0 then 1.0 else |ts| as real;
    var q := SumTotals(ts) / n;
    assert q * n == SumTotals(ts);
    if q > 1.0 {
      MulNonNegative(q - 1.0, n);
      assert false;
    }
    if q < 0.0 {
      MulNonNegative(-q, n);
    }
  }

  /** greedyOrder orders every track exactly once and starts from the seed. */
  lemma GreedyOrderPermutation(tracks: seq<Track>, startIdx: nat, alpha: real, score: Scorer)
    requires startIdx < |tracks|
    ensures var v := GreedyOrderSpec(tracks, startIdx, alpha, score);
      && multiset(v.tracks) == multiset(tracks)
      && |v.tracks| == |tracks|
      && v.tracks[0] == tracks[startIdx]
  {
    var v := GreedyOrderSpec(tracks, startIdx, alpha, score);
    var rest := Remove(tracks, startIdx);
    GreedyTailPermutation(tracks[startIdx], rest, alpha, score);
    RemoveCounts(tracks, startIdx);
    assert multiset(v.tracks) == multiset{tracks[startIdx]} + multiset(rest);
    assert |v.tracks| == |multiset(v.tracks)|;
  }

  /**
   * greedyOrder records one transition per consecutive pair, each the pair's
   * score; the total lies in [0, 1] when every score does, and is 0 for a single track.
   */
  lemma GreedyOrderTransitions(tracks: seq<Track>, startIdx: nat, alpha: real, score: Scorer)
    requires startIdx < |tracks|
    ensures var v := GreedyOrderSpec(tracks, startIdx, alpha, score);
      && |v.transitions| == |tracks| - 1
      && (forall k :: 0 <= k < |v.transitions| ==> v.transitions[k] == score(v.tracks[k], v.tracks[k + 1]))
      && (Bounded(score) ==> 0.0 <= v.totalScore <= 1.0)
      && (|tracks| == 1 ==> v.totalScore == 0.0)
  {
    GreedyOrderPermutation(tracks, startIdx, alpha, score);
    var v := GreedyOrderSpec(tracks, startIdx, alpha, score);
    TransitionsArePairScores(v.tracks, score);
    if Bounded(score) {
      forall k | 0 <= k < |v.transitions| ensures 0.0 <= v.transitions[k].totalScore <= 1.0 {
        assert v.transitions[k] == score(v.tracks[k], v.tracks[k + 1]);
      }
      MeanTotalBounds(v.transitions);
    }
    if |tracks| == 1 {
      MeanTotalBounds(v.transitions);
    }
  }

  /** Each step takes the earliest remaining track of greatest value (score plus weighted lookahead). */
  lemma GreedyPicksFirstBest(curr: Track, rem: seq<Track>, alpha: real, score: Scorer)
    requires rem != []
    ensures var b := NextIndex(curr, rem, alpha, score);
      && GreedyTail(curr, rem, alpha, score)[0] == rem[b]
      && (forall j :: 0 <= j < |rem| ==> StepValue(curr, rem, j, alpha, score) <= StepValue(curr, rem, b, alpha, score))
      && (forall j :: 0 <= j < b ==> StepValue(curr, rem, j, alpha, score) < StepValue(curr, rem, b, alpha, score))
  {
    StepValuesUpToValues(curr, rem, |rem|, alpha, score);
    FirstMaxIndexIsFirstMax(StepValuesUpTo(curr, rem, |rem|, alpha, score));
  }

  // ---------------------------------------------------------------------
  // greedyOrder with the cache
  // ---------------------------------------------------------------------

  /** The inner lookahead loop of greedyOrder. */
  method LookaheadLoop(rem: seq<Track>, i: nat, score: Scorer, cache0: ScoreCache, ghost u: seq<Track>)
    returns (maxFuture: real, cache: ScoreCache)
    requires IdsIdentify(u) && CacheSound(cache0, u, score)
    requires (forall t :: t in rem ==> t in u)
    requires i < |rem| && |rem| > 1
    ensures maxFuture == Future(rem, i, score)
    ensures CacheSound(cache, u, score)
  {
    maxFuture := 0.0;
    cache := cache0;
    var sampleSize := if |rem| < LookaheadWindow then |rem| else LookaheadWindow;
    var j := 0;
    while j < sampleSize
      invariant 0 <= j <= sampleSize
      invariant maxFuture == Lookahead(rem, i, j, score)
      invariant CacheSound(cache, u, score)
    {
      if j != i {
        assert rem[i] in rem && rem[j] in rem;
        CachedScoreSound(cache, u, rem[i], rem[j], score);
        var fs := GetCachedScore(cache, rem[i], rem[j], score);
        cache := fs.cache;
        if fs.insight.totalScore > maxFuture {
          maxFuture := fs.insight.totalScore;
        }
      }
      j := j + 1;
    }
  }

  /** One candidate of the choice loop: its cached score plus `alpha` times its lookahead. */
  method CandidateValue(curr: Track, rem: seq<Track>, i: nat, alpha: real, score: Scorer, cache0: ScoreCache, ghost u: seq<Track>)
    returns (val: real, cache: ScoreCache)
    requires IdsIdentify(u) && CacheSound(cache0, u, score)
    requires curr in u && (forall t :: t in rem ==> t in u)
    requires i < |rem|
    ensures val == StepValue(curr, rem, i, alpha, score)
    ensures CacheSound(cache, u, score)
  {
    assert rem[i] in rem;
    CachedScoreSound(cache0, u, curr, rem[i], score);
    var s := GetCachedScore(cache0, curr, rem[i], score);
    cache := s.cache;
    var future := 0.0;
    if |rem| > 1 {
      future, cache := LookaheadLoop(rem, i, score, cache, u);
    }
    val := s.insight.totalScore + alpha * future;
  }

  /** The choice loop of greedyOrder: the earliest remaining index of greatest value. */
  method ChooseNext(curr: Track, rem: seq<Track>, alpha: real, score: Scorer, cache0: ScoreCache, ghost u: seq<Track>)
    returns (bestIdx: nat, cache: ScoreCache)
    requires IdsIdentify(u) && CacheSound(cache0, u, score)
    requires curr in u && (forall t :: t in rem ==> t in u)
    requires rem != []
    ensures bestIdx == NextIndex(curr, rem, alpha, score)
    ensures CacheSound(cache, u, score)
  {
    bestIdx := 0;
    var bestVal := 0.0;
    cache := cache0;
    ghost var values: seq<real> := [];
    var i := 0;
    while i < |rem|
      invariant 0 <= i <= |rem|
      invariant values == StepValuesUpTo(curr, rem, i, alpha, score)
      invariant i > 0 ==> bestIdx == FirstMaxIndex(values) && bestVal == values[bestIdx]
      invariant CacheSound(cache, u, score)
    {
      var val;
      val, cache := CandidateValue(curr, rem, i, alpha, score, cache, u);
      if i > 0 {
        FirstMaxIndexSnoc(values, val);
      }
      // bestVal starts at -Infinity, so the first candidate is always taken.
      if i == 0 || val > bestVal {
        bestVal := val;
        bestIdx := i;
      }
      values := values + [val];
      i := i + 1;
    }
  }

  lemma {:induction false} TransitionsAppend(s: seq<Track>, x: Track, score: Scorer)
    requires s != []
    ensures Transitions(s + [x], score) == Transitions(s, score) + [score(s[|s| - 1], x)]
  {
    if |s| == 1 {
      assert (s + [x])[1..] == [x];
    } else {
      TransitionsAppend(s[1..], x, score);
      assert (s + [x])[1..] == s[1..] + [x];
    }
  }

  lemma AppendAssoc<T>(a: seq<T>, x: T, b: seq<T>)
    ensures (a + [x]) + b == a + ([x] + b)
  {
  }

  /** One pass of greedyOrder's outer loop: choose the next track, move it over, and record its transition. */
  method AppendNext(ordered: seq<Track>, remaining: seq<Track>, transitions: seq<TransitionInsight>, alpha: real,
                    score: Scorer, cache0: ScoreCache, ghost u: seq<Track>)
    returns (ordered': seq<Track>, remaining': seq<Track>, transitions': seq<TransitionInsight>, cache: ScoreCache)
    requires IdsIdentify(u) && CacheSound(cache0, u, score)
    requires ordered != [] && remaining != []
    requires (forall t :: t in ordered ==> t in u) && (forall t :: t in remaining ==> t in u)
    requires transitions == Transitions(ordered, score)
    ensures ordered' != [] && |remaining'| == |remaining| - 1
    ensures (forall t :: t in ordered' ==> t in u) && (forall t :: t in remaining' ==> t in u)
    ensures ordered' + GreedyTail(ordered'[|ordered'| - 1], remaining', alpha, score)
      == ordered + GreedyTail(ordered[|ordered| - 1], remaining, alpha, score)
    ensures transitions' == Transitions(ordered', score)
    ensures CacheSound(cache, u, score)
  {
    var curr := ordered[|ordered| - 1];
    assert curr in ordered;
    var bestIdx;
    bestIdx, cache := ChooseNext(curr, remaining, alpha, score, cache0, u);
    var next := remaining[bestIdx];
    assert next in remaining;
    ghost var rest := GreedyTail(next, Remove(remaining, bestIdx), alpha, score);
    assert GreedyTail(curr, remaining, alpha, score) == [next] + rest;
    RemoveKeepsMembers(remaining, bestIdx);
    remaining' := Remove(remaining, bestIdx);
    CachedScoreSound(cache, u, curr, next, score);
    var t := GetCachedScore(cache, curr, next, score);
    cache := t.cache;
    transitions' := transitions + [t.insight];
    TransitionsAppend(ordered, next, score);
    ordered' := ordered + [next];
    AppendAssoc(ordered, next, rest);
  }

  /** `greedyOrder(tracks, startIdx, alpha, params)`, threading the score cache. */
  method GreedyOrder(tracks: seq<Track>, startIdx: nat, alpha: real, score: Scorer, cache0: ScoreCache, ghost u: seq<Track>)
    returns (v: SetVariant, cache: ScoreCache)
    requires IdsIdentify(u) && CacheSound(cache0, u, score)
    requires (forall t :: t in tracks ==> t in u)
    requires startIdx < |tracks|
    ensures v == GreedyOrderSpec(tracks, startIdx, alpha, score)
    ensures CacheSound(cache, u, score)
  {
    ghost var full := GreedyOrderSpec(tracks, startIdx, alpha, score).tracks;
    var remaining := Remove(tracks, startIdx);
    RemoveKeepsMembers(tracks, startIdx);
    var ordered := [tracks[startIdx]];
    var transitions: seq<TransitionInsight> := [];
    cache := cache0;
    while |remaining| > 0
      invariant ordered != []
      invariant forall t :: t in ordered ==> t in u
      invariant forall t :: t in remaining ==> t in u
      invariant ordered + GreedyTail(ordered[|ordered| - 1], remaining, alpha, score) == full
      invariant transitions == Transitions(ordered, score)
      invariant CacheSound(cache, u, score)
      decreases |remaining|
    {
      ordered, remaining, transitions, cache := AppendNext(ordered, remaining, transitions, alpha, score, cache, u);
    }
    assert ordered == full;
    v := SetVariant("", ordered, transitions, MeanTotal(transitions));
  }

  // ---------------------------------------------------------------------
  // findBestSeedIndex
  // ---------------------------------------------------------------------

  const SeedSampleLimit: nat := 50

  /** `tracks.slice(0, sample).filter((_, j) => j !== i)`. */
  function SeedSample(tracks: seq<Track>, i: nat): seq<Track> {
    var n := if |tracks| < SeedSampleLimit then |tracks| else SeedSampleLimit;
    var sample := tracks[..n];
    if i < n then sample[..i] + sample[i + 1..] else sample
  }

  /** The sample is the first 50 tracks without the candidate itself. */
  lemma SeedSampleShape(tracks: seq<Track>, i: nat)
    ensures var n := if |tracks| < SeedSampleLimit then |tracks| else SeedSampleLimit;
      |SeedSample(tracks, i)| == if i < n then n - 1 else n
    ensures forall t :: t in SeedSample(tracks, i) ==> t in tracks
  {
  }

  /** The scores from `from` to each of `ts`, added left to right. */
  function SumScores(from: Track, ts: seq<Track>, score: Scorer): real
  {
    if ts == [] then 0.0 else SumScores(from, ts[..|ts| - 1], score) + score(from, ts[|ts| - 1]).totalScore
  }

  /** The mean score from `tracks[i]` to the sample; more than three tracks leave a sample of at least three. */
  function SeedMean(tracks: seq<Track>, i: nat, score: Scorer): real
    requires |tracks| > 3 && i < |tracks|
  {
    var sample := SeedSample(tracks, i);
    SeedSampleShape(tracks, i);
    SumScores(tracks[i], sample, score) / (|sample| as real)
  }

  /** The mean scores of `tracks[..n]` against their samples. */
  function SeedMeansUpTo(tracks: seq<Track>, n: nat, score: Scorer): (r: seq<real>)
    requires 3 < |tracks| && n <= |tracks|
    ensures |r| == n
  {
    if n == 0 then [] else SeedMeansUpTo(tracks, n - 1, score) + [SeedMean(tracks, n - 1, score)]
  }

  lemma {:induction false} SeedMeansUpToValues(tracks: seq<Track>, n: nat, score: Scorer)
    requires 3 < |tracks| && n <= |tracks|
    ensures forall j :: 0 <= j < n ==> SeedMeansUpTo(tracks, n, score)[j] == SeedMean(tracks, j, score)
  {
    if n > 0 {
      SeedMeansUpToValues(tracks, n - 1, score);
      var prev, last := SeedMeansUpTo(tracks, n - 1, score), SeedMean(tracks, n - 1, score);
      assert SeedMeansUpTo(tracks, n, score) == prev + [last];
      forall j | 0 <= j < n ensures (prev + [last])[j] == SeedMean(tracks, j, score) {
        if j < n - 1 {
          assert (prev + [last])[j] == prev[j];
        }
      }
    }
  }

  /** findBestSeedIndex's result without a cache: 0 for up to three tracks, else the earliest best mean. */
  function SeedIndex(tracks: seq<Track>, score: Scorer): (r: nat)
    ensures |tracks| > 0 ==> r < |tracks|
  {
    if |tracks| <= 3 then 0 else FirstMaxIndex(SeedMeansUpTo(tracks, |tracks|, score))
  }

  /** The inner loop of findBestSeedIndex: the mean cached score from `tracks[i]` to its sample. */
  method SeedAverage(tracks: seq<Track>, i: nat, score: Scorer, cache0: ScoreCache, ghost u: seq<Track>)
    returns (avg: real, cache: ScoreCache)
    requires IdsIdentify(u) && CacheSound(cache0, u, score)
    requires (forall t :: t in tracks ==> t in u)
    requires |tracks| > 3 && i < |tracks|
    ensures avg == SeedMean(tracks, i, score)
    ensures CacheSound(cache, u, score)
  {
    cache := cache0;
    var sampleTracks := SeedSample(tracks, i);
    SeedSampleShape(tracks, i);
    avg := 0.0;
    var k := 0;
    while k < |sampleTracks|
      invariant 0 <= k <= |sampleTracks|
      invariant avg == SumScores(tracks[i], sampleTracks[..k], score)
      invariant CacheSound(cache, u, score)
    {
      assert tracks[i] in tracks && sampleTracks[k] in sampleTracks;
      CachedScoreSound(cache, u, tracks[i], sampleTracks[k], score);
      var s := GetCachedScore(cache, tracks[i], sampleTracks[k], score);
      cache := s.cache;
      assert sampleTracks[..k + 1][..k] == sampleTracks[..k];
      avg := avg + s.insight.totalScore;
      k := k + 1;
    }
    assert sampleTracks[..k] == sampleTracks;
    avg := avg / (|sampleTracks| as real);
  }

  /** With more than three tracks the seed has the greatest mean score against its sample, and no earlier track ties it. */
  lemma SeedIndexPicksFirstBest(tracks: seq<Track>, score: Scorer)
    requires |tracks| > 3
    ensures var r := SeedIndex(tracks, score);
      && r < |tracks|
      && (forall j :: 0 <= j < |tracks| ==> SeedMean(tracks, j, score) <= SeedMean(tracks, r, score))
      && (forall j :: 0 <= j < r ==> SeedMean(tracks, j, score) < SeedMean(tracks, r, score))
  {
    SeedMeansUpToValues(tracks, |tracks|, score);
    FirstMaxIndexIsFirstMax(SeedMeansUpTo(tracks, |tracks|, score));
  }

  /** One more candidate's mean extends the list of means by that mean. */
  lemma SeedMeansSnoc(tracks: seq<Track>, i: nat, score: Scorer)
    requires 3 < |tracks| && i < |tracks|
    ensures SeedMeansUpTo(tracks, i + 1, score) == SeedMeansUpTo(tracks, i, score) + [SeedMean(tracks, i, score)]
  {
  }

  /** The running best of findBestSeedIndex after one more mean: the first strictly greater mean wins. */
  lemma BestAfterMean(means: seq<real>, avg: real, bestIdx: nat, bestScore: real)
    requires means != [] ==> bestIdx == FirstMaxIndex(means) && bestScore == means[bestIdx]
    ensures var take := means == [] || avg > bestScore;
            && (if take then |means| else bestIdx) == FirstMaxIndex(means + [avg])
            && (if take then avg else bestScore) == (means + [avg])[if take then |means| else bestIdx]
  {
    if means != [] {
      FirstMaxIndexSnoc(means, avg);
    }
  }

  /** `findBestSeedIndex`, threading the score cache. */
  method FindBestSeedIndex(tracks: seq<Track>, score: Scorer, cache0: ScoreCache, ghost u: seq<Track>)
    returns (bestIdx: nat, cache: ScoreCache)
    requires IdsIdentify(u) && CacheSound(cache0, u, score)
    requires (forall t :: t in tracks ==> t in u)
    ensures bestIdx == SeedIndex(tracks, score)
    ensures CacheSound(cache, u, score)
  {
    cache := cache0;
    if |tracks| <= 3 {
      return 0, cache;
    }
    var bestScore := 0.0;
    bestIdx := 0;
    ghost var means: seq<real> := [];
    var i := 0;
    while i < |tracks|
      invariant 0 <= i <= |tracks|
      invariant means == SeedMeansUpTo(tracks, i, score)
      invariant i > 0 ==> bestIdx == FirstMaxIndex(means) && bestScore == means[bestIdx]
      invariant CacheSound(cache, u, score)
    {
      var avg;
      avg, cache := SeedAverage(tracks, i, score, cache, u);
      SeedMeansSnoc(tracks, i, score);
      ghost var means' := means + [avg];
      assert means' == SeedMeansUpTo(tracks, i + 1, score);
      BestAfterMean(means, avg, bestIdx, bestScore);
      // bestScore starts at -Infinity, so the first track is always taken.
      if i == 0 || avg > bestScore {
        bestScore := avg;
        bestIdx := i;
      }
      means := means';
      i := i + 1;
    }
  }

  // ---------------------------------------------------------------------
  // generateSetVariants
  // ---------------------------------------------------------------------

  const Alphas: seq<real> := [0.25, 0.35, 0.45]
  const Labels: seq<string> := ["Conservative Flow", "Balanced Flow", "Adventurous Flow"]

  /** The `k`-th configuration's variant: the greedy order from `seed` with lookahead weight `Alphas[k]`. */
  function Variant(complete: seq<Track>, seed: nat, k: nat, score: Scorer): SetVariant
    requires seed < |complete| && k < 3
  {
    GreedyOrderSpec(complete, seed, Alphas[k], score).(name := Labels[k])
  }

  /** The variants generateSetVariants returns for a scorer, computed without a cache. */
  function VariantsWith(tracks: seq<Track>, score: Scorer): seq<SetVariant>
  {
    var complete := CompleteTracks(tracks);
    if |complete| < 2 then []
    else
      var seed := SeedIndex(complete, score);
      [Variant(complete, seed, 0, score), Variant(complete, seed, 1, score), Variant(complete, seed, 2, score)]
  }

  /** No variants below two complete tracks; otherwise one per configuration, labelled in order. */
  lemma VariantsCount(tracks: seq<Track>, score: Scorer)
    ensures |CompleteTracks(tracks)| < 2 <==> VariantsWith(tracks, score) == []
    ensures |CompleteTracks(tracks)| >= 2 ==> |VariantsWith(tracks, score)| == 3
  {
  }

  /** One configuration's variant: its label, all complete tracks once each, the seed first, a bounded total. */
  lemma VariantShape(complete: seq<Track>, seed: nat, k: nat, score: Scorer)
    requires seed < |complete| && k < 3
    requires forall t :: t in complete ==> t.isComplete
    ensures var v := Variant(complete, seed, k, score);
      && v.name == Labels[k]
      && |v.tracks| == |complete|
      && multiset(v.tracks) == multiset(complete)
      && v.tracks[0] == complete[seed]
      && (forall t :: t in v.tracks ==> t.isComplete)
      && (Bounded(score) ==> 0.0 <= v.totalScore <= 1.0)
  {
    var v := Variant(complete, seed, k, score);
    GreedyOrderPermutation(complete, seed, Alphas[k], score);
    GreedyOrderTransitions(complete, seed, Alphas[k], score);
    forall t | t in v.tracks ensures t.isComplete {
      assert t in multiset(v.tracks);
      assert t in multiset(complete);
    }
  }

  /** generateSetVariants for any scorer, threading the score cache. */
  method GenerateVariantsWith(tracks: seq<Track>, score: Scorer, cache0: ScoreCache)
    returns (variants: seq<SetVariant>, cache: ScoreCache)
    requires IdsIdentify(tracks) && CacheSound(cache0, tracks, score)
    ensures variants == VariantsWith(tracks, score)
    ensures CacheSound(cache, tracks, score)
  {
    cache := cache0;
    var complete := CompleteTracks(tracks);
    if |complete| < 2 {
      return [], cache;
    }
    var seed;
    seed, cache := FindBestSeedIndex(complete, score, cache, tracks);
    // One greedy order per configuration, in the order of `Alphas` and `Labels`.
    var v0, v1, v2;
    v0, cache := GreedyOrder(complete, seed, Alphas[0], score, cache, tracks);
    v1, cache := GreedyOrder(complete, seed, Alphas[1], score, cache, tracks);
    v2, cache := GreedyOrder(complete, seed, Alphas[2], score, cache, tracks);
    variants := [v0.(name := Labels[0]), v1.(name := Labels[1]), v2.(name := Labels[2])];
  }

  /** `generateSetVariants(tracks, params)`: the three variants, scored by `scoreTransition` under `params`. */
  method GenerateSetVariants(tracks: seq<Track>, params: ScoringParams, cache0: ScoreCache)
    returns (variants: seq<SetVariant>, cache: ScoreCache)
    requires IdsIdentify(tracks) && CacheSound(cache0, tracks, ScoreWith(params))
    ensures variants == VariantsWith(tracks, ScoreWith(params))
    ensures CacheSound(cache, tracks, ScoreWith(params))
  {
    variants, cache := GenerateVariantsWith(tracks, ScoreWith(params), cache0);
  }
}
