/**
 * The best-matches panel's pure core (components/BestMatches.tsx): the ten
 * best transitions from a selected track to the other complete tracks, and
 * the module-level memo that keeps them.
 *
 * The memo is explicit state here. It is keyed by the selected track's id and
 * the scoring parameters only, so a later call with a different track list
 * still returns what the first call stored; nothing ever empties it.
 */
module BestMatches {
  import opened Wrappers
  import opened Scoring
  import opened Collection
  import opened StableSort
  import opened Ordering

  /** `scored.slice(0, 10)`. */
  const MaxMatches: nat := 10

  /** `allTracks.filter(t => t.id !== track.id && t.isComplete)`. */
  function Others(track: Track, allTracks: seq<Track>): (r: seq<Track>)
    ensures |r| <= |allTracks|
    ensures forall t :: t in r <==> t in allTracks && t.id != track.id && t.isComplete
  {
    if allTracks == [] then []
    else
      var t := allTracks[0];
      (if t.id != track.id && t.isComplete then [t] else []) + Others(track, allTracks[1..])
  }

  /** `others.map(t => scoreTransition(track.id, t.id, ...))` for a scorer, in the order of `others`. */
  function ScoreAll(track: Track, others: seq<Track>, score: Scorer): (r: seq<TransitionInsight>)
    ensures |r| == |others|
    ensures forall k :: 0 <= k < |r| ==> r[k] == score(track, others[k])
  {
    if others == [] then []
    else [score(track, others[0])] + ScoreAll(track, others[1..], score)
  }

  /** The sort key of `(a, b) => b.totalScore - a.totalScore`: descending total. */
  function Descending(i: TransitionInsight): real {
    -i.totalScore
  }

  /** `s.slice(0, n)`. */
  function Take<T>(s: seq<T>, n: nat): (r: seq<T>)
    ensures |r| == if |s| <= n then |s| else n
    ensures r == s[..|r|]
  {
    if |s| <= n then s else s[..n]
  }

  /** The scores of the other complete tracks, before sorting. */
  function Scored(track: Track, allTracks: seq<Track>, params: ScoringParams): seq<TransitionInsight> {
    ScoreAll(track, Others(track, allTracks), ScoreWith(params))
  }

  /** The scores, best first, ties in input order. */
  function Ranked(track: Track, allTracks: seq<Track>, params: ScoringParams): seq<TransitionInsight> {
    SortBy(Scored(track, allTracks, params), Descending)
  }

  /** What `getMatches` computes on a miss: the first ten of the ranked scores. */
  function TopMatches(track: Track, allTracks: seq<Track>, params: ScoringParams): seq<TransitionInsight> {
    Take(Ranked(track, allTracks, params), MaxMatches)
  }

  /** There are ten matches, or all of them when fewer tracks qualify. */
  lemma TopMatchesLength(track: Track, allTracks: seq<Track>, params: ScoringParams)
    ensures var n := |Others(track, allTracks)|;
      |TopMatches(track, allTracks, params)| == if n < MaxMatches then n else MaxMatches
  {
  }

  /** Each match is the transition score from the selected track to another complete track. */
  lemma TopMatchesAreOthers(track: Track, allTracks: seq<Track>, params: ScoringParams)
    ensures var r := TopMatches(track, allTracks, params);
      forall i :: 0 <= i < |r| ==>
        exists t :: t in allTracks && t.isComplete && t.id != track.id && r[i] == ScoreWith(params)(track, t)
  {
    var others := Others(track, allTracks);
    var scored := Scored(track, allTracks, params);
    var ranked := Ranked(track, allTracks, params);
    var r := TopMatches(track, allTracks, params);
    forall i | 0 <= i < |r|
      ensures exists t :: t in allTracks && t.isComplete && t.id != track.id && r[i] == ScoreWith(params)(track, t)
    {
      assert r[i] == ranked[i];
      assert ranked[i] in multiset(ranked);
      assert ranked[i] in multiset(scored);
      var k :| 0 <= k < |scored| && scored[k] == ranked[i];
      assert others[k] in others;
    }
  }

  /** The matches come best first. */
  lemma TopMatchesDescending(track: Track, allTracks: seq<Track>, params: ScoringParams)
    ensures var r := TopMatches(track, allTracks, params);
      forall i, j :: 0 <= i < j < |r| ==> r[i].totalScore >= r[j].totalScore
  {
    var ranked := Ranked(track, allTracks, params);
    SortByIsSorted(Scored(track, allTracks, params), Descending);
    var r := TopMatches(track, allTracks, params);
    forall i, j | 0 <= i < j < |r| ensures r[i].totalScore >= r[j].totalScore {
      assert Descending(ranked[i]) <= Descending(ranked[j]);
    }
  }

  /** `a` is an initial segment of `b`. */
  ghost predicate IsPrefix<T>(a: seq<T>, b: seq<T>) {
    |a| <= |b| && a == b[..|a|]
  }

  /** `WithKey` of a prefix is a prefix of `WithKey` of the whole. */
  lemma WithKeyOfPrefix<T>(s: seq<T>, n: nat, key: T -> real, k: real)
    requires n <= |s|
    ensures IsPrefix(WithKey(s[..n], key, k), WithKey(s, key, k))
  {
    WithKeyConcat(s[..n], s[n..], key, k);
    assert s[..n] + s[n..] == s;
  }

  /**
   * Equal totals keep their input order: for every sort key (minus a total),
   * the matches with it are the first ones of the scores with it, in the
   * order of the track list.
   */
  lemma TopMatchesStable(track: Track, allTracks: seq<Track>, params: ScoringParams)
    ensures forall k :: IsPrefix(WithKey(TopMatches(track, allTracks, params), Descending, k),
                                 WithKey(Scored(track, allTracks, params), Descending, k))
  {
    var scored := Scored(track, allTracks, params);
    var top := TopMatches(track, allTracks, params);
    forall k ensures IsPrefix(WithKey(top, Descending, k), WithKey(scored, Descending, k)) {
      TakeSortedStable(scored, Descending, MaxMatches, k, top);
    }
  }

  /** The first `n` of a stable sort hold, for each key, a prefix of the input's elements with that key. */
  lemma TakeSortedStable<T>(s: seq<T>, key: T -> real, n: nat, k: real, top: seq<T>)
    requires top == Take(SortBy(s, key), n)
    ensures IsPrefix(WithKey(top, key, k), WithKey(s, key, k))
  {
    var sorted := SortBy(s, key);
    SortByIsStable(s, key, k);
    WithKeyOfPrefix(sorted, |Take(sorted, n)|, key, k);
  }

  /**
   * Top ten: the scores left out are exactly the rest of the ranked list (as a
   * multiset), and none of them beats the last match.
   */
  lemma TopMatchesLeaveOutWorse(track: Track, allTracks: seq<Track>, params: ScoringParams)
    ensures var r := TopMatches(track, allTracks, params);
      var rest := Ranked(track, allTracks, params)[|r|..];
      && multiset(Scored(track, allTracks, params)) == multiset(r) + multiset(rest)
      && (rest != [] ==> r != [] && forall x :: x in rest ==> x.totalScore <= r[|r| - 1].totalScore)
  {
    var scored := Scored(track, allTracks, params);
    var ranked := Ranked(track, allTracks, params);
    TakeLeavesWorse(scored, Descending, MaxMatches, ranked, TopMatches(track, allTracks, params));
  }

  /** What the first `n` of a sort leave out is the rest of the sorted list, none of it before the last kept. */
  lemma TakeLeavesWorse<T>(s: seq<T>, key: T -> real, n: nat, sorted: seq<T>, top: seq<T>)
    requires n > 0 && sorted == SortBy(s, key) && top == Take(sorted, n)
    ensures var rest := sorted[|top|..];
      && multiset(s) == multiset(top) + multiset(rest)
      && (rest != [] ==> top != [] && forall x :: x in rest ==> key(top[|top| - 1]) <= key(x))
  {
    SortByIsSorted(s, key);
    SplitMultiset(sorted, |top|);
    if |top| < |sorted| {
      SortedRestAfter(sorted, key, |top|);
    }
  }

  lemma SplitMultiset<T>(s: seq<T>, m: nat)
    requires m <= |s|
    ensures multiset(s) == multiset(s[..m]) + multiset(s[m..])
  {
    assert s == s[..m] + s[m..];
  }

  /** In a sorted list no element after position `m` comes before the one at `m - 1`. */
  lemma SortedRestAfter<T>(sorted: seq<T>, key: T -> real, m: nat)
    requires SortedBy(sorted, key) && 0 < m <= |sorted|
    ensures forall x :: x in sorted[m..] ==> key(sorted[m - 1]) <= key(x)
  {
    forall x | x in sorted[m..] ensures key(sorted[m - 1]) <= key(x) {
      var j :| 0 <= j < |sorted[m..]| && sorted[m..][j] == x;
      assert sorted[m + j] == x;
    }
  }

  /** Per track: a complete track whose score did not make the list scores no more than the last match. */
  lemma TopMatchesTrackLeftOut(track: Track, allTracks: seq<Track>, params: ScoringParams, t: Track)
    requires t in allTracks && t.isComplete && t.id != track.id
    requires ScoreWith(params)(track, t) !in TopMatches(track, allTracks, params)
    ensures var r := TopMatches(track, allTracks, params);
      r != [] && ScoreWith(params)(track, t).totalScore <= r[|r| - 1].totalScore
  {
    var others := Others(track, allTracks);
    var scored := Scored(track, allTracks, params);
    var ranked := Ranked(track, allTracks, params);
    var r := TopMatches(track, allTracks, params);
    var rest := ranked[|r|..];
    var x := ScoreWith(params)(track, t);
    var k :| 0 <= k < |others| && others[k] == t;
    assert scored[k] == x;
    TopMatchesLeaveOutWorse(track, allTracks, params);
    assert x in multiset(scored);
    assert x in multiset(rest);
  }

  // ---------------------------------------------------------------------
  // matchCache
  // ---------------------------------------------------------------------

  /**
   * `${track.id}|${keyWeight}|${bpmTolerance}|${halfDoubleEnabled}|${strictness}`:
   * the selected track's id and the four parameters, and not the track list.
   */
  datatype MatchKey = MatchKey(trackId: string, params: ScoringParams)

  type MatchCache = map<MatchKey, seq<TransitionInsight>>

  datatype Matches = Matches(result: seq<TransitionInsight>, cache: MatchCache)

  /** `getMatches`: the stored list on a hit; otherwise the top matches, stored under the key. */
  function GetMatches(cache: MatchCache, track: Track, allTracks: seq<Track>, params: ScoringParams): (r: Matches)
    ensures var key := MatchKey(track.id, params);
      && key in r.cache && r.cache[key] == r.result
      && r.cache.Keys == cache.Keys + {key}
      && (forall k :: k in cache ==> r.cache[k] == cache[k])
      && (key !in cache ==> r.result == TopMatches(track, allTracks, params))
  {
    var key := MatchKey(track.id, params);
    if key in cache then Matches(cache[key], cache)
    else
      var top := TopMatches(track, allTracks, params);
      Matches(top, cache[key := top])
  }

  /**
   * A second call for the same track id and parameters returns the first
   * call's list and leaves the memo as it was, whatever the track list is
   * now: the memo is never invalidated.
   */
  lemma RepeatCallReturnsFirst(cache: MatchCache, track: Track, a1: seq<Track>, a2: seq<Track>, params: ScoringParams,
                               again: Track)
    requires again.id == track.id
    ensures var first := GetMatches(cache, track, a1, params);
      var second := GetMatches(first.cache, again, a2, params);
      second.result == first.result && second.cache == first.cache
  {
  }

  /**
   * A concrete stale answer: after matching against a list holding one other
   * complete track, matching the same track against an empty list still
   * returns that track's score, where the top matches of the empty list are
   * none.
   */
  lemma StaleMatchesExample(track: Track, other: Track, params: ScoringParams)
    requires other.isComplete && other.id != track.id
    ensures var first := GetMatches(map[], track, [other], params);
      var second := GetMatches(first.cache, track, [], params);
      TopMatches(track, [], params) == [] && |second.result| == 1
  {
    assert Others(track, [other]) == [other];
  }

  // ---------------------------------------------------------------------
  // A memo that follows the track list
  // ---------------------------------------------------------------------

  /** A memo key that also records the selected track and the list it was matched against. */
  datatype ListMatchKey = ListMatchKey(track: Track, allTracks: seq<Track>, params: ScoringParams)

  type ListMatchCache = map<ListMatchKey, seq<TransitionInsight>>

  datatype ListMatches = ListMatches(result: seq<TransitionInsight>, cache: ListMatchCache)

  /** Every stored list is the top matches for its key. */
  ghost predicate MemoSound(cache: ListMatchCache) {
    forall k :: k in cache ==> cache[k] == TopMatches(k.track, k.allTracks, k.params)
  }

  /**
   * `getMatches` with the track list in the key: with a sound memo the answer
   * is always the top matches of the current list, and the memo stays sound.
   */
  function GetListMatches(cache: ListMatchCache, track: Track, allTracks: seq<Track>, params: ScoringParams): (r: ListMatches)
    ensures MemoSound(cache) ==> r.result == TopMatches(track, allTracks, params) && MemoSound(r.cache)
    ensures ListMatchKey(track, allTracks, params) in r.cache
  {
    var key := ListMatchKey(track, allTracks, params);
    if key in cache then ListMatches(cache[key], cache)
    else
      var top := TopMatches(track, allTracks, params);
      ListMatches(top, cache[key := top])
  }

  /** Any sequence of requests against a memo that starts empty is answered with the current top matches. */
  lemma ListMatchesNeverStale(track: Track, a1: seq<Track>, a2: seq<Track>, params: ScoringParams)
    ensures var first := GetListMatches(map[], track, a1, params);
      && first.result == TopMatches(track, a1, params)
      && GetListMatches(first.cache, track, a2, params).result == TopMatches(track, a2, params)
  {
    var first := GetListMatches(map[], track, a1, params);
    assert MemoSound(first.cache);
  }

  /** With a fresh memo the list is the top matches; with a changed track list a stale list is returned. */
  lemma StaleMatchesAfterTracksChange(track: Track, a1: seq<Track>, a2: seq<Track>, params: ScoringParams)
    ensures var first := GetMatches(map[], track, a1, params);
      && first.result == TopMatches(track, a1, params)
      && GetMatches(first.cache, track, a2, params).result == TopMatches(track, a1, params)
  {
  }
}
