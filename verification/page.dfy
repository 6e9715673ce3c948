/**
 * The page's state machine (app/page.tsx): the stage, the loaded collection,
 * the working track list and its label, the scoring parameters, the active
 * tab, and the ordering module's score cache, which the page holds here as
 * explicit state.
 *
 * The cache is keyed by track ids only, so it is correct only if every
 * handler that changes the tracks or the parameters empties it. `Fresh`
 * states that every cached entry is the score under the current parameters;
 * every step the page offers keeps it, and so does generating a set.
 */
module Page {
  import opened Wrappers
  import opened Scoring
  import opened Collection
  import opened Ordering

  datatype Stage = Upload | SelectPlaylist | Analyze

  datatype Tab = TracksTab | MatchesTab | OrderTab | GroupsTab

  /** What the parser produces; `hasPlaylists` is derived from the forest, as the parser computes it. */
  datatype ParsedCollection = ParsedCollection(allTracks: seq<Track>, trackById: map<string, Track>, playlists: seq<PlaylistNode>)

  datatype PageState = PageState(
    stage: Stage,
    collection: Option<ParsedCollection>,
    tracks: seq<Track>,
    name: string,
    params: ScoringParams,
    tab: Tab,
    cache: ScoreCache)

  /** The label of the whole collection. */
  const FullCollection: string := "Full Collection"

  /** `collection?.hasPlaylists`: false when no collection is loaded. */
  predicate CollectionHasPlaylists(c: Option<ParsedCollection>) {
    c.Some? && HasPlaylists(c.value.playlists)
  }

  /** The first render: nothing loaded, the default parameters, an empty cache. */
  function Initial(): PageState {
    PageState(Upload, None, [], "", DefaultScoring, TracksTab, ClearScoreCache())
  }

  // ---------------------------------------------------------------------
  // Handlers
  // ---------------------------------------------------------------------

  /**
   * `handleXml`, with the parse result as a parameter (None when parsing
   * throws). A failure changes nothing; a success stores the collection,
   * empties the cache, and either asks for a playlist or analyses the whole
   * collection.
   */
  function HandleXml(s: PageState, parsed: Option<ParsedCollection>): (r: PageState)
    ensures parsed.None? ==> r == s
    ensures parsed.Some? ==>
      && r.collection == parsed && |r.cache| == 0 && r.params == s.params
      && (r.stage == SelectPlaylist <==> HasPlaylists(parsed.value.playlists))
      && (HasPlaylists(parsed.value.playlists) ==> r.tracks == s.tracks && r.name == s.name && r.tab == s.tab)
      && (!HasPlaylists(parsed.value.playlists) ==>
            r.stage == Analyze && r.tracks == parsed.value.allTracks && r.name == FullCollection && r.tab == TracksTab)
  {
    if parsed.None? then s
    else
      var loaded := s.(collection := parsed, cache := ClearScoreCache());
      if HasPlaylists(parsed.value.playlists) then loaded.(stage := SelectPlaylist)
      else loaded.(tracks := parsed.value.allTracks, name := FullCollection, stage := Analyze, tab := TracksTab)
  }

  /** `handlePlaylistSelect`: analyse the chosen tracks under their label, on the tracks tab, with an empty cache. */
  function HandlePlaylistSelect(s: PageState, picked: seq<Track>, name: string): (r: PageState)
    ensures r.stage == Analyze && r.tracks == picked && r.name == name && r.tab == TracksTab && |r.cache| == 0
    ensures r.collection == s.collection && r.params == s.params
  {
    s.(tracks := picked, name := name, cache := ClearScoreCache(), stage := Analyze, tab := TracksTab)
  }

  /** `handleParamsChange`: the new parameters replace the old ones whole, and the cache is emptied. */
  function HandleParamsChange(s: PageState, p: ScoringParams): (r: PageState)
    ensures r.params == p && |r.cache| == 0
    ensures r.stage == s.stage && r.collection == s.collection && r.tracks == s.tracks && r.name == s.name && r.tab == s.tab
  {
    s.(params := p, cache := ClearScoreCache())
  }

  /** `handleReset`: back to the upload stage with nothing loaded; the parameters and the tab stay. */
  function HandleReset(s: PageState): (r: PageState)
    ensures r.stage == Upload && r.collection.None? && r.tracks == [] && r.name == "" && |r.cache| == 0
    ensures r.params == s.params && r.tab == s.tab
  {
    s.(stage := Upload, collection := None, tracks := [], name := "", cache := ClearScoreCache())
  }

  /**
   * `handleBackToPlaylists`: the playlist choice again when the collection
   * has playlists, with everything else kept; otherwise exactly a reset.
   */
  function HandleBackToPlaylists(s: PageState): (r: PageState)
    ensures CollectionHasPlaylists(s.collection) ==> r == s.(stage := SelectPlaylist)
    ensures !CollectionHasPlaylists(s.collection) ==> r == HandleReset(s)
  {
    if CollectionHasPlaylists(s.collection) then s.(stage := SelectPlaylist) else HandleReset(s)
  }

  // ---------------------------------------------------------------------
  // What the page offers
  // ---------------------------------------------------------------------

  /** The user actions the page wires to handlers. */
  datatype Event =
    | LoadXml(parsed: Option<ParsedCollection>)
    | PickPlaylist(picked: seq<Track>, title: string)
    | ChangeParams(p: ScoringParams)
    | ResetToUpload
    | BackToPlaylists
    | ShowTab(to: Tab)

  /**
   * When the page renders the control that raises the event: the upload panel
   * in every stage, the playlist picker only while choosing with a collection,
   * the parameter controls and the tabs only while analysing, the reset
   * breadcrumb outside the upload stage, and the way back to the playlists
   * only while analysing a collection that has some.
   */
  predicate Enabled(s: PageState, e: Event) {
    match e
    case LoadXml(_) => true
    case PickPlaylist(_, _) => s.stage == SelectPlaylist && s.collection.Some?
    case ChangeParams(_) => s.stage == Analyze
    case ResetToUpload => s.stage != Upload
    case BackToPlaylists => s.stage == Analyze && CollectionHasPlaylists(s.collection)
    case ShowTab(_) => s.stage == Analyze
  }

  function Step(s: PageState, e: Event): PageState {
    match e
    case LoadXml(parsed) => HandleXml(s, parsed)
    case PickPlaylist(picked, title) => HandlePlaylistSelect(s, picked, title)
    case ChangeParams(p) => HandleParamsChange(s, p)
    case ResetToUpload => HandleReset(s)
    case BackToPlaylists => HandleBackToPlaylists(s)
    case ShowTab(to) => s.(tab := to)
  }

  /** The state after a run of events, each applied in turn. */
  function Run(s: PageState, events: seq<Event>): PageState
    decreases |events|
  {
    if events == [] then s else Run(Step(s, events[0]), events[1..])
  }

  /** Every event of the run is offered by the state it reaches. */
  predicate AllEnabled(s: PageState, events: seq<Event>)
    decreases |events|
  {
    events == [] || (Enabled(s, events[0]) && AllEnabled(Step(s, events[0]), events[1..]))
  }

  // ---------------------------------------------------------------------
  // Invariants
  // ---------------------------------------------------------------------

  /** Only the upload stage lacks a collection, and the playlist choice is shown only for a collection with playlists. */
  predicate StageConsistent(s: PageState) {
    && (s.stage == Upload <==> s.collection.None?)
    && (s.stage == SelectPlaylist ==> CollectionHasPlaylists(s.collection))
  }

  /** Every cached score between two working tracks is their score under the current parameters. */
  ghost predicate Fresh(s: PageState) {
    CacheSound(s.cache, s.tracks, ScoreWith(s.params))
  }

  ghost predicate Inv(s: PageState) {
    StageConsistent(s) && Fresh(s)
  }

  /** The first render satisfies the invariant. */
  lemma InitialInv()
    ensures Inv(Initial())
  {
    EmptyCacheSound([], ScoreWith(DefaultScoring));
  }

  /** Every event the page offers keeps the invariant. */
  lemma StepKeepsInv(s: PageState, e: Event)
    requires Inv(s) && Enabled(s, e)
    ensures Inv(Step(s, e))
  {
    var r := Step(s, e);
    if |r.cache| == 0 {
      EmptyCacheSound(r.tracks, ScoreWith(r.params));
      assert r.cache == ClearScoreCache();
    }
  }

  /** Any run of offered events from a state with the invariant ends in one. */
  lemma {:induction false} RunKeepsInv(s: PageState, events: seq<Event>)
    requires Inv(s) && AllEnabled(s, events)
    ensures Inv(Run(s, events))
    decreases |events|
  {
    if events != [] {
      StepKeepsInv(s, events[0]);
      RunKeepsInv(Step(s, events[0]), events[1..]);
    }
  }

  /** Every state the page reaches keeps the invariant. */
  lemma ReachableInv(events: seq<Event>)
    requires AllEnabled(Initial(), events)
    ensures Inv(Run(Initial(), events))
  {
    InitialInv();
    RunKeepsInv(Initial(), events);
  }

  /**
   * The clear in `handleParamsChange` is needed: keeping a cached entry whose
   * score the new parameters change leaves a stale score, and the handler's
   * state has none.
   */
  lemma ParamsChangeNeedsClear(s: PageState, p: ScoringParams, i: nat, j: nat)
    requires Fresh(s) && i < |s.tracks| && j < |s.tracks|
    requires CacheKey(s.tracks[i], s.tracks[j]) in s.cache
    requires ScoreWith(s.params)(s.tracks[i], s.tracks[j]) != ScoreWith(p)(s.tracks[i], s.tracks[j])
    ensures !Fresh(s.(params := p))
    ensures Fresh(HandleParamsChange(s, p))
  {
    var r := HandleParamsChange(s, p);
    EmptyCacheSound(r.tracks, ScoreWith(p));
    assert r.cache == ClearScoreCache();
  }

  /** The guard on the playlist picker is needed: picking from the upload stage would analyse without a collection. */
  lemma PickPlaylistNeedsGuard(picked: seq<Track>, name: string)
    ensures !Enabled(Initial(), PickPlaylist(picked, name))
    ensures !StageConsistent(Step(Initial(), PickPlaylist(picked, name)))
  {
  }

  /** Resetting twice is resetting once, and going back without playlists after a reset is that reset again. */
  lemma ResetSettles(s: PageState)
    ensures HandleReset(HandleReset(s)) == HandleReset(s)
    ensures HandleBackToPlaylists(HandleReset(s)) == HandleReset(s)
  {
  }

  /**
   * The set-order tab's `generateSetVariants(tracks, params)` on the page's
   * tracks and parameters: the variants of the whole model, and a cache that
   * stays fresh, nothing else changing. The ids of the working tracks must
   * identify them (a hash collision would let two tracks share entries).
   */
  method GenerateSet(s: PageState) returns (variants: seq<SetVariant>, r: PageState)
    requires s.stage == Analyze && s.tab == OrderTab && Inv(s) && IdsIdentify(s.tracks)
    ensures variants == VariantsWith(s.tracks, ScoreWith(s.params))
    ensures r == s.(cache := r.cache) && Inv(r)
  {
    var cache;
    variants, cache := GenerateSetVariants(s.tracks, s.params, s.cache);
    r := s.(cache := cache);
  }

  // ---------------------------------------------------------------------
  // stats
  // ---------------------------------------------------------------------

  datatype TrackStats = TrackStats(total: nat, complete: nat, missingBpm: nat, missingKey: nat)

  predicate IsComplete(t: Track) { t.isComplete }

  predicate NoBpm(t: Track) { t.bpm.None? }

  predicate NoKey(t: Track) { t.camelot.None? }

  /** `tracks.filter(p).length`. */
  function CountWhere(tracks: seq<Track>, p: Track -> bool): (n: nat)
    ensures n <= |tracks|
  {
    if tracks == [] then 0 else (if p(tracks[0]) then 1 else 0) + CountWhere(tracks[1..], p)
  }

  /** `tracks.filter(p)`: the tracks that pass, in order, each as often as it occurs. */
  function Filter(tracks: seq<Track>, p: Track -> bool): (r: seq<Track>)
    ensures forall t :: t in r <==> t in tracks && p(t)
    ensures forall t :: multiset(r)[t] == if p(t) then multiset(tracks)[t] else 0
  {
    if tracks == [] then []
    else
      assert tracks == [tracks[0]] + tracks[1..];
      (if p(tracks[0]) then [tracks[0]] else []) + Filter(tracks[1..], p)
  }

  /** The count is the length of the filtered list. */
  lemma {:induction false} CountWhereIsFilterLength(tracks: seq<Track>, p: Track -> bool)
    ensures CountWhere(tracks, p) == |Filter(tracks, p)|
  {
    if tracks != [] {
      CountWhereIsFilterLength(tracks[1..], p);
    }
  }

  /**
   * Each count of `stats` is the length of its filter: the complete tracks,
   * the tracks with no tempo, and the tracks with no Camelot key.
   */
  lemma {:induction false} StatsCounts(tracks: seq<Track>)
    ensures var st := Stats(tracks);
      && st.complete == |Filter(tracks, IsComplete)|
      && st.missingBpm == |Filter(tracks, NoBpm)|
      && st.missingKey == |Filter(tracks, NoKey)|
  {
    CountWhereIsFilterLength(tracks, IsComplete);
    CountWhereIsFilterLength(tracks, NoBpm);
    CountWhereIsFilterLength(tracks, NoKey);
  }

  /** `stats`: the total, the complete tracks, and those without a tempo or without a Camelot key. */
  function Stats(tracks: seq<Track>): (r: TrackStats)
    ensures r.total == |tracks|
    ensures r.complete <= r.total && r.missingBpm <= r.total && r.missingKey <= r.total
  {
    TrackStats(|tracks|, CountWhere(tracks, IsComplete), CountWhere(tracks, NoBpm), CountWhere(tracks, NoKey))
  }

  /** The complete count is the length of the list the set generator works on. */
  lemma {:induction false} CompleteCountIsFilter(tracks: seq<Track>)
    ensures Stats(tracks).complete == |CompleteTracks(tracks)|
  {
    if tracks != [] {
      CompleteCountIsFilter(tracks[1..]);
    }
  }

  /**
   * Every incomplete track lacks a tempo or a key, so the incomplete ones are
   * at most the missing tempos plus the missing keys.
   */
  lemma {:induction false} IncompleteCounted(tracks: seq<Track>)
    requires forall t :: t in tracks ==> WellFormedTrack(t)
    ensures var st := Stats(tracks); st.total - st.complete <= st.missingBpm + st.missingKey
  {
    if tracks != [] {
      assert WellFormedTrack(tracks[0]);
      IncompleteCounted(tracks[1..]);
    }
  }
}
