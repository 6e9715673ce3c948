/**
 * Mixable groups (components/MixableGroups.tsx): the wheel neighbours of a key
 * and the grouping of complete tracks into 4-BPM tempo bands whose keys all
 * lie around one root key.
 *
 * The source keys its groups by wheel-key text ("8A"); the model uses the
 * `CamelotKey` values the texts name (`KeyText` is injective). A group's
 * de-duplication key, the sorted ids joined by ',', is modelled as the
 * multiset of ids it encodes.
 */
module MixableGroups {
  import opened Wrappers
  import opened Text
  import opened Camelot
  import opened Scoring
  import opened StableSort
  import opened Collection

  predicate Distinct<T(==)>(s: seq<T>) {
    forall i, j :: 0 <= i < j < |s| ==> s[i] != s[j]
  }

  /** `[...new Set(xs)]`: the first occurrence of each element, in order. */
  function Dedup<T(==)>(xs: seq<T>): seq<T> {
    if xs == [] then []
    else
      var d := Dedup(xs[..|xs| - 1]);
      var x := xs[|xs| - 1];
      if x in d then d else d + [x]
  }

  /** De-duplication keeps every element once and nothing else. */
  lemma {:induction false} DedupSpec<T>(xs: seq<T>)
    ensures forall x :: x in Dedup(xs) <==> x in xs
    ensures Distinct(Dedup(xs))
    ensures |Dedup(xs)| <= |xs|
  {
    if xs != [] {
      var init := xs[..|xs| - 1];
      DedupSpec(init);
      assert xs == init + [xs[|xs| - 1]];
    }
  }

  lemma {:induction false} DedupOfDistinct<T>(xs: seq<T>)
    requires Distinct(xs)
    ensures Dedup(xs) == xs
  {
    if xs != [] {
      var init := xs[..|xs| - 1];
      DedupOfDistinct(init);
      assert xs[|xs| - 1] !in init;
      assert init + [xs[|xs| - 1]] == xs;
    }
  }

  /** The keys of `s` under `f`, in order. */
  function KeysBy<T, K>(s: seq<T>, f: T -> K): (r: seq<K>)
    ensures |r| == |s| && forall i :: 0 <= i < |r| ==> r[i] == f(s[i])
  {
    if s == [] then [] else [f(s[0])] + KeysBy(s[1..], f)
  }

  lemma KeysBySnoc<T, K>(s: seq<T>, x: T, f: T -> K)
    ensures KeysBy(s + [x], f) == KeysBy(s, f) + [f(x)]
  {
  }

  /** Recording a fresh key keeps `seen` equal to the recorded keys and the keys distinct. */
  lemma PushFresh<K>(keys: seq<K>, seen: set<K>, k: K)
    requires forall x :: x in seen <==> x in keys
    requires Distinct(keys) && k !in seen
    ensures forall x :: x in seen + {k} <==> x in keys + [k]
    ensures Distinct(keys + [k])
  {
  }

  /** An element of a sequence whose keys are distinct occurs in it once. */
  lemma {:induction false} OnceIfKeysDistinct<T, K>(s: seq<T>, f: T -> K, a: nat)
    requires a < |s| && Distinct(KeysBy(s, f))
    ensures multiset(s)[s[a]] == 1
  {
    var last := |s| - 1;
    var init := s[..last];
    assert s == init + [s[last]];
    assert KeysBy(init, f) == KeysBy(s, f)[..last];
    if a == last {
      assert s[a] !in init by {
        forall k | 0 <= k < |init| ensures init[k] != s[a] {
          assert KeysBy(s, f)[k] != KeysBy(s, f)[a];
        }
      }
    } else {
      OnceIfKeysDistinct(init, f, a);
      assert KeysBy(s, f)[a] != KeysBy(s, f)[last];
    }
  }

  lemma TwiceInSeq<T>(s: seq<T>, i: nat, j: nat)
    requires i < j < |s| && s[i] == s[j]
    ensures multiset(s)[s[i]] >= 2
  {
    assert s == s[..i] + [s[i]] + s[i + 1..j] + [s[j]] + s[j + 1..];
  }

  /** A reordering of a sequence with distinct keys keeps its elements and their distinctness. */
  lemma ReorderKeepsKeysDistinct<T, K>(a: seq<T>, b: seq<T>, f: T -> K)
    requires multiset(a) == multiset(b)
    requires Distinct(KeysBy(b, f))
    ensures forall x :: x in a <==> x in b
    ensures Distinct(KeysBy(a, f))
  {
    assert forall x :: x in a <==> x in multiset(b);
    forall i, j | 0 <= i < j < |a| ensures KeysBy(a, f)[i] != KeysBy(a, f)[j] {
      assert a[i] in multiset(b) && a[j] in multiset(b);
      var m :| 0 <= m < |b| && b[m] == a[i];
      var n :| 0 <= n < |b| && b[n] == a[j];
      if m == n {
        // One element at two positions of `a` would occur twice there but once in `b`.
        OnceIfKeysDistinct(b, f, m);
        TwiceInSeq(a, i, j);
      } else if m < n {
        assert KeysBy(b, f)[m] != KeysBy(b, f)[n];
      } else {
        assert KeysBy(b, f)[n] != KeysBy(b, f)[m];
      }
    }
  }

  // ---------------------------------------------------------------------
  // Pushing each key once
  // ---------------------------------------------------------------------

  /** A candidate for the result together with its de-duplication key. */
  datatype Entry<K, G> = Entry(key: K, item: G)

  /** The loop's state: the groups pushed so far and `seen`, the keys already pushed. */
  datatype Progress<K, G> = Progress(groups: seq<G>, seen: set<K>)

  /** `if (seen.has(key)) continue; seen.add(key); result.push(item)`. */
  function Push<K, G>(p: Progress<K, G>, e: Entry<K, G>): Progress<K, G> {
    if e.key in p.seen then p else Progress(p.groups + [e.item], p.seen + {e.key})
  }

  /** The entries pushed in order. */
  function PushAll<K, G>(p: Progress<K, G>, es: seq<Entry<K, G>>): Progress<K, G> {
    if es == [] then p else Push(PushAll(p, es[..|es| - 1]), es[|es| - 1])
  }

  lemma PushAllSnoc<K, G>(p: Progress<K, G>, es: seq<Entry<K, G>>, e: Entry<K, G>)
    ensures PushAll(p, es + [e]) == Push(PushAll(p, es), e)
  {
    assert (es + [e])[..|es|] == es;
  }

  lemma {:induction false} PushAllConcat<K, G>(p: Progress<K, G>, a: seq<Entry<K, G>>, b: seq<Entry<K, G>>)
    ensures PushAll(p, a + b) == PushAll(PushAll(p, a), b)
  {
    if b == [] {
      assert a + b == a;
    } else {
      var init := b[..|b| - 1];
      var e := b[|b| - 1];
      assert a + b == (a + init) + [e];
      PushAllSnoc(p, a + init, e);
      PushAllConcat(p, a, init);
      PushAllSnoc(PushAll(p, a), init, e);
      assert b == init + [e];
    }
  }

  /** `seen` holds exactly the keys `f` gives the pushed groups, and no key twice. */
  ghost predicate Keyed<K(!new), G>(p: Progress<K, G>, f: G -> K) {
    && (forall x :: x in p.seen <==> x in KeysBy(p.groups, f))
    && Distinct(KeysBy(p.groups, f))
  }

  /** Under `Keyed`, every seen key belongs to some group. */
  lemma SeenKeyHasGroup<K(!new), G>(p: Progress<K, G>, f: G -> K, key: K) returns (n: nat)
    requires Keyed(p, f) && key in p.seen
    ensures n < |p.groups| && f(p.groups[n]) == key
  {
    var keys := KeysBy(p.groups, f);
    n :| 0 <= n < |keys| && keys[n] == key;
  }

  /** Every entry's key is the one `f` gives its item. */
  ghost predicate EntriesKeyed<K, G>(es: seq<Entry<K, G>>, f: G -> K) {
    forall i :: 0 <= i < |es| ==> f(es[i].item) == es[i].key
  }

  /** Pushing entries whose keys match their items keeps `seen` and the pushed keys in step. */
  lemma {:induction false} PushAllKeyed<K(!new), G>(p: Progress<K, G>, es: seq<Entry<K, G>>, f: G -> K)
    requires Keyed(p, f) && EntriesKeyed(es, f)
    ensures Keyed(PushAll(p, es), f)
  {
    if es != [] {
      var init := es[..|es| - 1];
      var e := es[|es| - 1];
      assert EntriesKeyed(init, f) by {
        forall i | 0 <= i < |init| ensures f(init[i].item) == init[i].key {
          assert init[i] == es[i];
        }
      }
      PushAllKeyed(p, init, f);
      var q := PushAll(p, init);
      if e.key !in q.seen {
        PushFresh(KeysBy(q.groups, f), q.seen, e.key);
        KeysBySnoc(q.groups, e.item, f);
      }
    }
  }

  /** Pushing only adds keys, and every entry's key ends up seen. */
  lemma {:induction false} PushAllSeen<K, G>(p: Progress<K, G>, es: seq<Entry<K, G>>)
    ensures p.seen <= PushAll(p, es).seen
    ensures forall i :: 0 <= i < |es| ==> es[i].key in PushAll(p, es).seen
  {
    if es != [] {
      var init := es[..|es| - 1];
      PushAllSeen(p, init);
      forall i | 0 <= i < |es| ensures es[i].key in PushAll(p, es).seen {
        if i < |init| {
          assert es[i] == init[i];
        }
      }
    }
  }

  /** Starting from nothing, every pushed group is the item of some entry. */
  lemma {:induction false} PushedFrom<K, G>(p: Progress<K, G>, es: seq<Entry<K, G>>, n: nat) returns (i: nat)
    requires p.groups == [] && n < |PushAll(p, es).groups|
    ensures i < |es| && es[i].item == PushAll(p, es).groups[n]
  {
    var init := es[..|es| - 1];
    var q := PushAll(p, init);
    if n < |q.groups| {
      i := PushedFrom(p, init, n);
      assert es[i] == init[i];
    } else {
      i := |es| - 1;
    }
  }

  // ---------------------------------------------------------------------
  // getNeighbors
  // ---------------------------------------------------------------------

  /** JavaScript's `%`: the remainder takes the sign of the dividend. */
  function JsRem(a: int, m: int): int
    requires m > 0
  {
    if a >= 0 then a % m else -((-a) % m)
  }

  /**
   * `wrap(x) = ((x - 1 + 12) % 12) + 1`. For every argument the source passes
   * (a wheel number plus or minus at most 2) it is the wheel number congruent to `x`.
   */
  function Wrap(x: int): (r: int)
    ensures x >= -10 ==> 1 <= r <= 12 && (r - x) % 12 == 0
  {
    JsRem(x - 1 + 12, 12) + 1
  }

  /**
   * `wrap(n + d)` for a wheel number and an offset of at most two either way,
   * the only arguments the source passes, written without the remainder.
   */
  function Around(n: WheelNumber, d: int): WheelNumber
    requires -2 <= d <= 2
  {
    var x := n + d;
    if x < 1 then x + 12 else if x > 12 then x - 12 else x
  }

  /** On those arguments the remainder formula and the case split agree. */
  lemma AroundIsWrap(n: WheelNumber, d: int)
    requires -2 <= d <= 2
    ensures Around(n, d) == Wrap(n + d)
  {
    var q := (n + d + 11) / 12;
    assert 0 <= q <= 2;
  }

  function OtherLetter(l: Letter): Letter {
    if l == A then B else A
  }

  /** The keys `getNeighbors` pushes, before de-duplication. */
  function NeighborList(c: CamelotKey, strictness: KeyStrictness): seq<CamelotKey> {
    var n := c.number;
    var l := c.letter;
    [c, CamelotKey(Around(n, -1), l), CamelotKey(Around(n, 1), l), CamelotKey(n, OtherLetter(l))]
      + (if strictness == Creative then [CamelotKey(Around(n, -2), l), CamelotKey(Around(n, 2), l)] else [])
  }

  /** `getNeighbors(camelot, strictness)`. */
  function GetNeighbors(c: CamelotKey, strictness: KeyStrictness): seq<CamelotKey> {
    Dedup(NeighborList(c, strictness))
  }

  /**
   * The keys pushed are already distinct, so de-duplication keeps them all:
   * the key itself first, then 3 more, or 5 more under Creative.
   */
  lemma NeighborCount(c: CamelotKey, strictness: KeyStrictness)
    ensures |GetNeighbors(c, strictness)| == if strictness == Creative then 6 else 4
    ensures Distinct(GetNeighbors(c, strictness))
    ensures GetNeighbors(c, strictness)[0] == c
  {
    var xs := NeighborList(c, strictness);
    assert Distinct(xs);
    DedupOfDistinct(xs);
  }

  /** Same letter, one or two steps round the wheel. */
  lemma StepsAround(n: WheelNumber, m: WheelNumber)
    ensures CircularSteps(n, m) == 1 <==> m == Around(n, -1) || m == Around(n, 1)
    ensures CircularSteps(n, m) == 2 <==> m == Around(n, -2) || m == Around(n, 2)
  {
    var d := CamelotDistance(CamelotKey(n, A), CamelotKey(m, A));
  }

  /**
   * The neighbours are exactly the keys the key scorer relates to `c`:
   * a key is listed if and only if its relation is not 'other'.
   */
  lemma NeighborsAreRelated(c: CamelotKey, t: CamelotKey, strictness: KeyStrictness)
    ensures t in GetNeighbors(c, strictness) <==> ComputeKeyScore(c, t, strictness).relation != Other
  {
    StepsAround(c.number, t.number);
    DedupSpec(NeighborList(c, strictness));
  }

  // ---------------------------------------------------------------------
  // Tempo bands
  // ---------------------------------------------------------------------

  const BpmBand: int := 4

  /** `Math.floor(t.bpm! / BPM_BAND) * BPM_BAND`. */
  function Band(t: Track): int {
    (TempoOf(t) / BpmBand as real).Floor * BpmBand
  }

  /** A track's band holds its tempo: `band <= bpm < band + 4`. */
  lemma BandHoldsTempo(t: Track)
    ensures Band(t) as real <= TempoOf(t) < (Band(t) + BpmBand) as real
  {
  }

  predicate StrictlyAscending(s: seq<int>) {
    forall i, j :: 0 <= i < j < |s| ==> s[i] < s[j]
  }

  /** Adds `x` to an ascending sequence of distinct values. */
  function InsertAscending(x: int, s: seq<int>): (r: seq<int>)
    requires StrictlyAscending(s)
    ensures StrictlyAscending(r)
    ensures forall y :: y in r <==> y == x || y in s
  {
    if s == [] then [x]
    else if x < s[0] then [x] + s
    else if x == s[0] then s
    else
      var r := InsertAscending(x, s[1..]);
      assert forall i :: 0 <= i < |r| ==> r[i] in r;
      [s[0]] + r
  }

  /** `Array.from(new Set(xs)).sort((a, b) => a - b)`. */
  function AscendingSet(xs: seq<int>): (r: seq<int>)
    ensures StrictlyAscending(r)
    ensures forall y :: y in r <==> y in xs
  {
    if xs == [] then []
    else
      assert xs == xs[..|xs| - 1] + [xs[|xs| - 1]];
      InsertAscending(xs[|xs| - 1], AscendingSet(xs[..|xs| - 1]))
  }

  function BandList(tracks: seq<Track>): (r: seq<int>)
    ensures |r| == |tracks| && forall i :: 0 <= i < |r| ==> r[i] == Band(tracks[i])
  {
    if tracks == [] then [] else [Band(tracks[0])] + BandList(tracks[1..])
  }

  /** The bands of the complete tracks (`bpmBands`), ascending, each once. */
  function Bands(complete: seq<Track>): seq<int> {
    AscendingSet(BandList(complete))
  }

  /** The bands ascend, and a value is a band exactly when some track lies in it. */
  lemma BandsSpec(complete: seq<Track>, b: int)
    ensures StrictlyAscending(Bands(complete))
    ensures b in Bands(complete) <==> exists i :: 0 <= i < |complete| && Band(complete[i]) == b
  {
    var bl := BandList(complete);
    if b in bl {
      var i :| 0 <= i < |bl| && bl[i] == b;
    }
  }

  /** `complete.filter(t => band(t) === b)`. */
  function InBand(tracks: seq<Track>, b: int): (r: seq<Track>)
    ensures |r| <= |tracks|
  {
    if tracks == [] then []
    else (if Band(tracks[0]) == b then [tracks[0]] else []) + InBand(tracks[1..], b)
  }

  lemma {:induction false} InBandMember(tracks: seq<Track>, b: int, t: Track)
    ensures t in InBand(tracks, b) <==> t in tracks && Band(t) == b
  {
    if tracks != [] {
      InBandMember(tracks[1..], b, t);
      assert tracks == [tracks[0]] + tracks[1..];
    }
  }

  // ---------------------------------------------------------------------
  // Groups
  // ---------------------------------------------------------------------

  /** Tracks whose key is one of `keys` (`neighbors.includes(t.camelot!)`). */
  function WithKeyIn(tracks: seq<Track>, keys: seq<CamelotKey>): (r: seq<Track>)
    ensures |r| <= |tracks|
  {
    if tracks == [] then []
    else
      (if tracks[0].camelot.Some? && tracks[0].camelot.value in keys then [tracks[0]] else [])
        + WithKeyIn(tracks[1..], keys)
  }

  lemma {:induction false} WithKeyInMember(tracks: seq<Track>, keys: seq<CamelotKey>, t: Track)
    ensures t in WithKeyIn(tracks, keys) <==> t in tracks && t.camelot.Some? && t.camelot.value in keys
  {
    if tracks != [] {
      WithKeyInMember(tracks[1..], keys, t);
      assert tracks == [tracks[0]] + tracks[1..];
    }
  }

  /**
   * `complete.map(t => t.camelot!)`. Complete tracks always carry a key (see
   * `WellFormedTrack`); one without would make the source fail, and is skipped here.
   */
  function KeyList(complete: seq<Track>): seq<CamelotKey> {
    if complete == [] then []
    else (if complete[0].camelot.Some? then [complete[0].camelot.value] else []) + KeyList(complete[1..])
  }

  lemma {:induction false} KeyListMember(complete: seq<Track>, k: CamelotKey)
    ensures k in KeyList(complete) <==> exists i :: 0 <= i < |complete| && complete[i].camelot == Some(k)
  {
    if complete != [] {
      KeyListMember(complete[1..], k);
      if exists i :: 0 <= i < |complete| && complete[i].camelot == Some(k) {
        var i :| 0 <= i < |complete| && complete[i].camelot == Some(k);
        if i > 0 {
          assert complete[1..][i - 1] == complete[i];
        }
      }
      if exists i :: 0 <= i < |complete[1..]| && complete[1..][i].camelot == Some(k) {
        var i :| 0 <= i < |complete[1..]| && complete[1..][i].camelot == Some(k);
        assert complete[i + 1] == complete[1..][i];
      }
    }
  }

  /** `allCamelots`: each key of a complete track once, in order of first appearance. */
  function CollectionKeys(complete: seq<Track>): seq<CamelotKey> {
    Dedup(KeyList(complete))
  }

  lemma CollectionKeysMember(complete: seq<Track>, k: CamelotKey)
    ensures k in CollectionKeys(complete) <==> exists i :: 0 <= i < |complete| && complete[i].camelot == Some(k)
  {
    DedupSpec(KeyList(complete));
    KeyListMember(complete, k);
  }

  /** `groupTracks` for a band and a root key: the band's tracks with a key around the root. */
  function Candidates(complete: seq<Track>, band: int, root: CamelotKey, strictness: KeyStrictness): seq<Track> {
    WithKeyIn(InBand(complete, band), GetNeighbors(root, strictness))
  }

  /** A candidate is a track of the band whose key neighbours the root, and every such track is one. */
  lemma CandidateMember(complete: seq<Track>, band: int, root: CamelotKey, strictness: KeyStrictness, t: Track)
    ensures t in Candidates(complete, band, root, strictness) <==>
      t in complete && Band(t) == band && t.camelot.Some? && t.camelot.value in GetNeighbors(root, strictness)
  {
    WithKeyInMember(InBand(complete, band), GetNeighbors(root, strictness), t);
    InBandMember(complete, band, t);
  }

  function Ids(tracks: seq<Track>): (r: seq<string>)
    ensures |r| == |tracks|
  {
    if tracks == [] then [] else [tracks[0].id] + Ids(tracks[1..])
  }

  /** What the de-duplication key `ids.sort().join(',')` encodes. */
  function IdBag(tracks: seq<Track>): multiset<string> {
    multiset(Ids(tracks))
  }

  /** `Math.min(...tracks.map(t => t.bpm!))`. */
  function MinTempo(tracks: seq<Track>): real
    requires tracks != []
  {
    if |tracks| == 1 then TempoOf(tracks[0])
    else
      var rest := MinTempo(tracks[1..]);
      if TempoOf(tracks[0]) <= rest then TempoOf(tracks[0]) else rest
  }

  /** `Math.max(...tracks.map(t => t.bpm!))`. */
  function MaxTempo(tracks: seq<Track>): real
    requires tracks != []
  {
    if |tracks| == 1 then TempoOf(tracks[0])
    else
      var rest := MaxTempo(tracks[1..]);
      if TempoOf(tracks[0]) >= rest then TempoOf(tracks[0]) else rest
  }

  /** The least and greatest tempo are tempos of members, and bound every member's tempo. */
  lemma TempoExtremes(tracks: seq<Track>)
    requires tracks != []
    ensures forall t :: t in tracks ==> MinTempo(tracks) <= TempoOf(t) <= MaxTempo(tracks)
    ensures exists i :: 0 <= i < |tracks| && TempoOf(tracks[i]) == MinTempo(tracks)
    ensures exists i :: 0 <= i < |tracks| && TempoOf(tracks[i]) == MaxTempo(tracks)
  {
    var lo := MinTempoAttained(tracks);
    var hi := MaxTempoAttained(tracks);
  }

  /** The least tempo is the tempo of some member and bounds every member's tempo from below. */
  lemma {:induction false} MinTempoAttained(tracks: seq<Track>) returns (i: nat)
    requires tracks != []
    ensures i < |tracks| && TempoOf(tracks[i]) == MinTempo(tracks)
    ensures forall j :: 0 <= j < |tracks| ==> MinTempo(tracks) <= TempoOf(tracks[j])
  {
    if |tracks| == 1 {
      i := 0;
    } else {
      var rest := tracks[1..];
      var k := MinTempoAttained(rest);
      i := if TempoOf(tracks[0]) <= MinTempo(rest) then 0 else k + 1;
      forall j | 1 <= j < |tracks| ensures MinTempo(tracks) <= TempoOf(tracks[j]) {
        assert tracks[j] == rest[j - 1];
      }
    }
  }

  /** The greatest tempo is the tempo of some member and bounds every member's tempo from above. */
  lemma {:induction false} MaxTempoAttained(tracks: seq<Track>) returns (i: nat)
    requires tracks != []
    ensures i < |tracks| && TempoOf(tracks[i]) == MaxTempo(tracks)
    ensures forall j :: 0 <= j < |tracks| ==> TempoOf(tracks[j]) <= MaxTempo(tracks)
  {
    if |tracks| == 1 {
      i := 0;
    } else {
      var rest := tracks[1..];
      var k := MaxTempoAttained(rest);
      i := if TempoOf(tracks[0]) >= MaxTempo(rest) then 0 else k + 1;
      forall j | 1 <= j < |tracks| ensures TempoOf(tracks[j]) <= MaxTempo(tracks) {
        assert tracks[j] == rest[j - 1];
      }
    }
  }

  /** `bpmRange: [min, max]`. */
  datatype TempoRange = TempoRange(lo: real, hi: real)

  /**
   * A group. Its `label` is a function of its keys and tempo range, so the
   * model computes it on demand (`Label`) rather than storing it.
   */
  datatype Group = Group(camelots: seq<CamelotKey>, bpmRange: TempoRange, tracks: seq<Track>)
  {
    function Label(): string {
      GroupLabel(camelots, bpmRange.lo, bpmRange.hi)
    }
  }

  /** `neighbors.filter(n => allCamelots.includes(n))`. */
  function PresentKeys(neighbors: seq<CamelotKey>, allKeys: seq<CamelotKey>): seq<CamelotKey> {
    if neighbors == [] then []
    else (if neighbors[0] in allKeys then [neighbors[0]] else []) + PresentKeys(neighbors[1..], allKeys)
  }

  lemma {:induction false} PresentKeysMember(neighbors: seq<CamelotKey>, allKeys: seq<CamelotKey>, k: CamelotKey)
    ensures k in PresentKeys(neighbors, allKeys) <==> k in neighbors && k in allKeys
  {
    if neighbors != [] {
      PresentKeysMember(neighbors[1..], allKeys, k);
      assert neighbors == [neighbors[0]] + neighbors[1..];
    }
  }

  function KeyTexts(keys: seq<CamelotKey>): (r: seq<string>)
    ensures |r| == |keys| && forall i :: 0 <= i < |r| ==> r[i] == KeyText(keys[i])
  {
    if keys == [] then [] else [KeyText(keys[0])] + KeyTexts(keys[1..])
  }

  /** `neighborKeys.slice(0, 3)`. */
  function ShownKeys(keys: seq<CamelotKey>): (r: seq<CamelotKey>)
    ensures |r| == (if |keys| <= 3 then |keys| else 3) && r == keys[..|r|]
  {
    if |keys| <= 3 then keys else keys[..3]
  }

  /** `${neighborKeys.slice(0, 3).join('/')} @ ${Math.round(bpmMin)}–${Math.round(bpmMax)}`. */
  function GroupLabel(keys: seq<CamelotKey>, lo: real, hi: real): string {
    LabelHead(keys) + " @ " + RangeText(lo, hi)
  }

  /** `neighborKeys.slice(0, 3).join('/')`. */
  function LabelHead(keys: seq<CamelotKey>): string {
    Join(KeyTexts(ShownKeys(keys)), "/")
  }

  /** `${Math.round(bpmMin)}–${Math.round(bpmMax)}`. */
  function RangeText(lo: real, hi: real): string {
    IntToString(RoundHalfUp(lo)) + "–" + IntToString(RoundHalfUp(hi))
  }

  /** A key text is digits and a letter: no space and no slash. */
  lemma KeyTextPlain(c: CamelotKey)
    ensures ' ' !in KeyText(c) && '/' !in KeyText(c)
  {
    var s := NatToString(c.number);
    assert forall i :: 0 <= i < |s| ==> IsDigit(s[i]);
  }

  lemma RangeTextHasNoSpace(lo: real, hi: real)
    ensures ' ' !in RangeText(lo, hi)
  {
    var a, b := NatToString(if RoundHalfUp(lo) < 0 then -RoundHalfUp(lo) else RoundHalfUp(lo)),
                NatToString(if RoundHalfUp(hi) < 0 then -RoundHalfUp(hi) else RoundHalfUp(hi));
    assert forall i :: 0 <= i < |a| ==> IsDigit(a[i]);
    assert forall i :: 0 <= i < |b| ==> IsDigit(b[i]);
  }

  /** The key part of a label has no space and, split on '/', gives the shown keys' texts. */
  lemma LabelHeadReadsBack(keys: seq<CamelotKey>)
    ensures ' ' !in LabelHead(keys)
    ensures keys != [] ==> Split(LabelHead(keys), '/') == KeyTexts(ShownKeys(keys))
  {
    var texts := KeyTexts(ShownKeys(keys));
    forall i | 0 <= i < |texts| ensures ' ' !in texts[i] && '/' !in texts[i] {
      KeyTextPlain(ShownKeys(keys)[i]);
    }
    NotInJoin(texts, "/", ' ');
    if keys != [] {
      SplitJoinRoundTrip(texts, '/');
    }
  }

  /**
   * The label reads back: split on spaces it is three words, the shown keys
   * joined by '/', then "@", then the rounded tempo range; and the first word,
   * split on '/', gives the texts of the first three keys (all of them when
   * there are at most three).
   */
  lemma GroupLabelReadsBack(keys: seq<CamelotKey>, lo: real, hi: real)
    ensures var words := Split(GroupLabel(keys, lo, hi), ' ');
      && words == [LabelHead(keys), "@", RangeText(lo, hi)]
      && (keys != [] ==> Split(words[0], '/') == KeyTexts(ShownKeys(keys)))
  {
    LabelHeadReadsBack(keys);
    RangeTextHasNoSpace(lo, hi);
    assert GroupLabel(keys, lo, hi) == LabelHead(keys) + [' '] + "@" + [' '] + RangeText(lo, hi);
    SplitThree(LabelHead(keys), "@", RangeText(lo, hi), ' ');
  }

  /** The group a band and root key produce. */
  function MakeGroup(groupTracks: seq<Track>, root: CamelotKey, strictness: KeyStrictness, allKeys: seq<CamelotKey>): Group
    requires groupTracks != []
  {
    var lo := MinTempo(groupTracks);
    var hi := MaxTempo(groupTracks);
    var keys := PresentKeys(GetNeighbors(root, strictness), allKeys);
    Group(keys, TempoRange(lo, hi), groupTracks)
  }

  /**
   * What every listed group is: at least two complete tracks sharing one tempo
   * band, exactly the band's tracks around some root key of the collection; its
   * keys are the root's neighbours present in the collection, among them every
   * member's key; its tempo range is the least and greatest member tempo.
   */
  ghost predicate IsGroup(g: Group, complete: seq<Track>, strictness: KeyStrictness) {
    && |g.tracks| >= 2
    && (forall t :: t in g.tracks ==> t in complete)
    && (forall i :: 0 <= i < |g.tracks| ==> Band(g.tracks[i]) == Band(g.tracks[0]))
    && (forall t :: t in g.tracks ==> t.camelot.Some? && t.camelot.value in g.camelots)
    && (exists root :: root in CollectionKeys(complete)
          && g.tracks == Candidates(complete, Band(g.tracks[0]), root, strictness)
          && g.camelots == PresentKeys(GetNeighbors(root, strictness), CollectionKeys(complete)))
    && (forall t :: t in g.tracks ==> g.bpmRange.lo <= TempoOf(t) <= g.bpmRange.hi)
    && (exists i :: 0 <= i < |g.tracks| && TempoOf(g.tracks[i]) == g.bpmRange.lo)
    && (exists i :: 0 <= i < |g.tracks| && TempoOf(g.tracks[i]) == g.bpmRange.hi)
  }

  /** Where a group comes from: the tempo band and the root key of the loops. */
  datatype Origin = Origin(band: int, root: CamelotKey)

  /** The group built for a band and a key of the collection, from two or more candidates. */
  lemma MakeGroupIsGroup(complete: seq<Track>, band: int, root: CamelotKey, strictness: KeyStrictness)
    requires root in CollectionKeys(complete)
    requires |Candidates(complete, band, root, strictness)| >= 2
    ensures IsGroup(MakeGroup(Candidates(complete, band, root, strictness), root, strictness, CollectionKeys(complete)),
                    complete, strictness)
  {
    var keys := CollectionKeys(complete);
    var gt := Candidates(complete, band, root, strictness);
    var g := MakeGroup(gt, root, strictness, keys);
    forall t | t in gt
      ensures t in complete && Band(t) == band && t.camelot.Some? && t.camelot.value in g.camelots
    {
      CandidateMember(complete, band, root, strictness, t);
      var i :| 0 <= i < |complete| && complete[i] == t;
      CollectionKeysMember(complete, t.camelot.value);
      PresentKeysMember(GetNeighbors(root, strictness), keys, t.camelot.value);
    }
    assert forall i :: 0 <= i < |gt| ==> gt[i] in gt;
    TempoExtremes(gt);
  }

  // ---------------------------------------------------------------------
  // The grouping loop
  // ---------------------------------------------------------------------

  /** What `trackKey` encodes for a group: the bag of its track ids. */
  function GroupKey(g: Group): multiset<string> {
    IdBag(g.tracks)
  }

  /** A candidate group keyed by its track ids. */
  type GroupEntry = Entry<multiset<string>, Group>

  /** The entry of the band and root `o` when two or more tracks qualify. */
  ghost predicate EntryFrom(e: GroupEntry, complete: seq<Track>, strictness: KeyStrictness, o: Origin) {
    var gt := Candidates(complete, o.band, o.root, strictness);
    && o.root in CollectionKeys(complete)
    && |gt| >= 2
    && e == Entry(IdBag(gt), MakeGroup(gt, o.root, strictness, CollectionKeys(complete)))
  }

  /**
   * What one root contributes, given the band's tracks and the collection's
   * keys: its entry when two or more tracks qualify, nothing otherwise.
   */
  function RootEntries(bandTracks: seq<Track>, root: CamelotKey, allKeys: seq<CamelotKey>, strictness: KeyStrictness)
    : seq<GroupEntry>
  {
    var groupTracks := WithKeyIn(bandTracks, GetNeighbors(root, strictness));
    if |groupTracks| < 2 then []
    else [Entry(IdBag(groupTracks), MakeGroup(groupTracks, root, strictness, allKeys))]
  }

  /** The inner loop's candidates for one band: each root in turn, when two or more tracks qualify. */
  function BandEntries(bandTracks: seq<Track>, roots: seq<CamelotKey>, allKeys: seq<CamelotKey>, strictness: KeyStrictness)
    : seq<GroupEntry>
  {
    if roots == [] then []
    else
      BandEntries(bandTracks, roots[..|roots| - 1], allKeys, strictness)
        + RootEntries(bandTracks, roots[|roots| - 1], allKeys, strictness)
  }

  /** The entries of band `band` of the collection, every collection key a root. */
  function EntriesOfBand(complete: seq<Track>, band: int, strictness: KeyStrictness): seq<GroupEntry> {
    BandEntries(InBand(complete, band), CollectionKeys(complete), CollectionKeys(complete), strictness)
  }

  /** The outer loop's candidates: the bands in turn, skipping bands without tracks. */
  function AllEntries(complete: seq<Track>, bands: seq<int>, strictness: KeyStrictness): seq<GroupEntry> {
    if bands == [] then []
    else
      var band := bands[|bands| - 1];
      AllEntries(complete, bands[..|bands| - 1], strictness)
        + (if |InBand(complete, band)| == 0 then [] else EntriesOfBand(complete, band, strictness))
  }

  /** Root `j` pushes what it contributes after what the roots before it pushed. */
  lemma BandEntriesStep(p0: Progress<multiset<string>, Group>, bandTracks: seq<Track>, roots: seq<CamelotKey>, j: nat,
                        allKeys: seq<CamelotKey>, strictness: KeyStrictness)
    requires j < |roots|
    ensures PushAll(p0, BandEntries(bandTracks, roots[..j + 1], allKeys, strictness))
      == PushAll(PushAll(p0, BandEntries(bandTracks, roots[..j], allKeys, strictness)), RootEntries(bandTracks, roots[j], allKeys, strictness))
  {
    assert roots[..j + 1][..j] == roots[..j];
    PushAllConcat(p0, BandEntries(bandTracks, roots[..j], allKeys, strictness), RootEntries(bandTracks, roots[j], allKeys, strictness));
  }

  lemma AllEntriesSnoc(complete: seq<Track>, bands: seq<int>, band: int, strictness: KeyStrictness)
    ensures AllEntries(complete, bands + [band], strictness)
      == AllEntries(complete, bands, strictness)
         + (if |InBand(complete, band)| == 0 then [] else EntriesOfBand(complete, band, strictness))
  {
    assert (bands + [band])[..|bands|] == bands;
  }

  /** One band of the outer loop: an empty band pushes nothing, any other pushes its roots' entries. */
  lemma BandStepMatches(p0: Progress<multiset<string>, Group>, complete: seq<Track>, bands: seq<int>, band: int,
                        strictness: KeyStrictness, p: Progress<multiset<string>, Group>, p': Progress<multiset<string>, Group>)
    requires p == PushAll(p0, AllEntries(complete, bands, strictness))
    requires p' == if |InBand(complete, band)| == 0 then p
                   else PushAll(p, EntriesOfBand(complete, band, strictness))
    ensures p' == PushAll(p0, AllEntries(complete, bands + [band], strictness))
  {
    var before := AllEntries(complete, bands, strictness);
    AllEntriesSnoc(complete, bands, band, strictness);
    if |InBand(complete, band)| == 0 {
      assert before + [] == before;
    } else {
      PushAllConcat(p0, before, EntriesOfBand(complete, band, strictness));
    }
  }

  /** The groups before the final sort: each candidate pushed unless its track set was seen. */
  function UnsortedGroups(tracks: seq<Track>, strictness: KeyStrictness): seq<Group> {
    var complete := CompleteTracks(tracks);
    PushAll(Progress([], {}), AllEntries(complete, Bands(complete), strictness)).groups
  }

  /** Larger groups first (`b.tracks.length - a.tracks.length`). */
  function SizeKey(g: Group): real {
    -(|g.tracks| as real)
  }

  /** The groups the component lists. */
  function Groups(tracks: seq<Track>, strictness: KeyStrictness): seq<Group> {
    SortBy(UnsortedGroups(tracks, strictness), SizeKey)
  }

  // ---------------------------------------------------------------------
  // Where the candidates come from
  // ---------------------------------------------------------------------

  /** Each candidate of a band comes from one of the roots, a key of the collection. */
  lemma {:induction false} BandEntryOrigin(complete: seq<Track>, band: int, roots: seq<CamelotKey>,
                                           strictness: KeyStrictness, i: nat) returns (o: Origin)
    requires forall r :: r in roots ==> r in CollectionKeys(complete)
    requires i < |BandEntries(InBand(complete, band), roots, CollectionKeys(complete), strictness)|
    ensures EntryFrom(BandEntries(InBand(complete, band), roots, CollectionKeys(complete), strictness)[i], complete, strictness, o)
  {
    var init := roots[..|roots| - 1];
    if i < |BandEntries(InBand(complete, band), init, CollectionKeys(complete), strictness)| {
      o := BandEntryOrigin(complete, band, init, strictness, i);
    } else {
      o := Origin(band, roots[|roots| - 1]);
    }
  }

  /** A candidate of the outer loop lies among the earlier bands' candidates or among the last band's. */
  lemma AllEntriesSplit(complete: seq<Track>, bands: seq<int>, strictness: KeyStrictness, i: nat)
    requires i < |AllEntries(complete, bands, strictness)|
    ensures bands != []
    ensures var band := bands[|bands| - 1];
            var n := |AllEntries(complete, bands[..|bands| - 1], strictness)|;
            i >= n ==> |InBand(complete, band)| > 0 && i - n < |EntriesOfBand(complete, band, strictness)|
  {
  }

  /** The earlier bands' candidates keep their places when a band is added. */
  lemma AllEntriesAtInit(complete: seq<Track>, bands: seq<int>, strictness: KeyStrictness, i: nat)
    requires bands != [] && i < |AllEntries(complete, bands[..|bands| - 1], strictness)|
    ensures i < |AllEntries(complete, bands, strictness)|
    ensures AllEntries(complete, bands, strictness)[i] == AllEntries(complete, bands[..|bands| - 1], strictness)[i]
  {
  }

  /** The last band's candidates follow the earlier bands' ones. */
  lemma AllEntriesAtLast(complete: seq<Track>, bands: seq<int>, strictness: KeyStrictness, j: nat)
    requires bands != [] && |InBand(complete, bands[|bands| - 1])| > 0
    requires j < |EntriesOfBand(complete, bands[|bands| - 1], strictness)|
    ensures var n := |AllEntries(complete, bands[..|bands| - 1], strictness)|;
            && n + j < |AllEntries(complete, bands, strictness)|
            && AllEntries(complete, bands, strictness)[n + j] == EntriesOfBand(complete, bands[|bands| - 1], strictness)[j]
  {
  }

  /** Each candidate comes from one band and one key of the collection. */
  lemma {:induction false} AllEntryOrigin(complete: seq<Track>, bands: seq<int>, strictness: KeyStrictness, i: nat)
    returns (o: Origin)
    requires i < |AllEntries(complete, bands, strictness)|
    ensures EntryFrom(AllEntries(complete, bands, strictness)[i], complete, strictness, o)
  {
    AllEntriesSplit(complete, bands, strictness, i);
    var init := bands[..|bands| - 1];
    var n := |AllEntries(complete, init, strictness)|;
    if i < n {
      AllEntriesAtInit(complete, bands, strictness, i);
      o := AllEntryOrigin(complete, init, strictness, i);
    } else {
      AllEntriesAtLast(complete, bands, strictness, i - n);
      o := BandEntryOrigin(complete, bands[|bands| - 1], CollectionKeys(complete), strictness, i - n);
    }
  }

  /** A root with two or more candidates in the band gives an entry with their id bag. */
  lemma {:induction false} BandEntryPresent(complete: seq<Track>, band: int, roots: seq<CamelotKey>,
                                            strictness: KeyStrictness, k: nat) returns (i: nat)
    requires k < |roots| && |Candidates(complete, band, roots[k], strictness)| >= 2
    ensures i < |BandEntries(InBand(complete, band), roots, CollectionKeys(complete), strictness)|
    ensures BandEntries(InBand(complete, band), roots, CollectionKeys(complete), strictness)[i].key
      == IdBag(Candidates(complete, band, roots[k], strictness))
  {
    var bandTracks, keys := InBand(complete, band), CollectionKeys(complete);
    var init := roots[..|roots| - 1];
    if k < |init| {
      assert init[k] == roots[k];
      i := BandEntryPresent(complete, band, init, strictness, k);
      BandEntriesAtInit(bandTracks, roots, keys, strictness, i);
    } else {
      BandEntriesAtLast(bandTracks, roots, keys, strictness);
      i := |BandEntries(bandTracks, init, keys, strictness)|;
    }
  }

  /** The earlier roots' entries keep their places when a root is added. */
  lemma BandEntriesAtInit(bandTracks: seq<Track>, roots: seq<CamelotKey>, allKeys: seq<CamelotKey>,
                          strictness: KeyStrictness, i: nat)
    requires roots != [] && i < |BandEntries(bandTracks, roots[..|roots| - 1], allKeys, strictness)|
    ensures i < |BandEntries(bandTracks, roots, allKeys, strictness)|
    ensures BandEntries(bandTracks, roots, allKeys, strictness)[i]
      == BandEntries(bandTracks, roots[..|roots| - 1], allKeys, strictness)[i]
  {
  }

  /** The last root, with two or more tracks around it, adds an entry keyed by their ids after the earlier roots' entries. */
  lemma BandEntriesAtLast(bandTracks: seq<Track>, roots: seq<CamelotKey>, allKeys: seq<CamelotKey>, strictness: KeyStrictness)
    requires roots != [] && |WithKeyIn(bandTracks, GetNeighbors(roots[|roots| - 1], strictness))| >= 2
    ensures var n := |BandEntries(bandTracks, roots[..|roots| - 1], allKeys, strictness)|;
            && n < |BandEntries(bandTracks, roots, allKeys, strictness)|
            && BandEntries(bandTracks, roots, allKeys, strictness)[n].key
               == IdBag(WithKeyIn(bandTracks, GetNeighbors(roots[|roots| - 1], strictness)))
  {
  }

  /** A band and root with two or more candidates give an entry with their id bag. */
  lemma {:induction false} AllEntryPresent(complete: seq<Track>, bands: seq<int>, strictness: KeyStrictness,
                                           k: nat, root: CamelotKey) returns (i: nat)
    requires k < |bands| && root in CollectionKeys(complete)
    requires |Candidates(complete, bands[k], root, strictness)| >= 2
    ensures i < |AllEntries(complete, bands, strictness)|
    ensures AllEntries(complete, bands, strictness)[i].key == IdBag(Candidates(complete, bands[k], root, strictness))
  {
    var init := bands[..|bands| - 1];
    if k < |init| {
      assert init[k] == bands[k];
      var i0 := AllEntryPresent(complete, init, strictness, k, root);
      AllEntriesAtInit(complete, bands, strictness, i0);
      i := i0;
    } else {
      var band, keys := bands[k], CollectionKeys(complete);
      assert k == |bands| - 1;
      var r :| 0 <= r < |keys| && keys[r] == root;
      var j := BandEntryPresent(complete, band, keys, strictness, r);
      var es := EntriesOfBand(complete, band, strictness);
      assert es == BandEntries(InBand(complete, band), keys, keys, strictness);
      assert |InBand(complete, band)| > 0 by {
        assert |Candidates(complete, band, root, strictness)| <= |InBand(complete, band)|;
      }
      AllEntriesAtLast(complete, bands, strictness, j);
      i := |AllEntries(complete, init, strictness)| + j;
      assert AllEntries(complete, bands, strictness)[i] == es[j];
    }
  }


  /** Every candidate is keyed by the ids of its group's tracks. */
  lemma AllEntriesKeyed(complete: seq<Track>, bands: seq<int>, strictness: KeyStrictness)
    ensures EntriesKeyed(AllEntries(complete, bands, strictness), GroupKey)
  {
    var es := AllEntries(complete, bands, strictness);
    forall i | 0 <= i < |es| ensures GroupKey(es[i].item) == es[i].key {
      var o := AllEntryOrigin(complete, bands, strictness, i);
    }
  }

  // ---------------------------------------------------------------------
  // What the component lists
  // ---------------------------------------------------------------------

  /** Before the sort, `seen` matches the groups' id bags, none twice. */
  lemma UnsortedKeyed(tracks: seq<Track>, strictness: KeyStrictness)
    ensures Keyed(PushAll(Progress([], {}), AllEntries(CompleteTracks(tracks), Bands(CompleteTracks(tracks)), strictness)),
                  GroupKey)
  {
    var complete := CompleteTracks(tracks);
    AllEntriesKeyed(complete, Bands(complete), strictness);
    PushAllKeyed(Progress([], {}), AllEntries(complete, Bands(complete), strictness), GroupKey);
  }

  /** Every group before the sort is one built for a band and a key of the collection. */
  lemma UnsortedIsGroup(tracks: seq<Track>, strictness: KeyStrictness, n: nat)
    requires n < |UnsortedGroups(tracks, strictness)|
    ensures IsGroup(UnsortedGroups(tracks, strictness)[n], CompleteTracks(tracks), strictness)
  {
    var complete := CompleteTracks(tracks);
    var es := AllEntries(complete, Bands(complete), strictness);
    var i := PushedFrom(Progress([], {}), es, n);
    var o := AllEntryOrigin(complete, Bands(complete), strictness, i);
    MakeGroupIsGroup(complete, o.band, o.root, strictness);
  }

  /**
   * Every listed group is a group of the complete tracks: two or more
   * tracks of one band around one root key, with its keys and tempo range.
   */
  lemma GroupsAreGroups(tracks: seq<Track>, strictness: KeyStrictness)
    ensures forall g :: g in Groups(tracks, strictness) ==> IsGroup(g, CompleteTracks(tracks), strictness)
  {
    var unsorted := UnsortedGroups(tracks, strictness);
    forall g | g in Groups(tracks, strictness) ensures IsGroup(g, CompleteTracks(tracks), strictness) {
      assert g in multiset(unsorted);
      var n :| 0 <= n < |unsorted| && unsorted[n] == g;
      UnsortedIsGroup(tracks, strictness, n);
    }
  }

  /** No two listed groups hold the same tracks. */
  lemma GroupsDistinct(tracks: seq<Track>, strictness: KeyStrictness)
    ensures forall i, j :: 0 <= i < j < |Groups(tracks, strictness)| ==>
      IdBag(Groups(tracks, strictness)[i].tracks) != IdBag(Groups(tracks, strictness)[j].tracks)
  {
    var groups := Groups(tracks, strictness);
    UnsortedKeyed(tracks, strictness);
    ReorderKeepsKeysDistinct(groups, UnsortedGroups(tracks, strictness), GroupKey);
    forall i, j | 0 <= i < j < |groups| ensures IdBag(groups[i].tracks) != IdBag(groups[j].tracks) {
      assert KeysBy(groups, GroupKey)[i] != KeysBy(groups, GroupKey)[j];
    }
  }

  /** Groups are listed largest first. */
  lemma GroupsBySize(tracks: seq<Track>, strictness: KeyStrictness)
    ensures forall i, j :: 0 <= i < j < |Groups(tracks, strictness)| ==>
      |Groups(tracks, strictness)[i].tracks| >= |Groups(tracks, strictness)[j].tracks|
  {
    SortByIsSorted(UnsortedGroups(tracks, strictness), SizeKey);
  }

  /** A band and root with two or more candidates left a group with exactly those tracks before the sort. */
  lemma UnsortedCovers(tracks: seq<Track>, strictness: KeyStrictness, band: int, root: CamelotKey) returns (n: nat)
    requires band in Bands(CompleteTracks(tracks)) && root in CollectionKeys(CompleteTracks(tracks))
    requires |Candidates(CompleteTracks(tracks), band, root, strictness)| >= 2
    ensures n < |UnsortedGroups(tracks, strictness)|
    ensures GroupKey(UnsortedGroups(tracks, strictness)[n]) == IdBag(Candidates(CompleteTracks(tracks), band, root, strictness))
  {
    var complete := CompleteTracks(tracks);
    var bands := Bands(complete);
    var es := AllEntries(complete, bands, strictness);
    var q := PushAll(Progress([], {}), es);
    var k :| 0 <= k < |bands| && bands[k] == band;
    var i := AllEntryPresent(complete, bands, strictness, k, root);
    PushAllSeen(Progress([], {}), es);
    UnsortedKeyed(tracks, strictness);
    n := SeenKeyHasGroup(q, GroupKey, es[i].key);
    assert UnsortedGroups(tracks, strictness) == q.groups;
  }

  /**
   * No group is missed: for every complete track's band and every key of the
   * collection taken as root, if two or more tracks of that band lie around
   * the root, some listed group holds exactly those tracks.
   */
  lemma GroupsCoverBands(tracks: seq<Track>, strictness: KeyStrictness, t: Track, root: CamelotKey)
    requires t in CompleteTracks(tracks) && root in CollectionKeys(CompleteTracks(tracks))
    requires |Candidates(CompleteTracks(tracks), Band(t), root, strictness)| >= 2
    ensures exists g :: (g in Groups(tracks, strictness)
      && IdBag(g.tracks) == IdBag(Candidates(CompleteTracks(tracks), Band(t), root, strictness)))
  {
    var complete := CompleteTracks(tracks);
    BandsSpec(complete, Band(t));
    var i :| 0 <= i < |complete| && complete[i] == t;
    var unsorted := UnsortedGroups(tracks, strictness);
    var n := UnsortedCovers(tracks, strictness, Band(t), root);
    assert unsorted[n] in multiset(Groups(tracks, strictness));
  }

  /**
   * One root of the inner loop: the band's tracks whose key neighbours the
   * root; fewer than two, or a track set already seen, are skipped.
   */
  method RootStep(bandTracks: seq<Track>, root: CamelotKey, allCamelots: seq<CamelotKey>, strictness: KeyStrictness,
                  result0: seq<Group>, seen0: set<multiset<string>>)
    returns (result: seq<Group>, seen: set<multiset<string>>)
    ensures Progress(result, seen) == PushAll(Progress(result0, seen0), RootEntries(bandTracks, root, allCamelots, strictness))
  {
    result, seen := result0, seen0;
    var groupTracks := WithKeyIn(bandTracks, GetNeighbors(root, strictness));
    if |groupTracks| < 2 {
      return;
    }
    var trackKey := IdBag(groupTracks);
    if trackKey in seen {
      return;
    }
    seen := seen + {trackKey};
    result := result + [MakeGroup(groupTracks, root, strictness, allCamelots)];
  }

  /** Root `j` of the inner loop extends the progress over the roots before it. */
  method RootStepAt(bandTracks: seq<Track>, roots: seq<CamelotKey>, j: nat, allCamelots: seq<CamelotKey>,
                    strictness: KeyStrictness, ghost p0: Progress<multiset<string>, Group>,
                    result0: seq<Group>, seen0: set<multiset<string>>)
    returns (result: seq<Group>, seen: set<multiset<string>>)
    requires j < |roots|
    requires Progress(result0, seen0) == PushAll(p0, BandEntries(bandTracks, roots[..j], allCamelots, strictness))
    ensures Progress(result, seen) == PushAll(p0, BandEntries(bandTracks, roots[..j + 1], allCamelots, strictness))
  {
    BandEntriesStep(p0, bandTracks, roots, j, allCamelots, strictness);
    result, seen := RootStep(bandTracks, roots[j], allCamelots, strictness, result0, seen0);
  }

  /**
   * The inner loop for one band with tracks: every collection key in turn as
   * the root, pushing each new group of two or more tracks.
   */
  method GroupBand(bandTracks: seq<Track>, allCamelots: seq<CamelotKey>, strictness: KeyStrictness,
                   result0: seq<Group>, seen0: set<multiset<string>>)
    returns (result: seq<Group>, seen: set<multiset<string>>)
    ensures Progress(result, seen) == PushAll(Progress(result0, seen0), BandEntries(bandTracks, allCamelots, allCamelots, strictness))
  {
    result, seen := result0, seen0;
    for j := 0 to |allCamelots|
      invariant Progress(result, seen)
        == PushAll(Progress(result0, seen0), BandEntries(bandTracks, allCamelots[..j], allCamelots, strictness))
    {
      result, seen := RootStepAt(bandTracks, allCamelots, j, allCamelots, strictness, Progress(result0, seen0), result, seen);
    }
    assert allCamelots[..|allCamelots|] == allCamelots;
  }

  /** The outer loop over the bands, in the given order, pushing onto an initially empty result. */
  method GroupBands(complete: seq<Track>, bands: seq<int>, allCamelots: seq<CamelotKey>, strictness: KeyStrictness)
    returns (result: seq<Group>)
    requires allCamelots == CollectionKeys(complete)
    ensures result == PushAll(Progress([], {}), AllEntries(complete, bands, strictness)).groups
  {
    result := [];
    var seen: set<multiset<string>> := {};
    for bi := 0 to |bands|
      invariant Progress(result, seen) == PushAll(Progress([], {}), AllEntries(complete, bands[..bi], strictness))
    {
      ghost var p := Progress(result, seen);
      var bandTracks := InBand(complete, bands[bi]);
      if |bandTracks| != 0 {
        result, seen := GroupBand(bandTracks, allCamelots, strictness, result, seen);
      }
      BandStepMatches(Progress([], {}), complete, bands[..bi], bands[bi], strictness, p, Progress(result, seen));
      assert bands[..bi + 1] == bands[..bi] + [bands[bi]];
    }
    assert bands[..|bands|] == bands;
  }

  /**
   * The `useMemo` computation in MixableGroups, loop for loop: the bands in
   * ascending order, within each every collection key as a root, pushing each
   * new group of two or more tracks, then the sort by decreasing size.
   */
  method ComputeGroups(tracks: seq<Track>, strictness: KeyStrictness) returns (groups: seq<Group>)
    ensures groups == Groups(tracks, strictness)
  {
    var complete := CompleteTracks(tracks);
    var result := GroupBands(complete, Bands(complete), CollectionKeys(complete), strictness);
    groups := SortBy(result, SizeKey);
  }
}
