/**
 * The typed half of collection ingestion (lib/xmlParser.ts): reading a track's
 * attributes by alias, building a `Track`, its content hash id, counting
 * playlists in the folder tree and resolving a playlist's track ids.
 *
 * The XML parsing that produces attribute lists and playlist trees is not
 * modelled; its results are the inputs here.
 */
module Collection {
  import opened Wrappers
  import opened Text
  import opened Camelot
  import opened KeyNormalization

  // ---------------------------------------------------------------------
  // Tracks
  // ---------------------------------------------------------------------

  /**
   * A track as the rest of the program sees it. `camelot` is the wheel key the
   * normaliser found (the source stores its text, `KeyText`).
   */
  datatype Track = Track(
    id: string,
    title: string,
    artist: string,
    bpm: Option<real>,
    rawKey: Option<string>,
    canonicalKey: Option<string>,
    camelot: Option<CamelotKey>,
    prettyKey: string,
    isComplete: bool)

  /** `track.bpm!` in arithmetic: a null tempo counts as 0. */
  function TempoOf(t: Track): real {
    t.bpm.GetOr(0.0)
  }

  /** `tracks.filter(t => t.isComplete)`. */
  function CompleteTracks(tracks: seq<Track>): (r: seq<Track>)
    ensures |r| <= |tracks|
    ensures forall t :: t in r <==> t in tracks && t.isComplete
  {
    if tracks == [] then []
    else (if tracks[0].isComplete then [tracks[0]] else []) + CompleteTracks(tracks[1..])
  }

  /** One attribute of a TRACK element: its name and its value (None for null or undefined). */
  datatype Attr = Attr(name: string, value: Option<string>)

  /** `String(attrs[key] ?? '').trim()`. */
  function AttrText(a: Attr): string {
    Trim(a.value.GetOr(""))
  }

  /** A value `getAttr` accepts: not empty and not a placeholder. */
  predicate Usable(v: string) {
    v != "" && v != "NA" && v != "None"
  }

  /** Attribute `j` answers to `name` (case-insensitively) and has a usable value. */
  predicate Hit(attrs: seq<Attr>, name: string, j: int)
    requires 0 <= j < |attrs|
  {
    Lower(attrs[j].name) == Lower(name) && Usable(AttrText(attrs[j]))
  }

  /** The inner loop of `getAttr`: the first attribute from `from` on that answers to `name` with a usable value. */
  function FindAttr(attrs: seq<Attr>, name: string, from: nat): (r: Option<nat>)
    requires from <= |attrs|
    ensures r.Some? ==> from <= r.value < |attrs|
    decreases |attrs| - from
  {
    if from == |attrs| then None
    else if Hit(attrs, name, from) then Some(from)
    else FindAttr(attrs, name, from + 1)
  }

  /** `FindAttr` finds the first hit from `from` on, and reports none only when there is none. */
  lemma FindAttrSpec(attrs: seq<Attr>, name: string, from: nat)
    requires from <= |attrs|
    ensures var r := FindAttr(attrs, name, from);
      && (r.Some? ==> Hit(attrs, name, r.value) && forall j :: from <= j < r.value ==> !Hit(attrs, name, j))
      && (r.None? ==> forall j :: from <= j < |attrs| ==> !Hit(attrs, name, j))
  {
    var flags := HitFlags(attrs, name);
    FindAttrIsFirstTrue(attrs, name, from);
    FirstTrueSpec(flags, from);
  }

  /** Which attributes are hits for `name`. */
  ghost function HitFlags(attrs: seq<Attr>, name: string): (r: seq<bool>)
    ensures |r| == |attrs| && forall j :: 0 <= j < |attrs| ==> r[j] == Hit(attrs, name, j)
  {
    seq(|attrs|, j requires 0 <= j < |attrs| => Hit(attrs, name, j))
  }

  /** The first `true` at or after `from`. */
  function FirstTrue(flags: seq<bool>, from: nat): Option<nat>
    requires from <= |flags|
    decreases |flags| - from
  {
    if from == |flags| then None
    else if flags[from] then Some(from)
    else FirstTrue(flags, from + 1)
  }

  lemma {:induction false} FirstTrueSpec(flags: seq<bool>, from: nat)
    requires from <= |flags|
    ensures var r := FirstTrue(flags, from);
      && (r.Some? ==> from <= r.value < |flags| && flags[r.value] && forall j :: from <= j < r.value ==> !flags[j])
      && (r.None? ==> forall j :: from <= j < |flags| ==> !flags[j])
    decreases |flags| - from
  {
    if from < |flags| && !flags[from] {
      FirstTrueSpec(flags, from + 1);
    }
  }

  lemma {:induction false} FindAttrIsFirstTrue(attrs: seq<Attr>, name: string, from: nat)
    requires from <= |attrs|
    ensures FindAttr(attrs, name, from) == FirstTrue(HitFlags(attrs, name), from)
    decreases |attrs| - from
  {
    if from < |attrs| {
      FindAttrIsFirstTrue(attrs, name, from + 1);
    }
  }

  /** The outer loop of `getAttr`: aliases in order, from index `from` on. */
  function GetAttrFrom(attrs: seq<Attr>, names: seq<string>, from: nat): (r: string)
    requires from <= |names|
    decreases |names| - from
  {
    if from == |names| then ""
    else
      match FindAttr(attrs, names[from], 0)
      case Some(j) => AttrText(attrs[j])
      case None => GetAttrFrom(attrs, names, from + 1)
  }

  /** `getAttr(attrs, ...names)`. */
  function GetAttr(attrs: seq<Attr>, names: seq<string>): string {
    GetAttrFrom(attrs, names, 0)
  }

  /** Pair (i, j) of alias and attribute comes before (i', j') in the loops' order. */
  predicate Before(i: int, j: int, i': int, j': int) {
    i < i' || (i == i' && j < j')
  }

  /** The outer loop comes back empty exactly when no alias from `from` on has a hit. */
  lemma {:induction false} GetAttrFromNone(attrs: seq<Attr>, names: seq<string>, from: nat)
    requires from <= |names|
    ensures GetAttrFrom(attrs, names, from) == "" <==>
      forall i, j :: from <= i < |names| && 0 <= j < |attrs| ==> !Hit(attrs, names[i], j)
    decreases |names| - from
  {
    if from < |names| {
      FindAttrSpec(attrs, names[from], 0);
      match FindAttr(attrs, names[from], 0)
      case Some(j) =>
        assert Hit(attrs, names[from], j);
        assert GetAttrFrom(attrs, names, from) == AttrText(attrs[j]);
      case None =>
        GetAttrFromNone(attrs, names, from + 1);
        assert GetAttrFrom(attrs, names, from) == GetAttrFrom(attrs, names, from + 1);
        if GetAttrFrom(attrs, names, from) == "" {
          forall i, j | from <= i < |names| && 0 <= j < |attrs| ensures !Hit(attrs, names[i], j) {
            if i > from {
              assert from + 1 <= i;
            }
          }
        }
    }
  }

  /** A non-empty answer comes from a hit, and no (alias, attribute) pair before it is one. */
  lemma {:induction false} GetAttrFromFirst(attrs: seq<Attr>, names: seq<string>, from: nat) returns (i: nat, j: nat)
    requires from <= |names| && GetAttrFrom(attrs, names, from) != ""
    ensures from <= i < |names| && j < |attrs| && Hit(attrs, names[i], j)
    ensures GetAttrFrom(attrs, names, from) == AttrText(attrs[j])
    ensures forall i', j' :: from <= i' < |names| && 0 <= j' < |attrs| && Before(i', j', i, j) ==> !Hit(attrs, names[i'], j')
    decreases |names| - from
  {
    FindAttrSpec(attrs, names[from], 0);
    match FindAttr(attrs, names[from], 0)
    case Some(k) =>
      i, j := from, k;
      forall i', j' | from <= i' < |names| && 0 <= j' < |attrs| && Before(i', j', i, j)
        ensures !Hit(attrs, names[i'], j')
      {
        assert i' == from && j' < k;
      }
    case None =>
      assert GetAttrFrom(attrs, names, from) == GetAttrFrom(attrs, names, from + 1);
      i, j := GetAttrFromFirst(attrs, names, from + 1);
      forall i', j' | from <= i' < |names| && 0 <= j' < |attrs| && Before(i', j', i, j)
        ensures !Hit(attrs, names[i'], j')
      {
        if i' == from {
          assert 0 <= j' < |attrs|;
        } else {
          assert from + 1 <= i';
        }
      }
  }

  /**
   * `getAttr` returns the value of the first (alias, attribute) pair, aliases
   * in argument order and attributes in their own order, whose names agree
   * ignoring case and whose trimmed value is usable; '' when there is none.
   */
  lemma GetAttrSpec(attrs: seq<Attr>, names: seq<string>)
    ensures var r := GetAttr(attrs, names);
      && (r == "" <==> forall i, j :: 0 <= i < |names| && 0 <= j < |attrs| ==> !Hit(attrs, names[i], j))
      && (r != "" ==> exists i, j :: 0 <= i < |names| && 0 <= j < |attrs| && Hit(attrs, names[i], j) && r == AttrText(attrs[j])
                        && forall i', j' :: 0 <= i' < |names| && 0 <= j' < |attrs| && Before(i', j', i, j) ==> !Hit(attrs, names[i'], j'))
  {
    GetAttrFromNone(attrs, names, 0);
    if GetAttr(attrs, names) != "" {
      var i, j := GetAttrFromFirst(attrs, names, 0);
    }
  }

  /** Whatever `getAttr` returns is usable or empty. */
  lemma GetAttrUsable(attrs: seq<Attr>, names: seq<string>)
    ensures GetAttr(attrs, names) == "" || Usable(GetAttr(attrs, names))
  {
    if GetAttr(attrs, names) != "" {
      var i, j := GetAttrFromFirst(attrs, names, 0);
    }
  }

  const TitleNames: seq<string> := ["Name", "NAME", "Title", "TITLE"]
  const ArtistNames: seq<string> := ["Artist", "ARTIST"]
  const BpmNames: seq<string> := ["AverageBpm", "BPM", "averagebpm"]
  const KeyNames: seq<string> := ["Tonality", "TONALITY", "Key", "KEY"]

  // ---------------------------------------------------------------------
  // hashStr
  // ---------------------------------------------------------------------

  const TwoTo32: int := 0x1_0000_0000
  const TwoTo31: int := 0x8000_0000

  /** ECMAScript ToInt32: the value modulo 2^32, read as a signed 32-bit integer (`x | 0`, `Math.imul`). */
  function ToInt32(x: int): (r: int)
    ensures -TwoTo31 <= r < TwoTo31
    ensures (r - x) % TwoTo32 == 0
  {
    (x + TwoTo31) % TwoTo32 - TwoTo31
  }

  /** The UTF-16 code units of a string (`charCodeAt` reads these). */
  function Utf16Units(s: string): (r: seq<int>)
    ensures forall k :: 0 <= k < |r| ==> 0 <= r[k] < 0x1_0000
    ensures |s| <= |r|
  {
    if s == [] then []
    else
      var c := s[0] as int;
      (if c < 0x1_0000 then [c] else [0xD800 + (c - 0x1_0000) / 0x400, 0xDC00 + (c - 0x1_0000) % 0x400])
        + Utf16Units(s[1..])
  }

  /** One step of the loop: `h = (Math.imul(31, h) + unit) | 0`. */
  function HashStep(h: int, unit: int): int {
    ToInt32(ToInt32(31 * h) + unit)
  }

  /** The hash of the code units, folded left to right from 0. */
  function HashUnits(units: seq<int>): (h: int)
    ensures -TwoTo31 <= h < TwoTo31
  {
    if units == [] then 0 else HashStep(HashUnits(units[..|units| - 1]), units[|units| - 1])
  }

  /** The polynomial hash `Σ units[k] · 31^(n-1-k)` in unbounded integers. */
  function Polynomial(units: seq<int>): int {
    if units == [] then 0 else 31 * Polynomial(units[..|units| - 1]) + units[|units| - 1]
  }

  lemma MultipleSum(x: int, y: int)
    requires x % TwoTo32 == 0 && y % TwoTo32 == 0
    ensures (x + y) % TwoTo32 == 0
  {
    var i, j := x / TwoTo32, y / TwoTo32;
    assert x + y == (i + j) * TwoTo32;
  }

  lemma MultipleTimes31(x: int)
    requires x % TwoTo32 == 0
    ensures (31 * x) % TwoTo32 == 0
  {
    var i := x / TwoTo32;
    assert 31 * x == (31 * i) * TwoTo32;
  }

  lemma CongruentStep(h: int, p: int, u: int)
    requires (h - p) % TwoTo32 == 0
    ensures (HashStep(h, u) - (31 * p + u)) % TwoTo32 == 0
  {
    var a := ToInt32(31 * h);
    var b := HashStep(h, u);
    MultipleTimes31(h - p);
    assert 31 * (h - p) == 31 * h - 31 * p;
    MultipleSum(a - 31 * h, 31 * h - 31 * p);
    MultipleSum(b - (a + u), a - 31 * p);
    assert b - (31 * p + u) == (b - (a + u)) + (a - 31 * p);
  }

  /** The 32-bit wrapping hash agrees with the polynomial hash modulo 2^32. */
  lemma {:induction false} HashIsPolynomial(units: seq<int>)
    ensures (HashUnits(units) - Polynomial(units)) % TwoTo32 == 0
  {
    if units != [] {
      var init := units[..|units| - 1];
      HashIsPolynomial(init);
      CongruentStep(HashUnits(init), Polynomial(init), units[|units| - 1]);
    }
  }

  function Base36Digit(d: int): (c: char)
    requires 0 <= d < 36
  {
    if d < 10 then ('0' as int + d) as char else ('a' as int + d - 10) as char
  }

  predicate IsBase36Digit(c: char) {
    '0' <= c <= '9' || 'a' <= c <= 'z'
  }

  function Base36DigitValue(c: char): (d: int)
    requires IsBase36Digit(c)
    ensures 0 <= d < 36
  {
    if c <= '9' then c as int - '0' as int else c as int - 'a' as int + 10
  }

  /** `n.toString(36)`. */
  function NatToBase36(n: nat): (r: string)
    ensures r != [] && forall k :: 0 <= k < |r| ==> IsBase36Digit(r[k])
    ensures |r| > 1 ==> r[0] != '0'
  {
    if n < 36 then [Base36Digit(n)] else NatToBase36(n / 36) + [Base36Digit(n % 36)]
  }

  function Base36Value(s: string): nat
    requires forall k :: 0 <= k < |s| ==> IsBase36Digit(s[k])
  {
    if s == [] then 0 else 36 * Base36Value(s[..|s| - 1]) + Base36DigitValue(s[|s| - 1])
  }

  /** Reading the base-36 rendering back gives the number. */
  lemma {:induction false} Base36RoundTrip(n: nat)
    ensures Base36Value(NatToBase36(n)) == n
  {
    if n >= 36 {
      var s := NatToBase36(n);
      assert s[..|s| - 1] == NatToBase36(n / 36);
      Base36RoundTrip(n / 36);
    }
  }

  /** `hashStr(s)`: `Math.abs(h).toString(36)`. */
  function HashStr(s: string): (r: string)
    ensures r != [] && forall k :: 0 <= k < |r| ==> IsBase36Digit(r[k])
  {
    var h := HashUnits(Utf16Units(s));
    NatToBase36(if h < 0 then -h else h)
  }

  /** A signed 32-bit value congruent to `p` modulo 2^32 is `ToInt32(p)`. */
  lemma ToInt32OfCongruent(h: int, p: int)
    requires -TwoTo31 <= h < TwoTo31 && (h - p) % TwoTo32 == 0
    ensures ToInt32(p) == h
  {
    var k := (h - p) / TwoTo32;
    assert p + TwoTo31 == (h + TwoTo31) + (-k) * TwoTo32;
  }

  /** The id reads back as the magnitude of the polynomial hash reduced to a signed 32-bit value. */
  lemma HashStrMeaning(s: string)
    ensures Base36Value(HashStr(s)) == Abs(ToInt32(Polynomial(Utf16Units(s))))
    ensures Base36Value(HashStr(s)) <= TwoTo31
  {
    var units := Utf16Units(s);
    var h := HashUnits(units);
    HashIsPolynomial(units);
    ToInt32OfCongruent(h, Polynomial(units));
    Base36RoundTrip(if h < 0 then -h else h);
  }

  // ---------------------------------------------------------------------
  // buildTrack
  // ---------------------------------------------------------------------

  /** `${v}` of a string that may be null. */
  function TextOrNull(v: Option<string>): string {
    match v
    case Some(s) => s
    case None => "null"
  }

  /** The text the id hashes: `${title}|${artist}|${bpmRaw}|${rawKey}`. */
  function IdText(title: string, artist: string, bpmRaw: string, rawKey: Option<string>): string {
    title + "|" + artist + "|" + bpmRaw + "|" + TextOrNull(rawKey)
  }

  /** `s || fallback`. */
  function OrElse(s: string, fallback: string): string {
    if s == "" then fallback else s
  }

  /**
   * The invariant every built track satisfies: named, a found key comes with
   * its canonical name and raw text, a present tempo is never zero, and an
   * incomplete track lacks a tempo or a key.
   */
  predicate WellFormedTrack(t: Track) {
    && t.title != "" && t.artist != ""
    && (t.isComplete ==> t.camelot.Some?)
    && (t.camelot.Some? ==> t.canonicalKey.Some? && t.rawKey.Some?)
    && (t.canonicalKey.Some? ==> t.canonicalKey.value != "")
    && (t.rawKey.Some? ==> t.rawKey.value != "")
    && (t.bpm.Some? ==> t.bpm.value != 0.0)
    && (!t.isComplete ==> t.bpm.None? || t.camelot.None?)
  }

  /**
   * `buildTrack(attrs, rbId)`. `parseFloat` is the engine's number parser,
   * None standing for NaN; `rbId` is not used, as in the source.
   */
  function BuildTrack(attrs: seq<Attr>, rbId: string, parseFloat: string -> Option<real>): (r: Track)
    ensures WellFormedTrack(r)
  {
    var title := OrElse(GetAttr(attrs, TitleNames), "Unknown Title");
    var artist := OrElse(GetAttr(attrs, ArtistNames), "Unknown Artist");
    var bpmRaw := GetAttr(attrs, BpmNames);
    var parsed: Option<Option<real>> := if bpmRaw != "" then Some(parseFloat(bpmRaw)) else None;
    var keyText := GetAttr(attrs, KeyNames);
    var rawKey := if keyText != "" then Some(keyText) else None;
    var normalized := NormalizeKey(rawKey);
    NormalizedKeyFields(rawKey);
    var isComplete := parsed.Some? && parsed.value.Some? && normalized.camelot.Some?;
    var id := HashStr(IdText(title, artist, bpmRaw, rawKey));
    Track(
      id,
      title,
      artist,
      if parsed.Some? && parsed.value.Some? && parsed.value.value != 0.0 then parsed.value else None,
      rawKey,
      if normalized.canonicalKey != "" then Some(normalized.canonicalKey) else None,
      normalized.camelot,
      normalized.prettyKey,
      isComplete)
  }

  /**
   * The fields of a built track in terms of what `getAttr` found: defaults for
   * a missing title or artist, the key text as found, the normaliser's key,
   * the id hashed from the metadata, completeness exactly when
   * the tempo parses and a key is found, and no tempo when it is missing,
   * unparsable or zero.
   */
  lemma BuildTrackFields(attrs: seq<Attr>, rbId: string, parseFloat: string -> Option<real>)
    ensures var r := BuildTrack(attrs, rbId, parseFloat);
      var bpmRaw := GetAttr(attrs, BpmNames);
      var keyText := GetAttr(attrs, KeyNames);
      var rawKey := if keyText != "" then Some(keyText) else None;
      && (GetAttr(attrs, TitleNames) == "" ==> r.title == "Unknown Title")
      && (GetAttr(attrs, TitleNames) != "" ==> r.title == GetAttr(attrs, TitleNames))
      && (GetAttr(attrs, ArtistNames) != "" ==> r.artist == GetAttr(attrs, ArtistNames))
      && (GetAttr(attrs, ArtistNames) == "" ==> r.artist == "Unknown Artist")
      && r.camelot == NormalizeKey(rawKey).camelot
      && r.prettyKey == NormalizeKey(rawKey).prettyKey
      && r.rawKey == rawKey
      && (r.canonicalKey.None? <==> NormalizeKey(rawKey).canonicalKey == "")
      && (NormalizeKey(rawKey).canonicalKey != "" ==> r.canonicalKey == Some(NormalizeKey(rawKey).canonicalKey))
      && r.id == HashStr(IdText(r.title, r.artist, bpmRaw, rawKey))
      && (r.isComplete <==> bpmRaw != "" && parseFloat(bpmRaw).Some? && r.camelot.Some?)
      && (r.bpm.None? <==> bpmRaw == "" || parseFloat(bpmRaw).None? || parseFloat(bpmRaw) == Some(0.0))
      && (r.bpm.Some? ==> r.bpm == parseFloat(bpmRaw))
      && (r.rawKey.None? ==> r.camelot.None? && r.prettyKey == "")
  {
    var keyText := GetAttr(attrs, KeyNames);
    var rawKey := if keyText != "" then Some(keyText) else None;
    NormalizeBlank(rawKey);
  }

  /** A tempo that parses to 0 leaves the track without a tempo yet complete. */
  lemma ZeroTempoStillComplete(attrs: seq<Attr>, rbId: string, parseFloat: string -> Option<real>)
    requires GetAttr(attrs, BpmNames) != "" && parseFloat(GetAttr(attrs, BpmNames)) == Some(0.0)
    requires BuildTrack(attrs, rbId, parseFloat).camelot.Some?
    ensures BuildTrack(attrs, rbId, parseFloat).isComplete && BuildTrack(attrs, rbId, parseFloat).bpm.None?
  {
  }

  /**
   * A track is determined by its title, artist, tempo text and key text:
   * equal metadata gives an equal id and, with the same number parser, an
   * equal track. Only a hash collision lets two different tracks share an id.
   */
  lemma TrackFromMetadata(a1: seq<Attr>, a2: seq<Attr>, id1: string, id2: string,
                          pf1: string -> Option<real>, pf2: string -> Option<real>)
    requires GetAttr(a1, TitleNames) == GetAttr(a2, TitleNames)
    requires GetAttr(a1, ArtistNames) == GetAttr(a2, ArtistNames)
    requires GetAttr(a1, BpmNames) == GetAttr(a2, BpmNames)
    requires GetAttr(a1, KeyNames) == GetAttr(a2, KeyNames)
    ensures BuildTrack(a1, id1, pf1).id == BuildTrack(a2, id2, pf2).id
    ensures BuildTrack(a1, id1, pf1).id ==
      HashStr(IdText(OrElse(GetAttr(a1, TitleNames), "Unknown Title"), OrElse(GetAttr(a1, ArtistNames), "Unknown Artist"),
                     GetAttr(a1, BpmNames), if GetAttr(a1, KeyNames) != "" then Some(GetAttr(a1, KeyNames)) else None))
    ensures pf1 == pf2 ==> BuildTrack(a1, id1, pf1) == BuildTrack(a2, id2, pf2)
  {
  }

  // ---------------------------------------------------------------------
  // Playlist tree
  // ---------------------------------------------------------------------

  datatype NodeType = Folder | Playlist

  /** A folder or playlist; `trackIds` is only populated for playlists. */
  datatype PlaylistNode = PlaylistNode(id: string, name: string, kind: NodeType, trackIds: seq<string>, children: seq<PlaylistNode>)

  /** `countPlaylists`: playlist nodes anywhere in the forest. */
  function CountPlaylists(nodes: seq<PlaylistNode>): nat
    decreases nodes
  {
    if nodes == [] then 0
    else
      (if nodes[0].kind == Playlist then 1 else 0) + CountPlaylists(nodes[0].children) + CountPlaylists(nodes[1..])
  }

  /** Some node of the forest, at any depth, is a playlist. */
  ghost predicate ContainsPlaylist(nodes: seq<PlaylistNode>)
    decreases nodes
  {
    exists i :: 0 <= i < |nodes| && (nodes[i].kind == Playlist || ContainsPlaylist(nodes[i].children))
  }

  lemma {:induction false} CountPlaylistsPositive(nodes: seq<PlaylistNode>)
    ensures CountPlaylists(nodes) > 0 <==> ContainsPlaylist(nodes)
    decreases nodes
  {
    if nodes != [] {
      CountPlaylistsPositive(nodes[0].children);
      CountPlaylistsPositive(nodes[1..]);
      if ContainsPlaylist(nodes[1..]) {
        var i :| 0 <= i < |nodes[1..]| && (nodes[1..][i].kind == Playlist || ContainsPlaylist(nodes[1..][i].children));
        assert nodes[1..][i] == nodes[i + 1];
      }
      if ContainsPlaylist(nodes) {
        var i :| 0 <= i < |nodes| && (nodes[i].kind == Playlist || ContainsPlaylist(nodes[i].children));
        if i > 0 {
          assert nodes[1..][i - 1] == nodes[i];
        }
      }
    }
  }

  /** `playlists.length > 0 && countPlaylists(playlists) > 0`. */
  predicate HasPlaylists(playlists: seq<PlaylistNode>) {
    |playlists| > 0 && CountPlaylists(playlists) > 0
  }

  /** The collection has playlists exactly when a playlist node occurs somewhere in the tree. */
  lemma HasPlaylistsMeaning(playlists: seq<PlaylistNode>)
    ensures HasPlaylists(playlists) <==> ContainsPlaylist(playlists)
  {
    CountPlaylistsPositive(playlists);
  }

  // ---------------------------------------------------------------------
  // resolvePlaylistTracks
  // ---------------------------------------------------------------------

  /** The ids the map knows, in order, repeats kept. */
  function KnownIds(ids: seq<string>, trackById: map<string, Track>): (r: seq<string>)
    ensures |r| <= |ids|
    ensures forall k :: 0 <= k < |r| ==> r[k] in trackById
  {
    if ids == [] then []
    else
      (if ids[0] in trackById then [ids[0]] else []) + KnownIds(ids[1..], trackById)
  }

  /** Each known id appears as often as in the playlist; unknown ids not at all. */
  lemma {:induction false} KnownIdsCounts(ids: seq<string>, trackById: map<string, Track>, x: string)
    ensures multiset(KnownIds(ids, trackById))[x] == if x in trackById then multiset(ids)[x] else 0
  {
    if ids != [] {
      KnownIdsCounts(ids[1..], trackById, x);
      assert ids == [ids[0]] + ids[1..];
    }
  }

  lemma {:induction false} KnownIdsAppend(ids: seq<string>, x: string, trackById: map<string, Track>)
    ensures KnownIds(ids + [x], trackById) == KnownIds(ids, trackById) + (if x in trackById then [x] else [])
    decreases |ids|
  {
    if ids == [] {
      assert [] + [x] == [x];
      assert [x][1..] == [];
    } else {
      assert (ids + [x])[1..] == ids[1..] + [x];
      KnownIdsAppend(ids[1..], x, trackById);
    }
  }

  /**
   * `resolvePlaylistTracks`: the tracks of the playlist's ids that the map
   * knows, in playlist order, a repeated id giving its track again.
   */
  method ResolvePlaylistTracks(node: PlaylistNode, trackById: map<string, Track>) returns (tracks: seq<Track>)
    ensures var known := KnownIds(node.trackIds, trackById);
      |tracks| == |known| && forall k :: 0 <= k < |tracks| ==> tracks[k] == trackById[known[k]]
    ensures |tracks| <= |node.trackIds|
  {
    tracks := [];
    var i := 0;
    while i < |node.trackIds|
      invariant 0 <= i <= |node.trackIds|
      invariant var known := KnownIds(node.trackIds[..i], trackById);
        |tracks| == |known| && forall k :: 0 <= k < |tracks| ==> tracks[k] == trackById[known[k]]
    {
      var rbId := node.trackIds[i];
      assert node.trackIds[..i + 1] == node.trackIds[..i] + [rbId];
      KnownIdsAppend(node.trackIds[..i], rbId, trackById);
      var t := Lookup(trackById, rbId);
      if t.Some? {
        tracks := tracks + [t.value];
      }
      i := i + 1;
    }
    assert node.trackIds[..i] == node.trackIds;
  }
}
