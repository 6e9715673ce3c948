/**
 * The Camelot wheel (lib/camelot.ts): 24 keys, numbers 1..12 on a minor
 * ring A and a major ring B, the table from each key to its tonic and mode,
 * the reverse table from key names to wheel keys, the number/letter
 * accessors on Camelot text and the circular distance.
 */
module Camelot {
  import opened Wrappers
  import opened Text

  /** The two rings of the wheel: A is the minor ring, B the major ring. */
  datatype Letter = A | B

  type WheelNumber = n: int | 1 <= n <= 12 witness 1

  /** A wheel position such as 8A; the source spells it as the text KeyText(c). */
  datatype CamelotKey = CamelotKey(number: WheelNumber, letter: Letter)

  datatype Mode = Major | Minor

  /** One entry of the table: tonic spelled with sharps, mode, display form, accepted names. */
  datatype KeyInfo = KeyInfo(tonic: string, mode: Mode, pretty: string, synonyms: seq<string>)

  function LetterChar(l: Letter): char {
    match l
    case A => 'A'
    case B => 'B'
  }

  function ModeName(m: Mode): string {
    match m
    case Major => "MAJOR"
    case Minor => "MINOR"
  }

  /** The Camelot text of a key: "8A", "12B". */
  function KeyText(c: CamelotKey): string {
    NatToString(c.number) + [LetterChar(c.letter)]
  }

  /**
   * A table entry: the accepted names are "TONIC MODE" and, for a black key,
   * the flat spelling "FLAT MODE" as well (for instance "G# MINOR", "AB MINOR").
   */
  function Entry(tonic: string, mode: Mode, pretty: string, flat: Option<string>): KeyInfo {
    var name := tonic + " " + ModeName(mode);
    KeyInfo(tonic, mode, pretty, if flat.Some? then [name, flat.value + " " + ModeName(mode)] else [name])
  }

  /** The A ring of the table, entries 1A..12A in order. */
  const MinorRing: seq<KeyInfo> := [
    Entry("G#", Minor, "G#m / Abm", Some("AB")),
    Entry("D#", Minor, "D#m / Ebm", Some("EB")),
    Entry("A#", Minor, "A#m / Bbm", Some("BB")),
    Entry("F", Minor, "Fm", None),
    Entry("C", Minor, "Cm", None),
    Entry("G", Minor, "Gm", None),
    Entry("D", Minor, "Dm", None),
    Entry("A", Minor, "Am", None),
    Entry("E", Minor, "Em", None),
    Entry("B", Minor, "Bm", None),
    Entry("F#", Minor, "F#m / Gbm", Some("GB")),
    Entry("C#", Minor, "C#m / Dbm", Some("DB"))
  ]

  /** The B ring of the table, entries 1B..12B in order. */
  const MajorRing: seq<KeyInfo> := [
    Entry("B", Major, "B", None),
    Entry("F#", Major, "F# / Gb", Some("GB")),
    Entry("C#", Major, "C# / Db", Some("DB")),
    Entry("G#", Major, "G# / Ab", Some("AB")),
    Entry("D#", Major, "D# / Eb", Some("EB")),
    Entry("A#", Major, "A# / Bb", Some("BB")),
    Entry("F", Major, "F", None),
    Entry("C", Major, "C", None),
    Entry("G", Major, "G", None),
    Entry("D", Major, "D", None),
    Entry("A", Major, "A", None),
    Entry("E", Major, "E", None)
  ]

  /** `camelotToKey.get(c)`: the table entry of a wheel key. */
  function Info(c: CamelotKey): KeyInfo {
    match c.letter
    case A => MinorRing[c.number - 1]
    case B => MajorRing[c.number - 1]
  }

  /** The keys 1..n of one ring, in order. */
  function RingKeys(letter: Letter, n: nat): (r: seq<CamelotKey>)
    requires n <= 12
    ensures |r| == n
    ensures forall i :: 0 <= i < n ==> r[i] == CamelotKey(i + 1, letter)
  {
    if n == 0 then [] else RingKeys(letter, n - 1) + [CamelotKey(n, letter)]
  }

  /** The keys of the table in its insertion order: 1A..12A, then 1B..12B. */
  const AllKeys: seq<CamelotKey> := RingKeys(A, 12) + RingKeys(B, 12)

  /** The table has exactly the 24 keys, each once. */
  lemma AllKeysAreTheWheel()
    ensures |AllKeys| == 24
    ensures forall c: CamelotKey :: c in AllKeys
    ensures forall i, j :: 0 <= i < j < |AllKeys| ==> AllKeys[i] != AllKeys[j]
  {
    forall c: CamelotKey ensures c in AllKeys {
      var i := c.number - 1 + (if c.letter == A then 0 else 12);
      assert AllKeys[i] == c;
    }
  }

  // ---------------------------------------------------------------------
  // An independent reference for the table: the circle of fifths.
  // ---------------------------------------------------------------------

  /** Pitch class of a natural note letter (C = 0 ... B = 11). */
  function NaturalPitch(ch: char): Option<int> {
    match ch
    case 'C' => Some(0)
    case 'D' => Some(2)
    case 'E' => Some(4)
    case 'F' => Some(5)
    case 'G' => Some(7)
    case 'A' => Some(9)
    case 'B' => Some(11)
    case _ => None
  }

  /**
   * Pitch class of an upper-case tonic spelling: a note letter, optionally
   * followed by '#' (sharp) or 'B' (a flat 'b' after upper-casing).
   */
  function TonicPitch(t: string): (r: Option<int>)
    ensures r.Some? ==> 0 <= r.value < 12
  {
    if |t| == 0 || |t| > 2 || NaturalPitch(t[0]).None? then None
    else
      var natural := NaturalPitch(t[0]).value;
      assert 0 <= natural < 12;
      if |t| == 1 then Some(natural)
      else if t[1] == '#' then Some((natural + 1) % 12)
      else if t[1] == 'B' then Some((natural + 11) % 12)
      else None
  }

  /** The sharp spelling of every pitch class, indexed by pitch class. */
  const SharpNames: seq<string> := ["C", "C#", "D", "D#", "E", "F", "F#", "G", "G#", "A", "A#", "B"]

  /**
   * Where a key sits on the wheel: 8A is A minor, 8B is C major, and each
   * step clockwise rises a fifth (seven semitones; 7 is its own inverse mod 12).
   */
  function WheelPosition(pitch: int, mode: Mode): CamelotKey
    requires 0 <= pitch < 12
  {
    var tonicOfEight := if mode == Minor then 9 else 0;
    var steps := (7 * (pitch - tonicOfEight)) % 12;
    CamelotKey((steps + 7) % 12 + 1, if mode == Minor then A else B)
  }

  /** The flat spellings the table accepts besides the sharp ones (upper-cased, so "Db" is "DB"). */
  const FlatNames: set<string> := {"DB", "EB", "GB", "AB", "BB"}

  /** The inverse of WheelPosition on the pitch: the tonic's pitch class of a wheel key. */
  function PitchOfPosition(c: CamelotKey): (p: int)
    ensures 0 <= p < 12
  {
    var tonicOfEight := if c.letter == A then 9 else 0;
    (7 * (c.number - 8) + tonicOfEight) % 12
  }

  lemma PitchOfWheelPosition(p: int, mode: Mode)
    requires 0 <= p < 12
    ensures PitchOfPosition(WheelPosition(p, mode)) == p
  {
    var tonicOfEight := if mode == Minor then 9 else 0;
    var steps := (7 * (p - tonicOfEight)) % 12;
    var number := (steps + 7) % 12 + 1;
    assert PitchOfPosition(WheelPosition(p, mode)) == (7 * (number - 8) + tonicOfEight) % 12;
    // Seven semitones is its own inverse modulo 12 (7 * 7 = 49 = 4 * 12 + 1).
    var q := (7 * (p - tonicOfEight)) / 12;
    var k := (steps + 7) / 12;
    assert steps == 7 * (p - tonicOfEight) - 12 * q;
    assert number - 8 == steps - 12 * k;
    var m := 4 * (p - tonicOfEight) - 7 * q - 7 * k;
    assert 7 * (number - 8) + tonicOfEight == p + 12 * m;
    AddMultipleOfTwelve(p, m);
  }

  lemma AddMultipleOfTwelve(p: int, m: int)
    requires 0 <= p < 12
    ensures (p + 12 * m) % 12 == p
  {
  }

  /** The sharp spellings read back to their own pitch class. */
  lemma SharpNamesPitch(p: int)
    requires 0 <= p < 12
    ensures TonicPitch(SharpNames[p]) == Some(p)
  {
  }

  /** Reads a "TONIC MODE" name such as "G# MINOR" or "AB MAJOR" to its wheel key. */
  function NameToKey(name: string): Option<CamelotKey> {
    if |name| < 7 then None
    else
      var tonic := name[..|name| - 6];
      var modeWord := name[|name| - 6..];
      var pitch := TonicPitch(tonic);
      if pitch.None? then None
      else if modeWord == " MINOR" then Some(WheelPosition(pitch.value, Minor))
      else if modeWord == " MAJOR" then Some(WheelPosition(pitch.value, Major))
      else None
  }

  lemma NameToKeyOfParts(tonic: string, mode: Mode)
    requires TonicPitch(tonic).Some?
    ensures NameToKey(tonic + " " + ModeName(mode)) == Some(WheelPosition(TonicPitch(tonic).value, mode))
  {
    NameParts(tonic, mode);
    assert |tonic| >= 1;
    var word := " " + ModeName(mode);
    if mode == Minor {
      assert word == " MINOR";
    } else {
      assert word == " MAJOR" && word[2] != " MINOR"[2];
    }
  }

  /** What the table lemma states of the entry `info` at key `c`. */
  ghost predicate OnCircleOfFifths(c: CamelotKey, info: KeyInfo) {
    && info.mode == (if c.letter == A then Minor else Major)
    && |info.synonyms| >= 1
    && info.synonyms[0] == info.tonic + " " + ModeName(info.mode)
    && TonicPitch(info.tonic).Some?
    && info.tonic == SharpNames[TonicPitch(info.tonic).value]
    && WheelPosition(TonicPitch(info.tonic).value, info.mode) == c
    && (forall s :: s in info.synonyms ==> NameToKey(s) == Some(c))
    && forall s :: s in info.synonyms ==>
         && |s| >= 7
         && s[|s| - 6..] == " " + ModeName(info.mode)
         && (s[..|s| - 6] == info.tonic || s[..|s| - 6] in FlatNames)
  }

  /** An entry satisfies the table lemma once its tonic, flat spelling and position check out. */
  lemma EntryOnCircleOfFifthsIntro(c: CamelotKey, tonic: string, mode: Mode, pretty: string, flat: Option<string>)
    requires mode == (if c.letter == A then Minor else Major)
    requires TonicPitch(tonic).Some? && tonic == SharpNames[TonicPitch(tonic).value]
    requires WheelPosition(TonicPitch(tonic).value, mode) == c
    requires flat.Some? ==> TonicPitch(flat.value) == TonicPitch(tonic) && flat.value in FlatNames
    ensures OnCircleOfFifths(c, Entry(tonic, mode, pretty, flat))
  {
    var name := tonic + " " + ModeName(mode);
    NameToKeyOfParts(tonic, mode);
    NameParts(tonic, mode);
    forall s | s in Entry(tonic, mode, pretty, flat).synonyms
      ensures NameToKey(s) == Some(c) && |s| >= 7 && s[|s| - 6..] == " " + ModeName(mode)
      ensures s[..|s| - 6] == tonic || s[..|s| - 6] in FlatNames
    {
      if s != name {
        NameToKeyOfParts(flat.value, mode);
        NameParts(flat.value, mode);
      }
    }
  }

  /** A name is its tonic followed by a space and the five-letter mode word. */
  lemma NameParts(t: string, mode: Mode)
    ensures var n := t + " " + ModeName(mode);
            |n| == |t| + 6 && n[..|n| - 6] == t && n[|n| - 6..] == " " + ModeName(mode)
  {
    var w := " " + ModeName(mode);
    assert t + " " + ModeName(mode) == t + w;
    assert (t + w)[..|t|] == t && (t + w)[|t|..] == w;
  }

  // One lemma per entry keeps each proof small.

  lemma OnCircle1A(c: CamelotKey)
    requires c == CamelotKey(1, A)
    ensures OnCircleOfFifths(c, Info(c))
  {
    assert Info(c) == Entry("G#", Minor, "G#m / Abm", Some("AB"));
    EntryOnCircleOfFifthsIntro(c, "G#", Minor, "G#m / Abm", Some("AB"));
  }
  lemma OnCircle2A(c: CamelotKey)
    requires c == CamelotKey(2, A)
    ensures OnCircleOfFifths(c, Info(c))
  {
    assert Info(c) == Entry("D#", Minor, "D#m / Ebm", Some("EB"));
    EntryOnCircleOfFifthsIntro(c, "D#", Minor, "D#m / Ebm", Some("EB"));
  }
  lemma OnCircle3A(c: CamelotKey)
    requires c == CamelotKey(3, A)
    ensures OnCircleOfFifths(c, Info(c))
  {
    assert Info(c) == Entry("A#", Minor, "A#m / Bbm", Some("BB"));
    EntryOnCircleOfFifthsIntro(c, "A#", Minor, "A#m / Bbm", Some("BB"));
  }
  lemma OnCircle4A(c: CamelotKey)
    requires c == CamelotKey(4, A)
    ensures OnCircleOfFifths(c, Info(c))
  {
    assert Info(c) == Entry("F", Minor, "Fm", None);
    EntryOnCircleOfFifthsIntro(c, "F", Minor, "Fm", None);
  }
  lemma OnCircle5A(c: CamelotKey)
    requires c == CamelotKey(5, A)
    ensures OnCircleOfFifths(c, Info(c))
  {
    assert Info(c) == Entry("C", Minor, "Cm", None);
    EntryOnCircleOfFifthsIntro(c, "C", Minor, "Cm", None);
  }
  lemma OnCircle6A(c: CamelotKey)
    requires c == CamelotKey(6, A)
    ensures OnCircleOfFifths(c, Info(c))
  {
    assert Info(c) == Entry("G", Minor, "Gm", None);
    EntryOnCircleOfFifthsIntro(c, "G", Minor, "Gm", None);
  }
  lemma OnCircle7A(c: CamelotKey)
    requires c == CamelotKey(7, A)
    ensures OnCircleOfFifths(c, Info(c))
  {
    assert Info(c) == Entry("D", Minor, "Dm", None);
    EntryOnCircleOfFifthsIntro(c, "D", Minor, "Dm", None);
  }
  lemma OnCircle8A(c: CamelotKey)
    requires c == CamelotKey(8, A)
    ensures OnCircleOfFifths(c, Info(c))
  {
    assert Info(c) == Entry("A", Minor, "Am", None);
    EntryOnCircleOfFifthsIntro(c, "A", Minor, "Am", None);
  }
  lemma OnCircle9A(c: CamelotKey)
    requires c == CamelotKey(9, A)
    ensures OnCircleOfFifths(c, Info(c))
  {
    assert Info(c) == Entry("E", Minor, "Em", None);
    EntryOnCircleOfFifthsIntro(c, "E", Minor, "Em", None);
  }
  lemma OnCircle10A(c: CamelotKey)
    requires c == CamelotKey(10, A)
    ensures OnCircleOfFifths(c, Info(c))
  {
    assert Info(c) == Entry("B", Minor, "Bm", None);
    EntryOnCircleOfFifthsIntro(c, "B", Minor, "Bm", None);
  }
  lemma OnCircle11A(c: CamelotKey)
    requires c == CamelotKey(11, A)
    ensures OnCircleOfFifths(c, Info(c))
  {
    assert Info(c) == Entry("F#", Minor, "F#m / Gbm", Some("GB"));
    EntryOnCircleOfFifthsIntro(c, "F#", Minor, "F#m / Gbm", Some("GB"));
  }
  lemma OnCircle12A(c: CamelotKey)
    requires c == CamelotKey(12, A)
    ensures OnCircleOfFifths(c, Info(c))
  {
    assert Info(c) == Entry("C#", Minor, "C#m / Dbm", Some("DB"));
    EntryOnCircleOfFifthsIntro(c, "C#", Minor, "C#m / Dbm", Some("DB"));
  }

  lemma OnCircle1B(c: CamelotKey)
    requires c == CamelotKey(1, B)
    ensures OnCircleOfFifths(c, Info(c))
  {
    assert Info(c) == Entry("B", Major, "B", None);
    EntryOnCircleOfFifthsIntro(c, "B", Major, "B", None);
  }
  lemma OnCircle2B(c: CamelotKey)
    requires c == CamelotKey(2, B)
    ensures OnCircleOfFifths(c, Info(c))
  {
    assert Info(c) == Entry("F#", Major, "F# / Gb", Some("GB"));
    EntryOnCircleOfFifthsIntro(c, "F#", Major, "F# / Gb", Some("GB"));
  }
  lemma OnCircle3B(c: CamelotKey)
    requires c == CamelotKey(3, B)
    ensures OnCircleOfFifths(c, Info(c))
  {
    assert Info(c) == Entry("C#", Major, "C# / Db", Some("DB"));
    EntryOnCircleOfFifthsIntro(c, "C#", Major, "C# / Db", Some("DB"));
  }
  lemma OnCircle4B(c: CamelotKey)
    requires c == CamelotKey(4, B)
    ensures OnCircleOfFifths(c, Info(c))
  {
    assert Info(c) == Entry("G#", Major, "G# / Ab", Some("AB"));
    EntryOnCircleOfFifthsIntro(c, "G#", Major, "G# / Ab", Some("AB"));
  }
  lemma OnCircle5B(c: CamelotKey)
    requires c == CamelotKey(5, B)
    ensures OnCircleOfFifths(c, Info(c))
  {
    assert Info(c) == Entry("D#", Major, "D# / Eb", Some("EB"));
    EntryOnCircleOfFifthsIntro(c, "D#", Major, "D# / Eb", Some("EB"));
  }
  lemma OnCircle6B(c: CamelotKey)
    requires c == CamelotKey(6, B)
    ensures OnCircleOfFifths(c, Info(c))
  {
    assert Info(c) == Entry("A#", Major, "A# / Bb", Some("BB"));
    EntryOnCircleOfFifthsIntro(c, "A#", Major, "A# / Bb", Some("BB"));
  }
  lemma OnCircle7B(c: CamelotKey)
    requires c == CamelotKey(7, B)
    ensures OnCircleOfFifths(c, Info(c))
  {
    assert Info(c) == Entry("F", Major, "F", None);
    EntryOnCircleOfFifthsIntro(c, "F", Major, "F", None);
  }
  lemma OnCircle8B(c: CamelotKey)
    requires c == CamelotKey(8, B)
    ensures OnCircleOfFifths(c, Info(c))
  {
    assert Info(c) == Entry("C", Major, "C", None);
    EntryOnCircleOfFifthsIntro(c, "C", Major, "C", None);
  }
  lemma OnCircle9B(c: CamelotKey)
    requires c == CamelotKey(9, B)
    ensures OnCircleOfFifths(c, Info(c))
  {
    assert Info(c) == Entry("G", Major, "G", None);
    EntryOnCircleOfFifthsIntro(c, "G", Major, "G", None);
  }
  lemma OnCircle10B(c: CamelotKey)
    requires c == CamelotKey(10, B)
    ensures OnCircleOfFifths(c, Info(c))
  {
    assert Info(c) == Entry("D", Major, "D", None);
    EntryOnCircleOfFifthsIntro(c, "D", Major, "D", None);
  }
  lemma OnCircle11B(c: CamelotKey)
    requires c == CamelotKey(11, B)
    ensures OnCircleOfFifths(c, Info(c))
  {
    assert Info(c) == Entry("A", Major, "A", None);
    EntryOnCircleOfFifthsIntro(c, "A", Major, "A", None);
  }
  lemma OnCircle12B(c: CamelotKey)
    requires c == CamelotKey(12, B)
    ensures OnCircleOfFifths(c, Info(c))
  {
    assert Info(c) == Entry("E", Major, "E", None);
    EntryOnCircleOfFifthsIntro(c, "E", Major, "E", None);
  }

  lemma MinorRingOnCircleOfFifths(c: CamelotKey)
    requires c.letter == A
    ensures OnCircleOfFifths(c, Info(c))
  {
    if c.number == 1 { OnCircle1A(c); }
    else if c.number == 2 { OnCircle2A(c); }
    else if c.number == 3 { OnCircle3A(c); }
    else if c.number == 4 { OnCircle4A(c); }
    else if c.number == 5 { OnCircle5A(c); }
    else if c.number == 6 { OnCircle6A(c); }
    else if c.number == 7 { OnCircle7A(c); }
    else if c.number == 8 { OnCircle8A(c); }
    else if c.number == 9 { OnCircle9A(c); }
    else if c.number == 10 { OnCircle10A(c); }
    else if c.number == 11 { OnCircle11A(c); }
    else { OnCircle12A(c); }
  }

  lemma MajorRingOnCircleOfFifths(c: CamelotKey)
    requires c.letter == B
    ensures OnCircleOfFifths(c, Info(c))
  {
    if c.number == 1 { OnCircle1B(c); }
    else if c.number == 2 { OnCircle2B(c); }
    else if c.number == 3 { OnCircle3B(c); }
    else if c.number == 4 { OnCircle4B(c); }
    else if c.number == 5 { OnCircle5B(c); }
    else if c.number == 6 { OnCircle6B(c); }
    else if c.number == 7 { OnCircle7B(c); }
    else if c.number == 8 { OnCircle8B(c); }
    else if c.number == 9 { OnCircle9B(c); }
    else if c.number == 10 { OnCircle10B(c); }
    else if c.number == 11 { OnCircle11B(c); }
    else { OnCircle12B(c); }
  }

  /**
   * Every table entry is the circle-of-fifths position of its tonic: A entries
   * are minor and B entries major, the first synonym is "TONIC MODE", and every
   * synonym names the entry's own key.
   */
  lemma TableFollowsCircleOfFifths(c: CamelotKey)
    ensures OnCircleOfFifths(c, Info(c))
  {
    if c.letter == A {
      MinorRingOnCircleOfFifths(c);
    } else {
      MajorRingOnCircleOfFifths(c);
    }
  }

  /** The 24 (tonic, mode) pairs of the table are pairwise distinct. */
  lemma TonicModePairsDistinct(c1: CamelotKey, c2: CamelotKey)
    requires Info(c1).tonic == Info(c2).tonic && Info(c1).mode == Info(c2).mode
    ensures c1 == c2
  {
    TableFollowsCircleOfFifths(c1);
    TableFollowsCircleOfFifths(c2);
  }

  // ---------------------------------------------------------------------
  // keyToCamelot: the reverse map, built as the source's loop builds it.
  // ---------------------------------------------------------------------

  /** The inner loop: `keyToCamelot.set(syn, camelot)` for each synonym in order. */
  function AddSynonyms(m: map<string, CamelotKey>, c: CamelotKey, synonyms: seq<string>): (r: map<string, CamelotKey>)
    ensures r.Keys == m.Keys + set s | s in synonyms
    ensures forall s :: s in synonyms ==> r[s] == c
    ensures forall s :: s in m && s !in synonyms ==> r[s] == m[s]
    decreases |synonyms|
  {
    if synonyms == [] then m
    else AddSynonyms(m[synonyms[0] := c], c, synonyms[1..])
  }

  /** Every name in the map is a synonym of the key it maps to. */
  ghost predicate ReverseConsistent(m: map<string, CamelotKey>) {
    forall s :: s in m ==> s in Info(m[s]).synonyms
  }

  /** The outer loop over the table's entries, in insertion order. */
  function BuildReverse(m: map<string, CamelotKey>, entries: seq<CamelotKey>): (r: map<string, CamelotKey>)
    ensures m.Keys <= r.Keys
    ensures forall i, s :: 0 <= i < |entries| && s in Info(entries[i]).synonyms ==> s in r
    ensures ReverseConsistent(m) ==> ReverseConsistent(r)
    decreases |entries|
  {
    if entries == [] then m
    else
      var m' := AddSynonyms(m, entries[0], Info(entries[0]).synonyms);
      var r := BuildReverse(m', entries[1..]);
      assert forall i, s :: 1 <= i < |entries| && s in Info(entries[i]).synonyms ==> s in r by {
        forall i, s | 1 <= i < |entries| && s in Info(entries[i]).synonyms ensures s in r {
          assert entries[i] == entries[1..][i - 1];
        }
      }
      r
  }

  /** `keyToCamelot`. */
  const KeyToCamelot: map<string, CamelotKey> := BuildReverse(map[], AllKeys)

  /** `keyToCamelot.get(name) ?? null`. */
  function KeyOfName(name: string): (r: Option<CamelotKey>)
    ensures r.Some? <==> name in KeyToCamelot
    ensures r.Some? ==> r.value == KeyToCamelot[name]
  {
    Lookup(KeyToCamelot, name)
  }

  /** Every synonym of every entry maps back to that entry's key. */
  lemma KeyToCamelotInverse(c: CamelotKey, s: string)
    requires s in Info(c).synonyms
    ensures s in KeyToCamelot && KeyToCamelot[s] == c
  {
    var i := c.number - 1 + (if c.letter == A then 0 else 12);
    assert AllKeys[i] == c;
    KeyToCamelotOnlySynonyms(s);
    SynonymNamesOneKey(s, c, KeyToCamelot[s]);
  }

  /** No name is a synonym of two keys. */
  lemma SynonymNamesOneKey(s: string, c: CamelotKey, c': CamelotKey)
    requires s in Info(c).synonyms && s in Info(c').synonyms
    ensures c == c'
  {
    TableFollowsCircleOfFifths(c);
    TableFollowsCircleOfFifths(c');
  }

  /** The map holds nothing but synonyms of its values. */
  lemma KeyToCamelotOnlySynonyms(s: string)
    requires s in KeyToCamelot
    ensures s in Info(KeyToCamelot[s]).synonyms
  {
    assert ReverseConsistent(map[]);
  }

  /** Looking a name up agrees with reading it on the circle of fifths, when the name is in the table at all. */
  lemma LookupByName(name: string)
    ensures name in KeyToCamelot <==> NameToKey(name).Some? && name in Info(NameToKey(name).value).synonyms
    ensures name in KeyToCamelot ==> KeyToCamelot[name] == NameToKey(name).value
  {
    if name in KeyToCamelot {
      KeyToCamelotOnlySynonyms(name);
      TableFollowsCircleOfFifths(KeyToCamelot[name]);
    }
    if NameToKey(name).Some? && name in Info(NameToKey(name).value).synonyms {
      KeyToCamelotInverse(NameToKey(name).value, name);
    }
  }

  /** `keyToCamelot.get(tonic + " " + mode)` of an entry's own name is that entry. */
  lemma KeyToCamelotOfEntryName(c: CamelotKey)
    ensures Info(c).tonic + " " + ModeName(Info(c).mode) in KeyToCamelot
    ensures KeyToCamelot[Info(c).tonic + " " + ModeName(Info(c).mode)] == c
  {
    TableFollowsCircleOfFifths(c);
    KeyToCamelotInverse(c, Info(c).synonyms[0]);
  }

  /** Reading tonic and mode back from an entry's non-flat synonym. */
  lemma SynonymOfEntry(t: string, mode: Mode, c: CamelotKey, info: KeyInfo)
    requires OnCircleOfFifths(c, info)
    requires t !in FlatNames && t + " " + ModeName(mode) in info.synonyms
    ensures t == info.tonic && mode == info.mode
  {
    var name := t + " " + ModeName(mode);
    NameParts(t, mode);
    var w, w' := " " + ModeName(mode), " " + ModeName(info.mode);
    assert w == w';
    assert w[2] == ModeName(mode)[1] && w'[2] == ModeName(info.mode)[1];
  }

  /** A name in the map whose tonic is not a flat spelling has a sharp tonic and names its position. */
  lemma LookupTonicNameFound(t: string, mode: Mode)
    requires t !in FlatNames
    requires t + " " + ModeName(mode) in KeyToCamelot
    ensures t in SharpNames && TonicPitch(t).Some?
    ensures KeyToCamelot[t + " " + ModeName(mode)] == WheelPosition(TonicPitch(t).value, mode)
  {
    var name := t + " " + ModeName(mode);
    var c := KeyToCamelot[name];
    KeyToCamelotOnlySynonyms(name);
    TableFollowsCircleOfFifths(c);
    SynonymOfEntry(t, mode, c, Info(c));
  }

  /** Every sharp tonic with either mode is in the map, at its circle-of-fifths position. */
  lemma LookupTonicNameSharp(p: int, mode: Mode)
    requires 0 <= p < 12
    ensures SharpNames[p] + " " + ModeName(mode) in KeyToCamelot
    ensures KeyToCamelot[SharpNames[p] + " " + ModeName(mode)] == WheelPosition(p, mode)
  {
    var c := WheelPosition(p, mode);
    TableFollowsCircleOfFifths(c);
    var q := TonicPitch(Info(c).tonic).value;
    PitchOfWheelPosition(p, mode);
    PitchOfWheelPosition(q, Info(c).mode);
    assert Info(c).tonic == SharpNames[p];
    KeyToCamelotInverse(c, Info(c).synonyms[0]);
  }

  /**
   * A "TONIC MODE" name whose tonic is not one of the flat spellings is in
   * the map exactly when the tonic is a sharp spelling, and then it maps to
   * the circle-of-fifths position of that tonic.
   */
  lemma LookupTonicName(t: string, mode: Mode)
    requires t !in FlatNames
    ensures t + " " + ModeName(mode) in KeyToCamelot <==> t in SharpNames
    ensures t in SharpNames ==>
      TonicPitch(t).Some? && KeyToCamelot[t + " " + ModeName(mode)] == WheelPosition(TonicPitch(t).value, mode)
  {
    if t + " " + ModeName(mode) in KeyToCamelot {
      LookupTonicNameFound(t, mode);
    }
    if t in SharpNames {
      var p :| 0 <= p < 12 && SharpNames[p] == t;
      SharpNamesPitch(p);
      LookupTonicNameSharp(p, mode);
    }
  }

  // ---------------------------------------------------------------------
  // Camelot text and the accessors.
  // ---------------------------------------------------------------------

  function LetterOfChar(ch: char): Option<Letter> {
    if ch == 'A' || ch == 'a' then Some(A)
    else if ch == 'B' || ch == 'b' then Some(B)
    else None
  }

  /** The test `/^(1[0-2]|[1-9])[AB]$/i`, returning the key it denotes. */
  function ParseCamelotText(s: string): Option<CamelotKey> {
    if |s| == 2 && '1' <= s[0] <= '9' && LetterOfChar(s[1]).Some? then
      Some(CamelotKey(s[0] as int - '0' as int, LetterOfChar(s[1]).value))
    else if |s| == 3 && s[0] == '1' && '0' <= s[1] <= '2' && LetterOfChar(s[2]).Some? then
      Some(CamelotKey(10 + (s[1] as int - '0' as int), LetterOfChar(s[2]).value))
    else None
  }

  /** The text of a key parses back to the key, and is already upper case. */
  lemma KeyTextParses(c: CamelotKey)
    ensures ParseCamelotText(KeyText(c)) == Some(c)
    ensures Upper(KeyText(c)) == KeyText(c)
  {
    var t := KeyText(c);
    if c.number >= 10 {
      assert NatToString(c.number) == NatToString(1) + [DigitChar(c.number - 10)];
    }
  }

  /** Accepted Camelot text upper-cases to the text of the key it denotes. */
  lemma ParsedTextIsKeyText(s: string, c: CamelotKey)
    requires ParseCamelotText(s) == Some(c)
    ensures Upper(s) == KeyText(c)
  {
    var u := Upper(s);
    var letter := LetterChar(c.letter);
    assert u[|s| - 1] == letter;
    if |s| == 2 {
      assert NatToString(c.number) == [DigitChar(c.number)];
      assert u == [s[0], letter];
    } else {
      assert NatToString(c.number) == NatToString(1) + [DigitChar(c.number - 10)];
      assert u == ['1', s[1], letter];
    }
  }

  /** Distinct keys have distinct texts. */
  lemma KeyTextInjective(c1: CamelotKey, c2: CamelotKey)
    requires KeyText(c1) == KeyText(c2)
    ensures c1 == c2
  {
    KeyTextParses(c1);
    KeyTextParses(c2);
  }

  /** `s.replace(/[AB]/i, '')`: drops the first A or B, in either case. */
  function RemoveFirstLetter(s: string): string {
    if s == [] then []
    else if LetterOfChar(s[0]).Some? then s[1..]
    else [s[0]] + RemoveFirstLetter(s[1..])
  }

  /** The longest prefix of decimal digits. */
  function LeadingDigits(s: string): (r: string)
    ensures |r| <= |s| && r == s[..|r|]
    ensures forall i :: 0 <= i < |r| ==> IsDigit(r[i])
    ensures |r| < |s| ==> !IsDigit(s[|r|])
  {
    if s != [] && IsDigit(s[0]) then [s[0]] + LeadingDigits(s[1..]) else []
  }

  /** `parseInt(s, 10)`; None stands for NaN. */
  function ParseInt(s: string): Option<int> {
    var t := TrimStart(s);
    var negative := t != [] && t[0] == '-';
    var body := if t != [] && (t[0] == '-' || t[0] == '+') then t[1..] else t;
    var digits := LeadingDigits(body);
    if digits == [] then None
    else
      var magnitude: int := DigitsValue(digits);
      Some(if negative then -magnitude else magnitude)
  }

  /** `getCamelotNumber`. */
  function GetCamelotNumber(text: string): Option<int> {
    ParseInt(RemoveFirstLetter(text))
  }

  /** `getCamelotLetter`: the last character, upper-cased ("" for empty text). */
  function GetCamelotLetter(text: string): string {
    if text == [] then "" else Upper([text[|text| - 1]])
  }

  /** `parseInt` reads a string of digits as its value. */
  lemma ParseIntOfDigits(d: string)
    requires d != [] && forall i :: 0 <= i < |d| ==> IsDigit(d[i])
    ensures ParseInt(d) == Some(DigitsValue(d))
  {
    assert IsDigit(d[0]);
    assert !IsJsSpace(d[0]);
    assert TrimStart(d) == d;
    assert d[0] != '-' && d[0] != '+';
    LeadingDigitsOfDigits(d);
  }

  lemma {:induction false} LeadingDigitsOfDigits(d: string)
    requires forall i :: 0 <= i < |d| ==> IsDigit(d[i])
    ensures LeadingDigits(d) == d
  {
    if d != [] {
      LeadingDigitsOfDigits(d[1..]);
    }
  }

  /** The replace drops the trailing letter of text whose other characters are not A or B. */
  lemma {:induction false} RemoveTrailingLetter(p: string, x: char)
    requires forall i :: 0 <= i < |p| ==> LetterOfChar(p[i]).None?
    requires LetterOfChar(x).Some?
    ensures RemoveFirstLetter(p + [x]) == p
  {
    if p != [] {
      assert (p + [x])[1..] == p[1..] + [x];
      RemoveTrailingLetter(p[1..], x);
    }
  }

  /**
   * On valid Camelot text the accessors give a number in 1..12 and a letter
   * A or B, and together they recompose the (upper-cased) text.
   */
  lemma AccessorsOnCamelotText(s: string, c: CamelotKey)
    requires ParseCamelotText(s) == Some(c)
    ensures GetCamelotNumber(s) == Some(c.number) && 1 <= c.number <= 12
    ensures GetCamelotLetter(s) == [LetterChar(c.letter)]
    ensures NatToString(GetCamelotNumber(s).value) + GetCamelotLetter(s) == Upper(s)
  {
    ParsedTextIsKeyText(s, c);
    var digits := s[..|s| - 1];
    assert s == digits + [s[|s| - 1]];
    RemoveTrailingLetter(digits, s[|s| - 1]);
    assert digits == NatToString(c.number) by {
      assert Upper(s)[..|s| - 1] == NatToString(c.number);
      forall i | 0 <= i < |digits| ensures digits[i] == Upper(s)[i] {
      }
    }
    ParseIntOfDigits(digits);
    NatToStringRoundTrip(c.number);
  }

  /** The accessors applied to a key's text give the key's own number and letter. */
  lemma AccessorsOnKeyText(c: CamelotKey)
    ensures GetCamelotNumber(KeyText(c)) == Some(c.number)
    ensures GetCamelotLetter(KeyText(c)) == [LetterChar(c.letter)]
  {
    KeyTextParses(c);
    AccessorsOnCamelotText(KeyText(c), c);
  }

  // ---------------------------------------------------------------------
  // camelotDistance
  // ---------------------------------------------------------------------

  datatype Distance = Distance(numDiff: int, sameLetter: bool)

  /** Steps between two wheel numbers the short way round (Euclidean `%`). */
  function CircularSteps(a: int, b: int): int {
    var forward := (b - a) % 12;
    var backward := (a - b) % 12;
    if forward <= backward then forward else backward
  }

  function Abs(x: int): int {
    if x < 0 then -x else x
  }

  /** `camelotDistance`: `min(|na - nb|, 12 - |na - nb|)` and whether the letters agree. */
  function CamelotDistance(a: CamelotKey, b: CamelotKey): (r: Distance)
    ensures 0 <= r.numDiff <= 6
    ensures r.numDiff == 0 <==> a.number == b.number
    ensures r.numDiff == CircularSteps(a.number, b.number)
    ensures r.sameLetter <==> a.letter == b.letter
  {
    var diff := Abs(a.number - b.number);
    Distance(if diff <= 12 - diff then diff else 12 - diff, a.letter == b.letter)
  }

  lemma DistanceSymmetric(a: CamelotKey, b: CamelotKey)
    ensures CamelotDistance(a, b) == CamelotDistance(b, a)
  {
  }

  lemma DistanceExamples()
    ensures CamelotDistance(CamelotKey(12, A), CamelotKey(1, A)).numDiff == 1
    ensures forall c: CamelotKey :: CamelotDistance(c, c) == Distance(0, true)
  {
  }
}
