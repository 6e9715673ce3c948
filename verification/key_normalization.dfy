/**
 * Key normalisation (lib/keyNormalization.ts): turns the free-text key a DJ
 * library stores ("Am", "C# minor", "8A", "D♭ maj", "NA") into a canonical
 * "TONIC MODE" name, its Camelot key when the table knows it, and a short
 * display form.
 */
module KeyNormalization {
  import opened Wrappers
  import opened Text
  import opened Camelot

  /** What normalizeKey returns; `camelot` is None where the source returns null. */
  datatype NormalizedKey = NormalizedKey(canonicalKey: string, camelot: Option<CamelotKey>, prettyKey: string)

  /** The result for a missing or placeholder key. */
  const Unknown := NormalizedKey("", None, "")

  /** Flat tonics (upper-cased) and the sharp spelling they are rewritten to. */
  const Enharmonics: map<string, string> := map["DB" := "C#", "EB" := "D#", "GB" := "F#", "AB" := "G#", "BB" := "A#"]

  /** The flats rewritten here are exactly the flat spellings the wheel's table accepts. */
  lemma EnharmonicsAreTheTableFlats()
    ensures Enharmonics.Keys == FlatNames
  {
  }

  /** One row of the rewrite table: the flat `f` and its sharp spelling both name pitch class `p`. */
  lemma EnharmonicRow(f: string, p: int)
    requires 0 <= p < 12 && f in Enharmonics && Enharmonics[f] == SharpNames[p] && TonicPitch(f) == Some(p)
    ensures Enharmonics[f] in SharpNames && TonicPitch(f) == TonicPitch(Enharmonics[f])
  {
    SharpNamesPitch(p);
  }

  /** Each flat is rewritten to the sharp spelling of the same pitch class. */
  lemma EnharmonicsKeepPitch(f: string)
    requires f in Enharmonics
    ensures Enharmonics[f] in SharpNames && TonicPitch(f) == TonicPitch(Enharmonics[f])
  {
    if f == "DB" { EnharmonicRow(f, 1); }
    else if f == "EB" { EnharmonicRow(f, 3); }
    else if f == "GB" { EnharmonicRow(f, 6); }
    else if f == "AB" { EnharmonicRow(f, 8); }
    else {
      assert f == "BB";
      EnharmonicRow(f, 10);
    }
  }

  /** The key is absent, empty, blank, or one of the placeholders "NA" and "None". */
  predicate IsBlankKey(raw: Option<string>) {
    raw.None? || raw.value == "" || Trim(raw.value) == "" || raw.value == "NA" || raw.value == "None"
  }

  const FlatGlyph: char := '\U{266D}'
  const SharpGlyph: char := '\U{266F}'

  /** `s.replace(/♭/g, 'b').replace(/♯/g, '#')`. */
  function ReplaceAccidentalGlyphs(s: string): (r: string)
    ensures |r| == |s|
    ensures forall i :: 0 <= i < |s| ==> r[i] != FlatGlyph && r[i] != SharpGlyph
    ensures forall i :: 0 <= i < |s| ==> r[i] == GlyphReplaced(s[i])
  {
    ReplaceChar(ReplaceChar(s, FlatGlyph, 'b'), SharpGlyph, '#')
  }

  /** One character after the rewrite: the flat glyph as `b`, the sharp glyph as `#`. */
  function GlyphReplaced(c: char): char {
    if c == FlatGlyph then 'b' else if c == SharpGlyph then '#' else c
  }

  /** `\w`: an ASCII letter, digit or underscore. */
  predicate IsWordChar(ch: char) {
    'a' <= ch <= 'z' || 'A' <= ch <= 'Z' || '0' <= ch <= '9' || ch == '_'
  }

  /**
   * The regex `long|stem\b` matches at the start of `t`: either the long word,
   * or the stem followed by the end of text or a non-word character.
   */
  predicate ModeWordAt(t: string, stem: string, long: string) {
    StartsWith(t, long) || (StartsWith(t, stem) && (|t| == |stem| || !IsWordChar(t[|stem|])))
  }

  /** `/long|stem\b/.test(u)`: the word occurs somewhere in `u`. */
  predicate ContainsModeWord(u: string, stem: string, long: string)
    decreases |u|
  {
    u != [] && (ModeWordAt(u, stem, long) || ContainsModeWord(u[1..], stem, long))
  }

  /** `/MINOR|MIN\b/.test(upper)`. */
  predicate HasMinorWord(u: string) {
    ContainsModeWord(u, "MIN", "MINOR")
  }

  /** `/MAJOR|MAJ\b/.test(upper)`. */
  predicate HasMajorWord(u: string) {
    ContainsModeWord(u, "MAJ", "MAJOR")
  }

  /** Case-insensitive prefix test against an upper-case word, as the `i` flag compares ASCII letters. */
  predicate StartsWithIgnoringCase(t: string, word: string)
    decreases |word|
  {
    word == [] || (t != [] && UpperChar(t[0]) == word[0] && StartsWithIgnoringCase(t[1..], word[1..]))
  }

  lemma {:induction false} StartsWithIgnoringCaseLength(t: string, word: string)
    ensures StartsWithIgnoringCase(t, word) ==> |word| <= |t| && (word != [] ==> UpperChar(t[0]) == word[0])
    decreases |word|
  {
    if word != [] && t != [] {
      StartsWithIgnoringCaseLength(t[1..], word[1..]);
    }
  }

  /** Length of the mode word `major|maj|minor|min` (any case) at the start of `t`, 0 if none; alternatives tried in that order. */
  function ModeWordLength(t: string): (n: nat)
    ensures n == 0 || n == 3 || n == 5
    ensures n <= |t|
    ensures n > 0 ==> UpperChar(t[0]) == 'M'
  {
    StartsWithIgnoringCaseLength(t, "MAJOR");
    StartsWithIgnoringCaseLength(t, "MAJ");
    StartsWithIgnoringCaseLength(t, "MINOR");
    StartsWithIgnoringCaseLength(t, "MIN");
    if StartsWithIgnoringCase(t, "MAJOR") then 5
    else if StartsWithIgnoringCase(t, "MAJ") then 3
    else if StartsWithIgnoringCase(t, "MINOR") then 5
    else if StartsWithIgnoringCase(t, "MIN") then 3
    else 0
  }

  /** Number of leading whitespace characters (what `\s*` consumes). */
  function LeadingSpaces(s: string): (n: nat)
    ensures n <= |s|
    ensures forall i :: 0 <= i < n ==> IsJsSpace(s[i])
    ensures n < |s| ==> !IsJsSpace(s[n])
    decreases |s|
  {
    if s != [] && IsJsSpace(s[0]) then 1 + LeadingSpaces(s[1..]) else 0
  }

  /**
   * `s.replace(/\s*(major|maj|minor|min)\s*\/gi, '')`: scanning left to right,
   * each match (spaces, a mode word, spaces) is deleted and the scan resumes
   * after it; other characters are kept.
   */
  function StripModeWords(s: string): (r: string)
    ensures |r| <= |s|
    decreases |s|
  {
    if s == [] then []
    else
      var k := LeadingSpaces(s);
      var w := ModeWordLength(s[k..]);
      if w > 0 then
        var rest := s[k + w..];
        StripModeWords(rest[LeadingSpaces(rest)..])
      else [s[0]] + StripModeWords(s[1..])
  }

  /** `/^[A-G][#b]?[Mm]$/.test(t)`: a minor shorthand such as "Am" or "C#m" (case-sensitive). */
  predicate IsMinorShorthand(t: string) {
    && (|t| == 2 || |t| == 3)
    && 'A' <= t[0] <= 'G'
    && (|t| == 3 ==> t[1] == '#' || t[1] == 'b')
    && (t[|t| - 1] == 'M' || t[|t| - 1] == 'm')
  }

  /**
   * The mode of a key text (after the accidental glyphs are replaced):
   * a MINOR/MIN word, else a MAJOR/MAJ word, else a bare minor shorthand,
   * else major.
   */
  function DetectMode(s: string): Mode {
    var upper := Upper(s);
    if HasMinorWord(upper) then Minor
    else if HasMajorWord(upper) then Major
    else
      var stripped := Trim(StripModeWords(s));
      if IsMinorShorthand(stripped) && !EndsWith(Upper(stripped), "MA") then Minor else Major
  }

  /** `s.match(/^([A-Ga-g][#b]?)/)`: the tonic spelling at the start, if any. */
  function TonicPrefix(s: string): (r: Option<string>)
    ensures r.Some? ==> 1 <= |r.value| <= 2 && |r.value| <= |s| && r.value == s[..|r.value|]
  {
    if s != [] && ('A' <= s[0] <= 'G' || 'a' <= s[0] <= 'g') then
      if |s| >= 2 && (s[1] == '#' || s[1] == 'b') then Some(s[..2]) else Some(s[..1])
    else None
  }

  /** The tonic upper-cased, with a flat rewritten to its sharp spelling. */
  function CanonicalTonic(t: string): (r: string)
    ensures r !in FlatNames
  {
    var u := Upper(t);
    if u in Enharmonics then Enharmonics[u] else u
  }

  /** `normalizeKey`. */
  function NormalizeKey(raw: Option<string>): NormalizedKey {
    if IsBlankKey(raw) then Unknown
    else
      var s := Trim(raw.value);
      var parsed := ParseCamelotText(s);
      if parsed.Some? then NormalizedKey(Upper(s), parsed, Upper(s))
      else
        var t := ReplaceAccidentalGlyphs(s);
        var mode := DetectMode(t);
        var tonicMatch := TonicPrefix(t);
        if tonicMatch.None? then NormalizedKey("", None, raw.value)
        else
          TonicKey(CanonicalTonic(tonicMatch.value), mode)
  }

  /** The result for a canonical tonic and a mode: "TONIC MODE", its wheel key if the table has it, "TONIC" or "TONICm". */
  function TonicKey(tonic: string, mode: Mode): NormalizedKey {
    NormalizedKey(tonic + " " + ModeName(mode), KeyOfName(tonic + " " + ModeName(mode)), tonic + (if mode == Minor then "m" else ""))
  }

  // ---------------------------------------------------------------------
  // What normalizeKey promises.
  // ---------------------------------------------------------------------

  /** Only a blank or placeholder key normalises to the empty result. */
  lemma NormalizeBlank(raw: Option<string>)
    ensures IsBlankKey(raw) <==> NormalizeKey(raw) == Unknown
  {
    if !IsBlankKey(raw) {
      var s := Trim(raw.value);
      if ParseCamelotText(s).None? {
        var t := ReplaceAccidentalGlyphs(s);
        if TonicPrefix(t).Some? {
          TonicKeyKnown(CanonicalTonic(TonicPrefix(t).value), DetectMode(t));
        }
      }
    }
  }

  /** A tonic and a mode always give a non-empty canonical key. */
  lemma TonicKeyKnown(tonic: string, mode: Mode)
    ensures TonicKey(tonic, mode).canonicalKey != ""
  {
    assert (tonic + " " + ModeName(mode))[|tonic|] == ' ';
  }

  /** Camelot text (any case, surrounding spaces allowed) is echoed upper-cased with its key. */
  lemma NormalizeCamelotText(raw: string, c: CamelotKey)
    requires ParseCamelotText(Trim(raw)) == Some(c)
    ensures NormalizeKey(Some(raw)) == NormalizedKey(KeyText(c), Some(c), KeyText(c))
  {
    ParsedTextIsKeyText(Trim(raw), c);
  }

  /** The Camelot text of every key normalises to that key. */
  lemma NormalizeKeyText(c: CamelotKey)
    ensures NormalizeKey(Some(KeyText(c))) == NormalizedKey(KeyText(c), Some(c), KeyText(c))
  {
    KeyTextParses(c);
    var t := KeyText(c);
    assert !IsJsSpace(t[0]) && !IsJsSpace(t[|t| - 1]);
    TrimNoop(t);
    NormalizeCamelotText(t, c);
  }

  /** A minor shorthand ends in M, so the source's extra `endsWith('MA')` test never rejects one. */
  lemma MinorShorthandNeverEndsInMa(t: string)
    requires IsMinorShorthand(t)
    ensures !EndsWith(Upper(t), "MA")
  {
    assert Upper(t)[|t| - 1] == 'M';
  }

  /** Mode detection without the dead `endsWith('MA')` test. */
  lemma DetectModeCases(s: string)
    ensures DetectMode(s) == Minor <==>
      HasMinorWord(Upper(s)) || (!HasMajorWord(Upper(s)) && IsMinorShorthand(Trim(StripModeWords(s))))
  {
    var stripped := Trim(StripModeWords(s));
    if IsMinorShorthand(stripped) {
      MinorShorthandNeverEndsInMa(stripped);
    }
  }

  /**
   * For text that is not Camelot and starts with a tonic, the canonical name
   * is "TONIC MODE", the display form is the tonic plus "m" for minor, and the
   * key is the circle-of-fifths position of the tonic exactly when the tonic
   * is one of the twelve sharp spellings (never for E#, B#, CB or FB).
   */
  lemma NormalizeTonic(raw: string)
    requires !IsBlankKey(Some(raw)) && ParseCamelotText(Trim(raw)).None?
    requires TonicPrefix(ReplaceAccidentalGlyphs(Trim(raw))).Some?
    ensures
      var t := ReplaceAccidentalGlyphs(Trim(raw));
      var tonic := CanonicalTonic(TonicPrefix(t).value);
      var mode := DetectMode(t);
      var r := NormalizeKey(Some(raw));
      && r.canonicalKey == tonic + " " + ModeName(mode)
      && r.prettyKey == tonic + (if mode == Minor then "m" else "")
      && (r.camelot.Some? <==> tonic in SharpNames)
      && (r.camelot.Some? ==> TonicPitch(tonic).Some? && r.camelot.value == WheelPosition(TonicPitch(tonic).value, mode))
  {
    var t := ReplaceAccidentalGlyphs(Trim(raw));
    var tonic := CanonicalTonic(TonicPrefix(t).value);
    LookupTonicName(tonic, DetectMode(t));
  }

  /** Text that is neither blank, Camelot, nor starts with a tonic has no key and is echoed as its display form. */
  lemma NormalizeNoTonic(raw: string)
    requires !IsBlankKey(Some(raw)) && ParseCamelotText(Trim(raw)).None?
    requires TonicPrefix(ReplaceAccidentalGlyphs(Trim(raw))).None?
    ensures NormalizeKey(Some(raw)) == NormalizedKey("", None, raw)
  {
  }

  // ---------------------------------------------------------------------
  // Prefix lemmas: a leading tonic does not affect the rest of the analysis.
  // ---------------------------------------------------------------------

  lemma {:induction false} ContainsModeWordAfterPrefix(q: string, x: string, stem: string, long: string)
    requires stem != [] && StartsWith(long, stem)
    requires forall i :: 0 <= i < |q| ==> q[i] != stem[0]
    ensures ContainsModeWord(q + x, stem, long) == ContainsModeWord(x, stem, long)
    decreases |q|
  {
    if q != [] {
      assert (q + x)[1..] == q[1..] + x;
      assert !ModeWordAt(q + x, stem, long) by {
        assert (q + x)[0] == q[0];
      }
      ContainsModeWordAfterPrefix(q[1..], x, stem, long);
    } else {
      assert q + x == x;
    }
  }

  /** A first character that is neither a space nor an M cannot start a match, so it is kept. */
  lemma StripModeWordsKeepsFirst(s: string)
    requires s != [] && !IsJsSpace(s[0]) && UpperChar(s[0]) != 'M'
    ensures StripModeWords(s) == [s[0]] + StripModeWords(s[1..])
  {
    assert LeadingSpaces(s) == 0;
    assert s[0..] == s;
    assert ModeWordLength(s) == 0;
  }

  lemma {:induction false} StripModeWordsAfterPrefix(q: string, x: string)
    requires forall i :: 0 <= i < |q| ==> !IsJsSpace(q[i]) && UpperChar(q[i]) != 'M'
    ensures StripModeWords(q + x) == q + StripModeWords(x)
    decreases |q|
  {
    if q != [] {
      var s := q + x;
      assert s[0] == q[0] && s[1..] == q[1..] + x;
      StripModeWordsKeepsFirst(s);
      StripModeWordsAfterPrefix(q[1..], x);
      ConsPrefix(StripModeWords(s), StripModeWords(q[1..] + x), StripModeWords(x), q);
    } else {
      assert q + x == x;
    }
  }

  lemma ReplaceGlyphsAfterPrefix(q: string, x: string)
    requires forall i :: 0 <= i < |q| ==> q[i] != FlatGlyph && q[i] != SharpGlyph
    ensures ReplaceAccidentalGlyphs(q + x) == q + ReplaceAccidentalGlyphs(x)
  {
    var l := ReplaceAccidentalGlyphs(q + x);
    var r := q + ReplaceAccidentalGlyphs(x);
    forall i | 0 <= i < |l| ensures l[i] == r[i] {
      if i < |q| {
        assert l[i] == GlyphReplaced(q[i]);
      } else {
        assert l[i] == GlyphReplaced(x[i - |q|]);
      }
    }
  }

  /** A two-character tonic spelling such as "Db" or "C#". */
  predicate IsAccidentalTonic(p: string) {
    |p| == 2 && 'A' <= p[0] <= 'G' && (p[1] == '#' || p[1] == 'b')
  }

  /** `/^[A-G][#b]?[Mm]$/` after a two-character tonic leaves room for one M or m only. */
  predicate IsMinorMark(y: string) {
    y == "M" || y == "m"
  }

  /**
   * The mode of text that follows a tonic with an accidental: a MINOR/MIN word,
   * else a MAJOR/MAJ word, else a lone "m" once the mode words are stripped.
   */
  function ModeAfterAccidentalTonic(x: string): Mode {
    if HasMinorWord(Upper(x)) then Minor
    else if HasMajorWord(Upper(x)) then Major
    else if IsMinorMark(TrimEnd(StripModeWords(x))) then Minor
    else Major
  }

  lemma MinorShorthandAfterTonic(p: string, y: string)
    requires IsAccidentalTonic(p)
    ensures IsMinorShorthand(p + y) <==> IsMinorMark(y)
  {
    if IsMinorMark(y) {
      assert p + y == [p[0], p[1], y[0]];
    }
    if IsMinorShorthand(p + y) {
      assert |y| == 1 && y == [(p + y)[2]];
    }
  }

  lemma ModeWordsAfterTonic(p: string, x: string)
    requires IsAccidentalTonic(p)
    ensures HasMinorWord(Upper(p + x)) == HasMinorWord(Upper(x))
    ensures HasMajorWord(Upper(p + x)) == HasMajorWord(Upper(x))
  {
    UpperConcat(p, x);
    assert forall i :: 0 <= i < |Upper(p)| ==> Upper(p)[i] != 'M';
    ContainsModeWordAfterPrefix(Upper(p), Upper(x), "MIN", "MINOR");
    ContainsModeWordAfterPrefix(Upper(p), Upper(x), "MAJ", "MAJOR");
  }

  lemma StripAfterTonic(p: string, x: string)
    requires IsAccidentalTonic(p)
    ensures Trim(StripModeWords(p + x)) == p + TrimEnd(StripModeWords(x))
  {
    assert !IsJsSpace(p[0]) && UpperChar(p[0]) != 'M';
    assert !IsJsSpace(p[1]) && UpperChar(p[1]) != 'M';
    StripModeWordsAfterPrefix(p, x);
    TrimAfterPrefix(p, StripModeWords(x));
  }

  lemma ShorthandAfterTonic(p: string, x: string)
    requires IsAccidentalTonic(p)
    ensures var stripped := Trim(StripModeWords(p + x));
      (IsMinorShorthand(stripped) && !EndsWith(Upper(stripped), "MA")) <==> IsMinorMark(TrimEnd(StripModeWords(x)))
  {
    StripAfterTonic(p, x);
    var y := TrimEnd(StripModeWords(x));
    MinorShorthandAfterTonic(p, y);
    if IsMinorShorthand(p + y) {
      MinorShorthandNeverEndsInMa(p + y);
    }
  }

  lemma DetectModeAfterTonic(p: string, x: string)
    requires IsAccidentalTonic(p)
    ensures DetectMode(p + x) == ModeAfterAccidentalTonic(x)
  {
    ModeWordsAfterTonic(p, x);
    ShorthandAfterTonic(p, x);
  }

  lemma TrimAfterTonic(p: string, rest: string)
    requires IsAccidentalTonic(p)
    ensures !IsBlankKey(Some(p + rest))
    ensures Trim(p + rest) == p + TrimEnd(rest)
    ensures ParseCamelotText(Trim(p + rest)).None?
  {
    TrimAfterPrefix(p, rest);
    assert (p + rest)[1] == p[1];
    assert Trim(p + rest)[0] == p[0];
  }

  /**
   * Text that starts with a tonic and an accidental ("Db", "C#") normalises to
   * that tonic's canonical spelling with the mode the rest of the text gives.
   */
  lemma NormalizeAfterAccidentalTonic(p: string, rest: string)
    requires IsAccidentalTonic(p)
    ensures NormalizeKey(Some(p + rest)) == TonicKey(CanonicalTonic(p), ModeAfterAccidentalTonic(ReplaceAccidentalGlyphs(TrimEnd(rest))))
  {
    var x := ReplaceAccidentalGlyphs(TrimEnd(rest));
    AccidentalTonicText(p, rest);
    NormalizeTonicText(p + rest, p, p + x);
  }

  lemma AccidentalTonicGlyphFree(p: string)
    requires IsAccidentalTonic(p)
    ensures forall i :: 0 <= i < |p| ==> p[i] != FlatGlyph && p[i] != SharpGlyph
  {
  }

  /** What normalisation reads from text that starts with an accidental tonic: not Camelot text, that tonic, the mode after it. */
  lemma AccidentalTonicText(p: string, rest: string)
    requires IsAccidentalTonic(p)
    ensures var x := ReplaceAccidentalGlyphs(TrimEnd(rest));
      && !IsBlankKey(Some(p + rest)) && ParseCamelotText(Trim(p + rest)).None?
      && ReplaceAccidentalGlyphs(Trim(p + rest)) == p + x
      && TonicPrefix(p + x) == Some(p)
      && DetectMode(p + x) == ModeAfterAccidentalTonic(x)
  {
    TrimAfterTonic(p, rest);
    var x := ReplaceAccidentalGlyphs(TrimEnd(rest));
    AccidentalTonicGlyphFree(p);
    ReplaceGlyphsAfterPrefix(p, TrimEnd(rest));
    DetectModeAfterTonic(p, x);
    assert TonicPrefix(p + x) == Some(p) by {
      assert (p + x)[..2] == p;
    }
  }

  /** Text that is not Camelot text and starts with a tonic normalises to that tonic with the mode the text gives. */
  lemma NormalizeTonicText(raw: string, tonic: string, t: string)
    requires !IsBlankKey(Some(raw)) && ParseCamelotText(Trim(raw)).None?
    requires ReplaceAccidentalGlyphs(Trim(raw)) == t && TonicPrefix(t) == Some(tonic)
    ensures NormalizeKey(Some(raw)) == TonicKey(CanonicalTonic(tonic), DetectMode(t))
  {
  }

  /** Two accidental tonics with the same canonical spelling normalise alike whatever follows them. */
  lemma SameCanonicalTonic(p: string, p': string, rest: string)
    requires IsAccidentalTonic(p) && IsAccidentalTonic(p') && CanonicalTonic(p) == CanonicalTonic(p')
    ensures NormalizeKey(Some(p + rest)) == NormalizeKey(Some(p' + rest))
  {
    NormalizeAfterAccidentalTonic(p, rest);
    NormalizeAfterAccidentalTonic(p', rest);
  }

  /** A flat spelling and the sharp spelling it is rewritten to share their canonical tonic. */
  lemma FlatCanonicalAsSharp(flat: string)
    requires |flat| == 2 && 'A' <= flat[0] <= 'G' && flat[1] == 'b' && Upper(flat) in Enharmonics
    ensures IsAccidentalTonic(Enharmonics[Upper(flat)])
    ensures CanonicalTonic(flat) == CanonicalTonic(Enharmonics[Upper(flat)])
  {
    var sharp := Enharmonics[Upper(flat)];
    assert sharp == "C#" || sharp == "D#" || sharp == "F#" || sharp == "G#" || sharp == "A#";
    UpperKeeps(sharp);
    SharpNotRewritten(sharp);
  }

  /** A sharp spelling is not one of the flat spellings rewritten. */
  lemma SharpNotRewritten(t: string)
    requires |t| == 2 && t[1] == '#'
    ensures t !in Enharmonics
  {
    assert forall k | k in Enharmonics :: |k| == 2 && k[1] == 'B';
  }

  /**
   * A flat tonic and its sharp spelling normalise alike whatever follows them:
   * "Db minor" and "C# minor", "Ebm" and "D#m", "Bb" and "A#" give the same result.
   */
  lemma FlatNormalizesAsSharp(flat: string, rest: string)
    requires |flat| == 2 && 'A' <= flat[0] <= 'G' && flat[1] == 'b' && Upper(flat) in Enharmonics
    ensures NormalizeKey(Some(flat + rest)) == NormalizeKey(Some(Enharmonics[Upper(flat)] + rest))
  {
    FlatCanonicalAsSharp(flat);
    SameCanonicalTonic(flat, Enharmonics[Upper(flat)], rest);
  }

  // ---------------------------------------------------------------------
  // Round trip through the table's own names.
  // ---------------------------------------------------------------------

  /** A sharp name is a letter A to G, optionally followed by '#'. */
  lemma SharpNameShape(t: string)
    requires t in SharpNames
    ensures 1 <= |t| <= 2 && 'A' <= t[0] <= 'G' && (|t| == 2 ==> t[1] == '#')
  {
  }

  lemma ModeNameWords()
    ensures HasMinorWord("MINOR")
    ensures !HasMinorWord("MAJOR") && HasMajorWord("MAJOR")
  {
    var minor, major := "MINOR", "MAJOR";
    assert minor[..5] == minor && major[..5] == major;
    assert ModeWordAt(minor, "MIN", "MINOR");
    assert ModeWordAt(major, "MAJ", "MAJOR");
    assert !ModeWordAt(major, "MIN", "MINOR") by {
      assert major[..5][1] != minor[1];
      assert major[..3][1] != "MIN"[1];
    }
    var tail := major[1..];
    assert forall i :: 0 <= i < |tail| ==> tail[i] != 'M';
    ContainsModeWordAfterPrefix(tail, [], "MIN", "MINOR");
    assert tail + [] == tail;
  }

  /** Upper-casing a sharp name and a space yields no 'M', so no mode word can start there. */
  lemma NoModeWordStartInTonic(t: string)
    requires t in SharpNames
    ensures forall i :: 0 <= i < |Upper(t + " ")| ==> Upper(t + " ")[i] != 'M'
  {
    SharpNameShape(t);
    var q := t + " ";
    forall i | 0 <= i < |Upper(q)|
      ensures Upper(q)[i] != 'M'
    {
      assert Upper(q)[i] == UpperChar(q[i]);
      assert q[i] == ' ' || 'A' <= q[i] <= 'G' || q[i] == '#';
    }
  }

  /** The mode name is already upper case, so only the tonic part changes. */
  lemma UpperOfName(t: string, mode: Mode)
    ensures Upper(t + " " + ModeName(mode)) == Upper(t + " ") + ModeName(mode)
  {
    var m := ModeName(mode);
    UpperConcat(t + " ", m);
    ModeNameUpper(mode);
  }

  lemma ModeNameUpper(mode: Mode)
    ensures Upper(ModeName(mode)) == ModeName(mode)
  {
    var m := ModeName(mode);
    assert forall i :: 0 <= i < |m| ==> 'A' <= m[i] <= 'Z';
    UpperKeeps(m);
  }

  /** "TONIC MINOR" reads as minor and "TONIC MAJOR" as major. */
  lemma DetectModeOfName(t: string, mode: Mode)
    requires t in SharpNames
    ensures DetectMode(t + " " + ModeName(mode)) == mode
  {
    var q := Upper(t + " ");
    var m := ModeName(mode);
    UpperOfName(t, mode);
    NoModeWordStartInTonic(t);
    ContainsModeWordAfterPrefix(q, m, "MIN", "MINOR");
    ContainsModeWordAfterPrefix(q, m, "MAJ", "MAJOR");
    ModeNameWords();
  }

  lemma TonicModeNameTrimmed(t: string, mode: Mode)
    requires t in SharpNames
    ensures var raw := t + " " + ModeName(mode);
      !IsBlankKey(Some(raw)) && Trim(raw) == raw && ParseCamelotText(raw).None?
  {
    SharpNameShape(t);
    var raw := t + " " + ModeName(mode);
    assert raw[0] == t[0] && raw[|raw| - 1] == 'R';
    TrimNoop(raw);
  }

  lemma TonicModeNameTonic(t: string, mode: Mode)
    requires t in SharpNames
    ensures var raw := t + " " + ModeName(mode);
      ReplaceAccidentalGlyphs(raw) == raw && TonicPrefix(raw) == Some(t)
  {
    SharpNameShape(t);
    var raw := t + " " + ModeName(mode);
    assert forall i :: 0 <= i < |raw| ==> raw[i] != FlatGlyph && raw[i] != SharpGlyph;
    assert raw[..|t|] == t;
    if |t| == 1 {
      assert raw[1] == ' ';
    }
  }

  /** A sharp name is already canonical. */
  lemma CanonicalSharpName(t: string)
    requires t in SharpNames
    ensures CanonicalTonic(t) == t
  {
    SharpNameShape(t);
    assert Upper(t) == t;
  }

  /** The text "TONIC MODE" for a sharp tonic normalises to that tonic and mode. */
  lemma NormalizeTonicModeName(t: string, mode: Mode)
    requires t in SharpNames
    ensures NormalizeKey(Some(t + " " + ModeName(mode))) == TonicKey(t, mode)
  {
    TonicModeNameTrimmed(t, mode);
    TonicModeNameTonic(t, mode);
    DetectModeOfName(t, mode);
    CanonicalSharpName(t);
    NormalizeTonicText(t + " " + ModeName(mode), t, t + " " + ModeName(mode));
  }

  /**
   * Round trip through the table: the "TONIC MODE" name of every entry
   * normalises to that entry's key.
   */
  lemma NormalizeEntryName(c: CamelotKey)
    ensures NormalizeKey(Some(Info(c).tonic + " " + ModeName(Info(c).mode))).camelot == Some(c)
  {
    TableFollowsCircleOfFifths(c);
    NormalizeTonicModeName(Info(c).tonic, Info(c).mode);
    KeyToCamelotOfEntryName(c);
  }

  /**
   * The output invariant: a key is found only together with a non-empty
   * canonical name, and only for text that is not blank; an empty canonical
   * name comes with no key and the raw text (empty when blank) as display form.
   */
  lemma NormalizedKeyFields(raw: Option<string>)
    ensures NormalizeKey(raw).camelot.Some? ==> NormalizeKey(raw).canonicalKey != "" && !IsBlankKey(raw)
    ensures NormalizeKey(raw).canonicalKey == "" ==>
      NormalizeKey(raw).camelot.None? && NormalizeKey(raw).prettyKey == (if IsBlankKey(raw) then "" else raw.value)
  {
    NormalizeBlank(raw);
    if !IsBlankKey(raw) {
      var s := Trim(raw.value);
      if ParseCamelotText(s).Some? {
        assert |Upper(s)| == |s| > 0;
      } else if TonicPrefix(ReplaceAccidentalGlyphs(s)).None? {
        NormalizeNoTonic(raw.value);
      } else {
        NormalizeTonic(raw.value);
        var t := ReplaceAccidentalGlyphs(s);
        var tonic := CanonicalTonic(TonicPrefix(t).value);
        assert |tonic + " " + ModeName(DetectMode(t))| > 0;
      }
    }
  }
}
