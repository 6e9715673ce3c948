/**
 * The text halves of the set exports (components/BestSetOrder.tsx): the CSV
 * and M3U documents built from a set variant, and the download file name.
 *
 * The CSV quotes title and artist the way section 2 rule 7 of RFC 4180 asks
 * (the field in double quotes, each inner quote doubled) but leaves the tempo,
 * the Camelot key and the raw key unquoted, and separates records by a bare
 * line feed rather than the CRLF of section 2 rule 1. The documents are
 * proved to read back: splitting on the separators recovers the lines and
 * fields, and unquoting recovers title and artist, as long as the free text
 * carries no separator of its own.
 */
module SetExport {
  import opened Wrappers
  import opened Text
  import opened Camelot
  import opened Collection
  import opened Ordering

  // ---------------------------------------------------------------------
  // Quoting
  // ---------------------------------------------------------------------

  /** `s.replace(/"/g, '""')`: every double quote doubled, nothing else changed. */
  function DoubleQuotes(s: string): (r: string)
    ensures forall c :: c in r && c != '"' ==> c in s
  {
    if s == [] then []
    else (if s[0] == '"' then "\"\"" else [s[0]]) + DoubleQuotes(s[1..])
  }

  /** `"${s.replace(/"/g, '""')}"`. */
  function Quote(s: string): string {
    "\"" + DoubleQuotes(s) + "\""
  }

  /**
   * The inside of a quoted field read back as RFC 4180 reads it: a doubled
   * quote stands for one quote, and a quote standing alone is malformed.
   */
  function UndoubleQuotes(s: string): Option<string> {
    if s == [] then Some([])
    else if s[0] != '"' then
      match UndoubleQuotes(s[1..])
      case Some(r) => Some([s[0]] + r)
      case None => None
    else if |s| >= 2 && s[1] == '"' then
      match UndoubleQuotes(s[2..])
      case Some(r) => Some("\"" + r)
      case None => None
    else None
  }

  /** A quoted field read back: the text between the outer quotes, undoubled. */
  function Unquote(f: string): Option<string> {
    if |f| >= 2 && f[0] == '"' && f[|f| - 1] == '"' then UndoubleQuotes(f[1..|f| - 1]) else None
  }

  lemma {:induction false} UndoubleDoubled(s: string)
    ensures UndoubleQuotes(DoubleQuotes(s)) == Some(s)
  {
    if s != [] {
      UndoubleDoubled(s[1..]);
      var rest := DoubleQuotes(s[1..]);
      if s[0] == '"' {
        var d := "\"\"" + rest;
        assert d[0] == '"' && d[1] == '"' && d[2..] == rest;
      } else {
        var d := [s[0]] + rest;
        assert d[0] == s[0] && d[1..] == rest;
      }
      assert [s[0]] + s[1..] == s;
    }
  }

  /** Quoting is undone by unquoting: the field gives back exactly the text. */
  lemma QuoteRoundTrip(s: string)
    ensures Unquote(Quote(s)) == Some(s)
  {
    var q := Quote(s);
    assert q[1..|q| - 1] == DoubleQuotes(s);
    UndoubleDoubled(s);
  }

  // ---------------------------------------------------------------------
  // Separators
  // ---------------------------------------------------------------------

  /** Text with neither a field separator nor a record separator. */
  predicate NoSeparators(s: string) {
    ',' !in s && '\n' !in s
  }

  lemma QuoteKeepsNoSeparators(s: string)
    requires NoSeparators(s)
    ensures NoSeparators(Quote(s))
  {
  }

  lemma NatTextNoSeparators(n: nat)
    ensures NoSeparators(NatToString(n))
  {
    var s := NatToString(n);
    assert forall i :: 0 <= i < |s| ==> IsDigit(s[i]);
  }

  lemma Fixed1NoSeparators(x: real)
    ensures NoSeparators(Fixed1(x))
  {
    var m := if x < 0.0 then -x else x;
    var tenths := (m * 10.0 + 0.5).Floor;
    NatTextNoSeparators(tenths / 10);
    var d := [DigitChar(tenths % 10)];
    assert NoSeparators(d);
  }

  lemma KeyTextNoSeparators(c: CamelotKey)
    ensures NoSeparators(KeyText(c))
  {
    NatTextNoSeparators(c.number);
  }

  lemma IntTextNoSeparators(i: int)
    ensures NoSeparators(IntToString(i))
  {
    NatTextNoSeparators(if i < 0 then -i else i);
  }

  // ---------------------------------------------------------------------
  // CSV
  // ---------------------------------------------------------------------

  const CsvHeader: seq<string> := ["Title", "Artist", "BPM", "Camelot", "OriginalKey"]

  /** `t.bpm?.toFixed(1) ?? ''`. */
  function BpmField(t: Track): string {
    if t.bpm.Some? then Fixed1(t.bpm.value) else ""
  }

  /** `t.camelot ?? ''`. */
  function CamelotField(t: Track): string {
    if t.camelot.Some? then KeyText(t.camelot.value) else ""
  }

  /** The five fields of a track's row: title and artist quoted, the rest as they are. */
  function CsvFields(t: Track): seq<string> {
    [Quote(t.title), Quote(t.artist), BpmField(t), CamelotField(t), t.rawKey.GetOr("")]
  }

  function CsvRowLines(tracks: seq<Track>): seq<string> {
    if tracks == [] then [] else [Join(CsvFields(tracks[0]), ",")] + CsvRowLines(tracks[1..])
  }

  /** `rows.map(r => r.join(','))`: the header row, then one row per track. */
  function CsvLines(tracks: seq<Track>): seq<string> {
    [Join(CsvHeader, ",")] + CsvRowLines(tracks)
  }

  /** The text `exportCSV` puts in the file: the rows joined by line feeds. */
  function ExportCsv(v: SetVariant): string {
    Join(CsvLines(v.tracks), "\n")
  }

  lemma {:induction false} CsvRowLinesShape(tracks: seq<Track>)
    ensures var rows := CsvRowLines(tracks);
      |rows| == |tracks| && forall k :: 0 <= k < |tracks| ==> rows[k] == Join(CsvFields(tracks[k]), ",")
  {
    if tracks != [] {
      CsvRowLinesShape(tracks[1..]);
      var rows := CsvRowLines(tracks);
      forall k | 0 < k < |tracks| ensures rows[k] == Join(CsvFields(tracks[k]), ",") {
        assert rows[k] == CsvRowLines(tracks[1..])[k - 1];
        assert tracks[1..][k - 1] == tracks[k];
      }
    }
  }

  /** The first row is the header; row `k + 1` is the `k`-th track's, in set order. */
  lemma CsvLinesShape(tracks: seq<Track>)
    ensures var lines := CsvLines(tracks);
      && |lines| == |tracks| + 1
      && lines[0] == "Title" + "," + "Artist" + "," + "BPM" + "," + "Camelot" + "," + "OriginalKey"
      && forall k :: 0 <= k < |tracks| ==> lines[k + 1] == Join(CsvFields(tracks[k]), ",")
  {
    CsvRowLinesShape(tracks);
    HeaderLine();
  }

  lemma HeaderLine()
    ensures Join(CsvHeader, ",") == "Title" + "," + "Artist" + "," + "BPM" + "," + "Camelot" + "," + "OriginalKey"
  {
    JoinFive("Title", "Artist", "BPM", "Camelot", "OriginalKey", ",");
  }

  lemma JoinFive(a: string, b: string, c: string, d: string, e: string, sep: string)
    ensures Join([a, b, c, d, e], sep) == a + sep + b + sep + c + sep + d + sep + e
  {
    var p := [a, b, c, d, e];
    assert p[1..] == [b, c, d, e] && p[1..][1..] == [c, d, e] && p[1..][1..][1..] == [d, e];
    assert [d, e][1..] == [e];
    var de := d + sep + e;
    assert Join([d, e], sep) == de;
    var cde := c + sep + de;
    assert Join([c, d, e], sep) == cde;
    var bcde := b + sep + cde;
    assert Join([b, c, d, e], sep) == bcde;
    assert Join(p, sep) == a + sep + bcde;
  }

  lemma HeaderNoLineFeed()
    ensures '\n' !in Join(CsvHeader, ",")
  {
    var h := CsvHeader;
    assert forall i :: 0 <= i < |h| ==> '\n' !in h[i];
    NotInJoin(h, ",", '\n');
  }

  /** The free text of a track holds no separator. */
  predicate PlainText(t: Track) {
    NoSeparators(t.title) && NoSeparators(t.artist) && NoSeparators(t.rawKey.GetOr(""))
  }

  lemma FieldsNoSeparators(t: Track)
    requires PlainText(t)
    ensures forall i :: 0 <= i < |CsvFields(t)| ==> NoSeparators(CsvFields(t)[i])
  {
    QuoteKeepsNoSeparators(t.title);
    QuoteKeepsNoSeparators(t.artist);
    if t.bpm.Some? {
      Fixed1NoSeparators(t.bpm.value);
    }
    if t.camelot.Some? {
      KeyTextNoSeparators(t.camelot.value);
    }
  }

  /**
   * A row reads back: split on commas it gives the five fields, title and
   * artist unquote to the track's own text, and the other three are as stored.
   */
  lemma CsvRowReadsBack(t: Track)
    requires PlainText(t)
    ensures var parts := Split(Join(CsvFields(t), ","), ',');
      && |parts| == 5
      && Unquote(parts[0]) == Some(t.title)
      && Unquote(parts[1]) == Some(t.artist)
      && parts[2] == BpmField(t) && parts[3] == CamelotField(t) && parts[4] == t.rawKey.GetOr("")
  {
    FieldsNoSeparators(t);
    SplitJoinRoundTrip(CsvFields(t), ',');
    QuoteRoundTrip(t.title);
    QuoteRoundTrip(t.artist);
  }

  /** The document reads back: split on line feeds it gives the header row and the track rows. */
  lemma CsvReadsBack(v: SetVariant)
    requires forall k :: 0 <= k < |v.tracks| ==> PlainText(v.tracks[k])
    ensures Split(ExportCsv(v), '\n') == CsvLines(v.tracks)
  {
    var lines := CsvLines(v.tracks);
    CsvLinesShape(v.tracks);
    forall i | 0 <= i < |lines| ensures '\n' !in lines[i] {
      if i == 0 {
        HeaderNoLineFeed();
      } else {
        var t := v.tracks[i - 1];
        FieldsNoSeparators(t);
        NotInJoin(CsvFields(t), ",", '\n');
      }
    }
    SplitJoinRoundTrip(lines, '\n');
  }

  // ---------------------------------------------------------------------
  // M3U
  // ---------------------------------------------------------------------

  /** `#EXTINF:${Math.round((t.bpm ?? 0) * 60)},${t.artist} - ${t.title}`. */
  function ExtInf(t: Track): string {
    "#EXTINF:" + IntToString(RoundHalfUp(TempoOf(t) * 60.0)) + "," + t.artist + " - " + t.title
  }

  /** `${t.title}.mp3`. */
  function FileLine(t: Track): string {
    t.title + ".mp3"
  }

  /** Two lines per element, in order: `first` of it, then `second` of it. */
  function Pairs<T>(s: seq<T>, first: T -> string, second: T -> string): seq<string> {
    if s == [] then [] else [first(s[0]), second(s[0])] + Pairs(s[1..], first, second)
  }

  lemma {:induction false} PairsShape<T>(s: seq<T>, first: T -> string, second: T -> string)
    ensures var ls := Pairs(s, first, second);
      && |ls| == 2 * |s|
      && forall k :: 0 <= k < |s| ==> ls[2 * k] == first(s[k]) && ls[2 * k + 1] == second(s[k])
  {
    if s != [] {
      PairsShape(s[1..], first, second);
      var ls := Pairs(s, first, second);
      var rest := Pairs(s[1..], first, second);
      assert ls == [first(s[0]), second(s[0])] + rest;
      forall k | 0 < k < |s| ensures ls[2 * k] == first(s[k]) && ls[2 * k + 1] == second(s[k]) {
        var j := k - 1;
        assert s[1..][j] == s[k];
        assert 2 * k == 2 * j + 2;
      }
    }
  }

  function M3uTrackLines(tracks: seq<Track>): seq<string> {
    Pairs(tracks, ExtInf, FileLine)
  }

  /** `#EXTM3U`, then two lines per track. */
  function M3uLines(tracks: seq<Track>): seq<string> {
    ["#EXTM3U"] + M3uTrackLines(tracks)
  }

  /** The text `exportM3U` puts in the file. */
  function ExportM3u(v: SetVariant): string {
    Join(M3uLines(v.tracks), "\n")
  }

  /** `#EXTM3U` first, then for the `k`-th track its `#EXTINF` line and its file line, in set order. */
  lemma M3uLinesShape(tracks: seq<Track>)
    ensures var ls := M3uLines(tracks);
      && |ls| == 1 + 2 * |tracks|
      && ls[0] == "#EXTM3U"
      && forall k :: 0 <= k < |tracks| ==> ls[2 * k + 1] == ExtInf(tracks[k]) && ls[2 * k + 2] == tracks[k].title + ".mp3"
  {
    PairsShape(tracks, ExtInf, FileLine);
  }

  lemma ExtInfNoLineFeed(t: Track)
    requires '\n' !in t.title && '\n' !in t.artist
    ensures '\n' !in FileLine(t)
    ensures '\n' !in ExtInf(t)
  {
    IntTextNoSeparators(RoundHalfUp(TempoOf(t) * 60.0));
  }

  lemma M3uTrackLinesClean(tracks: seq<Track>)
    requires forall k :: 0 <= k < |tracks| ==> '\n' !in tracks[k].title && '\n' !in tracks[k].artist
    ensures forall i :: 0 <= i < |M3uTrackLines(tracks)| ==> '\n' !in M3uTrackLines(tracks)[i]
  {
    forall t | t in tracks ensures '\n' !in ExtInf(t) && '\n' !in FileLine(t) {
      ExtInfNoLineFeed(t);
    }
    PairsAvoid(tracks, ExtInf, FileLine, '\n');
  }

  /** A character that neither line function ever produces is in no line. */
  lemma {:induction false} PairsAvoid<T>(s: seq<T>, first: T -> string, second: T -> string, c: char)
    requires forall x :: x in s ==> c !in first(x) && c !in second(x)
    ensures forall i :: 0 <= i < |Pairs(s, first, second)| ==> c !in Pairs(s, first, second)[i]
  {
    if s != [] {
      PairsAvoid(s[1..], first, second, c);
      var ls := Pairs(s, first, second);
      var rest := Pairs(s[1..], first, second);
      assert ls == [first(s[0]), second(s[0])] + rest;
      forall i | 2 <= i < |ls| ensures c !in ls[i] {
        assert ls[i] == rest[i - 2];
      }
    }
  }

  /** The playlist reads back line by line when titles and artists hold no line feed. */
  lemma M3uReadsBack(v: SetVariant)
    requires forall k :: 0 <= k < |v.tracks| ==> '\n' !in v.tracks[k].title && '\n' !in v.tracks[k].artist
    ensures Split(ExportM3u(v), '\n') == M3uLines(v.tracks)
  {
    var ls := M3uLines(v.tracks);
    M3uTrackLinesClean(v.tracks);
    assert forall i :: 0 < i < |ls| ==> ls[i] == M3uTrackLines(v.tracks)[i - 1];
    SplitJoinRoundTrip(ls, '\n');
  }

  // ---------------------------------------------------------------------
  // Download name
  // ---------------------------------------------------------------------

  /** `${variant.name.replace(/ /g, '_')}.${ext}`. */
  function DownloadName(name: string, ext: string): string {
    ReplaceChar(name, ' ', '_') + "." + ext
  }

  /**
   * The name is the name with every space made an underscore, then the
   * extension; a name without underscores is recovered by the reverse swap.
   */
  lemma DownloadNameShape(name: string, ext: string)
    ensures var n := DownloadName(name, ext);
      && |n| == |name| + 1 + |ext|
      && ' ' !in n[..|name|]
      && EndsWith(n, "." + ext)
      && ('_' !in name ==> ReplaceChar(n[..|name|], '_', ' ') == name)
  {
    var r := ReplaceChar(name, ' ', '_');
    var n := DownloadName(name, ext);
    assert n[..|name|] == r;
    assert n[|n| - |"." + ext|..] == "." + ext;
    if '_' !in name {
      var back := ReplaceChar(r, '_', ' ');
      assert forall i :: 0 <= i < |name| ==> back[i] == name[i];
    }
  }

  lemma {:induction false} ReplaceCharConcat(a: string, b: string, from: char, to: char)
    ensures ReplaceChar(a + b, from, to) == ReplaceChar(a, from, to) + ReplaceChar(b, from, to)
  {
    var l := ReplaceChar(a + b, from, to);
    var ra := ReplaceChar(a, from, to);
    var rb := ReplaceChar(b, from, to);
    var r := ra + rb;
    assert |l| == |r|;
    forall i | 0 <= i < |l| ensures l[i] == r[i] {
      if i < |a| {
        assert (a + b)[i] == a[i];
        assert r[i] == ra[i];
      } else {
        assert (a + b)[i] == b[i - |a|];
        assert r[i] == rb[i - |a|];
      }
    }
  }

  lemma ReplaceCharAbsent(s: string, from: char, to: char)
    requires from !in s
    ensures ReplaceChar(s, from, to) == s
  {
  }

  /** A two-word label such as "Balanced Flow" becomes "Balanced_Flow" plus the extension. */
  lemma TwoWordDownloadName(first: string, second: string, ext: string)
    requires ' ' !in first && ' ' !in second
    ensures DownloadName(first + " " + second, ext) == first + "_" + second + "." + ext
  {
    TwoWordReplaced(first, second);
  }

  lemma TwoWordReplaced(first: string, second: string)
    requires ' ' !in first && ' ' !in second
    ensures ReplaceChar(first + " " + second, ' ', '_') == first + "_" + second
  {
    ReplaceCharConcat(first + " ", second, ' ', '_');
    ReplaceCharConcat(first, " ", ' ', '_');
    ReplaceCharAbsent(first, ' ', '_');
    ReplaceCharAbsent(second, ' ', '_');
    assert ReplaceChar(" ", ' ', '_') == "_";
  }
}
