/**
 * Transition scoring (lib/scoring.ts): a key score from the Camelot relation of
 * two keys, a tempo score from the closest of the direct, half-time and
 * double-time tempo differences, and their weighted blend.
 */
module Scoring {
  import opened Camelot
  import opened Text
  import opened StableSort

  datatype KeyStrictness = Strict | Normal | Creative

  /** 'same' | 'adjacent' | 'relative' | 'energy+2' | 'other'. */
  datatype KeyRelation = Same | Adjacent | Relative | EnergyBoost | Other

  /** 'direct' | 'half' | 'double'. */
  datatype BpmMode = Direct | Half | Double

  datatype ScoringParams = ScoringParams(keyWeight: real, bpmTolerance: real, halfDoubleEnabled: bool, strictness: KeyStrictness)

  const DefaultScoring: ScoringParams := ScoringParams(0.65, 6.0, true, Normal)

  /** The ranges the controls offer: a key weight in [0, 1] and a tolerance of 1 to 12 BPM. */
  predicate ValidParams(p: ScoringParams) {
    0.0 <= p.keyWeight <= 1.0 && 1.0 <= p.bpmTolerance <= 12.0
  }

  function RelationName(r: KeyRelation): string {
    match r
    case Same => "same"
    case Adjacent => "adjacent"
    case Relative => "relative"
    case EnergyBoost => "energy+2"
    case Other => "other"
  }

  function BpmModeName(m: BpmMode): string {
    match m
    case Direct => "direct"
    case Half => "half"
    case Double => "double"
  }

  // ---------------------------------------------------------------------
  // computeKeyScore
  // ---------------------------------------------------------------------

  datatype KeyScore = KeyScore(score: real, relation: KeyRelation)

  /** The score each relation earns. */
  function RelationScore(relation: KeyRelation, strictness: KeyStrictness): real {
    match relation
    case Same => 1.0
    case Adjacent => 0.9
    case Relative => 0.85
    case EnergyBoost => 0.7
    case Other => if strictness == Strict then 0.0 else 0.2
  }

  /**
   * `computeKeyScore`: the first rule that applies wins. Each relation is
   * characterised by the circular step count between the wheel numbers and
   * whether the letters agree.
   */
  function ComputeKeyScore(from: CamelotKey, to: CamelotKey, strictness: KeyStrictness): (r: KeyScore)
    ensures r.relation == Same <==> from == to
    ensures r.relation == Adjacent <==> from.letter == to.letter && CircularSteps(from.number, to.number) == 1
    ensures r.relation == Relative <==> from.number == to.number && from.letter != to.letter
    ensures r.relation == EnergyBoost <==>
      strictness == Creative && from.letter == to.letter && CircularSteps(from.number, to.number) == 2
    ensures r.score == RelationScore(r.relation, strictness)
  {
    var numDiff := Abs(from.number - to.number);
    var wrappedDiff := if numDiff <= 12 - numDiff then numDiff else 12 - numDiff;
    var sameLetter := from.letter == to.letter;
    if from.number == to.number && sameLetter then KeyScore(1.0, Same)
    else if wrappedDiff == 1 && sameLetter then KeyScore(0.9, Adjacent)
    else if from.number == to.number && !sameLetter then KeyScore(0.85, Relative)
    else if wrappedDiff == 2 && sameLetter && strictness == Creative then KeyScore(0.7, EnergyBoost)
    else KeyScore(if strictness == Strict then 0.0 else 0.2, Other)
  }

  /** The key score depends only on the distance between the keys, so swapping them changes nothing. */
  lemma KeyScoreSymmetric(a: CamelotKey, b: CamelotKey, strictness: KeyStrictness)
    ensures ComputeKeyScore(a, b, strictness) == ComputeKeyScore(b, a, strictness)
  {
    assert CircularSteps(a.number, b.number) == CircularSteps(b.number, a.number);
  }

  /** The possible key scores, and when 'energy+2' and a zero score occur. */
  lemma KeyScoreValues(a: CamelotKey, b: CamelotKey, strictness: KeyStrictness)
    ensures ComputeKeyScore(a, b, strictness).score in {1.0, 0.9, 0.85, 0.7, 0.2, 0.0}
    ensures 0.0 <= ComputeKeyScore(a, b, strictness).score <= 1.0
    ensures ComputeKeyScore(a, b, strictness).relation == EnergyBoost ==> strictness == Creative
    ensures ComputeKeyScore(a, b, strictness).score == 0.0 <==>
      ComputeKeyScore(a, b, strictness).relation == Other && strictness == Strict
  {
  }

  /** The key score is exactly the score of the Camelot distance's relation. */
  lemma KeyScoreByDistance(a: CamelotKey, b: CamelotKey, strictness: KeyStrictness)
    ensures var d := CamelotDistance(a, b);
      ComputeKeyScore(a, b, strictness).relation ==
        if d.numDiff == 0 && d.sameLetter then Same
        else if d.numDiff == 1 && d.sameLetter then Adjacent
        else if d.numDiff == 0 then Relative
        else if d.numDiff == 2 && d.sameLetter && strictness == Creative then EnergyBoost
        else Other
  {
  }

  // ---------------------------------------------------------------------
  // bpmScoreFromDelta
  // ---------------------------------------------------------------------

  datatype Threshold = Threshold(delta: real, score: real)

  const DefaultBpmThresholds: seq<Threshold> :=
    [Threshold(1.0, 1.0), Threshold(3.0, 0.85), Threshold(6.0, 0.65), Threshold(10.0, 0.35)]

  /** The score when the difference passes every threshold. */
  const FallbackBpmScore: real := 0.1

  function ScaleThresholds(ts: seq<Threshold>, scale: real): (r: seq<Threshold>)
    ensures |r| == |ts|
    ensures forall i :: 0 <= i < |ts| ==> r[i] == Threshold(ts[i].delta * scale, ts[i].score)
  {
    if ts == [] then [] else [Threshold(ts[0].delta * scale, ts[0].score)] + ScaleThresholds(ts[1..], scale)
  }

  /** The score of the first threshold the difference does not exceed. */
  function FirstThresholdScore(delta: real, ts: seq<Threshold>): real {
    if ts == [] then FallbackBpmScore
    else if delta <= ts[0].delta then ts[0].score
    else FirstThresholdScore(delta, ts[1..])
  }

  /** `bpmScoreFromDelta`: the default thresholds scaled by `tolerance / 6`. */
  function BpmScoreFromDelta(delta: real, tolerance: real): real {
    FirstThresholdScore(delta, ScaleThresholds(DefaultBpmThresholds, tolerance / 6.0))
  }

  /** The scaled thresholds as one piecewise definition. */
  lemma BpmScoreTable(delta: real, tolerance: real)
    ensures BpmScoreFromDelta(delta, tolerance) ==
      if delta <= tolerance / 6.0 then 1.0
      else if delta <= 3.0 * tolerance / 6.0 then 0.85
      else if delta <= 6.0 * tolerance / 6.0 then 0.65
      else if delta <= 10.0 * tolerance / 6.0 then 0.35
      else 0.1
  {
    var ts := ScaleThresholds(DefaultBpmThresholds, tolerance / 6.0);
    var t1 := ts[1..];
    var t2 := t1[1..];
    var t3 := t2[1..];
    assert ts[0] == Threshold(tolerance / 6.0, 1.0);
    assert t1[0] == ts[1] == Threshold(3.0 * (tolerance / 6.0), 0.85);
    assert t2[0] == ts[2] == Threshold(6.0 * (tolerance / 6.0), 0.65);
    assert t3[0] == ts[3] == Threshold(10.0 * (tolerance / 6.0), 0.35);
    assert t3[1..] == [];
    assert FirstThresholdScore(delta, t3) == if delta <= t3[0].delta then 0.35 else 0.1;
    assert FirstThresholdScore(delta, t2) == if delta <= t2[0].delta then 0.65 else FirstThresholdScore(delta, t3);
    assert FirstThresholdScore(delta, t1) == if delta <= t1[0].delta then 0.85 else FirstThresholdScore(delta, t2);
  }

  /** Thresholds whose differences rise while their scores fall, all above the fallback. */
  ghost predicate Graded(ts: seq<Threshold>) {
    && (forall i, j :: 0 <= i < j < |ts| ==> ts[i].delta <= ts[j].delta && ts[j].score <= ts[i].score)
    && (forall i :: 0 <= i < |ts| ==> FallbackBpmScore <= ts[i].score)
  }

  lemma {:induction false} FirstThresholdScoreMonotone(d1: real, d2: real, ts: seq<Threshold>)
    requires Graded(ts) && d1 <= d2
    ensures FirstThresholdScore(d2, ts) <= FirstThresholdScore(d1, ts)
  {
    if ts != [] && d2 > ts[0].delta {
      assert Graded(ts[1..]);
      FirstThresholdScoreMonotone(d1, d2, ts[1..]);
      if d1 <= ts[0].delta {
        FirstThresholdScoreAtMost(d2, ts[1..], ts[0].score);
      }
    }
  }

  lemma {:induction false} FirstThresholdScoreAtMost(d: real, ts: seq<Threshold>, bound: real)
    requires Graded(ts) && FallbackBpmScore <= bound
    requires forall i :: 0 <= i < |ts| ==> ts[i].score <= bound
    ensures FirstThresholdScore(d, ts) <= bound
  {
    if ts != [] && d > ts[0].delta {
      assert Graded(ts[1..]);
      FirstThresholdScoreAtMost(d, ts[1..], bound);
    }
  }

  lemma DefaultThresholdsGraded(tolerance: real)
    requires tolerance >= 0.0
    ensures Graded(ScaleThresholds(DefaultBpmThresholds, tolerance / 6.0))
  {
    var s := tolerance / 6.0;
    var ts := ScaleThresholds(DefaultBpmThresholds, s);
    var scaled := [Threshold(s, 1.0), Threshold(3.0 * s, 0.85), Threshold(6.0 * s, 0.65), Threshold(10.0 * s, 0.35)];
    assert ts[0] == scaled[0] && ts[1] == scaled[1] && ts[2] == scaled[2] && ts[3] == scaled[3];
    assert ts == scaled;
    ScaledDefaultsGraded(s);
  }

  /** The default table, scaled by a non-negative factor, widens and scores lower step by step. */
  lemma ScaledDefaultsGraded(s: real)
    requires s >= 0.0
    ensures Graded([Threshold(s, 1.0), Threshold(3.0 * s, 0.85), Threshold(6.0 * s, 0.65), Threshold(10.0 * s, 0.35)])
  {
  }

  /** A larger tempo difference never scores higher. */
  lemma BpmScoreNonIncreasingInDelta(d1: real, d2: real, tolerance: real)
    requires tolerance >= 0.0 && d1 <= d2
    ensures BpmScoreFromDelta(d2, tolerance) <= BpmScoreFromDelta(d1, tolerance)
  {
    DefaultThresholdsGraded(tolerance);
    FirstThresholdScoreMonotone(d1, d2, ScaleThresholds(DefaultBpmThresholds, tolerance / 6.0));
  }

  /** A larger tolerance never scores lower. */
  lemma BpmScoreNonDecreasingInTolerance(delta: real, t1: real, t2: real)
    requires t1 <= t2
    ensures BpmScoreFromDelta(delta, t1) <= BpmScoreFromDelta(delta, t2)
  {
    BpmScoreTable(delta, t1);
    BpmScoreTable(delta, t2);
  }

  lemma BpmScoreBounds(delta: real, tolerance: real)
    ensures 0.1 <= BpmScoreFromDelta(delta, tolerance) <= 1.0
  {
    BpmScoreTable(delta, tolerance);
  }

  // ---------------------------------------------------------------------
  // computeBpmScore
  // ---------------------------------------------------------------------

  datatype Candidate = Candidate(delta: real, mode: BpmMode)

  datatype BpmScore = BpmScore(score: real, delta: real, mode: BpmMode)

  function AbsReal(x: real): (r: real)
    ensures r >= 0.0 && (r == x || r == -x)
  {
    if x < 0.0 then -x else x
  }

  /** Only the second tempo is halved or doubled. */
  function BpmCandidates(bpm1: real, bpm2: real, halfDoubleEnabled: bool): seq<Candidate> {
    [Candidate(AbsReal(bpm1 - bpm2), Direct)]
      + (if halfDoubleEnabled
         then [Candidate(AbsReal(bpm1 - bpm2 / 2.0), Half), Candidate(AbsReal(bpm1 - bpm2 * 2.0), Double)]
         else [])
  }

  function CandidateDelta(c: Candidate): real {
    c.delta
  }

  /** `computeBpmScore`: the candidates sorted by difference (stably); the first one wins. */
  function ComputeBpmScore(bpm1: real, bpm2: real, params: ScoringParams): (r: BpmScore)
    ensures r.delta >= 0.0
    ensures r.score == BpmScoreFromDelta(r.delta, params.bpmTolerance)
  {
    var best := SortBy(BpmCandidates(bpm1, bpm2, params.halfDoubleEnabled), CandidateDelta)[0];
    BpmScore(BpmScoreFromDelta(best.delta, params.bpmTolerance), best.delta, best.mode)
  }

  /** The least of the candidate differences, earliest on ties: direct, then half, then double. */
  lemma BpmScoreChoice(bpm1: real, bpm2: real, params: ScoringParams)
    ensures var r := ComputeBpmScore(bpm1, bpm2, params);
      var direct := AbsReal(bpm1 - bpm2);
      var half := AbsReal(bpm1 - bpm2 / 2.0);
      var double := AbsReal(bpm1 - bpm2 * 2.0);
      if !params.halfDoubleEnabled then r.mode == Direct && r.delta == direct
      else
        && (r.mode == Direct <==> direct <= half && direct <= double)
        && (r.mode == Half <==> half < direct && half <= double)
        && (r.mode == Double <==> double < direct && double < half)
        && r.delta <= direct && r.delta <= half && r.delta <= double
        && (r.delta == direct || r.delta == half || r.delta == double)
  {
    var cs := BpmCandidates(bpm1, bpm2, params.halfDoubleEnabled);
    SortByHead(cs, CandidateDelta);
    var i := FirstMinIndex(cs, CandidateDelta);
    var r := ComputeBpmScore(bpm1, bpm2, params);
    assert r.mode == cs[i].mode && r.delta == cs[i].delta;
    if params.halfDoubleEnabled {
      FirstMinOfThree(cs, CandidateDelta);
    }
  }

  /** Of three candidates, the first least one. */
  lemma FirstMinOfThree<T>(s: seq<T>, key: T -> real)
    requires |s| == 3
    ensures FirstMinIndex(s, key)
      == if key(s[0]) <= key(s[1]) && key(s[0]) <= key(s[2]) then 0 else if key(s[1]) <= key(s[2]) then 1 else 2
  {
    var i := FirstMinIndex(s, key);
    assert key(s[i]) <= key(s[0]) && key(s[i]) <= key(s[1]) && key(s[i]) <= key(s[2]);
  }

  /** 120 against 240 matches at half time (the second tempo halved), with no difference. */
  lemma HalfTimeExample()
    ensures ComputeBpmScore(120.0, 240.0, DefaultScoring) == BpmScore(1.0, 0.0, Half)
  {
    BpmScoreChoice(120.0, 240.0, DefaultScoring);
    BpmScoreTable(0.0, 6.0);
  }

  /** Swapping the tempos changes the match: only the second one is ever scaled. */
  lemma BpmScoreAsymmetric()
    ensures ComputeBpmScore(240.0, 120.0, DefaultScoring).mode == Double
    ensures ComputeBpmScore(100.0, 150.0, DefaultScoring).delta == 25.0
    ensures ComputeBpmScore(150.0, 100.0, DefaultScoring).delta == 50.0
  {
    BpmScoreChoice(240.0, 120.0, DefaultScoring);
    BpmScoreChoice(100.0, 150.0, DefaultScoring);
    BpmScoreChoice(150.0, 100.0, DefaultScoring);
  }

  // ---------------------------------------------------------------------
  // scoreTransition
  // ---------------------------------------------------------------------

  datatype TransitionInsight = TransitionInsight(
    fromId: string,
    toId: string,
    keyRelation: KeyRelation,
    bpmDelta: real,
    bpmMode: BpmMode,
    keyScore: real,
    bpmScore: real,
    totalScore: real,
    explanation: string)

  /** `Key: <relation> (<from>→<to>), BPM[ <mode>-time] Δ=<delta to one decimal>`. */
  function Explanation(relation: KeyRelation, from: CamelotKey, to: CamelotKey, mode: BpmMode, delta: real): string {
    var modeText := if mode == Direct then "" else " " + BpmModeName(mode) + "-time";
    var head := "Key: " + RelationName(relation) + " (";
    head + (KeyText(from) + "→" + KeyText(to) + "), BPM" + modeText + " Δ=" + Fixed1(delta))
  }

  /** The weighted blend of the two scores. */
  function Blend(keyWeight: real, keyScore: real, bpmScore: real): real {
    keyWeight * keyScore + (1.0 - keyWeight) * bpmScore
  }

  lemma MulNonNegative(x: real, y: real)
    requires x >= 0.0 && y >= 0.0
    ensures x * y >= 0.0
  {
  }

  /** A blend with a weight in [0, 1] lies between the two scores it blends. */
  lemma BlendBetween(w: real, a: real, b: real)
    requires 0.0 <= w <= 1.0 && a <= b
    ensures a <= Blend(w, a, b) <= b
  {
    MulNonNegative(w, b - a);
    MulNonNegative(1.0 - w, b - a);
    assert Blend(w, a, b) == a + (1.0 - w) * (b - a);
    assert Blend(w, a, b) == b - w * (b - a);
  }

  lemma BlendBounds(w: real, a: real, b: real)
    requires 0.0 <= w <= 1.0
    ensures (a <= b ==> a <= Blend(w, a, b) <= b) && (b <= a ==> b <= Blend(w, a, b) <= a)
  {
    if a <= b {
      BlendBetween(w, a, b);
    }
    if b <= a {
      BlendBetween(1.0 - w, b, a);
      assert Blend(1.0 - w, b, a) == Blend(w, a, b);
    }
  }

  function ScoreTransition(fromId: string, toId: string, fromCamelot: CamelotKey, toCamelot: CamelotKey,
                           fromBpm: real, toBpm: real, params: ScoringParams): (r: TransitionInsight)
    ensures r.fromId == fromId && r.toId == toId
    ensures r.bpmDelta >= 0.0
    ensures ValidParams(params) ==> 0.0 <= r.totalScore <= 1.0
  {
    var key := ComputeKeyScore(fromCamelot, toCamelot, params.strictness);
    var bpm := ComputeBpmScore(fromBpm, toBpm, params);
    var total := Blend(params.keyWeight, key.score, bpm.score);
    KeyScoreValues(fromCamelot, toCamelot, params.strictness);
    BpmScoreBounds(bpm.delta, params.bpmTolerance);
    if ValidParams(params) then
      BlendBounds(params.keyWeight, key.score, bpm.score);
      TransitionInsight(fromId, toId, key.relation, bpm.delta, bpm.mode, key.score, bpm.score, total,
                        Explanation(key.relation, fromCamelot, toCamelot, bpm.mode, bpm.delta))
    else
    TransitionInsight(fromId, toId, key.relation, bpm.delta, bpm.mode, key.score, bpm.score, total,
                      Explanation(key.relation, fromCamelot, toCamelot, bpm.mode, bpm.delta))
  }

  /** The insight's parts are the key score and tempo score of the two tracks, and the total lies between them. */
  lemma ScoreTransitionParts(fromId: string, toId: string, fromCamelot: CamelotKey, toCamelot: CamelotKey,
                             fromBpm: real, toBpm: real, params: ScoringParams)
    requires ValidParams(params)
    ensures var r := ScoreTransition(fromId, toId, fromCamelot, toCamelot, fromBpm, toBpm, params);
      && r.keyScore == ComputeKeyScore(fromCamelot, toCamelot, params.strictness).score
      && r.keyRelation == ComputeKeyScore(fromCamelot, toCamelot, params.strictness).relation
      && ComputeBpmScore(fromBpm, toBpm, params) == BpmScore(r.bpmScore, r.bpmDelta, r.bpmMode)
      && (r.keyScore <= r.bpmScore ==> r.keyScore <= r.totalScore <= r.bpmScore)
      && (r.bpmScore <= r.keyScore ==> r.bpmScore <= r.totalScore <= r.keyScore)
  {
    var key := ComputeKeyScore(fromCamelot, toCamelot, params.strictness);
    var bpm := ComputeBpmScore(fromBpm, toBpm, params);
    BlendBounds(params.keyWeight, key.score, bpm.score);
  }

  /** The explanation opens with the relation's name. */
  lemma ExplanationNamesRelation(relation: KeyRelation, from: CamelotKey, to: CamelotKey, mode: BpmMode, delta: real)
    ensures var e := Explanation(relation, from, to, mode, delta);
      StartsWith(e, "Key: " + RelationName(relation) + " (")
  {
    var head := "Key: " + RelationName(relation) + " (";
    var e := Explanation(relation, from, to, mode, delta);
    assert e[..|head|] == head;
  }
}
