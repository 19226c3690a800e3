/**
  The on-screen score calculator of the evaluation table: capped per-criterion
  scores summed and normalised to a 0..10 scale, the flat approval threshold,
  and the clamp applied by each score input when the user types a value.
 */
module Scoring {
  import opened Common
  import opened Forms

  /** The form's `scores` record: criterion id to the stored numeric score. */
  type ScoreRecord = map<string, real>

  /** `scores[id] || 0`: a criterion with no stored score counts as 0. */
  function StoredScore(scores: ScoreRecord, id: string): real {
    if id in scores then scores[id] else 0.0
  }

  /** `Math.min(score, maxScore)`: only an upper cap, no lower clamp. */
  function Capped(score: real, maxScore: real): (v: real)
    ensures v <= maxScore && v <= score
    ensures v == score || v == maxScore
  {
    if score < maxScore then score else maxScore
  }

  /** The running `totalScore` of `calculateFinalScore`. */
  function TotalScore(cs: seq<Criterion>, scores: ScoreRecord): real {
    if |cs| == 0 then 0.0
    else Capped(StoredScore(scores, cs[0].id()), cs[0].maxScore) + TotalScore(cs[1..], scores)
  }

  /** `calculateFinalScore`: the capped total over the maximum total, times ten;
      0 when the maximum total is not positive. */
  function FinalScore(cs: seq<Criterion>, scores: ScoreRecord): real {
    var denominator := SumMaxScores(cs);
    if denominator > 0.0 then (TotalScore(cs, scores) / denominator) * 10.0 else 0.0
  }

  /** The green "APROVADO" badge: a flat threshold of 6, whatever the course. */
  predicate Approved(finalScore: real) {
    finalScore >= 6.0
  }

  /** The capped total never exceeds the maximum total. */
  lemma {:induction false} TotalAtMostMax(cs: seq<Criterion>, scores: ScoreRecord)
    ensures TotalScore(cs, scores) <= SumMaxScores(cs)
  {
    if |cs| > 0 {
      TotalAtMostMax(cs[1..], scores);
    }
  }

  /** With non-negative maxima and stored scores, the capped total is non-negative. */
  lemma {:induction false} TotalNonNegative(cs: seq<Criterion>, scores: ScoreRecord)
    requires forall i :: 0 <= i < |cs| ==> cs[i].maxScore >= 0.0
    requires forall id :: id in scores ==> scores[id] >= 0.0
    ensures TotalScore(cs, scores) >= 0.0
  {
    if |cs| > 0 {
      TotalNonNegative(cs[1..], scores);
    }
  }

  /** The total is monotone in every stored score. */
  lemma {:induction false} TotalMonotone(cs: seq<Criterion>, lo: ScoreRecord, hi: ScoreRecord)
    requires forall id :: StoredScore(lo, id) <= StoredScore(hi, id)
    ensures TotalScore(cs, lo) <= TotalScore(cs, hi)
  {
    if |cs| > 0 {
      TotalMonotone(cs[1..], lo, hi);
      assert StoredScore(lo, cs[0].id()) <= StoredScore(hi, cs[0].id());
    }
  }

  /** Two records with the same stored score for every criterion give the same total. */
  lemma {:induction false} TotalRespectsStoredScores(cs: seq<Criterion>, a: ScoreRecord, b: ScoreRecord)
    requires forall i :: 0 <= i < |cs| ==> Capped(StoredScore(a, cs[i].id()), cs[i].maxScore) == Capped(StoredScore(b, cs[i].id()), cs[i].maxScore)
    ensures TotalScore(cs, a) == TotalScore(cs, b)
  {
    if |cs| > 0 {
      assert cs[0] == cs[0];
      TotalRespectsStoredScores(cs[1..], a, b);
    }
  }

  /** Dividing by a positive denominator preserves order. */
  lemma DivMonotone(a: real, b: real, d: real)
    requires a <= b && d > 0.0
    ensures a / d <= b / d
  {
    var q, r := a / d, b / d;
    assert q * d == a && r * d == b;
    assert (r - q) * d == b - a;
  }

  /** The final score never exceeds 10, whatever the stored scores. */
  lemma FinalScoreAtMostTen(cs: seq<Criterion>, scores: ScoreRecord)
    ensures FinalScore(cs, scores) <= 10.0
  {
    var d := SumMaxScores(cs);
    if d > 0.0 {
      var t := TotalScore(cs, scores);
      TotalAtMostMax(cs, scores);
      DivMonotone(t, d, d);
    }
  }

  /** The final score is at least 0 whenever every stored score and maximum is. */
  lemma FinalScoreNonNegative(cs: seq<Criterion>, scores: ScoreRecord)
    requires forall i :: 0 <= i < |cs| ==> cs[i].maxScore >= 0.0
    requires forall id :: id in scores ==> scores[id] >= 0.0
    ensures FinalScore(cs, scores) >= 0.0
  {
    var d := SumMaxScores(cs);
    if d > 0.0 {
      TotalNonNegative(cs, scores);
      assert TotalScore(cs, scores) / d >= 0.0;
    }
  }

  /** A zero (or negative) maximum total yields 0 instead of a division by zero. */
  lemma ZeroMaximumScoresZero(cs: seq<Criterion>, scores: ScoreRecord)
    requires SumMaxScores(cs) <= 0.0
    ensures FinalScore(cs, scores) == 0.0 && !Approved(FinalScore(cs, scores))
  {
  }

  /** In particular an empty criteria list scores 0, whatever is stored. */
  lemma EmptyCriteriaScoreZero(scores: ScoreRecord)
    ensures FinalScore([], scores) == 0.0 && !Approved(FinalScore([], scores))
  {
    ZeroMaximumScoresZero([], scores);
  }

  /** Raising every stored score (pointwise) never lowers the final score. */
  lemma FinalScoreMonotone(cs: seq<Criterion>, lo: ScoreRecord, hi: ScoreRecord)
    requires forall id :: StoredScore(lo, id) <= StoredScore(hi, id)
    ensures FinalScore(cs, lo) <= FinalScore(cs, hi)
  {
    var d := SumMaxScores(cs);
    if d > 0.0 {
      TotalMonotone(cs, lo, hi);
      var a, b := TotalScore(cs, lo), TotalScore(cs, hi);
      DivMonotone(a, b, d);
    }
  }

  /** Raising one criterion's score never lowers the final score. */
  lemma RaiseOneScore(cs: seq<Criterion>, scores: ScoreRecord, id: string, v: real)
    requires v >= StoredScore(scores, id)
    ensures FinalScore(cs, scores) <= FinalScore(cs, scores[id := v])
  {
    FinalScoreMonotone(cs, scores, scores[id := v]);
  }

  /** A criterion with no entry scores exactly as if 0 had been stored for it. */
  lemma MissingScoreCountsAsZero(cs: seq<Criterion>, scores: ScoreRecord, id: string)
    requires id !in scores
    ensures FinalScore(cs, scores) == FinalScore(cs, scores[id := 0.0])
  {
    var z := scores[id := 0.0];
    forall i | 0 <= i < |cs|
      ensures Capped(StoredScore(scores, cs[i].id()), cs[i].maxScore) == Capped(StoredScore(z, cs[i].id()), cs[i].maxScore)
    {
    }
    TotalRespectsStoredScores(cs, scores, z);
  }

  /** A stored score at or above a criterion's maximum counts as exactly the
      maximum: 999 on a max-5 criterion is the same as 5. */
  lemma ExcessScoreIsCapped(cs: seq<Criterion>, scores: ScoreRecord, id: string, v: real, w: real)
    requires forall i :: 0 <= i < |cs| && cs[i].id() == id ==> cs[i].maxScore <= v && cs[i].maxScore <= w
    ensures FinalScore(cs, scores[id := v]) == FinalScore(cs, scores[id := w])
  {
    TotalRespectsStoredScores(cs, scores[id := v], scores[id := w]);
  }

  /** The calculator on the real tables: every final score lies in [0, 10]
      when the stored scores are non-negative. */
  lemma FormScoreInRange(t: FormType, scores: ScoreRecord)
    requires forall id :: id in scores ==> scores[id] >= 0.0
    ensures 0.0 <= FinalScore(Criteria(t), scores) <= 10.0
  {
    CriteriaWellFormed(t);
    FinalScoreAtMostTen(Criteria(t), scores);
    FinalScoreNonNegative(Criteria(t), scores);
  }

  /** Scores 4, 3, 1 against maxima 5, 3, 2 give 8.0, which is approved. */
  lemma WorkedExample()
    ensures FinalScore(Criteria(AndamentoCC),
      map["apresentacao" := 4.0, "qualidade_conteudo" := 3.0, "relevancia_originalidade" := 1.0]) == 8.0
    ensures Approved(8.0)
  {
    var cs := Criteria(AndamentoCC);
    var s := map["apresentacao" := 4.0, "qualidade_conteudo" := 3.0, "relevancia_originalidade" := 1.0];
    MaxScoresSumToTen(AndamentoCC);
    assert TotalScore(cs[3..], s) == 0.0;
    assert TotalScore(cs[2..], s) == 1.0;
    assert TotalScore(cs[1..], s) == 4.0;
    assert TotalScore(cs, s) == 8.0;
  }

  /** Scores 1.4, 2.8, 1.8 against maxima 5, 3, 2 give exactly 6.0 in real
      arithmetic, and so are approved; summed as doubles they fall just short
      of 6. */
  lemma ThresholdExample()
    ensures FinalScore(Criteria(AndamentoCC),
      map["apresentacao" := 1.4, "qualidade_conteudo" := 2.8, "relevancia_originalidade" := 1.8]) == 6.0
    ensures Approved(6.0)
  {
    var cs := Criteria(AndamentoCC);
    var s := map["apresentacao" := 1.4, "qualidade_conteudo" := 2.8, "relevancia_originalidade" := 1.8];
    MaxScoresSumToTen(AndamentoCC);
    assert TotalScore(cs[3..], s) == 0.0;
    assert TotalScore(cs[2..], s) == 1.8;
    assert TotalScore(cs[1..], s) == 4.6;
    assert TotalScore(cs, s) == 6.0;
  }

  /** Approval ignores the course: 6.5 is approved although it is below the
      Sistemas de Informação limit of 7. */
  lemma ApprovalIgnoresCourseLimit()
    ensures Approved(6.5) && 6.5 < ApprovalLimit(SI)
  {
  }

  /** The `onChange` handler of a score input: NaN (None) becomes 0, values
      above the maximum become the maximum, and values below 0 become 0. */
  function ClampInput(parsed: Option<real>, maxScore: real): (v: real)
    ensures maxScore >= 0.0 ==> 0.0 <= v <= maxScore
    ensures parsed.Some? && 0.0 <= parsed.value <= maxScore ==> v == parsed.value
    ensures parsed.None? ==> v == 0.0
    ensures parsed.Some? && parsed.value > maxScore >= 0.0 ==> v == maxScore
    ensures parsed.Some? && parsed.value < 0.0 ==> v == 0.0
  {
    var v0 := parsed.GetOr(0.0);
    var v1 := if v0 > maxScore then maxScore else v0;
    if v1 < 0.0 then 0.0 else v1
  }

  /** Clamping an already clamped value changes nothing. */
  lemma ClampIdempotent(parsed: Option<real>, maxScore: real)
    ensures ClampInput(Some(ClampInput(parsed, maxScore)), maxScore) == ClampInput(parsed, maxScore)
  {
  }
}
