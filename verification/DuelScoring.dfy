/** Judge-output validation and the official one-point adjustment
    (src/server/ai-ml/scoring.ts), with the adjustment that arena-service.ts repeats before it stores a result. */
module DuelScoring {
  import opened Domain

  datatype Label = A | B

  datatype TieBreak = NoTie | BlankForfeit | Correctness | CompletenessOrSpecificity | Clarity | ExactEquivalence

  datatype Criterion = Criterion(id: string, maxScore: int)

  datatype Score = Score(id: string, score: int)

  datatype Snapshot = Snapshot(mode: Mode, schemaVersion: string, criteria: seq<Criterion>,
                               answerA: string, answerB: Option<string>)

  datatype DuelOutput = DuelOutput(schemaVersion: string, scoresA: seq<Score>, scoresB: seq<Score>,
                                   winner: Label, reason: TieBreak)

  datatype PracticeOutput = PracticeOutput(schemaVersion: string, scoresA: seq<Score>)

  datatype ScoringError =
    | ModeMismatch
    | SchemaVersionMismatch
    | CriterionSetMismatch
    | CriterionScoreOutOfRange
    | BlankAnswerInvariant
    | WinnerInconsistent
    | TieBreakInconsistent
    | ExactEquivalenceInconsistent

  datatype Scored<+T> = Valid(value: T) | Invalid(error: ScoringError) {
    predicate IsFailure() {
      Invalid?
    }

    function PropagateFailure<U>(): Scored<U>
      requires Invalid?
    {
      Invalid(error)
    }

    function Extract(): T
      requires Valid?
    {
      value
    }
  }

  datatype Official = Official(scoreA: int, scoreB: int)

  /** What the judge adapter hands to the arena. Practice results leave the B side and the winner empty. */
  datatype JudgeResult = JudgeResult(rawA: int, rawB: Option<int>, officialA: int, officialB: Option<int>,
                                     winner: Option<Label>, reason: TieBreak)

  function Flip(l: Label): Label {
    if l == A then B else A
  }

  function ComputeOfficialDuelScores(rawA: int, rawB: int, winner: Label, blank: Option<Label>): Scored<Official> {
    if !(0 <= rawA <= 100 && 0 <= rawB <= 100) then Invalid(CriterionScoreOutOfRange)
    else if blank.Some? then
      var blankScore := if blank.value == A then rawA else rawB;
      if blankScore != 0 || winner == blank.value then Invalid(BlankAnswerInvariant)
      else if blank.value == A then Valid(Official(0, Max(1, rawB)))
      else Valid(Official(Max(1, rawA), 0))
    else if rawA != rawB then
      if winner != (if rawA > rawB then A else B) then Invalid(WinnerInconsistent)
      else Valid(Official(rawA, rawB))
    else
      var winning := if rawA == 100 then 100 else rawA + 1;
      var losing := if rawA == 100 then 99 else rawA;
      Valid(if winner == A then Official(winning, losing) else Official(losing, winning))
  }

  // ----- criterion scores

  predicate DistinctIds(scores: seq<Score>) {
    forall i, j :: 0 <= i < j < |scores| ==> scores[i].id != scores[j].id
  }

  ghost predicate SubmittedAs(scores: seq<Score>, id: string, value: int) {
    exists i :: 0 <= i < |scores| && scores[i] == Score(id, value)
  }

  function Ids(scores: seq<Score>): set<string> {
    set i | 0 <= i < |scores| :: scores[i].id
  }

  function ScoreOf(scores: seq<Score>, id: string): Option<int> {
    if scores == [] then None
    else if scores[|scores| - 1].id == id then Some(scores[|scores| - 1].score)
    else ScoreOf(scores[..|scores| - 1], id)
  }

  function Collect(criteria: seq<Criterion>, submitted: seq<Score>): Scored<seq<Score>> {
    if criteria == [] then Valid([])
    else
      var score := ScoreOf(submitted, criteria[0].id);
      if score.None? then Invalid(CriterionSetMismatch)
      else if !(0 <= score.value <= criteria[0].maxScore) then Invalid(CriterionScoreOutOfRange)
      else
        var rest :- Collect(criteria[1..], submitted);
        Valid([Score(criteria[0].id, score.value)] + rest)
  }

  function NormalizedScores(criteria: seq<Criterion>, submitted: seq<Score>): Scored<seq<Score>> {
    if !DistinctIds(submitted) || |submitted| != |criteria| then Invalid(CriterionSetMismatch)
    else Collect(criteria, submitted)
  }

  function Total(scores: seq<Score>): int {
    if scores == [] then 0 else scores[0].score + Total(scores[1..])
  }

  function MaxTotal(criteria: seq<Criterion>): int {
    if criteria == [] then 0 else criteria[0].maxScore + MaxTotal(criteria[1..])
  }

  predicate EqualScores(a: seq<Score>, b: seq<Score>) {
    forall i :: 0 <= i < |a| ==> i < |b| && a[i].score == b[i].score
  }

  predicate AllZero(scores: seq<Score>) {
    forall i :: 0 <= i < |scores| ==> scores[i].score == 0
  }

  lemma {:induction false} ScoreOfIsSubmitted(scores: seq<Score>, id: string)
    ensures ScoreOf(scores, id).None? <==> forall i :: 0 <= i < |scores| ==> scores[i].id != id
    ensures ScoreOf(scores, id).Some? ==> SubmittedAs(scores, id, ScoreOf(scores, id).value)
  {
    if scores != [] {
      var front := scores[..|scores| - 1];
      ScoreOfIsSubmitted(front, id);
      if scores[|scores| - 1].id == id {
        assert scores[|scores| - 1] == Score(id, ScoreOf(scores, id).value);
      } else if ScoreOf(front, id).Some? {
        var i :| 0 <= i < |front| && front[i] == Score(id, ScoreOf(front, id).value);
        assert scores[i] == front[i];
      } else {
        forall i | 0 <= i < |scores|
          ensures scores[i].id != id
        {
          if i < |front| {
            assert scores[i] == front[i];
          }
        }
      }
    }
  }

  lemma {:induction false} CollectAt(criteria: seq<Criterion>, submitted: seq<Score>)
    requires Collect(criteria, submitted).Valid?
    ensures
      var out := Collect(criteria, submitted).value;
      && |out| == |criteria|
      && forall i :: 0 <= i < |out| ==>
           && out[i].id == criteria[i].id
           && 0 <= out[i].score <= criteria[i].maxScore
           && ScoreOf(submitted, out[i].id) == Some(out[i].score)
  {
    if criteria != [] {
      CollectAt(criteria[1..], submitted);
      var out := Collect(criteria, submitted).value;
      var rest := Collect(criteria[1..], submitted).value;
      forall i | 0 <= i < |out|
        ensures out[i].id == criteria[i].id && 0 <= out[i].score <= criteria[i].maxScore
        ensures ScoreOf(submitted, out[i].id) == Some(out[i].score)
      {
        if i > 0 {
          assert out[i] == rest[i - 1] && criteria[i] == criteria[1..][i - 1];
        }
      }
    }
  }

  predicate Scorable(c: Criterion, submitted: seq<Score>) {
    ScoreOf(submitted, c.id).Some? && 0 <= ScoreOf(submitted, c.id).value <= c.maxScore
  }

  lemma {:induction false} CollectAccepts(criteria: seq<Criterion>, submitted: seq<Score>)
    requires forall i :: 0 <= i < |criteria| ==> Scorable(criteria[i], submitted)
    ensures Collect(criteria, submitted).Valid?
  {
    if criteria != [] {
      assert forall i :: 0 <= i < |criteria[1..]| ==> criteria[1..][i] == criteria[i + 1];
      assert Scorable(criteria[0], submitted);
      CollectAccepts(criteria[1..], submitted);
    }
  }

  lemma {:induction false} TotalBounds(criteria: seq<Criterion>, out: seq<Score>)
    requires |out| == |criteria|
    requires forall i :: 0 <= i < |out| ==> 0 <= out[i].score <= criteria[i].maxScore
    ensures 0 <= Total(out) <= MaxTotal(criteria)
  {
    if out != [] {
      assert forall i :: 0 <= i < |out[1..]| ==> out[1..][i] == out[i + 1] && criteria[1..][i] == criteria[i + 1];
      TotalBounds(criteria[1..], out[1..]);
    }
  }

  lemma {:induction false} EqualScoresEqualTotals(a: seq<Score>, b: seq<Score>)
    requires |a| == |b| && EqualScores(a, b)
    ensures Total(a) == Total(b)
  {
    if a != [] {
      assert a[0].score == b[0].score;
      forall i | 0 <= i < |a[1..]|
        ensures i < |b[1..]| && a[1..][i].score == b[1..][i].score
      {
        assert a[1..][i] == a[i + 1] && b[1..][i] == b[i + 1];
      }
      EqualScoresEqualTotals(a[1..], b[1..]);
    }
  }

  predicate UniqueCriteria(criteria: seq<Criterion>) {
    forall i, j :: 0 <= i < j < |criteria| ==> criteria[i].id != criteria[j].id
  }

  /** Every criterion of the rubric has a submitted score within its range. */
  ghost predicate ScoresAll(criteria: seq<Criterion>, submitted: seq<Score>) {
    forall c :: c in criteria ==> exists v: int :: 0 <= v <= c.maxScore && SubmittedAs(submitted, c.id, v)
  }

  lemma AcceptedScoresAll(criteria: seq<Criterion>, submitted: seq<Score>)
    requires NormalizedScores(criteria, submitted).Valid?
    ensures ScoresAll(criteria, submitted)
    ensures
      var out := NormalizedScores(criteria, submitted).value;
      && |out| == |criteria|
      && forall i :: 0 <= i < |out| ==>
           out[i].id == criteria[i].id && 0 <= out[i].score <= criteria[i].maxScore && out[i] in submitted
  {
    CollectAt(criteria, submitted);
    var out := Collect(criteria, submitted).value;
    forall i | 0 <= i < |criteria|
      ensures SubmittedAs(submitted, criteria[i].id, out[i].score) && out[i] in submitted
    {
      ScoreOfIsSubmitted(submitted, criteria[i].id);
    }
  }

  lemma ScoresAllAccepted(criteria: seq<Criterion>, submitted: seq<Score>)
    requires DistinctIds(submitted) && |submitted| == |criteria| && ScoresAll(criteria, submitted)
    ensures NormalizedScores(criteria, submitted).Valid?
  {
    forall i | 0 <= i < |criteria|
      ensures Scorable(criteria[i], submitted)
    {
      var c := criteria[i];
      assert c in criteria;
      var v: int :| 0 <= v <= c.maxScore && SubmittedAs(submitted, c.id, v);
      OnlyScore(submitted, c.id, v);
    }
    CollectAccepts(criteria, submitted);
  }

  /** A judge's list is accepted exactly when it scores every rubric criterion within range and holds as many scores,
      under different ids, as the rubric has criteria - so nothing else, when those differ; the accepted list is the
      judge's scores in rubric order. */
  lemma NormalizationAcceptsExactlyTheRubric(criteria: seq<Criterion>, submitted: seq<Score>)
    ensures NormalizedScores(criteria, submitted).Valid? <==>
              DistinctIds(submitted) && |submitted| == |criteria| && ScoresAll(criteria, submitted)
    ensures UniqueCriteria(criteria) ==>
              (NormalizedScores(criteria, submitted).Valid? <==>
                && DistinctIds(submitted)
                && Ids(submitted) == (set c | c in criteria :: c.id)
                && ScoresAll(criteria, submitted))
    ensures NormalizedScores(criteria, submitted).Valid? ==>
              var out := NormalizedScores(criteria, submitted).value;
              && |out| == |criteria|
              && forall i :: 0 <= i < |out| ==>
                   out[i].id == criteria[i].id && 0 <= out[i].score <= criteria[i].maxScore && out[i] in submitted
  {
    hide Collect;
    if NormalizedScores(criteria, submitted).Valid? {
      AcceptedScoresAll(criteria, submitted);
    }
    if UniqueCriteria(criteria) && DistinctIds(submitted) && ScoresAll(criteria, submitted) {
      SameSizeSameIds(criteria, submitted);
    }
    hide ScoresAll, Ids;
    if DistinctIds(submitted) && |submitted| == |criteria| && ScoresAll(criteria, submitted) {
      ScoresAllAccepted(criteria, submitted);
    }
  }

  /** With all of the rubric's ids among them, as many different ids as the rubric has are its very ids. */
  lemma SameSizeSameIds(criteria: seq<Criterion>, submitted: seq<Score>)
    requires UniqueCriteria(criteria) && DistinctIds(submitted) && ScoresAll(criteria, submitted)
    ensures |submitted| == |criteria| <==> Ids(submitted) == (set c | c in criteria :: c.id)
  {
    var wanted := set c | c in criteria :: c.id;
    IdCount(submitted);
    CriterionCount(criteria);
    forall c | c in criteria
      ensures c.id in Ids(submitted)
    {
      var v: int :| 0 <= v <= c.maxScore && SubmittedAs(submitted, c.id, v);
    }
    if |submitted| == |criteria| {
      SubsetOfEqualSize(wanted, Ids(submitted));
    }
  }

  lemma OnlyScore(scores: seq<Score>, id: string, v: int)
    requires DistinctIds(scores) && SubmittedAs(scores, id, v)
    ensures ScoreOf(scores, id) == Some(v)
  {
    ScoreOfIsSubmitted(scores, id);
  }

  lemma {:induction false} IdCount(scores: seq<Score>)
    requires DistinctIds(scores)
    ensures |Ids(scores)| == |scores|
  {
    if scores != [] {
      var front, last := scores[..|scores| - 1], scores[|scores| - 1];
      IdCount(front);
      assert Ids(scores) == Ids(front) + {last.id};
      assert last.id !in Ids(front);
    }
  }

  lemma {:induction false} CriterionCount(criteria: seq<Criterion>)
    requires UniqueCriteria(criteria)
    ensures |set c | c in criteria :: c.id| == |criteria|
  {
    if criteria != [] {
      var front, last := criteria[..|criteria| - 1], criteria[|criteria| - 1];
      CriterionCount(front);
      assert criteria == front + [last];
      assert (set c | c in criteria :: c.id) == (set c | c in front :: c.id) + {last.id};
    }
  }

  lemma SubsetOfEqualSize(a: set<string>, b: set<string>)
    requires a <= b && |a| == |b|
    ensures a == b
  {
    assert |b - a| == |b| - |a|;
    assert b - a == {};
  }

  /** The loop that fills the Map; None stands for the thrown duplicate. */
  method FillSubmitted(scores: seq<Score>) returns (submitted: Option<map<string, int>>)
    ensures submitted.Some? <==> DistinctIds(scores)
    ensures submitted.Some? ==> |submitted.value| == |scores|
    ensures submitted.Some? ==>
            forall id :: (if id in submitted.value then Some(submitted.value[id]) else None) == ScoreOf(scores, id)
  {
    var filled: map<string, int> := map[];
    for n := 0 to |scores|
      invariant DistinctIds(scores[..n])
      invariant |filled| == n
      invariant forall id :: (if id in filled then Some(filled[id]) else None) == ScoreOf(scores[..n], id)
    {
      assert scores[..n + 1][..n] == scores[..n];
      ScoreOfIsSubmitted(scores[..n], scores[n].id);
      if scores[n].id in filled {
        return None;
      }
      filled := filled[scores[n].id := scores[n].score];
    }
    assert scores[..|scores|] == scores;
    return Some(filled);
  }

  method NormalizeCriterionScores(criteria: seq<Criterion>, scores: seq<Score>) returns (r: Scored<seq<Score>>)
    ensures r == NormalizedScores(criteria, scores)
  {
    var filled := FillSubmitted(scores);
    if filled.None? || |filled.value| != |criteria| {
      return Invalid(CriterionSetMismatch);
    }
    var submitted := filled.value;
    var out := [];
    assert criteria[0..] == criteria;
    assert forall tail: seq<Score> :: [] + tail == tail;
    for n := 0 to |criteria|
      invariant Collect(criteria, scores) == Prefixed(out, Collect(criteria[n..], scores))
    {
      var criterion := criteria[n];
      assert criteria[n..][0] == criterion && criteria[n..][1..] == criteria[n + 1..];
      if criterion.id !in submitted {
        return Invalid(CriterionSetMismatch);
      }
      var score := submitted[criterion.id];
      if score < 0 || score > criterion.maxScore {
        return Invalid(CriterionScoreOutOfRange);
      }
      PrefixedStep(out, Score(criterion.id, score), Collect(criteria[n + 1..], scores));
      out := out + [Score(criterion.id, score)];
    }
    assert out + [] == out;
    return Valid(out);
  }

  function Prefixed(front: seq<Score>, rest: Scored<seq<Score>>): Scored<seq<Score>> {
    match rest
    case Valid(tail) => Valid(front + tail)
    case Invalid(e) => Invalid(e)
  }

  lemma PrefixedStep(front: seq<Score>, s: Score, rest: Scored<seq<Score>>)
    ensures Prefixed(front, Prefixed([s], rest)) == Prefixed(front + [s], rest)
  {
    if rest.Valid? {
      assert front + ([s] + rest.value) == front + [s] + rest.value;
    }
  }

  // ----- tie-break stages

  const STAGES: seq<(string, TieBreak)> := [
    ("technical_correctness", Correctness),
    ("relevant_completeness", CompletenessOrSpecificity),
    ("technical_depth", CompletenessOrSpecificity),
    ("clarity", Clarity)
  ]

  datatype Required = Required(winner: Label, reason: TieBreak)

  predicate StageDecides(stage: (string, TieBreak), a: seq<Score>, b: seq<Score>) {
    var scoreA, scoreB := ScoreOf(a, stage.0), ScoreOf(b, stage.0);
    scoreA.Some? && scoreB.Some? && scoreA != scoreB
  }

  function StageVerdict(stage: (string, TieBreak), a: seq<Score>, b: seq<Score>): Required
    requires StageDecides(stage, a, b)
  {
    Required(if ScoreOf(a, stage.0).value > ScoreOf(b, stage.0).value then A else B, stage.1)
  }

  function RequiredFrom(stages: seq<(string, TieBreak)>, a: seq<Score>, b: seq<Score>): Option<Required> {
    if stages == [] then None
    else if !StageDecides(stages[0], a, b) then RequiredFrom(stages[1..], a, b)
    else Some(StageVerdict(stages[0], a, b))
  }

  /** The last score listed under an id: what a Map built from the list holds. */
  ghost predicate LastScore(scores: seq<Score>, id: string, v: int) {
    exists i :: 0 <= i < |scores| && scores[i] == Score(id, v) && forall j :: i < j < |scores| ==> scores[j].id != id
  }

  lemma {:induction false} ScoreOfIsLast(scores: seq<Score>, id: string, v: int)
    ensures ScoreOf(scores, id) == Some(v) <==> LastScore(scores, id, v)
  {
    if scores != [] {
      var front, last := scores[..|scores| - 1], scores[|scores| - 1];
      ScoreOfIsLast(front, id, v);
      if LastScore(scores, id, v) && last.id != id {
        var i :| 0 <= i < |scores| && scores[i] == Score(id, v)
                 && forall j :: i < j < |scores| ==> scores[j].id != id;
        assert front[i] == Score(id, v);
      }
      if LastScore(front, id, v) && last.id != id {
        var i :| 0 <= i < |front| && front[i] == Score(id, v) && forall j :: i < j < |front| ==> front[j].id != id;
        assert scores[i] == Score(id, v);
        assert forall j :: i < j < |scores| ==> j < |front| ==> scores[j] == front[j];
      }
      if last == Score(id, v) {
        assert scores[|scores| - 1] == Score(id, v);
      }
    }
  }

  /** Both sides are scored under an id, one of them strictly better. */
  ghost predicate Ahead(side: Label, id: string, a: seq<Score>, b: seq<Score>) {
    exists x, y :: LastScore(a, id, x) && LastScore(b, id, y) && if side == A then x > y else y > x
  }

  ghost predicate Level(id: string, a: seq<Score>, b: seq<Score>) {
    !Ahead(A, id, a, b) && !Ahead(B, id, a, b)
  }

  /** The side a tie goes to, and why: correctness first, then completeness, then depth, then clarity. */
  ghost predicate TieGoesTo(side: Label, reason: TieBreak, a: seq<Score>, b: seq<Score>) {
    || (reason == Correctness && Ahead(side, "technical_correctness", a, b))
    || (&& reason == CompletenessOrSpecificity && Level("technical_correctness", a, b)
        && (|| Ahead(side, "relevant_completeness", a, b)
            || (Level("relevant_completeness", a, b) && Ahead(side, "technical_depth", a, b))))
    || (&& reason == Clarity
        && Level("technical_correctness", a, b) && Level("relevant_completeness", a, b)
        && Level("technical_depth", a, b) && Ahead(side, "clarity", a, b))
  }

  lemma AheadAtStage(side: Label, stage: (string, TieBreak), a: seq<Score>, b: seq<Score>)
    ensures Ahead(side, stage.0, a, b) <==> StageDecides(stage, a, b) && StageVerdict(stage, a, b).winner == side
    ensures Level(stage.0, a, b) <==> !StageDecides(stage, a, b)
  {
    hide ScoreOf, LastScore;
    var scoreA, scoreB := ScoreOf(a, stage.0), ScoreOf(b, stage.0);
    if scoreA.Some? {
      ScoreOfIsLast(a, stage.0, scoreA.value);
    }
    if scoreB.Some? {
      ScoreOfIsLast(b, stage.0, scoreB.value);
    }
    forall x, y | LastScore(a, stage.0, x) && LastScore(b, stage.0, y)
      ensures scoreA == Some(x) && scoreB == Some(y)
    {
      ScoreOfIsLast(a, stage.0, x);
      ScoreOfIsLast(b, stage.0, y);
    }
  }

  lemma StagesInOrder(a: seq<Score>, b: seq<Score>)
    ensures
      RequiredFrom(STAGES, a, b)
      == if StageDecides(STAGES[0], a, b) then Some(StageVerdict(STAGES[0], a, b))
         else if StageDecides(STAGES[1], a, b) then Some(StageVerdict(STAGES[1], a, b))
         else if StageDecides(STAGES[2], a, b) then Some(StageVerdict(STAGES[2], a, b))
         else if StageDecides(STAGES[3], a, b) then Some(StageVerdict(STAGES[3], a, b))
         else None
  {
    hide StageDecides, StageVerdict;
    RequiredFromStage(STAGES, 0, a, b);
    RequiredFromStage(STAGES, 1, a, b);
    RequiredFromStage(STAGES, 2, a, b);
    RequiredFromStage(STAGES, 3, a, b);
    assert STAGES[0..] == STAGES;
  }

  lemma RequiredFromStage(stages: seq<(string, TieBreak)>, n: nat, a: seq<Score>, b: seq<Score>)
    requires n < |stages|
    ensures RequiredFrom(stages[n..], a, b)
            == if StageDecides(stages[n], a, b) then Some(StageVerdict(stages[n], a, b))
               else RequiredFrom(stages[n + 1..], a, b)
  {
    hide StageDecides, StageVerdict;
    assert stages[n..][0] == stages[n] && stages[n..][1..] == stages[n + 1..];
  }

  /** A tie is resolved by the first of the four criteria that both sides are scored on and differ in, for the side
      strictly ahead in it; by none if they differ in none. */
  lemma TieBreakExactly(a: seq<Score>, b: seq<Score>)
    ensures forall side, reason ::
              RequiredFrom(STAGES, a, b) == Some(Required(side, reason)) <==> TieGoesTo(side, reason, a, b)
  {
    hide StageDecides, ScoreOf, LastScore, Ahead, Level, RequiredFrom;
    StagesInOrder(a, b);
    forall side, reason
      ensures RequiredFrom(STAGES, a, b) == Some(Required(side, reason)) <==> TieGoesTo(side, reason, a, b)
    {
      AheadAtStage(side, STAGES[0], a, b);
      AheadAtStage(side, STAGES[1], a, b);
      AheadAtStage(side, STAGES[2], a, b);
      AheadAtStage(side, STAGES[3], a, b);
    }
  }

  lemma {:induction false} RequiredIsFirstDecidingStage(stages: seq<(string, TieBreak)>, a: seq<Score>, b: seq<Score>)
    ensures RequiredFrom(stages, a, b).None? <==> forall i :: 0 <= i < |stages| ==> !StageDecides(stages[i], a, b)
  {
    if stages != [] && !StageDecides(stages[0], a, b) {
      RequiredIsFirstDecidingStage(stages[1..], a, b);
      assert forall i :: 0 < i < |stages| ==> stages[i] == stages[1..][i - 1];
      assert forall i :: 0 <= i < |stages[1..]| ==> stages[1..][i] == stages[i + 1];
    }
  }

  method RequiredTieBreakFromScores(a: seq<Score>, b: seq<Score>) returns (r: Option<Required>)
    ensures r == RequiredFrom(STAGES, a, b)
    ensures r.Some? ==> TieGoesTo(r.value.winner, r.value.reason, a, b)
    ensures r.None? ==> forall side, reason :: !TieGoesTo(side, reason, a, b)
  {
    TieBreakExactly(a, b);
    hide TieGoesTo;
    for n := 0 to |STAGES|
      invariant RequiredFrom(STAGES, a, b) == RequiredFrom(STAGES[n..], a, b)
    {
      var (id, reason) := STAGES[n];
      var scoreA, scoreB := ScoreOf(a, id), ScoreOf(b, id);
      assert STAGES[n..][0] == STAGES[n] && STAGES[n..][1..] == STAGES[n + 1..];
      if scoreA.None? || scoreB.None? || scoreA == scoreB {
        continue;
      }
      return Some(Required(if scoreA.value > scoreB.value then A else B, reason));
    }
    return None;
  }

  // ----- validation

  function ValidateDuel(s: Snapshot, o: DuelOutput): Scored<JudgeResult> {
    if s.mode != Duel || s.answerB.None? then Invalid(ModeMismatch)
    else if o.schemaVersion != s.schemaVersion then Invalid(SchemaVersionMismatch)
    else
      var scoresA :- NormalizedScores(s.criteria, o.scoresA);
      var scoresB :- NormalizedScores(s.criteria, o.scoresB);
      var rawA, rawB := Total(scoresA), Total(scoresB);
      var blankA, blankB := s.answerA == "", s.answerB.value == "";
      if blankA && blankB then Invalid(BlankAnswerInvariant)
      else
        var official :-
          if blankA || blankB then
            var blankScores := if blankA then scoresA else scoresB;
            var blank := if blankA then A else B;
            if || !AllZero(blankScores)
               || o.winner != Flip(blank)
               || o.reason != BlankForfeit
            then Invalid(BlankAnswerInvariant)
            else ComputeOfficialDuelScores(rawA, rawB, o.winner, Some(blank))
          else if s.answerA == s.answerB.value then
            if rawA != rawB || !EqualScores(scoresA, scoresB) || o.reason != ExactEquivalence || o.winner != A
            then Invalid(ExactEquivalenceInconsistent)
            else ComputeOfficialDuelScores(rawA, rawB, o.winner, None)
          else if rawA != rawB then
            if o.winner != (if rawA > rawB then A else B) || o.reason != NoTie then Invalid(WinnerInconsistent)
            else ComputeOfficialDuelScores(rawA, rawB, o.winner, None)
          else if o.reason == NoTie || o.reason == BlankForfeit then Invalid(TieBreakInconsistent)
          else
            var required := RequiredFrom(STAGES, scoresA, scoresB);
            if required.Some? && required.value != Required(o.winner, o.reason) then Invalid(TieBreakInconsistent)
            else if o.reason == ExactEquivalence && (o.winner != A || !EqualScores(scoresA, scoresB))
            then Invalid(ExactEquivalenceInconsistent)
            else ComputeOfficialDuelScores(rawA, rawB, o.winner, None);
        Valid(JudgeResult(rawA, Some(rawB), official.scoreA, Some(official.scoreB), Some(o.winner), o.reason))
  }

  function ValidatePractice(s: Snapshot, o: PracticeOutput): Scored<JudgeResult> {
    if s.mode != Practice || s.answerB.Some? then Invalid(ModeMismatch)
    else if s.answerA == "" then Invalid(BlankAnswerInvariant)
    else if o.schemaVersion != s.schemaVersion then Invalid(SchemaVersionMismatch)
    else
      var scoresA :- NormalizedScores(s.criteria, o.scoresA);
      var raw := Total(scoresA);
      Valid(JudgeResult(raw, None, raw, None, None, NoTie))
  }

  /** officialTieScores and the branches of persistSuccess that run before its transaction. */
  function OfficialTieScores(raw: int, winner: Label): Official {
    var winning := if raw < 100 then raw + 1 else 100;
    var losing := if raw < 100 then raw else 99;
    if winner == A then Official(winning, losing) else Official(losing, winning)
  }

  function AdjustForStorage(s: Snapshot, r: JudgeResult): JudgeResult {
    var blankA := s.answerA == "";
    var blankB := s.answerB == Some("");
    if s.mode == Duel && blankA != blankB then
      if blankA then
        var rawB := Max(0, if r.rawB.Some? then r.rawB.value else 0);
        JudgeResult(0, Some(rawB), 0, Some(Max(1, rawB)), Some(B), BlankForfeit)
      else
        var rawA := Max(0, r.rawA);
        JudgeResult(rawA, Some(0), Max(1, rawA), Some(0), Some(A), BlankForfeit)
    else if s.mode == Duel && r.rawB == Some(r.rawA) && r.winner.Some? then
      var tie := OfficialTieScores(r.rawA, r.winner.value);
      r.(officialA := tie.scoreA, officialB := Some(tie.scoreB))
    else r
  }

  // ----- what the two layers promise together

  predicate Strictly(winner: Label, scoreA: int, scoreB: int) {
    if winner == A then scoreA > scoreB else scoreB > scoreA
  }

  lemma {:induction false} ZeroScoresZeroTotal(scores: seq<Score>)
    requires AllZero(scores)
    ensures Total(scores) == 0
  {
    if scores != [] {
      assert forall i :: 0 <= i < |scores[1..]| ==> scores[1..][i] == scores[i + 1];
      ZeroScoresZeroTotal(scores[1..]);
    }
  }

  /** Raw totals stay in range, the official winner is strictly ahead, and the arena's own adjustment is a no-op. */
  lemma ValidatedDuelIsFinal(s: Snapshot, o: DuelOutput)
    requires ValidateDuel(s, o).Valid?
    ensures
      var r := ValidateDuel(s, o).value;
      && 0 <= r.rawA <= 100 && r.rawB.Some? && 0 <= r.rawB.value <= 100
      && 0 <= r.officialA <= 100 && r.officialB.Some? && 0 <= r.officialB.value <= 100
      && r.winner == Some(o.winner) && Strictly(o.winner, r.officialA, r.officialB.value)
      && (r.rawA != r.rawB.value && r.reason != BlankForfeit ==> r.officialA == r.rawA && r.officialB == r.rawB)
      && AdjustForStorage(s, r) == r
  {
    var scoresA, scoresB := NormalizedScores(s.criteria, o.scoresA).value,
      NormalizedScores(s.criteria, o.scoresB).value;
    if s.answerA == "" {
      ZeroScoresZeroTotal(scoresA);
    } else if s.answerB.value == "" {
      ZeroScoresZeroTotal(scoresB);
    }
  }

  lemma ValidatedPracticeIsFinal(s: Snapshot, o: PracticeOutput)
    requires MaxTotal(s.criteria) == 100
    requires ValidatePractice(s, o).Valid?
    ensures
      var r := ValidatePractice(s, o).value;
      0 <= r.rawA <= 100 && r.officialA == r.rawA && r.winner.None? && AdjustForStorage(s, r) == r
  {
    CollectAt(s.criteria, o.scoresA);
    TotalBounds(s.criteria, NormalizedScores(s.criteria, o.scoresA).value);
  }

  /** Total adds the scores up: it is the one sum that maps a single score to itself and lists to sums. */
  lemma {:induction false} TotalAddsUp(a: seq<Score>, b: seq<Score>, one: Score)
    ensures Total([]) == 0 && Total([one]) == one.score && Total(a + b) == Total(a) + Total(b)
    decreases |a|
  {
    assert [one][1..] == [];
    if a == [] {
      assert a + b == b;
    } else {
      assert (a + b)[1..] == a[1..] + b;
      TotalAddsUp(a[1..], b, one);
    }
  }

  /** Which (winner, reason) goes with two answers and their scores: a blank answer loses with nothing scored, equal
      answers need equal scores and go to A, a higher total wins without a tie-break, and a tie goes where the first
      criterion that differs sends it - or, if none does, anywhere, but as an equivalence only to A on equal scores. */
  ghost predicate Fits(answerA: string, answerB: string, a: seq<Score>, b: seq<Score>, winner: Label, reason: TieBreak)
    requires |a| == |b|
  {
    if answerA == "" && answerB == "" then false
    else if answerA == "" then
      winner == B && reason == BlankForfeit && forall i :: 0 <= i < |a| ==> a[i].score == 0
    else if answerB == "" then
      winner == A && reason == BlankForfeit && forall i :: 0 <= i < |b| ==> b[i].score == 0
    else if answerA == answerB then
      winner == A && reason == ExactEquivalence && forall i :: 0 <= i < |a| ==> a[i].score == b[i].score
    else if Total(a) > Total(b) then winner == A && reason == NoTie
    else if Total(b) > Total(a) then winner == B && reason == NoTie
    else
      && reason != NoTie && reason != BlankForfeit
      && (forall side, other :: TieGoesTo(side, other, a, b) ==> winner == side && reason == other)
      && (reason == ExactEquivalence ==> winner == A && forall i :: 0 <= i < |a| ==> a[i].score == b[i].score)
  }

  /** The stored scores: the loser by blank gets 0 and the winner at least 1; a tie is broken by one point, downwards
      at 100; everything else stands. */
  predicate OfficialScores(answerA: string, answerB: string, rawA: int, rawB: int, winner: Label, officialA: int,
                           officialB: int)
  {
    if answerA == "" then officialA == 0 && officialB == Max(1, rawB)
    else if answerB == "" then officialA == Max(1, rawA) && officialB == 0
    else if rawA != rawB then officialA == rawA && officialB == rawB
    else
      var ahead, behind := if winner == A then officialA else officialB, if winner == A then officialB else officialA;
      ahead == (if rawA == 100 then 100 else rawA + 1) && behind == (if rawA == 100 then 99 else rawA)
  }

  lemma EqualVectors(a: seq<Score>, b: seq<Score>)
    requires |a| == |b|
    ensures EqualScores(a, b) <==> forall i :: 0 <= i < |a| ==> a[i].score == b[i].score
    ensures EqualScores(a, b) ==> Total(a) == Total(b)
  {
    if EqualScores(a, b) {
      EqualScoresEqualTotals(a, b);
    }
  }

  /** A duel verdict is accepted exactly when it is for this snapshot, both lists score the rubric to at most 100, and
      winner and reason fit the answers and the scores; the official scores are then these. */
  lemma ValidatesExactlyWhen(s: Snapshot, o: DuelOutput)
    ensures
      var a, b := NormalizedScores(s.criteria, o.scoresA), NormalizedScores(s.criteria, o.scoresB);
      ValidateDuel(s, o).Valid? <==>
        && s.mode == Duel && s.answerB.Some? && o.schemaVersion == s.schemaVersion
        && a.Valid? && b.Valid? && |a.value| == |b.value|
        && 0 <= Total(a.value) <= 100 && 0 <= Total(b.value) <= 100
        && Fits(s.answerA, s.answerB.value, a.value, b.value, o.winner, o.reason)
    ensures ValidateDuel(s, o).Valid? ==>
              var r := ValidateDuel(s, o).value;
              && r.rawA == Total(NormalizedScores(s.criteria, o.scoresA).value)
              && r.rawB == Some(Total(NormalizedScores(s.criteria, o.scoresB).value))
              && r.winner == Some(o.winner) && r.reason == o.reason && r.officialB.Some?
              && OfficialScores(s.answerA, s.answerB.value, r.rawA, r.rawB.value, o.winner, r.officialA,
                                r.officialB.value)
  {
    hide NormalizedScores, RequiredFrom, EqualScores, Total, TieGoesTo;
    var a, b := NormalizedScores(s.criteria, o.scoresA), NormalizedScores(s.criteria, o.scoresB);
    if a.Valid? && b.Valid? {
      NormalizedLength(s.criteria, o.scoresA);
      NormalizedLength(s.criteria, o.scoresB);
      EqualVectors(a.value, b.value);
      TieBreakExactly(a.value, b.value);
      if AllZero(a.value) {
        ZeroScoresZeroTotal(a.value);
      }
      if AllZero(b.value) {
        ZeroScoresZeroTotal(b.value);
      }
    }
  }

  /** The first criterion, in rubric order, without a score in its range. */
  ghost predicate FirstUnscored(criteria: seq<Criterion>, submitted: seq<Score>, k: nat) {
    && k < |criteria| && !Scorable(criteria[k], submitted)
    && forall i :: 0 <= i < k ==> Scorable(criteria[i], submitted)
  }

  lemma {:induction false} CollectRefuses(criteria: seq<Criterion>, submitted: seq<Score>, k: nat)
    requires FirstUnscored(criteria, submitted, k)
    ensures Collect(criteria, submitted)
            == Invalid(if forall v :: !LastScore(submitted, criteria[k].id, v) then CriterionSetMismatch
                       else CriterionScoreOutOfRange)
  {
    var score := ScoreOf(submitted, criteria[k].id);
    if score.Some? {
      ScoreOfIsLast(submitted, criteria[k].id, score.value);
    }
    forall v
      ensures LastScore(submitted, criteria[k].id, v) <==> score == Some(v)
    {
      ScoreOfIsLast(submitted, criteria[k].id, v);
    }
    if k > 0 {
      assert Scorable(criteria[0], submitted);
      assert forall i :: 0 <= i < |criteria[1..]| ==> criteria[1..][i] == criteria[i + 1];
      CollectRefuses(criteria[1..], submitted, k - 1);
    }
  }

  /** Why a score list is refused: as a wrong set of criteria, or - when the first criterion without a usable score does
      have one - for being out of range. */
  lemma NormalizationRefuses(criteria: seq<Criterion>, submitted: seq<Score>, k: nat)
    ensures !DistinctIds(submitted) || |submitted| != |criteria| ==>
              NormalizedScores(criteria, submitted) == Invalid(CriterionSetMismatch)
    ensures DistinctIds(submitted) && |submitted| == |criteria| && FirstUnscored(criteria, submitted, k) ==>
              NormalizedScores(criteria, submitted)
              == Invalid(if forall v :: !LastScore(submitted, criteria[k].id, v) then CriterionSetMismatch
                         else CriterionScoreOutOfRange)
  {
    hide Collect, LastScore;
    if FirstUnscored(criteria, submitted, k) {
      CollectRefuses(criteria, submitted, k);
    }
  }

  /** Why a duel verdict for this snapshot is refused, once both its lists are scored. */
  lemma DuelRefuses(s: Snapshot, o: DuelOutput)
    ensures s.mode != Duel || s.answerB.None? <==> ValidateDuel(s, o) == Invalid(ModeMismatch)
    ensures s.mode == Duel && s.answerB.Some? ==>
              (o.schemaVersion != s.schemaVersion <==> ValidateDuel(s, o) == Invalid(SchemaVersionMismatch))
    ensures
      var a, b := NormalizedScores(s.criteria, o.scoresA), NormalizedScores(s.criteria, o.scoresB);
      s.mode == Duel && s.answerB.Some? && o.schemaVersion == s.schemaVersion && a.Valid? && b.Valid?
      && 0 <= Total(a.value) <= 100 && 0 <= Total(b.value) <= 100 && ValidateDuel(s, o).Invalid? ==>
        ValidateDuel(s, o).error
        == if s.answerA == "" || s.answerB.value == "" then BlankAnswerInvariant
           else if s.answerA == s.answerB.value then ExactEquivalenceInconsistent
           else if Total(a.value) != Total(b.value) then WinnerInconsistent
           else if o.reason in {NoTie, BlankForfeit} || exists side, reason :: TieGoesTo(side, reason, a.value, b.value)
           then TieBreakInconsistent
           else ExactEquivalenceInconsistent
  {
    hide NormalizedScores, RequiredFrom, EqualScores, Total, Ahead, Level;
    var a, b := NormalizedScores(s.criteria, o.scoresA), NormalizedScores(s.criteria, o.scoresB);
    NormalizedErrors(s.criteria, o.scoresA);
    NormalizedErrors(s.criteria, o.scoresB);
    if a.Valid? && b.Valid? {
      TieBreakExactly(a.value, b.value);
      var required := RequiredFrom(STAGES, a.value, b.value);
      if AllZero(a.value) {
        ZeroScoresZeroTotal(a.value);
      }
      if AllZero(b.value) {
        ZeroScoresZeroTotal(b.value);
      }
      assert required.Some? ==> required == Some(Required(required.value.winner, required.value.reason));
    }
  }

  lemma {:induction false} CollectErrors(criteria: seq<Criterion>, submitted: seq<Score>)
    ensures Collect(criteria, submitted).Invalid? ==>
              Collect(criteria, submitted).error in {CriterionSetMismatch, CriterionScoreOutOfRange}
  {
    if criteria != [] {
      CollectErrors(criteria[1..], submitted);
    }
  }

  lemma NormalizedErrors(criteria: seq<Criterion>, submitted: seq<Score>)
    ensures NormalizedScores(criteria, submitted).Invalid? ==>
              NormalizedScores(criteria, submitted).error in {CriterionSetMismatch, CriterionScoreOutOfRange}
  {
    CollectErrors(criteria, submitted);
  }

  lemma NormalizedLength(criteria: seq<Criterion>, submitted: seq<Score>)
    requires NormalizedScores(criteria, submitted).Valid?
    ensures |NormalizedScores(criteria, submitted).value| == |criteria|
  {
    AcceptedScoresAll(criteria, submitted);
  }

  /** Practice needs an answer and a rubric scored in full; the total is the score, with nobody ahead. */
  lemma PracticeValidatesExactlyWhen(s: Snapshot, o: PracticeOutput)
    ensures
      var a := NormalizedScores(s.criteria, o.scoresA);
      && (ValidatePractice(s, o).Valid? <==>
            s.mode == Practice && s.answerB.None? && s.answerA != "" && o.schemaVersion == s.schemaVersion && a.Valid?)
      && (ValidatePractice(s, o).Valid? ==>
            ValidatePractice(s, o).value == JudgeResult(Total(a.value), None, Total(a.value), None, None, NoTie))
  {
    hide NormalizedScores, Total;
  }

  /** The scores alone leave the judge one acceptable verdict. */
  predicate Determined(s: Snapshot, scoresA: seq<Score>, scoresB: seq<Score>)
    requires s.answerB.Some?
  {
    || s.answerA == "" || s.answerB.value == ""
    || s.answerA == s.answerB.value
    || Total(scoresA) != Total(scoresB)
    || RequiredFrom(STAGES, scoresA, scoresB).Some?
  }

  /** Given the scores, at most one (winner, reason) validates exactly when the scores are Determined; otherwise either
      winner validates, for every tie-break reason but exact equivalence. */
  lemma VerdictUniqueIffDetermined(s: Snapshot, o: DuelOutput)
    requires ValidateDuel(s, o).Valid?
    ensures
      var a, b := NormalizedScores(s.criteria, o.scoresA).value, NormalizedScores(s.criteria, o.scoresB).value;
      Determined(s, a, b) <==>
        forall w, r :: ValidateDuel(s, o.(winner := w, reason := r)).Valid? ==> w == o.winner && r == o.reason
    ensures
      var a, b := NormalizedScores(s.criteria, o.scoresA).value, NormalizedScores(s.criteria, o.scoresB).value;
      !Determined(s, a, b) ==>
        forall w, r :: r !in {NoTie, BlankForfeit, ExactEquivalence} ==>
                         ValidateDuel(s, o.(winner := w, reason := r)).Valid?
  {
    var a, b := NormalizedScores(s.criteria, o.scoresA).value, NormalizedScores(s.criteria, o.scoresB).value;
    if Determined(s, a, b) {
      forall w, r | ValidateDuel(s, o.(winner := w, reason := r)).Valid?
        ensures w == o.winner && r == o.reason
      {
      }
    } else {
      assert ValidateDuel(s, o.(winner := A, reason := Clarity)).Valid?;
      assert ValidateDuel(s, o.(winner := B, reason := Clarity)).Valid?;
    }
  }

  predicate Staged(criteria: seq<Criterion>) {
    forall i :: 0 <= i < |criteria| ==> exists k :: 0 <= k < |STAGES| && STAGES[k].0 == criteria[i].id
  }

  /** With staged criteria only, differing score vectors always determine the verdict. */
  lemma StagedCriteriaDetermine(s: Snapshot, o: DuelOutput)
    requires Staged(s.criteria)
    requires ValidateDuel(s, o).Valid?
    requires !EqualScores(NormalizedScores(s.criteria, o.scoresA).value, NormalizedScores(s.criteria, o.scoresB).value)
    ensures Determined(s, NormalizedScores(s.criteria, o.scoresA).value, NormalizedScores(s.criteria, o.scoresB).value)
  {
    var a, b := NormalizedScores(s.criteria, o.scoresA).value, NormalizedScores(s.criteria, o.scoresB).value;
    CollectAt(s.criteria, o.scoresA);
    CollectAt(s.criteria, o.scoresB);
    var i :| 0 <= i < |a| && a[i].score != b[i].score;
    var k :| 0 <= k < |STAGES| && STAGES[k].0 == s.criteria[i].id;
    ScoreOfCollected(a, i);
    ScoreOfCollected(b, i);
    assert StageDecides(STAGES[k], a, b);
    RequiredIsFirstDecidingStage(STAGES, a, b);
  }

  /** Entries under one id all hold the one score submitted for it. */
  lemma ScoreOfCollected(scores: seq<Score>, i: nat)
    requires i < |scores|
    requires forall j :: 0 <= j < |scores| && scores[j].id == scores[i].id ==> scores[j].score == scores[i].score
    ensures ScoreOf(scores, scores[i].id) == Some(scores[i].score)
  {
    ScoreOfIsSubmitted(scores, scores[i].id);
  }
}
