/** Answers over the columns: exactly when one is locked, what the deadline fills in, and what the judge then gets. */
module Answering {
  import opened Domain
  import opened MatchTypes
  import opened MatchRules
  import opened ArenaRules
  import opened MatchInvariants
  import opened MatchSafety
  import opened ArenaSafety
  import opened World
  import opened WorldSafety
  import opened SafeRuns
  import opened StepEffects
  import opened Columns
  import opened Admission
  import AnswerText
  import DuelScoring
  import Judging

  // ----- what is handed to the judge

  /** The judge's copy of a round: who is A and who is B, and exactly their answers. */
  predicate Handed(m: Match, e: Evaluation, material: Material, userA: UserId) {
    && e.userA == userA && userA in m.answers && e.claims == 0 && e.winner.None?
    && e.snapshot.mode == m.mode && e.snapshot.schemaVersion == material.schemaVersion
    && e.snapshot.criteria == material.criteria && e.snapshot.answerA == m.answers[userA].text
    && (if m.mode == Practice then e.userB.None? && e.snapshot.answerB.None?
        else
          && e.userB.Some? && e.userB.value != userA && e.userB.value in m.answers
          && e.snapshot.answerB == Some(m.answers[e.userB.value].text))
  }

  /** A round in which nobody wrote anything: no contest for everyone, all scores zero, and no record. */
  predicate EndedUnjudged(m: Match, n: Match, e: Evaluation, now: Time) {
    && n.state == (if m.mode == Duel then RematchPending else Finished)
    && n.endReason == Some(if exists u :: u in m.answers && m.answers[u].source == Deadline then AnswerTimeout
                           else NoContest)
    && n.winner.None? && !n.recordsApplied && n.finishedAt == Some(now)
    && n.participants.Keys == m.participants.Keys
    && (forall u :: u in n.participants ==> n.participants[u].outcome == Some(OutNoContest))
    && e.status.Skipped?
    && e.verdict == Some(if m.mode == Duel
                         then DuelScoring.JudgeResult(0, Some(0), 0, Some(0), None, DuelScoring.NoTie)
                         else DuelScoring.JudgeResult(0, None, 0, None, None, DuelScoring.NoTie))
  }

  predicate GoodMaterial(material: Option<Material>) {
    && material.Some? && 3 <= |material.value.criteria| <= 5
    && (forall i :: 0 <= i < |material.value.criteria| ==> material.value.criteria[i].maxScore > 0)
    && DuelScoring.MaxTotal(material.value.criteria) == 100
  }

  /** What becomes of a round whose every answer is in. */
  predicate AnsweredRound(m: Match, n: Match, material: Material, userA: UserId, now: Time) {
    && n.answers == m.answers && n.evaluation.Some? && Handed(m, n.evaluation.value, material, userA)
    && if forall u :: u in m.answers ==> m.answers[u].text == ""
       then EndedUnjudged(m, n, n.evaluation.value, now)
       else n.state == State.Judging && n.evaluation.value.status.Pending? && n.evaluation.value.verdict.None?
  }

  lemma PreparedRound(c: Config, m: Match, material: Material, userA: UserId, userB: Option<UserId>, now: Time)
    requires m.state == Active && userA in m.answers && !m.recordsApplied && m.winner.None?
    requires if m.mode == Practice then userB.None? else userB.Some? && userB.value != userA && userB.value in m.answers
    ensures AnsweredRound(m, Prepared(c, m, NewEvaluation(m, material, userA, userB), now), material, userA, now)
  {
    hide EventTime;
  }

  lemma GoodMaterialIs(material: Option<Material>)
    ensures GoodMaterial(material) <==> material.Some? && MaterialOk(material.value)
  {
  }

  predicate Paired(m: Match, userA: UserId, userB: Option<UserId>) {
    if m.mode == Practice then userB.None? else userB.Some? && userB.value != userA && userB.value in m.participants
  }

  lemma PrepareRule(c: Config, m: Match, material: Option<Material>, userA: UserId, now: Time)
    requires m.state == Active && m.answers.Keys == m.participants.Keys && m.problem.Some?
    requires |m.participants| == Seats(m.mode) && m.evaluation.None?
    requires userA in m.participants && m.mode == Duel ==> m.participants.Keys - {userA} != {}
    ensures
      var r := PrepareEvaluation(c, m, material, userA, now);
      && (r.Ok? <==> material.Some? && MaterialOk(material.value) && userA in m.participants)
      && (r.Ok? ==>
            exists userB ::
              && Paired(m, userA, userB) && (userB.Some? ==> userB.value in m.answers)
              && r.value == Prepared(c, m, NewEvaluation(m, material.value, userA, userB), now))
  {
    hide MaterialOk, Prepared, NewEvaluation;
    var r := PrepareEvaluation(c, m, material, userA, now);
    if r.Ok? {
      var userB: Option<UserId> :|
        && (m.mode == Duel <==> userB.Some?) && (userB.Some? ==> userB.value in m.participants.Keys - {userA})
        && r.value == Prepared(c, m, NewEvaluation(m, material.value, userA, userB), now);
      assert Paired(m, userA, userB);
    }
  }

  /** With every answer in, an active round is handed over exactly when there is good judge material and an anonymous
      mapping of its players. */
  lemma PreparesExactlyWhen(c: Config, m: Match, material: Option<Material>, userA: UserId, now: Time)
    requires MatchInv(m) && m.state == Active && m.answers.Keys == m.participants.Keys
    ensures
      var r := PrepareEvaluation(c, m, material, userA, now);
      && (r.Ok? <==> GoodMaterial(material) && userA in m.participants)
      && (r.Ok? ==> material.Some? && AnsweredRound(m, r.value, material.value, userA, now))
  {
    ActiveRow(m);
    if userA in m.participants {
      ActiveHasOpponent(m, userA);
    }
    GoodMaterialIs(material);
    hide MatchInv, PrepareEvaluation, Prepared, NewEvaluation, AnsweredRound, GoodMaterial, MaterialOk;
    PrepareRule(c, m, material, userA, now);
    var r := PrepareEvaluation(c, m, material, userA, now);
    if r.Ok? {
      var userB :|
        && Paired(m, userA, userB) && (userB.Some? ==> userB.value in m.answers)
        && r.value == Prepared(c, m, NewEvaluation(m, material.value, userA, userB), now);
      PreparedRound(c, m, material.value, userA, userB, now);
    }
  }

  lemma ActiveRow(m: Match)
    requires MatchInv(m) && m.state == Active
    ensures m.problem.Some? && |m.participants| == Seats(m.mode) && m.evaluation.None? && !m.recordsApplied
    ensures m.winner.None? && m.startsAt.Some? && m.answers.Keys <= m.participants.Keys
  {
    hide EventsOk, ExecutionsOk, InflightOk, WinnerOk, RecordsOk, VotesOk, DecidedOk, AnswersOk, SnapshotOk, StatusOk;
  }

  // ----- locking an answer

  predicate LastToAnswer(m: Match, user: UserId) {
    m.answers.Keys + {user} == m.participants.Keys
  }

  /** The answer is stored; the last one hands the round over. */
  predicate LockedIn(m: Match, n: Match, user: UserId, text: string, material: Option<Material>, userA: UserId,
                     now: Time)
  {
    var answered := m.(answers := m.answers[user := Answer(text, Player, now)]);
    && n.answers == answered.answers
    && if LastToAnswer(m, user) then material.Some? && AnsweredRound(answered, n, material.value, userA, now)
       else n.state == Active && n.evaluation == m.evaluation && n.participants == m.participants
  }

  lemma NotLocked(c: Config, m: Match, user: UserId, text: string, material: Option<Material>, userA: UserId,
                  now: Time)
    requires m.answerDeadline.Some? && (now >= m.answerDeadline.value || user in m.answers)
    ensures SubmitAnswer(c, m, user, text, material, userA, now).Err?
  {
    hide PrepareEvaluation;
  }

  lemma LastIsLocked(c: Config, m: Match, user: UserId, text: string, material: Option<Material>, userA: UserId,
                     now: Time)
    requires LastToAnswer(m, user) && m.state == Active
    requires SubmitAnswer(c, m, user, text, material, userA, now).Ok? && material.Some?
    requires AnsweredRound(m.(answers := m.answers[user := Answer(text, Player, now)]),
                           SubmitAnswer(c, m, user, text, material, userA, now).value, material.value, userA, now)
    ensures LockedIn(m, SubmitAnswer(c, m, user, text, material, userA, now).value, user, text, material, userA, now)
  {
    hide SubmitAnswer;
    RoundAnswers(m.(answers := m.answers[user := Answer(text, Player, now)]),
                 SubmitAnswer(c, m, user, text, material, userA, now).value, material.value, userA, now);
    hide AnsweredRound;
  }

  lemma LockedKeeps(m: Match, user: UserId, text: string, now: Time)
    requires MatchInv(m) && m.state == Active && m.challenge == AiMl && user in m.participants && user !in m.answers
    requires StoredText(text)
    ensures MatchInv(AppendEvent(m.(answers := m.answers[user := Answer(text, Player, now)]), AnswerSubmitted, now))
  {
    hide MatchInv, Evolves, AnswersOk, AnswersEvolve, StoredText, AppendEvent;
    var answered := m.(answers := m.answers[user := Answer(text, Player, now)]);
    AnswersAreStored(m);
    AnswerAdded(m.answers, user, Answer(text, Player, now));
    AnswersAddedKeep(m, answered.answers);
    AnnouncedKeeps(m, answered, AnswerSubmitted, now);
  }

  lemma NotYetAll(c: Config, m: Match, material: Option<Material>, userA: UserId, now: Time)
    requires m.state == Active && m.problem.Some? && m.answers.Keys != m.participants.Keys
    ensures PrepareEvaluation(c, m, material, userA, now) == Ok(m)
  {
    hide MaterialOk, Prepared;
  }

  lemma SubmitIsPrepare(c: Config, m: Match, user: UserId, text: string, material: Option<Material>, userA: UserId,
                        now: Time)
    requires m.state == Active && m.answerDeadline.Some? && now < m.answerDeadline.value && user !in m.answers
    ensures SubmitAnswer(c, m, user, text, material, userA, now)
            == PrepareEvaluation(c, AppendEvent(m.(answers := m.answers[user := Answer(text, Player, now)]),
                                                AnswerSubmitted, now), material, userA, now)
  {
    hide PrepareEvaluation, EventTime;
  }

  lemma LockedLast(c: Config, m: Match, user: UserId, text: string, material: Option<Material>, userA: UserId,
                   now: Time)
    requires MatchInv(m) && m.state == Active && m.challenge == AiMl && user in m.participants && StoredText(text)
    requires m.answerDeadline.Some? && now < m.answerDeadline.value && user !in m.answers && LastToAnswer(m, user)
    ensures
      var r := SubmitAnswer(c, m, user, text, material, userA, now);
      && (r.Ok? <==> GoodMaterial(material) && userA in m.participants)
      && (r.Ok? ==>
            && material.Some?
            && AnsweredRound(m.(answers := m.answers[user := Answer(text, Player, now)]), r.value, material.value,
                             userA, now))
  {
    hide MatchInv, PrepareEvaluation, GoodMaterial, AnsweredRound, EventTime, StoredText, SubmitAnswer;
    LockedKeeps(m, user, text, now);
    SubmitIsPrepare(c, m, user, text, material, userA, now);
    var locked := m.(answers := m.answers[user := Answer(text, Player, now)]);
    var answered := AppendEvent(locked, AnswerSubmitted, now);
    assert locked.answers.Keys == m.answers.Keys + {user};
    PreparesExactlyWhen(c, answered, material, userA, now);
    var r := PrepareEvaluation(c, answered, material, userA, now);
    if r.Ok? {
      SameRound(locked, answered, r.value, material.value, userA, now);
    }
  }

  lemma LockedEarly(c: Config, m: Match, user: UserId, text: string, material: Option<Material>, userA: UserId,
                    now: Time)
    requires MatchInv(m) && m.state == Active
    requires m.answerDeadline.Some? && now < m.answerDeadline.value && user !in m.answers && !LastToAnswer(m, user)
    ensures SubmitAnswer(c, m, user, text, material, userA, now)
            == Ok(AppendEvent(m.(answers := m.answers[user := Answer(text, Player, now)]), AnswerSubmitted, now))
  {
    ActiveRow(m);
    hide MatchInv, PrepareEvaluation, EventTime, SubmitAnswer;
    SubmitIsPrepare(c, m, user, text, material, userA, now);
    var locked := m.(answers := m.answers[user := Answer(text, Player, now)]);
    assert locked.answers.Keys == m.answers.Keys + {user};
    NotYetAll(c, AppendEvent(locked, AnswerSubmitted, now), material, userA, now);
  }

  /** Events aside, the same round. */
  lemma SameRound(m: Match, a: Match, n: Match, material: Material, userA: UserId, now: Time)
    requires a.answers == m.answers && a.mode == m.mode && a.participants == m.participants
    requires AnsweredRound(a, n, material, userA, now)
    ensures AnsweredRound(m, n, material, userA, now)
  {
  }

  lemma HasDeadline(c: Config, m: Match)
    requires ColumnsOk(c, m) && m.challenge == AiMl && m.startsAt.Some?
    ensures m.answerDeadline.Some? && m.answerDeadline.value == m.startsAt.value + c.answerDuration
  {
  }

  lemma LocksExactlyWhen(c: Config, m: Match, user: UserId, text: string, material: Option<Material>, userA: UserId,
                         now: Time)
    requires MatchInv(m) && ColumnsOk(c, m) && m.challenge == AiMl && user in m.participants && StoredText(text)
    ensures m.state == Active ==> m.answerDeadline.Some?
    ensures
      var r := SubmitAnswer(c, m, user, text, material, userA, now);
      && (r.Ok? <==>
            && m.state == Active && now < m.answerDeadline.value && user !in m.answers
            && (LastToAnswer(m, user) ==> GoodMaterial(material) && userA in m.participants))
      && (r.Ok? ==> LockedIn(m, r.value, user, text, material, userA, now))
  {
    hide MatchInv, ColumnsOk, StoredText, GoodMaterial, AnsweredRound, LastToAnswer, EventTime;
    if m.state == Active {
      ActiveRow(m);
      HasDeadline(c, m);
      if now < m.answerDeadline.value && user !in m.answers {
        if LastToAnswer(m, user) {
          LockedLast(c, m, user, text, material, userA, now);
          if SubmitAnswer(c, m, user, text, material, userA, now).Ok? {
            LastIsLocked(c, m, user, text, material, userA, now);
          }
        } else {
          LockedEarly(c, m, user, text, material, userA, now);
        }
      } else {
        NotLocked(c, m, user, text, material, userA, now);
      }
    }
  }

  /** An answer is taken, once, from each player of an active AI/ML match before its deadline; the last one hands the
      round over. */
  lemma AnswerAppliedExactlyWhen(s: Setting, w: World, actor: UserId, key: string, id: MatchId, answer: string,
                                 material: Option<Material>, userA: UserId, now: Time)
    requires Reachable(s, w) && id in w.matches && NewKey(w, actor, key)
    ensures w.matches[id].challenge == AiMl && w.matches[id].state == Active ==> w.matches[id].answerDeadline.Some?
    ensures
      var (after, reply) := Exec(s, w, Submission(actor, key, id, answer, material, userA, now));
      var m := w.matches[id];
      var measured := AnswerText.Measured(answer, AnswerText.ANSWER_LIMITS);
      && (reply.Applied? <==>
            && measured.violations == [] && m.challenge == AiMl && actor in m.participants
            && m.state == Active && now < m.answerDeadline.value && actor !in m.answers
            && (LastToAnswer(m, actor) ==> GoodMaterial(material) && userA in m.participants))
      && (reply.Applied? ==>
            id in after.matches
            && LockedIn(m, after.matches[id], actor, measured.normalized, material, userA, now))
  {
    hide WorldInv, MatchInv, ColumnsOk, MatchCommand, SubmitAnswer, LockedIn, GoodMaterial, StoredText, LastToAnswer,
      AnswerText.Measured;
    ReachableIsConsistent(s, w);
    MatchHolds(s, w, id);
    ReachableColumns(s, w, id);
    var m := w.matches[id];
    var measured := AnswerText.Measured(answer, AnswerText.ANSWER_LIMITS);
    if m.challenge == AiMl && m.state == Active {
      ActiveRow(m);
      HasDeadline(s.config, m);
    }
    if measured.violations == [] && m.challenge == AiMl {
      var r := SubmitAnswer(s.config, m, actor, measured.normalized, material, userA, now);
      RuleApplied(w, actor, key, SubmitAnswerCommand, id, AnswerBody(measured.normalized), r,
                  EvaluationResponse(r.Ok? && r.value.state == State.Judging));
      if actor in m.participants {
        SubmittedIsStored(answer);
        LocksExactlyWhen(s.config, m, actor, measured.normalized, material, userA, now);
      }
    }
  }

  // ----- the deadline

  /** The deadline closes an active round exactly from its time on: whoever has not answered has answered nothing, as of
      the deadline, and the round is handed over; everything else stays as it was. */
  lemma DeadlineExactly(s: Setting, w: World, id: MatchId, material: Option<Material>, userA: UserId, now: Time)
    requires Reachable(s, w) && id in w.matches && w.matches[id].challenge == AiMl
    ensures w.matches[id].state == Active ==> w.matches[id].answerDeadline.Some?
    ensures
      var after := Exec(s, w, SweepDeadline(id, material, userA, now)).0;
      var m := w.matches[id];
      if m.state == Active && m.answerDeadline.value <= now && GoodMaterial(material) && userA in m.participants then
        && id in after.matches
        && (forall u :: u in m.participants ==>
              u in after.matches[id].answers
              && after.matches[id].answers[u]
                 == if u in m.answers then m.answers[u] else Answer("", Deadline, m.answerDeadline.value))
        && AnsweredRound(m.(answers := after.matches[id].answers), after.matches[id], material.value, userA, now)
      else after == w
  {
    hide WorldInv, MatchInv, ColumnsOk, ProcessAnswerDeadline, AnsweredRound, GoodMaterial;
    ReachableIsConsistent(s, w);
    MatchHolds(s, w, id);
    ReachableColumns(s, w, id);
    var m := w.matches[id];
    Judging.CommitSame(w, id);
    if m.state == Active {
      ActiveRow(m);
      HasDeadline(s.config, m);
      DeadlineRule(s.config, m, material, userA, now);
    } else {
      IdleDeadline(s.config, m, material, userA, now);
    }
  }

  lemma DeadlineRule(c: Config, m: Match, material: Option<Material>, userA: UserId, now: Time)
    requires MatchInv(m) && m.state == Active && m.challenge == AiMl && m.answerDeadline.Some?
    ensures
      var r := ProcessAnswerDeadline(c, m, material, userA, now);
      if m.answerDeadline.value > now then r == Ok(m)
      else
        && (r.Ok? <==> GoodMaterial(material) && userA in m.participants)
        && (r.Ok? ==>
              && (forall u :: u in m.participants ==>
                    u in r.value.answers
                    && r.value.answers[u]
                       == if u in m.answers then m.answers[u] else Answer("", Deadline, m.answerDeadline.value))
              && material.Some?
              && AnsweredRound(m.(answers := r.value.answers), r.value, material.value, userA, now))
  {
    ActiveRow(m);
    DeadlineIsPrepare(c, m, material, userA, now);
    hide MatchInv, PrepareEvaluation, GoodMaterial, AnsweredRound, FillMissing, Evolves, ProcessAnswerDeadline;
    if m.answerDeadline.value <= now {
      var deadline := m.answerDeadline.value;
      var filled := FillMissing(m, deadline, now);
      FillMissingKeeps(m, deadline, now);
      FilledRow(m, deadline, now);
      PreparesExactlyWhen(c, filled, material, userA, now);
      var r := PrepareEvaluation(c, filled, material, userA, now);
      if r.Ok? {
        RoundAnswers(filled, r.value, material.value, userA, now);
        SameRound(m.(answers := filled.answers), filled, r.value, material.value, userA, now);
      }
    }
  }

  lemma DeadlineIsPrepare(c: Config, m: Match, material: Option<Material>, userA: UserId, now: Time)
    requires m.state == Active && m.answerDeadline.Some?
    ensures ProcessAnswerDeadline(c, m, material, userA, now)
            == if m.answerDeadline.value > now then Ok(m)
               else PrepareEvaluation(c, FillMissing(m, m.answerDeadline.value, now), material, userA, now)
  {
    hide PrepareEvaluation, FillMissing;
  }

  lemma RoundAnswers(m: Match, n: Match, material: Material, userA: UserId, now: Time)
    requires AnsweredRound(m, n, material, userA, now)
    ensures n.answers == m.answers
  {
  }

  lemma FilledRow(m: Match, deadline: Time, now: Time)
    ensures
      var n := FillMissing(m, deadline, now);
      && n.participants == m.participants && n.mode == m.mode
      && forall u :: u in m.participants ==>
           u in n.answers && n.answers[u] == if u in m.answers then m.answers[u] else Answer("", Deadline, deadline)
  {
    hide AppendEvents;
    AppendManyOnlyAppends(m.(answers := m.answers + map u | u in Missing(m) :: Answer("", Deadline, deadline)),
                          AnswerTimedOut, |Missing(m)|, now);
  }
}
