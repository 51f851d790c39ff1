/** Every transaction of arena-service.ts keeps the match invariant; fencing of judge workers, and what a stored
    judgment is worth. */
module ArenaSafety {
  import opened Domain
  import opened MatchTypes
  import opened StateMachine
  import opened ArenaRules
  import opened MatchInvariants
  import opened MatchSafety
  import AnswerText
  import DuelScoring

  // ----- answers

  lemma AnswersAddedKeep(m: Match, answers: Answers)
    requires MatchInv(m) && m.state == Active && m.challenge == AiMl
    requires AnswersEvolve(m.answers, answers) && answers.Keys <= m.participants.Keys && AnswersOk(answers)
    ensures Keeps(m, m.(answers := answers))
  {
    hide EventsOk, ExecutionsOk, InflightOk, WinnerOk, RecordsOk, VotesOk, AnswersOk, StatusOk, SnapshotOk;
    EvolvesReflexive(m);
    var n := m.(answers := answers);
    assert BaseInv(n);
  }

  lemma {:induction false} AppendManyKeeps(m: Match, n: Match, kind: EventKind, count: nat, now: Time)
    requires Keeps(m, n)
    ensures Keeps(m, AppendEvents(n, kind, count, now))
  {
    hide Keeps, AppendEvent;
    if count > 0 {
      AppendManyKeeps(m, n, kind, count - 1, now);
      AnnouncedKeeps(m, AppendEvents(n, kind, count - 1, now), kind, now);
    }
  }

  lemma {:induction false} AppendManyOnlyAppends(n: Match, kind: EventKind, count: nat, now: Time)
    ensures
      var r := AppendEvents(n, kind, count, now);
      r == n.(version := r.version, events := r.events)
  {
    if count > 0 {
      AppendManyOnlyAppends(n, kind, count - 1, now);
    }
  }

  lemma BlankIsStored()
    ensures StoredText("")
  {
  }

  lemma BlanksAdded(m: Match, deadline: Time)
    requires AnswersOk(m.answers) && m.answers.Keys <= m.participants.Keys
    ensures
      var answers := m.answers + map u | u in Missing(m) :: Answer("", Deadline, deadline);
      && answers.Keys == m.participants.Keys && AnswersOk(answers) && AnswersEvolve(m.answers, answers)
  {
    hide StoredText;
    BlankIsStored();
    var answers := m.answers + map u | u in Missing(m) :: Answer("", Deadline, deadline);
    assert answers.Keys == m.participants.Keys;
  }

  lemma FillMissingKeeps(m: Match, deadline: Time, now: Time)
    requires MatchInv(m) && m.state == Active && m.challenge == AiMl
    ensures
      var n := FillMissing(m, deadline, now);
      Keeps(m, n) && n.state == Active && n.challenge == AiMl && n.answers.Keys == m.participants.Keys
  {
    AnswersAreStored(m);
    hide MatchInv, Evolves, AnswersOk, AnswersEvolve;
    var answers := m.answers + map u | u in Missing(m) :: Answer("", Deadline, deadline);
    BlanksAdded(m, deadline);
    AnswersAddedKeep(m, answers);
    AppendManyKeeps(m, m.(answers := answers), AnswerTimedOut, |Missing(m)|, now);
    AppendManyOnlyAppends(m.(answers := answers), AnswerTimedOut, |Missing(m)|, now);
  }

  // ----- opening an evaluation

  lemma OpenedArena(m: Match, e: Evaluation)
    requires MatchInv(m) && m.state == Active && m.challenge == AiMl
    requires SnapshotOk(m.mode, m.participants.Keys, m.answers, e) && e.status.Pending? && e.verdict.None?
    ensures |m.executions| == 0 && m.evaluation.None?
    ensures EvaluationOk(State.Judging, m.challenge, m.mode, m.winner, m.participants.Keys, m.answers, Some(e))
    ensures VotesOk(State.Judging, m.participants.Keys, m.votes, m.rematchCreated)
  {
    hide EventsOk, LifecycleOk, InflightOk, WinnerOk, RecordsOk, SnapshotOk, DecidedOk, AnswersOk;
  }

  lemma OpenedLifecycle(m: Match, e: Evaluation)
    requires MatchInv(m) && m.state == Active
    ensures
      var n := m.(evaluation := Some(e), state := State.Judging);
      LifecycleOk(n) && SettledOk(n)
  {
    hide EventsOk, ExecutionsOk, InflightOk, WinnerOk, RecordsOk, EvaluationOk, VotesOk, DecidedOk, AnswersOk;
  }

  lemma OpenedEvolves(m: Match, e: Evaluation)
    requires m.state == Active && m.evaluation.None?
    ensures Evolves(m, m.(evaluation := Some(e), state := State.Judging))
  {
  }

  lemma OpenedKeeps(m: Match, e: Evaluation)
    requires MatchInv(m) && m.state == Active && m.challenge == AiMl
    requires SnapshotOk(m.mode, m.participants.Keys, m.answers, e) && e.status.Pending? && e.verdict.None?
    ensures Keeps(m, m.(evaluation := Some(e), state := State.Judging))
  {
    hide EventsOk, LifecycleOk, ExecutionsOk, InflightOk, WinnerOk, RecordsOk, EvaluationOk, VotesOk, DecidedOk,
      AnswersOk, SnapshotOk, SettledOk, Evolves;
    OpenedArena(m, e);
    OpenedLifecycle(m, e);
    OpenedEvolves(m, e);
    IdleInflight(m.participants, m.executions);
  }

  lemma OpenEvaluationKeeps(m: Match, e: Evaluation, now: Time)
    requires MatchInv(m) && m.state == Active && m.challenge == AiMl
    requires SnapshotOk(m.mode, m.participants.Keys, m.answers, e) && e.status.Pending? && e.verdict.None?
    ensures Keeps(m, AppendEvent(m.(evaluation := Some(e), state := State.Judging), JudgingStarted, now))
  {
    hide MatchInv, Keeps, SnapshotOk, AppendEvent;
    OpenedKeeps(m, e);
    AnnouncedKeeps(m, m.(evaluation := Some(e), state := State.Judging), JudgingStarted, now);
  }

  lemma IdleInflight(participants: Participants, executions: Executions)
    requires InflightOk(true, participants, executions) && |executions| == 0
    ensures InflightOk(false, participants, executions)
  {
  }

  // ----- concluding a judged match

  lemma ResultedColumns(m: Match, e: Evaluation, winner: Option<UserId>, reason: EndReason, participants: Participants,
                        now: Time)
    requires BaseInv(m) && m.state == State.Judging
    requires participants.Keys == m.participants.Keys && |participants| == |m.participants|
    requires forall u :: u in participants ==> participants[u].activeExecution.None?
    requires EvaluationEvolves(m.evaluation, Some(e)) && !LiveEvaluation(e) && StatusOk(winner, e)
    requires winner.Some? ==> ShouldApplyRecord(reason) && winner.value in participants
    requires reason != Accepted
    requires winner.Some? && m.mode == Duel ==>
               forall u :: u in participants ==>
                 participants[u].outcome == Some(if winner == Some(u) then Win else Loss)
    ensures
      var n := Resulted(m, e, winner, reason, participants, now);
      && LifecycleOk(n) && InflightOk(false, participants, n.executions)
      && WinnerOk(n.endReason, n.winner, n.executions) && VotesOk(n.state, participants.Keys, n.votes, n.rematchCreated)
  {
    hide EventsOk, RecordsOk, SnapshotOk, StatusOk, DecidedOk, AnswersOk;
    assert m.executions == map[];
  }

  lemma ResultedVerdict(m: Match, e: Evaluation, winner: Option<UserId>, reason: EndReason, participants: Participants,
                        now: Time)
    requires BaseInv(m) && m.state == State.Judging
    requires participants.Keys == m.participants.Keys && |participants| == |m.participants|
    requires forall u :: u in participants ==> participants[u].activeExecution.None?
    requires EvaluationEvolves(m.evaluation, Some(e)) && !LiveEvaluation(e) && StatusOk(winner, e)
    requires winner.Some? ==> ShouldApplyRecord(reason) && winner.value in participants
    requires reason != Accepted
    requires winner.Some? && m.mode == Duel ==>
               forall u :: u in participants ==>
                 participants[u].outcome == Some(if winner == Some(u) then Win else Loss)
    ensures
      var n := Resulted(m, e, winner, reason, participants, now);
      && RecordsOk(n.mode, winner, n.endReason, n.recordsApplied, participants)
      && EvaluationOk(n.state, n.challenge, n.mode, winner, participants.Keys, n.answers, n.evaluation)
  {
    hide EventsOk, ExecutionsOk, InflightOk, WinnerOk, VotesOk, DecidedOk, AnswersOk;
    var n := Resulted(m, e, winner, reason, participants, now);
    assert RecordsOk(n.mode, winner, n.endReason, n.recordsApplied, participants) by {
      hide EvaluationOk, EvaluationEvolves, StatusOk;
    }
    hide RecordsOk, LifecycleOk;
    assert SnapshotOk(m.mode, participants.Keys, m.answers, e);
  }

  lemma ResultedEvolves(m: Match, e: Evaluation, winner: Option<UserId>, reason: EndReason, participants: Participants,
                        now: Time)
    requires m.state == State.Judging && participants.Keys == m.participants.Keys
    requires EvaluationEvolves(m.evaluation, Some(e))
    requires SlotsKept(m.participants, participants)
    ensures Evolves(m, Resulted(m, e, winner, reason, participants, now))
  {
  }

  lemma ResultedKeeps(m: Match, e: Evaluation, winner: Option<UserId>, reason: EndReason, participants: Participants,
                      now: Time)
    requires BaseInv(m) && m.state == State.Judging
    requires participants.Keys == m.participants.Keys && |participants| == |m.participants|
    requires SlotsKept(m.participants, participants)
    requires forall u :: u in participants ==> participants[u].activeExecution.None?
    requires EvaluationEvolves(m.evaluation, Some(e)) && !LiveEvaluation(e) && StatusOk(winner, e)
    requires winner.Some? ==> ShouldApplyRecord(reason) && winner.value in participants
    requires reason != Accepted
    requires DecidedOk(m.mode, Some(reason), winner, m.answers)
    requires winner.Some? && m.mode == Duel ==>
               forall u :: u in participants ==>
                 participants[u].outcome == Some(if winner == Some(u) then Win else Loss)
    ensures
      var n := Resulted(m, e, winner, reason, participants, now);
      BaseInv(n) && Evolves(m, n)
  {
    hide EventsOk, LifecycleOk, ExecutionsOk, InflightOk, WinnerOk, RecordsOk, EvaluationOk, VotesOk, StatusOk, Evolves,
      DecidedOk, AnswersOk;
    ResultedColumns(m, e, winner, reason, participants, now);
    ResultedVerdict(m, e, winner, reason, participants, now);
    ResultedEvolves(m, e, winner, reason, participants, now);
  }

  lemma ConcludeKeeps(c: Config, m: Match, n: Match, kind: EventKind, now: Time)
    requires MatchInv(m) && m.state == State.Judging && BaseInv(n) && Evolves(m, n) && n.state == Finished
    requires n.problem == m.problem
    requires n.mode == Duel ==> Full(n)
    ensures
      var r := Conclude(c, AppendEvent(n, kind, now), now);
      Keeps(m, r) && Terminal(r.state) && r == n.(state := r.state, rematchDeadline := r.rematchDeadline,
                                                  version := r.version, events := r.events)
  {
    hide EventsOk, ExecutionsOk, EvaluationOk, InflightOk, RecordsOk, WinnerOk, DecidedOk, AnswersOk;
    var a := AppendEvent(n, kind, now);
    AppendKeeps(n, kind, now);
    AppendEvolves(m, n, kind, now);
    var finished := AppendEvent(a, MatchFinished, now);
    AppendKeeps(a, MatchFinished, now);
    AppendEvolves(m, a, MatchFinished, now);
    if n.mode == Duel {
      OpenRematchKeeps(c, finished, now);
      OpenRematchEvolves(c, m, finished, now);
    }
  }

  lemma JudgingIsFull(m: Match)
    requires MatchInv(m) && m.state == State.Judging
    ensures Full(m) && m.problem.Some?
  {
    hide EventsOk, ExecutionsOk, InflightOk, WinnerOk, RecordsOk, EvaluationOk, VotesOk, DecidedOk, AnswersOk;
  }

  lemma ResultedConcludes(c: Config, m: Match, e: Evaluation, winner: Option<UserId>, reason: EndReason,
                          participants: Participants, kind: EventKind, now: Time)
    requires MatchInv(m) && m.state == State.Judging
    requires participants.Keys == m.participants.Keys && |participants| == |m.participants|
    requires SlotsKept(m.participants, participants)
    requires forall u :: u in participants ==> participants[u].activeExecution.None?
    requires EvaluationEvolves(m.evaluation, Some(e)) && !LiveEvaluation(e) && StatusOk(winner, e)
    requires winner.Some? ==> ShouldApplyRecord(reason) && winner.value in participants
    requires reason != Accepted
    requires DecidedOk(m.mode, Some(reason), winner, m.answers)
    requires winner.Some? && m.mode == Duel ==>
               forall u :: u in participants ==>
                 participants[u].outcome == Some(if winner == Some(u) then Win else Loss)
    ensures
      var r := Conclude(c, AppendEvent(Resulted(m, e, winner, reason, participants, now), kind, now), now);
      Keeps(m, r) && Terminal(r.state)
  {
    JudgingIsFull(m);
    ResultedKeeps(m, e, winner, reason, participants, now);
    hide MatchInv, BaseInv, Keeps, Conclude, AppendEvent, EvaluationEvolves, LiveEvaluation, StatusOk, DecidedOk,
      SlotsKept;
    ConcludeKeeps(c, m, Resulted(m, e, winner, reason, participants, now), kind, now);
  }

  lemma NoContestSeats(participants: Participants)
    ensures NoContestFor(participants).Keys == participants.Keys && |NoContestFor(participants)| == |participants|
    ensures SlotsKept(participants, NoContestFor(participants))
    ensures forall u :: u in NoContestFor(participants) ==> NoContestFor(participants)[u].activeExecution.None?
  {
    assert NoContestFor(participants).Keys == participants.Keys;
    assert |NoContestFor(participants).Keys| == |participants.Keys|;
  }

  lemma FinalizeSkippedKeeps(c: Config, m: Match, e: Evaluation, reason: EndReason, now: Time)
    requires MatchInv(m) && m.state == State.Judging && m.evaluation == Some(e) && AllBlank(m)
    requires reason == AnswerTimeout || reason == NoContest
    ensures Keeps(m, FinalizeSkipped(c, m, e, reason, now)) && Terminal(FinalizeSkipped(c, m, e, reason, now).state)
  {
    hide MatchInv, Keeps, Conclude, Resulted, CompletionCheck;
    NoContestSeats(m.participants);
    UnjudgedStatus(m);
    var skipped := e.(status := Skipped, verdict := Some(SkippedVerdict(m.mode)));
    ResultedConcludes(c, m, skipped, None, reason, NoContestFor(m.participants), AutomaticResolution, now);
  }

  lemma NewEvaluationOk(m: Match, material: Material, userA: UserId, userB: Option<UserId>)
    requires MaterialOk(material) && userA in m.answers && m.answers.Keys == m.participants.Keys
    requires m.mode == Duel <==> userB.Some?
    requires userB.Some? ==> userB.value in m.answers && userB.value != userA
    ensures
      var e := NewEvaluation(m, material, userA, userB);
      SnapshotOk(m.mode, m.participants.Keys, m.answers, e) && e.status.Pending? && e.verdict.None?
  {
  }

  /** Preparing either leaves the match alone, or locks the answers in a snapshot and hands it to the judge - or, when
      every answer is blank, ends the round on the spot. */
  lemma PrepareKeeps(c: Config, m: Match, material: Option<Material>, userA: UserId, now: Time)
    requires MatchInv(m) && PrepareEvaluation(c, m, material, userA, now).Ok?
    ensures
      var n := PrepareEvaluation(c, m, material, userA, now).value;
      Keeps(m, n) && (n == m || if AllBlank(m) then Terminal(n.state) else n.state == State.Judging)
  {
    hide MatchInv, Keeps, SnapshotOk, Prepared, NewEvaluation, MaterialOk;
    var n := PrepareEvaluation(c, m, material, userA, now).value;
    UnchangedKeeps(m);
    if n != m {
      AnsweredIsArena(m);
      var userB: Option<UserId> :|
        && (m.mode == Duel <==> userB.Some?)
        && (userB.Some? ==> userB.value in m.participants.Keys - {userA})
        && n == Prepared(c, m, NewEvaluation(m, material.value, userA, userB), now);
      var e := NewEvaluation(m, material.value, userA, userB);
      NewEvaluationOk(m, material.value, userA, userB);
      PreparedKeeps(c, m, e, now);
    }
  }

  lemma AnsweredIsArena(m: Match)
    requires MatchInv(m) && m.answers.Keys == m.participants.Keys
    ensures m.challenge == AiMl
  {
    hide EventsOk, ExecutionsOk, InflightOk, WinnerOk, RecordsOk, VotesOk, DecidedOk, AnswersOk, SnapshotOk, StatusOk;
    assert |m.answers.Keys| == |m.participants.Keys|;
  }

  /** Once every answer of an active round is in, preparing goes through: all blank ends the round, anything else is
      handed to the judge. */
  lemma PrepareSucceeds(c: Config, m: Match, material: Material, userA: UserId, now: Time)
    requires MatchInv(m) && m.state == Active && m.answers.Keys == m.participants.Keys
    requires MaterialOk(material) && userA in m.participants
    ensures
      var r := PrepareEvaluation(c, m, Some(material), userA, now);
      r.Ok? && if AllBlank(m) then Terminal(r.value.state) else r.value.state == State.Judging
  {
    ActiveHasOpponent(m, userA);
    hide MatchInv, Prepared;
    var r := PrepareEvaluation(c, m, Some(material), userA, now);
    PrepareKeeps(c, m, Some(material), userA, now);
    if r.value == m {
      PreparedMoves(c, m, material, userA, now);
    }
  }

  lemma ActiveHasOpponent(m: Match, user: UserId)
    requires MatchInv(m) && m.state == Active && user in m.participants
    ensures m.problem.Some? && |m.participants| == Seats(m.mode) && m.evaluation.None?
    ensures m.mode == Duel ==> m.participants.Keys - {user} != {}
  {
    hide EventsOk, ExecutionsOk, InflightOk, WinnerOk, RecordsOk, VotesOk, DecidedOk, AnswersOk, SnapshotOk, StatusOk;
    assert |m.participants.Keys - {user}| == |m.participants.Keys| - 1;
  }

  /** A prepared match has an evaluation. */
  lemma PreparedMoves(c: Config, m: Match, material: Material, userA: UserId, now: Time)
    requires m.state == Active && m.answers.Keys == m.participants.Keys && m.evaluation.None?
    requires m.problem.Some? && |m.participants| == Seats(m.mode)
    requires MaterialOk(material) && userA in m.participants && (m.mode == Duel ==> m.participants.Keys - {userA} != {})
    ensures PrepareEvaluation(c, m, Some(material), userA, now).value != m
  {
  }

  lemma PreparedKeeps(c: Config, m: Match, e: Evaluation, now: Time)
    requires MatchInv(m) && m.state == Active && m.challenge == AiMl
    requires SnapshotOk(m.mode, m.participants.Keys, m.answers, e) && e.status.Pending? && e.verdict.None?
    ensures
      var n := Prepared(c, m, e, now);
      Keeps(m, n) && if AllBlank(m) then Terminal(n.state) else n.state == State.Judging
  {
    hide MatchInv, Evolves, SnapshotOk, FinalizeSkipped;
    var judging := AppendEvent(m.(evaluation := Some(e), state := State.Judging), JudgingStarted, now);
    OpenEvaluationKeeps(m, e, now);
    if AllBlank(m) {
      var reason := if TimedOut(m) then AnswerTimeout else NoContest;
      FinalizeSkippedKeeps(c, judging, e, reason, now);
      KeepsTransitive(m, judging, FinalizeSkipped(c, judging, e, reason, now));
    }
  }

  lemma AnswerAdded(answers: Answers, user: UserId, answer: Answer)
    requires AnswersOk(answers) && StoredText(answer.text) && user !in answers
    ensures AnswersOk(answers[user := answer]) && AnswersEvolve(answers, answers[user := answer])
  {
    hide StoredText;
  }

  lemma AnswersAreStored(m: Match)
    requires MatchInv(m)
    ensures AnswersOk(m.answers) && m.answers.Keys <= m.participants.Keys
  {
    hide AnswersOk;
  }

  /** What the submission endpoint lets through is stored as it will be read again. */
  lemma SubmittedIsStored(answer: string)
    requires AnswerText.Measured(answer, AnswerText.ANSWER_LIMITS).violations == []
    ensures StoredText(AnswerText.Measured(answer, AnswerText.ANSWER_LIMITS).normalized)
  {
    hide AnswerText.Measured;
    AnswerText.StoredAnswerSurvivesSnapshot(answer, AnswerText.ANSWER_LIMITS);
  }

  lemma SubmitAnswerKeeps(c: Config, m: Match, user: UserId, text: string, material: Option<Material>, userA: UserId,
                          now: Time)
    requires MatchInv(m) && m.challenge == AiMl && user in m.participants && StoredText(text)
    requires SubmitAnswer(c, m, user, text, material, userA, now).Ok?
    ensures Keeps(m, SubmitAnswer(c, m, user, text, material, userA, now).value)
  {
    hide MatchInv, Evolves, PrepareEvaluation, AnswersOk, AnswersEvolve, StoredText;
    var answered := m.(answers := m.answers[user := Answer(text, Player, now)]);
    AnswersAreStored(m);
    AnswerAdded(m.answers, user, Answer(text, Player, now));
    AnswersAddedKeep(m, answered.answers);
    AnnouncedKeeps(m, answered, AnswerSubmitted, now);
    var announced := AppendEvent(answered, AnswerSubmitted, now);
    PrepareKeeps(c, announced, material, userA, now);
    KeepsTransitive(m, announced, SubmitAnswer(c, m, user, text, material, userA, now).value);
  }

  lemma DeadlineKeeps(c: Config, m: Match, material: Option<Material>, userA: UserId, now: Time)
    requires MatchInv(m) && m.challenge == AiMl && ProcessAnswerDeadline(c, m, material, userA, now).Ok?
    ensures Keeps(m, ProcessAnswerDeadline(c, m, material, userA, now).value)
  {
    hide MatchInv, Evolves, PrepareEvaluation, FillMissing;
    EvolvesReflexive(m);
    if m.state == Active && m.answerDeadline.Some? && m.answerDeadline.value <= now {
      var filled := FillMissing(m, m.answerDeadline.value, now);
      FillMissingKeeps(m, m.answerDeadline.value, now);
      PrepareKeeps(c, filled, material, userA, now);
      KeepsTransitive(m, filled, ProcessAnswerDeadline(c, m, material, userA, now).value);
    } else {
      UnchangedKeeps(m);
    }
  }

  // ----- workers

  lemma EvaluationRowEvolves(m: Match, e: Evaluation)
    requires EvaluationEvolves(m.evaluation, Some(e))
    ensures Evolves(m, m.(evaluation := Some(e)))
  {
    hide EvaluationEvolves;
  }

  lemma EvaluationRowKeeps(m: Match, e: Evaluation)
    requires MatchInv(m) && m.evaluation.Some? && m.state == State.Judging
    requires EvaluationEvolves(m.evaluation, Some(e)) && LiveEvaluation(e) && StatusOk(m.winner, e)
    ensures Keeps(m, m.(evaluation := Some(e)))
  {
    hide EventsOk, ExecutionsOk, InflightOk, WinnerOk, RecordsOk, VotesOk, DecidedOk, AnswersOk, StatusOk, Evolves;
    EvaluationRowEvolves(m, e);
    var n := m.(evaluation := Some(e));
    assert EvaluationOk(n.state, n.challenge, n.mode, n.winner, n.participants.Keys, n.answers, n.evaluation);
    hide EvaluationOk;
    assert BaseInv(n);
  }

  lemma LiveIsJudging(m: Match)
    requires MatchInv(m) && m.evaluation.Some? && LiveEvaluation(m.evaluation.value)
    ensures m.state == State.Judging
  {
    hide EventsOk, ExecutionsOk, InflightOk, WinnerOk, RecordsOk, VotesOk, DecidedOk, AnswersOk, StatusOk, SnapshotOk;
  }

  lemma UnjudgedStatus(m: Match)
    requires MatchInv(m) && m.state == State.Judging
    ensures m.evaluation.Some? && StatusOk(m.winner, m.evaluation.value) && LiveEvaluation(m.evaluation.value)
    ensures m.winner.None?
  {
    hide EventsOk, ExecutionsOk, InflightOk, WinnerOk, RecordsOk, VotesOk, DecidedOk, AnswersOk, StatusOk, SnapshotOk;
  }

  lemma ClaimKeeps(c: Config, m: Match, now: Time)
    requires MatchInv(m) && ClaimEvaluation(c, m, now).Some?
    ensures Keeps(m, ClaimEvaluation(c, m, now).value) && m.state == State.Judging
  {
    hide MatchInv, Keeps, CompletionCheck;
    var e := m.evaluation.value;
    LiveIsJudging(m);
    UnjudgedStatus(m);
    EvaluationRowKeeps(m, e.(claims := e.claims + 1, status := InProgress(e.claims + 1, now)));
  }

  lemma PermanentFailureKeeps(c: Config, m: Match, e: Evaluation, now: Time)
    requires MatchInv(m) && m.state == State.Judging && m.evaluation.Some?
    requires e == m.evaluation.value.(status := Failed(false, None))
    ensures Keeps(m, Conclude(c,
                              AppendEvent(Resulted(m, e, None, JudgeFailed, NoContestFor(m.participants), now),
                                          JudgeFailure, now), now))
  {
    hide MatchInv, Keeps, Conclude, Resulted, CompletionCheck;
    NoContestSeats(m.participants);
    UnjudgedStatus(m);
    ResultedConcludes(c, m, e, None, JudgeFailed, NoContestFor(m.participants), JudgeFailure, now);
  }

  lemma RetryableFailureKeeps(m: Match, e: Evaluation, at: Time, now: Time)
    requires MatchInv(m) && m.state == State.Judging && m.evaluation.Some?
    requires e == m.evaluation.value.(status := Failed(true, Some(at)))
    ensures Keeps(m, AppendEvent(m.(evaluation := Some(e)), JudgeFailure, now))
  {
    hide MatchInv, Keeps, CompletionCheck;
    UnjudgedStatus(m);
    EvaluationRowKeeps(m, e);
    AnnouncedKeeps(m, m.(evaluation := Some(e)), JudgeFailure, now);
  }

  lemma PersistFailureKeeps(c: Config, m: Match, claim: nat, retryable: bool, budgetOpen: bool, now: Time)
    requires MatchInv(m)
    ensures Keeps(m, PersistFailure(c, m, claim, retryable, budgetOpen, now))
  {
    hide MatchInv, Grows;
    var n := PersistFailure(c, m, claim, retryable, budgetOpen, now);
    if HoldsClaim(m, claim) {
      var delay := if budgetOpen then c.budgetRecovery else c.judgeRecovery;
      var e := m.evaluation.value.(status := Failed(retryable, if retryable then Some(now + delay) else None));
      if retryable {
        RetryableFailureKeeps(m, e, now + delay, now);
      } else {
        PermanentFailureKeeps(c, m, e, now);
      }
    } else {
      assert n == m;
      EvolvesReflexive(m);
    }
  }

  lemma JudgedSeats(participants: Participants, winner: Option<UserId>)
    ensures JudgedOutcomes(participants, Duel, winner).Keys == participants.Keys
    ensures |JudgedOutcomes(participants, Duel, winner)| == |participants|
    ensures JudgedOutcomes(participants, Practice, winner).Keys == participants.Keys
    ensures |JudgedOutcomes(participants, Practice, winner)| == |participants|
  {
    assert JudgedOutcomes(participants, Duel, winner).Keys == participants.Keys;
    assert |JudgedOutcomes(participants, Duel, winner).Keys| == |participants.Keys|;
    assert JudgedOutcomes(participants, Practice, winner).Keys == participants.Keys;
    assert |JudgedOutcomes(participants, Practice, winner).Keys| == |participants.Keys|;
  }

  lemma JudgedStatus(mode: Mode, players: set<UserId>, answers: Answers, e: Evaluation, r: DuelScoring.JudgeResult,
                     winner: Option<UserId>)
    requires SnapshotOk(mode, players, answers, e) && CompletionCheck(e, r, winner)
    ensures StatusOk(winner, e.(status := Concluded, verdict := Some(r), winner := winner))
    ensures winner.Some? ==> winner.value in players && mode == Duel
  {
  }

  /** A judged duel has a winner, and at least one of its answers was not blank. */
  lemma JudgedDecides(m: Match, e: Evaluation, r: DuelScoring.JudgeResult, winner: Option<UserId>)
    requires SnapshotOk(m.mode, m.participants.Keys, m.answers, e) && CompletionCheck(e, r, winner)
    ensures DecidedOk(m.mode, Some(if TimedOut(m) then AnswerTimeout else EndReason.Judged), winner, m.answers)
  {
    if m.mode == Duel {
      assert m.answers[e.userA].text != "" || m.answers[e.userB.value].text != "";
    }
  }

  lemma JudgedSeatsFor(participants: Participants, mode: Mode, winner: Option<UserId>)
    ensures
      var after := JudgedOutcomes(participants, mode, winner);
      && after.Keys == participants.Keys && |after| == |participants| && SlotsKept(participants, after)
      && (forall u :: u in after ==> after[u].activeExecution.None?)
      && (mode == Duel ==> forall u :: u in after ==> after[u].outcome == Some(if winner == Some(u) then Win else Loss))
  {
    JudgedSeats(participants, winner);
  }

  lemma JudgedConcludes(e: Evaluation, r: DuelScoring.JudgeResult, winner: Option<UserId>)
    requires LiveEvaluation(e)
    ensures
      var concluded := e.(status := Concluded, verdict := Some(r), winner := winner);
      EvaluationEvolves(Some(e), Some(concluded)) && !LiveEvaluation(concluded)
  {
  }

  lemma JudgedSnapshot(m: Match)
    requires MatchInv(m) && m.evaluation.Some?
    ensures SnapshotOk(m.mode, m.participants.Keys, m.answers, m.evaluation.value)
  {
    hide EventsOk, LifecycleOk, ExecutionsOk, InflightOk, WinnerOk, RecordsOk, VotesOk, DecidedOk, AnswersOk,
      SnapshotOk;
  }

  lemma JudgedKeeps(c: Config, m: Match, r: DuelScoring.JudgeResult, winner: Option<UserId>, now: Time)
    requires MatchInv(m) && m.state == State.Judging && m.evaluation.Some?
    requires CompletionCheck(m.evaluation.value, r, winner)
    ensures
      var e := m.evaluation.value.(status := Concluded, verdict := Some(r), winner := winner);
      var reason := if TimedOut(m) then AnswerTimeout else EndReason.Judged;
      var participants := JudgedOutcomes(m.participants, m.mode, winner);
      Keeps(m, Conclude(c, AppendEvent(Resulted(m, e, winner, reason, participants, now), JudgmentCompleted, now), now))
  {
    JudgedSnapshot(m);
    UnjudgedStatus(m);
    JudgedConcludes(m.evaluation.value, r, winner);
    hide MatchInv, Keeps, Conclude, Resulted, CompletionCheck, JudgedOutcomes, SnapshotOk, StatusOk, TimedOut,
      DecidedOk,
      SlotsKept, EvaluationEvolves, LiveEvaluation;
    var e := m.evaluation.value.(status := Concluded, verdict := Some(r), winner := winner);
    var reason := if TimedOut(m) then AnswerTimeout else EndReason.Judged;
    JudgedStatus(m.mode, m.participants.Keys, m.answers, m.evaluation.value, r, winner);
    JudgedDecides(m, m.evaluation.value, r, winner);
    JudgedSeatsFor(m.participants, m.mode, winner);
    ResultedConcludes(c, m, e, winner, reason, JudgedOutcomes(m.participants, m.mode, winner), JudgmentCompleted, now);
  }

  lemma PersistSuccessKeeps(c: Config, m: Match, claim: nat, result: DuelScoring.JudgeResult, now: Time)
    requires MatchInv(m) && PersistSuccess(c, m, claim, result, now).Ok?
    ensures Keeps(m, PersistSuccess(c, m, claim, result, now).value)
  {
    hide MatchInv, Keeps, Conclude, Resulted, CompletionCheck, JudgedOutcomes, TimedOut, DuelScoring.AdjustForStorage;
    if HoldsClaim(m, claim) {
      var e := m.evaluation.value;
      var r := DuelScoring.AdjustForStorage(e.snapshot, result);
      JudgedKeeps(c, m, r, WinnerUser(e, r.winner), now);
    } else {
      assert PersistSuccess(c, m, claim, result, now).value == m;
      UnchangedKeeps(m);
    }
  }
}
