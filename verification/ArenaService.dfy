/** The transactions of arena-service.ts over the store, each ending as exactly the atomic step of the same name. */
module ArenaService {
  import opened Domain
  import opened MatchTypes
  import opened MatchRules
  import opened ArenaRules
  import opened MatchInvariants
  import opened World
  import opened Database
  import opened Rotation
  import opened WorldSafety
  import opened SafeRuns
  import MatchService
  import MatchEngine
  import ArenaSafety
  import MatchSafety
  import DuelScoring
  import AnswerText

  // ----- rows rewritten so far

  type Answering = map<UserId, Answer>

  function Blanks(users: set<UserId>, deadline: Time): Answering {
    map u | u in users :: Answer("", Deadline, deadline)
  }

  lemma BlanksStep(answers: Answering, done: set<UserId>, u: UserId, deadline: Time)
    ensures answers + Blanks(done + {u}, deadline)
            == (answers + Blanks(done, deadline))[u := Answer("", Deadline, deadline)]
  {
  }

  lemma AppendCommutes(m: Match, answers: Answering, kind: EventKind, now: Time)
    ensures AppendEvent(m.(answers := answers), kind, now) == AppendEvent(m, kind, now).(answers := answers)
  {
  }

  lemma {:induction false} AppendsCommute(m: Match, answers: Answering, kind: EventKind, count: nat, now: Time)
    ensures AppendEvents(m.(answers := answers), kind, count, now)
            == AppendEvents(m, kind, count, now).(answers := answers)
  {
    hide AppendEvent;
    if count > 0 {
      AppendsCommute(m, answers, kind, count - 1, now);
      AppendCommutes(AppendEvents(m, kind, count - 1, now), answers, kind, now);
    }
  }

  /** The match once the players in `done` have been timed out. */
  function Filled(m: Match, done: set<UserId>, deadline: Time, now: Time): Match {
    AppendEvents(m, AnswerTimedOut, |done|, now).(answers := m.answers + Blanks(done, deadline))
  }

  lemma FilledStep(m: Match, done: set<UserId>, u: UserId, deadline: Time, now: Time)
    requires u !in done
    ensures
      var before := Filled(m, done, deadline, now);
      Filled(m, done + {u}, deadline, now) ==
        AppendEvent(before.(answers := before.answers[u := Answer("", Deadline, deadline)]), AnswerTimedOut, now)
  {
    hide AppendEvent, Blanks;
    BlanksStep(m.answers, done, u, deadline);
    AppendCommutes(AppendEvents(m, AnswerTimedOut, |done|, now), m.answers + Blanks(done + {u}, deadline),
                   AnswerTimedOut, now);
    assert |done + {u}| == |done| + 1;
  }

  lemma FilledEnds(m: Match, deadline: Time, now: Time)
    ensures Filled(m, {}, deadline, now) == m
    ensures Filled(m, Missing(m), deadline, now) == FillMissing(m, deadline, now)
  {
    hide AppendEvent;
    NobodyFilled(m, deadline, now);
    EverybodyFilled(m, deadline, now);
  }

  lemma {:induction false} NobodyFilled(m: Match, deadline: Time, now: Time)
    ensures Filled(m, {}, deadline, now) == m
  {
    hide AppendEvent, Missing;
    assert m.answers + Blanks({}, deadline) == m.answers;
  }

  lemma {:induction false} EverybodyFilled(m: Match, deadline: Time, now: Time)
    ensures Filled(m, Missing(m), deadline, now) == FillMissing(m, deadline, now)
  {
    hide AppendEvent, AppendEvents, Missing;
    AppendsCommute(m, m.answers + Blanks(Missing(m), deadline), AnswerTimedOut, |Missing(m)|, now);
  }

  /** Finishing announcements leave the result columns alone. */
  lemma AnnouncedResult(c: Config, m: Match, kind: EventKind, now: Time)
    ensures
      var n := Conclude(c, AppendEvent(m, kind, now), now);
      n.winner == m.winner && n.participants == m.participants && n.recordsApplied == m.recordsApplied
  {
  }

  function JudgedFor(participants: Participants, done: set<UserId>, mode: Mode,
                     winner: Option<UserId>): (r: Participants)
    ensures r.Keys == participants.Keys
  {
    map u | u in participants :: if u in done then JudgedRow(participants[u], u, mode, winner) else participants[u]
  }

  function JudgedRow(p: Participant, u: UserId, mode: Mode, winner: Option<UserId>): Participant {
    p.(outcome := Some(if mode == Practice then Draw else if winner == Some(u) then Win else Loss),
       activeExecution := None)
  }

  lemma JudgedStep(participants: Participants, done: set<UserId>, u: UserId, mode: Mode, winner: Option<UserId>)
    requires u in participants && u !in done
    ensures
      var before := JudgedFor(participants, done, mode, winner);
      JudgedFor(participants, done + {u}, mode, winner) == before[u := JudgedRow(before[u], u, mode, winner)]
  {
  }

  lemma JudgedEnds(participants: Participants, mode: Mode, winner: Option<UserId>)
    ensures JudgedFor(participants, {}, mode, winner) == participants
    ensures JudgedFor(participants, participants.Keys, mode, winner) == JudgedOutcomes(participants, mode, winner)
  {
  }

  method JudgePlayer(p: Participant, u: UserId, mode: Mode, winner: Option<UserId>) returns (q: Participant)
    ensures q == JudgedRow(p, u, mode, winner)
  {
    var outcome := if mode == Practice then Draw else if winner == Some(u) then Win else Loss;
    q := p.(outcome := Some(outcome), activeExecution := None);
  }

  lemma TheOther(players: set<UserId>, userA: UserId, userB: UserId)
    requires |players| == 2 && userA in players && userB in players - {userA}
    ensures players - {userA} == {userB}
  {
    assert |players - {userA}| == 1;
    MatchSafety.OneElement({userB}, players - {userA});
  }

  lemma PreparedAs(c: Config, m: Match, material: Material, userA: UserId, userB: Option<UserId>, now: Time)
    requires m.state == Active && m.problem.Some? && |m.participants| == Seats(m.mode)
    requires m.answers.Keys == m.participants.Keys
    requires MaterialOk(material) && userA in m.participants && m.evaluation.None?
    requires if m.mode == Duel then userB.Some? && userB.value in m.participants.Keys - {userA} else userB.None?
    ensures PrepareEvaluation(c, m, Some(material), userA, now)
            == Ok(Prepared(c, m, NewEvaluation(m, material, userA, userB), now))
  {
    hide Prepared, MaterialOk;
    if m.mode == Duel {
      assert |m.participants.Keys| == 2;
      TheOther(m.participants.Keys, userA, userB.value);
    }
  }

  lemma SuccessCounts(c: Config, m: Match, n: Match, records: map<UserId, Record>, winner: Option<UserId>)
    requires n.winner == winner && n.participants == JudgedOutcomes(m.participants, m.mode, winner)
    ensures Bumped(records, n) == MatchEngine.Counted(records, m.participants.Keys, winner)
  {
    assert n.participants.Keys == m.participants.Keys;
  }

  lemma JudgingUncounted(s: Setting, w: World, id: MatchId)
    requires WorldInv(s, w) && id in w.matches
    ensures w.matches[id].state == State.Judging ==> !w.matches[id].recordsApplied
  {
    assert MatchInv(w.matches[id]);
  }

  // Neither answering nor claiming nor a failure ever counts a result.

  lemma SubmissionCountsNothing(c: Config, m: Match, user: UserId, text: string, material: Option<Material>,
                                userA: UserId, now: Time)
    ensures
      var r := SubmitAnswer(c, m, user, text, material, userA, now);
      r.Ok? ==> r.value.recordsApplied ==> m.recordsApplied
  {
    if SubmitAnswer(c, m, user, text, material, userA, now).Ok? {
      PrepareCountsNothing(c, AppendEvent(m.(answers := m.answers[user := Answer(text, Player, now)]), AnswerSubmitted,
                                          now),
                           material, userA, now);
    }
  }

  lemma PrepareCountsNothing(c: Config, m: Match, material: Option<Material>, userA: UserId, now: Time)
    ensures
      var r := PrepareEvaluation(c, m, material, userA, now);
      r.Ok? ==> r.value.recordsApplied ==> m.recordsApplied
  {
    hide NewEvaluation, MaterialOk, AllBlank, TimedOut;
  }

  lemma DeadlineCountsNothing(c: Config, m: Match, material: Option<Material>, userA: UserId, now: Time)
    ensures
      var r := ProcessAnswerDeadline(c, m, material, userA, now);
      r.Ok? ==> r.value.recordsApplied ==> m.recordsApplied
  {
    hide PrepareEvaluation;
    if m.answerDeadline.Some? {
      var filled := FillMissing(m, m.answerDeadline.value, now);
      AppendsKeepRecords(m.(answers := m.answers + map u | u in Missing(m) ::
                            Answer("", Deadline, m.answerDeadline.value)),
                         |Missing(m)|, now);
      PrepareCountsNothing(c, filled, material, userA, now);
    }
  }

  lemma {:induction false} AppendsKeepRecords(m: Match, count: nat, now: Time)
    ensures AppendEvents(m, AnswerTimedOut, count, now).recordsApplied == m.recordsApplied
  {
    if count > 0 {
      AppendsKeepRecords(m, count - 1, now);
    }
  }

  lemma FailureCountsNothing(c: Config, m: Match, claim: nat, retryable: bool, budgetOpen: bool, now: Time)
    ensures PersistFailure(c, m, claim, retryable, budgetOpen, now).recordsApplied ==> m.recordsApplied
  {
  }

  lemma ClaimedIsJudging(s: Setting, w: World, id: MatchId, now: Time)
    requires WorldInv(s, w) && id in w.matches && ClaimEvaluation(s.config, w.matches[id], now).Some?
    ensures w.matches[id].state == State.Judging
  {
    assert MatchInv(w.matches[id]);
    ArenaSafety.ClaimKeeps(s.config, w.matches[id], now);
  }

  lemma NothingRecorded(records: map<UserId, Record>, m: Match, n: Match)
    requires n.recordsApplied ==> m.recordsApplied
    ensures Recorded(records, m, n) == records
  {
  }

  // ----- the service

  class Service {
    const db: Tables
    const setting: Setting

    constructor (db: Tables, setting: Setting)
      ensures this.db == db && this.setting == setting
    {
      this.db, this.setting := db, setting;
    }

    ghost predicate Valid()
      reads db
    {
      CatalogOk(setting) && WorldInv(setting, db.Now())
    }

    method OpenRematchTx(m: Match, now: Time) returns (n: Match)
      ensures n == OpenRematch(setting.config, m, now)
    {
      n := m.(state := RematchPending, rematchDeadline := Some(now + setting.config.rematchWindow));
      n := Appended(n, RematchOpened, now);
    }

    method FinishTx(m: Match, now: Time) returns (n: Match)
      ensures n == Conclude(setting.config, m, now)
    {
      n := Appended(m, MatchFinished, now);
      if n.mode == Duel {
        n := OpenRematchTx(n, now);
      }
    }

    method FinalizeSkippedTx(m: Match, e: Evaluation, reason: EndReason, now: Time) returns (n: Match)
      ensures n == FinalizeSkipped(setting.config, m, e, reason, now)
    {
      var scoreB := if m.mode == Duel then Some(0) else None;
      var skipped := e.(status := Skipped,
                        verdict := Some(DuelScoring.JudgeResult(0, scoreB, 0, scoreB, None, DuelScoring.NoTie)));
      n := m.(evaluation := Some(skipped), state := Finished, winner := None, endReason := Some(reason),
              finishedAt := Some(now), recordsApplied := false);
      n := n.(participants := map u | u in n.participants ::
              n.participants[u].(outcome := Some(OutNoContest), activeExecution := None));
      n := Appended(n, AutomaticResolution, now);
      n := FinishTx(n, now);
    }

    method PrepareEvaluationTx(m: Match, material: Option<Material>, userA: UserId,
                               now: Time) returns (r: Result<Match>)
      ensures r == PrepareEvaluation(setting.config, m, material, userA, now)
    {
      hide FinalizeSkipped, AllBlank, TimedOut;
      if m.state != Active {
        return Ok(m);
      }
      if m.problem.None? {
        return Err(Internal);
      }
      var expected := if m.mode == Practice then 1 else 2;
      if |m.participants| != expected || m.answers.Keys != m.participants.Keys {
        return Ok(m);
      }
      if material.None? {
        return Err(JudgeUnavailable);
      }
      if !MaterialOk(material.value) || userA !in m.participants {
        return Err(Internal);
      }
      var userB: Option<UserId> := None;
      if m.mode == Duel {
        var others := m.participants.Keys - {userA};
        if others == {} {
          return Err(Internal);
        }
        var other :| other in others;
        userB := Some(other);
      }
      if m.evaluation.Some? {
        return Ok(m);
      }
      var e := Evaluation(
        DuelScoring.Snapshot(m.mode, material.value.schemaVersion, material.value.criteria, m.answers[userA].text,
                             if userB.Some? then Some(m.answers[userB.value].text) else None),
        userA, userB, 0, Pending, None, None);
      PreparedAs(setting.config, m, material.value, userA, userB, now);
      var n := m.(evaluation := Some(e), state := State.Judging);
      n := Appended(n, JudgingStarted, now);
      if AllBlank(m) {
        n := FinalizeSkippedTx(n, e, if TimedOut(m) then AnswerTimeout else NoContest, now);
      }
      return Ok(n);
    }

    method SubmitAnswerTx(m: Match, user: UserId, text: string, material: Option<Material>, userA: UserId, now: Time)
      returns (r: Result<Match>)
      ensures r == SubmitAnswer(setting.config, m, user, text, material, userA, now)
    {
      hide PrepareEvaluation;
      if m.state != Active || m.answerDeadline.None? {
        return Err(InvalidState);
      }
      if now >= m.answerDeadline.value {
        return Err(AnswerDeadlinePassed);
      }
      if user in m.answers {
        return Err(AnswerAlreadySubmitted);
      }
      var n := m.(answers := m.answers[user := Answer(text, Player, now)]);
      n := Appended(n, AnswerSubmitted, now);
      r := PrepareEvaluationTx(n, material, userA, now);
    }

    /** Inserts a blank answer and announces a timeout for each player who sent none. */
    method FillMissingTx(m: Match, deadline: Time, now: Time) returns (n: Match)
      ensures n == FillMissing(m, deadline, now)
    {
      hide Filled, FillMissing, AppendEvent;
      n := m;
      var todo := m.participants.Keys - m.answers.Keys;
      ghost var done: set<UserId> := {};
      FilledEnds(m, deadline, now);
      while todo != {}
        invariant todo + done == Missing(m) && todo !! done
        invariant n == Filled(m, done, deadline, now)
        decreases todo
      {
        var u :| u in todo;
        FilledStep(m, done, u, deadline, now);
        n := n.(answers := n.answers[u := Answer("", Deadline, deadline)]);
        n := Appended(n, AnswerTimedOut, now);
        todo, done := todo - {u}, done + {u};
      }
      assert done == Missing(m);
    }

    method ProcessAnswerDeadlineTx(m: Match, material: Option<Material>, userA: UserId,
                                   now: Time) returns (r: Result<Match>)
      ensures r == ProcessAnswerDeadline(setting.config, m, material, userA, now)
    {
      hide PrepareEvaluation, FillMissing;
      if m.state != Active || m.answerDeadline.None? {
        return Ok(m);
      }
      if m.answerDeadline.value > now {
        return Ok(m);
      }
      var n := FillMissingTx(m, m.answerDeadline.value, now);
      r := PrepareEvaluationTx(n, material, userA, now);
    }

    method ClaimEvaluationTx(m: Match, now: Time) returns (r: Option<Match>)
      ensures r == ClaimEvaluation(setting.config, m, now)
    {
      if m.evaluation.None? {
        return None;
      }
      var e := m.evaluation.value;
      if e.status.Concluded? || e.status.Skipped? {
        return None;
      }
      if e.status.InProgress? {
        var stale := e.status.claimedAt <= now - setting.config.staleClaim;
        if !stale {
          return None;
        }
      }
      if e.status.Failed? && e.status.retryNotBefore.Some? {
        var due := e.status.retryNotBefore.value <= now;
        if !due {
          return None;
        }
      }
      if e.status.Failed? && !e.status.retryable {
        return None;
      }
      e := e.(claims := e.claims + 1);
      e := e.(status := InProgress(e.claims, now));
      return Some(m.(evaluation := Some(e)));
    }

    method PersistFailureTx(m: Match, claim: nat, retryable: bool, budgetOpen: bool, now: Time) returns (n: Match)
      ensures n == PersistFailure(setting.config, m, claim, retryable, budgetOpen, now)
    {
      hide Conclude, Resulted, NoContestFor, AppendEvent;
      if m.state != State.Judging {
        return m;
      }
      if m.evaluation.None? || !m.evaluation.value.status.InProgress? || m.evaluation.value.status.claim != claim {
        return m;
      }
      var retryAt: Option<Time> := None;
      if retryable {
        retryAt := Some(now + if budgetOpen then setting.config.budgetRecovery else setting.config.judgeRecovery);
      }
      n := m.(evaluation := Some(m.evaluation.value.(status := Failed(retryable, retryAt))));
      if retryable {
        n := Appended(n, JudgeFailure, now);
        return;
      }
      n := FailPermanently(m, n.evaluation.value, now);
    }

    /** A permanent failure and its no-contest outcome are one transition. */
    method FailPermanently(m: Match, e: Evaluation, now: Time) returns (n: Match)
      ensures n == Conclude(setting.config,
                            AppendEvent(Resulted(m, e, None, JudgeFailed, NoContestFor(m.participants), now),
                                                        JudgeFailure, now), now)
    {
      hide Conclude;
      n := Appended(m.(evaluation := Some(e)), JudgeFailure, now);
      n := n.(state := Finished, winner := None, endReason := Some(JudgeFailed), finishedAt := Some(now),
              recordsApplied := false);
      n := n.(participants := map u | u in n.participants ::
              n.participants[u].(outcome := Some(OutNoContest), activeExecution := None));
      assert n.participants == NoContestFor(m.participants);
      n := FinishTx(n, now);
    }

    /** Outcomes and records of a judged round, player by player. */
    method JudgePlayers(m: Match, winner: Option<UserId>, applies: bool) returns (participants: Participants)
      modifies db`records
      ensures participants == JudgedOutcomes(m.participants, m.mode, winner)
      ensures db.records == if applies then MatchEngine.Counted(old(db.records), m.participants.Keys, winner)
              else old(db.records)
    {
      hide JudgedFor, JudgedRow, JudgedOutcomes, MatchEngine.Counted, MatchEngine.OneMore;
      participants := m.participants;
      var todo := m.participants.Keys;
      ghost var done: set<UserId> := {};
      JudgedEnds(m.participants, m.mode, winner);
      MatchEngine.NothingDone(m.participants, db.records, EndReason.Judged, winner);
      while todo != {}
        invariant todo + done == m.participants.Keys && todo !! done
        invariant participants == JudgedFor(m.participants, done, m.mode, winner)
        invariant db.records == if applies then MatchEngine.Counted(old(db.records), done, winner) else old(db.records)
        decreases todo
      {
        var u :| u in todo;
        var player := JudgePlayer(participants[u], u, m.mode, winner);
        JudgedStep(m.participants, done, u, m.mode, winner);
        participants := participants[u := player];
        if applies {
          if u in db.records {
            MatchEngine.CountedStep(old(db.records), done, u, winner);
            db.records := db.records[u := MatchEngine.OneMore(db.records[u], winner == Some(u))];
          } else {
            MatchEngine.CountedSkip(old(db.records), done, u, winner);
          }
        }
        todo, done := todo - {u}, done + {u};
      }
    }

    method AdjustScores(s: DuelScoring.Snapshot, result: DuelScoring.JudgeResult) returns (r: DuelScoring.JudgeResult)
      ensures r == DuelScoring.AdjustForStorage(s, result)
    {
      var blankA, blankB := s.answerA == "", s.answerB == Some("");
      r := result;
      if s.mode == Duel && blankA != blankB {
        r := r.(winner := Some(if blankA then DuelScoring.B else DuelScoring.A), reason := DuelScoring.BlankForfeit);
        if blankA {
          var rawB := Max(0, if r.rawB.Some? then r.rawB.value else 0);
          r := r.(rawA := 0, officialA := 0, rawB := Some(rawB), officialB := Some(Max(1, rawB)));
        } else {
          var rawA := Max(0, r.rawA);
          r := r.(rawB := Some(0), officialB := Some(0), rawA := rawA, officialA := Max(1, rawA));
        }
      } else if s.mode == Duel && r.rawB.Some? && r.rawA == r.rawB.value && r.winner.Some? {
        var adjusted := DuelScoring.OfficialTieScores(r.rawA, r.winner.value);
        r := r.(officialA := adjusted.scoreA, officialB := Some(adjusted.scoreB));
      }
    }

    method PersistSuccessTx(m: Match, claim: nat, result: DuelScoring.JudgeResult, now: Time) returns (r: Result<Match>)
      requires m.state == State.Judging ==> !m.recordsApplied
      modifies db`records
      ensures r == PersistSuccess(setting.config, m, claim, result, now)
      ensures db.records == if r.Ok? then Recorded(old(db.records), m, r.value) else old(db.records)
    {
      hide Conclude, AppendEvent, Bumped, JudgedOutcomes, MatchEngine.Counted, DuelScoring.AdjustForStorage,
        CompletionCheck, TimedOut;
      if m.evaluation.None? {
        return Ok(m);
      }
      var e := m.evaluation.value;
      var verdict := AdjustScores(e.snapshot, result);
      var winner: Option<UserId> := None;
      if verdict.winner.Some? {
        winner := if verdict.winner.value == DuelScoring.A then Some(e.userA) else e.userB;
      }
      if e.snapshot.mode == Duel && winner.None? {
        return Err(Internal);
      }
      if m.state != State.Judging || !e.status.InProgress? || e.status.claim != claim {
        return Ok(m);
      }
      if !CompletionCheck(e, verdict, winner) {
        return Err(Internal);
      }
      var n := StoreVerdict(m, e.(status := Concluded, verdict := Some(verdict), winner := winner), winner, now);
      return Ok(n);
    }

    /** The statements of persistSuccess once its claim is confirmed. */
    method StoreVerdict(m: Match, e: Evaluation, winner: Option<UserId>, now: Time) returns (n: Match)
      modifies db`records
      ensures
        n == Conclude(setting.config, AppendEvent(
               Resulted(m, e, winner, if TimedOut(m) then AnswerTimeout else EndReason.Judged,
                        JudgedOutcomes(m.participants, m.mode, winner), now), JudgmentCompleted, now), now)
      ensures n.recordsApplied <==> m.mode == Duel && winner.Some?
      ensures db.records == if n.recordsApplied then Bumped(old(db.records), n) else old(db.records)
    {
      hide Conclude, AppendEvent, Bumped, JudgedOutcomes, MatchEngine.Counted, TimedOut;
      var applies := m.mode == Duel && winner.Some?;
      n := m.(evaluation := Some(e), state := Finished, winner := winner,
              endReason := Some(if TimedOut(m) then AnswerTimeout else EndReason.Judged),
              finishedAt := Some(now), recordsApplied := applies);
      var participants := JudgePlayers(m, winner, applies);
      n := n.(participants := participants);
      AnnouncedResult(setting.config, n, JudgmentCompleted, now);
      n := Appended(n, JudgmentCompleted, now);
      n := FinishTx(n, now);
      SuccessCounts(setting.config, m, n, old(db.records), winner);
    }

    // ----- transactions

    method Submit(actor: UserId, key: string, id: MatchId, answer: string, material: Option<Material>, userA: UserId,
                  now: Time)
      returns (reply: Reply)
      requires Valid()
      modifies db
      ensures (db.Now(), reply)
              == Exec(setting, old(db.Now()), Step.Submission(actor, key, id, answer, material, userA, now))
      ensures Valid()
    {
      hide WorldInv, WorldGrows, CatalogOk, SubmitAnswer, AnswerText.Measured, Recorded;
      StepSafe(setting, db.Now(), Step.Submission(actor, key, id, answer, material, userA, now));
      var began := db.Now();
      if id !in db.matches {
        return Refused(MatchNotFound);
      }
      if !KeyOk(key) {
        return Refused(IdempotencyKeyRequired);
      }
      var measured := AnswerText.MeasureAiMlAnswer(answer, AnswerText.ANSWER_LIMITS);
      if measured.violations != [] {
        return Refused(AnswerLimit);
      }
      var m := db.matches[id];
      if m.challenge != AiMl {
        return Refused(MatchNotFound);
      }
      if actor !in m.participants {
        return Refused(NotAParticipant);
      }
      var reservation := db.ReserveCommand(actor, key, SubmitAnswerCommand, Some(id), AnswerBody(measured.normalized));
      match reservation {
        case Rejected(error) => return Refused(error);
        case Duplicate(response) => return Replayed(response);
        case Reserved =>
      }
      var r := SubmitAnswerTx(m, actor, measured.normalized, material, userA, now);
      if r.Err? {
        db.Rollback(began);
        return Refused(r.error);
      }
      SubmissionCountsNothing(setting.config, m, actor, measured.normalized, material, userA, now);
      NothingRecorded(db.records, m, r.value);
      var response := EvaluationResponse(r.value.state == State.Judging);
      ghost var receipt := CommandReceipt(SubmitAnswerCommand, Some(id), AnswerBody(measured.normalized), None);
      MatchService.Overwritten(began.receipts, CommandKey(actor, key), receipt, receipt.(response := Some(response)));
      db.Write(id, r.value);
      db.CompleteCommand(actor, key, response);
      return Applied(response);
    }

    method ProcessDeadline(id: MatchId, material: Option<Material>, userA: UserId, now: Time) returns (reply: Reply)
      requires Valid()
      modifies db
      ensures (db.Now(), reply) == Exec(setting, old(db.Now()), Step.SweepDeadline(id, material, userA, now))
      ensures Valid()
    {
      hide WorldInv, WorldGrows, CatalogOk, ProcessAnswerDeadline, Recorded;
      StepSafe(setting, db.Now(), Step.SweepDeadline(id, material, userA, now));
      if id !in db.matches {
        return Refused(MatchNotFound);
      }
      var m := db.matches[id];
      if m.challenge != AiMl {
        return Refused(MatchNotFound);
      }
      var r := ProcessAnswerDeadlineTx(m, material, userA, now);
      if r.Err? {
        return Refused(r.error);
      }
      DeadlineCountsNothing(setting.config, m, material, userA, now);
      NothingRecorded(db.records, m, r.value);
      db.Write(id, r.value);
      return Ran;
    }

    /** The worker learns whether it holds the claim. */
    method Claim(id: MatchId, now: Time) returns (claim: Option<nat>)
      requires Valid()
      modifies db
      ensures db.Now() == Exec(setting, old(db.Now()), Step.Claim(id, now)).0
      ensures claim.Some? ==> id in db.matches && HoldsClaim(db.matches[id], claim.value)
      ensures claim.None? ==> db.Now() == old(db.Now())
      ensures Valid()
    {
      hide WorldInv, WorldGrows, CatalogOk, Recorded;
      StepSafe(setting, db.Now(), Step.Claim(id, now));
      if id !in db.matches {
        return None;
      }
      var m := db.matches[id];
      var claimed := ClaimEvaluationTx(m, now);
      NothingRecorded(db.records, m, m);
      if claimed.None? {
        MatchService.Unmoved(db.matches, id);
        return None;
      }
      ClaimedIsJudging(setting, db.Now(), id, now);
      NothingRecorded(db.records, m, claimed.value);
      db.Write(id, claimed.value);
      return Some(claimed.value.evaluation.value.claims);
    }

    method ReportFailure(id: MatchId, claim: nat, retryable: bool, budgetOpen: bool, now: Time) returns (reply: Reply)
      requires Valid()
      modifies db
      ensures (db.Now(), reply) == Exec(setting, old(db.Now()), Step.Fail(id, claim, retryable, budgetOpen, now))
      ensures Valid()
    {
      hide WorldInv, WorldGrows, CatalogOk, PersistFailure, Recorded;
      StepSafe(setting, db.Now(), Step.Fail(id, claim, retryable, budgetOpen, now));
      if id !in db.matches {
        return Refused(MatchNotFound);
      }
      var m := db.matches[id];
      var n := PersistFailureTx(m, claim, retryable, budgetOpen, now);
      FailureCountsNothing(setting.config, m, claim, retryable, budgetOpen, now);
      NothingRecorded(db.records, m, n);
      db.Write(id, n);
      return Ran;
    }

    method ReportSuccess(id: MatchId, claim: nat, result: DuelScoring.JudgeResult, now: Time) returns (reply: Reply)
      requires Valid()
      modifies db
      ensures (db.Now(), reply) == Exec(setting, old(db.Now()), Step.Succeed(id, claim, result, now))
      ensures Valid()
    {
      hide WorldInv, WorldGrows, CatalogOk, PersistSuccess, Recorded;
      StepSafe(setting, db.Now(), Step.Succeed(id, claim, result, now));
      var began := db.Now();
      if id !in db.matches {
        return Refused(MatchNotFound);
      }
      JudgingUncounted(setting, began, id);
      var r := PersistSuccessTx(db.matches[id], claim, result, now);
      if r.Err? {
        db.Rollback(began);
        return Refused(r.error);
      }
      db.Write(id, r.value);
      return Ran;
    }

    method RetryEvaluation(actor: UserId, key: string, id: MatchId, now: Time) returns (reply: Reply)
      requires Valid()
      modifies db
      ensures (db.Now(), reply) == Exec(setting, old(db.Now()), Step.Retry(actor, key, id, now))
      ensures Valid()
    {
      hide WorldInv, WorldGrows, CatalogOk, Recorded;
      StepSafe(setting, db.Now(), Step.Retry(actor, key, id, now));
      var began := db.Now();
      if id !in db.matches {
        return Refused(MatchNotFound);
      }
      var m := db.matches[id];
      if m.challenge != AiMl {
        return Refused(MatchNotFound);
      }
      if actor !in m.participants {
        return Refused(NotAParticipant);
      }
      var reservation := db.ReserveCommand(actor, key, RetryJudgingCommand, Some(id), Payload.Empty);
      match reservation {
        case Rejected(error) => return Refused(error);
        case Duplicate(response) => return Replayed(response);
        case Reserved =>
      }
      var refusal: Option<Error> := None;
      if m.state != State.Judging || m.evaluation.None? || !m.evaluation.value.status.Failed? {
        refusal := Some(InvalidState);
      } else if !m.evaluation.value.status.retryable {
        refusal := Some(InvalidState);
      } else if m.evaluation.value.status.retryNotBefore.Some? && m.evaluation.value.status.retryNotBefore.value > now {
        refusal := Some(RateLimited);
      }
      if refusal.Some? {
        db.Rollback(began);
        return Refused(refusal.value);
      }
      NothingRecorded(db.records, m, m);
      MatchService.Unmoved(db.matches, id);
      ghost var receipt := CommandReceipt(RetryJudgingCommand, Some(id), Payload.Empty, None);
      MatchService.Overwritten(began.receipts, CommandKey(actor, key), receipt,
                               receipt.(response := Some(EvaluationResponse(true))));
      db.CompleteCommand(actor, key, EvaluationResponse(true));
      return Applied(EvaluationResponse(true));
    }
  }
}
