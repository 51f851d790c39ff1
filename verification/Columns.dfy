/** What the columns of a match say about one another in every reachable state: absences and their deadlines, outcomes
    and the ending, the schedule, languages and seats. Stated over the rows alone. */
module Columns {
  import opened Domain
  import opened MatchTypes
  import opened MatchRules
  import opened ArenaRules
  import opened MatchInvariants
  import opened MatchSafety
  import opened ArenaSafety
  import opened World
  import opened Rooms
  import opened Rotation
  import opened WorldSafety
  import opened WorldSteps
  import opened SafeRuns
  import opened StepEffects
  import AnswerText
  import DuelScoring

  // ----- the columns

  /** A connected player is not away; a deadline counts from the disconnection, and only duels have any. */
  predicate PresenceOk(c: Config, mode: Mode, p: Participant) {
    && (p.reconnectDeadline.Some? ==> mode == Duel)
    && (p.connected ==> p.disconnectedAt.None? && p.reconnectDeadline.None?)
    && (p.reconnectDeadline.Some? ==>
          p.disconnectedAt.Some? && p.reconnectDeadline.value == p.disconnectedAt.value + c.reconnectGrace)
  }

  predicate AllPresenceOk(c: Config, mode: Mode, participants: Participants) {
    forall u :: u in participants ==> PresenceOk(c, mode, participants[u])
  }

  predicate NothingWritten(answers: Answers) {
    forall u :: u in answers ==> answers[u].text == ""
  }

  /** What an ending means to one player. */
  function OutcomeOf(reason: EndReason, winner: Option<UserId>, answers: Answers, u: UserId): Outcome {
    if reason == Cancelled then OutCancelled
    else if reason == NoContest || reason == JudgeFailed then OutNoContest
    else if winner == Some(u) then Win
    else if winner.Some? then Loss
    else if reason == AnswerTimeout && NothingWritten(answers) then OutNoContest
    else Draw
  }

  predicate OutcomesOk(reason: Option<EndReason>, winner: Option<UserId>, answers: Answers, participants: Participants)
  {
    forall u :: u in participants ==>
      participants[u].outcome
      == if reason.None? then None else Some(OutcomeOf(reason.value, winner, answers, u))
  }

  /** Votes are open from the end of a duel for the rematch window. */
  predicate WindowOk(c: Config, state: State, finishedAt: Option<Time>, deadline: Option<Time>) {
    if state == RematchPending then finishedAt.Some? && deadline == Some(finishedAt.value + c.rematchWindow)
    else deadline.None?
  }

  predicate ScheduleOk(c: Config, challenge: Challenge, startsAt: Option<Time>, answerDeadline: Option<Time>) {
    answerDeadline
    == if challenge == AiMl && startsAt.Some? then Some(startsAt.value + c.answerDuration) else None
  }

  /** Players answer before the deadline; the deadline itself answers with nothing. */
  predicate AnswerTimesOk(deadline: Option<Time>, answers: Answers) {
    forall u :: u in answers ==>
      && deadline.Some?
      && (answers[u].source == Player ==> answers[u].submittedAt < deadline.value)
      && (answers[u].source == Deadline ==> answers[u].submittedAt == deadline.value && answers[u].text == "")
  }

  predicate LanguagesOk(challenge: Challenge, startsAt: Option<Time>, participants: Participants) {
    forall u :: u in participants ==>
      && (challenge == AiMl ==> participants[u].language.None?)
      && (challenge == Coding && startsAt.Some? ==> participants[u].language.Some?)
  }

  predicate SlotsOk(participants: Participants) {
    && (forall u :: u in participants ==> participants[u].slot == 1 || participants[u].slot == 2)
    && (forall u, v :: u in participants && v in participants && u != v ==>
        participants[u].slot != participants[v].slot)
    && (|participants| == 1 ==> forall u :: u in participants ==> participants[u].slot == 1)
  }

  predicate ColumnsOk(c: Config, m: Match) {
    && AllPresenceOk(c, m.mode, m.participants)
    && OutcomesOk(m.endReason, m.winner, m.answers, m.participants)
    && WindowOk(c, m.state, m.finishedAt, m.rematchDeadline)
    && ScheduleOk(c, m.challenge, m.startsAt, m.answerDeadline)
    && AnswerTimesOk(m.answerDeadline, m.answers)
    && LanguagesOk(m.challenge, m.startsAt, m.participants)
    && SlotsOk(m.participants)
  }

  // ----- one match, one rule

  /** One player's row, rewritten within its place. */
  lemma RowColumns(c: Config, m: Match, u: UserId, p: Participant)
    requires ColumnsOk(c, m) && u in m.participants && PresenceOk(c, m.mode, p)
    requires p.outcome == m.participants[u].outcome && p.slot == m.participants[u].slot
    requires p.language == m.participants[u].language || (m.challenge == Coding && p.language.Some?)
    ensures ColumnsOk(c, m.(participants := m.participants[u := p]))
  {
    SeatUpdate(m.participants, u, p);
  }

  /** The columns an ending writes. */
  predicate EndsAs(c: Config, m: Match, n: Match, reason: EndReason, winner: Option<UserId>, now: Time) {
    && n.winner == winner && n.endReason == Some(reason) && n.finishedAt == Some(now)
    && n.mode == m.mode && n.challenge == m.challenge && n.startsAt == m.startsAt
       && n.answerDeadline == m.answerDeadline
    && n.answers == m.answers
    && (if m.mode == Duel then n.state == RematchPending && n.rematchDeadline == Some(now + c.rematchWindow)
        else n.state == Finished && n.rematchDeadline == m.rematchDeadline)
    && n.participants.Keys == m.participants.Keys && |n.participants| == |m.participants|
    && forall u :: u in m.participants ==>
         n.participants[u] == m.participants[u].(outcome := Some(OutcomeOf(reason, winner, m.answers, u)),
                                                 activeExecution := None)
  }

  lemma EndedColumns(c: Config, m: Match, n: Match, reason: EndReason, winner: Option<UserId>, now: Time)
    requires ColumnsOk(c, m) && !Terminal(m.state) && EndsAs(c, m, n, reason, winner, now)
    ensures ColumnsOk(c, n)
  {
  }

  lemma OutcomesAre(participants: Participants, reason: EndReason, winner: Option<UserId>, answers: Answers, u: UserId)
    requires u in participants && reason in {Accepted, Forfeit, NoContest, Cancelled}
    requires winner.Some? <==> reason == Accepted || reason == Forfeit
    ensures WithOutcomes(participants, reason, winner)[u]
            == participants[u].(outcome := Some(OutcomeOf(reason, winner, answers, u)), activeExecution := None)
  {
  }

  lemma FinalizeEndsAs(c: Config, m: Match, reason: EndReason, winner: Option<UserId>, now: Time)
    requires m.state == Active && reason in {Accepted, Forfeit, NoContest, Cancelled}
    requires winner.Some? <==> reason == Accepted || reason == Forfeit
    requires Finalize(c, m, reason, winner, now).Ok?
    ensures EndsAs(c, m, Finalize(c, m, reason, winner, now).value, reason, winner, now)
  {
    OutcomesKeepSeats(m.participants, reason, winner);
    forall u | u in m.participants
      ensures WithOutcomes(m.participants, reason, winner)[u]
              == m.participants[u].(outcome := Some(OutcomeOf(reason, winner, m.answers, u)), activeExecution := None)
    {
      OutcomesAre(m.participants, reason, winner, m.answers, u);
    }
    hide WithOutcomes, OutcomeOf, EventTime;
  }

  lemma FinalizeColumns(c: Config, m: Match, reason: EndReason, winner: Option<UserId>, now: Time)
    requires ColumnsOk(c, m) && m.state == Active && reason in {Accepted, Forfeit, NoContest, Cancelled}
    requires winner.Some? <==> reason == Accepted || reason == Forfeit
    requires Finalize(c, m, reason, winner, now).Ok?
    ensures ColumnsOk(c, Finalize(c, m, reason, winner, now).value)
  {
    hide ColumnsOk, EndsAs, Finalize;
    FinalizeEndsAs(c, m, reason, winner, now);
    EndedColumns(c, m, Finalize(c, m, reason, winner, now).value, reason, winner, now);
  }

  lemma SweepColumns(c: Config, m: Match, now: Time)
    requires ColumnsOk(c, m) && EvaluateDisconnects(c, m, now).Ok?
    ensures ColumnsOk(c, EvaluateDisconnects(c, m, now).value)
  {
    hide ColumnsOk, Finalize, AnyAccepted, SubmitPending;
    if EvaluateDisconnects(c, m, now) != Ok(m) {
      if |Away(m)| == 2 {
        FinalizeColumns(c, m, NoContest, None, now);
      } else {
        var winner :| EvaluateDisconnects(c, m, now) == Finalize(c, m, Forfeit, Some(winner), now);
        FinalizeColumns(c, m, Forfeit, Some(winner), now);
      }
    }
  }

  lemma DecisionColumns(c: Config, m: Match, now: Time)
    requires ColumnsOk(c, m) && MaybeFinalizeAccepted(c, m, now).Ok?
    ensures ColumnsOk(c, MaybeFinalizeAccepted(c, m, now).value)
  {
    hide ColumnsOk, Finalize;
    if MaybeFinalizeAccepted(c, m, now) != Ok(m) {
      var id :| Decides(m.executions, id) && MaybeFinalizeAccepted(c, m, now) ==
        Finalize(c, m, Accepted, Some(m.executions[id].user), now);
      FinalizeColumns(c, m, Accepted, Some(m.executions[id].user), now);
    }
  }

  lemma SettleColumns(c: Config, m: Match, now: Time)
    requires ColumnsOk(c, m) && Settle(c, m, now).Ok?
    ensures ColumnsOk(c, Settle(c, m, now).value)
  {
    hide ColumnsOk, MaybeFinalizeAccepted, EvaluateDisconnects;
    DecisionColumns(c, m, now);
    var decided := MaybeFinalizeAccepted(c, m, now).value;
    if decided.state == Active {
      SweepColumns(c, decided, now);
    }
  }

  lemma ExecutionsColumns(c: Config, m: Match, executions: Executions)
    requires ColumnsOk(c, m)
    ensures ColumnsOk(c, m.(executions := executions))
  {
  }

  lemma AppendColumns(c: Config, m: Match, kind: EventKind, now: Time)
    requires ColumnsOk(c, m)
    ensures ColumnsOk(c, AppendEvent(m, kind, now))
  {
    hide EventTime;
  }

  lemma PlayerColumns(c: Config, m: Match, u: UserId)
    requires ColumnsOk(c, m) && u in m.participants
    ensures PresenceOk(c, m.mode, m.participants[u])
  {
  }

  lemma StoreColumns(c: Config, m: Match, id: ExecutionId, r: RunnerResult, now: Time)
    requires ColumnsOk(c, m) && id in m.executions
    ensures ColumnsOk(c, Store(c, m, id, r, now))
  {
    hide ColumnsOk, AppendEvent;
    var e := m.executions[id];
    var stored := m.(executions := m.executions[id := e.(status := Completed(r))]);
    ExecutionsColumns(c, m, stored.executions);
    if Eligible(m, id) {
      var p := m.participants[e.user];
      var released := p.(activeExecution := None,
                         cooldownUntil := if Penalized(e, r) then Some(now + c.cooldown) else p.cooldownUntil);
      PlayerColumns(c, m, e.user);
      RowColumns(c, stored, e.user, released);
      AppendColumns(c, stored.(participants := m.participants[e.user := released]), ExecutionCompleted, now);
    }
  }

  lemma CompleteColumns(c: Config, m: Match, id: ExecutionId, r: RunnerResult, now: Time)
    requires ColumnsOk(c, m) && CompleteExecution(c, m, id, r, now).Ok?
    ensures ColumnsOk(c, CompleteExecution(c, m, id, r, now).value)
  {
    hide ColumnsOk, Store, Settle, AcceptableResult, Eligible;
    if !m.executions[id].status.Completed? {
      StoreColumns(c, m, id, r, now);
      if CompleteExecution(c, m, id, r, now) != Ok(Store(c, m, id, r, now)) {
        SettleColumns(c, Store(c, m, id, r, now), now);
      }
    }
  }

  lemma MarkColumns(c: Config, m: Match, id: ExecutionId, now: Time)
    requires ColumnsOk(c, m)
    ensures ColumnsOk(c, MarkRunning(m, id, now))
  {
    hide ColumnsOk, AppendEvent;
    if id in m.executions {
      var running := m.(executions := m.executions[id := m.executions[id].(status := Running)]);
      ExecutionsColumns(c, m, running.executions);
      AppendColumns(c, running, ExecutionProgress, now);
    }
  }

  lemma ArmedRow(c: Config, p: Participant, startsAt: Time)
    requires PresenceOk(c, Duel, p)
    ensures
      var q := Armed(c, p, startsAt);
      PresenceOk(c, Duel, q) && q.outcome == p.outcome && q.slot == p.slot && q.language == p.language
  {
  }

  /** Rows whose outcome, seat and language stay as they are. */
  lemma RowsColumns(c: Config, m: Match, participants: Participants)
    requires ColumnsOk(c, m) && participants.Keys == m.participants.Keys && |participants| == |m.participants|
    requires forall u :: u in m.participants ==>
               && PresenceOk(c, m.mode, participants[u])
               && participants[u].outcome == m.participants[u].outcome && participants[u].slot == m.participants[u].slot
               && participants[u].language == m.participants[u].language
    ensures ColumnsOk(c, m.(participants := participants))
  {
    hide PresenceOk, OutcomeOf;
  }

  lemma ArmedColumns(c: Config, m: Match, startsAt: Time)
    requires ColumnsOk(c, m) && m.mode == Duel
    ensures ColumnsOk(c, m.(participants := map u | u in m.participants :: Armed(c, m.participants[u], startsAt)))
  {
    hide ColumnsOk, Armed, PresenceOk;
    var armed := map u | u in m.participants :: Armed(c, m.participants[u], startsAt);
    assert armed.Keys == m.participants.Keys;
    assert |armed.Keys| == |m.participants.Keys|;
    forall u | u in m.participants
      ensures PresenceOk(c, Duel, armed[u]) && armed[u].outcome == m.participants[u].outcome
      ensures armed[u].slot == m.participants[u].slot && armed[u].language == m.participants[u].language
    {
      PlayerColumns(c, m, u);
      ArmedRow(c, m.participants[u], startsAt);
    }
    RowsColumns(c, m, armed);
  }

  lemma ActivateColumns(c: Config, m: Match, now: Time)
    requires ColumnsOk(c, m) && m.state == Countdown
    ensures ColumnsOk(c, Activate(m, now))
  {
    var active := m.(state := Active);
    assert ColumnsOk(c, active);
    hide ColumnsOk;
    AppendColumns(c, active, MatchActive, now);
  }

  lemma AdvanceColumns(c: Config, m: Match, now: Time)
    requires ColumnsOk(c, m)
    ensures ColumnsOk(c, AdvanceCountdown(c, m, now)) && ColumnsOk(c, AdvanceInline(m, now))
  {
    hide ColumnsOk, Activate, Armed;
    if m.state == Countdown && StartsBy(m, now) {
      ActivateColumns(c, m, now);
      if m.mode == Duel {
        ArmedColumns(c, m, m.startsAt.value);
        ActivateColumns(c, m.(participants := map u | u in m.participants ::
                                Armed(c, m.participants[u], m.startsAt.value)), now);
      }
    }
  }

  lemma ConnectColumns(c: Config, m: Match, user: UserId, now: Time)
    requires ColumnsOk(c, m) && Connect(c, m, user, now).Ok?
    ensures ColumnsOk(c, Connect(c, m, user, now).value)
  {
    hide ColumnsOk, EvaluateDisconnects, AppendEvent;
    SweepColumns(c, m, now);
    var settled := EvaluateDisconnects(c, m, now).value;
    var p := settled.participants[user].(connected := true, disconnectedAt := None, reconnectDeadline := None);
    RowColumns(c, settled, user, p);
    AppendColumns(c, settled.(participants := settled.participants[user := p]), ConnectionChanged, now);
  }

  lemma ReconcileColumns(c: Config, m: Match, user: UserId, active: bool, lastSeen: Option<Time>, now: Time)
    requires ColumnsOk(c, m) && Reconcile(c, m, user, active, lastSeen, now).Ok?
    ensures ColumnsOk(c, Reconcile(c, m, user, active, lastSeen, now).value)
  {
    hide ColumnsOk, AppendEvent;
    if !active && m.participants[user].connected && lastSeen.Some? {
      var gone := m.participants[user].(connected := false, disconnectedAt := lastSeen,
                                        reconnectDeadline := if m.state == Active && m.mode == Duel
                                        then Some(lastSeen.value + c.reconnectGrace) else None);
      RowColumns(c, m, user, gone);
      AppendColumns(c, m.(participants := m.participants[user := gone]), ConnectionChanged, now);
    }
  }

  // ----- one match, one command

  lemma StartColumns(c: Config, m: Match, user: UserId, id: ExecutionId, kind: Kind, receivedAt: Time, sequence: int,
                     now: Time)
    requires ColumnsOk(c, m) && StartExecution(c, m, user, id, kind, receivedAt, sequence, now).Ok?
    ensures ColumnsOk(c, StartExecution(c, m, user, id, kind, receivedAt, sequence, now).value)
  {
    hide ColumnsOk, StartRefusal, Insertable, AppendEvent;
    AdvanceColumns(c, m, now);
    var active := AdvanceInline(m, now);
    SameSeatsInline(m, now);
    var p := active.participants[user];
    var started := p.(activeExecution := Some(id),
                      lastSampleRunAt := if kind == Run then Some(now) else p.lastSampleRunAt);
    PlayerColumns(c, active, user);
    RowColumns(c, active, user, started);
    var n := active.(participants := active.participants[user := started]);
    ExecutionsColumns(c, n, active.executions[id := Execution(user, kind, receivedAt, sequence, Queued)]);
    AppendColumns(c, n.(executions := active.executions[id := Execution(user, kind, receivedAt, sequence, Queued)]),
                  ExecutionStarted, now);
  }

  lemma SameSeatsInline(m: Match, now: Time)
    ensures AdvanceInline(m, now).participants == m.participants
  {
  }

  lemma ForfeitColumns(c: Config, m: Match, user: UserId, now: Time)
    requires ColumnsOk(c, m) && ForfeitMatch(c, m, user, now).Ok?
    ensures ColumnsOk(c, ForfeitMatch(c, m, user, now).value)
  {
    hide ColumnsOk, Finalize, SubmitPending;
    var opponent := Opponent(m.participants.Keys, user);
    FinalizeColumns(c, m, if opponent.Some? then Forfeit else Cancelled, opponent, now);
  }

  lemma CancelledColumns(c: Config, m: Match, participants: Participants, now: Time)
    requires ColumnsOk(c, m) && m.state == Lobby && participants.Keys == m.participants.Keys
    requires |participants| == |m.participants|
    requires forall u :: u in participants ==> participants[u] == m.participants[u].(outcome := Some(OutCancelled))
    ensures ColumnsOk(c, m.(state := Finished, finishedAt := Some(now), endReason := Some(Cancelled),
                            participants := participants))
  {
  }

  lemma CancelColumns(c: Config, m: Match, now: Time)
    requires ColumnsOk(c, m) && CancelMatch(m, now).Ok?
    ensures ColumnsOk(c, CancelMatch(m, now).value)
  {
    hide ColumnsOk, AppendEvent;
    var participants := map u | u in m.participants :: m.participants[u].(outcome := Some(OutCancelled));
    var n := m.(state := Finished, finishedAt := Some(now), endReason := Some(Cancelled), participants := participants);
    assert participants.Keys == m.participants.Keys;
    assert |participants.Keys| == |m.participants.Keys|;
    CancelledColumns(c, m, participants, now);
    AppendColumns(c, n, MatchFinished, now);
  }

  lemma SetLanguageColumns(c: Config, m: Match, user: UserId, language: Language, now: Time)
    requires ColumnsOk(c, m) && SetLanguage(m, user, language, now).Ok?
    ensures ColumnsOk(c, SetLanguage(m, user, language, now).value)
  {
    hide AppendEvent;
    var p := m.participants[user].(language := Some(language), ready := false);
    RowColumns(c, m, user, p);
    hide ColumnsOk;
    AppendColumns(c, m.(participants := m.participants[user := p]), LanguageChanged, now);
  }

  lemma CountdownColumns(c: Config, m: Match, problem: Problem, now: Time)
    requires ColumnsOk(c, m) && m.state == Lobby && EveryoneReady(m) && m.answers == map[]
    ensures ColumnsOk(c, BeginCountdown(c, m, problem, now))
  {
    var n := m.(state := Countdown, problem := Some(problem), startsAt := Some(now + c.countdown),
                answerDeadline := if m.challenge == AiMl then Some(now + c.countdown + c.answerDuration) else None);
    assert ColumnsOk(c, n);
    hide ColumnsOk;
    AppendColumns(c, n, CountdownStarted, now);
  }

  lemma SetReadyColumns(c: Config, m: Match, user: UserId, ready: bool, live: set<UserId>, all: seq<Problem>,
                        previous: seq<nat>, pick: nat, now: Time)
    requires ColumnsOk(c, m) && m.answers == map[]
    requires SetReady(c, m, user, ready, live, all, previous, pick, now).Ok?
    ensures ColumnsOk(c, SetReady(c, m, user, ready, live, all, previous, pick, now).value)
  {
    PlayerColumns(c, m, user);
    hide ColumnsOk, BeginCountdown, EveryoneReady, ChooseProblem, EventTime, Live;
    var p := m.participants[user].(ready := ready);
    RowColumns(c, m, user, p);
    AppendColumns(c, m.(participants := m.participants[user := p]), ReadyChanged, now);
    var changed := AppendEvent(m.(participants := m.participants[user := p]), ReadyChanged, now);
    if EveryoneReady(changed) {
      CountdownColumns(c, changed, ChooseProblem(all, previous, pick).value, now);
    }
  }

  // ----- one match, the arena

  lemma AnswersColumns(c: Config, m: Match, answers: Answers)
    requires ColumnsOk(c, m) && m.endReason.None? && AnswerTimesOk(m.answerDeadline, answers)
    ensures ColumnsOk(c, m.(answers := answers))
  {
  }

  lemma EvaluationColumns(c: Config, m: Match, e: Evaluation)
    requires ColumnsOk(c, m)
    ensures ColumnsOk(c, m.(evaluation := Some(e)))
    ensures m.state == Active ==> ColumnsOk(c, m.(evaluation := Some(e), state := State.Judging))
  {
  }

  /** A result written into a judged match, announced, and its rematch window opened. */
  lemma ConcludedEndsAs(c: Config, m: Match, e: Evaluation, winner: Option<UserId>, reason: EndReason,
                        participants: Participants, kind: EventKind, now: Time)
    requires participants.Keys == m.participants.Keys && |participants| == |m.participants|
    requires forall u :: u in m.participants ==>
               participants[u] == m.participants[u].(outcome := Some(OutcomeOf(reason, winner, m.answers, u)),
                                                     activeExecution := None)
    ensures EndsAs(c, m, Conclude(c, AppendEvent(Resulted(m, e, winner, reason, participants, now), kind, now), now),
                   reason, winner, now)
  {
    hide OutcomeOf, EventTime;
  }

  lemma ConcludedColumns(c: Config, m: Match, e: Evaluation, winner: Option<UserId>, reason: EndReason,
                         participants: Participants, kind: EventKind, now: Time)
    requires ColumnsOk(c, m) && m.state == State.Judging
    requires participants.Keys == m.participants.Keys && |participants| == |m.participants|
    requires forall u :: u in m.participants ==>
               participants[u] == m.participants[u].(outcome := Some(OutcomeOf(reason, winner, m.answers, u)),
                                                     activeExecution := None)
    ensures ColumnsOk(c, Conclude(c, AppendEvent(Resulted(m, e, winner, reason, participants, now), kind, now), now))
  {
    hide ColumnsOk, EndsAs, Conclude, Resulted, OutcomeOf, AppendEvent;
    ConcludedEndsAs(c, m, e, winner, reason, participants, kind, now);
    EndedColumns(c, m, Conclude(c, AppendEvent(Resulted(m, e, winner, reason, participants, now), kind, now), now),
                 reason, winner, now);
  }

  lemma NobodyWins(participants: Participants, reason: EndReason, answers: Answers)
    requires reason in {NoContest, JudgeFailed} || (reason == AnswerTimeout && NothingWritten(answers))
    ensures
      var after := NoContestFor(participants);
      && after.Keys == participants.Keys && |after| == |participants|
      && forall u :: u in participants ==>
           after[u] == participants[u].(outcome := Some(OutcomeOf(reason, None, answers, u)), activeExecution := None)
  {
    NoContestSeats(participants);
  }

  lemma SkippedColumns(c: Config, m: Match, e: Evaluation, now: Time)
    requires ColumnsOk(c, m) && m.state == State.Judging && AllBlank(m)
    ensures ColumnsOk(c, FinalizeSkipped(c, m, e, if TimedOut(m) then AnswerTimeout else NoContest, now))
  {
    hide ColumnsOk, Conclude, Resulted, OutcomeOf, AppendEvent, NoContestFor;
    var reason := if TimedOut(m) then AnswerTimeout else NoContest;
    assert NothingWritten(m.answers);
    NobodyWins(m.participants, reason, m.answers);
    var skipped := e.(status := Skipped, verdict := Some(SkippedVerdict(m.mode)));
    ConcludedColumns(c, m, skipped, None, reason, NoContestFor(m.participants), AutomaticResolution, now);
  }

  lemma PreparedColumns(c: Config, m: Match, e: Evaluation, now: Time)
    requires ColumnsOk(c, m) && m.state == Active
    ensures ColumnsOk(c, Prepared(c, m, e, now))
  {
    hide ColumnsOk, FinalizeSkipped, EventTime;
    EvaluationColumns(c, m, e);
    AppendColumns(c, m.(evaluation := Some(e), state := State.Judging), JudgingStarted, now);
    if AllBlank(m) {
      SkippedColumns(c, AppendEvent(m.(evaluation := Some(e), state := State.Judging), JudgingStarted, now), e, now);
    }
  }

  lemma PrepareColumns(c: Config, m: Match, material: Option<Material>, userA: UserId, now: Time)
    requires ColumnsOk(c, m) && PrepareEvaluation(c, m, material, userA, now).Ok?
    ensures ColumnsOk(c, PrepareEvaluation(c, m, material, userA, now).value)
  {
    hide ColumnsOk, Prepared, NewEvaluation, MaterialOk;
    var n := PrepareEvaluation(c, m, material, userA, now).value;
    if n != m {
      var e :| n == Prepared(c, m, e, now);
      PreparedColumns(c, m, e, now);
    }
  }

  lemma AnsweredTimes(deadline: Option<Time>, answers: Answers, user: UserId, text: string, now: Time)
    requires AnswerTimesOk(deadline, answers) && deadline.Some? && now < deadline.value
    ensures AnswerTimesOk(deadline, answers[user := Answer(text, Player, now)])
  {
  }

  lemma DeadlineOf(c: Config, m: Match)
    requires ColumnsOk(c, m)
    ensures AnswerTimesOk(m.answerDeadline, m.answers)
  {
  }

  lemma SubmitAnswerColumns(c: Config, m: Match, user: UserId, text: string, material: Option<Material>,
                            userA: UserId, now: Time)
    requires ColumnsOk(c, m) && m.endReason.None?
    requires SubmitAnswer(c, m, user, text, material, userA, now).Ok?
    ensures ColumnsOk(c, SubmitAnswer(c, m, user, text, material, userA, now).value)
  {
    hide ColumnsOk, PrepareEvaluation, EventTime;
    DeadlineOf(c, m);
    AnsweredTimes(m.answerDeadline, m.answers, user, text, now);
    var answers := m.answers[user := Answer(text, Player, now)];
    AnswersColumns(c, m, answers);
    AppendColumns(c, m.(answers := answers), AnswerSubmitted, now);
    PrepareColumns(c, AppendEvent(m.(answers := answers), AnswerSubmitted, now), material, userA, now);
  }

  lemma {:induction false} AppendManyColumns(c: Config, m: Match, kind: EventKind, count: nat, now: Time)
    requires ColumnsOk(c, m)
    ensures ColumnsOk(c, AppendEvents(m, kind, count, now))
  {
    hide ColumnsOk, AppendEvent;
    if count > 0 {
      AppendManyColumns(c, m, kind, count - 1, now);
      AppendColumns(c, AppendEvents(m, kind, count - 1, now), kind, now);
    }
  }

  lemma FilledTimes(deadline: Time, answers: Answers, missing: set<UserId>)
    requires AnswerTimesOk(Some(deadline), answers)
    ensures AnswerTimesOk(Some(deadline), answers + map u | u in missing :: Answer("", Deadline, deadline))
  {
  }

  lemma DeadlineColumns(c: Config, m: Match, material: Option<Material>, userA: UserId, now: Time)
    requires ColumnsOk(c, m) && m.endReason.None?
    requires ProcessAnswerDeadline(c, m, material, userA, now).Ok?
    ensures ColumnsOk(c, ProcessAnswerDeadline(c, m, material, userA, now).value)
  {
    hide ColumnsOk, PrepareEvaluation, AppendEvents;
    if m.state == Active && m.answerDeadline.Some? && m.answerDeadline.value <= now {
      var deadline := m.answerDeadline.value;
      var answers := m.answers + map u | u in Missing(m) :: Answer("", Deadline, deadline);
      DeadlineOf(c, m);
      FilledTimes(deadline, m.answers, Missing(m));
      AnswersColumns(c, m, answers);
      AppendManyColumns(c, m.(answers := answers), AnswerTimedOut, |Missing(m)|, now);
      PrepareColumns(c, FillMissing(m, deadline, now), material, userA, now);
    }
  }

  lemma ClaimColumns(c: Config, m: Match, now: Time)
    requires ColumnsOk(c, m) && ClaimEvaluation(c, m, now).Some?
    ensures ColumnsOk(c, ClaimEvaluation(c, m, now).value)
  {
    hide ColumnsOk;
    var e := m.evaluation.value;
    EvaluationColumns(c, m, e.(claims := e.claims + 1, status := InProgress(e.claims + 1, now)));
  }

  lemma FailureColumns(c: Config, m: Match, claim: nat, retryable: bool, budgetOpen: bool, now: Time)
    requires ColumnsOk(c, m)
    ensures ColumnsOk(c, PersistFailure(c, m, claim, retryable, budgetOpen, now))
  {
    hide ColumnsOk, Conclude, Resulted, OutcomeOf, AppendEvent, NoContestFor;
    if HoldsClaim(m, claim) {
      var delay := if budgetOpen then c.budgetRecovery else c.judgeRecovery;
      var e := m.evaluation.value.(status := Failed(retryable, if retryable then Some(now + delay) else None));
      EvaluationColumns(c, m, e);
      AppendColumns(c, m.(evaluation := Some(e)), JudgeFailure, now);
      NobodyWins(m.participants, JudgeFailed, m.answers);
      ConcludedColumns(c, m, e, None, JudgeFailed, NoContestFor(m.participants), JudgeFailure, now);
    }
  }

  /** A judged round has something to judge. */
  lemma JudgedIsWritten(m: Match, r: DuelScoring.JudgeResult, winner: Option<UserId>)
    requires m.evaluation.Some? && CompletionCheck(m.evaluation.value, r, winner)
    requires SnapshotOk(m.mode, m.participants.Keys, m.answers, m.evaluation.value)
    ensures !NothingWritten(m.answers) && (m.mode == Duel <==> winner.Some?)
  {
    var e := m.evaluation.value;
    assert m.mode == Practice ==> m.answers[e.userA].text != "";
    assert m.mode == Duel ==> m.answers[e.userA].text != "" || m.answers[e.userB.value].text != "";
  }

  lemma JudgedOutcomesAre(participants: Participants, mode: Mode, reason: EndReason, winner: Option<UserId>,
                          answers: Answers)
    requires mode == Duel <==> winner.Some?
    requires reason in {AnswerTimeout, EndReason.Judged} && !NothingWritten(answers)
    ensures
      var after := JudgedOutcomes(participants, mode, winner);
      && after.Keys == participants.Keys && |after| == |participants|
      && forall u :: u in participants ==>
           after[u] == participants[u].(outcome := Some(OutcomeOf(reason, winner, answers, u)), activeExecution := None)
  {
    JudgedSeatsFor(participants, mode, winner);
  }

  lemma SuccessColumns(c: Config, m: Match, claim: nat, result: DuelScoring.JudgeResult, now: Time)
    requires MatchInv(m) && ColumnsOk(c, m) && PersistSuccess(c, m, claim, result, now).Ok?
    ensures ColumnsOk(c, PersistSuccess(c, m, claim, result, now).value)
  {
    hide MatchInv, ColumnsOk, Conclude, Resulted, OutcomeOf, AppendEvent, JudgedOutcomes, CompletionCheck,
      DuelScoring.AdjustForStorage, TimedOut, NothingWritten, SnapshotOk;
    if HoldsClaim(m, claim) {
      var e := m.evaluation.value;
      var r := DuelScoring.AdjustForStorage(e.snapshot, result);
      var winner := WinnerUser(e, r.winner);
      var reason := if TimedOut(m) then AnswerTimeout else EndReason.Judged;
      JudgedSnapshot(m);
      JudgedIsWritten(m, r, winner);
      JudgedOutcomesAre(m.participants, m.mode, reason, winner, m.answers);
      ConcludedColumns(c, m, e.(status := Concluded, verdict := Some(r), winner := winner), winner, reason,
                       JudgedOutcomes(m.participants, m.mode, winner), JudgmentCompleted, now);
    }
  }

  lemma WindowShut(c: Config, m: Match)
    requires ColumnsOk(c, m) && m.state != RematchPending
    ensures m.rematchDeadline.None?
  {
  }

  lemma ActiveIsOpen(m: Match)
    requires BaseInv(m) && !Terminal(m.state)
    ensures m.endReason.None? && m.winner.None?
  {
  }

  // ----- any step on a match

  lemma PresenceRuleColumns(s: Setting, m: Match, step: Step)
    requires ColumnsOk(s.config, m) && (step.Attach? || step.Detach? || step.SweepDisconnects?)
    requires BackgroundRule(s, m, step).Some? && BackgroundRule(s, m, step).value.Ok?
    ensures ColumnsOk(s.config, BackgroundRule(s, m, step).value.value)
  {
    hide ColumnsOk, Connect, Reconcile, EvaluateDisconnects;
    match step
    case Attach(user, _, now) => ConnectColumns(s.config, m, user, now);
    case Detach(user, _, active, lastSeen, now) => ReconcileColumns(s.config, m, user, active, lastSeen, now);
    case SweepDisconnects(_, now) => SweepColumns(s.config, m, now);
  }

  lemma EngineRuleColumns(s: Setting, m: Match, step: Step)
    requires ColumnsOk(s.config, m) && (step.Mark? || step.Complete? || step.Advance?)
    requires BackgroundRule(s, m, step).Some? && BackgroundRule(s, m, step).value.Ok?
    ensures ColumnsOk(s.config, BackgroundRule(s, m, step).value.value)
  {
    hide ColumnsOk, MarkRunning, CompleteExecution, AdvanceCountdown;
    match step
    case Mark(_, execution, now) => MarkColumns(s.config, m, execution, now);
    case Complete(_, execution, result, now) => CompleteColumns(s.config, m, execution, result, now);
    case Advance(_, now) => AdvanceColumns(s.config, m, now);
  }

  lemma ArenaRuleColumns(s: Setting, m: Match, step: Step)
    requires MatchInv(m) && ColumnsOk(s.config, m)
    requires step.SweepDeadline? || step.Claim? || step.Fail? || step.Succeed?
    requires BackgroundRule(s, m, step).Some? && BackgroundRule(s, m, step).value.Ok?
    ensures ColumnsOk(s.config, BackgroundRule(s, m, step).value.value)
  {
    hide MatchInv, ColumnsOk, ProcessAnswerDeadline, ClaimEvaluation, PersistFailure, PersistSuccess;
    match step
    case SweepDeadline(_, material, userA, now) =>
      if m.state == Active {
        OpenIsUnended(m);
        DeadlineColumns(s.config, m, material, userA, now);
      } else {
        IdleDeadline(s.config, m, material, userA, now);
      }
    case Claim(_, now) =>
      if ClaimEvaluation(s.config, m, now).Some? {
        ClaimColumns(s.config, m, now);
      }
    case Fail(_, claim, retryable, budgetOpen, now) =>
      FailureColumns(s.config, m, claim, retryable, budgetOpen, now);
    case Succeed(_, claim, result, now) => SuccessColumns(s.config, m, claim, result, now);
  }

  lemma IdleDeadline(c: Config, m: Match, material: Option<Material>, userA: UserId, now: Time)
    requires m.state != Active
    ensures ProcessAnswerDeadline(c, m, material, userA, now) == Ok(m)
  {
  }

  lemma OpenIsUnended(m: Match)
    requires MatchInv(m) && !Terminal(m.state)
    ensures m.endReason.None? && m.winner.None?
  {
    hide EventsOk, ExecutionsOk, InflightOk, WinnerOk, RecordsOk, EvaluationOk, VotesOk, DecidedOk, AnswersOk;
  }

  lemma BackgroundColumns(s: Setting, m: Match, step: Step, n: Match)
    requires MatchInv(m) && ColumnsOk(s.config, m) && Produces(BackgroundRule(s, m, step), n)
    ensures ColumnsOk(s.config, n)
  {
    hide MatchInv, ColumnsOk, MarkRunning, CompleteExecution, AdvanceCountdown, Connect, Reconcile,
      EvaluateDisconnects, ProcessAnswerDeadline, ClaimEvaluation, PersistFailure, PersistSuccess;
    if step.Mark? || step.Complete? || step.Advance? {
      EngineRuleColumns(s, m, step);
    } else if step.Attach? || step.Detach? || step.SweepDisconnects? {
      PresenceRuleColumns(s, m, step);
    } else {
      ArenaRuleColumns(s, m, step);
    }
  }

  lemma LobbyHasNoAnswers(m: Match)
    requires MatchInv(m) && m.state == Lobby
    ensures m.answers == map[]
  {
    hide EventsOk, ExecutionsOk, InflightOk, WinnerOk, RecordsOk, EvaluationOk, VotesOk, DecidedOk, AnswersOk;
  }

  lemma ReadyColumns(s: Setting, w: World, step: Step)
    requires step.Ready? && step.id in w.matches && MatchInv(w.matches[step.id])
    requires ColumnsOk(s.config, w.matches[step.id])
    requires ReadyRule(s, w, step.id, step.actor, step.ready, step.live, step.pick, step.now).Ok?
    ensures ColumnsOk(s.config,
                      ReadyRule(s, w, step.id, step.actor, step.ready, step.live, step.pick, step.now).value)
  {
    hide MatchInv, ColumnsOk, SetReady, Problems, ProblemsBelow;
    var m := w.matches[step.id];
    ReadyInLobby(s, w, step);
    LobbyHasNoAnswers(m);
    SetReadyColumns(s.config, m, step.actor, step.ready, step.live, Problems(s, m.challenge, m.difficulty),
                    ProblemsBelow(w.matches, m, m.round), step.pick, step.now);
  }

  lemma ReadyInLobby(s: Setting, w: World, step: Step)
    requires step.Ready? && step.id in w.matches
    requires ReadyRule(s, w, step.id, step.actor, step.ready, step.live, step.pick, step.now).Ok?
    ensures w.matches[step.id].state == Lobby
  {
    hide Problems, ProblemsBelow, ChooseProblem, EveryoneReady;
  }

  lemma CommandColumns(s: Setting, w: World, step: Step, n: Match)
    requires OnMatch(step) && step.id in w.matches && MatchInv(w.matches[step.id])
    requires ColumnsOk(s.config, w.matches[step.id]) && CommandProduces(s, w, step, n)
    ensures ColumnsOk(s.config, n)
  {
    hide MatchInv, ColumnsOk, SetLanguage, ReadyRule, CancelMatch, StartExecution, ForfeitMatch, SubmitAnswer,
      AnswerText.Measured;
    var m, c := w.matches[step.id], s.config;
    match step {
      case ChooseLanguage(actor, _, _, language, now) => SetLanguageColumns(c, m, actor, language, now);
      case Ready(actor, _, id, ready, live, pick, now) => ReadyColumns(s, w, step);
      case Cancel(_, _, _, now) => CancelColumns(c, m, now);
      case Start(actor, _, _, kind, _, receivedAt, sequence, now) =>
        StartColumns(c, m, actor, w.nextId, kind, receivedAt, sequence, now);
      case Leave(actor, _, _, now) => ForfeitColumns(c, m, actor, now);
      case Submission(actor, _, _, answer, material, userA, now) =>
        var text := AnswerText.Measured(answer, AnswerText.ANSWER_LIMITS).normalized;
        SubmissionInPlay(c, m, actor, text, material, userA, now);
        OpenIsUnended(m);
        SubmitAnswerColumns(c, m, actor, text, material, userA, now);
      case _ =>
    }
  }

  lemma SubmissionInPlay(c: Config, m: Match, user: UserId, text: string, material: Option<Material>, userA: UserId,
                         now: Time)
    requires SubmitAnswer(c, m, user, text, material, userA, now).Ok?
    ensures m.state == Active
  {
    hide PrepareEvaluation;
  }

  // ----- rooms and rematches

  predicate AllColumns(s: Setting, matches: Matches) {
    forall id :: id in matches ==> ColumnsOk(s.config, matches[id])
  }

  lemma OneRowColumns(s: Setting, matches: Matches, id: MatchId, n: Match)
    requires AllColumns(s, matches) && ColumnsOk(s.config, n)
    ensures AllColumns(s, matches[id := n])
  {
    hide ColumnsOk;
  }

  lemma FirstRoundColumns(c: Config, host: UserId, roomId: RoomId, difficulty: Difficulty, mode: Mode,
                          challenge: Challenge, now: Time)
    ensures ColumnsOk(c, FirstRound(host, roomId, difficulty, mode, challenge, now))
  {
    var m := NewMatch(roomId, 1, None, challenge, mode, difficulty, map[host := NewParticipant(1)]);
    assert ColumnsOk(c, m);
    AppendColumns(c, m, MatchCreated, now);
  }

  lemma CreateColumns(s: Setting, w: World, actor: UserId, key: string, difficulty: Difficulty, mode: Mode,
                      challenge: Challenge, now: Time)
    requires AllColumns(s, w.matches)
    ensures AllColumns(s, CreateRoomStep(w, actor, key, difficulty, mode, challenge, now).0.matches)
  {
    hide ColumnsOk, AllColumns, Command, FirstRound, HostedBy;
    CommandMatches(w, actor, key, CreateRoomCommand, None, RoomOptions(difficulty, mode, challenge),
                   Ok(OpenRoom(w, actor, difficulty, mode, challenge, now)));
    FirstRoundColumns(s.config, actor, w.nextId, difficulty, mode, challenge, now);
    OneRowColumns(s, w.matches, w.nextId + 1, FirstRound(actor, w.nextId, difficulty, mode, challenge, now));
  }

  lemma JoinedColumns(c: Config, m: Match, user: UserId, now: Time)
    requires ColumnsOk(c, m) && MatchInv(m) && m.state == Lobby && |m.participants| == 1 && user !in m.participants
    ensures ColumnsOk(c, JoinMatch(m, user, now))
  {
    OpenIsUnended(m);
    NotScheduled(m);
    hide MatchInv;
    var joined := m.participants[user := NewParticipant(2)];
    assert |joined| == 2;
    assert ColumnsOk(c, m.(participants := joined));
    hide ColumnsOk;
    AppendColumns(c, m.(participants := joined), PlayerJoined, now);
  }

  lemma NotScheduled(m: Match)
    requires MatchInv(m) && m.state == Lobby
    ensures m.startsAt.None?
  {
    hide EventsOk, ExecutionsOk, InflightOk, WinnerOk, RecordsOk, EvaluationOk, VotesOk, DecidedOk, AnswersOk;
  }

  lemma JoinColumns(s: Setting, w: World, actor: UserId, key: string, room: RoomId, now: Time)
    requires WorldInv(s, w) && AllColumns(s, w.matches)
    ensures AllColumns(s, JoinRoomStep(w, actor, key, room, now).0.matches)
  {
    hide WorldInv, MatchInv, AllColumns, ColumnsOk, Command, JoinMatch;
    if room in w.rooms && w.rooms[room].active in w.matches {
      var r := w.rooms[room];
      CommandMatches(w, actor, key, JoinRoomCommand, Some(r.active), RoomRef(room), Seat(w, actor, room, now));
      if && r.mode == Duel && !r.closed && actor !in r.members
         && forall u :: u in r.members ==> r.members[u] != 2
      {
        FreeSeat(s, w, room);
        RowOf(s, w.matches, r.active);
        JoinedColumns(s.config, w.matches[r.active], actor, now);
        OneRowColumns(s, w.matches, r.active, JoinMatch(w.matches[r.active], actor, now));
      }
    }
  }

  lemma RowOf(s: Setting, matches: Matches, id: MatchId)
    requires AllColumns(s, matches) && id in matches
    ensures ColumnsOk(s.config, matches[id])
  {
  }

  lemma VotedColumns(c: Config, m: Match, user: UserId, now: Time)
    requires ColumnsOk(c, m)
    ensures ColumnsOk(c, Vote(m, user, now))
  {
    hide EventTime;
  }

  lemma LinkedColumns(c: Config, m: Match, next: MatchId, now: Time)
    requires ColumnsOk(c, m)
    ensures ColumnsOk(c, LinkedTo(m, next, now))
  {
    hide EventTime;
  }

  lemma NextRoundColumns(c: Config, room: Room, id: MatchId, voted: Match, now: Time)
    requires SeatsOk(room) && |room.members| == 2
    ensures ColumnsOk(c, NextRound(room, id, voted, now))
  {
    var seated := Seated(room.members);
    assert seated.Keys == room.members.Keys;
    assert |seated.Keys| == |room.members.Keys|;
    OnlyTwo(room);
    var m := NewMatch(voted.roomId, voted.round + 1, Some(id), voted.challenge, voted.mode, voted.difficulty, seated);
    assert SlotsOk(seated);
    assert ColumnsOk(c, m);
    AppendColumns(c, m, MatchCreated, now);
  }

  /** The host sits in seat 1, the one other member in seat 2. */
  lemma OnlyTwo(room: Room)
    requires SeatsOk(room) && |room.members| == 2
    ensures forall u, v :: u in room.members && v in room.members && u != v ==> room.members[u] != room.members[v]
  {
    forall u, v | u in room.members && v in room.members && u != v
      ensures room.members[u] != room.members[v]
    {
      var others := room.members.Keys - {room.host};
      assert |others| == 1;
      if u != room.host {
        OneElement({u}, others);
        assert v == room.host || v in others;
      }
    }
  }

  lemma RoomSeats(s: Setting, w: World, rid: RoomId)
    requires WorldInv(s, w) && rid in w.rooms
    ensures SeatsOk(w.rooms[rid])
  {
    assert RoomOk(PlacesOf(w.matches), rid, w.rooms[rid]);
  }

  lemma RematchColumns(s: Setting, w: World, actor: UserId, id: MatchId, now: Time)
    requires WorldInv(s, w) && AllColumns(s, w.matches) && id in w.matches && RematchEffect(w, actor, id, now).Ok?
    ensures AllColumns(s, RematchEffect(w, actor, id, now).value.0.matches)
  {
    hide WorldInv, MatchInv, AllColumns, ColumnsOk, NextRound, LinkedTo, Recorded;
    var m := w.matches[id];
    if m.rematchCreated.None? {
      RematchPendingOk(s, w, id);
      RowOf(s, w.matches, id);
      VotedColumns(s.config, m, actor, now);
      var voted := Vote(m, actor, now);
      OneRowColumns(s, w.matches, id, voted);
      if |voted.votes| == 2 {
        RoomSeats(s, w, m.roomId);
        LinkedColumns(s.config, voted, w.nextId, now);
        OneRowColumns(s, w.matches, id, LinkedTo(voted, w.nextId, now));
        NextRoundColumns(s.config, w.rooms[m.roomId], id, voted, now);
        OneRowColumns(s, w.matches[id := LinkedTo(voted, w.nextId, now)], w.nextId,
                      NextRound(w.rooms[m.roomId], id, voted, now));
      }
    }
  }

  // ----- every step, every run

  lemma OtherStepsColumns(s: Setting, w: World, step: Step)
    requires WorldInv(s, w) && AllColumns(s, w.matches)
    requires !OnMatch(step) || step.Rematch? || step.id !in w.matches
    ensures AllColumns(s, Exec(s, w, step).0.matches)
  {
    hide WorldInv, AllColumns, CreateRoomStep, JoinRoomStep, RematchEffect, Command, MatchStep;
    match step {
      case CreateRoom(actor, key, difficulty, mode, challenge, now) =>
        CreateColumns(s, w, actor, key, difficulty, mode, challenge, now);
      case JoinRoom(actor, key, room, now) => JoinColumns(s, w, actor, key, room, now);
      case Rematch(actor, key, id, now) =>
        if id in w.matches {
          RematchIs(s, w, step);
          CommandMatches(w, actor, key, RematchCommand, Some(id), Payload.Empty, RematchEffect(w, actor, id, now));
          if RematchEffect(w, actor, id, now).Ok? {
            RematchColumns(s, w, actor, id, now);
          }
        }
      case _ =>
    }
  }

  lemma StepColumns(s: Setting, w: World, step: Step)
    requires WorldInv(s, w) && AllColumns(s, w.matches)
    ensures AllColumns(s, Exec(s, w, step).0.matches)
  {
    hide WorldInv, AllColumns, ColumnsOk, MatchInv, Exec, MatchStep, BackgroundRule, CommandRule, CommandProduces,
      Produces;
    if !OnMatch(step) || step.Rematch? || step.id !in w.matches {
      OtherStepsColumns(s, w, step);
    } else {
      ExecIsMatchStep(s, w, step);
      StepRewritesOneMatch(s, w, step);
      MatchHolds(s, w, step.id);
      RowOf(s, w.matches, step.id);
      if Exec(s, w, step).0.matches != w.matches {
        var m := w.matches[step.id];
        var n :| (Produces(BackgroundRule(s, m, step), n) || CommandProduces(s, w, step, n))
                 && Exec(s, w, step).0.matches == w.matches[step.id := n];
        if Produces(BackgroundRule(s, m, step), n) {
          BackgroundColumns(s, m, step, n);
        } else {
          CommandColumns(s, w, step, n);
        }
        OneRowColumns(s, w.matches, step.id, n);
      }
    }
  }

  lemma {:induction false} RunColumns(s: Setting, w: World, steps: seq<Step>)
    requires CatalogOk(s) && WorldInv(s, w) && AllColumns(s, w.matches)
    ensures AllColumns(s, After(s, w, steps).matches)
    decreases |steps|
  {
    hide CatalogOk, WorldInv, AllColumns, Exec, WorldGrows;
    if steps != [] {
      StepSafe(s, w, steps[0]);
      StepColumns(s, w, steps[0]);
      RunColumns(s, Exec(s, w, steps[0]).0, steps[1..]);
    }
  }

  lemma AllReachableColumns(s: Setting, w: World)
    requires Reachable(s, w)
    ensures AllColumns(s, w.matches)
  {
    hide WorldInv, ColumnsOk, Exec;
    var steps :| w == After(s, INITIAL, steps);
    EmptyOk(s);
    RunColumns(s, INITIAL, steps);
  }

  /** Every match of every reachable state. */
  lemma ReachableColumns(s: Setting, w: World, id: MatchId)
    requires Reachable(s, w) && id in w.matches
    ensures ColumnsOk(s.config, w.matches[id])
  {
    hide WorldInv, ColumnsOk, Exec;
    AllReachableColumns(s, w);
  }
}
