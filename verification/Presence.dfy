/** Absent players over whole runs: whom the disconnect check ends a match for, how long it waits, and whom it never
    finds. */
module Presence {
  import opened Domain
  import opened MatchTypes
  import opened StateMachine
  import opened MatchRules
  import opened MatchInvariants
  import opened MatchSafety
  import opened ArenaRules
  import opened ArenaSafety
  import opened World
  import opened Rotation
  import opened WorldSafety
  import opened WorldSteps
  import opened SafeRuns
  import opened StepEffects
  import opened Winners
  import opened Submissions
  import opened Columns
  import AnswerText

  /** Everyone away from a match has been away for the whole grace period, and someone is. */
  ghost predicate GraceIsOver(c: Config, participants: Participants, now: Time) {
    && (exists u :: u in participants && !participants[u].connected)
    && forall u :: u in participants && !participants[u].connected ==>
         && participants[u].disconnectedAt.Some?
         && participants[u].disconnectedAt.value + c.reconnectGrace <= now
         && participants[u].reconnectDeadline == Some(participants[u].disconnectedAt.value + c.reconnectGrace)
  }

  lemma DueMeansGraceIsOver(c: Config, m: Match, executions: Executions, now: Time)
    requires ColumnsOk(c, m) && DisconnectDue(m.participants, executions, now)
    ensures GraceIsOver(c, m.participants, now)
  {
    forall u | u in m.participants && !m.participants[u].connected
      ensures m.participants[u].disconnectedAt.Some?
      ensures m.participants[u].disconnectedAt.value + c.reconnectGrace <= now
      ensures m.participants[u].reconnectDeadline == Some(m.participants[u].disconnectedAt.value + c.reconnectGrace)
    {
      PlayerColumns(c, m, u);
    }
  }

  /** The ways an absence ends play: for the one player still there, or - unless the arena skipped the round - for
      nobody. */
  predicate EndedByAbsence(m: Match, n: Match) {
    && m.state == Active && Terminal(n.state)
    && (n.endReason == Some(Forfeit) || (n.endReason == Some(NoContest) && n.evaluation.None?))
  }

  lemma CompletionWaits(c: Config, m: Match, id: ExecutionId, r: RunnerResult, now: Time)
    requires MatchInv(m) && ColumnsOk(c, m) && m.state == Active && CompleteExecution(c, m, id, r, now).Ok?
    requires EndedByAbsence(m, CompleteExecution(c, m, id, r, now).value)
    ensures GraceIsOver(c, m.participants, now)
  {
    hide MatchInv, ColumnsOk, DisconnectDue, FirstAccepted, AcceptableResult, GraceIsOver, CompleteExecution,
      WithResult, Released, EventTime;
    OtherCompletions(c, m, id, r, now);
    if id in m.executions && m.executions[id].kind == Submit && !m.executions[id].status.Completed? {
      AcceptedResult(c, m, id, r, now);
      CompletionOutcome(c, m, id, r, now);
      DueIfEnded(c, m, id, r, now);
    } else {
      assert false;
    }
  }

  lemma AcceptedResult(c: Config, m: Match, id: ExecutionId, r: RunnerResult, now: Time)
    requires CompleteExecution(c, m, id, r, now).Ok?
    ensures AcceptableResult(r)
  {
    hide AcceptableResult, Store, Settle;
  }

  lemma DueIfEnded(c: Config, m: Match, id: ExecutionId, r: RunnerResult, now: Time)
    requires ColumnsOk(c, m) && id in m.executions
    requires DisconnectDue(m.participants, WithResult(m.executions, id, r), now)
    ensures GraceIsOver(c, m.participants, now)
  {
    DueMeansGraceIsOver(c, m, WithResult(m.executions, id, r), now);
  }

  lemma SweepWaits(c: Config, m: Match, now: Time)
    requires MatchInv(m) && ColumnsOk(c, m) && m.state == Active
    requires EvaluateDisconnects(c, m, now).Ok? && EndedByAbsence(m, EvaluateDisconnects(c, m, now).value)
    ensures m.mode == Duel && GraceIsOver(c, m.participants, now)
    ensures EndedByDisconnect(m, EvaluateDisconnects(c, m, now).value, now)
  {
    hide MatchInv, ColumnsOk, DisconnectDue, GraceIsOver, EvaluateDisconnects, EndedByDisconnect;
    SweepEndsExactlyWhen(c, m, now);
    DueMeansGraceIsOver(c, m, m.executions, now);
  }

  lemma AttachWaits(c: Config, m: Match, user: UserId, now: Time)
    requires MatchInv(m) && ColumnsOk(c, m) && m.state == Active && Connect(c, m, user, now).Ok?
    requires EndedByAbsence(m, Connect(c, m, user, now).value)
    ensures GraceIsOver(c, m.participants, now)
  {
    hide MatchInv, ColumnsOk, EvaluateDisconnects, GraceIsOver, EventTime;
    SweepWaits(c, m, now);
  }

  /** The arena ends a round only with an evaluation, and never as a forfeit. */
  lemma PreparedIsNoAbsence(c: Config, m: Match, a: Match, material: Option<Material>, userA: UserId, now: Time)
    requires a.state == Active && PrepareEvaluation(c, a, material, userA, now).Ok?
    requires m.state == Active
    ensures !EndedByAbsence(m, PrepareEvaluation(c, a, material, userA, now).value)
  {
    hide MaterialOk, NewEvaluation, NoContestFor, EventTime;
  }

  lemma {:induction false} AppendedState(m: Match, kind: EventKind, count: nat, now: Time)
    ensures AppendEvents(m, kind, count, now).state == m.state
  {
    if count > 0 {
      AppendedState(m, kind, count - 1, now);
    }
  }

  lemma DeadlineIsNoAbsence(c: Config, m: Match, material: Option<Material>, userA: UserId, now: Time)
    requires m.state == Active && ProcessAnswerDeadline(c, m, material, userA, now).Ok?
    ensures !EndedByAbsence(m, ProcessAnswerDeadline(c, m, material, userA, now).value)
  {
    hide PrepareEvaluation, AppendEvents;
    if m.answerDeadline.Some? && m.answerDeadline.value <= now {
      var answered := m.(answers := m.answers + map u | u in Missing(m) :: Answer("", Deadline,
                                                                                  m.answerDeadline.value));
      AppendedState(answered, AnswerTimedOut, |Missing(m)|, now);
      PreparedIsNoAbsence(c, m, FillMissing(m, m.answerDeadline.value, now), material, userA, now);
    }
  }

  lemma AnswerIsNoAbsence(c: Config, m: Match, user: UserId, text: string, material: Option<Material>, userA: UserId,
                          now: Time)
    requires m.state == Active && SubmitAnswer(c, m, user, text, material, userA, now).Ok?
    ensures !EndedByAbsence(m, SubmitAnswer(c, m, user, text, material, userA, now).value)
  {
    hide PrepareEvaluation, EventTime;
    var answered := AppendEvent(m.(answers := m.answers[user := Answer(text, Player, now)]), AnswerSubmitted, now);
    PreparedIsNoAbsence(c, m, answered, material, userA, now);
  }

  predicate ChecksAbsence(step: Step) {
    step.Complete? || step.Attach? || step.SweepDisconnects?
  }

  lemma BackgroundWaits(s: Setting, m: Match, step: Step, n: Match)
    requires MatchInv(m) && ColumnsOk(s.config, m) && Produces(BackgroundRule(s, m, step), n) && EndedByAbsence(m, n)
    ensures ChecksAbsence(step) && GraceIsOver(s.config, m.participants, step.now)
  {
    hide MatchInv, ColumnsOk, GraceIsOver, CompleteExecution, Connect, EvaluateDisconnects, ProcessAnswerDeadline,
      MarkRunning, AdvanceCountdown, Reconcile, ClaimEvaluation, PersistFailure, PersistSuccess;
    match step {
      case Complete(_, execution, result, now) => CompletionWaits(s.config, m, execution, result, now);
      case Attach(user, _, now) => AttachWaits(s.config, m, user, now);
      case SweepDisconnects(_, now) => SweepWaits(s.config, m, now);
      case SweepDeadline(_, material, userA, now) => DeadlineIsNoAbsence(s.config, m, material, userA, now);
      case _ => QuietRulesDoNotEndPlay(s, m, step);
    }
  }

  lemma CommandIsNoAbsence(s: Setting, w: World, step: Step, n: Match)
    requires OnMatch(step) && step.id in w.matches && CommandProduces(s, w, step, n) && !step.Leave?
    ensures !EndedByAbsence(w.matches[step.id], n)
  {
    hide SubmitAnswer, AnswerText.Measured, SetLanguage, CancelMatch, StartExecution, ReadyRule;
    var m := w.matches[step.id];
    if step.Submission? {
      if m.state == Active {
        AnswerIsNoAbsence(s.config, m, step.actor,
                          AnswerText.Measured(step.answer, AnswerText.ANSWER_LIMITS).normalized, step.material,
                          step.userA, step.now);
      }
    } else {
      LobbyCommandsDoNotEndPlay(s, w, step, n);
    }
  }

  /** In any reachable state, nothing but a player's own leaving ends play for an absence - as a forfeit or for nobody -
      before everyone away has been away for the whole grace period; and then only a completed execution, a
      reconnection or the sweep does. */
  lemma AbsenceEndsPlayOnlyAfterGrace(s: Setting, w: World, step: Step, id: MatchId)
    requires Reachable(s, w) && id in w.matches && !step.Leave?
    ensures
      var after := Exec(s, w, step).0;
      && id in after.matches
      && (EndedByAbsence(w.matches[id], after.matches[id]) ==>
            && ChecksAbsence(step) && step.id == id && GraceIsOver(s.config, w.matches[id].participants, step.now))
  {
    hide WorldInv, WorldGrows, MatchInv, ColumnsOk, Exec, MatchStep, BackgroundRule, CommandRule, CommandProduces,
      Produces, GraceIsOver;
    ReachableIsConsistent(s, w);
    StepSafe(s, w, step);
    RowStays(w, Exec(s, w, step).0, id);
    if OnMatch(step) && !step.Rematch? && id == step.id {
      ExecIsMatchStep(s, w, step);
      StepRewritesOneMatch(s, w, step);
      MatchHolds(s, w, id);
      ReachableColumns(s, w, id);
      var m := w.matches[id];
      if Exec(s, w, step).0.matches != w.matches {
        var n :| (Produces(BackgroundRule(s, m, step), n) || CommandProduces(s, w, step, n))
                 && Exec(s, w, step).0.matches == w.matches[id := n];
        if EndedByAbsence(m, n) {
          if Produces(BackgroundRule(s, m, step), n) {
            BackgroundWaits(s, m, step, n);
          } else {
            CommandIsNoAbsence(s, w, step, n);
          }
        }
      }
    } else {
      OtherStepsEndNothing(s, w, step, id);
    }
  }

  // ----- coming and going

  /** Who comes back is connected and on no deadline; if the absence check was due, it has ended the match first. */
  lemma ReturnsExactly(c: Config, m: Match, user: UserId, now: Time)
    requires MatchInv(m)
    ensures
      var r := Connect(c, m, user, now);
      && (r.Ok? <==> user in m.participants)
      && (r.Ok? ==>
            && user in r.value.participants && r.value.participants[user].connected
            && r.value.participants[user].disconnectedAt.None? && r.value.participants[user].reconnectDeadline.None?
            && if m.state == Active && m.mode == Duel && DisconnectDue(m.participants, m.executions, now) then
                 Terminal(r.value.state)
               else
                 && r.value.state == m.state
                 && r.value.participants
                    == m.participants[user := m.participants[user].(connected := true, disconnectedAt := None,
                                                                    reconnectDeadline := None)])
  {
    hide MatchInv, EvaluateDisconnects, DisconnectDue, EventTime;
    SweepEndsExactlyWhen(c, m, now);
  }

  /** Only the last session of a connected player takes them away, as of when it was last seen; in an active duel, and
      only there, with a deadline. */
  lemma GoneExactly(c: Config, m: Match, user: UserId, active: bool, lastSeen: Option<Time>, now: Time)
    ensures
      var r := Reconcile(c, m, user, active, lastSeen, now);
      && (r.Ok? <==> user in m.participants)
      && (r.Ok? ==>
            && r.value.state == m.state
            && r.value.participants
               == if !active && m.participants[user].connected && lastSeen.Some? then
                    m.participants[user := m.participants[user].(
                                     connected := false, disconnectedAt := lastSeen,
                                     reconnectDeadline := if m.state == Active && m.mode == Duel
                                     then Some(lastSeen.value + c.reconnectGrace) else None)]
                  else m.participants)
  {
    hide EventTime;
  }

  // ----- an absence nobody timed

  /** A player of an active duel who is away without a deadline. */
  predicate Untimed(m: Match, u: UserId) {
    m.state == Active && m.mode == Duel && u in m.participants
    && !m.participants[u].connected && m.participants[u].reconnectDeadline.None?
  }

  /** Presence columns of everyone as they were. */
  predicate SamePresence(m: Match, n: Match) {
    n.participants.Keys == m.participants.Keys
    && forall u :: u in m.participants ==>
         && n.participants[u].connected == m.participants[u].connected
         && n.participants[u].reconnectDeadline == m.participants[u].reconnectDeadline
  }

  lemma UntimedIsNotDue(m: Match, executions: Executions, now: Time, u: UserId)
    requires Untimed(m, u)
    ensures !DisconnectDue(m.participants, executions, now)
  {
  }

  lemma CompletionKeepsPresence(c: Config, m: Match, id: ExecutionId, r: RunnerResult, now: Time)
    requires MatchInv(m) && m.state == Active && CompleteExecution(c, m, id, r, now).Ok?
    ensures
      var n := CompleteExecution(c, m, id, r, now).value;
      n.mode == m.mode && (n.state == Active ==> SamePresence(m, n))
  {
    hide MatchInv, DisconnectDue, FirstAccepted, AcceptableResult, CompleteExecution, WithResult, EventTime;
    CompleteKeeps(c, m, id, r, now);
    AcceptedResult(c, m, id, r, now);
    OtherCompletions(c, m, id, r, now);
    if id in m.executions && m.executions[id].kind == Submit && !m.executions[id].status.Completed? {
      CompletionOutcome(c, m, id, r, now);
    }
  }

  lemma ReturnKeepsUntimed(c: Config, m: Match, user: UserId, now: Time, u: UserId)
    requires MatchInv(m) && Untimed(m, u) && user != u && Connect(c, m, user, now).Ok?
    ensures Untimed(Connect(c, m, user, now).value, u)
  {
    hide MatchInv, EvaluateDisconnects, DisconnectDue, EndedByDisconnect, EventTime;
    UntimedIsNotDue(m, m.executions, now, u);
    SweepEndsExactlyWhen(c, m, now);
  }

  lemma SweepKeepsUntimed(c: Config, m: Match, now: Time, u: UserId)
    requires MatchInv(m) && Untimed(m, u)
    ensures EvaluateDisconnects(c, m, now) == Ok(m)
  {
    hide MatchInv, EvaluateDisconnects, DisconnectDue, EndedByDisconnect;
    UntimedIsNotDue(m, m.executions, now, u);
    SweepEndsExactlyWhen(c, m, now);
  }

  lemma ArenaKeepsPresence(c: Config, m: Match, a: Match, material: Option<Material>, userA: UserId, now: Time)
    requires PrepareEvaluation(c, a, material, userA, now).Ok? && a.state == Active && SamePresence(m, a)
    ensures PrepareEvaluation(c, a, material, userA, now).value.state == Active ==>
              PrepareEvaluation(c, a, material, userA, now).value == a
  {
    hide MaterialOk, NewEvaluation, NoContestFor, EventTime;
  }

  lemma SameSeats(m: Match, n: Match)
    requires n.participants == m.participants
    ensures SamePresence(m, n)
  {
  }

  lemma FilledKeepsPresence(m: Match, deadline: Time, now: Time)
    ensures
      var n := FillMissing(m, deadline, now);
      SamePresence(m, n) && n.mode == m.mode && n.state == m.state
  {
    hide AppendEvents, SamePresence;
    var filled := m.(answers := m.answers + map u | u in Missing(m) :: Answer("", Deadline, deadline));
    AppendManyOnlyAppends(filled, AnswerTimedOut, |Missing(m)|, now);
    SameSeats(m, FillMissing(m, deadline, now));
  }

  lemma DeadlineKeepsPresence(c: Config, m: Match, material: Option<Material>, userA: UserId, now: Time)
    requires m.state == Active && ProcessAnswerDeadline(c, m, material, userA, now).Ok?
    ensures
      var n := ProcessAnswerDeadline(c, m, material, userA, now).value;
      n.state == Active ==> SamePresence(m, n) && n.mode == m.mode
  {
    hide PrepareEvaluation, FillMissing, SamePresence;
    SameHere(m);
    if m.answerDeadline.Some? && m.answerDeadline.value <= now {
      FilledKeepsPresence(m, m.answerDeadline.value, now);
      ArenaKeepsPresence(c, m, FillMissing(m, m.answerDeadline.value, now), material, userA, now);
    }
  }

  lemma SameHere(m: Match)
    ensures SamePresence(m, m)
  {
  }

  lemma BackgroundKeepsUntimed(s: Setting, m: Match, step: Step, n: Match, u: UserId)
    requires MatchInv(m) && Untimed(m, u) && Produces(BackgroundRule(s, m, step), n)
    requires !(step.Attach? && step.user == u)
    ensures n.state == Active ==> Untimed(n, u)
  {
    hide MatchInv, CompleteExecution, Connect, EvaluateDisconnects, ProcessAnswerDeadline, EventTime;
    match step {
      case Complete(_, execution, result, now) => CompletionKeepsPresence(s.config, m, execution, result, now);
      case Attach(user, _, now) => ReturnKeepsUntimed(s.config, m, user, now, u);
      case SweepDisconnects(_, now) => SweepKeepsUntimed(s.config, m, now, u);
      case SweepDeadline(_, material, userA, now) => DeadlineKeepsPresence(s.config, m, material, userA, now);
      case _ =>
    }
  }

  lemma AnswerKeepsPresence(c: Config, m: Match, user: UserId, text: string, material: Option<Material>,
                            userA: UserId, now: Time)
    requires m.state == Active && SubmitAnswer(c, m, user, text, material, userA, now).Ok?
    ensures
      var n := SubmitAnswer(c, m, user, text, material, userA, now).value;
      n.state == Active ==> SamePresence(m, n) && n.mode == m.mode
  {
    hide PrepareEvaluation, EventTime;
    var answered := AppendEvent(m.(answers := m.answers[user := Answer(text, Player, now)]), AnswerSubmitted, now);
    ArenaKeepsPresence(c, m, answered, material, userA, now);
  }

  lemma CommandKeepsUntimed(s: Setting, w: World, step: Step, n: Match, u: UserId)
    requires OnMatch(step) && step.id in w.matches && CommandProduces(s, w, step, n) && !step.Leave?
    requires Untimed(w.matches[step.id], u)
    ensures n.state == Active ==> Untimed(n, u)
  {
    hide SubmitAnswer, AnswerText.Measured, EventTime, Insertable, ChooseProblem, ProblemsBelow, Problems;
    var m := w.matches[step.id];
    if step.Submission? {
      AnswerKeepsPresence(s.config, m, step.actor,
                          AnswerText.Measured(step.answer, AnswerText.ANSWER_LIMITS).normalized, step.material,
                          step.userA, step.now);
    }
  }

  /** Nobody comes back as this player, and nobody leaves. */
  predicate NoReturn(steps: seq<Step>, id: MatchId, u: UserId) {
    forall i :: 0 <= i < |steps| ==>
      && !(steps[i].Attach? && steps[i].id == id && steps[i].user == u)
      && !(steps[i].Leave? && steps[i].id == id)
  }

  lemma StepKeepsUntimed(s: Setting, w: World, step: Step, id: MatchId, u: UserId)
    requires WorldInv(s, w) && CatalogOk(s) && AllColumns(s, w.matches) && id in w.matches
    requires Untimed(w.matches[id], u)
    requires !(step.Attach? && step.id == id && step.user == u) && !(step.Leave? && step.id == id)
    ensures
      var after := Exec(s, w, step).0;
      && id in after.matches && !EndedByAbsence(w.matches[id], after.matches[id])
      && (after.matches[id].state == Active ==> Untimed(after.matches[id], u))
  {
    hide WorldInv, CatalogOk, WorldGrows, MatchInv, ColumnsOk, AllColumns, Exec, MatchStep, BackgroundRule,
      CommandRule, CommandProduces, Produces, GraceIsOver;
    StepSafe(s, w, step);
    RowStays(w, Exec(s, w, step).0, id);
    ConsistentIds(s, w);
    if !OnMatch(step) || step.Rematch? || step.id !in w.matches {
      OthersKeepSeats(s, w, step, id);
    } else {
      ExecIsMatchStep(s, w, step);
      StepRewritesOneMatch(s, w, step);
      MatchHolds(s, w, id);
      RowOf(s, w.matches, id);
      if id == step.id && Exec(s, w, step).0.matches != w.matches {
        var m := w.matches[id];
        var n :| (Produces(BackgroundRule(s, m, step), n) || CommandProduces(s, w, step, n))
                 && Exec(s, w, step).0.matches == w.matches[id := n];
        OwnStepKeepsUntimed(s, w, step, n, u);
      }
    }
  }

  lemma UntimedHasTime(c: Config, m: Match, now: Time, u: UserId)
    requires Untimed(m, u)
    ensures !GraceIsOver(c, m.participants, now)
  {
  }

  lemma JoinKeepsSeats(s: Setting, w: World, actor: UserId, key: string, room: RoomId, now: Time, id: MatchId)
    requires WorldInv(s, w) && id in w.matches && w.matches[id].state == Active
    ensures
      var after := JoinRoomStep(w, actor, key, room, now).0.matches;
      id in after && after[id] == w.matches[id]
  {
    hide WorldInv, MatchInv, Command, JoinMatch;
    if room in w.rooms && w.rooms[room].active in w.matches {
      var r := w.rooms[room];
      CommandMatches(w, actor, key, JoinRoomCommand, Some(r.active), RoomRef(room), Seat(w, actor, room, now));
      if r.mode == Duel && !r.closed && forall u :: u in r.members ==> r.members[u] != 2 {
        FreeSeat(s, w, room);
      }
    }
  }

  lemma VotedSeats(m: Match, user: UserId, next: MatchId, now: Time)
    ensures Vote(m, user, now).participants == m.participants && LinkedTo(m, next, now).participants == m.participants
  {
    hide EventTime;
  }

  lemma RematchKeepsSeats(w: World, actor: UserId, id: MatchId, now: Time, other: MatchId)
    requires id in w.matches && other in w.matches && w.nextId !in w.matches && RematchEffect(w, actor, id, now).Ok?
    ensures
      var after := RematchEffect(w, actor, id, now).value.0.matches;
      other in after && after[other].participants == w.matches[other].participants
  {
    hide NextRound, Recorded, Vote, LinkedTo;
    var voted := Vote(w.matches[id], actor, now);
    VotedSeats(w.matches[id], actor, w.nextId, now);
    VotedSeats(voted, actor, w.nextId, now);
  }

  lemma OthersKeepRow(s: Setting, w: World, step: Step, id: MatchId)
    requires WorldInv(s, w) && id in w.matches && w.matches[id].state == Active
    requires !OnMatch(step) || step.Rematch? || step.id !in w.matches
    ensures
      var after := Exec(s, w, step).0.matches;
      id in after && after[id].participants == w.matches[id].participants
  {
    hide WorldInv, CreateRoomStep, JoinRoomStep, RematchEffect, Command, MatchStep, FirstRound, HostedBy;
    ConsistentIds(s, w);
    match step {
      case CreateRoom(actor, key, difficulty, mode, challenge, now) =>
        CreateKeepsSeats(w, actor, key, difficulty, mode, challenge, now, id);
      case JoinRoom(actor, key, room, now) => JoinKeepsSeats(s, w, actor, key, room, now, id);
      case Rematch(actor, key, x, now) =>
        if x in w.matches {
          RematchIs(s, w, step);
          CommandMatches(w, actor, key, RematchCommand, Some(x), Payload.Empty, RematchEffect(w, actor, x, now));
          if RematchEffect(w, actor, x, now).Ok? {
            RematchKeepsSeats(w, actor, x, now, id);
          }
        }
      case _ =>
    }
  }

  lemma OthersKeepSeats(s: Setting, w: World, step: Step, id: MatchId)
    requires WorldInv(s, w) && id in w.matches && w.matches[id].state == Active
    requires !OnMatch(step) || step.Rematch? || step.id !in w.matches
    ensures
      var after := Exec(s, w, step).0.matches;
      && id in after && after[id].participants == w.matches[id].participants
      && after[id].state == w.matches[id].state && after[id].mode == w.matches[id].mode
  {
    hide WorldInv, Exec;
    ConsistentIds(s, w);
    OtherStepsKeepStates(s, w, step);
    OthersKeepRow(s, w, step, id);
  }

  lemma CreateKeepsSeats(w: World, actor: UserId, key: string, difficulty: Difficulty, mode: Mode,
                         challenge: Challenge, now: Time, id: MatchId)
    requires IdsOk(w.rooms, w.matches, w.nextId) && id in w.matches
    ensures
      var after := CreateRoomStep(w, actor, key, difficulty, mode, challenge, now).0.matches;
      id in after && after[id] == w.matches[id]
  {
    hide Command, FirstRound, HostedBy;
    CommandMatches(w, actor, key, CreateRoomCommand, None, RoomOptions(difficulty, mode, challenge),
                   Ok(OpenRoom(w, actor, difficulty, mode, challenge, now)));
  }

  lemma OwnStepKeepsUntimed(s: Setting, w: World, step: Step, n: Match, u: UserId)
    requires OnMatch(step) && step.id in w.matches && !step.Leave?
    requires MatchInv(w.matches[step.id]) && ColumnsOk(s.config, w.matches[step.id])
    requires Produces(BackgroundRule(s, w.matches[step.id], step), n) || CommandProduces(s, w, step, n)
    requires Untimed(w.matches[step.id], u) && !(step.Attach? && step.user == u)
    ensures (n.state == Active ==> Untimed(n, u)) && !EndedByAbsence(w.matches[step.id], n)
  {
    hide MatchInv, ColumnsOk, BackgroundRule, CommandRule, CommandProduces, Produces, GraceIsOver;
    var m := w.matches[step.id];
    if Produces(BackgroundRule(s, m, step), n) {
      BackgroundKeepsUntimed(s, m, step, n, u);
      if EndedByAbsence(m, n) {
        BackgroundWaits(s, m, step, n);
        UntimedHasTime(s.config, m, step.now, u);
      }
    } else {
      CommandKeepsUntimed(s, w, step, n, u);
      CommandIsNoAbsence(s, w, step, n);
    }
  }

  lemma {:induction false} UntimedLasts(s: Setting, w: World, steps: seq<Step>, id: MatchId, u: UserId)
    requires CatalogOk(s) && WorldInv(s, w) && AllColumns(s, w.matches) && id in w.matches
    requires Untimed(w.matches[id], u) && NoReturn(steps, id, u)
    ensures
      var after := After(s, w, steps);
      id in after.matches && (after.matches[id].state == Active ==> Untimed(after.matches[id], u))
    decreases |steps|
  {
    hide CatalogOk, WorldInv, AllColumns, Exec, WorldGrows, Untimed;
    if steps != [] {
      var next := Exec(s, w, steps[0]).0;
      StepSafe(s, w, steps[0]);
      StepColumns(s, w, steps[0]);
      StepKeepsUntimed(s, w, steps[0], id, u);
      if next.matches[id].state == Active {
        assert forall i :: 0 <= i < |steps[1..]| ==> steps[1..][i] == steps[i + 1];
        UntimedLasts(s, next, steps[1..], id, u);
      } else {
        StepSafe(s, w, steps[0]);
        UntimedIsInPlay(w, next, id, u);
        RunSafe(s, next, steps[1..]);
        OverStaysOver(next, After(s, next, steps[1..]), id);
      }
    }
  }

  lemma UntimedIsInPlay(w: World, next: World, id: MatchId, u: UserId)
    requires WorldGrows(w, next) && id in w.matches && Untimed(w.matches[id], u)
    ensures id in next.matches && Rank(Active) <= Rank(next.matches[id].state)
  {
    hide SlotsKept, ExecutionsEvolve, AnswersEvolve, EvaluationEvolves, ResultFrozen;
    assert Grows(w.matches[id], next.matches[id]);
  }

  lemma OverStaysOver(w: World, after: World, id: MatchId)
    requires WorldGrows(w, after) && id in w.matches && Rank(Active) < Rank(w.matches[id].state)
    ensures id in after.matches && after.matches[id].state != Active
  {
    hide SlotsKept, ExecutionsEvolve, AnswersEvolve, EvaluationEvolves, ResultFrozen;
    assert Grows(w.matches[id], after.matches[id]);
  }

  /** That an absent player forfeits rests on their deadline: an absence without one never ends the match, in no run and
      however late, until that player comes back or somebody leaves. */
  lemma UntimedNeverEnds(s: Setting, w: World, steps: seq<Step>, step: Step, id: MatchId, u: UserId)
    requires Reachable(s, w) && id in w.matches && Untimed(w.matches[id], u) && NoReturn(steps + [step], id, u)
    ensures
      var after := After(s, w, steps);
      var next := Exec(s, after, step).0;
      id in after.matches && id in next.matches && !EndedByAbsence(after.matches[id], next.matches[id])
  {
    hide WorldInv, CatalogOk, AllColumns, Exec, WorldGrows, Untimed;
    ReachableIsConsistent(s, w);
    AllReachableColumns(s, w);
    assert forall i :: 0 <= i < |steps| ==> (steps + [step])[i] == steps[i];
    assert (steps + [step])[|steps|] == step;
    UntimedLasts(s, w, steps, id, u);
    RunSafe(s, w, steps);
    RunColumns(s, w, steps);
    var after := After(s, w, steps);
    StepSafe(s, after, step);
    RowStays(after, Exec(s, after, step).0, id);
    if after.matches[id].state == Active {
      StepKeepsUntimed(s, after, step, id, u);
    }
  }

  // ----- who gets a deadline

  lemma TimedRow(c: Config, p: Participant, startsAt: Time)
    ensures
      var q := Armed(c, p, startsAt);
      && q.connected == p.connected
      && (!p.connected ==> q.reconnectDeadline.Some?)
      && (!p.connected && p.reconnectDeadline.None? ==>
            q.reconnectDeadline == Some(Max(if p.disconnectedAt.Some? then p.disconnectedAt.value else startsAt,
                                            startsAt) + c.reconnectGrace))
  {
  }

  lemma TimedRows(c: Config, m: Match, now: Time)
    requires m.state == Countdown && m.mode == Duel && m.startsAt.Some? && m.startsAt.value <= now
    ensures
      var n := AdvanceCountdown(c, m, now);
      && n.state == Active && n.participants.Keys == m.participants.Keys
      && forall u :: u in m.participants ==> n.participants[u] == Armed(c, m.participants[u], m.startsAt.value)
  {
    hide Armed, EventTime;
  }

  /** The countdown timer gives every absent player of a duel a deadline: the grace period from the start, or from the
      disconnection if that came later. */
  lemma TimerTimesEveryone(c: Config, m: Match, now: Time)
    requires m.state == Countdown && m.mode == Duel && m.startsAt.Some? && m.startsAt.value <= now
    ensures
      var n := AdvanceCountdown(c, m, now);
      && n.state == Active && n.participants.Keys == m.participants.Keys
      && (forall u :: u in m.participants ==>
            var p := m.participants[u];
            !p.connected && p.reconnectDeadline.None? ==>
              n.participants[u].reconnectDeadline
              == Some(Max(if p.disconnectedAt.Some? then p.disconnectedAt.value else m.startsAt.value,
                          m.startsAt.value) + c.reconnectGrace))
      && (forall u :: !Untimed(n, u))
  {
    TimedRows(c, m, now);
    hide Armed, AdvanceCountdown;
    forall u | u in m.participants {
      TimedRow(c, m.participants[u], m.startsAt.value);
    }
  }

  lemma CompletionTimes(s: Setting, m: Match, step: Step, n: Match, u: UserId)
    requires MatchInv(m) && !Untimed(m, u) && step.Complete? && Produces(BackgroundRule(s, m, step), n)
    ensures !Untimed(n, u)
  {
    hide MatchInv, CompleteExecution;
    BackgroundRuleKeeps(s, m, step);
    if m.state == Active {
      CompletionKeepsPresence(s.config, m, step.execution, step.result, step.now);
    } else {
      LateCompletion(s.config, m, step.execution, step.result, step.now);
    }
  }

  lemma PresenceTimes(s: Setting, m: Match, step: Step, n: Match, u: UserId)
    requires MatchInv(m) && !Untimed(m, u) && Produces(BackgroundRule(s, m, step), n)
    requires step.Attach? || step.Detach? || step.SweepDisconnects?
    ensures !Untimed(n, u)
  {
    hide MatchInv, EvaluateDisconnects, EventTime;
    SweepOrNot(s.config, m, step.now);
  }

  lemma BackgroundTimes(s: Setting, m: Match, step: Step, n: Match, u: UserId)
    requires MatchInv(m) && !Untimed(m, u) && Produces(BackgroundRule(s, m, step), n)
    ensures !Untimed(n, u)
  {
    hide MatchInv, CompleteExecution, EvaluateDisconnects, ProcessAnswerDeadline, AdvanceCountdown, EventTime, Connect,
      Reconcile;
    if step.Complete? {
      CompletionTimes(s, m, step, n, u);
    } else if step.Attach? || step.Detach? || step.SweepDisconnects? {
      PresenceTimes(s, m, step, n, u);
    } else if step.SweepDeadline? {
      if m.state == Active {
        DeadlineKeepsPresence(s.config, m, step.material, step.userA, step.now);
      } else {
        IdleDeadline(s.config, m, step.material, step.userA, step.now);
      }
    } else if step.Advance? {
      TimerOrNot(s.config, m, step.now, u);
    }
  }

  lemma LateCompletion(c: Config, m: Match, id: ExecutionId, r: RunnerResult, now: Time)
    requires MatchInv(m) && m.state != Active && CompleteExecution(c, m, id, r, now).Ok?
    ensures CompleteExecution(c, m, id, r, now).value.state == m.state
  {
    hide MatchInv, AcceptableResult, CompleteExecution, WithResult;
    AcceptedResult(c, m, id, r, now);
    OtherCompletions(c, m, id, r, now);
  }

  lemma SweepOrNot(c: Config, m: Match, now: Time)
    requires MatchInv(m)
    ensures EvaluateDisconnects(c, m, now).Ok?
    ensures EvaluateDisconnects(c, m, now) == Ok(m) || Terminal(EvaluateDisconnects(c, m, now).value.state)
  {
    hide MatchInv, EvaluateDisconnects, DisconnectDue;
    SweepEndsExactlyWhen(c, m, now);
  }

  lemma TimerOrNot(c: Config, m: Match, now: Time, u: UserId)
    requires !Untimed(m, u)
    ensures !Untimed(AdvanceCountdown(c, m, now), u)
  {
    hide Untimed;
    if m.state == Countdown && m.startsAt.Some? && m.startsAt.value <= now && m.mode == Duel {
      TimerTimesEveryone(c, m, now);
    } else {
      PracticeTimer(c, m, now, u);
    }
  }

  lemma PracticeTimer(c: Config, m: Match, now: Time, u: UserId)
    requires !Untimed(m, u)
    requires !(m.state == Countdown && m.startsAt.Some? && m.startsAt.value <= now && m.mode == Duel)
    ensures !Untimed(AdvanceCountdown(c, m, now), u)
  {
    hide Armed, EventTime;
  }

  lemma CommandTimes(s: Setting, w: World, step: Step, n: Match, u: UserId)
    requires OnMatch(step) && step.id in w.matches && CommandProduces(s, w, step, n) && !step.Start?
    requires !Untimed(w.matches[step.id], u)
    ensures !Untimed(n, u)
  {
    hide SubmitAnswer, AnswerText.Measured, EventTime, ChooseProblem, ProblemsBelow, Problems, SubmitPending,
      WithOutcomes;
    var m := w.matches[step.id];
    if step.Submission? {
      var text := AnswerText.Measured(step.answer, AnswerText.ANSWER_LIMITS).normalized;
      SubmissionInPlay(s.config, m, step.actor, text, step.material, step.userA, step.now);
      AnswerKeepsPresence(s.config, m, step.actor, text, step.material, step.userA, step.now);
    }
  }

  /** A start that goes through changes nobody's presence. */
  lemma StartTimes(s: Setting, w: World, step: Step, u: UserId)
    requires step.Start? && step.id in w.matches && !Untimed(w.matches[step.id], u)
    ensures step.id in MatchStep(s, w, step).0.matches
    ensures
      var m, (after, reply) := w.matches[step.id], MatchStep(s, w, step);
      Untimed(after.matches[step.id], u)
      <==> && reply.Applied? && m.state == Countdown && m.mode == Duel
           && u in m.participants && !m.participants[u].connected && m.participants[u].reconnectDeadline.None?
  {
    hide StartExecution;
    var m := w.matches[step.id];
    StartsExactlyWhen(s.config, m, step.actor, w.nextId, step.kind, step.receivedAt, step.sequence, step.now);
  }

  /** Of all transactions only one starts an untimed absence in a duel: an execution started after the countdown ran out
      but before its timer was served, with the other player already away. */
  lemma UntimedStartsExactlyWhen(s: Setting, w: World, step: Step, id: MatchId, u: UserId)
    requires Reachable(s, w) && id in w.matches && !Untimed(w.matches[id], u)
    ensures id in Exec(s, w, step).0.matches
    ensures
      var m, n := w.matches[id], Exec(s, w, step).0.matches[id];
      Untimed(n, u)
      <==> && step.Start? && step.id == id && Exec(s, w, step).1.Applied? && m.state == Countdown && m.mode == Duel
           && u in m.participants && !m.participants[u].connected && m.participants[u].reconnectDeadline.None?
  {
    hide WorldInv, WorldGrows, MatchInv, Exec, MatchStep, BackgroundRule, CommandRule, CommandProduces, Produces;
    ReachableIsConsistent(s, w);
    StepSafe(s, w, step);
    RowStays(w, Exec(s, w, step).0, id);
    ConsistentIds(s, w);
    if !OnMatch(step) || step.Rematch? || step.id !in w.matches {
      OtherStepsKeepStates(s, w, step);
      if w.matches[id].state == Active {
        OthersKeepSeats(s, w, step, id);
      }
    } else {
      ExecIsMatchStep(s, w, step);
      StepRewritesOneMatch(s, w, step);
      MatchHolds(s, w, id);
      if step.Start? && step.id == id {
        StartTimes(s, w, step, u);
      } else if id == step.id && Exec(s, w, step).0.matches != w.matches {
        var m := w.matches[id];
        var n :| (Produces(BackgroundRule(s, m, step), n) || CommandProduces(s, w, step, n))
                 && Exec(s, w, step).0.matches == w.matches[id := n];
        if Produces(BackgroundRule(s, m, step), n) {
          BackgroundTimes(s, m, step, n, u);
        } else {
          CommandTimes(s, w, step, n, u);
        }
      }
    }
  }
}
