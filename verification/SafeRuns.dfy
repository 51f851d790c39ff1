/** Every step is safe, hence every run: the tables stay consistent and nothing recorded is taken back. */
module SafeRuns {
  import opened Domain
  import opened MatchTypes
  import opened MatchRules
  import opened ArenaRules
  import opened MatchInvariants
  import opened MatchSafety
  import opened ArenaSafety
  import opened World
  import opened Rotation
  import opened Ledger
  import opened WorldSafety
  import opened WorldSteps
  import AnswerText

  // ----- commands on one match

  lemma ChooseLanguageSafe(s: Setting, w: World, actor: UserId, key: string, id: MatchId, language: Language, now: Time)
    requires id in w.matches && WorldInv(s, w)
    ensures
      Safe(s, w, MatchCommand(w, actor, key, SetLanguageCommand, id, LanguageChoice(language),
                              SetLanguage(w.matches[id], actor, language, now), Done).0)
  {
    hide *;
    MatchHolds(s, w, id);
    var r := SetLanguage(w.matches[id], actor, language, now);
    if r.Ok? {
      SetLanguageKeeps(w.matches[id], actor, language, now);
    }
    MatchCommandSafe(s, w, actor, key, SetLanguageCommand, id, LanguageChoice(language), r, Done);
  }

  lemma LeaveSafe(s: Setting, w: World, actor: UserId, key: string, id: MatchId, now: Time)
    requires id in w.matches && WorldInv(s, w)
    ensures
      Safe(s, w, MatchCommand(w, actor, key, ForfeitCommand, id, Payload.Empty,
                              ForfeitMatch(s.config, w.matches[id], actor, now), Done).0)
  {
    hide *;
    MatchHolds(s, w, id);
    var r := ForfeitMatch(s.config, w.matches[id], actor, now);
    if r.Ok? && actor in w.matches[id].participants {
      ForfeitKeeps(s.config, w.matches[id], actor, now);
    }
    MatchCommandSafe(s, w, actor, key, ForfeitCommand, id, Payload.Empty, r, Done);
  }

  lemma ReadyStepSafe(s: Setting, w: World, actor: UserId, key: string, id: MatchId, ready: bool, live: set<UserId>,
                      pick: nat, now: Time)
    requires CatalogOk(s) && id in w.matches && WorldInv(s, w)
    ensures
      Safe(s, w, MatchCommand(w, actor, key, SetReadyCommand, id, ReadyChoice(ready),
                              ReadyRule(s, w, id, actor, ready, live, pick, now), Done).0)
  {
    hide CatalogOk, WorldInv, WorldGrows, ReadyRule, Command, Commit;
    NothingGrows(w);
    var r := ReadyRule(s, w, id, actor, ready, live, pick, now);
    if actor in w.matches[id].participants {
      if r.Ok? {
        ReadySafe(s, w, id, actor, ready, live, pick, now);
        CommitKeepsReceipts(w, id, r.value);
      }
      CommandSafe(s, w, actor, key, SetReadyCommand, Some(id), ReadyChoice(ready), MatchEffect(w, id, r, Done));
    }
  }

  lemma CommitKeepsReceipts(w: World, id: MatchId, n: Match)
    requires id in w.matches
    ensures Commit(w, id, n).receipts == w.receipts
  {
  }

  lemma CancelStepSafe(s: Setting, w: World, actor: UserId, key: string, id: MatchId, now: Time)
    requires id in w.matches && WorldInv(s, w)
    ensures Safe(s, w, CancelStep(w, actor, key, id, now).0)
  {
    hide WorldInv, WorldGrows, CancelEffect, Command;
    NothingGrows(w);
    if CancelEffect(w, id, now).Ok? {
      CancelSafe(s, w, id, now);
    }
    CommandSafe(s, w, actor, key, CancelCommand, Some(id), Payload.Empty, CancelEffect(w, id, now));
  }

  lemma RematchStepSafe(s: Setting, w: World, actor: UserId, key: string, id: MatchId, now: Time)
    requires id in w.matches && WorldInv(s, w)
    ensures Safe(s, w, RematchStep(w, actor, key, id, now).0)
  {
    hide WorldInv, WorldGrows, RematchEffect, Command;
    NothingGrows(w);
    if actor in w.matches[id].participants {
      if RematchEffect(w, actor, id, now).Ok? {
        RematchSafe(s, w, actor, id, now);
      }
      CommandSafe(s, w, actor, key, RematchCommand, Some(id), Payload.Empty, RematchEffect(w, actor, id, now));
    }
  }

  lemma SubmissionStepSafe(s: Setting, w: World, actor: UserId, key: string, id: MatchId, answer: string,
                           material: Option<Material>, userA: UserId, now: Time)
    requires id in w.matches && WorldInv(s, w)
    ensures Safe(s, w, SubmissionStep(s, w, actor, key, id, answer, material, userA, now).0)
  {
    hide WorldInv, WorldGrows, MatchInv, SubmitAnswer, MatchCommand, Keeps, AnswerText.Measured, StoredText;
    NothingGrows(w);
    MatchHolds(s, w, id);
    var m := w.matches[id];
    var measured := AnswerText.Measured(answer, AnswerText.ANSWER_LIMITS);
    if m.challenge == AiMl && measured.violations == [] {
      SubmittedIsStored(answer);
      var r := SubmitAnswer(s.config, m, actor, measured.normalized, material, userA, now);
      if r.Ok? && actor in m.participants {
        SubmitAnswerKeeps(s.config, m, actor, measured.normalized, material, userA, now);
      }
      MatchCommandSafe(s, w, actor, key, SubmitAnswerCommand, id, AnswerBody(measured.normalized), r,
                       EvaluationResponse(r.Ok? && r.value.state == State.Judging));
    }
  }

  lemma RetryStepSafe(s: Setting, w: World, actor: UserId, key: string, id: MatchId, now: Time)
    requires id in w.matches && WorldInv(s, w)
    ensures Safe(s, w, RetryStep(w, actor, key, id, now).0)
  {
    hide WorldInv, WorldGrows, MatchInv, MatchCommand, Keeps, RetryRefusal;
    NothingGrows(w);
    MatchHolds(s, w, id);
    var m := w.matches[id];
    UnchangedKeeps(m);
    var refusal := RetryRefusal(m, now);
    MatchCommandSafe(s, w, actor, key, RetryJudgingCommand, id, Payload.Empty,
                     if refusal.Some? then Err(refusal.value) else Ok(m), EvaluationResponse(true));
  }

  // ----- background transactions on one match

  /** The rule a background step applies to its match. */
  ghost function BackgroundRule(s: Setting, m: Match, step: Step): Option<Result<Match>> {
    var c := s.config;
    match step
    case Mark(id, execution, now) => Some(Ok(MarkRunning(m, execution, now)))
    case Complete(id, execution, result, now) => Some(CompleteExecution(c, m, execution, result, now))
    case Advance(id, now) => Some(Ok(AdvanceCountdown(c, m, now)))
    case Attach(user, id, now) => Some(Connect(c, m, user, now))
    case Detach(user, id, active, lastSeen, now) => Some(Reconcile(c, m, user, active, lastSeen, now))
    case SweepDisconnects(id, now) => Some(EvaluateDisconnects(c, m, now))
    case SweepDeadline(id, material, userA, now) =>
      if m.challenge != AiMl then None else Some(ProcessAnswerDeadline(c, m, material, userA, now))
    case Claim(id, now) => var r := ClaimEvaluation(c, m, now); Some(if r.Some? then Ok(r.value) else Ok(m))
    case Fail(id, claim, retryable, budgetOpen, now) =>
      Some(Ok(PersistFailure(c, m, claim, retryable, budgetOpen, now)))
    case Succeed(id, claim, result, now) => Some(PersistSuccess(c, m, claim, result, now))
    case _ => None
  }

  lemma EngineRuleKeeps(s: Setting, m: Match, step: Step)
    requires MatchInv(m) && (step.Mark? || step.Complete? || step.Advance?)
    requires BackgroundRule(s, m, step).Some? && BackgroundRule(s, m, step).value.Ok?
    ensures Keeps(m, BackgroundRule(s, m, step).value.value)
  {
    hide Keeps, MatchInv, MarkRunning, CompleteExecution, AdvanceCountdown;
    match step
    case Mark(_, execution, now) => MarkRunningKeeps(m, execution, now);
    case Complete(_, execution, result, now) => CompleteKeeps(s.config, m, execution, result, now);
    case Advance(_, now) => AdvanceCountdownKeeps(s.config, m, now);
  }

  lemma PresenceRuleKeeps(s: Setting, m: Match, step: Step)
    requires MatchInv(m) && (step.Attach? || step.Detach? || step.SweepDisconnects?)
    requires BackgroundRule(s, m, step).Some? && BackgroundRule(s, m, step).value.Ok?
    ensures Keeps(m, BackgroundRule(s, m, step).value.value)
  {
    hide Keeps, MatchInv, Connect, Reconcile, EvaluateDisconnects;
    match step
    case Attach(user, _, now) => ConnectKeeps(s.config, m, user, now);
    case Detach(user, _, active, lastSeen, now) => ReconcileKeeps(s.config, m, user, active, lastSeen, now);
    case SweepDisconnects(_, now) => EvaluateDisconnectsKeeps(s.config, m, now);
  }

  lemma ArenaRuleKeeps(s: Setting, m: Match, step: Step)
    requires MatchInv(m) && (step.SweepDeadline? || step.Claim? || step.Fail? || step.Succeed?)
    requires BackgroundRule(s, m, step).Some? && BackgroundRule(s, m, step).value.Ok?
    ensures Keeps(m, BackgroundRule(s, m, step).value.value)
  {
    hide Keeps, MatchInv, ProcessAnswerDeadline, ClaimEvaluation, PersistFailure, PersistSuccess;
    match step
    case SweepDeadline(_, material, userA, now) => DeadlineKeeps(s.config, m, material, userA, now);
    case Claim(_, now) =>
      UnchangedKeeps(m);
      if ClaimEvaluation(s.config, m, now).Some? {
        ClaimKeeps(s.config, m, now);
      }
    case Fail(_, claim, retryable, budgetOpen, now) =>
      PersistFailureKeeps(s.config, m, claim, retryable, budgetOpen, now);
    case Succeed(_, claim, result, now) => PersistSuccessKeeps(s.config, m, claim, result, now);
  }

  lemma BackgroundRuleKeeps(s: Setting, m: Match, step: Step)
    requires MatchInv(m) && BackgroundRule(s, m, step).Some? && BackgroundRule(s, m, step).value.Ok?
    ensures Keeps(m, BackgroundRule(s, m, step).value.value)
  {
    hide Keeps, MatchInv, MarkRunning, CompleteExecution, AdvanceCountdown, Connect, Reconcile, EvaluateDisconnects,
      ProcessAnswerDeadline, ClaimEvaluation, PersistFailure, PersistSuccess;
    if step.Mark? || step.Complete? || step.Advance? {
      EngineRuleKeeps(s, m, step);
    } else if step.Attach? || step.Detach? || step.SweepDisconnects? {
      PresenceRuleKeeps(s, m, step);
    } else {
      ArenaRuleKeeps(s, m, step);
    }
  }

  lemma BackgroundStepSafe(s: Setting, w: World, step: Step)
    requires OnMatch(step) && step.id in w.matches && WorldInv(s, w)
    requires BackgroundRule(s, w.matches[step.id], step).Some?
    ensures Safe(s, w, MatchStep(s, w, step).0)
  {
    hide WorldInv, WorldGrows, MatchInv, BackgroundRule, MatchStep, Background;
    var m := w.matches[step.id];
    var r := BackgroundRule(s, m, step).value;
    MatchHolds(s, w, step.id);
    if r.Ok? {
      BackgroundRuleKeeps(s, m, step);
    }
    BackgroundSafe(s, w, step.id, r);
    BackgroundStepIs(s, w, step);
  }

  predicate OnMatch(step: Step) {
    !step.Register? && !step.CreateRoom? && !step.JoinRoom?
  }

  lemma BackgroundStepIs(s: Setting, w: World, step: Step)
    requires OnMatch(step) && step.id in w.matches && BackgroundRule(s, w.matches[step.id], step).Some?
    ensures MatchStep(s, w, step) == Background(w, step.id, BackgroundRule(s, w.matches[step.id], step).value)
  {
    hide Background, MarkRunning, CompleteExecution, AdvanceCountdown, Connect, Reconcile, EvaluateDisconnects,
      ProcessAnswerDeadline, ClaimEvaluation, PersistFailure, PersistSuccess;
  }

  // ----- any step, any run

  lemma MatchStepSafe(s: Setting, w: World, step: Step)
    requires CatalogOk(s) && OnMatch(step) && step.id in w.matches && WorldInv(s, w)
    ensures Safe(s, w, MatchStep(s, w, step).0)
  {
    hide CatalogOk, WorldInv, WorldGrows, Background, MatchCommand, CancelStep, StartStep, RematchStep, SubmissionStep,
      RetryStep, ClaimStep, SetLanguage, ReadyRule, ForfeitMatch, ProcessAnswerDeadline;
    NothingGrows(w);
    if BackgroundRule(s, w.matches[step.id], step).Some? {
      BackgroundStepSafe(s, w, step);
      return;
    }
    match step
    case ChooseLanguage(actor, key, id, language, now) => ChooseLanguageSafe(s, w, actor, key, id, language, now);
    case Ready(actor, key, id, ready, live, pick, now) => ReadyStepSafe(s, w, actor, key, id, ready, live, pick, now);
    case Cancel(actor, key, id, now) => CancelStepSafe(s, w, actor, key, id, now);
    case Start(actor, key, id, kind, source, receivedAt, sequence, now) =>
      StartStepSafe(s, w, actor, key, id, kind, source, receivedAt, sequence, now);
    case Leave(actor, key, id, now) => LeaveSafe(s, w, actor, key, id, now);
    case Rematch(actor, key, id, now) => RematchStepSafe(s, w, actor, key, id, now);
    case Submission(actor, key, id, answer, material, userA, now) =>
      SubmissionStepSafe(s, w, actor, key, id, answer, material, userA, now);
    case Retry(actor, key, id, now) => RetryStepSafe(s, w, actor, key, id, now);
    case _ =>
  }

  lemma CreateRoomStepSafe(s: Setting, w: World, actor: UserId, key: string, difficulty: Difficulty, mode: Mode,
                           challenge: Challenge, now: Time)
    requires WorldInv(s, w)
    ensures Safe(s, w, CreateRoomStep(w, actor, key, difficulty, mode, challenge, now).0)
  {
    hide WorldInv, WorldGrows, OpenRoom, Command;
    NothingGrows(w);
    if actor in w.profiles {
      OpenRoomSafe(s, w, actor, difficulty, mode, challenge, now);
      CommandSafe(s, w, actor, key, CreateRoomCommand, None, RoomOptions(difficulty, mode, challenge),
                  Ok(OpenRoom(w, actor, difficulty, mode, challenge, now)));
    }
  }

  lemma JoinRoomStepSafe(s: Setting, w: World, actor: UserId, key: string, room: RoomId, now: Time)
    requires WorldInv(s, w)
    ensures Safe(s, w, JoinRoomStep(w, actor, key, room, now).0)
  {
    hide WorldInv, WorldGrows, Seat, Command;
    NothingGrows(w);
    if actor in w.profiles && room in w.rooms && w.rooms[room].active in w.matches {
      var r := w.rooms[room];
      if r.mode == Duel && (r.closed ==> actor in r.members) {
        if Seat(w, actor, room, now).Ok? {
          SeatSafe(s, w, actor, room, now);
        }
        CommandSafe(s, w, actor, key, JoinRoomCommand, Some(r.active), RoomRef(room), Seat(w, actor, room, now));
      }
    }
  }

  lemma StepSafe(s: Setting, w: World, step: Step)
    requires CatalogOk(s) && WorldInv(s, w)
    ensures Safe(s, w, Exec(s, w, step).0)
  {
    hide CatalogOk, WorldInv, WorldGrows, RegisterProfile, CreateRoomStep, JoinRoomStep, MatchStep;
    match step
    case Register(user) => RegisterSafe(s, w, user);
    case CreateRoom(actor, key, difficulty, mode, challenge, now) =>
      CreateRoomStepSafe(s, w, actor, key, difficulty, mode, challenge, now);
    case JoinRoom(actor, key, room, now) => JoinRoomStepSafe(s, w, actor, key, room, now);
    case _ =>
      if step.id in w.matches {
        MatchStepSafe(s, w, step);
      } else {
        NothingGrows(w);
      }
  }

  lemma EmptyOk(s: Setting)
    ensures WorldInv(s, INITIAL)
  {
    assert Wins(map[]) == map[] && Losses(map[]) == map[];
  }

  lemma WorldGrowsTransitive(a: World, b: World, d: World)
    requires WorldGrows(a, b) && WorldGrows(b, d)
    ensures WorldGrows(a, d)
  {
    forall id | id in a.matches
      ensures id in d.matches && Grows(a.matches[id], d.matches[id])
    {
      GrowsTransitive(a.matches[id], b.matches[id], d.matches[id]);
    }
  }

  /** Every run keeps the tables consistent, from any consistent start, and only adds to them. */
  lemma {:induction false} RunSafe(s: Setting, w: World, steps: seq<Step>)
    requires CatalogOk(s) && WorldInv(s, w)
    ensures Safe(s, w, After(s, w, steps))
    decreases |steps|
  {
    hide CatalogOk, WorldInv, WorldGrows, Exec;
    if steps == [] {
      NothingGrows(w);
    } else {
      var next := Exec(s, w, steps[0]).0;
      StepSafe(s, w, steps[0]);
      RunSafe(s, next, steps[1..]);
      WorldGrowsTransitive(w, next, After(s, next, steps[1..]));
    }
  }

  ghost predicate Reachable(s: Setting, w: World) {
    CatalogOk(s) && exists steps :: w == After(s, INITIAL, steps)
  }

  lemma ReachableIsConsistent(s: Setting, w: World)
    requires Reachable(s, w)
    ensures WorldInv(s, w)
  {
    hide WorldInv, WorldGrows, Exec;
    var steps :| w == After(s, INITIAL, steps);
    EmptyOk(s);
    RunSafe(s, INITIAL, steps);
  }
}
