/** Idempotent commands: each (actor, key) takes effect at most once in any run, a replay changes no table, and it is
    answered with the first response exactly when it repeats the first request. */
module Commands {
  import opened Domain
  import opened MatchTypes
  import opened MatchRules
  import opened ArenaRules
  import opened World
  import opened MatchInvariants
  import opened Rooms
  import opened Rotation
  import opened WorldSafety
  import opened SafeRuns
  import AnswerText

  /** The (actor, key) of a client command; background transactions carry none. */
  function KeyOf(step: Step): Option<CommandKey> {
    match step
    case CreateRoom(actor, key, _, _, _, _) => Some(CommandKey(actor, key))
    case JoinRoom(actor, key, _, _) => Some(CommandKey(actor, key))
    case ChooseLanguage(actor, key, _, _, _) => Some(CommandKey(actor, key))
    case Ready(actor, key, _, _, _, _, _) => Some(CommandKey(actor, key))
    case Cancel(actor, key, _, _) => Some(CommandKey(actor, key))
    case Start(actor, key, _, _, _, _, _, _) => Some(CommandKey(actor, key))
    case Leave(actor, key, _, _) => Some(CommandKey(actor, key))
    case Rematch(actor, key, _, _) => Some(CommandKey(actor, key))
    case Submission(actor, key, _, _, _, _, _) => Some(CommandKey(actor, key))
    case Retry(actor, key, _, _) => Some(CommandKey(actor, key))
    case _ => None
  }

  /** What a receipt remembers of a command. */
  datatype Request = Request(command: CommandType, matchId: Option<MatchId>, payload: Payload)

  /** A join is on whatever match is the room's active one at the time. */
  function RequestOf(w: World, step: Step): Request
    requires KeyOf(step).Some?
  {
    match step
    case CreateRoom(_, _, difficulty, mode, challenge, _) =>
      Request(CreateRoomCommand, None, RoomOptions(difficulty, mode, challenge))
    case JoinRoom(_, _, room, _) =>
      Request(JoinRoomCommand, if room in w.rooms then Some(w.rooms[room].active) else None, RoomRef(room))
    case ChooseLanguage(_, _, id, language, _) => Request(SetLanguageCommand, Some(id), LanguageChoice(language))
    case Ready(_, _, id, ready, _, _, _) => Request(SetReadyCommand, Some(id), ReadyChoice(ready))
    case Cancel(_, _, id, _) => Request(CancelCommand, Some(id), Payload.Empty)
    case Start(_, _, id, kind, source, _, _, _) => Request(ExecuteCommand(kind), Some(id), SourceText(source))
    case Leave(_, _, id, _) => Request(ForfeitCommand, Some(id), Payload.Empty)
    case Rematch(_, _, id, _) => Request(RematchCommand, Some(id), Payload.Empty)
    case Submission(_, _, id, answer, _, _, _) =>
      Request(SubmitAnswerCommand, Some(id),
              AnswerBody(AnswerText.Measured(answer, AnswerText.ANSWER_LIMITS).normalized))
    case Retry(_, _, id, _) => Request(RetryJudgingCommand, Some(id), Payload.Empty)
  }

  /** The checks a command makes before it looks at its receipt. */
  predicate Admitted(s: Setting, w: World, step: Step)
    requires KeyOf(step).Some?
  {
    if step.CreateRoom? then step.actor in w.profiles
    else if step.JoinRoom? then step.actor in w.profiles && MayJoin(w, step.actor, step.room)
    else step.id in w.matches && MayAct(s, w.matches[step.id], step)
  }

  predicate MayJoin(w: World, actor: UserId, room: RoomId) {
    && room in w.rooms && w.rooms[room].active in w.matches
    && w.rooms[room].mode == Duel && w.rooms[room].host != actor
    && (w.rooms[room].closed ==> actor in w.rooms[room].members)
  }

  predicate MayAct(s: Setting, m: Match, step: Step)
    requires KeyOf(step).Some? && !step.CreateRoom? && !step.JoinRoom?
  {
    && step.actor in m.participants
    && (step.Cancel? ==> m.participants[step.actor].slot == 1)
    && (step.Start? ==> Utf8Bytes(step.source) <= s.config.maxSourceBytes && m.challenge == Coding)
    && (step.Rematch? ==> m.mode == Duel)
    && (step.Submission? ==>
          AnswerText.Measured(step.answer, AnswerText.ANSWER_LIMITS).violations == [] && m.challenge == AiMl)
    && (step.Retry? ==> m.challenge == AiMl)
  }

  predicate KeepsReceipts(w: World, effect: Result<(World, Response)>) {
    effect.Ok? ==> effect.value.0.receipts == w.receipts
  }

  /** reserveCommand and completeCommand for a request, around some effect. */
  function Issued(w: World, slot: CommandKey, request: Request, effect: Result<(World, Response)>): (World, Reply) {
    Command(w, slot.actor, slot.key, request.command, request.matchId, request.payload, effect)
  }

  /** An admitted command is its request issued under its key; any other is refused without effect. */
  ghost predicate Named(s: Setting, w: World, step: Step, outcome: (World, Reply))
    requires KeyOf(step).Some?
  {
    if Admitted(s, w, step)
    then
      exists effect ::
        KeepsReceipts(w, effect) && outcome == Issued(w, KeyOf(step).value, RequestOf(w, step), effect)
    else outcome.0 == w && outcome.1.Refused?
  }

  lemma EffectNames(s: Setting, w: World, step: Step, outcome: (World, Reply), effect: Result<(World, Response)>)
    requires KeyOf(step).Some? && KeepsReceipts(w, effect)
    requires if Admitted(s, w, step) then outcome == Issued(w, KeyOf(step).value, RequestOf(w, step), effect)
             else outcome.0 == w && outcome.1.Refused?
    ensures Named(s, w, step, outcome)
  {
  }

  lemma MatchCommandNamed(s: Setting, w: World, step: Step, r: Result<Match>, response: Response)
    requires KeyOf(step).Some? && !step.CreateRoom? && !step.JoinRoom? && step.id in w.matches
    requires RequestOf(w, step).matchId == Some(step.id)
    requires Admitted(s, w, step) <==> step.actor in w.matches[step.id].participants
    ensures
      var request := RequestOf(w, step);
      Named(s, w, step, MatchCommand(w, step.actor, step.key, request.command, step.id, request.payload, r, response))
  {
    hide Command, Admitted, RequestOf;
    var request := RequestOf(w, step);
    var outcome := MatchCommand(w, step.actor, step.key, request.command, step.id, request.payload, r, response);
    EffectNames(s, w, step, outcome, MatchEffect(w, step.id, r, response));
  }

  lemma RoomCommandNamed(s: Setting, w: World, step: Step)
    requires step.CreateRoom? || step.JoinRoom?
    ensures Named(s, w, step, Exec(s, w, step))
  {
    hide Command, FirstRound, HostedBy, JoinMatch;
    match step {
      case CreateRoom(actor, key, difficulty, mode, challenge, now) =>
        EffectNames(s, w, step, Exec(s, w, step), Ok(OpenRoom(w, actor, difficulty, mode, challenge, now)));
      case JoinRoom(actor, key, room, now) =>
        var effect := if room in w.rooms && w.rooms[room].active in w.matches then Seat(w, actor, room, now)
          else Err(Internal);
        EffectNames(s, w, step, Exec(s, w, step), effect);
    }
  }

  lemma StartNamed(s: Setting, w: World, step: Step)
    requires step.Start? && step.id in w.matches
    ensures Named(s, w, step, MatchStep(s, w, step))
  {
    hide Command, StartExecution;
    var m := w.matches[step.id];
    var r := StartExecution(s.config, m, step.actor, w.nextId, step.kind, step.receivedAt, step.sequence, step.now);
    var effect := MatchEffect(w.(nextId := w.nextId + 1), step.id, r, ExecutionResponse(w.nextId));
    BadKeyIsRefused(w, KeyOf(step).value, RequestOf(w, step), effect);
    EffectNames(s, w, step, MatchStep(s, w, step), effect);
  }

  lemma BadKeyIsRefused(w: World, slot: CommandKey, request: Request, effect: Result<(World, Response)>)
    ensures !KeyOk(slot.key) ==> Issued(w, slot, request, effect) == (w, Refused(IdempotencyKeyRequired))
  {
  }

  lemma VoteNamed(s: Setting, w: World, step: Step)
    requires (step.Rematch? || step.Cancel?) && step.id in w.matches
    ensures Named(s, w, step, MatchStep(s, w, step))
  {
    hide Command, Vote, NextRound, LinkedTo, CancelMatch;
    var effect := if step.Rematch? then RematchEffect(w, step.actor, step.id, step.now)
      else CancelEffect(w, step.id, step.now);
    EffectNames(s, w, step, MatchStep(s, w, step), effect);
  }

  lemma SubmissionNamed(s: Setting, w: World, step: Step)
    requires step.Submission? && step.id in w.matches
    ensures Named(s, w, step, MatchStep(s, w, step))
  {
    hide Command, SubmitAnswer, AnswerText.Measured;
    var text := AnswerText.Measured(step.answer, AnswerText.ANSWER_LIMITS).normalized;
    var r := SubmitAnswer(s.config, w.matches[step.id], step.actor, text, step.material, step.userA, step.now);
    var effect := MatchEffect(w, step.id, r, EvaluationResponse(r.Ok? && r.value.state == State.Judging));
    BadKeyIsRefused(w, KeyOf(step).value, RequestOf(w, step), effect);
    EffectNames(s, w, step, MatchStep(s, w, step), effect);
  }

  lemma RetryNamed(s: Setting, w: World, step: Step)
    requires step.Retry? && step.id in w.matches
    ensures Named(s, w, step, MatchStep(s, w, step))
  {
    hide Command, RetryRefusal;
    var m := w.matches[step.id];
    var refusal := RetryRefusal(m, step.now);
    var r := if refusal.Some? then Err(refusal.value) else Ok(m);
    EffectNames(s, w, step, MatchStep(s, w, step), MatchEffect(w, step.id, r, EvaluationResponse(true)));
  }

  lemma PlayerCommandNamed(s: Setting, w: World, step: Step)
    requires (step.ChooseLanguage? || step.Ready? || step.Leave?) && step.id in w.matches
    ensures Named(s, w, step, MatchStep(s, w, step))
  {
    hide MatchCommand, Named, SetLanguage, ReadyRule, ForfeitMatch;
    var m := w.matches[step.id];
    match step {
      case ChooseLanguage(actor, _, _, language, now) =>
        MatchCommandNamed(s, w, step, SetLanguage(m, actor, language, now), Done);
      case Ready(actor, _, id, ready, live, pick, now) =>
        MatchCommandNamed(s, w, step, ReadyRule(s, w, id, actor, ready, live, pick, now), Done);
      case Leave(actor, _, _, now) => MatchCommandNamed(s, w, step, ForfeitMatch(s.config, m, actor, now), Done);
    }
  }

  lemma StepNamed(s: Setting, w: World, step: Step)
    requires KeyOf(step).Some?
    ensures Named(s, w, step, Exec(s, w, step))
  {
    hide MatchStep, CreateRoomStep, JoinRoomStep;
    if step.CreateRoom? || step.JoinRoom? {
      RoomCommandNamed(s, w, step);
    } else if step.id in w.matches {
      hide Named;
      if step.Start? {
        StartNamed(s, w, step);
      } else if step.Rematch? || step.Cancel? {
        VoteNamed(s, w, step);
      } else if step.Submission? {
        SubmissionNamed(s, w, step);
      } else if step.Retry? {
        RetryNamed(s, w, step);
      } else {
        PlayerCommandNamed(s, w, step);
      }
    }
  }

  // ----- a command and its receipt

  function ReceiptFor(request: Request, response: Option<Response>): CommandReceipt {
    CommandReceipt(request.command, request.matchId, request.payload, response)
  }

  /** How a command's transaction relates to its receipt: applied, it stores exactly its request and response; replayed,
      it repeats a stored request; and where another request is stored, it is refused. */
  predicate Contract(w: World, slot: CommandKey, request: Request, outcome: (World, Reply)) {
    var after, reply := outcome.0, outcome.1;
    && !reply.Ran?
    && (!reply.Applied? ==> after == w)
    && (reply.Applied? ==>
          slot !in w.receipts && after.receipts == w.receipts[slot := ReceiptFor(request, Some(reply.response))])
    && (reply.Replayed? ==> slot in w.receipts && w.receipts[slot] == ReceiptFor(request, reply.stored))
    && (slot in w.receipts && w.receipts[slot] != ReceiptFor(request, w.receipts[slot].response) ==> reply.Refused?)
  }

  /** Every client command, whatever it does, keeps the contract. */
  lemma EveryCommandKeepsContract(s: Setting, w: World, step: Step)
    requires KeyOf(step).Some?
    ensures Contract(w, KeyOf(step).value, RequestOf(w, step), Exec(s, w, step))
  {
    hide Exec, Admitted, RequestOf;
    StepNamed(s, w, step);
  }

  lemma BackgroundKeepsReceipts(s: Setting, w: World, step: Step)
    requires KeyOf(step).None?
    ensures Exec(s, w, step).0.receipts == w.receipts && !Exec(s, w, step).1.Applied?
  {
    hide MarkRunning, CompleteExecution, AdvanceCountdown, Connect, Reconcile, EvaluateDisconnects,
      ProcessAnswerDeadline, ClaimEvaluation, PersistFailure, PersistSuccess;
    if OnMatch(step) && step.id in w.matches && BackgroundRule(s, w.matches[step.id], step).Some? {
      BackgroundStepIs(s, w, step);
    }
  }

  /** Someone whose join was applied sits in the room, which stays as it was but for that. */
  lemma JoinedIsMember(s: Setting, w: World, step: Step)
    requires step.JoinRoom? && Exec(s, w, step).1.Applied?
    ensures
      var after := Exec(s, w, step).0;
      && step.room in w.rooms && step.room in after.rooms
      && after.rooms[step.room] == w.rooms[step.room].(members := after.rooms[step.room].members)
      && step.actor in after.rooms[step.room].members && step.actor in after.profiles
  {
    hide JoinMatch;
  }

  // ----- checks once passed stay passed

  predicate SameChecks(step: Step, replay: Step)
    requires KeyOf(step).Some? && !step.CreateRoom? && !step.JoinRoom?
    requires KeyOf(replay).Some? && !replay.CreateRoom? && !replay.JoinRoom?
  {
    && replay.id == step.id && replay.actor == step.actor
    && (replay.Cancel? ==> step.Cancel?) && (replay.Rematch? ==> step.Rematch?) && (replay.Retry? ==> step.Retry?)
    && (replay.Start? ==> step.Start? && replay.source == step.source)
    && (replay.Submission? ==>
          step.Submission?
          && AnswerText.Measured(replay.answer, AnswerText.ANSWER_LIMITS)
          == AnswerText.Measured(step.answer, AnswerText.ANSWER_LIMITS))
  }

  /** Two commands with the same request pass the same checks. */
  lemma SameRequestSameChecks(w: World, v: World, step: Step, replay: Step)
    requires KeyOf(step).Some? && !step.CreateRoom? && !step.JoinRoom? && KeyOf(replay) == KeyOf(step)
    requires RequestOf(v, replay) == RequestOf(w, step)
    ensures !replay.CreateRoom? && !replay.JoinRoom? && SameChecks(step, replay)
  {
    hide AnswerText.Measured;
    if step.Submission? {
      SameTextSameMeasure(step.answer, replay.answer);
    }
  }

  lemma ActorStillMayAct(s: Setting, w: World, v: World, step: Step, replay: Step)
    requires KeyOf(step).Some? && !step.CreateRoom? && !step.JoinRoom? && KeyOf(replay) == KeyOf(step)
    requires step.id in w.matches && step.id in v.matches && Grows(w.matches[step.id], v.matches[step.id])
    requires MayAct(s, w.matches[step.id], step) && RequestOf(v, replay) == RequestOf(w, step)
    ensures Admitted(s, v, replay)
  {
    ActorRemains(w.matches[step.id], v.matches[step.id], step.actor);
    SameRequestSameChecks(w, v, step, replay);
    hide Grows, AnswerText.Measured, Utf8Bytes, RequestOf;
  }

  lemma ActorRemains(m: Match, n: Match, actor: UserId)
    requires Grows(m, n) && actor in m.participants
    ensures actor in n.participants && n.participants[actor].slot == m.participants[actor].slot
    ensures n.mode == m.mode && n.challenge == m.challenge
  {
    hide ExecutionsEvolve, AnswersEvolve, EvaluationEvolves, ResultFrozen;
  }

  lemma SameTextSameMeasure(a: string, b: string)
    requires AnswerText.Measured(a, AnswerText.ANSWER_LIMITS).normalized
             == AnswerText.Measured(b, AnswerText.ANSWER_LIMITS).normalized
    ensures AnswerText.Measured(a, AnswerText.ANSWER_LIMITS) == AnswerText.Measured(b, AnswerText.ANSWER_LIMITS)
  {
    hide AnswerText.Normalize, AnswerText.Violations;
  }

  lemma JoinerMayRejoin(s: Setting, w: World, v: World, step: Step, replay: Step)
    requires step.JoinRoom? && replay.JoinRoom? && replay.actor == step.actor && replay.room == step.room
    requires Exec(s, w, step).1.Applied? && WorldGrows(Exec(s, w, step).0, v) && WorldInv(s, v)
    ensures Admitted(s, v, replay)
  {
    hide Exec, WorldInv, MatchesGrow;
    StepNamed(s, w, step);
    JoinedIsMember(s, w, step);
    RoomIsPlaying(s, v, step.room);
  }

  lemma StillAdmitted(s: Setting, w: World, v: World, step: Step, replay: Step)
    requires KeyOf(step).Some? && KeyOf(replay) == KeyOf(step) && WorldInv(s, v)
    requires Exec(s, w, step).1.Applied? && WorldGrows(w, v) && WorldGrows(Exec(s, w, step).0, v)
    requires RequestOf(v, replay) == RequestOf(w, step)
    ensures Admitted(s, v, replay)
  {
    hide WorldInv, Exec, AnswerText.Measured, Grows, MayAct;
    StepNamed(s, w, step);
    if step.JoinRoom? {
      JoinerMayRejoin(s, w, v, step, replay);
    } else if !step.CreateRoom? {
      ActorStillMayAct(s, w, v, step, replay);
    }
  }

  lemma RoomIsPlaying(s: Setting, w: World, room: RoomId)
    requires WorldInv(s, w) && room in w.rooms
    ensures w.rooms[room].active in w.matches
  {
    ActiveMatch(w.rooms, w.matches, room);
  }

  lemma RepeatIsReplayed(s: Setting, w: World, step: Step)
    requires KeyOf(step).Some? && Admitted(s, w, step) && KeyOk(KeyOf(step).value.key)
    requires KeyOf(step).value in w.receipts
    requires w.receipts[KeyOf(step).value] == ReceiptFor(RequestOf(w, step), w.receipts[KeyOf(step).value].response)
    ensures Exec(s, w, step).1 == Replayed(w.receipts[KeyOf(step).value].response)
  {
    hide Exec, Admitted, RequestOf;
    StepNamed(s, w, step);
  }

  lemma AppliedKeyIsOk(s: Setting, w: World, step: Step)
    requires KeyOf(step).Some? && Exec(s, w, step).1.Applied?
    ensures KeyOk(KeyOf(step).value.key)
  {
    hide Exec, Admitted, RequestOf;
    StepNamed(s, w, step);
  }

  // ----- runs

  /** Once a command was applied, a replay under its key in any later state changes no table at all: the same request is
      answered with the first response, any other is refused. */
  lemma ReplayChangesNothing(s: Setting, w: World, step: Step, later: seq<Step>, replay: Step)
    requires CatalogOk(s) && WorldInv(s, w) && KeyOf(step).Some? && Exec(s, w, step).1.Applied?
    requires KeyOf(replay) == KeyOf(step)
    ensures
      var v := After(s, Exec(s, w, step).0, later);
      var (after, reply) := Exec(s, v, replay);
      && after == v
      && (if RequestOf(v, replay) == RequestOf(w, step) then reply == Replayed(Some(Exec(s, w, step).1.response))
          else reply.Refused?)
  {
    hide WorldInv, CatalogOk, Exec, WorldGrows, Admitted, RequestOf;
    var first := Exec(s, w, step).0;
    var v := After(s, first, later);
    StepSafe(s, w, step);
    EveryCommandKeepsContract(s, w, step);
    AppliedKeyIsOk(s, w, step);
    RunSafe(s, first, later);
    ReceiptStays(first, v, KeyOf(step).value);
    EveryCommandKeepsContract(s, v, replay);
    if RequestOf(v, replay) == RequestOf(w, step) {
      WorldGrowsTransitive(w, first, v);
      StillAdmitted(s, w, v, step, replay);
      RepeatIsReplayed(s, v, replay);
    }
  }

  lemma ReceiptStays(w: World, v: World, slot: CommandKey)
    requires WorldGrows(w, v) && slot in w.receipts
    ensures slot in v.receipts && v.receipts[slot] == w.receipts[slot]
  {
  }

  /** The steps of a run that applied the command of a given (actor, key). */
  ghost function Applications(s: Setting, w: World, steps: seq<Step>, slot: CommandKey): nat
    decreases |steps|
  {
    if steps == [] then 0
    else
      var (next, reply) := Exec(s, w, steps[0]);
      (if KeyOf(steps[0]) == Some(slot) && reply.Applied? then 1 else 0) + Applications(s, next, steps[1..], slot)
  }

  lemma {:induction false} AppliedAtMostOnce(s: Setting, w: World, steps: seq<Step>, slot: CommandKey)
    ensures Applications(s, w, steps, slot) <= 1
    ensures slot in w.receipts ==> Applications(s, w, steps, slot) == 0
    decreases |steps|
  {
    hide Exec, RequestOf;
    if steps != [] {
      var next := Exec(s, w, steps[0]).0;
      if KeyOf(steps[0]).Some? {
        EveryCommandKeepsContract(s, w, steps[0]);
      } else {
        BackgroundKeepsReceipts(s, w, steps[0]);
      }
      AppliedAtMostOnce(s, next, steps[1..], slot);
    }
  }

  /** Joining a room is idempotent only until the room moves on: the receipt names the match joined, so the same key
      replays exactly while that match is still the room's active one, and is refused after a rematch. */
  lemma JoinReplaysUntilRematch(s: Setting, w: World, actor: UserId, key: string, room: RoomId, now: Time, at: Time,
                                later: seq<Step>)
    requires CatalogOk(s) && WorldInv(s, w) && Exec(s, w, JoinRoom(actor, key, room, now)).1.Applied?
    ensures
      var v := After(s, Exec(s, w, JoinRoom(actor, key, room, now)).0, later);
      var reply := Exec(s, v, JoinRoom(actor, key, room, at)).1;
      && room in w.rooms && room in v.rooms
      && (reply.Replayed? <==> v.rooms[room].active == w.rooms[room].active)
      && (!reply.Replayed? ==> reply == Refused(IdempotencyConflict))
  {
    hide WorldInv, CatalogOk, Exec, Admitted, MatchesGrow, ReceiptsGrow;
    var step, replay := JoinRoom(actor, key, room, now), JoinRoom(actor, key, room, at);
    var first := Exec(s, w, step).0;
    var v := After(s, first, later);
    JoinedIsMember(s, w, step);
    StepSafe(s, w, step);
    RunSafe(s, first, later);
    ReplayChangesNothing(s, w, step, later, replay);
    JoinerMayRejoin(s, w, v, step, replay);
    AppliedKeyIsOk(s, w, step);
    EveryCommandKeepsContract(s, w, step);
    ReceiptStays(first, v, KeyOf(step).value);
    StepNamed(s, v, replay);
  }
}
