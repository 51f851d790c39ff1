/** What one step can do to one match: nothing, a background rule, a command's rule, a seat taken, or a successor. */
module StepEffects {
  import opened Domain
  import opened MatchTypes
  import opened MatchRules
  import opened ArenaRules
  import opened World
  import opened Rooms
  import opened WorldSafety
  import opened SafeRuns
  import AnswerText

  /** The rule a match command applies once its receipt is reserved. */
  ghost function CommandRule(s: Setting, w: World, step: Step): Option<Result<Match>>
    requires OnMatch(step) && step.id in w.matches
  {
    var m := w.matches[step.id];
    var c := s.config;
    match step
    case ChooseLanguage(actor, _, _, language, now) => Some(SetLanguage(m, actor, language, now))
    case Ready(actor, _, id, ready, live, pick, now) => Some(ReadyRule(s, w, id, actor, ready, live, pick, now))
    case Cancel(_, _, _, now) => Some(CancelMatch(m, now))
    case Start(actor, _, _, kind, _, receivedAt, sequence, now) =>
      Some(StartExecution(c, m, actor, w.nextId, kind, receivedAt, sequence, now))
    case Leave(actor, _, _, now) => Some(ForfeitMatch(c, m, actor, now))
    case Submission(actor, _, _, answer, material, userA, now) =>
      if m.challenge != AiMl then None
      else Some(SubmitAnswer(c, m, actor, AnswerText.Measured(answer, AnswerText.ANSWER_LIMITS).normalized, material,
                             userA, now))
    case _ => None
  }

  /** A match command from a stranger, or an answer over the limits, never reaches its rule. */
  ghost predicate CommandProduces(s: Setting, w: World, step: Step, n: Match)
    requires OnMatch(step) && step.id in w.matches
  {
    Produces(CommandRule(s, w, step), n)
    && (step.Leave? || step.Submission? ==> step.actor in w.matches[step.id].participants)
    && (step.Submission? ==> AnswerText.Measured(step.answer, AnswerText.ANSWER_LIMITS).violations == [])
  }

  ghost predicate Produces(rule: Option<Result<Match>>, n: Match) {
    rule == Some(Ok(n))
  }

  lemma CommitAt(w: World, id: MatchId, n: Match)
    requires id in w.matches
    ensures Commit(w, id, n).matches == w.matches[id := n]
  {
  }

  /** A command's world has the matches it started with, or those of its effect. */
  lemma CommandMatches(w: World, actor: UserId, key: string, command: CommandType, id: Option<MatchId>,
                       payload: Payload,
                       effect: Result<(World, Response)>)
    ensures
      var after := Command(w, actor, key, command, id, payload, effect).0;
      after.matches == w.matches || (effect.Ok? && after.matches == effect.value.0.matches)
  {
  }

  lemma MatchCommandMatches(w: World, actor: UserId, key: string, command: CommandType, id: MatchId, payload: Payload,
                            r: Result<Match>, response: Response)
    requires id in w.matches
    ensures
      var after := MatchCommand(w, actor, key, command, id, payload, r, response).0;
      after.matches == w.matches
      || (r.Ok? && actor in w.matches[id].participants && after.matches == w.matches[id := r.value])
  {
    hide Command;
    CommandMatches(w, actor, key, command, Some(id), payload, MatchEffect(w, id, r, response));
    if r.Ok? {
      CommitAt(w, id, r.value);
    }
  }

  lemma StartMatches(s: Setting, w: World, step: Step)
    requires step.Start? && step.id in w.matches
    ensures
      var after := MatchStep(s, w, step).0;
      var r := CommandRule(s, w, step).value;
      after.matches == w.matches || (r.Ok? && after.matches == w.matches[step.id := r.value])
  {
    hide Command, StartExecution;
    var spent := w.(nextId := w.nextId + 1);
    var r := CommandRule(s, w, step).value;
    CommandMatches(w, step.actor, step.key, ExecuteCommand(step.kind), Some(step.id), SourceText(step.source),
                   MatchEffect(spent, step.id, r, ExecutionResponse(w.nextId)));
    if r.Ok? {
      CommitAt(spent, step.id, r.value);
    }
  }

  lemma CancelMatches(s: Setting, w: World, step: Step)
    requires step.Cancel? && step.id in w.matches
    ensures
      var after := MatchStep(s, w, step).0;
      var r := CommandRule(s, w, step).value;
      after.matches == w.matches || (r.Ok? && after.matches == w.matches[step.id := r.value])
  {
    hide Command, CancelMatch;
    var r := CommandRule(s, w, step).value;
    CommandMatches(w, step.actor, step.key, CancelCommand, Some(step.id), Payload.Empty,
                   CancelEffect(w, step.id, step.now));
    if r.Ok? {
      CommitAt(w, step.id, r.value);
    }
  }

  /** A match step other than a rematch vote rewrites at most its own match row, by its own rule. */
  lemma StepRewritesOneMatch(s: Setting, w: World, step: Step)
    requires OnMatch(step) && step.id in w.matches && !step.Rematch?
    ensures
      var after := MatchStep(s, w, step).0;
      after.matches == w.matches
      || exists n :: (Produces(BackgroundRule(s, w.matches[step.id], step), n) || CommandProduces(s, w, step, n))
                     && after.matches == w.matches[step.id := n]
  {
    hide Command, MatchCommand, Commit, StartExecution, CancelMatch, SetLanguage, ReadyRule, ForfeitMatch, SubmitAnswer,
      AnswerText.Measured, RetryRefusal;
    var m := w.matches[step.id];
    var rule := CommandRule(s, w, step);
    if rule.Some? && rule.value.Ok? {
      assert Produces(rule, rule.value.value);
      assert !step.Submission? ==>
          (CommandProduces(s, w, step, rule.value.value) <==> (step.Leave? ==> step.actor in m.participants));
    }
    match step {
      case ChooseLanguage(actor, key, id, language, now) =>
        MatchCommandMatches(w, actor, key, SetLanguageCommand, id, LanguageChoice(language),
                            SetLanguage(m, actor, language, now), Done);
      case Ready(actor, key, id, ready, live, pick, now) =>
        MatchCommandMatches(w, actor, key, SetReadyCommand, id, ReadyChoice(ready),
                            ReadyRule(s, w, id, actor, ready, live, pick, now), Done);
      case Cancel(_, _, _, _) => CancelMatches(s, w, step);
      case Start(_, _, _, _, _, _, _, _) => StartMatches(s, w, step);
      case Leave(actor, key, id, now) =>
        MatchCommandMatches(w, actor, key, ForfeitCommand, id, Payload.Empty, ForfeitMatch(s.config, m, actor, now),
                            Done);
      case Submission(actor, key, id, answer, material, userA, now) => SubmissionMatches(s, w, step);
      case Retry(actor, key, id, now) => RetryMatches(s, w, step);
      case _ => BackgroundMatches(s, w, step);
    }
  }

  lemma SubmissionMatches(s: Setting, w: World, step: Step)
    requires step.Submission? && step.id in w.matches
    ensures
      var after := MatchStep(s, w, step).0;
      after.matches == w.matches
      || exists n :: CommandProduces(s, w, step, n) && after.matches == w.matches[step.id := n]
  {
    hide MatchCommand, SubmitAnswer, AnswerText.Measured;
    var m := w.matches[step.id];
    if m.challenge == AiMl && AnswerText.Measured(step.answer, AnswerText.ANSWER_LIMITS).violations == [] {
      var text := AnswerText.Measured(step.answer, AnswerText.ANSWER_LIMITS).normalized;
      var r := SubmitAnswer(s.config, m, step.actor, text, step.material, step.userA, step.now);
      MatchCommandMatches(w, step.actor, step.key, SubmitAnswerCommand, step.id, AnswerBody(text), r,
                          EvaluationResponse(r.Ok? && r.value.state == State.Judging));
      if r.Ok? && step.actor in m.participants {
        assert CommandProduces(s, w, step, r.value);
      }
    }
  }

  lemma RetryMatches(s: Setting, w: World, step: Step)
    requires step.Retry? && step.id in w.matches
    ensures MatchStep(s, w, step).0.matches == w.matches
  {
    hide MatchCommand, RetryRefusal;
    var m := w.matches[step.id];
    var refusal := RetryRefusal(m, step.now);
    MatchCommandMatches(w, step.actor, step.key, RetryJudgingCommand, step.id, Payload.Empty,
                        if refusal.Some? then Err(refusal.value) else Ok(m), EvaluationResponse(true));
  }

  lemma BackgroundMatches(s: Setting, w: World, step: Step)
    requires OnMatch(step) && step.id in w.matches
    requires BackgroundRule(s, w.matches[step.id], step).Some? || step.SweepDeadline?
    ensures
      var after := MatchStep(s, w, step).0;
      after.matches == w.matches
      || exists n ::
           Produces(BackgroundRule(s, w.matches[step.id], step), n) && after.matches == w.matches[step.id := n]
  {
    hide MarkRunning, CompleteExecution, AdvanceCountdown, Connect, Reconcile, EvaluateDisconnects,
      ProcessAnswerDeadline, ClaimEvaluation, PersistFailure, PersistSuccess;
    var m := w.matches[step.id];
    if BackgroundRule(s, m, step).Some? {
      BackgroundStepIs(s, w, step);
      var r := BackgroundRule(s, m, step).value;
      if r.Ok? {
        CommitAt(w, step.id, r.value);
        assert Produces(BackgroundRule(s, m, step), r.value);
      }
    }
  }

  // ----- rooms and rematches

  /** Seats, votes, the successor and the event log may differ; nothing else does. */
  predicate SamePlay(m: Match, n: Match) {
    n == m.(participants := n.participants, votes := n.votes, rematchCreated := n.rematchCreated,
            version := n.version, events := n.events)
  }

  predicate SameStates(matches: Matches, after: Matches) {
    forall id {:trigger id in matches} :: id in matches ==> id in after && SamePlay(matches[id], after[id])
  }

  lemma JoinKeepsStates(w: World, actor: UserId, key: string, room: RoomId, now: Time)
    ensures SameStates(w.matches, JoinRoomStep(w, actor, key, room, now).0.matches)
  {
    hide Command;
    if room in w.rooms && w.rooms[room].active in w.matches {
      CommandMatches(w, actor, key, JoinRoomCommand, Some(w.rooms[room].active), RoomRef(room),
                     Seat(w, actor, room, now));
    }
  }

  lemma CreateKeepsStates(w: World, actor: UserId, key: string, difficulty: Difficulty, mode: Mode,
                          challenge: Challenge, now: Time)
    requires IdsOk(w.rooms, w.matches, w.nextId)
    ensures SameStates(w.matches, CreateRoomStep(w, actor, key, difficulty, mode, challenge, now).0.matches)
  {
    hide Command, FirstRound, HostedBy;
    CommandMatches(w, actor, key, CreateRoomCommand, None, RoomOptions(difficulty, mode, challenge),
                   Ok(OpenRoom(w, actor, difficulty, mode, challenge, now)));
  }

  lemma RowKeepsStates(matches: Matches, id: MatchId, n: Match)
    requires id in matches ==> SamePlay(matches[id], n)
    ensures SameStates(matches, matches[id := n])
  {
  }

  lemma NextRoundStates(w: World, id: MatchId, voted: Match, now: Time)
    requires id in w.matches && w.nextId !in w.matches && voted.roomId in w.rooms && SamePlay(w.matches[id], voted)
    ensures SameStates(w.matches, OpenNextRound(w, id, voted, now).0.matches)
  {
    hide NextRound;
    RowKeepsStates(w.matches, id, voted);
    var linked := w.matches[id := LinkedTo(voted, w.nextId, now)];
    RowKeepsStates(w.matches, id, LinkedTo(voted, w.nextId, now));
    RowKeepsStates(linked, w.nextId, NextRound(w.rooms[voted.roomId], id, voted, now));
  }

  lemma RematchEffectStates(w: World, actor: UserId, id: MatchId, now: Time)
    requires id in w.matches && w.nextId !in w.matches && RematchEffect(w, actor, id, now).Ok?
    ensures SameStates(w.matches, RematchEffect(w, actor, id, now).value.0.matches)
  {
    hide OpenNextRound;
    var m := w.matches[id];
    var voted := Vote(m, actor, now);
    RowKeepsStates(w.matches, id, voted);
    if |voted.votes| == 2 && m.roomId in w.rooms {
      NextRoundStates(w, id, voted, now);
    }
  }

  lemma RematchKeepsStates(w: World, actor: UserId, key: string, id: MatchId, now: Time)
    requires id in w.matches && IdsOk(w.rooms, w.matches, w.nextId)
    ensures SameStates(w.matches, RematchStep(w, actor, key, id, now).0.matches)
  {
    hide Command, RematchEffect;
    CommandMatches(w, actor, key, RematchCommand, Some(id), Payload.Empty, RematchEffect(w, actor, id, now));
    if RematchEffect(w, actor, id, now).Ok? {
      RematchEffectStates(w, actor, id, now);
    }
  }

  lemma SameStatesReflexive(matches: Matches)
    ensures SameStates(matches, matches)
  {
  }

  lemma RematchIs(s: Setting, w: World, step: Step)
    requires step.Rematch? && step.id in w.matches
    ensures MatchStep(s, w, step) == RematchStep(w, step.actor, step.key, step.id, step.now)
  {
    hide RematchStep;
  }

  lemma OtherStepsKeepStates(s: Setting, w: World, step: Step)
    requires !OnMatch(step) || step.Rematch? || step.id !in w.matches
    requires IdsOk(w.rooms, w.matches, w.nextId)
    ensures SameStates(w.matches, Exec(s, w, step).0.matches)
  {
    hide CreateRoomStep, JoinRoomStep, RematchStep, MatchStep, SameStates;
    SameStatesReflexive(w.matches);
    match step {
      case CreateRoom(actor, key, difficulty, mode, challenge, now) =>
        CreateKeepsStates(w, actor, key, difficulty, mode, challenge, now);
      case JoinRoom(actor, key, room, now) => JoinKeepsStates(w, actor, key, room, now);
      case Rematch(actor, key, id, now) =>
        if id in w.matches {
          RematchIs(s, w, step);
          RematchKeepsStates(w, actor, key, id, now);
        }
      case _ =>
    }
  }

  lemma ConsistentIds(s: Setting, w: World)
    requires WorldInv(s, w)
    ensures IdsOk(w.rooms, w.matches, w.nextId)
  {
  }

  lemma ExecIsMatchStep(s: Setting, w: World, step: Step)
    requires OnMatch(step) && step.id in w.matches
    ensures Exec(s, w, step) == MatchStep(s, w, step)
  {
    hide MatchStep;
  }
}
