/** The winner fixed online, while submissions may still be in flight, against the winner an offline judge would pick
    once everything is in. */
module Winners {
  import opened Domain
  import opened MatchTypes
  import opened StateMachine
  import opened MatchRules
  import opened MatchInvariants
  import opened MatchSafety
  import opened ArenaRules
  import opened ArenaSafety
  import opened World
  import opened WorldSafety
  import opened WorldSteps
  import opened SafeRuns
  import opened StepEffects
  import AnswerText

  // ----- the offline reference

  /** The author of the least accepted submission among all persisted executions. */
  ghost function OfflineWinner(executions: Executions): Option<UserId> {
    if exists id :: IsLeastAccepted(executions, id) then
      var id :| IsLeastAccepted(executions, id);
      Some(executions[id].user)
    else None
  }

  type Outcomes = map<ExecutionId, RunnerResult>

  predicate Covers(executions: Executions, results: Outcomes) {
    forall id :: id in executions && Inflight(executions[id]) ==> id in results
  }

  /** What the table becomes if every in-flight execution comes back with the given result. */
  function DrainedWith(executions: Executions, results: Outcomes): Executions
    requires Covers(executions, results)
  {
    map id | id in executions ::
      if Inflight(executions[id]) then executions[id].(status := Completed(results[id])) else executions[id]
  }

  lemma DrainKeepsSequences(executions: Executions, results: Outcomes)
    requires DistinctSequences(executions) && Covers(executions, results)
    ensures DistinctSequences(DrainedWith(executions, results))
  {
  }

  lemma TheOfflineWinner(executions: Executions, id: ExecutionId)
    requires DistinctSequences(executions) && IsLeastAccepted(executions, id)
    ensures OfflineWinner(executions) == Some(executions[id].user)
  {
    LeastAcceptedExists(executions);
  }

  /** A decided submission stays the least accepted one whatever the rest of the queue comes back with. */
  lemma DecisionSurvivesDrain(executions: Executions, results: Outcomes, id: ExecutionId)
    requires Covers(executions, results) && Decides(executions, id)
    ensures Decides(DrainedWith(executions, results), id)
  {
    var after := DrainedWith(executions, results);
    forall other | other in after && AcceptedSubmit(after[other]) && other != id
      ensures Before(Receipt(after[id]), Receipt(after[other]))
    {
      assert other in executions && !Blocks(executions[other], executions[id].receivedAt);
    }
    forall other | other in after
      ensures !Blocks(after[other], after[id].receivedAt)
    {
    }
  }

  /** Early equals offline: a match ended by acceptance has the winner an offline judge would name after any results
      whatsoever for the executions still in flight. */
  lemma EarlyWinnerIsOfflineWinner(m: Match, results: Outcomes)
    requires MatchInv(m) && m.endReason == Some(Accepted) && Covers(m.executions, results)
    ensures m.winner.Some?
    ensures m.winner == OfflineWinner(DrainedWith(m.executions, results)) == OfflineWinner(m.executions)
  {
    var id :| Decides(m.executions, id) && m.winner == Some(m.executions[id].user);
    DecisionSurvivesDrain(m.executions, results, id);
    DrainKeepsSequences(m.executions, results);
    TheOfflineWinner(DrainedWith(m.executions, results), id);
    TheOfflineWinner(m.executions, id);
  }

  /** The same over the real protocol: whatever else happens, in any order, the recorded winner never changes and is
      the offline winner of the executions persisted by then. */
  lemma WinnerHoldsInEveryContinuation(s: Setting, w: World, id: MatchId, steps: seq<Step>)
    requires Reachable(s, w) && id in w.matches && w.matches[id].endReason == Some(Accepted)
    ensures
      var after := After(s, w, steps);
      && id in after.matches
      && after.matches[id].winner == w.matches[id].winner == OfflineWinner(after.matches[id].executions)
      && after.matches[id].executions.Keys == w.matches[id].executions.Keys
  {
    hide WorldInv;
    ReachableIsConsistent(s, w);
    MatchHolds(s, w, id);
    RunSafe(s, w, steps);
    var after := After(s, w, steps);
    MatchHolds(s, after, id);
    AcceptedStays(w.matches[id], after.matches[id]);
  }

  lemma AcceptedStays(m: Match, n: Match)
    requires MatchInv(m) && MatchInv(n) && Grows(m, n) && m.endReason == Some(Accepted)
    ensures n.endReason == m.endReason && n.winner == m.winner == OfflineWinner(n.executions)
    ensures n.executions.Keys == m.executions.Keys
  {
    var id :| Decides(n.executions, id) && n.winner == Some(n.executions[id].user);
    TheOfflineWinner(n.executions, id);
  }

  // ----- the online check is prompt, and its waiting is necessary

  /** Whoever is still playing is rightly still playing: no recorded acceptance already decides an active match. */
  lemma ActiveIsUndecided(m: Match, id: ExecutionId)
    requires MatchInv(m) && m.state == Active
    ensures !Decides(m.executions, id)
  {
  }

  function Failing(): RunnerResult {
    RunnerResult(VWrongAnswer, 0, 1, None, None)
  }

  function Passing(): RunnerResult {
    RunnerResult(VAccepted, 1, 1, Some(0), None)
  }

  function OnlyPasses(executions: Executions, b: ExecutionId): Outcomes {
    map id | id in executions :: if id == b then Passing() else Failing()
  }

  /** The best the in-flight submission b can still do, passing in no time, against an accepted one. */
  predicate CouldStillWin(accepted: Execution, b: Execution) {
    Before(StateMachine.Candidate(b.receivedAt, 0, b.sequence), Receipt(accepted))
  }

  /** Had the check not waited, it could have named the wrong player: the in-flight submission takes the match if it
      passes and the others fail. */
  lemma WaitingIsNecessary(executions: Executions, id: ExecutionId, b: ExecutionId)
    requires DistinctSequences(executions) && IsLeastAccepted(executions, id)
    requires b in executions && InflightSubmit(executions[b]) && CouldStillWin(executions[id], executions[b])
    ensures
      var results := OnlyPasses(executions, b);
      && Covers(executions, results) && (forall x :: x in results ==> AcceptableResult(results[x]))
      && IsLeastAccepted(DrainedWith(executions, results), b)
      && OfflineWinner(DrainedWith(executions, results)) == Some(executions[b].user)
  {
    var results := OnlyPasses(executions, b);
    var after := DrainedWith(executions, results);
    forall other | other in after && AcceptedSubmit(after[other]) && other != b
      ensures Before(Receipt(after[b]), Receipt(after[other]))
    {
      assert after[other] == executions[other];
      assert other != id ==> Before(Receipt(executions[id]), Receipt(executions[other]));
    }
    assert IsLeastAccepted(after, b);
    DrainKeepsSequences(executions, results);
    TheOfflineWinner(after, b);
  }

  ghost predicate Beats(executions: Executions, b: ExecutionId, results: Outcomes) {
    && Covers(executions, results) && (forall x :: x in results ==> AcceptableResult(results[x]))
    && IsLeastAccepted(DrainedWith(executions, results), b)
  }

  /** Exactly which in-flight submissions are worth waiting for: those received earlier, and those received at the same
      instant unless the accepted one ran in no time and was captured first. The check waits for all of these and, in
      that one tie, for more. */
  lemma WaitingIsNeededExactlyWhen(executions: Executions, id: ExecutionId, b: ExecutionId)
    requires DistinctSequences(executions) && IsLeastAccepted(executions, id)
    requires b in executions && InflightSubmit(executions[b])
    ensures (exists results :: Beats(executions, b, results)) <==> CouldStillWin(executions[id], executions[b])
    ensures
      var e, other := Receipt(executions[id]), executions[b];
      && (CouldStillWin(executions[id], other) ==> Blocks(other, e.receivedAt))
      && (Blocks(other, e.receivedAt) && !CouldStillWin(executions[id], other) ==>
            other.receivedAt == e.receivedAt && e.runtime <= 0 && (e.runtime == 0 ==> e.sequence <= other.sequence))
  {
    if CouldStillWin(executions[id], executions[b]) {
      WaitingIsNecessary(executions, id, b);
      assert Beats(executions, b, OnlyPasses(executions, b));
    }
    if results :| Beats(executions, b, results) {
      var after := DrainedWith(executions, results);
      assert after[id] == executions[id] && AcceptedSubmit(after[id]);
      assert Before(Receipt(after[b]), Receipt(after[id]));
      assert AcceptableResult(results[b]);
    }
  }

  /** In every reachable active match a player's in-flight execution is exactly the one their row names, and a recorded
      acceptance is waiting for some in-flight submission received no later than the least accepted one. */
  lemma ActiveMatchIsTracked(s: Setting, w: World, id: MatchId)
    requires Reachable(s, w) && id in w.matches && w.matches[id].state == Active
    ensures
      var m := w.matches[id];
      && (forall u, x :: u in m.participants ==>
            (x in m.executions && Inflight(m.executions[x]) && m.executions[x].user == u
             <==> m.participants[u].activeExecution == Some(x)))
      && (AnyAccepted(m.executions) ==>
            exists least, b :: IsLeastAccepted(m.executions, least) && b in m.executions
                               && Blocks(m.executions[b], m.executions[least].receivedAt))
  {
    hide WorldInv;
    ReachableIsConsistent(s, w);
    MatchHolds(s, w, id);
    var m := w.matches[id];
    if AnyAccepted(m.executions) {
      LeastAcceptedExists(m.executions);
      var least :| IsLeastAccepted(m.executions, least);
      var b :| b in m.executions && Blocks(m.executions[b], m.executions[least].receivedAt);
    }
  }

  // ----- no step overrides an acceptance

  predicate EndsPlay(m: Match, n: Match) {
    m.state == Active && Terminal(n.state)
  }

  ghost predicate WonByLeastAccepted(n: Match) {
    n.endReason == Some(Accepted) && n.winner.Some? && n.winner == OfflineWinner(n.executions)
  }

  /** A player with an earlier submission in flight wins because the other one left. */
  ghost predicate LeftToEarlierSubmitter(m: Match, n: Match) {
    && n.endReason == Some(Forfeit)
    && exists id, b :: IsLeastAccepted(m.executions, id) && b in m.executions
                       && Blocks(m.executions[b], m.executions[id].receivedAt) && n.winner == Some(m.executions[b].user)
  }

  lemma AcceptedMeansLeast(n: Match)
    requires MatchInv(n) && n.endReason == Some(Accepted)
    ensures WonByLeastAccepted(n)
  {
    var id :| Decides(n.executions, id) && n.winner == Some(n.executions[id].user);
    TheOfflineWinner(n.executions, id);
  }

  /** Only a completion, the disconnect sweep and a reconnecting player's sweep end play in a coding match. */
  lemma QuietRulesDoNotEndPlay(s: Setting, m: Match, step: Step)
    requires m.state == Active && BackgroundRule(s, m, step).Some? && BackgroundRule(s, m, step).value.Ok?
    requires !step.Complete? && !step.Attach? && !step.SweepDisconnects? && !step.SweepDeadline?
    ensures !Terminal(BackgroundRule(s, m, step).value.value.state)
  {
  }

  lemma DisconnectsYieldToAcceptance(c: Config, m: Match, now: Time)
    requires MatchInv(m)
    ensures
      var r := EvaluateDisconnects(c, m, now);
      r.Ok? && r.value.executions == m.executions && (EndsPlay(m, r.value) ==> !AnyAccepted(r.value.executions))
  {
    EvaluateDisconnectsKeeps(c, m, now);
  }

  lemma ReconnectionYieldsToAcceptance(c: Config, m: Match, user: UserId, now: Time)
    requires MatchInv(m) && Connect(c, m, user, now).Ok?
    ensures EndsPlay(m, Connect(c, m, user, now).value) ==> !AnyAccepted(Connect(c, m, user, now).value.executions)
  {
    hide EvaluateDisconnects, MatchInv;
    DisconnectsYieldToAcceptance(c, m, now);
  }

  lemma NoAcceptanceInArena(m: Match)
    requires MatchInv(m) && m.challenge == AiMl
    ensures !AnyAccepted(m.executions)
  {
  }

  lemma BackgroundHonoursAcceptance(s: Setting, m: Match, step: Step)
    requires MatchInv(m) && BackgroundRule(s, m, step).Some? && BackgroundRule(s, m, step).value.Ok?
    requires
      var n := BackgroundRule(s, m, step).value.value;
      EndsPlay(m, n) && AnyAccepted(n.executions)
    ensures WonByLeastAccepted(BackgroundRule(s, m, step).value.value)
  {
    hide MatchInv, CompleteExecution, Connect, EvaluateDisconnects, ProcessAnswerDeadline, PersistFailure,
      PersistSuccess,
      ClaimEvaluation, Reconcile, MarkRunning, AdvanceCountdown, AnyAccepted, WonByLeastAccepted, Evolves;
    BackgroundRuleKeeps(s, m, step);
    var n := BackgroundRule(s, m, step).value.value;
    match step {
      case Complete(_, execution, result, now) => CompletionHonours(s.config, m, execution, result, now);
      case Attach(user, _, now) => ReconnectionYieldsToAcceptance(s.config, m, user, now);
      case SweepDisconnects(_, now) => DisconnectsYieldToAcceptance(s.config, m, now);
      case SweepDeadline(_, _, _, _) =>
        EvolvesInPlace(m, n);
        NoAcceptanceInArena(n);
      case _ => QuietRulesDoNotEndPlay(s, m, step);
    }
  }

  lemma CompletionHonours(c: Config, m: Match, id: ExecutionId, r: RunnerResult, now: Time)
    requires MatchInv(m) && CompleteExecution(c, m, id, r, now).Ok?
    requires EndsPlay(m, CompleteExecution(c, m, id, r, now).value)
    requires AnyAccepted(CompleteExecution(c, m, id, r, now).value.executions)
    ensures WonByLeastAccepted(CompleteExecution(c, m, id, r, now).value)
  {
    hide MatchInv, CompleteExecution, AnyAccepted, WonByLeastAccepted, Evolves;
    CompletionHonoursAcceptance(c, m, id, r, now);
    CompleteKeeps(c, m, id, r, now);
    AcceptedMeansLeast(CompleteExecution(c, m, id, r, now).value);
  }

  lemma CommandHonoursAcceptance(s: Setting, w: World, step: Step, n: Match)
    requires OnMatch(step) && step.id in w.matches && MatchInv(w.matches[step.id]) && MatchInv(n)
    requires CommandProduces(s, w, step, n) && EndsPlay(w.matches[step.id], n) && AnyAccepted(n.executions)
    ensures step.Leave? && LeftToEarlierSubmitter(w.matches[step.id], n)
  {
    hide MatchInv, ForfeitMatch, SubmitAnswer, AnswerText.Measured, LeftToEarlierSubmitter, AnyAccepted, SubmitPending;
    var m := w.matches[step.id];
    match step {
      case Leave(actor, _, _, now) =>
        ForfeitSucceedsExactlyWhen(s.config, m, actor, now);
        LeavingHonours(s.config, m, actor, now);
      case Submission(_, _, _, _, _, _, _) => SubmissionNeverAccepts(s, w, step, n);
      case _ => LobbyCommandsDoNotEndPlay(s, w, step, n);
    }
  }

  lemma SubmissionNeverAccepts(s: Setting, w: World, step: Step, n: Match)
    requires step.Submission? && step.id in w.matches && MatchInv(w.matches[step.id])
    requires CommandProduces(s, w, step, n)
    ensures !AnyAccepted(n.executions)
  {
    hide MatchInv, SubmitAnswer, AnswerText.Measured, Evolves, StoredText;
    var m := w.matches[step.id];
    SubmittedIsStored(step.answer);
    SubmitAnswerKeeps(s.config, m, step.actor, AnswerText.Measured(step.answer, AnswerText.ANSWER_LIMITS).normalized,
                      step.material, step.userA, step.now);
    EvolvesInPlace(m, n);
    NoAcceptanceInArena(n);
  }

  lemma LobbyCommandsDoNotEndPlay(s: Setting, w: World, step: Step, n: Match)
    requires OnMatch(step) && step.id in w.matches && !step.Leave? && !step.Submission?
    requires Produces(CommandRule(s, w, step), n)
    ensures !EndsPlay(w.matches[step.id], n)
  {
  }

  /** A lone player cannot leave a practice round over an acceptance: whatever still holds it up is their own. */
  lemma DuelIfHeld(m: Match, user: UserId, id: ExecutionId)
    requires MatchInv(m) && m.state == Active && user in m.participants && !SubmitPending(m, {user})
    requires IsLeastAccepted(m.executions, id)
    ensures m.mode == Duel
  {
    var b :| b in m.executions && Blocks(m.executions[b], m.executions[id].receivedAt);
    var other := m.executions[b].user;
    assert other in m.participants.Keys && other != user;
    assert |{user, other}| == 2;
    SubsetSize({user, other}, m.participants.Keys);
  }

  /** A forfeit goes through exactly while the match is active and the leaver has no submission in flight, whatever is
      recorded: it never looks for acceptances. */
  lemma ForfeitSucceedsExactlyWhen(c: Config, m: Match, user: UserId, now: Time)
    requires MatchInv(m) && user in m.participants
    ensures
      var r := ForfeitMatch(c, m, user, now);
      && (r.Ok? <==> m.state == Active && !SubmitPending(m, {user}))
      && (r.Ok? ==> EndsPlay(m, r.value) && r.value.executions == m.executions)
  {
    hide EventsOk, ExecutionsOk, EvaluationOk, VotesOk, RecordsOk, Grows;
    if m.state == Active && !SubmitPending(m, {user}) {
      var opponent := Opponent(m.participants.Keys, user);
      OpponentIsTheOther(m.participants.Keys, user);
      EndKeeps(c, m, if opponent.Some? then Forfeit else Cancelled, opponent, now);
    }
  }

  /** Leaving over a recorded acceptance: the player who stays has an earlier submission that is still being judged. */
  lemma LeavingHonours(c: Config, m: Match, user: UserId, now: Time)
    requires MatchInv(m) && m.state == Active && user in m.participants
    requires AnyAccepted(m.executions) && !SubmitPending(m, {user})
    ensures ForfeitMatch(c, m, user, now).Ok?
    ensures LeftToEarlierSubmitter(m, ForfeitMatch(c, m, user, now).value)
  {
    ForfeitSucceedsExactlyWhen(c, m, user, now);
    ForfeitKeeps(c, m, user, now);
    LeastAcceptedExists(m.executions);
    var id :| IsLeastAccepted(m.executions, id);
    DuelIfHeld(m, user, id);
    ForfeitOverridesOnlyForEarlierSubmission(c, m, user, now, id);
  }

  lemma StepEndingPlay(s: Setting, w: World, step: Step, n: Match)
    requires OnMatch(step) && step.id in w.matches && MatchInv(w.matches[step.id]) && MatchInv(n)
    requires Produces(BackgroundRule(s, w.matches[step.id], step), n) || CommandProduces(s, w, step, n)
    requires EndsPlay(w.matches[step.id], n) && AnyAccepted(n.executions)
    ensures WonByLeastAccepted(n) || (step.Leave? && LeftToEarlierSubmitter(w.matches[step.id], n))
  {
    hide MatchInv, BackgroundRule, CommandRule, WonByLeastAccepted, LeftToEarlierSubmitter, AnyAccepted;
    if Produces(BackgroundRule(s, w.matches[step.id], step), n) {
      BackgroundHonoursAcceptance(s, w.matches[step.id], step);
    } else {
      CommandHonoursAcceptance(s, w, step, n);
    }
  }

  /** Play ends with an acceptance recorded, but not as a win for the author of the least accepted submission. */
  ghost predicate Overridden(m: Match, n: Match) {
    EndsPlay(m, n) && AnyAccepted(n.executions) && !WonByLeastAccepted(n)
  }

  /** A player with nothing in flight leaves, under a fresh key, a match whose acceptance is still held up. */
  predicate LeavesHeldAcceptance(w: World, step: Step, id: MatchId)
    requires id in w.matches
  {
    var m := w.matches[id];
    && step.Leave? && step.id == id && m.state == Active && AnyAccepted(m.executions)
    && step.actor in m.participants && !SubmitPending(m, {step.actor})
    && KeyOk(step.key) && CommandKey(step.actor, step.key) !in w.receipts
  }

  lemma LeavingOverrides(s: Setting, w: World, step: Step)
    requires step.Leave? && step.id in w.matches && MatchInv(w.matches[step.id])
    ensures
      var after := MatchStep(s, w, step).0;
      && step.id in after.matches
      && (Overridden(w.matches[step.id], after.matches[step.id]) <==> LeavesHeldAcceptance(w, step, step.id))
  {
    hide MatchInv, ForfeitMatch, AnyAccepted, SubmitPending, LeftToEarlierSubmitter, IsLeastAccepted;
    var m := w.matches[step.id];
    if step.actor in m.participants {
      ForfeitSucceedsExactlyWhen(s.config, m, step.actor, step.now);
      if m.state == Active && AnyAccepted(m.executions) && !SubmitPending(m, {step.actor}) {
        LeavingHonours(s.config, m, step.actor, step.now);
        LeftIsForfeit(m, ForfeitMatch(s.config, m, step.actor, step.now).value);
      }
    }
  }

  lemma LeftIsForfeit(m: Match, n: Match)
    requires LeftToEarlierSubmitter(m, n)
    ensures n.endReason == Some(Forfeit)
  {
  }

  lemma OtherRowsKeepPlaying(s: Setting, w: World, step: Step, id: MatchId)
    requires OnMatch(step) && step.id in w.matches && id in w.matches && id != step.id
    requires !step.Rematch?
    ensures var after := MatchStep(s, w, step).0; id in after.matches && after.matches[id] == w.matches[id]
  {
    hide MatchStep, BackgroundRule, CommandRule, CommandProduces, Produces;
    StepRewritesOneMatch(s, w, step);
  }

  lemma RowStays(w: World, after: World, id: MatchId)
    requires WorldGrows(w, after) && id in w.matches
    ensures id in after.matches
  {
    hide Grows;
  }

  lemma OwnStepOverrides(s: Setting, w: World, step: Step)
    requires OnMatch(step) && step.id in w.matches && !step.Rematch? && MatchInv(w.matches[step.id])
    requires
      var after := MatchStep(s, w, step).0;
      step.id in after.matches && MatchInv(after.matches[step.id])
    ensures
      var m, n := w.matches[step.id], MatchStep(s, w, step).0.matches[step.id];
      && (Overridden(m, n) <==> LeavesHeldAcceptance(w, step, step.id))
      && (Overridden(m, n) ==> LeftToEarlierSubmitter(m, n))
  {
    hide MatchInv, MatchStep, WonByLeastAccepted, LeftToEarlierSubmitter, AnyAccepted, BackgroundRule, CommandRule,
      CommandProduces, Produces, SubmitPending;
    StepRewritesOneMatch(s, w, step);
    var m, n := w.matches[step.id], MatchStep(s, w, step).0.matches[step.id];
    if step.Leave? {
      LeavingOverrides(s, w, step);
    }
    if EndsPlay(m, n) && AnyAccepted(n.executions) {
      StepEndingPlay(s, w, step, n);
    }
  }

  lemma OtherStepsEndNothing(s: Setting, w: World, step: Step, id: MatchId)
    requires WorldInv(s, w) && id in w.matches && !(OnMatch(step) && !step.Rematch? && id == step.id)
    ensures
      var after := Exec(s, w, step).0;
      id in after.matches && !EndsPlay(w.matches[id], after.matches[id])
  {
    hide WorldInv, Exec, MatchStep;
    ConsistentIds(s, w);
    if !OnMatch(step) || step.Rematch? || step.id !in w.matches {
      OtherStepsKeepStates(s, w, step);
    } else {
      ExecIsMatchStep(s, w, step);
      OtherRowsKeepPlaying(s, w, step, id);
    }
  }

  /** No transaction, of any kind, ends play against a recorded acceptance - except, exactly, a player without a
      submission in flight leaving a match whose acceptance still waits for the other player's earlier submission. */
  lemma AcceptanceIsOverriddenExactlyWhen(s: Setting, w: World, step: Step, id: MatchId)
    requires Reachable(s, w) && id in w.matches
    ensures
      var after := Exec(s, w, step).0;
      && id in after.matches
      && (Overridden(w.matches[id], after.matches[id]) <==> LeavesHeldAcceptance(w, step, id))
      && (Overridden(w.matches[id], after.matches[id]) ==> LeftToEarlierSubmitter(w.matches[id], after.matches[id]))
  {
    hide WorldInv, WorldGrows, MatchInv, Exec, MatchStep, WonByLeastAccepted, LeftToEarlierSubmitter, AnyAccepted,
      BackgroundRule, CommandRule, CommandProduces, Produces, SubmitPending;
    ReachableIsConsistent(s, w);
    StepSafe(s, w, step);
    var after := Exec(s, w, step).0;
    if OnMatch(step) && !step.Rematch? && id == step.id {
      ExecIsMatchStep(s, w, step);
      MatchHolds(s, w, id);
      RowStays(w, after, id);
      MatchHolds(s, after, id);
      OwnStepOverrides(s, w, step);
    } else {
      OtherStepsEndNothing(s, w, step, id);
    }
  }
}
