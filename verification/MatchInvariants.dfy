/** What every transaction keeps true of a match, and how a match may change over time. Each predicate is stated over
    the columns it is about, so that a transaction that leaves those columns alone keeps it without further proof. */
module MatchInvariants {
  import opened Domain
  import opened MatchTypes
  import opened StateMachine
  import opened MatchRules
  import opened ArenaRules
  import AnswerText
  import DuelScoring

  type Participants = map<UserId, Participant>
  type Executions = map<ExecutionId, Execution>
  type Answers = map<UserId, Answer>

  // ----- the invariant, by concern

  /** Versions count the events, and event times strictly increase whatever the clock does. */
  predicate EventsOk(version: nat, events: seq<Event>) {
    && version == |events|
    && (forall i :: 0 <= i < |events| ==> events[i].version == i + 1)
    && (forall i, j :: 0 <= i < j < |events| ==> events[i].at < events[j].at)
  }

  predicate Terminal(s: State) {
    s == Finished || s == RematchPending
  }

  predicate Full(m: Match) {
    |m.participants| == Seats(m.mode)
  }

  predicate Untouched(m: Match) {
    |m.executions| == 0 && |m.answers| == 0 && m.evaluation.None?
  }

  predicate Undecided(m: Match) {
    m.winner.None? && m.endReason.None? && m.finishedAt.None? && !m.recordsApplied
  }

  predicate LifecycleOk(m: Match) {
    && 1 <= |m.participants| <= Seats(m.mode)
    && (if Terminal(m.state) then m.endReason.Some? && m.finishedAt.Some? else Undecided(m))
    && (m.state == Lobby || m.endReason == Some(Cancelled) || (Full(m) && m.problem.Some? && m.startsAt.Some?))
    && (m.state == Lobby ==> m.problem.None? && m.startsAt.None?)
    && (m.state == Lobby || m.state == Countdown ==> Untouched(m))
    && (m.state == RematchPending ==> m.mode == Duel && m.rematchDeadline.Some? && Full(m) && m.problem.Some?)
  }

  /** A finished duel without a rematch window was cancelled in the lobby. */
  predicate SettledOk(m: Match) {
    m.state == Finished && m.mode == Duel ==> m.endReason == Some(Cancelled) && m.problem.None? && Untouched(m)
  }

  predicate DistinctSequences(executions: Executions) {
    forall a, b :: a in executions && b in executions && a != b ==> executions[a].sequence != executions[b].sequence
  }

  predicate ExecutionOk(startsAt: Option<Time>, players: set<UserId>, e: Execution) {
    && e.user in players
    && startsAt.Some? && startsAt.value <= e.receivedAt
    && (e.status.Completed? ==> AcceptableResult(e.status.result))
  }

  predicate ExecutionsOk(challenge: Challenge, startsAt: Option<Time>, players: set<UserId>, executions: Executions) {
    && (|executions| != 0 ==> challenge == Coding)
    && (forall id :: id in executions ==> ExecutionOk(startsAt, players, executions[id]))
    && DistinctSequences(executions)
  }

  /** A player's active execution is exactly their one in-flight execution, and only during play. */
  predicate InflightOk(active: bool, participants: Participants, executions: Executions) {
    && (forall u :: u in participants && participants[u].activeExecution.Some? ==>
          var id := participants[u].activeExecution.value;
          active && id in executions && executions[id].user == u && Inflight(executions[id]))
    && (active ==>
          forall id :: id in executions && Inflight(executions[id]) ==>
            && executions[id].user in participants
            && participants[executions[id].user].activeExecution == Some(id))
  }

  ghost predicate Held(executions: Executions, receivedAt: Time) {
    exists b :: b in executions && Blocks(executions[b], receivedAt)
  }

  /** An acceptance that has not ended the match is waiting for an in-flight submission received no later. */
  ghost predicate PendingOk(active: bool, executions: Executions) {
    active ==> forall id :: IsLeastAccepted(executions, id) ==> Held(executions, executions[id].receivedAt)
  }

  ghost predicate WinnerOk(reason: Option<EndReason>, winner: Option<UserId>, executions: Executions) {
    reason == Some(Accepted) ==> exists id :: Decides(executions, id) && winner == Some(executions[id].user)
  }

  predicate RecordsOk(mode: Mode, winner: Option<UserId>, reason: Option<EndReason>, applied: bool,
                      participants: Participants)
  {
    && (applied <==> mode == Duel && winner.Some?)
    && (winner.Some? ==> reason.Some? && ShouldApplyRecord(reason.value) && winner.value in participants)
    && (applied ==>
          && |participants| == 2
          && forall u :: u in participants ==> participants[u].outcome == Some(if winner == Some(u) then Win else Loss))
  }

  /** Which endings decide a duel: an answer deadline does when at least one answer is not blank. */
  predicate EndingDecides(reason: EndReason, answers: Answers) {
    || reason in {Accepted, Forfeit, EndReason.Judged}
    || (reason == AnswerTimeout && exists u :: u in answers && answers[u].text != "")
  }

  predicate DecidedOk(mode: Mode, reason: Option<EndReason>, winner: Option<UserId>, answers: Answers) {
    mode == Duel && reason.Some? ==> (winner.Some? <==> EndingDecides(reason.value, answers))
  }

  /** A text that normalizing and measuring leave alone and within the limits. */
  predicate StoredText(text: string) {
    var measured := AnswerText.Measured(text, AnswerText.ANSWER_LIMITS);
    measured.normalized == text && measured.violations == []
  }

  predicate AnswersOk(answers: Answers) {
    forall u :: u in answers ==> StoredText(answers[u].text)
  }

  predicate LiveEvaluation(e: Evaluation) {
    e.status.Pending? || e.status.InProgress? || (e.status.Failed? && e.status.retryable)
  }

  /** The judge sees exactly the two locked answers, under an anonymous but faithful mapping. */
  predicate SnapshotOk(mode: Mode, players: set<UserId>, answers: Answers, e: Evaluation) {
    && e.snapshot.mode == mode
    && answers.Keys == players
    && e.userA in answers && e.snapshot.answerA == answers[e.userA].text
    && (mode == Duel <==> e.userB.Some?)
    && (e.userB.Some? ==>
          && e.userB.value in answers && e.userB.value != e.userA
          && e.snapshot.answerB == Some(answers[e.userB.value].text))
    && (e.userB.None? ==> e.snapshot.answerB.None?)
    && DuelScoring.MaxTotal(e.snapshot.criteria) == 100
  }

  predicate StatusOk(winner: Option<UserId>, e: Evaluation) {
    && (e.status.InProgress? ==> e.status.claim == e.claims)
    && (e.status.Failed? ==> e.status.retryable == e.status.retryNotBefore.Some?)
    && (e.status.Concluded? ==> e.verdict.Some? && CompletionCheck(e, e.verdict.value, e.winner) && e.winner == winner)
    && (e.status.Skipped? ==> winner.None?)
    && (e.verdict.Some? ==> e.status.Concluded? || e.status.Skipped?)
  }

  predicate EvaluationOk(state: State, challenge: Challenge, mode: Mode, winner: Option<UserId>, players: set<UserId>,
                         answers: Answers, evaluation: Option<Evaluation>)
  {
    && answers.Keys <= players
    && (|answers| != 0 ==> challenge == AiMl)
    && (state == State.Judging <==> evaluation.Some? && LiveEvaluation(evaluation.value))
    && (evaluation.Some? ==>
          && challenge == AiMl
          && (Terminal(state) || state == State.Judging)
          && SnapshotOk(mode, players, answers, evaluation.value)
          && StatusOk(winner, evaluation.value))
  }

  predicate VotesOk(state: State, players: set<UserId>, votes: set<UserId>, successor: Option<MatchId>) {
    && votes <= players
    && (votes != {} ==> state == RematchPending)
    && (successor.Some? ==> state == RematchPending && votes == players)
  }

  ghost predicate BaseInv(m: Match) {
    && EventsOk(m.version, m.events)
    && LifecycleOk(m)
    && ExecutionsOk(m.challenge, m.startsAt, m.participants.Keys, m.executions)
    && InflightOk(m.state == Active, m.participants, m.executions)
    && WinnerOk(m.endReason, m.winner, m.executions)
    && RecordsOk(m.mode, m.winner, m.endReason, m.recordsApplied, m.participants)
    && EvaluationOk(m.state, m.challenge, m.mode, m.winner, m.participants.Keys, m.answers, m.evaluation)
    && VotesOk(m.state, m.participants.Keys, m.votes, m.rematchCreated)
    && DecidedOk(m.mode, m.endReason, m.winner, m.answers)
    && AnswersOk(m.answers)
  }

  ghost predicate MatchInv(m: Match) {
    BaseInv(m) && PendingOk(m.state == Active, m.executions) && SettledOk(m)
  }

  // ----- how a match may change

  predicate SameIdentity(m: Match, n: Match) {
    && n.roomId == m.roomId && n.round == m.round && n.previous == m.previous
    && n.challenge == m.challenge && n.mode == m.mode && n.difficulty == m.difficulty
  }

  /** Executions only complete, once; none appears after play. */
  predicate ExecutionsEvolve(over: bool, before: Executions, after: Executions) {
    && (forall id :: id in before ==>
          && id in after
          && after[id].(status := before[id].status) == before[id]
          && (before[id].status.Completed? ==> after[id] == before[id]))
    && (over ==> after.Keys == before.Keys)
  }

  predicate SlotsKept(before: Participants, after: Participants) {
    forall u :: u in before ==> u in after && after[u].slot == before[u].slot
  }

  predicate AnswersEvolve(before: Answers, after: Answers) {
    forall u :: u in before ==> u in after && after[u] == before[u]
  }

  /** Each claim is handed out once: without a new number, nothing becomes claimed again. */
  predicate EvaluationEvolves(before: Option<Evaluation>, after: Option<Evaluation>) {
    before.Some? ==>
      && after.Some?
      && after.value.snapshot == before.value.snapshot
      && after.value.userA == before.value.userA
      && after.value.userB == before.value.userB
      && after.value.claims >= before.value.claims
      && (after.value.status.InProgress? && after.value.claims == before.value.claims ==>
            before.value.status == after.value.status)
      && (!LiveEvaluation(before.value) ==> after == before)
  }

  predicate ResultFrozen(m: Match, n: Match) {
    Terminal(m.state) ==>
      && n.state == m.state && n.winner == m.winner && n.endReason == m.endReason && n.finishedAt == m.finishedAt
      && n.recordsApplied == m.recordsApplied && n.rematchDeadline == m.rematchDeadline
  }

  /** What no transaction ever takes back. */
  predicate Grows(m: Match, n: Match) {
    && SameIdentity(m, n)
    && (m.rematchCreated.Some? ==> n.rematchCreated == m.rematchCreated)
    && SlotsKept(m.participants, n.participants)
    && (m.state != Lobby ==> n.participants.Keys == m.participants.Keys)
    && m.votes <= n.votes
    && m.events <= n.events
    && Rank(m.state) <= Rank(n.state)
    && (m.problem.Some? ==> n.problem == m.problem)
    && ExecutionsEvolve(Terminal(m.state), m.executions, n.executions)
    && AnswersEvolve(m.answers, n.answers)
    && EvaluationEvolves(m.evaluation, n.evaluation)
    && ResultFrozen(m, n)
  }

  /** One transaction on one match that neither seats a player nor opens a successor. */
  predicate Evolves(m: Match, n: Match) {
    Grows(m, n) && n.rematchCreated == m.rematchCreated && n.participants.Keys == m.participants.Keys
  }

  lemma GrowsReflexive(m: Match)
    ensures Grows(m, m)
  {
  }

  lemma GrowsTransitive(a: Match, b: Match, d: Match)
    requires Grows(a, b) && Grows(b, d)
    ensures Grows(a, d)
  {
  }

  lemma EvolvesReflexive(m: Match)
    ensures Evolves(m, m)
  {
  }

  lemma EvolvesTransitive(a: Match, b: Match, d: Match)
    requires Evolves(a, b) && Evolves(b, d)
    ensures Evolves(a, d)
  {
  }

  // ----- events

  lemma {:induction false} LatestIsLast(events: seq<Event>)
    requires events != []
    requires forall i, j :: 0 <= i < j < |events| ==> events[i].at < events[j].at
    ensures LatestEvent(events) == Some(events[|events| - 1].at)
  {
    if |events| > 1 {
      LatestIsLast(events[..|events| - 1]);
    }
  }

  /** An event is stamped with the clock, or one tick after the last event if the clock reads no later than that. */
  lemma StampedExactly(version: nat, events: seq<Event>, now: Time)
    requires EventsOk(version, events)
    ensures EventTime(events, now)
            == if events == [] || events[|events| - 1].at < now then now else events[|events| - 1].at + 1
  {
    if events != [] {
      LatestIsLast(events);
    }
  }

  lemma AppendedEventsOk(version: nat, events: seq<Event>, kind: EventKind, now: Time)
    requires EventsOk(version, events)
    ensures EventsOk(version + 1, events + [Event(version + 1, kind, EventTime(events, now))])
  {
    if events != [] {
      LatestIsLast(events);
    }
  }

  lemma AppendKeeps(m: Match, kind: EventKind, now: Time)
    requires BaseInv(m)
    ensures BaseInv(AppendEvent(m, kind, now))
  {
    AppendedEventsOk(m.version, m.events, kind, now);
  }

  lemma AppendEvolves(m: Match, n: Match, kind: EventKind, now: Time)
    requires Evolves(m, n)
    ensures Evolves(m, AppendEvent(n, kind, now))
  {
  }

  // ----- finalization

  lemma OutcomesKeepSeats(participants: Participants, reason: EndReason, winner: Option<UserId>)
    ensures WithOutcomes(participants, reason, winner).Keys == participants.Keys
    ensures |WithOutcomes(participants, reason, winner)| == |participants|
  {
    assert WithOutcomes(participants, reason, winner).Keys == participants.Keys;
    assert |WithOutcomes(participants, reason, winner).Keys| == |participants.Keys|;
  }

  /** The four ways match-engine.ts ends play. */
  ghost predicate EndingOk(m: Match, reason: EndReason, winner: Option<UserId>) {
    && (winner.Some? <==> reason == Accepted || reason == Forfeit)
    && (winner.Some? ==> winner.value in m.participants)
    && WinnerOk(Some(reason), winner, m.executions)
    && reason in {Accepted, Forfeit, NoContest, Cancelled}
    && (reason == Cancelled ==> m.mode == Practice)
  }

  lemma ClosedRecords(mode: Mode, participants: Participants, reason: EndReason, winner: Option<UserId>)
    requires |participants| == Seats(mode)
    requires winner.Some? ==> winner.value in participants
    requires winner.Some? <==> reason == Accepted || reason == Forfeit
    ensures RecordsOk(mode, winner, Some(reason), AppliesRecord(mode, reason, winner),
                      WithOutcomes(participants, reason, winner))
  {
    OutcomesKeepSeats(participants, reason, winner);
  }

  lemma ClosedInflight(participants: Participants, reason: EndReason, winner: Option<UserId>, executions: Executions)
    ensures InflightOk(false, WithOutcomes(participants, reason, winner), executions)
  {
  }

  /** An active match has neither votes nor an evaluation, and does not gain one by ending. */
  lemma ClosedArena(m: Match, winner: Option<UserId>)
    requires BaseInv(m) && m.state == Active
    ensures EvaluationOk(Finished, m.challenge, m.mode, winner, m.participants.Keys, m.answers, m.evaluation)
    ensures VotesOk(Finished, m.participants.Keys, m.votes, m.rematchCreated)
  {
    hide EventsOk, LifecycleOk, ExecutionsOk, InflightOk, WinnerOk, RecordsOk, DecidedOk, AnswersOk;
  }

  lemma ClosedLifecycle(m: Match, reason: EndReason, winner: Option<UserId>, now: Time)
    requires BaseInv(m) && m.state == Active
    ensures LifecycleOk(Closed(m, reason, winner, now))
  {
    hide EventsOk, ExecutionsOk, InflightOk, WinnerOk, RecordsOk, EvaluationOk, VotesOk, DecidedOk, AnswersOk;
    OutcomesKeepSeats(m.participants, reason, winner);
  }

  lemma ActiveIsFull(m: Match)
    requires BaseInv(m) && m.state == Active
    ensures |m.participants| == Seats(m.mode)
  {
    hide EventsOk, ExecutionsOk, InflightOk, WinnerOk, RecordsOk, EvaluationOk, VotesOk, DecidedOk, AnswersOk;
  }

  lemma ClosedKeeps(m: Match, reason: EndReason, winner: Option<UserId>, now: Time)
    requires BaseInv(m) && m.state == Active
    requires EndingOk(m, reason, winner)
    ensures BaseInv(Closed(m, reason, winner, now))
  {
    hide EventsOk, LifecycleOk, ExecutionsOk, InflightOk, WinnerOk, RecordsOk, EvaluationOk, VotesOk, AnswersOk,
      WithOutcomes;
    ActiveIsFull(m);
    OutcomesKeepSeats(m.participants, reason, winner);
    ClosedRecords(m.mode, m.participants, reason, winner);
    ClosedInflight(m.participants, reason, winner, m.executions);
    ClosedArena(m, winner);
    ClosedLifecycle(m, reason, winner, now);
  }

  lemma OpenRematchKeeps(c: Config, m: Match, now: Time)
    requires BaseInv(m) && m.state == Finished && m.mode == Duel && Full(m) && m.problem.Some?
    ensures BaseInv(OpenRematch(c, m, now)) && SettledOk(OpenRematch(c, m, now))
  {
    hide BaseInv;
    var n := m.(state := RematchPending, rematchDeadline := Some(now + c.rematchWindow));
    PendingKeeps(m, now + c.rematchWindow);
    AppendKeeps(n, RematchOpened, now);
  }

  lemma PendingKeeps(m: Match, deadline: Time)
    requires BaseInv(m) && m.state == Finished && m.mode == Duel && Full(m) && m.problem.Some?
    ensures BaseInv(m.(state := RematchPending, rematchDeadline := Some(deadline)))
  {
    hide EventsOk, LifecycleOk, ExecutionsOk, InflightOk, WinnerOk, RecordsOk, EvaluationOk, VotesOk, DecidedOk,
      AnswersOk;
    PendingArena(m);
    PendingLifecycle(m, deadline);
  }

  lemma PendingLifecycle(m: Match, deadline: Time)
    requires LifecycleOk(m) && m.state == Finished && m.mode == Duel && Full(m) && m.problem.Some?
    ensures LifecycleOk(m.(state := RematchPending, rematchDeadline := Some(deadline)))
  {
  }

  /** Opening the rematch window of an ended match leaves its evaluation and its votes in order. */
  lemma PendingArena(m: Match)
    requires BaseInv(m) && m.state == Finished
    ensures EvaluationOk(RematchPending, m.challenge, m.mode, m.winner, m.participants.Keys, m.answers, m.evaluation)
    ensures VotesOk(RematchPending, m.participants.Keys, m.votes, m.rematchCreated)
  {
    hide EventsOk, LifecycleOk, ExecutionsOk, InflightOk, WinnerOk, RecordsOk, DecidedOk, AnswersOk, SnapshotOk,
      StatusOk;
  }

  lemma FinalizeKeeps(c: Config, m: Match, reason: EndReason, winner: Option<UserId>, now: Time)
    requires BaseInv(m) && m.state == Active
    requires EndingOk(m, reason, winner)
    ensures Finalize(c, m, reason, winner, now).Ok?
    ensures MatchInv(Finalize(c, m, reason, winner, now).value)
  {
    ClosedKeeps(m, reason, winner, now);
    var closed := Closed(m, reason, winner, now);
    AppendKeeps(closed, MatchFinished, now);
    if m.mode == Duel {
      OutcomesKeepSeats(m.participants, reason, winner);
      OpenRematchKeeps(c, AppendEvent(closed, MatchFinished, now), now);
    }
  }

  lemma ClosedEvolves(m: Match, reason: EndReason, winner: Option<UserId>, now: Time)
    requires m.state == Active
    ensures Evolves(m, Closed(m, reason, winner, now))
  {
    OutcomesKeepSeats(m.participants, reason, winner);
  }

  lemma OpenRematchEvolves(c: Config, m: Match, n: Match, now: Time)
    requires Evolves(m, n) && !Terminal(m.state)
    ensures Evolves(m, OpenRematch(c, n, now))
  {
    AppendEvolves(m, n.(state := RematchPending, rematchDeadline := Some(now + c.rematchWindow)), RematchOpened, now);
  }

  lemma FinalizeEvolves(c: Config, m: Match, reason: EndReason, winner: Option<UserId>, now: Time)
    requires m.state == Active && Finalize(c, m, reason, winner, now).Ok?
    ensures
      var n := Finalize(c, m, reason, winner, now).value;
      Evolves(m, n) && Terminal(n.state) && n.endReason == Some(reason) && n.winner == winner
      && n.executions == m.executions && n.problem == m.problem
  {
    ClosedEvolves(m, reason, winner, now);
    var finished := AppendEvent(Closed(m, reason, winner, now), MatchFinished, now);
    AppendEvolves(m, Closed(m, reason, winner, now), MatchFinished, now);
    OpenRematchEvolves(c, m, finished, now);
  }
}
