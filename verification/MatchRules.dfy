/** What each transaction of match-engine.ts makes of one match and the rows that hang off it. A rule that throws
    yields Err, and the transaction is rolled back. */
module MatchRules {
  import opened Domain
  import opened MatchTypes
  import opened StateMachine

  // ----- finalization

  function FinalOutcome(reason: EndReason, won: bool): Outcome {
    match reason
    case NoContest => OutNoContest
    case Cancelled => OutCancelled
    case _ => if won then Win else Loss
  }

  function WithOutcomes(participants: map<UserId, Participant>, reason: EndReason, winner: Option<UserId>)
    : map<UserId, Participant>
  {
    map u | u in participants ::
      participants[u].(outcome := Some(FinalOutcome(reason, winner == Some(u))), activeExecution := None)
  }

  function OpenRematch(c: Config, m: Match, now: Time): Match {
    AppendEvent(m.(state := RematchPending, rematchDeadline := Some(now + c.rematchWindow)), RematchOpened, now)
  }

  predicate Open(s: State) {
    s in {Active, Countdown, Lobby}
  }

  predicate AppliesRecord(mode: Mode, reason: EndReason, winner: Option<UserId>) {
    mode == Duel && ShouldApplyRecord(reason) && winner.Some?
  }

  function Closed(m: Match, reason: EndReason, winner: Option<UserId>, now: Time): Match {
    m.(state := Finished, winner := winner, endReason := Some(reason), finishedAt := Some(now),
       recordsApplied := AppliesRecord(m.mode, reason, winner),
       participants := WithOutcomes(m.participants, reason, winner))
  }

  function Finalize(c: Config, m: Match, reason: EndReason, winner: Option<UserId>, now: Time): Result<Match> {
    if !Open(m.state) then Ok(m)
    else if winner.Some? && winner.value !in m.participants then Err(Internal)
    else
      var finished := AppendEvent(Closed(m, reason, winner, now), MatchFinished, now);
      Ok(if m.mode == Practice then finished else OpenRematch(c, finished, now))
  }

  // ----- winner selection

  /** The first row of the candidate query. */
  predicate IsLeastAccepted(executions: map<ExecutionId, Execution>, id: ExecutionId) {
    && id in executions && AcceptedSubmit(executions[id])
    && forall other :: other in executions && AcceptedSubmit(executions[other]) && other != id ==>
         Before(Receipt(executions[id]), Receipt(executions[other]))
  }

  predicate Blocks(e: Execution, receivedAt: Time) {
    InflightSubmit(e) && e.receivedAt <= receivedAt
  }

  predicate Decides(executions: map<ExecutionId, Execution>, id: ExecutionId) {
    && IsLeastAccepted(executions, id)
    && forall other :: other in executions ==> !Blocks(executions[other], executions[id].receivedAt)
  }

  predicate AnyAccepted(executions: map<ExecutionId, Execution>) {
    exists id :: id in executions && AcceptedSubmit(executions[id])
  }

  ghost function MaybeFinalizeAccepted(c: Config, m: Match, now: Time): Result<Match> {
    if m.state != Active || m.winner.Some? then Ok(m)
    else if exists id :: Decides(m.executions, id) then
      var id :| Decides(m.executions, id);
      Finalize(c, m, Accepted, Some(m.executions[id].user), now)
    else Ok(m)
  }

  // ----- disconnects

  predicate Expired(p: Participant, now: Time) {
    p.reconnectDeadline.Some? && p.reconnectDeadline.value <= now
  }

  function Away(m: Match): set<UserId> {
    set u | u in m.participants && !m.participants[u].connected
  }

  function ExpiredAway(m: Match, now: Time): set<UserId> {
    set u | u in Away(m) && Expired(m.participants[u], now)
  }

  predicate SubmitPending(m: Match, users: set<UserId>) {
    exists id :: id in m.executions && InflightSubmit(m.executions[id]) && m.executions[id].user in users
  }

  ghost function EvaluateDisconnects(c: Config, m: Match, now: Time): Result<Match> {
    var away, expired := Away(m), ExpiredAway(m, now);
    if m.state != Active || m.mode == Practice || |m.participants| != 2 || expired == {} then Ok(m)
    else if AnyAccepted(m.executions) || SubmitPending(m, expired) then Ok(m)
    else if |away| == 2 then
      if |expired| < 2 then Ok(m) else Finalize(c, m, NoContest, None, now)
    else if exists winner :: winner in m.participants.Keys - away then
      var winner :| winner in m.participants.Keys - away;
      Finalize(c, m, Forfeit, Some(winner), now)
    else Ok(m)
  }

  // ----- executions

  predicate StartsBy(m: Match, t: Time) {
    m.startsAt.Some? && m.startsAt.value <= t
  }

  function Activate(m: Match, now: Time): Match {
    AppendEvent(m.(state := Active), MatchActive, now)
  }

  function AdvanceInline(m: Match, now: Time): Match {
    if m.state == Countdown && StartsBy(m, now) then Activate(m, now) else m
  }

  /** The checks of startExecution after the inline activation, in order. */
  function StartRefusal(c: Config, m: Match, p: Participant, kind: Kind, receivedAt: Time, now: Time): Option<Error> {
    if m.state != Active || m.problem.None? then Some(InvalidState)
    else if !StartsBy(m, receivedAt) then Some(InvalidState)
    else if p.language.None? then Some(LanguageRequired)
    else if p.activeExecution.Some? then Some(ExecutionInProgress)
    else if kind == Run && p.lastSampleRunAt.Some? && p.lastSampleRunAt.value + c.sampleInterval > now
      then Some(RateLimited)
    else if kind == Submit && p.cooldownUntil.Some? && p.cooldownUntil.value > now then Some(CooldownActive)
    else None
  }

  /** PRIMARY KEY (id) and UNIQUE (server_sequence). */
  predicate Insertable(executions: map<ExecutionId, Execution>, id: ExecutionId, sequence: int) {
    id !in executions && forall other :: other in executions ==> executions[other].sequence != sequence
  }

  function StartExecution(c: Config, m: Match, user: UserId, id: ExecutionId, kind: Kind, receivedAt: Time,
                          sequence: int, now: Time): Result<Match>
  {
    if user !in m.participants then Err(NotAParticipant)
    else
      var active := AdvanceInline(m, now);
      var p := m.participants[user];
      var refusal := StartRefusal(c, active, p, kind, receivedAt, now);
      if refusal.Some? then Err(refusal.value)
      else if !Insertable(m.executions, id, sequence) then Err(Internal)
      else
        var started := p.(activeExecution := Some(id),
                          lastSampleRunAt := if kind == Run then Some(now) else p.lastSampleRunAt);
        Ok(AppendEvent(
             active.(executions := active.executions[id := Execution(user, kind, receivedAt, sequence, Queued)],
                     participants := active.participants[user := started]),
             ExecutionStarted, now))
  }

  function MarkRunning(m: Match, id: ExecutionId, now: Time): Match {
    if id !in m.executions || m.executions[id].status.Completed? then m
    else
      var e := m.executions[id];
      var running := m.(executions := m.executions[id := e.(status := Running)]);
      if m.state == Active && e.user in m.participants && m.participants[e.user].activeExecution == Some(id)
      then AppendEvent(running, ExecutionProgress, now)
      else running
  }

  const MAX_POSTGRES_INTEGER := 2_147_483_647
  const MAX_DURATION := 999_999_999_999

  predicate SafeCount(n: int) {
    0 <= n <= MAX_POSTGRES_INTEGER
  }

  predicate SafeDuration(d: Option<int>) {
    d.Some? ==> 0 <= d.value <= MAX_DURATION
  }

  predicate AcceptableResult(r: RunnerResult) {
    && SafeCount(r.passed) && SafeCount(r.total) && r.passed <= r.total
    && SafeDuration(r.runtime) && SafeDuration(r.compile)
    && (r.verdict == VAccepted ==> r.total != 0 && r.passed == r.total && r.runtime.Some?)
  }

  predicate Eligible(m: Match, id: ExecutionId)
    requires id in m.executions
  {
    var user := m.executions[id].user;
    m.state == Active && user in m.participants && m.participants[user].activeExecution == Some(id)
  }

  predicate Penalized(e: Execution, r: RunnerResult) {
    e.kind == Submit && r.verdict != VAccepted && r.verdict != VInfraError
  }

  /** Stores a result; an eligible one also releases the player and is announced. */
  function Store(c: Config, m: Match, id: ExecutionId, r: RunnerResult, now: Time): Match
    requires id in m.executions
  {
    var e := m.executions[id];
    var stored := m.(executions := m.executions[id := e.(status := Completed(r))]);
    if !Eligible(m, id) then stored
    else
      var p := m.participants[e.user];
      var released := p.(activeExecution := None,
                         cooldownUntil := if Penalized(e, r) then Some(now + c.cooldown) else p.cooldownUntil);
      AppendEvent(stored.(participants := m.participants[e.user := released]), ExecutionCompleted, now)
  }

  /** After a submission completes: decide the match if nothing is in the way, else look at disconnects. */
  ghost function Settle(c: Config, m: Match, now: Time): Result<Match> {
    var decided :- MaybeFinalizeAccepted(c, m, now);
    if decided.state == Active then EvaluateDisconnects(c, decided, now) else Ok(decided)
  }

  ghost function CompleteExecution(c: Config, m: Match, id: ExecutionId, r: RunnerResult, now: Time): Result<Match> {
    if !AcceptableResult(r) then Err(Internal)
    else if id !in m.executions then Err(MatchNotFound)
    else if m.executions[id].status.Completed? then Ok(m)
    else if m.executions[id].user !in m.participants then Err(NotAParticipant)
    else
      var stored := Store(c, m, id, r, now);
      if !Eligible(m, id) || m.executions[id].kind != Submit then Ok(stored)
      else Settle(c, stored, now)
  }

  // ----- leaving a match

  ghost function Opponent(players: set<UserId>, user: UserId): Option<UserId> {
    if exists opponent :: opponent in players - {user} then
      var opponent :| opponent in players - {user};
      Some(opponent)
    else None
  }

  ghost function ForfeitMatch(c: Config, m: Match, user: UserId, now: Time): Result<Match> {
    var opponent := Opponent(m.participants.Keys, user);
    if m.state != Active then Err(InvalidState)
    else if SubmitPending(m, {user}) then Err(ExecutionInProgress)
    else Finalize(c, m, if opponent.Some? then Forfeit else Cancelled, opponent, now)
  }

  function CancelMatch(m: Match, now: Time): Result<Match> {
    if m.state != Lobby then Err(InvalidState)
    else
      Ok(AppendEvent(
           m.(state := Finished, finishedAt := Some(now), endReason := Some(Cancelled),
              participants := map u | u in m.participants :: m.participants[u].(outcome := Some(OutCancelled))),
           MatchFinished, now))
  }

  // ----- lobby and countdown

  function SetLanguage(m: Match, user: UserId, language: Language, now: Time): Result<Match>
  {
    if user !in m.participants then Err(NotAParticipant)
    else if m.state != Lobby then Err(InvalidState)
    else if m.challenge == AiMl then Err(InvalidChallengeType)
    else
      var p := m.participants[user].(language := Some(language), ready := false);
      Ok(AppendEvent(m.(participants := m.participants[user := p]), LanguageChanged, now))
  }

  function FreshProblems(all: seq<Problem>, used: seq<nat>): seq<Problem> {
    if all == [] then []
    else (if all[0].id in used then [] else [all[0]]) + FreshProblems(all[1..], used)
  }

  function Candidates(all: seq<Problem>, previous: seq<nat>): seq<Problem> {
    var unused := FreshProblems(all, previous);
    var noRepeat := if previous == [] then all else FreshProblems(all, [previous[0]]);
    if unused != [] then unused else if noRepeat != [] then noRepeat else all
  }

  /** `previous` lists the room's earlier problems, latest first. */
  function ChooseProblem(all: seq<Problem>, previous: seq<nat>, pick: nat): Result<Problem> {
    if all == [] then Err(NoProblemAvailable)
    else
      var candidates := Candidates(all, previous);
      if pick < |candidates| then Ok(candidates[pick]) else Err(Internal)
  }

  predicate EveryoneReady(m: Match) {
    && |m.participants| == Seats(m.mode)
    && forall u :: u in m.participants ==>
         m.participants[u].ready && (m.challenge == AiMl || m.participants[u].language.Some?)
  }

  /** `live` holds the players with a fresh session row. */
  predicate Live(m: Match, live: set<UserId>, user: UserId)
    requires user in m.participants
  {
    m.participants[user].connected && user in live
  }

  function BeginCountdown(c: Config, m: Match, problem: Problem, now: Time): Match {
    AppendEvent(
      m.(state := Countdown, problem := Some(problem), startsAt := Some(now + c.countdown),
         answerDeadline := if m.challenge == AiMl then Some(now + c.countdown + c.answerDuration) else None),
      CountdownStarted, now)
  }

  function SetReady(c: Config, m: Match, user: UserId, ready: bool, live: set<UserId>, all: seq<Problem>,
                    previous: seq<nat>, pick: nat, now: Time): Result<Match>
  {
    if user !in m.participants then Err(NotAParticipant)
    else if m.state != Lobby then Err(InvalidState)
    else if ready && m.challenge == Coding && m.participants[user].language.None? then Err(LanguageRequired)
    else if ready && !Live(m, live, user) then Err(InvalidState)
    else
      var changed := AppendEvent(
                       m.(participants := m.participants[user := m.participants[user].(ready := ready)]),
                       ReadyChanged, now);
      if !EveryoneReady(changed) then Ok(changed)
      else if exists u :: u in changed.participants && !Live(changed, live, u) then Err(InvalidState)
      else
        var problem :- ChooseProblem(all, previous, pick);
        Ok(BeginCountdown(c, changed, problem, now))
  }

  function Armed(c: Config, p: Participant, startsAt: Time): Participant {
    if p.connected || p.reconnectDeadline.Some? then p
    else
      var since := if p.disconnectedAt.Some? then Max(p.disconnectedAt.value, startsAt) else startsAt;
      p.(disconnectedAt := Some(since), reconnectDeadline := Some(since + c.reconnectGrace))
  }

  function AdvanceCountdown(c: Config, m: Match, now: Time): Match {
    if m.state != Countdown || !StartsBy(m, now) then m
    else if m.mode == Duel then
      Activate(m.(participants := map u | u in m.participants :: Armed(c, m.participants[u], m.startsAt.value)), now)
    else Activate(m, now)
  }

  // ----- presence

  ghost function Connect(c: Config, m: Match, user: UserId, now: Time): Result<Match> {
    var settled :- EvaluateDisconnects(c, m, now);
    if user !in settled.participants then Err(NotAParticipant)
    else
      var p := settled.participants[user];
      var back := settled.(participants := settled.participants[
                             user := p.(connected := true, disconnectedAt := None, reconnectDeadline := None)]);
      Ok(if p.connected then back else AppendEvent(back, ConnectionChanged, now))
  }

  /** `active` and `lastSeen` are what the presence query over the session rows returns. */
  function Reconcile(c: Config, m: Match, user: UserId, active: bool, lastSeen: Option<Time>, now: Time): Result<Match>
  {
    if user !in m.participants then Err(NotAParticipant)
    else
      var p := m.participants[user];
      if active || !p.connected || lastSeen.None? then Ok(m)
      else
        var gone := p.(connected := false, disconnectedAt := lastSeen,
                       reconnectDeadline := if m.state == Active && m.mode == Duel
                       then Some(lastSeen.value + c.reconnectGrace) else None);
        Ok(AppendEvent(m.(participants := m.participants[user := gone]), ConnectionChanged, now))
  }

  // ----- membership and rematch

  function JoinMatch(m: Match, user: UserId, now: Time): Match {
    AppendEvent(m.(participants := m.participants[user := NewParticipant(2)]), PlayerJoined, now)
  }

  function Vote(m: Match, user: UserId, now: Time): Match {
    if user in m.votes then m else AppendEvent(m.(votes := m.votes + {user}), RematchVoted, now)
  }
}
