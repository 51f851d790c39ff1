/** Rows of the match tables (db/migrations/001_initial.sql, 004_ai_ml_arena.sql), reduced to the columns some
    transition reads. Everything that hangs off one match row is stored with it. */
module MatchTypes {
  import opened Domain
  import DuelScoring
  import StateMachine

  datatype Config = Config(
    countdown: Time,
    reconnectGrace: Time,
    rematchWindow: Time,
    sampleInterval: Time,
    cooldown: Time,
    answerDuration: Time,
    maxSourceBytes: nat,
    staleClaim: Time,
    judgeRecovery: Time,
    budgetRecovery: Time)

  datatype Problem = Problem(id: nat, version: nat)

  datatype Participant = Participant(
    slot: nat,
    language: Option<Language>,
    ready: bool,
    activeExecution: Option<ExecutionId>,
    cooldownUntil: Option<Time>,
    lastSampleRunAt: Option<Time>,
    connected: bool,
    disconnectedAt: Option<Time>,
    reconnectDeadline: Option<Time>,
    outcome: Option<Outcome>)

  function NewParticipant(slot: nat): Participant {
    Participant(slot, None, false, None, None, None, false, None, None, None)
  }

  /** Durations are in the stored unit, a thousandth of a millisecond. */
  datatype RunnerResult = RunnerResult(verdict: Verdict, passed: int, total: int, runtime: Option<int>,
                                       compile: Option<int>)

  datatype Status = Queued | Running | Completed(result: RunnerResult)

  datatype Execution = Execution(user: UserId, kind: Kind, receivedAt: Time, sequence: int, status: Status)

  predicate Inflight(e: Execution) {
    !e.status.Completed?
  }

  predicate InflightSubmit(e: Execution) {
    e.kind == Submit && Inflight(e)
  }

  predicate AcceptedSubmit(e: Execution) {
    e.kind == Submit && e.status.Completed? && e.status.result.verdict == VAccepted
  }

  function Receipt(e: Execution): StateMachine.Candidate {
    StateMachine.Candidate(
      e.receivedAt,
      if e.status.Completed? && e.status.result.runtime.Some? then e.status.result.runtime.value else 0,
      e.sequence)
  }

  datatype EventKind =
    | MatchCreated
    | PlayerJoined
    | LanguageChanged
    | ReadyChanged
    | CountdownStarted
    | MatchActive
    | ExecutionStarted
    | ExecutionProgress
    | ExecutionCompleted
    | ConnectionChanged
    | MatchFinished
    | RematchOpened
    | RematchVoted
    | RematchCreated
    | AnswerSubmitted
    | AnswerTimedOut
    | JudgingStarted
    | AutomaticResolution
    | JudgeFailure
    | JudgmentCompleted

  datatype Event = Event(version: nat, kind: EventKind, at: Time)

  datatype Source = Player | Deadline

  datatype Answer = Answer(text: string, source: Source, submittedAt: Time)

  datatype EvaluationStatus =
    | Pending
    | InProgress(claim: nat, claimedAt: Time)
    | Failed(retryable: bool, retryNotBefore: Option<Time>)
    | Concluded
    | Skipped

  /** `claims` is the source of claim ids: randomUUID never repeats one, and neither does a counter. */
  datatype Evaluation = Evaluation(
    snapshot: DuelScoring.Snapshot,
    userA: UserId,
    userB: Option<UserId>,
    claims: nat,
    status: EvaluationStatus,
    verdict: Option<DuelScoring.JudgeResult>,
    winner: Option<UserId>)

  datatype Match = Match(
    roomId: RoomId,
    round: nat,
    previous: Option<MatchId>,
    challenge: Challenge,
    mode: Mode,
    difficulty: Difficulty,
    state: State,
    problem: Option<Problem>,
    startsAt: Option<Time>,
    answerDeadline: Option<Time>,
    finishedAt: Option<Time>,
    rematchDeadline: Option<Time>,
    rematchCreated: Option<MatchId>,
    winner: Option<UserId>,
    endReason: Option<EndReason>,
    recordsApplied: bool,
    version: nat,
    events: seq<Event>,
    participants: map<UserId, Participant>,
    executions: map<ExecutionId, Execution>,
    votes: set<UserId>,
    answers: map<UserId, Answer>,
    evaluation: Option<Evaluation>)

  function NewMatch(roomId: RoomId, round: nat, previous: Option<MatchId>, challenge: Challenge, mode: Mode,
                    difficulty: Difficulty, participants: map<UserId, Participant>): Match
  {
    Match(roomId, round, previous, challenge, mode, difficulty, Lobby, None, None, None, None, None, None, None, None,
          false, 0, [], participants, map[], {}, map[], None)
  }

  function Seats(mode: Mode): nat {
    if mode == Practice then 1 else 2
  }

  /** max(server_timestamp) over a match's events. */
  function LatestEvent(events: seq<Event>): Option<Time> {
    if events == [] then None
    else
      var front := LatestEvent(events[..|events| - 1]);
      var last := events[|events| - 1].at;
      Some(if front.Some? then Max(front.value, last) else last)
  }

  function EventTime(events: seq<Event>, now: Time): Time {
    var latest := LatestEvent(events);
    if latest.Some? then Max(now, latest.value + 1) else now
  }

  /** appendEvent bumps the version and stamps a strictly later time. */
  function AppendEvent(m: Match, kind: EventKind, now: Time): Match {
    m.(version := m.version + 1, events := m.events + [Event(m.version + 1, kind, EventTime(m.events, now))])
  }

  datatype Room = Room(host: UserId, difficulty: Difficulty, mode: Mode, challenge: Challenge, active: MatchId,
                       closed: bool, members: map<UserId, nat>)

  datatype Record = Record(wins: nat, losses: nat)

  datatype CommandType =
    | CreateRoomCommand
    | JoinRoomCommand
    | SetLanguageCommand
    | SetReadyCommand
    | CancelCommand
    | ExecuteCommand(kind: Kind)
    | RematchCommand
    | ForfeitCommand
    | SubmitAnswerCommand
    | RetryJudgingCommand

  /** Payloads are compared directly instead of through their hashes. */
  datatype Payload =
    | Empty
    | RoomOptions(difficulty: Difficulty, mode: Mode, challenge: Challenge)
    | RoomRef(roomId: RoomId)
    | LanguageChoice(language: Language)
    | ReadyChoice(ready: bool)
    | SourceText(source: string)
    | AnswerBody(answer: string)

  datatype Response =
    | Done
    | RoomResponse(roomId: RoomId, matchId: MatchId)
    | ExecutionResponse(executionId: ExecutionId)
    | MatchResponse(matchId: MatchId)
    | EvaluationResponse(pending: bool)

  datatype CommandReceipt = CommandReceipt(command: CommandType, matchId: Option<MatchId>, payload: Payload,
                                           response: Option<Response>)

  datatype CommandKey = CommandKey(actor: UserId, key: string)
}
