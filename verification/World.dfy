/** All tables at once, and every transaction of the two services as one atomic step on them. A step that throws
    leaves the tables as they were. */
module World {
  import opened Domain
  import opened MatchTypes
  import opened MatchRules
  import opened ArenaRules
  import AnswerText
  import DuelScoring

  datatype World = World(
    profiles: set<UserId>,
    rooms: map<RoomId, Room>,
    matches: map<MatchId, Match>,
    records: map<UserId, Record>,
    receipts: map<CommandKey, CommandReceipt>,
    nextId: Id)

  const INITIAL := World({}, map[], map[], map[], map[], 0)

  /** Configuration and problem catalog stay fixed for a run. */
  datatype Setting = Setting(config: Config, catalog: map<(Challenge, Difficulty), seq<Problem>>)

  function Problems(s: Setting, challenge: Challenge, difficulty: Difficulty): seq<Problem> {
    if (challenge, difficulty) in s.catalog then s.catalog[(challenge, difficulty)] else []
  }

  datatype Reply = Applied(response: Response) | Replayed(stored: Option<Response>) | Refused(error: Error) | Ran

  datatype Step =
    | Register(user: UserId)
    | CreateRoom(actor: UserId, key: string, difficulty: Difficulty, mode: Mode, challenge: Challenge, now: Time)
    | JoinRoom(actor: UserId, key: string, room: RoomId, now: Time)
    | ChooseLanguage(actor: UserId, key: string, id: MatchId, language: Language, now: Time)
    | Ready(actor: UserId, key: string, id: MatchId, ready: bool, live: set<UserId>, pick: nat, now: Time)
    | Cancel(actor: UserId, key: string, id: MatchId, now: Time)
    | Start(actor: UserId, key: string, id: MatchId, kind: Kind, source: string, receivedAt: Time, sequence: int,
            now: Time)
    | Mark(id: MatchId, execution: ExecutionId, now: Time)
    | Complete(id: MatchId, execution: ExecutionId, result: RunnerResult, now: Time)
    | Leave(actor: UserId, key: string, id: MatchId, now: Time)
    | Rematch(actor: UserId, key: string, id: MatchId, now: Time)
    | Advance(id: MatchId, now: Time)
    | Attach(user: UserId, id: MatchId, now: Time)
    | Detach(user: UserId, id: MatchId, active: bool, lastSeen: Option<Time>, now: Time)
    | SweepDisconnects(id: MatchId, now: Time)
    | Submission(actor: UserId, key: string, id: MatchId, answer: string, material: Option<Material>, userA: UserId,
                 now: Time)
    | SweepDeadline(id: MatchId, material: Option<Material>, userA: UserId, now: Time)
    | Claim(id: MatchId, now: Time)
    | Fail(id: MatchId, claim: nat, retryable: bool, budgetOpen: bool, now: Time)
    | Succeed(id: MatchId, claim: nat, judged: DuelScoring.JudgeResult, now: Time)
    | Retry(actor: UserId, key: string, id: MatchId, now: Time)

  // ----- writing a match back, with the records its finalization bumps

  function Bumped(records: map<UserId, Record>, m: Match): map<UserId, Record> {
    map u | u in records ::
      if u !in m.participants then records[u]
      else if m.winner == Some(u) then records[u].(wins := records[u].wins + 1)
      else records[u].(losses := records[u].losses + 1)
  }

  function Recorded(records: map<UserId, Record>, m: Match, n: Match): map<UserId, Record> {
    if n.recordsApplied && !m.recordsApplied then Bumped(records, n) else records
  }

  function Commit(w: World, id: MatchId, n: Match): World
    requires id in w.matches
  {
    w.(matches := w.matches[id := n], records := Recorded(w.records, w.matches[id], n))
  }

  /** A background transaction on one match. */
  function Background(w: World, id: MatchId, r: Result<Match>): (World, Reply)
    requires id in w.matches
  {
    match r
    case Err(e) => (w, Refused(e))
    case Ok(n) => (Commit(w, id, n), Ran)
  }

  // ----- idempotent commands

  predicate KeyOk(key: string) {
    0 < |key| <= 200
  }

  /** reserveCommand, the command's effect, completeCommand. The effect never reads or writes receipts. */
  function Command(w: World, actor: UserId, key: string, command: CommandType, id: Option<MatchId>, payload: Payload,
                   effect: Result<(World, Response)>): (World, Reply)
  {
    var slot := CommandKey(actor, key);
    if !KeyOk(key) then (w, Refused(IdempotencyKeyRequired))
    else if slot in w.receipts then
      var earlier := w.receipts[slot];
      if earlier.command != command || earlier.matchId != id || earlier.payload != payload
      then (w, Refused(IdempotencyConflict))
      else (w, Replayed(earlier.response))
    else
      match effect
      case Err(e) => (w, Refused(e))
      case Ok((after, response)) =>
        (after.(receipts := w.receipts[slot := CommandReceipt(command, id, payload, Some(response))]),
         Applied(response))
  }

  function MatchEffect(w: World, id: MatchId, r: Result<Match>, response: Response): Result<(World, Response)>
    requires id in w.matches
  {
    match r
    case Err(e) => Err(e)
    case Ok(n) => Ok((Commit(w, id, n), response))
  }

  /** lockMatch, lockParticipant, then a command whose effect is one rule on that match. */
  function MatchCommand(w: World, actor: UserId, key: string, command: CommandType, id: MatchId, payload: Payload,
                        r: Result<Match>, response: Response): (World, Reply)
    requires id in w.matches
  {
    if actor !in w.matches[id].participants then (w, Refused(NotAParticipant))
    else Command(w, actor, key, command, Some(id), payload, MatchEffect(w, id, r, response))
  }

  // ----- rooms

  function RegisterProfile(w: World, user: UserId): World {
    if user in w.profiles then w
    else w.(profiles := w.profiles + {user}, records := w.records[user := Record(0, 0)])
  }

  function HostedBy(host: UserId, difficulty: Difficulty, mode: Mode, challenge: Challenge, active: MatchId): Room {
    Room(host, difficulty, mode, challenge, active, false, map[host := 1])
  }

  function FirstRound(host: UserId, roomId: RoomId, difficulty: Difficulty, mode: Mode, challenge: Challenge,
                      now: Time): Match
  {
    AppendEvent(NewMatch(roomId, 1, None, challenge, mode, difficulty, map[host := NewParticipant(1)]), MatchCreated,
                now)
  }

  function OpenRoom(w: World, actor: UserId, difficulty: Difficulty, mode: Mode, challenge: Challenge,
                    now: Time): (World, Response)
  {
    var roomId, matchId := w.nextId, w.nextId + 1;
    (w.(rooms := w.rooms[roomId := HostedBy(actor, difficulty, mode, challenge, matchId)],
        matches := w.matches[matchId := FirstRound(actor, roomId, difficulty, mode, challenge, now)],
        nextId := w.nextId + 2),
     RoomResponse(roomId, matchId))
  }

  function CreateRoomStep(w: World, actor: UserId, key: string, difficulty: Difficulty, mode: Mode,
                          challenge: Challenge,
                          now: Time): (World, Reply)
  {
    if actor !in w.profiles then (w, Refused(ProfileRequired))
    else
      Command(w, actor, key, CreateRoomCommand, None, RoomOptions(difficulty, mode, challenge),
              Ok(OpenRoom(w, actor, difficulty, mode, challenge, now)))
  }

  function Seat(w: World, actor: UserId, room: RoomId, now: Time): Result<(World, Response)>
    requires room in w.rooms && w.rooms[room].active in w.matches
  {
    var r := w.rooms[room];
    var response := RoomResponse(room, r.active);
    if actor in r.members then Ok((w, response))
    else if exists u :: u in r.members && r.members[u] == 2 then Err(RoomFull)
    else
      Ok((w.(rooms := w.rooms[room := r.(members := r.members[actor := 2])],
             matches := w.matches[r.active := JoinMatch(w.matches[r.active], actor, now)]), response))
  }

  function JoinRoomStep(w: World, actor: UserId, key: string, room: RoomId, now: Time): (World, Reply) {
    if actor !in w.profiles then (w, Refused(ProfileRequired))
    else if room !in w.rooms || w.rooms[room].active !in w.matches then (w, Refused(RoomNotFound))
    else
      var r := w.rooms[room];
      if r.mode == Practice then (w, Refused(RoomNotFound))
      else if r.host == actor then (w, Refused(HostCannotJoinOwnRoom))
      else if r.closed && actor !in r.members then (w, Refused(RoomNotFound))
      else Command(w, actor, key, JoinRoomCommand, Some(r.active), RoomRef(room), Seat(w, actor, room, now))
  }

  function CloseRoom(w: World, room: RoomId): World {
    if room in w.rooms then w.(rooms := w.rooms[room := w.rooms[room].(closed := true)]) else w
  }

  function CancelEffect(w: World, id: MatchId, now: Time): Result<(World, Response)>
    requires id in w.matches
  {
    var n :- CancelMatch(w.matches[id], now);
    Ok((CloseRoom(Commit(w, id, n), n.roomId), Done))
  }

  function CancelStep(w: World, actor: UserId, key: string, id: MatchId, now: Time): (World, Reply)
    requires id in w.matches
  {
    var m := w.matches[id];
    if actor !in m.participants || m.participants[actor].slot != 1 then (w, Refused(NotAParticipant))
    else Command(w, actor, key, CancelCommand, Some(id), Payload.Empty, CancelEffect(w, id, now))
  }

  // ----- choosing a problem

  predicate Listed(matches: map<MatchId, Match>, like: Match, round: nat, id: MatchId) {
    && id in matches && matches[id].roomId == like.roomId && matches[id].round == round
    && matches[id].challenge == like.challenge && matches[id].difficulty == like.difficulty
    && matches[id].problem.Some?
  }

  ghost function ListedAt(matches: map<MatchId, Match>, like: Match, round: nat): Option<MatchId> {
    if exists id :: Listed(matches, like, round, id) then
      var id :| Listed(matches, like, round, id);
      Some(id)
    else None
  }

  /** Problem ids of the rounds below `round` in a match's room, latest first. */
  ghost function ProblemsBelow(matches: map<MatchId, Match>, like: Match, round: nat): seq<nat> {
    if round <= 1 then []
    else
      var id := ListedAt(matches, like, round - 1);
      (if id.Some? then [matches[id.value].problem.value.id] else []) + ProblemsBelow(matches, like, round - 1)
  }

  ghost function ReadyRule(s: Setting, w: World, id: MatchId, actor: UserId, ready: bool, live: set<UserId>, pick: nat,
                           now: Time): Result<Match>
    requires id in w.matches
  {
    var m := w.matches[id];
    SetReady(s.config, m, actor, ready, live, Problems(s, m.challenge, m.difficulty),
             ProblemsBelow(w.matches, m, m.round), pick, now)
  }

  // ----- executions

  function Utf8Bytes(source: string): nat {
    AnswerText.Utf8Length(source)
  }

  function StartStep(s: Setting, w: World, actor: UserId, key: string, id: MatchId, kind: Kind, source: string,
                     receivedAt: Time, sequence: int, now: Time): (World, Reply)
    requires id in w.matches
  {
    var m := w.matches[id];
    if !KeyOk(key) then (w, Refused(IdempotencyKeyRequired))
    else if Utf8Bytes(source) > s.config.maxSourceBytes then (w, Refused(SourceTooLarge))
    else if actor !in m.participants then (w, Refused(NotAParticipant))
    else if m.challenge != Coding then (w, Refused(InvalidChallengeType))
    else
      var execution := w.nextId;
      var r := StartExecution(s.config, m, actor, execution, kind, receivedAt, sequence, now);
      Command(w, actor, key, ExecuteCommand(kind), Some(id), SourceText(source),
              MatchEffect(w.(nextId := w.nextId + 1), id, r, ExecutionResponse(execution)))
  }

  // ----- rematch

  predicate AtRound(w: World, room: RoomId, round: nat, id: MatchId) {
    id in w.matches && w.matches[id].roomId == room && w.matches[id].round == round
  }

  function Seated(members: map<UserId, nat>): map<UserId, Participant> {
    map u | u in members :: NewParticipant(members[u])
  }

  function LinkedTo(voted: Match, next: MatchId, now: Time): Match {
    AppendEvent(voted.(rematchCreated := Some(next)), RematchCreated, now)
  }

  function NextRound(room: Room, id: MatchId, voted: Match, now: Time): Match {
    AppendEvent(NewMatch(voted.roomId, voted.round + 1, Some(id), voted.challenge, voted.mode, voted.difficulty,
                         Seated(room.members)), MatchCreated, now)
  }

  /** The second vote inserts round n + 1 with the room's members; a conflicting insert is left alone. */
  function OpenNextRound(w: World, id: MatchId, voted: Match, now: Time): (World, Response)
    requires id in w.matches && voted.roomId in w.rooms
  {
    var room := w.rooms[voted.roomId];
    var next := w.nextId;
    if exists other :: other in w.matches && AtRound(w, voted.roomId, voted.round + 1, other) then
      (Commit(w, id, voted), MatchResponse(id))
    else
      (w.(rooms := w.rooms[voted.roomId := room.(active := next)],
          matches := w.matches[id := LinkedTo(voted, next, now)][next := NextRound(room, id, voted, now)],
          nextId := w.nextId + 1),
       MatchResponse(next))
  }

  function RematchEffect(w: World, actor: UserId, id: MatchId, now: Time): Result<(World, Response)>
    requires id in w.matches
  {
    var m := w.matches[id];
    if m.state != RematchPending || m.rematchDeadline.None? then Err(InvalidState)
    else if m.rematchCreated.Some? then Ok((w, MatchResponse(m.rematchCreated.value)))
    else if m.rematchDeadline.value <= now then Err(RematchExpired)
    else
      var voted := Vote(m, actor, now);
      if |voted.votes| == 2 && m.roomId in w.rooms then Ok(OpenNextRound(w, id, voted, now))
      else Ok((Commit(w, id, voted), MatchResponse(id)))
  }

  function RematchStep(w: World, actor: UserId, key: string, id: MatchId, now: Time): (World, Reply)
    requires id in w.matches
  {
    var m := w.matches[id];
    if actor !in m.participants then (w, Refused(NotAParticipant))
    else if m.mode == Practice then (w, Refused(InvalidState))
    else Command(w, actor, key, RematchCommand, Some(id), Payload.Empty, RematchEffect(w, actor, id, now))
  }

  // ----- arena

  ghost function SubmissionStep(s: Setting, w: World, actor: UserId, key: string, id: MatchId, answer: string,
                                material: Option<Material>, userA: UserId, now: Time): (World, Reply)
    requires id in w.matches
  {
    var m := w.matches[id];
    var measured := AnswerText.Measured(answer, AnswerText.ANSWER_LIMITS);
    if !KeyOk(key) then (w, Refused(IdempotencyKeyRequired))
    else if measured.violations != [] then (w, Refused(AnswerLimit))
    else if m.challenge != AiMl then (w, Refused(MatchNotFound))
    else
      var r := SubmitAnswer(s.config, m, actor, measured.normalized, material, userA, now);
      MatchCommand(w, actor, key, SubmitAnswerCommand, id, AnswerBody(measured.normalized), r,
                   EvaluationResponse(r.Ok? && r.value.state == State.Judging))
  }

  function RetryStep(w: World, actor: UserId, key: string, id: MatchId, now: Time): (World, Reply)
    requires id in w.matches
  {
    var m := w.matches[id];
    if m.challenge != AiMl then (w, Refused(MatchNotFound))
    else
      var refusal := RetryRefusal(m, now);
      MatchCommand(w, actor, key, RetryJudgingCommand, id, Payload.Empty,
                   if refusal.Some? then Err(refusal.value) else Ok(m), EvaluationResponse(true))
  }

  function ClaimStep(s: Setting, w: World, id: MatchId, now: Time): (World, Reply)
    requires id in w.matches
  {
    var r := ClaimEvaluation(s.config, w.matches[id], now);
    Background(w, id, if r.Some? then Ok(r.value) else Ok(w.matches[id]))
  }

  // ----- the step function and its runs

  ghost function MatchStep(s: Setting, w: World, step: Step): (World, Reply)
    requires !step.Register? && !step.CreateRoom? && !step.JoinRoom? && step.id in w.matches
  {
    var m := w.matches[step.id];
    var c := s.config;
    match step
    case ChooseLanguage(actor, key, id, language, now) =>
      MatchCommand(w, actor, key, SetLanguageCommand, id, LanguageChoice(language),
                   SetLanguage(m, actor, language, now), Done)
    case Ready(actor, key, id, ready, live, pick, now) =>
      MatchCommand(w, actor, key, SetReadyCommand, id, ReadyChoice(ready),
                   ReadyRule(s, w, id, actor, ready, live, pick, now), Done)
    case Cancel(actor, key, id, now) => CancelStep(w, actor, key, id, now)
    case Start(actor, key, id, kind, source, receivedAt, sequence, now) =>
      StartStep(s, w, actor, key, id, kind, source, receivedAt, sequence, now)
    case Mark(id, execution, now) => Background(w, id, Ok(MarkRunning(m, execution, now)))
    case Complete(id, execution, result, now) => Background(w, id, CompleteExecution(c, m, execution, result, now))
    case Leave(actor, key, id, now) =>
      MatchCommand(w, actor, key, ForfeitCommand, id, Payload.Empty, ForfeitMatch(c, m, actor, now), Done)
    case Rematch(actor, key, id, now) => RematchStep(w, actor, key, id, now)
    case Advance(id, now) => Background(w, id, Ok(AdvanceCountdown(c, m, now)))
    case Attach(user, id, now) => Background(w, id, Connect(c, m, user, now))
    case Detach(user, id, active, lastSeen, now) => Background(w, id, Reconcile(c, m, user, active, lastSeen, now))
    case SweepDisconnects(id, now) => Background(w, id, EvaluateDisconnects(c, m, now))
    case Submission(actor, key, id, answer, material, userA, now) =>
      SubmissionStep(s, w, actor, key, id, answer, material, userA, now)
    case SweepDeadline(id, material, userA, now) =>
      if m.challenge != AiMl then (w, Refused(MatchNotFound))
      else Background(w, id, ProcessAnswerDeadline(c, m, material, userA, now))
    case Claim(id, now) => ClaimStep(s, w, id, now)
    case Fail(id, claim, retryable, budgetOpen, now) =>
      Background(w, id, Ok(PersistFailure(c, m, claim, retryable, budgetOpen, now)))
    case Succeed(id, claim, result, now) => Background(w, id, PersistSuccess(c, m, claim, result, now))
    case Retry(actor, key, id, now) => RetryStep(w, actor, key, id, now)
  }

  ghost function Exec(s: Setting, w: World, step: Step): (World, Reply) {
    match step
    case Register(user) => (RegisterProfile(w, user), Ran)
    case CreateRoom(actor, key, difficulty, mode, challenge, now) =>
      CreateRoomStep(w, actor, key, difficulty, mode, challenge, now)
    case JoinRoom(actor, key, room, now) => JoinRoomStep(w, actor, key, room, now)
    case _ => if step.id !in w.matches then (w, Refused(MatchNotFound)) else MatchStep(s, w, step)
  }

  ghost function After(s: Setting, w: World, steps: seq<Step>): World
    decreases |steps|
  {
    if steps == [] then w else After(s, Exec(s, w, steps[0]).0, steps[1..])
  }
}
