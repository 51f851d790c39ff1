/** Vocabulary shared by the match engine and the AI/ML arena
    (src/server/domain/types.ts, src/server/domain/errors.ts). */
module Domain {

  datatype Option<+T> = None | Some(value: T)

  datatype Result<+T> = Ok(value: T) | Err(error: Error) {
    predicate IsFailure() {
      Err?
    }

    function PropagateFailure<U>(): Result<U>
      requires Err?
    {
      Err(error)
    }

    function Extract(): T
      requires Ok?
    {
      value
    }
  }

  /** Error codes of DomainError; Internal stands for a plain thrown Error. */
  datatype Error =
    | ProfileRequired
    | RoomNotFound
    | HostCannotJoinOwnRoom
    | RoomFull
    | MatchNotFound
    | NotAParticipant
    | InvalidChallengeType
    | InvalidState
    | IdempotencyKeyRequired
    | IdempotencyConflict
    | LanguageRequired
    | NoProblemAvailable
    | SourceTooLarge
    | ExecutionInProgress
    | RateLimited
    | CooldownActive
    | RematchExpired
    | AnswerLimit
    | AnswerDeadlinePassed
    | AnswerAlreadySubmitted
    | JudgeUnavailable
    | Internal

  /** Microseconds, the resolution of a PostgreSQL timestamp. */
  type Time = int

  // Identifiers stand for database keys; only equality is ever used on them.
  newtype Id = x: int | 0 <= x

  type UserId = Id
  type RoomId = Id
  type MatchId = Id
  type ExecutionId = Id

  datatype Mode = Duel | Practice
  datatype Challenge = Coding | AiMl
  datatype Difficulty = Easy | Medium | Hard
  datatype Language = Python | Java
  datatype State = Lobby | Countdown | Active | Judging | Finished | RematchPending

  datatype EndReason =
    | Accepted
    | Forfeit
    | Cancelled
    | NoContest
    | Judged
    | AnswerTimeout
    | JudgeFailed

  datatype Outcome = Win | Loss | Draw | OutNoContest | OutCancelled

  datatype Kind = Run | Submit

  datatype Verdict =
    | VAccepted
    | VWrongAnswer
    | VCompileError
    | VRuntimeError
    | VTimeout
    | VMemoryLimit
    | VOutputLimit
    | VInfraError

  /** Number.MAX_SAFE_INTEGER. */
  const MAX_SAFE_INTEGER := 0x1f_ffff_ffff_ffff

  function Max(a: int, b: int): int {
    if a < b then b else a
  }
}
