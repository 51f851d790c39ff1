/** What each transaction of arena-service.ts makes of one AI/ML match. */
module ArenaRules {
  import opened Domain
  import opened MatchTypes
  import MatchRules
  import DuelScoring

  /** The registry's question and judge prompt for a match. */
  datatype Material = Material(schemaVersion: string, criteria: seq<DuelScoring.Criterion>)

  predicate MaterialOk(material: Material) {
    && 3 <= |material.criteria| <= 5
    && (forall i :: 0 <= i < |material.criteria| ==> material.criteria[i].maxScore > 0)
    && DuelScoring.MaxTotal(material.criteria) == 100
  }

  function NoContestFor(participants: map<UserId, Participant>): map<UserId, Participant> {
    map u | u in participants :: participants[u].(outcome := Some(OutNoContest), activeExecution := None)
  }

  /** MATCH_FINISHED, then the rematch window of a duel. */
  function Conclude(c: Config, m: Match, now: Time): Match {
    var finished := AppendEvent(m, MatchFinished, now);
    if m.mode == Duel then MatchRules.OpenRematch(c, finished, now) else finished
  }

  function SkippedVerdict(mode: Mode): DuelScoring.JudgeResult {
    var b := if mode == Duel then Some(0) else None;
    DuelScoring.JudgeResult(0, b, 0, b, None, DuelScoring.NoTie)
  }

  /** A match with its result columns set; records apply to a won duel. */
  function Resulted(m: Match, e: Evaluation, winner: Option<UserId>, reason: EndReason,
                    participants: map<UserId, Participant>, now: Time): Match
  {
    m.(evaluation := Some(e), state := Finished, winner := winner, endReason := Some(reason), finishedAt := Some(now),
       recordsApplied := m.mode == Duel && winner.Some?, participants := participants)
  }

  function FinalizeSkipped(c: Config, m: Match, e: Evaluation, reason: EndReason, now: Time): Match {
    var skipped := e.(status := Skipped, verdict := Some(SkippedVerdict(m.mode)));
    Conclude(c, AppendEvent(Resulted(m, skipped, None, reason, NoContestFor(m.participants), now),
                            AutomaticResolution, now), now)
  }

  predicate TimedOut(m: Match) {
    exists u :: u in m.answers && m.answers[u].source == Deadline
  }

  predicate AllBlank(m: Match) {
    forall u :: u in m.answers ==> m.answers[u].text == ""
  }

  function NewEvaluation(m: Match, material: Material, userA: UserId, userB: Option<UserId>): Evaluation
    requires userA in m.answers && (userB.Some? ==> userB.value in m.answers)
  {
    Evaluation(
      DuelScoring.Snapshot(m.mode, material.schemaVersion, material.criteria, m.answers[userA].text,
                           if userB.Some? then Some(m.answers[userB.value].text) else None),
      userA, userB, 0, Pending, None, None)
  }

  /** The new evaluation, resolved at once when every answer is blank. */
  function Prepared(c: Config, m: Match, e: Evaluation, now: Time): Match {
    var judging := AppendEvent(m.(evaluation := Some(e), state := State.Judging), JudgingStarted, now);
    if AllBlank(m) then FinalizeSkipped(c, judging, e, if TimedOut(m) then AnswerTimeout else NoContest, now)
    else judging
  }

  /** `userA` is the participant the anonymous mapper puts first. */
  ghost function PrepareEvaluation(c: Config, m: Match, material: Option<Material>, userA: UserId,
                                   now: Time): Result<Match>
  {
    if m.state != Active then Ok(m)
    else if m.problem.None? then Err(Internal)
    else if |m.participants| != Seats(m.mode) || m.answers.Keys != m.participants.Keys then Ok(m)
    else if material.None? then Err(JudgeUnavailable)
    else if !MaterialOk(material.value) || userA !in m.participants then Err(Internal)
    else if m.mode == Duel && m.participants.Keys - {userA} == {} then Err(Internal)
    else if m.evaluation.Some? then Ok(m)
    else
      var userB := if m.mode == Duel then (var b :| b in m.participants.Keys - {userA}; Some(b)) else None;
      Ok(Prepared(c, m, NewEvaluation(m, material.value, userA, userB), now))
  }

  ghost function SubmitAnswer(c: Config, m: Match, user: UserId, text: string, material: Option<Material>,
                              userA: UserId, now: Time): Result<Match>
  {
    if m.state != Active || m.answerDeadline.None? then Err(InvalidState)
    else if now >= m.answerDeadline.value then Err(AnswerDeadlinePassed)
    else if user in m.answers then Err(AnswerAlreadySubmitted)
    else
      var answered := AppendEvent(m.(answers := m.answers[user := Answer(text, Player, now)]), AnswerSubmitted, now);
      PrepareEvaluation(c, answered, material, userA, now)
  }

  function AppendEvents(m: Match, kind: EventKind, count: nat, now: Time): Match {
    if count == 0 then m else AppendEvent(AppendEvents(m, kind, count - 1, now), kind, now)
  }

  function Missing(m: Match): set<UserId> {
    m.participants.Keys - m.answers.Keys
  }

  function FillMissing(m: Match, deadline: Time, now: Time): Match {
    AppendEvents(m.(answers := m.answers + map u | u in Missing(m) :: Answer("", Deadline, deadline)),
                 AnswerTimedOut, |Missing(m)|, now)
  }

  ghost function ProcessAnswerDeadline(c: Config, m: Match, material: Option<Material>, userA: UserId,
                                       now: Time): Result<Match>
  {
    if m.state != Active || m.answerDeadline.None? || m.answerDeadline.value > now then Ok(m)
    else PrepareEvaluation(c, FillMissing(m, m.answerDeadline.value, now), material, userA, now)
  }

  predicate Claimable(c: Config, e: Evaluation, now: Time) {
    match e.status
    case Concluded => false
    case Skipped => false
    case Pending => true
    case InProgress(_, claimedAt) => claimedAt <= now - c.staleClaim
    case Failed(retryable, notBefore) => retryable && (notBefore.Some? ==> notBefore.value <= now)
  }

  /** Nothing but the evaluation row changes: claiming takes no match lock. */
  function ClaimEvaluation(c: Config, m: Match, now: Time): Option<Match> {
    if m.evaluation.None? || !Claimable(c, m.evaluation.value, now) then None
    else
      var e := m.evaluation.value;
      Some(m.(evaluation := Some(e.(claims := e.claims + 1, status := InProgress(e.claims + 1, now)))))
  }

  predicate HoldsClaim(m: Match, claim: nat) {
    m.state == State.Judging && m.evaluation.Some?
    && m.evaluation.value.status.InProgress? && m.evaluation.value.status.claim == claim
  }

  function PersistFailure(c: Config, m: Match, claim: nat, retryable: bool, budgetOpen: bool, now: Time): Match {
    if !HoldsClaim(m, claim) then m
    else
      var delay := if budgetOpen then c.budgetRecovery else c.judgeRecovery;
      var e := m.evaluation.value.(status := Failed(retryable, if retryable then Some(now + delay) else None));
      if retryable then AppendEvent(m.(evaluation := Some(e)), JudgeFailure, now)
      else
        Conclude(c, AppendEvent(Resulted(m, e, None, JudgeFailed, NoContestFor(m.participants), now), JudgeFailure,
                                now), now)
  }

  function WinnerUser(e: Evaluation, side: Option<DuelScoring.Label>): Option<UserId> {
    match side
    case None => None
    case Some(A) => Some(e.userA)
    case Some(B) => e.userB
  }

  predicate Percent(n: int) {
    0 <= n <= 100
  }

  /** The CHECK constraints on a COMPLETED row (db/migrations/004_ai_ml_arena.sql). */
  predicate CompletionCheck(e: Evaluation, r: DuelScoring.JudgeResult, winner: Option<UserId>) {
    var s := e.snapshot;
    && Percent(r.rawA) && Percent(r.officialA)
    && (r.rawB.Some? ==> Percent(r.rawB.value)) && (r.officialB.Some? ==> Percent(r.officialB.value))
    && (if s.mode == Duel then
          && r.rawB.Some? && r.officialB.Some? && e.userB.Some?
          && ((winner == Some(e.userA) && r.officialA > r.officialB.value)
              || (winner == e.userB && r.officialB.value > r.officialA))
        else
          && r.rawB.None? && r.officialB.None? && winner.None?
          && r.reason == DuelScoring.NoTie && r.officialA == r.rawA)
    && (if s.mode == Practice then s.answerA != ""
        else
          var blankA, blankB := s.answerA == "", s.answerB == Some("");
          && !(blankA && blankB)
          && ((blankA || blankB) == (r.reason == DuelScoring.BlankForfeit))
          && (blankA ==> r.rawA == 0 && r.officialA == 0)
          && (blankB ==> r.rawB == Some(0) && r.officialB == Some(0)))
  }

  function JudgedOutcomes(participants: map<UserId, Participant>, mode: Mode,
                          winner: Option<UserId>): map<UserId, Participant>
  {
    map u | u in participants ::
      participants[u].(outcome := Some(if mode == Practice then Draw else if winner == Some(u) then Win else Loss),
                       activeExecution := None)
  }

  /** The worker's copy of the snapshot and of the A/B mapping is the row's: both are immutable. */
  function PersistSuccess(c: Config, m: Match, claim: nat, result: DuelScoring.JudgeResult, now: Time): Result<Match> {
    if m.evaluation.None? then Ok(m)
    else
      var e := m.evaluation.value;
      var r := DuelScoring.AdjustForStorage(e.snapshot, result);
      var winner := WinnerUser(e, r.winner);
      if e.snapshot.mode == Duel && winner.None? then Err(Internal)
      else if !HoldsClaim(m, claim) then Ok(m)
      else if !CompletionCheck(e, r, winner) then Err(Internal)
      else
        Ok(Conclude(c, AppendEvent(
             Resulted(m, e.(status := Concluded, verdict := Some(r), winner := winner), winner,
                      if TimedOut(m) then AnswerTimeout else EndReason.Judged,
                      JudgedOutcomes(m.participants, m.mode, winner), now),
             JudgmentCompleted, now), now))
  }

  /** retryEvaluation only admits the command; the evaluation itself then claims as usual. */
  function RetryRefusal(m: Match, now: Time): Option<Error> {
    if m.state != State.Judging || m.evaluation.None? || !m.evaluation.value.status.Failed? then Some(InvalidState)
    else if !m.evaluation.value.status.retryable then Some(InvalidState)
    else if var notBefore := m.evaluation.value.status.retryNotBefore; notBefore.Some? && notBefore.value > now
    then Some(RateLimited)
    else None
  }
}
