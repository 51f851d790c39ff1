/** Executions over the columns: exactly what starting, running and completing one does to a match. */
module Submissions {
  import opened Domain
  import opened MatchTypes
  import opened MatchRules
  import opened MatchInvariants
  import opened MatchSafety

  // ----- completing

  /** Over the columns: an accepted submission ahead of every other by receipt, runtime and sequence, with no
      submission in flight that was received no later. */
  ghost predicate FirstAccepted(executions: Executions, id: ExecutionId) {
    && id in executions && executions[id].kind == Submit && executions[id].status.Completed?
    && executions[id].status.result.verdict == VAccepted
    && (forall other :: other in executions && other != id && executions[other].kind == Submit
                        && executions[other].status.Completed?
                        && executions[other].status.result.verdict == VAccepted ==>
          Earlier(executions[id], executions[other]))
    && (forall other :: other in executions && executions[other].kind == Submit
                        && !executions[other].status.Completed? ==>
          executions[id].receivedAt < executions[other].receivedAt)
  }

  predicate Earlier(a: Execution, b: Execution)
    requires a.status.Completed? && b.status.Completed?
  {
    var ranA := if a.status.result.runtime.Some? then a.status.result.runtime.value else 0;
    var ranB := if b.status.result.runtime.Some? then b.status.result.runtime.value else 0;
    || a.receivedAt < b.receivedAt
    || (a.receivedAt == b.receivedAt && (ranA < ranB || (ranA == ranB && a.sequence < b.sequence)))
  }

  lemma FirstAcceptedDecides(executions: Executions, id: ExecutionId)
    ensures FirstAccepted(executions, id) <==> Decides(executions, id)
  {
    if FirstAccepted(executions, id) {
      forall other | other in executions
        ensures !Blocks(executions[other], executions[id].receivedAt)
      {
      }
    }
    if Decides(executions, id) {
      forall other | other in executions && executions[other].kind == Submit && !executions[other].status.Completed?
        ensures executions[id].receivedAt < executions[other].receivedAt
      {
        assert !Blocks(executions[other], executions[id].receivedAt);
      }
    }
  }

  /** What storing the result of an in-flight submission writes. */
  function WithResult(executions: Executions, id: ExecutionId, r: RunnerResult): Executions
    requires id in executions
  {
    executions[id := Execution(executions[id].user, executions[id].kind, executions[id].receivedAt,
                               executions[id].sequence, Completed(r))]
  }

  /** Completing an in-flight submission of an active match has exactly three outcomes: its results now name a winner,
      or the match is due to end for an absent player, or play goes on with the player released - and held back for the
      cooldown after a wrong answer that was not the runner's fault. */
  lemma CompletionOutcome(c: Config, m: Match, id: ExecutionId, r: RunnerResult, now: Time)
    requires MatchInv(m) && m.state == Active
    requires id in m.executions && m.executions[id].kind == Submit && !m.executions[id].status.Completed?
    requires AcceptableResult(r)
    ensures CompleteExecution(c, m, id, r, now).Ok? && m.executions[id].user in m.participants
    ensures
      var n := CompleteExecution(c, m, id, r, now).value;
      var executions := WithResult(m.executions, id, r);
      n.executions == executions
      && if exists first :: FirstAccepted(executions, first) then
           && Terminal(n.state) && n.endReason == Some(Accepted)
           && exists first :: FirstAccepted(executions, first) && n.winner == Some(executions[first].user)
         else if m.mode == Duel && DisconnectDue(m.participants, executions, now) then
           EndedByDisconnect(m.(executions := executions), n, now)
         else
           && n.state == Active && n.winner.None? && n.endReason.None?
           && n.participants == m.participants[m.executions[id].user := Released(c, m, id, r, now)]
  {
    EligibleInPlay(m, id);
    StoreKeeps(c, m, id, r, now);
    StoreSettles(c, m, id, r, now);
    StoredColumns(c, m, id, r, now);
    CompletionSettles(c, m, id, r, now);
    var stored := Store(c, m, id, r, now);
    hide BaseInv, MatchInv, Store, Settle, FirstAccepted, DisconnectDue, EndedByDisconnect, WithResult, Released,
      CompleteExecution, SettledOk, Evolves;
    SettleOutcome(c, stored, now);
    StoredPresence(c, m, stored, id, r, now);
  }

  lemma CompletionSettles(c: Config, m: Match, id: ExecutionId, r: RunnerResult, now: Time)
    requires id in m.executions && m.executions[id].kind == Submit && !m.executions[id].status.Completed?
    requires AcceptableResult(r) && Eligible(m, id)
    ensures CompleteExecution(c, m, id, r, now) == Settle(c, Store(c, m, id, r, now), now)
  {
    hide Settle, Store;
  }

  /** After a result is stored: the winner it names, the end an absent player has coming, or no change. */
  lemma SettleOutcome(c: Config, m: Match, now: Time)
    requires BaseInv(m) && SettledOk(m) && m.state == Active && m.winner.None?
    ensures Settle(c, m, now).Ok?
    ensures
      var n := Settle(c, m, now).value;
      if exists first :: FirstAccepted(m.executions, first) then
        && Terminal(n.state) && n.endReason == Some(Accepted) && n.executions == m.executions
        && exists first :: FirstAccepted(m.executions, first) && n.winner == Some(m.executions[first].user)
      else if m.mode == Duel && DisconnectDue(m.participants, m.executions, now) then EndedByDisconnect(m, n, now)
      else n == m
  {
    forall first
      ensures FirstAccepted(m.executions, first) <==> Decides(m.executions, first)
    {
      FirstAcceptedDecides(m.executions, first);
    }
    if exists first :: FirstAccepted(m.executions, first) {
      var first :| FirstAccepted(m.executions, first);
      assert Decides(m.executions, first);
      DecidedWins(c, m, now);
      SettledByWinner(c, m, now);
    } else {
      assert !exists id :: Decides(m.executions, id);
      hide BaseInv, FirstAccepted, DisconnectDue, EndedByDisconnect, Finalize, Settle;
      MaybeFinalizeKeeps(c, m, now);
      assert MaybeFinalizeAccepted(c, m, now) == Ok(m);
      SettledBySweep(c, m, now);
      SweepEndsExactlyWhen(c, m, now);
    }
  }

  lemma SettledBySweep(c: Config, m: Match, now: Time)
    requires m.state == Active && MaybeFinalizeAccepted(c, m, now) == Ok(m)
    ensures Settle(c, m, now) == EvaluateDisconnects(c, m, now)
  {
    hide MaybeFinalizeAccepted, EvaluateDisconnects;
  }

  lemma SettledByWinner(c: Config, m: Match, now: Time)
    requires MaybeFinalizeAccepted(c, m, now).Ok? && MaybeFinalizeAccepted(c, m, now).value.state != Active
    ensures Settle(c, m, now) == MaybeFinalizeAccepted(c, m, now)
  {
    hide MaybeFinalizeAccepted, EvaluateDisconnects;
  }

  /** The player's row after a result for their submission. */
  function Released(c: Config, m: Match, id: ExecutionId, r: RunnerResult, now: Time): Participant
    requires id in m.executions && m.executions[id].user in m.participants
  {
    var p := m.participants[m.executions[id].user];
    var waits := m.executions[id].kind == Submit && r.verdict !in {VAccepted, VInfraError};
    p.(activeExecution := None, cooldownUntil := if waits then Some(now + c.cooldown) else p.cooldownUntil)
  }

  lemma EligibleInPlay(m: Match, id: ExecutionId)
    requires MatchInv(m) && m.state == Active && id in m.executions && !m.executions[id].status.Completed?
    ensures Eligible(m, id) && m.winner.None? && m.endReason.None?
  {
  }

  lemma StoredColumns(c: Config, m: Match, id: ExecutionId, r: RunnerResult, now: Time)
    requires id in m.executions && Eligible(m, id)
    ensures
      var n := Store(c, m, id, r, now);
      && n.state == Active && n.executions == WithResult(m.executions, id, r) && n.mode == m.mode
      && n.participants == m.participants[m.executions[id].user := Released(c, m, id, r, now)]
      && n.winner == m.winner && n.endReason == m.endReason
  {
  }

  lemma DecidedWins(c: Config, m: Match, now: Time)
    requires BaseInv(m) && m.state == Active && exists id :: Decides(m.executions, id)
    ensures
      var r := MaybeFinalizeAccepted(c, m, now);
      && r.Ok? && Terminal(r.value.state) && r.value.endReason == Some(Accepted) && r.value.executions == m.executions
      && exists id :: Decides(m.executions, id) && r.value.winner == Some(m.executions[id].user)
  {
    hide EventsOk, EvaluationOk, VotesOk, RecordsOk, Grows, Finalize;
    var id :| Decides(m.executions, id) && MaybeFinalizeAccepted(c, m, now) ==
      Finalize(c, m, Accepted, Some(m.executions[id].user), now);
    DecidingIsPlayer(m, id);
    EndKeeps(c, m, Accepted, Some(m.executions[id].user), now);
  }

  lemma DecidingIsPlayer(m: Match, id: ExecutionId)
    requires BaseInv(m) && Decides(m.executions, id)
    ensures EndingOk(m, Accepted, Some(m.executions[id].user))
  {
    hide EventsOk, LifecycleOk, InflightOk, RecordsOk, EvaluationOk, VotesOk, DecidedOk, AnswersOk, DistinctSequences;
  }

  /** Releasing a player changes nobody's presence. */
  lemma StoredPresence(c: Config, m: Match, stored: Match, id: ExecutionId, r: RunnerResult, now: Time)
    requires id in m.executions && m.executions[id].user in m.participants
    requires stored.participants == m.participants[m.executions[id].user := Released(c, m, id, r, now)]
    ensures DisconnectDue(stored.participants, stored.executions, now)
            <==> DisconnectDue(m.participants, stored.executions, now)
    ensures forall n :: EndedByDisconnect(stored, n, now) ==>
              EndedByDisconnect(m.(executions := stored.executions), n, now)
  {
    assert stored.participants.Keys == m.participants.Keys;
    forall u | u in m.participants
      ensures stored.participants[u].connected == m.participants[u].connected
      ensures stored.participants[u].reconnectDeadline == m.participants[u].reconnectDeadline
    {
    }
  }

  /** What a runner may report: counts within the integer column, durations within the numeric one, and an acceptance
      only with a time and every one of at least one test passed. */
  lemma AcceptableExactly(r: RunnerResult)
    ensures AcceptableResult(r)
            <==> && 0 <= r.passed <= r.total <= 2_147_483_647
                 && (r.runtime.Some? ==> 0 <= r.runtime.value <= 999_999_999_999)
                 && (r.compile.Some? ==> 0 <= r.compile.value <= 999_999_999_999)
                 && (r.verdict == VAccepted ==> r.passed == r.total > 0 && r.runtime.Some?)
  {
  }

  /** Every other completion: refused, a repetition, a sample run, or a result that comes after play. */
  lemma OtherCompletions(c: Config, m: Match, id: ExecutionId, r: RunnerResult, now: Time)
    requires MatchInv(m)
    ensures
      var result := CompleteExecution(c, m, id, r, now);
      if !AcceptableResult(r) then result == Err(Internal)
      else if id !in m.executions then result == Err(MatchNotFound)
      else if m.executions[id].status.Completed? then result == Ok(m)
      else if m.state != Active then result == Ok(m.(executions := WithResult(m.executions, id, r)))
      else
        m.executions[id].user in m.participants
        && (m.executions[id].kind == Run ==>
              var n := m.(executions := WithResult(m.executions, id, r),
                          participants := m.participants[m.executions[id].user := Released(c, m, id, r, now)]);
              result == Ok(AppendEvent(n, ExecutionCompleted, now)))
  {
    hide AcceptableResult, Settle, EventsOk, LifecycleOk, WinnerOk, RecordsOk, EvaluationOk, VotesOk, DecidedOk,
      AnswersOk, EventTime;
    if id in m.executions {
      PlayersExecute(m);
    }
  }

  /** A row that is still waiting is marked running; only the player's current one is announced, and only in play. */
  lemma MarkRunningExactly(m: Match, id: ExecutionId, now: Time)
    requires MatchInv(m)
    ensures
      var n := MarkRunning(m, id, now);
      if id !in m.executions || m.executions[id].status.Completed? then n == m
      else
        var e := m.executions[id];
        var marked := m.(executions := m.executions[id := Execution(e.user, e.kind, e.receivedAt, e.sequence,
                                                                    Running)]);
        n == if m.state == Active then AppendEvent(marked, ExecutionProgress, now) else marked
  {
    hide EventsOk, LifecycleOk, WinnerOk, RecordsOk, EvaluationOk, VotesOk, DecidedOk, AnswersOk, EventTime;
    if id in m.executions {
      PlayersExecute(m);
    }
  }

  // ----- starting

  /** The match a start finds: a countdown that is over counts as begun. */
  predicate Begun(m: Match, now: Time) {
    m.state == Active || (m.state == Countdown && m.startsAt.Some? && m.startsAt.value <= now)
  }

  /** Over the columns: when an execution may start. */
  predicate MayStart(c: Config, m: Match, user: UserId, id: ExecutionId, kind: Kind, receivedAt: Time, sequence: int,
                     now: Time)
  {
    && user in m.participants && Begun(m, now)
    && m.problem.Some? && m.startsAt.Some? && m.startsAt.value <= receivedAt
    && var p := m.participants[user];
    && p.language.Some? && p.activeExecution.None?
    && (kind == Run && p.lastSampleRunAt.Some? ==> p.lastSampleRunAt.value + c.sampleInterval <= now)
    && (kind == Submit && p.cooldownUntil.Some? ==> p.cooldownUntil.value <= now)
    && id !in m.executions && (forall x :: x in m.executions ==> m.executions[x].sequence != sequence)
  }

  /** An execution starts exactly when its player may start one, and then adds its own row, waiting in the queue. */
  lemma StartsExactlyWhen(c: Config, m: Match, user: UserId, id: ExecutionId, kind: Kind, receivedAt: Time,
                          sequence: int, now: Time)
    ensures
      var r := StartExecution(c, m, user, id, kind, receivedAt, sequence, now);
      && (r.Ok? <==> MayStart(c, m, user, id, kind, receivedAt, sequence, now))
      && (r.Ok? ==>
            var p := m.participants[user];
            var n := m.(state := Active, version := r.value.version, events := r.value.events,
                        executions := m.executions[id := Execution(user, kind, receivedAt, sequence, Queued)],
                        participants := m.participants[
                          user := p.(activeExecution := Some(id),
                                     lastSampleRunAt := if kind == Run then Some(now) else p.lastSampleRunAt)]);
            r.value == n)
  {
    hide EventTime;
  }

  /** In a match in play, where the invariant holds, five checks are left. */
  lemma StartsInPlayExactlyWhen(c: Config, m: Match, user: UserId, id: ExecutionId, kind: Kind, receivedAt: Time,
                                sequence: int, now: Time)
    requires MatchInv(m) && m.state == Active && m.challenge == Coding && user in m.participants
    requires Insertable(m.executions, id, sequence)
    ensures m.startsAt.Some?
    ensures
      var p := m.participants[user];
      StartExecution(c, m, user, id, kind, receivedAt, sequence, now).Ok?
      <==> && m.startsAt.value <= receivedAt && p.language.Some?
           && (forall x :: x in m.executions && m.executions[x].user == user ==> m.executions[x].status.Completed?)
           && (if kind == Run then p.lastSampleRunAt.Some? ==> p.lastSampleRunAt.value + c.sampleInterval <= now
               else p.cooldownUntil.Some? ==> p.cooldownUntil.value <= now)
  {
    StartsExactlyWhen(c, m, user, id, kind, receivedAt, sequence, now);
    hide EventsOk, WinnerOk, RecordsOk, EvaluationOk, VotesOk, DecidedOk, AnswersOk, PendingOk, StartExecution;
    assert m.problem.Some?;
    var p := m.participants[user];
    if p.activeExecution.Some? {
      assert m.executions[p.activeExecution.value].user == user;
    } else if x :| x in m.executions && m.executions[x].user == user && Inflight(m.executions[x]) {
      assert false;
    }
  }
}
