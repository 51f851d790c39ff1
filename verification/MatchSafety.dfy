/** Every transaction of match-engine.ts keeps the match invariant and only lets a match evolve; what the online
    winner check, the disconnect sweep and a forfeit can and cannot do. */
module MatchSafety {
  import opened Domain
  import opened MatchTypes
  import opened StateMachine
  import opened MatchRules
  import opened MatchInvariants

  /** A transaction other than the two that leave the lobby. */
  ghost predicate Keeps(m: Match, n: Match) {
    MatchInv(n) && Evolves(m, n) && n.problem == m.problem && (m.state == Lobby ==> n.state == Lobby)
  }

  // ----- ordering of accepted submissions

  predicate LeastIn(executions: Executions, ids: set<ExecutionId>, id: ExecutionId)
    requires ids <= executions.Keys
  {
    id in ids && forall other :: other in ids && other != id ==>
      Before(Receipt(executions[id]), Receipt(executions[other]))
  }

  lemma {:induction false} FindLeast(executions: Executions, ids: set<ExecutionId>) returns (least: ExecutionId)
    requires ids <= executions.Keys && ids != {}
    requires DistinctSequences(executions)
    ensures LeastIn(executions, ids, least)
  {
    var x :| x in ids;
    var rest := ids - {x};
    assert ids == rest + {x};
    least := x;
    if rest != {} {
      var y := FindLeast(executions, rest);
      if !Before(Receipt(executions[x]), Receipt(executions[y])) {
        least := y;
      }
    }
  }

  /** The candidate query finds a row exactly when some submission is accepted, and never has two answers. */
  lemma LeastAcceptedExists(executions: Executions)
    requires DistinctSequences(executions)
    ensures AnyAccepted(executions) <==> exists id :: IsLeastAccepted(executions, id)
    ensures forall a, b :: IsLeastAccepted(executions, a) && IsLeastAccepted(executions, b) ==> a == b
  {
    if AnyAccepted(executions) {
      var accepted := set id | id in executions && AcceptedSubmit(executions[id]);
      var some :| some in executions && AcceptedSubmit(executions[some]);
      assert some in accepted;
      var id := FindLeast(executions, accepted);
      assert IsLeastAccepted(executions, id);
    }
  }

  // ----- starting an execution

  lemma ActivatedColumns(m: Match)
    requires MatchInv(m) && m.state == Countdown
    ensures m.executions == map[] && m.evaluation.None? && LifecycleOk(m.(state := Active)) && Undecided(m)
    ensures EvaluationOk(Active, m.challenge, m.mode, m.winner, m.participants.Keys, m.answers, m.evaluation)
    ensures VotesOk(Active, m.participants.Keys, m.votes, m.rematchCreated)
  {
    hide EventsOk, ExecutionsOk, InflightOk, WinnerOk, RecordsOk, DecidedOk, AnswersOk;
  }

  lemma ActivatedEvolves(m: Match, participants: Participants)
    requires m.state == Countdown && participants.Keys == m.participants.Keys && SlotsKept(m.participants, participants)
    ensures Evolves(m, m.(state := Active, participants := participants))
  {
    hide SlotsKept;
  }

  lemma ReseatedLifecycle(m: Match, participants: Participants)
    requires LifecycleOk(m) && |participants| == |m.participants|
    ensures LifecycleOk(m.(participants := participants))
  {
  }

  lemma ActivateKeeps(m: Match, participants: Participants, now: Time)
    requires MatchInv(m) && m.state == Countdown
    requires participants.Keys == m.participants.Keys && |participants| == |m.participants|
    requires InflightOk(true, participants, m.executions) && SlotsKept(m.participants, participants)
    ensures Keeps(m, Activate(m.(participants := participants), now))
  {
    var n := m.(state := Active, participants := participants);
    ActivatedColumns(m);
    ReseatedLifecycle(m.(state := Active), participants);
    ActivatedEvolves(m, participants);
    hide EventsOk, LifecycleOk, ExecutionsOk, InflightOk, WinnerOk, EvaluationOk, VotesOk, DecidedOk, AnswersOk,
      SlotsKept, Evolves, Grows;
    assert BaseInv(n);
    AppendKeeps(n, MatchActive, now);
    AppendEvolves(m, n, MatchActive, now);
  }

  lemma AdvanceInlineKeeps(m: Match, now: Time)
    requires MatchInv(m)
    ensures Keeps(m, AdvanceInline(m, now)) && AdvanceInline(m, now).participants == m.participants
  {
    if m.state == Countdown && StartsBy(m, now) {
      ActivateKeeps(m, m.participants, now);
      assert m.(participants := m.participants) == m;
    } else {
      EvolvesReflexive(m);
    }
  }

  lemma InsertKeepsInflight(participants: Participants, executions: Executions, user: UserId, p: Participant,
                            id: ExecutionId, e: Execution)
    requires InflightOk(true, participants, executions)
    requires id !in executions && user in participants && participants[user].activeExecution.None?
    requires e.user == user && Inflight(e) && p.activeExecution == Some(id)
    ensures InflightOk(true, participants[user := p], executions[id := e])
  {
  }

  lemma InsertKeepsPending(executions: Executions, id: ExecutionId, e: Execution)
    requires PendingOk(true, executions) && id !in executions && Inflight(e)
    ensures PendingOk(true, executions[id := e])
  {
    var after := executions[id := e];
    forall other | IsLeastAccepted(after, other)
      ensures Held(after, after[other].receivedAt)
    {
      assert forall x :: x in executions ==> x in after && after[x] == executions[x];
      assert IsLeastAccepted(executions, other);
      var b :| b in executions && Blocks(executions[b], executions[other].receivedAt);
      assert b in after && Blocks(after[b], after[other].receivedAt);
    }
  }

  lemma InsertKeepsExecutions(m: Match, user: UserId, id: ExecutionId, e: Execution)
    requires ExecutionsOk(m.challenge, m.startsAt, m.participants.Keys, m.executions)
    requires m.challenge == Coding && Insertable(m.executions, id, e.sequence)
    requires ExecutionOk(m.startsAt, m.participants.Keys, e)
    ensures ExecutionsOk(m.challenge, m.startsAt, m.participants.Keys, m.executions[id := e])
  {
  }

  lemma SeatUpdate(participants: Participants, user: UserId, p: Participant)
    requires user in participants
    ensures participants[user := p].Keys == participants.Keys
    ensures |participants[user := p]| == |participants|
    ensures p.slot == participants[user].slot ==> SlotsKept(participants, participants[user := p])
  {
    assert participants[user := p].Keys == participants.Keys;
    assert |participants[user := p].Keys| == |participants.Keys|;
  }

  lemma StartedKeeps(m: Match, user: UserId, p: Participant, id: ExecutionId, e: Execution, now: Time)
    requires MatchInv(m) && m.state == Active && m.challenge == Coding
    requires user in m.participants && m.participants[user].activeExecution.None? && p.activeExecution == Some(id)
    requires p.slot == m.participants[user].slot
    requires e.user == user && e.status == Queued && StartsBy(m, e.receivedAt)
    requires Insertable(m.executions, id, e.sequence)
    ensures
      Keeps(m, AppendEvent(m.(executions := m.executions[id := e], participants := m.participants[user := p]),
                           ExecutionStarted, now))
  {
    SeatUpdate(m.participants, user, p);
    InsertKeepsInflight(m.participants, m.executions, user, p, id, e);
    InsertKeepsPending(m.executions, id, e);
    InsertKeepsExecutions(m, user, id, e);
    var inserted := m.(executions := m.executions[id := e], participants := m.participants[user := p]);
    InsertedKeeps(m, inserted);
    AppendKeeps(inserted, ExecutionStarted, now);
    AppendEvolves(m, inserted, ExecutionStarted, now);
  }

  lemma KeepsTransitive(a: Match, b: Match, d: Match)
    requires Keeps(a, b) && Keeps(b, d)
    ensures Keeps(a, d)
  {
    EvolvesTransitive(a, b, d);
  }

  lemma StartKeeps(c: Config, m: Match, user: UserId, id: ExecutionId, kind: Kind, receivedAt: Time, sequence: int,
                   now: Time)
    requires MatchInv(m) && m.challenge == Coding
    requires StartExecution(c, m, user, id, kind, receivedAt, sequence, now).Ok?
    ensures Keeps(m, StartExecution(c, m, user, id, kind, receivedAt, sequence, now).value)
  {
    hide MatchInv, Evolves;
    AdvanceInlineKeeps(m, now);
    var active := AdvanceInline(m, now);
    var p := m.participants[user].(activeExecution := Some(id),
                                   lastSampleRunAt := if kind == Run then Some(now)
                                     else m.participants[user].lastSampleRunAt);
    StartedKeeps(active, user, p, id, Execution(user, kind, receivedAt, sequence, Queued), now);
    KeepsTransitive(m, active, StartExecution(c, m, user, id, kind, receivedAt, sequence, now).value);
  }

  /** Rows added or updated during play, checked row by row elsewhere, leave the rest of the invariant alone. */
  lemma InsertedKeeps(m: Match, n: Match)
    requires MatchInv(m) && m.state == Active
    requires n == m.(executions := n.executions, participants := n.participants)
    requires n.participants.Keys == m.participants.Keys && |n.participants| == |m.participants|
    requires ExecutionsOk(m.challenge, m.startsAt, m.participants.Keys, n.executions)
    requires InflightOk(true, n.participants, n.executions) && SlotsKept(m.participants, n.participants)
    requires forall id :: id in m.executions ==> id in n.executions && n.executions[id] == m.executions[id]
    ensures BaseInv(n) && Evolves(m, n)
  {
  }

  // ----- running and completing an execution

  ghost predicate Restated(e: Execution, n: Execution) {
    n.(status := e.status) == e
  }

  lemma RestateKeepsExecutions(m: Match, id: ExecutionId, status: Status)
    requires ExecutionsOk(m.challenge, m.startsAt, m.participants.Keys, m.executions) && id in m.executions
    requires status.Completed? ==> AcceptableResult(status.result)
    ensures ExecutionsOk(m.challenge, m.startsAt, m.participants.Keys,
                         m.executions[id := m.executions[id].(status := status)])
  {
    assert |m.executions| != 0;
  }

  /** Before an in-flight submission completes it blocks nothing already decided. */
  lemma RestateKeepsWinner(reason: Option<EndReason>, winner: Option<UserId>, executions: Executions, id: ExecutionId,
                           status: Status)
    requires WinnerOk(reason, winner, executions) && id in executions && Inflight(executions[id])
    ensures WinnerOk(reason, winner, executions[id := executions[id].(status := status)])
  {
    if reason == Some(Accepted) {
      var decided :| Decides(executions, decided) && winner == Some(executions[decided].user);
      var after := executions[id := executions[id].(status := status)];
      assert decided != id;
      assert executions[id].kind == Submit ==> !Blocks(executions[id], executions[decided].receivedAt);
      forall other | other in after && AcceptedSubmit(after[other]) && other != decided
        ensures Before(Receipt(after[decided]), Receipt(after[other]))
      {
        assert other in executions;
      }
      forall other | other in after
        ensures !Blocks(after[other], after[decided].receivedAt)
      {
        assert other in executions && !Blocks(executions[other], executions[decided].receivedAt);
      }
      assert Decides(after, decided);
    }
  }

  lemma RestateKeepsPending(active: bool, executions: Executions, id: ExecutionId, status: Status)
    requires PendingOk(active, executions) && id in executions && Inflight(executions[id])
    requires !status.Completed? || executions[id].kind == Run
    ensures PendingOk(active, executions[id := executions[id].(status := status)])
  {
    var after := executions[id := executions[id].(status := status)];
    if active {
      forall other | IsLeastAccepted(after, other)
        ensures Held(after, after[other].receivedAt)
      {
        forall x | x in executions
          ensures x in after && AcceptedSubmit(after[x]) == AcceptedSubmit(executions[x])
          ensures AcceptedSubmit(executions[x]) ==> after[x] == executions[x]
        {
        }
        assert IsLeastAccepted(executions, other);
        var b :| b in executions && Blocks(executions[b], executions[other].receivedAt);
        assert b in after && Blocks(after[b], after[other].receivedAt);
      }
    }
  }

  lemma RunningRowKeeps(m: Match, id: ExecutionId)
    requires MatchInv(m) && id in m.executions && Inflight(m.executions[id])
    ensures Keeps(m, m.(executions := m.executions[id := m.executions[id].(status := Running)]))
  {
    RestateKeepsExecutions(m, id, Running);
    RestateKeepsWinner(m.endReason, m.winner, m.executions, id, Running);
    RestateKeepsPending(m.state == Active, m.executions, id, Running);
    RestateKeepsInflight(m.state == Active, m.participants, m.executions, id);
    hide BaseInv, ExecutionsOk, InflightOk, WinnerOk, SettledOk, PendingOk, Evolves;
    var running := m.(executions := m.executions[id := m.executions[id].(status := Running)]);
    RestatedKeeps(m, running, id);
  }

  lemma RestateKeepsInflight(active: bool, participants: Participants, executions: Executions, id: ExecutionId)
    requires InflightOk(active, participants, executions) && id in executions && Inflight(executions[id])
    ensures InflightOk(active, participants, executions[id := executions[id].(status := Running)])
  {
  }

  lemma MarkRunningKeeps(m: Match, id: ExecutionId, now: Time)
    requires MatchInv(m)
    ensures Keeps(m, MarkRunning(m, id, now))
  {
    hide MatchInv, Keeps, AppendEvent;
    if id !in m.executions || m.executions[id].status.Completed? {
      UnchangedKeeps(m);
    } else {
      RunningRowKeeps(m, id);
      AnnouncedKeeps(m, m.(executions := m.executions[id := m.executions[id].(status := Running)]),
                     ExecutionProgress, now);
    }
  }

  lemma RestatedEvolves(m: Match, n: Match, id: ExecutionId)
    requires id in m.executions && Inflight(m.executions[id]) && SlotsKept(m.participants, n.participants)
    requires n == m.(executions := n.executions, participants := n.participants)
    requires n.participants.Keys == m.participants.Keys
    requires id in n.executions && n.executions == m.executions[id := n.executions[id]]
    requires Restated(m.executions[id], n.executions[id])
    ensures Evolves(m, n)
  {
    hide SlotsKept;
    assert n.executions.Keys == m.executions.Keys;
  }

  /** One execution row restated, with its player's row updated to match. */
  lemma RestatedKeeps(m: Match, n: Match, id: ExecutionId)
    requires BaseInv(m) && id in m.executions && Inflight(m.executions[id])
    requires n == m.(executions := n.executions, participants := n.participants)
    requires n.participants.Keys == m.participants.Keys && |n.participants| == |m.participants|
    requires n.participants == m.participants || m.state == Active
    requires id in n.executions && n.executions == m.executions[id := n.executions[id]]
    requires Restated(m.executions[id], n.executions[id])
    requires ExecutionsOk(m.challenge, m.startsAt, m.participants.Keys, n.executions)
    requires WinnerOk(m.endReason, m.winner, n.executions)
    requires InflightOk(m.state == Active, n.participants, n.executions) && SlotsKept(m.participants, n.participants)
    ensures BaseInv(n) && Evolves(m, n)
    ensures SettledOk(m) ==> SettledOk(n)
  {
    hide Evolves, SlotsKept, ExecutionsOk, EventsOk, DecidedOk, AnswersOk, EvaluationOk;
    RestatedEvolves(m, n, id);
    assert |m.executions| != 0;
    assert n.executions.Keys == m.executions.Keys;
  }

  lemma ReleasedKeeps(m: Match, id: ExecutionId, r: RunnerResult, released: Participant, now: Time)
    requires BaseInv(m) && id in m.executions && Inflight(m.executions[id]) && AcceptableResult(r) && Eligible(m, id)
    requires released.activeExecution.None? && released.slot == m.participants[m.executions[id].user].slot
    ensures
      var e := m.executions[id];
      var n := AppendEvent(m.(executions := m.executions[id := e.(status := Completed(r))],
                              participants := m.participants[e.user := released]), ExecutionCompleted, now);
      BaseInv(n) && Evolves(m, n)
  {
    var e := m.executions[id];
    RestateKeepsExecutions(m, id, Completed(r));
    RestateKeepsWinner(m.endReason, m.winner, m.executions, id, Completed(r));
    SeatUpdate(m.participants, e.user, released);
    ReleaseKeepsInflight(m.participants, m.executions, id, r, released);
    var n := m.(executions := m.executions[id := e.(status := Completed(r))],
                participants := m.participants[e.user := released]);
    RestatedKeeps(m, n, id);
    AppendKeeps(n, ExecutionCompleted, now);
    AppendEvolves(m, n, ExecutionCompleted, now);
  }

  lemma LateKeeps(m: Match, id: ExecutionId, r: RunnerResult)
    requires BaseInv(m) && id in m.executions && Inflight(m.executions[id]) && AcceptableResult(r) && !Eligible(m, id)
    ensures
      var n := m.(executions := m.executions[id := m.executions[id].(status := Completed(r))]);
      BaseInv(n) && Evolves(m, n) && m.state != Active
  {
    assert m.state != Active;
    RestateKeepsExecutions(m, id, Completed(r));
    RestateKeepsWinner(m.endReason, m.winner, m.executions, id, Completed(r));
    RestatedKeeps(m, m.(executions := m.executions[id := m.executions[id].(status := Completed(r))]), id);
  }

  lemma StoreKeeps(c: Config, m: Match, id: ExecutionId, r: RunnerResult, now: Time)
    requires BaseInv(m) && id in m.executions && Inflight(m.executions[id]) && AcceptableResult(r)
    ensures BaseInv(Store(c, m, id, r, now)) && Evolves(m, Store(c, m, id, r, now))
  {
    hide BaseInv, Grows;
    var e := m.executions[id];
    if Eligible(m, id) {
      var p := m.participants[e.user];
      var released := p.(activeExecution := None,
                         cooldownUntil := if Penalized(e, r) then Some(now + c.cooldown) else p.cooldownUntil);
      var n := AppendEvent(m.(executions := m.executions[id := e.(status := Completed(r))],
                              participants := m.participants[e.user := released]), ExecutionCompleted, now);
      assert Store(c, m, id, r, now) == n;
      ReleasedKeeps(m, id, r, released, now);
    } else {
      LateKeeps(m, id, r);
    }
  }

  lemma StoreSettles(c: Config, m: Match, id: ExecutionId, r: RunnerResult, now: Time)
    requires SettledOk(m) && id in m.executions
    ensures SettledOk(Store(c, m, id, r, now))
  {
  }

  lemma ReleaseKeepsInflight(participants: Participants, executions: Executions, id: ExecutionId, r: RunnerResult,
                             released: Participant)
    requires InflightOk(true, participants, executions) && id in executions && Inflight(executions[id])
    requires released.activeExecution.None?
    ensures InflightOk(true, participants[executions[id].user := released],
                       executions[id := executions[id].(status := Completed(r))])
  {
  }

  // ----- the online winner check

  /** After the check either the match is over with the deciding submission's author, or it is untouched and every
      acceptance is held up. */
  lemma MaybeFinalizeKeeps(c: Config, m: Match, now: Time)
    requires BaseInv(m) && m.state == Active
    ensures MaybeFinalizeAccepted(c, m, now).Ok?
    ensures
      var n := MaybeFinalizeAccepted(c, m, now).value;
      MatchInv(n) && Evolves(m, n) && n.problem == m.problem && n.executions == m.executions
      && (n == m || (Terminal(n.state) && n.endReason == Some(Accepted)))
  {
    hide EventsOk, EvaluationOk, VotesOk, RecordsOk, Grows, Finalize;
    if exists id :: Decides(m.executions, id) {
      var id :| Decides(m.executions, id) && MaybeFinalizeAccepted(c, m, now) ==
        Finalize(c, m, Accepted, Some(m.executions[id].user), now);
      FinalizeKeeps(c, m, Accepted, Some(m.executions[id].user), now);
      FinalizeEvolves(c, m, Accepted, Some(m.executions[id].user), now);
    } else {
      EvolvesReflexive(m);
      forall id | IsLeastAccepted(m.executions, id)
        ensures Held(m.executions, m.executions[id].receivedAt)
      {
        assert !Decides(m.executions, id);
      }
    }
  }

  // ----- disconnects

  lemma TwoSeats(players: set<UserId>, some: set<UserId>)
    requires |players| == 2 && some <= players && 1 <= |some| <= 2
    ensures |some| == 2 ==> some == players
    ensures |some| == 1 ==> |players - some| == 1
  {
    assert |players - some| == |players| - |some|;
  }

  lemma NoContestEnding(c: Config, m: Match, now: Time)
    requires MatchInv(m) && m.state == Active && m.mode == Duel && ExpiredAway(m, now) == m.participants.Keys
    requires !AnyAccepted(m.executions) && !SubmitPending(m, ExpiredAway(m, now))
    ensures
      var r := Finalize(c, m, NoContest, None, now);
      r.Ok? && Keeps(m, r.value) && r.value.executions == m.executions && DisconnectEnding(m, r.value, now)
  {
    hide EventsOk, ExecutionsOk, EvaluationOk, VotesOk, RecordsOk, Grows, Finalize;
    FinalizeKeeps(c, m, NoContest, None, now);
    FinalizeEvolves(c, m, NoContest, None, now);
  }

  lemma ForfeitEnding(c: Config, m: Match, winner: UserId, now: Time)
    requires MatchInv(m) && m.state == Active && m.mode == Duel && ExpiredAway(m, now) == Away(m)
    requires winner in m.participants.Keys - Away(m)
    requires !AnyAccepted(m.executions) && !SubmitPending(m, ExpiredAway(m, now))
    ensures
      var r := Finalize(c, m, Forfeit, Some(winner), now);
      r.Ok? && Keeps(m, r.value) && r.value.executions == m.executions && DisconnectEnding(m, r.value, now)
  {
    hide EventsOk, ExecutionsOk, EvaluationOk, VotesOk, RecordsOk, Grows, Finalize;
    FinalizeKeeps(c, m, Forfeit, Some(winner), now);
    FinalizeEvolves(c, m, Forfeit, Some(winner), now);
  }

  /** The sweep ends a match only when nothing is accepted and no expired player's submission is in flight; two
      expired players draw, one loses to the connected other. */
  lemma EvaluateDisconnectsKeeps(c: Config, m: Match, now: Time)
    requires MatchInv(m)
    ensures EvaluateDisconnects(c, m, now).Ok?
    ensures
      var n := EvaluateDisconnects(c, m, now).value;
      && Keeps(m, n) && n.executions == m.executions
      && (n == m || DisconnectEnding(m, n, now))
  {
    hide MatchInv, Keeps, Finalize, DisconnectEnding;
    var away, expired := Away(m), ExpiredAway(m, now);
    UnchangedKeeps(m);
    if EvaluateDisconnects(c, m, now) != Ok(m) {
      TwoSeats(m.participants.Keys, m.participants.Keys);
      SubsetSize(away, m.participants.Keys);
      SubsetSize(expired, away);
      TwoSeats(m.participants.Keys, away);
      if |away| == 2 {
        TwoSeats(m.participants.Keys, expired);
        NoContestEnding(c, m, now);
      } else {
        var winner :| winner in m.participants.Keys - away && EvaluateDisconnects(c, m, now) ==
          Finalize(c, m, Forfeit, Some(winner), now);
        OneElement(expired, away);
        ForfeitEnding(c, m, winner, now);
      }
    }
  }

  lemma UnchangedKeeps(m: Match)
    requires MatchInv(m)
    ensures Keeps(m, m)
  {
    EvolvesReflexive(m);
  }

  lemma SubsetSize(a: set<UserId>, b: set<UserId>)
    requires a <= b
    ensures |a| <= |b| && (a != {} ==> |a| >= 1)
  {
    assert |b - a| == |b| - |a|;
  }

  lemma OneElement(a: set<UserId>, b: set<UserId>)
    requires a <= b && a != {} && |b| == 1
    ensures a == b
  {
    SubsetSize(a, b);
    assert |b - a| == |b| - |a|;
    assert b - a == {};
  }

  ghost predicate DisconnectEnding(m: Match, n: Match, now: Time) {
    && m.state == Active && m.mode == Duel
    && !AnyAccepted(m.executions)
    && !SubmitPending(m, ExpiredAway(m, now))
    && Terminal(n.state)
    && (if ExpiredAway(m, now) == m.participants.Keys then n.endReason == Some(NoContest) && n.winner.None?
        else
          && ExpiredAway(m, now) == Away(m)
          && n.endReason == Some(Forfeit)
          && n.winner.Some? && n.winner.value in m.participants && m.participants[n.winner.value].connected)
  }

  /** Over the columns: someone is away, everyone away is past a deadline, no submission is accepted, and nobody away
      has one in flight. */
  ghost predicate DisconnectDue(participants: Participants, executions: Executions, now: Time) {
    && (exists u :: u in participants && !participants[u].connected)
    && (forall u :: u in participants && !participants[u].connected ==>
          participants[u].reconnectDeadline.Some? && participants[u].reconnectDeadline.value <= now)
    && (forall id :: id in executions && executions[id].kind == Submit && executions[id].status.Completed? ==>
          executions[id].status.result.verdict != VAccepted)
    && (forall id :: id in executions && executions[id].kind == Submit && !executions[id].status.Completed? ==>
          executions[id].user in participants ==> participants[executions[id].user].connected)
  }

  /** A duel ended by the disconnect check: for the player still there, or for nobody. */
  ghost predicate EndedByDisconnect(m: Match, n: Match, now: Time) {
    && n.state == RematchPending && n.finishedAt == Some(now) && n.executions == m.executions
    && n.participants.Keys == m.participants.Keys
    && (if exists u :: u in m.participants && m.participants[u].connected then
          && n.endReason == Some(Forfeit) && n.recordsApplied
          && (forall u :: u in m.participants ==>
                && (n.winner == Some(u) <==> m.participants[u].connected)
                && n.participants[u].outcome == Some(if m.participants[u].connected then Win else Loss))
        else
          && n.endReason == Some(NoContest) && n.winner.None? && !n.recordsApplied
          && (forall u :: u in m.participants ==> n.participants[u].outcome == Some(OutNoContest)))
  }

  lemma DueIsExpired(m: Match, now: Time)
    requires MatchInv(m) && m.state == Active
    ensures DisconnectDue(m.participants, m.executions, now)
            <==> && ExpiredAway(m, now) != {} && ExpiredAway(m, now) == Away(m)
                 && !AnyAccepted(m.executions) && !SubmitPending(m, ExpiredAway(m, now))
  {
    PlayersExecute(m);
    hide MatchInv;
    forall u | u in m.participants
      ensures u in Away(m) <==> !m.participants[u].connected
      ensures u in ExpiredAway(m, now)
              <==> && !m.participants[u].connected && m.participants[u].reconnectDeadline.Some?
                   && m.participants[u].reconnectDeadline.value <= now
    {
    }
    assert forall id :: id in m.executions && AcceptedSubmit(m.executions[id]) ==> AnyAccepted(m.executions);
  }

  lemma PlayersExecute(m: Match)
    requires MatchInv(m)
    ensures forall id :: id in m.executions ==> m.executions[id].user in m.participants
  {
    hide EventsOk, LifecycleOk, InflightOk, WinnerOk, RecordsOk, EvaluationOk, VotesOk, DecidedOk, AnswersOk,
      DistinctSequences, PendingOk;
    forall id | id in m.executions
      ensures m.executions[id].user in m.participants
    {
      assert ExecutionOk(m.startsAt, m.participants.Keys, m.executions[id]);
    }
  }

  /** The sweep ends an active duel exactly when the disconnect is due, and otherwise leaves the match as it was. */
  lemma SweepEndsExactlyWhen(c: Config, m: Match, now: Time)
    requires MatchInv(m)
    ensures EvaluateDisconnects(c, m, now).Ok?
    ensures
      var n := EvaluateDisconnects(c, m, now).value;
      if m.state == Active && m.mode == Duel && DisconnectDue(m.participants, m.executions, now)
      then EndedByDisconnect(m, n, now)
      else n == m
  {
    hide MatchInv, Finalize, DisconnectEnding, DisconnectDue, EndedByDisconnect;
    EvaluateDisconnectsKeeps(c, m, now);
    if m.state == Active && m.mode == Duel {
      DueIsExpired(m, now);
      if DisconnectDue(m.participants, m.executions, now) {
        SweepFires(c, m, now);
      } else {
        SweepIsQuiet(c, m, now);
      }
    }
  }

  lemma SweepIsQuiet(c: Config, m: Match, now: Time)
    requires MatchInv(m)
    requires ExpiredAway(m, now) == {} || ExpiredAway(m, now) != Away(m)
             || AnyAccepted(m.executions) || SubmitPending(m, ExpiredAway(m, now))
    ensures EvaluateDisconnects(c, m, now) == Ok(m)
  {
    hide MatchInv, Finalize, Keeps;
    EvaluateDisconnectsKeeps(c, m, now);
    var n := EvaluateDisconnects(c, m, now).value;
    if DisconnectEnding(m, n, now) {
      assert ExpiredAway(m, now) <= Away(m) <= m.participants.Keys;
    }
  }

  lemma SweepForNobody(c: Config, m: Match, now: Time)
    requires m.state == Active && m.mode == Duel && |m.participants| == 2 && |Away(m)| == 2
    requires ExpiredAway(m, now) == Away(m) && !AnyAccepted(m.executions) && !SubmitPending(m, Away(m))
    ensures EvaluateDisconnects(c, m, now) == Finalize(c, m, NoContest, None, now)
  {
    hide Finalize, AnyAccepted, SubmitPending, Away, ExpiredAway;
    assert Away(m) != {};
  }

  lemma SweepForWinner(c: Config, m: Match, now: Time, winner: UserId)
    requires m.state == Active && m.mode == Duel && |m.participants| == 2 && |Away(m)| != 2
    requires ExpiredAway(m, now) == Away(m) != {} && !AnyAccepted(m.executions) && !SubmitPending(m, Away(m))
    requires m.participants.Keys - Away(m) == {winner}
    ensures EvaluateDisconnects(c, m, now) == Finalize(c, m, Forfeit, Some(winner), now)
  {
    hide Finalize, AnyAccepted, SubmitPending, Away, ExpiredAway;
    assert winner in m.participants.Keys - Away(m);
    var w :| w in m.participants.Keys - Away(m) && EvaluateDisconnects(c, m, now) ==
      Finalize(c, m, Forfeit, Some(w), now);
    assert w in {winner};
  }

  lemma SweepFires(c: Config, m: Match, now: Time)
    requires MatchInv(m) && m.state == Active && m.mode == Duel
    requires ExpiredAway(m, now) == Away(m) && ExpiredAway(m, now) != {}
    requires !AnyAccepted(m.executions) && !SubmitPending(m, ExpiredAway(m, now))
    ensures EvaluateDisconnects(c, m, now).Ok? && EndedByDisconnect(m, EvaluateDisconnects(c, m, now).value, now)
  {
    ActiveIsFull(m);
    AwayPlay(m);
    hide MatchInv, Finalize, EndedByDisconnect, EvaluateDisconnects, AnyAccepted, SubmitPending, Away, ExpiredAway;
    var away, players := Away(m), m.participants.Keys;
    assert |players| == 2;
    SubsetSize(away, players);
    TwoSeats(players, away);
    if |away| == 2 {
      SweepForNobody(c, m, now);
      EndedForNobody(c, m, now);
    } else {
      var winner :| winner in players - away;
      OneElement({winner}, players - away);
      SweepForWinner(c, m, now, winner);
      EndedForWinner(c, m, winner, now);
    }
  }

  lemma AwayPlay(m: Match)
    ensures Away(m) <= m.participants.Keys
  {
  }

  lemma EndedForNobody(c: Config, m: Match, now: Time)
    requires m.state == Active && m.mode == Duel && Away(m) == m.participants.Keys
    ensures EndedByDisconnect(m, Finalize(c, m, NoContest, None, now).value, now)
  {
    assert forall u :: u in m.participants.Keys ==> u in Away(m);
  }

  lemma EndedForWinner(c: Config, m: Match, winner: UserId, now: Time)
    requires m.state == Active && m.mode == Duel && m.participants.Keys - Away(m) == {winner}
    ensures Finalize(c, m, Forfeit, Some(winner), now).Ok?
    ensures EndedByDisconnect(m, Finalize(c, m, Forfeit, Some(winner), now).value, now)
  {
    assert winner in m.participants.Keys - Away(m);
    forall u | u in m.participants
      ensures m.participants[u].connected <==> u == winner
    {
      assert u in Away(m) <==> !m.participants[u].connected;
      assert u in m.participants.Keys - Away(m) <==> u in {winner};
    }
  }

  // ----- the whole completion transaction

  lemma QuietCompletionKeeps(c: Config, m: Match, id: ExecutionId, r: RunnerResult, now: Time)
    requires MatchInv(m) && id in m.executions && Inflight(m.executions[id]) && AcceptableResult(r)
    requires !Eligible(m, id) || m.executions[id].kind == Run
    ensures Keeps(m, Store(c, m, id, r, now))
  {
    StoreKeeps(c, m, id, r, now);
    StoreSettles(c, m, id, r, now);
    if m.state == Active {
      RestateKeepsPending(true, m.executions, id, Completed(r));
    }
  }

  lemma SettleKeeps(c: Config, m: Match, stored: Match, now: Time)
    requires BaseInv(stored) && SettledOk(stored) && Evolves(m, stored) && stored.problem == m.problem
    requires m.state == Active && stored.state == Active
    ensures Settle(c, stored, now).Ok? && Keeps(m, Settle(c, stored, now).value)
  {
    hide EventsOk, ExecutionsOk, EvaluationOk, VotesOk, RecordsOk, Grows;
    MaybeFinalizeKeeps(c, stored, now);
    var decided := MaybeFinalizeAccepted(c, stored, now).value;
    EvolvesTransitive(m, stored, decided);
    if decided.state == Active {
      EvaluateDisconnectsKeeps(c, decided, now);
      KeepsTransitive(m, decided, EvaluateDisconnects(c, decided, now).value);
    }
  }

  lemma SubmitCompletionKeeps(c: Config, m: Match, id: ExecutionId, r: RunnerResult, now: Time)
    requires MatchInv(m) && id in m.executions && Inflight(m.executions[id]) && AcceptableResult(r) && Eligible(m, id)
    ensures Settle(c, Store(c, m, id, r, now), now).Ok? && Keeps(m, Settle(c, Store(c, m, id, r, now), now).value)
  {
    var stored := Store(c, m, id, r, now);
    StoreKeeps(c, m, id, r, now);
    StoreSettles(c, m, id, r, now);
    assert stored.state == Active && stored.problem == m.problem;
    SettleKeeps(c, m, stored, now);
  }

  lemma CompleteKeeps(c: Config, m: Match, id: ExecutionId, r: RunnerResult, now: Time)
    requires MatchInv(m) && CompleteExecution(c, m, id, r, now).Ok?
    ensures Keeps(m, CompleteExecution(c, m, id, r, now).value)
  {
    var n := CompleteExecution(c, m, id, r, now);
    if m.executions[id].status.Completed? {
      EvolvesReflexive(m);
    } else if !Eligible(m, id) || m.executions[id].kind == Run {
      assert n == Ok(Store(c, m, id, r, now));
      QuietCompletionKeeps(c, m, id, r, now);
    } else {
      assert n == Settle(c, Store(c, m, id, r, now), now);
      SubmitCompletionKeeps(c, m, id, r, now);
    }
  }

  lemma SettleHonoursAcceptance(c: Config, m: Match, now: Time)
    requires BaseInv(m) && SettledOk(m) && m.state == Active
    ensures Settle(c, m, now).Ok? && Settle(c, m, now).value.executions == m.executions
    ensures
      var n := Settle(c, m, now).value;
      Terminal(n.state) && AnyAccepted(m.executions) ==> n.endReason == Some(Accepted)
  {
    MaybeFinalizeKeeps(c, m, now);
    var decided := MaybeFinalizeAccepted(c, m, now).value;
    if decided.state == Active {
      EvaluateDisconnectsKeeps(c, decided, now);
    }
  }

  /** However the completion ends the match, a recorded acceptance is never overridden: the least one wins. */
  lemma CompletionHonoursAcceptance(c: Config, m: Match, id: ExecutionId, r: RunnerResult, now: Time)
    requires MatchInv(m) && m.state == Active && CompleteExecution(c, m, id, r, now).Ok?
    ensures
      var n := CompleteExecution(c, m, id, r, now).value;
      Terminal(n.state) && AnyAccepted(n.executions) ==>
        n.endReason == Some(Accepted)
        && exists w :: IsLeastAccepted(n.executions, w) && n.winner == Some(n.executions[w].user)
  {
    CompleteKeeps(c, m, id, r, now);
    var n := CompleteExecution(c, m, id, r, now).value;
    if Terminal(n.state) {
      assert Inflight(m.executions[id]) && Eligible(m, id) && m.executions[id].kind == Submit;
      var stored := Store(c, m, id, r, now);
      assert n == Settle(c, stored, now).value;
      StoreKeeps(c, m, id, r, now);
      StoreSettles(c, m, id, r, now);
      SettleHonoursAcceptance(c, stored, now);
    }
  }

  // ----- leaving

  lemma EndKeeps(c: Config, m: Match, reason: EndReason, winner: Option<UserId>, now: Time)
    requires BaseInv(m) && m.state == Active && EndingOk(m, reason, winner)
    ensures Finalize(c, m, reason, winner, now).Ok?
    ensures
      var n := Finalize(c, m, reason, winner, now).value;
      Keeps(m, n) && Terminal(n.state) && n.executions == m.executions && n.endReason == Some(reason)
        && n.winner == winner
  {
    FinalizeKeeps(c, m, reason, winner, now);
    FinalizeEvolves(c, m, reason, winner, now);
  }

  lemma OpponentIsTheOther(players: set<UserId>, user: UserId)
    requires user in players
    ensures Opponent(players, user).Some? <==> |players| > 1
    ensures |players| == 2 ==> players == {user, Opponent(players, user).value}
  {
    var others := players - {user};
    assert |others| == |players| - 1;
    if |players| == 2 {
      OneElement({Opponent(players, user).value}, others);
      assert players == others + {user};
    }
  }

  lemma ForfeitKeeps(c: Config, m: Match, user: UserId, now: Time)
    requires MatchInv(m) && user in m.participants && ForfeitMatch(c, m, user, now).Ok?
    ensures
      var n := ForfeitMatch(c, m, user, now).value;
      && Keeps(m, n) && Terminal(n.state) && n.executions == m.executions
      && (if m.mode == Duel then n.endReason == Some(Forfeit) && n.winner == Opponent(m.participants.Keys, user)
          else n.endReason == Some(Cancelled) && n.winner.None?)
  {
    hide MatchInv, Keeps, Finalize, EndingOk;
    var opponent := Opponent(m.participants.Keys, user);
    LeavingIsEnding(m, user);
    MatchIsBase(m);
    EndKeeps(c, m, if opponent.Some? then Forfeit else Cancelled, opponent, now);
  }

  lemma MatchIsBase(m: Match)
    requires MatchInv(m)
    ensures BaseInv(m)
  {
    hide BaseInv;
  }

  lemma LeavingIsEnding(m: Match, user: UserId)
    requires MatchInv(m) && m.state == Active && user in m.participants
    ensures
      var opponent := Opponent(m.participants.Keys, user);
      && EndingOk(m, if opponent.Some? then Forfeit else Cancelled, opponent)
      && (opponent.Some? <==> m.mode == Duel)
  {
    ActiveIsFull(m);
    hide MatchInv;
    OpponentIsTheOther(m.participants.Keys, user);
  }

  /** A forfeit is the one step that can override a recorded acceptance, and then only in favour of a player whose
      own submission, received no later, is still being judged. */
  lemma ForfeitOverridesOnlyForEarlierSubmission(c: Config, m: Match, user: UserId, now: Time, id: ExecutionId)
    requires MatchInv(m) && m.mode == Duel && user in m.participants && ForfeitMatch(c, m, user, now).Ok?
    requires IsLeastAccepted(m.executions, id)
    ensures exists b :: b in m.executions && Blocks(m.executions[b], m.executions[id].receivedAt)
                        && ForfeitMatch(c, m, user, now).value.winner == Some(m.executions[b].user)
  {
    ForfeitKeeps(c, m, user, now);
    HeldByPlayer(m, id);
    ActiveIsFull(m);
    hide MatchInv;
    var b :| b in m.executions && Blocks(m.executions[b], m.executions[id].receivedAt)
             && m.executions[b].user in m.participants;
    assert m.executions[b].user != user;
    OpponentIsTheOther(m.participants.Keys, user);
  }

  lemma HeldByPlayer(m: Match, id: ExecutionId)
    requires MatchInv(m) && m.state == Active && IsLeastAccepted(m.executions, id)
    ensures exists b :: b in m.executions && Blocks(m.executions[b], m.executions[id].receivedAt)
                        && m.executions[b].user in m.participants
  {
    hide EventsOk, LifecycleOk, InflightOk, WinnerOk, RecordsOk, EvaluationOk, VotesOk, DecidedOk, AnswersOk,
      DistinctSequences;
    var b :| b in m.executions && Blocks(m.executions[b], m.executions[id].receivedAt);
    assert m.executions[b].user in m.participants.Keys;
  }

  lemma CancelledArena(m: Match)
    requires MatchInv(m) && m.state == Lobby
    ensures EvaluationOk(Finished, m.challenge, m.mode, m.winner, m.participants.Keys, m.answers, m.evaluation)
    ensures VotesOk(Finished, m.participants.Keys, m.votes, m.rematchCreated) && |m.executions| == 0 && m.winner.None?
  {
    hide EventsOk, ExecutionsOk, InflightOk, WinnerOk, RecordsOk, DecidedOk, AnswersOk;
  }

  lemma CancelledLifecycle(m: Match, participants: Participants, now: Time)
    requires MatchInv(m) && m.state == Lobby && |participants| == |m.participants|
    ensures LifecycleOk(m.(state := Finished, finishedAt := Some(now), endReason := Some(Cancelled),
                           participants := participants))
  {
    hide EventsOk, ExecutionsOk, InflightOk, WinnerOk, RecordsOk, EvaluationOk, VotesOk, DecidedOk, AnswersOk;
  }

  lemma CancelledEvolves(m: Match, participants: Participants, now: Time)
    requires m.state == Lobby && participants.Keys == m.participants.Keys && SlotsKept(m.participants, participants)
    ensures Evolves(m, m.(state := Finished, finishedAt := Some(now), endReason := Some(Cancelled),
                          participants := participants))
  {
    hide SlotsKept;
  }

  lemma CancelledRows(m: Match, participants: Participants, now: Time)
    requires MatchInv(m) && m.state == Lobby
    requires participants == map u | u in m.participants :: m.participants[u].(outcome := Some(OutCancelled))
    ensures
      var n := m.(state := Finished, finishedAt := Some(now), endReason := Some(Cancelled),
                  participants := participants);
      BaseInv(n) && Evolves(m, n)
  {
    assert participants.Keys == m.participants.Keys;
    assert |participants.Keys| == |m.participants.Keys|;
    assert InflightOk(false, participants, m.executions);
    CancelledArena(m);
    CancelledLifecycle(m, participants, now);
    CancelledEvolves(m, participants, now);
    hide EventsOk, LifecycleOk, ExecutionsOk, InflightOk, EvaluationOk, VotesOk, AnswersOk, Evolves;
  }

  lemma CancelKeeps(m: Match, now: Time)
    requires MatchInv(m) && CancelMatch(m, now).Ok?
    ensures
      var n := CancelMatch(m, now).value;
      MatchInv(n) && Evolves(m, n) && m.state == Lobby && n.problem == m.problem && !n.recordsApplied
  {
    hide EventsOk, ExecutionsOk, InflightOk, RecordsOk, VotesOk, Grows;
    var participants := map u | u in m.participants :: m.participants[u].(outcome := Some(OutCancelled));
    var n := m.(state := Finished, finishedAt := Some(now), endReason := Some(Cancelled), participants := participants);
    CancelledRows(m, participants, now);
    AppendKeeps(n, MatchFinished, now);
    AppendEvolves(m, n, MatchFinished, now);
  }

  // ----- lobby, countdown, presence: one player's row changes, never their active execution

  lemma SameActiveKeepsInflight(active: bool, participants: Participants, executions: Executions, user: UserId,
                                p: Participant)
    requires InflightOk(active, participants, executions) && user in participants
    requires p.activeExecution == participants[user].activeExecution
    ensures InflightOk(active, participants[user := p], executions)
  {
  }

  lemma SameOutcomeKeepsRecords(m: Match, user: UserId, p: Participant)
    requires RecordsOk(m.mode, m.winner, m.endReason, m.recordsApplied, m.participants) && user in m.participants
    requires p.outcome == m.participants[user].outcome
    ensures RecordsOk(m.mode, m.winner, m.endReason, m.recordsApplied, m.participants[user := p])
  {
    SeatUpdate(m.participants, user, p);
  }

  lemma PlayerRowBase(m: Match, user: UserId, p: Participant)
    requires BaseInv(m) && user in m.participants
    requires p.activeExecution == m.participants[user].activeExecution && p.outcome == m.participants[user].outcome
    ensures BaseInv(m.(participants := m.participants[user := p]))
  {
    SeatUpdate(m.participants, user, p);
    SameActiveKeepsInflight(m.state == Active, m.participants, m.executions, user, p);
    SameOutcomeKeepsRecords(m, user, p);
    var n := m.(participants := m.participants[user := p]);
    assert n.participants.Keys == m.participants.Keys;
    assert LifecycleOk(n);
  }

  lemma PlayerRowEvolves(m: Match, participants: Participants)
    requires participants.Keys == m.participants.Keys && SlotsKept(m.participants, participants)
    ensures Evolves(m, m.(participants := participants))
  {
    hide SlotsKept;
  }

  lemma PlayerRowOnlyKeeps(m: Match, user: UserId, p: Participant)
    requires MatchInv(m) && user in m.participants
    requires p.activeExecution == m.participants[user].activeExecution && p.outcome == m.participants[user].outcome
    requires p.slot == m.participants[user].slot
    ensures Keeps(m, m.(participants := m.participants[user := p]))
  {
    hide BaseInv, Evolves, SlotsKept;
    SeatUpdate(m.participants, user, p);
    PlayerRowBase(m, user, p);
    PlayerRowEvolves(m, m.participants[user := p]);
  }

  lemma AnnouncedKeeps(m: Match, n: Match, kind: EventKind, now: Time)
    requires Keeps(m, n)
    ensures Keeps(m, AppendEvent(n, kind, now))
  {
    AppendKeeps(n, kind, now);
    AppendEvolves(m, n, kind, now);
  }

  lemma PlayerRowKeeps(m: Match, user: UserId, p: Participant, kind: EventKind, now: Time)
    requires MatchInv(m) && user in m.participants
    requires p.activeExecution == m.participants[user].activeExecution && p.outcome == m.participants[user].outcome
    requires p.slot == m.participants[user].slot
    ensures Keeps(m, m.(participants := m.participants[user := p]))
    ensures Keeps(m, AppendEvent(m.(participants := m.participants[user := p]), kind, now))
  {
    PlayerRowOnlyKeeps(m, user, p);
    AnnouncedKeeps(m, m.(participants := m.participants[user := p]), kind, now);
  }

  lemma SetLanguageKeeps(m: Match, user: UserId, language: Language, now: Time)
    requires MatchInv(m) && SetLanguage(m, user, language, now).Ok?
    ensures Keeps(m, SetLanguage(m, user, language, now).value)
  {
    PlayerRowKeeps(m, user, m.participants[user].(language := Some(language), ready := false), LanguageChanged, now);
  }

  lemma BeginCountdownKeeps(c: Config, m: Match, problem: Problem, now: Time)
    requires MatchInv(m) && m.state == Lobby && Full(m)
    ensures MatchInv(BeginCountdown(c, m, problem, now)) && Evolves(m, BeginCountdown(c, m, problem, now))
  {
    var n := m.(state := Countdown, problem := Some(problem), startsAt := Some(now + c.countdown),
                answerDeadline := if m.challenge == AiMl then Some(now + c.countdown + c.answerDuration) else None);
    AppendKeeps(n, CountdownStarted, now);
    AppendEvolves(m, n, CountdownStarted, now);
  }

  lemma SetReadyKeeps(c: Config, m: Match, user: UserId, ready: bool, live: set<UserId>, all: seq<Problem>,
                      previous: seq<nat>, pick: nat, now: Time)
    requires MatchInv(m)
    requires SetReady(c, m, user, ready, live, all, previous, pick, now).Ok?
    ensures
      var n := SetReady(c, m, user, ready, live, all, previous, pick, now).value;
      && MatchInv(n) && Evolves(m, n) && m.state == Lobby && m.problem.None?
      && n.state == (if n.problem.Some? then Countdown else Lobby)
      && (n.problem.Some? ==> Ok(n.problem.value) == ChooseProblem(all, previous, pick))
  {
    var p := m.participants[user].(ready := ready);
    PlayerRowKeeps(m, user, p, ReadyChanged, now);
    var changed := AppendEvent(m.(participants := m.participants[user := p]), ReadyChanged, now);
    if EveryoneReady(changed) {
      var problem := ChooseProblem(all, previous, pick).value;
      BeginCountdownKeeps(c, changed, problem, now);
      EvolvesTransitive(m, changed, BeginCountdown(c, changed, problem, now));
    }
  }

  lemma AdvanceCountdownKeeps(c: Config, m: Match, now: Time)
    requires MatchInv(m)
    ensures Keeps(m, AdvanceCountdown(c, m, now))
  {
    if m.state == Countdown && StartsBy(m, now) {
      var armed := map u | u in m.participants :: Armed(c, m.participants[u], m.startsAt.value);
      assert armed.Keys == m.participants.Keys;
      assert |armed.Keys| == |m.participants.Keys|;
      ActivateKeeps(m, armed, now);
      ActivateKeeps(m, m.participants, now);
      assert m.(participants := m.participants) == m;
    } else {
      EvolvesReflexive(m);
    }
  }

  lemma ConnectKeeps(c: Config, m: Match, user: UserId, now: Time)
    requires MatchInv(m) && Connect(c, m, user, now).Ok?
    ensures Keeps(m, Connect(c, m, user, now).value)
  {
    EvaluateDisconnectsKeeps(c, m, now);
    var settled := EvaluateDisconnects(c, m, now).value;
    var p := settled.participants[user].(connected := true, disconnectedAt := None, reconnectDeadline := None);
    PlayerRowKeeps(settled, user, p, ConnectionChanged, now);
    KeepsTransitive(m, settled, Connect(c, m, user, now).value);
  }

  lemma ReconcileKeeps(c: Config, m: Match, user: UserId, active: bool, lastSeen: Option<Time>, now: Time)
    requires MatchInv(m) && Reconcile(c, m, user, active, lastSeen, now).Ok?
    ensures Keeps(m, Reconcile(c, m, user, active, lastSeen, now).value)
  {
    var n := Reconcile(c, m, user, active, lastSeen, now).value;
    if active || !m.participants[user].connected || lastSeen.None? {
      assert n == m;
      EvolvesReflexive(m);
    } else {
      var p := m.participants[user].(connected := false, disconnectedAt := lastSeen,
                                     reconnectDeadline := if m.state == Active && m.mode == Duel
                                     then Some(lastSeen.value + c.reconnectGrace) else None);
      assert n == AppendEvent(m.(participants := m.participants[user := p]), ConnectionChanged, now);
      PlayerRowKeeps(m, user, p, ConnectionChanged, now);
    }
  }

  // ----- rematch votes

  lemma VotedLifecycle(m: Match, user: UserId)
    requires LifecycleOk(m)
    ensures LifecycleOk(m.(votes := m.votes + {user}))
  {
  }

  lemma VoteKeeps(m: Match, user: UserId, now: Time)
    requires MatchInv(m) && m.state == RematchPending && user in m.participants
    ensures Keeps(m, Vote(m, user, now)) && Vote(m, user, now).state == RematchPending
  {
    hide EventsOk, LifecycleOk, ExecutionsOk, InflightOk, WinnerOk, RecordsOk, EvaluationOk, DecidedOk, AnswersOk;
    EvolvesReflexive(m);
    if user !in m.votes {
      var n := m.(votes := m.votes + {user});
      VotedLifecycle(m, user);
      assert BaseInv(n);
      AnnouncedKeeps(m, n, RematchVoted, now);
    }
  }
}
