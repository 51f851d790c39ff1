/** The transactions of match-engine.ts as they run: rows of the store rewritten one at a time. Each is proved to be
    the one atomic step the safety results are about. */
module MatchEngine {
  import opened Domain
  import opened MatchTypes
  import opened StateMachine
  import opened MatchRules
  import opened MatchInvariants
  import opened World
  import opened Database
  import opened Rotation
  import opened WorldSafety
  import MatchSafety

  // ----- rows rewritten so far

  function OutcomesFor(participants: Participants, done: set<UserId>, reason: EndReason,
                       winner: Option<UserId>): (r: Participants)
    ensures r.Keys == participants.Keys
  {
    map u | u in participants :: if u in done then Ended(participants[u], u, reason, winner) else participants[u]
  }

  function Ended(p: Participant, u: UserId, reason: EndReason, winner: Option<UserId>): Participant {
    p.(outcome := Some(FinalOutcome(reason, winner == Some(u))), activeExecution := None)
  }

  function OneMore(r: Record, won: bool): Record {
    if won then r.(wins := r.wins + 1) else r.(losses := r.losses + 1)
  }

  function Counted(records: map<UserId, Record>, done: set<UserId>, winner: Option<UserId>): (r: map<UserId, Record>)
    ensures r.Keys == records.Keys
  {
    map u | u in records :: if u in done then OneMore(records[u], winner == Some(u)) else records[u]
  }

  lemma OutcomesStep(participants: Participants, done: set<UserId>, u: UserId, reason: EndReason,
                     winner: Option<UserId>)
    requires u in participants && u !in done
    ensures
      var before := OutcomesFor(participants, done, reason, winner);
      OutcomesFor(participants, done + {u}, reason, winner) ==
        before[u := Ended(before[u], u, reason, winner)]
  {
  }

  lemma CountedStep(records: map<UserId, Record>, done: set<UserId>, u: UserId, winner: Option<UserId>)
    requires u in records && u !in done
    ensures
      var before := Counted(records, done, winner);
      Counted(records, done + {u}, winner) ==
        before[u := OneMore(before[u], winner == Some(u))]
  {
  }

  lemma CountedSkip(records: map<UserId, Record>, done: set<UserId>, u: UserId, winner: Option<UserId>)
    requires u !in records
    ensures Counted(records, done + {u}, winner) == Counted(records, done, winner)
  {
  }

  lemma NothingDone(participants: Participants, records: map<UserId, Record>, reason: EndReason, winner: Option<UserId>)
    ensures OutcomesFor(participants, {}, reason, winner) == participants
    ensures Counted(records, {}, winner) == records
  {
  }

  lemma AllDone(participants: Participants, records: map<UserId, Record>, reason: EndReason, winner: Option<UserId>)
    ensures OutcomesFor(participants, participants.Keys, reason, winner) == WithOutcomes(participants, reason, winner)
  {
  }

  lemma CountedIsBumped(records: map<UserId, Record>, n: Match)
    ensures Counted(records, n.participants.Keys, n.winner) == Bumped(records, n)
  {
  }

  lemma FinalizedCounts(c: Config, m: Match, reason: EndReason, winner: Option<UserId>, now: Time,
                        records: map<UserId, Record>)
    requires Open(m.state) && (winner.Some? ==> winner.value in m.participants)
    ensures
      var n := Finalize(c, m, reason, winner, now).value;
      var closed := Closed(m, reason, winner, now);
      n.recordsApplied == closed.recordsApplied && Bumped(records, n) == Bumped(records, closed)
  {
  }

  // ----- the executions queries

  lemma TheDecision(c: Config, m: Match, now: Time, id: ExecutionId)
    requires DistinctSequences(m.executions) && m.state == Active && m.winner.None? && Decides(m.executions, id)
    ensures MaybeFinalizeAccepted(c, m, now) == Finalize(c, m, Accepted, Some(m.executions[id].user), now)
  {
    hide Finalize;
    MatchSafety.LeastAcceptedExists(m.executions);
  }

  lemma NoDecision(c: Config, m: Match, now: Time)
    requires DistinctSequences(m.executions)
    requires !AnyAccepted(m.executions)
             || exists id :: IsLeastAccepted(m.executions, id) && Held(m.executions, m.executions[id].receivedAt)
    ensures MaybeFinalizeAccepted(c, m, now) == Ok(m)
  {
    hide Finalize;
    MatchSafety.LeastAcceptedExists(m.executions);
    forall id | IsLeastAccepted(m.executions, id)
      ensures !Decides(m.executions, id)
    {
      assert AcceptedSubmit(m.executions[id]);
    }
  }

  predicate LeastAmong(executions: Executions, ids: set<ExecutionId>, least: Option<ExecutionId>) {
    if least.None? then forall id :: id in ids && id in executions ==> !AcceptedSubmit(executions[id])
    else
      && least.value in executions && AcceptedSubmit(executions[least.value])
      && forall id :: id in ids && id in executions && AcceptedSubmit(executions[id]) && id != least.value ==>
           Before(Receipt(executions[least.value]), Receipt(executions[id]))
  }

  /** ORDER BY received_at, runtime_ms, server_sequence LIMIT 1 over the accepted submissions. */
  method LeastAccepted(executions: Executions) returns (least: Option<ExecutionId>)
    requires DistinctSequences(executions)
    ensures least.Some? ==> IsLeastAccepted(executions, least.value)
    ensures least.None? ==> !AnyAccepted(executions)
  {
    least := None;
    var todo := executions.Keys;
    ghost var seen: set<ExecutionId> := {};
    while todo != {}
      invariant todo + seen == executions.Keys
      invariant LeastAmong(executions, seen, least)
      decreases todo
    {
      var id :| id in todo;
      if AcceptedSubmit(executions[id]) {
        if least.None? || Before(Receipt(executions[id]), Receipt(executions[least.value])) {
          least := Some(id);
        }
      }
      todo, seen := todo - {id}, seen + {id};
    }
  }

  /** Is some submission received no later still in flight? */
  method FindBlocker(executions: Executions, receivedAt: Time) returns (blocked: bool)
    ensures blocked <==> Held(executions, receivedAt)
  {
    var todo := executions.Keys;
    ghost var seen: set<ExecutionId> := {};
    while todo != {}
      invariant todo + seen == executions.Keys
      invariant forall id :: id in seen ==> !Blocks(executions[id], receivedAt)
      decreases todo
    {
      var id :| id in todo;
      if Blocks(executions[id], receivedAt) {
        return true;
      }
      todo, seen := todo - {id}, seen + {id};
    }
    return false;
  }

  method FindAccepted(executions: Executions) returns (found: bool)
    ensures found <==> AnyAccepted(executions)
  {
    var todo := executions.Keys;
    ghost var seen: set<ExecutionId> := {};
    while todo != {}
      invariant todo + seen == executions.Keys
      invariant forall id :: id in seen ==> !AcceptedSubmit(executions[id])
      decreases todo
    {
      var id :| id in todo;
      if AcceptedSubmit(executions[id]) {
        return true;
      }
      todo, seen := todo - {id}, seen + {id};
    }
    return false;
  }

  method FindInflightSubmit(m: Match, users: set<UserId>) returns (found: bool)
    ensures found <==> SubmitPending(m, users)
  {
    var todo := m.executions.Keys;
    ghost var seen: set<ExecutionId> := {};
    while todo != {}
      invariant todo + seen == m.executions.Keys
      invariant forall id :: id in seen ==> !(InflightSubmit(m.executions[id]) && m.executions[id].user in users)
      decreases todo
    {
      var id :| id in todo;
      if InflightSubmit(m.executions[id]) && m.executions[id].user in users {
        return true;
      }
      todo, seen := todo - {id}, seen + {id};
    }
    return false;
  }

  lemma TheOtherPlayer(players: set<UserId>, away: set<UserId>, winner: UserId)
    requires |players| == 2 && |away| == 1 && away <= players && winner in players - away
    ensures players - away == {winner}
  {
    MatchSafety.OneElement({winner}, players - away);
  }

  lemma OneAway(m: Match, away: set<UserId>, expired: set<UserId>)
    requires away <= m.participants.Keys && expired <= away && expired != {} && |m.participants| == 2 && |away| != 2
    ensures |away| == 1 && |m.participants.Keys| == 2
  {
    assert |m.participants.Keys| == |m.participants|;
    MatchSafety.SubsetSize(away, m.participants.Keys);
    MatchSafety.SubsetSize(expired, away);
  }

  lemma StoredUnended(c: Config, m: Match, id: ExecutionId, result: RunnerResult, now: Time)
    requires id in m.executions && DistinctSequences(m.executions)
    ensures
      var n := Store(c, m, id, result, now);
      DistinctSequences(n.executions) && n.recordsApplied == m.recordsApplied && n.state == m.state
  {
  }

  lemma StillActive(c: Config, m: Match, now: Time)
    requires m.state == Active && MaybeFinalizeAccepted(c, m, now).Ok?
    ensures MaybeFinalizeAccepted(c, m, now).value.state == Active ==> MaybeFinalizeAccepted(c, m, now).value == m
  {
  }

  lemma OpponentOf(players: set<UserId>, user: UserId, opponent: UserId)
    requires |players| <= 2 && user in players && opponent in players - {user}
    ensures Opponent(players, user) == Some(opponent)
  {
    MatchSafety.SubsetSize(players, players);
    assert |players - {user}| == |players| - 1;
    MatchSafety.OneElement({opponent}, players - {user});
    assert Opponent(players, user).value in players - {user};
  }

  lemma RowsOf(s: Setting, w: World, id: MatchId)
    requires WorldInv(s, w) && id in w.matches
    ensures
      var m := w.matches[id];
      && DistinctSequences(m.executions) && (Open(m.state) ==> !m.recordsApplied) && |m.participants| <= 2
      && OneListed(w.matches, m)
  {
    assert MatchInv(w.matches[id]);
    UniqueRoundsListOnce(w.matches, w.matches[id]);
  }

  /** The outcome and record statements for one player. */
  method EndPlayer(p: Participant, u: UserId, reason: EndReason, winner: Option<UserId>) returns (q: Participant)
    ensures q == Ended(p, u, reason, winner)
  {
    var outcome :=
      if reason == NoContest then OutNoContest
      else if reason == Cancelled then OutCancelled
      else if winner == Some(u) then Win else Loss;
    q := p.(outcome := Some(outcome), activeExecution := None);
  }

  class Engine {
    const db: Tables
    const setting: Setting

    constructor (db: Tables, setting: Setting)
      ensures this.db == db && this.setting == setting
    {
      this.db, this.setting := db, setting;
    }

    /** The per-player statements of finalizeMatchTx: outcome, active execution and, when it counts, the record. */
    method SetOutcomes(m: Match, reason: EndReason, winner: Option<UserId>, applies: bool) returns (n: Match)
      modifies db`records
      ensures n == m.(participants := WithOutcomes(m.participants, reason, winner))
      ensures db.records == if applies then Counted(old(db.records), m.participants.Keys, winner) else old(db.records)
    {
      hide OutcomesFor, Counted, Ended, OneMore, WithOutcomes;
      n := m;
      var todo := m.participants.Keys;
      ghost var done: set<UserId> := {};
      NothingDone(m.participants, db.records, reason, winner);
      while todo != {}
        invariant todo + done == m.participants.Keys && todo !! done
        invariant n == m.(participants := OutcomesFor(m.participants, done, reason, winner))
        invariant db.records == if applies then Counted(old(db.records), done, winner) else old(db.records)
        decreases todo
      {
        var u :| u in todo;
        var player := EndPlayer(n.participants[u], u, reason, winner);
        OutcomesStep(m.participants, done, u, reason, winner);
        n := n.(participants := n.participants[u := player]);
        if applies {
          if u in db.records {
            CountedStep(old(db.records), done, u, winner);
            db.records := db.records[u := OneMore(db.records[u], winner == Some(u))];
          } else {
            CountedSkip(old(db.records), done, u, winner);
          }
        }
        todo, done := todo - {u}, done + {u};
      }
      AllDone(m.participants, old(db.records), reason, winner);
    }

    method CloseMatch(m: Match, reason: EndReason, winner: Option<UserId>, now: Time) returns (n: Match)
      modifies db`records
      ensures n == Closed(m, reason, winner, now)
      ensures db.records == if n.recordsApplied then Bumped(old(db.records), n) else old(db.records)
    {
      var applies := m.mode == Duel && ShouldApplyRecord(reason) && winner.Some?;
      n := m.(state := Finished, winner := winner, endReason := Some(reason), finishedAt := Some(now),
              recordsApplied := applies);
      n := SetOutcomes(n, reason, winner, applies);
      CountedIsBumped(old(db.records), n);
    }

    method FinalizeMatchTx(m: Match, reason: EndReason, winner: Option<UserId>, now: Time) returns (r: Result<Match>)
      requires Open(m.state) ==> !m.recordsApplied
      modifies db`records
      ensures r == Finalize(setting.config, m, reason, winner, now)
      ensures db.records == if r.Ok? then Recorded(old(db.records), m, r.value) else old(db.records)
    {
      hide Closed, Bumped, AppendEvent;
      if m.state != Active && m.state != Countdown && m.state != Lobby {
        return Ok(m);
      }
      if winner.Some? && winner.value !in m.participants {
        return Err(Internal);
      }
      var n := CloseMatch(m, reason, winner, now);
      n := Appended(n, MatchFinished, now);
      if m.mode != Practice {
        n := n.(state := RematchPending, rematchDeadline := Some(now + setting.config.rematchWindow));
        n := Appended(n, RematchOpened, now);
      }
      FinalizedCounts(setting.config, m, reason, winner, now, old(db.records));
      return Ok(n);
    }

    // ----- ending play

    method MaybeFinalizeAcceptedTx(m: Match, now: Time) returns (r: Result<Match>)
      requires DistinctSequences(m.executions) && (Open(m.state) ==> !m.recordsApplied)
      modifies db`records
      ensures r == MaybeFinalizeAccepted(setting.config, m, now)
      ensures db.records == if r.Ok? then Recorded(old(db.records), m, r.value) else old(db.records)
    {
      hide Finalize;
      if m.state != Active || m.winner.Some? {
        return Ok(m);
      }
      var candidate := LeastAccepted(m.executions);
      if candidate.None? {
        NoDecision(setting.config, m, now);
        return Ok(m);
      }
      var id := candidate.value;
      var blocked := FindBlocker(m.executions, m.executions[id].receivedAt);
      if blocked {
        NoDecision(setting.config, m, now);
        return Ok(m);
      }
      assert Decides(m.executions, id);
      TheDecision(setting.config, m, now, id);
      r := FinalizeMatchTx(m, Accepted, Some(m.executions[id].user), now);
    }

    method EvaluateDisconnectsTx(m: Match, now: Time) returns (r: Result<Match>)
      requires Open(m.state) ==> !m.recordsApplied
      modifies db`records
      ensures r == EvaluateDisconnects(setting.config, m, now)
      ensures db.records == if r.Ok? then Recorded(old(db.records), m, r.value) else old(db.records)
    {
      hide Finalize;
      if m.state != Active || m.mode == Practice || |m.participants| != 2 {
        return Ok(m);
      }
      var disconnected := set u | u in m.participants && !m.participants[u].connected;
      var expired := set u | u in disconnected && Expired(m.participants[u], now);
      assert disconnected == Away(m) && expired == ExpiredAway(m, now);
      if expired == {} {
        return Ok(m);
      }
      var accepted := FindAccepted(m.executions);
      if accepted {
        return Ok(m);
      }
      var inflight := FindInflightSubmit(m, expired);
      if inflight {
        return Ok(m);
      }
      if |disconnected| == 2 {
        if |expired| < 2 {
          return Ok(m);
        }
        r := FinalizeMatchTx(m, NoContest, None, now);
        return;
      }
      var connected := m.participants.Keys - disconnected;
      if connected == {} {
        return Ok(m);
      }
      var winner :| winner in connected;
      OneAway(m, disconnected, expired);
      TheOtherPlayer(m.participants.Keys, disconnected, winner);
      r := FinalizeMatchTx(m, Forfeit, Some(winner), now);
    }

    // ----- executions

    method StartExecutionTx(m: Match, user: UserId, id: ExecutionId, kind: Kind, receivedAt: Time, sequence: int,
                            now: Time)
      returns (r: Result<Match>)
      requires user in m.participants
      ensures r == StartExecution(setting.config, m, user, id, kind, receivedAt, sequence, now)
    {
      hide EventTime, Insertable;
      var n, p := m, m.participants[user];
      if n.state == Countdown {
        if n.startsAt.Some? && n.startsAt.value <= now {
          n := Appended(n.(state := Active), MatchActive, now);
        }
      }
      if n.state != Active || n.problem.None? {
        return Err(InvalidState);
      }
      if n.startsAt.None? || receivedAt < n.startsAt.value {
        return Err(InvalidState);
      }
      if p.language.None? {
        return Err(LanguageRequired);
      }
      if p.activeExecution.Some? {
        return Err(ExecutionInProgress);
      }
      if kind == Run {
        if p.lastSampleRunAt.Some? && p.lastSampleRunAt.value + setting.config.sampleInterval > now {
          return Err(RateLimited);
        }
      } else {
        if p.cooldownUntil.Some? && p.cooldownUntil.value > now {
          return Err(CooldownActive);
        }
      }
      if !Insertable(n.executions, id, sequence) {
        return Err(Internal);
      }
      n := n.(executions := n.executions[id := Execution(user, kind, receivedAt, sequence, Queued)]);
      n := n.(participants := n.participants[user := p.(activeExecution := Some(id),
                                                       lastSampleRunAt := if kind == Run then Some(now)
                                                         else p.lastSampleRunAt)]);
      n := Appended(n, ExecutionStarted, now);
      return Ok(n);
    }

    method MarkExecutionRunningTx(m: Match, id: ExecutionId, now: Time) returns (n: Match)
      ensures n == MarkRunning(m, id, now)
    {
      if id !in m.executions || m.executions[id].status.Completed? {
        return m;
      }
      var e := m.executions[id];
      n := m.(executions := m.executions[id := e.(status := Running)]);
      if m.state != Active {
        return;
      }
      if e.user in n.participants && n.participants[e.user].activeExecution == Some(id) {
        n := Appended(n, ExecutionProgress, now);
      }
    }

    /** The part of completeExecution before its winner check; `eligible` says whether the result still counts. */
    method StoreResult(m: Match, id: ExecutionId, result: RunnerResult, now: Time) returns (n: Match, eligible: bool)
      requires id in m.executions && m.executions[id].user in m.participants
      ensures n == Store(setting.config, m, id, result, now) && eligible == Eligible(m, id)
    {
      var e := m.executions[id];
      var p := m.participants[e.user];
      eligible := m.state == Active && p.activeExecution == Some(id);
      var penalized := eligible && e.kind == Submit && result.verdict != VAccepted && result.verdict != VInfraError;
      n := m.(executions := m.executions[id := e.(status := Completed(result))]);
      if !eligible {
        return;
      }
      p := p.(activeExecution := None);
      if penalized {
        p := p.(cooldownUntil := Some(now + setting.config.cooldown));
      }
      n := Appended(n.(participants := n.participants[e.user := p]), ExecutionCompleted, now);
    }

    method CompleteExecutionTx(m: Match, id: ExecutionId, result: RunnerResult, now: Time) returns (r: Result<Match>)
      requires DistinctSequences(m.executions) && (Open(m.state) ==> !m.recordsApplied)
      modifies db`records
      ensures r == CompleteExecution(setting.config, m, id, result, now)
      ensures db.records == if r.Ok? then Recorded(old(db.records), m, r.value) else old(db.records)
    {
      hide MaybeFinalizeAccepted, EvaluateDisconnects, AcceptableResult, Bumped;
      if !AcceptableResult(result) {
        return Err(Internal);
      }
      if id !in m.executions {
        return Err(MatchNotFound);
      }
      var e := m.executions[id];
      if e.status.Completed? {
        return Ok(m);
      }
      if e.user !in m.participants {
        return Err(NotAParticipant);
      }
      var n, eligible := StoreResult(m, id, result, now);
      if !eligible || e.kind != Submit {
        return Ok(n);
      }
      StoredUnended(setting.config, m, id, result, now);
      r := SettleTx(m, n, now);
    }

    /** After a submission: the winner check, then the disconnect check if play goes on. */
    method SettleTx(m: Match, stored: Match, now: Time) returns (r: Result<Match>)
      requires DistinctSequences(stored.executions) && !stored.recordsApplied
      requires !m.recordsApplied
      modifies db`records
      ensures r == Settle(setting.config, stored, now)
      ensures db.records == if r.Ok? then Recorded(old(db.records), m, r.value) else old(db.records)
    {
      hide Bumped, EvaluateDisconnects, Finalize;
      var decided := MaybeFinalizeAcceptedTx(stored, now);
      if decided.Err? || decided.value.state != Active {
        return decided;
      }
      StillActive(setting.config, stored, now);
      r := EvaluateDisconnectsTx(decided.value, now);
    }

    // ----- leaving and cancelling

    method ForfeitTx(m: Match, user: UserId, now: Time) returns (r: Result<Match>)
      requires user in m.participants && |m.participants| <= 2 && (Open(m.state) ==> !m.recordsApplied)
      modifies db`records
      ensures r == ForfeitMatch(setting.config, m, user, now)
      ensures db.records == if r.Ok? then Recorded(old(db.records), m, r.value) else old(db.records)
    {
      hide Finalize, Bumped;
      if m.state != Active {
        return Err(InvalidState);
      }
      var ownInflight := FindInflightSubmit(m, {user});
      if ownInflight {
        return Err(ExecutionInProgress);
      }
      var others := m.participants.Keys - {user};
      if others == {} {
        r := FinalizeMatchTx(m, Cancelled, None, now);
        return;
      }
      var opponent :| opponent in others;
      OpponentOf(m.participants.Keys, user, opponent);
      r := FinalizeMatchTx(m, Forfeit, Some(opponent), now);
    }

    method CancelTx(m: Match, now: Time) returns (r: Result<Match>)
      ensures r == CancelMatch(m, now)
    {
      if m.state != Lobby {
        return Err(InvalidState);
      }
      var n := m.(state := Finished, finishedAt := Some(now), endReason := Some(Cancelled));
      n := n.(participants := map u | u in n.participants :: n.participants[u].(outcome := Some(OutCancelled)));
      n := Appended(n, MatchFinished, now);
      return Ok(n);
    }

    // ----- countdown

    method AdvanceCountdownTx(m: Match, now: Time) returns (n: Match)
      ensures n == AdvanceCountdown(setting.config, m, now)
    {
      if m.state != Countdown || m.startsAt.None? || m.startsAt.value > now {
        return m;
      }
      n := m.(state := Active);
      if m.mode == Duel {
        n := n.(participants := map u | u in n.participants ::
                Armed(setting.config, n.participants[u], m.startsAt.value));
      }
      n := Appended(n, MatchActive, now);
    }

    /** SELECT id FROM matches WHERE ... AND round_number = round AND problem_id IS NOT NULL. */
    method FindListed(like: Match, round: nat) returns (found: Option<MatchId>)
      requires OneListed(db.matches, like)
      ensures found == ListedAt(db.matches, like, round)
    {
      var todo := db.matches.Keys;
      ghost var seen: set<MatchId> := {};
      while todo != {}
        invariant todo + seen == db.matches.Keys
        invariant forall id :: id in seen ==> !Listed(db.matches, like, round, id)
        decreases todo
      {
        var id :| id in todo;
        if Listed(db.matches, like, round, id) {
          return Some(id);
        }
        todo, seen := todo - {id}, seen + {id};
      }
      return None;
    }

    /** Earlier problems of the room, latest round first. */
    method PreviousProblems(like: Match) returns (ids: seq<nat>)
      requires OneListed(db.matches, like)
      ensures ids == ProblemsBelow(db.matches, like, like.round)
    {
      ids := [];
      var round: nat := 1;
      while round < like.round
        invariant 1 <= round <= Max(1, like.round)
        invariant ids == ProblemsBelow(db.matches, like, round)
      {
        var found := FindListed(like, round);
        if found.Some? {
          ids := [db.matches[found.value].problem.value.id] + ids;
        }
        round := round + 1;
      }
    }

    /** chooseProblem, its filters as loops. */
    method ChooseProblemFrom(all: seq<Problem>, previous: seq<nat>, pick: nat) returns (r: Result<Problem>)
      ensures r == ChooseProblem(all, previous, pick)
    {
      if all == [] {
        return Err(NoProblemAvailable);
      }
      var candidates := Unused(all, previous);
      if candidates == [] {
        candidates := all;
        if previous != [] {
          var others := Unused(all, [previous[0]]);
          if others != [] {
            candidates := others;
          }
        }
      }
      return if pick < |candidates| then Ok(candidates[pick]) else Err(Internal);
    }

    method Unused(all: seq<Problem>, used: seq<nat>) returns (left: seq<Problem>)
      ensures left == FreshProblems(all, used)
    {
      left := [];
      for i := |all| downto 0
        invariant left == FreshProblems(all[i..], used)
      {
        assert all[i..][1..] == all[i + 1..];
        if all[i].id !in used {
          left := [all[i]] + left;
        }
      }
    }

    method SetReadyTx(m: Match, user: UserId, ready: bool, live: set<UserId>, pick: nat,
                      now: Time) returns (r: Result<Match>)
      requires user in m.participants && OneListed(db.matches, m)
      ensures r == SetReady(setting.config, m, user, ready, live, Problems(setting, m.challenge, m.difficulty),
                            ProblemsBelow(db.matches, m, m.round), pick, now)
    {
      hide ProblemsBelow, ChooseProblem, OneListed, EveryoneReady, Live, EventTime, Problems;
      var p := m.participants[user];
      if m.state != Lobby {
        return Err(InvalidState);
      }
      if ready && m.challenge == Coding && p.language.None? {
        return Err(LanguageRequired);
      }
      if ready && !Live(m, live, user) {
        return Err(InvalidState);
      }
      var n := m.(participants := m.participants[user := p.(ready := ready)]);
      n := Appended(n, ReadyChanged, now);
      if !EveryoneReady(n) {
        return Ok(n);
      }
      if exists u :: u in n.participants && !Live(n, live, u) {
        return Err(InvalidState);
      }
      var previous := PreviousProblems(m);
      var problem := ChooseProblemFrom(Problems(setting, m.challenge, m.difficulty), previous, pick);
      if problem.Err? {
        return Err(problem.error);
      }
      var startsAt := now + setting.config.countdown;
      n := n.(state := Countdown, problem := Some(problem.value), startsAt := Some(startsAt),
              answerDeadline := if m.challenge == AiMl then Some(startsAt + setting.config.answerDuration) else None);
      n := Appended(n, CountdownStarted, now);
      return Ok(n);
    }
  }
}
