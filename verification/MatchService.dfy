/** The public transactions of match-engine.ts over the store. Each does its work statement by statement and ends as
    exactly the atomic step of the same name, so every guarantee about runs of steps is one about this code. */
module MatchService {
  import opened Domain
  import opened MatchTypes
  import opened MatchRules
  import opened World
  import opened Database
  import opened MatchEngine
  import opened Rotation
  import opened WorldSafety
  import opened SafeRuns

  lemma Overwritten<K, V>(m: map<K, V>, k: K, a: V, b: V)
    ensures m[k := a][k := b] == m[k := b]
  {
  }

  lemma Unmoved<K, V>(m: map<K, V>, k: K)
    requires k in m
    ensures m[k := m[k]] == m
  {
  }

  lemma StartCountsNothing(c: Config, m: Match, user: UserId, id: ExecutionId, kind: Kind, receivedAt: Time,
                           sequence: int, now: Time)
    ensures
      var r := StartExecution(c, m, user, id, kind, receivedAt, sequence, now);
      r.Ok? ==> r.value.recordsApplied == m.recordsApplied
  {
  }

  lemma ReadyCountsNothing(s: Setting, w: World, id: MatchId, actor: UserId, ready: bool, live: set<UserId>, pick: nat,
                           now: Time)
    requires id in w.matches
    ensures
      var r := ReadyRule(s, w, id, actor, ready, live, pick, now);
      r.Ok? ==> r.value.recordsApplied == w.matches[id].recordsApplied
  {
  }

  lemma NextIdIsFree(s: Setting, w: World)
    requires WorldInv(s, w)
    ensures w.nextId !in w.matches
  {
  }

  /** The vote neither reads nor writes receipts. */
  lemma VoteIgnoresReceipts(w: World, receipts: Receipts, actor: UserId, id: MatchId, now: Time)
    requires id in w.matches
    ensures
      var plain, other := RematchEffect(w, actor, id, now), RematchEffect(w.(receipts := receipts), actor, id, now);
      if plain.Err? then other == plain
      else other == Ok((plain.value.0.(receipts := receipts), plain.value.1)) && plain.value.0.receipts == w.receipts
  {
    hide LinkedTo, NextRound;
    assert forall room, round: nat, other ::
        AtRound(w.(receipts := receipts), room, round, other) <==> AtRound(w, room, round, other);
  }

  class Service {
    const db: Tables
    const engine: Engine
    const setting: Setting

    constructor (db: Tables, setting: Setting)
      requires CatalogOk(setting) && db.Now() == INITIAL
      ensures Valid() && this.db == db && this.setting == setting
    {
      var engine := new Engine(db, setting);
      this.db, this.engine, this.setting := db, engine, setting;
      new;
      EmptyOk(setting);
    }

    ghost predicate Valid()
      reads db
    {
      engine.db == db && engine.setting == setting && CatalogOk(setting) && WorldInv(setting, db.Now())
    }

    /** COMMIT with the command's response, or ROLLBACK and rethrow. */
    method Finish(began: World, actor: UserId, key: string, id: MatchId, r: Result<Match>, response: Response)
      returns (reply: Reply)
      requires CommandKey(actor, key) in db.receipts && db.receipts[CommandKey(actor, key)].response.None?
      modifies db
      ensures r.Err? ==> db.Now() == began && reply == Refused(r.error)
      ensures
        r.Ok? ==>
          var w, slot := old(db.Now()), CommandKey(actor, key);
          && reply == Applied(response)
          && db.Now() == w.(matches := w.matches[id := r.value],
                            receipts := w.receipts[slot := w.receipts[slot].(response := Some(response))])
    {
      if r.Err? {
        db.Rollback(began);
        return Refused(r.error);
      }
      db.Write(id, r.value);
      db.CompleteCommand(actor, key, response);
      return Applied(response);
    }

    method Start(actor: UserId, key: string, id: MatchId, kind: Kind, source: string, receivedAt: Time, sequence: int,
                 now: Time)
      returns (reply: Reply)
      requires Valid()
      modifies db
      ensures (db.Now(), reply)
              == Exec(setting, old(db.Now()), Step.Start(actor, key, id, kind, source, receivedAt, sequence, now))
      ensures Valid()
    {
      hide WorldInv, WorldGrows, CatalogOk, StartExecution;
      StepSafe(setting, db.Now(), Step.Start(actor, key, id, kind, source, receivedAt, sequence, now));
      var began := db.Now();
      if id !in db.matches {
        return Refused(MatchNotFound);
      }
      if !KeyOk(key) {
        return Refused(IdempotencyKeyRequired);
      }
      if Utf8Bytes(source) > setting.config.maxSourceBytes {
        return Refused(SourceTooLarge);
      }
      var m := db.matches[id];
      if actor !in m.participants {
        return Refused(NotAParticipant);
      }
      if m.challenge != Coding {
        return Refused(InvalidChallengeType);
      }
      var reservation := db.ReserveCommand(actor, key, ExecuteCommand(kind), Some(id), SourceText(source));
      match reservation {
        case Rejected(error) => return Refused(error);
        case Duplicate(response) => return Replayed(response);
        case Reserved =>
      }
      var execution := db.nextId;
      db.nextId := db.nextId + 1;
      var r := engine.StartExecutionTx(m, actor, execution, kind, receivedAt, sequence, now);
      StartCountsNothing(setting.config, m, actor, execution, kind, receivedAt, sequence, now);
      ghost var slot := CommandKey(actor, key);
      ghost var receipt := CommandReceipt(ExecuteCommand(kind), Some(id), SourceText(source), None);
      Overwritten(began.receipts, slot, receipt, receipt.(response := Some(ExecutionResponse(execution))));
      reply := Finish(began, actor, key, id, r, ExecutionResponse(execution));
    }

    method Leave(actor: UserId, key: string, id: MatchId, now: Time) returns (reply: Reply)
      requires Valid()
      modifies db
      ensures (db.Now(), reply) == Exec(setting, old(db.Now()), Step.Leave(actor, key, id, now))
      ensures Valid()
    {
      hide WorldInv, WorldGrows, CatalogOk, ForfeitMatch, Recorded;
      StepSafe(setting, db.Now(), Step.Leave(actor, key, id, now));
      var began := db.Now();
      if id !in db.matches {
        return Refused(MatchNotFound);
      }
      var m := db.matches[id];
      if actor !in m.participants {
        return Refused(NotAParticipant);
      }
      RowsOf(setting, began, id);
      var reservation := db.ReserveCommand(actor, key, ForfeitCommand, Some(id), Payload.Empty);
      match reservation {
        case Rejected(error) => return Refused(error);
        case Duplicate(response) => return Replayed(response);
        case Reserved =>
      }
      var r := engine.ForfeitTx(m, actor, now);
      ghost var receipt := CommandReceipt(ForfeitCommand, Some(id), Payload.Empty, None);
      Overwritten(began.receipts, CommandKey(actor, key), receipt, receipt.(response := Some(Done)));
      reply := Finish(began, actor, key, id, r, Done);
    }

    method Ready(actor: UserId, key: string, id: MatchId, ready: bool, live: set<UserId>, pick: nat,
                 now: Time) returns (reply: Reply)
      requires Valid()
      modifies db
      ensures (db.Now(), reply) == Exec(setting, old(db.Now()), Step.Ready(actor, key, id, ready, live, pick, now))
      ensures Valid()
    {
      hide WorldInv, WorldGrows, CatalogOk, SetReady, ProblemsBelow, OneListed;
      StepSafe(setting, db.Now(), Step.Ready(actor, key, id, ready, live, pick, now));
      var began := db.Now();
      if id !in db.matches {
        return Refused(MatchNotFound);
      }
      var m := db.matches[id];
      if actor !in m.participants {
        return Refused(NotAParticipant);
      }
      RowsOf(setting, began, id);
      var reservation := db.ReserveCommand(actor, key, SetReadyCommand, Some(id), ReadyChoice(ready));
      match reservation {
        case Rejected(error) => return Refused(error);
        case Duplicate(response) => return Replayed(response);
        case Reserved =>
      }
      var r := engine.SetReadyTx(m, actor, ready, live, pick, now);
      ReadyCountsNothing(setting, began, id, actor, ready, live, pick, now);
      ghost var receipt := CommandReceipt(SetReadyCommand, Some(id), ReadyChoice(ready), None);
      Overwritten(began.receipts, CommandKey(actor, key), receipt, receipt.(response := Some(Done)));
      reply := Finish(began, actor, key, id, r, Done);
    }

    method Cancel(actor: UserId, key: string, id: MatchId, now: Time) returns (reply: Reply)
      requires Valid()
      modifies db
      ensures (db.Now(), reply) == Exec(setting, old(db.Now()), Step.Cancel(actor, key, id, now))
      ensures Valid()
    {
      hide WorldInv, WorldGrows, CatalogOk;
      StepSafe(setting, db.Now(), Step.Cancel(actor, key, id, now));
      var began := db.Now();
      if id !in db.matches {
        return Refused(MatchNotFound);
      }
      var m := db.matches[id];
      if actor !in m.participants || m.participants[actor].slot != 1 {
        return Refused(NotAParticipant);
      }
      var reservation := db.ReserveCommand(actor, key, CancelCommand, Some(id), Payload.Empty);
      match reservation {
        case Rejected(error) => return Refused(error);
        case Duplicate(response) => return Replayed(response);
        case Reserved =>
      }
      var r := engine.CancelTx(m, now);
      if r.Ok? {
        if m.roomId in db.rooms {
          db.rooms := db.rooms[m.roomId := db.rooms[m.roomId].(closed := true)];
        }
      }
      ghost var receipt := CommandReceipt(CancelCommand, Some(id), Payload.Empty, None);
      Overwritten(began.receipts, CommandKey(actor, key), receipt, receipt.(response := Some(Done)));
      reply := Finish(began, actor, key, id, r, Done);
    }

    // ----- executions and timers

    method MarkRunning(id: MatchId, execution: ExecutionId, now: Time) returns (reply: Reply)
      requires Valid()
      modifies db
      ensures (db.Now(), reply) == Exec(setting, old(db.Now()), Step.Mark(id, execution, now))
      ensures Valid()
    {
      hide WorldInv, WorldGrows, CatalogOk;
      StepSafe(setting, db.Now(), Step.Mark(id, execution, now));
      if id !in db.matches {
        return Refused(MatchNotFound);
      }
      var n := engine.MarkExecutionRunningTx(db.matches[id], execution, now);
      db.Write(id, n);
      return Ran;
    }

    method Complete(id: MatchId, execution: ExecutionId, result: RunnerResult, now: Time) returns (reply: Reply)
      requires Valid()
      modifies db
      ensures (db.Now(), reply) == Exec(setting, old(db.Now()), Step.Complete(id, execution, result, now))
      ensures Valid()
    {
      hide WorldInv, WorldGrows, CatalogOk, CompleteExecution, Recorded;
      StepSafe(setting, db.Now(), Step.Complete(id, execution, result, now));
      var began := db.Now();
      if id !in db.matches {
        return Refused(MatchNotFound);
      }
      RowsOf(setting, began, id);
      var r := engine.CompleteExecutionTx(db.matches[id], execution, result, now);
      if r.Err? {
        db.Rollback(began);
        return Refused(r.error);
      }
      db.Write(id, r.value);
      return Ran;
    }

    method AdvanceTimer(id: MatchId, now: Time) returns (reply: Reply)
      requires Valid()
      modifies db
      ensures (db.Now(), reply) == Exec(setting, old(db.Now()), Step.Advance(id, now))
      ensures Valid()
    {
      hide WorldInv, WorldGrows, CatalogOk;
      StepSafe(setting, db.Now(), Step.Advance(id, now));
      if id !in db.matches {
        return Refused(MatchNotFound);
      }
      var n := engine.AdvanceCountdownTx(db.matches[id], now);
      db.Write(id, n);
      return Ran;
    }

    method SweepDisconnected(id: MatchId, now: Time) returns (reply: Reply)
      requires Valid()
      modifies db
      ensures (db.Now(), reply) == Exec(setting, old(db.Now()), Step.SweepDisconnects(id, now))
      ensures Valid()
    {
      hide WorldInv, WorldGrows, CatalogOk, EvaluateDisconnects, Recorded;
      StepSafe(setting, db.Now(), Step.SweepDisconnects(id, now));
      var began := db.Now();
      if id !in db.matches {
        return Refused(MatchNotFound);
      }
      RowsOf(setting, began, id);
      var r := engine.EvaluateDisconnectsTx(db.matches[id], now);
      if r.Err? {
        db.Rollback(began);
        return Refused(r.error);
      }
      db.Write(id, r.value);
      return Ran;
    }

    // ----- rematch

    /** INSERT INTO matches ... ON CONFLICT (room_id, round_number) DO NOTHING, then the rows that follow from it. */
    method InsertNextRound(id: MatchId, voted: Match, now: Time) returns (target: MatchId)
      requires id in db.matches && voted.roomId in db.rooms
      requires voted.recordsApplied == db.matches[id].recordsApplied
      modifies db
      ensures (db.Now(), MatchResponse(target)) == OpenNextRound(old(db.Now()), id, voted, now)
    {
      hide AppendEvent;
      var taken := exists other ::
          other in db.matches && db.matches[other].roomId == voted.roomId && db.matches[other].round == voted.round + 1;
      ghost var w := db.Now();
      if taken {
        ghost var other :|
          other in db.matches && db.matches[other].roomId == voted.roomId && db.matches[other].round == voted.round + 1;
        assert AtRound(w, voted.roomId, voted.round + 1, other);
        db.Write(id, voted);
        return id;
      }
      assert forall other :: other in w.matches ==> !AtRound(w, voted.roomId, voted.round + 1, other);
      var next := db.nextId;
      db.nextId := db.nextId + 1;
      var room := db.rooms[voted.roomId];
      var created := NewMatch(voted.roomId, voted.round + 1, Some(id), voted.challenge, voted.mode, voted.difficulty,
                              map[]);
      created := created.(participants := map u | u in room.members :: NewParticipant(room.members[u]));
      assert created.participants == Seated(room.members);
      db.rooms := db.rooms[voted.roomId := room.(active := next)];
      var linked := Appended(voted.(rematchCreated := Some(next)), RematchCreated, now);
      db.Write(id, linked);
      created := Appended(created, MatchCreated, now);
      db.Write(next, created);
      return next;
    }

    /** The part of requestRematch after its receipt is reserved. */
    method CastVote(actor: UserId, id: MatchId, now: Time) returns (r: Result<MatchId>)
      requires id in db.matches
      modifies db
      ensures
        var spec := RematchEffect(old(db.Now()), actor, id, now);
        if r.Err? then spec == Err(r.error) && db.Now() == old(db.Now())
        else spec == Ok((db.Now(), MatchResponse(r.value)))
    {
      hide OpenNextRound;
      var m := db.matches[id];
      if m.state != RematchPending || m.rematchDeadline.None? {
        return Err(InvalidState);
      }
      if m.rematchCreated.Some? {
        return Ok(m.rematchCreated.value);
      }
      if m.rematchDeadline.value <= now {
        return Err(RematchExpired);
      }
      var voted := m;
      if actor !in m.votes {
        voted := Appended(voted.(votes := voted.votes + {actor}), RematchVoted, now);
      }
      if |voted.votes| == 2 {
        if m.roomId in db.rooms {
          var target := InsertNextRound(id, voted, now);
          return Ok(target);
        }
      }
      db.Write(id, voted);
      return Ok(id);
    }

    method RequestRematch(actor: UserId, key: string, id: MatchId, now: Time) returns (reply: Reply)
      requires Valid()
      modifies db
      ensures (db.Now(), reply) == Exec(setting, old(db.Now()), Step.Rematch(actor, key, id, now))
      ensures Valid()
    {
      hide WorldInv, WorldGrows, CatalogOk, RematchEffect;
      StepSafe(setting, db.Now(), Step.Rematch(actor, key, id, now));
      var began := db.Now();
      if id !in db.matches {
        return Refused(MatchNotFound);
      }
      var m := db.matches[id];
      if actor !in m.participants {
        return Refused(NotAParticipant);
      }
      if m.mode == Practice {
        return Refused(InvalidState);
      }
      NextIdIsFree(setting, began);
      var reservation := db.ReserveCommand(actor, key, RematchCommand, Some(id), Payload.Empty);
      match reservation {
        case Rejected(error) => return Refused(error);
        case Duplicate(response) => return Replayed(response);
        case Reserved =>
      }
      ghost var reserved := db.Now();
      var r := CastVote(actor, id, now);
      VoteIgnoresReceipts(began, reserved.receipts, actor, id, now);
      if r.Err? {
        db.Rollback(began);
        return Refused(r.error);
      }
      ghost var receipt := CommandReceipt(RematchCommand, Some(id), Payload.Empty, None);
      Overwritten(began.receipts, CommandKey(actor, key), receipt, receipt.(response := Some(MatchResponse(r.value))));
      db.CompleteCommand(actor, key, MatchResponse(r.value));
      return Applied(MatchResponse(r.value));
    }
  }
}
