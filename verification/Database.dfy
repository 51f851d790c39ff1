/** The tables as mutable state, with the few statements every transaction is made of. A transaction locks a match,
    rewrites it and the rows that hang off it one statement at a time, and is rolled back as a whole if it throws. */
module Database {
  import opened Domain
  import opened MatchTypes
  import opened World

  datatype Reservation = Reserved | Duplicate(response: Option<Response>) | Rejected(error: Error)

  /** appendEvent: bumps the version and stamps the event after every earlier one of its match. */
  method Appended(m: Match, kind: EventKind, now: Time) returns (n: Match)
    ensures n == AppendEvent(m, kind, now)
  {
    var at := now;
    for i := 0 to |m.events|
      invariant at == EventTime(m.events[..i], now)
    {
      assert m.events[..i + 1][..i] == m.events[..i];
      if at <= m.events[i].at {
        at := m.events[i].at + 1;
      }
    }
    assert m.events[..|m.events|] == m.events;
    n := m.(version := m.version + 1, events := m.events + [Event(m.version + 1, kind, at)]);
  }

  class Tables {
    var profiles: set<UserId>
    var rooms: map<RoomId, Room>
    var matches: map<MatchId, Match>
    var records: map<UserId, Record>
    var receipts: map<CommandKey, CommandReceipt>
    var nextId: Id

    constructor ()
      ensures Now() == INITIAL
    {
      profiles, rooms, matches, records, receipts, nextId := {}, map[], map[], map[], map[], 0;
    }

    function Now(): World
      reads this
    {
      World(profiles, rooms, matches, records, receipts, nextId)
    }

    /** ROLLBACK to the tables a transaction began with. */
    method Rollback(began: World)
      modifies this
      ensures Now() == began
    {
      profiles, rooms, matches := began.profiles, began.rooms, began.matches;
      records, receipts, nextId := began.records, began.receipts, began.nextId;
    }

    /** The locked row of a match, with everything that hangs off it, written back. */
    method Write(id: MatchId, m: Match)
      modifies this`matches
      ensures matches == old(matches)[id := m]
    {
      matches := matches[id := m];
    }

    /** INSERT ... ON CONFLICT DO NOTHING, then a comparison with the row already there. */
    method ReserveCommand(actor: UserId, key: string, command: CommandType, id: Option<MatchId>, payload: Payload)
      returns (r: Reservation)
      modifies this`receipts
      ensures
        var slot := CommandKey(actor, key);
        if !KeyOk(key) then r == Rejected(IdempotencyKeyRequired) && receipts == old(receipts)
        else if slot !in old(receipts) then
          r == Reserved && receipts == old(receipts)[slot := CommandReceipt(command, id, payload, None)]
        else
          var earlier := old(receipts)[slot];
          && receipts == old(receipts)
          && r == (if earlier.command == command && earlier.matchId == id && earlier.payload == payload
                   then Duplicate(earlier.response) else Rejected(IdempotencyConflict))
    {
      if !KeyOk(key) {
        return Rejected(IdempotencyKeyRequired);
      }
      var slot := CommandKey(actor, key);
      if slot !in receipts {
        receipts := receipts[slot := CommandReceipt(command, id, payload, None)];
        return Reserved;
      }
      var existing := receipts[slot];
      if existing.command != command || existing.matchId != id || existing.payload != payload {
        return Rejected(IdempotencyConflict);
      }
      return Duplicate(existing.response);
    }

    method CompleteCommand(actor: UserId, key: string, response: Response)
      modifies this`receipts
      ensures
        var slot := CommandKey(actor, key);
        receipts == if slot in old(receipts) && old(receipts)[slot].response.None?
                    then old(receipts)[slot := old(receipts)[slot].(response := Some(response))] else old(receipts)
    {
      var slot := CommandKey(actor, key);
      if slot in receipts && receipts[slot].response.None? {
        receipts := receipts[slot := receipts[slot].(response := Some(response))];
      }
    }
  }
}
