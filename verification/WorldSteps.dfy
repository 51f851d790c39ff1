/** The transactions that touch more than one match row: profiles, rooms, the start of a countdown, rematches. */
module WorldSteps {
  import opened Domain
  import opened MatchTypes
  import opened MatchRules
  import opened MatchInvariants
  import opened MatchSafety
  import opened World
  import opened Rooms
  import opened Rotation
  import opened Ledger
  import opened WorldSafety

  // ----- registering

  lemma StrangerPlaysNowhere(profiles: set<UserId>, matches: Matches, u: UserId, id: MatchId)
    requires MatchesOk(profiles, matches) && u !in profiles && id in matches
    ensures u !in matches[id].participants && matches[id].winner != Some(u)
  {
  }

  lemma RegisterKeepsPlayers(profiles: set<UserId>, matches: Matches, records: Records, u: UserId)
    requires PlayersOk(profiles, matches, records) && u !in profiles
    ensures PlayersOk(profiles + {u}, matches, records[u := Record(0, 0)])
  {
    forall id | id in matches
      ensures u !in matches[id].participants && matches[id].winner != Some(u)
    {
      StrangerPlaysNowhere(profiles, matches, u, id);
    }
    NewPlayerKeepsLedger(records, matches, u);
  }

  lemma RegisterSafe(s: Setting, w: World, user: UserId)
    requires WorldInv(s, w)
    ensures Safe(s, w, RegisterProfile(w, user))
  {
    NothingGrows(w);
    if user !in w.profiles {
      RegisterKeepsPlayers(w.profiles, w.matches, w.records, user);
    }
  }

  // ----- opening a room

  lemma NewMatchOk(roomId: RoomId, round: nat, previous: Option<MatchId>, challenge: Challenge, mode: Mode,
                   difficulty: Difficulty, participants: Participants, now: Time)
    requires 1 <= |participants| <= Seats(mode)
    requires forall u :: u in participants ==> participants[u].activeExecution.None?
    ensures MatchInv(AppendEvent(NewMatch(roomId, round, previous, challenge, mode, difficulty, participants),
                                 MatchCreated, now))
  {
    var m := NewMatch(roomId, round, previous, challenge, mode, difficulty, participants);
    assert BaseInv(m);
    AppendKeeps(m, MatchCreated, now);
  }

  lemma NewMatchKeepsPlayers(profiles: set<UserId>, matches: Matches, records: Records, id: MatchId, n: Match)
    requires PlayersOk(profiles, matches, records) && id !in matches
    requires MatchInv(n) && n.participants.Keys <= profiles && !n.recordsApplied
    ensures PlayersOk(profiles, matches[id := n], records)
  {
    EvolvedMatchesOk(profiles, matches, id, n);
    UncountedKeepsLedger(records, matches, id, n);
  }

  lemma NewRoomRotation(s: Setting, rooms: RoomTable, matches: Matches, rid: RoomId, id: MatchId, r: Room, n: Match)
    requires RoundsOk(s, rooms, matches) && rid !in rooms && id !in matches && r.active == id
    requires n.problem.None? && n.roomId == rid && n.round == 1
    ensures RotationOk(s, rooms[rid := r], matches[id := n])
  {
    var after := matches[id := n];
    var r2 := rooms[rid := r];
    forall x | x in r2 && r2[x].active in after
      ensures RotatedFor(s, after, after[r2[x].active])
    {
      if x == rid {
        UnlistedHistory(matches, id, n, n);
        EmptyRoom(rooms, matches, rid, n);
      } else {
        ActiveMatch(rooms, matches, x);
        var like := matches[rooms[x].active];
        UnlistedKeepsRotation(s, matches, id, n, like, like);
      }
    }
  }

  lemma EmptyRoom(rooms: RoomTable, matches: Matches, rid: RoomId, n: Match)
    requires ChainOk(rooms, PlacesOf(matches)) && rid !in rooms && n.roomId == rid && n.round == 1
    ensures History(matches, n) == []
  {
    forall x | x in matches
      ensures !Listed(matches, n, 1, x)
    {
      assert Linked(rooms, PlacesOf(matches), x);
    }
    assert ListedAt(matches, n, 1).None?;
    assert ProblemsBelow(matches, n, 1) == [];
    assert ProblemsBelow(matches, n, 2) == [];
  }

  lemma NewRoomKeepsRounds(s: Setting, rooms: RoomTable, matches: Matches, rid: RoomId, id: MatchId, r: Room, n: Match)
    requires RoundsOk(s, rooms, matches) && rid !in rooms && id !in matches && r.active == id && SeatsOk(r)
    requires PlaceOf(n) == Place(rid, 1, None, None, r.mode, r.challenge, r.difficulty, r.members.Keys)
    requires n.problem.None? && n.state == Lobby
    ensures RoundsOk(s, rooms[rid := r], matches[id := n])
  {
    NewRoomKeepsChain(rooms, PlacesOf(matches), rid, id, r, PlaceOf(n));
    PlacesUpdate(matches, id, n);
    NewRoomRotation(s, rooms, matches, rid, id, r, n);
    forall x | x in rooms
      ensures rooms[x].active != id
    {
      ActiveMatch(rooms, matches, x);
    }
  }

  lemma OpenRoomTables(w: World, rid: RoomId, id: MatchId, r: Room, n: Match)
    requires IdsOk(w.rooms, w.matches, w.nextId) && MembersOk(w.profiles, w.rooms) && r.members.Keys <= w.profiles
    requires rid == w.nextId && id == w.nextId + 1
    ensures
      && IdsOk(w.rooms[rid := r], w.matches[id := n], w.nextId + 2) && MembersOk(w.profiles, w.rooms[rid := r])
      && WorldGrows(w, w.(rooms := w.rooms[rid := r], matches := w.matches[id := n], nextId := w.nextId + 2))
  {
    NothingGrows(w);
  }

  lemma OpeningSafe(s: Setting, w: World, r: Room, n: Match)
    requires WorldInv(s, w) && Opening(w.nextId, w.nextId + 1, r, n) && MatchInv(n) && r.members.Keys <= w.profiles
    ensures Safe(s, w, w.(rooms := w.rooms[w.nextId := r], matches := w.matches[w.nextId + 1 := n],
                          nextId := w.nextId + 2))
  {
    hide MatchInv, LedgerOk, RotationOk;
    var rid, id := w.nextId, w.nextId + 1;
    assert rid !in w.rooms && id !in w.matches;
    NewMatchKeepsPlayers(w.profiles, w.matches, w.records, id, n);
    NewRoomKeepsRounds(s, w.rooms, w.matches, rid, id, r, n);
    OpenRoomTables(w, rid, id, r, n);
  }

  predicate Opening(rid: RoomId, id: MatchId, r: Room, n: Match) {
    && r.active == id && SeatsOk(r)
    && PlaceOf(n) == Place(rid, 1, None, None, r.mode, r.challenge, r.difficulty, r.members.Keys)
    && n.problem.None? && n.state == Lobby && !n.recordsApplied
  }

  lemma HostedRoom(actor: UserId, rid: RoomId, id: MatchId, difficulty: Difficulty, mode: Mode, challenge: Challenge,
                   now: Time)
    ensures
      var r := HostedBy(actor, difficulty, mode, challenge, id);
      var n := FirstRound(actor, rid, difficulty, mode, challenge, now);
      Opening(rid, id, r, n) && MatchInv(n) && r.members.Keys == {actor}
  {
    hide MatchInv;
    NewMatchOk(rid, 1, None, challenge, mode, difficulty, map[actor := NewParticipant(1)], now);
  }

  lemma OpenRoomSafe(s: Setting, w: World, actor: UserId, difficulty: Difficulty, mode: Mode, challenge: Challenge,
                     now: Time)
    requires WorldInv(s, w) && actor in w.profiles
    ensures
      var after := OpenRoom(w, actor, difficulty, mode, challenge, now).0;
      Safe(s, w, after) && after.receipts == w.receipts
  {
    hide WorldInv, MatchInv, WorldGrows;
    var r := HostedBy(actor, difficulty, mode, challenge, w.nextId + 1);
    var n := FirstRound(actor, w.nextId, difficulty, mode, challenge, now);
    HostedRoom(actor, w.nextId, w.nextId + 1, difficulty, mode, challenge, now);
    OpeningSafe(s, w, r, n);
  }

  // ----- taking the second seat

  lemma JoinMatchOk(m: Match, user: UserId, now: Time)
    requires MatchInv(m) && m.state == Lobby && m.mode == Duel && |m.participants| == 1 && user !in m.participants
    ensures
      var n := JoinMatch(m, user, now);
      && MatchInv(n) && Grows(m, n) && n.problem.None? && n.state == Lobby && !n.recordsApplied
      && PlaceOf(n) == PlaceOf(m).(players := PlaceOf(m).players + {user}) && SameListing(m, n)
      && n.participants.Keys == m.participants.Keys + {user}
  {
    var joined := m.participants[user := NewParticipant(2)];
    assert joined.Keys == m.participants.Keys + {user};
    assert |joined.Keys| == |m.participants.Keys| + 1;
    var n := m.(participants := joined);
    assert BaseInv(n);
    AppendKeeps(n, PlayerJoined, now);
  }

  lemma SeatedPlayers(profiles: set<UserId>, matches: Matches, records: Records, id: MatchId, n: Match)
    requires PlayersOk(profiles, matches, records) && id in matches && matches[id].state == Lobby
    requires MatchInv(n) && n.participants.Keys <= profiles && !n.recordsApplied
    ensures PlayersOk(profiles, matches[id := n], records)
  {
    EvolvedMatchesOk(profiles, matches, id, n);
    assert MatchInv(matches[id]);
    UncountedKeepsLedger(records, matches, id, n);
  }

  lemma SeatedRotation(s: Setting, rooms: RoomTable, matches: Matches, rid: RoomId, r: Room, n: Match)
    requires RoundsOk(s, rooms, matches) && rid in rooms && rooms[rid].active in matches
    requires r.active == rooms[rid].active
    requires SameListing(matches[r.active], n) && matches[r.active].problem.None? && n.problem.None?
    ensures RotationOk(s, rooms[rid := r], matches[r.active := n])
  {
    var r2, after := rooms[rid := r], matches[r.active := n];
    forall x | x in r2 && r2[x].active in after
      ensures RotatedFor(s, after, after[r2[x].active])
    {
      assert r2[x].active == rooms[x].active;
      UnlistedKeepsRotation(s, matches, r.active, n, matches[r2[x].active], after[r2[x].active]);
    }
  }

  lemma SeatedRounds(s: Setting, rooms: RoomTable, matches: Matches, rid: RoomId, user: UserId, n: Match)
    requires RoundsOk(s, rooms, matches) && rid in rooms && user !in rooms[rid].members && rooms[rid].active in matches
    requires
      var m := matches[rooms[rid].active];
      && PlaceOf(n) == PlaceOf(m).(players := PlaceOf(m).players + {user}) && SameListing(m, n)
      && m.problem.None? && n.problem.None? && n.state == Lobby
    ensures
      var r := rooms[rid].(members := rooms[rid].members[user := 2]);
      RoundsOk(s, rooms[rid := r], matches[r.active := n])
  {
    var r := rooms[rid].(members := rooms[rid].members[user := 2]);
    SeatingKeepsChain(rooms, PlacesOf(matches), rid, user);
    PlacesUpdate(matches, r.active, n);
    SeatedRotation(s, rooms, matches, rid, r, n);
  }

  lemma SeatedTables(w: World, rid: RoomId, r: Room, id: MatchId, n: Match)
    requires IdsOk(w.rooms, w.matches, w.nextId) && MembersOk(w.profiles, w.rooms) && r.members.Keys <= w.profiles
    requires rid in w.rooms && id in w.matches && Grows(w.matches[id], n) && RoomGrows(w.rooms[rid], r)
    ensures
      && IdsOk(w.rooms[rid := r], w.matches[id := n], w.nextId) && MembersOk(w.profiles, w.rooms[rid := r])
      && WorldGrows(w, w.(rooms := w.rooms[rid := r], matches := w.matches[id := n]))
  {
    NothingGrows(w);
    OneGrows(w.matches, id, n);
  }

  /** The room has its host alone, so its active round is still in the lobby. */
  lemma FreeSeat(s: Setting, w: World, rid: RoomId)
    requires WorldInv(s, w) && rid in w.rooms && w.rooms[rid].active in w.matches
    requires w.rooms[rid].mode == Duel && !w.rooms[rid].closed
    requires forall u :: u in w.rooms[rid].members ==> w.rooms[rid].members[u] != 2
    ensures
      var m := w.matches[w.rooms[rid].active];
      && MatchInv(m) && m.state == Lobby && m.mode == Duel && |m.participants| == 1
      && m.participants.Keys == w.rooms[rid].members.Keys && m.participants.Keys <= w.profiles
  {
    assert MatchInv(w.matches[w.rooms[rid].active]);
    FreeSeatIsLobby(w.rooms, w.matches, rid);
    ActiveMatch(w.rooms, w.matches, rid);
  }

  lemma SeatKeeps(s: Setting, w: World, actor: UserId, rid: RoomId, n: Match)
    requires WorldInv(s, w) && actor in w.profiles && rid in w.rooms && w.rooms[rid].active in w.matches
    requires actor !in w.rooms[rid].members
    requires
      var m := w.matches[w.rooms[rid].active];
      && m.state == Lobby && m.problem.None? && m.participants.Keys <= w.profiles
      && MatchInv(n) && Grows(m, n) && n.problem.None? && n.state == Lobby && !n.recordsApplied
      && PlaceOf(n) == PlaceOf(m).(players := PlaceOf(m).players + {actor}) && SameListing(m, n)
      && n.participants.Keys == m.participants.Keys + {actor}
    ensures
      var r := w.rooms[rid].(members := w.rooms[rid].members[actor := 2]);
      Safe(s, w, w.(rooms := w.rooms[rid := r], matches := w.matches[r.active := n]))
  {
    hide MatchInv, Grows;
    var r := w.rooms[rid].(members := w.rooms[rid].members[actor := 2]);
    SeatedPlayers(w.profiles, w.matches, w.records, r.active, n);
    SeatedRounds(s, w.rooms, w.matches, rid, actor, n);
    SeatedTables(w, rid, r, r.active, n);
  }

  lemma SeatSafe(s: Setting, w: World, actor: UserId, rid: RoomId, now: Time)
    requires WorldInv(s, w) && actor in w.profiles && rid in w.rooms && w.rooms[rid].active in w.matches
    requires w.rooms[rid].mode == Duel && (w.rooms[rid].closed ==> actor in w.rooms[rid].members)
    requires Seat(w, actor, rid, now).Ok?
    ensures
      var after := Seat(w, actor, rid, now).value.0;
      Safe(s, w, after) && after.receipts == w.receipts
  {
    hide WorldInv, MatchInv, WorldGrows, Grows;
    if actor in w.rooms[rid].members {
      NothingGrows(w);
    } else {
      FreeSeat(s, w, rid);
      var m := w.matches[w.rooms[rid].active];
      JoinMatchOk(m, actor, now);
      LobbyIsBare(m);
      SeatKeeps(s, w, actor, rid, JoinMatch(m, actor, now));
    }
  }

  lemma LobbyIsBare(m: Match)
    requires MatchInv(m) && m.state == Lobby
    ensures m.problem.None? && m.rematchCreated.None? && !m.recordsApplied
  {
  }

  // ----- drawing a problem

  lemma OtherRoomHistory(matches: Matches, id: MatchId, n: Match, like: Match)
    requires UniqueRounds(PlacesOf(matches)) && id in matches && SameListing(matches[id], n) && like.roomId != n.roomId
    ensures History(matches[id := n], like) == History(matches, like)
  {
    UniqueRoundsListOnce(matches, like);
    HistoryUnchanged(matches, matches[id := n], like, like.round + 1);
  }

  lemma {:induction false} DrawnHistory(matches: Matches, id: MatchId, n: Match)
    requires UniqueRounds(PlacesOf(matches)) && id in matches && matches[id].problem.None? && n.problem.Some?
    requires SameListing(matches[id], n) && n.round >= 1
    ensures
      var m := matches[id];
      && History(matches[id := n], n) == [n.problem.value.id] + ProblemsBelow(matches, m, m.round)
      && History(matches, m) == ProblemsBelow(matches, m, m.round)
  {
    var m, after := matches[id], matches[id := n];
    UniqueRoundsListOnce(matches, m);
    UniqueRoundsListOnce(matches, n);
    HistoryUnchanged(matches, after, n, n.round);
    HistoryLike(matches, m, n, n.round);
    assert PlacesOf(matches)[id].round == m.round;
    OnlyListing(matches, m, id);
    assert Listed(after, n, n.round, id);
    forall x | Listed(after, n, n.round, x)
      ensures x == id
    {
      SoleRound(matches, id, x);
    }
    assert ListedAt(after, n, n.round) == Some(id);
  }

  lemma SoleRound(matches: Matches, id: MatchId, x: MatchId)
    requires UniqueRounds(PlacesOf(matches)) && id in matches && (x in matches || x == id)
    ensures x in matches && matches[x].roomId == matches[id].roomId && matches[x].round == matches[id].round ==> x == id
  {
    var ps := PlacesOf(matches);
    if x in matches {
      assert x in ps && id in ps && ps[x].round == matches[x].round && ps[id].round == matches[id].round;
    }
  }

  lemma OnlyListing(matches: Matches, m: Match, id: MatchId)
    requires UniqueRounds(PlacesOf(matches)) && id in matches && matches[id] == m && m.problem.None?
    ensures ListedAt(matches, m, m.round).None?
  {
    forall x | Listed(matches, m, m.round, x)
      ensures x == id
    {
      SoleRound(matches, id, x);
    }
  }

  lemma DrawnKeepsRotation(s: Setting, matches: Matches, id: MatchId, n: Match, pick: nat)
    requires CatalogOk(s) && UniqueRounds(PlacesOf(matches)) && id in matches && RotatedFor(s, matches, matches[id])
    requires matches[id].problem.None? && SameListing(matches[id], n) && n.round >= 1
    requires
      var m := matches[id];
      n.problem.Some? ==>
        Ok(n.problem.value) == ChooseProblem(Problems(s, m.challenge, m.difficulty), ProblemsBelow(matches, m, m.round),
                                             pick)
    ensures RotatedFor(s, matches[id := n], n)
  {
    var m := matches[id];
    if n.problem.Some? {
      DrawnHistory(matches, id, n);
      ChoiceKeepsRotation(Problems(s, m.challenge, m.difficulty), ProblemsBelow(matches, m, m.round), pick);
    } else {
      UnlistedKeepsRotation(s, matches, id, n, m, n);
    }
  }

  lemma DrawnRotation(s: Setting, rooms: RoomTable, matches: Matches, id: MatchId, n: Match, pick: nat)
    requires CatalogOk(s) && RoundsOk(s, rooms, matches) && id in matches && matches[id].rematchCreated.None?
    requires matches[id].problem.None? && SameListing(matches[id], n)
    requires
      var m := matches[id];
      n.problem.Some? ==>
        Ok(n.problem.value) == ChooseProblem(Problems(s, m.challenge, m.difficulty), ProblemsBelow(matches, m, m.round),
                                             pick)
    ensures RotationOk(s, rooms, matches[id := n])
  {
    var after := matches[id := n];
    forall x | x in rooms && rooms[x].active in after
      ensures RotatedFor(s, after, after[rooms[x].active])
    {
      ActiveMatch(rooms, matches, x);
      LatestIsActive(rooms, matches, id);
      if rooms[x].active == id {
        DrawnKeepsRotation(s, matches, id, n, pick);
      } else {
        OtherRoomHistory(matches, id, n, matches[rooms[x].active]);
      }
    }
  }

  /** A round without a successor is its room's active one. */
  lemma LatestIsActive(rooms: RoomTable, matches: Matches, id: MatchId)
    requires ChainOk(rooms, PlacesOf(matches)) && id in matches && matches[id].rematchCreated.None?
    ensures matches[id].roomId in rooms && rooms[matches[id].roomId].active == id && matches[id].round >= 1
  {
    assert Linked(rooms, PlacesOf(matches), id);
  }

  lemma DrawnRounds(s: Setting, rooms: RoomTable, matches: Matches, id: MatchId, n: Match, pick: nat)
    requires CatalogOk(s) && RoundsOk(s, rooms, matches) && id in matches && matches[id].rematchCreated.None?
    requires matches[id].problem.None? && SameIdentity(matches[id], n) && n.rematchCreated.None?
    requires n.participants.Keys == matches[id].participants.Keys && n.state != Finished
    requires
      var m := matches[id];
      n.problem.Some? ==>
        Ok(n.problem.value) == ChooseProblem(Problems(s, m.challenge, m.difficulty), ProblemsBelow(matches, m, m.round),
                                             pick)
    ensures RoundsOk(s, rooms, matches[id := n])
  {
    EvolvedPlace(matches, id, n);
    CommitOpen(rooms, matches, id, n);
    DrawnRotation(s, rooms, matches, id, n, pick);
  }

  lemma DrawnSafe(s: Setting, w: World, id: MatchId, n: Match, pick: nat)
    requires CatalogOk(s) && WorldInv(s, w) && id in w.matches && w.matches[id].rematchCreated.None?
    requires w.matches[id].problem.None? && MatchInv(n) && Evolves(w.matches[id], n) && n.state != Finished
    requires
      var m := w.matches[id];
      n.problem.Some? ==>
        Ok(n.problem.value) == ChooseProblem(Problems(s, m.challenge, m.difficulty),
                                             ProblemsBelow(w.matches, m, m.round), pick)
    ensures Safe(s, w, Commit(w, id, n))
  {
    hide MatchInv;
    EvolvedPlayers(w.profiles, w.matches, w.records, id, n);
    DrawnRounds(s, w.rooms, w.matches, id, n, pick);
    IdsUpdated(w.rooms, w.matches, w.nextId, id, n);
    OneGrows(w.matches, id, n);
  }

  lemma ReadySafe(s: Setting, w: World, id: MatchId, actor: UserId, ready: bool, live: set<UserId>, pick: nat,
                  now: Time)
    requires CatalogOk(s) && WorldInv(s, w) && id in w.matches
    requires ReadyRule(s, w, id, actor, ready, live, pick, now).Ok?
    ensures Safe(s, w, Commit(w, id, ReadyRule(s, w, id, actor, ready, live, pick, now).value))
  {
    var m := w.matches[id];
    assert MatchInv(m);
    hide WorldInv, MatchInv, WorldGrows, Grows, SetReady;
    SetReadyKeeps(s.config, m, actor, ready, live, Problems(s, m.challenge, m.difficulty),
                  ProblemsBelow(w.matches, m, m.round), pick, now);
    LobbyIsBare(m);
    DrawnSafe(s, w, id, ReadyRule(s, w, id, actor, ready, live, pick, now).value, pick);
  }

  // ----- cancelling a lobby

  lemma ClosedRounds(s: Setting, rooms: RoomTable, matches: Matches, id: MatchId, n: Match)
    requires RoundsOk(s, rooms, matches) && id in matches && matches[id].roomId in rooms
    requires Evolves(matches[id], n) && n.problem == matches[id].problem
    ensures
      var rid := matches[id].roomId;
      RoundsOk(s, rooms[rid := rooms[rid].(closed := true)], matches[id := n])
  {
    var rid := matches[id].roomId;
    var r2, after := rooms[rid := rooms[rid].(closed := true)], matches[id := n];
    EvolvedPlace(matches, id, n);
    EvolvedRotation(s, rooms, matches, id, n);
    ClosingKeepsChain(rooms, PlacesOf(after), rid);
    forall x | x in rooms
      ensures rooms[x].active == id ==> x == rid
    {
      ActiveMatch(rooms, matches, x);
    }
    assert OpenRoomsOk(r2, after);
    forall x | x in r2 && r2[x].active in after
      ensures RotatedFor(s, after, after[r2[x].active])
    {
      assert r2[x].active == rooms[x].active;
    }
  }

  lemma CancelledSafe(s: Setting, w: World, id: MatchId, n: Match)
    requires WorldInv(s, w) && id in w.matches && w.matches[id].roomId in w.rooms
    requires MatchInv(n) && Evolves(w.matches[id], n) && n.problem == w.matches[id].problem && !n.recordsApplied
    ensures Safe(s, w, CloseRoom(Commit(w, id, n), n.roomId))
  {
    hide MatchInv, LedgerOk, ChainOk, OpenRoomsOk, RotationOk, MatchesOk;
    EvolvedPlayers(w.profiles, w.matches, w.records, id, n);
    ClosedRounds(s, w.rooms, w.matches, id, n);
    IdsUpdated(w.rooms, w.matches, w.nextId, id, n);
    OneGrows(w.matches, id, n);
    NothingGrows(w);
  }

  lemma LobbyMatch(s: Setting, w: World, id: MatchId)
    requires WorldInv(s, w) && id in w.matches && w.matches[id].state == Lobby
    ensures MatchInv(w.matches[id]) && w.matches[id].roomId in w.rooms && w.rooms[w.matches[id].roomId].active == id
  {
    assert MatchInv(w.matches[id]);
    LobbyIsBare(w.matches[id]);
    LatestIsActive(w.rooms, w.matches, id);
  }

  lemma CancelSafe(s: Setting, w: World, id: MatchId, now: Time)
    requires WorldInv(s, w) && id in w.matches && CancelEffect(w, id, now).Ok?
    ensures
      var after := CancelEffect(w, id, now).value.0;
      Safe(s, w, after) && after.receipts == w.receipts
  {
    hide WorldInv, MatchInv, WorldGrows, Grows;
    LobbyMatch(s, w, id);
    CancelKeeps(w.matches[id], now);
    CancelledSafe(s, w, id, CancelMatch(w.matches[id], now).value);
  }

  // ----- opening the next round

  lemma LinkedOk(m: Match, voted: Match, next: MatchId, now: Time)
    requires MatchInv(m) && MatchInv(voted) && Evolves(m, voted) && m.state == RematchPending == voted.state
    requires voted.problem == m.problem && m.rematchCreated.None? && voted.votes == voted.participants.Keys
    ensures
      var n := LinkedTo(voted, next, now);
      && MatchInv(n) && Grows(m, n) && n.problem == m.problem && n.recordsApplied == m.recordsApplied
         && n.winner == m.winner
      && PlaceOf(n) == PlaceOf(m).(next := Some(next)) && SameIdentity(m, n) && n.state == RematchPending
  {
    assert ResultFrozen(m, voted);
    AppendKeeps(voted.(rematchCreated := Some(next)), RematchCreated, now);
  }

  lemma SeatedSize(members: map<UserId, nat>)
    ensures Seated(members).Keys == members.Keys && |Seated(members)| == |members|
  {
    assert Seated(members).Keys == members.Keys;
    assert |Seated(members).Keys| == |members.Keys|;
  }

  lemma NextRoundOk(room: Room, id: MatchId, voted: Match, now: Time)
    requires voted.mode == Duel && |room.members| == 2
    ensures
      var n := NextRound(room, id, voted, now);
      && MatchInv(n) && n.problem.None? && n.state == Lobby && !n.recordsApplied
         && n.participants.Keys == room.members.Keys
      && PlaceOf(n) == PlaceOf(voted).(round := voted.round + 1, previous := Some(id), next := None,
                                       players := room.members.Keys)
  {
    hide MatchInv;
    SeatedSize(room.members);
    NewMatchOk(voted.roomId, voted.round + 1, Some(id), voted.challenge, voted.mode, voted.difficulty,
               Seated(room.members), now);
  }

  lemma NextRoundPlayers(profiles: set<UserId>, matches: Matches, records: Records, id: MatchId, linked: Match,
                         next: MatchId, n: Match)
    requires id in matches && next !in matches && SameResult(matches[id], linked)
    requires linked.participants.Keys == matches[id].participants.Keys
    requires PlayersOk(profiles, matches, records) && MatchInv(linked)
    requires MatchInv(n) && !n.recordsApplied && n.participants.Keys <= profiles
    ensures PlayersOk(profiles, matches[id := linked][next := n], records)
  {
    hide MatchInv;
    EvolvedMatchesOk(profiles, matches, id, linked);
    UncountedKeepsLedger(records, matches, id, linked);
    NewMatchKeepsPlayers(profiles, matches[id := linked], records, next, n);
  }

  lemma NextRoundHistory(rooms: RoomTable, matches: Matches, id: MatchId, n: Match)
    requires ChainOk(rooms, PlacesOf(matches)) && id in matches && matches[id].rematchCreated.None?
    requires n.roomId == matches[id].roomId && n.round == matches[id].round + 1
    requires n.challenge == matches[id].challenge && n.difficulty == matches[id].difficulty
    ensures History(matches, n) == History(matches, matches[id])
  {
    var m := matches[id];
    UniqueRoundsListOnce(matches, m);
    HistoryLike(matches, m, n, m.round + 1);
    NoSuccessorYet(rooms, matches, id);
    assert ListedAt(matches, n, n.round).None?;
    assert ProblemsBelow(matches, n, n.round + 1) == [] + ProblemsBelow(matches, n, n.round);
  }

  lemma NoSuccessorYet(rooms: RoomTable, matches: Matches, id: MatchId)
    requires ChainOk(rooms, PlacesOf(matches)) && id in matches && matches[id].rematchCreated.None?
    ensures forall x :: x in matches && matches[x].roomId == matches[id].roomId ==>
            matches[x].round <= matches[id].round
  {
    var ps := PlacesOf(matches);
    LatestIsActive(rooms, matches, id);
    forall x | x in matches && matches[x].roomId == matches[id].roomId
      ensures matches[x].round <= matches[id].round
    {
      assert Linked(rooms, ps, x);
    }
  }

  lemma NextRoundRotation(s: Setting, rooms: RoomTable, matches: Matches, id: MatchId, linked: Match, next: MatchId,
                          n: Match)
    requires RoundsOk(s, rooms, matches) && id in matches && next !in matches && matches[id].rematchCreated.None?
    requires matches[id].roomId in rooms && rooms[matches[id].roomId].active == id
    requires SameIdentity(matches[id], linked) && linked.problem == matches[id].problem && n.problem.None?
    requires n.roomId == matches[id].roomId && n.round == matches[id].round + 1
    requires n.challenge == matches[id].challenge && n.difficulty == matches[id].difficulty
    ensures
      var rid := matches[id].roomId;
      RotationOk(s, rooms[rid := rooms[rid].(active := next)], matches[id := linked][next := n])
  {
    var rid := matches[id].roomId;
    var r2, mid := rooms[rid := rooms[rid].(active := next)], matches[id := linked];
    EvolvedRotation(s, rooms, matches, id, linked);
    LinkedUnique(matches, id, linked);
    forall x | x in r2 && r2[x].active in mid[next := n]
      ensures RotatedFor(s, mid[next := n], mid[next := n][r2[x].active])
    {
      if x == rid {
        UnlistedHistory(mid, next, n, n);
        EvolvedHistory(matches, id, linked, n);
        NextRoundHistory(rooms, matches, id, n);
      } else {
        ActiveMatch(rooms, matches, x);
        UnlistedKeepsRotation(s, mid, next, n, mid[rooms[x].active], mid[rooms[x].active]);
      }
    }
  }

  lemma LinkedUnique(matches: Matches, id: MatchId, linked: Match)
    requires UniqueRounds(PlacesOf(matches)) && id in matches && SameIdentity(matches[id], linked)
    ensures UniqueRounds(PlacesOf(matches[id := linked]))
  {
    var ps, after := PlacesOf(matches), PlacesOf(matches[id := linked]);
    PlacesUpdate(matches, id, linked);
    forall a, b | a in after && b in after && after[a].roomId == after[b].roomId && after[a].round == after[b].round
      ensures a == b
    {
      assert ps[a].roomId == ps[b].roomId && ps[a].round == ps[b].round;
    }
  }

  lemma NextRoundOpen(rooms: RoomTable, matches: Matches, id: MatchId, linked: Match, next: MatchId, n: Match)
    requires ChainOk(rooms, PlacesOf(matches)) && OpenRoomsOk(rooms, matches) && id in matches && next !in matches
    requires matches[id].roomId in rooms && rooms[matches[id].roomId].active == id && n.state == Lobby
    ensures
      var rid := matches[id].roomId;
      OpenRoomsOk(rooms[rid := rooms[rid].(active := next)], matches[id := linked][next := n])
  {
    forall x | x in rooms
      ensures rooms[x].active in matches && (rooms[x].active == id ==> x == matches[id].roomId)
    {
      ActiveMatch(rooms, matches, x);
    }
  }

  lemma NextRoundChain(rooms: RoomTable, matches: Matches, id: MatchId, linked: Match, next: MatchId, n: Match)
    requires ChainOk(rooms, PlacesOf(matches)) && id in matches && next !in matches
    requires matches[id].roomId in rooms && rooms[matches[id].roomId].active == id
    requires PlaceOf(linked) == PlaceOf(matches[id]).(next := Some(next))
    requires PlaceOf(n) == PlaceOf(matches[id]).(round := matches[id].round + 1, previous := Some(id), next := None,
                                                 players := rooms[matches[id].roomId].members.Keys)
    ensures
      var rid := matches[id].roomId;
      ChainOk(rooms[rid := rooms[rid].(active := next)], PlacesOf(matches[id := linked][next := n]))
  {
    PlacesUpdate(matches, id, linked);
    PlacesUpdate(matches[id := linked], next, n);
    NextRoundKeepsChain(rooms, PlacesOf(matches), id, next, PlaceOf(n));
  }

  predicate Succession(matches: Matches, room: Room, id: MatchId, linked: Match, next: MatchId, n: Match)
    requires id in matches
  {
    var m := matches[id];
    && SameIdentity(m, linked) && linked.problem == m.problem && n.problem.None? && n.state == Lobby
       && !n.recordsApplied
    && linked.recordsApplied == m.recordsApplied && linked.winner == m.winner
    && PlaceOf(linked) == PlaceOf(m).(next := Some(next))
    && PlaceOf(n) == PlaceOf(m).(round := m.round + 1, previous := Some(id), next := None, players := room.members.Keys)
  }

  lemma NextRoundTables(w: World, rid: RoomId, r: Room, id: MatchId, linked: Match, n: Match)
    requires IdsOk(w.rooms, w.matches, w.nextId) && MembersOk(w.profiles, w.rooms) && r.members.Keys <= w.profiles
    requires rid in w.rooms && id in w.matches && Grows(w.matches[id], linked) && RoomGrows(w.rooms[rid], r)
    ensures
      && IdsOk(w.rooms[rid := r], w.matches[id := linked][w.nextId := n], w.nextId + 1)
      && MembersOk(w.profiles, w.rooms[rid := r])
      && WorldGrows(w, w.(rooms := w.rooms[rid := r], matches := w.matches[id := linked][w.nextId := n],
                          nextId := w.nextId + 1))
  {
    NothingGrows(w);
    OneGrows(w.matches, id, linked);
  }

  lemma SuccessionSafe(s: Setting, w: World, id: MatchId, linked: Match, n: Match)
    requires id in w.matches && w.matches[id].rematchCreated.None?
    requires w.matches[id].roomId in w.rooms && w.rooms[w.matches[id].roomId].active == id
    requires Succession(w.matches, w.rooms[w.matches[id].roomId], id, linked, w.nextId, n)
    requires Grows(w.matches[id], linked)
    requires WorldInv(s, w) && MatchInv(linked) && MatchInv(n)
    ensures
      var rid := w.matches[id].roomId;
      Safe(s, w, w.(rooms := w.rooms[rid := w.rooms[rid].(active := w.nextId)],
                    matches := w.matches[id := linked][w.nextId := n], nextId := w.nextId + 1))
  {
    hide MatchInv, Grows, LedgerOk, RotationOk;
    var rid := w.matches[id].roomId;
    assert w.nextId !in w.matches && w.rooms[rid].members.Keys <= w.profiles;
    NextRoundPlayers(w.profiles, w.matches, w.records, id, linked, w.nextId, n);
    NextRoundChain(w.rooms, w.matches, id, linked, w.nextId, n);
    NextRoundOpen(w.rooms, w.matches, id, linked, w.nextId, n);
    NextRoundRotation(s, w.rooms, w.matches, id, linked, w.nextId, n);
    NextRoundTables(w, rid, w.rooms[rid].(active := w.nextId), id, linked, n);
  }

  lemma RematchPendingOk(s: Setting, w: World, id: MatchId)
    requires id in w.matches && w.matches[id].state == RematchPending && w.matches[id].rematchCreated.None?
    requires WorldInv(s, w)
    ensures
      var m := w.matches[id];
      && MatchInv(m) && m.mode == Duel && m.roomId in w.rooms && w.rooms[m.roomId].active == id
      && w.rooms[m.roomId].members.Keys == m.participants.Keys && |w.rooms[m.roomId].members| == 2
      && forall other :: other in w.matches ==> !AtRound(w, m.roomId, m.round + 1, other)
  {
    var m := w.matches[id];
    assert MatchInv(m);
    LatestIsActive(w.rooms, w.matches, id);
    ActiveMatch(w.rooms, w.matches, m.roomId);
    NoSuccessorYet(w.rooms, w.matches, id);
    assert |w.rooms[m.roomId].members.Keys| == |m.participants.Keys|;
  }

  /** Two votes from two players are everyone's. */
  lemma BothVoted(players: set<UserId>, votes: set<UserId>)
    requires votes <= players && |players| == 2 && |votes| == 2
    ensures votes == players
  {
    assert |players - votes| == 0;
  }

  lemma EvolvesInPlace(m: Match, n: Match)
    requires Evolves(m, n)
    ensures SameIdentity(m, n) && PlaceOf(n) == PlaceOf(m)
  {
  }

  lemma OpenNextRoundSafe(s: Setting, w: World, id: MatchId, voted: Match, now: Time)
    requires id in w.matches && w.matches[id].state == RematchPending && w.matches[id].rematchCreated.None?
    requires Keeps(w.matches[id], voted) && voted.state == RematchPending && |voted.votes| == 2
    requires voted.roomId in w.rooms
    requires WorldInv(s, w)
    ensures
      var after := OpenNextRound(w, id, voted, now).0;
      Safe(s, w, after) && after.receipts == w.receipts
  {
    hide WorldInv, MatchInv, Evolves, Grows, WorldGrows, LinkedTo, NextRound;
    var m := w.matches[id];
    RematchPendingOk(s, w, id);
    EvolvesInPlace(m, voted);
    BothVotedHere(m, voted);
    LinkedOk(m, voted, w.nextId, now);
    NextRoundOk(w.rooms[m.roomId], id, voted, now);
    SuccessionSafe(s, w, id, LinkedTo(voted, w.nextId, now), NextRound(w.rooms[m.roomId], id, voted, now));
  }

  lemma BothVotedHere(m: Match, voted: Match)
    requires MatchInv(m) && MatchInv(voted) && m.mode == Duel && voted.mode == Duel
    requires voted.state == RematchPending && |voted.votes| == 2
    ensures voted.votes == voted.participants.Keys
  {
    assert |voted.participants.Keys| == 2;
    BothVoted(voted.participants.Keys, voted.votes);
  }

  lemma RematchSafe(s: Setting, w: World, actor: UserId, id: MatchId, now: Time)
    requires id in w.matches && actor in w.matches[id].participants && RematchEffect(w, actor, id, now).Ok?
    requires WorldInv(s, w)
    ensures
      var after := RematchEffect(w, actor, id, now).value.0;
      Safe(s, w, after) && after.receipts == w.receipts
  {
    hide WorldInv, MatchInv, Evolves, Grows, WorldGrows, Vote;
    var m := w.matches[id];
    if m.rematchCreated.Some? {
      NothingGrows(w);
    } else {
      RematchPendingOk(s, w, id);
      VoteKeeps(m, actor, now);
      var voted := Vote(m, actor, now);
      EvolvesInPlace(m, voted);
      if |voted.votes| == 2 {
        OpenNextRoundSafe(s, w, id, voted, now);
      } else {
        CommitSafe(s, w, id, voted);
      }
    }
  }

  // ----- starting an execution

  lemma SpentId(s: Setting, w: World)
    requires WorldInv(s, w)
    ensures WorldInv(s, w.(nextId := w.nextId + 1))
  {
  }

  lemma StartSafe(s: Setting, w: World, id: MatchId, n: Match, response: Response)
    requires id in w.matches && Keeps(w.matches[id], n) && WorldInv(s, w)
    ensures
      var effect := MatchEffect(w.(nextId := w.nextId + 1), id, Ok(n), response);
      effect.Ok? && Safe(s, w, effect.value.0) && effect.value.0.receipts == w.receipts
  {
    hide WorldInv, MatchInv, Grows;
    SpentId(s, w);
    MatchEffectSafe(s, w.(nextId := w.nextId + 1), id, Ok(n), response);
  }

  lemma StartStepSafe(s: Setting, w: World, actor: UserId, key: string, id: MatchId, kind: Kind, source: string,
                      receivedAt: Time, sequence: int, now: Time)
    requires id in w.matches && WorldInv(s, w)
    ensures Safe(s, w, StartStep(s, w, actor, key, id, kind, source, receivedAt, sequence, now).0)
  {
    hide WorldInv, MatchInv, Grows, WorldGrows, Keeps, StartExecution, MatchEffect, Command;
    var m := w.matches[id];
    MatchHolds(s, w, id);
    NothingGrows(w);
    if KeyOk(key) && Utf8Bytes(source) <= s.config.maxSourceBytes && actor in m.participants && m.challenge == Coding {
      var r := StartExecution(s.config, m, actor, w.nextId, kind, receivedAt, sequence, now);
      var effect := MatchEffect(w.(nextId := w.nextId + 1), id, r, ExecutionResponse(w.nextId));
      if r.Ok? {
        StartKeeps(s.config, m, actor, w.nextId, kind, receivedAt, sequence, now);
        StartSafe(s, w, id, r.value, ExecutionResponse(w.nextId));
      } else {
        EffectFails(w.(nextId := w.nextId + 1), id, r, ExecutionResponse(w.nextId));
      }
      CommandSafe(s, w, actor, key, ExecuteCommand(kind), Some(id), SourceText(source), effect);
    }
  }
}
