/** Rooms and the chain of rounds in each: who follows whom, who is seated, which round is live. */
module Rooms {
  import opened Domain
  import opened MatchTypes
  import opened MatchInvariants

  type RoomTable = map<RoomId, Room>
  type Matches = map<MatchId, Match>

  /** The columns that place a match in its room. */
  datatype Place = Place(roomId: RoomId, round: nat, previous: Option<MatchId>, next: Option<MatchId>,
                         mode: Mode, challenge: Challenge, difficulty: Difficulty, players: set<UserId>)

  type Places = map<MatchId, Place>

  function PlaceOf(m: Match): Place {
    Place(m.roomId, m.round, m.previous, m.rematchCreated, m.mode, m.challenge, m.difficulty, m.participants.Keys)
  }

  function PlacesOf(matches: Matches): Places {
    map id | id in matches :: PlaceOf(matches[id])
  }

  lemma PlacesUpdate(matches: Matches, id: MatchId, n: Match)
    ensures PlacesOf(matches[id := n]) == PlacesOf(matches)[id := PlaceOf(n)]
    ensures id in matches && PlaceOf(n) == PlaceOf(matches[id]) ==> PlacesOf(matches[id := n]) == PlacesOf(matches)
  {
  }

  // ----- the chain invariant

  predicate PredecessorOk(ps: Places, id: MatchId)
    requires id in ps
  {
    if ps[id].previous.None? then ps[id].round == 1
    else
      var p := ps[id].previous.value;
      p in ps && ps[p].roomId == ps[id].roomId && ps[p].round + 1 == ps[id].round && ps[p].next == Some(id)
  }

  predicate SuccessorOk(ps: Places, id: MatchId)
    requires id in ps
  {
    ps[id].next.Some? ==> ps[id].next.value in ps && ps[ps[id].next.value].previous == Some(id)
  }

  predicate InRoom(rooms: RoomTable, ps: Places, id: MatchId)
    requires id in ps
  {
    && ps[id].roomId in rooms
    && var r := rooms[ps[id].roomId];
    && r.mode == ps[id].mode && r.challenge == ps[id].challenge && r.difficulty == ps[id].difficulty
    && ps[id].round >= 1
    && (ps[id].next.None? <==> r.active == id)
    && r.active in ps && ps[id].round <= ps[r.active].round
  }

  predicate Linked(rooms: RoomTable, ps: Places, id: MatchId)
    requires id in ps
  {
    InRoom(rooms, ps, id) && PredecessorOk(ps, id) && SuccessorOk(ps, id)
  }

  predicate SeatsOk(r: Room) {
    && r.host in r.members
    && forall u :: u in r.members ==> (r.members[u] == 1 || r.members[u] == 2) && (r.members[u] == 1 <==> u == r.host)
  }

  predicate RoomOk(ps: Places, rid: RoomId, r: Room) {
    SeatsOk(r) && r.active in ps && ps[r.active].roomId == rid && ps[r.active].players == r.members.Keys
  }

  predicate UniqueRounds(ps: Places) {
    forall a, b :: a in ps && b in ps && ps[a].roomId == ps[b].roomId && ps[a].round == ps[b].round ==> a == b
  }

  predicate ChainOk(rooms: RoomTable, ps: Places) {
    && (forall rid {:trigger RoomOk(ps, rid, rooms[rid])} :: rid in rooms ==> RoomOk(ps, rid, rooms[rid]))
    && (forall id {:trigger Linked(rooms, ps, id)} :: id in ps ==> Linked(rooms, ps, id))
    && UniqueRounds(ps)
  }

  lemma ClosingKeepsChain(rooms: RoomTable, ps: Places, rid: RoomId)
    requires ChainOk(rooms, ps) && rid in rooms
    ensures ChainOk(rooms[rid := rooms[rid].(closed := true)], ps)
  {
    var after := rooms[rid := rooms[rid].(closed := true)];
    forall x | x in ps
      ensures Linked(after, ps, x)
    {
      assert Linked(rooms, ps, x);
    }
    forall r | r in after
      ensures RoomOk(ps, r, after[r])
    {
      assert RoomOk(ps, r, rooms[r]);
    }
  }

  /** Who is seated does not matter to the links. */
  lemma SeatingKeepsLinks(rooms: RoomTable, ps: Places, rid: RoomId, members: map<UserId, nat>, players: set<UserId>,
                          x: MatchId)
    requires ChainOk(rooms, ps) && rid in rooms && x in ps && rooms[rid].active in ps
    ensures
      var id := rooms[rid].active;
      Linked(rooms[rid := rooms[rid].(members := members)], ps[id := ps[id].(players := players)], x)
  {
    assert Linked(rooms, ps, x);
  }

  lemma SeatingKeepsRooms(rooms: RoomTable, ps: Places, rid: RoomId, u: UserId, r: RoomId)
    requires ChainOk(rooms, ps) && rid in rooms && u !in rooms[rid].members && r in rooms && rooms[rid].active in ps
    ensures
      var id := rooms[rid].active;
      var r2 := rooms[rid := rooms[rid].(members := rooms[rid].members[u := 2])];
      RoomOk(ps[id := ps[id].(players := ps[id].players + {u})], r, r2[r])
  {
    assert RoomOk(ps, r, rooms[r]) && RoomOk(ps, rid, rooms[rid]);
  }

  lemma SeatingKeepsChain(rooms: RoomTable, ps: Places, rid: RoomId, u: UserId)
    requires ChainOk(rooms, ps) && rid in rooms && u !in rooms[rid].members && rooms[rid].active in ps
    ensures
      var r := rooms[rid];
      ChainOk(rooms[rid := r.(members := r.members[u := 2])],
              ps[r.active := ps[r.active].(players := ps[r.active].players + {u})])
  {
    var room := rooms[rid];
    var r2 := rooms[rid := room.(members := room.members[u := 2])];
    var p2 := ps[room.active := ps[room.active].(players := ps[room.active].players + {u})];
    forall x | x in p2
      ensures Linked(r2, p2, x)
    {
      SeatingKeepsLinks(rooms, ps, rid, room.members[u := 2], ps[room.active].players + {u}, x);
    }
    forall r | r in r2
      ensures RoomOk(p2, r, r2[r])
    {
      SeatingKeepsRooms(rooms, ps, rid, u, r);
    }
    assert UniqueRounds(p2);
  }

  lemma NextRoundPlaces(rooms: RoomTable, ps: Places, id: MatchId, next: MatchId, p: Place, x: MatchId)
    requires ChainOk(rooms, ps) && id in ps && next !in ps && ps[id].roomId in rooms
    requires rooms[ps[id].roomId].active == id
    requires p == ps[id].(round := ps[id].round + 1, previous := Some(id), next := None,
                          players := rooms[ps[id].roomId].members.Keys)
    requires x in ps || x == next
    ensures
      var rid := ps[id].roomId;
      var r2, p2 := rooms[rid := rooms[rid].(active := next)], ps[id := ps[id].(next := Some(next))][next := p];
      Linked(r2, p2, x)
  {
    assert Linked(rooms, ps, id);
    if x != next {
      assert Linked(rooms, ps, x);
    }
  }

  /** A room's latest round gets a successor; nothing else changes place. */
  lemma NextRoundKeepsChain(rooms: RoomTable, ps: Places, id: MatchId, next: MatchId, p: Place)
    requires ChainOk(rooms, ps) && id in ps && next !in ps && ps[id].roomId in rooms
    requires rooms[ps[id].roomId].active == id
    requires p == ps[id].(round := ps[id].round + 1, previous := Some(id), next := None,
                          players := rooms[ps[id].roomId].members.Keys)
    ensures
      var rid := ps[id].roomId;
      ChainOk(rooms[rid := rooms[rid].(active := next)], ps[id := ps[id].(next := Some(next))][next := p])
  {
    var rid := ps[id].roomId;
    var r2, p2 := rooms[rid := rooms[rid].(active := next)], ps[id := ps[id].(next := Some(next))][next := p];
    forall x | x in p2
      ensures Linked(r2, p2, x)
    {
      NextRoundPlaces(rooms, ps, id, next, p, x);
    }
    forall r | r in r2
      ensures RoomOk(p2, r, r2[r])
    {
      assert RoomOk(ps, r, rooms[r]);
    }
    NextRoundUnique(rooms, ps, id, next, p);
  }

  lemma NextRoundUnique(rooms: RoomTable, ps: Places, id: MatchId, next: MatchId, p: Place)
    requires ChainOk(rooms, ps) && id in ps && next !in ps && ps[id].roomId in rooms
    requires rooms[ps[id].roomId].active == id
    requires p.roomId == ps[id].roomId && p.round == ps[id].round + 1
    ensures UniqueRounds(ps[id := ps[id].(next := Some(next))][next := p])
  {
    forall x | x in ps && ps[x].roomId == p.roomId
      ensures ps[x].round < p.round
    {
      assert Linked(rooms, ps, x);
    }
  }

  lemma NewRoomKeepsLinks(rooms: RoomTable, ps: Places, rid: RoomId, id: MatchId, r: Room, p: Place, x: MatchId)
    requires ChainOk(rooms, ps) && rid !in rooms && id !in ps && r.active == id && (x in ps || x == id)
    requires p == Place(rid, 1, None, None, r.mode, r.challenge, r.difficulty, r.members.Keys)
    ensures Linked(rooms[rid := r], ps[id := p], x) && (x != id ==> ps[x].roomId != rid)
  {
    if x != id {
      assert Linked(rooms, ps, x);
    }
  }

  lemma NewRoomKeepsChain(rooms: RoomTable, ps: Places, rid: RoomId, id: MatchId, r: Room, p: Place)
    requires ChainOk(rooms, ps) && rid !in rooms && id !in ps && r.active == id && SeatsOk(r)
    requires p == Place(rid, 1, None, None, r.mode, r.challenge, r.difficulty, r.members.Keys)
    ensures ChainOk(rooms[rid := r], ps[id := p])
  {
    forall x | x in ps || x == id
      ensures Linked(rooms[rid := r], ps[id := p], x) && (x != id ==> ps[x].roomId != rid)
    {
      NewRoomKeepsLinks(rooms, ps, rid, id, r, p, x);
    }
    forall other | other in rooms
      ensures RoomOk(ps[id := p], other, rooms[other])
    {
      NewRoomKeepsRooms(rooms, ps, id, p, other);
    }
    NewRoomUnique(ps, id, p);
  }

  lemma NewRoomKeepsRooms(rooms: RoomTable, ps: Places, id: MatchId, p: Place, other: RoomId)
    requires ChainOk(rooms, ps) && id !in ps && other in rooms
    ensures RoomOk(ps[id := p], other, rooms[other])
  {
    assert RoomOk(ps, other, rooms[other]);
  }

  lemma NewRoomUnique(ps: Places, id: MatchId, p: Place)
    requires UniqueRounds(ps) && id !in ps
    requires forall x :: x in ps ==> ps[x].roomId != p.roomId
    ensures UniqueRounds(ps[id := p])
  {
  }

  // ----- live rounds

  /** A duel's active round is in play or open to a rematch, unless its host cancelled the lobby. */
  predicate OpenRoomsOk(rooms: RoomTable, matches: Matches) {
    forall rid :: rid in rooms && rooms[rid].mode == Duel && !rooms[rid].closed && rooms[rid].active in matches ==>
                    matches[rooms[rid].active].state != Finished
  }

  lemma ActiveMatch(rooms: RoomTable, matches: Matches, rid: RoomId)
    requires ChainOk(rooms, PlacesOf(matches)) && rid in rooms
    ensures rooms[rid].active in matches
    ensures
      var m := matches[rooms[rid].active];
      && m.roomId == rid && m.participants.Keys == rooms[rid].members.Keys && m.rematchCreated.None?
      && m.mode == rooms[rid].mode && m.challenge == rooms[rid].challenge && m.difficulty == rooms[rid].difficulty
  {
    var ps := PlacesOf(matches);
    assert RoomOk(ps, rid, rooms[rid]);
    assert Linked(rooms, ps, rooms[rid].active);
  }

  lemma LoneHost(r: Room)
    requires SeatsOk(r) && forall u :: u in r.members ==> r.members[u] != 2
    ensures r.members.Keys == {r.host}
  {
  }

  /** A free second seat means the room's active round is still in its lobby. */
  lemma FreeSeatIsLobby(rooms: RoomTable, matches: Matches, rid: RoomId)
    requires ChainOk(rooms, PlacesOf(matches)) && OpenRoomsOk(rooms, matches)
    requires rid in rooms && rooms[rid].mode == Duel && !rooms[rid].closed
    requires rooms[rid].active in matches && LifecycleOk(matches[rooms[rid].active])
    requires forall u :: u in rooms[rid].members ==> rooms[rid].members[u] != 2
    ensures var m := matches[rooms[rid].active]; m.state == Lobby && |m.participants| == 1 && m.mode == Duel
  {
    assert RoomOk(PlacesOf(matches), rid, rooms[rid]);
    LoneHost(rooms[rid]);
    LoneMatch(rooms, matches, rid);
  }

  lemma LoneMatch(rooms: RoomTable, matches: Matches, rid: RoomId)
    requires ChainOk(rooms, PlacesOf(matches)) && OpenRoomsOk(rooms, matches)
    requires rid in rooms && rooms[rid].mode == Duel && !rooms[rid].closed
    requires rooms[rid].active in matches && LifecycleOk(matches[rooms[rid].active])
    requires rooms[rid].members.Keys == {rooms[rid].host}
    ensures var m := matches[rooms[rid].active]; m.state == Lobby && |m.participants| == 1 && m.mode == Duel
  {
    ActiveMatch(rooms, matches, rid);
    var m := matches[rooms[rid].active];
    assert |m.participants.Keys| == 1;
  }

  // ----- the chain itself

  /** The rounds of a match's room from the first up to that match. */
  ghost function Chain(rooms: RoomTable, ps: Places, id: MatchId): seq<MatchId>
    requires ChainOk(rooms, ps) && id in ps
    decreases ps[id].round
  {
    assert Linked(rooms, ps, id);
    if ps[id].previous.None? then [id] else Chain(rooms, ps, ps[id].previous.value) + [id]
  }

  lemma {:induction false} ChainCountsUp(rooms: RoomTable, ps: Places, id: MatchId)
    requires ChainOk(rooms, ps) && id in ps
    ensures
      var chain := Chain(rooms, ps, id);
      && |chain| == ps[id].round && chain[|chain| - 1] == id
      && forall i :: 0 <= i < |chain| ==>
         chain[i] in ps && ps[chain[i]].roomId == ps[id].roomId && ps[chain[i]].round == i + 1
    decreases ps[id].round
  {
    assert Linked(rooms, ps, id);
    if ps[id].previous.Some? {
      ChainCountsUp(rooms, ps, ps[id].previous.value);
    }
  }

  predicate FollowedBy(ps: Places, a: MatchId, b: MatchId) {
    a in ps && b in ps && ps[a].next == Some(b) && ps[b].previous == Some(a)
  }

  lemma {:induction false} ChainIsLinear(rooms: RoomTable, ps: Places, id: MatchId)
    requires ChainOk(rooms, ps) && id in ps
    ensures var chain := Chain(rooms, ps, id); forall i :: 0 <= i < |chain| - 1 ==>
            FollowedBy(ps, chain[i], chain[i + 1])
    decreases ps[id].round
  {
    assert Linked(rooms, ps, id);
    if ps[id].previous.Some? {
      var p := ps[id].previous.value;
      ChainIsLinear(rooms, ps, p);
      ChainCountsUp(rooms, ps, p);
      var front, chain := Chain(rooms, ps, p), Chain(rooms, ps, id);
      forall i | 0 <= i < |chain| - 1
        ensures FollowedBy(ps, chain[i], chain[i + 1])
      {
        if i + 1 < |front| {
          assert chain[i] == front[i] && chain[i + 1] == front[i + 1];
        }
      }
    }
  }

  /** Every match of the room is on the chain of its active round, at the index its round number names. */
  lemma ChainIsWholeRoom(rooms: RoomTable, ps: Places, rid: RoomId, x: MatchId)
    requires ChainOk(rooms, ps) && rid in rooms && x in ps && ps[x].roomId == rid
    ensures rooms[rid].active in ps
    ensures
      var chain := Chain(rooms, ps, rooms[rid].active);
      1 <= ps[x].round <= |chain| && chain[ps[x].round - 1] == x
  {
    assert RoomOk(ps, rid, rooms[rid]) && Linked(rooms, ps, x);
    ChainCountsUp(rooms, ps, rooms[rid].active);
  }
}
