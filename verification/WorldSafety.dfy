/** Every step keeps the tables consistent: match invariants, the chain of rounds, the record ledger, problem
    rotation and command receipts. */
module WorldSafety {
  import opened Domain
  import opened MatchTypes
  import opened MatchInvariants
  import opened MatchSafety
  import opened World
  import opened Rooms
  import opened Rotation
  import opened Ledger

  predicate IdsOk(rooms: RoomTable, matches: Matches, nextId: Id) {
    (forall rid :: rid in rooms ==> rid < nextId) && (forall id :: id in matches ==> id < nextId)
  }

  ghost predicate MatchesOk(profiles: set<UserId>, matches: Matches) {
    forall id :: id in matches ==> MatchInv(matches[id]) && matches[id].participants.Keys <= profiles
  }

  predicate MembersOk(profiles: set<UserId>, rooms: RoomTable) {
    forall rid :: rid in rooms ==> rooms[rid].members.Keys <= profiles
  }

  type Receipts = map<CommandKey, CommandReceipt>

  predicate ReceiptsOk(receipts: Receipts) {
    forall k :: k in receipts ==> receipts[k].response.Some?
  }

  /** Players, their records, and the matches those records count. */
  ghost predicate PlayersOk(profiles: set<UserId>, matches: Matches, records: Records) {
    MatchesOk(profiles, matches) && records.Keys == profiles && LedgerOk(records, matches)
  }

  /** Rooms, their chains of rounds, and the problems those rounds drew. */
  ghost predicate RoundsOk(s: Setting, rooms: RoomTable, matches: Matches) {
    ChainOk(rooms, PlacesOf(matches)) && OpenRoomsOk(rooms, matches) && RotationOk(s, rooms, matches)
  }

  ghost predicate WorldInv(s: Setting, w: World) {
    && PlayersOk(w.profiles, w.matches, w.records)
    && RoundsOk(s, w.rooms, w.matches)
    && IdsOk(w.rooms, w.matches, w.nextId)
    && MembersOk(w.profiles, w.rooms)
    && ReceiptsOk(w.receipts)
  }

  predicate MatchesGrow(matches: Matches, after: Matches) {
    forall id {:trigger id in matches} :: id in matches ==> id in after && Grows(matches[id], after[id])
  }

  predicate ReceiptsGrow(receipts: Receipts, after: Receipts) {
    forall k :: k in receipts ==> k in after && after[k] == receipts[k]
  }

  /** Who hosts a room and how it is played never changes, and nobody gives up a seat. */
  predicate RoomGrows(r: Room, after: Room) {
    && after.host == r.host && after.mode == r.mode && after.difficulty == r.difficulty
       && after.challenge == r.challenge
    && r.members.Keys <= after.members.Keys
  }

  predicate RoomsGrow(rooms: RoomTable, after: RoomTable) {
    forall rid :: rid in rooms ==> rid in after && RoomGrows(rooms[rid], after[rid])
  }

  predicate WorldGrows(w: World, after: World) {
    && MatchesGrow(w.matches, after.matches)
    && ReceiptsGrow(w.receipts, after.receipts)
    && RoomsGrow(w.rooms, after.rooms)
    && w.profiles <= after.profiles && w.nextId <= after.nextId
  }

  ghost predicate Safe(s: Setting, w: World, after: World) {
    WorldInv(s, after) && WorldGrows(w, after)
  }

  lemma MatchHolds(s: Setting, w: World, id: MatchId)
    requires WorldInv(s, w) && id in w.matches
    ensures MatchInv(w.matches[id]) && w.matches[id].participants.Keys <= w.profiles
  {
  }

  // ----- one match written back

  lemma EvolvedMatchesOk(profiles: set<UserId>, matches: Matches, id: MatchId, n: Match)
    requires MatchesOk(profiles, matches) && MatchInv(n) && n.participants.Keys <= profiles
    ensures MatchesOk(profiles, matches[id := n])
  {
    hide MatchInv;
  }

  lemma EvolvedPlace(matches: Matches, id: MatchId, n: Match)
    requires id in matches && SameIdentity(matches[id], n) && n.rematchCreated == matches[id].rematchCreated
    requires n.participants.Keys == matches[id].participants.Keys
    ensures PlacesOf(matches[id := n]) == PlacesOf(matches)
  {
    PlacesUpdate(matches, id, n);
  }

  lemma EvolvedHistory(matches: Matches, id: MatchId, n: Match, like: Match)
    requires id in matches && SameIdentity(matches[id], n) && n.problem == matches[id].problem
    requires UniqueRounds(PlacesOf(matches))
    ensures History(matches[id := n], like) == History(matches, like)
  {
    UniqueRoundsListOnce(matches, like);
    HistoryUnchanged(matches, matches[id := n], like, like.round + 1);
  }

  lemma EvolvedRotation(s: Setting, rooms: RoomTable, matches: Matches, id: MatchId, n: Match)
    requires RotationOk(s, rooms, matches) && id in matches && UniqueRounds(PlacesOf(matches))
    requires SameIdentity(matches[id], n) && n.problem == matches[id].problem
    ensures RotationOk(s, rooms, matches[id := n])
  {
    var after := matches[id := n];
    forall rid | rid in rooms && rooms[rid].active in after
      ensures RotatedFor(s, after, after[rooms[rid].active])
    {
      EvolvedHistory(matches, id, n, after[rooms[rid].active]);
      LikeHistory(matches, matches[rooms[rid].active], after[rooms[rid].active]);
    }
  }

  lemma EvolvedLedger(records: Records, matches: Matches, id: MatchId, n: Match)
    requires LedgerOk(records, matches) && id in matches
    requires Evolves(matches[id], n) && LifecycleOk(matches[id])
    requires RecordsOk(n.mode, n.winner, n.endReason, n.recordsApplied, n.participants)
    requires n.participants.Keys <= records.Keys
    ensures LedgerOk(Recorded(records, matches[id], n), matches[id := n])
  {
    var m := matches[id];
    if n.recordsApplied && !m.recordsApplied {
      AppliedKeepsLedger(records, matches, id, n);
    } else {
      assert SameResult(m, n);
      UncountedKeepsLedger(records, matches, id, n);
    }
  }

  /** Only cancelling a lobby leaves a duel finished without a rematch window. */
  lemma StaysOpen(m: Match, n: Match)
    requires MatchInv(m) && Keeps(m, n)
    ensures n.mode == Duel && n.state == Finished ==> m.state == Finished
  {
    assert LifecycleOk(m) && LifecycleOk(n) && SettledOk(n) && SettledOk(m);
  }

  lemma EvolvedPlayers(profiles: set<UserId>, matches: Matches, records: Records, id: MatchId, n: Match)
    requires PlayersOk(profiles, matches, records) && id in matches
    requires MatchInv(n) && Evolves(matches[id], n)
    ensures PlayersOk(profiles, matches[id := n], Recorded(records, matches[id], n))
  {
    MatchColumns(matches[id], n);
    hide MatchInv, Evolves, LifecycleOk, RecordsOk, LedgerOk;
    EvolvedMatchesOk(profiles, matches, id, n);
    EvolvedLedger(records, matches, id, n);
  }

  lemma MatchColumns(m: Match, n: Match)
    requires MatchInv(m) && MatchInv(n) && Evolves(m, n)
    ensures LifecycleOk(m) && RecordsOk(n.mode, n.winner, n.endReason, n.recordsApplied, n.participants)
    ensures n.participants.Keys == m.participants.Keys
  {
    hide LifecycleOk, RecordsOk, Grows;
  }

  lemma EvolvedRounds(s: Setting, profiles: set<UserId>, rooms: RoomTable, matches: Matches, id: MatchId, n: Match)
    requires RoundsOk(s, rooms, matches) && MatchesOk(profiles, matches) && id in matches && Keeps(matches[id], n)
    ensures RoundsOk(s, rooms, matches[id := n])
  {
    EvolvedPlace(matches, id, n);
    EvolvedRotation(s, rooms, matches, id, n);
    StaysOpen(matches[id], n);
    CommitOpen(rooms, matches, id, n);
  }

  lemma IdsUpdated(rooms: RoomTable, matches: Matches, nextId: Id, id: MatchId, n: Match)
    requires IdsOk(rooms, matches, nextId) && id in matches
    ensures IdsOk(rooms, matches[id := n], nextId)
  {
  }

  lemma OneGrows(matches: Matches, id: MatchId, n: Match)
    requires id in matches && Grows(matches[id], n)
    ensures MatchesGrow(matches, matches[id := n])
  {
    forall x | x in matches
      ensures Grows(matches[x], matches[id := n][x])
    {
      if x != id {
        GrowsReflexive(matches[x]);
      }
    }
  }

  lemma NothingGrows(w: World)
    ensures WorldGrows(w, w)
  {
    forall x | x in w.matches
      ensures Grows(w.matches[x], w.matches[x])
    {
      GrowsReflexive(w.matches[x]);
    }
  }

  lemma CommitKeeps(s: Setting, w: World, id: MatchId, n: Match)
    requires WorldInv(s, w) && id in w.matches && Keeps(w.matches[id], n)
    ensures WorldInv(s, Commit(w, id, n))
  {
    EvolvedPlayers(w.profiles, w.matches, w.records, id, n);
    EvolvedRounds(s, w.profiles, w.rooms, w.matches, id, n);
    IdsUpdated(w.rooms, w.matches, w.nextId, id, n);
  }

  lemma CommitSafe(s: Setting, w: World, id: MatchId, n: Match)
    requires WorldInv(s, w) && id in w.matches && Keeps(w.matches[id], n)
    ensures Safe(s, w, Commit(w, id, n))
  {
    hide MatchInv, Grows, WorldInv;
    CommitKeeps(s, w, id, n);
    OneGrows(w.matches, id, n);
  }

  // ----- transactions

  lemma BackgroundSafe(s: Setting, w: World, id: MatchId, r: Result<Match>)
    requires WorldInv(s, w) && id in w.matches
    requires r.Ok? ==> Keeps(w.matches[id], r.value)
    ensures Safe(s, w, Background(w, id, r).0)
  {
    if r.Ok? {
      CommitSafe(s, w, id, r.value);
    } else {
      NothingGrows(w);
    }
  }

  lemma ReceiptSafe(s: Setting, w: World, after: World, slot: CommandKey, receipt: CommandReceipt)
    requires Safe(s, w, after) && after.receipts == w.receipts && slot !in w.receipts && receipt.response.Some?
    ensures Safe(s, w, after.(receipts := w.receipts[slot := receipt]))
  {
  }

  /** Reserving and completing a command adds its receipt and nothing else. */
  lemma CommandSafe(s: Setting, w: World, actor: UserId, key: string, command: CommandType, id: Option<MatchId>,
                    payload: Payload, effect: Result<(World, Response)>)
    requires WorldInv(s, w)
    requires effect.Ok? ==> Safe(s, w, effect.value.0) && effect.value.0.receipts == w.receipts
    ensures Safe(s, w, Command(w, actor, key, command, id, payload, effect).0)
  {
    var slot := CommandKey(actor, key);
    var after := Command(w, actor, key, command, id, payload, effect).0;
    if KeyOk(key) && slot !in w.receipts && effect.Ok? {
      var receipt := CommandReceipt(command, id, payload, Some(effect.value.1));
      ReceiptSafe(s, w, effect.value.0, slot, receipt);
      assert after == effect.value.0.(receipts := w.receipts[slot := receipt]);
    } else {
      NothingGrows(w);
      assert after == w;
    }
  }

  lemma MatchEffectSafe(s: Setting, w: World, id: MatchId, r: Result<Match>, response: Response)
    requires WorldInv(s, w) && id in w.matches && r.Ok? && Keeps(w.matches[id], r.value)
    ensures
      var effect := MatchEffect(w, id, r, response);
      effect.Ok? && Safe(s, w, effect.value.0) && effect.value.0.receipts == w.receipts
  {
    CommitSafe(s, w, id, r.value);
  }

  lemma EffectFails(w: World, id: MatchId, r: Result<Match>, response: Response)
    requires id in w.matches && r.Err?
    ensures MatchEffect(w, id, r, response) == Err(r.error)
  {
  }

  lemma MatchCommandSafe(s: Setting, w: World, actor: UserId, key: string, command: CommandType, id: MatchId,
                         payload: Payload, r: Result<Match>, response: Response)
    requires WorldInv(s, w) && id in w.matches
    requires actor in w.matches[id].participants && r.Ok? ==> Keeps(w.matches[id], r.value)
    ensures Safe(s, w, MatchCommand(w, actor, key, command, id, payload, r, response).0)
  {
    hide WorldInv, WorldGrows, MatchInv, Evolves, Command, MatchEffect;
    NothingGrows(w);
    if actor in w.matches[id].participants {
      var effect := MatchEffect(w, id, r, response);
      if r.Ok? {
        MatchEffectSafe(s, w, id, r, response);
      } else {
        EffectFails(w, id, r, response);
      }
      CommandSafe(s, w, actor, key, command, Some(id), payload, effect);
    }
  }

  lemma CommitOpen(rooms: RoomTable, matches: Matches, id: MatchId, n: Match)
    requires OpenRoomsOk(rooms, matches) && id in matches && n.mode == matches[id].mode
    requires ChainOk(rooms, PlacesOf(matches))
    requires n.mode == Duel && n.state == Finished ==> matches[id].state == Finished
    ensures OpenRoomsOk(rooms, matches[id := n])
  {
    forall rid | rid in rooms && rooms[rid].active == id
      ensures rooms[rid].mode == n.mode
    {
      ActiveMatch(rooms, matches, rid);
    }
  }
}
