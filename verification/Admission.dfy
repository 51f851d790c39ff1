/** Commands over the columns: exactly when each one is applied under a fresh key, and what it writes. */
module Admission {
  import opened Domain
  import opened MatchTypes
  import opened MatchRules
  import opened ArenaRules
  import opened MatchInvariants
  import opened MatchSafety
  import opened World
  import opened Rooms
  import opened Rotation
  import opened WorldSafety
  import opened WorldSteps
  import opened SafeRuns
  import opened StepEffects
  import opened Submissions
  import opened Columns
  import AnswerText
  import Winners

  /** A key of 1 to 200 characters the actor has not used. */
  predicate NewKey(w: World, actor: UserId, key: string) {
    1 <= |key| <= 200 && CommandKey(actor, key) !in w.receipts
  }

  /** Reserved under a new key, a rule is applied exactly when it succeeds, and its match is then the only row to
      change. */
  lemma RuleApplied(w: World, actor: UserId, key: string, command: CommandType, id: MatchId, payload: Payload,
                    r: Result<Match>, response: Response)
    requires id in w.matches && NewKey(w, actor, key)
    ensures
      var (after, reply) := MatchCommand(w, actor, key, command, id, payload, r, response);
      && (reply.Applied? <==> actor in w.matches[id].participants && r.Ok?)
      && (reply.Applied? ==> after.matches == w.matches[id := r.value] && after.rooms == w.rooms
                             && reply == Applied(response))
      && (!reply.Applied? ==> after == w)
  {
  }

  // ----- the lobby

  /** A player may choose a language, again and again, in the lobby of a coding match; they are no longer ready then. */
  lemma LanguageAppliedExactlyWhen(s: Setting, w: World, actor: UserId, key: string, id: MatchId, language: Language,
                                   now: Time)
    requires id in w.matches && NewKey(w, actor, key)
    ensures
      var (after, reply) := Exec(s, w, ChooseLanguage(actor, key, id, language, now));
      var m := w.matches[id];
      && (reply.Applied? <==> actor in m.participants && m.state == Lobby && m.challenge == Coding)
      && (reply.Applied? ==>
            && id in after.matches
            && after.matches[id].participants ==
               m.participants[actor := m.participants[actor].(language := Some(language), ready := false)]
            && after.matches[id].state == Lobby && after.matches[id].problem == m.problem)
  {
    hide MatchCommand, EventTime;
    var m := w.matches[id];
    RuleApplied(w, actor, key, SetLanguageCommand, id, LanguageChoice(language), SetLanguage(m, actor, language, now),
                Done);
  }

  /** Both seats taken - or the one, in practice - and everyone on them ready to play. */
  predicate AllSet(mode: Mode, challenge: Challenge, participants: Participants) {
    && |participants| == (if mode == Duel then 2 else 1)
    && forall u :: u in participants ==>
         participants[u].ready && (challenge == Coding ==> participants[u].language.Some?)
  }

  predicate Here(participants: Participants, live: set<UserId>, u: UserId)
    requires u in participants
  {
    participants[u].connected && u in live
  }

  predicate MayReady(m: Match, user: UserId, ready: bool, live: set<UserId>) {
    && user in m.participants && m.state == Lobby
    && (ready ==>
          (m.challenge == Coding ==> m.participants[user].language.Some?) && Here(m.participants, live, user))
  }

  lemma ReadyRuleExactly(c: Config, m: Match, user: UserId, ready: bool, live: set<UserId>, all: seq<Problem>,
                         previous: seq<nat>, pick: nat, now: Time)
    requires user in m.participants
    ensures
      var r := SetReady(c, m, user, ready, live, all, previous, pick, now);
      var players := m.participants[user := m.participants[user].(ready := ready)];
      && (r.Ok? <==>
            && MayReady(m, user, ready, live)
            && (AllSet(m.mode, m.challenge, players) ==>
                  (forall u :: u in players ==> Here(players, live, u)) && ChooseProblem(all, previous, pick).Ok?))
      && (r.Ok? ==>
            && r.value.participants == players
            && if AllSet(m.mode, m.challenge, players) then
                 && r.value.state == Countdown && r.value.startsAt == Some(now + c.countdown)
                 && Some(r.value.problem) == Some(Some(ChooseProblem(all, previous, pick).value))
                 && r.value.answerDeadline
                    == if m.challenge == AiMl then Some(now + c.countdown + c.answerDuration) else None
               else r.value.state == Lobby && r.value.problem == m.problem && r.value.startsAt == m.startsAt)
  {
    hide ChooseProblem, EventTime;
    var players := m.participants[user := m.participants[user].(ready := ready)];
    var changed := AppendEvent(m.(participants := players), ReadyChanged, now);
    SeatUpdate(m.participants, user, m.participants[user].(ready := ready));
    assert EveryoneReady(changed) <==> AllSet(m.mode, m.challenge, players);
  }

  /** Readying up is applied for a player of a lobby who could play at once; when that makes everyone ready, only if
      everyone is there and a problem is left to draw - and then the countdown starts with it. */
  lemma ReadyAppliedExactlyWhen(s: Setting, w: World, actor: UserId, key: string, id: MatchId, ready: bool,
                                live: set<UserId>, pick: nat, now: Time)
    requires id in w.matches && NewKey(w, actor, key)
    ensures
      var (after, reply) := Exec(s, w, Ready(actor, key, id, ready, live, pick, now));
      var m := w.matches[id];
      if actor !in m.participants then !reply.Applied?
      else
        var players := m.participants[actor := m.participants[actor].(ready := ready)];
        var drawn := ChooseProblem(Problems(s, m.challenge, m.difficulty), ProblemsBelow(w.matches, m, m.round), pick);
        && (reply.Applied? <==>
              && MayReady(m, actor, ready, live)
              && (AllSet(m.mode, m.challenge, players) ==>
                    (forall u :: u in players ==> Here(players, live, u)) && drawn.Ok?))
        && (reply.Applied? ==>
              && id in after.matches && after.matches[id].participants == players
              && if AllSet(m.mode, m.challenge, players) then
                   && after.matches[id].state == Countdown && after.matches[id].problem == Some(drawn.value)
                   && after.matches[id].startsAt == Some(now + s.config.countdown)
                 else after.matches[id].state == Lobby && after.matches[id].startsAt == m.startsAt)
  {
    hide MatchCommand, ChooseProblem, ProblemsBelow, Problems, SetReady, AllSet, MayReady, Here;
    var m := w.matches[id];
    RuleApplied(w, actor, key, SetReadyCommand, id, ReadyChoice(ready),
                ReadyRule(s, w, id, actor, ready, live, pick, now), Done);
    if actor in m.participants {
      ReadyRuleExactly(s.config, m, actor, ready, live, Problems(s, m.challenge, m.difficulty),
                       ProblemsBelow(w.matches, m, m.round), pick, now);
    }
  }

  /** Only the host - seat 1 - may cancel, and only a lobby; the match ends without a winner and its room closes. */
  lemma CancelAppliedExactlyWhen(s: Setting, w: World, actor: UserId, key: string, id: MatchId, now: Time)
    requires id in w.matches && NewKey(w, actor, key)
    ensures
      var (after, reply) := Exec(s, w, Cancel(actor, key, id, now));
      var m := w.matches[id];
      && (reply.Applied? <==> actor in m.participants && m.participants[actor].slot == 1 && m.state == Lobby)
      && (reply.Applied? ==>
            && id in after.matches && after.matches[id].state == Finished
            && after.matches[id].endReason == Some(Cancelled) && after.matches[id].finishedAt == Some(now)
            && after.matches[id].winner == m.winner && after.matches[id].participants.Keys == m.participants.Keys
            && (forall u :: u in m.participants ==>
                  after.matches[id].participants[u] == m.participants[u].(outcome := Some(OutCancelled)))
            && (m.roomId in w.rooms ==>
                  after.rooms == w.rooms[m.roomId := w.rooms[m.roomId].(closed := true)]))
  {
    hide EventTime, Recorded;
  }

  // ----- rooms

  lemma UnusedId(s: Setting, w: World)
    requires WorldInv(s, w)
    ensures w.nextId !in w.matches && w.nextId !in w.rooms && w.nextId + 1 !in w.matches
  {
    ConsistentIds(s, w);
    hide WorldInv;
  }

  /** Whoever has a profile may open a room: the host in seat 1 of a first round in its lobby. */
  lemma RoomCreatedExactlyWhen(s: Setting, w: World, actor: UserId, key: string, difficulty: Difficulty, mode: Mode,
                    challenge: Challenge, now: Time)
    requires Reachable(s, w) && NewKey(w, actor, key)
    ensures
      var (after, reply) := Exec(s, w, CreateRoom(actor, key, difficulty, mode, challenge, now));
      && (reply.Applied? <==> actor in w.profiles)
      && (reply.Applied? ==>
            var rid, id := w.nextId, w.nextId + 1;
            && reply == Applied(RoomResponse(rid, id))
            && after.rooms == w.rooms[rid := Room(actor, difficulty, mode, challenge, id, false, map[actor := 1])]
            && after.matches.Keys == w.matches.Keys + {id}
            && after.matches[id].roomId == rid && after.matches[id].round == 1 && after.matches[id].state == Lobby
            && after.matches[id].mode == mode && after.matches[id].challenge == challenge
            && after.matches[id].difficulty == difficulty && after.matches[id].participants.Keys == {actor}
            && after.matches[id].participants[actor].slot == 1 && !after.matches[id].participants[actor].connected)
  {
    hide WorldInv, OpenRoom;
    ReachableIsConsistent(s, w);
    UnusedId(s, w);
    RoomOpened(w, actor, difficulty, mode, challenge, now);
  }

  lemma RoomOpened(w: World, actor: UserId, difficulty: Difficulty, mode: Mode, challenge: Challenge, now: Time)
    requires w.nextId + 1 !in w.matches
    ensures
      var (after, response) := OpenRoom(w, actor, difficulty, mode, challenge, now);
      var rid, id := w.nextId, w.nextId + 1;
      && response == RoomResponse(rid, id)
      && after.rooms == w.rooms[rid := Room(actor, difficulty, mode, challenge, id, false, map[actor := 1])]
      && after.matches.Keys == w.matches.Keys + {id}
      && after.matches[id].roomId == rid && after.matches[id].round == 1 && after.matches[id].state == Lobby
      && after.matches[id].mode == mode && after.matches[id].challenge == challenge
      && after.matches[id].difficulty == difficulty && after.matches[id].participants.Keys == {actor}
      && after.matches[id].participants[actor].slot == 1 && !after.matches[id].participants[actor].connected
  {
    hide EventTime;
  }

  /** A stranger gets the second seat of an open duel room exactly when it is free. */
  lemma SeatTakenExactlyWhen(s: Setting, w: World, actor: UserId, key: string, room: RoomId, now: Time)
    requires Reachable(s, w) && NewKey(w, actor, key) && room in w.rooms && actor !in w.rooms[room].members
    ensures
      var (after, reply) := Exec(s, w, JoinRoom(actor, key, room, now));
      var r := w.rooms[room];
      && r.active in w.matches
      && (reply.Applied? <==> actor in w.profiles && r.mode == Duel && !r.closed && |r.members| == 1)
      && (reply.Applied? ==>
            && after.rooms == w.rooms[room := r.(members := r.members[actor := 2])]
            && r.active in after.matches
            && after.matches[r.active].participants == w.matches[r.active].participants[actor := NewParticipant(2)]
            && after.matches[r.active].state == Lobby)
  {
    hide WorldInv, EventTime, MatchInv;
    ReachableIsConsistent(s, w);
    SeatsOfRoom(s, w, room);
    var r := w.rooms[room];
    if r.mode == Duel && !r.closed && |r.members| == 1 {
      FreeSeat(s, w, room);
    }
  }

  lemma SeatsOfRoom(s: Setting, w: World, room: RoomId)
    requires WorldInv(s, w) && room in w.rooms
    ensures
      var r := w.rooms[room];
      && r.active in w.matches && r.host in r.members
      && (|r.members| == 1 <==> forall u :: u in r.members ==> r.members[u] != 2)
  {
    RoomSeats(s, w, room);
    ActiveInRoom(s, w, room);
    LoneSeat(w.rooms[room]);
  }

  lemma ActiveInRoom(s: Setting, w: World, room: RoomId)
    requires WorldInv(s, w) && room in w.rooms
    ensures w.rooms[room].active in w.matches
  {
    assert RoomOk(PlacesOf(w.matches), room, w.rooms[room]);
  }

  lemma LoneSeat(r: Room)
    requires SeatsOk(r)
    ensures |r.members| == 1 <==> forall u :: u in r.members ==> r.members[u] != 2
  {
    if |r.members| == 1 {
      OneElement({r.host}, r.members.Keys);
      assert forall u :: u in r.members ==> u in {r.host};
    }
    if forall u :: u in r.members ==> r.members[u] != 2 {
      OnlyHost(r);
    }
  }

  lemma OnlyHost(r: Room)
    requires SeatsOk(r) && forall u :: u in r.members ==> r.members[u] != 2
    ensures |r.members| == 1
  {
    assert r.members.Keys == {r.host};
    assert |r.members.Keys| == 1;
  }

  // ----- playing

  /** A run or submission is taken exactly from a player who may start one, with a source within the limit. */
  lemma StartAppliedExactlyWhen(s: Setting, w: World, actor: UserId, key: string, id: MatchId, kind: Kind,
                                source: string, receivedAt: Time, sequence: int, now: Time)
    requires id in w.matches && NewKey(w, actor, key)
    ensures
      var (after, reply) := Exec(s, w, Start(actor, key, id, kind, source, receivedAt, sequence, now));
      var m := w.matches[id];
      && (reply.Applied? <==>
            && AnswerText.Utf8Length(source) <= s.config.maxSourceBytes && m.challenge == Coding
            && MayStart(s.config, m, actor, w.nextId, kind, receivedAt, sequence, now))
      && (reply.Applied? ==>
            && reply == Applied(ExecutionResponse(w.nextId)) && id in after.matches
            && after.matches[id].state == Active
            && after.matches[id].executions ==
               m.executions[w.nextId := Execution(actor, kind, receivedAt, sequence, Queued)])
  {
    hide StartExecution, MayStart, AnswerText.Utf8Length;
    var m := w.matches[id];
    StartsExactlyWhen(s.config, m, actor, w.nextId, kind, receivedAt, sequence, now);
    MayStartIsSeated(s.config, m, actor, w.nextId, kind, receivedAt, sequence, now);
  }

  lemma MayStartIsSeated(c: Config, m: Match, user: UserId, id: ExecutionId, kind: Kind, receivedAt: Time,
                         sequence: int, now: Time)
    ensures MayStart(c, m, user, id, kind, receivedAt, sequence, now) ==> user in m.participants
  {
  }

  /** A player leaves an active match exactly when nothing they submitted is still being judged; a duel then goes to
      the other player, a practice round to nobody. */
  lemma LeaveAppliedExactlyWhen(s: Setting, w: World, actor: UserId, key: string, id: MatchId, now: Time)
    requires Reachable(s, w) && id in w.matches && NewKey(w, actor, key)
    ensures
      var (after, reply) := Exec(s, w, Leave(actor, key, id, now));
      var m := w.matches[id];
      && (reply.Applied? <==>
            && actor in m.participants && m.state == Active
            && forall x :: x in m.executions && m.executions[x].user == actor && m.executions[x].kind == Submit ==>
                 m.executions[x].status.Completed?)
      && (reply.Applied? ==>
            && id in after.matches && Terminal(after.matches[id].state) && after.matches[id].finishedAt == Some(now)
            && if m.mode == Duel then
                 && after.matches[id].endReason == Some(Forfeit) && after.matches[id].winner.Some?
                 && m.participants.Keys == {actor, after.matches[id].winner.value}
                 && after.matches[id].winner.value != actor
               else after.matches[id].endReason == Some(Cancelled) && after.matches[id].winner.None?)
  {
    hide WorldInv, MatchInv, MatchCommand, ForfeitMatch, Opponent, SubmitPending;
    ReachableIsConsistent(s, w);
    MatchHolds(s, w, id);
    var m := w.matches[id];
    RuleApplied(w, actor, key, ForfeitCommand, id, Payload.Empty, ForfeitMatch(s.config, m, actor, now), Done);
    if actor in m.participants {
      Winners.ForfeitSucceedsExactlyWhen(s.config, m, actor, now);
      PendingMeans(m, actor);
      if ForfeitMatch(s.config, m, actor, now).Ok? {
        ForfeitKeeps(s.config, m, actor, now);
        ActiveIsFull(m);
        OpponentIsTheOther(m.participants.Keys, actor);
        LeavingTime(s.config, m, actor, now);
      }
    }
  }

  lemma PendingMeans(m: Match, user: UserId)
    ensures !SubmitPending(m, {user})
            <==> forall x :: x in m.executions && m.executions[x].user == user && m.executions[x].kind == Submit ==>
                   m.executions[x].status.Completed?
  {
  }

  lemma LeavingTime(c: Config, m: Match, user: UserId, now: Time)
    requires ForfeitMatch(c, m, user, now).Ok? && m.state == Active
    ensures ForfeitMatch(c, m, user, now).value.finishedAt == Some(now)
    ensures m.mode == Duel ==> (Opponent(m.participants.Keys, user).Some? ==>
              Opponent(m.participants.Keys, user).value != user)
  {
    hide WithOutcomes, SubmitPending, EventTime;
  }

  // ----- rematch

  /** A vote is taken from a player of an ended duel until the window closes; the second of the two opens the next
      round, with the same members on the same seats and nothing else carried over. */
  lemma VoteAppliedExactlyWhen(s: Setting, w: World, actor: UserId, key: string, id: MatchId, now: Time)
    requires Reachable(s, w) && id in w.matches && NewKey(w, actor, key) && w.matches[id].rematchCreated.None?
    ensures
      var (after, reply) := Exec(s, w, Rematch(actor, key, id, now));
      var m := w.matches[id];
      && (reply.Applied? <==>
            && actor in m.participants && m.state == RematchPending
            && m.rematchDeadline.Some? && now < m.rematchDeadline.value)
      && (reply.Applied? ==>
            && id in after.matches && after.matches[id].votes == m.votes + {actor}
            && after.matches[id].state == RematchPending
            && if m.votes + {actor} == m.participants.Keys then
                 && after.matches[id].rematchCreated == Some(w.nextId) && w.nextId in after.matches
                 && m.roomId in after.rooms && after.rooms[m.roomId].active == w.nextId
                 && Successor(m, id, after.matches[w.nextId], w.rooms[m.roomId].members)
               else after.matches[id].rematchCreated.None? && after.rooms == w.rooms)
  {
    hide WorldInv, MatchInv, RematchEffect, Vote, Successor;
    ReachableIsConsistent(s, w);
    MatchHolds(s, w, id);
    var m := w.matches[id];
    VotesOfMatch(m, actor);
    if m.state == RematchPending && m.rematchDeadline.Some? && now < m.rematchDeadline.value {
      RematchPendingOk(s, w, id);
      UnusedId(s, w);
      VoteEffect(w, actor, id, now);
    } else {
      VoteRefused(w, actor, id, now);
    }
  }

  lemma VoteRefused(w: World, actor: UserId, id: MatchId, now: Time)
    requires id in w.matches && w.matches[id].rematchCreated.None?
    requires
      var m := w.matches[id];
      m.state != RematchPending || m.rematchDeadline.None? || m.rematchDeadline.value <= now
    ensures RematchEffect(w, actor, id, now).Err?
  {
  }

  lemma VoteEffect(w: World, actor: UserId, id: MatchId, now: Time)
    requires id in w.matches && w.nextId !in w.matches
    requires
      var m := w.matches[id];
      && m.state == RematchPending && m.rematchDeadline.Some? && now < m.rematchDeadline.value
      && m.rematchCreated.None? && m.roomId in w.rooms
      && forall other :: other in w.matches ==> !AtRound(w, m.roomId, m.round + 1, other)
    ensures
      var m, r := w.matches[id], RematchEffect(w, actor, id, now);
      && r.Ok?
      && var after := r.value.0;
      && id in after.matches && after.matches[id].votes == m.votes + {actor}
      && after.matches[id].state == RematchPending
      && if |m.votes + {actor}| == 2 then
           && after.matches[id].rematchCreated == Some(w.nextId) && w.nextId in after.matches
           && m.roomId in after.rooms && after.rooms[m.roomId].active == w.nextId
           && Successor(m, id, after.matches[w.nextId], w.rooms[m.roomId].members)
         else after.matches[id].rematchCreated.None? && after.rooms == w.rooms
  {
    hide Recorded, Vote, LinkedTo, NextRound, Successor;
    var m := w.matches[id];
    VoteColumns(m, actor, now);
    var voted := Vote(m, actor, now);
    LinkColumns(voted, w.nextId, now);
    NextRoundIsSuccessor(w.rooms[m.roomId], id, m, voted, now);
  }

  lemma LinkColumns(m: Match, next: MatchId, now: Time)
    ensures
      var n := LinkedTo(m, next, now);
      n == m.(rematchCreated := Some(next), version := n.version, events := n.events)
  {
    hide EventTime;
  }

  lemma NextRoundIsSuccessor(room: Room, id: MatchId, m: Match, voted: Match, now: Time)
    requires voted == m.(votes := voted.votes, version := voted.version, events := voted.events)
    ensures Successor(m, id, NextRound(room, id, voted, now), room.members)
  {
    hide EventTime;
  }

  lemma VoteColumns(m: Match, user: UserId, now: Time)
    ensures
      var n := Vote(m, user, now);
      n == m.(votes := m.votes + {user}, version := n.version, events := n.events)
  {
    hide EventTime;
    if user in m.votes {
      assert m.votes + {user} == m.votes;
    }
  }

  /** The next round of a room. */
  predicate Successor(m: Match, id: MatchId, n: Match, members: map<UserId, nat>) {
    && n.roomId == m.roomId && n.round == m.round + 1 && n.previous == Some(id) && n.state == Lobby
    && n.challenge == m.challenge && n.mode == m.mode && n.difficulty == m.difficulty
    && n.problem.None? && n.executions == map[] && n.answers == map[] && n.votes == {} && n.evaluation.None?
    && n.participants.Keys == members.Keys
    && forall u :: u in members ==>
         && n.participants[u].slot == members[u] && n.participants[u].language.None? && !n.participants[u].ready
         && !n.participants[u].connected
  }

  lemma VotesOfMatch(m: Match, actor: UserId)
    requires MatchInv(m)
    ensures m.votes <= m.participants.Keys
    ensures (m.state == RematchPending ==> m.mode == Duel && |m.participants.Keys| == 2)
    ensures m.state == RematchPending && actor in m.participants ==>
              (|m.votes + {actor}| == 2 <==> m.votes + {actor} == m.participants.Keys)
  {
    hide EventsOk, ExecutionsOk, InflightOk, WinnerOk, RecordsOk, EvaluationOk, DecidedOk, AnswersOk;
    if m.state == RematchPending && actor in m.participants && |m.votes + {actor}| == 2 {
      BothVoted(m.participants.Keys, m.votes + {actor});
    }
  }
}
