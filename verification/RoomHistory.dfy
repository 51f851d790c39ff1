/** What a room looks like in every reachable state: one linear chain of rounds, live only at its end, whose problems
    rotate through the catalog. */
module RoomHistory {
  import opened Domain
  import opened MatchTypes
  import opened MatchInvariants
  import opened World
  import opened Rooms
  import opened Rotation
  import opened WorldSafety
  import opened WorldSteps
  import opened SafeRuns

  lemma ConsistentRounds(s: Setting, w: World)
    requires WorldInv(s, w)
    ensures RoundsOk(s, w.rooms, w.matches)
  {
  }

  /** The rounds of a room, first to last. */
  ghost function RoundsOf(w: World, rid: RoomId): seq<MatchId>
    requires ChainOk(w.rooms, PlacesOf(w.matches)) && rid in w.rooms
  {
    assert RoomOk(PlacesOf(w.matches), rid, w.rooms[rid]);
    Chain(w.rooms, PlacesOf(w.matches), w.rooms[rid].active)
  }

  predicate PassedOn(m: Match, next: MatchId) {
    m.state == RematchPending && m.votes == m.participants.Keys && m.rematchCreated == Some(next)
  }

  lemma OnChain(w: World, rid: RoomId)
    requires ChainOk(w.rooms, PlacesOf(w.matches)) && rid in w.rooms
    ensures
      var rounds := RoundsOf(w, rid);
      && |rounds| >= 1 && rounds[|rounds| - 1] == w.rooms[rid].active
      && (forall i :: 0 <= i < |rounds| ==>
            rounds[i] in w.matches && w.matches[rounds[i]].roomId == rid && w.matches[rounds[i]].round == i + 1)
      && (forall i :: 0 <= i < |rounds| - 1 ==> w.matches[rounds[i]].rematchCreated == Some(rounds[i + 1]))
  {
    var ps := PlacesOf(w.matches);
    assert RoomOk(ps, rid, w.rooms[rid]) && Linked(w.rooms, ps, w.rooms[rid].active);
    ChainCountsUp(w.rooms, ps, w.rooms[rid].active);
    ChainIsLinear(w.rooms, ps, w.rooms[rid].active);
    var rounds := RoundsOf(w, rid);
    forall i | 0 <= i < |rounds| - 1
      ensures w.matches[rounds[i]].rematchCreated == Some(rounds[i + 1])
    {
      assert FollowedBy(ps, rounds[i], rounds[i + 1]);
    }
  }

  /** Every room is one linear chain numbered 1..k holding exactly its matches; each round but the last was passed on
      by both players' votes, so only the last, the room's active match, can still be live. */
  lemma RoundsFormOneChain(s: Setting, w: World, rid: RoomId)
    requires Reachable(s, w) && rid in w.rooms
    ensures ChainOk(w.rooms, PlacesOf(w.matches))
    ensures
      var rounds := RoundsOf(w, rid);
      && |rounds| >= 1 && rounds[|rounds| - 1] == w.rooms[rid].active
      && (forall i :: 0 <= i < |rounds| ==> rounds[i] in w.matches && w.matches[rounds[i]].round == i + 1)
      && (forall i :: 0 <= i < |rounds| - 1 ==> PassedOn(w.matches[rounds[i]], rounds[i + 1]))
      && (forall x :: x in w.matches ==>
            (w.matches[x].roomId == rid
             <==> 1 <= w.matches[x].round <= |rounds| && rounds[w.matches[x].round - 1] == x))
  {
    hide WorldInv, MatchInv;
    ReachableIsConsistent(s, w);
    ConsistentRounds(s, w);
    OnChain(w, rid);
    var rounds := RoundsOf(w, rid);
    forall i | 0 <= i < |rounds| - 1
      ensures PassedOn(w.matches[rounds[i]], rounds[i + 1])
    {
      MatchHolds(s, w, rounds[i]);
      assert w.matches[rounds[i]].rematchCreated == Some(rounds[i + 1]);
      SucceededIsPassedOn(w.matches[rounds[i]]);
    }
    forall x | x in w.matches && w.matches[x].roomId == rid
      ensures 1 <= w.matches[x].round <= |rounds| && rounds[w.matches[x].round - 1] == x
    {
      ChainIsWholeRoom(w.rooms, PlacesOf(w.matches), rid, x);
    }
  }

  lemma SucceededIsPassedOn(m: Match)
    requires MatchInv(m) && m.rematchCreated.Some?
    ensures PassedOn(m, m.rematchCreated.value) && m.problem.Some?
  {
  }

  // ----- problems along the chain

  predicate ProblemsAlong(w: World, rounds: seq<MatchId>, problems: seq<nat>)
    requires forall i :: 0 <= i < |rounds| ==> rounds[i] in w.matches
  {
    && rounds != [] && |rounds| - 1 <= |problems| <= |rounds|
    && (|problems| == |rounds| <==> w.matches[rounds[|rounds| - 1]].problem.Some?)
    && forall i :: 0 <= i < |problems| ==>
         w.matches[rounds[i]].problem.Some? && problems[i] == w.matches[rounds[i]].problem.value.id
  }

  /** A round's problem, if it has been drawn. */
  function Drawn(m: Match): seq<nat> {
    if m.problem.Some? then [m.problem.value.id] else []
  }

  function Reversed(a: seq<nat>): (r: seq<nat>)
    ensures |r| == |a| && forall i :: 0 <= i < |a| ==> r[i] == a[|a| - 1 - i]
  {
    if a == [] then [] else Reversed(a[1..]) + [a[0]]
  }

  lemma ListedOnChain(w: World, rid: RoomId, rounds: seq<MatchId>, like: Match, i: nat)
    requires UniqueRounds(PlacesOf(w.matches)) && i < |rounds| && rounds[i] in w.matches
    requires w.matches[rounds[i]].roomId == rid && w.matches[rounds[i]].round == i + 1 && like.roomId == rid
    requires w.matches[rounds[i]].challenge == like.challenge && w.matches[rounds[i]].difficulty == like.difficulty
    ensures ListedAt(w.matches, like, i + 1) == (if w.matches[rounds[i]].problem.Some? then Some(rounds[i]) else None)
  {
    var round: nat := i + 1;
    forall x | Listed(w.matches, like, round, x)
      ensures x == rounds[i]
    {
      SoleRound(w.matches, rounds[i], x);
    }
    if w.matches[rounds[i]].problem.Some? {
      assert Listed(w.matches, like, i + 1, rounds[i]);
    }
  }

  predicate ChainRows(w: World, rid: RoomId, rounds: seq<MatchId>, like: Match) {
    like.roomId == rid
    && forall i :: 0 <= i < |rounds| ==>
         && rounds[i] in w.matches && w.matches[rounds[i]].roomId == rid && w.matches[rounds[i]].round == i + 1
         && w.matches[rounds[i]].challenge == like.challenge && w.matches[rounds[i]].difficulty == like.difficulty
         && (i < |rounds| - 1 ==> w.matches[rounds[i]].problem.Some?)
  }

  lemma ReversedCons(x: nat, a: seq<nat>)
    ensures Reversed([x] + a) == Reversed(a) + [x] && Reversed([] + a) == Reversed(a)
  {
    assert ([x] + a)[1..] == a && [] + a == a;
  }

  /** The problems drawn along a chain, one round more. */
  lemma AlongNext(w: World, rounds: seq<MatchId>, problems: seq<nat>)
    requires rounds != [] && forall i :: 0 <= i < |rounds| ==> rounds[i] in w.matches
    requires if |rounds| == 1 then problems == [] else
               ProblemsAlong(w, rounds[..|rounds| - 1], problems) && w.matches[rounds[|rounds| - 2]].problem.Some?
    ensures ProblemsAlong(w, rounds, problems + Drawn(w.matches[rounds[|rounds| - 1]]))
  {
    var shorter := rounds[..|rounds| - 1];
    assert forall i :: 0 <= i < |shorter| ==> shorter[i] == rounds[i];
    assert |problems| == |shorter|;
  }

  lemma AlongOneMore(w: World, rounds: seq<MatchId>, before: seq<nat>)
    requires rounds != [] && forall i :: 0 <= i < |rounds| ==> rounds[i] in w.matches
    requires if |rounds| == 1 then before == [] else
               ProblemsAlong(w, rounds[..|rounds| - 1], Reversed(before))
                 && w.matches[rounds[|rounds| - 2]].problem.Some?
    ensures ProblemsAlong(w, rounds, Reversed(Drawn(w.matches[rounds[|rounds| - 1]]) + before))
  {
    var m := w.matches[rounds[|rounds| - 1]];
    ReversedCons(if m.problem.Some? then m.problem.value.id else 0, before);
    assert Reversed(Drawn(m) + before) == Reversed(before) + Drawn(m);
    hide Reversed, ProblemsAlong, Drawn;
    AlongNext(w, rounds, Reversed(before));
  }

  /** The problem query walks the chain backwards. */
  lemma {:induction false} HistoryWalksChain(w: World, rid: RoomId, rounds: seq<MatchId>, like: Match, k: nat)
    requires UniqueRounds(PlacesOf(w.matches)) && ChainRows(w, rid, rounds, like) && k <= |rounds|
    ensures k > 0 ==> ProblemsAlong(w, rounds[..k], Reversed(ProblemsBelow(w.matches, like, k + 1)))
    ensures k == 0 ==> ProblemsBelow(w.matches, like, k + 1) == []
  {
    hide ProblemsAlong, UniqueRounds, Reversed;
    if k > 0 {
      HistoryWalksChain(w, rid, rounds, like, k - 1);
      ListedOnChain(w, rid, rounds, like, k - 1);
      var before := ProblemsBelow(w.matches, like, k);
      assert ProblemsBelow(w.matches, like, k + 1) == Drawn(w.matches[rounds[k - 1]]) + before;
      assert rounds[..k][..k - 1] == rounds[..k - 1];
      AlongOneMore(w, rounds[..k], before);
    }
  }

  lemma RowsOnChain(s: Setting, w: World, rid: RoomId)
    requires WorldInv(s, w) && rid in w.rooms
    ensures ChainOk(w.rooms, PlacesOf(w.matches))
    ensures w.rooms[rid].active in w.matches && ChainRows(w, rid, RoundsOf(w, rid), w.matches[w.rooms[rid].active])
  {
    hide WorldInv, MatchInv;
    ConsistentRounds(s, w);
    OnChain(w, rid);
    ActiveMatch(w.rooms, w.matches, rid);
    var rounds := RoundsOf(w, rid);
    forall i | 0 <= i < |rounds|
      ensures w.matches[rounds[i]].challenge == w.rooms[rid].challenge
      ensures w.matches[rounds[i]].difficulty == w.rooms[rid].difficulty
      ensures i < |rounds| - 1 ==> w.matches[rounds[i]].problem.Some?
    {
      assert Linked(w.rooms, PlacesOf(w.matches), rounds[i]);
      MatchHolds(s, w, rounds[i]);
      if i < |rounds| - 1 {
        SucceededIsPassedOn(w.matches[rounds[i]]);
      }
    }
  }

  /** With n problems in the catalog for a room, its first n started rounds all use different problems, and with at
      least two no two consecutive rounds repeat one. */
  lemma ProblemsRotate(s: Setting, w: World, rid: RoomId) returns (problems: seq<nat>)
    requires Reachable(s, w) && rid in w.rooms
    ensures ChainOk(w.rooms, PlacesOf(w.matches))
    ensures forall i :: 0 <= i < |RoundsOf(w, rid)| ==> RoundsOf(w, rid)[i] in w.matches
    ensures ProblemsAlong(w, RoundsOf(w, rid), problems)
    ensures
      var n := |Problems(s, w.rooms[rid].challenge, w.rooms[rid].difficulty)|;
      && (forall i, j :: 0 <= i < j < |problems| && j < n ==> problems[i] != problems[j])
      && (n >= 2 ==> forall i :: 0 <= i < |problems| - 1 ==> problems[i] != problems[i + 1])
  {
    hide WorldInv, MatchInv;
    ReachableIsConsistent(s, w);
    ConsistentRounds(s, w);
    RowsOnChain(s, w, rid);
    OnChain(w, rid);
    ActiveMatch(w.rooms, w.matches, rid);
    var rounds, m := RoundsOf(w, rid), w.matches[w.rooms[rid].active];
    HistoryWalksChain(w, rid, rounds, m, |rounds|);
    assert rounds[..|rounds|] == rounds;
    var history := History(w.matches, m);
    problems := Reversed(history);
    assert RotatedFor(s, w.matches, m);
    RotatedReversed(history, |Problems(s, m.challenge, m.difficulty)|);
  }

  lemma RotatedReversed(used: seq<nat>, n: nat)
    requires Rotated(used, n)
    ensures
      var problems := Reversed(used);
      && (forall i, j :: 0 <= i < j < |problems| && j < n ==> problems[i] != problems[j])
      && (n >= 2 ==> forall i :: 0 <= i < |problems| - 1 ==> problems[i] != problems[i + 1])
  {
    var problems := Reversed(used);
    forall i | 0 <= i < |problems| - 1 && n >= 2
      ensures problems[i] != problems[i + 1]
    {
      var k := |used| - 2 - i;
      assert used[k] != used[k + 1];
    }
  }
}
