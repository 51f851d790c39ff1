/** Problem rotation along a room's rounds: no repeat until the catalog is exhausted, and never twice in a row. */
module Rotation {
  import opened Domain
  import opened MatchTypes
  import opened MatchRules
  import opened World
  import opened Rooms

  /** `used` lists problem ids, latest first; `n` is the size of the catalog. */
  predicate Rotated(used: seq<nat>, n: nat) {
    && (forall i, j :: 0 <= i < j < |used| && |used| - n <= i ==> used[i] != used[j])
    && (n >= 2 ==> forall i :: 0 <= i < |used| - 1 ==> used[i] != used[i + 1])
  }

  predicate DistinctProblems(all: seq<Problem>) {
    forall i, j :: 0 <= i < j < |all| ==> all[i].id != all[j].id
  }

  function ProblemIds(all: seq<Problem>): set<nat> {
    set p | p in all :: p.id
  }

  lemma {:induction false} FreshAreUnused(all: seq<Problem>, used: seq<nat>)
    ensures forall p :: p in FreshProblems(all, used) <==> p in all && p.id !in used
  {
    if all != [] {
      FreshAreUnused(all[1..], used);
      assert forall p :: p in all <==> p == all[0] || p in all[1..];
    }
  }

  lemma {:induction false} DistinctCount(all: seq<Problem>)
    requires DistinctProblems(all)
    ensures |ProblemIds(all)| == |all|
  {
    if all != [] {
      var front, last := all[..|all| - 1], all[|all| - 1];
      DistinctCount(front);
      assert all == front + [last];
      assert ProblemIds(all) == ProblemIds(front) + {last.id};
    }
  }

  function UsedSet(used: seq<nat>): set<nat> {
    set x | x in used
  }

  lemma {:induction false} UsedCount(used: seq<nat>)
    ensures |UsedSet(used)| <= |used|
  {
    if used != [] {
      UsedCount(used[1..]);
      var rest := UsedSet(used[1..]);
      assert UsedSet(used) == rest + {used[0]};
      assert |rest + {used[0]}| <= |rest| + 1;
    }
  }

  lemma SubsetCount(a: set<nat>, b: set<nat>)
    requires a <= b
    ensures |a| <= |b|
  {
    assert |b - a| == |b| - |a|;
  }

  lemma ExhaustedCatalog(all: seq<Problem>, used: seq<nat>)
    requires FreshProblems(all, used) == []
    ensures ProblemIds(all) <= UsedSet(used)
  {
    FreshAreUnused(all, used);
    forall p | p in all
      ensures p.id in used
    {
      assert p !in FreshProblems(all, used);
    }
  }

  /** While fewer rounds were played than the catalog holds, an unused problem is left. */
  lemma FreshRemains(all: seq<Problem>, used: seq<nat>)
    requires DistinctProblems(all) && |used| < |all|
    ensures FreshProblems(all, used) != []
  {
    if FreshProblems(all, used) == [] {
      ExhaustedCatalog(all, used);
      SubsetCount(ProblemIds(all), UsedSet(used));
      DistinctCount(all);
      UsedCount(used);
    }
  }

  lemma ChoiceKeepsRotation(all: seq<Problem>, used: seq<nat>, pick: nat)
    requires DistinctProblems(all) && Rotated(used, |all|)
    requires ChooseProblem(all, used, pick).Ok?
    ensures Rotated([ChooseProblem(all, used, pick).value.id] + used, |all|)
  {
    var chosen := ChooseProblem(all, used, pick).value;
    var next := [chosen.id] + used;
    FreshAreUnused(all, used);
    if FreshProblems(all, used) != [] {
      assert chosen in FreshProblems(all, used);
    } else {
      if |used| < |all| {
        FreshRemains(all, used);
      }
      if |all| >= 2 {
        FreshRemains(all, [used[0]]);
        FreshAreUnused(all, [used[0]]);
        assert chosen in FreshProblems(all, [used[0]]);
        assert chosen.id !in [used[0]];
        assert chosen.id != used[0];
      }
    }
    assert forall i :: 0 < i < |next| ==> next[i] == used[i - 1];
  }

  /** What a round may draw: an unused problem while there is one, then anything but the latest, then anything. */
  predicate Drawable(all: seq<Problem>, previous: seq<nat>, p: Problem) {
    && p in all
    && ((exists q :: q in all && q.id !in previous) ==> p.id !in previous)
    && (previous != [] && (forall q :: q in all ==> q.id in previous)
        && (exists q :: q in all && q.id != previous[0]) ==>
          p.id != previous[0])
  }

  /** The draws are exactly the drawable problems, one for each index in range. */
  lemma DrawsExactly(all: seq<Problem>, previous: seq<nat>, p: Problem)
    ensures (exists pick :: ChooseProblem(all, previous, pick) == Ok(p)) <==> Drawable(all, previous, p)
    ensures (forall pick :: ChooseProblem(all, previous, pick).Err?) <==> all == []
  {
    FreshAreUnused(all, previous);
    if previous != [] {
      FreshAreUnused(all, [previous[0]]);
    }
    var candidates := Candidates(all, previous);
    hide FreshProblems;
    assert forall q :: q in FreshProblems(all, previous) ==> FreshProblems(all, previous) != [];
    if all != [] {
      CandidatesExactly(all, previous, p);
      if p in candidates {
        var pick :| 0 <= pick < |candidates| && candidates[pick] == p;
        assert ChooseProblem(all, previous, pick) == Ok(p);
      }
      assert ChooseProblem(all, previous, 0) == Ok(candidates[0]);
    }
  }

  lemma SomeFresh(all: seq<Problem>, used: seq<nat>)
    ensures FreshProblems(all, used) != [] <==> exists q :: q in all && q.id !in used
  {
    FreshAreUnused(all, used);
    var left := FreshProblems(all, used);
    hide FreshProblems;
    if left != [] {
      assert left[0] in left;
    }
  }

  lemma CandidatesExactly(all: seq<Problem>, previous: seq<nat>, p: Problem)
    requires all != []
    ensures Candidates(all, previous) != [] && (p in Candidates(all, previous) <==> Drawable(all, previous, p))
  {
    hide FreshProblems;
    SomeFresh(all, previous);
    FreshAreUnused(all, previous);
    if FreshProblems(all, previous) != [] {
      var q :| q in all && q.id !in previous;
    } else if previous != [] {
      SomeFresh(all, [previous[0]]);
      FreshAreUnused(all, [previous[0]]);
      LatestOnly(all, previous[0]);
    }
  }

  lemma LatestOnly(all: seq<Problem>, latest: nat)
    ensures forall q :: q in all ==> (q.id in [latest] <==> q.id == latest)
  {
  }

  // ----- the history of a room

  predicate SameListing(m: Match, n: Match) {
    && n.roomId == m.roomId && n.round == m.round && n.challenge == m.challenge && n.difficulty == m.difficulty
  }

  ghost predicate AgreeBelow(matches: Matches, after: Matches, like: Match, round: nat) {
    forall id, r: nat :: r < round ==>
      (Listed(matches, like, r, id) <==> Listed(after, like, r, id))
      && (Listed(matches, like, r, id) ==> after[id].problem == matches[id].problem)
  }

  ghost predicate OneListed(matches: Matches, like: Match) {
    forall a, b, r: nat :: Listed(matches, like, r, a) && Listed(matches, like, r, b) ==> a == b
  }

  lemma UniqueRoundsListOnce(matches: Matches, like: Match)
    requires UniqueRounds(PlacesOf(matches))
    ensures OneListed(matches, like)
  {
    forall a, b, r: nat | Listed(matches, like, r, a) && Listed(matches, like, r, b)
      ensures a == b
    {
      var ps := PlacesOf(matches);
      assert a in ps && b in ps && ps[a].roomId == ps[b].roomId && ps[a].round == ps[b].round;
    }
  }

  lemma {:induction false} HistoryUnchanged(matches: Matches, after: Matches, like: Match, round: nat)
    requires OneListed(matches, like) && AgreeBelow(matches, after, like, round)
    ensures ProblemsBelow(after, like, round) == ProblemsBelow(matches, like, round)
    decreases round
  {
    if round > 1 {
      HistoryUnchanged(matches, after, like, round - 1);
      var before, now := ListedAt(matches, like, round - 1), ListedAt(after, like, round - 1);
      if before.Some? {
        assert Listed(after, like, round - 1, before.value);
      }
      if now.Some? {
        assert Listed(matches, like, round - 1, now.value);
      }
      assert before == now;
    }
  }

  lemma {:induction false} HistoryLike(matches: Matches, like: Match, other: Match, round: nat)
    requires OneListed(matches, like)
    requires other.roomId == like.roomId && other.challenge == like.challenge && other.difficulty == like.difficulty
    ensures ProblemsBelow(matches, other, round) == ProblemsBelow(matches, like, round)
    decreases round
  {
    if round > 1 {
      HistoryLike(matches, like, other, round - 1);
      var a, b := ListedAt(matches, like, round - 1), ListedAt(matches, other, round - 1);
      if a.Some? {
        assert Listed(matches, other, round - 1, a.value);
      }
      if b.Some? {
        assert Listed(matches, like, round - 1, b.value);
      }
      assert a == b;
    }
  }

  ghost function History(matches: Matches, m: Match): seq<nat> {
    ProblemsBelow(matches, m, m.round + 1)
  }

  ghost predicate RotationOk(s: Setting, rooms: RoomTable, matches: Matches) {
    forall rid :: rid in rooms && rooms[rid].active in matches ==> RotatedFor(s, matches, matches[rooms[rid].active])
  }

  predicate CatalogOk(s: Setting) {
    forall k :: k in s.catalog ==> DistinctProblems(s.catalog[k])
  }

  predicate ProblemFree(matches: Matches, id: MatchId) {
    id in matches ==> matches[id].problem.None?
  }

  /** A round without a problem is on nobody's list. */
  lemma UnlistedHistory(matches: Matches, id: MatchId, n: Match, like: Match)
    requires UniqueRounds(PlacesOf(matches)) && ProblemFree(matches, id) && n.problem.None?
    ensures History(matches[id := n], like) == History(matches, like)
  {
    UniqueRoundsListOnce(matches, like);
    HistoryUnchanged(matches, matches[id := n], like, like.round + 1);
  }

  lemma LikeHistory(matches: Matches, like: Match, other: Match)
    requires UniqueRounds(PlacesOf(matches)) && SameListing(like, other)
    ensures History(matches, other) == History(matches, like)
  {
    UniqueRoundsListOnce(matches, like);
    HistoryLike(matches, like, other, like.round + 1);
  }

  ghost predicate RotatedFor(s: Setting, matches: Matches, m: Match) {
    Rotated(History(matches, m), |Problems(s, m.challenge, m.difficulty)|)
  }

  /** Rounds that have drawn no problem may come and go. */
  lemma UnlistedKeepsRotation(s: Setting, matches: Matches, id: MatchId, n: Match, like: Match, other: Match)
    requires UniqueRounds(PlacesOf(matches)) && ProblemFree(matches, id) && n.problem.None?
    requires RotatedFor(s, matches, like) && SameListing(like, other)
    ensures RotatedFor(s, matches[id := n], other)
  {
    UnlistedHistory(matches, id, n, other);
    LikeHistory(matches, like, other);
  }
}
