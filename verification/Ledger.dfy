/** Win and loss records against the matches they are meant to count. */
module Ledger {
  import opened Domain
  import opened MatchTypes
  import World

  type Matches = map<MatchId, Match>
  type Records = map<UserId, Record>

  predicate Won(m: Match, u: UserId) {
    m.recordsApplied && m.winner == Some(u)
  }

  predicate Lost(m: Match, u: UserId) {
    m.recordsApplied && u in m.participants && m.winner != Some(u)
  }

  function WonBy(matches: Matches, u: UserId): set<MatchId> {
    set id | id in matches && Won(matches[id], u)
  }

  function LostBy(matches: Matches, u: UserId): set<MatchId> {
    set id | id in matches && Lost(matches[id], u)
  }

  function Wins(records: Records): map<UserId, nat> {
    map u | u in records :: records[u].wins
  }

  function Losses(records: Records): map<UserId, nat> {
    map u | u in records :: records[u].losses
  }

  ghost function Total(f: map<UserId, nat>): nat
    decreases |f|
  {
    if f == map[] then 0
    else
      var u :| u in f;
      assert |f - {u}| < |f| by { Shrinks(f, u); }
      f[u] + Total(f - {u})
  }

  lemma Shrinks(f: map<UserId, nat>, u: UserId)
    requires u in f
    ensures |f - {u}| == |f| - 1
  {
    assert (f - {u}).Keys == f.Keys - {u};
    assert |(f - {u}).Keys| == |f.Keys| - 1;
  }

  lemma {:induction false} TotalSplit(f: map<UserId, nat>, u: UserId)
    requires u in f
    ensures Total(f) == f[u] + Total(f - {u})
    decreases |f|
  {
    var x :| x in f && Total(f) == f[x] + Total(f - {x});
    if x != u {
      Shrinks(f, x);
      Shrinks(f, u);
      TotalSplit(f - {x}, u);
      TotalSplit(f - {u}, x);
      assert f - {x} - {u} == f - {u} - {x};
    }
  }

  lemma TotalIncrement(f: map<UserId, nat>, u: UserId)
    requires u in f
    ensures Total(f[u := f[u] + 1]) == Total(f) + 1
  {
    TotalSplit(f, u);
    TotalSplit(f[u := f[u] + 1], u);
    assert f[u := f[u] + 1] - {u} == f - {u};
  }

  ghost predicate LedgerOk(records: Records, matches: Matches) {
    && (forall u :: u in records ==>
          records[u].wins == |WonBy(matches, u)| && records[u].losses == |LostBy(matches, u)|)
    && Total(Wins(records)) == Total(Losses(records))
  }

  predicate SameResult(m: Match, n: Match) {
    n.recordsApplied == m.recordsApplied
      && (m.recordsApplied ==> n.winner == m.winner && n.participants.Keys == m.participants.Keys)
  }

  lemma WonAfter(matches: Matches, id: MatchId, n: Match, u: UserId)
    ensures WonBy(matches[id := n], u) == WonBy(matches, u) - {id} + if Won(n, u) then {id} else {}
  {
    var after := matches[id := n];
    forall x
      ensures x in WonBy(after, u) <==> x in WonBy(matches, u) - {id} + if Won(n, u) then {id} else {}
    {
      assert x != id ==> (x in after <==> x in matches);
    }
  }

  lemma LostAfter(matches: Matches, id: MatchId, n: Match, u: UserId)
    ensures LostBy(matches[id := n], u) == LostBy(matches, u) - {id} + if Lost(n, u) then {id} else {}
  {
    var after := matches[id := n];
    forall x
      ensures x in LostBy(after, u) <==> x in LostBy(matches, u) - {id} + if Lost(n, u) then {id} else {}
    {
      assert x != id ==> (x in after <==> x in matches);
    }
  }

  predicate Uncounted(matches: Matches, id: MatchId, n: Match) {
    if id in matches then SameResult(matches[id], n) else !n.recordsApplied
  }

  lemma UncountedSets(matches: Matches, id: MatchId, n: Match, u: UserId)
    requires Uncounted(matches, id, n)
    ensures WonBy(matches[id := n], u) == WonBy(matches, u)
    ensures LostBy(matches[id := n], u) == LostBy(matches, u)
  {
    WonAfter(matches, id, n, u);
    LostAfter(matches, id, n, u);
  }

  /** A match whose result counts as before changes no total; nor does a new, undecided one. */
  lemma UncountedKeepsLedger(records: Records, matches: Matches, id: MatchId, n: Match)
    requires LedgerOk(records, matches)
    requires Uncounted(matches, id, n)
    ensures LedgerOk(records, matches[id := n])
  {
    forall u | u in records
      ensures records[u].wins == |WonBy(matches[id := n], u)| && records[u].losses == |LostBy(matches[id := n], u)|
    {
      UncountedSets(matches, id, n, u);
    }
  }

  lemma TwoPlayers(players: set<UserId>, winner: UserId) returns (loser: UserId)
    requires |players| == 2 && winner in players
    ensures loser != winner && players == {winner, loser}
  {
    var rest := players - {winner};
    assert |rest| == 1;
    loser :| loser in rest;
    assert |rest - {loser}| == 0;
    assert players == rest + {winner};
    assert rest == {loser} + (rest - {loser});
  }

  lemma BumpedCounts(records: Records, n: Match, winner: UserId, loser: UserId)
    requires n.participants.Keys == {winner, loser} && winner != loser && n.winner == Some(winner)
    requires winner in records && loser in records
    ensures
      var after := World.Bumped(records, n);
      && Wins(after) == Wins(records)[winner := records[winner].wins + 1]
      && Losses(after) == Losses(records)[loser := records[loser].losses + 1]
  {
    var after := World.Bumped(records, n);
    forall u | u in after
      ensures Wins(after)[u] == Wins(records)[winner := records[winner].wins + 1][u]
      ensures Losses(after)[u] == Losses(records)[loser := records[loser].losses + 1][u]
    {
      assert u in n.participants <==> u in {winner, loser};
    }
  }

  lemma AppliedTotals(records: Records, n: Match)
    requires n.winner.Some? && n.winner.value in n.participants && |n.participants| == 2
    requires n.participants.Keys <= records.Keys
    requires Total(Wins(records)) == Total(Losses(records))
    ensures var after := World.Bumped(records, n); Total(Wins(after)) == Total(Losses(after))
  {
    var winner := n.winner.value;
    assert |n.participants.Keys| == 2;
    var loser := TwoPlayers(n.participants.Keys, winner);
    BumpedCounts(records, n, winner, loser);
    TotalIncrement(Wins(records), winner);
    TotalIncrement(Losses(records), loser);
  }

  /** Applying one result adds one win and one loss, to the two players of that match. */
  lemma AppliedKeepsLedger(records: Records, matches: Matches, id: MatchId, n: Match)
    requires LedgerOk(records, matches) && id in matches
    requires !matches[id].recordsApplied && n.recordsApplied
    requires n.winner.Some? && n.winner.value in n.participants && |n.participants| == 2
    requires n.participants.Keys <= records.Keys
    ensures LedgerOk(World.Bumped(records, n), matches[id := n])
  {
    AppliedTotals(records, n);
    EveryoneCounted(records, matches, id, n);
    hide Total, Wins, Losses, WonBy, LostBy, World.Bumped;
    BumpedKeys(records, n);
  }

  lemma EveryoneCounted(records: Records, matches: Matches, id: MatchId, n: Match)
    requires LedgerOk(records, matches) && id in matches && !matches[id].recordsApplied && n.recordsApplied
    requires n.winner.Some? && n.winner.value in n.participants
    ensures forall u :: u in records ==>
              u in World.Bumped(records, n)
              && World.Bumped(records, n)[u] == Record(|WonBy(matches[id := n], u)|, |LostBy(matches[id := n], u)|)
  {
    BumpedKeys(records, n);
    hide Total, Wins, Losses, WonBy, LostBy, World.Bumped;
    forall u | u in records
      ensures World.Bumped(records, n)[u] == Record(|WonBy(matches[id := n], u)|, |LostBy(matches[id := n], u)|)
    {
      AppliedCounts(records, matches, id, n, u);
    }
  }

  lemma BumpedKeys(records: Records, n: Match)
    ensures World.Bumped(records, n).Keys == records.Keys
  {
  }

  lemma AppliedCounts(records: Records, matches: Matches, id: MatchId, n: Match, u: UserId)
    requires id in matches && !matches[id].recordsApplied && n.recordsApplied && u in records
    requires n.winner.Some? && n.winner.value in n.participants
    requires records[u].wins == |WonBy(matches, u)| && records[u].losses == |LostBy(matches, u)|
    ensures World.Bumped(records, n)[u] == Record(|WonBy(matches[id := n], u)|, |LostBy(matches[id := n], u)|)
  {
    WonAfter(matches, id, n, u);
    LostAfter(matches, id, n, u);
    assert id !in WonBy(matches, u) && id !in LostBy(matches, u);
  }

  lemma NewPlayerKeepsLedger(records: Records, matches: Matches, u: UserId)
    requires LedgerOk(records, matches) && u !in records
    requires forall id :: id in matches ==> u !in matches[id].participants && matches[id].winner != Some(u)
    ensures LedgerOk(records[u := Record(0, 0)], matches)
  {
    var after := records[u := Record(0, 0)];
    assert WonBy(matches, u) == {};
    assert LostBy(matches, u) == {};
    NewPlayerTotals(records, u);
  }

  lemma NewPlayerTotals(records: Records, u: UserId)
    requires u !in records
    ensures Total(Wins(records[u := Record(0, 0)])) == Total(Wins(records))
    ensures Total(Losses(records[u := Record(0, 0)])) == Total(Losses(records))
  {
    var after := records[u := Record(0, 0)];
    TotalSplit(Wins(after), u);
    TotalSplit(Losses(after), u);
    assert Wins(after) - {u} == Wins(records);
    assert Losses(after) - {u} == Losses(records);
  }
}
