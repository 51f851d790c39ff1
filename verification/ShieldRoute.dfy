/** shieldReference of src/problems/server/bank.server.ts: the least initial shield that survives some right/down route
    through the vault. */
module ShieldRoute {
  import opened Domain

  type Vault = seq<seq<int>>

  predicate Rectangular(vault: Vault) {
    |vault| > 0 && |vault[0]| > 0 && forall i :: 0 <= i < |vault| ==> |vault[i]| == |vault[0]|
  }

  predicate Inside(vault: Vault, row: int, column: int)
    requires Rectangular(vault)
  {
    0 <= row < |vault| && 0 <= column < |vault[0]|
  }

  predicate Exit(vault: Vault, row: int, column: int)
    requires Rectangular(vault)
  {
    row == |vault| - 1 && column == |vault[0]| - 1
  }

  datatype Move = Down | Right

  function RowAfter(row: int, move: Move): int {
    if move == Down then row + 1 else row
  }

  function ColumnAfter(column: int, move: Move): int {
    if move == Right then column + 1 else column
  }

  /** The moves stay inside and end at the exit. */
  predicate Route(vault: Vault, row: int, column: int, moves: seq<Move>)
    requires Rectangular(vault)
    decreases |moves|
  {
    Inside(vault, row, column)
    && if moves == [] then Exit(vault, row, column)
       else Route(vault, RowAfter(row, moves[0]), ColumnAfter(column, moves[0]), moves[1..])
  }

  /** The shield is at least one after every room of the route, the first and the last included. */
  predicate Survives(vault: Vault, row: int, column: int, moves: seq<Move>, shield: int)
    requires Rectangular(vault) && Route(vault, row, column, moves)
    decreases |moves|
  {
    var left := shield + vault[row][column];
    left >= 1
    && (moves != [] ==> Survives(vault, RowAfter(row, moves[0]), ColumnAfter(column, moves[0]), moves[1..], left))
  }

  function Count(moves: seq<Move>, move: Move): nat {
    if moves == [] then 0 else (if moves[0] == move then 1 else 0) + Count(moves[1..], move)
  }

  /** A route is as many moves down and to the right as it takes to reach the last row and column, in any order. */
  lemma {:induction false} RoutesExactly(vault: Vault, row: int, column: int, moves: seq<Move>)
    requires Rectangular(vault) && 0 <= row && 0 <= column
    ensures Route(vault, row, column, moves)
            <==> row + Count(moves, Down) == |vault| - 1 && column + Count(moves, Right) == |vault[0]| - 1
    decreases |moves|
  {
    if moves != [] {
      RoutesExactly(vault, RowAfter(row, moves[0]), ColumnAfter(column, moves[0]), moves[1..]);
    }
  }

  /** What the rooms up to and including the one after these moves add to the shield. */
  function Through(vault: Vault, row: int, column: int, moves: seq<Move>): int
    requires Rectangular(vault) && Inside(vault, row, column)
    requires Inside(vault, row + Count(moves, Down), column + Count(moves, Right))
    decreases |moves|
  {
    vault[row][column]
    + if moves == [] then 0 else Through(vault, RowAfter(row, moves[0]), ColumnAfter(column, moves[0]), moves[1..])
  }

  lemma {:induction false} CountPrefix(moves: seq<Move>, k: nat, move: Move)
    requires k <= |moves|
    ensures Count(moves[..k], move) <= Count(moves, move)
    decreases |moves|
  {
    if k > 0 {
      assert moves[..k][1..] == moves[1..][..k - 1];
      CountPrefix(moves[1..], k - 1, move);
    }
  }

  lemma StillInside(vault: Vault, row: int, column: int, moves: seq<Move>, k: nat)
    requires Rectangular(vault) && Route(vault, row, column, moves) && k <= |moves|
    ensures Inside(vault, row, column)
    ensures Inside(vault, row + Count(moves[..k], Down), column + Count(moves[..k], Right))
  {
    RoutesExactly(vault, row, column, moves);
    CountPrefix(moves, k, Down);
    CountPrefix(moves, k, Right);
  }

  ghost predicate AliveAfter(vault: Vault, row: int, column: int, moves: seq<Move>, shield: int, k: nat)
    requires Rectangular(vault) && Route(vault, row, column, moves) && k <= |moves|
  {
    StillInside(vault, row, column, moves, k);
    shield + Through(vault, row, column, moves[..k]) >= 1
  }

  /** Surviving a route is having a shield of at least one after every room of it. */
  lemma {:induction false} SurvivesExactly(vault: Vault, row: int, column: int, moves: seq<Move>, shield: int)
    requires Rectangular(vault) && Route(vault, row, column, moves)
    ensures Survives(vault, row, column, moves, shield)
            <==> forall k: nat :: k <= |moves| ==> AliveAfter(vault, row, column, moves, shield, k)
    decreases |moves|
  {
    assert moves[..0] == [];
    assert AliveAfter(vault, row, column, moves, shield, 0) <==> shield + vault[row][column] >= 1;
    if moves != [] {
      var r, c, left := RowAfter(row, moves[0]), ColumnAfter(column, moves[0]), shield + vault[row][column];
      SurvivesExactly(vault, r, c, moves[1..], left);
      forall k: nat | k <= |moves[1..]|
        ensures AliveAfter(vault, r, c, moves[1..], left, k) <==> AliveAfter(vault, row, column, moves, shield, k + 1)
      {
        StillInside(vault, row, column, moves, k + 1);
        assert moves[..k + 1][1..] == moves[1..][..k] && moves[..k + 1][0] == moves[0];
      }
      forall k: nat | 0 < k <= |moves|
        ensures AliveAfter(vault, row, column, moves, shield, k)
                <==> AliveAfter(vault, r, c, moves[1..], left, k - 1)
      {
      }
    }
  }

  ghost predicate Suffices(vault: Vault, row: int, column: int, shield: int)
    requires Rectangular(vault)
  {
    exists moves :: Route(vault, row, column, moves) && Survives(vault, row, column, moves, shield)
  }

  /** What the table holds for one room. */
  ghost predicate Least(vault: Vault, row: int, column: int, needed: int)
    requires Rectangular(vault) && Inside(vault, row, column)
  {
    needed >= 1 && forall shield :: shield >= 1 ==> (Suffices(vault, row, column, shield) <==> needed <= shield)
  }

  lemma {:induction false} MoreShieldSurvives(vault: Vault, row: int, column: int, moves: seq<Move>, shield: int,
                                              more: int)
    requires Rectangular(vault) && Route(vault, row, column, moves) && Survives(vault, row, column, moves, shield)
    requires shield <= more
    ensures Survives(vault, row, column, moves, more)
    decreases |moves|
  {
    if moves != [] {
      var v := vault[row][column];
      MoreShieldSurvives(vault, RowAfter(row, moves[0]), ColumnAfter(column, moves[0]), moves[1..], shield + v,
                         more + v);
    }
  }

  /** One step of a route: survive this room, then suffice from the next. */
  lemma SufficesVia(vault: Vault, row: int, column: int, move: Move, shield: int)
    requires Rectangular(vault) && Inside(vault, row, column)
    requires shield + vault[row][column] >= 1
    requires Suffices(vault, RowAfter(row, move), ColumnAfter(column, move), shield + vault[row][column])
    ensures Suffices(vault, row, column, shield)
  {
    var r, c, left := RowAfter(row, move), ColumnAfter(column, move), shield + vault[row][column];
    var rest :| Route(vault, r, c, rest) && Survives(vault, r, c, rest, left);
    var moves := [move] + rest;
    assert moves[1..] == rest;
    assert Route(vault, row, column, moves) && Survives(vault, row, column, moves, shield);
  }

  lemma SufficesSplits(vault: Vault, row: int, column: int, shield: int)
    requires Rectangular(vault) && Inside(vault, row, column) && Suffices(vault, row, column, shield)
    ensures
      var left := shield + vault[row][column];
      && left >= 1
      && (|| Exit(vault, row, column)
          || (Inside(vault, row + 1, column) && Suffices(vault, row + 1, column, left))
          || (Inside(vault, row, column + 1) && Suffices(vault, row, column + 1, left)))
  {
    var left := shield + vault[row][column];
    var moves :| Route(vault, row, column, moves) && Survives(vault, row, column, moves, shield);
    if moves != [] {
      var r, c, rest := RowAfter(row, moves[0]), ColumnAfter(column, moves[0]), moves[1..];
      assert Route(vault, r, c, rest) && Survives(vault, r, c, rest, left);
    }
  }

  lemma ExitNeeds(vault: Vault, row: int, column: int)
    requires Rectangular(vault) && Exit(vault, row, column)
    ensures Least(vault, row, column, Max(1, 1 - vault[row][column]))
  {
    forall shield | shield >= 1
      ensures Suffices(vault, row, column, shield) <==> Max(1, 1 - vault[row][column]) <= shield
    {
      if Suffices(vault, row, column, shield) {
        SufficesSplits(vault, row, column, shield);
      }
      if shield + vault[row][column] >= 1 {
        assert Route(vault, row, column, []) && Survives(vault, row, column, [], shield);
      }
    }
  }

  function Cheaper(a: Option<int>, b: Option<int>): Option<int> {
    if a.None? then b else if b.None? then a else Some(if a.value <= b.value then a.value else b.value)
  }

  ghost predicate LeastIf(vault: Vault, row: int, column: int, needed: Option<int>)
    requires Rectangular(vault)
  {
    if Inside(vault, row, column) then needed.Some? && Least(vault, row, column, needed.value) else needed.None?
  }

  /** The recurrence is exact: max(1, min over the next rooms - this room). */
  lemma RoomNeeds(vault: Vault, row: int, column: int, down: Option<int>, right: Option<int>)
    requires Rectangular(vault) && Inside(vault, row, column) && !Exit(vault, row, column)
    requires LeastIf(vault, row + 1, column, down) && LeastIf(vault, row, column + 1, right)
    ensures Cheaper(down, right).Some?
    ensures Least(vault, row, column, Max(1, Cheaper(down, right).value - vault[row][column]))
  {
    var next := Cheaper(down, right).value;
    forall shield | shield >= 1
      ensures Suffices(vault, row, column, shield) <==> Max(1, next - vault[row][column]) <= shield
    {
      var left := shield + vault[row][column];
      if Suffices(vault, row, column, shield) {
        SufficesSplits(vault, row, column, shield);
      }
      if next <= left {
        SufficesVia(vault, row, column, if down == Some(next) then Down else Right, shield);
      }
    }
  }

  /** The result suffices on some route, and no smaller shield of at least one suffices on any. */
  method ShieldReference(vault: Vault) returns (r: int)
    requires Rectangular(vault)
    ensures r >= 1 && Suffices(vault, 0, 0, r)
    ensures forall shield :: 1 <= shield < r ==> !Suffices(vault, 0, 0, shield)
  {
    var rows, columns := |vault|, |vault[0]|;
    var needed := new int[rows, columns]((_, _) => 0);
    for row := rows downto 0
      invariant forall i, j :: row <= i < rows && 0 <= j < columns ==> Least(vault, i, j, needed[i, j])
    {
      for column := columns downto 0
        invariant forall i, j :: row < i < rows && 0 <= j < columns ==> Least(vault, i, j, needed[i, j])
        invariant forall j :: column <= j < columns ==> Least(vault, row, j, needed[row, j])
      {
        var next := 1;
        if row == rows - 1 && column == columns - 1 {
          ExitNeeds(vault, row, column);
        } else {
          var down := if row + 1 < rows then Some(needed[row + 1, column]) else None;
          var right := if column + 1 < columns then Some(needed[row, column + 1]) else None;
          RoomNeeds(vault, row, column, down, right);
          next := Cheaper(down, right).value;
        }
        needed[row, column] := Max(1, next - vault[row][column]);
      }
    }
    r := needed[0, 0];
  }

  /** Any larger shield suffices too, so the result is the exact threshold. */
  lemma ThresholdIsExact(vault: Vault, least: int, shield: int)
    requires Rectangular(vault) && Suffices(vault, 0, 0, least)
    requires forall s :: 1 <= s < least ==> !Suffices(vault, 0, 0, s)
    requires shield >= 1
    ensures Suffices(vault, 0, 0, shield) <==> least <= shield
  {
    if least <= shield {
      var moves :| Route(vault, 0, 0, moves) && Survives(vault, 0, 0, moves, least);
      MoreShieldSurvives(vault, 0, 0, moves, least, shield);
    }
  }
}
