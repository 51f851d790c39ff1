/** islandsReference of src/problems/server/bank.server.ts: the number of groups of relay cells joined up, down, left
    and right. */
module RelayIslands {

  type Relays = seq<string>

  datatype Cell = Cell(row: int, column: int)

  predicate Rectangular(relays: Relays) {
    relays != [] && forall i :: 0 <= i < |relays| ==> |relays[i]| == |relays[0]|
  }

  predicate Relay(relays: Relays, cell: Cell)
    requires Rectangular(relays)
  {
    0 <= cell.row < |relays| && 0 <= cell.column < |relays[0]| && relays[cell.row][cell.column] == 'X'
  }

  const DIRECTIONS: seq<(int, int)> := [(-1, 0), (1, 0), (0, -1), (0, 1)]

  function Neighbour(cell: Cell, direction: (int, int)): Cell {
    Cell(cell.row + direction.0, cell.column + direction.1)
  }

  function Distance(x: int, y: int): nat {
    if x < y then y - x else x - y
  }

  /** One step up, down, left or right. */
  predicate Adjacent(a: Cell, b: Cell) {
    Distance(a.row, b.row) + Distance(a.column, b.column) == 1
  }

  /** The scanned directions lead to the adjacent cells, all of them and no others. */
  lemma DirectionsAreAdjacent(a: Cell, b: Cell)
    ensures Adjacent(a, b) <==> exists k :: 0 <= k < |DIRECTIONS| && b == Neighbour(a, DIRECTIONS[k])
  {
    if Adjacent(a, b) {
      var k :=
        if b.row < a.row then 0
        else if b.row > a.row then 1
        else if b.column < a.column then 2 else 3;
      assert b == Neighbour(a, DIRECTIONS[k]);
    }
  }

  // ----- the reference: connectedness

  predicate Path(relays: Relays, path: seq<Cell>)
    requires Rectangular(relays)
  {
    && path != []
    && (forall i :: 0 <= i < |path| ==> Relay(relays, path[i]))
    && forall i :: 0 <= i < |path| - 1 ==> Adjacent(path[i], path[i + 1])
  }

  predicate Joins(relays: Relays, path: seq<Cell>, a: Cell, b: Cell)
    requires Rectangular(relays)
  {
    Path(relays, path) && path[0] == a && path[|path| - 1] == b
  }

  ghost predicate Connected(relays: Relays, a: Cell, b: Cell)
    requires Rectangular(relays)
  {
    exists path :: Joins(relays, path, a, b)
  }

  function AllRelays(relays: Relays): set<Cell>
    requires Rectangular(relays)
  {
    set i, j | 0 <= i < |relays| && 0 <= j < |relays[0]| && Relay(relays, Cell(i, j)) :: Cell(i, j)
  }

  ghost function Island(relays: Relays, a: Cell): set<Cell>
    requires Rectangular(relays)
  {
    set b | b in AllRelays(relays) && Connected(relays, a, b)
  }

  ghost function Islands(relays: Relays): set<set<Cell>>
    requires Rectangular(relays)
  {
    set a | a in AllRelays(relays) :: Island(relays, a)
  }

  lemma RelaysListed(relays: Relays, cell: Cell)
    requires Rectangular(relays)
    ensures cell in AllRelays(relays) <==> Relay(relays, cell)
  {
    assert cell == Cell(cell.row, cell.column);
  }

  lemma ConnectedReflexive(relays: Relays, a: Cell)
    requires Rectangular(relays) && Relay(relays, a)
    ensures Connected(relays, a, a)
  {
    assert Joins(relays, [a], a, a);
  }

  lemma ConnectedExtends(relays: Relays, a: Cell, b: Cell, c: Cell)
    requires Rectangular(relays) && Connected(relays, a, b) && Adjacent(b, c) && Relay(relays, c)
    ensures Connected(relays, a, c)
  {
    var path :| Joins(relays, path, a, b);
    assert Joins(relays, path + [c], a, c);
  }

  lemma {:induction false} ConnectedAlong(relays: Relays, a: Cell, path: seq<Cell>)
    requires Rectangular(relays) && Path(relays, path) && Connected(relays, a, path[0])
    ensures Connected(relays, a, path[|path| - 1])
    decreases |path|
  {
    if |path| > 1 {
      var front := path[..|path| - 1];
      ConnectedAlong(relays, a, front);
      assert Adjacent(path[|path| - 2], path[|path| - 1]);
      ConnectedExtends(relays, a, front[|front| - 1], path[|path| - 1]);
    }
  }

  lemma {:induction false} ConnectedBack(relays: Relays, path: seq<Cell>)
    requires Rectangular(relays) && Path(relays, path)
    ensures Connected(relays, path[|path| - 1], path[0])
    decreases |path|
  {
    var last := path[|path| - 1];
    ConnectedReflexive(relays, last);
    if |path| > 1 {
      var front := path[..|path| - 1];
      ConnectedBack(relays, front);
      assert Adjacent(path[|path| - 2], path[|path| - 1]);
      ConnectedExtends(relays, last, last, path[|path| - 2]);
      var back :| Joins(relays, back, front[|front| - 1], front[0]);
      ConnectedAlong(relays, last, back);
    }
  }

  /** Connectedness is an equivalence on relays, so islands are disjoint or equal. */
  lemma SameIsland(relays: Relays, a: Cell, b: Cell)
    requires Rectangular(relays) && b in Island(relays, a)
    ensures Island(relays, a) == Island(relays, b) && b in Island(relays, b)
  {
    var path :| Joins(relays, path, a, b);
    ConnectedBack(relays, path);
    RelaysListed(relays, b);
    ConnectedReflexive(relays, b);
    forall c | c in AllRelays(relays)
      ensures Connected(relays, a, c) <==> Connected(relays, b, c)
    {
      if Connected(relays, b, c) {
        var onward :| Joins(relays, onward, b, c);
        ConnectedAlong(relays, a, onward);
      }
      if Connected(relays, a, c) {
        var onward :| Joins(relays, onward, a, c);
        ConnectedAlong(relays, b, onward);
      }
    }
  }

  // ----- flooding one island

  ghost function SeenCells(seen: array2<bool>): set<Cell>
    reads seen
  {
    set i, j | 0 <= i < seen.Length0 && 0 <= j < seen.Length1 && seen[i, j] :: Cell(i, j)
  }

  ghost predicate Closed(relays: Relays, cells: set<Cell>)
    requires Rectangular(relays)
  {
    forall a, b :: a in cells && Adjacent(a, b) && Relay(relays, b) ==> b in cells
  }

  lemma {:induction false} ClosedFollowsPath(relays: Relays, cells: set<Cell>, path: seq<Cell>)
    requires Rectangular(relays) && Closed(relays, cells) && Path(relays, path) && path[0] in cells
    ensures path[|path| - 1] in cells
    decreases |path|
  {
    if |path| > 1 {
      ClosedFollowsPath(relays, cells, path[..|path| - 1]);
      assert Adjacent(path[|path| - 2], path[|path| - 1]);
    }
  }

  /** A closed set of relays connected to its start is the whole island. */
  lemma FloodIsIsland(relays: Relays, start: Cell, cells: set<Cell>)
    requires Rectangular(relays) && start in cells && cells <= Island(relays, start) && Closed(relays, cells)
    ensures cells == Island(relays, start)
  {
    forall b | b in Island(relays, start)
      ensures b in cells
    {
      var path :| Joins(relays, path, start, b);
      ClosedFollowsPath(relays, cells, path);
    }
  }

  /** A closed set never touches an island it does not meet. */
  lemma ClosedAvoidsIsland(relays: Relays, cells: set<Cell>, start: Cell)
    requires Rectangular(relays) && Closed(relays, cells) && Relay(relays, start) && start !in cells
    ensures cells !! Island(relays, start)
  {
    forall b | b in cells && b in Island(relays, start)
      ensures false
    {
      var path :| Joins(relays, path, start, b);
      ConnectedBack(relays, path);
      var back :| Joins(relays, back, b, start);
      ClosedFollowsPath(relays, cells, back);
    }
  }

  lemma ClosedUnion(relays: Relays, a: set<Cell>, b: set<Cell>)
    requires Rectangular(relays) && Closed(relays, a) && Closed(relays, b)
    ensures Closed(relays, a + b)
  {
  }

  lemma IslandClosed(relays: Relays, start: Cell)
    requires Rectangular(relays)
    ensures Closed(relays, Island(relays, start))
  {
    forall a, b | a in Island(relays, start) && Adjacent(a, b) && Relay(relays, b)
      ensures b in Island(relays, start)
    {
      ConnectedExtends(relays, start, a, b);
      RelaysListed(relays, b);
    }
  }

  predicate Scanned(relays: Relays, queue: seq<Cell>, seen: set<Cell>, index: nat)
    requires Rectangular(relays)
  {
    forall i, k ::
      0 <= i < index && i < |queue| && 0 <= k < |DIRECTIONS| && Relay(relays, Neighbour(queue[i], DIRECTIONS[k])) ==>
        Neighbour(queue[i], DIRECTIONS[k]) in seen
  }

  /** What the growing queue holds: distinct relays of the start's island, all marked and newly so. */
  ghost predicate Queued(relays: Relays, start: Cell, before: set<Cell>, seen: set<Cell>, queue: seq<Cell>,
                         marked: set<Cell>)
    requires Rectangular(relays)
  {
    && (forall i :: 0 <= i < |queue| ==> queue[i] in marked)
    && (forall cell :: cell in marked ==> cell in queue)
    && |marked| == |queue|
    && start in marked && marked <= Island(relays, start)
    && seen == before + marked
  }

  lemma QueueFits(relays: Relays, start: Cell, marked: set<Cell>)
    requires Rectangular(relays) && marked <= Island(relays, start)
    ensures |marked| <= |AllRelays(relays)|
  {
    assert marked <= AllRelays(relays);
    assert |AllRelays(relays) - marked| == |AllRelays(relays)| - |marked|;
  }

  lemma QueueGrows(relays: Relays, start: Cell, before: set<Cell>, seen: set<Cell>, queue: seq<Cell>, marked: set<Cell>,
                   current: Cell, next: Cell)
    requires Rectangular(relays) && Queued(relays, start, before, seen, queue, marked) && current in marked
    requires Adjacent(current, next) && Relay(relays, next) && next !in seen
    ensures Queued(relays, start, before, seen + {next}, queue + [next], marked + {next})
  {
    ConnectedExtends(relays, start, current, next);
    RelaysListed(relays, next);
    assert |marked + {next}| == |marked| + 1;
  }

  lemma MarkOne(seen: set<Cell>, after: set<Cell>, cell: Cell)
    requires forall c :: c in after <==> c in seen || c == cell
    ensures after == seen + {cell}
  {
  }

  predicate Shaped(relays: Relays, seen: array2<bool>)
    requires Rectangular(relays)
  {
    seen.Length0 == |relays| && seen.Length1 == |relays[0]|
  }

  method Mark(seen: array2<bool>, cell: Cell)
    requires 0 <= cell.row < seen.Length0 && 0 <= cell.column < seen.Length1
    modifies seen
    ensures SeenCells(seen) == old(SeenCells(seen)) + {cell}
  {
    ghost var before := SeenCells(seen);
    seen[cell.row, cell.column] := true;
    forall c
      ensures c in SeenCells(seen) <==> c in before || c == cell
    {
      assert c == Cell(c.row, c.column);
    }
    MarkOne(before, SeenCells(seen), cell);
  }

  /** One neighbour: marked and queued if it is a relay not seen yet. */
  method Look(relays: Relays, seen: array2<bool>, queue: seq<Cell>, current: Cell, next: Cell, ghost start: Cell,
              ghost before: set<Cell>, ghost marked: set<Cell>)
    returns (longer: seq<Cell>, ghost wider: set<Cell>)
    requires Rectangular(relays) && Shaped(relays, seen) && current in marked && Adjacent(current, next)
    requires Queued(relays, start, before, SeenCells(seen), queue, marked)
    modifies seen
    ensures Queued(relays, start, before, SeenCells(seen), longer, wider) && queue <= longer && marked <= wider
    ensures Relay(relays, next) ==> next in SeenCells(seen)
    ensures old(SeenCells(seen)) <= SeenCells(seen)
  {
    hide Queued, SeenCells, Adjacent;
    longer, wider := queue, marked;
    if 0 <= next.row < |relays| && 0 <= next.column < |relays[0]| {
      SeenAt(seen, next);
      if !seen[next.row, next.column] && relays[next.row][next.column] == 'X' {
        QueueGrows(relays, start, before, SeenCells(seen), queue, marked, current, next);
        Mark(seen, next);
        longer, wider := queue + [next], marked + {next};
      }
    }
  }

  predicate LookedAt(relays: Relays, current: Cell, seen: set<Cell>, count: nat)
    requires Rectangular(relays)
  {
    forall k :: 0 <= k < count && k < |DIRECTIONS| && Relay(relays, Neighbour(current, DIRECTIONS[k])) ==>
                  Neighbour(current, DIRECTIONS[k]) in seen
  }

  lemma LookedFurther(relays: Relays, current: Cell, known: set<Cell>, seen: set<Cell>, k: nat)
    requires Rectangular(relays) && k < |DIRECTIONS| && known <= seen && LookedAt(relays, current, known, k)
    requires Relay(relays, Neighbour(current, DIRECTIONS[k])) ==> Neighbour(current, DIRECTIONS[k]) in seen
    ensures LookedAt(relays, current, seen, k + 1)
  {
  }

  /** The four neighbours of one queued cell. */
  method Visit(relays: Relays, seen: array2<bool>, queue: seq<Cell>, current: Cell, ghost start: Cell,
               ghost before: set<Cell>,
               ghost marked: set<Cell>)
    returns (longer: seq<Cell>, ghost wider: set<Cell>)
    requires Rectangular(relays) && Shaped(relays, seen) && current in marked
    requires Queued(relays, start, before, SeenCells(seen), queue, marked)
    modifies seen
    ensures Queued(relays, start, before, SeenCells(seen), longer, wider) && queue <= longer
    ensures LookedAt(relays, current, SeenCells(seen), |DIRECTIONS|)
    ensures old(SeenCells(seen)) <= SeenCells(seen)
  {
    longer, wider := queue, marked;
    for k := 0 to |DIRECTIONS|
      invariant Queued(relays, start, before, SeenCells(seen), longer, wider) && queue <= longer && marked <= wider
      invariant LookedAt(relays, current, SeenCells(seen), k)
      invariant old(SeenCells(seen)) <= SeenCells(seen)
    {
      hide Queued, SeenCells, LookedAt;
      var next := Neighbour(current, DIRECTIONS[k]);
      DirectionsAreAdjacent(current, next);
      ghost var known := SeenCells(seen);
      longer, wider := Look(relays, seen, longer, current, next, start, before, wider);
      LookedFurther(relays, current, known, SeenCells(seen), k);
    }
  }

  lemma SeenAt(seen: array2<bool>, cell: Cell)
    requires 0 <= cell.row < seen.Length0 && 0 <= cell.column < seen.Length1
    ensures cell in SeenCells(seen) <==> seen[cell.row, cell.column]
  {
    assert cell == Cell(cell.row, cell.column);
  }

  /** The queue grows while it is scanned, yet the scan ends, having marked exactly the start's island. */
  method Flood(relays: Relays, seen: array2<bool>, start: Cell)
    requires Rectangular(relays) && Shaped(relays, seen) && Relay(relays, start)
    requires start !in SeenCells(seen) && Closed(relays, SeenCells(seen))
    modifies seen
    ensures SeenCells(seen) == old(SeenCells(seen)) + Island(relays, start)
    ensures old(SeenCells(seen)) !! Island(relays, start)
  {
    ghost var before := SeenCells(seen);
    ClosedAvoidsIsland(relays, before, start);
    Mark(seen, start);
    var queue := [start];
    ghost var marked := {start};
    RelaysListed(relays, start);
    ConnectedReflexive(relays, start);
    var index := 0;
    while index < |queue|
      invariant 0 <= index <= |queue|
      invariant Queued(relays, start, before, SeenCells(seen), queue, marked)
      invariant Scanned(relays, queue, SeenCells(seen), index)
      decreases |AllRelays(relays)| - index
    {
      QueueFits(relays, start, marked);
      ghost var known := SeenCells(seen);
      ghost var scanned := queue;
      queue, marked := Visit(relays, seen, queue, queue[index], start, before, marked);
      ScannedGrows(relays, scanned, queue, known, SeenCells(seen), index);
      index := index + 1;
    }
    MarkedIsClosed(relays, start, before, SeenCells(seen), queue, marked);
    FloodIsIsland(relays, start, marked);
  }

  lemma ScannedGrows(relays: Relays, queue: seq<Cell>, longer: seq<Cell>, seen: set<Cell>, wider: set<Cell>, index: nat)
    requires Rectangular(relays) && index < |queue| && queue <= longer && seen <= wider
    requires Scanned(relays, queue, seen, index)
    requires LookedAt(relays, queue[index], wider, |DIRECTIONS|)
    ensures Scanned(relays, longer, wider, index + 1)
  {
    forall i, k | 0 <= i < index + 1 && 0 <= k < |DIRECTIONS| && Relay(relays, Neighbour(longer[i], DIRECTIONS[k]))
      ensures Neighbour(longer[i], DIRECTIONS[k]) in wider
    {
      assert longer[i] == queue[i];
    }
  }

  lemma MarkedIsClosed(relays: Relays, start: Cell, before: set<Cell>, seen: set<Cell>, queue: seq<Cell>,
                       marked: set<Cell>)
    requires Rectangular(relays) && Queued(relays, start, before, seen, queue, marked)
    requires Scanned(relays, queue, seen, |queue|)
    requires before !! Island(relays, start)
    ensures Closed(relays, marked)
  {
    forall a, b | a in marked && Adjacent(a, b) && Relay(relays, b)
      ensures b in marked
    {
      var i :| 0 <= i < |queue| && queue[i] == a;
      DirectionsAreAdjacent(a, b);
      var k :| 0 <= k < |DIRECTIONS| && b == Neighbour(a, DIRECTIONS[k]);
      assert Neighbour(queue[i], DIRECTIONS[k]) in seen;
      ConnectedExtends(relays, start, a, b);
      RelaysListed(relays, b);
      assert b in Island(relays, start);
    }
  }

  // ----- counting

  /** The relays before a position in row-major order. */
  predicate Earlier(row: int, column: int, cell: Cell) {
    cell.row < row || (cell.row == row && cell.column < column)
  }

  ghost function IslandsBefore(relays: Relays, row: int, column: int): set<set<Cell>>
    requires Rectangular(relays)
  {
    set a | a in AllRelays(relays) && Earlier(row, column, a) :: Island(relays, a)
  }

  ghost predicate Counted(relays: Relays, seen: set<Cell>, row: int, column: int, islands: int)
    requires Rectangular(relays)
  {
    && islands == |IslandsBefore(relays, row, column)|
    && Closed(relays, seen)
    && (forall a :: a in AllRelays(relays) && Earlier(row, column, a) ==> a in seen)
    && forall b :: b in seen ==> b in AllRelays(relays) && Island(relays, b) in IslandsBefore(relays, row, column)
  }

  lemma CountedIsClosed(relays: Relays, seen: set<Cell>, row: int, column: int, islands: int)
    requires Rectangular(relays) && Counted(relays, seen, row, column, islands)
    ensures Closed(relays, seen)
  {
  }

  lemma NothingNew(relays: Relays, seen: set<Cell>, row: int, column: int, islands: int)
    requires Rectangular(relays) && Counted(relays, seen, row, column, islands)
    requires !Relay(relays, Cell(row, column)) || Cell(row, column) in seen
    ensures Counted(relays, seen, row, column + 1, islands)
  {
    var here := Cell(row, column);
    RelaysListed(relays, here);
    forall a | a in AllRelays(relays) && Earlier(row, column + 1, a)
      ensures a in seen && Island(relays, a) in IslandsBefore(relays, row, column)
    {
      assert !Earlier(row, column, a) ==> a == here;
      if Earlier(row, column, a) {
        assert Island(relays, a) in IslandsBefore(relays, row, column);
      }
    }
    assert IslandsBefore(relays, row, column + 1) == IslandsBefore(relays, row, column);
  }

  lemma NotYetCounted(relays: Relays, seen: set<Cell>, row: int, column: int, islands: int)
    requires Rectangular(relays) && Counted(relays, seen, row, column, islands)
    requires Relay(relays, Cell(row, column)) && Cell(row, column) !in seen
    ensures Island(relays, Cell(row, column)) !in IslandsBefore(relays, row, column)
  {
    var here := Cell(row, column);
    if Island(relays, here) in IslandsBefore(relays, row, column) {
      var a :| a in AllRelays(relays) && Earlier(row, column, a) && Island(relays, a) == Island(relays, here);
      RelaysListed(relays, a);
      ConnectedReflexive(relays, a);
      assert a in seen && a in Island(relays, here);
      ClosedAvoidsIsland(relays, seen, here);
    }
  }

  lemma OneMoreIsland(relays: Relays, row: int, column: int)
    requires Rectangular(relays) && Relay(relays, Cell(row, column))
    ensures IslandsBefore(relays, row, column + 1)
            == IslandsBefore(relays, row, column) + {Island(relays, Cell(row, column))}
  {
    hide Island;
    var here := Cell(row, column);
    RelaysListed(relays, here);
    assert Earlier(row, column + 1, here);
    forall a | a in AllRelays(relays) && Earlier(row, column + 1, a)
      ensures Earlier(row, column, a) || a == here
    {
    }
  }

  lemma NewIsland(relays: Relays, seen: set<Cell>, row: int, column: int, islands: int)
    requires Rectangular(relays) && Counted(relays, seen, row, column, islands)
    requires Relay(relays, Cell(row, column)) && Cell(row, column) !in seen
    ensures Counted(relays, seen + Island(relays, Cell(row, column)), row, column + 1, islands + 1)
  {
    var here := Cell(row, column);
    IslandClosed(relays, here);
    ClosedUnion(relays, seen, Island(relays, here));
    NotYetCounted(relays, seen, row, column, islands);
    OneMoreIsland(relays, row, column);
    RelaysListed(relays, here);
    ConnectedReflexive(relays, here);
    forall b | b in Island(relays, here)
      ensures b in AllRelays(relays) && Island(relays, b) in IslandsBefore(relays, row, column + 1)
    {
      SameIsland(relays, here, b);
    }
    NewlySeen(relays, seen, row, column);
    hide Island, IslandsBefore;
  }

  lemma NewlySeen(relays: Relays, seen: set<Cell>, row: int, column: int)
    requires Rectangular(relays) && forall a :: a in AllRelays(relays) && Earlier(row, column, a) ==> a in seen
    requires Cell(row, column) in Island(relays, Cell(row, column))
    ensures forall a :: a in AllRelays(relays) && Earlier(row, column + 1, a) ==>
            a in seen + Island(relays, Cell(row, column))
  {
    forall a | a in AllRelays(relays) && Earlier(row, column + 1, a)
      ensures Earlier(row, column, a) || a == Cell(row, column)
    {
    }
  }

  lemma NextRow(relays: Relays, seen: set<Cell>, row: int, islands: int)
    requires Rectangular(relays) && Counted(relays, seen, row, |relays[0]|, islands)
    ensures Counted(relays, seen, row + 1, 0, islands)
  {
    assert forall a :: a in AllRelays(relays) ==> (Earlier(row, |relays[0]|, a) <==> Earlier(row + 1, 0, a));
    assert IslandsBefore(relays, row + 1, 0) == IslandsBefore(relays, row, |relays[0]|);
  }

  lemma AllCounted(relays: Relays, seen: set<Cell>, islands: int)
    requires Rectangular(relays) && Counted(relays, seen, |relays|, 0, islands)
    ensures islands == |Islands(relays)|
  {
    assert forall a :: a in AllRelays(relays) ==> Earlier(|relays|, 0, a);
    assert IslandsBefore(relays, |relays|, 0) == Islands(relays);
  }

  lemma NothingSeen(seen: array2<bool>)
    requires forall i, j :: 0 <= i < seen.Length0 && 0 <= j < seen.Length1 ==> !seen[i, j]
    ensures SeenCells(seen) == {}
  {
  }

  method Unseen(rows: nat, columns: nat) returns (seen: array2<bool>)
    ensures fresh(seen) && seen.Length0 == rows && seen.Length1 == columns && SeenCells(seen) == {}
  {
    seen := new bool[rows, columns]((_, _) => false);
    NothingSeen(seen);
  }

  lemma NothingCounted(relays: Relays)
    requires Rectangular(relays)
    ensures Counted(relays, {}, 0, 0, 0)
  {
    assert IslandsBefore(relays, 0, 0) == {};
  }

  /** One cell of the scan: an unseen relay opens an island. */
  method CountCell(relays: Relays, seen: array2<bool>, row: nat, column: nat, islands: nat) returns (counted: nat)
    requires Rectangular(relays) && Shaped(relays, seen) && row < |relays| && column < |relays[0]|
    requires Counted(relays, SeenCells(seen), row, column, islands)
    modifies seen
    ensures Counted(relays, SeenCells(seen), row, column + 1, counted)
  {
    hide SeenCells, Counted;
    SeenAt(seen, Cell(row, column));
    if relays[row][column] != 'X' || seen[row, column] {
      NothingNew(relays, SeenCells(seen), row, column, islands);
      return islands;
    }
    CountedIsClosed(relays, SeenCells(seen), row, column, islands);
    NewIsland(relays, SeenCells(seen), row, column, islands);
    counted := islands + 1;
    Flood(relays, seen, Cell(row, column));
  }

  /** The number of islands: classes of relays under connectedness. */
  method IslandsReference(relays: Relays) returns (islands: nat)
    requires relays != [] ==> Rectangular(relays)
    ensures islands == if relays == [] then 0 else |Islands(relays)|
  {
    if |relays| == 0 {
      return 0;
    }
    var rows, columns := |relays|, |relays[0]|;
    var seen := Unseen(rows, columns);
    islands := 0;
    NothingCounted(relays);
    hide SeenCells, Counted, AllRelays, Islands;
    for row := 0 to rows
      invariant Counted(relays, SeenCells(seen), row, 0, islands)
    {
      for column := 0 to columns
        invariant Counted(relays, SeenCells(seen), row, column, islands)
      {
        islands := CountCell(relays, seen, row, column, islands);
      }
      NextRow(relays, SeenCells(seen), row, islands);
    }
    AllCounted(relays, SeenCells(seen), islands);
  }
}
