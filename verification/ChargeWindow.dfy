/** windowReference of src/problems/server/bank.server.ts: the shortest run of cells whose charge reaches a
    threshold. */
module ChargeWindow {

  function Charge(cells: seq<int>, left: nat, right: nat): int
    requires left <= right <= |cells|
  {
    if left == right then 0 else Charge(cells, left, right - 1) + cells[right - 1]
  }

  predicate Reaches(cells: seq<int>, threshold: int, left: nat, right: nat) {
    left <= right <= |cells| && Charge(cells, left, right) >= threshold
  }

  lemma {:induction false} DropFirst(cells: seq<int>, left: nat, right: nat)
    requires left < right <= |cells|
    ensures Charge(cells, left, right) == cells[left] + Charge(cells, left + 1, right)
    decreases right
  {
    if left + 1 < right {
      DropFirst(cells, left, right - 1);
    }
  }

  /** The charge of a window is the sum of its cells. */
  lemma {:induction false} ChargesAddUp(cells: seq<int>, left: nat, mid: nat, right: nat)
    requires left <= mid <= right <= |cells|
    ensures Charge(cells, left, left) == 0 && (left < |cells| ==> Charge(cells, left, left + 1) == cells[left])
    ensures Charge(cells, left, mid) + Charge(cells, mid, right) == Charge(cells, left, right)
    decreases right
  {
    if mid < right {
      ChargesAddUp(cells, left, mid, right - 1);
    }
  }

  lemma {:induction false} ShorterChargesLess(cells: seq<int>, left: nat, mid: nat, right: nat)
    requires left <= mid <= right <= |cells|
    requires forall i :: 0 <= i < |cells| ==> cells[i] >= 0
    ensures Charge(cells, mid, right) <= Charge(cells, left, right)
    decreases mid - left
  {
    if left < mid {
      DropFirst(cells, left, right);
      ShorterChargesLess(cells, left + 1, mid, right);
    }
  }

  /** 0 exactly when no window reaches the threshold, else the length of a shortest one; the left end never moves more
      often than there are cells. */
  method WindowReference(cells: seq<int>, threshold: int) returns (best: nat, ghost moves: nat)
    requires threshold > 0
    requires forall i :: 0 <= i < |cells| ==> cells[i] >= 0
    ensures best == 0 <==> forall i: nat, j: nat :: !Reaches(cells, threshold, i, j)
    ensures best > 0 ==> exists i: nat, j: nat :: Reaches(cells, threshold, i, j) && j - i == best
    ensures forall i: nat, j: nat :: Reaches(cells, threshold, i, j) ==> 0 < best <= j - i
    ensures moves <= |cells|
  {
    var left, sum := 0, 0;
    ghost var from: nat := 0;
    best, moves := |cells| + 1, 0;
    for right := 0 to |cells|
      invariant left <= right && sum == Charge(cells, left, right) < threshold
      invariant forall i: nat, j: nat :: j <= right && Reaches(cells, threshold, i, j) ==> best <= j - i
      invariant left > 0 ==> best <= right + 1 - left
      invariant 0 < best <= |cells| + 1
      invariant best <= |cells| ==> Reaches(cells, threshold, from, from + best)
      invariant moves == left
    {
      sum := sum + cells[right];
      while sum >= threshold
        invariant left <= right + 1 && sum == Charge(cells, left, right + 1)
        invariant left > 0 ==> best <= right + 2 - left
        invariant forall i: nat, j: nat :: j <= right && Reaches(cells, threshold, i, j) ==> best <= j - i
        invariant 0 < best <= |cells| + 1
        invariant best <= |cells| ==> Reaches(cells, threshold, from, from + best)
        invariant moves == left
        decreases right + 1 - left
      {
        if right - left + 1 < best {
          best, from := right - left + 1, left;
        }
        DropFirst(cells, left, right + 1);
        sum := sum - cells[left];
        left, moves := left + 1, moves + 1;
      }
      forall i: nat, j: nat | j <= right + 1 && Reaches(cells, threshold, i, j)
        ensures best <= j - i
      {
        if j == right + 1 && left <= i {
          ShorterChargesLess(cells, left, i, j);
        }
      }
    }
    if best > |cells| {
      forall i: nat, j: nat
        ensures !Reaches(cells, threshold, i, j)
      {
      }
      best := 0;
    }
  }
}
