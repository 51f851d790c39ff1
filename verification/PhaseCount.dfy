/** phaseReference of src/problems/server/bank.server.ts: how many strictly increasing index sequences of the
    transmission spell the phase, modulo 1,000,000,007. */
module PhaseCount {

  const MOD := 1_000_000_007

  type Indices = seq<nat>

  /** The declarative meaning of one alignment. */
  predicate Aligns(transmission: string, phase: string, at: Indices) {
    && |at| == |phase|
    && (forall i, j :: 0 <= i < j < |at| ==> at[i] < at[j])
    && (forall i :: 0 <= i < |at| ==> at[i] < |transmission| && transmission[at[i]] == phase[i])
  }

  ghost function Extended(fronts: set<Indices>, last: nat): set<Indices> {
    set at | at in fronts :: at + [last]
  }

  /** All alignments, by whether the last character of the transmission is used. */
  ghost function Alignments(transmission: string, phase: string): set<Indices>
    decreases |transmission|
  {
    if phase == "" then {[]}
    else if transmission == "" then {}
    else
      var n := |transmission| - 1;
      Alignments(transmission[..n], phase)
      + if transmission[n] == phase[|phase| - 1] then Extended(Alignments(transmission[..n], phase[..|phase| - 1]), n)
        else {}
  }

  lemma FrontAligns(transmission: string, phase: string, at: Indices)
    requires transmission != "" && Aligns(transmission, phase, at)
    ensures
      var n := |transmission| - 1;
      || Aligns(transmission[..n], phase, at)
      || (at != [] && at[|at| - 1] == n && transmission[n] == phase[|phase| - 1]
          && Aligns(transmission[..n], phase[..|phase| - 1], at[..|at| - 1]))
  {
    if at != [] {
      assert forall i :: 0 <= i < |at| - 1 ==> at[i] < at[|at| - 1];
    }
  }

  lemma InExtended(fronts: set<Indices>, last: nat, at: Indices)
    ensures at in Extended(fronts, last) <==> at != [] && at[|at| - 1] == last && at[..|at| - 1] in fronts
  {
    if at != [] {
      assert at == at[..|at| - 1] + [at[|at| - 1]];
    }
    forall front | front in fronts && at == front + [last]
      ensures front == at[..|at| - 1]
    {
    }
  }

  lemma BackAligns(transmission: string, phase: string, at: Indices)
    requires transmission != "" && phase != ""
    requires
      var n := |transmission| - 1;
      || Aligns(transmission[..n], phase, at)
      || (at != [] && at[|at| - 1] == n && transmission[n] == phase[|phase| - 1]
          && Aligns(transmission[..n], phase[..|phase| - 1], at[..|at| - 1]))
    ensures Aligns(transmission, phase, at)
  {
    var n := |transmission| - 1;
    if !Aligns(transmission[..n], phase, at) {
      var front := at[..|at| - 1];
      assert forall i :: 0 <= i < |front| ==> at[i] == front[i] && front[i] < n;
      assert forall i :: 0 <= i < |front| ==> transmission[..n][front[i]] == transmission[front[i]];
    }
  }

  /** The recursion finds exactly the alignments. */
  lemma {:induction false} AlignmentsAreAll(transmission: string, phase: string, at: Indices)
    ensures at in Alignments(transmission, phase) <==> Aligns(transmission, phase, at)
    decreases |transmission|
  {
    if phase == "" {
    } else if transmission == "" {
      if at != [] {
        assert at[0] >= |transmission|;
      }
    } else {
      var n := |transmission| - 1;
      AlignmentsAreAll(transmission[..n], phase, at);
      InExtended(Alignments(transmission[..n], phase[..|phase| - 1]), n, at);
      if at != [] {
        AlignmentsAreAll(transmission[..n], phase[..|phase| - 1], at[..|at| - 1]);
      }
      if Aligns(transmission, phase, at) {
        FrontAligns(transmission, phase, at);
      } else if at in Alignments(transmission, phase) {
        BackAligns(transmission, phase, at);
      }
    }
  }

  lemma {:induction false} ExtendedCount(fronts: set<Indices>, last: nat)
    ensures |Extended(fronts, last)| == |fronts|
    decreases |fronts|
  {
    if fronts != {} {
      var front :| front in fronts;
      var rest := fronts - {front};
      ExtendedCount(rest, last);
      assert fronts == rest + {front};
      assert Extended(fronts, last) == Extended(rest, last) + {front + [last]};
      forall other | other in rest
        ensures other + [last] != front + [last]
      {
        assert (other + [last])[..|other|] == other && (front + [last])[..|front|] == front;
      }
    }
  }

  ghost function Count(transmission: string, phase: string): nat {
    |Alignments(transmission, phase)|
  }

  lemma CountStep(transmission: string, phase: string)
    requires transmission != "" && phase != ""
    ensures
      var n := |transmission| - 1;
      Count(transmission, phase) == Count(transmission[..n], phase)
        + if transmission[n] == phase[|phase| - 1] then Count(transmission[..n], phase[..|phase| - 1]) else 0
  {
    var n := |transmission| - 1;
    var without, fronts := Alignments(transmission[..n], phase), Alignments(transmission[..n], phase[..|phase| - 1]);
    ExtendedCount(fronts, n);
    forall at | at in without
      ensures at !in Extended(fronts, n)
    {
      AlignmentsAreAll(transmission[..n], phase, at);
    }
    assert without !! Extended(fronts, n);
  }

  lemma RowStep(transmission: string, phase: string, read: nat, index: nat, above: int, diagonal: int)
    requires read < |transmission| && index < |phase|
    requires above == Count(transmission[..read], phase[..index + 1]) % MOD
    requires diagonal == Count(transmission[..read], phase[..index]) % MOD
    ensures Count(transmission[..read + 1], phase[..index + 1]) % MOD
            == if phase[index] == transmission[read] then (above + diagonal) % MOD else above
  {
    hide Count;
    CountStep(transmission[..read + 1], phase[..index + 1]);
    assert transmission[..read + 1][..read] == transmission[..read];
    assert phase[..index + 1][..index] == phase[..index];
  }

  lemma NoAlignmentLeft(phase: string)
    ensures Count("", phase) == if phase == "" then 1 else 0
    ensures forall transmission :: Count(transmission, "") == 1
  {
  }

  /** `ways[k]` counts the alignments of the phase's first k characters. */
  ghost predicate Row(ways: seq<int>, transmission: string, phase: string, low: nat, high: nat) {
    |ways| == |phase| + 1 && low <= high <= |ways|
    && forall k :: low <= k < high ==> ways[k] == Count(transmission, phase[..k]) % MOD
  }

  lemma FirstRow(ways: seq<int>, phase: string)
    requires |ways| == |phase| + 1 && ways[0] == 1 && forall k :: 1 <= k < |ways| ==> ways[k] == 0
    ensures Row(ways, "", phase, 0, |ways|)
  {
    forall k | 0 <= k < |ways|
      ensures ways[k] == Count("", phase[..k]) % MOD
    {
      NoAlignmentLeft(phase[..k]);
    }
  }

  lemma FirstColumn(ways: seq<int>, transmission: string, phase: string)
    requires |ways| == |phase| + 1 && ways[0] == 1
    ensures Row(ways, transmission, phase, 0, 1)
  {
    NoAlignmentLeft(phase);
    assert phase[..0] == "";
  }

  lemma RowUpdated(before: seq<int>, transmission: string, phase: string, read: nat, index: nat, v: int)
    requires read < |transmission| && index < |phase|
    requires Row(before, transmission[..read], phase, 0, index + 2)
    requires Row(before, transmission[..read + 1], phase, index + 2, |phase| + 1)
    requires v == if phase[index] == transmission[read] then (before[index + 1] + before[index]) % MOD
             else before[index + 1]
    ensures Row(before[index + 1 := v], transmission[..read], phase, 0, index + 1)
    ensures Row(before[index + 1 := v], transmission[..read + 1], phase, index + 1, |phase| + 1)
  {
    hide Count;
    RowStep(transmission, phase, read, index, before[index + 1], before[index]);
  }

  lemma NothingRead(ways: seq<int>, transmission: string, longer: string, phase: string)
    requires Row(ways, transmission, phase, 0, |phase| + 1)
    ensures |ways| == |phase| + 1 && Row(ways, longer, phase, |phase| + 1, |phase| + 1)
  {
  }

  /** One character read: the row is updated in place from right to left. */
  method ReadCharacter(ways: array<int>, transmission: string, phase: string, read: nat)
    requires read < |transmission|
    requires Row(ways[..], transmission[..read], phase, 0, |phase| + 1) && ways[0] == 1
    modifies ways
    ensures Row(ways[..], transmission[..read + 1], phase, 0, |phase| + 1) && ways[0] == 1
  {
    hide Row;
    var character := transmission[read];
    var index := |phase|;
    NothingRead(ways[..], transmission[..read], transmission[..read + 1], phase);
    while index > 0
      invariant 0 <= index <= |phase| && ways[0] == 1 && ways.Length == |phase| + 1
      invariant Row(ways[..], transmission[..read], phase, 0, index + 1)
      invariant Row(ways[..], transmission[..read + 1], phase, index + 1, |phase| + 1)
    {
      index := index - 1;
      ghost var before := ways[..];
      if phase[index] == character {
        ways[index + 1] := (ways[index + 1] + ways[index]) % MOD;
      }
      RowUpdated(before, transmission, phase, read, index, ways[index + 1]);
      assert ways[..] == before[index + 1 := ways[index + 1]];
    }
    FirstColumn(ways[..], transmission[..read + 1], phase);
    JoinRows(ways[..], transmission[..read + 1], phase);
  }

  lemma JoinRows(ways: seq<int>, transmission: string, phase: string)
    requires Row(ways, transmission, phase, 0, 1) && Row(ways, transmission, phase, 1, |phase| + 1)
    ensures Row(ways, transmission, phase, 0, |phase| + 1)
  {
  }

  /** The in-place, right-to-left update of one row computes the exact count modulo MOD. */
  method PhaseReference(transmission: string, phase: string) returns (r: int)
    ensures r == |Alignments(transmission, phase)| % 1_000_000_007
    ensures forall at :: at in Alignments(transmission, phase) <==> Aligns(transmission, phase, at)
  {
    var ways := new int[|phase| + 1](_ => 0);
    ways[0] := 1;
    FirstRow(ways[..], phase);
    assert transmission[..0] == "";
    for read := 0 to |transmission|
      invariant Row(ways[..], transmission[..read], phase, 0, |phase| + 1) && ways[0] == 1
    {
      ReadCharacter(ways, transmission, phase, read);
    }
    assert transmission[..|transmission|] == transmission && phase[..|phase|] == phase;
    forall at
      ensures at in Alignments(transmission, phase) <==> Aligns(transmission, phase, at)
    {
      AlignmentsAreAll(transmission, phase, at);
    }
    r := ways[|phase|];
  }
}
