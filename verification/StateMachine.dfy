/** src/server/domain/state-machine.ts */
module StateMachine {
  import opened Domain

  function Transitions(from: State): set<State> {
    match from
    case Lobby => {Countdown, Finished}
    case Countdown => {Active, Finished}
    case Active => {Judging, Finished}
    case Judging => {Finished}
    case Finished => {RematchPending}
    case RematchPending => {}
  }

  predicate CanTransition(from: State, to: State) {
    to in Transitions(from)
  }

  /** A match moves on one state at a time, or from anywhere before judging straight to its end. */
  lemma TransitionsExactly(from: State, to: State)
    ensures CanTransition(from, to)
            <==> (from, to) in {(Lobby, Countdown), (Lobby, Finished), (Countdown, Active), (Countdown, Finished),
                                (Active, Judging), (Active, Finished), (Judging, Finished), (Finished, RematchPending)}
  {
  }

  predicate ShouldApplyRecord(reason: EndReason) {
    reason in {Accepted, Forfeit, Judged, AnswerTimeout}
  }

  /** The reflexive, transitive closure of the table, bounded by its depth. */
  ghost predicate Reaches(from: State, to: State, steps: nat)
    decreases steps
  {
    from == to || (steps > 0 && exists mid :: CanTransition(from, mid) && Reaches(mid, to, steps - 1))
  }

  function Rank(s: State): nat {
    match s
    case Lobby => 0
    case Countdown => 1
    case Active => 2
    case Judging => 3
    case Finished => 4
    case RematchPending => 5
  }

  /** What the SQL query orders accepted submissions by. */
  datatype Candidate = Candidate(receivedAt: Time, runtime: int, sequence: int)

  predicate Before(a: Candidate, b: Candidate) {
    || a.receivedAt < b.receivedAt
    || (a.receivedAt == b.receivedAt && a.runtime < b.runtime)
    || (a.receivedAt == b.receivedAt && a.runtime == b.runtime && a.sequence < b.sequence)
  }

  /** Date.parse keeps milliseconds only. */
  function Milliseconds(t: Time): int {
    t / 1000
  }

  function CompareWinnerCandidates(left: Candidate, right: Candidate): int {
    var received := Milliseconds(left.receivedAt) - Milliseconds(right.receivedAt);
    if received != 0 then received
    else
      var runtime := left.runtime - right.runtime;
      if runtime != 0 then runtime else left.sequence - right.sequence
  }

  /** compareWinnerCandidates promises that an earlier receipt always wins. It does so exactly when the two
      receipts differ in a millisecond, are the same microsecond, or the tie-breakers happen to agree. */
  lemma ComparatorMatchesReceiptOrder(a: Candidate, b: Candidate)
    ensures (CompareWinnerCandidates(a, b) < 0 <==> Before(a, b)) <==>
              (|| Milliseconds(a.receivedAt) != Milliseconds(b.receivedAt)
               || a.receivedAt == b.receivedAt
               || (a.receivedAt < b.receivedAt <==>
                     a.runtime < b.runtime || (a.runtime == b.runtime && a.sequence < b.sequence)))
  {
    if a.receivedAt < b.receivedAt {
      assert Milliseconds(a.receivedAt) <= Milliseconds(b.receivedAt);
    }
    if b.receivedAt < a.receivedAt {
      assert Milliseconds(b.receivedAt) <= Milliseconds(a.receivedAt);
    }
  }

  /** Within one millisecond the later receipt can win. */
  lemma ComparatorCanPreferLaterReceipt()
    ensures
      var early, late := Candidate(1_000_000, 20, 1), Candidate(1_000_001, 10, 2);
      Before(early, late) && CompareWinnerCandidates(late, early) < 0
  {
    assert Milliseconds(1_000_001) == 1_000;
  }
}
