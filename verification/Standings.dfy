/** Player records and match life cycles over whole runs. */
module Standings {
  import opened Domain
  import opened MatchTypes
  import opened StateMachine
  import opened MatchInvariants
  import opened World
  import opened Ledger
  import opened WorldSafety
  import opened SafeRuns

  predicate Decisive(m: Match) {
    m.mode == Duel && m.winner.Some?
  }

  lemma ConsistentPlayers(s: Setting, w: World)
    requires WorldInv(s, w)
    ensures PlayersOk(w.profiles, w.matches, w.records)
  {
  }

  /** A player's wins are the decided duels they won, their losses the decided duels they played and did not win, and
      over all players the two add up to the same. */
  lemma RecordsCountDecidedDuels(s: Setting, w: World)
    requires Reachable(s, w)
    ensures w.records.Keys == w.profiles
    ensures forall u :: u in w.profiles ==>
              && w.records[u].wins == |set id | id in w.matches && Decisive(w.matches[id])
                 && w.matches[id].winner == Some(u)|
              && w.records[u].losses == |set id | id in w.matches && Decisive(w.matches[id])
                 && u in w.matches[id].participants
                                                  && w.matches[id].winner != Some(u)|
    ensures Total(Wins(w.records)) == Total(Losses(w.records))
  {
    hide WorldInv, MatchInv;
    ReachableIsConsistent(s, w);
    ConsistentPlayers(s, w);
    forall id | id in w.matches
      ensures w.matches[id].recordsApplied <==> Decisive(w.matches[id])
    {
      MatchHolds(s, w, id);
      AppliedIffDecisive(w.matches[id]);
    }
    forall u | u in w.profiles
      ensures WonBy(w.matches, u) == set id | id in w.matches && Decisive(w.matches[id])
              && w.matches[id].winner == Some(u)
      ensures LostBy(w.matches, u) == set id | id in w.matches && Decisive(w.matches[id])
              && u in w.matches[id].participants
                                                && w.matches[id].winner != Some(u)
    {
    }
  }

  lemma AppliedIffDecisive(m: Match)
    requires MatchInv(m)
    ensures m.recordsApplied <==> Decisive(m)
  {
  }

  /** Exactly which ended rounds count: no practice, and of the duels those ended by an acceptance, a forfeit or a
      judgment, and those ended at the answer deadline with some answer that is not blank. A duel that counts does so
      once for each of its two players, whose outcomes say which way. */
  lemma WhatCounts(s: Setting, w: World, id: MatchId)
    requires Reachable(s, w) && id in w.matches && w.matches[id].endReason.Some?
    ensures
      var m, reason := w.matches[id], w.matches[id].endReason.value;
      && (m.mode == Practice || reason in {Cancelled, NoContest, JudgeFailed} ==> !m.recordsApplied)
      && (m.mode == Duel && reason in {Accepted, Forfeit, EndReason.Judged} ==> m.recordsApplied)
      && (m.mode == Duel && reason == AnswerTimeout ==>
            (m.recordsApplied <==> exists u :: u in m.answers && m.answers[u].text != ""))
      && (m.recordsApplied ==>
            && |m.participants| == 2
            && (forall u :: u in m.participants ==>
                  && (Won(m, u) <==> m.participants[u].outcome == Some(Win))
                  && (Lost(m, u) <==> m.participants[u].outcome == Some(Loss)))
            && exists u :: u in m.participants && Won(m, u))
  {
    hide WorldInv;
    ReachableIsConsistent(s, w);
    MatchHolds(s, w, id);
    CountedRound(w.matches[id]);
  }

  lemma CountedRound(m: Match)
    requires MatchInv(m) && m.endReason.Some?
    ensures m.recordsApplied <==> m.mode == Duel && EndingDecides(m.endReason.value, m.answers)
    ensures m.recordsApplied ==>
              && |m.participants| == 2
              && (forall u :: u in m.participants ==>
                    && (Won(m, u) <==> m.participants[u].outcome == Some(Win))
                    && (Lost(m, u) <==> m.participants[u].outcome == Some(Loss)))
              && exists u :: u in m.participants && Won(m, u)
  {
    hide EventsOk, LifecycleOk, ExecutionsOk, InflightOk, WinnerOk, EvaluationOk, VotesOk, AnswersOk, EndingDecides;
    if m.recordsApplied {
      assert Won(m, m.winner.value);
    }
  }

  // ----- life cycle

  lemma {:induction false} PathsFollowRank(from: State, to: State, steps: nat)
    requires Reaches(from, to, steps)
    ensures Rank(from) <= Rank(to)
    decreases steps
  {
    if from != to {
      var mid :| CanTransition(from, mid) && Reaches(mid, to, steps - 1);
      PathsFollowRank(mid, to, steps - 1);
    }
  }

  lemma RankHasPath(from: State, to: State)
    requires Rank(from) <= Rank(to)
    ensures Reaches(from, to, Rank(to) - Rank(from))
    decreases Rank(to) - Rank(from)
  {
    if from != to {
      var mid := match from case Lobby => Countdown case Countdown => Active case Active => Judging
                            case Judging => Finished case _ => RematchPending;
      RankHasPath(mid, to);
      assert CanTransition(from, mid);
    }
  }

  /** Over any run a match's state only ever follows paths of the transition table, and its event log only grows, its
      versions counting 1, 2, 3 ... and its timestamps strictly increasing whatever the clocks read. */
  lemma MatchesMoveForward(s: Setting, w: World, steps: seq<Step>, id: MatchId)
    requires Reachable(s, w) && id in w.matches
    ensures
      var after := After(s, w, steps);
      && id in after.matches
      && (exists n :: Reaches(w.matches[id].state, after.matches[id].state, n))
      && w.matches[id].events <= after.matches[id].events
      && EventsOk(after.matches[id].version, after.matches[id].events)
  {
    hide WorldInv, Reaches;
    ReachableIsConsistent(s, w);
    RunSafe(s, w, steps);
    var after := After(s, w, steps);
    MatchHolds(s, after, id);
    RankHasPath(w.matches[id].state, after.matches[id].state);
  }
}
