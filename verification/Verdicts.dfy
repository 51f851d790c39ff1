/** What a worker's report makes of its match, over the columns, and what every stored verdict is worth. */
module Verdicts {
  import opened Domain
  import opened MatchTypes
  import opened ArenaRules
  import opened MatchInvariants
  import opened MatchSafety
  import opened ArenaSafety
  import opened World
  import opened WorldSafety
  import opened SafeRuns
  import opened StepEffects
  import opened Judging
  import opened Columns
  import DuelScoring

  // ----- failures

  /** A round the judge could not decide: nobody wins, and nothing is recorded. */
  predicate EndedUndecided(c: Config, m: Match, n: Match, now: Time) {
    && n.state == (if m.mode == Duel then RematchPending else Finished)
    && n.rematchDeadline == (if m.mode == Duel then Some(now + c.rematchWindow) else None)
    && n.endReason == Some(JudgeFailed) && n.winner.None? && !n.recordsApplied && n.finishedAt == Some(now)
    && n.participants.Keys == m.participants.Keys
    && forall u :: u in n.participants ==> n.participants[u].outcome == Some(OutNoContest)
  }

  lemma FailureRule(c: Config, m: Match, claim: nat, since: Time, retryable: bool, budgetOpen: bool, now: Time)
    requires m.state == State.Judging && m.evaluation.Some? && m.evaluation.value.status == InProgress(claim, since)
    requires m.rematchDeadline.None?
    ensures
      var n := PersistFailure(c, m, claim, retryable, budgetOpen, now);
      if retryable then
        && n.state == State.Judging && n.participants == m.participants && n.winner == m.winner
        && n.evaluation == Some(m.evaluation.value.(
                                status := Failed(true, Some(now + if budgetOpen then c.budgetRecovery
                                                                  else c.judgeRecovery))))
      else
        && n.evaluation == Some(m.evaluation.value.(status := Failed(false, None)))
        && EndedUndecided(c, m, n, now)
  {
    hide EventTime;
  }

  lemma JudgingHasNoWindow(c: Config, m: Match)
    requires ColumnsOk(c, m) && m.state == State.Judging
    ensures m.rematchDeadline.None?
  {
  }

  /** A failure reported under the held claim pauses the evaluation - longer if the request budget is spent - or, when
      it cannot be retried, ends the round undecided. While it pauses nobody is handed the evaluation; from then on the
      first to ask is. */
  lemma FailureReported(s: Setting, w: World, id: MatchId, claim: nat, since: Time, retryable: bool, budgetOpen: bool,
                        now: Time, later: Time)
    requires Reachable(s, w) && Leased(w, id, claim, since)
    ensures
      var after := Exec(s, w, Fail(id, claim, retryable, budgetOpen, now)).0;
      var pause := if budgetOpen then s.config.budgetRecovery else s.config.judgeRecovery;
      && id in after.matches
      && (if retryable then
            && after.matches[id].state == State.Judging
            && (if later < now + pause then Exec(s, after, Claim(id, later)).0 == after
                else Leased(Exec(s, after, Claim(id, later)).0, id, claim + 1, later))
          else
            && EndedUndecided(s.config, w.matches[id], after.matches[id], now)
            && Exec(s, after, Claim(id, later)).0 == after)
  {
    hide WorldInv, MatchInv, ColumnsOk, Exec, PersistFailure, EndedUndecided;
    ReachableIsConsistent(s, w);
    ReachableColumns(s, w, id);
    JudgingHasNoWindow(s.config, w.matches[id]);
    FailureRule(s.config, w.matches[id], claim, since, retryable, budgetOpen, now);
    FailIs(s, w, id, claim, retryable, budgetOpen, now);
    StepSafe(s, w, Fail(id, claim, retryable, budgetOpen, now));
    LeasedIsNumbered(s, w, id, claim, since);
    var after := Exec(s, w, Fail(id, claim, retryable, budgetOpen, now)).0;
    MatchHolds(s, after, id);
    JudgingIsLive(after.matches[id]);
    ClaimsFree(s, after, id, later);
    if !retryable {
      UndecidedIsOver(s.config, w.matches[id], after.matches[id], now);
    }
  }

  lemma UndecidedIsOver(c: Config, m: Match, n: Match, now: Time)
    requires EndedUndecided(c, m, n, now)
    ensures n.state != State.Judging
  {
  }

  lemma FailIs(s: Setting, w: World, id: MatchId, claim: nat, retryable: bool, budgetOpen: bool, now: Time)
    requires id in w.matches
    ensures
      var after := Exec(s, w, Fail(id, claim, retryable, budgetOpen, now)).0;
      && id in after.matches
      && after.matches[id] == PersistFailure(s.config, w.matches[id], claim, retryable, budgetOpen, now)
  {
    hide PersistFailure, Recorded;
  }

  // ----- verdicts

  /** A judged duel: the named player wins, the other loses, and the rematch window opens. */
  lemma DuelReported(c: Config, m: Match, claim: nat, o: DuelScoring.DuelOutput, now: Time)
    requires MatchInv(m) && ColumnsOk(c, m) && HoldsClaim(m, claim)
    requires DuelScoring.ValidateDuel(m.evaluation.value.snapshot, o).Valid?
    ensures m.evaluation.value.userB.Some?
    ensures
      var e := m.evaluation.value;
      var r := PersistSuccess(c, m, claim, DuelScoring.ValidateDuel(e.snapshot, o).value, now);
      var winner := if o.winner == DuelScoring.A then e.userA else e.userB.value;
      && r.Ok? && r.value.state == RematchPending && r.value.rematchDeadline == Some(now + c.rematchWindow)
      && r.value.finishedAt == Some(now) && r.value.winner == Some(winner)
      && m.participants.Keys == {e.userA, e.userB.value} && r.value.participants.Keys == m.participants.Keys
      && forall u :: u in r.value.participants ==>
           r.value.participants[u].outcome == Some(if u == winner then Win else Loss)
  {
    hide MatchInv, ColumnsOk, PersistSuccess, DuelScoring.ValidateDuel;
    ValidatedDuelConcludes(c, m, claim, o, now);
    HeldIsDuel(m, claim, o);
    var result := DuelScoring.ValidateDuel(m.evaluation.value.snapshot, o).value;
    var n := PersistSuccess(c, m, claim, result, now).value;
    SuccessColumns(c, m, claim, result, now);
    PersistSuccessKeeps(c, m, claim, result, now);
    ConcludedDuel(c, m, n, claim, now);
    ReportedAt(c, m, claim, result, now);
  }

  lemma HeldIsDuel(m: Match, claim: nat, o: DuelScoring.DuelOutput)
    requires MatchInv(m) && HoldsClaim(m, claim)
    requires DuelScoring.ValidateDuel(m.evaluation.value.snapshot, o).Valid?
    ensures m.mode == Duel && m.evaluation.value.userB.Some?
    ensures m.participants.Keys == {m.evaluation.value.userA, m.evaluation.value.userB.value}
  {
    DuelValidates(m.evaluation.value.snapshot, o);
    HeldSnapshot(m, claim);
    JudgedSnapshot(m);
    JudgingIsFull(m);
    hide MatchInv, DuelScoring.ValidateDuel;
    var e := m.evaluation.value;
    assert |m.participants.Keys| == 2;
    TwoPlayers(m.participants.Keys, e.userA, e.userB.value);
  }

  lemma TwoPlayers(players: set<UserId>, a: UserId, b: UserId)
    requires |players| == 2 && a in players && b in players && a != b
    ensures players == {a, b}
  {
    assert |players - {a, b}| == 0;
  }

  lemma ReportedAt(c: Config, m: Match, claim: nat, result: DuelScoring.JudgeResult, now: Time)
    requires HoldsClaim(m, claim) && PersistSuccess(c, m, claim, result, now).Ok?
    ensures PersistSuccess(c, m, claim, result, now).value.finishedAt == Some(now)
    ensures PersistSuccess(c, m, claim, result, now).value.mode == m.mode
  {
    hide CompletionCheck, JudgedOutcomes, DuelScoring.AdjustForStorage, EventTime, TimedOut;
  }

  lemma ConcludedDuel(c: Config, m: Match, n: Match, claim: nat, now: Time)
    requires MatchInv(n) && ColumnsOk(c, n) && Evolves(m, n) && m.mode == Duel && Terminal(n.state) && n.recordsApplied
    requires n.winner.Some? && n.endReason.Some? && n.endReason.value in {EndReason.Judged, AnswerTimeout}
    ensures n.state == RematchPending && n.finishedAt.Some? && n.participants.Keys == m.participants.Keys
    ensures n.rematchDeadline == Some(n.finishedAt.value + c.rematchWindow)
    ensures forall u :: u in n.participants ==>
              n.participants[u].outcome == Some(if n.winner == Some(u) then Win else Loss)
  {
    hide EventsOk, ExecutionsOk, InflightOk, WinnerOk, EvaluationOk, VotesOk, DecidedOk, AnswersOk;
  }

  /** What every stored verdict is worth, in any reachable state: whole-percent scores; in a duel a winner strictly
      ahead who is the player behind the better label, and a blank answer that scored nothing and lost for being blank;
      in practice a score for something written. */
  lemma StoredVerdictsAreSound(s: Setting, w: World, id: MatchId)
    requires Reachable(s, w) && id in w.matches
    requires w.matches[id].evaluation.Some? && w.matches[id].evaluation.value.status.Concluded?
    ensures w.matches[id].evaluation.value.verdict.Some?
    ensures
      var m := w.matches[id];
      var e := m.evaluation.value;
      var v := e.verdict.value;
      && 0 <= v.rawA <= 100 && 0 <= v.officialA <= 100 && e.userA in m.answers
      && if m.mode == Practice then
           && v.rawB.None? && v.officialB.None? && v.officialA == v.rawA && v.reason == DuelScoring.NoTie
           && m.winner.None? && m.answers[e.userA].text != ""
         else
           && v.rawB.Some? && v.officialB.Some? && 0 <= v.rawB.value <= 100 && 0 <= v.officialB.value <= 100
           && e.userB.Some? && e.userB.value in m.answers && v.officialA != v.officialB.value
           && m.winner == Some(if v.officialA > v.officialB.value then e.userA else e.userB.value)
           && !(m.answers[e.userA].text == "" && m.answers[e.userB.value].text == "")
           && (v.reason == DuelScoring.BlankForfeit <==>
                 m.answers[e.userA].text == "" || m.answers[e.userB.value].text == "")
           && (m.answers[e.userA].text == "" ==> v.rawA == 0 && m.winner == e.userB)
           && (m.answers[e.userB.value].text == "" ==> v.rawB.value == 0 && m.winner == Some(e.userA))
  {
    hide WorldInv;
    ReachableIsConsistent(s, w);
    MatchHolds(s, w, id);
    hide EventsOk, LifecycleOk, ExecutionsOk, InflightOk, WinnerOk, RecordsOk, VotesOk, DecidedOk, AnswersOk;
  }
}
