/** Judge workers against the match they judge: lockstep, fencing, termination of recovery, and that a validated
    verdict is always storable. */
module Judging {
  import opened Domain
  import opened MatchTypes
  import opened ArenaRules
  import opened MatchInvariants
  import opened World
  import opened WorldSafety
  import opened Rotation
  import opened SafeRuns
  import opened StepEffects
  import DuelScoring

  // ----- lockstep

  predicate Absorbed(e: Evaluation) {
    e.status.Concluded? || e.status.Skipped? || (e.status.Failed? && !e.status.retryable)
  }

  lemma JudgingIsLive(m: Match)
    requires MatchInv(m)
    ensures m.state == State.Judging <==> m.evaluation.Some? && LiveEvaluation(m.evaluation.value)
    ensures m.evaluation.Some? && !LiveEvaluation(m.evaluation.value) ==> Terminal(m.state)
  {
    hide EventsOk, LifecycleOk, ExecutionsOk, InflightOk, WinnerOk, RecordsOk, VotesOk, DecidedOk, AnswersOk,
      SnapshotOk, StatusOk;
  }

  /** JUDGING exactly while the evaluation is pending, claimed or retryable; and every other evaluation is absorbed. */
  lemma JudgingIffLive(s: Setting, w: World, id: MatchId)
    requires Reachable(s, w) && id in w.matches
    ensures
      var m := w.matches[id];
      && (m.state == State.Judging <==> m.evaluation.Some? && LiveEvaluation(m.evaluation.value))
      && (m.evaluation.Some? ==> (LiveEvaluation(m.evaluation.value) <==> !Absorbed(m.evaluation.value)))
      && (m.evaluation.Some? && Absorbed(m.evaluation.value) ==> Terminal(m.state))
  {
    hide WorldInv, MatchInv;
    ReachableIsConsistent(s, w);
    MatchHolds(s, w, id);
    JudgingIsLive(w.matches[id]);
  }

  /** Absorbing: no later step rewrites a concluded, skipped or permanently failed evaluation, or its match's result. */
  lemma AbsorbedForever(s: Setting, w: World, id: MatchId, steps: seq<Step>)
    requires Reachable(s, w) && id in w.matches
    requires w.matches[id].evaluation.Some? && Absorbed(w.matches[id].evaluation.value)
    ensures
      var m, after := w.matches[id], After(s, w, steps);
      && id in after.matches
      && after.matches[id].evaluation == m.evaluation && after.matches[id].state == m.state
      && after.matches[id].winner == m.winner && after.matches[id].endReason == m.endReason
  {
    hide WorldInv, MatchInv;
    ReachableIsConsistent(s, w);
    RunSafe(s, w, steps);
    JudgingIffLive(s, w, id);
  }

  // ----- fencing

  predicate Superseded(m: Match, claim: nat) {
    m.evaluation.Some? && claim < m.evaluation.value.claims
  }

  lemma SupersededHoldsNothing(m: Match, claim: nat)
    requires MatchInv(m) && Superseded(m, claim)
    ensures !HoldsClaim(m, claim)
  {
  }

  lemma FencedOut(c: Config, m: Match, claim: nat, retryable: bool, budgetOpen: bool, judged: DuelScoring.JudgeResult,
                  now: Time)
    requires !HoldsClaim(m, claim)
    ensures PersistFailure(c, m, claim, retryable, budgetOpen, now) == m
    ensures var r := PersistSuccess(c, m, claim, judged, now); r.Ok? ==> r.value == m
  {
  }

  predicate Reports(step: Step, id: MatchId, claim: nat) {
    (step.Fail? || step.Succeed?) && step.id == id && step.claim == claim
  }

  lemma CommitSame(w: World, id: MatchId)
    requires id in w.matches
    ensures Commit(w, id, w.matches[id]) == w
  {
    assert w.matches[id := w.matches[id]] == w.matches;
  }

  lemma FencedStep(s: Setting, w: World, step: Step, claim: nat)
    requires (step.Fail? || step.Succeed?) && step.claim == claim && step.id in w.matches
    requires !HoldsClaim(w.matches[step.id], claim)
    ensures Exec(s, w, step).0 == w
  {
    hide PersistFailure, PersistSuccess, Commit;
    CommitSame(w, step.id);
    if step.Fail? {
      var any: DuelScoring.JudgeResult := DuelScoring.JudgeResult(0, None, 0, None, None, DuelScoring.NoTie);
      FencedOut(s.config, w.matches[step.id], claim, step.retryable, step.budgetOpen, any, step.now);
    } else {
      FencedOut(s.config, w.matches[step.id], claim, true, true, step.judged, step.now);
    }
  }

  /** A claim number that was handed out, whether or not it still holds. */
  predicate Issued(m: Match, claim: nat) {
    m.evaluation.Some? && claim <= m.evaluation.value.claims
  }

  /** A claim that was handed out and no longer holds never holds again. */
  lemma SpentStays(m: Match, n: Match, claim: nat)
    requires MatchInv(m) && MatchInv(n) && Grows(m, n) && Issued(m, claim) && !HoldsClaim(m, claim)
    ensures Issued(n, claim) && !HoldsClaim(n, claim)
  {
    hide EventsOk, LifecycleOk, ExecutionsOk, InflightOk, WinnerOk, RecordsOk, VotesOk, SnapshotOk;
  }

  /** A report under a claim that no longer holds - spent or superseded - changes no table, in any later state. */
  lemma SpentReportsAreNoOps(s: Setting, w: World, id: MatchId, claim: nat, steps: seq<Step>, report: Step)
    requires CatalogOk(s) && WorldInv(s, w) && id in w.matches && Reports(report, id, claim)
    requires Issued(w.matches[id], claim) && !HoldsClaim(w.matches[id], claim)
    ensures Exec(s, After(s, w, steps), report).0 == After(s, w, steps)
  {
    hide WorldInv, MatchInv, Exec, Grows, HoldsClaim;
    RunSafe(s, w, steps);
    var after := After(s, w, steps);
    MatchHolds(s, w, id);
    MatchHolds(s, after, id);
    SpentStays(w.matches[id], after.matches[id], claim);
    FencedStep(s, after, report, claim);
  }

  /** Once a worker's claim is superseded, its report changes nothing - in no later state of any run. */
  lemma StaleReportsAreNoOps(s: Setting, w: World, id: MatchId, claim: nat, steps: seq<Step>, report: Step)
    requires Reachable(s, w) && id in w.matches && Superseded(w.matches[id], claim) && Reports(report, id, claim)
    ensures Exec(s, After(s, w, steps), report).0 == After(s, w, steps)
  {
    hide WorldInv, MatchInv, Exec;
    ReachableIsConsistent(s, w);
    MatchHolds(s, w, id);
    SupersededHoldsNothing(w.matches[id], claim);
    SpentReportsAreNoOps(s, w, id, claim, steps, report);
  }

  /** A report that takes effect was made under the current claim and ends it. */
  lemma ReportSpendsClaim(s: Setting, w: World, id: MatchId, claim: nat, report: Step)
    requires Reports(report, id, claim) && Exec(s, w, report).0 != w
    ensures
      var after := Exec(s, w, report).0;
      && id in w.matches
      && HoldsClaim(w.matches[id], claim) && id in after.matches && !HoldsClaim(after.matches[id], claim)
  {
    if !HoldsClaim(w.matches[id], claim) {
      FencedStep(s, w, report, claim);
    }
  }

  /** The reports of a run, of success or failure, that took effect under a given claim. */
  ghost function Effects(s: Setting, w: World, steps: seq<Step>, id: MatchId, claim: nat): nat
    decreases |steps|
  {
    if steps == [] then 0
    else
      var next := Exec(s, w, steps[0]).0;
      (if Reports(steps[0], id, claim) && next != w then 1 else 0) + Effects(s, next, steps[1..], id, claim)
  }

  lemma StepKeepsSpent(s: Setting, w: World, step: Step, id: MatchId, claim: nat)
    requires CatalogOk(s) && WorldInv(s, w) && id in w.matches && Issued(w.matches[id], claim)
    ensures
      var next := Exec(s, w, step).0;
      && id in next.matches && Issued(next.matches[id], claim)
      && (!HoldsClaim(w.matches[id], claim) ==> !HoldsClaim(next.matches[id], claim))
  {
    hide WorldInv, MatchInv, Exec, HoldsClaim;
    StepSafe(s, w, step);
    var next := Exec(s, w, step).0;
    MatchHolds(s, w, id);
    MatchHolds(s, next, id);
    if !HoldsClaim(w.matches[id], claim) {
      SpentStays(w.matches[id], next.matches[id], claim);
    }
  }

  /** Workers may repeat and contradict themselves at will: over any run, at most one report takes effect under each
      claim, and none once the claim is spent or superseded. */
  lemma {:induction false} EachClaimTakesEffectOnce(s: Setting, w: World, steps: seq<Step>, id: MatchId, claim: nat)
    requires CatalogOk(s) && WorldInv(s, w)
    ensures Effects(s, w, steps, id, claim) <= 1
    ensures id in w.matches && Issued(w.matches[id], claim) && !HoldsClaim(w.matches[id], claim) ==>
              Effects(s, w, steps, id, claim) == 0
    decreases |steps|
  {
    hide WorldInv, CatalogOk, Exec, HoldsClaim, WorldGrows;
    if steps != [] {
      var next := Exec(s, w, steps[0]).0;
      StepSafe(s, w, steps[0]);
      EachClaimTakesEffectOnce(s, next, steps[1..], id, claim);
      if id in w.matches {
        if Reports(steps[0], id, claim) && next != w {
          ReportSpendsClaim(s, w, id, claim, steps[0]);
          HeldIsIssued(s, w, id, claim);
        }
        if Issued(w.matches[id], claim) {
          StepKeepsSpent(s, w, steps[0], id, claim);
        }
      } else if Reports(steps[0], id, claim) {
        UnknownMatchIsRefused(s, w, steps[0]);
      }
    }
  }

  lemma HeldIsIssued(s: Setting, w: World, id: MatchId, claim: nat)
    requires WorldInv(s, w) && id in w.matches && HoldsClaim(w.matches[id], claim)
    ensures Issued(w.matches[id], claim)
  {
    hide WorldInv;
    MatchHolds(s, w, id);
  }

  lemma UnknownMatchIsRefused(s: Setting, w: World, step: Step)
    requires (step.Fail? || step.Succeed?) && step.id !in w.matches
    ensures Exec(s, w, step).0 == w
  {
  }

  /** A claimed evaluation is fenced by the newest claim number. */
  lemma ClaimFences(c: Config, m: Match, now: Time, earlier: nat)
    requires MatchInv(m) && ClaimEvaluation(c, m, now).Some?
    requires earlier <= m.evaluation.value.claims
    ensures
      var n := ClaimEvaluation(c, m, now).value;
      && Superseded(n, earlier) && HoldsClaim(n, n.evaluation.value.claims)
      && n.evaluation.value.claims == m.evaluation.value.claims + 1
  {
  }

  // ----- the lease

  /** When an evaluation may be handed to a worker: it waits, its worker has been silent for the whole lease, or it
      failed, may be tried again, and the pause is over. */
  predicate FreeAt(c: Config, status: EvaluationStatus, now: Time) {
    || status.Pending?
    || (status.InProgress? && status.claimedAt + c.staleClaim <= now)
    || (status.Failed? && status.retryable && (status.retryNotBefore.Some? ==> status.retryNotBefore.value <= now))
  }

  /** The tables after a claim is handed out: one evaluation row has the next claim number and this clock reading. */
  function HandedOut(w: World, id: MatchId, now: Time): World
    requires id in w.matches && w.matches[id].evaluation.Some?
  {
    var m := w.matches[id];
    var e := m.evaluation.value;
    w.(matches := w.matches[id := m.(evaluation := Some(
                                       Evaluation(e.snapshot, e.userA, e.userB, e.claims + 1,
                                                  InProgress(e.claims + 1, now), e.verdict, e.winner)))])
  }

  /** In any reachable state a worker is handed an evaluation exactly when its match is being judged and the evaluation
      is free; otherwise no table changes. */
  lemma ClaimsExactlyWhen(s: Setting, w: World, id: MatchId, now: Time)
    requires Reachable(s, w) && id in w.matches
    ensures w.matches[id].state == State.Judging ==> w.matches[id].evaluation.Some?
    ensures
      var after := Exec(s, w, Claim(id, now)).0;
      if w.matches[id].state == State.Judging && FreeAt(s.config, w.matches[id].evaluation.value.status, now)
      then after == HandedOut(w, id, now) && after != w
      else after == w
  {
    hide WorldInv, MatchInv;
    JudgingIffLive(s, w, id);
    ClaimsFree(s, w, id, now);
  }

  lemma ClaimsFree(s: Setting, w: World, id: MatchId, now: Time)
    requires id in w.matches
    requires w.matches[id].state == State.Judging
             <==> w.matches[id].evaluation.Some? && LiveEvaluation(w.matches[id].evaluation.value)
    ensures
      var after := Exec(s, w, Claim(id, now)).0;
      if w.matches[id].state == State.Judging && FreeAt(s.config, w.matches[id].evaluation.value.status, now)
      then after == HandedOut(w, id, now) && after.matches[id].evaluation != w.matches[id].evaluation
      else after == w
  {
    CommitSame(w, id);
  }

  /** The claim a worker holds, and since when. */
  predicate Leased(w: World, id: MatchId, claim: nat, since: Time) {
    && id in w.matches && w.matches[id].state == State.Judging && w.matches[id].evaluation.Some?
    && w.matches[id].evaluation.value.status == InProgress(claim, since)
  }

  /** The worker has not reported, and whoever asks for the evaluation asks before the lease is over. */
  predicate WithinLease(c: Config, steps: seq<Step>, id: MatchId, claim: nat, since: Time) {
    forall i :: 0 <= i < |steps| ==>
      && !Reports(steps[i], id, claim)
      && (steps[i].Claim? && steps[i].id == id ==> steps[i].now < since + c.staleClaim)
  }

  lemma RulesKeepLease(s: Setting, m: Match, step: Step, n: Match, claim: nat, since: Time)
    requires m.state == State.Judging && m.evaluation.Some? && m.evaluation.value.status == InProgress(claim, since)
    requires Produces(BackgroundRule(s, m, step), n) && !Reports(step, step.id, claim)
    requires step.Claim? ==> step.now < since + s.config.staleClaim
    ensures n.state == m.state && n.evaluation == m.evaluation
  {
    hide Conclude, DuelScoring.AdjustForStorage, CompletionCheck, Resulted;
  }

  lemma StepKeepsLease(s: Setting, w: World, step: Step, id: MatchId, claim: nat, since: Time)
    requires CatalogOk(s) && WorldInv(s, w) && Leased(w, id, claim, since) && !Reports(step, id, claim)
    requires step.Claim? && step.id == id ==> step.now < since + s.config.staleClaim
    ensures Leased(Exec(s, w, step).0, id, claim, since)
  {
    hide WorldInv, CatalogOk, Exec, MatchStep, BackgroundRule, CommandRule, CommandProduces, Produces;
    ConsistentIds(s, w);
    if !OnMatch(step) || step.Rematch? || step.id !in w.matches {
      OtherStepsKeepStates(s, w, step);
    } else {
      ExecIsMatchStep(s, w, step);
      StepRewritesOneMatch(s, w, step);
      if id == step.id && Exec(s, w, step).0.matches != w.matches {
        var n :| (Produces(BackgroundRule(s, w.matches[id], step), n) || CommandProduces(s, w, step, n))
                 && Exec(s, w, step).0.matches == w.matches[id := n];
        if Produces(BackgroundRule(s, w.matches[id], step), n) {
          RulesKeepLease(s, w.matches[id], step, n, claim, since);
        } else {
          CommandsRefuseJudging(s, w, step, n);
        }
      }
    }
  }

  /** A claim handed out at `since` and not reported on is held through any run in which nobody asks for the evaluation
      later than the lease allows - so every such request on the way comes back empty. */
  lemma {:induction false} LeaseHolds(s: Setting, w: World, steps: seq<Step>, id: MatchId, claim: nat, since: Time)
    requires CatalogOk(s) && WorldInv(s, w) && Leased(w, id, claim, since)
    requires WithinLease(s.config, steps, id, claim, since)
    ensures Leased(After(s, w, steps), id, claim, since)
    decreases |steps|
  {
    hide WorldInv, CatalogOk, Exec, WorldGrows, Leased;
    if steps != [] {
      var next := Exec(s, w, steps[0]).0;
      StepSafe(s, w, steps[0]);
      StepKeepsLease(s, w, steps[0], id, claim, since);
      assert forall i :: 0 <= i < |steps[1..]| ==> steps[1..][i] == steps[i + 1];
      LeaseHolds(s, next, steps[1..], id, claim, since);
    }
  }

  /** The lease over runs: while the worker that was handed a claim at time t stays silent, no request before the end of
      its lease changes any table, and the first one from then on takes the evaluation over. */
  lemma LeaseProtectsWorker(s: Setting, w: World, id: MatchId, t: Time, steps: seq<Step>, now: Time)
    requires Reachable(s, w) && id in w.matches && Exec(s, w, Claim(id, t)).0 != w
    ensures w.matches[id].evaluation.Some?
    ensures
      var claim := w.matches[id].evaluation.value.claims + 1;
      var after := After(s, Exec(s, w, Claim(id, t)).0, steps);
      WithinLease(s.config, steps, id, claim, t) ==>
        && Leased(after, id, claim, t)
        && (now < t + s.config.staleClaim ==> Exec(s, after, Claim(id, now)).0 == after)
        && (now >= t + s.config.staleClaim ==> Leased(Exec(s, after, Claim(id, now)).0, id, claim + 1, now))
  {
    hide WorldInv, CatalogOk, MatchInv, Exec;
    ReachableIsConsistent(s, w);
    ClaimsExactlyWhen(s, w, id, t);
    var first := Exec(s, w, Claim(id, t)).0;
    StepSafe(s, w, Claim(id, t));
    var claim := w.matches[id].evaluation.value.claims + 1;
    if WithinLease(s.config, steps, id, claim, t) {
      LeaseHolds(s, first, steps, id, claim, t);
      var after := After(s, first, steps);
      RunSafe(s, first, steps);
      LeasedIsNumbered(s, after, id, claim, t);
      ClaimsFree(s, after, id, now);
    }
  }

  lemma LeasedIsNumbered(s: Setting, w: World, id: MatchId, claim: nat, since: Time)
    requires WorldInv(s, w) && Leased(w, id, claim, since)
    ensures w.matches[id].evaluation.value.claims == claim
  {
    hide WorldInv;
    MatchHolds(s, w, id);
  }

  // ----- recovery

  function ClaimableFrom(c: Config, e: Evaluation): Time {
    match e.status
    case InProgress(_, claimedAt) => claimedAt + c.staleClaim
    case Failed(_, notBefore) => if notBefore.Some? then notBefore.value else 0
    case _ => 0
  }

  /** From a computable time on, a judging match that stays as it is can be claimed. */
  lemma EveryJudgingMatchBecomesClaimable(s: Setting, w: World, id: MatchId, now: Time)
    requires Reachable(s, w) && id in w.matches && w.matches[id].state == State.Judging
    ensures w.matches[id].evaluation.Some?
    ensures now >= ClaimableFrom(s.config, w.matches[id].evaluation.value) ==>
            ClaimEvaluation(s.config, w.matches[id], now).Some?
  {
    JudgingIffLive(s, w, id);
  }

  /** The recovery sweep leaves failed evaluations to the players: from that time on any participant's retry, under a
      fresh key, is admitted, and the claim that follows succeeds. Before it, or on any other status, it is refused. */
  lemma RetryReopensFailure(s: Setting, w: World, id: MatchId, actor: UserId, key: string, now: Time)
    requires Reachable(s, w) && id in w.matches && w.matches[id].state == State.Judging
    requires actor in w.matches[id].participants && KeyOk(key) && CommandKey(actor, key) !in w.receipts
    ensures w.matches[id].evaluation.Some?
    ensures
      var e := w.matches[id].evaluation.value;
      var (after, reply) := Exec(s, w, Retry(actor, key, id, now));
      && after.matches == w.matches
      && (reply.Applied? <==>
            e.status.Failed? && (e.status.retryNotBefore.Some? ==> e.status.retryNotBefore.value <= now))
      && (reply.Applied? ==> ClaimEvaluation(s.config, after.matches[id], now).Some?)
  {
    hide MatchInv;
    JudgingIffLive(s, w, id);
    JudgedIsArena(s, w, id);
    CommitSame(w, id);
  }

  lemma JudgedIsArena(s: Setting, w: World, id: MatchId)
    requires Reachable(s, w) && id in w.matches && w.matches[id].evaluation.Some?
    ensures
      var e := w.matches[id].evaluation.value;
      && w.matches[id].challenge == AiMl
      && (e.status.Failed? ==> e.status.retryable == e.status.retryNotBefore.Some?)
  {
    hide WorldInv;
    ReachableIsConsistent(s, w);
    MatchHolds(s, w, id);
  }

  /** Nothing but a report under the held claim takes a match out of judging. */
  lemma OnlyReportsEndJudging(s: Setting, w: World, step: Step, id: MatchId)
    requires Reachable(s, w) && id in w.matches && w.matches[id].state == State.Judging
    ensures
      var after := Exec(s, w, step).0;
      && id in after.matches
      && (after.matches[id].state != State.Judging ==>
            exists claim :: Reports(step, id, claim) && HoldsClaim(w.matches[id], claim))
  {
    hide WorldInv, MatchInv, Exec, MatchStep, BackgroundRule, CommandRule, CommandProduces, Produces, HoldsClaim;
    ReachableIsConsistent(s, w);
    StepSafe(s, w, step);
    ConsistentIds(s, w);
    if !OnMatch(step) || step.Rematch? || step.id !in w.matches {
      OtherStepsKeepStates(s, w, step);
    } else {
      ExecIsMatchStep(s, w, step);
      StepRewritesOneMatch(s, w, step);
      if id == step.id && Exec(s, w, step).0.matches != w.matches {
        var n :| (Produces(BackgroundRule(s, w.matches[id], step), n) || CommandProduces(s, w, step, n))
                 && Exec(s, w, step).0.matches == w.matches[id := n];
        if Produces(BackgroundRule(s, w.matches[id], step), n) {
          BackgroundKeepsJudging(s, w.matches[id], step, n);
        } else {
          CommandsRefuseJudging(s, w, step, n);
        }
      }
    }
  }

  lemma BackgroundKeepsJudging(s: Setting, m: Match, step: Step, n: Match)
    requires m.state == State.Judging && Produces(BackgroundRule(s, m, step), n)
    ensures n.state == State.Judging || (Reports(step, step.id, step.claim) && HoldsClaim(m, step.claim))
  {
    hide Conclude, DuelScoring.AdjustForStorage, CompletionCheck, Resulted;
  }

  lemma CommandsRefuseJudging(s: Setting, w: World, step: Step, n: Match)
    requires OnMatch(step) && step.id in w.matches && w.matches[step.id].state == State.Judging
    ensures !CommandProduces(s, w, step, n)
  {
  }

  // ----- a validated verdict is storable

  lemma DuelVerdictPassesCheck(e: Evaluation, o: DuelScoring.DuelOutput)
    requires DuelScoring.MaxTotal(e.snapshot.criteria) == 100 && e.userB.Some?
    requires DuelScoring.ValidateDuel(e.snapshot, o).Valid?
    ensures
      var r := DuelScoring.ValidateDuel(e.snapshot, o).value;
      CompletionCheck(e, r, WinnerUser(e, r.winner)) && WinnerUser(e, r.winner).Some?
      && DuelScoring.AdjustForStorage(e.snapshot, r) == r
  {
    DuelScoring.ValidatedDuelIsFinal(e.snapshot, o);
    DuelBlankVerdict(e.snapshot, o);
  }

  lemma DuelBlankVerdict(s: DuelScoring.Snapshot, o: DuelScoring.DuelOutput)
    requires DuelScoring.ValidateDuel(s, o).Valid?
    ensures
      var r := DuelScoring.ValidateDuel(s, o).value;
      var blankA, blankB := s.answerA == "", s.answerB == Some("");
      && !(blankA && blankB) && ((blankA || blankB) == (r.reason == DuelScoring.BlankForfeit))
      && (blankA ==> r.rawA == 0 && r.officialA == 0)
      && (blankB ==> r.rawB == Some(0) && r.officialB == Some(0))
  {
    var scoresA := DuelScoring.NormalizedScores(s.criteria, o.scoresA).value;
    var scoresB := DuelScoring.NormalizedScores(s.criteria, o.scoresB).value;
    if s.answerA == "" {
      DuelScoring.ZeroScoresZeroTotal(scoresA);
    } else if s.answerB == Some("") {
      DuelScoring.ZeroScoresZeroTotal(scoresB);
    }
  }

  lemma HeldSnapshot(m: Match, claim: nat)
    requires MatchInv(m) && HoldsClaim(m, claim)
    ensures
      var e := m.evaluation.value;
      && e.snapshot.mode == m.mode && (m.mode == Duel <==> e.userB.Some?)
      && DuelScoring.MaxTotal(e.snapshot.criteria) == 100
  {
    hide EventsOk, LifecycleOk, ExecutionsOk, InflightOk, WinnerOk, RecordsOk, VotesOk, DecidedOk, AnswersOk, StatusOk;
  }

  lemma DuelValidates(s: DuelScoring.Snapshot, o: DuelScoring.DuelOutput)
    requires DuelScoring.ValidateDuel(s, o).Valid?
    ensures s.mode == Duel && DuelScoring.ValidateDuel(s, o).value.winner == Some(o.winner)
  {
    hide DuelScoring.NormalizedScores, DuelScoring.ComputeOfficialDuelScores, DuelScoring.RequiredFrom;
  }

  /** What the judge adapter validated, the database accepts: the claimed duel concludes with exactly that verdict, and
      its winner is the player behind the verdict's anonymous label. */
  lemma ValidatedDuelConcludes(c: Config, m: Match, claim: nat, o: DuelScoring.DuelOutput, now: Time)
    requires MatchInv(m) && HoldsClaim(m, claim)
    requires DuelScoring.ValidateDuel(m.evaluation.value.snapshot, o).Valid?
    ensures
      var result := DuelScoring.ValidateDuel(m.evaluation.value.snapshot, o).value;
      var r := PersistSuccess(c, m, claim, result, now);
      && r.Ok? && Terminal(r.value.state) && r.value.recordsApplied && r.value.evaluation.Some?
      && r.value.evaluation.value.status.Concluded? && r.value.evaluation.value.verdict == Some(result)
      && m.evaluation.value.userB.Some?
      && r.value.winner
         == Some(if o.winner == DuelScoring.A then m.evaluation.value.userA else m.evaluation.value.userB.value)
      && r.value.endReason == Some(if exists u :: u in m.answers && m.answers[u].source == Deadline then AnswerTimeout
                                   else EndReason.Judged)
  {
    hide MatchInv, DuelScoring.ValidateDuel, DuelScoring.AdjustForStorage, DuelScoring.MaxTotal, CompletionCheck,
      JudgedOutcomes, EventTime;
    HeldSnapshot(m, claim);
    DuelValidates(m.evaluation.value.snapshot, o);
    DuelVerdictPassesCheck(m.evaluation.value, o);
  }

  lemma ValidatedPracticeConcludes(c: Config, m: Match, claim: nat, o: DuelScoring.PracticeOutput, now: Time)
    requires MatchInv(m) && HoldsClaim(m, claim)
    requires DuelScoring.ValidatePractice(m.evaluation.value.snapshot, o).Valid?
    ensures
      var result := DuelScoring.ValidatePractice(m.evaluation.value.snapshot, o).value;
      var r := PersistSuccess(c, m, claim, result, now);
      && r.Ok? && r.value.state == Finished && !r.value.recordsApplied && r.value.winner.None?
      && r.value.evaluation.Some? && r.value.evaluation.value.verdict == Some(result)
  {
    hide MatchInv, DuelScoring.ValidatePractice, DuelScoring.AdjustForStorage, DuelScoring.MaxTotal, CompletionCheck,
      JudgedOutcomes, TimedOut, EventTime;
    HeldSnapshot(m, claim);
    PracticeVerdictPassesCheck(m.evaluation.value, o);
  }

  lemma PracticeVerdictPassesCheck(e: Evaluation, o: DuelScoring.PracticeOutput)
    requires DuelScoring.MaxTotal(e.snapshot.criteria) == 100 && DuelScoring.ValidatePractice(e.snapshot, o).Valid?
    ensures
      var r := DuelScoring.ValidatePractice(e.snapshot, o).value;
      && e.snapshot.mode == Practice && r.winner.None? && CompletionCheck(e, r, None)
      && DuelScoring.AdjustForStorage(e.snapshot, r) == r
  {
    DuelScoring.ValidatedPracticeIsFinal(e.snapshot, o);
    hide DuelScoring.NormalizedScores, DuelScoring.AdjustForStorage;
  }

  // ----- what the judge reads

  /** The snapshot of every evaluation passes its schema again unchanged: the answers in it are normalized and within
      limits, as they were when they were locked. */
  lemma SnapshotSurvivesSchema(s: Setting, w: World, id: MatchId)
    requires Reachable(s, w) && id in w.matches && w.matches[id].evaluation.Some?
    ensures
      var snapshot := w.matches[id].evaluation.value.snapshot;
      StoredText(snapshot.answerA) && (snapshot.answerB.Some? ==> StoredText(snapshot.answerB.value))
  {
    hide WorldInv, StoredText;
    ReachableIsConsistent(s, w);
    MatchHolds(s, w, id);
  }
}
