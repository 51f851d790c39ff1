# LeetBattle: a verified model of the game server and its judge

This project models LeetBattle's PostgreSQL-backed game server and the algorithmic code of its judge, and proves what
they promise.

* **Match protocol.** `MatchTypes`, `MatchRules` and `World` describe the tables and every transaction of the match
  engine and the AI/ML arena as one atomic step; `MatchInvariants`, `MatchSafety`, `ArenaSafety`, `Rooms`, `Rotation`,
  `Ledger`, `WorldSafety`, `WorldSteps` and `SafeRuns` prove that every step, hence every run, keeps the tables
  consistent, and `Columns` what the columns of a match then say about one another. On that rest the results about winners
  (`Winners`), absent players (`Presence`), judge workers (`Judging`) and their verdicts (`Verdicts`), idempotent commands
  (`Commands`), rooms and problem rotation (`RoomHistory`), and records and life cycles (`Standings`). `Submissions`,
  `Answering` and `Admission` say over the columns alone when each transaction goes through and what it writes.
  `Scenarios` follows three surprising runs from empty tables.
* **The same transactions as code.** `Database`, `MatchEngine`, `MatchService` and `ArenaService` are classes that
  rewrite rows statement by statement, loop over executions and players, and roll back when they refuse. Each method
  is proved to end as the atomic step of the same name, so the results about runs are results about this code.
* **Scoring and answers.** `DuelScoring` and `AnswerText`.
* **Reference solvers.** `PhaseCount`, `RelayIslands`, `ShieldRoute`, `ChargeWindow` and `CallsignGroups`.
* **Printer, parser and comparison.** `Json`, `JsonText`, `JsonGrammar`, `JsonHarness` and `JudgeCompare`.
* **Plumbing with an invariant.** `LineChannel` and `RequestBudget`.

Time is in microseconds and every transaction takes its clock reading as an argument, with no assumption that clocks
advance, except in `RequestBudget`, whose promise needs a nondecreasing clock. Receipt time and sequence of an
execution are arguments of their own, because the engine captures them before it waits for the match row: nothing is
assumed about their order.

Where code and documentation differ the model follows the code:

* `compareWinnerCandidates` says an earlier receipt always wins but compares milliseconds only; the SQL query that picks
  winners compares microseconds. The comparator has no caller in the server.
* A repeated `JOIN_ROOM` command conflicts once a rematch has replaced the room's active match, because its receipt is
  keyed by that match. `Scenarios.RepeatedJoinConflicts` walks through such a run.
* A forfeit ends a match whose acceptance was waiting for the opponent's earlier submission, exactly when the player who
  leaves has no submission in flight. `Scenarios.AcceptanceForfeited` walks through such a run.
* The documentation says that in a duel an absent player forfeits once the grace period is over. A player who goes away
  during the countdown does so only if the countdown timer begins the match: an execution that begins it gives the absent
  player no deadline (`Presence.UntimedStartsExactlyWhen`), and without one no run ever ends the match for the absence
  (`Presence.UntimedNeverEnds`). `Scenarios.AbsentGuestNeverForfeits` walks through such a run.
* The unordered comparison depends on the locale order never tying two different groups, which canonically equivalent
  strings break (`JudgeCompare.EquivalentGroupsMistaken`).

## Model

| member | source | states |
|---|---|---|
| `Winners.EarlyWinnerIsOfflineWinner` | src/server/match/match-engine.ts:1710-1751 | a match ended by acceptance has the winner an offline judge would name (least accepted submission by receipt, runtime, sequence) after any results at all for the executions still in flight |
| `Winners.WinnerHoldsInEveryContinuation` | src/server/match/match-engine.ts:1561-1708 | over every continuation of every run the recorded winner stays fixed, is the offline winner of the executions persisted by then, and no execution is added |
| `Winners.ActiveIsUndecided` | src/server/match/match-engine.ts:1714-1750 | the online check is prompt: an active match never holds an acceptance that already decides it |
| `Winners.WaitingIsNecessary` | src/server/match/match-engine.ts:1735-1743 | the blocker rule is needed: an in-flight submission that could still come out ahead takes the match under acceptable results |
| `Winners.WaitingIsNeededExactlyWhen` | src/server/match/match-engine.ts:1735-1743 | some acceptable results give the match to an in-flight submission if and only if, run in no time, it precedes the acceptance; the rule blocks on all of those and, beyond them, only on equal receipts when the acceptance ran in no time and came first |
| `Winners.ActiveMatchIsTracked` | src/server/match/match-engine.ts:1434-1494 | in every reachable active match a player's in-flight execution is exactly active_execution_id, and a recorded acceptance is held up by an in-flight submission received no later than the least accepted one |
| `Winners.AcceptanceIsOverriddenExactlyWhen` | src/server/match/match-engine.ts:1975-2031 | a transaction of any kind ends play against a recorded acceptance if and only if it is a player with no submission in flight leaving, under a fresh key, an active match with an acceptance recorded; the winner then has an earlier submission in flight |
| `Winners.ForfeitSucceedsExactlyWhen` | src/server/match/match-engine.ts:1992-2021 | a forfeit goes through exactly while the match is active and the leaver has no submission in flight, whatever is recorded |
| `Scenarios.AcceptanceForfeited` | src/server/match/match-engine.ts:1992-2021 | a run, from empty tables, in which the author of the only acceptance leaves and loses to a player whose earlier submission is still judged |
| `Winners.LeavingHonours` | src/server/match/match-engine.ts:1992-2021 | leaving over a recorded acceptance with nothing of one's own in flight succeeds, and always for the player whose earlier submission is in flight; a practice player can never do so |
| `Winners.DisconnectsYieldToAcceptance` | src/server/match/match-engine.ts:2060-2079 | the disconnect sweep never ends play while an acceptance is recorded |
| `Winners.ReconnectionYieldsToAcceptance` | src/server/match/match-engine.ts:2105-2134 | nor does the sweep a reconnecting player triggers |
| `Winners.BackgroundHonoursAcceptance` | src/server/match/match-engine.ts:1710-1751 | a background step that ends play with an acceptance recorded ends it in favour of the least accepted submission's author |
| `Winners.DecisionSurvivesDrain` | src/server/match/match-engine.ts:1735-1744 | a decided submission remains least accepted and unblocked whatever the in-flight executions return |
| `Judging.JudgingIffLive` | src/server/arena/arena-service.ts:829-883 | in every reachable state JUDGING coincides with a PENDING, IN_PROGRESS or retryable FAILED evaluation, and every other evaluation belongs to an ended match |
| `Judging.AbsorbedForever` | src/server/arena/arena-service.ts:839-865 | COMPLETED, SKIPPED and permanently FAILED evaluations, and their match's result, are rewritten by no run |
| `Judging.StaleReportsAreNoOps` | src/server/arena/arena-service.ts:927-977 | once a claim is superseded its success or failure report changes no table in any later state |
| `Judging.ReportSpendsClaim` | src/server/arena/arena-service.ts:1033-1077 | a report that takes effect was made under the current claim and ends that claim |
| `Judging.SpentReportsAreNoOps` | src/server/arena/arena-service.ts:927-977 | once a claim that was handed out no longer holds, spent or superseded, no report under it changes any table in any later state |
| `Judging.EachClaimTakesEffectOnce` | src/server/arena/arena-service.ts:1033-1077 | over any run at most one report, of success or failure, takes effect under each claim |
| `Judging.ClaimFences` | src/server/arena/arena-service.ts:867-881 | a new claim supersedes every earlier one and is the one that holds |
| `Judging.ClaimsExactlyWhen` | src/server/arena/arena-service.ts:839-881 | in every reachable state a claim is handed out if and only if the match is being judged and the evaluation is pending, or claimed for the whole lease, or failed retryably with its pause over; it writes that row and no other |
| `Judging.LeaseProtectsWorker` | src/server/arena/arena-service.ts:847-854 | over any run: while a worker stays silent, no request for its evaluation within the lease changes any table, and the first one after it takes over |
| `Judging.EveryJudgingMatchBecomesClaimable` | src/server/arena/arena-service.ts:847-866 | a judging match left as it is can be claimed from a computable time on |
| `Judging.RetryReopensFailure` | src/server/arena/arena-service.ts:1150-1219 | a participant's retry under a fresh key is admitted if and only if the evaluation failed and that time has come, and the claim that follows then succeeds |
| `Judging.OnlyReportsEndJudging` | src/server/arena/arena-service.ts:927-977 | in any reachable state only a report under the held claim takes a match out of JUDGING |
| `Judging.SnapshotSurvivesSchema` | src/server/ai-ml/schemas.ts:24-39 | in every reachable state the answers in an evaluation's snapshot are normalized and within limits, so they re-parse to themselves |
| `Judging.ValidatedDuelConcludes` | src/server/arena/arena-service.ts:984-1146 | a duel verdict the validator accepted is never refused by the table's checks: it is stored unchanged and its winner is the player behind the anonymous label |
| `Judging.ValidatedPracticeConcludes` | src/server/arena/arena-service.ts:984-1146 | a validated practice score is stored unchanged, without winner or record |
| `Judging.DuelVerdictPassesCheck` | db/migrations/004_ai_ml_arena.sql:204-310 | validator output satisfies the completion constraint of the evaluation table and is a fixed point of the storage adjustment |
| `Verdicts.FailureReported` | src/server/arena/arena-service.ts:907-978 | a failure pauses the evaluation for exactly its recovery time, or ends the round undecided |
| `Verdicts.DuelReported` | src/server/arena/arena-service.ts:1033-1146 | a judged duel: the player behind the winning label wins, the other loses, the rematch window opens |
| `Verdicts.StoredVerdictsAreSound` | db/migrations/004_ai_ml_arena.sql:204-310 | in every reachable state a stored verdict has scores from 0 to 100, a duel winner strictly ahead who is the player behind the better label, and blank answers that scored nothing and lost |
| `Standings.RecordsCountDecidedDuels` | src/server/match/match-engine.ts:1795-1804 | in every reachable state a player's wins and losses are the numbers of decided duels they won and lost, and the totals agree |
| `Standings.WhatCounts` | src/server/arena/arena-service.ts:664-741 | exactly the duels ended by acceptance, forfeit or judgment count, and those ended at the answer deadline with an answer that is not blank; each counts once for each player as its outcome says |
| `Standings.MatchesMoveForward` | src/server/domain/state-machine.ts:5-16 | over any run states follow the transition table, event logs only grow, versions count 1, 2, 3 and event times strictly increase |
| `Standings.PathsFollowRank` | src/server/domain/state-machine.ts:5-12 | every path of the transition table raises the rank |
| `Standings.RankHasPath` | src/server/domain/state-machine.ts:5-12 | and every rise in rank is a path of the table |
| `RoomHistory.RoundsFormOneChain` | src/server/match/match-engine.ts:1926-1970 | every room's rounds are one successor chain numbered 1..k holding exactly its matches; each round but the last was passed on by both votes, so only the active one can be live |
| `RoomHistory.ProblemsRotate` | src/server/match/match-engine.ts:598-640 | with n catalog problems the first n started rounds of a room use different ones, and for n of at least 2 no two consecutive rounds repeat |
| `RoomHistory.HistoryWalksChain` | src/server/match/match-engine.ts:796-803 | the previous-problems query lists the chain's problems backwards |
| `Commands.ReplayChangesNothing` | src/server/match/match-engine.ts:297-325 | once a command was applied, a replay under its key in any later state changes no table; it is answered with the first response if it repeats the same request, and refused if its command type, match or payload differs |
| `Commands.AppliedAtMostOnce` | src/server/match/match-engine.ts:284-326 | in any run each (actor, key) is applied at most once, and never again once its receipt exists |
| `Commands.EveryCommandKeepsContract` | src/server/match/match-engine.ts:274-341 | every client command either leaves all tables alone or adds exactly its own completed receipt, with its own request; it replays only a stored receipt of that request, and is refused where another is stored |
| `Commands.StepNamed` | src/server/match/match-engine.ts:284-326 | each of the ten commands, once its checks pass, reserves and completes exactly its own request around its effect; otherwise it is refused without effect |
| `Commands.JoinReplaysUntilRematch` | src/server/match/match-engine.ts:521-528 | a repeated join is a replay exactly while the room's active match is still the one joined, and a conflict afterwards |
| `Scenarios.RepeatedJoinConflicts` | src/server/match/match-engine.ts:521-528 | a run, from empty tables, in which a guest's own join, repeated under its key after a rematch, conflicts |
| `SafeRuns.StepSafe` | src/server/match/match-engine.ts:860-876 | every transaction keeps every table invariant and takes nothing recorded back |
| `SafeRuns.RunSafe` | src/server/match/match-engine.ts:860-876 | hence every run does, from any consistent state |
| `SafeRuns.ReachableIsConsistent` | src/server/match/match-engine.ts:860-876 | every state reachable from empty tables satisfies the invariants |
| `StepEffects.StepRewritesOneMatch` | src/server/match/match-engine.ts:860-876 | a match transaction rewrites at most its own match, by its own rule |
| `MatchSafety.LeastAcceptedExists` | src/server/match/match-engine.ts:1725-1733 | the candidate query finds a row exactly when some submission is accepted, and never has two answers |
| `MatchSafety.MaybeFinalizeKeeps` | src/server/match/match-engine.ts:1710-1751 | after the winner check the match is over by acceptance or untouched with every acceptance held up |
| `MatchSafety.EvaluateDisconnectsKeeps` | src/server/match/match-engine.ts:2033-2086 | a sweep that ends a match found nothing accepted and no expired player in flight; two expired players draw, one loses to the connected other |
| `MatchSafety.SweepEndsExactlyWhen` | src/server/match/match-engine.ts:2037-2085 | the sweep ends an active duel if and only if someone is away, everyone away is past a deadline, nothing is accepted and nobody away has a submission in flight; it then ends for the player still there, or for nobody, and otherwise changes nothing |
| `Submissions.CompletionOutcome` | src/server/match/match-engine.ts:1686-1697 | completing an in-flight submission ends the match for the first accepted one with none in flight received before it; else, if an absence is due by then, ends it for that; else play goes on with the player released, after a penalized answer only with a cooldown |
| `Submissions.OtherCompletions` | src/server/match/match-engine.ts:1561-1625 | which completions are refused, which repeat an earlier one, and that a late result only fills in its row |
| `Submissions.MarkRunningExactly` | src/server/match/match-engine.ts:1518-1555 | a waiting execution is marked, and announced only in play |
| `Submissions.StartsExactlyWhen` | src/server/match/match-engine.ts:1382-1494 | an execution starts if and only if the match has begun with a problem, it was received after the start, a language is chosen, nothing of the player is in flight, and the sample interval or the cooldown is over; what it writes |
| `Submissions.StartsInPlayExactlyWhen` | src/server/match/match-engine.ts:1408-1470 | in an active match, that nothing in flight means no execution row of the player is |
| `Presence.AbsenceEndsPlayOnlyAfterGrace` | src/server/match/match-engine.ts:2033-2086 | in every reachable state no step but a player's own leaving ends play for an absence before everyone away has been away for the grace period |
| `Presence.UntimedNeverEnds` | src/server/match/match-engine.ts:2046-2058 | an absence without a deadline ends the match in no run, until that player comes back or somebody leaves |
| `Presence.UntimedStartsExactlyWhen` | src/server/match/match-engine.ts:1382-1407 | such an absence starts in a duel if and only if an execution begins the match with a player already away |
| `Presence.TimerTimesEveryone` | src/server/match/match-engine.ts:928-961 | the countdown timer leaves no player of a duel away without a deadline |
| `Presence.ReturnsExactly` | src/server/match/match-engine.ts:2105-2135 | coming back clears the absence, after an absence check that may have ended the match |
| `Presence.GoneExactly` | src/server/match/match-engine.ts:2176-2225 | who is taken away, as of when, and with a deadline only in an active duel |
| `Scenarios.AbsentGuestNeverForfeits` | src/server/match/match-engine.ts:1382-1407 | a run, from empty tables, after which no continuation ever ends the match for the absent guest |
| `Columns.ReachableColumns` | src/server/match/match-engine.ts:1753-1842 | in every reachable match: deadlines count from disconnections, outcomes are what the ending means to each player, rematch windows and answer deadlines have their length, answers came in time, languages and seats are as the challenge demands |
| `Admission.LanguageAppliedExactlyWhen` | src/server/match/match-engine.ts:642-694 | when a language is taken, and that it undoes readiness |
| `Admission.ReadyAppliedExactlyWhen` | src/server/match/match-engine.ts:696-858 | when readying up is taken, and when it starts the countdown, with which problem and start |
| `Admission.CancelAppliedExactlyWhen` | src/server/match/match-engine.ts:1229-1287 | only the host cancels, only a lobby; the room closes |
| `Admission.RoomCreatedExactlyWhen` | src/server/match/match-engine.ts:379-462 | who may open a room, and its first round |
| `Admission.SeatTakenExactlyWhen` | src/server/match/match-engine.ts:464-559 | a stranger gets the second seat if and only if the room is an open duel with its host alone |
| `Admission.StartAppliedExactlyWhen` | src/server/match/match-engine.ts:1289-1516 | a start is taken if and only if the source fits and the player may start |
| `Admission.LeaveAppliedExactlyWhen` | src/server/match/match-engine.ts:1975-2031 | leaving is taken if and only if the match is active and nothing the player submitted is still judged; whom it ends for |
| `Admission.VoteAppliedExactlyWhen` | src/server/match/match-engine.ts:1844-1962 | a vote is taken until the window closes; the second opens the next round and carries over nothing but the seats |
| `Answering.AnswerAppliedExactlyWhen` | src/server/arena/arena-service.ts:441-528 | an answer is taken once, before the deadline; the last one hands the round over |
| `Answering.DeadlineExactly` | src/server/arena/arena-service.ts:760-806 | from the deadline on, whoever has not answered has answered nothing as of the deadline |
| `Answering.PreparesExactlyWhen` | src/server/arena/arena-service.ts:530-741 | the judge gets exactly the two locked answers under a one-to-one mapping; a round of blank answers ends unjudged |
| `MatchSafety.CompletionHonoursAcceptance` | src/server/match/match-engine.ts:1686-1697 | a completion that ends a match with an acceptance recorded names the least accepted submission's author |
| `MatchSafety.ForfeitOverridesOnlyForEarlierSubmission` | src/server/match/match-engine.ts:2002-2028 | a forfeit against a recorded acceptance favours a player with an earlier in-flight submission |
| `MatchSafety.StartKeeps` | src/server/match/match-engine.ts:1380-1494 | inserting an execution, with any receipt time, keeps the match invariant |
| `MatchSafety.CompleteKeeps` | src/server/match/match-engine.ts:1561-1708 | completing one keeps it, eligible or late |
| `MatchSafety.ForfeitKeeps` | src/server/match/match-engine.ts:1975-2031 | leaving ends the match: forfeit to the opponent, cancellation in practice |
| `MatchSafety.SetReadyKeeps` | src/server/match/match-engine.ts:751-858 | readying up stays in the lobby or starts a countdown with a chosen problem |
| `MatchSafety.CancelKeeps` | src/server/match/match-engine.ts:1229-1287 | cancelling a lobby ends it without record |
| `MatchInvariants.AppendKeeps` | src/server/match/match-engine.ts:343-377 | appending an event keeps versions counting and times strictly increasing under any clock |
| `MatchInvariants.StampedExactly` | src/server/match/match-engine.ts:343-377 | an event bears the clock's time, or the tick after the last event if the clock is not past it |
| `MatchInvariants.FinalizeKeeps` | src/server/match/match-engine.ts:1753-1842 | finalization always succeeds for a legitimate ending and keeps the invariant |
| `ArenaSafety.PrepareKeeps` | src/server/arena/arena-service.ts:530-689 | preparing leaves the match alone, or ends the round if every answer is blank, or else hands the locked answers to the judge |
| `ArenaSafety.PrepareSucceeds` | src/server/arena/arena-service.ts:530-689 | with every answer in and good judge material it does one of the last two |
| `ArenaSafety.FillMissingKeeps` | src/server/arena/arena-service.ts:773-800 | after the deadline every player has exactly one answer |
| `ArenaSafety.PersistFailureKeeps` | src/server/arena/arena-service.ts:907-978 | a failure report keeps the invariant on both of its branches |
| `ArenaSafety.PersistSuccessKeeps` | src/server/arena/arena-service.ts:980-1148 | a success report keeps the invariant |
| `Rooms.FreeSeatIsLobby` | src/server/match/match-engine.ts:530-556 | a free second seat in an open room means its active round is still in the lobby |
| `Rooms.ChainIsWholeRoom` | src/server/match/match-engine.ts:1913-1926 | every match of a room is on its chain at the index of its round |
| `Rooms.NextRoundKeepsChain` | src/server/match/match-engine.ts:1913-1946 | inserting the next round keeps the chain |
| `Rotation.ChoiceKeepsRotation` | src/server/match/match-engine.ts:616-637 | every choice of chooseProblem extends the rotation, whatever index is drawn |
| `Rotation.DrawsExactly` | src/server/match/match-engine.ts:598-640 | what can be drawn: exactly the unused problems, else all but the latest, else any |
| `Ledger.AppliedKeepsLedger` | src/server/match/match-engine.ts:1795-1804 | applying one result adds one win and one loss, to the two players of that match |
| `StateMachine.TransitionsExactly` | src/server/domain/state-machine.ts:5-12 | the eight moves between match states |
| `StateMachine.ComparatorMatchesReceiptOrder` | src/server/domain/state-machine.ts:37-47 | the exact condition under which compareWinnerCandidates agrees with the receipt order it documents |
| `StateMachine.ComparatorCanPreferLaterReceipt` | src/server/domain/state-machine.ts:37-47 | two receipts within a millisecond for which it does not |
| `Database.Appended` | src/server/match/match-engine.ts:343-377 | the appended event carries the next version and a time after every earlier event |
| `Database.Tables.ReserveCommand` | src/server/match/match-engine.ts:274-326 | reserves a fresh key, replays an identical request, rejects any other |
| `Database.Tables.CompleteCommand` | src/server/match/match-engine.ts:328-341 | stores the response once |
| `Database.Tables.Rollback` | src/server/match/match-engine.ts:650-692 | a thrown error restores the tables the transaction began with |
| `MatchEngine.LeastAccepted` | src/server/match/match-engine.ts:1716-1734 | the scan returns the least accepted submission, or none if there is none |
| `MatchEngine.FindBlocker` | src/server/match/match-engine.ts:1735-1743 | finds an in-flight submission received no later, if any |
| `MatchEngine.FindAccepted` | src/server/match/match-engine.ts:2060-2068 | finds an accepted submission, if any |
| `MatchEngine.FindInflightSubmit` | src/server/match/match-engine.ts:2070-2076 | finds an in-flight submission of the given players, if any |
| `MatchEngine.Engine.SetOutcomes` | src/server/match/match-engine.ts:1782-1806 | the per-player loop sets every outcome and bumps exactly the players' records |
| `MatchEngine.Engine.FinalizeMatchTx` | src/server/match/match-engine.ts:1753-1842 | the statements end as the finalization the safety results are about, records included |
| `MatchEngine.Engine.MaybeFinalizeAcceptedTx` | src/server/match/match-engine.ts:1710-1751 | the two queries and the finalization decide as specified |
| `MatchEngine.Engine.EvaluateDisconnectsTx` | src/server/match/match-engine.ts:2033-2086 | the disconnect statements decide as `SweepEndsExactlyWhen` says |
| `MatchEngine.Engine.StartExecutionTx` | src/server/match/match-engine.ts:1380-1494 | checks in order, inline activation and insertion as specified |
| `MatchEngine.Engine.MarkExecutionRunningTx` | src/server/match/match-engine.ts:1518-1555 | marking running as specified |
| `MatchEngine.Engine.StoreResult` | src/server/match/match-engine.ts:1605-1683 | the result is stored, and only an eligible one releases and penalizes the player |
| `MatchEngine.Engine.CompleteExecutionTx` | src/server/match/match-engine.ts:1561-1708 | the whole completion, duplicates and late results included, as `CompletionOutcome` and `OtherCompletions` say |
| `MatchEngine.Engine.SettleTx` | src/server/match/match-engine.ts:1686-1697 | winner check, then disconnect check if play goes on: the three outcomes of `CompletionOutcome` |
| `MatchEngine.Engine.ForfeitTx` | src/server/match/match-engine.ts:1991-2026 | forfeit as specified |
| `MatchEngine.Engine.CancelTx` | src/server/match/match-engine.ts:1229-1287 | cancellation as specified |
| `MatchEngine.Engine.AdvanceCountdownTx` | src/server/match/match-engine.ts:928-995 | activation, arming absent players' deadlines in duels only |
| `MatchEngine.Engine.PreviousProblems` | src/server/match/match-engine.ts:796-803 | collects the earlier problems, latest first |
| `MatchEngine.Engine.ChooseProblemFrom` | src/server/match/match-engine.ts:598-640 | the filters choose as specified |
| `MatchEngine.Engine.SetReadyTx` | src/server/match/match-engine.ts:711-856 | ready, liveness and countdown as specified |
| `MatchService.Service.Start` | src/server/match/match-engine.ts:1289-1516 | the command as one atomic step, rolled back on any refusal |
| `MatchService.Service.Complete` | src/server/match/match-engine.ts:1561-1708 | likewise for completion |
| `MatchService.Service.MarkRunning` | src/server/match/match-engine.ts:1518-1555 | likewise for the running mark |
| `MatchService.Service.Leave` | src/server/match/match-engine.ts:1975-2031 | likewise for forfeit |
| `MatchService.Service.Cancel` | src/server/match/match-engine.ts:1229-1287 | likewise for cancelling, closing the room |
| `MatchService.Service.Ready` | src/server/match/match-engine.ts:696-858 | likewise for readying up |
| `MatchService.Service.AdvanceTimer` | src/server/match/match-engine.ts:928-995 | likewise for the countdown timer |
| `MatchService.Service.SweepDisconnected` | src/server/match/match-engine.ts:2290-2304 | likewise for the disconnect timer |
| `MatchService.Service.InsertNextRound` | src/server/match/match-engine.ts:1913-1962 | the next round's rows, or none if the round exists |
| `MatchService.Service.CastVote` | src/server/match/match-engine.ts:1879-1970 | a vote and what follows from it |
| `MatchService.Service.RequestRematch` | src/server/match/match-engine.ts:1844-1973 | the rematch command as one atomic step |
| `ArenaService.Service.PrepareEvaluationTx` | src/server/arena/arena-service.ts:530-689 | snapshot, mapping and blank handling as specified |
| `ArenaService.Service.FinalizeSkippedTx` | src/server/arena/arena-service.ts:691-741 | the skipped ending as specified |
| `ArenaService.Service.SubmitAnswerTx` | src/server/arena/arena-service.ts:481-521 | locking an answer as specified |
| `ArenaService.Service.FillMissingTx` | src/server/arena/arena-service.ts:773-796 | the loop over missing players fills exactly them |
| `ArenaService.Service.ProcessAnswerDeadlineTx` | src/server/arena/arena-service.ts:760-806 | deadline processing as specified |
| `ArenaService.Service.ClaimEvaluationTx` | src/server/arena/arena-service.ts:829-883 | claiming, as `ClaimsExactlyWhen` says |
| `ArenaService.Service.PersistFailureTx` | src/server/arena/arena-service.ts:907-978 | failure persistence as specified |
| `ArenaService.Service.AdjustScores` | src/server/arena/arena-service.ts:984-1021 | the local score adjustments compute the specified adjustment |
| `ArenaService.Service.JudgePlayers` | src/server/arena/arena-service.ts:1099-1122 | the per-player loop of a judged round |
| `ArenaService.Service.PersistSuccessTx` | src/server/arena/arena-service.ts:980-1148 | success persistence as specified, records included |
| `ArenaService.Service.Submit` | src/server/arena/arena-service.ts:441-528 | the answer command as one atomic step |
| `ArenaService.Service.ProcessDeadline` | src/server/arena/arena-service.ts:760-806 | the deadline sweep as one atomic step |
| `ArenaService.Service.Claim` | src/server/arena/arena-service.ts:829-883 | the claim as one atomic step; a returned claim is held, no claim means no change |
| `ArenaService.Service.ReportFailure` | src/server/arena/arena-service.ts:907-978 | the failure report as one atomic step |
| `ArenaService.Service.ReportSuccess` | src/server/arena/arena-service.ts:980-1148 | the success report as one atomic step |
| `ArenaService.Service.RetryEvaluation` | src/server/arena/arena-service.ts:1150-1219 | the retry command as one atomic step |
| `DuelScoring.NormalizationAcceptsExactlyTheRubric` | src/server/ai-ml/scoring.ts:90-116 | for every rubric, score lists are accepted exactly when they score each criterion within its maximum and are as many, under different ids; with different criteria, when they score exactly those; they come back in rubric order |
| `DuelScoring.NormalizeCriterionScores` | src/server/ai-ml/scoring.ts:90-116 | the map-filling loop computes that normalization |
| `DuelScoring.NormalizationRefuses` | src/server/ai-ml/scoring.ts:90-116 | which of its two refusals a score list meets: the wrong set of criteria, or the first criterion out of range |
| `DuelScoring.RequiredTieBreakFromScores` | src/server/ai-ml/scoring.ts:131-159 | the loop returns the side a tie goes to and why, or none if it goes nowhere |
| `DuelScoring.TieBreakExactly` | src/server/ai-ml/scoring.ts:144-158 | a tie goes to the side strictly ahead in the first of correctness, completeness, depth and clarity that both are scored on and differ in |
| `DuelScoring.ValidatesExactlyWhen` | src/server/ai-ml/scoring.ts:161-269 | a duel verdict is accepted if and only if versions match, both lists score the rubric, and winner and reason fit the answers and totals; with exactly which official scores |
| `DuelScoring.DuelRefuses` | src/server/ai-ml/scoring.ts:161-259 | for which of its reasons a duel verdict is refused, in the order they are looked at |
| `DuelScoring.PracticeValidatesExactlyWhen` | src/server/ai-ml/scoring.ts:271-295 | when a practice score is accepted, and that its total stands |
| `DuelScoring.TotalAddsUp` | src/server/ai-ml/scoring.ts:118-120 | the total is the sum of the scores |
| `DuelScoring.ValidatedDuelIsFinal` | src/server/ai-ml/scoring.ts:161-269 | validated duels have raw and official scores in 0..100, the winner strictly ahead, and the storage adjustment leaves them unchanged |
| `DuelScoring.ValidatedPracticeIsFinal` | src/server/ai-ml/scoring.ts:271-295 | likewise for practice, for every rubric totalling 100 |
| `DuelScoring.VerdictUniqueIffDetermined` | src/server/ai-ml/scoring.ts:205-259 | given the scores at most one (winner, reason) validates exactly when the scores determine it; otherwise either winner does, for every tie-break reason but exact equivalence |
| `DuelScoring.StagedCriteriaDetermine` | src/server/ai-ml/scoring.ts:131-159 | with staged criteria only, differing scores always determine it |
| `AnswerText.NormalizeKeepsContent` | src/shared/ai-ml-answer.ts:31-38 | normalizing loses nothing but edge breaks: words and inner breaks survive in order |
| `AnswerText.NormalizeIsCanonical` | src/shared/ai-ml-answer.ts:31-38 | no space at an edge, beside a break or next to another |
| `AnswerText.NormalizeIdempotent` | src/shared/ai-ml-answer.ts:31-38 | normalizing again changes nothing |
| `AnswerText.NormalizeIsRendering` | src/shared/ai-ml-answer.ts:31-38 | the result is the rendering of the content |
| `AnswerText.SameContentSameText` | src/shared/ai-ml-answer.ts:31-38 | two answers normalize alike exactly when their content is the same |
| `AnswerText.WordCountIsRunsOfInput` | src/shared/ai-ml-answer.ts:45-46 | the word count is the number of maximal non-blank runs of the input |
| `AnswerText.MeasureAiMlAnswer` | src/shared/ai-ml-answer.ts:40-64 | the measurement loop computes counts and violations |
| `AnswerText.LineEndingsExactly` | src/shared/ai-ml-answer.ts:34-34 | every way to end a line becomes one break |
| `AnswerText.LimitsExactly` | src/shared/ai-ml-answer.ts:5-63 | 500 words, 12,000 characters and 24,000 bytes of the stored text, each told apart |
| `AnswerText.Utf8LengthsAddUp` | src/shared/ai-ml-answer.ts:48-48 | lengths in UTF-8 by code point, adding up |
| `AnswerText.StoredAnswerSurvivesSnapshot` | src/server/ai-ml/schemas.ts:24-39 | an accepted answer re-parses to itself and still within limits |
| `AnswerText.BlankIffNoWords` | src/shared/ai-ml-answer.ts:45-60 | blank exactly when there is no word |
| `PhaseCount.PhaseReference` | src/problems/server/bank.server.ts:131-141 | the in-place row computes the number of strictly increasing index sequences spelling the phase, modulo 1,000,000,007 |
| `PhaseCount.AlignmentsAreAll` | src/problems/server/bank.server.ts:131-141 | the counted set holds exactly those sequences |
| `RelayIslands.IslandsReference` | src/problems/server/bank.server.ts:48-88 | the number of classes of relays joined by steps of distance one |
| `RelayIslands.DirectionsAreAdjacent` | src/problems/server/bank.server.ts:67-72 | the scanned directions lead exactly to the cells at row distance plus column distance one |
| `RelayIslands.Flood` | src/problems/server/bank.server.ts:60-85 | the growing queue ends and marks exactly the start's island |
| `RelayIslands.SameIsland` | src/problems/server/bank.server.ts:67-82 | connectedness is an equivalence: islands are equal or disjoint |
| `ShieldRoute.ShieldReference` | src/problems/server/bank.server.ts:106-129 | the result suffices on some right/down route and no smaller shield of at least one does |
| `ShieldRoute.RoutesExactly` | src/problems/server/bank.server.ts:114-126 | a route is exactly enough moves down and to the right, in any order |
| `ShieldRoute.SurvivesExactly` | src/problems/server/bank.server.ts:114-126 | surviving it is a shield of at least one after every room |
| `ShieldRoute.RoomNeeds` | src/problems/server/bank.server.ts:114-126 | the recurrence is the exact threshold of each room |
| `ShieldRoute.ThresholdIsExact` | src/problems/server/bank.server.ts:106-129 | every larger shield suffices too |
| `ChargeWindow.WindowReference` | src/problems/server/bank.server.ts:34-46 | the least length of a window reaching the threshold, 0 exactly when there is none, with at most one left move per cell |
| `ChargeWindow.ChargesAddUp` | src/problems/server/bank.server.ts:34-46 | the charge of a window is the sum of its cells |
| `CallsignGroups.GroupsFilter` | src/problems/server/bank.server.ts:90-104 | a group is the input filtered by its letters, in order |
| `CallsignGroups.GroupsOpenInOrder` | src/problems/server/bank.server.ts:90-104 | a callsign opens a group exactly when no earlier one has its letters |
| `CallsignGroups.CallsignReference` | src/problems/server/bank.server.ts:90-104 | one group per letter multiset in order of first appearance, each exactly its anagrams in order |
| `CallsignGroups.KeysAreAnagrams` | src/problems/server/bank.server.ts:93-98 | equal letter counts are exactly anagrams |
| `Json.RoundTrip` | services/runner/harness/java.ts:91-131 | parsing printed text gives the value back, for nulls, booleans, 64-bit integers, strings and lists within the depth limit |
| `Json.PrinterInjective` | services/runner/harness/java.ts:91-131 | different values never print alike |
| `Json.PrintsIffShallow` | services/runner/harness/java.ts:91-92 | the harness prints exactly the object-free values none of whose elements lies below level 100; JSON.stringify, all of them |
| `Json.PrintedIsOneLine` | services/runner/harness/java.ts:94-115 | printed text never contains a raw control character, so it is one protocol line |
| `Json.ObjectComesBack` | services/runner/harness/java.ts:180-185 | an object literal parses to its members, later ones overriding earlier ones of the same name |
| `Json.ArgumentsArrive` | services/runner/adapters/docker.ts:627-627 | the request line the runner writes parses, in the harness, to an object holding exactly the test case's arguments, however deep they are nested |
| `JsonText.EscapesExactly` | services/runner/harness/java.ts:94-115 | the escape of every code unit, spelled out |
| `JsonText.Punctuation` | services/runner/harness/java.ts:92-131 | quotes, brackets and commas as they appear on the wire |
| `JsonText.DecimalExactly` | services/runner/harness/java.ts:117-117 | integers are printed in base ten |
| `JsonText.IntegersReadExactly` | services/runner/harness/java.ts:209-213 | the harness reads back exactly the integers of 64 bits |
| `JsonGrammar.ParsesExactly` | services/runner/harness/java.ts:161-218 | a line is read as a value if and only if the grammar spells that value so: every escape, hexadecimal digits in either case, white space around values, commas and colons but not before a later name, duplicates overriding, 64-bit integers |
| `JsonGrammar.HexExactly` | services/runner/harness/java.ts:204-204 | what four characters after the u of an escape stand for, signs included |
| `JsonText.RequestLineExactly` | services/runner/adapters/docker.ts:627-627 | the request line, spelled out |
| `JsonHarness.AppendJson` | services/runner/harness/java.ts:91-131 | the appending printer writes exactly that text, or fails where it has none |
| `JsonHarness.AppendString` | services/runner/harness/java.ts:94-114 | the escaping loop |
| `JsonHarness.JsonParser.ParseLine` | services/runner/harness/java.ts:166-166 | the index-advancing parser reads a whole line as `ParsesExactly` says |
| `JsonHarness.JsonParser.ReadValue` | services/runner/harness/java.ts:167-179 | one value by its first character |
| `JsonHarness.JsonParser.ReadObject` | services/runner/harness/java.ts:180-185 | members with overriding duplicates |
| `JsonHarness.JsonParser.ReadArray` | services/runner/harness/java.ts:186-191 | list entries |
| `JsonHarness.JsonParser.ReadString` | services/runner/harness/java.ts:192-208 | strings with all escapes, signs in hexadecimal included |
| `JsonHarness.JsonParser.ReadNumber` | services/runner/harness/java.ts:209-213 | 64-bit decimal integers |
| `JsonHarness.PrintThenParse` | services/runner/harness/java.ts:91-218 | printing into a builder and parsing afresh returns every printable value |
| `JudgeCompare.ExactComparison` | src/problems/server/compare.server.ts:45-57 | the exact comparison accepts exactly the expected value |
| `JudgeCompare.JudgeValuesExactly` | src/problems/server/compare.server.ts:3-21 | what counts as a judge value: safe integers, no objects, at most 100 deep |
| `JudgeCompare.LexExactly` | src/problems/server/compare.server.ts:33-35 | the default order of strings: a prefix first, else by the first code unit that differs |
| `JudgeCompare.EqualKeysEqualGroupings` | src/problems/server/compare.server.ts:23-39 | equal unordered keys always mean equal multisets of multisets, whatever the locale order does |
| `JudgeCompare.KeyIsExactIffLocaleSeparates` | src/problems/server/compare.server.ts:35-38 | the unordered key decides equality of groupings for all answers if and only if the locale order never ties two different sorted groups |
| `JudgeCompare.TiedGroupsMistaken` | src/problems/server/compare.server.ts:35-38 | two tied groups, swapped, are wrongly told apart |
| `JudgeCompare.EquivalentGroupsMistaken` | src/problems/server/compare.server.ts:35-38 | one letter in composed and decomposed form, which localeCompare must tie, is such an input |
| `JudgeCompare.UnorderedComparison` | src/problems/server/compare.server.ts:45-57 | what the unordered comparison accepts |
| `JudgeCompare.UnorderedStringGroupsKey` | src/problems/server/compare.server.ts:23-39 | the loop that pushes sorted groups computes the key |
| `JudgeCompare.SortCanonical` | src/problems/server/compare.server.ts:33-37 | sorting by an order that separates its elements forgets exactly their arrangement |
| `LineChannel.LinesAreTheText` | services/runner/adapters/docker.ts:124-135 | the lines with their breaks and the unfinished line are the text, and none has a break inside |
| `LineChannel.CutAnywhere` | services/runner/adapters/docker.ts:124-135 | lines and unfinished line do not depend on where the stream is cut |
| `LineChannel.PushedInPieces` | services/runner/adapters/docker.ts:118-135 | nor on any division into chunks |
| `LineChannel.ChunksDoNotMatter` | services/runner/adapters/docker.ts:118-167 | two channels fed the same text hand out the same lines however they are asked |
| `LineChannel.Channel.Push` | services/runner/adapters/docker.ts:118-135 | a chunk keeps delivered lines followed by queued ones equal to the stream's lines, or overflows and closes |
| `LineChannel.Channel.HandOut` | services/runner/adapters/docker.ts:126-134 | every complete line goes to the longest-waiting caller or the queue |
| `LineChannel.Channel.Next` | services/runner/adapters/docker.ts:143-167 | a queued line, the closing error, a passed deadline or a place in the queue |
| `LineChannel.Channel.TimeOut` | services/runner/adapters/docker.ts:152-156 | a timer removes exactly its own waiter, unless it was answered |
| `LineChannel.Channel.Close` | services/runner/adapters/docker.ts:137-141 | closing rejects every waiter once |
| `RequestBudget.Budget.Reserve` | src/server/ai-ml/request-budget.ts:65-190 | repeat, mismatch, exceeded or granted, exceeded if and only if a limit is reached in the last 24 hours of the whole history; every 24-hour window of it, purged rows included, stays within the three limits |
| `RequestBudget.AdmissibleUnlessExhausted` | src/server/ai-ml/request-budget.ts:140-178 | the three counts admit a request if and only if no limit is reached by the last 24 hours of the whole history |
| `RequestBudget.CleanupRemovesExpired` | src/server/ai-ml/request-budget.ts:92-109 | a call removes the oldest rows past eight days, all of them or 500 |
| `RequestBudget.WellFormedExactly` | src/server/ai-ml/request-budget.ts:65-84 | what a reservation may ask for |
| `RequestBudget.GrantKeepsBudget` | src/server/ai-ml/request-budget.ts:140-190 | a grant checked at earlier clock readings breaks no window |
| `RequestBudget.AdmissibleOverHistory` | src/server/ai-ml/request-budget.ts:94-109 | purged rows cannot matter to any count |
| `RequestBudget.RepeatFindsFirst` | src/server/ai-ml/request-budget.ts:111-138 | a repeated (claim, attempt) within retention finds its first reservation, whatever cleanup removes |
| `RequestBudget.Budget.PurgeExpiredReservations` | src/server/ai-ml/request-budget.ts:192-205 | maintenance removes exactly the rows past retention |
| `RequestBudget.NewBudget` | src/server/ai-ml/request-budget.ts:35-63 | exactly the limits from one to the largest safe integer are accepted |

## Left out

- HTTP routes, sign-in, rate limiting of commands, tickets, React, Monaco and configuration: plumbing around the modelled services.
- Activity messages, best pass counts, event payloads, explanations, telemetry and token counts: columns no transition reads.
- SQL isolation: one transaction holding its match row lock is one atomic step, and a thrown error leaves every table as it was.
- Several clock readings within one transaction: one reading per transaction, except in the request budget, which takes one per statement.
- Session rows: what the presence queries return (`live`, `active`, `lastSeen`) is an argument of the step, so every answer is covered.
- Which of several errors is reported first when a request is wrong in several ways and names no existing match.
- A replayed rematch vote reports the stored response; that the engine then redirects to the newer match is not modelled.
- Hashes, invite tokens and random ids: payloads are compared directly and ids are counters that never repeat.
- Catalog changes during a run: problems per difficulty are fixed and distinct, and the chosen index is arbitrary.
- Runner and judge themselves: any result and any verdict may come back at any time, or never.
- setLanguage, createRoom, joinRoom, connectSession and reconcileConnection are modelled as atomic steps only, not statement by statement.
- Stale-execution recovery is a completion with an infrastructure error, so it is one of the completions covered.
- Unicode normalization (NFC is taken as already applied) and lone surrogates in answers: text is a sequence of scalar values.
- Word, character and byte limits other than those of the shared constants.
- Non-ASCII JSON digits: Character.isDigit and Integer.parseInt also accept non-ASCII digits; only ASCII digits are modelled.
- Floating-point numbers in JSON, and CAPTURE_LIMIT: printed output is not cut off by size.
- Java stack depth: the parser's recursion is not bounded.
- JavaScript arrays with holes and numbers that are not integers: they count as not being judge values.
- JudgeCompare.SortCanonical: the built-in sorts are taken to be stable sorts by their comparator.
- ChargeWindow.WindowReference: cells are nonnegative and the threshold positive, as the problem statement guarantees.
- RelayIslands.IslandsReference: every row is as long as the first, as the problem statement guarantees.
- ShieldRoute.ShieldReference: the vault has at least one room and equal rows, as the problem statement guarantees.
- CallsignGroups.CallsignReference: callsigns are lower-case letters, as the problem statement guarantees.
- PhaseCount.PhaseReference: one character is one code unit, as it is for the ASCII transmissions of the fixtures.
- UTF-8 decoding across chunk cuts: a chunk arrives as its decoded text and its byte count.
- RequestBudget.Budget.Reserve: rows that expire at the same microsecond are removed in insertion order.
- pairedReference, longestReference, fixture texts, exemplar answers and single-branch verdict classifiers: only easy members.
