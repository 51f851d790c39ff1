/** The rolling request budget of the AI/ML judge (src/server/ai-ml/request-budget.ts): three limits per 24 hours,
    counted over a table that forgets rows after eight days. */
module RequestBudget {
  import opened Domain
  import AnswerText

  const DAY: Time := 86_400_000_000
  const RETENTION: Time := 8 * DAY
  const CLEANUP_BATCH := 500

  type EvaluationId = int
  type ClaimId = int

  /** The charged users' ids, as text: whether one is blank is for the budget to check. */
  type AccountId = string

  datatype Row = Row(id: int, evaluation: EvaluationId, claim: ClaimId, attempt: int, model: string,
                     users: set<AccountId>, at: Time)

  datatype Request = Request(evaluation: EvaluationId, claim: ClaimId, attempt: int, model: string,
                             users: seq<AccountId>)

  datatype Limits = Limits(total: int, perUser: int, perMatch: int)

  datatype Reply = Granted(id: int, at: Time) | BudgetExceeded | IdentityMismatch | InvalidRequest

  // ----- counting

  function Count(rows: seq<Row>, p: Row -> bool): nat {
    if rows == [] then 0 else Count(rows[..|rows| - 1], p) + if p(rows[|rows| - 1]) then 1 else 0
  }

  function Since(cutoff: Time): Row -> bool {
    (r: Row) => r.at >= cutoff
  }

  function MatchSince(e: EvaluationId, cutoff: Time): Row -> bool {
    (r: Row) => r.at >= cutoff && r.evaluation == e
  }

  function UserSince(u: AccountId, cutoff: Time): Row -> bool {
    (r: Row) => r.at >= cutoff && u in r.users
  }

  /** A closed window of 24 hours. */
  predicate InWindow(r: Row, start: Time) {
    start <= r.at <= start + DAY
  }

  function Window(start: Time): Row -> bool {
    (r: Row) => InWindow(r, start)
  }

  function MatchWindow(e: EvaluationId, start: Time): Row -> bool {
    (r: Row) => InWindow(r, start) && r.evaluation == e
  }

  function UserWindow(u: AccountId, start: Time): Row -> bool {
    (r: Row) => InWindow(r, start) && u in r.users
  }

  lemma {:induction false} CountAtMost(rows: seq<Row>, p: Row -> bool, q: Row -> bool)
    requires forall i :: 0 <= i < |rows| && p(rows[i]) ==> q(rows[i])
    ensures Count(rows, p) <= Count(rows, q)
    decreases |rows|
  {
    if rows != [] {
      CountAtMost(rows[..|rows| - 1], p, q);
    }
  }

  /** Rows dropped from the front that do not count anyway. */
  lemma {:induction false} CountSuffix(rows: seq<Row>, dropped: nat, p: Row -> bool)
    requires dropped <= |rows| && forall i :: 0 <= i < dropped ==> !p(rows[i])
    ensures Count(rows[dropped..], p) == Count(rows, p)
    decreases |rows|
  {
    if rows != [] {
      var front := rows[..|rows| - 1];
      if dropped == |rows| {
        NoneCount(rows, p);
      } else {
        CountSuffix(front, dropped, p);
        assert rows[dropped..][..|rows| - dropped - 1] == front[dropped..];
      }
    }
  }

  lemma {:induction false} NoneCount(rows: seq<Row>, p: Row -> bool)
    requires forall i :: 0 <= i < |rows| ==> !p(rows[i])
    ensures Count(rows, p) == 0
    decreases |rows|
  {
    if rows != [] {
      NoneCount(rows[..|rows| - 1], p);
    }
  }

  lemma CountOneMore(rows: seq<Row>, r: Row, p: Row -> bool)
    ensures Count(rows + [r], p) == Count(rows, p) + if p(r) then 1 else 0
  {
    assert (rows + [r])[..|rows|] == rows;
  }

  lemma {:induction false} CountIsSize(rows: seq<Row>, p: Row -> bool)
    ensures Count(rows, p) == |set i | 0 <= i < |rows| && p(rows[i])|
    decreases |rows|
  {
    if rows != [] {
      var n := |rows| - 1;
      var front := rows[..n];
      CountIsSize(front, p);
      CountLast(rows, p);
      PlacesLast(rows, p);
    }
  }

  lemma {:induction false} CountLast(rows: seq<Row>, p: Row -> bool)
    requires rows != []
    ensures Count(rows, p) == Count(rows[..|rows| - 1], p) + if p(rows[|rows| - 1]) then 1 else 0
  {
  }

  lemma {:induction false} PlacesLast(rows: seq<Row>, p: Row -> bool)
    requires rows != []
    ensures
      var n := |rows| - 1;
      |set i | 0 <= i < |rows| && p(rows[i])|
      == |set i | 0 <= i < |rows[..n]| && p(rows[..n][i])| + if p(rows[n]) then 1 else 0
  {
    hide Count;
    var n := |rows| - 1;
    var front := rows[..n];
    var inFront, all := set i | 0 <= i < |front| && p(front[i]), set i | 0 <= i < |rows| && p(rows[i]);
    assert forall i :: 0 <= i < n ==> front[i] == rows[i];
    if p(rows[n]) {
      assert all == inFront + {n};
    } else {
      assert all == inFront;
    }
  }

  // ----- the promise

  /** No 24-hour window of the whole history exceeds a limit. */
  ghost predicate WithinBudget(limits: Limits, history: seq<Row>) {
    && (forall start :: Count(history, Window(start)) <= limits.total)
    && (forall e, start :: Count(history, MatchWindow(e, start)) <= limits.perMatch)
    && (forall u, start :: Count(history, UserWindow(u, start)) <= limits.perUser)
  }

  /** One kind of window, one new row: `recent` counts what the check counted. */
  lemma WindowHolds(history: seq<Row>, r: Row, window: Row -> bool, recent: Row -> bool, limit: int)
    requires Count(history, window) <= limit
    requires window(r) ==> Count(history, recent) < limit
    requires window(r) ==> forall i :: 0 <= i < |history| && window(history[i]) ==> recent(history[i])
    ensures Count(history + [r], window) <= limit
  {
    CountOneMore(history, r, window);
    if window(r) {
      CountAtMost(history, window, recent);
    }
  }

  /** What reserve has checked, about the rows still in the table. */
  predicate Admissible(limits: Limits, rows: seq<Row>, evaluation: EvaluationId, users: set<AccountId>, total: Time,
                       perMatch: Time, perUser: Time)
  {
    && Count(rows, Since(total - DAY)) < limits.total
    && Count(rows, MatchSince(evaluation, perMatch - DAY)) < limits.perMatch
    && forall u :: u in users ==> Count(rows, UserSince(u, perUser - DAY)) < limits.perUser
  }

  /** Purged rows are too old for any of the counts. */
  lemma AdmissibleOverHistory(limits: Limits, history: seq<Row>, purged: nat, evaluation: EvaluationId,
                              users: set<AccountId>,
                              total: Time, perMatch: Time, perUser: Time)
    requires purged <= |history| && Admissible(limits, history[purged..], evaluation, users, total, perMatch, perUser)
    requires forall i :: 0 <= i < purged ==>
               history[i].at < total - DAY && history[i].at < perMatch - DAY && history[i].at < perUser - DAY
    ensures Admissible(limits, history, evaluation, users, total, perMatch, perUser)
  {
    CountSuffix(history, purged, Since(total - DAY));
    CountSuffix(history, purged, MatchSince(evaluation, perMatch - DAY));
    forall u | u in users
      ensures Count(history, UserSince(u, perUser - DAY)) < limits.perUser
    {
      CountSuffix(history, purged, UserSince(u, perUser - DAY));
    }
  }

  /** The rows of a history that one limit counts: those of the last 24 hours, all of them, one evaluation's, or those
      charged to one account. */
  function Recent(history: seq<Row>, now: Time): set<int> {
    set i | 0 <= i < |history| && now - 86_400_000_000 <= history[i].at
  }

  function RecentOf(history: seq<Row>, evaluation: EvaluationId, now: Time): set<int> {
    set i | 0 <= i < |history| && now - 86_400_000_000 <= history[i].at && history[i].evaluation == evaluation
  }

  function RecentBy(history: seq<Row>, user: AccountId, now: Time): set<int> {
    set i | 0 <= i < |history| && now - 86_400_000_000 <= history[i].at && user in history[i].users
  }

  /** One more request would exceed a limit, counted over the whole history. */
  predicate Exhausted(limits: Limits, history: seq<Row>, evaluation: EvaluationId, users: seq<AccountId>, clock: Clock)
  {
    || |Recent(history, clock.total)| >= limits.total
    || |RecentOf(history, evaluation, clock.perMatch)| >= limits.perMatch
    || exists u :: u in users && |RecentBy(history, u, clock.perUser)| >= limits.perUser
  }

  lemma SameCount(rows: seq<Row>, p: Row -> bool, counted: set<int>)
    requires forall i :: i in counted <==> 0 <= i < |rows| && p(rows[i])
    ensures Count(rows, p) == |counted|
  {
    CountIsSize(rows, p);
    assert counted == set i | 0 <= i < |rows| && p(rows[i]);
  }

  /** What the statements find in the cleaned table is what the whole history holds: the request is admissible exactly
      when no limit is exhausted. */
  lemma AdmissibleUnlessExhausted(limits: Limits, history: seq<Row>, purged: nat, request: Request, clock: Clock)
    requires purged <= |history|
    requires forall i :: 0 <= i < purged ==>
               history[i].at < clock.total - DAY && history[i].at < clock.perMatch - DAY
               && history[i].at < clock.perUser - DAY
    ensures AdmissibleRequest(limits, history[purged..], request, clock)
            <==> !Exhausted(limits, history, request.evaluation, request.users, clock)
  {
    CountSuffix(history, purged, Since(clock.total - DAY));
    SameCount(history, Since(clock.total - DAY), Recent(history, clock.total));
    CountSuffix(history, purged, MatchSince(request.evaluation, clock.perMatch - DAY));
    SameCount(history, MatchSince(request.evaluation, clock.perMatch - DAY),
              RecentOf(history, request.evaluation, clock.perMatch));
    forall u
      ensures Count(history[purged..], UserSince(u, clock.perUser - DAY)) == |RecentBy(history, u, clock.perUser)|
    {
      CountSuffix(history, purged, UserSince(u, clock.perUser - DAY));
      SameCount(history, UserSince(u, clock.perUser - DAY), RecentBy(history, u, clock.perUser));
    }
    assert forall u :: u in Charged(request.users) <==> u in request.users;
  }

  lemma GrantKeepsBudget(limits: Limits, history: seq<Row>, r: Row, total: Time, perMatch: Time, perUser: Time)
    requires WithinBudget(limits, history)
    requires Admissible(limits, history, r.evaluation, r.users, total, perMatch, perUser)
    requires total <= r.at && perMatch <= r.at && perUser <= r.at
    ensures WithinBudget(limits, history + [r])
  {
    forall start
      ensures Count(history + [r], Window(start)) <= limits.total
    {
      WindowHolds(history, r, Window(start), Since(total - DAY), limits.total);
    }
    forall e, start
      ensures Count(history + [r], MatchWindow(e, start)) <= limits.perMatch
    {
      WindowHolds(history, r, MatchWindow(e, start), MatchSince(r.evaluation, perMatch - DAY), limits.perMatch);
    }
    forall u, start
      ensures Count(history + [r], UserWindow(u, start)) <= limits.perUser
    {
      WindowHolds(history, r, UserWindow(u, start), UserSince(u, perUser - DAY), limits.perUser);
    }
  }

  // ----- the table

  function Expired(rows: seq<Row>, cutoff: Time): (n: nat)
    ensures n <= |rows| && forall i :: 0 <= i < n ==> rows[i].at < cutoff
  {
    if rows != [] && rows[0].at < cutoff then 1 + Expired(rows[1..], cutoff) else 0
  }

  predicate Ordered(rows: seq<Row>) {
    forall i, j :: 0 <= i < j < |rows| ==> rows[i].at <= rows[j].at
  }

  /** Rows are inserted with a nondecreasing clock, so the expired ones are a prefix. */
  lemma {:induction false} ExpiredIsAll(rows: seq<Row>, cutoff: Time)
    requires Ordered(rows)
    ensures forall i :: Expired(rows, cutoff) <= i < |rows| ==> rows[i].at >= cutoff
    decreases |rows|
  {
    if rows != [] {
      if rows[0].at < cutoff {
        ExpiredIsAll(rows[1..], cutoff);
        assert forall i :: 1 <= i < |rows| ==> rows[i] == rows[1..][i - 1];
      }
    }
  }

  /** The request path deletes at most a batch of the oldest expired rows. */
  function Cleaned(rows: seq<Row>, now: Time, batch: nat): seq<Row> {
    var n := Expired(rows, now - RETENTION);
    rows[if n < batch then n else batch..]
  }

  function Lookup(rows: seq<Row>, claim: ClaimId, attempt: int): Option<Row> {
    if rows == [] then None
    else if rows[0].claim == claim && rows[0].attempt == attempt then Some(rows[0])
    else Lookup(rows[1..], claim, attempt)
  }

  lemma {:induction false} LookupFinds(rows: seq<Row>, claim: ClaimId, attempt: int)
    ensures Lookup(rows, claim, attempt).None?
            <==> forall i :: 0 <= i < |rows| ==> rows[i].claim != claim || rows[i].attempt != attempt
    ensures Lookup(rows, claim, attempt).Some? ==> Lookup(rows, claim, attempt).value in rows
  {
    if rows != [] {
      LookupFinds(rows[1..], claim, attempt);
      assert forall i :: 1 <= i < |rows| ==> rows[i] == rows[1..][i - 1];
    }
  }

  /** The table is the history without a purged prefix, and only rows past retention were ever purged. */
  ghost predicate Table(rows: seq<Row>, history: seq<Row>, purged: nat, latest: Time) {
    && purged <= |history| && rows == history[purged..]
    && Ordered(history) && (forall i :: 0 <= i < |history| ==> history[i].at <= latest)
    && (forall i :: 0 <= i < purged ==> history[i].at < latest - RETENTION)
  }

  ghost predicate UniqueKeys(rows: seq<Row>) {
    forall i, j :: 0 <= i < j < |rows| ==> rows[i].claim != rows[j].claim || rows[i].attempt != rows[j].attempt
  }

  lemma DropKeepsTable(rows: seq<Row>, history: seq<Row>, purged: nat, latest: Time, n: nat, now: Time)
    requires Table(rows, history, purged, latest) && UniqueKeys(rows) && latest <= now
    requires n <= Expired(rows, now - RETENTION)
    ensures Table(rows[n..], history, purged + n, now) && UniqueKeys(rows[n..])
  {
    assert history[purged..][n..] == history[purged + n..];
    forall i | 0 <= i < purged + n
      ensures history[i].at < now - RETENTION
    {
      assert i >= purged ==> history[i] == rows[i - purged];
    }
  }

  lemma AddKeepsTable(rows: seq<Row>, history: seq<Row>, purged: nat, latest: Time, r: Row)
    requires Table(rows, history, purged, latest) && UniqueKeys(rows) && latest <= r.at
    requires Lookup(rows, r.claim, r.attempt).None?
    ensures Table(rows + [r], history + [r], purged, r.at) && UniqueKeys(rows + [r])
  {
    LookupFinds(rows, r.claim, r.attempt);
    assert history[purged..] + [r] == (history + [r])[purged..];
  }

  predicate DistinctUsers(users: seq<AccountId>) {
    forall i, j :: 0 <= i < j < |users| ==> users[i] != users[j]
  }

  function Charged(users: seq<AccountId>): set<AccountId> {
    set u | u in users
  }

  /** trim() leaves nothing. */
  predicate Blank(s: string) {
    forall i :: 0 <= i < |s| ==> AnswerText.Space(s[i])
  }

  predicate WellFormed(request: Request) {
    && 1 <= request.attempt <= 3 && !Blank(request.model)
    && DistinctUsers(request.users) && 1 <= |request.users| <= 2
    && forall i :: 0 <= i < |request.users| ==> !Blank(request.users[i])
  }

  /** The clock as each statement of one call reads it. */
  datatype Clock = Clock(cleanup: Time, total: Time, perMatch: Time, perUser: Time, insert: Time)

  predicate Ticks(clock: Clock, since: Time) {
    since <= clock.cleanup <= clock.total <= clock.perMatch <= clock.perUser <= clock.insert
  }

  predicate LimitOk(limit: int) {
    1 <= limit <= MAX_SAFE_INTEGER
  }

  method NewBudget(limits: Limits) returns (r: Option<Budget>)
    ensures r.Some? <==> && 1 <= limits.total <= 9_007_199_254_740_991
                         && 1 <= limits.perUser <= 9_007_199_254_740_991
                         && 1 <= limits.perMatch <= 9_007_199_254_740_991
    ensures r.Some? ==> fresh(r.value) && r.value.Valid() && r.value.limits == limits && r.value.history == []
  {
    if !LimitOk(limits.total) || !LimitOk(limits.perUser) || !LimitOk(limits.perMatch) {
      return None;
    }
    var budget := new Budget(limits);
    return Some(budget);
  }

  class Budget {
    const limits: Limits
    var rows: seq<Row>
    var nextId: int
    ghost var history: seq<Row>
    ghost var purged: nat
    ghost var latest: Time

    constructor (limits: Limits)
      requires LimitOk(limits.total) && LimitOk(limits.perUser) && LimitOk(limits.perMatch)
      ensures Valid() && this.limits == limits && history == []
    {
      this.limits := limits;
      rows, nextId, history, purged, latest := [], 0, [], 0, 0;
    }

    ghost predicate Valid()
      reads this
    {
      Table(rows, history, purged, latest) && UniqueKeys(rows) && WithinBudget(limits, history)
    }

    method CountRows(p: Row -> bool) returns (n: nat)
      ensures n == Count(rows, p)
    {
      n := 0;
      for i := 0 to |rows|
        invariant n == Count(rows[..i], p)
      {
        assert rows[..i + 1][..i] == rows[..i];
        if p(rows[i]) {
          n := n + 1;
        }
      }
      assert rows[..|rows|] == rows;
    }

    method FindReservation(claim: ClaimId, attempt: int) returns (found: Option<Row>)
      ensures found == Lookup(rows, claim, attempt)
    {
      for i := 0 to |rows|
        invariant Lookup(rows, claim, attempt) == Lookup(rows[i..], claim, attempt)
      {
        assert rows[i..][1..] == rows[i + 1..];
        if rows[i].claim == claim && rows[i].attempt == attempt {
          return Some(rows[i]);
        }
      }
      return None;
    }

    method AnyUserExhausted(users: seq<AccountId>, cutoff: Time) returns (exhausted: bool)
      ensures exhausted <==> exists u :: u in users && Count(rows, UserSince(u, cutoff)) >= limits.perUser
    {
      for k := 0 to |users|
        invariant forall i :: 0 <= i < k ==> Count(rows, UserSince(users[i], cutoff)) < limits.perUser
      {
        var used := CountRows(UserSince(users[k], cutoff));
        if used >= limits.perUser {
          assert users[k] in users;
          return true;
        }
      }
      return false;
    }

    /** Deletes the oldest expired rows, at most `batch` of them. */
    method Cleanup(now: Time, batch: nat)
      requires Valid() && latest <= now
      modifies this`rows, this`purged, this`latest
      ensures Valid() && latest == now && rows == Cleaned(old(rows), now, batch)
    {
      hide Table, UniqueKeys, WithinBudget;
      var n := Expired(rows, now - RETENTION);
      n := if n < batch then n else batch;
      DropKeepsTable(rows, history, purged, latest, n, now);
      rows := rows[n..];
      purged, latest := purged + n, now;
    }

    /** Daily maintenance removes every expired row, and no other. */
    method PurgeExpiredReservations(now: Time) returns (deleted: nat)
      requires Valid() && latest <= now
      modifies this`rows, this`purged, this`latest
      ensures Valid() && history == old(history)
      ensures deleted <= |old(rows)| && rows == old(rows)[deleted..]
      ensures forall i :: 0 <= i < |old(rows)| ==> (old(rows)[i].at < now - 691_200_000_000 <==> i < deleted)
    {
      deleted := Expired(rows, now - RETENTION);
      RowsOrdered(rows, history, purged, latest);
      ExpiredIsAll(rows, now - RETENTION);
      Cleanup(now, |rows|);
    }

    /** One reservation, or the reason there is none. A call that throws leaves the table as it was; a repeated
        (claim, attempt) within retention gets its first reservation back and adds none. */
    method Reserve(request: Request, clock: Clock) returns (reply: Reply)
      requires Valid() && Ticks(clock, latest)
      modifies this
      ensures Valid() && latest <= clock.insert
      ensures
        var cleaned := Cleaned(old(rows), clock.cleanup, CLEANUP_BATCH);
        var existing := Lookup(cleaned, request.claim, request.attempt);
        if !WellFormed(request) then reply == InvalidRequest && rows == old(rows) && history == old(history)
        else if existing.Some? then
          && history == old(history)
          && existing.value.claim == request.claim && existing.value.attempt == request.attempt
          && (if && existing.value.evaluation == request.evaluation && existing.value.model == request.model
                 && forall u :: u in existing.value.users <==> u in request.users
              then reply == Granted(existing.value.id, existing.value.at) && rows == cleaned
              else reply == IdentityMismatch && rows == old(rows))
        else if !Exhausted(limits, old(history), request.evaluation, request.users, clock) then
          var r := Row(old(nextId), request.evaluation, request.claim, request.attempt, request.model,
                       (set u | u in request.users), clock.insert);
          reply == Granted(r.id, r.at) && rows == cleaned + [r] && history == old(history) + [r]
        else reply == BudgetExceeded && rows == old(rows) && history == old(history)
    {
      hide Table, UniqueKeys, WithinBudget, Admissible, AdmissibleRequest, Cleaned, Lookup, WellFormed, Exhausted;
      if !WellFormed(request) {
        return InvalidRequest;
      }
      ghost var keptPurged, keptLatest := purged, latest;
      var kept := rows;
      Cleanup(clock.cleanup, CLEANUP_BATCH);
      var existing := FindReservation(request.claim, request.attempt);
      if existing.Some? {
        LookupKeys(rows, request.claim, request.attempt);
        var r := existing.value;
        if r.evaluation != request.evaluation || r.model != request.model || r.users != Charged(request.users) {
          rows, purged, latest := kept, keptPurged, keptLatest;
          return IdentityMismatch;
        }
        return Granted(r.id, r.at);
      }
      var admitted := Admit(request, clock);
      PurgedIsOld(rows, history, purged, latest, clock);
      AdmissibleUnlessExhausted(limits, history, purged, request, clock);
      if !admitted {
        rows, purged, latest := kept, keptPurged, keptLatest;
        return BudgetExceeded;
      }
      var r := Insert(request, clock);
      return Granted(r.id, r.at);
    }

    /** The three counts, in the order the statements run. */
    method Admit(request: Request, clock: Clock) returns (admitted: bool)
      ensures admitted <==> AdmissibleRequest(limits, rows, request, clock)
    {
      var usage := CountRows(Since(clock.total - DAY));
      if usage >= limits.total {
        return false;
      }
      var matchUsage := CountRows(MatchSince(request.evaluation, clock.perMatch - DAY));
      if matchUsage >= limits.perMatch {
        return false;
      }
      var exhausted := AnyUserExhausted(request.users, clock.perUser - DAY);
      if exhausted {
        ghost var u :| u in request.users && Count(rows, UserSince(u, clock.perUser - DAY)) >= limits.perUser;
        assert u in Charged(request.users);
        return false;
      }
      return true;
    }

    method Insert(request: Request, clock: Clock) returns (r: Row)
      requires Valid() && Ticks(clock, latest) && AdmissibleRequest(limits, rows, request, clock)
      requires Lookup(rows, request.claim, request.attempt).None? && clock.cleanup == latest
      modifies this`rows, this`nextId, this`history, this`latest
      ensures Valid() && latest == clock.insert && r == NewRow(old(nextId), request, clock)
      ensures history == old(history) + [r] && rows == old(rows) + [r]
    {
      hide Table, UniqueKeys, WithinBudget, Admissible, Lookup, Expired, Count;
      r := NewRow(nextId, request, clock);
      PurgedIsOld(rows, history, purged, latest, clock);
      AdmissibleOverHistory(limits, history, purged, request.evaluation, r.users, clock.total, clock.perMatch,
                            clock.perUser);
      GrantKeepsBudget(limits, history, r, clock.total, clock.perMatch, clock.perUser);
      AddKeepsTable(rows, history, purged, latest, r);
      history := history + [r];
      rows := rows + [r];
      nextId := nextId + 1;
      latest := clock.insert;
    }
  }

  lemma DroppedAt(rows: seq<Row>, dropped: nat, i: nat)
    requires dropped <= i < |rows|
    ensures rows[dropped..][i - dropped] == rows[i]
  {
  }

  /** A row that survives cleanup is still the only one under its key. */
  lemma KeptIsFound(rows: seq<Row>, dropped: nat, i: nat)
    requires UniqueKeys(rows) && dropped <= i < |rows|
    ensures Lookup(rows[dropped..], rows[i].claim, rows[i].attempt) == Some(rows[i])
  {
    hide Lookup;
    var kept, r := rows[dropped..], rows[i];
    DroppedAt(rows, dropped, i);
    LookupFinds(kept, r.claim, r.attempt);
    LookupKeys(kept, r.claim, r.attempt);
    var found := Lookup(kept, r.claim, r.attempt).value;
    var k :| 0 <= k < |kept| && kept[k] == found;
    DroppedAt(rows, dropped, dropped + k);
  }

  /** A reservation still within retention is found again, however much cleanup removes. */
  lemma RepeatFindsFirst(rows: seq<Row>, r: Row, now: Time, batch: nat)
    requires UniqueKeys(rows) && r in rows && r.at >= now - RETENTION
    ensures Lookup(Cleaned(rows, now, batch), r.claim, r.attempt) == Some(r)
  {
    hide UniqueKeys, Lookup;
    var i :| 0 <= i < |rows| && rows[i] == r;
    var n := Expired(rows, now - RETENTION);
    hide Expired;
    KeptIsFound(rows, if n < batch then n else batch, i);
  }

  /** A call cleans up the oldest expired rows, all of them or 500. */
  lemma CleanupRemovesExpired(rows: seq<Row>, now: Time)
    requires Ordered(rows)
    ensures exists n: nat ::
              && n <= |rows| && n <= 500 && Cleaned(rows, now, CLEANUP_BATCH) == rows[n..]
              && (forall i :: 0 <= i < n ==> rows[i].at < now - 691_200_000_000)
              && (n < 500 ==> forall i :: n <= i < |rows| ==> rows[i].at >= now - 691_200_000_000)
  {
    ExpiredIsAll(rows, now - RETENTION);
    var n := Expired(rows, now - RETENTION);
    hide Expired;
    var removed: nat := if n < CLEANUP_BATCH then n else CLEANUP_BATCH;
    assert Cleaned(rows, now, CLEANUP_BATCH) == rows[removed..];
  }

  /** What a reservation may ask for. */
  lemma WellFormedExactly(request: Request)
    ensures WellFormed(request)
            <==> && 1 <= request.attempt <= 3
                 && (exists i :: 0 <= i < |request.model| && !AnswerText.Space(request.model[i]))
                 && (|request.users| == 1 || (|request.users| == 2 && request.users[0] != request.users[1]))
                 && forall u :: u in request.users ==> exists i :: 0 <= i < |u| && !AnswerText.Space(u[i])
  {
    forall k | 0 <= k < |request.users|
      ensures request.users[k] in request.users
      ensures !Blank(request.users[k])
              <==> exists i :: 0 <= i < |request.users[k]| && !AnswerText.Space(request.users[k][i])
    {
    }
    assert |request.users| == 2 ==> (DistinctUsers(request.users) <==> request.users[0] != request.users[1]);
  }

  lemma {:induction false} LookupKeys(rows: seq<Row>, claim: ClaimId, attempt: int)
    requires Lookup(rows, claim, attempt).Some?
    ensures var r := Lookup(rows, claim, attempt).value; r.claim == claim && r.attempt == attempt
  {
    if rows[0].claim != claim || rows[0].attempt != attempt {
      LookupKeys(rows[1..], claim, attempt);
    }
  }

  lemma PurgedIsOld(rows: seq<Row>, history: seq<Row>, purged: nat, latest: Time, clock: Clock)
    requires Table(rows, history, purged, latest) && Ticks(clock, latest)
    ensures purged <= |history| && rows == history[purged..]
    ensures forall i :: 0 <= i < purged ==>
              history[i].at < clock.total - DAY && history[i].at < clock.perMatch - DAY
                && history[i].at < clock.perUser - DAY
  {
  }

  lemma RowsOrdered(rows: seq<Row>, history: seq<Row>, purged: nat, latest: Time)
    requires Table(rows, history, purged, latest)
    ensures Ordered(rows)
  {
    assert forall i :: 0 <= i < |rows| ==> rows[i] == history[purged + i];
  }

  function NewRow(id: int, request: Request, clock: Clock): Row {
    Row(id, request.evaluation, request.claim, request.attempt, request.model, Charged(request.users), clock.insert)
  }

  predicate AdmissibleRequest(limits: Limits, rows: seq<Row>, request: Request, clock: Clock) {
    Admissible(limits, rows, request.evaluation, Charged(request.users), clock.total, clock.perMatch, clock.perUser)
  }
}
