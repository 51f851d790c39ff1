/** Two runs worth seeing in full: a duel forfeited over a recorded acceptance, and a join that cannot be repeated once
    its room has moved on. They start from empty tables, under any configuration and any catalog with a problem. */
module Scenarios {
  import opened Domain
  import opened MatchTypes
  import opened MatchRules
  import opened MatchInvariants
  import opened World
  import opened Rotation
  import opened WorldSafety
  import opened SafeRuns
  import opened Winners
  import opened Commands
  import opened Submissions
  import opened Presence

  const HOST: UserId := 0
  const GUEST: UserId := 1
  const ROOM: RoomId := 0
  const FIRST: MatchId := 1
  const HOST_RUN: ExecutionId := 2
  const GUEST_RUN: ExecutionId := 3

  // ----- the runs

  function Seating(): seq<Step> {
    [Register(HOST), Register(GUEST), CreateRoom(HOST, "create", Easy, Duel, Coding, 0),
     JoinRoom(GUEST, "join", ROOM, 0)]
  }

  /** Both players take their seats, choose a language, connect and get ready. */
  function Gathering(): seq<Step> {
    Seating()
    + [ChooseLanguage(HOST, "language", FIRST, Python, 0), ChooseLanguage(GUEST, "language", FIRST, Java, 0)]
    + [Attach(HOST, FIRST, 0), Attach(GUEST, FIRST, 0)]
    + [Ready(HOST, "ready", FIRST, true, {HOST, GUEST}, 0, 0), Ready(GUEST, "ready", FIRST, true, {HOST, GUEST}, 0, 0)]
  }

  /** Then the countdown runs out. */
  function Opening(c: Config): seq<Step> {
    Gathering() + [Advance(FIRST, c.countdown)]
  }

  /** The guest goes away during the countdown, and the host's first run begins the match before its timer does. */
  function Vanishing(c: Config): seq<Step> {
    [Detach(GUEST, FIRST, false, Some(0), 0),
     Start(HOST, "submit", FIRST, Submit, "", c.countdown, 0, c.countdown)]
  }

  /** Both submit, the host first; the guest's submission passes while the host's is still in flight. */
  function Race(c: Config): seq<Step> {
    var t := c.countdown;
    [Start(HOST, "submit", FIRST, Submit, "", t, 0, t), Start(GUEST, "submit", FIRST, Submit, "", t + 1, 1, t + 1),
     Complete(FIRST, GUEST_RUN, Passing(), t + 2)]
  }

  /** The guest gives up at once and both vote for a rematch. */
  function Moving(c: Config): seq<Step> {
    var t := c.countdown;
    [Leave(GUEST, "leave", FIRST, t), Rematch(HOST, "again", FIRST, t + c.rematchWindow - 1),
     Rematch(GUEST, "again", FIRST, t + c.rematchWindow - 1)]
  }

  // ----- walking them

  lemma {:induction false} AfterThen(s: Setting, w: World, steps: seq<Step>, step: Step)
    ensures After(s, w, steps + [step]) == Exec(s, After(s, w, steps), step).0
    decreases |steps|
  {
    hide Exec;
    if steps == [] {
      assert ([step])[1..] == [];
    } else {
      AfterThen(s, Exec(s, w, steps[0]).0, steps[1..], step);
      assert (steps + [step])[1..] == steps[1..] + [step];
    }
  }

  lemma {:induction false} AfterBoth(s: Setting, w: World, steps: seq<Step>, more: seq<Step>)
    ensures After(s, w, steps + more) == After(s, After(s, w, steps), more)
    decreases |steps|
  {
    hide Exec;
    if steps == [] {
      assert steps + more == more;
    } else {
      AfterBoth(s, Exec(s, w, steps[0]).0, steps[1..], more);
      assert (steps + more)[1..] == steps[1..] + more;
    }
  }

  /** The tables of the one duel, as far as the next commands look. */
  predicate Table(w: World, m: Match, used: set<CommandKey>, next: Id) {
    && w.profiles == {HOST, GUEST} && w.matches == map[FIRST := m] && w.nextId == next && w.receipts.Keys == used
    && ROOM in w.rooms && w.rooms.Keys == {ROOM} && w.rooms[ROOM].active == FIRST
    && w.rooms[ROOM].members == map[HOST := 1, GUEST := 2]
  }

  predicate Row(m: Match, state: State, players: Participants, executions: Executions) {
    && m.roomId == ROOM && m.round == 1 && m.mode == Duel && m.challenge == Coding && m.difficulty == Easy
    && m.state == state && m.participants == players && m.executions == executions
    && m.winner.None? && m.votes == {} && m.rematchCreated.None?
  }

  function Player(slot: nat, language: Option<Language>, ready: bool, connected: bool, execution: Option<ExecutionId>)
    : Participant
  {
    Participant(slot, language, ready, execution, None, None, connected, None, None, None)
  }

  lemma Created(s: Setting)
    ensures
      var w := After(s, INITIAL, Seating()[..3]);
      && w.profiles == {HOST, GUEST} && w.receipts.Keys == {CommandKey(HOST, "create")} && w.nextId == 2
      && w.rooms == map[ROOM := HostedBy(HOST, Easy, Duel, Coding, FIRST)]
      && w.matches == map[FIRST := FirstRound(HOST, ROOM, Easy, Duel, Coding, 0)]
  {
    hide FirstRound;
    var a := Exec(s, INITIAL, Register(HOST)).0;
    var b := Exec(s, a, Register(GUEST)).0;
    assert b.profiles == {HOST, GUEST} && b.rooms == map[] && b.matches == map[] && b.receipts == map[];
    var d := Exec(s, b, CreateRoom(HOST, "create", Easy, Duel, Coding, 0)).0;
    assert d.receipts == map[CommandKey(HOST, "create") := d.receipts[CommandKey(HOST, "create")]];
    hide Exec;
    ThreeSteps(s, INITIAL, Seating()[..3]);
  }

  lemma GuestSits(w: World, m: Match)
    requires w.profiles == {HOST, GUEST} && w.receipts.Keys == {CommandKey(HOST, "create")} && w.nextId == 2
    requires w.rooms == map[ROOM := HostedBy(HOST, Easy, Duel, Coding, FIRST)] && w.matches == map[FIRST := m]
    ensures
      var r := Seat(w, GUEST, ROOM, 0);
      && r.Ok? && Table(r.value.0, JoinMatch(m, GUEST, 0), {CommandKey(HOST, "create")}, 2)
      && r.value == (r.value.0.(receipts := w.receipts), RoomResponse(ROOM, FIRST))
  {
    hide JoinMatch;
  }

  lemma BothSeated(first: Match)
    requires first == FirstRound(HOST, ROOM, Easy, Duel, Coding, 0)
    ensures Row(JoinMatch(first, GUEST, 0), Lobby, Fresh(None, None, false, false), map[])
  {
    hide EventTime;
  }

  lemma HostedActive()
    ensures
      var r := HostedBy(HOST, Easy, Duel, Coding, FIRST);
      r.active == FIRST && r.mode == Duel && r.host == HOST && !r.closed
  {
  }

  lemma Seated(s: Setting)
    ensures
      var before, w := After(s, INITIAL, Seating()[..3]), After(s, INITIAL, Seating());
      && w == Exec(s, before, Seating()[3]).0 && Exec(s, before, Seating()[3]).1.Applied?
      && ROOM in before.rooms && before.rooms[ROOM].active == FIRST && FIRST in w.matches
      && Table(w, w.matches[FIRST], {CommandKey(HOST, "create"), CommandKey(GUEST, "join")}, 2)
      && Row(w.matches[FIRST], Lobby, Fresh(None, None, false, false), map[])
  {
    hide EventTime, FirstRound, JoinMatch, Table, Row, Fresh, HostedBy;
    Created(s);
    var before := After(s, INITIAL, Seating()[..3]);
    var first := FirstRound(HOST, ROOM, Easy, Duel, Coding, 0);
    GuestSits(before, first);
    HostedActive();
    BothSeated(first);
    IssuedTable(before, Seat(before, GUEST, ROOM, 0).value.0, JoinMatch(first, GUEST, 0), {CommandKey(HOST, "create")},
                2, GUEST, "join", JoinRoomCommand, RoomRef(ROOM), RoomResponse(ROOM, FIRST));
    assert {CommandKey(HOST, "create")} + {CommandKey(GUEST, "join")}
        == {CommandKey(HOST, "create"), CommandKey(GUEST, "join")};
    hide Seat, Command;
    assert Seating() == Seating()[..3] + [Seating()[3]];
    AfterThen(s, INITIAL, Seating()[..3], Seating()[3]);
  }

  /** A command issued under a fresh key adds its receipt to whatever tables its effect leaves. */
  lemma IssuedTable(w: World, after: World, n: Match, used: set<CommandKey>, next: Id, actor: UserId, key: string,
                    command: CommandType, payload: Payload, response: Response)
    requires Table(after, n, used, next) && after.receipts == w.receipts
    requires KeyOk(key) && CommandKey(actor, key) !in used
    ensures
      var r := Command(w, actor, key, command, Some(FIRST), payload, Ok((after, response)));
      r.1.Applied? && Table(r.0, n, used + {CommandKey(actor, key)}, next)
  {
    var r := Command(w, actor, key, command, Some(FIRST), payload, Ok((after, response))).0;
    assert r.receipts.Keys == used + {CommandKey(actor, key)};
  }

  lemma CommittedTable(w: World, m: Match, used: set<CommandKey>, next: Id, n: Match)
    requires Table(w, m, used, next)
    ensures Table(Commit(w, FIRST, n), n, used, next)
  {
    assert Commit(w, FIRST, n).matches == map[FIRST := n];
  }

  lemma CommandTable(w: World, m: Match, used: set<CommandKey>, next: Id, actor: UserId, key: string,
                     command: CommandType, payload: Payload, r: Result<Match>, response: Response)
    requires Table(w, m, used, next) && actor in m.participants && KeyOk(key) && CommandKey(actor, key) !in used
    requires r.Ok?
    ensures Table(MatchCommand(w, actor, key, command, FIRST, payload, r, response).0, r.value,
                  used + {CommandKey(actor, key)}, next)
  {
    hide Command;
    CommittedTable(w, m, used, next, r.value);
    IssuedTable(w, Commit(w, FIRST, r.value), r.value, used, next, actor, key, command, payload, response);
  }

  lemma BackgroundTable(w: World, m: Match, used: set<CommandKey>, next: Id, r: Result<Match>)
    requires Table(w, m, used, next) && r.Ok?
    ensures Table(Background(w, FIRST, r).0, r.value, used, next)
  {
    assert Background(w, FIRST, r).0.matches == map[FIRST := r.value];
  }

  lemma LanguageChosen(s: Setting, w: World, m: Match, used: set<CommandKey>, next: Id, players: Participants,
                       actor: UserId, key: string, language: Language)
    requires Table(w, m, used, next) && Row(m, Lobby, players, map[]) && actor in players
    requires KeyOk(key) && CommandKey(actor, key) !in used
    ensures
      var after := Exec(s, w, ChooseLanguage(actor, key, FIRST, language, 0)).0;
      FIRST in after.matches && Table(after, after.matches[FIRST], used + {CommandKey(actor, key)}, next)
      && Row(after.matches[FIRST], Lobby,
             players[actor := players[actor].(language := Some(language), ready := false)], map[])
  {
    hide EventTime, MatchCommand;
    CommandTable(w, m, used, next, actor, key, SetLanguageCommand, LanguageChoice(language),
                 SetLanguage(m, actor, language, 0), Done);
  }

  lemma Attached(s: Setting, w: World, m: Match, used: set<CommandKey>, next: Id, players: Participants, user: UserId)
    requires Table(w, m, used, next) && Row(m, Lobby, players, map[]) && user in players
    ensures
      var after := Exec(s, w, Attach(user, FIRST, 0)).0;
      FIRST in after.matches && Table(after, after.matches[FIRST], used, next)
      && Row(after.matches[FIRST], Lobby,
             players[user := players[user].(connected := true, disconnectedAt := None, reconnectDeadline := None)],
               map[])
  {
    hide EventTime, Background;
    BackgroundTable(w, m, used, next, Connect(s.config, m, user, 0));
  }

  /** The first one to be ready waits. */
  lemma HostReady(s: Setting, w: World, m: Match, used: set<CommandKey>, next: Id, players: Participants)
    requires Table(w, m, used, next) && Row(m, Lobby, players, map[])
    requires players.Keys == {HOST, GUEST} && players[HOST].language.Some? && players[HOST].connected
    requires !players[GUEST].ready
    requires CommandKey(HOST, "ready") !in used
    ensures
      var after := Exec(s, w, Ready(HOST, "ready", FIRST, true, {HOST, GUEST}, 0, 0)).0;
      FIRST in after.matches && Table(after, after.matches[FIRST], used + {CommandKey(HOST, "ready")}, next)
      && Row(after.matches[FIRST], Lobby, players[HOST := players[HOST].(ready := true)], map[])
  {
    hide EventTime, MatchCommand, ProblemsBelow;
    var one := players[HOST := players[HOST].(ready := true)];
    assert GUEST in one && !one[GUEST].ready;
    CommandTable(w, m, used, next, HOST, "ready", SetReadyCommand, ReadyChoice(true),
                 ReadyRule(s, w, FIRST, HOST, true, {HOST, GUEST}, 0, 0), Done);
  }

  lemma FirstRoundDraws(s: Setting, w: World, m: Match)
    requires m.round == 1 && Problems(s, Coding, Easy) != []
    ensures ChooseProblem(Problems(s, Coding, Easy), ProblemsBelow(w.matches, m, m.round), 0).Ok?
  {
  }

  lemma GuestStartsCountdown(c: Config, m: Match, players: Participants, all: seq<Problem>, previous: seq<nat>)
    requires Row(m, Lobby, players, map[]) && players.Keys == {HOST, GUEST} && ChooseProblem(all, previous, 0).Ok?
    requires forall u :: u in players ==>
             players[u].language.Some? && players[u].connected && (u == HOST ==> players[u].ready)
    ensures
      var r := SetReady(c, m, GUEST, true, {HOST, GUEST}, all, previous, 0, 0);
      && r.Ok? && Row(r.value, Countdown, players[GUEST := players[GUEST].(ready := true)], map[])
      && r.value.startsAt == Some(c.countdown) && r.value.problem.Some?
  {
    hide EventTime, ChooseProblem;
    var both := players[GUEST := players[GUEST].(ready := true)];
    assert both.Keys == {HOST, GUEST} && |both.Keys| == 2;
  }

  /** The second one starts the countdown. */
  lemma GuestReady(s: Setting, w: World, m: Match, used: set<CommandKey>, next: Id, players: Participants)
    requires Table(w, m, used, next) && Row(m, Lobby, players, map[]) && Problems(s, Coding, Easy) != []
    requires players.Keys == {HOST, GUEST}
    requires forall u :: u in players ==>
             players[u].language.Some? && players[u].connected && (u == HOST ==> players[u].ready)
    requires CommandKey(GUEST, "ready") !in used
    ensures
      var after := Exec(s, w, Ready(GUEST, "ready", FIRST, true, {HOST, GUEST}, 0, 0)).0;
      FIRST in after.matches && Table(after, after.matches[FIRST], used + {CommandKey(GUEST, "ready")}, next)
      && Row(after.matches[FIRST], Countdown, players[GUEST := players[GUEST].(ready := true)], map[])
      && after.matches[FIRST].startsAt == Some(s.config.countdown) && after.matches[FIRST].problem.Some?
  {
    hide MatchCommand, ProblemsBelow, ChooseProblem, SetReady;
    FirstRoundDraws(s, w, m);
    GuestStartsCountdown(s.config, m, players, Problems(s, Coding, Easy), ProblemsBelow(w.matches, m, m.round));
    CommandTable(w, m, used, next, GUEST, "ready", SetReadyCommand, ReadyChoice(true),
                 ReadyRule(s, w, FIRST, GUEST, true, {HOST, GUEST}, 0, 0), Done);
  }

  lemma Advanced(s: Setting, w: World, m: Match, used: set<CommandKey>, next: Id, players: Participants)
    requires Table(w, m, used, next) && Row(m, Countdown, players, map[]) && m.startsAt == Some(s.config.countdown)
    requires m.problem.Some? && forall u :: u in players ==> players[u].connected
    ensures
      var after := Exec(s, w, Advance(FIRST, s.config.countdown)).0;
      FIRST in after.matches && Table(after, after.matches[FIRST], used, next)
      && Row(after.matches[FIRST], Active, players, map[])
      && after.matches[FIRST].startsAt == m.startsAt && after.matches[FIRST].problem == m.problem
  {
    hide EventTime, Background;
    BackgroundTable(w, m, used, next, Ok(AdvanceCountdown(s.config, m, s.config.countdown)));
    assert (map u | u in players :: Armed(s.config, players[u], s.config.countdown)) == players;
  }

  // ----- the duel is on

  function InPlay(language: Language, slot: nat, execution: Option<ExecutionId>): Participant {
    Player(slot, Some(language), true, true, execution)
  }

  function OpeningKeys(): set<CommandKey> {
    {CommandKey(HOST, "create"), CommandKey(GUEST, "join"), CommandKey(HOST, "language"), CommandKey(GUEST, "language"),
     CommandKey(HOST, "ready"), CommandKey(GUEST, "ready")}
  }

  predicate Playing(s: Setting, w: World) {
    FIRST in w.matches
    && Table(w, w.matches[FIRST], OpeningKeys(), 2)
    && Row(w.matches[FIRST], Active, map[HOST := InPlay(Python, 1, None), GUEST := InPlay(Java, 2, None)], map[])
    && w.matches[FIRST].startsAt == Some(s.config.countdown) && w.matches[FIRST].problem.Some?
  }

  function Fresh(host: Option<Language>, guest: Option<Language>, hostHere: bool, guestHere: bool): Participants {
    map[HOST := Player(1, host, false, hostHere, None), GUEST := Player(2, guest, false, guestHere, None)]
  }

  lemma LanguagesChosen(s: Setting, w: World, used: set<CommandKey>)
    requires FIRST in w.matches && Table(w, w.matches[FIRST], used, 2)
    requires Row(w.matches[FIRST], Lobby, Fresh(None, None, false, false), map[])
    requires CommandKey(HOST, "language") !in used && CommandKey(GUEST, "language") !in used
    ensures
      var b := Exec(s, w, ChooseLanguage(HOST, "language", FIRST, Python, 0)).0;
      var after := Exec(s, b, ChooseLanguage(GUEST, "language", FIRST, Java, 0)).0;
      && FIRST in after.matches
      && Table(after, after.matches[FIRST], used + {CommandKey(HOST, "language")} + {CommandKey(GUEST, "language")}, 2)
      && Row(after.matches[FIRST], Lobby, Fresh(Some(Python), Some(Java), false, false), map[])
  {
    hide Exec, Table, Row;
    var b := Exec(s, w, ChooseLanguage(HOST, "language", FIRST, Python, 0)).0;
    LanguageChosen(s, w, w.matches[FIRST], used, 2, Fresh(None, None, false, false), HOST, "language", Python);
    assert Fresh(None, None, false, false)[HOST := Player(1, Some(Python), false, false, None)]
        == Fresh(Some(Python), None, false, false);
    LanguageChosen(s, b, b.matches[FIRST], used + {CommandKey(HOST, "language")}, 2,
                   Fresh(Some(Python), None, false, false),
                   GUEST, "language", Java);
    assert Fresh(Some(Python), None, false, false)[GUEST := Player(2, Some(Java), false, false, None)]
        == Fresh(Some(Python), Some(Java), false, false);
  }

  lemma BothAttached(s: Setting, w: World, used: set<CommandKey>)
    requires FIRST in w.matches && Table(w, w.matches[FIRST], used, 2)
    requires Row(w.matches[FIRST], Lobby, Fresh(Some(Python), Some(Java), false, false), map[])
    ensures
      var b := Exec(s, w, Attach(HOST, FIRST, 0)).0;
      var after := Exec(s, b, Attach(GUEST, FIRST, 0)).0;
      && FIRST in after.matches && Table(after, after.matches[FIRST], used, 2)
      && Row(after.matches[FIRST], Lobby, Fresh(Some(Python), Some(Java), true, true), map[])
  {
    hide Exec, Table, Row;
    var b := Exec(s, w, Attach(HOST, FIRST, 0)).0;
    Attached(s, w, w.matches[FIRST], used, 2, Fresh(Some(Python), Some(Java), false, false), HOST);
    assert Fresh(Some(Python), Some(Java), false, false)[HOST := Player(1, Some(Python), false, true, None)]
        == Fresh(Some(Python), Some(Java), true, false);
    Attached(s, b, b.matches[FIRST], used, 2, Fresh(Some(Python), Some(Java), true, false), GUEST);
    assert Fresh(Some(Python), Some(Java), true, false)[GUEST := Player(2, Some(Java), false, true, None)]
        == Fresh(Some(Python), Some(Java), true, true);
  }

  predicate Counting(s: Setting, w: World) {
    FIRST in w.matches
    && Table(w, w.matches[FIRST], OpeningKeys(), 2)
    && Row(w.matches[FIRST], Countdown, map[HOST := InPlay(Python, 1, None), GUEST := InPlay(Java, 2, None)], map[])
    && w.matches[FIRST].startsAt == Some(s.config.countdown) && w.matches[FIRST].problem.Some?
  }

  lemma Gathered(s: Setting)
    requires Problems(s, Coding, Easy) != []
    ensures Counting(s, After(s, INITIAL, Gathering()))
  {
    hide Exec, Table, Row;
    var rest := Gathering()[4..];
    assert Gathering() == Seating() + rest;
    AfterBoth(s, INITIAL, Seating(), rest);
    Seated(s);
    var a := After(s, INITIAL, Seating());
    SixSteps(s, a, rest);
    var used := {CommandKey(HOST, "create"), CommandKey(GUEST, "join")};
    LanguagesChosen(s, a, used);
    var used2 := used + {CommandKey(HOST, "language")} + {CommandKey(GUEST, "language")};
    var d := Exec(s, Exec(s, a, rest[0]).0, rest[1]).0;
    BothAttached(s, d, used2);
    GetReady(s, Exec(s, Exec(s, d, rest[2]).0, rest[3]).0, used2);
    assert used2 + {CommandKey(HOST, "ready")} + {CommandKey(GUEST, "ready")} == OpeningKeys();
  }

  lemma Opened(s: Setting)
    requires Problems(s, Coding, Easy) != []
    ensures Playing(s, After(s, INITIAL, Opening(s.config)))
  {
    hide Exec, Table;
    Gathered(s);
    var w := After(s, INITIAL, Gathering());
    AfterThen(s, INITIAL, Gathering(), Advance(FIRST, s.config.countdown));
    Advanced(s, w, w.matches[FIRST], OpeningKeys(), 2,
             map[HOST := InPlay(Python, 1, None), GUEST := InPlay(Java, 2, None)]);
  }

  lemma SixSteps(s: Setting, w: World, steps: seq<Step>)
    requires |steps| == 6
    ensures
      var a := Exec(s, w, steps[0]).0;
      var b := Exec(s, a, steps[1]).0;
      var d := Exec(s, b, steps[2]).0;
      var e := Exec(s, d, steps[3]).0;
      var f := Exec(s, e, steps[4]).0;
      After(s, w, steps) == Exec(s, f, steps[5]).0
  {
    hide Exec;
    var a := Exec(s, w, steps[0]).0;
    var b := Exec(s, a, steps[1]).0;
    var d := Exec(s, b, steps[2]).0;
    assert After(s, w, steps) == After(s, a, steps[1..]);
    assert After(s, a, steps[1..]) == After(s, b, steps[2..]) by { assert steps[1..][1..] == steps[2..]; }
    assert After(s, b, steps[2..]) == After(s, d, steps[3..]) by { assert steps[2..][1..] == steps[3..]; }
    ThreeSteps(s, d, steps[3..]);
  }

  lemma ThreeSteps(s: Setting, w: World, steps: seq<Step>)
    requires |steps| == 3
    ensures
      var a := Exec(s, w, steps[0]).0;
      var b := Exec(s, a, steps[1]).0;
      After(s, w, steps) == Exec(s, b, steps[2]).0
  {
    hide Exec;
    var a := Exec(s, w, steps[0]).0;
    var b := Exec(s, a, steps[1]).0;
    assert After(s, a, steps[1..]) == After(s, b, steps[2..]) by { assert steps[1..][1..] == steps[2..]; }
    assert After(s, b, steps[2..]) == Exec(s, b, steps[2]).0 by { assert steps[2..][1..] == []; }
  }

  /** From both connected to the countdown. */
  lemma GetReady(s: Setting, w: World, used: set<CommandKey>)
    requires FIRST in w.matches && Table(w, w.matches[FIRST], used, 2) && Problems(s, Coding, Easy) != []
    requires Row(w.matches[FIRST], Lobby, Fresh(Some(Python), Some(Java), true, true), map[])
    requires CommandKey(HOST, "ready") !in used && CommandKey(GUEST, "ready") !in used
    ensures
      var g := Exec(s, w, Ready(HOST, "ready", FIRST, true, {HOST, GUEST}, 0, 0)).0;
      var after := Exec(s, g, Ready(GUEST, "ready", FIRST, true, {HOST, GUEST}, 0, 0)).0;
      && FIRST in after.matches
      && Table(after, after.matches[FIRST], used + {CommandKey(HOST, "ready")} + {CommandKey(GUEST, "ready")}, 2)
      && Row(after.matches[FIRST], Countdown, map[HOST := InPlay(Python, 1, None), GUEST := InPlay(Java, 2, None)],
             map[])
      && after.matches[FIRST].startsAt == Some(s.config.countdown) && after.matches[FIRST].problem.Some?
  {
    hide Exec;
    var players := Fresh(Some(Python), Some(Java), true, true);
    HostReady(s, w, w.matches[FIRST], used, 2, players);
    var g := Exec(s, w, Ready(HOST, "ready", FIRST, true, {HOST, GUEST}, 0, 0)).0;
    var players2 := players[HOST := InPlay(Python, 1, None)];
    GuestReady(s, g, g.matches[FIRST], used + {CommandKey(HOST, "ready")}, 2, players2);
    var players3 := players2[GUEST := InPlay(Java, 2, None)];
    assert players3 == map[HOST := InPlay(Python, 1, None), GUEST := InPlay(Java, 2, None)];
  }

  // ----- a forfeit over a recorded acceptance

  lemma StartsRow(c: Config, m: Match, players: Participants, executions: Executions, actor: UserId, id: ExecutionId,
                  at: Time, sequence: int)
    requires Row(m, Active, players, executions) && actor in players
    requires m.startsAt == Some(c.countdown) && m.problem.Some? && at >= c.countdown
    requires players[actor].language.Some? && players[actor].activeExecution.None? && players[actor].cooldownUntil.None?
    requires Insertable(executions, id, sequence)
    ensures
      var r := StartExecution(c, m, actor, id, Submit, at, sequence, at);
      && r.Ok? && r.value.startsAt == m.startsAt && r.value.problem == m.problem
      && Row(r.value, Active, players[actor := players[actor].(activeExecution := Some(id))],
             executions[id := Execution(actor, Submit, at, sequence, Queued)])
  {
    hide EventTime;
  }

  lemma SpentTable(w: World, m: Match, used: set<CommandKey>, next: Id, n: Match)
    requires Table(w, m, used, next)
    ensures
      var after := Commit(w.(nextId := next + 1), FIRST, n);
      Table(after, n, used, next + 1) && after.receipts == w.receipts
  {
    CommittedTable(w.(nextId := next + 1), m, used, next + 1, n);
  }

  lemma StartIsIssued(s: Setting, w: World, m: Match, used: set<CommandKey>, next: Id, actor: UserId, at: Time,
                      sequence: int, n: Match)
    requires Table(w, m, used, next) && actor in m.participants && m.challenge == Coding
    requires StartExecution(s.config, m, actor, next, Submit, at, sequence, at) == Ok(n)
    ensures
      var effect := Ok((Commit(w.(nextId := next + 1), FIRST, n), ExecutionResponse(next)));
      Exec(s, w, Start(actor, "submit", FIRST, Submit, "", at, sequence, at))
      == Command(w, actor, "submit", ExecuteCommand(Submit), Some(FIRST), SourceText(""), effect)
  {
    hide Command, StartExecution, Commit;
  }

  lemma Started(s: Setting, w: World, m: Match, used: set<CommandKey>, next: Id, players: Participants,
                executions: Executions, actor: UserId, at: Time, sequence: int)
    requires Table(w, m, used, next) && Row(m, Active, players, executions) && actor in players
    requires m.startsAt == Some(s.config.countdown) && m.problem.Some? && at >= s.config.countdown
    requires players[actor].language.Some? && players[actor].activeExecution.None? && players[actor].cooldownUntil.None?
    requires Insertable(executions, next, sequence) && CommandKey(actor, "submit") !in used
    ensures
      var after := Exec(s, w, Start(actor, "submit", FIRST, Submit, "", at, sequence, at)).0;
      FIRST in after.matches && Table(after, after.matches[FIRST], used + {CommandKey(actor, "submit")}, next + 1)
      && Row(after.matches[FIRST], Active, players[actor := players[actor].(activeExecution := Some(next))],
             executions[next := Execution(actor, Submit, at, sequence, Queued)])
      && after.matches[FIRST].startsAt == m.startsAt && after.matches[FIRST].problem == m.problem
  {
    hide EventTime, Command, MatchEffect, StartExecution;
    StartsRow(s.config, m, players, executions, actor, next, at, sequence);
    var n := StartExecution(s.config, m, actor, next, Submit, at, sequence, at).value;
    var spent := w.(nextId := next + 1);
    SpentTable(w, m, used, next, n);
    IssuedTable(w, Commit(spent, FIRST, n), n, used, next + 1, actor, "submit", ExecuteCommand(Submit),
                SourceText(""), ExecutionResponse(next));
    StartIsIssued(s, w, m, used, next, actor, at, sequence, n);
  }

  function Racing(host: Status, guest: Status, t: Time): Executions {
    map[HOST_RUN := Execution(HOST, Submit, t, 0, host), GUEST_RUN := Execution(GUEST, Submit, t + 1, 1, guest)]
  }

  predicate Raced(w: World, t: Time, guest: Status) {
    var there := if guest.Completed? then None else Some(GUEST_RUN);
    FIRST in w.matches
    && Table(w, w.matches[FIRST], OpeningKeys() + {CommandKey(HOST, "submit")} + {CommandKey(GUEST, "submit")}, 4)
    && Row(w.matches[FIRST], Active, map[HOST := InPlay(Python, 1, Some(HOST_RUN)), GUEST := InPlay(Java, 2, there)],
           Racing(Queued, guest, t))
  }

  lemma BothSubmitted(s: Setting, w: World)
    requires Playing(s, w)
    ensures
      var t := s.config.countdown;
      var b := Exec(s, w, Start(HOST, "submit", FIRST, Submit, "", t, 0, t)).0;
      Raced(Exec(s, b, Start(GUEST, "submit", FIRST, Submit, "", t + 1, 1, t + 1)).0, t, Queued)
  {
    hide Exec, Table;
    var t := s.config.countdown;
    var players := map[HOST := InPlay(Python, 1, None), GUEST := InPlay(Java, 2, None)];
    Started(s, w, w.matches[FIRST], OpeningKeys(), 2, players, map[], HOST, t, 0);
    var b := Exec(s, w, Start(HOST, "submit", FIRST, Submit, "", t, 0, t)).0;
    var used := OpeningKeys() + {CommandKey(HOST, "submit")};
    Started(s, b, b.matches[FIRST], used, 3, players[HOST := InPlay(Python, 1, Some(HOST_RUN))],
            map[HOST_RUN := Execution(HOST, Submit, t, 0, Queued)], GUEST, t + 1, 1);
  }

  /** The acceptance is stored, but the host's earlier submission is still out and nobody is away. */
  lemma AcceptanceWaits(c: Config, m: Match, stored: Match, t: Time)
    requires Row(stored, Active, map[HOST := InPlay(Python, 1, Some(HOST_RUN)), GUEST := InPlay(Java, 2, None)],
                 Racing(Queued, Completed(Passing()), t))
    ensures Settle(c, stored, t + 2) == Ok(stored)
  {
    var executions := stored.executions;
    assert HOST_RUN in executions && Blocks(executions[HOST_RUN], executions[GUEST_RUN].receivedAt);
    forall id | IsLeastAccepted(executions, id)
      ensures !Decides(executions, id)
    {
      assert id == GUEST_RUN;
    }
    assert Away(stored) == {};
    assert ExpiredAway(stored, t + 2) == {};
  }

  lemma GuestPassed(s: Setting, w: World, t: Time)
    requires Raced(w, t, Queued)
    ensures Raced(Exec(s, w, Complete(FIRST, GUEST_RUN, Passing(), t + 2)).0, t, Completed(Passing()))
  {
    hide EventTime, Table, Background, Settle;
    var m := w.matches[FIRST];
    var stored := Store(s.config, m, GUEST_RUN, Passing(), t + 2);
    assert stored.executions == Racing(Queued, Completed(Passing()), t);
    assert stored.participants == map[HOST := InPlay(Python, 1, Some(HOST_RUN)), GUEST := InPlay(Java, 2, None)];
    AcceptanceWaits(s.config, m, stored, t);
    var used := OpeningKeys() + {CommandKey(HOST, "submit")} + {CommandKey(GUEST, "submit")};
    BackgroundTable(w, m, used, 4, CompleteExecution(s.config, m, GUEST_RUN, Passing(), t + 2));
    TableRow(w, m, used, 4);
  }

  lemma TableRow(w: World, m: Match, used: set<CommandKey>, next: Id)
    requires Table(w, m, used, next)
    ensures w.matches == map[FIRST := m] && forall slot :: slot in w.receipts ==> slot in used
  {
  }

  lemma RaceRun(s: Setting)
    requires Problems(s, Coding, Easy) != []
    ensures Raced(After(s, INITIAL, Opening(s.config) + Race(s.config)), s.config.countdown, Completed(Passing()))
  {
    hide Exec, Raced, Playing;
    Opened(s);
    var w := After(s, INITIAL, Opening(s.config));
    AfterBoth(s, INITIAL, Opening(s.config), Race(s.config));
    ThreeSteps(s, w, Race(s.config));
    BothSubmitted(s, w);
    GuestPassed(s, Exec(s, Exec(s, w, Race(s.config)[0]).0, Race(s.config)[1]).0, s.config.countdown);
  }

  /** The guest, whose accepted submission is the only one judged so far, leaves and loses to the host, whose earlier
      submission is still out - and may yet fail. */
  lemma AcceptanceForfeited(s: Setting)
    requires CatalogOk(s) && Problems(s, Coding, Easy) != []
    ensures
      var w := After(s, INITIAL, Opening(s.config) + Race(s.config));
      var after := Exec(s, w, Leave(GUEST, "leave", FIRST, s.config.countdown + 3)).0;
      && FIRST in w.matches && FIRST in after.matches
      && OfflineWinner(w.matches[FIRST].executions) == Some(GUEST)
      && Overridden(w.matches[FIRST], after.matches[FIRST])
      && after.matches[FIRST].endReason == Some(Forfeit) && after.matches[FIRST].winner == Some(HOST)
  {
    hide Exec, Overridden, WonByLeastAccepted;
    RaceRun(s);
    var steps := Opening(s.config) + Race(s.config);
    var w := After(s, INITIAL, steps);
    var step := Leave(GUEST, "leave", FIRST, s.config.countdown + 3);
    assert Reachable(s, w);
    OnlyGuestAccepted(w.matches[FIRST].executions, s.config.countdown);
    assert LeavesHeldAcceptance(w, step, FIRST);
    AcceptanceIsOverriddenExactlyWhen(s, w, step, FIRST);
  }

  lemma OnlyGuestAccepted(executions: Executions, t: Time)
    requires executions == Racing(Queued, Completed(Passing()), t)
    ensures AnyAccepted(executions) && OfflineWinner(executions) == Some(GUEST)
    ensures forall id, b :: IsLeastAccepted(executions, id) && b in executions && InflightSubmit(executions[b]) ==>
            b == HOST_RUN
  {
    assert GUEST_RUN in executions && AcceptedSubmit(executions[GUEST_RUN]);
    assert IsLeastAccepted(executions, GUEST_RUN);
    TheOfflineWinner(executions, GUEST_RUN);
  }

  // ----- an absence without a deadline

  function Gone(): Participant {
    Participant(2, Some(Java), true, None, None, None, false, Some(0), None, None)
  }

  lemma GuestVanishes(s: Setting, w: World)
    requires Counting(s, w)
    ensures
      var after := Exec(s, w, Detach(GUEST, FIRST, false, Some(0), 0)).0;
      FIRST in after.matches && Table(after, after.matches[FIRST], OpeningKeys(), 2)
      && Row(after.matches[FIRST], Countdown, map[HOST := InPlay(Python, 1, None), GUEST := Gone()], map[])
      && after.matches[FIRST].startsAt == Some(s.config.countdown) && after.matches[FIRST].problem.Some?
  {
    hide EventTime, Background, Table;
    var players := map[HOST := InPlay(Python, 1, None), GUEST := InPlay(Java, 2, None)];
    assert players[GUEST := Gone()] == map[HOST := InPlay(Python, 1, None), GUEST := Gone()];
    BackgroundTable(w, w.matches[FIRST], OpeningKeys(), 2,
                    Reconcile(s.config, w.matches[FIRST], GUEST, false, Some(0), 0));
  }

  /** The host may start: the countdown is over, though nothing has acted on that yet. */
  lemma HostBegins(s: Setting, w: World, m: Match)
    requires Table(w, m, OpeningKeys(), 2)
    requires Row(m, Countdown, map[HOST := InPlay(Python, 1, None), GUEST := Gone()], map[])
    requires m.startsAt == Some(s.config.countdown) && m.problem.Some?
    ensures
      var t := s.config.countdown;
      var after := Exec(s, w, Start(HOST, "submit", FIRST, Submit, "", t, 0, t)).0;
      FIRST in after.matches && after.matches[FIRST].state == Active && after.matches[FIRST].mode == Duel
      && GUEST in after.matches[FIRST].participants && after.matches[FIRST].participants[GUEST] == Gone()
  {
    hide EventTime, Command, MatchEffect, StartExecution;
    var t := s.config.countdown;
    StartsExactlyWhen(s.config, m, HOST, 2, Submit, t, 0, t);
    var n := StartExecution(s.config, m, HOST, 2, Submit, t, 0, t).value;
    SpentTable(w, m, OpeningKeys(), 2, n);
    IssuedTable(w, Commit(w.(nextId := 3), FIRST, n), n, OpeningKeys(), 3, HOST, "submit", ExecuteCommand(Submit),
                SourceText(""), ExecutionResponse(2));
    StartIsIssued(s, w, m, OpeningKeys(), 2, HOST, t, 0, n);
  }

  /** The guest is away when the host's first run begins the match, gets no deadline, and so never loses by staying
      away: whatever follows, unless the guest comes back or somebody leaves, no step ends the match for the absence. */
  lemma AbsentGuestNeverForfeits(s: Setting, steps: seq<Step>, step: Step)
    requires CatalogOk(s) && Problems(s, Coding, Easy) != [] && NoReturn(steps + [step], FIRST, GUEST)
    ensures
      var w := After(s, INITIAL, Gathering() + Vanishing(s.config));
      && FIRST in w.matches && w.matches[FIRST].state == Active && GUEST in w.matches[FIRST].participants
      && !w.matches[FIRST].participants[GUEST].connected
      && var after := After(s, w, steps);
      var next := Exec(s, after, step).0;
      FIRST in after.matches && FIRST in next.matches && !EndedByAbsence(after.matches[FIRST], next.matches[FIRST])
  {
    hide Exec, Table, Row, CatalogOk;
    Gathered(s);
    AfterBoth(s, INITIAL, Gathering(), Vanishing(s.config));
    var a := After(s, INITIAL, Gathering());
    GuestVanishes(s, a);
    var b := Exec(s, a, Vanishing(s.config)[0]).0;
    HostBegins(s, b, b.matches[FIRST]);
    TwoSteps(s, a, Vanishing(s.config));
    var w := After(s, INITIAL, Gathering() + Vanishing(s.config));
    assert Reachable(s, w);
    UntimedNeverEnds(s, w, steps, step, FIRST, GUEST);
  }

  lemma TwoSteps(s: Setting, w: World, steps: seq<Step>)
    requires |steps| == 2
    ensures After(s, w, steps) == Exec(s, Exec(s, w, steps[0]).0, steps[1]).0
  {
    hide Exec;
    assert steps[1..][1..] == [];
    assert After(s, Exec(s, w, steps[0]).0, steps[1..]) == Exec(s, Exec(s, w, steps[0]).0, steps[1]).0;
  }

  // ----- a join that cannot be repeated

  predicate PartedRow(m: Match, votes: set<UserId>, deadline: Time) {
    && m.roomId == ROOM && m.round == 1 && m.mode == Duel && m.state == RematchPending
    && m.participants.Keys == {HOST, GUEST} && m.votes == votes && m.rematchCreated.None?
    && m.rematchDeadline == Some(deadline)
  }

  predicate Parted(w: World, votes: set<UserId>, used: set<CommandKey>, deadline: Time) {
    FIRST in w.matches && Table(w, w.matches[FIRST], used, 2) && PartedRow(w.matches[FIRST], votes, deadline)
  }

  lemma GuestForfeits(c: Config, m: Match, players: Participants, at: Time)
    requires Row(m, Active, players, map[]) && players.Keys == {HOST, GUEST}
    ensures
      var r := ForfeitMatch(c, m, GUEST, at);
      && r.Ok? && PartedRow(r.value, {}, at + c.rematchWindow)
  {
    hide EventTime;
    assert Opponent(players.Keys, GUEST) == Some(HOST) by {
      assert HOST in players.Keys - {GUEST};
    }
  }

  lemma GuestLeft(s: Setting, w: World, at: Time)
    requires Playing(s, w)
    ensures
      Parted(Exec(s, w, Leave(GUEST, "leave", FIRST, at)).0, {}, OpeningKeys() + {CommandKey(GUEST, "leave")},
             at + s.config.rematchWindow)
  {
    hide MatchCommand, ForfeitMatch;
    var m := w.matches[FIRST];
    GuestForfeits(s.config, m, m.participants, at);
    CommandTable(w, m, OpeningKeys(), 2, GUEST, "leave", ForfeitCommand, Payload.Empty,
                 ForfeitMatch(s.config, m, GUEST, at), Done);
  }

  lemma HostVotes(w: World, m: Match, used: set<CommandKey>, deadline: Time)
    requires Table(w, m, used, 2) && PartedRow(m, {}, deadline)
    ensures
      var voted := Vote(m, HOST, deadline - 1);
      && RematchEffect(w, HOST, FIRST, deadline - 1) == Ok((Commit(w, FIRST, voted), MatchResponse(FIRST)))
      && PartedRow(voted, {HOST}, deadline)
  {
    hide EventTime, Commit, OpenNextRound;
    assert m.votes + {HOST} == {HOST} && |{HOST}| == 1;
  }

  lemma HostVoted(s: Setting, w: World, used: set<CommandKey>, deadline: Time)
    requires Parted(w, {}, used, deadline) && CommandKey(HOST, "again") !in used
    ensures
      Parted(Exec(s, w, Rematch(HOST, "again", FIRST, deadline - 1)).0, {HOST}, used + {CommandKey(HOST, "again")},
             deadline)
  {
    hide RematchEffect, Command, Vote, Commit;
    var m := w.matches[FIRST];
    var voted := Vote(m, HOST, deadline - 1);
    HostVotes(w, m, used, deadline);
    CommittedTable(w, m, used, 2, voted);
    CommitKeepsReceipts(w, FIRST, voted);
    IssuedTable(w, Commit(w, FIRST, voted), voted, used, 2, HOST, "again", RematchCommand, Payload.Empty,
                MatchResponse(FIRST));
  }

  lemma GuestVotes(w: World, m: Match, used: set<CommandKey>, deadline: Time)
    requires Table(w, m, used, 2) && PartedRow(m, {HOST}, deadline)
    ensures
      var r := RematchEffect(w, GUEST, FIRST, deadline - 1);
      r.Ok? && ROOM in r.value.0.rooms && r.value.0.rooms[ROOM].active == 2
  {
    hide EventTime, NextRound, LinkedTo, Commit;
    assert |{HOST} + {GUEST}| == 2;
  }

  lemma GuestVoted(s: Setting, w: World, used: set<CommandKey>, deadline: Time)
    requires Parted(w, {HOST}, used, deadline) && CommandKey(GUEST, "again") !in used
    ensures
      var after := Exec(s, w, Rematch(GUEST, "again", FIRST, deadline - 1)).0;
      ROOM in after.rooms && after.rooms[ROOM].active == 2
  {
    hide RematchEffect;
    GuestVotes(w, w.matches[FIRST], used, deadline);
  }

  lemma MovedOn(s: Setting)
    requires Problems(s, Coding, Easy) != []
    ensures
      var after := After(s, INITIAL, Opening(s.config) + Moving(s.config));
      ROOM in after.rooms && after.rooms[ROOM].active == 2
  {
    hide Exec, Parted, Playing;
    Opened(s);
    var w := After(s, INITIAL, Opening(s.config));
    AfterBoth(s, INITIAL, Opening(s.config), Moving(s.config));
    ThreeSteps(s, w, Moving(s.config));
    var t := s.config.countdown;
    GuestLeft(s, w, t);
    var b := Exec(s, w, Moving(s.config)[0]).0;
    var used := OpeningKeys() + {CommandKey(GUEST, "leave")};
    HostVoted(s, b, used, t + s.config.rematchWindow);
    GuestVoted(s, Exec(s, b, Moving(s.config)[1]).0, used + {CommandKey(HOST, "again")}, t + s.config.rematchWindow);
  }

  /** The guest's join, repeated under its own key after the rematch, conflicts with itself. */
  lemma RepeatedJoinConflicts(s: Setting)
    requires CatalogOk(s) && Problems(s, Coding, Easy) != []
    ensures
      var before, join := After(s, INITIAL, Seating()[..3]), JoinRoom(GUEST, "join", ROOM, 0);
      var later := Opening(s.config)[4..] + Moving(s.config);
      && Exec(s, before, join).1.Applied?
      && Exec(s, After(s, Exec(s, before, join).0, later), join).1 == Refused(IdempotencyConflict)
  {
    hide Exec, Table, Row, CatalogOk, WorldInv;
    var before, join := After(s, INITIAL, Seating()[..3]), JoinRoom(GUEST, "join", ROOM, 0);
    var rest, moving := Opening(s.config)[4..], Moving(s.config);
    var first := After(s, INITIAL, Seating());
    Seated(s);
    assert Reachable(s, before);
    ReachableIsConsistent(s, before);
    JoinReplaysUntilRematch(s, before, GUEST, "join", ROOM, 0, 0, rest + moving);
    MovedOn(s);
    assert Opening(s.config) + moving == Seating() + (rest + moving);
    AfterBoth(s, INITIAL, Seating(), rest + moving);
  }
}
