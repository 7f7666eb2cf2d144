/**
 * The goose-duck game's mutable state as a value: the configuration fixed
 * at construction, the `World` of players, shared game record, event log
 * and turn cursor, the invariant every operation keeps, and `start_game`.
 */
module GooseState {
  import opened Common
  import opened Events
  import opened GooseIdentity
  import opened GooseRules
  import opened GooseWorld

  /**
   * The map and game configuration, read once in `__init__`: the rooms,
   * the task list every player receives, the spawn and meeting rooms, the
   * roster (the human first, then the NPCs) and the default role setup.
   */
  datatype Config = Config(
    rooms: map<RoomId, Room>,
    allTasks: seq<TaskId>,
    spawnRoom: RoomId,
    meetingRoom: RoomId,
    recruits: seq<Recruit>,
    roleSetup: seq<(RoleType, int)>)

  /** The configuration built from the room list and the roster. */
  function MakeConfig(roomList: seq<Room>, spawnRoom: RoomId, meetingRoom: RoomId, humanName: string,
                      npcs: seq<(PlayerId, string)>, roleSetup: seq<(RoleType, int)>): (c: Config)
    ensures c.rooms == RoomMap(roomList) && c.allTasks == AllTasks(roomList)
    ensures c.recruits == Recruits(humanName, npcs) && c.recruits[0].id == HUMAN_ID
  {
    Config(RoomMap(roomList), AllTasks(roomList), spawnRoom, meetingRoom, Recruits(humanName, npcs), roleSetup)
  }

  /** A usable scenario: spawn and meeting room exist and the human heads the roster. */
  predicate ConfigOk(c: Config)
  {
    c.spawnRoom in c.rooms && c.meetingRoom in c.rooms && c.recruits != [] && c.recruits[0].id == HUMAN_ID
  }

  /**
   * Everything `GooseDuckGame` changes: `players` with `playerIds` its key
   * order, `player_order`, the `GameState` record, the event log, the turn
   * order and the turn cursor.
   */
  datatype World = World(
    players: map<PlayerId, Player>,
    playerIds: seq<PlayerId>,
    playerOrder: seq<PlayerId>,
    state: GameState,
    events: seq<GameEvent>,
    turnOrder: seq<PlayerId>,
    turnIndex: int)

  /** The state of a new or reset game: no players, the default record, an empty log. */
  function EmptyWorld(): (w: World)
    ensures w.players == map[] && w.playerIds == [] && w.playerOrder == [] && w.events == []
    ensures w.state == InitialState() && w.turnOrder == [] && w.turnIndex == 0
  {
    World(map[], [], [], InitialState(), [], [], 0)
  }

  /**
   * The invariant: every player stands in a known room, keeps at most
   * `MEMORY_LIMIT` memories and consistent task bookkeeping; the key order
   * lists each player exactly once; the speaker index is never negative
   * and the turn cursor points into the turn order.
   */
  predicate WorldOk(c: Config, w: World)
  {
    RosterOk(c.rooms, w.players, w.playerIds) && 0 <= w.state.currentSpeakerIndex &&
    CursorOk(w.turnOrder, w.turnIndex)
  }

  /** Every player is well-formed and the key order lists each key exactly once. */
  predicate RosterOk(rooms: map<RoomId, Room>, players: map<PlayerId, Player>, ids: seq<PlayerId>)
  {
    PlayersOk(players, rooms) && players.Keys == Elems(ids) && Distinct(ids)
  }

  /** The turn cursor points into the turn order, or is 0 when there is none. */
  predicate CursorOk(turnOrder: seq<PlayerId>, turnIndex: int)
  {
    if turnOrder == [] then turnIndex == 0 else 0 <= turnIndex < |turnOrder|
  }

  lemma EmptyWorldOk(c: Config)
    ensures WorldOk(c, EmptyWorld())
  {
  }

  /**
   * The answer of an operation: a rejection with its message, a freshly
   * opened chat, success, or an exception the source raises part-way,
   * after the changes made before it.
   */
  datatype Outcome = Ok | Err(message: string) | ChatStarted(targetId: PlayerId, targetName: string) | Fault

  /** The new state together with the answer. */
  datatype Step = Step(w: World, out: Outcome)

  /** A request of `execute_action`: its `type` and optional `target`. */
  datatype Action = Action(kind: string, target: Option<string>)

  /** Appends one event stamped with the current round. */
  function Emit(w: World, t: EventType, text: string, location: Option<RoomId>): (r: World)
    ensures r == w.(events := w.events + [RoundEvent(w.state, t, text, location)])
  {
    w.(events := w.events + [RoundEvent(w.state, t, text, location)])
  }

  /** A player record's replacement keeps the invariant when the new record satisfies its part. */
  lemma SetPlayerOk(c: Config, w: World, id: PlayerId, p: Player)
    requires WorldOk(c, w) && id in w.players && PlayerOk(p, c.rooms)
    ensures WorldOk(c, w.(players := w.players[id := p]))
  {
    assert w.players[id := p].Keys == w.players.Keys;
  }

  /** Any change confined to the record fields the invariant does not mention keeps it. */
  lemma RecordsWorldOk(c: Config, w: World, players: map<PlayerId, Player>)
    requires WorldOk(c, w) && KeepsRecords(w.players, players)
    ensures WorldOk(c, w.(players := players))
  {
    RecordsKeepOk(w.players, players, c.rooms);
  }

  /** A new game record keeps the invariant as long as its speaker index is not negative. */
  lemma StateWorldOk(c: Config, w: World, st: GameState)
    requires WorldOk(c, w) && 0 <= st.currentSpeakerIndex
    ensures WorldOk(c, w.(state := st))
  {
  }

  /** Recording memories keeps the invariant. */
  lemma MemoriesWorldOk(c: Config, w: World, players: map<PlayerId, Player>)
    requires WorldOk(c, w) && OnlyMemories(w.players, players)
    ensures WorldOk(c, w.(players := players))
  {
    MemoriesKeepOk(w.players, players, c.rooms);
  }

  // ---------------------------------------------------------------------
  // start_game
  // ---------------------------------------------------------------------

  const START_TEXT := "Game started! Find the ducks hidden among the crew!"

  /**
   * `start_game` on a state: the roster enlisted and given the shuffled
   * roles along the key order, nobody having acted; every recruit appended
   * to `player_order`; the shuffled turn order with the human in front;
   * free roam of round 1 and the start event.
   */
  function StartGame(c: Config, w: World, shuffledTurns: seq<PlayerId>, shuffledRoles: seq<RoleType>): (r: World)
    ensures r.playerIds == AppendAll(w.playerIds, IdsOf(c.recruits))
    ensures r.playerOrder == w.playerOrder + IdsOf(c.recruits)
    ensures r.players == StartRoster(w.players, c.recruits, r.playerIds, shuffledRoles, c.spawnRoom, c.allTasks)
    ensures r.turnOrder == PromoteHuman(shuffledTurns) && r.turnIndex == 0
    ensures r.state == w.state.(phase := FreeRoam, roundNumber := 1)
    ensures r.events == w.events + [Ev(System, START_TEXT, 1, "round_1", None)]
  {
    var ids := AppendAll(w.playerIds, IdsOf(c.recruits));
    World(StartRoster(w.players, c.recruits, ids, shuffledRoles, c.spawnRoom, c.allTasks),
          ids, w.playerOrder + IdsOf(c.recruits), w.state.(phase := FreeRoam, roundNumber := 1),
          w.events + [Ev(System, START_TEXT, 1, "round_1", None)], PromoteHuman(shuffledTurns), 0)
  }

  /**
   * `start_game` keeps the invariant, and when the turn shuffle is a
   * permutation of `player_order` the human moves first.
   */
  lemma StartGameOk(c: Config, w: World, shuffledTurns: seq<PlayerId>, shuffledRoles: seq<RoleType>)
    requires ConfigOk(c) && WorldOk(c, w)
    requires multiset(shuffledTurns) == multiset(w.playerOrder + IdsOf(c.recruits))
    ensures WorldOk(c, StartGame(c, w, shuffledTurns, shuffledRoles))
    ensures StartGame(c, w, shuffledTurns, shuffledRoles).turnOrder[0] == HUMAN_ID
    ensures multiset(StartGame(c, w, shuffledTurns, shuffledRoles).turnOrder) ==
              multiset(StartGame(c, w, shuffledTurns, shuffledRoles).playerOrder)
  {
    HumanEnlisted(w.playerOrder, c.recruits, shuffledTurns);
    PromoteHumanPermutes(shuffledTurns);
    StartRosterOk(w.players, w.playerIds, c.recruits, shuffledRoles, c.spawnRoom, c.allTasks, c.rooms);
    EnlistOk(w.players, w.playerIds, c.recruits, c.spawnRoom, c.allTasks, c.rooms);
  }

  /** `start_game`'s two loops followed by the flag reset and the start event. */
  method RunStartGame(c: Config, w: World, shuffledTurns: seq<PlayerId>, shuffledRoles: seq<RoleType>)
    returns (r: World)
    ensures r == StartGame(c, w, shuffledTurns, shuffledRoles)
  {
    var enlisted, order, ids := EnlistAll(w.players, w.playerOrder, w.playerIds, c.recruits, c.spawnRoom, c.allTasks);
    var withRoles := AssignAll(enlisted, ids, shuffledRoles);
    r := World(Unacted(withRoles), ids, order, w.state.(phase := FreeRoam, roundNumber := 1),
               w.events + [Ev(System, START_TEXT, 1, "round_1", None)], PromoteHuman(shuffledTurns), 0);
  }

  /** The loop of `_init_players` over the roster, on the three collections it fills. */
  method EnlistAll(players0: map<PlayerId, Player>, order0: seq<PlayerId>, ids0: seq<PlayerId>,
                   recruits: seq<Recruit>, spawn: RoomId, tasks: seq<TaskId>)
    returns (ps: map<PlayerId, Player>, order: seq<PlayerId>, ids: seq<PlayerId>)
    ensures ps == Enlist(players0, recruits, spawn, tasks)
    ensures order == order0 + IdsOf(recruits)
    ensures ids == AppendAll(ids0, IdsOf(recruits))
  {
    ps, order, ids := players0, order0, ids0;
    var i := 0;
    while i < |recruits|
      invariant 0 <= i <= |recruits|
      invariant ps == Enlist(players0, recruits[..i], spawn, tasks)
      invariant order == order0 + IdsOf(recruits[..i])
      invariant ids == AppendAll(ids0, IdsOf(recruits[..i]))
    {
      var r := recruits[i];
      EnlistStep(players0, order0, ids0, recruits, i, spawn, tasks);
      ps := ps[r.id := FreshPlayer(r, spawn, tasks)];
      order := order + [r.id];
      ids := AppendNew(ids, r.id);
      i := i + 1;
    }
    assert recruits[..i] == recruits;
  }

  /** The loop of `_assign_roles` on the player dictionary. */
  method AssignAll(players0: map<PlayerId, Player>, ids: seq<PlayerId>, roles: seq<RoleType>)
    returns (ps: map<PlayerId, Player>)
    ensures ps == AssignRoles(players0, ids, roles)
  {
    ps := players0;
    for j := 0 to |ids|
      invariant ps == AssignRoles(players0, ids[..j], roles)
    {
      assert ids[..j + 1][..j] == ids[..j];
      if j < |roles| && ids[j] in ps {
        ps := ps[ids[j] := Assigned(ps[ids[j]], ids[j], roles[j])];
      }
    }
    assert ids[..|ids|] == ids;
  }
}
