/**
 * The goose-duck game's records and the pure rules the game engine is
 * specified against: bounded memories, what a player can see, who may act
 * next, the speaking order of a meeting, the victory verdict, the menu of
 * legal actions and the validation of an NPC's decision.
 */
module GooseRules {
  import opened Common
  import opened Events
  import opened GooseIdentity

  type PlayerId = string
  type RoomId = string
  type TaskId = string

  /** The human player's fixed id. */
  const HUMAN_ID: PlayerId := "player"
  /** Each memory list keeps at most this many entries. */
  const MEMORY_LIMIT: nat := 20
  /** A task is complete after this many steps. */
  const TASK_STEPS: int := 2
  /** Only this many most recent events are considered for visibility. */
  const VISIBLE_WINDOW: nat := 50
  /** An NPC-to-NPC chat stops after this many replies. */
  const CHAT_TURN_LIMIT: nat := 6
  /** The snippet of a chat summary quotes this many last messages. */
  const SUMMARY_MESSAGES: nat := 6

  datatype GamePhase = Lobby | FreeRoam | Discussion | Voting | GameOver

  datatype Room = Room(
    id: RoomId,
    name: string,
    description: string,
    connections: seq<RoomId>,
    tasks: seq<TaskId>,
    isMeetingRoom: bool,
    isDangerous: bool,
    position: Option<(int, int)>)

  datatype Player = Player(
    id: PlayerId,
    name: string,
    isHuman: bool,
    identity: Option<PlayerIdentity>,
    location: RoomId,
    lastAction: string,
    memories: seq<string>,
    hasActed: bool,
    tasksProgress: map<TaskId, int>,
    tasksCompleted: seq<TaskId>,
    tasksAssigned: seq<TaskId>,
    emergencyMeetingsLeft: int)
  {
    /** A player without an identity counts as alive. */
    predicate IsAlive()
    {
      identity.None? || identity.value.isAlive
    }

    predicate CanKill()
    {
      identity.Some? && identity.value.CanUseKill()
    }
  }

  datatype ChatMessage = ChatMessage(speakerId: PlayerId, speakerName: string, content: string,
                                     round: int, room: Option<RoomId>)

  datatype Speech = Speech(speakerId: PlayerId, speakerName: string, content: string)

  datatype GameState = GameState(
    phase: GamePhase,
    roundNumber: int,
    conversationActive: bool,
    conversationParticipants: seq<PlayerId>,
    conversationMessages: seq<ChatMessage>,
    conversationRoom: Option<RoomId>,
    reporter: Option<PlayerId>,
    bodyLocation: Option<RoomId>,
    currentSpeakerIndex: int,
    speakerOrder: seq<PlayerId>,
    discussionMessages: seq<Speech>,
    votes: map<PlayerId, Option<PlayerId>>,
    winner: Option<Team>,
    winnerReason: string)

  /** The record's defaults: lobby, round 0, nothing in progress. */
  function InitialState(): (s: GameState)
    ensures s.phase == Lobby && s.roundNumber == 0 && !s.conversationActive
    ensures s.votes == map[] && s.winner.None? && s.speakerOrder == [] && s.currentSpeakerIndex == 0
  {
    GameState(Lobby, 0, false, [], [], None, None, None, 0, [], [], map[], None, "")
  }

  /** `f"round_{n}"`, the time stamp of every goose-duck event. */
  function RoundTime(round: int): string
  {
    "round_" + Show(round)
  }

  /** An event stamped with the current round. */
  function RoundEvent(st: GameState, t: EventType, text: string, location: Option<RoomId>): (e: GameEvent)
    ensures e.day == st.roundNumber && e.time == RoundTime(st.roundNumber)
    ensures e.eventType == t && e.text == text && e.location == location
  {
    Ev(t, text, st.roundNumber, RoundTime(st.roundNumber), location)
  }

  // ---------------------------------------------------------------------
  // Memories
  // ---------------------------------------------------------------------

  /**
   * Appends `text` and keeps only the `MEMORY_LIMIT` most recent entries:
   * the result ends with `text`, is a suffix of the extended list and is
   * never longer than the limit.
   */
  function Remember(memories: seq<string>, text: string): (r: seq<string>)
    ensures |r| == if |memories| + 1 <= MEMORY_LIMIT then |memories| + 1 else MEMORY_LIMIT
    ensures r == (memories + [text])[|memories| + 1 - |r|..]
    ensures r[|r| - 1] == text
  {
    var m := memories + [text];
    if |m| > MEMORY_LIMIT then m[|m| - MEMORY_LIMIT..] else m
  }

  predicate MemoriesBounded(players: map<PlayerId, Player>)
  {
    forall id :: id in players ==> |players[id].memories| <= MEMORY_LIMIT
  }

  /** `_record_memory_for_room`: every player standing in `room` remembers `text`. */
  function RecordForRoom(players: map<PlayerId, Player>, room: RoomId, text: string): (r: map<PlayerId, Player>)
    ensures r.Keys == players.Keys
    ensures forall id :: id in players ==>
              r[id] == if players[id].location == room
                       then players[id].(memories := Remember(players[id].memories, text))
                       else players[id]
    ensures forall id :: id in players ==> r[id] == players[id].(memories := r[id].memories)
  {
    map id | id in players ::
      if players[id].location == room then players[id].(memories := Remember(players[id].memories, text))
      else players[id]
  }

  /** `_record_memory_for_all`: every player remembers `text`. */
  function RecordForAll(players: map<PlayerId, Player>, text: string): (r: map<PlayerId, Player>)
    ensures r.Keys == players.Keys
    ensures forall id :: id in players ==> r[id] == players[id].(memories := Remember(players[id].memories, text))
  {
    map id | id in players :: players[id].(memories := Remember(players[id].memories, text))
  }

  /** Recording a memory never breaks the memory bound. */
  lemma RecordKeepsBound(players: map<PlayerId, Player>, room: RoomId, text: string)
    requires MemoriesBounded(players)
    ensures MemoriesBounded(RecordForRoom(players, room, text))
    ensures MemoriesBounded(RecordForAll(players, text))
  {
  }

  // ---------------------------------------------------------------------
  // Visibility
  // ---------------------------------------------------------------------

  /** An event is visible in `location` when it has no location or that one. */
  predicate VisibleAt(e: GameEvent, location: RoomId)
  {
    e.location.None? || e.location == Some(location)
  }

  function FilterVisible(events: seq<GameEvent>, location: RoomId): (r: seq<GameEvent>)
    ensures forall e :: e in r <==> e in events && VisibleAt(e, location)
    ensures |r| <= |events|
  {
    if events == [] then []
    else (if VisibleAt(events[0], location) then [events[0]] else []) + FilterVisible(events[1..], location)
  }

  /** The dead players lying in `location`, in player order. */
  function CorpsesIn(players: map<PlayerId, Player>, order: seq<PlayerId>, location: RoomId): (r: seq<PlayerId>)
    ensures forall id :: id in r <==> id in order && IsBody(players, id, location)
    ensures |r| <= |order|
  {
    if order == [] then []
    else (if IsBody(players, order[0], location) then [order[0]] else []) + CorpsesIn(players, order[1..], location)
  }

  function BodyEvents(players: map<PlayerId, Player>, corpses: seq<PlayerId>, st: GameState, location: RoomId)
    : (r: seq<GameEvent>)
    requires forall id :: id in corpses ==> id in players
    ensures |r| == |corpses|
    ensures forall i :: 0 <= i < |r| ==>
              r[i] == RoundEvent(st, Crime, "☠️ Body found: " + players[corpses[i]].name, Some(location))
  {
    if corpses == [] then []
    else [RoundEvent(st, Crime, "☠️ Body found: " + players[corpses[0]].name, Some(location))]
         + BodyEvents(players, corpses[1..], st, location)
  }

  /**
   * `_get_visible_events`: among the last `VISIBLE_WINDOW` events, those
   * without a location or located where the player stands, in log order;
   * then, when the location is non-empty, one synthesised CRIME "Body
   * found" event per corpse lying there. Nothing else is shown, and an
   * event elsewhere is never shown.
   */
  function VisibleEvents(events: seq<GameEvent>, players: map<PlayerId, Player>, order: seq<PlayerId>,
                         st: GameState, location: RoomId): (r: seq<GameEvent>)
    ensures forall e :: e in PyTail(events, VISIBLE_WINDOW) && VisibleAt(e, location) ==> e in r
    ensures forall e :: e in r ==>
              (e in PyTail(events, VISIBLE_WINDOW) && VisibleAt(e, location)) ||
              (location != "" && e.eventType == Crime && e.location == Some(location) &&
               exists id :: id in order && IsBody(players, id, location) &&
                 e.text == "☠️ Body found: " + players[id].name)
    ensures forall e :: e in r ==> VisibleAt(e, location)
    ensures location == "" ==> forall e :: e in r ==> e in PyTail(events, VISIBLE_WINDOW)
    ensures |r| == |FilterVisible(PyTail(events, VISIBLE_WINDOW), location)| +
                   (if location != "" then |CorpsesIn(players, order, location)| else 0)
  {
    var seen := FilterVisible(PyTail(events, VISIBLE_WINDOW), location);
    if location != "" then
      var corpses := CorpsesIn(players, order, location);
      var bodies := BodyEvents(players, corpses, st, location);
      assert forall e :: e in bodies ==> exists i :: 0 <= i < |bodies| && bodies[i] == e;
      seen + bodies
    else seen
  }

  // ---------------------------------------------------------------------
  // Liveness, pending players and the turn cursor
  // ---------------------------------------------------------------------

  predicate AliveIn(players: map<PlayerId, Player>, id: PlayerId)
  {
    id in players && players[id].IsAlive()
  }

  /** A player who still owes an action this round. */
  predicate Pending(players: map<PlayerId, Player>, id: PlayerId)
  {
    id in players && players[id].IsAlive() && !players[id].hasActed
  }

  function PendingSet(players: map<PlayerId, Player>): set<PlayerId>
  {
    set id | id in players && Pending(players, id)
  }

  /**
   * Between two states of the same round nobody is revived and nobody who
   * has acted loses that mark; players are neither added nor removed.
   */
  predicate Settled(before: map<PlayerId, Player>, after: map<PlayerId, Player>)
  {
    after.Keys == before.Keys &&
    forall id :: id in after ==>
      (after[id].IsAlive() ==> before[id].IsAlive()) && (before[id].hasActed ==> after[id].hasActed)
  }

  /** Settled steps only shrink the set of players who still owe an action. */
  lemma SettledShrinksPending(before: map<PlayerId, Player>, after: map<PlayerId, Player>)
    requires Settled(before, after)
    ensures PendingSet(after) <= PendingSet(before)
  {
  }

  lemma SettledTrans(a: map<PlayerId, Player>, b: map<PlayerId, Player>, c: map<PlayerId, Player>)
    requires Settled(a, b) && Settled(b, c)
    ensures Settled(a, c)
  {
  }

  /**
   * The position `k` steps after `index` on a cyclic turn order of length
   * `n`.
   */
  function Walk(index: nat, k: nat, n: nat): (p: nat)
    requires index < n && k <= n
    ensures p < n
  {
    if index + k < n then index + k else index + k - n
  }

  /** Python's `(c + 1) % n` for an in-range cursor wraps to 0 at the end. */
  lemma ModSucc(c: nat, n: nat)
    requires c < n
    ensures (c + 1) % n == if c + 1 == n then 0 else c + 1
  {
  }

  /**
   * The cursor search of `_process_turns` from step `k` on: the number of
   * steps after `index`, walking the turn order cyclically at most once
   * round, to the first player who is alive and has not acted.
   */
  function NextTurn(turnOrder: seq<PlayerId>, players: map<PlayerId, Player>, index: nat, k: nat): (r: Option<nat>)
    requires index < |turnOrder| && 1 <= k
    ensures r.Some? ==> k <= r.value <= |turnOrder|
    decreases |turnOrder| + 1 - k
  {
    if k > |turnOrder| then None
    else if Pending(players, turnOrder[Walk(index, k, |turnOrder|)]) then Some(k)
    else NextTurn(turnOrder, players, index, k + 1)
  }

  /**
   * The search stops at a pending player and passes over only players who
   * are not pending; it finds nobody only when nobody from step `k` on is
   * pending.
   */
  lemma {:induction false} NextTurnSpec(turnOrder: seq<PlayerId>, players: map<PlayerId, Player>, index: nat, k: nat)
    requires index < |turnOrder| && 1 <= k
    ensures var r := NextTurn(turnOrder, players, index, k);
            (r.Some? ==> Pending(players, turnOrder[Walk(index, r.value, |turnOrder|)]) &&
                         forall j :: k <= j < r.value ==> !Pending(players, turnOrder[Walk(index, j, |turnOrder|)])) &&
            (r.None? <==> forall j :: k <= j <= |turnOrder| ==> !Pending(players, turnOrder[Walk(index, j, |turnOrder|)]))
    decreases |turnOrder| + 1 - k
  {
    if k <= |turnOrder| && !Pending(players, turnOrder[Walk(index, k, |turnOrder|)]) {
      NextTurnSpec(turnOrder, players, index, k + 1);
    }
  }

  /** A full walk visits every position once: the search fails only when nobody in the turn order is pending. */
  lemma NextTurnFinds(turnOrder: seq<PlayerId>, players: map<PlayerId, Player>, index: nat)
    requires index < |turnOrder|
    ensures NextTurn(turnOrder, players, index, 1).None? <==>
              forall i :: 0 <= i < |turnOrder| ==> !Pending(players, turnOrder[i])
  {
    var n := |turnOrder|;
    NextTurnSpec(turnOrder, players, index, 1);
    if NextTurn(turnOrder, players, index, 1).None? {
      forall i | 0 <= i < n
        ensures !Pending(players, turnOrder[i])
      {
        var j := if i > index then i - index else i - index + n;
        assert Walk(index, j, n) == i;
      }
    }
  }

  /**
   * The cursor search of `_process_turns`: starting after `index`, walk
   * the turn order cyclically, advancing the cursor with
   * `(cursor + 1) % length` at most once round, to the first player who is
   * alive and has not acted. On success `steps` is the distance walked,
   * the new cursor points at a pending player, and everyone passed over is
   * not pending. On failure nobody in the turn order is pending and the
   * cursor is back where it started.
   */
  method FindNextTurn(turnOrder: seq<PlayerId>, players: map<PlayerId, Player>, index: nat)
    returns (found: bool, newIndex: nat, ghost steps: nat)
    requires index < |turnOrder|
    ensures newIndex < |turnOrder|
    ensures found ==> 1 <= steps <= |turnOrder| && newIndex == Walk(index, steps, |turnOrder|)
    ensures found ==> Pending(players, turnOrder[newIndex])
    ensures found ==> forall k :: 1 <= k < steps ==> !Pending(players, turnOrder[Walk(index, k, |turnOrder|)])
    ensures !found ==> forall i :: 0 <= i < |turnOrder| ==> !Pending(players, turnOrder[i])
    ensures !found ==> newIndex == index
    ensures found <==> NextTurn(turnOrder, players, index, 1).Some?
    ensures found ==> NextTurn(turnOrder, players, index, 1) == Some(steps)
  {
    var n := |turnOrder|;
    var cursor := index;
    var k := 0;
    while k < n
      invariant 0 <= k <= n
      invariant cursor == Walk(index, k, n)
      invariant forall j :: 1 <= j <= k ==> !Pending(players, turnOrder[Walk(index, j, n)])
      invariant NextTurn(turnOrder, players, index, 1) == NextTurn(turnOrder, players, index, k + 1)
    {
      ModSucc(cursor, n);
      cursor := (cursor + 1) % n;
      k := k + 1;
      if Pending(players, turnOrder[cursor]) {
        return true, cursor, k;
      }
    }
    forall i | 0 <= i < n
      ensures !Pending(players, turnOrder[i])
    {
      var j := if i > index then i - index else i - index + n;
      assert Walk(index, j, n) == i;
    }
    return false, cursor, n;
  }

  // ---------------------------------------------------------------------
  // Meetings
  // ---------------------------------------------------------------------

  /** The living players in turn order. */
  function AliveInOrder(turnOrder: seq<PlayerId>, players: map<PlayerId, Player>): (r: seq<PlayerId>)
    ensures forall id :: id in r <==> id in turnOrder && AliveIn(players, id)
    ensures |r| <= |turnOrder|
  {
    if turnOrder == [] then []
    else (if AliveIn(players, turnOrder[0]) then [turnOrder[0]] else []) + AliveInOrder(turnOrder[1..], players)
  }

  function IndexOf(s: seq<PlayerId>, x: PlayerId): (i: nat)
    requires x in s
    ensures i < |s| && s[i] == x && x !in s[..i]
  {
    if s[0] == x then 0 else 1 + IndexOf(s[1..], x)
  }

  /** `r` is `s` rotated left by `k` places. */
  predicate RotationBy<T(==)>(r: seq<T>, s: seq<T>, k: int)
  {
    0 <= k <= |s| && r == s[k..] + s[..k]
  }

  ghost predicate IsRotation<T>(r: seq<T>, s: seq<T>)
  {
    exists k :: RotationBy(r, s, k)
  }

  /**
   * The speaking order of a meeting: the living players in turn order,
   * rotated so that the reporter speaks first when alive. It is a rotation
   * of the living players (same members, same cyclic order).
   */
  function SpeakerOrder(turnOrder: seq<PlayerId>, players: map<PlayerId, Player>, reporter: PlayerId): (r: seq<PlayerId>)
    ensures IsRotation(r, AliveInOrder(turnOrder, players))
    ensures multiset(r) == multiset(AliveInOrder(turnOrder, players))
    ensures forall id :: id in r ==> AliveIn(players, id)
    ensures AliveIn(players, reporter) && reporter in turnOrder ==> |r| > 0 && r[0] == reporter
    ensures !(reporter in turnOrder && AliveIn(players, reporter)) ==> r == AliveInOrder(turnOrder, players)
  {
    var alive := AliveInOrder(turnOrder, players);
    var start := if reporter in alive then IndexOf(alive, reporter) else 0;
    assert alive == alive[..start] + alive[start..];
    assert multiset(alive[start..] + alive[..start]) == multiset(alive);
    assert start == 0 ==> alive[start..] + alive[..start] == alive;
    var r := alive[start..] + alive[..start];
    assert RotationBy(r, alive, start);
    r
  }

  // ---------------------------------------------------------------------
  // Victory
  // ---------------------------------------------------------------------

  predicate OnTeam(players: map<PlayerId, Player>, id: PlayerId, team: Team)
  {
    id in players && players[id].IsAlive() && players[id].identity.Some? &&
    players[id].identity.value.role.team == team
  }

  /** Living players with an identity on `team`. */
  function TeamAlive(players: map<PlayerId, Player>, team: Team): nat
  {
    |set id | id in players && OnTeam(players, id, team)|
  }

  /**
   * `_check_win_condition`'s verdict from the living good and evil counts:
   * evil wins once it is non-empty and at least as large as good, good wins
   * once evil is gone, and otherwise the game goes on — which happens
   * exactly when some but fewer evil than good players are alive.
   */
  function Verdict(good: nat, evil: nat): (r: Option<Team>)
    ensures r == Some(Evil) <==> evil > 0 && evil >= good
    ensures r == Some(Good) <==> evil == 0
    ensures r.None? <==> 0 < evil < good
    ensures r != Some(Neutral)
  {
    if evil >= good && evil > 0 then Some(Evil)
    else if evil == 0 then Some(Good)
    else None
  }

  function WinReason(t: Team): string
  {
    match t
    case Evil => "Duck count reached or exceeded good players, duck team wins!"
    case Good => "All ducks have been found, good team wins!"
    case Neutral => ""
  }

  /** The verdict on a player map. */
  function WinnerOf(players: map<PlayerId, Player>): Option<Team>
  {
    Verdict(TeamAlive(players, Good), TeamAlive(players, Evil))
  }

  /** A single living assassin against a single living goose is an evil win. */
  lemma OneDuckOneGooseIsEvilWin(players: map<PlayerId, Player>, duck: PlayerId, goose: PlayerId)
    requires OnTeam(players, duck, Evil) && OnTeam(players, goose, Good)
    requires forall id :: id in players && id != duck && id != goose ==> !players[id].IsAlive()
    ensures WinnerOf(players) == Some(Evil)
  {
    var evil := set id | id in players && OnTeam(players, id, Evil);
    var good := set id | id in players && OnTeam(players, id, Good);
    assert evil == {duck};
    assert good == {goose};
  }

  // ---------------------------------------------------------------------
  // Available actions
  // ---------------------------------------------------------------------

  datatype ActionOption = ActionOption(kind: string, target: Option<string>, title: string)

  function MoveOptions(rooms: map<RoomId, Room>, connections: seq<RoomId>): (r: seq<ActionOption>)
    ensures forall a :: a in r ==> a.kind == "move" && a.target.Some? && a.target.value in connections && a.target.value in rooms
    ensures forall c :: c in connections && c in rooms ==> ActionOption("move", Some(c), "Go to " + rooms[c].name) in r
  {
    if connections == [] then []
    else
      var c := connections[0];
      (if c in rooms then [ActionOption("move", Some(c), "Go to " + rooms[c].name)] else [])
      + MoveOptions(rooms, connections[1..])
  }

  /** Is `other` a living player, distinct from `pid`, standing where `pid` stands? */
  predicate Companion(players: map<PlayerId, Player>, pid: PlayerId, other: PlayerId)
    requires pid in players
  {
    other in players && other != pid && players[other].location == players[pid].location && players[other].IsAlive()
  }

  function PeopleOptions(players: map<PlayerId, Player>, order: seq<PlayerId>, pid: PlayerId): (r: seq<ActionOption>)
    requires pid in players
    ensures forall a :: a in r ==>
              ((a.kind == "talk" || a.kind == "kill") && a.target.Some? &&
               a.target.value in order && Companion(players, pid, a.target.value))
    ensures forall a :: a in r && a.kind == "kill" ==> players[pid].CanKill()
    ensures forall o :: o in order && Companion(players, pid, o) ==>
              ActionOption("talk", Some(o), "Talk with " + players[o].name) in r &&
              (players[pid].CanKill() ==> ActionOption("kill", Some(o), "🔪 Kill " + players[o].name) in r)
  {
    if order == [] then []
    else
      var o := order[0];
      (if Companion(players, pid, o) then
         [ActionOption("talk", Some(o), "Talk with " + players[o].name)] +
         (if players[pid].CanKill() then [ActionOption("kill", Some(o), "🔪 Kill " + players[o].name)] else [])
       else [])
      + PeopleOptions(players, order[1..], pid)
  }

  /** Is `id` a dead player lying in `room`? */
  predicate IsBody(players: map<PlayerId, Player>, id: PlayerId, room: RoomId)
  {
    id in players && !players[id].IsAlive() && players[id].location == room
  }

  /**
   * The first player in `order` lying dead in `room`: a body is found
   * exactly when there is one, and no body comes before it.
   */
  function FirstBody(players: map<PlayerId, Player>, order: seq<PlayerId>, room: RoomId): (r: Option<PlayerId>)
    ensures r.Some? ==> exists i :: (0 <= i < |order| && order[i] == r.value && IsBody(players, r.value, room) &&
                                     forall j :: 0 <= j < i ==> !IsBody(players, order[j], room))
    ensures r.None? <==> forall id :: id in order ==> !IsBody(players, id, room)
  {
    if order == [] then None
    else if IsBody(players, order[0], room) then
      assert order[0] == order[0];
      Some(order[0])
    else
      var rest := FirstBody(players, order[1..], room);
      if rest.Some? then
        var i :| 0 <= i < |order[1..]| && order[1..][i] == rest.value && IsBody(players, rest.value, room) &&
                 forall j :: 0 <= j < i ==> !IsBody(players, order[1..][j], room);
        assert order[i + 1] == rest.value;
        assert forall j :: 1 <= j < i + 1 ==> order[j] == order[1..][j - 1];
        rest
      else
        assert forall id :: id in order ==> id == order[0] || id in order[1..];
        rest
  }

  function Progress(p: Player, task: TaskId): int
  {
    if task in p.tasksProgress then p.tasksProgress[task] else 0
  }

  function TaskOptions(p: Player, tasks: seq<TaskId>): (r: seq<ActionOption>)
    ensures forall a :: a in r ==>
              (a.kind == "task" && a.target.Some? && a.target.value in tasks && Progress(p, a.target.value) < TASK_STEPS)
    ensures forall t :: t in tasks && Progress(p, t) < TASK_STEPS ==> exists a :: a in r && a.target == Some(t)
  {
    if tasks == [] then []
    else
      var t := tasks[0];
      var pr := Progress(p, t);
      (if pr < TASK_STEPS then
         [ActionOption("task", Some(t), "🛠️ " + t + " - " + (if pr == 0 then "Not started" else "In progress (1/2)"))]
       else [])
      + TaskOptions(p, tasks[1..])
  }

  function VoteTargets(players: map<PlayerId, Player>, order: seq<PlayerId>, pid: PlayerId): (r: seq<ActionOption>)
    ensures forall a :: a in r ==>
              (a.kind == "vote" && a.target.Some? && a.target.value in order &&
               a.target.value != pid && AliveIn(players, a.target.value))
    ensures forall o :: o in order && o != pid && AliveIn(players, o) ==>
              ActionOption("vote", Some(o), "Vote for " + players[o].name) in r
  {
    if order == [] then []
    else
      var o := order[0];
      (if AliveIn(players, o) && o != pid then [ActionOption("vote", Some(o), "Vote for " + players[o].name)] else [])
      + VoteTargets(players, order[1..], pid)
  }

  /** The independent legality rule for a free-roam action of player `pid`. */
  predicate LegalInFreeRoam(players: map<PlayerId, Player>, rooms: map<RoomId, Room>, pid: PlayerId, a: ActionOption)
    requires pid in players
  {
    var p := players[pid];
    if a.kind == "move" then
      a.target.Some? && p.location in rooms && a.target.value in rooms[p.location].connections && a.target.value in rooms
    else if a.kind == "talk" then
      a.target.Some? && Companion(players, pid, a.target.value)
    else if a.kind == "kill" then
      a.target.Some? && Companion(players, pid, a.target.value) && p.CanKill()
    else if a.kind == "emergency" then
      p.location in rooms && rooms[p.location].isMeetingRoom && p.emergencyMeetingsLeft > 0
    else if a.kind == "report" then
      a.target.Some? && IsBody(players, a.target.value, p.location)
    else if a.kind == "task" then
      a.target.Some? && p.location in rooms && a.target.value in rooms[p.location].tasks &&
      Progress(p, a.target.value) < TASK_STEPS
    else false
  }

  /**
   * The free-roam menu, in the source's order: moves, talks (each followed
   * by a kill when the player can kill), the emergency button, a report,
   * then tasks. Every offered action is legal, and every living companion
   * can be talked to.
   */
  function FreeRoamActions(players: map<PlayerId, Player>, order: seq<PlayerId>, rooms: map<RoomId, Room>,
                           pid: PlayerId): (r: seq<ActionOption>)
    requires pid in players
    ensures forall a :: a in r ==> LegalInFreeRoam(players, rooms, pid, a)
    ensures forall o :: o in order && Companion(players, pid, o) ==>
              ActionOption("talk", Some(o), "Talk with " + players[o].name) in r
    ensures players[pid].location in rooms && rooms[players[pid].location].isMeetingRoom &&
            players[pid].emergencyMeetingsLeft > 0 ==>
              ActionOption("emergency", None, "🚨 Call Emergency Meeting") in r
  {
    var p := players[pid];
    var here := if p.location in rooms then Some(rooms[p.location]) else None;
    var moves := if here.Some? then MoveOptions(rooms, here.value.connections) else [];
    var people := PeopleOptions(players, order, pid);
    var emergency := if here.Some? && here.value.isMeetingRoom && p.emergencyMeetingsLeft > 0
                     then [ActionOption("emergency", None, "🚨 Call Emergency Meeting")] else [];
    var body := FirstBody(players, order, p.location);
    var report := if body.Some?
                  then [ActionOption("report", body, "☠️ Report " + players[body.value].name + "'s body")] else [];
    var tasks := if here.Some? then TaskOptions(p, here.value.tasks) else [];
    LegalMoves(players, rooms, pid, moves);
    LegalPeople(players, rooms, order, pid);
    LegalTasks(players, rooms, pid, tasks);
    assert forall a :: a in report ==> LegalInFreeRoam(players, rooms, pid, a);
    assert forall a :: a in emergency ==> LegalInFreeRoam(players, rooms, pid, a);
    ConcatLegal(players, rooms, pid, moves, people, emergency, report, tasks);
    moves + people + emergency + report + tasks
  }

  lemma LegalMoves(players: map<PlayerId, Player>, rooms: map<RoomId, Room>, pid: PlayerId, moves: seq<ActionOption>)
    requires pid in players
    requires moves == if players[pid].location in rooms
                      then MoveOptions(rooms, rooms[players[pid].location].connections) else []
    ensures forall a :: a in moves ==> LegalInFreeRoam(players, rooms, pid, a)
  {
  }

  lemma LegalPeople(players: map<PlayerId, Player>, rooms: map<RoomId, Room>, order: seq<PlayerId>, pid: PlayerId)
    requires pid in players
    ensures forall a :: a in PeopleOptions(players, order, pid) ==> LegalInFreeRoam(players, rooms, pid, a)
  {
  }

  lemma LegalTasks(players: map<PlayerId, Player>, rooms: map<RoomId, Room>, pid: PlayerId, tasks: seq<ActionOption>)
    requires pid in players
    requires tasks == if players[pid].location in rooms
                      then TaskOptions(players[pid], rooms[players[pid].location].tasks) else []
    ensures forall a :: a in tasks ==> LegalInFreeRoam(players, rooms, pid, a)
  {
  }

  lemma ConcatLegal(players: map<PlayerId, Player>, rooms: map<RoomId, Room>, pid: PlayerId,
                    a: seq<ActionOption>, b: seq<ActionOption>, c: seq<ActionOption>, d: seq<ActionOption>,
                    e: seq<ActionOption>)
    requires pid in players
    requires forall x :: x in a ==> LegalInFreeRoam(players, rooms, pid, x)
    requires forall x :: x in b ==> LegalInFreeRoam(players, rooms, pid, x)
    requires forall x :: x in c ==> LegalInFreeRoam(players, rooms, pid, x)
    requires forall x :: x in d ==> LegalInFreeRoam(players, rooms, pid, x)
    requires forall x :: x in e ==> LegalInFreeRoam(players, rooms, pid, x)
    ensures forall x :: x in a + b + c + d + e ==> LegalInFreeRoam(players, rooms, pid, x)
  {
  }

  /** The voting menu: every other living player, then skipping. */
  function VotingActions(players: map<PlayerId, Player>, order: seq<PlayerId>, pid: PlayerId): (r: seq<ActionOption>)
    ensures |r| > 0 && r[|r| - 1] == ActionOption("vote", Some("skip"), "Skip vote")
    ensures forall a :: a in r[..|r| - 1] ==>
              (a.kind == "vote" && a.target.Some? && a.target.value != pid && AliveIn(players, a.target.value))
    ensures forall o :: o in order && o != pid && AliveIn(players, o) ==>
              ActionOption("vote", Some(o), "Vote for " + players[o].name) in r
  {
    var targets := VoteTargets(players, order, pid);
    assert (targets + [ActionOption("vote", Some("skip"), "Skip vote")])[..|targets|] == targets;
    targets + [ActionOption("vote", Some("skip"), "Skip vote")]
  }

  /**
   * `_get_available_actions`: a missing or dead player is offered nothing,
   * and so is anyone outside the free-roam and voting phases.
   */
  function AvailableActions(players: map<PlayerId, Player>, order: seq<PlayerId>, rooms: map<RoomId, Room>,
                            phase: GamePhase, pid: PlayerId): (r: seq<ActionOption>)
    ensures !AliveIn(players, pid) ==> r == []
    ensures phase != FreeRoam && phase != Voting ==> r == []
    ensures AliveIn(players, pid) && phase == FreeRoam ==> r == FreeRoamActions(players, order, rooms, pid)
    ensures AliveIn(players, pid) && phase == Voting ==> r == VotingActions(players, order, pid)
  {
    if !AliveIn(players, pid) then []
    else if phase == FreeRoam then FreeRoamActions(players, order, rooms, pid)
    else if phase == Voting then VotingActions(players, order, pid)
    else []
  }

  // ---------------------------------------------------------------------
  // NPC decisions
  // ---------------------------------------------------------------------

  /** The `action` and `target` fields of an LLM reply that parsed as JSON. */
  datatype RawDecision = RawDecision(action: string, target: Option<string>)

  datatype Decision = Decision(action: string, target: Option<string>)

  const WAIT := Decision("wait", None)

  function Kinds(actions: seq<ActionOption>): set<string>
  {
    set a | a in actions :: a.kind
  }

  /** Everyone in `order` standing in `room`, dead or alive, the NPC included. */
  function PeopleHere(players: map<PlayerId, Player>, order: seq<PlayerId>, room: RoomId): (r: seq<PlayerId>)
    ensures forall id :: id in r <==> id in order && id in players && players[id].location == room
  {
    if order == [] then []
    else (if order[0] in players && players[order[0]].location == room then [order[0]] else [])
         + PeopleHere(players, order[1..], room)
  }

  /**
   * `_parse_decision_response`: an unparsable reply, an action type not on
   * the menu, a move to a room that is not connected, or a kill or vote
   * naming someone not present all become "wait"; anything else is
   * accepted as given.
   */
  function ParseDecision(raw: Option<RawDecision>, available: seq<ActionOption>,
                         connections: seq<RoomId>, peopleHere: seq<PlayerId>): (d: Decision)
    ensures d == WAIT || (raw.Some? && d == Decision(raw.value.action, raw.value.target))
    ensures d != WAIT ==> d.action in Kinds(available)
    ensures d.action == "move" ==> d.target.Some? && d.target.value in connections
    ensures (d.action == "kill" || d.action == "vote") && Present(d.target) ==> d.target.value in peopleHere
    ensures raw.Some? && raw.value.action in Kinds(available) &&
            (raw.value.action == "move" ==> raw.value.target.Some? && raw.value.target.value in connections) &&
            ((raw.value.action == "kill" || raw.value.action == "vote") && Present(raw.value.target) ==>
               raw.value.target.value in peopleHere)
            ==> d == Decision(raw.value.action, raw.value.target)
  {
    match raw
    case None => WAIT
    case Some(RawDecision(action, target)) =>
      if action !in Kinds(available) then WAIT
      else if action == "move" && !(target.Some? && target.value in connections) then WAIT
      else if (action == "kill" || action == "vote") && Present(target) && target.value !in peopleHere then WAIT
      else Decision(action, target)
  }

  /** The "wait" action is never on a menu, so it is never accepted as such. */
  lemma WaitNeverOffered(players: map<PlayerId, Player>, order: seq<PlayerId>, rooms: map<RoomId, Room>,
                         phase: GamePhase, pid: PlayerId)
    ensures "wait" !in Kinds(AvailableActions(players, order, rooms, phase, pid))
  {
    var r := AvailableActions(players, order, rooms, phase, pid);
    if AliveIn(players, pid) && phase == FreeRoam {
      forall a | a in r ensures a.kind != "wait" {
        assert LegalInFreeRoam(players, rooms, pid, a);
      }
    } else if AliveIn(players, pid) && phase == Voting {
      forall a | a in r ensures a.kind != "wait" {
        assert a in r[..|r| - 1] || a == r[|r| - 1];
      }
    }
  }
}
