/**
 * The pure pieces the goose-duck game class is specified with: the map
 * configuration, the roster `_init_players` builds, the role assignment of
 * `_assign_roles`, the meeting teleport, the turn-flag reset, chat
 * summaries, and the oracle that stands for the language model.
 */
module GooseWorld {
  import opened Common
  import opened Events
  import opened GooseIdentity
  import opened GooseRules

  // ---------------------------------------------------------------------
  // Map configuration
  // ---------------------------------------------------------------------

  /** The `rooms` mapping of the map configuration, keyed by room id. */
  function RoomMap(roomList: seq<Room>): (m: map<RoomId, Room>)
    ensures m.Keys == set r | r in roomList :: r.id
    ensures forall id :: id in m ==> m[id].id == id && m[id] in roomList
  {
    if roomList == [] then map[]
    else
      var last := roomList[|roomList| - 1];
      var m := RoomMap(roomList[..|roomList| - 1])[last.id := last];
      assert forall r :: r in roomList ==> r in roomList[..|roomList| - 1] || r == last;
      m
  }

  /** Every task of every room, in room order: the list each player is assigned. */
  function AllTasks(roomList: seq<Room>): (r: seq<TaskId>)
    ensures forall t :: t in r <==> exists room :: room in roomList && t in room.tasks
  {
    if roomList == [] then []
    else
      var r := roomList[0].tasks + AllTasks(roomList[1..]);
      assert forall room :: room in roomList ==> room == roomList[0] || room in roomList[1..];
      r
  }

  // ---------------------------------------------------------------------
  // Roster
  // ---------------------------------------------------------------------

  /** One entry of the roster: the human first, then each configured NPC. */
  datatype Recruit = Recruit(id: PlayerId, name: string, isHuman: bool)

  function Recruits(humanName: string, npcs: seq<(PlayerId, string)>): (r: seq<Recruit>)
    ensures |r| == |npcs| + 1
    ensures r[0] == Recruit(HUMAN_ID, humanName, true)
    ensures forall i :: 0 <= i < |npcs| ==> r[i + 1] == Recruit(npcs[i].0, npcs[i].1, false)
  {
    [Recruit(HUMAN_ID, humanName, true)] + NpcRecruits(npcs)
  }

  function NpcRecruits(npcs: seq<(PlayerId, string)>): (r: seq<Recruit>)
    ensures |r| == |npcs|
    ensures forall i :: 0 <= i < |npcs| ==> r[i] == Recruit(npcs[i].0, npcs[i].1, false)
  {
    if npcs == [] then []
    else NpcRecruits(npcs[..|npcs| - 1]) + [Recruit(npcs[|npcs| - 1].0, npcs[|npcs| - 1].1, false)]
  }

  function IdsOf(recruits: seq<Recruit>): (r: seq<PlayerId>)
    ensures |r| == |recruits|
    ensures forall i :: 0 <= i < |r| ==> r[i] == recruits[i].id
  {
    if recruits == [] then [] else IdsOf(recruits[..|recruits| - 1]) + [recruits[|recruits| - 1].id]
  }

  /** The human is among the recruits, so any shuffle of the enlisted ids holds it. */
  lemma HumanEnlisted(order0: seq<PlayerId>, recruits: seq<Recruit>, shuffled: seq<PlayerId>)
    requires recruits != [] && recruits[0].id == HUMAN_ID
    requires multiset(shuffled) == multiset(order0 + IdsOf(recruits))
    ensures HUMAN_ID in shuffled
  {
    var ids := IdsOf(recruits);
    assert ids[0] == HUMAN_ID;
    assert (order0 + ids)[|order0|] == HUMAN_ID;
    assert HUMAN_ID in multiset(order0 + ids);
  }

  /**
   * A newly created player: standing in the spawn room with every task
   * assigned at progress 0, no identity yet, no memories, one emergency
   * meeting, idle and not yet acted.
   */
  function FreshPlayer(r: Recruit, spawn: RoomId, tasks: seq<TaskId>): (p: Player)
    ensures p.id == r.id && p.name == r.name && p.isHuman == r.isHuman
    ensures p.identity.None? && p.location == spawn && p.memories == [] && !p.hasActed
    ensures p.tasksAssigned == tasks && p.tasksCompleted == [] && p.emergencyMeetingsLeft == 1
    ensures forall t :: t in tasks ==> Progress(p, t) == 0
  {
    Player(r.id, r.name, r.isHuman, None, spawn, "idle", [], false, map t | t in tasks :: 0, [], tasks, 1)
  }

  /**
   * `_init_players` on the player dictionary: every recruit is (re)created
   * fresh under its id, a later recruit with the same id replacing an
   * earlier one; players not on the roster are kept.
   */
  function Enlist(base: map<PlayerId, Player>, recruits: seq<Recruit>, spawn: RoomId, tasks: seq<TaskId>)
    : map<PlayerId, Player>
  {
    if recruits == [] then base
    else
      var last := recruits[|recruits| - 1];
      Enlist(base, recruits[..|recruits| - 1], spawn, tasks)[last.id := FreshPlayer(last, spawn, tasks)]
  }

  /**
   * The enlisted dictionary holds the old keys and the recruits' ids; a
   * player off the roster is kept as it was; every recruit stands fresh in
   * the spawn room, without identity, memories or completed tasks.
   */
  lemma {:induction false} EnlistSpec(base: map<PlayerId, Player>, recruits: seq<Recruit>, spawn: RoomId,
                                      tasks: seq<TaskId>)
    ensures forall id :: id in Enlist(base, recruits, spawn, tasks) <==> id in base || id in IdsOf(recruits)
    ensures forall id :: id in base && id !in IdsOf(recruits) ==> Enlist(base, recruits, spawn, tasks)[id] == base[id]
    ensures forall id :: id in IdsOf(recruits) ==>
              var p := Enlist(base, recruits, spawn, tasks)[id];
              p.identity.None? && p.location == spawn && p.memories == [] &&
              p.tasksCompleted == [] && !p.hasActed && p.id == id
  {
    if recruits != [] {
      var init := recruits[..|recruits| - 1];
      var last := recruits[|recruits| - 1];
      EnlistSpec(base, init, spawn, tasks);
      assert forall id :: id in IdsOf(recruits) <==> id in IdsOf(init) || id == last.id by {
        forall id | id in IdsOf(recruits) ensures id in IdsOf(init) || id == last.id {
          var i :| 0 <= i < |recruits| && IdsOf(recruits)[i] == id;
          if i < |init| { assert IdsOf(init)[i] == id; }
        }
        forall id | id in IdsOf(init) ensures id in IdsOf(recruits) {
          var i :| 0 <= i < |init| && IdsOf(init)[i] == id;
          assert IdsOf(recruits)[i] == id;
        }
        assert IdsOf(recruits)[|recruits| - 1] == last.id;
      }
    }
  }

  /** Python's `list.remove(x)` for a present `x`: drops its first occurrence. */
  function RemoveFirst(s: seq<PlayerId>, x: PlayerId): (r: seq<PlayerId>)
    requires x in s
    ensures |r| == |s| - 1
  {
    if s[0] == x then s[1..] else [s[0]] + RemoveFirst(s[1..], x)
  }

  /** `RemoveFirst` takes exactly one `x` out of the multiset of elements. */
  lemma {:induction false} RemoveFirstMultiset(s: seq<PlayerId>, x: PlayerId)
    requires x in s
    ensures multiset(RemoveFirst(s, x)) == multiset(s) - multiset{x}
  {
    assert s == [s[0]] + s[1..];
    if s[0] != x {
      RemoveFirstMultiset(s[1..], x);
    }
  }

  /**
   * The turn order of `_init_players`: the shuffled roster with the human
   * moved to the front. The human, when on the roster, always moves first;
   * otherwise the shuffle is kept as it is.
   */
  function PromoteHuman(shuffled: seq<PlayerId>): (r: seq<PlayerId>)
    ensures |r| == |shuffled|
    ensures HUMAN_ID in shuffled ==> |r| > 0 && r[0] == HUMAN_ID
    ensures HUMAN_ID !in shuffled ==> r == shuffled
  {
    if HUMAN_ID in shuffled then [HUMAN_ID] + RemoveFirst(shuffled, HUMAN_ID)
    else shuffled
  }

  /** Promoting the human only reorders: the turn order is a permutation of the shuffle. */
  lemma PromoteHumanPermutes(shuffled: seq<PlayerId>)
    ensures multiset(PromoteHuman(shuffled)) == multiset(shuffled)
  {
    if HUMAN_ID in shuffled {
      var rest := RemoveFirst(shuffled, HUMAN_ID);
      RemoveFirstMultiset(shuffled, HUMAN_ID);
      assert multiset([HUMAN_ID] + rest) == multiset{HUMAN_ID} + multiset(rest);
    }
  }

  /** `[role_type] * count`: a non-positive count contributes nothing. */
  function Repeat(t: RoleType, count: int): (r: seq<RoleType>)
    ensures |r| == if count > 0 then count else 0
    ensures forall x :: x in r ==> x == t
    decreases count
  {
    if count <= 0 then [] else [t] + Repeat(t, count - 1)
  }

  /** The role list of the default setup before shuffling. */
  function ExpandRoles(setup: seq<(RoleType, int)>): (r: seq<RoleType>)
    ensures forall x :: x in r ==> exists e :: e in setup && e.0 == x
  {
    if setup == [] then []
    else
      var r := Repeat(setup[0].0, setup[0].1) + ExpandRoles(setup[1..]);
      assert forall e :: e in setup[1..] ==> e in setup;
      r
  }

  /** The identity `_assign_roles` gives the player at position `i` of the roster. */
  function Assigned(p: Player, id: PlayerId, role: RoleType): (q: Player)
    ensures q == p.(identity := Some(NewIdentity(id, p.name, FromType(role))))
  {
    p.(identity := Some(NewIdentity(id, p.name, FromType(role))))
  }

  /**
   * `_assign_roles`' loop: the `i`-th player of the dictionary's key order
   * receives the `i`-th shuffled role; players beyond the role list keep
   * their identity.
   */
  function AssignRoles(players: map<PlayerId, Player>, ids: seq<PlayerId>, roles: seq<RoleType>)
    : map<PlayerId, Player>
  {
    if ids == [] then players
    else
      var j := |ids| - 1;
      var prev := AssignRoles(players, ids[..j], roles);
      if j < |roles| && ids[j] in prev then prev[ids[j] := Assigned(prev[ids[j]], ids[j], roles[j])]
      else prev
  }

  /** Handing out roles keeps the keys and changes nothing but identities. */
  lemma {:induction false} AssignRolesSpec(players: map<PlayerId, Player>, ids: seq<PlayerId>, roles: seq<RoleType>)
    ensures AssignRoles(players, ids, roles).Keys == players.Keys
    ensures forall id :: id in players ==>
              AssignRoles(players, ids, roles)[id] == players[id].(identity := AssignRoles(players, ids, roles)[id].identity)
  {
    if ids != [] {
      AssignRolesSpec(players, ids[..|ids| - 1], roles);
    }
  }

  /**
   * With distinct ids, the player at position `j` holds the identity of
   * the `j`-th role whenever there is one.
   */
  lemma {:induction false} AssignRolesGives(players: map<PlayerId, Player>, ids: seq<PlayerId>, roles: seq<RoleType>,
                                            j: nat)
    requires Distinct(ids)
    requires j < |ids| && j < |roles| && ids[j] in players
    ensures ids[j] in AssignRoles(players, ids, roles)
    ensures AssignRoles(players, ids, roles)[ids[j]].identity ==
              Some(NewIdentity(ids[j], players[ids[j]].name, FromType(roles[j])))
  {
    AssignRolesSpec(players, ids, roles);
    var last := |ids| - 1;
    var init := ids[..last];
    var prev := AssignRoles(players, init, roles);
    AssignRolesSpec(players, init, roles);
    assert prev[ids[j]].name == players[ids[j]].name;
    var r := AssignRoles(players, ids, roles);
    assert r == if last < |roles| && ids[last] in prev
                  then prev[ids[last] := Assigned(prev[ids[last]], ids[last], roles[last])] else prev;
    if j == last {
      assert r[ids[j]] == Assigned(prev[ids[j]], ids[j], roles[j]);
      assert r[ids[j]].identity == Some(NewIdentity(ids[j], prev[ids[j]].name, FromType(roles[j])));
    }
    if j < last {
      assert Distinct(init);
      AssignRolesGives(players, init, roles, j);
      assert init[j] == ids[j];
      assert ids[j] != ids[last];
    }
  }

  /** Players outside the first `|roles|` ids keep their record. */
  lemma {:induction false} AssignRolesKeeps(players: map<PlayerId, Player>, ids: seq<PlayerId>, roles: seq<RoleType>)
    ensures forall id :: id in players && id !in PyHead(ids, |roles|) ==>
              id in AssignRoles(players, ids, roles) && AssignRoles(players, ids, roles)[id] == players[id]
  {
    AssignRolesSpec(players, ids, roles);
    if ids != [] {
      var last := |ids| - 1;
      var init := ids[..last];
      AssignRolesKeeps(players, init, roles);
      forall id | id in players && id !in PyHead(ids, |roles|)
        ensures id in AssignRoles(players, ids, roles) && AssignRoles(players, ids, roles)[id] == players[id]
      {
        if last < |roles| {
          assert PyHead(ids, |roles|) == ids;
          assert PyHead(init, |roles|) == init;
        } else {
          assert PyHead(init, |roles|) == PyHead(ids, |roles|);
        }
      }
    }
  }

  // ---------------------------------------------------------------------
  // Meetings, turns and votes
  // ---------------------------------------------------------------------

  /**
   * The teleport of `_start_discussion`: every living player is moved to
   * the meeting room, the dead stay where they fell, nothing else changes.
   */
  function Teleport(players: map<PlayerId, Player>, room: RoomId): (r: map<PlayerId, Player>)
    ensures r.Keys == players.Keys
    ensures forall id :: id in players ==>
              r[id] == players[id].(location := if players[id].IsAlive() then room else players[id].location)
  {
    map id | id in players :: if players[id].IsAlive() then players[id].(location := room) else players[id]
  }

  /** `_reset_turn_flags`: nobody has acted, nothing else changes. */
  function Unacted(players: map<PlayerId, Player>): (r: map<PlayerId, Player>)
    ensures r.Keys == players.Keys
    ensures forall id :: id in players ==> r[id] == players[id].(hasActed := false)
  {
    map id | id in players :: players[id].(hasActed := false)
  }

  /** The number of living players. */
  function AliveCount(players: map<PlayerId, Player>): nat
  {
    |set id | id in players && players[id].IsAlive()|
  }

  /** A living player who is not the human: one who speaks automatically in a meeting. */
  predicate AutoSpeaker(players: map<PlayerId, Player>, id: PlayerId)
  {
    AliveIn(players, id) && !players[id].isHuman
  }

  /** The automatic speakers among `s`, in order. */
  function NpcSpeakers(players: map<PlayerId, Player>, s: seq<PlayerId>): (r: seq<PlayerId>)
    ensures forall id :: id in r ==> id in s && AutoSpeaker(players, id)
    ensures |r| <= |s|
  {
    if s == [] then []
    else (if AutoSpeaker(players, s[0]) then [s[0]] else []) + NpcSpeakers(players, s[1..])
  }

  function SpeakerIds(msgs: seq<Speech>): (r: seq<PlayerId>)
    ensures |r| == |msgs|
    ensures forall i :: 0 <= i < |msgs| ==> r[i] == msgs[i].speakerId
  {
    if msgs == [] then [] else SpeakerIds(msgs[..|msgs| - 1]) + [msgs[|msgs| - 1].speakerId]
  }

  // ---------------------------------------------------------------------
  // Conversations
  // ---------------------------------------------------------------------

  /**
   * `_other_participant`: the first participant other than `speaker`, or
   * nothing when every participant is the speaker.
   */
  function OtherIn(participants: seq<PlayerId>, speaker: PlayerId): (r: Option<PlayerId>)
    ensures r.Some? ==> r.value in participants && r.value != speaker
    ensures r.Some? ==> exists i :: 0 <= i < |participants| && participants[i] == r.value &&
                         forall j :: 0 <= j < i ==> participants[j] == speaker
    ensures r.None? <==> forall p :: p in participants ==> p == speaker
  {
    if participants == [] then None
    else if participants[0] != speaker then
      assert participants[0] == participants[0];
      Some(participants[0])
    else
      var r := OtherIn(participants[1..], speaker);
      if r.Some? then
        var i :| 0 <= i < |participants[1..]| && participants[1..][i] == r.value &&
                 forall j :: 0 <= j < i ==> participants[1..][j] == speaker;
        assert participants[i + 1] == r.value;
        assert forall j :: 1 <= j < i + 1 ==> participants[j] == participants[1..][j - 1];
        r
      else
        assert forall p :: p in participants ==> p == participants[0] || p in participants[1..];
        r
  }

  /** `_record_memory` for each listed participant in turn (a repeated id remembers twice). */
  function RecordForEach(players: map<PlayerId, Player>, ids: seq<PlayerId>, text: string)
    : (r: map<PlayerId, Player>)
    ensures r.Keys == players.Keys
    ensures forall id :: id in players ==> r[id] == players[id].(memories := r[id].memories)
    ensures forall id :: id in players && id !in ids ==> r[id] == players[id]
    ensures MemoriesBounded(players) ==> MemoriesBounded(r)
  {
    if ids == [] then players
    else
      var j := |ids| - 1;
      var prev := RecordForEach(players, ids[..j], text);
      assert forall id :: id !in ids ==> id !in ids[..j];
      if ids[j] in prev then prev[ids[j] := prev[ids[j]].(memories := Remember(prev[ids[j]].memories, text))]
      else prev
  }

  /** A chat line as the summary quotes it. */
  function Quote(m: ChatMessage): string
  {
    m.speakerName + ": " + m.content
  }

  function Quotes(msgs: seq<ChatMessage>): (r: seq<string>)
    ensures |r| == |msgs|
    ensures forall i :: 0 <= i < |msgs| ==> r[i] == Quote(msgs[i])
  {
    if msgs == [] then [] else Quotes(msgs[..|msgs| - 1]) + [Quote(msgs[|msgs| - 1])]
  }

  /**
   * `_chat_summary_text`: a summary exists exactly when there are two
   * participants known to the game; it names the round, both players and
   * the room, and quotes the last `SUMMARY_MESSAGES` lines.
   */
  function ChatSummary(participants: seq<PlayerId>, messages: seq<ChatMessage>, room: Option<RoomId>,
                       round: int, players: map<PlayerId, Player>, rooms: map<RoomId, Room>)
    : (r: Option<string>)
    ensures r.Some? <==> |participants| >= 2 && participants[0] in players && participants[1] in players
    ensures r.Some? ==> r.value != []
  {
    if |participants| < 2 then None
    else if participants[0] !in players || participants[1] !in players then None
    else
      var roomName := if room.Some? && room.value in rooms then rooms[room.value].name else "Unknown";
      var snippet := Join(Quotes(PyTail(messages, SUMMARY_MESSAGES)), "; ");
      Some("Round " + Show(round) + ", " + players[participants[0]].name + " and " +
           players[participants[1]].name + " conversation in " + roomName + ": " + snippet)
  }

  // ---------------------------------------------------------------------
  // The language model as an oracle
  // ---------------------------------------------------------------------

  /**
   * A chat reply: either the `content` (empty when absent or falsy) and the
   * truthiness of `end` of a reply that parsed as JSON, or the raw text of
   * one that did not.
   */
  datatype ChatReply = JsonReply(content: string, end: bool) | TextReply(raw: string)

  /**
   * What a chat reply contributes: its text and whether it ends the
   * conversation. Unparsed text is stripped, and an empty one becomes
   * "..."; an unparsed reply never ends the conversation.
   */
  function ReplyText(reply: ChatReply): (r: (string, bool))
    ensures reply.TextReply? ==> !r.1 && r.0 != []
    ensures reply.JsonReply? ==> r == (reply.content, reply.end)
  {
    match reply
    case JsonReply(content, end) => (content, end)
    case TextReply(raw) => (if Strip(raw) == [] then "..." else Strip(raw), false)
  }

  /**
   * The language model, as arbitrary functions of what its prompts are
   * built from: the acting player's record with the menu it is offered,
   * the discussion so far, or the replying player, their partner and the
   * chat so far. `decide` yields the parsed
   * `action`/`target` of a decision or nothing when the reply is not JSON;
   * `speak` yields nothing when the call fails.
   */
  datatype Brain = Brain(
    decide: (Player, seq<ActionOption>) -> Option<RawDecision>,
    speak: (Player, seq<Speech>) -> Option<string>,
    reply: (Player, Player, seq<ChatMessage>) -> ChatReply)

  // ---------------------------------------------------------------------
  // The players invariant
  // ---------------------------------------------------------------------

  /** Completed tasks are listed once each and only once their progress reached `TASK_STEPS`. */
  predicate TasksConsistent(p: Player)
  {
    Distinct(p.tasksCompleted) &&
    forall t :: t in p.tasksCompleted ==> Progress(p, t) >= TASK_STEPS
  }

  /**
   * What holds of every player at all times: standing in a known room, at
   * most `MEMORY_LIMIT` memories, and consistent task bookkeeping.
   */
  predicate PlayersOk(players: map<PlayerId, Player>, rooms: map<RoomId, Room>)
  {
    forall id {:trigger players[id]} :: id in players ==> PlayerOk(players[id], rooms)
  }

  /** One player's part of `PlayersOk`. */
  predicate PlayerOk(p: Player, rooms: map<RoomId, Room>)
  {
    p.location in rooms && |p.memories| <= MEMORY_LIMIT && TasksConsistent(p)
  }

  /** The elements of a key order, as a set. */
  function Elems(s: seq<PlayerId>): set<PlayerId>
  {
    if s == [] then {} else Elems(s[..|s| - 1]) + {s[|s| - 1]}
  }

  lemma {:induction false} ElemsSpec(s: seq<PlayerId>)
    ensures forall x :: x in Elems(s) <==> x in s
  {
    if s != [] {
      var init := s[..|s| - 1];
      ElemsSpec(init);
      assert s == init + [s[|s| - 1]];
    }
  }

  /** `after` differs from `before` at most in memories, each kept within the bound. */
  predicate OnlyMemories(before: map<PlayerId, Player>, after: map<PlayerId, Player>)
  {
    after.Keys == before.Keys &&
    forall id :: id in after ==>
      after[id] == before[id].(memories := after[id].memories) && |after[id].memories| <= MEMORY_LIMIT
  }

  /** Recording memories keeps the invariant. */
  lemma MemoriesKeepOk(before: map<PlayerId, Player>, after: map<PlayerId, Player>, rooms: map<RoomId, Room>)
    requires PlayersOk(before, rooms) && OnlyMemories(before, after)
    ensures PlayersOk(after, rooms)
  {
    forall id | id in after
      ensures after[id].location in rooms && TasksConsistent(after[id])
    {
      assert after[id].tasksProgress == before[id].tasksProgress;
      assert after[id].tasksCompleted == before[id].tasksCompleted;
    }
  }

  lemma RecordsOnlyMemories(players: map<PlayerId, Player>, room: RoomId, text: string, ids: seq<PlayerId>)
    requires MemoriesBounded(players)
    ensures OnlyMemories(players, RecordForRoom(players, room, text))
    ensures OnlyMemories(players, RecordForAll(players, text))
    ensures OnlyMemories(players, RecordForEach(players, ids, text))
  {
    RecordKeepsBound(players, room, text);
  }

  /**
   * `after` differs from `before` at most in fields the invariant does not
   * mention: locations, memories and task bookkeeping are as they were.
   */
  predicate KeepsRecords(before: map<PlayerId, Player>, after: map<PlayerId, Player>)
  {
    after.Keys == before.Keys &&
    forall id :: id in after ==>
      after[id].location == before[id].location && after[id].memories == before[id].memories &&
      after[id].tasksProgress == before[id].tasksProgress && after[id].tasksCompleted == before[id].tasksCompleted
  }

  /** Replacing one record by one with the same location, memories and tasks keeps the records. */
  lemma RetouchKeepsRecords(ps: map<PlayerId, Player>, id: PlayerId, p: Player)
    requires id in ps && p.location == ps[id].location && p.memories == ps[id].memories
    requires p.tasksProgress == ps[id].tasksProgress && p.tasksCompleted == ps[id].tasksCompleted
    ensures KeepsRecords(ps, ps[id := p])
  {
  }

  /** Keeping the records is transitive. */
  lemma KeepsRecordsTrans(a: map<PlayerId, Player>, b: map<PlayerId, Player>, c: map<PlayerId, Player>)
    requires KeepsRecords(a, b) && KeepsRecords(b, c)
    ensures KeepsRecords(a, c)
  {
  }

  lemma RecordsKeepOk(before: map<PlayerId, Player>, after: map<PlayerId, Player>, rooms: map<RoomId, Room>)
    requires PlayersOk(before, rooms) && KeepsRecords(before, after)
    ensures PlayersOk(after, rooms)
  {
    forall id | id in after
      ensures after[id].location in rooms && TasksConsistent(after[id])
    {
      assert forall t :: Progress(after[id], t) == Progress(before[id], t);
    }
  }

  /** `appendNew` for each id in turn: the key order of a dictionary filled with `ids`. */
  function AppendAll(s: seq<PlayerId>, ids: seq<PlayerId>): seq<PlayerId>
  {
    if ids == [] then s else AppendNew(AppendAll(s, ids[..|ids| - 1]), ids[|ids| - 1])
  }

  /**
   * Filling a dictionary keeps the old keys first and in order, adds each
   * new id, nothing else, and never lists a key twice.
   */
  lemma {:induction false} AppendAllSpec(s: seq<PlayerId>, ids: seq<PlayerId>)
    ensures forall x :: x in AppendAll(s, ids) <==> x in s || x in ids
    ensures Distinct(s) ==> Distinct(AppendAll(s, ids))
    ensures |s| <= |AppendAll(s, ids)| && AppendAll(s, ids)[..|s|] == s
  {
    if ids != [] {
      var j := |ids| - 1;
      var prev := AppendAll(s, ids[..j]);
      AppendAllSpec(s, ids[..j]);
      assert forall x :: x in ids <==> x in ids[..j] || x == ids[j];
      var r := AppendNew(prev, ids[j]);
      AppendNewSpec(prev, ids[j]);
      assert r[..|s|] == prev[..|prev|][..|s|];
    }
  }

  /** One more recruit: `Enlist` and `AppendAll` each take one step on a prefix. */
  lemma EnlistStep(base: map<PlayerId, Player>, order0: seq<PlayerId>, ids0: seq<PlayerId>, recruits: seq<Recruit>,
                   i: nat, spawn: RoomId, tasks: seq<TaskId>)
    requires i < |recruits|
    ensures Enlist(base, recruits[..i + 1], spawn, tasks) ==
              Enlist(base, recruits[..i], spawn, tasks)[recruits[i].id := FreshPlayer(recruits[i], spawn, tasks)]
    ensures AppendAll(ids0, IdsOf(recruits[..i + 1])) == AppendNew(AppendAll(ids0, IdsOf(recruits[..i])), recruits[i].id)
    ensures order0 + IdsOf(recruits[..i + 1]) == (order0 + IdsOf(recruits[..i])) + [recruits[i].id]
  {
    assert recruits[..i + 1][..i] == recruits[..i];
    assert IdsOf(recruits[..i + 1]) == IdsOf(recruits[..i]) + [recruits[i].id];
  }

  /** Enlisting keeps the key order in step with the dictionary's keys. */
  lemma EnlistKeysMatch(base: map<PlayerId, Player>, ids0: seq<PlayerId>, recruits: seq<Recruit>,
                        spawn: RoomId, tasks: seq<TaskId>)
    requires forall id :: id in base <==> id in ids0
    ensures forall id :: id in Enlist(base, recruits, spawn, tasks) <==> id in AppendAll(ids0, IdsOf(recruits))
  {
    AppendAllSpec(ids0, IdsOf(recruits));
    EnlistSpec(base, recruits, spawn, tasks);
  }

  /**
   * The roster `start_game` leaves behind: the recruits enlisted over the
   * old dictionary, the roles handed out along the key order `ids`, and
   * nobody marked as having acted.
   */
  function StartRoster(base: map<PlayerId, Player>, recruits: seq<Recruit>, ids: seq<PlayerId>,
                       roles: seq<RoleType>, spawn: RoomId, tasks: seq<TaskId>): map<PlayerId, Player>
  {
    Unacted(AssignRoles(Enlist(base, recruits, spawn, tasks), ids, roles))
  }

  /**
   * After `start_game` with distinct keys, the player at position `j` of
   * the key order holds the `j`-th role, freshly created, and has not acted.
   */
  lemma StartRosterRole(base: map<PlayerId, Player>, recruits: seq<Recruit>, ids: seq<PlayerId>,
                        roles: seq<RoleType>, spawn: RoomId, tasks: seq<TaskId>, j: nat)
    requires Distinct(ids) && j < |ids| && j < |roles|
    requires forall id :: id in Enlist(base, recruits, spawn, tasks) <==> id in ids
    ensures ids[j] in StartRoster(base, recruits, ids, roles, spawn, tasks)
    ensures StartRoster(base, recruits, ids, roles, spawn, tasks)[ids[j]] ==
              Assigned(Enlist(base, recruits, spawn, tasks)[ids[j]], ids[j], roles[j]).(hasActed := false)
  {
    var e := Enlist(base, recruits, spawn, tasks);
    AssignRolesSpec(e, ids, roles);
    AssignRolesGives(e, ids, roles, j);
  }

  /**
   * With at least as many roles as keys, every player of the new roster
   * has an identity, and its role is one of the configured role types.
   */
  lemma StartRosterAllRoled(base: map<PlayerId, Player>, recruits: seq<Recruit>, ids: seq<PlayerId>,
                            roles: seq<RoleType>, spawn: RoomId, tasks: seq<TaskId>, id: PlayerId)
    requires Distinct(ids) && |roles| >= |ids|
    requires forall x :: x in Enlist(base, recruits, spawn, tasks) <==> x in ids
    requires id in StartRoster(base, recruits, ids, roles, spawn, tasks)
    ensures StartRoster(base, recruits, ids, roles, spawn, tasks)[id].identity.Some?
    ensures StartRoster(base, recruits, ids, roles, spawn, tasks)[id].identity.value.role.roleType in roles
  {
    AssignRolesSpec(Enlist(base, recruits, spawn, tasks), ids, roles);
    var j :| 0 <= j < |ids| && ids[j] == id;
    StartRosterRole(base, recruits, ids, roles, spawn, tasks, j);
  }

  /** A fresh roster satisfies the invariant wherever the old one did. */
  lemma EnlistKeepsOk(base: map<PlayerId, Player>, recruits: seq<Recruit>, spawn: RoomId, tasks: seq<TaskId>,
                      rooms: map<RoomId, Room>)
    requires PlayersOk(base, rooms) && spawn in rooms
    ensures PlayersOk(Enlist(base, recruits, spawn, tasks), rooms)
  {
    var r := Enlist(base, recruits, spawn, tasks);
    EnlistSpec(base, recruits, spawn, tasks);
    forall id | id in r
      ensures r[id].location in rooms && |r[id].memories| <= MEMORY_LIMIT && TasksConsistent(r[id])
    {
      if id in IdsOf(recruits) {
        assert r[id].tasksCompleted == [];
      } else {
        assert id in base;
      }
    }
  }

  /** Enlisting keeps the invariant and keeps the key order distinct and in step with the keys. */
  lemma EnlistOk(base: map<PlayerId, Player>, baseIds: seq<PlayerId>, recruits: seq<Recruit>,
                 spawn: RoomId, tasks: seq<TaskId>, rooms: map<RoomId, Room>)
    requires PlayersOk(base, rooms) && spawn in rooms
    requires base.Keys == Elems(baseIds) && Distinct(baseIds)
    ensures PlayersOk(Enlist(base, recruits, spawn, tasks), rooms)
    ensures Enlist(base, recruits, spawn, tasks).Keys == Elems(AppendAll(baseIds, IdsOf(recruits)))
    ensures Distinct(AppendAll(baseIds, IdsOf(recruits)))
  {
    ElemsSpec(baseIds);
    ElemsSpec(AppendAll(baseIds, IdsOf(recruits)));
    EnlistKeepsOk(base, recruits, spawn, tasks, rooms);
    EnlistKeysMatch(base, baseIds, recruits, spawn, tasks);
    AppendAllSpec(baseIds, IdsOf(recruits));
  }

  /**
   * `start_game` keeps the players invariant, and the new key order lists
   * exactly the players of the new roster.
   */
  lemma StartRosterOk(base: map<PlayerId, Player>, baseIds: seq<PlayerId>, recruits: seq<Recruit>,
                      roles: seq<RoleType>, spawn: RoomId, tasks: seq<TaskId>, rooms: map<RoomId, Room>)
    requires PlayersOk(base, rooms) && spawn in rooms
    requires base.Keys == Elems(baseIds)
    ensures PlayersOk(StartRoster(base, recruits, AppendAll(baseIds, IdsOf(recruits)), roles, spawn, tasks), rooms)
    ensures StartRoster(base, recruits, AppendAll(baseIds, IdsOf(recruits)), roles, spawn, tasks).Keys
              == Elems(AppendAll(baseIds, IdsOf(recruits)))
  {
    ElemsSpec(baseIds);
    ElemsSpec(AppendAll(baseIds, IdsOf(recruits)));
    var ids := AppendAll(baseIds, IdsOf(recruits));
    var e := Enlist(base, recruits, spawn, tasks);
    EnlistKeepsOk(base, recruits, spawn, tasks, rooms);
    EnlistKeysMatch(base, baseIds, recruits, spawn, tasks);
    var a := AssignRoles(e, ids, roles);
    AssignRolesSpec(e, ids, roles);
    RecordsKeepOk(e, a, rooms);
    RecordsKeepOk(a, Unacted(a), rooms);
  }
}
