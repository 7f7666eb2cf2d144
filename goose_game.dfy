/**
 * The goose-duck game engine (`GooseDuckGame`) as an object: the player
 * dictionary with its key order, `player_order`, the shared `GameState`
 * record, the event log and the turn cursor are fields changed in place.
 * Each public operation computes the new state with the functions of the
 * other modules (and their loops as methods) and stores it; its contract
 * ties the new fields to that function of the old ones and keeps the
 * game's invariant. Every language-model call goes through a `Brain`.
 */
module GooseGame {
  import opened Common
  import opened Events
  import opened GooseIdentity
  import opened GooseRules
  import opened GooseVotes
  import opened GooseWorld
  import opened GooseState
  import opened GooseMeeting
  import opened GooseChat
  import opened GooseActions
  import opened GooseTurns

  class Game {
    /** The map and game configuration read in `__init__`. */
    const cfg: Config

    /** `self.players`, with `playerIds` its key order. */
    var players: map<PlayerId, Player>
    var playerIds: seq<PlayerId>
    /** `self.player_order`: every id ever enlisted, in enlistment order. */
    var playerOrder: seq<PlayerId>
    var state: GameState
    var events: seq<GameEvent>
    var turnOrder: seq<PlayerId>
    var turnIndex: int

    /** The fields as one value. */
    function Snapshot(): World
      reads this
    {
      World(players, playerIds, playerOrder, state, events, turnOrder, turnIndex)
    }

    /** The configuration is usable and the fields satisfy the game's invariant. */
    predicate Valid()
      reads this
    {
      ConfigOk(cfg) && WorldOk(cfg, Snapshot())
    }

    /** Stores a computed state in the fields. */
    method Load(w: World)
      modifies this
      ensures Snapshot() == w
    {
      players, playerIds, playerOrder, state := w.players, w.playerIds, w.playerOrder, w.state;
      events, turnOrder, turnIndex := w.events, w.turnOrder, w.turnIndex;
    }

    /**
     * `__init__` with the map and roster passed in as data: no players,
     * the default record, an empty log and no turn order.
     */
    constructor(roomList: seq<Room>, spawnRoom: RoomId, meetingRoom: RoomId, humanName: string,
                npcs: seq<(PlayerId, string)>, roleSetup: seq<(RoleType, int)>)
      requires spawnRoom in RoomMap(roomList) && meetingRoom in RoomMap(roomList)
      ensures cfg == MakeConfig(roomList, spawnRoom, meetingRoom, humanName, npcs, roleSetup)
      ensures Valid() && Snapshot() == EmptyWorld()
    {
      cfg := MakeConfig(roomList, spawnRoom, meetingRoom, humanName, npcs, roleSetup);
      players, playerIds, playerOrder, state := map[], [], [], InitialState();
      events, turnOrder, turnIndex := [], [], 0;
      new;
      EmptyWorldOk(cfg);
    }

    /** `reset`: no players, the default record, an empty log and no turn order. */
    method Reset()
      requires Valid()
      modifies this
      ensures Valid() && Snapshot() == EmptyWorld()
    {
      Load(EmptyWorld());
      EmptyWorldOk(cfg);
    }

    /**
     * `start_game`, with the two shuffles given: the turn shuffle a
     * permutation of `player_order` after enlistment, the role shuffle a
     * permutation of the default setup's role list. The human moves first.
     */
    method StartGame(shuffledTurns: seq<PlayerId>, shuffledRoles: seq<RoleType>)
      requires Valid()
      requires multiset(shuffledTurns) == multiset(playerOrder + IdsOf(cfg.recruits))
      requires multiset(shuffledRoles) == multiset(ExpandRoles(cfg.roleSetup))
      modifies this
      ensures Valid()
      ensures Snapshot() == GooseState.StartGame(cfg, old(Snapshot()), shuffledTurns, shuffledRoles)
      ensures turnOrder[0] == HUMAN_ID && turnIndex == 0 && state.phase == FreeRoam
    {
      var w := Snapshot();
      StartGameOk(cfg, w, shuffledTurns, shuffledRoles);
      var r := RunStartGame(cfg, w, shuffledTurns, shuffledRoles);
      Load(r);
    }

    /**
     * `execute_action`: the action of `pid`, then (unless it was refused,
     * raised or opened a chat) the NPC turns.
     */
    method ExecuteAction(pid: PlayerId, a: Action, brain: Brain) returns (out: Outcome)
      requires Valid()
      modifies this
      ensures Valid()
      ensures Snapshot() == GooseTurns.ExecuteAction(cfg, old(Snapshot()), pid, a, brain).w
      ensures out == GooseTurns.ExecuteAction(cfg, old(Snapshot()), pid, a, brain).out
    {
      var w := Snapshot();
      ExecuteActionOk(cfg, w, pid, a, brain);
      if pid !in w.players {
        return Err("Player does not exist");
      }
      if w.state.conversationActive && a.kind != "talk" {
        return Err("Currently in conversation, cannot perform other actions");
      }
      var r := Dispatch(cfg, w, pid, a, brain);
      if r.out.Err? || r.out.Fault? || a.kind == "talk" {
        Load(r.w);
        return r.out;
      }
      DispatchOk(cfg, w, pid, a, brain);
      MarkActedOk(cfg, r.w, pid);
      var s := RunTurns(cfg, MarkActed(r.w, pid), brain);
      Load(s.w);
      out := s.out;
    }

    /**
     * `add_discussion_message`: the message is appended, as written
     * without moving the speaker index, then `advance_discussion`.
     */
    method AddDiscussionMessage(pid: PlayerId, content: string, brain: Brain) returns (out: Outcome)
      requires Valid()
      modifies this
      ensures Valid()
      ensures Snapshot() == GooseMeeting.AddDiscussionMessageAsWritten(old(Snapshot()), pid, content, brain).w
      ensures out == GooseMeeting.AddDiscussionMessageAsWritten(old(Snapshot()), pid, content, brain).out
    {
      var w := Snapshot();
      AddDiscussionMessageOk(cfg, w, pid, content, brain);
      if pid !in w.players {
        return Err("Player does not exist");
      }
      var st := w.state;
      var said := Speech(pid, w.players[pid].name, content);
      var r := RunDiscussion(w.(state := st.(discussionMessages := st.discussionMessages + [said])), brain);
      Load(r);
      out := Ok;
    }

    /** `advance_discussion`: the automatic speakers speak until the human's turn or the vote. */
    method AdvanceDiscussion(brain: Brain)
      requires Valid()
      modifies this
      ensures Valid()
      ensures Snapshot() == GooseMeeting.AdvanceDiscussion(old(Snapshot()), brain)
    {
      var w := Snapshot();
      var r := RunDiscussion(w, brain);
      if w.state.phase == Discussion {
        DiscussOk(cfg, w, brain);
      }
      Load(r);
    }

    /** `start_voting`: the VOTING phase with no ballots, announced once. */
    method StartVoting()
      requires Valid()
      modifies this
      ensures Valid()
      ensures Snapshot() == GooseMeeting.StartVoting(old(Snapshot()))
    {
      var w := Snapshot();
      StateWorldOk(cfg, w, w.state.(phase := Voting, votes := map[]));
      Load(GooseMeeting.StartVoting(w));
    }

    /**
     * `add_chat_message`: the message and the NPC's reply; when the reply
     * closes the chat the turn loop resumes.
     */
    method AddChatMessage(speaker: PlayerId, content: string, brain: Brain) returns (out: Outcome)
      requires Valid()
      modifies this
      ensures Valid()
      ensures Snapshot() == SendChatMessage(cfg, old(Snapshot()), speaker, content, brain).w
      ensures out == SendChatMessage(cfg, old(Snapshot()), speaker, content, brain).out
    {
      var w := Snapshot();
      SendChatMessageOk(cfg, w, speaker, content, brain);
      AddChatMessageOk(cfg, w, speaker, content, brain);
      var (s, ended) := GooseChat.AddChatMessage(cfg, w, speaker, content, brain);
      if ended {
        s := RunTurns(cfg, s.w, brain);
      }
      Load(s.w);
      out := s.out;
    }

    /** `end_chat`: the open chat is closed and the turn loop resumes. */
    method EndChat(brain: Brain) returns (out: Outcome)
      requires Valid()
      modifies this
      ensures Valid()
      ensures Snapshot() == GooseTurns.EndChat(cfg, old(Snapshot()), brain).w
      ensures out == GooseTurns.EndChat(cfg, old(Snapshot()), brain).out
    {
      var w := Snapshot();
      EndChatOk(cfg, w, brain);
      if !w.state.conversationActive {
        return Ok;
      }
      CloseChatOk(cfg, w);
      var s := RunTurns(cfg, CloseChat(cfg, w), brain);
      Load(s.w);
      out := s.out;
    }
  }
}
