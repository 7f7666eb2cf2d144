/**
 * The NPC turn loop of the goose-duck game and the entry points that set
 * it going: `execute_action` after a player's action, the end of a chat
 * and an NPC reply that closes a chat. In free roam the loop lets every
 * pending NPC act in turn order, stops at the human, and starts a new
 * round once nobody is pending; it terminates because each NPC step takes
 * one player off the pending set and no action puts anyone back.
 */
module GooseTurns {
  import opened Common
  import opened Events
  import opened GooseRules
  import opened GooseVotes
  import opened GooseWorld
  import opened GooseState
  import opened GooseMeeting
  import opened GooseChat
  import opened GooseActions

  // ---------------------------------------------------------------------
  // One NPC turn
  // ---------------------------------------------------------------------

  /**
   * `_decide_npc_action`: the language model is offered the NPC's menu of
   * `_get_available_actions`, and its reply is checked against that menu,
   * the connections of the NPC's room (none when the room is unknown) and
   * everyone standing there.
   */
  function Decide(c: Config, w: World, npc: PlayerId, brain: Brain): (d: Decision)
    requires npc in w.players
    ensures d == WAIT || d.action in Kinds(AvailableActions(w.players, w.playerIds, c.rooms, w.state.phase, npc))
  {
    var p := w.players[npc];
    var available := AvailableActions(w.players, w.playerIds, c.rooms, w.state.phase, npc);
    var connections := if p.location in c.rooms then c.rooms[p.location].connections else [];
    ParseDecision(brain.decide(p, available), available, connections, PeopleHere(w.players, w.playerIds, p.location))
  }

  /** A dead NPC is offered nothing, so whatever the model answers it waits. */
  lemma DeadNpcWaits(c: Config, w: World, npc: PlayerId, brain: Brain)
    requires npc in w.players && !w.players[npc].IsAlive()
    ensures Decide(c, w, npc, brain) == WAIT
  {
    var available := AvailableActions(w.players, w.playerIds, c.rooms, w.state.phase, npc);
    assert Kinds(available) == {};
  }

  /** The player has acted this round. */
  function Acted(w: World, pid: PlayerId): (r: World)
    requires pid in w.players
    ensures r.players.Keys == w.players.Keys && r.players[pid].hasActed
    ensures forall id :: id in w.players ==> r.players[id] == w.players[id].(hasActed := r.players[id].hasActed)
    ensures r == w.(players := r.players)
  {
    w.(players := w.players[pid := w.players[pid].(hasActed := true)])
  }

  /**
   * `_apply_npc_decision`: the NPC has acted whatever it chose; a move,
   * kill, report, vote or talk is carried out only when it names a
   * target, an emergency call always, and anything else is a wait. The
   * answer of the action is passed on but only an exception stops the
   * loop.
   */
  function ApplyNpcDecision(c: Config, w: World, npc: PlayerId, d: Decision, brain: Brain): Step
    requires npc in w.players
  {
    var w1 := Acted(w, npc);
    var t := d.target;
    if d.action == "move" && Present(t) then DoMove(c, w1, npc, t)
    else if d.action == "kill" && Present(t) then DoKill(c, w1, npc, t, brain)
    else if d.action == "report" && Present(t) then DoReport(c, w1, npc, t, brain)
    else if d.action == "emergency" then DoEmergency(c, w1, npc, brain)
    else if d.action == "vote" && Present(t) then DoVote(w1, npc, t)
    else if d.action == "talk" && Present(t) then DoTalk(c, w1, npc, t, true, brain)
    else Step(Waits(w1, npc), Ok)
  }

  /** The NPC notes that it waited. */
  function Waits(w: World, pid: PlayerId): (r: World)
    requires pid in w.players
    ensures r.players.Keys == w.players.Keys
  {
    w.(players := w.players[pid := w.players[pid].(lastAction := "Waiting")])
  }

  /** Waiting keeps the invariant and changes no fate or acted flag. */
  lemma WaitsOk(c: Config, w: World, pid: PlayerId)
    requires WorldOk(c, w) && pid in w.players
    ensures WorldOk(c, Waits(w, pid)) && Settled(w.players, Waits(w, pid).players)
  {
    var p := w.players[pid];
    var q := p.(lastAction := "Waiting");
    assert TasksConsistent(q) by {
      assert forall t :: Progress(q, t) == Progress(p, t);
    }
    SetPlayerOk(c, w, pid, q);
    ReplaceSettled(w.players, pid, q);
  }

  /**
   * `player.has_acted = True` on the record `execute_action` looked up:
   * the flag is set when the player is still on the roster.
   */
  function MarkActed(w: World, pid: PlayerId): World
  {
    if pid in w.players then Acted(w, pid) else w
  }

  lemma MarkActedOk(c: Config, w: World, pid: PlayerId)
    requires WorldOk(c, w)
    ensures WorldOk(c, MarkActed(w, pid))
  {
    if pid in w.players {
      ActedOk(c, w, pid);
    }
  }

  /** Marking a player as having acted keeps the invariant. */
  lemma ActedOk(c: Config, w: World, pid: PlayerId)
    requires WorldOk(c, w) && pid in w.players
    ensures WorldOk(c, Acted(w, pid)) && Settled(w.players, Acted(w, pid).players)
  {
    RecordsWorldOk(c, w, Acted(w, pid).players);
  }

  /**
   * An NPC's turn keeps the invariant, and while free roam goes on with
   * no chat open nobody it leaves behind is revived or un-acted, the NPC
   * included.
   */
  lemma ApplyNpcDecisionOk(c: Config, w: World, npc: PlayerId, d: Decision, brain: Brain)
    requires ConfigOk(c) && WorldOk(c, w) && npc in w.players
    ensures WorldOk(c, ApplyNpcDecision(c, w, npc, d, brain).w)
    ensures Calm(Acted(w, npc), ApplyNpcDecision(c, w, npc, d, brain).w)
  {
    var w1 := Acted(w, npc);
    ActedOk(c, w, npc);
    var r := ApplyNpcDecision(c, w, npc, d, brain);
    var t := d.target;
    if d.action == "move" && Present(t) {
      assert r == DoMove(c, w1, npc, t);
      DoMoveOk(c, w1, npc, t);
    } else if d.action == "kill" && Present(t) {
      assert r == DoKill(c, w1, npc, t, brain);
      DoKillOk(c, w1, npc, t, brain);
    } else if d.action == "report" && Present(t) {
      assert r == DoReport(c, w1, npc, t, brain);
      DoReportOk(c, w1, npc, t, brain);
    } else if d.action == "emergency" {
      assert r == DoEmergency(c, w1, npc, brain);
      DoEmergencyOk(c, w1, npc, brain);
    } else if d.action == "vote" && Present(t) {
      assert r == DoVote(w1, npc, t);
      DoVoteOk(c, w1, npc, t);
    } else if d.action == "talk" && Present(t) {
      assert r == DoTalk(c, w1, npc, t, true, brain);
      DoTalkOk(c, w1, npc, t, true, brain);
    } else {
      assert r == Step(Waits(w1, npc), Ok);
      WaitsOk(c, w1, npc);
    }
  }

  // ---------------------------------------------------------------------
  // The turn loop
  // ---------------------------------------------------------------------

  /** `_start_new_round`: the next round begins at the head of the turn order, with nobody having acted. */
  function StartNewRound(w: World): (r: World)
  {
    w.(players := Unacted(w.players), state := w.state.(roundNumber := w.state.roundNumber + 1), turnIndex := 0)
  }

  /** A new round keeps the invariant and makes every living player pending. */
  lemma StartNewRoundOk(c: Config, w: World)
    requires WorldOk(c, w)
    ensures WorldOk(c, StartNewRound(w))
    ensures forall id :: id in w.players && w.players[id].IsAlive() ==> Pending(StartNewRound(w).players, id)
  {
    RecordsWorldOk(c, w, Unacted(w.players));
  }

  /** Someone in the turn order is alive and has not acted. */
  predicate AnyPending(turnOrder: seq<PlayerId>, players: map<PlayerId, Player>)
  {
    exists i :: 0 <= i < |turnOrder| && Pending(players, turnOrder[i])
  }

  /** What the loop can still do: the number of pending players while free roam goes on with no chat open. */
  function Measure(w: World): nat
  {
    if w.state.phase == FreeRoam && !w.state.conversationActive then |PendingSet(w.players)| else 0
  }

  /**
   * `_process_turns`: outside free roam or during a chat it does nothing.
   * When nobody in the turn order is pending a new round starts and the
   * loop stops. Otherwise the cursor walks on to the next pending player;
   * at the human the loop waits, and an NPC decides and acts, after which
   * the loop goes on unless that raised.
   */
  function ProcessTurns(c: Config, w: World, brain: Brain): Step
    requires ConfigOk(c) && WorldOk(c, w)
    decreases Measure(w)
  {
    if w.state.phase != FreeRoam || w.state.conversationActive then Step(w, Ok)
    else if !AnyPending(w.turnOrder, w.players) then Step(StartNewRound(w), Ok)
    else
      var n := |w.turnOrder|;
      match NextTurn(w.turnOrder, w.players, w.turnIndex, 1)
      case None => Step(w, Ok)
      case Some(k) =>
        NextTurnSpec(w.turnOrder, w.players, w.turnIndex, 1);
        var w1 := w.(turnIndex := Walk(w.turnIndex, k, n));
        var next := w.turnOrder[w1.turnIndex];
        if w.players[next].isHuman then Step(w1, Ok)
        else
          var s := ApplyNpcDecision(c, w1, next, Decide(c, w1, next, brain), brain);
          if s.out.Fault? then s
          else
            TurnShrinks(c, w, k, Decide(c, w1, next, brain), brain);
            ProcessTurns(c, s.w, brain)
  }

  /** One NPC turn keeps the invariant and strictly lowers the loop's measure. */
  lemma TurnShrinks(c: Config, w: World, k: nat, d: Decision, brain: Brain)
    requires ConfigOk(c) && WorldOk(c, w) && w.state.phase == FreeRoam && !w.state.conversationActive
    requires |w.turnOrder| > 0 && NextTurn(w.turnOrder, w.players, w.turnIndex, 1) == Some(k)
    ensures var w1 := w.(turnIndex := Walk(w.turnIndex, k, |w.turnOrder|));
            var next := w.turnOrder[w1.turnIndex];
            next in w.players &&
            WorldOk(c, ApplyNpcDecision(c, w1, next, d, brain).w) &&
            Measure(ApplyNpcDecision(c, w1, next, d, brain).w) < Measure(w)
  {
    var n := |w.turnOrder|;
    NextTurnSpec(w.turnOrder, w.players, w.turnIndex, 1);
    var w1 := w.(turnIndex := Walk(w.turnIndex, k, n));
    var next := w.turnOrder[w1.turnIndex];
    assert WorldOk(c, w1);
    ApplyNpcDecisionOk(c, w1, next, d, brain);
    MeasureDrops(w1, next, ApplyNpcDecision(c, w1, next, d, brain).w);
  }

  /** A pending player's turn, after which nobody is revived or un-acted, lowers the measure. */
  lemma MeasureDrops(w: World, next: PlayerId, r: World)
    requires w.state.phase == FreeRoam && !w.state.conversationActive && Pending(w.players, next)
    requires Calm(Acted(w, next), r)
    ensures Measure(r) < Measure(w)
  {
    var a := Acted(w, next).players;
    assert next in PendingSet(w.players);
    if r.state.phase == FreeRoam && !r.state.conversationActive {
      SettledShrinksPending(a, r.players);
      assert PendingSet(a) <= PendingSet(w.players) - {next};
      SubsetCard(PendingSet(r.players), PendingSet(w.players) - {next});
    }
  }

  /**
   * Where the loop leaves the game when nothing raised: out of free roam,
   * in a chat, at a new round's start with nobody having acted, or with
   * the cursor on the living human who has not acted yet.
   */
  predicate Resting(w: World)
  {
    w.state.phase != FreeRoam || w.state.conversationActive ||
    (w.turnIndex == 0 && forall id :: id in w.players ==> !w.players[id].hasActed) ||
    (0 <= w.turnIndex < |w.turnOrder| && Pending(w.players, w.turnOrder[w.turnIndex]) &&
     w.players[w.turnOrder[w.turnIndex]].isHuman)
  }

  /**
   * The loop keeps the invariant, and unless an action raised it comes to
   * rest: never at a dead player, never with a pending NPC under the
   * cursor.
   */
  lemma {:induction false} ProcessTurnsRests(c: Config, w: World, brain: Brain)
    requires ConfigOk(c) && WorldOk(c, w)
    ensures WorldOk(c, ProcessTurns(c, w, brain).w)
    ensures ProcessTurns(c, w, brain).out == Ok || ProcessTurns(c, w, brain).out == Fault
    ensures ProcessTurns(c, w, brain).out == Ok ==> Resting(ProcessTurns(c, w, brain).w)
    decreases Measure(w)
  {
    if w.state.phase != FreeRoam || w.state.conversationActive {
    } else if !AnyPending(w.turnOrder, w.players) {
      StartNewRoundOk(c, w);
    } else {
      var n := |w.turnOrder|;
      NextTurnFinds(w.turnOrder, w.players, w.turnIndex);
      NextTurnSpec(w.turnOrder, w.players, w.turnIndex, 1);
      var k := NextTurn(w.turnOrder, w.players, w.turnIndex, 1).value;
      var w1 := w.(turnIndex := Walk(w.turnIndex, k, n));
      var next := w.turnOrder[w1.turnIndex];
      if !w.players[next].isHuman {
        var d := Decide(c, w1, next, brain);
        var s := ApplyNpcDecision(c, w1, next, d, brain);
        TurnShrinks(c, w, k, d, brain);
        if !s.out.Fault? {
          ProcessTurnsRests(c, s.w, brain);
        }
      }
    }
  }

  /** Outside free roam, or while a chat is open, the loop changes nothing. */
  lemma ProcessTurnsIdle(c: Config, w: World, brain: Brain)
    requires ConfigOk(c) && WorldOk(c, w)
    requires w.state.phase != FreeRoam || w.state.conversationActive
    ensures ProcessTurns(c, w, brain) == Step(w, Ok)
  {
  }

  /**
   * With nobody in the turn order pending, the loop starts the next
   * round: the round number rises by one, the cursor is back at 0, every
   * acted flag is cleared and nothing else changes.
   */
  lemma ProcessTurnsNewRound(c: Config, w: World, brain: Brain)
    requires ConfigOk(c) && WorldOk(c, w)
    requires w.state.phase == FreeRoam && !w.state.conversationActive
    requires forall i :: 0 <= i < |w.turnOrder| ==> !Pending(w.players, w.turnOrder[i])
    ensures var r := ProcessTurns(c, w, brain);
            r.out == Ok && r.w.state.roundNumber == w.state.roundNumber + 1 && r.w.turnIndex == 0 &&
            r.w.players.Keys == w.players.Keys &&
            (forall id :: id in w.players ==> r.w.players[id] == w.players[id].(hasActed := false)) &&
            r.w == w.(players := r.w.players, state := r.w.state, turnIndex := 0) &&
            r.w.state == w.state.(roundNumber := w.state.roundNumber + 1)
  {
  }

  /**
   * When the next pending player after the cursor is the human, the loop
   * only moves the cursor there.
   */
  lemma ProcessTurnsWaitsForHuman(c: Config, w: World, brain: Brain, i: nat)
    requires ConfigOk(c) && WorldOk(c, w)
    requires w.state.phase == FreeRoam && !w.state.conversationActive
    requires 0 <= w.turnIndex < |w.turnOrder| && i < |w.turnOrder|
    requires Pending(w.players, w.turnOrder[i]) && w.players[w.turnOrder[i]].isHuman
    requires forall j :: 0 <= j < |w.turnOrder| && j != i && Pending(w.players, w.turnOrder[j]) ==>
               w.turnOrder[j] == w.turnOrder[i]
    ensures ProcessTurns(c, w, brain).out == Ok
    ensures var r := ProcessTurns(c, w, brain);
            r.w == w.(turnIndex := r.w.turnIndex) && 0 <= r.w.turnIndex < |w.turnOrder| &&
            w.turnOrder[r.w.turnIndex] == w.turnOrder[i]
  {
    var n := |w.turnOrder|;
    NextTurnFinds(w.turnOrder, w.players, w.turnIndex);
    NextTurnSpec(w.turnOrder, w.players, w.turnIndex, 1);
  }

  /**
   * `_process_turns` with its loop: the cursor search of `FindNextTurn`,
   * the human stop and the NPC turns, proved to follow `ProcessTurns`.
   */
  method RunTurns(c: Config, w: World, brain: Brain) returns (r: Step)
    requires ConfigOk(c) && WorldOk(c, w)
    ensures r == ProcessTurns(c, w, brain)
  {
    var cur := w;
    while true
      invariant WorldOk(c, cur)
      invariant ProcessTurns(c, cur, brain) == ProcessTurns(c, w, brain)
      decreases Measure(cur)
    {
      if cur.state.phase != FreeRoam || cur.state.conversationActive {
        return Step(cur, Ok);
      }
      var pending := exists i :: 0 <= i < |cur.turnOrder| && Pending(cur.players, cur.turnOrder[i]);
      if !pending {
        return Step(StartNewRound(cur), Ok);
      }
      var found, index, steps := FindNextTurn(cur.turnOrder, cur.players, cur.turnIndex);
      if !found {
        return Step(cur, Ok);
      }
      var w1 := cur.(turnIndex := index);
      var next := cur.turnOrder[index];
      if cur.players[next].isHuman {
        return Step(w1, Ok);
      }
      var d := Decide(c, w1, next, brain);
      var s := ApplyNpcDecision(c, w1, next, d, brain);
      if s.out.Fault? {
        return s;
      }
      TurnShrinks(c, cur, steps, d, brain);
      cur := s.w;
    }
  }

  // ---------------------------------------------------------------------
  // Entry points
  // ---------------------------------------------------------------------

  /**
   * The dispatch of `execute_action` on the action type; talk is always a
   * request from the human side, so its chat stays open.
   */
  function Dispatch(c: Config, w: World, pid: PlayerId, a: Action, brain: Brain): Step
    requires pid in w.players
  {
    match a.kind
    case "move" => DoMove(c, w, pid, a.target)
    case "kill" => DoKill(c, w, pid, a.target, brain)
    case "report" => DoReport(c, w, pid, a.target, brain)
    case "emergency" => DoEmergency(c, w, pid, brain)
    case "vote" => DoVote(w, pid, a.target)
    case "task" => DoTask(c, w, pid, a.target)
    case "talk" => DoTalk(c, w, pid, a.target, false, brain)
    case _ => Step(w, Err("Unknown action"))
  }

  /**
   * `execute_action`: refused for an unknown player, and for every action
   * but talk while a chat is open. A refused or raising action is passed
   * back as it is, and so is a talk, which pauses the loop; after any
   * other action the player has acted and the turn loop runs.
   */
  function ExecuteAction(c: Config, w: World, pid: PlayerId, a: Action, brain: Brain): Step
    requires ConfigOk(c) && WorldOk(c, w)
  {
    if pid !in w.players then Step(w, Err("Player does not exist"))
    else if w.state.conversationActive && a.kind != "talk" then
      Step(w, Err("Currently in conversation, cannot perform other actions"))
    else
      var r := Dispatch(c, w, pid, a, brain);
      if r.out.Err? || r.out.Fault? || a.kind == "talk" then r
      else
        DispatchOk(c, w, pid, a, brain);
        MarkActedOk(c, r.w, pid);
        ProcessTurns(c, MarkActed(r.w, pid), brain)
  }

  /** Every action keeps the invariant. */
  lemma DispatchOk(c: Config, w: World, pid: PlayerId, a: Action, brain: Brain)
    requires ConfigOk(c) && WorldOk(c, w) && pid in w.players
    ensures WorldOk(c, Dispatch(c, w, pid, a, brain).w)
  {
    var r := Dispatch(c, w, pid, a, brain);
    match a.kind
    case "move" =>
      assert r == DoMove(c, w, pid, a.target);
      DoMoveOk(c, w, pid, a.target);
    case "kill" =>
      assert r == DoKill(c, w, pid, a.target, brain);
      DoKillOk(c, w, pid, a.target, brain);
    case "report" =>
      assert r == DoReport(c, w, pid, a.target, brain);
      DoReportOk(c, w, pid, a.target, brain);
    case "emergency" =>
      assert r == DoEmergency(c, w, pid, brain);
      DoEmergencyOk(c, w, pid, brain);
    case "vote" =>
      assert r == DoVote(w, pid, a.target);
      DoVoteOk(c, w, pid, a.target);
    case "task" =>
      assert r == DoTask(c, w, pid, a.target);
      DoTaskOk(c, w, pid, a.target);
    case "talk" =>
      assert r == DoTalk(c, w, pid, a.target, false, brain);
      DoTalkOk(c, w, pid, a.target, false, brain);
    case _ =>
  }

  /**
   * While a chat is open every action but talk is refused and changes
   * nothing, and so is any action of an unknown player.
   */
  lemma ExecuteActionGate(c: Config, w: World, pid: PlayerId, a: Action, brain: Brain)
    requires ConfigOk(c) && WorldOk(c, w)
    requires pid !in w.players || (w.state.conversationActive && a.kind != "talk")
    ensures ExecuteAction(c, w, pid, a, brain).out.Err?
    ensures ExecuteAction(c, w, pid, a, brain).w == w
  {
  }

  /**
   * An accepted action other than talk leaves the game with the
   * invariant kept and, unless something raised, the loop at rest.
   */
  lemma ExecuteActionOk(c: Config, w: World, pid: PlayerId, a: Action, brain: Brain)
    requires ConfigOk(c) && WorldOk(c, w)
    ensures WorldOk(c, ExecuteAction(c, w, pid, a, brain).w)
    ensures var r := ExecuteAction(c, w, pid, a, brain);
            pid in w.players && !r.out.Err? && !r.out.Fault? && a.kind != "talk" ==> Resting(r.w)
  {
    if pid in w.players && !(w.state.conversationActive && a.kind != "talk") {
      DispatchOk(c, w, pid, a, brain);
      var r := Dispatch(c, w, pid, a, brain);
      if !(r.out.Err? || r.out.Fault? || a.kind == "talk") {
        MarkActedOk(c, r.w, pid);
        ProcessTurnsRests(c, MarkActed(r.w, pid), brain);
      }
    }
  }

  /**
   * `end_chat`: with no chat open nothing happens; otherwise the chat is
   * closed and the turn loop resumes. The reason given is not used.
   */
  function EndChat(c: Config, w: World, brain: Brain): Step
    requires ConfigOk(c) && WorldOk(c, w)
  {
    if !w.state.conversationActive then Step(w, Ok)
    else
      CloseChatOk(c, w);
      ProcessTurns(c, CloseChat(c, w), brain)
  }

  /** Ending a chat keeps the invariant, leaves the gate open unless the loop opened a new chat, and the loop at rest. */
  lemma EndChatOk(c: Config, w: World, brain: Brain)
    requires ConfigOk(c) && WorldOk(c, w)
    ensures WorldOk(c, EndChat(c, w, brain).w)
    ensures w.state.conversationActive && EndChat(c, w, brain).out == Ok ==> Resting(EndChat(c, w, brain).w)
    ensures !w.state.conversationActive ==> EndChat(c, w, brain) == Step(w, Ok)
  {
    if w.state.conversationActive {
      CloseChatOk(c, w);
      ProcessTurnsRests(c, CloseChat(c, w), brain);
    }
  }

  /** Closing a chat keeps the invariant. */
  lemma CloseChatOk(c: Config, w: World)
    requires WorldOk(c, w)
    ensures WorldOk(c, CloseChat(c, w))
  {
    CloseChatSpec(c, w);
    var r := CloseChat(c, w);
    MemoriesWorldOk(c, w, r.players);
    StateWorldOk(c, w.(players := r.players), r.state);
    assert r == w.(players := r.players, state := r.state, events := r.events);
  }

  /**
   * `add_chat_message` with the turn loop resumed: when the NPC's reply
   * closes the chat, the loop runs as `_finalize_chat` is asked to.
   */
  function SendChatMessage(c: Config, w: World, speaker: PlayerId, content: string, brain: Brain): Step
    requires ConfigOk(c) && WorldOk(c, w)
  {
    var (s, ended) := AddChatMessage(c, w, speaker, content, brain);
    if ended then
      AddChatMessageOk(c, w, speaker, content, brain);
      ProcessTurns(c, s.w, brain)
    else s
  }

  /** A chat message keeps the invariant, and a reply that closed the chat is only reported for an accepted message. */
  lemma AddChatMessageOk(c: Config, w: World, speaker: PlayerId, content: string, brain: Brain)
    requires WorldOk(c, w)
    ensures WorldOk(c, AddChatMessage(c, w, speaker, content, brain).0.w)
    ensures AddChatMessage(c, w, speaker, content, brain).1 ==> AddChatMessage(c, w, speaker, content, brain).0.out == Ok
  {
    var st := w.state;
    if st.conversationActive && speaker in st.conversationParticipants && Strip(content) != [] {
      var name := if speaker in w.players then w.players[speaker].name else speaker;
      var said := ChatMessage(speaker, name, Strip(content), st.roundNumber, st.conversationRoom);
      var w1 := w.(state := st.(conversationMessages := st.conversationMessages + [said]));
      StateWorldOk(c, w, w1.state);
      var partner := OtherIn(st.conversationParticipants, speaker);
      if partner.Some? && partner.value in w.players && !w.players[partner.value].isHuman {
        NpcChatReplySpec(c, w1, partner.value, speaker, brain);
        var r := NpcChatReply(c, w1, partner.value, speaker, brain).0;
        MemoriesWorldOk(c, w1, r.players);
        StateWorldOk(c, w1.(players := r.players), r.state);
        assert r == w1.(players := r.players, state := r.state, events := r.events);
      }
    }
  }

  /**
   * A message that makes the NPC close the chat leaves the gate open, or
   * the loop at rest; a refused one changes nothing.
   */
  lemma SendChatMessageOk(c: Config, w: World, speaker: PlayerId, content: string, brain: Brain)
    requires ConfigOk(c) && WorldOk(c, w)
    ensures WorldOk(c, SendChatMessage(c, w, speaker, content, brain).w)
    ensures SendChatMessage(c, w, speaker, content, brain).out.Err? ==> SendChatMessage(c, w, speaker, content, brain).w == w
    ensures AddChatMessage(c, w, speaker, content, brain).1 && SendChatMessage(c, w, speaker, content, brain).out == Ok ==>
              Resting(SendChatMessage(c, w, speaker, content, brain).w)
  {
    AddChatMessageOk(c, w, speaker, content, brain);
    AddChatMessageSpec(c, w, speaker, content, brain);
    var (s, ended) := AddChatMessage(c, w, speaker, content, brain);
    if ended {
      ProcessTurnsRests(c, s.w, brain);
    }
  }
}
