/**
 * One-to-one conversations of the goose-duck game: opening a chat,
 * closing it with a summary that both sides remember, an NPC's reply,
 * the bounded NPC-to-NPC exchange and a message from a participant.
 * While a chat is open every other action is refused (see the action
 * resolver); a chat is the only thing that sets that gate.
 */
module GooseChat {
  import opened Common
  import opened Events
  import opened GooseRules
  import opened GooseWorld
  import opened GooseState

  /**
   * `_start_chat`: the gate is set, the two ids are the participants, no
   * messages yet, and the chat takes place where the initiator stands
   * (nowhere when the initiator is unknown).
   */
  function StartChat(w: World, initiator: PlayerId, target: PlayerId): (r: World)
    ensures r == w.(state := r.state)
    ensures r.state == w.state.(conversationActive := true, conversationParticipants := [initiator, target],
                                conversationMessages := [],
                                conversationRoom := if initiator in w.players then Some(w.players[initiator].location)
                                                    else None)
  {
    var room := if initiator in w.players then Some(w.players[initiator].location) else None;
    w.(state := w.state.(conversationActive := true, conversationParticipants := [initiator, target],
                         conversationMessages := [], conversationRoom := room))
  }

  /** The summary `_finalize_chat` would write for the open chat, if any. */
  function SummaryOf(c: Config, w: World): Option<string>
  {
    var st := w.state;
    ChatSummary(st.conversationParticipants, st.conversationMessages, st.conversationRoom, st.roundNumber,
                w.players, c.rooms)
  }

  /**
   * `_finalize_chat` without resuming the turn loop: when there is a
   * summary it is logged at the chat's room and remembered by each
   * participant; then the gate and every chat field are cleared.
   */
  function CloseChat(c: Config, w: World): World
  {
    var st := w.state;
    var summary := SummaryOf(c, w);
    var w1 := if summary.Some? then
                Emit(w, PlayerAction, summary.value, st.conversationRoom)
                  .(players := RecordForEach(w.players, st.conversationParticipants, summary.value))
              else w;
    w1.(state := w1.state.(conversationActive := false, conversationParticipants := [], conversationMessages := [],
                           conversationRoom := None))
  }

  /**
   * Closing a chat: the gate is open again and the chat fields are empty;
   * exactly one event (the summary, at the chat's room) is logged when both
   * participants are known players and none otherwise; only memories of
   * players change, and nothing but the chat fields of the record.
   */
  lemma CloseChatSpec(c: Config, w: World)
    requires MemoriesBounded(w.players)
    ensures var r := CloseChat(c, w);
            !r.state.conversationActive && r.state.conversationParticipants == [] &&
            r.state.conversationMessages == [] && r.state.conversationRoom == None &&
            r.state == w.state.(conversationActive := false, conversationParticipants := [],
                                conversationMessages := [], conversationRoom := None) &&
            OnlyMemories(w.players, r.players) &&
            r == w.(players := r.players, state := r.state, events := r.events) &&
            (SummaryOf(c, w).Some? ==>
               r.events == w.events + [RoundEvent(w.state, PlayerAction, SummaryOf(c, w).value, w.state.conversationRoom)]) &&
            (SummaryOf(c, w).None? ==> r.events == w.events && r.players == w.players)
  {
    var summary := SummaryOf(c, w);
    if summary.Some? {
      RecordsOnlyMemories(w.players, "", summary.value, w.state.conversationParticipants);
    }
  }

  /** `b` differs from `a` at most in the chat fields. */
  predicate ChatOnly(a: GameState, b: GameState)
  {
    b == a.(conversationActive := b.conversationActive, conversationParticipants := b.conversationParticipants,
            conversationMessages := b.conversationMessages, conversationRoom := b.conversationRoom)
  }

  /**
   * `_npc_chat_reply` without resuming the turn loop: unless either side
   * is unknown, the NPC's reply (its text, "..." for an empty unparsed
   * reply) is appended, stamped with the round and the chat's room, and
   * a reply that asks to end closes the chat. The flag says whether it
   * did.
   */
  function NpcChatReply(c: Config, w: World, npc: PlayerId, target: PlayerId, brain: Brain): (World, bool)
  {
    if npc !in w.players || target !in w.players then (w, false)
    else
      var st := w.state;
      var (text, end) := ReplyText(brain.reply(w.players[npc], w.players[target], st.conversationMessages));
      var said := ChatMessage(npc, w.players[npc].name, text, st.roundNumber, st.conversationRoom);
      var w1 := w.(state := st.(conversationMessages := st.conversationMessages + [said]));
      if end then (CloseChat(c, w1), true) else (w1, false)
  }

  /**
   * A reply leaves everything but the chat fields, the log and memories
   * alone; when it does not close the chat it only appends one line by
   * the NPC, and when it closes the chat the gate is open afterwards.
   */
  lemma NpcChatReplySpec(c: Config, w: World, npc: PlayerId, target: PlayerId, brain: Brain)
    requires MemoriesBounded(w.players)
    ensures var (r, ended) := NpcChatReply(c, w, npc, target, brain);
            OnlyMemories(w.players, r.players) &&
            r == w.(players := r.players, state := r.state, events := r.events) && ChatOnly(w.state, r.state) &&
            (ended ==> !r.state.conversationActive && |r.events| <= |w.events| + 1) &&
            (!ended ==> r.players == w.players && r.events == w.events &&
                        r.state.conversationActive == w.state.conversationActive &&
                        (r.state.conversationMessages == w.state.conversationMessages ||
                         (npc in w.players &&
                          exists m :: r.state.conversationMessages == w.state.conversationMessages + [m] &&
                                      m.speakerId == npc)))
  {
    if npc in w.players && target in w.players {
      var st := w.state;
      var (text, end) := ReplyText(brain.reply(w.players[npc], w.players[target], st.conversationMessages));
      var said := ChatMessage(npc, w.players[npc].name, text, st.roundNumber, st.conversationRoom);
      var w1 := w.(state := st.(conversationMessages := st.conversationMessages + [said]));
      if end {
        CloseChatSpec(c, w1);
      }
    }
  }

  /**
   * `_auto_run_npc_chat` from turn `turns`: while the chat is open and
   * fewer than `CHAT_TURN_LIMIT` replies were made, the current speaker
   * replies and the roles swap; a chat still open afterwards is closed.
   */
  function AutoChat(c: Config, w: World, speaker: PlayerId, partner: PlayerId, turns: nat, brain: Brain): World
    decreases CHAT_TURN_LIMIT - turns
  {
    if w.state.conversationActive && turns < CHAT_TURN_LIMIT then
      AutoChat(c, NpcChatReply(c, w, speaker, partner, brain).0, partner, speaker, turns + 1, brain)
    else if w.state.conversationActive then CloseChat(c, w)
    else w
  }

  /**
   * The NPC-to-NPC exchange always ends with the gate open and the chat
   * fields cleared; only memories of players change, and the log grows by
   * at most the one summary.
   */
  lemma {:induction false} AutoChatCloses(c: Config, w: World, speaker: PlayerId, partner: PlayerId, turns: nat,
                                          brain: Brain)
    requires MemoriesBounded(w.players)
    ensures var r := AutoChat(c, w, speaker, partner, turns, brain);
            !r.state.conversationActive && OnlyMemories(w.players, r.players) &&
            r.playerIds == w.playerIds && r.turnOrder == w.turnOrder && r.turnIndex == w.turnIndex &&
            ChatOnly(w.state, r.state) &&
            |w.events| <= |r.events| <= |w.events| + 1
    decreases CHAT_TURN_LIMIT - turns
  {
    if w.state.conversationActive && turns < CHAT_TURN_LIMIT {
      var (w1, ended) := NpcChatReply(c, w, speaker, partner, brain);
      NpcChatReplySpec(c, w, speaker, partner, brain);
      if ended {
        // the chat is closed: the remaining calls change nothing
        AutoChatIdle(c, w1, partner, speaker, turns + 1, brain);
      } else {
        OnlyMemoriesBounded(w.players, w1.players);
        AutoChatCloses(c, w1, partner, speaker, turns + 1, brain);
      }
      OnlyMemoriesTrans(w.players, w1.players, AutoChat(c, w1, partner, speaker, turns + 1, brain).players);
    } else if w.state.conversationActive {
      CloseChatSpec(c, w);
    } else {
      OnlyMemoriesRefl(w.players);
    }
  }

  /** With the gate open, the exchange does nothing. */
  lemma AutoChatIdle(c: Config, w: World, speaker: PlayerId, partner: PlayerId, turns: nat, brain: Brain)
    requires !w.state.conversationActive
    ensures AutoChat(c, w, speaker, partner, turns, brain) == w
  {
  }

  lemma OnlyMemoriesRefl(players: map<PlayerId, Player>)
    requires MemoriesBounded(players)
    ensures OnlyMemories(players, players)
  {
  }

  lemma OnlyMemoriesBounded(a: map<PlayerId, Player>, b: map<PlayerId, Player>)
    requires OnlyMemories(a, b)
    ensures MemoriesBounded(b)
  {
  }

  lemma OnlyMemoriesTrans(a: map<PlayerId, Player>, b: map<PlayerId, Player>, d: map<PlayerId, Player>)
    requires OnlyMemories(a, b) && OnlyMemories(b, d)
    ensures OnlyMemories(a, d)
  {
    forall id | id in d ensures d[id] == a[id].(memories := d[id].memories) {
      assert b[id] == a[id].(memories := b[id].memories);
    }
  }

  /** `_auto_run_npc_chat` with its loop, proved to follow `AutoChat`. */
  method RunAutoChat(c: Config, w: World, initiator: PlayerId, target: PlayerId, brain: Brain) returns (r: World)
    ensures r == AutoChat(c, w, initiator, target, 0, brain)
  {
    r := w;
    var turns: nat := 0;
    var speaker, partner := initiator, target;
    while r.state.conversationActive && turns < CHAT_TURN_LIMIT
      invariant turns <= CHAT_TURN_LIMIT
      invariant AutoChat(c, r, speaker, partner, turns, brain) == AutoChat(c, w, initiator, target, 0, brain)
      decreases CHAT_TURN_LIMIT - turns
    {
      var step := NpcChatReply(c, r, speaker, partner, brain);
      r := step.0;
      speaker, partner := partner, speaker;
      turns := turns + 1;
    }
    if r.state.conversationActive {
      r := CloseChat(c, r);
    }
  }

  /**
   * `add_chat_message` up to the NPC's reply. Refused without an open
   * chat, from a non-participant, or when the stripped text is empty;
   * otherwise the stripped text is appended under the speaker's name (the
   * id for an unknown speaker), and when the partner is a known NPC it
   * replies. The flag says whether that reply closed the chat.
   */
  function AddChatMessage(c: Config, w: World, speaker: PlayerId, content: string, brain: Brain): (Step, bool)
  {
    var st := w.state;
    if !st.conversationActive then (Step(w, Err("No active conversation")), false)
    else if speaker !in st.conversationParticipants then (Step(w, Err("You are not in this conversation")), false)
    else if Strip(content) == [] then (Step(w, Err("Content is empty")), false)
    else
      var name := if speaker in w.players then w.players[speaker].name else speaker;
      var said := ChatMessage(speaker, name, Strip(content), st.roundNumber, st.conversationRoom);
      var w1 := w.(state := st.(conversationMessages := st.conversationMessages + [said]));
      var partner := OtherIn(st.conversationParticipants, speaker);
      if partner.Some? && partner.value in w.players && !w.players[partner.value].isHuman then
        var (w2, ended) := NpcChatReply(c, w1, partner.value, speaker, brain);
        (Step(w2, Ok), ended)
      else (Step(w1, Ok), false)
  }

  /**
   * A chat message is refused, changing nothing, exactly when no chat is
   * open, the speaker is not a participant or the stripped text is empty;
   * an accepted one is appended as the next line, stripped, before any
   * reply.
   */
  lemma AddChatMessageSpec(c: Config, w: World, speaker: PlayerId, content: string, brain: Brain)
    ensures var (r, _) := AddChatMessage(c, w, speaker, content, brain);
            r.out.Err? <==> (!w.state.conversationActive || speaker !in w.state.conversationParticipants ||
                             Strip(content) == [])
    ensures var (r, _) := AddChatMessage(c, w, speaker, content, brain);
            r.out.Err? ==> r.w == w
    ensures var (r, _) := AddChatMessage(c, w, speaker, content, brain);
            !r.out.Err? && r.w.state.conversationActive ==>
              |r.w.state.conversationMessages| > |w.state.conversationMessages| &&
              r.w.state.conversationMessages[|w.state.conversationMessages|].speakerId == speaker &&
              r.w.state.conversationMessages[|w.state.conversationMessages|].content == Strip(content)
  {
    var st := w.state;
    if st.conversationActive && speaker in st.conversationParticipants && Strip(content) != [] {
      var name := if speaker in w.players then w.players[speaker].name else speaker;
      var said := ChatMessage(speaker, name, Strip(content), st.roundNumber, st.conversationRoom);
      var w1 := w.(state := st.(conversationMessages := st.conversationMessages + [said]));
      var partner := OtherIn(st.conversationParticipants, speaker);
      if partner.Some? && partner.value in w.players && !w.players[partner.value].isHuman {
        ReplyKeepsPrefix(c, w1, partner.value, speaker, brain);
      }
    }
  }

  /** A reply that leaves the chat open only appends to its lines. */
  lemma ReplyKeepsPrefix(c: Config, w: World, npc: PlayerId, target: PlayerId, brain: Brain)
    ensures var r := NpcChatReply(c, w, npc, target, brain).0;
            r.state.conversationActive ==> w.state.conversationMessages <= r.state.conversationMessages
  {
  }
}
