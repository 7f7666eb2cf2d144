/**
 * Meetings of the goose-duck game: the victory check, the start of a
 * discussion with its speaker rotation, the vote and its resolution.
 */
module GooseMeeting {
  import opened Common
  import opened Events
  import opened GooseIdentity
  import opened GooseRules
  import opened GooseVotes
  import opened GooseWorld
  import opened GooseState

  const VOTING_TEXT := "Discussion ended, voting begins!"

  // ---------------------------------------------------------------------
  // Victory
  // ---------------------------------------------------------------------

  /**
   * `_check_win_condition`, counting only living players with an identity
   * on the good or evil team: evil wins once it is non-empty and at least
   * as large as good; otherwise good wins once evil is gone; otherwise
   * nothing changes. Only the phase and the winner fields are written.
   */
  function CheckWin(w: World): (r: World)
    ensures r == w.(state := r.state)
    ensures var good := TeamAlive(w.players, Good); var evil := TeamAlive(w.players, Evil);
            (evil > 0 && evil >= good ==>
               r.state == w.state.(winner := Some(Evil), winnerReason := WinReason(Evil), phase := GameOver)) &&
            (evil == 0 ==>
               r.state == w.state.(winner := Some(Good), winnerReason := WinReason(Good), phase := GameOver)) &&
            (0 < evil < good ==> r == w)
  {
    var v := WinnerOf(w.players);
    if v.Some? then w.(state := w.state.(winner := v, winnerReason := WinReason(v.value), phase := GameOver))
    else w
  }

  lemma CheckWinOk(c: Config, w: World)
    requires WorldOk(c, w)
    ensures WorldOk(c, CheckWin(w))
  {
  }

  // ---------------------------------------------------------------------
  // Discussion
  // ---------------------------------------------------------------------

  /** `start_voting`: the VOTING phase with no ballots, announced by one event. */
  function StartVoting(w: World): (r: World)
    ensures r.players == w.players && r.playerIds == w.playerIds && r.turnOrder == w.turnOrder
    ensures r.turnIndex == w.turnIndex && r.playerOrder == w.playerOrder
    ensures r.state == w.state.(phase := Voting, votes := map[])
    ensures r.events == w.events + [RoundEvent(w.state, System, VOTING_TEXT, None)]
  {
    Emit(w.(state := w.state.(phase := Voting, votes := map[])), System, VOTING_TEXT, None)
  }

  /** `s[i..e]` with both ends clamped to the length. */
  function Between<T>(s: seq<T>, i: int, e: int): seq<T>
    requires 0 <= i <= e
  {
    if i >= |s| then [] else if e >= |s| then s[i..] else s[i..e]
  }

  /** The speaker at `idx` of the order is a living human: the rotation waits there. */
  predicate HumanTurn(players: map<PlayerId, Player>, order: seq<PlayerId>, idx: int)
  {
    0 <= idx < |order| && AliveIn(players, order[idx]) && players[order[idx]].isHuman
  }

  /** What the language model says for `speaker`, or "(silence)" when the call fails. */
  function SpeechOf(brain: Brain, speaker: Player, messages: seq<Speech>): string
  {
    brain.speak(speaker, messages).UnwrapOr("(silence)")
  }

  /**
   * The `while True` loop of `advance_discussion` on the two things it
   * changes, the speaker index and the message list: a missing or dead
   * speaker is skipped, a living human stops the loop, every other
   * speaker says one thing and the index moves on. The result is where
   * the index stopped and the messages then.
   */
  function Rotate(players: map<PlayerId, Player>, order: seq<PlayerId>, i: nat, m: seq<Speech>,
                  brain: Brain): (nat, seq<Speech>)
    decreases |order| - i
  {
    if i >= |order| then (i, m)
    else
      var id := order[i];
      if !AliveIn(players, id) then Rotate(players, order, i + 1, m, brain)
      else if players[id].isHuman then (i, m)
      else Rotate(players, order, i + 1, m + [Speech(id, players[id].name, SpeechOf(brain, players[id], m))], brain)
  }

  /**
   * The rotation never moves back, and it stops either past the end of
   * the order or at a living human's turn.
   */
  lemma {:induction false} RotateStops(players: map<PlayerId, Player>, order: seq<PlayerId>, i: nat,
                                       m: seq<Speech>, brain: Brain)
    ensures var e := Rotate(players, order, i, m, brain).0;
            i <= e && (e >= |order| || HumanTurn(players, order, e))
    decreases |order| - i
  {
    if i < |order| {
      var id := order[i];
      if !AliveIn(players, id) {
        RotateStops(players, order, i + 1, m, brain);
      } else if !players[id].isHuman {
        RotateStops(players, order, i + 1, m + [Speech(id, players[id].name, SpeechOf(brain, players[id], m))], brain);
      }
    }
  }

  /** The rotation adds exactly one message per automatic speaker it passes, in order. */
  lemma {:induction false} RotateSpeakers(players: map<PlayerId, Player>, order: seq<PlayerId>, i: nat,
                                          m: seq<Speech>, brain: Brain)
    ensures SpeakersPassed(players, order, i, m, Rotate(players, order, i, m, brain))
    decreases |order| - i
  {
    if i < |order| {
      var id := order[i];
      if !AliveIn(players, id) {
        assert Rotate(players, order, i, m, brain) == Rotate(players, order, i + 1, m, brain);
        RotateSpeakers(players, order, i + 1, m, brain);
        NpcStep(players, order, i, Rotate(players, order, i + 1, m, brain).0);
      } else if !players[id].isHuman {
        var said := Speech(id, players[id].name, SpeechOf(brain, players[id], m));
        assert Rotate(players, order, i, m, brain) == Rotate(players, order, i + 1, m + [said], brain);
        RotateSpeakers(players, order, i + 1, m + [said], brain);
        SpeakStep(players, order, i, m, said, Rotate(players, order, i + 1, m + [said], brain));
      }
    }
  }

  /** Between indices `i` and `r.0`, the messages grew by the automatic speakers of the order. */
  predicate SpeakersPassed(players: map<PlayerId, Player>, order: seq<PlayerId>, i: nat, m: seq<Speech>,
                           r: (nat, seq<Speech>))
  {
    i <= r.0 && SpeakerIds(r.1) == SpeakerIds(m) + NpcSpeakers(players, Between(order, i, r.0))
  }

  lemma SpeakStep(players: map<PlayerId, Player>, order: seq<PlayerId>, i: nat, m: seq<Speech>, said: Speech,
                  r: (nat, seq<Speech>))
    requires i < |order| && AutoSpeaker(players, order[i]) && said.speakerId == order[i]
    requires SpeakersPassed(players, order, i + 1, m + [said], r)
    ensures SpeakersPassed(players, order, i, m, r)
  {
    NpcStep(players, order, i, r.0);
    SpeakerIdsAppend(m, said);
    Regroup(SpeakerIds(r.1), SpeakerIds(m), order[i], NpcSpeakers(players, Between(order, i + 1, r.0)));
  }

  lemma Regroup<T>(all: seq<T>, a: seq<T>, x: T, b: seq<T>)
    requires all == (a + [x]) + b
    ensures all == a + ([x] + b)
  {
  }

  /** Passing one entry of the order adds it to the automatic speakers exactly when it is one. */
  lemma NpcStep(players: map<PlayerId, Player>, order: seq<PlayerId>, i: nat, e: int)
    requires i < |order| && i + 1 <= e
    ensures NpcSpeakers(players, Between(order, i, e)) ==
            (if AutoSpeaker(players, order[i]) then [order[i]] else []) + NpcSpeakers(players, Between(order, i + 1, e))
  {
    BetweenStep(order, i, e);
    assert ([order[i]] + Between(order, i + 1, e))[1..] == Between(order, i + 1, e);
  }

  /**
   * The discussion loop on the whole game: the index and messages as the
   * rotation leaves them, and voting started when it ran off the end.
   */
  function Discuss(w: World, brain: Brain): World
    requires 0 <= w.state.currentSpeakerIndex
  {
    var st := w.state;
    var (e, m) := Rotate(w.players, st.speakerOrder, st.currentSpeakerIndex, st.discussionMessages, brain);
    var w1 := w.(state := st.(currentSpeakerIndex := e, discussionMessages := m));
    if e >= |st.speakerOrder| then StartVoting(w1) else w1
  }

  /**
   * What a discussion turn does to the game: only the discussion fields of
   * the record and the log change; the index never moves back; one message
   * is added per automatic speaker passed; the loop ends either at a living
   * human's turn, with the phase, ballots and log untouched, or past the
   * end of the order in the VOTING phase with no ballots and the voting
   * event logged.
   */
  lemma DiscussSpec(w: World, brain: Brain)
    requires 0 <= w.state.currentSpeakerIndex
    ensures var r := Discuss(w, brain);
            r == w.(state := r.state, events := r.events) &&
            r.state == w.state.(phase := r.state.phase, votes := r.state.votes,
                                currentSpeakerIndex := r.state.currentSpeakerIndex,
                                discussionMessages := r.state.discussionMessages) &&
            w.state.currentSpeakerIndex <= r.state.currentSpeakerIndex
    ensures var r := Discuss(w, brain);
            SpeakerIds(r.state.discussionMessages) ==
              SpeakerIds(w.state.discussionMessages) +
              NpcSpeakers(w.players, Between(w.state.speakerOrder, w.state.currentSpeakerIndex,
                                             r.state.currentSpeakerIndex))
    ensures var r := Discuss(w, brain);
            r.state.currentSpeakerIndex >= |w.state.speakerOrder| ==>
              r.state.phase == Voting && r.state.votes == map[] &&
              r.events == w.events + [RoundEvent(w.state.(currentSpeakerIndex := r.state.currentSpeakerIndex,
                                         discussionMessages := r.state.discussionMessages), System, VOTING_TEXT, None)]
    ensures var r := Discuss(w, brain);
            r.state.currentSpeakerIndex < |w.state.speakerOrder| ==>
              r.state.phase == w.state.phase && r.state.votes == w.state.votes && r.events == w.events &&
              HumanTurn(w.players, w.state.speakerOrder, r.state.currentSpeakerIndex)
  {
    var st := w.state;
    RotateStops(w.players, st.speakerOrder, st.currentSpeakerIndex, st.discussionMessages, brain);
    RotateSpeakers(w.players, st.speakerOrder, st.currentSpeakerIndex, st.discussionMessages, brain);
    assert SpeakersPassed(w.players, st.speakerOrder, st.currentSpeakerIndex, st.discussionMessages,
                          Rotate(w.players, st.speakerOrder, st.currentSpeakerIndex, st.discussionMessages, brain));
  }

  lemma BetweenStep(s: seq<PlayerId>, i: nat, e: int)
    requires i < |s| && i + 1 <= e
    ensures Between(s, i, e) == [s[i]] + Between(s, i + 1, e)
  {
  }

  lemma SpeakerIdsAppend(m: seq<Speech>, x: Speech)
    ensures SpeakerIds(m + [x]) == SpeakerIds(m) + [x.speakerId]
  {
    assert (m + [x])[..|m|] == m;
  }

  /** `advance_discussion`: outside the DISCUSSION phase nothing happens. */
  function AdvanceDiscussion(w: World, brain: Brain): (r: World)
    requires 0 <= w.state.currentSpeakerIndex
    ensures w.state.phase != Discussion ==> r == w
    ensures w.state.phase == Discussion ==> r == Discuss(w, brain)
  {
    if w.state.phase != Discussion then w else Discuss(w, brain)
  }

  /** The rotation keeps the invariant: players and cursor are untouched. */
  lemma DiscussOk(c: Config, w: World, brain: Brain)
    requires WorldOk(c, w)
    ensures WorldOk(c, Discuss(w, brain))
  {
    DiscussSpec(w, brain);
  }

  /** `advance_discussion` with its loop, proved to follow `Discuss`. */
  method RunDiscussion(w: World, brain: Brain) returns (r: World)
    requires 0 <= w.state.currentSpeakerIndex
    ensures r == AdvanceDiscussion(w, brain)
  {
    if w.state.phase != Discussion {
      return w;
    }
    var order := w.state.speakerOrder;
    var i: nat := w.state.currentSpeakerIndex;
    var m := w.state.discussionMessages;
    while i < |order|
      invariant Rotate(w.players, order, i, m, brain) ==
                Rotate(w.players, order, w.state.currentSpeakerIndex, w.state.discussionMessages, brain)
      decreases |order| - i
    {
      var id := order[i];
      if id in w.players && w.players[id].IsAlive() {
        if w.players[id].isHuman {
          break;
        }
        var content := SpeechOf(brain, w.players[id], m);
        m := m + [Speech(id, w.players[id].name, content)];
      }
      i := i + 1;
    }
    r := w.(state := w.state.(currentSpeakerIndex := i, discussionMessages := m));
    if i >= |order| {
      r := StartVoting(r);
    }
  }

  /** Past the end of the order the rotation does nothing; at a living human's turn it waits. */
  lemma DiscussWaitsForHuman(w: World, brain: Brain)
    requires 0 <= w.state.currentSpeakerIndex
    requires HumanTurn(w.players, w.state.speakerOrder, w.state.currentSpeakerIndex)
    ensures Discuss(w, brain) == w
  {
  }

  // ---------------------------------------------------------------------
  // Starting a meeting
  // ---------------------------------------------------------------------

  /**
   * The record reset of `_start_discussion`: the DISCUSSION phase with the
   * reporter, no messages, no ballots, the first speaker current and the
   * living turn order rotated to the reporter as the speaking order.
   */
  function OpenMeeting(w: World, reporter: PlayerId): (r: World)
    ensures r == w.(state := r.state)
    ensures r.state == w.state.(phase := Discussion, reporter := Some(reporter), discussionMessages := [],
                                votes := map[], currentSpeakerIndex := 0,
                                speakerOrder := SpeakerOrder(w.turnOrder, w.players, reporter))
  {
    w.(state := w.state.(phase := Discussion, reporter := Some(reporter), discussionMessages := [], votes := map[],
                         currentSpeakerIndex := 0, speakerOrder := SpeakerOrder(w.turnOrder, w.players, reporter)))
  }

  /** The end of `_start_discussion`: the living gather in the meeting room and the rotation runs. */
  function Convene(c: Config, w: World, brain: Brain): World
    requires 0 <= w.state.currentSpeakerIndex
  {
    AdvanceDiscussion(w.(players := Teleport(w.players, c.meetingRoom)), brain)
  }

  /**
   * `_start_discussion`. An emergency is announced and remembered by
   * everyone; a report first records where the body lies (nowhere when
   * there is no such player) and then announces the find. A missing
   * reporter, or a report of a missing body, raises after the record was
   * reset.
   */
  function StartDiscussion(c: Config, w: World, reporter: PlayerId, emergency: bool, body: Option<PlayerId>,
                           brain: Brain): Step
  {
    var w1 := OpenMeeting(w, reporter);
    if emergency then
      if reporter !in w.players then Step(w1, Fault)
      else
        var name := w.players[reporter].name;
        var w2 := Emit(w1, Critical, "🚨 " + name + " called an emergency meeting!", None);
        Step(Convene(c, w2.(players := RecordForAll(w2.players, name + " called an emergency meeting")), brain), Ok)
    else
      var found := body.Some? && body.value in w.players;
      var w2 := w1.(state := w1.state.(bodyLocation := if found then Some(w.players[body.value].location) else None));
      if reporter !in w.players || !found then Step(w2, Fault)
      else
        var name := w.players[reporter].name;
        var dead := w.players[body.value].name;
        var w3 := Emit(w2, Critical, "☠️ " + name + " found " + dead + "'s body!", None);
        Step(Convene(c, w3.(players := RecordForAll(w3.players, name + " reported " + dead + "'s body")), brain), Ok)
  }

  /** The meeting is under way: voting has begun, or a living human holds the floor. */
  predicate MeetingUnderway(w: World)
  {
    w.state.phase == Voting ||
    (w.state.phase == Discussion && HumanTurn(w.players, w.state.speakerOrder, w.state.currentSpeakerIndex))
  }

  /** Nobody died or revived, and every living player now stands in `room`. */
  predicate Gathered(before: map<PlayerId, Player>, after: map<PlayerId, Player>, room: RoomId)
  {
    after.Keys == before.Keys &&
    forall id :: id in before ==>
      after[id].IsAlive() == before[id].IsAlive() && (before[id].IsAlive() ==> after[id].location == room)
  }

  /**
   * A meeting that starts normally ends this call either in DISCUSSION at
   * a living human's turn or in VOTING; the reporter is recorded; the
   * speaking order is the living turn order rotated to the reporter;
   * nobody dies or revives and the living gather in the meeting room.
   */
  lemma StartDiscussionSpec(c: Config, w: World, reporter: PlayerId, emergency: bool, body: Option<PlayerId>,
                            brain: Brain)
    requires reporter in w.players
    requires !emergency ==> body.Some? && body.value in w.players
    ensures var r := StartDiscussion(c, w, reporter, emergency, body, brain);
            r.out == Ok && MeetingUnderway(r.w) &&
            r.w.state.reporter == Some(reporter) &&
            r.w.state.speakerOrder == SpeakerOrder(w.turnOrder, w.players, reporter) &&
            Gathered(w.players, r.w.players, c.meetingRoom)
  {
    var w1 := OpenMeeting(w, reporter);
    var name := w.players[reporter].name;
    var pre: World;
    if emergency {
      var w2 := Emit(w1, Critical, "🚨 " + name + " called an emergency meeting!", None);
      pre := w2.(players := RecordForAll(w2.players, name + " called an emergency meeting"));
    } else {
      var dead := w.players[body.value].name;
      var w2 := w1.(state := w1.state.(bodyLocation := Some(w.players[body.value].location)));
      var w3 := Emit(w2, Critical, "☠️ " + name + " found " + dead + "'s body!", None);
      pre := w3.(players := RecordForAll(w3.players, name + " reported " + dead + "'s body"));
    }
    assert Convene(c, pre, brain) == StartDiscussion(c, w, reporter, emergency, body, brain).w;
    assert pre.state.reporter == Some(reporter);
    assert pre.state.speakerOrder == SpeakerOrder(w.turnOrder, w.players, reporter);
    ConveneSpec(c, w.players, pre, brain);
  }

  /** The teleport and the rotation: what `Convene` leaves behind. */
  lemma ConveneSpec(c: Config, base: map<PlayerId, Player>, w: World, brain: Brain)
    requires w.state.phase == Discussion && w.state.currentSpeakerIndex == 0
    requires w.players.Keys == base.Keys
    requires forall id :: id in base ==> w.players[id].IsAlive() == base[id].IsAlive()
    ensures var r := Convene(c, w, brain);
            r.state.reporter == w.state.reporter && r.state.speakerOrder == w.state.speakerOrder &&
            MeetingUnderway(r) && Gathered(base, r.players, c.meetingRoom)
  {
    var t := w.(players := Teleport(w.players, c.meetingRoom));
    DiscussSpec(t, brain);
  }

  /** Gathering the living in a known room keeps every player's part of the invariant. */
  lemma TeleportOk(c: Config, w: World)
    requires WorldOk(c, w) && c.meetingRoom in c.rooms
    ensures WorldOk(c, w.(players := Teleport(w.players, c.meetingRoom)))
  {
    var t := Teleport(w.players, c.meetingRoom);
    forall id | id in t ensures PlayerOk(t[id], c.rooms) {
      assert TasksConsistent(w.players[id]);
      assert forall k :: Progress(t[id], k) == Progress(w.players[id], k);
    }
  }

  /** The announcement everyone remembers, then the convened meeting, keeps the invariant. */
  lemma AnnouncedOk(c: Config, w: World, text: string, brain: Brain)
    requires ConfigOk(c) && WorldOk(c, w)
    ensures WorldOk(c, Convene(c, w.(players := RecordForAll(w.players, text)), brain))
  {
    var pre := w.(players := RecordForAll(w.players, text));
    RecordsOnlyMemories(w.players, c.meetingRoom, text, []);
    MemoriesWorldOk(c, w, pre.players);
    ConveneOk(c, pre, brain);
  }

  /** Starting a meeting keeps the invariant, whatever the outcome. */
  lemma StartDiscussionOk(c: Config, w: World, reporter: PlayerId, emergency: bool, body: Option<PlayerId>,
                          brain: Brain)
    requires ConfigOk(c) && WorldOk(c, w)
    ensures WorldOk(c, StartDiscussion(c, w, reporter, emergency, body, brain).w)
  {
    var w1 := OpenMeeting(w, reporter);
    StateWorldOk(c, w, w1.state);
    if emergency {
      if reporter in w.players {
        var name := w.players[reporter].name;
        var w2 := Emit(w1, Critical, "🚨 " + name + " called an emergency meeting!", None);
        AnnouncedOk(c, w2, name + " called an emergency meeting", brain);
      }
    } else {
      var found := body.Some? && body.value in w.players;
      var w2 := w1.(state := w1.state.(bodyLocation := if found then Some(w.players[body.value].location) else None));
      StateWorldOk(c, w, w2.state);
      if reporter in w.players && found {
        var name := w.players[reporter].name;
        var dead := w.players[body.value].name;
        var w3 := Emit(w2, Critical, "☠️ " + name + " found " + dead + "'s body!", None);
        AnnouncedOk(c, w3, name + " reported " + dead + "'s body", brain);
      }
    }
  }


  /** The teleport and the rotation keep the invariant. */
  lemma ConveneOk(c: Config, w: World, brain: Brain)
    requires WorldOk(c, w) && c.meetingRoom in c.rooms
    ensures WorldOk(c, Convene(c, w, brain))
  {
    TeleportOk(c, w);
    DiscussOk(c, w.(players := Teleport(w.players, c.meetingRoom)), brain);
  }

  // ---------------------------------------------------------------------
  // Discussion messages
  // ---------------------------------------------------------------------

  /**
   * `add_discussion_message` as written: an unknown player is refused;
   * otherwise the message is appended (in any phase) and the rotation
   * resumes, without moving the speaker index.
   */
  function AddDiscussionMessageAsWritten(w: World, pid: PlayerId, content: string, brain: Brain): Step
    requires 0 <= w.state.currentSpeakerIndex
  {
    if pid !in w.players then Step(w, Err("Player does not exist"))
    else
      var said := Speech(pid, w.players[pid].name, content);
      Step(AdvanceDiscussion(w.(state := w.state.(discussionMessages := w.state.discussionMessages + [said])), brain), Ok)
  }

  /**
   * As written, a human who holds the floor keeps it: after their message
   * the index has not moved, the phase is still DISCUSSION and the same
   * human is current again, so the rotation reaches neither a later
   * speaker nor the vote (only an explicit end of the discussion does).
   */
  lemma HumanSpeakerStuck(w: World, pid: PlayerId, content: string, brain: Brain)
    requires 0 <= w.state.currentSpeakerIndex && w.state.phase == Discussion
    requires HumanTurn(w.players, w.state.speakerOrder, w.state.currentSpeakerIndex)
    requires pid == w.state.speakerOrder[w.state.currentSpeakerIndex]
    ensures var r := AddDiscussionMessageAsWritten(w, pid, content, brain).w;
            r.state.phase == Discussion && r.state.currentSpeakerIndex == w.state.currentSpeakerIndex &&
            HumanTurn(r.players, r.state.speakerOrder, r.state.currentSpeakerIndex)
  {
    var said := Speech(pid, w.players[pid].name, content);
    DiscussWaitsForHuman(w.(state := w.state.(discussionMessages := w.state.discussionMessages + [said])), brain);
  }

  /**
   * A concrete case: after the message of a lone living human in the
   * speaking order, the rotation has not reached the vote.
   */
  lemma HumanSpeakerStuckExample(brain: Brain)
    ensures var p := Player(HUMAN_ID, "You", true, None, "hall", "", [], false, map[], [], [], 1);
            var w := World(map[HUMAN_ID := p], [HUMAN_ID], [HUMAN_ID],
                           InitialState().(phase := Discussion, speakerOrder := [HUMAN_ID]), [], [HUMAN_ID], 0);
            AddDiscussionMessageAsWritten(w, HUMAN_ID, "hi", brain).w.state.phase == Discussion
  {
    var p := Player(HUMAN_ID, "You", true, None, "hall", "", [], false, map[], [], [], 1);
    var w := World(map[HUMAN_ID := p], [HUMAN_ID], [HUMAN_ID],
                   InitialState().(phase := Discussion, speakerOrder := [HUMAN_ID]), [], [HUMAN_ID], 0);
    HumanSpeakerStuck(w, HUMAN_ID, "hi", brain);
  }

  /**
   * `add_discussion_message` as evidently intended: as written, except
   * that a message from the player who holds the floor passes the floor
   * on before the rotation resumes.
   */
  function AddDiscussionMessage(w: World, pid: PlayerId, content: string, brain: Brain): Step
    requires 0 <= w.state.currentSpeakerIndex
  {
    if pid !in w.players then Step(w, Err("Player does not exist"))
    else
      var st := w.state;
      var i := st.currentSpeakerIndex;
      var next := if i < |st.speakerOrder| && st.speakerOrder[i] == pid then i + 1 else i;
      var said := Speech(pid, w.players[pid].name, content);
      Step(AdvanceDiscussion(w.(state := st.(discussionMessages := st.discussionMessages + [said],
                                             currentSpeakerIndex := next)), brain), Ok)
  }

  /**
   * With the correction the floor moves on: the human's message is kept,
   * every automatic speaker after them speaks in order, and the index
   * strictly grows, so after at most one message per speaker voting starts.
   */
  lemma HumanSpeakerPasses(w: World, pid: PlayerId, content: string, brain: Brain)
    requires 0 <= w.state.currentSpeakerIndex && w.state.phase == Discussion
    requires HumanTurn(w.players, w.state.speakerOrder, w.state.currentSpeakerIndex)
    requires pid == w.state.speakerOrder[w.state.currentSpeakerIndex]
    ensures var r := AddDiscussionMessage(w, pid, content, brain);
            r.out == Ok && MeetingUnderway(r.w) &&
            r.w.state.currentSpeakerIndex > w.state.currentSpeakerIndex &&
            SpeakerIds(r.w.state.discussionMessages) ==
              SpeakerIds(w.state.discussionMessages) + [pid] +
              NpcSpeakers(w.players, Between(w.state.speakerOrder, w.state.currentSpeakerIndex + 1,
                                             r.w.state.currentSpeakerIndex))
  {
    var st := w.state;
    var said := Speech(pid, w.players[pid].name, content);
    var w1 := w.(state := st.(discussionMessages := st.discussionMessages + [said],
                              currentSpeakerIndex := st.currentSpeakerIndex + 1));
    DiscussSpec(w1, brain);
    SpeakerIdsAppend(st.discussionMessages, said);
  }

  /** A discussion message, as written, keeps the invariant. */
  lemma AddDiscussionMessageOk(c: Config, w: World, pid: PlayerId, content: string, brain: Brain)
    requires WorldOk(c, w)
    ensures WorldOk(c, AddDiscussionMessageAsWritten(w, pid, content, brain).w)
  {
    if pid in w.players {
      var st := w.state;
      var said := Speech(pid, w.players[pid].name, content);
      var w0 := w.(state := st.(discussionMessages := st.discussionMessages + [said]));
      assert AddDiscussionMessageAsWritten(w, pid, content, brain).w == AdvanceDiscussion(w0, brain);
      StateWorldOk(c, w, w0.state);
      DiscussOk(c, w0, brain);
    }
  }

  /** A discussion message with the floor passed on keeps the invariant too. */
  lemma AddDiscussionMessagePassedOk(c: Config, w: World, pid: PlayerId, content: string, brain: Brain)
    requires WorldOk(c, w)
    ensures WorldOk(c, AddDiscussionMessage(w, pid, content, brain).w)
  {
    if pid in w.players {
      var st := w.state;
      var i := st.currentSpeakerIndex;
      var next := if i < |st.speakerOrder| && st.speakerOrder[i] == pid then i + 1 else i;
      var said := Speech(pid, w.players[pid].name, content);
      var w1 := w.(state := st.(discussionMessages := st.discussionMessages + [said], currentSpeakerIndex := next));
      assert AddDiscussionMessage(w, pid, content, brain).w == AdvanceDiscussion(w1, brain);
      StateWorldOk(c, w, w1.state);
      DiscussOk(c, w1, brain);
    }
  }


  // ---------------------------------------------------------------------
  // Voting
  // ---------------------------------------------------------------------

  /**
   * The end of `_resolve_votes` when no dodo was ejected: the victory
   * check, and unless the game is over a return to free roam in the next
   * round with nobody having acted. Only the phase, round and winner
   * fields of the record and the acted flags change.
   */
  function AfterVote(w: World): (r: World)
    ensures r.events == w.events && r.playerIds == w.playerIds && r.turnOrder == w.turnOrder
    ensures r.turnIndex == w.turnIndex && r.playerOrder == w.playerOrder
    ensures r.state == w.state.(phase := r.state.phase, roundNumber := r.state.roundNumber,
                                winner := r.state.winner, winnerReason := r.state.winnerReason)
    ensures r.state.phase == GameOver || r.state.phase == FreeRoam
    ensures r.players == w.players || r.players == Unacted(w.players)
  {
    var v := CheckWin(w);
    if v.state.phase == GameOver then v
    else v.(state := v.state.(phase := FreeRoam, roundNumber := v.state.roundNumber + 1), players := Unacted(v.players))
  }

  /** `_resolve_votes` on the counted result; see `ResolveVotes`. */
  function ResolveAs(w: World, o: VoteOutcome): (r: Step)
    ensures r.w.state.votes == w.state.votes
  {
    match o
    case NoEjection => Step(AfterVote(Emit(w, System, "Voting result: No one was ejected", None)), Ok)
    case Tie => Step(AfterVote(Emit(w, System, "Voting result: Tie, no one was ejected", None)), Ok)
    case Ejected(t) =>
      if t !in w.players || w.players[t].identity.None? then Step(w, Fault)
      else
        var p := w.players[t];
        var ident := p.identity.value;
        var w1 := w.(players := w.players[t := p.(identity := Some(ident.(isAlive := false)))]);
        var w2 := Emit(w1, Critical, "🗳️ " + p.name + " was ejected! Their identity is: " + ident.role.name, None);
        if ident.role.roleType == Dodo then
          Step(w2.(state := w2.state.(winner := Some(Neutral),
                                      winnerReason := "Dodo " + p.name + " was successfully ejected and wins!",
                                      phase := GameOver)), Ok)
        else Step(AfterVote(w2), Ok)
  }

  /**
   * `_resolve_votes`: nobody is ejected when no ballot names anyone or at
   * a tie; a unique leader dies and their role is revealed. A dodo's
   * ejection ends the game with the neutral side winning, before and
   * instead of the victory check. Ejecting an unknown player or one
   * without an identity raises.
   */
  function ResolveVotes(w: World): Step
  {
    ResolveAs(w, VoteResult(w.state.votes))
  }

  /**
   * `_do_vote`. Outside VOTING the vote is refused. Otherwise the ballot
   * is stored under the voter, replacing any earlier one, with "skip"
   * stored as no ballot; the vote or skip is announced, set as the voter's
   * last action and remembered by everyone; once there are at least as
   * many ballots as living players the votes are resolved. A missing
   * voter, or a vote for a missing player, raises after the ballot was
   * stored.
   */
  function DoVote(w: World, voter: PlayerId, target: Option<string>): Step
  {
    if w.state.phase != Voting then Step(w, Err("Not currently in voting phase"))
    else if voter !in w.players || (Present(target) && target.value != "skip" && target.value !in w.players) then
      Step(w.(state := w.state.(votes := w.state.votes[voter := if target == Some("skip") then None else target])), Fault)
    else Tally(VoteCast(w, voter, target))
  }

  /**
   * What `_do_vote` does before the closing test, for a known voter and a
   * skip or a known target: the ballot stored, the announcement, the last
   * action and everyone's memory.
   */
  function VoteCast(w: World, voter: PlayerId, target: Option<string>): (r: World)
    requires voter in w.players
    requires !Present(target) || target.value == "skip" || target.value in w.players
    ensures r.state == w.state.(votes := w.state.votes[voter := if target == Some("skip") then None else target])
    ensures r.players.Keys == w.players.Keys
    ensures forall id :: id in w.players ==> r.players[id].identity == w.players[id].identity
  {
    var ballot := if target == Some("skip") then None else target;
    var w1 := w.(state := w.state.(votes := w.state.votes[voter := ballot]));
    var v := w.players[voter];
    var name := if Present(target) && target.value != "skip" then w.players[target.value].name else "";
    var text := if Present(target) && target.value != "skip" then v.name + " voted for " + name
                else v.name + " chose to skip vote";
    var last := if Present(target) && target.value != "skip" then "Voted for " + name else "Skipped vote";
    var marked := w.players[voter := v.(lastAction := last)];
    assert marked.Keys == w.players.Keys;
    assert forall id :: id in marked ==> marked[id].identity == w.players[id].identity;
    Emit(w1, System, text, None).(players := RecordForAll(marked, text))
  }

  /** The closing test of `_do_vote`: resolve once every living player could have voted. */
  function Tally(w: World): (r: Step)
    ensures r.w.state.votes == w.state.votes
    ensures |w.state.votes| < AliveCount(w.players) ==> r == Step(w, Ok)
  {
    if |w.state.votes| >= AliveCount(w.players) then ResolveVotes(w) else Step(w, Ok)
  }

  /** Outside VOTING a vote is refused and nothing changes. */
  lemma DoVoteRefused(w: World, voter: PlayerId, target: Option<string>)
    requires w.state.phase != Voting
    ensures DoVote(w, voter, target) == Step(w, Err("Not currently in voting phase"))
  {
  }

  /**
   * In VOTING, whatever happens next, the ballot map is the old one with
   * the voter's entry replaced: a second vote overwrites the first, and a
   * skip is stored as no ballot.
   */
  lemma DoVoteStores(w: World, voter: PlayerId, target: Option<string>)
    requires w.state.phase == Voting
    ensures DoVote(w, voter, target).w.state.votes ==
              w.state.votes[voter := if target == Some("skip") then None else target]
    ensures target == Some("skip") ==> DoVote(w, voter, target).w.state.votes[voter].None?
  {
    if voter in w.players && (!Present(target) || target.value == "skip" || target.value in w.players) {
      assert DoVote(w, voter, target) == Tally(VoteCast(w, voter, target));
    }
  }

  /**
   * While fewer ballots than living players are in, the vote is only
   * recorded: the phase stays VOTING and the outcome is success.
   */
  lemma DoVoteWaits(w: World, voter: PlayerId, target: Option<string>)
    requires w.state.phase == Voting && voter in w.players
    requires !Present(target) || target.value == "skip" || target.value in w.players
    requires |w.state.votes[voter := if target == Some("skip") then None else target]| < AliveCount(w.players)
    ensures DoVote(w, voter, target) == Step(VoteCast(w, voter, target), Ok)
    ensures DoVote(w, voter, target).w.state.phase == Voting
  {
    var w3 := VoteCast(w, voter, target);
    assert DoVote(w, voter, target) == Tally(w3);
    LivingUnchanged(w.players, w3.players);
  }

  /** Changes that keep everyone's identity keep the number of living players. */
  lemma LivingUnchanged(a: map<PlayerId, Player>, b: map<PlayerId, Player>)
    requires a.Keys == b.Keys && forall id :: id in a ==> b[id].identity == a[id].identity
    ensures AliveCount(a) == AliveCount(b)
  {
    assert (set id | id in a && a[id].IsAlive()) == (set id | id in b && b[id].IsAlive());
  }

  /**
   * Without an ejection nobody dies: the result is announced, and then
   * either the game is over or free roam of the next round begins with
   * nobody having acted.
   */
  lemma NoEjectionKillsNobody(w: World, o: VoteOutcome)
    requires o == NoEjection || o == Tie
    ensures var r := ResolveAs(w, o);
            r.out == Ok && r.w.players.Keys == w.players.Keys &&
            (forall id :: id in w.players ==> r.w.players[id].identity == w.players[id].identity) &&
            |r.w.events| == |w.events| + 1 &&
            (r.w.state.phase == GameOver ||
             (r.w.state.phase == FreeRoam && r.w.state.roundNumber == w.state.roundNumber + 1 &&
              r.w.players == Unacted(w.players)))
  {
  }

  /**
   * A unique leader who is a known player with an identity is ejected:
   * they are dead afterwards, whatever else happens.
   */
  lemma LeaderEjected(w: World, t: PlayerId)
    requires t in w.players && w.players[t].identity.Some?
    ensures var r := ResolveAs(w, Ejected(t));
            r.out == Ok && t in r.w.players && !r.w.players[t].IsAlive()
  {
  }

  /**
   * Ejecting a dodo ends the game at once with the neutral side winning,
   * whatever the team counts: the victory check is skipped and the round
   * does not advance.
   */
  lemma DodoEjectionWins(w: World, t: PlayerId)
    requires t in w.players && w.players[t].identity.Some?
    requires w.players[t].identity.value.role.roleType == Dodo
    ensures var r := ResolveAs(w, Ejected(t));
            r.w.state.phase == GameOver && r.w.state.winner == Some(Neutral) &&
            r.w.state.roundNumber == w.state.roundNumber
  {
  }

  /**
   * After any other ejection the victory check decides: unless the game
   * is over, free roam of the next round begins with nobody having acted.
   */
  lemma OtherEjectionContinues(w: World, t: PlayerId)
    requires t in w.players && w.players[t].identity.Some?
    requires w.players[t].identity.value.role.roleType != Dodo
    ensures var r := ResolveAs(w, Ejected(t));
            r.w.state.phase == GameOver ||
            (r.w.state.phase == FreeRoam && r.w.state.roundNumber == w.state.roundNumber + 1 &&
             forall id :: id in r.w.players ==> !r.w.players[id].hasActed)
  {
  }

  /** Resolution keeps the invariant. */
  lemma ResolveOk(c: Config, w: World, o: VoteOutcome)
    requires WorldOk(c, w)
    ensures WorldOk(c, ResolveAs(w, o).w)
  {
    match o
    case NoEjection =>
      AfterVoteOk(c, Emit(w, System, "Voting result: No one was ejected", None));
    case Tie =>
      AfterVoteOk(c, Emit(w, System, "Voting result: Tie, no one was ejected", None));
    case Ejected(t) =>
      EjectOk(c, w, t);
  }

  lemma EjectOk(c: Config, w: World, t: PlayerId)
    requires WorldOk(c, w)
    ensures WorldOk(c, ResolveAs(w, Ejected(t)).w)
  {
    if t in w.players && w.players[t].identity.Some? {
      var p := w.players[t];
      var ident := p.identity.value;
      var players := w.players[t := p.(identity := Some(ident.(isAlive := false)))];
      assert KeepsRecords(w.players, players);
      RecordsWorldOk(c, w, players);
      var w2 := Emit(w.(players := players), Critical, "🗳️ " + p.name + " was ejected! Their identity is: " + ident.role.name, None);
      if ident.role.roleType == Dodo {
        StateWorldOk(c, w2, w2.state.(winner := Some(Neutral),
                                      winnerReason := "Dodo " + p.name + " was successfully ejected and wins!",
                                      phase := GameOver));
      } else {
        AfterVoteOk(c, w2);
      }
    }
  }

  lemma AfterVoteOk(c: Config, w: World)
    requires WorldOk(c, w)
    ensures WorldOk(c, AfterVote(w))
  {
    var v := CheckWin(w);
    CheckWinOk(c, w);
    if v.state.phase != GameOver {
      assert KeepsRecords(v.players, Unacted(v.players));
      RecordsWorldOk(c, v, Unacted(v.players));
    }
  }

  /** The closing test keeps the invariant. */
  lemma TallyOk(c: Config, w: World)
    requires WorldOk(c, w)
    ensures WorldOk(c, Tally(w).w)
  {
    ResolveOk(c, w, VoteResult(w.state.votes));
  }

  /** Voting keeps the invariant. */
  lemma DoVoteOk(c: Config, w: World, voter: PlayerId, target: Option<string>)
    requires WorldOk(c, w)
    ensures WorldOk(c, DoVote(w, voter, target).w)
  {
    if w.state.phase == Voting {
      var st := w.state.(votes := w.state.votes[voter := if target == Some("skip") then None else target]);
      StateWorldOk(c, w, st);
      if voter in w.players && (!Present(target) || target.value == "skip" || target.value in w.players) {
        VoteCastOk(c, w, voter, target);
        TallyOk(c, VoteCast(w, voter, target));
      }
    }
  }

  lemma VoteCastOk(c: Config, w: World, voter: PlayerId, target: Option<string>)
    requires WorldOk(c, w) && voter in w.players
    requires !Present(target) || target.value == "skip" || target.value in w.players
    ensures WorldOk(c, VoteCast(w, voter, target))
  {
    var r := VoteCast(w, voter, target);
    var v := w.players[voter];
    var name := if Present(target) && target.value != "skip" then w.players[target.value].name else "";
    var text := if Present(target) && target.value != "skip" then v.name + " voted for " + name
                else v.name + " chose to skip vote";
    var last := if Present(target) && target.value != "skip" then "Voted for " + name else "Skipped vote";
    var marked := w.players[voter := v.(lastAction := last)];
    SetPlayerOk(c, w, voter, v.(lastAction := last));
    var wm := w.(players := marked);
    RecordsOnlyMemories(marked, c.meetingRoom, text, []);
    MemoriesWorldOk(c, wm, RecordForAll(marked, text));
    StateWorldOk(c, wm.(players := RecordForAll(marked, text)), r.state);
    assert r == wm.(players := RecordForAll(marked, text), state := r.state, events := r.events);
  }
}
