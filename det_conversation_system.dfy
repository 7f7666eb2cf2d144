/**
 * `ConversationSystem`: the registry of conversations by id (in creation
 * order) and of which conversation each participant is currently in;
 * starting, continuing and ending conversations, and a participant's
 * history, newest first.
 */
module DetConversationSystem {
  import opened Common
  import opened DetGameState
  import opened DetConversation

  /**
   * The registry: the conversations by id, their ids in the order the
   * dictionary keeps them, and the active conversation id of each
   * participant.
   */
  datatype Registry = Registry(conversations: map<string, Conversation>, order: seq<string>, active: map<string, string>)

  /** An empty registry, as `ConversationSystem()` starts. */
  const EMPTY := Registry(map[], [], map[])

  /** The dictionary's keys are exactly the ids of `order`, each once. */
  ghost predicate Valid(reg: Registry)
  {
    Distinct(reg.order) && forall id :: id in reg.conversations <==> id in reg.order
  }

  /** The conversation `participant` is in, when it is stored and still running. */
  function RunningOf(reg: Registry, participant: string): Option<Conversation>
  {
    if participant in reg.active && reg.active[participant] in reg.conversations &&
       !reg.conversations[reg.active[participant]].ended
    then Some(reg.conversations[reg.active[participant]])
    else None
  }

  /**
   * `start_conversation`: the running conversation of `p1`, if any,
   * unchanged; otherwise a new one with id `id` (a random UUID prefix in
   * Python), stored, and made active for both participants.
   */
  function Start(reg: Registry, id: string, p1: string, p2: string, location: string, time: GameTime): (Registry, Conversation)
  {
    match RunningOf(reg, p1)
    case Some(existing) => (reg, existing)
    case None =>
      var conv := Create(id, p1, p2, location, time.day, time.period.Value());
      (Registry(reg.conversations[id := conv], AppendNew(reg.order, id), reg.active[p1 := id][p2 := id]), conv)
  }

  /**
   * When `p1` is already in a running conversation, `start_conversation`
   * returns it and creates nothing; otherwise the new conversation, between
   * `p1` and `p2` and not ended, is stored under its id, both participants
   * map to it, no other participant's mapping changes, and the registry
   * stays well formed.
   */
  lemma StartSpec(reg: Registry, id: string, p1: string, p2: string, location: string, time: GameTime, other: string)
    ensures var (reg1, conv) := Start(reg, id, p1, p2, location, time);
      (RunningOf(reg, p1).Some? ==> reg1 == reg && conv == RunningOf(reg, p1).value) &&
      (RunningOf(reg, p1).None? ==>
         conv.id == id && conv.participants == [p1, p2] && conv.messages == [] && !conv.ended &&
         conv.startedDay == time.day && conv.startedTime == time.period.Value() &&
         id in reg1.conversations && reg1.conversations[id] == conv &&
         p1 in reg1.active && reg1.active[p1] == id && p2 in reg1.active && reg1.active[p2] == id &&
         (other != p1 && other != p2 ==>
            (other in reg1.active <==> other in reg.active) &&
            (other in reg.active ==> reg1.active[other] == reg.active[other])) &&
         (forall k :: k in reg.conversations && k != id ==> k in reg1.conversations && reg1.conversations[k] == reg.conversations[k]))
    ensures Valid(reg) ==> Valid(Start(reg, id, p1, p2, location, time).0)
  {
    AppendNewSpec(reg.order, id);
  }

  /** After a start, both participants are in the conversation it returned. */
  lemma StartThenRunning(reg: Registry, id: string, p1: string, p2: string, location: string, time: GameTime)
    ensures var (reg1, conv) := Start(reg, id, p1, p2, location, time);
      RunningOf(reg1, p1) == Some(conv) &&
      (RunningOf(reg, p1).None? ==> RunningOf(reg1, p2) == Some(conv))
  {
  }

  /**
   * `get_active_conversation`: the participant's conversation when the
   * stored id is non-empty (Python tests it for truth), stored, and not
   * ended.
   */
  function GetActiveConversation(reg: Registry, participant: string): (c: Option<Conversation>)
    ensures c.Some? ==> !c.value.ended
    ensures c.Some? <==> participant in reg.active && reg.active[participant] != "" &&
                         reg.active[participant] in reg.conversations &&
                         !reg.conversations[reg.active[participant]].ended
    ensures c.Some? ==> c == RunningOf(reg, participant)
  {
    if participant in reg.active && reg.active[participant] != "" then RunningOf(reg, participant) else None
  }

  /**
   * `add_message`: `None`, changing nothing, for an unknown or ended
   * conversation; otherwise the message, appended to that conversation.
   */
  function AddMessageTo(reg: Registry, convId: string, speaker: string, content: string, time: GameTime,
                        clue: Option<string>, quoted: Option<int>): (Registry, Option<Message>)
  {
    if convId !in reg.conversations || reg.conversations[convId].ended then (reg, None)
    else
      var (c1, m) := AddMessage(reg.conversations[convId], speaker, content, time.day, time.period.Value(), clue, quoted);
      (reg.(conversations := reg.conversations[convId := c1]), Some(m))
  }

  /**
   * Only a running conversation takes a message: it grows by exactly that
   * message, at its end; every other conversation and every mapping stays.
   */
  lemma AddMessageSpec(reg: Registry, convId: string, speaker: string, content: string, time: GameTime,
                       clue: Option<string>, quoted: Option<int>)
    ensures var (reg1, m) := AddMessageTo(reg, convId, speaker, content, time, clue, quoted);
      (m.None? <==> convId !in reg.conversations || reg.conversations[convId].ended) &&
      (m.None? ==> reg1 == reg) &&
      (m.Some? ==>
         reg1.conversations.Keys == reg.conversations.Keys && reg1.order == reg.order && reg1.active == reg.active &&
         reg1.conversations[convId].messages == reg.conversations[convId].messages + [m.value] &&
         reg1.conversations[convId].(messages := reg.conversations[convId].messages) == reg.conversations[convId] &&
         m.value.speaker == speaker && m.value.content == content && m.value.day == time.day &&
         (forall k :: k in reg.conversations && k != convId ==> reg1.conversations[k] == reg.conversations[k]))
  {
  }

  /** The participant mappings left once the links of `ps` to `convId` are deleted. */
  function Unlinked(active: map<string, string>, ps: seq<string>, convId: string): (a: map<string, string>)
    ensures forall p :: p in a <==> p in active && !(p in ps && active[p] == convId)
    ensures forall p :: p in a ==> a[p] == active[p]
  {
    map p | p in active && !(p in ps && active[p] == convId) :: active[p]
  }

  /**
   * `end_conversation`: `false`, changing nothing, for an unknown id;
   * otherwise the conversation is ended and its participants' mappings
   * that still point to it are deleted.
   */
  function End(reg: Registry, convId: string): (Registry, bool)
  {
    if convId !in reg.conversations then (reg, false)
    else
      var c := reg.conversations[convId];
      (Registry(reg.conversations[convId := c.(ended := true)], reg.order, Unlinked(reg.active, c.participants, convId)), true)
  }

  /**
   * Ending a conversation leaves none of its participants in it, keeps
   * every mapping to another conversation, and makes it unable to take
   * messages; ending it twice is ending it once.
   */
  lemma EndSpec(reg: Registry, convId: string, p: string, speaker: string, content: string, time: GameTime,
                clue: Option<string>, quoted: Option<int>)
    ensures var (reg1, ok) := End(reg, convId);
      (ok <==> convId in reg.conversations) && (!ok ==> reg1 == reg) &&
      (ok ==>
         reg1.conversations[convId].ended &&
         (p in reg.conversations[convId].participants ==> p !in reg1.active || reg1.active[p] != convId) &&
         (p in reg.active && reg.active[p] != convId ==> p in reg1.active && reg1.active[p] == reg.active[p]) &&
         AddMessageTo(reg1, convId, speaker, content, time, clue, quoted) == (reg1, None) &&
         End(reg1, convId).0 == reg1)
  {
    var (reg1, ok) := End(reg, convId);
    if ok {
      var c := reg.conversations[convId];
      assert reg1.conversations[convId] == c.(ended := true);
      assert Unlinked(reg1.active, c.participants, convId) == reg1.active;
    }
  }

  /** The ids of `ids` whose conversation involves `participant`, in order. */
  function Involving(reg: Registry, ids: seq<string>, participant: string): (cs: seq<Conversation>)
    ensures forall c :: c in cs ==> participant in c.participants
    ensures forall i :: 0 <= i < |ids| && ids[i] in reg.conversations && participant in reg.conversations[ids[i]].participants ==>
              reg.conversations[ids[i]] in cs
    ensures forall c :: c in cs ==> exists i :: 0 <= i < |ids| && ids[i] in reg.conversations && reg.conversations[ids[i]] == c
    decreases |ids|
  {
    if ids == [] then []
    else
      var init := Involving(reg, ids[..|ids| - 1], participant);
      var id := ids[|ids| - 1];
      assert forall i :: 0 <= i < |ids| - 1 ==> ids[..|ids| - 1][i] == ids[i];
      if id in reg.conversations && participant in reg.conversations[id].participants
      then init + [reg.conversations[id]]
      else init
  }

  /** The sort key `(started_day, started_time)`, ordered as Python orders the tuple: `a` is at most `b`. */
  predicate KeyLe(a: Conversation, b: Conversation)
  {
    a.startedDay < b.startedDay || (a.startedDay == b.startedDay && StrLe(a.startedTime, b.startedTime))
  }

  lemma KeyTotal(a: Conversation, b: Conversation)
    ensures KeyLe(a, b) || KeyLe(b, a)
  {
    StrLeTotal(a.startedTime, b.startedTime);
  }

  lemma KeyTrans(a: Conversation, b: Conversation, c: Conversation)
    ensures KeyLe(a, b) && KeyLe(b, c) ==> KeyLe(a, c)
  {
    StrLeTrans(a.startedTime, b.startedTime, c.startedTime);
  }

  /** Newest first: no conversation is followed by a later one. */
  predicate Descending(cs: seq<Conversation>)
  {
    forall i, j :: 0 <= i < j < |cs| ==> KeyLe(cs[j], cs[i])
  }

  /** Places `c` after every conversation of `cs` whose key is at least its own. */
  function Insert(c: Conversation, cs: seq<Conversation>): (r: seq<Conversation>)
    ensures |r| == |cs| + 1
    ensures multiset(r) == multiset(cs) + multiset{c}
  {
    if cs == [] then [c]
    else if !KeyLe(c, cs[0]) then [c] + cs
    else
      assert cs == [cs[0]] + cs[1..];
      [cs[0]] + Insert(c, cs[1..])
  }

  lemma {:induction false} InsertKeepsOrder(c: Conversation, cs: seq<Conversation>)
    requires Descending(cs)
    ensures Descending(Insert(c, cs))
  {
    if cs != [] && KeyLe(c, cs[0]) {
      InsertKeepsOrder(c, cs[1..]);
      var r := Insert(c, cs);
      assert r == [cs[0]] + Insert(c, cs[1..]);
      forall j | 0 < j < |r|
        ensures KeyLe(r[j], r[0])
      {
        assert r[j] in multiset(Insert(c, cs[1..]));
        assert r[j] == c || r[j] in multiset(cs[1..]);
        if r[j] != c {
          var k :| 1 <= k < |cs| && cs[k] == r[j];
        }
      }
    } else if cs != [] {
      KeyTotal(c, cs[0]);
      var r := [c] + cs;
      forall j | 0 < j < |r|
        ensures KeyLe(r[j], r[0])
      {
        if j > 1 {
          KeyTrans(r[j], cs[0], c);
        }
      }
    }
  }

  /**
   * `history.sort(key=..., reverse=True)`: a stable sort, newest first;
   * each conversation is inserted after the ones before it in the list
   * with an equal key, which keeps their original order.
   */
  function SortNewestFirst(cs: seq<Conversation>): (r: seq<Conversation>)
    ensures multiset(r) == multiset(cs) && |r| == |cs|
  {
    if cs == [] then []
    else
      assert cs == cs[..|cs| - 1] + [cs[|cs| - 1]];
      Insert(cs[|cs| - 1], SortNewestFirst(cs[..|cs| - 1]))
  }

  lemma {:induction false} SortedNewestFirst(cs: seq<Conversation>)
    ensures Descending(SortNewestFirst(cs))
  {
    if cs != [] {
      SortedNewestFirst(cs[..|cs| - 1]);
      InsertKeepsOrder(cs[|cs| - 1], SortNewestFirst(cs[..|cs| - 1]));
    }
  }

  /** `get_conversation_history`: the participant's conversations, newest first, at most `limit` (as Python slices). */
  function History(reg: Registry, participant: string, limit: int): seq<Conversation>
  {
    PyHead(SortNewestFirst(Involving(reg, reg.order, participant)), limit)
  }

  /**
   * The history lists only conversations involving the participant, never
   * more than `limit` of them, newest first; with a large enough limit it
   * holds each of them exactly as often as the registry does.
   */
  lemma HistorySpec(reg: Registry, participant: string, limit: int)
    ensures var h := History(reg, participant, limit);
      (limit >= 0 ==> |h| <= limit) &&
      (forall c :: c in h ==> participant in c.participants && c in reg.conversations.Values) &&
      Descending(h) &&
      (limit >= |Involving(reg, reg.order, participant)| ==> multiset(h) == multiset(Involving(reg, reg.order, participant)))
  {
    var all := SortNewestFirst(Involving(reg, reg.order, participant));
    SortedNewestFirst(Involving(reg, reg.order, participant));
    var h := History(reg, participant, limit);
    assert h == all[..|h|];
    forall c | c in h
      ensures participant in c.participants && c in reg.conversations.Values
    {
      assert c in multiset(all);
      assert c in Involving(reg, reg.order, participant);
    }
    if limit >= |all| {
      assert h == all;
    }
  }

  /** The system: the registry's three dictionaries, changed in place. */
  class ConversationSystem {
    var conversations: map<string, Conversation>
    var order: seq<string>
    var active: map<string, string>

    /** The dictionaries as a value. */
    function Snapshot(): Registry
      reads this
    {
      Registry(conversations, order, active)
    }

    /** `ConversationSystem()`: no conversations. */
    constructor()
      ensures Snapshot() == EMPTY && Valid(Snapshot())
    {
      conversations, order, active := map[], [], map[];
    }

    /** `start_conversation`, as `Start` says. */
    method StartConversation(id: string, p1: string, p2: string, location: string, time: GameTime) returns (conv: Conversation)
      modifies this
      ensures (Snapshot(), conv) == Start(old(Snapshot()), id, p1, p2, location, time)
      ensures old(Valid(Snapshot())) ==> Valid(Snapshot())
    {
      StartSpec(Snapshot(), id, p1, p2, location, time, p1);
      if p1 in active {
        var existingId := active[p1];
        if existingId in conversations && !conversations[existingId].ended {
          return conversations[existingId];
        }
      }
      conv := Create(id, p1, p2, location, time.day, time.period.Value());
      conversations := conversations[id := conv];
      order := AppendNew(order, id);
      active := active[p1 := id][p2 := id];
    }

    /** `add_message`, as `AddMessageTo` says. */
    method AddMessage(convId: string, speaker: string, content: string, time: GameTime,
                      clue: Option<string>, quoted: Option<int>) returns (m: Option<Message>)
      modifies this
      ensures (Snapshot(), m) == AddMessageTo(old(Snapshot()), convId, speaker, content, time, clue, quoted)
    {
      if convId !in conversations || conversations[convId].ended {
        return None;
      }
      var r := DetConversation.AddMessage(conversations[convId], speaker, content, time.day, time.period.Value(), clue, quoted);
      conversations := conversations[convId := r.0];
      m := Some(r.1);
    }

    /**
     * `end_conversation`: the participants are visited in order and each
     * one's mapping is deleted while it still points here.
     */
    method EndConversation(convId: string) returns (ok: bool)
      modifies this
      ensures (Snapshot(), ok) == End(old(Snapshot()), convId)
    {
      if convId !in conversations {
        return false;
      }
      var c := conversations[convId];
      conversations := conversations[convId := c.(ended := true)];
      ghost var start := active;
      var i := 0;
      while i < |c.participants|
        invariant 0 <= i <= |c.participants|
        invariant active == Unlinked(start, c.participants[..i], convId)
        invariant conversations == old(conversations)[convId := c.(ended := true)] && order == old(order)
      {
        var p := c.participants[i];
        assert c.participants[..i + 1] == c.participants[..i] + [p];
        if p in active && active[p] == convId {
          active := active - {p};
        }
        i := i + 1;
      }
      assert c.participants[..i] == c.participants;
      ok := true;
    }

    /**
     * `get_conversation_history`: the conversations are visited in the
     * dictionary's order, those involving `participant` are kept, then
     * sorted newest first and cut to `limit`.
     */
    method GetConversationHistory(participant: string, limit: int) returns (history: seq<Conversation>)
      ensures history == History(Snapshot(), participant, limit)
    {
      var found: seq<Conversation> := [];
      var i := 0;
      while i < |order|
        invariant 0 <= i <= |order|
        invariant found == Involving(Snapshot(), order[..i], participant)
      {
        assert order[..i + 1][..i] == order[..i];
        if order[i] in conversations && participant in conversations[order[i]].participants {
          found := found + [conversations[order[i]]];
        }
        i := i + 1;
      }
      assert order[..i] == order;
      history := PyHead(SortNewestFirst(found), limit);
    }
  }
}
