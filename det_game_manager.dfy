/**
 * `GameManager`: one player action of the detective scenario and the turn
 * that follows it. The action (move, talk, investigate, wait) is applied,
 * the clock advances one period, the timeline is checked, and then every
 * living character takes its turn: a murderer whose plan is due strikes,
 * everyone else acts on the language model's decision, which is a
 * parameter here. The list of actions offered to the player is built from
 * the same state.
 */
module DetGameManager {
  import opened Common
  import opened Events
  import opened DetGameState
  import opened DetActor
  import opened DetEventSystem
  import opened DetScene
  import opened DetSceneSystem
  import opened DetClue
  import opened DetClueSystem
  import opened DetConversation
  import opened DetConversationSystem
  import opened DetActorBrain
  import opened DetTimeSystem

  // ---------------------------------------------------------------------
  // The state of a game as a value
  // ---------------------------------------------------------------------

  /**
   * Everything one turn reads or changes: the shared game state, the
   * characters (with the dictionary's iteration order), the places, the
   * clues, the conversations, the timeline and the events of this turn.
   */
  datatype World = World(
    record: GameRecord,
    actors: map<string, ActorState>,
    actorOrder: seq<string>,
    configs: map<string, ActorConfig>,
    scenes: Scenes,
    clues: Clues,
    convs: Registry,
    timeline: seq<TimelineEvent>,
    turnEvents: seq<GameEvent>)

  /** Appending to `current_turn_events`. */
  function Log(w: World, e: GameEvent): (w1: World)
    ensures w1.turnEvents == w.turnEvents + [e] && w1.(turnEvents := w.turnEvents) == w
  {
    w.(turnEvents := w.turnEvents + [e])
  }

  /** `_get_scene_name`: the configured name, or the id itself. */
  function SceneName(sc: Scenes, id: string): string
  {
    if id in sc.configs then sc.configs[id].name else id
  }

  /** The player's id in the clue and conversation systems. */
  const ME := DetClueSystem.PLAYER

  // ---------------------------------------------------------------------
  // Player actions
  // ---------------------------------------------------------------------

  /** The message of a refused move: the rule's message, or a default naming the place. */
  function Refusal(message: string, dest: string): string
  {
    if message != "" then message else "无法前往 " + dest
  }

  /**
   * `_player_move`: a move to a closed or unknown place (no target reads
   * as unknown) logs a SYSTEM event with the refusal; otherwise the player
   * stands there and a PLAYER_ACTION event announces the place.
   */
  function PlayerMove(w: World, dest: Option<string>): World
  {
    var t := w.record.time;
    if dest.None? then
      Log(w, Ev(System, UNKNOWN_PLACE, t.day, t.period.Value(), None))
    else
      var (ok, message) := CheckAccessibility(w.scenes, dest.value, w.record);
      if !ok then
        Log(w, Ev(System, Refusal(message, dest.value), t.day, t.period.Value(), None))
      else
        var w1 := w.(record := w.record.(player := w.record.player.(location := dest.value)));
        Log(w1, Ev(PlayerAction, "你来到了 " + SceneName(w.scenes, dest.value) + "。", t.day, t.period.Value(),
                   Some(dest.value)))
  }

  /**
   * A move succeeds exactly when the place is open: the player then stands
   * there and nothing else but the log changes. A refused move leaves the
   * player where they were and logs one SYSTEM event without a location.
   * Either way exactly one event is logged.
   */
  lemma PlayerMoveSpec(w: World, dest: Option<string>)
    ensures var w1 := PlayerMove(w, dest);
      |w1.turnEvents| == |w.turnEvents| + 1 && w1.turnEvents[..|w.turnEvents|] == w.turnEvents &&
      w1.(turnEvents := w.turnEvents, record := w.record) == w &&
      w1.record.(player := w.record.player) == w.record &&
      w1.record.player.(location := w.record.player.location) == w.record.player
    ensures var w1 := PlayerMove(w, dest);
      var e := w1.turnEvents[|w.turnEvents|];
      if dest.Some? && CheckAccessibility(w.scenes, dest.value, w.record).0 then
        w1.record.player.location == dest.value && e.eventType == PlayerAction && e.location == dest
      else
        w1.record == w.record && e.eventType == System && e.location.None? &&
        e.text == (if dest.None? then UNKNOWN_PLACE
                   else Refusal(CheckAccessibility(w.scenes, dest.value, w.record).1, dest.value))
  {
    assert (w.turnEvents + [PlayerMove(w, dest).turnEvents[|w.turnEvents|]])[..|w.turnEvents|] == w.turnEvents;
  }

  /**
   * `_player_start_talk`: nothing for an unknown character; a SYSTEM event
   * for one elsewhere; otherwise the conversation with the player (a new
   * one with id `convId`, or the one the player is already in) and a
   * PLAYER_ACTION event naming it.
   */
  function PlayerStartTalk(w: World, actorId: Option<string>, convId: string): World
  {
    var t := w.record.time;
    if actorId.None? || actorId.value !in w.actors || actorId.value !in w.configs then w
    else
      var id := actorId.value;
      var name := w.configs[id].name;
      var here := w.record.player.location;
      if w.actors[id].location != here then
        Log(w, Ev(System, name + " 不在这里。", t.day, t.period.Value(), None))
      else
        var (convs1, conv) := Start(w.convs, convId, ME, id, here, t);
        Log(w.(convs := convs1),
            GameEvent(PlayerAction, "你开始与 " + name + " 交谈。", t.day, t.period.Value(), None, Some(here),
                      map["conversation_id" := Some(conv.id)]))
  }

  /**
   * No conversation starts with an unknown character (nothing changes at
   * all) or with one elsewhere (only a SYSTEM event is logged); a
   * character here is talked to, and the player is then in a running
   * conversation.
   */
  lemma PlayerStartTalkSpec(w: World, actorId: Option<string>, convId: string)
    ensures actorId.None? || actorId.value !in w.actors || actorId.value !in w.configs ==>
              PlayerStartTalk(w, actorId, convId) == w
    ensures actorId.Some? && actorId.value in w.actors && actorId.value in w.configs &&
            w.actors[actorId.value].location != w.record.player.location ==>
              var w1 := PlayerStartTalk(w, actorId, convId);
              w1.(turnEvents := w.turnEvents) == w && |w1.turnEvents| == |w.turnEvents| + 1 &&
              w1.turnEvents[|w.turnEvents|].eventType == System
    ensures actorId.Some? && actorId.value in w.actors && actorId.value in w.configs &&
            w.actors[actorId.value].location == w.record.player.location ==>
              var w1 := PlayerStartTalk(w, actorId, convId);
              RunningOf(w1.convs, ME).Some? &&
              w1.(turnEvents := w.turnEvents, convs := w.convs) == w && |w1.turnEvents| == |w.turnEvents| + 1 &&
              w1.turnEvents[|w.turnEvents|].eventType == PlayerAction
  {
    if actorId.Some? && actorId.value in w.actors && actorId.value in w.configs &&
       w.actors[actorId.value].location == w.record.player.location {
      StartThenRunning(w.convs, convId, ME, actorId.value, w.record.player.location, w.record.time);
    }
  }

  /** The event of a search that found nothing. */
  function NothingFound(w: World, loc: string): GameEvent
  {
    Ev(PlayerAction, "你仔细调查了一番，但没有发现什么特别的东西。", w.record.time.day, w.record.time.period.Value(), Some(loc))
  }

  /**
   * `_player_investigate` as written: the point is searched and, when it
   * yields a clue, the player tries to discover it. The point stays marked
   * as searched even when the discovery is refused.
   */
  function PlayerInvestigateAsWritten(w: World, pointId: Option<string>): World
  {
    var loc := w.record.player.location;
    var t := w.record.time;
    var (sc1, clue) := if pointId.Some? then Investigate(w.scenes, loc, pointId.value, w.record) else (w.scenes, None);
    var w1 := w.(scenes := sc1);
    if Present(clue) then
      var (cs1, r1, info) := Discover(w1.clues, w1.record, clue.value, ME);
      if info.Some? then
        Log(w1.(clues := cs1, record := r1), FoundEvent(info.value.name, info.value.description, t, loc, clue.value))
      else Log(w1, NothingFound(w, loc))
    else Log(w1, NothingFound(w, loc))
  }

  /** The player's announcement of a found clue. */
  function FoundEvent(name: string, description: string, t: GameTime, loc: string, clueId: string): GameEvent
  {
    GameEvent(PlayerAction, "你发现了 " + name + "！\n" + description, t.day, t.period.Value(), None, Some(loc),
              map["clue_id" := Some(clueId)])
  }

  /** The clue configured at a point of the player's place that a search would reach. */
  function ClueAt(w: World, pointId: string): Option<string>
    requires CanSearch(w.scenes, w.record.player.location, pointId, w.record)
  {
    var ps := w.scenes.configs[w.record.player.location].points;
    ps[FindPoint(ps, pointId).value].clueId
  }

  /** Whether a clue is recorded as found. */
  predicate Found(cs: Clues, id: string)
  {
    id in cs.states && Present(cs.states[id].discoveredBy)
  }

  /**
   * A search whose clue cannot be had yet: the point would be marked, but
   * its configured clue is neither found nor discoverable now.
   */
  predicate Withheld(w: World, pointId: string)
  {
    CanSearch(w.scenes, w.record.player.location, pointId, w.record) &&
    var clue := ClueAt(w, pointId);
    Present(clue) && clue.value in w.clues.configs &&
    !Found(w.clues, clue.value) && !CanDiscover(w.clues, clue.value, w.record)
  }

  /**
   * `_player_investigate`, corrected: a search whose clue is withheld
   * leaves the point unsearched, so it can be searched again once the clue
   * becomes discoverable; otherwise as written.
   */
  function PlayerInvestigate(w: World, pointId: Option<string>): World
  {
    if pointId.Some? && Withheld(w, pointId.value) then Log(w, NothingFound(w, w.record.player.location))
    else PlayerInvestigateAsWritten(w, pointId)
  }

  /** The point `pointId` of the player's place is marked as searched in `w`. */
  predicate Searched(w: World, pointId: string)
  {
    w.record.player.location in w.scenes.states &&
    IsPointDiscovered(w.scenes.states[w.record.player.location], pointId)
  }

  /**
   * A point is never spent for nothing: when the corrected search marks a
   * point, the configured clue it holds is found afterwards. A withheld
   * search changes nothing but the log.
   */
  lemma PlayerInvestigateKeepsClues(w: World, pointId: string)
    ensures var w1 := PlayerInvestigate(w, Some(pointId));
      Searched(w1, pointId) && !Searched(w, pointId) ==>
        CanSearch(w.scenes, w.record.player.location, pointId, w.record) &&
        (Present(ClueAt(w, pointId)) && ClueAt(w, pointId).value in w.clues.configs ==>
           Found(w1.clues, ClueAt(w, pointId).value))
    ensures Withheld(w, pointId) ==>
              PlayerInvestigate(w, Some(pointId)) == Log(w, NothingFound(w, w.record.player.location))
  {
    var loc := w.record.player.location;
    InvestigateSpec(w.scenes, loc, pointId, w.record);
    if !Withheld(w, pointId) && CanSearch(w.scenes, loc, pointId, w.record) {
      var clue := ClueAt(w, pointId);
      if Present(clue) && clue.value in w.clues.configs && CanDiscover(w.clues, clue.value, w.record) {
        var w1 := w.(scenes := Investigate(w.scenes, loc, pointId, w.record).0);
        assert Discover(w1.clues, w1.record, clue.value, ME).0.states[clue.value].discoveredBy == Some(ME);
      }
    }
  }

  /**
   * The flaw as written: with a knife on the desk that becomes findable
   * only after the murder, searching the desk before it marks the desk as
   * searched and finds nothing; the knife is then never found there,
   * whatever the state of the game later. The corrected search leaves the
   * desk unsearched.
   */
  lemma ClueLostAsWritten()
    ensures var w := LostClueWorld();
      var w1 := PlayerInvestigateAsWritten(w, Some("desk"));
      Searched(w1, "desk") && !Found(w1.clues, "knife") &&
      (forall r :: Investigate(w1.scenes, "hall", "desk", r).1.None?) &&
      !Searched(PlayerInvestigate(w, Some("desk")), "desk")
  {
    var w := LostClueWorld();
    assert FindPoint(w.scenes.configs["hall"].points, "desk") == Some(0);
    assert !CanDiscover(w.clues, "knife", w.record);
    assert Withheld(w, "desk");
    var w1 := PlayerInvestigateAsWritten(w, Some("desk"));
    forall r ensures Investigate(w1.scenes, "hall", "desk", r).1.None? {
      InvestigateSpec(w1.scenes, "hall", "desk", r);
    }
  }

  /** A hall with a desk holding a knife that waits for the murder. */
  function LostClueWorld(): World
  {
    var desk := InvestigationPoint("desk", "书桌", "", Some("knife"), false, None);
    var hall := SceneConfig("hall", "大厅", "", true, [], [], [desk]);
    var knife := ClueConfig("knife", "刀", Physical, "", "", Some("hall"), Some("desk"), Some("murder"), None,
                            [], [], None, true);
    var player := PlayerState("玩家", "hall", {}, [], {});
    World(NewRecord(START_TIME, player), map[], [], map[],
          Scenes(map["hall" := hall], ["hall"], map["hall" := NewSceneState("hall", true)]),
          Clues(map["knife" := knife], ["knife"], map["knife" := NewClueState("knife")]),
          EMPTY, [], [])
  }

  /** `_player_wait`: one PLAYER_ACTION event where the player stands. */
  function PlayerWait(w: World): World
  {
    Log(w, Ev(PlayerAction, "你决定观察一下周围的情况...", w.record.time.day, w.record.time.period.Value(),
              Some(w.record.player.location)))
  }

  /** `_advance_time`: one period on, and a NARRATIVE event when a new day starts. */
  function AdvanceClock(w: World): World
  {
    var (t, newDay) := Advance(w.record.time);
    var w1 := w.(record := w.record.(time := t));
    if newDay then Log(w1, Ev(Narrative, "新的一天开始了... 第" + Show(t.day) + "天", t.day, t.period.Value(), None))
    else w1
  }

  // ---------------------------------------------------------------------
  // The murderer's plan
  // ---------------------------------------------------------------------

  /** A plan entry is due now and its condition flag, if any, is set. */
  predicate Due(plan: ActionPlanItem, r: GameRecord)
  {
    plan.triggerDay == r.time.day && plan.triggerTime == r.time.period.Value() &&
    !(Present(plan.condition) && !HasFlag(r, plan.condition.value))
  }

  /** A due plan entry that kills an existing, living victim. */
  predicate Strikes(plan: ActionPlanItem, w: World)
  {
    Due(plan, w.record) && plan.action == "kill" && Present(plan.target) &&
    plan.target.value in w.actors && w.actors[plan.target.value].isAlive
  }

  /** The effect of a strike: the victim dies, its flag and the left clue's flag are raised. */
  function Strike(w: World, plan: ActionPlanItem): World
    requires Present(plan.target) && plan.target.value in w.actors
  {
    var v := plan.target.value;
    var r1 := RaiseFlag(w.record, v + "_dead");
    var r2 := if Present(plan.clueLeft) then RaiseFlag(r1, CLUE_AVAILABLE + plan.clueLeft.value) else r1;
    w.(record := r2, actors := w.actors[v := w.actors[v].(isAlive := false)])
  }

  /** The hidden CRIME event of a strike. */
  function CrimeEvent(w: World, id: string, name: string, plan: ActionPlanItem): GameEvent
    requires Present(plan.target)
  {
    GameEvent(Crime, "[隐藏] " + name + " 对 " + plan.target.value + " 采取了行动", w.record.time.day,
              w.record.time.period.Value(), Some(id), plan.location,
              map["victim" := Some(plan.target.value), "method" := plan.means])
  }

  /**
   * `_check_special_action`: the plan entries in order; the first that
   * strikes takes effect and yields its event; with none, nothing happens.
   */
  function SpecialAction(w: World, id: string, name: string, plans: seq<ActionPlanItem>): (World, Option<GameEvent>)
    decreases |plans|
  {
    if plans == [] then (w, None)
    else if Strikes(plans[0], w) then (Strike(w, plans[0]), Some(CrimeEvent(w, id, name, plans[0])))
    else SpecialAction(w, id, name, plans[1..])
  }

  /**
   * The first striking entry decides: when entry `i` strikes and none
   * before it does, its strike and event are the outcome; when no entry
   * strikes, nothing changes and no event is returned. An entry strikes
   * only when due, with its condition met, as a kill of a living victim.
   */
  lemma {:induction false} SpecialActionSpec(w: World, id: string, name: string, plans: seq<ActionPlanItem>)
    ensures (forall k :: 0 <= k < |plans| ==> !Strikes(plans[k], w)) <==> SpecialAction(w, id, name, plans).1.None?
    ensures SpecialAction(w, id, name, plans).1.None? ==> SpecialAction(w, id, name, plans).0 == w
    ensures forall i :: 0 <= i < |plans| && Strikes(plans[i], w) && (forall k :: 0 <= k < i ==> !Strikes(plans[k], w)) ==>
              SpecialAction(w, id, name, plans) == (Strike(w, plans[i]), Some(CrimeEvent(w, id, name, plans[i])))
    decreases |plans|
  {
    if plans != [] {
      SpecialActionSpec(w, id, name, plans[1..]);
      assert forall k :: 1 <= k < |plans| ==> plans[k] == plans[1..][k - 1];
      if !Strikes(plans[0], w) {
        forall i | 0 <= i < |plans| && Strikes(plans[i], w) && (forall k :: 0 <= k < i ==> !Strikes(plans[k], w))
          ensures SpecialAction(w, id, name, plans) == (Strike(w, plans[i]), Some(CrimeEvent(w, id, name, plans[i])))
        {
          assert i > 0 && plans[i] == plans[1..][i - 1];
          assert forall k :: 0 <= k < i - 1 ==> plans[1..][k] == plans[k + 1];
        }
      }
    }
  }

  /**
   * A strike kills exactly its victim, who was alive, raises the victim's
   * flag and the left clue's flag, and changes nothing else of the world;
   * every other character is untouched.
   */
  lemma StrikeSpec(w: World, plan: ActionPlanItem)
    requires Strikes(plan, w)
    ensures var w1 := Strike(w, plan);
      var v := plan.target.value;
      w.actors[v].isAlive && !w1.actors[v].isAlive && w1.actors.Keys == w.actors.Keys &&
      w1.actors[v] == w.actors[v].(isAlive := false) &&
      (forall a :: a in w.actors && a != v ==> w1.actors[a] == w.actors[a]) &&
      HasFlag(w1.record, v + "_dead") &&
      (Present(plan.clueLeft) ==> HasFlag(w1.record, CLUE_AVAILABLE + plan.clueLeft.value)) &&
      w1.record.(flags := w.record.flags) == w.record &&
      w1.(record := w.record, actors := w.actors) == w
  {
  }

  // ---------------------------------------------------------------------
  // Ordinary character turns
  // ---------------------------------------------------------------------

  /** The people a character at `here` sees: the other occupants, and the player when there. */
  function PeopleAt(w: World, id: string, here: string): set<string>
  {
    var occupants := if here in w.scenes.states then w.scenes.states[here].occupants else {};
    (occupants - {id}) + (if w.record.player.location == here then {DetActorBrain.PLAYER} else {})
  }

  /**
   * `_execute_single_npc_turn` once the decision is known: a move to a
   * target changes the character's place (and the places' occupants),
   * tells the player when they see the character leave, and is
   * remembered; a talk to the player shows an approach when the player is
   * there; anything else changes nothing.
   */
  function NpcAct(w: World, id: string, d: ActionDecision): World
    requires id in w.actors && id in w.configs
  {
    var st := w.actors[id];
    var name := w.configs[id].name;
    var here := st.location;
    var t := w.record.time;
    if d.action == Move && Present(d.target) then
      var to := d.target.value;
      var remembered := AddMemory(st.(location := to), t.day, t.period.Value(), "前往 " + to + "：" + d.reason, to, []);
      var w1 := w.(actors := w.actors[id := remembered], scenes := Moved(w.scenes, id, here, to));
      if w.record.player.location == here then
        Log(w1, GameEvent(NpcAction, name + " 离开了。", t.day, t.period.Value(), Some(id), Some(here), map[]))
      else w1
    else if d.action == TalkToPlayer && w.record.player.location == here then
      Log(w, GameEvent(NpcAction, name + " 向你走来，似乎想说些什么...", t.day, t.period.Value(), Some(id), Some(here), map[]))
    else w
  }

  /**
   * Acting on a decision changes only the acting character, the
   * occupants and the log: a character changes place only on a move, to
   * the move's target; every other character is untouched, and the clock,
   * flags, player, clues and conversations stay as they were.
   */
  lemma NpcActSpec(w: World, id: string, d: ActionDecision)
    requires id in w.actors && id in w.configs
    ensures var w1 := NpcAct(w, id, d);
      w1.record == w.record && w1.clues == w.clues && w1.convs == w.convs && w1.timeline == w.timeline &&
      w1.configs == w.configs && w1.actorOrder == w.actorOrder && w1.actors.Keys == w.actors.Keys &&
      (forall a :: a in w.actors && a != id ==> w1.actors[a] == w.actors[a]) &&
      w1.actors[id].isAlive == w.actors[id].isAlive &&
      |w1.turnEvents| >= |w.turnEvents| && w1.turnEvents[..|w.turnEvents|] == w.turnEvents &&
      (w1.actors[id].location != w.actors[id].location ==> d.action == Move && d.target == Some(w1.actors[id].location))
  {
    var w1 := NpcAct(w, id, d);
    assert w1.turnEvents[..|w.turnEvents|] == w.turnEvents;
  }

  /** `_execute_single_npc_turn`: the character decides on the reply, then acts. */
  function NpcTurn(w: World, id: string, reply: Reply): World
    requires id in w.actors && id in w.configs
  {
    var st := w.actors[id];
    NpcAct(w, id, DecideAction(st, reply, GetAccessibleScenes(w.scenes, w.record), PeopleAt(w, id, st.location)))
  }

  /**
   * An ordinary turn changes only the acting character, the occupants and
   * the log: it goes only to a place it may reach, every other character
   * is untouched, and the clock, flags, player, clues and conversations
   * stay as they were.
   */
  lemma NpcTurnSpec(w: World, id: string, reply: Reply)
    requires id in w.actors && id in w.configs
    ensures var w1 := NpcTurn(w, id, reply);
      w1.record == w.record && w1.clues == w.clues && w1.convs == w.convs && w1.timeline == w.timeline &&
      w1.configs == w.configs && w1.actorOrder == w.actorOrder && w1.actors.Keys == w.actors.Keys &&
      (forall a :: a in w.actors && a != id ==> w1.actors[a] == w.actors[a]) &&
      w1.actors[id].isAlive == w.actors[id].isAlive &&
      |w1.turnEvents| >= |w.turnEvents| && w1.turnEvents[..|w.turnEvents|] == w.turnEvents &&
      (w1.actors[id].location != w.actors[id].location ==>
         w.actors[id].isAlive && w1.actors[id].location in GetAccessibleScenes(w.scenes, w.record))
  {
    var st := w.actors[id];
    var open := GetAccessibleScenes(w.scenes, w.record);
    var people := PeopleAt(w, id, st.location);
    ParseDecisionSpec(reply, open, people);
    NpcActSpec(w, id, DecideAction(st, reply, open, people));
  }

  /**
   * One character's turn in `_execute_npc_turns`: the dead and the
   * unconfigured are skipped; a character with a plan that strikes acts on
   * it and takes no other turn; everyone else takes an ordinary turn.
   */
  function CharacterTurn(w: World, id: string, reply: Reply): World
  {
    if id !in w.actors || !w.actors[id].isAlive || id !in w.configs then w
    else
      var plans := w.configs[id].actionPlan;
      var special := SpecialAction(w, id, w.configs[id].name, plans);
      if |plans| > 0 && special.1.Some? then Log(special.0, special.1.value)
      else NpcTurn(w, id, reply)
  }

  /** `_execute_npc_turns`: the characters in dictionary order, each with its own reply. */
  function NpcTurns(w: World, ids: seq<string>, oracle: string -> Reply): World
    decreases |ids|
  {
    if ids == [] then w else NpcTurns(CharacterTurn(w, ids[0], oracle(ids[0])), ids[1..], oracle)
  }

  /**
   * A character's turn never touches a dead character: the dead are
   * skipped, a strike kills only the living, and an ordinary turn changes
   * only the one acting, who is alive. Who exists never changes, and
   * events are only appended.
   */
  lemma CharacterTurnSpec(w: World, id: string, reply: Reply)
    ensures var w1 := CharacterTurn(w, id, reply);
      w1.actors.Keys == w.actors.Keys && w1.actorOrder == w.actorOrder && w1.configs == w.configs &&
      w1.record.time == w.record.time && w1.record.player == w.record.player &&
      (forall a :: a in w.actors && !w.actors[a].isAlive ==> w1.actors[a] == w.actors[a]) &&
      |w1.turnEvents| >= |w.turnEvents| && w1.turnEvents[..|w.turnEvents|] == w.turnEvents
    ensures id !in w.actors || !w.actors[id].isAlive || id !in w.configs ==> CharacterTurn(w, id, reply) == w
    ensures id in w.actors && w.actors[id].isAlive && id in w.configs &&
            SpecialAction(w, id, w.configs[id].name, w.configs[id].actionPlan).1.Some? ==>
              CharacterTurn(w, id, reply) ==
              Log(SpecialAction(w, id, w.configs[id].name, w.configs[id].actionPlan).0,
                  SpecialAction(w, id, w.configs[id].name, w.configs[id].actionPlan).1.value)
  {
    if id in w.actors && w.actors[id].isAlive && id in w.configs {
      var plans := w.configs[id].actionPlan;
      SpecialActionSpec(w, id, w.configs[id].name, plans);
      var special := SpecialAction(w, id, w.configs[id].name, plans);
      if special.1.Some? {
        var i :| 0 <= i < |plans| && Strikes(plans[i], w);
        var first := FirstStrike(w, plans, i);
        assert special.0 == Strike(w, plans[first]);
        StrikeSpec(w, plans[first]);
      } else {
        NpcTurnSpec(w, id, reply);
      }
      var w1 := CharacterTurn(w, id, reply);
      assert w1.turnEvents[..|w.turnEvents|] == w.turnEvents;
    }
  }

  /** The first striking entry at or before a striking entry `i`. */
  function FirstStrike(w: World, plans: seq<ActionPlanItem>, i: nat): (k: nat)
    requires i < |plans| && Strikes(plans[i], w)
    ensures k <= i && Strikes(plans[k], w) && forall j :: 0 <= j < k ==> !Strikes(plans[j], w)
    decreases i
  {
    if exists j :: 0 <= j < i && Strikes(plans[j], w) then
      var j :| 0 <= j < i && Strikes(plans[j], w);
      FirstStrike(w, plans, j)
    else i
  }

  /**
   * Over all the characters' turns the dead stay as they were, nobody
   * appears or disappears, the clock and the player do not change, and
   * the events of the turn so far are kept in front.
   */
  lemma {:induction false} NpcTurnsSpec(w: World, ids: seq<string>, oracle: string -> Reply)
    ensures var w1 := NpcTurns(w, ids, oracle);
      w1.actors.Keys == w.actors.Keys && w1.actorOrder == w.actorOrder &&
      w1.record.time == w.record.time && w1.record.player == w.record.player &&
      (forall a :: a in w.actors && !w.actors[a].isAlive ==> w1.actors[a] == w.actors[a]) &&
      |w1.turnEvents| >= |w.turnEvents| && w1.turnEvents[..|w.turnEvents|] == w.turnEvents
    decreases |ids|
  {
    if ids != [] {
      var w1 := CharacterTurn(w, ids[0], oracle(ids[0]));
      CharacterTurnSpec(w, ids[0], oracle(ids[0]));
      NpcTurnsSpec(w1, ids[1..], oracle);
      var w2 := NpcTurns(w1, ids[1..], oracle);
      assert w2.turnEvents[..|w1.turnEvents|][..|w.turnEvents|] == w2.turnEvents[..|w.turnEvents|];
    }
  }

  // ---------------------------------------------------------------------
  // One player action
  // ---------------------------------------------------------------------

  /** The kinds of player action, as the `type` strings name them. */
  function Dispatch(w: World, kind: Option<string>, target: Option<string>, convId: string): World
  {
    if kind == Some("move") then PlayerMove(w, target)
    else if kind == Some("talk") then PlayerStartTalk(w, target, convId)
    else if kind == Some("investigate") then PlayerInvestigateAsWritten(w, target)
    else if kind == Some("wait") then PlayerWait(w)
    else w
  }

  /** The timeline check after the clock moved: the events, the state and the characters. */
  function CheckTimeline(w: World): World
  {
    var (events, pass, shown) := Trigger(w.timeline, Pass(w.record, w.actors));
    w.(timeline := events, record := pass.record, actors := pass.actors, turnEvents := w.turnEvents + shown)
  }

  /**
   * `execute_player_action`: the turn's events are cleared; `view_clues`
   * stops there; any other action (an unknown one does nothing) is
   * followed by one clock step, the timeline check and the characters'
   * turns.
   */
  function Execute(w: World, kind: Option<string>, target: Option<string>, convId: string,
                   oracle: string -> Reply): World
  {
    var w0 := w.(turnEvents := []);
    if kind == Some("view_clues") then w0
    else NpcTurns(CheckTimeline(AdvanceClock(Dispatch(w0, kind, target, convId))), w0.actorOrder, oracle)
  }

  /** The as-written search keeps the clock, the characters and their order. */
  lemma InvestigateAsWrittenKeepsTime(w: World, target: Option<string>)
    ensures PlayerInvestigateAsWritten(w, target).record.time == w.record.time
    ensures PlayerInvestigateAsWritten(w, target).actorOrder == w.actorOrder
    ensures PlayerInvestigateAsWritten(w, target).actors == w.actors
  {
    var loc := w.record.player.location;
    if target.Some? {
      InvestigateSpec(w.scenes, loc, target.value, w.record);
      var (sc1, clue) := Investigate(w.scenes, loc, target.value, w.record);
      if Present(clue) {
        DiscoverSpec(w.clues, w.record, clue.value, ME);
      }
    }
  }

  /** A search, as written and as corrected, moves neither the clock nor the characters. */
  lemma PlayerInvestigateKeepsTime(w: World, target: Option<string>)
    ensures PlayerInvestigateAsWritten(w, target).record.time == w.record.time
    ensures PlayerInvestigateAsWritten(w, target).actorOrder == w.actorOrder
    ensures PlayerInvestigateAsWritten(w, target).actors == w.actors
    ensures PlayerInvestigate(w, target).record.time == w.record.time
    ensures PlayerInvestigate(w, target).actorOrder == w.actorOrder
    ensures PlayerInvestigate(w, target).actors == w.actors
  {
    InvestigateAsWrittenKeepsTime(w, target);
  }

  /** No player action moves the clock; waiting is `_player_wait`. */
  lemma DispatchKeepsTime(w: World, kind: Option<string>, target: Option<string>, convId: string)
    ensures Dispatch(w, kind, target, convId).record.time == w.record.time
    ensures Dispatch(w, kind, target, convId).actorOrder == w.actorOrder
    ensures kind == Some("wait") ==> Dispatch(w, kind, target, convId) == PlayerWait(w)
  {
    if kind == Some("investigate") {
      PlayerInvestigateKeepsTime(w, target);
    }
  }

  /**
   * `view_clues` only clears the turn's events: the clock does not move
   * and nothing else changes. Every other action advances the clock by
   * exactly one period; the player's own event, when there is one, comes
   * first in the turn's events.
   */
  lemma ExecuteSpec(w: World, kind: Option<string>, target: Option<string>, convId: string, oracle: string -> Reply)
    ensures kind == Some("view_clues") ==> Execute(w, kind, target, convId, oracle) == w.(turnEvents := [])
    ensures kind != Some("view_clues") ==> Execute(w, kind, target, convId, oracle).record.time == Advance(w.record.time).0
    ensures kind == Some("wait") ==>
              var e := Execute(w, kind, target, convId, oracle).turnEvents;
              |e| >= 1 && e[0] == Ev(PlayerAction, "你决定观察一下周围的情况...", w.record.time.day,
                                    w.record.time.period.Value(), Some(w.record.player.location))
  {
    if kind != Some("view_clues") {
      var w0 := w.(turnEvents := []);
      var w1 := Dispatch(w0, kind, target, convId);
      DispatchKeepsTime(w0, kind, target, convId);
      var w2 := AdvanceClock(w1);
      var w3 := CheckTimeline(w2);
      TriggerGrows(w2.timeline, Pass(w2.record, w2.actors));
      NpcTurnsSpec(w3, w0.actorOrder, oracle);
      var w4 := NpcTurns(w3, w0.actorOrder, oracle);
      if kind == Some("wait") {
        assert |w1.turnEvents| == 1;
        assert w2.turnEvents[..1] == w1.turnEvents;
        assert w3.turnEvents[..|w2.turnEvents|] == w2.turnEvents;
        assert w4.turnEvents[..|w3.turnEvents|] == w3.turnEvents;
        assert w4.turnEvents[0] == w3.turnEvents[0] == w2.turnEvents[0];
      }
    }
  }

  // ---------------------------------------------------------------------
  // The actions offered to the player
  // ---------------------------------------------------------------------

  /** The `type` of an offered action. */
  datatype ActionKind = MoveTo | TalkTo | InvestigateAt | ViewClues | WaitTurn
  {
    /** The string the client sends back. */
    function Value(): string
    {
      match this
      case MoveTo => "move"
      case TalkTo => "talk"
      case InvestigateAt => "investigate"
      case ViewClues => "view_clues"
      case WaitTurn => "wait"
    }

    /** The position of the kind's group in the list. */
    function Rank(): nat
    {
      match this
      case MoveTo => 0
      case TalkTo => 1
      case InvestigateAt => 2
      case ViewClues => 3
      case WaitTurn => 4
    }
  }

  /** One offered action: its kind, label (title), target and, for a point, its description. */
  datatype AvailableAction = AvailableAction(kind: ActionKind, title: string, target: Option<string>,
                                             description: Option<string>)

  /** The offer to move along an open connection. */
  function MoveOf(c: DetSceneSystem.Connection): AvailableAction
  {
    AvailableAction(MoveTo, "前往 " + c.name, Some(c.id), None)
  }

  /** The move offers: one per open connection, in order. */
  function MoveActions(cs: seq<DetSceneSystem.Connection>): (r: seq<AvailableAction>)
    ensures forall i :: 0 <= i < |r| ==> r[i].kind == MoveTo
    ensures forall c :: c in cs && c.accessible ==> MoveOf(c) in r
    ensures forall a :: a in r ==> exists c :: c in cs && c.accessible && a == MoveOf(c)
  {
    if cs == [] then []
    else MoveActions(cs[..|cs| - 1]) + (if cs[|cs| - 1].accessible then [MoveOf(cs[|cs| - 1])] else [])
  }

  /** A character the player can talk to at `loc`: configured, alive and there. */
  predicate Here(w: World, id: string, loc: string)
  {
    id in w.actors && id in w.configs && w.actors[id].location == loc && w.actors[id].isAlive
  }

  /** The offer to talk to a character. */
  function TalkOf(w: World, id: string): AvailableAction
    requires id in w.configs
  {
    AvailableAction(TalkTo, "与 " + w.configs[id].name + " 对话", Some(id), None)
  }

  /** The talk offers: one per character here, in dictionary order (`_get_actors_at_location`). */
  function TalkActions(w: World, ids: seq<string>, loc: string): (r: seq<AvailableAction>)
    ensures forall i :: 0 <= i < |r| ==> r[i].kind == TalkTo
    ensures forall id :: id in ids && Here(w, id, loc) ==> TalkOf(w, id) in r
    ensures forall a :: a in r ==> exists id :: id in ids && Here(w, id, loc) && a == TalkOf(w, id)
  {
    if ids == [] then []
    else
      var id := ids[|ids| - 1];
      TalkActions(w, ids[..|ids| - 1], loc) + (if Here(w, id, loc) then [TalkOf(w, id)] else [])
  }

  /** The offer to investigate a point. */
  function InvestigateOf(p: PointInfo): AvailableAction
  {
    AvailableAction(InvestigateAt, "调查 " + p.name, Some(p.id), Some(p.description))
  }

  /** The investigation offers: one per point that can be investigated, in order. */
  function InvestigateActions(ps: seq<PointInfo>): (r: seq<AvailableAction>)
    ensures forall i :: 0 <= i < |r| ==> r[i].kind == InvestigateAt
    ensures forall p :: p in ps && p.canInvestigate ==> InvestigateOf(p) in r
    ensures forall a :: a in r ==> exists p :: p in ps && p.canInvestigate && a == InvestigateOf(p)
  {
    if ps == [] then []
    else InvestigateActions(ps[..|ps| - 1]) + (if ps[|ps| - 1].canInvestigate then [InvestigateOf(ps[|ps| - 1])] else [])
  }

  /** The offer to view the clues. */
  const VIEW_CLUES := AvailableAction(ViewClues, "查看线索", None, None)

  /** The offer to wait. */
  const WAIT := AvailableAction(WaitTurn, "等待（时间推进）", None, None)

  /** The clue offer, present only when the player holds a clue. */
  function ClueActions(w: World): seq<AvailableAction>
  {
    if w.record.player.clues != {} then [VIEW_CLUES] else []
  }

  /** The offers built from the connected places and the points of the player's place. */
  function Offers(w: World, loc: string, connected: seq<DetSceneSystem.Connection>, points: seq<PointInfo>): seq<AvailableAction>
  {
    MoveActions(connected) + TalkActions(w, w.actorOrder, loc) + InvestigateActions(points) + ClueActions(w) + [WAIT]
  }

  /** `_get_available_actions`: moves, talks, investigations, clues, and waiting last. */
  function AvailableActions(w: World): seq<AvailableAction>
  {
    var loc := w.record.player.location;
    Offers(w, loc, GetConnectedScenes(w.scenes, loc, w.record), GetInvestigationPoints(w.scenes, loc, w.record))
  }

  /** Offers listed group by group: the kinds' ranks never decrease. */
  predicate Grouped(s: seq<AvailableAction>)
  {
    forall i, j :: 0 <= i < j < |s| ==> s[i].kind.Rank() <= s[j].kind.Rank()
  }

  /** Joining two grouped lists whose ranks do not overlap backwards keeps them grouped. */
  lemma GroupedJoin(a: seq<AvailableAction>, b: seq<AvailableAction>, k: nat)
    requires Grouped(a) && Grouped(b)
    requires forall i :: 0 <= i < |a| ==> a[i].kind.Rank() <= k
    requires forall j :: 0 <= j < |b| ==> k <= b[j].kind.Rank()
    ensures Grouped(a + b)
  {
    forall i, j | 0 <= i < j < |a + b| ensures (a + b)[i].kind.Rank() <= (a + b)[j].kind.Rank() {
      if j < |a| {
      } else if i >= |a| {
        assert (a + b)[i] == b[i - |a|] && (a + b)[j] == b[j - |a|];
      } else {
        assert (a + b)[j] == b[j - |a|];
      }
    }
  }

  /** The offers come grouped, and waiting is offered always, last and once. */
  lemma OffersGrouped(w: World, loc: string, connected: seq<DetSceneSystem.Connection>, points: seq<PointInfo>)
    ensures var r := Offers(w, loc, connected, points);
      Grouped(r) && r != [] && r[|r| - 1] == WAIT &&
      forall i :: 0 <= i < |r| - 1 ==> r[i].kind != WaitTurn
  {
    var m := MoveActions(connected);
    var t := TalkActions(w, w.actorOrder, loc);
    var v := InvestigateActions(points);
    var c := ClueActions(w);
    GroupedJoin(m, t, 0);
    GroupedJoin(m + t, v, 1);
    GroupedJoin(m + t + v, c, 2);
    GroupedJoin(m + t + v + c, [WAIT], 3);
    var r := Offers(w, loc, connected, points);
    forall i | 0 <= i < |r| - 1 ensures r[i].kind != WaitTurn {
      assert r[i] == (m + t + v + c)[i];
    }
  }

  /** Membership in the offers is membership in one of their groups. */
  lemma InOffers(w: World, loc: string, connected: seq<DetSceneSystem.Connection>, points: seq<PointInfo>)
    ensures forall a :: a in Offers(w, loc, connected, points) <==>
              a in MoveActions(connected) || a in TalkActions(w, w.actorOrder, loc) ||
              a in InvestigateActions(points) || a in ClueActions(w) || a == WAIT
  {
  }

  /**
   * A move is offered for exactly the open connected places, a talk for
   * exactly the living configured characters here, an investigation for
   * exactly the points that can be investigated, and the clues exactly
   * when the player holds one.
   */
  lemma OffersSpec(w: World, loc: string, connected: seq<DetSceneSystem.Connection>, points: seq<PointInfo>)
    ensures var r := Offers(w, loc, connected, points);
      (forall c :: c in connected && c.accessible ==> MoveOf(c) in r) &&
      (forall a :: a in r && a.kind == MoveTo ==> exists c :: c in connected && c.accessible && a == MoveOf(c)) &&
      (forall id :: id in w.actorOrder && Here(w, id, loc) ==> TalkOf(w, id) in r) &&
      (forall a :: a in r && a.kind == TalkTo ==> exists id :: id in w.actorOrder && Here(w, id, loc) && a == TalkOf(w, id)) &&
      (forall p :: p in points && p.canInvestigate ==> InvestigateOf(p) in r) &&
      (forall a :: a in r && a.kind == InvestigateAt ==> exists p :: p in points && p.canInvestigate && a == InvestigateOf(p)) &&
      (VIEW_CLUES in r <==> w.record.player.clues != {})
  {
    InOffers(w, loc, connected, points);
  }

  /**
   * `_get_available_actions` lists, group by group: a move for exactly
   * the open places connected to the player's, a talk for exactly the
   * living configured characters there, an investigation for exactly the
   * points that can be investigated, the clues exactly when the player
   * holds one, and waiting always, last and once.
   */
  lemma AvailableActionsSpec(w: World)
    ensures var loc := w.record.player.location;
      var connected := GetConnectedScenes(w.scenes, loc, w.record);
      var points := GetInvestigationPoints(w.scenes, loc, w.record);
      var r := AvailableActions(w);
      Grouped(r) && r != [] && r[|r| - 1] == WAIT &&
      (forall i :: 0 <= i < |r| - 1 ==> r[i].kind != WaitTurn) &&
      (forall c :: c in connected && c.accessible ==> MoveOf(c) in r) &&
      (forall a :: a in r && a.kind == MoveTo ==> exists c :: c in connected && c.accessible && a == MoveOf(c)) &&
      (forall id :: id in w.actorOrder && Here(w, id, loc) ==> TalkOf(w, id) in r) &&
      (forall a :: a in r && a.kind == TalkTo ==> exists id :: id in w.actorOrder && Here(w, id, loc) && a == TalkOf(w, id)) &&
      (forall p :: p in points && p.canInvestigate ==> InvestigateOf(p) in r) &&
      (forall a :: a in r && a.kind == InvestigateAt ==> exists p :: p in points && p.canInvestigate && a == InvestigateOf(p)) &&
      (VIEW_CLUES in r <==> w.record.player.clues != {})
  {
    var loc := w.record.player.location;
    var connected := GetConnectedScenes(w.scenes, loc, w.record);
    var points := GetInvestigationPoints(w.scenes, loc, w.record);
    OffersGrouped(w, loc, connected, points);
    OffersSpec(w, loc, connected, points);
  }

  /** The move offers, one connection at a time. */
  method CollectMoves(connected: seq<DetSceneSystem.Connection>) returns (r: seq<AvailableAction>)
    ensures r == MoveActions(connected)
  {
    r := [];
    var i := 0;
    while i < |connected|
      invariant 0 <= i <= |connected| && r == MoveActions(connected[..i])
    {
      assert connected[..i + 1][..i] == connected[..i];
      if connected[i].accessible {
        r := r + [MoveOf(connected[i])];
      }
      i := i + 1;
    }
    assert connected[..i] == connected;
  }

  /** The talk offers, one character at a time in dictionary order. */
  method CollectTalks(w: World, loc: string) returns (r: seq<AvailableAction>)
    ensures r == TalkActions(w, w.actorOrder, loc)
  {
    r := [];
    var ids := w.actorOrder;
    var i := 0;
    while i < |ids|
      invariant 0 <= i <= |ids| && r == TalkActions(w, ids[..i], loc)
    {
      assert ids[..i + 1][..i] == ids[..i];
      var id := ids[i];
      if id in w.actors && w.actors[id].location == loc && w.actors[id].isAlive && id in w.configs {
        r := r + [TalkOf(w, id)];
      }
      i := i + 1;
    }
    assert ids[..i] == ids;
  }

  /** The investigation offers, one point at a time. */
  method CollectInvestigations(points: seq<PointInfo>) returns (r: seq<AvailableAction>)
    ensures r == InvestigateActions(points)
  {
    r := [];
    var i := 0;
    while i < |points|
      invariant 0 <= i <= |points| && r == InvestigateActions(points[..i])
    {
      assert points[..i + 1][..i] == points[..i];
      if points[i].canInvestigate {
        r := r + [InvestigateOf(points[i])];
      }
      i := i + 1;
    }
    assert points[..i] == points;
  }

  // ---------------------------------------------------------------------
  // Setting up the characters
  // ---------------------------------------------------------------------

  /** Where a character starts: its morning place, or the entrance hall. */
  function MorningPlace(c: ActorConfig): string
  {
    if "morning" in c.schedule then c.schedule["morning"] else "entrance_hall"
  }

  /** Every entry of the actors file parses (no unknown role). */
  predicate ActorsParse(raw: seq<(string, RawActor)>)
  {
    forall i :: 0 <= i < |raw| ==> ActorFromDict(raw[i].1).Some?
  }

  /** The characters set up by `_init_actors`: configurations, states, dictionary order and places. */
  datatype Cast = Cast(configs: map<string, ActorConfig>, actors: map<string, ActorState>, order: seq<string>, scenes: Scenes)

  /**
   * `_init_actors`: each entry's configuration, a fresh living state at
   * its starting place, and the character placed among that place's
   * occupants.
   */
  function InitActors(raw: seq<(string, RawActor)>, sc: Scenes): Cast
    requires ActorsParse(raw)
  {
    if raw == [] then Cast(map[], map[], [], sc)
    else Place(InitActors(raw[..|raw| - 1], sc), raw[|raw| - 1].0, ActorFromDict(raw[|raw| - 1].1).value)
  }

  /** One entry of `_init_actors`. */
  function Place(c: Cast, id: string, config: ActorConfig): (r: Cast)
    ensures r.configs == c.configs[id := config]
    ensures r.actors == c.actors[id := NewActorState(id, MorningPlace(config))]
    ensures r.order == AppendNew(c.order, id)
  {
    var loc := MorningPlace(config);
    Cast(c.configs[id := config], c.actors[id := NewActorState(id, loc)], AppendNew(c.order, id),
         Moved(c.scenes, id, "", loc))
  }

  /** A prefix of entries that all parse parses too. */
  lemma ActorsParsePrefix(raw: seq<(string, RawActor)>, n: nat)
    requires ActorsParse(raw) && n <= |raw|
    ensures ActorsParse(raw[..n])
  {
    forall k | 0 <= k < n ensures ActorFromDict(raw[..n][k].1).Some? {
      assert raw[..n][k] == raw[k];
    }
  }

  /** After set-up every character with a configuration has a state, and the order lists each once. */
  lemma {:induction false} InitActorsKeys(raw: seq<(string, RawActor)>, sc: Scenes)
    requires ActorsParse(raw)
    ensures var c := InitActors(raw, sc);
      c.configs.Keys == c.actors.Keys && Distinct(c.order) && (forall id :: id in c.order <==> id in c.configs)
  {
    if raw != [] {
      ActorsParsePrefix(raw, |raw| - 1);
      InitActorsKeys(raw[..|raw| - 1], sc);
      AppendNewSpec(InitActors(raw[..|raw| - 1], sc).order, raw[|raw| - 1].0);
    }
  }

  /** Every entry's id has a configuration. */
  predicate ConfiguresAll(c: Cast, raw: seq<(string, RawActor)>)
  {
    forall i :: 0 <= i < |raw| ==> raw[i].0 in c.configs
  }

  /** Every configured character comes from an entry. */
  predicate ConfiguresOnly(c: Cast, raw: seq<(string, RawActor)>)
  {
    forall id :: id in c.configs ==> exists i :: 0 <= i < |raw| && raw[i].0 == id
  }

  /** Every state is a fresh living one at the starting place of the character's configuration. */
  predicate FreshStates(c: Cast)
  {
    forall id :: id in c.actors ==> id in c.configs && c.actors[id] == NewActorState(id, MorningPlace(c.configs[id]))
  }

  /** After set-up every entry's id has a configuration. */
  lemma {:induction false} InitActorsConfiguresAll(raw: seq<(string, RawActor)>, sc: Scenes)
    requires ActorsParse(raw)
    ensures ConfiguresAll(InitActors(raw, sc), raw)
  {
    if raw != [] {
      var init := raw[..|raw| - 1];
      ActorsParsePrefix(raw, |raw| - 1);
      InitActorsConfiguresAll(init, sc);
      var c0, c := InitActors(init, sc), InitActors(raw, sc);
      assert c == Place(c0, raw[|raw| - 1].0, ActorFromDict(raw[|raw| - 1].1).value);
      forall i | 0 <= i < |raw| ensures raw[i].0 in c.configs {
        if i < |init| {
          assert init[i] == raw[i];
          assert init[i].0 in c0.configs;
        }
      }
    }
  }

  /** After set-up every configured character comes from an entry. */
  lemma {:induction false} InitActorsConfiguresOnly(raw: seq<(string, RawActor)>, sc: Scenes)
    requires ActorsParse(raw)
    ensures ConfiguresOnly(InitActors(raw, sc), raw)
  {
    if raw != [] {
      var init := raw[..|raw| - 1];
      ActorsParsePrefix(raw, |raw| - 1);
      InitActorsConfiguresOnly(init, sc);
      var c0, c := InitActors(init, sc), InitActors(raw, sc);
      var last := raw[|raw| - 1].0;
      assert c == Place(c0, last, ActorFromDict(raw[|raw| - 1].1).value);
      forall id | id in c.configs ensures exists i :: 0 <= i < |raw| && raw[i].0 == id {
        if id != last {
          assert id in c0.configs;
          var i :| 0 <= i < |init| && init[i].0 == id;
          assert raw[i] == init[i];
        }
      }
    }
  }

  /** After set-up every state is a fresh living one at its character's starting place. */
  lemma {:induction false} InitActorsStates(raw: seq<(string, RawActor)>, sc: Scenes)
    requires ActorsParse(raw)
    ensures FreshStates(InitActors(raw, sc))
  {
    if raw != [] {
      ActorsParsePrefix(raw, |raw| - 1);
      InitActorsStates(raw[..|raw| - 1], sc);
      var c0, c := InitActors(raw[..|raw| - 1], sc), InitActors(raw, sc);
      var id := raw[|raw| - 1].0;
      assert c == Place(c0, id, ActorFromDict(raw[|raw| - 1].1).value);
      forall x | x in c.actors
        ensures x in c.configs && c.actors[x] == NewActorState(x, MorningPlace(c.configs[x]))
      {
        if x != id {
          assert x in c0.actors;
        }
      }
    }
  }

  /** The loop of `_init_actors`, placing each character in its starting place. */
  method PlaceActors(places: SceneSystem, raw: seq<(string, RawActor)>)
    returns (configs: map<string, ActorConfig>, states: map<string, ActorState>, order: seq<string>)
    requires ActorsParse(raw)
    modifies places
    ensures Cast(configs, states, order, places.Snapshot()) == InitActors(raw, old(places.Snapshot()))
  {
    configs, states, order := map[], map[], [];
    var i := 0;
    while i < |raw|
      invariant 0 <= i <= |raw|
      invariant Cast(configs, states, order, places.Snapshot()) == InitActors(raw[..i], old(places.Snapshot()))
    {
      assert raw[..i + 1][..i] == raw[..i];
      ActorsParsePrefix(raw, i + 1);
      var (id, d) := raw[i];
      var config := ActorFromDict(d).value;
      configs := configs[id := config];
      var loc := MorningPlace(config);
      states := states[id := NewActorState(id, loc)];
      if id !in order {
        order := order + [id];
      }
      places.MoveActorToScene(id, "", loc);
      i := i + 1;
    }
    assert raw[..i] == raw;
  }

  // ---------------------------------------------------------------------
  // The manager
  // ---------------------------------------------------------------------

  /**
   * `GameManager`: the shared game state, the subsystems, the characters
   * and the events of the current turn, updated in place by each action.
   */
  class GameManager {
    const gs: GameState
    const timeSystem: TimeSystem
    const eventSystem: EventSystem
    const sceneSystem: SceneSystem
    const clueSystem: ClueSystem
    const conversationSystem: ConversationSystem
    var actorConfigs: map<string, ActorConfig>
    var actorStates: map<string, ActorState>
    var actorOrder: seq<string>
    var currentTurnEvents: seq<GameEvent>

    /** Everything a turn reads or changes, as one value. */
    function State(): World
      reads this, gs, eventSystem, sceneSystem, clueSystem, conversationSystem
    {
      World(gs.Record(), actorStates, actorOrder, actorConfigs, sceneSystem.Snapshot(), clueSystem.Snapshot(),
            conversationSystem.Snapshot(), eventSystem.events, currentTurnEvents)
    }

    /**
     * `GameManager()` once the settings are read: the starting time and
     * player, the timeline, the places, the clues, no conversation, and
     * the characters as `_init_actors` sets them up.
     */
    constructor(time: GameTime, player: PlayerState, maxDays: int, timeline: seq<TimelineEvent>,
                scenes: seq<(string, RawScene)>, clues: seq<(string, RawClue)>, actors: seq<(string, RawActor)>)
      requires forall i :: 0 <= i < |clues| ==> ClueFromDict(clues[i].1).Some?
      requires ActorsParse(actors)
      ensures var cast := InitActors(actors, DetSceneSystem.Build(scenes));
        State() == World(NewRecord(time, player), cast.actors, cast.order, cast.configs, cast.scenes,
                         DetClueSystem.Build(clues), EMPTY, timeline, [])
      ensures timeSystem.maxDays == maxDays
    {
      gs := new GameState(time, player);
      timeSystem := new TimeSystem(maxDays);
      eventSystem := new EventSystem(timeline);
      var places := new SceneSystem(scenes);
      var configs, states, order := PlaceActors(places, actors);
      actorConfigs, actorStates, actorOrder := configs, states, order;
      sceneSystem := places;
      clueSystem := new ClueSystem(clues);
      conversationSystem := new ConversationSystem();
      currentTurnEvents := [];
    }

    /** Appends to the turn's events. */
    method Append(e: GameEvent)
      modifies this
      ensures State() == Log(old(State()), e)
    {
      currentTurnEvents := currentTurnEvents + [e];
    }

    /** `_player_move`. */
    method MovePlayer(dest: Option<string>)
      modifies this, gs
      ensures State() == PlayerMove(old(State()), dest)
    {
      var t := gs.time;
      if dest.None? {
        Append(Ev(System, UNKNOWN_PLACE, t.day, t.period.Value(), None));
        return;
      }
      var (ok, message) := CheckAccessibility(sceneSystem.Snapshot(), dest.value, gs.Record());
      if !ok {
        Append(Ev(System, Refusal(message, dest.value), t.day, t.period.Value(), None));
        return;
      }
      gs.player := gs.player.(location := dest.value);
      Append(Ev(PlayerAction, "你来到了 " + SceneName(sceneSystem.Snapshot(), dest.value) + "。", t.day, t.period.Value(),
                Some(dest.value)));
    }

    /** `_player_start_talk`. */
    method StartTalk(actorId: Option<string>, convId: string)
      modifies this, conversationSystem
      ensures State() == PlayerStartTalk(old(State()), actorId, convId)
    {
      var t := gs.time;
      if actorId.None? || actorId.value !in actorStates || actorId.value !in actorConfigs {
        return;
      }
      var id := actorId.value;
      var name := actorConfigs[id].name;
      var here := gs.player.location;
      if actorStates[id].location != here {
        Append(Ev(System, name + " 不在这里。", t.day, t.period.Value(), None));
        return;
      }
      var conv := conversationSystem.StartConversation(convId, ME, id, here, t);
      Append(GameEvent(PlayerAction, "你开始与 " + name + " 交谈。", t.day, t.period.Value(), None, Some(here),
                       map["conversation_id" := Some(conv.id)]));
    }

    /**
     * `_player_investigate`: the point is searched, then its clue, if
     * any, is offered to the clue system.
     */
    method Search(pointId: Option<string>)
      modifies this, gs, sceneSystem, clueSystem
      ensures State() == PlayerInvestigateAsWritten(old(State()), pointId)
    {
      var loc := gs.player.location;
      var t := gs.time;
      var w := State();
      ghost var (sc1, found) := if pointId.Some? then Investigate(w.scenes, loc, pointId.value, w.record)
                                else (w.scenes, None);
      var clue: Option<string> := None;
      if pointId.Some? {
        clue := sceneSystem.InvestigatePoint(loc, pointId.value, gs.Record());
      }
      assert State() == w.(scenes := sc1) && clue == found;
      if Present(clue) {
        ghost var (cs1, r1, _) := Discover(w.clues, w.record, clue.value, ME);
        var info := clueSystem.DiscoverClue(clue.value, ME, gs);
        assert State() == w.(scenes := sc1, clues := cs1, record := r1);
        if info.Some? {
          Append(FoundEvent(info.value.name, info.value.description, t, loc, clue.value));
          return;
        }
      }
      Append(NothingFound(w, loc));
    }

    /** `_player_wait`. */
    method WaitHere()
      modifies this
      ensures State() == PlayerWait(old(State()))
    {
      Append(Ev(PlayerAction, "你决定观察一下周围的情况...", gs.time.day, gs.time.period.Value(), Some(gs.player.location)));
    }

    /** `_advance_time`. */
    method AdvanceTime()
      modifies this, gs
      ensures State() == AdvanceClock(old(State()))
    {
      var newDay := timeSystem.AdvanceTime(gs);
      if newDay {
        Append(Ev(Narrative, "新的一天开始了... 第" + Show(gs.time.day) + "天", gs.time.day, gs.time.period.Value(), None));
      }
    }

    /** The timeline check of `execute_player_action`; its events join the turn's. */
    method CheckEvents()
      modifies this, gs, eventSystem
      ensures State() == CheckTimeline(old(State()))
    {
      var shown, out := eventSystem.CheckAndTriggerEvents(gs, actorStates);
      actorStates := out;
      currentTurnEvents := currentTurnEvents + shown;
    }

    /** `_check_special_action`: the plan entries in order, the first that strikes taking effect. */
    method CheckSpecialAction(id: string, config: ActorConfig) returns (event: Option<GameEvent>)
      modifies this, gs
      ensures (State(), event) == SpecialAction(old(State()), id, config.name, config.actionPlan)
    {
      var plans := config.actionPlan;
      var k := 0;
      while k < |plans|
        invariant 0 <= k <= |plans| && State() == old(State())
        invariant SpecialAction(State(), id, config.name, plans[k..]) == SpecialAction(State(), id, config.name, plans)
      {
        assert plans[k..][0] == plans[k] && plans[k..][1..] == plans[k + 1..];
        var plan := plans[k];
        if plan.triggerDay == gs.time.day && plan.triggerTime == gs.time.period.Value() &&
           !(Present(plan.condition) && !HasFlag(gs.Record(), plan.condition.value)) &&
           plan.action == "kill" && Present(plan.target) {
          var v := plan.target.value;
          if v in actorStates && actorStates[v].isAlive {
            ghost var w := State();
            event := Some(GameEvent(Crime, "[隐藏] " + config.name + " 对 " + v + " 采取了行动", gs.time.day,
                                    gs.time.period.Value(), Some(id), plan.location,
                                    map["victim" := Some(v), "method" := plan.means]));
            actorStates := actorStates[v := actorStates[v].(isAlive := false)];
            gs.SetFlag(v + "_dead", VBool(true));
            if Present(plan.clueLeft) {
              gs.SetFlag(CLUE_AVAILABLE + plan.clueLeft.value, VBool(true));
            }
            assert State() == Strike(w, plan);
            return;
          }
        }
        k := k + 1;
      }
      event := None;
    }

    /** A character acting on its decision. */
    method Act(id: string, d: ActionDecision)
      requires id in actorStates && id in actorConfigs
      modifies this, sceneSystem
      ensures State() == NpcAct(old(State()), id, d)
    {
      var st := actorStates[id];
      var name := actorConfigs[id].name;
      var here := st.location;
      var t := gs.time;
      if d.action == Move && Present(d.target) {
        var to := d.target.value;
        actorStates := actorStates[id := AddMemory(st.(location := to), t.day, t.period.Value(),
                                                   "前往 " + to + "：" + d.reason, to, [])];
        sceneSystem.MoveActorToScene(id, here, to);
        if gs.player.location == here {
          Append(GameEvent(NpcAction, name + " 离开了。", t.day, t.period.Value(), Some(id), Some(here), map[]));
        }
      } else if d.action == TalkToPlayer && gs.player.location == here {
        Append(GameEvent(NpcAction, name + " 向你走来，似乎想说些什么...", t.day, t.period.Value(), Some(id), Some(here), map[]));
      }
    }

    /** `_execute_single_npc_turn`, with the model's reply given. */
    method ExecuteSingleNpcTurn(id: string, reply: Reply)
      requires id in actorStates && id in actorConfigs
      modifies this, sceneSystem
      ensures State() == NpcTurn(old(State()), id, reply)
    {
      var w := State();
      var d := DecideAction(actorStates[id], reply, GetAccessibleScenes(w.scenes, w.record),
                            PeopleAt(w, id, actorStates[id].location));
      Act(id, d);
    }

    /** One character's turn in `_execute_npc_turns`. */
    method TakeTurn(id: string, reply: Reply)
      modifies this, gs, sceneSystem
      ensures State() == CharacterTurn(old(State()), id, reply)
    {
      if id !in actorStates || !actorStates[id].isAlive || id !in actorConfigs {
        return;
      }
      var config := actorConfigs[id];
      if |config.actionPlan| > 0 {
        ghost var w := State();
        var event := CheckSpecialAction(id, config);
        if event.Some? {
          Append(event.value);
          return;
        }
        SpecialActionSpec(w, id, config.name, config.actionPlan);
      }
      ExecuteSingleNpcTurn(id, reply);
    }

    /** `_execute_npc_turns`: every character in dictionary order. */
    method ExecuteNpcTurns(oracle: string -> Reply)
      modifies this, gs, sceneSystem
      ensures State() == NpcTurns(old(State()), old(actorOrder), oracle)
    {
      var ids := actorOrder;
      var i := 0;
      while i < |ids|
        invariant 0 <= i <= |ids|
        invariant NpcTurns(State(), ids[i..], oracle) == NpcTurns(old(State()), ids, oracle)
      {
        assert ids[i..][0] == ids[i] && ids[i..][1..] == ids[i + 1..];
        TakeTurn(ids[i], oracle(ids[i]));
        i := i + 1;
      }
    }

    /**
     * `execute_player_action`: the turn's events are cleared; `view_clues`
     * stops there; otherwise the action, one clock step, the timeline
     * check and the characters' turns.
     */
    method ExecutePlayerAction(kind: Option<string>, target: Option<string>, convId: string, oracle: string -> Reply)
      modifies this, gs, eventSystem, sceneSystem, clueSystem, conversationSystem
      ensures State() == Execute(old(State()), kind, target, convId, oracle)
    {
      currentTurnEvents := [];
      if kind == Some("view_clues") {
        return;
      }
      ghost var w0 := State();
      Perform(kind, target, convId);
      DispatchKeepsTime(w0, kind, target, convId);
      ghost var w1 := State();
      AdvanceTime();
      assert State() == AdvanceClock(w1);
      ghost var w2 := State();
      CheckEvents();
      assert State() == CheckTimeline(w2) && actorOrder == w0.actorOrder;
      ExecuteNpcTurns(oracle);
    }

    /** The player's own action in `execute_player_action`; an unknown kind does nothing. */
    method Perform(kind: Option<string>, target: Option<string>, convId: string)
      modifies this, gs, sceneSystem, clueSystem, conversationSystem
      ensures State() == Dispatch(old(State()), kind, target, convId)
    {
      if kind == Some("move") {
        MovePlayer(target);
      } else if kind == Some("talk") {
        StartTalk(target, convId);
      } else if kind == Some("investigate") {
        Search(target);
      } else if kind == Some("wait") {
        WaitHere();
      }
    }

    /** `_get_available_actions`. */
    method GetAvailableActions() returns (actions: seq<AvailableAction>)
      ensures actions == AvailableActions(State())
    {
      var w := State();
      var loc := gs.player.location;
      var moves := CollectMoves(GetConnectedScenes(w.scenes, loc, w.record));
      var talks := CollectTalks(w, loc);
      var searches := CollectInvestigations(GetInvestigationPoints(w.scenes, loc, w.record));
      actions := moves + talks + searches + ClueActions(w) + [WAIT];
    }
  }
}
