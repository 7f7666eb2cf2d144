/**
 * `ActorBrain`: what a character observes, how the reply of the language
 * model is turned into a checked decision, and how impressions
 * accumulate. The model's reply is a parameter, already cut down to the
 * JSON object the parser extracts.
 */
module DetActorBrain {
  import opened Common
  import opened Events
  import opened DetGameState
  import opened DetActor

  /** `NPCAction`. */
  datatype NPCAction = Move | TalkToNpc | TalkToPlayer | Wait | Special
  {
    /** The enum's string value. */
    function Value(): string
    {
      match this
      case Move => "move"
      case TalkToNpc => "talk_to_npc"
      case TalkToPlayer => "talk_to_player"
      case Wait => "wait"
      case Special => "special"
    }
  }

  /** `ActionDecision`. */
  datatype ActionDecision = ActionDecision(action: NPCAction, target: Option<string>, reason: string)

  /**
   * The reply as the parser sees it: no `{...}` in the text, an object the
   * JSON decoder rejects, or an object with its `action`, `target` and
   * `reason` keys (`None` when absent).
   */
  datatype Reply =
    | NoObject
    | Malformed
    | Object(action: Option<string>, target: Option<string>, reason: Option<string>)

  /** The reason given when the reply yields nothing usable. */
  const OBSERVING := "观察周围情况"

  /** The reason given for a dead character. */
  const DEAD := "已死亡"

  /** Who the player is, and the Chinese word the model may use for them. */
  const PLAYER := "player"
  const PLAYER_ZH := "玩家"

  /** The fallback decision: wait and observe. */
  const WAIT_AND_OBSERVE := ActionDecision(Wait, None, OBSERVING)

  /**
   * `_parse_decision_response`: a MOVE to an available location, a TALK
   * to someone present (the player under either name becomes a talk to
   * `player`), and otherwise a wait. The keyword is compared after
   * upper-casing; an absent action reads as WAIT and an absent target or
   * reason as the empty string. Only membership in the list of people
   * present matters, so it is given as a set.
   */
  function ParseDecision(reply: Reply, availableLocations: seq<string>, peoplePresent: set<string>): ActionDecision
  {
    match reply
    case NoObject => WAIT_AND_OBSERVE
    case Malformed => WAIT_AND_OBSERVE
    case Object(a, t, r) =>
      var action := Upper(a.UnwrapOr("WAIT"));
      var target := t.UnwrapOr("");
      var reason := r.UnwrapOr("");
      if action == "MOVE" && target in availableLocations then ActionDecision(Move, Some(target), reason)
      else if action == "TALK" && target in peoplePresent then
        if target == PLAYER || target == PLAYER_ZH then ActionDecision(TalkToPlayer, Some(PLAYER), reason)
        else ActionDecision(TalkToNpc, Some(target), reason)
      else WAIT_AND_OBSERVE
  }

  /**
   * The parser's guarantees: a move goes to an available location; a talk
   * to a character is to someone present; a talk to the player only when
   * the player is present under one of their names; anything else is the
   * fallback wait, and no reply yields a special action. Each direction
   * holds: a well-formed MOVE or TALK with a valid target is accepted.
   */
  lemma ParseDecisionSpec(reply: Reply, availableLocations: seq<string>, peoplePresent: set<string>)
    ensures var d := ParseDecision(reply, availableLocations, peoplePresent);
      d.action != Special &&
      (d.action == Move ==> d.target.Some? && d.target.value in availableLocations) &&
      (d.action == TalkToNpc ==> d.target.Some? && d.target.value in peoplePresent &&
                                 d.target.value != PLAYER && d.target.value != PLAYER_ZH) &&
      (d.action == TalkToPlayer ==> d.target == Some(PLAYER) && (PLAYER in peoplePresent || PLAYER_ZH in peoplePresent)) &&
      (d.action == Wait ==> d == WAIT_AND_OBSERVE) &&
      (!reply.Object? ==> d == WAIT_AND_OBSERVE)
    ensures reply.Object? && Upper(reply.action.UnwrapOr("WAIT")) == "MOVE" && reply.target.UnwrapOr("") in availableLocations ==>
              ParseDecision(reply, availableLocations, peoplePresent) ==
              ActionDecision(Move, Some(reply.target.UnwrapOr("")), reply.reason.UnwrapOr(""))
    ensures reply.Object? && Upper(reply.action.UnwrapOr("WAIT")) == "TALK" && reply.target.UnwrapOr("") in peoplePresent ==>
              ParseDecision(reply, availableLocations, peoplePresent).action in {TalkToNpc, TalkToPlayer}
  {
  }

  /** The keyword is matched case-insensitively: `move`, `Move` and `MOVE` decide alike. */
  lemma ParseIgnoresCase(a1: string, a2: string, t: Option<string>, r: Option<string>,
                         availableLocations: seq<string>, peoplePresent: set<string>)
    requires Upper(a1) == Upper(a2)
    ensures ParseDecision(Object(Some(a1), t, r), availableLocations, peoplePresent) ==
            ParseDecision(Object(Some(a2), t, r), availableLocations, peoplePresent)
  {
  }

  /**
   * `decide_action` once the model has replied: a dead character waits,
   * whatever the reply; a living one acts on the parsed reply.
   */
  function DecideAction(actor: ActorState, reply: Reply, availableLocations: seq<string>,
                        peoplePresent: set<string>): (d: ActionDecision)
    ensures !actor.isAlive ==> d == ActionDecision(Wait, None, DEAD)
    ensures actor.isAlive ==> d == ParseDecision(reply, availableLocations, peoplePresent)
  {
    if !actor.isAlive then ActionDecision(Wait, None, DEAD) else ParseDecision(reply, availableLocations, peoplePresent)
  }

  /** How many of the latest events a character looks at. */
  const EVENT_WINDOW := 10

  /** How many memories a character recalls. */
  const RECALL := 5

  /** An event a character at `location` notices: one there, or one with no location. */
  predicate Noticed(e: GameEvent, location: string)
  {
    (e.location.Some? && e.location.value == location) || !Present(e.location)
  }

  /** The events of `es` a character at `location` notices, in order. */
  function NoticedOf(es: seq<GameEvent>, location: string): (r: seq<GameEvent>)
    ensures forall e :: e in r <==> e in es && Noticed(e, location)
    ensures |r| <= |es|
  {
    if es == [] then [] else NoticedOf(es[..|es| - 1], location) + (if Noticed(es[|es| - 1], location) then [es[|es| - 1]] else [])
  }

  /** The memory lines: day, period and content. */
  function MemoryLine(m: MemoryEntry): string
  {
    "第" + Show(m.day) + "天" + m.time + ": " + m.content
  }

  /** The memory lines of a run of memories, one each, in order. */
  function MemoryLines(ms: seq<MemoryEntry>): (ls: seq<string>)
    ensures |ls| == |ms| && forall i :: 0 <= i < |ms| ==> ls[i] == MemoryLine(ms[i])
  {
    if ms == [] then []
    else
      var init := MemoryLines(ms[..|ms| - 1]);
      init + [MemoryLine(ms[|ms| - 1])]
  }

  /** `Observations`; the events are kept as records and the known clues as the set they come from. */
  datatype Observations = Observations(
    currentTime: string,
    currentDay: int,
    location: string,
    sceneDescription: string,
    peoplePresent: set<string>,
    recentEvents: seq<GameEvent>,
    schedule: map<string, string>,
    memory: seq<string>,
    impressions: map<string, string>,
    knownClues: set<string>)

  /**
   * `gather_observations`: among the last ten events, those the character
   * notices, in order, and the lines of its five latest memories.
   */
  method GatherObservations(config: ActorConfig, actor: ActorState, time: GameTime, sceneDescription: string,
                            people: set<string>, recentEvents: seq<GameEvent>) returns (obs: Observations)
    ensures obs.recentEvents == NoticedOf(PyTail(recentEvents, EVENT_WINDOW), actor.location)
    ensures obs.memory == MemoryLines(GetRecentMemory(actor, RECALL))
    ensures obs.currentTime == time.period.Chinese() && obs.currentDay == time.day && obs.location == actor.location
    ensures obs.peoplePresent == people && obs.schedule == config.schedule && obs.impressions == actor.impressions
    ensures obs.knownClues == actor.knownClues && obs.sceneDescription == sceneDescription
  {
    var relevant := FilterNoticed(PyTail(recentEvents, EVENT_WINDOW), actor.location);
    var lines := RecallLines(GetRecentMemory(actor, RECALL));
    obs := Observations(time.period.Chinese(), time.day, actor.location, sceneDescription, people, relevant,
                        config.schedule, lines, actor.impressions, actor.knownClues);
  }

  /** The event loop of `gather_observations`. */
  method FilterNoticed(window: seq<GameEvent>, location: string) returns (relevant: seq<GameEvent>)
    ensures relevant == NoticedOf(window, location)
  {
    relevant := [];
    var i := 0;
    while i < |window|
      invariant 0 <= i <= |window|
      invariant relevant == NoticedOf(window[..i], location)
    {
      assert window[..i + 1][..i] == window[..i];
      var e := window[i];
      if (e.location.Some? && e.location.value == location) || !Present(e.location) {
        relevant := relevant + [e];
      }
      i := i + 1;
    }
    assert window[..i] == window;
  }

  /** The memory loop of `gather_observations`. */
  method RecallLines(recalled: seq<MemoryEntry>) returns (lines: seq<string>)
    ensures lines == MemoryLines(recalled)
  {
    lines := [];
    var j := 0;
    while j < |recalled|
      invariant 0 <= j <= |recalled|
      invariant lines == MemoryLines(recalled[..j])
    {
      assert recalled[..j + 1][..j] == recalled[..j];
      lines := lines + [MemoryLine(recalled[j])];
      j := j + 1;
    }
    assert recalled[..j] == recalled;
  }

  /**
   * What a character observes is at most ten events, each among the last
   * ten and noticed from where it stands, and every such event is there.
   */
  lemma ObservedEventsSpec(recentEvents: seq<GameEvent>, location: string, e: GameEvent)
    ensures |NoticedOf(PyTail(recentEvents, EVENT_WINDOW), location)| <= EVENT_WINDOW
    ensures e in NoticedOf(PyTail(recentEvents, EVENT_WINDOW), location) <==>
              e in recentEvents[|recentEvents| - |PyTail(recentEvents, EVENT_WINDOW)|..] && Noticed(e, location)
  {
  }

  /**
   * The brain's `update_impression`: a new impression is appended to an
   * existing non-empty one after "; ", or becomes the impression.
   */
  function AccumulateImpression(actor: ActorState, targetId: string, summary: string): (r: ActorState)
    ensures targetId in r.impressions
    ensures targetId in actor.impressions && actor.impressions[targetId] != "" ==>
              r.impressions[targetId] == actor.impressions[targetId] + "; " + summary
    ensures !(targetId in actor.impressions && actor.impressions[targetId] != "") ==> r.impressions[targetId] == summary
  {
    var current := if targetId in actor.impressions then actor.impressions[targetId] else "";
    UpdateImpression(actor, targetId, if current != "" then current + "; " + summary else summary)
  }

  /**
   * Impressions only grow: the old impression is kept as a prefix and the
   * summary ends the new one; nothing else about the character changes.
   */
  lemma ImpressionsAccumulate(actor: ActorState, targetId: string, summary: string, other: string)
    ensures var r := AccumulateImpression(actor, targetId, summary);
      var old_ := if targetId in actor.impressions then actor.impressions[targetId] else "";
      var now := r.impressions[targetId];
      |now| >= |old_| + |summary| && now[..|old_|] == old_ && now[|now| - |summary|..] == summary &&
      (other != targetId ==> (other in r.impressions <==> other in actor.impressions)) &&
      (other != targetId && other in actor.impressions ==> r.impressions[other] == actor.impressions[other]) &&
      r.(impressions := actor.impressions) == actor
  {
    var r := AccumulateImpression(actor, targetId, summary);
    var old_ := if targetId in actor.impressions then actor.impressions[targetId] else "";
    if old_ != "" {
      assert r.impressions[targetId] == old_ + "; " + summary;
      assert (old_ + "; " + summary)[..|old_|] == old_;
    }
  }
}
