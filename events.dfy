/**
 * Event records shared by both games: the runtime `GameEvent` shown to
 * players and the scripted `TimelineEvent` of the detective scenario,
 * with the condition and effect dictionaries it carries read as records.
 */
module Events {
  import opened Common

  datatype EventType = Narrative | Critical | Crime | Hidden | PlayerAction | NpcAction | System

  /** A runtime event; `metadata` values are strings or `None`. */
  datatype GameEvent = GameEvent(
    eventType: EventType,
    text: string,
    day: int,
    time: string,
    actor: Option<string>,
    location: Option<string>,
    metadata: map<string, Option<string>>)

  /** An event with no actor and no metadata, as most call sites build them. */
  function Ev(t: EventType, text: string, day: int, time: string, location: Option<string>): (e: GameEvent)
    ensures e.eventType == t && e.text == text && e.day == day && e.time == time
    ensures e.location == location && e.actor.None? && e.metadata == map[]
  {
    GameEvent(t, text, day, time, None, location, map[])
  }

  /**
   * The `condition` dictionary of a timeline event: the keys the event
   * system consults. A dictionary without any of them behaves like `{}`.
   */
  datatype Condition = Condition(flag: Option<string>, afterEvent: Option<string>, beforeEvent: Option<string>)

  /**
   * One entry of the `effects` list. An absent key is an empty dictionary
   * or list, which applies nothing.
   */
  datatype Effect = Effect(
    setFlag: map<string, Value>,
    actorStatus: map<string, string>,
    clueAvailable: seq<string>)

  /** A scripted world event of the detective scenario. */
  datatype TimelineEvent = TimelineEvent(
    id: string,
    triggerDay: int,
    triggerTime: string,
    eventType: EventType,
    text: Option<string>,
    condition: Condition,
    effects: seq<Effect>,
    actor: Option<string>,
    victim: Option<string>,
    triggered: bool)
}
