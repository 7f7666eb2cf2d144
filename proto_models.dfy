/**
 * The prototype detective game's records (`detective_game/backend/models.py`):
 * the player's action types, the turn-log events, clues, locations,
 * personas and the game state with its defaults, and the per-location
 * snapshot sent to clients.
 */
module ProtoModels {
  import opened Common

  /** `ActionType`: what the player can do in a turn. */
  datatype ActionType = Move | Talk | Investigate | Reflect | EndTurn
  {
    function Value(): string
    {
      match this
      case Move => "move"
      case Talk => "talk"
      case Investigate => "investigate"
      case Reflect => "reflect"
      case EndTurn => "end_turn"
    }
  }

  /** `ActionType(s)`: the member with that value; `None` where Python raises `ValueError`. */
  function ParseAction(s: string): (r: Option<ActionType>)
    ensures r.Some? ==> r.value.Value() == s
    ensures forall a: ActionType :: a.Value() == s ==> r == Some(a)
  {
    if s == "move" then Some(Move)
    else if s == "talk" then Some(Talk)
    else if s == "investigate" then Some(Investigate)
    else if s == "reflect" then Some(Reflect)
    else if s == "end_turn" then Some(EndTurn)
    else None
  }

  /** `EventType`: the kinds of entries in the turn log. */
  datatype EventKind = PlayerAction | NpcAction | Story | ClueFound | System
  {
    function Value(): string
    {
      match this
      case PlayerAction => "player_action"
      case NpcAction => "npc_action"
      case Story => "story"
      case ClueFound => "clue_found"
      case System => "system"
    }
  }

  /** `Event`: one entry of the turn log. */
  datatype Event = Event(kind: EventKind, text: string, actor: Option<string>, location: Option<string>,
                         metadata: map<string, string>)

  /** `Event(kind, text)`: no actor, no location, no metadata. */
  function NewEvent(kind: EventKind, text: string): (e: Event)
    ensures e.kind == kind && e.text == text
    ensures e.actor.None? && e.location.None? && e.metadata == map[]
  {
    Event(kind, text, None, None, map[])
  }

  /** `Clue`: a discovered clue; `important` defaults to false. */
  datatype Clue = Clue(clueId: string, summary: string, discoveredBy: string, important: bool)

  /** `Location`: a place with its tags and occupants. */
  datatype Location = Location(name: string, description: string, tags: set<string>, occupants: set<string>)

  /** `PersonaConfig`: a non-player character as configured. */
  datatype PersonaConfig = PersonaConfig(name: string, traits: seq<string>, backstory: string, defaultLocation: string)

  /** `PersonaState`: a non-player character during play. */
  datatype PersonaState = PersonaState(name: string, location: string, scratch: map<string, string>,
                                       knownClues: set<string>)

  /**
   * `GameState`. `locations` is a dictionary, so its keys have an order
   * (insertion order); `locationOrder` records it.
   */
  datatype GameState = GameState(
    turn: int,
    currentTime: string,
    playerLocation: string,
    locations: map<string, Location>,
    locationOrder: seq<string>,
    clues: map<string, Clue>,
    storyFlags: map<string, bool>,
    personas: map<string, PersonaState>)

  /** `GameState()`: turn 0, the first morning, in the town square, with nothing else yet. */
  function DefaultGameState(): (g: GameState)
    ensures g.turn == 0 && g.currentTime == "Day 1 - Morning" && g.playerLocation == "Town Square"
    ensures g.locations == map[] && g.locationOrder == [] && g.clues == map[] && g.storyFlags == map[] &&
            g.personas == map[]
  {
    GameState(0, "Day 1 - Morning", "Town Square", map[], [], map[], map[], map[])
  }

  /** One entry of `location_snapshot`. */
  datatype LocationView = LocationView(description: string, tags: seq<string>, occupants: seq<string>)

  /** `GameState.location_snapshot`: per location, its description and its sorted tags and occupants. */
  ghost function LocationSnapshot(g: GameState): map<string, LocationView>
  {
    map name | name in g.locations ::
      LocationView(g.locations[name].description, Sorted(g.locations[name].tags), Sorted(g.locations[name].occupants))
  }

  /** `v` shows `loc`: its description, and its tags and occupants each once in ascending order. */
  ghost predicate Shows(v: LocationView, loc: Location)
  {
    v.description == loc.description &&
    Ascending(v.tags) && (forall t :: t in v.tags <==> t in loc.tags) &&
    Ascending(v.occupants) && (forall p :: p in v.occupants <==> p in loc.occupants)
  }

  /** The snapshot has exactly one entry per location, and each entry shows its location. */
  lemma LocationSnapshotSpec(g: GameState)
    ensures LocationSnapshot(g).Keys == g.locations.Keys
    ensures forall name :: name in g.locations ==> Shows(LocationSnapshot(g)[name], g.locations[name])
  {
    forall name | name in g.locations
      ensures Shows(LocationSnapshot(g)[name], g.locations[name])
    {
      SortedSpec(g.locations[name].tags);
      SortedSpec(g.locations[name].occupants);
    }
  }
}
