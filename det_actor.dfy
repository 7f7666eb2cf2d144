/**
 * The detective scenario's characters: the configuration read from the
 * scenario files (`ActorConfig.from_dict`, with its defaults) and the
 * runtime state of a character with its bounded memory and impressions.
 * The parsed YAML dictionary is given as a record whose absent keys are
 * `None`; the relationship trust, a float, is not modelled.
 */
module DetActor {
  import opened Common

  datatype ActorRole = Detective | Suspect | Witness | Victim | Murderer

  /** `ActorRole(value)`: `None` where Python raises `ValueError`. */
  function RoleOf(s: string): (r: Option<ActorRole>)
    ensures r.Some? <==> s in {"detective", "suspect", "witness", "victim", "murderer"}
    ensures s == "suspect" ==> r == Some(Suspect)
    ensures s == "murderer" ==> r == Some(Murderer)
  {
    if s == "detective" then Some(Detective)
    else if s == "suspect" then Some(Suspect)
    else if s == "witness" then Some(Witness)
    else if s == "victim" then Some(Victim)
    else if s == "murderer" then Some(Murderer)
    else None
  }

  /** `Relationship` without its float trust. */
  datatype Relationship = Relationship(targetId: string, kind: string, note: string)

  /** `ActionPlanItem`: a scheduled special action of a character (`means` is the `method` key). */
  datatype ActionPlanItem = ActionPlanItem(
    triggerDay: int,
    triggerTime: string,
    action: string,
    target: Option<string>,
    location: Option<string>,
    means: Option<string>,
    condition: Option<string>,
    clueLeft: Option<string>)

  /** `ActorConfig`. */
  datatype ActorConfig = ActorConfig(
    id: string,
    name: string,
    role: ActorRole,
    occupation: string,
    description: string,
    secret: string,
    guilt: Option<string>,
    goal: string,
    traits: seq<string>,
    speakingStyle: string,
    backstory: string,
    relationships: map<string, Relationship>,
    schedule: map<string, string>,
    actionPlan: seq<ActionPlanItem>)

  /** A relationship entry as read from the file. */
  datatype RawRelationship = RawRelationship(kind: Option<string>, note: Option<string>)

  /** A plan entry as read from the file; `trigger` absent reads as all keys absent. */
  datatype RawPlan = RawPlan(
    triggerDay: Option<int>,
    triggerTime: Option<string>,
    action: Option<string>,
    target: Option<string>,
    location: Option<string>,
    means: Option<string>,
    condition: Option<string>,
    clueLeft: Option<string>)

  /**
   * A character entry as read from the file. The keys of the `public`,
   * `private` and `personality` sub-dictionaries are flattened (an absent
   * sub-dictionary has every key absent); `actionPlan` is `None` when the
   * key is absent or null; `relationships` keeps the file's key order.
   */
  datatype RawActor = RawActor(
    id: Option<string>,
    name: Option<string>,
    role: Option<string>,
    occupation: Option<string>,
    description: Option<string>,
    secret: Option<string>,
    guilt: Option<string>,
    goal: Option<string>,
    traits: Option<seq<string>>,
    speakingStyle: Option<string>,
    backstory: Option<string>,
    relationships: seq<(string, RawRelationship)>,
    schedule: map<string, string>,
    actionPlan: Option<seq<RawPlan>>)

  /** One plan entry with its defaults: day 1, the night, no action. */
  function PlanFromDict(p: RawPlan): (r: ActionPlanItem)
    ensures r.triggerDay == p.triggerDay.UnwrapOr(1)
    ensures r.triggerTime == p.triggerTime.UnwrapOr("night")
    ensures r.action == p.action.UnwrapOr("")
    ensures r.target == p.target && r.condition == p.condition && r.clueLeft == p.clueLeft
  {
    ActionPlanItem(p.triggerDay.UnwrapOr(1), p.triggerTime.UnwrapOr("night"), p.action.UnwrapOr(""),
                   p.target, p.location, p.means, p.condition, p.clueLeft)
  }

  /** The `relationships` loop: later entries for the same target win. */
  function Relationships(rs: seq<(string, RawRelationship)>): (m: map<string, Relationship>)
    ensures m.Keys == set i | 0 <= i < |rs| :: rs[i].0
  {
    if rs == [] then map[]
    else
      var (id, raw) := rs[|rs| - 1];
      Relationships(rs[..|rs| - 1])[id := Relationship(id, raw.kind.UnwrapOr("acquaintance"), raw.note.UnwrapOr(""))]
  }

  /** Each relationship comes from the last entry for its target, "acquaintance" by default. */
  lemma {:induction false} RelationshipsSpec(rs: seq<(string, RawRelationship)>, i: int)
    requires 0 <= i < |rs| && forall j :: i < j < |rs| ==> rs[j].0 != rs[i].0
    ensures Relationships(rs)[rs[i].0] ==
            Relationship(rs[i].0, rs[i].1.kind.UnwrapOr("acquaintance"), rs[i].1.note.UnwrapOr(""))
  {
    if i < |rs| - 1 {
      RelationshipsSpec(rs[..|rs| - 1], i);
    }
  }

  /** `[PlanFromDict(p) for p in plans]`. */
  function Plans(ps: seq<RawPlan>): (r: seq<ActionPlanItem>)
    ensures |r| == |ps| && forall i :: 0 <= i < |ps| ==> r[i] == PlanFromDict(ps[i])
  {
    if ps == [] then [] else [PlanFromDict(ps[0])] + Plans(ps[1..])
  }

  /**
   * `ActorConfig.from_dict`: `None` when the role is not one of the five
   * (Python raises there); otherwise every absent key takes its default,
   * the role "suspect".
   */
  function ActorFromDict(d: RawActor): (r: Option<ActorConfig>)
    ensures r.Some? <==> RoleOf(d.role.UnwrapOr("suspect")).Some?
    ensures d.role.None? ==> r.Some? && r.value.role == Suspect
    ensures r.Some? ==> r.value.id == d.id.UnwrapOr("") && r.value.name == d.name.UnwrapOr("")
    ensures r.Some? ==> r.value.guilt == d.guilt && r.value.schedule == d.schedule
    ensures r.Some? ==> r.value.relationships.Keys == set i | 0 <= i < |d.relationships| :: d.relationships[i].0
    ensures r.Some? ==> r.value.actionPlan == Plans(d.actionPlan.UnwrapOr([]))
  {
    match RoleOf(d.role.UnwrapOr("suspect"))
    case None => None
    case Some(role) =>
      Some(ActorConfig(
        d.id.UnwrapOr(""), d.name.UnwrapOr(""), role,
        d.occupation.UnwrapOr(""), d.description.UnwrapOr(""),
        d.secret.UnwrapOr(""), d.guilt, d.goal.UnwrapOr(""),
        d.traits.UnwrapOr([]), d.speakingStyle.UnwrapOr(""), d.backstory.UnwrapOr(""),
        Relationships(d.relationships), d.schedule, Plans(d.actionPlan.UnwrapOr([]))))
  }

  /** `MemoryEntry`. */
  datatype MemoryEntry = MemoryEntry(day: int, time: string, content: string, location: string,
                                     actorsInvolved: seq<string>)

  /** `ActorState`: a character's runtime state. */
  datatype ActorState = ActorState(
    id: string,
    location: string,
    isAlive: bool,
    knownClues: set<string>,
    impressions: map<string, string>,
    memory: seq<MemoryEntry>,
    currentConversation: Option<string>)

  /** `ActorState(id=..., location=...)`: alive, knowing nothing, remembering nothing. */
  function NewActorState(id: string, location: string): (a: ActorState)
    ensures a.id == id && a.location == location && a.isAlive
    ensures a.knownClues == {} && a.impressions == map[] && a.memory == [] && a.currentConversation.None?
  {
    ActorState(id, location, true, {}, map[], [], None)
  }

  /** How many memories a character keeps. */
  const MEMORY_LIMIT := 50

  /**
   * `add_memory`: the entry goes last, and only the 50 most recent
   * entries are kept.
   */
  function AddMemory(a: ActorState, day: int, time: string, content: string, location: string,
                     actors: seq<string>): (r: ActorState)
    ensures r.memory != [] && r.memory[|r.memory| - 1] == MemoryEntry(day, time, content, location, actors)
    ensures |r.memory| == if |a.memory| < MEMORY_LIMIT then |a.memory| + 1 else MEMORY_LIMIT
    ensures r.memory[..|r.memory| - 1] == a.memory[|a.memory| + 1 - |r.memory|..]
    ensures r.(memory := a.memory) == a
  {
    var m := a.memory + [MemoryEntry(day, time, content, location, actors)];
    var kept := if |m| > MEMORY_LIMIT then m[|m| - MEMORY_LIMIT..] else m;
    assert kept[..|kept| - 1] == a.memory[|a.memory| + 1 - |kept|..];
    a.(memory := kept)
  }

  /** A character that remembers at most 50 entries still does after one more. */
  lemma MemoryStaysBounded(a: ActorState, day: int, time: string, content: string, location: string,
                           actors: seq<string>)
    requires |a.memory| <= MEMORY_LIMIT
    ensures |AddMemory(a, day, time, content, location, actors).memory| <= MEMORY_LIMIT
    ensures |a.memory| < MEMORY_LIMIT ==>
              AddMemory(a, day, time, content, location, actors).memory ==
              a.memory + [MemoryEntry(day, time, content, location, actors)]
  {
    var r := AddMemory(a, day, time, content, location, actors);
    if |a.memory| < MEMORY_LIMIT {
      assert r.memory == r.memory[..|r.memory| - 1] + [r.memory[|r.memory| - 1]];
    }
  }

  /**
   * `get_recent_memory(count)`: `memory[-count:]`, so the last `count`
   * entries for a positive count, and the whole memory for a count of 0.
   */
  function GetRecentMemory(a: ActorState, count: int): (r: seq<MemoryEntry>)
    ensures count > 0 ==> r == a.memory[|a.memory| - (if count <= |a.memory| then count else |a.memory|)..]
    ensures count == 0 ==> r == a.memory
  {
    PyTail(a.memory, count)
  }

  /** `update_impression`: the entry for that character is overwritten and no other changes. */
  function UpdateImpression(a: ActorState, actorId: string, impression: string): (r: ActorState)
    ensures actorId in r.impressions && r.impressions[actorId] == impression
    ensures forall k :: k != actorId ==> (k in r.impressions <==> k in a.impressions)
    ensures forall k :: k != actorId && k in a.impressions ==> r.impressions[k] == a.impressions[k]
    ensures r.(impressions := a.impressions) == a
  {
    a.(impressions := a.impressions[actorId := impression])
  }
}
