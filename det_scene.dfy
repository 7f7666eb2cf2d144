/**
 * The places of the detective scenario: their configuration as read from
 * the scenario files (`SceneConfig.from_dict`, with its defaults) and the
 * runtime state of a place, its occupants and the investigation points
 * already searched.
 */
module DetScene {
  import opened Common

  /**
   * The condition of an accessibility rule: each key of the YAML
   * dictionary (`time`, `after_event`, `before_event`, `has_item`,
   * `flag`), `None` when absent.
   */
  datatype RuleCondition = RuleCondition(
    time: Option<string>,
    afterEvent: Option<string>,
    beforeEvent: Option<string>,
    hasItem: Option<string>,
    flag: Option<string>)

  /** The empty condition `{}`. */
  const ANY := RuleCondition(None, None, None, None, None)

  /** `AccessibilityRule`. */
  datatype AccessibilityRule = AccessibilityRule(condition: RuleCondition, accessible: bool, message: string)

  /** `InvestigationPoint`; `needs` (the `requires` key) names a clue, an item or a flag. */
  datatype InvestigationPoint = InvestigationPoint(
    id: string,
    name: string,
    description: string,
    clueId: Option<string>,
    discovered: bool,
    needs: Option<string>)

  /** `SceneConfig`. */
  datatype SceneConfig = SceneConfig(
    id: string,
    name: string,
    description: string,
    defaultAccessible: bool,
    rules: seq<AccessibilityRule>,
    connections: seq<string>,
    points: seq<InvestigationPoint>)

  /** A rule entry as read from the file: absent keys are `None`. */
  datatype RawRule = RawRule(condition: Option<RuleCondition>, accessible: Option<bool>, message: Option<string>)

  /** A point entry as read from the file. */
  datatype RawPoint = RawPoint(
    id: Option<string>,
    name: Option<string>,
    description: Option<string>,
    clueId: Option<string>,
    discovered: Option<bool>,
    needs: Option<string>)

  /**
   * A scene entry as read from the file. `defaultAccessible` is the
   * `accessibility.default` key; an absent `accessibility`, `rules`,
   * `connections` or `investigation_points` reads as empty.
   */
  datatype RawScene = RawScene(
    id: Option<string>,
    name: Option<string>,
    description: Option<string>,
    defaultAccessible: Option<bool>,
    rules: seq<RawRule>,
    connections: seq<string>,
    points: seq<RawPoint>)

  /** One rule with its defaults: the empty condition, accessible, no message. */
  function RuleFromDict(r: RawRule): (a: AccessibilityRule)
    ensures a.condition == r.condition.UnwrapOr(ANY)
    ensures a.accessible == r.accessible.UnwrapOr(true)
    ensures a.message == r.message.UnwrapOr("")
  {
    AccessibilityRule(r.condition.UnwrapOr(ANY), r.accessible.UnwrapOr(true), r.message.UnwrapOr(""))
  }

  /** The rules, in the file's order. */
  function Rules(rs: seq<RawRule>): (r: seq<AccessibilityRule>)
    ensures |r| == |rs| && forall i :: 0 <= i < |rs| ==> r[i] == RuleFromDict(rs[i])
  {
    if rs == [] then [] else [RuleFromDict(rs[0])] + Rules(rs[1..])
  }

  /** One investigation point with its defaults: empty strings, not discovered. */
  function PointFromDict(p: RawPoint): (q: InvestigationPoint)
    ensures q.id == p.id.UnwrapOr("") && q.name == p.name.UnwrapOr("")
    ensures q.description == p.description.UnwrapOr("")
    ensures q.clueId == p.clueId && q.needs == p.needs
    ensures q.discovered == p.discovered.UnwrapOr(false)
  {
    InvestigationPoint(p.id.UnwrapOr(""), p.name.UnwrapOr(""), p.description.UnwrapOr(""),
                       p.clueId, p.discovered.UnwrapOr(false), p.needs)
  }

  /** The investigation points, in the file's order. */
  function Points(ps: seq<RawPoint>): (r: seq<InvestigationPoint>)
    ensures |r| == |ps| && forall i :: 0 <= i < |ps| ==> r[i] == PointFromDict(ps[i])
  {
    if ps == [] then [] else [PointFromDict(ps[0])] + Points(ps[1..])
  }

  /**
   * `SceneConfig.from_dict`: a place is accessible by default, its rules
   * and points keep the file's order and its connections are kept as
   * given.
   */
  function SceneFromDict(d: RawScene): (c: SceneConfig)
    ensures c.id == d.id.UnwrapOr("") && c.name == d.name.UnwrapOr("")
    ensures c.description == d.description.UnwrapOr("")
    ensures c.defaultAccessible == d.defaultAccessible.UnwrapOr(true)
    ensures c.rules == Rules(d.rules) && c.points == Points(d.points)
    ensures c.connections == d.connections
  {
    SceneConfig(d.id.UnwrapOr(""), d.name.UnwrapOr(""), d.description.UnwrapOr(""),
                d.defaultAccessible.UnwrapOr(true), Rules(d.rules), d.connections, Points(d.points))
  }

  /**
   * `SceneState`: whether the place is open, who is there and which
   * points were searched. The `flags` dictionary, which nothing reads or
   * writes, is not modelled.
   */
  datatype SceneState = SceneState(
    id: string,
    isAccessible: bool,
    inaccessibleReason: string,
    occupants: set<string>,
    discoveredPoints: set<string>)

  /** `SceneState(id=..., is_accessible=...)`: nobody there, nothing searched. */
  function NewSceneState(id: string, accessible: bool): (s: SceneState)
    ensures s.id == id && s.isAccessible == accessible && s.inaccessibleReason == ""
    ensures s.occupants == {} && s.discoveredPoints == {}
  {
    SceneState(id, accessible, "", {}, {})
  }

  /** `add_occupant`. */
  function AddOccupant(s: SceneState, actor: string): SceneState
  {
    s.(occupants := s.occupants + {actor})
  }

  /** `remove_occupant`: a discard, so removing someone absent is allowed. */
  function RemoveOccupant(s: SceneState, actor: string): SceneState
  {
    s.(occupants := s.occupants - {actor})
  }

  /** `mark_point_discovered`. */
  function MarkPointDiscovered(s: SceneState, point: string): SceneState
  {
    s.(discoveredPoints := s.discoveredPoints + {point})
  }

  /** `is_point_discovered`. */
  predicate IsPointDiscovered(s: SceneState, point: string)
  {
    point in s.discoveredPoints
  }

  /**
   * Occupants behave as a set: adding puts the actor there and keeps
   * everyone else, adding twice is adding once, removing takes only that
   * actor away, removing someone absent changes nothing, and adding then
   * removing a newcomer restores the state.
   */
  lemma OccupantsAreASet(s: SceneState, actor: string, other: string)
    ensures actor in AddOccupant(s, actor).occupants
    ensures actor !in RemoveOccupant(s, actor).occupants
    ensures other != actor ==>
              (other in AddOccupant(s, actor).occupants <==> other in s.occupants) &&
              (other in RemoveOccupant(s, actor).occupants <==> other in s.occupants)
    ensures AddOccupant(AddOccupant(s, actor), actor) == AddOccupant(s, actor)
    ensures actor !in s.occupants ==> RemoveOccupant(s, actor) == s
    ensures actor !in s.occupants ==> RemoveOccupant(AddOccupant(s, actor), actor) == s
    ensures AddOccupant(s, actor).discoveredPoints == s.discoveredPoints
    ensures RemoveOccupant(s, actor).discoveredPoints == s.discoveredPoints
  {
    assert s.occupants + {actor} + {actor} == s.occupants + {actor};
    if actor !in s.occupants {
      assert s.occupants - {actor} == s.occupants;
      assert s.occupants + {actor} - {actor} == s.occupants;
    }
  }

  /**
   * After `mark_point_discovered(p)` the point is discovered, the others
   * are as before, and marking it again changes nothing.
   */
  lemma MarkThenDiscovered(s: SceneState, point: string, other: string)
    ensures IsPointDiscovered(MarkPointDiscovered(s, point), point)
    ensures other != point ==>
              (IsPointDiscovered(MarkPointDiscovered(s, point), other) <==> IsPointDiscovered(s, other))
    ensures IsPointDiscovered(s, point) ==> MarkPointDiscovered(s, point) == s
    ensures MarkPointDiscovered(s, point).occupants == s.occupants
  {
    if point in s.discoveredPoints {
      assert s.discoveredPoints + {point} == s.discoveredPoints;
    }
  }
}
