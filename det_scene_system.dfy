/**
 * `SceneSystem`: which places are open under the current state, which
 * can be reached from a place, the investigation points a place offers
 * and the one-shot search of a point, and who is where.
 */
module DetSceneSystem {
  import opened Common
  import opened DetGameState
  import opened DetScene

  /** The system's dictionaries: configurations in file order, and the runtime states. */
  datatype Scenes = Scenes(configs: map<string, SceneConfig>, order: seq<string>, states: map<string, SceneState>)

  /** The message for a place that has no configuration. */
  const UNKNOWN_PLACE := "未知的地点"

  /** The message for a configured place that has no state. */
  const BAD_STATE := "地点状态错误"

  /** `_match_rule_condition`: the checks in order, the first failing one deciding. */
  predicate MatchRule(c: RuleCondition, r: GameRecord)
  {
    if c.time.Some? && r.time.period.Value() != c.time.value then false
    else if c.afterEvent.Some? && !IsTriggered(r, c.afterEvent.value) then false
    else if c.beforeEvent.Some? && IsTriggered(r, c.beforeEvent.value) then false
    else if c.hasItem.Some? && c.hasItem.value !in r.player.inventory then false
    else if c.flag.Some? && !HasFlag(r, c.flag.value) then false
    else true
  }

  /**
   * A rule condition is the conjunction of the keys present: the period,
   * an event fired, an event not fired, an item held, a flag set; so the
   * empty condition matches every state.
   */
  lemma MatchRuleSpec(c: RuleCondition, r: GameRecord)
    ensures MatchRule(c, r) <==>
            (c.time.Some? ==> r.time.period.Value() == c.time.value) &&
            (c.afterEvent.Some? ==> c.afterEvent.value in r.triggered) &&
            (c.beforeEvent.Some? ==> c.beforeEvent.value !in r.triggered) &&
            (c.hasItem.Some? ==> c.hasItem.value in r.player.inventory) &&
            (c.flag.Some? ==> HasFlag(r, c.flag.value))
    ensures MatchRule(ANY, r)
  {
  }

  /** The first rule whose condition matches, if any. */
  function FirstMatch(rules: seq<AccessibilityRule>, r: GameRecord): (m: Option<nat>)
    ensures m.Some? ==> m.value < |rules| && MatchRule(rules[m.value].condition, r) &&
                        forall k :: 0 <= k < m.value ==> !MatchRule(rules[k].condition, r)
    ensures m.None? ==> forall k :: 0 <= k < |rules| ==> !MatchRule(rules[k].condition, r)
  {
    if rules == [] then None
    else if MatchRule(rules[0].condition, r) then Some(0)
    else match FirstMatch(rules[1..], r)
      case None => None
      case Some(k) => Some(k + 1)
  }

  /**
   * `check_accessibility`: an unknown place is closed with its message,
   * a place without state likewise; otherwise the first matching rule
   * decides, and with none the place's default decides with no message.
   */
  function CheckAccessibility(sc: Scenes, id: string, r: GameRecord): (res: (bool, string))
    ensures id !in sc.configs ==> res == (false, UNKNOWN_PLACE)
    ensures id in sc.configs && id !in sc.states ==> res == (false, BAD_STATE)
    ensures id in sc.configs && id in sc.states ==>
              var rules := sc.configs[id].rules;
              (forall k :: 0 <= k < |rules| ==> !MatchRule(rules[k].condition, r)) ==>
                res == (sc.configs[id].defaultAccessible, "")
  {
    if id !in sc.configs then (false, UNKNOWN_PLACE)
    else if id !in sc.states then (false, BAD_STATE)
    else match FirstMatch(sc.configs[id].rules, r)
      case None => (sc.configs[id].defaultAccessible, "")
      case Some(k) => (sc.configs[id].rules[k].accessible, sc.configs[id].rules[k].message)
  }

  /**
   * First match wins: when rule `i` matches and no rule before it does,
   * that rule's verdict and message are the answer, whatever later rules
   * say.
   */
  lemma FirstRuleWins(sc: Scenes, id: string, r: GameRecord, i: nat)
    requires id in sc.configs && id in sc.states && i < |sc.configs[id].rules|
    requires MatchRule(sc.configs[id].rules[i].condition, r)
    requires forall k :: 0 <= k < i ==> !MatchRule(sc.configs[id].rules[k].condition, r)
    ensures CheckAccessibility(sc, id, r) == (sc.configs[id].rules[i].accessible, sc.configs[id].rules[i].message)
  {
    var m := FirstMatch(sc.configs[id].rules, r);
    assert m.Some?;
    if m.value < i {
    } else if m.value > i {
    }
  }

  /** The places of `ids` that are open, in order. */
  function OpenOf(sc: Scenes, ids: seq<string>, r: GameRecord): (res: seq<string>)
    ensures forall s :: s in res <==> s in ids && CheckAccessibility(sc, s, r).0
    ensures |res| <= |ids|
  {
    if ids == [] then []
    else (if CheckAccessibility(sc, ids[0], r).0 then [ids[0]] else []) + OpenOf(sc, ids[1..], r)
  }

  /**
   * `get_accessible_scenes`: exactly the configured places that are
   * open, in file order.
   */
  function GetAccessibleScenes(sc: Scenes, r: GameRecord): (res: seq<string>)
    ensures forall s :: s in res <==> s in sc.order && CheckAccessibility(sc, s, r).0
  {
    OpenOf(sc, sc.order, r)
  }

  /** The selection keeps the file's order: it distributes over concatenation. */
  lemma {:induction false} OpenOfInOrder(sc: Scenes, a: seq<string>, b: seq<string>, r: GameRecord)
    ensures OpenOf(sc, a + b, r) == OpenOf(sc, a, r) + OpenOf(sc, b, r)
    decreases |a|
  {
    if a == [] {
      assert a + b == b;
    } else {
      assert (a + b)[0] == a[0] && (a + b)[1..] == a[1..] + b;
      OpenOfInOrder(sc, a[1..], b, r);
      var h := if CheckAccessibility(sc, a[0], r).0 then [a[0]] else [];
      ConcatAssoc(h, OpenOf(sc, a[1..], r), OpenOf(sc, b, r));
    }
  }

  /** One entry of `get_connected_scenes`. */
  datatype Connection = Connection(id: string, name: string, accessible: bool, message: string)

  /** The connections of `ids` that have a configuration, with their verdicts. */
  function ConnectionsOf(sc: Scenes, ids: seq<string>, r: GameRecord): (res: seq<Connection>)
    ensures |res| <= |ids|
    ensures forall e :: e in res ==>
              e.id in ids && e.id in sc.configs && e.name == sc.configs[e.id].name &&
              (e.accessible, e.message) == CheckAccessibility(sc, e.id, r)
    ensures forall c :: c in ids && c in sc.configs ==> exists e :: e in res && e.id == c
  {
    if ids == [] then []
    else
      var rest := ConnectionsOf(sc, ids[1..], r);
      if ids[0] !in sc.configs then rest
      else
        var v := CheckAccessibility(sc, ids[0], r);
        var e := Connection(ids[0], sc.configs[ids[0]].name, v.0, v.1);
        assert forall c :: c in ids && c in sc.configs ==> c == ids[0] || c in ids[1..];
        [e] + rest
  }

  /**
   * `get_connected_scenes`: nothing for an unknown place; otherwise one
   * entry per connection that has a configuration (connections without
   * one are skipped), each with its verdict and message.
   */
  function GetConnectedScenes(sc: Scenes, id: string, r: GameRecord): (res: seq<Connection>)
    ensures id !in sc.configs ==> res == []
    ensures id in sc.configs ==>
              (forall e :: e in res ==>
                 e.id in sc.configs[id].connections && e.id in sc.configs &&
                 (e.accessible, e.message) == CheckAccessibility(sc, e.id, r)) &&
              (forall c :: c in sc.configs[id].connections && c in sc.configs ==> exists e :: e in res && e.id == c)
  {
    if id !in sc.configs then [] else ConnectionsOf(sc, sc.configs[id].connections, r)
  }

  /** A point's requirement is met by a clue held, an item held or a flag set. */
  predicate HasRequirement(r: GameRecord, x: string)
  {
    x in r.player.clues || x in r.player.inventory || HasFlag(r, x)
  }

  /** Whether a point's requirement, if any, is met. */
  predicate RequirementMet(p: InvestigationPoint, r: GameRecord)
  {
    !Present(p.needs) || HasRequirement(r, p.needs.value)
  }

  /** One entry of `get_investigation_points`. */
  datatype PointInfo = PointInfo(
    id: string,
    name: string,
    description: string,
    discovered: bool,
    canInvestigate: bool,
    requiresMessage: string,
    hasClue: bool)

  /** The entry of one point of a place in state `s`. */
  function InfoOf(p: InvestigationPoint, s: SceneState, r: GameRecord): (i: PointInfo)
    ensures i.id == p.id && i.discovered == IsPointDiscovered(s, p.id)
    ensures i.canInvestigate <==> !IsPointDiscovered(s, p.id) && RequirementMet(p, r)
    ensures i.hasClue <==> p.clueId.Some? && !IsPointDiscovered(s, p.id)
    ensures i.requiresMessage == if RequirementMet(p, r) then "" else "需要: " + p.needs.value
  {
    var discovered := IsPointDiscovered(s, p.id);
    var can := RequirementMet(p, r);
    PointInfo(p.id, p.name, p.description, discovered, can && !discovered,
              if can then "" else "需要: " + p.needs.value,
              p.clueId.Some? && !discovered)
  }

  /** The entries of a sequence of points. */
  function InfosOf(ps: seq<InvestigationPoint>, s: SceneState, r: GameRecord): (res: seq<PointInfo>)
    ensures |res| == |ps| && forall i :: 0 <= i < |ps| ==> res[i] == InfoOf(ps[i], s, r)
  {
    if ps == [] then [] else [InfoOf(ps[0], s, r)] + InfosOf(ps[1..], s, r)
  }

  /**
   * `get_investigation_points`: nothing for an unknown place; otherwise
   * one entry per point, in file order.
   */
  function GetInvestigationPoints(sc: Scenes, id: string, r: GameRecord): (res: seq<PointInfo>)
    ensures id !in sc.configs || id !in sc.states ==> res == []
    ensures id in sc.configs && id in sc.states ==>
              |res| == |sc.configs[id].points| &&
              forall i :: 0 <= i < |res| ==> res[i] == InfoOf(sc.configs[id].points[i], sc.states[id], r)
  {
    if id !in sc.configs || id !in sc.states then [] else InfosOf(sc.configs[id].points, sc.states[id], r)
  }

  /** The loop that looks a point up: the first point with that id. */
  function FindPoint(ps: seq<InvestigationPoint>, pointId: string): (res: Option<nat>)
    ensures res.Some? ==> res.value < |ps| && ps[res.value].id == pointId &&
                          forall k :: 0 <= k < res.value ==> ps[k].id != pointId
    ensures res.None? ==> forall k :: 0 <= k < |ps| ==> ps[k].id != pointId
  {
    if ps == [] then None
    else if ps[0].id == pointId then Some(0)
    else match FindPoint(ps[1..], pointId)
      case None => None
      case Some(k) => Some(k + 1)
  }

  /**
   * `investigate_point`: the place's state and the clue found. Nothing
   * changes, and nothing is found, for an unknown place or point, a point
   * already searched, or an unmet requirement; otherwise the point is
   * marked searched and its clue id (possibly none) is returned.
   */
  function Investigate(sc: Scenes, sceneId: string, pointId: string, r: GameRecord): (Scenes, Option<string>)
  {
    if sceneId !in sc.configs || sceneId !in sc.states then (sc, None)
    else match FindPoint(sc.configs[sceneId].points, pointId)
      case None => (sc, None)
      case Some(k) =>
        var p := sc.configs[sceneId].points[k];
        if IsPointDiscovered(sc.states[sceneId], pointId) then (sc, None)
        else if !RequirementMet(p, r) then (sc, None)
        else (sc.(states := sc.states[sceneId := MarkPointDiscovered(sc.states[sceneId], pointId)]), p.clueId)
  }

  /** Whether `investigate_point` succeeds: a known, unsearched point whose requirement is met. */
  predicate CanSearch(sc: Scenes, sceneId: string, pointId: string, r: GameRecord)
  {
    sceneId in sc.configs && sceneId in sc.states &&
    FindPoint(sc.configs[sceneId].points, pointId).Some? &&
    !IsPointDiscovered(sc.states[sceneId], pointId) &&
    RequirementMet(sc.configs[sceneId].points[FindPoint(sc.configs[sceneId].points, pointId).value], r)
  }

  /**
   * A search succeeds exactly when `CanSearch` holds; it then marks that
   * point of that place and nothing else, and returns the point's clue.
   * A failed search returns nothing and changes nothing.
   */
  lemma InvestigateSpec(sc: Scenes, sceneId: string, pointId: string, r: GameRecord)
    ensures var (sc1, clue) := Investigate(sc, sceneId, pointId, r);
      (CanSearch(sc, sceneId, pointId, r) ==>
         sc1 == sc.(states := sc.states[sceneId := MarkPointDiscovered(sc.states[sceneId], pointId)]) &&
         clue == sc.configs[sceneId].points[FindPoint(sc.configs[sceneId].points, pointId).value].clueId) &&
      (!CanSearch(sc, sceneId, pointId, r) ==> sc1 == sc && clue.None?)
  {
  }

  /**
   * A point yields its clue at most once: after a successful search the
   * same search fails, and leaves everything as it was.
   */
  lemma InvestigateAtMostOnce(sc: Scenes, sceneId: string, pointId: string, r: GameRecord, r2: GameRecord)
    requires CanSearch(sc, sceneId, pointId, r)
    ensures var sc1 := Investigate(sc, sceneId, pointId, r).0;
            !CanSearch(sc1, sceneId, pointId, r2) &&
            Investigate(sc1, sceneId, pointId, r2) == (sc1, None)
  {
    InvestigateSpec(sc, sceneId, pointId, r);
    var sc1 := Investigate(sc, sceneId, pointId, r).0;
    assert IsPointDiscovered(sc1.states[sceneId], pointId);
    InvestigateSpec(sc1, sceneId, pointId, r2);
  }

  /**
   * The listing and the search agree: the entry of a point whose id is
   * not shadowed by an earlier point says it can be investigated exactly
   * when searching it would succeed.
   */
  lemma ListingAgreesWithSearch(sc: Scenes, sceneId: string, i: nat, r: GameRecord)
    requires sceneId in sc.configs && sceneId in sc.states && i < |sc.configs[sceneId].points|
    requires forall k :: 0 <= k < i ==> sc.configs[sceneId].points[k].id != sc.configs[sceneId].points[i].id
    ensures GetInvestigationPoints(sc, sceneId, r)[i].canInvestigate <==>
            CanSearch(sc, sceneId, sc.configs[sceneId].points[i].id, r)
  {
    var ps := sc.configs[sceneId].points;
    var m := FindPoint(ps, ps[i].id);
    assert m.Some?;
    if m.value < i {
    } else if m.value > i {
    }
  }

  /**
   * `move_actor_to_scene`: the actor leaves the source place, when it is
   * known, then joins the destination, when it is known.
   */
  function Moved(sc: Scenes, actor: string, from: string, to: string): Scenes
  {
    var s1 := if from in sc.states then sc.states[from := RemoveOccupant(sc.states[from], actor)] else sc.states;
    var s2 := if to in s1 then s1[to := AddOccupant(s1[to], actor)] else s1;
    sc.(states := s2)
  }

  /**
   * A move puts the actor in the known destination and takes it out of a
   * different known source; every other place, every other occupant and
   * every searched point stay as they were.
   */
  lemma MovedSpec(sc: Scenes, actor: string, from: string, to: string)
    ensures Moved(sc, actor, from, to).configs == sc.configs && Moved(sc, actor, from, to).order == sc.order
    ensures Moved(sc, actor, from, to).states.Keys == sc.states.Keys
    ensures to in sc.states ==> actor in Moved(sc, actor, from, to).states[to].occupants
    ensures from in sc.states && from != to ==> actor !in Moved(sc, actor, from, to).states[from].occupants
    ensures forall id :: id in sc.states && id != from && id != to ==> Moved(sc, actor, from, to).states[id] == sc.states[id]
    ensures forall id, a :: id in sc.states && a != actor ==>
              (a in Moved(sc, actor, from, to).states[id].occupants <==> a in sc.states[id].occupants)
    ensures forall id :: id in sc.states ==>
              Moved(sc, actor, from, to).states[id].(occupants := sc.states[id].occupants) == sc.states[id]
  {
  }

  /**
   * The system: the configurations in file order, and the runtime states,
   * which `investigate_point` and `move_actor_to_scene` change in place.
   */
  class SceneSystem {
    var configs: map<string, SceneConfig>
    var order: seq<string>
    var states: map<string, SceneState>

    /** The dictionaries as a value. */
    function Snapshot(): Scenes
      reads this
    {
      Scenes(configs, order, states)
    }

    /** Every configured place has a state and appears once in the file order. */
    predicate Valid()
      reads this
    {
      configs.Keys == states.Keys && (set s | s in order) == configs.Keys
    }

    /** `SceneSystem(scene_configs)`: the entries of the file, one at a time. */
    constructor(raw: seq<(string, RawScene)>)
      ensures Snapshot() == Build(raw) && Valid()
    {
      var sc := Scenes(map[], [], map[]);
      var i := 0;
      while i < |raw|
        invariant 0 <= i <= |raw| && sc == Build(raw[..i])
      {
        var (id, data) := raw[i];
        var config := SceneFromDict(data);
        assert raw[..i + 1][..i] == raw[..i];
        sc := Scenes(sc.configs[id := config], sc.order + [id],
                     sc.states[id := NewSceneState(id, config.defaultAccessible)]);
        i := i + 1;
      }
      assert raw[..i] == raw;
      configs, order, states := sc.configs, sc.order, sc.states;
      BuildKeys(raw);
    }

    /** `investigate_point`, with the scan for the point written out. */
    method InvestigatePoint(sceneId: string, pointId: string, r: GameRecord) returns (clue: Option<string>)
      modifies this
      ensures (Snapshot(), clue) == Investigate(old(Snapshot()), sceneId, pointId, r)
      ensures old(Valid()) ==> Valid()
    {
      if sceneId !in configs || sceneId !in states {
        return None;
      }
      var ps := configs[sceneId].points;
      var found: Option<nat> := None;
      var k := 0;
      while k < |ps|
        invariant 0 <= k <= |ps| && found.None?
        invariant forall j :: 0 <= j < k ==> ps[j].id != pointId
      {
        if ps[k].id == pointId {
          found := Some(k);
          break;
        }
        k := k + 1;
      }
      assert found == FindPoint(ps, pointId);
      if found.None? {
        return None;
      }
      var p := ps[found.value];
      if pointId in states[sceneId].discoveredPoints {
        return None;
      }
      if Present(p.needs) && !HasRequirement(r, p.needs.value) {
        return None;
      }
      states := states[sceneId := MarkPointDiscovered(states[sceneId], pointId)];
      clue := p.clueId;
    }

    /** `move_actor_to_scene`. */
    method MoveActorToScene(actor: string, from: string, to: string)
      modifies this
      ensures Snapshot() == Moved(old(Snapshot()), actor, from, to)
      ensures old(Valid()) ==> Valid()
    {
      if from in states {
        states := states[from := RemoveOccupant(states[from], actor)];
      }
      if to in states {
        states := states[to := AddOccupant(states[to], actor)];
      }
    }
  }

  /**
   * What the constructor builds from the file's entries: each entry adds
   * its configuration, its place in the order and a fresh state opened or
   * closed as its default says.
   */
  function Build(raw: seq<(string, RawScene)>): Scenes
  {
    if raw == [] then Scenes(map[], [], map[])
    else
      var b := Build(raw[..|raw| - 1]);
      var (id, d) := raw[|raw| - 1];
      var config := SceneFromDict(d);
      Scenes(b.configs[id := config], b.order + [id], b.states[id := NewSceneState(id, config.defaultAccessible)])
  }

  /** The built system keeps the file order, and every place in it has a configuration and a state. */
  lemma {:induction false} BuildKeys(raw: seq<(string, RawScene)>)
    ensures Build(raw).order == Keys(raw)
    ensures Build(raw).configs.Keys == Build(raw).states.Keys == (set s | s in Keys(raw))
  {
    if raw != [] {
      BuildKeys(raw[..|raw| - 1]);
    }
  }

  /**
   * With distinct ids, as the keys of a dictionary are, the built system
   * holds for every entry its parsed configuration and a fresh state
   * opened or closed as the configured default says.
   */
  lemma {:induction false} BuildSpec(raw: seq<(string, RawScene)>)
    requires Distinct(Keys(raw))
    ensures var sc := Build(raw);
      forall i :: 0 <= i < |raw| ==>
        raw[i].0 in sc.configs && raw[i].0 in sc.states &&
        sc.configs[raw[i].0] == SceneFromDict(raw[i].1) &&
        sc.states[raw[i].0] == NewSceneState(raw[i].0, SceneFromDict(raw[i].1).defaultAccessible)
  {
    if raw != [] {
      var init := raw[..|raw| - 1];
      assert Keys(raw) == Keys(init) + [raw[|raw| - 1].0];
      BuildSpec(init);
      BuildKeys(init);
      var sc := Build(raw);
      forall i | 0 <= i < |raw|
        ensures raw[i].0 in sc.configs && raw[i].0 in sc.states &&
                sc.configs[raw[i].0] == SceneFromDict(raw[i].1) &&
                sc.states[raw[i].0] == NewSceneState(raw[i].0, SceneFromDict(raw[i].1).defaultAccessible)
      {
        if i < |raw| - 1 {
          assert raw[i] == init[i];
          assert raw[i].0 in Keys(init);
        }
      }
    }
  }
}
