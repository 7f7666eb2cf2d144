/**
 * `ClueSystem`: when a clue can be discovered, its one-time discovery
 * (with what it gives the player), and the player's clues filtered by
 * type, key evidence or the suspect they point to.
 */
module DetClueSystem {
  import opened Common
  import opened DetGameState
  import opened DetClue

  /** The system's dictionaries: configurations in file order, and the runtime states. */
  datatype Clues = Clues(configs: map<string, ClueConfig>, order: seq<string>, states: map<string, ClueState>)

  /** Who the player is, as a discoverer. */
  const PLAYER := "player"

  /**
   * `is_clue_discoverable`: an unknown clue is not; a required event must
   * have its flag set or the clue's availability flag raised; a required
   * item must be held or its flag set.
   */
  predicate IsDiscoverable(cs: Clues, id: string, r: GameRecord)
  {
    if id !in cs.configs then false
    else
      var c := cs.configs[id];
      if Present(c.requiresEvent) && !HasFlag(r, c.requiresEvent.value) && !HasFlag(r, CLUE_AVAILABLE + id) then false
      else if Present(c.requiresItem) && c.requiresItem.value !in r.player.inventory && !HasFlag(r, c.requiresItem.value) then false
      else true
  }

  /** The discoverability rules as one statement. */
  lemma IsDiscoverableSpec(cs: Clues, id: string, r: GameRecord)
    ensures IsDiscoverable(cs, id, r) <==>
            id in cs.configs &&
            (Present(cs.configs[id].requiresEvent) ==>
               HasFlag(r, cs.configs[id].requiresEvent.value) || HasFlag(r, CLUE_AVAILABLE + id)) &&
            (Present(cs.configs[id].requiresItem) ==>
               cs.configs[id].requiresItem.value in r.player.inventory || HasFlag(r, cs.configs[id].requiresItem.value))
  {
  }

  /** `get_clue_info`: what is shown about a clue. */
  datatype ClueInfo = ClueInfo(
    id: string,
    name: string,
    clueType: string,
    category: string,
    description: string,
    isKeyEvidence: bool,
    discoveredBy: Option<string>,
    pointsTo: seq<string>)

  /** `get_clue_info`: `None` for an unknown clue. */
  function GetClueInfo(cs: Clues, id: string): (i: Option<ClueInfo>)
    ensures i.Some? <==> id in cs.configs
    ensures i.Some? ==>
              i.value.id == id && i.value.clueType == cs.configs[id].clueType.Value() &&
              i.value.description == Strip(cs.configs[id].description) &&
              i.value.isKeyEvidence == cs.configs[id].isKeyEvidence &&
              i.value.pointsTo == cs.configs[id].pointsTo &&
              i.value.discoveredBy == (if id in cs.states then cs.states[id].discoveredBy else None)
  {
    if id !in cs.configs then None
    else
      var c := cs.configs[id];
      Some(ClueInfo(id, c.name, c.clueType.Value(), c.category, Strip(c.description), c.isKeyEvidence,
                    if id in cs.states then cs.states[id].discoveredBy else None, c.pointsTo))
  }

  /** What a discovery by the player gives: the clue, the item for an item clue, and the unlock flag. */
  function PlayerGains(r: GameRecord, id: string, c: ClueConfig): GameRecord
  {
    var p1 := WithClue(r.player, id);
    var p2 := if c.clueType == Item then WithItem(p1, id) else p1;
    var r1 := r.(player := p2);
    if Present(c.unlocks) then RaiseFlag(r1, "has_" + c.unlocks.value) else r1
  }

  /** Whether `discover_clue` succeeds: a known clue nobody discovered yet, now discoverable. */
  predicate CanDiscover(cs: Clues, id: string, r: GameRecord)
  {
    id in cs.configs && id in cs.states && !Present(cs.states[id].discoveredBy) && IsDiscoverable(cs, id, r)
  }

  /**
   * `discover_clue`: the clues, the game state and the shown clue. A
   * success records the discoverer with the day and period; only the
   * player's discoveries change the game state.
   */
  function Discover(cs: Clues, r: GameRecord, id: string, discoverer: string): (Clues, GameRecord, Option<ClueInfo>)
  {
    if !CanDiscover(cs, id, r) then (cs, r, None)
    else
      var st := cs.states[id].(isDiscoverable := true, discoveredBy := Some(discoverer),
                               discoveredAtDay := Some(r.time.day), discoveredAtTime := Some(r.time.period.Value()));
      var cs1 := cs.(states := cs.states[id := st]);
      var r1 := if discoverer == PLAYER then PlayerGains(r, id, cs.configs[id]) else r;
      (cs1, r1, GetClueInfo(cs1, id))
  }

  /**
   * A discovery fails, changing nothing, unless `CanDiscover` holds; a
   * success records who found the clue and when, and shows it.
   */
  lemma DiscoverSpec(cs: Clues, r: GameRecord, id: string, discoverer: string)
    ensures var (cs1, r1, info) := Discover(cs, r, id, discoverer);
      (!CanDiscover(cs, id, r) ==> cs1 == cs && r1 == r && info.None?) &&
      (CanDiscover(cs, id, r) ==>
         info.Some? && info.value.id == id && info.value.discoveredBy == Some(discoverer) &&
         cs1.configs == cs.configs && cs1.order == cs.order && cs1.states.Keys == cs.states.Keys &&
         cs1.states[id].discoveredBy == Some(discoverer) &&
         cs1.states[id].discoveredAtDay == Some(r.time.day) &&
         cs1.states[id].discoveredAtTime == Some(r.time.period.Value()) &&
         forall k :: k in cs.states && k != id ==> cs1.states[k] == cs.states[k])
  {
  }

  /**
   * Discovery is once-only: after a successful discovery by anyone named
   * (a non-empty discoverer), any later discovery of that clue, by anyone
   * and in any state, fails.
   */
  lemma DiscoverOnce(cs: Clues, r: GameRecord, id: string, who: string, r2: GameRecord, who2: string)
    requires CanDiscover(cs, id, r) && who != ""
    ensures var cs1 := Discover(cs, r, id, who).0;
            !CanDiscover(cs1, id, r2) && Discover(cs1, r2, id, who2) == (cs1, r2, None)
  {
  }

  /**
   * Only the player's discoveries touch the game state: then the clue is
   * held, it is in the inventory exactly when it is an item clue (or
   * already was), the unlock flag is raised when the clue unlocks
   * something, and the clock and triggered events are kept.
   */
  lemma DiscoverGivesPlayer(cs: Clues, r: GameRecord, id: string, discoverer: string)
    requires CanDiscover(cs, id, r)
    ensures var r1 := Discover(cs, r, id, discoverer).1;
      var c := cs.configs[id];
      (discoverer != PLAYER ==> r1 == r) &&
      (discoverer == PLAYER ==>
         r1.player.clues == r.player.clues + {id} &&
         r1.player.inventory == (if c.clueType == Item then r.player.inventory + {id} else r.player.inventory) &&
         (Present(c.unlocks) ==> HasFlag(r1, "has_" + c.unlocks.value)) &&
         (!Present(c.unlocks) ==> r1.flags == r.flags) &&
         r1.time == r.time && r1.triggered == r.triggered &&
         r1.player.location == r.player.location)
  {
  }

  /** What a filter selects among the player's clues. */
  datatype Filter = All | OfType(t: ClueType) | KeyEvidence | PointingTo(suspect: string)

  /** Whether the clue `id` passes a filter: it must be configured, and match. */
  predicate Selects(cs: Clues, f: Filter, id: string)
  {
    id in cs.configs &&
    match f
    case All => true
    case OfType(t) => cs.configs[id].clueType == t
    case KeyEvidence => cs.configs[id].isKeyEvidence
    case PointingTo(s) => s in cs.configs[id].pointsTo
  }

  /**
   * The ids of the player's clues a filter selects: `get_player_clues`,
   * `get_clues_by_type`, `get_key_evidence` and `get_clues_pointing_to`.
   */
  function Selected(cs: Clues, r: GameRecord, f: Filter): (ids: set<string>)
    ensures ids <= r.player.clues
    ensures forall id :: id in ids ==> id in cs.configs
    ensures f.KeyEvidence? ==> forall id :: id in ids ==> cs.configs[id].isKeyEvidence
  {
    set id | id in r.player.clues && Selects(cs, f, id)
  }

  /** `get_all_discoverable_clues` over the ids of `ids`, in order. */
  function OpenClues(cs: Clues, ids: seq<string>, r: GameRecord): (res: seq<string>)
    ensures forall id :: id in res <==>
              id in ids && IsDiscoverable(cs, id, r) && id in cs.states && !Present(cs.states[id].discoveredBy)
    decreases |ids|
  {
    if ids == [] then []
    else
      (if IsDiscoverable(cs, ids[0], r) && ids[0] in cs.states && !Present(cs.states[ids[0]].discoveredBy)
       then [ids[0]] else [])
      + OpenClues(cs, ids[1..], r)
  }

  /**
   * `get_all_discoverable_clues`: the configured clues, in file order,
   * that can be discovered now; a clue already discovered never appears,
   * and after its discovery a clue leaves the list.
   */
  lemma AllDiscoverableSpec(cs: Clues, r: GameRecord, id: string, who: string, r2: GameRecord)
    ensures forall x :: x in OpenClues(cs, cs.order, r) ==> x in cs.states && !Present(cs.states[x].discoveredBy)
    ensures forall x :: x in OpenClues(cs, cs.order, r) ==> CanDiscover(cs, x, r)
    ensures CanDiscover(cs, id, r) && who != "" ==>
              id !in OpenClues(Discover(cs, r, id, who).0, cs.order, r2)
  {
    if CanDiscover(cs, id, r) && who != "" {
      var cs1 := Discover(cs, r, id, who).0;
      assert cs1.order == cs.order;
    }
  }

  /**
   * The system: the configurations in file order and the runtime states,
   * which `discover_clue` changes in place.
   */
  class ClueSystem {
    var configs: map<string, ClueConfig>
    var order: seq<string>
    var states: map<string, ClueState>

    /** The dictionaries as a value. */
    function Snapshot(): Clues
      reads this
    {
      Clues(configs, order, states)
    }

    /**
     * `ClueSystem(clue_configs)`: each entry gets its configuration and a
     * fresh state. Python raises when an entry's type is not one of the
     * four; those inputs are not accepted here.
     */
    constructor(raw: seq<(string, RawClue)>)
      requires forall i :: 0 <= i < |raw| ==> ClueFromDict(raw[i].1).Some?
      ensures Snapshot() == Build(raw)
    {
      var cs := Clues(map[], [], map[]);
      var i := 0;
      while i < |raw|
        invariant 0 <= i <= |raw| && cs == Build(raw[..i])
      {
        var (id, data) := raw[i];
        var config := ClueFromDict(data).value;
        assert raw[..i + 1][..i] == raw[..i];
        cs := Clues(cs.configs[id := config], cs.order + [id], cs.states[id := NewClueState(id)]);
        i := i + 1;
      }
      assert raw[..i] == raw;
      configs, order, states := cs.configs, cs.order, cs.states;
    }

    /**
     * `discover_clue`: the clue's state is updated in place and, for the
     * player, the game state too, as `Discover` says.
     */
    method DiscoverClue(id: string, discoverer: string, gs: GameState) returns (info: Option<ClueInfo>)
      modifies this, gs
      ensures (Snapshot(), gs.Record(), info) == Discover(old(Snapshot()), old(gs.Record()), id, discoverer)
    {
      if id !in configs || id !in states {
        return None;
      }
      if Present(states[id].discoveredBy) {
        return None;
      }
      if !IsDiscoverable(Snapshot(), id, gs.Record()) {
        return None;
      }
      var config := configs[id];
      states := states[id := states[id].(isDiscoverable := true, discoveredBy := Some(discoverer),
                                         discoveredAtDay := Some(gs.time.day),
                                         discoveredAtTime := Some(gs.time.period.Value()))];
      if discoverer == PLAYER {
        gs.AddClue(id);
        if config.clueType == Item {
          gs.AddItem(id);
        }
        if Present(config.unlocks) {
          gs.SetFlag("has_" + config.unlocks.value, VBool(true));
        }
      }
      info := GetClueInfo(Snapshot(), id);
    }

    /**
     * The four listing methods: the info of each of the player's clues the
     * filter selects, once each, in the order the set is walked.
     */
    method PlayerClues(r: GameRecord, f: Filter) returns (res: seq<ClueInfo>)
      ensures forall id :: id in IdsOf(res) <==> id in Selected(Snapshot(), r, f)
      ensures Distinct(IdsOf(res))
      ensures forall x :: x in res ==> Shows(Snapshot(), x)
    {
      var cs := Snapshot();
      res := [];
      var todo := r.player.clues;
      while todo != {}
        invariant todo <= r.player.clues
        invariant Listed(cs, f, r.player.clues - todo, res)
        decreases |todo|
      {
        var id :| id in todo;
        ListStep(cs, f, r.player.clues - todo, res, id);
        if Selects(cs, f, id) {
          res := res + [GetClueInfo(cs, id).value];
        }
        assert r.player.clues - (todo - {id}) == (r.player.clues - todo) + {id};
        todo := todo - {id};
      }
      assert r.player.clues - todo == r.player.clues;
    }
  }

  /** `res` lists, once each, the info of the clues of `seen` the filter selects. */
  ghost predicate Listed(cs: Clues, f: Filter, seen: set<string>, res: seq<ClueInfo>)
  {
    (forall id :: id in IdsOf(res) <==> id in seen && Selects(cs, f, id)) &&
    Distinct(IdsOf(res)) &&
    forall x :: x in res ==> Shows(cs, x)
  }

  /** One step of the listing loop keeps `Listed`. */
  lemma ListStep(cs: Clues, f: Filter, seen: set<string>, res: seq<ClueInfo>, id: string)
    requires Listed(cs, f, seen, res) && id !in seen
    ensures Selects(cs, f, id) ==>
              GetClueInfo(cs, id).Some? && Listed(cs, f, seen + {id}, res + [GetClueInfo(cs, id).value])
    ensures !Selects(cs, f, id) ==> Listed(cs, f, seen + {id}, res)
  {
    if Selects(cs, f, id) {
      PushId(res, GetClueInfo(cs, id).value);
    }
  }

  /** `x` is what `get_clue_info` shows for its clue. */
  predicate Shows(cs: Clues, x: ClueInfo)
  {
    GetClueInfo(cs, x.id) == Some(x)
  }

  /** Appending a clue not listed yet keeps the ids distinct and adds just its id. */
  lemma PushId(infos: seq<ClueInfo>, x: ClueInfo)
    ensures forall id :: id in IdsOf(infos + [x]) <==> id in IdsOf(infos) || id == x.id
    ensures Distinct(IdsOf(infos)) && x.id !in IdsOf(infos) ==> Distinct(IdsOf(infos + [x]))
  {
    assert IdsOf(infos + [x]) == IdsOf(infos) + [x.id];
    assert (IdsOf(infos) + [x.id])[..|IdsOf(infos)|] == IdsOf(infos);
  }

  /** The ids of a list of shown clues, in order. */
  function IdsOf(infos: seq<ClueInfo>): (ids: seq<string>)
    ensures |ids| == |infos| && forall i :: 0 <= i < |infos| ==> ids[i] == infos[i].id
  {
    if infos == [] then [] else IdsOf(infos[..|infos| - 1]) + [infos[|infos| - 1].id]
  }

  /**
   * What the constructor builds from the file's entries: each entry adds
   * its configuration, its place in the order and a fresh state.
   */
  function Build(raw: seq<(string, RawClue)>): Clues
    requires forall i :: 0 <= i < |raw| ==> ClueFromDict(raw[i].1).Some?
  {
    if raw == [] then Clues(map[], [], map[])
    else
      var b := Build(raw[..|raw| - 1]);
      var (id, d) := raw[|raw| - 1];
      Clues(b.configs[id := ClueFromDict(d).value], b.order + [id], b.states[id := NewClueState(id)])
  }

  /**
   * The built system keeps the file order; with distinct ids, as the keys
   * of a dictionary are, every clue holds its parsed configuration and an
   * undiscovered state.
   */
  lemma {:induction false} BuildSpec(raw: seq<(string, RawClue)>)
    requires forall i :: 0 <= i < |raw| ==> ClueFromDict(raw[i].1).Some?
    requires Distinct(Keys(raw))
    ensures Build(raw).order == Keys(raw)
    ensures Build(raw).configs.Keys == Build(raw).states.Keys == (set s | s in Keys(raw))
    ensures forall i :: 0 <= i < |raw| ==>
              raw[i].0 in Build(raw).configs && raw[i].0 in Build(raw).states &&
              Some(Build(raw).configs[raw[i].0]) == ClueFromDict(raw[i].1) &&
              Build(raw).states[raw[i].0] == NewClueState(raw[i].0)
  {
    if raw != [] {
      var init := raw[..|raw| - 1];
      assert Keys(raw) == Keys(init) + [raw[|raw| - 1].0];
      BuildSpec(init);
      var sc := Build(raw);
      forall i | 0 <= i < |raw|
        ensures raw[i].0 in sc.configs && raw[i].0 in sc.states &&
                Some(sc.configs[raw[i].0]) == ClueFromDict(raw[i].1) && sc.states[raw[i].0] == NewClueState(raw[i].0)
      {
        if i < |raw| - 1 {
          assert raw[i] == init[i];
          assert raw[i].0 in Keys(init);
        }
      }
    }
  }
}
