/**
 * The prototype detective game's turn controller
 * (`detective_game/backend/game_state.py`, `GameStateManager`): three fixed
 * places, the personas placed at their default locations, an event log
 * that is consumed once per turn, the list of actions offered to the
 * player, and the player's actions, each of which counts as one turn.
 */
module ProtoGameState {
  import opened Common
  import opened ProtoModels

  const TOWN_SQUARE := "Town Square"
  const LIBRARY := "Library"
  const CAFE := "Cafe"
  const PLAYER := "player"

  /** The places of `_init_locations`, in the order they are declared. */
  const PLACE_ORDER: seq<string> := [TOWN_SQUARE, LIBRARY, CAFE]

  /** The places of `_init_locations`, empty. */
  function Places(): map<string, Location>
  {
    map[
      TOWN_SQUARE := Location(TOWN_SQUARE, "The heart of the town, where townsfolk gather.", {"public", "central"}, {}),
      LIBRARY := Location(LIBRARY, "Quiet stacks of books and whispered secrets.", {"quiet", "knowledge"}, {}),
      CAFE := Location(CAFE, "The smell of coffee beans and murmured gossip fill the air.", {"social"}, {})]
  }

  /** The state after `_init_locations`. */
  function Initial(): (g: GameState)
    ensures g.locations.Keys == {TOWN_SQUARE, LIBRARY, CAFE} && g.playerLocation in g.locations
  {
    DefaultGameState().(locations := Places(), locationOrder := PLACE_ORDER)
  }

  /** The player stands in a known place, and the place order lists exactly the places. */
  ghost predicate Consistent(g: GameState)
  {
    g.playerLocation in g.locations && forall x :: x in g.locationOrder <==> x in g.locations
  }

  // ---------------------------------------------------------------------
  // Setting up the personas
  // ---------------------------------------------------------------------

  /** The scratch notes a persona starts with. */
  function Scratch(c: PersonaConfig): map<string, string>
  {
    map["traits" := Join(c.traits, ", "), "backstory" := c.backstory]
  }

  /** Every configured default location is a known place (otherwise Python raises `KeyError`). */
  predicate Placed(g: GameState, configs: seq<PersonaConfig>)
  {
    forall i :: 0 <= i < |configs| ==> configs[i].defaultLocation in g.locations
  }

  /** One persona of `_init_personas`: its state, and its name among its place's occupants. */
  function AddPersona(g: GameState, c: PersonaConfig): (r: GameState)
    requires c.defaultLocation in g.locations
    ensures r.locations.Keys == g.locations.Keys
  {
    var loc := c.defaultLocation;
    g.(personas := g.personas[c.name := PersonaState(c.name, loc, Scratch(c), {})],
       locations := g.locations[loc := g.locations[loc].(occupants := g.locations[loc].occupants + {c.name})])
  }

  /** `_init_personas`. */
  function InitPersonas(g: GameState, configs: seq<PersonaConfig>): (r: GameState)
    requires Placed(g, configs)
    ensures r.locations.Keys == g.locations.Keys
    ensures r == g.(personas := r.personas, locations := r.locations)
  {
    if configs == [] then g
    else
      var init := configs[..|configs| - 1];
      assert Placed(g, init) by {
        forall i | 0 <= i < |init| ensures init[i].defaultLocation in g.locations {
          assert init[i] == configs[i];
        }
      }
      AddPersona(InitPersonas(g, init), configs[|configs| - 1])
  }

  /** A prefix of placed configurations is placed. */
  lemma PlacedPrefix(g: GameState, configs: seq<PersonaConfig>, n: nat)
    requires Placed(g, configs) && n <= |configs|
    ensures Placed(g, configs[..n])
  {
    forall i | 0 <= i < n ensures configs[..n][i].defaultLocation in g.locations {
      assert configs[..n][i] == configs[i];
    }
  }

  /** Every persona is among the occupants of the place it stands in. */
  ghost predicate Seated(g: GameState)
  {
    forall n :: n in g.personas ==>
      g.personas[n].location in g.locations && n in g.locations[g.personas[n].location].occupants
  }

  /** Every persona's state is the starting state of one of the configurations. */
  ghost predicate Configured(g: GameState, configs: seq<PersonaConfig>)
  {
    forall n :: n in g.personas ==>
      (exists i :: 0 <= i < |configs| && configs[i].name == n &&
                   g.personas[n] == PersonaState(n, configs[i].defaultLocation, Scratch(configs[i]), {}))
  }

  /**
   * After set-up every configured name is a persona, and every persona
   * (there were none before) starts from one of the configurations.
   */
  lemma {:induction false} InitPersonasConfigured(g: GameState, configs: seq<PersonaConfig>)
    requires Placed(g, configs) && g.personas == map[]
    ensures forall i :: 0 <= i < |configs| ==> configs[i].name in InitPersonas(g, configs).personas
    ensures Configured(InitPersonas(g, configs), configs)
  {
    if configs != [] {
      var init := configs[..|configs| - 1];
      var c := configs[|configs| - 1];
      PlacedPrefix(g, configs, |configs| - 1);
      InitPersonasConfigured(g, init);
      var r0, r := InitPersonas(g, init), InitPersonas(g, configs);
      assert r == AddPersona(r0, c);
      forall i | 0 <= i < |configs| ensures configs[i].name in r.personas {
        if i < |init| {
          assert init[i] == configs[i];
          assert init[i].name in r0.personas;
        }
      }
      forall n | n in r.personas
        ensures (exists i :: 0 <= i < |configs| && configs[i].name == n &&
                             r.personas[n] == PersonaState(n, configs[i].defaultLocation, Scratch(configs[i]), {}))
      {
        if n != c.name {
          assert n in r0.personas;
          var i :| 0 <= i < |init| && init[i].name == n &&
                   r0.personas[n] == PersonaState(n, init[i].defaultLocation, Scratch(init[i]), {});
          assert configs[i] == init[i];
        } else {
          assert configs[|configs| - 1] == c;
        }
      }
    }
  }

  /** Set-up keeps every persona seated among the occupants of its place. */
  lemma {:induction false} InitPersonasSeated(g: GameState, configs: seq<PersonaConfig>)
    requires Placed(g, configs) && Seated(g)
    ensures Seated(InitPersonas(g, configs))
  {
    if configs != [] {
      var c := configs[|configs| - 1];
      PlacedPrefix(g, configs, |configs| - 1);
      InitPersonasSeated(g, configs[..|configs| - 1]);
      var r0, r := InitPersonas(g, configs[..|configs| - 1]), InitPersonas(g, configs);
      assert r == AddPersona(r0, c);
      forall n | n in r.personas
        ensures r.personas[n].location in r.locations && n in r.locations[r.personas[n].location].occupants
      {
        if n != c.name {
          assert n in r0.personas;
        }
      }
    }
  }

  // ---------------------------------------------------------------------
  // The player's actions
  // ---------------------------------------------------------------------

  /** The game state together with the event log not yet consumed. */
  datatype Session = Session(state: GameState, log: seq<Event>)

  /** `_move_player`. */
  function MoveTo(p: Session, dest: string): Session
  {
    if dest !in p.state.locations then
      Session(p.state, p.log + [NewEvent(System, "你试图前往未知地点，但失败了。")])
    else
      Session(p.state.(playerLocation := dest),
              p.log + [Event(PlayerAction, "你来到了 " + dest + "。", Some(PLAYER), Some(dest), map[])])
  }

  /** `_talk_to_persona`. */
  function TalkTo(p: Session, name: string): Session
  {
    if name !in p.state.personas then Session(p.state, p.log + [NewEvent(System, name + " 并不存在。")])
    else if p.state.personas[name].location != p.state.playerLocation then
      Session(p.state, p.log + [NewEvent(System, name + " 不在这里。")])
    else
      Session(p.state, p.log + [Event(PlayerAction, "你向 " + name + " 打了声招呼。", Some(PLAYER),
                                      Some(p.state.playerLocation), map[])])
  }

  /** The id of the clue found at `location` in turn `turn`. */
  function ClueId(location: string, turn: int): string
  {
    Underscored(Lower(location)) + "_clue_" + Show(turn)
  }

  /**
   * A clue id is the place name lower-cased with its spaces turned into
   * underscores, then `_clue_`, then the turn number.
   */
  lemma ClueIdSpec(location: string, turn: int)
    ensures var id := ClueId(location, turn);
      |id| == |location| + 6 + |Show(turn)| &&
      (forall i :: 0 <= i < |location| ==> id[i] == if location[i] == ' ' then '_' else LowerChar(location[i])) &&
      id[|location|..|location| + 6] == "_clue_" && id[|location| + 6..] == Show(turn)
  {
  }

  /** `_investigate_location`: a new clue, found by the player, named after the place and the turn. */
  function InvestigateHere(p: Session): Session
  {
    var loc := p.state.playerLocation;
    var id := ClueId(loc, p.state.turn);
    Session(p.state.(clues := p.state.clues[id := Clue(id, loc + " 的新发现", PLAYER, false)]),
            p.log + [Event(ClueFound, "你在 " + loc + " 发现了一条线索。", Some(PLAYER), Some(loc), map["clue_id" := id])])
  }

  /** The summary `_reflect` gives: the sorted clue ids joined, or a placeholder when that is empty. */
  ghost function ClueSummary(clues: set<string>): string
  {
    var joined := Join(Sorted(clues), ", ");
    if joined == "" then "暂无线索" else joined
  }

  /** `_reflect`. */
  ghost function ReflectOn(p: Session): Session
  {
    Session(p.state, p.log + [Event(PlayerAction, "你回顾了目前掌握的线索：" + ClueSummary(p.state.clues.Keys),
                                    Some(PLAYER), None, map[])])
  }

  /** The action an accepted type and target lead to. */
  ghost function Dispatch(p: Session, a: ActionType, target: Option<string>): Session
  {
    if a == Move && target.Some? then MoveTo(p, target.value)
    else if a == Talk && target.Some? then TalkTo(p, target.value)
    else if a == Investigate then InvestigateHere(p)
    else if a == Reflect then ReflectOn(p)
    else Session(p.state, p.log + [NewEvent(System, "未知的玩家动作。")])
  }

  /**
   * `apply_player_action`: `None` when the action's type is missing or not
   * an action type (Python raises before changing anything); otherwise
   * the action, then one more turn. A target that is not a string is
   * `None`.
   */
  ghost function Apply(p: Session, kind: Option<string>, target: Option<string>): Option<Session>
  {
    if kind.None? || ParseAction(kind.value).None? then None
    else
      var p1 := Dispatch(p, ParseAction(kind.value).value, target);
      Some(p1.(state := p1.state.(turn := p1.state.turn + 1)))
  }

  /**
   * Each accepted action logs exactly one event and counts as exactly one
   * turn; personas and places never change; the player changes place
   * only by moving to a known place; clues change only by investigating,
   * which adds the id of this place and turn.
   */
  lemma ApplySpec(p: Session, kind: Option<string>, target: Option<string>)
    ensures Apply(p, kind, target).Some? <==> kind.Some? && ParseAction(kind.value).Some?
    ensures Apply(p, kind, target).Some? ==>
      var r := Apply(p, kind, target).value;
      r.state.turn == p.state.turn + 1 && |r.log| == |p.log| + 1 && r.log[..|p.log|] == p.log &&
      r.state.personas == p.state.personas && r.state.locations == p.state.locations &&
      r.state.locationOrder == p.state.locationOrder &&
      (r.state.playerLocation != p.state.playerLocation ==>
        kind == Some("move") && target == Some(r.state.playerLocation) && r.state.playerLocation in p.state.locations) &&
      (r.state.clues.Keys == p.state.clues.Keys ||
       (kind == Some("investigate") &&
        r.state.clues.Keys == p.state.clues.Keys + {ClueId(p.state.playerLocation, p.state.turn)}))
    ensures Apply(p, kind, target).Some? && Consistent(p.state) ==> Consistent(Apply(p, kind, target).value.state)
  {
    if kind.Some? && ParseAction(kind.value).Some? {
      var a := ParseAction(kind.value).value;
      var r := Dispatch(p, a, target);
      assert r.log[..|p.log|] == p.log;
      if r.state.playerLocation != p.state.playerLocation {
        assert a == Move;
      }
    }
  }

  /** A move to a known place puts the player there; otherwise only a SYSTEM event is logged. */
  lemma MoveToSpec(p: Session, dest: string)
    ensures var r := MoveTo(p, dest);
      r.state.playerLocation == (if dest in p.state.locations then dest else p.state.playerLocation) &&
      r.state == p.state.(playerLocation := r.state.playerLocation) &&
      |r.log| == |p.log| + 1 && r.log[..|p.log|] == p.log &&
      (r.log[|p.log|].kind == System <==> dest !in p.state.locations)
  {
    assert MoveTo(p, dest).log[..|p.log|] == p.log;
  }

  /**
   * Talking changes no state; the greeting is logged exactly when the
   * persona exists and stands where the player is, and a SYSTEM message
   * otherwise.
   */
  lemma TalkToSpec(p: Session, name: string)
    ensures var r := TalkTo(p, name);
      r.state == p.state && |r.log| == |p.log| + 1 && r.log[..|p.log|] == p.log &&
      (r.log[|p.log|].kind == PlayerAction <==>
        name in p.state.personas && p.state.personas[name].location == p.state.playerLocation) &&
      (r.log[|p.log|].kind != PlayerAction ==> r.log[|p.log|].kind == System)
  {
    assert TalkTo(p, name).log[..|p.log|] == p.log;
  }

  /**
   * Investigating stores the player's clue under the id of this place and
   * turn, keeps every other clue, and logs a CLUE_FOUND event carrying
   * that id.
   */
  lemma InvestigateHereSpec(p: Session)
    ensures var r := InvestigateHere(p);
      var id := ClueId(p.state.playerLocation, p.state.turn);
      r.state == p.state.(clues := r.state.clues) &&
      id in r.state.clues && r.state.clues[id].clueId == id && r.state.clues[id].discoveredBy == PLAYER &&
      (forall c :: c in p.state.clues && c != id ==> c in r.state.clues && r.state.clues[c] == p.state.clues[c]) &&
      r.state.clues.Keys == p.state.clues.Keys + {id} &&
      r.log == p.log + [r.log[|p.log|]] && r.log[|p.log|].kind == ClueFound &&
      r.log[|p.log|].metadata == map["clue_id" := id]
  {
  }

  // ---------------------------------------------------------------------
  // The actions offered
  // ---------------------------------------------------------------------

  /** One entry of `available_actions`. */
  datatype ActionOption = ActionOption(kind: ActionType, title: string, target: Option<string>)

  function MoveOption(name: string): ActionOption
  {
    ActionOption(Move, "前往 " + name, Some(name))
  }

  function TalkOption(persona: string): ActionOption
  {
    ActionOption(Talk, "与 " + persona + " 对话", Some(persona))
  }

  /** The move offers: every place but `here`, in dictionary order. */
  function MoveOptions(names: seq<string>, here: string): seq<ActionOption>
  {
    if names == [] then []
    else MoveOptions(names[..|names| - 1], here) +
         (if names[|names| - 1] != here then [MoveOption(names[|names| - 1])] else [])
  }

  /** The talk offers, one per name, in the given order. */
  function TalkOptions(names: seq<string>): (r: seq<ActionOption>)
    ensures |r| == |names| && forall i :: 0 <= i < |names| ==> r[i] == TalkOption(names[i])
  {
    if names == [] then [] else TalkOptions(names[..|names| - 1]) + [TalkOption(names[|names| - 1])]
  }

  /** `available_actions`: moves, then talks in name order, then investigating here, then reflecting. */
  ghost function Options(g: GameState): seq<ActionOption>
    requires g.playerLocation in g.locations
  {
    Offers(MoveOptions(g.locationOrder, g.playerLocation), Sorted(g.locations[g.playerLocation].occupants),
           g.playerLocation)
  }

  /** The offers built from the moves and the occupants' names. */
  function Offers(moves: seq<ActionOption>, names: seq<string>, here: string): seq<ActionOption>
  {
    moves + TalkOptions(names) +
      [ActionOption(Investigate, "调查当前地点", Some(here)), ActionOption(Reflect, "梳理线索", None)]
  }

  /** Besides the moves, the offers are one talk per name in order, then investigating and reflecting. */
  lemma OffersSpec(moves: seq<ActionOption>, names: seq<string>, here: string)
    requires forall o :: o in moves ==> o.kind == Move
    ensures var r := Offers(moves, names, here);
      |r| == |moves| + |names| + 2 &&
      (forall x :: MoveOption(x) in r <==> MoveOption(x) in moves) &&
      (forall i :: 0 <= i < |moves| ==> r[i] == moves[i]) &&
      (forall i :: |moves| <= i < |r| - 2 ==> r[i] == TalkOption(names[i - |moves|])) &&
      (forall n :: TalkOption(n) in r <==> n in names) &&
      r[|r| - 2] == ActionOption(Investigate, "调查当前地点", Some(here)) &&
      r[|r| - 1] == ActionOption(Reflect, "梳理线索", None)
  {
    var r := Offers(moves, names, here);
    var talks := TalkOptions(names);
    forall n ensures TalkOption(n) in r <==> n in names {
      if TalkOption(n) in r {
        var k :| 0 <= k < |r| && r[k] == TalkOption(n);
        if k < |moves| {
          assert false;
        } else {
          assert talks[k - |moves|] == TalkOption(n);
          assert "与 " + names[k - |moves|] + " 对话" == "与 " + n + " 对话";
          assert names[k - |moves|] == n by {
            TalkTitleInjective(names[k - |moves|], n);
          }
        }
      }
      if n in names {
        var k :| 0 <= k < |names| && names[k] == n;
        assert r[|moves| + k] == talks[k];
      }
    }
    forall x ensures MoveOption(x) in r <==> MoveOption(x) in moves {
      if MoveOption(x) in r {
        var k :| 0 <= k < |r| && r[k] == MoveOption(x);
        assert k < |moves|;
      }
    }
  }

  /** Two talk titles are equal only for the same name. */
  lemma TalkTitleInjective(a: string, b: string)
    requires "与 " + a + " 对话" == "与 " + b + " 对话"
    ensures a == b
  {
    var ta, tb := "与 " + a + " 对话", "与 " + b + " 对话";
    assert |a| == |b|;
    assert a == ta[2..2 + |a|] && b == tb[2..2 + |b|];
  }

  /** The move offers go exactly to the listed places other than `here`, and are all moves. */
  lemma {:induction false} MoveOptionsSpec(names: seq<string>, here: string)
    ensures forall x :: MoveOption(x) in MoveOptions(names, here) <==> x in names && x != here
    ensures forall o :: o in MoveOptions(names, here) ==> o.kind == Move
  {
    if names != [] {
      var init := names[..|names| - 1];
      MoveOptionsSpec(init, here);
      forall x ensures MoveOption(x) in MoveOptions(names, here) <==> x in names && x != here {
        assert x in names <==> x in init || x == names[|names| - 1] by {
          assert names == init + [names[|names| - 1]];
        }
        if MoveOption(x) == MoveOption(names[|names| - 1]) {
          assert "前往 " + x == "前往 " + names[|names| - 1];
          assert x == ("前往 " + x)[|"前往 "|..];
        }
      }
    }
  }

  /**
   * The offers: a move to every other place and no other move, a talk
   * with every occupant of this place and no one else, the talks in
   * ascending name order, then investigating this place, and reflecting
   * last.
   */
  lemma OptionsSpec(g: GameState)
    requires Consistent(g)
    ensures var r := Options(g);
      var m := |MoveOptions(g.locationOrder, g.playerLocation)|;
      |r| == m + |g.locations[g.playerLocation].occupants| + 2 &&
      (forall x :: MoveOption(x) in r <==> x in g.locations && x != g.playerLocation) &&
      (forall i :: 0 <= i < m ==> r[i].kind == Move) &&
      (forall n :: TalkOption(n) in r <==> n in g.locations[g.playerLocation].occupants) &&
      (forall i :: m <= i < |r| - 2 ==> r[i].kind == Talk && r[i].target.Some?) &&
      (forall i, j :: m <= i < j < |r| - 2 ==>
        StrLe(r[i].target.value, r[j].target.value) && r[i].target != r[j].target) &&
      r[|r| - 2] == ActionOption(Investigate, "调查当前地点", Some(g.playerLocation)) &&
      r[|r| - 1] == ActionOption(Reflect, "梳理线索", None)
  {
    var here := g.playerLocation;
    var moves := MoveOptions(g.locationOrder, here);
    var names := Sorted(g.locations[here].occupants);
    MoveOptionsSpec(g.locationOrder, here);
    SortedSpec(g.locations[here].occupants);
    OffersSpec(moves, names, here);
  }

  // ---------------------------------------------------------------------
  // The manager
  // ---------------------------------------------------------------------

  /** `GameStateManager`: the canonical game state and the event log, changed in place by each action. */
  class GameStateManager {
    var state: GameState
    var eventLog: seq<Event>

    function Snapshot(): Session
      reads this
    {
      Session(state, eventLog)
    }

    ghost predicate Valid()
      reads this
    {
      Consistent(state)
    }

    /** `GameStateManager(persona_configs)`: the three places, then the personas at their default places. */
    constructor(configs: seq<PersonaConfig>)
      requires Placed(Initial(), configs)
      ensures Snapshot() == Session(InitPersonas(Initial(), configs), []) && Valid()
    {
      var g := Initial();
      var i := 0;
      while i < |configs|
        invariant 0 <= i <= |configs|
        invariant Placed(Initial(), configs[..i]) && g == InitPersonas(Initial(), configs[..i])
      {
        PlacedPrefix(Initial(), configs, i + 1);
        assert configs[..i + 1][..i] == configs[..i];
        var c := configs[i];
        var loc := c.defaultLocation;
        g := g.(personas := g.personas[c.name := PersonaState(c.name, loc, Scratch(c), {})],
                locations := g.locations[loc := g.locations[loc].(occupants := g.locations[loc].occupants + {c.name})]);
        i := i + 1;
      }
      assert configs[..i] == configs;
      state := g;
      eventLog := [];
    }

    /** `log_event`. */
    method LogEvent(e: Event)
      modifies this
      ensures state == old(state) && eventLog == old(eventLog) + [e]
    {
      eventLog := eventLog + [e];
    }

    /** `consume_events`: every logged event in order; the log is left empty. */
    method ConsumeEvents() returns (events: seq<Event>)
      modifies this
      ensures events == old(eventLog) && eventLog == [] && state == old(state)
    {
      events := eventLog;
      eventLog := [];
    }

    /** `available_actions`. */
    method AvailableActions() returns (options: seq<ActionOption>)
      requires Valid()
      ensures options == Options(state)
    {
      var here := state.playerLocation;
      var names := SortStrings(state.locations[here].occupants);
      options := MoveOptions(state.locationOrder, here) + TalkOptions(names) +
                 [ActionOption(Investigate, "调查当前地点", Some(here)), ActionOption(Reflect, "梳理线索", None)];
    }

    /** `_move_player`. */
    method MovePlayer(dest: string)
      requires Valid()
      modifies this
      ensures Valid()
      ensures Snapshot() == MoveTo(old(Snapshot()), dest)
    {
      if dest !in state.locations {
        LogEvent(NewEvent(System, "你试图前往未知地点，但失败了。"));
        return;
      }
      state := state.(playerLocation := dest);
      LogEvent(Event(PlayerAction, "你来到了 " + dest + "。", Some(PLAYER), Some(dest), map[]));
    }

    /** `_talk_to_persona`. */
    method TalkToPersona(name: string)
      requires Valid()
      modifies this
      ensures Valid()
      ensures Snapshot() == TalkTo(old(Snapshot()), name)
    {
      if name !in state.personas {
        LogEvent(NewEvent(System, name + " 并不存在。"));
        return;
      }
      if state.personas[name].location != state.playerLocation {
        LogEvent(NewEvent(System, name + " 不在这里。"));
        return;
      }
      LogEvent(Event(PlayerAction, "你向 " + name + " 打了声招呼。", Some(PLAYER), Some(state.playerLocation), map[]));
    }

    /** `_investigate_location`. */
    method InvestigateLocation()
      requires Valid()
      modifies this
      ensures Valid()
      ensures Snapshot() == InvestigateHere(old(Snapshot()))
    {
      var loc := state.playerLocation;
      var id := ClueId(loc, state.turn);
      var event := Event(ClueFound, "你在 " + loc + " 发现了一条线索。", Some(PLAYER), Some(loc), map["clue_id" := id]);
      state := state.(clues := state.clues[id := Clue(id, loc + " 的新发现", PLAYER, false)]);
      LogEvent(event);
    }

    /** `_reflect`. */
    method ReflectOnClues()
      requires Valid()
      modifies this
      ensures Valid()
      ensures Snapshot() == ReflectOn(old(Snapshot()))
    {
      var ids := SortStrings(state.clues.Keys);
      var summary := Join(ids, ", ");
      if summary == "" {
        summary := "暂无线索";
      }
      LogEvent(Event(PlayerAction, "你回顾了目前掌握的线索：" + summary, Some(PLAYER), None, map[]));
    }

    /**
     * `apply_player_action`; `accepted` is false where Python raises
     * (a missing or unknown action type), and then nothing changes.
     */
    method ApplyPlayerAction(kind: Option<string>, target: Option<string>) returns (accepted: bool)
      requires Valid()
      modifies this
      ensures Valid()
      ensures accepted <==> Apply(old(Snapshot()), kind, target).Some?
      ensures accepted ==> Snapshot() == Apply(old(Snapshot()), kind, target).value
      ensures !accepted ==> Snapshot() == old(Snapshot())
    {
      ApplySpec(Snapshot(), kind, target);
      if kind.None? || ParseAction(kind.value).None? {
        return false;
      }
      var a := ParseAction(kind.value).value;
      if a == Move && target.Some? {
        MovePlayer(target.value);
      } else if a == Talk && target.Some? {
        TalkToPersona(target.value);
      } else if a == Investigate {
        InvestigateLocation();
      } else if a == Reflect {
        ReflectOnClues();
      } else {
        LogEvent(NewEvent(System, "未知的玩家动作。"));
      }
      state := state.(turn := state.turn + 1);
      accepted := true;
    }
  }
}
