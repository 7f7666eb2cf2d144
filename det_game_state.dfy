/**
 * The detective scenario's clock and shared state: the six periods of a
 * day, the in-game time that rolls over to a new day after the night, the
 * player's clue and item sets, the global flags and the set of timeline
 * events already triggered. The record is a value (`GameRecord`); the
 * `GameState` class holds the same fields and changes them in place.
 */
module DetGameState {
  import opened Common

  /** `TimePeriod`: the six periods of a day, in order. */
  datatype TimePeriod = Dawn | Morning | Noon | Afternoon | Evening | Night
  {
    /** The enum's string value, as stored in configs and events. */
    function Value(): string
    {
      match this
      case Dawn => "dawn"
      case Morning => "morning"
      case Noon => "noon"
      case Afternoon => "afternoon"
      case Evening => "evening"
      case Night => "night"
    }

    /** `to_chinese`. */
    function Chinese(): string
    {
      match this
      case Dawn => "黎明"
      case Morning => "早上"
      case Noon => "中午"
      case Afternoon => "下午"
      case Evening => "傍晚"
      case Night => "深夜"
    }
  }

  /** `TimePeriod.order()`. */
  const PERIODS: seq<TimePeriod> := [Dawn, Morning, Noon, Afternoon, Evening, Night]

  /** `order.index(p)`: the position of a period in the day. */
  function IndexOf(p: TimePeriod): (i: nat)
    ensures i < |PERIODS| && PERIODS[i] == p
  {
    match p
    case Dawn => 0
    case Morning => 1
    case Noon => 2
    case Afternoon => 3
    case Evening => 4
    case Night => 5
  }

  /** `TimePeriod(value)`: the period with that string value, if any. */
  function PeriodOf(s: string): (r: Option<TimePeriod>)
    ensures r.Some? ==> r.value.Value() == s
    ensures r.None? ==> forall p: TimePeriod :: p.Value() != s
  {
    if s == "dawn" then Some(Dawn)
    else if s == "morning" then Some(Morning)
    else if s == "noon" then Some(Noon)
    else if s == "afternoon" then Some(Afternoon)
    else if s == "evening" then Some(Evening)
    else if s == "night" then Some(Night)
    else None
  }

  /** Distinct periods have distinct string values. */
  lemma ValueInjective(p: TimePeriod, q: TimePeriod)
    ensures p.Value() == q.Value() ==> p == q
  {
    if p.Value() == q.Value() {
      assert PeriodOf(p.Value()) == Some(p);
      assert PeriodOf(q.Value()) == Some(q);
    }
  }

  /**
   * `TimePeriod.next`: the following period of the day and whether a new
   * day begins. The day ends after the night, which is followed by dawn.
   */
  function Next(p: TimePeriod): (r: (TimePeriod, bool))
    ensures IndexOf(r.0) == (IndexOf(p) + 1) % |PERIODS|
    ensures r.1 <==> p == Night
  {
    var i := IndexOf(p);
    if i == |PERIODS| - 1 then (PERIODS[0], true) else (PERIODS[i + 1], false)
  }

  /** `GameTime`: the day number and the period within it. */
  datatype GameTime = GameTime(day: int, period: TimePeriod)

  /** The default `GameTime()`: the morning of day 1. */
  const START_TIME := GameTime(1, Morning)

  /**
   * `GameTime.advance`: the next period; the day number grows by one
   * exactly when the night wraps to dawn, and that is what it reports.
   */
  function Advance(t: GameTime): (r: (GameTime, bool))
    ensures r.1 <==> t.period == Night
    ensures r.0.day == if r.1 then t.day + 1 else t.day
    ensures IndexOf(r.0.period) == (IndexOf(t.period) + 1) % |PERIODS|
  {
    var (p, newDay) := Next(t.period);
    (GameTime(if newDay then t.day + 1 else t.day, p), newDay)
  }

  /** `n` successive calls of `advance`. */
  function AdvanceN(t: GameTime, n: nat): GameTime
    decreases n
  {
    if n == 0 then t else AdvanceN(Advance(t).0, n - 1)
  }

  /**
   * After `n` advances the period has moved `n` places round the day and
   * the day number has grown by the number of nights passed.
   */
  lemma {:induction false} AdvanceNSpec(t: GameTime, n: nat)
    ensures IndexOf(AdvanceN(t, n).period) == (IndexOf(t.period) + n) % |PERIODS|
    ensures AdvanceN(t, n).day == t.day + (IndexOf(t.period) + n) / |PERIODS|
    decreases n
  {
    if n > 0 {
      var t1 := Advance(t).0;
      AdvanceNSpec(t1, n - 1);
      var i := IndexOf(t.period);
      if i == 5 {
        assert IndexOf(t1.period) == 0 && t1.day == t.day + 1;
        assert (i + n) / 6 == 1 + (n - 1) / 6;
        assert (i + n) % 6 == (n - 1) % 6;
      } else {
        assert IndexOf(t1.period) == i + 1 && t1.day == t.day;
      }
    }
  }

  /** Six advances come back to the same period on the next day. */
  lemma SixAdvances(t: GameTime)
    ensures AdvanceN(t, 6) == GameTime(t.day + 1, t.period)
  {
    AdvanceNSpec(t, 6);
    var r := AdvanceN(t, 6);
    assert PERIODS[IndexOf(r.period)] == r.period;
  }

  /** Every six advances add one day. */
  lemma {:induction false} DaysPass(t: GameTime, days: nat)
    ensures AdvanceN(t, 6 * days) == GameTime(t.day + days, t.period)
  {
    if days > 0 {
      DaysPass(t, days - 1);
      AdvanceNAdd(t, 6 * (days - 1), 6);
      SixAdvances(AdvanceN(t, 6 * (days - 1)));
    }
  }

  lemma {:induction false} AdvanceNAdd(t: GameTime, m: nat, n: nat)
    ensures AdvanceN(t, m + n) == AdvanceN(AdvanceN(t, m), n)
    decreases m
  {
    if m > 0 {
      AdvanceNAdd(Advance(t).0, m - 1, n);
    }
  }

  /** `GameTime.matches`: the same day and the period with that value. */
  predicate Matches(t: GameTime, day: int, time: string)
  {
    t.day == day && t.period.Value() == time
  }

  /** A time matches exactly its own day and period. */
  lemma MatchesSpec(t: GameTime, day: int, time: string)
    ensures Matches(t, day, time) <==> PeriodOf(time).Some? && t == GameTime(day, PeriodOf(time).value)
  {
    if PeriodOf(time).Some? {
      ValueInjective(t.period, PeriodOf(time).value);
    }
  }

  /** `PlayerState`: the player's name, place, clues, conversations and items. */
  datatype PlayerState = PlayerState(
    name: string,
    location: string,
    clues: set<string>,
    conversationIds: seq<string>,
    inventory: set<string>)

  /** The defaults of `PlayerState()`. */
  const DEFAULT_PLAYER := PlayerState("玩家", "entrance_hall", {}, [], {})

  /**
   * The shared game state as a value: the clock, the player, the flags
   * and the triggered timeline events.
   */
  datatype GameRecord = GameRecord(
    time: GameTime,
    player: PlayerState,
    flags: map<string, Value>,
    triggered: set<string>)

  /** A fresh game state at a given time and with a given player. */
  function NewRecord(time: GameTime, player: PlayerState): (r: GameRecord)
    ensures r.time == time && r.player == player && r.flags == map[] && r.triggered == {}
  {
    GameRecord(time, player, map[], {})
  }

  /** `has_flag`: the flag is stored and its value is truthy. */
  predicate HasFlag(r: GameRecord, key: string)
  {
    key in r.flags && Truthy(r.flags[key])
  }

  /** `get_flag`: the stored value, or the default. */
  function GetFlag(r: GameRecord, key: string, default: Value): (v: Value)
    ensures key in r.flags ==> v == r.flags[key]
    ensures key !in r.flags ==> v == default
  {
    if key in r.flags then r.flags[key] else default
  }

  /** `set_flag(key, value)`. */
  function WithFlag(r: GameRecord, key: string, value: Value): GameRecord
  {
    r.(flags := r.flags[key := value])
  }

  /**
   * The prefix of the flag that makes a clue discoverable whatever event
   * it otherwise waits for; timeline effects and a murderer's plan raise it.
   */
  const CLUE_AVAILABLE := "clue_available_"

  /** `set_flag(key)`: the value defaults to True. */
  function RaiseFlag(r: GameRecord, key: string): GameRecord
  {
    WithFlag(r, key, VBool(true))
  }

  /**
   * Setting a flag stores exactly that value under that key: `has_flag`
   * then follows its truthiness, a raised flag is set, and every other
   * flag and field is unchanged.
   */
  lemma SetFlagSpec(r: GameRecord, key: string, value: Value)
    ensures GetFlag(WithFlag(r, key, value), key, VNone) == value
    ensures HasFlag(WithFlag(r, key, value), key) <==> Truthy(value)
    ensures HasFlag(RaiseFlag(r, key), key)
    ensures forall k :: k != key ==> (HasFlag(WithFlag(r, key, value), k) <==> HasFlag(r, k))
    ensures WithFlag(r, key, value).(flags := r.flags) == r
  {
  }

  /** A missing flag reads as the default and is not set. */
  lemma MissingFlag(r: GameRecord, key: string, default: Value)
    requires key !in r.flags
    ensures GetFlag(r, key, default) == default && !HasFlag(r, key)
  {
  }

  /** `mark_event_triggered`. */
  function MarkTriggered(r: GameRecord, id: string): GameRecord
  {
    r.(triggered := r.triggered + {id})
  }

  /** `is_event_triggered`. */
  predicate IsTriggered(r: GameRecord, id: string)
  {
    id in r.triggered
  }

  /** Marking an event makes it triggered, keeps every other mark and changes nothing else. */
  lemma MarkTriggeredSpec(r: GameRecord, id: string)
    ensures IsTriggered(MarkTriggered(r, id), id)
    ensures forall e :: e != id ==> (IsTriggered(MarkTriggered(r, id), e) <==> IsTriggered(r, e))
    ensures MarkTriggered(r, id).(triggered := r.triggered) == r
  {
  }

  /** `PlayerState.add_clue`. */
  function WithClue(p: PlayerState, id: string): PlayerState
  {
    p.(clues := p.clues + {id})
  }

  /** `PlayerState.add_item`. */
  function WithItem(p: PlayerState, id: string): PlayerState
  {
    p.(inventory := p.inventory + {id})
  }

  /**
   * The clue and item collections are sets: adding makes `has_clue` /
   * `has_item` hold, adding twice is adding once, and nothing else is
   * gained or lost.
   */
  lemma CollectionsAreSets(p: PlayerState, id: string, other: string)
    ensures id in WithClue(p, id).clues && id in WithItem(p, id).inventory
    ensures WithClue(WithClue(p, id), id) == WithClue(p, id)
    ensures WithItem(WithItem(p, id), id) == WithItem(p, id)
    ensures other != id ==> (other in WithClue(p, id).clues <==> other in p.clues)
    ensures other != id ==> (other in WithItem(p, id).inventory <==> other in p.inventory)
    ensures WithClue(p, id).inventory == p.inventory && WithItem(p, id).clues == p.clues
  {
  }

  /**
   * `GameState`: the fields of the shared state, changed in place by the
   * systems. `time` and `player` are values that its methods reassign.
   */
  class GameState {
    var time: GameTime
    var player: PlayerState
    var flags: map<string, Value>
    var triggeredEvents: set<string>

    /** The fields as one value. */
    function Record(): GameRecord
      reads this
    {
      GameRecord(time, player, flags, triggeredEvents)
    }

    /** `GameState(time=..., player=...)`: no flags and no triggered event. */
    constructor(time: GameTime, player: PlayerState)
      ensures Record() == NewRecord(time, player)
    {
      this.time := time;
      this.player := player;
      flags := map[];
      triggeredEvents := {};
    }

    /** Stores a computed state in the fields. */
    method Load(r: GameRecord)
      modifies this
      ensures Record() == r
    {
      time, player, flags, triggeredEvents := r.time, r.player, r.flags, r.triggered;
    }

    /** `set_flag`. */
    method SetFlag(key: string, value: Value)
      modifies this
      ensures Record() == WithFlag(old(Record()), key, value)
    {
      flags := flags[key := value];
    }

    /** `mark_event_triggered`. */
    method MarkEventTriggered(id: string)
      modifies this
      ensures Record() == MarkTriggered(old(Record()), id)
    {
      triggeredEvents := triggeredEvents + {id};
    }

    /** `player.add_clue`. */
    method AddClue(id: string)
      modifies this
      ensures Record() == old(Record()).(player := WithClue(old(player), id))
    {
      player := player.(clues := player.clues + {id});
    }

    /** `player.add_item`. */
    method AddItem(id: string)
      modifies this
      ensures Record() == old(Record()).(player := WithItem(old(player), id))
    {
      player := player.(inventory := player.inventory + {id});
    }

    /** `time.advance()`: the clock moves one period on and reports a new day. */
    method AdvanceTime() returns (newDay: bool)
      modifies this
      ensures (time, newDay) == Advance(old(time))
      ensures Record() == old(Record()).(time := time)
    {
      var (p, wrapped) := Next(time.period);
      if wrapped {
        time := GameTime(time.day + 1, p);
      } else {
        time := time.(period := p);
      }
      newDay := wrapped;
    }
  }
}
