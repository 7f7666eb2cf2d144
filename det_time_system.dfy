/**
 * `TimeSystem`: advances the shared clock one period at a time and says
 * when the scenario's last day is over.
 */
module DetTimeSystem {
  import opened DetGameState

  /** The default of `max_days`. */
  const DEFAULT_MAX_DAYS := 3

  /** `is_game_over`: the clock has passed the last day. */
  predicate GameOver(maxDays: int, t: GameTime)
  {
    t.day > maxDays
  }

  /**
   * Advancing never ends a game early or revives a finished one: the
   * game is over after an advance exactly when it already was, or the
   * last night of the last day has just ended.
   */
  lemma AdvanceEndsGame(maxDays: int, t: GameTime)
    ensures GameOver(maxDays, Advance(t).0) <==>
            GameOver(maxDays, t) || (t.day == maxDays && t.period == Night)
  {
  }

  /**
   * From the dawn of day `d` (at most the last day), the game ends
   * after exactly `6 * (maxDays - d) + 6` periods: it is not over one
   * period before and it is over then.
   */
  lemma GameLength(maxDays: int, d: int)
    requires d <= maxDays
    ensures var n := 6 * (maxDays - d) + 6;
            !GameOver(maxDays, AdvanceN(GameTime(d, Dawn), n - 1)) &&
            GameOver(maxDays, AdvanceN(GameTime(d, Dawn), n))
  {
    var days := maxDays - d + 1;
    var t := GameTime(d, Dawn);
    DaysPass(t, days);
    AdvanceNSpec(t, 6 * days - 1);
    assert (6 * days - 1) / 6 == days - 1;
  }

  /**
   * From the morning of day `d`, where the default game starts, the game
   * ends after exactly `6 * (maxDays - d) + 5` periods.
   */
  lemma GameLengthFromMorning(maxDays: int, d: int)
    requires d <= maxDays
    ensures var n := 6 * (maxDays - d) + 5;
            !GameOver(maxDays, AdvanceN(GameTime(d, Morning), n - 1)) &&
            GameOver(maxDays, AdvanceN(GameTime(d, Morning), n))
  {
    var n := 6 * (maxDays - d) + 5;
    GameLength(maxDays, d);
    assert Advance(GameTime(d, Dawn)).0 == GameTime(d, Morning);
    assert AdvanceN(GameTime(d, Dawn), n) == AdvanceN(GameTime(d, Morning), n - 1);
    assert AdvanceN(GameTime(d, Dawn), n + 1) == AdvanceN(GameTime(d, Morning), n);
  }

  class TimeSystem {
    const maxDays: int

    /** `TimeSystem(max_days)`. */
    constructor(maxDays: int)
      ensures this.maxDays == maxDays
    {
      this.maxDays := maxDays;
    }

    /** `TimeSystem()`: three days. */
    constructor Default()
      ensures maxDays == DEFAULT_MAX_DAYS
    {
      maxDays := DEFAULT_MAX_DAYS;
    }

    /**
     * `advance_time`: the state's clock moves one period on; the result
     * is the new-day flag of that advance and nothing else changes.
     */
    method AdvanceTime(gs: GameState) returns (newDay: bool)
      modifies gs
      ensures (gs.time, newDay) == Advance(old(gs.time))
      ensures gs.Record() == old(gs.Record()).(time := gs.time)
    {
      newDay := gs.AdvanceTime();
    }

    /** `is_game_over`. */
    predicate IsGameOver(gs: GameState)
      reads gs
    {
      GameOver(maxDays, gs.time)
    }

    /** `get_current_time`: the state's clock, read without change. */
    function GetCurrentTime(gs: GameState): GameTime
      reads gs
    {
      gs.time
    }
  }
}
