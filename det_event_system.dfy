/**
 * `EventSystem`: the scripted timeline of the detective scenario. On each
 * check every event that has not fired yet, whose day and period are the
 * current ones and whose condition holds, fires once: it is marked, its
 * effects are applied to the flags and to the characters, and an event
 * with text becomes a shown `GameEvent`. Events are examined in timeline
 * order against the state left by the ones before them.
 */
module DetEventSystem {
  import opened Common
  import opened Events
  import opened DetGameState
  import opened DetActor

  /** The default look-ahead of `get_upcoming_events`. */
  const DEFAULT_LOOK_AHEAD := 2

  // ---------------------------------------------------------------------
  // Conditions and effects
  // ---------------------------------------------------------------------

  /** `_check_condition`: the checks, in order, with the first failing one deciding. */
  predicate CheckCondition(c: Condition, r: GameRecord)
  {
    if c.flag.Some? && !HasFlag(r, c.flag.value) then false
    else if c.afterEvent.Some? && !IsTriggered(r, c.afterEvent.value) then false
    else if c.beforeEvent.Some? && IsTriggered(r, c.beforeEvent.value) then false
    else true
  }

  /**
   * A condition holds exactly when its flag is set, its `after_event` has
   * fired and its `before_event` has not, each only when present; so the
   * empty condition always holds.
   */
  lemma CheckConditionSpec(c: Condition, r: GameRecord)
    ensures CheckCondition(c, r) <==>
            (c.flag.Some? ==> HasFlag(r, c.flag.value)) &&
            (c.afterEvent.Some? ==> c.afterEvent.value in r.triggered) &&
            (c.beforeEvent.Some? ==> c.beforeEvent.value !in r.triggered)
    ensures CheckCondition(Condition(None, None, None), r)
  {
  }

  /** The `actor_status` loop: every listed character that exists and is "dead" dies. */
  function ApplyStatus(actors: map<string, ActorState>, status: map<string, string>): map<string, ActorState>
  {
    map id | id in actors :: if id in status && status[id] == "dead" then actors[id].(isAlive := false) else actors[id]
  }

  /** The `clue_available` loop. */
  function ClueFlags(r: GameRecord, clues: seq<string>): GameRecord
    decreases |clues|
  {
    if clues == [] then r else ClueFlags(RaiseFlag(r, CLUE_AVAILABLE + clues[0]), clues[1..])
  }

  /** The clue flags are raised, no other flag changes, and the rest of the state is kept. */
  lemma {:induction false} ClueFlagsSpec(r: GameRecord, clues: seq<string>)
    decreases |clues|
    ensures forall c :: c in clues ==> HasFlag(ClueFlags(r, clues), CLUE_AVAILABLE + c)
    ensures forall k :: k !in (set c | c in clues :: CLUE_AVAILABLE + c) ==>
              (k in ClueFlags(r, clues).flags <==> k in r.flags) &&
              (k in r.flags ==> ClueFlags(r, clues).flags[k] == r.flags[k])
    ensures ClueFlags(r, clues).(flags := r.flags) == r
  {
    if clues != [] {
      var r1 := RaiseFlag(r, CLUE_AVAILABLE + clues[0]);
      ClueFlagsSpec(r1, clues[1..]);
      forall c | c in clues ensures HasFlag(ClueFlags(r, clues), CLUE_AVAILABLE + c) {
        if c != clues[0] {
          assert c in clues[1..];
        }
      }
    }
  }

  /** The state one check works on: the shared record and the characters. */
  datatype Pass = Pass(record: GameRecord, actors: map<string, ActorState>)

  /** One entry of `_apply_effects`: the flags, then the characters, then the clues. */
  function ApplyEffect(p: Pass, e: Effect): Pass
  {
    var r1 := p.record.(flags := p.record.flags + e.setFlag);
    var actors := if |p.actors| > 0 then ApplyStatus(p.actors, e.actorStatus) else p.actors;
    Pass(ClueFlags(r1, e.clueAvailable), actors)
  }

  /** `_apply_effects`. */
  function ApplyEffects(p: Pass, effects: seq<Effect>): Pass
    decreases |effects|
  {
    if effects == [] then p else ApplyEffects(ApplyEffect(p, effects[0]), effects[1..])
  }

  /**
   * An effect sets every `set_flag` key to its value (unless the same
   * effect also raises that clue flag), raises the flag of each listed
   * clue, leaves every other flag and the rest of the record alone, and
   * applies its `actor_status` step to the characters (an empty
   * collection of characters is left as it is either way).
   */
  lemma ApplyEffectSpec(p: Pass, e: Effect)
    ensures ApplyEffect(p, e).record.(flags := p.record.flags) == p.record
    ensures forall k :: k in e.setFlag && k !in (set c | c in e.clueAvailable :: CLUE_AVAILABLE + c) ==>
              k in ApplyEffect(p, e).record.flags && ApplyEffect(p, e).record.flags[k] == e.setFlag[k]
    ensures forall c :: c in e.clueAvailable ==> HasFlag(ApplyEffect(p, e).record, CLUE_AVAILABLE + c)
    ensures forall k :: k !in e.setFlag && k !in (set c | c in e.clueAvailable :: CLUE_AVAILABLE + c) ==>
              (k in ApplyEffect(p, e).record.flags <==> k in p.record.flags) &&
              (k in p.record.flags ==> ApplyEffect(p, e).record.flags[k] == p.record.flags[k])
    ensures ApplyEffect(p, e).actors == ApplyStatus(p.actors, e.actorStatus)
  {
    ClueFlagsSpec(p.record.(flags := p.record.flags + e.setFlag), e.clueAvailable);
  }

  /**
   * The `actor_status` step keeps who exists, kills exactly the existing
   * characters marked "dead" and changes nothing else about anyone.
   */
  lemma ApplyStatusSpec(actors: map<string, ActorState>, status: map<string, string>)
    ensures ApplyStatus(actors, status).Keys == actors.Keys
    ensures forall id :: id in actors ==>
              ApplyStatus(actors, status)[id].isAlive == (actors[id].isAlive && !(id in status && status[id] == "dead")) &&
              ApplyStatus(actors, status)[id].(isAlive := actors[id].isAlive) == actors[id]
  {
  }

  /** Effects change neither the clock, the player, the triggered set nor who exists. */
  lemma {:induction false} ApplyEffectsFrame(p: Pass, effects: seq<Effect>)
    decreases |effects|
    ensures var q := ApplyEffects(p, effects);
      q.record.time == p.record.time && q.record.player == p.record.player &&
      q.record.triggered == p.record.triggered && q.actors.Keys == p.actors.Keys
  {
    if effects != [] {
      ApplyEffectSpec(p, effects[0]);
      ApplyStatusSpec(p.actors, effects[0].actorStatus);
      ApplyEffectsFrame(ApplyEffect(p, effects[0]), effects[1..]);
    }
  }

  // ---------------------------------------------------------------------
  // The check
  // ---------------------------------------------------------------------

  /** The shown event of a fired timeline event with text. */
  function Shown(e: TimelineEvent, t: GameTime): (g: GameEvent)
    requires Present(e.text)
    ensures g.eventType == e.eventType && g.day == t.day && g.time == t.period.Value()
    ensures g.text == Strip(e.text.value) && g.actor == e.actor && g.location.None?
    ensures g.metadata == map["event_id" := Some(e.id), "victim" := e.victim]
  {
    GameEvent(e.eventType, Strip(e.text.value), t.day, t.period.Value(), e.actor, None,
              map["event_id" := Some(e.id), "victim" := e.victim])
  }

  /** Whether an event fires when examined in state `p`. */
  predicate Fires(e: TimelineEvent, p: Pass)
  {
    !e.triggered && !IsTriggered(p.record, e.id) &&
    Matches(p.record.time, e.triggerDay, e.triggerTime) &&
    CheckCondition(e.condition, p.record)
  }

  /** One iteration of the loop in `check_and_trigger_events`: the event, the state and what is shown. */
  function FireOne(e: TimelineEvent, p: Pass): (TimelineEvent, Pass, seq<GameEvent>)
  {
    if e.triggered || IsTriggered(p.record, e.id) then (e, p, [])
    else if !Matches(p.record.time, e.triggerDay, e.triggerTime) then (e, p, [])
    else if !CheckCondition(e.condition, p.record) then (e, p, [])
    else
      (e.(triggered := true),
       ApplyEffects(Pass(MarkTriggered(p.record, e.id), p.actors), e.effects),
       if Present(e.text) then [Shown(e, p.record.time)] else [])
  }

  /**
   * An event fires exactly when it is untriggered in both places, due now
   * and its condition holds. Firing marks it in both places and shows it
   * only when it has text; an event that does not fire changes nothing.
   */
  lemma FireOneSpec(e: TimelineEvent, p: Pass)
    ensures Fires(e, p) ==>
              FireOne(e, p).0 == e.(triggered := true) &&
              e.id in FireOne(e, p).1.record.triggered &&
              p.record.triggered <= FireOne(e, p).1.record.triggered &&
              FireOne(e, p).1.record.time == p.record.time &&
              FireOne(e, p).2 == if Present(e.text) then [Shown(e, p.record.time)] else []
    ensures !Fires(e, p) ==> FireOne(e, p) == (e, p, [])
  {
    if Fires(e, p) {
      ApplyEffectsFrame(Pass(MarkTriggered(p.record, e.id), p.actors), e.effects);
    }
  }

  /** `check_and_trigger_events` over a list of events: the new events, the state and the shown events. */
  function Trigger(es: seq<TimelineEvent>, p: Pass): (seq<TimelineEvent>, Pass, seq<GameEvent>)
    decreases |es|
  {
    if es == [] then ([], p, [])
    else
      var f := FireOne(es[0], p);
      var t := Trigger(es[1..], f.1);
      ([f.0] + t.0, t.1, f.2 + t.2)
  }

  /** The check yields one event for each it examined. */
  lemma {:induction false} TriggerLength(es: seq<TimelineEvent>, p: Pass)
    ensures |Trigger(es, p).0| == |es|
    decreases |es|
  {
    if es != [] {
      TriggerLength(es[1..], FireOne(es[0], p).1);
    }
  }

  /**
   * The state in which the `j`-th event is examined: the one left by the
   * events before it.
   */
  function Before(es: seq<TimelineEvent>, p: Pass, j: nat): Pass
    requires j <= |es|
  {
    Trigger(es[..j], p).1
  }

  /** Running the check over `a + b` is running it over `a`, then over `b` from the state `a` left. */
  lemma {:induction false} TriggerSplit(a: seq<TimelineEvent>, b: seq<TimelineEvent>, p: Pass)
    ensures Trigger(a + b, p) ==
            (Trigger(a, p).0 + Trigger(b, Trigger(a, p).1).0,
             Trigger(b, Trigger(a, p).1).1,
             Trigger(a, p).2 + Trigger(b, Trigger(a, p).1).2)
    decreases |a|
  {
    if a == [] {
      assert a + b == b && Trigger(a, p) == ([], p, []);
      var tb := Trigger(b, p);
      assert [] + tb.0 == tb.0 && [] + tb.2 == tb.2;
    } else {
      assert (a + b)[0] == a[0] && (a + b)[1..] == a[1..] + b;
      var f := FireOne(a[0], p);
      TriggerSplit(a[1..], b, f.1);
      var ta := Trigger(a[1..], f.1);
      var tb := Trigger(b, ta.1);
      assert Trigger(a, p) == ([f.0] + ta.0, ta.1, f.2 + ta.2);
      assert Trigger(a + b, p) == ([f.0] + (ta.0 + tb.0), tb.1, f.2 + (ta.2 + tb.2));
      ConcatAssoc([f.0], ta.0, tb.0);
      ConcatAssoc(f.2, ta.2, tb.2);
    }
  }

  /** The check from position `i` on: one firing step, then the rest. */
  lemma TriggerFrom(es: seq<TimelineEvent>, i: nat, p: Pass)
    requires i < |es|
    ensures var f := FireOne(es[i], p);
            Trigger(es[i..], p) ==
            ([f.0] + Trigger(es[i + 1..], f.1).0, Trigger(es[i + 1..], f.1).1, f.2 + Trigger(es[i + 1..], f.1).2)
  {
    assert es[i..][0] == es[i] && es[i..][1..] == es[i + 1..];
  }

  /** The loop's bookkeeping for one step: what is done and shown so far absorbs the `i`-th firing. */
  lemma TriggerLoopStep(es: seq<TimelineEvent>, i: nat, done: seq<TimelineEvent>, shown: seq<GameEvent>, p: Pass)
    requires i < |es|
    ensures var f := FireOne(es[i], p);
            var rest := Trigger(es[i + 1..], f.1);
            (done + Trigger(es[i..], p).0, Trigger(es[i..], p).1, shown + Trigger(es[i..], p).2) ==
            ((done + [f.0]) + rest.0, rest.1, (shown + f.2) + rest.2)
  {
    var f := FireOne(es[i], p);
    var rest := Trigger(es[i + 1..], f.1);
    TriggerFrom(es, i, p);
    ConcatAssoc(done, [f.0], rest.0);
    ConcatAssoc(shown, f.2, rest.2);
  }

  /** The `j`-th event is decided by one firing step in the state the earlier events left. */
  lemma TriggerAt(es: seq<TimelineEvent>, p: Pass, j: nat)
    requires j < |es|
    ensures |Trigger(es, p).0| == |es|
    ensures Trigger(es, p).0[j] == FireOne(es[j], Before(es, p, j)).0
  {
    TriggerLength(es, p);
    assert es == es[..j] + es[j..];
    TriggerSplit(es[..j], es[j..], p);
    TriggerLength(es[..j], p);
    assert es[j..][0] == es[j];
    assert es[j..] != [];
  }

  /**
   * The check never changes the clock and only adds to the triggered set;
   * every event it fires is in the triggered set afterwards.
   */
  lemma {:induction false} TriggerGrows(es: seq<TimelineEvent>, p: Pass)
    ensures |Trigger(es, p).0| == |es|
    ensures Trigger(es, p).1.record.time == p.record.time
    ensures p.record.triggered <= Trigger(es, p).1.record.triggered
    ensures forall j :: 0 <= j < |es| && Trigger(es, p).0[j] != es[j] ==> es[j].id in Trigger(es, p).1.record.triggered
    decreases |es|
  {
    TriggerLength(es, p);
    if es != [] {
      var f := FireOne(es[0], p);
      FireOneSpec(es[0], p);
      TriggerGrows(es[1..], f.1);
      var r := Trigger(es, p);
      var t := Trigger(es[1..], f.1);
      assert r.0 == [f.0] + t.0 && r.1 == t.1;
      forall j | 0 <= j < |es| && r.0[j] != es[j]
        ensures es[j].id in r.1.record.triggered
      {
        if j > 0 {
          assert r.0[j] == t.0[j - 1] && es[j] == es[1..][j - 1];
        }
      }
    }
  }

  /** The state met by a later event has the same clock and at least the triggered set of the start. */
  lemma BeforeKeeps(es: seq<TimelineEvent>, p: Pass, j: nat)
    requires j <= |es|
    ensures Before(es, p, j).record.time == p.record.time
    ensures p.record.triggered <= Before(es, p, j).record.triggered
  {
    TriggerGrows(es[..j], p);
  }

  /**
   * Once-only firing: the check fires an event only if it is untriggered,
   * due now and its condition holds in the state left by the events
   * before it; it then sets the event's own flag; everything else in the
   * list is kept as it was. In particular an event already flagged, or
   * already in the triggered set, is never fired again.
   */
  lemma TriggerOnceOnly(es: seq<TimelineEvent>, p: Pass, j: nat)
    requires j < |es|
    ensures |Trigger(es, p).0| == |es|
    ensures Trigger(es, p).0[j] == es[j] <==> !Fires(es[j], Before(es, p, j))
    ensures Trigger(es, p).0[j] != es[j] ==>
              Trigger(es, p).0[j] == es[j].(triggered := true) && !es[j].triggered &&
              Matches(p.record.time, es[j].triggerDay, es[j].triggerTime) &&
              CheckCondition(es[j].condition, Before(es, p, j).record)
    ensures es[j].triggered || es[j].id in p.record.triggered ==> Trigger(es, p).0[j] == es[j]
  {
    TriggerAt(es, p, j);
    FireOneSpec(es[j], Before(es, p, j));
    BeforeKeeps(es, p, j);
  }

  /**
   * A firing is visible to the events after it in the same check: an
   * `after_event` naming an event fired earlier in the list holds.
   */
  lemma EarlierFiringSeen(es: seq<TimelineEvent>, p: Pass, i: nat, j: nat)
    requires i < j <= |es|
    requires |Trigger(es, p).0| == |es| && Trigger(es, p).0[i] != es[i]
    ensures es[i].id in Before(es, p, j).record.triggered
  {
    TriggerAt(es, p, i);
    assert es[..j][..i] == es[..i];
    TriggerAt(es[..j], p, i);
    assert Before(es[..j], p, i) == Before(es, p, i);
    assert Trigger(es[..j], p).0[i] != es[..j][i];
    TriggerGrows(es[..j], p);
  }

  /**
   * The reference for what a check shows: the `Shown` form of each event
   * it fired (flagged now, unflagged before) that has text, in timeline
   * order, all at the time `t`.
   */
  function ShownOf(es: seq<TimelineEvent>, es1: seq<TimelineEvent>, t: GameTime): seq<GameEvent>
    requires |es1| == |es|
  {
    if es == [] then []
    else (if es1[0].triggered && !es[0].triggered && Present(es[0].text) then [Shown(es[0], t)] else [])
         + ShownOf(es[1..], es1[1..], t)
  }

  /** The check shows exactly the fired events with text, in order, at the current time. */
  lemma {:induction false} TriggerShows(es: seq<TimelineEvent>, p: Pass)
    ensures |Trigger(es, p).0| == |es|
    ensures Trigger(es, p).2 == ShownOf(es, Trigger(es, p).0, p.record.time)
    decreases |es|
  {
    TriggerLength(es, p);
    if es != [] {
      var f := FireOne(es[0], p);
      FireOneSpec(es[0], p);
      TriggerShows(es[1..], f.1);
      var t := Trigger(es[1..], f.1);
      assert Trigger(es, p).0 == [f.0] + t.0 && Trigger(es, p).2 == f.2 + t.2;
      assert Trigger(es, p).0[1..] == t.0;
    }
  }

  // ---------------------------------------------------------------------
  // Upcoming events
  // ---------------------------------------------------------------------

  /**
   * `get_upcoming_events`: the events not flagged as triggered whose day
   * is at most `lookAhead` days away, in timeline order. Only the event's
   * own flag is consulted.
   */
  function Upcoming(es: seq<TimelineEvent>, day: int, lookAhead: int): (r: seq<TimelineEvent>)
    ensures |r| <= |es|
    ensures forall e :: e in r <==> e in es && !e.triggered && e.triggerDay <= day + lookAhead
    decreases |es|
  {
    if es == [] then []
    else (if !es[0].triggered && es[0].triggerDay <= day + lookAhead then [es[0]] else [])
         + Upcoming(es[1..], day, lookAhead)
  }

  /** The selection keeps timeline order: it distributes over concatenation. */
  lemma {:induction false} UpcomingInOrder(a: seq<TimelineEvent>, b: seq<TimelineEvent>, day: int, lookAhead: int)
    ensures Upcoming(a + b, day, lookAhead) == Upcoming(a, day, lookAhead) + Upcoming(b, day, lookAhead)
    decreases |a|
  {
    if a == [] {
      assert a + b == b;
    } else {
      assert (a + b)[0] == a[0] && (a + b)[1..] == a[1..] + b;
      UpcomingInOrder(a[1..], b, day, lookAhead);
      var h := if !a[0].triggered && a[0].triggerDay <= day + lookAhead then [a[0]] else [];
      ConcatAssoc(h, Upcoming(a[1..], day, lookAhead), Upcoming(b, day, lookAhead));
    }
  }

  // ---------------------------------------------------------------------
  // The system
  // ---------------------------------------------------------------------

  /**
   * `EventSystem`: the timeline, whose events carry their own `triggered`
   * flag and are updated in place.
   */
  class EventSystem {
    var events: seq<TimelineEvent>

    /** `EventSystem(timeline)`, with the entries already read into records. */
    constructor(timeline: seq<TimelineEvent>)
      ensures events == timeline
    {
      events := timeline;
    }

    /**
     * `check_and_trigger_events`: fires the due events in order, changing
     * the events, the shared state and the characters as `Trigger` says,
     * and returns the shown events with the new characters.
     */
    method CheckAndTriggerEvents(gs: GameState, actors: map<string, ActorState>)
      returns (shown: seq<GameEvent>, actorsOut: map<string, ActorState>)
      modifies this, gs
      ensures (events, Pass(gs.Record(), actorsOut), shown) == Trigger(old(events), Pass(old(gs.Record()), actors))
    {
      var es := events;
      ghost var whole := Trigger(es, Pass(gs.Record(), actors));
      shown := [];
      actorsOut := actors;
      var i := 0;
      assert es[i..] == es && events[..i] == [];
      ghost var start := Trigger(es, Pass(gs.Record(), actorsOut));
      assert [] + start.0 == start.0 && [] + start.2 == start.2;
      while i < |es|
        invariant 0 <= i <= |es| && |events| == |es| && events[i..] == es[i..]
        invariant whole == (events[..i] + Trigger(es[i..], Pass(gs.Record(), actorsOut)).0,
                            Trigger(es[i..], Pass(gs.Record(), actorsOut)).1,
                            shown + Trigger(es[i..], Pass(gs.Record(), actorsOut)).2)
      {
        ghost var cur := Pass(gs.Record(), actorsOut);
        ghost var f := FireOne(es[i], cur);
        ghost var events0 := events;
        TriggerLoopStep(es, i, events0[..i], shown, cur);
        var out;
        out, actorsOut := FireEvent(i, gs, actorsOut);
        assert Pass(gs.Record(), actorsOut) == f.1 && out == f.2;
        assert events[..i + 1] == events0[..i] + [f.0];
        assert events[i + 1..] == es[i + 1..];
        shown := shown + out;
        i := i + 1;
      }
      assert events[..i] == events && es[i..] == [];
      assert events + [] == events && shown + [] == shown;
    }

    /** One iteration of the loop: the `i`-th event is examined and, if due, fired. */
    method FireEvent(i: nat, gs: GameState, actors: map<string, ActorState>)
      returns (out: seq<GameEvent>, actorsOut: map<string, ActorState>)
      requires i < |events|
      modifies this, gs
      ensures var f := FireOne(old(events[i]), Pass(old(gs.Record()), actors));
        events == old(events)[i := f.0] && Pass(gs.Record(), actorsOut) == f.1 && out == f.2
    {
      var e := events[i];
      var now := gs.time;
      out, actorsOut := [], actors;
      if e.triggered || e.id in gs.triggeredEvents {
      } else if !Matches(now, e.triggerDay, e.triggerTime) {
      } else if !CheckCondition(e.condition, gs.Record()) {
      } else {
        events := events[i := e.(triggered := true)];
        gs.MarkEventTriggered(e.id);
        actorsOut := ApplyEffectsTo(e.effects, gs, actorsOut);
        if Present(e.text) {
          out := [Shown(e, now)];
        }
      }
    }
  }

  /** `_apply_effects`, entry by entry, on the shared state and the characters. */
  method ApplyEffectsTo(effects: seq<Effect>, gs: GameState, actors: map<string, ActorState>)
    returns (actorsOut: map<string, ActorState>)
    modifies gs
    ensures Pass(gs.Record(), actorsOut) == ApplyEffects(Pass(old(gs.Record()), actors), effects)
  {
    actorsOut := actors;
    var k := 0;
    while k < |effects|
      invariant 0 <= k <= |effects|
      invariant ApplyEffects(Pass(old(gs.Record()), actors), effects) ==
                ApplyEffects(Pass(gs.Record(), actorsOut), effects[k..])
    {
      assert effects[k..][0] == effects[k] && effects[k..][1..] == effects[k + 1..];
      var e := effects[k];
      SetFlags(e.setFlag, gs);
      if |actorsOut| > 0 {
        actorsOut := MarkDead(e.actorStatus, actorsOut);
      }
      RaiseClueFlags(e.clueAvailable, gs);
      k := k + 1;
    }
  }

  /** The `set_flag` loop: each listed key is set to its value. */
  method SetFlags(m: map<string, Value>, gs: GameState)
    modifies gs
    ensures gs.Record() == old(gs.Record()).(flags := old(gs.flags) + m)
  {
    var todo := m.Keys;
    while todo != {}
      invariant todo <= m.Keys
      invariant gs.Record() == old(gs.Record()).(flags := old(gs.flags) + map k | k in m.Keys - todo :: m[k])
      decreases |todo|
    {
      var k :| k in todo;
      gs.SetFlag(k, m[k]);
      todo := todo - {k};
    }
    assert (map k | k in m.Keys - todo :: m[k]) == m;
  }

  /** The `actor_status` loop on the characters. */
  method MarkDead(status: map<string, string>, actors: map<string, ActorState>)
    returns (out: map<string, ActorState>)
    ensures out == ApplyStatus(actors, status)
  {
    out := actors;
    var todo := status.Keys;
    while todo != {}
      invariant todo <= status.Keys && out.Keys == actors.Keys
      invariant forall id :: id in actors ==>
                  out[id] == if id in status && id !in todo && status[id] == "dead" then actors[id].(isAlive := false)
                             else actors[id]
      decreases |todo|
    {
      var id :| id in todo;
      if id in out && status[id] == "dead" {
        out := out[id := out[id].(isAlive := false)];
      }
      todo := todo - {id};
    }
  }

  /** The `clue_available` loop. */
  method RaiseClueFlags(clues: seq<string>, gs: GameState)
    modifies gs
    ensures gs.Record() == ClueFlags(old(gs.Record()), clues)
  {
    var i := 0;
    while i < |clues|
      invariant 0 <= i <= |clues|
      invariant ClueFlags(old(gs.Record()), clues) == ClueFlags(gs.Record(), clues[i..])
    {
      assert clues[i..][0] == clues[i] && clues[i..][1..] == clues[i + 1..];
      gs.SetFlag(CLUE_AVAILABLE + clues[i], VBool(true));
      i := i + 1;
    }
  }
}
