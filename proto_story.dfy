/**
 * The prototype's story hook (`detective_game/backend/story_manager.py`):
 * one narrative beat, "first_meeting", released once the first turn has
 * been played and never again.
 */
module ProtoStory {
  import opened ProtoModels

  const FIRST_MEETING := "first_meeting"
  const OMEN := "风吹动广场上的旗帜，仿佛暗示着隐藏的秘密。"

  /** One `evaluate`: the beats already released after it, and the events it returns. */
  function Beat(triggered: set<string>, turn: int): (set<string>, seq<Event>)
  {
    if FIRST_MEETING !in triggered && turn >= 1 then (triggered + {FIRST_MEETING}, [NewEvent(Story, OMEN)])
    else (triggered, [])
  }

  /**
   * `evaluate` returns nothing before the first turn or once the beat is
   * out; otherwise exactly one STORY event, and the beat is then marked
   * released. Nothing but that beat is ever added.
   */
  lemma BeatSpec(triggered: set<string>, turn: int)
    ensures var (after, events) := Beat(triggered, turn);
      (events != [] <==> FIRST_MEETING !in triggered && turn >= 1) &&
      (events != [] ==> |events| == 1 && events[0].kind == Story) &&
      (FIRST_MEETING in after <==> FIRST_MEETING in triggered || turn >= 1) &&
      after - {FIRST_MEETING} == triggered - {FIRST_MEETING}
  {
  }

  /** Successive `evaluate` calls at the given turns: the released beats after them and all events returned. */
  function Evaluations(triggered: set<string>, turns: seq<int>): (set<string>, seq<Event>)
    decreases |turns|
  {
    if turns == [] then (triggered, [])
    else
      var (t1, e1) := Beat(triggered, turns[0]);
      var (t2, e2) := Evaluations(t1, turns[1..]);
      (t2, e1 + e2)
  }

  /**
   * Over any run of turns the beat is returned at most once: never if it
   * was already released, and exactly once otherwise when some turn
   * reaches 1.
   */
  lemma {:induction false} StoryOnce(triggered: set<string>, turns: seq<int>)
    ensures |Evaluations(triggered, turns).1| <= 1
    ensures FIRST_MEETING in triggered ==> Evaluations(triggered, turns).1 == []
    ensures FIRST_MEETING !in triggered ==>
      (|Evaluations(triggered, turns).1| == 1 <==> exists i :: 0 <= i < |turns| && turns[i] >= 1)
    decreases |turns|
  {
    if turns != [] {
      var (t1, e1) := Beat(triggered, turns[0]);
      StoryOnce(t1, turns[1..]);
      if FIRST_MEETING !in triggered && turns[0] < 1 {
        assert (exists i :: 0 <= i < |turns| && turns[i] >= 1) <==>
               (exists i :: 0 <= i < |turns[1..]| && turns[1..][i] >= 1) by {
          forall i | 0 <= i < |turns| && turns[i] >= 1 ensures 0 <= i - 1 < |turns[1..]| && turns[1..][i - 1] >= 1 {
          }
          forall i | 0 <= i < |turns[1..]| && turns[1..][i] >= 1 ensures turns[i + 1] >= 1 {
          }
        }
      }
    }
  }

  /** `StoryManager`: the set of beats already released. */
  class StoryManager {
    var triggered: set<string>

    constructor()
      ensures triggered == {}
    {
      triggered := {};
    }

    /** `evaluate`; the recent events play no part. */
    method Evaluate(g: GameState, recent: seq<Event>) returns (events: seq<Event>)
      modifies this
      ensures (triggered, events) == Beat(old(triggered), g.turn)
    {
      events := [];
      if FIRST_MEETING !in triggered && g.turn >= 1 {
        events := [NewEvent(Story, OMEN)];
        triggered := triggered + {FIRST_MEETING};
      }
    }
  }
}
