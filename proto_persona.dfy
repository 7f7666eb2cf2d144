/**
 * What a persona of the prototype game is told it has seen
 * (`detective_game/backend/persona.py`, `PersonaActor._format_observations`):
 * the recent events at its own place that it did not cause, one line
 * each, and its last internal note.
 */
module ProtoPersona {
  import opened Common
  import opened ProtoModels

  const QUIET := "- 当前地点一片寂静，没有新的动态。"
  const NO_MEMORY := "（暂无记忆）"

  /** An event is kept unless it happened somewhere else or the persona itself caused it. */
  predicate Kept(e: Event, name: string, here: string)
  {
    !(Present(e.location) && e.location.value != here) && e.actor != Some(name)
  }

  /** The kept events, in input order. */
  function KeptEvents(events: seq<Event>, name: string, here: string): seq<Event>
  {
    if events == [] then []
    else
      var last := events[|events| - 1];
      KeptEvents(events[..|events| - 1], name, here) + (if Kept(last, name, here) then [last] else [])
  }

  /** One `- text` line per event. */
  function Lines(events: seq<Event>): (r: seq<string>)
    ensures |r| == |events| && forall i :: 0 <= i < |events| ==> r[i] == "- " + events[i].text
  {
    if events == [] then [] else Lines(events[..|events| - 1]) + ["- " + events[|events| - 1].text]
  }

  /** The note from the persona's scratch pad, or the placeholder. */
  function Note(scratch: map<string, string>): string
  {
    if "internal_note" in scratch then scratch["internal_note"] else NO_MEMORY
  }

  /** The closing line carrying the note. */
  function Footer(note: string): string
  {
    "\n过去的思考：" + note
  }

  /** The lines, or the placeholder when there are none, then the note. */
  function Compose(lines: seq<string>, note: string): string
  {
    Join(if lines == [] then [QUIET] else lines, "\n") + Footer(note)
  }

  /** `_format_observations`. */
  function Observations(name: string, here: string, scratch: map<string, string>, events: seq<Event>): string
  {
    Compose(Lines(KeptEvents(events, name, here)), Note(scratch))
  }

  /**
   * Filtering keeps exactly the events that are not elsewhere and not the
   * persona's own, and distributes over concatenation, so input order is
   * kept.
   */
  lemma {:induction false} KeptEventsSpec(events: seq<Event>, name: string, here: string)
    ensures forall e :: e in KeptEvents(events, name, here) <==> e in events && Kept(e, name, here)
    ensures |KeptEvents(events, name, here)| <= |events|
  {
    if events != [] {
      var init := events[..|events| - 1];
      KeptEventsSpec(init, name, here);
      assert events == init + [events[|events| - 1]];
    }
  }

  /** Filtering a concatenation filters each part. */
  lemma {:induction false} KeptEventsAppend(a: seq<Event>, b: seq<Event>, name: string, here: string)
    ensures KeptEvents(a + b, name, here) == KeptEvents(a, name, here) + KeptEvents(b, name, here)
    decreases |b|
  {
    if b != [] {
      var init := b[..|b| - 1];
      var last := b[|b| - 1];
      assert (a + b)[..|a + b| - 1] == a + init;
      assert (a + b)[|a + b| - 1] == last;
      KeptEventsAppend(a, init, name, here);
      var tail := if Kept(last, name, here) then [last] else [];
      assert KeptEvents(a + b, name, here) == KeptEvents(a + init, name, here) + tail;
      assert KeptEvents(b, name, here) == KeptEvents(init, name, here) + tail;
      ConcatAssoc(KeptEvents(a, name, here), KeptEvents(init, name, here), tail);
    } else {
      assert a + b == a;
    }
  }

  /** The composed text ends with the note, and starts with the first line or else is the placeholder. */
  lemma ComposeSpec(lines: seq<string>, note: string)
    ensures var r := Compose(lines, note);
      |r| >= |Footer(note)| && r[|r| - |Footer(note)|..] == Footer(note) &&
      (lines == [] ==> r == QUIET + Footer(note)) &&
      (lines != [] ==> |r| >= |lines[0]| && r[..|lines[0]|] == lines[0])
  {
    var body := Join(if lines == [] then [QUIET] else lines, "\n");
    assert (body + Footer(note))[|body|..] == Footer(note);
    if lines != [] {
      JoinStartsWith(lines, "\n");
      assert (body + Footer(note))[..|lines[0]|] == body[..|lines[0]|];
    }
  }

  /**
   * The observations end with the persona's note (the placeholder when it
   * has none); when no event is kept they are the placeholder line and
   * the note, and otherwise they start with the first kept event's line.
   */
  lemma ObservationsSpec(name: string, here: string, scratch: map<string, string>, events: seq<Event>)
    ensures var r := Observations(name, here, scratch, events);
      var kept := KeptEvents(events, name, here);
      var tail := Footer(Note(scratch));
      |r| >= |tail| && r[|r| - |tail|..] == tail &&
      ("internal_note" !in scratch ==> tail == Footer(NO_MEMORY)) &&
      (kept == [] ==> r == QUIET + tail) &&
      (kept != [] ==> |r| >= 2 + |kept[0].text| && r[..2 + |kept[0].text|] == "- " + kept[0].text)
  {
    ComposeSpec(Lines(KeptEvents(events, name, here)), Note(scratch));
  }

  /** `_format_observations`, one event at a time. */
  method FormatObservations(config: PersonaConfig, state: PersonaState, events: seq<Event>) returns (r: string)
    ensures r == Observations(config.name, state.location, state.scratch, events)
  {
    var lines: seq<string> := [];
    var i := 0;
    while i < |events|
      invariant 0 <= i <= |events| && lines == Lines(KeptEvents(events[..i], config.name, state.location))
    {
      assert events[..i + 1][..i] == events[..i];
      var e := events[i];
      if Present(e.location) && e.location.value != state.location {
      } else if e.actor == Some(config.name) {
      } else {
        lines := lines + ["- " + e.text];
      }
      i := i + 1;
    }
    assert events[..i] == events;
    if lines == [] {
      lines := lines + [QUIET];
    }
    var note := if "internal_note" in state.scratch then state.scratch["internal_note"] else NO_MEMORY;
    r := Join(lines, "\n") + Footer(note);
  }
}
