/**
 * The clues of the detective scenario: their configuration as read from
 * the scenario files (`ClueConfig.from_dict`, which flattens the list of
 * connections) and their runtime state.
 */
module DetClue {
  import opened Common

  datatype ClueType = Physical | Document | Testimonial | Item
  {
    /** The enum's string value. */
    function Value(): string
    {
      match this
      case Physical => "physical"
      case Document => "document"
      case Testimonial => "testimonial"
      case Item => "item"
    }
  }

  /** `ClueType(value)`: `None` where Python raises `ValueError`. */
  function ClueTypeOf(s: string): (t: Option<ClueType>)
    ensures t.Some? ==> t.value.Value() == s
    ensures t.None? <==> s !in {"physical", "document", "testimonial", "item"}
  {
    if s == "physical" then Some(Physical)
    else if s == "document" then Some(Document)
    else if s == "testimonial" then Some(Testimonial)
    else if s == "item" then Some(Item)
    else None
  }

  /** `ClueConfig`. */
  datatype ClueConfig = ClueConfig(
    id: string,
    name: string,
    clueType: ClueType,
    category: string,
    description: string,
    discoveryLocation: Option<string>,
    discoveryPoint: Option<string>,
    requiresEvent: Option<string>,
    requiresItem: Option<string>,
    relatedTo: seq<string>,
    pointsTo: seq<string>,
    unlocks: Option<string>,
    isKeyEvidence: bool)

  /** The value of a `points_to` key: a list or a single suspect. */
  datatype PointsTo = Many(ids: seq<string>) | One(id: string)

  /** One entry of `connections`: each of its keys, `None` when absent. */
  datatype Connection = Connection(relatedTo: Option<string>, pointsTo: Option<PointsTo>, unlocks: Option<string>)

  /** A clue entry as read from the file; absent `discovery` and `connections` read as empty. */
  datatype RawClue = RawClue(
    id: Option<string>,
    name: Option<string>,
    clueType: Option<string>,
    category: Option<string>,
    description: Option<string>,
    location: Option<string>,
    point: Option<string>,
    requiresEvent: Option<string>,
    requiresItem: Option<string>,
    connections: seq<Connection>,
    isKeyEvidence: Option<bool>)

  /** The suspects one `points_to` value names: a list is spliced in, a single one appended. */
  function Flat(p: PointsTo): seq<string>
  {
    match p
    case Many(ids) => ids
    case One(id) => [id]
  }

  /** The `related_to`, `points_to` and last `unlocks` of a list of connections. */
  datatype Links = Links(relatedTo: seq<string>, pointsTo: seq<string>, unlocks: Option<string>)

  /** The connections loop, one connection at a time from the front. */
  function LinksOf(cs: seq<Connection>): (l: Links)
    decreases |cs|
  {
    if cs == [] then Links([], [], None)
    else
      var rest := LinksOf(cs[..|cs| - 1]);
      var c := cs[|cs| - 1];
      Links(rest.relatedTo + (if c.relatedTo.Some? then [c.relatedTo.value] else []),
            rest.pointsTo + (if c.pointsTo.Some? then Flat(c.pointsTo.value) else []),
            if c.unlocks.Some? then c.unlocks else rest.unlocks)
  }

  /** Every `related_to` entry, in order. */
  function RelatedOf(cs: seq<Connection>): seq<string>
    decreases |cs|
  {
    if cs == [] then [] else (if cs[0].relatedTo.Some? then [cs[0].relatedTo.value] else []) + RelatedOf(cs[1..])
  }

  /** Every suspect of every `points_to`, flattened, in order. */
  function PointedOf(cs: seq<Connection>): seq<string>
    decreases |cs|
  {
    if cs == [] then [] else (if cs[0].pointsTo.Some? then Flat(cs[0].pointsTo.value) else []) + PointedOf(cs[1..])
  }

  /** The last connection that carries `unlocks`, if any. */
  function LastUnlock(cs: seq<Connection>): (u: Option<nat>)
    ensures u.Some? ==> u.value < |cs| && cs[u.value].unlocks.Some? &&
                        forall k :: u.value < k < |cs| ==> cs[k].unlocks.None?
    ensures u.None? ==> forall k :: 0 <= k < |cs| ==> cs[k].unlocks.None?
    decreases |cs|
  {
    if cs == [] then None
    else if cs[|cs| - 1].unlocks.Some? then Some(|cs| - 1)
    else LastUnlock(cs[..|cs| - 1])
  }

  /**
   * The connections loop gathers every `related_to` and every flattened
   * `points_to` in order, and keeps the `unlocks` of the last connection
   * that has one.
   */
  lemma {:induction false} LinksOfSpec(cs: seq<Connection>)
    ensures LinksOf(cs).relatedTo == RelatedOf(cs)
    ensures LinksOf(cs).pointsTo == PointedOf(cs)
    ensures LinksOf(cs).unlocks == if LastUnlock(cs).Some? then cs[LastUnlock(cs).value].unlocks else None
    decreases |cs|
  {
    if cs != [] {
      var init := cs[..|cs| - 1];
      LinksOfSpec(init);
      RelatedSnoc(init, cs[|cs| - 1]);
      PointedSnoc(init, cs[|cs| - 1]);
      assert init + [cs[|cs| - 1]] == cs;
    }
  }

  lemma {:induction false} RelatedSnoc(cs: seq<Connection>, c: Connection)
    ensures RelatedOf(cs + [c]) == RelatedOf(cs) + (if c.relatedTo.Some? then [c.relatedTo.value] else [])
    decreases |cs|
  {
    if cs == [] {
      assert [c][1..] == [];
    } else {
      assert (cs + [c])[1..] == cs[1..] + [c];
      RelatedSnoc(cs[1..], c);
      var h := if cs[0].relatedTo.Some? then [cs[0].relatedTo.value] else [];
      ConcatAssoc(h, RelatedOf(cs[1..]), if c.relatedTo.Some? then [c.relatedTo.value] else []);
    }
  }

  lemma {:induction false} PointedSnoc(cs: seq<Connection>, c: Connection)
    ensures PointedOf(cs + [c]) == PointedOf(cs) + (if c.pointsTo.Some? then Flat(c.pointsTo.value) else [])
    decreases |cs|
  {
    if cs == [] {
      assert [c][1..] == [];
    } else {
      assert (cs + [c])[1..] == cs[1..] + [c];
      PointedSnoc(cs[1..], c);
      var h := if cs[0].pointsTo.Some? then Flat(cs[0].pointsTo.value) else [];
      ConcatAssoc(h, PointedOf(cs[1..]), if c.pointsTo.Some? then Flat(c.pointsTo.value) else []);
    }
  }

  /**
   * `ClueConfig.from_dict`: `None` when the type is not one of the four
   * (Python raises there); otherwise the type defaults to physical, key
   * evidence to false, and the links come from the connections loop.
   */
  function ClueFromDict(d: RawClue): (c: Option<ClueConfig>)
    ensures c.Some? <==> ClueTypeOf(d.clueType.UnwrapOr("physical")).Some?
    ensures d.clueType.None? ==> c.Some? && c.value.clueType == Physical
    ensures c.Some? ==>
              c.value.id == d.id.UnwrapOr("") && c.value.isKeyEvidence == d.isKeyEvidence.UnwrapOr(false) &&
              c.value.requiresEvent == d.requiresEvent && c.value.requiresItem == d.requiresItem &&
              c.value.relatedTo == LinksOf(d.connections).relatedTo &&
              c.value.pointsTo == LinksOf(d.connections).pointsTo &&
              c.value.unlocks == LinksOf(d.connections).unlocks
  {
    match ClueTypeOf(d.clueType.UnwrapOr("physical"))
    case None => None
    case Some(t) =>
      var links := LinksOf(d.connections);
      Some(ClueConfig(d.id.UnwrapOr(""), d.name.UnwrapOr(""), t, d.category.UnwrapOr(""),
                      d.description.UnwrapOr(""), d.location, d.point, d.requiresEvent, d.requiresItem,
                      links.relatedTo, links.pointsTo, links.unlocks, d.isKeyEvidence.UnwrapOr(false)))
  }

  /** `ClueState`: who discovered the clue, and when. */
  datatype ClueState = ClueState(
    id: string,
    isDiscoverable: bool,
    discoveredBy: Option<string>,
    discoveredAtDay: Option<int>,
    discoveredAtTime: Option<string>)

  /** `ClueState(id=...)`: not discoverable, discovered by nobody, at no time. */
  function NewClueState(id: string): (s: ClueState)
    ensures s.id == id && !s.isDiscoverable && s.discoveredBy.None?
    ensures s.discoveredAtDay.None? && s.discoveredAtTime.None?
  {
    ClueState(id, false, None, None, None)
  }
}
