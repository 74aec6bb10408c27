/**
 * The request and response shapes of the HTTP interface, all derived from the
 * board-game entity: the create shape (every column but the id), the read shape
 * (the create shape plus a mandatory id) and the update shape (every column
 * optional). They check presence and type only, never content.
 */
module Schemas {
  import opened Wrappers
  import opened Models
  import opened Attributes

  /**
   * The create shape, which is also the shared base of the read shape: `name`,
   * `minPlayers` and `maxPlayers` are required, the other five default to absent.
   */
  datatype BoardGameCreate = BoardGameCreate(
    name: string,
    minPlayers: int,
    maxPlayers: int,
    designer: Option<string> := None,
    yearPublished: Option<int> := None,
    playTimeMin: Option<int> := None,
    complexity: Option<Float> := None,
    rating: Option<Float> := None)

  /** The read shape: every field of the create shape plus a mandatory `id`. */
  datatype BoardGameRead = BoardGameRead(
    id: int,
    name: string,
    minPlayers: int,
    maxPlayers: int,
    designer: Option<string> := None,
    yearPublished: Option<int> := None,
    playTimeMin: Option<int> := None,
    complexity: Option<Float> := None,
    rating: Option<Float> := None)

  /**
   * The update shape. Every field defaults to absent (`None`, "not set by the
   * client"); a set field holds what the client sent, which for the nullable
   * columns may itself be `None`.
   */
  datatype BoardGameUpdate = BoardGameUpdate(
    name: Option<string> := None,
    designer: Option<Option<string>> := None,
    yearPublished: Option<Option<int>> := None,
    minPlayers: Option<int> := None,
    maxPlayers: Option<int> := None,
    playTimeMin: Option<Option<int>> := None,
    complexity: Option<Option<Float>> := None,
    rating: Option<Option<Float>> := None)

  /** `BoardGame(**payload.model_dump())`: the entity a create payload describes, without an id. */
  function ToEntity(p: BoardGameCreate): (g: BoardGame)
    ensures g.id == None
  {
    BoardGame(p.name, p.minPlayers, p.maxPlayers, None,
              p.designer, p.yearPublished, p.playTimeMin, p.complexity, p.rating)
  }

  /** The response model applied to a persisted row. */
  function ToRead(g: BoardGame): (r: BoardGameRead)
    requires g.id.Some?
    ensures r.id == g.id.value
  {
    BoardGameRead(g.id.value, g.name, g.minPlayers, g.maxPlayers,
                  g.designer, g.yearPublished, g.playTimeMin, g.complexity, g.rating)
  }

  /** A read value seen as its base class, the create shape. */
  function Base(r: BoardGameRead): BoardGameCreate
  {
    BoardGameCreate(r.name, r.minPlayers, r.maxPlayers,
                    r.designer, r.yearPublished, r.playTimeMin, r.complexity, r.rating)
  }

  /**
   * A create payload, persisted under some id and read back, is the payload plus
   * that id: nothing is lost or altered on the way through the entity.
   */
  lemma CreateReadRoundTrip(p: BoardGameCreate, k: int)
    ensures ToRead(ToEntity(p).(id := Some(k))).id == k
    ensures Base(ToRead(ToEntity(p).(id := Some(k)))) == p
  {
  }

  /** The value a set update field assigns, as a dict item; `None` when the client did not set it. */
  function Given(u: BoardGameUpdate, c: Column): (r: Option<Assignment>)
    ensures r.Some? ==> ColumnOf(r.value) == c
  {
    match c
    case Name => if u.name.Some? then Some(SetName(u.name.value)) else None
    case Designer => if u.designer.Some? then Some(SetDesigner(u.designer.value)) else None
    case YearPublished => if u.yearPublished.Some? then Some(SetYearPublished(u.yearPublished.value)) else None
    case MinPlayers => if u.minPlayers.Some? then Some(SetMinPlayers(u.minPlayers.value)) else None
    case MaxPlayers => if u.maxPlayers.Some? then Some(SetMaxPlayers(u.maxPlayers.value)) else None
    case PlayTimeMin => if u.playTimeMin.Some? then Some(SetPlayTimeMin(u.playTimeMin.value)) else None
    case Complexity => if u.complexity.Some? then Some(SetComplexity(u.complexity.value)) else None
    case Rating => if u.rating.Some? then Some(SetRating(u.rating.value)) else None
  }

  /** The fields of the update shape in declaration order. */
  const Declared: seq<Column> := [Name, Designer, YearPublished, MinPlayers, MaxPlayers, PlayTimeMin, Complexity, Rating]

  /** The items for the fields `cs` that the client set, in the order of `cs`. */
  function DumpColumns(u: BoardGameUpdate, cs: seq<Column>): (d: seq<Assignment>)
    requires forall i, j | 0 <= i < j < |cs| :: cs[i] != cs[j]
    ensures DistinctColumns(d)
    ensures forall a | a in d :: ColumnOf(a) in cs
    ensures forall c :: Lookup(d, c) == if c in cs then Given(u, c) else None
  {
    if cs == [] then []
    else
      var front := DumpColumns(u, cs[..|cs| - 1]);
      var last := cs[|cs| - 1];
      assert forall c | c in cs :: c == last || c in cs[..|cs| - 1];
      match Given(u, last)
      case None => front
      case Some(a) =>
        LookupAppend(front, a);
        front + [a]
  }

  /**
   * `payload.model_dump(exclude_unset=True)`: a dict holding exactly the fields
   * the client set, each once, with the value the client sent.
   */
  function DumpSet(u: BoardGameUpdate): (d: seq<Assignment>)
    ensures DistinctColumns(d)
    ensures forall c :: Lookup(d, c) == Given(u, c)
  {
    var d := DumpColumns(u, Declared);
    assert forall c :: c in Declared;
    d
  }
}
