/**
 * Python's attribute and dictionary semantics, as far as the update path uses
 * them: the update payload is a dict from column names to values; `data.get(k)`
 * reads it, `data[k] = v` writes it, and `setattr(row, k, v)` copies one item
 * onto a row.
 */
module Attributes {
  import opened Wrappers
  import opened Models

  /** The columns a client may update: every column but the primary key. */
  datatype Column = Name | Designer | YearPublished | MinPlayers | MaxPlayers | PlayTimeMin | Complexity | Rating

  /**
   * One `key: value` item of an update dict. The nullable columns accept `None`
   * (which clears them); `name` and the player counts carry a value.
   */
  datatype Assignment =
    | SetName(name: string)
    | SetDesigner(designer: Option<string>)
    | SetYearPublished(yearPublished: Option<int>)
    | SetMinPlayers(minPlayers: int)
    | SetMaxPlayers(maxPlayers: int)
    | SetPlayTimeMin(playTimeMin: Option<int>)
    | SetComplexity(complexity: Option<Float>)
    | SetRating(rating: Option<Float>)

  /** The key of an item. */
  function ColumnOf(a: Assignment): Column
  {
    match a
    case SetName(_) => Name
    case SetDesigner(_) => Designer
    case SetYearPublished(_) => YearPublished
    case SetMinPlayers(_) => MinPlayers
    case SetMaxPlayers(_) => MaxPlayers
    case SetPlayTimeMin(_) => PlayTimeMin
    case SetComplexity(_) => Complexity
    case SetRating(_) => Rating
  }

  /** `getattr(g, c)`, as the item that would assign the current value. */
  function Attribute(g: BoardGame, c: Column): (a: Assignment)
    ensures ColumnOf(a) == c
  {
    match c
    case Name => SetName(g.name)
    case Designer => SetDesigner(g.designer)
    case YearPublished => SetYearPublished(g.yearPublished)
    case MinPlayers => SetMinPlayers(g.minPlayers)
    case MaxPlayers => SetMaxPlayers(g.maxPlayers)
    case PlayTimeMin => SetPlayTimeMin(g.playTimeMin)
    case Complexity => SetComplexity(g.complexity)
    case Rating => SetRating(g.rating)
  }

  /** Two rows with the same id and the same value in every column are the same row. */
  lemma {:induction false} RowExtensionality(g: BoardGame, h: BoardGame)
    requires g.id == h.id
    requires forall c :: Attribute(g, c) == Attribute(h, c)
    ensures g == h
  {
    assert Attribute(g, Name) == Attribute(h, Name);
    assert Attribute(g, Designer) == Attribute(h, Designer);
    assert Attribute(g, YearPublished) == Attribute(h, YearPublished);
    assert Attribute(g, MinPlayers) == Attribute(h, MinPlayers);
    assert Attribute(g, MaxPlayers) == Attribute(h, MaxPlayers);
    assert Attribute(g, PlayTimeMin) == Attribute(h, PlayTimeMin);
    assert Attribute(g, Complexity) == Attribute(h, Complexity);
    assert Attribute(g, Rating) == Attribute(h, Rating);
  }

  /** `setattr(g, k, v)`: the one column the item names takes its value; the id and every other column keep theirs. */
  function SetAttr(g: BoardGame, a: Assignment): (r: BoardGame)
    ensures r.id == g.id
    ensures Attribute(r, ColumnOf(a)) == a
    ensures forall c | c != ColumnOf(a) :: Attribute(r, c) == Attribute(g, c)
  {
    match a
    case SetName(v) => g.(name := v)
    case SetDesigner(v) => g.(designer := v)
    case SetYearPublished(v) => g.(yearPublished := v)
    case SetMinPlayers(v) => g.(minPlayers := v)
    case SetMaxPlayers(v) => g.(maxPlayers := v)
    case SetPlayTimeMin(v) => g.(playTimeMin := v)
    case SetComplexity(v) => g.(complexity := v)
    case SetRating(v) => g.(rating := v)
  }

  /** `data.get(c)`: the item for column `c`, the last one if (unlike a dict) `data` repeated a key. */
  function Lookup(data: seq<Assignment>, c: Column): (r: Option<Assignment>)
    ensures r.Some? ==> ColumnOf(r.value) == c && r.value in data
    ensures r.None? <==> forall i | 0 <= i < |data| :: ColumnOf(data[i]) != c
  {
    if data == [] then None
    else if ColumnOf(data[|data| - 1]) == c then Some(data[|data| - 1])
    else Lookup(data[..|data| - 1], c)
  }

  /** No column occurs twice among the items, as in a Python dict. */
  predicate DistinctColumns(data: seq<Assignment>)
  {
    forall i, j | 0 <= i < j < |data| :: ColumnOf(data[i]) != ColumnOf(data[j])
  }

  /** `data[k] = v`: the item replaces every item with its key, or is appended when the key is new. */
  function Put(data: seq<Assignment>, a: Assignment): (r: seq<Assignment>)
    ensures Lookup(r, ColumnOf(a)) == Some(a)
    ensures forall c | c != ColumnOf(a) :: Lookup(r, c) == Lookup(data, c)
    ensures Lookup(data, ColumnOf(a)).Some? ==> |r| == |data|
    ensures DistinctColumns(data) ==> DistinctColumns(r)
  {
    if Lookup(data, ColumnOf(a)).None? then
      LookupAppend(data, a);
      data + [a]
    else
      LookupReplace(data, a);
      Replace(data, a)
  }

  /** Every item with the key of `a` replaced by `a`; the keys stay where they were. */
  function Replace(data: seq<Assignment>, a: Assignment): (r: seq<Assignment>)
    ensures |r| == |data|
    ensures forall i | 0 <= i < |data| :: ColumnOf(r[i]) == ColumnOf(data[i])
    ensures forall i | 0 <= i < |data| && ColumnOf(data[i]) == ColumnOf(a) :: r[i] == a
    ensures forall i | 0 <= i < |data| && ColumnOf(data[i]) != ColumnOf(a) :: r[i] == data[i]
  {
    if data == [] then []
    else
      var last := data[|data| - 1];
      Replace(data[..|data| - 1], a) + [if ColumnOf(last) == ColumnOf(a) then a else last]
  }

  /** After the replacement the key of `a` answers `a` (it was present), and every other key answers as before. */
  lemma {:induction false} LookupReplace(data: seq<Assignment>, a: Assignment)
    ensures Lookup(Replace(data, a), ColumnOf(a)) == if Lookup(data, ColumnOf(a)).Some? then Some(a) else None
    ensures forall c | c != ColumnOf(a) :: Lookup(Replace(data, a), c) == Lookup(data, c)
  {
    if data != [] {
      var r := Replace(data, a);
      assert r[..|r| - 1] == Replace(data[..|data| - 1], a);
      LookupReplace(data[..|data| - 1], a);
    }
  }

  /** Appending an item with a new key makes it the answer for that key and changes no other. */
  lemma LookupAppend(data: seq<Assignment>, a: Assignment)
    ensures Lookup(data + [a], ColumnOf(a)) == Some(a)
    ensures forall c | c != ColumnOf(a) :: Lookup(data + [a], c) == Lookup(data, c)
  {
    assert (data + [a])[..|data|] == data;
  }

  /** The row after `for k, v in data.items(): setattr(g, k, v)`. */
  function Patched(g: BoardGame, data: seq<Assignment>): BoardGame
  {
    if data == [] then g else SetAttr(Patched(g, data[..|data| - 1]), data[|data| - 1])
  }

  /**
   * The setattr loop overwrites exactly the columns `data` names, with the value
   * `data` holds for them, and leaves the id and every other column as they were.
   */
  lemma {:induction false} PatchedAttribute(g: BoardGame, data: seq<Assignment>, c: Column)
    ensures Patched(g, data).id == g.id
    ensures Attribute(Patched(g, data), c) == match Lookup(data, c) { case Some(a) => a case None => Attribute(g, c) }
  {
    if data != [] {
      PatchedAttribute(g, data[..|data| - 1], c);
    }
  }

  /** An empty payload leaves the row as it was. */
  lemma PatchedEmpty(g: BoardGame)
    ensures Patched(g, []) == g
  {
  }
}
