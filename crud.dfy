/**
 * The record store: the five operations on the board-game table. The table is a
 * finite map from primary key to row; the persistence backend is reduced to that
 * map and to SQLite's rule for choosing the primary key of a new row.
 */
module Crud {
  import opened Wrappers
  import opened Text
  import opened IntSets
  import opened Models
  import opened Attributes

  /** The board-game table, keyed by primary key. */
  type Table = map<int, BoardGame>

  /** The exceptions the store raises. */
  datatype StoreError =
    | DuplicateName  // ValueError: another row already has the name
    | EmptyName      // ValueError: an update's name strips to nothing
    | IdConflict     // the database's integrity error: an explicit primary key that is taken

  /** The store's `ValueError`s, the only exceptions the HTTP layer catches. */
  predicate IsValueError(e: StoreError)
  {
    e.DuplicateName? || e.EmptyName?
  }

  /** The text of each `ValueError`. */
  function Message(e: StoreError): string
    requires IsValueError(e)
  {
    match e
    case DuplicateName => "Board game with this name already exists"
    case EmptyName => "Name cannot be empty"
  }

  /** Every row carries its own key as its id. */
  predicate Keyed(t: Table)
  {
    forall k | k in t :: t[k].id == Some(k)
  }

  /** No two rows have the same lower-cased stored name. */
  predicate DistinctNames(t: Table)
  {
    forall i, j | i in t && j in t && i != j :: Lower(t[i].name) != Lower(t[j].name)
  }

  /** No two rows have the same name after stripping and lower-casing: the rule the stripped argument of the name lookup points to. */
  predicate DistinctNameKeys(t: Table)
  {
    forall i, j | i in t && j in t && i != j :: NameKey(t[i].name) != NameKey(t[j].name)
  }

  /** A name the store can compare reliably: non-empty and without surrounding whitespace. */
  predicate CleanName(n: string)
  {
    n != [] && IsTrimmed(n)
  }

  /** Every stored name is clean. */
  predicate CleanNames(t: Table)
  {
    forall k | k in t :: CleanName(t[k].name)
  }

  /**
   * `SELECT * FROM boardgame WHERE lower(name) = key` followed by `.first()`: the
   * matching row that comes first in SQLite's scan of the table, which is the one
   * with the least key; `None` when no row matches.
   */
  function SelectFirstByLowerName(t: Table, key: string): (r: Option<int>)
    ensures r.Some? ==> r.value in t && Lower(t[r.value].name) == key
    ensures r.Some? ==> forall j | j in t && Lower(t[j].name) == key :: r.value <= j
    ensures r.None? <==> forall j | j in t :: Lower(t[j].name) != key
  {
    var matches := set j | j in t && Lower(t[j].name) == key;
    assert forall j | j in t && Lower(t[j].name) == key :: j in matches;
    if matches == {} then None else Some(Min(matches))
  }

  /**
   * The key of the row `get_boardgame_by_name` returns. An empty argument matches
   * nothing; otherwise the argument is stripped and lower-cased, but the stored
   * names are only lower-cased, never stripped.
   */
  function FindByName(t: Table, name: string): (r: Option<int>)
    ensures name == [] ==> r == None
    ensures r.Some? ==> r.value in t && Lower(t[r.value].name) == NameKey(name)
    ensures r.Some? ==> forall j | j in t && Lower(t[j].name) == NameKey(name) :: r.value <= j
    ensures r.None? <==> name == [] || forall j | j in t :: Lower(t[j].name) != NameKey(name)
  {
    if name == [] then None else SelectFirstByLowerName(t, Lower(Trim(name)))
  }

  /**
   * The primary key SQLite gives a new row of a rowid table: one more than the
   * largest key in the table, or 1 for an empty table. A key freed by a delete can
   * therefore be handed out again.
   */
  function NextId(keys: set<int>): (k: int)
    ensures k !in keys
    ensures forall j | j in keys :: j < k
    ensures keys == {} ==> k == 1
  {
    if keys == {} then 1 else Max(keys) + 1
  }

  /** The update name item with its value stripped, as `data["name"] = new_name` leaves it. */
  function NormalizedData(data: seq<Assignment>): (d: seq<Assignment>)
    ensures Lookup(data, Name).None? ==> d == data
    ensures Lookup(data, Name).Some? ==> Lookup(d, Name) == Some(SetName(Trim(Lookup(data, Name).value.name)))
    ensures forall c | c != Name :: Lookup(d, c) == Lookup(data, c)
  {
    match Lookup(data, Name)
    case None => data
    case Some(a) => Put(data, SetName(Trim(a.name)))
  }

  /**
   * The name rules of `update_boardgame` for the row at `id`: `None` when they
   * accept `data`, otherwise the error they raise. A present name that strips to
   * nothing is refused; a stripped name that differs case-insensitively from the
   * row's current name is refused when another row already has it.
   */
  function NameCheck(t: Table, id: int, data: seq<Assignment>): (r: Option<StoreError>)
    requires id in t
    ensures Lookup(data, Name).None? ==> r == None
    ensures r == Some(EmptyName) <==> Lookup(data, Name).Some? && Trim(Lookup(data, Name).value.name) == []
    ensures r == Some(DuplicateName) <==>
      && Lookup(data, Name).Some?
      && Trim(Lookup(data, Name).value.name) != []
      && Lower(Trim(Lookup(data, Name).value.name)) != Lower(t[id].name)
      && exists j | j in t :: Lower(t[j].name) == Lower(Trim(Lookup(data, Name).value.name))
    ensures r != Some(EmptyName) && r != None ==> r == Some(DuplicateName)
  {
    match Lookup(data, Name)
    case None => None
    case Some(a) =>
      var n := Trim(a.name);
      if n == [] then Some(EmptyName)
      else if Lower(n) != Lower(t[id].name) then
        TrimIdempotent(a.name);
        assert NameKey(n) == Lower(n);
        if FindByName(t, n).Some? then Some(DuplicateName) else None
      else None
  }

  /**
   * The duplicate refusal of an update is about other rows only: it is raised only
   * when another row has the stripped name, and, when the stored names are
   * distinct, it is raised whenever another row has it, so a row never collides
   * with itself.
   */
  lemma {:induction false} NameCheckRefusesOtherRowsOnly(t: Table, id: int, data: seq<Assignment>, raw: string)
    requires id in t && Lookup(data, Name) == Some(SetName(raw)) && Trim(raw) != []
    ensures NameCheck(t, id, data) == Some(DuplicateName) ==>
      exists j | j in t :: j != id && Lower(t[j].name) == Lower(Trim(raw))
    ensures DistinctNames(t) && (exists j | j in t :: j != id && Lower(t[j].name) == Lower(Trim(raw))) ==>
      NameCheck(t, id, data) == Some(DuplicateName)
  {
    var n := Trim(raw);
    TrimIdempotent(raw);
    assert NameKey(n) == Lower(n);
    if NameCheck(t, id, data) == Some(DuplicateName) {
      var j := FindByName(t, n).value;
      assert j in t && Lower(t[j].name) == Lower(n);
      assert j != id;
    }
    if DistinctNames(t) && exists j | j in t :: j != id && Lower(t[j].name) == Lower(n) {
      var j :| j in t && j != id && Lower(t[j].name) == Lower(n);
      assert Lower(n) != Lower(t[id].name);
      assert FindByName(t, n).Some?;
    }
  }

  /** The row `update_boardgame` stores at `id` once the name rules accept `data`. */
  function UpdatedRecord(t: Table, id: int, data: seq<Assignment>): (g: BoardGame)
    requires id in t
  {
    Patched(t[id], NormalizedData(data))
  }

  /**
   * The updated row keeps its id; it has the stripped name when `data` names one,
   * the sent value in every other column `data` names, and its old value in every
   * column `data` does not name.
   */
  lemma UpdatedRecordColumns(t: Table, id: int, data: seq<Assignment>, c: Column)
    requires id in t
    ensures UpdatedRecord(t, id, data).id == t[id].id
    ensures c == Name ==> Attribute(UpdatedRecord(t, id, data), c) == SetName(NewName(t, id, data))
    ensures c != Name ==>
      Attribute(UpdatedRecord(t, id, data), c) == match Lookup(data, c) { case Some(a) => a case None => Attribute(t[id], c) }
  {
    PatchedAttribute(t[id], NormalizedData(data), c);
    if c == Name {
      UpdatedRecordNameColumn(t, id, data);
    } else {
      UpdatedRecordOtherColumn(t, id, data, c);
    }
  }

  /** The name column of the updated row: the stripped sent name, or the old one. */
  lemma UpdatedRecordNameColumn(t: Table, id: int, data: seq<Assignment>)
    requires id in t
    ensures Attribute(UpdatedRecord(t, id, data), Name) == SetName(NewName(t, id, data))
  {
    match Lookup(data, Name)
    case Some(a) =>
      assert ColumnOf(a) == Name && a == SetName(a.name);
      NameColumnGiven(t, id, data, a.name);
    case None =>
      NameColumnKept(t, id, data);
  }

  /** A sent name is stored stripped. */
  lemma NameColumnGiven(t: Table, id: int, data: seq<Assignment>, raw: string)
    requires id in t && Lookup(data, Name) == Some(SetName(raw))
    ensures Attribute(UpdatedRecord(t, id, data), Name) == SetName(Trim(raw))
  {
    var d := NormalizedData(data);
    assert Lookup(d, Name) == Some(SetName(Trim(raw)));
    PatchedAttribute(t[id], d, Name);
  }

  /** Without a sent name the old name stays. */
  lemma NameColumnKept(t: Table, id: int, data: seq<Assignment>)
    requires id in t && Lookup(data, Name).None?
    ensures Attribute(UpdatedRecord(t, id, data), Name) == Attribute(t[id], Name)
  {
    assert NormalizedData(data) == data;
    PatchedAttribute(t[id], data, Name);
  }

  /** Every column but the name: the sent value, or the old one. */
  lemma UpdatedRecordOtherColumn(t: Table, id: int, data: seq<Assignment>, c: Column)
    requires id in t && c != Name
    ensures Attribute(UpdatedRecord(t, id, data), c) == match Lookup(data, c) { case Some(a) => a case None => Attribute(t[id], c) }
  {
    var d := NormalizedData(data);
    PatchedAttribute(t[id], d, c);
    assert Lookup(d, c) == Lookup(data, c);
  }

  /** An update with an empty payload stores the row exactly as it was. */
  lemma UpdateEmptyKeepsRow(t: Table, id: int)
    requires id in t
    ensures NameCheck(t, id, []) == None
    ensures UpdatedRecord(t, id, []) == t[id]
  {
  }

  /** Clean, case-insensitively distinct stored names are distinct after stripping too. */
  lemma CleanDistinctNamesHaveDistinctKeys(t: Table)
    requires CleanNames(t) && DistinctNames(t)
    ensures DistinctNameKeys(t)
  {
    forall k | k in t ensures NameKey(t[k].name) == Lower(t[k].name) {
      TrimOfTrimmed(t[k].name);
    }
  }

  /** A create whose name is clean and that `get_boardgame_by_name` does not find keeps the names distinct. */
  lemma CreateKeepsDistinctNames(t: Table, k: int, g: BoardGame)
    requires DistinctNames(t) && k !in t
    requires CleanName(g.name) && FindByName(t, g.name).None?
    ensures DistinctNames(t[k := g])
  {
    TrimOfTrimmed(g.name);
  }

  /** The name of the updated row: the stripped name `data` carries, or the old name. */
  lemma UpdatedName(t: Table, id: int, data: seq<Assignment>)
    requires id in t
    ensures UpdatedRecord(t, id, data).name == NewName(t, id, data)
  {
    match Lookup(data, Name)
    case Some(a) =>
      assert ColumnOf(a) == Name;
      UpdatedNameGiven(t, id, data, a.name);
    case None =>
      UpdatedNameKept(t, id, data);
  }

  /** An update that names a value stores that value stripped. */
  lemma UpdatedNameGiven(t: Table, id: int, data: seq<Assignment>, raw: string)
    requires id in t && Lookup(data, Name) == Some(SetName(raw))
    ensures UpdatedRecord(t, id, data).name == Trim(raw)
  {
    var g := UpdatedRecord(t, id, data);
    UpdatedRecordColumns(t, id, data, Name);
    assert Attribute(g, Name) == SetName(g.name);
  }

  /** An update that names no value keeps the old name. */
  lemma UpdatedNameKept(t: Table, id: int, data: seq<Assignment>)
    requires id in t && Lookup(data, Name).None?
    ensures UpdatedRecord(t, id, data).name == t[id].name
  {
    var g := UpdatedRecord(t, id, data);
    UpdatedRecordColumns(t, id, data, Name);
    assert Attribute(g, Name) == SetName(g.name);
  }

  /** Replacing a row by one that keeps its lower-cased name, or takes one no row has, keeps the names distinct. */
  lemma ReplaceKeepsDistinctNames(t: Table, id: int, g: BoardGame)
    requires DistinctNames(t) && id in t
    requires Lower(g.name) == Lower(t[id].name) || forall j | j in t :: Lower(t[j].name) != Lower(g.name)
    ensures DistinctNames(t[id := g])
  {
    var u := t[id := g];
    forall i, j | i in u && j in u && i != j ensures Lower(u[i].name) != Lower(u[j].name) {
      if i != id && j != id {
        assert u[i] == t[i] && u[j] == t[j];
      }
    }
  }

  /**
   * What an accepting name check means: a present name strips to something
   * non-empty that is either the row's own lower-cased name or no row's.
   */
  lemma NameCheckAccepts(t: Table, id: int, data: seq<Assignment>, raw: string)
    requires id in t && Lookup(data, Name) == Some(SetName(raw)) && NameCheck(t, id, data) == None
    ensures Trim(raw) != []
    ensures Lower(Trim(raw)) == Lower(t[id].name) || forall j | j in t :: Lower(t[j].name) != Lower(Trim(raw))
  {
    var n := Trim(raw);
    if Lower(n) != Lower(t[id].name) {
      TrimIdempotent(raw);
      assert FindByName(t, n).None?;
    }
  }

  /** The name an update stores: the stripped name `data` carries, or the row's old name. */
  function NewName(t: Table, id: int, data: seq<Assignment>): string
    requires id in t
  {
    match Lookup(data, Name)
    case Some(SetName(raw)) => Trim(raw)
    case _ => t[id].name
  }

  /** The name an accepted update stores is the row's own lower-cased name or one that no row has. */
  lemma NewNameAccepted(t: Table, id: int, data: seq<Assignment>)
    requires id in t && NameCheck(t, id, data) == None
    ensures Lower(NewName(t, id, data)) == Lower(t[id].name)
      || forall j | j in t :: Lower(t[j].name) != Lower(NewName(t, id, data))
  {
    match Lookup(data, Name)
    case Some(SetName(raw)) => NameCheckAccepts(t, id, data, raw);
    case _ =>
  }

  /** An update the name rules accept keeps the names distinct, whatever names are stored. */
  lemma UpdateKeepsDistinctNames(t: Table, id: int, data: seq<Assignment>)
    requires DistinctNames(t) && id in t && NameCheck(t, id, data) == None
    ensures DistinctNames(t[id := UpdatedRecord(t, id, data)])
  {
    NewNameAccepted(t, id, data);
    UpdatedName(t, id, data);
    ReplaceKeepsDistinctNames(t, id, UpdatedRecord(t, id, data));
  }

  /** An update the name rules accept keeps every stored name clean. */
  lemma UpdateKeepsCleanNames(t: Table, id: int, data: seq<Assignment>)
    requires CleanNames(t) && id in t && NameCheck(t, id, data) == None
    ensures CleanNames(t[id := UpdatedRecord(t, id, data)])
  {
    UpdatedName(t, id, data);
  }

  /** Adding a row with a clean name keeps every stored name clean. */
  lemma CreateKeepsCleanNames(t: Table, k: int, g: BoardGame)
    requires CleanNames(t) && CleanName(g.name)
    ensures CleanNames(t[k := g])
  {
  }

  /** A create leaves the rows keyed by their ids when the new row carries its new key. */
  lemma StoreKeepsKeyed(t: Table, k: int, g: BoardGame)
    requires Keyed(t) && g.id == Some(k)
    ensures Keyed(t[k := g])
  {
  }

  /** Lower-casing the padded name "Catan " is not lower-casing "Catan". */
  lemma PaddedCatan()
    ensures Trim("Catan ") == "Catan" && Trim("Catan") == "Catan"
    ensures Lower("Catan ") != Lower("Catan")
  {
    assert IsSpace(' ') && !IsSpace('C') && !IsSpace('n');
    assert "Catan "[..5] == "Catan";
    assert TrimStart("Catan ") == "Catan ";
    assert TrimEnd("Catan ") == "Catan";
    TrimOfTrimmed("Catan");
    assert |Lower("Catan ")| != |Lower("Catan")|;
  }

  /**
   * A padded name escapes the duplicate check: a row named "Catan " is not found by
   * the name "Catan " (the argument is stripped, the stored name is not), so a second
   * "Catan " is admitted and two rows end up with the same stored name.
   */
  lemma PaddedNameEscapesCheck()
    ensures var t := map[1 := BoardGame("Catan ", 3, 4, Some(1))];
      && DistinctNames(t)
      && FindByName(t, "Catan ") == None
      && !DistinctNames(t[2 := BoardGame("Catan ", 3, 4, Some(2))])
  {
    PaddedCatan();
    PaddedNameNotFound("Catan ");
  }

  /** A stored name whose lower case differs from its stripped lower case is not found by itself, and can be stored twice. */
  lemma PaddedNameNotFound(pad: string)
    requires pad != [] && Lower(Trim(pad)) != Lower(pad)
    ensures var t := map[1 := BoardGame(pad, 3, 4, Some(1))];
      && DistinctNames(t)
      && FindByName(t, pad) == None
      && !DistinctNames(t[2 := BoardGame(pad, 3, 4, Some(2))])
  {
    var g := BoardGame(pad, 3, 4, Some(1));
    OneRowMisses(g, pad);
    TwoRowsShareName(g, BoardGame(pad, 3, 4, Some(2)));
  }

  /** A one-row table whose lower-cased name is not the argument's key has no match for it. */
  lemma OneRowMisses(g: BoardGame, name: string)
    requires name != [] && Lower(g.name) != NameKey(name)
    ensures FindByName(map[1 := g], name) == None
  {
  }

  /** Two rows with different lower-cased names have distinct names. */
  lemma TwoRowsDistinct(g: BoardGame, h: BoardGame)
    requires Lower(g.name) != Lower(h.name)
    ensures DistinctNames(map[1 := g][2 := h])
  {
  }

  /** Two rows with the same lower-cased name break `DistinctNames`. */
  lemma TwoRowsShareName(g: BoardGame, h: BoardGame)
    requires Lower(g.name) == Lower(h.name)
    ensures !DistinctNames(map[1 := g][2 := h])
  {
    var u := map[1 := g][2 := h];
    assert 1 in u && 2 in u && u[1] == g && u[2] == h;
  }

  /** Two rows with the same stripped, lower-cased name break `DistinctNameKeys`. */
  lemma TwoRowsShareKey(g: BoardGame, h: BoardGame)
    requires NameKey(g.name) == NameKey(h.name)
    ensures !DistinctNameKeys(map[1 := g][2 := h])
  {
    var u := map[1 := g][2 := h];
    assert 1 in u && 2 in u && u[1] == g && u[2] == h;
  }

  /**
   * A padded stored name also hides its row from a clean name: "Catan" is admitted
   * beside "Catan ", which keeps the lower-cased names distinct but gives two rows
   * the same name after stripping and lower-casing.
   */
  lemma PaddedNameHidesRow()
    ensures var t := map[1 := BoardGame("Catan ", 3, 4, Some(1))];
      && FindByName(t, "Catan") == None
      && DistinctNames(t[2 := BoardGame("Catan", 3, 4, Some(2))])
      && !DistinctNameKeys(t[2 := BoardGame("Catan", 3, 4, Some(2))])
  {
    PaddedCatan();
    PaddedNameHidesClean("Catan ", "Catan");
  }

  /**
   * A stored name that is not stripped is not found by a stripped name it equals
   * after stripping and lower-casing, and the two can then be stored side by side.
   */
  lemma PaddedNameHidesClean(pad: string, clean: string)
    requires clean != [] && Trim(clean) == clean
    requires Trim(pad) == clean && Lower(pad) != Lower(clean)
    ensures var t := map[1 := BoardGame(pad, 3, 4, Some(1))];
      && FindByName(t, clean) == None
      && DistinctNames(t[2 := BoardGame(clean, 3, 4, Some(2))])
      && !DistinctNameKeys(t[2 := BoardGame(clean, 3, 4, Some(2))])
  {
    var g := BoardGame(pad, 3, 4, Some(1));
    var h := BoardGame(clean, 3, 4, Some(2));
    OneRowMisses(g, clean);
    TwoRowsDistinct(g, h);
    TwoRowsShareKey(g, h);
  }

  /** The empty name skips the check altogether, so any number of rows can be created with it. */
  lemma EmptyNameEscapesCheck(t: Table)
    ensures FindByName(t, "") == None
    ensures !DistinctNames(map[1 := BoardGame("", 3, 4, Some(1)), 2 := BoardGame("", 3, 4, Some(2))])
  {
    var u := map[1 := BoardGame("", 3, 4, Some(1)), 2 := BoardGame("", 3, 4, Some(2))];
    assert 1 in u && 2 in u && Lower(u[1].name) == Lower(u[2].name);
  }

  /**
   * A blank but non-empty name is not short-cut: it strips to the empty string and
   * then matches a row whose stored name is empty.
   */
  lemma BlankNameFindsEmptyRow()
    ensures FindByName(map[1 := BoardGame("", 3, 4, Some(1))], "  ") == Some(1)
  {
    var t := map[1 := BoardGame("", 3, 4, Some(1))];
    assert TrimStart("  "[1..]) == [];
    assert TrimStart("  ") == [];
    assert NameKey("  ") == [];
    assert 1 in t && Lower(t[1].name) == [];
    assert forall j | j in t :: j == 1;
  }

  /** After the row with the largest key is deleted, that key is the next one handed out. */
  lemma DeletedKeyIsReused()
    ensures NextId(map[1 := BoardGame("Azul", 2, 4, Some(1)), 2 := BoardGame("Catan", 3, 4, Some(2))].Keys) == 3
    ensures NextId((map[1 := BoardGame("Azul", 2, 4, Some(1)), 2 := BoardGame("Catan", 3, 4, Some(2))] - {2}).Keys) == 2
  {
    var t := map[1 := BoardGame("Azul", 2, 4, Some(1)), 2 := BoardGame("Catan", 3, 4, Some(2))];
    assert t.Keys == {1, 2};
    assert (t - {2}).Keys == {1};
  }

  /** `for k, v in data.items(): setattr(obj, k, v)`, the items assigned one by one in dict order. */
  method AssignItems(g: BoardGame, data: seq<Assignment>) returns (obj: BoardGame)
    ensures obj == Patched(g, data)
  {
    obj := g;
    var i := 0;
    while i < |data|
      invariant 0 <= i <= |data|
      invariant obj == Patched(g, data[..i])
    {
      assert data[..i + 1][..i] == data[..i];
      obj := SetAttr(obj, data[i]);
      i := i + 1;
    }
    assert data[..|data|] == data;
  }

  /** The rows stored under `ids`, in that order. */
  function RowsAt(t: Table, ids: seq<int>): (r: seq<BoardGame>)
    requires forall i | 0 <= i < |ids| :: ids[i] in t
    ensures |r| == |ids| && forall i | 0 <= i < |r| :: ids[i] in t && r[i] == t[ids[i]]
  {
    if ids == [] then [] else [t[ids[0]]] + RowsAt(t, ids[1..])
  }

  /** The rows of a keyed table, read in ascending key order: each row once, each under its key, ascending by id. */
  lemma RowsInKeyOrder(t: Table, ids: seq<int>, r: seq<BoardGame>)
    requires Keyed(t)
    requires |ids| == |t.Keys| && (forall x :: x in ids <==> x in t.Keys) && Ascending(ids)
    requires |r| == |ids| && forall i | 0 <= i < |r| :: ids[i] in t && r[i] == t[ids[i]]
    ensures |r| == |t|
    ensures forall i | 0 <= i < |r| :: r[i].id.Some? && r[i].id.value in t && t[r[i].id.value] == r[i]
    ensures forall k | k in t :: t[k] in r
    ensures forall i, j | 0 <= i < j < |r| :: r[i].id.value < r[j].id.value
  {
    forall i | 0 <= i < |r| ensures r[i].id == Some(ids[i]) {
      var k := ids[i];
      assert k in t && r[i] == t[k];
      assert t[k].id == Some(k);
    }
    forall k | k in t ensures t[k] in r {
      var i :| 0 <= i < |ids| && ids[i] == k;
      assert r[i] == t[k];
    }
  }

  /** The store: one session's view of the board-game table. */
  class Store {
    /** The persisted rows. */
    var games: Table

    /** Every persisted row carries its own primary key. */
    ghost predicate Valid()
      reads this
    {
      Keyed(games)
    }

    /** An empty table. */
    constructor ()
      ensures Valid() && games == map[]
    {
      games := map[];
    }

    /** `list_boardgames`: every row, each once, in ascending key order (SQLite's scan order). */
    method List() returns (r: seq<BoardGame>)
      requires Valid()
      ensures |r| == |games|
      ensures forall i | 0 <= i < |r| :: r[i].id.Some? && r[i].id.value in games && games[r[i].id.value] == r[i]
      ensures forall k | k in games :: games[k] in r
      ensures forall i, j | 0 <= i < j < |r| :: r[i].id.value < r[j].id.value
    {
      var t := games;
      var ids := SortedElements(t.Keys);
      r := RowsAt(t, ids);
      RowsInKeyOrder(t, ids, r);
    }

    /** `get_boardgame`: the row with primary key `id`, or `None`. */
    method Get(id: int) returns (r: Option<BoardGame>)
      requires Valid()
      ensures r.Some? <==> id in games
      ensures r.Some? ==> r.value == games[id] && r.value.id == Some(id)
    {
      if id in games {
        r := Some(games[id]);
      } else {
        r := None;
      }
    }

    /**
     * `get_boardgame_by_name`: `None` for an empty name; otherwise the first row whose
     * lower-cased stored name equals the stripped, lower-cased argument, or `None`.
     */
    method GetByName(name: string) returns (r: Option<BoardGame>)
      requires Valid()
      ensures name == [] ==> r == None
      ensures r.None? <==> name == [] || forall j | j in games :: Lower(games[j].name) != NameKey(name)
      ensures r.Some? ==> r.value.id.Some? && r.value.id.value in games && games[r.value.id.value] == r.value
      ensures r.Some? ==> Lower(r.value.name) == NameKey(name)
      ensures r == (match FindByName(games, name) { case Some(k) => Some(games[k]) case None => None })
    {
      if name == [] {
        return None;
      }
      var first := SelectFirstByLowerName(games, Lower(Trim(name)));
      r := if first.Some? then Some(games[first.value]) else None;
    }

    /**
     * `create_boardgame`: refuses a name `get_boardgame_by_name` finds; otherwise
     * persists the row under its own id if it carries one (refused when taken) or
     * under SQLite's next key, and returns it with its id filled in.
     */
    method Create(candidate: BoardGame) returns (r: Result<BoardGame, StoreError>)
      requires Valid()
      modifies this
      ensures Valid()
      ensures FindByName(old(games), candidate.name).Some? ==> r == Failure(DuplicateName)
      ensures FindByName(old(games), candidate.name).None? && candidate.id.Some? && candidate.id.value in old(games)
        ==> r == Failure(IdConflict)
      ensures r.Failure? ==> games == old(games)
      ensures r.Success? <==>
        FindByName(old(games), candidate.name).None? && (candidate.id.None? || candidate.id.value !in old(games))
      ensures r.Success? ==>
        && r.value.id.Some? && r.value.id.value !in old(games)
        && (candidate.id.Some? ==> r.value.id == candidate.id)
        && r.value == candidate.(id := r.value.id)
        && games == old(games)[r.value.id.value := r.value]
      ensures DistinctNames(old(games)) && CleanName(candidate.name) ==> DistinctNames(games)
      ensures CleanNames(old(games)) && CleanName(candidate.name) ==> CleanNames(games)
    {
      var existing := GetByName(candidate.name);
      if existing.Some? {
        return Failure(DuplicateName);
      }
      assert FindByName(games, candidate.name).None?;
      var k := if candidate.id.Some? then candidate.id.value else NextId(games.Keys);
      if k in games {
        return Failure(IdConflict);
      }
      var g := candidate.(id := Some(k));
      StoreKeepsKeyed(games, k, g);
      if DistinctNames(games) && CleanName(candidate.name) {
        CreateKeepsDistinctNames(games, k, g);
      }
      if CleanNames(games) && CleanName(candidate.name) {
        CreateKeepsCleanNames(games, k, g);
      }
      games := games[k := g];
      r := Success(g);
    }

    /**
     * `update_boardgame`: `None` for an unknown id, before any check of `data`;
     * otherwise the name rules of `NameCheck`, and then every item of `data`, with
     * the name stripped, is assigned onto the row, which is stored and returned.
     */
    method Update(id: int, data: seq<Assignment>) returns (r: Result<Option<BoardGame>, StoreError>)
      requires Valid()
      modifies this
      ensures Valid()
      ensures id !in old(games) ==> r == Success(None)
      ensures id in old(games) && NameCheck(old(games), id, data).Some? ==>
        r == Failure(NameCheck(old(games), id, data).value)
      ensures id in old(games) && NameCheck(old(games), id, data).None? ==>
        r == Success(Some(UpdatedRecord(old(games), id, data)))
      ensures r.Success? && r.value.Some? ==> games == old(games)[id := r.value.value]
      ensures !(r.Success? && r.value.Some?) ==> games == old(games)
      ensures DistinctNames(old(games)) ==> DistinctNames(games)
      ensures CleanNames(old(games)) ==> CleanNames(games)
    {
      var found := Get(id);
      if found.None? {
        return Success(None);
      }
      ghost var t := games;
      var obj := found.value;
      var d := data;
      var newName := Lookup(d, Name);
      if newName.Some? {
        var n := Trim(newName.value.name);
        if n == [] {
          assert NameCheck(t, id, data) == Some(EmptyName);
          return Failure(EmptyName);
        }
        if Lower(n) != Lower(obj.name) {
          var existing := GetByName(n);
          if existing.Some? {
            assert NameCheck(t, id, data) == Some(DuplicateName);
            return Failure(DuplicateName);
          }
        }
        d := Put(d, SetName(n));
      }
      assert NameCheck(t, id, data) == None;
      assert d == NormalizedData(data);
      obj := AssignItems(obj, d);
      assert obj == UpdatedRecord(t, id, data);
      UpdatedRecordColumns(t, id, data, Name);
      StoreKeepsKeyed(t, id, obj);
      if DistinctNames(t) {
        UpdateKeepsDistinctNames(t, id, data);
      }
      if CleanNames(t) {
        UpdateKeepsCleanNames(t, id, data);
      }
      games := games[id := obj];
      r := Success(Some(obj));
    }

    /** `delete_boardgame`: removes the row with primary key `id` and says whether there was one. */
    method Delete(id: int) returns (ok: bool)
      requires Valid()
      modifies this
      ensures Valid()
      ensures ok <==> id in old(games)
      ensures games == old(games) - {id}
    {
      var found := Get(id);
      if found.None? {
        return false;
      }
      games := games - {id};
      ok := true;
    }
  }
}
