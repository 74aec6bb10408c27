/**
 * The HTTP routes under `/boardgames`: each handler calls one store operation and
 * turns its outcome into a status code and a JSON body. A `ValueError` from the
 * store becomes 400 with its message as `detail`; a missing row becomes 404.
 */
module Routers {
  import opened Wrappers
  import opened Text
  import opened Models
  import opened Attributes
  import opened Schemas
  import opened Crud

  /** A response body: one row, a list of rows, an error `detail`, nothing, or the framework's plain-text 500 page. */
  datatype Body =
    | Item(game: BoardGameRead)
    | Items(games: seq<BoardGameRead>)
    | Detail(detail: string)
    | NoContent
    | InternalServerError

  datatype Response = Response(status: int, body: Body)

  /** The `detail` of every 404. */
  const NotFoundDetail: string := "Board game not found"

  /** Rows as the read shape, in the same order. */
  function ReadAll(games: seq<BoardGame>): (r: seq<BoardGameRead>)
    requires forall i | 0 <= i < |games| :: games[i].id.Some?
    ensures |r| == |games|
    ensures forall i | 0 <= i < |games| :: r[i] == ToRead(games[i])
  {
    seq(|games|, i requires 0 <= i < |games| => ToRead(games[i]))
  }

  /**
   * POST outcome: 201 with the stored row; a `ValueError` gives 400 with its
   * message; any other exception is not caught and ends as a 500.
   */
  function CreatedResponse(r: Result<BoardGame, StoreError>): (resp: Response)
    requires r.Success? ==> r.value.id.Some?
    ensures resp.status == 201 <==> r.Success?
    ensures resp.status == 400 <==> r.Failure? && IsValueError(r.error)
    ensures r.Success? ==> resp.body == Item(ToRead(r.value))
    ensures r.Failure? && IsValueError(r.error) ==> resp.body == Detail(Message(r.error))
    ensures r.Failure? && !IsValueError(r.error) ==> resp == Response(500, InternalServerError)
  {
    match r
    case Success(g) => Response(201, Item(ToRead(g)))
    case Failure(e) => if IsValueError(e) then Response(400, Detail(Message(e))) else Response(500, InternalServerError)
  }

  /** GET-by-id outcome: 200 with the row, or 404 for `None`. */
  function FoundResponse(r: Option<BoardGame>): (resp: Response)
    requires r.Some? ==> r.value.id.Some?
    ensures resp.status == 200 <==> r.Some?
    ensures r.Some? ==> resp.body == Item(ToRead(r.value))
    ensures r.None? ==> resp == Response(404, Detail(NotFoundDetail))
  {
    match r
    case Some(g) => Response(200, Item(ToRead(g)))
    case None => Response(404, Detail(NotFoundDetail))
  }

  /**
   * PUT outcome: a `ValueError` gives 400 with its message, checked before the
   * result; then `None` gives 404 and a row gives 200 with that row.
   */
  function UpdatedResponse(r: Result<Option<BoardGame>, StoreError>): (resp: Response)
    requires r.Success? && r.value.Some? ==> r.value.value.id.Some?
    ensures resp.status == 200 <==> r.Success? && r.value.Some?
    ensures resp.status == 404 <==> r.Success? && r.value.None?
    ensures resp.status == 400 <==> r.Failure? && IsValueError(r.error)
    ensures r.Failure? && IsValueError(r.error) ==> resp.body == Detail(Message(r.error))
    ensures r.Success? && r.value.Some? ==> resp.body == Item(ToRead(r.value.value))
    ensures r.Success? && r.value.None? ==> resp.body == Detail(NotFoundDetail)
  {
    match r
    case Failure(e) => if IsValueError(e) then Response(400, Detail(Message(e))) else Response(500, InternalServerError)
    case Success(None) => Response(404, Detail(NotFoundDetail))
    case Success(Some(g)) => Response(200, Item(ToRead(g)))
  }

  /** DELETE outcome: 204 without a body when a row was removed, 404 otherwise. */
  function DeletedResponse(ok: bool): (resp: Response)
    ensures ok ==> resp == Response(204, NoContent)
    ensures !ok ==> resp == Response(404, Detail(NotFoundDetail))
  {
    if ok then Response(204, NoContent) else Response(404, Detail(NotFoundDetail))
  }

  /** GET `/boardgames/`: 200 with every stored row, each once, in ascending id order. */
  method ListBoardGames(store: Store) returns (resp: Response)
    requires store.Valid()
    ensures resp.status == 200 && resp.body.Items?
    ensures |resp.body.games| == |store.games|
    ensures forall k | k in store.games :: ToRead(store.games[k]) in resp.body.games
    ensures forall x | x in resp.body.games :: x.id in store.games && ToRead(store.games[x.id]) == x
    ensures forall i, j | 0 <= i < j < |resp.body.games| :: resp.body.games[i].id < resp.body.games[j].id
  {
    var games := store.List();
    var items := ReadAll(games);
    forall k | k in store.games ensures ToRead(store.games[k]) in items {
      var i :| 0 <= i < |games| && games[i] == store.games[k];
      assert items[i] == ToRead(store.games[k]);
    }
    resp := Response(200, Items(items));
  }

  /**
   * POST `/boardgames/`: 201 with the new row, its id one that no stored row held and
   * its other fields those of the payload; 400 with the store's message, and no
   * change, when `get_boardgame_by_name` finds the name.
   */
  method CreateBoardGame(store: Store, payload: BoardGameCreate) returns (resp: Response)
    requires store.Valid()
    modifies store
    ensures store.Valid()
    ensures FindByName(old(store.games), payload.name).Some? ==>
      resp == Response(400, Detail("Board game with this name already exists")) && store.games == old(store.games)
    ensures FindByName(old(store.games), payload.name).None? ==>
      && resp.status == 201 && resp.body.Item?
      && resp.body.game.id !in old(store.games)
      && Base(resp.body.game) == payload
      && store.games == old(store.games)[resp.body.game.id := ToEntity(payload).(id := Some(resp.body.game.id))]
  {
    var entity := ToEntity(payload);
    var r := store.Create(entity);
    resp := CreatedResponse(r);
    if r.Success? {
      CreateReadRoundTrip(payload, r.value.id.value);
    }
  }

  /** GET `/boardgames/{id}`: 200 with the row, or 404 "Board game not found". */
  method GetBoardGame(store: Store, id: int) returns (resp: Response)
    requires store.Valid()
    ensures id in store.games ==> resp == Response(200, Item(ToRead(store.games[id]))) && resp.body.game.id == id
    ensures id !in store.games ==> resp == Response(404, Detail(NotFoundDetail))
  {
    var game := store.Get(id);
    resp := FoundResponse(game);
  }

  /**
   * PUT `/boardgames/{id}`: only the fields the client set are forwarded. An unknown
   * id gives 404 whatever the payload, even an empty name; a set name that strips
   * to nothing gives 400; so does one that differs case-insensitively from the
   * row's own name and that some row has; otherwise 200 with the row,
   * whose id is unchanged and whose every field the client did not set keeps its
   * value. Nothing changes unless the answer is 200.
   */
  method UpdateBoardGame(store: Store, id: int, payload: BoardGameUpdate) returns (resp: Response)
    requires store.Valid()
    modifies store
    ensures store.Valid()
    ensures resp.status != 200 ==> store.games == old(store.games)
    ensures id !in old(store.games) ==> resp == Response(404, Detail(NotFoundDetail))
    ensures id in old(store.games) ==> resp.status == 200 || resp.status == 400
    ensures id in old(store.games) && payload.name.Some? && Trim(payload.name.value) == [] ==>
      resp == Response(400, Detail("Name cannot be empty"))
    ensures id in old(store.games) && payload.name.Some? && Trim(payload.name.value) != []
      && Lower(Trim(payload.name.value)) != Lower(old(store.games)[id].name)
      && (exists j | j in old(store.games) :: Lower(old(store.games)[j].name) == Lower(Trim(payload.name.value)))
      ==> resp == Response(400, Detail("Board game with this name already exists"))
    ensures id in old(store.games) && payload.name.Some? && Trim(payload.name.value) != []
      && (|| Lower(Trim(payload.name.value)) == Lower(old(store.games)[id].name)
          || forall j | j in old(store.games) :: Lower(old(store.games)[j].name) != Lower(Trim(payload.name.value)))
      ==> resp.status == 200
    ensures resp.status == 400 ==>
      && resp.body.Detail? && payload.name.Some?
      && (|| Trim(payload.name.value) == []
          || exists j | j in old(store.games) :: j != id && Lower(old(store.games)[j].name) == Lower(Trim(payload.name.value)))
    ensures id in old(store.games) && payload.name.None? ==> resp.status == 200
    ensures resp.status == 200 ==>
      && id in old(store.games) && resp.body.Item? && resp.body.game.id == id
      && store.games.Keys == old(store.games).Keys
      && (forall k | k in store.games && k != id :: store.games[k] == old(store.games)[k])
      && resp.body.game == ToRead(store.games[id])
      && (payload.name.Some? ==> store.games[id].name == Trim(payload.name.value))
      && (forall c | c != Name || payload.name.None? ::
            Attribute(store.games[id], c) ==
              match Given(payload, c) { case Some(a) => a case None => Attribute(old(store.games)[id], c) })
    ensures DistinctNames(old(store.games)) ==> DistinctNames(store.games)
  {
    var data := DumpSet(payload);
    ghost var t := store.games;
    if id in t {
      PayloadNameCheck(t, id, data, payload);
    }
    var updated := store.Update(id, data);
    resp := UpdatedResponse(updated);
    if resp.status == 200 {
      PutStoresRow(t, id, data, payload);
    }
  }

  /** The name rules of a PUT, in terms of the name the client sent. */
  lemma PayloadNameCheck(t: Table, id: int, data: seq<Assignment>, payload: BoardGameUpdate)
    requires id in t
    requires forall c :: Lookup(data, c) == Given(payload, c)
    ensures payload.name.None? ==> NameCheck(t, id, data) == None
    ensures payload.name.Some? && Trim(payload.name.value) == [] ==> NameCheck(t, id, data) == Some(EmptyName)
    ensures payload.name.Some? && Trim(payload.name.value) != []
      && Lower(Trim(payload.name.value)) != Lower(t[id].name)
      && (exists j | j in t :: Lower(t[j].name) == Lower(Trim(payload.name.value)))
      ==> NameCheck(t, id, data) == Some(DuplicateName)
    ensures payload.name.Some? && Trim(payload.name.value) != []
      && (|| Lower(Trim(payload.name.value)) == Lower(t[id].name)
          || forall j | j in t :: Lower(t[j].name) != Lower(Trim(payload.name.value)))
      ==> NameCheck(t, id, data) == None
    ensures NameCheck(t, id, data).Some? ==>
      && IsValueError(NameCheck(t, id, data).value) && payload.name.Some?
      && (|| Trim(payload.name.value) == []
          || exists j | j in t :: j != id && Lower(t[j].name) == Lower(Trim(payload.name.value)))
  {
    assert Lookup(data, Name) == Given(payload, Name);
    if payload.name.Some? {
      assert Lookup(data, Name) == Some(SetName(payload.name.value));
      if Trim(payload.name.value) != [] {
        NameCheckRefusesOtherRowsOnly(t, id, data, payload.name.value);
      }
    }
  }

  /** The table and the response body after an accepted PUT. */
  lemma PutStoresRow(t: Table, id: int, data: seq<Assignment>, payload: BoardGameUpdate)
    requires Keyed(t) && id in t
    requires forall c :: Lookup(data, c) == Given(payload, c)
    ensures var u := t[id := UpdatedRecord(t, id, data)];
      && UpdatedRecord(t, id, data).id == Some(id) && ToRead(u[id]).id == id
      && u.Keys == t.Keys
      && (forall k | k in u && k != id :: u[k] == t[k])
      && (payload.name.Some? ==> u[id].name == Trim(payload.name.value))
      && (forall c | c != Name || payload.name.None? ::
            Attribute(u[id], c) == match Given(payload, c) { case Some(a) => a case None => Attribute(t[id], c) })
  {
    UpdatedColumns(t, id, data, payload);
    UpdatedRecordColumns(t, id, data, Name);
  }

  /** The columns of the row a PUT stores, in terms of the payload the client sent. */
  lemma UpdatedColumns(t: Table, id: int, data: seq<Assignment>, payload: BoardGameUpdate)
    requires id in t
    requires forall c :: Lookup(data, c) == Given(payload, c)
    ensures payload.name.Some? ==> UpdatedRecord(t, id, data).name == Trim(payload.name.value)
    ensures forall c | c != Name || payload.name.None? ::
      Attribute(UpdatedRecord(t, id, data), c) ==
        match Given(payload, c) { case Some(a) => a case None => Attribute(t[id], c) }
  {
    UpdatedName(t, id, data);
    forall c | c != Name || payload.name.None?
      ensures Attribute(UpdatedRecord(t, id, data), c) ==
        match Given(payload, c) { case Some(a) => a case None => Attribute(t[id], c) }
    {
      UpdatedRecordColumns(t, id, data, c);
    }
  }

  /** DELETE `/boardgames/{id}`: 204 without a body and the row removed, or 404 when there was none. */
  method DeleteBoardGame(store: Store, id: int) returns (resp: Response)
    requires store.Valid()
    modifies store
    ensures store.Valid()
    ensures store.games == old(store.games) - {id}
    ensures id in old(store.games) ==> resp == Response(204, NoContent)
    ensures id !in old(store.games) ==> resp == Response(404, Detail(NotFoundDetail))
  {
    var ok := store.Delete(id);
    resp := DeletedResponse(ok);
  }

  /** " CATAN " and "Catan" have the same name key. */
  lemma SameNameKey()
    ensures NameKey(" CATAN ") == Lower("Catan")
  {
    SpacedCatanStrips();
    CatanCaseFolds();
  }

  /** " CATAN " strips to "CATAN". */
  lemma SpacedCatanStrips()
    ensures Trim(" CATAN ") == "CATAN"
  {
    assert IsSpace(' ') && !IsSpace('C') && !IsSpace('N');
    assert " CATAN "[1..] == "CATAN " && "CATAN "[..5] == "CATAN";
    assert TrimStart(" CATAN ") == "CATAN ";
    assert TrimEnd("CATAN ") == "CATAN";
  }

  /** "CATAN" and "Catan" lower-case alike. */
  lemma CatanCaseFolds()
    ensures Lower("CATAN") == Lower("Catan")
  {
    var upper, mixed := Lower("CATAN"), Lower("Catan");
    assert LowerChar('A') == 'a' && LowerChar('T') == 't' && LowerChar('N') == 'n';
    assert forall i | 0 <= i < 5 :: upper[i] == mixed[i];
  }

  /** "Catan (Updated)" has no surrounding whitespace and does not lower-case like "Catan". */
  lemma RenamedCatan()
    ensures Trim("Catan (Updated)") == "Catan (Updated)"
    ensures Lower("Catan (Updated)") != Lower("Catan")
  {
    EdgesNotSpace("Catan (Updated)");
    TrimOfTrimmed("Catan (Updated)");
    var renamed, catan := Lower("Catan (Updated)"), Lower("Catan");
    assert |renamed| == 15 && |catan| == 5;
  }

  /** "7 Wonders" has no surrounding whitespace and does not lower-case like "Catan". */
  lemma WondersIsNotCatan()
    ensures NameKey("7 Wonders") == Lower("7 Wonders")
    ensures Lower("7 Wonders") != Lower("Catan")
  {
    EdgesNotSpace("7 Wonders");
    TrimOfTrimmed("7 Wonders");
    var wonders, catan := Lower("7 Wonders"), Lower("Catan");
    assert |wonders| == 9 && |catan| == 5;
  }

  /** A name that starts and ends with a letter, a digit or a bracket has no surrounding whitespace. */
  lemma EdgesNotSpace(s: string)
    requires s != []
    requires ('0' <= s[0] <= '9' || 'A' <= s[0] <= 'Z') && ('a' <= s[|s| - 1] <= 'z' || s[|s| - 1] == ')')
    ensures IsTrimmed(s)
  {
  }

  /** A POST of a name the lookup does not find: 201 with the new row, which the table gains under a fresh id. */
  method PostFresh(store: Store, payload: BoardGameCreate) returns (created: Response, id: int)
    requires store.Valid() && FindByName(store.games, payload.name).None?
    modifies store
    ensures store.Valid()
    ensures id !in old(store.games)
    ensures created == Response(201, Item(ToRead(ToEntity(payload).(id := Some(id)))))
    ensures store.games == old(store.games)[id := ToEntity(payload).(id := Some(id))]
  {
    created := CreateBoardGame(store, payload);
    id := created.body.game.id;
    CreateReadRoundTrip(payload, id);
  }

  /**
   * `test_create_boardgame`: on an empty catalog, POST of "Catan" with every field
   * filled in gives 201 with an id and every field as sent.
   */
  method CreateScenario() returns (created: Response)
    ensures created.status == 201 && created.body.Item?
    ensures created.body.game ==
      BoardGameRead(created.body.game.id, "Catan", 3, 4, Some("Klaus Teuber"), Some(1995), Some(60), Some(2.3), Some(7.2))
  {
    var store := new Store();
    created := CreateBoardGame(store,
      BoardGameCreate("Catan", 3, 4, Some("Klaus Teuber"), Some(1995), Some(60), Some(2.3), Some(7.2)));
  }

  /**
   * The duplicate refusal of a create: after "Catan" is stored, a POST whose name
   * differs only in case and surrounding whitespace gives 400 with the duplicate
   * message.
   */
  method DuplicateCreateScenario() returns (created: Response, duplicate: Response)
    ensures created.status == 201 && created.body.Item?
    ensures created.body.game == BoardGameRead(created.body.game.id, "Catan", 3, 4)
    ensures duplicate == Response(400, Detail("Board game with this name already exists"))
  {
    var store := new Store();
    created := CreateBoardGame(store, BoardGameCreate("Catan", 3, 4));
    var id := created.body.game.id;
    assert store.games == map[id := BoardGame("Catan", 3, 4, Some(id))];
    SameNameKey();
    assert FindByName(store.games, " CATAN ").Some?;
    duplicate := CreateBoardGame(store, BoardGameCreate(" CATAN ", 2, 4));
  }

  /**
   * `test_update_boardgame`: "Catan" (3-4 players, rating 7.2) is created, then a PUT
   * renames it to "Catan (Updated)", resends the player counts and sets the rating
   * to 8.0; the answer is 200 with the same id, the new name and the new rating.
   */
  method UpdateScenario() returns (created: Response, updated: Response)
    ensures created.status == 201 && created.body.Item?
    ensures updated == Response(200, Item(BoardGameRead(created.body.game.id, "Catan (Updated)", 3, 4, rating := Some(8.0))))
  {
    var store := new Store();
    var id;
    created, id := PostFresh(store, BoardGameCreate("Catan", 3, 4, rating := Some(7.2)));
    assert store.games == map[id := BoardGame("Catan", 3, 4, Some(id), rating := Some(7.2))];
    RenamedCatan();
    updated := RenameScenario(store, id, "Catan (Updated)");
    assert created.body.game.id == id;
  }

  /**
   * The PUT of `test_update_boardgame`, on the catalog its POST leaves, for a new
   * name that has no surrounding whitespace and differs from "Catan" in lower case.
   */
  method RenameScenario(store: Store, id: int, newName: string) returns (updated: Response)
    requires store.games == map[id := BoardGame("Catan", 3, 4, Some(id), rating := Some(7.2))]
    requires Trim(newName) == newName && newName != [] && Lower(newName) != Lower("Catan")
    modifies store
    ensures updated == Response(200, Item(BoardGameRead(id, newName, 3, 4, rating := Some(8.0))))
  {
    var payload := BoardGameUpdate(name := Some(newName), minPlayers := Some(3), maxPlayers := Some(4),
                                   rating := Some(Some(8.0)));
    assert store.Valid();
    assert forall j | j in store.games :: Lower(store.games[j].name) != Lower(Trim(newName));
    updated := UpdateBoardGame(store, id, payload);
    RenamedRow(store.games[id], id, newName);
  }

  /** The row the PUT of `test_update_boardgame` stores, from what the PUT contract says about its columns. */
  lemma RenamedRow(g: BoardGame, id: int, newName: string)
    requires g.id == Some(id) && g.name == newName
    requires forall c | c != Name ::
      Attribute(g, c) ==
        match Given(BoardGameUpdate(name := Some(newName), minPlayers := Some(3), maxPlayers := Some(4),
                                    rating := Some(Some(8.0))), c)
        case Some(a) => a
        case None => Attribute(BoardGame("Catan", 3, 4, Some(id), rating := Some(7.2)), c)
    ensures g == BoardGame(newName, 3, 4, Some(id), rating := Some(8.0))
  {
    var payload := BoardGameUpdate(name := Some(newName), minPlayers := Some(3), maxPlayers := Some(4),
                                   rating := Some(Some(8.0)));
    var row' := BoardGame(newName, 3, 4, Some(id), rating := Some(8.0));
    forall c ensures Attribute(g, c) == Attribute(row', c) {
      if c != Name {
        assert Given(payload, c) ==
          if c == MinPlayers then Some(SetMinPlayers(3))
          else if c == MaxPlayers then Some(SetMaxPlayers(4))
          else if c == Rating then Some(SetRating(Some(8.0)))
          else None;
      }
    }
    RowExtensionality(g, row');
  }

  /**
   * A PUT that sets only the rating: on a catalog holding only "Catan" (3-4 players),
   * it gives 200 with the new rating, the same id and every other field as before,
   * since only the fields the client set are forwarded.
   */
  method PartialUpdateScenario(store: Store, id: int) returns (updated: Response)
    requires store.games == map[id := BoardGame("Catan", 3, 4, Some(id))]
    modifies store
    ensures updated == Response(200, Item(BoardGameRead(id, "Catan", 3, 4, rating := Some(8.0))))
    ensures store.games == map[id := BoardGame("Catan", 3, 4, Some(id), rating := Some(8.0))]
  {
    var row := BoardGame("Catan", 3, 4, Some(id));
    var payload := BoardGameUpdate(rating := Some(Some(8.0)));
    assert store.Valid();
    updated := UpdateBoardGame(store, id, payload);
    var row' := row.(rating := Some(8.0));
    forall c ensures Attribute(store.games[id], c) == Attribute(row', c) {
      assert Given(payload, c) == if c == Rating then Some(SetRating(Some(8.0))) else None;
    }
    RowExtensionality(store.games[id], row');
    assert store.games == map[id := row'];
  }

  /**
   * `test_list_boardgames`: after POSTs of "Catan" and "7 Wonders" on an empty
   * catalog, GET gives 200 with two rows, whose names are those two.
   */
  method ListScenario() returns (listed: Response)
    ensures listed.status == 200 && listed.body.Items? && |listed.body.games| == 2
    ensures (set x | x in listed.body.games :: x.name) == {"Catan", "7 Wonders"}
  {
    var store := new Store();
    var first, k1 := PostFresh(store, BoardGameCreate("Catan", 3, 4));
    listed := ListAfterCatan(store, k1);
  }

  /** The second POST and the GET of `test_list_boardgames`, on the catalog its first POST leaves. */
  method ListAfterCatan(store: Store, k1: int) returns (listed: Response)
    requires store.games == map[k1 := BoardGame("Catan", 3, 4, Some(k1))]
    modifies store
    ensures listed.status == 200 && listed.body.Items? && |listed.body.games| == 2
    ensures (set x | x in listed.body.games :: x.name) == {"Catan", "7 Wonders"}
  {
    assert store.Valid();
    WondersIsNotCatan();
    assert FindByName(store.games, "7 Wonders").None?;
    var second, k2 := PostFresh(store, BoardGameCreate("7 Wonders", 2, 7));
    assert k1 != k2;
    assert store.games == map[k1 := BoardGame("Catan", 3, 4, Some(k1)), k2 := BoardGame("7 Wonders", 2, 7, Some(k2))];
    listed := ListTwoScenario(store, k1, k2);
  }

  /** The GET of `test_list_boardgames`, on the catalog its two POSTs leave. */
  method ListTwoScenario(store: Store, k1: int, k2: int) returns (listed: Response)
    requires k1 != k2
    requires store.games == map[k1 := BoardGame("Catan", 3, 4, Some(k1)), k2 := BoardGame("7 Wonders", 2, 7, Some(k2))]
    ensures listed.status == 200 && listed.body.Items? && |listed.body.games| == 2
    ensures (set x | x in listed.body.games :: x.name) == {"Catan", "7 Wonders"}
  {
    assert store.Valid();
    listed := ListBoardGames(store);
    assert ToRead(store.games[k1]) in listed.body.games && ToRead(store.games[k2]) in listed.body.games;
    assert forall x | x in listed.body.games :: x.id == k1 || x.id == k2;
  }

  /**
   * `test_get_boardgame_by_id`: a POST of "Terraforming Mars" and a GET of the id it
   * returns give 200 with that id and that name.
   */
  method GetScenario() returns (created: Response, fetched: Response)
    ensures created.status == 201 && created.body.Item?
    ensures fetched.status == 200 && fetched.body.Item?
    ensures fetched.body.game.id == created.body.game.id && fetched.body.game.name == "Terraforming Mars"
  {
    var store := new Store();
    created := CreateBoardGame(store, BoardGameCreate("Terraforming Mars", 1, 5));
    fetched := GetBoardGame(store, created.body.game.id);
  }

  /** `test_get_nonexistent_returns_404`: on an empty catalog, GET of id 999999 gives 404. */
  method NotFoundScenario() returns (fetched: Response)
    ensures fetched == Response(404, Detail(NotFoundDetail))
  {
    var store := new Store();
    fetched := GetBoardGame(store, 999999);
  }

  /**
   * `test_delete_boardgame`: a POST of "Splendor", then a DELETE of the id it returns
   * gives 204, after which a GET of that id gives 404.
   */
  method DeleteScenario() returns (created: Response, deleted: Response, fetched: Response)
    ensures created.status == 201 && created.body.Item?
    ensures deleted == Response(204, NoContent)
    ensures fetched == Response(404, Detail(NotFoundDetail))
  {
    var store := new Store();
    created := CreateBoardGame(store, BoardGameCreate("Splendor", 2, 4));
    deleted := DeleteBoardGame(store, created.body.game.id);
    fetched := GetBoardGame(store, created.body.game.id);
  }
}
