# Board-game catalog: the record store and its HTTP routes

This is a Dafny model of the core of a small board-game catalog service, plus proofs about it. The service keeps one table of board games in SQLite. It offers five HTTP routes under `/boardgames`: list, create, get by id, partial update and delete. The model has four parts:

- **The entity and its shapes** (`models.dfy`, `schemas.dfy`). The entity is the `BoardGame` row. The shapes are the request and response forms derived from it: create, read and update.
- **The record store** (`crud.dfy`). `Crud.Store` is a class whose field `games` is the table, a finite map from primary key to row. Its methods `List`, `Get`, `GetByName`, `Create`, `Update` and `Delete` model `list_boardgames`, `get_boardgame`, `get_boardgame_by_name`, `create_boardgame`, `update_boardgame` and `delete_boardgame`. Around them sit the specification functions:
  - `FindByName`: the name lookup.
  - `NameCheck`: the name rules of an update.
  - `UpdatedRecord`: the row an update stores.
  - `NextId`: SQLite's choice of a new key.
- **The routes** (`boardgames.dfy`). Each route handler is a method that calls one store method and translates the outcome into a status code and a body. A store `ValueError` becomes 400 with its message; a missing row becomes 404.
- **Supporting modules.**
  - `text.dfy`: Python's `str.strip()` and ASCII lower-casing.
  - `attributes.dfy`: an update dict, `dict.get`, `d[k] = v` and `setattr`.
  - `intsets.dfy`: the least key, the greatest key and ascending key order.
  - `wrappers.dfy`: `Option` and `Result`.

The main results:

- **Name lookup.** `get_boardgame_by_name` strips and lower-cases its argument. It only lower-cases the stored names.
- **Create** refuses exactly the names that the lookup finds. Otherwise it stores the row unchanged under a key no row holds.
- **Update.**
  - An unknown id comes back as "not found" before the name is looked at.
  - A blank name is refused.
  - A stripped name that differs case-insensitively from the row's own name is refused exactly when some row has it. A name equal to the row's own skips the lookup, so a row never collides with itself. This holds in every table, not only in tables with distinct names.
  - Exactly the sent columns are overwritten, and the name is stored stripped.
- **Uniqueness.** "No two rows share a lower-cased name" is preserved by every update. It is preserved by a create whose name is non-empty and stripped.
- **Where uniqueness fails.** Three lemmas exhibit duplicates that the code lets through: `Crud.PaddedNameEscapesCheck` and `Crud.PaddedNameHidesRow` for padded names, and `Crud.EmptyNameEscapesCheck` for the empty name. A fourth, `Crud.BlankNameFindsEmptyRow`, shows the opposite case: a blank name is not short-cut, so it is refused next to a row whose name is empty.
- **Routes.** Each route's status and body are tied to the store outcome, including the 404-before-400 order of PUT.

Some rules of the code are easy to misread. The model follows the code:

- **Key reuse.** Keys are not promised never to be reused. An `INTEGER PRIMARY KEY` table re-issues the largest key after that row is deleted (`Crud.DeletedKeyIsReused`). The only property proved is that a new key is held by no current row.
- **Blank name lookup.** Of all names, only the empty one skips the lookup. A blank name such as `"  "` is stripped to the empty string and then matches a row whose stored name is empty (`Crud.BlankNameFindsEmptyRow`).
- **Uniqueness rule.** The lookup strips and lower-cases its argument (app/crud.py:19), so names look meant to be compared after stripping and lower-casing (`Text.NameKey`, `Crud.DistinctNameKeys`). But the lookup does not strip the stored names, and create stores its name as sent. Uniqueness therefore holds only under the "clean names" conditions stated in the lemmas. The gaps are exhibited in `Crud.PaddedNameEscapesCheck`, `Crud.PaddedNameHidesRow` and `Crud.EmptyNameEscapesCheck`.
- **List order.** `list_boardgames` requests no order (app/crud.py:8). The model fixes it as ascending key order, which is the order in which SQLite scans a rowid table.

## Model

| member | source | states |
|---|---|---|
| Text.Lower | app/crud.py:19 | The result has the input's length, and each character is the ASCII lower case of the input character at that position. One function stands for both SQL `lower()` and `str.lower()`. |
| Text.TrimStart | app/crud.py:19 | The result is the suffix left after the leading run of whitespace; every dropped character is whitespace, and the result does not start with whitespace. |
| Text.TrimEnd | app/crud.py:42 | The result is the prefix left before the trailing run of whitespace; every dropped character is whitespace, and the result does not end with whitespace. |
| Text.Trim | app/crud.py:42 | `str.strip()`: the result is a slice of the input, every character before and after that slice is whitespace, and the result has no surrounding whitespace. |
| Text.TrimOfTrimmed | app/crud.py:42 | Stripping a string without surrounding whitespace returns it unchanged. |
| Text.TrimIdempotent | app/crud.py:42-47 | Stripping twice equals stripping once. So the already stripped new name that update passes to the lookup is stripped again to itself. |
| Text.TrimEmptyIffBlank | app/crud.py:42-44 | A name strips to the empty string exactly when every character is whitespace. |
| IntSets.Min | app/crud.py:18-20 | `.first()` over matches in key order: the result is an element of the set and no element is smaller. |
| IntSets.Max | app/models.py:6 | The result is an element of the set and no element is larger; it is the basis of SQLite's next key. |
| IntSets.SortedElements | app/crud.py:7-8 | The keys of the table in scan order: each key exactly once, strictly ascending. |
| Models.RequiredColumnsOnly | app/models.py:5-17 | A row built from name and player counts alone has no id and no optional column set. |
| Models.UnconstrainedRow | app/models.py:8-17 | The entity admits an empty name and a minimum player count above the maximum. Ranges are not enforced. |
| Attributes.SetAttr | app/crud.py:54 | `setattr(obj, k, v)` sets the named column to the item's value and leaves the id and every other column unchanged. |
| Attributes.Lookup | app/crud.py:40 | `data.get(k)`: a found item has key `k` and is in the dict; nothing is found exactly when no item has key `k`. |
| Attributes.Put | app/crud.py:51 | `data["name"] = new_name`: afterwards the key holds the new value and every other key holds its old value. The size is kept when the key was present, and keys stay distinct. |
| Attributes.PatchedAttribute | app/crud.py:53-54 | After the setattr loop: the id is unchanged, each column named in the dict holds the dict's value, and each other column keeps its old value. |
| Attributes.PatchedEmpty | app/crud.py:53-54 | An empty dict leaves the row as it was. |
| Schemas.ToEntity | app/routers/boardgames.py:19 | `BoardGame(**payload.model_dump())` has no id. |
| Schemas.ToRead | app/schemas.py:22-23 | The read shape of a persisted row carries the row's id. |
| Schemas.CreateReadRoundTrip | app/schemas.py:5-23 | A create payload that is persisted under key `k` and read back has id `k`. Its create part is exactly the payload. |
| Schemas.Given | app/schemas.py:26-34 | An item given for a column is an item for that column. `DumpSet` and the PUT contract are stated against this per-field view of what the client set. |
| Schemas.DumpColumns | app/routers/boardgames.py:44 | An item is present for exactly those of the listed fields the client set, each once, with the sent value. |
| Schemas.DumpSet | app/routers/boardgames.py:44 | `model_dump(exclude_unset=True)`: a dict with distinct keys in which each column's lookup is exactly what the client set for it. |
| Crud.SelectFirstByLowerName | app/crud.py:18-20 | A result row is present and its lower-cased name equals the key, and it has the least such key. There is no result exactly when no row's lower-cased name equals the key. |
| Crud.FindByName | app/crud.py:15-20 | The empty name finds nothing. Otherwise the least-keyed row whose lower-cased stored name equals the stripped, lower-cased argument. Nothing is found exactly when the name is empty or no stored name matches. |
| Crud.NextId | app/models.py:6 | SQLite's new key is held by no row, exceeds every key, and is 1 for an empty table. |
| Crud.NormalizedData | app/crud.py:40-51 | With no name in the dict, the dict is unchanged. Otherwise the name key holds the stripped name and every other key is unchanged. |
| Crud.NameCheck | app/crud.py:40-49 | No name in the dict means the check accepts. `EmptyName` is raised exactly when the name strips to nothing. `DuplicateName` is raised exactly when the stripped name is non-empty, differs case-insensitively from the row's own name, and some row's lower-cased name equals it. There is no other error. |
| Crud.NameCheckRefusesOtherRowsOnly | app/crud.py:46-49 | `DuplicateName` is raised only when another row has the stripped name, so a row never collides with itself. Under distinct names it is raised whenever another row has it. |
| Crud.NameCheckAccepts | app/crud.py:41-49 | An accepted name strips to something non-empty that is the row's own lower-cased name or no row's. |
| Crud.NewNameAccepted | app/crud.py:40-51 | The name an accepted update stores is the row's own lower-cased name or one that no row has. |
| Crud.UpdatedRecordColumns | app/crud.py:51-54 | The updated row keeps its id. It has the stripped name when the dict names one, the sent value in every other column the dict names, and the old value elsewhere. |
| Crud.UpdatedName | app/crud.py:42-54 | The stored name is the stripped sent name, or the old name when none was sent. |
| Crud.UpdateEmptyKeepsRow | app/crud.py:53-59 | An empty dict passes the name rules and stores the row exactly as it was. |
| Crud.CleanDistinctNamesHaveDistinctKeys | app/crud.py:15-20 | When every stored name is clean (non-empty, no surrounding whitespace), distinct lower-cased names are also distinct after stripping. |
| Crud.CreateKeepsDistinctNames | app/crud.py:23-31 | A create with a clean name that the lookup does not find keeps lower-cased names distinct. |
| Crud.ReplaceKeepsDistinctNames | app/crud.py:46-54 | Replacing a row by one with its own lower-cased name, or a name no row has, keeps lower-cased names distinct. |
| Crud.UpdateKeepsDistinctNames | app/crud.py:34-59 | Every accepted update keeps lower-cased names distinct. |
| Crud.UpdateKeepsCleanNames | app/crud.py:40-54 | An accepted update keeps every stored name clean. |
| Crud.CreateKeepsCleanNames | app/crud.py:23-31 | A create with a clean name keeps every stored name clean. |
| Crud.StoreKeepsKeyed | app/crud.py:28-30 | Storing a row under its own id keeps every row keyed by its id. |
| Crud.PaddedNameEscapesCheck | app/crud.py:19-26 | A stored "Catan " is not found by "Catan ", so a second "Catan " is admitted and two rows then share a lower-cased name. |
| Crud.PaddedNameHidesRow | app/crud.py:19-26 | A stored "Catan " hides its row from "Catan". A second row "Catan" is admitted, and the two names then collide after stripping. |
| Crud.PaddedNameNotFound | app/crud.py:19-26 | For any non-empty name whose lower case differs from its stripped lower case: a row with that name is not found by the name itself, and a second row with it is admitted, so two rows share a lower-cased name. |
| Crud.PaddedNameHidesClean | app/crud.py:19-26 | For a stored name that strips to a clean name of a different lower case: the clean name does not find the row, the two can be stored side by side with distinct lower-cased names, and they collide after stripping. |
| Crud.EmptyNameEscapesCheck | app/crud.py:16-17 | The empty name finds nothing in any table, so two rows can both have it. |
| Crud.BlankNameFindsEmptyRow | app/crud.py:16-19 | A blank non-empty name is not short-cut: it finds a row whose stored name is empty. |
| Crud.DeletedKeyIsReused | app/models.py:6 | After the row with the largest key is deleted, that key is the next one handed out. |
| Crud.AssignItems | app/crud.py:53-54 | The setattr loop over the dict's items yields the row `Patched` describes. |
| Crud.RowsInKeyOrder | app/crud.py:7-8 | The rows of a table read under its keys in ascending order: as many as the table holds, each stored under its own id, every row present, ids strictly ascending. |
| Crud.Store.List | app/crud.py:7-8 | Every stored row exactly once, each under its own key, in strictly ascending key order. |
| Crud.Store.Get | app/crud.py:11-12 | A row exactly when the key is present: the row stored there, carrying that id. |
| Crud.Store.GetByName | app/crud.py:15-20 | The row `FindByName` selects, or nothing. A result is stored under its id, and its lower-cased name equals the stripped, lower-cased argument. |
| Crud.Store.Create | app/crud.py:23-31 | Fails with `DuplicateName` exactly when the lookup finds the name, and with `IdConflict` for a taken explicit id, each leaving the table unchanged. Otherwise it adds one row under a fresh key: the candidate unchanged except for its id. It preserves distinct names and clean names for a clean candidate. |
| Crud.Store.Update | app/crud.py:34-59 | An unknown id gives "not found" before any name check; a refusal of the name rules is returned as is. Otherwise `UpdatedRecord` is stored at the id and returned. On any other outcome the table is unchanged; distinct and clean names are preserved. |
| Crud.Store.Delete | app/crud.py:62-68 | Returns true exactly when the key was present. Afterwards the table is the old table without that key. |
| Routers.ReadAll | app/routers/boardgames.py:12-14 | The response model applied to every row, order and length kept. |
| Routers.CreatedResponse | app/routers/boardgames.py:17-23 | Success gives 201 with the row. A `ValueError` gives 400 with its message. Any other error gives the uncaught 500. |
| Routers.FoundResponse | app/routers/boardgames.py:26-31 | A row gives 200 with it. Nothing gives 404 "Board game not found". |
| Routers.UpdatedResponse | app/routers/boardgames.py:40-51 | A `ValueError` gives 400 with its message, nothing gives 404 and a row gives 200 with it. |
| Routers.DeletedResponse | app/routers/boardgames.py:54-59 | True gives 204 without a body. False gives 404. |
| Routers.ListBoardGames | app/routers/boardgames.py:12-14 | 200 with every stored row exactly once, as read shapes in ascending id order. |
| Routers.CreateBoardGame | app/routers/boardgames.py:17-23 | A duplicate gives 400 "Board game with this name already exists" and no change. Otherwise 201 with a fresh id whose create part is the payload, and the table gains exactly that row. |
| Routers.GetBoardGame | app/routers/boardgames.py:26-31 | 200 with the stored row and its id, or 404 "Board game not found". |
| Routers.UpdateBoardGame | app/routers/boardgames.py:34-51 | An unknown id gives 404 whatever the payload. A blank name gives 400 "Name cannot be empty". A stripped name that differs case-insensitively from the row's own and that some row has gives the duplicate 400. A non-blank name equal to the row's own, or one no row has, gives 200, as does an update without a name. A 400 occurs only for those two reasons. A 200 keeps the id, the keys and the other rows; the name is stored stripped, each set field takes the sent value and each unset field keeps its value. Nothing changes without a 200, and distinct names are preserved. |
| Routers.UpdatedColumns | app/routers/boardgames.py:44 | The columns of the row a PUT stores, in terms of the fields the client set (name stripped, unset columns kept). |
| Routers.PayloadNameCheck | app/crud.py:40-49 | The name rules in terms of the name the client sent: no name accepts; a blank name is `EmptyName`; a stripped name of a different lower case that some row has is `DuplicateName`; the row's own name or an unused one is accepted; every refusal is a `ValueError` about a blank name or another row's name. |
| Routers.PutStoresRow | app/crud.py:51-59 | After an accepted PUT the row keeps its id, the table keeps its keys and every other row, the sent name is stored stripped, each set field takes the sent value and each unset field keeps its old one. |
| Routers.DeleteBoardGame | app/routers/boardgames.py:54-59 | The key is removed. The response is 204 when the key was present and 404 otherwise. |
| Routers.SameNameKey | app/crud.py:19 | " CATAN " strips and lower-cases to the lower-cased "Catan". |
| Routers.CreateScenario | tests/test_boardgames.py:34-52 | On an empty catalog, POST of "Catan" with every field filled in gives 201 with an id and every field as sent. |
| Routers.DuplicateCreateScenario | app/crud.py:24-26 | After "Catan" is stored, a POST of " CATAN " gives 400 with the duplicate message. |
| Routers.UpdateScenario | tests/test_boardgames.py:83-103 | After POST of "Catan" with rating 7.2, a PUT of name "Catan (Updated)", the player counts and rating 8.0 gives 200 with the same id, the new name and the new rating. |
| Routers.RenameScenario | tests/test_boardgames.py:90-103 | The PUT of that test, on the catalog its POST leaves: 200 with the same id, the new name, the player counts and rating 8.0. |
| Routers.PartialUpdateScenario | app/routers/boardgames.py:44 | A PUT that sets only the rating gives 200 with the new rating, the same id and every other field unchanged. |
| Routers.ListScenario | tests/test_boardgames.py:55-65 | After POSTs of "Catan" and "7 Wonders" on an empty catalog, GET gives 200 with two rows whose names are exactly those two. |
| Routers.ListTwoScenario | tests/test_boardgames.py:59-65 | The GET of that test, on the catalog its two POSTs leave: two rows, with exactly those two names. |
| Routers.GetScenario | tests/test_boardgames.py:68-80 | POST of "Terraforming Mars" and a GET of the returned id give 200 with that id and that name. |
| Routers.NotFoundScenario | tests/test_boardgames.py:118-120 | On an empty catalog, GET of id 999999 gives 404. |
| Routers.DeleteScenario | tests/test_boardgames.py:106-117 | POST of "Splendor", then DELETE of the returned id gives 204, and a following GET of that id gives 404. |

## Left out

- **Persistence plumbing.** The engine, sessions, `commit`/`refresh` and configuration are not modelled. The table is a map, and database failures are not modelled. The health route, application wiring, the Streamlit dashboard, the HTTP client and the CLI are not part of this model. The dashboard's checks of player counts and duplicates are client-side only and are not added to the store.
- **Concurrency.** Each operation runs as one atomic step. Two concurrent creates of the same name, which could both pass the lookup, are not modelled.
- **Floats.** `complexity` and `rating` are carried as `real` values. The service never computes with them, and binary floating point is not modelled.
- **Case folding.** Lower-casing is ASCII only, for both SQL `lower()` and Python's `str.lower()`. The two differ outside ASCII, and that difference is not modelled.
- **Crud.NextId:** SQLite's cap at the largest 64-bit key is not modelled, nor its random choice of key after reaching that cap.
- **Crud.Store.Update: explicit null for a required column.** An explicit `null` for `name`, `min_players` or `max_players` in a PUT is not modelled. The source passes it to `setattr`, and the database then refuses the row. The update dict carries values for those columns only.
- **Crud.Store.Create: explicit id.** The explicit-id path cannot be reached over HTTP, because no route passes an id. The model refuses a taken id with `IdConflict`, which stands for the database's integrity error, not its exact text.
- **Crud.Store.List: scan order.** The order is taken to be SQLite's ascending key scan order; the source itself requests no order.
- **Routers.UpdateBoardGame: 422.** Request validation errors (HTTP 422) raised by the framework before a handler runs are not modelled. A payload is taken as already parsed into its shape.
- **Integer width.** SQLite stores the id and every integer column as a signed 64-bit integer. Python's `sqlite3` cannot bind an integer outside that range, and the source then fails with an uncaught error, which ends as a 500. The model takes integers as unbounded, so it gives other answers for such requests. The next lines name the members this affects.
- Routers.GetBoardGame: an id outside the signed 64-bit range gives 404 in the model; the source fails with a 500.
- Routers.UpdateBoardGame: an id, player count, year or play time outside the signed 64-bit range is not refused in the model; the source fails with a 500.
- Routers.DeleteBoardGame: an id outside the signed 64-bit range gives 404 in the model; the source fails with a 500.
- Routers.CreateBoardGame: a player count, year or play time outside the signed 64-bit range gives 201 in the model; the source fails with a 500.
- Crud.FindByName: `.first()` is taken to return the matching row with the least key, which is SQLite's scan order of a rowid table; the query at app/crud.py:18-20 has no `ORDER BY`, so which of several matching rows comes first is not promised by the source.
