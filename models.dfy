/** The one persisted entity of the catalog: a row of the board-game table. */
module Models {
  import opened Wrappers

  /**
   * Python floats (`complexity`, `rating`) are carried as opaque payload:
   * nothing in the catalog computes with them or checks their range.
   */
  type Float = real

  /**
   * A board-game row. `id` is the integer primary key and is absent until the row
   * is persisted; `name`, `minPlayers` and `maxPlayers` have no default; every other
   * column defaults to absent. No column carries a constraint on its content: the
   * name may be empty or padded, and the player counts need not be ordered.
   */
  datatype BoardGame = BoardGame(
    name: string,
    minPlayers: int,
    maxPlayers: int,
    id: Option<int> := None,
    designer: Option<string> := None,
    yearPublished: Option<int> := None,
    playTimeMin: Option<int> := None,
    complexity: Option<Float> := None,
    rating: Option<Float> := None)

  /** A row built from only its required columns has no id and no optional column set. */
  lemma RequiredColumnsOnly(name: string, minPlayers: int, maxPlayers: int)
    ensures var g := BoardGame(name, minPlayers, maxPlayers);
      && g.id == None && g.designer == None && g.yearPublished == None
      && g.playTimeMin == None && g.complexity == None && g.rating == None
  {
  }

  /** Nothing in the entity rules out an empty name or a minimum above the maximum. */
  lemma UnconstrainedRow()
    ensures BoardGame("", 5, 2).name == [] && BoardGame("", 5, 2).minPlayers > BoardGame("", 5, 2).maxPlayers
  {
  }
}
