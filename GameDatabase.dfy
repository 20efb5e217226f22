/**
 * GameDatabase: the catalogue of games and categories, searched by name (first match wins) with the
 * one first-match search of Lists over the projected names.
 * Sprites, colours and the category reference of a game are not modelled.
 */
module GameDatabase {
  import opened Wrappers
  import Lists

  /** Definitions are assets with an identity of their own besides the name. */
  datatype GameDefinition = GameDefinition(asset: nat, gameName: string)
  datatype CategoryDefinition = CategoryDefinition(asset: nat, categoryName: string)

  datatype GameDatabase = GameDatabase(games: seq<GameDefinition>, categories: seq<CategoryDefinition>) {

    /** The first game with that name, or None (FirstOrDefault's null). */
    function GetGame(gameName: string): (r: Option<GameDefinition>)
      ensures r.None? <==> forall k :: 0 <= k < |games| ==> games[k].gameName != gameName
      ensures r.Some? ==> exists k :: (0 <= k < |games| && games[k] == r.value && r.value.gameName == gameName
                                       && forall j :: 0 <= j < k ==> games[j].gameName != gameName)
    {
      var i := Lists.IndexFrom(Lists.Project(games, (g: GameDefinition) => g.gameName), gameName, 0);
      if i < 0 then None else Some(games[i])
    }

    /** The first category with that name, or None. */
    function GetCategory(categoryName: string): (r: Option<CategoryDefinition>)
      ensures r.None? <==> forall k :: 0 <= k < |categories| ==> categories[k].categoryName != categoryName
      ensures r.Some? ==> exists k :: (0 <= k < |categories| && categories[k] == r.value && r.value.categoryName == categoryName
                                       && forall j :: 0 <= j < k ==> categories[j].categoryName != categoryName)
    {
      var i := Lists.IndexFrom(Lists.Project(categories, (c: CategoryDefinition) => c.categoryName), categoryName, 0);
      if i < 0 then None else Some(categories[i])
    }
  }

  /** A later game with the same name as an earlier one is never found, unless it is listed earlier too. */
  lemma LaterGameShadowed(db: GameDatabase, i: nat, j: nat)
    requires i < j < |db.games| && db.games[i].gameName == db.games[j].gameName && db.games[j] !in db.games[..j]
    ensures db.GetGame(db.games[j].gameName) != Some(db.games[j])
  {
    var k := Lists.IndexFrom(Lists.Project(db.games, (g: GameDefinition) => g.gameName), db.games[j].gameName, 0);
    assert 0 <= k <= i;
    assert db.games[k] in db.games[..j];
  }
}
