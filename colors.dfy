/** The colors game: the shared category game with the colors editor's save rule. */
module Colors {
  import opened Wrappers
  import opened EditedData
  import opened Rounds

  /**
   * The save button of the colors editor. An array, or an object whose
   * `categories` is set, replaces the category data and a new round is loaded;
   * the category boxes are not re-rendered, so the round draws from the names
   * that were checked before the edit. Anything else changes nothing.
   */
  method SaveEditedData(g: CategoryGame, e: Edited<Category>, checked: seq<string>, parsedMax: Option<int>)
    returns (r: Result<seq<Category>, EditError>)
    requires g.Valid()
    modifies g, g.engine
    ensures r == AcceptCategories(e)
    ensures r.Failure? ==> unchanged(g) && unchanged(g.engine)
    ensures r.Success? ==> g.Valid() && g.categoriesData == r.value && g.RoundLoaded(checked, parsedMax)
  {
    r := AcceptCategories(e);
    if r.Success? {
      g.SetCategories(r.value);
      g.LoadRound(checked, parsedMax);
    }
  }
}
