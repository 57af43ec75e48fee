/** The icons game: the shared category game with the icons editor's save rule. */
module Icons {
  import opened Wrappers
  import opened EditedData
  import opened Rounds

  /**
   * The save button of the icons editor. The acceptance rule is the colors one,
   * but the category boxes are re-rendered, all checked, before the new round
   * is loaded, so it draws from every category of the new data.
   */
  method SaveEditedData(g: CategoryGame, e: Edited<Category>, parsedMax: Option<int>)
    returns (r: Result<seq<Category>, EditError>)
    requires g.Valid()
    modifies g, g.engine
    ensures r == AcceptCategories(e)
    ensures r.Failure? ==> unchanged(g) && unchanged(g.engine)
    ensures r.Success? ==> g.Valid() && g.categoriesData == r.value && g.RoundLoaded(Names(r.value), parsedMax)
  {
    r := AcceptCategories(e);
    if r.Success? {
      g.SetCategories(r.value);
      g.LoadRound(Names(r.value), parsedMax);
    }
  }
}
