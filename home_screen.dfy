/** The home screen: the grid it renders from the `useCocktails` state, and what a failed search
    leaves on screen. */
module HomeScreen {
  import opened Wrappers
  import Text
  import Storage
  import Api
  import UseCocktails
  import CocktailGrid

  const CustomTitle := "Custom Cocktails"
  const ResultsPrefix := "Search Results for \""

  /** The grid's title: the query, quoted, while the untrimmed query is non-empty; the custom
      list's title otherwise. The query reads back from between the quotes. */
  function Title(query: string): (t: string)
    ensures query == "" ==> t == CustomTitle
    ensures query != "" ==>
      |t| == |ResultsPrefix| + |query| + 1 && Text.StartsWith(t, ResultsPrefix)
      && t[|ResultsPrefix|..|t| - 1] == query && t[|t| - 1] == '"'
  {
    if query != "" then
      var t := ResultsPrefix + query + "\"";
      assert t[|ResultsPrefix|..|t| - 1] == query;
      t
    else CustomTitle
  }

  /** The grid as the home screen renders it on page `page`: the hook's display list, its
      loading flag and its search error. A search error outranks whatever list is handed down;
      cards carry the current page of that list under the title. */
  function View(h: UseCocktails.Hook, page: int): (v: CocktailGrid.View)
    reads h
    ensures !h.loading && h.searchError.Some? && h.searchError.value != "" ==>
      v == CocktailGrid.ErrorText(h.searchError.value)
    ensures v.Cards? ==>
      v.items == CocktailGrid.PageItems(h.DisplayData(), page) && v.heading == Some(Title(h.searchQuery))
  {
    CocktailGrid.Render(h.DisplayData(), h.loading, h.searchError, Some(Title(h.searchQuery)), page)
  }

  /** Within one mounted hook, a failed search hides the list behind its message, and clearing
      the query does not bring the list back: the blank-query search empties the results but
      never resets the error. The hook then hands the custom list to the grid, and the grid still
      shows the message. */
  method FailedSearchOutlastsClearing(h: UseCocktails.Hook, store: Storage.CustomStore, query: string,
                                      message: string, page: int)
    requires !Text.IsBlank(query)
    modifies h
    ensures h.searchQuery == "" && h.DisplayData() == h.cocktails && h.cocktails == old(h.cocktails)
    ensures View(h, page) == CocktailGrid.ErrorText(UseCocktails.SearchFailedMessage)
  {
    h.SetSearchQuery(query);
    h.PerformSearch(store, Api.Fail(message));
    assert View(h, page) == CocktailGrid.ErrorText(UseCocktails.SearchFailedMessage);
    h.SetSearchQuery("");
    h.PerformSearch(store, Api.Fail(message));
  }

  /** Leaving the home screen and opening it again mounts a new hook: it starts with no search
      error and an empty query. Its mount effects run in order: the search, which returns early
      on the empty query, then the read of the store. The grid then shows the custom list,
      whatever an earlier hook's search left behind. */
  method Remount(store: Storage.CustomStore, response: Api.Response, page: int) returns (h: UseCocktails.Hook)
    ensures h.searchError == None && h.searchQuery == ""
    ensures h.DisplayData() == Storage.GetCustomCocktails(store.slot)
    ensures View(h, page) == CocktailGrid.Render(Storage.GetCustomCocktails(store.slot), false, None,
                                                 Some(CustomTitle), page)
  {
    h := new UseCocktails.Hook();
    h.PerformSearch(store, response);
    h.FetchCustomCocktails(store);
  }
}
