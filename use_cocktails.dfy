/** The `useCocktails` hook: the custom-recipe list for the home screen and the search that
    merges custom matches with catalog results. */
module UseCocktails {
  import opened Wrappers
  import opened Types
  import Seqs
  import Text
  import Storage
  import Api

  const SearchFailedMessage := "Search failed. Please try again."

  /** A recipe matches when its lower-cased name contains the lower-cased query; the query is
      not trimmed. */
  function MatchesQuery(query: string): Cocktail -> bool {
    (c: Cocktail) => Text.Contains(Text.ToLower(c.name), Text.ToLower(query))
  }

  /** A match needs a name at least as long as the query; a name equal to the query up to case
      matches; the empty query matches every recipe. */
  lemma QueryMatching(query: string, c: Cocktail)
    ensures MatchesQuery(query)(c) ==> |query| <= |c.name|
    ensures Text.ToLower(c.name) == Text.ToLower(query) ==> MatchesQuery(query)(c)
    ensures query == "" ==> MatchesQuery(query)(c)
  {
  }

  /** `[...customResults, ...apiResults]`: every matching custom recipe, in stored order, then
      every catalog result, in catalog order, without deduplication. */
  function MergeResults(custom: seq<Cocktail>, query: string, api: seq<Cocktail>): (r: seq<Cocktail>)
    ensures |api| <= |r| <= |custom| + |api|
    ensures r[|r| - |api|..] == api
    ensures r[..|r| - |api|] == Seqs.Filter(custom, MatchesQuery(query))
    ensures forall c :: c in r[..|r| - |api|] <==> c in custom && MatchesQuery(query)(c)
  {
    var customResults := Seqs.Filter(custom, MatchesQuery(query));
    Seqs.FilterMembers(custom, MatchesQuery(query));
    var r := customResults + api;
    assert r[..|customResults|] == customResults && r[|customResults|..] == api;
    r
  }

  /** The scenario of a fresh store: after one recipe is added, a query its name matches
      lists that recipe first, before everything the catalog returns. */
  lemma NewRecipeLeadsSearch(d: Draft, timestamp: nat, query: string, api: seq<Cocktail>)
    requires Text.Contains(Text.ToLower(d.name), Text.ToLower(query))
    ensures var c := Storage.NewCustomCocktail(d, timestamp);
      MergeResults(Storage.GetCustomCocktails(Storage.Stored(Storage.GetCustomCocktails(Storage.Absent) + [c])), query, api)
        == [c] + api
  {
    var c := Storage.NewCustomCocktail(d, timestamp);
    assert Storage.GetCustomCocktails(Storage.Absent) + [c] == [c];
    Storage.RereadStored([c]);
    assert MatchesQuery(query)(c);
    assert Seqs.Filter([c], MatchesQuery(query)) == [c];
  }

  /** The state the hook exposes. */
  class Hook {
    var cocktails: seq<Cocktail>
    var loading: bool
    var searchQuery: string
    var searchResults: seq<Cocktail>
    var searchError: Option<string>

    constructor ()
      ensures cocktails == [] && !loading && searchQuery == ""
      ensures searchResults == [] && searchError == None
    {
      cocktails, loading, searchQuery := [], false, "";
      searchResults, searchError := [], None;
    }

    /** `fetchCustomCocktails` (also `refreshCocktails`): reloads the custom list. */
    method FetchCustomCocktails(store: Storage.CustomStore)
      modifies this`cocktails
      ensures cocktails == Storage.GetCustomCocktails(store.slot)
    {
      cocktails := Storage.GetCustomCocktails(store.slot);
    }

    method SetSearchQuery(query: string)
      modifies this`searchQuery
      ensures searchQuery == query
    {
      searchQuery := query;
    }

    /** The home screen's `displayData`: search results while the query is non-empty
        (untrimmed), the custom list otherwise. */
    function DisplayData(): seq<Cocktail>
      reads this`searchQuery, this`searchResults, this`cocktails
    {
      if searchQuery != "" then searchResults else cocktails
    }

    /** `performSearch` with `response` as the catalog's answer to the current query. A blank
        query clears the results and asks nothing; otherwise the error is cleared, the merged
        list replaces the results, or on a failure the old results stay and the error is set;
        loading ends false either way. */
    method PerformSearch(store: Storage.CustomStore, response: Api.Response)
      modifies this`loading, this`searchError, this`searchResults
      ensures Text.IsBlank(searchQuery) ==>
        searchResults == [] && loading == old(loading) && searchError == old(searchError)
      ensures !Text.IsBlank(searchQuery) ==> !loading
      ensures !Text.IsBlank(searchQuery) && response.Fail? ==>
        searchResults == old(searchResults) && searchError == Some(SearchFailedMessage)
      ensures !Text.IsBlank(searchQuery) && !response.Fail? ==>
        searchError == None
        && searchResults == MergeResults(Storage.GetCustomCocktails(store.slot), searchQuery, Api.SearchCocktails(response).value)
      ensures Text.IsBlank(searchQuery) && searchQuery != "" ==> DisplayData() == []
    {
      var blank := Text.Trim(searchQuery) == "";
      assert blank == Text.IsBlank(searchQuery);
      if blank {
        searchResults := [];
        assert searchQuery != "" ==> DisplayData() == searchResults;
        return;
      }
      loading := true;
      searchError := None;
      var apiResults := Api.SearchCocktails(response);
      if apiResults.Err? {
        searchError := Some(SearchFailedMessage);
      } else {
        var customCocktails := Storage.GetCustomCocktails(store.slot);
        searchResults := MergeResults(customCocktails, searchQuery, apiResults.value);
      }
      loading := false;
    }
  }
}
