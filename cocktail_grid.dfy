/** The paginated grid of recipe cards: page arithmetic, the page state and the render branches. */
module CocktailGrid {
  import opened Wrappers
  import opened Types
  import Seqs

  const EmptyListMessage := "Search for cocktails or add some."
  const DefaultTitle := "Cocktails"

  /** `Math.ceil(length / PAGE_SIZE)`: the fewest pages of `PageSize` that hold `length` items. */
  function TotalPages(length: nat): (t: nat)
    ensures length <= t * PageSize
    ensures t > 0 ==> (t - 1) * PageSize < length
    ensures t == 0 <==> length == 0
  {
    (length + PageSize - 1) / PageSize
  }

  /** `startIndex` of a page. */
  function StartIndex(page: int): int {
    (page - 1) * PageSize
  }

  /** `displayedCocktails`: the slice of the list from the page's start index, `PageSize` long.
      Pages from 1 to `TotalPages` are the non-empty contiguous runs of the list; later pages are
      empty. */
  function PageItems<T>(s: seq<T>, page: int): (r: seq<T>)
    ensures |r| <= PageSize
    ensures 1 <= page <= TotalPages(|s|) ==>
      0 <= StartIndex(page) < |s| && r != []
      && r == s[StartIndex(page)..if StartIndex(page) + PageSize <= |s| then StartIndex(page) + PageSize else |s|]
    ensures 1 <= page && TotalPages(|s|) < page ==> r == []
  {
    var startIndex := StartIndex(page);
    Seqs.Slice(s, startIndex, startIndex + PageSize)
  }

  /** Pages 1 to `k` one after the other. */
  function PagesUpTo<T>(s: seq<T>, k: nat): seq<T> {
    if k == 0 then [] else PagesUpTo(s, k - 1) + PageItems(s, k)
  }

  /** The first `k` pages are the first `k * PageSize` items, or the whole list when it is
      shorter. */
  lemma {:induction false} PagesUpToIsPrefix<T>(s: seq<T>, k: nat)
    ensures PagesUpTo(s, k) == s[..if k * PageSize <= |s| then k * PageSize else |s|]
  {
    if k > 0 {
      PagesUpToIsPrefix(s, k - 1);
      var start, end := (k - 1) * PageSize, k * PageSize;
      assert start + PageSize == end;
      var a := if start <= |s| then start else |s|;
      var b := if end <= |s| then end else |s|;
      assert PageItems(s, k) == Seqs.Slice(s, start, end) == s[a..b];
      assert s[..a] + s[a..b] == s[..b];
    }
  }

  /** Pages 1 to `TotalPages` put together are the whole list. */
  lemma AllPagesAreTheList<T>(s: seq<T>)
    ensures PagesUpTo(s, TotalPages(|s|)) == s
  {
    var t := TotalPages(|s|);
    PagesUpToIsPrefix(s, t);
    if t * PageSize <= |s| {
      assert t * PageSize == |s|;
    }
    assert s[..|s|] == s;
  }

  /** The pagination control appears exactly when the list is longer than one page. */
  lemma PagerIffMoreThanOnePage(length: nat)
    ensures TotalPages(length) > 1 <==> length > PageSize
  {
  }

  /** The heading: an omitted title defaults to "Cocktails"; an empty one is not shown. */
  function Heading(title: Option<string>): (h: Option<string>)
    ensures title.None? ==> h == Some(DefaultTitle)
    ensures title.Some? ==> (h.Some? <==> title.value != "") && (h.Some? ==> h.value == title.value)
  {
    match title
    case None => Some(DefaultTitle)
    case Some(t) => if t != "" then Some(t) else None
  }

  datatype Pager = Pager(count: nat, page: int)

  /** What the grid renders. */
  datatype View =
    | Spinner
    | ErrorText(message: string)
    | EmptyText(message: string)
    | Cards(heading: Option<string>, items: seq<Cocktail>, pager: Option<Pager>)

  /** The render branches in priority order: loading, then a (non-empty) error, then the empty
      message, then the current page of cards with a pager when there is more than one page. */
  function Render(cocktails: seq<Cocktail>, loading: bool, error: Option<string>, title: Option<string>, page: int): (v: View)
    ensures loading <==> v.Spinner?
    ensures v.ErrorText? <==> !loading && error.Some? && error.value != ""
    ensures v.ErrorText? ==> v.message == error.value
    ensures v.EmptyText? <==> !loading && (error.None? || error.value == "") && cocktails == []
    ensures v.Cards? ==> cocktails != [] && v.items == PageItems(cocktails, page) && v.heading == Heading(title)
    ensures v.Cards? ==> (v.pager.Some? <==> |cocktails| > PageSize)
    ensures v.Cards? && v.pager.Some? ==> v.pager.value == Pager(TotalPages(|cocktails|), page)
  {
    var totalPages := TotalPages(|cocktails|);
    PagerIffMoreThanOnePage(|cocktails|);
    if loading then Spinner
    else if error.Some? && error.value != "" then ErrorText(error.value)
    else if |cocktails| == 0 then EmptyText(EmptyListMessage)
    else Cards(Heading(title), PageItems(cocktails, page), if totalPages > 1 then Some(Pager(totalPages, page)) else None)
  }

  /** The grid's page state for one list of recipes. */
  class Grid {
    var cocktails: seq<Cocktail>
    var page: int

    constructor (cocktails: seq<Cocktail>)
      ensures this.cocktails == cocktails && page == 1
    {
      this.cocktails := cocktails;
      page := 1;
    }

    /** The parent passes a new list: the reset effect puts the grid back on page 1. */
    method Receive(next: seq<Cocktail>)
      modifies this
      ensures cocktails == next && page == 1
    {
      cocktails := next;
      page := 1;
    }

    /** `handlePageChange`: the pager's chosen page. */
    method HandlePageChange(value: int)
      modifies this`page
      ensures page == value
    {
      page := value;
    }

    function View(loading: bool, error: Option<string>, title: Option<string>): View
      reads this
    {
      Render(cocktails, loading, error, title, page)
    }
  }

  /** Right after a new list arrives, a grid that is neither loading nor failing shows the
      list's first `PageSize` items. */
  lemma FreshListShowsFirstPage(cocktails: seq<Cocktail>, title: Option<string>)
    requires cocktails != []
    ensures var v := Render(cocktails, false, None, title, 1);
      v.Cards? && v.items == cocktails[..if |cocktails| < PageSize then |cocktails| else PageSize]
  {
  }
}
