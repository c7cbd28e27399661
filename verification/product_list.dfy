/** The home page's product list: pages of twenty products fetched per
    category, merged into one list as the visitor scrolls. */
module ProductList {
  import opened Values
  import opened Entities

  const PageSize := 20
  const LoadFailed := "Échec de récupération des produits"

  /** The body of a product-list response: a bare array, an object that may
      carry `items`, `results`, `next` and `total`, or nothing. */
  datatype Body =
    | ArrayBody(list: seq<Product>)
    | ObjectBody(items: Maybe<seq<Product>>, results: Maybe<seq<Product>>, next: Maybe<string>, total: Maybe<int>)
    | NoBody

  /** What the list holds: products, or a value that is not an array (an
      object body without `items` or `results` is stored as it came). */
  datatype Listing = Listed(products: seq<Product>) | Unlisted

  /** `data?.items || data?.results || data || []` (arrays are truthy even
      when empty). */
  function Normalize(data: Body): (r: Listing)
    ensures data.ArrayBody? ==> r == Listed(data.list)
    ensures data.NoBody? ==> r == Listed([])
    ensures data.ObjectBody? && data.items.Some? ==> r == Listed(data.items.value)
    ensures data.ObjectBody? && data.items.Null? && data.results.Some? ==> r == Listed(data.results.value)
    ensures r.Unlisted? <==> data.ObjectBody? && data.items.Null? && data.results.Null?
  {
    match data
    case NoBody => Listed([])
    case ArrayBody(list) => Listed(list)
    case ObjectBody(items, results, _, _) =>
      if items.Some? then Listed(items.value)
      else if results.Some? then Listed(results.value)
      else Unlisted
  }

  /** `productList.length === 20`. */
  predicate FullPage(l: Listing) {
    l.Listed? && |l.products| == PageSize
  }

  /** The `hasMore` rule: a truthy `next`, or a truthy `total` beyond the
      products the requested pages cover, or a full page. */
  function HasMore(data: Body, page: real): (r: bool)
    ensures FullPage(Normalize(data)) ==> r
    ensures data.ObjectBody? && Truthy(data.next) ==> r
    ensures data.ObjectBody? && TruthyNumber(data.total) && page * (PageSize as real) < data.total.value as real ==> r
    ensures r ==> FullPage(Normalize(data))
                  || (data.ObjectBody? && (Truthy(data.next)
                        || (TruthyNumber(data.total) && page * (PageSize as real) < data.total.value as real)))
  {
    (data.ObjectBody? && Truthy(data.next))
    || (data.ObjectBody? && TruthyNumber(data.total) && page * (PageSize as real) < data.total.value as real)
    || FullPage(Normalize(data))
  }

  /** A bare array says there is more exactly when it is a full page. */
  lemma ArrayHasMoreIffFull(list: seq<Product>, page: real)
    ensures HasMore(ArrayBody(list), page) <==> |list| == PageSize
  {
  }

  /** The query of `getProductList`: `category_id` only for a truthy category. */
  datatype Request = Request(page: real, pageSize: int, categoryId: Maybe<int>)

  function ListRequest(page: real, categoryId: Maybe<int>): (r: Request)
    ensures r.page == page && r.pageSize == PageSize
    ensures r.categoryId.Some? <==> TruthyNumber(categoryId)
    ensures r.categoryId.Some? ==> r.categoryId == categoryId
  {
    Request(page, PageSize, if TruthyNumber(categoryId) then categoryId else Null)
  }

  datatype ListState = ListState(
    products: Listing,
    loading: bool,
    initialLoading: bool,
    error: Maybe<string>,
    hasMore: bool)

  /** The state the component mounts with. */
  const Initial := ListState(Listed([]), false, true, Null, true)

  /** The start of `loadProducts`: the first page shows the skeleton, later
      pages the spinner. */
  function Begin(s: ListState, page: real): (r: ListState)
    ensures page == 1.0 ==> r == s.(initialLoading := true)
    ensures page != 1.0 ==> r == s.(loading := true)
  {
    if page == 1.0 then s.(initialLoading := true) else s.(loading := true)
  }

  /** Replacing or appending a page: page 1 and a new category replace the
      list; otherwise the page goes after the products already listed (an
      array cannot be spread together with a non-array). */
  function Merge(prev: Listing, page: Listing, replace: bool): (r: Listing)
    ensures replace ==> r == page
    ensures !replace && prev.Listed? && page.Listed? ==> r == Listed(prev.products + page.products)
    ensures !replace && (prev.Unlisted? || page.Unlisted?) ==> r.Unlisted?
  {
    if replace then page
    else if prev.Listed? && page.Listed? then Listed(prev.products + page.products)
    else Unlisted
  }

  /** Appending keeps the products already listed, in order, in front. */
  lemma AppendKeepsPrefix(prev: seq<Product>, page: seq<Product>)
    ensures var r := Merge(Listed(prev), Listed(page), false);
            r.Listed? && |r.products| == |prev| + |page|
            && r.products[..|prev|] == prev && r.products[|prev|..] == page
  {
  }

  /** How `getProductList` came back. */
  datatype Outcome = Answered(data: Body) | Threw

  /** The end of `loadProducts(page, isNewCategory)`: on an answer the list is
      merged and `hasMore` recomputed; on an error the message is set and the
      list kept; either way both loading flags are cleared. */
  function Finish(s: ListState, page: real, isNewCategory: bool, outcome: Outcome): (r: ListState)
    ensures !r.loading && !r.initialLoading
    ensures outcome.Threw? ==> r == s.(error := Some(LoadFailed), loading := false, initialLoading := false)
    ensures outcome.Answered? ==>
              && r.products == Merge(s.products, Normalize(outcome.data), isNewCategory || page == 1.0)
              && r.hasMore == HasMore(outcome.data, page)
              && r.error == s.error
  {
    match outcome
    case Threw => s.(error := Some(LoadFailed), loading := false, initialLoading := false)
    case Answered(data) =>
      var list := Normalize(data);
      s.(products := Merge(s.products, list, isNewCategory || page == 1.0),
         hasMore := HasMore(data, page),
         loading := false, initialLoading := false)
  }

  /** The category effect: the list is emptied, `hasMore` set and the error
      cleared before page 1 of the new category is requested. */
  function ResetForCategory(s: ListState): (r: ListState)
    ensures r.products == Listed([]) && r.hasMore && r.error.Null?
    ensures r.loading == s.loading && r.initialLoading == s.initialLoading
  {
    s.(products := Listed([]), hasMore := true, error := Null)
  }

  /** Switching category and loading its first page shows exactly that page,
      whatever was listed before, and any earlier error is gone. */
  lemma CategorySwitchShowsFirstPage(s: ListState, list: seq<Product>)
    ensures var r := Finish(Begin(ResetForCategory(s), 1.0), 1.0, true, Answered(ArrayBody(list)));
            r.products == Listed(list) && r.error.Null? && !r.loading && !r.initialLoading
            && (r.hasMore <==> |list| == PageSize)
  {
  }

  /** An object body lists exactly its `items`, whatever `results` holds;
      only without `items` does it list `results`, and either wrapping shows
      the same products as the bare array. */
  lemma WrappedPageListsItems(s: ListState, list: seq<Product>, results: Maybe<seq<Product>>,
                              next: Maybe<string>, total: Maybe<int>)
    ensures var bare := Finish(Begin(s, 1.0), 1.0, false, Answered(ArrayBody(list)));
            && Finish(Begin(s, 1.0), 1.0, false, Answered(ObjectBody(Some(list), results, next, total))).products
               == bare.products == Listed(list)
            && Finish(Begin(s, 1.0), 1.0, false, Answered(ObjectBody(Null, Some(list), next, total))).products
               == bare.products
  {
  }

  /** The page the scroll observer asks for: `products.length / 20 + 1`, a
      JavaScript number and so not always whole. */
  function NextPage(count: nat): (r: real)
    ensures r >= 1.0
    ensures count % PageSize == 0 ==> r == (count / PageSize + 1) as real
    ensures count % PageSize != 0 ==> r != r.Floor as real
  {
    PageBetween(count);
    (count as real) / (PageSize as real) + 1.0
  }

  /** Where `count / 20 + 1` lies between the whole page numbers. */
  lemma PageBetween(count: nat)
    ensures var r := (count as real) / (PageSize as real) + 1.0;
            && (count % PageSize == 0 ==> r == (count / PageSize + 1) as real)
            && (count % PageSize != 0 ==> (count / PageSize + 1) as real < r < (count / PageSize + 2) as real)
  {
    var q := count / PageSize;
    assert count == q * PageSize + count % PageSize;
    assert (count as real) / (PageSize as real) == q as real + ((count % PageSize) as real) / (PageSize as real);
  }

  /** The observer watches the last product card, so it exists only when the
      product grid is on screen: not under the first-page skeleton, not for an
      empty list (the error or empty state replaces the grid) and not for a
      value that is not an array (the grid cannot be drawn). It loads the next
      page only while there is more and nothing is loading. */
  predicate GridShown(s: ListState) {
    !s.initialLoading && s.products.Listed? && |s.products.products| > 0
  }

  function ScrollRequest(s: ListState): (r: Maybe<real>)
    ensures r.Some? <==> GridShown(s) && s.hasMore && !s.loading
    ensures r.Some? ==> r.value == NextPage(|s.products.products|)
  {
    if GridShown(s) && s.hasMore && !s.loading then Some(NextPage(|s.products.products|)) else Null
  }

  /** An empty first page never asks for more, whatever the response says
      about further pages: the empty state has no last card to observe. */
  lemma EmptyListNeverScrolls(s: ListState, data: Body)
    requires Normalize(data) == Listed([])
    ensures ScrollRequest(Finish(Begin(s, 1.0), 1.0, true, Answered(data))).Null?
  {
  }

  /** Full pages lead to the next whole page: after `k` full pages of an array
      response the observer asks for page `k + 1`. */
  lemma {:induction false} FullPagesAdvance(s: ListState, pages: seq<seq<Product>>)
    requires |pages| >= 1
    requires forall i :: 0 <= i < |pages| ==> |pages[i]| == PageSize
    ensures var r := LoadPages(s, pages);
            ScrollRequest(r) == Some((|pages| + 1) as real)
            && r.products.Listed? && |r.products.products| == PageSize * |pages|
    decreases |pages|
  {
    if |pages| == 1 {
      var r := LoadPages(s, pages);
      assert r == Finish(Begin(s, 1.0), 1.0, false, Answered(ArrayBody(pages[0])));
    } else {
      var init := pages[..|pages| - 1];
      FullPagesAdvance(s, init);
      var r0 := LoadPages(s, init);
      assert |r0.products.products| == PageSize * |init|;
      var page := NextPage(|r0.products.products|);
      assert page == |pages| as real;
    }
  }

  /** The query the observer sends after `k` full pages asks for page `k + 1`
      of twenty products, filtered by the category only when it is truthy. */
  lemma ScrollQueryAfterFullPages(s: ListState, pages: seq<seq<Product>>, categoryId: Maybe<int>)
    requires |pages| >= 1
    requires forall i :: 0 <= i < |pages| ==> |pages[i]| == PageSize
    ensures ScrollRequest(LoadPages(s, pages)).Some?
    ensures var q := ListRequest(ScrollRequest(LoadPages(s, pages)).value, categoryId);
            && q.page == (|pages| + 1) as real && q.pageSize == 20
            && (categoryId == Some(0) ==> q == ListRequest(q.page, Null))
            && (TruthyNumber(categoryId) ==> q.categoryId == categoryId)
  {
    FullPagesAdvance(s, pages);
  }

  /** Loads page 1 and then, page after page, what the observer asks for. */
  function LoadPages(s: ListState, pages: seq<seq<Product>>): ListState
    requires |pages| >= 1
    decreases |pages|
  {
    if |pages| == 1 then Finish(Begin(s, 1.0), 1.0, false, Answered(ArrayBody(pages[0])))
    else
      var prev := LoadPages(s, pages[..|pages| - 1]);
      var page := if prev.products.Listed? then NextPage(|prev.products.products|) else 1.0;
      Finish(Begin(prev, page), page, false, Answered(ArrayBody(pages[|pages| - 1])))
  }

  /** A short page followed by a response that still says there is more makes
      the next request a fractional page number. */
  lemma ShortPageGivesFractionalNext(s: ListState, first: seq<Product>, next: string)
    requires |first| == 7 && next != ""
    ensures var r := Finish(Begin(s, 1.0), 1.0, true, Answered(ObjectBody(Some(first), Null, Some(next), Null)));
            ScrollRequest(r) == Some(1.35)
  {
  }
}
