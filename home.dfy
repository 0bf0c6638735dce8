/** The shop front (`pages/Home.tsx`): the combined search and category filter,
    page slicing, and the page state that the handlers and the filter effect update. */
module Home {
  import opened Wrappers
  import opened Seqs
  import opened Catalog
  import opened ProductService

  /** The category selection that means "no category filter"; also the initial selection. */
  const AllCategories := "All"

  /** The filter effect: search first, then keep the products in the selected category. */
  function FilterProducts(ps: seq<Product>, query: string, selected: string): (r: seq<Product>)
    ensures selected == AllCategories ==> r == SearchProducts(ps, query)
    ensures selected != AllCategories ==>
      forall k :: 0 <= k < |r| ==> r[k] in SearchProducts(ps, query) && selected in r[k].categorias
    ensures selected != AllCategories ==>
      forall k :: 0 <= k < |SearchProducts(ps, query)| && selected in SearchProducts(ps, query)[k].categorias
        ==> SearchProducts(ps, query)[k] in r
  {
    var result := SearchProducts(ps, query);
    if selected != AllCategories then Filter((p: Product) => selected in p.categorias, result)
    else result
  }

  /** The filtered list keeps the order of the product list. */
  lemma FilterProductsIsSubsequence(ps: seq<Product>, query: string, selected: string)
    ensures IsSubsequence(FilterProducts(ps, query, selected), ps)
  {
    var result := SearchProducts(ps, query);
    SearchIsSubsequence(ps, query);
    if selected != AllCategories {
      FilterIsSubsequence((p: Product) => selected in p.categorias, result);
      SubsequenceTrans(FilterProducts(ps, query, selected), result, ps);
    }
  }

  /** With no query and no category selected, every product is shown. */
  lemma FilterProductsIdentity(ps: seq<Product>)
    ensures FilterProducts(ps, [], AllCategories) == ps
  {
  }

  // ---------------------------------------------------------------------------
  // Pagination

  function Min(a: int, b: int): int { if a <= b then a else b }

  /** How `Array.prototype.slice` reads an index: negative counts from the end, then clipped to `[0, len]`. */
  function SliceIndex(i: int, len: nat): (k: nat)
    ensures k <= len
    ensures 0 <= i ==> k == Min(i, len)
  {
    if i < 0 then (if len + i < 0 then 0 else len + i)
    else if i > len then len
    else i
  }

  /** `s.slice(start, end)`. */
  function Slice<T>(s: seq<T>, start: int, end: int): seq<T> {
    var b := SliceIndex(start, |s|);
    var e := SliceIndex(end, |s|);
    if b < e then s[b..e] else []
  }

  /** `currentItems`: the slice from `indexOfFirstItem` to `indexOfLastItem`. */
  function PageItems<T>(s: seq<T>, currentPage: int, itemsPerPage: int): seq<T> {
    var indexOfLastItem := currentPage * itemsPerPage;
    var indexOfFirstItem := indexOfLastItem - itemsPerPage;
    Slice(s, indexOfFirstItem, indexOfLastItem)
  }

  /** `totalPages = Math.ceil(n / itemsPerPage)`, on integers. */
  function PageCount(n: nat, itemsPerPage: int): nat
    requires itemsPerPage >= 1
  {
    (n + itemsPerPage - 1) / itemsPerPage
  }

  /** The page count is the least number of pages of `itemsPerPage` items that hold `n` items. */
  lemma PageCountSpec(n: nat, itemsPerPage: int)
    requires itemsPerPage >= 1
    ensures var t := PageCount(n, itemsPerPage);
      && n <= t * itemsPerPage
      && (t == 0 || (t - 1) * itemsPerPage < n)
      && (t == 0 <==> n == 0)
  {
    var t := PageCount(n, itemsPerPage);
    assert t * itemsPerPage <= n + itemsPerPage - 1 < (t + 1) * itemsPerPage;
  }

  lemma MulMonotonic(a: int, b: int, c: int)
    requires 0 <= a <= b && 0 <= c
    ensures a * c <= b * c
  {
  }

  /** Page `page` (from 1) is the block `[(page-1)*size, page*size)` of the list, clipped to its length. */
  lemma PageItemsSlice<T>(s: seq<T>, page: int, size: int)
    requires page >= 1 && size >= 1
    ensures (page - 1) * size <= page * size
    ensures PageItems(s, page, size) == s[Min((page - 1) * size, |s|)..Min(page * size, |s|)]
  {
    assert page * size - size == (page - 1) * size;
    assert 0 <= (page - 1) * size;
  }

  /** A page never holds more than `size` items. */
  lemma PageItemsLength<T>(s: seq<T>, page: int, size: int)
    requires page >= 1 && size >= 1
    ensures |PageItems(s, page, size)| <= size
  {
    PageItemsSlice(s, page, size);
  }

  /** A page past the last one is empty. */
  lemma PageItemsPastEnd<T>(s: seq<T>, page: int, size: int)
    requires size >= 1 && page > PageCount(|s|, size)
    ensures PageItems(s, page, size) == []
  {
    var t := PageCount(|s|, size);
    PageCountSpec(|s|, size);
    PageItemsSlice(s, page, size);
    MulMonotonic(t, page - 1, size);
  }

  /** Every page from 1 to the page count holds at least one item. */
  lemma PageItemsNonEmpty<T>(s: seq<T>, page: int, size: int)
    requires size >= 1 && 1 <= page <= PageCount(|s|, size)
    ensures PageItems(s, page, size) != []
  {
    var t := PageCount(|s|, size);
    PageCountSpec(|s|, size);
    PageItemsSlice(s, page, size);
    MulMonotonic(page - 1, t - 1, size);
    assert (page - 1) * size < |s|;
    assert (page - 1) * size + size == page * size;
  }

  /** Pages 1 to `k`, one after the other. */
  function Pages<T>(s: seq<T>, size: int, k: nat): seq<T> {
    if k == 0 then [] else Pages(s, size, k - 1) + PageItems(s, k, size)
  }

  /** Pages 1 to `k` together are the first `k*size` items of the list (or all of them). */
  lemma {:induction false} PagesPrefix<T>(s: seq<T>, size: int, k: nat)
    requires size >= 1
    ensures 0 <= k * size
    ensures Pages(s, size, k) == s[..Min(k * size, |s|)]
  {
    if k > 0 {
      PagesPrefix(s, size, k - 1);
      PageItemsSlice(s, k, size);
      var a := Min((k - 1) * size, |s|);
      var b := Min(k * size, |s|);
      assert a <= b;
      assert s[..a] + s[a..b] == s[..b];
    }
  }

  /** Concatenating pages 1 to `totalPages` gives back the whole list. */
  lemma PagesCoverList<T>(s: seq<T>, size: int)
    requires size >= 1
    ensures Pages(s, size, PageCount(|s|, size)) == s
  {
    var t := PageCount(|s|, size);
    PageCountSpec(|s|, size);
    PagesPrefix(s, size, t);
    assert s[..|s|] == s;
  }

  /** Thirty products at ten per page: three pages, the third holding items 21 to 30. */
  lemma ThirtyProductsThirdPage<T>(s: seq<T>)
    requires |s| == 30
    ensures PageCount(|s|, 10) == 3
    ensures PageItems(s, 3, 10) == s[20..30]
  {
  }

  /** The page sizes the selector offers. */
  predicate IsPageSize(n: int) {
    n == 10 || n == 20 || n == 50
  }

  // ---------------------------------------------------------------------------
  // The page state

  class HomePage {
    /** The browser store behind the service calls. */
    const store: Store
    var products: seq<Product>
    var filteredProducts: seq<Product>
    var categories: seq<Category>
    var selectedCategory: string
    var searchQuery: string
    var currentPage: int
    var itemsPerPage: int
    var selectedProduct: Option<Product>
    var loading: bool

    /** The page size is one the selector offers, the filtered list is what the filter
        effect computes, and the current page lies between 1 and the last page (1 when there are none). */
    ghost predicate Valid()
      reads this, store
    {
      && store.Valid()
      && IsPageSize(itemsPerPage)
      && filteredProducts == FilterProducts(products, searchQuery, selectedCategory)
      && 1 <= currentPage
      && currentPage <= LastPage()
    }

    /** The highest page the state may be on: the last page, or 1 when there are no pages. */
    function LastPage(): (n: nat)
      reads this
      requires itemsPerPage >= 1
      ensures n >= 1
    {
      if TotalPages() == 0 then 1 else TotalPages()
    }

    /** `totalPages`. */
    function TotalPages(): nat
      reads this
      requires itemsPerPage >= 1
    {
      PageCount(|filteredProducts|, itemsPerPage)
    }

    /** `currentItems`. */
    function CurrentItems(): seq<Product>
      reads this
    {
      PageItems(filteredProducts, currentPage, itemsPerPage)
    }

    /** The paging controls are rendered only when there is more than one page. */
    predicate ShowsPagination()
      reads this
      requires itemsPerPage >= 1
    {
      TotalPages() > 1
    }

    /** The state on mount, after the filter effect has run once on the empty list. */
    constructor (s: Store)
      requires s.Valid()
      ensures Valid() && store == s
      ensures products == [] && filteredProducts == [] && categories == []
      ensures selectedCategory == AllCategories && searchQuery == []
      ensures currentPage == 1 && itemsPerPage == 10
      ensures selectedProduct == None && loading
    {
      store := s;
      products := [];
      filteredProducts := [];
      categories := [];
      selectedCategory := AllCategories;
      searchQuery := [];
      currentPage := 1;
      itemsPerPage := 10;
      selectedProduct := None;
      loading := true;
    }

    /** The effect on `[searchQuery, selectedCategory, products]`: recompute the filtered list and go back to page 1. */
    method ApplyFilters()
      requires store.Valid() && IsPageSize(itemsPerPage)
      modifies this
      ensures Valid()
      ensures filteredProducts == FilterProducts(products, searchQuery, selectedCategory)
      ensures currentPage == 1
      ensures products == old(products) && categories == old(categories)
      ensures selectedCategory == old(selectedCategory) && searchQuery == old(searchQuery)
      ensures itemsPerPage == old(itemsPerPage) && selectedProduct == old(selectedProduct) && loading == old(loading)
    {
      filteredProducts := FilterProducts(products, searchQuery, selectedCategory);
      currentPage := 1;
    }

    /** The body of `loadData`: the listed products and the categories from the store. */
    method FetchData()
      requires store.Valid()
      modifies this`products, this`filteredProducts, this`categories, this`loading, store
      ensures store.Valid()
      ensures products == Listed(old(store.StoredProducts())) && filteredProducts == products
      ensures categories == old(store.StoredCategories()) && !loading
      ensures store.StoredProducts() == old(store.StoredProducts())
      ensures store.StoredCategories() == old(store.StoredCategories())
    {
      loading := true;
      var prodData := store.GetActiveProducts();
      var catData := store.GetCategories();
      products := prodData;
      filteredProducts := prodData;
      categories := catData;
      loading := false;
    }

    /** `loadData` on mount; the new product list then triggers the filter effect. */
    method LoadData()
      requires Valid()
      modifies this, store
      ensures Valid()
      ensures products == Listed(old(store.StoredProducts()))
      ensures categories == old(store.StoredCategories())
      ensures store.StoredProducts() == old(store.StoredProducts())
      ensures store.StoredCategories() == old(store.StoredCategories())
      ensures filteredProducts == FilterProducts(products, searchQuery, selectedCategory)
      ensures currentPage == 1 && !loading
      ensures selectedCategory == old(selectedCategory) && searchQuery == old(searchQuery)
      ensures itemsPerPage == old(itemsPerPage) && selectedProduct == old(selectedProduct)
    {
      FetchData();
      ApplyFilters();
    }

    /** `handleSearch`: a new query re-runs the filter and resets the page; the same query changes nothing. */
    method HandleSearch(query: string)
      requires Valid()
      modifies this
      ensures Valid()
      ensures searchQuery == query
      ensures query != old(searchQuery) ==> currentPage == 1
      ensures query == old(searchQuery) ==> currentPage == old(currentPage)
      ensures filteredProducts == FilterProducts(products, query, selectedCategory)
      ensures products == old(products) && categories == old(categories)
      ensures selectedCategory == old(selectedCategory) && itemsPerPage == old(itemsPerPage)
      ensures selectedProduct == old(selectedProduct) && loading == old(loading)
    {
      if query != searchQuery {
        searchQuery := query;
        ApplyFilters();
      }
    }

    /** `handleCategoryClick`: a new selection re-runs the filter and resets the page. */
    method HandleCategoryClick(catName: string)
      requires Valid()
      modifies this
      ensures Valid()
      ensures selectedCategory == catName
      ensures catName != old(selectedCategory) ==> currentPage == 1
      ensures catName == old(selectedCategory) ==> currentPage == old(currentPage)
      ensures filteredProducts == FilterProducts(products, searchQuery, catName)
      ensures products == old(products) && categories == old(categories)
      ensures searchQuery == old(searchQuery) && itemsPerPage == old(itemsPerPage)
      ensures selectedProduct == old(selectedProduct) && loading == old(loading)
    {
      if catName != selectedCategory {
        selectedCategory := catName;
        ApplyFilters();
      }
    }

    /** The items-per-page selector: sets the page size and goes back to page 1. */
    method SelectItemsPerPage(n: int)
      requires Valid() && IsPageSize(n)
      modifies this
      ensures Valid()
      ensures itemsPerPage == n && currentPage == 1
      ensures products == old(products) && filteredProducts == old(filteredProducts)
      ensures categories == old(categories) && selectedCategory == old(selectedCategory)
      ensures searchQuery == old(searchQuery) && selectedProduct == old(selectedProduct) && loading == old(loading)
    {
      itemsPerPage := n;
      currentPage := 1;
    }

    /** `handlePageChange`, as the paging buttons call it: with a page that exists. */
    method HandlePageChange(pageNumber: int)
      requires Valid()
      requires 1 <= pageNumber <= TotalPages()
      modifies this`currentPage
      ensures Valid()
      ensures currentPage == pageNumber
    {
      currentPage := pageNumber;
    }

    /** The "previous" button: shown only with more than one page, disabled on page 1. */
    method ClickPrevious() returns (handled: bool)
      requires Valid()
      modifies this`currentPage
      ensures Valid()
      ensures handled == (ShowsPagination() && old(currentPage) != 1)
      ensures currentPage == if handled then old(currentPage) - 1 else old(currentPage)
    {
      handled := ShowsPagination() && currentPage != 1;
      if handled {
        HandlePageChange(currentPage - 1);
      }
    }

    /** The "next" button: shown only with more than one page, disabled on the last page. */
    method ClickNext() returns (handled: bool)
      requires Valid()
      modifies this`currentPage
      ensures Valid()
      ensures handled == (ShowsPagination() && old(currentPage) != TotalPages())
      ensures currentPage == if handled then old(currentPage) + 1 else old(currentPage)
    {
      handled := ShowsPagination() && currentPage != TotalPages();
      if handled {
        HandlePageChange(currentPage + 1);
      }
    }

    /** A numbered button: buttons exist for pages 1 to `totalPages`, only when there is more than one page. */
    method ClickPageNumber(page: int) returns (handled: bool)
      requires Valid()
      modifies this`currentPage
      ensures Valid()
      ensures handled == (ShowsPagination() && 1 <= page <= TotalPages())
      ensures currentPage == if handled then page else old(currentPage)
    {
      handled := ShowsPagination() && 1 <= page <= TotalPages();
      if handled {
        HandlePageChange(page);
      }
    }

    /** A product card was clicked: the detail modal opens on it. */
    method OpenProduct(p: Product)
      modifies this`selectedProduct
      ensures selectedProduct == Some(p)
    {
      selectedProduct := Some(p);
    }

    /** The detail modal was closed. */
    method CloseProduct()
      modifies this`selectedProduct
      ensures selectedProduct == None
    {
      selectedProduct := None;
    }
  }
}
