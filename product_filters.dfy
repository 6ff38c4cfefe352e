/**
 * The filter bar above the product listing: it rewrites the listing's
 * query with successive `set` and `delete` calls on a copy of the current
 * query and navigates there, keeps the text of the search box, and can
 * clear every filter at once.
 */
module ProductFilters {
  import opened Wrappers
  import opened SearchParams
  import Catalog

  /** One field of a partial update: not mentioned (`undefined`), `null`, or a string. */
  datatype FieldUpdate = Unmentioned | Null | Value(text: string)

  datatype FilterUpdate = FilterUpdate(category: FieldUpdate, sort: FieldUpdate, search: FieldUpdate)

  /** A string value that JavaScript treats as true: present and not empty. */
  predicate Truthy(u: FieldUpdate) {
    u.Value? && u.text != ""
  }

  predicate IsFilterName(name: string) {
    name == "page" || name == "category" || name == "sort" || name == "search"
  }

  /** What a field reads after an update that sets, deletes or keeps it. */
  function Updated(u: FieldUpdate, emptyClears: bool, was: Option<string>): (r: Option<string>)
    ensures Truthy(u) ==> r == Some(u.text)
    ensures u.Null? ==> r.None?
    ensures u.Unmentioned? ==> r == was
  {
    if Truthy(u) then Some(u.text)
    else if u.Null? || (emptyClears && u == Value("")) then None
    else was
  }

  /**
   * One `if (value) set; else if (clears) delete;` step: a truthy value is
   * set; `null` deletes, and so does `""` when `emptyClears` holds.
   */
  method ApplyField(params: Params, name: string, u: FieldUpdate, emptyClears: bool)
    modifies params
    ensures GetParam(params.entries, name) == Updated(u, emptyClears, GetParam(old(params.entries), name))
    ensures forall other :: other != name ==> GetParam(params.entries, other) == GetParam(old(params.entries), other)
  {
    var before := params.entries;
    if Truthy(u) {
      params.Set(name, u.text);
      forall other | other != name ensures GetParam(params.entries, other) == GetParam(before, other) {
        SetKeepsOthers(before, name, u.text, other);
      }
    } else if u.Null? || (emptyClears && u == Value("")) {
      params.Delete(name);
      forall other | other != name ensures GetParam(params.entries, other) == GetParam(before, other) {
        RemoveKeepsOthers(before, name, other);
      }
    }
  }

  /** The four parameter names are pairwise different: their first letters differ, or their lengths. */
  lemma NamesDiffer()
    ensures "page" != "category" && "page" != "sort" && "page" != "search"
    ensures "category" != "sort" && "category" != "search" && "sort" != "search"
  {
    assert "page"[0] == 'p' && "sort"[0] == 's' && "search"[0] == 's';
    assert |"page"| == 4 && |"sort"| == 4 && |"search"| == 6 && |"category"| == 8;
  }

  /** The three field steps of `updateParams`, in source order. */
  method ApplyUpdates(params: Params, updates: FilterUpdate)
    modifies params
    ensures GetParam(params.entries, "category") == Updated(updates.category, false, GetParam(old(params.entries), "category"))
    ensures GetParam(params.entries, "sort") == Updated(updates.sort, false, GetParam(old(params.entries), "sort"))
    ensures GetParam(params.entries, "search") == Updated(updates.search, true, GetParam(old(params.entries), "search"))
    ensures forall other :: other != "category" && other != "sort" && other != "search" ==>
              GetParam(params.entries, other) == GetParam(old(params.entries), other)
  {
    NamesDiffer();
    ApplyField(params, "category", updates.category, false);
    ghost var e1 := params.entries;
    ApplyField(params, "sort", updates.sort, false);
    ghost var e2 := params.entries;
    assert GetParam(e2, "category") == GetParam(e1, "category");
    ApplyField(params, "search", updates.search, true);
    assert GetParam(params.entries, "category") == GetParam(e1, "category");
    assert GetParam(params.entries, "sort") == GetParam(e2, "sort");
  }

  /**
   * `updateParams`: "page" goes back to "1" when the update mentions the
   * category or the sort (also as `null`); each mentioned field is set or
   * deleted; every other parameter keeps its value.
   */
  method UpdateParams(current: seq<Entry>, updates: FilterUpdate) returns (pushed: Location)
    ensures pushed.path == ProductsPath
    ensures GetParam(pushed.query, "page") ==
              if !updates.category.Unmentioned? || !updates.sort.Unmentioned? then Some("1") else GetParam(current, "page")
    ensures GetParam(pushed.query, "category") == Updated(updates.category, false, GetParam(current, "category"))
    ensures GetParam(pushed.query, "sort") == Updated(updates.sort, false, GetParam(current, "sort"))
    ensures GetParam(pushed.query, "search") == Updated(updates.search, true, GetParam(current, "search"))
    ensures forall other :: !IsFilterName(other) ==> GetParam(pushed.query, other) == GetParam(current, other)
  {
    var params := new Params(current);
    ResetPage(params, updates);
    ghost var reset := params.entries;
    ApplyUpdates(params, updates);
    pushed := Location(ProductsPath, params.entries);
    ComposeSteps(current, reset, pushed.query, updates);
  }

  /** The page step followed by the three field steps, read parameter by parameter. */
  lemma ComposeSteps(current: seq<Entry>, reset: seq<Entry>, final: seq<Entry>, updates: FilterUpdate)
    requires GetParam(reset, "page") ==
               if !updates.category.Unmentioned? || !updates.sort.Unmentioned? then Some("1") else GetParam(current, "page")
    requires forall other :: other != "page" ==> GetParam(reset, other) == GetParam(current, other)
    requires GetParam(final, "category") == Updated(updates.category, false, GetParam(reset, "category"))
    requires GetParam(final, "sort") == Updated(updates.sort, false, GetParam(reset, "sort"))
    requires GetParam(final, "search") == Updated(updates.search, true, GetParam(reset, "search"))
    requires forall other :: other != "category" && other != "sort" && other != "search" ==>
               GetParam(final, other) == GetParam(reset, other)
    ensures GetParam(final, "page") ==
              if !updates.category.Unmentioned? || !updates.sort.Unmentioned? then Some("1") else GetParam(current, "page")
    ensures GetParam(final, "category") == Updated(updates.category, false, GetParam(current, "category"))
    ensures GetParam(final, "sort") == Updated(updates.sort, false, GetParam(current, "sort"))
    ensures GetParam(final, "search") == Updated(updates.search, true, GetParam(current, "search"))
    ensures forall other :: !IsFilterName(other) ==> GetParam(final, other) == GetParam(current, other)
  {
    NamesDiffer();
    KeptByFieldSteps(final, reset, "page");
    KeptByPageStep(reset, current, "category");
    KeptByPageStep(reset, current, "sort");
    KeptByPageStep(reset, current, "search");
  }

  /** A name other than "page" reads after the page step as before it. */
  lemma KeptByPageStep(after: seq<Entry>, before: seq<Entry>, name: string)
    requires forall other :: other != "page" ==> GetParam(after, other) == GetParam(before, other)
    requires name != "page"
    ensures GetParam(after, name) == GetParam(before, name)
  {
  }

  /** A name the field steps do not touch reads after them as before them. */
  lemma KeptByFieldSteps(after: seq<Entry>, before: seq<Entry>, name: string)
    requires forall other :: other != "category" && other != "sort" && other != "search" ==>
               GetParam(after, other) == GetParam(before, other)
    requires name != "category" && name != "sort" && name != "search"
    ensures GetParam(after, name) == GetParam(before, name)
  {
  }

  /** The first step of `updateParams`: "page" becomes "1" when the category or the sort is mentioned. */
  method ResetPage(params: Params, updates: FilterUpdate)
    modifies params
    ensures GetParam(params.entries, "page") ==
              if !updates.category.Unmentioned? || !updates.sort.Unmentioned? then Some("1") else GetParam(old(params.entries), "page")
    ensures forall other :: other != "page" ==> GetParam(params.entries, other) == GetParam(old(params.entries), other)
  {
    var before := params.entries;
    if !updates.category.Unmentioned? || !updates.sort.Unmentioned? {
      params.Set("page", "1");
      forall other | other != "page" ensures GetParam(params.entries, other) == GetParam(before, other) {
        SetKeepsOthers(before, "page", "1", other);
      }
    }
  }

  /** The filter bar: the query it was opened with and the text in its search box. */
  class FilterBar {
    const currentParams: Catalog.ListParams
    const query: seq<Entry>
    var searchValue: string

    /** The search box starts with the current search, or empty. */
    constructor (currentParams: Catalog.ListParams, query: seq<Entry>)
      ensures this.currentParams == currentParams && this.query == query
      ensures searchValue == currentParams.search.GetOr("")
    {
      this.currentParams := currentParams;
      this.query := query;
      searchValue := currentParams.search.GetOr("");
    }

    /** `handleSearch`: the box's text, or `null` when it is empty, as the search update. */
    method HandleSearch() returns (pushed: Location)
      ensures pushed.path == ProductsPath
      ensures searchValue != "" ==> GetParam(pushed.query, "search") == Some(searchValue)
      ensures searchValue == "" ==> GetParam(pushed.query, "search").None?
      ensures forall other :: other != "search" ==> GetParam(pushed.query, other) == GetParam(query, other)
    {
      var search := if searchValue != "" then Value(searchValue) else Null;
      pushed := UpdateParams(query, FilterUpdate(Unmentioned, Unmentioned, search));
    }

    /** `clearFilters`: the box is emptied and the listing opens with no query at all. */
    method ClearFilters() returns (pushed: Location)
      modifies this
      ensures searchValue == ""
      ensures pushed == Location(ProductsPath, [])
      ensures forall name :: GetParam(pushed.query, name).None?
    {
      searchValue := "";
      pushed := Location(ProductsPath, []);
    }

    /** `hasActiveFilters`: a category, a sort or a search is present and not empty. */
    predicate HasActiveFilters(): (r: bool)
      ensures Catalog.Given(currentParams.sort) ==> r
      ensures r ==> currentParams.category.Some? || currentParams.sort.Some? || currentParams.search.Some?
    {
      Catalog.Given(currentParams.category) || Catalog.Given(currentParams.sort) || Catalog.Given(currentParams.search)
    }
  }

  /**
   * The listing page's parameters for the filter bar: an empty category or
   * search is dropped and the sort defaults to "latest". The page number,
   * which the page parses from the query, is a parameter.
   */
  function ListingPageParams(page: Option<int>, category: Option<string>, sort: Option<string>, search: Option<string>): (r: Catalog.ListParams)
    ensures r.page == page && r.limit.None?
    ensures r.category.Some? <==> Catalog.Given(category)
    ensures r.search.Some? <==> Catalog.Given(search)
    ensures Catalog.Given(sort) ==> r.sort == sort
    ensures !Catalog.Given(sort) ==> r.sort == Some("latest")
  {
    Catalog.ListParams(page,
                       if Catalog.Given(category) then category else None,
                       if Catalog.Given(sort) then sort else Some("latest"),
                       if Catalog.Given(search) then search else None,
                       None)
  }

  /** On the listing page the sort is never empty, so the clear button and the filter chips always show. */
  lemma ListingPageFiltersAlwaysActive(bar: FilterBar, page: Option<int>, category: Option<string>, sort: Option<string>, search: Option<string>)
    requires bar.currentParams == ListingPageParams(page, category, sort, search)
    ensures bar.HasActiveFilters()
  {
  }
}
