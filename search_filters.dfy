/** The search box and category select of
  * `frontend/components/search-filters.tsx`. The widget keeps what is typed
  * in `searchInput` and reports to the dashboard only through its two
  * callbacks, recorded here as the `emitted` log. */
module SearchFilters {
  import opened Wrappers
  import opened Types
  import C = Catalog

  /** The select's value for "All Categories". */
  const AllValue := "all"

  /** `value === "all" ? null : value`: what choosing `value` reports. */
  function CategoryValue(value: string): (r: Option<string>)
    ensures r.None? <==> value == AllValue
    ensures r.Some? ==> r.value == value
  {
    if value == AllValue then None else Some(value)
  }

  /** `selectedCategory || "all"`: the option the select shows. */
  function SelectValue(selectedCategory: Option<string>): (r: string)
    ensures selectedCategory.None? || selectedCategory.value == "" ==> r == AllValue
    ensures selectedCategory.Some? && selectedCategory.value != "" ==> r == selectedCategory.value
  {
    if selectedCategory.Some? && selectedCategory.value != "" then selectedCategory.value else AllValue
  }

  /** The option values: "all", then the categories in the order given. */
  function Options(categories: seq<string>): (r: seq<string>)
    ensures |r| == |categories| + 1 && r[0] == AllValue && r[1..] == categories
  {
    [AllValue] + categories
  }

  /** Choosing the option the select shows reports the selection back
    * unchanged, except that a selection of "" reads as none. */
  lemma SelectRoundTrip(selectedCategory: Option<string>)
    requires selectedCategory.None? || selectedCategory.value != AllValue
    ensures CategoryValue(SelectValue(selectedCategory))
         == if selectedCategory.Some? && selectedCategory.value != "" then selectedCategory else None
  {
  }

  /** The select shows the option that was chosen, for every non-empty
    * option value. */
  lemma ChoiceIsShown(value: string)
    requires value != ""
    ensures SelectValue(CategoryValue(value)) == value
  {
  }

  /** A category that is itself called "all" cannot be selected: choosing it
    * clears the category filter, and the dashboard then shows every
    * category. */
  lemma AllCategoryUnselectable(ps: seq<Product>)
    ensures CategoryValue(AllValue) == None
    ensures C.CategoryFilter(ps, CategoryValue(AllValue)) == ps
    ensures AllValue in Options(["all"]) && Options(["all"])[1] == AllValue
  {
  }

  /** What the widget reports to the dashboard. */
  datatype Event = Search(term: string) | CategoryFilter(category: Option<string>)

  class SearchFiltersWidget {
    var searchInput: string
    var emitted: seq<Event>

    constructor ()
      ensures searchInput == "" && emitted == []
    {
      searchInput := "";
      emitted := [];
    }

    /** Whether the clear button is shown: `searchInput &&`. */
    predicate ShowsClear()
      reads this
    {
      searchInput != ""
    }

    /** `handleSearchChange`: typing reports nothing. */
    method HandleSearchChange(value: string)
      modifies this`searchInput
      ensures searchInput == value
    {
      searchInput := value;
    }

    /** `handleSearchSubmit`: report what is typed. */
    method HandleSearchSubmit()
      modifies this`emitted
      ensures emitted == old(emitted) + [Search(searchInput)]
    {
      emitted := emitted + [Search(searchInput)];
    }

    /** `handleClearSearch`: empty the box and report the empty term. */
    method HandleClearSearch()
      modifies this
      ensures searchInput == "" && emitted == old(emitted) + [Search("")]
      ensures !ShowsClear()
    {
      searchInput := "";
      emitted := emitted + [Search("")];
    }

    /** `handleCategoryChange(value)`. */
    method HandleCategoryChange(value: string)
      modifies this`emitted
      ensures emitted == old(emitted) + [CategoryFilter(CategoryValue(value))]
    {
      emitted := emitted + [CategoryFilter(CategoryValue(value))];
    }
  }
}
