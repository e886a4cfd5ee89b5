/**
 * The filter panel: three pieces of state (name text, chosen categories,
 * availability choice) and the criteria it hands to its `onSearch` callback.
 */
module ProductFilters {
  import opened Wrappers

  /** What `onSearch` receives. */
  datatype SearchFilters = SearchFilters(name: string, categories: seq<string>, inStock: Option<bool>)

  /** The availability choice as a stock flag: only the two named options set one. */
  function InStockOf(availability: string): (r: Option<bool>)
    ensures r == Some(true) <==> availability == "inStock"
    ensures r == Some(false) <==> availability == "outOfStock"
    ensures r.None? <==> availability != "inStock" && availability != "outOfStock"
  {
    if availability == "inStock" then Some(true)
    else if availability == "outOfStock" then Some(false)
    else None
  }

  /** The criteria `handleClear` sends. */
  const ClearedFilters := SearchFilters("", [], None)

  class FilterPanel {
    var name: string
    var categories: seq<string>
    var availability: string

    /** What a submit would send now. */
    function Criteria(): SearchFilters
      reads this
    {
      SearchFilters(name, categories, InStockOf(availability))
    }

    /** The initial state: empty name, no categories, "all". */
    constructor ()
      ensures name == "" && categories == [] && availability == "all"
      ensures Criteria() == ClearedFilters
    {
      name := "";
      categories := [];
      availability := "all";
    }

    /** The name field's `onChange`. */
    method SetName(value: string)
      modifies this
      ensures name == value && categories == old(categories) && availability == old(availability)
    {
      name := value;
    }

    /** The category select's `onChange`: the whole selection is replaced. */
    method SetCategories(value: seq<string>)
      modifies this
      ensures categories == value && name == old(name) && availability == old(availability)
    {
      categories := value;
    }

    /** The availability select's `onChange`. */
    method SetAvailability(value: string)
      modifies this
      ensures availability == value && name == old(name) && categories == old(categories)
    {
      availability := value;
    }

    /** `handleSubmit`: the current values, availability read as a stock flag; the state is untouched. */
    method Submit() returns (filters: SearchFilters)
      ensures filters.name == name && filters.categories == categories
      ensures filters.inStock == InStockOf(availability)
    {
      filters := SearchFilters(name, categories, InStockOf(availability));
    }

    /** `handleClear`: back to the initial state, and the empty criteria are sent. */
    method Clear() returns (filters: SearchFilters)
      modifies this
      ensures name == "" && categories == [] && availability == "all"
      ensures filters == ClearedFilters && Criteria() == filters
    {
      name := "";
      categories := [];
      availability := "all";
      filters := SearchFilters("", [], None);
    }
  }

  /** The panel tests: typed values are sent as entered; clear sends and shows empty filters. */
  method FiltersScenario() {
    var panel := new FilterPanel();
    panel.SetName("apple");
    panel.SetCategories(["Fruit"]);
    panel.SetAvailability("inStock");
    var sent := panel.Submit();
    assert sent == SearchFilters("apple", ["Fruit"], Some(true));
    panel.SetName("milk");
    var cleared := panel.Clear();
    assert cleared == SearchFilters("", [], None) && panel.name == "";
    var again := panel.Submit();
    assert again == cleared;
  }
}
