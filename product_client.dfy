/**
 * The query strings the frontend's service layer sends: the page request
 * (page, size and up to two sort pairs) and the filter request (name, one
 * entry per category, stock flag), each an ordered list of key/value pairs,
 * together with how the backend controller reads such a list back.
 */
module ProductClient {
  import opened Wrappers
  import opened Js
  import opened UiTypes
  import opened ProductModel
  import opened ProductService

  /** One `key=value` entry of a query string. */
  type Param = (string, string)

  /** Every value sent under `key`, in the order sent. */
  function Values(params: seq<Param>, key: string): (vs: seq<string>)
    ensures |vs| <= |params|
    ensures forall v :: v in vs <==> (key, v) in params
    ensures params != [] && params[0].0 == key ==> vs != [] && vs[0] == params[0].1
  {
    if params == [] then []
    else if params[0].0 == key then [params[0].1] + Values(params[1..], key)
    else Values(params[1..], key)
  }

  /** The first value sent under `key`, the one a single-valued request parameter binds. */
  function First(params: seq<Param>, key: string): (v: Option<string>)
    ensures v.Some? <==> Values(params, key) != []
    ensures v.Some? ==> v.value == Values(params, key)[0]
  {
    var vs := Values(params, key);
    if vs == [] then None else Some(vs[0])
  }

  lemma {:induction false} ValuesAppend(a: seq<Param>, b: seq<Param>, key: string)
    ensures Values(a + b, key) == Values(a, key) + Values(b, key)
  {
    if a != [] {
      assert (a + b)[1..] == a[1..] + b;
      ValuesAppend(a[1..], b, key);
    } else {
      assert a + b == b;
    }
  }

  lemma SingleValues(k: string, v: string, key: string)
    ensures Values([(k, v)], key) == if k == key then [v] else []
  {
    assert [(k, v)][1..] == [];
  }

  // ---------------------------------------------------------------------
  // fetchPaginatedProducts

  /** The two entries of a sort pair, present only when the column name is non-empty and a direction is given. */
  function SortPair(sortBy: Option<string>, direction: Option<Direction>, sortKey: string, directionKey: string): (ps: seq<Param>)
    ensures ps != [] <==> sortBy.Some? && sortBy.value != "" && direction.Some?
    ensures ps != [] ==> ps == [(sortKey, sortBy.value), (directionKey, DirectionName(direction.value))]
  {
    if sortBy.Some? && sortBy.value != "" && direction.Some? then
      [(sortKey, sortBy.value), (directionKey, DirectionName(direction.value))]
    else
      []
  }

  /** The paginated request's entries: page and size first, then the first and the second sort pair. */
  function PaginatedQuery(page: int, size: int, sortBy1: Option<string>, direction1: Option<Direction>,
                          sortBy2: Option<string>, direction2: Option<Direction>): seq<Param>
  {
    [("page", IntToString(page)), ("size", IntToString(size))]
      + SortPair(sortBy1, direction1, "sortBy1", "direction1")
      + SortPair(sortBy2, direction2, "sortBy2", "direction2")
  }

  /** The parameters of `fetchPaginatedProducts`, built by successive appends. */
  method PaginatedParams(page: int, size: int, sortBy1: Option<string>, direction1: Option<Direction>,
                         sortBy2: Option<string>, direction2: Option<Direction>)
    returns (params: seq<Param>)
    ensures params == PaginatedQuery(page, size, sortBy1, direction1, sortBy2, direction2)
  {
    params := [("page", IntToString(page)), ("size", IntToString(size))];
    if sortBy1.Some? && sortBy1.value != "" && direction1.Some? {
      params := params + [("sortBy1", sortBy1.value)];
      params := params + [("direction1", DirectionName(direction1.value))];
    }
    if sortBy2.Some? && sortBy2.value != "" && direction2.Some? {
      params := params + [("sortBy2", sortBy2.value)];
      params := params + [("direction2", DirectionName(direction2.value))];
    }
  }

  /** The values under any key of a sort pair: the column under the first key, the direction under the second. */
  lemma SortPairValues(sortBy: Option<string>, direction: Option<Direction>, sortKey: string, directionKey: string, key: string)
    requires sortKey != directionKey
    ensures var sent := sortBy.Some? && sortBy.value != "" && direction.Some?;
      Values(SortPair(sortBy, direction, sortKey, directionKey), key) ==
        if !sent then []
        else if key == sortKey then [sortBy.value]
        else if key == directionKey then [DirectionName(direction.value)]
        else []
  {
    var ps := SortPair(sortBy, direction, sortKey, directionKey);
    if ps != [] {
      ValuesAppend([ps[0]], [ps[1]], key);
      assert ps == [ps[0]] + [ps[1]];
      SingleValues(ps[0].0, ps[0].1, key);
      SingleValues(ps[1].0, ps[1].1, key);
    }
  }

  /** The values under `key` in the paginated request, part by part. */
  lemma PaginatedValues(page: int, size: int, sortBy1: Option<string>, direction1: Option<Direction>,
                        sortBy2: Option<string>, direction2: Option<Direction>, key: string)
    ensures Values(PaginatedQuery(page, size, sortBy1, direction1, sortBy2, direction2), key) ==
              Values([("page", IntToString(page))], key) + Values([("size", IntToString(size))], key)
              + Values(SortPair(sortBy1, direction1, "sortBy1", "direction1"), key)
              + Values(SortPair(sortBy2, direction2, "sortBy2", "direction2"), key)
  {
    var pageEntry := [("page", IntToString(page))];
    var sizeEntry := [("size", IntToString(size))];
    var pair1 := SortPair(sortBy1, direction1, "sortBy1", "direction1");
    var pair2 := SortPair(sortBy2, direction2, "sortBy2", "direction2");
    assert [("page", IntToString(page)), ("size", IntToString(size))] == pageEntry + sizeEntry;
    ValuesAppend(pageEntry + sizeEntry + pair1, pair2, key);
    ValuesAppend(pageEntry + sizeEntry, pair1, key);
    ValuesAppend(pageEntry, sizeEntry, key);
  }

  /** Page and size come first, once each, and their texts parse back to the numbers sent. */
  lemma PageAndSizeReadBack(page: int, size: int, sortBy1: Option<string>, direction1: Option<Direction>,
                            sortBy2: Option<string>, direction2: Option<Direction>)
    ensures var q := PaginatedQuery(page, size, sortBy1, direction1, sortBy2, direction2);
      && q[0].0 == "page" && q[1].0 == "size"
      && Values(q, "page") == [q[0].1] && Values(q, "size") == [q[1].1]
      && ToNumber(Str(q[0].1)) == Finite(page as real)
      && ToNumber(Str(q[1].1)) == Finite(size as real)
  {
    PaginatedValues(page, size, sortBy1, direction1, sortBy2, direction2, "page");
    PaginatedValues(page, size, sortBy1, direction1, sortBy2, direction2, "size");
    SingleValues("page", IntToString(page), "page");
    SingleValues("size", IntToString(size), "page");
    SingleValues("page", IntToString(page), "size");
    SingleValues("size", IntToString(size), "size");
    SortPairValues(sortBy1, direction1, "sortBy1", "direction1", "page");
    SortPairValues(sortBy2, direction2, "sortBy2", "direction2", "page");
    SortPairValues(sortBy1, direction1, "sortBy1", "direction1", "size");
    SortPairValues(sortBy2, direction2, "sortBy2", "direction2", "size");
    IntToStringRoundTrip(page);
    IntToStringRoundTrip(size);
  }

  /** The first sort pair is read back exactly when it was sent, and likewise the second. */
  lemma SortPairsReadBack(page: int, size: int, sortBy1: Option<string>, direction1: Option<Direction>,
                          sortBy2: Option<string>, direction2: Option<Direction>)
    ensures var q := PaginatedQuery(page, size, sortBy1, direction1, sortBy2, direction2);
            var sent1 := sortBy1.Some? && sortBy1.value != "" && direction1.Some?;
            var sent2 := sortBy2.Some? && sortBy2.value != "" && direction2.Some?;
      && First(q, "sortBy1") == (if sent1 then sortBy1 else None)
      && First(q, "direction1") == (if sent1 then Some(DirectionName(direction1.value)) else None)
      && First(q, "sortBy2") == (if sent2 then sortBy2 else None)
      && First(q, "direction2") == (if sent2 then Some(DirectionName(direction2.value)) else None)
  {
    SortKeyValues(page, size, sortBy1, direction1, sortBy2, direction2, "sortBy1");
    SortKeyValues(page, size, sortBy1, direction1, sortBy2, direction2, "direction1");
    SortKeyValues(page, size, sortBy1, direction1, sortBy2, direction2, "sortBy2");
    SortKeyValues(page, size, sortBy1, direction1, sortBy2, direction2, "direction2");
  }

  /** Under a key other than page and size, only the two sort pairs contribute. */
  lemma SortKeyValues(page: int, size: int, sortBy1: Option<string>, direction1: Option<Direction>,
                      sortBy2: Option<string>, direction2: Option<Direction>, key: string)
    requires key != "page" && key != "size"
    ensures var sent1 := sortBy1.Some? && sortBy1.value != "" && direction1.Some?;
            var sent2 := sortBy2.Some? && sortBy2.value != "" && direction2.Some?;
      Values(PaginatedQuery(page, size, sortBy1, direction1, sortBy2, direction2), key) ==
        (if sent1 && key == "sortBy1" then [sortBy1.value]
         else if sent1 && key == "direction1" then [DirectionName(direction1.value)] else [])
        + (if sent2 && key == "sortBy2" then [sortBy2.value]
           else if sent2 && key == "direction2" then [DirectionName(direction2.value)] else [])
  {
    PaginatedValues(page, size, sortBy1, direction1, sortBy2, direction2, key);
    SingleValues("page", IntToString(page), key);
    SingleValues("size", IntToString(size), key);
    SortPairValues(sortBy1, direction1, "sortBy1", "direction1", key);
    SortPairValues(sortBy2, direction2, "sortBy2", "direction2", key);
  }

  /** When both pairs are sent, the first pair comes right after page and size and the second follows it. */
  lemma SortPairsOrder(page: int, size: int, sortBy1: Option<string>, direction1: Option<Direction>,
                       sortBy2: Option<string>, direction2: Option<Direction>)
    requires sortBy1.Some? && sortBy1.value != "" && direction1.Some?
    requires sortBy2.Some? && sortBy2.value != "" && direction2.Some?
    ensures var q := PaginatedQuery(page, size, sortBy1, direction1, sortBy2, direction2);
      && |q| == 6
      && q[2] == ("sortBy1", sortBy1.value) && q[3] == ("direction1", DirectionName(direction1.value))
      && q[4] == ("sortBy2", sortBy2.value) && q[5] == ("direction2", DirectionName(direction2.value))
  {
  }

  // ---------------------------------------------------------------------
  // fetchFilteredProducts

  /** The filter argument of `fetchFilteredProducts`; each member may be `undefined`. */
  datatype FilterRequest = FilterRequest(name: Option<string>, categories: Option<seq<string>>, inStock: Option<bool>)

  /** One `category` entry per category, in the given order. */
  function CategoryParams(categories: seq<string>): (ps: seq<Param>)
    ensures |ps| == |categories|
    ensures forall i :: 0 <= i < |ps| ==> ps[i] == ("category", categories[i])
  {
    if categories == [] then []
    else CategoryParams(categories[..|categories| - 1]) + [("category", categories[|categories| - 1])]
  }

  /** The filter request's entries: name if non-empty, the categories if any, the stock flag if given. */
  function FilteredQuery(f: FilterRequest): seq<Param> {
    (if f.name.Some? && f.name.value != "" then [("name", f.name.value)] else [])
      + (if f.categories.Some? && f.categories.value != [] then CategoryParams(f.categories.value) else [])
      + (if f.inStock.Some? then [("inStock", BoolToString(f.inStock.value))] else [])
  }

  /** The parameters of `fetchFilteredProducts`: conditional appends around a loop over the categories. */
  method FilteredParams(f: FilterRequest) returns (params: seq<Param>)
    ensures params == FilteredQuery(f)
  {
    params := [];
    if f.name.Some? && f.name.value != "" {
      params := params + [("name", f.name.value)];
    }
    ghost var prefix := params;
    if f.categories.Some? && f.categories.value != [] {
      var categories := f.categories.value;
      var i := 0;
      while i < |categories|
        invariant 0 <= i <= |categories|
        invariant params == prefix + CategoryParams(categories[..i])
      {
        assert categories[..i + 1][..i] == categories[..i];
        params := params + [("category", categories[i])];
        i := i + 1;
      }
      assert categories[..|categories|] == categories;
    }
    if f.inStock.Some? {
      params := params + [("inStock", BoolToString(f.inStock.value))];
    }
  }

  /** The controller's reading of `inStock`: the two literals `String(b)` produces. */
  function ParseBool(s: string): (b: Option<bool>)
    ensures b == Some(true) <==> s == "true"
    ensures b == Some(false) <==> s == "false"
  {
    if s == "true" then Some(true) else if s == "false" then Some(false) else None
  }

  /** The criteria the controller binds from a query: absent parameters are null, repeated `category` entries form the list. */
  function Bound(params: seq<Param>): (f: FilterRequest)
    ensures f.name == First(params, "name")
    ensures f.categories.Some? <==> Values(params, "category") != []
    ensures f.categories.Some? ==> f.categories.value == Values(params, "category")
  {
    var categories := Values(params, "category");
    var inStock := First(params, "inStock");
    FilterRequest(
      First(params, "name"),
      if categories == [] then None else Some(categories),
      if inStock.None? then None else ParseBool(inStock.value))
  }

  lemma {:induction false} CategoryParamsValues(categories: seq<string>, key: string)
    ensures Values(CategoryParams(categories), key) == if key == "category" then categories else []
  {
    if categories != [] {
      var front := categories[..|categories| - 1];
      CategoryParamsValues(front, key);
      ValuesAppend(CategoryParams(front), [("category", categories[|categories| - 1])], key);
    }
  }

  /** The values under `key` in the filter request, part by part. */
  lemma FilteredValues(f: FilterRequest, key: string)
    ensures Values(FilteredQuery(f), key) ==
              (if key == "name" && f.name.Some? && f.name.value != "" then [f.name.value] else [])
              + (if key == "category" && f.categories.Some? && f.categories.value != [] then f.categories.value else [])
              + (if key == "inStock" && f.inStock.Some? then [BoolToString(f.inStock.value)] else [])
  {
    var namePart := if f.name.Some? && f.name.value != "" then [("name", f.name.value)] else [];
    var categoryPart := if f.categories.Some? && f.categories.value != [] then CategoryParams(f.categories.value) else [];
    var stockPart := if f.inStock.Some? then [("inStock", BoolToString(f.inStock.value))] else [];
    assert FilteredQuery(f) == namePart + categoryPart + stockPart;
    ValuesAppend(namePart + categoryPart, stockPart, key);
    ValuesAppend(namePart, categoryPart, key);
    if f.categories.Some? {
      CategoryParamsValues(f.categories.value, key);
    }
    if f.name.Some? {
      SingleValues("name", f.name.value, key);
    }
    if f.inStock.Some? {
      SingleValues("inStock", BoolToString(f.inStock.value), key);
    }
  }

  /**
   * The controller binds back what was sent, except that an empty name and an
   * empty category list arrive as absent.
   */
  lemma FilteredReadBack(f: FilterRequest)
    ensures Bound(FilteredQuery(f)).name == if f.name.Some? && f.name.value != "" then f.name else None
    ensures Bound(FilteredQuery(f)).categories ==
              if f.categories.Some? && f.categories.value != [] then f.categories else None
    ensures Bound(FilteredQuery(f)).inStock == f.inStock
  {
    FilteredValues(f, "name");
    FilteredValues(f, "category");
    FilteredValues(f, "inStock");
    var sent := f.categories.Some? && f.categories.value != [];
    assert Values(FilteredQuery(f), "category") == if sent then f.categories.value else [];
  }

  /** Empty criteria send no parameters at all. */
  lemma EmptyFiltersSendNothing(categories: Option<seq<string>>)
    requires categories.None? || categories.value == []
    ensures FilteredQuery(FilterRequest(None, categories, None)) == []
    ensures FilteredQuery(FilterRequest(Some(""), categories, None)) == []
  {
  }

  /** `getProducts`: all products when nothing was bound, the filter stream otherwise. */
  function Serve(all: seq<Product>, params: seq<Param>): (r: seq<Product>)
    ensures IsSubsequence(r, all)
    ensures var f := Bound(params); r == Filter(all, f.name, f.categories, f.inStock)
  {
    var f := Bound(params);
    if f.name.None? && (f.categories.None? || f.categories.value == []) && f.inStock.None? then
      FilterNoCriteria(all, f.categories);
      all
    else
      Filter(all, f.name, f.categories, f.inStock)
  }

  /** Two criteria that agree on every product filter a listing the same way. */
  lemma {:induction false} FilterAgrees(all: seq<Product>, a: FilterRequest, b: FilterRequest)
    requires forall i :: 0 <= i < |all| ==>
               (Matches(all[i], a.name, a.categories, a.inStock) <==> Matches(all[i], b.name, b.categories, b.inStock))
    ensures Filter(all, a.name, a.categories, a.inStock) == Filter(all, b.name, b.categories, b.inStock)
  {
    if all != [] {
      assert Matches(all[0], a.name, a.categories, a.inStock) <==> Matches(all[0], b.name, b.categories, b.inStock);
      FilterAgrees(all[1..], a, b);
    }
  }

  /**
   * End to end: the backend answers a filter request built by the frontend
   * with exactly the products the service's filter keeps for those criteria,
   * whichever of the controller's two paths it takes.
   */
  lemma FilteredRequestServes(all: seq<Product>, f: FilterRequest)
    ensures Serve(all, FilteredQuery(f)) == Filter(all, f.name, f.categories, f.inStock)
  {
    FilteredReadBack(f);
    var b := Bound(FilteredQuery(f));
    forall i | 0 <= i < |all|
      ensures Matches(all[i], b.name, b.categories, b.inStock) <==> Matches(all[i], f.name, f.categories, f.inStock)
    {
      if f.name == Some("") {
        Text.ContainsEmpty(Text.ToLower(all[i].name));
      }
    }
    FilterAgrees(all, b, f);
    if b.name.None? && b.categories.None? && b.inStock.None? {
      FilterNoCriteria(all, None);
    }
  }

  /** The filter tests' request: one name, two categories, in stock. */
  method ClientScenario() {
    var params := FilteredParams(FilterRequest(Some("apple"), Some(["Fruit", "Snacks"]), Some(true)));
    assert params == [("name", "apple"), ("category", "Fruit"), ("category", "Snacks"), ("inStock", "true")];
    var none := FilteredParams(FilterRequest(Some(""), Some([]), None));
    assert none == [];
    var paged := PaginatedParams(0, 10, Some("name"), Some(Asc), Some(""), Some(Desc));
    assert |paged| == 4 && paged[2] == ("sortBy1", "name") && paged[3] == ("direction1", "asc");
  }
}
