/**
 * The product service: creation with a case-insensitive duplicate-name check
 * and sequential ids, filtering, partial update and delete, pagination by
 * index arithmetic, and the per-category inventory metrics.
 */
module ProductService {
  import opened Wrappers
  import opened JavaInt
  import opened Sets
  import opened Text
  import opened ProductModel
  import opened Repository

  /** The exceptions the service throws. */
  datatype ServiceError =
    | ConstraintViolation  // method validation rejects the product
    | DuplicateName        // "Product with the same name already exists."
    | NotFound(id: int)    // update or delete of an id that is not stored
    | IndexOutOfBounds     // `subList` with a negative start
    | IllegalArgument      // `subList` with a start beyond its end

  // ---------------------------------------------------------------- names

  /** The duplicate test of `createProduct`: some listed product has the name, ignoring case. */
  function AnyNameMatches(all: seq<Product>, name: string): (r: bool)
    ensures r <==> exists i :: 0 <= i < |all| && EqualsIgnoreCase(all[i].name, name)
  {
    if all == [] then
      false
    else
      var rest := AnyNameMatches(all[1..], name);
      assert rest <==> exists i :: 1 <= i < |all| && EqualsIgnoreCase(all[i].name, name) by {
        if rest {
          var i :| 0 <= i < |all| - 1 && EqualsIgnoreCase(all[1..][i].name, name);
          assert all[i + 1] == all[1..][i];
        }
        if exists i :: 1 <= i < |all| && EqualsIgnoreCase(all[i].name, name) {
          var i :| 1 <= i < |all| && EqualsIgnoreCase(all[i].name, name);
          assert all[1..][i - 1] == all[i];
        }
      }
      EqualsIgnoreCase(all[0].name, name) || rest
  }

  /** Some stored product has the name, ignoring case. */
  ghost predicate NameTaken(m: map<int, Product>, name: string) {
    exists k :: k in m && EqualsIgnoreCase(m[k].name, name)
  }

  /** Scanning any listing of the store answers whether the name is taken. */
  lemma ListingNameTaken(m: map<int, Product>, all: seq<Product>, name: string)
    requires IsListing(m, all)
    ensures AnyNameMatches(all, name) <==> NameTaken(m, name)
  {
    var ks :| ListsInOrder(m, all, ks);
    if AnyNameMatches(all, name) {
      var i :| 0 <= i < |all| && EqualsIgnoreCase(all[i].name, name);
      var k := ks[i];
      assert k in m && m[k] == all[i];
      assert EqualsIgnoreCase(m[k].name, name);
    }
    if NameTaken(m, name) {
      var k :| k in m && EqualsIgnoreCase(m[k].name, name);
      var i :| 0 <= i < |ks| && ks[i] == k;
      assert all[i] == m[k];
      assert EqualsIgnoreCase(all[i].name, name);
    }
  }

  /** With one product stored, a name is taken exactly when it equals that product's, ignoring case. */
  lemma SingleStoreNameTaken(m: map<int, Product>, k: int, p: Product, name: string)
    requires m == map[k := p]
    ensures NameTaken(m, name) <==> EqualsIgnoreCase(p.name, name)
  {
    assert k in m;
  }

  // ---------------------------------------------------------------- filter

  /** The name criterion: the lower-cased name contains the lower-cased filter. */
  predicate NameMatches(p: Product, name: Option<string>) {
    name.None? || Contains(ToLower(p.name), ToLower(name.value))
  }

  /**
   * The category criterion: an absent or empty list passes everything; otherwise
   * some lower-cased, trimmed entry occurs in the lower-cased, trimmed category.
   */
  predicate CategoryMatches(p: Product, categories: Option<seq<string>>) {
    || categories.None?
    || categories.value == []
    || exists i :: 0 <= i < |categories.value| &&
         Contains(Trim(ToLower(p.category)), Trim(ToLower(categories.value[i])))
  }

  /** The stock criterion: true asks for positive stock, false for stock of zero or less. */
  predicate StockMatches(p: Product, inStock: Option<bool>) {
    inStock.None? || (if inStock.value then p.stockQuantity > 0 else p.stockQuantity <= 0)
  }

  predicate Matches(p: Product, name: Option<string>, categories: Option<seq<string>>, inStock: Option<bool>) {
    NameMatches(p, name) && CategoryMatches(p, categories) && StockMatches(p, inStock)
  }

  /** `r` is `s` with some elements left out and the rest in their order. */
  predicate IsSubsequence<T(==)>(r: seq<T>, s: seq<T>)
    decreases |s|
  {
    || r == []
    || (s != [] && ((r[0] == s[0] && IsSubsequence(r[1..], s[1..])) || IsSubsequence(r, s[1..])))
  }

  /** The filter stream of `getFilteredProducts`: the matching products, in their listed order. */
  function Filter(all: seq<Product>, name: Option<string>, categories: Option<seq<string>>, inStock: Option<bool>): (r: seq<Product>)
    ensures IsSubsequence(r, all)
    ensures forall p :: p in r <==> p in all && Matches(p, name, categories, inStock)
  {
    if all == [] then
      []
    else
      var rest := Filter(all[1..], name, categories, inStock);
      if Matches(all[0], name, categories, inStock) then
        assert ([all[0]] + rest)[1..] == rest;
        [all[0]] + rest
      else
        rest
  }

  /** With every criterion absent the filter keeps everything, as the controller's shortcut assumes. */
  lemma {:induction false} FilterNoCriteria(all: seq<Product>, categories: Option<seq<string>>)
    requires categories.None? || categories.value == []
    ensures Filter(all, None, categories, None) == all
  {
    if all != [] {
      FilterNoCriteria(all[1..], categories);
    }
  }

  /** An empty name filter also keeps everything: every name contains "". */
  lemma {:induction false} FilterEmptyName(all: seq<Product>)
    ensures Filter(all, Some(""), None, None) == all
  {
    if all != [] {
      ContainsEmpty(ToLower(all[0].name));
      FilterEmptyName(all[1..]);
    }
  }

  /** The two stock filters split every listing between them. */
  lemma {:induction false} StockFiltersPartition(all: seq<Product>)
    ensures |Filter(all, None, None, Some(true))| + |Filter(all, None, None, Some(false))| == |all|
  {
    if all != [] {
      StockFiltersPartition(all[1..]);
    }
  }

  /** For valid products, asking for out-of-stock items returns exactly those flagged out of stock. */
  lemma OutOfStockFilterMatchesFlag(all: seq<Product>, today: Date)
    requires forall i :: 0 <= i < |all| ==> IsValid(all[i], today)
    ensures forall p :: p in Filter(all, None, None, Some(false)) <==> p in all && IsOutOfStock(p)
  {
    var outOfStock := Filter(all, None, None, Some(false));
    forall p | p in outOfStock ensures p in all && IsOutOfStock(p) {
      assert p in all && p.stockQuantity <= 0;
      var i :| 0 <= i < |all| && all[i] == p;
      assert StockValid(all[i].stockQuantity);
    }
    forall p | p in all && IsOutOfStock(p) ensures p in outOfStock {
      assert Matches(p, None, None, Some(false));
    }
  }

  // ---------------------------------------------------------------- pagination

  /** The page object the service returns; `totalPages` is derived elsewhere. */
  datatype PageResponse = PageResponse(content: seq<Product>, page: int, size: int, totalElements: int)

  function Min(a: int, b: int): int {
    if a <= b then a else b
  }

  /**
   * `getPaginatedProducts` on the listed products: the window starting at
   * `page*size`, computed in 32-bit arithmetic, with `subList`'s exceptions.
   */
  function Paginate(all: seq<Product>, page: Int32, size: Int32): (r: Result<PageResponse, ServiceError>)
    requires |all| <= Int32Max
    ensures r.Ok? ==> r.value.totalElements == |all| && r.value.page == page && r.value.size == size
    ensures r.Ok? ==> |r.value.content| <= size || r.value.content == []
    ensures r.Ok? ==> IsSubsequence(r.value.content, all)
  {
    var fromIndex := Wrap32(page * size);
    var toIndex := Min(Wrap32(fromIndex + size), |all|);
    if fromIndex > |all| then
      Ok(PageResponse([], page, size, |all|))
    else if fromIndex < 0 then
      Err(IndexOutOfBounds)
    else if fromIndex > toIndex then
      Err(IllegalArgument)
    else
      SliceIsSubsequence(all, fromIndex, toIndex);
      Ok(PageResponse(all[fromIndex..toIndex], page, size, |all|))
  }

  /** A window of a sequence is a subsequence of it. */
  lemma {:induction false} SliceIsSubsequence<T>(s: seq<T>, i: int, j: int)
    requires 0 <= i <= j <= |s|
    ensures IsSubsequence(s[i..j], s)
    decreases |s|
  {
    if i > 0 {
      SliceIsSubsequence(s[1..], i - 1, j - 1);
      assert s[1..][i - 1..j - 1] == s[i..j];
    } else if j > 0 {
      SliceIsSubsequence(s[1..], 0, j - 1);
      assert s[1..][0..j - 1] == s[0..j][1..];
    }
  }

  /** Without 32-bit overflow, a page is the window `[page*size, min(page*size+size, total))`, or empty past the end. */
  lemma PaginateInRange(all: seq<Product>, page: Int32, size: Int32)
    requires |all| <= Int32Max
    requires 0 <= page && 0 <= size && page * size + size <= Int32Max
    ensures 0 <= page * size
    ensures Paginate(all, page, size).Ok?
    ensures page * size > |all| ==> Paginate(all, page, size).value.content == []
    ensures page * size <= |all| ==>
      Paginate(all, page, size).value.content == all[page * size..Min(page * size + size, |all|)]
  {
    assert 0 <= page * size;
  }

  /** Without 32-bit overflow, a page fails exactly for a negative start or, inside the list, a negative size. */
  lemma PaginateErrors(all: seq<Product>, page: Int32, size: Int32)
    requires |all| <= Int32Max
    requires InInt32(page * size) && InInt32(page * size + size)
    ensures Paginate(all, page, size) == Err(IndexOutOfBounds) <==> page * size < 0
    ensures Paginate(all, page, size) == Err(IllegalArgument) <==> 0 <= page * size <= |all| && size < 0
  {
  }

  /** With a positive size, every product appears on page `i / size` at position `i % size`. */
  lemma PageOfIndex(all: seq<Product>, i: int, size: Int32)
    requires |all| <= Int32Max
    requires 0 <= i < |all| && 0 < size
    requires (i / size) * size + size <= Int32Max
    ensures InInt32(i / size)
    ensures var r := Paginate(all, i / size, size);
      r.Ok? && i % size < |r.value.content| && r.value.content[i % size] == all[i]
  {
    var page, offset := i / size, i % size;
    var from := page * size;
    assert from + offset == i && 0 <= offset < size by {
      DivMod(i, size);
    }
    assert 0 <= page <= i by {
      DivBounds(i, size);
    }
    assert 0 <= from <= i;
    PaginateInRange(all, page, size);
  }

  lemma DivMod(i: int, d: int)
    requires 0 < d
    ensures (i / d) * d + i % d == i && 0 <= i % d < d
  {
  }

  lemma DivBounds(i: int, d: int)
    requires 0 <= i && 0 < d
    ensures 0 <= i / d <= i
  {
    DivMod(i, d);
    MulAtLeast(i / d, d);
  }

  lemma MulAtLeast(q: int, d: int)
    requires 0 <= q && 1 <= d
    ensures q <= q * d
  {
  }

  // ---------------------------------------------------------------- metrics

  /** One row of the metrics table. */
  datatype InventoryMetric = InventoryMetric(category: string, totalProducts: int, totalValue: real, averagePrice: real)

  const OverallLabel: string := "Overall"

  /** The first stream step of `getInventoryMetrics`: drop the out-of-stock products. */
  function InStockOnly(all: seq<Product>): (r: seq<Product>)
    ensures IsSubsequence(r, all)
    ensures forall p :: p in r <==> p in all && !IsOutOfStock(p)
  {
    if all == [] then
      []
    else
      var rest := InStockOnly(all[1..]);
      if !IsOutOfStock(all[0]) then
        assert ([all[0]] + rest)[1..] == rest;
        [all[0]] + rest
      else
        rest
  }

  /** The products of one category, in order (one bucket of `groupingBy`). */
  function OfCategory(ps: seq<Product>, c: string): seq<Product> {
    if ps == [] then
      []
    else
      var rest := OfCategory(ps[..|ps| - 1], c);
      var last := ps[|ps| - 1];
      if last.category == c then rest + [last] else rest
  }

  function CategoriesOf(ps: seq<Product>): set<string> {
    set i | 0 <= i < |ps| :: ps[i].category
  }

  /** A bucket holds exactly the products of its category, and is empty only for a category that does not occur. */
  lemma {:induction false} OfCategoryMembers(ps: seq<Product>, c: string)
    ensures forall p :: p in OfCategory(ps, c) <==> p in ps && p.category == c
    ensures OfCategory(ps, c) != [] <==> c in CategoriesOf(ps)
  {
    if ps != [] {
      var front := ps[..|ps| - 1];
      var last := ps[|ps| - 1];
      OfCategoryMembers(front, c);
      assert ps == front + [last];
      assert CategoriesOf(ps) == CategoriesOf(front) + {last.category} by {
        forall d | d in CategoriesOf(ps) ensures d in CategoriesOf(front) + {last.category} {
          var i :| 0 <= i < |ps| && ps[i].category == d;
          if i < |front| {
            assert front[i] == ps[i];
          }
        }
        forall d | d in CategoriesOf(front) ensures d in CategoriesOf(ps) {
          var i :| 0 <= i < |front| && front[i].category == d;
          assert ps[i] == front[i];
        }
        assert ps[|ps| - 1] == last;
      }
    }
  }

  /** `groupingBy(Product::getCategory)`: the bucket of every category that occurs. */
  function GroupByCategory(ps: seq<Product>): map<string, seq<Product>> {
    map c | c in CategoriesOf(ps) :: OfCategory(ps, c)
  }

  /** The grouping has one key per category that occurs, and each bucket is non-empty and holds exactly that category's products. */
  lemma GroupByCategoryBuckets(ps: seq<Product>)
    ensures GroupByCategory(ps).Keys == CategoriesOf(ps)
    ensures var g := GroupByCategory(ps);
      forall c :: c in g ==> g[c] != [] && forall p :: p in g[c] <==> p in ps && p.category == c
  {
    var g := GroupByCategory(ps);
    forall c | c in g ensures g[c] != [] && forall p :: p in g[c] <==> p in ps && p.category == c {
      OfCategoryMembers(ps, c);
    }
  }

  /** Exact sum of the stock quantities. */
  function SumStock(ps: seq<Product>): int {
    if ps == [] then 0 else SumStock(ps[..|ps| - 1]) + ps[|ps| - 1].stockQuantity
  }

  /** Sum of price times quantity. */
  function SumValue(ps: seq<Product>): real {
    if ps == [] then 0.0 else SumValue(ps[..|ps| - 1]) + ps[|ps| - 1].unitPrice * ps[|ps| - 1].stockQuantity as real
  }

  /** The average of a total over a quantity, zero when there is no quantity. */
  function Average(value: real, qty: int): real {
    if qty == 0 then 0.0 else value / qty as real
  }

  /** The average times the quantity gives the total back; with no quantity the average is zero. */
  lemma AverageTimesQuantity(value: real, qty: int)
    ensures qty == 0 ==> Average(value, qty) == 0.0
    ensures qty != 0 ==> Average(value, qty) * qty as real == value
  {
  }

  /** The row of one category: an `int` quantity sum (wrapping), the value sum and their average. */
  function CategoryMetric(c: string, ps: seq<Product>): InventoryMetric {
    var totalQty := Wrap32(SumStock(ps));
    var totalValue := SumValue(ps);
    InventoryMetric(c, totalQty, totalValue, Average(totalValue, totalQty))
  }

  /** The per-category rows, in the order the grouping map is iterated. */
  function Rows(g: map<string, seq<Product>>, order: seq<string>): (rows: seq<InventoryMetric>)
    requires forall i :: 0 <= i < |order| ==> order[i] in g
    ensures |rows| == |order|
    ensures forall i :: 0 <= i < |order| ==> rows[i] == CategoryMetric(order[i], g[order[i]])
  {
    if order == [] then
      []
    else
      var front := order[..|order| - 1];
      var rows := Rows(g, front) + [CategoryMetric(order[|order| - 1], g[order[|order| - 1]])];
      assert forall i :: 0 <= i < |front| ==> front[i] == order[i];
      rows
  }

  function SumRowsQty(rows: seq<InventoryMetric>): int {
    if rows == [] then 0 else SumRowsQty(rows[..|rows| - 1]) + rows[|rows| - 1].totalProducts
  }

  function SumRowsValue(rows: seq<InventoryMetric>): real {
    if rows == [] then 0.0 else SumRowsValue(rows[..|rows| - 1]) + rows[|rows| - 1].totalValue
  }

  /** The trailing row: the rows' quantities summed in an `int`, their values, and the average. */
  function OverallMetric(rows: seq<InventoryMetric>): InventoryMetric {
    var qty := Wrap32(SumRowsQty(rows));
    var value := SumRowsValue(rows);
    InventoryMetric(OverallLabel, qty, value, Average(value, qty))
  }

  /** `order` enumerates the keys of `g`, each once. */
  ghost predicate Enumerates(order: seq<string>, g: map<string, seq<Product>>) {
    Distinct(order) && (forall i :: 0 <= i < |order| ==> order[i] in g) && (forall c :: c in g ==> c in order)
  }

  /** The per-category stock sums, added up over `order`. */
  function SumCategoryStocks(ps: seq<Product>, order: seq<string>): int {
    if order == [] then 0
    else SumCategoryStocks(ps, order[..|order| - 1]) + SumStock(OfCategory(ps, order[|order| - 1]))
  }

  /** Appending one product adds its stock to the one category of `order` it belongs to. */
  lemma {:induction false} SumCategoryStocksSnoc(ps: seq<Product>, x: Product, order: seq<string>)
    requires Distinct(order)
    ensures SumCategoryStocks(ps + [x], order) ==
      SumCategoryStocks(ps, order) + (if x.category in order then x.stockQuantity else 0)
  {
    if order != [] {
      var front := order[..|order| - 1];
      var c := order[|order| - 1];
      assert Distinct(front);
      SumCategoryStocksSnoc(ps, x, front);
      assert (ps + [x])[..|ps + [x]| - 1] == ps;
      assert OfCategory(ps + [x], c) == if x.category == c then OfCategory(ps, c) + [x] else OfCategory(ps, c);
      var withX := OfCategory(ps, c) + [x];
      assert withX[..|withX| - 1] == OfCategory(ps, c);
      assert x.category in order <==> x.category in front || x.category == c;
      assert x.category == c ==> x.category !in front;
    }
  }

  /** Summing the buckets over an enumeration of all categories gives the total stock. */
  lemma {:induction false} PartitionStock(ps: seq<Product>, order: seq<string>)
    requires Distinct(order)
    requires forall c :: c in CategoriesOf(ps) ==> c in order
    ensures SumCategoryStocks(ps, order) == SumStock(ps)
    decreases |ps|
  {
    if ps == [] {
      EmptyBuckets(order);
    } else {
      var front := ps[..|ps| - 1];
      var x := ps[|ps| - 1];
      assert ps == front + [x];
      assert CategoriesOf(front) <= CategoriesOf(ps) by {
        forall c | c in CategoriesOf(front) ensures c in CategoriesOf(ps) {
          var i :| 0 <= i < |front| && front[i].category == c;
          assert ps[i] == front[i];
        }
      }
      PartitionStock(front, order);
      SumCategoryStocksSnoc(front, x, order);
      assert x.category in CategoriesOf(ps) by {
        assert ps[|ps| - 1] == x;
      }
    }
  }

  lemma {:induction false} EmptyBuckets(order: seq<string>)
    ensures SumCategoryStocks([], order) == 0
  {
    if order != [] {
      EmptyBuckets(order[..|order| - 1]);
    }
  }

  /** Extending the category order adds one row at the end. */
  lemma RowsSnoc(g: map<string, seq<Product>>, order: seq<string>, c: string)
    requires forall i :: 0 <= i < |order| ==> order[i] in g
    requires c in g
    ensures Rows(g, order + [c]) == Rows(g, order) + [CategoryMetric(c, g[c])]
  {
    assert (order + [c])[..|order|] == order;
  }

  lemma SumRowsSnoc(rows: seq<InventoryMetric>, row: InventoryMetric)
    ensures SumRowsQty(rows + [row]) == SumRowsQty(rows) + row.totalProducts
    ensures SumRowsValue(rows + [row]) == SumRowsValue(rows) + row.totalValue
  {
    assert (rows + [row])[..|rows|] == rows;
  }

  /** One step of the metrics loop: the running `int` total and value stay the sums over the rows so far. */
  lemma AccumulateRow(rows: seq<InventoryMetric>, row: InventoryMetric, acc: int)
    requires acc == Wrap32(SumRowsQty(rows))
    ensures Wrap32(acc + row.totalProducts) == Wrap32(SumRowsQty(rows + [row]))
    ensures SumRowsValue(rows + [row]) == SumRowsValue(rows) + row.totalValue
  {
    SumRowsSnoc(rows, row);
    WrapAddLeft(SumRowsQty(rows), row.totalProducts);
  }

  /** Wrapping each row's sum before adding them up does not change the wrapped total. */
  lemma {:induction false} WrappedRowsSum(ps: seq<Product>, g: map<string, seq<Product>>, order: seq<string>)
    requires forall i :: 0 <= i < |order| ==> order[i] in g && g[order[i]] == OfCategory(ps, order[i])
    ensures Wrap32(SumRowsQty(Rows(g, order))) == Wrap32(SumCategoryStocks(ps, order))
  {
    if order != [] {
      var front := order[..|order| - 1];
      var c := order[|order| - 1];
      assert order == front + [c];
      WrappedRowsSum(ps, g, front);
      RowsSnoc(g, front, c);
      var x := SumStock(OfCategory(ps, c));
      SumRowsSnoc(Rows(g, front), CategoryMetric(c, g[c]));
      var a := SumRowsQty(Rows(g, front));
      var b := SumCategoryStocks(ps, front);
      assert SumRowsQty(Rows(g, order)) == a + Wrap32(x);
      assert SumCategoryStocks(ps, order) == b + x;
      WrapAddCongruent(a, b, x);
    }
  }

  /** Adding the same value, wrapped or not, to two sums that wrap alike. */
  lemma WrapAddCongruent(a: int, b: int, x: int)
    requires Wrap32(a) == Wrap32(b)
    ensures Wrap32(a + Wrap32(x)) == Wrap32(b + x)
  {
    WrapAddRight(a, x);
    WrapAddLeft(a, x);
    WrapAddLeft(b, x);
  }

  lemma WrapAddRight(a: int, b: int)
    ensures Wrap32(a + Wrap32(b)) == Wrap32(a + b)
  {
    WrapAddLeft(b, a);
    WrapAddLeft(Wrap32(b), a);
  }

  /**
   * The Overall row's quantity is the total stock of the in-stock products
   * (as an `int`, so modulo 2^32), whatever order the categories come in.
   */
  lemma OverallIsTotalStock(all: seq<Product>, order: seq<string>)
    requires Enumerates(order, GroupByCategory(InStockOnly(all)))
    ensures OverallMetric(Rows(GroupByCategory(InStockOnly(all)), order)).totalProducts == Wrap32(SumStock(InStockOnly(all)))
  {
    var ps := InStockOnly(all);
    var g := GroupByCategory(ps);
    GroupByCategoryBuckets(ps);
    WrappedRowsSum(ps, g, order);
    PartitionStock(ps, order);
  }

  /** Every product counted in a row is in stock, listed, and of that row's category. */
  lemma RowsCountOnlyInStock(all: seq<Product>)
    ensures var g := GroupByCategory(InStockOnly(all));
      forall c, p :: c in g && p in g[c] ==> p in all && !IsOutOfStock(p) && p.category == c
  {
    GroupByCategoryBuckets(InStockOnly(all));
  }

  /** When every true sum fits in an `int`, the Overall quantity is exact. */
  lemma OverallExact(all: seq<Product>, order: seq<string>)
    requires Enumerates(order, GroupByCategory(InStockOnly(all)))
    requires InInt32(SumStock(InStockOnly(all)))
    ensures OverallMetric(Rows(GroupByCategory(InStockOnly(all)), order)).totalProducts == SumStock(InStockOnly(all))
  {
    OverallIsTotalStock(all, order);
  }

  // ---------------------------------------------------------------- update

  /** The fields `updateProduct` copies; id and creation date stay, the update date becomes today. */
  function ApplyUpdate(existing: Product, updated: Product, today: Date): (r: Product)
    ensures r.id == existing.id && r.creationDate == existing.creationDate
    ensures r.name == updated.name && r.category == updated.category && r.unitPrice == updated.unitPrice
    ensures r.stockQuantity == updated.stockQuantity && r.expirationDate == updated.expirationDate
    ensures r.lastUpdatedDate == Some(today)
  {
    existing.(name := updated.name, category := updated.category, unitPrice := updated.unitPrice,
              stockQuantity := updated.stockQuantity, expirationDate := updated.expirationDate,
              lastUpdatedDate := Some(today))
  }

  /** Repeating the same update on the same day changes nothing more. */
  lemma ApplyUpdateIdempotent(existing: Product, updated: Product, today: Date)
    ensures ApplyUpdate(ApplyUpdate(existing, updated, today), updated, today) == ApplyUpdate(existing, updated, today)
  {
  }

  // ---------------------------------------------------------------- the service

  class ProductService {
    const repository: InMemoryProductRepository
    var nextId: int

    /** Every stored id was issued by this service: it lies in `[1, nextId)`. */
    ghost predicate Valid()
      reads this, repository
    {
      && repository.Valid()
      && 1 <= nextId <= Int32Max
      && forall k :: k in repository.storage ==> 1 <= k < nextId
    }

    /** The store holds fewer products than the ids issued so far, so its size is an `int`. */
    lemma StoreSize()
      requires Valid()
      ensures |repository.storage| < nextId
    {
      SubsetOfRangeSize(repository.storage.Keys, 1, nextId);
    }

    /** A service over an empty store, as the application context and the tests build it. */
    constructor (repository: InMemoryProductRepository)
      requires repository.Valid() && repository.storage == map[]
      ensures Valid()
      ensures this.repository == repository && nextId == 1
      ensures repository.storage == map[]
    {
      this.repository := repository;
      nextId := 1;
    }

    /**
     * `createProduct`: validation first, then the duplicate-name check; on
     * success the product takes the next id and today's dates and is stored.
     */
    method CreateProduct(product: Product, today: Date) returns (r: Result<Product, ServiceError>)
      requires Valid()
      requires nextId < Int32Max
      modifies this, repository
      ensures Valid()
      ensures repository.idGenerator == old(repository.idGenerator)
      ensures !IsValid(product, today) ==> r == Err(ConstraintViolation)
      ensures IsValid(product, today) && NameTaken(old(repository.storage), product.name) ==> r == Err(DuplicateName)
      ensures r.Err? ==> repository.storage == old(repository.storage) && nextId == old(nextId)
      ensures IsValid(product, today) && !NameTaken(old(repository.storage), product.name) ==>
        && r == Ok(product.(id := Some(old(nextId)), creationDate := Some(today), lastUpdatedDate := Some(today)))
        && old(nextId) !in old(repository.storage)
        && repository.storage == old(repository.storage)[old(nextId) := r.value]
        && nextId == old(nextId) + 1
    {
      if !IsValid(product, today) {
        return Err(ConstraintViolation);
      }
      var all := repository.FindAll();
      ListingNameTaken(repository.storage, all, product.name);
      var nameExists := AnyNameMatches(all, product.name);
      if nameExists {
        return Err(DuplicateName);
      }
      var saved := StoreNew(product, today);
      r := Ok(saved);
    }

    /** The tail of `createProduct`: take the next id, stamp both dates, save. */
    method StoreNew(product: Product, today: Date) returns (saved: Product)
      requires Valid()
      requires nextId < Int32Max
      modifies this, repository
      ensures Valid()
      ensures repository.idGenerator == old(repository.idGenerator)
      ensures saved == product.(id := Some(old(nextId)), creationDate := Some(today), lastUpdatedDate := Some(today))
      ensures old(nextId) !in old(repository.storage)
      ensures repository.storage == old(repository.storage)[old(nextId) := saved]
      ensures nextId == old(nextId) + 1
    {
      var p := product.(id := Some(nextId));
      nextId := nextId + 1;
      p := p.(creationDate := Some(today));
      p := p.(lastUpdatedDate := Some(today));
      saved := repository.Save(p);
    }

    /** `getAllProducts`: the store's listing. */
    method GetAllProducts() returns (r: seq<Product>)
      ensures IsListing(repository.storage, r)
    {
      r := repository.FindAll();
    }

    /** `getFilteredProducts`: the filter applied to the store's listing. */
    method GetFilteredProducts(name: Option<string>, categories: Option<seq<string>>, inStock: Option<bool>)
      returns (r: seq<Product>, ghost all: seq<Product>)
      ensures IsListing(repository.storage, all)
      ensures r == Filter(all, name, categories, inStock)
    {
      var products := repository.FindAll();
      all := products;
      r := Filter(products, name, categories, inStock);
    }

    /**
     * `updateProduct`: a missing id fails; otherwise five fields are copied,
     * the update date is stamped, and no name check is made.
     */
    method UpdateProduct(id: int, updatedProduct: Product, today: Date) returns (r: Result<Product, ServiceError>)
      requires Valid()
      modifies repository
      ensures Valid()
      ensures repository.idGenerator == old(repository.idGenerator)
      ensures id !in old(repository.storage) ==>
        r == Err(NotFound(id)) && repository.storage == old(repository.storage)
      ensures id in old(repository.storage) ==>
        && r == Ok(ApplyUpdate(old(repository.storage)[id], updatedProduct, today))
        && repository.storage == old(repository.storage)[id := r.value]
    {
      var existing := repository.FindById(id);
      if existing.None? {
        return Err(NotFound(id));
      }
      var p := ApplyUpdate(existing.value, updatedProduct, today);
      var saved := repository.Save(p);
      r := Ok(saved);
    }

    /** `deleteById`: a missing id fails; otherwise exactly that entry is removed. */
    method DeleteById(id: int) returns (r: Result<(), ServiceError>)
      requires Valid()
      modifies repository
      ensures Valid()
      ensures repository.idGenerator == old(repository.idGenerator)
      ensures id !in old(repository.storage) ==>
        r == Err(NotFound(id)) && repository.storage == old(repository.storage)
      ensures id in old(repository.storage) ==>
        r == Ok(()) && repository.storage == old(repository.storage) - {id}
    {
      var present := repository.ExistsById(id);
      if !present {
        return Err(NotFound(id));
      }
      repository.DeleteById(id);
      r := Ok(());
    }

    /** `getPaginatedProducts`: pagination of the store's listing. */
    method GetPaginatedProducts(page: Int32, size: Int32)
      returns (r: Result<PageResponse, ServiceError>, ghost all: seq<Product>)
      requires Valid()
      ensures IsListing(repository.storage, all)
      ensures |all| <= Int32Max
      ensures r == Paginate(all, page, size)
    {
      var allProducts := repository.FindAll();
      all := allProducts;
      ListingSize(repository.storage, allProducts);
      StoreSize();
      r := Paginate(allProducts, page, size);
    }

    /**
     * `getInventoryMetrics`: the in-stock products grouped by category, then
     * one row per group and the Overall row.
     */
    method GetInventoryMetrics() returns (metrics: seq<InventoryMetric>, ghost all: seq<Product>, ghost order: seq<string>)
      ensures IsListing(repository.storage, all)
      ensures Enumerates(order, GroupByCategory(InStockOnly(all)))
      ensures metrics == Rows(GroupByCategory(InStockOnly(all)), order) + [OverallMetric(Rows(GroupByCategory(InStockOnly(all)), order))]
    {
      var listed := repository.FindAll();
      all := listed;
      var grouped := GroupByCategory(InStockOnly(listed));
      metrics, order := SummarizeGroups(grouped);
    }
  }

  /**
   * The loop of `getInventoryMetrics`: one row per group, in the map's
   * iteration order, while an `int` and a `double` accumulate the totals for
   * the Overall row appended at the end.
   */
  method SummarizeGroups(grouped: map<string, seq<Product>>) returns (metrics: seq<InventoryMetric>, ghost order: seq<string>)
    ensures Enumerates(order, grouped)
    ensures metrics == Rows(grouped, order) + [OverallMetric(Rows(grouped, order))]
  {
    metrics := [];
    order := [];
    var overallTotalProducts := 0;
    var overallTotalValue := 0.0;
    var pending := grouped.Keys;
    SummarizedStart(grouped);
    while pending != {}
      invariant Summarized(grouped, pending, order, metrics, overallTotalProducts, overallTotalValue)
      decreases pending
    {
      // extensionality: a set that is not empty has a member to pick
      assert (forall x :: x !in pending) ==> pending == {};
      var category :| category in pending;
      var products := grouped[category];
      var totalQty := Wrap32(SumStock(products));
      var totalValue := SumValue(products);
      var avgPrice := Average(totalValue, totalQty);
      var row := InventoryMetric(category, totalQty, totalValue, avgPrice);
      assert row == CategoryMetric(category, grouped[category]);
      SummarizedStep(grouped, pending, order, metrics, overallTotalProducts, overallTotalValue, category);
      metrics := metrics + [row];
      order := order + [category];
      overallTotalProducts := Wrap32(overallTotalProducts + totalQty);
      overallTotalValue := overallTotalValue + totalValue;
      pending := pending - {category};
    }
    SummarizedDone(grouped, order, metrics, overallTotalProducts, overallTotalValue);
    var overallAvgPrice := Average(overallTotalValue, overallTotalProducts);
    metrics := metrics + [InventoryMetric(OverallLabel, overallTotalProducts, overallTotalValue, overallAvgPrice)];
  }

  /** `order` lists the visited keys of `grouped` once each, and `pending` holds the rest. */
  ghost predicate Visited(grouped: map<string, seq<Product>>, pending: set<string>, order: seq<string>) {
    && pending <= grouped.Keys
    && Distinct(order)
    && (forall i :: 0 <= i < |order| ==> order[i] in grouped && order[i] !in pending)
    && (forall c :: c in grouped ==> c in pending || c in order)
  }

  /**
   * The loop invariant of `SummarizeGroups`: the visited keys, their rows,
   * and the two accumulators holding the Overall row's sums over those rows.
   */
  ghost predicate Summarized(grouped: map<string, seq<Product>>, pending: set<string>, order: seq<string>,
                             metrics: seq<InventoryMetric>, qty: int, value: real)
  {
    && Visited(grouped, pending, order)
    && metrics == Rows(grouped, order)
    && qty == Wrap32(SumRowsQty(metrics))
    && value == SumRowsValue(metrics)
  }

  /** Visiting one more pending key. */
  lemma VisitedStep(grouped: map<string, seq<Product>>, pending: set<string>, order: seq<string>, c: string)
    requires Visited(grouped, pending, order) && c in pending
    ensures Visited(grouped, pending - {c}, order + [c])
  {
    var next := order + [c];
    assert forall i :: 0 <= i < |order| ==> next[i] == order[i];
    assert next[|order|] == c;
  }

  lemma SummarizedStart(grouped: map<string, seq<Product>>)
    ensures Summarized(grouped, grouped.Keys, [], [], 0, 0.0)
  {
  }

  lemma SummarizedStep(grouped: map<string, seq<Product>>, pending: set<string>, order: seq<string>,
                       metrics: seq<InventoryMetric>, qty: int, value: real, c: string)
    requires Summarized(grouped, pending, order, metrics, qty, value)
    requires c in pending
    ensures var row := CategoryMetric(c, grouped[c]);
      Summarized(grouped, pending - {c}, order + [c], metrics + [row],
                 Wrap32(qty + row.totalProducts), value + row.totalValue)
  {
    var row := CategoryMetric(c, grouped[c]);
    VisitedStep(grouped, pending, order, c);
    RowsSnoc(grouped, order, c);
    AccumulateRow(metrics, row, qty);
  }

  lemma SummarizedDone(grouped: map<string, seq<Product>>, order: seq<string>,
                       metrics: seq<InventoryMetric>, qty: int, value: real)
    requires Summarized(grouped, {}, order, metrics, qty, value)
    ensures Enumerates(order, grouped)
    ensures OverallMetric(metrics) == InventoryMetric(OverallLabel, qty, value, Average(value, qty))
  {
  }

  /** The service tests as a client sees them: sequential ids and a rejected duplicate name. */
  method CreateScenario(first: Product, second: Product, today: Date)
    requires IsValid(first, today) && IsValid(second, today)
    requires !EqualsIgnoreCase(first.name, second.name)
  {
    var repo := new InMemoryProductRepository();
    var service := new ProductService(repo);
    var r1 := service.CreateProduct(first, today);
    assert !NameTaken(map[], first.name);
    assert r1.Ok? && r1.value.id == Some(1);
    assert repo.storage == map[1 := r1.value];
    SingleStoreNameTaken(repo.storage, 1, r1.value, second.name);
    var r2 := service.CreateProduct(second, today);
    assert r2.Ok? && r2.value.id == Some(2);
    assert NameTaken(repo.storage, second.name) by {
      assert repo.storage[2].name == second.name;
    }
    var again := service.CreateProduct(second, today);
    assert again == Err(DuplicateName);
  }

  /** Update keeps the id and takes the new fields; an unknown id is reported missing. */
  method UpdateScenario(leche: Product, changes: Product, today: Date)
    requires IsValid(leche, today)
  {
    var repo := new InMemoryProductRepository();
    var service := new ProductService(repo);
    assert !NameTaken(map[], leche.name);
    var r1 := service.CreateProduct(leche, today);
    assert r1.Ok?;
    var u := service.UpdateProduct(1, changes, today);
    assert u.Ok? && u.value.id == Some(1) && u.value.name == changes.name;
    var missing := service.UpdateProduct(7, changes, today);
    assert missing == Err(NotFound(7));
  }

  /** Delete removes the entry once and then reports it missing. */
  method DeleteScenario(leche: Product, today: Date)
    requires IsValid(leche, today)
  {
    var repo := new InMemoryProductRepository();
    var service := new ProductService(repo);
    assert !NameTaken(map[], leche.name);
    var r1 := service.CreateProduct(leche, today);
    assert r1.Ok?;
    var d := service.DeleteById(1);
    assert d.Ok? && 1 !in repo.storage;
    var d2 := service.DeleteById(1);
    assert d2 == Err(NotFound(1));
  }
}
