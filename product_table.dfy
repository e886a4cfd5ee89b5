/**
 * The product table: stock and expiration colours, sort headers, and the
 * rows with the events their controls report.
 */
module ProductTable {
  import opened Wrappers
  import opened Js
  import opened UiTypes

  // ---------------------------------------------------------------- colours

  /** How urgent a colour is: red 2, orange (or yellow) 1, nothing 0. */
  function Severity(color: string): nat {
    if color == "red" || color == RedBackground then 2
    else if color == "orange" || color == YellowBackground then 1
    else 0
  }

  /** `renderStockStyle`: red below 5, orange below 10, no colour otherwise (also for NaN). */
  function StockStyle(quantity: Value): (color: string)
    ensures color == "red" <==> LessThan(ToNumber(quantity), 5.0)
    ensures color == "orange" <==> !LessThan(ToNumber(quantity), 5.0) && LessThan(ToNumber(quantity), 10.0)
    ensures color == "" <==> !LessThan(ToNumber(quantity), 10.0)
  {
    var q := ToNumber(quantity);
    if LessThan(q, 5.0) then "red"
    else if LessThan(q, 10.0) then "orange"
    else ""
  }

  /** Lower stock is never shown as less urgent. */
  lemma StockStyleMonotone(a: real, b: real)
    requires a <= b
    ensures Severity(StockStyle(Num(Finite(a)))) >= Severity(StockStyle(Num(Finite(b))))
  {
  }

  /** Stock that is not a number gets no colour, like plentiful stock. */
  lemma StockStyleNaN()
    ensures StockStyle(Num(NaN)) == "" && StockStyle(Str("abc")) == ""
  {
    assert !AllDigits("abc") by {
      assert !IsDigit("abc"[0]);
    }
  }

  const RedBackground: string := "#ffe6e6"
  const YellowBackground: string := "#fff9c4"
  const GreenBackground: string := "#e8f5e9"

  /**
   * `renderExpirationColor`: no colour without a date (absent or empty);
   * otherwise by `diffDays`, the days from now to the date (NaN for a date
   * that does not parse): red below 7, yellow below 14, green otherwise.
   */
  function ExpirationColor(exp: Option<string>, diffDays: Number): (color: string)
    ensures (exp.None? || exp == Some("")) ==> color == ""
    ensures exp.Some? && exp.value != "" ==>
      && (color == RedBackground <==> LessThan(diffDays, 7.0))
      && (color == YellowBackground <==> !LessThan(diffDays, 7.0) && LessThan(diffDays, 14.0))
      && (color == GreenBackground <==> !LessThan(diffDays, 14.0))
  {
    if exp.None? || exp.value == "" then ""
    else if LessThan(diffDays, 7.0) then RedBackground
    else if LessThan(diffDays, 14.0) then YellowBackground
    else GreenBackground
  }

  /** A nearer expiration is never shown as less urgent. */
  lemma ExpirationColorMonotone(exp: string, a: real, b: real)
    requires exp != "" && a <= b
    ensures Severity(ExpirationColor(Some(exp), Finite(a))) >= Severity(ExpirationColor(Some(exp), Finite(b)))
  {
  }

  /** A date that does not parse is shown green, as if it were far away. */
  lemma ExpirationUnparsedIsGreen(exp: string)
    requires exp != ""
    ensures ExpirationColor(Some(exp), NaN) == GreenBackground
  {
  }

  // ---------------------------------------------------------------- headers

  /** The sortable columns, in header order. */
  const Columns: seq<string> := ["category", "name", "unitPrice", "expirationDate", "stockQuantity"]

  /** `columnLabels[column] || column`. */
  function ColumnLabel(column: string): (caption: string)
    ensures column !in Columns ==> caption == column
    ensures column in Columns ==> caption != "" && caption != column
  {
    if column == "category" then "Category"
    else if column == "name" then "Name"
    else if column == "unitPrice" then "Price"
    else if column == "expirationDate" then "Expiration Date"
    else if column == "stockQuantity" then "Stock"
    else column
  }

  /** The header labels tell the columns apart. */
  lemma ColumnLabelsDistinct()
    ensures forall i, j :: 0 <= i < j < |Columns| ==> ColumnLabel(Columns[i]) != ColumnLabel(Columns[j])
  {
  }

  /** What a `TableSortLabel` shows. */
  datatype SortLabel = SortLabel(active: bool, direction: Direction, caption: string)

  /** `renderSortLabel`: the primary sort wins over the secondary one for the same column. */
  function RenderSortLabel(column: string, sortBy1: string, direction1: Direction, sortBy2: string, direction2: Direction): (r: SortLabel)
    ensures r.active <==> column == sortBy1 || column == sortBy2
    ensures column == sortBy1 ==> r.direction == direction1
    ensures column != sortBy1 && column == sortBy2 ==> r.direction == direction2
    ensures !r.active ==> r.direction == Asc
    ensures r.caption == ColumnLabel(column)
  {
    var (active, direction) :=
      if sortBy1 == column then (true, direction1)
      else if sortBy2 == column then (true, direction2)
      else (false, Asc);
    SortLabel(active, direction, ColumnLabel(column))
  }

  /** The five sortable headers. */
  function Headers(sortBy1: string, direction1: Direction, sortBy2: string, direction2: Direction): (hs: seq<SortLabel>)
    ensures |hs| == |Columns|
    ensures forall i :: 0 <= i < |Columns| ==> hs[i] == RenderSortLabel(Columns[i], sortBy1, direction1, sortBy2, direction2)
  {
    seq(|Columns|, i requires 0 <= i < |Columns| => RenderSortLabel(Columns[i], sortBy1, direction1, sortBy2, direction2))
  }

  /** At most two headers are active, and both sort keys light up their own column when they name one. */
  lemma AtMostTwoActive(sortBy1: string, direction1: Direction, sortBy2: string, direction2: Direction)
    ensures var hs := Headers(sortBy1, direction1, sortBy2, direction2);
      && |set i | 0 <= i < |hs| && hs[i].active| <= 2
      && (forall i :: 0 <= i < |hs| && Columns[i] == sortBy1 ==> hs[i].active && hs[i].direction == direction1)
  {
    var hs := Headers(sortBy1, direction1, sortBy2, direction2);
    var active := set i | 0 <= i < |hs| && hs[i].active;
    var i1 := set i | 0 <= i < |Columns| && Columns[i] == sortBy1;
    var i2 := set i | 0 <= i < |Columns| && Columns[i] == sortBy2;
    assert active <= i1 + i2;
    ColumnMatchesAtMostOne(sortBy1);
    ColumnMatchesAtMostOne(sortBy2);
    assert |i1 + i2| <= |i1| + |i2|;
    SubsetSize(active, i1 + i2);
  }

  lemma ColumnMatchesAtMostOne(column: string)
    ensures |set i | 0 <= i < |Columns| && Columns[i] == column| <= 1
  {
    var s := set i | 0 <= i < |Columns| && Columns[i] == column;
    if exists k :: k in s {
      var k :| k in s;
      assert s == {k};
    } else {
      assert s == {};
    }
  }

  lemma SubsetSize(a: set<int>, b: set<int>)
    requires a <= b
    ensures |a| <= |b|
  {
    assert b == a + (b - a);
  }

  // ---------------------------------------------------------------- rows

  /** What one row shows. */
  datatype Row = Row(
    background: string,
    checked: bool,     // the out-of-stock checkbox
    struck: bool,      // the name is drawn with a line through it
    nameColor: string,
    category: string,
    name: string,
    expirationText: string,
    stock: Value,
    stockColor: string)

  /** `p.stockQuantity === 0`: strict, so the text "0" does not count. */
  predicate RowOutOfStock(p: UiProduct) {
    p.stockQuantity == Num(Finite(0.0))
  }

  /** One row of `products.map`, given the days until the product's expiration date. */
  function RenderRow(p: UiProduct, diffDays: Number): (row: Row)
    ensures row.checked <==> RowOutOfStock(p)
    ensures row.struck <==> RowOutOfStock(p)
    ensures row.nameColor == (if RowOutOfStock(p) then "gray" else "inherit")
    ensures row.name == p.name && row.category == p.category && row.stock == p.stockQuantity
    ensures row.background == ExpirationColor(p.expirationDate, diffDays)
    ensures row.stockColor == StockStyle(p.stockQuantity)
    ensures row.expirationText == (if p.expirationDate.Some? then p.expirationDate.value else "—")
  {
    var isOutOfStock := p.stockQuantity == Num(Finite(0.0));
    Row(
      ExpirationColor(p.expirationDate, diffDays),
      isOutOfStock,
      isOutOfStock,
      if isOutOfStock then "gray" else "inherit",
      p.category,
      p.name,
      if p.expirationDate.Some? then p.expirationDate.value else "—",
      p.stockQuantity,
      StockStyle(p.stockQuantity))
  }

  /** The table body: one row per product, in order. */
  function RenderRows(products: seq<UiProduct>, diffDays: seq<Number>): (rows: seq<Row>)
    requires |diffDays| == |products|
    ensures |rows| == |products|
    ensures forall i :: 0 <= i < |products| ==> rows[i] == RenderRow(products[i], diffDays[i])
  {
    seq(|products|, i requires 0 <= i < |products| => RenderRow(products[i], diffDays[i]))
  }

  /** A row that is out of stock is always drawn red in the stock column. */
  lemma OutOfStockRowIsRed(p: UiProduct, diffDays: Number)
    requires RowOutOfStock(p)
    ensures RenderRow(p, diffDays).stockColor == "red" && RenderRow(p, diffDays).checked
  {
  }

  // ---------------------------------------------------------------- events

  /** What the table reports to its parent. */
  datatype TableEvent =
    | Edit(product: UiProduct)
    | Delete(id: Number)
    | ToggleStock(id: Number, checked: bool)
    | SortChange(column: string)

  /** A click on a control of the table. */
  datatype Control =
    | EditButton(row: nat)
    | DeleteButton(row: nat)
    | StockCheckbox(row: nat)
    | Header(column: nat)

  /**
   * The event a click reports: row controls name their own product
   * (`Number(p.id)`), the checkbox reports the state it flips to, a header its column.
   */
  function Click(products: seq<UiProduct>, control: Control): (e: Option<TableEvent>)
    ensures control.EditButton? && control.row < |products| ==> e == Some(Edit(products[control.row]))
    ensures control.DeleteButton? && control.row < |products| ==> e == Some(Delete(ToNumber(products[control.row].id)))
    ensures control.StockCheckbox? && control.row < |products| ==>
      e == Some(ToggleStock(ToNumber(products[control.row].id), !RowOutOfStock(products[control.row])))
    ensures control.Header? && control.column < |Columns| ==> e == Some(SortChange(Columns[control.column]))
    ensures e.None? <==> (if control.Header? then control.column >= |Columns| else control.row >= |products|)
  {
    match control
    case EditButton(r) => if r < |products| then Some(Edit(products[r])) else None
    case DeleteButton(r) => if r < |products| then Some(Delete(ToNumber(products[r].id))) else None
    case StockCheckbox(r) =>
      if r < |products| then Some(ToggleStock(ToNumber(products[r].id), !(products[r].stockQuantity == Num(Finite(0.0))))) else None
    case Header(c) => if c < |Columns| then Some(SortChange(Columns[c])) else None
  }

  /** A product whose id came from an integer reports that integer from its delete and checkbox controls. */
  lemma RowEventsCarryId(products: seq<UiProduct>, r: nat, n: int)
    requires r < |products| && products[r].id == Str(IntToString(n))
    ensures Click(products, DeleteButton(r)) == Some(Delete(Finite(n as real)))
    ensures Click(products, StockCheckbox(r)).value.id == Finite(n as real)
  {
    IntToStringRoundTrip(n);
  }

  /** The component tests' table: two products, header by header. */
  method TableScenario(apple: UiProduct, milk: UiProduct)
    requires apple.id == Num(Finite(1.0)) && apple.stockQuantity == Num(Finite(3.0))
    requires milk.id == Num(Finite(2.0)) && milk.stockQuantity == Num(Finite(0.0))
  {
    var products := [apple, milk];
    var rows := RenderRows(products, [NaN, NaN]);
    assert |rows| == 2 && !rows[0].checked && rows[1].checked;
    assert Click(products, EditButton(0)) == Some(Edit(apple));
    assert Click(products, DeleteButton(1)) == Some(Delete(Finite(2.0)));
    assert Click(products, StockCheckbox(0)) == Some(ToggleStock(Finite(1.0), true));
    assert Click(products, Header(0)) == Some(SortChange("category"));
    var hs := Headers("name", Asc, "", Asc);
    assert hs[1].active && !hs[0].active;
  }
}
