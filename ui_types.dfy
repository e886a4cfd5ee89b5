/** The frontend's product record and sort direction (`types/product.ts`). */
module UiTypes {
  import opened Wrappers
  import opened Js

  /** A sort direction. */
  datatype Direction = Asc | Desc

  function DirectionName(d: Direction): (s: string)
    ensures s == "asc" <==> d == Asc
    ensures s == "desc" <==> d == Desc
  {
    match d
    case Asc => "asc"
    case Desc => "desc"
  }

  /**
   * A product as the frontend holds it. Ids, prices and stock arrive as JSON
   * numbers but form inputs store the typed text, so each is a `Value`;
   * optional fields are `undefined` when absent.
   */
  datatype UiProduct = UiProduct(
    id: Value,
    name: string,
    category: string,
    unitPrice: Value,
    stockQuantity: Value,
    expirationDate: Option<string>,
    creationDate: Option<string>,
    lastUpdatedDate: Option<string>,
    outOfStock: Option<bool>)
}
