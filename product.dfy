/**
 * The backend product record and the bean-validation constraints declared on
 * its fields, read as a validity predicate.
 */
module ProductModel {
  import opened Wrappers
  import opened Text
  import opened JavaInt

  /** A calendar date, as its day number (what `LocalDate.toEpochDay` gives). */
  type Date = int

  /**
   * A product. The id is `null` (None) until the product is stored; the price
   * is the Java `double` read as a real number.
   */
  datatype Product = Product(
    id: Option<int>,
    name: string,
    category: string,
    unitPrice: real,
    expirationDate: Option<Date>,
    stockQuantity: Int32,
    creationDate: Option<Date>,
    lastUpdatedDate: Option<Date>)

  /** The derived `outOfStock` flag. */
  predicate IsOutOfStock(p: Product) {
    p.stockQuantity == 0
  }

  const MaxNameLength: nat := 120

  /** `@NotBlank` as Hibernate Validator checks it: something is left after `trim()`. */
  predicate NotBlank(s: string) {
    Trim(s) != []
  }

  /** `@NotBlank` and `@Size(max = 120)`, the size counted in UTF-16 code units as `String.length()` does. */
  predicate NameValid(name: string) {
    NotBlank(name) && Utf16Length(name) <= MaxNameLength
  }

  predicate CategoryValid(category: string) {
    NotBlank(category)
  }

  predicate PriceValid(unitPrice: real) {
    unitPrice >= 0.0
  }

  predicate StockValid(stockQuantity: int) {
    stockQuantity >= 0
  }

  /** `@FutureOrPresent`: an absent date passes; a present one is today or later. */
  predicate ExpirationValid(expirationDate: Option<Date>, today: Date) {
    expirationDate.None? || expirationDate.value >= today
  }

  /** The product passes every constraint declared on its fields, checked on `today`. */
  predicate IsValid(p: Product, today: Date) {
    && NameValid(p.name)
    && CategoryValid(p.category)
    && PriceValid(p.unitPrice)
    && StockValid(p.stockQuantity)
    && ExpirationValid(p.expirationDate, today)
  }

  /** A name or category is blank exactly when it holds no character above U+0020. */
  lemma NotBlankIffVisibleChar(s: string)
    ensures NotBlank(s) <==> exists i :: 0 <= i < |s| && !Trimmable(s[i])
  {
  }

  /**
   * A valid name has between 1 and 120 UTF-16 code units, so at most 120
   * characters and at most 60 of them above U+FFFF, and at least one visible character.
   */
  lemma ValidNameShape(name: string)
    requires NameValid(name)
    ensures 1 <= |name| <= Utf16Length(name) <= MaxNameLength
    ensures (forall i :: 0 <= i < |name| ==> Astral(name[i])) ==> |name| <= MaxNameLength / 2
    ensures exists i :: 0 <= i < |name| && !Trimmable(name[i])
  {
    NotBlankIffVisibleChar(name);
    Utf16LengthBounds(name);
  }

  /** A name of 61 emoji is 122 code units long, so `@Size(max = 120)` rejects it. */
  lemma EmojiNameTooLong(name: string)
    requires |name| == 61 && forall i :: 0 <= i < |name| ==> name[i] == '\U{1F600}'
    ensures !NameValid(name)
  {
    Utf16LengthBounds(name);
  }

  /** For a valid product, being out of stock is the same as having no positive stock. */
  lemma ValidOutOfStockIffNoStock(p: Product, today: Date)
    requires IsValid(p, today)
    ensures IsOutOfStock(p) <==> p.stockQuantity <= 0
  {
  }

  /** The check on a stored date only gets stricter as days pass. */
  lemma ExpirationValidEarlier(expirationDate: Option<Date>, today: Date, earlier: Date)
    requires ExpirationValid(expirationDate, today) && earlier <= today
    ensures ExpirationValid(expirationDate, earlier)
  {
  }
}
