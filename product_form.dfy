/**
 * The create/edit dialog: the product being edited, the text of a manually
 * typed category, the handlers that update them, the save-disabled rule and
 * the product handed to `onSave`.
 */
module ProductForm {
  import opened Wrappers
  import opened Js
  import opened UiTypes
  import ProductModel

  /** The category option that asks for a manually typed category. */
  const CustomOption := "custom"

  /** The empty form: id 0, empty texts, zero stock and price, not out of stock. */
  const DefaultForm := UiProduct(Num(Finite(0.0)), "", "", Num(Finite(0.0)), Num(Finite(0.0)),
                                 Some(""), None, None, Some(false))

  /** The text inputs that share `handleInputChange`, by their `name` attribute. */
  datatype InputField = NameInput | StockInput | PriceInput | ExpirationInput

  /** The form after the input `field` reports `value`: that field holds the raw text, nothing else moves. */
  function WithInput(form: UiProduct, field: InputField, value: string): (r: UiProduct)
    ensures r.name == (if field == NameInput then value else form.name)
    ensures r.stockQuantity == (if field == StockInput then Str(value) else form.stockQuantity)
    ensures r.unitPrice == (if field == PriceInput then Str(value) else form.unitPrice)
    ensures r.expirationDate == (if field == ExpirationInput then Some(value) else form.expirationDate)
    ensures r.id == form.id && r.category == form.category && r.creationDate == form.creationDate
    ensures r.lastUpdatedDate == form.lastUpdatedDate && r.outOfStock == form.outOfStock
  {
    match field
    case NameInput => form.(name := value)
    case StockInput => form.(stockQuantity := Str(value))
    case PriceInput => form.(unitPrice := Str(value))
    case ExpirationInput => form.(expirationDate := Some(value))
  }

  /**
   * The save button's `disabled` rule: an empty name or category, or a price
   * or stock that compares below zero (a text that is not a number never does).
   */
  predicate SaveDisabled(form: UiProduct) {
    || form.name == ""
    || form.category == ""
    || LessThan(ToNumber(form.unitPrice), 0.0)
    || LessThan(ToNumber(form.stockQuantity), 0.0)
  }

  /** What `handleSave` emits: the form, with the custom option replaced by the typed category. */
  function Resolved(form: UiProduct, customCategory: string): (p: UiProduct)
    ensures form.category == CustomOption ==> p.category == customCategory
    ensures form.category != CustomOption ==> p == form
    ensures p.(category := form.category) == form
  {
    if form.category == CustomOption then form.(category := customCategory) else form
  }

  /** The empty form cannot be saved. */
  lemma DefaultFormDisabled()
    ensures SaveDisabled(DefaultForm)
  {
  }

  /**
   * An enabled save emits a named product whose price and stock, when they are
   * numbers, are not negative; its category is non-empty unless it came from
   * the custom text.
   */
  lemma EnabledSaveEmits(form: UiProduct, customCategory: string)
    requires !SaveDisabled(form)
    ensures Resolved(form, customCategory).name != ""
    ensures form.category != CustomOption ==> Resolved(form, customCategory).category != ""
    ensures ToNumber(Resolved(form, customCategory).unitPrice).Finite? ==>
              ToNumber(Resolved(form, customCategory).unitPrice).value >= 0.0
    ensures ToNumber(Resolved(form, customCategory).stockQuantity).Finite? ==>
              ToNumber(Resolved(form, customCategory).stockQuantity).value >= 0.0
  {
  }

  /**
   * With the custom option chosen and nothing typed, save stays enabled and
   * emits an empty category, which the backend's category constraint rejects.
   */
  lemma EmptyCustomCategoryEmitted(form: UiProduct)
    requires form.name != "" && form.category == CustomOption
    requires !LessThan(ToNumber(form.unitPrice), 0.0) && !LessThan(ToNumber(form.stockQuantity), 0.0)
    ensures !SaveDisabled(form)
    ensures Resolved(form, "").category == ""
    ensures !ProductModel.CategoryValid(Resolved(form, "").category)
  {
    assert !ProductModel.NotBlank("");
  }

  /** A price typed as text that is not a number never disables save. */
  lemma NonNumericPriceKeepsSaveEnabled(form: UiProduct, text: string)
    requires form.name != "" && form.category != "" && !LessThan(ToNumber(form.stockQuantity), 0.0)
    requires ToNumber(Str(text)).NaN?
    ensures !SaveDisabled(WithInput(form, PriceInput, text))
  {
  }

  class ProductFormDialog {
    var form: UiProduct
    var customCategory: string

    /** The initial state. */
    constructor ()
      ensures form == DefaultForm && customCategory == ""
    {
      form := DefaultForm;
      customCategory := "";
    }

    /** `handleInputChange`: store the raw text in the named field. */
    method HandleInputChange(field: InputField, value: string)
      modifies this
      ensures form == WithInput(old(form), field, value)
      ensures customCategory == old(customCategory)
    {
      form := WithInput(form, field, value);
    }

    /** `handleCategoryChange`: store the choice; any choice but the custom option clears the typed category. */
    method HandleCategoryChange(value: string)
      modifies this
      ensures form == old(form).(category := value)
      ensures customCategory == if value != CustomOption then "" else old(customCategory)
    {
      if value != CustomOption {
        customCategory := "";
      }
      form := form.(category := value);
    }

    /** The custom category input's `onChange`. */
    method HandleCustomCategoryChange(value: string)
      modifies this
      ensures customCategory == value && form == old(form)
    {
      customCategory := value;
    }

    /** The reset effect: load the given product, or return to the defaults and clear the typed category. */
    method Reset(product: Option<UiProduct>)
      modifies this
      ensures product.Some? ==> form == product.value && customCategory == old(customCategory)
      ensures product.None? ==> form == DefaultForm && customCategory == ""
    {
      if product.Some? {
        form := product.value;
      } else {
        form := DefaultForm;
        customCategory := "";
      }
    }

    /** Whether the save button is enabled now. */
    method CanSave() returns (enabled: bool)
      ensures enabled <==> !SaveDisabled(form)
    {
      enabled := !(form.name == "" || form.category == ""
                   || LessThan(ToNumber(form.unitPrice), 0.0) || LessThan(ToNumber(form.stockQuantity), 0.0));
    }

    /** `handleSave`: the product passed to `onSave`; the state is untouched. */
    method HandleSave() returns (p: UiProduct)
      ensures p == Resolved(form, customCategory)
    {
      var category := if form.category == CustomOption then customCategory else form.category;
      p := form.(category := category);
    }
  }

  /** The numbers the dialog tests type read back as their values. */
  lemma TypedNumbers()
    ensures ToNumber(Str("10")) == Finite(10.0) && ToNumber(Str("5")) == Finite(5.0)
  {
    assert NatToString(1) == "1";
    assert IntToString(10) == "10";
    IntToStringRoundTrip(10);
    IntToStringRoundTrip(5);
  }

  /** The dialog tests: the empty form cannot be saved; a filled form with an existing category saves what was typed. */
  method ExistingCategoryScenario() {
    var dialog := new ProductFormDialog();
    var enabled := dialog.CanSave();
    assert !enabled by {
      DefaultFormDisabled();
    }
    dialog.HandleInputChange(NameInput, "Test Product");
    dialog.HandleCategoryChange("Snacks");
    dialog.HandleInputChange(StockInput, "10");
    dialog.HandleInputChange(PriceInput, "5");
    dialog.HandleInputChange(ExpirationInput, "2025-12-31");
    TypedNumbers();
    enabled := dialog.CanSave();
    assert enabled;
    var saved := dialog.HandleSave();
    assert saved.name == "Test Product" && saved.category == "Snacks";
    assert saved.stockQuantity == Str("10") && saved.unitPrice == Str("5");
    assert saved.expirationDate == Some("2025-12-31");
  }

  /** The dialog test with the custom option: the typed category is what gets saved. */
  method CustomCategoryScenario() {
    var dialog := new ProductFormDialog();
    dialog.HandleCategoryChange(CustomOption);
    dialog.HandleCustomCategoryChange("Dairy");
    dialog.HandleInputChange(NameInput, "Milk");
    dialog.HandleInputChange(StockInput, "20");
    dialog.HandleInputChange(PriceInput, "8");
    dialog.HandleInputChange(ExpirationInput, "2025-11-01");
    var saved := dialog.HandleSave();
    assert saved.name == "Milk" && saved.category == "Dairy";
    assert saved.stockQuantity == Str("20") && saved.unitPrice == Str("8");
    assert saved.expirationDate == Some("2025-11-01");
  }
}
