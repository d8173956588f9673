/** The product form: the price and stock fields refuse any edit that does
    not look like a number, the input is checked field by field before a
    save, and a save that passes the checks asks for a new product or an
    update of the one being edited. */
module ProductFormView {
  import opened Wrappers
  import opened Text
  import opened Formatter
  import opened Products

  const INT_MAX: int := 0x7FFF_FFFF

  const MSG_BARCODE_REQUIRED: string := "El código de barras es obligatorio"
  const MSG_NAME_REQUIRED: string := "El nombre del producto es obligatorio"
  const MSG_PRICE_NOT_POSITIVE: string := "El precio debe ser mayor que cero"
  const MSG_PRICE_INVALID: string := "El precio debe ser un número válido"
  const MSG_STOCK_NEGATIVE: string := "El stock no puede ser negativo"
  const MSG_STOCK_INVALID: string := "El stock debe ser un número entero válido"

  /** The price field's pattern \d*(\.\d*)?: digits, then optionally a point
      followed by digits. */
  predicate PriceTextOk(t: string) {
    var k := DotIndex(t);
    AllDigits(t[..k]) && (k == |t| || AllDigits(t[k + 1..]))
  }

  /** The stock field's pattern \d*. */
  predicate StockTextOk(t: string) {
    AllDigits(t)
  }

  /** Digits and points are never trimmed, so a text the filters let
      through is its own trim. */
  lemma FilteredTextUntrimmed(t: string)
    requires AllDecimalChars(t)
    ensures Trim(t) == t
  {
    if t != [] {
      assert IsDecimalChar(t[0]) && IsDecimalChar(t[|t| - 1]);
    }
    TrimOfTrimmed(t);
  }

  /** A text the price filter lets through is made of digits and at most
      one point. */
  lemma PriceTextDecimalChars(t: string)
    requires PriceTextOk(t)
    ensures AllDecimalChars(t)
  {
    var k := DotIndex(t);
    DotIndexSpec(t);
    forall i | 0 <= i < |t| ensures IsDecimalChar(t[i]) {
      if i < k {
        assert t[i] == t[..k][i];
      } else if i > k {
        assert t[i] == t[k + 1..][i - k - 1];
      }
    }
  }

  /** new BigDecimal(priceField.getText().trim()) on a text the filter let
      through. */
  function PriceValue(t: string): (r: Option<real>)
    requires PriceTextOk(t)
  {
    PriceTextDecimalChars(t);
    FilteredTextUntrimmed(t);
    DecimalOf(Trim(t))
  }

  /** A filtered price text is a number unless it is empty or a lone point. */
  lemma FilteredPriceParses(t: string)
    requires PriceTextOk(t)
    ensures PriceValue(t).None? <==> t == [] || t == "."
  {
    PriceTextDecimalChars(t);
    FilteredTextUntrimmed(t);
    var k := DotIndex(t);
    DotIndexSpec(t);
    if k == |t| {
      assert t[..k] == t;
      DotIndexSkips(t, []);
      assert t + [] == t;
    } else if t != "." {
      var ip := t[..k];
      var fp := t[k + 1..];
      assert t == ip + "." + fp;
      DotIndexSkips(fp, []);
      assert fp + [] == fp;
      PointedDecimal(ip, fp);
    }
  }

  /** Integer.parseInt(stockField.getText().trim()) on a text the filter let
      through: none when empty or beyond the int range. */
  function StockValue(t: string): (r: Option<int>)
    requires StockTextOk(t)
    ensures r.None? <==> t == [] || DigitsValue(t) > INT_MAX
    ensures r.Some? ==> r.value == DigitsValue(t) && 0 <= r.value <= INT_MAX
  {
    DigitsAreDecimalChars(t);
    FilteredTextUntrimmed(t);
    if t == [] || DigitsValue(t) > INT_MAX then None else Some(DigitsValue(t))
  }

  /** A stock the form shows (Integer.toString) reads back as itself. */
  lemma StockReadsBack(n: nat)
    requires n <= INT_MAX
    ensures StockTextOk(NatToString(n)) && StockValue(NatToString(n)) == Some(n)
  {
    NatToStringRoundTrip(n);
  }

  /** validateInput's checks in order: barcode, name, price, stock; the
      message of the first that fails, or none. */
  function FirstInputError(barcode: string, name: string, price: string, stock: string): (r: Option<string>)
    requires PriceTextOk(price) && StockTextOk(stock)
    ensures r.None? <==>
            && NotBlank(barcode) && NotBlank(name)
            && PriceValue(price).Some? && PriceValue(price).value > 0.0
            && StockValue(stock).Some? && StockValue(stock).value >= 0
    ensures !NotBlank(barcode) ==> r == Some(MSG_BARCODE_REQUIRED)
    ensures NotBlank(barcode) && !NotBlank(name) ==> r == Some(MSG_NAME_REQUIRED)
    ensures NotBlank(barcode) && NotBlank(name) && PriceValue(price).None? ==> r == Some(MSG_PRICE_INVALID)
    ensures NotBlank(barcode) && NotBlank(name) && PriceValue(price).Some? && PriceValue(price).value <= 0.0 ==>
            r == Some(MSG_PRICE_NOT_POSITIVE)
    ensures (NotBlank(barcode) && NotBlank(name) && PriceValue(price).Some? && PriceValue(price).value > 0.0 &&
             StockValue(stock).None?) ==> r == Some(MSG_STOCK_INVALID)
  {
    if !NotBlank(barcode) then Some(MSG_BARCODE_REQUIRED)
    else if !NotBlank(name) then Some(MSG_NAME_REQUIRED)
    else if PriceValue(price).None? then Some(MSG_PRICE_INVALID)
    else if PriceValue(price).value <= 0.0 then Some(MSG_PRICE_NOT_POSITIVE)
    else if StockValue(stock).None? then Some(MSG_STOCK_INVALID)
    else if StockValue(stock).value < 0 then Some(MSG_STOCK_NEGATIVE)
    else None
  }

  /** The stock filter admits no sign, so the negative-stock message is
      never shown. */
  lemma NegativeStockNeverReported(barcode: string, name: string, price: string, stock: string)
    requires PriceTextOk(price) && StockTextOk(stock)
    ensures FirstInputError(barcode, name, price, stock) != Some(MSG_STOCK_NEGATIVE)
  {
  }

  /** Input that passes the checks meets the product's own constraints: a
      barcode and a name that are not blank, a price above zero and a stock
      that is not negative. */
  lemma AcceptedInputIsValid(barcode: string, name: string, price: string, stock: string)
    requires PriceTextOk(price) && StockTextOk(stock)
    requires FirstInputError(barcode, name, price, stock).None?
    ensures NotBlank(Trim(barcode)) && NotBlank(Trim(name))
    ensures PriceValue(price).value > 0.0 && StockValue(stock).value >= 0
  {
    TrimIdempotent(barcode);
    TrimIdempotent(name);
  }

  /** The field values setProductFields copies into the product. */
  datatype FormFields = FormFields(barcode: string, name: string, description: string, price: real, stock: int)

  /** What saveProduct asks the product service for. */
  datatype SaveRequest =
    | CreateRequest(fields: FormFields)
    | UpdateRequest(id: Option<nat>, fields: FormFields)

  datatype FormField = BarcodeField | NameField | DescriptionField | PriceField | StockField

  /** ProductFormController: the texts of its fields, the error label, and
      the product being edited, if any. */
  class ProductForm {
    var barcodeText: string
    var nameText: string
    var descriptionText: string
    var priceText: string
    var stockText: string
    var errorLabel: string
    var product: Option<Product>

    /** What the listeners keep true of the numeric fields. */
    ghost predicate Valid()
      reads this
    {
      PriceTextOk(priceText) && StockTextOk(stockText)
    }

    /** initialize on an empty form, editing `product` if given. */
    constructor (product: Option<Product>)
      ensures Valid() && this.product == product && errorLabel == ""
      ensures barcodeText == nameText == descriptionText == priceText == stockText == ""
    {
      this.product := product;
      barcodeText := "";
      nameText := "";
      descriptionText := "";
      priceText := "";
      stockText := "";
      errorLabel := "";
      new;
      assert DotIndex(priceText) == 0;
    }

    /** A change to a field's text. The price and stock listeners put back
        the old text when the new one does not match their pattern. */
    method Edit(field: FormField, newValue: string)
      requires Valid()
      modifies this`barcodeText, this`nameText, this`descriptionText, this`priceText, this`stockText
      ensures Valid()
      ensures field == PriceField ==>
              priceText == (if PriceTextOk(newValue) then newValue else old(priceText))
      ensures field == StockField ==>
              stockText == (if StockTextOk(newValue) then newValue else old(stockText))
      ensures field == BarcodeField ==> barcodeText == newValue
      ensures field == NameField ==> nameText == newValue
      ensures field == DescriptionField ==> descriptionText == newValue
      ensures field != PriceField ==> priceText == old(priceText)
      ensures field != StockField ==> stockText == old(stockText)
      ensures field != BarcodeField ==> barcodeText == old(barcodeText)
      ensures field != NameField ==> nameText == old(nameText)
      ensures field != DescriptionField ==> descriptionText == old(descriptionText)
    {
      match field {
        case BarcodeField => barcodeText := newValue;
        case NameField => nameText := newValue;
        case DescriptionField => descriptionText := newValue;
        case PriceField =>
          if PriceTextOk(newValue) {
            priceText := newValue;
          }
        case StockField =>
          if StockTextOk(newValue) {
            stockText := newValue;
          }
      }
    }

    /** validateInput: clears the error label, then stops at the first check
        that fails and shows its message. */
    method ValidateInput() returns (ok: bool)
      requires Valid()
      modifies this`errorLabel
      ensures ok <==> FirstInputError(barcodeText, nameText, priceText, stockText).None?
      ensures !ok ==> errorLabel == FirstInputError(barcodeText, nameText, priceText, stockText).value
      ensures ok ==> errorLabel == ""
    {
      errorLabel := "";
      if Trim(barcodeText) == [] {
        errorLabel := MSG_BARCODE_REQUIRED;
        return false;
      }
      if Trim(nameText) == [] {
        errorLabel := MSG_NAME_REQUIRED;
        return false;
      }
      var price := PriceValue(priceText);
      if price.None? {
        errorLabel := MSG_PRICE_INVALID;
        return false;
      }
      if price.value <= 0.0 {
        errorLabel := MSG_PRICE_NOT_POSITIVE;
        return false;
      }
      var stock := StockValue(stockText);
      if stock.None? || stock.value < 0 {
        errorLabel := if stock.None? then MSG_STOCK_INVALID else MSG_STOCK_NEGATIVE;
        return false;
      }
      return true;
    }

    /** saveProduct: nothing is asked of the service when the input fails the
        checks; otherwise the trimmed texts and the parsed price and stock go
        into a new product, or into the one being edited. */
    method SaveProduct() returns (request: Option<SaveRequest>)
      requires Valid()
      modifies this`errorLabel
      ensures FirstInputError(barcodeText, nameText, priceText, stockText).Some? ==>
              request == None && errorLabel == FirstInputError(barcodeText, nameText, priceText, stockText).value
      ensures FirstInputError(barcodeText, nameText, priceText, stockText).None? ==>
              var fields := FormFields(Trim(barcodeText), Trim(nameText), Trim(descriptionText),
                                       PriceValue(priceText).value, StockValue(stockText).value);
              request == Some(if product.None? then CreateRequest(fields) else UpdateRequest(product.value.id, fields))
    {
      var ok := ValidateInput();
      if !ok {
        return None;
      }
      var fields := FormFields(Trim(barcodeText), Trim(nameText), Trim(descriptionText),
                               PriceValue(priceText).value, StockValue(stockText).value);
      if product.None? {
        request := Some(CreateRequest(fields));
      } else {
        request := Some(UpdateRequest(product.value.id, fields));
      }
    }
  }
}
