/** The catalog records: Product and Category, their validation constraints
    and the lookups the services make on a table keyed by id. Money is in
    integer cents. */
module Products {
  import opened Wrappers
  import opened Text

  /** A product row. `sku` and `active` are the columns the catalog services
      read and write; the entity declaring them is not part of this model. */
  datatype Product = Product(
    id: Option<nat>,
    barcode: string,
    name: string,
    description: Option<string>,
    price: int,
    stock: int,
    sku: string,
    active: bool)

  /** A category row (the DTO the newer service receives maps onto it field
      for field). */
  datatype Category = Category(
    id: Option<nat>,
    name: string,
    description: Option<string>,
    active: bool)

  /** The parameterised constructor: the five given fields, no id yet. The
      columns it does not mention get an empty SKU and the active flag set. */
  function NewProduct(barcode: string, name: string, description: Option<string>, price: int, stock: int): (p: Product)
    ensures p.id == None
    ensures p.barcode == barcode && p.name == name && p.description == description
    ensures p.price == price && p.stock == stock
  {
    Product(None, barcode, name, description, price, stock, "", true)
  }

  /** Bean Validation's @NotBlank: not null and not empty after trimming. */
  predicate NotBlank(s: string) {
    Trim(s) != []
  }

  datatype Violation = BarcodeRequired | NameRequired | PriceNotPositive | NegativeStock

  /** Whether the product breaks the constraint declared on one field. */
  predicate Breaks(p: Product, v: Violation) {
    match v
    case BarcodeRequired => !NotBlank(p.barcode)
    case NameRequired => !NotBlank(p.name)
    case PriceNotPositive => p.price <= 0
    case NegativeStock => p.stock < 0
  }

  /** The constraint violations Bean Validation reports for a product. */
  function Violations(p: Product): (r: set<Violation>)
    ensures forall v :: v in r <==> Breaks(p, v)
  {
    set v | v in {BarcodeRequired, NameRequired, PriceNotPositive, NegativeStock} && Breaks(p, v)
  }

  /** A product passes validation exactly when its barcode and name have a
      character other than white space, its price is above zero and its stock
      is not negative. */
  predicate IsValid(p: Product) {
    NotBlank(p.barcode) && NotBlank(p.name) && p.price > 0 && p.stock >= 0
  }

  lemma ValidIffNoViolations(p: Product)
    ensures IsValid(p) <==> Violations(p) == {}
    ensures NotBlank(p.barcode) <==> exists i :: 0 <= i < |p.barcode| && !IsTrimmed(p.barcode[i])
    ensures NotBlank(p.name) <==> exists i :: 0 <= i < |p.name| && !IsTrimmed(p.name[i])
  {
    TrimEmptyIff(p.barcode);
    TrimEmptyIff(p.name);
    if !IsValid(p) {
      if !NotBlank(p.barcode) { assert BarcodeRequired in Violations(p); }
      else if !NotBlank(p.name) { assert NameRequired in Violations(p); }
      else if p.price <= 0 { assert PriceNotPositive in Violations(p); }
      else { assert NegativeStock in Violations(p); }
    }
  }

  /** Every row sits under its own id. */
  predicate KeyedById(table: map<nat, Product>) {
    forall k :: k in table ==> table[k].id == Some(k)
  }

  predicate BarcodeTaken(table: map<nat, Product>, barcode: string) {
    exists k :: k in table && table[k].barcode == barcode
  }

  predicate SkuTaken(table: map<nat, Product>, sku: string) {
    exists k :: k in table && table[k].sku == sku
  }

  predicate UniqueBarcodes(table: map<nat, Product>) {
    forall j, k :: j in table && k in table && table[j].barcode == table[k].barcode ==> j == k
  }

  predicate UniqueSkus(table: map<nat, Product>) {
    forall j, k :: j in table && k in table && table[j].sku == table[k].sku ==> j == k
  }

  /** findByBarcode on a table whose barcode column is unique. */
  function FindByBarcode(table: map<nat, Product>, barcode: string): (r: Option<nat>)
    requires UniqueBarcodes(table)
    ensures r.Some? ==> r.value in table && table[r.value].barcode == barcode
    ensures r.None? <==> !BarcodeTaken(table, barcode)
  {
    if BarcodeTaken(table, barcode) then
      var k :| k in table && table[k].barcode == barcode; Some(k)
    else
      None
  }

  predicate CategoriesKeyedById(table: map<nat, Category>) {
    forall k :: k in table ==> table[k].id == Some(k)
  }

  predicate NameTaken(table: map<nat, Category>, name: string) {
    exists k :: k in table && table[k].name == name
  }

  predicate UniqueNames(table: map<nat, Category>) {
    forall j, k :: j in table && k in table && table[j].name == table[k].name ==> j == k
  }

  /** The key under which JpaRepository.save stores a row: its own id when it
      has one, otherwise the next value of the identity column. */
  function SaveKey(id: Option<nat>, nextId: nat): (k: nat)
    ensures id.Some? ==> k == id.value
    ensures id.None? ==> k == nextId
  {
    if id.Some? then id.value else nextId
  }

  /** The identity column never hands out a key already in use. */
  function NextIdAfter(key: nat, nextId: nat): (n: nat)
    ensures n > key && n >= nextId
  {
    if key >= nextId then key + 1 else nextId
  }
}
