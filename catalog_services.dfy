/** The first-generation catalog services: the product service, which keeps
    barcodes and SKUs unique on every save, soft-deactivates and sets stock,
    and the category service, which checks names only for new categories.
    Each repository is a table keyed by id with an identity column. */
module CatalogServices {
  import opened Wrappers
  import opened Products

  datatype CatalogError =
    | DuplicateBarcode
    | DuplicateSku
    | StockBelowZero
    | ProductNotFound
    | DuplicateName
    | CategoryNotFound
    | ConstraintViolation(violations: set<Violation>)

  /** A row other than the one with this id carries the barcode (findByBarcode
      finds a row whose id differs). */
  predicate BarcodeHeldByOther(table: map<nat, Product>, id: nat, barcode: string) {
    exists k :: k in table && table[k].barcode == barcode && table[k].id != Some(id)
  }

  predicate SkuHeldByOther(table: map<nat, Product>, id: nat, sku: string) {
    exists k :: k in table && table[k].sku == sku && table[k].id != Some(id)
  }

  /** The checks saveProduct makes before saving, in order: for a new
      product, the barcode and then the SKU must be unused; for an existing
      one, no other row may hold either. */
  function SaveCheck(table: map<nat, Product>, product: Product): Option<CatalogError> {
    match product.id
    case None =>
      if BarcodeTaken(table, product.barcode) then Some(DuplicateBarcode)
      else if SkuTaken(table, product.sku) then Some(DuplicateSku)
      else None
    case Some(id) =>
      if BarcodeHeldByOther(table, id, product.barcode) then Some(DuplicateBarcode)
      else if SkuHeldByOther(table, id, product.sku) then Some(DuplicateSku)
      else None
  }

  /** Every stored row meets the entity's validation constraints: the table
      is only written through saves that Bean Validation checks. */
  predicate RowsValid(table: map<nat, Product>) {
    forall k :: k in table ==> IsValid(table[k])
  }

  /** Why saveProduct refuses a product, if it does: the uniqueness checks
      first, then the entity's constraints, which Bean Validation checks when
      the repository writes the row. */
  function SaveRefusal(table: map<nat, Product>, product: Product): (r: Option<CatalogError>)
    ensures r.None? <==> SaveCheck(table, product).None? && IsValid(product)
    ensures SaveCheck(table, product).Some? ==> r == SaveCheck(table, product)
    ensures SaveCheck(table, product).None? && !IsValid(product) ==>
            r == Some(ConstraintViolation(Violations(product))) && Violations(product) != {}
  {
    ValidIffNoViolations(product);
    if SaveCheck(table, product).Some? then SaveCheck(table, product)
    else if Violations(product) != {} then Some(ConstraintViolation(Violations(product)))
    else None
  }

  /** Storing a valid row keeps every row valid. */
  lemma StoreKeepsRowsValid(table: map<nat, Product>, key: nat, row: Product)
    requires RowsValid(table) && IsValid(row)
    ensures RowsValid(table[key := row])
  {
  }

  /** A product table with the identity column's invariants: each row under
      its own id, every id below the next one. */
  predicate Keyed(table: map<nat, Product>, nextId: nat) {
    KeyedById(table) && forall k :: k in table ==> k < nextId
  }

  /** A save that passes the checks keeps barcodes and SKUs unique and the
      table keyed. */
  lemma SaveKeepsUnique(table: map<nat, Product>, nextId: nat, product: Product)
    requires Keyed(table, nextId) && UniqueBarcodes(table) && UniqueSkus(table)
    requires SaveCheck(table, product).None?
    ensures var key := SaveKey(product.id, nextId);
            var after := table[key := product.(id := Some(key))];
            && Keyed(after, NextIdAfter(key, nextId))
            && UniqueBarcodes(after)
            && UniqueSkus(after)
  {
    var key := SaveKey(product.id, nextId);
    var row := product.(id := Some(key));
    var after := table[key := row];
    forall j, k | j in after && k in after && after[j].barcode == after[k].barcode
      ensures j == k
    {
    }
    forall j, k | j in after && k in after && after[j].sku == after[k].sku
      ensures j == k
    {
    }
  }

  /** Re-saving a stored product with its own barcode and SKU passes the
      checks: a product never conflicts with itself. */
  lemma ResaveOwnCodesAllowed(table: map<nat, Product>, id: nat, product: Product)
    requires KeyedById(table) && UniqueBarcodes(table) && UniqueSkus(table)
    requires id in table && product.id == Some(id)
    requires product.barcode == table[id].barcode && product.sku == table[id].sku
    ensures SaveCheck(table, product).None?
  {
  }

  /** com.pos.services.ProductService over its product table. */
  class ProductService {
    var products: map<nat, Product>
    var nextId: nat

    ghost predicate Valid()
      reads this
    {
      Keyed(products, nextId) && UniqueBarcodes(products) && UniqueSkus(products) && RowsValid(products)
    }

    constructor (table: map<nat, Product>, nextId: nat)
      requires Keyed(table, nextId) && UniqueBarcodes(table) && UniqueSkus(table) && RowsValid(table)
      ensures Valid() && products == table && this.nextId == nextId
    {
      products := table;
      this.nextId := nextId;
    }

    /** getAllActiveProducts: exactly the rows whose active flag is set. */
    method GetAllActiveProducts() returns (r: map<nat, Product>)
      ensures forall k :: k in r <==> k in products && products[k].active
      ensures forall k :: k in r ==> r[k] == products[k]
    {
      r := map k | k in products && products[k].active :: products[k];
    }

    /** productRepository.save: the row goes under its own id, or under the
        next identity value when it has none, and comes back with that id. */
    method Store(row: Product) returns (saved: Product)
      modifies this
      ensures saved == row.(id := Some(SaveKey(row.id, old(nextId))))
      ensures products == old(products)[SaveKey(row.id, old(nextId)) := saved]
      ensures nextId == NextIdAfter(SaveKey(row.id, old(nextId)), old(nextId))
    {
      var key := SaveKey(row.id, nextId);
      saved := row.(id := Some(key));
      products := products[key := saved];
      nextId := NextIdAfter(key, nextId);
    }

    /** saveProduct: rejects a barcode or SKU that another product already
        holds, then a product that breaks the entity's constraints, and
        otherwise stores the product. */
    method SaveProduct(product: Product) returns (r: Result<Product, CatalogError>)
      requires Valid()
      modifies this
      ensures Valid()
      ensures r.Failure? <==> old(SaveRefusal(products, product)).Some?
      ensures r.Failure? ==>
              r.error == old(SaveRefusal(products, product)).value
              && products == old(products) && nextId == old(nextId)
      ensures r.Success? ==>
              var key := SaveKey(product.id, old(nextId));
              r.value == product.(id := Some(key)) && products == old(products)[key := r.value]
    {
      if product.id == None {
        if BarcodeTaken(products, product.barcode) {
          return Failure(DuplicateBarcode);
        }
        if SkuTaken(products, product.sku) {
          return Failure(DuplicateSku);
        }
      } else {
        var id := product.id.value;
        if BarcodeHeldByOther(products, id, product.barcode) {
          return Failure(DuplicateBarcode);
        }
        if SkuHeldByOther(products, id, product.sku) {
          return Failure(DuplicateSku);
        }
      }
      var violations := Violations(product);
      if violations != {} {
        return Failure(ConstraintViolation(violations));
      }
      ValidIffNoViolations(product);
      SaveKeepsUnique(products, nextId, product);
      StoreKeepsRowsValid(products, SaveKey(product.id, nextId), product.(id := Some(SaveKey(product.id, nextId))));
      var saved := Store(product);
      return Success(saved);
    }

    /** deactivateProduct: the soft delete clears the active flag and nothing
        else; an unknown id is an error. */
    method DeactivateProduct(productId: nat) returns (r: Outcome<CatalogError>)
      requires Valid()
      modifies this
      ensures Valid() && nextId == old(nextId)
      ensures r.Fail? <==> productId !in old(products)
      ensures r.Fail? ==> r.error == ProductNotFound && products == old(products)
      ensures r.Pass? ==> products == old(products)[productId := old(products[productId]).(active := false)]
    {
      if productId !in products {
        return Fail(ProductNotFound);
      }
      products := products[productId := products[productId].(active := false)];
      return Pass;
    }

    /** updateStock: a negative stock is refused before the lookup, an
        unknown id next; otherwise the stock becomes exactly the new value. */
    method UpdateStock(productId: nat, newStock: int) returns (r: Result<Product, CatalogError>)
      requires Valid()
      modifies this
      ensures Valid() && nextId == old(nextId)
      ensures newStock < 0 ==> r == Failure(StockBelowZero)
      ensures newStock >= 0 && productId !in old(products) ==> r == Failure(ProductNotFound)
      ensures r.Failure? ==> products == old(products)
      ensures newStock >= 0 && productId in old(products) ==>
              && r == Success(old(products[productId]).(stock := newStock))
              && products == old(products)[productId := r.value]
    {
      if newStock < 0 {
        return Failure(StockBelowZero);
      }
      if productId !in products {
        return Failure(ProductNotFound);
      }
      var updated := products[productId].(stock := newStock);
      products := products[productId := updated];
      return Success(updated);
    }
  }

  /** com.pos.services.CategoryService over its category table. Only a new
      category's name is checked; a save with an id overwrites that row. */
  class CategoryService {
    var categories: map<nat, Category>
    var nextId: nat

    ghost predicate Valid()
      reads this
    {
      CategoriesKeyedById(categories) && forall k :: k in categories ==> k < nextId
    }

    constructor (table: map<nat, Category>, nextId: nat)
      requires CategoriesKeyedById(table) && forall k :: k in table ==> k < nextId
      ensures Valid() && categories == table && this.nextId == nextId
    {
      categories := table;
      this.nextId := nextId;
    }

    /** getAllActiveCategories: exactly the active categories. */
    method GetAllActiveCategories() returns (r: map<nat, Category>)
      ensures forall k :: k in r <==> k in categories && categories[k].active
      ensures forall k :: k in r ==> r[k] == categories[k]
    {
      r := map k | k in categories && categories[k].active :: categories[k];
    }

    /** saveCategory: a new category (no id) is refused when its name is in
        use; a category with an id is stored without that check. */
    method SaveCategory(category: Category) returns (r: Result<Category, CatalogError>)
      requires Valid()
      modifies this
      ensures Valid()
      ensures r.Failure? <==> category.id == None && NameTaken(old(categories), category.name)
      ensures r.Failure? ==> r.error == DuplicateName && categories == old(categories) && nextId == old(nextId)
      ensures r.Success? ==>
              var key := SaveKey(category.id, old(nextId));
              && r.value == category.(id := Some(key))
              && categories == old(categories)[key := r.value]
              && nextId == NextIdAfter(key, old(nextId))
    {
      if category.id == None && NameTaken(categories, category.name) {
        return Failure(DuplicateName);
      }
      var key := SaveKey(category.id, nextId);
      var saved := category.(id := Some(key));
      categories := categories[key := saved];
      nextId := NextIdAfter(key, nextId);
      return Success(saved);
    }

    /** deactivateCategory: clears the active flag of a stored category and
        nothing else; an unknown id is an error. */
    method DeactivateCategory(categoryId: nat) returns (r: Outcome<CatalogError>)
      requires Valid()
      modifies this
      ensures Valid() && nextId == old(nextId)
      ensures r.Fail? <==> categoryId !in old(categories)
      ensures r.Fail? ==> r.error == CategoryNotFound && categories == old(categories)
      ensures r.Pass? ==> categories == old(categories)[categoryId := old(categories[categoryId]).(active := false)]
    {
      if categoryId !in categories {
        return Fail(CategoryNotFound);
      }
      categories := categories[categoryId := categories[categoryId].(active := false)];
      return Pass;
    }
  }
}
