/** The inventory services of the product screens: the product service
    (create with a barcode check, update of the descriptive fields, delete,
    and a stock update whose arithmetic is disabled) and the category
    service (create with a name check, update, delete, toggle of the active
    flag). The category name column is declared unique, so the table refuses
    a second row with a name already in use. */
module InventoryServices {
  import opened Wrappers
  import opened Products

  datatype InventoryError =
    | DuplicateBarcode
    | ProductNotFound
    | DuplicateName
    | CategoryNotFound
    /** The unique name column refused the row. */
    | NameConstraint

  /** updateProduct's copy: barcode, name, description and price come from
      the edited product; the stored stock and every other column stay. */
  function CopyEdits(existing: Product, edited: Product): (r: Product)
    ensures r.barcode == edited.barcode && r.name == edited.name
    ensures r.description == edited.description && r.price == edited.price
    ensures r.stock == existing.stock && r.id == existing.id
    ensures r.sku == existing.sku && r.active == existing.active
  {
    existing.(barcode := edited.barcode, name := edited.name,
              description := edited.description, price := edited.price)
  }

  /** The category row with its active flag flipped. */
  function Toggled(c: Category): (r: Category)
    ensures r.active == !c.active
    ensures r.id == c.id && r.name == c.name && r.description == c.description
  {
    c.(active := !c.active)
  }

  /** updateCategoryActiveById twice puts the flag back. */
  lemma ToggleTwiceRestores(table: map<nat, Category>, id: nat)
    requires id in table
    ensures var once := table[id := Toggled(table[id])];
            once[id := Toggled(once[id])] == table
  {
    var once := table[id := Toggled(table[id])];
    assert Toggled(once[id]) == table[id];
  }

  /** Storing a row under its key keeps names unique when no other row holds
      its name. */
  lemma StoreKeepsNamesUnique(table: map<nat, Category>, key: nat, row: Category)
    requires UniqueNames(table)
    requires forall k :: k in table && k != key ==> table[k].name != row.name
    ensures UniqueNames(table[key := row])
  {
  }

  /** com.pos.services.products.ProductService over its product table. */
  class ProductService {
    var products: map<nat, Product>
    var nextId: nat

    ghost predicate Valid()
      reads this
    {
      && KeyedById(products)
      && UniqueBarcodes(products)
      && forall k :: k in products ==> k < nextId
    }

    constructor (table: map<nat, Product>, nextId: nat)
      requires KeyedById(table) && UniqueBarcodes(table) && forall k :: k in table ==> k < nextId
      ensures Valid() && products == table && this.nextId == nextId
    {
      products := table;
      this.nextId := nextId;
    }

    /** createProduct: refused when the barcode is in use; otherwise the
        product is saved under its own id or the next identity value. */
    method CreateProduct(product: Product) returns (r: Result<Product, InventoryError>)
      requires Valid()
      modifies this
      ensures Valid()
      ensures r.Failure? <==> BarcodeTaken(old(products), product.barcode)
      ensures r.Failure? ==> r.error == DuplicateBarcode && products == old(products) && nextId == old(nextId)
      ensures r.Success? ==>
              var key := SaveKey(product.id, old(nextId));
              && r.value == product.(id := Some(key))
              && products == old(products)[key := r.value]
              && nextId == NextIdAfter(key, old(nextId))
    {
      if BarcodeTaken(products, product.barcode) {
        return Failure(DuplicateBarcode);
      }
      var key := SaveKey(product.id, nextId);
      var saved := product.(id := Some(key));
      products := products[key := saved];
      nextId := NextIdAfter(key, nextId);
      return Success(saved);
    }

    /** updateProduct: the stored product under the edited product's id takes
        its barcode, name, description and price, keeping its stock. A new
        barcode already in use is refused; keeping the old one never is. */
    method UpdateProduct(product: Product) returns (r: Result<Product, InventoryError>)
      requires Valid()
      modifies this
      ensures Valid() && nextId == old(nextId)
      ensures product.id == None || product.id.value !in old(products) ==>
              r == Failure(ProductNotFound)
      ensures product.id.Some? && product.id.value in old(products) ==>
              var existing := old(products[product.id.value]);
              && (r.Failure? <==> existing.barcode != product.barcode && BarcodeTaken(old(products), product.barcode))
              && (r.Failure? ==> r.error == DuplicateBarcode)
              && (r.Success? ==> r.value == CopyEdits(existing, product)
                                 && products == old(products)[product.id.value := r.value])
      ensures r.Failure? ==> products == old(products)
    {
      if product.id == None || product.id.value !in products {
        return Failure(ProductNotFound);
      }
      var id := product.id.value;
      var existing := products[id];
      if existing.barcode != product.barcode && BarcodeTaken(products, product.barcode) {
        return Failure(DuplicateBarcode);
      }
      var updated := CopyEdits(existing, product);
      products := products[id := updated];
      return Success(updated);
    }

    /** updateStock: an unknown id is an error; otherwise the product is
        saved back as it was, since the stock arithmetic is disabled. */
    method UpdateStock(id: nat, quantity: int) returns (r: Result<Product, InventoryError>)
      requires Valid()
      ensures r.Failure? <==> id !in products
      ensures r.Failure? ==> r.error == ProductNotFound
      ensures r.Success? ==> r.value == products[id]
    {
      if id !in products {
        return Failure(ProductNotFound);
      }
      return Success(products[id]);
    }

    /** deleteById: the row with that id leaves the table, if there is one;
        every other row stays as it was. */
    method DeleteById(id: nat)
      requires Valid()
      modifies this
      ensures Valid() && nextId == old(nextId)
      ensures id !in products
      ensures products == old(products) - {id}
      ensures forall k :: k in old(products) && k != id ==> k in products && products[k] == old(products[k])
    {
      products := products - {id};
    }
  }

  /** com.pos.services.products.CategoryService over its category table. */
  class CategoryService {
    var categories: map<nat, Category>
    var nextId: nat

    ghost predicate Valid()
      reads this
    {
      && CategoriesKeyedById(categories)
      && UniqueNames(categories)
      && forall k :: k in categories ==> k < nextId
    }

    constructor (table: map<nat, Category>, nextId: nat)
      requires CategoriesKeyedById(table) && UniqueNames(table) && forall k :: k in table ==> k < nextId
      ensures Valid() && categories == table && this.nextId == nextId
    {
      categories := table;
      this.nextId := nextId;
    }

    /** categoryRepository.save: the row goes under its own id or the next
        identity value, unless another row already holds its name. */
    method Store(row: Category) returns (r: Result<Category, InventoryError>)
      requires Valid()
      modifies this
      ensures Valid()
      ensures var key := SaveKey(row.id, old(nextId));
              r.Failure? <==> exists k :: k in old(categories) && k != key && old(categories[k]).name == row.name
      ensures r.Failure? ==> r.error == NameConstraint && categories == old(categories) && nextId == old(nextId)
      ensures r.Success? ==>
              var key := SaveKey(row.id, old(nextId));
              && r.value == row.(id := Some(key))
              && categories == old(categories)[key := r.value]
              && nextId == NextIdAfter(key, old(nextId))
    {
      var key := SaveKey(row.id, nextId);
      if exists k :: k in categories && k != key && categories[k].name == row.name {
        return Failure(NameConstraint);
      }
      var saved := row.(id := Some(key));
      StoreKeepsNamesUnique(categories, key, saved);
      categories := categories[key := saved];
      nextId := NextIdAfter(key, nextId);
      return Success(saved);
    }

    /** createCategory: refused when a category with the name exists;
        otherwise stored (the name check leaves the unique column nothing to
        refuse). */
    method CreateCategory(category: Category) returns (r: Result<Category, InventoryError>)
      requires Valid()
      modifies this
      ensures Valid()
      ensures r.Failure? <==> NameTaken(old(categories), category.name)
      ensures r.Failure? ==> r.error == DuplicateName && categories == old(categories)
      ensures r.Success? ==>
              var key := SaveKey(category.id, old(nextId));
              && r.value == category.(id := Some(key))
              && categories == old(categories)[key := r.value]
    {
      if NameTaken(categories, category.name) {
        return Failure(DuplicateName);
      }
      r := Store(category);
    }

    /** updateCategory: an id that is missing or not stored is an error;
        otherwise the row is replaced by the edited category, which the
        unique name column may refuse. */
    method UpdateCategory(category: Category) returns (r: Result<Category, InventoryError>)
      requires Valid()
      modifies this
      ensures Valid() && nextId == old(nextId)
      ensures category.id == None || category.id.value !in old(categories) ==>
              r == Failure(CategoryNotFound)
      ensures category.id.Some? && category.id.value in old(categories) ==>
              && (r.Failure? <==> exists k :: k in old(categories) && k != category.id.value
                                              && old(categories[k]).name == category.name)
              && (r.Failure? ==> r.error == NameConstraint)
              && (r.Success? ==> r.value == category
                                 && categories == old(categories)[category.id.value := category])
      ensures r.Failure? ==> categories == old(categories)
    {
      if category.id == None || category.id.value !in categories {
        return Failure(CategoryNotFound);
      }
      r := Store(category);
    }

    /** updateCategoryActiveById: flips the active flag of a stored category;
        an unknown id is an error. */
    method UpdateCategoryActiveById(id: nat) returns (r: Result<Category, InventoryError>)
      requires Valid()
      modifies this
      ensures Valid() && nextId == old(nextId)
      ensures r.Failure? <==> id !in old(categories)
      ensures r.Failure? ==> r.error == CategoryNotFound && categories == old(categories)
      ensures r.Success? ==>
              && r.value == Toggled(old(categories[id]))
              && categories == old(categories)[id := r.value]
    {
      if id !in categories {
        return Failure(CategoryNotFound);
      }
      var toggled := Toggled(categories[id]);
      categories := categories[id := toggled];
      return Success(toggled);
    }

    /** deleteCategoryById: the row with that id leaves the table, if there
        is one; every other row stays as it was. */
    method DeleteCategoryById(id: nat)
      requires Valid()
      modifies this
      ensures Valid() && nextId == old(nextId)
      ensures id !in categories
      ensures categories == old(categories) - {id}
      ensures forall k :: k in old(categories) && k != id ==> k in categories && categories[k] == old(categories[k])
    {
      categories := categories - {id};
    }
  }
}
