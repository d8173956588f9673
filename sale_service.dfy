/** The transactional sale service: the sale table and the product table it
    works on, and the operations of the point-of-sale flow (open a sale, add a
    product by barcode, remove a line, complete, cancel). Each operation is
    atomic: on an error nothing it touched is changed. */
module SaleEngine {
  import opened Wrappers
  import opened Text
  import opened Products
  import opened Sales
  import opened SaleRules

  /** The invoice numbers of a sale table, by sale id. A sale's number is
      fixed once it is stored, so the column depends on the table alone. */
  function InvoiceColumn(table: map<nat, Sale>): map<nat, string> {
    map id | id in table :: table[id].invoiceNumber
  }

  /** Storing a sale adds its number to the column under its key. */
  lemma StoreKeepsColumn(table: map<nat, Sale>, key: nat, sale: Sale)
    ensures InvoiceColumn(table[key := sale]) == InvoiceColumn(table)[key := sale.invoiceNumber]
  {
    var after := InvoiceColumn(table[key := sale]);
    var expected := InvoiceColumn(table)[key := sale.invoiceNumber];
    assert after.Keys == expected.Keys;
    forall id | id in after ensures after[id] == expected[id] {
    }
  }

  class SaleService {
    /** The sale table, by id. */
    var sales: map<nat, Sale>
    /** The product table, by id. */
    var products: map<nat, Product>
    /** The next values of the sale and sale-item identity columns. */
    var nextSaleId: nat
    var nextItemId: nat

    /** The sale stored under saleId, as a set for frames. */
    function SaleRef(saleId: nat): set<Sale>
      reads this`sales
    {
      if saleId in sales then {sales[saleId]} else {}
    }

    /** Every sale sits under its own id, below the next id; so distinct keys
        hold distinct objects. */
    ghost predicate LedgerKeyed()
      reads this`sales, this`nextSaleId, sales.Values`id
    {
      forall k :: k in sales ==> k < nextSaleId && sales[k].id == Some(k)
    }

    /** A stored sale has a status, lines for catalog products (one per
        product) and totals that agree with its lines. */
    ghost predicate SaleValid(s: Sale, catalog: set<nat>)
      reads s
    {
      && s.status.Some?
      && LinesValid(s.items, catalog)
      && TotalsMatch(s.items, s.subtotal, s.taxAmount, s.totalAmount)
    }

    /** The invoice-number column of the sale table. */
    function Invoices(): map<nat, string>
      reads this`sales
    {
      InvoiceColumn(sales)
    }

    /** The number of stored sales whose invoice number starts with
        datePrefix followed by a dash. */
    function InvoiceCount(datePrefix: string): (n: nat)
      reads this`sales
      ensures n == CountWith(Invoices(), datePrefix)
    {
      assert (set id | id in sales && StartsWith(sales[id].invoiceNumber, datePrefix + "-"))
          == DatedIds(Invoices(), datePrefix);
      |set id | id in sales && StartsWith(sales[id].invoiceNumber, datePrefix + "-")|
    }

    /** Every stored sale is valid against the product table. */
    ghost predicate SalesValid()
      reads this`sales, this`products, sales.Values
    {
      forall id {:trigger SaleValid(sales[id], products.Keys)} :: id in sales ==> SaleValid(sales[id], products.Keys)
    }

    /** The service invariant: a keyed sale table of valid sales over a
        product table with positive prices, stock at zero or above and one
        product per barcode. */
    ghost predicate Valid()
      reads this, sales.Values
    {
      && LedgerKeyed()
      && PricedAndStocked(products)
      && UniqueBarcodes(products)
      && SalesValid()
    }

    /** The invoice numbers of the sale table were all given by numbering:
        well formed, within their date's count, and pairwise distinct. It
        reads only the table, since a sale's number never changes once given,
        so only operations that store a sale can affect it. */
    ghost predicate Numbered()
      reads this`sales
    {
      ColumnValid(Invoices())
    }

    /** A service over the given product table with no sales yet. */
    constructor (catalog: map<nat, Product>)
      requires PricedAndStocked(catalog) && UniqueBarcodes(catalog)
      ensures Valid() && Numbered()
      ensures sales == map[] && products == catalog
    {
      sales := map[];
      products := catalog;
      nextSaleId := 0;
      nextItemId := 0;
    }

    /** getSaleById: the stored sale, or an error when there is none. */
    method GetSaleById(saleId: nat) returns (r: Result<Sale, SaleError>)
      requires Valid()
      ensures r.Success? <==> saleId in sales
      ensures r.Failure? ==> r.error == SaleNotFound
      ensures r.Success? ==> r.value == sales[saleId] && r.value.id == Some(saleId)
    {
      if saleId in sales {
        return Success(sales[saleId]);
      }
      return Failure(SaleNotFound);
    }

    /** generateInvoiceNumber: the date prefix, a dash and one more than the
        number of stored invoices with that date, in at least four digits.
        On a valid table the number is new. */
    method GenerateInvoiceNumber(datePrefix: string) returns (invoice: string)
      ensures invoice == InvoiceNumber(datePrefix, InvoiceCount(datePrefix))
      ensures Numbered() && IsDatePrefix(datePrefix) ==>
              forall id :: id in sales ==> sales[id].invoiceNumber != invoice
    {
      var count := InvoiceCount(datePrefix);
      invoice := InvoiceNumber(datePrefix, count);
      if Numbered() && IsDatePrefix(datePrefix) {
        NextInvoiceIsNew(Invoices(), datePrefix);
        forall id | id in sales ensures sales[id].invoiceNumber != invoice {
          assert Invoices()[id] == sales[id].invoiceNumber;
        }
      }
    }

    /** createNewSale: a new IN_PROGRESS sale for the cashier with zero totals
        and the next invoice number of the day, stored under a new id; the date
        is stamped when it is stored. */
    method CreateNewSale(cashier: nat, datePrefix: string, now: int) returns (sale: Sale)
      requires Valid() && Numbered() && IsDatePrefix(datePrefix)
      modifies this`sales, this`nextSaleId
      ensures Valid() && Numbered()
      ensures fresh(sale)
      ensures old(nextSaleId) !in old(sales) && sales == old(sales)[old(nextSaleId) := sale]
      ensures products == old(products) && nextItemId == old(nextItemId)
      ensures sale.id == Some(old(nextSaleId))
      ensures sale.status == Some(InProgress) && sale.items == []
      ensures sale.subtotal == 0 && sale.taxAmount == 0 && sale.totalAmount == 0
      ensures sale.cashier == Some(cashier) && sale.saleDate == Some(now)
      ensures sale.paymentMethod == None && sale.customerName == None && sale.customerTaxId == None
      ensures sale.invoiceNumber == InvoiceNumber(datePrefix, old(InvoiceCount(datePrefix)))
      ensures forall id :: id in old(sales) ==> old(sales[id].invoiceNumber) != sale.invoiceNumber
    {
      var invoice := GenerateInvoiceNumber(datePrefix);
      ghost var before := sales;
      ghost var nid := nextSaleId;
      sale := NewSale(invoice, cashier, now, nextSaleId);
      sales := sales[nextSaleId := sale];
      nextSaleId := nextSaleId + 1;
      forall id | id in sales ensures SaleValid(sales[id], products.Keys) {
        if id != nid {
          assert sales[id] == old(sales[id]);
        }
      }
      assert ColumnValid(Invoices()) by {
        StoreKeepsColumn(before, nid, sale);
        NextInvoiceKeepsColumnValid(InvoiceColumn(before), nid, datePrefix);
      }
    }

    /** The sale createNewSale builds and saves: new Sale() and its setters,
        then saleRepository.save, where the identity column gives the id and
        @PrePersist stamps the date. */
    static method NewSale(invoice: string, cashier: nat, now: int, newId: nat) returns (sale: Sale)
      ensures fresh(sale)
      ensures sale.id == Some(newId) && sale.invoiceNumber == invoice
      ensures sale.status == Some(InProgress) && sale.items == []
      ensures sale.subtotal == 0 && sale.taxAmount == 0 && sale.totalAmount == 0
      ensures sale.cashier == Some(cashier) && sale.saleDate == Some(now)
      ensures sale.paymentMethod == None && sale.customerName == None && sale.customerTaxId == None
    {
      // new Sale() and its setters leave the same state as this constructor
      sale := new Sale.WithInvoice(invoice, cashier, now);
      sale.id := Some(newId);
      sale.OnCreate(now);
    }

    /** What adding to a sale yields, from the state before the call: the
        sale's new lines, or the first error in the order the checks run. */
    ghost function AddOutcome(saleId: nat, barcode: string, quantity: int): Result<seq<SaleItem>, SaleError>
      requires UniqueBarcodes(products)
      reads this, sales.Values
    {
      if saleId !in sales then Failure(SaleNotFound)
      else if sales[saleId].status != Some(InProgress) then Failure(NotInProgress)
      else match FindByBarcode(products, barcode)
        case None => Failure(ProductNotFound)
        case Some(pid) => AddLine(sales[saleId].items, pid, products[pid], quantity, nextItemId)
    }

    /** addProductByBarcode: the product found by barcode is added to the
        in-progress sale, merged into its existing line or appended as a new
        one, stock permitting; the totals are recomputed and the affected
        line is returned. */
    method AddProductByBarcode(saleId: nat, barcode: string, quantity: int) returns (r: Result<SaleItem, SaleError>)
      requires Valid() && quantity > 0
      modifies this`nextItemId
      modifies SaleRef(saleId)`items, SaleRef(saleId)`subtotal, SaleRef(saleId)`taxAmount, SaleRef(saleId)`totalAmount
      ensures Valid()
      ensures sales == old(sales) && products == old(products)
      ensures old(AddOutcome(saleId, barcode, quantity)).Failure? ==>
              && r == Failure(old(AddOutcome(saleId, barcode, quantity)).error)
              && nextItemId == old(nextItemId)
              && unchanged(SaleRef(saleId))
      ensures old(AddOutcome(saleId, barcode, quantity)).Success? ==>
              && r.Success?
              && sales[saleId].items == old(AddOutcome(saleId, barcode, quantity)).value
              && TotalsMatch(sales[saleId].items, sales[saleId].subtotal, sales[saleId].taxAmount, sales[saleId].totalAmount)
              && r.value in sales[saleId].items
              && r.value.productId == old(FindByBarcode(products, barcode)).value
    {
      if saleId !in sales {
        return Failure(SaleNotFound);
      }
      var sale := sales[saleId];
      if sale.status != Some(InProgress) {
        return Failure(NotInProgress);
      }
      assert SaleValid(sale, products.Keys);
      var found := FindByBarcode(products, barcode);
      if found.None? {
        return Failure(ProductNotFound);
      }
      var pid := found.value;
      var product := products[pid];
      if product.stock < quantity {
        return Failure(InsufficientStock(pid));
      }
      r := PutLine(sale, pid, quantity);
      if r.Failure? {
        return;
      }
      forall id | id in sales ensures SaleValid(sales[id], products.Keys) {
        if id != saleId {
          assert sales[id].id != sale.id;
        }
      }
    }

    /** The second half of addProductByBarcode, once the product is found and
        its stock covers the quantity: the existing line for the product grows,
        stock permitting, or a new line is appended; then the totals are
        recomputed. */
    method PutLine(sale: Sale, pid: nat, quantity: int) returns (r: Result<SaleItem, SaleError>)
      requires pid in products && products[pid].price > 0 && products[pid].stock >= quantity > 0
      requires LinesValid(sale.items, products.Keys)
      modifies this`nextItemId, sale`items, sale`subtotal, sale`taxAmount, sale`totalAmount
      ensures old(AddLine(sale.items, pid, products[pid], quantity, nextItemId)).Failure? ==>
              && r == Failure(old(AddLine(sale.items, pid, products[pid], quantity, nextItemId)).error)
              && nextItemId == old(nextItemId) && unchanged(sale)
      ensures old(AddLine(sale.items, pid, products[pid], quantity, nextItemId)).Success? ==>
              && r.Success?
              && sale.items == old(AddLine(sale.items, pid, products[pid], quantity, nextItemId)).value
              && LinesValid(sale.items, products.Keys)
              && TotalsMatch(sale.items, sale.subtotal, sale.taxAmount, sale.totalAmount)
              && r.value in sale.items && r.value.productId == pid
    {
      var product := products[pid];
      ghost var before := sale.items;
      var existing := FindLine(sale.items, pid);
      var line: SaleItem;
      if existing.Some? {
        var k := existing.value;
        var newQuantity := sale.items[k].quantity + quantity;
        if product.stock < newQuantity {
          return Failure(InsufficientStock(pid));
        }
        AddLineKeepsLinesValid(before, pid, product, quantity, nextItemId, products.Keys);
        line := sale.items[k].(quantity := newQuantity);
        sale.items := sale.items[k := line];
        assert sale.items[k] == line;
      } else {
        AddLineKeepsLinesValid(before, pid, product, quantity, nextItemId, products.Keys);
        line := SaleItem(nextItemId, pid, quantity, product.price, 0);
        sale.AddItem(line);
        assert sale.items[|sale.items| - 1] == line;
        nextItemId := nextItemId + 1;
      }
      UpdateSaleTotals(sale);
      return Success(line);
    }

    /** removeItem: every line with the item id leaves the in-progress sale,
        the rest keep their order, and the totals are recomputed. */
    method RemoveItem(saleId: nat, itemId: nat) returns (r: Outcome<SaleError>)
      requires Valid()
      modifies SaleRef(saleId)`items, SaleRef(saleId)`subtotal, SaleRef(saleId)`taxAmount, SaleRef(saleId)`totalAmount
      ensures Valid()
      ensures sales == old(sales) && products == old(products)
      ensures saleId !in sales ==> r == Fail(SaleNotFound)
      ensures saleId in sales && old(sales[saleId].status) != Some(InProgress) ==> r == Fail(NotInProgress)
      ensures saleId in sales && old(sales[saleId].status) == Some(InProgress) ==>
              (r.Pass? <==> old(HasLine(sales[saleId].items, itemId)))
      ensures r.Fail? ==> unchanged(SaleRef(saleId)) && (r.error == ItemNotFound ==> saleId in sales)
      ensures r.Pass? ==>
              && saleId in sales
              && sales[saleId].items == RemoveLines(old(sales[saleId].items), itemId)
              && TotalsMatch(sales[saleId].items, sales[saleId].subtotal, sales[saleId].taxAmount, sales[saleId].totalAmount)
    {
      if saleId !in sales {
        return Fail(SaleNotFound);
      }
      var sale := sales[saleId];
      if sale.status != Some(InProgress) {
        return Fail(NotInProgress);
      }
      assert SaleValid(sale, products.Keys);
      var removed := HasLine(sale.items, itemId);
      if !removed {
        return Fail(ItemNotFound);
      }
      RemoveLinesKeepsLinesValid(sale.items, itemId, products.Keys);
      sale.items := RemoveLines(sale.items, itemId);
      UpdateSaleTotals(sale);
      forall id | id in sales ensures SaleValid(sales[id], products.Keys) {
        if id != saleId {
          assert sales[id].id != sale.id;
        }
      }
      return Pass;
    }

    /** What completing the stored sale would make of the product table. */
    ghost function CompletionDebit(saleId: nat): Result<map<nat, Product>, nat>
      requires Valid() && saleId in sales
      reads this, sales.Values
    {
      assert SaleValid(sales[saleId], products.Keys);
      Debit(products, sales[saleId].items)
    }

    /** completeSale: an in-progress sale with lines takes the payment
        details and becomes COMPLETED, and each line's product loses the
        line's quantity; if a stock would go below zero nothing is changed. */
    method CompleteSale(saleId: nat, paymentMethod: Option<PaymentMethod>, customerName: Option<string>, customerTaxId: Option<string>)
      returns (r: Result<Sale, SaleError>)
      requires Valid()
      modifies this`products
      modifies SaleRef(saleId)`status, SaleRef(saleId)`paymentMethod
      modifies SaleRef(saleId)`customerName, SaleRef(saleId)`customerTaxId
      ensures Valid()
      ensures sales == old(sales)
      ensures saleId !in sales ==> r == Failure(SaleNotFound)
      ensures saleId in sales && old(sales[saleId].status) != Some(InProgress) ==> r == Failure(NotInProgress)
      ensures saleId in sales && old(sales[saleId].status) == Some(InProgress) && old(sales[saleId].items) == [] ==>
              r == Failure(EmptySale)
      ensures saleId in sales && old(sales[saleId].status) == Some(InProgress) && old(sales[saleId].items) != [] ==>
              && (r.Success? <==> old(CompletionDebit(saleId)).Success?)
              && (r.Failure? ==> r.error == InsufficientStock(old(CompletionDebit(saleId)).error))
      ensures r.Failure? ==> products == old(products) && unchanged(SaleRef(saleId))
      ensures r.Success? ==>
              && saleId in sales && r.value == sales[saleId]
              && products == old(CompletionDebit(saleId)).value
              && r.value.status == Some(Completed)
              && r.value.paymentMethod == paymentMethod
              && r.value.customerName == customerName
              && r.value.customerTaxId == customerTaxId
    {
      if saleId !in sales {
        return Failure(SaleNotFound);
      }
      var sale := sales[saleId];
      if sale.status != Some(InProgress) {
        return Failure(NotInProgress);
      }
      if sale.items == [] {
        return Failure(EmptySale);
      }
      assert SaleValid(sale, products.Keys);
      // the stock loop runs inside the transaction: a failure rolls back
      // the payment details set before it, so they are set after it here
      var debit := DebitStock(sale.items);
      if debit.Failure? {
        return Failure(InsufficientStock(debit.error));
      }
      RecordCompletion(sale, paymentMethod, customerName, customerTaxId);
      products := debit.value;
      forall id | id in sales ensures SaleValid(sales[id], products.Keys) {
        if id != saleId {
          assert sales[id].id != sale.id;
        }
      }
      return Success(sale);
    }

    /** The stock loop of completeSale, on a working copy of the product
        table: each line's product loses the line's quantity, and the first
        product whose stock would go below zero stops it. */
    method DebitStock(items: seq<SaleItem>) returns (r: Result<map<nat, Product>, nat>)
      requires forall k :: 0 <= k < |items| ==> items[k].productId in products
      requires PricedAndStocked(products)
      ensures r == Debit(products, items)
      ensures r.Success? ==>
              && r.value.Keys == products.Keys
              && PricedAndStocked(r.value)
              && forall pid :: pid in products ==> r.value[pid].barcode == products[pid].barcode
    {
      var working := products;
      var i := 0;
      while i < |items|
        invariant 0 <= i <= |items|
        invariant working.Keys == products.Keys
        invariant PricedAndStocked(working)
        invariant forall pid :: pid in working ==> working[pid].barcode == products[pid].barcode
        invariant Debit(products, items) == Debit(working, items[i..])
      {
        var line := items[i];
        var newStock := working[line.productId].stock - line.quantity;
        if newStock < 0 {
          return Failure(line.productId);
        }
        assert items[i..][1..] == items[i + 1..];
        working := working[line.productId := working[line.productId].(stock := newStock)];
        i := i + 1;
      }
      return Success(working);
    }

    /** The setters completeSale calls on the sale: the payment details,
        then the COMPLETED status. */
    static method RecordCompletion(sale: Sale, paymentMethod: Option<PaymentMethod>, customerName: Option<string>, customerTaxId: Option<string>)
      modifies sale`paymentMethod, sale`customerName, sale`customerTaxId, sale`status
      ensures sale.status == Some(Completed) && sale.paymentMethod == paymentMethod
      ensures sale.customerName == customerName && sale.customerTaxId == customerTaxId
    {
      sale.paymentMethod := paymentMethod;
      sale.customerName := customerName;
      sale.customerTaxId := customerTaxId;
      sale.status := Some(Completed);
    }

    /** cancelSale: an in-progress sale becomes CANCELLED; stock is not
        touched. */
    method CancelSale(saleId: nat) returns (r: Result<Sale, SaleError>)
      requires Valid()
      modifies SaleRef(saleId)`status
      ensures Valid()
      ensures sales == old(sales) && products == old(products)
      ensures saleId !in sales ==> r == Failure(SaleNotFound)
      ensures saleId in sales && old(sales[saleId].status) != Some(InProgress) ==> r == Failure(NotInProgress)
      ensures saleId in sales && old(sales[saleId].status) == Some(InProgress) ==>
              r == Success(sales[saleId]) && sales[saleId].status == Some(Cancelled)
      ensures r.Failure? ==> unchanged(SaleRef(saleId))
    {
      if saleId !in sales {
        return Failure(SaleNotFound);
      }
      var sale := sales[saleId];
      if sale.status != Some(InProgress) {
        return Failure(NotInProgress);
      }
      sale.status := Some(Cancelled);
      forall id | id in sales ensures SaleValid(sales[id], products.Keys) {
        if id != saleId {
          assert sales[id].id != sale.id;
        }
      }
      return Success(sale);
    }

    /** updateSaleTotals: subtotal, tax and total recomputed from the lines. */
    method UpdateSaleTotals(sale: Sale)
      modifies sale`subtotal, sale`taxAmount, sale`totalAmount
      ensures TotalsMatch(sale.items, sale.subtotal, sale.taxAmount, sale.totalAmount)
    {
      var subtotal := SumLines(sale.items);
      var taxAmount := Tax(subtotal);
      sale.subtotal := subtotal;
      sale.taxAmount := taxAmount;
      sale.totalAmount := subtotal + taxAmount;
    }
  }
}
