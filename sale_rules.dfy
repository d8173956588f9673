/** The rules the sale engine applies, as functions on values: line sums,
    tax at 21% rounded HALF_UP to the cent, merging or appending a line when a
    product is added, removing lines by id, debiting stock at completion, and
    the date-scoped invoice number. Money is in integer cents. */
module SaleRules {
  import opened Wrappers
  import opened Text
  import opened Products
  import opened Sales

  datatype SaleError =
    | SaleNotFound
    | NotInProgress
    | ProductNotFound
    | InsufficientStock(productId: nat)
    | ItemNotFound
    | EmptySale

  // ---------------------------------------------------------------- totals

  /** The stream reduce over the line totals. */
  function SumLines(items: seq<SaleItem>): int {
    if items == [] then 0 else LineTotal(items[0]) + SumLines(items[1..])
  }

  lemma {:induction false} SumLinesAppend(a: seq<SaleItem>, b: seq<SaleItem>)
    ensures SumLines(a + b) == SumLines(a) + SumLines(b)
  {
    if a != [] {
      assert (a + b)[1..] == a[1..] + b;
      SumLinesAppend(a[1..], b);
    } else {
      assert a + b == b;
    }
  }

  lemma {:induction false} SumLinesUpdate(items: seq<SaleItem>, k: nat, x: SaleItem)
    requires k < |items|
    ensures SumLines(items[k := x]) == SumLines(items) - LineTotal(items[k]) + LineTotal(x)
  {
    if k > 0 {
      assert items[k := x][1..] == items[1..][k - 1 := x];
      SumLinesUpdate(items[1..], k - 1, x);
    }
  }

  /** TAX_RATE = 0.21. The tax in cents is subtotal x 0.21 rounded to two
      decimals with HALF_UP: the nearest cent, halves rounded away from zero.
      The two bounds below determine the result uniquely. */
  function Tax(subtotal: int): (t: int)
    ensures subtotal >= 0 ==> -50 <= 21 * subtotal - 100 * t < 50
    ensures subtotal < 0 ==> -50 < 21 * subtotal - 100 * t <= 50
  {
    if subtotal >= 0 then (21 * subtotal + 50) / 100 else -((21 * -subtotal + 50) / 100)
  }

  /** On a non-negative subtotal the tax is never negative and never more than
      the subtotal. */
  lemma TaxBounds(subtotal: int)
    requires subtotal >= 0
    ensures 0 <= Tax(subtotal) <= subtotal
  {
  }

  /** HALF_UP rounds away from zero, so the tax is odd in the subtotal. */
  lemma TaxIsOdd(subtotal: int)
    ensures Tax(-subtotal) == -Tax(subtotal)
  {
  }

  /** updateSaleTotals: subtotal is the sum of the line totals, tax is that
      subtotal taxed and rounded, total is subtotal plus tax. */
  predicate TotalsMatch(items: seq<SaleItem>, subtotal: int, taxAmount: int, totalAmount: int) {
    subtotal == SumLines(items) && taxAmount == Tax(subtotal) && totalAmount == subtotal + taxAmount
  }

  // ---------------------------------------------------------------- lines

  /** What every line the engine creates satisfies: a positive quantity, a
      positive unit price and a discount between zero and the gross amount. */
  predicate LineValid(line: SaleItem) {
    line.quantity > 0 && line.unitPrice > 0 && 0 <= line.discount <= line.quantity * line.unitPrice
  }

  predicate DistinctProducts(items: seq<SaleItem>) {
    forall i, j :: 0 <= i < j < |items| ==> items[i].productId != items[j].productId
  }

  /** The lines of an in-progress sale: each valid, each for a product in the
      catalog, at most one line per product. */
  predicate LinesValid(items: seq<SaleItem>, catalog: set<nat>) {
    && (forall k :: 0 <= k < |items| ==> LineValid(items[k]) && items[k].productId in catalog)
    && DistinctProducts(items)
  }

  /** Line totals are never negative, so neither is the subtotal, the tax or
      the total, and total = subtotal + tax. */
  lemma {:induction false} TotalsNonNegative(items: seq<SaleItem>, catalog: set<nat>)
    requires LinesValid(items, catalog)
    ensures SumLines(items) >= 0
    ensures Tax(SumLines(items)) >= 0
    ensures SumLines(items) + Tax(SumLines(items)) >= SumLines(items)
  {
    if items != [] {
      TotalsNonNegative(items[1..], catalog);
    }
  }

  /** The stream filter/findFirst on the product id: the first line for the
      product, if any. */
  function FindLine(items: seq<SaleItem>, productId: nat): (r: Option<nat>)
    ensures r.Some? ==> r.value < |items| && items[r.value].productId == productId
    ensures r.Some? ==> forall k :: 0 <= k < r.value ==> items[k].productId != productId
    ensures r.None? ==> forall k :: 0 <= k < |items| ==> items[k].productId != productId
  {
    if items == [] then None
    else if items[0].productId == productId then Some(0)
    else match FindLine(items[1..], productId)
      case None => None
      case Some(k) => Some(k + 1)
  }

  /** The quantity of the product already in the sale. */
  function QuantityInSale(items: seq<SaleItem>, productId: nat): int {
    match FindLine(items, productId)
    case None => 0
    case Some(k) => items[k].quantity
  }

  /** Adding `quantity` of a product to the lines: the stock is checked
      against the quantity asked for, then, when the product already has a
      line, against the line's quantity plus the new one; the existing line
      grows, or a new line goes at the end with the product's current price
      and no discount. */
  function AddLine(items: seq<SaleItem>, productId: nat, product: Product, quantity: int, freshId: nat): Result<seq<SaleItem>, SaleError> {
    if product.stock < quantity then Failure(InsufficientStock(productId))
    else match FindLine(items, productId)
      case Some(k) =>
        var merged := items[k].quantity + quantity;
        if product.stock < merged then Failure(InsufficientStock(productId))
        else Success(items[k := items[k].(quantity := merged)])
      case None =>
        Success(items + [SaleItem(freshId, productId, quantity, product.price, 0)])
  }

  /** Java's int addition: the exact sum brought back into the 32-bit range. */
  function Int32Add(a: int, b: int): (r: int)
    ensures -0x8000_0000 <= r < 0x8000_0000
    ensures -0x8000_0000 <= a + b < 0x8000_0000 ==> r == a + b
    ensures a + b >= 0x8000_0000 && a + b < 0x1_8000_0000 ==> r == a + b - 0x1_0000_0000
  {
    (a + b + 0x8000_0000) % 0x1_0000_0000 - 0x8000_0000
  }

  /** addProductByBarcode as written: the merged quantity is an int sum, so
      it wraps past 2147483647 before the second stock check compares it. */
  function AddLineAsWritten(items: seq<SaleItem>, productId: nat, product: Product, quantity: int, freshId: nat): Result<seq<SaleItem>, SaleError> {
    if product.stock < quantity then Failure(InsufficientStock(productId))
    else match FindLine(items, productId)
      case Some(k) =>
        var merged := Int32Add(items[k].quantity, quantity);
        if product.stock < merged then Failure(InsufficientStock(productId))
        else Success(items[k := items[k].(quantity := merged)])
      case None =>
        Success(items + [SaleItem(freshId, productId, quantity, product.price, 0)])
  }

  /** With 2147483647 units in stock, two adds of 2000000000 each pass both
      checks as written and leave the line with a negative quantity; the
      checked rule refuses the second add. */
  lemma MergedQuantityWraps()
    ensures var p := Product(Some(5), "7790001", "Agua", None, 100, 0x7FFF_FFFF, "", true);
            var first := AddLineAsWritten([], 5, p, 2000000000, 1);
            && first == AddLine([], 5, p, 2000000000, 1)
            && first.Success?
            && var second := AddLineAsWritten(first.value, 5, p, 2000000000, 2);
            && second.Success? && second.value[0].quantity == -294967296
            && AddLine(first.value, 5, p, 2000000000, 2) == Failure(InsufficientStock(5))
  {
    var p := Product(Some(5), "7790001", "Agua", None, 100, 0x7FFF_FFFF, "", true);
    var line := SaleItem(1, 5, 2000000000, 100, 0);
    assert FindLine([], 5) == None;
    assert [] + [line] == [line];
    assert AddLineAsWritten([], 5, p, 2000000000, 1) == Success([line]);
    assert FindLine([line], 5) == Some(0);
    assert Int32Add(2000000000, 2000000000) == -294967296;
  }

  /** While the merged quantity fits in an int, the program as written and
      the checked rule agree. */
  lemma AsWrittenAgreesInRange(items: seq<SaleItem>, productId: nat, product: Product, quantity: int, freshId: nat, catalog: set<nat>)
    requires LinesValid(items, catalog) && quantity > 0
    requires QuantityInSale(items, productId) + quantity <= 0x7FFF_FFFF
    ensures AddLineAsWritten(items, productId, product, quantity, freshId) == AddLine(items, productId, product, quantity, freshId)
  {
    match FindLine(items, productId)
    case Some(k) =>
      assert LineValid(items[k]);
      assert Int32Add(items[k].quantity, quantity) == items[k].quantity + quantity;
    case None =>
  }

  /** The two stock checks together accept exactly when the stock covers the
      quantity already in the sale plus the quantity added. */
  lemma AddLineStockRule(items: seq<SaleItem>, productId: nat, product: Product, quantity: int, freshId: nat, catalog: set<nat>)
    requires LinesValid(items, catalog) && quantity > 0
    ensures AddLine(items, productId, product, quantity, freshId).Failure?
            <==> product.stock < QuantityInSale(items, productId) + quantity
    ensures AddLine(items, productId, product, quantity, freshId).Failure? ==>
            AddLine(items, productId, product, quantity, freshId).error == InsufficientStock(productId)
  {
  }

  /** A product already in the sale: its line grows by the quantity, no line
      is added and every other line stays as it was. */
  lemma AddLineMerges(items: seq<SaleItem>, productId: nat, product: Product, quantity: int, freshId: nat)
    requires FindLine(items, productId).Some?
    requires AddLine(items, productId, product, quantity, freshId).Success?
    ensures var r := AddLine(items, productId, product, quantity, freshId).value;
            var k := FindLine(items, productId).value;
            && |r| == |items|
            && r[k].quantity == items[k].quantity + quantity
            && r[k].id == items[k].id && r[k].unitPrice == items[k].unitPrice && r[k].discount == items[k].discount
            && forall j :: 0 <= j < |items| && j != k ==> r[j] == items[j]
  {
  }

  /** A product not yet in the sale: one line is appended at the end, for the
      product's current price, with no discount. */
  lemma AddLineAppends(items: seq<SaleItem>, productId: nat, product: Product, quantity: int, freshId: nat)
    requires FindLine(items, productId).None?
    requires AddLine(items, productId, product, quantity, freshId).Success?
    ensures var r := AddLine(items, productId, product, quantity, freshId).value;
            && |r| == |items| + 1 && r[..|items|] == items
            && r[|items|] == SaleItem(freshId, productId, quantity, product.price, 0)
  {
  }

  /** Adding keeps the lines valid: still one line per product. */
  lemma AddLineKeepsLinesValid(items: seq<SaleItem>, productId: nat, product: Product, quantity: int, freshId: nat, catalog: set<nat>)
    requires LinesValid(items, catalog) && productId in catalog
    requires quantity > 0 && product.price > 0
    requires AddLine(items, productId, product, quantity, freshId).Success?
    ensures LinesValid(AddLine(items, productId, product, quantity, freshId).value, catalog)
  {
    var r := AddLine(items, productId, product, quantity, freshId).value;
    match FindLine(items, productId)
    case Some(k) =>
      var line := items[k];
      assert (line.quantity + quantity) * line.unitPrice == line.quantity * line.unitPrice + quantity * line.unitPrice;
      assert quantity * line.unitPrice > 0;
    case None =>
  }

  /** The sum over the lines after an add grows by exactly the line total of
      what was added, at the line's unit price. */
  lemma AddLineSubtotal(items: seq<SaleItem>, productId: nat, product: Product, quantity: int, freshId: nat)
    requires AddLine(items, productId, product, quantity, freshId).Success?
    ensures var r := AddLine(items, productId, product, quantity, freshId).value;
            var price := match FindLine(items, productId) case Some(k) => items[k].unitPrice case None => product.price;
            SumLines(r) == SumLines(items) + quantity * price
  {
    var r := AddLine(items, productId, product, quantity, freshId).value;
    match FindLine(items, productId)
    case Some(k) =>
      SumLinesUpdate(items, k, r[k]);
      assert LineTotal(r[k]) == LineTotal(items[k]) + quantity * items[k].unitPrice by {
        assert (items[k].quantity + quantity) * items[k].unitPrice
            == items[k].quantity * items[k].unitPrice + quantity * items[k].unitPrice;
      }
    case None =>
      var line := SaleItem(freshId, productId, quantity, product.price, 0);
      SumLinesAppend(items, [line]);
      assert SumLines([line]) == LineTotal(line);
  }

  /** The worked example: a product at 100.00 with plenty of stock, added with
      quantity 2 and then 1, gives one line of quantity 3, a subtotal of
      300.00, a tax of 63.00 and a total of 363.00. */
  lemma WorkedExample()
    ensures var p := Product(Some(5), "123", "Item", None, 10000, 10, "SKU-123", true);
            var first := AddLine([], 5, p, 2, 1);
            && first.Success?
            && var second := AddLine(first.value, 5, p, 1, 2);
            && second.Success?
            && second.value == [SaleItem(1, 5, 3, 10000, 0)]
            && SumLines(second.value) == 30000
            && Tax(30000) == 6300
            && SumLines(second.value) + Tax(SumLines(second.value)) == 36300
  {
    var p := Product(Some(5), "123", "Item", None, 10000, 10, "SKU-123", true);
    var first := AddLine([], 5, p, 2, 1);
    assert first.value == [SaleItem(1, 5, 2, 10000, 0)];
    assert FindLine(first.value, 5) == Some(0);
    var second := AddLine(first.value, 5, p, 1, 2);
    assert second.value == [SaleItem(1, 5, 3, 10000, 0)];
    assert SumLines(second.value) == LineTotal(SaleItem(1, 5, 3, 10000, 0)) + SumLines([]);
  }

  // ---------------------------------------------------------------- removing

  predicate HasLine(items: seq<SaleItem>, itemId: nat) {
    exists k :: 0 <= k < |items| && items[k].id == itemId
  }

  /** items.removeIf(item -> item.getId().equals(itemId)). */
  function RemoveLines(items: seq<SaleItem>, itemId: nat): seq<SaleItem> {
    if items == [] then []
    else (if items[0].id == itemId then [] else [items[0]]) + RemoveLines(items[1..], itemId)
  }

  /** removeIf keeps every other line and drops every line with the id. */
  lemma {:induction false} RemoveLinesMembers(items: seq<SaleItem>, itemId: nat)
    ensures forall line :: line in RemoveLines(items, itemId) <==> line in items && line.id != itemId
  {
    if items != [] {
      RemoveLinesMembers(items[1..], itemId);
      assert items == [items[0]] + items[1..];
    }
  }

  /** removeIf keeps the order: it distributes over concatenation. */
  lemma {:induction false} RemoveLinesAppend(a: seq<SaleItem>, b: seq<SaleItem>, itemId: nat)
    ensures RemoveLines(a + b, itemId) == RemoveLines(a, itemId) + RemoveLines(b, itemId)
  {
    if a == [] {
      assert a + b == b;
    } else {
      assert (a + b)[1..] == a[1..] + b;
      RemoveLinesAppend(a[1..], b, itemId);
    }
  }

  /** With no line for the id, the lines stay as they were. */
  lemma {:induction false} RemoveLinesAbsent(items: seq<SaleItem>, itemId: nat)
    requires !HasLine(items, itemId)
    ensures RemoveLines(items, itemId) == items
  {
    if items != [] {
      assert !HasLine(items[1..], itemId);
      RemoveLinesAbsent(items[1..], itemId);
      assert items == [items[0]] + items[1..];
    }
  }

  /** When exactly line k has the id, removing it leaves the lines before and
      after k, in order. */
  lemma {:induction false} RemoveLinesSingle(items: seq<SaleItem>, itemId: nat, k: nat)
    requires k < |items| && items[k].id == itemId
    requires forall j :: 0 <= j < |items| && j != k ==> items[j].id != itemId
    ensures RemoveLines(items, itemId) == items[..k] + items[k + 1..]
  {
    var rest := items[1..];
    if k == 0 {
      assert !HasLine(rest, itemId);
      RemoveLinesAbsent(rest, itemId);
    } else {
      assert forall j :: 0 <= j < |rest| && j != k - 1 ==> rest[j].id != itemId;
      RemoveLinesSingle(rest, itemId, k - 1);
      assert items[..k] == [items[0]] + rest[..k - 1];
      assert items[k + 1..] == rest[k..];
    }
  }

  /** Removing lines keeps the lines valid. */
  lemma {:induction false} RemoveLinesKeepsLinesValid(items: seq<SaleItem>, itemId: nat, catalog: set<nat>)
    requires LinesValid(items, catalog)
    ensures LinesValid(RemoveLines(items, itemId), catalog)
  {
    if items != [] {
      var rest := RemoveLines(items[1..], itemId);
      RemoveLinesKeepsLinesValid(items[1..], itemId, catalog);
      RemoveLinesMembers(items[1..], itemId);
      if items[0].id != itemId {
        forall j | 0 <= j < |rest| ensures rest[j].productId != items[0].productId {
          assert rest[j] in items[1..];
        }
      }
    }
  }

  // ---------------------------------------------------------------- completing

  function ProductsOf(items: seq<SaleItem>): set<nat> {
    set k | 0 <= k < |items| :: items[k].productId
  }

  /** The completion loop: line by line, the product's stock goes down by the
      line's quantity; the first line that would take a stock below zero
      aborts, naming its product. */
  function Debit(catalog: map<nat, Product>, items: seq<SaleItem>): Result<map<nat, Product>, nat>
    requires forall k :: 0 <= k < |items| ==> items[k].productId in catalog
  {
    if items == [] then Success(catalog)
    else
      var pid := items[0].productId;
      var newStock := catalog[pid].stock - items[0].quantity;
      if newStock < 0 then Failure(pid)
      else Debit(catalog[pid := catalog[pid].(stock := newStock)], items[1..])
  }

  /** With one line per product, completion succeeds exactly when every
      product's stock covers its line, and then each line's product loses the
      line's quantity and every other product is left alone. */
  lemma {:induction false} DebitOnePerProduct(catalog: map<nat, Product>, items: seq<SaleItem>)
    requires forall k :: 0 <= k < |items| ==> items[k].productId in catalog
    requires DistinctProducts(items)
    ensures Debit(catalog, items).Success?
            <==> forall k :: 0 <= k < |items| ==> catalog[items[k].productId].stock >= items[k].quantity
    ensures Debit(catalog, items).Success? ==>
            var r := Debit(catalog, items).value;
            && r.Keys == catalog.Keys
            && (forall k :: 0 <= k < |items| ==>
                  r[items[k].productId] == catalog[items[k].productId].(stock := catalog[items[k].productId].stock - items[k].quantity))
            && (forall pid :: pid in catalog && pid !in ProductsOf(items) ==> r[pid] == catalog[pid])
  {
    if items != [] {
      var pid := items[0].productId;
      var newStock := catalog[pid].stock - items[0].quantity;
      if newStock >= 0 {
        var next := catalog[pid := catalog[pid].(stock := newStock)];
        var rest := items[1..];
        assert forall k :: 0 <= k < |rest| ==> rest[k].productId != pid by {
          forall k | 0 <= k < |rest| ensures rest[k].productId != pid {
            assert rest[k] == items[k + 1];
          }
        }
        assert DistinctProducts(rest) by {
          forall i, j | 0 <= i < j < |rest| ensures rest[i].productId != rest[j].productId {
            assert rest[i] == items[i + 1] && rest[j] == items[j + 1];
          }
        }
        DebitOnePerProduct(next, rest);
        if Debit(catalog, items).Success? {
          var r := Debit(catalog, items).value;
          forall k | 0 <= k < |items|
            ensures r[items[k].productId] == catalog[items[k].productId].(stock := catalog[items[k].productId].stock - items[k].quantity)
          {
            if k > 0 {
              assert items[k] == rest[k - 1];
            }
          }
          forall q | q in catalog && q !in ProductsOf(items) ensures r[q] == catalog[q] {
            assert q != pid;
            assert q !in ProductsOf(rest);
          }
        }
        if forall k :: 0 <= k < |items| ==> catalog[items[k].productId].stock >= items[k].quantity {
          forall k | 0 <= k < |rest| ensures next[rest[k].productId].stock >= rest[k].quantity {
            assert rest[k] == items[k + 1];
          }
        } else {
          var k :| 0 <= k < |items| && catalog[items[k].productId].stock < items[k].quantity;
          assert k > 0;
          assert rest[k - 1] == items[k];
        }
      }
    }
  }

  /** What the sale engine relies on in the catalog: every product has a
      positive price and a stock that is not negative. */
  predicate PricedAndStocked(catalog: map<nat, Product>) {
    forall pid :: pid in catalog ==> catalog[pid].price > 0 && catalog[pid].stock >= 0
  }

  /** A successful debit keeps every stock at zero or above and changes no key. */
  lemma {:induction false} DebitKeepsStock(catalog: map<nat, Product>, items: seq<SaleItem>)
    requires forall k :: 0 <= k < |items| ==> items[k].productId in catalog
    requires PricedAndStocked(catalog)
    requires Debit(catalog, items).Success?
    ensures Debit(catalog, items).value.Keys == catalog.Keys
    ensures PricedAndStocked(Debit(catalog, items).value)
  {
    if items != [] {
      var pid := items[0].productId;
      var newStock := catalog[pid].stock - items[0].quantity;
      DebitKeepsStock(catalog[pid := catalog[pid].(stock := newStock)], items[1..]);
    }
  }

  // ---------------------------------------------------------------- invoices

  /** LocalDateTime.format("yyyyMMdd"): eight digits. */
  predicate IsDatePrefix(p: string) {
    |p| == 8 && AllDigits(p)
  }

  /** String.format("%s-%04d", datePrefix, count + 1). */
  function InvoiceNumber(datePrefix: string, count: nat): string {
    datePrefix + "-" + Pad4(count + 1)
  }

  /** An invoice number of the shape yyyyMMdd-NNNN: a dash at position 8 and
      digits after it. */
  predicate WellFormedInvoice(inv: string) {
    |inv| >= 9 && inv[8] == '-' && AllDigits(inv[9..])
  }

  function SequenceOf(inv: string): nat
    requires WellFormedInvoice(inv)
  {
    DigitsValue(inv[9..])
  }

  /** The invoice number reads back as its date prefix, a dash and the
      sequence count + 1. */
  lemma InvoiceNumberReadsBack(datePrefix: string, count: nat)
    requires IsDatePrefix(datePrefix)
    ensures var inv := InvoiceNumber(datePrefix, count);
            && WellFormedInvoice(inv)
            && inv[..8] == datePrefix
            && SequenceOf(inv) == count + 1
            && StartsWith(inv, datePrefix + "-")
  {
    var inv := InvoiceNumber(datePrefix, count);
    assert inv[9..] == Pad4(count + 1);
    Pad4RoundTrip(count + 1);
    assert inv[..9] == datePrefix + "-";
  }

  /** For an eight-character prefix, "starts with prefix + '-'" is decided
      by the first eight characters of a well-formed number. */
  lemma PrefixMatch(inv: string, datePrefix: string)
    requires WellFormedInvoice(inv) && |datePrefix| == 8
    ensures StartsWith(inv, datePrefix + "-") <==> inv[..8] == datePrefix
  {
    if inv[..8] == datePrefix {
      assert inv[..9] == inv[..8] + [inv[8]];
    }
    if StartsWith(inv, datePrefix + "-") {
      assert inv[..8] == (datePrefix + "-")[..8];
    }
  }

  /** How many numbers of the invoice column (sale id to invoice number)
      start with the date prefix and a dash: the stream filter in
      generateInvoiceNumber. */
  function CountWith(column: map<nat, string>, datePrefix: string): nat {
    |DatedIds(column, datePrefix)|
  }

  function DatedIds(column: map<nat, string>, datePrefix: string): set<nat> {
    set id | id in column && StartsWith(column[id], datePrefix + "-")
  }

  /** The invoice column of a sale table built only by numbering: every number
      well formed, within its date's count, and no number used twice. */
  predicate ColumnValid(column: map<nat, string>) {
    && (forall k {:trigger WithinCount(column, k)} :: k in column ==> WithinCount(column, k))
    && (forall j, k {:trigger NumbersDiffer(column, j, k)} :: j in column && k in column ==> NumbersDiffer(column, j, k))
  }

  /** Entry k is a well-formed number whose sequence does not exceed the
      count of numbers with its date. */
  predicate WithinCount(column: map<nat, string>, k: nat)
    requires k in column
  {
    WellFormedInvoice(column[k]) && SequenceOf(column[k]) <= CountWith(column, column[k][..8])
  }

  /** Two different sales carry different numbers. */
  predicate NumbersDiffer(column: map<nat, string>, j: nat, k: nat)
    requires j in column && k in column
  {
    j == k || column[j] != column[k]
  }

  /** Adding one well-formed number raises its own date's count by one and
      leaves every other date's count alone. */
  lemma CountAfterInsert(column: map<nat, string>, nid: nat, inv: string, q: string)
    requires nid !in column && WellFormedInvoice(inv) && |q| == 8
    ensures CountWith(column[nid := inv], q) == CountWith(column, q) + (if inv[..8] == q then 1 else 0)
  {
    var column' := column[nid := inv];
    var before := DatedIds(column, q);
    var after := DatedIds(column', q);
    PrefixMatch(inv, q);
    if inv[..8] == q {
      assert nid !in before;
      assert after == before + {nid};
    } else {
      assert after == before;
    }
  }

  /** The next number for a date is used by no sale yet: every stored number
      of that date has a sequence at most the count, and the next one has
      the count + 1. */
  lemma NextInvoiceIsNew(column: map<nat, string>, datePrefix: string)
    requires ColumnValid(column) && IsDatePrefix(datePrefix)
    ensures forall id :: id in column ==> column[id] != InvoiceNumber(datePrefix, CountWith(column, datePrefix))
  {
    var count := CountWith(column, datePrefix);
    var inv := InvoiceNumber(datePrefix, count);
    InvoiceNumberReadsBack(datePrefix, count);
    forall id | id in column ensures column[id] != inv {
      assert WithinCount(column, id);
    }
  }

  /** The next number for a date is new, and storing it keeps the column
      valid. */
  lemma NextInvoiceKeepsColumnValid(column: map<nat, string>, nid: nat, datePrefix: string)
    requires ColumnValid(column) && nid !in column && IsDatePrefix(datePrefix)
    ensures var inv := InvoiceNumber(datePrefix, CountWith(column, datePrefix));
            && (forall id :: id in column ==> column[id] != inv)
            && ColumnValid(column[nid := inv])
  {
    var count := CountWith(column, datePrefix);
    var inv := InvoiceNumber(datePrefix, count);
    var after := column[nid := inv];
    InvoiceNumberReadsBack(datePrefix, count);
    NextInvoiceIsNew(column, datePrefix);
    forall k | k in after ensures WithinCount(after, k) {
      if k != nid {
        assert WithinCount(column, k);
      }
      CountAfterInsert(column, nid, inv, after[k][..8]);
    }
    forall j, k | j in after && k in after ensures NumbersDiffer(after, j, k) {
      if j != nid && k != nid {
        assert NumbersDiffer(column, j, k);
      }
    }
  }
}
