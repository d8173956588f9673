# Point-of-sale core, modelled in Dafny

This project models the core of a small JavaFX/Spring point-of-sale
application and proves properties of the model. The core is:

- the sale transaction engine (`SaleService` over the `Sale` aggregate and
  the product table). It opens sales with a dated invoice number, adds
  products by barcode, removes lines, completes sales (debiting stock) and
  cancels them, and keeps subtotal, 21% tax and total in step with the lines;
- the catalog services in both of their versions: product barcode/SKU
  uniqueness, soft deactivation, stock updates, category name uniqueness and
  the active-flag toggle;
- the barcode keystroke assembler of the scanner service;
- the small helpers:
  - text truncation and currency parsing;
  - the final price of a price row;
  - the inventory tab lookup;
  - the sales-history status converter, totals and filters;
  - the product form's field filters and input validation.

Modules, one per file:

| file | module | models |
|---|---|---|
| `wrappers.dfy` | `Wrappers` | `Option`, `Result`, `Outcome` |
| `text.dfy` | `Text` | `String.trim`, digit strings, `%04d` padding |
| `products.dfy` | `Products` | `Product`, `Category`, Bean Validation constraints, table lookups |
| `sale.dfy` | `Sales` | `Sale` (a class), its enumerations, `SaleItem` |
| `sale_rules.dfy` | `SaleRules` | line totals, tax, adding/removing lines, stock debit, invoice numbering |
| `sale_service.dfy` | `SaleEngine` | `SaleService` (a class over the sale and product tables) |
| `catalog_services.dfy` | `CatalogServices` | `services/ProductService`, `services/CategoryService` |
| `inventory_services.dfy` | `InventoryServices` | `services/products/ProductService`, `services/products/CategoryService` |
| `barcode_scanner.dfy` | `Scanner` | `BarcodeScannerService.nativeKeyPressed` |
| `formatter.dfy` | `Formatter` | `FormatterUtil` |
| `price.dfy` | `Pricing` | `Price.getFinalPrice` |
| `inventory_view.dfy` | `InventoryViews` | `InventoryView` |
| `sales_history.dfy` | `SalesHistory` | `SalesHistoryController` |
| `product_form.dfy` | `ProductFormView` | `ProductFormController` |

How the model stands in for the program:

- **Money.** The sale engine and the catalog keep money as integer cents. The
  tax on a subtotal `s` is `s * 0.21` rounded HALF_UP to cents, for either
  sign of `s`.
- **Exact decimals.** `Price` and `FormatterUtil` work with exact BigDecimal
  values, and those are Dafny `real`s.
- **Transactions.** Each `@Transactional` operation is one atomic step. It
  returns a `Result` or `Outcome` naming the exception it would throw, and on
  failure nothing it touched is changed.
- **Repositories.** They are maps keyed by id held by the services. An
  identity counter gives new rows their ids.
- **Inputs instead of I/O.** The date prefix `yyyyMMdd`, the current time and
  the cashier are parameters rather than the clock and the security context.
  So is the scanner's key timestamp.

## Model

| member | source | states |
|---|---|---|
| SaleEngine.SaleService.CreateNewSale | src/main/java/com/pos/service/SaleService.java:51-68 | The new sale is stored under a fresh id, IN_PROGRESS, with zero subtotal, tax and total, no lines, the given cashier, and the next invoice number of the day; that number differs from every stored one, and the service invariant and the invoice-column invariant are kept |
| SaleEngine.SaleService.NewSale | src/main/java/com/pos/service/SaleService.java:56-67 | The sale built by `new Sale()`, the setters and `save` (with the @PrePersist hook): IN_PROGRESS, zero totals, no lines, the given invoice, cashier, id and date |
| SaleEngine.SaleService.GenerateInvoiceNumber | src/main/java/com/pos/service/SaleService.java:233-246 | The number is the date prefix, a dash and one more than the count of stored invoices with that prefix, padded to four digits; on a validly numbered table it is new |
| SaleEngine.SaleService.InvoiceCount | src/main/java/com/pos/service/SaleService.java:238-243 | The number of stored sales whose invoice starts with the prefix and a dash equals the count over the invoice column |
| SaleRules.InvoiceNumberReadsBack | src/main/java/com/pos/service/SaleService.java:245 | A generated number has the shape `yyyyMMdd-NNNN`: it starts with the date prefix and a dash, and its digits read back as the sequence count + 1 |
| SaleRules.NextInvoiceIsNew | src/main/java/com/pos/service/SaleService.java:239-245 | On a column built only by numbering, the next number of a date is not already in the column |
| SaleRules.NextInvoiceKeepsColumnValid | src/main/java/com/pos/service/SaleService.java:239-245 | Storing the next number of a date under a new id keeps every number well formed, within its date's count and distinct |
| SaleRules.CountAfterInsert | src/main/java/com/pos/service/SaleService.java:239-243 | Adding a number under a new id raises the count of its own date by one and leaves other dates' counts alone |
| SaleRules.PrefixMatch | src/main/java/com/pos/service/SaleService.java:240 | A well-formed number starts with `prefix + "-"` exactly when its first eight characters are the prefix |
| Text.Pad4RoundTrip | src/main/java/com/pos/service/SaleService.java:245 | `%04d` padding of a number reads back as that number |
| Text.NatToStringRoundTrip | src/main/java/com/pos/service/SaleService.java:245 | The decimal digits of a number read back as the number |
| Text.ZeroPad | src/main/java/com/pos/service/SaleService.java:245 | Zero-padding keeps the digits at the end and reaches at least the width |
| SaleEngine.SaleService.GetSaleById | src/main/java/com/pos/service/SaleService.java:43-46 | Succeeds exactly when the id is stored, with the sale stored under it; otherwise the not-found error |
| SaleEngine.SaleService.AddProductByBarcode | src/main/java/com/pos/service/SaleService.java:74-129 | Missing sale, sale not IN_PROGRESS, unknown barcode, or stock short of the quantity (alone or merged into the existing line) fail in that order and leave the sale untouched; otherwise the sale's lines become those of adding the product, the totals match the lines, the returned line is in the sale for the found product, and the invariant is kept |
| SaleEngine.SaleService.PutLine | src/main/java/com/pos/service/SaleService.java:91-123 | The existing line for the product grows (failing, unchanged, when the stock does not cover the merged quantity) or a new line is appended; the lines stay valid and the totals match them |
| SaleRules.AddLineStockRule | src/main/java/com/pos/service/SaleService.java:87-105 | The two stock checks together fail exactly when the stock is below the quantity already in the sale plus the quantity added, naming the product |
| SaleRules.AddLineAsWritten | src/main/java/com/pos/service/SaleService.java:87-120 | The add as written, with the merged quantity computed as a wrapping 32-bit int sum; `MergedQuantityWraps` shows what that lets through |
| SaleRules.Int32Add | src/main/java/com/pos/service/SaleService.java:101 | Java's int `+`: always inside the 32-bit range, the exact sum when that fits, and the sum less 2^32 just past the top |
| SaleRules.MergedQuantityWraps | src/main/java/com/pos/service/SaleService.java:101-107 | With 2147483647 units in stock, a second add of 2000000000 passes both checks as written and sets the line's quantity to −294967296, while `AddLine` refuses it |
| SaleRules.AsWrittenAgreesInRange | src/main/java/com/pos/service/SaleService.java:87-120 | While the quantity in the sale plus the quantity added fits in an int, the add as written and `AddLine` give the same result |
| SaleRules.AddLineMerges | src/main/java/com/pos/service/SaleService.java:98-108 | A product already in the sale: its first line's quantity grows by the added quantity, its id, price and discount stay, and no other line changes or is added |
| SaleRules.AddLineAppends | src/main/java/com/pos/service/SaleService.java:109-120 | A product not yet in the sale: one line is appended at the end with the fresh id, the quantity, the product's current price and no discount, and the earlier lines are kept |
| SaleRules.AddLineKeepsLinesValid | src/main/java/com/pos/service/SaleService.java:92-120 | Adding keeps every line valid, for a catalog product, and one line per product |
| SaleRules.AddLineSubtotal | src/main/java/com/pos/service/SaleService.java:92-123 | Adding raises the subtotal by the quantity times the line's unit price |
| SaleRules.FindLine | src/main/java/com/pos/service/SaleService.java:92-94 | The index found is the first line for the product; none means no line is for it |
| SaleRules.WorkedExample | src/main/java/com/pos/service/SaleService.java:92-123 | Adding 2 and then 1 of a 100.00 product gives one line of 3, subtotal 300.00, tax 63.00 and total 363.00 |
| SaleEngine.SaleService.RemoveItem | src/main/java/com/pos/service/SaleService.java:135-155 | Missing sale, sale not IN_PROGRESS, or no line with the id fail and leave the sale untouched; otherwise every line with that id goes, the others keep their order, and the totals match the lines |
| SaleRules.RemoveLinesMembers | src/main/java/com/pos/service/SaleService.java:144 | `removeIf` keeps exactly the lines whose id differs |
| SaleRules.RemoveLinesAppend | src/main/java/com/pos/service/SaleService.java:144 | Removing from a concatenation removes from each part and keeps their order |
| SaleRules.RemoveLinesAbsent | src/main/java/com/pos/service/SaleService.java:144-148 | With no line of that id, nothing is removed |
| SaleRules.RemoveLinesSingle | src/main/java/com/pos/service/SaleService.java:144 | A single line with the id is cut out, and the lines before and after stay in order |
| SaleRules.RemoveLinesKeepsLinesValid | src/main/java/com/pos/service/SaleService.java:144 | Removing lines keeps the lines valid and one per product |
| SaleEngine.SaleService.CompleteSale | src/main/java/com/pos/service/SaleService.java:160-193 | Missing sale, not IN_PROGRESS, or no lines fail in that order; a line whose product lacks stock fails naming it, with products and sale unchanged; otherwise every line's product loses the line's quantity, and the sale takes the payment details and becomes COMPLETED |
| SaleEngine.SaleService.DebitStock | src/main/java/com/pos/service/SaleService.java:180-190 | The stock loop's outcome is the debit of the lines from the product table; on success every stock stays at zero or above |
| SaleEngine.SaleService.RecordCompletion | src/main/java/com/pos/service/SaleService.java:174-177 | The payment method, customer name, tax id and COMPLETED status are set |
| SaleRules.DebitOnePerProduct | src/main/java/com/pos/service/SaleService.java:180-190 | With one line per product, the loop succeeds exactly when every product covers its line; then each line's product loses exactly its quantity and every other product is as it was |
| SaleRules.DebitKeepsStock | src/main/java/com/pos/service/SaleService.java:180-190 | A successful debit keeps the same product ids and every stock at zero or above |
| SaleEngine.SaleService.CancelSale | src/main/java/com/pos/service/SaleService.java:198-209 | Only an IN_PROGRESS sale is cancelled; failures leave it untouched, and the product table is never changed |
| SaleEngine.SaleService.UpdateSaleTotals | src/main/java/com/pos/service/SaleService.java:214-228 | Subtotal is the sum of the line totals, tax is HALF_UP of 21% of it at cents, total is their sum |
| SaleRules.Tax | src/main/java/com/pos/service/SaleService.java:220 | The tax is 21% of the subtotal rounded to the nearest cent, halves away from zero |
| SaleRules.TaxBounds | src/main/java/com/pos/service/SaleService.java:220 | The tax of a non-negative subtotal lies between zero and the subtotal |
| SaleRules.TaxIsOdd | src/main/java/com/pos/service/SaleService.java:220 | HALF_UP rounds symmetrically: the tax of `-s` is minus the tax of `s` |
| SaleRules.SumLinesAppend | src/main/java/com/pos/service/SaleService.java:215-217 | The sum over a concatenation is the sum of the parts |
| SaleRules.SumLinesUpdate | src/main/java/com/pos/service/SaleService.java:215-217 | Replacing one line changes the sum by the difference of the two line totals |
| SaleRules.TotalsNonNegative | src/main/java/com/pos/service/SaleService.java:214-228 | Over valid lines, subtotal, tax and total are never negative |
| SaleEngine.StoreKeepsColumn | src/main/java/com/pos/service/SaleService.java:64-67 | Storing a sale adds its invoice number to the invoice column under its key |
| Sales.Sale.constructor | src/main/java/com/pos/models/Sale.java:54-56 | `new Sale()`: nothing set and an empty item list |
| Sales.Sale.WithInvoice | src/main/java/com/pos/models/Sale.java:58-67 | IN_PROGRESS, zero subtotal, tax and total, no items, the given invoice number and cashier, dated now |
| Sales.Sale.OnCreate | src/main/java/com/pos/models/Sale.java:70-76 | The date is stamped; a missing status becomes COMPLETED and a set one is kept |
| Sales.Sale.AddItem | src/main/java/com/pos/models/Sale.java:176-179 | The item is appended at the end and the rest of the list is unchanged |
| Sales.Sale.RemoveItem | src/main/java/com/pos/models/Sale.java:181-184 | The list loses the first occurrence of the item |
| Sales.RemoveFirstSplits | src/main/java/com/pos/models/Sale.java:182 | Removing drops exactly the first occurrence and keeps the others in order |
| Sales.RemoveFirstAbsent | src/main/java/com/pos/models/Sale.java:182 | Removing a missing item leaves the list as it was |
| Sales.RemoveFirstMultiset | src/main/java/com/pos/models/Sale.java:182 | As a multiset, removing takes away exactly one copy of the item |
| Sales.IndexOf | src/main/java/com/pos/models/Sale.java:182 | The index is of the first occurrence |
| Sales.Sale.Equals | src/main/java/com/pos/models/Sale.java:187-193 | Two sales are equal exactly when their ids are equal |
| Sales.EqualsIsEquivalence | src/main/java/com/pos/models/Sale.java:187-193 | `equals` is reflexive, symmetric and transitive |
| Sales.StatusesAreExactlyFour | src/main/java/com/pos/models/Sale.java:217-219 | The statuses are exactly IN_PROGRESS, COMPLETED, CANCELLED and REFUNDED, each once |
| Sales.PaymentMethodsAreExactlyFive | src/main/java/com/pos/models/Sale.java:213-215 | The payment methods are exactly CASH, CREDIT_CARD, DEBIT_CARD, TRANSFER and OTHER, each once |
| Products.NewProduct | src/main/java/com/pos/models/Product.java:53-59 | The parameterised constructor sets barcode, name, description, price and stock as given and no id |
| Products.ValidIffNoViolations | src/main/java/com/pos/models/Product.java:18-36 | A product has no violation exactly when its barcode and name hold a non-white-space character, its price is above zero and its stock is not negative |
| Products.Violations | src/main/java/com/pos/models/Product.java:18-36 | A constraint is reported exactly when the product breaks it |
| Text.TrimEmptyIff | src/main/java/com/pos/models/Product.java:19 | A text is blank after `trim` exactly when every character is at most a space |
| Text.TrimStartDrops | src/main/java/com/pos/models/Product.java:19 | Trimming the front drops exactly the leading run of characters at most a space |
| Text.TrimEndDrops | src/main/java/com/pos/models/Product.java:19 | Trimming the back drops exactly the trailing run of characters at most a space |
| Text.TrimOfTrimmed | src/main/java/com/pos/models/Product.java:19 | A text starting and ending with other characters is its own trim |
| Products.FindByBarcode | src/main/java/com/pos/service/SaleService.java:83-84 | On a unique barcode column, the id found holds the barcode; none means no product has it |
| CatalogServices.ProductService.GetAllActiveProducts | src/main/java/com/pos/services/ProductService.java:37-39 | Exactly the products whose active flag is set, unchanged |
| CatalogServices.ProductService.SaveProduct | src/main/java/com/pos/services/ProductService.java:45-64 | Fails exactly when the uniqueness checks fail or the product breaks the entity's constraints, with that error and nothing stored; otherwise the product is stored under its own id or the next one, barcodes and SKUs stay unique and every stored row stays valid |
| CatalogServices.SaveRefusal | src/main/java/com/pos/services/ProductService.java:45-64 | A save is refused exactly when a uniqueness check fails or the product is invalid; the uniqueness error comes first, and otherwise the error carries exactly the broken constraints, never none |
| CatalogServices.StoreKeepsRowsValid | src/main/java/com/pos/models/Product.java:19-36 | Writing a row that meets the constraints keeps every stored row valid |
| CatalogServices.SaveKeepsUnique | src/main/java/com/pos/services/ProductService.java:45-64 | A save that passes the checks keeps barcodes and SKUs unique and each row under its own id |
| CatalogServices.ResaveOwnCodesAllowed | src/main/java/com/pos/services/ProductService.java:50-61 | Saving an existing product that keeps its own barcode and SKU passes the checks |
| CatalogServices.ProductService.Store | src/main/java/com/pos/services/ProductService.java:63 | `save` stores the row under its id, or under the next identity value for a new row |
| CatalogServices.ProductService.DeactivateProduct | src/main/java/com/pos/services/ProductService.java:83-90 | Fails exactly on an unknown id; otherwise only that product's active flag becomes false |
| CatalogServices.ProductService.UpdateStock | src/main/java/com/pos/services/ProductService.java:95-106 | A negative stock is refused before the lookup, then an unknown id; otherwise the stock is set to exactly the value and nothing else changes |
| CatalogServices.CategoryService.GetAllActiveCategories | src/main/java/com/pos/services/CategoryService.java:28-30 | Exactly the active categories, unchanged |
| CatalogServices.CategoryService.SaveCategory | src/main/java/com/pos/services/CategoryService.java:50-57 | Fails exactly for a new category whose name is taken; a category with an id skips the check; a save stores it under its id or the next one |
| CatalogServices.CategoryService.DeactivateCategory | src/main/java/com/pos/services/CategoryService.java:62-69 | Fails exactly on an unknown id; otherwise only that category's active flag becomes false |
| Products.SaveKey | src/main/java/com/pos/services/CategoryService.java:56 | A row with an id is saved under it, a new row under the next identity value |
| Products.NextIdAfter | src/main/java/com/pos/services/CategoryService.java:56 | The identity counter moves past every key in use |
| InventoryServices.ProductService.CreateProduct | src/main/java/com/pos/services/products/ProductService.java:39-45 | Fails exactly when the barcode exists, storing nothing; otherwise the product is stored as JPA `save` stores it: under its own id when it carries one (replacing a stored row with that id), or under the next identity value, and comes back with that id |
| InventoryServices.ProductService.UpdateProduct | src/main/java/com/pos/services/products/ProductService.java:54-75 | An unknown id fails; a barcode changed to one in use fails; an unchanged barcode is accepted; on success barcode, name, description and price are copied and the stored stock is kept |
| InventoryServices.CopyEdits | src/main/java/com/pos/services/products/ProductService.java:67-71 | The copied fields come from the edit, and stock, id, SKU and active flag from the stored row |
| InventoryServices.ProductService.UpdateStock | src/main/java/com/pos/services/products/ProductService.java:152-174 | Fails exactly on an unknown id; otherwise the stored product comes back with its stock unchanged |
| InventoryServices.ProductService.DeleteById | src/main/java/com/pos/services/products/ProductService.java:139-142 | The id is gone and every other product is unchanged |
| InventoryServices.CategoryService.CreateCategory | src/main/java/com/pos/services/products/CategoryService.java:49-56 | Fails exactly when a category has the name, storing nothing; otherwise it is stored |
| InventoryServices.CategoryService.Store | src/main/java/com/pos/services/products/CategoryService.java:39 | `save` refuses a name held by another row (the unique name column) and otherwise stores the row |
| InventoryServices.StoreKeepsNamesUnique | src/main/java/com/pos/services/products/CategoryService.java:39 | Storing a row whose name no other row holds keeps names unique |
| InventoryServices.CategoryService.UpdateCategory | src/main/java/com/pos/services/products/CategoryService.java:32-42 | An unknown id fails; otherwise the category replaces the stored one unless its name belongs to another row |
| InventoryServices.CategoryService.UpdateCategoryActiveById | src/main/java/com/pos/services/products/CategoryService.java:58-66 | Fails exactly on an unknown id; otherwise only that category's active flag is negated |
| InventoryServices.Toggled | src/main/java/com/pos/services/products/CategoryService.java:63 | Only the active flag changes, to its negation |
| InventoryServices.ToggleTwiceRestores | src/main/java/com/pos/services/products/CategoryService.java:59-66 | Toggling twice gives back the original table |
| InventoryServices.CategoryService.DeleteCategoryById | src/main/java/com/pos/services/products/CategoryService.java:44-47 | The id is gone and every other category is unchanged |
| Scanner.Step | src/main/java/com/pos/services/BarcodeScannerService.java:71-115 | The last input time becomes now; the buffer never exceeds 50 characters; a code is handed on only at Enter, non-empty, with a callback set |
| Scanner.IdlePressIgnored | src/main/java/com/pos/services/BarcodeScannerService.java:80-82 | Not scanning and within the timeout, a key changes only the last input time |
| Scanner.LatePressStartsScan | src/main/java/com/pos/services/BarcodeScannerService.java:75-107 | After the timeout the buffer is cleared and scanning starts: a character key leaves just that character, an undefined one nothing, and Enter hands nothing on and stops |
| Scanner.PromptKeyOverflows | src/main/java/com/pos/services/BarcodeScannerService.java:101-113 | While scanning, a defined character key on a full 50-character buffer throws the buffer away and stops scanning, handing nothing on |
| Scanner.PromptUndefinedKeeps | src/main/java/com/pos/services/BarcodeScannerService.java:101-115 | While scanning, a key with no character leaves the buffer as it is and keeps scanning |
| Scanner.PromptKeyAppends | src/main/java/com/pos/services/BarcodeScannerService.java:101-107 | While scanning, a defined character key appends exactly that character |
| Scanner.PromptEnterHandsOn | src/main/java/com/pos/services/BarcodeScannerService.java:86-100 | While scanning, Enter hands on the trimmed buffer when it is non-empty and a callback is set, then empties the buffer and stops scanning |
| Scanner.TypingThenEnter | src/main/java/com/pos/services/BarcodeScannerService.java:71-115 | Keys typed within the timeout and then Enter hand on the trimmed buffer plus the typed characters, and leave the scanner idle with an empty buffer |
| Scanner.ScanHandsOnCode | src/main/java/com/pos/services/BarcodeScannerService.java:71-115 | A fast burst after a pause, ended by Enter, hands on exactly the trimmed burst |
| Scanner.BarcodeScannerService.NativeKeyPressed | src/main/java/com/pos/services/BarcodeScannerService.java:71-115 | The new buffer, flag and time and the code handed on are those of one step of the keystroke machine |
| Scanner.BarcodeScannerService.SetBarcodeCallback | src/main/java/com/pos/services/BarcodeScannerService.java:66-68 | Records whether a callback is set |
| Formatter.TruncateText | src/main/java/com/pos/utils/FormatterUtil.java:74-79 | Null and texts within the limit come back unchanged; a longer text fails exactly when the limit is below 3, and otherwise becomes its first limit−3 characters and "...", exactly the limit long |
| Formatter.TruncateIdempotent | src/main/java/com/pos/utils/FormatterUtil.java:74-79 | Truncating a truncated text changes nothing |
| Formatter.ParseCurrency | src/main/java/com/pos/utils/FormatterUtil.java:84-96 | Never negative; null or blank input gives 0; a cleaned text that is not a decimal gives 0 |
| Formatter.NoDigitsParsesToZero | src/main/java/com/pos/utils/FormatterUtil.java:89-95 | A text with no digit or point parses to 0 |
| Formatter.MinusIgnored | src/main/java/com/pos/utils/FormatterUtil.java:91 | A leading minus is dropped: the sign never reaches the value |
| Formatter.TwoPointsParseToZero | src/main/java/com/pos/utils/FormatterUtil.java:89-95 | Whenever the cleaned text has two points, the text parses to 0 |
| Formatter.SecondPointRefused | src/main/java/com/pos/utils/FormatterUtil.java:92 | Any text with two points is refused as a decimal |
| Formatter.WholeNumberReadsBack | src/main/java/com/pos/utils/FormatterUtil.java:84-96 | The digits of a whole number parse back to that number |
| Formatter.CleanKeeps | src/main/java/com/pos/utils/FormatterUtil.java:91 | Cleaning keeps a text of digits and points and empties one with neither |
| Formatter.CleanAppend | src/main/java/com/pos/utils/FormatterUtil.java:91 | Cleaning a concatenation cleans each part |
| Formatter.DecimalOf | src/main/java/com/pos/utils/FormatterUtil.java:92 | A text of digits and at most one point reads as a non-negative decimal; "" and "." are refused |
| Formatter.PointedDecimal | src/main/java/com/pos/utils/FormatterUtil.java:92 | Digits, a point and digits, with a digit on at least one side (so ".5" and "5." too), read as the whole part plus the fraction |
| Formatter.FormatPercent | src/main/java/com/pos/utils/FormatterUtil.java:44-49 | Null gives "0%"; otherwise it fails exactly when `setScale(2)` would lose digits, and ends in '%' |
| Formatter.SetScale2 | src/main/java/com/pos/utils/FormatterUtil.java:48 | At scale 2 the value is unchanged |
| Formatter.PercentReadsBack | src/main/java/com/pos/utils/FormatterUtil.java:44-96 | Parsing a formatted percentage gives back the absolute value of the number |
| Formatter.RenderingReadsBack | src/main/java/com/pos/utils/FormatterUtil.java:48-96 | A plain two-decimal rendering followed by '%' parses back to the absolute value in hundredths |
| Formatter.FormatNumber | src/main/java/com/pos/utils/FormatterUtil.java:34-39 | Null gives "0" |
| Formatter.FormatDate | src/main/java/com/pos/utils/FormatterUtil.java:54-69 | Null gives "" (for dates and date-times alike) |
| Pricing.BasePrice | src/main/java/com/pos/models/Price.java:72-73 | Retail takes the sale price; wholesale takes the wholesale price when set and the sale price otherwise |
| Pricing.FinalPrice | src/main/java/com/pos/models/Price.java:71-80 | Without a tax the base price exactly; with a tax, base × (100 + percentage) / 100 exactly |
| Pricing.TaxRemovable | src/main/java/com/pos/models/Price.java:75-78 | Dividing the taxed price by the tax factor gives back the base price |
| Pricing.TaxRaisesPrice | src/main/java/com/pos/models/Price.java:75-78 | A positive tax makes a positive base price strictly dearer |
| Pricing.RetailIgnoresWholesale | src/main/java/com/pos/models/Price.java:72-73 | The retail final price does not depend on the wholesale price |
| Pricing.WholesaleFallsBack | src/main/java/com/pos/models/Price.java:72-73 | Without a wholesale price, wholesale and retail final prices agree |
| Pricing.WholesaleNotDearer | src/main/java/com/pos/models/Price.java:71-80 | A wholesale price at most the sale price never gives a dearer final price |
| InventoryViews.GetByTabId | src/main/java/com/pos/controllers/products/InventoryView.java:26-33 | Succeeds with the view of that tab id, and fails, naming the id, exactly when the id is neither "productTab" nor "categoryTab" |
| InventoryViews.FirstWithTabId | src/main/java/com/pos/controllers/products/InventoryView.java:27-31 | A view found is among the views and has the tab id; none found means no view has it |
| InventoryViews.LookupRoundTrip | src/main/java/com/pos/controllers/products/InventoryView.java:13-31 | Every view is found again by its own tab id |
| InventoryViews.TabsLoadTheirViews | src/main/java/com/pos/controllers/products/InventoryView.java:7-8 | The product tab loads the product list view and the category tab the category view |
| SalesHistory.StatusToString | src/main/java/com/pos/controller/SalesHistoryController.java:202-213 | "Todos" is shown exactly for no status |
| SalesHistory.StatusFromString | src/main/java/com/pos/controller/SalesHistoryController.java:216-227 | No status exactly for null and "Todos"; a status read is named by its label or enum name; it fails exactly on a text that is neither "Todos" nor any label or enum name |
| SalesHistory.EnumNameReads | src/main/java/com/pos/controller/SalesHistoryController.java:224 | The `valueOf` fallback: an enum constant's name reads as its own status |
| SalesHistory.ConverterRoundTrip | src/main/java/com/pos/controller/SalesHistoryController.java:200-227 | Every choice, "Todos" included, reads back from its label |
| SalesHistory.ConverterSettles | src/main/java/com/pos/controller/SalesHistoryController.java:200-227 | A text that reads as a choice reads as the same choice after being shown |
| SalesHistory.CustomerDisplay | src/main/java/com/pos/controller/SalesHistoryController.java:88-92 | The name when present and non-empty, "Consumidor Final" otherwise |
| SalesHistory.SalesHistoryController.CalculateTotal | src/main/java/com/pos/controller/SalesHistoryController.java:361-366 | The total is the sum over the completed sales on show |
| SalesHistory.TotalCountsOnlyCompleted | src/main/java/com/pos/controller/SalesHistoryController.java:361-366 | Filtering to COMPLETED keeps the total; filtering to any other status makes it 0 |
| SalesHistory.CompletedTotalAppend | src/main/java/com/pos/controller/SalesHistoryController.java:362-365 | The total of a concatenation is the sum of the parts' totals |
| SalesHistory.WithStatus | src/main/java/com/pos/controller/SalesHistoryController.java:411-415 | No selection keeps every sale; otherwise exactly the sales with the selected status are kept |
| SalesHistory.WithStatusAppend | src/main/java/com/pos/controller/SalesHistoryController.java:411-415 | Filtering keeps the sales in order: a concatenation filters part by part |
| SalesHistory.SalesHistoryController.ApplyFilters | src/main/java/com/pos/controller/SalesHistoryController.java:387-423 | A missing date, then a start after the end, give a warning and change nothing; otherwise the fetched sales narrowed to the status are shown and the total is recomputed |
| ProductFormView.ProductForm.Edit | src/main/java/com/pos/controllers/ProductFormController.java:76-87 | A price edit not matching `\d*(\.\d*)?`, or a stock edit not all digits, is reverted; other fields take the edit; the filters' invariant is kept |
| ProductFormView.FilteredPriceParses | src/main/java/com/pos/controllers/ProductFormController.java:76-80 | A price text the filter admits is a decimal unless it is empty or a lone point |
| ProductFormView.PriceTextDecimalChars | src/main/java/com/pos/controllers/ProductFormController.java:76-80 | A price text the filter admits holds only digits and a point |
| ProductFormView.FilteredTextUntrimmed | src/main/java/com/pos/controllers/ProductFormController.java:182-183 | A filtered price or stock text is its own trim |
| ProductFormView.StockValue | src/main/java/com/pos/controllers/ProductFormController.java:225 | A filtered stock text fails exactly when it is empty or its value passes 2147483647; otherwise it reads as its digits' value |
| ProductFormView.StockReadsBack | src/main/java/com/pos/controllers/ProductFormController.java:111 | A stock the form shows as `toString` text passes the filter and reads back as itself |
| ProductFormView.FirstInputError | src/main/java/com/pos/controllers/ProductFormController.java:191-237 | No message exactly when barcode and name are not blank, the price parses above zero and the stock parses at zero or above; otherwise the message of the first failing check, in the order barcode, name, price, stock |
| ProductFormView.NegativeStockNeverReported | src/main/java/com/pos/controllers/ProductFormController.java:83-87 | Under the stock filter the negative-stock message is never shown |
| ProductFormView.AcceptedInputIsValid | src/main/java/com/pos/controllers/ProductFormController.java:178-184 | Accepted input gives a trimmed barcode and name that are not blank, a positive price and a stock at zero or above |
| Text.TrimIdempotent | src/main/java/com/pos/controllers/ProductFormController.java:179-180 | Trimming a trimmed text changes nothing |
| ProductFormView.ProductForm.ValidateInput | src/main/java/com/pos/controllers/ProductFormController.java:191-237 | Accepts exactly when there is no input error; the error label shows the first error's message, or is cleared |
| ProductFormView.ProductForm.SaveProduct | src/main/java/com/pos/controllers/ProductFormController.java:137-184 | When validation fails nothing is requested; otherwise a create request for a new product, or an update of the edited one, with the trimmed texts and the parsed price and stock |
| ProductFormView.ProductForm.constructor | src/main/java/com/pos/controllers/ProductFormController.java:71-73 | An empty form with a cleared error label, inside the filters |

## Left out

- Concurrency. Each `@Transactional` method is one atomic step. The race
  between two registers creating invoice numbers or debiting the same stock
  is not modelled.
- The clock, the security context and the user service are not modelled. The
  date prefix, the current time and the cashier id are parameters.
- `SaleItem` is not part of this model. Its line total (`calculateTotals`) is
  assumed to be quantity × unit price − discount, and a line keeps the
  product's id rather than the product object.
- `LineTotal`, `SumLines`, `AddLine`, `RemoveLines` and `Debit` are
  reference definitions. What they mean is stated by the lemmas about them.
- `AddProductByBarcode` requires `quantity > 0`. The only check of that is in
  the point-of-sale screen, not in the service.
- `SaleEngine.SaleService.Valid` keeps the catalog with positive prices and
  stock at zero or above (`PricedAndStocked`), not the full Bean Validation
  constraints. Blank barcodes and names are not re-checked by the sale engine.
- `CompleteSale` sets the payment details after the stock loop rather than
  before. Under the transaction's rollback the two orders end in the same
  state.
- `SaleEngine.SaleService.NewSale` builds the sale with the two-argument
  constructor followed by the id and the @PrePersist hook. `createNewSale`
  uses `new Sale()` and setters, which leave the same fields.
- The exception messages are not modelled; errors are datatype constructors.
  The exception kinds (`IllegalArgumentException` or `IllegalStateException`)
  are not modelled either.
- `getTodaySales`, `getSalesBetweenDates` and `getTodayTotalSales` are not
  modelled. They are repository date queries on the clock.
- `SaleEngine.SaleService.CreateNewSale` does not model column constraints
  checked at insert. `Sale.paymentMethod` is `@Column(nullable = false)`
  (`models/Sale.java:38-40`) and `createNewSale` never sets it, so on a
  schema generated from those annotations the insert would be refused; the
  model stores the sale with no payment method and always succeeds.
- Null fields and `hashCode` are not modelled, and neither are the `toString`
  methods.
- `sku` and `active` belong to the product row here, because
  `services/ProductService` reads and writes them. The `Product` entity in
  the model's source does not declare them.
- The repository queries are not modelled: name search, low stock, paging,
  sorting and `findAll`/`findById` wrappers. JPA's `save` is modelled as
  storing under the row's id or the next identity value.
- `InventoryServices.ProductService.DeleteById` and
  `InventoryServices.CategoryService.DeleteCategoryById` state the table
  after the delete. A missing id is a silent no-op by the model's choice,
  as Spring Data JPA 3's `deleteById` (find, then delete if present) does;
  older versions threw for a missing id, and that is not modelled.
- `InventoryServices.CategoryService.DeleteCategoryById` does not model the
  cascade of `Category.products` (`CascadeType.ALL`,
  `models/products/Category.java:24`). Removing a category also removes every
  product of that category; the category service here holds no product
  table, so those products stay in the model.
- `InventoryServices.ProductService.CreateProduct` and
  `InventoryServices.ProductService.UpdateProduct` apply no entity validation
  at save: they store `com.pos.models.products.Product`, and
  `models/products/Product.java` is not part of this model, so its
  constraints are unknown. `CatalogServices.ProductService.SaveProduct` does
  apply the constraints of `com.pos.models.Product`.
- `InventoryServices.CategoryService.CreateCategory` checks the name only as
  `findByName` does. A DTO that carries an existing id is stored under it.
- The category DTO and its MapStruct mapper are treated as the category row,
  field for field.
- `Scanner.Step` takes each key-pressed event's `keyChar` as given. The
  model assumes press events carry the typed character. The native hook
  library is not part of this model; if it reports `CHAR_UNDEFINED` on every
  press and delivers characters only on key-typed events, the buffer never
  fills and `Scanner.ScanHandsOnCode` describes no real scan.
- Scanner plumbing is not modelled: the native hook, the executor, the 10 ms
  callback delay and `System.currentTimeMillis`. `NativeKeyPressed` returns
  the code it would hand to the callback.
- `Scanner.TypingThenEnter` and `Scanner.ScanHandsOnCode` cover runs whose
  buffer stays within 50 characters. Overflow is stated one step at a time
  by `Scanner.PromptKeyOverflows`.
- Locale formatting is not modelled: `formatCurrency`, and the non-null paths
  of `formatNumber`, `formatDate` and `formatDateTime`. Those paths are
  parameters of `Formatter.FormatNumber` and `Formatter.FormatDate`.
- `Formatter.DecimalOf` reads texts of digits and points only. After
  `parseCurrency`'s cleaning no other character is left. BigDecimal's sign
  and exponent grammar is not modelled, so the form's price text, which the
  filter limits to digits and a point, is covered too.
- The price setters are record updates of the `Price` datatype. The
  `updateDate` timestamp and the product link are not modelled.
- The sales-history screen keeps each sale as a snapshot row of the fields it
  reads: invoice, status, total and customer. The sales returned by the date
  query are the `fetched` input of `ApplyFilters`. `loadTodaySales`, the
  detail table and the labels and alerts are not modelled.
- Dates in the sales-history filter are day numbers.
- The product form's focus requests, title, closing and list refresh are not
  modelled. `setProduct`'s population of the fields (which renders the
  BigDecimal price) is not modelled. Fields change through `Edit`.
- `ProductFormView.ProductForm.SaveProduct` returns the create or update
  request it would send. The request carries the price as the exact decimal
  typed, while the product table in `InventoryServices` keeps integer cents.
  Calling the service and showing its error in the label are not modelled.
  The controller imports `com.pos.services.ProductService`, but calls
  `createProduct`/`updateProduct`, which only
  `com.pos.services.products.ProductService` declares.
- `SaleRules.AddLine`, `SaleEngine.SaleService.PutLine`,
  `SaleRules.AddLineStockRule` and `SaleEngine.SaleService.AddProductByBarcode`
  compare the merged quantity without Java's 32-bit wrap-around. The model
  follows the evidently intended check, so once the quantity in the sale plus
  the quantity added passes 2147483647 it refuses the add, where the program
  accepts it with a negative quantity (see "## Findings").
- `Formatter.TruncateText` and every other text operation count Unicode
  scalar values, where Java's `length` and `substring` count UTF-16 code
  units. The two agree on text inside the Basic Multilingual Plane; a
  character outside it counts once here and twice in Java, and a lone
  surrogate (which a scanner's `keyChar` can be) is not a character here.

## Findings

| source | as written | input that shows it | evidently intended | confidence | as-written member | corrected member |
|---|---|---|---|---|---|---|
| src/main/java/com/pos/service/SaleService.java:101-107 | the merged quantity is an `int` sum, which wraps past 2147483647 before the second stock check compares it with the stock | stock 2147483647; add 2000000000, then add 2000000000 again: the second add passes and the line's quantity becomes −294967296 | refuse the add when the stock is below the quantity in the sale plus the quantity added | not executed | SaleRules.MergedQuantityWraps | SaleRules.AddLineStockRule |
