/** The Sale aggregate: its status and payment enumerations, the line items it
    owns and the entity's own mutators. Money is in integer cents. */
module Sales {
  import opened Wrappers

  datatype SaleStatus = InProgress | Completed | Cancelled | Refunded

  datatype PaymentMethod = Cash | CreditCard | DebitCard | Transfer | Other

  /** The statuses in declaration order (SaleStatus.values()). */
  function AllStatuses(): seq<SaleStatus> {
    [InProgress, Completed, Cancelled, Refunded]
  }

  /** The payment methods in declaration order (PaymentMethod.values()). */
  function AllPaymentMethods(): seq<PaymentMethod> {
    [Cash, CreditCard, DebitCard, Transfer, Other]
  }

  /** values() lists every status once, and there are exactly four. */
  lemma StatusesAreExactlyFour(s: SaleStatus)
    ensures s in AllStatuses() && |AllStatuses()| == 4
    ensures forall i, j :: 0 <= i < j < 4 ==> AllStatuses()[i] != AllStatuses()[j]
  {
    match s
    case InProgress => assert AllStatuses()[0] == s;
    case Completed => assert AllStatuses()[1] == s;
    case Cancelled => assert AllStatuses()[2] == s;
    case Refunded => assert AllStatuses()[3] == s;
  }

  /** values() lists every payment method once, and there are exactly five. */
  lemma PaymentMethodsAreExactlyFive(m: PaymentMethod)
    ensures m in AllPaymentMethods() && |AllPaymentMethods()| == 5
    ensures forall i, j :: 0 <= i < j < 5 ==> AllPaymentMethods()[i] != AllPaymentMethods()[j]
  {
    match m
    case Cash => assert AllPaymentMethods()[0] == m;
    case CreditCard => assert AllPaymentMethods()[1] == m;
    case DebitCard => assert AllPaymentMethods()[2] == m;
    case Transfer => assert AllPaymentMethods()[3] == m;
    case Other => assert AllPaymentMethods()[4] == m;
  }

  /** One line of a sale. SaleItem is not part of this model's source, so this
      shape is an assumption: the line keeps the id of the product sold, the
      quantity, the unit price captured when the line was created, and a
      discount. */
  datatype SaleItem = SaleItem(id: nat, productId: nat, quantity: int, unitPrice: int, discount: int)

  /** Assumed SaleItem.calculateTotals: quantity times unit price less the
      discount. */
  function LineTotal(item: SaleItem): int {
    item.quantity * item.unitPrice - item.discount
  }

  class Sale {
    var id: Option<nat>
    /** Set once, before the sale is first stored, and never changed after. */
    const invoiceNumber: string
    var saleDate: Option<int>
    var cashier: Option<nat>
    var subtotal: int
    var taxAmount: int
    var totalAmount: int
    var paymentMethod: Option<PaymentMethod>
    var status: Option<SaleStatus>
    var customerName: Option<string>
    var customerTaxId: Option<string>
    var items: seq<SaleItem>

    /** Sale(): nothing set yet and an empty item list. */
    constructor ()
      ensures id == None && invoiceNumber == [] && saleDate == None && cashier == None
      ensures subtotal == 0 && taxAmount == 0 && totalAmount == 0
      ensures paymentMethod == None && status == None
      ensures customerName == None && customerTaxId == None
      ensures items == []
    {
      invoiceNumber := [];
      id, saleDate, cashier := None, None, None;
      subtotal, taxAmount, totalAmount := 0, 0, 0;
      paymentMethod, status := None, None;
      customerName, customerTaxId := None, None;
      items := [];
    }

    /** Sale(invoiceNumber, cashier): an open sale with zero totals, dated now. */
    constructor WithInvoice(invoiceNumber: string, cashier: nat, now: int)
      ensures this.invoiceNumber == invoiceNumber && this.cashier == Some(cashier)
      ensures saleDate == Some(now) && status == Some(InProgress)
      ensures subtotal == 0 && taxAmount == 0 && totalAmount == 0
      ensures items == []
      ensures id == None && paymentMethod == None
      ensures customerName == None && customerTaxId == None
    {
      id := None;
      this.invoiceNumber := invoiceNumber;
      this.cashier := Some(cashier);
      saleDate := Some(now);
      status := Some(InProgress);
      subtotal, taxAmount, totalAmount := 0, 0, 0;
      paymentMethod := None;
      customerName, customerTaxId := None, None;
      items := [];
    }

    /** The @PrePersist hook: stamps the date and defaults a missing status to
        COMPLETED; a status already set is kept. */
    method OnCreate(now: int)
      modifies this`saleDate, this`status
      ensures saleDate == Some(now)
      ensures old(status) == None ==> status == Some(Completed)
      ensures old(status) != None ==> status == old(status)
    {
      saleDate := Some(now);
      if status == None {
        status := Some(Completed);
      }
    }

    /** addItem: the item goes to the end of the list. */
    method AddItem(item: SaleItem)
      modifies this`items
      ensures items == old(items) + [item]
      ensures |items| == |old(items)| + 1 && items[|items| - 1] == item
    {
      items := items + [item];
    }

    /** removeItem: List.remove drops the first occurrence only. */
    method RemoveItem(item: SaleItem)
      modifies this`items
      ensures items == RemoveFirst(old(items), item)
    {
      items := RemoveFirst(items, item);
    }

    /** equals: two sales are equal exactly when their ids are (two sales
        without an id are equal, as Objects.equals(null, null) is true). */
    predicate Equals(other: Sale)
      reads this, other
      ensures Equals(other) <==> id == other.id
    {
      this == other || id == other.id
    }
  }

  /** equals is an equivalence relation. */
  lemma EqualsIsEquivalence(a: Sale, b: Sale, c: Sale)
    ensures a.Equals(a)
    ensures a.Equals(b) <==> b.Equals(a)
    ensures a.Equals(b) && b.Equals(c) ==> a.Equals(c)
  {
  }

  /** The index of the first occurrence of x in s. */
  function IndexOf<T(==)>(s: seq<T>, x: T): (k: nat)
    requires x in s
    ensures k < |s| && s[k] == x && x !in s[..k]
  {
    if s[0] == x then 0 else 1 + IndexOf(s[1..], x)
  }

  /** List.remove(Object). */
  function RemoveFirst<T(==)>(s: seq<T>, x: T): (r: seq<T>)
  {
    if s == [] then []
    else if s[0] == x then s[1..]
    else [s[0]] + RemoveFirst(s[1..], x)
  }

  /** A missing item leaves the list as it was. */
  lemma {:induction false} RemoveFirstAbsent<T>(s: seq<T>, x: T)
    requires x !in s
    ensures RemoveFirst(s, x) == s
  {
    if s != [] {
      RemoveFirstAbsent(s[1..], x);
      assert s == [s[0]] + s[1..];
    }
  }

  /** removeItem drops exactly the first occurrence and keeps the rest in
      order. */
  lemma {:induction false} RemoveFirstSplits<T>(s: seq<T>, x: T)
    requires x in s
    ensures RemoveFirst(s, x) == s[..IndexOf(s, x)] + s[IndexOf(s, x) + 1..]
  {
    if s[0] != x {
      var k := IndexOf(s, x);
      var t := s[1..];
      assert x in t;
      assert IndexOf(t, x) == k - 1;
      RemoveFirstSplits(t, x);
      calc {
        RemoveFirst(s, x);
        [s[0]] + RemoveFirst(t, x);
        [s[0]] + (t[..k - 1] + t[k..]);
        { assert s[..k] == [s[0]] + t[..k - 1]; assert s[k + 1..] == t[k..]; }
        s[..k] + s[k + 1..];
      }
    }
  }

  /** As a multiset, removeItem takes away one copy of the item. */
  lemma RemoveFirstMultiset<T>(s: seq<T>, x: T)
    requires x in s
    ensures multiset(RemoveFirst(s, x)) == multiset(s) - multiset{x}
  {
    var k := IndexOf(s, x);
    RemoveFirstSplits(s, x);
    assert s == s[..k] + [x] + s[k + 1..];
  }
}
