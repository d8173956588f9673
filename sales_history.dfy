/** The sales history screen: the status choice and its Spanish labels, the
    list of sales on show and the total of the completed ones, the date and
    status filters, and the customer column. Each listed sale is the snapshot
    of the fields the screen reads. */
module SalesHistory {
  import opened Wrappers
  import opened Sales

  /** The Spanish label the screen shows for a status. */
  function StatusLabel(s: SaleStatus): string {
    match s
    case Completed => "Completada"
    case InProgress => "En Progreso"
    case Cancelled => "Cancelada"
    case Refunded => "Reembolsada"
  }

  /** The enum constant's own name, which SaleStatus.valueOf accepts. */
  function EnumName(s: SaleStatus): string {
    match s
    case InProgress => "IN_PROGRESS"
    case Completed => "COMPLETED"
    case Cancelled => "CANCELLED"
    case Refunded => "REFUNDED"
  }

  const ALL_LABEL: string := "Todos"
  const NO_ENUM_PREFIX: string := "No enum constant com.pos.models.Sale.SaleStatus."

  /** The converter's toString: "Todos" for no status, the label otherwise. */
  function StatusToString(s: Option<SaleStatus>): (r: string)
    ensures s.None? <==> r == ALL_LABEL
  {
    match s
    case None => ALL_LABEL
    case Some(st) => StatusLabel(st)
  }

  /** The converter's fromString: "Todos" or null is no status; a label is
      its status; anything else goes to valueOf, which knows the enum names
      and fails on the rest. */
  function StatusFromString(t: Option<string>): (r: Result<Option<SaleStatus>, string>)
    ensures r == Success(None) <==> t.None? || t.value == ALL_LABEL
    ensures r.Success? && r.value.Some? ==>
            t.Some? && (t.value == StatusLabel(r.value.value) || t.value == EnumName(r.value.value))
    ensures r.Failure? <==>
            t.Some? && t.value != ALL_LABEL &&
            forall s: SaleStatus :: t.value != StatusLabel(s) && t.value != EnumName(s)
  {
    if t.None? || t.value == ALL_LABEL then Success(None)
    else
      var text := t.value;
      if text == "Completada" then Success(Some(Completed))
      else if text == "En Progreso" then Success(Some(InProgress))
      else if text == "Cancelada" then Success(Some(Cancelled))
      else if text == "Reembolsada" then Success(Some(Refunded))
      else if text == "IN_PROGRESS" then Success(Some(InProgress))
      else if text == "COMPLETED" then Success(Some(Completed))
      else if text == "CANCELLED" then Success(Some(Cancelled))
      else if text == "REFUNDED" then Success(Some(Refunded))
      else Failure(NO_ENUM_PREFIX + text)
  }

  /** valueOf's fallback: an enum constant's name reads as its status. */
  lemma EnumNameReads(s: SaleStatus)
    ensures StatusFromString(Some(EnumName(s))) == Success(Some(s))
  {
  }

  /** Every choice, "Todos" included, survives the converter's round trip. */
  lemma ConverterRoundTrip(s: Option<SaleStatus>)
    ensures StatusFromString(Some(StatusToString(s))) == Success(s)
  {
  }

  /** A text the converter accepts is shown again as the label of what it
      read, so reading that label gives the same choice. */
  lemma ConverterSettles(t: Option<string>)
    requires StatusFromString(t).Success?
    ensures StatusFromString(Some(StatusToString(StatusFromString(t).value))) == StatusFromString(t)
  {
    ConverterRoundTrip(StatusFromString(t).value);
  }

  /** What the screen reads of a sale. */
  datatype SaleRow = SaleRow(invoiceNumber: string, status: Option<SaleStatus>,
                             totalAmount: int, customerName: Option<string>)

  /** The customer column: the name, or "Consumidor Final" when it is
      missing or empty. */
  function CustomerDisplay(name: Option<string>): (r: string)
    ensures r != []
    ensures name.Some? && name.value != [] ==> r == name.value
    ensures name.None? || name.value == [] ==> r == "Consumidor Final"
  {
    if name.Some? && name.value != [] then name.value else "Consumidor Final"
  }

  /** The sum of the totals of the completed sales. */
  function CompletedTotal(rows: seq<SaleRow>): int {
    if rows == [] then 0
    else (if rows[0].status == Some(Completed) then rows[0].totalAmount else 0) + CompletedTotal(rows[1..])
  }

  /** The sales with the selected status, in their order; all of them when
      no status is selected. */
  function WithStatus(rows: seq<SaleRow>, selected: Option<SaleStatus>): (r: seq<SaleRow>)
    ensures selected.None? ==> r == rows
    ensures forall x :: x in r <==> x in rows && (selected.None? || x.status == selected)
    ensures |r| <= |rows|
  {
    if selected.None? || rows == [] then rows
    else (if rows[0].status == selected then [rows[0]] else []) + WithStatus(rows[1..], selected)
  }

  /** Filtering a concatenation filters each part and keeps them in order. */
  lemma {:induction false} WithStatusAppend(a: seq<SaleRow>, b: seq<SaleRow>, selected: Option<SaleStatus>)
    ensures WithStatus(a + b, selected) == WithStatus(a, selected) + WithStatus(b, selected)
  {
    if selected.Some? && a != [] {
      assert (a + b)[0] == a[0] && (a + b)[1..] == a[1..] + b;
      WithStatusAppend(a[1..], b, selected);
    } else if a == [] {
      assert a + b == b;
    }
  }

  /** The total of a concatenation is the sum of the parts' totals. */
  lemma {:induction false} CompletedTotalAppend(a: seq<SaleRow>, b: seq<SaleRow>)
    ensures CompletedTotal(a + b) == CompletedTotal(a) + CompletedTotal(b)
  {
    if a == [] {
      assert a + b == b;
    } else {
      assert (a + b)[0] == a[0] && (a + b)[1..] == a[1..] + b;
      CompletedTotalAppend(a[1..], b);
    }
  }

  /** Only completed sales count: keeping just the completed ones leaves the
      total as it was, and keeping any other status leaves nothing. */
  lemma {:induction false} TotalCountsOnlyCompleted(rows: seq<SaleRow>, st: SaleStatus)
    ensures st == Completed ==> CompletedTotal(WithStatus(rows, Some(st))) == CompletedTotal(rows)
    ensures st != Completed ==> CompletedTotal(WithStatus(rows, Some(st))) == 0
  {
    if rows != [] {
      TotalCountsOnlyCompleted(rows[1..], st);
      var head := if rows[0].status == Some(st) then [rows[0]] else [];
      CompletedTotalAppend(head, WithStatus(rows[1..], Some(st)));
    }
  }

  datatype FilterWarning =
    /** "Debe seleccionar ambas fechas" */
    | IncompleteDates
    /** "La fecha inicial debe ser anterior o igual a la fecha final" */
    | InvalidRange

  /** SalesHistoryController: the sales on show and their completed total.
      Dates are day numbers. */
  class SalesHistoryController {
    var salesList: seq<SaleRow>
    var totalAmount: int

    constructor ()
      ensures salesList == [] && totalAmount == 0
    {
      salesList := [];
      totalAmount := 0;
    }

    /** calculateTotal: the total of the completed sales on show. */
    method CalculateTotal()
      modifies this`totalAmount
      ensures totalAmount == CompletedTotal(salesList)
    {
      totalAmount := CompletedTotal(salesList);
    }

    /** applyFilters: with a date missing, or the start after the end, only a
        warning and nothing changes; otherwise the sales the date query
        returned (`fetched`) are shown, narrowed to the selected status, and
        the total is recomputed. */
    method ApplyFilters(fromDate: Option<int>, toDate: Option<int>, selected: Option<SaleStatus>,
                        fetched: seq<SaleRow>) returns (r: Outcome<FilterWarning>)
      modifies this
      ensures fromDate.None? || toDate.None? ==> r == Fail(IncompleteDates)
      ensures fromDate.Some? && toDate.Some? && fromDate.value > toDate.value ==> r == Fail(InvalidRange)
      ensures r.Fail? ==> salesList == old(salesList) && totalAmount == old(totalAmount)
      ensures r.Pass? <==> fromDate.Some? && toDate.Some? && fromDate.value <= toDate.value
      ensures r.Pass? ==> salesList == WithStatus(fetched, selected) && totalAmount == CompletedTotal(salesList)
    {
      if fromDate.None? || toDate.None? {
        return Fail(IncompleteDates);
      }
      if fromDate.value > toDate.value {
        return Fail(InvalidRange);
      }
      var shown := fetched;
      if selected.Some? {
        shown := WithStatus(fetched, selected);
      }
      salesList := shown;
      CalculateTotal();
      return Pass;
    }
  }
}
