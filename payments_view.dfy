/**
 * The payments screen: the ledger table with its totals, the search filter,
 * and the add, edit and delete handlers that write the `payments` table.
 */
module PaymentsView {
  import opened Common
  import opened Calendar
  import opened Text
  import opened Tables
  import opened Ledger
  import opened PyNumbers

  /**
   * calculate_rent of the payments screen: months billed up to the check-out
   * date, or up to today when there is none, times the room price. Check-in
   * and price must be present (with either missing the Python code raises).
   */
  function CalculateRent(checkIn: Date, checkOut: Option<Date>, price: int, today: Date): (r: int)
    ensures EndDate(checkOut, today) == checkIn ==> r == 0
    ensures (price >= 0 && Valid(checkIn) && Valid(EndDate(checkOut, today))
             && !Before(EndDate(checkOut, today), checkIn)) ==> r >= 0
  {
    MonthsBetween(checkIn, EndDate(checkOut, today)) * price
  }

  /** For a fixed check-in and a non-negative price, a later end date never yields less rent. */
  lemma {:induction false} RentNeverDecreases(checkIn: Date, e1: Date, e2: Date, price: int, today: Date)
    requires Valid(e1) && Valid(e2) && !Before(e2, e1)
    requires price >= 0
    ensures CalculateRent(checkIn, Some(e1), price, today) <= CalculateRent(checkIn, Some(e2), price, today)
  {
    MonthsBetweenMonotone(checkIn, e1, e2);
    ScaleMonotone(MonthsBetween(checkIn, e1), MonthsBetween(checkIn, e2), price);
  }

  /** More months at the same non-negative price never cost less. */
  lemma ScaleMonotone(m1: int, m2: int, price: int)
    requires m1 <= m2 && price >= 0
    ensures m1 * price <= m2 * price
  {
    assert m2 * price - m1 * price == (m2 - m1) * price;
  }

  /** Without a check-out date the rent runs to today: the same as checking out today. */
  lemma RentRunsToToday(checkIn: Date, price: int, today: Date)
    ensures CalculateRent(checkIn, None, price, today) == CalculateRent(checkIn, Some(today), price, today)
  {
  }

  /** Checking out in the check-in month, on or before the check-in day, costs nothing. */
  lemma {:induction false} RentZeroWithinFirstMonth(checkIn: Date, checkOut: Date, price: int, today: Date)
    requires checkOut.year == checkIn.year && checkOut.month == checkIn.month
    requires checkOut.day <= checkIn.day
    ensures CalculateRent(checkIn, Some(checkOut), price, today) == 0
  {
    SameMonthBillsNothing(checkIn, checkOut);
  }

  /** No clamping: a check-out a year before the check-in gives minus twelve months' rent. */
  lemma {:induction false} RentNegativeWhenCheckOutLongBefore(price: int, today: Date)
    requires price > 0
    ensures CalculateRent(Date(2024, 5, 10), Some(Date(2023, 5, 10)), price, today) == -12 * price
        < 0
  {
    NegativeWhenEndLongBefore();
  }

  /** Checked in 2024-01-15 at 1000.00 a month, still there on 2024-03-20: three months, 3000.00. */
  lemma {:induction false} RentExample()
    ensures CalculateRent(Date(2024, 1, 15), None, 100000, Date(2024, 3, 20)) == 300000
  {
    ThreeMonthsExample();
  }

  /**
   * The summary refresh_payments and add_payment show for one joined row.
   * None when the row has no payment record and calculate_rent raises
   * because the check-in date or the room price is missing.
   */
  function RowSummary(row: LedgerQueryRow, today: Date): (r: Option<Summary>)
    ensures HasRecord(row) ==> r == Some(Stored(row))
    ensures !HasRecord(row) ==> (r.Some? <==> row.checkIn.Some? && row.roomPrice.Some?)
    ensures !HasRecord(row) && r.Some? ==>
      && SummaryBalanced(r.value) && r.value.amountPaid == 0 && r.value.status == PENDING
      && r.value.balance == CalculateRent(row.checkIn.value, row.checkOut, row.roomPrice.value, today)
  {
    if HasRecord(row) then Some(Stored(row))
    else if row.checkIn.None? || row.roomPrice.None? then None
    else Some(Synthesised(CalculateRent(row.checkIn.value, row.checkOut, row.roomPrice.value, today)))
  }

  /** One row of the payments table as displayed. */
  datatype PaymentRow = PaymentRow(
    tenantId: int, tenantName: string, roomLabel: string, summary: Summary,
    paymentId: Option<int>, payNow: bool, editable: bool, visible: bool)

  /** The row the refresh appends: name and "Room <number>" cells, the summary, the action buttons. */
  function DisplayRow(row: LedgerQueryRow, s: Summary): (r: PaymentRow)
    ensures |r.roomLabel| == 5 + |row.roomNumber|
    ensures r.roomLabel[..5] == "Room " && r.roomLabel[5..] == row.roomNumber
    ensures r.summary == s && r.visible
    ensures r.payNow <==> s.status == PENDING
    ensures r.editable <==> HasRecord(row)
  {
    PaymentRow(row.tenantId, row.firstName + " " + row.lastName, "Room " + row.roomNumber, s,
               row.paymentId, s.status == PENDING, HasRecord(row), true)
  }

  /** The table row shown for a query row: its summary can be derived, and the row displays it. */
  predicate Displays(shown: PaymentRow, row: LedgerQueryRow, today: Date) {
    RowSummary(row, today).Some? && shown == DisplayRow(row, RowSummary(row, today).value)
  }

  /** The summaries of a whole query result, when every row has one. */
  function Summaries(result: seq<LedgerQueryRow>, today: Date): (s: seq<Summary>)
    requires forall i :: 0 <= i < |result| ==> RowSummary(result[i], today).Some?
    ensures |s| == |result|
    ensures forall i :: 0 <= i < |result| ==> s[i] == RowSummary(result[i], today).value
  {
    seq(|result|, i requires 0 <= i < |result| => RowSummary(result[i], today).value)
  }

  /**
   * The Python type of a row's amounts in refresh_payments and add_payment:
   * a stored record's amounts go through float(); a computed rent is a whole
   * number of months times the DECIMAL room price, so a Decimal.
   */
  function AmountKind(row: LedgerQueryRow): Kind {
    if HasRecord(row) then FloatKind else DecimalKind
  }

  /** The rents refresh_payments adds into total_rent, each with its Python type. */
  function TypedRents(result: seq<LedgerQueryRow>, today: Date): (xs: seq<Num>)
    requires forall i :: 0 <= i < |result| ==> RowSummary(result[i], today).Some?
    ensures |xs| == |result|
    ensures forall i :: 0 <= i < |result| ==>
              xs[i] == Num(AmountKind(result[i]), RowSummary(result[i], today).value.amountRent)
  {
    seq(|result|, i requires 0 <= i < |result| =>
          Num(AmountKind(result[i]), RowSummary(result[i], today).value.amountRent))
  }

  /**
   * refresh_payments as written: `total_rent += amount_rent` raises once a
   * Decimal rent meets a float one, which happens exactly when the ledger
   * holds both a tenant with a payment record and a tenant without one.
   */
  lemma {:induction false} RefreshTotalsRaiseAsWritten(result: seq<LedgerQueryRow>, today: Date)
    requires forall i :: 0 <= i < |result| ==> RowSummary(result[i], today).Some?
    ensures Sum(TypedRents(result, today)).None? <==>
              (exists i :: 0 <= i < |result| && HasRecord(result[i]))
              && (exists j :: 0 <= j < |result| && !HasRecord(result[j]))
  {
    var xs := TypedRents(result, today);
    SumRaisesIff(xs);
    if exists i :: 0 <= i < |result| && HasRecord(result[i]) {
      var i :| 0 <= i < |result| && HasRecord(result[i]);
      assert xs[i].kind == FloatKind;
    }
    if exists j :: 0 <= j < |result| && !HasRecord(result[j]) {
      var j :| 0 <= j < |result| && !HasRecord(result[j]);
      assert xs[j].kind == DecimalKind;
    }
    if HasKind(xs, FloatKind) {
      var i :| 0 <= i < |xs| && xs[i].kind == FloatKind;
      assert HasRecord(result[i]);
    }
    if HasKind(xs, DecimalKind) {
      var j :| 0 <= j < |xs| && xs[j].kind == DecimalKind;
      assert !HasRecord(result[j]);
    }
  }

  /** The summaries a table shows, row by row. */
  function TableSummaries(rows: seq<PaymentRow>): (s: seq<Summary>)
    ensures |s| == |rows|
    ensures forall j :: 0 <= j < |rows| ==> s[j] == rows[j].summary
  {
    seq(|rows|, j requires 0 <= j < |rows| => rows[j].summary)
  }

  /** Appending a row adds its rent, paid and balance to each of the three totals of the table. */
  lemma {:induction false} RefreshStep(rows: seq<PaymentRow>, shown: PaymentRow)
    ensures TotalRent(TableSummaries(rows + [shown])) == TotalRent(TableSummaries(rows)) + shown.summary.amountRent
    ensures TotalPaid(TableSummaries(rows + [shown])) == TotalPaid(TableSummaries(rows)) + shown.summary.amountPaid
    ensures TotalBalance(TableSummaries(rows + [shown])) == TotalBalance(TableSummaries(rows)) + shown.summary.balance
  {
    var before, after := TableSummaries(rows), TableSummaries(rows + [shown]);
    assert after[..|rows|] == before;
    TotalsStep(after, |rows|);
    assert after[..|rows| + 1] == after;
  }

  /** A table that displays the whole query result shows exactly the query's summaries. */
  lemma {:induction false} TableShowsSummaries(rows: seq<PaymentRow>, result: seq<LedgerQueryRow>, today: Date)
    requires |rows| == |result|
    requires forall j :: 0 <= j < |rows| ==> Displays(rows[j], result[j], today)
    ensures forall j :: 0 <= j < |result| ==> RowSummary(result[j], today).Some?
    ensures TableSummaries(rows) == Summaries(result, today)
  {
    assert forall j :: 0 <= j < |rows| ==> rows[j].summary == RowSummary(result[j], today).value;
  }

  /** Appending the display of the next query row keeps the table row-for-row in step with the query. */
  lemma {:induction false} DisplaysStep(rows: seq<PaymentRow>, result: seq<LedgerQueryRow>, today: Date)
    requires |rows| < |result| && RowSummary(result[|rows|], today).Some?
    requires forall j :: 0 <= j < |rows| ==> Displays(rows[j], result[j], today)
    ensures var rows' := rows + [DisplayRow(result[|rows|], RowSummary(result[|rows|], today).value)];
      forall j :: 0 <= j < |rows'| ==> Displays(rows'[j], result[j], today)
  {
    var rows' := rows + [DisplayRow(result[|rows|], RowSummary(result[|rows|], today).value)];
    forall j | 0 <= j < |rows'|
      ensures Displays(rows'[j], result[j], today)
    {
      if j < |rows| {
        assert rows'[j] == rows[j];
      }
    }
  }

  /** A row stays visible iff the lower-cased search text is in its lower-cased name or room cell. */
  predicate Shown(row: PaymentRow, searchText: string) {
    Contains(Lower(row.tenantName), Lower(searchText)) || Contains(Lower(row.roomLabel), Lower(searchText))
  }

  /** Every room cell reads "Room ...", so searching for "room" keeps every row. */
  lemma {:induction false} SearchingRoomKeepsEveryRow(row: LedgerQueryRow, s: Summary)
    ensures Shown(DisplayRow(row, s), "room")
  {
    var cell := Lower(DisplayRow(row, s).roomLabel);
    assert cell[..4] == "room";
    assert Lower("room") == "room";
    assert IsPrefix("room", cell);
  }

  /** get_status_color: the four known statuses have their own colour, anything else is blue. */
  function StatusColor(status: string): (c: Color)
    ensures status == PENDING ==> c == Orange700
    ensures status == PAID ==> c == Green700
    ensures status == OVERDUE ==> c == Red700
    ensures status == CANCELLED ==> c == Grey700
    ensures c == Blue700 <==> status !in {PENDING, PAID, OVERDUE, CANCELLED}
  {
    if status == PENDING then Orange700
    else if status == PAID then Green700
    else if status == OVERDUE then Red700
    else if status == CANCELLED then Grey700
    else Blue700
  }

  /**
   * save_payment as written computes `balance - amount` from the balance as
   * add_payment typed it and the float the amount field gives; None when
   * the subtraction raises.
   */
  function ViewBalanceAsWritten(row: LedgerQueryRow, s: Summary, amount: int): (r: Option<Num>)
    ensures r.Some? ==> r.value.value == s.balance - amount
  {
    Sub(Num(AmountKind(row), s.balance), Num(FloatKind, amount))
  }

  /**
   * As written, recording a tenant's first payment always raises, so nothing
   * is inserted; with a record the balance is the one ViewRecord stores.
   */
  lemma FirstPaymentRaisesAsWritten(row: LedgerQueryRow, s: Summary, amount: int, today: Date,
                                    paymentMethod: string, description: string)
    ensures ViewBalanceAsWritten(row, s, amount).None? <==> !HasRecord(row)
    ensures HasRecord(row) ==> ViewBalanceAsWritten(row, s, amount).value.value
                                 == ViewRecord(row, s, amount, today, paymentMethod, description).balance
  {
  }

  /** The record save_payment inserts, from the summary the form was opened with. */
  function ViewRecord(row: LedgerQueryRow, s: Summary, amount: int, today: Date,
                      paymentMethod: string, description: string): (p: Payment)
    ensures p.tenantId == row.tenantId && p.amountRent == s.amountRent
    ensures p.amountPaid == amount && p.balance == s.balance - amount
    ensures p.status == PAID <==> p.balance <= 0
    ensures p.status != PAID ==> p.status == PENDING
  {
    Payment(row.tenantId, s.amountRent, amount, s.balance - amount, Some(today), paymentMethod,
            if amount >= s.balance then PAID else PENDING, description)
  }

  /**
   * The inserted record keeps rent = balance + paid exactly when nothing was
   * paid before: amount_paid is the new amount alone, not the running total.
   */
  lemma {:induction false} ViewRecordBalancedIff(row: LedgerQueryRow, s: Summary, amount: int, today: Date,
                                                 paymentMethod: string, description: string)
    requires SummaryBalanced(s)
    ensures Balanced(ViewRecord(row, s, amount, today, paymentMethod, description)) <==> s.amountPaid == 0
  {
    var p := ViewRecord(row, s, amount, today, paymentMethod, description);
    assert p.balance + p.amountPaid == s.balance;
  }

  /** The record save_changes writes: amount paid, method, status and description replaced. */
  function EditedRecord(p: Payment, amount: int, paymentMethod: string, status: string,
                        description: string): (e: Payment)
    ensures e.amountPaid == amount && e.paymentMethod == paymentMethod
    ensures e.status == status && e.description == description
    ensures e.tenantId == p.tenantId && e.amountRent == p.amountRent && e.balance == p.balance
    ensures e.paymentDate == p.paymentDate
  {
    p.(amountPaid := amount, paymentMethod := paymentMethod, status := status, description := description)
  }

  /** Editing the paid amount of a balanced record to any other value unbalances it. */
  lemma {:induction false} EditBreaksBalance(p: Payment, amount: int, paymentMethod: string, status: string,
                                             description: string)
    requires Balanced(p)
    ensures Balanced(EditedRecord(p, amount, paymentMethod, status, description)) <==> amount == p.amountPaid
  {
    var e := EditedRecord(p, amount, paymentMethod, status, description);
    assert e.balance == p.balance && e.amountRent == p.amountRent;
  }

  /** The join edit_payment and delete_payment read: payment, its tenant and the tenant's room. */
  predicate PaymentJoinFound(payments: map<int, Payment>, tenants: map<int, Tenant>,
                             rooms: map<int, Room>, paymentId: int) {
    && paymentId in payments
    && payments[paymentId].tenantId in tenants
    && tenants[payments[paymentId].tenantId].roomId.Some?
    && tenants[payments[paymentId].tenantId].roomId.value in rooms
  }

  predicate MethodChosen(paymentMethod: Option<string>) {
    paymentMethod.Some? && paymentMethod.value != ""
  }

  class PaymentsView {
    const db: Database
    var rows: seq<PaymentRow>
    var totalRent: int
    var totalPaid: int
    var totalBalance: int

    constructor (db: Database)
      ensures this.db == db && rows == []
      ensures totalRent == 0 && totalPaid == 0 && totalBalance == 0
    {
      this.db := db;
      rows := [];
      totalRent, totalPaid, totalBalance := 0, 0, 0;
    }

    /**
     * refresh_payments: rebuild the table from the query result and total it.
     * When a row's rent cannot be computed the loop stops there: the rows
     * before it stay in the table and the totals keep their old values.
     */
    method RefreshPayments(result: seq<LedgerQueryRow>, today: Date) returns (ok: bool)
      modifies this
      ensures ok <==> forall i :: 0 <= i < |result| ==> RowSummary(result[i], today).Some?
      ensures |rows| <= |result|
      ensures forall i :: 0 <= i < |rows| ==> Displays(rows[i], result[i], today)
      ensures ok ==> |rows| == |result|
      ensures ok ==> totalRent == TotalRent(Summaries(result, today))
      ensures ok ==> totalPaid == TotalPaid(Summaries(result, today))
      ensures ok ==> totalBalance == TotalBalance(Summaries(result, today))
      ensures !ok ==> |rows| < |result| && RowSummary(result[|rows|], today).None?
      ensures !ok ==> totalRent == old(totalRent) && totalPaid == old(totalPaid)
      ensures !ok ==> totalBalance == old(totalBalance)
    {
      rows := [];
      var rent, paid, balance := 0, 0, 0;
      var i := 0;
      while i < |result|
        invariant i == |rows| <= |result|
        invariant forall j :: 0 <= j < i ==> Displays(rows[j], result[j], today)
        invariant rent == TotalRent(TableSummaries(rows)) && paid == TotalPaid(TableSummaries(rows))
        invariant balance == TotalBalance(TableSummaries(rows))
        invariant totalRent == old(totalRent) && totalPaid == old(totalPaid)
        invariant totalBalance == old(totalBalance)
      {
        var s := RowSummary(result[i], today);
        if s.None? {
          return false;
        }
        var shown := DisplayRow(result[i], s.value);
        DisplaysStep(rows, result, today);
        RefreshStep(rows, shown);
        rent, paid, balance := rent + s.value.amountRent, paid + s.value.amountPaid, balance + s.value.balance;
        rows := rows + [shown];
        i := i + 1;
      }
      TableShowsSummaries(rows, result, today);
      totalRent, totalPaid, totalBalance := rent, paid, balance;
      ok := true;
    }

    /** filter_payments: only the visibility of each row changes, never the rows or their order. */
    method FilterPayments(searchText: string)
      modifies this
      ensures |rows| == |old(rows)|
      ensures forall i :: 0 <= i < |rows| ==> rows[i] == old(rows[i]).(visible := Shown(old(rows[i]), searchText))
      ensures totalRent == old(totalRent) && totalPaid == old(totalPaid) && totalBalance == old(totalBalance)
    {
      var i := 0;
      while i < |rows|
        invariant 0 <= i <= |rows| && |rows| == |old(rows)|
        invariant forall j :: 0 <= j < i ==> rows[j] == old(rows[j]).(visible := Shown(old(rows[j]), searchText))
        invariant forall j :: i <= j < |rows| ==> rows[j] == old(rows[j])
        invariant totalRent == old(totalRent) && totalPaid == old(totalPaid)
        invariant totalBalance == old(totalBalance)
      {
        rows := rows[i := rows[i].(visible := Shown(rows[i], searchText))];
        i := i + 1;
      }
    }

    /**
     * add_payment and its save_payment: look the tenant up, derive the
     * summary, validate the form, then always INSERT a new payment row, even
     * when the tenant already has one.
     */
    method SavePayment(found: Option<LedgerQueryRow>, today: Date, amount: NumberField,
                       paymentMethod: Option<string>, description: string) returns (result: Outcome<PaymentReason>)
      requires db.Valid()
      modifies db
      ensures db.Valid()
      ensures found.None? ==> result == Rejected(TenantNotFound)
      ensures found.Some? && RowSummary(found.value, today).None? ==> result == Rejected(RentNotComputable)
      ensures found.Some? && RowSummary(found.value, today).Some? ==>
        && (!amount.Number? ==> result == Rejected(AmountNotANumber))
        && (amount.Number? && amount.value <= 0 ==> result == Rejected(AmountNotPositive))
        && (amount.Number? && amount.value > 0 && !MethodChosen(paymentMethod) ==> result == Rejected(NoPaymentMethod))
        && (amount.Number? && amount.value > 0 && MethodChosen(paymentMethod) ==> result == Done)
      ensures result.Rejected? ==> unchanged(db)
      ensures result.Done? ==>
        && old(db.nextPaymentId) !in old(db.payments)
        && db.payments == old(db.payments)[old(db.nextPaymentId) :=
             ViewRecord(found.value, RowSummary(found.value, today).value, amount.value, today,
                        paymentMethod.value, description)]
        && db.rooms == old(db.rooms) && db.tenants == old(db.tenants)
    {
      if found.None? {
        return Rejected(TenantNotFound);
      }
      var row := found.value;
      var s := RowSummary(row, today);
      if s.None? {
        return Rejected(RentNotComputable);
      }
      if !amount.Number? {
        return Rejected(AmountNotANumber);
      }
      if amount.value <= 0 {
        return Rejected(AmountNotPositive);
      }
      if !MethodChosen(paymentMethod) {
        return Rejected(NoPaymentMethod);
      }
      var id := db.InsertPayment(ViewRecord(row, s.value, amount.value, today, paymentMethod.value, description));
      result := Done;
    }

    /**
     * edit_payment and its save_changes: overwrite amount paid, method,
     * status and description of one record; rent and balance stay as they were.
     */
    method SaveChanges(paymentId: int, amount: NumberField, paymentMethod: string, status: string,
                       description: string) returns (result: Outcome<PaymentReason>)
      requires db.Valid()
      modifies db
      ensures db.Valid()
      ensures !PaymentJoinFound(old(db.payments), old(db.tenants), old(db.rooms), paymentId) ==>
        result == Rejected(PaymentNotFound)
      ensures PaymentJoinFound(old(db.payments), old(db.tenants), old(db.rooms), paymentId) ==>
        && (amount.Blank? ==> result == Rejected(AmountRequired))
        && (amount.NotANumber? ==> result == Rejected(AmountNotANumber))
        && (amount.Number? && amount.value <= 0 ==> result == Rejected(AmountNotPositive))
        && (amount.Number? && amount.value > 0 ==> result == Done)
      ensures result.Rejected? ==> unchanged(db)
      ensures result.Done? ==>
        && db.payments == old(db.payments)[paymentId :=
             EditedRecord(old(db.payments)[paymentId], amount.value, paymentMethod, status, description)]
        && db.rooms == old(db.rooms) && db.tenants == old(db.tenants)
    {
      if !PaymentJoinFound(db.payments, db.tenants, db.rooms, paymentId) {
        return Rejected(PaymentNotFound);
      }
      if amount.Blank? {
        return Rejected(AmountRequired);
      }
      if amount.NotANumber? {
        return Rejected(AmountNotANumber);
      }
      if amount.value <= 0 {
        return Rejected(AmountNotPositive);
      }
      db.UpdatePayment(paymentId, EditedRecord(db.payments[paymentId], amount.value, paymentMethod, status, description));
      result := Done;
    }

    /** delete_payment and its confirm_delete: remove the record once the join finds it. */
    method DeletePayment(paymentId: int) returns (result: Outcome<PaymentReason>)
      requires db.Valid()
      modifies db
      ensures db.Valid()
      ensures result.Done? <==> PaymentJoinFound(old(db.payments), old(db.tenants), old(db.rooms), paymentId)
      ensures result.Rejected? ==> result.reason == PaymentNotFound && unchanged(db)
      ensures result.Done? ==> db.payments == old(db.payments) - {paymentId}
      ensures db.rooms == old(db.rooms) && db.tenants == old(db.tenants)
    {
      if !PaymentJoinFound(db.payments, db.tenants, db.rooms, paymentId) {
        return Rejected(PaymentNotFound);
      }
      db.DeletePayment(paymentId);
      result := Done;
    }
  }
}
