/**
 * The second payment form: its own copy of calculate_rent, guarded against a
 * missing check-in date, and a save that accumulates into the tenant's
 * existing payment record, or inserts one when there is none.
 */
module PaymentOperations {
  import opened Common
  import opened Calendar
  import opened Tables
  import opened Ledger
  import opened PyNumbers
  import PaymentsView

  /**
   * calculate_rent of the payment form: 0 without a check-in date, otherwise
   * the same day-threshold formula as the payments screen. None when the
   * price is missing and the multiplication raises.
   */
  function CalculateRent(checkIn: Option<Date>, checkOut: Option<Date>, price: Option<int>, today: Date): (r: Option<int>)
    ensures checkIn.None? ==> r == Some(0)
    ensures checkIn.Some? ==> (r.Some? <==> price.Some?)
    ensures checkIn.Some? && price.Some? ==>
      r.value == PaymentsView.CalculateRent(checkIn.value, checkOut, price.value, today)
  {
    if checkIn.None? then Some(0)
    else if price.None? then None
    else Some(MonthsBetween(checkIn.value, EndDate(checkOut, today)) * price.value)
  }

  /** The summary add_payment reads for the tenant before the form opens. */
  function FormSummary(row: LedgerQueryRow, today: Date): (r: Option<Summary>)
    ensures HasRecord(row) ==> r == Some(Stored(row))
    ensures !HasRecord(row) ==> (r.Some? <==> row.checkIn.None? || row.roomPrice.Some?)
    ensures !HasRecord(row) && r.Some? ==> SummaryBalanced(r.value) && r.value.amountPaid == 0
  {
    if HasRecord(row) then Some(Stored(row))
    else
      var rent := CalculateRent(row.checkIn, row.checkOut, row.roomPrice, today);
      if rent.None? then None else Some(Synthesised(rent.value))
  }

  /**
   * Where the payments screen can derive a summary, this form derives the same
   * one; a tenant without a check-in date (and without a record) gets rent 0
   * here, where the payments screen fails.
   */
  lemma {:induction false} FormSummaryExtendsRowSummary(row: LedgerQueryRow, today: Date)
    ensures PaymentsView.RowSummary(row, today).Some? ==>
      FormSummary(row, today) == PaymentsView.RowSummary(row, today)
    ensures !HasRecord(row) && row.checkIn.None? ==>
      PaymentsView.RowSummary(row, today).None? && FormSummary(row, today) == Some(Synthesised(0))
  {
    if PaymentsView.RowSummary(row, today).Some? && !HasRecord(row) {
      assert CalculateRent(row.checkIn, row.checkOut, row.roomPrice, today).value
        == PaymentsView.CalculateRent(row.checkIn.value, row.checkOut, row.roomPrice.value, today);
    }
  }

  /** The summary after paying `amount`: paid accumulates, the balance is recomputed from the rent. */
  function Settled(s: Summary, amount: int): (r: Summary)
    ensures SummaryBalanced(r)
    ensures r.amountRent == s.amountRent && r.amountPaid == s.amountPaid + amount
    ensures r.status == PAID <==> r.balance <= 0
    ensures r.status != PAID ==> r.status == PENDING
  {
    var paid := s.amountPaid + amount;
    var balance := s.amountRent - paid;
    Summary(s.amountRent, paid, balance, if balance <= 0 then PAID else PENDING)
  }

  /** A positive payment against a balanced summary raises paid and lowers the balance by the amount. */
  lemma {:induction false} PaymentMovesBalance(s: Summary, amount: int)
    requires SummaryBalanced(s) && amount > 0
    ensures Settled(s, amount).amountPaid > s.amountPaid
    ensures Settled(s, amount).balance == s.balance - amount < s.balance
  {
    var r := Settled(s, amount);
    assert r.balance == s.amountRent - s.amountPaid - amount;
  }

  /** No record yet, 3000.00 owed, 3000.00 paid: balance 0, Paid. */
  lemma SettleFullExample()
    ensures Settled(Synthesised(300000), 300000) == Summary(300000, 300000, 0, PAID)
  {
  }

  /** A record at 3000.00 / 1000.00 / 2000.00 and 500.00 more: 1500.00 paid, 1500.00 due, Pending. */
  lemma SettlePartialExample()
    ensures Settled(Summary(300000, 100000, 200000, PENDING), 50000) == Summary(300000, 150000, 150000, PENDING)
  {
  }

  /** The Python type of amount_paid in the form: the stored DECIMAL value, or the literal 0. */
  function PaidKind(row: LedgerQueryRow): Kind {
    if HasRecord(row) then DecimalKind else IntKind
  }

  /**
   * The Python type of amount_rent in the form: the stored DECIMAL value; the
   * literal 0 without a check-in date; otherwise months times the DECIMAL price.
   */
  function RentKind(row: LedgerQueryRow): Kind {
    if HasRecord(row) || row.checkIn.Some? then DecimalKind else IntKind
  }

  /**
   * save_payment as written: `new_amount_paid = amount_paid + amount`, then
   * `new_balance = amount_rent - new_amount_paid`, with the amount a float;
   * None when either step raises.
   */
  function SettledAsWritten(row: LedgerQueryRow, s: Summary, amount: int): (r: Option<Num>)
    ensures r.Some? ==> r.value.value == s.amountRent - (s.amountPaid + amount)
  {
    var paid := Add(Num(PaidKind(row), s.amountPaid), Num(FloatKind, amount));
    if paid.None? then None else Sub(Num(RentKind(row), s.amountRent), paid.value)
  }

  /**
   * As written the form can save only for a tenant with neither a payment
   * record nor a check-in date; there it computes the balance Settled does.
   */
  lemma SaveRaisesAsWritten(row: LedgerQueryRow, s: Summary, amount: int)
    ensures SettledAsWritten(row, s, amount).None? <==> HasRecord(row) || row.checkIn.Some?
    ensures SettledAsWritten(row, s, amount).Some? ==>
              SettledAsWritten(row, s, amount).value.value == Settled(s, amount).balance
  {
  }

  /** The UPDATE of an existing record: the columns the statement sets, the rest as stored. */
  function UpdatedRecord(p: Payment, r: Summary, today: Date, paymentMethod: string, description: string): (u: Payment)
    ensures u.tenantId == p.tenantId && u.amountRent == p.amountRent
    ensures u.amountPaid == r.amountPaid && u.balance == r.balance && u.status == r.status
    ensures u.paymentDate == Some(today) && u.paymentMethod == paymentMethod && u.description == description
  {
    p.(amountPaid := r.amountPaid, balance := r.balance, status := r.status, paymentDate := Some(today),
       paymentMethod := paymentMethod, description := description)
  }

  /** The INSERT when there is no record: amount_paid is the amount of this payment. */
  function InsertedRecord(tenantId: int, r: Summary, amount: int, today: Date,
                          paymentMethod: string, description: string): (p: Payment)
    ensures p.tenantId == tenantId && p.amountRent == r.amountRent && p.amountPaid == amount
    ensures p.balance == r.balance && p.status == r.status
  {
    Payment(tenantId, r.amountRent, amount, r.balance, Some(today), paymentMethod, r.status, description)
  }

  /**
   * Updating the record the form was read from keeps rent = balance + paid,
   * whatever the stored balance was: the new balance is recomputed from the rent.
   */
  lemma {:induction false} UpdateKeepsBalanced(p: Payment, row: LedgerQueryRow, amount: int, today: Date,
                                               paymentMethod: string, description: string)
    requires HasRecord(row) && p.amountRent == row.amountRent
    ensures Balanced(UpdatedRecord(p, Settled(Stored(row), amount), today, paymentMethod, description))
  {
    var u := UpdatedRecord(p, Settled(Stored(row), amount), today, paymentMethod, description);
    assert u.balance + u.amountPaid == row.amountRent;
  }

  /** Inserting for a tenant without a record gives a balanced record. */
  lemma {:induction false} InsertIsBalanced(row: LedgerQueryRow, s: Summary, amount: int, today: Date,
                                            paymentMethod: string, description: string)
    requires s.amountPaid == 0
    ensures Balanced(InsertedRecord(row.tenantId, Settled(s, amount), amount, today, paymentMethod, description))
  {
    var p := InsertedRecord(row.tenantId, Settled(s, amount), amount, today, paymentMethod, description);
    assert p.amountPaid == Settled(s, amount).amountPaid;
  }

  /**
   * With no record yet, both save handlers insert the very same row: the
   * payments screen's "amount >= balance" status rule and this form's
   * "new balance <= 0" rule agree.
   */
  lemma {:induction false} VariantsAgreeWithoutRecord(row: LedgerQueryRow, today: Date, amount: int,
                                                      paymentMethod: string, description: string)
    requires !HasRecord(row) && PaymentsView.RowSummary(row, today).Some?
    ensures var s := PaymentsView.RowSummary(row, today).value;
      PaymentsView.ViewRecord(row, s, amount, today, paymentMethod, description)
        == InsertedRecord(row.tenantId, Settled(s, amount), amount, today, paymentMethod, description)
  {
    var s := PaymentsView.RowSummary(row, today).value;
    assert s.amountPaid == 0 && s.balance == s.amountRent;
  }

  /**
   * With a record that already holds a payment, the two handlers diverge: the
   * payments screen inserts a second row whose amount_paid is the new amount
   * alone and which breaks rent = balance + paid, while this form updates the
   * record with the running total and keeps it balanced.
   */
  lemma {:induction false} VariantsDivergeWithRecord(p: Payment, row: LedgerQueryRow, today: Date, amount: int,
                                                     paymentMethod: string, description: string)
    requires HasRecord(row)
    requires p.amountRent == row.amountRent && p.amountPaid == row.amountPaid && p.balance == row.balance
    requires Balanced(p) && row.amountPaid > 0
    ensures var viewed := PaymentsView.ViewRecord(row, Stored(row), amount, today, paymentMethod, description);
      var updated := UpdatedRecord(p, Settled(Stored(row), amount), today, paymentMethod, description);
      && viewed.amountPaid == amount && updated.amountPaid == row.amountPaid + amount
      && viewed.balance == updated.balance
      && !Balanced(viewed) && Balanced(updated)
  {
    PaymentsView.ViewRecordBalancedIff(row, Stored(row), amount, today, paymentMethod, description);
    UpdateKeepsBalanced(p, row, amount, today, paymentMethod, description);
  }

  class PaymentOperations {
    const db: Database

    constructor (db: Database)
      ensures this.db == db
    {
      this.db := db;
    }

    /**
     * add_payment and its save_payment: validate the amount, then add it to
     * the running total of the tenant's record in place, or insert the
     * tenant's first record.
     */
    method SavePayment(found: Option<LedgerQueryRow>, today: Date, amount: NumberField,
                       paymentMethod: string, description: string) returns (result: Outcome<PaymentReason>)
      requires db.Valid()
      modifies db
      ensures db.Valid()
      ensures found.None? ==> result == Rejected(TenantNotFound)
      ensures found.Some? && FormSummary(found.value, today).None? ==> result == Rejected(RentNotComputable)
      ensures found.Some? && FormSummary(found.value, today).Some? ==>
        && (amount.Blank? ==> result == Rejected(AmountRequired))
        && (amount.NotANumber? ==> result == Rejected(AmountNotANumber))
        && (amount.Number? && amount.value <= 0 ==> result == Rejected(AmountNotPositive))
        && (amount.Number? && amount.value > 0 ==> result == Done)
      ensures result.Rejected? ==> unchanged(db)
      ensures db.rooms == old(db.rooms) && db.tenants == old(db.tenants)
      // an existing record is updated in place: same key, same rent, no new row
      ensures result.Done? && HasRecord(found.value) ==>
        var id := found.value.paymentId.value;
        && db.payments.Keys == old(db.payments.Keys)
        && db.payments == (if id in old(db.payments)
             then old(db.payments)[id := UpdatedRecord(old(db.payments)[id],
                    Settled(Stored(found.value), amount.value), today, paymentMethod, description)]
             else old(db.payments))
      // otherwise exactly one row is inserted
      ensures result.Done? && !HasRecord(found.value) ==>
        && old(db.nextPaymentId) !in old(db.payments)
        && db.payments == old(db.payments)[old(db.nextPaymentId) :=
             InsertedRecord(found.value.tenantId, Settled(FormSummary(found.value, today).value, amount.value),
                            amount.value, today, paymentMethod, description)]
      // the ledger identity is kept when the form was read from the current table
      ensures result.Done? && Reflects(found.value, old(db.payments)) && AllBalanced(old(db.payments)) ==>
        AllBalanced(db.payments)
    {
      if found.None? {
        return Rejected(TenantNotFound);
      }
      var row := found.value;
      var s := FormSummary(row, today);
      if s.None? {
        return Rejected(RentNotComputable);
      }
      if amount.Blank? {
        return Rejected(AmountRequired);
      }
      if amount.NotANumber? {
        return Rejected(AmountNotANumber);
      }
      if amount.value <= 0 {
        return Rejected(AmountNotPositive);
      }
      var settled := Settled(s.value, amount.value);
      if HasRecord(row) {
        var id := row.paymentId.value;
        if id in db.payments {
          var updated := UpdatedRecord(db.payments[id], settled, today, paymentMethod, description);
          if Reflects(row, db.payments) && AllBalanced(db.payments) {
            UpdateKeepsBalanced(db.payments[id], row, amount.value, today, paymentMethod, description);
            AllBalancedAfterWrite(db.payments, id, updated);
          }
          db.UpdatePayment(id, updated);
        }
      } else {
        var inserted := InsertedRecord(row.tenantId, settled, amount.value, today, paymentMethod, description);
        if AllBalanced(db.payments) {
          InsertIsBalanced(row, s.value, amount.value, today, paymentMethod, description);
          AllBalancedAfterWrite(db.payments, db.nextPaymentId, inserted);
        }
        var id := db.InsertPayment(inserted);
      }
      result := Done;
    }

    /** delete_payment and its confirm_delete: an unconditional DELETE by key. */
    method DeletePayment(paymentId: int)
      requires db.Valid()
      modifies db
      ensures db.Valid()
      ensures db.payments == old(db.payments) - {paymentId}
      ensures paymentId !in db.payments
      ensures db.rooms == old(db.rooms) && db.tenants == old(db.tenants)
    {
      db.DeletePayment(paymentId);
    }
  }
}
