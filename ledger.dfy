/**
 * What the payment screens read for one tenant: the tenant joined with its
 * room and its payment record, and the rent/paid/balance/status summary
 * derived from it.
 */
module Ledger {
  import opened Common
  import opened Calendar
  import opened Tables

  /**
   * One row of the tenants/rooms/payments join, by column name. The payment
   * columns are COALESCEd: with no payment record they read 0, 0, 0,
   * "Pending" and paymentId is None.
   */
  datatype LedgerQueryRow = LedgerQueryRow(
    tenantId: int, firstName: string, lastName: string,
    checkIn: Option<Date>, checkOut: Option<Date>,
    roomPrice: Option<int>, roomNumber: string,
    amountRent: int, amountPaid: int, balance: int, status: string,
    paymentId: Option<int>)

  /** Why a payment handler returned without writing. */
  datatype PaymentReason =
    | TenantNotFound      // the tenant join returned no row
    | RentNotComputable   // calculate_rent raised: no check-in date or no room price
    | PaymentNotFound     // the payment join returned no row
    | AmountRequired      // the amount field is blank
    | AmountNotANumber    // float() of the amount field raised
    | AmountNotPositive   // the amount is <= 0
    | NoPaymentMethod     // no payment method selected

  /** A ledger summary: rent owed, paid so far, balance, status. */
  datatype Summary = Summary(amountRent: int, amountPaid: int, balance: int, status: string)

  /** `if tenant[11]`: the row has a payment record when its id is present and truthy (not 0). */
  predicate HasRecord(row: LedgerQueryRow) {
    row.paymentId.Some? && row.paymentId.value != 0
  }

  /** The summary a row with a payment record shows: the stored columns, as stored. */
  function Stored(row: LedgerQueryRow): Summary {
    Summary(row.amountRent, row.amountPaid, row.balance, row.status)
  }

  /** The summary a row without a payment record shows: nothing paid, all of the rent due. */
  function Synthesised(rent: int): Summary {
    Summary(rent, 0, rent, PENDING)
  }

  predicate SummaryBalanced(s: Summary) {
    s.balance + s.amountPaid == s.amountRent
  }

  /** A synthesised summary always satisfies rent = balance + paid, and is Pending. */
  lemma SynthesisedIsBalanced(rent: int)
    ensures SummaryBalanced(Synthesised(rent)) && Synthesised(rent).status == PENDING
  {
  }

  /**
   * The row's payment columns are those of the payment record it names:
   * true when the join was read from `payments` and nothing wrote since.
   */
  predicate Reflects(row: LedgerQueryRow, payments: map<int, Payment>) {
    HasRecord(row) ==>
      && row.paymentId.value in payments
      && payments[row.paymentId.value].amountRent == row.amountRent
      && payments[row.paymentId.value].amountPaid == row.amountPaid
      && payments[row.paymentId.value].balance == row.balance
      && payments[row.paymentId.value].status == row.status
  }

  predicate RentsNonNegative(s: seq<Summary>) {
    forall i :: 0 <= i < |s| ==> s[i].amountRent >= 0
  }

  predicate PaidNonNegative(s: seq<Summary>) {
    forall i :: 0 <= i < |s| ==> s[i].amountPaid >= 0
  }

  predicate BalancesNonNegative(s: seq<Summary>) {
    forall i :: 0 <= i < |s| ==> s[i].balance >= 0
  }

  /** Running totals, added up in row order as the refresh loop does. */
  function TotalRent(s: seq<Summary>): (t: int)
    ensures RentsNonNegative(s) ==> t >= 0
  {
    if |s| == 0 then 0
    else
      assert forall i :: 0 <= i < |s| - 1 ==> s[..|s| - 1][i] == s[i];
      TotalRent(s[..|s| - 1]) + s[|s| - 1].amountRent
  }

  function TotalPaid(s: seq<Summary>): (t: int)
    ensures PaidNonNegative(s) ==> t >= 0
  {
    if |s| == 0 then 0
    else
      assert forall i :: 0 <= i < |s| - 1 ==> s[..|s| - 1][i] == s[i];
      TotalPaid(s[..|s| - 1]) + s[|s| - 1].amountPaid
  }

  function TotalBalance(s: seq<Summary>): (t: int)
    ensures BalancesNonNegative(s) ==> t >= 0
  {
    if |s| == 0 then 0
    else
      assert forall i :: 0 <= i < |s| - 1 ==> s[..|s| - 1][i] == s[i];
      TotalBalance(s[..|s| - 1]) + s[|s| - 1].balance
  }

  /** When every row keeps rent = balance + paid, so do the three totals. */
  lemma {:induction false} TotalsBalance(s: seq<Summary>)
    requires forall i :: 0 <= i < |s| ==> SummaryBalanced(s[i])
    ensures TotalBalance(s) + TotalPaid(s) == TotalRent(s)
  {
    if |s| > 0 {
      TotalsBalance(s[..|s| - 1]);
    }
  }

  /** Totals over the first rows plus the next row are the totals over one row more. */
  lemma TotalsStep(s: seq<Summary>, i: nat)
    requires i < |s|
    ensures TotalRent(s[..i + 1]) == TotalRent(s[..i]) + s[i].amountRent
    ensures TotalPaid(s[..i + 1]) == TotalPaid(s[..i]) + s[i].amountPaid
    ensures TotalBalance(s[..i + 1]) == TotalBalance(s[..i]) + s[i].balance
  {
    assert s[..i + 1][..i] == s[..i];
  }

  /** The three summaries {1000,0,1000}, {2000,2000,0}, {500,200,300} total 3500 / 2200 / 1300. */
  lemma {:induction false} TotalsExample()
    ensures var s := [Summary(1000, 0, 1000, PENDING), Summary(2000, 2000, 0, PAID), Summary(500, 200, 300, PENDING)];
      TotalRent(s) == 3500 && TotalPaid(s) == 2200 && TotalBalance(s) == 1300
  {
    var s := [Summary(1000, 0, 1000, PENDING), Summary(2000, 2000, 0, PAID), Summary(500, 200, 300, PENDING)];
    assert s[..0] == [] && s[..3] == s;
    TotalsStep(s, 0);
    TotalsStep(s, 1);
    TotalsStep(s, 2);
  }
}
