# Boarding-house rent ledger in Dafny

This project models the bookkeeping core of a boarding-house management app. It covers:

- the rooms, tenants and payments tables;
- how the payments screen turns each tenant into a rent, paid and balance line and sums the totals;
- the two payment forms, which record a payment in different ways;
- the tenant admission guards: names required, room capacity, the room reference;
- the room guards: number required and unique, numeric capacity and price, no delete while tenants reference the room;
- the search and status filters of the three screens.

Amounts are whole centavos (`int`). The current date is a parameter. Every numeric text field in a form is given as the outcome of its conversion: blank, not a number, or a number. Date fields are given as parsed dates, with a blank field read as NULL. Query results are given as sequences of rows with named columns. The database is a class holding three maps with AUTO_INCREMENT counters. Its tenant-to-room foreign key is an invariant.

Modules, one per file:

- `Common`: Option, Outcome, NumberField, the colour palette and table-cell contents.
- `PyNumbers`: the Python numeric types the payment code mixes (int, Decimal, float) and where mixing them raises.
- `PyValues`: None, int and str as the tenant edit guard compares them: truthiness, `str()` of an int, and `!=` across types.
- `Text`: ASCII lower-casing and Python's substring test, proved against an index-based definition.
- `Calendar`: dates and the day-threshold month count.
- `Tables`: records, the ledger identity `rent = balance + paid`, occupancy counts, and the `Database` class.
- `Ledger`: the ledger query row, summaries and totals.
- `PaymentsView`, `PaymentOperations`, `TenantsView`, `RoomsView`: one module per screen or form. Each screen is a class with the database and its table rows.

## Model

| member | source | states |
|---|---|---|
| Calendar.EndDate | src/views/payments/payments_view.py:71-72 | rent runs to the check-out date when there is one, otherwise to today |
| Calendar.Before | src/views/tenants/tenants_view.py:164 | one date is earlier than another: by year, then month, then day |
| Calendar.MonthsBetween | src/views/payments/payments_view.py:74-77 | the months billed: within the check-in month it is 1 iff the end day is past the check-in day, else 0; on the check-in anniversary it is 12 per year; an end on or after check-in never counts a negative number of months |
| Calendar.MonthsBetweenMonotone | src/views/payments/payments_view.py:74-77 | the month count never decreases as the end date moves later |
| Calendar.SameDayBillsNothing | src/views/payments/payments_view.py:74-77 | ending on the check-in date counts zero months |
| Calendar.MonthsBetweenBeforeCheckIn | src/views/payments/payments_view.py:74-77 | an end before check-in counts zero or fewer months |
| Calendar.SameMonthBillsNothing | src/views/payments/payments_view.py:74-77 | within the check-in month, up to the check-in day, nothing is billed |
| Calendar.DayThreshold | src/views/payments/payments_view.py:76-77 | against the anniversary day of the same month, an end day past the check-in day bills one month more, and any other end day bills the same |
| Calendar.NegativeWhenEndLongBefore | src/views/payments/payments_view.py:74-77 | an end a year before check-in counts -12 months; nothing clamps it |
| Calendar.ThreeMonthsExample | src/views/payments/payments_view.py:74-77 | 15 January to 20 March counts three months |
| Text.Lower | src/views/tenants/tenants_view.py:109-113 | lower-casing keeps the length and lowers each character |
| Text.Contains | src/views/rooms/rooms_view.py:75 | Python's `needle in hay` on strings: a match needs a needle no longer than the text |
| Text.ContainsIff | src/views/rooms/rooms_view.py:75 | Python's `in` on strings holds iff the needle occurs at some index of the haystack |
| Text.EmptyIsContained | src/views/rooms/rooms_view.py:68-75 | the empty search term occurs in every string |
| Text.LongerNotContained | src/views/rooms/rooms_view.py:75 | a term longer than the text never matches |
| Tables.AllBalancedAfterWrite | src/models/database.py:90-100 | writing a balanced payment keeps every payment balanced |
| Tables.Occupants | src/views/tenants/tenants_view.py:263-266 | the `COUNT(*)` of tenants whose room_id is the room; never more than the number of tenants |
| Tables.NoOccupantsIff | src/views/rooms/rooms_view.py:375-379 | the tenant count of a room is 0 iff no tenant references it |
| Tables.Database.constructor | src/models/database.py:55-100 | the tables start empty, with every tenant's room present |
| Tables.Database.InsertRoom | src/models/database.py:79-86 | a room goes in at a fresh key; nothing else changes |
| Tables.Database.UpdateRoom | src/views/rooms/rooms_view.py:313-320 | only the room with that key is replaced; a missing key changes nothing |
| Tables.Database.DeleteRoom | src/models/database.py:60-76 | the foreign key refuses the delete while any tenant references the room |
| Tables.Database.InsertTenant | src/models/database.py:60-76 | the insert succeeds iff the room it names exists; on refusal nothing changes |
| Tables.Database.UpdateTenant | src/views/tenants/tenants_view.py:407-417 | the update succeeds iff the new room exists; only that tenant changes |
| Tables.Database.InsertPayment | src/models/database.py:90-100 | a payment goes in at a fresh key |
| Tables.Database.UpdatePayment | src/views/payments/payment_operations.py:133-150 | only the payment with that key is replaced |
| Tables.Database.DeletePayment | src/views/payments/payments_view.py:793-796 | the key is removed; the other tables are untouched |
| Ledger.SynthesisedIsBalanced | src/views/payments/payments_view.py:125-134 | a tenant without a record owes the full rent, has paid 0, and rent = balance + paid |
| Ledger.HasRecord | src/views/payments/payments_view.py:125 | a row has a payment record iff its payment_id is present and not 0, Python's truth test |
| Ledger.TotalRent | src/views/payments/payments_view.py:142 | the running rent total in row order; never negative when no rent is |
| Ledger.TotalPaid | src/views/payments/payments_view.py:143 | the running paid total in row order; never negative when no amount paid is |
| Ledger.TotalBalance | src/views/payments/payments_view.py:144 | the running balance total in row order; never negative when no balance is |
| Ledger.TotalsBalance | src/views/payments/payments_view.py:141-144 | when every line keeps rent = balance + paid, so do the three totals |
| Ledger.TotalsStep | src/views/payments/payments_view.py:141-144 | each line adds its own rent, paid and balance to the running totals |
| Ledger.TotalsExample | src/views/payments/payments_view.py:141-144 | lines of 1000/0/1000, 2000/2000/0 and 500/200/300 (rent/paid/balance) total 3500/2200/1300 |
| PyNumbers.Add | src/views/payments/payment_operations.py:129 | Python `+` raises iff a Decimal meets a float; otherwise the sum, typed as the non-int operand |
| PyNumbers.Sub | src/views/payments/payments_view.py:334 | Python `-` raises iff a Decimal meets a float; otherwise the difference |
| PyNumbers.SumRaisesIff | src/views/payments/payments_view.py:117-144 | `total = 0; total += x` over a sequence raises iff it holds both a Decimal and a float; otherwise the total has the type of what it holds |
| PaymentsView.CalculateRent | src/views/payments/payments_view.py:70-79 | ending on the check-in date costs nothing; at a non-negative price an end on or after check-in never gives negative rent |
| PaymentsView.RentNeverDecreases | src/views/payments/payments_view.py:70-79 | at a non-negative price, a later end date never lowers the rent |
| PaymentsView.RentRunsToToday | src/views/payments/payments_view.py:71-72 | with no check-out date, rent is computed up to today |
| PaymentsView.RentZeroWithinFirstMonth | src/views/payments/payments_view.py:74-79 | no rent is due before the first month is complete |
| PaymentsView.RentNegativeWhenCheckOutLongBefore | src/views/payments/payments_view.py:74-79 | a check-out a year before check-in gives a negative rent |
| PaymentsView.RentExample | src/views/payments/payments_view.py:70-79 | three months at 1000.00 give 3000.00 |
| PaymentsView.RowSummary | src/views/payments/payments_view.py:124-139 | a row with a record shows the stored figures; a row without one shows rent = balance = computed rent, paid 0, Pending; a missing check-in date or price makes the row fail |
| PaymentsView.Summaries | src/views/payments/payments_view.py:122-139 | one summary per query row, in order |
| PaymentsView.DisplayRow | src/views/payments/payments_view.py:150-210 | the room cell reads "Room " and the number; Pay Now shows iff the status is Pending; edit and delete show iff there is a record |
| PaymentsView.Displays | src/views/payments/payments_view.py:124-210 | a table row shows a query row when its summary can be derived and the row displays it |
| PaymentsView.TableSummaries | src/views/payments/payments_view.py:136-144 | the summaries the table shows, one per row in order |
| PaymentsView.RefreshStep | src/views/payments/payments_view.py:141-144 | appending a row adds its rent, paid and balance to the three running totals |
| PaymentsView.DisplaysStep | src/views/payments/payments_view.py:122-210 | appending the next query row's display keeps the table row-for-row in step with the query result |
| PaymentsView.TableShowsSummaries | src/views/payments/payments_view.py:122-144 | a table that displays the whole query result shows exactly the query's summaries, so its totals are the ledger totals |
| PaymentsView.AmountKind | src/views/payments/payments_view.py:125-139 | a row's amounts are floats when it has a record, and Decimal rent computed from the DECIMAL price otherwise |
| PaymentsView.TypedRents | src/views/payments/payments_view.py:131-142 | the rents added into total_rent, one per row in order, each with its Python type |
| PaymentsView.RefreshTotalsRaiseAsWritten | src/views/payments/payments_view.py:125-144 | as written, the totals raise iff the ledger holds both a tenant with a payment record and one without |
| PaymentsView.Shown | src/views/payments/payments_view.py:574-580 | a row stays visible iff the lower-cased search occurs in its lower-cased name or room cell |
| PaymentsView.MethodChosen | src/views/payments/payments_view.py:319-321 | a payment method has been selected and is not empty |
| PaymentsView.SearchingRoomKeepsEveryRow | src/views/payments/payments_view.py:574-580 | the search "room" matches every row, through its "Room ..." label |
| PaymentsView.StatusColor | src/views/payments/payments_view.py:224-231 | Pending is orange, Paid green, Overdue red, Cancelled grey; any other status gets the blue default, and only those |
| PaymentsView.ViewRecord | src/views/payments/payments_view.py:324-339 | the inserted row has paid = amount and balance = balance - amount, and is Paid iff amount >= balance, which is iff the new balance <= 0 |
| PaymentsView.ViewBalanceAsWritten | src/views/payments/payments_view.py:273-334 | as written, `balance - amount` is computed with the balance's Python type and a float amount |
| PaymentsView.FirstPaymentRaisesAsWritten | src/views/payments/payments_view.py:265-341 | as written, the subtraction raises iff the tenant has no record, so a first payment is never inserted; with a record it yields ViewRecord's balance |
| PaymentsView.ViewRecordBalancedIff | src/views/payments/payments_view.py:330-339 | the inserted row keeps rent = balance + paid iff the summary it was read from had paid 0 |
| PaymentsView.EditedRecord | src/views/payments/payments_view.py:711-724 | an edit replaces paid, method, status and description, and keeps rent and balance |
| PaymentsView.EditBreaksBalance | src/views/payments/payments_view.py:711-724 | an edited balanced record stays balanced iff the new amount equals the old amount paid |
| PaymentsView.PaymentsView.constructor | src/views/payments/payments_view.py:13-53 | an empty table and zero totals |
| PaymentsView.PaymentsView.RefreshPayments | src/views/payments/payments_view.py:113-214 | on success there is one row per query row, and the totals are the sums of the summaries; a row that fails stops the loop, keeping the rows so far and the old totals |
| PaymentsView.PaymentsView.FilterPayments | src/views/payments/payments_view.py:568-580 | a row is visible iff the lower-cased search occurs in its lower-cased name or room label; rows and their order are unchanged |
| PaymentsView.PaymentsView.SavePayment | src/views/payments/payments_view.py:256-341 | rejects an unknown tenant, a row whose rent cannot be computed, a blank or non-numeric amount, an amount <= 0, and a missing method, writing nothing; otherwise always inserts exactly one row |
| PaymentsView.PaymentsView.SaveChanges | src/views/payments/payments_view.py:643-724 | rejects an unknown payment and a blank, non-numeric or non-positive amount, writing nothing; otherwise overwrites only that record |
| PaymentsView.PaymentsView.DeletePayment | src/views/payments/payments_view.py:775-796 | the delete happens iff the payment joins to a tenant and a room; otherwise nothing changes |
| PaymentOperations.CalculateRent | src/views/payments/payment_operations.py:28-41 | 0 without a check-in date; otherwise the same amount as the payments screen |
| PaymentOperations.FormSummary | src/views/payments/payment_operations.py:73-88 | the stored figures when a record exists; otherwise a balanced Pending summary with paid 0 |
| PaymentOperations.FormSummaryExtendsRowSummary | src/views/payments/payment_operations.py:28-88 | wherever the payments screen derives a summary, the form derives the same one; without a check-in date the form bills 0 where the screen fails |
| PaymentOperations.Settled | src/views/payments/payment_operations.py:129-131 | paid accumulates, balance = rent - paid, and the status is Paid iff the balance <= 0, otherwise Pending |
| PaymentOperations.PaidKind | src/views/payments/payment_operations.py:81-86 | amount_paid is the literal 0 without a record, and the stored Decimal with one |
| PaymentOperations.RentKind | src/views/payments/payment_operations.py:75-85 | amount_rent is the int 0 with neither a record nor a check-in date, and a Decimal otherwise |
| PaymentOperations.SettledAsWritten | src/views/payments/payment_operations.py:124-130 | as written, the new balance is rent - (paid + amount) with a float amount; the operation raises where a Decimal meets it |
| PaymentOperations.SaveRaisesAsWritten | src/views/payments/payment_operations.py:73-131 | as written, the save raises iff the tenant has a record or a check-in date; otherwise it agrees with Settled |
| PaymentOperations.PaymentMovesBalance | src/views/payments/payment_operations.py:129-131 | a positive payment raises paid and lowers the balance by exactly the amount |
| PaymentOperations.SettleFullExample | src/views/payments/payment_operations.py:129-131 | paying the full 3000.00 owed leaves balance 0 and status Paid |
| PaymentOperations.SettlePartialExample | src/views/payments/payment_operations.py:129-131 | 500.00 more on 1000.00 paid of 3000.00 leaves 1500.00 due, Pending |
| PaymentOperations.UpdatedRecord | src/views/payments/payment_operations.py:133-150 | the UPDATE sets paid, balance, status, date, method and description, and keeps the tenant and the rent |
| PaymentOperations.InsertedRecord | src/views/payments/payment_operations.py:152-167 | the INSERT stores the tenant, the rent, the amount as paid, and the new balance and status |
| PaymentOperations.UpdateKeepsBalanced | src/views/payments/payment_operations.py:129-150 | updating the record the form was read from keeps rent = balance + paid |
| PaymentOperations.InsertIsBalanced | src/views/payments/payment_operations.py:152-167 | a first record is balanced |
| PaymentOperations.VariantsAgreeWithoutRecord | src/views/payments/payment_operations.py:131 | with no record, both forms insert the same row; "amount >= balance" agrees with "new balance <= 0" |
| PaymentOperations.VariantsDivergeWithRecord | src/views/payments/payment_operations.py:129-150 | once a record holds a payment, the screen's insert has paid = amount and breaks the ledger identity, while the form's update accumulates and keeps it |
| PaymentOperations.PaymentOperations.constructor | src/views/payments/payment_operations.py:8-10 | the form works on the given database |
| PaymentOperations.PaymentOperations.SavePayment | src/views/payments/payment_operations.py:43-167 | each rejection writes nothing; an existing record is updated in place under the same keys, otherwise one row is inserted; every record stays balanced |
| PaymentOperations.PaymentOperations.DeletePayment | src/views/payments/payment_operations.py:217-226 | the payment is deleted unconditionally; the other tables are untouched |
| PyValues.NotEqual | src/views/tenants/tenants_view.py:397 | Python `!=`: a str differs from any int or None, and values of one type compare by content |
| PyValues.IntText | src/views/tenants/tenants_view.py:376 | `str()` of an int is never empty, starts with a minus exactly for a negative, and is otherwise digits |
| TenantsView.Status | src/views/tenants/tenants_view.py:156-166 | Checked Out iff there is a check-out date strictly before today, otherwise Active |
| TenantsView.CheckOutTodayIsActive | src/views/tenants/tenants_view.py:164 | a check-out dated today is still Active |
| TenantsView.DisplayRow | src/views/tenants/tenants_view.py:156-193 | the row shows the classified status with a green badge for Active and red for Checked Out |
| TenantsView.NoFilterShowsAll | src/views/tenants/tenants_view.py:108-119 | an empty search with the All filter shows every row |
| TenantsView.Shown | src/views/tenants/tenants_view.py:108-119 | a row is visible iff its lower-cased name contains the lower-cased term and the filter is All or equals its status |
| TenantsView.StatusCell | src/views/tenants/tenants_view.py:186-193 | the status cell is a badge container around the status text |
| Common.ContentValue | src/views/tenants/tenants_view.py:113-114 | `cell.content.value` has a value for a text control and raises for a badge container |
| TenantsView.CapacityCheck | src/views/tenants/tenants_view.py:261-269 | a room that is found and has reached its capacity is refused; a NULL capacity fails the comparison; a room that is not found is not checked |
| TenantsView.AdmissionRespectsCapacity | src/views/tenants/tenants_view.py:260-278 | a tenant who passes the guard into a room never takes it over its capacity |
| TenantsView.DropdownValue | src/views/tenants/tenants_view.py:376-386 | the edit form's room value is a non-empty, hence true, str when a room is selected, and None otherwise |
| TenantsView.EditChecksCapacityAsWritten | src/views/tenants/tenants_view.py:376-397 | as written, `if room_id and room_id != tenant[5]` compares the dropdown's str with the stored int; since a str never equals an int, the check runs iff a room is selected |
| TenantsView.EditChecksCapacity | src/views/tenants/tenants_view.py:396-397 | the intended check runs iff a room is selected and it differs from the stored one |
| TenantsView.StayingInFullRoomRefusedAsWritten | src/views/tenants/tenants_view.py:396-405 | as written, a tenant of a full room who keeps the room is refused; the intended guard lets the edit through |
| TenantsView.FullRoomWitness | src/views/tenants/tenants_view.py:261-269 | a room of capacity 1 holding one tenant is full |
| TenantsView.TenantsView.constructor | src/views/tenants/tenants_view.py:9-69 | an empty table |
| TenantsView.TenantsView.RefreshTenants | src/views/tenants/tenants_view.py:123-200 | one classified row per query row, in order |
| TenantsView.TenantsView.FilterTenants | src/views/tenants/tenants_view.py:108-119 | a row is visible iff its name contains the term and its status passes the filter; rows and their order are unchanged |
| TenantsView.TenantsView.FilterTenantsAsWritten | src/views/tenants/tenants_view.py:108-119 | as written, reading the status badge's value raises iff the table has a row, and no row changes |
| TenantsView.TenantsView.SaveTenant | src/views/tenants/tenants_view.py:244-278 | an empty first or last name, a full room, a NULL capacity or a missing room writes nothing; otherwise one tenant is inserted, with no room pushed over capacity |
| TenantsView.TenantsView.SaveChanges | src/views/tenants/tenants_view.py:380-417 | an empty name writes nothing; the capacity guard runs only on a move to another room, and such a move never overfills the new room; otherwise only that tenant is updated |
| RoomsView.StatusColor | src/views/rooms/rooms_view.py:89-94 | Available is green, Occupied red, Maintenance orange, any other value grey |
| RoomsView.DisplayRow | src/views/rooms/rooms_view.py:88-139 | the row shows the room's number and status with its badge colour |
| RoomsView.SearchTerm | src/views/rooms/rooms_view.py:68 | the term is the lower-cased search text, or "" when the field is empty |
| RoomsView.EmptySearchMatchesAll | src/views/rooms/rooms_view.py:67-78 | an empty search hides only rows whose status fails the filter |
| RoomsView.Shown | src/views/rooms/rooms_view.py:67-78 | a row is visible iff its lower-cased number contains the term and the filter is All or equals its status |
| RoomsView.StatusCell | src/views/rooms/rooms_view.py:96-105 | the status cell is a badge container around the status text |
| RoomsView.NumberInUse | src/views/rooms/rooms_view.py:290-295 | some room other than the one being edited already has this number |
| RoomsView.Converted | src/views/rooms/rooms_view.py:185-197 | an empty capacity or price is stored as NULL |
| RoomsView.Validate | src/views/rooms/rooms_view.py:172-197 | the checks, in order: number required, number not used by another room, capacity an integer, price a number; an accepted form becomes the room to store |
| RoomsView.AcceptKeepsNumbersUnique | src/views/rooms/rooms_view.py:176-205 | storing an accepted room, on add or on edit, keeps room numbers unique |
| RoomsView.OwnNumberAllowedOnEdit | src/views/rooms/rooms_view.py:290-297 | on edit, keeping the room's own number passes the duplicate check |
| RoomsView.ExistingNumberRefusedOnAdd | src/views/rooms/rooms_view.py:176-183 | on add, a number already in the table is refused |
| RoomsView.RoomsView.constructor | src/views/rooms/rooms_view.py:7-57 | an empty table |
| RoomsView.RoomsView.RefreshRooms | src/views/rooms/rooms_view.py:82-139 | one row per fetched room, in order |
| RoomsView.RoomsView.FilterRooms | src/views/rooms/rooms_view.py:67-78 | a row is visible iff its lower-cased number contains the term and its status passes the filter; rows and their order are unchanged |
| RoomsView.RoomsView.FilterRoomsAsWritten | src/views/rooms/rooms_view.py:67-78 | as written, reading the status badge's value raises iff the table has a row, and no row changes |
| RoomsView.RoomsView.SaveRoom | src/views/rooms/rooms_view.py:163-205 | every validation failure writes nothing; otherwise one room is inserted, and room numbers stay unique |
| RoomsView.RoomsView.SaveChanges | src/views/rooms/rooms_view.py:277-320 | the same checks, excluding the room itself from the duplicate check; then only that room is updated |
| RoomsView.RoomsView.ConfirmDelete | src/views/rooms/rooms_view.py:371-386 | refused, with nothing changed, iff some tenant references the room; otherwise the room is removed |

## Left out

- The Flet user interface is not modelled: widgets, snack bars, dialogs, routing and page updates. Error messages are modelled as reason values.
- The MySQL connection pool, commit and rollback are not modelled (src/models/database.py:10-53, 123-219). The tables are maps.
- Login, sign-up and the settings screen are not modelled. They are password hashing and storage calls.
- The legacy sqlite modules tenants.py and rooms.py are not modelled. The default-profile image generator is not modelled either.
- Profile-image files are not modelled: picking, copying, existence checks and removal.
- `delete_tenant` is not modelled. It is outside the ledger and its guards.
- Text-to-number conversion is not modelled: `float`, `int` and `Decimal` parsing, float rounding, and the `:,.2f` display. Each field is given as its conversion outcome, and amounts are whole centavos.
- Which exception reports a bad price is not modelled. A price that `Decimal` cannot parse raises InvalidOperation, which the outer handler reports rather than the "Price must be a valid number" branch. Either way the form is rejected and nothing is written, so the model keeps only that outcome.
- Case folding covers ASCII only. Python's `lower()` also folds non-ASCII letters.
- Room-number comparison is exact. The MySQL column collation, which is case-insensitive, is not modelled.
- SQL query semantics are not modelled: joins, COALESCE, ordering, and the "not yet checked out" WHERE clause. Query results are parameters given as rows with named columns. `PaymentsView.PaymentJoinFound` stands for the payment-tenant-room join.
- Tuple indexes that disagree with the table layout are not modelled. Columns are read by the names the code intends. Two examples: the tenants screen reads index 6 as the check-out date, and the edit form reads index 5 as both the room and the check-in date.
- NOT NULL and UNIQUE column constraints are not modelled, nor is the foreign key from payments to tenants. The tenant-to-room foreign key is modelled.
- The option lists of the dropdowns are not modelled. Any selected value is accepted.
- The room status ENUM is not modelled. A status is any string, and "" stands for NULL.
- The current date is a parameter wherever the code reads the clock.
- PaymentsView.PaymentsView.RefreshPayments: adds plain integers. The code as written raises TypeError once a float total meets a Decimal rent, so it fails on any ledger that mixes tenants with and without a record. See Findings.
- PaymentsView.PaymentsView.SavePayment: inserts with integer arithmetic. The code as written raises TypeError on `balance - amount` for a tenant without a record, so it never records a first payment. See Findings.
- PaymentOperations.PaymentOperations.SavePayment: accumulates with integer arithmetic. The code as written raises TypeError whenever a DECIMAL value meets the float amount, that is, with a record or a check-in date. See Findings.
- PaymentOperations.VariantsAgreeWithoutRecord: compares the intended arithmetic. As written, both forms raise for a tenant without a record who has a check-in date.
- TenantsView.TenantsView.FilterTenants: reads the status text from the badge. The code as written reads a value the badge container does not have. See Findings.
- TenantsView.TenantsView.SaveChanges: runs the capacity check only on a move to another room. The code as written runs it on every edit with a room selected, so a tenant of a full room cannot be edited. See Findings.
- TenantsView.TenantsView.SaveTenant and TenantsView.TenantsView.SaveChanges: take the check-in and check-out fields as parsed dates and read a blank field as NULL. The code sends the raw field text to the INSERT and the UPDATE, so a blank check-out reaches the database as an empty string. What the database does with blank or malformed date text (a strict-mode MySQL rejects it in a DATE column) is not modelled; neither is the parsing of date text.
- RoomsView.RoomsView.FilterRooms: reads the status text from the badge. The code as written reads a value the badge container does not have. See Findings.

## Findings

| source | as written | input that shows it | evidently intended | confidence | as-written member | corrected member |
|---|---|---|---|---|---|---|
| src/views/tenants/tenants_view.py:377,397 | the dropdown holds the room id as text, and `room_id != tenant[5]` compares it with the stored integer id, which Python never finds equal, so the capacity check runs on every edit | room 1 with capacity 1, whose one tenant edits their phone number and keeps room 1: refused with "Room is at full capacity" | check capacity only when the tenant moves to a different room | high (not executed) | TenantsView.EditChecksCapacityAsWritten, TenantsView.StayingInFullRoomRefusedAsWritten | TenantsView.EditChecksCapacity, TenantsView.TenantsView.SaveChanges |
| src/views/payments/payments_view.py:136-144 | a record's amounts pass through float() while a computed rent is months times the DECIMAL price, a Decimal; `total_rent += amount_rent` then adds a float to a Decimal, which raises TypeError, and the handler swallows it | one tenant with a payment record and one without: the refresh stops at the second kind of row | add up all rows in one numeric type | high (not executed) | PaymentsView.RefreshTotalsRaiseAsWritten | PaymentsView.PaymentsView.RefreshPayments |
| src/views/payments/payments_view.py:273-334 | for a tenant without a record the balance is a Decimal, and `balance - amount` subtracts the float amount, which raises TypeError before the INSERT | any tenant without a payment record, any positive amount | insert the payment with balance - amount | high (not executed) | PaymentsView.FirstPaymentRaisesAsWritten | PaymentsView.ViewRecord |
| src/views/payments/payment_operations.py:85-130 | amount_paid and amount_rent stay DECIMAL values while the amount is a float, so `amount_paid + amount` or `amount_rent - new_amount_paid` raises TypeError | a tenant with a payment record, or without one but with a check-in date | accumulate paid and recompute the balance | high (not executed) | PaymentOperations.SaveRaisesAsWritten | PaymentOperations.Settled |
| src/views/tenants/tenants_view.py:114 | the status is read as `cells[7].content.value`, but that cell holds the badge container, which has no value attribute | any tenants table with at least one row and any search or filter | compare the badge's status text with the filter | medium (not executed) | TenantsView.TenantsView.FilterTenantsAsWritten | TenantsView.TenantsView.FilterTenants |
| src/views/rooms/rooms_view.py:73 | the status is read as `cells[3].content.value`, but that cell holds the badge container, which has no value attribute | any rooms table with at least one row and any search or filter | compare the badge's status text with the filter | medium (not executed) | RoomsView.RoomsView.FilterRoomsAsWritten | RoomsView.RoomsView.FilterRooms |
