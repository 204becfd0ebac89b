/**
 * The tenants screen: status classification, the search and status filter,
 * and the add and edit handlers with their name and room-capacity guards.
 */
module TenantsView {
  import opened Common
  import opened Calendar
  import opened Text
  import opened Tables
  import opened PyValues

  const ACTIVE := "Active"
  const CHECKED_OUT := "Checked Out"
  const ALL := "All"

  /** A tenant is Checked Out once the check-out date has passed; otherwise Active. */
  function Status(checkOut: Option<Date>, today: Date): (s: string)
    ensures s == CHECKED_OUT <==> checkOut.Some? && Before(checkOut.value, today)
    ensures s != CHECKED_OUT ==> s == ACTIVE
  {
    if checkOut.Some? && Before(checkOut.value, today) then CHECKED_OUT else ACTIVE
  }

  /** Checking out today still counts as Active. */
  lemma CheckOutTodayIsActive(today: Date)
    ensures Status(Some(today), today) == ACTIVE
  {
  }

  /** One row of `SELECT t.*, r.room_number FROM tenants t LEFT JOIN rooms r`, by column name. */
  datatype TenantQueryRow = TenantQueryRow(
    tenantId: int, firstName: string, lastName: string, contact: string, email: string,
    roomNumber: Option<string>, checkIn: Option<Date>, checkOut: Option<Date>)

  /** One row of the tenants table as displayed. */
  datatype TenantRow = TenantRow(tenantId: int, name: string, roomNumber: string, status: string,
                                 badge: Color, visible: bool)

  /** The row refresh_tenants appends: full name, room, status and its badge colour. */
  function DisplayRow(t: TenantQueryRow, today: Date): (r: TenantRow)
    ensures r.status == Status(t.checkOut, today) && r.visible
    ensures r.badge == (if r.status == ACTIVE then Green else Red)
  {
    var status := Status(t.checkOut, today);
    TenantRow(t.tenantId, t.firstName + " " + t.lastName,
              if t.roomNumber.Some? then t.roomNumber.value else "",
              status, if status == ACTIVE then Green else Red, true)
  }

  /** The status cell as built: a badge container around the status text. */
  function StatusCell(row: TenantRow): CellContent {
    Badge(row.status, row.badge)
  }

  /** A row is visible iff its lower-cased name contains the lower-cased search term and its status passes. */
  predicate Shown(row: TenantRow, searchTerm: string, statusFilter: string) {
    Contains(Lower(row.name), Lower(searchTerm)) && (statusFilter == ALL || row.status == statusFilter)
  }

  /** With an empty search and the "All" filter every row is shown. */
  lemma {:induction false} NoFilterShowsAll(row: TenantRow)
    ensures Shown(row, "", ALL)
  {
    assert Lower("") == "";
    EmptyIsContained(Lower(row.name));
  }

  /**
   * The fields of the add and edit forms (the profile image aside). The date
   * fields are given as parsed dates, a blank field as None (NULL).
   */
  datatype TenantForm = TenantForm(
    firstName: string, lastName: string, contact: string, email: string,
    roomId: Option<int>, checkIn: Option<Date>, checkOut: Option<Date>)

  function FormTenant(f: TenantForm): Tenant {
    Tenant(f.firstName, f.lastName, f.contact, f.email, f.roomId, f.checkIn, f.checkOut)
  }

  /** Why a tenant handler returned without writing. */
  datatype TenantReason =
    | NameRequired           // first or last name empty
    | RoomFull               // the room's tenant count has reached its capacity
    | CapacityNotComparable  // the room's capacity is NULL, so the count comparison raises
    | RoomMissing            // the database refused a room_id that names no room

  /**
   * The capacity guard: count the tenants whose room_id is the chosen room and
   * compare with its capacity. A room that is not found is not checked.
   */
  function CapacityCheck(rooms: map<int, Room>, tenants: map<int, Tenant>, roomId: int): (r: Option<TenantReason>)
    ensures r == Some(RoomFull) <==>
      roomId in rooms && rooms[roomId].capacity.Some? && Occupants(tenants, roomId) >= rooms[roomId].capacity.value
    ensures r == Some(CapacityNotComparable) <==> roomId in rooms && rooms[roomId].capacity.None?
    ensures r.None? || r == Some(RoomFull) || r == Some(CapacityNotComparable)
  {
    if roomId !in rooms then None
    else if rooms[roomId].capacity.None? then Some(CapacityNotComparable)
    else if Occupants(tenants, roomId) >= rooms[roomId].capacity.value then Some(RoomFull)
    else None
  }

  /**
   * A tenant that passes the guard into a room not already holding it never
   * takes the room over its capacity.
   */
  lemma {:induction false} AdmissionRespectsCapacity(rooms: map<int, Room>, tenants: map<int, Tenant>,
                                                     id: int, t: Tenant)
    requires t.roomId.Some? && CapacityCheck(rooms, tenants, t.roomId.value).None?
    requires t.roomId.value in rooms && rooms[t.roomId.value].capacity.Some?
    requires id in tenants ==> tenants[id].roomId != t.roomId
    ensures Occupants(tenants[id := t], t.roomId.value) <= rooms[t.roomId.value].capacity.value
  {
    var r := t.roomId.value;
    var before, after := OccupantIds(tenants, r), OccupantIds(tenants[id := t], r);
    assert after <= before + {id};
    assert id !in before;
    assert |before + {id}| == |before| + 1;
    SubsetCardinality(after, before + {id});
  }

  /**
   * The edit form's room dropdown: its options are `str(room_id)`, so a
   * selection is a non-empty str, and no selection is None.
   */
  function DropdownValue(selected: Option<int>): (v: Value)
    ensures selected.None? <==> v.NoneValue?
    ensures selected.Some? ==> v.StrValue? && Truthy(v)
  {
    if selected.Some? then StrValue(IntText(selected.value)) else NoneValue
  }

  /** `tenant[5]`, the room_id column as read from the tenants table: an int, or None for NULL. */
  function StoredValue(stored: Option<int>): Value {
    if stored.Some? then IntValue(stored.value) else NoneValue
  }

  /**
   * save_changes as written: `if room_id and room_id != tenant[5]` compares
   * the dropdown's str with the int read from the table. A str is never
   * equal to an int, so the guard runs whenever a room is selected, even
   * the room the tenant already has.
   */
  function EditChecksCapacityAsWritten(selected: Option<int>, stored: Option<int>): (r: bool)
    ensures r <==> selected.Some?
  {
    var roomId := DropdownValue(selected);
    Truthy(roomId) && NotEqual(roomId, StoredValue(stored))
  }

  /** The edit guard as intended: only a move to a different room is checked. */
  function EditChecksCapacity(selected: Option<int>, stored: Option<int>): (r: bool)
    ensures r <==> selected.Some? && selected != stored
  {
    selected.Some? && selected != stored
  }

  /**
   * As written, a tenant of a full room who edits anything else while keeping
   * the room is refused; with the intended guard the edit goes through.
   */
  lemma {:induction false} StayingInFullRoomRefusedAsWritten(rooms: map<int, Room>, tenants: map<int, Tenant>, id: int)
    requires id in tenants && tenants[id].roomId.Some?
    requires tenants[id].roomId.value in rooms && rooms[tenants[id].roomId.value].capacity.Some?
    requires Occupants(tenants, tenants[id].roomId.value) >= rooms[tenants[id].roomId.value].capacity.value
    ensures EditChecksCapacityAsWritten(tenants[id].roomId, tenants[id].roomId)
    ensures CapacityCheck(rooms, tenants, tenants[id].roomId.value) == Some(RoomFull)
    ensures !EditChecksCapacity(tenants[id].roomId, tenants[id].roomId)
  {
  }

  /** Such a state exists: room 1 holds one tenant and has capacity 1. */
  lemma {:induction false} FullRoomWitness()
    ensures var rooms := map[1 := Room("101", Some(1), Some(500000), "Occupied")];
      var tenants := map[7 := Tenant("Ana", "Cruz", "", "", Some(1), None, None)];
      Occupants(tenants, 1) >= rooms[1].capacity.value
      && CapacityCheck(rooms, tenants, 1) == Some(RoomFull)
  {
    var tenants := map[7 := Tenant("Ana", "Cruz", "", "", Some(1), None, None)];
    assert OccupantIds(tenants, 1) == {7};
  }

  class TenantsView {
    const db: Database
    var rows: seq<TenantRow>

    constructor (db: Database)
      ensures this.db == db && rows == []
    {
      this.db := db;
      rows := [];
    }

    /** refresh_tenants: clear the table and append one classified row per query row, in order. */
    method RefreshTenants(result: seq<TenantQueryRow>, today: Date)
      modifies this
      ensures |rows| == |result|
      ensures forall i :: 0 <= i < |result| ==> rows[i] == DisplayRow(result[i], today)
    {
      rows := [];
      var i := 0;
      while i < |result|
        invariant 0 <= i <= |result| && |rows| == i
        invariant forall j :: 0 <= j < i ==> rows[j] == DisplayRow(result[j], today)
      {
        rows := rows + [DisplayRow(result[i], today)];
        i := i + 1;
      }
    }

    /** filter_tenants: only the visibility of each row changes, never the rows or their order. */
    method FilterTenants(searchTerm: string, statusFilter: string)
      modifies this
      ensures |rows| == |old(rows)|
      ensures forall i :: 0 <= i < |rows| ==>
        rows[i] == old(rows[i]).(visible := Shown(old(rows[i]), searchTerm, statusFilter))
    {
      var i := 0;
      while i < |rows|
        invariant 0 <= i <= |rows| && |rows| == |old(rows)|
        invariant forall j :: 0 <= j < i ==>
          rows[j] == old(rows[j]).(visible := Shown(old(rows[j]), searchTerm, statusFilter))
        invariant forall j :: i <= j < |rows| ==> rows[j] == old(rows[j])
      {
        rows := rows[i := rows[i].(visible := Shown(rows[i], searchTerm, statusFilter))];
        i := i + 1;
      }
    }

    /**
     * filter_tenants as written reads the status with `cells[7].content.value`;
     * that cell holds the badge container, which has no value, so the first
     * row raises before its visibility is set and no row changes.
     */
    method FilterTenantsAsWritten(searchTerm: string, statusFilter: string) returns (raised: bool)
      ensures raised <==> |rows| > 0
    {
      raised := false;
      if |rows| > 0 {
        var status := ContentValue(StatusCell(rows[0]));
        raised := status.None?;
      }
    }

    /** add_tenant and its save_tenant: both names required, then the capacity guard, then INSERT. */
    method SaveTenant(form: TenantForm) returns (result: Outcome<TenantReason>)
      requires db.Valid()
      modifies db
      ensures db.Valid()
      ensures form.firstName == "" || form.lastName == "" ==> result == Rejected(NameRequired)
      ensures form.firstName != "" && form.lastName != "" ==>
        if form.roomId.Some? && CapacityCheck(old(db.rooms), old(db.tenants), form.roomId.value).Some? then
          result == Rejected(CapacityCheck(old(db.rooms), old(db.tenants), form.roomId.value).value)
        else if !RoomExists(old(db.rooms), form.roomId) then result == Rejected(RoomMissing)
        else result == Done
      ensures result.Rejected? ==> unchanged(db)
      ensures result.Done? ==>
        && old(db.nextTenantId) !in old(db.tenants)
        && db.tenants == old(db.tenants)[old(db.nextTenantId) := FormTenant(form)]
      ensures db.rooms == old(db.rooms) && db.payments == old(db.payments)
      // no room is pushed over its capacity by an admission
      ensures result.Done? && form.roomId.Some? && form.roomId.value in db.rooms
              && db.rooms[form.roomId.value].capacity.Some? ==>
        Occupants(db.tenants, form.roomId.value) <= db.rooms[form.roomId.value].capacity.value
    {
      if form.firstName == "" || form.lastName == "" {
        return Rejected(NameRequired);
      }
      if form.roomId.Some? {
        var check := CapacityCheck(db.rooms, db.tenants, form.roomId.value);
        if check.Some? {
          return Rejected(check.value);
        }
        if form.roomId.value in db.rooms && db.rooms[form.roomId.value].capacity.Some? {
          AdmissionRespectsCapacity(db.rooms, db.tenants, db.nextTenantId, FormTenant(form));
        }
      }
      var ok, id := db.InsertTenant(FormTenant(form));
      if !ok {
        return Rejected(RoomMissing);
      }
      result := Done;
    }

    /**
     * edit_tenant and its save_changes: both names required, the capacity
     * guard when the tenant moves to another room, then UPDATE.
     */
    method SaveChanges(tenantId: int, storedRoom: Option<int>, form: TenantForm) returns (result: Outcome<TenantReason>)
      requires db.Valid()
      modifies db
      ensures db.Valid()
      ensures form.firstName == "" || form.lastName == "" ==> result == Rejected(NameRequired)
      ensures form.firstName != "" && form.lastName != "" ==>
        if EditChecksCapacity(form.roomId, storedRoom)
           && CapacityCheck(old(db.rooms), old(db.tenants), form.roomId.value).Some? then
          result == Rejected(CapacityCheck(old(db.rooms), old(db.tenants), form.roomId.value).value)
        else if !RoomExists(old(db.rooms), form.roomId) then result == Rejected(RoomMissing)
        else result == Done
      ensures result.Rejected? ==> unchanged(db)
      ensures result.Done? ==>
        db.tenants == if tenantId in old(db.tenants) then old(db.tenants)[tenantId := FormTenant(form)]
                      else old(db.tenants)
      ensures db.rooms == old(db.rooms) && db.payments == old(db.payments)
      // a move checked against the tenant's stored room never overfills the new room
      ensures result.Done? && EditChecksCapacity(form.roomId, storedRoom)
              && (tenantId in old(db.tenants) ==> old(db.tenants)[tenantId].roomId == storedRoom)
              && form.roomId.value in db.rooms && db.rooms[form.roomId.value].capacity.Some? ==>
        Occupants(db.tenants, form.roomId.value) <= db.rooms[form.roomId.value].capacity.value
    {
      if form.firstName == "" || form.lastName == "" {
        return Rejected(NameRequired);
      }
      if EditChecksCapacity(form.roomId, storedRoom) {
        var check := CapacityCheck(db.rooms, db.tenants, form.roomId.value);
        if check.Some? {
          return Rejected(check.value);
        }
        if form.roomId.value in db.rooms && db.rooms[form.roomId.value].capacity.Some?
           && (tenantId in db.tenants ==> db.tenants[tenantId].roomId == storedRoom) {
          AdmissionRespectsCapacity(db.rooms, db.tenants, tenantId, FormTenant(form));
        }
      }
      var ok := db.UpdateTenant(tenantId, FormTenant(form));
      if !ok {
        return Rejected(RoomMissing);
      }
      result := Done;
    }
  }
}
