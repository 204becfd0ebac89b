/**
 * The rooms screen: the status colour map, the search and status filter,
 * the add and edit handlers with their validation, and the delete guard.
 */
module RoomsView {
  import opened Common
  import opened Text
  import opened Tables

  const AVAILABLE := "Available"
  const OCCUPIED := "Occupied"
  const MAINTENANCE := "Maintenance"
  const ALL := "All"

  /** Badge colour: fixed for the three known statuses, grey for anything else. */
  function StatusColor(status: string): (c: Color)
    ensures status == AVAILABLE <==> c == Green
    ensures status == OCCUPIED <==> c == Red
    ensures status == MAINTENANCE <==> c == Orange
    ensures c == Grey <==> status != AVAILABLE && status != OCCUPIED && status != MAINTENANCE
  {
    if status == AVAILABLE then Green
    else if status == OCCUPIED then Red
    else if status == MAINTENANCE then Orange
    else Grey
  }

  /** One row of the rooms table as displayed ("" stands for a NULL status). */
  datatype RoomRow = RoomRow(roomId: int, roomNumber: string, capacity: Option<int>, price: Option<int>,
                             status: string, badge: Color, visible: bool)

  function DisplayRow(id: int, r: Room): (row: RoomRow)
    ensures row.roomId == id && row.roomNumber == r.roomNumber && row.status == r.status
    ensures row.badge == StatusColor(r.status) && row.visible
  {
    RoomRow(id, r.roomNumber, r.capacity, r.price, r.status, StatusColor(r.status), true)
  }

  /** The search term: the lower-cased search text, or "" when the field holds nothing. */
  function SearchTerm(value: Option<string>): (term: string)
    ensures value.None? ==> term == ""
    ensures value.Some? ==> term == Lower(value.value)
  {
    if value.Some? && value.value != "" then Lower(value.value) else ""
  }

  /** The status cell as built: a badge container around the status text. */
  function StatusCell(row: RoomRow): CellContent {
    Badge(row.status, row.badge)
  }

  /** A row is visible iff its lower-cased number contains the term and its status passes. */
  predicate Shown(row: RoomRow, term: string, statusFilter: string) {
    Contains(Lower(row.roomNumber), term) && (statusFilter == ALL || row.status == statusFilter)
  }

  /** An empty search hides only rows whose status fails the filter. */
  lemma {:induction false} EmptySearchMatchesAll(row: RoomRow, statusFilter: string)
    ensures Shown(row, SearchTerm(None), statusFilter) <==> statusFilter == ALL || row.status == statusFilter
    ensures Shown(row, SearchTerm(Some("")), statusFilter) <==> statusFilter == ALL || row.status == statusFilter
  {
    EmptyIsContained(Lower(row.roomNumber));
  }

  /** The fields of the add and edit forms; each number field is given as its conversion outcome. */
  datatype RoomForm = RoomForm(roomNumber: string, capacity: NumberField, price: NumberField, status: string)

  /** Why a room handler returned without writing. */
  datatype RoomReason =
    | NumberRequired
    | NumberTaken
    | CapacityNotANumber
    | PriceNotANumber
    | HasTenants

  datatype Validation = Accept(room: Room) | Reject(reason: RoomReason)

  /** Whether another room (not the one being edited) already carries this number. */
  predicate NumberInUse(rooms: map<int, Room>, number: string, editing: Option<int>) {
    exists id :: id in rooms && rooms[id].roomNumber == number && editing != Some(id)
  }

  /** An empty field is stored as NULL. */
  function Converted(f: NumberField): (v: Option<int>)
    requires !f.NotANumber?
    ensures f.Blank? <==> v.None?
    ensures f.Number? ==> v == Some(f.value)
  {
    if f.Number? then Some(f.value) else None
  }

  /**
   * The checks save_room and save_changes make, in their order: number
   * present, number not used by another room, capacity an integer, price a
   * decimal. The edit passes the room's own id, which the duplicate query excludes.
   */
  function Validate(rooms: map<int, Room>, form: RoomForm, editing: Option<int>): (v: Validation)
    ensures v == Reject(NumberRequired) <==> form.roomNumber == ""
    ensures v == Reject(NumberTaken) <==> form.roomNumber != "" && NumberInUse(rooms, form.roomNumber, editing)
    ensures v == Reject(CapacityNotANumber) <==>
      form.roomNumber != "" && !NumberInUse(rooms, form.roomNumber, editing) && form.capacity.NotANumber?
    ensures v == Reject(PriceNotANumber) <==>
      form.roomNumber != "" && !NumberInUse(rooms, form.roomNumber, editing)
      && !form.capacity.NotANumber? && form.price.NotANumber?
    ensures v.Accept? ==>
      && v.room.roomNumber == form.roomNumber && v.room.status == form.status
      && v.room.capacity == Converted(form.capacity) && v.room.price == Converted(form.price)
    ensures v != Reject(HasTenants)
  {
    if form.roomNumber == "" then Reject(NumberRequired)
    else if NumberInUse(rooms, form.roomNumber, editing) then Reject(NumberTaken)
    else if form.capacity.NotANumber? then Reject(CapacityNotANumber)
    else if form.price.NotANumber? then Reject(PriceNotANumber)
    else Accept(Room(form.roomNumber, Converted(form.capacity), Converted(form.price), form.status))
  }

  /** No two rooms carry the same number. */
  predicate UniqueNumbers(rooms: map<int, Room>) {
    forall a, b :: a in rooms && b in rooms && a != b ==> rooms[a].roomNumber != rooms[b].roomNumber
  }

  /** Writing an accepted room at a fresh key (add) or at its own key (edit) keeps numbers unique. */
  lemma {:induction false} AcceptKeepsNumbersUnique(rooms: map<int, Room>, form: RoomForm, id: int, editing: Option<int>)
    requires UniqueNumbers(rooms)
    requires editing.None? ==> id !in rooms
    requires editing.Some? ==> editing == Some(id)
    requires Validate(rooms, form, editing).Accept?
    ensures UniqueNumbers(rooms[id := Validate(rooms, form, editing).room])
  {
    var written := rooms[id := Validate(rooms, form, editing).room];
    forall a, b | a in written && b in written && a != b
      ensures written[a].roomNumber != written[b].roomNumber
    {
      if a == id {
        assert !(b in rooms && rooms[b].roomNumber == form.roomNumber && editing != Some(b));
      } else if b == id {
        assert !(a in rooms && rooms[a].roomNumber == form.roomNumber && editing != Some(a));
      }
    }
  }

  /** On edit, keeping the room's own number never trips the duplicate check. */
  lemma {:induction false} OwnNumberAllowedOnEdit(rooms: map<int, Room>, id: int)
    requires UniqueNumbers(rooms) && id in rooms
    ensures !NumberInUse(rooms, rooms[id].roomNumber, Some(id))
  {
  }

  /** On add, any number already in the table is refused. */
  lemma {:induction false} ExistingNumberRefusedOnAdd(rooms: map<int, Room>, id: int, form: RoomForm)
    requires id in rooms && form.roomNumber == rooms[id].roomNumber && form.roomNumber != ""
    ensures Validate(rooms, form, None) == Reject(NumberTaken)
  {
    assert NumberInUse(rooms, form.roomNumber, None) by {
      assert id in rooms && rooms[id].roomNumber == form.roomNumber && None != Some(id);
    }
  }

  class RoomsView {
    const db: Database
    var rows: seq<RoomRow>

    constructor (db: Database)
      ensures this.db == db && rows == []
    {
      this.db := db;
      rows := [];
    }

    /** refresh_rooms: clear the table and append one row per fetched room, in order. */
    method RefreshRooms(result: seq<(int, Room)>)
      modifies this
      ensures |rows| == |result|
      ensures forall i :: 0 <= i < |result| ==> rows[i] == DisplayRow(result[i].0, result[i].1)
    {
      rows := [];
      var i := 0;
      while i < |result|
        invariant 0 <= i <= |result| && |rows| == i
        invariant forall j :: 0 <= j < i ==> rows[j] == DisplayRow(result[j].0, result[j].1)
      {
        rows := rows + [DisplayRow(result[i].0, result[i].1)];
        i := i + 1;
      }
    }

    /** filter_rooms: only the visibility of each row changes, never the rows or their order. */
    method FilterRooms(searchValue: Option<string>, statusFilter: string)
      modifies this
      ensures |rows| == |old(rows)|
      ensures forall i :: 0 <= i < |rows| ==>
        rows[i] == old(rows[i]).(visible := Shown(old(rows[i]), SearchTerm(searchValue), statusFilter))
    {
      var term := SearchTerm(searchValue);
      var i := 0;
      while i < |rows|
        invariant 0 <= i <= |rows| && |rows| == |old(rows)|
        invariant forall j :: 0 <= j < i ==>
          rows[j] == old(rows[j]).(visible := Shown(old(rows[j]), term, statusFilter))
        invariant forall j :: i <= j < |rows| ==> rows[j] == old(rows[j])
      {
        rows := rows[i := rows[i].(visible := Shown(rows[i], term, statusFilter))];
        i := i + 1;
      }
    }

    /**
     * filter_rooms as written reads the status with `cells[3].content.value`;
     * that cell holds the badge container, which has no value, so the first
     * row raises before its visibility is set and no row changes.
     */
    method FilterRoomsAsWritten(searchValue: Option<string>, statusFilter: string) returns (raised: bool)
      ensures raised <==> |rows| > 0
    {
      raised := false;
      if |rows| > 0 {
        var status := ContentValue(StatusCell(rows[0]));
        raised := status.None?;
      }
    }

    /** add_room and its save_room: validate, then INSERT. */
    method SaveRoom(form: RoomForm) returns (result: Outcome<RoomReason>)
      requires db.Valid()
      modifies db
      ensures db.Valid()
      ensures Validate(old(db.rooms), form, None).Reject? ==>
        result == Rejected(Validate(old(db.rooms), form, None).reason) && unchanged(db)
      ensures Validate(old(db.rooms), form, None).Accept? ==>
        && result == Done
        && old(db.nextRoomId) !in old(db.rooms)
        && db.rooms == old(db.rooms)[old(db.nextRoomId) := Validate(old(db.rooms), form, None).room]
      ensures db.tenants == old(db.tenants) && db.payments == old(db.payments)
      ensures UniqueNumbers(old(db.rooms)) ==> UniqueNumbers(db.rooms)
    {
      var v := Validate(db.rooms, form, None);
      if v.Reject? {
        return Rejected(v.reason);
      }
      if UniqueNumbers(db.rooms) {
        AcceptKeepsNumbersUnique(db.rooms, form, db.nextRoomId, None);
      }
      var id := db.InsertRoom(v.room);
      result := Done;
    }

    /** edit_room and its save_changes: validate excluding the room itself, then UPDATE. */
    method SaveChanges(roomId: int, form: RoomForm) returns (result: Outcome<RoomReason>)
      requires db.Valid()
      modifies db
      ensures db.Valid()
      ensures Validate(old(db.rooms), form, Some(roomId)).Reject? ==>
        result == Rejected(Validate(old(db.rooms), form, Some(roomId)).reason) && unchanged(db)
      ensures Validate(old(db.rooms), form, Some(roomId)).Accept? ==>
        && result == Done
        && db.rooms == if roomId in old(db.rooms)
                       then old(db.rooms)[roomId := Validate(old(db.rooms), form, Some(roomId)).room]
                       else old(db.rooms)
      ensures db.tenants == old(db.tenants) && db.payments == old(db.payments)
      ensures UniqueNumbers(old(db.rooms)) ==> UniqueNumbers(db.rooms)
    {
      var v := Validate(db.rooms, form, Some(roomId));
      if v.Reject? {
        return Rejected(v.reason);
      }
      if UniqueNumbers(db.rooms) && roomId in db.rooms {
        AcceptKeepsNumbersUnique(db.rooms, form, roomId, Some(roomId));
      }
      db.UpdateRoom(roomId, v.room);
      result := Done;
    }

    /** delete_room and its confirm_delete: refused while any tenant references the room. */
    method ConfirmDelete(roomId: int) returns (result: Outcome<RoomReason>)
      requires db.Valid()
      modifies db
      ensures db.Valid()
      ensures result == Rejected(HasTenants) <==> Occupants(old(db.tenants), roomId) > 0
      ensures result.Rejected? ==> unchanged(db)
      ensures result.Done? ==> db.rooms == old(db.rooms) - {roomId}
      ensures db.tenants == old(db.tenants) && db.payments == old(db.payments)
    {
      if Occupants(db.tenants, roomId) > 0 {
        return Rejected(HasTenants);
      }
      var ok := db.DeleteRoom(roomId);
      result := Done;
    }
  }
}
