/**
 * The rows of the rooms, tenants and payments tables, and the database that
 * holds them: each table is a map from its AUTO_INCREMENT key to its row.
 */
module Tables {
  import opened Common
  import opened Calendar

  /** A row of `rooms`. Capacity and price are None when the form left them blank. */
  datatype Room = Room(roomNumber: string, capacity: Option<int>, price: Option<int>, status: string)

  /** A row of `tenants`; roomId is the foreign key into `rooms`. */
  datatype Tenant = Tenant(
    firstName: string, lastName: string, contact: string, email: string,
    roomId: Option<int>, checkIn: Option<Date>, checkOut: Option<Date>)

  /** A row of `payments`; amounts in centavos. */
  datatype Payment = Payment(
    tenantId: int, amountRent: int, amountPaid: int, balance: int,
    paymentDate: Option<Date>, paymentMethod: string, status: string, description: string)

  const PENDING := "Pending"
  const PAID := "Paid"
  const OVERDUE := "Overdue"
  const CANCELLED := "Cancelled"

  /** The ledger identity of a payment row: rent owed = balance + paid. */
  predicate Balanced(p: Payment) {
    p.balance + p.amountPaid == p.amountRent
  }

  predicate AllBalanced(payments: map<int, Payment>) {
    forall id :: id in payments ==> Balanced(payments[id])
  }

  /** Writing a balanced row into a balanced table keeps it balanced. */
  lemma {:induction false} AllBalancedAfterWrite(payments: map<int, Payment>, id: int, p: Payment)
    requires AllBalanced(payments) && Balanced(p)
    ensures AllBalanced(payments[id := p])
  {
    var written := payments[id := p];
    forall k | k in written ensures Balanced(written[k]) {
      if k != id {
        assert written[k] == payments[k];
      }
    }
  }

  /** The tenants whose room_id is the given room. */
  function OccupantIds(tenants: map<int, Tenant>, roomId: int): set<int> {
    set id | id in tenants && tenants[id].roomId == Some(roomId)
  }

  /** SELECT COUNT(*) FROM tenants WHERE room_id = roomId */
  function Occupants(tenants: map<int, Tenant>, roomId: int): (n: nat)
    ensures n <= |tenants|
  {
    var ids := OccupantIds(tenants, roomId);
    assert ids <= tenants.Keys;
    SubsetCardinality(ids, tenants.Keys);
    |ids|
  }

  lemma SubsetCardinality(a: set<int>, b: set<int>)
    requires a <= b
    ensures |a| <= |b|
  {
    assert b == a + (b - a);
  }

  /** A count of zero means that no tenant row names the room, and back. */
  lemma {:induction false} NoOccupantsIff(tenants: map<int, Tenant>, roomId: int)
    ensures Occupants(tenants, roomId) == 0
        <==> forall id :: id in tenants ==> tenants[id].roomId != Some(roomId)
  {
    var ids := OccupantIds(tenants, roomId);
    if forall id :: id in tenants ==> tenants[id].roomId != Some(roomId) {
      assert ids == {};
    }
    if |ids| == 0 {
      forall id | id in tenants ensures tenants[id].roomId != Some(roomId) {
        assert id !in ids;
      }
    }
  }

  /** The foreign key tenants.room_id -> rooms.room_id holds. */
  predicate RoomsResolve(rooms: map<int, Room>, tenants: map<int, Tenant>) {
    forall id :: id in tenants && tenants[id].roomId.Some? ==> tenants[id].roomId.value in rooms
  }

  predicate RoomExists(rooms: map<int, Room>, roomId: Option<int>) {
    roomId.None? || roomId.value in rooms
  }

  /**
   * The database: three tables and their AUTO_INCREMENT counters. Each
   * statement commits on its own. It refuses a tenant row whose room does not
   * exist and the deletion of a room that a tenant row still names.
   */
  class Database {
    var rooms: map<int, Room>
    var tenants: map<int, Tenant>
    var payments: map<int, Payment>
    var nextRoomId: int
    var nextTenantId: int
    var nextPaymentId: int

    ghost predicate Valid()
      reads this
    {
      && 1 <= nextRoomId && 1 <= nextTenantId && 1 <= nextPaymentId
      && (forall id :: id in rooms ==> 1 <= id < nextRoomId)
      && (forall id :: id in tenants ==> 1 <= id < nextTenantId)
      && (forall id :: id in payments ==> 1 <= id < nextPaymentId)
      && RoomsResolve(rooms, tenants)
    }

    constructor ()
      ensures Valid()
      ensures rooms == map[] && tenants == map[] && payments == map[]
    {
      rooms, tenants, payments := map[], map[], map[];
      nextRoomId, nextTenantId, nextPaymentId := 1, 1, 1;
    }

    /** INSERT INTO rooms: the row gets the next unused key. */
    method InsertRoom(r: Room) returns (id: int)
      requires Valid()
      modifies this
      ensures Valid()
      ensures id == old(nextRoomId) && id !in old(rooms)
      ensures rooms == old(rooms)[id := r]
      ensures tenants == old(tenants) && payments == old(payments)
      ensures nextTenantId == old(nextTenantId) && nextPaymentId == old(nextPaymentId)
    {
      id := nextRoomId;
      rooms := rooms[id := r];
      nextRoomId := nextRoomId + 1;
    }

    /** UPDATE rooms ... WHERE room_id = id: no row changes when the key is absent. */
    method UpdateRoom(id: int, r: Room)
      requires Valid()
      modifies this
      ensures Valid()
      ensures rooms == if id in old(rooms) then old(rooms)[id := r] else old(rooms)
      ensures tenants == old(tenants) && payments == old(payments)
      ensures nextRoomId == old(nextRoomId) && nextTenantId == old(nextTenantId)
      ensures nextPaymentId == old(nextPaymentId)
    {
      if id in rooms {
        rooms := rooms[id := r];
      }
    }

    /** DELETE FROM rooms WHERE room_id = id, refused while a tenant names the room. */
    method DeleteRoom(id: int) returns (ok: bool)
      requires Valid()
      modifies this
      ensures Valid()
      ensures ok <==> Occupants(old(tenants), id) == 0
      ensures rooms == if ok then old(rooms) - {id} else old(rooms)
      ensures tenants == old(tenants) && payments == old(payments)
      ensures nextRoomId == old(nextRoomId) && nextTenantId == old(nextTenantId)
      ensures nextPaymentId == old(nextPaymentId)
    {
      NoOccupantsIff(tenants, id);
      ok := Occupants(tenants, id) == 0;
      if ok {
        rooms := rooms - {id};
      }
    }

    /** INSERT INTO tenants, refused when the room it names does not exist. */
    method InsertTenant(t: Tenant) returns (ok: bool, id: int)
      requires Valid()
      modifies this
      ensures Valid()
      ensures ok <==> RoomExists(old(rooms), t.roomId)
      ensures ok ==> id == old(nextTenantId) && id !in old(tenants)
      ensures !ok ==> unchanged(this)
      ensures tenants == if ok then old(tenants)[id := t] else old(tenants)
      ensures rooms == old(rooms) && payments == old(payments)
      ensures nextRoomId == old(nextRoomId) && nextPaymentId == old(nextPaymentId)
    {
      ok := RoomExists(rooms, t.roomId);
      id := nextTenantId;
      if ok {
        tenants := tenants[id := t];
        nextTenantId := nextTenantId + 1;
      }
    }

    /** UPDATE tenants ... WHERE tenant_id = id, refused when the new room does not exist. */
    method UpdateTenant(id: int, t: Tenant) returns (ok: bool)
      requires Valid()
      modifies this
      ensures Valid()
      ensures ok <==> RoomExists(old(rooms), t.roomId)
      ensures tenants == if ok && id in old(tenants) then old(tenants)[id := t] else old(tenants)
      ensures !ok ==> unchanged(this)
      ensures rooms == old(rooms) && payments == old(payments)
      ensures nextRoomId == old(nextRoomId) && nextTenantId == old(nextTenantId)
      ensures nextPaymentId == old(nextPaymentId)
    {
      ok := RoomExists(rooms, t.roomId);
      if ok && id in tenants {
        tenants := tenants[id := t];
      }
    }

    /** INSERT INTO payments: the row gets the next unused key. */
    method InsertPayment(p: Payment) returns (id: int)
      requires Valid()
      modifies this
      ensures Valid()
      ensures id == old(nextPaymentId) && id !in old(payments)
      ensures payments == old(payments)[id := p]
      ensures rooms == old(rooms) && tenants == old(tenants)
      ensures nextRoomId == old(nextRoomId) && nextTenantId == old(nextTenantId)
    {
      id := nextPaymentId;
      payments := payments[id := p];
      nextPaymentId := nextPaymentId + 1;
    }

    /** UPDATE payments ... WHERE payment_id = id: no row changes when the key is absent. */
    method UpdatePayment(id: int, p: Payment)
      requires Valid()
      modifies this
      ensures Valid()
      ensures payments == if id in old(payments) then old(payments)[id := p] else old(payments)
      ensures rooms == old(rooms) && tenants == old(tenants)
      ensures nextRoomId == old(nextRoomId) && nextTenantId == old(nextTenantId)
      ensures nextPaymentId == old(nextPaymentId)
    {
      if id in payments {
        payments := payments[id := p];
      }
    }

    /** DELETE FROM payments WHERE payment_id = id */
    method DeletePayment(id: int)
      requires Valid()
      modifies this
      ensures Valid()
      ensures payments == old(payments) - {id}
      ensures rooms == old(rooms) && tenants == old(tenants)
      ensures nextRoomId == old(nextRoomId) && nextTenantId == old(nextTenantId)
      ensures nextPaymentId == old(nextPaymentId)
    {
      payments := payments - {id};
    }
  }
}
