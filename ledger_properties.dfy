/**
 Properties of the stateful ledger's operations, stated over the document
 functions of LedgerState: what each operation does to rooms, reservations
 and customers, the invariants it keeps, the reports' arithmetic, and the
 reservation-id and lost-customer behaviours of the booking workflow.
 */
module LedgerProperties {
  import opened LedgerState

  // ---------------------------------------------------------------------
  // Room lookup under unique room numbers
  // ---------------------------------------------------------------------

  /** With unique numbers, room `i` is the first (and only) room with its number. */
  lemma FirstRoomIsOnlyRoom(rooms: seq<Room>, i: nat)
    requires UniqueRoomNumbers(rooms) && i < |rooms|
    ensures FirstIndex(rooms, NumberIs(rooms[i].roomNumber)) == Some(i)
    ensures rooms[i].available ==> FirstIndex(rooms, Bookable(rooms[i].roomNumber)) == Some(i)
    ensures !rooms[i].available ==> FirstIndex(rooms, Bookable(rooms[i].roomNumber)).None?
  {
    var n := rooms[i].roomNumber;
    var k := FirstIndex(rooms, NumberIs(n));
    assert NumberIs(n)(rooms[i]);
    assert k == Some(i);
    var b := FirstIndex(rooms, Bookable(n));
    if b.Some? {
      assert rooms[b.value].roomNumber == n;
      assert b.value == i;
    }
    if rooms[i].available {
      assert Bookable(n)(rooms[i]);
    }
  }

  /** With unique numbers the status of a room is its own availability. */
  lemma StatusOfRoom(rooms: seq<Room>, i: nat)
    requires UniqueRoomNumbers(rooms) && i < |rooms|
    ensures RoomStatus(rooms, rooms[i].roomNumber) == if rooms[i].available then AvailableText else OccupiedText
  {
    FirstRoomIsOnlyRoom(rooms, i);
  }

  /** In a valid document a room reads as occupied exactly when some reservation is for it. */
  lemma StatusMatchesReservations(d: Data, n: int)
    requires Valid(d) && HasRoom(d.rooms, n)
    ensures RoomStatus(d.rooms, n) == OccupiedText <==> Reserved(d.reservations, n)
    ensures RoomStatus(d.rooms, n) == AvailableText <==> !Reserved(d.reservations, n)
  {
    var i :| 0 <= i < |d.rooms| && d.rooms[i].roomNumber == n;
    StatusOfRoom(d.rooms, i);
  }

  /** Two room lists with the same numbers, position by position, find the same room for every number. */
  lemma {:induction false} SameNumbersSameLookup(a: seq<Room>, b: seq<Room>, m: int)
    requires |a| == |b| && forall j :: 0 <= j < |a| ==> a[j].roomNumber == b[j].roomNumber
    ensures FirstIndex(a, NumberIs(m)) == FirstIndex(b, NumberIs(m))
    ensures HasRoom(a, m) <==> HasRoom(b, m)
  {
    if a != [] {
      SameNumbersSameLookup(a[1..], b[1..], m);
    }
    if HasRoom(a, m) {
      var j :| 0 <= j < |a| && a[j].roomNumber == m;
      assert b[j].roomNumber == m;
    }
    if HasRoom(b, m) {
      var j :| 0 <= j < |b| && b[j].roomNumber == m;
      assert a[j].roomNumber == m;
    }
  }

  /** Changing only the availability of room `i` changes the status of its number only. */
  lemma SetAvailability(rooms: seq<Room>, i: nat, avail: bool, m: int)
    requires UniqueRoomNumbers(rooms) && i < |rooms|
    ensures var r := rooms[i := rooms[i].(available := avail)];
      && UniqueRoomNumbers(r)
      && (forall c :: HasRoom(r, c) <==> HasRoom(rooms, c))
      && RoomStatus(r, rooms[i].roomNumber) == (if avail then AvailableText else OccupiedText)
      && (m != rooms[i].roomNumber ==> RoomStatus(r, m) == RoomStatus(rooms, m))
  {
    var r := rooms[i := rooms[i].(available := avail)];
    assert forall j :: 0 <= j < |rooms| ==> r[j].roomNumber == rooms[j].roomNumber;
    forall c ensures HasRoom(r, c) <==> HasRoom(rooms, c) {
      SameNumbersSameLookup(rooms, r, c);
    }
    StatusOfRoom(r, i);
    SameNumbersSameLookup(rooms, r, m);
    var k := FirstIndex(rooms, NumberIs(m));
    if k.Some? && m != rooms[i].roomNumber {
      assert k.value != i;
    }
  }

  /** Appending a reservation adds its room to the reserved ones and no other. */
  lemma ReservedAppend(rs: seq<Reservation>, x: Reservation, m: int)
    ensures Reserved(rs + [x], m) <==> Reserved(rs, m) || x.roomNumber == m
  {
    if Reserved(rs, m) {
      var k :| 0 <= k < |rs| && rs[k].roomNumber == m;
      assert (rs + [x])[k].roomNumber == m;
    }
    if x.roomNumber == m {
      assert (rs + [x])[|rs|].roomNumber == m;
    }
  }

  /** Removing the reservations of room `n` unreserves `n` and no other room. */
  lemma ReservedAfterRemoval(rs: seq<Reservation>, n: int, m: int)
    ensures !Reserved(Filter(rs, OtherRoom(n)), n)
    ensures m != n ==> (Reserved(Filter(rs, OtherRoom(n)), m) <==> Reserved(rs, m))
  {
    var f := Filter(rs, OtherRoom(n));
    if Reserved(f, m) {
      var k :| 0 <= k < |f| && f[k].roomNumber == m;
      assert f[k] in rs;
    }
    if m != n && Reserved(rs, m) {
      var k :| 0 <= k < |rs| && rs[k].roomNumber == m;
      assert rs[k] in f;
    }
  }

  // ---------------------------------------------------------------------
  // create_room
  // ---------------------------------------------------------------------

  /** A number that already exists leaves the whole document as it was. */
  lemma CreateRoomDuplicate(d: Data, n: int, roomType: string, price: real)
    requires HasRoom(d.rooms, n)
    ensures AfterCreateRoom(d, n, roomType, price) == d
  {
  }

  /**
   A new number appends exactly one room, available and with its type in
   lower case; nothing else changes and the room numbers stay unique.
   */
  lemma {:induction false} CreateRoomAppends(d: Data, n: int, roomType: string, price: real)
    requires !HasRoom(d.rooms, n)
    ensures var r := AfterCreateRoom(d, n, roomType, price);
      && r.rooms == d.rooms + [Room(n, Lower(roomType), price, true)]
      && r.(rooms := d.rooms) == d
      && RoomStatus(r.rooms, n) == AvailableText
      && (UniqueRoomNumbers(d.rooms) ==> UniqueRoomNumbers(r.rooms))
  {
    var r := AfterCreateRoom(d, n, roomType, price);
    assert r.rooms[|d.rooms|].roomNumber == n;
    var k := FirstIndex(r.rooms, NumberIs(n));
    assert NumberIs(n)(r.rooms[|d.rooms|]);
    assert k == Some(|d.rooms|);
  }

  /** Creating a room other than `m` does not change the status of room `m`. */
  lemma {:induction false} CreateRoomKeepsOtherStatus(d: Data, n: int, roomType: string, price: real, m: int)
    requires m != n
    ensures RoomStatus(AfterCreateRoom(d, n, roomType, price).rooms, m) == RoomStatus(d.rooms, m)
  {
    var r := AfterCreateRoom(d, n, roomType, price);
    if !HasRoom(d.rooms, n) {
      var k := FirstIndex(d.rooms, NumberIs(m));
      var k' := FirstIndex(r.rooms, NumberIs(m));
      assert forall j :: 0 <= j < |d.rooms| ==> r.rooms[j] == d.rooms[j];
      assert !NumberIs(m)(r.rooms[|d.rooms|]);
      if k.Some? {
        assert k'.Some? && k'.value == k.value by {
          assert NumberIs(m)(r.rooms[k.value]);
        }
      } else {
        assert k'.None?;
      }
    }
  }

  lemma CreateRoomPreservesValid(d: Data, n: int, roomType: string, price: real)
    requires Valid(d)
    ensures Valid(AfterCreateRoom(d, n, roomType, price))
  {
    var r := AfterCreateRoom(d, n, roomType, price);
    if !HasRoom(d.rooms, n) {
      CreateRoomAppends(d, n, roomType, price);
      assert forall j :: 0 <= j < |d.rooms| ==> r.rooms[j] == d.rooms[j];
      forall k | 0 <= k < |r.reservations| ensures HasRoom(r.rooms, r.reservations[k].roomNumber) {
        var i :| 0 <= i < |d.rooms| && d.rooms[i].roomNumber == d.reservations[k].roomNumber;
        assert r.rooms[i].roomNumber == r.reservations[k].roomNumber;
      }
      assert !Reserved(d.reservations, n);
    }
  }

  // ---------------------------------------------------------------------
  // get_customer_info and search_on_customers
  // ---------------------------------------------------------------------

  /** Registering the same customer twice is the same as registering once. */
  lemma CustomerInfoIdempotent(d: Data, name: string, contact: string, paymentMethod: string)
    ensures var once := AfterCustomerInfo(d, name, contact, paymentMethod);
      AfterCustomerInfo(once, name, contact, paymentMethod) == once
  {
  }

  /** A customer already known under this name and contact adds nothing; a new one is appended. */
  lemma CustomerInfoEffect(d: Data, name: string, contact: string, paymentMethod: string)
    ensures HasCustomer(d.customers, name, contact) ==> AfterCustomerInfo(d, name, contact, paymentMethod) == d
    ensures !HasCustomer(d.customers, name, contact) ==>
      AfterCustomerInfo(d, name, contact, paymentMethod).customers == d.customers + [Customer(name, contact, paymentMethod)]
  {
  }

  lemma CustomerInfoPreservesValid(d: Data, name: string, contact: string, paymentMethod: string)
    requires Valid(d)
    ensures Valid(AfterCustomerInfo(d, name, contact, paymentMethod))
  {
  }

  /** The search result keeps stored order: searching a split list is searching each part. */
  lemma SearchSplits(d: Data, more: seq<Customer>, name: string)
    ensures SearchOnCustomers(d.(customers := d.customers + more), name)
         == SearchOnCustomers(d, name) + SearchOnCustomers(d.(customers := more), name)
  {
    FilterAppend(d.customers, more, NameIs(name));
  }

  // ---------------------------------------------------------------------
  // book_room
  // ---------------------------------------------------------------------

  /** A missing room, or (with unique numbers) an occupied one, leaves the document unchanged. */
  lemma BookRoomRefused(d: Data, name: string, n: int, checkIn: Day, stayLength: int, contact: string, paymentMethod: string)
    requires !HasRoom(d.rooms, n) || (UniqueRoomNumbers(d.rooms) && RoomStatus(d.rooms, n) == OccupiedText)
    ensures AfterBookRoom(d, name, n, checkIn, stayLength, contact, paymentMethod) == d
  {
    if HasRoom(d.rooms, n) {
      var i :| 0 <= i < |d.rooms| && d.rooms[i].roomNumber == n;
      StatusOfRoom(d.rooms, i);
      FirstRoomIsOnlyRoom(d.rooms, i);
    }
  }

  /**
   Booking an available room (numbers unique): that room, and no other,
   becomes occupied, exactly one reservation is appended with
   id |reservations| + 1 and check-out date check-in + stay length, and the
   customers and services are those of the loaded snapshot.
   */
  lemma {:induction false} BookRoomSucceeds(d: Data, name: string, n: int, checkIn: Day, stayLength: int, contact: string, paymentMethod: string)
    requires UniqueRoomNumbers(d.rooms) && RoomStatus(d.rooms, n) == AvailableText
    ensures var r := AfterBookRoom(d, name, n, checkIn, stayLength, contact, paymentMethod);
      && |r.rooms| == |d.rooms|
      && (forall j :: 0 <= j < |d.rooms| ==>
            r.rooms[j] == if d.rooms[j].roomNumber == n then d.rooms[j].(available := false) else d.rooms[j])
      && UniqueRoomNumbers(r.rooms)
      && RoomStatus(r.rooms, n) == OccupiedText
      && (forall m :: m != n ==> RoomStatus(r.rooms, m) == RoomStatus(d.rooms, m))
      && r.reservations == d.reservations + [Reservation(|d.reservations| + 1, name, n, checkIn, checkIn + stayLength)]
      && r.customers == d.customers
      && r.availableServices == d.availableServices && r.orderedServices == d.orderedServices
  {
    var i :| 0 <= i < |d.rooms| && d.rooms[i].roomNumber == n;
    StatusOfRoom(d.rooms, i);
    FirstRoomIsOnlyRoom(d.rooms, i);
    var r := AfterBookRoom(d, name, n, checkIn, stayLength, contact, paymentMethod);
    assert r.rooms == d.rooms[i := d.rooms[i].(available := false)];
    SetAvailability(d.rooms, i, false, n);
    forall m | m != n ensures RoomStatus(r.rooms, m) == RoomStatus(d.rooms, m) {
      SetAvailability(d.rooms, i, false, m);
    }
  }

  /**
   The customer inserted during a booking does not survive it: the snapshot
   loaded before the insert is the one saved, so a new customer is not recorded.
   */
  lemma BookRoomLosesNewCustomer(d: Data, name: string, n: int, checkIn: Day, stayLength: int, contact: string, paymentMethod: string)
    requires !HasCustomer(d.customers, name, contact)
    ensures HasCustomer(AfterCustomerInfo(d, name, contact, paymentMethod).customers, name, contact)
    ensures !HasCustomer(AfterBookRoom(d, name, n, checkIn, stayLength, contact, paymentMethod).customers, name, contact)
  {
  }

  lemma BookRoomPreservesValid(d: Data, name: string, n: int, checkIn: Day, stayLength: int, contact: string, paymentMethod: string)
    requires Valid(d)
    ensures Valid(AfterBookRoom(d, name, n, checkIn, stayLength, contact, paymentMethod))
  {
    var r := AfterBookRoom(d, name, n, checkIn, stayLength, contact, paymentMethod);
    match FirstIndex(d.rooms, Bookable(n))
    case None =>
    case Some(i) =>
      var x := Reservation(|d.reservations| + 1, name, n, checkIn, checkIn + stayLength);
      assert r.rooms == d.rooms[i := d.rooms[i].(available := false)];
      assert r.reservations == d.reservations + [x];
      SetAvailability(d.rooms, i, false, n);
      assert HasRoom(d.rooms, n);
      forall k | 0 <= k < |r.reservations| ensures HasRoom(r.rooms, r.reservations[k].roomNumber) {
        if k < |d.reservations| {
          assert r.reservations[k] == d.reservations[k];
        }
      }
      forall j | 0 <= j < |r.rooms| ensures r.rooms[j].available <==> !Reserved(r.reservations, r.rooms[j].roomNumber) {
        ReservedAppend(d.reservations, x, d.rooms[j].roomNumber);
        if j != i {
          assert r.rooms[j] == d.rooms[j];
          assert d.rooms[j].roomNumber != n;
        }
      }
  }

  /** Reservation ids 1, 2, ..., in order: what a history without check-outs produces. */
  predicate SequentialIds(rs: seq<Reservation>) {
    forall k :: 0 <= k < |rs| ==> rs[k].reservationId == k + 1
  }

  /** As long as nobody checks out, booking keeps the ids sequential, hence distinct. */
  lemma BookRoomKeepsSequentialIds(d: Data, name: string, n: int, checkIn: Day, stayLength: int, contact: string, paymentMethod: string)
    requires SequentialIds(d.reservations)
    ensures var r := AfterBookRoom(d, name, n, checkIn, stayLength, contact, paymentMethod);
      SequentialIds(r.reservations) &&
      forall j, k :: 0 <= j < k < |r.reservations| ==> r.reservations[j].reservationId != r.reservations[k].reservationId
  {
  }

  /**
   From a document without rooms (such as Initial), rooms 101 and 102 are
   created: both read as available, their numbers are unique, and nothing
   else changes.
   */
  lemma TwoRoomsCreated(start: Data)
    requires start.rooms == []
    ensures var d0 := AfterCreateRoom(AfterCreateRoom(start, 101, "Single", 100.0), 102, "Double", 150.0);
      && UniqueRoomNumbers(d0.rooms)
      && RoomStatus(d0.rooms, 101) == AvailableText && RoomStatus(d0.rooms, 102) == AvailableText
      && d0.(rooms := start.rooms) == start
  {
    var a := AfterCreateRoom(start, 101, "Single", 100.0);
    assert UniqueRoomNumbers(start.rooms);
    CreateRoomAppends(start, 101, "Single", 100.0);
    assert |a.rooms| == 1 && a.rooms[0].roomNumber == 101;
    assert !HasRoom(a.rooms, 102);
    CreateRoomAppends(a, 102, "Double", 150.0);
    CreateRoomKeepsOtherStatus(a, 102, "Double", 150.0, 101);
  }

  /**
   The script's two bookings, from the two fresh rooms and no reservations:
   Alice books 101 for three nights from `day`, then Bob books 102 for two
   nights from `day + 1`. Reservations 1 and 2 result, both checking out on
   day + 3, and both rooms read as occupied. As an added check beside the
   script, booking 101 again right after Alice's booking changes nothing.
   */
  lemma BookingScenario(start: Data, day: Day)
    requires start.rooms == [] && start.reservations == []
    ensures var d0 := AfterCreateRoom(AfterCreateRoom(start, 101, "Single", 100.0), 102, "Double", 150.0);
      var d1 := AfterBookRoom(d0, "Alice", 101, day, 3, "555-1234", "Credit Card");
      var d2 := AfterBookRoom(d1, "Bob", 102, day + 1, 2, "555-5678", "Debit Card");
      && d1.reservations == [Reservation(1, "Alice", 101, day, day + 3)]
      && AfterBookRoom(d1, "Bob", 101, day + 1, 2, "555-5678", "Debit Card") == d1
      && d2.reservations == [Reservation(1, "Alice", 101, day, day + 3), Reservation(2, "Bob", 102, day + 1, day + 3)]
      && RoomStatus(d2.rooms, 101) == OccupiedText && RoomStatus(d2.rooms, 102) == OccupiedText
  {
    TwoRoomsCreated(start);
    var d0 := AfterCreateRoom(AfterCreateRoom(start, 101, "Single", 100.0), 102, "Double", 150.0);
    BookingAfterCreation(d0, day);
    SecondBooking(AfterBookRoom(d0, "Alice", 101, day, 3, "555-1234", "Credit Card"), day);
  }

  /**
   Alice's booking, for any document with the two fresh rooms and no
   reservations: reservation 1 checks out on day + 3, 101 reads as occupied and
   102 stays available; booking 101 once more is then refused and changes nothing.
   */
  lemma BookingAfterCreation(d0: Data, day: Day)
    requires UniqueRoomNumbers(d0.rooms) && d0.reservations == []
    requires RoomStatus(d0.rooms, 101) == AvailableText && RoomStatus(d0.rooms, 102) == AvailableText
    ensures var d1 := AfterBookRoom(d0, "Alice", 101, day, 3, "555-1234", "Credit Card");
      && UniqueRoomNumbers(d1.rooms)
      && d1.reservations == [Reservation(1, "Alice", 101, day, day + 3)]
      && RoomStatus(d1.rooms, 101) == OccupiedText && RoomStatus(d1.rooms, 102) == AvailableText
      && AfterBookRoom(d1, "Bob", 101, day + 1, 2, "555-5678", "Debit Card") == d1
  {
    var d1 := AfterBookRoom(d0, "Alice", 101, day, 3, "555-1234", "Credit Card");
    BookRoomSucceeds(d0, "Alice", 101, day, 3, "555-1234", "Credit Card");
    BookRoomRefused(d1, "Bob", 101, day + 1, 2, "555-5678", "Debit Card");
  }

  /**
   Bob's booking of 102 after Alice's: reservation 2 is appended, checking out
   on day + 3, 102 turns occupied and 101 stays occupied.
   */
  lemma SecondBooking(d1: Data, day: Day)
    requires UniqueRoomNumbers(d1.rooms) && d1.reservations == [Reservation(1, "Alice", 101, day, day + 3)]
    requires RoomStatus(d1.rooms, 101) == OccupiedText && RoomStatus(d1.rooms, 102) == AvailableText
    ensures var d2 := AfterBookRoom(d1, "Bob", 102, day + 1, 2, "555-5678", "Debit Card");
      && d2.reservations == [Reservation(1, "Alice", 101, day, day + 3), Reservation(2, "Bob", 102, day + 1, day + 3)]
      && RoomStatus(d2.rooms, 101) == OccupiedText && RoomStatus(d2.rooms, 102) == OccupiedText
  {
    BookRoomSucceeds(d1, "Bob", 102, day + 1, 2, "555-5678", "Debit Card");
  }

  // ---------------------------------------------------------------------
  // check_out
  // ---------------------------------------------------------------------

  lemma CheckOutMissingRoom(d: Data, n: int)
    requires !HasRoom(d.rooms, n)
    ensures AfterCheckOut(d, n) == d
  {
  }

  /**
   Checking out an existing room (numbers unique): that room, and no other,
   becomes available; the reservations are exactly the old ones for other rooms,
   in their old order (the filter); customers and services are unchanged.
   */
  lemma {:induction false} CheckOutFreesRoom(d: Data, n: int)
    requires UniqueRoomNumbers(d.rooms) && HasRoom(d.rooms, n)
    ensures var r := AfterCheckOut(d, n);
      && |r.rooms| == |d.rooms|
      && (forall j :: 0 <= j < |d.rooms| ==>
            r.rooms[j] == if d.rooms[j].roomNumber == n then d.rooms[j].(available := true) else d.rooms[j])
      && UniqueRoomNumbers(r.rooms)
      && RoomStatus(r.rooms, n) == AvailableText
      && (forall m :: m != n ==> RoomStatus(r.rooms, m) == RoomStatus(d.rooms, m))
      && r.reservations == Filter(d.reservations, OtherRoom(n))
      && !Reserved(r.reservations, n)
      && (forall x :: x in r.reservations <==> x in d.reservations && x.roomNumber != n)
      && (!Reserved(d.reservations, n) ==> r.reservations == d.reservations)
      && r.customers == d.customers
      && r.availableServices == d.availableServices && r.orderedServices == d.orderedServices
  {
    var i :| 0 <= i < |d.rooms| && d.rooms[i].roomNumber == n;
    FirstRoomIsOnlyRoom(d.rooms, i);
    var r := AfterCheckOut(d, n);
    assert r.rooms == d.rooms[i := d.rooms[i].(available := true)];
    SetAvailability(d.rooms, i, true, n);
    forall m | m != n ensures RoomStatus(r.rooms, m) == RoomStatus(d.rooms, m) {
      SetAvailability(d.rooms, i, true, m);
    }
    ReservedAfterRemoval(d.reservations, n, n);
    if !Reserved(d.reservations, n) {
      FilterKeepsAll(d.reservations, OtherRoom(n));
    }
  }

  lemma CheckOutPreservesValid(d: Data, n: int)
    requires Valid(d)
    ensures Valid(AfterCheckOut(d, n))
  {
    var r := AfterCheckOut(d, n);
    match FirstIndex(d.rooms, NumberIs(n))
    case None =>
    case Some(i) =>
      assert r.rooms == d.rooms[i := d.rooms[i].(available := true)];
      assert r.reservations == Filter(d.reservations, OtherRoom(n));
      SetAvailability(d.rooms, i, true, n);
      forall k | 0 <= k < |r.reservations| ensures HasRoom(r.rooms, r.reservations[k].roomNumber) {
        assert r.reservations[k] in d.reservations;
        var k0 :| 0 <= k0 < |d.reservations| && d.reservations[k0] == r.reservations[k];
      }
      forall j | 0 <= j < |r.rooms| ensures r.rooms[j].available <==> !Reserved(r.reservations, r.rooms[j].roomNumber) {
        ReservedAfterRemoval(d.reservations, n, d.rooms[j].roomNumber);
        if j != i {
          assert r.rooms[j] == d.rooms[j];
          assert d.rooms[j].roomNumber != n;
        }
      }
  }

  // ---------------------------------------------------------------------
  // Reservation ids after a check-out
  // ---------------------------------------------------------------------

  /**
   Ids are |reservations| + 1 at booking time, so after a check-out they repeat:
   with rooms 101 and 102 free, book 101, book 102, check out 101 and book 101
   again; both live reservations then carry id 2.
   */
  lemma ReservationIdsRepeat(catalog: seq<Service>, day: Day)
    ensures var d0 := Data([Room(101, "single", 100.0, true), Room(102, "double", 150.0, true)], [], [], catalog, []);
      var d1 := AfterBookRoom(d0, "Alice", 101, day, 3, "555-1234", "Credit Card");
      var d2 := AfterBookRoom(d1, "Bob", 102, day + 1, 2, "555-5678", "Debit Card");
      var d3 := AfterCheckOut(d2, 101);
      var d4 := AfterBookRoom(d3, "Carol", 101, day + 5, 1, "555-0000", "Cash");
      d4.reservations == [Reservation(2, "Bob", 102, day + 1, day + 3), Reservation(2, "Carol", 101, day + 5, day + 6)]
  {
    var a := Room(101, "single", 100.0, true);
    var b := Room(102, "double", 150.0, true);
    var ra := Reservation(1, "Alice", 101, day, day + 3);
    var rb := Reservation(2, "Bob", 102, day + 1, day + 3);
    var d0 := Data([a, b], [], [], catalog, []);
    assert Bookable(101)(d0.rooms[0]);
    var d1 := AfterBookRoom(d0, "Alice", 101, day, 3, "555-1234", "Credit Card");
    assert d1 == Data([a.(available := false), b], [ra], [], catalog, []);
    assert !Bookable(102)(d1.rooms[0]) && Bookable(102)(d1.rooms[1]);
    var d2 := AfterBookRoom(d1, "Bob", 102, day + 1, 2, "555-5678", "Debit Card");
    assert d2 == Data([a.(available := false), b.(available := false)], [ra, rb], [], catalog, []);
    assert NumberIs(101)(d2.rooms[0]);
    assert Filter([ra, rb], OtherRoom(101)) == [rb] by {
      assert [ra, rb][1..] == [rb];
      assert [rb][1..] == [];
    }
    var d3 := AfterCheckOut(d2, 101);
    assert d3 == Data([a, b.(available := false)], [rb], [], catalog, []);
    assert Bookable(101)(d3.rooms[0]);
  }

  // ---------------------------------------------------------------------
  // calculate_bill
  // ---------------------------------------------------------------------

  /** With distinct catalog ids, the catalog price of an entry's id is that entry's price. */
  lemma {:induction false} CatalogPriceOfEntry(catalog: seq<Service>, i: nat)
    requires i < |catalog|
    requires forall j, k :: 0 <= j < k < |catalog| ==> catalog[j].id != catalog[k].id
    ensures CatalogPrice(catalog, catalog[i].id) == catalog[i].price
  {
    if i == 0 {
      CatalogPriceOfMissingId(catalog[1..], catalog[0].id);
    } else {
      CatalogPriceOfEntry(catalog[1..], i - 1);
    }
  }

  /** An id that no catalog entry carries costs nothing. */
  lemma {:induction false} CatalogPriceOfMissingId(catalog: seq<Service>, sid: int)
    requires forall j :: 0 <= j < |catalog| ==> catalog[j].id != sid
    ensures CatalogPrice(catalog, sid) == 0.0
  {
    if catalog != [] {
      CatalogPriceOfMissingId(catalog[1..], sid);
    }
  }

  /** Service charges add up over a split list of ordered services. */
  lemma {:induction false} ServiceChargesAppend(a: seq<OrderedService>, b: seq<OrderedService>, catalog: seq<Service>, id: int)
    ensures ServiceCharges(a + b, catalog, id) == ServiceCharges(a, catalog, id) + ServiceCharges(b, catalog, id)
  {
    if a == [] {
      assert a + b == b;
    } else {
      assert (a + b)[1..] == a[1..] + b;
      ServiceChargesAppend(a[1..], b, catalog, id);
    }
  }

  /** One ordered service costs its catalog price when it is for `id`, and nothing otherwise. */
  lemma ServiceChargesSingle(o: OrderedService, catalog: seq<Service>, id: int)
    ensures ServiceCharges([o], catalog, id) == if o.reservationId == id then CatalogPrice(catalog, o.serviceId) else 0.0
  {
    assert [o][1..] == [];
  }

  /** Ordering one more service adds its charge to the reservation it is for, and to no other. */
  lemma ServiceChargesSnoc(ordered: seq<OrderedService>, o: OrderedService, catalog: seq<Service>, id: int)
    ensures ServiceCharges(ordered + [o], catalog, id)
            == ServiceCharges(ordered, catalog, id) + (if o.reservationId == id then CatalogPrice(catalog, o.serviceId) else 0.0)
  {
    ServiceChargesAppend(ordered, [o], catalog, id);
    ServiceChargesSingle(o, catalog, id);
  }

  /**
   The bill of a reservation just made by booking (when no older reservation
   already carries its id) is for that customer and room, over exactly the
   stay length.
   */
  lemma BillOfNewBooking(d: Data, name: string, n: int, checkIn: Day, stayLength: int, contact: string, paymentMethod: string)
    requires Valid(d) && RoomStatus(d.rooms, n) == AvailableText
    requires forall k :: 0 <= k < |d.reservations| ==> d.reservations[k].reservationId != |d.reservations| + 1
    ensures var r := AfterBookRoom(d, name, n, checkIn, stayLength, contact, paymentMethod);
      ReservationsHaveRooms(r) &&
      var b := CalculateBill(r, |d.reservations| + 1, DefaultTaxRate, DefaultDiscount);
      b.Some? && b.value.stayDuration == stayLength && b.value.customerName == name && b.value.roomNumber == n
  {
    BookRoomSucceeds(d, name, n, checkIn, stayLength, contact, paymentMethod);
    BookRoomPreservesValid(d, name, n, checkIn, stayLength, contact, paymentMethod);
    var id := |d.reservations| + 1;
    FirstIndexOfAppended(d.reservations, Reservation(id, name, n, checkIn, checkIn + stayLength), IdIs(id));
  }

  /** An appended element is the first to satisfy a predicate that no earlier element satisfies. */
  lemma FirstIndexOfAppended<T>(s: seq<T>, x: T, p: T -> bool)
    requires forall k :: 0 <= k < |s| ==> !p(s[k])
    requires p(x)
    ensures FirstIndex(s + [x], p) == Some(|s|)
  {
    var t := s + [x];
    assert t[|s|] == x;
    assert forall k :: 0 <= k < |s| ==> t[k] == s[k];
    var r := FirstIndex(t, p);
    assert r.Some?;
    assert !(r.value < |s|);
  }

  /**
   Three nights at 100 with the default rates and no services: room charges
   300, tax 45, discount 60, total 285.
   */
  lemma BillWorkedExample(day: Day)
    ensures var d := Data([Room(101, "single", 100.0, false)], [Reservation(1, "Alice", 101, day, day + 3)],
                          [], Initial.availableServices, []);
      ReservationsHaveRooms(d) &&
      CalculateBill(d, 1, DefaultTaxRate, DefaultDiscount)
        == Some(Bill("Alice", 101, 3, 300.0, 0.0, 300.0, 45.0, 60.0, 285.0))
  {
    var d := Data([Room(101, "single", 100.0, false)], [Reservation(1, "Alice", 101, day, day + 3)],
                  [], Initial.availableServices, []);
    assert NumberIs(101)(d.rooms[0]);
    assert IdIs(1)(d.reservations[0]);
  }

  /** The same stay with one meal ordered: 300 + 50 = 350, tax 52.5, discount 70, total 332.5. */
  lemma BillWithMealExample(day: Day)
    ensures var d := Data([Room(101, "single", 100.0, false)], [Reservation(1, "Alice", 101, day, day + 3)],
                          [], Initial.availableServices, [OrderedService(1, 1)]);
      ReservationsHaveRooms(d) &&
      CalculateBill(d, 1, DefaultTaxRate, DefaultDiscount)
        == Some(Bill("Alice", 101, 3, 300.0, 50.0, 350.0, 52.5, 70.0, 332.5))
  {
    var d := Data([Room(101, "single", 100.0, false)], [Reservation(1, "Alice", 101, day, day + 3)],
                  [], Initial.availableServices, [OrderedService(1, 1)]);
    assert NumberIs(101)(d.rooms[0]);
    assert IdIs(1)(d.reservations[0]);
    CatalogPriceOfEntry(Initial.availableServices, 0);
    assert ServiceCharges(d.orderedServices, d.availableServices, 1) == 50.0;
  }

  // ---------------------------------------------------------------------
  // get_revenue_report
  // ---------------------------------------------------------------------

  /** Two reservation lists that agree on their first `n` entries have the same running total there. */
  lemma {:induction false} RevenueUpToPrefix(rooms: seq<Room>, a: seq<Reservation>, b: seq<Reservation>, n: nat,
                                             start: Option<Day>, end: Option<Day>)
    requires n <= |a| && n <= |b| && a[..n] == b[..n]
    requires WindowRoomsExist(rooms, a, start, end) && WindowRoomsExist(rooms, b, start, end)
    ensures RevenueUpTo(rooms, a, n, start, end) == RevenueUpTo(rooms, b, n, start, end)
    decreases n
  {
    if n > 0 {
      assert a[n - 1] == a[..n][n - 1] == b[..n][n - 1] == b[n - 1];
      assert a[..n - 1] == a[..n][..n - 1] == b[..n][..n - 1] == b[..n - 1];
      RevenueUpToPrefix(rooms, a, b, n - 1, start, end);
    }
  }

  /** The running total over `a + b`, once past `a`, is all of `a` plus the running total over `b`. */
  lemma {:induction false} RevenueAppendUpTo(rooms: seq<Room>, a: seq<Reservation>, b: seq<Reservation>, j: nat,
                                             start: Option<Day>, end: Option<Day>)
    requires j <= |b|
    requires WindowRoomsExist(rooms, a + b, start, end)
    requires WindowRoomsExist(rooms, a, start, end) && WindowRoomsExist(rooms, b, start, end)
    ensures RevenueUpTo(rooms, a + b, |a| + j, start, end) == Revenue(rooms, a, start, end) + RevenueUpTo(rooms, b, j, start, end)
    decreases j
  {
    if j == 0 {
      assert (a + b)[..|a|] == a[..|a|];
      RevenueUpToPrefix(rooms, a + b, a, |a|, start, end);
    } else {
      assert (a + b)[|a| + j - 1] == b[j - 1];
      RevenueAppendUpTo(rooms, a, b, j - 1, start, end);
    }
  }

  /** Revenue adds up over a split list of reservations. */
  lemma RevenueAppend(rooms: seq<Room>, a: seq<Reservation>, b: seq<Reservation>, start: Option<Day>, end: Option<Day>)
    requires WindowRoomsExist(rooms, a + b, start, end)
    ensures WindowRoomsExist(rooms, a, start, end) && WindowRoomsExist(rooms, b, start, end)
    ensures Revenue(rooms, a + b, start, end) == Revenue(rooms, a, start, end) + Revenue(rooms, b, start, end)
  {
    assert forall k :: 0 <= k < |a| ==> (a + b)[k] == a[k];
    assert forall k :: 0 <= k < |b| ==> (a + b)[|a| + k] == b[k];
    RevenueAppendUpTo(rooms, a, b, |b|, start, end);
  }

  /** When the first `n` check-ins lie in the window, the running total there is the unbounded one. */
  lemma {:induction false} RevenueUpToCoversAll(rooms: seq<Room>, rs: seq<Reservation>, n: nat, start: Option<Day>, end: Option<Day>)
    requires n <= |rs|
    requires WindowRoomsExist(rooms, rs, None, None) && WindowRoomsExist(rooms, rs, start, end)
    requires forall k :: 0 <= k < |rs| ==> InWindow(rs[k].checkInDate, start, end)
    ensures RevenueUpTo(rooms, rs, n, start, end) == RevenueUpTo(rooms, rs, n, None, None)
    decreases n
  {
    if n > 0 {
      RevenueUpToCoversAll(rooms, rs, n - 1, start, end);
    }
  }

  /** When every check-in lies in the window, the report covers every reservation. */
  lemma RevenueCoversAll(rooms: seq<Room>, rs: seq<Reservation>, start: Option<Day>, end: Option<Day>)
    requires WindowRoomsExist(rooms, rs, None, None)
    requires forall k :: 0 <= k < |rs| ==> InWindow(rs[k].checkInDate, start, end)
    ensures WindowRoomsExist(rooms, rs, start, end)
    ensures Revenue(rooms, rs, start, end) == Revenue(rooms, rs, None, None)
  {
    RevenueUpToCoversAll(rooms, rs, |rs|, start, end);
  }

  /** With only one bound given the window is unbounded. */
  lemma RevenueOneBoundIsUnbounded(rooms: seq<Room>, rs: seq<Reservation>, start: Option<Day>, end: Option<Day>)
    requires WindowRoomsExist(rooms, rs, None, None)
    requires start.None? || end.None?
    ensures WindowRoomsExist(rooms, rs, start, end)
    ensures Revenue(rooms, rs, start, end) == Revenue(rooms, rs, None, None)
  {
    RevenueCoversAll(rooms, rs, start, end);
  }

  /** A window that admits none of the first `n` check-ins has a running total of 0 there. */
  lemma {:induction false} RevenueUpToOutsideWindow(rooms: seq<Room>, rs: seq<Reservation>, n: nat, start: Day, end: Day)
    requires n <= |rs|
    requires forall k :: 0 <= k < |rs| ==> !(start <= rs[k].checkInDate <= end)
    ensures WindowRoomsExist(rooms, rs, Some(start), Some(end))
    ensures RevenueUpTo(rooms, rs, n, Some(start), Some(end)) == 0.0
    decreases n
  {
    if n > 0 {
      RevenueUpToOutsideWindow(rooms, rs, n - 1, start, end);
    }
  }

  /** A window that admits no check-in (for one, a start after the end) yields no revenue. */
  lemma RevenueOutsideWindow(rooms: seq<Room>, rs: seq<Reservation>, start: Day, end: Day)
    requires forall k :: 0 <= k < |rs| ==> !(start <= rs[k].checkInDate <= end)
    ensures WindowRoomsExist(rooms, rs, Some(start), Some(end))
    ensures Revenue(rooms, rs, Some(start), Some(end)) == 0.0
  {
    RevenueUpToOutsideWindow(rooms, rs, |rs|, start, end);
  }

  /** With non-negative prices and stays, every room charge is non-negative. */
  lemma RoomChargesNonNegative(rooms: seq<Room>, r: Reservation)
    requires HasRoom(rooms, r.roomNumber)
    requires forall i :: 0 <= i < |rooms| ==> rooms[i].price >= 0.0
    requires r.checkOutDate >= r.checkInDate
    ensures RoomCharges(rooms, r) >= 0.0
  {
    var p := RoomPrice(rooms, r.roomNumber);
    assert p >= 0.0;
    assert StayDuration(r) as real >= 0.0;
  }

  /** Non-negative prices and stays give a non-negative running total. */
  lemma {:induction false} RevenueUpToNonNegative(rooms: seq<Room>, rs: seq<Reservation>, n: nat, start: Option<Day>, end: Option<Day>)
    requires n <= |rs| && WindowRoomsExist(rooms, rs, start, end)
    requires forall i :: 0 <= i < |rooms| ==> rooms[i].price >= 0.0
    requires forall k :: 0 <= k < |rs| ==> rs[k].checkOutDate >= rs[k].checkInDate
    ensures RevenueUpTo(rooms, rs, n, start, end) >= 0.0
    decreases n
  {
    if n > 0 {
      RevenueUpToNonNegative(rooms, rs, n - 1, start, end);
      if InWindow(rs[n - 1].checkInDate, start, end) {
        RoomChargesNonNegative(rooms, rs[n - 1]);
      }
    }
  }

  /** Non-negative prices and stays give non-negative revenue. */
  lemma RevenueNonNegative(rooms: seq<Room>, rs: seq<Reservation>, start: Option<Day>, end: Option<Day>)
    requires WindowRoomsExist(rooms, rs, start, end)
    requires forall i :: 0 <= i < |rooms| ==> rooms[i].price >= 0.0
    requires forall k :: 0 <= k < |rs| ==> rs[k].checkOutDate >= rs[k].checkInDate
    ensures Revenue(rooms, rs, start, end) >= 0.0
  {
    RevenueUpToNonNegative(rooms, rs, |rs|, start, end);
  }

  // ---------------------------------------------------------------------
  // get_customer_statistics
  // ---------------------------------------------------------------------

  /** The sum of a map does not depend on which key is taken out first. */
  lemma MapSumRemove(m: map<string, nat>, k: string)
    requires k in m
    ensures MapSum(m) == m[k] + MapSum(m - {k})
    decreases |m|
  {
    var j :| j in m && MapSum(m) == m[j] + MapSum(m - {j});
    if j != k {
      assert |m - {j}| < |m| by { assert (m - {j}).Keys == m.Keys - {j}; }
      assert |m - {k}| < |m| by { assert (m - {k}).Keys == m.Keys - {k}; }
      MapSumRemove(m - {j}, k);
      MapSumRemove(m - {k}, j);
      assert m - {j} - {k} == m - {k} - {j};
    }
  }

  lemma MapSumUpdate(m: map<string, nat>, k: string, v: nat)
    ensures MapSum(m[k := v]) == MapSum(m) - (if k in m then m[k] else 0) + v
  {
    MapSumRemove(m[k := v], k);
    if k in m {
      MapSumRemove(m, k);
      assert m[k := v] - {k} == m - {k};
    } else {
      assert m[k := v] - {k} == m;
    }
  }

  /** The per-contact counts add up to the total number of customers. */
  lemma {:induction false} TallySumsToTotal(cs: seq<Customer>)
    ensures MapSum(Tally(cs)) == |cs|
    decreases |cs|
  {
    if cs != [] {
      var prev := Tally(cs[..|cs| - 1]);
      var c := cs[|cs| - 1].contact;
      TallySumsToTotal(cs[..|cs| - 1]);
      MapSumUpdate(prev, c, (if c in prev then prev[c] else 0) + 1);
    }
  }
}
