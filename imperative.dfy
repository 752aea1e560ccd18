/**
 The stateful ledger. A `HotelStore` holds the persisted document in five
 fields. Every operation loads the whole document into a local snapshot,
 changes the snapshot and saves the whole snapshot back, as the source does;
 each method is proved to have the effect that the matching function of
 LedgerState describes.
 */
module Imperative {
  import opened LedgerState
  import LedgerProperties

  class HotelStore {
    var rooms: seq<Room>
    var reservations: seq<Reservation>
    var customers: seq<Customer>
    var availableServices: seq<Service>
    var orderedServices: seq<OrderedService>

    /** The stored document, as `load_data` would return it. */
    function Snapshot(): Data
      reads this
    {
      Data(rooms, reservations, customers, availableServices, orderedServices)
    }

    /** A store that holds no document yet reads as the initial one. */
    constructor ()
      ensures Snapshot() == Initial && Valid(Snapshot())
    {
      rooms := Initial.rooms;
      reservations := Initial.reservations;
      customers := Initial.customers;
      availableServices := Initial.availableServices;
      orderedServices := Initial.orderedServices;
    }

    /** `save_data`: the whole snapshot replaces the stored document. */
    method Save(data: Data)
      modifies this
      ensures Snapshot() == data
    {
      rooms := data.rooms;
      reservations := data.reservations;
      customers := data.customers;
      availableServices := data.availableServices;
      orderedServices := data.orderedServices;
    }

    method CreateRoom(roomNumber: int, roomType: string, price: real)
      modifies this
      ensures Snapshot() == AfterCreateRoom(old(Snapshot()), roomNumber, roomType, price)
      ensures old(Valid(Snapshot())) ==> Valid(Snapshot())
    {
      var data := Snapshot();
      if HasRoom(data.rooms, roomNumber) {
        return;
      }
      data := data.(rooms := data.rooms + [Room(roomNumber, Lower(roomType), price, true)]);
      Save(data);
      if Valid(old(Snapshot())) {
        LedgerProperties.CreateRoomPreservesValid(old(Snapshot()), roomNumber, roomType, price);
      }
    }

    /** `check_room_status`: scans the rooms for the first one with this number. */
    method CheckRoomStatus(roomNumber: int) returns (status: string)
      ensures status == RoomStatus(rooms, roomNumber)
      ensures status == NotFoundText <==> !HasRoom(rooms, roomNumber)
    {
      var data := Snapshot();
      var i := 0;
      while i < |data.rooms|
        invariant 0 <= i <= |data.rooms| && data.rooms == rooms
        invariant forall j :: 0 <= j < i ==> data.rooms[j].roomNumber != roomNumber
      {
        if data.rooms[i].roomNumber == roomNumber {
          return if data.rooms[i].available then AvailableText else OccupiedText;
        }
        i := i + 1;
      }
      return NotFoundText;
    }

    method GetCustomerInfo(name: string, contact: string, paymentMethod: string)
      modifies this
      ensures Snapshot() == AfterCustomerInfo(old(Snapshot()), name, contact, paymentMethod)
      ensures old(Valid(Snapshot())) ==> Valid(Snapshot())
    {
      var data := Snapshot();
      if HasCustomer(data.customers, name, contact) {
        return;
      }
      data := data.(customers := data.customers + [Customer(name, contact, paymentMethod)]);
      Save(data);
    }

    /**
     `book_room`: the loop takes the first room with this number that is
     available. The customer is registered through GetCustomerInfo, which
     saves a document of its own; the snapshot loaded here is saved after it.
     */
    method BookRoom(customerName: string, roomNumber: int, checkInDate: Day, stayLength: int,
                    contact: string, paymentMethod: string)
      modifies this
      ensures Snapshot() == AfterBookRoom(old(Snapshot()), customerName, roomNumber, checkInDate, stayLength, contact, paymentMethod)
      ensures old(Valid(Snapshot())) ==> Valid(Snapshot())
    {
      var data := Snapshot();
      var i := 0;
      while i < |data.rooms|
        invariant 0 <= i <= |data.rooms| && data == old(Snapshot()) && Snapshot() == old(Snapshot())
        invariant forall j :: 0 <= j < i ==> !Bookable(roomNumber)(data.rooms[j])
      {
        var room := data.rooms[i];
        if room.roomNumber == roomNumber {
          if room.available {
            assert FirstIndex(data.rooms, Bookable(roomNumber)) == Some(i);
            data := data.(rooms := data.rooms[i := room.(available := false)]);
            GetCustomerInfo(customerName, contact, paymentMethod);
            var reservation := Reservation(|data.reservations| + 1, customerName, roomNumber,
                                           checkInDate, checkInDate + stayLength);
            data := data.(reservations := data.reservations + [reservation]);
            Save(data);
            if Valid(old(Snapshot())) {
              LedgerProperties.BookRoomPreservesValid(old(Snapshot()), customerName, roomNumber, checkInDate,
                                                      stayLength, contact, paymentMethod);
            }
            return;
          }
        }
        i := i + 1;
      }
    }

    /** `check_in`: the guest of the first reservation for this room that starts `today`. */
    method CheckIn(roomNumber: int, today: Day) returns (guest: Option<string>)
      ensures guest == ArrivingGuest(reservations, roomNumber, today)
    {
      var data := Snapshot();
      var k := 0;
      while k < |data.reservations|
        invariant 0 <= k <= |data.reservations| && data.reservations == reservations
        invariant forall j :: 0 <= j < k ==> !ArrivesOn(roomNumber, today)(data.reservations[j])
      {
        var r := data.reservations[k];
        if r.roomNumber == roomNumber && r.checkInDate == today {
          assert FirstIndex(data.reservations, ArrivesOn(roomNumber, today)) == Some(k);
          return Some(r.customerName);
        }
        k := k + 1;
      }
      return None;
    }

    /** `check_out`: the first room with this number is freed and all its reservations dropped. */
    method CheckOut(roomNumber: int)
      modifies this
      ensures Snapshot() == AfterCheckOut(old(Snapshot()), roomNumber)
      ensures old(Valid(Snapshot())) ==> Valid(Snapshot())
    {
      var data := Snapshot();
      var i := 0;
      while i < |data.rooms|
        invariant 0 <= i <= |data.rooms| && data == old(Snapshot()) && Snapshot() == old(Snapshot())
        invariant forall j :: 0 <= j < i ==> !NumberIs(roomNumber)(data.rooms[j])
      {
        var room := data.rooms[i];
        if room.roomNumber == roomNumber {
          assert FirstIndex(data.rooms, NumberIs(roomNumber)) == Some(i);
          data := data.(rooms := data.rooms[i := room.(available := true)]);
          data := data.(reservations := Filter(data.reservations, OtherRoom(roomNumber)));
          Save(data);
          if Valid(old(Snapshot())) {
            LedgerProperties.CheckOutPreservesValid(old(Snapshot()), roomNumber);
          }
          return;
        }
        i := i + 1;
      }
    }

    /** `get_revenue_report`: accumulates the room charges of the reservations in the window. */
    method GetRevenueReport(startDate: Option<Day>, endDate: Option<Day>) returns (totalRevenue: real)
      requires WindowRoomsExist(rooms, reservations, startDate, endDate)
      ensures totalRevenue == Revenue(rooms, reservations, startDate, endDate)
    {
      var data := Snapshot();
      var roomList, bookings := data.rooms, data.reservations;
      totalRevenue := 0.0;
      var k := 0;
      while k < |bookings|
        invariant 0 <= k <= |bookings|
        invariant WindowRoomsExist(roomList, bookings, startDate, endDate)
        invariant totalRevenue == RevenueUpTo(roomList, bookings, k, startDate, endDate)
      {
        var reservation := bookings[k];
        if InWindow(reservation.checkInDate, startDate, endDate) {
          var roomRevenue := RoomCharges(roomList, reservation);
          totalRevenue := totalRevenue + roomRevenue;
        }
        k := k + 1;
      }
    }

    /** `get_customer_statistics`: the number of customers and a count per contact value. */
    method GetCustomerStatistics() returns (stats: Stats)
      ensures stats.totalCustomers == |customers|
      ensures stats.contactMethods == Tally(customers)
      ensures forall c :: c in stats.contactMethods <==> CountContact(customers, c) > 0
      ensures forall c :: c in stats.contactMethods ==> stats.contactMethods[c] == CountContact(customers, c)
    {
      var data := Snapshot();
      var clients := data.customers;
      var contactMethods: map<string, nat> := map[];
      var k := 0;
      while k < |clients|
        invariant 0 <= k <= |clients|
        invariant contactMethods == Tally(clients[..k])
      {
        assert clients[..k + 1] == clients[..k] + [clients[k]];
        TallySnoc(clients[..k], clients[k]);
        var c := clients[k].contact;
        contactMethods := contactMethods[c := (if c in contactMethods then contactMethods[c] else 0) + 1];
        k := k + 1;
      }
      assert clients[..k] == clients;
      TallyCounts(clients);
      stats := Stats(|clients|, contactMethods);
    }
  }
}
