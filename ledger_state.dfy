/**
 The hotel ledger of the stateful variant, as values.

 `Data` is the whole document that every operation loads, changes and saves
 (rooms, reservations, customers, the service catalog, ordered services).
 Each operation that changes the document is specified here by a function
 from the old document to the new one (`AfterCreateRoom`, `AfterBookRoom`, ...);
 each query is a function of the document. The class in module Imperative
 runs the operations step by step and is proved against these functions.

 Dates are day numbers, prices and rates are exact reals.
 */
module LedgerState {

  datatype Option<T> = None | Some(value: T)

  /** A calendar date as a day number: consecutive dates differ by one. */
  type Day = int

  datatype Room = Room(roomNumber: int, roomType: string, price: real, available: bool)

  datatype Customer = Customer(name: string, contact: string, paymentMethod: string)

  datatype Reservation = Reservation(
    reservationId: int,
    customerName: string,
    roomNumber: int,
    checkInDate: Day,
    checkOutDate: Day)

  /** An entry of the service catalog. */
  datatype Service = Service(id: int, name: string, price: real)

  /** A catalog service charged to a reservation. */
  datatype OrderedService = OrderedService(reservationId: int, serviceId: int)

  /** The persisted document. */
  datatype Data = Data(
    rooms: seq<Room>,
    reservations: seq<Reservation>,
    customers: seq<Customer>,
    availableServices: seq<Service>,
    orderedServices: seq<OrderedService>)

  /** The document used when none has been stored yet: empty collections and a three-entry catalog. */
  const Initial: Data :=
    Data([], [], [],
         [Service(1, "Meal", 50.0), Service(2, "Laundry", 20.0), Service(3, "Spa", 100.0)],
         [])

  const AvailableText: string := "Available"
  const OccupiedText: string := "Occupied"
  const NotFoundText: string := "Room not found."

  const DefaultTaxRate: real := 0.15
  const DefaultDiscount: real := 0.2

  // ---------------------------------------------------------------------
  // Searching and filtering sequences (the source's `next(...)` and list
  // comprehensions)
  // ---------------------------------------------------------------------

  /** The index of the first element satisfying `p`, if there is one. */
  function FirstIndex<T>(s: seq<T>, p: T -> bool): (k: Option<nat>)
    ensures k.Some? ==> k.value < |s| && p(s[k.value])
    ensures k.Some? ==> forall j :: 0 <= j < k.value ==> !p(s[j])
    ensures k.None? <==> forall j :: 0 <= j < |s| ==> !p(s[j])
  {
    if s == [] then None
    else if p(s[0]) then Some(0)
    else
      match FirstIndex(s[1..], p)
      case None => None
      case Some(j) => Some(j + 1)
  }

  /** The elements of `s` that satisfy `p`, in their order in `s`. */
  function Filter<T(==,!new)>(s: seq<T>, p: T -> bool): (r: seq<T>)
    ensures |r| <= |s|
    ensures forall x :: x in r <==> x in s && p(x)
  {
    if s == [] then []
    else (if p(s[0]) then [s[0]] else []) + Filter(s[1..], p)
  }

  /** Filtering distributes over concatenation: the kept elements stay in order. */
  lemma {:induction false} FilterAppend<T(!new)>(a: seq<T>, b: seq<T>, p: T -> bool)
    ensures Filter(a + b, p) == Filter(a, p) + Filter(b, p)
  {
    if a == [] {
      assert a + b == b;
    } else {
      assert (a + b)[1..] == a[1..] + b;
      FilterAppend(a[1..], b, p);
    }
  }

  /** Filtering keeps a sequence whose every element passes. */
  lemma {:induction false} FilterKeepsAll<T(!new)>(s: seq<T>, p: T -> bool)
    requires forall j :: 0 <= j < |s| ==> p(s[j])
    ensures Filter(s, p) == s
  {
    if s != [] {
      FilterKeepsAll(s[1..], p);
    }
  }

  /** A filter as long as its input kept every element. */
  lemma {:induction false} FilterFull<T(!new)>(s: seq<T>, p: T -> bool)
    requires |Filter(s, p)| == |s|
    ensures forall j :: 0 <= j < |s| ==> p(s[j])
  {
    if s != [] {
      FilterFull(s[1..], p);
      assert forall j :: 1 <= j < |s| ==> s[j] == s[1..][j - 1];
    }
  }

  function NumberIs(n: int): Room -> bool { (r: Room) => r.roomNumber == n }
  function Bookable(n: int): Room -> bool { (r: Room) => r.roomNumber == n && r.available }
  const IsOccupied: Room -> bool := (r: Room) => !r.available
  function NameIs(name: string): Customer -> bool { (c: Customer) => c.name == name }
  function ContactIs(contact: string): Customer -> bool { (c: Customer) => c.contact == contact }
  function OtherRoom(n: int): Reservation -> bool { (r: Reservation) => r.roomNumber != n }
  function IdIs(id: int): Reservation -> bool { (r: Reservation) => r.reservationId == id }
  function ArrivesOn(n: int, today: Day): Reservation -> bool { (r: Reservation) => r.roomNumber == n && r.checkInDate == today }

  // ---------------------------------------------------------------------
  // Invariants of a well-formed document
  // ---------------------------------------------------------------------

  predicate HasRoom(rooms: seq<Room>, n: int) {
    exists i :: 0 <= i < |rooms| && rooms[i].roomNumber == n
  }

  /** Some reservation is for room `n`. */
  predicate Reserved(rs: seq<Reservation>, n: int) {
    exists k :: 0 <= k < |rs| && rs[k].roomNumber == n
  }

  predicate HasCustomer(cs: seq<Customer>, name: string, contact: string) {
    exists i :: 0 <= i < |cs| && cs[i].name == name && cs[i].contact == contact
  }

  predicate UniqueRoomNumbers(rooms: seq<Room>) {
    forall i, j :: 0 <= i < j < |rooms| ==> rooms[i].roomNumber != rooms[j].roomNumber
  }

  /** Every reservation is for a room that exists. */
  predicate ReservationsHaveRooms(d: Data) {
    forall k :: 0 <= k < |d.reservations| ==> HasRoom(d.rooms, d.reservations[k].roomNumber)
  }

  /** A room is available exactly when no reservation is for it. */
  predicate AvailabilityAgrees(d: Data) {
    forall i :: 0 <= i < |d.rooms| ==> (d.rooms[i].available <==> !Reserved(d.reservations, d.rooms[i].roomNumber))
  }

  predicate Valid(d: Data) {
    UniqueRoomNumbers(d.rooms) && ReservationsHaveRooms(d) && AvailabilityAgrees(d)
  }

  // ---------------------------------------------------------------------
  // Room inventory
  // ---------------------------------------------------------------------

  /** ASCII lower-casing of one character. */
  function LowerChar(c: char): (r: char)
    ensures !('A' <= r <= 'Z')
    ensures 'A' <= c <= 'Z' ==> 'a' <= r <= 'z' && r as int - 'a' as int == c as int - 'A' as int
    ensures !('A' <= c <= 'Z') ==> r == c
  {
    if 'A' <= c <= 'Z' then (c as int - 'A' as int + 'a' as int) as char else c
  }

  /** ASCII lower-casing of a string, character by character. */
  function Lower(s: string): (r: string)
    ensures |r| == |s|
    ensures forall i :: 0 <= i < |s| ==> r[i] == LowerChar(s[i])
  {
    if s == [] then [] else [LowerChar(s[0])] + Lower(s[1..])
  }

  /** `create_room`: a duplicate number changes nothing, otherwise one available room is appended. */
  function AfterCreateRoom(d: Data, n: int, roomType: string, price: real): (r: Data)
    ensures HasRoom(r.rooms, n)
    ensures d.rooms <= r.rooms && |r.rooms| <= |d.rooms| + 1
    ensures r.(rooms := d.rooms) == d
  {
    if HasRoom(d.rooms, n) then d
    else
      var rooms := d.rooms + [Room(n, Lower(roomType), price, true)];
      assert rooms[|d.rooms|].roomNumber == n;
      d.(rooms := rooms)
  }

  /** `check_room_status`: the state of the first room with number `n`. */
  function RoomStatus(rooms: seq<Room>, n: int): (s: string)
    ensures s == NotFoundText <==> !HasRoom(rooms, n)
    ensures forall i :: 0 <= i < |rooms| && rooms[i].roomNumber == n && (forall j :: 0 <= j < i ==> rooms[j].roomNumber != n)
              ==> s == (if rooms[i].available then AvailableText else OccupiedText)
  {
    match FirstIndex(rooms, NumberIs(n))
    case None => NotFoundText
    case Some(i) => if rooms[i].available then AvailableText else OccupiedText
  }

  // ---------------------------------------------------------------------
  // Customers
  // ---------------------------------------------------------------------

  /** `get_customer_info`: insert the customer unless one with the same name and contact exists. */
  function AfterCustomerInfo(d: Data, name: string, contact: string, paymentMethod: string): (r: Data)
    ensures HasCustomer(r.customers, name, contact)
    ensures d.customers <= r.customers && |r.customers| <= |d.customers| + 1
    ensures r.(customers := d.customers) == d
  {
    if HasCustomer(d.customers, name, contact) then d
    else
      var cs := d.customers + [Customer(name, contact, paymentMethod)];
      assert cs[|d.customers|].name == name && cs[|d.customers|].contact == contact;
      d.(customers := cs)
  }

  /** `search_on_customers`: the customers with exactly this name, in stored order. */
  function SearchOnCustomers(d: Data, name: string): (r: seq<Customer>)
    ensures forall c :: c in r <==> c in d.customers && c.name == name
    ensures |r| <= |d.customers|
  {
    Filter(d.customers, NameIs(name))
  }

  // ---------------------------------------------------------------------
  // Booking workflow
  // ---------------------------------------------------------------------

  /**
   `book_room`: the first room with number `n` that is available becomes
   occupied and a reservation with id |reservations| + 1 is appended. The
   customer insert made on the way is lost, because the snapshot loaded
   before it is the one saved, so the customers are those of `d`.
   */
  function AfterBookRoom(d: Data, name: string, n: int, checkIn: Day, stayLength: int,
                         contact: string, paymentMethod: string): (r: Data)
    ensures |r.rooms| == |d.rooms|
    ensures d.reservations <= r.reservations && |r.reservations| <= |d.reservations| + 1
    ensures r.customers == d.customers
    ensures r.availableServices == d.availableServices && r.orderedServices == d.orderedServices
  {
    match FirstIndex(d.rooms, Bookable(n))
    case None => d
    case Some(i) =>
      d.(rooms := d.rooms[i := d.rooms[i].(available := false)],
         reservations := d.reservations + [Reservation(|d.reservations| + 1, name, n, checkIn, checkIn + stayLength)])
  }

  /** `check_out`: the first room with number `n` becomes available and all its reservations go. */
  function AfterCheckOut(d: Data, n: int): (r: Data)
    ensures |r.rooms| == |d.rooms| && |r.reservations| <= |d.reservations|
    ensures r.customers == d.customers
    ensures r.availableServices == d.availableServices && r.orderedServices == d.orderedServices
  {
    match FirstIndex(d.rooms, NumberIs(n))
    case None => d
    case Some(i) =>
      d.(rooms := d.rooms[i := d.rooms[i].(available := true)],
         reservations := Filter(d.reservations, OtherRoom(n)))
  }

  /** `check_in`: the guest of the first reservation for room `n` starting `today`, if any. */
  function ArrivingGuest(rs: seq<Reservation>, n: int, today: Day): (g: Option<string>)
    ensures g.None? <==> forall k :: 0 <= k < |rs| ==> !(rs[k].roomNumber == n && rs[k].checkInDate == today)
    ensures g.Some? ==> exists k :: 0 <= k < |rs| && rs[k].roomNumber == n && rs[k].checkInDate == today
                                  && (forall j :: 0 <= j < k ==> !(rs[j].roomNumber == n && rs[j].checkInDate == today))
                                  && rs[k].customerName == g.value
  {
    match FirstIndex(rs, ArrivesOn(n, today))
    case None => None
    case Some(k) => Some(rs[k].customerName)
  }

  // ---------------------------------------------------------------------
  // Billing
  // ---------------------------------------------------------------------

  datatype Bill = Bill(
    customerName: string,
    roomNumber: int,
    stayDuration: int,
    roomCharges: real,
    serviceCharges: real,
    subtotal: real,
    tax: real,
    discountAmount: real,
    total: real)

  function StayDuration(r: Reservation): int {
    r.checkOutDate - r.checkInDate
  }

  /** The nightly price of the first room with number `n`. */
  function RoomPrice(rooms: seq<Room>, n: int): real
    requires HasRoom(rooms, n)
  {
    var k := FirstIndex(rooms, NumberIs(n));
    rooms[k.value].price
  }

  /** A nightly price over a number of nights. */
  function Charge(price: real, nights: int): real {
    price * (nights as real)
  }

  function RoomCharges(rooms: seq<Room>, r: Reservation): real
    requires HasRoom(rooms, r.roomNumber)
  {
    Charge(RoomPrice(rooms, r.roomNumber), StayDuration(r))
  }

  predicate PricesNonNegative(catalog: seq<Service>) {
    forall j :: 0 <= j < |catalog| ==> catalog[j].price >= 0.0
  }

  /** The summed price of every catalog entry with id `sid` (the inner generator of the bill's sum). */
  function CatalogPrice(catalog: seq<Service>, sid: int): (p: real)
    ensures PricesNonNegative(catalog) ==> p >= 0.0
  {
    if catalog == [] then 0.0
    else (if catalog[0].id == sid then catalog[0].price else 0.0) + CatalogPrice(catalog[1..], sid)
  }

  /** The charges for the ordered services of reservation `id`, joined with the catalog. */
  function ServiceCharges(ordered: seq<OrderedService>, catalog: seq<Service>, id: int): (c: real)
    ensures PricesNonNegative(catalog) ==> c >= 0.0
    ensures (forall k :: 0 <= k < |ordered| ==> ordered[k].reservationId != id) ==> c == 0.0
  {
    if ordered == [] then 0.0
    else
      (if ordered[0].reservationId == id then CatalogPrice(catalog, ordered[0].serviceId) else 0.0)
      + ServiceCharges(ordered[1..], catalog, id)
  }

  /**
   `calculate_bill`: nothing for an unknown reservation id; otherwise the
   figures for the first reservation with that id.
   */
  function CalculateBill(d: Data, id: int, taxRate: real, discount: real): (b: Option<Bill>)
    requires ReservationsHaveRooms(d)
    ensures b.None? <==> forall k :: 0 <= k < |d.reservations| ==> d.reservations[k].reservationId != id
    ensures b.Some? ==> exists k :: 0 <= k < |d.reservations| && d.reservations[k].reservationId == id
                                  && (forall j :: 0 <= j < k ==> d.reservations[j].reservationId != id)
                                  && b.value.customerName == d.reservations[k].customerName
                                  && b.value.roomNumber == d.reservations[k].roomNumber
                                  && b.value.stayDuration == StayDuration(d.reservations[k])
                                  && b.value.roomCharges == RoomCharges(d.rooms, d.reservations[k])
    ensures b.Some? ==> b.value.serviceCharges == ServiceCharges(d.orderedServices, d.availableServices, id)
    ensures b.Some? ==> AddsUp(b.value, taxRate, discount)
  {
    match FirstIndex(d.reservations, IdIs(id))
    case None => None
    case Some(k) =>
      var r := d.reservations[k];
      assert IdIs(id)(r) && forall j :: 0 <= j < k ==> !IdIs(id)(d.reservations[j]);
      Some(Itemise(r, RoomCharges(d.rooms, r), ServiceCharges(d.orderedServices, d.availableServices, id),
                   taxRate, discount))
  }

  /**
   The bill for reservation `r` given its two charges: the subtotal, the tax
   and the discount on it, and the total they make.
   */
  function Itemise(r: Reservation, roomCharges: real, serviceCharges: real, taxRate: real, discount: real): (b: Bill)
    ensures b.customerName == r.customerName && b.roomNumber == r.roomNumber && b.stayDuration == StayDuration(r)
    ensures b.roomCharges == roomCharges && b.serviceCharges == serviceCharges
    ensures AddsUp(b, taxRate, discount)
  {
    var subtotal := roomCharges + serviceCharges;
    var tax := subtotal * taxRate;
    var discountAmount := subtotal * discount;
    TotalFactors(subtotal, taxRate, discount);
    Bill(r.customerName, r.roomNumber, StayDuration(r), roomCharges, serviceCharges,
         subtotal, tax, discountAmount, subtotal + tax - discountAmount)
  }

  /**
   The bill's figures agree: the subtotal is the two charges, tax and discount
   are the rates applied to the subtotal, and the total is the subtotal plus
   tax less discount, which is the subtotal scaled by `1 + taxRate - discount`.
   */
  predicate AddsUp(b: Bill, taxRate: real, discount: real) {
    && b.subtotal == b.roomCharges + b.serviceCharges
    && b.tax == b.subtotal * taxRate
    && b.discountAmount == b.subtotal * discount
    && b.total == b.subtotal + b.tax - b.discountAmount
    && b.total == b.subtotal * (1.0 + taxRate - discount)
  }

  /** Adding tax and taking off the discount scales the subtotal by one factor. */
  lemma TotalFactors(subtotal: real, taxRate: real, discount: real)
    ensures subtotal + subtotal * taxRate - subtotal * discount == subtotal * (1.0 + taxRate - discount)
  {
  }

  // ---------------------------------------------------------------------
  // Reporting
  // ---------------------------------------------------------------------

  /** The number of rooms that are not available. */
  function CountOccupied(rooms: seq<Room>): (c: nat)
    ensures c <= |rooms|
  {
    |Filter(rooms, IsOccupied)|
  }

  /** A single room counts once exactly when it is not available. */
  lemma CountOccupiedSingle(x: Room)
    ensures CountOccupied([x]) == if x.available then 0 else 1
  {
    assert [x][1..] == [];
  }

  /** The occupied count adds up over a split room list. */
  lemma CountOccupiedAppend(a: seq<Room>, b: seq<Room>)
    ensures CountOccupied(a + b) == CountOccupied(a) + CountOccupied(b)
  {
    FilterAppend(a, b, IsOccupied);
  }

  /** No room is counted occupied exactly when all are available; all are counted exactly when none is. */
  lemma CountOccupiedExtremes(rooms: seq<Room>)
    ensures CountOccupied(rooms) == 0 <==> forall i :: 0 <= i < |rooms| ==> rooms[i].available
    ensures CountOccupied(rooms) == |rooms| <==> forall i :: 0 <= i < |rooms| ==> !rooms[i].available
  {
    var f := Filter(rooms, IsOccupied);
    if f != [] {
      assert f[0] in f;
    }
    if exists i :: 0 <= i < |rooms| && !rooms[i].available {
      var i :| 0 <= i < |rooms| && !rooms[i].available;
      assert rooms[i] in f;
    }
    if |f| == |rooms| {
      FilterFull(rooms, IsOccupied);
    }
    if forall i :: 0 <= i < |rooms| ==> !rooms[i].available {
      FilterKeepsAll(rooms, IsOccupied);
    }
  }

  /** A share of `occupied` out of `total` rooms, as a percentage. */
  lemma PercentageBounds(occupied: nat, total: nat)
    requires 0 < total && occupied <= total
    ensures var r := (occupied as real / total as real) * 100.0;
      && 0.0 <= r <= 100.0 && (r == 0.0 <==> occupied == 0) && (r == 100.0 <==> occupied == total)
  {
    var q := occupied as real / total as real;
    assert q * total as real == occupied as real;
    assert q == 1.0 <==> occupied == total;
  }

  /** `get_room_occupancy_rate`: the percentage of rooms that are not available. */
  function OccupancyRate(d: Data): (r: real)
    ensures 0.0 <= r <= 100.0
    ensures |d.rooms| == 0 ==> r == 0.0
    ensures |d.rooms| > 0 ==> r == (CountOccupied(d.rooms) as real / |d.rooms| as real) * 100.0
    ensures r == 0.0 <==> forall i :: 0 <= i < |d.rooms| ==> d.rooms[i].available
    ensures r == 100.0 <==> |d.rooms| > 0 && forall i :: 0 <= i < |d.rooms| ==> !d.rooms[i].available
  {
    var total := |d.rooms|;
    var occupied := CountOccupied(d.rooms);
    CountOccupiedExtremes(d.rooms);
    if total == 0 then 0.0
    else
      PercentageBounds(occupied, total);
      (occupied as real / total as real) * 100.0
  }

  /** The report window: only when both bounds are given is it bounded. */
  predicate InWindow(day: Day, start: Option<Day>, end: Option<Day>) {
    if start.Some? && end.Some? then start.value <= day <= end.value else true
  }

  /** Every reservation that the window admits is for a room that exists. */
  predicate WindowRoomsExist(rooms: seq<Room>, rs: seq<Reservation>, start: Option<Day>, end: Option<Day>) {
    forall k :: 0 <= k < |rs| && InWindow(rs[k].checkInDate, start, end) ==> HasRoom(rooms, rs[k].roomNumber)
  }

  /**
   The report's running total after its loop has seen the first `n`
   reservations: room charges summed over those whose check-in lies in the
   window.
   */
  function RevenueUpTo(rooms: seq<Room>, rs: seq<Reservation>, n: nat, start: Option<Day>, end: Option<Day>): real
    requires n <= |rs| && WindowRoomsExist(rooms, rs, start, end)
    decreases n
  {
    if n == 0 then 0.0
    else
      RevenueUpTo(rooms, rs, n - 1, start, end)
      + (if InWindow(rs[n - 1].checkInDate, start, end) then RoomCharges(rooms, rs[n - 1]) else 0.0)
  }

  /** `get_revenue_report`: room charges summed over all reservations whose check-in lies in the window. */
  function Revenue(rooms: seq<Room>, rs: seq<Reservation>, start: Option<Day>, end: Option<Day>): real
    requires WindowRoomsExist(rooms, rs, start, end)
  {
    RevenueUpTo(rooms, rs, |rs|, start, end)
  }

  /** The number of customers whose contact is `contact`. */
  function CountContact(cs: seq<Customer>, contact: string): nat {
    |Filter(cs, ContactIs(contact))|
  }

  lemma CountContactSnoc(cs: seq<Customer>, contact: string)
    requires cs != []
    ensures CountContact(cs, contact)
         == CountContact(cs[..|cs| - 1], contact) + (if cs[|cs| - 1].contact == contact then 1 else 0)
  {
    assert cs == cs[..|cs| - 1] + [cs[|cs| - 1]];
    FilterAppend(cs[..|cs| - 1], [cs[|cs| - 1]], ContactIs(contact));
  }

  /** The per-contact counts as the source's loop builds them, one customer at a time. */
  function Tally(cs: seq<Customer>): map<string, nat>
    decreases |cs|
  {
    if cs == [] then map[]
    else
      var prev := Tally(cs[..|cs| - 1]);
      var c := cs[|cs| - 1].contact;
      prev[c := (if c in prev then prev[c] else 0) + 1]
  }

  /** The tally holds exactly the contacts that occur, each with its number of customers. */
  lemma {:induction false} TallyCounts(cs: seq<Customer>)
    ensures forall c :: c in Tally(cs) <==> CountContact(cs, c) > 0
    ensures forall c :: c in Tally(cs) ==> Tally(cs)[c] == CountContact(cs, c)
    decreases |cs|
  {
    if cs != [] {
      TallyCounts(cs[..|cs| - 1]);
      forall x ensures CountContact(cs, x) == CountContact(cs[..|cs| - 1], x) + (if cs[|cs| - 1].contact == x then 1 else 0) {
        CountContactSnoc(cs, x);
      }
    }
  }

  /** One more customer raises the tally of its own contact by one. */
  lemma TallySnoc(cs: seq<Customer>, x: Customer)
    ensures var prev := Tally(cs);
      Tally(cs + [x]) == prev[x.contact := (if x.contact in prev then prev[x.contact] else 0) + 1]
  {
    assert (cs + [x])[..|cs|] == cs;
  }

  datatype Stats = Stats(totalCustomers: nat, contactMethods: map<string, nat>)

  /** The sum of the values of a map. */
  ghost function MapSum(m: map<string, nat>): nat
    decreases |m|
  {
    if m == map[] then 0
    else
      var k :| k in m;
      assert |m - {k}| < |m| by { assert (m - {k}).Keys == m.Keys - {k}; }
      m[k] + MapSum(m - {k})
  }
}
