# Hotel ledger, modelled in Dafny

This project models the core of a small hotel-management demo. The ledger keeps
rooms, reservations, customers, a service catalog and the services ordered
against reservations. Its operations create rooms, look up a room's status,
register and search customers, book rooms and check them out, compute a bill,
and report occupancy, revenue and per-contact customer counts. The repository
has two variants, and both are modelled.

- `Imperitive.py` is the stateful variant. Every operation loads the whole stored
  document, changes it and saves it back.
  - `ledger_state.dfy` (module `LedgerState`) holds the records and the document
    `Data`. It gives one function per operation: `AfterCreateRoom`,
    `AfterCustomerInfo`, `AfterBookRoom` and `AfterCheckOut` map the old
    document to the new one. It also holds the queries `RoomStatus`,
    `SearchOnCustomers`, `ArrivingGuest`, `CalculateBill`, `OccupancyRate`,
    `Revenue` and `Tally`.
  - `imperative.dfy` (module `Imperative`) has the class `HotelStore`. Its five
    `seq` fields are the stored document. Each method follows the source's loops
    step by step: it reads a local snapshot, changes it and saves it. Each method
    is proved to match the function above.
  - `BookRoom` keeps the source's stale-snapshot behaviour. It loads the document,
    calls `GetCustomerInfo`, which saves a document with the new customer, and
    then saves its own earlier snapshot. So the customer insert is lost.
  - `ledger_properties.dfy` (module `LedgerProperties`) proves what the
    operations do. It also proves that they keep the document invariant
    `Valid`: room numbers are unique, every reservation is for an existing room,
    and a room is available exactly when no reservation is for it.
- `Declaritive.py` is the persistent-list variant. `declarative.dfy` (module
  `Declarative`) models it with pure functions over a room list, plus lemmas.

Modelling choices:
- Dates are integer day numbers. A check-out date is the check-in date plus the
  stay length, and a stay lasts check-out minus check-in days.
- Prices and the tax and discount rates are exact `real`s.
- The source's `next(...)` lookups become `FirstIndex`, and its list
  comprehensions become `Filter`. Both keep the stored order.
- Reservation ids are `|reservations| + 1` at booking time, exactly as the code
  assigns them, so an id can be issued twice: `ReservationIdsRepeat` shows that
  after a check-out two live reservations share an id. The ids are evidently
  meant to identify one reservation each, which would need a counter that never
  repeats; this model follows the code.
- `check_in` gets "today" as a parameter. It returns the guest's name instead of
  printing it.
- In `get_revenue_report` a missing bound is `None`. The window is bounded only
  when both bounds are given. The report is meant to be unbounded when both
  bounds are omitted; the code also leaves it unbounded when only one bound is
  given, taking no notice of the bound that was given, and the model follows the
  code (`RevenueOneBoundIsUnbounded`).

## Model

| member | source | states |
|---|---|---|
| `LedgerState.FirstIndex` | Imperitive.py:144 | the index of the first element satisfying the predicate, or none exactly when no element does |
| `LedgerState.Filter` | Imperitive.py:130 | the result holds exactly the elements that pass, and is no longer than the input |
| `LedgerState.FilterAppend` | Imperitive.py:119 | filtering distributes over concatenation, so kept elements stay in their stored order |
| `LedgerState.FilterKeepsAll` | Imperitive.py:119 | a list whose every element passes comes back unchanged |
| `LedgerState.FilterFull` | Imperitive.py:182 | a filter as long as its input means every element passed, as when every room counts as occupied |
| `LedgerState.LowerChar` | Imperitive.py:39 | an upper-case ASCII letter becomes the lower-case letter at the same alphabet position; any other character is kept; the result is never upper-case ASCII |
| `LedgerState.Lower` | Imperitive.py:39 | the room type is lower-cased character by character, with the length unchanged |
| `LedgerState.AfterCreateRoom` | Imperitive.py:29-44 | afterwards a room with the number exists; the old rooms are a prefix of the new ones, at most one longer; nothing else changes (exact effect: `CreateRoomDuplicate`, `CreateRoomAppends`) |
| `LedgerState.AfterBookRoom` | Imperitive.py:75-97 | the room count is kept; the old reservations are a prefix, at most one shorter; customers and services are those loaded (exact effect: `BookRoomRefused`, `BookRoomSucceeds`, `BookRoomLosesNewCustomer`) |
| `LedgerState.AfterCheckOut` | Imperitive.py:111-123 | the room count is kept and reservations never grow; customers and services are unchanged (exact effect: `CheckOutMissingRoom`, `CheckOutFreesRoom`) |
| `LedgerState.RoomStatus` | Imperitive.py:47-54 | "Room not found." exactly when no room has the number; otherwise "Available" or "Occupied" from the first room with that number |
| `LedgerState.AfterCustomerInfo` | Imperitive.py:57-72 | afterwards a customer with this name and contact exists; customers only grow, by at most one; nothing else changes |
| `LedgerState.SearchOnCustomers` | Imperitive.py:126-135 | exactly the stored customers with this exact name |
| `LedgerState.ArrivingGuest` | Imperitive.py:100-108 | none exactly when no reservation for the room starts today; otherwise the name on the first such reservation in stored order |
| `LedgerState.CatalogPrice` | Imperitive.py:159 | non-negative when every catalog price is |
| `LedgerState.ServiceCharges` | Imperitive.py:156-160 | non-negative for a non-negative catalog; zero when nothing is ordered for the reservation; its value is fixed by `ServiceChargesSingle` and `ServiceChargesAppend` |
| `LedgerState.CalculateBill` | Imperitive.py:138-165 | no bill exactly when no reservation has the id; otherwise the bill is for the first reservation with that id: its name and room, stay = check-out − check-in, room charges = that room's price × stay (`RoomCharges`), service charges = `ServiceCharges` for the id, subtotal = room + service charges, tax = subtotal × tax rate, discount = subtotal × discount rate, total = subtotal + tax − discount = subtotal · (1 + tax rate − discount) (`AddsUp`) |
| `LedgerState.Itemise` | Imperitive.py:162-165 | a bill built from two charges carries them unchanged, with the reservation's name, room and stay, and its figures satisfy `AddsUp` |
| `LedgerState.CountOccupiedExtremes` | Imperitive.py:182 | no room is counted occupied exactly when all are available; all are counted exactly when none is available |
| `LedgerState.PercentageBounds` | Imperitive.py:186 | occupied/total·100 lies in [0, 100], is 0 exactly when nothing is occupied and 100 exactly when everything is |
| `LedgerState.OccupancyRate` | Imperitive.py:179-186 | 0 with no rooms; otherwise `CountOccupied` / number of rooms · 100; lies in [0, 100]; 0 exactly when no room is occupied; 100 exactly when every room is occupied |
| `LedgerState.CountOccupied` | Imperitive.py:182 | the number of rooms that are not available, at most the number of rooms; fixed by `CountOccupiedSingle` and `CountOccupiedAppend` |
| `LedgerState.CountOccupiedSingle` | Imperitive.py:182 | one room counts 1 when it is not available and 0 when it is |
| `LedgerState.CountOccupiedAppend` | Imperitive.py:182 | the occupied count of a split room list is the sum of the parts' counts |
| `LedgerState.Tally` | Imperitive.py:219-221 | the contact-count map built one customer at a time; characterised by `TallyCounts`, `TallySnoc` and `TallySumsToTotal` |
| `LedgerState.RevenueUpTo` | Imperitive.py:201-209 | the revenue total after the first n reservations; characterised by `RevenueUpToPrefix`, `RevenueAppendUpTo`, `RevenueUpToCoversAll`, `RevenueUpToOutsideWindow`, `RevenueUpToNonNegative` |
| `LedgerState.Revenue` | Imperitive.py:189-211 | the sum of room price × stay over the reservations checking in inside the window; characterised by `RevenueAppend`, `RevenueCoversAll`, `RevenueOneBoundIsUnbounded`, `RevenueOutsideWindow`, `RevenueNonNegative` |
| `LedgerState.CountContactSnoc` | Imperitive.py:220-221 | one more customer raises the count of its own contact by one |
| `LedgerState.TallyCounts` | Imperitive.py:219-221 | the tally's keys are exactly the contacts that occur, and each maps to the number of customers with that contact |
| `LedgerState.TallySnoc` | Imperitive.py:220-221 | one more customer raises the tally of its own contact by one and changes no other entry |
| `LedgerProperties.FirstRoomIsOnlyRoom` | Imperitive.py:80-82 | with unique numbers, a room is the one found for its number, and it is the one booked exactly when it is available |
| `LedgerProperties.StatusOfRoom` | Imperitive.py:51-53 | with unique numbers, a room's status is its own availability |
| `LedgerProperties.StatusMatchesReservations` | Imperitive.py:47-54 | in a valid document a room reads "Occupied" exactly when some reservation is for it |
| `LedgerProperties.SameNumbersSameLookup` | Imperitive.py:51-52 | room lists with the same numbers, position by position, find the same room for every number |
| `LedgerProperties.SetAvailability` | Imperitive.py:83 | changing one room's availability changes the status of that number only, and keeps the numbers unique |
| `LedgerProperties.ReservedAppend` | Imperitive.py:93 | appending a reservation reserves its room and no other |
| `LedgerProperties.ReservedAfterRemoval` | Imperitive.py:119 | dropping room n's reservations unreserves n and leaves every other room as it was |
| `LedgerProperties.CreateRoomDuplicate` | Imperitive.py:33-35 | an existing number leaves the document unchanged |
| `LedgerProperties.CreateRoomAppends` | Imperitive.py:37-43 | a new number appends exactly one lower-cased, available room; nothing else changes; it reads "Available"; numbers stay unique |
| `LedgerProperties.CreateRoomKeepsOtherStatus` | Imperitive.py:29-44 | creating a room leaves the status of every other number unchanged |
| `LedgerProperties.CreateRoomPreservesValid` | Imperitive.py:29-44 | room creation keeps the document invariant |
| `LedgerProperties.CustomerInfoIdempotent` | Imperitive.py:61-63 | registering the same customer twice equals registering once |
| `LedgerProperties.CustomerInfoEffect` | Imperitive.py:61-71 | a known (name, contact) adds nothing; otherwise exactly that customer is appended |
| `LedgerProperties.CustomerInfoPreservesValid` | Imperitive.py:57-72 | registering a customer keeps the document invariant |
| `LedgerProperties.SearchSplits` | Imperitive.py:130 | searching a split customer list is searching each part in turn, so matches keep stored order |
| `LedgerProperties.BookRoomRefused` | Imperitive.py:80-97 | a missing room, or (with unique numbers) an occupied one, leaves rooms, reservations and customers unchanged |
| `LedgerProperties.BookRoomSucceeds` | Imperitive.py:76-94 | an available room becomes occupied: position by position, the rooms with that number get `available = false` and every other room is unchanged; no other status changes; exactly one reservation is appended, with id \|reservations\|+1 and check-out = check-in + stay length; customers end as before the call |
| `LedgerProperties.BookRoomLosesNewCustomer` | Imperitive.py:76-94 | the customer that the booking's own registration step (`get_customer_info`) adds is absent after the booking, because the stale snapshot is saved last |
| `LedgerProperties.BookRoomPreservesValid` | Imperitive.py:75-97 | booking keeps the document invariant |
| `LedgerProperties.BookRoomKeepsSequentialIds` | Imperitive.py:87 | without check-outs, ids stay 1, 2, 3, ... and so are distinct |
| `LedgerProperties.TwoRoomsCreated` | Imperitive.py:273-274 | creating 101 and 102 in a document without rooms gives unique numbers, both "Available", and nothing else changed |
| `LedgerProperties.BookingAfterCreation` | Imperitive.py:285 | from those two rooms and no reservations, Alice's booking of 101 (line 285) gives reservation 1 checking out on day + 3; 101 reads "Occupied", 102 "Available", numbers stay unique; as an added check, booking 101 again is refused and changes nothing |
| `LedgerProperties.BookingScenario` | Imperitive.py:273-286 | the script's steps for rooms 101 and 102, from a document without rooms or reservations (rooms 103-105, which no later step here touches, are not created): 101 and 102 created, Alice books 101, Bob books 102; reservations 1 (Alice, 101, out on day + 3) and 2 (Bob, 102, out on day + 3) result and both rooms read "Occupied"; as an added check, re-booking 101 after Alice's booking changes nothing |
| `LedgerProperties.SecondBooking` | Imperitive.py:286 | Bob's booking of 102 after Alice's appends reservation 2, checking out on day + 3; 102 turns "Occupied" and 101 stays "Occupied" |
| `LedgerProperties.CheckOutMissingRoom` | Imperitive.py:123 | a missing room leaves the document unchanged |
| `LedgerProperties.CheckOutFreesRoom` | Imperitive.py:116-122 | position by position, the room with that number gets `available = true` and every other room is unchanged, so it reads "Available" and other statuses are kept; the reservations are exactly `Filter` of the old ones by another room number, so the others stay in their stored order and none for the room remains; customers and services are unchanged |
| `LedgerProperties.CheckOutPreservesValid` | Imperitive.py:111-123 | check-out keeps the document invariant |
| `LedgerProperties.ReservationIdsRepeat` | Imperitive.py:87 | book 101, book 102, check out 101, book 101: the two live reservations both carry id 2 |
| `LedgerProperties.CatalogPriceOfEntry` | Imperitive.py:159 | with distinct catalog ids, a catalog entry's id costs exactly its price |
| `LedgerProperties.CatalogPriceOfMissingId` | Imperitive.py:159 | an id absent from the catalog costs nothing |
| `LedgerProperties.ServiceChargesAppend` | Imperitive.py:156-160 | service charges add up over a split list of ordered services |
| `LedgerProperties.ServiceChargesSingle` | Imperitive.py:156-160 | one ordered service costs its catalog price when it is for the reservation, and nothing otherwise |
| `LedgerProperties.ServiceChargesSnoc` | Imperitive.py:156-160 | ordering one more service raises the charges of its own reservation by its catalog price and of no other |
| `LedgerProperties.BillOfNewBooking` | Imperitive.py:149-151 | a freshly booked reservation with an unused id is billed for that customer and room over exactly the stay length |
| `LedgerProperties.FirstIndexOfAppended` | Imperitive.py:144 | the appended reservation is the one found for an id that no earlier reservation carries |
| `LedgerProperties.BillWorkedExample` | Imperitive.py:162-165 | 3 nights at 100 with the default rates: 300, tax 45, discount 60, total 285 |
| `LedgerProperties.BillWithMealExample` | Imperitive.py:156-165 | the same stay with a Meal ordered: services 50, subtotal 350, tax 52.5, discount 70, total 332.5 |
| `LedgerProperties.RevenueUpToPrefix` | Imperitive.py:201-209 | the running total over the first n reservations depends on those n only |
| `LedgerProperties.RevenueAppendUpTo` | Imperitive.py:201-209 | past a first list, the running total over a concatenation is that list's revenue plus the running total of the rest |
| `LedgerProperties.RevenueAppend` | Imperitive.py:201-209 | revenue adds up over a split list of reservations |
| `LedgerProperties.RevenueUpToCoversAll` | Imperitive.py:194-205 | when every check-in lies in the window, every running total equals the unbounded one |
| `LedgerProperties.RevenueCoversAll` | Imperitive.py:194-205 | a window holding every check-in gives the unbounded total |
| `LedgerProperties.RevenueOneBoundIsUnbounded` | Imperitive.py:194-199 | with either bound missing, the report covers every reservation |
| `LedgerProperties.RevenueUpToOutsideWindow` | Imperitive.py:205 | a window admitting no check-in keeps every running total at 0 |
| `LedgerProperties.RevenueOutsideWindow` | Imperitive.py:205 | a window that admits no check-in, such as start after end, gives 0 |
| `LedgerProperties.RoomChargesNonNegative` | Imperitive.py:206-208 | a non-negative price over a non-negative stay gives non-negative room charges |
| `LedgerProperties.RevenueUpToNonNegative` | Imperitive.py:201-209 | non-negative prices and stays keep every running total non-negative |
| `LedgerProperties.RevenueNonNegative` | Imperitive.py:206-209 | non-negative prices and stays give non-negative revenue |
| `LedgerProperties.MapSumRemove` | Imperitive.py:225 | a map's value sum does not depend on which key is taken out first |
| `LedgerProperties.MapSumUpdate` | Imperitive.py:221 | updating one key changes the sum by the difference of that key's values |
| `LedgerProperties.TallySumsToTotal` | Imperitive.py:217-225 | the per-contact counts sum to total_customers |
| `Imperative.HotelStore.constructor` | Imperitive.py:10-21 | a store without a document reads as empty collections plus the Meal 50 / Laundry 20 / Spa 100 catalog, which is valid |
| `Imperative.HotelStore.Save` | Imperitive.py:24-26 | the stored document becomes the saved snapshot |
| `Imperative.HotelStore.CreateRoom` | Imperitive.py:29-44 | the new document is `AfterCreateRoom` of the old one; the invariant is kept |
| `Imperative.HotelStore.CheckRoomStatus` | Imperitive.py:47-54 | the scan returns `RoomStatus` of the stored rooms, "Room not found." exactly when no room matches |
| `Imperative.HotelStore.GetCustomerInfo` | Imperitive.py:57-72 | the new document is `AfterCustomerInfo` of the old one; the invariant is kept |
| `Imperative.HotelStore.BookRoom` | Imperitive.py:75-97 | the loop, the nested customer save and the final stale save together give `AfterBookRoom` of the old document; the invariant is kept |
| `Imperative.HotelStore.CheckIn` | Imperitive.py:100-108 | the scan returns `ArrivingGuest` of the stored reservations |
| `Imperative.HotelStore.CheckOut` | Imperitive.py:111-123 | the new document is `AfterCheckOut` of the old one; the invariant is kept |
| `Imperative.HotelStore.GetRevenueReport` | Imperitive.py:189-211 | after each reservation the accumulated total is the running total `RevenueUpTo` of the reservations seen so far, so the result equals `Revenue` over the stored reservations and window |
| `Imperative.HotelStore.GetCustomerStatistics` | Imperitive.py:214-226 | total_customers is the number of customers, and each contact maps to its number of customers |
| `Declarative.CreateRoom` | Declaritive.py:6-14 | the input list with exactly one room, carrying the given fields, appended at the end |
| `Declarative.IsAvailable` | Declaritive.py:16-17 | true exactly when the first room with the number is available; false when none matches |
| `Declarative.UpdateRoom` | Declaritive.py:20-27 | number, type and price are kept; the room is available afterwards exactly when it was available and has another number |
| `Declarative.BookRoom` | Declaritive.py:19-33 | same length and order; every field except `available` is kept; a room is available afterwards exactly when it was available and has another number |
| `Declarative.BookMissingRoom` | Declaritive.py:29-33 | a number matching no room returns the input list |
| `Declarative.BookRoomIdempotent` | Declaritive.py:20-30 | booking twice equals booking once |
| `Declarative.BookBookedRoom` | Declaritive.py:22-27 | booking rooms that are already booked returns an equal list |
| `Declarative.BookedIsUnavailable` | Declaritive.py:17-30 | after booking, `IsAvailable` is false for that number |
| `Declarative.BookKeepsOtherRooms` | Declaritive.py:20-30 | booking one number leaves every other number's availability unchanged |
| `Declarative.CreateRoomThenIsAvailable` | Declaritive.py:7-17 | a new room decides its number's availability only when no earlier room had that number |
| `Declarative.ScriptScenario` | Declaritive.py:36-43 | 101 free and 102 booked; booking 101 makes it unavailable; booking it again changes nothing |

## Left out

- Storage: `load_data` and `save_data` read and write `db.json`. Here the stored
  document is the fields of `HotelStore`; the constructor gives the document used
  when no file exists.
- The console: every `print` and the bill's two-decimal formatting are output
  only. Bill figures are returned as a `Bill` value instead of printed.
- Date strings: `strptime`/`strftime` parsing is replaced by day numbers. A
  malformed date string has no counterpart.
- `generate_report` and `generate_financial_summary` are left out. They depend on
  `datetime.now()`, and the monthly window needs calendar arithmetic (first of the
  month). The revenue and statistics functions they call are modelled.
- Floating point: prices and rates are exact reals, so the model does not show
  rounding.
- A missing room: when a reservation refers to a room that does not exist,
  `next(...)` raises `StopIteration` in `calculate_bill` and `get_revenue_report`.
  This is a precondition instead (`ReservationsHaveRooms`, `WindowRoomsExist`).
  The invariant `Valid` guarantees it for every document that the operations
  produce.
- LedgerState.LowerChar: lower-cases ASCII letters only and keeps every other
  character, while Python's `str.lower` also maps non-ASCII letters (such as 'Ä'
  to 'ä').
- LedgerState.Lower: lower-cases ASCII letters only, through `LowerChar`, for
  the same reason.
- The revenue window's bounds are `Option`s. The source treats an empty string
  like a missing bound, but no empty-string case is modelled.
- Ordered services: no operation in this core creates one. They are data that the
  bill reads.
- The script entry points (the `__main__` block of Imperitive.py and the
  module-level rebinding script of Declaritive.py) are not modelled as
  programs. `BookingScenario` and `ScriptScenario` state their main steps as
  lemmas.
