/**
 The persistent-list variant: a room list is never changed, each operation
 returns a new list (or a flag).
 */
module Declarative {

  datatype Room = Room(number: int, roomType: string, price: real, available: bool)

  predicate HasRoom(rooms: seq<Room>, n: int) {
    exists i :: 0 <= i < |rooms| && rooms[i].number == n
  }

  /** `create_room`: the input list with one new room at the end; no duplicate check. */
  function CreateRoom(rooms: seq<Room>, number: int, roomType: string, price: real, available: bool): (r: seq<Room>)
    ensures |r| == |rooms| + 1
    ensures r[..|rooms|] == rooms
    ensures r[|rooms|] == Room(number, roomType, price, available)
  {
    rooms + [Room(number, roomType, price, available)]
  }

  /** `is_available`: the flag of the first room with number `n`, false when there is none. */
  function IsAvailable(rooms: seq<Room>, n: int): (b: bool)
    ensures b <==> exists i :: 0 <= i < |rooms| && rooms[i].number == n && rooms[i].available
                              && forall j :: 0 <= j < i ==> rooms[j].number != n
  {
    if rooms == [] then false
    else if rooms[0].number == n then rooms[0].available
    else
      var rest := IsAvailable(rooms[1..], n);
      assert rest ==> exists i :: 0 <= i < |rooms| && rooms[i].number == n && rooms[i].available
                                 && forall j :: 0 <= j < i ==> rooms[j].number != n by {
        if rest {
          var i :| 0 <= i < |rooms[1..]| && rooms[1..][i].number == n && rooms[1..][i].available
                   && forall j :: 0 <= j < i ==> rooms[1..][j].number != n;
          assert rooms[i + 1] == rooms[1..][i];
          assert forall j :: 1 <= j < i + 1 ==> rooms[j] == rooms[1..][j - 1];
        }
      }
      assert (exists i :: 0 <= i < |rooms| && rooms[i].number == n && rooms[i].available
                          && forall j :: 0 <= j < i ==> rooms[j].number != n) ==> rest by {
        if exists i :: 0 <= i < |rooms| && rooms[i].number == n && rooms[i].available
                       && forall j :: 0 <= j < i ==> rooms[j].number != n {
          var i :| 0 <= i < |rooms| && rooms[i].number == n && rooms[i].available
                   && forall j :: 0 <= j < i ==> rooms[j].number != n;
          assert i > 0;
          assert rooms[1..][i - 1] == rooms[i];
          assert forall j :: 0 <= j < i - 1 ==> rooms[1..][j] == rooms[j + 1];
        }
      }
      rest
  }

  /** `update_room`: a matching available room comes back booked; every other room as it was. */
  function UpdateRoom(room: Room, n: int): (r: Room)
    ensures r.number == room.number && r.roomType == room.roomType && r.price == room.price
    ensures r.available == (room.available && room.number != n)
  {
    if room.number == n && room.available then room.(available := false) else room
  }

  /**
   `book_room`: when some room has number `n`, every matching available room
   is booked, and the list keeps its length, order and every other field;
   otherwise the input list comes back.
   */
  function BookRoom(rooms: seq<Room>, n: int): (r: seq<Room>)
    ensures |r| == |rooms|
    ensures forall i :: 0 <= i < |rooms| ==>
      && r[i].number == rooms[i].number && r[i].roomType == rooms[i].roomType && r[i].price == rooms[i].price
      && r[i].available == (rooms[i].available && rooms[i].number != n)
  {
    if HasRoom(rooms, n) then seq(|rooms|, i requires 0 <= i < |rooms| => UpdateRoom(rooms[i], n))
    else rooms
  }

  /** Booking a number that no room has returns the input list. */
  lemma BookMissingRoom(rooms: seq<Room>, n: int)
    requires !HasRoom(rooms, n)
    ensures BookRoom(rooms, n) == rooms
  {
  }

  /** Booking twice is booking once. */
  lemma BookRoomIdempotent(rooms: seq<Room>, n: int)
    ensures BookRoom(BookRoom(rooms, n), n) == BookRoom(rooms, n)
  {
    var once := BookRoom(rooms, n);
    assert forall i :: 0 <= i < |once| ==> once[i] == rooms[i].(available := rooms[i].available && rooms[i].number != n);
  }

  /** Booking rooms that are all already booked returns an equal list. */
  lemma BookBookedRoom(rooms: seq<Room>, n: int)
    requires forall i :: 0 <= i < |rooms| && rooms[i].number == n ==> !rooms[i].available
    ensures BookRoom(rooms, n) == rooms
  {
    var r := BookRoom(rooms, n);
    assert forall i :: 0 <= i < |rooms| ==> r[i] == rooms[i];
  }

  /** After booking, the room reads as not available. */
  lemma BookedIsUnavailable(rooms: seq<Room>, n: int)
    ensures !IsAvailable(BookRoom(rooms, n), n)
  {
  }

  /** Booking room `n` does not change whether any other room is available. */
  lemma {:induction false} BookKeepsOtherRooms(rooms: seq<Room>, n: int, m: int)
    requires m != n
    ensures IsAvailable(BookRoom(rooms, n), m) == IsAvailable(rooms, m)
  {
    var r := BookRoom(rooms, n);
    if IsAvailable(rooms, m) {
      var i :| 0 <= i < |rooms| && rooms[i].number == m && rooms[i].available
               && forall j :: 0 <= j < i ==> rooms[j].number != m;
      assert r[i].number == m && r[i].available;
    }
    if IsAvailable(r, m) {
      var i :| 0 <= i < |r| && r[i].number == m && r[i].available
               && forall j :: 0 <= j < i ==> r[j].number != m;
      assert rooms[i].number == m && rooms[i].available;
    }
  }

  /**
   Adding a room changes the availability of its own number only when no
   room had that number before (the first match wins).
   */
  lemma CreateRoomThenIsAvailable(rooms: seq<Room>, number: int, roomType: string, price: real, available: bool, m: int)
    ensures IsAvailable(CreateRoom(rooms, number, roomType, price, available), m)
         == if HasRoom(rooms, m) then IsAvailable(rooms, m) else (m == number && available)
  {
    var r := CreateRoom(rooms, number, roomType, price, available);
    assert forall j :: 0 <= j < |rooms| ==> r[j] == rooms[j];
    if HasRoom(rooms, m) {
      var k :| 0 <= k < |rooms| && rooms[k].number == m;
      if IsAvailable(r, m) {
        var i :| 0 <= i < |r| && r[i].number == m && r[i].available
                 && forall j :: 0 <= j < i ==> r[j].number != m;
        assert i <= k;
      }
    } else if m == number && available {
      assert r[|rooms|].number == m;
    }
  }

  /** The module's own script: room 101 free, 102 booked; booking 101 books it, booking again changes nothing. */
  lemma ScriptScenario()
    ensures var rooms := CreateRoom(CreateRoom([], 101, "SINGLE", 100.0, true), 102, "DOUBLE", 150.0, false);
      && IsAvailable(rooms, 101) && !IsAvailable(rooms, 102)
      && !IsAvailable(BookRoom(rooms, 101), 101)
      && BookRoom(BookRoom(rooms, 101), 101) == BookRoom(rooms, 101)
  {
    var first := CreateRoom([], 101, "SINGLE", 100.0, true);
    var rooms := CreateRoom(first, 102, "DOUBLE", 150.0, false);
    assert IsAvailable(first, 101) by { assert first[0] == Room(101, "SINGLE", 100.0, true); }
    CreateRoomThenIsAvailable(first, 102, "DOUBLE", 150.0, false, 101);
    assert HasRoom(first, 101) by { assert first[0].number == 101; }
    assert !HasRoom(first, 102) by { assert first == [Room(101, "SINGLE", 100.0, true)]; }
    CreateRoomThenIsAvailable(first, 102, "DOUBLE", 150.0, false, 102);
    BookedIsUnavailable(rooms, 101);
    BookRoomIdempotent(rooms, 101);
  }
}
