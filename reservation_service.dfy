/** ReservationServiceImpl.java: the room registry (a map from room number to
    room), the reservation store (a hash set of reservations) and the
    availability rules over them. */
module ReservationServices {
  import opened Java
  import opened Rooms
  import opened Customers
  import opened Reservations

  // ---------------------------------------------------------------------
  // Availability rules

  /** `checkDates(reservation, checkIn, checkOut)`: the requested check-in
      must lie before the reservation or on/after its check-out, and the
      requested check-out on/before its check-in or after its check-out. A
      request that passes never shares a night with the reservation unless
      it strictly encloses it; a stay ending when the reservation starts, or
      starting when it ends, passes. */
  function CheckDates(r: Reservation, checkIn: Date, checkOut: Date): (ok: bool)
    ensures ok ==> !Overlaps(r, checkIn, checkOut) || StrictlyEncloses(r, checkIn, checkOut)
    ensures checkIn < checkOut <= r.checkIn ==> ok
    ensures r.checkOut <= checkIn < checkOut ==> ok
  {
    var checkInOk := checkIn < r.checkIn || checkIn >= r.checkOut;
    var checkOutOk := checkOut <= r.checkIn || checkOut > r.checkOut;
    checkInOk && checkOutOk
  }

  /** The stays [checkIn, checkOut) and [r.checkIn, r.checkOut) share a
      night: the reference notion of a clash. */
  predicate Overlaps(r: Reservation, checkIn: Date, checkOut: Date) {
    checkIn < r.checkOut && r.checkIn < checkOut
  }

  /** The requested stay starts before and ends after the reservation. */
  predicate StrictlyEncloses(r: Reservation, checkIn: Date, checkOut: Date) {
    checkIn < r.checkIn && r.checkOut < checkOut
  }

  /** checkDates is not disjointness: for proper requests it passes exactly
      the requests that do not overlap the reservation and, as well, those
      that strictly enclose it. The reservation may be a zero-night one. */
  lemma CheckDatesCharacterised(r: Reservation, checkIn: Date, checkOut: Date)
    requires r.checkIn <= r.checkOut && checkIn < checkOut
    ensures CheckDates(r, checkIn, checkOut) <==> !Overlaps(r, checkIn, checkOut) || StrictlyEncloses(r, checkIn, checkOut)
  {
  }

  /** A request with equal dates, which the booking menu accepts, passes
      only before the reservation's check-in or after its check-out: it is
      refused on the check-in day and on the check-out day although it
      shares no night with the reservation there. */
  lemma CheckDatesZeroLengthStay(r: Reservation, d: Date)
    requires r.checkIn < r.checkOut
    ensures CheckDates(r, d, d) <==> d < r.checkIn || d > r.checkOut
    ensures !Overlaps(r, r.checkIn, r.checkIn) && !CheckDates(r, r.checkIn, r.checkIn)
    ensures !Overlaps(r, r.checkOut, r.checkOut) && !CheckDates(r, r.checkOut, r.checkOut)
  {
  }

  /** A zero-night booking, with equal check-in and check-out dates, which
      the menu stores, passes every request: a room whose bookings are all
      of that kind is offered for any dates. */
  lemma ZeroNightBookingsBlockNothing(rooms: map<RoomNumber, Room>, reservations: set<Reservation>, number: RoomNumber, checkIn: Date, checkOut: Date)
    requires number in rooms
    requires forall r :: r in reservations && r.room.number == number ==> r.checkIn == r.checkOut
    ensures forall r :: r in reservations && r.room.number == number ==> CheckDates(r, checkIn, checkOut)
    ensures number in AvailableRooms(rooms, reservations, checkIn, checkOut)
  {
  }

  /** The individual cases: back-to-back stays on either side pass, a stay
      starting inside the reservation or running into it fails, and a stay
      enclosing it passes. */
  lemma CheckDatesCases(r: Reservation, checkIn: Date, checkOut: Date)
    requires r.checkIn < r.checkOut && checkIn < checkOut
    ensures checkIn == r.checkOut ==> CheckDates(r, checkIn, checkOut)
    ensures checkOut == r.checkIn ==> CheckDates(r, checkIn, checkOut)
    ensures r.checkIn <= checkIn < r.checkOut ==> !CheckDates(r, checkIn, checkOut)
    ensures checkIn < r.checkIn < checkOut <= r.checkOut ==> !CheckDates(r, checkIn, checkOut)
    ensures StrictlyEncloses(r, checkIn, checkOut) ==> CheckDates(r, checkIn, checkOut)
  {
  }

  /** Some stored reservation of the room with this number fails checkDates. */
  predicate Conflicts(reservations: set<Reservation>, number: RoomNumber, checkIn: Date, checkOut: Date) {
    exists r :: r in reservations && r.room.number == number && !CheckDates(r, checkIn, checkOut)
  }

  /** What findRooms keeps of the room map: the entries whose number no
      stored reservation conflicts with. */
  function AvailableRooms(rooms: map<RoomNumber, Room>, reservations: set<Reservation>, checkIn: Date, checkOut: Date): map<RoomNumber, Room> {
    map k | k in rooms && !Conflicts(reservations, k, checkIn, checkOut) :: rooms[k]
  }

  /** Taking one more reservation into account removes its room number
      exactly when it fails checkDates: the step of findRooms' loop. */
  lemma AvailableRoomsStep(rooms: map<RoomNumber, Room>, done: set<Reservation>, r: Reservation, checkIn: Date, checkOut: Date)
    ensures AvailableRooms(rooms, done + {r}, checkIn, checkOut) ==
      if CheckDates(r, checkIn, checkOut) then AvailableRooms(rooms, done, checkIn, checkOut)
      else AvailableRooms(rooms, done, checkIn, checkOut) - {r.room.number}
  {
    var after := AvailableRooms(rooms, done + {r}, checkIn, checkOut);
    var before := AvailableRooms(rooms, done, checkIn, checkOut);
    forall k
      ensures Conflicts(done + {r}, k, checkIn, checkOut) <==>
        Conflicts(done, k, checkIn, checkOut) || (k == r.room.number && !CheckDates(r, checkIn, checkOut))
    {
      if Conflicts(done + {r}, k, checkIn, checkOut) {
        var x :| x in done + {r} && x.room.number == k && !CheckDates(x, checkIn, checkOut);
        if x != r { assert x in done; }
      }
    }
    if CheckDates(r, checkIn, checkOut) {
      assert after.Keys == before.Keys;
    } else {
      assert after.Keys == before.Keys - {r.room.number};
    }
  }

  /** Every room in the result is a stored room under the same number. */
  lemma AvailableRoomsAreStored(rooms: map<RoomNumber, Room>, reservations: set<Reservation>, checkIn: Date, checkOut: Date)
    ensures AvailableRooms(rooms, reservations, checkIn, checkOut).Keys <= rooms.Keys
    ensures AvailableRooms(rooms, reservations, checkIn, checkOut).Values <= rooms.Values
  {
  }

  /** When rooms are stored under their own numbers, a stored room is
      available exactly when no stored reservation of its number fails
      checkDates. */
  lemma AvailableRoomIff(rooms: map<RoomNumber, Room>, reservations: set<Reservation>, checkIn: Date, checkOut: Date, room: Room)
    requires KeyedByNumber(rooms)
    requires room in rooms.Values
    ensures room in AvailableRooms(rooms, reservations, checkIn, checkOut).Values <==>
      !Conflicts(reservations, room.number, checkIn, checkOut)
  {
    var available := AvailableRooms(rooms, reservations, checkIn, checkOut);
    var k :| k in rooms && rooms[k] == room;
    if !Conflicts(reservations, room.number, checkIn, checkOut) {
      assert available[k] == room;
    }
  }

  /** No reservations: every room is available. */
  lemma NoReservationsAllAvailable(rooms: map<RoomNumber, Room>, checkIn: Date, checkOut: Date)
    ensures AvailableRooms(rooms, {}, checkIn, checkOut) == rooms
  {
  }

  /** No rooms: nothing is available. */
  lemma NoRoomsNoneAvailable(reservations: set<Reservation>, checkIn: Date, checkOut: Date)
    ensures AvailableRooms(map[], reservations, checkIn, checkOut) == map[]
  {
  }

  /** A room offered for any requested dates has no stored reservation
      overlapping that stay, unless the stay strictly encloses the
      reservation. */
  lemma OfferedRoomsHaveNoOverlap(rooms: map<RoomNumber, Room>, reservations: set<Reservation>, checkIn: Date, checkOut: Date, r: Reservation)
    requires r in reservations && r.room.number in AvailableRooms(rooms, reservations, checkIn, checkOut)
    ensures !Overlaps(r, checkIn, checkOut) || StrictlyEncloses(r, checkIn, checkOut)
  {
    assert !Conflicts(reservations, r.room.number, checkIn, checkOut);
  }

  /** Room 101 reserved for 2025-01-10 to 2025-01-12 is still offered for
      2025-01-05 to 2025-01-20, a stay that contains the reservation. */
  lemma EnclosingRequestStillOffered(customer: Nullable<Customer>, room: Room)
    requires room.number == Value("101")
    ensures
      var booked := Reservation(customer, room, 1736467200000, 1736640000000);
      Value("101") in AvailableRooms(map[Value("101") := room], {booked}, 1736035200000, 1737331200000)
  {
    var booked := Reservation(customer, room, 1736467200000, 1736640000000);
    assert !Conflicts({booked}, Value("101"), 1736035200000, 1737331200000) by {
      assert CheckDates(booked, 1736035200000, 1737331200000);
    }
  }

  // ---------------------------------------------------------------------
  // The minimum check-out date

  /** The comparator `(o1, o2) -> (int) (o1.getCheckOutDate().getTime() -
      o2.getCheckOutDate().getTime())`. The `long` subtraction may wrap, but
      the low 32 bits the cast keeps are those of the exact difference. */
  function CompareCheckOut(a: Reservation, b: Reservation): (c: int)
    ensures IsInt(c) && (c - (a.checkOut - b.checkOut)) % IntModulus == 0
    ensures IsInt(a.checkOut - b.checkOut) ==> c == a.checkOut - b.checkOut
  {
    ToInt(a.checkOut - b.checkOut)
  }

  /** `BinaryOperator.minBy(comparator)`, with which `Stream.min` reduces:
      keep the left operand unless the comparator calls it greater. */
  function MinBy(a: Reservation, b: Reservation): (m: Reservation)
    ensures m == a || m == b
    ensures IsInt(a.checkOut - b.checkOut) ==> m.checkOut <= a.checkOut && m.checkOut <= b.checkOut
  {
    if CompareCheckOut(a, b) <= 0 then a else b
  }

  /** `Stream.min` over the elements in the order the stream meets them. */
  function ReduceMinBy(order: seq<Reservation>): Reservation
    requires order != []
  {
    if |order| == 1 then order[0] else MinBy(ReduceMinBy(order[..|order| - 1]), order[|order| - 1])
  }

  /** `order` lists each element of `s` once: an iteration order of the set. */
  ghost predicate IsIterationOrder(order: seq<Reservation>, s: set<Reservation>) {
    (forall x :: x in order <==> x in s) &&
    (forall i, j :: 0 <= i < j < |order| ==> order[i] != order[j])
  }

  /** All check-out dates lie less than 2^31 ms (about 24.8 days) apart, so
      the `(int)` cast keeps every difference intact. */
  predicate CheckOutsWithinIntRange(s: set<Reservation>) {
    forall a, b :: a in s && b in s ==> IsInt(a.checkOut - b.checkOut)
  }

  /** `d` is the earliest check-out date in `s`. */
  predicate IsEarliestCheckOut(s: set<Reservation>, d: Date) {
    (exists r :: r in s && r.checkOut == d) && forall r :: r in s ==> d <= r.checkOut
  }

  lemma {:induction false} ReduceMinByIsMember(order: seq<Reservation>)
    requires order != []
    ensures ReduceMinBy(order) in order
  {
    if |order| > 1 {
      var prefix := order[..|order| - 1];
      ReduceMinByIsMember(prefix);
      assert ReduceMinBy(prefix) in order by {
        var i :| 0 <= i < |prefix| && prefix[i] == ReduceMinBy(prefix);
        assert order[i] == prefix[i];
      }
    }
  }

  /** With all differences in `int` range the comparator orders correctly
      and the reduction yields the earliest check-out. */
  lemma {:induction false} ReduceMinByIsEarliest(order: seq<Reservation>)
    requires order != []
    requires forall i, j :: 0 <= i < |order| && 0 <= j < |order| ==> IsInt(order[i].checkOut - order[j].checkOut)
    ensures forall i :: 0 <= i < |order| ==> ReduceMinBy(order).checkOut <= order[i].checkOut
  {
    if |order| > 1 {
      var n := |order| - 1;
      var prefix := order[..n];
      ReduceMinByIsEarliest(prefix);
      ReduceMinByIsMember(prefix);
      var m := ReduceMinBy(prefix);
      var i :| 0 <= i < n && prefix[i] == m;
      assert IsInt(order[i].checkOut - order[n].checkOut);
      assert CompareCheckOut(m, order[n]) == m.checkOut - order[n].checkOut;
      forall j | 0 <= j < |order| ensures ReduceMinBy(order).checkOut <= order[j].checkOut {
        if j < n { assert order[j] == prefix[j]; }
      }
    }
  }

  /** Over a sequence of two reservations where `b` wins every comparison
      with `a`, whichever side it is on, the reduction yields `b` as soon as
      `b` occurs. */
  lemma {:induction false} ReduceMinByOverTwo(order: seq<Reservation>, a: Reservation, b: Reservation)
    requires order != [] && forall i :: 0 <= i < |order| ==> order[i] == a || order[i] == b
    requires MinBy(a, b) == b && MinBy(b, a) == b
    ensures ReduceMinBy(order) == if b in order then b else a
  {
    if |order| > 1 {
      var n := |order| - 1;
      var prefix := order[..n];
      ReduceMinByOverTwo(prefix, a, b);
      assert order == prefix + [order[n]];
      assert b in order <==> b in prefix || order[n] == b;
    }
  }

  /** Check-outs on 2025-01-01 and 2025-01-31 are 30 days apart, more than
      the cast can represent: whichever order the set is visited in, the
      later date is reported as the minimum. */
  lemma MinAvailableDayCanBeTheLaterOne(a: Reservation, b: Reservation)
    requires a.checkOut == 1735689600000 && b.checkOut == 1738281600000
    ensures forall order :: IsIterationOrder(order, {a, b}) ==> ReduceMinBy(order) == b
  {
    assert CompareCheckOut(a, b) == 1702967296 by {
      assert (a.checkOut - b.checkOut) % IntModulus == 1702967296;
    }
    assert CompareCheckOut(b, a) == -1702967296 by {
      assert (b.checkOut - a.checkOut) % IntModulus == 2592000000;
    }
    forall order | IsIterationOrder(order, {a, b}) ensures ReduceMinBy(order) == b {
      assert b in order;
      forall i | 0 <= i < |order| ensures order[i] == a || order[i] == b {
        assert order[i] in order;
      }
      ReduceMinByOverTwo(order, a, b);
    }
  }

  // ---------------------------------------------------------------------
  // The service

  /** Every room is stored under its own number. */
  predicate KeyedByNumber(rooms: map<RoomNumber, Room>) {
    forall k :: k in rooms ==> rooms[k].number == k
  }

  /** No two stored reservations share a hash code: what a hash set keeps. */
  predicate HashesDistinct(s: set<Reservation>) {
    forall a, b :: a in s && b in s && ReservationHash(a) == ReservationHash(b) ==> a == b
  }

  /** The stored reservation is one of the given customer's: its customer
      equals the given one, that is has the same email. */
  predicate IsCustomersReservation(r: Reservation, customer: Nullable<Customer>) {
    r.customer.Value? && CustomerEquals(r.customer.value, customer)
  }

  class ReservationService {
    var rooms: map<RoomNumber, Room>
    var reservations: set<Reservation>

    ghost predicate Valid()
      reads this
    {
      KeyedByNumber(rooms) && HashesDistinct(reservations)
    }

    constructor ()
      ensures Valid() && rooms == map[] && reservations == {}
    {
      rooms := map[];
      reservations := {};
    }

    /** `addRoom(room)`: a room whose number is already registered is
        rejected and nothing changes; otherwise the room is stored under its
        number and no other entry changes. The room type plays no part. */
    method AddRoom(room: Room) returns (result: Outcome<()>)
      requires Valid()
      modifies this
      ensures Valid() && reservations == old(reservations)
      ensures result.Throw? <==> room.number in old(rooms)
      ensures result.Throw? ==> rooms == old(rooms)
      ensures result.Throw? ==> result.exception == IllegalArgumentException("Room number " + NumberText(room.number) + " already exists")
      ensures result.Return? ==> rooms == old(rooms)[room.number := room] && GetARoom(room.number) == Return(room)
    {
      if room.number in rooms {
        return Throw(IllegalArgumentException("Room number " + NumberText(room.number) + " already exists"));
      }
      rooms := rooms[room.number := room];
      return Return(());
    }

    /** `getARoom(roomId)`: the room registered under that number, or an
        exception when there is none. */
    function GetARoom(roomId: RoomNumber): (r: Outcome<Room>)
      reads this
      ensures r.Return? <==> roomId in rooms
      ensures r.Return? ==> r.value == rooms[roomId]
      ensures r.Throw? ==> r.exception == IllegalArgumentException("There is no room with number " + NumberText(roomId))
    {
      if roomId in rooms then Return(rooms[roomId])
      else Throw(IllegalArgumentException("There is no room with number " + NumberText(roomId)))
    }

    /** `reserveARoom(customer, room, checkInDate, checkOutDate)`: the new
        reservation is rejected, with the store unchanged, when the hash set
        already holds one with its hash code; otherwise it is added and
        returned with the four given fields. */
    method ReserveARoom(customer: Nullable<Customer>, room: Room, checkIn: Date, checkOut: Date) returns (result: Outcome<Reservation>)
      requires Valid()
      modifies this
      ensures Valid() && rooms == old(rooms)
      ensures result.Throw? <==> HashSetContains(old(reservations), Reservation(customer, room, checkIn, checkOut))
      ensures result.Throw? ==> reservations == old(reservations)
      ensures result.Throw? ==> result.exception == IllegalArgumentException("This room is already reserved for these days")
      ensures result.Return? ==> result.value == Reservation(customer, room, checkIn, checkOut)
      ensures result.Return? ==> reservations == old(reservations) + {result.value}
    {
      var newReservation := Reservation(customer, room, checkIn, checkOut);
      if HashSetContains(reservations, newReservation) {
        return Throw(IllegalArgumentException("This room is already reserved for these days"));
      }
      reservations := reservations + {newReservation};
      return Return(newReservation);
    }

    /** `findRooms(checkInDate, checkOutDate)`: copy the room map, then for
        each stored reservation that fails checkDates remove its room
        number. Neither the map nor the set is changed. */
    method FindRooms(checkIn: Date, checkOut: Date) returns (available: set<Room>)
      ensures available == AvailableRooms(rooms, reservations, checkIn, checkOut).Values
    {
      var availableRooms := rooms;
      var todo := reservations;
      ghost var done: set<Reservation> := {};
      while todo != {}
        invariant todo + done == reservations && todo !! done
        invariant availableRooms == AvailableRooms(rooms, done, checkIn, checkOut)
        decreases todo
      {
        var r :| r in todo;
        AvailableRoomsStep(rooms, done, r, checkIn, checkOut);
        if !CheckDates(r, checkIn, checkOut) {
          availableRooms := availableRooms - {r.room.number};
        }
        todo := todo - {r};
        done := done + {r};
      }
      available := availableRooms.Values;
    }

    /** `getCustomersReservation(customer)`: the stored reservations whose
        customer equals the given one, each listed once. A stored
        reservation without a customer makes `getCustomer().equals` throw. */
    method GetCustomersReservation(customer: Nullable<Customer>) returns (result: Outcome<seq<Reservation>>)
      ensures result.Throw? <==> exists r :: r in reservations && r.customer.Null?
      ensures result.Throw? ==> result.exception == NullPointerException
      ensures result.Return? ==> forall x :: x in result.value <==> x in reservations && IsCustomersReservation(x, customer)
      ensures result.Return? ==> forall i, j :: 0 <= i < j < |result.value| ==> result.value[i] != result.value[j]
    {
      var found: seq<Reservation> := [];
      var todo := reservations;
      while todo != {}
        invariant todo <= reservations
        invariant forall x :: x in reservations && x !in todo ==> x.customer.Value?
        invariant forall x :: x in found <==> x in reservations && x !in todo && IsCustomersReservation(x, customer)
        invariant forall i, j :: 0 <= i < j < |found| ==> found[i] != found[j]
        decreases todo
      {
        var r :| r in todo;
        if r.customer.Null? {
          return Throw(NullPointerException);
        }
        if CustomerEquals(r.customer.value, customer) {
          found := found + [r];
        }
        todo := todo - {r};
      }
      return Return(found);
    }

    /** `getRooms()`: the room map, every room under its own number. */
    function GetRooms(): (r: map<RoomNumber, Room>)
      reads this
      requires Valid()
      ensures r == rooms && KeyedByNumber(r)
    {
      rooms
    }

    /** `getAllReservations()`: the reservation set, no two sharing a hash. */
    function GetAllReservations(): (r: set<Reservation>)
      reads this
      requires Valid()
      ensures r == reservations && HashesDistinct(r)
    {
      reservations
    }

    /** `findMinAvailableDay()`: null when there are no reservations,
        otherwise the check-out date `Stream.min` picks under the cast
        comparator; `order` is the order the stream visits the set in. That
        date belongs to a stored reservation, and it is the earliest one
        when all check-outs lie within the `int` range of each other. */
    method FindMinAvailableDay() returns (day: Nullable<Date>, ghost order: seq<Reservation>)
      ensures IsIterationOrder(order, reservations)
      ensures day == if order == [] then Null else Value(ReduceMinBy(order).checkOut)
      ensures day.Null? <==> reservations == {}
      ensures day.Value? ==> exists r :: r in reservations && r.checkOut == day.value
      ensures day.Value? && CheckOutsWithinIntRange(reservations) ==> IsEarliestCheckOut(reservations, day.value)
    {
      if reservations == {} {
        return Null, [];
      }
      var min :| min in reservations;
      order := [min];
      var rest := reservations - {min};
      while rest != {}
        invariant rest <= reservations
        invariant order != [] && min == ReduceMinBy(order)
        invariant forall x :: x in order <==> x in reservations && x !in rest
        invariant forall i, j :: 0 <= i < j < |order| ==> order[i] != order[j]
        decreases rest
      {
        var r :| r in rest;
        assert (order + [r])[..|order|] == order;
        min := MinBy(min, r);
        order := order + [r];
        rest := rest - {r};
      }
      ReduceMinByIsMember(order);
      if CheckOutsWithinIntRange(reservations) {
        ReduceMinByIsEarliest(order);
        forall x | x in reservations ensures min.checkOut <= x.checkOut {
          var i :| 0 <= i < |order| && order[i] == x;
        }
      }
      return Value(min.checkOut), order;
    }
  }
}
