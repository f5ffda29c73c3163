/** Reservation.java: a customer, a room and two dates. Its `equals` compares
    the receiver's fields with themselves, so it holds for every reservation;
    membership in a `HashSet<Reservation>` is therefore decided by `hashCode`
    alone, which reads the room's hash (its number) and the two dates, and
    never the customer. */
module Reservations {
  import opened Java
  import opened Rooms
  import opened Customers

  /** The constructor stores its four arguments unchanged. The customer is
      null when a booking is made for an unregistered email. */
  datatype Reservation = Reservation(customer: Nullable<Customer>, room: Room, checkIn: Date, checkOut: Date)

  /** The argument of `equals(Object o)` as far as `o instanceof Reservation`
      can tell. */
  datatype ReservationArgument = AReservation(reservation: Reservation) | NotAReservation

  /** `Reservation.equals(o)`: each clause compares a field of this
      reservation with the same field of this reservation. */
  function ReservationEquals(self: Reservation, o: ReservationArgument): (r: bool)
    ensures r <==> o.AReservation?
  {
    match o
    case NotAReservation => false
    case AReservation(_) =>
      var roomsEqual := RoomEquals(self.room, ARoom(self.room)) == Return(true);
      var checkInEqual := self.checkIn == self.checkIn;
      var checkOutEqual := self.checkOut == self.checkOut;
      roomsEqual && checkInEqual && checkOutEqual
  }

  /** `Reservation.hashCode()`: 17, folded with 31 * h + the room's hash,
      then the check-in date's hash, then the check-out date's hash. */
  function ReservationHash(r: Reservation): (h: int)
    ensures IsInt(h)
  {
    var afterRoom := ToInt(31 * 17 + RoomHash(r.room));
    var afterCheckIn := ToInt(31 * afterRoom + DateHash(r.checkIn));
    ToInt(31 * afterCheckIn + DateHash(r.checkOut))
  }

  /** `HashSet.contains(x)`: some element has x's hash code and x.equals of
      it holds. */
  predicate HashSetContains(s: set<Reservation>, x: Reservation) {
    exists e :: e in s && ReservationHash(e) == ReservationHash(x) && ReservationEquals(x, AReservation(e))
  }

  /** Because equals always holds, the set treats two reservations as the
      same exactly when their hash codes are equal. */
  lemma ContainsIffSameHash(s: set<Reservation>, x: Reservation)
    ensures HashSetContains(s, x) <==> exists e :: e in s && ReservationHash(e) == ReservationHash(x)
  {
  }

  /** The hash code reads only the room number and the two dates. */
  lemma HashDependsOnNumberAndDates(a: Reservation, b: Reservation)
    requires a.room.number == b.room.number && a.checkIn == b.checkIn && a.checkOut == b.checkOut
    ensures ReservationHash(a) == ReservationHash(b)
  {
  }

  /** A stored reservation blocks any other with the same room number and
      dates, whoever the customer is and whatever the room's type or price. */
  lemma SameNumberAndDatesIsDuplicate(s: set<Reservation>, stored: Reservation, x: Reservation)
    requires stored in s
    requires x.room.number == stored.room.number && x.checkIn == stored.checkIn && x.checkOut == stored.checkOut
    ensures HashSetContains(s, x)
  {
    HashDependsOnNumberAndDates(stored, x);
  }

  /** Room 101 booked from 2025-01-02 to 2025-01-03 and room 101 from
      2025-01-01 to 2025-02-03 (midnight UTC) have different dates but the
      same hash code, so the set holding the first treats the second as
      already present. */
  lemma HashCollisionIsDuplicate(c1: Nullable<Customer>, c2: Nullable<Customer>, t: RoomType)
    ensures
      var room := NewUnpricedRoom(Value("101"), t);
      var short := Reservation(c1, room, 1735776000000, 1735862400000);
      var long := Reservation(c2, room, 1735689600000, 1738540800000);
      short.checkIn != long.checkIn && HashSetContains({short}, long)
  {
    var room := NewUnpricedRoom(Value("101"), t);
    var short := Reservation(c1, room, 1735776000000, 1735862400000);
    var long := Reservation(c2, room, 1735689600000, 1738540800000);
    CollisionDateHashes();
    assert StringHash("101") == 48626 by {
      assert "101"[..2] == "10" && "10"[..1] == "1" && "1"[..0] == "";
    }
    assert RoomHash(room) == 49153;
    assert ToInt(31 * 17 + 49153) == 49680;
    assert ToInt(610752900) == 610752900 && ToInt(524352900) == 524352900;
    assert ToInt(19628952720) == -1845883760 by {
      assert 19628952720 % IntModulus == 2449083536;
    }
    assert ToInt(15333985424) == -1845883760 by {
      assert 15333985424 % IntModulus == 2449083536;
    }
    assert ReservationHash(short) == ReservationHash(long);
  }

  /** The hash codes of the four dates used in HashCollisionIsDuplicate. */
  lemma CollisionDateHashes()
    ensures DateHash(1735689600000) == 522812820
    ensures DateHash(1738540800000) == -920954476
    ensures DateHash(1735776000000) == 609212820
    ensures DateHash(1735862400000) == 695612820
  {
    JanuaryFirstHash();
    FebruaryThirdHash();
    JanuarySecondHash();
    JanuaryThirdHash();
  }

  lemma JanuaryFirstHash() ensures DateHash(1735689600000) == 522812820 {
    assert Pow2(10) == 1024;
    assert LowBitsZero(522812416, 10);
    MidnightDateHash(1735689600000, 522812416);
  }

  lemma FebruaryThirdHash() ensures DateHash(1738540800000) == -920954476 {
    assert Pow2(10) == 1024;
    assert LowBitsZero(3374012416, 10);
    MidnightDateHash(1738540800000, 3374012416);
    assert ToInt(3374012820) == -920954476 by {
      assert 3374012820 % IntModulus == 3374012820;
    }
  }

  lemma JanuarySecondHash() ensures DateHash(1735776000000) == 609212820 {
    assert Pow2(10) == 1024;
    assert LowBitsZero(609212416, 10);
    MidnightDateHash(1735776000000, 609212416);
  }

  lemma JanuaryThirdHash() ensures DateHash(1735862400000) == 695612820 {
    assert Pow2(10) == 1024;
    assert LowBitsZero(695612416, 10);
    MidnightDateHash(1735862400000, 695612416);
  }

  /** The hash of a 2025 date at midnight UTC: its high word is 404 and the
      low ten bits of its low word are zero, so the XOR is a sum. */
  lemma MidnightDateHash(t: Date, low: nat)
    requires Pow2(10) == 1024
    requires 404 * IntModulus <= t < 405 * IntModulus && low == t - 404 * IntModulus
    requires LowBitsZero(low, 10)
    ensures DateHash(t) == ToInt(low + 404)
  {
    assert t % LongModulus == t;
    assert t % IntModulus == low && t / IntModulus == 404;
    XorOfDisjointBits(low, 404, 10);
  }
}
