/** Room.java and FreeRoom.java: a room is a value with a number, a price and
    a type. FreeRoom only changes the constructor (the price becomes 0.0);
    equality, hashing, the getters and `isFree` are inherited from Room. */
module Rooms {
  import opened Java

  datatype RoomType = Single | Double | Free

  /** The run-time class of a room object. */
  datatype RoomClass = PlainRoom | FreeRoomClass

  /** A room number; Room.java does not rule out a null one. */
  type RoomNumber = Nullable<string>

  /** The fields of a Room. The price is a `Double` the core only stores and
      never computes with; it stays null when the two-argument constructor is
      used. */
  datatype Room = Room(number: RoomNumber, price: Nullable<real>, roomType: RoomType, runtimeClass: RoomClass)

  /** The argument of `equals(Object o)` as far as `o instanceof Room` can
      tell: a room, or null or an object of another class. */
  datatype RoomArgument = ARoom(room: Room) | NotARoom

  /** `new Room(roomNumber, price, roomType)` */
  function NewRoom(roomNumber: RoomNumber, price: real, roomType: RoomType): (r: Room)
    ensures GetRoomNumber(r) == roomNumber && GetRoomPrice(r) == Value(price) && GetRoomType(r) == roomType
    ensures r.runtimeClass == PlainRoom
  {
    Room(roomNumber, Value(price), roomType, PlainRoom)
  }

  /** `new Room(roomNumber, roomType)`: the price is left null. */
  function NewUnpricedRoom(roomNumber: RoomNumber, roomType: RoomType): (r: Room)
    ensures GetRoomNumber(r) == roomNumber && GetRoomPrice(r) == Null && GetRoomType(r) == roomType
  {
    Room(roomNumber, Null, roomType, PlainRoom)
  }

  /** `new FreeRoom(roomNumber, roomType)`: the two-argument Room constructor,
      then `price = 0.0`. The type is kept as given, not forced to FREE. */
  function NewFreeRoom(roomNumber: RoomNumber, roomType: RoomType): (r: Room)
    ensures GetRoomNumber(r) == roomNumber && GetRoomPrice(r) == Value(0.0) && GetRoomType(r) == roomType
    ensures r.runtimeClass == FreeRoomClass
  {
    NewUnpricedRoom(roomNumber, roomType).(price := Value(0.0), runtimeClass := FreeRoomClass)
  }

  function GetRoomNumber(r: Room): RoomNumber {
    r.number
  }

  function GetRoomPrice(r: Room): Nullable<real> {
    r.price
  }

  function GetRoomType(r: Room): RoomType {
    r.roomType
  }

  /** `isFree()`: Room answers false and FreeRoom does not override it. */
  function IsFree(r: Room): (free: bool)
    ensures !free
  {
    false
  }

  /** The text `"" + roomNumber` gives in a message. */
  function NumberText(n: RoomNumber): string {
    match n
    case Null => "null"
    case Value(s) => s
  }

  /** `Room.equals(o)`. The test `o == this` is left out: for the same value
      the remaining tests give true as well (see RoomEqualsReflexive). When
      this room's number is set and the other's is null, the call
      `otherRoom.getRoomNumber().equals(roomNumber)` dereferences null. */
  function RoomEquals(self: Room, o: RoomArgument): (r: Outcome<bool>)
    ensures r == Return(true) <==>
      o.ARoom? && self.number == o.room.number && (self.number.Null? || self.roomType == o.room.roomType)
    ensures r.Throw? <==> o.ARoom? && self.number.Value? && o.room.number.Null?
    ensures r.Throw? ==> r.exception == NullPointerException
  {
    match o
    case NotARoom => Return(false)
    case ARoom(other) =>
      if self.number.Null? && other.number.Null? then Return(true)
      else if other.number.Null? then Throw(NullPointerException)
      else Return(self.number == other.number && other.roomType == self.roomType)
  }

  /** `Room.hashCode()`: 17, then `31 * 17 + roomNumber.hashCode()` when the
      number is not null. */
  function RoomHash(r: Room): (h: int)
    ensures IsInt(h)
  {
    match r.number
    case Null => 17
    case Value(s) => ToInt(31 * 17 + StringHash(s))
  }

  /** equals is reflexive, so skipping `o == this` changes nothing. */
  lemma RoomEqualsReflexive(r: Room)
    ensures RoomEquals(r, ARoom(r)) == Return(true)
  {
  }

  /** equals and hashCode agree: equal rooms have equal hash codes. */
  lemma EqualRoomsHaveEqualHashes(a: Room, b: Room)
    requires RoomEquals(a, ARoom(b)) == Return(true)
    ensures RoomHash(a) == RoomHash(b)
  {
  }

  /** Rooms that differ only in type (or price, or class) share a hash code
      but are not equal when their number is set. */
  lemma TypeOnlyDifferenceSharesHash(a: Room, b: Room)
    requires a.number == b.number && a.number.Value? && a.roomType != b.roomType
    ensures RoomHash(a) == RoomHash(b)
    ensures RoomEquals(a, ARoom(b)) == Return(false)
  {
  }

  /** equals is not symmetric: a room without a number is unequal to one
      with a number, while the reverse call throws. */
  lemma RoomEqualsNotSymmetric(a: Room, b: Room)
    requires a.number.Null? && b.number.Value?
    ensures RoomEquals(a, ARoom(b)) == Return(false)
    ensures RoomEquals(b, ARoom(a)) == Throw(NullPointerException)
  {
  }

  /** A FreeRoom is equal to a Room with the same number and type, whatever
      the Room's price, and still reports that it is not free. */
  lemma FreeRoomEqualsPricedRoom(n: string, t: RoomType, price: real)
    ensures RoomEquals(NewFreeRoom(Value(n), t), ARoom(NewRoom(Value(n), price, t))) == Return(true)
    ensures RoomEquals(NewRoom(Value(n), price, t), ARoom(NewFreeRoom(Value(n), t))) == Return(true)
    ensures !IsFree(NewFreeRoom(Value(n), t))
  {
  }
}
