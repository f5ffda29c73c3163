/** AdminResource.java: the administrator's facade. Its batch `addRoom`
    offers each listed room to the reservation service in turn; a room whose
    number is already registered is reported and skipped, and the batch goes
    on with the next one. */
module AdminResources {
  import opened Java
  import opened Rooms
  import opened Customers
  import opened Reservations
  import opened ReservationServices
  import opened CustomerServices
  import MapFacts

  /** The room map after offering `list` to it in order: a room is stored
      when its number is not yet a key and skipped otherwise. */
  function AddAllRooms(rooms: map<RoomNumber, Room>, list: seq<Room>): map<RoomNumber, Room> {
    if list == [] then rooms
    else
      var before := AddAllRooms(rooms, list[..|list| - 1]);
      var last := list[|list| - 1];
      if last.number in before then before else before[last.number := last]
  }

  /** The room at position `i` is accepted: its number is neither registered
      beforehand nor used by an earlier room of the list. */
  predicate IsNewAt(rooms: map<RoomNumber, Room>, list: seq<Room>, i: int)
    requires 0 <= i < |list|
  {
    list[i].number !in rooms && forall j :: 0 <= j < i ==> list[j].number != list[i].number
  }

  /** After the batch the registered numbers are the old ones plus the listed
      ones. */
  lemma {:induction false} AddAllRoomsKeys(rooms: map<RoomNumber, Room>, list: seq<Room>)
    ensures forall k :: k in AddAllRooms(rooms, list) <==> k in rooms || exists i :: 0 <= i < |list| && list[i].number == k
  {
    if list != [] {
      var n := |list| - 1;
      var prefix := list[..n];
      AddAllRoomsKeys(rooms, prefix);
      forall k ensures k in AddAllRooms(rooms, list) <==> k in rooms || exists i :: 0 <= i < |list| && list[i].number == k {
        if exists i :: 0 <= i < |list| && list[i].number == k {
          var i :| 0 <= i < |list| && list[i].number == k;
          if i < n { assert prefix[i] == list[i]; }
        }
        if exists i :: 0 <= i < n && prefix[i].number == k {
          var i :| 0 <= i < n && prefix[i].number == k;
          assert list[i] == prefix[i];
        }
      }
    }
  }

  /** Rooms registered before the batch are unchanged, and rooms stay keyed
      by their numbers. */
  lemma {:induction false} AddAllRoomsKeepsOld(rooms: map<RoomNumber, Room>, list: seq<Room>)
    ensures forall k :: k in rooms ==> k in AddAllRooms(rooms, list) && AddAllRooms(rooms, list)[k] == rooms[k]
    ensures KeyedByNumber(rooms) ==> KeyedByNumber(AddAllRooms(rooms, list))
  {
    if list != [] {
      AddAllRoomsKeepsOld(rooms, list[..|list| - 1]);
    }
  }

  /** A room accepted at position `i` is the one found under its number
      once the first `i` rooms have been offered. */
  lemma AcceptedIffNew(rooms: map<RoomNumber, Room>, list: seq<Room>, i: int)
    requires 0 <= i < |list|
    ensures list[i].number !in AddAllRooms(rooms, list[..i]) <==> IsNewAt(rooms, list, i)
  {
    AddAllRoomsKeys(rooms, list[..i]);
    if list[i].number in AddAllRooms(rooms, list[..i]) && list[i].number !in rooms {
      var j :| 0 <= j < i && list[..i][j].number == list[i].number;
      assert list[j] == list[..i][j];
    }
  }

  /** Each accepted room is stored under its number after the batch: later
      rooms with the same number are skipped. */
  lemma {:induction false} AcceptedRoomIsStored(rooms: map<RoomNumber, Room>, list: seq<Room>, i: int)
    requires 0 <= i < |list| && IsNewAt(rooms, list, i)
    ensures list[i].number in AddAllRooms(rooms, list) && AddAllRooms(rooms, list)[list[i].number] == list[i]
    decreases |list|
  {
    var n := |list| - 1;
    var prefix := list[..n];
    if i == n {
      AcceptedIffNew(rooms, list, n);
    } else {
      assert IsNewAt(rooms, prefix, i);
      AcceptedRoomIsStored(rooms, prefix, i);
    }
  }

  class AdminResource {
    const customerService: CustomerService
    const reservationService: ReservationService

    constructor (customerService: CustomerService, reservationService: ReservationService)
      ensures this.customerService == customerService && this.reservationService == reservationService
    {
      this.customerService := customerService;
      this.reservationService := reservationService;
    }

    /** `addRoom(rooms)`: every room of the list is offered exactly once, in
        list order; `added[i]` says whether the i-th was accepted. A rejected
        duplicate does not end the batch. */
    method AddRoom(rooms: seq<Room>) returns (added: seq<bool>)
      requires reservationService.Valid()
      modifies reservationService
      ensures reservationService.Valid()
      ensures reservationService.reservations == old(reservationService.reservations)
      ensures reservationService.rooms == AddAllRooms(old(reservationService.rooms), rooms)
      ensures |added| == |rooms|
      ensures forall i :: 0 <= i < |rooms| ==> added[i] == IsNewAt(old(reservationService.rooms), rooms, i)
      ensures forall k :: k in old(reservationService.rooms) ==>
        k in reservationService.rooms && reservationService.rooms[k] == old(reservationService.rooms)[k]
      ensures forall i :: 0 <= i < |rooms| && IsNewAt(old(reservationService.rooms), rooms, i) ==>
        reservationService.GetARoom(rooms[i].number) == Return(rooms[i])
    {
      added := [];
      for i := 0 to |rooms|
        invariant reservationService.Valid()
        invariant reservationService.reservations == old(reservationService.reservations)
        invariant reservationService.rooms == AddAllRooms(old(reservationService.rooms), rooms[..i])
        invariant |added| == i
        invariant forall j :: 0 <= j < i ==> added[j] == IsNewAt(old(reservationService.rooms), rooms, j)
      {
        AcceptedIffNew(old(reservationService.rooms), rooms, i);
        assert rooms[..i + 1][..i] == rooms[..i];
        var outcome := reservationService.AddRoom(rooms[i]);
        added := added + [outcome.Return?];
      }
      assert rooms[..|rooms|] == rooms;
      AddAllRoomsKeepsOld(old(reservationService.rooms), rooms);
      forall i | 0 <= i < |rooms| && IsNewAt(old(reservationService.rooms), rooms, i)
        ensures reservationService.GetARoom(rooms[i].number) == Return(rooms[i])
      {
        AcceptedRoomIsStored(old(reservationService.rooms), rooms, i);
      }
    }

    /** `getAllRooms()`: the registered rooms, one per registered number. */
    function GetAllRooms(): (r: set<Room>)
      reads reservationService
      requires reservationService.Valid()
      ensures forall room :: room in r <==> reservationService.GetARoom(room.number) == Return(room)
      ensures |r| == |reservationService.rooms|
    {
      MapFacts.KeyedValuesCount(reservationService.rooms, (room: Room) => room.number);
      reservationService.GetRooms().Values
    }

    /** `getAllCustomers()`: the registered customers. */
    function GetAllCustomers(): (r: set<Customer>)
      reads customerService
      requires customerService.Valid()
      ensures forall c :: c in r <==> customerService.GetCustomer(c.email) == Value(c)
      ensures |r| == |customerService.customers|
    {
      customerService.GetAllCustomers()
    }

    /** `getAllReservations()`: the store's reservation set as it is. */
    function GetAllReservations(): (r: set<Reservation>)
      reads reservationService
      requires reservationService.Valid()
      ensures r == reservationService.reservations && HashesDistinct(r)
    {
      reservationService.GetAllReservations()
    }
  }
}
