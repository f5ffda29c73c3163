/** HotelResource.java: the customer-facing facade, which passes each call on
    to the customer service or the reservation service. */
module HotelResources {
  import opened Java
  import opened Rooms
  import opened Customers
  import opened Reservations
  import opened ReservationServices
  import opened CustomerServices

  class HotelResource {
    const customerService: CustomerService
    const reservationService: ReservationService

    constructor (customerService: CustomerService, reservationService: ReservationService)
      ensures this.customerService == customerService && this.reservationService == reservationService
    {
      this.customerService := customerService;
      this.reservationService := reservationService;
    }

    /** `getCustomer(email)`: the registered customer, or null. */
    function GetCustomer(email: string): (r: Nullable<Customer>)
      reads customerService
      ensures r.Value? <==> email in customerService.customers
      ensures r.Value? ==> r.value == customerService.customers[email]
    {
      customerService.GetCustomer(email)
    }

    /** `createACustomer(email, firstName, lasName)`: addCustomer with the
        arguments in the same order, so the stored customer carries the
        given names under the given email. */
    method CreateACustomer(email: string, firstName: string, lastName: string) returns (result: Outcome<()>)
      requires customerService.Valid()
      modifies customerService
      ensures customerService.Valid()
      ensures result.Return? <==> customerService.emailMatches(email) && email !in old(customerService.customers)
      ensures !customerService.emailMatches(email) ==> result == Throw(IllegalArgumentException("Email is invalid format!"))
      ensures customerService.emailMatches(email) && email in old(customerService.customers) ==>
        result == Throw(IllegalArgumentException("Customer with this email is already registered."))
      ensures result.Throw? ==> customerService.customers == old(customerService.customers)
      ensures result.Return? ==>
        customerService.customers == old(customerService.customers)[email := Customer(firstName, lastName, email)]
    {
      result := customerService.AddCustomer(email, firstName, lastName);
    }

    /** `getRoom(roomNumber)`: the registered room, failing on an unknown
        number as getARoom does. */
    function GetRoom(roomNumber: RoomNumber): (r: Outcome<Room>)
      reads reservationService
      ensures r.Return? <==> roomNumber in reservationService.rooms
      ensures r.Return? ==> r.value == reservationService.rooms[roomNumber]
      ensures r.Throw? ==> r.exception == IllegalArgumentException("There is no room with number " + NumberText(roomNumber))
    {
      reservationService.GetARoom(roomNumber)
    }

    /** `bookARoom(customerEmail, room, checkInDate, checkOutDate)`: reserves
        for whatever getCustomer returns. Nothing checks that the email is
        registered, so an unknown email books with a null customer. */
    method BookARoom(customerEmail: string, room: Room, checkIn: Date, checkOut: Date) returns (result: Outcome<Reservation>)
      requires reservationService.Valid()
      modifies reservationService
      ensures reservationService.Valid() && reservationService.rooms == old(reservationService.rooms)
      ensures result.Throw? <==>
        HashSetContains(old(reservationService.reservations), Reservation(GetCustomer(customerEmail), room, checkIn, checkOut))
      ensures result.Throw? ==> reservationService.reservations == old(reservationService.reservations)
      ensures result.Return? ==> result.value == Reservation(GetCustomer(customerEmail), room, checkIn, checkOut)
      ensures result.Return? ==> reservationService.reservations == old(reservationService.reservations) + {result.value}
      ensures result.Return? && customerEmail !in customerService.customers ==> result.value.customer == Null
    {
      var customer := GetCustomer(customerEmail);
      result := reservationService.ReserveARoom(customer, room, checkIn, checkOut);
    }

    /** `getCustomersReservations(customerEmail)`: the reservations of the
        customer registered under that email. An unregistered email finds
        none, since no customer equals null. */
    method GetCustomersReservations(customerEmail: string) returns (result: Outcome<seq<Reservation>>)
      ensures result.Throw? <==> exists r :: r in reservationService.reservations && r.customer.Null?
      ensures result.Throw? ==> result.exception == NullPointerException
      ensures result.Return? ==> forall x :: x in result.value <==>
        x in reservationService.reservations && IsCustomersReservation(x, GetCustomer(customerEmail))
      ensures result.Return? ==> forall i, j :: 0 <= i < j < |result.value| ==> result.value[i] != result.value[j]
      ensures result.Return? && customerEmail !in customerService.customers ==> result.value == []
    {
      var customer := GetCustomer(customerEmail);
      result := reservationService.GetCustomersReservation(customer);
      if result.Return? && result.value != [] {
        assert result.value[0] in result.value;
      }
    }

    /** `findARoom(checkIn, checkOut)`: findRooms. */
    method FindARoom(checkIn: Date, checkOut: Date) returns (available: set<Room>)
      ensures available == AvailableRooms(reservationService.rooms, reservationService.reservations, checkIn, checkOut).Values
    {
      available := reservationService.FindRooms(checkIn, checkOut);
    }

    /** `findMinAvailableDay()`, used by the menu's fallback search but not
        declared in HotelResource.java: passed on to the service. */
    method FindMinAvailableDay() returns (day: Nullable<Date>, ghost order: seq<Reservation>)
      ensures IsIterationOrder(order, reservationService.reservations)
      ensures day == if order == [] then Null else Value(ReduceMinBy(order).checkOut)
      ensures day.Null? <==> reservationService.reservations == {}
      ensures day.Value? && CheckOutsWithinIntRange(reservationService.reservations) ==>
        IsEarliestCheckOut(reservationService.reservations, day.value)
    {
      day, order := reservationService.FindMinAvailableDay();
    }
  }

  /** Booking for an email nobody registered succeeds, and from then on
      looking up any customer's reservations dereferences the stored null
      customer and throws. */
  method UnregisteredBookingBreaksLookup(hotel: HotelResource, unknownEmail: string, anyEmail: string, room: Room, checkIn: Date, checkOut: Date)
      returns (booking: Outcome<Reservation>, lookup: Outcome<seq<Reservation>>)
    requires hotel.reservationService.Valid()
    requires unknownEmail !in hotel.customerService.customers
    modifies hotel.reservationService
    ensures booking.Return? ==> lookup == Throw(NullPointerException)
  {
    booking := hotel.BookARoom(unknownEmail, room, checkIn, checkOut);
    ghost var stored := hotel.reservationService.reservations;
    lookup := hotel.GetCustomersReservations(anyEmail);
    if booking.Return? {
      var nullBooking := booking.value;
      assert nullBooking.customer == Null && nullBooking in stored;
    }
  }

  /** The walk-through of a booking: room 101 is registered and booked from
      2025-01-10 to 2025-01-12; a search for those dates then finds nothing,
      and a search from 2025-01-12 to 2025-01-15, starting on the day the
      booking ends, finds room 101 again. */
  method BackToBackScenario() returns (sameDates: set<Room>, nextStay: set<Room>)
    ensures sameDates == {}
    ensures nextStay == {NewRoom(Value("101"), 100.0, Single)}
  {
    var customers := new CustomerService((e: string) => true);
    var service := new ReservationService();
    var hotel := new HotelResource(customers, service);
    var room := NewRoom(Value("101"), 100.0, Single);
    var added := service.AddRoom(room);
    var created := hotel.CreateACustomer("ada@example.com", "Ada", "Lovelace");
    var booked := hotel.BookARoom("ada@example.com", room, 1736467200000, 1736640000000);
    assert booked.Return?;
    var reservation := booked.value;
    assert service.reservations == {reservation};
    sameDates := hotel.FindARoom(1736467200000, 1736640000000);
    assert Conflicts({reservation}, Value("101"), 1736467200000, 1736640000000);
    assert AvailableRooms(service.rooms, service.reservations, 1736467200000, 1736640000000) == map[];
    nextStay := hotel.FindARoom(1736640000000, 1736899200000);
    assert !Conflicts({reservation}, Value("101"), 1736640000000, 1736899200000);
    assert AvailableRooms(service.rooms, service.reservations, 1736640000000, 1736899200000) == map[Value("101") := room];
  }
}
