# Hotel reservation core, modelled in Dafny

This project models the in-memory booking core of a console hotel reservation
application written in Java: the room registry (rooms keyed by room number),
the reservation store (a hash set of reservations), the availability rules
used to search for free rooms, the earliest check-out query, the customer
directory keyed by email, the two facades (`HotelResource` for guests,
`AdminResource` for the administrator) and the booking logic of the menu
(the date-order check, the fallback search one week later and the check that
a chosen room was offered).

The model keeps Java's behaviour, including its quirks:

- **checkDates is not interval disjointness.** A requested stay that strictly
  encloses an existing reservation passes the check, so the room is offered
  again (`CheckDatesCharacterised`, `EnclosingRequestStillOffered`). A
  request with equal check-in and check-out dates, which the menu accepts,
  is refused on a reservation's check-in day and on its check-out day
  (`CheckDatesZeroLengthStay`).
- **A zero-night booking blocks nothing.** The menu also books equal
  check-in and check-out dates, and such a reservation passes checkDates
  for every request, so its room stays available for any dates
  (`ZeroNightBookingsBlockNothing`).
- **Reservation equality is always true.** `Reservation.equals` compares each
  field of the receiver with itself. Membership in the `HashSet` is therefore
  decided by `hashCode` alone. The hash reads the room number and the two
  dates, never the customer. The hash codes are modelled exactly:
  `String.hashCode`, `Date.hashCode` and the 32-bit wrap-around of `int`
  arithmetic. A concrete collision is proved: room 101 booked for
  2025-01-02..2025-01-03 blocks a booking of room 101 for
  2025-01-01..2025-02-03 (`HashCollisionIsDuplicate`).
- **The earliest check-out comparator casts a `long` difference to `int`.**
  The answer is the true minimum when all check-outs lie within 2^31 ms of
  each other. Two check-outs 30 days apart make it report the later one in
  either iteration order (`MinAvailableDayCanBeTheLaterOne`).
- **The fallback search returns the original, empty result.** The suggestion
  for the following week is only shown, so the booking flow always returns
  to the main menu after an empty first search.
- **An unknown email books with a null customer.** `bookARoom` never checks
  that the customer exists. The stored null customer then makes every later
  `getCustomersReservation` throw a NullPointerException
  (`UnregisteredBookingBreaksLookup`).
- **Room equality is not symmetric.** A room with a null number is unequal to
  a numbered room, while the reverse call throws (`RoomEqualsNotSymmetric`).

The service interface `ReservationService.java` declares `addRoom` as
returning `boolean` and `getRooms` as returning a `Set`. The implementation
instead throws on a duplicate room number and returns the `Map`. The model
follows the implementation. The service's `AddRoom` returns an `Outcome`
(a return value or a thrown exception). The batch `AdminResource.AddRoom`
reads a thrown duplicate as `false` and continues with the next room, as
`AdminResource.java` expects. `HotelResource.findMinAvailableDay` is called
by the menu but not declared in `HotelResource.java`. It is modelled as
passing the call on to the service.

Java's semantics are in module `Java`:

- a `Nullable` reference;
- the `Outcome` of a call, either a returned value or a thrown `Exception`;
- dates as millisecond counts;
- the `(int)` cast.

Mutable Java objects (the services and facades) are Dafny classes. Value
objects (rooms, customers, reservations) are datatypes.

## Model

| member | source | states |
|---|---|---|
| Java.ToInt | HotelReservationApplication/src/main/java/org/project1/service/impl/ReservationServiceImpl.java:140 | the `(int)` cast: a 32-bit value congruent to its argument modulo 2^32, and the identity on values already in range |
| Java.StringHash | HotelReservationApplication/src/main/java/org/project1/model/Room.java:48 | `String.hashCode` of the room number, a 32-bit value |
| Java.DateHash | HotelReservationApplication/src/main/java/org/project1/model/Reservation.java:60-65 | the Java library's `Date.hashCode`, called here on both dates (low word XOR high word of the millisecond count), a 32-bit value |
| Rooms.NewRoom | HotelReservationApplication/src/main/java/org/project1/model/Room.java:11-15 | the three-argument constructor stores number, price and type, read back by the getters |
| Rooms.NewUnpricedRoom | HotelReservationApplication/src/main/java/org/project1/model/Room.java:17-20 | the two-argument constructor stores number and type and leaves the price null |
| Rooms.NewFreeRoom | HotelReservationApplication/src/main/java/org/project1/model/FreeRoom.java:10-13 | a FreeRoom has price 0.0 and keeps the number and type as given (the type is not forced to FREE) |
| Rooms.IsFree | HotelReservationApplication/src/main/java/org/project1/model/Room.java:68-71 | `isFree` is false for every room, FreeRooms included |
| Rooms.GetRoomNumber | HotelReservationApplication/src/main/java/org/project1/model/Room.java:53-56 | the getter returns the stored number; that it is the number given to the constructor is stated by `Rooms.NewRoom` and `Rooms.NewUnpricedRoom` |
| Rooms.GetRoomPrice | HotelReservationApplication/src/main/java/org/project1/model/Room.java:58-61 | the getter returns the stored price; that it is the constructor's price, null for an unpriced room and 0.0 for a FreeRoom, is stated by the three constructors' rows |
| Rooms.GetRoomType | HotelReservationApplication/src/main/java/org/project1/model/Room.java:63-66 | the getter returns the stored type; that it is the constructor's type is stated by the three constructors' rows |
| Rooms.RoomEquals | HotelReservationApplication/src/main/java/org/project1/model/Room.java:31-42 | equal iff the argument is a room with the same number and, when the number is set, the same type; throws exactly when this number is set and the other's is null; false for a non-room |
| Rooms.RoomHash | HotelReservationApplication/src/main/java/org/project1/model/Room.java:44-51 | 17 for a null number, otherwise 31*17 plus the number's hash in `int` arithmetic |
| Rooms.RoomEqualsReflexive | HotelReservationApplication/src/main/java/org/project1/model/Room.java:33-35 | a room equals itself, so the `o == this` shortcut changes no answer |
| Rooms.EqualRoomsHaveEqualHashes | HotelReservationApplication/src/main/java/org/project1/model/Room.java:31-51 | equals and hashCode agree |
| Rooms.TypeOnlyDifferenceSharesHash | HotelReservationApplication/src/main/java/org/project1/model/Room.java:40-51 | rooms differing only in type share a hash code but are not equal |
| Rooms.RoomEqualsNotSymmetric | HotelReservationApplication/src/main/java/org/project1/model/Room.java:40-41 | a null-numbered room is unequal to a numbered one, while the reverse call throws |
| Rooms.FreeRoomEqualsPricedRoom | HotelReservationApplication/src/main/java/org/project1/model/FreeRoom.java:8-13 | a FreeRoom equals a Room with the same number and type in both directions, and is still not free |
| Customers.NewCustomer | HotelReservationApplication/src/main/java/org/project1/model/Customer.java:16-24 | the constructor succeeds iff the email matches the pattern, storing the three fields; otherwise it throws "Email is invalid format!" |
| Customers.CustomerEquals | HotelReservationApplication/src/main/java/org/project1/model/Customer.java:41-49 | `equals`: what it means (same email, never null) is stated by `Customers.CustomerEqualityIsByEmail` |
| Customers.CustomerEqualityIsByEmail | HotelReservationApplication/src/main/java/org/project1/model/Customer.java:41-49 | customers are equal iff their emails are; never equal to null; reflexive and symmetric |
| Reservations.ReservationEquals | HotelReservationApplication/src/main/java/org/project1/model/Reservation.java:34-52 | `equals` is true iff the argument is a reservation, whatever its fields |
| Reservations.ReservationHash | HotelReservationApplication/src/main/java/org/project1/model/Reservation.java:55-67 | the hash folds the room's hash and the two dates' hashes into 32 bits |
| Reservations.HashSetContains | HotelReservationApplication/src/main/java/org/project1/service/impl/ReservationServiceImpl.java:66 | `HashSet.contains`: some element has the same hash code and `equals` holds; `Reservations.ContainsIffSameHash` states what that comes to |
| Reservations.ContainsIffSameHash | HotelReservationApplication/src/main/java/org/project1/model/Reservation.java:34-67 | the hash set contains a reservation iff some element has the same hash code |
| Reservations.HashDependsOnNumberAndDates | HotelReservationApplication/src/main/java/org/project1/model/Reservation.java:55-67 | the hash is determined by room number, check-in and check-out; customer, type and price play no part |
| Reservations.SameNumberAndDatesIsDuplicate | HotelReservationApplication/src/main/java/org/project1/model/Reservation.java:55-67 | a stored reservation blocks any other with the same room number and dates, for any customer |
| Reservations.HashCollisionIsDuplicate | HotelReservationApplication/src/main/java/org/project1/model/Reservation.java:55-67 | two reservations of room 101 with different dates share a hash, so the second counts as already present |
| ReservationServices.CheckDates | HotelReservationApplication/src/main/java/org/project1/service/impl/ReservationServiceImpl.java:155-161 | for any dates: a request that passes shares no night with the reservation unless it strictly encloses it; a proper stay ending on the reservation's check-in or starting on its check-out passes |
| ReservationServices.CheckDatesZeroLengthStay | HotelReservationApplication/src/main/java/org/project1/service/impl/ReservationServiceImpl.java:155-161 | a request with equal dates, which the menu accepts, passes iff the day is before the reservation's check-in or after its check-out, so it is refused on those two days although it shares no night there |
| ReservationServices.CheckDatesCharacterised | HotelReservationApplication/src/main/java/org/project1/service/impl/ReservationServiceImpl.java:155-161 | for proper requests, checkDates passes iff the stays do not overlap or the request strictly encloses the reservation, zero-night reservations included |
| ReservationServices.ZeroNightBookingsBlockNothing | HotelReservationApplication/src/main/java/org/project1/service/impl/ReservationServiceImpl.java:155-161 | a reservation with equal check-in and check-out dates passes checkDates for every request, so a room with only such bookings is available for any dates |
| ReservationServices.CheckDatesCases | HotelReservationApplication/src/main/java/org/project1/service/impl/ReservationServiceImpl.java:155-161 | back-to-back stays on either side pass, partial overlaps fail, an enclosing stay passes |
| ReservationServices.OfferedRoomsHaveNoOverlap | HotelReservationApplication/src/main/java/org/project1/service/impl/ReservationServiceImpl.java:81-96 | an offered room has no reservation overlapping the requested stay, except ones the stay strictly encloses |
| ReservationServices.EnclosingRequestStillOffered | HotelReservationApplication/src/main/java/org/project1/service/impl/ReservationServiceImpl.java:155-161 | room 101 booked for 2025-01-10..12 is still offered for 2025-01-05..20 |
| ReservationServices.AvailableRoomsStep | HotelReservationApplication/src/main/java/org/project1/service/impl/ReservationServiceImpl.java:86-93 | each reservation visited removes its room number exactly when it fails checkDates |
| ReservationServices.AvailableRoomsAreStored | HotelReservationApplication/src/main/java/org/project1/service/impl/ReservationServiceImpl.java:81-96 | the search result is a subset of the registered rooms |
| ReservationServices.AvailableRoomIff | HotelReservationApplication/src/main/java/org/project1/service/impl/ReservationServiceImpl.java:81-96 | a registered room is missing from the result iff a reservation with its number fails checkDates |
| ReservationServices.NoReservationsAllAvailable | HotelReservationApplication/src/main/java/org/project1/service/impl/ReservationServiceImpl.java:83-95 | with no reservations every room is available |
| ReservationServices.NoRoomsNoneAvailable | HotelReservationApplication/src/main/java/org/project1/service/impl/ReservationServiceImpl.java:83-95 | with no rooms nothing is available |
| ReservationServices.CompareCheckOut | HotelReservationApplication/src/main/java/org/project1/service/impl/ReservationServiceImpl.java:140 | the comparator: the check-out difference cast to `int`, a 32-bit value congruent to the true difference, and equal to it when the difference fits |
| ReservationServices.MinBy | HotelReservationApplication/src/main/java/org/project1/service/impl/ReservationServiceImpl.java:139-141 | one step of `Stream.min`: returns one of its two arguments, the one with the earlier or equal check-out when the difference fits in an `int` |
| ReservationServices.ReduceMinBy | HotelReservationApplication/src/main/java/org/project1/service/impl/ReservationServiceImpl.java:139-141 | `Stream.min` over one iteration order; that it returns an element and, for `int`-sized differences, the earliest check-out is stated by `ReservationServices.ReduceMinByIsMember` and `ReservationServices.ReduceMinByIsEarliest` |
| ReservationServices.ReduceMinByIsMember | HotelReservationApplication/src/main/java/org/project1/service/impl/ReservationServiceImpl.java:139-141 | `Stream.min` returns an element of the stream |
| ReservationServices.ReduceMinByIsEarliest | HotelReservationApplication/src/main/java/org/project1/service/impl/ReservationServiceImpl.java:139-141 | when all check-out differences fit in an `int`, `Stream.min` returns the earliest check-out |
| ReservationServices.ReduceMinByOverTwo | HotelReservationApplication/src/main/java/org/project1/service/impl/ReservationServiceImpl.java:140 | when `b` wins the comparison against `a` in both argument orders, the fold over any sequence made only of `a` and `b` returns `b` once `b` occurs |
| ReservationServices.MinAvailableDayCanBeTheLaterOne | HotelReservationApplication/src/main/java/org/project1/service/impl/ReservationServiceImpl.java:140 | check-outs 30 days apart: every iteration order yields the later date |
| ReservationServices.ReservationService.constructor | HotelReservationApplication/src/main/java/org/project1/service/impl/ReservationServiceImpl.java:16-19 | the service starts with no rooms and no reservations |
| ReservationServices.ReservationService.AddRoom | HotelReservationApplication/src/main/java/org/project1/service/impl/ReservationServiceImpl.java:28-34 | throws "Room number N already exists" iff the number is registered, leaving the map unchanged; otherwise stores the room under its number, changing no other entry |
| ReservationServices.ReservationService.GetARoom | HotelReservationApplication/src/main/java/org/project1/service/impl/ReservationServiceImpl.java:44-50 | returns the room under the number iff it is registered, else throws "There is no room with number N" |
| ReservationServices.ReservationService.ReserveARoom | HotelReservationApplication/src/main/java/org/project1/service/impl/ReservationServiceImpl.java:63-71 | throws "This room is already reserved for these days" iff the set already contains the new reservation, with the set unchanged; otherwise adds exactly that reservation with the four given fields and returns it |
| ReservationServices.ReservationService.FindRooms | HotelReservationApplication/src/main/java/org/project1/service/impl/ReservationServiceImpl.java:81-96 | returns the registered rooms whose number no reservation conflicts with, changing nothing |
| ReservationServices.ReservationService.GetCustomersReservation | HotelReservationApplication/src/main/java/org/project1/service/impl/ReservationServiceImpl.java:105-114 | throws iff a stored reservation has a null customer; otherwise lists exactly the stored reservations of customers equal to the given one, each once |
| ReservationServices.ReservationService.GetRooms | HotelReservationApplication/src/main/java/org/project1/service/impl/ReservationServiceImpl.java:122-124 | returns the stored room map itself, every room under its own number |
| ReservationServices.ReservationService.GetAllReservations | HotelReservationApplication/src/main/java/org/project1/service/impl/ReservationServiceImpl.java:132-134 | returns the stored reservation set itself, no two with the same hash |
| ReservationServices.ReservationService.FindMinAvailableDay | HotelReservationApplication/src/main/java/org/project1/service/impl/ReservationServiceImpl.java:137-145 | null iff there are no reservations; otherwise the check-out of a stored reservation, the earliest one when all check-outs lie within 2^31 ms |
| CustomerServices.CustomerService.constructor | HotelReservationApplication/src/main/java/org/project1/service/impl/CustomerServiceImpl.java:15-17 | the directory starts empty |
| CustomerServices.CustomerService.AddCustomer | HotelReservationApplication/src/main/java/org/project1/service/impl/CustomerServiceImpl.java:28-35 | an invalid email throws first and a registered email throws next, both leaving the map unchanged; otherwise the customer is stored under its email and getCustomer returns it |
| CustomerServices.CustomerService.GetCustomer | HotelReservationApplication/src/main/java/org/project1/service/impl/CustomerServiceImpl.java:44-49 | the customer under the email, or null when none is registered |
| CustomerServices.CustomerService.GetAllCustomers | HotelReservationApplication/src/main/java/org/project1/service/impl/CustomerServiceImpl.java:57-59 | exactly the registered customers, one per registered email |
| HotelResources.HotelResource.constructor | HotelReservationApplication/src/main/java/org/project1/resource/HotelResource.java:29-33 | keeps the two services it is given |
| HotelResources.HotelResource.GetCustomer | HotelReservationApplication/src/main/java/org/project1/resource/HotelResource.java:41-43 | the customer registered under the email, or null |
| HotelResources.HotelResource.CreateACustomer | HotelReservationApplication/src/main/java/org/project1/resource/HotelResource.java:52-54 | addCustomer with the arguments in the same order: an invalid email throws "Email is invalid format!" first, a registered email throws "Customer with this email is already registered." next, and otherwise the stored customer has the given names under the given email |
| HotelResources.HotelResource.GetRoom | HotelReservationApplication/src/main/java/org/project1/resource/HotelResource.java:62-64 | the registered room, or the getARoom exception for an unknown number |
| HotelResources.HotelResource.BookARoom | HotelReservationApplication/src/main/java/org/project1/resource/HotelResource.java:76-82 | reserves for getCustomer(email); an unregistered email books with a null customer |
| HotelResources.HotelResource.GetCustomersReservations | HotelReservationApplication/src/main/java/org/project1/resource/HotelResource.java:90-94 | the reservations of the customer under the email, each once; none for an unregistered email; throws on a stored null customer |
| HotelResources.HotelResource.FindARoom | HotelReservationApplication/src/main/java/org/project1/resource/HotelResource.java:103-105 | the rooms findRooms returns |
| HotelResources.HotelResource.FindMinAvailableDay | HotelReservationApplication/src/main/java/org/project1/service/impl/MenuServiceImpl.java:296 | the service's earliest check-out query |
| HotelResources.UnregisteredBookingBreaksLookup | HotelReservationApplication/src/main/java/org/project1/resource/HotelResource.java:76-94 | after a successful booking for an unknown email, looking up any customer's reservations throws |
| HotelResources.BackToBackScenario | HotelReservationApplication/src/main/java/org/project1/service/impl/ReservationServiceImpl.java:155-161 | room 101 booked 2025-01-10..12 is not offered for those dates but is offered from 2025-01-12 |
| AdminResources.AddAllRoomsKeys | HotelReservationApplication/src/main/java/org/project1/resource/AdminResource.java:42-46 | after a batch the registered numbers are the old ones plus the listed ones |
| AdminResources.AddAllRoomsKeepsOld | HotelReservationApplication/src/main/java/org/project1/resource/AdminResource.java:42-46 | a batch leaves rooms registered beforehand unchanged and keeps rooms under their numbers |
| AdminResources.AcceptedIffNew | HotelReservationApplication/src/main/java/org/project1/resource/AdminResource.java:42-46 | the i-th listed room is accepted iff its number is neither registered nor used earlier in the list |
| AdminResources.AcceptedRoomIsStored | HotelReservationApplication/src/main/java/org/project1/resource/AdminResource.java:42-46 | an accepted room is the one registered under its number after the batch |
| AdminResources.AdminResource.constructor | HotelReservationApplication/src/main/java/org/project1/resource/AdminResource.java:29-33 | keeps the two services it is given |
| AdminResources.AdminResource.AddRoom | HotelReservationApplication/src/main/java/org/project1/resource/AdminResource.java:40-47 | offers every room once in list order, going on after a duplicate; reports which were accepted; accepted rooms are registered and earlier ones unchanged |
| AdminResources.AdminResource.GetAllRooms | HotelReservationApplication/src/main/java/org/project1/resource/AdminResource.java:54-58 | exactly the registered rooms, one per registered number |
| AdminResources.AdminResource.GetAllCustomers | HotelReservationApplication/src/main/java/org/project1/resource/AdminResource.java:65-67 | exactly the registered customers, one per registered email |
| AdminResources.AdminResource.GetAllReservations | HotelReservationApplication/src/main/java/org/project1/resource/AdminResource.java:74-76 | the store's reservation set unchanged |
| MenuServices.ShiftDate | HotelReservationApplication/src/main/java/org/project1/service/impl/MenuServiceImpl.java:310-315 | the date moved forward by exactly seven days |
| MenuServices.MenuService.constructor | HotelReservationApplication/src/main/java/org/project1/service/impl/MenuServiceImpl.java:28-30 | keeps the hotel facade it is given |
| MenuServices.MenuService.FindAvailableRooms | HotelReservationApplication/src/main/java/org/project1/service/impl/MenuServiceImpl.java:278-308 | returns the first search's rooms; only when they are empty, searches the week-shifted stay and suggests it, starting at the earliest check-out when that is earlier and keeping the stay's length |
| MenuServices.MenuService.SearchForBooking | HotelReservationApplication/src/main/java/org/project1/service/impl/MenuServiceImpl.java:178-190 | asks again iff check-in is after check-out (equal dates pass); returns to the menu iff the first search is empty, whatever the fallback found; otherwise offers the rooms found |
| MenuServices.IsOfferedRoom | HotelReservationApplication/src/main/java/org/project1/service/impl/MenuServiceImpl.java:372-377 | true iff an offered room has the input as its number with no null number before it; throws on a null number met first; with no null numbers, true iff some offered room has that number |

## Left out

- Console input and output, the menu loops, the y/n prompts and the printed messages. The suggestion of the fallback search is returned as a value instead of being printed.
- Spring wiring and `Main`: the services are passed to the facades' constructors.
- The email regular expression of `Customer.java`: validity is a predicate given to the customer service.
- Price parsing (`NumberUtils`) and arithmetic on prices. The price is a stored value that nothing computes with.
- Date parsing, the check against today's date, time zones and daylight-saving time. Dates are millisecond counts and `shiftDate` adds seven days of milliseconds.
- The interfaces `ReservationService`, `CustomerService` and `IRoom`. They carry no logic. Their signature mismatch with the implementation is described above.
- `toString` methods: display only.
- Iteration order of `HashMap` and `HashSet`. Searches return sets of rooms; the customer filter returns a sequence in some order; `findMinAvailableDay` states its result for whichever order the set is visited in.
- Aliasing: the Java getters return the live map, set and values view, which a caller could change; the model returns values.
- ReservationServices.ReservationService.FindRooms: returns a set of rooms, not a list. Rooms are stored under their own numbers, so distinct entries hold distinct rooms and nothing is lost.
- Null rooms, null dates and null room types are not representable; room numbers and customers are the only nullable fields. In Java, `reserveARoom` accepts a null room or null dates: `hashCode` skips null fields and `equals` holds, so the reservation is stored. The NullPointerException comes later: in `findRooms`, at the `before(null)` of checkDates (ReservationServiceImpl.java:156) or at `getRoom().getRoomNumber()` (ReservationServiceImpl.java:91), and in `findMinAvailableDay`, whose comparator calls `getCheckOutDate().getTime()` on a null check-out date once the set holds two or more reservations (ReservationServiceImpl.java:140). A null room type never throws in the core, because `Reservation.equals` reaches `Room.equals` only through its `o == this` shortcut. `getCustomer(null)` returns null, because a `HashMap` allows null keys; the model has no null email. Excluding these values drops, knowingly, the "null fields are skipped" rule of `Reservation.hashCode` (Reservation.java:57-65).
- 64-bit `long` overflow of millisecond arithmetic. It cannot occur for dates the menu accepts. The `(int)` cast of the comparator is modelled exactly.
- The bucket structure of `HashSet`: membership is modelled as "some element has the same hash code and equals holds", which is what `contains` decides.
- `String.hashCode` on characters outside the Basic Multilingual Plane: Java hashes such a character as two UTF-16 units, while the model counts each Dafny `char` once.
