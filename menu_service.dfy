/** The booking logic of MenuServiceImpl.java that is not console
    plumbing: the order check on the entered dates, the search with its
    fallback one week later, and the check that the chosen room number was
    offered. What the menu prints is returned as values instead. */
module MenuServices {
  import opened Java
  import opened Rooms
  import opened Reservations
  import opened ReservationServices
  import opened HotelResources

  /** Milliseconds in seven days. */
  const WeekMillis: int := 7 * 24 * 60 * 60 * 1000

  /** `shiftDate(date)`: the same instant seven days later. */
  function ShiftDate(date: Date): (shifted: Date)
    ensures shifted - date == WeekMillis && shifted > date
  {
    date + WeekMillis
  }

  /** What the fallback search tells the user. */
  datatype Suggestion =
    | NotNeeded                                                   // the requested dates had rooms
    | NoRoomsNextWeek                                             // "No free rooms in the next 7 days found"
    | Suggest(checkIn: Date, checkOut: Date, rooms: set<Room>)    // "You can book following rooms from .. to .."

  /** Where one pass of `findAndReserveARoom` goes after the dates are read. */
  datatype SearchStep =
    | ReenterDates                       // check-in after check-out: ask again
    | BackToMainMenu(suggestion: Suggestion)
    | ChooseRoom(offered: set<Room>)     // go on to the booking questions

  class MenuService {
    const hotelResource: HotelResource

    constructor (hotelResource: HotelResource)
      ensures this.hotelResource == hotelResource
    {
      this.hotelResource := hotelResource;
    }

    /** `findAvailableRooms(checkIn, checkOut)`: searches the requested
        dates; when nothing is free, searches the same stay a week later and,
        if that finds rooms, suggests it, moved back to start on the earliest
        check-out date when that date is earlier. Whatever the fallback
        finds, the result of the first search is what is returned. */
    method FindAvailableRooms(checkIn: Date, checkOut: Date) returns (availableRooms: set<Room>, suggestion: Suggestion)
      ensures availableRooms == AvailableRooms(RegisteredRooms(), StoredReservations(), checkIn, checkOut).Values
      ensures suggestion == NotNeeded <==> availableRooms != {}
      ensures suggestion == NoRoomsNextWeek <==>
        availableRooms == {} && AvailableRooms(RegisteredRooms(), StoredReservations(), ShiftDate(checkIn), ShiftDate(checkOut)).Values == {}
      ensures suggestion.Suggest? ==>
        suggestion.rooms == AvailableRooms(RegisteredRooms(), StoredReservations(), ShiftDate(checkIn), ShiftDate(checkOut)).Values &&
        suggestion.checkOut - suggestion.checkIn == checkOut - checkIn &&
        exists order :: IsIterationOrder(order, StoredReservations()) && order != [] &&
          var minDay := ReduceMinBy(order).checkOut;
          suggestion.checkIn == if minDay < ShiftDate(checkIn) then minDay else ShiftDate(checkIn)
    {
      availableRooms := hotelResource.FindARoom(checkIn, checkOut);
      suggestion := NotNeeded;
      if availableRooms == {} {
        var shiftedIn := ShiftDate(checkIn);
        var shiftedOut := ShiftDate(checkOut);
        var incomingRooms := hotelResource.FindARoom(shiftedIn, shiftedOut);
        if incomingRooms == {} {
          suggestion := NoRoomsNextWeek;
        } else {
          NoReservationsAllAvailable(RegisteredRooms(), checkIn, checkOut);
          NoReservationsAllAvailable(RegisteredRooms(), shiftedIn, shiftedOut);
          var minAvailableDay, order := hotelResource.FindMinAvailableDay();
          var minDay := minAvailableDay.value;
          if minDay < shiftedIn {
            shiftedOut := shiftedOut - shiftedIn + minDay;
            shiftedIn := minDay;
          }
          suggestion := Suggest(shiftedIn, shiftedOut, incomingRooms);
        }
      }
    }

    /** One pass of `findAndReserveARoom` after the two dates are read:
        dates in the wrong order are asked for again (equal dates are
        accepted); an empty first search goes back to the main menu even
        when a room was suggested for the next week; otherwise the rooms
        found are offered. */
    method SearchForBooking(checkIn: Date, checkOut: Date) returns (step: SearchStep)
      ensures step == ReenterDates <==> checkIn > checkOut
      ensures step.BackToMainMenu? <==>
        checkIn <= checkOut && AvailableRooms(RegisteredRooms(), StoredReservations(), checkIn, checkOut) == map[]
      ensures step.ChooseRoom? ==>
        step.offered == AvailableRooms(RegisteredRooms(), StoredReservations(), checkIn, checkOut).Values && step.offered != {}
    {
      if checkIn > checkOut {
        return ReenterDates;
      }
      var availableRooms, suggestion := FindAvailableRooms(checkIn, checkOut);
      if availableRooms == {} {
        return BackToMainMenu(suggestion);
      }
      return ChooseRoom(availableRooms);
    }

    /** The registered rooms. */
    function RegisteredRooms(): map<RoomNumber, Room>
      reads hotelResource, hotelResource.reservationService
    {
      hotelResource.reservationService.rooms
    }

    /** The stored reservations. */
    function StoredReservations(): set<Reservation>
      reads hotelResource, hotelResource.reservationService
    {
      hotelResource.reservationService.reservations
    }
  }

  /** The membership test of `readRoomNumberToBook`: walks the offered rooms
      in order and stops at the first whose number equals the input. A room
      without a number met before that throws, as `getRoomNumber().equals`
      dereferences null. */
  method IsOfferedRoom(offered: seq<Room>, input: string) returns (result: Outcome<bool>)
    ensures result.Throw? <==> exists i :: 0 <= i < |offered| && offered[i].number.Null? && NoMatchBefore(offered, input, i)
    ensures result.Throw? ==> result.exception == NullPointerException
    ensures result == Return(true) <==>
      exists i :: 0 <= i < |offered| && offered[i].number == Value(input) && NoNullBefore(offered, i)
    ensures (forall i :: 0 <= i < |offered| ==> offered[i].number.Value?) ==>
      result == Return(exists i :: 0 <= i < |offered| && offered[i].number == Value(input))
  {
    var isAvailableRoom := false;
    for i := 0 to |offered|
      invariant NoMatchBefore(offered, input, i) && NoNullBefore(offered, i)
    {
      if offered[i].number.Null? {
        return Throw(NullPointerException);
      }
      if offered[i].number.value == input {
        isAvailableRoom := true;
        break;
      }
    }
    return Return(isAvailableRoom);
  }

  /** No room before position `i` has the number `input`. */
  predicate NoMatchBefore(offered: seq<Room>, input: string, i: int)
    requires 0 <= i <= |offered|
  {
    forall j :: 0 <= j < i ==> offered[j].number != Value(input)
  }

  /** Every room before position `i` has a number. */
  predicate NoNullBefore(offered: seq<Room>, i: int)
    requires 0 <= i <= |offered|
  {
    forall j :: 0 <= j < i ==> offered[j].number.Value?
  }
}
