/**
  The records the booking front-end passes around: stations and trains of the
  catalogue, passengers, bookings, and the two request shapes.
 */
module Types {
  import opened Base

  /** Booking status. The Booking type names only CONFIRMED and CANCELLED, but
      the booking views also test for WAITING, so all three are modelled. */
  datatype Status = Confirmed | Waiting | Cancelled

  datatype Station = Station(id: int, name: string, code: string)

  /** A train of the catalogue. `trainType` is read by the booking form to
      choose the class menu although the Train type does not declare it; no
      train of the catalogue carries one. */
  datatype Train = Train(
    id: int,
    name: string,
    sourceStationId: int,
    destinationStationId: int,
    totalSeats: int,
    availableSeats: Option<int>,
    trainType: Option<string>,
    sourceStation: Option<Station>,
    destinationStation: Option<Station>)

  datatype Passenger = Passenger(name: string, age: int, gender: string)

  /** A passenger as stored on a booking: the entered details plus the
      numbers the ledger assigns. */
  datatype PassengerWithSeat = PassengerWithSeat(info: Passenger, passengerId: int, seatNumber: int)

  /** A booking record. `bookingClass` and `totalAmount` are read by the
      history view although the Booking type does not declare them; the
      ledger never sets either. */
  datatype Booking = Booking(
    bookingId: int,
    pnr: string,
    userId: int,
    trainId: int,
    bookingDate: string,
    travelDate: string,
    status: Status,
    train: Option<Train>,
    passengers: Option<seq<PassengerWithSeat>>,
    bookingClass: Option<string>,
    totalAmount: Option<int>)

  datatype SearchParams = SearchParams(from: string, to: string, date: string)

  /** What the booking form sends to the ledger. */
  datatype BookingRequest = BookingRequest(
    userId: int,
    trainId: int,
    travelDate: string,
    passengers: seq<Passenger>,
    bookingClass: string)
}
