/** Records shared by the reservation engine (webapp/go/model.go), as values. */
module Model {

  /** Why a step of the engine gives up. */
  datatype Error =
    | StationNotFound     // a station lookup missed (sql.ErrNoRows)
    | UnknownTrainClass   // the train class is none of the three known ones
    | TrainClassNotUsable // the train class is not among those usable between the two stations
    | StationNotServed    // the train class does not stop at the requested station
    | RouteNotServed      // the requested segment leaves the train's run
    | SeatsUnavailable    // the ambiguous search found no car for the party
    | SeatNotFound        // an explicitly requested seat is not in the seat master
    | SeatConflict        // a requested seat is held by an overlapping journey
    | FareDataMissing     // no fare rule for the train and seat class
    | UnknownSeatClass    // the seat class is none of the three known ones
    | Panic               // the Go code panics (failed lookup inside a scan, bad slice bound)

  /** Outcome of a step that can fail. */
  datatype Result<+T> = Ok(value: T) | Err(error: Error) {
    predicate IsFailure() {
      Err?
    }

    function PropagateFailure<U>(): Result<U>
      requires Err?
    {
      Err(error)
    }

    function Extract(): T
      requires Ok?
    {
      value
    }
  }

  /** A station of the line; `id` is its ordinal along the line. */
  datatype Station = Station(
    id: int,
    name: string,
    distance: real,
    isStopExpress: bool,
    isStopSemiExpress: bool,
    isStopLocal: bool)

  /** Go's zero value `Station{}`. */
  const ZeroStation := Station(0, "", 0.0, false, false, false)

  /** One step of the distance fare table: `fare` applies from `distance` on. */
  datatype DistanceFare = DistanceFare(distance: real, fare: int)

  /** A fare multiplier that takes effect at `startDate` (local wall-clock seconds, the unit of every date in this model). */
  datatype Fare = Fare(trainClass: string, seatClass: string, startDate: int, multiplier: real)

  datatype Train = Train(
    trainClass: string,
    trainName: string,
    startStation: string,
    lastStation: string,
    isNobori: bool)

  /** A row of the seat master. */
  datatype Seat = Seat(
    trainClass: string,
    carNumber: int,
    column: string,
    row: int,
    seatClass: string,
    isSmoking: bool)

  /** The fields of a stored reservation the engine reads. */
  datatype Reservation = Reservation(id: int, departure: string, arrival: string)

  /** A seat held by a reservation. */
  datatype SeatReservation = SeatReservation(reservationId: int, carNumber: int, row: int, column: string)

  /** A stored reservation together with the seat rows it holds. */
  datatype Booking = Booking(reservation: Reservation, seats: seq<SeatReservation>)

  /** A seat of a car as shown to the client, with its occupancy. */
  datatype SeatInformation = SeatInformation(
    row: int,
    column: string,
    seatClass: string,
    isSmoking: bool,
    isOccupied: bool)

  /** A seat position requested by, or allocated to, a reservation. */
  datatype RequestSeat = RequestSeat(row: int, column: string)

  /** The requested journey on one train: direction and board/alight station ids. */
  datatype Trip = Trip(isNobori: bool, from: int, to: int)

  /** The parts of a reservation request the engine reads. */
  datatype ReservationRequest = ReservationRequest(
    trainClass: string,
    carNumber: int,
    isSmoking: bool,
    seatClass: string,
    adult: int,
    child: int,
    column: string,
    seats: seq<RequestSeat>)

  /** A car and the seats chosen in it. */
  datatype Allocation = Allocation(carNumber: int, seats: seq<RequestSeat>)

  const NonReserved := "non-reserved"
}
