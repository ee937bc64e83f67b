/** trainReservationHandler of webapp/go/reserve_handler.go as one pipeline:
    station lookups, the stop-flag and route checks, the choice of seats
    (ambiguous search or explicit seats), the duplicate check, the dummy
    seats of a non-reserved request, and the charged amount. The database
    rows it reads are given as values. */
module Reserve {
  import opened Model
  import opened StationCache
  import opened Journey
  import opened Allocation
  import opened SeatUniqueness
  import opened SeatCheck
  import opened Fares

  const Premium := "premium"
  const Reserved := "reserved"

  /** The rows the handler reads: the seat master, the train's stored
      reservations with their seat rows, the distance fare table (sorted by
      distance) and the fare master. */
  datatype Tables = Tables(layout: seq<Seat>, bookings: seq<Booking>, steps: seq<DistanceFare>, fares: seq<Fare>)

  /** What a successful reservation stores: the car, the seats and the amount. */
  datatype Booked = Booked(carNumber: int, seats: seq<RequestSeat>, amount: int)

  /** The multiplier rules of one train class and seat class, in table order. */
  function FaresOf(fares: seq<Fare>, trainClass: string, seatClass: string): (r: seq<Fare>)
    ensures forall k :: 0 <= k < |r| ==> r[k] in fares && r[k].trainClass == trainClass && r[k].seatClass == seatClass
    ensures forall k :: 0 <= k < |fares| && fares[k].trainClass == trainClass && fares[k].seatClass == seatClass ==> fares[k] in r
    ensures |r| <= |fares|
  {
    if fares == [] then []
    else
      var n := |fares| - 1;
      var f := fares[n];
      FaresOf(fares[..n], trainClass, seatClass) + (if f.trainClass == trainClass && f.seatClass == seatClass then [f] else [])
  }

  /** One more row at the end of the table adds it at the end of the rules
      when it matches. */
  lemma FaresOfSnoc(fares: seq<Fare>, f: Fare, trainClass: string, seatClass: string)
    ensures FaresOf(fares + [f], trainClass, seatClass) ==
      FaresOf(fares, trainClass, seatClass) + (if f.trainClass == trainClass && f.seatClass == seatClass then [f] else [])
  {
    assert (fares + [f])[..|fares|] == fares;
  }

  /** The filter keeps table order: filtering two tables one after the other
      is filtering their concatenation. */
  lemma {:induction false} FaresOfKeepsOrder(a: seq<Fare>, b: seq<Fare>, trainClass: string, seatClass: string)
    ensures FaresOf(a + b, trainClass, seatClass) == FaresOf(a, trainClass, seatClass) + FaresOf(b, trainClass, seatClass)
    decreases |b|
  {
    if b == [] {
      assert a + b == a;
    } else {
      var n := |b| - 1;
      var f := b[n];
      assert b == b[..n] + [f];
      assert a + b == (a + b[..n]) + [f];
      FaresOfKeepsOrder(a, b[..n], trainClass, seatClass);
      FaresOfSnoc(a + b[..n], f, trainClass, seatClass);
      FaresOfSnoc(b[..n], f, trainClass, seatClass);
    }
  }

  /** The journey of the request on `train`: the train's first and last
      stations and the requested stations are looked up by name, the train
      class must stop at both requested stations, and the requested segment
      must lie on the train's run. */
  function Route(cache: StationMaster, train: Train, req: ReservationRequest, departure: string, arrival: string): Result<Trip>
    reads cache
  {
    var departureStation :- cache.FetchByName(train.startStation);
    var arrivalStation :- cache.FetchByName(train.lastStation);
    var fromStation :- cache.FetchByName(departure);
    var toStation :- cache.FetchByName(arrival);
    var _ :- CheckStops(req.trainClass, fromStation, toStation);
    var _ :- CheckRoute(train.isNobori, fromStation.id, toStation.id, departureStation.id, arrivalStation.id);
    Ok(Trip(train.isNobori, fromStation.id, toStation.id))
  }

  /** The car and seats the request goes on with. A request without seats
      searches for them, unless it is non-reserved; a request with seats
      keeps them once each is found in the seat master. `usable` says
      whether the train class is among those usable between the two
      stations. */
  function Choose(cache: StationMaster, trip: Trip, t: Tables, req: ReservationRequest, usable: bool): Result<(int, seq<RequestSeat>)>
    reads cache
  {
    if |req.seats| == 0 then
      if req.seatClass == NonReserved then Ok((req.carNumber, req.seats))
      else if !usable then Err(TrainClassNotUsable)
      else
        var a :- Allocate(cache, trip, t.bookings, t.layout, req);
        Ok((a.carNumber, a.seats))
    else if forall k :: 0 <= k < |req.seats| ==> InMaster(t.layout, req.trainClass, req.carNumber, req.seatClass, req.seats[k]) then
      Ok((req.carNumber, req.seats))
    else Err(SeatNotFound)
  }

  /** `n` dummy seats of row 0 and no column (none when `n <= 0`). */
  function Dummies(n: int): (r: seq<RequestSeat>)
    ensures |r| == if n > 0 then n else 0
    ensures forall k :: 0 <= k < |r| ==> r[k] == RequestSeat(0, "")
  {
    if n <= 0 then [] else Dummies(n - 1) + [RequestSeat(0, "")]
  }

  /** A list of the right length made only of dummy seats is the dummy list. */
  lemma AllDummies(seats: seq<RequestSeat>, n: int)
    requires |seats| == (if n > 0 then n else 0)
    requires forall k :: 0 <= k < |seats| ==> seats[k] == RequestSeat(0, "")
    ensures seats == Dummies(n)
  {
  }

  /** The one-passenger fare of the request's seat class. */
  function ClassFare(cache: StationMaster, date: int, trip: Trip, t: Tables, trainClass: string, seatClass: string): Result<int>
    reads cache
  {
    if seatClass in {Premium, Reserved, NonReserved} then
      Price(cache, date, trip.from, trip.to, t.steps, FaresOf(t.fares, trainClass, seatClass))
    else Err(UnknownSeatClass)
  }

  /** The handler once the seats are chosen: the duplicate check, the dummy
      seats of a non-reserved request and the amount. */
  function Confirm(cache: StationMaster, trip: Trip, t: Tables, req: ReservationRequest, date: int, chosenCar: int, chosenSeats: seq<RequestSeat>): Result<Booked>
    reads cache
  {
    var _ :- DuplicateFrom(cache, trip, t.bookings, req.seatClass, chosenCar, chosenSeats, 0);
    var car := if req.seatClass == NonReserved then 0 else chosenCar;
    var seats := if req.seatClass == NonReserved then Dummies(req.adult + req.child) else chosenSeats;
    var fare :- ClassFare(cache, date, trip, t, req.trainClass, req.seatClass);
    Ok(Booked(car, seats, ReservationAmount(fare, req.adult, req.child)))
  }

  /** The handler after the route checks: the seat choice, then the rest. */
  function Book(cache: StationMaster, trip: Trip, t: Tables, req: ReservationRequest, date: int, usable: bool): Result<Booked>
    reads cache
  {
    var chosen :- Choose(cache, trip, t, req, usable);
    Confirm(cache, trip, t, req, date, chosen.0, chosen.1)
  }

  /** The whole handler, from the request to what it stores. */
  function Reserve(cache: StationMaster, train: Train, t: Tables, req: ReservationRequest, departure: string, arrival: string, date: int, usable: bool): Result<Booked>
    reads cache
  {
    var trip :- Route(cache, train, req, departure, arrival);
    Book(cache, trip, t, req, date, usable)
  }

  /** The switch on the number of requested seats: the ambiguous search, or
      the validation of the seats given. */
  method ChooseSeats(cache: StationMaster, trip: Trip, t: Tables, req: ReservationRequest, usable: bool)
    returns (r: Result<(int, seq<RequestSeat>)>)
    ensures r == Choose(cache, trip, t, req, usable)
  {
    if |req.seats| == 0 {
      if req.seatClass == NonReserved {
        // non-reserved requests skip the search and keep the empty seat list
        return Ok((req.carNumber, req.seats));
      }
      if !usable {
        return Err(TrainClassNotUsable);
      }
      var a :- AllocateSeats(cache, trip, t.bookings, t.layout, req);
      return Ok((a.carNumber, a.seats));
    }
    var _ :- ValidateSeats(t.layout, req.trainClass, req.carNumber, req.seatClass, req.seats);
    return Ok((req.carNumber, req.seats));
  }

  /** The switch on the seat class that computes the one-passenger fare. */
  method SeatClassFare(cache: StationMaster, date: int, trip: Trip, t: Tables, trainClass: string, seatClass: string)
    returns (r: Result<int>)
    ensures r == ClassFare(cache, date, trip, t, trainClass, seatClass)
  {
    if seatClass == Premium {
      r := FareCalc(cache, date, trip.from, trip.to, t.steps, FaresOf(t.fares, trainClass, Premium));
    } else if seatClass == Reserved {
      r := FareCalc(cache, date, trip.from, trip.to, t.steps, FaresOf(t.fares, trainClass, Reserved));
    } else if seatClass == NonReserved {
      r := FareCalc(cache, date, trip.from, trip.to, t.steps, FaresOf(t.fares, trainClass, NonReserved));
    } else {
      r := Err(UnknownSeatClass);
    }
  }

  /** The handler from the duplicate check to the amount, step by step. */
  method ConfirmSeats(cache: StationMaster, trip: Trip, t: Tables, req: ReservationRequest, date: int, chosenCar: int, chosenSeats: seq<RequestSeat>)
    returns (r: Result<Booked>)
    ensures r == Confirm(cache, trip, t, req, date, chosenCar, chosenSeats)
  {
    var _ :- CheckDuplicates(cache, trip, t.bookings, req.seatClass, chosenCar, chosenSeats);
    var car, seats := NonReservedSeats(req.seatClass, req.adult, req.child, chosenCar, chosenSeats);
    if req.seatClass == NonReserved {
      AllDummies(seats, req.adult + req.child);
    }
    var fare :- SeatClassFare(cache, date, trip, t, req.trainClass, req.seatClass);
    // adults pay the fare, children half of it, the half taken once
    var sumFare := ReservationAmount(fare, req.adult, req.child);
    return Ok(Booked(car, seats, sumFare));
  }

  /** The handler from the seat choice to the amount. */
  method BookSeats(cache: StationMaster, trip: Trip, t: Tables, req: ReservationRequest, date: int, usable: bool)
    returns (r: Result<Booked>)
    ensures r == Book(cache, trip, t, req, date, usable)
  {
    var chosen :- ChooseSeats(cache, trip, t, req, usable);
    r := ConfirmSeats(cache, trip, t, req, date, chosen.0, chosen.1);
  }

  /** trainReservationHandler, step by step. */
  method TrainReservation(cache: StationMaster, train: Train, t: Tables, req: ReservationRequest, departure: string, arrival: string, date: int, usable: bool)
    returns (r: Result<Booked>)
    ensures r == Reserve(cache, train, t, req, departure, arrival, date, usable)
  {
    var trip :- Route(cache, train, req, departure, arrival);
    r := BookSeats(cache, trip, t, req, date, usable);
  }

  /** A reservation goes through only for a train class that stops at both
      requested stations and a segment on the train's run. */
  lemma RouteChecked(cache: StationMaster, train: Train, req: ReservationRequest, departure: string, arrival: string)
    requires Route(cache, train, req, departure, arrival).Ok?
    ensures train.startStation in cache.byName && train.lastStation in cache.byName
    ensures departure in cache.byName && arrival in cache.byName
    ensures var from := cache.byName[departure];
      var to := cache.byName[arrival];
      req.trainClass in {Express, SemiExpress, Local} &&
      StopsAt(req.trainClass, from) && StopsAt(req.trainClass, to) &&
      CheckRoute(train.isNobori, from.id, to.id, cache.byName[train.startStation].id, cache.byName[train.lastStation].id).Ok? &&
      Route(cache, train, req, departure, arrival) == Ok(Trip(train.isNobori, from.id, to.id))
  {
  }

  /** A reserved or premium reservation never shares a seat of its car with
      a stored reservation whose journey overlaps its own. */
  lemma ReservedSeatsAreNotShared(cache: StationMaster, train: Train, t: Tables, req: ReservationRequest, departure: string, arrival: string, date: int, usable: bool)
    requires req.seatClass != NonReserved
    requires Reserve(cache, train, t, req, departure, arrival, date, usable).Ok?
    ensures var b := Reserve(cache, train, t, req, departure, arrival, date, usable).value;
      var trip := Route(cache, train, req, departure, arrival).value;
      forall k, m, j ::
        (0 <= k < |t.bookings| && 0 <= m < |t.bookings[k].seats| && 0 <= j < |b.seats| &&
          BookingConflicts(cache, trip, t.bookings[k]) && t.bookings[k].seats[m].carNumber == b.carNumber) ==>
          !(t.bookings[k].seats[m].row == b.seats[j].row && t.bookings[k].seats[m].column == b.seats[j].column)
  {
    var trip := Route(cache, train, req, departure, arrival).value;
    var chosen := Choose(cache, trip, t, req, usable).value;
    PassedCheckHasNoSharedSeat(cache, trip, t.bookings, req.seatClass, chosen.0, chosen.1);
  }

  /** A request without seats that is not non-reserved gets exactly
      `adult + child` free seats in one car from 1 to 16, no seat twice when
      the seat master has one row per seat. */
  lemma AmbiguousReservation(cache: StationMaster, train: Train, t: Tables, req: ReservationRequest, departure: string, arrival: string, date: int, usable: bool)
    requires |req.seats| == 0 && req.seatClass != NonReserved
    requires Reserve(cache, train, t, req, departure, arrival, date, usable).Ok?
    ensures var b := Reserve(cache, train, t, req, departure, arrival, date, usable).value;
      var trip := Route(cache, train, req, departure, arrival).value;
      usable && 1 <= b.carNumber <= MaxCar && |b.seats| == req.adult + req.child &&
      Allocate(cache, trip, t.bookings, t.layout, req) == Ok(Allocation(b.carNumber, b.seats)) &&
      (UniqueSeats(t.layout) ==> Distinct(b.seats))
  {
    var trip := Route(cache, train, req, departure, arrival).value;
    AllocateSucceeds(cache, trip, t.bookings, t.layout, req);
    if UniqueSeats(t.layout) {
      AllocatedSeatsAreDistinct(cache, trip, t.bookings, t.layout, req);
    }
  }

  /** A request with seats keeps its car and seats, each of which the seat
      master has for its train class, car and seat class. */
  lemma ExplicitReservation(cache: StationMaster, train: Train, t: Tables, req: ReservationRequest, departure: string, arrival: string, date: int, usable: bool)
    requires |req.seats| > 0 && req.seatClass != NonReserved
    requires Reserve(cache, train, t, req, departure, arrival, date, usable).Ok?
    ensures var b := Reserve(cache, train, t, req, departure, arrival, date, usable).value;
      b.carNumber == req.carNumber && b.seats == req.seats &&
      forall k :: 0 <= k < |b.seats| ==> InMaster(t.layout, req.trainClass, req.carNumber, req.seatClass, b.seats[k])
  {
  }

  /** A non-reserved reservation is stored in car 0 with `adult + child`
      dummy seats, whatever seats it asked for. */
  lemma NonReservedReservation(cache: StationMaster, train: Train, t: Tables, req: ReservationRequest, departure: string, arrival: string, date: int, usable: bool)
    requires req.seatClass == NonReserved
    requires Reserve(cache, train, t, req, departure, arrival, date, usable).Ok?
    ensures var b := Reserve(cache, train, t, req, departure, arrival, date, usable).value;
      b.carNumber == 0 && |b.seats| == (if req.adult + req.child > 0 then req.adult + req.child else 0) &&
      forall k :: 0 <= k < |b.seats| ==> b.seats[k] == RequestSeat(0, "")
  {
  }

  /** The amount charged is the reservation total of the seat class's fare
      for the journey, and the seat class is one of the three known ones. */
  lemma ChargedAmount(cache: StationMaster, train: Train, t: Tables, req: ReservationRequest, departure: string, arrival: string, date: int, usable: bool)
    requires Reserve(cache, train, t, req, departure, arrival, date, usable).Ok?
    ensures var b := Reserve(cache, train, t, req, departure, arrival, date, usable).value;
      var trip := Route(cache, train, req, departure, arrival).value;
      req.seatClass in {Premium, Reserved, NonReserved} &&
      Price(cache, date, trip.from, trip.to, t.steps, FaresOf(t.fares, req.trainClass, req.seatClass)).Ok? &&
      b.amount == ReservationAmount(Price(cache, date, trip.from, trip.to, t.steps, FaresOf(t.fares, req.trainClass, req.seatClass)).value, req.adult, req.child)
  {
  }
}
