/** Seat occupancy and the ambiguous seat search of trainReservationHandler
    (webapp/go/reserve_handler.go): cars 1 to 16 are scanned in order, each
    car's free seats are worked out against the stored reservations, and the
    first car that seats the whole party is taken. */
module Allocation {
  import opened Model
  import opened StationCache
  import opened Journey

  /** Number of cars the search scans. */
  const MaxCar := 16

  /** Board and alight station ids of a stored reservation, looked up by name. */
  function ResolveJourney(cache: StationMaster, r: Reservation): (j: Result<(int, int)>)
    reads cache
    ensures j.Ok? <==> r.departure in cache.byName && r.arrival in cache.byName
    ensures j.Err? ==> j.error == StationNotFound
    ensures j.Ok? ==> j.value == (cache.byName[r.departure].id, cache.byName[r.arrival].id)
  {
    var dep :- cache.FetchByName(r.departure);
    var arr :- cache.FetchByName(r.arrival);
    Ok((dep.id, arr.id))
  }

  /** `b` holds the seat at `row`/`column` of car `car`. */
  predicate Holds(b: Booking, car: int, row: int, column: string)
  {
    exists k :: 0 <= k < |b.seats| && b.seats[k].carNumber == car && b.seats[k].row == row && b.seats[k].column == column
  }

  /** `b` resolves and its journey conflicts with `trip`. */
  predicate BookingConflicts(cache: StationMaster, trip: Trip, b: Booking)
    reads cache
  {
    var j := ResolveJourney(cache, b.reservation);
    j.Ok? && Conflicts(trip.isNobori, trip.from, trip.to, j.value.0, j.value.1)
  }

  /** Occupancy of one seat for `trip`: the scan panics when a reservation
      holding the seat names an unknown station; otherwise the seat is occupied
      exactly when some reservation holding it conflicts with the trip. */
  function SeatOccupancy(cache: StationMaster, trip: Trip, bookings: seq<Booking>, car: int, row: int, column: string): Result<bool>
    reads cache
  {
    if exists i :: 0 <= i < |bookings| && Holds(bookings[i], car, row, column) && ResolveJourney(cache, bookings[i].reservation).Err? then
      Err(Panic)
    else
      Ok(exists i :: 0 <= i < |bookings| && Holds(bookings[i], car, row, column) && BookingConflicts(cache, trip, bookings[i]))
  }

  /** The scan over the reservations holding one seat, setting `IsOccupied`. */
  method MarkOccupancy(cache: StationMaster, trip: Trip, bookings: seq<Booking>, car: int, row: int, column: string)
    returns (r: Result<bool>)
    ensures r == SeatOccupancy(cache, trip, bookings, car, row, column)
  {
    var occupied := false;
    for i := 0 to |bookings|
      invariant forall k :: 0 <= k < i && Holds(bookings[k], car, row, column) ==> ResolveJourney(cache, bookings[k].reservation).Ok?
      invariant occupied <==> exists k :: 0 <= k < i && Holds(bookings[k], car, row, column) && BookingConflicts(cache, trip, bookings[k])
    {
      var b := bookings[i];
      if Holds(b, car, row, column) {
        var j := ResolveJourney(cache, b.reservation);
        if j.Err? {
          return Err(Panic);
        }
        if Conflicts(trip.isNobori, trip.from, trip.to, j.value.0, j.value.1) {
          occupied := true;
        }
      }
    }
    return Ok(occupied);
  }

  /** The seat as shown, with its occupancy. */
  function Info(s: Seat, occupied: bool): SeatInformation
  {
    SeatInformation(s.row, s.column, s.seatClass, s.isSmoking, occupied)
  }

  /** Occupancy of every seat of a car, in seat order; a seat whose scan
      panics makes the whole car panic. */
  function CarInformation(cache: StationMaster, trip: Trip, bookings: seq<Booking>, seats: seq<Seat>): Result<seq<SeatInformation>>
    reads cache
  {
    if seats == [] then Ok([])
    else
      var n := |seats| - 1;
      var init :- CarInformation(cache, trip, bookings, seats[..n]);
      var s := seats[n];
      var occupied :- SeatOccupancy(cache, trip, bookings, s.carNumber, s.row, s.column);
      Ok(init + [Info(s, occupied)])
  }

  /** A car's occupancy lists every seat of the car, in order, each marked as
      its own scan finds it, and panics exactly when some seat's scan does. */
  lemma {:induction false} CarInformationMeaning(cache: StationMaster, trip: Trip, bookings: seq<Booking>, seats: seq<Seat>)
    ensures var r := CarInformation(cache, trip, bookings, seats);
      (r.Ok? <==> forall k :: 0 <= k < |seats| ==> SeatOccupancy(cache, trip, bookings, seats[k].carNumber, seats[k].row, seats[k].column).Ok?) &&
      (r.Err? ==> r.error == Panic) &&
      (r.Ok? ==> |r.value| == |seats| && forall k :: 0 <= k < |seats| ==>
        r.value[k] == Info(seats[k], SeatOccupancy(cache, trip, bookings, seats[k].carNumber, seats[k].row, seats[k].column).value))
  {
    if seats != [] {
      var n := |seats| - 1;
      CarInformationMeaning(cache, trip, bookings, seats[..n]);
      assert forall k :: 0 <= k < n ==> seats[..n][k] == seats[k];
    }
  }

  /** The seat loop of one car, appending to `seatInformationList`. */
  method CarAvailability(cache: StationMaster, trip: Trip, bookings: seq<Booking>, seats: seq<Seat>)
    returns (r: Result<seq<SeatInformation>>)
    ensures r == CarInformation(cache, trip, bookings, seats)
  {
    var infos: seq<SeatInformation> := [];
    for i := 0 to |seats|
      invariant CarInformation(cache, trip, bookings, seats[..i]) == Ok(infos)
    {
      var s := seats[i];
      assert seats[..i + 1][..i] == seats[..i];
      var occupied := MarkOccupancy(cache, trip, bookings, s.carNumber, s.row, s.column);
      if occupied.Err? {
        CarInformationMeaning(cache, trip, bookings, seats);
        return Err(Panic);
      }
      infos := infos + [Info(s, occupied.value)];
    }
    assert seats[..|seats|] == seats;
    return Ok(infos);
  }

  /** The position of a seat. */
  function Position(s: SeatInformation): RequestSeat
  {
    RequestSeat(s.row, s.column)
  }

  /** Index of the first free seat in column `column`, or `|infos|` when the
      column has no free seat. */
  function VagueIndex(infos: seq<SeatInformation>, column: string): (v: int)
    ensures 0 <= v <= |infos|
    ensures v < |infos| ==> infos[v].column == column && !infos[v].isOccupied
    ensures forall k :: 0 <= k < v ==> !(infos[k].column == column && !infos[k].isOccupied)
  {
    if infos == [] then 0
    else
      var n := |infos| - 1;
      var v := VagueIndex(infos[..n], column);
      assert forall k :: 0 <= k < n ==> infos[..n][k] == infos[k];
      if v < n then v
      else if infos[n].column == column && !infos[n].isOccupied then n
      else |infos|
  }

  /** Positions of the free seats of `infos`, in seat order, leaving out index `skip`. */
  function FreeExcept(infos: seq<SeatInformation>, skip: int): seq<RequestSeat>
  {
    if infos == [] then []
    else
      var n := |infos| - 1;
      FreeExcept(infos[..n], skip) + (if !infos[n].isOccupied && n != skip then [Position(infos[n])] else [])
  }

  /** The first `n` elements of `s` (all of `s` when it is shorter, none when `n <= 0`). */
  function Take<T>(s: seq<T>, n: int): (r: seq<T>)
    ensures |r| == if n <= 0 then 0 else if n < |s| then n else |s|
    ensures forall k :: 0 <= k < |r| ==> r[k] == s[k]
  {
    if n <= 0 then [] else if n < |s| then s[..n] else s
  }

  /** The seats a car yields for a party of `party`. With no preferred column,
      the first `party` free seats. With one, the first free seat of that
      column (if any) followed by the first `party - 1` other free seats. */
  function CarPicks(infos: seq<SeatInformation>, column: string, party: int): seq<RequestSeat>
  {
    if column == "" then Take(FreeExcept(infos, |infos|), party)
    else
      var v := VagueIndex(infos, column);
      (if v < |infos| then [Position(infos[v])] else []) + Take(FreeExcept(infos, v), party - 1)
  }

  lemma TakeSnoc<T>(s: seq<T>, e: T, n: int)
    ensures Take(s + [e], n) == if |s| < n then s + [e] else Take(s, n)
  {
    if n > 0 && n <= |s| {
      assert (s + [e])[..n] == s[..n];
    }
  }

  /** One more seat scanned adds its position to the candidates when it is
      free, not the one set aside, and fewer than `n` are taken so far. */
  lemma CandidateStep(infos: seq<SeatInformation>, skip: int, n: int, k: int)
    requires 0 <= k < |infos|
    ensures var before := Take(FreeExcept(infos[..k], skip), n);
      Take(FreeExcept(infos[..k + 1], skip), n) ==
        if !infos[k].isOccupied && k != skip && |before| < n then before + [Position(infos[k])] else before
  {
    assert infos[..k + 1][..k] == infos[..k];
    var free := FreeExcept(infos[..k], skip);
    assert FreeExcept(infos[..k + 1], skip) == free + (if !infos[k].isOccupied && k != skip then [Position(infos[k])] else []);
    if !infos[k].isOccupied && k != skip {
      TakeSnoc(free, Position(infos[k]), n);
    }
  }

  /** While no preferred seat has been found, the seat scanned is the
      preferred one exactly when it is a free seat of the column. */
  lemma VagueStep(infos: seq<SeatInformation>, column: string, k: int)
    requires 0 <= k < |infos| && k <= VagueIndex(infos, column)
    ensures (infos[k].column == column && !infos[k].isOccupied) <==> VagueIndex(infos, column) == k
  {
  }

  /** The candidate loop of one car: the seat of the preferred column is set
      aside first, every other free seat is a candidate while fewer than
      `seatnum` have been taken. */
  method PickSeats(infos: seq<SeatInformation>, column: string, adult: int, child: int) returns (seats: seq<RequestSeat>)
    ensures seats == CarPicks(infos, column, adult + child)
  {
    var reserved := false;
    var vargue := true;
    var seatnum := adult + child - 1;
    if column == "" {
      seatnum := adult + child;
      reserved := true;
      vargue := false;
    }
    var vagueSeat := RequestSeat(0, "");
    var candidates: seq<RequestSeat> := [];
    var i := 0;
    ghost var skip := if column == "" then |infos| else VagueIndex(infos, column);
    for k := 0 to |infos|
      invariant vargue <==> column != ""
      invariant column == "" ==> reserved
      invariant column != "" ==> (reserved <==> skip < k)
      invariant column != "" && reserved ==> skip < |infos| && vagueSeat == Position(infos[skip])
      invariant candidates == Take(FreeExcept(infos[..k], skip), seatnum)
      invariant i == |candidates|
    {
      var seat := infos[k];
      CandidateStep(infos, skip, seatnum, k);
      if column != "" && !reserved {
        VagueStep(infos, column, k);
      }
      if seat.column == column && !seat.isOccupied && !reserved && vargue {
        vagueSeat := RequestSeat(seat.row, seat.column);
        reserved := true;
      } else if !seat.isOccupied && i < seatnum {
        candidates := candidates + [RequestSeat(seat.row, seat.column)];
        i := i + 1;
      }
    }
    assert infos[..|infos|] == infos;
    seats := [];
    if vargue && reserved {
      seats := seats + [vagueSeat];
    }
    if i > 0 {
      seats := seats + candidates;
    }
  }

  /** Seats of car `car` matching the request's class and smoking flag, in
      the order of `layout`. The query reads them ordered by row, then
      column; `layout` is taken to be the seat master in that order. */
  function CarSeats(layout: seq<Seat>, trainClass: string, car: int, seatClass: string, isSmoking: bool): seq<Seat>
  {
    if layout == [] then []
    else
      var n := |layout| - 1;
      var s := layout[n];
      CarSeats(layout[..n], trainClass, car, seatClass, isSmoking) +
        (if s.trainClass == trainClass && s.carNumber == car && s.seatClass == seatClass && s.isSmoking == isSmoking then [s] else [])
  }

  /** The seats of a car are exactly the seat-master rows of that train class,
      car, seat class and smoking flag. */
  lemma {:induction false} CarSeatsMeaning(layout: seq<Seat>, trainClass: string, car: int, seatClass: string, isSmoking: bool, s: Seat)
    ensures s in CarSeats(layout, trainClass, car, seatClass, isSmoking) <==>
      (s in layout && s.trainClass == trainClass && s.carNumber == car && s.seatClass == seatClass && s.isSmoking == isSmoking)
  {
    if layout != [] {
      var n := |layout| - 1;
      CarSeatsMeaning(layout[..n], trainClass, car, seatClass, isSmoking, s);
      assert layout == layout[..n] + [layout[n]];
    }
  }

  /** The occupancy of car `car` for the request. */
  function CarInfos(cache: StationMaster, trip: Trip, bookings: seq<Booking>, layout: seq<Seat>, req: ReservationRequest, car: int): Result<seq<SeatInformation>>
    reads cache
  {
    CarInformation(cache, trip, bookings, CarSeats(layout, req.trainClass, car, req.seatClass, req.isSmoking))
  }

  /** What car `car` yields for the request, or the panic of its occupancy scan. */
  function CarCandidates(cache: StationMaster, trip: Trip, bookings: seq<Booking>, layout: seq<Seat>, req: ReservationRequest, car: int): Result<seq<RequestSeat>>
    reads cache
  {
    var infos :- CarInfos(cache, trip, bookings, layout, req, car);
    Ok(CarPicks(infos, req.column, req.adult + req.child))
  }

  /** What each car from `car` to 16 yields, car `car` first. */
  function CarResults(cache: StationMaster, trip: Trip, bookings: seq<Booking>, layout: seq<Seat>, req: ReservationRequest, car: int): (r: seq<Result<seq<RequestSeat>>>)
    requires 1 <= car <= MaxCar + 1
    reads cache
    ensures |r| == MaxCar + 1 - car
    ensures forall k :: 0 <= k < |r| ==> r[k] == CarCandidates(cache, trip, bookings, layout, req, car + k)
    decreases MaxCar + 1 - car
  {
    if car > MaxCar then []
    else [CarCandidates(cache, trip, bookings, layout, req, car)] + CarResults(cache, trip, bookings, layout, req, car + 1)
  }

  /** First fit over the cars' yields, from index `k` (car `k + 1`) on. A car
      that yields fewer seats than the party is skipped; the first that yields
      enough gives its seats, cut to the party size (a negative size makes the
      slice panic, and a party of zero ends with an empty seat list, which the
      handler rejects). The last car failing ends the search. */
  function FirstFit(results: seq<Result<seq<RequestSeat>>>, party: int, k: int): Result<Allocation>
    requires 0 <= k < |results|
    decreases |results| - k
  {
    var picks :- results[k];
    if |picks| < party then
      if k == |results| - 1 then Err(SeatsUnavailable)
      else FirstFit(results, party, k + 1)
    else if party < 0 then Err(Panic)
    else if party == 0 then Err(SeatsUnavailable)
    else Ok(Allocation(k + 1, picks[..party]))
  }

  /** The ambiguous seat search over cars 1 to 16. */
  function Allocate(cache: StationMaster, trip: Trip, bookings: seq<Booking>, layout: seq<Seat>, req: ReservationRequest): Result<Allocation>
    reads cache
  {
    FirstFit(CarResults(cache, trip, bookings, layout, req, 1), req.adult + req.child, 0)
  }

  /** One step of the first fit: what car `k + 1`'s yield decides. */
  lemma FirstFitAt(results: seq<Result<seq<RequestSeat>>>, party: int, k: int)
    requires 0 <= k < |results|
    ensures results[k].Err? ==> FirstFit(results, party, k) == Err(results[k].error)
    ensures results[k].Ok? && |results[k].value| < party ==>
      FirstFit(results, party, k) == if k + 1 < |results| then FirstFit(results, party, k + 1) else Err(SeatsUnavailable)
    ensures results[k].Ok? && |results[k].value| >= party ==>
      FirstFit(results, party, k) ==
        if party < 0 then Err(Panic) else if party == 0 then Err(SeatsUnavailable) else Ok(Allocation(k + 1, results[k].value[..party]))
  {
  }

  /** The body of the car loop for car `carnum`: the occupancy of its seats,
      then the seats it yields. */
  method SearchCar(cache: StationMaster, trip: Trip, bookings: seq<Booking>, layout: seq<Seat>, req: ReservationRequest, carnum: int)
    returns (r: Result<seq<RequestSeat>>)
    ensures r == CarCandidates(cache, trip, bookings, layout, req, carnum)
  {
    var infos :- CarAvailability(cache, trip, bookings, CarSeats(layout, req.trainClass, carnum, req.seatClass, req.isSmoking));
    var seats := PickSeats(infos, req.column, req.adult, req.child);
    return Ok(seats);
  }

  /** The car loop of trainReservationHandler for a request without seats. */
  method AllocateSeats(cache: StationMaster, trip: Trip, bookings: seq<Booking>, layout: seq<Seat>, req: ReservationRequest)
    returns (r: Result<Allocation>)
    ensures r == Allocate(cache, trip, bookings, layout, req)
  {
    ghost var results := CarResults(cache, trip, bookings, layout, req, 1);
    var party := req.adult + req.child;
    ghost var target := FirstFit(results, party, 0);
    var carnum := 1;
    while carnum <= MaxCar
      invariant 1 <= carnum <= MaxCar + 1
      invariant carnum <= MaxCar ==> target == FirstFit(results, party, carnum - 1)
      invariant carnum == MaxCar + 1 ==> target == Err(SeatsUnavailable)
    {
      FirstFitAt(results, party, carnum - 1);
      var found := SearchCar(cache, trip, bookings, layout, req, carnum);
      assert results[carnum - 1] == found;
      var seats :- found;
      if |seats| >= party {
        // the loop breaks here: a negative party makes the slice panic, an
        // empty one leaves no seat and the handler rejects the request
        if party < 0 {
          return Err(Panic);
        } else if party == 0 {
          return Err(SeatsUnavailable);
        }
        return Ok(Allocation(carnum, seats[..party]));
      }
      carnum := carnum + 1;
    }
    return Err(SeatsUnavailable);
  }

  /** Number of free seats of a car. */
  function FreeCount(infos: seq<SeatInformation>): nat
  {
    |FreeExcept(infos, |infos|)|
  }

  /** Every seat `FreeExcept` lists is a free seat of the car other than `skip`. */
  lemma {:induction false} FreeExceptAreFree(infos: seq<SeatInformation>, skip: int, j: int)
    requires 0 <= j < |FreeExcept(infos, skip)|
    ensures exists k :: 0 <= k < |infos| && k != skip && !infos[k].isOccupied && Position(infos[k]) == FreeExcept(infos, skip)[j]
  {
    var n := |infos| - 1;
    var init := FreeExcept(infos[..n], skip);
    if j < |init| {
      FreeExceptAreFree(infos[..n], skip, j);
      var k :| 0 <= k < n && k != skip && !infos[..n][k].isOccupied && Position(infos[..n][k]) == init[j];
      assert infos[..n][k] == infos[k];
    } else {
      assert FreeExcept(infos, skip)[j] == Position(infos[n]);
    }
  }

  /** Leaving out one free seat lists exactly one seat fewer; leaving out an
      index that is no free seat changes nothing in the count. */
  lemma {:induction false} FreeExceptCount(infos: seq<SeatInformation>, skip: int)
    ensures 0 <= skip < |infos| && !infos[skip].isOccupied ==> |FreeExcept(infos, skip)| == FreeCount(infos) - 1
    ensures !(0 <= skip < |infos| && !infos[skip].isOccupied) ==> |FreeExcept(infos, skip)| == FreeCount(infos)
  {
    if infos != [] {
      var n := |infos| - 1;
      FreeExceptCount(infos[..n], skip);
      FreeExceptCount(infos[..n], n);
      FreeExceptSameBeyond(infos[..n], n, |infos|);
      if 0 <= skip < n {
        assert infos[..n][skip] == infos[skip];
      }
    }
  }

  /** Indices at or past the end are all alike to `FreeExcept`. */
  lemma {:induction false} FreeExceptSameBeyond(infos: seq<SeatInformation>, a: int, b: int)
    requires a >= |infos| && b >= |infos|
    ensures FreeExcept(infos, a) == FreeExcept(infos, b)
  {
    if infos != [] {
      FreeExceptSameBeyond(infos[..|infos| - 1], a, b);
    }
  }

  /** Every seat a car yields is a free seat of that car. */
  lemma PicksAreFree(infos: seq<SeatInformation>, column: string, party: int, j: int)
    requires 0 <= j < |CarPicks(infos, column, party)|
    ensures exists k :: 0 <= k < |infos| && !infos[k].isOccupied && Position(infos[k]) == CarPicks(infos, column, party)[j]
  {
    var picks := CarPicks(infos, column, party);
    if column == "" {
      FreeExceptAreFree(infos, |infos|, j);
    } else {
      var v := VagueIndex(infos, column);
      if v < |infos| && j == 0 {
        assert picks[0] == Position(infos[v]);
      } else {
        var off := if v < |infos| then 1 else 0;
        assert picks[j] == FreeExcept(infos, v)[j - off];
        FreeExceptAreFree(infos, v, j - off);
      }
    }
  }

  /** A car never yields more seats than the party, and with a preferred
      column that has no free seat it yields at most one seat fewer, so the
      car is skipped. */
  lemma PicksBound(infos: seq<SeatInformation>, column: string, party: int)
    requires party >= 1
    ensures |CarPicks(infos, column, party)| <= party
    ensures column != "" && VagueIndex(infos, column) == |infos| ==> |CarPicks(infos, column, party)| <= party - 1
  {
  }

  /** With a preferred column that has a free seat, the first seat yielded is
      the first free seat of that column in seat order. */
  lemma PreferredSeatFirst(infos: seq<SeatInformation>, column: string, party: int)
    requires column != ""
    requires exists k :: 0 <= k < |infos| && infos[k].column == column && !infos[k].isOccupied
    ensures |CarPicks(infos, column, party)| >= 1
    ensures exists k :: (0 <= k < |infos| && infos[k].column == column && !infos[k].isOccupied &&
      CarPicks(infos, column, party)[0] == Position(infos[k]) &&
      forall j :: 0 <= j < k ==> !(infos[j].column == column && !infos[j].isOccupied))
  {
    var v := VagueIndex(infos, column);
    var k :| 0 <= k < |infos| && infos[k].column == column && !infos[k].isOccupied;
    assert v <= k;
  }

  /** A car can seat the party exactly when it has at least `party` free seats
      and, if a column is preferred, a free seat in that column. */
  lemma {:induction false} CarFitsParty(infos: seq<SeatInformation>, column: string, party: int)
    requires party >= 1
    ensures |CarPicks(infos, column, party)| >= party <==>
      FreeCount(infos) >= party && (column != "" ==> exists k :: 0 <= k < |infos| && infos[k].column == column && !infos[k].isOccupied)
  {
    if column != "" {
      var v := VagueIndex(infos, column);
      FreeExceptCount(infos, v);
      if v == |infos| {
        FreeExceptSameBeyond(infos, v, |infos|);
      }
    }
  }

  /** A successful first fit names a car at or after `k + 1` and exactly
      `party` seats, all the ones that car yields, and every earlier car from
      `k + 1` on yielded fewer. */
  lemma {:induction false} FirstFitSucceeds(results: seq<Result<seq<RequestSeat>>>, party: int, k: int)
    requires 0 <= k < |results|
    requires FirstFit(results, party, k).Ok?
    requires forall c :: 0 <= c < |results| && results[c].Ok? ==> |results[c].value| <= party
    ensures var a := FirstFit(results, party, k).value;
      k + 1 <= a.carNumber <= |results| && party >= 1 &&
      results[a.carNumber - 1] == Ok(a.seats) && |a.seats| == party &&
      forall c :: k <= c < a.carNumber - 1 ==> results[c].Ok? && |results[c].value| < party
    decreases |results| - k
  {
    var picks := results[k].value;
    if |picks| < party {
      FirstFitSucceeds(results, party, k + 1);
    } else {
      assert picks[..party] == picks;
    }
  }

  /** A first fit for a party of at least one ends for lack of seats exactly
      when every car from `k + 1` on yields too few. */
  lemma {:induction false} FirstFitUnavailable(results: seq<Result<seq<RequestSeat>>>, party: int, k: int)
    requires 0 <= k < |results|
    requires party >= 1
    requires forall c :: 0 <= c < |results| && results[c].Err? ==> results[c].error == Panic
    ensures FirstFit(results, party, k) == Err(SeatsUnavailable) <==>
      forall c :: k <= c < |results| ==> results[c].Ok? && |results[c].value| < party
    decreases |results| - k
  {
    if results[k].Ok? && |results[k].value| < party && k < |results| - 1 {
      FirstFitUnavailable(results, party, k + 1);
      assert (forall c :: k <= c < |results| ==> results[c].Ok? && |results[c].value| < party) <==>
        (forall c :: k + 1 <= c < |results| ==> results[c].Ok? && |results[c].value| < party);
    }
  }

  /** No car yields more seats than a party of at least one. */
  lemma CarResultsBounded(cache: StationMaster, trip: Trip, bookings: seq<Booking>, layout: seq<Seat>, req: ReservationRequest, results: seq<Result<seq<RequestSeat>>>)
    requires req.adult + req.child >= 1
    requires results == CarResults(cache, trip, bookings, layout, req, 1)
    ensures forall c :: 0 <= c < |results| && results[c].Ok? ==> |results[c].value| <= req.adult + req.child
  {
    forall c | 0 <= c < |results| && results[c].Ok?
      ensures |results[c].value| <= req.adult + req.child
    {
      var infos := CarInfos(cache, trip, bookings, layout, req, c + 1).value;
      PicksBound(infos, req.column, req.adult + req.child);
    }
  }

  /** A car's yield fails only by the panic of its occupancy scan. */
  lemma CarResultsOnlyPanic(cache: StationMaster, trip: Trip, bookings: seq<Booking>, layout: seq<Seat>, req: ReservationRequest, results: seq<Result<seq<RequestSeat>>>)
    requires results == CarResults(cache, trip, bookings, layout, req, 1)
    ensures forall c :: 0 <= c < |results| && results[c].Err? ==> results[c].error == Panic
  {
    forall c | 0 <= c < |results| && results[c].Err?
      ensures results[c].error == Panic
    {
      CarInformationMeaning(cache, trip, bookings, CarSeats(layout, req.trainClass, c + 1, req.seatClass, req.isSmoking));
    }
  }

  /** Every seat a car yields is a free seat of that car. */
  lemma CandidatesAreFree(cache: StationMaster, trip: Trip, bookings: seq<Booking>, layout: seq<Seat>, req: ReservationRequest, car: int, j: int)
    requires CarCandidates(cache, trip, bookings, layout, req, car).Ok?
    requires 0 <= j < |CarCandidates(cache, trip, bookings, layout, req, car).value|
    ensures CarInfos(cache, trip, bookings, layout, req, car).Ok?
    ensures var infos := CarInfos(cache, trip, bookings, layout, req, car).value;
      exists k :: 0 <= k < |infos| && !infos[k].isOccupied && Position(infos[k]) == CarCandidates(cache, trip, bookings, layout, req, car).value[j]
  {
    PicksAreFree(CarInfos(cache, trip, bookings, layout, req, car).value, req.column, req.adult + req.child, j);
  }

  /** The whole search: on success, one car numbered 1 to 16 whose yield is
      exactly the `adult + child` seats given, and every lower-numbered car
      yields too few. */
  lemma AllocateSucceeds(cache: StationMaster, trip: Trip, bookings: seq<Booking>, layout: seq<Seat>, req: ReservationRequest)
    requires Allocate(cache, trip, bookings, layout, req).Ok?
    ensures var a := Allocate(cache, trip, bookings, layout, req).value;
      1 <= a.carNumber <= MaxCar &&
      |a.seats| == req.adult + req.child &&
      CarCandidates(cache, trip, bookings, layout, req, a.carNumber) == Ok(a.seats) &&
      forall c :: 1 <= c < a.carNumber ==>
        CarCandidates(cache, trip, bookings, layout, req, c).Ok? &&
        |CarCandidates(cache, trip, bookings, layout, req, c).value| < req.adult + req.child
  {
    var party := req.adult + req.child;
    var results := CarResults(cache, trip, bookings, layout, req, 1);
    FirstFitEmptyParty(results, party, 0);
    CarResultsBounded(cache, trip, bookings, layout, req, results);
    FirstFitSucceeds(results, party, 0);
    var a := Allocate(cache, trip, bookings, layout, req).value;
    assert results[a.carNumber - 1] == CarCandidates(cache, trip, bookings, layout, req, a.carNumber);
    forall c | 1 <= c < a.carNumber
      ensures CarCandidates(cache, trip, bookings, layout, req, c).Ok? &&
        |CarCandidates(cache, trip, bookings, layout, req, c).value| < party
    {
      assert results[c - 1] == CarCandidates(cache, trip, bookings, layout, req, c);
    }
  }

  /** Every seat the search allocates is a free seat of the car it names. */
  lemma AllocatedSeatsAreFree(cache: StationMaster, trip: Trip, bookings: seq<Booking>, layout: seq<Seat>, req: ReservationRequest)
    requires Allocate(cache, trip, bookings, layout, req).Ok?
    ensures var a := Allocate(cache, trip, bookings, layout, req).value;
      CarInfos(cache, trip, bookings, layout, req, a.carNumber).Ok? &&
      forall j :: 0 <= j < |a.seats| ==>
        var infos := CarInfos(cache, trip, bookings, layout, req, a.carNumber).value;
        exists k :: 0 <= k < |infos| && !infos[k].isOccupied && Position(infos[k]) == a.seats[j]
  {
    AllocateSucceeds(cache, trip, bookings, layout, req);
    var a := Allocate(cache, trip, bookings, layout, req).value;
    CandidatesAreFree(cache, trip, bookings, layout, req, a.carNumber, 0);
    forall j | 0 <= j < |a.seats|
      ensures var infos := CarInfos(cache, trip, bookings, layout, req, a.carNumber).value;
        exists k :: 0 <= k < |infos| && !infos[k].isOccupied && Position(infos[k]) == a.seats[j]
    {
      CandidatesAreFree(cache, trip, bookings, layout, req, a.carNumber, j);
    }
  }

  /** A party of at least one is refused for lack of seats exactly when no car
      from 1 to 16 can seat it (and no occupancy scan panics). */
  lemma AllocateUnavailable(cache: StationMaster, trip: Trip, bookings: seq<Booking>, layout: seq<Seat>, req: ReservationRequest)
    requires req.adult + req.child >= 1
    ensures Allocate(cache, trip, bookings, layout, req) == Err(SeatsUnavailable) <==>
      forall c :: 1 <= c <= MaxCar ==>
        CarCandidates(cache, trip, bookings, layout, req, c).Ok? &&
        |CarCandidates(cache, trip, bookings, layout, req, c).value| < req.adult + req.child
  {
    var results := CarResults(cache, trip, bookings, layout, req, 1);
    CarResultsOnlyPanic(cache, trip, bookings, layout, req, results);
    FirstFitUnavailable(results, req.adult + req.child, 0);
    assert forall c :: 1 <= c <= MaxCar ==> results[c - 1] == CarCandidates(cache, trip, bookings, layout, req, c);
  }

  /** When every car has fewer free seats than the party, the search fails. */
  lemma FullTrainIsRefused(cache: StationMaster, trip: Trip, bookings: seq<Booking>, layout: seq<Seat>, req: ReservationRequest)
    requires req.adult + req.child >= 1
    requires forall c :: 1 <= c <= MaxCar ==>
      CarInfos(cache, trip, bookings, layout, req, c).Ok? &&
      FreeCount(CarInfos(cache, trip, bookings, layout, req, c).value) < req.adult + req.child
    ensures Allocate(cache, trip, bookings, layout, req) == Err(SeatsUnavailable)
  {
    forall c | 1 <= c <= MaxCar
      ensures CarCandidates(cache, trip, bookings, layout, req, c).Ok? &&
        |CarCandidates(cache, trip, bookings, layout, req, c).value| < req.adult + req.child
    {
      CarFitsParty(CarInfos(cache, trip, bookings, layout, req, c).value, req.column, req.adult + req.child);
    }
    AllocateUnavailable(cache, trip, bookings, layout, req);
  }

  /** A request for no passenger, or for a negative number, never gets seats. */
  lemma {:induction false} FirstFitEmptyParty(results: seq<Result<seq<RequestSeat>>>, party: int, k: int)
    requires 0 <= k < |results|
    ensures party <= 0 ==> FirstFit(results, party, k).Err?
  {
  }

  lemma EmptyPartyIsRefused(cache: StationMaster, trip: Trip, bookings: seq<Booking>, layout: seq<Seat>, req: ReservationRequest)
    requires req.adult + req.child <= 0
    ensures Allocate(cache, trip, bookings, layout, req).Err?
  {
    FirstFitEmptyParty(CarResults(cache, trip, bookings, layout, req, 1), req.adult + req.child, 0);
  }
}
