/** The checks trainReservationHandler (webapp/go/reserve_handler.go) runs on
    the seats of a request: the existence check of explicitly requested
    seats, the duplicate-seat check against the stored reservations of the
    train, and the dummy seats that replace the seats of a non-reserved
    request. */
module SeatCheck {
  import opened Model
  import opened StationCache
  import opened Journey
  import opened Allocation

  /** The seat-master row `s` answers the validation query for `z`: same
      train class, car, column, row and seat class. The smoking flag is not
      part of the query. */
  predicate Answers(s: Seat, trainClass: string, car: int, seatClass: string, z: RequestSeat)
  {
    s.trainClass == trainClass && s.carNumber == car && s.column == z.column && s.row == z.row && s.seatClass == seatClass
  }

  /** The seat master has a row answering the query for `z`. */
  predicate InMaster(layout: seq<Seat>, trainClass: string, car: int, seatClass: string, z: RequestSeat)
  {
    exists k :: 0 <= k < |layout| && Answers(layout[k], trainClass, car, seatClass, z)
  }

  /** The validation loop over explicitly requested seats: it passes exactly
      when every requested seat is in the seat master for the request's train
      class, car and seat class, and fails with not-found otherwise. */
  method ValidateSeats(layout: seq<Seat>, trainClass: string, car: int, seatClass: string, requested: seq<RequestSeat>)
    returns (r: Result<()>)
    ensures r.Ok? <==> forall k :: 0 <= k < |requested| ==> InMaster(layout, trainClass, car, seatClass, requested[k])
    ensures r.Err? ==> r.error == SeatNotFound
  {
    for i := 0 to |requested|
      invariant forall k :: 0 <= k < i ==> InMaster(layout, trainClass, car, seatClass, requested[k])
    {
      if !InMaster(layout, trainClass, car, seatClass, requested[i]) {
        return Err(SeatNotFound);
      }
    }
    return Ok(());
  }

  /** `b` holds, in car `car`, the position of one of `seats`. */
  predicate HoldsAny(b: Booking, car: int, seats: seq<RequestSeat>)
  {
    exists j :: 0 <= j < |seats| && Holds(b, car, seats[j].row, seats[j].column)
  }

  /** The duplicate check from the `i`-th stored reservation on. A
      non-reserved request skips it; otherwise each reservation's stations
      are looked up by name (an unknown one fails with not-found), and a
      reservation whose journey overlaps the requested one and that holds a
      requested seat of the car fails it with a conflict. */
  function DuplicateFrom(cache: StationMaster, trip: Trip, bookings: seq<Booking>, seatClass: string, car: int, seats: seq<RequestSeat>, i: int): Result<()>
    requires 0 <= i <= |bookings|
    reads cache
    decreases |bookings| - i
  {
    if seatClass == NonReserved || i == |bookings| then Ok(())
    else
      var j :- ResolveJourney(cache, bookings[i].reservation);
      if Conflicts(trip.isNobori, trip.from, trip.to, j.0, j.1) && HoldsAny(bookings[i], car, seats) then Err(SeatConflict)
      else DuplicateFrom(cache, trip, bookings, seatClass, car, seats, i + 1)
  }

  /** The reservation `b` blocks the request: it resolves, overlaps the trip
      and holds a requested seat. */
  predicate Blocks(cache: StationMaster, trip: Trip, b: Booking, car: int, seats: seq<RequestSeat>)
    reads cache
  {
    BookingConflicts(cache, trip, b) && HoldsAny(b, car, seats)
  }

  /** The reservation `b` stops the check with not-found. */
  predicate Unresolved(cache: StationMaster, b: Booking)
    reads cache
  {
    ResolveJourney(cache, b.reservation).Err?
  }

  /** Reservation `k` is the first, from `i` on, to block the request, and
      every reservation before it resolves. */
  predicate FirstBlocker(cache: StationMaster, trip: Trip, bookings: seq<Booking>, car: int, seats: seq<RequestSeat>, i: int, k: int)
    reads cache
  {
    0 <= i <= k < |bookings| && Blocks(cache, trip, bookings[k], car, seats) &&
    forall m :: i <= m < k ==> !Unresolved(cache, bookings[m])
  }

  /** The check from `i` on passes exactly when the request is non-reserved
      or every later reservation resolves and none blocks it. */
  lemma {:induction false} DuplicatePasses(cache: StationMaster, trip: Trip, bookings: seq<Booking>, seatClass: string, car: int, seats: seq<RequestSeat>, i: int)
    requires 0 <= i <= |bookings|
    ensures DuplicateFrom(cache, trip, bookings, seatClass, car, seats, i).Ok? <==> (seatClass == NonReserved ||
      forall k :: i <= k < |bookings| ==> !Unresolved(cache, bookings[k]) && !Blocks(cache, trip, bookings[k], car, seats))
    decreases |bookings| - i
  {
    if seatClass != NonReserved && i < |bookings| {
      DuplicatePasses(cache, trip, bookings, seatClass, car, seats, i + 1);
    }
  }

  /** The check from `i` on reports a conflict exactly when the request is
      not non-reserved and some reservation is the first to block it. */
  lemma {:induction false} DuplicateConflicts(cache: StationMaster, trip: Trip, bookings: seq<Booking>, seatClass: string, car: int, seats: seq<RequestSeat>, i: int)
    requires 0 <= i <= |bookings|
    ensures DuplicateFrom(cache, trip, bookings, seatClass, car, seats, i) == Err(SeatConflict) <==>
      (seatClass != NonReserved && exists k :: FirstBlocker(cache, trip, bookings, car, seats, i, k))
    decreases |bookings| - i
  {
    if seatClass != NonReserved && i < |bookings| {
      if Unresolved(cache, bookings[i]) {
        forall k ensures !FirstBlocker(cache, trip, bookings, car, seats, i, k) {
          if i < k < |bookings| {
            assert Unresolved(cache, bookings[i]);
          }
        }
      } else if Blocks(cache, trip, bookings[i], car, seats) {
        assert FirstBlocker(cache, trip, bookings, car, seats, i, i);
      } else {
        var next := i + 1;
        assert DuplicateFrom(cache, trip, bookings, seatClass, car, seats, i) == DuplicateFrom(cache, trip, bookings, seatClass, car, seats, next);
        DuplicateConflicts(cache, trip, bookings, seatClass, car, seats, next);
        if exists k :: FirstBlocker(cache, trip, bookings, car, seats, i, k) {
          var k :| FirstBlocker(cache, trip, bookings, car, seats, i, k);
          assert FirstBlocker(cache, trip, bookings, car, seats, next, k);
        }
        if exists k :: FirstBlocker(cache, trip, bookings, car, seats, next, k) {
          var k :| FirstBlocker(cache, trip, bookings, car, seats, next, k);
          assert FirstBlocker(cache, trip, bookings, car, seats, i, k);
        }
      }
    }
  }

  /** The check fails only with a conflict or an unknown station. */
  lemma {:induction false} DuplicateErrors(cache: StationMaster, trip: Trip, bookings: seq<Booking>, seatClass: string, car: int, seats: seq<RequestSeat>, i: int)
    requires 0 <= i <= |bookings|
    ensures var r := DuplicateFrom(cache, trip, bookings, seatClass, car, seats, i);
      r.Err? ==> r.error in {SeatConflict, StationNotFound}
    decreases |bookings| - i
  {
    if seatClass != NonReserved && i < |bookings| {
      DuplicateErrors(cache, trip, bookings, seatClass, car, seats, i + 1);
    }
  }

  /** The check from `i` on passes exactly when the request is non-reserved
      or every later reservation resolves and none blocks it; it reports a
      conflict exactly when, for a reserved request, some reservation blocks
      it and every one before it resolves; any other failure is not-found. */
  lemma {:induction false} DuplicateMeaning(cache: StationMaster, trip: Trip, bookings: seq<Booking>, seatClass: string, car: int, seats: seq<RequestSeat>, i: int)
    requires 0 <= i <= |bookings|
    ensures var r := DuplicateFrom(cache, trip, bookings, seatClass, car, seats, i);
      (r.Ok? <==> (seatClass == NonReserved ||
        forall k :: i <= k < |bookings| ==> !Unresolved(cache, bookings[k]) && !Blocks(cache, trip, bookings[k], car, seats))) &&
      (r == Err(SeatConflict) <==> (seatClass != NonReserved && exists k :: FirstBlocker(cache, trip, bookings, car, seats, i, k))) &&
      (r.Err? ==> r.error in {SeatConflict, StationNotFound})
  {
    DuplicatePasses(cache, trip, bookings, seatClass, car, seats, i);
    DuplicateConflicts(cache, trip, bookings, seatClass, car, seats, i);
    DuplicateErrors(cache, trip, bookings, seatClass, car, seats, i);
  }

  /** The duplicate-check loop of trainReservationHandler over the stored
      reservations of the train, with the seat scan of an overlapping one. */
  method CheckDuplicates(cache: StationMaster, trip: Trip, bookings: seq<Booking>, seatClass: string, car: int, seats: seq<RequestSeat>)
    returns (r: Result<()>)
    ensures r == DuplicateFrom(cache, trip, bookings, seatClass, car, seats, 0)
  {
    for i := 0 to |bookings|
      invariant DuplicateFrom(cache, trip, bookings, seatClass, car, seats, 0) == DuplicateFrom(cache, trip, bookings, seatClass, car, seats, i)
    {
      if seatClass == NonReserved {
        // the loop breaks before looking at any reservation
        return Ok(());
      }
      var reservation := bookings[i].reservation;
      var dep :- cache.FetchByName(reservation.departure);
      var arr :- cache.FetchByName(reservation.arrival);
      var secdup := Conflicts(trip.isNobori, trip.from, trip.to, dep.id, arr.id);
      if secdup {
        var held := bookings[i].seats;
        for a := 0 to |held|
          invariant forall x, y :: 0 <= x < a && 0 <= y < |seats| ==>
            !(held[x].carNumber == car && held[x].row == seats[y].row && held[x].column == seats[y].column)
        {
          for b := 0 to |seats|
            invariant forall y :: 0 <= y < b ==>
              !(held[a].carNumber == car && held[a].row == seats[y].row && held[a].column == seats[y].column)
          {
            if held[a].carNumber == car && held[a].row == seats[b].row && held[a].column == seats[b].column {
              assert Holds(bookings[i], car, seats[b].row, seats[b].column);
              return Err(SeatConflict);
            }
          }
        }
      }
    }
    return Ok(());
  }

  /** A reserved request that passes the check shares no seat of its car
      with any stored reservation whose journey overlaps its own. */
  lemma PassedCheckHasNoSharedSeat(cache: StationMaster, trip: Trip, bookings: seq<Booking>, seatClass: string, car: int, seats: seq<RequestSeat>)
    requires seatClass != NonReserved
    requires DuplicateFrom(cache, trip, bookings, seatClass, car, seats, 0).Ok?
    ensures forall k, m, j ::
      (0 <= k < |bookings| && 0 <= m < |bookings[k].seats| && 0 <= j < |seats| &&
        BookingConflicts(cache, trip, bookings[k]) && bookings[k].seats[m].carNumber == car) ==>
        !(bookings[k].seats[m].row == seats[j].row && bookings[k].seats[m].column == seats[j].column)
  {
    DuplicateMeaning(cache, trip, bookings, seatClass, car, seats, 0);
  }

  /** Sharing a boundary station is not a conflict: on a down train a
      reservation from station 1 to 2 does not block the same seat from 2 to
      3, while one from 1 to 3 does block a request from 1 to 2. */
  lemma DuplicateScenarios(cache: StationMaster, seat: RequestSeat)
    requires "A" in cache.byName && "B" in cache.byName && "C" in cache.byName
    requires cache.byName["A"].id == 1 && cache.byName["B"].id == 2 && cache.byName["C"].id == 3
    ensures var held := Booking(Reservation(1, "A", "B"), [SeatReservation(1, 5, seat.row, seat.column)]);
      DuplicateFrom(cache, Trip(false, 2, 3), [held], "reserved", 5, [seat], 0) == Ok(())
    ensures var held := Booking(Reservation(1, "A", "C"), [SeatReservation(1, 5, seat.row, seat.column)]);
      DuplicateFrom(cache, Trip(false, 1, 2), [held], "reserved", 5, [seat], 0) == Err(SeatConflict)
  {
    var b1 := Booking(Reservation(1, "A", "B"), [SeatReservation(1, 5, seat.row, seat.column)]);
    var b2 := Booking(Reservation(1, "A", "C"), [SeatReservation(1, 5, seat.row, seat.column)]);
    assert b2.seats[0].carNumber == 5 && b2.seats[0].row == seat.row && b2.seats[0].column == seat.column;
    assert Holds(b2, 5, seat.row, seat.column);
    assert [seat][0] == seat;
    assert HoldsAny(b2, 5, [seat]);
  }

  /** The seats a non-reserved request is stored with: the car becomes 0 and
      the seats `adult + child` dummies of row 0 and no column. Other
      requests keep their car and seats. */
  method NonReservedSeats(seatClass: string, adult: int, child: int, car: int, seats: seq<RequestSeat>)
    returns (newCar: int, newSeats: seq<RequestSeat>)
    ensures seatClass != NonReserved ==> newCar == car && newSeats == seats
    ensures seatClass == NonReserved ==> (newCar == 0 &&
      |newSeats| == (if adult + child > 0 then adult + child else 0) &&
      forall k :: 0 <= k < |newSeats| ==> newSeats[k] == RequestSeat(0, ""))
  {
    newCar := car;
    newSeats := seats;
    if seatClass == NonReserved {
      newSeats := [];
      var dummySeat := RequestSeat(0, "");
      newCar := 0;
      var num := 0;
      while num < adult + child
        invariant 0 <= num && (adult + child > 0 ==> num <= adult + child) && (adult + child <= 0 ==> num == 0)
        invariant |newSeats| == num
        invariant forall k :: 0 <= k < |newSeats| ==> newSeats[k] == RequestSeat(0, "")
      {
        dummySeat := dummySeat.(row := 0, column := "");
        newSeats := newSeats + [dummySeat];
        num := num + 1;
      }
    }
  }
}
