/** The ambiguous search never seats two passengers in one seat: with a
    seat master that has one row per train class, car, row and column
    (`UniqueSeats`), every car yields distinct seats and so
    does the allocation. */
module SeatUniqueness {
  import opened Model
  import opened StationCache
  import opened Allocation

  /** No seat appears twice in `s`. */
  predicate Distinct(s: seq<RequestSeat>)
  {
    forall i, j :: 0 <= i < j < |s| ==> s[i] != s[j]
  }

  /** No two rows of `infos` describe the same seat position. */
  predicate DistinctPositions(infos: seq<SeatInformation>)
  {
    forall i, j :: 0 <= i < j < |infos| ==> Position(infos[i]) != Position(infos[j])
  }

  /** No two seats of `seats` share a row and column. */
  predicate DistinctPlaces(seats: seq<Seat>)
  {
    forall i, j :: 0 <= i < j < |seats| ==> seats[i].row != seats[j].row || seats[i].column != seats[j].column
  }

  /** The seat master's key: no two rows share a train class, car, row and column. */
  predicate UniqueSeats(layout: seq<Seat>)
  {
    forall i, j :: 0 <= i < j < |layout| && layout[i].trainClass == layout[j].trainClass && layout[i].carNumber == layout[j].carNumber ==>
      layout[i].row != layout[j].row || layout[i].column != layout[j].column
  }

  /** Seats of distinct positions give free-seat lists without repeats, and the
      index set aside is not among them. */
  lemma {:induction false} FreeExceptDistinct(infos: seq<SeatInformation>, skip: int)
    requires DistinctPositions(infos)
    ensures Distinct(FreeExcept(infos, skip))
    ensures 0 <= skip < |infos| ==> Position(infos[skip]) !in FreeExcept(infos, skip)
  {
    var free := FreeExcept(infos, skip);
    forall i, j | 0 <= i < j < |free|
      ensures free[i] != free[j]
    {
      FreeExceptAreFree(infos, skip, i);
      FreeExceptAreFree(infos, skip, j);
      var ki :| 0 <= ki < |infos| && ki != skip && !infos[ki].isOccupied && Position(infos[ki]) == free[i];
      var kj :| 0 <= kj < |infos| && kj != skip && !infos[kj].isOccupied && Position(infos[kj]) == free[j];
      FreeExceptOrder(infos, skip, i, j, ki, kj);
    }
    if 0 <= skip < |infos| {
      forall j | 0 <= j < |free|
        ensures free[j] != Position(infos[skip])
      {
        FreeExceptAreFree(infos, skip, j);
      }
    }
  }

  /** Two different entries of a free-seat list come from different seats. */
  lemma {:induction false} FreeExceptOrder(infos: seq<SeatInformation>, skip: int, i: int, j: int, ki: int, kj: int)
    requires DistinctPositions(infos)
    requires 0 <= i < j < |FreeExcept(infos, skip)|
    requires 0 <= ki < |infos| && Position(infos[ki]) == FreeExcept(infos, skip)[i]
    requires 0 <= kj < |infos| && Position(infos[kj]) == FreeExcept(infos, skip)[j]
    ensures FreeExcept(infos, skip)[i] != FreeExcept(infos, skip)[j]
    decreases |infos|
  {
    var n := |infos| - 1;
    var init := FreeExcept(infos[..n], skip);
    var prefix := infos[..n];
    assert DistinctPositions(prefix) by {
      forall a, b | 0 <= a < b < |prefix|
        ensures Position(prefix[a]) != Position(prefix[b])
      {
        assert prefix[a] == infos[a] && prefix[b] == infos[b];
      }
    }
    if j < |init| {
      FreeExceptAreFree(prefix, skip, i);
      FreeExceptAreFree(prefix, skip, j);
      var ki' :| 0 <= ki' < n && ki' != skip && !prefix[ki'].isOccupied && Position(prefix[ki']) == init[i];
      var kj' :| 0 <= kj' < n && kj' != skip && !prefix[kj'].isOccupied && Position(prefix[kj']) == init[j];
      FreeExceptOrder(prefix, skip, i, j, ki', kj');
    } else {
      // the last entry is seat n; entry i comes from a seat before it
      FreeExceptAreFree(prefix, skip, i);
      var k :| 0 <= k < n && k != skip && !prefix[k].isOccupied && Position(prefix[k]) == init[i];
      assert prefix[k] == infos[k];
      assert FreeExcept(infos, skip)[j] == Position(infos[n]);
    }
  }

  /** Seats of distinct positions give a car yield without repeats. */
  lemma PicksDistinct(infos: seq<SeatInformation>, column: string, party: int)
    requires DistinctPositions(infos)
    ensures Distinct(CarPicks(infos, column, party))
  {
    var picks := CarPicks(infos, column, party);
    if column == "" {
      FreeExceptDistinct(infos, |infos|);
    } else {
      var v := VagueIndex(infos, column);
      var rest := Take(FreeExcept(infos, v), party - 1);
      FreeExceptDistinct(infos, v);
      if v < |infos| {
        assert picks == [Position(infos[v])] + rest;
        forall i, j | 0 <= i < j < |picks|
          ensures picks[i] != picks[j]
        {
          if i == 0 {
            assert picks[j] == FreeExcept(infos, v)[j - 1];
          } else {
            assert picks[i] == FreeExcept(infos, v)[i - 1] && picks[j] == FreeExcept(infos, v)[j - 1];
          }
        }
      }
    }
  }

  /** The seats of one car from a seat master with unique keys have distinct
      positions. */
  lemma {:induction false} CarSeatsDistinct(layout: seq<Seat>, trainClass: string, car: int, seatClass: string, isSmoking: bool)
    requires UniqueSeats(layout)
    ensures DistinctPlaces(CarSeats(layout, trainClass, car, seatClass, isSmoking))
  {
    if layout != [] {
      var n := |layout| - 1;
      var prefix := layout[..n];
      assert UniqueSeats(prefix) by {
        forall a, b | 0 <= a < b < |prefix|
          ensures prefix[a] == layout[a] && prefix[b] == layout[b]
        {
        }
      }
      CarSeatsDistinct(prefix, trainClass, car, seatClass, isSmoking);
      var init := CarSeats(prefix, trainClass, car, seatClass, isSmoking);
      var seats := CarSeats(layout, trainClass, car, seatClass, isSmoking);
      var last := layout[n];
      if |seats| > |init| {
        forall i | 0 <= i < |init|
          ensures init[i].row != last.row || init[i].column != last.column
        {
          CarSeatsMeaning(prefix, trainClass, car, seatClass, isSmoking, init[i]);
          var k :| 0 <= k < |prefix| && prefix[k] == init[i];
          assert layout[k] == init[i];
        }
      }
    }
  }

  /** A car's occupancy list has distinct positions when its seats do. */
  lemma InfosDistinct(cache: StationMaster, trip: Trip, bookings: seq<Booking>, seats: seq<Seat>)
    requires DistinctPlaces(seats)
    requires CarInformation(cache, trip, bookings, seats).Ok?
    ensures DistinctPositions(CarInformation(cache, trip, bookings, seats).value)
  {
    CarInformationMeaning(cache, trip, bookings, seats);
    var infos := CarInformation(cache, trip, bookings, seats).value;
    forall i, j | 0 <= i < j < |infos|
      ensures Position(infos[i]) != Position(infos[j])
    {
      assert Position(infos[i]) == RequestSeat(seats[i].row, seats[i].column);
      assert Position(infos[j]) == RequestSeat(seats[j].row, seats[j].column);
    }
  }

  /** With a seat master whose keys are unique, no car yields a seat twice. */
  lemma CandidatesDistinct(cache: StationMaster, trip: Trip, bookings: seq<Booking>, layout: seq<Seat>, req: ReservationRequest, car: int)
    requires UniqueSeats(layout)
    requires CarCandidates(cache, trip, bookings, layout, req, car).Ok?
    ensures Distinct(CarCandidates(cache, trip, bookings, layout, req, car).value)
  {
    var seats := CarSeats(layout, req.trainClass, car, req.seatClass, req.isSmoking);
    var infos := CarInformation(cache, trip, bookings, seats);
    assert infos == CarInfos(cache, trip, bookings, layout, req, car) && infos.Ok?;
    assert CarCandidates(cache, trip, bookings, layout, req, car).value == CarPicks(infos.value, req.column, req.adult + req.child);
    CarSeatsDistinct(layout, req.trainClass, car, req.seatClass, req.isSmoking);
    InfosDistinct(cache, trip, bookings, seats);
    PicksDistinct(infos.value, req.column, req.adult + req.child);
  }

  /** With a seat master whose keys are unique, the search never gives two
      passengers the same seat. */
  lemma AllocatedSeatsAreDistinct(cache: StationMaster, trip: Trip, bookings: seq<Booking>, layout: seq<Seat>, req: ReservationRequest)
    requires UniqueSeats(layout)
    requires Allocate(cache, trip, bookings, layout, req).Ok?
    ensures Distinct(Allocate(cache, trip, bookings, layout, req).value.seats)
  {
    AllocateSucceeds(cache, trip, bookings, layout, req);
    var a := Allocate(cache, trip, bookings, layout, req).value;
    CandidatesDistinct(cache, trip, bookings, layout, req, a.carNumber);
  }
}
