/** The search and seat-map pieces of webapp/go/main.go: the station scan
    that decides whether a train serves a searched journey, the availability
    symbols and quoted totals of a search result, and the occupancy marks of
    the seat map of one car. */
module Search {
  import opened Model
  import opened StationCache
  import opened Journey
  import opened Fares

  /** The train serves the journey from station id `fromId` to `toId` over
      `stations`, listed in the order the search scans them: after the first
      station named as the train's start station, the origin comes no later
      than the destination, and neither the destination nor the train's last
      station comes before the destination. */
  ghost predicate Serves(stations: seq<Station>, train: Train, fromId: int, toId: int)
  {
    exists s, o, d :: Witness(stations, train, fromId, toId, s, o, d)
  }

  /** The start station is first met at `s`, the origin at `o` and the
      destination at `d`, and the scan runs from `s` to `d` without meeting
      the destination or the train's last station earlier. */
  predicate Witness(stations: seq<Station>, train: Train, fromId: int, toId: int, s: int, o: int, d: int)
  {
    0 <= s <= o <= d < |stations| &&
    stations[s].name == train.startStation &&
    (forall j :: 0 <= j < s ==> stations[j].name != train.startStation) &&
    stations[o].id == fromId && stations[d].id == toId &&
    forall j :: s <= j < d ==> stations[j].id != toId && stations[j].name != train.lastStation
  }

  /** A scan that stops at index `k`, having passed the start station at `s`
      and no destination nor last station from `s` on before `k`, where the
      destination cannot lie: not at `k` unless the origin lies in `s..k`. */
  lemma {:induction false} NotServedAt(stations: seq<Station>, train: Train, fromId: int, toId: int, s: int, k: int)
    requires 0 <= s <= k < |stations|
    requires stations[s].name == train.startStation
    requires forall j :: 0 <= j < s ==> stations[j].name != train.startStation
    requires forall j :: s <= j < k ==> stations[j].id != toId && stations[j].name != train.lastStation
    requires stations[k].id == toId || stations[k].name == train.lastStation
    requires stations[k].id == toId ==> forall j :: s <= j <= k ==> stations[j].id != fromId
    ensures !Serves(stations, train, fromId, toId)
  {
  }

  /** The station scan of trainSearchHandler for one train. */
  method ScanTrain(stations: seq<Station>, train: Train, fromId: int, toId: int) returns (included: bool)
    ensures included == Serves(stations, train, fromId, toId)
  {
    var isSeekedToFirstStation := false;
    var isContainsOriginStation := false;
    var isContainsDestStation := false;
    ghost var s := 0;
    ghost var o := 0;
    for k := 0 to |stations|
      invariant !isContainsDestStation
      invariant !isSeekedToFirstStation ==> forall j :: 0 <= j < k ==> stations[j].name != train.startStation
      invariant isSeekedToFirstStation ==> (0 <= s < k && stations[s].name == train.startStation &&
        forall j :: 0 <= j < s ==> stations[j].name != train.startStation)
      invariant isSeekedToFirstStation ==> forall j :: s <= j < k ==> stations[j].id != toId && stations[j].name != train.lastStation
      invariant isContainsOriginStation ==> isSeekedToFirstStation && s <= o < k && stations[o].id == fromId
      invariant isSeekedToFirstStation && !isContainsOriginStation ==> forall j :: s <= j < k ==> stations[j].id != fromId
    {
      var station := stations[k];
      if !isSeekedToFirstStation {
        if station.name == train.startStation {
          isSeekedToFirstStation := true;
          s := k;
        } else {
          continue;
        }
      }
      if station.id == fromId {
        if !isContainsOriginStation {
          o := k;
        }
        isContainsOriginStation := true;
      }
      if station.id == toId {
        if isContainsOriginStation {
          isContainsDestStation := true;
          assert Witness(stations, train, fromId, toId, s, o, k);
          break;
        } else {
          NotServedAt(stations, train, fromId, toId, s, k);
          break;
        }
      }
      if station.name == train.lastStation {
        NotServedAt(stations, train, fromId, toId, s, k);
        break;
      }
    }
    included := isContainsOriginStation && isContainsDestStation;
  }

  /** A listed train meets the origin at a station other than its last
      station, unless the journey is from a station to itself. */
  lemma ServedOriginIsNotLast(stations: seq<Station>, train: Train, fromId: int, toId: int)
    requires Serves(stations, train, fromId, toId)
    ensures exists o :: (0 <= o < |stations| && stations[o].id == fromId &&
      (stations[o].name != train.lastStation || fromId == toId))
  {
    var s, o, d :| Witness(stations, train, fromId, toId, s, o, d);
    if o < d {
      assert stations[o].name != train.lastStation;
    } else {
      assert fromId == toId;
    }
  }

  /** A train whose only station with the origin's id is its last station
      is never listed for a journey to another station. */
  lemma OriginAtLastStationIsExcluded(stations: seq<Station>, train: Train, fromId: int, toId: int)
    requires fromId != toId
    requires forall j :: 0 <= j < |stations| && stations[j].id == fromId ==> stations[j].name == train.lastStation
    ensures !Serves(stations, train, fromId, toId)
  {
    if Serves(stations, train, fromId, toId) {
      ServedOriginIsNotLast(stations, train, fromId, toId);
    }
  }

  /** A journey from a station to itself is listed by every train whose
      scan reaches that station. */
  lemma SameStationJourney(stations: seq<Station>, train: Train, id: int, s: int, d: int)
    requires 0 <= s <= d < |stations|
    requires stations[s].name == train.startStation
    requires forall j :: 0 <= j < s ==> stations[j].name != train.startStation
    requires stations[d].id == id
    requires forall j :: s <= j < d ==> stations[j].id != id && stations[j].name != train.lastStation
    ensures Serves(stations, train, id, id)
  {
    assert Witness(stations, train, id, id, s, d, d);
  }

  const Full := "×"
  const Few := "△"
  const Plenty := "○"

  /** The availability symbol of a seat class for `free` free seats. */
  function Availability(free: nat): (sym: string)
    ensures sym in {Full, Few, Plenty}
    ensures sym == Full <==> free == 0
    ensures sym == Plenty <==> free >= 10
  {
    if free == 0 then Full
    else if free < 10 then Few
    else Plenty
  }

  /** The order of the symbols, from no seat to plenty. */
  function Rank(sym: string): int
  {
    if sym == Full then 0 else if sym == Few then 1 else 2
  }

  /** More free seats never show a worse symbol. */
  lemma AvailabilityIsMonotone(a: nat, b: nat)
    requires a <= b
    ensures Rank(Availability(a)) <= Rank(Availability(b))
  {
  }

  /** The availability map of a search result: the four counted classes get
      their symbols and non-reserved seats are always plentiful. */
  function SeatAvailability(premium: nat, premiumSmoke: nat, reserved: nat, reservedSmoke: nat): (m: map<string, string>)
    ensures m.Keys == {"premium", "premium_smoke", "reserved", "reserved_smoke", "non_reserved"}
    ensures m["non_reserved"] == Plenty
    ensures m["premium"] == Availability(premium) && m["premium_smoke"] == Availability(premiumSmoke)
    ensures m["reserved"] == Availability(reserved) && m["reserved_smoke"] == Availability(reservedSmoke)
  {
    map["premium" := Availability(premium), "premium_smoke" := Availability(premiumSmoke),
        "reserved" := Availability(reserved), "reserved_smoke" := Availability(reservedSmoke),
        "non_reserved" := Plenty]
  }

  /** The fare map of a search result: the search total of each seat
      class's one-passenger fare, the smoking classes quoted like the
      non-smoking ones. */
  function FareInformation(premiumFare: int, reservedFare: int, nonReservedFare: int, adult: int, child: int): (m: map<string, int>)
    ensures m.Keys == {"premium", "premium_smoke", "reserved", "reserved_smoke", "non_reserved"}
    ensures m["premium_smoke"] == m["premium"] && m["reserved_smoke"] == m["reserved"]
    ensures m["premium"] == SearchAmount(premiumFare, adult, child)
    ensures m["reserved"] == SearchAmount(reservedFare, adult, child)
    ensures m["non_reserved"] == SearchAmount(nonReservedFare, adult, child)
  {
    var p := SearchAmount(premiumFare, adult, child);
    var r := SearchAmount(reservedFare, adult, child);
    map["premium" := p, "premium_smoke" := p, "reserved" := r, "reserved_smoke" := r,
        "non_reserved" := SearchAmount(nonReservedFare, adult, child)]
  }

  /** One row of the seat-map query: a seat row and a reservation. */
  datatype SeatAndReservation = SeatAndReservation(seat: SeatReservation, reservation: Reservation)

  /** The dictionary key of a seat position; the source formats it as
      "row-column", which determines the pair. */
  function Key(row: int, column: string): (int, string)
  {
    (row, column)
  }

  function RowKey(v: SeatAndReservation): (int, string)
  {
    Key(v.seat.row, v.seat.column)
  }

  /** What loading `rows` one by one into an empty dictionary keyed by seat
      position leaves in it. */
  function ResIndex(rows: seq<SeatAndReservation>): map<(int, string), SeatAndReservation>
  {
    if rows == [] then map[]
    else
      var n := |rows| - 1;
      ResIndex(rows[..n])[RowKey(rows[n]) := rows[n]]
  }

  /** The dictionary loop of trainSeatsHandler. */
  method BuildSeatResDict(rows: seq<SeatAndReservation>) returns (seatResDict: map<(int, string), SeatAndReservation>)
    ensures seatResDict == ResIndex(rows)
  {
    seatResDict := map[];
    for i := 0 to |rows|
      invariant seatResDict == ResIndex(rows[..i])
    {
      assert rows[..i + 1][..i] == rows[..i];
      var key := Key(rows[i].seat.row, rows[i].seat.column);
      seatResDict := seatResDict[key := rows[i]];
    }
    assert rows[..|rows|] == rows;
  }

  /** Row `k` is the last row of `rows` with position `key`. */
  predicate LastRowAt(rows: seq<SeatAndReservation>, key: (int, string), k: int)
  {
    0 <= k < |rows| && RowKey(rows[k]) == key && forall j :: k < j < |rows| ==> RowKey(rows[j]) != key
  }

  /** The dictionary holds exactly the positions of the rows, each bound to
      the last row with that position: earlier rows for the same seat are
      forgotten. */
  lemma {:induction false} ResIndexHoldsLast(rows: seq<SeatAndReservation>, key: (int, string))
    ensures key in ResIndex(rows) <==> exists k :: 0 <= k < |rows| && RowKey(rows[k]) == key
    ensures key in ResIndex(rows) ==> exists k :: LastRowAt(rows, key, k) && ResIndex(rows)[key] == rows[k]
  {
    if rows != [] {
      var n := |rows| - 1;
      var prefix := rows[..n];
      ResIndexHoldsLast(prefix, key);
      assert ResIndex(rows) == ResIndex(prefix)[RowKey(rows[n]) := rows[n]];
      if RowKey(rows[n]) == key {
        assert LastRowAt(rows, key, n);
      } else {
        if key in ResIndex(prefix) {
          var k :| LastRowAt(prefix, key, k) && ResIndex(prefix)[key] == prefix[k];
          forall j | k < j < |rows|
            ensures RowKey(rows[j]) != key
          {
            if j < n {
              assert rows[j] == prefix[j];
            }
          }
          assert LastRowAt(rows, key, k);
        }
        if exists k :: 0 <= k < |rows| && RowKey(rows[k]) == key {
          var k :| 0 <= k < |rows| && RowKey(rows[k]) == key;
          assert prefix[k] == rows[k];
        }
      }
    }
  }

  /** A failed lookup inside the seat-map loop panics. */
  function Lookup(cache: StationMaster, name: string): (r: Result<Station>)
    reads cache
    ensures r.Ok? <==> name in cache.byName
    ensures r.Err? ==> r.error == Panic
    ensures r.Ok? ==> r.value == cache.byName[name]
  {
    match cache.FetchByName(name)
    case Ok(st) => Ok(st)
    case Err(_) => Err(Panic)
  }

  /** The occupancy the seat map shows for a seat held by `v`, as written:
      the station looked up by the arrival name overwrites the departure
      station, and the arrival station keeps the zero station's id 0. */
  function MapOccupancy(cache: StationMaster, trip: Trip, v: SeatAndReservation): Result<bool>
    reads cache
  {
    var departureStation := Lookup(cache, v.reservation.departure);
    if departureStation.Err? then Err(Panic)
    else
      var departureStation' := Lookup(cache, v.reservation.arrival);
      if departureStation'.Err? then Err(Panic)
      else
        var arrivalStation := ZeroStation;
        Ok(Conflicts(trip.isNobori, trip.from, trip.to, departureStation'.value.id, arrivalStation.id))
  }

  /** The seat map of a car: every seat of the car in order, marked occupied
      by the reservation row the dictionary keeps for its position. */
  function SeatMap(cache: StationMaster, trip: Trip, seats: seq<Seat>, dict: map<(int, string), SeatAndReservation>): Result<seq<SeatInformation>>
    reads cache
  {
    if seats == [] then Ok([])
    else
      var n := |seats| - 1;
      var init :- SeatMap(cache, trip, seats[..n], dict);
      var key := Key(seats[n].row, seats[n].column);
      var occupied :- if key in dict then MapOccupancy(cache, trip, dict[key]) else Ok(false);
      Ok(init + [SeatInformation(seats[n].row, seats[n].column, seats[n].seatClass, seats[n].isSmoking, occupied)])
  }

  /** The seat loop of trainSeatsHandler. */
  method MarkSeatMap(cache: StationMaster, trip: Trip, seats: seq<Seat>, dict: map<(int, string), SeatAndReservation>)
    returns (r: Result<seq<SeatInformation>>)
    ensures r == SeatMap(cache, trip, seats, dict)
  {
    var seatInformationList: seq<SeatInformation> := [];
    for i := 0 to |seats|
      invariant SeatMap(cache, trip, seats[..i], dict) == Ok(seatInformationList)
    {
      var seat := seats[i];
      assert seats[..i + 1][..i] == seats[..i];
      var s := SeatInformation(seat.row, seat.column, seat.seatClass, seat.isSmoking, false);
      var key := Key(s.row, s.column);
      if key in dict {
        var v := dict[key];
        var departureStation := Lookup(cache, v.reservation.departure);
        if departureStation.Err? {
          SeatMapPanics(cache, trip, seats, dict, i);
          return Err(Panic);
        }
        departureStation := Lookup(cache, v.reservation.arrival);
        if departureStation.Err? {
          SeatMapPanics(cache, trip, seats, dict, i);
          return Err(Panic);
        }
        var arrivalStation := ZeroStation;
        if Conflicts(trip.isNobori, trip.from, trip.to, departureStation.value.id, arrivalStation.id) {
          s := s.(isOccupied := true);
        }
      }
      seatInformationList := seatInformationList + [s];
    }
    assert seats[..|seats|] == seats;
    return Ok(seatInformationList);
  }

  /** The mark a seat gets, or the panic of its lookups. */
  function SeatMark(cache: StationMaster, trip: Trip, s: Seat, dict: map<(int, string), SeatAndReservation>): Result<bool>
    reads cache
  {
    var key := Key(s.row, s.column);
    if key in dict then MapOccupancy(cache, trip, dict[key]) else Ok(false)
  }

  /** The seat map lists every seat, in order, with its position, class and
      smoking flag and the mark its own lookups give; it panics exactly when
      the lookups of some seat do. */
  lemma {:induction false} SeatMapMeaning(cache: StationMaster, trip: Trip, seats: seq<Seat>, dict: map<(int, string), SeatAndReservation>)
    ensures var r := SeatMap(cache, trip, seats, dict);
      (r.Ok? <==> forall k :: 0 <= k < |seats| ==> SeatMark(cache, trip, seats[k], dict).Ok?) &&
      (r.Err? ==> r.error == Panic) &&
      (r.Ok? ==> |r.value| == |seats| && forall k :: 0 <= k < |seats| ==>
        r.value[k] == SeatInformation(seats[k].row, seats[k].column, seats[k].seatClass, seats[k].isSmoking,
          SeatMark(cache, trip, seats[k], dict).value))
  {
    if seats != [] {
      var n := |seats| - 1;
      SeatMapMeaning(cache, trip, seats[..n], dict);
      assert forall k :: 0 <= k < n ==> seats[..n][k] == seats[k];
    }
  }

  /** A seat whose lookups panic makes the whole seat map panic. */
  lemma SeatMapPanics(cache: StationMaster, trip: Trip, seats: seq<Seat>, dict: map<(int, string), SeatAndReservation>, i: int)
    requires 0 <= i < |seats| && SeatMark(cache, trip, seats[i], dict).Err?
    ensures SeatMap(cache, trip, seats, dict) == Err(Panic)
  {
    SeatMapMeaning(cache, trip, seats, dict);
  }

  /** On a down train the seat map never marks a seat occupied: the
      arrival id 0 makes the second pass test hold for every journey between
      stations with positive ids. */
  lemma DownSeatMapShowsNoOccupiedSeat(cache: StationMaster, trip: Trip, seats: seq<Seat>, dict: map<(int, string), SeatAndReservation>)
    requires !trip.isNobori && trip.from >= 0 && trip.to > 0
    requires SeatMap(cache, trip, seats, dict).Ok?
    ensures forall k :: 0 <= k < |SeatMap(cache, trip, seats, dict).value| ==> !SeatMap(cache, trip, seats, dict).value[k].isOccupied
  {
    SeatMapMeaning(cache, trip, seats, dict);
  }

  /** On an up train a seat is marked occupied exactly when the journey does
      not lie wholly beyond the arrival station of the reservation the
      dictionary keeps for it. */
  lemma UpSeatMark(cache: StationMaster, trip: Trip, s: Seat, dict: map<(int, string), SeatAndReservation>)
    requires trip.isNobori && trip.to >= 0
    requires SeatMark(cache, trip, s, dict).Ok?
    ensures var key := Key(s.row, s.column);
      SeatMark(cache, trip, s, dict).value <==>
        (key in dict && !(trip.to >= cache.byName[dict[key].reservation.arrival].id && trip.from > cache.byName[dict[key].reservation.arrival].id))
  {
  }

  /** The occupancy the seat map evidently intends: the held reservation's
      departure and arrival stations, as the reservation handler uses them. */
  function IntendedMark(cache: StationMaster, trip: Trip, s: Seat, dict: map<(int, string), SeatAndReservation>): Result<bool>
    reads cache
  {
    var key := Key(s.row, s.column);
    if key in dict then
      var dep :- Lookup(cache, dict[key].reservation.departure);
      var arr :- Lookup(cache, dict[key].reservation.arrival);
      Ok(Conflicts(trip.isNobori, trip.from, trip.to, dep.id, arr.id))
    else Ok(false)
  }

  /** With the intended occupancy, a down journey is shown a seat as taken
      exactly when the kept reservation's journey overlaps it. */
  lemma IntendedMarkIsOverlap(cache: StationMaster, trip: Trip, s: Seat, dict: map<(int, string), SeatAndReservation>)
    requires !trip.isNobori && trip.from < trip.to
    requires IntendedMark(cache, trip, s, dict).Ok?
    ensures var key := Key(s.row, s.column);
      key in dict ==>
        var dep := cache.byName[dict[key].reservation.departure].id;
        var arr := cache.byName[dict[key].reservation.arrival].id;
        dep < arr ==> (IntendedMark(cache, trip, s, dict).value <==> trip.from < arr && dep < trip.to)
  {
  }

  /** The two occupancies on one seat held from station 1 to station 3 of a
      down train: the map as written shows it free to a passenger travelling
      1 to 3 as well, the intended one shows it taken. */
  lemma SeatMapMissesIdenticalJourney(cache: StationMaster, s: Seat, dict: map<(int, string), SeatAndReservation>)
    requires "A" in cache.byName && "C" in cache.byName
    requires cache.byName["A"].id == 1 && cache.byName["C"].id == 3
    requires dict == map[Key(s.row, s.column) := SeatAndReservation(SeatReservation(1, 1, s.row, s.column), Reservation(1, "A", "C"))]
    ensures SeatMark(cache, Trip(false, 1, 3), s, dict) == Ok(false)
    ensures IntendedMark(cache, Trip(false, 1, 3), s, dict) == Ok(true)
  {
  }
}
