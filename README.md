# Seat reservation engine of the ISUCON9 final rail web app, in Dafny

This project models the rules the rail-reservation web app
(webapp/go) applies when it books seats, quotes fares and draws seat maps.
The SQL queries and HTTP plumbing around those rules are replaced by values:
the station master, the seat master, the stored reservations with their seat
rows, the distance-fare table and the fare-multiplier rules are all inputs.

The modules follow the program's pieces:

- `Model` (model.dfy): the records of webapp/go/model.go as datatypes, and
  a `Result` type whose `Err` names the failing step: a lookup that misses,
  a rejected request, or a Go `panic`.
- `StationCache` (cache.dfy): the station dictionary of cache.go. It is a
  class with two maps, filled in place by `Init` and read by `FetchByID` and
  `FetchByName`.
- `Journey` (journey.dfy): the three rules the reservation handler applies to
  a journey.
  - The journey-overlap rule is written once. The source repeats it in three
    places, parameterised by direction (`isNobori`, an up train).
  - The stop-flag check per train class.
  - The check that the requested segment lies within the train's run.
- `Allocation` (allocation.dfy): the ambiguous seat search over cars 1 to 16.
  Each loop of the handler is a method, proved equal to a recursive
  function that defines it.
  - The occupancy scan of one seat.
  - The seat loop of one car.
  - The candidate loop, with its preferred-column seat.
  - The car loop, with its first-fit choice and truncation to the party size.
- `SeatUniqueness` (uniqueness.dfy): the ambiguous search never gives two
  passengers the same seat, given a seat master with one row per train
  class, car, row and column.
- `SeatCheck` (seatcheck.dfy): the checks on the chosen seats.
  - The validation of explicitly requested seats.
  - The duplicate-seat check against overlapping stored reservations.
  - The dummy seats of a non-reserved request.
- `Fares` (fares.dfy): the fare rules.
  - `getDistanceFare`'s step scan.
  - `fareCalc`'s date-effective multiplier and truncation.
  - The two adult/child total formulas: the reservation's and the search's.
- `Search` (search.dfy): the per-train station scan of `trainSearchHandler`,
  its availability symbols and fare map, and the seat map of
  `trainSeatsHandler`.
- `Reserve` (reserve.dfy): `trainReservationHandler` as one pipeline.
  - Station lookups, then the route checks.
  - The seat choice, then the duplicate check.
  - The dummy seats, then the charged amount.
  - A method composes the step methods above and is proved equal to the
    pipeline function. Lemmas state what a successful reservation guarantees.

Design points where the code decides:

- **Distance-fare lookup.** The step scan charges the fare of the step
  *before* the first step whose bound exceeds the distance. On the table
  `[(150, 1000), (400, 2500)]` a journey of 300 is charged 1000
  (`Fares.StepFareExample`). A distance of 0, a distance equal to a bound,
  and a distance past the last bound all get the last step's fare.
- **Preferred column.** The seat of the preferred column comes first.
  Further free seats of the same column can still follow as ordinary
  candidates.
- **Seat-map quirks, kept as written.**
  - The seat map looks up the reservation's arrival station into the
    departure variable. The arrival station stays the zero station, whose
    id is 0 (webapp/go/main.go:645-652).
  - The seat dictionary keeps only the last row per seat position.
  - Lemmas state the consequences: on a down train no seat is ever shown as
    occupied, and an identical journey is shown free.
  - `Search.IntendedMark` states the evidently intended marking, for
    comparison only.
- **Stored reservations.** They are given joined with their own seat rows.
  This is the join the reservation queries intend.

Dates are seconds of local wall-clock time. The cut to midnight is
`t - t % 86400`, and a fare rule's start date is in the same unit.
Distances and multipliers are `real`. Go's `int(float64)` is truncation
toward zero (`Fares.Trunc`), and Go's `/` on `int` is `Fares.GoDiv`.

## Model

| member | source | states |
|---|---|---|
| `StationCache.StationMaster.constructor` | webapp/go/cache.go:5-8 | both dictionaries start empty |
| `StationCache.StationMaster.Init` | webapp/go/cache.go:10-23 | loading stores every station under its id and under its name, a later station overwriting an earlier one with the same key; keys not loaded keep their entries |
| `StationCache.IdIndexHoldsLast` | webapp/go/cache.go:17-20 | after loading, an id is present exactly when some loaded station has it, and it maps to the last such station |
| `StationCache.NameIndexHoldsLast` | webapp/go/cache.go:17-20 | after loading, a name is present exactly when some loaded station has it, and it maps to the last such station |
| `StationCache.IdIndexKeys` | webapp/go/cache.go:17-19 | after loading, an id is present exactly when some loaded station has it |
| `StationCache.IdIndexLast` | webapp/go/cache.go:17-19 | a loaded id maps to the last loaded station that has it |
| `StationCache.NameIndexKeys` | webapp/go/cache.go:17-20 | after loading, a name is present exactly when some loaded station has it |
| `StationCache.NameIndexLast` | webapp/go/cache.go:17-20 | a loaded name maps to the last loaded station that has it |
| `StationCache.StationMaster.FetchByID` | webapp/go/cache.go:25-31 | succeeds exactly when the id is stored, returning the stored station; otherwise not-found; reads the dictionary without changing it |
| `StationCache.StationMaster.FetchByName` | webapp/go/cache.go:33-39 | succeeds exactly when the name is stored, returning the stored station; otherwise not-found; reads the dictionary without changing it |
| `StationCache.LoadStations` | webapp/go/cache.go:10-39 | a dictionary loaded from a station list answers every loaded id or name with the last station loaded under it, and every other id or name with not-found |
| `Journey.Conflicts` | webapp/go/reserve_handler.go:305-322 | the overlap rule, once for both directions: a new journey conflicts with a stored one unless it ends before the stored one boards or starts after it alights, ids decreasing along an up train |
| `Journey.DownConflictRule` | webapp/go/reserve_handler.go:314-322 | on a down train a new journey passes exactly when `from < dep && to <= dep` or `from >= arr && to > arr` |
| `Journey.UpConflictRule` | webapp/go/reserve_handler.go:305-313 | on an up train a new journey passes exactly when `to < arr && from <= arr` or `to >= dep && from > dep` |
| `Journey.UpIsMirroredDown` | webapp/go/reserve_handler.go:305-322 | the up rule is the down rule with every station ordinal negated |
| `Journey.DownConflictIsOpenIntersection` | webapp/go/reserve_handler.go:493-513 | for forward down journeys, a conflict is exactly an intersection of the open segments |
| `Journey.UpConflictIsOpenIntersection` | webapp/go/reserve_handler.go:305-313 | for forward up journeys, a conflict is exactly an intersection of the open segments |
| `Journey.BoundarySharingIsFree` | webapp/go/reserve_handler.go:305-322 | in either direction, sharing a boundary station is no conflict and an identical journey is one |
| `Journey.ConflictIsSymmetric` | webapp/go/reserve_handler.go:305-322 | between forward journeys, the new one conflicts with the stored one exactly when the stored one conflicts with the new one |
| `Journey.CheckStops` | webapp/go/reserve_handler.go:163-187 | passes exactly when the train class is one of the three known classes and stops at both stations; an unknown class and a missed stop fail with different errors |
| `Journey.CheckRoute` | webapp/go/reserve_handler.go:190-212 | down train: passes exactly when start <= from <= last-1 and start <= to <= last; up train: last+1 <= from <= start and last <= to <= start; otherwise fails with route-not-served |
| `Journey.RouteCheckAcceptsReversedJourney` | webapp/go/reserve_handler.go:201-211 | the range check does not look at the journey's direction: a backward segment within the run passes |
| `Journey.RouteCheckUpIsMirroredDown` | webapp/go/reserve_handler.go:190-212 | the up range check is the down check with every ordinal negated |
| `Allocation.ResolveJourney` | webapp/go/reserve_handler.go:291-303 | a stored reservation's stations resolve exactly when both names are in the dictionary; otherwise not-found |
| `Allocation.SeatOccupancy` | webapp/go/reserve_handler.go:283-324 | one seat's occupancy: a panic when a reservation holding the seat names an unknown station, otherwise occupied exactly when a reservation holding it conflicts with the journey |
| `Allocation.MarkOccupancy` | webapp/go/reserve_handler.go:283-324 | the occupancy scan of one seat: it panics on an unknown station of a reservation holding the seat; otherwise it marks the seat occupied exactly when a reservation holding it conflicts with the journey |
| `Allocation.CarInformation` | webapp/go/reserve_handler.go:263-327 | the occupancy of every seat of a car in seat order; one seat's panic makes the car panic |
| `Allocation.CarInformationMeaning` | webapp/go/reserve_handler.go:263-327 | a car's occupancy list has every seat of the car, in order, each marked by its own scan; it panics exactly when some seat's scan does |
| `Allocation.CarAvailability` | webapp/go/reserve_handler.go:263-327 | the seat loop of one car computes that occupancy list |
| `Allocation.CarSeatsMeaning` | webapp/go/reserve_handler.go:254-256 | a car's seats are exactly the seat-master rows of its train class, car, seat class and smoking flag |
| `Allocation.VagueIndex` | webapp/go/reserve_handler.go:347-351 | the preferred-column seat is the first free seat of that column, or there is none |
| `Allocation.Take` | webapp/go/reserve_handler.go:352-356 | the cap on the other candidates keeps the first n free seats, in seat order |
| `Allocation.CarPicks` | webapp/go/reserve_handler.go:329-365 | a car's yield: with no preferred column, the first free seats up to the party size; with one, the first free seat of that column (if any), then up to party-1 of the other free seats, in seat order |
| `Allocation.PickSeats` | webapp/go/reserve_handler.go:329-365 | the candidate loop yields the preferred seat (if a column is given and free) followed by at most `seatnum` other free seats, in seat order |
| `Allocation.FreeExceptCount` | webapp/go/reserve_handler.go:352-357 | the other candidates number the free seats, less one when the preferred seat was set aside |
| `Allocation.PicksAreFree` | webapp/go/reserve_handler.go:347-358 | every seat a car yields is a free seat of that car |
| `Allocation.CandidatesAreFree` | webapp/go/reserve_handler.go:329-365 | every seat a car yields is the position of a free seat in that car's occupancy list |
| `SeatUniqueness.FreeExceptDistinct` | webapp/go/reserve_handler.go:347-357 | with seats of distinct positions, the other candidates never repeat a seat and never include the seat set aside for the preferred column |
| `SeatUniqueness.PicksDistinct` | webapp/go/reserve_handler.go:347-365 | with seats of distinct positions, a car's yield never repeats a seat |
| `SeatUniqueness.CarSeatsDistinct` | webapp/go/reserve_handler.go:254-256 | when the seat master has one row per train class, car, row and column, the seats read for one car have distinct positions |
| `SeatUniqueness.InfosDistinct` | webapp/go/reserve_handler.go:263-327 | the occupancy list keeps the seats' positions, so distinct seats give distinct entries |
| `SeatUniqueness.CandidatesDistinct` | webapp/go/reserve_handler.go:253-365 | with such a seat master, no car yields the same seat twice |
| `Allocation.PicksBound` | webapp/go/reserve_handler.go:336-367 | a car never yields more than the party, and with a preferred column that has no free seat it yields at most one fewer, so the car is skipped |
| `Allocation.PreferredSeatFirst` | webapp/go/reserve_handler.go:348-361 | when the preferred column has a free seat, the first seat yielded is the first free seat of that column |
| `Allocation.CarFitsParty` | webapp/go/reserve_handler.go:360-367 | a car seats a party of at least one exactly when it has that many free seats and, with a preferred column, a free seat in it |
| `Allocation.CarResults` | webapp/go/reserve_handler.go:253-262 | the cars are scanned from 1 to 16, one yield per car in order |
| `Allocation.SearchCar` | webapp/go/reserve_handler.go:253-365 | one pass of the car loop computes that car's occupancy list and then its yield |
| `Allocation.CarResultsBounded` | webapp/go/reserve_handler.go:336-365 | for a party of at least one, no car yields more seats than the party |
| `Allocation.CarResultsOnlyPanic` | webapp/go/reserve_handler.go:283-327 | a car's search fails only by a panic |
| `Allocation.FirstFit` | webapp/go/reserve_handler.go:367-392 | the car loop's choice: a panic ends the search, a car yielding fewer seats than the party is skipped, the first that yields enough gives its seats cut to the party size (`req.Seats[:req.Adult+req.Child]`, :383), and running out of cars fails for lack of seats |
| `Allocation.Allocate` | webapp/go/reserve_handler.go:253-392 | the ambiguous search: the first fit over the yields of cars 1 to 16 |
| `Allocation.FirstFitSucceeds` | webapp/go/reserve_handler.go:367-386 | a successful first fit names a car, all of its yield, exactly the party size, and every earlier car yielded too few |
| `Allocation.FirstFitUnavailable` | webapp/go/reserve_handler.go:367-392 | a first fit for a party of at least one ends for lack of seats exactly when every remaining car yields too few |
| `Allocation.FirstFitEmptyParty` | webapp/go/reserve_handler.go:367-392 | a party of zero or fewer is never seated by the first fit |
| `Allocation.AllocateSeats` | webapp/go/reserve_handler.go:253-392 | the car loop computes the ambiguous allocation |
| `Allocation.AllocateSucceeds` | webapp/go/reserve_handler.go:253-387 | on success: one car from 1 to 16; exactly adult+child seats, all of that car's yield; every lower-numbered car yields too few |
| `Allocation.AllocatedSeatsAreFree` | webapp/go/reserve_handler.go:283-358 | every allocated seat is a free seat of the allocated car for the requested journey |
| `SeatUniqueness.AllocatedSeatsAreDistinct` | webapp/go/reserve_handler.go:253-387 | with such a seat master, the search never gives two passengers the same seat |
| `Allocation.AllocateUnavailable` | webapp/go/reserve_handler.go:374-392 | a party of at least one is refused for lack of seats exactly when no car from 1 to 16 can seat it |
| `Allocation.FullTrainIsRefused` | webapp/go/reserve_handler.go:367-392 | when every car has fewer free seats than the party, the search fails for lack of seats |
| `Allocation.EmptyPartyIsRefused` | webapp/go/reserve_handler.go:381-392 | a party of zero or fewer passengers never gets seats |
| `SeatCheck.ValidateSeats` | webapp/go/reserve_handler.go:396-414 | passes exactly when every requested seat has a seat-master row of the train class, car, seat class, row and column; otherwise seat-not-found |
| `SeatCheck.DuplicateFrom` | webapp/go/reserve_handler.go:434-541 | the duplicate check from one stored reservation on: skipped for non-reserved; a reservation with an unknown station fails with not-found; one that overlaps the journey and holds a requested seat of the car fails with a conflict |
| `SeatCheck.DuplicateMeaning` | webapp/go/reserve_handler.go:434-541 | the check passes exactly when the class is non-reserved, or every stored reservation resolves and none both overlaps the journey and holds a requested seat of the car; a conflict is reported exactly when such a reservation comes before any unresolvable one |
| `SeatCheck.DuplicatePasses` | webapp/go/reserve_handler.go:434-541 | from any stored reservation on, the check passes exactly when the class is non-reserved or every remaining reservation resolves and none blocks the requested seats |
| `SeatCheck.DuplicateConflicts` | webapp/go/reserve_handler.go:493-540 | from any stored reservation on, a conflict is reported exactly when the class is not non-reserved and a blocking reservation comes before any unresolvable one |
| `SeatCheck.DuplicateErrors` | webapp/go/reserve_handler.go:434-541 | the check fails only with a seat conflict or an unknown station |
| `SeatCheck.CheckDuplicates` | webapp/go/reserve_handler.go:434-541 | the nested loops compute that check |
| `SeatCheck.PassedCheckHasNoSharedSeat` | webapp/go/reserve_handler.go:515-540 | a reserved request that passes shares no seat of its car with any overlapping stored reservation |
| `SeatCheck.DuplicateScenarios` | webapp/go/reserve_handler.go:493-513 | a seat held A→B does not block B→C, and a seat held A→C blocks A→B |
| `SeatCheck.NonReservedSeats` | webapp/go/reserve_handler.go:546-555 | non-reserved: car 0 and adult+child dummy seats of row 0 and empty column (none for a party of zero or fewer); other classes keep car and seats |
| `Fares.BreakIndex` | webapp/go/main.go:138-143 | the scan stops at the first step whose gap holds the distance, or runs through |
| `Fares.BreakIndexIsFirst` | webapp/go/main.go:138-143 | the scan stops at k exactly when k is the first step that breaks, or runs through when none does |
| `Fares.StepFare` | webapp/go/main.go:136-148 | the fare the scan returns: the fare of the step before the one it stops at (0 at the first step), or the last step's fare when it runs through |
| `Fares.GetDistanceFare` | webapp/go/main.go:126-149 | the scan returns the step fare of the distance |
| `Fares.StepFareIsTableFare` | webapp/go/main.go:136-148 | an empty table gives 0; otherwise the fare is 0 or a fare of the table |
| `Fares.StepFareInGap` | webapp/go/main.go:138-146 | on a table in ascending order (ties allowed), a distance strictly inside the gap below a step gets the previous step's fare (0 below the first bound) |
| `Fares.StepFareOffGap` | webapp/go/main.go:138-146 | on a table in ascending order (ties allowed) with non-negative bounds, a distance of 0 or less, equal to a bound, or at or past the last bound gets the last step's fare |
| `Fares.StepFareExample` | webapp/go/main.go:138-146 | on `[(150,1000),(400,2500)]`: 300 costs 1000, 100 costs 0, 150 costs 2500 |
| `Fares.Midnight` | webapp/go/main.go:197 | the date cut to midnight is the start of its own day |
| `Fares.Trunc` | webapp/go/main.go:207 | the float-to-int conversion truncates toward zero |
| `Fares.LastEffective` | webapp/go/main.go:196-203 | the rule selected for a day: the first rule, replaced by every later-listed rule that has started by the day |
| `Fares.NoRuleInEffect` | webapp/go/main.go:196-203 | when no rule has started by the day, the first rule is selected |
| `Fares.LastRuleInEffect` | webapp/go/main.go:196-203 | when some rule has started by the day, the selected rule is the last one in list order that has |
| `Fares.LastEffectiveMeaning` | webapp/go/main.go:196-203 | the selected rule is the last rule in list order that is in effect on the day, or the first rule when none is |
| `Fares.SelectFare` | webapp/go/main.go:196-203 | the selection loop selects that rule for the date cut to midnight |
| `Fares.Scaled` | webapp/go/main.go:207 | the fare is the distance fare times the multiplier, truncated: never above the exact product and less than one below it |
| `Fares.Abs` | webapp/go/main.go:179 | the distance between two stations is non-negative and equal to the difference or its negation |
| `Fares.Price` | webapp/go/main.go:151-208 | a passenger's fare: both station ids looked up, the step fare of the distance between them, scaled by the multiplier of the rule selected for the date cut to midnight and truncated; an unknown station id fails with not-found and an empty rule list with missing fare data |
| `Fares.FareCalc` | webapp/go/main.go:151-208 | fareCalc computes the price |
| `Fares.PriceMeaning` | webapp/go/main.go:151-208 | the fare fails exactly when a station id is unknown (not-found) or there is no rule (fare data missing); otherwise it is the step fare of the distance, scaled by the selected rule's multiplier |
| `Fares.PriceIsSymmetric` | webapp/go/main.go:178-179 | a journey and its reverse cost the same |
| `Fares.SameDaySameRule` | webapp/go/main.go:196-199 | two dates on the same day select the same rule |
| `Fares.GoDiv` | webapp/go/reserve_handler.go:589 | Go integer division truncates toward zero |
| `Fares.ReservationAmount` | webapp/go/reserve_handler.go:589 | the reservation total: adults pay the fare, the children together pay half of their fare, cut toward zero once |
| `Fares.SearchAmount` | webapp/go/main.go:471-485 | the search total: adults pay the fare, each child pays half the fare cut toward zero |
| `Fares.AmountsDiffer` | webapp/go/main.go:471-485 | the reservation total exceeds the search total by child/2 when the fare is odd and equals it otherwise; they differ exactly when the fare is odd and there are at least two children |
| `Fares.ChildrenHalf` | webapp/go/reserve_handler.go:589 | half the children's fare, cut once, is each child's half plus child/2 when the fare is odd |
| `Fares.AmountExamples` | webapp/go/reserve_handler.go:589 | 1 adult + 1 child at 2500 pays 3750 either way; 2 children at 1001 pay 1001 at reservation but 1000 in the search |
| `Search.Serves` | webapp/go/main.go:337-377 | a train serves the journey when, after the first station named as its start station, the origin comes no later than the destination, and neither the destination nor the last station comes before the destination |
| `Search.ScanTrain` | webapp/go/main.go:337-377 | a train is listed exactly when the scan, from the first station named as its start station, meets the origin no later than the destination, and meets neither the destination nor the last station before it |
| `Search.ServedOriginIsNotLast` | webapp/go/main.go:355-373 | a listed train meets the origin at a station other than its last station, unless the journey is from a station to itself |
| `Search.OriginAtLastStationIsExcluded` | webapp/go/main.go:370-373 | a train whose origin is its last station is not listed |
| `Search.SameStationJourney` | webapp/go/main.go:355-363 | a journey from a station to itself is listed by a train whose scan reaches the station |
| `Search.Availability` | webapp/go/main.go:428-454 | × exactly for 0 free seats, ○ exactly for 10 or more, △ otherwise |
| `Search.AvailabilityIsMonotone` | webapp/go/main.go:428-433 | more free seats never show a worse symbol |
| `Search.SeatAvailability` | webapp/go/main.go:457-463 | the map has the five class keys, the four counted classes get their symbols, and non-reserved is always ○ |
| `Search.FareInformation` | webapp/go/main.go:466-493 | the map has the five class keys, each the search total of its class's fare, the smoking classes quoted like the non-smoking ones |
| `Search.BuildSeatResDict` | webapp/go/main.go:611-638 | the dictionary loop builds the position-keyed dictionary |
| `Search.ResIndexHoldsLast` | webapp/go/main.go:636-637 | a position is present exactly when some row has it, and the dictionary keeps the last such row |
| `Search.Lookup` | webapp/go/main.go:647-654 | a station name missing from the dictionary panics |
| `Search.MapOccupancy` | webapp/go/main.go:645-677 | the occupancy the seat map shows for a held seat, as written: the arrival name's lookup overwrites the departure station, and the arrival id stays 0 |
| `Search.MarkSeatMap` | webapp/go/main.go:640-681 | the seat loop computes the seat map |
| `Search.SeatMapMeaning` | webapp/go/main.go:640-681 | the seat map lists every seat in order with its own class, smoking flag and mark, and panics exactly when some seat's lookups do |
| `Search.SeatMapPanics` | webapp/go/main.go:647-654 | one failing lookup makes the whole seat map panic |
| `Search.DownSeatMapShowsNoOccupiedSeat` | webapp/go/main.go:666-676 | as written, on a down train no seat is shown occupied |
| `Search.UpSeatMark` | webapp/go/main.go:656-665 | as written, on an up train a seat is shown occupied exactly when the journey does not lie wholly past the arrival station of the kept reservation |
| `Search.IntendedMarkIsOverlap` | webapp/go/main.go:645-677 | with the departure and arrival stations both looked up, a forward down journey sees a seat as taken exactly when the kept reservation's segment overlaps it |
| `Search.SeatMapMissesIdenticalJourney` | webapp/go/main.go:645-677 | a seat held from station 1 to 3 shows free to a traveller from 1 to 3 as written, and taken with the intended lookups |
| `Reserve.Dummies` | webapp/go/reserve_handler.go:550-554 | n dummy seats of row 0 and empty column, none when n is zero or less |
| `Reserve.FaresOf` | webapp/go/main.go:185-190 | the rules selected for a train class and seat class are exactly the fare-master rows of that train class and that seat class |
| `Reserve.FaresOfKeepsOrder` | webapp/go/main.go:185-190 | the filter keeps table order: filtering two tables one after the other gives the filter of their concatenation |
| `Reserve.Route` | webapp/go/reserve_handler.go:98-212 | the route step: the four stations looked up by name, the train class stopping at both requested stations, and the segment within the train's run |
| `Reserve.Choose` | webapp/go/reserve_handler.go:218-416 | the seat step: non-reserved without seats passes through, an unusable class is refused, no seats runs the ambiguous search, given seats must each be in the seat master |
| `Reserve.Confirm` | webapp/go/reserve_handler.go:418-589 | the duplicate check, then car 0 and dummy seats for non-reserved, then the amount from the seat class's fare |
| `Reserve.Reserve` | webapp/go/reserve_handler.go:98-589 | the whole handler: the route step, the seat step, the duplicate check, the dummy seats and the amount |
| `Reserve.ChooseSeats` | webapp/go/reserve_handler.go:218-416 | the seat step: non-reserved without seats passes through, an unusable class is refused, no seats runs the allocation, given seats must all be in the seat master |
| `Reserve.SeatClassFare` | webapp/go/reserve_handler.go:557-588 | the fare step: the fare of one of the three seat classes, any other class refused as unknown |
| `Reserve.ConfirmSeats` | webapp/go/reserve_handler.go:418-589 | the duplicate check, the dummy seats and the amount compute the last part of the pipeline |
| `Reserve.BookSeats` | webapp/go/reserve_handler.go:214-589 | the seat step followed by the last part computes the pipeline after the route step |
| `Reserve.TrainReservation` | webapp/go/reserve_handler.go:98-589 | the handler's steps compute the reservation pipeline |
| `Reserve.RouteChecked` | webapp/go/reserve_handler.go:98-212 | a reservation goes through only when the four stations are known, the train class is known and stops at both requested stations, and the segment passes the range check |
| `Reserve.ReservedSeatsAreNotShared` | webapp/go/reserve_handler.go:434-541 | a successful reserved or premium reservation shares no seat of its car with any overlapping stored reservation |
| `Reserve.AmbiguousReservation` | webapp/go/reserve_handler.go:218-392 | a successful reservation without seats that is not non-reserved had a usable train class, and took the ambiguous allocation's car (1 to 16) and its adult+child seats, no seat twice when the seat master has one row per seat |
| `Reserve.ExplicitReservation` | webapp/go/reserve_handler.go:393-416 | a successful reservation with seats keeps the requested car and seats, each in the seat master |
| `Reserve.NonReservedReservation` | webapp/go/reserve_handler.go:545-555 | a successful non-reserved reservation is stored in car 0 with adult+child dummy seats |
| `Reserve.ChargedAmount` | webapp/go/reserve_handler.go:557-589 | the seat class is one of the three known ones and the amount is `adult*fare + (child*fare)/2` of that class's fare for the journey |

## Left out

- HTTP routing, JSON, sessions and error responses. Payment calls. SQL text, transactions and `FOR UPDATE` locking. The queries' results are inputs, and concurrent reservations are not modelled.
- The insertion of the reservation and its seat rows after the amount is computed. That is persistence.
- RFC 3339 parsing and time zones. A date is an integer count of local seconds. A date that fails to parse is not modelled: the handler logs it and goes on.
- `checkAvailableDate` and `getUsableTrainClassList` are not part of this model. The usability of the train class is the `usable` parameter of `Reserve.Reserve`.
- `FetchFare` is not part of this model. Its rules are the fare master filtered in table order (`Reserve.FaresOf`, `Reserve.FaresOfKeepsOrder`).
- The train re-fetches inside the handler are not modelled. The same train row is used throughout.
- The zero `Station{}` returned alongside a failed lookup is not modelled. Every lookup that fails ends its handler, except the seat map's missing arrival variable, which is modelled.
- Float64 distances and multipliers are `real`, with no IEEE rounding.
- Fares.ReservationAmount: uses unbounded integers. Go's 64-bit `int` wraps past 2^63-1 in `(req.Adult * fare) + (req.Child*fare)/2` (webapp/go/reserve_handler.go:589), and the handler never bounds the party size. A huge party on the explicit-seat path gets a wrapped, possibly negative, amount in the source but the exact total here.
- Fares.SearchAmount: uses unbounded integers. The search's `fare*adult + fare/2*child` (webapp/go/main.go:471-485) wraps past 2^63-1 in Go, and the model does not.
- Fares.Trunc: the conversion `int(float64(...))` (webapp/go/main.go:207) is implementation-defined in Go for values outside the int64 range. The model truncates any real toward zero, without a bound.
- Reserve.ChargedAmount: states the amount over unbounded integers, so it is the source's amount only while no product or sum passes 2^63-1 (see `Fares.ReservationAmount` above).
- Listing the stored reservations for the occupancy scan is not modelled. The reservation queries join seat rows to reservations without a join condition. The model takes each reservation together with its own seat rows.
- `CheckStops`: after the response for an unknown train class, the handler logs `err.Error()` with a nil `err`, which would panic. The model stops at the rejection.
- The search handler's cap of ten results and its departure/arrival time queries are not modelled. The per-car list of the seat map (`SimpleCarInformation`) is not modelled either.
- Allocation.CarSeatsMeaning: the seat master is given in (row, column) order, as the query's `ORDER BY seat_row, seat_column` reads it (webapp/go/reserve_handler.go:255, webapp/go/main.go:593). The model keeps the order it is given and does not sort, so the seat choice and the seat map follow the source only for a layout in that order.
- SeatUniqueness.AllocatedSeatsAreDistinct: holds for a seat master with one row per train class, car, row and column (`UniqueSeats`). The table's schema is not part of this model, so that uniqueness is a premise, not a fact proved here.
- Search counts of free seats per class are inputs of `Search.SeatAvailability`. They come from queries this model does not include.
