/** The journey rules of webapp/go/reserve_handler.go: which trains stop where,
    whether a requested segment lies on the train's run, and when two journeys
    on one seat conflict. Journeys are pairs of station ids (ordinals). */
module Journey {
  import opened Model

  /** The overlap rule, written once for the three copies in the source.
      A new journey `from` -> `to` conflicts with an existing one `dep` -> `arr`
      unless it ends before the existing one boards or starts after it alights.
      On an up train (`isNobori`) ids decrease along the direction of travel. */
  predicate Conflicts(isNobori: bool, from: int, to: int, dep: int, arr: int)
  {
    if isNobori then
      !((to < arr && from <= arr) || (to >= dep && from > dep))
    else
      !((from < dep && to <= dep) || (from >= arr && to > arr))
  }

  /** Down train: the new journey passes exactly when it lies wholly before the
      existing one's boarding station or wholly after its alighting station. */
  lemma DownConflictRule(from: int, to: int, dep: int, arr: int)
    ensures !Conflicts(false, from, to, dep, arr) <==>
      (from < dep && to <= dep) || (from >= arr && to > arr)
  {
  }

  /** Up train: the mirrored comparisons. */
  lemma UpConflictRule(from: int, to: int, dep: int, arr: int)
    ensures !Conflicts(true, from, to, dep, arr) <==>
      (to < arr && from <= arr) || (to >= dep && from > dep)
  {
  }

  /** The up rule is the down rule read with every ordinal negated: the two
      directions are one rule, not two. */
  lemma UpIsMirroredDown(from: int, to: int, dep: int, arr: int)
    ensures Conflicts(true, from, to, dep, arr) == Conflicts(false, -from, -to, -dep, -arr)
  {
  }

  /** For journeys that run in the train's direction, the rule is intersection
      of the open intervals between boarding and alighting stations. */
  lemma DownConflictIsOpenIntersection(from: int, to: int, dep: int, arr: int)
    requires from < to && dep < arr
    ensures Conflicts(false, from, to, dep, arr) <==> from < arr && dep < to
  {
  }

  lemma UpConflictIsOpenIntersection(from: int, to: int, dep: int, arr: int)
    requires from > to && dep > arr
    ensures Conflicts(true, from, to, dep, arr) <==> from > arr && dep > to
  {
  }

  /** Sharing a boundary station never conflicts, and an identical journey
      always does, in either direction. */
  lemma BoundarySharingIsFree(isNobori: bool, from: int, to: int, dep: int, arr: int)
    requires if isNobori then from > to && dep > arr else from < to && dep < arr
    ensures to == dep ==> !Conflicts(isNobori, from, to, dep, arr)
    ensures from == arr ==> !Conflicts(isNobori, from, to, dep, arr)
    ensures Conflicts(isNobori, from, to, from, to)
  {
  }

  /** The conflict rule is symmetric between well-directed journeys: the
      existing one conflicts with the new one exactly when the new one
      conflicts with it. */
  lemma ConflictIsSymmetric(isNobori: bool, from: int, to: int, dep: int, arr: int)
    requires if isNobori then from > to && dep > arr else from < to && dep < arr
    ensures Conflicts(isNobori, from, to, dep, arr) == Conflicts(isNobori, dep, arr, from, to)
  {
  }

  /** Train classes of the line. */
  const Express := "最速"
  const SemiExpress := "中間"
  const Local := "遅いやつ"

  /** The stop flag of `s` for `trainClass`. */
  predicate StopsAt(trainClass: string, s: Station)
  {
    if trainClass == Express then s.isStopExpress
    else if trainClass == SemiExpress then s.isStopSemiExpress
    else trainClass == Local && s.isStopLocal
  }

  /** The stop-flag check: an unknown train class is rejected, and so is a
      known class that does not stop at both ends of the journey. */
  function CheckStops(trainClass: string, from: Station, to: Station): (r: Result<()>)
    ensures r.Ok? <==> trainClass in {Express, SemiExpress, Local} && StopsAt(trainClass, from) && StopsAt(trainClass, to)
    ensures r == Err(UnknownTrainClass) <==> trainClass !in {Express, SemiExpress, Local}
    ensures r.Err? ==> r.error in {UnknownTrainClass, StationNotServed}
  {
    match trainClass
    case "最速" =>
      if !from.isStopExpress || !to.isStopExpress then Err(StationNotServed) else Ok(())
    case "中間" =>
      if !from.isStopSemiExpress || !to.isStopSemiExpress then Err(StationNotServed) else Ok(())
    case "遅いやつ" =>
      if !from.isStopLocal || !to.isStopLocal then Err(StationNotServed) else Ok(())
    case _ => Err(UnknownTrainClass)
  }

  /** `x` lies between `lo` and `hi`, both included. */
  predicate Between(lo: int, x: int, hi: int)
  {
    lo <= x <= hi
  }

  /** The route-range check against the train's first station `start` and
      last station `last`, as the source writes it. */
  function CheckRoute(isNobori: bool, from: int, to: int, start: int, last: int): (r: Result<()>)
    ensures r.Err? ==> r.error == RouteNotServed
    ensures !isNobori ==> (r.Ok? <==> Between(start, from, last - 1) && Between(start, to, last))
    ensures isNobori ==> (r.Ok? <==> Between(last + 1, from, start) && Between(last, to, start))
  {
    if isNobori then
      if from > start || to > start then Err(RouteNotServed)
      else if last >= from || last > to then Err(RouteNotServed)
      else Ok(())
    else
      if from < start || to < start then Err(RouteNotServed)
      else if last <= from || last < to then Err(RouteNotServed)
      else Ok(())
  }

  /** The route check does not look at the journey's direction: on a down
      train a journey from a later station back to an earlier one passes. */
  lemma RouteCheckAcceptsReversedJourney()
    ensures CheckRoute(false, 3, 2, 1, 5).Ok?
    ensures CheckRoute(true, 2, 3, 5, 1).Ok?
  {
  }

  /** The up check is the down check read with every ordinal negated. */
  lemma RouteCheckUpIsMirroredDown(from: int, to: int, start: int, last: int)
    ensures CheckRoute(true, from, to, start, last) == CheckRoute(false, -from, -to, -start, -last)
  {
  }
}
