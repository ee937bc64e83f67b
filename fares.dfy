/** Fare calculation of webapp/go/main.go: the distance step table
    (getDistanceFare), the date-effective multiplier (fareCalc), and the
    adult/child totals charged at reservation and quoted by the search. */
module Fares {
  import opened Model
  import opened StationCache

  /** The bound below step `k` as the scan sees it: the previous step's
      distance, and 0 before the first step. */
  function LowerBound(steps: seq<DistanceFare>, k: int): real
    requires 0 <= k <= |steps|
  {
    if k == 0 then 0.0 else steps[k - 1].distance
  }

  /** The scan stops at step `k`: the distance lies strictly between the
      bound below the step and the step's own bound. */
  predicate BreaksAt(steps: seq<DistanceFare>, d: real, k: int)
    requires 0 <= k < |steps|
  {
    LowerBound(steps, k) < d < steps[k].distance
  }

  /** The step the scan stops at, or `|steps|` when it runs through. */
  function BreakIndex(steps: seq<DistanceFare>, d: real): (k: int)
    ensures 0 <= k <= |steps|
    ensures k < |steps| ==> BreaksAt(steps, d, k)
    ensures forall j :: 0 <= j < k ==> !BreaksAt(steps, d, j)
  {
    if steps == [] then 0
    else
      var n := |steps| - 1;
      var k := BreakIndex(steps[..n], d);
      assert forall j :: 0 <= j < n ==> steps[..n][j] == steps[j];
      assert forall j :: 0 <= j < n ==> BreaksAt(steps[..n], d, j) == BreaksAt(steps, d, j);
      if k < n then k
      else if BreaksAt(steps, d, n) then n
      else |steps|
  }

  /** The stopping step is the first step the scan can stop at. */
  lemma BreakIndexIsFirst(steps: seq<DistanceFare>, d: real, k: int)
    requires 0 <= k <= |steps|
    requires k < |steps| ==> BreaksAt(steps, d, k)
    requires forall j :: 0 <= j < k ==> !BreaksAt(steps, d, j)
    ensures BreakIndex(steps, d) == k
  {
  }

  /** The fare the scan returns for distance `d`: the fare of the step before
      the one it stops at (0 when it stops at the first step), and the last
      step's fare when it never stops. */
  function StepFare(steps: seq<DistanceFare>, d: real): int
  {
    var k := BreakIndex(steps, d);
    if k == 0 then 0 else steps[k - 1].fare
  }

  /** getDistanceFare over the table sorted by distance. */
  method GetDistanceFare(steps: seq<DistanceFare>, d: real) returns (fare: int)
    ensures fare == StepFare(steps, d)
  {
    var lastDistance := 0.0;
    var lastFare := 0;
    for i := 0 to |steps|
      invariant forall j :: 0 <= j < i ==> !BreaksAt(steps, d, j)
      invariant lastDistance == LowerBound(steps, i)
      invariant lastFare == if i == 0 then 0 else steps[i - 1].fare
    {
      if lastDistance < d && d < steps[i].distance {
        // the loop breaks here and the function returns the fare kept so far
        BreakIndexIsFirst(steps, d, i);
        return lastFare;
      }
      lastDistance := steps[i].distance;
      lastFare := steps[i].fare;
    }
    BreakIndexIsFirst(steps, d, |steps|);
    return lastFare;
  }

  /** An empty table gives 0; otherwise the fare is 0 or one of the table's fares. */
  lemma StepFareIsTableFare(steps: seq<DistanceFare>, d: real)
    ensures steps == [] ==> StepFare(steps, d) == 0
    ensures StepFare(steps, d) == 0 || exists k :: 0 <= k < |steps| && steps[k].fare == StepFare(steps, d)
  {
    var k := BreakIndex(steps, d);
    if k > 0 {
      assert steps[k - 1].fare == StepFare(steps, d);
    }
  }

  /** Bounds in table order, as `ORDER BY distance` reads them (ties allowed). */
  predicate Ascending(steps: seq<DistanceFare>)
  {
    forall i, j :: 0 <= i < j < |steps| ==> steps[i].distance <= steps[j].distance
  }

  /** On an ascending table, a distance strictly inside the gap below step
      `k` gets the fare of step `k - 1` (0 below the first bound). */
  lemma StepFareInGap(steps: seq<DistanceFare>, d: real, k: int)
    requires Ascending(steps)
    requires 0 <= k < |steps| && LowerBound(steps, k) < d < steps[k].distance
    ensures StepFare(steps, d) == if k == 0 then 0 else steps[k - 1].fare
  {
    forall j | 0 <= j < k
      ensures !BreaksAt(steps, d, j)
    {
      assert steps[j].distance <= steps[k - 1].distance;
    }
    BreakIndexIsFirst(steps, d, k);
  }

  /** On an ascending table with non-negative bounds, the scan never stops
      for a distance of 0 or less, for a distance equal to a bound, or for a
      distance at or past the last bound: all get the last step's fare. */
  lemma StepFareOffGap(steps: seq<DistanceFare>, d: real)
    requires Ascending(steps) && |steps| > 0 && steps[0].distance >= 0.0
    requires d <= 0.0 || d >= steps[|steps| - 1].distance || exists j :: 0 <= j < |steps| && steps[j].distance == d
    ensures StepFare(steps, d) == steps[|steps| - 1].fare
  {
    forall b | 0 <= b < |steps|
      ensures !BreaksAt(steps, d, b)
    {
      if d <= 0.0 {
        if b > 0 {
          assert steps[0].distance <= steps[b - 1].distance;
        }
      } else if d >= steps[|steps| - 1].distance {
        assert steps[b].distance <= steps[|steps| - 1].distance;
      } else {
        var j :| 0 <= j < |steps| && steps[j].distance == d;
        if j < b {
          assert steps[j].distance <= LowerBound(steps, b);
        } else if j > b {
          assert steps[b].distance <= steps[j].distance;
        }
      }
    }
  }

  /** A table of two steps: 300 lies past the first bound and below the
      second, so it is charged the first step's fare. */
  lemma StepFareExample()
    ensures StepFare([DistanceFare(150.0, 1000), DistanceFare(400.0, 2500)], 300.0) == 1000
    ensures StepFare([DistanceFare(150.0, 1000), DistanceFare(400.0, 2500)], 100.0) == 0
    ensures StepFare([DistanceFare(150.0, 1000), DistanceFare(400.0, 2500)], 150.0) == 2500
  {
    var steps := [DistanceFare(150.0, 1000), DistanceFare(400.0, 2500)];
    StepFareInGap(steps, 300.0, 1);
    StepFareInGap(steps, 100.0, 0);
    StepFareOffGap(steps, 150.0);
  }

  /** Seconds per day. */
  const Day := 86400

  /** The date cut to the start of its day (dates are seconds of local
      wall-clock time since the epoch). */
  function Midnight(t: int): (m: int)
    ensures m <= t < m + Day && m % Day == 0
  {
    t - t % Day
  }

  /** Go's int(float64) conversion: truncation toward zero. */
  function Trunc(x: real): (n: int)
    ensures x >= 0.0 ==> n as real <= x < n as real + 1.0
    ensures x < 0.0 ==> n as real - 1.0 < x <= n as real
  {
    if x >= 0.0 then x.Floor else -((-x).Floor)
  }

  /** The rule fareCalc selects for day `day`: `rules[0]` unless some rule has
      taken effect by then, in which case the last such rule in list order. */
  function LastEffective(rules: seq<Fare>, day: int): (f: Fare)
    requires |rules| > 0
  {
    var n := |rules| - 1;
    if rules[n].startDate <= day then rules[n]
    else if n == 0 then rules[0]
    else LastEffective(rules[..n], day)
  }

  /** Rule `k` is the last rule of the list in effect on day `day`. */
  predicate LastInEffect(rules: seq<Fare>, day: int, k: int)
  {
    0 <= k < |rules| && rules[k].startDate <= day && forall j :: k < j < |rules| ==> rules[j].startDate > day
  }

  /** When no rule is in effect yet, the first rule is selected. */
  lemma {:induction false} NoRuleInEffect(rules: seq<Fare>, day: int)
    requires |rules| > 0
    requires forall k :: 0 <= k < |rules| ==> rules[k].startDate > day
    ensures LastEffective(rules, day) == rules[0]
  {
    var n := |rules| - 1;
    if n > 0 {
      var prefix := rules[..n];
      assert forall k :: 0 <= k < n ==> prefix[k].startDate > day by {
        forall k | 0 <= k < n
          ensures prefix[k].startDate > day
        {
          assert prefix[k] == rules[k];
        }
      }
      NoRuleInEffect(prefix, day);
    }
  }

  /** When some rule is in effect, the selected rule is the last one in effect. */
  lemma {:induction false} LastRuleInEffect(rules: seq<Fare>, day: int, k0: int)
    requires 0 <= k0 < |rules| && rules[k0].startDate <= day
    ensures exists k :: LastInEffect(rules, day, k) && LastEffective(rules, day) == rules[k]
  {
    var n := |rules| - 1;
    if rules[n].startDate <= day {
      assert LastInEffect(rules, day, n);
    } else {
      var prefix := rules[..n];
      assert prefix[k0] == rules[k0];
      LastRuleInEffect(prefix, day, k0);
      var k :| LastInEffect(prefix, day, k) && LastEffective(prefix, day) == prefix[k];
      assert prefix[k] == rules[k];
      forall j | k < j < |rules|
        ensures rules[j].startDate > day
      {
        if j < n {
          assert prefix[j] == rules[j];
        }
      }
      assert LastInEffect(rules, day, k);
    }
  }

  /** The selected rule is the last one in effect, or the first rule when none is. */
  lemma {:induction false} LastEffectiveMeaning(rules: seq<Fare>, day: int)
    requires |rules| > 0
    ensures (forall k :: 0 <= k < |rules| ==> rules[k].startDate > day) ==> LastEffective(rules, day) == rules[0]
    ensures (exists k :: 0 <= k < |rules| && rules[k].startDate <= day) ==>
      exists k :: LastInEffect(rules, day, k) && LastEffective(rules, day) == rules[k]
  {
    if forall k :: 0 <= k < |rules| ==> rules[k].startDate > day {
      NoRuleInEffect(rules, day);
    } else {
      var k0 :| 0 <= k0 < |rules| && rules[k0].startDate <= day;
      LastRuleInEffect(rules, day, k0);
    }
  }

  /** The selection loop of fareCalc. */
  method SelectFare(rules: seq<Fare>, date: int) returns (selected: Fare)
    requires |rules| > 0
    ensures selected == LastEffective(rules, Midnight(date))
  {
    var day := Midnight(date);
    selected := rules[0];
    for i := 0 to |rules|
      invariant selected == LastEffective(rules[..if i == 0 then 1 else i], day)
    {
      assert rules[..i + 1][..i] == rules[..i];
      if day >= rules[i].startDate {
        selected := rules[i];
      }
    }
    assert rules[..|rules|] == rules;
  }

  /** The fare of one passenger from station id `dep` to `dest` on day of
      `date`, over the distance table `steps` and the multiplier rules
      `rules` of the train and seat class. */
  function Price(cache: StationMaster, date: int, dep: int, dest: int, steps: seq<DistanceFare>, rules: seq<Fare>): Result<int>
    reads cache
  {
    var from :- cache.FetchByID(dep);
    var to :- cache.FetchByID(dest);
    var distFare := StepFare(steps, Abs(to.distance - from.distance));
    if |rules| == 0 then Err(FareDataMissing)
    else Ok(Scaled(distFare, LastEffective(rules, Midnight(date)).multiplier))
  }

  /** The distance fare times the multiplier, converted back to an integer
      as Go's int(float64) does; for non-negative factors it is at most the
      exact product and less than one below it. */
  function Scaled(distFare: int, m: real): (p: int)
    ensures distFare >= 0 && m >= 0.0 ==> 0 <= p && p as real <= distFare as real * m < p as real + 1.0
  {
    var x := distFare as real * m;
    assert distFare >= 0 && m >= 0.0 ==> x >= 0.0;
    Trunc(x)
  }

  function Abs(x: real): (y: real)
    ensures y >= 0.0 && (y == x || y == -x)
  {
    if x < 0.0 then -x else x
  }

  /** fareCalc. */
  method FareCalc(cache: StationMaster, date: int, dep: int, dest: int, steps: seq<DistanceFare>, rules: seq<Fare>)
    returns (r: Result<int>)
    ensures r == Price(cache, date, dep, dest, steps, rules)
  {
    var from :- cache.FetchByID(dep);
    var to :- cache.FetchByID(dest);
    var distFare := GetDistanceFare(steps, Abs(to.distance - from.distance));
    if |rules| == 0 {
      return Err(FareDataMissing);
    }
    var selected := SelectFare(rules, date);
    return Ok(Scaled(distFare, selected.multiplier));
  }

  /** The fare fails exactly when a station id is unknown or there is no
      rule; otherwise it is the step fare for the distance between the two
      stations, scaled by the multiplier of the rule selected for the day. */
  lemma PriceMeaning(cache: StationMaster, date: int, dep: int, dest: int, steps: seq<DistanceFare>, rules: seq<Fare>)
    ensures var r := Price(cache, date, dep, dest, steps, rules);
      (r.Ok? <==> dep in cache.byId && dest in cache.byId && |rules| > 0) &&
      (r.Err? && (dep !in cache.byId || dest !in cache.byId) ==> r.error == StationNotFound) &&
      (r.Err? && dep in cache.byId && dest in cache.byId ==> r.error == FareDataMissing)
    ensures dep in cache.byId && dest in cache.byId && |rules| > 0 ==>
      Price(cache, date, dep, dest, steps, rules).value ==
        Scaled(StepFare(steps, Abs(cache.byId[dest].distance - cache.byId[dep].distance)), LastEffective(rules, Midnight(date)).multiplier)
  {
  }

  /** The distance is symmetric, so a journey costs what the journey back costs. */
  lemma PriceIsSymmetric(cache: StationMaster, date: int, dep: int, dest: int, steps: seq<DistanceFare>, rules: seq<Fare>)
    requires dep in cache.byId && dest in cache.byId
    ensures Price(cache, date, dep, dest, steps, rules) == Price(cache, date, dest, dep, steps, rules)
  {
    var a := cache.byId[dep].distance;
    var b := cache.byId[dest].distance;
    assert Abs(b - a) == Abs(a - b);
  }

  /** A rule change takes effect at the start of its day: two dates on the
      same day select the same rule. */
  lemma SameDaySameRule(rules: seq<Fare>, t1: int, t2: int)
    requires |rules| > 0
    requires t1 / Day == t2 / Day
    ensures LastEffective(rules, Midnight(t1)) == LastEffective(rules, Midnight(t2))
  {
    assert Midnight(t1) == (t1 / Day) * Day;
    assert Midnight(t2) == (t2 / Day) * Day;
  }

  /** Go's integer division, truncating toward zero. */
  function GoDiv(a: int, b: int): (q: int)
    requires b > 0
    ensures a >= 0 ==> q * b <= a < q * b + b
    ensures a < 0 ==> q * b - b < a <= q * b
  {
    if a >= 0 then a / b else -((-a) / b)
  }

  /** The total charged by the reservation: adults pay the fare, children
      pay half the fare of all children together, cut toward zero. */
  function ReservationAmount(fare: int, adult: int, child: int): int
  {
    adult * fare + GoDiv(child * fare, 2)
  }

  /** The total quoted by the search: each child pays half the fare, cut
      toward zero, per child. */
  function SearchAmount(fare: int, adult: int, child: int): int
  {
    fare * adult + GoDiv(fare, 2) * child
  }

  /** With a non-negative fare and child count the two totals differ by the
      children's odd halves: the reservation charges `child / 2` more when the
      fare is odd, so they disagree exactly when the fare is odd and there are
      at least two children. */
  lemma AmountsDiffer(fare: int, adult: int, child: int)
    requires fare >= 0 && child >= 0
    ensures ReservationAmount(fare, adult, child) - SearchAmount(fare, adult, child) == if fare % 2 == 1 then child / 2 else 0
    ensures ReservationAmount(fare, adult, child) != SearchAmount(fare, adult, child) <==> fare % 2 == 1 && child >= 2
  {
    var h := fare / 2;
    ChildrenHalf(fare, child);
    assert GoDiv(fare, 2) * child == child * h;
    assert adult * fare == fare * adult;
  }

  /** Half the fare of all children together is the children's halves plus
      half a unit per child when the fare is odd. */
  lemma ChildrenHalf(fare: int, child: int)
    requires fare >= 0 && child >= 0
    ensures GoDiv(child * fare, 2) == child * (fare / 2) + (if fare % 2 == 1 then child / 2 else 0)
  {
    var h := fare / 2;
    assert child * fare >= 0;
    if fare % 2 == 1 {
      assert fare == 2 * h + 1;
      OddProduct(child, h);
      HalfOf(child * h, child);
    } else {
      assert fare == 2 * h;
      EvenProduct(child, h);
      HalfOf(child * h, 0);
    }
  }

  lemma OddProduct(c: int, h: int)
    ensures c * (2 * h + 1) == 2 * (c * h) + c
  {
  }

  lemma EvenProduct(c: int, h: int)
    ensures c * (2 * h) == 2 * (c * h) + 0
  {
  }

  /** Halving `2 * x + y` halves `y` alone. */
  lemma HalfOf(x: int, y: int)
    requires y >= 0
    ensures (2 * x + y) / 2 == x + y / 2
  {
    var q := y / 2;
    assert y == 2 * q + y % 2;
    assert 2 * x + y == 2 * (x + q) + y % 2;
  }

  /** The two totals on sample fares: one adult and one child at 2500 pay
      3750 either way; an odd fare of 1001 with two children differs by one. */
  lemma AmountExamples()
    ensures ReservationAmount(2500, 1, 1) == 3750 && SearchAmount(2500, 1, 1) == 3750
    ensures ReservationAmount(1001, 0, 2) == 1001 && SearchAmount(1001, 0, 2) == 1000
  {
  }
}
