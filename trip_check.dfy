/** `check_trip_constraints` of the trip planner: a trip, a list of
    `(city, days)` stays in the order visited, is checked against the rules
    of each city (its required number of days, the cities it has direct
    flights to and the days a stay there may begin). Every violation is
    collected; a day counter starting at 1 tracks where each stay begins. */
module TripCheck {
  import opened Py
  import opened TripParse

  /** The rules for one city: `num_days`, `flights` and `day_constraints`. */
  datatype CityRule = CityRule(numDays: int, flights: seq<string>, dayConstraints: seq<int>)

  type Rules = map<string, CityRule>

  /** One stay of a trip. */
  type Stay = (string, int)

  /** The violations the checker reports, one per message it appends. */
  datatype TripError =
    | CityNotFound(city: string)
    | DaysMismatch(city: string, expected: int, got: int)
    | StartDayNotAllowed(city: string, day: int, allowedDays: seq<int>)
    | NotReachable(city: string, from: string, allowedFlights: seq<string>)

  /** How far a stay moves the day counter: a known city shares its last
      day with the next stay's first (the flight day), an unknown city is
      skipped with all its days. */
  function Advance(rules: Rules, stay: Stay): int {
    if stay.0 in rules then stay.1 - 1 else stay.1
  }

  /** The day on which the stay after `trip` begins. */
  function StartDay(rules: Rules, trip: seq<Stay>): int {
    if trip == [] then 1 else StartDay(rules, trip[..|trip| - 1]) + Advance(rules, trip[|trip| - 1])
  }

  /** The city visited before stay `i`, if any. */
  function PrevOf(trip: seq<Stay>, i: nat): Option<string>
    requires i < |trip|
  {
    if i == 0 then None else Some(trip[i - 1].0)
  }

  /** The violations of one stay of `days` days in `city`, begun on `day`
      after a stay in `prev`, or KeyError when `city` is known but `prev` is
      not. */
  function StayErrors(rules: Rules, prev: Option<string>, city: string, days: int, day: int): Result<seq<TripError>> {
    if city !in rules then Ok([CityNotFound(city)])
    else
      var rule := rules[city];
      var mismatch := if days != rule.numDays then [DaysMismatch(city, rule.numDays, days)] else [];
      var early := if rule.dayConstraints != [] && day !in rule.dayConstraints
                   then [StartDayNotAllowed(city, day, rule.dayConstraints)] else [];
      match prev
      case None => Ok(mismatch + early)
      case Some(p) =>
        if p !in rules then Err(KeyError(p))
        else
          var unreachable := if city !in rules[p].flights then [NotReachable(city, p, rules[p].flights)] else [];
          Ok(mismatch + early + unreachable)
  }

  /** The violations of a whole trip, stay after stay, or the KeyError of
      the first stay that raises. */
  function Checked(rules: Rules, trip: seq<Stay>): Result<seq<TripError>> {
    if trip == [] then Ok([])
    else
      var n := |trip| - 1;
      match Checked(rules, trip[..n])
      case Err(e) => Err(e)
      case Ok(errors) =>
        match StayErrors(rules, PrevOf(trip, n), trip[n].0, trip[n].1, StartDay(rules, trip[..n]))
        case Err(e) => Err(e)
        case Ok(more) => Ok(errors + more)
  }

  /** The checks of one stay of `check_trip_constraints` on a city with
      rules, appending to `errors`. */
  method CheckKnownStay(rules: Rules, prev: Option<string>, city: string, days: int, day: int,
                        errors: seq<TripError>) returns (r: Result<seq<TripError>>)
    requires city in rules
    ensures r.Err? <==> StayErrors(rules, prev, city, days, day).Err?
    ensures r.Err? ==> r.error == StayErrors(rules, prev, city, days, day).error
    ensures r.Ok? ==> r.value == errors + StayErrors(rules, prev, city, days, day).value
  {
    var rule := rules[city];
    ghost var mismatch: seq<TripError>, early: seq<TripError> := [], [];
    var out := errors;
    if days != rule.numDays {
      mismatch := [DaysMismatch(city, rule.numDays, days)];
      out := out + [DaysMismatch(city, rule.numDays, days)];
    }
    if rule.dayConstraints != [] {
      if day !in rule.dayConstraints {
        early := [StartDayNotAllowed(city, day, rule.dayConstraints)];
        out := out + [StartDayNotAllowed(city, day, rule.dayConstraints)];
      }
    }
    assert out == errors + (mismatch + early);
    if prev.Some? {
      var p := prev.value;
      if p !in rules {
        return Err(KeyError(p));
      }
      if city !in rules[p].flights {
        out := out + [NotReachable(city, p, rules[p].flights)];
        assert out == errors + (mismatch + early + [NotReachable(city, p, rules[p].flights)]);
      } else {
        assert mismatch + early + [] == mismatch + early;
      }
    }
    return Ok(out);
  }

  /** Once a prefix of the trip raises, the rest does not matter. */
  lemma {:induction false} CheckedStopsAtError(rules: Rules, trip: seq<Stay>, n: nat)
    requires n <= |trip| && Checked(rules, trip[..n]).Err?
    ensures Checked(rules, trip) == Checked(rules, trip[..n])
    decreases |trip| - n
  {
    if n < |trip| {
      var longer := trip[..n + 1];
      assert longer[..n] == trip[..n];
      assert Checked(rules, longer) == Checked(rules, trip[..n]);
      CheckedStopsAtError(rules, trip, n + 1);
    } else {
      assert trip[..n] == trip;
    }
  }

  /** `check_trip_constraints`. */
  method CheckTripConstraints(rules: Rules, trip: seq<Stay>) returns (r: Result<seq<TripError>>)
    ensures r == Checked(rules, trip)
  {
    var errors: seq<TripError> := [];
    var day := 1;
    for i := 0 to |trip|
      invariant Checked(rules, trip[..i]) == Ok(errors)
      invariant day == StartDay(rules, trip[..i])
    {
      var (city, days) := trip[i];
      var upTo := trip[..i + 1];
      assert upTo[..i] == trip[..i] && upTo[i] == trip[i];
      assert PrevOf(upTo, i) == PrevOf(trip, i);
      if city !in rules {
        errors := errors + [CityNotFound(city)];
        day := day + days;
        continue;
      }
      var step := CheckKnownStay(rules, PrevOf(trip, i), city, days, day, errors);
      if step.Err? {
        CheckedStopsAtError(rules, trip, i + 1);
        return Err(step.error);
      }
      errors := step.value;
      day := day + days - 1;
    }
    assert trip[..|trip|] == trip;
    return Ok(errors);
  }

  /** What one stay contributes: an unknown city exactly one CityNotFound
      and nothing else; a known city a days mismatch exactly when its length
      is wrong, a start-day violation exactly when the city restricts its
      start days and the day is not among them, and an unreachability
      violation exactly when there is a previous city whose flights do not
      include it. A known city after an unknown one raises KeyError. */
  lemma StayCases(rules: Rules, prev: Option<string>, city: string, days: int, day: int)
    ensures city !in rules ==> StayErrors(rules, prev, city, days, day) == Ok([CityNotFound(city)])
    ensures city in rules && prev.Some? && prev.value !in rules ==>
              StayErrors(rules, prev, city, days, day) == Err(KeyError(prev.value))
    ensures city in rules && (prev.None? || prev.value in rules) ==>
              var es := StayErrors(rules, prev, city, days, day);
              var rule := rules[city];
              && es.Ok?
              && |es.value| <= 3
              && CityNotFound(city) !in es.value
              && (DaysMismatch(city, rule.numDays, days) in es.value <==> days != rule.numDays)
              && (StartDayNotAllowed(city, day, rule.dayConstraints) in es.value <==>
                    rule.dayConstraints != [] && day !in rule.dayConstraints)
              && (prev.None? ==> forall e :: e in es.value ==> !e.NotReachable?)
              && (prev.Some? ==>
                    (NotReachable(city, prev.value, rules[prev.value].flights) in es.value <==>
                       city !in rules[prev.value].flights))
  {
  }

  /** The errors of a prefix of a trip that is checked to the end begin the
      errors of the whole trip: the checker never returns early. */
  lemma {:induction false} CheckedPrefix(rules: Rules, trip: seq<Stay>, m: nat)
    requires m <= |trip| && Checked(rules, trip).Ok?
    ensures Checked(rules, trip[..m]).Ok?
    ensures Checked(rules, trip[..m]).value <= Checked(rules, trip).value
    decreases |trip| - m
  {
    if m == |trip| {
      assert trip[..m] == trip;
    } else {
      CheckedPrefix(rules, trip, m + 1);
      var longer := trip[..m + 1];
      assert longer[..m] == trip[..m];
    }
  }

  /** Each stay's violations appear in the trip's list, in the order of the
      stays, checked with the day the counter gives that stay. */
  lemma {:induction false} CheckedCollectsAll(rules: Rules, trip: seq<Stay>, i: nat)
    requires i < |trip| && Checked(rules, trip).Ok?
    ensures Checked(rules, trip[..i]).Ok?
    ensures StayErrors(rules, PrevOf(trip, i), trip[i].0, trip[i].1, StartDay(rules, trip[..i])).Ok?
    ensures Checked(rules, trip[..i]).value
            + StayErrors(rules, PrevOf(trip, i), trip[i].0, trip[i].1, StartDay(rules, trip[..i])).value
            <= Checked(rules, trip).value
  {
    CheckedPrefix(rules, trip, i + 1);
    var upTo := trip[..i + 1];
    assert upTo[..i] == trip[..i] && upTo[i] == trip[i];
    assert PrevOf(upTo, i) == PrevOf(trip, i);
  }

  /** A known city right after an unknown one makes the checker raise
      KeyError for the unknown one, whatever follows. */
  lemma {:induction false} CheckedRaises(rules: Rules, trip: seq<Stay>, i: nat)
    requires 0 < i < |trip| && trip[i].0 in rules && trip[i - 1].0 !in rules
    requires Checked(rules, trip[..i]).Ok?
    ensures Checked(rules, trip) == Err(KeyError(trip[i - 1].0))
  {
    var upTo := trip[..i + 1];
    assert upTo[..i] == trip[..i] && upTo[i] == trip[i];
    assert Checked(rules, upTo) == Err(KeyError(trip[i - 1].0));
    CheckedStopsAtError(rules, trip, i + 1);
  }

  /** When every city of the trip has rules, the counter after it is one
      plus the days of all stays less one shared day per stay. */
  lemma {:induction false} StartDayKnown(rules: Rules, trip: seq<Stay>)
    requires forall k :: 0 <= k < |trip| ==> trip[k].0 in rules
    ensures StartDay(rules, trip) == 1 + TotalStay(trip) - |trip|
  {
    if trip != [] {
      var front := trip[..|trip| - 1];
      assert forall k :: 0 <= k < |front| ==> front[k] == trip[k];
      StartDayKnown(rules, front);
    }
  }

  /** A plan rebuilt by `parse_response` whose cities all have rules ends,
      by the checker's day counter, on the last day of its last range. */
  lemma CounterEndsOnLastDay(rules: Rules, ends: seq<nat>, flights: seq<Flight>)
    requires ends != [] && flights != []
    requires forall k :: 0 <= k < |Rebuilt(ends, flights)| ==> Rebuilt(ends, flights)[k].0 in rules
    ensures StartDay(rules, Rebuilt(ends, flights)) == ends[|ends| - 1]
  {
    RebuiltCities(ends, flights);
    StaysAddUp(ends, flights);
    StartDayKnown(rules, Rebuilt(ends, flights));
  }

  /** Two cities with direct flights both ways, where a stay in A may only
      begin on day 1 and one in B only on day 3. */
  function TwoCities(): Rules {
    map["A" := CityRule(3, ["B"], [1]), "B" := CityRule(2, ["A"], [3])]
  }

  /** The same cities with no flight from B to A. */
  function OneWay(): Rules {
    map["A" := CityRule(3, ["B"], []), "B" := CityRule(2, [], [])]
  }

  /** An empty trip has no violations; A then B satisfies both cities; B
      then A begins each stay on a day the city does not allow; an unknown
      city before a known one raises KeyError. */
  lemma TwoCityTrips()
    ensures Checked(TwoCities(), []) == Ok([])
    ensures Checked(TwoCities(), [("A", 3), ("B", 2)]) == Ok([])
    ensures Checked(TwoCities(), [("B", 2), ("A", 3)])
         == Ok([StartDayNotAllowed("B", 1, [3]), StartDayNotAllowed("A", 2, [1])])
    ensures Checked(TwoCities(), [("C", 2), ("A", 3)]) == Err(KeyError("C"))
  {
    var rules := TwoCities();
    assert "A"[0] != "B"[0] && "C"[0] != "A"[0] && "C"[0] != "B"[0];
    var ab: seq<Stay> := [("A", 3), ("B", 2)];
    var ba: seq<Stay> := [("B", 2), ("A", 3)];
    var ca: seq<Stay> := [("C", 2), ("A", 3)];
    var none: seq<Stay> := [];
    assert ab[..1][..0] == none && ba[..1][..0] == none && ca[..1][..0] == none;
    assert ab[..1] == [("A", 3)] && ba[..1] == [("B", 2)] && ca[..1] == [("C", 2)];
    assert StartDay(rules, none) == 1 && Checked(rules, none) == Ok([]);
    assert StayErrors(rules, None, "A", 3, 1).Ok? && StayErrors(rules, None, "B", 2, 1).Ok?;
    assert StayErrors(rules, None, "A", 3, 1).value == [];
    assert Checked(rules, ab[..1]).value == [];
    assert StartDay(rules, ab[..1]) == 3;
    assert StayErrors(rules, Some("A"), "B", 2, 3).value == [];
    assert Checked(rules, ab).value == [];
    assert StayErrors(rules, None, "B", 2, 1).value == [StartDayNotAllowed("B", 1, [3])];
    assert Checked(rules, ba[..1]).value == [StartDayNotAllowed("B", 1, [3])];
    assert StartDay(rules, ba[..1]) == 2;
    assert StayErrors(rules, Some("B"), "A", 3, 2).value == [StartDayNotAllowed("A", 2, [1])];
    assert Checked(rules, ba).value == [StartDayNotAllowed("B", 1, [3]), StartDayNotAllowed("A", 2, [1])];
    assert Checked(rules, ca[..1]).value == [CityNotFound("C")];
  }

  /** A flight from A to B does not make A reachable from B. */
  lemma OneWayTrips()
    ensures Checked(OneWay(), [("A", 3), ("B", 2)]) == Ok([])
    ensures Checked(OneWay(), [("B", 2), ("A", 3)]) == Ok([NotReachable("A", "B", [])])
  {
    var rules := OneWay();
    assert "A"[0] != "B"[0];
    var ab: seq<Stay> := [("A", 3), ("B", 2)];
    var ba: seq<Stay> := [("B", 2), ("A", 3)];
    var none: seq<Stay> := [];
    assert ab[..1][..0] == none && ba[..1][..0] == none;
    assert ab[..1] == [("A", 3)] && ba[..1] == [("B", 2)];
    assert StartDay(rules, none) == 1 && Checked(rules, none) == Ok([]);
    assert StayErrors(rules, None, "A", 3, 1).Ok? && StayErrors(rules, None, "B", 2, 1).Ok?;
    assert Checked(rules, ab[..1]).value == [];
    assert StayErrors(rules, Some("A"), "B", 2, 3).value == [];
    assert Checked(rules, ab).value == [];
    assert Checked(rules, ba[..1]).value == [];
    assert StayErrors(rules, Some("B"), "A", 3, 2).value == [NotReachable("A", "B", [])];
    assert Checked(rules, ba).value == [NotReachable("A", "B", [])];
  }
}
