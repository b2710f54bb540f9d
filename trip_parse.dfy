/** `parse_response` of the trip planner: a model's answer is scanned line by
    line for the total trip length, day ranges such as "Day 1-7" and flights
    such as "Day 7: Fly from Madrid to London", and the visited cities and
    their stays are rebuilt from the flights. */
module TripParse {
  import opened Py

  /** One flight line: the day it is taken and its two cities. */
  datatype Flight = Flight(day: nat, from: string, to: string)

  /** What the three patterns find on one line, each the first match of its
      pattern: the number in "European cities for N days", the end day of
      the first "A-B" range, and the first "Day N ... from X to Y". */
  datatype Line = Line(total: Option<nat>, rangeEnd: Option<nat>, flight: Option<Flight>)

  /** The scan's state: the latest announced total, the end days of the
      ranges and the flights collected so far. */
  datatype Scan = Scan(total: Option<nat>, ends: seq<nat>, flights: seq<Flight>)

  /** The flight a line contributes, if any. */
  function FlightsOf(line: Line): seq<Flight> {
    if line.flight.Some? then [line.flight.value] else []
  }

  /** The range end a line contributes, if any. */
  function EndsIn(line: Line): seq<nat> {
    if line.rangeEnd.Some? then [line.rangeEnd.value] else []
  }

  /** The line scan from line `i` on: the total is updated first, then a
      range is collected, and when its end day equals the total seen so far
      the scan stops before that line's flight; otherwise the line's flight
      is collected. */
  function ScanFrom(lines: seq<Line>, i: nat, st: Scan): Scan
    requires i <= |lines|
    decreases |lines| - i
  {
    if i == |lines| then st
    else
      var line := lines[i];
      var total := if line.total.Some? then line.total else st.total;
      var ends := st.ends + EndsIn(line);
      if line.rangeEnd.Some? && Some(line.rangeEnd.value) == total then Scan(total, ends, st.flights)
      else ScanFrom(lines, i + 1, Scan(total, ends, st.flights + FlightsOf(line)))
  }

  /** The scan of a whole answer. */
  function Scanned(lines: seq<Line>): Scan {
    ScanFrom(lines, 0, Scan(None, [], []))
  }

  /** The visited cities: where the first flight leaves from, then where
      each flight lands. */
  function Cities(flights: seq<Flight>): (r: seq<string>)
    requires flights != []
    ensures |r| == |flights| + 1
  {
    [flights[0].from] + seq(|flights|, k requires 0 <= k < |flights| => flights[k].to)
  }

  /** The day each stay begins, followed by the last day: 1, the flight
      days, and the end of the last range. */
  function Boundaries(flights: seq<Flight>, last: int): (b: seq<int>)
    ensures |b| == |flights| + 2
  {
    [1] + seq(|flights|, k requires 0 <= k < |flights| => flights[k].day as int) + [last]
  }

  /** The plan rebuilt from the collected ranges and flights: each city with
      the days from its first to its last, both counted; nothing when no
      range or no flight was collected. */
  function Rebuilt(ends: seq<nat>, flights: seq<Flight>): seq<(string, int)> {
    if ends == [] || flights == [] then []
    else
      var cities := Cities(flights);
      var b := Boundaries(flights, ends[|ends| - 1]);
      seq(|cities|, k requires 0 <= k < |cities| => (cities[k], b[k + 1] - b[k] + 1))
  }

  /** The result of `parse_response`. */
  function ParsedPlan(lines: seq<Line>): seq<(string, int)> {
    Rebuilt(Scanned(lines).ends, Scanned(lines).flights)
  }

  /** The scan loop of `parse_response`. */
  method ScanLines(lines: seq<Line>) returns (total: Option<nat>, ends: seq<nat>, flights: seq<Flight>)
    ensures Scan(total, ends, flights) == Scanned(lines)
  {
    total, ends, flights := None, [], [];
    var i := 0;
    while i < |lines|
      invariant i <= |lines|
      invariant ScanFrom(lines, i, Scan(total, ends, flights)) == Scanned(lines)
    {
      var line := lines[i];
      assert flights + FlightsOf(line) == if line.flight.Some? then flights + [line.flight.value] else flights;
      assert ends + EndsIn(line) == if line.rangeEnd.Some? then ends + [line.rangeEnd.value] else ends;
      if line.total.Some? {
        total := line.total;
      }
      if line.rangeEnd.Some? {
        ends := ends + [line.rangeEnd.value];
        if Some(line.rangeEnd.value) == total {
          break;
        }
      }
      if line.flight.Some? {
        flights := flights + [line.flight.value];
      }
      i := i + 1;
    }
  }

  /** The loop over the flights of `parse_response`: the flight days in
      order, and the visited cities. */
  method TraceFlights(flights: seq<Flight>) returns (cities: seq<string>, flightDays: seq<int>)
    ensures flights == [] ==> cities == []
    ensures flights != [] ==> cities == Cities(flights)
    ensures flightDays == seq(|flights|, k requires 0 <= k < |flights| => flights[k].day as int)
  {
    cities, flightDays := [], [];
    for j := 0 to |flights|
      invariant flightDays == seq(j, k requires 0 <= k < j => flights[k].day as int)
      invariant j == 0 ==> cities == []
      invariant j > 0 ==> cities == Cities(flights[..j])
    {
      flightDays := flightDays + [flights[j].day as int];
      if cities == [] {
        cities := cities + [flights[j].from, flights[j].to];
      } else {
        cities := cities + [flights[j].to];
      }
    }
    assert flights[..|flights|] == flights;
  }

  /** `parse_response`: scans the lines, traces the flights and pairs each
      city with its stay. */
  method ParseResponse(lines: seq<Line>) returns (plan: seq<(string, int)>)
    ensures plan == ParsedPlan(lines)
  {
    var total, ends, flights := ScanLines(lines);
    var cities, flightDays := TraceFlights(flights);
    if ends == [] || flights == [] || cities == [] {
      return [];
    }
    var bounds := [1] + flightDays + [ends[|ends| - 1] as int];
    assert bounds == Boundaries(flights, ends[|ends| - 1]);
    plan := PairStays(cities, bounds);
  }

  /** The last loop of `parse_response`: each city with the days from its
      boundary to the next, both counted. */
  method PairStays(cities: seq<string>, bounds: seq<int>) returns (plan: seq<(string, int)>)
    requires |bounds| == |cities| + 1
    ensures |plan| == |cities|
    ensures forall k :: 0 <= k < |cities| ==> plan[k] == (cities[k], bounds[k + 1] - bounds[k] + 1)
  {
    plan := [];
    for k := 0 to |cities|
      invariant |plan| == k
      invariant forall j :: 0 <= j < k ==> plan[j] == (cities[j], bounds[j + 1] - bounds[j] + 1)
    {
      plan := plan + [(cities[k], bounds[k + 1] - bounds[k] + 1)];
    }
  }

  /** The total announced on the latest of the first `k` lines that
      announces one. */
  function RunningTotal(lines: seq<Line>, k: nat): Option<nat>
    requires k <= |lines|
  {
    if k == 0 then None
    else if lines[k - 1].total.Some? then lines[k - 1].total
    else RunningTotal(lines, k - 1)
  }

  /** Line `j` holds a range ending on the total announced so far. */
  predicate StopsAt(lines: seq<Line>, j: nat)
    requires j < |lines|
  {
    lines[j].rangeEnd.Some? && Some(lines[j].rangeEnd.value) == RunningTotal(lines, j + 1)
  }

  /** The range end days of `ls`, in order. */
  function EndsOf(ls: seq<Line>): seq<nat> {
    if ls == [] then []
    else
      EndsOf(ls[..|ls| - 1]) + EndsIn(ls[|ls| - 1])
  }

  /** The flights of `ls`, in order. */
  function AllFlights(ls: seq<Line>): seq<Flight> {
    if ls == [] then [] else AllFlights(ls[..|ls| - 1]) + FlightsOf(ls[|ls| - 1])
  }

  /** What a scan that has not stopped holds after `k` lines. */
  function ReadThrough(lines: seq<Line>, k: nat): Scan
    requires k <= |lines|
  {
    Scan(RunningTotal(lines, k), EndsOf(lines[..k]), AllFlights(lines[..k]))
  }

  /** Between lines `i` and `n`, where no line stops the scan, the scan
      collects every range and every flight. */
  lemma {:induction false} ScanCollects(lines: seq<Line>, i: nat, n: nat)
    requires i <= n <= |lines|
    requires forall j :: i <= j < n ==> !StopsAt(lines, j)
    ensures ScanFrom(lines, i, ReadThrough(lines, i)) == ScanFrom(lines, n, ReadThrough(lines, n))
    decreases n - i
  {
    if i < n {
      assert !StopsAt(lines, i);
      var pre := lines[..i + 1];
      assert pre[..i] == lines[..i] && pre[i] == lines[i];
      assert EndsOf(pre) == EndsOf(lines[..i]) + EndsIn(lines[i]);
      assert AllFlights(pre) == AllFlights(lines[..i]) + FlightsOf(lines[i]);
      assert ScanFrom(lines, i, ReadThrough(lines, i)) == ScanFrom(lines, i + 1, ReadThrough(lines, i + 1));
      ScanCollects(lines, i + 1, n);
    }
  }

  /** An answer in which no range ends on the announced total is read to
      the end. */
  lemma ScanReadsAll(lines: seq<Line>)
    requires forall j :: 0 <= j < |lines| ==> !StopsAt(lines, j)
    ensures Scanned(lines) == Scan(RunningTotal(lines, |lines|), EndsOf(lines), AllFlights(lines))
  {
    assert lines[..0] == [];
    ScanCollects(lines, 0, |lines|);
    assert lines[..|lines|] == lines;
  }

  /** The scan stops at the first range that ends on the total announced on
      that line or an earlier one: that range is kept, but no flight on that
      line or after it is read, and later lines change nothing. */
  lemma ScanStopsAtTotal(lines: seq<Line>, n: nat)
    requires n < |lines| && StopsAt(lines, n)
    requires forall j :: 0 <= j < n ==> !StopsAt(lines, j)
    ensures Scanned(lines) == Scan(RunningTotal(lines, n + 1), EndsOf(lines[..n + 1]), AllFlights(lines[..n]))
  {
    assert lines[..0] == [];
    ScanCollects(lines, 0, n);
    assert lines[..n + 1][..n] == lines[..n];
  }

  /** `parse_response` gives nothing exactly when the scan collected no
      range or no flight. */
  lemma ParsedEmpty(lines: seq<Line>)
    ensures ParsedPlan(lines) == [] <==> Scanned(lines).ends == [] || Scanned(lines).flights == []
  {
  }

  /** A rebuilt plan visits one city more than there are flights: the first
      flight's departure, then each flight's arrival; the departures of the
      later flights are not read. */
  lemma RebuiltCities(ends: seq<nat>, flights: seq<Flight>)
    requires ends != [] && flights != []
    ensures |Rebuilt(ends, flights)| == |flights| + 1
    ensures Rebuilt(ends, flights)[0].0 == flights[0].from
    ensures forall k :: 0 <= k < |flights| ==> Rebuilt(ends, flights)[k + 1].0 == flights[k].to
  {
    var r := Rebuilt(ends, flights);
    var cities := Cities(flights);
    assert forall k :: 0 <= k < |cities| ==> r[k].0 == cities[k];
    forall k | 0 <= k < |flights|
      ensures r[k + 1].0 == flights[k].to
    {
      assert cities[k + 1] == flights[k].to;
    }
  }

  /** Changing where a later flight leaves from changes nothing. */
  lemma LaterDeparturesIgnored(ends: seq<nat>, flights: seq<Flight>, k: nat, city: string)
    requires 0 < k < |flights|
    ensures Rebuilt(ends, flights[k := flights[k].(from := city)]) == Rebuilt(ends, flights)
  {
    var other := flights[k := flights[k].(from := city)];
    if ends != [] {
      assert Cities(other) == Cities(flights);
      assert Boundaries(other, ends[|ends| - 1]) == Boundaries(flights, ends[|ends| - 1]);
    }
  }

  /** The days of a plan, added up. */
  function TotalStay(plan: seq<(string, int)>): int {
    if plan == [] then 0 else TotalStay(plan[..|plan| - 1]) + plan[|plan| - 1].1
  }

  /** Stays measured between consecutive boundaries add up to the distance
      between the first and the `n`-th boundary, plus one day per stay. */
  lemma {:induction false} StaysTelescope(plan: seq<(string, int)>, b: seq<int>, n: nat)
    requires |b| == |plan| + 1 && n <= |plan|
    requires forall k :: 0 <= k < |plan| ==> plan[k].1 == b[k + 1] - b[k] + 1
    ensures TotalStay(plan[..n]) == b[n] - b[0] + n
  {
    if n > 0 {
      StaysTelescope(plan, b, n - 1);
      assert plan[..n][..n - 1] == plan[..n - 1];
    }
  }

  /** Consecutive stays share their flight day, so the days of a rebuilt
      plan, less one per flight, come to the last day of the last range. */
  lemma StaysAddUp(ends: seq<nat>, flights: seq<Flight>)
    requires ends != [] && flights != []
    ensures TotalStay(Rebuilt(ends, flights)) - |flights| == ends[|ends| - 1]
  {
    var plan := Rebuilt(ends, flights);
    var b := Boundaries(flights, ends[|ends| - 1]);
    StaysTelescope(plan, b, |plan|);
    assert plan[..|plan|] == plan;
  }

  /** The lines of the worked example the planner is prompted with: Madrid
      for days 1-7, a flight to London on day 7, London for days 7-10, a
      flight to Athens on day 10 and Athens for days 10-15. */
  function MadridAnswer(): seq<Line> {
    [Line(None, Some(7), None),
     Line(None, None, Some(Flight(7, "Madrid", "London"))),
     Line(None, Some(10), None),
     Line(None, None, Some(Flight(10, "London", "Athens"))),
     Line(None, Some(15), None)]
  }

  /** The worked example reads as seven days in Madrid, four in London and
      six in Athens. */
  lemma MadridExample()
    ensures ParsedPlan(MadridAnswer()) == [("Madrid", 7), ("London", 4), ("Athens", 6)]
  {
    var flights := [Flight(7, "Madrid", "London"), Flight(10, "London", "Athens")];
    assert Scanned(MadridAnswer()) == Scan(None, [7, 10, 15], flights);
    assert Cities(flights) == ["Madrid", "London", "Athens"];
    assert Boundaries(flights, 15) == [1, 7, 10, 15];
  }

  /** When the problem statement announces 15 days, an alternative plan after the
      range that ends on day 15 is not read. */
  lemma AlternativePlanIgnored()
    ensures ParsedPlan([Line(Some(15), None, None)] + MadridAnswer()
                       + [Line(None, None, Some(Flight(3, "Madrid", "Paris"))), Line(None, Some(9), None)])
         == [("Madrid", 7), ("London", 4), ("Athens", 6)]
  {
    var flights := [Flight(7, "Madrid", "London"), Flight(10, "London", "Athens")];
    var lines := [Line(Some(15), None, None)] + MadridAnswer()
                 + [Line(None, None, Some(Flight(3, "Madrid", "Paris"))), Line(None, Some(9), None)];
    var f1, f2 := [Flight(7, "Madrid", "London")], flights;
    assert f1 + [] == f1 && f2 + [] == f2 && [7] + [] == [7] && [7, 10] + [] == [7, 10];
    assert [] + [7] == [7] && [7] + [10] == [7, 10] && [7, 10] + [15] == [7, 10, 15];
    assert [] + f1 == f1 && f1 + [Flight(10, "London", "Athens")] == f2;
    assert ScanFrom(lines, 5, Scan(Some(15), [7, 10], f2)) == Scan(Some(15), [7, 10, 15], f2);
    assert ScanFrom(lines, 4, Scan(Some(15), [7, 10], f1)) == Scan(Some(15), [7, 10, 15], f2);
    assert ScanFrom(lines, 3, Scan(Some(15), [7], f1)) == Scan(Some(15), [7, 10, 15], f2);
    assert ScanFrom(lines, 2, Scan(Some(15), [7], [])) == Scan(Some(15), [7, 10, 15], f2);
    var noEnds: seq<nat>, noFlights: seq<Flight> := [], [];
    assert noEnds + [] == noEnds && noFlights + [] == noFlights;
    assert ScanFrom(lines, 1, Scan(Some(15), noEnds, noFlights)) == Scan(Some(15), [7, 10, 15], f2);
    assert ScanFrom(lines, 0, Scan(None, noEnds, noFlights)) == Scan(Some(15), [7, 10, 15], f2);
    assert Cities(flights) == ["Madrid", "London", "Athens"];
    assert Boundaries(flights, 15) == [1, 7, 10, 15];
  }
}
