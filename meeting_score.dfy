/** The two scoring validators, `validator_from_text` and
    `validator_from_dict`: they walk a plan and count the meetings that are
    valid, stopping at the first step that raises ValueError. Any other
    exception is not caught and escapes to the caller. */
module MeetingScore {
  import opened Py
  import opened MeetingTime
  import opened MeetingConstraints
  import opened MeetingSteps

  /** What a scorer keeps between steps: `cur_time`, `cur_location`, the keys
      of `met_with` and `score`. */
  datatype Tally = Tally(time: int, location: string, met: set<string>, score: nat)

  /** How one step of a scorer ends: the loop goes on, a ValueError is caught
      and ends the loop (`break`), or another exception escapes. */
  datatype Flow = Continue(next: Tally) | Stop | Raise(error: Error)

  /** An exception raised inside the `try` of a scorer. */
  function Raised(e: Error): (f: Flow)
    ensures f.Stop? <==> e == ValueError
    ensures f.Raise? <==> e != ValueError
    ensures f.Raise? ==> f.error == e
  {
    if e == ValueError then Stop else Raise(e)
  }

  /** A meeting the scorers accept: at the person's location, starting no
      earlier than the window opens and, lasting the required length, ending
      no later than it closes. */
  predicate ValidMeeting(c: Constraint, location: string, time: int) {
    location == c.location && time >= c.startTime && time + c.meetingTime <= c.endTime
  }

  /** The meeting part both scorers share, once the person is known. */
  function ScoreMeeting(t: Tally, person: string, cons: map<string, Constraint>): Flow {
    if person in t.met then Stop
    else
      match RecordOf(cons, person)
      case Err(e) => Raised(e)
      case Ok(c) =>
        if ValidMeeting(c, t.location, t.time)
        then Continue(t.(met := t.met + {person}, score := t.score + 1, time := t.time + c.meetingTime))
        else Stop
  }

  /** One step of `validator_from_text` on a sentence read as `k`. */
  function TextStep(t: Tally, k: Kind, cons: map<string, Constraint>, dist: Distances): Flow {
    match k
    case Start => Continue(t)
    case Travel(destination) =>
      if destination.Err? then Raised(destination.error)
      else
        (match TravelTime(dist, t.location, destination.value)
         case Err(e) => Raised(e)
         case Ok(minutes) => Continue(t.(time := t.time + minutes, location := destination.value)))
    case Wait(raw, until) =>
      if raw.Err? then Raised(raw.error)
      else if until.Err? then Raised(until.error)
      else if until.value <= t.time then Stop
      else Continue(t.(time := until.value))
    case Meet(person, _) =>
      if person.Err? then Raised(person.error) else ScoreMeeting(t, person.value, cons)
    case Unknown => Stop
  }

  /** The score of `validator_from_text` from step `i` on, or the exception
      that escapes, with each sentence read into a `Kind` by `read`. The
      scorer reads with `ReadStep`; the lemmas below hold for any reader. */
  function TextFrom(plan: seq<string>, read: string -> Kind, i: nat, t: Tally, cons: map<string, Constraint>, dist: Distances): Result<nat>
    requires i <= |plan|
    decreases |plan| - i
  {
    if i == |plan| then Ok(t.score)
    else
      match TextStep(t, read(plan[i]), cons, dist)
      case Continue(next) => TextFrom(plan, read, i + 1, next, cons, dist)
      case Stop => Ok(t.score)
      case Raise(e) => Err(e)
  }

  /** The result of `validator_from_text`; an unreadable `initial_time`
      raises before the loop. */
  function TextScore(plan: seq<string>, cons: map<string, Constraint>, startLocation: string,
                     initialTime: string, dist: Distances): Result<nat>
  {
    match ConvertToTimeObj(initialTime)
    case Err(e) => Err(e)
    case Ok(start) => TextFrom(plan, ReadStep, 0, Tally(start, startLocation, {}, 0), cons, dist)
  }

  /** `validator_from_text`. */
  method ValidatorFromText(plan: seq<string>, cons: map<string, Constraint>, startLocation: string,
                           initialTime: string, dist: Distances) returns (r: Result<nat>)
    ensures r == TextScore(plan, cons, startLocation, initialTime, dist)
  {
    var start := ConvertToTimeObj(initialTime);
    if start.Err? {
      return Err(start.error);
    }
    var t := Tally(start.value, startLocation, {}, 0);
    ghost var result := TextFrom(plan, ReadStep, 0, t, cons, dist);
    for i := 0 to |plan|
      invariant TextFrom(plan, ReadStep, i, t, cons, dist) == result
    {
      match TextStep(t, ReadStep(plan[i]), cons, dist)
      case Continue(next) =>
        t := next;
      case Stop =>
        break;
      case Raise(e) =>
        return Err(e);
    }
    return Ok(t.score);
  }

  /** One element of the plan `validator_from_dict` takes; a JSON `null`
      location is the empty string. */
  datatype Record = Record(location: string, person: string, startTime: string)

  /** The part of a record step after any travel: the clock jumps to the
      record's start time, which may not lie before it, and the person, when
      a constraint key, is met there. */
  function Arrive(t: Tally, r: Record, cons: map<string, Constraint>): Flow {
    match ConvertToTimeObj(r.startTime)
    case Err(e) => Raised(e)
    case Ok(start) =>
      if start < t.time then Stop
      else if r.person !in cons then Continue(t.(time := start))
      else ScoreMeeting(t.(time := start), r.person, cons)
  }

  /** One step of `validator_from_dict`: travel happens only when the record
      names a location other than the current one. */
  function DictStep(t: Tally, r: Record, cons: map<string, Constraint>, dist: Distances): Flow {
    if r.location != "" && r.location != t.location then
      match TravelTime(dist, t.location, r.location)
      case Err(e) => Raised(e)
      case Ok(minutes) => Arrive(t.(time := t.time + minutes, location := r.location), r, cons)
    else Arrive(t, r, cons)
  }

  /** The score of `validator_from_dict` from record `i` of `steps` on. */
  function DictFrom(steps: seq<Record>, i: nat, t: Tally, cons: map<string, Constraint>, dist: Distances): Result<nat>
    requires i <= |steps|
    decreases |steps| - i
  {
    if i == |steps| then Ok(t.score)
    else
      match DictStep(t, steps[i], cons, dist)
      case Continue(next) => DictFrom(steps, i + 1, next, cons, dist)
      case Stop => Ok(t.score)
      case Raise(e) => Err(e)
  }

  /** `plan[1:]`. */
  function AfterFirst(plan: seq<Record>): seq<Record> {
    if plan == [] then [] else plan[1..]
  }

  /** The result of `validator_from_dict`: the first record is skipped. */
  function DictScore(plan: seq<Record>, cons: map<string, Constraint>, startLocation: string,
                     initialTime: string, dist: Distances): Result<nat>
  {
    match ConvertToTimeObj(initialTime)
    case Err(e) => Err(e)
    case Ok(start) => DictFrom(AfterFirst(plan), 0, Tally(start, startLocation, {}, 0), cons, dist)
  }

  /** `validator_from_dict`. */
  method ValidatorFromDict(plan: seq<Record>, cons: map<string, Constraint>, startLocation: string,
                           initialTime: string, dist: Distances) returns (r: Result<nat>)
    ensures r == DictScore(plan, cons, startLocation, initialTime, dist)
  {
    var start := ConvertToTimeObj(initialTime);
    if start.Err? {
      return Err(start.error);
    }
    var steps := AfterFirst(plan);
    var t := Tally(start.value, startLocation, {}, 0);
    ghost var result := DictFrom(steps, 0, t, cons, dist);
    for i := 0 to |steps|
      invariant DictFrom(steps, i, t, cons, dist) == result
    {
      match DictStep(t, steps[i], cons, dist)
      case Continue(next) =>
        t := next;
      case Stop =>
        break;
      case Raise(e) =>
        return Err(e);
    }
    return Ok(t.score);
  }

  /** The score counts the distinct constraint keys met so far. */
  predicate Counted(t: Tally, cons: map<string, Constraint>) {
    t.met <= cons.Keys && t.score == |t.met|
  }

  /** A meeting scores exactly when the person is a constraint key not met
      before and the meeting is valid; it then takes the person's required
      length and changes nothing but the clock, the met set and the score.
      Meeting someone twice stops the loop; meeting someone who is not a key
      raises KeyError out of the scorer, and an invalid first meeting with a
      key stops the loop ("Invalid meeting time or location"). */
  lemma {:induction false} ScoreMeetingCases(t: Tally, p: string, cons: map<string, Constraint>)
    ensures ScoreMeeting(t, p, cons).Continue? <==>
              p !in t.met && p in cons && ValidMeeting(cons[p], t.location, t.time)
    ensures ScoreMeeting(t, p, cons).Continue? ==>
              ScoreMeeting(t, p, cons).next
                == Tally(t.time + cons[p].meetingTime, t.location, t.met + {p}, t.score + 1)
    ensures p in t.met ==> ScoreMeeting(t, p, cons) == Stop
    ensures p !in t.met && p in cons && !ValidMeeting(cons[p], t.location, t.time) ==>
              ScoreMeeting(t, p, cons) == Stop
    ensures p !in t.met && p !in cons ==> ScoreMeeting(t, p, cons) == Raise(KeyError("meeting_time"))
  {
    if p !in t.met && p in cons {
      assert RecordOf(cons, p) == Ok(cons[p]);
    }
  }

  /** Scoring a meeting keeps the score equal to the number of keys met. */
  lemma {:induction false} ScoreMeetingCounted(t: Tally, p: string, cons: map<string, Constraint>)
    requires Counted(t, cons)
    requires ScoreMeeting(t, p, cons).Continue?
    ensures Counted(ScoreMeeting(t, p, cons).next, cons)
  {
    ScoreMeetingCases(t, p, cons);
    assert |t.met + {p}| == |t.met| + 1;
  }

  /** A subset is no larger than its superset. */
  lemma {:induction false} SubsetNoLarger(a: set<string>, b: set<string>)
    requires a <= b
    ensures |a| <= |b|
    decreases |a|
  {
    if a != {} {
      var x :| x in a;
      SubsetNoLarger(a - {x}, b - {x});
    }
  }

  /** Every step of `validator_from_text` that goes on keeps the count. */
  lemma {:induction false} TextStepCounted(t: Tally, k: Kind, cons: map<string, Constraint>, dist: Distances)
    requires Counted(t, cons)
    requires TextStep(t, k, cons, dist).Continue?
    ensures Counted(TextStep(t, k, cons, dist).next, cons)
  {
    if k.Meet? {
      ScoreMeetingCounted(t, k.person.value, cons);
    }
  }

  /** From a counted state, the text scorer returns at most one point per
      constraint key. */
  lemma {:induction false} TextFromBounded(plan: seq<string>, read: string -> Kind, i: nat, t: Tally, cons: map<string, Constraint>, dist: Distances)
    requires i <= |plan| && Counted(t, cons)
    ensures TextFrom(plan, read, i, t, cons, dist).Ok? ==> t.score <= TextFrom(plan, read, i, t, cons, dist).value <= |cons.Keys|
    decreases |plan| - i
  {
    SubsetNoLarger(t.met, cons.Keys);
    if i < |plan| {
      var k := read(plan[i]);
      var f := TextStep(t, k, cons, dist);
      if f.Continue? {
        assert TextFrom(plan, read, i, t, cons, dist) == TextFrom(plan, read, i + 1, f.next, cons, dist);
        TextStepCounted(t, k, cons, dist);
        TextFromBounded(plan, read, i + 1, f.next, cons, dist);
      }
    }
  }

  /** The score of `validator_from_text` never exceeds the number of people
      with constraints. */
  lemma TextScoreBounded(plan: seq<string>, cons: map<string, Constraint>, startLocation: string,
                         initialTime: string, dist: Distances)
    ensures TextScore(plan, cons, startLocation, initialTime, dist).Ok? ==>
              TextScore(plan, cons, startLocation, initialTime, dist).value <= |cons.Keys|
  {
    var start := ConvertToTimeObj(initialTime);
    if start.Ok? {
      TextFromBounded(plan, ReadStep, 0, Tally(start.value, startLocation, {}, 0), cons, dist);
    }
  }

  /** The text scorer never reads the stated length of a meeting: two
      sentences that differ only there score alike. */
  lemma TextIgnoresStatedMinutes(t: Tally, person: Result<string>, m1: Result<int>, m2: Result<int>,
                                 cons: map<string, Constraint>, dist: Distances)
    ensures TextStep(t, Meet(person, m1), cons, dist) == TextStep(t, Meet(person, m2), cons, dist)
  {
  }

  /** The sentences the text scorer does not get past: a wait that does not
      move the clock forward, an unreadable wait time, a repeated meeting and
      a sentence of no known form; an unknown route raises KeyError. */
  lemma TextStops(t: Tally, raw: string, until: int, p: string, m: Result<int>, dest: string,
                  cons: map<string, Constraint>, dist: Distances)
    ensures until <= t.time ==> TextStep(t, Wait(Ok(raw), Ok(until)), cons, dist) == Stop
    ensures TextStep(t, Wait(Ok(raw), Err(ValueError)), cons, dist) == Stop
    ensures p in t.met ==> TextStep(t, Meet(Ok(p), m), cons, dist) == Stop
    ensures TextStep(t, Unknown, cons, dist) == Stop
    ensures t.location !in dist ==> TextStep(t, Travel(Ok(dest)), cons, dist) == Raise(KeyError(t.location))
  {
  }

  /** Once a step stops the scorer, the rest of the plan is never read: the
      score is the one reached before that step. */
  lemma {:induction false} TextStopIgnoresRest(plan: seq<string>, more: seq<string>, read: string -> Kind, i: nat, t: Tally,
                                               cons: map<string, Constraint>, dist: Distances)
    requires i < |plan|
    requires TextStep(t, read(plan[i]), cons, dist).Stop?
    ensures TextFrom(plan + more, read, i, t, cons, dist) == TextFrom(plan, read, i, t, cons, dist) == Ok(t.score)
  {
    assert (plan + more)[i] == plan[i];
  }

  /** An exception other than ValueError at step `i` escapes the scorer. */
  lemma {:induction false} TextRaiseEscapes(plan: seq<string>, read: string -> Kind, i: nat, t: Tally, e: Error,
                                            cons: map<string, Constraint>, dist: Distances)
    requires i < |plan|
    requires TextStep(t, read(plan[i]), cons, dist) == Raise(e)
    ensures TextFrom(plan, read, i, t, cons, dist) == Err(e) && e != ValueError
  {
  }

  /** Every record step that goes on keeps the count; a record naming no
      constraint key moves only the clock and the location. */
  lemma {:induction false} DictStepCounted(t: Tally, r: Record, cons: map<string, Constraint>, dist: Distances)
    requires Counted(t, cons)
    requires DictStep(t, r, cons, dist).Continue?
    ensures Counted(DictStep(t, r, cons, dist).next, cons)
    ensures r.person !in cons ==> DictStep(t, r, cons, dist).next.met == t.met
    ensures r.person !in cons ==> DictStep(t, r, cons, dist).next.score == t.score
    ensures r.person !in cons ==> DictStep(t, r, cons, dist).next.time == ConvertToTimeObj(r.startTime).value
  {
    var u := if r.location != "" && r.location != t.location
             then t.(time := t.time + TravelTime(dist, t.location, r.location).value, location := r.location)
             else t;
    assert DictStep(t, r, cons, dist) == Arrive(u, r, cons);
    if r.person in cons {
      var start := ConvertToTimeObj(r.startTime).value;
      ScoreMeetingCounted(u.(time := start), r.person, cons);
    }
  }

  /** From a counted state, the record scorer returns at most one point per
      constraint key. */
  lemma {:induction false} DictFromBounded(steps: seq<Record>, i: nat, t: Tally, cons: map<string, Constraint>, dist: Distances)
    requires i <= |steps| && Counted(t, cons)
    ensures DictFrom(steps, i, t, cons, dist).Ok? ==> t.score <= DictFrom(steps, i, t, cons, dist).value <= |cons.Keys|
    decreases |steps| - i
  {
    SubsetNoLarger(t.met, cons.Keys);
    if i < |steps| {
      var f := DictStep(t, steps[i], cons, dist);
      if f.Continue? {
        DictStepCounted(t, steps[i], cons, dist);
        DictFromBounded(steps, i + 1, f.next, cons, dist);
      }
    }
  }

  /** The score of `validator_from_dict` never exceeds the number of people
      with constraints. */
  lemma DictScoreBounded(plan: seq<Record>, cons: map<string, Constraint>, startLocation: string,
                         initialTime: string, dist: Distances)
    ensures DictScore(plan, cons, startLocation, initialTime, dist).Ok? ==>
              DictScore(plan, cons, startLocation, initialTime, dist).value <= |cons.Keys|
  {
    var start := ConvertToTimeObj(initialTime);
    if start.Ok? {
      DictFromBounded(AfterFirst(plan), 0, Tally(start.value, startLocation, {}, 0), cons, dist);
    }
  }

  /** The first record, the starting point, is never read. */
  lemma FirstRecordIgnored(first: Record, other: Record, rest: seq<Record>, cons: map<string, Constraint>,
                           startLocation: string, initialTime: string, dist: Distances)
    ensures DictScore([first] + rest, cons, startLocation, initialTime, dist)
         == DictScore([other] + rest, cons, startLocation, initialTime, dist)
  {
    assert AfterFirst([first] + rest) == rest == AfterFirst([other] + rest);
  }

  /** A record travels only when it names a location other than the current
      one; the trip costs the route's minutes and an unknown route raises
      KeyError out of the scorer. */
  lemma DictTravel(t: Tally, r: Record, cons: map<string, Constraint>, dist: Distances)
    ensures r.location == "" || r.location == t.location ==> DictStep(t, r, cons, dist) == Arrive(t, r, cons)
    ensures r.location != "" && r.location != t.location && t.location in dist && r.location in dist[t.location] ==>
              DictStep(t, r, cons, dist)
                == Arrive(t.(time := t.time + dist[t.location][r.location], location := r.location), r, cons)
    ensures r.location != "" && r.location != t.location && t.location !in dist ==>
              DictStep(t, r, cons, dist) == Raise(KeyError(t.location))
    ensures r.location != "" && r.location != t.location && t.location in dist && r.location !in dist[t.location] ==>
              DictStep(t, r, cons, dist) == Raise(KeyError(r.location))
  {
  }

  /** A record whose start time lies before the time the traveller can be
      there stops the scorer. */
  lemma ArriveTooEarly(t: Tally, r: Record, cons: map<string, Constraint>, start: int)
    requires ConvertToTimeObj(r.startTime) == Ok(start) && start < t.time
    ensures Arrive(t, r, cons) == Stop
  {
  }

  /** The example plan of the record scorer's documentation: start at Russian
      Hill at 9:00AM, travel seven minutes to Marina District, meet James
      there from 3:45PM for his 75 minutes. It scores one meeting. */
  lemma JamesScenario()
    ensures DictScore(
              [Record("Russian Hill", "N/A", "9:00AM"),
               Record("Marina District", "N/A", "9:07AM"),
               Record("Marina District", "James", "3:45PM")],
              map["James" := Constraint("Marina District", 945, 1290, 75)],
              "Russian Hill", "9:00AM",
              map["Russian Hill" := map["Marina District" := 7]])
         == Ok(1)
  {
    var nine, sevenPast, quarterTo := "9:00AM", "9:07AM", "3:45PM";
    assert nine[1] == ':' && nine[..1] == "9" && nine[2..4] == "00" && nine[4..] == "AM";
    assert sevenPast[1] == ':' && sevenPast[..1] == "9" && sevenPast[2..4] == "07" && sevenPast[4..] == "AM";
    assert quarterTo[1] == ':' && quarterTo[..1] == "3" && quarterTo[2..4] == "45" && quarterTo[4..] == "PM";
    assert ConvertToTimeObj(nine) == Ok(540);
    assert ConvertToTimeObj(sevenPast) == Ok(547);
    assert ConvertToTimeObj(quarterTo) == Ok(945);
  }
}
