/** `validate_constraints`: walks a text plan step by step against the
    constraints and collects every violation it finds, never aborting; an
    exception raised by a step becomes an "Error processing step" entry. */
module MeetingFeedback {
  import opened Py
  import opened MeetingTime
  import opened MeetingConstraints
  import opened MeetingSteps

  /** One message of the violation list, in the order the checks append
      them. Times are minutes; the wording of the messages is not modelled. */
  datatype Violation =
    | InvalidWait(raw: string, current: int)
    | DoubleBooking(person: string)
    | IncorrectDuration(person: string, stated: int, required: int)
    | LocationMismatch(person: string, at: string, shouldBeAt: string)
    | TooEarly(person: string, start: int, availableFrom: int)
    | TooLate(person: string, end: int, mustEndBy: int)
    | UnknownStepFormat(step: string)
    | ErrorProcessing(step: string, error: Error)
    | DidNotMeet(people: set<string>)

  /** What `validate_constraints` keeps between steps: `cur_time`,
      `cur_location`, the keys of `met_with` and `violations`. */
  datatype Walk = Walk(time: int, location: string, met: set<string>, violations: seq<Violation>)

  /** No entry of `vs` is a "Did not meet with" entry. */
  predicate StepViolations(vs: seq<Violation>) {
    forall k :: 0 <= k < |vs| ==> !vs[k].DidNotMeet?
  }

  /** The four checks of a meeting that starts at `time` and lasts the stated
      `minutes`, in the order their messages are appended. */
  function MeetingChecks(person: string, minutes: int, c: Constraint, location: string, time: int): seq<Violation> {
    (if minutes != c.meetingTime then [IncorrectDuration(person, minutes, c.meetingTime)] else [])
    + (if location != c.location then [LocationMismatch(person, location, c.location)] else [])
    + (if time < c.startTime then [TooEarly(person, time, c.startTime)] else [])
    + (if time + minutes > c.endTime then [TooLate(person, time + minutes, c.endTime)] else [])
  }

  /** A meeting passes every check exactly when the stated length is the
      required one, it is held at the person's location and it lies within
      the person's window, both ends included; each check reports exactly
      its own failure. */
  lemma MeetingChecksSpec(person: string, minutes: int, c: Constraint, location: string, time: int)
    ensures var vs := MeetingChecks(person, minutes, c, location, time);
      && (vs == [] <==> minutes == c.meetingTime && location == c.location
                        && c.startTime <= time && time + minutes <= c.endTime)
      && (IncorrectDuration(person, minutes, c.meetingTime) in vs <==> minutes != c.meetingTime)
      && (LocationMismatch(person, location, c.location) in vs <==> location != c.location)
      && (TooEarly(person, time, c.startTime) in vs <==> time < c.startTime)
      && (TooLate(person, time + minutes, c.endTime) in vs <==> time + minutes > c.endTime)
      && |vs| <= 4
      && StepViolations(vs)
  {
  }

  /** The entry appended when a step raises. */
  function Fault(w: Walk, step: string, e: Error): Walk {
    w.(violations := w.violations + [ErrorProcessing(step, e)])
  }

  /** The "You meet" branch: the person is marked as met before any check,
      and the clock moves on by the stated length only while the whole
      violation list is empty. */
  function MeetOutcome(w: Walk, step: string, person: Result<string>, minutes: Result<int>,
                       cons: map<string, Constraint>): Walk
  {
    if person.Err? then Fault(w, step, person.error)
    else if minutes.Err? then Fault(w, step, minutes.error)
    else if person.value in w.met then w.(violations := w.violations + [DoubleBooking(person.value)])
    else
      var met := w.met + {person.value};
      match RecordOf(cons, person.value)
      case Err(e) => Fault(w.(met := met), step, e)
      case Ok(c) =>
        var vs := w.violations + MeetingChecks(person.value, minutes.value, c, w.location, w.time);
        w.(met := met, violations := vs, time := if vs == [] then w.time + minutes.value else w.time)
  }

  /** One iteration of the loop of `validate_constraints` on the sentence
      `step`, which reads as `k`. */
  function FeedbackStep(w: Walk, step: string, k: Kind, cons: map<string, Constraint>, dist: Distances): Walk {
    match k
    case Start => w
    case Travel(destination) =>
      if destination.Err? then Fault(w, step, destination.error)
      else
        (match TravelTime(dist, w.location, destination.value)
         case Err(e) => Fault(w, step, e)
         case Ok(minutes) => w.(time := w.time + minutes, location := destination.value))
    case Wait(raw, until) =>
      if raw.Err? then Fault(w, step, raw.error)
      else if until.Err? then Fault(w, step, until.error)
      else if until.value <= w.time then w.(violations := w.violations + [InvalidWait(raw.value, w.time)])
      else w.(time := until.value)
    case Meet(person, minutes) => MeetOutcome(w, step, person, minutes, cons)
    case Unknown => w.(violations := w.violations + [UnknownStepFormat(step)])
  }

  /** The state after the steps of `plan` from index `i` on. */
  function FeedbackFrom(plan: seq<string>, i: nat, w: Walk, cons: map<string, Constraint>, dist: Distances): Walk
    requires i <= |plan|
    decreases |plan| - i
  {
    if i == |plan| then w
    else FeedbackFrom(plan, i + 1, FeedbackStep(w, plan[i], ReadStep(plan[i]), cons, dist), cons, dist)
  }

  /** The list returned once all steps are walked: the step violations, then
      the people never met when there are any. */
  function Report(w: Walk, cons: map<string, Constraint>): seq<Violation> {
    var unmet := cons.Keys - w.met;
    if unmet != {} then w.violations + [DidNotMeet(unmet)] else w.violations
  }

  /** The walk `validate_constraints` starts from once `initial_time` is read. */
  function StartWalk(start: int, startLocation: string): Walk {
    Walk(start, startLocation, {}, [])
  }

  /** The walk after every step of `plan`. */
  function FinalWalk(plan: seq<string>, cons: map<string, Constraint>, start: int, startLocation: string,
                     dist: Distances): Walk
  {
    FeedbackFrom(plan, 0, StartWalk(start, startLocation), cons, dist)
  }

  /** The result of `validate_constraints`; an unreadable `initial_time`
      raises before the loop and is not caught. */
  function Validation(plan: seq<string>, cons: map<string, Constraint>, startLocation: string,
                      initialTime: string, dist: Distances): Result<seq<Violation>>
  {
    match ConvertToTimeObj(initialTime)
    case Err(e) => Err(e)
    case Ok(start) => Ok(Report(FinalWalk(plan, cons, start, startLocation, dist), cons))
  }

  /** The four checks of a meeting, each appending its message to
      `violations` when it fails. */
  method AppendChecks(violations: seq<Violation>, p: string, d: int, c: Constraint, location: string, time: int)
    returns (out: seq<Violation>)
    ensures out == violations + MeetingChecks(p, d, c, location, time)
  {
    ghost var early := if d != c.meetingTime then [IncorrectDuration(p, d, c.meetingTime)] else [];
    ghost var misplaced := if location != c.location then [LocationMismatch(p, location, c.location)] else [];
    ghost var soon := if time < c.startTime then [TooEarly(p, time, c.startTime)] else [];
    ghost var late := if time + d > c.endTime then [TooLate(p, time + d, c.endTime)] else [];
    out := violations;
    var newTime := time + d;
    if d != c.meetingTime {
      out := out + [IncorrectDuration(p, d, c.meetingTime)];
    }
    assert out == violations + early;
    if location != c.location {
      out := out + [LocationMismatch(p, location, c.location)];
    }
    assert out == violations + early + misplaced;
    if time < c.startTime {
      out := out + [TooEarly(p, time, c.startTime)];
    }
    assert out == violations + early + misplaced + soon;
    if newTime > c.endTime {
      out := out + [TooLate(p, newTime, c.endTime)];
    }
    assert out == violations + early + misplaced + soon + late;
    ConcatRegroup(violations, early, misplaced, soon, late);
  }

  /** The "You meet" branch of the loop of `validate_constraints`. */
  method MeetStep(w: Walk, step: string, person: Result<string>, minutes: Result<int>,
                  cons: map<string, Constraint>) returns (next: Walk)
    ensures next == MeetOutcome(w, step, person, minutes, cons)
  {
    next := w;
    if person.Err? {
      next := next.(violations := next.violations + [ErrorProcessing(step, person.error)]);
      return;
    }
    if minutes.Err? {
      next := next.(violations := next.violations + [ErrorProcessing(step, minutes.error)]);
      return;
    }
    var p, d := person.value, minutes.value;
    if p in next.met {
      next := next.(violations := next.violations + [DoubleBooking(p)]);
      return;
    }
    next := next.(met := next.met + {p});
    var newTime := next.time + d;
    var record := RecordOf(cons, p);
    if record.Err? {
      next := next.(violations := next.violations + [ErrorProcessing(step, record.error)]);
      return;
    }
    var violations := AppendChecks(next.violations, p, d, record.value, next.location, next.time);
    next := next.(violations := violations);
    if next.violations == [] {
      next := next.(time := newTime);
    }
  }

  /** The body of the loop of `validate_constraints` for the sentence `step`,
      which reads as `kind`; each early `return` is a `continue` of the
      source. */
  method TakeStep(w: Walk, step: string, kind: Kind, cons: map<string, Constraint>, dist: Distances)
    returns (next: Walk)
    ensures next == FeedbackStep(w, step, kind, cons, dist)
  {
    next := w;
    match kind
    case Start =>
      return;
    case Travel(destination) =>
      if destination.Err? {
        next := next.(violations := next.violations + [ErrorProcessing(step, destination.error)]);
        return;
      }
      var minutes := TravelTime(dist, next.location, destination.value);
      if minutes.Err? {
        next := next.(violations := next.violations + [ErrorProcessing(step, minutes.error)]);
        return;
      }
      next := next.(time := next.time + minutes.value);
      next := next.(location := destination.value);
    case Wait(raw, until) =>
      if raw.Err? {
        next := next.(violations := next.violations + [ErrorProcessing(step, raw.error)]);
        return;
      }
      if until.Err? {
        next := next.(violations := next.violations + [ErrorProcessing(step, until.error)]);
        return;
      }
      if until.value <= next.time {
        next := next.(violations := next.violations + [InvalidWait(raw.value, next.time)]);
        return;
      }
      next := next.(time := until.value);
    case Meet(person, minutes) =>
      next := MeetStep(w, step, person, minutes, cons);
    case Unknown =>
      next := next.(violations := next.violations + [UnknownStepFormat(step)]);
  }

  /** `validate_constraints`. */
  method ValidateConstraints(plan: seq<string>, cons: map<string, Constraint>, startLocation: string,
                             initialTime: string, dist: Distances) returns (r: Result<seq<Violation>>)
    ensures r == Validation(plan, cons, startLocation, initialTime, dist)
  {
    var start := ConvertToTimeObj(initialTime);
    if start.Err? {
      return Err(start.error);
    }
    var w := StartWalk(start.value, startLocation);
    ghost var final := FinalWalk(plan, cons, start.value, startLocation, dist);
    for i := 0 to |plan|
      invariant FeedbackFrom(plan, i, w, cons, dist) == final
    {
      w := TakeStep(w, plan[i], ReadStep(plan[i]), cons, dist);
    }
    var violations := w.violations;
    var unmet := cons.Keys - w.met;
    if unmet != {} {
      violations := violations + [DidNotMeet(unmet)];
    }
    return Ok(violations);
  }

  /** Travel on a known route moves the clock on by exactly the table's
      minutes and the walker to the destination; nothing else changes. */
  lemma TravelKnownRoute(w: Walk, step: string, dest: string, cons: map<string, Constraint>, dist: Distances)
    requires w.location in dist && dest in dist[w.location]
    ensures FeedbackStep(w, step, Travel(Ok(dest)), cons, dist)
         == w.(time := w.time + dist[w.location][dest], location := dest)
  {
  }

  /** Travel on an unknown route records exactly one "Error processing step"
      entry, for the missing key, and leaves clock and location alone. */
  lemma TravelUnknownRoute(w: Walk, step: string, dest: string, cons: map<string, Constraint>, dist: Distances)
    requires !(w.location in dist && dest in dist[w.location])
    ensures FeedbackStep(w, step, Travel(Ok(dest)), cons, dist)
         == w.(violations := w.violations + [ErrorProcessing(step, KeyError(if w.location in dist then dest else w.location))])
  {
  }

  /** Waiting until a time that is not later than the clock records one
      "Invalid wait time" entry and leaves the clock alone. */
  lemma WaitBackwards(w: Walk, step: string, raw: string, until: int, cons: map<string, Constraint>, dist: Distances)
    requires until <= w.time
    ensures FeedbackStep(w, step, Wait(Ok(raw), Ok(until)), cons, dist)
         == w.(violations := w.violations + [InvalidWait(raw, w.time)])
  {
  }

  /** Waiting until a later time sets the clock to it, so the clock strictly
      increases; nothing else changes. */
  lemma WaitForward(w: Walk, step: string, raw: string, until: int, cons: map<string, Constraint>, dist: Distances)
    requires until > w.time
    ensures FeedbackStep(w, step, Wait(Ok(raw), Ok(until)), cons, dist) == w.(time := until)
    ensures FeedbackStep(w, step, Wait(Ok(raw), Ok(until)), cons, dist).time > w.time
  {
  }

  /** Meeting someone already met appends exactly one "Double booking" entry
      and changes nothing else. */
  lemma DoubleBooked(w: Walk, step: string, person: string, minutes: int, cons: map<string, Constraint>, dist: Distances)
    requires person in w.met
    ensures FeedbackStep(w, step, Meet(Ok(person), Ok(minutes)), cons, dist)
         == w.(violations := w.violations + [DoubleBooking(person)])
  {
  }

  /** A first meeting with a person marks them as met whatever its checks
      find; the clock moves on by the stated length exactly when the whole
      violation list, earlier entries included, is still empty afterwards. */
  lemma {:induction false} MeetMarksMet(w: Walk, step: string, person: string, minutes: int,
                                        cons: map<string, Constraint>, dist: Distances)
    requires person !in w.met
    ensures var r := FeedbackStep(w, step, Meet(Ok(person), Ok(minutes)), cons, dist);
      && r.met == w.met + {person}
      && r.location == w.location
      && r.time == (if r.violations == [] then w.time + minutes else w.time)
      && (w.violations != [] ==> r.time == w.time)
      && (person in cons ==>
            r.violations == w.violations + MeetingChecks(person, minutes, cons[person], w.location, w.time))
      && (person !in cons ==>
            r.violations == w.violations + [ErrorProcessing(step, KeyError("meeting_time"))])
  {
    var r := FeedbackStep(w, step, Meet(Ok(person), Ok(minutes)), cons, dist);
    if w.violations != [] {
      assert r.violations[0] == w.violations[0];
    }
  }

  /** A step only appends to the violation list, only adds to the people
      met, and never appends a "Did not meet with" entry. */
  lemma {:induction false} StepGrows(w: Walk, step: string, k: Kind, cons: map<string, Constraint>, dist: Distances)
    ensures var r := FeedbackStep(w, step, k, cons, dist);
      && w.violations <= r.violations
      && w.met <= r.met
      && (StepViolations(w.violations) ==> StepViolations(r.violations))
  {
    if k.Meet? && k.person.Ok? && k.minutes.Ok? && k.person.value !in w.met && k.person.value in cons {
      var p := k.person.value;
      MeetingChecksSpec(p, k.minutes.value, cons[p], w.location, w.time);
    }
  }

  /** The same holds for any number of steps. */
  lemma {:induction false} WalkGrows(plan: seq<string>, i: nat, w: Walk, cons: map<string, Constraint>, dist: Distances)
    requires i <= |plan|
    ensures var r := FeedbackFrom(plan, i, w, cons, dist);
      && w.violations <= r.violations
      && w.met <= r.met
      && (StepViolations(w.violations) ==> StepViolations(r.violations))
    decreases |plan| - i
  {
    if i < |plan| {
      StepGrows(w, plan[i], ReadStep(plan[i]), cons, dist);
      WalkGrows(plan, i + 1, FeedbackStep(w, plan[i], ReadStep(plan[i]), cons, dist), cons, dist);
    }
  }

  /** The returned list holds at most one "Did not meet with" entry; it is the
      last one, it is there exactly when some constraint key was never met,
      and it names exactly those keys. The list is empty exactly when no step
      found a violation and everyone was met. */
  lemma {:induction false} ReportShape(plan: seq<string>, cons: map<string, Constraint>, start: int,
                                       startLocation: string, dist: Distances)
    ensures var w := FinalWalk(plan, cons, start, startLocation, dist);
      var r := Report(w, cons);
      && (forall k :: 0 <= k < |r| - 1 ==> !r[k].DidNotMeet?)
      && ((|r| > 0 && r[|r| - 1].DidNotMeet?) <==> cons.Keys - w.met != {})
      && (|r| > 0 && r[|r| - 1].DidNotMeet? ==> r[|r| - 1].people == cons.Keys - w.met)
      && (r == [] <==> w.violations == [] && cons.Keys <= w.met)
  {
    var w0 := StartWalk(start, startLocation);
    WalkGrows(plan, 0, w0, cons, dist);
    var w := FinalWalk(plan, cons, start, startLocation, dist);
    assert StepViolations(w.violations);
  }

  /** The plan of the worked example: start at Marina District at 9:00AM,
      travel 15 minutes to Alamo Square, wait until 2:30PM and meet Jessica
      for `minutes`, where Jessica is at Alamo Square from 2:30PM to 8:15PM
      and asks for 75 minutes. Each sentence is passed with its kind given
      as the fields it holds; the wait time is read by `ConvertToTimeObj`. */
  function JessicaWalk(minutes: nat): Walk {
    var cons := map["Jessica" := Constraint("Alamo Square", 870, 1215, 75)];
    var dist: Distances := map["Marina District" := map["Alamo Square" := 15]];
    var w0 := StartWalk(540, "Marina District");
    var w1 := FeedbackStep(w0, "You start at Marina District at 9:00AM", Start, cons, dist);
    var w2 := FeedbackStep(w1, "You travel to Alamo Square in 15 minutes and arrive at 9:15AM",
                           Travel(Ok("Alamo Square")), cons, dist);
    var w3 := FeedbackStep(w2, "You wait until 2:30PM", Wait(Ok("2:30PM"), ConvertToTimeObj("2:30PM")), cons, dist);
    FeedbackStep(w3, "You meet Jessica for " + Decimal(minutes) + " minutes from 2:30PM",
                 Meet(Ok("Jessica"), Ok(minutes)), cons, dist)
  }

  /** Meeting Jessica for the 75 minutes she asks for leaves no violation and
      ends at 3:45PM; stating 60 minutes yields exactly one "Incorrect
      meeting duration" entry, and the clock stays at 2:30PM. */
  lemma JessicaScenario()
    ensures JessicaWalk(75) == Walk(945, "Alamo Square", {"Jessica"}, [])
    ensures JessicaWalk(60) == Walk(870, "Alamo Square", {"Jessica"}, [IncorrectDuration("Jessica", 60, 75)])
  {
    UnpaddedTime(2, 30, true);
    assert TwoDigits(30) == "30";
    assert Unpadded(2, 30, true) == "2:30PM";
  }
}
