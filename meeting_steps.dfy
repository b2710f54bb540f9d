/** The step sentences both text validators understand, and the two lookups
    they share: the travel time between two locations and the record of a
    person. */
module MeetingSteps {
  import opened Py
  import opened MeetingTime
  import opened MeetingConstraints

  /** `dist_matrix`: minutes of travel from one location to another. */
  type Distances = map<string, map<string, nat>>

  /** What a step sentence asks for, with the fields the validators extract
      from it. A field that cannot be extracted holds the exception that
      extracting it raises. */
  datatype Kind =
    | Start
    | Travel(destination: Result<string>)
    | Wait(raw: Result<string>, until: Result<int>)   // `until` is `raw` read as a time
    | Meet(person: Result<string>, minutes: Result<int>)
    | Unknown

  /** `s.split(first)[1].split(second)[0].strip()`. */
  function Between(s: string, first: string, second: string): (r: Result<string>)
    requires first != [] && second != []
    ensures r.Err? <==> Find(s, first) == -1
    ensures r.Err? ==> r.error == IndexError
  {
    match SplitSecond(s, first)
    case Err(e) => Err(e)
    case Ok(after) => Ok(Strip(SplitHead(after, second)))
  }

  /** The branch a step takes, checked in the order of the source, and the
      fields that branch extracts. The meeting length is
      `int(step.split(" for ")[1].split(" minutes")[0].strip())`. */
  function ReadStep(step: string): (k: Kind)
    ensures k.Start? <==> StartsWith(step, "You start")
    ensures k.Travel? <==> !StartsWith(step, "You start") && StartsWith(step, "You travel")
    ensures k.Wait? <==> !StartsWith(step, "You start") && !StartsWith(step, "You travel")
                         && StartsWith(step, "You wait")
    ensures k.Meet? <==> !StartsWith(step, "You start") && !StartsWith(step, "You travel")
                         && !StartsWith(step, "You wait") && StartsWith(step, "You meet")
    ensures k.Travel? ==> k.destination == Between(step, "travel to ", " in")
    ensures k.Wait? ==> k.raw == Between(step, "wait until ", ".")
    ensures k.Wait? && k.raw.Err? ==> k.until == Err(IndexError)
    ensures k.Wait? && k.raw.Ok? ==> k.until == ConvertToTimeObj(k.raw.value)
    ensures k.Meet? ==> k.person == Between(step, "meet ", " for")
  {
    if StartsWith(step, "You start") then Start
    else if StartsWith(step, "You travel") then Travel(Between(step, "travel to ", " in"))
    else if StartsWith(step, "You wait") then
      var raw := Between(step, "wait until ", ".");
      Wait(raw, if raw.Ok? then ConvertToTimeObj(raw.value) else Err(raw.error))
    else if StartsWith(step, "You meet") then
      var minutes := match Between(step, " for ", " minutes")
        case Err(e) => Err(e)
        case Ok(m) => ParseInt(m);
      Meet(Between(step, "meet ", " for"), minutes)
    else Unknown
  }

  lemma {:induction false} TravelMarker()
    ensures Find("You travel to ", "travel to ") == 4
  {
    var s := "You travel to ";
    assert s[4..14] == "travel to ";
    assert s[0] != 't' && s[1] != 't' && s[2] != 't' && s[3] != 't';
    FindFromAt(s, "travel to ", 0, 4);
  }

  lemma {:induction false} MeetMarker()
    ensures Find("You meet ", "meet ") == 4
  {
    var s := "You meet ";
    assert s[4..9] == "meet ";
    assert s[0] != 'm' && s[1] != 'm' && s[2] != 'm' && s[3] != 'm';
    FindFromAt(s, "meet ", 0, 4);
  }

  lemma {:induction false} WaitMarker()
    ensures Find("You wait until ", "wait until ") == 4
  {
    var s := "You wait until ";
    assert s[4..15] == "wait until ";
    assert s[0] != 'w' && s[1] != 'w' && s[2] != 'w' && s[3] != 'w';
    FindFromAt(s, "wait until ", 0, 4);
  }

  /** A field between an opening marker that occurs once and the first
      closing marker after it is read back as written. */
  lemma {:induction false} BetweenRoundTrip(pre: string, first: string, field: string, second: string, rest: string)
    requires first != [] && second != []
    requires Find(pre + first, first) == |pre|
    requires Find(field + second + rest, first) == -1
    requires Find(field + second, second) == |field|
    requires Strip(field) == field
    ensures Between(pre + first + field + second + rest, first, second) == Ok(field)
  {
    var tail := field + second + rest;
    SecondAfter(pre, first, tail);
    assert pre + first + tail == pre + first + field + second + rest;
    HeadBefore(field, second, rest);
  }

  /** "You travel to <destination> in ..." names that destination, when it
      has no surrounding whitespace, holds no " in" and the sentence says
      "travel to " only once. */
  lemma {:induction false} TravelField(dest: string, rest: string)
    requires Strip(dest) == dest
    requires Find(dest + " in", " in") == |dest|
    requires Find(dest + " in" + rest, "travel to ") == -1
    ensures Between("You travel to " + dest + " in" + rest, "travel to ", " in") == Ok(dest)
  {
    var opening := "You travel to ";
    TravelMarker();
    assert "You " + "travel to " == opening;
    BetweenRoundTrip("You ", "travel to ", dest, " in", rest);
    assert opening + dest + " in" + rest == "You " + "travel to " + dest + " in" + rest;
  }

  /** "You meet <person> for ..." names that person, when the name has no
      surrounding whitespace, holds no " for" and the sentence says "meet "
      only once. */
  lemma {:induction false} PersonField(person: string, rest: string)
    requires Strip(person) == person
    requires Find(person + " for", " for") == |person|
    requires Find(person + " for" + rest, "meet ") == -1
    ensures Between("You meet " + person + " for" + rest, "meet ", " for") == Ok(person)
  {
    var opening := "You meet ";
    MeetMarker();
    assert "You " + "meet " == opening;
    BetweenRoundTrip("You ", "meet ", person, " for", rest);
    assert opening + person + " for" + rest == "You " + "meet " + person + " for" + rest;
  }

  /** "You wait until <time>", as `parse_text_plan` leaves it without its
      full stop, names that time. */
  lemma {:induction false} WaitField(time: string)
    requires Strip(time) == time
    requires Find(time, ".") == -1 && Find(time, "wait until ") == -1
    ensures Between("You wait until " + time, "wait until ", ".") == Ok(time)
  {
    var opening := "You wait until ";
    WaitMarker();
    assert "You " + "wait until " == opening;
    SecondAfter("You ", "wait until ", time);
    assert opening + time == "You " + "wait until " + time;
  }

  /** `dist_matrix[from][to]`; the missing key is raised as KeyError. */
  function TravelTime(dist: Distances, from: string, to: string): (r: Result<nat>)
    ensures r.Ok? <==> from in dist && to in dist[from]
    ensures r.Ok? ==> r.value == dist[from][to]
    ensures r.Err? ==> r.error == KeyError(if from in dist then to else from)
  {
    if from !in dist then Err(KeyError(from))
    else if to !in dist[from] then Err(KeyError(to))
    else Ok(dist[from][to])
  }

  /** `processed_constraints[person]["meeting_time"]` and the other fields of
      a person. The map is the `defaultdict(dict)` that `process_constraints`
      returns, so an unknown person yields an empty record and the lookup of
      its first field, "meeting_time", raises. */
  function RecordOf(cons: map<string, Constraint>, person: string): (r: Result<Constraint>)
    ensures r.Ok? <==> person in cons
    ensures r.Ok? ==> r.value == cons[person]
    ensures r.Err? ==> r.error == KeyError("meeting_time")
  {
    if person in cons then Ok(cons[person]) else Err(KeyError("meeting_time"))
  }
}
