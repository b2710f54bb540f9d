/** The constraint model of the meeting planner: one record per person, built
    from the `(name, location, times, meeting_time)` tuples of a problem
    instance, where `times` reads like "9:00AM to 5:00PM". */
module MeetingConstraints {
  import opened Py
  import opened MeetingTime

  /** One input tuple of `process_constraints`. */
  datatype Row = Row(name: string, location: string, times: string, meetingTime: int)

  /** What the planner knows of one person: where they are, the window in
      which they are available and the meeting length they ask for. */
  datatype Constraint = Constraint(location: string, startTime: int, endTime: int, meetingTime: int)

  /** `times.split("to")[0]` and `times.split("to")[1]`, each stripped and
      read as a time, in the order the source reads them. */
  function ParseWindow(times: string): (r: Result<(int, int)>)
    ensures r.Ok? ==> Find(times, "to") >= 0
    ensures r.Ok? ==> 0 <= r.value.0 < 1440 && 0 <= r.value.1 < 1440
  {
    match ConvertToTimeObj(Strip(SplitHead(times, "to")))
    case Err(e) => Err(e)
    case Ok(start) =>
      match SplitSecond(times, "to")
      case Err(e) => Err(e)
      case Ok(second) =>
        match ConvertToTimeObj(Strip(second))
        case Err(e) => Err(e)
        case Ok(end) => Ok((start, end))
  }

  /** The printed form of a time holds no 't' and no surrounding whitespace. */
  lemma {:induction false} TimeSpelling(t: int)
    requires 0 <= t < 1440
    ensures 't' !in FormatTime(t)
    ensures Strip(FormatTime(t) + " ") == FormatTime(t)
    ensures Strip(" " + FormatTime(t)) == FormatTime(t)
  {
    var x := FormatTime(t);
    assert !IsSpace(x[0]) && !IsSpace(x[6]);
    assert Strip(x) == x;
    assert (x + " ")[..7] == x;
    assert (" " + x)[1..] == x;
  }

  /** In "A to B" with times A and B, the first "to" is the written one. */
  lemma {:induction false} WindowSplits(a: int, b: int)
    requires 0 <= a < 1440 && 0 <= b < 1440
    ensures SplitHead(FormatTime(a) + " to " + FormatTime(b), "to") == FormatTime(a) + " "
    ensures SplitSecond(FormatTime(a) + " to " + FormatTime(b), "to") == Ok(" " + FormatTime(b))
  {
    var ta, tb := FormatTime(a), FormatTime(b);
    var s := ta + " to " + tb;
    TimeSpelling(a);
    TimeSpelling(b);
    assert s[8..10] == "to";
    assert forall j :: 0 <= j < 7 ==> s[j] == ta[j];
    FindFromAt(s, "to", 0, 8);
    assert s[..8] == ta + " ";
    var rest := s[10..];
    assert rest == " " + tb;
    assert 't' !in rest by {
      assert forall j :: 1 <= j < |rest| ==> rest[j] == tb[j - 1];
    }
    FindAbsent(rest, "to");
  }

  /** A window written the way the violation messages print times,
      "hh:mmAM to hh:mmPM", reads back as the two times it was written from. */
  lemma WindowRoundTrip(a: int, b: int)
    requires 0 <= a < 1440 && 0 <= b < 1440
    ensures ParseWindow(FormatTime(a) + " to " + FormatTime(b)) == Ok((a, b))
  {
    WindowSplits(a, b);
    TimeSpelling(a);
    TimeSpelling(b);
    TimeRoundTrip(a);
    TimeRoundTrip(b);
  }

  /** In "A to B" where neither A nor B holds a 't', the first "to" is the
      written one, whatever the spelling of the two times. */
  lemma {:induction false} SpelledWindowSplits(a: string, b: string)
    requires 't' !in a && 't' !in b
    ensures SplitHead(a + " to " + b, "to") == a + " "
    ensures SplitSecond(a + " to " + b, "to") == Ok(" " + b)
  {
    var s := a + " to " + b;
    assert s[|a| + 1..|a| + 3] == "to";
    assert forall j :: 0 <= j < |a| ==> s[j] == a[j];
    assert s[|a|] == ' ';
    FindFromAt(s, "to", 0, |a| + 1);
    assert s[..|a| + 1] == a + " ";
    var rest := s[|a| + 3..];
    assert rest == " " + b;
    assert 't' !in rest by {
      assert forall j :: 1 <= j < |rest| ==> rest[j] == b[j - 1];
    }
    FindAbsent(rest, "to");
  }

  /** A window "A to B" whose two times carry no 't' and no surrounding
      whitespace reads A, then B, exactly as `convert_to_time_obj` reads
      each of them alone: the first that fails gives the exception. */
  lemma {:induction false} SpelledWindowReads(a: string, b: string)
    requires a != [] && b != [] && 't' !in a && 't' !in b
    requires !IsSpace(a[0]) && !IsSpace(a[|a| - 1]) && !IsSpace(b[0]) && !IsSpace(b[|b| - 1])
    ensures ConvertToTimeObj(a).Err? ==> ParseWindow(a + " to " + b) == Err(ConvertToTimeObj(a).error)
    ensures ConvertToTimeObj(a).Ok? && ConvertToTimeObj(b).Err? ==>
              ParseWindow(a + " to " + b) == Err(ConvertToTimeObj(b).error)
    ensures ConvertToTimeObj(a).Ok? && ConvertToTimeObj(b).Ok? ==>
              ParseWindow(a + " to " + b) == Ok((ConvertToTimeObj(a).value, ConvertToTimeObj(b).value))
  {
    SpelledWindowSplits(a, b);
    assert Strip(a + " ") == a by {
      assert a + " " == [] + a + " ";
      StripPadded([], a, " ");
    }
    assert Strip(" " + b) == b by {
      assert " " + b == " " + b + [];
      StripPadded(" ", b, []);
    }
  }

  /** Neither spelling of a time holds a 't' or starts or ends with whitespace. */
  lemma {:induction false} UnpaddedSpelling(h: int, m: int, pm: bool)
    requires 1 <= h <= 9 && 0 <= m < 60
    ensures 't' !in Unpadded(h, m, pm)
    ensures !IsSpace(Unpadded(h, m, pm)[0]) && !IsSpace(Unpadded(h, m, pm)[5])
  {
    var s := Unpadded(h, m, pm);
    assert IsDigit(s[0]) && s[5] == 'M';
    assert forall k :: 0 <= k < 6 ==> IsDigit(s[k]) || s[k] == ':' || s[k] == 'A' || s[k] == 'P' || s[k] == 'M';
  }

  /** A window written with one-digit hours, as the planner's problems write
      them ("2:30PM to 8:15PM"), reads back as the two times of day. */
  lemma UnpaddedWindow(h1: int, m1: int, pm1: bool, h2: int, m2: int, pm2: bool)
    requires 1 <= h1 <= 9 && 0 <= m1 < 60 && 1 <= h2 <= 9 && 0 <= m2 < 60
    ensures ParseWindow(Unpadded(h1, m1, pm1) + " to " + Unpadded(h2, m2, pm2))
         == Ok((Hour24(h1, pm1) * 60 + m1, Hour24(h2, pm2) * 60 + m2))
  {
    UnpaddedSpelling(h1, m1, pm1);
    UnpaddedSpelling(h2, m2, pm2);
    UnpaddedTime(h1, m1, pm1);
    UnpaddedTime(h2, m2, pm2);
    SpelledWindowReads(Unpadded(h1, m1, pm1), Unpadded(h2, m2, pm2));
  }

  /** "2:30PM to 8:15PM" is written with unpadded times. */
  lemma AfternoonSpelling()
    ensures Unpadded(2, 30, true) + " to " + Unpadded(8, 15, true) == "2:30PM to 8:15PM"
  {
    assert TwoDigits(30) == "30" && TwoDigits(15) == "15";
  }

  /** Jessica's window of the worked example, "2:30PM to 8:15PM", reads as
      minutes 870 and 1215. */
  lemma AfternoonWindow(times: string)
    requires times == "2:30PM to 8:15PM"
    ensures ParseWindow(times) == Ok((870, 1215))
  {
    AfternoonSpelling();
    UnpaddedWindow(2, 30, true, 8, 15, true);
  }

  /** The record one tuple contributes, or the exception reading it raises. */
  function RowConstraint(row: Row): Result<Constraint> {
    match ParseWindow(row.times)
    case Err(e) => Err(e)
    case Ok(w) => Ok(Constraint(row.location, w.0, w.1, row.meetingTime))
  }

  /** The tuple at `k` is the last one naming its person. */
  predicate LastOfName(data: seq<Row>, k: nat)
    requires k < |data|
  {
    forall j :: k < j < |data| ==> data[j].name != data[k].name
  }

  /** The constraint map after reading the tuples of `data` in order with
      `read`, or the exception of the first tuple that cannot be read. The
      loop of `process_constraints` is `Processed(data, RowConstraint)`; the
      lemmas below hold for any reader. */
  function Processed(data: seq<Row>, read: Row -> Result<Constraint>): Result<map<string, Constraint>>
    decreases |data|
  {
    if data == [] then Ok(map[])
    else
      match Processed(data[..|data| - 1], read)
      case Err(e) => Err(e)
      case Ok(m) =>
        var row := data[|data| - 1];
        match read(row)
        case Err(e) => Err(e)
        case Ok(c) => Ok(m[row.name := c])
  }

  /** Once a tuple fails, later tuples do not matter. */
  lemma {:induction false} ProcessedStopsAtError(data: seq<Row>, read: Row -> Result<Constraint>, n: nat)
    requires n <= |data| && Processed(data[..n], read).Err?
    ensures Processed(data, read) == Processed(data[..n], read)
    decreases |data| - n
  {
    if n < |data| {
      var longer := data[..n + 1];
      assert longer[..|longer| - 1] == data[..n];
      assert Processed(longer, read) == Processed(data[..n], read);
      ProcessedStopsAtError(data, read, n + 1);
    } else {
      assert data[..n] == data;
    }
  }

  /** A tuple that reads badly makes the whole map fail with its exception,
      provided every earlier tuple reads well. */
  lemma {:induction false} ProcessedFirstError(data: seq<Row>, read: Row -> Result<Constraint>, k: nat)
    requires k < |data|
    requires forall j :: 0 <= j < k ==> read(data[j]).Ok?
    requires read(data[k]).Err?
    ensures Processed(data, read) == Err(read(data[k]).error)
  {
    ProcessedAllRead(data[..k], read);
    var longer := data[..k + 1];
    assert longer[..|longer| - 1] == data[..k];
    assert Processed(longer, read) == Err(read(data[k]).error);
    ProcessedStopsAtError(data, read, k + 1);
  }

  /** When every tuple reads well the map is built. */
  lemma {:induction false} ProcessedAllRead(data: seq<Row>, read: Row -> Result<Constraint>)
    requires forall j :: 0 <= j < |data| ==> read(data[j]).Ok?
    ensures Processed(data, read).Ok?
    decreases |data|
  {
    if data != [] {
      var front := data[..|data| - 1];
      assert forall j :: 0 <= j < |front| ==> front[j] == data[j];
      ProcessedAllRead(front, read);
    }
  }

  /** Conversely, a map that was built means every tuple read well. */
  lemma {:induction false} ProcessedOkReadsAll(data: seq<Row>, read: Row -> Result<Constraint>, k: nat)
    requires Processed(data, read).Ok? && k < |data|
    ensures read(data[k]).Ok?
    decreases |data|
  {
    var front := data[..|data| - 1];
    if k < |front| {
      ProcessedOkReadsAll(front, read, k);
      assert front[k] == data[k];
    }
  }

  /** The keys of a built map are exactly the names of the tuples. */
  lemma {:induction false} ProcessedKeys(data: seq<Row>, read: Row -> Result<Constraint>)
    requires Processed(data, read).Ok?
    ensures Processed(data, read).value.Keys == set j | 0 <= j < |data| :: data[j].name
    decreases |data|
  {
    if data != [] {
      var n := |data| - 1;
      var front := data[..n];
      ProcessedKeys(front, read);
      assert (set j | 0 <= j < |data| :: data[j].name)
          == (set j | 0 <= j < n :: front[j].name) + {data[n].name};
    }
  }

  /** Each name of a built map holds the record read from its last tuple:
      a later tuple for the same person overwrites an earlier one. */
  lemma {:induction false} ProcessedLastWins(data: seq<Row>, read: Row -> Result<Constraint>, k: nat)
    requires Processed(data, read).Ok? && k < |data| && LastOfName(data, k)
    ensures read(data[k]).Ok? && data[k].name in Processed(data, read).value
    ensures Processed(data, read).value[data[k].name] == read(data[k]).value
    decreases |data|
  {
    var n := |data| - 1;
    var front := data[..n];
    if k < n {
      assert LastOfName(front, k) by {
        assert forall j :: k < j < n ==> front[j] == data[j];
      }
      ProcessedLastWins(front, read, k);
      assert front[k] == data[k];
    }
  }

  /** `process_constraints`: reads the tuples in order into a map from name
      to constraint record. */
  method ProcessConstraints(data: seq<Row>) returns (r: Result<map<string, Constraint>>)
    ensures r == Processed(data, RowConstraint)
  {
    var constraints: map<string, Constraint> := map[];
    for i := 0 to |data|
      invariant Processed(data[..i], RowConstraint) == Ok(constraints)
    {
      var row := data[i];
      assert data[..i + 1][..i] == data[..i];
      var c := RowConstraint(row);
      if c.Err? {
        ProcessedStopsAtError(data, RowConstraint, i + 1);
        return Err(c.error);
      }
      constraints := constraints[row.name := c.value];
    }
    assert data[..|data|] == data;
    return Ok(constraints);
  }
}
