# Meeting and trip plan checkers, modelled in Dafny

This project models the evaluation core of an LLM planning project, which
checks plans written by a language model:

- **Meeting planning** (`meeting_planning/evaluate_meeting_planning_llmpc.py`):
  - times are read with `strptime("%I:%M%p")`;
  - the constraint tuples become a per-person record of location, availability
    window and required meeting length;
  - a text plan is cut after `SOLUTION:` and split into sentences;
  - three validators walk the plan:
    - `validate_constraints` collects every violation and never stops;
    - `validator_from_text` scores a text plan;
    - `validator_from_dict` scores a plan of JSON records;
    - both scorers stop at the first `ValueError`.
- **Trip planning** (`trip_planner/lib.py`):
  - `parse_response` scans an answer line by line for the total trip length,
    day ranges and flights, and rebuilds the visited cities with their stays;
  - `check_trip_constraints` checks a list of `(city, days)` stays against each
    city's rules with a day counter that starts at 1.

How the model is built:

- Python exceptions are values. `Py.Error` is `ValueError`, `IndexError` or
  `KeyError(key)`, and operations that can raise return `Py.Result`.
- A time is the number of minutes after midnight of the day `strptime` fixes.
  Adding a `timedelta` may run past 1440 or, with a negative length, below 0.
- Each loop of the source is a Dafny method with a loop. It is proved equal to
  a tail-recursive or left-fold specification function, and the properties are
  lemmas about those functions.
- A `continue`, `break` or escaping exception in the source is a `continue`,
  `break` or early `return` in the method.

Modules:

| file | module |
|---|---|
| `py.dfy` | `Py`: the Python built-ins the core relies on: `str.find`, `str.split`, `str.strip`, `int()` |
| `meeting_time.dfy` | `MeetingTime` |
| `meeting_constraints.dfy` | `MeetingConstraints` |
| `meeting_plan_text.dfy` | `MeetingPlanText` |
| `meeting_steps.dfy` | `MeetingSteps`: reading a step sentence; distance and constraint lookups |
| `meeting_feedback.dfy` | `MeetingFeedback`: `validate_constraints` |
| `meeting_score.dfy` | `MeetingScore`: the two scoring validators |
| `trip_parse.dfy` | `TripParse` |
| `trip_check.dfy` | `TripCheck` |

Some behaviours of the source that the model states as they are:

- In `validate_constraints` the clock moves on after a meeting only while the
  whole violation list is empty. One earlier violation of any kind freezes the
  clock for every later meeting (`MeetingFeedback.MeetMarksMet`).
- The scorers use the person's required meeting length and ignore the length
  the sentence states (`MeetingScore.TextIgnoresStatedMinutes`).
- `validate_constraints` uses the stated length.
- `process_constraints` returns a `defaultdict(dict)`. A lookup of an unknown
  person raises `KeyError('meeting_time')` (`MeetingSteps.RecordOf`).
- In `check_trip_constraints`, an unknown city moves the day counter on by all
  its days, a known one by one day fewer.
- In `check_trip_constraints`, a known city right after an unknown one makes
  the checker raise `KeyError` (`TripCheck.CheckedRaises`).

## Model

| member | source | states |
|---|---|---|
| MeetingTime.HourField | meeting_planning/evaluate_meeting_planning_llmpc.py:37-38 | the `%I` field reads one or two decimal digits as their value, an hour from 1 to 12 |
| MeetingTime.MinuteField | meeting_planning/evaluate_meeting_planning_llmpc.py:37-38 | the `%M` field reads one or two decimal digits as their value, a minute from 0 to 59 |
| MeetingTime.Meridiem | meeting_planning/evaluate_meeting_planning_llmpc.py:37-38 | the `%p` field is read exactly when it is two letters, A or P then M, in either case; it is PM exactly for P |
| MeetingTime.Hour24 | meeting_planning/evaluate_meeting_planning_llmpc.py:37-38 | the 12-hour reading maps to a 24-hour hour, which is PM exactly when it is 12 or more, and agrees with the reading modulo 12 |
| MeetingTime.ConvertToTimeObj | meeting_planning/evaluate_meeting_planning_llmpc.py:37-38 | `convert_to_time_obj` either raises ValueError or returns a time within the day |
| MeetingTime.FormatTime | meeting_planning/evaluate_meeting_planning_llmpc.py:113 | `strftime('%I:%M%p')` prints seven characters: two hour digits, a colon, two minute digits and AM or PM matching the half of the day |
| MeetingTime.TimeRoundTrip | meeting_planning/evaluate_meeting_planning_llmpc.py:37-38 | parsing the printed form of any time of day gives that time back |
| MeetingTime.UnpaddedTime | meeting_planning/evaluate_meeting_planning_llmpc.py:37-38 | every time written with a one-digit hour, two minute digits and AM or PM, such as "9:00AM", is read as its 24-hour hour times 60 plus the minutes |
| MeetingTime.MidnightAndNoon | meeting_planning/evaluate_meeting_planning_llmpc.py:37-38 | 12:00AM is minute 0 and 12:00PM is minute 720 |
| MeetingTime.LenientAndStrictSpellings | meeting_planning/evaluate_meeting_planning_llmpc.py:37-38 | "2:30pm" is read as 870; "13:00PM" and "9:00 AM" raise |
| MeetingTime.TimeAcceptance | meeting_planning/evaluate_meeting_planning_llmpc.py:37-38 | a string is read exactly when it is an hour field, a colon after one or two characters, a minute field and a meridiem; the time read is the 24-hour hour of those fields times 60 plus the minutes |
| MeetingConstraints.ParseWindow | meeting_planning/evaluate_meeting_planning_llmpc.py:46-47 | a window that reads well contains "to", and both of its times fall within the day |
| MeetingConstraints.TimeSpelling | meeting_planning/evaluate_meeting_planning_llmpc.py:46-47 | a printed time contains no 't', and stripping removes exactly the padding around it |
| MeetingConstraints.WindowSplits | meeting_planning/evaluate_meeting_planning_llmpc.py:46-47 | splitting "A to B" on "to", for times A and B printed as "hh:mmAM", gives "A " and " B" |
| MeetingConstraints.WindowRoundTrip | meeting_planning/evaluate_meeting_planning_llmpc.py:46-47 | a window written "A to B", with times printed as "hh:mmAM", reads back as the pair (A, B) |
| MeetingConstraints.SpelledWindowSplits | meeting_planning/evaluate_meeting_planning_llmpc.py:46-47 | for any spellings A and B without a 't', splitting "A to B" on "to" gives "A " and " B" |
| MeetingConstraints.SpelledWindowReads | meeting_planning/evaluate_meeting_planning_llmpc.py:46-47 | for any spellings A and B without a 't' or surrounding whitespace, "A to B" reads A and then B as `convert_to_time_obj` reads each alone: the first that fails gives the exception, otherwise the pair of times |
| MeetingConstraints.UnpaddedWindow | meeting_planning/evaluate_meeting_planning_llmpc.py:46-47 | every window written with one-digit hours, such as "2:30PM to 8:15PM", reads back as its two times of day |
| MeetingConstraints.AfternoonWindow | meeting_planning/evaluate_meeting_planning_llmpc.py:46-47 | "2:30PM to 8:15PM" reads as minutes 870 and 1215 |
| MeetingConstraints.ProcessConstraints | meeting_planning/evaluate_meeting_planning_llmpc.py:41-51 | the loop result equals the left fold of the tuples, or the exception of the first tuple that fails to read |
| MeetingConstraints.ProcessedStopsAtError | meeting_planning/evaluate_meeting_planning_llmpc.py:43-47 | once a tuple raises, the tuples after it do not matter |
| MeetingConstraints.ProcessedFirstError | meeting_planning/evaluate_meeting_planning_llmpc.py:43-47 | the result is the error of the first unreadable tuple |
| MeetingConstraints.ProcessedAllRead | meeting_planning/evaluate_meeting_planning_llmpc.py:43-50 | when every tuple reads, a map is built |
| MeetingConstraints.ProcessedOkReadsAll | meeting_planning/evaluate_meeting_planning_llmpc.py:43-50 | conversely, when a map is built, every tuple read |
| MeetingConstraints.ProcessedKeys | meeting_planning/evaluate_meeting_planning_llmpc.py:43-50 | the map's keys are exactly the names in the tuples |
| MeetingConstraints.ProcessedLastWins | meeting_planning/evaluate_meeting_planning_llmpc.py:44-50 | each name maps to the record of its last tuple |
| MeetingPlanText.StripEach | meeting_planning/evaluate_meeting_planning_llmpc.py:317 | the result has one element per piece, and each is that piece stripped |
| MeetingPlanText.NonEmpty | meeting_planning/evaluate_meeting_planning_llmpc.py:318-321 | the filtered list is no longer than its input; it holds only non-empty elements of the input, holds every non-empty element of the input, and is the whole input when nothing is empty |
| MeetingPlanText.NonEmptyKeeps | meeting_planning/evaluate_meeting_planning_llmpc.py:318-321 | appending a non-empty piece appends it to the filtered list, after what was kept before; an empty piece is dropped |
| MeetingPlanText.KeepNonEmpty | meeting_planning/evaluate_meeting_planning_llmpc.py:318-321 | the filtering loop returns exactly the non-empty pieces, in order |
| MeetingPlanText.ParseTextPlan | meeting_planning/evaluate_meeting_planning_llmpc.py:310-322 | the result is the stripped, non-empty `.`-separated pieces of the text after the marker |
| MeetingPlanText.SentencesWellFormed | meeting_planning/evaluate_meeting_planning_llmpc.py:316-321 | every returned step is non-empty, contains no '.', and is already stripped |
| MeetingPlanText.SentencesRoundTrip | meeting_planning/evaluate_meeting_planning_llmpc.py:316-321 | joining non-empty, dot-free, stripped steps with '.' and parsing gives the steps back |
| MeetingPlanText.NoMarker | meeting_planning/evaluate_meeting_planning_llmpc.py:314-315 | without "SOLUTION:", the whole text is split |
| MeetingPlanText.MarkerCut | meeting_planning/evaluate_meeting_planning_llmpc.py:313-315 | with the marker, only the stripped text after its first occurrence is split |
| MeetingSteps.Between | meeting_planning/evaluate_meeting_planning_llmpc.py:72 | `s.split(a)[1].split(b)[0].strip()` raises IndexError exactly when `a` does not occur |
| MeetingSteps.ReadStep | meeting_planning/evaluate_meeting_planning_llmpc.py:69-124 | a step is classified as start, travel, wait, then meet, in that order; each kind extracts its fields from the marker the source splits on |
| MeetingSteps.BetweenRoundTrip | meeting_planning/evaluate_meeting_planning_llmpc.py:72 | a field written between an opening marker that occurs once and a closing marker is read back exactly |
| MeetingSteps.TravelField | meeting_planning/evaluate_meeting_planning_llmpc.py:72 | "You travel to D in ..." yields destination D |
| MeetingSteps.PersonField | meeting_planning/evaluate_meeting_planning_llmpc.py:88 | "You meet P for ..." yields person P |
| MeetingSteps.WaitField | meeting_planning/evaluate_meeting_planning_llmpc.py:78 | "You wait until T" yields raw time T |
| MeetingSteps.TravelTime | meeting_planning/evaluate_meeting_planning_llmpc.py:73 | `dist_matrix[from][to]` succeeds exactly when both keys exist; otherwise KeyError for the first missing key |
| MeetingSteps.RecordOf | meeting_planning/evaluate_meeting_planning_llmpc.py:99 | the record lookup succeeds exactly for constraint keys; otherwise KeyError('meeting_time') |
| MeetingFeedback.MeetingChecksSpec | meeting_planning/evaluate_meeting_planning_llmpc.py:99-119 | each of the four meeting checks appends its entry exactly when its condition fails, at most four in all, none of them "Did not meet with" |
| MeetingFeedback.AppendChecks | meeting_planning/evaluate_meeting_planning_llmpc.py:99-119 | the four checks append exactly the meeting-check entries to the list |
| MeetingFeedback.MeetStep | meeting_planning/evaluate_meeting_planning_llmpc.py:87-122 | a meeting sentence gives the state the specification of a meeting step gives |
| MeetingFeedback.TakeStep | meeting_planning/evaluate_meeting_planning_llmpc.py:68-127 | one loop iteration, with its exception handler, gives the specified next state |
| MeetingFeedback.ValidateConstraints | meeting_planning/evaluate_meeting_planning_llmpc.py:53-134 | the returned list equals the specification: the walk over all steps, then the unmet-people entry |
| MeetingFeedback.TravelKnownRoute | meeting_planning/evaluate_meeting_planning_llmpc.py:71-75 | travel on a known route advances the clock by the route's minutes and moves to the destination; nothing else changes |
| MeetingFeedback.TravelUnknownRoute | meeting_planning/evaluate_meeting_planning_llmpc.py:126-127 | an unknown route records one "Error processing step" entry for the missing key |
| MeetingFeedback.WaitBackwards | meeting_planning/evaluate_meeting_planning_llmpc.py:81-83 | a wait that is not later than the clock records one "Invalid wait time" entry and leaves the clock |
| MeetingFeedback.WaitForward | meeting_planning/evaluate_meeting_planning_llmpc.py:85 | a later wait sets the clock to it, which strictly increases it |
| MeetingFeedback.DoubleBooked | meeting_planning/evaluate_meeting_planning_llmpc.py:91-93 | meeting someone twice records one "Double booking" entry and changes nothing else |
| MeetingFeedback.MeetMarksMet | meeting_planning/evaluate_meeting_planning_llmpc.py:94-122 | a first meeting marks the person met whatever is found; the clock advances by the stated length only when the whole list is empty afterwards |
| MeetingFeedback.StepGrows | meeting_planning/evaluate_meeting_planning_llmpc.py:68-127 | a step only appends entries, only adds people met, and never appends "Did not meet with" |
| MeetingFeedback.WalkGrows | meeting_planning/evaluate_meeting_planning_llmpc.py:67-127 | the same holds over any number of steps |
| MeetingFeedback.ReportShape | meeting_planning/evaluate_meeting_planning_llmpc.py:129-134 | there is at most one "Did not meet with" entry; it is last, present exactly when a key was not met, and names exactly those keys; the list is empty exactly when there was no violation and everyone was met |
| MeetingFeedback.JessicaScenario | meeting_planning/evaluate_meeting_planning_llmpc.py:87-122 | meeting Jessica for her 75 minutes gives no violation and ends at 3:45PM; 60 minutes gives exactly one duration entry and the clock stays at 2:30PM |
| MeetingScore.Raised | meeting_planning/evaluate_meeting_planning_llmpc.py:206-208 | a ValueError stops the loop; any other exception escapes, and it is the exception raised |
| MeetingScore.ValidatorFromText | meeting_planning/evaluate_meeting_planning_llmpc.py:136-210 | the loop's score, or the escaping exception, equals the specification |
| MeetingScore.ValidatorFromDict | meeting_planning/evaluate_meeting_planning_llmpc.py:213-307 | the loop over `plan[1:]` equals the specification |
| MeetingScore.ScoreMeetingCases | meeting_planning/evaluate_meeting_planning_llmpc.py:181-202 | a meeting scores exactly when the person is a key, is not met yet, and the meeting is valid; it then adds one point and the required length; a repeat stops the loop; an invalid first meeting with a key stops the loop; a non-key raises KeyError |
| MeetingScore.ScoreMeetingCounted | meeting_planning/evaluate_meeting_planning_llmpc.py:188-200 | a scored meeting keeps the score equal to the number of keys met |
| MeetingScore.TextStepCounted | meeting_planning/evaluate_meeting_planning_llmpc.py:158-204 | every text step that goes on preserves that invariant |
| MeetingScore.TextFromBounded | meeting_planning/evaluate_meeting_planning_llmpc.py:158-210 | from a counted state, the score never falls and never exceeds the number of keys |
| MeetingScore.TextScoreBounded | meeting_planning/evaluate_meeting_planning_llmpc.py:136-210 | the text score is at most the number of people with constraints |
| MeetingScore.TextIgnoresStatedMinutes | meeting_planning/evaluate_meeting_planning_llmpc.py:178-191 | the stated meeting length never affects the text score |
| MeetingScore.TextStops | meeting_planning/evaluate_meeting_planning_llmpc.py:169-204 | a backward wait, an unreadable time, a repeat meeting or an unknown sentence stops the loop; an unknown origin raises KeyError |
| MeetingScore.TextStopIgnoresRest | meeting_planning/evaluate_meeting_planning_llmpc.py:206-210 | after a stopping step, the rest of the plan is never read and the score so far is returned |
| MeetingScore.TextRaiseEscapes | meeting_planning/evaluate_meeting_planning_llmpc.py:159-208 | a non-ValueError exception escapes the scorer |
| MeetingScore.DictStepCounted | meeting_planning/evaluate_meeting_planning_llmpc.py:264-301 | record steps keep the invariant; a record for a non-key changes neither met nor score and sets the clock to its start time |
| MeetingScore.DictFromBounded | meeting_planning/evaluate_meeting_planning_llmpc.py:263-307 | from a counted state, the score never falls and never exceeds the number of keys |
| MeetingScore.DictScoreBounded | meeting_planning/evaluate_meeting_planning_llmpc.py:213-307 | the record score is at most the number of people with constraints |
| MeetingScore.FirstRecordIgnored | meeting_planning/evaluate_meeting_planning_llmpc.py:263 | the first record never affects the result |
| MeetingScore.DictTravel | meeting_planning/evaluate_meeting_planning_llmpc.py:266-271 | travel happens only for a non-empty location different from the current one; it costs the route's minutes; an unknown origin raises KeyError for the origin, and a known origin without the destination raises KeyError for the destination |
| MeetingScore.ArriveTooEarly | meeting_planning/evaluate_meeting_planning_llmpc.py:273-275 | a start time before the clock stops the loop |
| MeetingScore.JamesScenario | meeting_planning/evaluate_meeting_planning_llmpc.py:227-250 | the documented Russian Hill / Marina District / James plan scores 1 |
| TripParse.ScanLines | trip_planner/lib.py:19-35 | the scan loop's state equals the scan specification |
| TripParse.TraceFlights | trip_planner/lib.py:37-44 | collects the flight days in order, and the cities: the first departure, then every arrival |
| TripParse.PairStays | trip_planner/lib.py:50-52 | pairs each city with the days from its boundary to the next, both counted |
| TripParse.ParseResponse | trip_planner/lib.py:4-54 | the result equals the plan rebuilt from the scan |
| TripParse.ScanCollects | trip_planner/lib.py:21-35 | while no range ends on the announced total, every range and flight is collected |
| TripParse.ScanReadsAll | trip_planner/lib.py:21-35 | without such a range, the scan reads to the end |
| TripParse.ScanStopsAtTotal | trip_planner/lib.py:26-32 | the scan stops at the first range ending on the total announced so far; that range is kept, that line's flight and every later line are not |
| TripParse.ParsedEmpty | trip_planner/lib.py:46-47 | the result is empty exactly when no range or no flight was collected |
| TripParse.RebuiltCities | trip_planner/lib.py:37-44 | the plan visits one city more than there are flights: the first departure, then each arrival |
| TripParse.LaterDeparturesIgnored | trip_planner/lib.py:38-44 | the departure city of any flight after the first is never read |
| TripParse.StaysTelescope | trip_planner/lib.py:49-51 | stays over consecutive boundaries sum to the span plus one day per stay |
| TripParse.StaysAddUp | trip_planner/lib.py:48-52 | the sum of the stays, less one per flight, is the last range's end day |
| TripParse.MadridExample | trip_planner/lib.py:48-52 | the prompt's worked example gives (Madrid, 7), (London, 4), (Athens, 6) |
| TripParse.AlternativePlanIgnored | trip_planner/lib.py:30-32 | with a total of 15 announced, an alternative plan after the range ending on day 15 is ignored |
| TripCheck.CheckKnownStay | trip_planner/lib.py:198-222 | the checks of a known city append exactly that stay's entries, or raise KeyError |
| TripCheck.CheckTripConstraints | trip_planner/lib.py:169-227 | the loop result equals the left-fold specification, with the day counter at its closed form |
| TripCheck.CheckedStopsAtError | trip_planner/lib.py:216-218 | once a stay raises, later stays do not matter |
| TripCheck.StayCases | trip_planner/lib.py:192-222 | an unknown city gives exactly one "not found"; for a known city, each error appears exactly when its condition holds; a known city after an unknown one raises |
| TripCheck.CheckedPrefix | trip_planner/lib.py:190-227 | the errors of every prefix begin the errors of the trip, so the checker never returns early |
| TripCheck.CheckedCollectsAll | trip_planner/lib.py:190-227 | each stay's errors appear in order, checked on the day the counter gives it |
| TripCheck.CheckedRaises | trip_planner/lib.py:216-218 | a known city right after an unknown one raises KeyError for the unknown one |
| TripCheck.StartDayKnown | trip_planner/lib.py:188-225 | with every city known, the counter is 1 plus the total days less one per stay |
| TripCheck.CounterEndsOnLastDay | trip_planner/lib.py:225 | on a rebuilt plan whose cities are all known, the counter ends on the last range's end day |
| TripCheck.TwoCityTrips | trip_planner/lib.py:187-227 | an empty trip gives no errors; A then B passes; B then A fails both start-day rules; an unknown city before a known one raises |
| TripCheck.OneWayTrips | trip_planner/lib.py:216-222 | a flight from A to B does not make A reachable from B |
| Py.Find | meeting_planning/evaluate_meeting_planning_llmpc.py:315 | `str.find` gives -1 or a position where the separator occurs, and it occurs at no earlier position |
| Py.SplitHead | meeting_planning/evaluate_meeting_planning_llmpc.py:46 | `s.split(sep)[0]` begins `s` and holds no `sep`; it is all of `s` exactly when `sep` does not occur |
| Py.SplitSecond | meeting_planning/evaluate_meeting_planning_llmpc.py:47 | `s.split(sep)[1]` raises IndexError exactly when `sep` does not occur; otherwise it holds no `sep` and begins the text after the first `sep` |
| Py.Split | meeting_planning/evaluate_meeting_planning_llmpc.py:316 | `s.split('.')` gives at least one piece, and no piece holds '.' |
| Py.Strip | meeting_planning/evaluate_meeting_planning_llmpc.py:317 | `s.strip()` is no longer than `s` and neither starts nor ends with whitespace |
| Py.JoinSplit | meeting_planning/evaluate_meeting_planning_llmpc.py:316 | joining the pieces of a split with the separator rebuilds the text |
| Py.SplitJoin | meeting_planning/evaluate_meeting_planning_llmpc.py:316 | splitting a join on a separator the pieces lack gives the pieces back |
| Py.StripIdempotent | meeting_planning/evaluate_meeting_planning_llmpc.py:317 | stripping twice is stripping once |
| Py.ParseInt | meeting_planning/evaluate_meeting_planning_llmpc.py:89 | `int()` raises only ValueError, and succeeds only on text that is not blank |
| Py.ParseIntDecimal | meeting_planning/evaluate_meeting_planning_llmpc.py:89 | `int()` reads the decimal digits of any natural number, with an optional minus sign and surrounding whitespace, as that number or its negation |

## Left out

- `main` and the surrounding drivers: file I/O, command-line flags and model calls.
- `extract_constraints`: it calls a remote language model.
- `parse_constraints`: it hands text to `ast.literal_eval`, a foreign evaluator.
- The regular expressions of `parse_response`:
  - each line arrives already classified as `TripParse.Line`, holding the first match of each of the three patterns;
  - the `'\n'` split of the answer is not modelled;
  - the start day of a day range is not kept, because it is never used.
- `int()` and `strptime` accept non-ASCII decimal digits, and `int()` accepts underscores between digits. The model reads ASCII digits only.
- `print` of the error messages in the scoring loops is left out.
- The exact wording of violation messages is not modelled: each message is a `Violation` or `TripError` value carrying the same data.
- Adding a `timedelta` beyond the year range (`OverflowError`) is not modelled.
- MeetingSteps.RecordOf: the empty entry that a `defaultdict` lookup inserts for an unknown person is not kept. It matters only across later calls on the same dictionary: `meeting_planning/llmpc.py` reuses one constraints dictionary across refinement iterations, so a name met once without constraints becomes a key and is reported as not met in later iterations. `meeting_planning/llmpc.py` is not part of this model.
- A JSON `null` location in `validator_from_dict` is modelled as the empty string, which is equally falsy.
- Plan records and city rules are typed. A missing field, which raises KeyError or TypeError in the source, cannot occur.
- Distances are natural numbers of minutes. Fractional distances from the JSON data are not modelled.
- MeetingSteps.ReadStep: the round trips are stated per field (`TravelField`, `PersonField`, `WaitField`) rather than for whole sentences.
- MeetingSteps.ReadStep: the meeting length (`" for "` … `" minutes"`) has no round-trip lemma through the sentence; `Py.ParseIntDecimal` states the number `int()` reads from the extracted text.
- Strings are sequences of characters. Unicode normalisation is not modelled; `str.strip` removes the characters for which `str.isspace` holds.
