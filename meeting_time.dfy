/** Wall-clock times of the meeting planner. `datetime.strptime(s, "%I:%M%p")`
    yields a datetime on the fixed day 1900-01-01; a time is modelled as the
    number of minutes after that midnight (12:00AM is 0, 12:00PM is 720).
    Adding minutes may run past 1440, as adding a timedelta runs into the
    next day; a negative duration runs before 0. */
module MeetingTime {
  import opened Py

  /** The `%I` field of strptime: `1[0-2]`, `0[1-9]` or `[1-9]`. */
  function HourField(h: string): (r: Option<int>)
    ensures r.Some? ==> 1 <= r.value <= 12
    ensures r.Some? ==> 1 <= |h| <= 2 && (forall k :: 0 <= k < |h| ==> IsDigit(h[k])) && r.value == DigitsValue(h)
  {
    if |h| == 1 && '1' <= h[0] <= '9' then Some(h[0] as int - '0' as int)
    else if |h| == 2 && h[0] == '0' && '1' <= h[1] <= '9' then
      DigitPairValue(h);
      Some(h[1] as int - '0' as int)
    else if |h| == 2 && h[0] == '1' && '0' <= h[1] <= '2' then
      DigitPairValue(h);
      Some(10 + (h[1] as int - '0' as int))
    else None
  }

  /** The `%M` field of strptime: `[0-5]\d` or a single digit. */
  function MinuteField(m: string): (r: Option<int>)
    ensures r.Some? ==> 0 <= r.value < 60
    ensures r.Some? ==> 1 <= |m| <= 2 && (forall k :: 0 <= k < |m| ==> IsDigit(m[k])) && r.value == DigitsValue(m)
  {
    if |m| == 1 && IsDigit(m[0]) then Some(m[0] as int - '0' as int)
    else if |m| == 2 && '0' <= m[0] <= '5' && IsDigit(m[1]) then
      DigitPairValue(m);
      Some(10 * (m[0] as int - '0' as int) + (m[1] as int - '0' as int))
    else None
  }

  /** The `%p` field of strptime, matched without regard to case: `Some(true)` for PM. */
  function Meridiem(p: string): (r: Option<bool>)
    ensures r.Some? <==> |p| == 2 && (p[1] == 'm' || p[1] == 'M') && p[0] in "aApP"
    ensures r == Some(true) <==> |p| == 2 && (p[1] == 'm' || p[1] == 'M') && (p[0] == 'p' || p[0] == 'P')
  {
    if |p| != 2 || (p[1] != 'm' && p[1] != 'M') then None
    else if p[0] == 'a' || p[0] == 'A' then Some(false)
    else if p[0] == 'p' || p[0] == 'P' then Some(true)
    else None
  }

  /** The 24-hour clock hour of a 12-hour clock reading. */
  function Hour24(h: int, pm: bool): (r: int)
    requires 1 <= h <= 12
    ensures 0 <= r < 24
    ensures pm <==> r >= 12
    ensures r % 12 == h % 12
  {
    if h == 12 then (if pm then 12 else 0) else if pm then h + 12 else h
  }

  /** `convert_to_time_obj`: `strptime(s, "%I:%M%p")`, which must consume the
      whole string; anything else raises ValueError. The hour field holds one
      or two digits and no colon, so the first colon of a readable time is at
      position 1 or 2. */
  function ConvertToTimeObj(s: string): (r: Result<int>)
    ensures r.Err? ==> r.error == ValueError
    ensures r.Ok? ==> 0 <= r.value < 1440
  {
    var colon := if |s| > 1 && s[1] == ':' then 1 else 2;
    if |s| < colon + 3 || s[colon] != ':' then Err(ValueError)
    else
      var h := HourField(s[..colon]);
      var m := MinuteField(s[colon + 1..|s| - 2]);
      var pm := Meridiem(s[|s| - 2..]);
      if h.None? || m.None? || pm.None? then Err(ValueError)
      else Ok(Hour24(h.value, pm.value) * 60 + m.value)
  }

  /** The spelling strptime accepts with the colon at `colon`: an hour
      field, the colon, a minute field and a meridiem, filling the string. */
  predicate SpelledWith(s: string, colon: nat) {
    colon + 3 <= |s| && s[colon] == ':'
    && HourField(s[..colon]).Some? && MinuteField(s[colon + 1..|s| - 2]).Some? && Meridiem(s[|s| - 2..]).Some?
  }

  /** strptime's acceptance condition: a string is read exactly when it is
      an hour field of one or two digits, a colon, a minute field and a
      meridiem, and the time read is the one those fields give. */
  lemma TimeAcceptance(s: string)
    ensures ConvertToTimeObj(s).Ok? <==> SpelledWith(s, 1) || SpelledWith(s, 2)
    ensures SpelledWith(s, 1) ==>
              ConvertToTimeObj(s)
                == Ok(Hour24(HourField(s[..1]).value, Meridiem(s[|s| - 2..]).value) * 60 + MinuteField(s[2..|s| - 2]).value)
    ensures SpelledWith(s, 2) ==>
              ConvertToTimeObj(s)
                == Ok(Hour24(HourField(s[..2]).value, Meridiem(s[|s| - 2..]).value) * 60 + MinuteField(s[3..|s| - 2]).value)
  {
    if SpelledWith(s, 2) {
      assert s[..2][1] == s[1];
      assert IsDigit(s[1]);
    }
  }

  /** Two decimal digits, zero-padded, as strftime prints `%I` and `%M`. */
  function TwoDigits(n: int): (s: string)
    requires 0 <= n < 100
    ensures |s| == 2 && IsDigit(s[0]) && IsDigit(s[1])
  {
    [('0' as int + n / 10) as char, ('0' as int + n % 10) as char]
  }

  /** `t.strftime("%I:%M%p")` for a time of the implicit day. */
  function FormatTime(t: int): (s: string)
    requires 0 <= t < 1440
    ensures |s| == 7 && s[2] == ':' && s[6] == 'M'
    ensures forall k :: 0 <= k < 7 && k != 2 && k < 5 ==> IsDigit(s[k])
    ensures s[5] == (if t < 720 then 'A' else 'P')
  {
    var h := t / 60;
    var h12 := if h % 12 == 0 then 12 else h % 12;
    TwoDigits(h12) + ":" + TwoDigits(t % 60) + (if h < 12 then "AM" else "PM")
  }

  /** Printing a time in the violation messages' format and parsing it back
      gives the same time: every time of the day has a spelling that
      `convert_to_time_obj` reads. */
  lemma TimeRoundTrip(t: int)
    requires 0 <= t < 1440
    ensures ConvertToTimeObj(FormatTime(t)) == Ok(t)
  {
    var s := FormatTime(t);
    var h := t / 60;
    var h12 := if h % 12 == 0 then 12 else h % 12;
    assert s[..2] == TwoDigits(h12);
    assert HourField(s[..2]) == Some(h12);
    assert s[3..5] == TwoDigits(t % 60);
    assert MinuteField(s[3..5]) == Some(t % 60);
    assert Meridiem(s[5..]) == Some(h >= 12);
  }

  /** The unpadded spelling the planner's prompts use, such as "9:00AM" or
      "2:30PM": a one-digit hour, two minute digits and the meridiem. */
  function Unpadded(h: int, m: int, pm: bool): (s: string)
    requires 1 <= h <= 9 && 0 <= m < 60
    ensures |s| == 6 && s[1] == ':' && s[5] == 'M'
    ensures forall k :: 0 <= k < 6 && k != 1 && k < 4 ==> IsDigit(s[k])
  {
    [('0' as int + h) as char] + ":" + TwoDigits(m) + (if pm then "PM" else "AM")
  }

  /** Every unpadded time is read as its 24-hour hour and minutes. */
  lemma UnpaddedTime(h: int, m: int, pm: bool)
    requires 1 <= h <= 9 && 0 <= m < 60
    ensures ConvertToTimeObj(Unpadded(h, m, pm)) == Ok(Hour24(h, pm) * 60 + m)
  {
    var s := Unpadded(h, m, pm);
    assert s[1] == ':';
    assert s[..1] == [('0' as int + h) as char];
    assert s[2..|s| - 2] == TwoDigits(m);
    assert s[|s| - 2..] == (if pm then "PM" else "AM");
  }

  /** The conventions of the 12-hour clock: midnight is 12:00AM, noon is 12:00PM. */
  lemma MidnightAndNoon()
    ensures ConvertToTimeObj("12:00AM") == Ok(0)
    ensures ConvertToTimeObj("12:00PM") == Ok(720)
  {
    TimeRoundTrip(0);
    assert FormatTime(0) == "12:00AM";
    TimeRoundTrip(720);
    assert FormatTime(720) == "12:00PM";
  }

  /** A one-digit hour and a lower-case meridiem are read; an hour above 12
      and a space before the meridiem are not. */
  lemma LenientAndStrictSpellings()
    ensures ConvertToTimeObj("2:30pm") == Ok(870)
    ensures ConvertToTimeObj("13:00PM").Err?
    ensures ConvertToTimeObj("9:00 AM").Err?
  {
    var p := "2:30pm";
    assert p[1] == ':';
    assert p[..1] == "2" && p[2..4] == "30" && p[4..] == "pm";
    var bad := "13:00PM";
    assert bad[0] == '1' && bad[1] == '3';
    assert bad[..2] == "13";
    var spaced := "9:00 AM";
    assert spaced[1] == ':';
    assert spaced[2..5] == "00 ";
  }
}
