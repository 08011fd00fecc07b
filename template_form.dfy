/** The time-slot template form: times are edited as "HH:MM", the API holds "HH:MM:SS",
    and a template is only submitted when it ends after it starts. JavaScript's
    `Number(text)` is modelled on what the form can produce: a string of decimal digits
    (the empty string reads as 0); any other text reads as NaN, written `None`. */
module TemplateForm {
  import opened Common
  import ReservationPicker

  /** `toInputTime`: the first five characters; a missing value reads as ''. */
  function ToInputTime(value: Option<string>): (shown: string)
    ensures value.None? ==> shown == ""
    ensures value.Some? && |value.value| >= 5 ==> shown == value.value[..5]
    ensures value.Some? && |value.value| < 5 ==> shown == value.value
  {
    if value.None? then "" else if |value.value| >= 5 then value.value[..5] else value.value
  }

  /** The customer page's `toInputTime` agrees with this one on every string. */
  lemma InputTimesAgree(value: string)
    ensures ToInputTime(Some(value)) == ReservationPicker.ToInputTime(value)
  {
  }

  /** `toApiTime`: ":00" is appended exactly to a five-character value. */
  function ToApiTime(value: string): (sent: string)
    ensures |value| == 5 ==> sent == value + ":00"
    ensures |value| != 5 ==> sent == value
  {
    if |value| == 5 then value + ":00" else value
  }

  /** An "HH:MM" from the form survives the trip to the API and back. */
  lemma {:induction false} ApiTimeRoundTrip(value: string)
    requires |value| == 5
    ensures ToInputTime(Some(ToApiTime(value))) == value
  {
    assert ToApiTime(value)[..5] == value;
  }

  /** An "HH:MM:00" from the API survives the trip to the form and back; other seconds
      are dropped to ":00". */
  lemma {:induction false} InputTimeRoundTrip(value: string)
    requires |value| == 8
    ensures ToApiTime(ToInputTime(Some(value))) == value[..5] + ":00"
    ensures value[5..] == ":00" ==> ToApiTime(ToInputTime(Some(value))) == value
  {
    assert value == value[..5] + value[5..];
  }

  // ---------------------------------------------------------------------------
  // `value.split(':').map(Number)`

  /** `text.split(':')`: the pieces between colons, at least one, none holding a colon. */
  function Split(text: string): (parts: seq<string>)
    ensures |parts| >= 1
    ensures forall k | 0 <= k < |parts| :: ':' !in parts[k]
  {
    if text == [] then [""]
    else
      var tail := Split(text[1..]);
      if text[0] == ':' then [""] + tail else [[text[0]] + tail[0]] + tail[1..]
  }

  /** The pieces joined back with colons. */
  function Join(parts: seq<string>): string
    requires |parts| >= 1
  {
    if |parts| == 1 then parts[0] else parts[0] + ":" + Join(parts[1..])
  }

  /** Splitting loses nothing: joining the pieces gives the text back. */
  lemma {:induction false} SplitJoin(text: string)
    ensures Join(Split(text)) == text
  {
    if text != [] {
      var tail := Split(text[1..]);
      SplitJoin(text[1..]);
      if text[0] == ':' {
        assert Split(text) == [""] + tail;
        assert text == "" + ":" + text[1..];
      } else {
        var parts := Split(text);
        assert parts == [[text[0]] + tail[0]] + tail[1..];
        if |tail| == 1 {
          assert text == [text[0]] + text[1..];
        } else {
          assert parts[1..] == tail[1..];
          assert Join(tail) == tail[0] + ":" + Join(tail[1..]);
          assert text == [text[0]] + text[1..];
        }
      }
    }
  }

  /** A piece without a colon is read back whole, followed by whatever comes after the colon. */
  lemma {:induction false} SplitAtColon(piece: string, rest: string)
    requires ':' !in piece
    ensures Split(piece + ":" + rest) == [piece] + Split(rest)
    decreases |piece|
  {
    if piece == [] {
      assert piece + ":" + rest == [':'] + rest;
      assert (piece + ":" + rest)[1..] == rest;
    } else {
      assert (piece + ":" + rest)[1..] == piece[1..] + ":" + rest;
      SplitAtColon(piece[1..], rest);
      assert [piece[0]] + piece[1..] == piece;
    }
  }

  lemma {:induction false} SplitWhole(piece: string)
    requires ':' !in piece
    ensures Split(piece) == [piece]
    decreases |piece|
  {
    if piece != [] {
      SplitWhole(piece[1..]);
      assert [piece[0]] + piece[1..] == piece;
    }
  }

  predicate IsDigits(text: string) {
    forall i | 0 <= i < |text| :: '0' <= text[i] <= '9'
  }

  lemma DigitsHaveNoColon(text: string)
    requires IsDigits(text)
    ensures ':' !in text
  {
  }

  /** The decimal value of a digit string; the empty string is 0. */
  function DigitsValue(text: string): (n: nat)
    requires IsDigits(text)
    ensures text == [] ==> n == 0
  {
    if text == [] then 0
    else DigitsValue(text[..|text| - 1]) * 10 + (text[|text| - 1] as int - '0' as int)
  }

  /** `Number(text)` on the texts the form produces; NaN is `None`. */
  function ToNumber(text: string): (n: Option<int>)
    ensures n.Some? <==> IsDigits(text)
    ensures text == "" ==> n == Some(0)
    ensures n.Some? ==> n.value >= 0
  {
    if IsDigits(text) then Some(DigitsValue(text)) else None
  }

  /** `toMinutes`: hours times sixty plus minutes; NaN (`None`) when either part is not a
      number or there is no minutes part. Anything after a second colon is ignored. */
  function ToMinutes(value: string): (minutes: Option<int>)
    ensures minutes.Some? <==>
      |Split(value)| >= 2 && ToNumber(Split(value)[0]).Some? && ToNumber(Split(value)[1]).Some?
    ensures minutes.Some? ==> minutes.value >= 0
  {
    var parts := Split(value);
    var hours := ToNumber(parts[0]);
    var mins := if |parts| >= 2 then ToNumber(parts[1]) else None;
    if hours.Some? && mins.Some? then Some(hours.value * 60 + mins.value) else None
  }

  /** `toMinutes("HH:MM")` is HH·60 + MM, and a trailing ":SS" changes nothing. */
  lemma {:induction false} ClockMinutes(hours: string, mins: string, seconds: string)
    requires IsDigits(hours) && IsDigits(mins)
    ensures ToMinutes(hours + ":" + mins) == Some(DigitsValue(hours) * 60 + DigitsValue(mins))
    ensures ToMinutes(hours + ":" + mins + ":" + seconds) == ToMinutes(hours + ":" + mins)
  {
    DigitsHaveNoColon(hours);
    DigitsHaveNoColon(mins);
    SplitAtColon(hours, mins);
    SplitWhole(mins);
    MinutesOfParts(hours + ":" + mins, DigitsValue(hours), DigitsValue(mins));
    SecondsIgnored(hours, mins, seconds);
    MinutesOfParts(hours + ":" + mins + ":" + seconds, DigitsValue(hours), DigitsValue(mins));
  }

  lemma {:induction false} SecondsIgnored(hours: string, mins: string, seconds: string)
    requires ':' !in hours && ':' !in mins
    ensures var parts := Split(hours + ":" + mins + ":" + seconds);
            |parts| >= 2 && parts[0] == hours && parts[1] == mins
  {
    assert hours + ":" + mins + ":" + seconds == hours + ":" + (mins + ":" + seconds);
    SplitAtColon(hours, mins + ":" + seconds);
    SplitAtColon(mins, seconds);
  }

  lemma {:induction false} MinutesOfParts(value: string, h: int, m: int)
    requires |Split(value)| >= 2
    requires ToNumber(Split(value)[0]) == Some(h) && ToNumber(Split(value)[1]) == Some(m)
    ensures ToMinutes(value) == Some(h * 60 + m)
  {
  }

  /** A text with no colon has no minutes part, so it reads as NaN. */
  lemma {:induction false} NoColonIsNaN(value: string)
    requires ':' !in value
    ensures ToMinutes(value).None?
  {
    SplitWhole(value);
  }

  // ---------------------------------------------------------------------------
  // The form

  datatype TemplateFormState = TemplateFormState(startTime: string, endTime: string, isActive: bool)
  datatype TemplatePayload = TemplatePayload(startTime: string, endTime: string, isActive: bool)

  /** `isEndTimeGreaterThanStartTime`: both fields filled and the end later than the
      start; a NaN on either side compares false. */
  function IsEndTimeGreaterThanStartTime(form: TemplateFormState): (ok: bool)
    ensures form.startTime == "" || form.endTime == "" ==> !ok
    ensures ok ==> ToMinutes(form.startTime).Some? && ToMinutes(form.endTime).Some?
                   && ToMinutes(form.endTime).value > ToMinutes(form.startTime).value
  {
    && form.startTime != ""
    && form.endTime != ""
    && ToMinutes(form.endTime).Some? && ToMinutes(form.startTime).Some?
    && ToMinutes(form.endTime).value > ToMinutes(form.startTime).value
  }

  /** For two "HH:MM" entries the guard is exactly the order of the clock times. */
  lemma {:induction false} GuardOnClockTimes(sh: string, sm: string, eh: string, em: string)
    requires IsDigits(sh) && IsDigits(sm) && IsDigits(eh) && IsDigits(em)
    ensures var form := TemplateFormState(sh + ":" + sm, eh + ":" + em, true);
            IsEndTimeGreaterThanStartTime(form)
            <==> DigitsValue(eh) * 60 + DigitsValue(em) > DigitsValue(sh) * 60 + DigitsValue(sm)
  {
    var start, end := sh + ":" + sm, eh + ":" + em;
    ClockMinutes(sh, sm, "");
    ClockMinutes(eh, em, "");
    assert |start| > 0 && |end| > 0;
    GuardOnMinutes(TemplateFormState(start, end, true), DigitsValue(sh) * 60 + DigitsValue(sm),
                   DigitsValue(eh) * 60 + DigitsValue(em));
  }

  lemma {:induction false} GuardOnMinutes(form: TemplateFormState, start: int, end: int)
    requires form.startTime != "" && form.endTime != ""
    requires ToMinutes(form.startTime) == Some(start) && ToMinutes(form.endTime) == Some(end)
    ensures IsEndTimeGreaterThanStartTime(form) <==> end > start
  {
  }

  /** `toPayload`: both times in the API's format. */
  function ToPayload(form: TemplateFormState): (payload: TemplatePayload)
    ensures payload.isActive == form.isActive
    ensures |form.startTime| == 5 ==> payload.startTime == form.startTime + ":00"
    ensures |form.endTime| == 5 ==> payload.endTime == form.endTime + ":00"
  {
    TemplatePayload(ToApiTime(form.startTime), ToApiTime(form.endTime), form.isActive)
  }

  const EndBeforeStart := "La hora de fin debe ser mayor a la hora de inicio."

  datatype Submission = Rejected(error: string) | Sent(payload: TemplatePayload)

  /** `handleSubmit` up to the request: the guard's error, or the payload to send, whose
      times read back in the form as they were entered. */
  function Submit(form: TemplateFormState): (s: Submission)
    ensures s.Rejected? <==> !IsEndTimeGreaterThanStartTime(form)
    ensures s.Rejected? ==> s.error == EndBeforeStart
    ensures s.Sent? ==> s.payload.isActive == form.isActive
    ensures s.Sent? && |form.startTime| == 5 ==> ToInputTime(Some(s.payload.startTime)) == form.startTime
    ensures s.Sent? && |form.endTime| == 5 ==> ToInputTime(Some(s.payload.endTime)) == form.endTime
    ensures s.Sent? && |form.startTime| != 5 ==> s.payload.startTime == form.startTime
    ensures s.Sent? && |form.endTime| != 5 ==> s.payload.endTime == form.endTime
  {
    if !IsEndTimeGreaterThanStartTime(form) then Rejected(EndBeforeStart)
    else
      Sent(ToPayload(form))
  }
}
