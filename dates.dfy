/** Conversion of protobuf timestamps to epoch milliseconds and the relative
    day labels shown above groups of notes. Times are integer milliseconds;
    calendar days are numbered by a fixed local offset from UTC. */
module Dates {
  import opened Base
  import opened Strings

  /** A protobuf `Timestamp`: whole seconds and an optional nanosecond part. */
  datatype Timestamp = Timestamp(seconds: int, nanos: Option<int>)

  const NanosPerMilli: int := 1_000_000
  const MsPerDay: int := 24 * 60 * 60 * 1000

  /** `new Date(x)` keeps the integral part of `x`: division truncated toward zero. */
  function TruncDiv(a: int, b: int): int
    requires b > 0
  {
    if a >= 0 then a / b else -((-a) / b)
  }

  /** The timestamp's value in nanoseconds, a missing `nanos` counting as 0. */
  function TotalNanos(ts: Timestamp): int {
    ts.seconds * 1_000_000_000 + ts.nanos.GetOr(0)
  }

  /** `protoTimestampToDate(ts).getTime()`: the clock reading `now` when the
      timestamp is absent; otherwise `seconds*1000 + nanos/1e6` with the
      fractional millisecond dropped toward zero. */
  function ProtoTimestampToMillis(ts: Option<Timestamp>, now: int): (ms: int)
    ensures ts.None? ==> ms == now
    ensures ts.Some? && TotalNanos(ts.value) >= 0 ==>
      ms * NanosPerMilli <= TotalNanos(ts.value) < ms * NanosPerMilli + NanosPerMilli
    ensures ts.Some? && TotalNanos(ts.value) < 0 ==>
      ms * NanosPerMilli - NanosPerMilli < TotalNanos(ts.value) <= ms * NanosPerMilli
  {
    match ts
    case None => now
    case Some(t) => TruncDiv(TotalNanos(t), NanosPerMilli)
  }

  /** Nanoseconds that are a whole number of milliseconds convert exactly,
      and a missing nanosecond part is 0. */
  lemma WholeMillisecondNanos(seconds: int, millis: int, now: int)
    requires 0 <= millis < 1000
    ensures ProtoTimestampToMillis(Some(Timestamp(seconds, Some(millis * NanosPerMilli))), now)
      == seconds * 1000 + millis
    ensures ProtoTimestampToMillis(Some(Timestamp(seconds, None)), now) == seconds * 1000
  {
    var total := seconds * 1_000_000_000 + millis * NanosPerMilli;
    assert total == (seconds * 1000 + millis) * NanosPerMilli;
    ExactTruncDiv(seconds * 1000 + millis);
    ExactTruncDiv(seconds * 1000);
  }

  lemma ExactTruncDiv(q: int)
    ensures TruncDiv(q * NanosPerMilli, NanosPerMilli) == q
  {
    if q < 0 {
      assert -(q * NanosPerMilli) == (-q) * NanosPerMilli;
    }
  }

  /** The inverse the conversion is checked against: a millisecond count as a
      timestamp of whole seconds and a nanosecond part in range. It stands
      for the protobuf library's `Timestamp.fromDate`, whose code is not part
      of this model; that it floors the seconds before the epoch is assumed. */
  function FromMillis(ms: int): (ts: Timestamp)
    ensures ts.nanos.Some? && 0 <= ts.nanos.value < 1_000_000_000
    ensures ts.nanos.value % NanosPerMilli == 0
  {
    Timestamp(ms / 1000, Some((ms % 1000) * NanosPerMilli))
  }

  /** Converting a millisecond count to a timestamp and back gives the same
      millisecond, before and after the epoch. */
  lemma MillisRoundTrip(ms: int, now: int)
    ensures ProtoTimestampToMillis(Some(FromMillis(ms)), now) == ms
  {
    var ts := FromMillis(ms);
    assert TotalNanos(ts) == ms * NanosPerMilli;
    ExactTruncDiv(ms);
  }

  /** The local calendar day containing the instant `ms`: the local time
      lies between that day's midnight and the next. */
  function DayNumber(ms: int, tzOffset: int): (d: int)
    ensures d * MsPerDay <= ms + tzOffset < d * MsPerDay + MsPerDay
  {
    (ms + tzOffset) / MsPerDay
  }

  /** The label of a note's group, before it is rendered as text. */
  datatype DateGroup = Today | Yesterday | DaysAgo(days: int) | LastWeek | OnDate(day: int)

  /** The classification of a note's day against today's: the same day, the
      day before, fewer than 7 days back (which includes days in the future),
      fewer than 14 days back, or an absolute date. */
  function DateGroupOf(noteDay: int, today: int): (g: DateGroup)
    ensures g == Today <==> noteDay == today
    ensures g == Yesterday <==> noteDay == today - 1
    ensures g.DaysAgo? <==> today - noteDay < 7 && noteDay != today && noteDay != today - 1
    ensures g.DaysAgo? ==> g.days == today - noteDay && g.days != 0 && g.days != 1
    ensures g == LastWeek <==> 7 <= today - noteDay < 14
    ensures g.OnDate? <==> today - noteDay >= 14
    ensures g.OnDate? ==> g.day == noteDay
  {
    if noteDay == today then Today
    else if noteDay == today - 1 then Yesterday
    else
      var diffDays := today - noteDay;
      if diffDays < 7 then DaysAgo(diffDays)
      else if diffDays < 14 then LastWeek
      else OnDate(noteDay)
  }

  /** The text of a label; `localeDate` renders a calendar day the way the
      device locale does. */
  function LabelText(g: DateGroup, localeDate: int -> string): (r: string)
    ensures g == Today ==> r == "Today"
    ensures g == Yesterday ==> r == "Yesterday"
    ensures g.DaysAgo? ==> r == IntToString(g.days) + " days ago"
    ensures g == LastWeek ==> r == "Last week"
    ensures g.OnDate? ==> r == localeDate(g.day)
  {
    match g
    case Today => "Today"
    case Yesterday => "Yesterday"
    case DaysAgo(n) => IntToString(n) + " days ago"
    case LastWeek => "Last week"
    case OnDate(d) => localeDate(d)
  }

  /** `formatDateGroup(date)` evaluated at the clock reading `now`. */
  function FormatDateGroup(date: int, now: int, tzOffset: int, localeDate: int -> string): (r: string)
    ensures DayNumber(date, tzOffset) == DayNumber(now, tzOffset) ==> r == "Today"
    ensures DayNumber(date, tzOffset) == DayNumber(now, tzOffset) - 1 ==> r == "Yesterday"
    ensures var diff := DayNumber(now, tzOffset) - DayNumber(date, tzOffset);
      diff != 0 && diff != 1 && diff < 7 ==> r == IntToString(diff) + " days ago"
    ensures 7 <= DayNumber(now, tzOffset) - DayNumber(date, tzOffset) < 14 ==> r == "Last week"
    ensures DayNumber(now, tzOffset) - DayNumber(date, tzOffset) >= 14 ==> r == localeDate(DayNumber(date, tzOffset))
  {
    LabelText(DateGroupOf(DayNumber(date, tzOffset), DayNumber(now, tzOffset)), localeDate)
  }

  /** A note from the same local day is "Today"; from the day before, "Yesterday". */
  lemma TodayAndYesterday(date: int, now: int, tzOffset: int, localeDate: int -> string)
    ensures DayNumber(date, tzOffset) == DayNumber(now, tzOffset) ==>
      FormatDateGroup(date, now, tzOffset, localeDate) == "Today"
    ensures FormatDateGroup(now, now, tzOffset, localeDate) == "Today"
    ensures FormatDateGroup(now - MsPerDay, now, tzOffset, localeDate) == "Yesterday"
  {
    assert (now - MsPerDay + tzOffset) / MsPerDay == (now + tzOffset) / MsPerDay - 1;
  }

  /** The same time of day five days earlier is "5 days ago". */
  lemma FiveDaysAgo(now: int, tzOffset: int, localeDate: int -> string)
    ensures FormatDateGroup(now - 5 * MsPerDay, now, tzOffset, localeDate) == "5 days ago"
  {
    assert (now - 5 * MsPerDay + tzOffset) / MsPerDay == (now + tzOffset) / MsPerDay - 5;
    assert IntToString(5) == "5";
  }

  /** From 14 days back the label is the locale's rendering of the note's day. */
  lemma OldNotesShowTheirDate(date: int, now: int, tzOffset: int, localeDate: int -> string)
    requires DayNumber(now, tzOffset) - DayNumber(date, tzOffset) >= 14
    ensures FormatDateGroup(date, now, tzOffset, localeDate) == localeDate(DayNumber(date, tzOffset))
  {
  }
}
