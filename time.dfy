/** Date values of the agenda and the `until` conversion.  An instant is a
    count of local seconds; a day number counts days on the same axis, so
    the day of an instant `t` is `t / 86400` (floor division). */
module Time {

  const SecondsPerDay: int := 86400
  const SecondsPerHour: int := 3600
  /** 23:59:59 as seconds since midnight. */
  const LastSecondOfDay: int := 86399

  /** An org timestamp either names a whole day or carries a time of day. */
  datatype DateValue = Date(day: int) | DateTime(instant: int)

  function DayOf(t: int): int { t / SecondsPerDay }

  function TimeOfDay(t: int): int { t % SecondsPerDay }

  /** 23:59:59 of the day that holds instant `t`. */
  function EndOfDay(t: int): (e: int)
    ensures DayOf(e) == DayOf(t) && TimeOfDay(e) == LastSecondOfDay
    ensures t <= e < t + SecondsPerDay
  {
    DayOf(t) * SecondsPerDay + LastSecondOfDay
  }

  /** The instant a date value stands for: a date-only value is taken as the
      last second of its day, a date-time value as itself. */
  function Converted(v: DateValue): (t: int)
    ensures v.Date? ==> DayOf(t) == v.day && TimeOfDay(t) == LastSecondOfDay
    ensures v.DateTime? ==> t == v.instant
  {
    match v
    case Date(d) => d * SecondsPerDay + LastSecondOfDay
    case DateTime(t) => t
  }

  /** `until(date, relative)`: the converted instant and the signed distance
      from `relative` to it, in seconds (Python reports it in days). */
  function Until(v: DateValue, relative: int): (r: (int, int))
    ensures r.0 == Converted(v)
    ensures relative + r.1 == r.0
    ensures r.1 < 0 <==> Converted(v) < relative
  {
    var t := Converted(v);
    (t, t - relative)
  }

  /** Both values are date-only or both carry a time: the only pairs that
      Python 2 can compare. */
  predicate SameKindPair(a: DateValue, b: DateValue) { a.Date? <==> b.Date? }

  predicate SameKind(s: seq<DateValue>)
  {
    forall i, j :: 0 <= i < |s| && 0 <= j < |s| ==> SameKindPair(s[i], s[j])
  }

  /** Python's `<` on two values of the same kind. */
  predicate RawLess(a: DateValue, b: DateValue)
    requires SameKindPair(a, b)
  {
    if a.Date? then a.day < b.day else a.instant < b.instant
  }

  /** Conversion is strictly monotonic on values of one kind, so sorting raw
      values and sorting converted instants give the same order. */
  lemma ConvertedMonotonic(a: DateValue, b: DateValue)
    requires SameKindPair(a, b)
    ensures RawLess(a, b) <==> Converted(a) < Converted(b)
    ensures Converted(a) == Converted(b) <==> a == b
  {
  }
}
