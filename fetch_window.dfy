/** The query window of the price fetch: the start and end of one day in
    UTC, written as ISO 8601 instants by appending fixed time suffixes to a
    `YYYY-MM-DD` day string. */
module FetchWindow {
  import opened Optional

  const START_SUFFIX: string := "T00:00:00.000Z"
  const END_SUFFIX: string := "T23:59:59.999Z"

  /** The two query parameters of the fetch. */
  datatype Payload = Payload(start: string, end: string)

  /** The query window of a day: its first and its last millisecond. */
  function WindowFor(day: string): (p: Payload)
    ensures |p.start| == |p.end| == |day| + 14
    ensures p.start[..|day|] == day && p.end[..|day|] == day
    ensures p.start[|day|..] == START_SUFFIX && p.end[|day|..] == END_SUFFIX
  {
    Payload(day + START_SUFFIX, day + END_SUFFIX)
  }

  /** A day string as `strftime('%Y-%m-%d')` writes it for years 1000 to 9999. */
  predicate IsIsoDate(day: string) {
    |day| == 10 && day[4] == '-' && day[7] == '-'
    && forall i :: 0 <= i < 10 && i != 4 && i != 7 ==> '0' <= day[i] <= '9'
  }

  /** The day of an instant produced by `WindowFor`, recovered by removing
      its time suffix. */
  function DayOf(instant: string): Option<string> {
    if |instant| < |START_SUFFIX| then None
    else
      var n := |instant| - |START_SUFFIX|;
      if instant[n..] == START_SUFFIX || instant[n..] == END_SUFFIX then Some(instant[..n])
      else None
  }

  /** Strict lexicographic order on strings by character code. */
  predicate LexLess(a: string, b: string) {
    if a == [] then b != []
    else b != [] && (a[0] < b[0] || (a[0] == b[0] && LexLess(a[1..], b[1..])))
  }

  /** Both bounds name the same day, and that day is all they differ by from
      their fixed suffixes. */
  lemma {:induction false} WindowSharesDay(day: string)
    ensures var p := WindowFor(day);
      DayOf(p.start) == Some(day) && DayOf(p.end) == Some(day)
      && p.start[..|day|] == p.end[..|day|] == day
      && |p.start| == |p.end| == |day| + 14
  {
    var p := WindowFor(day);
    assert p.start[|day|..] == START_SUFFIX && p.start[..|day|] == day;
    assert p.end[|day|..] == END_SUFFIX && p.end[..|day|] == day;
  }

  /** For an ISO date the bounds are 24-character instants with the time
      separator at position 10. */
  lemma IsoWindowShape(day: string)
    requires IsIsoDate(day)
    ensures var p := WindowFor(day);
      |p.start| == |p.end| == 24 && p.start[10] == p.end[10] == 'T'
      && p.start[23] == p.end[23] == 'Z'
  {
  }

  /** A common prefix does not change the lexicographic order. */
  lemma {:induction false} LexLessCommonPrefix(prefix: string, a: string, b: string)
    ensures LexLess(prefix + a, prefix + b) <==> LexLess(a, b)
  {
    if prefix != [] {
      assert (prefix + a)[1..] == prefix[1..] + a;
      assert (prefix + b)[1..] == prefix[1..] + b;
      LexLessCommonPrefix(prefix[1..], a, b);
    } else {
      assert prefix + a == a && prefix + b == b;
    }
  }

  /** The start of the window sorts strictly before its end, whatever the day. */
  lemma WindowOrdered(day: string)
    ensures LexLess(WindowFor(day).start, WindowFor(day).end)
  {
    LexLessCommonPrefix(day, START_SUFFIX, END_SUFFIX);
    assert LexLess(START_SUFFIX, END_SUFFIX) by {
      assert START_SUFFIX[0] == END_SUFFIX[0] && START_SUFFIX[1] < END_SUFFIX[1];
    }
  }
}
