/** The navigation bar's time markers: starting at the session start and
    stepping one minute at a time while before the session end, each step
    yields the "HH:mm" clock label of that instant.

    Instants are epoch milliseconds. The labels are in the viewer's local time;
    the time zone is modelled as a fixed offset from UTC, in milliseconds. */
module NavigationBar {
  import opened Decimal
  import opened TimeUnits

  // ---------------------------------------------------------------------------
  // The "HH:mm" label
  // ---------------------------------------------------------------------------

  /** The minute of the local day an instant falls in (seconds and
      milliseconds are dropped, not rounded). */
  function MinuteOfDay(t: int, utcOffsetMs: int): (m: nat)
    ensures m < MinutesPerDay
  {
    ((t + utcOffsetMs) / MillisPerMinute) % MinutesPerDay
  }

  /** `format("HH:mm")`: two-digit 24-hour hour, a colon, two-digit minute. */
  function FormatHHmm(t: int, utcOffsetMs: int): (text: string)
    ensures |text| == 5 && text[2] == ':'
  {
    var m := MinuteOfDay(t, utcOffsetMs);
    TwoDigits(m / MinutesPerHour) + ":" + TwoDigits(m % MinutesPerHour)
  }

  /** Five characters: hours 00-23, a colon, minutes 00-59. */
  predicate IsClockLabel(text: string) {
    |text| == 5 && text[2] == ':' &&
    AllDigits(text[..2]) && ParseNat(text[..2]) < 24 &&
    AllDigits(text[3..]) && ParseNat(text[3..]) < 60
  }

  /** The minute of the day a clock label names; the inverse of FormatHHmm. */
  function ParseHHmm(text: string): (m: nat)
    requires IsClockLabel(text)
    ensures m < MinutesPerDay
  {
    MinutesPerHour * ParseNat(text[..2]) + ParseNat(text[3..])
  }

  /** Every label is a well-formed clock label naming the instant's minute of
      the day. */
  lemma FormatHHmmWellFormed(t: int, utcOffsetMs: int)
    ensures IsClockLabel(FormatHHmm(t, utcOffsetMs))
    ensures ParseHHmm(FormatHHmm(t, utcOffsetMs)) == MinuteOfDay(t, utcOffsetMs)
  {
    var m := MinuteOfDay(t, utcOffsetMs);
    var hh := TwoDigits(m / MinutesPerHour);
    var mm := TwoDigits(m % MinutesPerHour);
    var text := FormatHHmm(t, utcOffsetMs);
    assert text[..2] == hh;
    assert text[3..] == mm;
  }

  /** Two instants get the same label exactly when they fall in the same
      minute of the day. */
  lemma SameLabelIffSameMinute(t1: int, t2: int, utcOffsetMs: int)
    ensures FormatHHmm(t1, utcOffsetMs) == FormatHHmm(t2, utcOffsetMs)
        <==> MinuteOfDay(t1, utcOffsetMs) == MinuteOfDay(t2, utcOffsetMs)
  {
    FormatHHmmWellFormed(t1, utcOffsetMs);
    FormatHHmmWellFormed(t2, utcOffsetMs);
  }

  /** With a fixed offset from UTC (no daylight-saving change), labels repeat
      every 24 hours. */
  lemma FormatHHmmDaily(t: int, utcOffsetMs: int)
    ensures FormatHHmm(t + MillisPerDay, utcOffsetMs) == FormatHHmm(t, utcOffsetMs)
  {
    var q := (t + utcOffsetMs) / MillisPerMinute;
    assert (t + MillisPerDay + utcOffsetMs) / MillisPerMinute == q + MinutesPerDay;
    assert (q + MinutesPerDay) % MinutesPerDay == q % MinutesPerDay;
  }

  // ---------------------------------------------------------------------------
  // The marker instants
  // ---------------------------------------------------------------------------

  /** The instants the loop visits: start, start + 1 minute, ... while before end. */
  function MarkerInstants(start: int, end: int): (instants: seq<int>)
    ensures forall k :: 0 <= k < |instants| ==> start <= instants[k] < end
    decreases end - start
  {
    if start < end then [start] + MarkerInstants(start + MillisPerMinute, end) else []
  }

  /** How many markers there are: none for an empty or inverted session, and
      otherwise the session length in minutes rounded up. */
  function MarkerCount(start: int, end: int): (n: nat)
    ensures end <= start ==> n == 0
    ensures start < end ==> (n - 1) * MillisPerMinute < end - start <= n * MillisPerMinute
  {
    if end <= start then 0 else (end - start + MillisPerMinute - 1) / MillisPerMinute
  }

  /** The labels of the navigation bar. */
  function TimeMarkers(start: int, end: int, utcOffsetMs: int): (markers: seq<string>)
    ensures |markers| == MarkerCount(start, end)
  {
    MarkerInstantsShape(start, end);
    var instants := MarkerInstants(start, end);
    seq(|instants|, k requires 0 <= k < |instants| => FormatHHmm(instants[k], utcOffsetMs))
  }

  /** There are MarkerCount instants and the k-th is k minutes after start. */
  lemma {:induction false} MarkerInstantsShape(start: int, end: int)
    ensures |MarkerInstants(start, end)| == MarkerCount(start, end)
    ensures forall k :: 0 <= k < |MarkerInstants(start, end)| ==>
      MarkerInstants(start, end)[k] == start + k * MillisPerMinute
    decreases end - start
  {
    if start < end {
      var next := start + MillisPerMinute;
      MarkerInstantsShape(next, end);
      var rest := MarkerInstants(next, end);
      assert MarkerInstants(start, end) == [start] + rest;
      if next < end {
        assert MarkerCount(start, end) == MarkerCount(next, end) + 1 by {
          assert end - start + MillisPerMinute - 1 == (end - next + MillisPerMinute - 1) + MillisPerMinute;
        }
      } else {
        assert MarkerCount(start, end) == 1;
      }
      forall k | 0 < k < |MarkerInstants(start, end)|
        ensures MarkerInstants(start, end)[k] == start + k * MillisPerMinute
      {
        assert MarkerInstants(start, end)[k] == rest[k - 1];
      }
    }
  }

  /** An empty or inverted session has no markers. */
  lemma NoMarkersForEmptySession(start: int, end: int, utcOffsetMs: int)
    requires end <= start
    ensures TimeMarkers(start, end, utcOffsetMs) == []
  {
  }

  /** Consecutive markers are exactly one minute apart, and every one-minute
      step from start that is before end has a marker: with the range of
      MarkerInstants, the markers are exactly the instants start + k minutes
      below end. */
  lemma MarkerInstantsExact(start: int, end: int)
    ensures var instants := MarkerInstants(start, end);
      (forall k :: 0 < k < |instants| ==> instants[k] - instants[k - 1] == MillisPerMinute) &&
      (forall k: nat :: start + k * MillisPerMinute < end ==> k < |instants|)
  {
    MarkerInstantsShape(start, end);
  }

  /** The k-th label is the clock label of start shifted by k minutes; the
      first is that of start itself, not of a rounded minute. */
  lemma TimeMarkersAt(start: int, end: int, utcOffsetMs: int)
    ensures var markers := TimeMarkers(start, end, utcOffsetMs);
      |markers| == MarkerCount(start, end) &&
      (forall k :: 0 <= k < |markers| ==> markers[k] == FormatHHmm(start + k * MillisPerMinute, utcOffsetMs)) &&
      (forall k :: 0 <= k < |markers| ==> IsClockLabel(markers[k]))
  {
    MarkerInstantsShape(start, end);
    var markers := TimeMarkers(start, end, utcOffsetMs);
    forall k | 0 <= k < |markers| ensures IsClockLabel(markers[k]) {
      FormatHHmmWellFormed(start + k * MillisPerMinute, utcOffsetMs);
    }
  }

  // ---------------------------------------------------------------------------
  // The generator
  // ---------------------------------------------------------------------------

  /** generateTimeMarkers: a loop that pushes the label of `current` and moves
      `current` on by a minute while it is before `end`. */
  method GenerateTimeMarkers(start: int, end: int, utcOffsetMs: int) returns (markers: seq<string>)
    ensures |markers| == MarkerCount(start, end)
    ensures forall k :: 0 <= k < |markers| ==>
      markers[k] == FormatHHmm(start + k * MillisPerMinute, utcOffsetMs)
    ensures markers == TimeMarkers(start, end, utcOffsetMs)
  {
    markers := [];
    var current := start;
    while current < end
      invariant current == start + |markers| * MillisPerMinute
      invariant markers != [] ==> current - MillisPerMinute < end
      invariant forall k :: 0 <= k < |markers| ==>
        markers[k] == FormatHHmm(start + k * MillisPerMinute, utcOffsetMs)
      decreases end - current
    {
      markers := markers + [FormatHHmm(current, utcOffsetMs)];
      current := current + MillisPerMinute;
    }
    TimeMarkersAt(start, end, utcOffsetMs);
  }

  // ---------------------------------------------------------------------------
  // Worked examples (instants on 1 January 1970, labels in UTC)
  // ---------------------------------------------------------------------------

  /** A three-minute session from 08:00:00 has the markers 08:00, 08:01, 08:02. */
  lemma ThreeMinuteSession()
    ensures TimeMarkers(28800000, 28980000, 0) == ["08:00", "08:01", "08:02"]
  {
    TimeMarkersAt(28800000, 28980000, 0);
    LabelAt(0);
    LabelAt(1);
    LabelAt(2);
  }

  /** A session from 08:00:30 to 08:03:00 lasts two and a half minutes and has
      three markers, the first labelled with the start's own minute. */
  lemma UnalignedSession()
    ensures TimeMarkers(28830000, 28980000, 0) == ["08:00", "08:01", "08:02"]
  {
    TimeMarkersAt(28830000, 28980000, 0);
    LabelAt(0);
    LabelAt(1);
    LabelAt(2);
    assert FormatHHmm(28830000, 0) == FormatHHmm(28800000, 0);
    assert FormatHHmm(28890000, 0) == FormatHHmm(28860000, 0);
    assert FormatHHmm(28950000, 0) == FormatHHmm(28920000, 0);
  }

  /** The UTC label of minute mm of hour 08 on the first day. */
  lemma LabelAt(mm: nat)
    requires mm < 10
    ensures FormatHHmm(28800000 + mm * MillisPerMinute, 0) == ['0', '8', ':', '0', DigitChar(mm)]
  {
    assert MinuteOfDay(28800000 + mm * MillisPerMinute, 0) == 480 + mm;
    assert TwoDigits(8) == ['0', '8'];
    assert TwoDigits(mm) == ['0', DigitChar(mm)];
  }
}
