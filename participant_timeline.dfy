/** The participant timeline: how a session's participants, with their
    connection intervals, webcam and microphone activity and errors, are laid
    out on a canvas 1200 units wide.

    Instants are epoch milliseconds (`int`), as `Date.getTime()` yields them
    once the ISO-8601 strings of the data source are parsed; canvas offsets and
    widths are `real`. */
module ParticipantTimeline {
  import opened Decimal
  import opened TimeUnits

  /** Width of the canvas every instant is projected onto (TIMELINE_WIDTH). */
  const TimelineWidth: real := 1200.0
  /** The narrowest width an activity is drawn with. */
  const MinEventWidth: real := 4.0
  /** Half the width of a join or leave marker: the main bar starts this far
      right of the join offset, and the leave marker this far left of the
      leave offset. */
  const MarkerHalfWidth: real := 24.0
  /** Width of a webcam or microphone icon; the activity bar starts right of it. */
  const IconWidth: real := 22.0
  /** Distance of the reconnection badge from the join offset. */
  const BadgeOffset: real := 45.0

  datatype Option<T> = None | Some(value: T)

  /** The session every position is normalised against. */
  datatype Session = Session(start: int, end: int)

  /** A connection interval (join to leave) or a device-activity interval. */
  datatype Interval = Interval(start: int, end: int)

  /** An error reported at an instant. */
  datatype ErrorEvent = ErrorEvent(start: int, message: string)

  /** A participant's device activity; `errors` is an optional field. */
  datatype Events = Events(webcam: seq<Interval>, mic: seq<Interval>, errors: Option<seq<ErrorEvent>>)

  datatype Participant = Participant(participantId: string, name: string, timelog: seq<Interval>, events: Events)

  /** The icon drawn in the join marker. */
  datatype DeviceIcon = Monitor | Smartphone

  function MaxReal(a: real, b: real): real {
    if a >= b then a else b
  }

  // ---------------------------------------------------------------------------
  // Duration text
  // ---------------------------------------------------------------------------

  /** Whole minutes between two instants: the milliseconds are floored to
      seconds, then the seconds to minutes (`Math.floor` on a positive divisor
      is Dafny's `/`). The two-step floor is the same as one floor by a minute. */
  function MinutesBetween(startMs: int, endMs: int): (m: int)
    ensures m * MillisPerMinute <= endMs - startMs < (m + 1) * MillisPerMinute
  {
    var totalSeconds := (endMs - startMs) / MillisPerSecond;
    FloorOfFloor(endMs - startMs, totalSeconds);
    totalSeconds / SecondsPerMinute
  }

  lemma FloorOfFloor(diff: int, totalSeconds: int)
    requires totalSeconds == diff / MillisPerSecond
    ensures (totalSeconds / SecondsPerMinute) * MillisPerMinute <= diff
    ensures diff < (totalSeconds / SecondsPerMinute + 1) * MillisPerMinute
  {
    var m := totalSeconds / SecondsPerMinute;
    assert m * 60 <= totalSeconds < (m + 1) * 60;
    assert totalSeconds * 1000 <= diff < (totalSeconds + 1) * 1000;
  }

  /** The "Duration" text of a participant: "N Mins" for a positive minute
      count N, and "0 Mins" otherwise. */
  function CalculateDuration(startMs: int, endMs: int): (text: string)
    ensures 6 <= |text| && text[|text| - 5..] == " Mins"
  {
    var minutes := MinutesBetween(startMs, endMs);
    if minutes > 0 then NatToString(minutes) + " Mins" else "0 Mins"
  }

  /** The text is a numeral followed by " Mins"; the numeral reads back as the
      number of whole minutes elapsed, or 0 when less than a minute (or a
      negative time) elapsed; and it is exactly "0 Mins" in that case. */
  lemma {:induction false} DurationLabelMeaning(startMs: int, endMs: int)
    ensures var text := CalculateDuration(startMs, endMs);
      6 <= |text| && text[|text| - 5..] == " Mins" &&
      AllDigits(text[..|text| - 5]) &&
      ParseNat(text[..|text| - 5]) == if endMs - startMs < MillisPerMinute then 0 else (endMs - startMs) / MillisPerMinute
    ensures CalculateDuration(startMs, endMs) == "0 Mins" <==> endMs - startMs < MillisPerMinute
    ensures CalculateDuration(startMs, endMs) ==
      NatToString(if endMs - startMs < MillisPerMinute then 0 else (endMs - startMs) / MillisPerMinute) + " Mins"
  {
    var minutes := MinutesBetween(startMs, endMs);
    var text := CalculateDuration(startMs, endMs);
    if minutes > 0 {
      var digits := NatToString(minutes);
      ParseNatToString(minutes);
      NatToStringWellFormed(minutes);
      assert text[..|text| - 5] == digits;
      assert text[|text| - 5..] == " Mins";
      assert minutes == (endMs - startMs) / MillisPerMinute;
      assert text[0] == digits[0] != '0';
    } else {
      assert text[..|text| - 5] == "0";
      assert ParseNat("0") == 0 by {
        assert "0"[..0] == [];
      }
    }
  }

  // ---------------------------------------------------------------------------
  // Geometry
  // ---------------------------------------------------------------------------

  /** Offset of an instant on the canvas: its linear projection, clamped below
      at 0 and not clamped above. A zero-length session divides by zero in the
      source and is excluded. */
  function Position(t: int, s: Session): (x: real)
    requires s.start != s.end
    ensures 0.0 <= x
  {
    MaxReal(0.0, ((t - s.start) as real / (s.end - s.start) as real) * TimelineWidth)
  }

  /** Width of an activity on the canvas: its duration projected, never less
      than 4. */
  function EventWidth(startTime: int, endTime: int, s: Session): (w: real)
    requires s.start != s.end
    ensures MinEventWidth <= w
  {
    MaxReal(MinEventWidth, ((endTime - startTime) as real / (s.end - s.start) as real) * TimelineWidth)
  }

  /** Dividing by a positive number keeps the order of the dividends. */
  lemma DivideMonotone(a: real, b: real, d: real)
    requires a <= b && 0.0 < d
    ensures a / d <= b / d
    ensures a < b ==> a / d < b / d
  {
    assert b / d - a / d == (b - a) / d;
  }

  /** From the session start on, the clamp is not engaged: the offset is the
      plain linear projection. */
  lemma PositionFromStart(t: int, s: Session)
    requires s.start < s.end && s.start <= t
    ensures Position(t, s) == ((t - s.start) as real / (s.end - s.start) as real) * TimelineWidth
  {
    DivideMonotone(0.0, (t - s.start) as real, (s.end - s.start) as real);
  }

  /** Every instant up to the session start is drawn at offset 0. */
  lemma PositionBeforeStart(t: int, s: Session)
    requires s.start < s.end && t <= s.start
    ensures Position(t, s) == 0.0
  {
    DivideMonotone((t - s.start) as real, 0.0, (s.end - s.start) as real);
  }

  /** The session end is drawn exactly at the canvas width. */
  lemma PositionAtEnd(s: Session)
    requires s.start < s.end
    ensures Position(s.end, s) == TimelineWidth
  {
    PositionFromStart(s.end, s);
  }

  /** Offsets are non-decreasing in time. */
  lemma PositionMonotone(t1: int, t2: int, s: Session)
    requires s.start < s.end && t1 <= t2
    ensures Position(t1, s) <= Position(t2, s)
  {
    DivideMonotone((t1 - s.start) as real, (t2 - s.start) as real, (s.end - s.start) as real);
  }

  /** Instants within the session are drawn within the canvas. */
  lemma PositionWithinCanvas(t: int, s: Session)
    requires s.start < s.end && s.start <= t <= s.end
    ensures 0.0 <= Position(t, s) <= TimelineWidth
  {
    PositionMonotone(t, s.end, s);
    PositionAtEnd(s);
  }

  /** There is no upper clamp: instants after the session end fall past the
      canvas. */
  lemma PositionPastEnd(t: int, s: Session)
    requires s.start < s.end && s.end < t
    ensures TimelineWidth < Position(t, s)
  {
    var d := (s.end - s.start) as real;
    PositionFromStart(t, s);
    DivideMonotone(d, (t - s.start) as real, d);
  }

  /** The width depends on the duration only: shifting both ends by the same
      amount leaves it unchanged. */
  lemma EventWidthShift(startTime: int, endTime: int, shift: int, s: Session)
    requires s.start != s.end
    ensures EventWidth(startTime + shift, endTime + shift, s) == EventWidth(startTime, endTime, s)
  {
    assert (endTime + shift) - (startTime + shift) == endTime - startTime;
  }

  /** Empty and inverted activities get the minimum width. */
  lemma EventWidthOfEmpty(startTime: int, endTime: int, s: Session)
    requires s.start < s.end && endTime <= startTime
    ensures EventWidth(startTime, endTime, s) == MinEventWidth
  {
    DivideMonotone((endTime - startTime) as real, 0.0, (s.end - s.start) as real);
  }

  /** For an activity starting within the session, the width is the distance
      between the offsets of its ends, but at least 4. */
  lemma EventWidthIsDistance(startTime: int, endTime: int, s: Session)
    requires s.start < s.end && s.start <= startTime <= endTime
    ensures EventWidth(startTime, endTime, s) == MaxReal(MinEventWidth, Position(endTime, s) - Position(startTime, s))
  {
    var d := (s.end - s.start) as real;
    PositionFromStart(startTime, s);
    PositionFromStart(endTime, s);
    assert (endTime - s.start) as real / d - (startTime - s.start) as real / d
        == (endTime - startTime) as real / d;
  }

  /** The join-marker icon: a monitor when the participant has any webcam
      activity, a phone otherwise. */
  function GetDeviceIcon(p: Participant): (icon: DeviceIcon)
    ensures icon == Monitor <==> p.events.webcam != []
  {
    if |p.events.webcam| > 0 then Monitor else Smartphone
  }

  /** A participant reconnected when there is a connection interval after the
      first one. */
  function HasReconnections(timelog: seq<Interval>): (b: bool)
    ensures b <==> timelog != [] && timelog[1..] != []
  {
    |timelog| > 1
  }

  // ---------------------------------------------------------------------------
  // Per-participant layout
  // ---------------------------------------------------------------------------

  /** What the date caption shows: the start of the first connection, or "N/A".
      (The locale formatting of the instant is not modelled.) */
  datatype DateCaption = NotAvailable | StartedAt(instant: int)

  /** A horizontal bar: left offset and width. */
  datatype Bar = Bar(left: real, width: real)

  /** A webcam or microphone activity: its icon and the bar right of it. */
  datatype DeviceSegment = DeviceSegment(iconLeft: real, bar: Bar)

  /** The reconnection badge: its offset and the number it shows. */
  datatype Badge = Badge(left: real, count: nat)

  /** Everything computed for one participant row. */
  datatype ParticipantRow = ParticipantRow(
    date: DateCaption,
    duration: string,
    icon: DeviceIcon,
    joinLeft: real,
    mainBar: Option<Bar>,
    webcam: seq<DeviceSegment>,
    mic: seq<DeviceSegment>,
    errorMarkers: seq<real>,
    badge: Option<Badge>,
    leaveLeft: real,
    separatorAfter: bool)

  /** Offset of the join marker: the first connection's start, or 0 when the
      participant has no connection interval. */
  function JoinPosition(timelog: seq<Interval>, s: Session): (x: real)
    requires timelog != [] ==> s.start != s.end
    ensures 0.0 <= x
    ensures timelog == [] ==> x == 0.0
  {
    if timelog == [] then 0.0 else Position(timelog[0].start, s)
  }

  /** Offset the leave marker is measured from: the last connection's end, or
      the canvas width when the participant has no connection interval. */
  function LeavePosition(timelog: seq<Interval>, s: Session): (x: real)
    requires timelog != [] ==> s.start != s.end
    ensures 0.0 <= x
    ensures timelog == [] ==> x == TimelineWidth
  {
    if timelog == [] then TimelineWidth else Position(timelog[|timelog| - 1].end, s)
  }

  /** The main session bar: it starts 24 right of the join offset, never has
      negative width, and when it has any width it ends exactly where the leave
      marker begins; it is empty when the markers are 48 or less apart. */
  function MainBar(join: real, leave: real): (bar: Bar)
    ensures bar.left == join + MarkerHalfWidth && 0.0 <= bar.width
    ensures 0.0 < bar.width ==> bar.left + bar.width == leave - MarkerHalfWidth
    ensures bar.width == 0.0 <==> leave - join <= 2.0 * MarkerHalfWidth
  {
    Bar(join + MarkerHalfWidth, MaxReal(0.0, leave - join - 2.0 * MarkerHalfWidth))
  }

  /** The icon and bar of one webcam or microphone interval: the icon at the
      interval start's offset, the bar right of the icon, never of negative
      width. */
  function Segment(iv: Interval, s: Session): (seg: DeviceSegment)
    requires s.start != s.end
    ensures seg.iconLeft == Position(iv.start, s)
    ensures seg.bar.left == seg.iconLeft + IconWidth
    ensures 0.0 <= seg.bar.width
    ensures seg.bar.width == 0.0 <==> EventWidth(iv.start, iv.end, s) <= IconWidth
    ensures 0.0 < seg.bar.width ==> seg.bar.width == EventWidth(iv.start, iv.end, s) - IconWidth
  {
    var startPos := Position(iv.start, s);
    var width := EventWidth(iv.start, iv.end, s);
    DeviceSegment(startPos, Bar(startPos + IconWidth, MaxReal(0.0, width - IconWidth)))
  }

  /** One segment per interval, in order; overlapping intervals are neither
      merged nor dropped. */
  function Segments(ivs: seq<Interval>, s: Session): (segs: seq<DeviceSegment>)
    requires ivs != [] ==> s.start != s.end
    ensures |segs| == |ivs|
    ensures forall i :: 0 <= i < |ivs| ==> segs[i] == Segment(ivs[i], s)
  {
    seq(|ivs|, i requires 0 <= i < |ivs| => Segment(ivs[i], s))
  }

  /** One point marker per error; an absent error list draws none. */
  function ErrorMarkers(errors: Option<seq<ErrorEvent>>, s: Session): (markers: seq<real>)
    requires errors.Some? && errors.value != [] ==> s.start != s.end
    ensures errors.None? ==> markers == []
    ensures errors.Some? ==> |markers| == |errors.value|
    ensures errors.Some? ==>
      forall i :: 0 <= i < |errors.value| ==> markers[i] == Position(errors.value[i].start, s)
  {
    match errors
    case None => []
    case Some(es) => seq(|es|, i requires 0 <= i < |es| => Position(es[i].start, s))
  }

  /** Whether laying out `p` projects any instant onto the canvas, that is,
      divides by the session length. A participant with no connection
      interval, no activity and no error is drawn with the fallback offsets
      alone, even in a zero-length session. */
  predicate NeedsProjection(p: Participant) {
    p.timelog != [] || p.events.webcam != [] || p.events.mic != [] ||
    (p.events.errors.Some? && p.events.errors.value != [])
  }

  /** The row of participant `p`; `isLast` tells whether a separator follows.
      The row's main bar, segments and error markers are those of MainBar,
      Segments and ErrorMarkers, whose contracts give their extents. */
  function ParticipantLayout(p: Participant, isLast: bool, s: Session): (row: ParticipantRow)
    requires NeedsProjection(p) ==> s.start != s.end
    ensures row.mainBar.Some? <==> p.timelog != []
    ensures p.timelog != [] ==> row.mainBar == Some(MainBar(row.joinLeft, row.leaveLeft + MarkerHalfWidth))
    ensures row.webcam == Segments(p.events.webcam, s) && row.mic == Segments(p.events.mic, s)
    ensures row.errorMarkers == ErrorMarkers(p.events.errors, s)
    ensures |row.webcam| == |p.events.webcam| && |row.mic| == |p.events.mic|
    ensures |row.errorMarkers| == if p.events.errors.None? then 0 else |p.events.errors.value|
    ensures row.separatorAfter <==> !isLast
  {
    var timelog := p.timelog;
    var join := JoinPosition(timelog, s);
    var leave := LeavePosition(timelog, s);
    ParticipantRow(
      if timelog == [] then NotAvailable else StartedAt(timelog[0].start),
      if timelog == [] then "N/A" else CalculateDuration(timelog[0].start, timelog[|timelog| - 1].end),
      GetDeviceIcon(p),
      join,
      if timelog == [] then None else Some(MainBar(join, leave)),
      Segments(p.events.webcam, s),
      Segments(p.events.mic, s),
      ErrorMarkers(p.events.errors, s),
      if HasReconnections(timelog) then Some(Badge(join + BadgeOffset, |timelog|)) else None,
      leave - MarkerHalfWidth,
      !isLast)
  }

  /** The whole timeline section: one row per participant, in order, with a
      separator after every row but the last. */
  function TimelineLayout(participants: seq<Participant>, s: Session): (rows: seq<ParticipantRow>)
    requires forall i :: 0 <= i < |participants| ==> NeedsProjection(participants[i]) ==> s.start != s.end
    ensures |rows| == |participants|
    ensures forall i :: 0 <= i < |rows| ==>
      rows[i] == ParticipantLayout(participants[i], i == |participants| - 1, s)
    ensures forall i :: 0 <= i < |rows| ==> (rows[i].separatorAfter <==> i < |rows| - 1)
  {
    seq(|participants|, i requires 0 <= i < |participants| =>
      ParticipantLayout(participants[i], i == |participants| - 1, s))
  }

  // ---------------------------------------------------------------------------
  // Properties of the layout
  // ---------------------------------------------------------------------------

  /** A connection log is chronological: each interval ends no earlier than it
      starts and no later than the next one starts. */
  ghost predicate Chronological(timelog: seq<Interval>) {
    (forall i :: 0 <= i < |timelog| ==> timelog[i].start <= timelog[i].end) &&
    (forall i :: 0 < i < |timelog| ==> timelog[i - 1].end <= timelog[i].start)
  }

  lemma {:induction false} ChronologicalSpan(timelog: seq<Interval>, j: nat)
    requires Chronological(timelog) && j < |timelog|
    ensures timelog[0].start <= timelog[j].end
    decreases j
  {
    if j > 0 {
      ChronologicalSpan(timelog, j - 1);
    }
  }

  /** Without connection intervals the row falls back to the sentinel
      placements: join at 0, leave measured from the canvas width, both
      captions "N/A", and no main bar. */
  lemma EmptyTimelogRow(p: Participant, isLast: bool, s: Session)
    requires p.timelog == [] && (NeedsProjection(p) ==> s.start != s.end)
    ensures var row := ParticipantLayout(p, isLast, s);
      row.joinLeft == 0.0 && row.leaveLeft == TimelineWidth - MarkerHalfWidth &&
      row.date == NotAvailable && row.duration == "N/A" &&
      row.mainBar == None && row.badge == None
  {
  }

  /** With connection intervals, the join marker sits at the first
      connection's start, the leave marker ends at the last connection's end,
      and the captions show the first start and the whole connected duration. */
  lemma ConnectedRow(p: Participant, isLast: bool, s: Session)
    requires s.start != s.end && p.timelog != []
    ensures var row := ParticipantLayout(p, isLast, s);
      var first := p.timelog[0];
      var last := p.timelog[|p.timelog| - 1];
      row.joinLeft == Position(first.start, s) &&
      row.leaveLeft + MarkerHalfWidth == Position(last.end, s) &&
      row.date == StartedAt(first.start) &&
      row.duration == CalculateDuration(first.start, last.end) &&
      row.mainBar.Some?
  {
  }

  /** For a chronological log within a proper session, the join marker is
      never right of the offset the leave marker is measured from. */
  lemma JoinNotAfterLeave(timelog: seq<Interval>, s: Session)
    requires s.start < s.end && Chronological(timelog)
    ensures JoinPosition(timelog, s) <= LeavePosition(timelog, s)
  {
    if timelog != [] {
      ChronologicalSpan(timelog, |timelog| - 1);
      PositionMonotone(timelog[0].start, timelog[|timelog| - 1].end, s);
    }
  }

  /** An activity within a proper session that spans at least an icon's width
      on the canvas has its bar end exactly at the offset of the activity's
      end; a shorter one is drawn as the icon alone. */
  lemma SegmentEndsAtActivityEnd(iv: Interval, s: Session)
    requires s.start < s.end && s.start <= iv.start <= iv.end
    ensures var seg := Segment(iv, s);
      (IconWidth <= Position(iv.end, s) - Position(iv.start, s) ==>
        seg.bar.left + seg.bar.width == Position(iv.end, s)) &&
      (Position(iv.end, s) - Position(iv.start, s) <= IconWidth ==> seg.bar.width == 0.0)
  {
    EventWidthIsDistance(iv.start, iv.end, s);
  }

  /** The reconnection badge is shown exactly when there is more than one
      connection interval, 45 right of the join marker, showing the number of
      intervals; the icon is the monitor exactly when there is webcam activity. */
  lemma BadgeAndIcon(p: Participant, isLast: bool, s: Session)
    requires NeedsProjection(p) ==> s.start != s.end
    ensures var row := ParticipantLayout(p, isLast, s);
      (row.badge.Some? <==> |p.timelog| > 1) &&
      (row.badge.Some? ==> row.badge.value == Badge(row.joinLeft + BadgeOffset, |p.timelog|)) &&
      (row.icon == Monitor <==> p.events.webcam != [])
  {
  }
}
