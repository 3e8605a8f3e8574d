# Session dashboard timeline — a Dafny model

The dashboard shows one video-conferencing session: a navigation bar of
per-minute time markers and, for every participant, a timeline row with a join
marker, a main session bar, webcam and microphone activity segments, error
markers, a reconnection badge and a leave marker, all placed on a canvas 1200
units wide. This project models the arithmetic behind that picture and proves
what it promises.

- `time_units.dfy` (module `TimeUnits`): the millisecond, minute, hour and
  day constants both other modules convert with.
- `decimal.dfy` (module `Decimal`): how numbers become text: the decimal
  numeral of a minute count and the two-digit fields of a clock label, each
  with a parser that reads it back.
- `participant_timeline.dfy` (module `ParticipantTimeline`): the geometry
  helpers (`Position`, `EventWidth`, `CalculateDuration`, `GetDeviceIcon`,
  `HasReconnections`) and the per-participant row (`ParticipantLayout`,
  `TimelineLayout`). The source computes these as expressions and `.map`
  calls, so they are functions, with lemmas.
- `navigation_bar.dfy` (module `NavigationBar`): the time-marker generator.
  The source runs a `while` loop that pushes onto an array, so
  `GenerateTimeMarkers` is a method with a loop and invariants, proved against
  the specification function `TimeMarkers`.

Instants are epoch milliseconds (`int`), which is what `Date.getTime()` and
dayjs yield once the ISO-8601 strings are parsed. Offsets and widths on the
canvas are `real`. `Math.floor(x / n)` with a positive `n` is Dafny's
Euclidean `/`, so the model uses `/` directly.

Two behaviours of the code worth knowing:

- The navigation bar has ceil((end − start)/60000) markers: the loop starts
  at the session start itself, unrounded, and steps while before the end
  (`MarkerCount`, `NavigationBar.UnalignedSession`).
- The leave marker's left edge is drawn 24 units left of the leave position
  (`leavePosition - 24`, ParticipantTimelineSection.tsx:319); the row stores
  that edge as `leaveLeft`.

## Model

| member | source | states |
|---|---|---|
| `Decimal.NatToString` | src/screens/Frame/sections/ParticipantTimelineSection/ParticipantTimelineSection.tsx:61 | the minute count is printed as a non-empty string of digits (its value: `ParseNatToString`) |
| `Decimal.NatToStringWellFormed` | src/screens/Frame/sections/ParticipantTimelineSection/ParticipantTimelineSection.tsx:61 | the printed minute count starts with '0' only for the number 0 |
| `Decimal.ParseNatToString` | src/screens/Frame/sections/ParticipantTimelineSection/ParticipantTimelineSection.tsx:61 | reading the printed minute count back gives the number again |
| `Decimal.NatToStringInjective` | src/screens/Frame/sections/ParticipantTimelineSection/ParticipantTimelineSection.tsx:61 | different minute counts are printed differently |
| `Decimal.TwoDigits` | src/screens/Frame/sections/NavigationBarSection/NavigationBarSection.tsx:21 | a value below 100 is written zero-padded as exactly two digits that read back as the value |
| `ParticipantTimeline.MinutesBetween` | src/screens/Frame/sections/ParticipantTimelineSection/ParticipantTimelineSection.tsx:58-60 | flooring milliseconds to seconds and then seconds to minutes gives the whole number of minutes m with m·60000 ≤ diff < (m+1)·60000, the same as one floor by a minute |
| `ParticipantTimeline.CalculateDuration` | src/screens/Frame/sections/ParticipantTimelineSection/ParticipantTimelineSection.tsx:55-62 | the duration text ends in " Mins" after at least one character (its meaning: `DurationLabelMeaning`) |
| `ParticipantTimeline.DurationLabelMeaning` | src/screens/Frame/sections/ParticipantTimelineSection/ParticipantTimelineSection.tsx:55-62 | the duration is exactly the numeral of floor(diff/60000), or of 0 under a minute, followed by " Mins"; that numeral reads back as the minute count; the text is "0 Mins" iff less than a minute elapsed, negative differences included |
| `ParticipantTimeline.Position` | src/screens/Frame/sections/ParticipantTimelineSection/ParticipantTimelineSection.tsx:67-76 | the offset of an instant is never negative |
| `ParticipantTimeline.PositionFromStart` | src/screens/Frame/sections/ParticipantTimelineSection/ParticipantTimelineSection.tsx:72-75 | from the session start on, the offset is the plain linear projection (t − S)/(E − S)·1200 |
| `ParticipantTimeline.PositionBeforeStart` | src/screens/Frame/sections/ParticipantTimelineSection/ParticipantTimelineSection.tsx:75 | for S < E every instant up to S is drawn at 0 |
| `ParticipantTimeline.PositionAtEnd` | src/screens/Frame/sections/ParticipantTimelineSection/ParticipantTimelineSection.tsx:65-76 | for S < E the session end is drawn exactly at 1200 |
| `ParticipantTimeline.PositionMonotone` | src/screens/Frame/sections/ParticipantTimelineSection/ParticipantTimelineSection.tsx:67-76 | for S < E the offset never decreases as the instant increases |
| `ParticipantTimeline.PositionWithinCanvas` | src/screens/Frame/sections/ParticipantTimelineSection/ParticipantTimelineSection.tsx:67-76 | for S < E every instant in [S, E] is drawn within [0, 1200] |
| `ParticipantTimeline.PositionPastEnd` | src/screens/Frame/sections/ParticipantTimelineSection/ParticipantTimelineSection.tsx:75 | there is no upper clamp: an instant after E is drawn beyond 1200 |
| `ParticipantTimeline.EventWidth` | src/screens/Frame/sections/ParticipantTimelineSection/ParticipantTimelineSection.tsx:78-88 | an activity is never narrower than 4 |
| `ParticipantTimeline.EventWidthShift` | src/screens/Frame/sections/ParticipantTimelineSection/ParticipantTimelineSection.tsx:84-87 | the width depends on the duration only: shifting both ends by the same amount leaves it unchanged |
| `ParticipantTimeline.EventWidthOfEmpty` | src/screens/Frame/sections/ParticipantTimelineSection/ParticipantTimelineSection.tsx:87 | for S < E an empty or inverted activity is exactly 4 wide |
| `ParticipantTimeline.EventWidthIsDistance` | src/screens/Frame/sections/ParticipantTimelineSection/ParticipantTimelineSection.tsx:67-88 | for S < E and S ≤ t0 ≤ t1 the width is max(4, Position(t1) − Position(t0)) |
| `ParticipantTimeline.GetDeviceIcon` | src/screens/Frame/sections/ParticipantTimelineSection/ParticipantTimelineSection.tsx:90-92 | the monitor icon is chosen iff the participant has webcam activity, the phone icon otherwise |
| `ParticipantTimeline.HasReconnections` | src/screens/Frame/sections/ParticipantTimelineSection/ParticipantTimelineSection.tsx:94-96 | a participant reconnected iff some connection interval follows the first |
| `ParticipantTimeline.JoinPosition` | src/screens/Frame/sections/ParticipantTimelineSection/ParticipantTimelineSection.tsx:130 | the join offset is never negative and is 0 when there is no connection interval (otherwise see `ConnectedRow`) |
| `ParticipantTimeline.LeavePosition` | src/screens/Frame/sections/ParticipantTimelineSection/ParticipantTimelineSection.tsx:131 | the leave offset is never negative and is 1200 when there is no connection interval (otherwise see `ConnectedRow`) |
| `ParticipantTimeline.ParticipantLayout` | src/screens/Frame/sections/ParticipantTimelineSection/ParticipantTimelineSection.tsx:124-334 | a participant's row has a main bar iff it has connection intervals, and then it is MainBar(join, leave) (lines 183-184); its webcam and mic segments are Segments of the webcam and mic intervals and its error markers are ErrorMarkers of the errors (lines 190-253); a separator follows iff it is not the last row; a participant with nothing to project is laid out even in a zero-length session (the rest: `EmptyTimelogRow`, `ConnectedRow`, `BadgeAndIcon`) |
| `ParticipantTimeline.EmptyTimelogRow` | src/screens/Frame/sections/ParticipantTimelineSection/ParticipantTimelineSection.tsx:124-131 | with no connection interval: join at 0, leave measured from 1200, date and duration "N/A", no main bar, no badge |
| `ParticipantTimeline.ConnectedRow` | src/screens/Frame/sections/ParticipantTimelineSection/ParticipantTimelineSection.tsx:124-319 | with connection intervals: join at the first start's offset, leave marker 24 left of the last end's offset, date from the first start, duration from first start to last end, main bar present |
| `ParticipantTimeline.JoinNotAfterLeave` | src/screens/Frame/sections/ParticipantTimelineSection/ParticipantTimelineSection.tsx:130-131 | for S < E and a chronological connection log the join offset is never right of the leave offset |
| `ParticipantTimeline.MainBar` | src/screens/Frame/sections/ParticipantTimelineSection/ParticipantTimelineSection.tsx:179-186 | the main bar starts at join + 24 and never has negative width; when it has any width it ends exactly at leave − 24, the leave marker's left edge (line 319); it is empty iff leave − join ≤ 48 |
| `ParticipantTimeline.Segment` | src/screens/Frame/sections/ParticipantTimelineSection/ParticipantTimelineSection.tsx:191-213 | a webcam or mic segment has its icon at the interval start's offset and its bar from icon + 22, of width max(0, width − 22): EventWidth − 22 when positive, 0 iff the activity's width is at most 22 |
| `ParticipantTimeline.Segments` | src/screens/Frame/sections/ParticipantTimelineSection/ParticipantTimelineSection.tsx:190-249 | one segment per webcam or mic interval, in order, none merged or dropped |
| `ParticipantTimeline.SegmentEndsAtActivityEnd` | src/screens/Frame/sections/ParticipantTimelineSection/ParticipantTimelineSection.tsx:209-215 | for an activity within a proper session spanning at least 22 on the canvas, the bar ends exactly at the offset of the activity's end; a shorter one has an empty bar |
| `ParticipantTimeline.ErrorMarkers` | src/screens/Frame/sections/ParticipantTimelineSection/ParticipantTimelineSection.tsx:252-271 | one error marker per error, at that error's offset; an absent error list gives none |
| `ParticipantTimeline.BadgeAndIcon` | src/screens/Frame/sections/ParticipantTimelineSection/ParticipantTimelineSection.tsx:273-310 | the reconnection badge is present iff there is more than one connection interval, sits at join + 45 and shows the number of intervals; the join icon is the monitor iff there is webcam activity |
| `ParticipantTimeline.TimelineLayout` | src/screens/Frame/sections/ParticipantTimelineSection/ParticipantTimelineSection.tsx:123-334 | one row per participant, in order, each the participant's layout, with a separator after every row but the last; no participants, no rows |
| `NavigationBar.MinuteOfDay` | src/screens/Frame/sections/NavigationBarSection/NavigationBarSection.tsx:21 | the local minute of the day an instant falls in is below 1440 |
| `NavigationBar.FormatHHmm` | src/screens/Frame/sections/NavigationBarSection/NavigationBarSection.tsx:21 | the label has five characters with a colon in the middle (the rest: `FormatHHmmWellFormed`) |
| `NavigationBar.FormatHHmmWellFormed` | src/screens/Frame/sections/NavigationBarSection/NavigationBarSection.tsx:21 | every label is five characters: hours 00–23, a colon, minutes 00–59, and it reads back as the instant's minute of the day |
| `NavigationBar.SameLabelIffSameMinute` | src/screens/Frame/sections/NavigationBarSection/NavigationBarSection.tsx:21 | two instants get the same label iff they fall in the same minute of the day |
| `NavigationBar.FormatHHmmDaily` | src/screens/Frame/sections/NavigationBarSection/NavigationBarSection.tsx:21 | for a fixed UTC offset (no daylight-saving change), labels repeat every 24 hours |
| `NavigationBar.MarkerInstants` | src/screens/Frame/sections/NavigationBarSection/NavigationBarSection.tsx:19-23 | every instant the loop visits lies in [start, end) |
| `NavigationBar.MarkerCount` | src/screens/Frame/sections/NavigationBarSection/NavigationBarSection.tsx:19-23 | no markers when end ≤ start; otherwise the least n with n·60000 ≥ end − start, that is ceil((end − start)/60000) |
| `NavigationBar.TimeMarkers` | src/screens/Frame/sections/NavigationBarSection/NavigationBarSection.tsx:19-23 | there are MarkerCount labels (their values: `TimeMarkersAt`) |
| `NavigationBar.MarkerInstantsShape` | src/screens/Frame/sections/NavigationBarSection/NavigationBarSection.tsx:19-23 | the loop visits ceil((end − start)/60000) instants when start < end, none otherwise, and the k-th is start + k·60000 |
| `NavigationBar.NoMarkersForEmptySession` | src/screens/Frame/sections/NavigationBarSection/NavigationBarSection.tsx:19-20 | if end ≤ start there are no markers |
| `NavigationBar.MarkerInstantsExact` | src/screens/Frame/sections/NavigationBarSection/NavigationBarSection.tsx:19-23 | consecutive marker instants are exactly a minute apart, and every start + k minutes before end is one of them |
| `NavigationBar.TimeMarkersAt` | src/screens/Frame/sections/NavigationBarSection/NavigationBarSection.tsx:19-22 | label k is the HH:mm of start shifted by k minutes (label 0 is start's own, unrounded), and every label is a well-formed clock label |
| `NavigationBar.GenerateTimeMarkers` | src/screens/Frame/sections/NavigationBarSection/NavigationBarSection.tsx:14-26 | the loop terminates (end − current falls by 60000 each step) and returns MarkerCount labels, label k being the HH:mm of start + k minutes: exactly TimeMarkers |
| `NavigationBar.ThreeMinuteSession` | src/screens/Frame/sections/NavigationBarSection/NavigationBarSection.tsx:14-26 | a session 08:00:00–08:03:00 (UTC) has the markers 08:00, 08:01, 08:02 |
| `NavigationBar.UnalignedSession` | src/screens/Frame/sections/NavigationBarSection/NavigationBarSection.tsx:14-26 | a session 08:00:30–08:03:00 (UTC) has three markers 08:00, 08:01, 08:02: the count is rounded up and the first label is the start's own minute |

## Left out

- Parsing of ISO-8601 strings by `new Date(...)` and `dayjs(...)`: foreign library calls. Every instant is taken as already-parsed epoch milliseconds, and malformed strings are not modelled.
- Time zones: `format("HH:mm")` uses the viewer's local time. The model takes a fixed offset from UTC (`utcOffsetMs`), so daylight-saving changes during a session are not modelled.
- `formatDateTime` and `formatTime`: they rely on locale formatting (`toLocaleString`, `toLocaleTimeString`). The date caption is modelled as the instant it shows (`StartedAt`) or "N/A", and the tooltip texts are not modelled.
- `Position`, `EventWidth`, `Segment`, `Segments`, `ErrorMarkers`, `JoinPosition`, `LeavePosition`, `ParticipantLayout`, `TimelineLayout`: IEEE-754 arithmetic is modelled as exact `real` arithmetic. A zero-length session, where the source divides by zero and yields NaN or Infinity, is excluded wherever an instant is projected: `Position`, `EventWidth` and `Segment` require start ≠ end; the others require it only when they project something (a connection interval, an activity or an error; `NeedsProjection`), so a participant with none of these is still laid out with join 0 and leave 1200 as the source does. An inverted session (start after end) gives finite values in the source and is modelled as written; the properties are stated for start < end.
- Hover state and tooltips (`hoveredElement`, the `Tooltip` component): UI event plumbing, with no arithmetic.
- JSX markup, CSS classes, icons and UI primitives (`Button`, `Separator`, `Tabs`): presentation only. Only the choice of join icon and whether a separator follows a row are modelled.
- The toggle and null check in `Frame.tsx` and the switch in `SessionHealthOverviewSection.tsx`: composition with no logic of their own. Frame.tsx is not part of this model.
- Tab selection in the navigation bar: local UI state of the `Tabs` control.
