/**
 * The air-time label of a listing entry: the local-day test that picks the
 * time format, the three timeline states and the note text each one gets.
 * Both generations of listing code (the `Item` records of the old player
 * page and the `Node` records of the content API) print the same notes.
 */
module Timeline {
  import opened Wrappers

  /**
   * The local time zone and formatter of the machine, left abstract.
   * `utcOffset(t)` is the offset east of UTC, in seconds, in force at the
   * instant `t` (seconds since 1970-01-01T00:00:00Z); `strftime(f, t)` is the
   * local wall-clock text of `t` under the pattern `f`.
   */
  datatype Zone = Zone(utcOffset: int -> int, strftime: (string, int) -> string)

  const SecondsPerDay: nat := 86400

  /** Pattern for an instant on today's local date. */
  const SameDayFormat: string := "%H:%M"

  /** Pattern for an instant on any other local date. */
  const OtherDayFormat: string := "%b %d %H:%M"

  /** The local calendar date of instant `t`, counted in days since 1970-01-01 local time. */
  function LocalDay(zone: Zone, t: int): int {
    (t + zone.utcOffset(t)) / SecondsPerDay
  }

  /** Two instants fall on the same local calendar date. */
  predicate SameLocalDay(zone: Zone, a: int, b: int) {
    LocalDay(zone, a) == LocalDay(zone, b)
  }

  /** The pattern used for an instant `t` seen at the instant `now`. */
  function TimeFormat(zone: Zone, now: int, t: int): (f: string)
    ensures f == SameDayFormat || f == OtherDayFormat
    ensures f == SameDayFormat <==> SameLocalDay(zone, now, t)
  {
    if SameLocalDay(zone, now, t) then SameDayFormat else OtherDayFormat
  }

  /** The local text of the instant `t` as printed in a listing at the instant `now`. */
  function AirTimeText(zone: Zone, now: int, t: int): (text: string)
    ensures SameLocalDay(zone, now, t) ==> text == zone.strftime(SameDayFormat, t)
    ensures !SameLocalDay(zone, now, t) ==> text == zone.strftime(OtherDayFormat, t)
  {
    zone.strftime(TimeFormat(zone, now, t), t)
  }

  /** Where an item stands on the timeline. */
  datatype VidState = Started | Upcoming | Replay

  const StartedLabel: string := "STARTED "
  const UpcomingLabel: string := "UPCOMING"

  /** The opening of the note of a started or upcoming item, up to its time. */
  function LiveHead(state: VidState): string
    requires state != Replay
  {
    "(" + (if state == Started then StartedLabel else UpcomingLabel) + " @ "
  }

  /** The parenthesised note placed between an item's id and its title. */
  function Note(state: VidState, time: string): (note: string)
    ensures |note| >= |time| + 3 && note[0] == '(' && note[|note| - 2..] == ") "
    ensures note[|note| - 2 - |time|..|note| - 2] == time
    ensures state != Replay ==> LiveHead(state) <= note
  {
    match state
    case Started => "(" + StartedLabel + " @ " + time + ") "
    case Upcoming => "(" + UpcomingLabel + " @ " + time + ") "
    case Replay => "(" + time + ") "
  }

  /** A time text that cannot be mistaken for the head of a started or upcoming note. */
  predicate PlainTime(time: string) {
    !(LiveHead(Started)[1..] <= time) && !(LiveHead(Upcoming)[1..] <= time)
  }

  /** Reads a note back into its state and time. */
  function ParseNote(note: string): Option<(VidState, string)> {
    if |note| < 3 || note[0] != '(' || note[|note| - 2..] != ") " then None
    else if |note| >= 14 && LiveHead(Started) <= note then Some((Started, note[12..|note| - 2]))
    else if |note| >= 14 && LiveHead(Upcoming) <= note then Some((Upcoming, note[12..|note| - 2]))
    else Some((Replay, note[1..|note| - 2]))
  }

  /** A note names its state and its time unambiguously. */
  lemma ParseNoteRoundTrip(state: VidState, time: string)
    requires state == Replay ==> PlainTime(time)
    ensures ParseNote(Note(state, time)) == Some((state, time))
  {
    var note := Note(state, time);
    match state
    case Started =>
      assert note == LiveHead(Started) + time + ") ";
    case Upcoming =>
      assert note == LiveHead(Upcoming) + time + ") ";
      assert !(LiveHead(Started) <= note) by {
        assert note[1] == 'U';
      }
    case Replay =>
      assert note == "(" + time + ") ";
      assert note[1..] == time + ") ";
  }

  /**
   * The local date, not the UTC date, decides the format: at 00:10 on
   * 2025-06-01 in a zone four hours west of UTC, a programme that aired at
   * 23:50 the evening before shares the UTC date of `now` but not its local
   * date, so it is printed with the month and day.
   */
  lemma MidnightStraddle(zone: Zone)
    requires forall t :: zone.utcOffset(t) == -14400
    ensures var air, now := 1748749800, 1748751000;
      air / SecondsPerDay == now / SecondsPerDay &&
      !SameLocalDay(zone, now, air) && TimeFormat(zone, now, air) == OtherDayFormat
  {
  }
}
