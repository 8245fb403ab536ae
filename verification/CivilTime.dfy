/**
 * Reading event wall-clock times as instants. A time zone is its offset in milliseconds at every instant; local
 * times are instants of a clock without offset.
 */
module CivilTime {
  import opened Wrappers

  const DAY: int := 86_400_000
  const MINUTE: int := 60_000

  type Zone = int -> int

  /** What the zone's clocks show at an instant. */
  function Wall(zone: Zone, instant: int): int {
    instant + zone(instant)
  }

  /** The instant of a local time: the offset at the time itself first, then the offset at the instant that gives. */
  method LocalInstant(zone: Zone, requested: int) returns (instant: int)
    ensures instant == InstantOf(zone, requested)
    ensures OneChangeNear(zone, requested) ==> (Wall(zone, instant) == requested <==> exists x :: Wall(zone, x) == requested)
    ensures OneChangeNear(zone, requested) ==>
              forall x, y | Wall(zone, x) == requested == Wall(zone, y) && x < y ::
                instant == if zone(requested) == zone(x) then x else y
  {
    instant := requested - zone(requested);
    instant := requested - zone(instant);
    if OneChangeNear(zone, requested) {
      TwoStepsInvert(zone, requested);
      forall x, y | Wall(zone, x) == requested == Wall(zone, y) && x < y
        ensures instant == if zone(requested) == zone(x) then x else y
      {
        TwoStepsChoose(zone, requested, x, y);
      }
    }
  }

  function InstantOf(zone: Zone, requested: int): int {
    requested - zone(requested - zone(requested))
  }

  predicate Digit(c: char) {
    '0' <= c <= '9'
  }

  /** The minutes of the day that "HH:MM" names, when it is a time. */
  function ParseTime(time: string): (r: Option<int>)
    ensures r.Some? ==> 0 <= r.value < 1_440
  {
    if |time| == 5 && time[2] == ':' && Digit(time[3]) && time[3] <= '5' && Digit(time[4])
       && ((time[0] in "01" && Digit(time[1])) || (time[0] == '2' && '0' <= time[1] <= '3'))
    then Some(((time[0] as int - '0' as int) * 10 + (time[1] as int - '0' as int)) * 60
              + (time[3] as int - '0' as int) * 10 + (time[4] as int - '0' as int))
    else None
  }

  function FirstDay(zone: Zone, startsAt: int): int {
    Wall(zone, startsAt) / DAY * DAY
  }

  function Requested(zone: Zone, startsAt: int, minutes: int, day: int): int {
    FirstDay(zone, startsAt) + day * DAY + minutes * MINUTE
  }

  /** The instant shows the requested date and minute, and is in the event. */
  predicate Usable(zone: Zone, startsAt: int, endsAt: int, requested: int, instant: int) {
    Wall(zone, instant) / MINUTE == requested / MINUTE && startsAt <= instant <= endsAt
  }

  function EventTime(zone: Zone, startsAt: int, endsAt: int, time: string): Option<int> {
    var parsed := ParseTime(time);
    if parsed.None? then None
    else
      var today, tomorrow := Requested(zone, startsAt, parsed.value, 0), Requested(zone, startsAt, parsed.value, 1);
      if Usable(zone, startsAt, endsAt, today, InstantOf(zone, today)) then Some(InstantOf(zone, today))
      else if Usable(zone, startsAt, endsAt, tomorrow, InstantOf(zone, tomorrow)) then Some(InstantOf(zone, tomorrow))
      else None
  }

  method EventTimeInstant(zone: Zone, startsAt: int, endsAt: int, time: string) returns (r: Option<int>)
    ensures r == EventTime(zone, startsAt, endsAt, time)
  {
    var parsed := ParseTime(time);
    if parsed.None? { return None; }
    for day := 0 to 2
      invariant day > 0 ==> !Usable(zone, startsAt, endsAt, Requested(zone, startsAt, parsed.value, 0),
                                    InstantOf(zone, Requested(zone, startsAt, parsed.value, 0)))
      invariant day > 1 ==> !Usable(zone, startsAt, endsAt, Requested(zone, startsAt, parsed.value, 1),
                                    InstantOf(zone, Requested(zone, startsAt, parsed.value, 1)))
    {
      var requested := Requested(zone, startsAt, parsed.value, day);
      var instant := LocalInstant(zone, requested);
      if Usable(zone, startsAt, endsAt, requested, instant) { return Some(instant); }
    }
    r := None;
  }

  /** An instant's wall-clock time in minutes of the day. */
  function EventLocalTime(zone: Zone, instant: int): int {
    Wall(zone, instant) / MINUTE % 1_440
  }

  // ---------------------------------------------------------------- reading and writing times of day

  function DigitOf(n: int): char
    requires 0 <= n <= 9
  {
    '0' + n as char
  }

  /** A time of day as "HH:MM". */
  function WriteTime(minutes: int): string
    requires 0 <= minutes < 1_440
  {
    [DigitOf(minutes / 60 / 10), DigitOf(minutes / 60 % 10), ':', DigitOf(minutes % 60 / 10), DigitOf(minutes % 60 % 10)]
  }

  /** Reading a text gives a time of day exactly when the text is how that time is written. */
  lemma TimesReadBack(time: string, minutes: int)
    requires 0 <= minutes < 1_440
    ensures ParseTime(time) == Some(minutes) <==> time == WriteTime(minutes)
  {
    if ParseTime(time) == Some(minutes) {
      var h, m := time[0] as int * 10 + time[1] as int - 528, time[3] as int * 10 + time[4] as int - 528;
      assert minutes == h * 60 + m && 0 <= h <= 23 && 0 <= m <= 59;
      assert minutes / 60 == h && minutes % 60 == m;
      assert time == [time[0], time[1], time[2], time[3], time[4]];
    }
    if time == WriteTime(minutes) {
      assert 0 <= minutes / 60 <= 23 && 0 <= minutes % 60 <= 59;
    }
  }

  // ---------------------------------------------------------------- inverting a zone with one change nearby

  /** Offsets are under a day, and change at most once within a day of a local time, from `before` to `after`. */
  ghost predicate Changes(zone: Zone, requested: int, change: int, before: int, after: int) {
    && (forall i :: -DAY < zone(i) < DAY)
    && forall i | requested - DAY <= i <= requested + DAY :: zone(i) == if i < change then before else after
  }

  ghost predicate OneChangeNear(zone: Zone, requested: int) {
    exists change, before, after :: Changes(zone, requested, change, before, after)
  }

  lemma ShowsWithinADay(zone: Zone, requested: int, change: int, before: int, after: int, x: int)
    requires Changes(zone, requested, change, before, after) && Wall(zone, x) == requested
    ensures zone(x) == if x < change then before else after
  {
    assert -DAY < zone(x) < DAY;
  }

  lemma InstantIs(zone: Zone, requested: int, change: int, before: int, after: int)
    requires Changes(zone, requested, change, before, after)
    ensures var first := requested - if requested < change then before else after;
            var instant := requested - if first < change then before else after;
            InstantOf(zone, requested) == instant && zone(instant) == if instant < change then before else after
  {
    assert -DAY < zone(requested) < DAY;
    var first := requested - zone(requested);
    assert -DAY < zone(first) < DAY;
  }

  /** The two steps find an instant with the requested local time exactly when there is one. */
  lemma TwoStepsInvert(zone: Zone, requested: int)
    requires OneChangeNear(zone, requested)
    ensures Wall(zone, InstantOf(zone, requested)) == requested <==> exists x :: Wall(zone, x) == requested
  {
    var change, before, after :| Changes(zone, requested, change, before, after);
    InstantIs(zone, requested, change, before, after);
    if x :| Wall(zone, x) == requested {
      ShowsWithinADay(zone, requested, change, before, after, x);
    }
  }

  /** Of two instants with one local time, the two steps find the one with the offset of the local time read as an instant. */
  lemma TwoStepsChoose(zone: Zone, requested: int, x: int, y: int)
    requires OneChangeNear(zone, requested) && Wall(zone, x) == requested == Wall(zone, y) && x < y
    ensures zone(x) != zone(y)
    ensures InstantOf(zone, requested) == if zone(requested) == zone(x) then x else y
    ensures zone(requested) == zone(x) || zone(requested) == zone(y)
  {
    var change, before, after :| Changes(zone, requested, change, before, after);
    InstantIs(zone, requested, change, before, after);
    ShowsWithinADay(zone, requested, change, before, after, x);
    ShowsWithinADay(zone, requested, change, before, after, y);
  }

  // ---------------------------------------------------------------- event times

  /** A returned instant is in the event, and its clock shows the time on the event's first or second local date. */
  lemma EventTimeReadsBack(zone: Zone, startsAt: int, endsAt: int, time: string)
    requires EventTime(zone, startsAt, endsAt, time).Some?
    ensures var instant := EventTime(zone, startsAt, endsAt, time).value;
            && startsAt <= instant <= endsAt
            && Some(EventLocalTime(zone, instant)) == ParseTime(time)
            && 0 <= Wall(zone, instant) - FirstDay(zone, startsAt) < 2 * DAY
  {
    var instant, minutes := EventTime(zone, startsAt, endsAt, time).value, ParseTime(time).value;
    var requested := Requested(zone, startsAt, minutes, 0);
    var day := if Usable(zone, startsAt, endsAt, requested, instant) then 0 else 1;
    assert Usable(zone, startsAt, endsAt, Requested(zone, startsAt, minutes, day), instant);
    var days := Wall(zone, startsAt) / DAY + day;
    assert Requested(zone, startsAt, minutes, day) == (days * 1_440 + minutes) * MINUTE;
    assert Wall(zone, instant) / MINUTE == days * 1_440 + minutes;
    SameTimeOfDay(days, minutes);
  }

  lemma SameTimeOfDay(days: int, minutes: int)
    requires 0 <= minutes < 1_440
    ensures (days * 1_440 + minutes) % 1_440 == minutes
  {
  }

  /** Of the instants with a local time, the one that event times are read as. */
  ghost predicate Occurrence(zone: Zone, requested: int, x: int) {
    Wall(zone, x) == requested && ((forall y | Wall(zone, y) == requested :: y == x) || zone(x) == zone(requested))
  }

  lemma OccurrenceIsInstant(zone: Zone, requested: int, x: int)
    requires OneChangeNear(zone, requested)
    ensures Occurrence(zone, requested, x) <==> x == InstantOf(zone, requested) && Wall(zone, x) == requested
  {
    var change, before, after :| Changes(zone, requested, change, before, after);
    InstantIs(zone, requested, change, before, after);
    var chosen := InstantOf(zone, requested);
    if Wall(zone, x) == requested {
      ShowsWithinADay(zone, requested, change, before, after, x);
      if Wall(zone, chosen) == requested {
        if x < chosen { TwoStepsChoose(zone, requested, x, chosen); }
        if chosen < x { TwoStepsChoose(zone, requested, chosen, x); }
      }
    }
    if x == chosen && Wall(zone, x) == requested {
      forall y | Wall(zone, y) == requested && y != x ensures zone(x) == zone(requested) {
        if x < y { TwoStepsChoose(zone, requested, x, y); } else { TwoStepsChoose(zone, requested, y, x); }
      }
    }
  }

  /** The zone's offsets are whole minutes, and change at most once near a time of the event's first or second date. */
  ghost predicate Regular(zone: Zone, startsAt: int, minutes: int, day: int) {
    && (forall i :: zone(i) % MINUTE == 0)
    && OneChangeNear(zone, Requested(zone, startsAt, minutes, day))
  }

  /** The instant that a local time is read as lies in the event. */
  ghost predicate OccursWithin(zone: Zone, requested: int, startsAt: int, endsAt: int) {
    exists x :: Occurrence(zone, requested, x) && startsAt <= x <= endsAt
  }

  lemma UsableIsOccurrence(zone: Zone, startsAt: int, endsAt: int, minutes: int, day: int)
    requires Regular(zone, startsAt, minutes, day)
    ensures var requested := Requested(zone, startsAt, minutes, day);
            Usable(zone, startsAt, endsAt, requested, InstantOf(zone, requested))
            <==> OccursWithin(zone, requested, startsAt, endsAt)
  {
    WholeMinutes(Wall(zone, startsAt) / DAY, day, minutes);
    UsableIfOccurs(zone, startsAt, endsAt, Requested(zone, startsAt, minutes, day));
  }

  lemma WholeMinutes(days: int, day: int, minutes: int)
    ensures (days * DAY + day * DAY + minutes * MINUTE) % MINUTE == 0
  {
    assert days * DAY + day * DAY + minutes * MINUTE == (days * 1_440 + day * 1_440 + minutes) * MINUTE;
  }

  lemma UsableIfOccurs(zone: Zone, startsAt: int, endsAt: int, requested: int)
    requires OneChangeNear(zone, requested) && requested % MINUTE == 0 && forall i :: zone(i) % MINUTE == 0
    ensures Usable(zone, startsAt, endsAt, requested, InstantOf(zone, requested))
            <==> OccursWithin(zone, requested, startsAt, endsAt)
  {
    var instant := InstantOf(zone, requested);
    OccurrenceIsInstant(zone, requested, instant);
    assert zone(instant) % MINUTE == 0 && zone(requested - zone(requested)) % MINUTE == 0;
    SameMinute(requested, Wall(zone, instant));
    if x :| Occurrence(zone, requested, x) && startsAt <= x <= endsAt {
      OccurrenceIsInstant(zone, requested, x);
    }
  }

  lemma SameMinute(a: int, b: int)
    requires a % MINUTE == 0 && b % MINUTE == 0
    ensures a / MINUTE == b / MINUTE <==> a == b
  {
  }

  /**
   * A time is refused exactly when, on neither of the two dates, the instant it is read as exists within the event.
   * In particular every time that the clocks skip is refused, never shifted.
   */
  lemma EventTimeAcceptedIff(zone: Zone, startsAt: int, endsAt: int, time: string)
    requires ParseTime(time).Some?
    requires Regular(zone, startsAt, ParseTime(time).value, 0) && Regular(zone, startsAt, ParseTime(time).value, 1)
    ensures EventTime(zone, startsAt, endsAt, time).Some?
            <==> || OccursWithin(zone, Requested(zone, startsAt, ParseTime(time).value, 0), startsAt, endsAt)
                 || OccursWithin(zone, Requested(zone, startsAt, ParseTime(time).value, 1), startsAt, endsAt)
  {
    var minutes := ParseTime(time).value;
    UsableIsOccurrence(zone, startsAt, endsAt, minutes, 0);
    UsableIsOccurrence(zone, startsAt, endsAt, minutes, 1);
  }

  /** A time that occurs once on one of the dates, within the event, is accepted. */
  lemma UnambiguousTimeAccepted(zone: Zone, startsAt: int, endsAt: int, time: string, day: int, x: int)
    requires ParseTime(time).Some? && 0 <= day <= 1 && startsAt <= x <= endsAt
    requires Regular(zone, startsAt, ParseTime(time).value, 0) && Regular(zone, startsAt, ParseTime(time).value, 1)
    requires Wall(zone, x) == Requested(zone, startsAt, ParseTime(time).value, day)
    requires forall y | Wall(zone, y) == Wall(zone, x) :: y == x
    ensures EventTime(zone, startsAt, endsAt, time).Some?
  {
    OnlyOccurrence(zone, startsAt, endsAt, Requested(zone, startsAt, ParseTime(time).value, day), x);
    assert day == 0 || day == 1;
    EventTimeAcceptedIff(zone, startsAt, endsAt, time);
  }

  lemma OnlyOccurrence(zone: Zone, startsAt: int, endsAt: int, requested: int, x: int)
    requires Wall(zone, x) == requested && startsAt <= x <= endsAt && forall y | Wall(zone, y) == Wall(zone, x) :: y == x
    ensures OccursWithin(zone, requested, startsAt, endsAt)
  {
    assert Occurrence(zone, requested, x);
  }

  /** London's clocks on the night they go back, at 01:00 UTC. */
  function LondonAutumn(instant: int): int {
    if instant < 3_600_000 then 3_600_000 else 0
  }

  /**
   * A time that occurs twice may be refused though its first occurrence is in the event: 01:30 in an event that ends
   * at 00:45 UTC, before the clocks go back.
   */
  lemma RepeatedTimeMayBeRefused()
    ensures EventTime(LondonAutumn, 0, 2_700_000, "01:30") == None
    ensures Wall(LondonAutumn, 1_800_000) == Requested(LondonAutumn, 0, 90, 0) && 0 <= 1_800_000 <= 2_700_000
    ensures ParseTime("01:30") == Some(90)
  {
    assert ParseTime("01:30") == Some(90);
    assert Requested(LondonAutumn, 0, 90, 0) == 5_400_000;
    assert Requested(LondonAutumn, 0, 90, 1) == 5_400_000 + DAY;
    assert InstantOf(LondonAutumn, 5_400_000) == 5_400_000;
    assert InstantOf(LondonAutumn, 5_400_000 + DAY) == 5_400_000 + DAY;
  }
}
