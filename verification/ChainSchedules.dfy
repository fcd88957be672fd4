/** The calendar of FULL and INCREMENTAL chains: one weekly FULL time, up to four daily
    INCREMENTAL times, each with its own persisted cursor. */
module ChainSchedules {
  import opened Slots
  import opened SortedSeqs
  import opened TimeZones
  import opened WallSlots
  import opened Wrappers
  import SchedulePolicies

  const CHAIN_BACKLOG_LIMIT := 100_000

  datatype Kind = FULL | INCREMENTAL

  predicate IsMinuteOfDay(minute: int) {
    0 <= minute < 1440
  }

  /** The weekday of a day number, Monday being 0; day 0 is 1970-01-01, a Thursday. */
  function Weekday(day: int): int {
    (day + 3) % 7
  }

  function Monday(weeks: int): int {
    4 + 7 * weeks
  }

  /** The date is whole weeks from that weekday in the week of 1970-01-05, a Monday. */
  ghost predicate FallsOn(day: int, weekday: int) {
    exists weeks: int :: day == Monday(weeks) + weekday
  }

  lemma WeekdaysRepeat(day: int, weekday: int)
    requires 0 <= weekday <= 6
    ensures Weekday(day) == weekday <==> FallsOn(day, weekday)
  {
    if Weekday(day) == weekday { assert day == Monday((day + 3) / 7 - 1) + weekday; }
  }

  ghost predicate IsFullReading(weekday: int, time: int, w: int) {
    exists day: int :: Weekday(day) == weekday && w == WallTime(day, time)
  }

  ghost predicate IsIncrementalReading(times: seq<int>, w: int) {
    exists day: int, i: int :: 0 <= i < |times| && w == WallTime(day, times[i])
  }

  /** The earlier of the instants that either fold reads exactly; None inside a gap. */
  method EarliestExact(zone: Zone, naive: int) returns (instant: Option<int>)
    requires zone.Valid()
    ensures instant == if zone.InGap(naive) then None else Some(zone.First(naive))
  {
    zone.FirstIsFirst(naive);
    var candidates: seq<int> := [];
    for pass := 0 to 2
      invariant forall u :: u in candidates ==> zone.Local(u) == naive
      invariant 0 < pass && !zone.InGap(naive) ==> zone.First(naive) in candidates
    {
      var candidate := zone.Read(naive, pass == 1);
      if zone.Local(candidate) == naive {
        candidates := candidates + [candidate];
      }
    }
    if candidates == [] { return None; }
    if zone.InGap(naive) { zone.GapHasNoInstant(naive, candidates[0]); }
    var earliest := Earliest(candidates);
    return Some(earliest);
  }

  method Earliest(candidates: seq<int>) returns (earliest: int)
    requires candidates != []
    ensures earliest in candidates && forall u :: u in candidates ==> earliest <= u
  {
    earliest := candidates[0];
    for i := 1 to |candidates|
      invariant earliest in candidates && forall j :: 0 <= j < i ==> earliest <= candidates[j]
    {
      if candidates[i] < earliest { earliest := candidates[i]; }
    }
  }

  /** One wall reading resolved by trying both folds, then the following minutes. */
  method LocalCandidate(zone: Zone, day: int, time: int) returns (instant: Option<int>)
    requires zone.Valid()
    ensures instant == Some(zone.First(WallTime(day, time)))
    ensures IsMinuteOfDay(time) ==> DueAt(zone, day, time / 60, time % 60, instant.value)
  {
    var naive := WallTime(day, time);
    if IsMinuteOfDay(time) { DueWhenReached(zone, day, time, zone.First(naive)); }
    zone.FirstReaches(naive);
    instant := EarliestExact(zone, naive);
    if instant.Some? { return; }
    WallTimeIsWholeMinute(day, time);
    ghost var gap := zone.MinutesToGapEnd(naive);
    for offset := 1 to 24 * 60 + 1
      invariant offset <= gap
    {
      var probe := naive + offset * MINUTE;
      zone.ProbeGap(naive, probe);
      for pass := 0 to 2
        invariant offset <= gap && (0 < pass ==> offset < gap)
      {
        var candidate := zone.Read(probe, pass == 1);
        if offset < gap {
          zone.GapHasNoInstant(probe, candidate);
        } else {
          zone.FirstReaches(probe);
        }
        if zone.Local(candidate) == probe {
          return Some(candidate);
        }
      }
    }
    return None;
  }

  // ---- Validation of the configured times ----

  predicate IsDigit(c: char) {
    '0' <= c <= '9'
  }

  function TwoDigits(tens: char, units: char): int
    requires IsDigit(tens) && IsDigit(units)
  {
    (tens as int - '0' as int) * 10 + (units as int - '0' as int)
  }

  /** HH:MM as a minute of the day. */
  function RequireTime(text: string): Option<int> {
    if |text| != 5 || text[2] != ':' then None
    else if !(IsDigit(text[0]) && IsDigit(text[1]) && IsDigit(text[3]) && IsDigit(text[4])) then None
    else
      var hour, minute := TwoDigits(text[0], text[1]), TwoDigits(text[3], text[4]);
      if hour <= 23 && minute <= 59 then Some(hour * 60 + minute) else None
  }

  const DIGITS := "0123456789"

  /** The two digits of a number. */
  function Spelt(n: int): string
    requires 0 <= n < 100
  {
    [DIGITS[n / 10], DIGITS[n % 10]]
  }

  lemma DigitsRead(k: int)
    requires 0 <= k < 10
    ensures IsDigit(DIGITS[k]) && DIGITS[k] as int == '0' as int + k
  {
  }

  lemma SpeltReads(n: int)
    requires 0 <= n < 100
    ensures IsDigit(Spelt(n)[0]) && IsDigit(Spelt(n)[1]) && TwoDigits(Spelt(n)[0], Spelt(n)[1]) == n
  {
    DigitsRead(n / 10);
    DigitsRead(n % 10);
  }

  lemma ReadsSpelt(tens: char, units: char)
    requires IsDigit(tens) && IsDigit(units)
    ensures 0 <= TwoDigits(tens, units) < 100 && [tens, units] == Spelt(TwoDigits(tens, units))
  {
    var t := DigitIsFound(tens);
    var u := DigitIsFound(units);
    SpeltDigits(t, u);
  }

  lemma DigitIsFound(c: char) returns (k: int)
    requires IsDigit(c)
    ensures 0 <= k < 10 && k == c as int - '0' as int && DIGITS[k] == c
  {
    k := c as int - '0' as int;
    DigitsRead(k);
  }

  lemma SpeltDigits(t: int, u: int)
    requires 0 <= t < 10 && 0 <= u < 10
    ensures Spelt(t * 10 + u) == [DIGITS[t], DIGITS[u]]
  {
    assert (t * 10 + u) / 10 == t;
  }

  function TimeText(hour: int, minute: int): string
    requires 0 <= hour < 24 && 0 <= minute < 60
  {
    Spelt(hour) + ":" + Spelt(minute)
  }

  /** The text of an hour and a minute is accepted, and names the time that a clock shows as these. */
  lemma TextIsShown(hour: int, minute: int, day: int)
    requires 0 <= hour < 24 && 0 <= minute < 60
    ensures var time := RequireTime(TimeText(hour, minute));
      time.Some? && IsMinuteOfDay(time.value) && Shows(WallTime(day, time.value), day, hour, minute)
  {
    SpeltReads(hour);
    SpeltReads(minute);
    WallTimeIsShown(day, hour * 60 + minute, WallTime(day, hour * 60 + minute));
  }

  /** Nothing else is accepted. */
  lemma AcceptedTextsAreTimes(text: string)
    requires RequireTime(text).Some?
    ensures exists hour, minute :: 0 <= hour < 24 && 0 <= minute < 60 && text == TimeText(hour, minute)
  {
    ReadsSpelt(text[0], text[1]);
    ReadsSpelt(text[3], text[4]);
    assert text == [text[0], text[1]] + ":" + [text[3], text[4]];
    assert text == TimeText(TwoDigits(text[0], text[1]), TwoDigits(text[3], text[4]));
  }

  /** The order of texts of one length: by the first character where they differ. */
  ghost predicate TextLess(a: string, b: string)
    requires |a| == |b|
  {
    exists k :: 0 <= k < |a| && a[k] < b[k] && a[..k] == b[..k]
  }

  /** The first difference of two texts decides their order, whatever follows. */
  lemma FirstDifference(a: string, b: string, k: nat)
    requires RequireTime(a).Some? && RequireTime(b).Some? && k < 5
    requires a[k] < b[k] && forall i :: 0 <= i < k ==> a[i] == b[i]
    ensures RequireTime(a).value < RequireTime(b).value && TextLess(a, b)
  {
    assert a[..k] == b[..k];
  }

  /** Sorting the accepted texts sorts the times, and distinct texts are distinct times. */
  lemma TextOrderIsTimeOrder(a: string, b: string)
    requires RequireTime(a).Some? && RequireTime(b).Some?
    ensures TextLess(a, b) <==> RequireTime(a).value < RequireTime(b).value
    ensures a == b <==> RequireTime(a) == RequireTime(b)
  {
    var k := 0;
    while k < 5 && a[k] == b[k]
      invariant 0 <= k <= 5 && forall i :: 0 <= i < k ==> a[i] == b[i]
    {
      k := k + 1;
    }
    if k == 5 {
      assert a == b;
    } else if a[k] < b[k] {
      FirstDifference(a, b, k);
      NotLess(b, a, k);
    } else {
      FirstDifference(b, a, k);
      NotLess(a, b, k);
    }
  }

  lemma NotLess(a: string, b: string, k: nat)
    requires |a| == |b| && k < |a| && b[k] < a[k] && forall i :: 0 <= i < k ==> a[i] == b[i]
    ensures !TextLess(a, b)
  {
    forall j | 0 <= j < |a| && a[j] < b[j]
      ensures a[..j] != b[..j]
    {
      if k < j { assert a[..j][k] == a[k] && b[..j][k] == b[k]; }
    }
  }

  function ParseAll(values: seq<string>): seq<Option<int>> {
    seq(|values|, i requires 0 <= i < |values| => RequireTime(values[i]))
  }

  /** The sorted distinct times, or None when there are not one to four valid ones. */
  method ValidateIncrementalTimes(values: seq<string>) returns (times: Option<seq<int>>)
    ensures times.Some? <==> 1 <= |values| <= 4 && None !in ParseAll(values)
    ensures times.Some? ==> ValidTimes(times.value) && forall t :: t in times.value <==> Some(t) in ParseAll(values)
  {
    if !(1 <= |values| <= 4) {
      return None;
    }
    var parsed := ParseAll(values);
    var normalized: seq<int> := [];
    for i := 0 to |parsed|
      invariant Ascending(normalized) && None !in parsed[..i]
      invariant forall t :: t in normalized <==> Some(t) in parsed[..i]
    {
      if parsed[i].None? {
        return None;
      }
      assert parsed[..i + 1] == parsed[..i] + [parsed[i]];
      normalized := Collect(normalized, parsed[i].value);
    }
    assert parsed[..|parsed|] == parsed;
    ParsedTimesAreValid(values, normalized);
    return Some(normalized);
  }

  lemma ParsedTimesAreValid(values: seq<string>, times: seq<int>)
    requires values != [] && None !in ParseAll(values) && Ascending(times)
    requires forall t :: t in times <==> Some(t) in ParseAll(values)
    ensures ValidTimes(times)
  {
    var parsed := ParseAll(values);
    assert parsed[0] in parsed;
    assert parsed[0].value in times;
    forall i | 0 <= i < |times|
      ensures IsMinuteOfDay(times[i])
    {
      assert times[i] in times;
      var j :| 0 <= j < |values| && parsed[j] == Some(times[i]);
    }
  }

  ghost predicate ValidTimes(times: seq<int>) {
    && times != [] && Ascending(times)
    && forall i :: 0 <= i < |times| ==> IsMinuteOfDay(times[i])
  }

  lemma EarlierDateFirst(d: int, a: int, day: int, b: int)
    requires IsMinuteOfDay(a) && IsMinuteOfDay(b) && d < day
    ensures WallTime(d, a) < WallTime(day, b)
  {
  }

  /** A reading before position `i` of a date lies on that date at an earlier position, or on an earlier
      date. */
  lemma EarlierReading(times: seq<int>, day: int, i: nat, d: int, j: nat)
    requires ValidTimes(times) && i < |times| && j < |times| && WallTime(d, times[j]) < WallTime(day, times[i])
    ensures 0 < i ==> WallTime(d, times[j]) <= WallTime(day, times[i - 1])
    ensures i == 0 ==> WallTime(d, times[j]) <= WallTime(day - 1, times[|times| - 1])
  {
    var last := |times| - 1;
    if d == day {
      assert j < i;
      assert j < i - 1 ==> times[j] < times[i - 1];
    } else if d < day {
      if 0 < i { EarlierDateFirst(d, times[j], day, times[i - 1]); }
      if d < day - 1 { EarlierDateFirst(d, times[j], day - 1, times[last]); }
      assert j < last ==> times[j] < times[last];
    }
  }

  // ---- The next slot ----

  datatype Schedule = Schedule(zone: Zone, fullWeekday: int, fullTime: int, incrementalTimes: seq<int>) {

    ghost predicate Valid() {
      zone.Valid() && 0 <= fullWeekday <= 6 && IsMinuteOfDay(fullTime) && ValidTimes(incrementalTimes)
    }

    ghost function FullReadings(): iset<int> {
      iset w | IsFullReading(fullWeekday, fullTime, w)
    }

    ghost function IncrementalReadings(): iset<int> {
      iset w | IsIncrementalReading(incrementalTimes, w)
    }

    /** The slots of one kind over all dates. */
    ghost function Slots(kind: Kind): iset<int>
      requires Valid()
    {
      DueSlots(zone, if kind == FULL then FullReadings() else IncrementalReadings())
    }

    /** The first FULL slot strictly after a value, found within nine dates of the fifteen searched. */
    method NextFullAfter(value: int) returns (next: Option<int>, ghost passes: nat)
      requires Valid()
      ensures next.Some? && IsNext(Slots(FULL), value, next.value)
      ensures exists day :: FallsOn(day, fullWeekday) && DueAt(zone, day, fullTime / 60, fullTime % 60, next.value)
      ensures passes <= 9
    {
      passes := 0;
      var today := LocalDate(zone, value);
      for delta := 0 to 15
        invariant passes == delta <= 9
        invariant forall d :: today <= d < today + delta && Weekday(d) == fullWeekday ==> zone.First(WallTime(d, fullTime)) <= value
      {
        passes := passes + 1;
        var day := today + delta;
        if delta == 9 { SomeFutureFullDate(value, today); }
        if Weekday(day) != fullWeekday { continue; }
        var candidate := LocalCandidate(zone, day, fullTime);
        if candidate.value > value {
          FullSlotIsNext(value, today, day);
          WeekdaysRepeat(day, fullWeekday);
          return candidate, passes;
        }
      }
      return None, passes;
    }

    lemma FullSlotIsNext(value: int, today: int, day: int)
      requires Valid() && OnDate(zone, value, today) && today <= day && Weekday(day) == fullWeekday
      requires forall d :: today <= d < day && Weekday(d) == fullWeekday ==> zone.First(WallTime(d, fullTime)) <= value
      requires value < zone.First(WallTime(day, fullTime))
      ensures IsNext(Slots(FULL), value, zone.First(WallTime(day, fullTime)))
    {
      forall x | x in FullReadings() && x < WallTime(day, fullTime)
        ensures zone.First(x) <= value
      {
        var d :| Weekday(d) == fullWeekday && x == WallTime(d, fullTime);
        if d < today {
          EarlierDatesAreDue(zone, value, today, x);
        }
      }
      NextByReading(zone, FullReadings(), value, WallTime(day, fullTime));
    }

    /** Among any week of dates ahead one is the FULL weekday, and it is still to come. */
    lemma SomeFutureFullDate(value: int, today: int)
      requires Valid() && OnDate(zone, value, today)
      ensures exists d :: today + 2 <= d < today + 9 && Weekday(d) == fullWeekday && value < zone.First(WallTime(d, fullTime))
    {
      var start := today + 2;
      var d := start + (fullWeekday - start - 3) % 7;
      DatesAheadAreFuture(zone, value, today, WallTime(d, fullTime));
      assert Weekday(d) == fullWeekday;
    }

    /** The reading tried just before position `i` of a date. */
    function PreviousReading(day: int, i: nat): int
      requires i < |incrementalTimes|
    {
      if 0 < i then WallTime(day, incrementalTimes[i - 1])
      else WallTime(day - 1, incrementalTimes[|incrementalTimes| - 1])
    }

    lemma ReadingsInOrder(day: int, i: nat, x: int)
      requires Valid() && i < |incrementalTimes|
      requires IsIncrementalReading(incrementalTimes, x) && x < WallTime(day, incrementalTimes[i])
      ensures x <= PreviousReading(day, i)
    {
      var d, j :| 0 <= j < |incrementalTimes| && x == WallTime(d, incrementalTimes[j]);
      EarlierReading(incrementalTimes, day, i, d, j);
    }

    lemma IncrementalSlotIsNext(value: int, day: int, i: nat)
      requires Valid() && i < |incrementalTimes|
      requires DueBelow(zone, IncrementalReadings(), value, WallTime(day, incrementalTimes[i]))
      requires value < zone.First(WallTime(day, incrementalTimes[i]))
      ensures IsNext(Slots(INCREMENTAL), value, zone.First(WallTime(day, incrementalTimes[i])))
    {
      assert IsIncrementalReading(incrementalTimes, WallTime(day, incrementalTimes[i]));
      NextByReading(zone, IncrementalReadings(), value, WallTime(day, incrementalTimes[i]));
    }

    /** Everything before a date is due. */
    ghost predicate DueBefore(value: int, day: int)
      requires Valid()
    {
      DueBelow(zone, IncrementalReadings(), value, WallTime(day, incrementalTimes[0]))
    }

    /** A value lies on its own local date, after everything of the dates before. */
    lemma EarlierIsDue(value: int, today: int)
      requires Valid() && OnDate(zone, value, today)
      ensures DueBefore(value, today)
    {
      assert IsMinuteOfDay(incrementalTimes[|incrementalTimes| - 1]);
      forall x | x in IncrementalReadings() && x < WallTime(today, incrementalTimes[0])
        ensures x < today * DAY
      {
        ReadingsInOrder(today, 0, x);
      }
      EarlierReadingsAreDue(zone, IncrementalReadings(), value, today, WallTime(today, incrementalTimes[0]));
    }

    /** When the reading before a position is due, so is everything before that position. */
    lemma PositionReached(value: int, day: int, i: nat)
      requires Valid() && i < |incrementalTimes| && zone.First(PreviousReading(day, i)) <= value
      ensures DueBelow(zone, IncrementalReadings(), value, WallTime(day, incrementalTimes[i]))
    {
      forall x | x in IncrementalReadings() && x < WallTime(day, incrementalTimes[i])
        ensures x <= PreviousReading(day, i)
      {
        ReadingsInOrder(day, i, x);
      }
      NextReading(zone, IncrementalReadings(), value, PreviousReading(day, i), WallTime(day, incrementalTimes[i]));
    }

    /** The first slot of one date after a value; a date two days ahead always has one. */
    method ScanDate(value: int, day: int, ghost today: int) returns (next: Option<int>)
      requires Valid() && DueBefore(value, day) && OnDate(zone, value, today)
      ensures next.Some? ==>
        && IsNext(Slots(INCREMENTAL), value, next.value)
        && exists time :: time in incrementalTimes && DueAt(zone, day, time / 60, time % 60, next.value)
      ensures next.None? ==> DueBefore(value, day + 1) && day < today + 2
    {
      for i := 0 to |incrementalTimes|
        invariant i < |incrementalTimes| ==> DueBelow(zone, IncrementalReadings(), value, WallTime(day, incrementalTimes[i]))
        invariant i == |incrementalTimes| ==> DueBefore(value, day + 1)
        invariant i > 0 ==> day < today + 2
      {
        var candidate := LocalCandidate(zone, day, incrementalTimes[i]);
        if candidate.value > value {
          IncrementalSlotIsNext(value, day, i);
          return candidate;
        }
        if day >= today + 2 { DatesAheadAreFuture(zone, value, today, WallTime(day, incrementalTimes[i])); }
        if i + 1 < |incrementalTimes| {
          PositionReached(value, day, i + 1);
        } else {
          PositionReached(value, day + 1, 0);
        }
      }
      return None;
    }

    /** The first INCREMENTAL slot strictly after a value, over all dates and all times. */
    method NextIncrementalAfter(value: int) returns (next: Option<int>, ghost passes: nat)
      requires Valid()
      ensures next.Some? && IsNext(Slots(INCREMENTAL), value, next.value)
      ensures exists day, time :: time in incrementalTimes && DueAt(zone, day, time / 60, time % 60, next.value)
      ensures passes <= 3
    {
      passes := 0;
      var today := LocalDate(zone, value);
      EarlierIsDue(value, today);
      for day := today to today + 3700
        invariant passes == day - today <= 2
        invariant DueBefore(value, day)
      {
        passes := passes + 1;
        next := ScanDate(value, day, today);
        if next.Some? { return; }
      }
      return None, passes;
    }

    /** Advance one persisted cursor over everything that has come due. */
    method AdvanceCursor(cursor: int, now: int, kind: Kind) returns (answer: Advance)
      requires Valid()
      ensures Answers(Slots(kind), CHAIN_BACKLOG_LIMIT, cursor, now, answer)
    {
      if cursor > now {
        return NotDue;
      }
      var represented, current := 0, cursor;
      ghost var slots := Slots(kind);
      while current <= now
        invariant represented <= CHAIN_BACKLOG_LIMIT
        invariant current <= now ==> represented + |Window(slots, current, now)| == |Window(slots, cursor, now)|
        invariant now < current ==> Advanced(slots, cursor, now, represented, current)
        decreases now - current
      {
        represented := represented + 1;
        if represented > CHAIN_BACKLOG_LIMIT {
          return BacklogTooLarge;
        }
        var next: Option<int>;
        ghost var passes: nat;
        if kind == FULL {
          next, passes := NextFullAfter(current);
        } else {
          next, passes := NextIncrementalAfter(current);
        }
        WindowStep(slots, current, next.value, now);
        current := next.value;
      }
      return Due(represented, current);
    }
  }

  /** The slots of both kinds, in terms of the local clock. */
  lemma SlotsAre(schedule: Schedule, u: int)
    requires schedule.Valid()
    ensures u in schedule.Slots(FULL) <==>
      exists day :: FallsOn(day, schedule.fullWeekday) && DueAt(schedule.zone, day, schedule.fullTime / 60, schedule.fullTime % 60, u)
    ensures u in schedule.Slots(INCREMENTAL) <==>
      exists day, time :: time in schedule.incrementalTimes && DueAt(schedule.zone, day, time / 60, time % 60, u)
  {
    FullSlotsAre(schedule.zone, schedule.fullWeekday, schedule.fullTime, u);
    IncrementalSlotsAre(schedule.zone, schedule.incrementalTimes, u);
  }

  lemma FullSlotsAre(zone: Zone, weekday: int, time: int, u: int)
    requires zone.Valid() && 0 <= weekday <= 6 && IsMinuteOfDay(time)
    ensures (exists w :: IsFullReading(weekday, time, w) && zone.First(w) == u) <==>
      exists day :: FallsOn(day, weekday) && DueAt(zone, day, time / 60, time % 60, u)
  {
    if w :| IsFullReading(weekday, time, w) && zone.First(w) == u {
      var day :| Weekday(day) == weekday && w == WallTime(day, time);
      WeekdaysRepeat(day, weekday);
      DueWhenReached(zone, day, time, u);
    }
    if day :| FallsOn(day, weekday) && DueAt(zone, day, time / 60, time % 60, u) {
      WeekdaysRepeat(day, weekday);
      DueWhenReached(zone, day, time, u);
      assert IsFullReading(weekday, time, WallTime(day, time));
    }
  }

  lemma IncrementalSlotsAre(zone: Zone, times: seq<int>, u: int)
    requires zone.Valid() && ValidTimes(times)
    ensures (exists w :: IsIncrementalReading(times, w) && zone.First(w) == u) <==>
      exists day, time :: time in times && DueAt(zone, day, time / 60, time % 60, u)
  {
    if w :| IsIncrementalReading(times, w) && zone.First(w) == u {
      var day, i :| 0 <= i < |times| && w == WallTime(day, times[i]);
      DueWhenReached(zone, day, times[i], u);
    }
    if day, time :| time in times && DueAt(zone, day, time / 60, time % 60, u) {
      var i :| 0 <= i < |times| && times[i] == time;
      DueWhenReached(zone, day, time, u);
      assert IsIncrementalReading(times, WallTime(day, times[i]));
    }
  }

  /** The two separately written wall-clock searches agree: with a single incremental time the
      chain calendar has exactly the slots of the DAILY policy for that time, so the next slots
      and the coalesced counts are the same. */
  lemma SingleTimeIsDaily(schedule: Schedule, policy: SchedulePolicies.SchedulePolicy, value: int, next: int)
    requires schedule.Valid() && |schedule.incrementalTimes| == 1
    requires policy == SchedulePolicies.Daily(schedule.incrementalTimes[0], schedule.zone)
    ensures policy.Valid() && schedule.Slots(INCREMENTAL) == policy.Slots(value)
    ensures IsNext(schedule.Slots(INCREMENTAL), value, next) <==> IsNext(policy.Slots(value), value, next)
  {
    var time := schedule.incrementalTimes[0];
    assert IsMinuteOfDay(time);
    forall w
      ensures IsIncrementalReading([time], w) <==> SchedulePolicies.IsDailyReading(time, w)
    {
      if SchedulePolicies.IsDailyReading(time, w) {
        var day :| w == WallTime(day, time);
        assert w == WallTime(day, [time][0]);
      }
    }
    assert schedule.incrementalTimes == [time];
    assert schedule.IncrementalReadings() == SchedulePolicies.DailyReadings(time);
  }

  /** So the two searches return the same instant. */
  method ResolversAgree(schedule: Schedule, policy: SchedulePolicies.SchedulePolicy, value: int)
    returns (chain: Option<int>, daily: Option<int>)
    requires schedule.Valid() && |schedule.incrementalTimes| == 1
    requires policy == SchedulePolicies.Daily(schedule.incrementalTimes[0], schedule.zone)
    ensures chain.Some? && daily == chain
  {
    SingleTimeIsDaily(schedule, policy, value, value);
    ghost var passes;
    chain, passes := schedule.NextIncrementalAfter(value);
    daily, passes := policy.NextRunAfter(value);
    NextIsUnique(policy.Slots(value), value, chain.value, daily.value);
  }
}
