/** Schedule policies of backup jobs: fixed intervals and one wall-clock slot a day. */
module SchedulePolicies {
  import opened Slots
  import opened SortedSeqs
  import opened TimeZones
  import opened WallSlots
  import opened Wrappers

  const SECOND := 1_000_000
  const DAILY_BACKLOG_LIMIT := 1_000_000

  /** The wall readings of a daily time, over all dates. */
  ghost function DailyReadings(minuteOfDay: int): iset<int> {
    iset w | IsDailyReading(minuteOfDay, w)
  }

  ghost predicate IsDailyReading(minuteOfDay: int, w: int) {
    exists day: int :: w == WallTime(day, minuteOfDay)
  }

  ghost function IntervalSlots(anchor: int, interval: int): iset<int>
    requires 0 < interval
  {
    iset u | IsIntervalSlot(anchor, interval, u)
  }

  function Tick(anchor: int, interval: int, k: int): int {
    anchor + k * interval
  }

  ghost predicate IsIntervalSlot(anchor: int, interval: int, u: int)
    requires 0 < interval
  {
    exists k: int :: u == Tick(anchor, interval, k)
  }

  /** Of all the instants showing a reading, the earliest is where the reading falls due; only
      readings inside a gap have none. */
  lemma EarliestCandidate(zone: Zone, naive: int, candidates: seq<int>)
    requires zone.Valid() && Ascending(candidates)
    requires forall u :: u in candidates <==> zone.Local(u) == naive
    ensures candidates == [] <==> zone.InGap(naive)
    ensures candidates != [] ==> candidates[0] == zone.First(naive)
  {
    if candidates == [] {
      zone.FirstReaches(naive);
    } else {
      assert candidates[0] in candidates;
      zone.LeastInstantIsFirst(naive, candidates[0]);
    }
  }

  /** The instants that show a wall reading, earliest first. */
  method ValidLocalCandidates(zone: Zone, naive: int) returns (candidates: seq<int>)
    requires zone.Valid()
    ensures Ascending(candidates) && forall u :: u in candidates <==> zone.Local(u) == naive
    ensures candidates == [] <==> zone.InGap(naive)
    ensures candidates != [] ==> candidates[0] == zone.First(naive)
  {
    candidates := [];
    for pass := 0 to 2
      invariant Ascending(candidates)
      invariant forall u :: u in candidates <==>
        zone.Local(u) == naive && ((0 < pass && u == zone.Read(naive, false)) || (1 < pass && u == zone.Read(naive, true)))
    {
      var utc := zone.Read(naive, pass == 1);
      if zone.Local(utc) == naive {
        candidates := Collect(candidates, utc);
      }
    }
    forall u | zone.Local(u) == naive
      ensures u == zone.Read(naive, false) || u == zone.Read(naive, true)
    {
      zone.FoldsFindEveryInstant(naive, u);
    }
    EarliestCandidate(zone, naive, candidates);
  }

  datatype SchedulePolicy =
    | Interval(seconds: int)
    | Daily(minuteOfDay: int, zone: Zone)
  {
    ghost predicate Valid() {
      match this
      case Interval(seconds) => 60 <= seconds
      case Daily(minuteOfDay, zone) => 0 <= minuteOfDay < 1440 && zone.Valid()
    }

    /** The slots of the policy; those of an interval are counted from the cursor. */
    ghost function Slots(cursor: int): iset<int>
      requires Valid()
    {
      match this
      case Interval(seconds) => IntervalSlots(cursor, seconds * SECOND)
      case Daily(minuteOfDay, zone) => DueSlots(zone, DailyReadings(minuteOfDay))
    }

    /** The required answer to a tick; only the DAILY backlog is capped. */
    ghost predicate Advances(due: int, now: int, answer: Advance)
      requires Valid()
    {
      if Daily? then Answers(Slots(due), DAILY_BACKLOG_LIMIT, due, now, answer)
      else if now < due then answer == NotDue
      else answer.Due? && Advanced(Slots(due), due, now, answer.represented, answer.cursor)
    }

    /** The slot of one date: a time inside a gap falls due at the first minute after the gap. */
    method DailySlotForDate(day: int) returns (slot: Option<int>)
      requires Valid() && Daily?
      ensures slot == Some(zone.First(WallTime(day, minuteOfDay)))
      ensures DueAt(zone, day, minuteOfDay / 60, minuteOfDay % 60, slot.value)
    {
      DueWhenReached(zone, day, minuteOfDay, zone.First(WallTime(day, minuteOfDay)));
      var naive := WallTime(day, minuteOfDay);
      var candidates := ValidLocalCandidates(zone, naive);
      if candidates != [] {
        return Some(candidates[0]);
      }
      WallTimeIsWholeMinute(day, minuteOfDay);
      ghost var gap := zone.MinutesToGapEnd(naive);
      for offset := 1 to 24 * 60 + 1
        invariant offset <= gap
      {
        var probe := naive + offset * MINUTE;
        candidates := ValidLocalCandidates(zone, probe);
        zone.ProbeGap(naive, probe);
        if candidates != [] {
          return Some(candidates[0]);
        }
      }
      return None;
    }

    /** The first slot strictly after a value, found within three dates. */
    method NextRunAfter(value: int) returns (next: Option<int>, ghost passes: nat)
      requires Valid()
      ensures next.Some? && IsNext(Slots(value), value, next.value)
      ensures Daily? ==> exists day :: DueAt(zone, day, minuteOfDay / 60, minuteOfDay % 60, next.value)
      ensures passes <= 3
    {
      passes := 0;
      if Interval? {
        IntervalStep(value, seconds * SECOND, 0);
        return Some(value + seconds * SECOND), 0;
      }
      var localDate := LocalDate(zone, value);
      ghost var today := localDate;
      EarlierDaysAreDue(zone, minuteOfDay, value, today);
      for pass := 0 to 3700
        invariant passes == pass <= 2 && localDate == today + pass
        invariant DueBelow(zone, DailyReadings(minuteOfDay), value, WallTime(localDate, minuteOfDay))
      {
        passes := passes + 1;
        var candidate := DailySlotForDate(localDate);
        if candidate.value > value {
          FirstFutureDate(zone, minuteOfDay, value, localDate);
          return candidate, passes;
        }
        if pass == 2 { DatesAheadAreFuture(zone, value, today, WallTime(localDate, minuteOfDay)); }
        NextDate(zone, minuteOfDay, value, localDate);
        localDate := localDate + 1;
      }
      return None, passes;
    }

    /** Coalesce every slot that has come due: how many there were, and the next future slot. */
    method AdvanceDue(due: int, now: int) returns (answer: Advance)
      requires Valid()
      ensures Advances(due, now, answer)
    {
      if now < due {
        return NotDue;
      }
      if Interval? {
        var interval := seconds * SECOND;
        var represented := (now - due) / interval + 1;
        TimesQuotient(now - due, interval);
        IntervalClosedForm(due, interval, 0, represented, now);
        return Due(represented, due + represented * interval);
      }
      var represented, cursor := 0, due;
      ghost var slots := Slots(due);
      while cursor <= now
        invariant represented <= DAILY_BACKLOG_LIMIT
        invariant cursor <= now ==> represented + |Window(slots, cursor, now)| == |Window(slots, due, now)|
        invariant now < cursor ==> Advanced(slots, due, now, represented, cursor)
        decreases now - cursor
      {
        represented := represented + 1;
        if represented > DAILY_BACKLOG_LIMIT {
          return BacklogTooLarge;
        }
        var next, _ := NextRunAfter(cursor);
        WindowStep(slots, cursor, next.value, now);
        cursor := next.value;
      }
      return Due(represented, cursor);
    }
  }

  /** The slots, in terms of the local clock and of the time that has passed. */
  lemma SlotsAre(policy: SchedulePolicy, cursor: int, u: int)
    requires policy.Valid()
    ensures policy.Daily? ==>
      (u in policy.Slots(cursor) <==> exists day :: DueAt(policy.zone, day, policy.minuteOfDay / 60, policy.minuteOfDay % 60, u))
    ensures policy.Interval? ==> (u in policy.Slots(cursor) <==> (u - cursor) % (policy.seconds * 1_000_000) == 0)
  {
    match policy
    case Daily(minuteOfDay, zone) => DailySlotsAre(zone, minuteOfDay, u);
    case Interval(seconds) => IntervalSlotsAre(cursor, seconds * SECOND, u);
  }

  lemma DailySlotsAre(zone: Zone, minuteOfDay: int, u: int)
    requires zone.Valid() && 0 <= minuteOfDay < 1440
    ensures FallsDue(zone, DailyReadings(minuteOfDay), u) <==> exists day :: DueAt(zone, day, minuteOfDay / 60, minuteOfDay % 60, u)
  {
    if w :| w in DailyReadings(minuteOfDay) && zone.First(w) == u {
      var day :| w == WallTime(day, minuteOfDay);
      DueWhenReached(zone, day, minuteOfDay, u);
    }
    if day :| DueAt(zone, day, minuteOfDay / 60, minuteOfDay % 60, u) {
      DueWhenReached(zone, day, minuteOfDay, u);
      assert IsDailyReading(minuteOfDay, WallTime(day, minuteOfDay));
    }
  }

  lemma IntervalSlotsAre(anchor: int, interval: int, u: int)
    requires 0 < interval
    ensures IsIntervalSlot(anchor, interval, u) <==> (u - anchor) % interval == 0
  {
    if k: int :| u == Tick(anchor, interval, k) {
      var q := (u - anchor) / interval;
      assert Tick(anchor, interval, q) == u - (u - anchor) % interval;
      TicksAscend(anchor, interval, q, k);
      TicksAscend(anchor, interval, k, q + 1);
    }
    if (u - anchor) % interval == 0 { assert u == Tick(anchor, interval, (u - anchor) / interval); }
  }

  /** However a downtime is split at an intermediate tick, the slot counts add up and the final
      cursor is the one a single tick would have reached. */
  lemma SplitDowntime(policy: SchedulePolicy, due: int, mid: int, now: int,
                      whole: Advance, first: Advance, second: Advance)
    requires policy.Valid() && due <= mid <= now
    requires policy.Advances(due, now, whole) && whole.Due?
    requires policy.Advances(due, mid, first)
    requires first.Due? ==> policy.Advances(first.cursor, now, second)
    ensures first.Due? && !second.BacklogTooLarge?
    ensures second.NotDue? ==> whole == first
    ensures second.Due? ==> whole == Due(first.represented + second.represented, second.cursor)
  {
    var slots := policy.Slots(due);
    if policy.Daily? {
      SplitAdvance(slots, DAILY_BACKLOG_LIMIT, due, mid, now, whole, first, second);
    } else {
      ReanchoredSlots(due, policy.seconds * SECOND, first.cursor);
      PathIndependence(slots, due, mid, now, whole.represented, whole.cursor, first.represented, first.cursor);
    }
  }

  lemma EarlierDay(minuteOfDay: int, x: int, day: int)
    requires IsDailyReading(minuteOfDay, x) && x < WallTime(day, minuteOfDay)
    ensures x <= WallTime(day - 1, minuteOfDay)
  {
    var d :| x == WallTime(d, minuteOfDay);
    assert d <= day - 1;
  }

  lemma EarlierDaysAreDue(zone: Zone, minuteOfDay: int, value: int, today: int)
    requires zone.Valid() && 0 <= minuteOfDay < 1440 && OnDate(zone, value, today)
    ensures DueBelow(zone, DailyReadings(minuteOfDay), value, WallTime(today, minuteOfDay))
  {
    forall x | x in DailyReadings(minuteOfDay) && x < WallTime(today, minuteOfDay)
      ensures x < today * DAY
    {
      EarlierDay(minuteOfDay, x, today);
    }
    EarlierReadingsAreDue(zone, DailyReadings(minuteOfDay), value, today, WallTime(today, minuteOfDay));
  }

  lemma NextDate(zone: Zone, minuteOfDay: int, value: int, day: int)
    requires zone.Valid() && zone.First(WallTime(day, minuteOfDay)) <= value
    ensures DueBelow(zone, DailyReadings(minuteOfDay), value, WallTime(day + 1, minuteOfDay))
  {
    forall x | x in DailyReadings(minuteOfDay) && x < WallTime(day + 1, minuteOfDay)
      ensures x <= WallTime(day, minuteOfDay)
    {
      EarlierDay(minuteOfDay, x, day + 1);
    }
    NextReading(zone, DailyReadings(minuteOfDay), value, WallTime(day, minuteOfDay), WallTime(day + 1, minuteOfDay));
  }

  lemma FirstFutureDate(zone: Zone, minuteOfDay: int, value: int, day: int)
    requires zone.Valid() && value < zone.First(WallTime(day, minuteOfDay))
    requires DueBelow(zone, DailyReadings(minuteOfDay), value, WallTime(day, minuteOfDay))
    ensures IsNext(DueSlots(zone, DailyReadings(minuteOfDay)), value, zone.First(WallTime(day, minuteOfDay)))
  {
    assert IsDailyReading(minuteOfDay, WallTime(day, minuteOfDay));
    NextByReading(zone, DailyReadings(minuteOfDay), value, WallTime(day, minuteOfDay));
  }

  // ---- Fixed intervals ----

  lemma TimesQuotient(x: nat, interval: int)
    requires 0 < interval
    ensures x / interval * interval <= x < (x / interval + 1) * interval
  {
  }

  lemma TicksAscend(anchor: int, interval: int, j: int, k: int)
    requires 0 < interval
    ensures j < k <==> Tick(anchor, interval, j) < Tick(anchor, interval, k)
    ensures Tick(anchor, interval, k + 1) == Tick(anchor, interval, k) + interval
  {
    var d := k - j;
    assert Tick(anchor, interval, k) - Tick(anchor, interval, j) == d * interval;
    if 0 < d {
      assert d * interval >= interval;
    } else {
      assert d * interval <= 0;
    }
  }

  /** Counting an interval's slots from a later slot gives the same slots. */
  lemma ReanchoredSlots(anchor: int, interval: int, slot: int)
    requires 0 < interval && IsIntervalSlot(anchor, interval, slot)
    ensures IntervalSlots(slot, interval) == IntervalSlots(anchor, interval)
  {
    var k :| slot == Tick(anchor, interval, k);
    forall u
      ensures IsIntervalSlot(slot, interval, u) <==> IsIntervalSlot(anchor, interval, u)
    {
      if IsIntervalSlot(slot, interval, u) {
        var j :| u == Tick(slot, interval, j);
        assert u == Tick(anchor, interval, k + j);
      }
      if IsIntervalSlot(anchor, interval, u) {
        var j :| u == Tick(anchor, interval, j);
        assert u == Tick(slot, interval, j - k);
      }
    }
  }

  lemma IntervalStep(anchor: int, interval: int, k: int)
    requires 0 < interval
    ensures IsNext(IntervalSlots(anchor, interval), Tick(anchor, interval, k), Tick(anchor, interval, k + 1))
  {
    var slots := IntervalSlots(anchor, interval);
    forall x | x in slots && Tick(anchor, interval, k) < x
      ensures Tick(anchor, interval, k + 1) <= x
    {
      var j :| x == Tick(anchor, interval, j);
      TicksAscend(anchor, interval, k, j);
      TicksAscend(anchor, interval, j, k + 1);
    }
    TicksAscend(anchor, interval, k, k + 1);
    assert IsIntervalSlot(anchor, interval, Tick(anchor, interval, k + 1));
  }

  /** The closed form counts what stepping one interval at a time would count. */
  lemma {:induction false} IntervalClosedForm(anchor: int, interval: int, k: int, n: nat, now: int)
    requires 0 < interval && 1 <= n
    requires Tick(anchor, interval, k + n - 1) <= now < Tick(anchor, interval, k + n)
    ensures Advanced(IntervalSlots(anchor, interval), Tick(anchor, interval, k), now, n, Tick(anchor, interval, k + n))
    decreases n
  {
    var slots := IntervalSlots(anchor, interval);
    var due, next := Tick(anchor, interval, k), Tick(anchor, interval, k + 1);
    IntervalStep(anchor, interval, k);
    WindowStep(slots, due, next, now);
    if 1 < n {
      IntervalClosedForm(anchor, interval, k + 1, n - 1, now);
      if 2 < n { TicksAscend(anchor, interval, k + 1, k + n - 1); }
    }
  }
}
