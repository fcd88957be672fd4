/** Slots given by wall-clock readings: which instants a set of readings falls due at, and how a
    search through the readings in order finds the next one. */
module WallSlots {
  import opened Slots
  import opened TimeZones

  function WallTime(day: int, minuteOfDay: int): int {
    day * DAY + minuteOfDay * MINUTE
  }

  // ---- What a clock shows ----

  const HOUR := 60 * MINUTE

  function HourOf(w: int): int {
    w % DAY / HOUR
  }

  function MinuteOf(w: int): int {
    w % HOUR / MINUTE
  }

  /** A reading shows a date, an hour and a minute, and nothing beyond. */
  predicate Shows(w: int, day: int, hour: int, minute: int) {
    w / DAY == day && HourOf(w) == hour && MinuteOf(w) == minute && w % MINUTE == 0
  }

  /** A reading has reached them: the later date, hour or minute decides in this order. */
  predicate Reached(w: int, day: int, hour: int, minute: int) {
    w / DAY > day || (w / DAY == day && (HourOf(w) > hour || (HourOf(w) == hour && MinuteOf(w) >= minute)))
  }

  /** The first instant at which the local clock has reached a date, an hour and a minute; it shows them unless
      the clock never does. */
  ghost predicate DueAt(zone: Zone, day: int, hour: int, minute: int, u: int)
    requires zone.Valid()
  {
    && Reached(zone.Local(u), day, hour, minute)
    && (forall v :: v < u ==> !Reached(zone.Local(v), day, hour, minute))
    && (Shows(zone.Local(u), day, hour, minute) || forall v :: !Shows(zone.Local(v), day, hour, minute))
  }

  lemma ReadingsSplit(w: int)
    ensures w == w / DAY * DAY + HourOf(w) * HOUR + MinuteOf(w) * MINUTE + w % MINUTE
    ensures 0 <= HourOf(w) < 24 && 0 <= MinuteOf(w) < 60
  {
    assert w % DAY == w - w / DAY * DAY && w % HOUR == w - w / HOUR * HOUR && w % MINUTE == w - w / MINUTE * MINUTE;
    assert w % DAY / HOUR == w / HOUR - w / DAY * 24;
    assert w % HOUR / MINUTE == w / MINUTE - w / HOUR * 60;
  }

  lemma WallTimeSplits(day: int, minuteOfDay: int)
    requires 0 <= minuteOfDay < 1440
    ensures Shows(WallTime(day, minuteOfDay), day, minuteOfDay / 60, minuteOfDay % 60)
  {
    ReadingsSplit(WallTime(day, minuteOfDay));
  }

  /** The reading of a time of day, in terms of what the clock shows. */
  lemma WallTimeIsShown(day: int, minuteOfDay: int, w: int)
    requires 0 <= minuteOfDay < 1440
    ensures Shows(w, day, minuteOfDay / 60, minuteOfDay % 60) <==> w == WallTime(day, minuteOfDay)
    ensures Reached(w, day, minuteOfDay / 60, minuteOfDay % 60) <==> w >= WallTime(day, minuteOfDay)
  {
    ReadingsSplit(w);
    WallTimeSplits(day, minuteOfDay);
  }

  /** So this is when a time of day falls due on a date. */
  lemma DueWhenReached(zone: Zone, day: int, minuteOfDay: int, u: int)
    requires zone.Valid() && 0 <= minuteOfDay < 1440
    ensures DueAt(zone, day, minuteOfDay / 60, minuteOfDay % 60, u) <==> u == zone.First(WallTime(day, minuteOfDay))
  {
    var w := WallTime(day, minuteOfDay);
    zone.FirstIsFirst(w);
    forall v
      ensures Reached(zone.Local(v), day, minuteOfDay / 60, minuteOfDay % 60) <==> zone.Local(v) >= w
      ensures Shows(zone.Local(v), day, minuteOfDay / 60, minuteOfDay % 60) <==> zone.Local(v) == w
    {
      WallTimeIsShown(day, minuteOfDay, zone.Local(v));
    }
    zone.FirstReaches(w);
    forall v | zone.InGap(w)
      ensures zone.Local(v) != w
    {
      zone.GapHasNoInstant(w, v);
    }
  }

  // ---- Slots ----

  /** The instants at which any of the readings falls due. */
  ghost function DueSlots(zone: Zone, readings: iset<int>): iset<int>
    requires zone.Valid()
  {
    iset u | FallsDue(zone, readings, u)
  }

  ghost predicate FallsDue(zone: Zone, readings: iset<int>, u: int)
    requires zone.Valid()
  {
    exists w :: w in readings && zone.First(w) == u
  }

  /** Everything before a reading is due at a value. */
  ghost predicate DueBelow(zone: Zone, readings: iset<int>, value: int, w: int)
    requires zone.Valid()
  {
    forall x :: x in readings && x < w ==> zone.First(x) <= value
  }

  /** The first reading in order that falls due after a value gives the next slot overall. */
  lemma NextByReading(zone: Zone, readings: iset<int>, value: int, w: int)
    requires zone.Valid() && w in readings && value < zone.First(w) && DueBelow(zone, readings, value, w)
    ensures IsNext(DueSlots(zone, readings), value, zone.First(w))
  {
    var slots := DueSlots(zone, readings);
    forall u | u in slots && value < u
      ensures zone.First(w) <= u
    {
      var x :| x in readings && zone.First(x) == u;
      zone.FirstIsMonotone(w, if w <= x then x else w);
    }
    assert FallsDue(zone, readings, zone.First(w));
  }

  /** When a reading is due as well, so is everything before the reading that follows it. */
  lemma NextReading(zone: Zone, readings: iset<int>, value: int, w: int, next: int)
    requires zone.Valid() && zone.First(w) <= value && forall x :: x in readings && x < next ==> x <= w
    ensures DueBelow(zone, readings, value, next)
  {
    forall x | x in readings && x < next
      ensures zone.First(x) <= value
    {
      zone.FirstIsMonotone(x, w);
    }
  }

  /** The local date of an instant. */
  ghost predicate OnDate(zone: Zone, value: int, day: int)
    requires zone.Valid()
  {
    day * DAY <= zone.Local(value) < (day + 1) * DAY
  }

  method LocalDate(zone: Zone, value: int) returns (day: int)
    requires zone.Valid()
    ensures OnDate(zone, value, day)
  {
    return zone.Local(value) / DAY;
  }

  /** Every reading of an earlier date is already due. */
  lemma EarlierDatesAreDue(zone: Zone, value: int, day: int, w: int)
    requires zone.Valid() && OnDate(zone, value, day) && w < day * DAY
    ensures zone.First(w) <= value
  {
    zone.FirstIsFirst(w);
  }

  /** When the readings before a given one belong to earlier dates, they are due. */
  lemma EarlierReadingsAreDue(zone: Zone, readings: iset<int>, value: int, day: int, w: int)
    requires zone.Valid() && OnDate(zone, value, day) && forall x :: x in readings && x < w ==> x < day * DAY
    ensures DueBelow(zone, readings, value, w)
  {
    forall x | x in readings && x < w
      ensures zone.First(x) <= value
    {
      EarlierDatesAreDue(zone, value, day, x);
    }
  }

  /** Every reading from the second next date on is still to come. */
  lemma DatesAheadAreFuture(zone: Zone, value: int, day: int, w: int)
    requires zone.Valid() && OnDate(zone, value, day) && (day + 2) * DAY <= w
    ensures value < zone.First(w)
  {
    zone.FarReadingIsLater(w, value);
  }

  lemma WallTimeIsWholeMinute(day: int, minuteOfDay: int)
    ensures WallTime(day, minuteOfDay) % MINUTE == 0
  {
    assert WallTime(day, minuteOfDay) == (day * 1440 + minuteOfDay) * MINUTE;
  }
}
