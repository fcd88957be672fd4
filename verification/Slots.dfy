/** Coalescing of missed schedule slots, over any set of slot instants.

    A schedule is seen here only through the set of instants at which it is due.  Both
    cursor-advancing operations of the program are specified by `Advanced`: the count of due
    slots and the least slot after now. */
module Slots {

  datatype Advance = Due(represented: nat, cursor: int) | NotDue | BacklogTooLarge

  ghost predicate IsSlot(slots: iset<int>, x: int) {
    x in slots
  }

  /** The least slot strictly after an instant. */
  ghost predicate IsNext(slots: iset<int>, value: int, next: int) {
    && next in slots
    && value < next
    && forall x :: x in slots && value < x ==> next <= x
  }

  /** The slots in the half-open window (lo, hi]. */
  ghost function Window(slots: iset<int>, lo: int, hi: int): set<int> {
    set x: int | lo < x <= hi && IsSlot(slots, x)
  }

  /** The coalesced result: the cursor itself counts once, every slot in (due, now] counts once,
      and the new cursor is the least slot after now. */
  ghost predicate Advanced(slots: iset<int>, due: int, now: int, represented: int, cursor: int) {
    && represented == 1 + |Window(slots, due, now)|
    && IsNext(slots, now, cursor)
  }

  /** What a cursor-advancing operation with a backlog cap must answer. */
  ghost predicate Answers(slots: iset<int>, cap: nat, due: int, now: int, answer: Advance) {
    if now < due then answer == NotDue
    else if 1 + |Window(slots, due, now)| > cap then answer == BacklogTooLarge
    else answer.Due? && Advanced(slots, due, now, answer.represented, answer.cursor)
  }

  lemma WindowStep(slots: iset<int>, value: int, next: int, hi: int)
    requires IsNext(slots, value, next)
    ensures next <= hi ==> |Window(slots, value, hi)| == 1 + |Window(slots, next, hi)|
    ensures hi < next ==> Window(slots, value, hi) == {}
  {
    if next <= hi {
      assert Window(slots, value, hi) == {next} + Window(slots, next, hi);
    } else {
      assert forall x :: x in Window(slots, value, hi) ==> false;
    }
  }

  lemma NextIsUnique(slots: iset<int>, value: int, a: int, b: int)
    requires IsNext(slots, value, a) && IsNext(slots, value, b)
    ensures a == b
  {
  }

  /** Splitting a downtime at any intermediate tick changes neither the number of slots
      represented nor the final cursor. */
  lemma PathIndependence(slots: iset<int>, due: int, mid: int, now: int, n: int, c: int, n1: int, c1: int)
    requires due <= mid <= now
    requires Advanced(slots, due, now, n, c)
    requires Advanced(slots, due, mid, n1, c1)
    ensures now < c1 ==> n == n1 && c == c1
    ensures forall n2, c2 :: c1 <= now && Advanced(slots, c1, now, n2, c2) ==> n == n1 + n2 && c == c2
  {
    WindowStep(slots, mid, c1, now);
    var early, late := Window(slots, due, mid), Window(slots, mid, now);
    assert Window(slots, due, now) == early + late;
    assert early !! late;
    if now < c1 {
      NextIsUnique(slots, now, c, c1);
    }
  }

  /** The same law for the capped operation: whenever the uncut advance is accepted, both halves
      are accepted and add up to it. */
  lemma SplitAdvance(slots: iset<int>, cap: nat, due: int, mid: int, now: int,
                     whole: Advance, first: Advance, second: Advance)
    requires due <= mid <= now
    requires Answers(slots, cap, due, now, whole) && whole.Due?
    requires Answers(slots, cap, due, mid, first)
    requires first.Due? ==> Answers(slots, cap, first.cursor, now, second)
    ensures first.Due?
    ensures second.NotDue? ==> whole == first
    ensures second.Due? ==> whole == Due(first.represented + second.represented, second.cursor)
    ensures !second.BacklogTooLarge?
  {
    var early, late := Window(slots, due, mid), Window(slots, mid, now);
    assert Window(slots, due, now) == early + late;
    assert early !! late;
    assert first.Due?;
    PathIndependence(slots, due, mid, now, whole.represented, whole.cursor, first.represented, first.cursor);
    WindowStep(slots, mid, first.cursor, now);
  }
}
