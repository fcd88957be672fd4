/** Time zones as piecewise-constant offsets, with the two `fold` readings of a wall time.

    Instants and wall readings are integers in microseconds; day number d covers the wall
    readings [d * DAY, (d + 1) * DAY). */
module TimeZones {

  const MINUTE := 60_000_000
  const DAY := 86_400_000_000

  datatype Transition = Transition(at: int, offset: int)

  datatype Zone = Zone(initial: int, transitions: seq<Transition>) {

    /** The offset in force after the first `i` transitions. */
    function Offset(i: nat): int
      requires i <= |transitions|
    {
      if i == 0 then initial else transitions[i - 1].offset
    }

    /** Minute-aligned transitions that are at least two days apart and shift the wall clock by
        at most a day. */
    ghost predicate Valid() {
      && initial % MINUTE == 0
      && (forall i :: 0 <= i < |transitions| ==>
            transitions[i].at % MINUTE == 0 && transitions[i].offset % MINUTE == 0)
      && (forall i: nat {:trigger Offset(i)} :: i < |transitions| ==>
            -DAY <= transitions[i].offset - Offset(i) <= DAY)
      && (forall i, j :: 0 <= i < j < |transitions| ==> transitions[i].at + 2 * DAY <= transitions[j].at)
    }

    /** Segment `i` lasts from transition i - 1 to transition i. */
    predicate InSegment(u: int, i: nat) {
      && i <= |transitions|
      && (0 < i ==> transitions[i - 1].at <= u)
      && (i < |transitions| ==> u < transitions[i].at)
    }

    /** Where the readings of segment `i` end and those of the next begin: a gap or an overlap is
        read with the earlier offset under fold 0 and with the later one under fold 1. */
    function WallStart(i: nat, fold: bool): int
      requires i < |transitions|
    {
      var before, after := Offset(i), Offset(i + 1);
      transitions[i].at + if (before < after) == fold then before else after
    }

    predicate InWallSegment(w: int, fold: bool, i: nat) {
      && i <= |transitions|
      && (0 < i ==> WallStart(i - 1, fold) <= w)
      && (i < |transitions| ==> w < WallStart(i, fold))
    }

    // ---- Every instant and every reading lies in exactly one segment ----

    lemma {:induction false} Drift(i: nat, j: nat)
      requires Valid() && i < j <= |transitions|
      ensures 2 * DAY * (j - 1 - i) <= transitions[j - 1].at - transitions[i].at
      ensures -DAY * (j - i) <= Offset(j) - Offset(i) <= DAY * (j - i)
    {
      if i + 1 < j {
        Drift(i, j - 1);
      }
      assert -DAY <= transitions[j - 1].offset - Offset(j - 1) <= DAY;
    }

    lemma WallStartsIncrease(i: nat, j: nat, fold: bool)
      requires Valid() && i < j < |transitions|
      ensures WallStart(i, fold) < WallStart(j, fold)
    {
      Drift(i, j);
      assert -DAY <= transitions[i].offset - Offset(i) <= DAY;
      assert -DAY <= transitions[j].offset - Offset(j) <= DAY;
      if i + 1 < j {
        Drift(i + 1, j);
      }
    }

    lemma {:induction false} SegmentBelow(u: int, k: nat) returns (i: nat)
      requires k <= |transitions|
      requires k < |transitions| ==> u < transitions[k].at
      ensures InSegment(u, i)
    {
      if k == 0 || transitions[k - 1].at <= u {
        i := k;
      } else {
        i := SegmentBelow(u, k - 1);
      }
    }

    lemma {:induction false} WallSegmentBelow(w: int, fold: bool, k: nat) returns (i: nat)
      requires k <= |transitions|
      requires k < |transitions| ==> w < WallStart(k, fold)
      ensures InWallSegment(w, fold, i)
    {
      if k == 0 || WallStart(k - 1, fold) <= w {
        i := k;
      } else {
        i := WallSegmentBelow(w, fold, k - 1);
      }
    }

    lemma SegmentsPartition(u: int)
      requires Valid()
      ensures exists i: nat :: InSegment(u, i)
      ensures forall i: nat, j: nat :: InSegment(u, i) && InSegment(u, j) ==> i == j
    {
      var i := SegmentBelow(u, |transitions|);
    }

    lemma WallSegmentsAreDisjoint(w: int, fold: bool, i: nat, j: nat)
      requires Valid() && i < j && InWallSegment(w, fold, j)
      ensures !InWallSegment(w, fold, i)
    {
      if i + 1 < j { WallStartsIncrease(i, j - 1, fold); }
    }

    lemma WallSegmentsPartition(w: int, fold: bool)
      requires Valid()
      ensures exists i: nat :: InWallSegment(w, fold, i)
      ensures forall i: nat, j: nat :: InWallSegment(w, fold, i) && InWallSegment(w, fold, j) ==> i == j
    {
      var i := WallSegmentBelow(w, fold, |transitions|);
      forall i: nat, j: nat | i < j && InWallSegment(w, fold, j)
        ensures !InWallSegment(w, fold, i)
      {
        WallSegmentsAreDisjoint(w, fold, i, j);
      }
    }

    // ---- Reading the clock ----

    /** How many transitions have happened by an instant. */
    function Index(u: int): (i: nat)
      requires Valid()
      ensures InSegment(u, i)
    {
      SegmentsPartition(u);
      var i: nat :| i <= |transitions| && InSegment(u, i);
      i
    }

    /** The wall reading at an instant. */
    function Local(u: int): int
      requires Valid()
    {
      u + Offset(Index(u))
    }

    function WallIndex(w: int, fold: bool): (i: nat)
      requires Valid()
      ensures InWallSegment(w, fold, i)
    {
      WallSegmentsPartition(w, fold);
      var i: nat :| i <= |transitions| && InWallSegment(w, fold, i);
      i
    }

    /** The instant named by a wall reading and a fold. */
    function Read(w: int, fold: bool): int
      requires Valid()
    {
      w - Offset(WallIndex(w, fold))
    }

    /** A wall reading that the clock jumps over. */
    predicate InGap(w: int)
      requires Valid()
    {
      var i := WallIndex(w, false);
      i < |transitions| && transitions[i].at <= Read(w, false)
    }

    /** The instant at which a scheduled wall reading falls due: its first occurrence, or the
        transition that jumps over it. */
    function First(w: int): int
      requires Valid()
    {
      if InGap(w) then transitions[WallIndex(w, false)].at else Read(w, false)
    }

    lemma IndexIs(u: int, i: nat)
      requires Valid() && InSegment(u, i)
      ensures Index(u) == i
    {
      SegmentsPartition(u);
    }

    lemma WallIndexIs(w: int, fold: bool, i: nat)
      requires Valid() && InWallSegment(w, fold, i)
      ensures WallIndex(w, fold) == i
    {
      WallSegmentsPartition(w, fold);
    }

    lemma SegmentsDrift(u: int, i: nat, v: int, j: nat)
      requires Valid() && u <= v && InSegment(u, i) && InSegment(v, j)
      ensures u + Offset(i) <= v + Offset(j) + DAY
    {
      if i < j {
        Drift(i, j);
      }
    }

    /** The wall clock never falls behind an earlier reading by more than one day. */
    lemma ClockFallsBackAtMostADay(u: int, v: int)
      requires Valid() && u <= v
      ensures Local(u) <= Local(v) + DAY
    {
      SegmentsDrift(u, Index(u), v, Index(v));
    }

    // ---- First is the first instant at which the clock reads at least w ----

    ghost predicate IsFirst(w: int, u: int)
      requires Valid()
    {
      Local(u) >= w && forall v :: v < u ==> Local(v) < w
    }

    lemma FirstIsFirst(w: int)
      requires Valid()
      ensures IsFirst(w, First(w))
    {
      FirstReaches(w);
      forall v | v < First(w)
        ensures Local(v) < w
      {
        NothingReachesEarlier(w, v);
      }
    }

    lemma NothingReachesEarlier(w: int, v: int)
      requires Valid() && v < First(w)
      ensures Local(v) < w
    {
      var i, k := WallIndex(w, false), Index(v);
      if k < i {
        assert v < transitions[k].at <= WallStart(k, false) - Offset(k);
        if k < i - 1 { WallStartsIncrease(k, i - 1, false); }
      }
    }

    lemma FirstReaches(w: int)
      requires Valid()
      ensures Local(First(w)) >= w
      ensures !InGap(w) ==> Local(First(w)) == w
    {
      var i := WallIndex(w, false);
      if InGap(w) {
        IndexIs(transitions[i].at, i + 1);
      } else {
        assert 0 < i ==> transitions[i - 1].at + Offset(i) <= WallStart(i - 1, false);
        IndexIs(Read(w, false), i);
      }
    }

    lemma FirstIsMonotone(w: int, x: int)
      requires Valid() && w <= x
      ensures First(w) <= First(x)
    {
      FirstIsFirst(w);
      FirstIsFirst(x);
    }

    /** More than a day of wall time ahead is strictly in the future. */
    lemma FarReadingIsLater(w: int, v: int)
      requires Valid() && Local(v) + DAY < w
      ensures v < First(w)
    {
      FirstReaches(w);
      if First(w) <= v {
        ClockFallsBackAtMostADay(First(w), v);
      }
    }

    // ---- What the two fold readings see ----

    /** Fold 0 and fold 1 together find every instant that shows a wall reading. */
    lemma FoldsFindEveryInstant(w: int, u: int)
      requires Valid() && Local(u) == w
      ensures u == Read(w, false) || u == Read(w, true)
    {
      var k := Index(u);
      assert 0 < k ==> WallStart(k - 1, true) <= transitions[k - 1].at + Offset(k) <= w;
      assert k < |transitions| ==> w < transitions[k].at + Offset(k) <= WallStart(k, false);
      if k < |transitions| && WallStart(k, true) <= w {
        assert -DAY <= transitions[k].offset - Offset(k) <= DAY;
        assert 0 < k ==> -DAY <= transitions[k - 1].offset - Offset(k - 1) <= DAY;
        WallIndexIs(w, false, k);
      } else {
        WallIndexIs(w, true, k);
      }
    }

    /** Nothing shows a reading inside a gap, under any fold. */
    lemma GapHasNoInstant(w: int, u: int)
      requires Valid() && InGap(w)
      ensures Local(u) != w
    {
      var i := WallIndex(w, false);
      FirstIsFirst(w);
      assert w < WallStart(i, false) == GapEnd(w);
      if First(w) <= u && i + 1 < Index(u) {
        var v := transitions[i].at + DAY;
        IndexIs(v, i + 1);
        ClockFallsBackAtMostADay(v, u);
      }
    }

    /** The least instant showing a reading is where the reading falls due. */
    lemma LeastInstantIsFirst(w: int, u: int)
      requires Valid() && Local(u) == w
      requires forall v :: Local(v) == w ==> u <= v
      ensures !InGap(w) && u == First(w)
    {
      if InGap(w) {
        GapHasNoInstant(w, u);
      }
      FirstReaches(w);
      FirstIsFirst(w);
    }

    /** The wall reading at which the clock resumes after the gap around w. */
    function GapEnd(w: int): int
      requires Valid() && InGap(w)
    {
      var i := WallIndex(w, false);
      transitions[i].at + Offset(i + 1)
    }

    /** Probing from inside a gap: nothing before the end of the gap is a reading, and the end of
        the gap is due at the transition itself. */
    lemma ProbeGap(w: int, probe: int)
      requires Valid() && InGap(w) && w <= probe <= GapEnd(w)
      ensures InGap(probe) <==> probe < GapEnd(w)
      ensures First(probe) == First(w)
    {
      var i := WallIndex(w, false);
      if probe < GapEnd(w) {
        WallIndexIs(probe, false, i);
      } else {
        if i + 1 < |transitions| { WallStartsIncrease(i, i + 1, false); }
        WallIndexIs(probe, false, i + 1);
      }
    }

    /** A gap ends a whole number of minutes, at most a day, after any whole minute inside it. */
    lemma MinutesToGapEnd(w: int) returns (minutes: nat)
      requires Valid() && InGap(w) && w % MINUTE == 0
      ensures 1 <= minutes <= 1440 && GapEnd(w) == w + minutes * MINUTE
    {
      var i := WallIndex(w, false);
      assert w < WallStart(i, false) == GapEnd(w);
      assert transitions[i].offset - Offset(i) <= DAY;
      minutes := AlignedDifference(transitions[i].at, Offset(i + 1), w);
    }
  }

  lemma AlignedDifference(at: int, offset: int, w: int) returns (minutes: nat)
    requires at % MINUTE == 0 && offset % MINUTE == 0 && w % MINUTE == 0
    requires w < at + offset
    ensures at + offset - w == minutes * MINUTE
  {
    minutes := at / MINUTE + offset / MINUTE - w / MINUTE;
  }
}
