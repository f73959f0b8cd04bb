/**
 * The fixed table of fifteen hourly intervals of the hourly productivity summary
 * (main.py:1-15) and how a time of day is tested against it (main.py:24-25).
 *
 * A time of day is a number of seconds since midnight. Every interval is closed at
 * BOTH ends, so the table leaves one-minute gaps between consecutive intervals
 * (for example 07:00:01 .. 07:00:59 belongs to no interval).
 */
module TimeBins {

  /** A time of day with one-second resolution, as produced by parsing "%H:%M:%S". */
  type Seconds = t: int | 0 <= t < 86400

  /** The time of day h:m:s, in seconds. */
  function Clock(h: nat, m: nat, s: nat): int
  {
    h * 3600 + m * 60 + s
  }

  /** The number of intervals. */
  const IntervalCount: nat := 15

  /** Display labels, one per interval, in table order (main.py:2-7). */
  const TimeBinLabels: seq<string> := [
    "06:00-07:00 AM", "07:01-08:00 AM", "08:01-09:00 AM", "09:01-10:00 AM",
    "10:01-11:00 AM", "11:01-12:00 PM", "12:01-01:00 PM", "01:01-02:00 PM",
    "02:01-03:00 PM", "03:01-04:00 PM", "04:01-05:00 PM", "05:01-06:00 PM",
    "06:01-07:00 PM", "07:01-08:00 PM", "08:01-09:00 PM"
  ]

  /** (start, end) of every interval, in table order (main.py:9-15). */
  const Intervals: seq<(int, int)> := [
    (Clock(6, 0, 0), Clock(7, 0, 0)), (Clock(7, 1, 0), Clock(8, 0, 0)), (Clock(8, 1, 0), Clock(9, 0, 0)),
    (Clock(9, 1, 0), Clock(10, 0, 0)), (Clock(10, 1, 0), Clock(11, 0, 0)), (Clock(11, 1, 0), Clock(12, 0, 0)),
    (Clock(12, 1, 0), Clock(13, 0, 0)), (Clock(13, 1, 0), Clock(14, 0, 0)), (Clock(14, 1, 0), Clock(15, 0, 0)),
    (Clock(15, 1, 0), Clock(16, 0, 0)), (Clock(16, 1, 0), Clock(17, 0, 0)), (Clock(17, 1, 0), Clock(18, 0, 0)),
    (Clock(18, 1, 0), Clock(19, 0, 0)), (Clock(19, 1, 0), Clock(20, 0, 0)), (Clock(20, 1, 0), Clock(21, 0, 0))
  ]

  /** Start of interval i in closed form: 06:00:00 for the first, (6+i):01:00 for the others. */
  function IntervalStart(i: nat): int
  {
    if i == 0 then Clock(6, 0, 0) else Clock(6, 1, 0) + 3600 * i
  }

  /** End of interval i in closed form: (7+i):00:00. */
  function IntervalEnd(i: nat): int
  {
    Clock(7, 0, 0) + 3600 * i
  }

  /** The closed form is the table: entry i of main.py:9-15 is (IntervalStart(i), IntervalEnd(i)). */
  lemma IntervalTable(i: nat)
    requires i < IntervalCount
    ensures |Intervals| == |TimeBinLabels| == IntervalCount
    ensures Intervals[i] == (IntervalStart(i), IntervalEnd(i))
  {
    assert Intervals == [
      (IntervalStart(0), IntervalEnd(0)), (IntervalStart(1), IntervalEnd(1)), (IntervalStart(2), IntervalEnd(2)),
      (IntervalStart(3), IntervalEnd(3)), (IntervalStart(4), IntervalEnd(4)), (IntervalStart(5), IntervalEnd(5)),
      (IntervalStart(6), IntervalEnd(6)), (IntervalStart(7), IntervalEnd(7)), (IntervalStart(8), IntervalEnd(8)),
      (IntervalStart(9), IntervalEnd(9)), (IntervalStart(10), IntervalEnd(10)), (IntervalStart(11), IntervalEnd(11)),
      (IntervalStart(12), IntervalEnd(12)), (IntervalStart(13), IntervalEnd(13)), (IntervalStart(14), IntervalEnd(14))
    ];
  }

  /** The time mask of interval i: start <= t and t <= end, both inclusive. */
  predicate InInterval(t: int, i: nat)
    requires i < IntervalCount
  {
    IntervalStart(i) <= t <= IntervalEnd(i)
  }

  /** t lies in at least one interval. */
  predicate Covered(t: int)
  {
    exists i :: 0 <= i < IntervalCount && InInterval(t, i)
  }

  /** The intervals that contain t. */
  function IntervalsOf(t: int): set<nat>
  {
    set i: nat | i < IntervalCount && InInterval(t, i)
  }

  /** No time is in two intervals. */
  lemma IntervalsDisjoint(t: int, i: nat, j: nat)
    requires i < IntervalCount && j < IntervalCount
    requires InInterval(t, i) && InInterval(t, j)
    ensures i == j
  {
  }

  /** Every time lies in at most one interval. */
  lemma AtMostOneInterval(t: int)
    ensures |IntervalsOf(t)| <= 1
  {
    var s := IntervalsOf(t);
    if s != {} {
      var i :| i in s;
      forall j | j in s ensures j == i {
        IntervalsDisjoint(t, i, j);
      }
      assert s == {i};
    }
  }

  /**
   * Exactly the times from 06:00:00 to 21:00:00, except those strictly between an
   * HH:00:00 end and the next HH:01:00 start, are counted in some interval.
   */
  lemma CoveredIff(t: int)
    ensures Covered(t) <==>
              Clock(6, 0, 0) <= t <= Clock(21, 0, 0)
              && !(Clock(7, 0, 0) < t && 0 < t % 3600 < 60)
  {
    if Covered(t) {
      var i :| 0 <= i < IntervalCount && InInterval(t, i);
      if i > 0 {
        var d := t - 3600 * (6 + i);
        assert 60 <= d <= 3600;
        if d == 3600 {
          assert t == 3600 * (7 + i);
        } else {
          assert t % 3600 == d;
        }
      }
    }
    if Clock(6, 0, 0) <= t <= Clock(21, 0, 0) && !(Clock(7, 0, 0) < t && 0 < t % 3600 < 60) {
      var h, r := t / 3600, t % 3600;
      assert t == 3600 * h + r;
      var i: nat := if t <= Clock(7, 0, 0) then 0 else if r == 0 then h - 7 else h - 6;
      assert i < IntervalCount && InInterval(t, i);
    }
  }

  /** 09:00:00 belongs to "08:01-09:00 AM" only. */
  lemma NineOClockBoundary()
    ensures IntervalsOf(Clock(9, 0, 0)) == {2}
    ensures TimeBinLabels[2] == "08:01-09:00 AM"
  {
    var t := Clock(9, 0, 0);
    assert InInterval(t, 2);
    forall j | j in IntervalsOf(t) ensures j == 2 {
      IntervalsDisjoint(t, 2, j);
    }
  }

  /** 09:01:00 belongs to "09:01-10:00 AM" only. */
  lemma NineOhOneBoundary()
    ensures IntervalsOf(Clock(9, 1, 0)) == {3}
    ensures TimeBinLabels[3] == "09:01-10:00 AM"
  {
    var t := Clock(9, 1, 0);
    assert InInterval(t, 3);
    forall j | j in IntervalsOf(t) ensures j == 3 {
      IntervalsDisjoint(t, 3, j);
    }
  }

  /** 07:00:30 falls in the gap after "06:00-07:00 AM", before 06:00:00 and after 21:00:00 nothing is covered. */
  lemma UncoveredTimes(t: int)
    requires t == Clock(7, 0, 30) || t < Clock(6, 0, 0) || t > Clock(21, 0, 0)
    ensures !Covered(t) && IntervalsOf(t) == {}
  {
    CoveredIff(t);
  }
}
