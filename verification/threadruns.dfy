/**
 * The solver's per-block statistics object: the counters of a block
 * merged over all threads, each thread's own elapsed time, a sorted copy
 * of those times from which the maximum is read, and the number of
 * merges (the block's parallelism).
 */
module ThreadRuns {
  import opened Common
  import opened Stats
  import DR = DataReuse

  /** The observable state of a per-block statistics object. */
  datatype Run = Run(base: BBLStats, threadTimes: seq<int>, parallelism: nat)

  /** The per-thread times after thread tid reports e: grown with zeros to cover tid, slot tid overwritten. */
  function SetThreadTime(times: seq<int>, tid: nat, e: int): (r: seq<int>)
    ensures |r| == if |times| <= tid then tid + 1 else |times|
    ensures r[tid] == e
    ensures forall k | 0 <= k < |r| && k != tid :: r[k] == if k < |times| then times[k] else 0
  {
    DR.Grow(times, tid + 1)[tid := e]
  }

  /** Thread 1 reporting into the times of one or two threads. */
  lemma SecondThreadTime(a: int, b: int, e: int)
    ensures SetThreadTime([a], 1, e) == [a, e]
    ensures SetThreadTime([a, b], 1, e) == [a, e]
  {
    assert DR.Grow([a], 2) == [a] + DR.Zeros(1);
    assert DR.Zeros(1) == [0];
    assert DR.Grow([a, b], 2) == [a, b];
  }

  /** The state of a block first reported by thread tid. */
  function NewRun(tid: nat, s: BBLStats): (r: Run)
    ensures |r.threadTimes| == tid + 1 && r.threadTimes[tid] == s.elapsedTime
    ensures forall k | 0 <= k < tid :: r.threadTimes[k] == 0
  {
    Run(s, SetThreadTime([], tid, s.elapsedTime), 0)
  }

  /** The state after thread tid reports the block again. */
  function MergeRun(r: Run, tid: nat, s: BBLStats): Run
  {
    Run(MergeStats(r.base, s), SetThreadTime(r.threadTimes, tid, s.elapsedTime), r.parallelism + 1)
  }

  /** The largest element. */
  function MaxOf(s: seq<int>): (m: int)
    requires s != []
    ensures m in s && forall x | x in s :: x <= m
  {
    if |s| == 1 then s[0]
    else
      var m := MaxOf(s[1..]);
      assert forall x | x in s :: x == s[0] || x in s[1..];
      if s[0] >= m then s[0] else m
  }

  /** Two sequences with the same elements have the same maximum. */
  lemma MaxOfPermutation(a: seq<int>, b: seq<int>)
    requires a != [] && multiset(a) == multiset(b)
    ensures b != [] && MaxOf(a) == MaxOf(b)
  {
    assert MaxOf(a) in multiset(b);
    assert |b| == |multiset(b)| == |multiset(a)| == |a|;
    assert MaxOf(b) in multiset(a);
    assert MaxOf(a) in b && MaxOf(b) in a;
  }

  predicate Ascending(s: seq<int>)
  {
    forall i, j | 0 <= i < j < |s| :: s[i] <= s[j]
  }

  /** The last element of an ascending sequence is its maximum. */
  lemma LastIsMax(s: seq<int>)
    requires s != [] && Ascending(s)
    ensures s[|s| - 1] == MaxOf(s)
  {
    var m := MaxOf(s);
    var k :| 0 <= k < |s| && s[k] == m;
    assert s[|s| - 1] in s;
  }

  /** Every element of an ascending sequence's tail is at least its head. */
  lemma HeadIsLeast(s: seq<int>, y: int)
    requires s != [] && Ascending(s) && y in multiset(s[1..])
    ensures s[0] <= y
  {
    var k :| 0 <= k < |s[1..]| && s[1..][k] == y;
    assert s[k + 1] == y;
  }

  /** A head no larger than anything in an ascending tail keeps it ascending. */
  lemma ConsAscending(h: int, t: seq<int>)
    requires Ascending(t) && forall y | y in multiset(t) :: h <= y
    ensures Ascending([h] + t)
  {
    forall i, j | 0 <= i < j < |t| + 1 ensures ([h] + t)[i] <= ([h] + t)[j] {
      if i == 0 {
        assert t[j - 1] in multiset(t);
      }
    }
  }

  /** Putting x after the head of s keeps the head the least element. */
  lemma HeadStaysLeast(s: seq<int>, x: int, rest: seq<int>)
    requires s != [] && Ascending(s) && s[0] <= x && multiset(rest) == multiset(s[1..]) + multiset{x}
    ensures forall y | y in multiset(rest) :: s[0] <= y
  {
    forall y | y in multiset(rest) ensures s[0] <= y {
      if y != x {
        HeadIsLeast(s, y);
      }
    }
  }

  /** Nothing in an ascending sequence is below a bound on its head. */
  lemma BelowHead(s: seq<int>, x: int)
    requires Ascending(s) && (s == [] || x <= s[0])
    ensures forall y | y in multiset(s) :: x <= y
  {
    forall y | y in multiset(s) ensures x <= y {
      var k :| 0 <= k < |s| && s[k] == y;
    }
  }

  function InsertAscending(s: seq<int>, x: int): (r: seq<int>)
    requires Ascending(s)
    ensures Ascending(r) && multiset(r) == multiset(s) + multiset{x}
  {
    if s == [] || x <= s[0] then
      BelowHead(s, x);
      ConsAscending(x, s);
      [x] + s
    else
      var rest := InsertAscending(s[1..], x);
      assert s == [s[0]] + s[1..];
      HeadStaysLeast(s, x, rest);
      ConsAscending(s[0], rest);
      [s[0]] + rest
  }

  /** `std::sort` of a vector of times. */
  function SortAscending(s: seq<int>): (r: seq<int>)
    ensures Ascending(r) && multiset(r) == multiset(s)
  {
    if s == [] then []
    else
      assert s == [s[0]] + s[1..];
      InsertAscending(SortAscending(s[1..]), s[0])
  }

  class ThreadBBLStats {
    /** The merged counters (the `BBLStats` base object). */
    var base: BBLStats
    var threadElapsedTime: seq<int>
    var sortedElapsedTime: seq<int>
    var parallelism: nat

    /** Both time vectors cover the same threads. */
    ghost predicate Sized()
      reads this
    {
      threadElapsedTime != [] && |sortedElapsedTime| == |threadElapsedTime|
    }

    /** The sorted copy holds exactly the per-thread times. */
    ghost predicate Valid()
      reads this
    {
      Sized() && multiset(sortedElapsedTime) == multiset(threadElapsedTime)
    }

    function Snapshot(): Run
      reads this
    {
      Run(base, threadElapsedTime, parallelism)
    }

    /**
     * `ThreadBBLStats(tid, bblstats)`: the counters of the first report,
     * both time vectors sized tid + 1 and zero except the reporting
     * thread's time, parallelism 0.
     */
    constructor (tid: nat, stats: BBLStats)
      ensures Valid() && Snapshot() == NewRun(tid, stats) && sortedElapsedTime == threadElapsedTime
    {
      base := stats;
      threadElapsedTime := DR.Zeros(tid + 1)[tid := stats.elapsedTime];
      sortedElapsedTime := DR.Zeros(tid + 1)[tid := stats.elapsedTime];
      parallelism := 0;
    }

    /**
     * `MergeStats` as written: both vectors grow to cover tid, the
     * counters are added, thread tid's time is overwritten in both
     * vectors, and parallelism grows by one. After a sort, slot tid of
     * the sorted copy no longer belongs to thread tid.
     */
    method MergeStatsAsWritten(tid: nat, rhs: BBLStats)
      requires Sized()
      modifies this
      ensures Sized() && Snapshot() == MergeRun(old(Snapshot()), tid, rhs)
      ensures sortedElapsedTime == SetThreadTime(old(sortedElapsedTime), tid, rhs.elapsedTime)
    {
      if tid >= |threadElapsedTime| {
        threadElapsedTime := DR.Grow(threadElapsedTime, tid + 1);
        sortedElapsedTime := DR.Grow(sortedElapsedTime, tid + 1);
      }
      base := Stats.MergeStats(base, rhs);
      threadElapsedTime := threadElapsedTime[tid := rhs.elapsedTime];
      sortedElapsedTime := sortedElapsedTime[tid := rhs.elapsedTime];
      parallelism := parallelism + 1;
    }

    /**
     * `MergeStats`, corrected: as written, except that the sorted copy is
     * refreshed from the per-thread times, so it keeps holding exactly
     * them.
     */
    method MergeStats(tid: nat, rhs: BBLStats)
      requires Sized()
      modifies this
      ensures Valid() && Snapshot() == MergeRun(old(Snapshot()), tid, rhs)
      ensures sortedElapsedTime == threadElapsedTime
    {
      if tid >= |threadElapsedTime| {
        threadElapsedTime := DR.Grow(threadElapsedTime, tid + 1);
      }
      base := Stats.MergeStats(base, rhs);
      threadElapsedTime := threadElapsedTime[tid := rhs.elapsedTime];
      sortedElapsedTime := threadElapsedTime;
      parallelism := parallelism + 1;
    }

    /** The block id is overwritten; the times and the parallelism stay. */
    method SetBblid(id: int)
      modifies this
      ensures Snapshot() == old(Snapshot()).(base := old(base).(bblid := id))
      ensures sortedElapsedTime == old(sortedElapsedTime)
    {
      base := base.(bblid := id);
    }

    /** `SortElapsedTime`: the sorted copy is sorted in place. */
    method SortElapsedTime()
      modifies this
      ensures Ascending(sortedElapsedTime) && multiset(sortedElapsedTime) == multiset(old(sortedElapsedTime))
      ensures Snapshot() == old(Snapshot())
    {
      sortedElapsedTime := SortAscending(sortedElapsedTime);
    }

    /**
     * `MaxElapsedTime`: the cached-result flag is never cleared, so the
     * copy is always sorted and its last element becomes the block's
     * elapsed time. While the copy holds the per-thread times this is the
     * slowest thread's time.
     */
    method MaxElapsedTime() returns (r: int)
      requires Sized()
      modifies this
      ensures Sized() && r == MaxOf(old(sortedElapsedTime)) && base == old(base).(elapsedTime := r)
      ensures Ascending(sortedElapsedTime) && multiset(sortedElapsedTime) == multiset(old(sortedElapsedTime))
      ensures threadElapsedTime == old(threadElapsedTime) && parallelism == old(parallelism)
      ensures old(Valid()) ==> Valid() && r == MaxOf(threadElapsedTime)
    {
      ghost var before := sortedElapsedTime;
      SortElapsedTime();
      assert |sortedElapsedTime| == |multiset(before)| == |before|;
      LastIsMax(sortedElapsedTime);
      MaxOfPermutation(before, sortedElapsedTime);
      base := base.(elapsedTime := sortedElapsedTime[|threadElapsedTime| - 1]);
      r := base.elapsedTime;
      if multiset(before) == multiset(threadElapsedTime) {
        MaxOfPermutation(threadElapsedTime, before);
      }
    }
  }

  /** The only ascending arrangement of 5 and 1. */
  lemma SortedPair(s: seq<int>)
    requires Ascending(s) && multiset(s) == multiset([5, 1])
    ensures s == [1, 5]
  {
    assert |s| == |multiset(s)| == 2;
    assert s == [s[0], s[1]];
    assert multiset(s)[1] == 1 && multiset(s)[5] == 1;
  }

  lemma MaxOfPair(a: int, b: int)
    ensures MaxOf([a, b]) == if a >= b then a else b
  {
    assert [a, b][1..] == [b];
  }

  /**
   * As written, a report that arrives after the maximum was read writes
   * into a slot the sort has moved: time 5 (thread 0) and 1 (thread 1),
   * then a read of the maximum, which sorts the copy to [1, 5], then 2
   * from thread 1, which overwrites slot 1. The per-thread times are
   * [5, 2], whose maximum is 5, yet the maximum read is 2.
   */
  method SecondReportAsWritten() returns (r: int, times: seq<int>)
    ensures times == [5, 2] && MaxOf(times) == 5 && r == 2
  {
    var h := UUID(1, 1);
    var s := new ThreadBBLStats(0, NewBBLStats(1, h).(elapsedTime := 5));
    assert s.sortedElapsedTime == [5] && s.threadElapsedTime == [5];
    SecondThreadTime(5, 0, 1);
    s.MergeStatsAsWritten(1, NewBBLStats(1, h).(elapsedTime := 1));
    var first := s.MaxElapsedTime();
    SortedPair(s.sortedElapsedTime);
    SecondThreadTime(1, 5, 2);
    SecondThreadTime(5, 1, 2);
    s.MergeStatsAsWritten(1, NewBBLStats(1, h).(elapsedTime := 2));
    r := s.MaxElapsedTime();
    MaxOfPair(1, 2);
    MaxOfPair(5, 2);
    times := s.threadElapsedTime;
  }

  /** With the corrected merge the same reports give the slowest thread's time. */
  method SecondReport() returns (r: int, times: seq<int>)
    ensures times == [5, 2] && r == MaxOf(times) == 5
  {
    var h := UUID(1, 1);
    var s := new ThreadBBLStats(0, NewBBLStats(1, h).(elapsedTime := 5));
    assert s.threadElapsedTime == [5];
    SecondThreadTime(5, 0, 1);
    s.MergeStats(1, NewBBLStats(1, h).(elapsedTime := 1));
    var first := s.MaxElapsedTime();
    SecondThreadTime(5, 1, 2);
    s.MergeStats(1, NewBBLStats(1, h).(elapsedTime := 2));
    r := s.MaxElapsedTime();
    MaxOfPair(5, 2);
    times := s.threadElapsedTime;
  }
}
