/** The in-container quota tracker of pkg/license/quota.go. */
module Quota {
  import opened Seqs

  const DEFAULT_MAX_BATCH: int := 10_000
  const DEFAULT_MAX_CONTAINER: int := 25_000
  const WARNING_INTERVAL: int := 3600
  const GIGABYTE: int := 1_000_000_000

  datatype QuotaState = QuotaState(
    containerRecords: int,
    bytesProcessed: int,
    maxBatchRecords: int,
    maxContainerRecords: int,
    lastWarningTime: int,
    throughputExceeded: bool)

  /** The environment's throughput signals; a number is None when unset or unparsable. */
  datatype Signals = Signals(
    flagged: bool,
    monthlyUsageGB: Option<int>,
    monthlyUsageBytes: Option<int>,
    maxContainerBytes: Option<int>)

  /** A positive environment value replaces the default but can only lower it. */
  function Limit(setting: Option<int>, ceiling: int): (limit: int)
    requires ceiling > 0
    ensures 0 < limit <= ceiling
    ensures setting.Some? && 0 < setting.value <= ceiling ==> limit == setting.value
    ensures setting.None? || !(0 < setting.value <= ceiling) ==> limit == ceiling
  {
    var wanted := if setting.Some? && setting.value > 0 then setting.value else ceiling;
    if wanted > ceiling then ceiling else wanted
  }

  /** A ceiling on throughput is breached by a flag, by reported usage, or by the bytes counted here. */
  predicate ThroughputBreached(q: QuotaState, signals: Signals, maxMonthlyGB: int) {
    maxMonthlyGB > 0 &&
    (|| q.throughputExceeded || signals.flagged
     || (signals.monthlyUsageGB.Some? && signals.monthlyUsageGB.value > maxMonthlyGB)
     || (signals.monthlyUsageBytes.Some? && signals.monthlyUsageBytes.value > maxMonthlyGB * GIGABYTE)
     || (signals.maxContainerBytes.Some? && 0 < signals.maxContainerBytes.value < q.bytesProcessed)
     || q.bytesProcessed > maxMonthlyGB * GIGABYTE)
  }

  /** Times are nanoseconds; the limiter works with whole seconds. */
  function Unix(time: int): (seconds: int)
    ensures 1_000_000_000 * seconds <= time < 1_000_000_000 * (seconds + 1)
  {
    time / 1_000_000_000
  }

  predicate Above(reported: Option<int>, ceiling: int) {
    match reported
    case Some(amount) => amount > ceiling
    case None => false
  }

  predicate WarningDue(last: int, now: int) {
    last == 0 || now - last >= WARNING_INTERVAL
  }

  /** The tracker after an uncontended rate-limited warning. */
  function Warned(q: QuotaState, now: int): QuotaState {
    if WarningDue(q.lastWarningTime, now) then q.(lastWarningTime := now) else q
  }

  class QuotaTracker {
    var containerRecords: int
    var bytesProcessed: int
    var maxBatchRecords: int
    var maxContainerRecords: int
    var lastWarningTime: int
    var throughputExceeded: bool

    function View(): QuotaState
      reads this
    {
      QuotaState(containerRecords, bytesProcessed, maxBatchRecords, maxContainerRecords, lastWarningTime,
                 throughputExceeded)
    }

    constructor (maxBatchSetting: Option<int>, maxContainerSetting: Option<int>)
      ensures View() == QuotaState(0, 0, Limit(maxBatchSetting, 10_000), Limit(maxContainerSetting, 25_000), 0, false)
      ensures 0 < maxBatchRecords <= 10_000 && 0 < maxContainerRecords <= 25_000
    {
      var batchLimit := if maxBatchSetting.Some? && maxBatchSetting.value > 0 then maxBatchSetting.value
          else DEFAULT_MAX_BATCH;
      if batchLimit > DEFAULT_MAX_BATCH {
        batchLimit := DEFAULT_MAX_BATCH;
      }
      var containerLimit := if maxContainerSetting.Some? && maxContainerSetting.value > 0
                            then maxContainerSetting.value else DEFAULT_MAX_CONTAINER;
      if containerLimit > DEFAULT_MAX_CONTAINER {
        containerLimit := DEFAULT_MAX_CONTAINER;
      }
      maxBatchRecords, maxContainerRecords := batchLimit, containerLimit;
      containerRecords, bytesProcessed, lastWarningTime, throughputExceeded := 0, 0, 0, false;
    }

    method CheckBatchDensity(batchCount: int) returns (exceeded: bool)
      ensures exceeded <==> batchCount > maxBatchRecords
    {
      exceeded := batchCount > maxBatchRecords;
    }

    method RecordAndCheckContainerQuota(batchCount: int) returns (exceeded: bool, total: int)
      modifies this`containerRecords
      ensures View() == old(View()).(containerRecords := old(containerRecords) + batchCount)
      ensures total == containerRecords && (exceeded <==> total > maxContainerRecords)
    {
      containerRecords := containerRecords + batchCount;
      total := containerRecords;
      exceeded := total > maxContainerRecords;
    }

    method RecordBytes(n: int) returns (total: int)
      modifies this`bytesProcessed
      ensures View() == old(View()).(bytesProcessed := old(bytesProcessed) + if n > 0 then n else 0)
      ensures total == bytesProcessed
    {
      if n > 0 {
        bytesProcessed := bytesProcessed + n;
      }
      total := bytesProcessed;
    }

    method CheckThroughputQuota(maxMonthlyGB: int, signals: Signals) returns (breached: bool)
      ensures breached <==> ThroughputBreached(View(), signals, maxMonthlyGB)
      ensures maxMonthlyGB <= 0 ==> !breached
      ensures maxMonthlyGB > 0 ==>
                (breached <==>
                  || throughputExceeded || signals.flagged
                  || Above(signals.monthlyUsageGB, maxMonthlyGB)
                  || Above(signals.monthlyUsageBytes, maxMonthlyGB * 1_000_000_000)
                  || bytesProcessed > maxMonthlyGB * 1_000_000_000
                  || (Above(signals.maxContainerBytes, 0) && bytesProcessed > signals.maxContainerBytes.value))
    {
      if maxMonthlyGB <= 0 {
        return false;
      }
      if throughputExceeded {
        return true;
      }
      if signals.flagged {
        return true;
      }
      if signals.monthlyUsageGB.Some? && signals.monthlyUsageGB.value > maxMonthlyGB {
        return true;
      }
      if signals.monthlyUsageBytes.Some? && signals.monthlyUsageBytes.value > maxMonthlyGB * GIGABYTE {
        return true;
      }
      var maxContainerBytes := if signals.maxContainerBytes.Some? && signals.maxContainerBytes.value > 0
                               then signals.maxContainerBytes.value else 0;
      if maxContainerBytes > 0 && bytesProcessed > maxContainerBytes {
        return true;
      }
      return bytesProcessed > maxMonthlyGB * GIGABYTE;
    }

    /** The uncontended case of the load and compare-and-swap; FairUseLimiter has the races. */
    method ShouldEmitFairUseWarningAt(time: int) returns (emit: bool)
      modifies this`lastWarningTime
      ensures View() == Warned(old(View()), Unix(time))
      ensures emit <==> old(lastWarningTime) == 0 || Unix(time) - old(lastWarningTime) >= 3600
    {
      var last, now := lastWarningTime, Unix(time);
      emit := last == 0 || now - last >= WARNING_INTERVAL;
      if emit {
        lastWarningTime := now;
      }
    }
  }
}

/** ShouldEmitFairUseWarningAt of pkg/license/quota.go under races: any number of threads take the
    atomic load and the compare-and-swap as separate steps, each with a clock of its own. */
module FairUseLimiter {
  import opened Quota

  datatype Thread = Ready | Loaded(last: int, now: int)

  /** `emitted` lists the times of the warnings, in the order in which they were emitted. */
  datatype State = State(lastWarningTime: int, threads: seq<Thread>, emitted: seq<int>)

  datatype Step = Load(thread: nat, now: int) | CompareAndSwap(thread: nat)

  function Init(threads: nat): State {
    State(0, seq(threads, _ => Ready), [])
  }

  predicate Enabled(s: State, step: Step) {
    && step.thread < |s.threads|
    && match step
       case Load(t, _) => s.threads[t].Ready?
       case CompareAndSwap(t) => s.threads[t].Loaded?
  }

  function Apply(s: State, step: Step): State
    requires Enabled(s, step)
  {
    match step
    case Load(t, now) => s.(threads := s.threads[t := Loaded(s.lastWarningTime, now)])
    case CompareAndSwap(t) =>
      var seen := s.threads[t];
      var idle := s.(threads := s.threads[t := Ready]);
      if WarningDue(seen.last, seen.now) && s.lastWarningTime == seen.last
      then idle.(lastWarningTime := seen.now, emitted := s.emitted + [seen.now])
      else idle
  }

  predicate IsRun(s: State, steps: seq<Step>)
    decreases |steps|
  {
    steps == [] || (Enabled(s, steps[0]) && IsRun(Apply(s, steps[0]), steps[1..]))
  }

  function Exec(s: State, steps: seq<Step>): State
    requires IsRun(s, steps)
    decreases |steps|
  {
    if steps == [] then s else Exec(Apply(s, steps[0]), steps[1..])
  }

  predicate ClocksNonzero(steps: seq<Step>) {
    forall i :: 0 <= i < |steps| && steps[i].Load? ==> steps[i].now != 0
  }

  predicate Inv(s: State) {
    && s.lastWarningTime == (if s.emitted == [] then 0 else s.emitted[|s.emitted| - 1])
    && (forall i :: 0 <= i < |s.emitted| ==> s.emitted[i] != 0)
    && (forall i :: 0 <= i < |s.emitted| - 1 ==> s.emitted[i + 1] - s.emitted[i] >= WARNING_INTERVAL)
    && (forall t :: 0 <= t < |s.threads| && s.threads[t].Loaded? ==> s.threads[t].now != 0)
  }

  lemma {:induction false} RunKeepsInv(s: State, steps: seq<Step>)
    requires Inv(s) && IsRun(s, steps) && ClocksNonzero(steps)
    ensures Inv(Exec(s, steps))
    decreases |steps|
  {
    if steps != [] {
      assert Inv(Apply(s, steps[0]));
      RunKeepsInv(Apply(s, steps[0]), steps[1..]);
    }
  }

  lemma {:induction false} GapsAddUp(times: seq<int>, i: nat, j: nat)
    requires i <= j < |times|
    requires forall k :: 0 <= k < |times| - 1 ==> times[k + 1] - times[k] >= WARNING_INTERVAL
    ensures times[j] - times[i] >= WARNING_INTERVAL * (j - i)
    decreases j - i
  {
    if i < j {
      GapsAddUp(times, i, j - 1);
    }
  }

  /** In every interleaving, warnings i and j carry times at least 3600 (j - i) seconds apart: any
      stretch of d seconds holds at most d / 3600 + 1 of them.  Clocks may disagree and run
      backwards; they must only not read exactly 0, the value that stands for "never". */
  lemma WarningsAreSpaced(threads: nat, steps: seq<Step>, i: nat, j: nat)
    requires IsRun(Init(threads), steps) && ClocksNonzero(steps)
    requires i <= j < |Exec(Init(threads), steps).emitted|
    ensures
      var emitted := Exec(Init(threads), steps).emitted;
      && emitted[j] - emitted[i] >= 3600 * (j - i)
      && j - i + 1 <= (emitted[j] - emitted[i]) / 3600 + 1
  {
    RunKeepsInv(Init(threads), steps);
    GapsAddUp(Exec(Init(threads), steps).emitted, i, j);
  }

  /** A clock reading 0 does break the limit: one thread warns twice at once. */
  lemma ZeroClockRepeats(threads: nat)
    requires threads >= 1
    ensures
      var steps := [Load(0, 0), CompareAndSwap(0), Load(0, 0), CompareAndSwap(0)];
      IsRun(Init(threads), steps) && Exec(Init(threads), steps).emitted == [0, 0]
  {
    var s0 := Init(threads);
    var s1 := Apply(s0, Load(0, 0));
    var s2 := Apply(s1, CompareAndSwap(0));
    var s3 := Apply(s2, Load(0, 0));
    var s4 := Apply(s3, CompareAndSwap(0));
    var steps := [Load(0, 0), CompareAndSwap(0), Load(0, 0), CompareAndSwap(0)];
    assert steps[1..] == [CompareAndSwap(0), Load(0, 0), CompareAndSwap(0)];
    assert steps[1..][1..] == [Load(0, 0), CompareAndSwap(0)];
    assert steps[1..][1..][1..] == [CompareAndSwap(0)];
    assert IsRun(s3, [CompareAndSwap(0)]) && Exec(s3, [CompareAndSwap(0)]) == s4;
    assert IsRun(s2, [Load(0, 0), CompareAndSwap(0)]) && Exec(s2, [Load(0, 0), CompareAndSwap(0)]) == s4;
    assert IsRun(s1, steps[1..]) && Exec(s1, steps[1..]) == s4;
  }

  /** Every clock reading in these steps is one the callers' clocks can give. */
  predicate ReadFrom(allowed: int -> bool, steps: seq<Step>) {
    forall i :: 0 <= i < |steps| && steps[i].Load? ==> allowed(steps[i].now)
  }

  predicate SpacedOut(times: seq<int>) {
    forall i :: 0 <= i < |times| - 1 ==> times[i + 1] - times[i] >= 3600
  }

  /** The limiter holds for all interleavings of all readings the clocks can give exactly if no clock
      can read 0. */
  lemma LimiterHoldsExactly(threads: nat, allowed: int -> bool)
    requires threads >= 1
    ensures
      (forall steps :: IsRun(Init(threads), steps) && ReadFrom(allowed, steps) ==>
          SpacedOut(Exec(Init(threads), steps).emitted))
        <==> !allowed(0)
  {
    if allowed(0) {
      ZeroClockRepeats(threads);
      var steps := [Load(0, 0), CompareAndSwap(0), Load(0, 0), CompareAndSwap(0)];
      assert ReadFrom(allowed, steps);
      var emitted := Exec(Init(threads), steps).emitted;
      assert emitted[1] - emitted[0] < WARNING_INTERVAL;
    } else {
      forall steps | IsRun(Init(threads), steps) && ReadFrom(allowed, steps)
        ensures SpacedOut(Exec(Init(threads), steps).emitted)
      {
        RunKeepsInv(Init(threads), steps);
      }
    }
  }

  /** Undisturbed, a thread's two steps do what the tracker's method promises. */
  lemma UndisturbedIsWarned(s: State, t: nat, now: int, q: QuotaState)
    requires t < |s.threads| && s.threads[t].Ready? && q.lastWarningTime == s.lastWarningTime
    ensures IsRun(s, [Load(t, now), CompareAndSwap(t)])
    ensures
      var after := Exec(s, [Load(t, now), CompareAndSwap(t)]);
      && after.lastWarningTime == Warned(q, now).lastWarningTime
      && after.emitted == (if WarningDue(q.lastWarningTime, now) then s.emitted + [now] else s.emitted)
  {
    var loaded := Apply(s, Load(t, now));
    assert [Load(t, now), CompareAndSwap(t)][1..] == [CompareAndSwap(t)];
    assert IsRun(loaded, [CompareAndSwap(t)]) && Exec(loaded, [CompareAndSwap(t)]) == Apply(loaded, CompareAndSwap(t));
  }
}
