/** The batch handler's goroutines (cmd/lambda/main.go) as a step system: one goroutine per
    message, a semaphore around its work, a mutex around its merge.  A merge reads the shared
    results and writes them back in two steps, so without the mutex an append could be lost. */
module MergeRuns {
  import opened Seqs
  import opened BatchMerge

  datatype Worker<E> =
    | Unspawned | Waiting | Running | Ready | Locked | Loaded(seen: Shared<E>) | Stored | Leaving | Gone

  /** `merged` records the messages in the order in which they were merged or skipped. */
  datatype State<E> = State(
    next: nat,
    workers: seq<Worker<E>>,
    permits: int,
    mutex: Option<nat>,
    shared: Shared<E>,
    merged: seq<nat>,
    joined: bool)

  datatype Step =
    | Spawn | Acquire(i: nat) | Skip(i: nat) | Process(i: nat) | Lock(i: nat) | Load(i: nat) | Store(i: nat)
    | Unlock(i: nat) | Release(i: nat) | Join

  function Init<E>(c: Config<E>): State<E> {
    State(0, seq(|c.messages|, _ => Unspawned), 0, None, Shared([], [], {}, {}, []), [], false)
  }

  predicate AllGone<E>(s: State<E>) {
    forall i :: 0 <= i < |s.workers| ==> s.workers[i].Gone?
  }

  predicate Enabled<E>(c: Config<E>, s: State<E>, step: Step) {
    && |s.workers| == |c.messages|
    && match step
       case Spawn => s.next < |s.workers|
       case Acquire(i) => i < |s.workers| && s.workers[i].Waiting? && s.permits < c.maxConcurrent
       case Skip(i) => i < |s.workers| && s.workers[i].Running? && c.messages[i].body.None?
       case Process(i) => i < |s.workers| && s.workers[i].Running? && c.messages[i].body.Some?
       case Lock(i) => i < |s.workers| && s.workers[i].Ready? && s.mutex.None?
       case Load(i) => i < |s.workers| && s.workers[i].Locked?
       case Store(i) => i < |s.workers| && s.workers[i].Loaded?
       case Unlock(i) => i < |s.workers| && s.workers[i].Stored?
       case Release(i) => i < |s.workers| && s.workers[i].Leaving?
       case Join => s.next >= |s.workers| && AllGone(s) && !s.joined
  }

  function Apply<E>(c: Config<E>, s: State<E>, step: Step): (t: State<E>)
    requires Enabled(c, s, step)
  {
    match step
    case Spawn => s.(next := s.next + 1, workers := s.workers[s.next := Waiting])
    case Acquire(i) => s.(permits := s.permits + 1, workers := s.workers[i := Running])
    case Skip(i) => s.(workers := s.workers[i := Leaving], merged := s.merged + [i])
    case Process(i) => s.(workers := s.workers[i := Ready])
    case Lock(i) => s.(mutex := Some(i), workers := s.workers[i := Locked])
    case Load(i) => s.(workers := s.workers[i := Loaded(s.shared)])
    case Store(i) =>
      s.(shared := Append(s.workers[i].seen, Share(c, i)), workers := s.workers[i := Stored], merged := s.merged + [i])
    case Unlock(i) => s.(mutex := None, workers := s.workers[i := Leaving])
    case Release(i) => s.(permits := s.permits - 1, workers := s.workers[i := Gone])
    case Join => s.(joined := true)
  }

  // ---------------------------------------------------------------- invariant

  predicate Critical<E>(w: Worker<E>) {
    w.Locked? || w.Loaded? || w.Stored?
  }

  predicate HasMerged<E>(w: Worker<E>) {
    w.Stored? || w.Leaving? || w.Gone?
  }

  function Hold<E>(w: Worker<E>): int {
    if w.Unspawned? || w.Waiting? || w.Gone? then 0 else 1
  }

  function Holds<E>(ws: seq<Worker<E>>): seq<int> {
    seq(|ws|, i requires 0 <= i < |ws| => Hold(ws[i]))
  }

  /** Only the holder of the mutex is in the critical section, and what it read is still true. */
  ghost predicate WorkerInv<E>(s: State<E>, i: nat, w: Worker<E>) {
    && (w.Unspawned? <==> i >= s.next)
    && (Critical(w) <==> s.mutex == Some(i))
    && (w.Loaded? ==> w.seen == s.shared)
    && (HasMerged(w) <==> i in s.merged)
  }

  ghost predicate WorkersFit<E>(s: State<E>) {
    forall i :: 0 <= i < |s.workers| ==> WorkerInv(s, i, s.workers[i])
  }

  ghost predicate MergedFits<E>(c: Config<E>, s: State<E>) {
    && Distinct(s.merged) && (forall i :: i in s.merged ==> i < |c.messages|)
    && s.shared == Gathered(c, s.merged)
  }

  ghost predicate Inv<E>(c: Config<E>, s: State<E>) {
    && |s.workers| == |c.messages|
    && WorkersFit(s) && MergedFits(c, s)
    && s.permits == Sum(Holds(s.workers)) <= c.maxConcurrent
    && s.next <= |c.messages|
    && (s.mutex.Some? ==> s.mutex.value < |c.messages|)
    && (s.joined ==> AllGone(s) && s.next == |c.messages|)
  }

  lemma InitInv<E>(c: Config<E>)
    ensures Inv(c, Init(c))
  {
    SumOfZeros(Holds(Init(c).workers));
    assert Map([], i => Share(c, i)) == [];
  }

  lemma GatheredSnoc<E>(c: Config<E>, order: seq<nat>, i: nat)
    ensures Gathered(c, order + [i]) == Append(Gathered(c, order), Share(c, i))
  {
    var share := j => Share(c, j);
    assert Map(order + [i], share)[..|order|] == Map(order, share);
    assert Map(order + [i], share) == Map(order, share) + [Share(c, i)];
  }

  /** What moving goroutine i has to satisfy for the other goroutines and the sum to follow. */
  lemma MoveKeepsInv<E>(c: Config<E>, s: State<E>, t: State<E>, i: nat)
    requires Inv(c, s) && i < |c.messages| == |t.workers| && !s.joined && !t.joined
    requires t.workers == s.workers[i := t.workers[i]] && WorkerInv(t, i, t.workers[i])
    requires t.next == s.next || (i == s.next && t.next == s.next + 1)
    requires t.mutex == s.mutex || (s.mutex.None? && t.mutex == Some(i)) || (s.mutex == Some(i) && t.mutex.None?)
    requires t.shared == s.shared || s.mutex == Some(i)
    requires t.merged == s.merged || t.merged == s.merged + [i]
    requires t.permits == s.permits - Hold(s.workers[i]) + Hold(t.workers[i]) <= c.maxConcurrent
    requires MergedFits(c, t)
    ensures Inv(c, t)
  {
    forall j | 0 <= j < |t.workers|
      ensures WorkerInv(t, j, t.workers[j])
    {
      assert WorkerInv(s, j, s.workers[j]);
    }
    assert Holds(t.workers) == Holds(s.workers)[i := Hold(t.workers[i])];
    SumUpdate(Holds(s.workers), i, Hold(t.workers[i]));
  }

  lemma EntryKeepsInv<E>(c: Config<E>, s: State<E>, i: nat, step: Step)
    requires Inv(c, s) && Enabled(c, s, step) && !s.joined
    requires (step == Spawn && i == s.next) || step == Acquire(i) || step == Process(i) || step == Release(i)
    ensures Inv(c, Apply(c, s, step))
  {
    assert WorkerInv(s, i, s.workers[i]);
    MoveKeepsInv(c, s, Apply(c, s, step), i);
  }

  lemma MutexKeepsInv<E>(c: Config<E>, s: State<E>, i: nat, step: Step)
    requires Inv(c, s) && Enabled(c, s, step) && !s.joined
    requires step == Lock(i) || step == Load(i) || step == Unlock(i)
    ensures Inv(c, Apply(c, s, step))
  {
    assert WorkerInv(s, i, s.workers[i]);
    MoveKeepsInv(c, s, Apply(c, s, step), i);
  }

  lemma MergeKeepsInv<E>(c: Config<E>, s: State<E>, i: nat, step: Step)
    requires Inv(c, s) && Enabled(c, s, step) && !s.joined
    requires step == Skip(i) || step == Store(i)
    ensures Inv(c, Apply(c, s, step))
  {
    assert WorkerInv(s, i, s.workers[i]);
    GatheredSnoc(c, s.merged, i);
    MoveKeepsInv(c, s, Apply(c, s, step), i);
  }

  lemma StepKeepsInv<E>(c: Config<E>, s: State<E>, step: Step)
    requires Inv(c, s) && Enabled(c, s, step)
    ensures Inv(c, Apply(c, s, step))
  {
    match step {
      case Spawn => EntryKeepsInv(c, s, s.next, step);
      case Acquire(i) => EntryKeepsInv(c, s, i, step);
      case Process(i) => EntryKeepsInv(c, s, i, step);
      case Release(i) => EntryKeepsInv(c, s, i, step);
      case Skip(i) => MergeKeepsInv(c, s, i, step);
      case Store(i) => MergeKeepsInv(c, s, i, step);
      case Lock(i) => MutexKeepsInv(c, s, i, step);
      case Load(i) => MutexKeepsInv(c, s, i, step);
      case Unlock(i) => MutexKeepsInv(c, s, i, step);
      case Join => assert forall i :: 0 <= i < |s.workers| ==> WorkerInv(s, i, s.workers[i]);
    }
  }

  // ---------------------------------------------------------------- runs

  predicate IsRun<E>(c: Config<E>, s: State<E>, steps: seq<Step>)
    decreases |steps|
  {
    steps == [] || (Enabled(c, s, steps[0]) && IsRun(c, Apply(c, s, steps[0]), steps[1..]))
  }

  function Exec<E>(c: Config<E>, s: State<E>, steps: seq<Step>): State<E>
    requires IsRun(c, s, steps)
    decreases |steps|
  {
    if steps == [] then s else Exec(c, Apply(c, s, steps[0]), steps[1..])
  }

  function Weight<E>(w: Worker<E>): int {
    match w
    case Unspawned => 8 case Waiting => 7 case Running => 6 case Ready => 5 case Locked => 4
    case Loaded(_) => 3 case Stored => 2 case Leaving => 1 case Gone => 0
  }

  function Weights<E>(ws: seq<Worker<E>>): seq<int> {
    seq(|ws|, i requires 0 <= i < |ws| => Weight(ws[i]))
  }

  function Measure<E>(s: State<E>): int {
    Sum(Weights(s.workers)) + if s.joined then 0 else 1
  }

  lemma {:induction false} WeightsAreBounded<E>(ws: seq<Worker<E>>)
    ensures 0 <= Sum(Weights(ws)) <= 8 * |ws|
  {
    if ws != [] {
      WeightsAreBounded(ws[1..]);
      assert Weights(ws)[1..] == Weights(ws[1..]);
    }
  }

  lemma MoveLowersMeasure<E>(s: State<E>, t: State<E>, i: nat)
    requires i < |s.workers| == |t.workers| && t.joined == s.joined
    requires t.workers == s.workers[i := t.workers[i]] && Weight(t.workers[i]) < Weight(s.workers[i])
    ensures Measure(t) < Measure(s)
  {
    assert Weights(t.workers) == Weights(s.workers)[i := Weight(t.workers[i])];
    SumUpdate(Weights(s.workers), i, Weight(t.workers[i]));
  }

  lemma MeasureFalls<E>(c: Config<E>, s: State<E>, step: Step)
    requires Inv(c, s) && Enabled(c, s, step)
    ensures Measure(Apply(c, s, step)) < Measure(s)
  {
    match step {
      case Spawn =>
        assert WorkerInv(s, s.next, s.workers[s.next]);
        MoveLowersMeasure(s, Apply(c, s, step), s.next);
      case Join =>
      case _ => MoveLowersMeasure(s, Apply(c, s, step), step.i);
    }
  }

  lemma {:induction false} RunKeepsInv<E>(c: Config<E>, s: State<E>, steps: seq<Step>)
    requires Inv(c, s) && IsRun(c, s, steps)
    ensures Inv(c, Exec(c, s, steps))
    ensures |steps| + Measure(Exec(c, s, steps)) <= Measure(s)
    decreases |steps|
  {
    if steps != [] {
      StepKeepsInv(c, s, steps[0]);
      MeasureFalls(c, s, steps[0]);
      RunKeepsInv(c, Apply(c, s, steps[0]), steps[1..]);
    }
  }

  /** In every interleaving at most maxConcurrent goroutines are at work and at most one is merging. */
  lemma EveryRunIsSafe<E>(c: Config<E>, steps: seq<Step>, i: nat, j: nat)
    requires IsRun(c, Init(c), steps) && i < j < |c.messages|
    ensures
      var s := Exec(c, Init(c), steps);
      && |s.workers| == |c.messages|
      && Sum(Holds(s.workers)) <= c.maxConcurrent
      && !(Critical(s.workers[i]) && Critical(s.workers[j]))
  {
    InitInv(c);
    RunKeepsInv(c, Init(c), steps);
    var s := Exec(c, Init(c), steps);
    assert WorkerInv(s, i, s.workers[i]) && WorkerInv(s, j, s.workers[j]);
  }

  /** In every interleaving, when the handler stops waiting, it has what it would have without
      goroutines, up to the order of the messages: nothing lost, nothing doubled. */
  lemma EveryRunGathersAll<E>(c: Config<E>, steps: seq<Step>)
    requires IsRun(c, Init(c), steps) && Exec(c, Init(c), steps).joined
    ensures Alike(Exec(c, Init(c), steps).shared, Sequential(c))
  {
    InitInv(c);
    RunKeepsInv(c, Init(c), steps);
    var s := Exec(c, Init(c), steps);
    forall i: nat
      ensures i < |c.messages| <==> i in s.merged
    {
      assert i < |c.messages| ==> WorkerInv(s, i, s.workers[i]);
    }
    EveryMessageOnce(c, s.merged);
  }

  /** Until it is done the handler is never stuck, if at least one permit exists. */
  lemma Progress<E>(c: Config<E>, s: State<E>) returns (step: Step)
    requires Inv(c, s) && !s.joined && c.maxConcurrent >= 1
    ensures Enabled(c, s, step)
  {
    if s.next < |s.workers| {
      return Spawn;
    }
    if s.mutex.Some? {
      var i := s.mutex.value;
      assert WorkerInv(s, i, s.workers[i]);
      return if s.workers[i].Locked? then Load(i) else if s.workers[i].Loaded? then Store(i) else Unlock(i);
    }
    if i :| 0 <= i < |s.workers| && Holds(s.workers)[i] == 1 {
      assert WorkerInv(s, i, s.workers[i]);
      return if s.workers[i].Ready? then Lock(i)
             else if s.workers[i].Leaving? then Release(i)
             else if c.messages[i].body.Some? then Process(i) else Skip(i);
    }
    SumOfZeros(Holds(s.workers));
    if i :| 0 <= i < |s.workers| && !s.workers[i].Gone? {
      assert WorkerInv(s, i, s.workers[i]) && Holds(s.workers)[i] == 0;
      return Acquire(i);
    }
    return Join;
  }

  /** In every interleaving the wait ends: no run is longer than the messages allow, and one that
      has not joined can go on. */
  lemma EveryRunEnds<E>(c: Config<E>, steps: seq<Step>) returns (step: Step)
    requires c.maxConcurrent >= 1 && IsRun(c, Init(c), steps)
    ensures |steps| <= 8 * |c.messages| + 1
    ensures !Exec(c, Init(c), steps).joined ==> Enabled(c, Exec(c, Init(c), steps), step)
  {
    InitInv(c);
    RunKeepsInv(c, Init(c), steps);
    var s := Exec(c, Init(c), steps);
    WeightsAreBounded(Init(c).workers);
    WeightsAreBounded(s.workers);
    step := Join;
    if !s.joined {
      step := Progress(c, s);
    }
  }

  // ---------------------------------------------------------------- no permits

  predicate Starved<E>(s: State<E>) {
    !s.joined && |s.workers| > 0 && forall i :: 0 <= i < |s.workers| ==>
        s.workers[i].Unspawned? || s.workers[i].Waiting?
  }

  lemma {:induction false} StarvedForever<E>(c: Config<E>, s: State<E>, steps: seq<Step>)
    requires c.maxConcurrent == 0 && Starved(s) && s.permits >= 0 && IsRun(c, s, steps)
    ensures !Exec(c, s, steps).joined
    decreases |steps|
  {
    if steps != [] {
      assert s.workers[0].Unspawned? || s.workers[0].Waiting?;
      assert steps[0].Spawn?;
      StarvedForever(c, Apply(c, s, steps[0]), steps[1..]);
    }
  }

  /** Without a permit, and with a message, the handler waits for ever. */
  lemma NoPermitsNeverJoins<E>(c: Config<E>, steps: seq<Step>)
    requires c.maxConcurrent == 0 && c.messages != [] && IsRun(c, Init(c), steps)
    ensures !Exec(c, Init(c), steps).joined
  {
    StarvedForever(c, Init(c), steps);
  }
}
