/** The concurrent half of SendLogs in pkg/sender/otlp_client.go as a step system: a dispatcher,
    one worker per launched batch, a counting semaphore, a one-slot error channel, the context
    SendLogs cancels itself, and the caller's context, which may end at any moment. */
module SendLogs {
  import opened Seqs
  import opened RetryLoop
  import opened Batching

  /** `batches` in the order the dispatch loop goes through them. */
  datatype Config = Config(maxConcurrent: nat, policy: Policy, batches: seq<Batch>)

  /** The error of one batch.  `induced` means it only says that the send context had ended. */
  datatype Failure = Failure(batch: nat, induced: bool)

  datatype Worker =
    | Unlaunched | Acquiring | Posting | Storing(failure: Failure) | Cancelling | Counting
    | Releasing(sent: bool) | Finished(sent: bool)

  datatype Result = Delivered | BatchFailed(failure: Failure) | ContextEnded

  datatype Phase = Dispatching | Waiting | Returned(result: Result)

  /** `accepted[i]` counts the 2xx replies batch i got. */
  datatype State = State(
    phase: Phase,
    next: nat,
    workers: seq<Worker>,
    permits: int,
    slot: Option<Failure>,
    cancelled: bool,
    parentEnded: bool,
    totalSent: int,
    accepted: seq<nat>)

  /** A finished sendWithRetry call. */
  datatype Call = Call(script: Script, outcome: Outcome, posts: nat, waits: seq<int>)
  {
    /** The call noticed that its context had ended. */
    ghost predicate Interrupted() {
      outcome.Cancelled? || exists i :: 0 <= i < posts && script.reply(i) == NetworkError(true)
    }

    /** The error it returns is the context's. */
    predicate Induced() {
      outcome.Cancelled? || outcome == Exhausted(Some(NetworkError(true)))
    }
  }

  datatype Step =
    | Launch | StopDispatch | EndDispatch
    | Abort(i: nat) | Acquire(i: nat) | Finish(i: nat, call: Call) | Store(i: nat) | Cancel(i: nat)
    | AddSent(i: nat) | Release(i: nat)
    | Check | ParentEnds

  function Init(c: Config): State {
    State(Dispatching, 0, seq(|c.batches|, _ => Unlaunched), 0, None, false, false, 0, seq(|c.batches|, _ => 0))
  }

  predicate Done(s: State) {
    s.cancelled || s.parentEnded
  }

  predicate Quiet(s: State) {
    forall i :: 0 <= i < |s.workers| ==> s.workers[i].Unlaunched? || s.workers[i].Finished?
  }

  ghost predicate Enabled(c: Config, s: State, step: Step) {
    match step
    case Launch => s.phase.Dispatching? && s.next < |s.workers| && !Done(s)
    case StopDispatch => s.phase.Dispatching? && s.next < |s.workers| && Done(s)
    case EndDispatch => s.phase.Dispatching? && s.next >= |s.workers|
    case Abort(i) => i < |s.workers| && s.workers[i].Acquiring? && Done(s)
    case Acquire(i) => i < |s.workers| && s.workers[i].Acquiring? && s.permits < c.maxConcurrent
    case Finish(i, call) =>
      && i < |s.workers| && s.workers[i].Posting?
      && Describes(c.policy, call.script, call.outcome, call.posts, call.waits)
      && (call.Interrupted() ==> Done(s))
    case Store(i) => i < |s.workers| && s.workers[i].Storing?
    case Cancel(i) => i < |s.workers| && s.workers[i].Cancelling?
    case AddSent(i) => i < |s.workers| && s.workers[i].Counting?
    case Release(i) => i < |s.workers| && s.workers[i].Releasing?
    case Check => s.phase.Waiting? && Quiet(s)
    case ParentEnds => !s.parentEnded
  }

  function Apply(c: Config, s: State, step: Step): (t: State)
    requires |s.workers| == |s.accepted| == |c.batches|
    requires Enabled(c, s, step)
    ensures |t.workers| == |t.accepted| == |c.batches|
  {
    match step
    case Launch => s.(next := s.next + 1, workers := s.workers[s.next := Acquiring])
    case StopDispatch => s.(phase := Waiting)
    case EndDispatch => s.(phase := Waiting)
    case Abort(i) => s.(workers := s.workers[i := Finished(false)])
    case Acquire(i) => s.(permits := s.permits + 1, workers := s.workers[i := Posting])
    case Finish(i, call) =>
      s.(workers := s.workers[i := if call.outcome.Sent? then Counting else Storing(Failure(i, call.Induced()))],
         accepted := s.accepted[i := s.accepted[i] + Accepts(call.script, call.posts)])
    case Store(i) =>
      s.(slot := if s.slot.None? then Some(s.workers[i].failure) else s.slot, workers := s.workers[i := Cancelling])
    case Cancel(i) => s.(cancelled := true, workers := s.workers[i := Releasing(false)])
    case AddSent(i) =>
      s.(totalSent := s.totalSent + |c.batches[i].records|, workers := s.workers[i := Releasing(true)])
    case Release(i) => s.(permits := s.permits - 1, workers := s.workers[i := Finished(s.workers[i].sent)])
    case Check =>
      s.(phase := Returned(
        if s.slot.Some? then BatchFailed(s.slot.value)
        else if s.parentEnded then ContextEnded
        else Delivered))
    case ParentEnds => s.(parentEnded := true)
  }

  // ---------------------------------------------------------------- invariant

  function Holds(ws: seq<Worker>): seq<int> {
    seq(|ws|, i requires 0 <= i < |ws| =>
      if ws[i].Unlaunched? || ws[i].Acquiring? || ws[i].Finished? then 0 else 1)
  }

  function Sent(w: Worker): bool {
    (w.Releasing? || w.Finished?) && w.sent
  }

  function Credits(c: Config, ws: seq<Worker>): seq<int>
    requires |ws| == |c.batches|
  {
    seq(|ws|, i requires 0 <= i < |ws| => if Sent(ws[i]) then |c.batches[i].records| else 0)
  }

  /** What is known of one worker: where it stands fixes how often its batch was accepted, and a
      worker that gave up leaves a trace in the error slot or the caller's context. */
  predicate WorkerInv(s: State, i: nat, w: Worker, accepted: nat) {
    && (w.Unlaunched? <==> i >= s.next)
    && accepted == (if w.Counting? || Sent(w) then 1 else 0)
    && (w.Storing? ==> w.failure.batch == i && (w.failure.induced ==> Done(s)))
    && (w.Cancelling? ==> s.slot.Some?)
    && ((w.Releasing? || w.Finished?) && !w.sent ==> s.slot.Some? || s.parentEnded)
  }

  lemma HoldsUpdate(ws: seq<Worker>, i: nat, w: Worker)
    requires i < |ws|
    ensures Sum(Holds(ws[i := w])) == Sum(Holds(ws)) - Holds(ws)[i] + Holds([w])[0]
  {
    assert Holds(ws[i := w]) == Holds(ws)[i := Holds([w])[0]];
    SumUpdate(Holds(ws), i, Holds([w])[0]);
  }

  lemma CreditsUpdate(c: Config, ws: seq<Worker>, i: nat, w: Worker)
    requires |ws| == |c.batches| && i < |ws|
    ensures Sum(Credits(c, ws[i := w])) ==
              Sum(Credits(c, ws)) - Credits(c, ws)[i] + (if Sent(w) then |c.batches[i].records| else 0)
  {
    var x := if Sent(w) then |c.batches[i].records| else 0;
    assert Credits(c, ws[i := w]) == Credits(c, ws)[i := x];
    SumUpdate(Credits(c, ws), i, x);
  }

  predicate Sized(c: Config, s: State) {
    |s.workers| == |s.accepted| == |c.batches|
  }

  predicate SumsFit(c: Config, s: State)
    requires Sized(c, s)
  {
    s.permits == Sum(Holds(s.workers)) && s.totalSent == Sum(Credits(c, s.workers))
  }

  /** The sums follow the one worker a step moves. */
  lemma SumsFollow(c: Config, s: State, t: State, i: nat)
    requires Sized(c, s) && Sized(c, t) && SumsFit(c, s) && i < |c.batches|
    requires t.workers == s.workers[i := t.workers[i]]
    requires t.permits == s.permits - Holds([s.workers[i]])[0] + Holds([t.workers[i]])[0]
    requires t.totalSent == s.totalSent + (if Sent(t.workers[i]) then |c.batches[i].records| else 0)
                                        - (if Sent(s.workers[i]) then |c.batches[i].records| else 0)
    ensures SumsFit(c, t)
  {
    HoldsUpdate(s.workers, i, t.workers[i]);
    CreditsUpdate(c, s.workers, i, t.workers[i]);
  }

  lemma InducedIsInterrupted(policy: Policy, call: Call)
    requires Describes(policy, call.script, call.outcome, call.posts, call.waits) && call.Induced()
    ensures call.Interrupted()
  {
    if !call.outcome.Cancelled? {
      assert call.script.reply(call.posts - 1) == NetworkError(true);
    }
  }

  predicate WorkersFit(s: State)
    requires |s.workers| == |s.accepted|
  {
    forall i :: 0 <= i < |s.workers| ==> WorkerInv(s, i, s.workers[i], s.accepted[i])
  }

  /** Workers fit after a step if the moved one does and the shared facts they rely on persist. */
  lemma OthersStillFit(s: State, t: State, i: nat)
    requires |s.workers| == |s.accepted| == |t.workers| == |t.accepted| && i < |s.workers| && WorkersFit(s)
    requires t.workers == s.workers[i := t.workers[i]] && t.accepted == s.accepted[i := t.accepted[i]]
    requires t.next == s.next || (i == s.next && t.next == s.next + 1)
    requires Done(s) ==> Done(t)
    requires s.slot.Some? ==> t.slot.Some?
    requires s.parentEnded ==> t.parentEnded
    requires WorkerInv(t, i, t.workers[i], t.accepted[i])
    ensures WorkersFit(t)
  {
    forall j | 0 <= j < |t.workers|
      ensures WorkerInv(t, j, t.workers[j], t.accepted[j])
    {
      assert WorkerInv(s, j, s.workers[j], s.accepted[j]);
    }
  }

  /** The stored error belongs to a batch that was not accepted, and says the context ended only
      if the caller's did: the first error is stored before the first internal cancel. */
  predicate SlotFits(c: Config, s: State)
    requires Sized(c, s)
  {
    s.slot.Some? ==>
      var f := s.slot.value;
      && f.batch < |c.batches| && s.accepted[f.batch] == 0
      && (s.workers[f.batch].Cancelling? || s.workers[f.batch] in {Releasing(false), Finished(false)})
      && (f.induced ==> s.parentEnded)
  }

  predicate ResultFits(c: Config, s: State)
    requires Sized(c, s)
  {
    s.phase.Returned? ==>
      && Quiet(s)
      && match s.phase.result
         case BatchFailed(failure) => s.slot == Some(failure)
         case ContextEnded => s.parentEnded && s.slot.None?
         case Delivered =>
           s.next == |c.batches| && (forall i :: 0 <= i < |s.workers| ==> s.workers[i] == Finished(true))
  }

  predicate Inv(c: Config, s: State) {
    && Sized(c, s) && SumsFit(c, s) && WorkersFit(s) && SlotFits(c, s) && ResultFits(c, s)
    && s.next <= |c.batches| && s.permits <= c.maxConcurrent
    && (s.cancelled ==> s.slot.Some?)
    && (!s.phase.Dispatching? && s.next < |c.batches| ==> Done(s))
  }

  lemma InitInv(c: Config)
    ensures Inv(c, Init(c))
  {
    SumOfZeros(Holds(Init(c).workers));
    SumOfZeros(Credits(c, Init(c).workers));
  }

  lemma CheckKeepsResult(c: Config, s: State)
    requires Inv(c, s) && Enabled(c, s, Check)
    ensures ResultFits(c, Apply(c, s, Check))
  {
    forall i | 0 <= i < |s.workers|
      ensures s.slot.None? && !s.parentEnded ==> s.workers[i] == Finished(true)
    {
      assert WorkerInv(s, i, s.workers[i], s.accepted[i]);
    }
  }

  /** What moving worker i has to satisfy for the invariant to survive; the other workers, the
      sums and the slot then follow. */
  lemma MoveKeepsInv(c: Config, s: State, t: State, i: nat)
    requires Inv(c, s) && Sized(c, t) && i < |c.batches|
    requires !s.phase.Returned? && !t.phase.Returned?
    requires t.workers == s.workers[i := t.workers[i]] && t.accepted == s.accepted[i := t.accepted[i]]
    requires t.next == s.next || (i == s.next && t.next == s.next + 1)
    requires (Done(s) ==> Done(t)) && (s.slot.Some? ==> t.slot == s.slot) && t.parentEnded == s.parentEnded
    requires t.permits == s.permits - Holds([s.workers[i]])[0] + Holds([t.workers[i]])[0] <= c.maxConcurrent
    requires t.totalSent == s.totalSent + (if Sent(t.workers[i]) then |c.batches[i].records| else 0)
                                        - (if Sent(s.workers[i]) then |c.batches[i].records| else 0)
    requires WorkerInv(t, i, t.workers[i], t.accepted[i]) && SlotFits(c, t)
    requires t.cancelled ==> t.slot.Some?
    requires !t.phase.Dispatching? && t.next < |c.batches| ==> Done(t)
    ensures Inv(c, t)
  {
    SumsFollow(c, s, t, i);
    OthersStillFit(s, t, i);
  }

  lemma LaunchKeepsInv(c: Config, s: State)
    requires Inv(c, s) && Enabled(c, s, Launch)
    ensures Inv(c, Apply(c, s, Launch))
  {
    assert WorkerInv(s, s.next, s.workers[s.next], s.accepted[s.next]);
    MoveKeepsInv(c, s, Apply(c, s, Launch), s.next);
  }

  /** A worker takes or is refused a permit. */
  lemma EntryKeepsInv(c: Config, s: State, i: nat, step: Step)
    requires Inv(c, s) && (step == Abort(i) || step == Acquire(i)) && Enabled(c, s, step) && !s.phase.Returned?
    ensures Inv(c, Apply(c, s, step))
  {
    assert WorkerInv(s, i, s.workers[i], s.accepted[i]);
    MoveKeepsInv(c, s, Apply(c, s, step), i);
  }

  /** The step that ends a call: one accepted reply for a success, none for a failure. */
  lemma FinishKeepsInv(c: Config, s: State, i: nat, call: Call)
    requires Inv(c, s) && Enabled(c, s, Finish(i, call)) && !s.phase.Returned?
    ensures Inv(c, Apply(c, s, Finish(i, call)))
  {
    assert WorkerInv(s, i, s.workers[i], s.accepted[i]);
    SentMeansAcceptedOnce(c.policy, call.script, call.outcome, call.posts, call.waits);
    if call.Induced() {
      InducedIsInterrupted(c.policy, call);
    }
    MoveKeepsInv(c, s, Apply(c, s, Finish(i, call)), i);
  }

  lemma FailureKeepsInv(c: Config, s: State, i: nat, step: Step)
    requires Inv(c, s) && (step == Store(i) || step == Cancel(i)) && Enabled(c, s, step) && !s.phase.Returned?
    ensures Inv(c, Apply(c, s, step))
  {
    assert WorkerInv(s, i, s.workers[i], s.accepted[i]);
    MoveKeepsInv(c, s, Apply(c, s, step), i);
  }

  lemma ExitKeepsInv(c: Config, s: State, i: nat, step: Step)
    requires Inv(c, s) && (step == AddSent(i) || step == Release(i)) && Enabled(c, s, step) && !s.phase.Returned?
    ensures Inv(c, Apply(c, s, step))
  {
    assert WorkerInv(s, i, s.workers[i], s.accepted[i]);
    MoveKeepsInv(c, s, Apply(c, s, step), i);
  }

  lemma ParentEndsKeepsInv(c: Config, s: State)
    requires Inv(c, s) && Enabled(c, s, ParentEnds)
    ensures Inv(c, Apply(c, s, ParentEnds))
  {
    var t := Apply(c, s, ParentEnds);
    forall i | 0 <= i < |t.workers|
      ensures WorkerInv(t, i, t.workers[i], t.accepted[i])
    {
      assert WorkerInv(s, i, s.workers[i], s.accepted[i]);
    }
  }

  lemma PhaseKeepsInv(c: Config, s: State, step: Step)
    requires Inv(c, s) && (step.StopDispatch? || step.EndDispatch? || step.Check?) && Enabled(c, s, step)
    ensures Inv(c, Apply(c, s, step))
  {
    var t := Apply(c, s, step);
    forall i | 0 <= i < |t.workers|
      ensures WorkerInv(t, i, t.workers[i], t.accepted[i])
    {
      assert WorkerInv(s, i, s.workers[i], s.accepted[i]);
    }
    if step.Check? {
      CheckKeepsResult(c, s);
    }
  }

  lemma StepKeepsInv(c: Config, s: State, step: Step)
    requires Inv(c, s) && Enabled(c, s, step)
    ensures Inv(c, Apply(c, s, step))
  {
    match step {
      case Launch => LaunchKeepsInv(c, s);
      case Abort(i) => EntryKeepsInv(c, s, i, step);
      case Acquire(i) => EntryKeepsInv(c, s, i, step);
      case Finish(i, call) => FinishKeepsInv(c, s, i, call);
      case Store(i) => FailureKeepsInv(c, s, i, step);
      case Cancel(i) => FailureKeepsInv(c, s, i, step);
      case AddSent(i) => ExitKeepsInv(c, s, i, step);
      case Release(i) => ExitKeepsInv(c, s, i, step);
      case ParentEnds => ParentEndsKeepsInv(c, s);
      case _ => PhaseKeepsInv(c, s, step);
    }
  }

  // ---------------------------------------------------------------- runs

  ghost predicate IsRun(c: Config, s: State, steps: seq<Step>)
    requires Sized(c, s)
    decreases |steps|
  {
    steps == [] || (Enabled(c, s, steps[0]) && IsRun(c, Apply(c, s, steps[0]), steps[1..]))
  }

  function Exec(c: Config, s: State, steps: seq<Step>): (t: State)
    requires Sized(c, s) && IsRun(c, s, steps)
    ensures Sized(c, t)
    decreases |steps|
  {
    if steps == [] then s else Exec(c, Apply(c, s, steps[0]), steps[1..])
  }

  function Weight(w: Worker): int {
    match w
    case Unlaunched => 7 case Acquiring => 6 case Posting => 5 case Storing(_) => 4
    case Cancelling => 3 case Counting => 2 case Releasing(_) => 1 case Finished(_) => 0
  }

  function Weights(ws: seq<Worker>): seq<int> {
    seq(|ws|, i requires 0 <= i < |ws| => Weight(ws[i]))
  }

  function Measure(s: State): int {
    Sum(Weights(s.workers)) + (match s.phase case Dispatching => 2 case Waiting => 1 case Returned(_) => 0) +
    (if s.parentEnded then 0 else 1)
  }

  lemma {:induction false} WeightsAreNats(ws: seq<Worker>)
    ensures 0 <= Sum(Weights(ws)) <= 7 * |ws|
  {
    if ws != [] {
      WeightsAreNats(ws[1..]);
      assert Weights(ws)[1..] == Weights(ws[1..]);
    }
  }

  lemma MoveLowersMeasure(s: State, t: State, i: nat)
    requires i < |s.workers| == |t.workers|
    requires t.workers == s.workers[i := t.workers[i]] && Weight(t.workers[i]) < Weight(s.workers[i])
    requires t.phase == s.phase && t.parentEnded == s.parentEnded
    ensures Measure(t) < Measure(s)
  {
    assert Weights(t.workers) == Weights(s.workers)[i := Weight(t.workers[i])];
    SumUpdate(Weights(s.workers), i, Weight(t.workers[i]));
  }

  lemma MeasureFalls(c: Config, s: State, step: Step)
    requires Sized(c, s) && Enabled(c, s, step)
    requires s.next < |s.workers| ==> s.workers[s.next].Unlaunched?
    ensures Measure(Apply(c, s, step)) < Measure(s)
  {
    var t := Apply(c, s, step);
    match step {
      case Launch => MoveLowersMeasure(s, t, s.next);
      case Abort(i) => MoveLowersMeasure(s, t, i);
      case Acquire(i) => MoveLowersMeasure(s, t, i);
      case Finish(i, _) => MoveLowersMeasure(s, t, i);
      case Store(i) => MoveLowersMeasure(s, t, i);
      case Cancel(i) => MoveLowersMeasure(s, t, i);
      case AddSent(i) => MoveLowersMeasure(s, t, i);
      case Release(i) => MoveLowersMeasure(s, t, i);
      case _ =>
    }
  }

  lemma {:induction false} RunKeepsInv(c: Config, s: State, steps: seq<Step>)
    requires Inv(c, s) && IsRun(c, s, steps)
    ensures Inv(c, Exec(c, s, steps))
    ensures |steps| + Measure(Exec(c, s, steps)) <= Measure(s)
    decreases |steps|
  {
    if steps != [] {
      StepKeepsInv(c, s, steps[0]);
      assert s.next < |s.workers| ==> WorkerInv(s, s.next, s.workers[s.next], s.accepted[s.next]);
      MeasureFalls(c, s, steps[0]);
      RunKeepsInv(c, Apply(c, s, steps[0]), steps[1..]);
    }
  }

  /** Whatever the server replies, a posting worker whose context goes on comes to an end of its call. */
  lemma PostingFinishes(c: Config, s: State, i: nat, script: Script) returns (call: Call)
    requires i < |s.workers| && s.workers[i].Posting? && Undisturbed(script)
    ensures call.script == script && Enabled(c, s, Finish(i, call))
  {
    var outcome, posts, waits := EveryScriptEnds(c.policy, script);
    call := Call(script, outcome, posts, waits);
  }

  /** Until it returns, SendLogs is never stuck, whatever the servers reply and the caller's context
      does, as long as at least one permit exists. */
  lemma Progress(c: Config, s: State, scripts: nat -> Script) returns (step: Step)
    requires Inv(c, s) && !s.phase.Returned? && c.maxConcurrent >= 1 && forall i :: Undisturbed(scripts(i))
    ensures Enabled(c, s, step) && !step.ParentEnds?
    ensures step.Finish? ==> step.call.script == scripts(step.i)
  {
    if s.phase.Dispatching? {
      return if s.next >= |s.workers| then EndDispatch else if Done(s) then StopDispatch else Launch;
    }
    if Quiet(s) {
      return Check;
    }
    if i :| 0 <= i < |s.workers| && Holds(s.workers)[i] == 1 {
      match s.workers[i] {
        case Posting =>
          var call := PostingFinishes(c, s, i, scripts(i));
          return Finish(i, call);
        case Storing(_) => return Store(i);
        case Cancelling => return Cancel(i);
        case Counting => return AddSent(i);
        case Releasing(_) => return Release(i);
      }
    }
    SumOfZeros(Holds(s.workers));
    var i :| 0 <= i < |s.workers| && !s.workers[i].Unlaunched? && !s.workers[i].Finished?;
    assert Holds(s.workers)[i] == 0;
    return Acquire(i);
  }

  /** The batches between the semaphore's acquire and release, those being posted among them. */
  function InFlight(s: State): int {
    Sum(Holds(s.workers))
  }

  /** In every interleaving at most maxConcurrent batches are in flight, no batch is accepted
      twice, and a returned call has left no worker behind. */
  lemma EveryRunIsSafe(c: Config, steps: seq<Step>)
    requires IsRun(c, Init(c), steps)
    ensures
      var s := Exec(c, Init(c), steps);
      && InFlight(s) <= c.maxConcurrent
      && (forall i :: 0 <= i < |s.accepted| ==> s.accepted[i] <= 1)
      && (s.phase.Returned? ==> Quiet(s) && InFlight(s) == 0)
  {
    InitInv(c);
    RunKeepsInv(c, Init(c), steps);
    var s := Exec(c, Init(c), steps);
    forall i | 0 <= i < |s.accepted|
      ensures s.accepted[i] <= 1
    {
      assert WorkerInv(s, i, s.workers[i], s.accepted[i]);
    }
    if s.phase.Returned? {
      SumOfZeros(Holds(s.workers));
    }
  }

  /** In every interleaving the call ends: no run is longer than its batches allow, and one that
      has not returned can go on, with whatever replies the servers give to the batches still out. */
  lemma EveryRunEnds(c: Config, steps: seq<Step>, scripts: nat -> Script) returns (step: Step)
    requires c.maxConcurrent >= 1 && IsRun(c, Init(c), steps) && forall i :: Undisturbed(scripts(i))
    ensures |steps| <= 7 * |c.batches| + 3
    ensures !Exec(c, Init(c), steps).phase.Returned? ==>
              && Enabled(c, Exec(c, Init(c), steps), step) && !step.ParentEnds?
              && (step.Finish? ==> step.call.script == scripts(step.i))
  {
    InitInv(c);
    RunKeepsInv(c, Init(c), steps);
    var s := Exec(c, Init(c), steps);
    WeightsAreNats(Init(c).workers);
    WeightsAreNats(s.workers);
    step := ParentEnds;
    if !s.phase.Returned? {
      step := Progress(c, s, scripts);
    }
  }

  lemma {:induction false} AllCredited(c: Config, ws: seq<Worker>)
    requires |ws| == |c.batches| && forall i :: 0 <= i < |ws| ==> ws[i] == Finished(true)
    ensures Sum(Credits(c, ws)) == Sum(Sizes(c.batches))
  {
    assert Credits(c, ws) == Sizes(c.batches);
  }

  /** A nil return means delivery: every batch was launched and got exactly one 2xx reply, and
      the total counted is the number of records in the batches. */
  lemma NilMeansDelivered(c: Config, steps: seq<Step>)
    requires IsRun(c, Init(c), steps) && Exec(c, Init(c), steps).phase == Returned(Delivered)
    ensures
      var s := Exec(c, Init(c), steps);
      && s.next == |c.batches|
      && (forall i :: 0 <= i < |c.batches| ==> s.accepted[i] == 1)
      && s.totalSent == Sum(Sizes(c.batches))
  {
    InitInv(c);
    RunKeepsInv(c, Init(c), steps);
    var s := Exec(c, Init(c), steps);
    forall i | 0 <= i < |c.batches|
      ensures s.accepted[i] == 1
    {
      assert WorkerInv(s, i, s.workers[i], s.accepted[i]);
    }
    AllCredited(c, s.workers);
  }

  /** An error return is honest: the error it carries is that of a batch that was not accepted,
      and it is a mere cancellation only if the caller's own context ended.  So with a context
      that never ends, a worker's cancellation is never mistaken for the cause. */
  lemma ErrorIsTheBatchsOwn(c: Config, steps: seq<Step>)
    requires IsRun(c, Init(c), steps) && Exec(c, Init(c), steps).phase.Returned?
    ensures
      var s := Exec(c, Init(c), steps);
      match s.phase.result
      case Delivered => true
      case ContextEnded => s.parentEnded
      case BatchFailed(f) =>
        f.batch < |c.batches| && s.accepted[f.batch] == 0 && (f.induced ==> s.parentEnded)
  {
    InitInv(c);
    RunKeepsInv(c, Init(c), steps);
  }

  // ---------------------------------------------------------------- no permits

  /** With MaxConcurrent 0 no worker ever gets past the semaphore. */
  ghost predicate Starved(c: Config, s: State) {
    && Sized(c, s) && s.slot.None? && !s.cancelled && s.permits == 0
    && (forall i :: 0 <= i < |s.workers| ==> s.workers[i] in {Unlaunched, Acquiring, Finished(false)})
    && (!s.phase.Dispatching? && s.next < |s.workers| ==> s.parentEnded)
    && (forall i :: 0 <= i < |s.workers| && i < s.next ==> !s.workers[i].Unlaunched?)
    && (forall i :: 0 <= i < |s.workers| && s.workers[i].Finished? ==> s.parentEnded)
    && (s.phase.Returned? && |s.workers| > 0 ==> s.parentEnded)
  }

  lemma {:induction false} StarvedForever(c: Config, s: State, steps: seq<Step>)
    requires c.maxConcurrent == 0 && Starved(c, s) && IsRun(c, s, steps)
    ensures Starved(c, Exec(c, s, steps))
    decreases |steps|
  {
    if steps != [] {
      var step, t := steps[0], Apply(c, s, steps[0]);
      assert step.Launch? || step.StopDispatch? || step.EndDispatch? || step.Abort? || step.Check? || step.ParentEnds?;
      if step.Check? && |s.workers| > 0 {
        assert s.workers[0].Unlaunched? || s.workers[0].Finished?;
      }
      StarvedForever(c, t, steps[1..]);
    }
  }

  /** So the permit demanded by Progress is needed: with none, and something to send, the call
      returns only after the caller's context has ended. */
  lemma NoPermitsNeverReturns(c: Config, steps: seq<Step>)
    requires c.maxConcurrent == 0 && |c.batches| > 0 && IsRun(c, Init(c), steps)
    requires Exec(c, Init(c), steps).phase.Returned?
    ensures Exec(c, Init(c), steps).phase == Returned(ContextEnded) && Exec(c, Init(c), steps).parentEnded
  {
    StarvedForever(c, Init(c), steps);
    ErrorIsTheBatchsOwn(c, steps);
    InitInv(c);
    RunKeepsInv(c, Init(c), steps);
  }
}
