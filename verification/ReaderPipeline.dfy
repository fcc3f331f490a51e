/** The S3 reader of pkg/processor/base.go as a step system: one reader goroutine, a pool of
    parsing workers, a closer and the collecting caller, joined by two channels.

    A run is a list of steps, each enabled where it is taken, so a statement about all runs is
    a statement about all interleavings.  The line, JSON and parquet readers share this
    protocol; they differ in `skip` (parquet skips nothing) and in the kind of item. */
module ReaderPipeline {
  import opened Seqs

  /** What the parse function returns for one item: an entry, a nil entry, or an error. */
  datatype Parsed<+E> = Entry(entry: E) | NoEntry | ParseError

  /** `source` is what the reader delivers before it stops, `failed` whether it stopped on an error. */
  datatype Config<!I, E> = Config(
    maxConcurrent: int,
    capacity: nat,
    source: seq<I>,
    failed: bool,
    skip: I -> bool,
    parse: I -> Parsed<E>)
  {
    function Workers(): nat {
      if maxConcurrent < 1 then 1 else maxConcurrent
    }

    /** The entries one item contributes: none or one. */
    function Keep(item: I): seq<E> {
      if skip(item) then []
      else match parse(item)
        case Entry(e) => [e]
        case _ => []
    }

    /** The non-nil successful parses of a list of items, in order. */
    function Kept(items: seq<I>): seq<E> {
      if items == [] then [] else Keep(items[0]) + Kept(items[1..])
    }
  }

  datatype Reader<+I> = Scanning | Holding(item: I) | Ended | Closed

  datatype Worker<+I, +E> = Idle | Parsing(item: I) | Sending(entry: E) | Exited

  datatype Collector = Ranging | Drained | Returned(failed: bool)

  datatype State<I, E> = State(
    unread: seq<I>,
    reader: Reader<I>,
    lines: seq<I>,
    linesClosed: bool,
    workers: seq<Worker<I, E>>,
    entries: seq<E>,
    entriesClosed: bool,
    scanErr: bool,
    collected: seq<E>,
    collector: Collector,
    panicked: bool)

  /** One step of one goroutine.  `Hand` steps are the direct handover of a channel whose buffer
      is empty, the only way a value passes through a channel of capacity 0. */
  datatype Step =
    | Scan | EndScan | PushLine | CloseLines
    | TakeLine(w: nat) | HandLine(w: nat) | Parse(w: nat)
    | PushEntry(w: nat) | HandEntry(w: nat) | Exit(w: nat)
    | CloseEntries | TakeEntry | Drain | Return

  function Init<I, E>(c: Config<I, E>): State<I, E> {
    State(c.source, Scanning, [], false, seq(c.Workers(), _ => Idle), [], false, false, [], Ranging, false)
  }

  predicate AllExited<I, E>(s: State<I, E>) {
    forall w :: 0 <= w < |s.workers| ==> s.workers[w].Exited?
  }

  /** A send on a closed channel is enabled, because it does not block: it panics. */
  predicate Enabled<I, E>(c: Config<I, E>, s: State<I, E>, step: Step) {
    !s.panicked &&
    match step
    case Scan => s.reader.Scanning? && s.unread != []
    case EndScan => s.reader.Scanning? && s.unread == []
    case PushLine => s.reader.Holding? && (s.linesClosed || |s.lines| < c.capacity)
    case CloseLines => s.reader.Ended?
    case TakeLine(w) => w < |s.workers| && s.workers[w].Idle? && s.lines != []
    case HandLine(w) => w < |s.workers| && s.workers[w].Idle? && s.lines == [] && s.reader.Holding? && !s.linesClosed
    case Parse(w) => w < |s.workers| && s.workers[w].Parsing?
    case PushEntry(w) => w < |s.workers| && s.workers[w].Sending? && (s.entriesClosed || |s.entries| < c.capacity)
    case HandEntry(w) =>
      && w < |s.workers| && s.workers[w].Sending?
      && s.entries == [] && !s.entriesClosed && s.collector.Ranging?
    case Exit(w) => w < |s.workers| && s.workers[w].Idle? && s.lines == [] && s.linesClosed
    case CloseEntries => AllExited(s) && !s.entriesClosed
    case TakeEntry => s.collector.Ranging? && s.entries != []
    case Drain => s.collector.Ranging? && s.entries == [] && s.entriesClosed
    case Return => s.collector.Drained?
  }

  function Apply<I, E>(c: Config<I, E>, s: State<I, E>, step: Step): State<I, E>
    requires Enabled(c, s, step)
  {
    match step
    case Scan => s.(reader := Holding(s.unread[0]), unread := s.unread[1..])
    case EndScan => s.(reader := Ended, scanErr := c.failed)
    case PushLine =>
      if s.linesClosed then s.(panicked := true)
      else s.(reader := Scanning, lines := s.lines + [s.reader.item])
    case CloseLines =>
      if s.linesClosed then s.(panicked := true)
      else s.(reader := Closed, linesClosed := true)
    case TakeLine(w) => s.(lines := s.lines[1..], workers := s.workers[w := Parsing(s.lines[0])])
    case HandLine(w) => s.(reader := Scanning, workers := s.workers[w := Parsing(s.reader.item)])
    case Parse(w) =>
      var kept := c.Keep(s.workers[w].item);
      s.(workers := s.workers[w := if kept == [] then Idle else Sending(kept[0])])
    case PushEntry(w) =>
      if s.entriesClosed then s.(panicked := true)
      else s.(entries := s.entries + [s.workers[w].entry], workers := s.workers[w := Idle])
    case HandEntry(w) => s.(collected := s.collected + [s.workers[w].entry], workers := s.workers[w := Idle])
    case Exit(w) => s.(workers := s.workers[w := Exited])
    case CloseEntries => s.(entriesClosed := true)
    case TakeEntry => s.(collected := s.collected + [s.entries[0]], entries := s.entries[1..])
    case Drain => s.(collector := Drained)
    case Return => s.(collector := Returned(s.scanErr))
  }

  predicate IsRun<I, E>(c: Config<I, E>, s: State<I, E>, steps: seq<Step>)
    decreases |steps|
  {
    steps == [] || (Enabled(c, s, steps[0]) && IsRun(c, Apply(c, s, steps[0]), steps[1..]))
  }

  function Exec<I, E>(c: Config<I, E>, s: State<I, E>, steps: seq<Step>): State<I, E>
    requires IsRun(c, s, steps)
    decreases |steps|
  {
    if steps == [] then s else Exec(c, Apply(c, s, steps[0]), steps[1..])
  }

  predicate Final<I, E>(s: State<I, E>) {
    s.collector.Returned?
  }

  // ---------------------------------------------------------------- conservation

  ghost function WorkerOwes<I, E>(c: Config<I, E>, w: Worker<I, E>, e: E): nat {
    match w
    case Parsing(item) => Count(c.Keep(item), e)
    case Sending(entry) => Count([entry], e)
    case _ => 0
  }

  ghost function Debts<I, E>(c: Config<I, E>, ws: seq<Worker<I, E>>, e: E): seq<int> {
    seq(|ws|, i requires 0 <= i < |ws| => WorkerOwes(c, ws[i], e))
  }

  /** How often `e` has been, or will be, delivered: collected, queued, held or still to be parsed. */
  ghost function Owed<I, E>(c: Config<I, E>, s: State<I, E>, e: E): int {
    Count(c.Kept(s.unread), e) + (if s.reader.Holding? then Count(c.Keep(s.reader.item), e) else 0) +
    Count(c.Kept(s.lines), e) + Sum(Debts(c, s.workers, e)) + Count(s.entries, e) + Count(s.collected, e)
  }

  lemma DebtsUpdate<I, E>(c: Config<I, E>, ws: seq<Worker<I, E>>, i: nat, w: Worker<I, E>, e: E)
    requires i < |ws|
    ensures Sum(Debts(c, ws[i := w], e)) == Sum(Debts(c, ws, e)) - WorkerOwes(c, ws[i], e) + WorkerOwes(c, w, e)
  {
    assert Debts(c, ws[i := w], e) == Debts(c, ws, e)[i := WorkerOwes(c, w, e)];
    SumUpdate(Debts(c, ws, e), i, WorkerOwes(c, w, e));
  }

  lemma CountSplit<T>(a: seq<T>, b: seq<T>, x: T)
    ensures Count(a + b, x) == Count(a, x) + Count(b, x)
  {
  }

  lemma {:induction false} KeptSplit<I, E>(c: Config<I, E>, a: seq<I>, b: seq<I>)
    ensures c.Kept(a + b) == c.Kept(a) + c.Kept(b)
  {
    if a == [] {
      assert a + b == b;
    } else {
      assert (a + b)[1..] == a[1..] + b;
      KeptSplit(c, a[1..], b);
    }
  }

  /** The first item's share of a queue of items. */
  lemma KeptHead<I, E>(c: Config<I, E>, items: seq<I>, e: E)
    requires items != []
    ensures Count(c.Kept(items), e) == Count(c.Keep(items[0]), e) + Count(c.Kept(items[1..]), e)
  {
    CountSplit(c.Keep(items[0]), c.Kept(items[1..]), e);
  }

  lemma KeptSnoc<I, E>(c: Config<I, E>, items: seq<I>, item: I, e: E)
    ensures Count(c.Kept(items + [item]), e) == Count(c.Kept(items), e) + Count(c.Keep(item), e)
  {
    KeptSplit(c, items, [item]);
    assert c.Kept([item]) == c.Keep(item) + c.Kept([]) == c.Keep(item);
    CountSplit(c.Kept(items), c.Keep(item), e);
  }

  lemma TakingKeepsOwed<I, E>(c: Config<I, E>, s: State<I, E>, step: Step, e: E)
    requires Enabled(c, s, step) && (step.TakeLine? || step.HandLine?)
    ensures Owed(c, Apply(c, s, step), e) == Owed(c, s, e)
  {
    DebtsUpdate(c, s.workers, step.w, Apply(c, s, step).workers[step.w], e);
    if step.TakeLine? {
      KeptHead(c, s.lines, e);
    }
  }

  lemma ParsedOwes<I, E>(c: Config<I, E>, s: State<I, E>, w: nat, e: E)
    requires Enabled(c, s, Parse(w))
    ensures WorkerOwes(c, Apply(c, s, Parse(w)).workers[w], e) == WorkerOwes(c, s.workers[w], e)
  {
    var kept := c.Keep(s.workers[w].item);
    assert kept == [] || kept == [kept[0]];
  }

  lemma ParsingKeepsOwed<I, E>(c: Config<I, E>, s: State<I, E>, w: nat, e: E)
    requires Enabled(c, s, Parse(w))
    ensures Owed(c, Apply(c, s, Parse(w)), e) == Owed(c, s, e)
  {
    ParsedOwes(c, s, w, e);
    var worker := Apply(c, s, Parse(w)).workers[w];
    DebtsUpdate(c, s.workers, w, worker, e);
    assert Apply(c, s, Parse(w)) == s.(workers := s.workers[w := worker]);
  }

  lemma ExitKeepsOwed<I, E>(c: Config<I, E>, s: State<I, E>, w: nat, e: E)
    requires Enabled(c, s, Exit(w))
    ensures Owed(c, Apply(c, s, Exit(w)), e) == Owed(c, s, e)
  {
    DebtsUpdate(c, s.workers, w, Exited, e);
  }

  lemma PassingKeepsOwed<I, E>(c: Config<I, E>, s: State<I, E>, step: Step, e: E)
    requires Enabled(c, s, step) && (step.PushEntry? || step.HandEntry?)
    ensures Owed(c, Apply(c, s, step), e) == Owed(c, s, e)
  {
    DebtsUpdate(c, s.workers, step.w, Idle, e);
    CountSplit(if step.PushEntry? then s.entries else s.collected, [s.workers[step.w].entry], e);
  }

  /** No step loses, doubles or invents an entry. */
  lemma StepKeepsOwed<I, E>(c: Config<I, E>, s: State<I, E>, step: Step, e: E)
    requires Enabled(c, s, step)
    ensures Owed(c, Apply(c, s, step), e) == Owed(c, s, e)
  {
    match step {
      case Scan => KeptHead(c, s.unread, e);
      case PushLine => if !s.linesClosed { KeptSnoc(c, s.lines, s.reader.item, e); }
      case TakeEntry =>
        assert s.entries == [s.entries[0]] + s.entries[1..];
        CountSplit([s.entries[0]], s.entries[1..], e);
        CountSplit(s.collected, [s.entries[0]], e);
      case EndScan =>
      case CloseLines =>
      case CloseEntries =>
      case Drain =>
      case Return =>
      case TakeLine(_) => TakingKeepsOwed(c, s, step, e);
      case HandLine(_) => TakingKeepsOwed(c, s, step, e);
      case Parse(w) => ParsingKeepsOwed(c, s, w, e);
      case Exit(w) => ExitKeepsOwed(c, s, w, e);
      case PushEntry(_) => PassingKeepsOwed(c, s, step, e);
      case HandEntry(_) => PassingKeepsOwed(c, s, step, e);
    }
  }

  lemma {:induction false} RunKeepsOwed<I, E>(c: Config<I, E>, s: State<I, E>, steps: seq<Step>, e: E)
    requires IsRun(c, s, steps)
    ensures Owed(c, Exec(c, s, steps), e) == Owed(c, s, e)
    decreases |steps|
  {
    if steps != [] {
      StepKeepsOwed(c, s, steps[0], e);
      RunKeepsOwed(c, Apply(c, s, steps[0]), steps[1..], e);
    }
  }

  lemma {:induction false} SumOfNats(s: seq<int>)
    requires forall i :: 0 <= i < |s| ==> 0 <= s[i]
    ensures 0 <= Sum(s)
  {
    if s != [] {
      SumOfNats(s[1..]);
    }
  }

  /** At the start everything is still unread. */
  lemma InitOwes<I, E>(c: Config<I, E>, e: E)
    ensures Owed(c, Init(c), e) == Count(c.Kept(c.source), e)
  {
    SumOfZeros(Debts(c, Init(c).workers, e));
  }

  // ---------------------------------------------------------------- channel discipline

  ghost predicate Inv<I, E>(c: Config<I, E>, s: State<I, E>) {
    && !s.panicked
    && |s.workers| == c.Workers()
    && |s.lines| <= c.capacity && |s.entries| <= c.capacity
    && (s.linesClosed <==> s.reader.Closed?)
    && (s.reader.Ended? || s.reader.Closed? ==> s.unread == [])
    && (s.scanErr <==> c.failed && (s.reader.Ended? || s.reader.Closed?))
    && (forall w :: 0 <= w < |s.workers| && s.workers[w].Exited? ==> s.linesClosed && s.lines == [])
    && (s.entriesClosed ==> AllExited(s))
    && (!s.collector.Ranging? ==> s.entriesClosed && s.entries == [])
    && (s.collector.Returned? ==> s.collector.failed == c.failed)
  }

  lemma InitInv<I, E>(c: Config<I, E>)
    ensures Inv(c, Init(c))
  {
  }

  predicate WorkerStep(step: Step) {
    step.TakeLine? || step.HandLine? || step.Parse? || step.PushEntry? || step.HandEntry? || step.Exit?
  }

  /** A worker step changes one worker; nobody else's exit is undone. */
  lemma WorkerStepKeepsInv<I, E>(c: Config<I, E>, s: State<I, E>, step: Step)
    requires Inv(c, s) && Enabled(c, s, step) && WorkerStep(step)
    ensures Inv(c, Apply(c, s, step))
  {
    var t := Apply(c, s, step);
    if step.PushEntry? && s.entriesClosed {
      assert false;
    } else {
      assert t.workers == s.workers[step.w := t.workers[step.w]];
    }
  }

  lemma StepKeepsInv<I, E>(c: Config<I, E>, s: State<I, E>, step: Step)
    requires Inv(c, s) && Enabled(c, s, step)
    ensures Inv(c, Apply(c, s, step))
  {
    if WorkerStep(step) {
      WorkerStepKeepsInv(c, s, step);
    } else {
      assert Apply(c, s, step).workers == s.workers;
      if step.Return? {
        assert s.workers[0].Exited?;
      }
    }
  }

  // ---------------------------------------------------------------- progress and termination

  /** A state that satisfies the invariant and has not returned is never stuck. */
  lemma Progress<I, E>(c: Config<I, E>, s: State<I, E>) returns (step: Step)
    requires Inv(c, s) && !Final(s)
    ensures Enabled(c, s, step)
  {
    if s.collector.Drained? { return Return; }
    if s.entries != [] { return TakeEntry; }
    if s.entriesClosed { return Drain; }
    if w :| 0 <= w < |s.workers| && s.workers[w].Sending? { return HandEntry(w); }
    if w :| 0 <= w < |s.workers| && s.workers[w].Parsing? { return Parse(w); }
    if AllExited(s) { return CloseEntries; }
    var w :| 0 <= w < |s.workers| && !s.workers[w].Exited?;
    if s.lines != [] { return TakeLine(w); }
    match s.reader {
      case Scanning => return if s.unread == [] then EndScan else Scan;
      case Holding(_) => return HandLine(w);
      case Ended => return CloseLines;
      case Closed => return Exit(w);
    }
  }

  function WorkerWeight<I, E>(w: Worker<I, E>): nat {
    match w case Exited => 0 case Idle => 1 case Sending(_) => 3 case Parsing(_) => 4
  }

  function Weights<I, E>(ws: seq<Worker<I, E>>): seq<int> {
    seq(|ws|, i requires 0 <= i < |ws| => WorkerWeight(ws[i]))
  }

  /** Work left: each item costs one for every goroutine it still has to pass. */
  function Measure<I, E>(s: State<I, E>): int {
    6 * |s.unread| +
    (match s.reader case Scanning => 2 case Holding(_) => 7 case Ended => 1 case Closed => 0) +
    4 * |s.lines| + Sum(Weights(s.workers)) + |s.entries| +
    (if s.entriesClosed then 0 else 1) +
    (match s.collector case Ranging => 2 case Drained => 1 case Returned(_) => 0)
  }

  lemma WeightsUpdate<I, E>(ws: seq<Worker<I, E>>, i: nat, w: Worker<I, E>)
    requires i < |ws|
    ensures Sum(Weights(ws[i := w])) == Sum(Weights(ws)) - WorkerWeight(ws[i]) + WorkerWeight(w)
  {
    assert Weights(ws[i := w]) == Weights(ws)[i := WorkerWeight(w)];
    SumUpdate(Weights(ws), i, WorkerWeight(w));
  }

  lemma WorkerMeasureFalls<I, E>(c: Config<I, E>, s: State<I, E>, step: Step)
    requires Inv(c, s) && Enabled(c, s, step) && WorkerStep(step)
    ensures Measure(Apply(c, s, step)) < Measure(s)
  {
    WeightsUpdate(s.workers, step.w, Apply(c, s, step).workers[step.w]);
    assert step.PushEntry? ==> !s.entriesClosed;
  }

  lemma MeasureFalls<I, E>(c: Config<I, E>, s: State<I, E>, step: Step)
    requires Inv(c, s) && Enabled(c, s, step)
    ensures 0 <= Measure(Apply(c, s, step)) < Measure(s)
  {
    if WorkerStep(step) {
      WorkerMeasureFalls(c, s, step);
    } else {
      StepKeepsInv(c, s, step);
    }
    SumOfNats(Weights(Apply(c, s, step).workers));
  }

  /** Invariant and step count along any run from any good state. */
  lemma {:induction false} RunKeepsInv<I, E>(c: Config<I, E>, s: State<I, E>, steps: seq<Step>)
    requires Inv(c, s) && IsRun(c, s, steps)
    ensures Inv(c, Exec(c, s, steps)) && |Exec(c, s, steps).workers| == |s.workers|
    ensures |steps| + Measure(Exec(c, s, steps)) <= Measure(s)
    decreases |steps|
  {
    if steps != [] {
      StepKeepsInv(c, s, steps[0]);
      MeasureFalls(c, s, steps[0]);
      RunKeepsInv(c, Apply(c, s, steps[0]), steps[1..]);
    }
  }

  /** How often an entry is due: the number of items that are not skipped and parse to it. */
  ghost function Hits<I, E>(c: Config<I, E>, items: seq<I>, e: E): nat {
    if items == [] then 0
    else (if !c.skip(items[0]) && c.parse(items[0]) == Entry(e) then 1 else 0) + Hits(c, items[1..], e)
  }

  lemma {:induction false} KeptHits<I, E>(c: Config<I, E>, items: seq<I>, e: E)
    ensures Count(c.Kept(items), e) == Hits(c, items, e)
  {
    if items != [] {
      KeptHits(c, items[1..], e);
    }
  }

  /** Safety of every interleaving: no send on, or second close of, a closed channel; both buffers
      stay within capacity, and the pool at its size; and nothing is doubled or invented on the way. */
  lemma EveryRunIsSafe<I, E(!new)>(c: Config<I, E>, steps: seq<Step>)
    requires IsRun(c, Init(c), steps)
    ensures !Exec(c, Init(c), steps).panicked
    ensures |Exec(c, Init(c), steps).lines| <= c.capacity && |Exec(c, Init(c), steps).entries| <= c.capacity
    ensures |Exec(c, Init(c), steps).workers| == if c.maxConcurrent > 0 then c.maxConcurrent else 1
    ensures multiset(Exec(c, Init(c), steps).collected) <= multiset(c.Kept(c.source))
    ensures forall e :: multiset(Exec(c, Init(c), steps).collected)[e] <= Hits(c, c.source, e)
  {
    InitInv(c);
    RunKeepsInv(c, Init(c), steps);
    var s := Exec(c, Init(c), steps);
    forall e: E
      ensures multiset(s.collected)[e] <= multiset(c.Kept(c.source))[e] == Hits(c, c.source, e)
    {
      KeptHits(c, c.source, e);
      InitOwes(c, e);
      RunKeepsOwed(c, Init(c), steps, e);
      SumOfNats(Debts(c, s.workers, e));
    }
  }

  /** Liveness of every interleaving: a run that has not returned can always be extended, and no
      run is longer than the work it started with. */
  lemma EveryRunEnds<I, E>(c: Config<I, E>, steps: seq<Step>)
    requires IsRun(c, Init(c), steps)
    ensures |steps| <= 6 * |c.source| + c.Workers() + 5
    ensures !Final(Exec(c, Init(c), steps)) ==> exists step :: Enabled(c, Exec(c, Init(c), steps), step)
  {
    InitInv(c);
    RunKeepsInv(c, Init(c), steps);
    var s := Exec(c, Init(c), steps);
    SumOfNats(Weights(s.workers));
    IdleWeights<I, E>(c.Workers());
    if !Final(s) {
      var step := Progress(c, s);
    }
  }

  lemma {:induction false} IdleWeights<I, E>(n: nat)
    ensures Sum(Weights(seq(n, _ => Worker<I, E>.Idle))) == n
  {
    var ones := Weights(seq(n, _ => Worker<I, E>.Idle));
    if n > 0 {
      IdleWeights<I, E>(n - 1);
      assert ones[1..] == Weights(seq(n - 1, _ => Worker<I, E>.Idle));
    }
  }

  /** What the caller gets when it returns, in every interleaving: each entry exactly as often as an
      item that is not skipped parses to it, in some order, and the reader's own error; by then the
      reader and all workers have finished, so the error variable is read after its last write. */
  lemma EveryReturnDelivers<I, E(!new)>(c: Config<I, E>, steps: seq<Step>)
    requires IsRun(c, Init(c), steps) && Final(Exec(c, Init(c), steps))
    ensures
      var s := Exec(c, Init(c), steps);
      && (forall e :: multiset(s.collected)[e] == Hits(c, c.source, e))
      && multiset(s.collected) == multiset(c.Kept(c.source))
      && s.collector == Returned(c.failed)
      && s.reader.Closed? && AllExited(s)
  {
    InitInv(c);
    RunKeepsInv(c, Init(c), steps);
    var s := Exec(c, Init(c), steps);
    assert s.workers[0].Exited?;
    forall e: E
      ensures multiset(s.collected)[e] == multiset(c.Kept(c.source))[e] == Hits(c, c.source, e)
    {
      InitOwes(c, e);
      RunKeepsOwed(c, Init(c), steps, e);
      SumOfZeros(Debts(c, s.workers, e));
      KeptHits(c, c.source, e);
    }
  }
}
