/** Any number of containers calling RegisterAndCount over one heartbeat store.  A call is a series
    of steps: begin, one put per chunk, then a look at the lease, or the start and the end of a
    query.  Steps of different containers interleave in any way, with failures anywhere.  Calls of
    one container are serial.  A call's time is the one its licence check is evaluated at, which may
    be taken from an old message: a container's times may run backwards, and those of different
    containers have nothing to do with each other. */
module RegistrySystem {
  import opened Seqs
  import opened RegistryModel
  import opened RegistryQuery

  /** How far a call has come.  `published` is the length of the store when its last put was done,
      None if a put failed; `asked` that length when its query started. */
  datatype Pending =
    | Idle
    | Publishing(req: Request, order: seq<string>, done: nat)
    | Evaluating(req: Request, published: Option<nat>)
    | Fetching(req: Request, published: Option<nat>, asked: nat)

  /** `now` is the time of the latest call, `latest` the greatest time it has published at. */
  datatype Container = Container(cache: Cache, now: int, latest: Option<int>, pending: Pending)

  function Later(latest: Option<int>, now: int): int {
    if latest.Some? && latest.value > now then latest.value else now
  }

  datatype Ending = PutDenied | FromLease | Refreshed(upto: nat, active: set<string>) | NotRefreshed

  /** A finished call.  `latest` is the greatest time its container had published at, or its own if
      that is greater; `known` is the known set it left behind, `upto` the length of the store when its
      query ended. */
  datatype Entry = Entry(writer: nat, req: Request, latest: int, published: Option<nat>, asked: nat, ending: Ending,
                         count: nat, known: set<string>)

  datatype System = System(store: seq<Beat>, containers: seq<Container>, log: seq<Entry>)

  datatype Step =
    | Begin(w: nat, req: Request, order: seq<string>)
    | Put(w: nat)
    | PutFails(w: nat, failure: Failure)
    | UseLease(w: nat)
    | StartFetch(w: nat)
    | EndFetch(w: nat, fetch: Fetch)

  /** One container per clock. */
  function Init(clocks: seq<int>): System {
    var containers := seq(|clocks|, w requires 0 <= w < |clocks| =>
      Container(Cache(0, map[], map[]), clocks[w], None, Idle));
    System([], containers, [])
  }

  /** The query of a request. */
  function SpanFor(settings: Settings, req: Request, before: seq<Beat>, after: seq<Beat>): Span {
    Span(before, after, req.key, req.now - settings.slidingWindow, req.now)
  }

  ghost predicate Enabled(settings: Settings, sys: System, step: Step) {
    && step.w < |sys.containers|
    && var c := sys.containers[step.w];
       match step
       case Begin(_, req, order) =>
         && c.pending.Idle? && NulFree(req.key)
         && Enumerates(order, Due(c.cache, req.key, req.inputs, req.now))
       case Put(_) => c.pending.Publishing? && c.pending.done < |c.pending.order|
       case PutFails(_, _) => c.pending.Publishing? && c.pending.done < |c.pending.order|
       case UseLease(_) => c.pending.Evaluating? && LeaseValid(c.cache, c.pending.req.key, c.pending.req.now)
       case StartFetch(_) => c.pending.Evaluating? && !LeaseValid(c.cache, c.pending.req.key, c.pending.req.now)
       case EndFetch(_, fetch) =>
         && c.pending.Fetching? && c.pending.asked <= |sys.store|
         && (fetch.Fetched? ==>
               SpanFor(settings, c.pending.req, sys.store[..c.pending.asked], sys.store).Admits(fetch.active))
  }

  function ChunkEnd(p: Pending): nat
    requires p.Publishing? && p.done < |p.order|
  {
    if p.done + CHUNK > |p.order| then |p.order| else p.done + CHUNK
  }

  function Chunk(p: Pending): seq<string>
    requires p.Publishing? && p.done < |p.order|
  {
    p.order[p.done..ChunkEnd(p)]
  }

  function Update(sys: System, w: nat, c: Container): System
    requires w < |sys.containers|
  {
    sys.(containers := sys.containers[w := c])
  }

  /** The end of a call that evaluates. */
  function Finish(settings: Settings, sys: System, w: nat, published: Option<nat>, asked: nat, ending: Ending,
      fetch: Fetch): System
    requires w < |sys.containers| && !sys.containers[w].pending.Idle?
  {
    var c := sys.containers[w];
    var req := c.pending.req;
    var a := Evaluate(settings, c.cache, req.key, req.inputs, req.now, fetch);
    Update(sys, w, Container(a.cache, c.now, c.latest, Idle)).(
      log := sys.log + [Entry(w, req, Later(c.latest, req.now), published, asked, ending, a.count,
                              a.cache.leases[req.key].known)])
  }

  function Apply(settings: Settings, sys: System, step: Step): System
    requires Enabled(settings, sys, step)
  {
    var w, c := step.w, sys.containers[step.w];
    var p := c.pending;
    match step
    case Begin(_, req, order) =>
      Update(sys, w, Container(c.cache, req.now, c.latest,
                               if order == [] then Evaluating(req, Some(|sys.store|)) else Publishing(req, order, 0)))
    case Put(_) =>
      var store := sys.store + BeatsOf(p.req.key, Chunk(p), p.req.now, w);
      Update(sys, w, Container(Mark(c.cache, p.req.key, Chunk(p), p.req.now), c.now, Some(Later(c.latest, p.req.now)),
                               if ChunkEnd(p) == |p.order| then Evaluating(p.req, Some(|store|))
                               else p.(done := ChunkEnd(p)))).(store := store)
    case PutFails(_, failure) =>
      if failure.AccessDenied? then
        Update(sys, w, c.(pending := Idle)).(
          log := sys.log + [Entry(w, p.req, Later(c.latest, p.req.now), None, |sys.store|, PutDenied, 0, {})])
      else Update(sys, w, c.(pending := Evaluating(p.req, None)))
    case UseLease(_) => Finish(settings, sys, w, p.published, |sys.store|, FromLease, Fetched({}))
    case StartFetch(_) => Update(sys, w, c.(pending := Fetching(p.req, p.published, |sys.store|)))
    case EndFetch(_, fetch) =>
      Finish(settings, sys, w, p.published, p.asked,
             if fetch.Fetched? then Refreshed(|sys.store|, fetch.active) else NotRefreshed, fetch)
  }

  ghost predicate IsRun(settings: Settings, sys: System, steps: seq<Step>)
    decreases |steps|
  {
    steps == [] || (Enabled(settings, sys, steps[0]) && IsRun(settings, Apply(settings, sys, steps[0]), steps[1..]))
  }

  function Exec(settings: Settings, sys: System, steps: seq<Step>): System
    requires IsRun(settings, sys, steps)
    decreases |steps|
  {
    if steps == [] then sys else Exec(settings, Apply(settings, sys, steps[0]), steps[1..])
  }

  // ---------------------------------------------------------------- heartbeat bookkeeping

  predicate BeatFits(sys: System, b: Beat) {
    && b.writer < |sys.containers| && NulFree(b.key)
    && sys.containers[b.writer].latest.Some? && b.time <= sys.containers[b.writer].latest.value
  }

  predicate Matches(b: Beat, writer: nat, slot: string) {
    b.writer == writer && HbKey(b.key, b.arn) == slot
  }

  predicate HasBeat(store: seq<Beat>, writer: nat, slot: string, time: int) {
    exists i :: 0 <= i < |store| && Matches(store[i], writer, slot) && store[i].time == time
  }

  /** No stored heartbeat is younger than its writer remembers. */
  predicate Remembered(sys: System, b: Beat) {
    && b.writer < |sys.containers|
    && var slots := sys.containers[b.writer].cache.lastHeartbeats;
       HbKey(b.key, b.arn) in slots && b.time <= slots[HbKey(b.key, b.arn)]
  }

  predicate BeatsFit(sys: System) {
    forall i :: 0 <= i < |sys.store| ==> BeatFits(sys, sys.store[i]) && Remembered(sys, sys.store[i])
  }

  /** Every recorded last heartbeat exists in the shared store. */
  predicate SlotsFit(sys: System) {
    forall w, h :: 0 <= w < |sys.containers| && h in sys.containers[w].cache.lastHeartbeats ==>
      HasBeat(sys.store, w, h, sys.containers[w].cache.lastHeartbeats[h])
  }

  predicate SamePair(a: Beat, b: Beat) {
    a.key == b.key && a.arn == b.arn && a.writer == b.writer
  }

  /** Two stored heartbeats of one pair by one container are at least a minute apart. */
  predicate Spaced(store: seq<Beat>) {
    forall i, j :: 0 <= i < j < |store| && SamePair(store[i], store[j]) ==> store[j].time - store[i].time >= MINUTE
  }

  /** The container remembers a heartbeat of the pair less than a minute old. */
  predicate Recent(cache: Cache, key: string, arn: string, now: int) {
    HbKey(key, arn) in cache.lastHeartbeats && now - cache.lastHeartbeats[HbKey(key, arn)] < MINUTE
  }

  predicate SeenIn(store: seq<Beat>, key: string, arn: string, lo: int, hi: int) {
    exists b :: b in store && b.key == key && b.arn == arn && lo < b.time <= hi
  }

  /** What is left to publish is still due, and everything else asked about is recent. */
  ghost predicate ContainerFits(c: Container) {
    && CountsFit(c.cache)
    && (!c.pending.Idle? ==> NulFree(c.pending.req.key) && c.pending.req.now == c.now)
    && (c.pending.Publishing? ==>
          var p := c.pending;
          && p.done < |p.order|
          && (forall i, j :: 0 <= i < j < |p.order| ==> p.order[i] != p.order[j])
          && (forall i :: p.done <= i < |p.order| ==> p.order[i] in Due(c.cache, p.req.key, p.req.inputs, c.now))
          && (forall a :: a in p.req.inputs && a !in p.order[p.done..] ==> Recent(c.cache, p.req.key, a, c.now)))
    && (c.pending.Fetching? ==> !LeaseValid(c.cache, c.pending.req.key, c.now))
  }

  /** All the request's resources have a recent heartbeat among the first n stored. */
  predicate Announced(store: seq<Beat>, req: Request, latest: int, n: nat) {
    n <= |store| && forall a :: a in req.inputs ==> SeenIn(store[..n], req.key, a, req.now - MINUTE, latest)
  }

  ghost predicate PendingFits(sys: System, w: nat)
    requires w < |sys.containers|
  {
    var p := sys.containers[w].pending;
    && ((p.Evaluating? || p.Fetching?) && p.published.Some? ==>
          Announced(sys.store, p.req, Later(sys.containers[w].latest, p.req.now), p.published.value))
    && (p.Fetching? ==>
          && p.asked <= |sys.store| && (p.published.Some? ==> p.published.value <= p.asked)
          && (forall j :: 0 <= j < |sys.log| && sys.log[j].writer == w ==> sys.log[j].asked <= p.asked))
  }

  ghost predicate ContainersFit(sys: System) {
    forall w :: 0 <= w < |sys.containers| ==> ContainerFits(sys.containers[w]) && PendingFits(sys, w)
  }

  lemma PutSlots(cache: Cache, key: string, chunk: seq<string>, now: int, h: string)
    ensures
      var after := Mark(cache, key, chunk, now).lastHeartbeats;
      var marked := exists i :: 0 <= i < |chunk| && HbKey(key, chunk[i]) == h;
      && (h in after <==> h in cache.lastHeartbeats || marked)
      && (h in after ==> after[h] == if marked then now else cache.lastHeartbeats[h])
  {
    MarkEffect(cache, key, chunk, now, h);
  }

  lemma SeenInMore(store: seq<Beat>, more: seq<Beat>, key: string, arn: string, lo: int, hi: int)
    requires store <= more && SeenIn(store, key, arn, lo, hi)
    ensures SeenIn(more, key, arn, lo, hi)
  {
    var b :| b in store && b.key == key && b.arn == arn && lo < b.time <= hi;
    assert b in more;
  }

  lemma AnnouncedInMore(store: seq<Beat>, more: seq<Beat>, req: Request, latest: int, n: nat)
    requires store <= more && Announced(store, req, latest, n)
    ensures Announced(more, req, latest, n)
  {
    assert more[..n] == store[..n];
  }

  lemma RememberedIsStored(sys: System, w: nat, key: string, a: string)
    requires BeatsFit(sys) && SlotsFit(sys) && w < |sys.containers| && NulFree(key)
    requires HbKey(key, a) in sys.containers[w].cache.lastHeartbeats
    ensures exists b :: b in sys.store && b.key == key && b.arn == a && b.writer == w &&
                        b.time == sys.containers[w].cache.lastHeartbeats[HbKey(key, a)]
  {
    var slot := HbKey(key, a);
    var last := sys.containers[w].cache.lastHeartbeats[slot];
    assert HasBeat(sys.store, w, slot, last);
    var i :| 0 <= i < |sys.store| && Matches(sys.store[i], w, slot) && sys.store[i].time == last;
    assert BeatFits(sys, sys.store[i]);
    HbKeyInjective(sys.store[i].key, sys.store[i].arn, key, a);
  }

  /** A recent slot is a recent heartbeat in the store. */
  lemma RecentIsSeen(sys: System, w: nat, key: string, a: string)
    requires BeatsFit(sys) && SlotsFit(sys) && w < |sys.containers| && NulFree(key)
    requires Recent(sys.containers[w].cache, key, a, sys.containers[w].now)
    ensures
      var c := sys.containers[w];
      SeenIn(sys.store, key, a, c.now - MINUTE, Later(c.latest, c.now))
  {
    RememberedIsStored(sys, w, key, a);
    var b :| b in sys.store && b.key == key && b.arn == a && b.writer == w &&
             b.time == sys.containers[w].cache.lastHeartbeats[HbKey(key, a)];
    assert BeatFits(sys, b);
  }

  lemma AllRecentIsAnnounced(sys: System, w: nat, req: Request)
    requires BeatsFit(sys) && SlotsFit(sys) && w < |sys.containers| && NulFree(req.key)
    requires req.now == sys.containers[w].now
    requires forall a :: a in req.inputs ==> Recent(sys.containers[w].cache, req.key, a, req.now)
    ensures Announced(sys.store, req, Later(sys.containers[w].latest, req.now), |sys.store|)
  {
    assert sys.store[..|sys.store|] == sys.store;
    forall a | a in req.inputs
      ensures SeenIn(sys.store, req.key, a, req.now - MINUTE, Later(sys.containers[w].latest, req.now))
    {
      RecentIsSeen(sys, w, req.key, a);
    }
  }

  // ---------------------------------------------------------------- finished calls

  /** What is true of a finished call for ever after. */
  ghost predicate EntryFits(settings: Settings, store: seq<Beat>, e: Entry) {
    && NulFree(e.req.key) && e.asked <= |store|
    && (forall i :: 0 <= i < e.asked && store[i].writer == e.writer ==> store[i].time <= e.latest)
    && (e.published.Some? ==> e.published.value <= e.asked && Announced(store, e.req, e.latest, e.published.value))
    && (if e.ending.PutDenied? then e.count == 0 else e.count == |e.known| && e.req.inputs <= e.known)
    && (e.ending.Refreshed? ==>
          && e.asked <= e.ending.upto <= |store|
          && SpanFor(settings, e.req, store[..e.asked], store[..e.ending.upto]).Admits(e.ending.active)
          && e.known == e.ending.active + e.req.inputs)
  }

  ghost predicate LogFits(settings: Settings, sys: System) {
    && (forall j :: 0 <= j < |sys.log| ==>
          && EntryFits(settings, sys.store, sys.log[j])
          && sys.log[j].writer < |sys.containers|)
    && (forall j, k :: 0 <= j < k < |sys.log| && sys.log[j].writer == sys.log[k].writer ==>
          sys.log[j].asked <= sys.log[k].asked)
  }

  lemma EntryFitsMore(settings: Settings, store: seq<Beat>, more: seq<Beat>, e: Entry)
    requires store <= more && EntryFits(settings, store, e)
    ensures EntryFits(settings, more, e)
  {
    if e.published.Some? {
      AnnouncedInMore(store, more, e.req, e.latest, e.published.value);
    }
    assert more[..e.asked] == store[..e.asked];
    if e.ending.Refreshed? {
      assert more[..e.ending.upto] == store[..e.ending.upto];
    }
  }

  /** Heartbeat i was published by the finished call j, before that call evaluated. */
  predicate LoggedBy(sys: System, i: nat, j: nat) {
    && i < |sys.store| && j < |sys.log| && i < sys.log[j].asked
    && sys.log[j].writer == sys.store[i].writer && sys.log[j].req.key == sys.store[i].key
    && sys.store[i].arn in sys.log[j].req.inputs
  }

  /** Heartbeat i was published by the call its writer is in the middle of. */
  predicate InProgress(sys: System, i: nat) {
    && i < |sys.store| && sys.store[i].writer < |sys.containers|
    && var p := sys.containers[sys.store[i].writer].pending;
       && !p.Idle? && p.req.key == sys.store[i].key && sys.store[i].arn in p.req.inputs
       && (p.Fetching? ==> i < p.asked)
  }

  ghost predicate Owned(sys: System, i: nat) {
    InProgress(sys, i) || exists j: nat :: LoggedBy(sys, i, j)
  }

  ghost predicate AllOwned(sys: System) {
    forall i: nat :: i < |sys.store| ==> Owned(sys, i)
  }

  // ---------------------------------------------------------------- leases

  /** The inputs one container evaluated under one key from log position r on. */
  function InputsSince(log: seq<Entry>, r: nat, writer: nat, key: string): set<string> {
    set i, a | r <= i < |log| && log[i].writer == writer && log[i].req.key == key && !log[i].ending.PutDenied? &&
               a in log[i].req.inputs :: a
  }

  function Added(e: Entry, writer: nat, key: string): set<string> {
    if e.writer == writer && e.req.key == key && !e.ending.PutDenied? then e.req.inputs else {}
  }

  lemma InputsSnoc(log: seq<Entry>, e: Entry, r: nat, writer: nat, key: string)
    requires r <= |log|
    ensures InputsSince(log + [e], r, writer, key) == InputsSince(log, r, writer, key) + Added(e, writer, key)
  {
    var longer := log + [e];
    forall a
      ensures a in InputsSince(longer, r, writer, key) <==>
                a in InputsSince(log, r, writer, key) || a in Added(e, writer, key)
    {
      if a in InputsSince(log, r, writer, key) {
        var i :| r <= i < |log| && log[i].writer == writer && log[i].req.key == key && !log[i].ending.PutDenied? &&
                 a in log[i].req.inputs;
        assert longer[i] == log[i];
      }
      if a in Added(e, writer, key) {
        assert longer[|log|] == e;
      }
    }
  }

  /** Log entry r is the refresh a lease rests on: its known set is what that query found plus the
      container's own inputs since. */
  predicate Origin(settings: Settings, sys: System, w: nat, k: string, r: nat)
    requires w < |sys.containers| && k in sys.containers[w].cache.leases
  {
    var lease := sys.containers[w].cache.leases[k];
    && r < |sys.log| && sys.log[r].writer == w && sys.log[r].req.key == k && sys.log[r].ending.Refreshed?
    && lease.expires == Some(sys.log[r].req.now + settings.leaseDuration)
    && lease.known == sys.log[r].ending.active + InputsSince(sys.log, r, w, k)
  }

  ghost predicate HasOrigin(settings: Settings, sys: System, w: nat, k: string)
    requires w < |sys.containers| && k in sys.containers[w].cache.leases
  {
    exists r: nat :: Origin(settings, sys, w, k, r)
  }

  ghost predicate LeasesFit(settings: Settings, sys: System) {
    forall w, k | 0 <= w < |sys.containers| && k in sys.containers[w].cache.leases ::
      sys.containers[w].cache.leases[k].expires.Some? ==> HasOrigin(settings, sys, w, k)
  }

  ghost predicate Inv(settings: Settings, sys: System) {
    && BeatsFit(sys) && SlotsFit(sys) && Spaced(sys.store) && ContainersFit(sys)
    && LogFits(settings, sys) && AllOwned(sys) && LeasesFit(settings, sys)
  }

  // ---------------------------------------------------------------- steps that only move a call on

  /** Neither the store, nor the log, nor any cache changes. */
  predicate Quiet(sys: System, next: System, w: nat) {
    && w < |sys.containers| == |next.containers| && next == Update(sys, w, next.containers[w])
    && next.containers[w].cache == sys.containers[w].cache && next.containers[w].latest == sys.containers[w].latest
  }

  lemma QuietKeepsHeartbeats(sys: System, next: System, w: nat)
    requires Quiet(sys, next, w) && BeatsFit(sys) && SlotsFit(sys)
    ensures BeatsFit(next) && SlotsFit(next)
  {
    forall i | 0 <= i < |next.store|
      ensures BeatFits(next, next.store[i]) && Remembered(next, next.store[i])
    {
      assert BeatFits(sys, sys.store[i]) && Remembered(sys, sys.store[i]);
    }
  }

  lemma QuietKeepsLeases(settings: Settings, sys: System, next: System, w: nat)
    requires Quiet(sys, next, w) && LeasesFit(settings, sys)
    ensures LeasesFit(settings, next)
  {
    forall v, k | 0 <= v < |next.containers| && k in next.containers[v].cache.leases
      ensures next.containers[v].cache.leases[k].expires.Some? ==> HasOrigin(settings, next, v, k)
    {
      if next.containers[v].cache.leases[k].expires.Some? {
        assert HasOrigin(settings, sys, v, k);
        var r: nat :| Origin(settings, sys, v, k, r);
        assert Origin(settings, next, v, k, r);
      }
    }
  }

  lemma QuietKeepsOwners(sys: System, next: System, w: nat)
    requires Quiet(sys, next, w) && AllOwned(sys)
    requires forall i: nat :: i < |sys.store| && sys.store[i].writer == w && InProgress(sys, i) ==> InProgress(next, i)
    ensures AllOwned(next)
  {
    forall i: nat | i < |next.store|
      ensures Owned(next, i)
    {
      assert Owned(sys, i);
      if !InProgress(sys, i) {
        var j: nat :| LoggedBy(sys, i, j);
        assert LoggedBy(next, i, j);
      }
    }
  }

  lemma QuietKeepsInv(settings: Settings, sys: System, next: System, w: nat)
    requires Inv(settings, sys) && Quiet(sys, next, w) && ContainerFits(next.containers[w]) && PendingFits(next, w)
    requires forall i: nat :: i < |sys.store| && sys.store[i].writer == w && InProgress(sys, i) ==> InProgress(next, i)
    ensures Inv(settings, next)
  {
    QuietKeepsHeartbeats(sys, next, w);
    QuietKeepsLeases(settings, sys, next, w);
    QuietKeepsOwners(sys, next, w);
    forall v | 0 <= v < |next.containers|
      ensures ContainerFits(next.containers[v]) && PendingFits(next, v)
    {
      assert ContainerFits(sys.containers[v]) && PendingFits(sys, v);
    }
    assert LogFits(settings, next);
  }

  lemma BeginKeepsInv(settings: Settings, sys: System, step: Step)
    requires Inv(settings, sys) && step.Begin? && Enabled(settings, sys, step)
    ensures Inv(settings, Apply(settings, sys, step))
  {
    var w, c, req := step.w, sys.containers[step.w], step.req;
    var next := Apply(settings, sys, step);
    assert ContainerFits(c) && PendingFits(sys, w);
    forall a | a in req.inputs && a !in step.order
      ensures Recent(c.cache, req.key, a, req.now)
    {
      assert a !in Due(c.cache, req.key, req.inputs, req.now);
    }
    QuietKeepsHeartbeats(sys, next, w);
    if step.order == [] {
      AllRecentIsAnnounced(next, w, req);
    } else {
      assert step.order[0..] == step.order;
    }
    QuietKeepsInv(settings, sys, next, w);
  }

  lemma StartFetchKeepsInv(settings: Settings, sys: System, w: nat)
    requires Inv(settings, sys) && Enabled(settings, sys, StartFetch(w))
    ensures Inv(settings, Apply(settings, sys, StartFetch(w)))
  {
    assert ContainerFits(sys.containers[w]) && PendingFits(sys, w);
    QuietKeepsInv(settings, sys, Apply(settings, sys, StartFetch(w)), w);
  }

  lemma PutUnavailableKeepsInv(settings: Settings, sys: System, w: nat)
    requires Inv(settings, sys) && Enabled(settings, sys, PutFails(w, Unavailable))
    ensures Inv(settings, Apply(settings, sys, PutFails(w, Unavailable)))
  {
    assert ContainerFits(sys.containers[w]) && PendingFits(sys, w);
    QuietKeepsInv(settings, sys, Apply(settings, sys, PutFails(w, Unavailable)), w);
  }

  // ---------------------------------------------------------------- a put that succeeds

  lemma PutKeepsBeats(settings: Settings, sys: System, w: nat)
    requires BeatsFit(sys) && ContainersFit(sys) && Enabled(settings, sys, Put(w))
    ensures BeatsFit(Apply(settings, sys, Put(w)))
  {
    var c, next := sys.containers[w], Apply(settings, sys, Put(w));
    var chunk := Chunk(c.pending);
    assert ContainerFits(c);
    forall i | 0 <= i < |next.store|
      ensures BeatFits(next, next.store[i]) && Remembered(next, next.store[i])
    {
      var b := next.store[i];
      PutSlots(c.cache, c.pending.req.key, chunk, c.now, HbKey(b.key, b.arn));
      if i < |sys.store| {
        assert BeatFits(sys, sys.store[i]) && Remembered(sys, sys.store[i]);
      } else {
        assert HbKey(c.pending.req.key, chunk[i - |sys.store|]) == HbKey(b.key, b.arn);
      }
    }
  }

  lemma PutKeepsSlots(settings: Settings, sys: System, w: nat)
    requires SlotsFit(sys) && ContainersFit(sys) && Enabled(settings, sys, Put(w))
    ensures SlotsFit(Apply(settings, sys, Put(w)))
  {
    var c, next := sys.containers[w], Apply(settings, sys, Put(w));
    var key, chunk := c.pending.req.key, Chunk(c.pending);
    assert ContainerFits(c);
    forall v, h | 0 <= v < |next.containers| && h in next.containers[v].cache.lastHeartbeats
      ensures HasBeat(next.store, v, h, next.containers[v].cache.lastHeartbeats[h])
    {
      PutSlots(c.cache, key, chunk, c.now, h);
      if i :| v == w && 0 <= i < |chunk| && HbKey(key, chunk[i]) == h {
        assert Matches(next.store[|sys.store| + i], v, h);
      } else {
        var last := sys.containers[v].cache.lastHeartbeats[h];
        assert HasBeat(sys.store, v, h, last);
        var j :| 0 <= j < |sys.store| && Matches(sys.store[j], v, h) && sys.store[j].time == last;
        assert Matches(next.store[j], v, h);
      }
    }
  }

  lemma PutKeepsSpacing(settings: Settings, sys: System, w: nat)
    requires BeatsFit(sys) && ContainersFit(sys) && Spaced(sys.store) && Enabled(settings, sys, Put(w))
    ensures Spaced(Apply(settings, sys, Put(w)).store)
  {
    var c, next := sys.containers[w], Apply(settings, sys, Put(w));
    var p := c.pending;
    assert ContainerFits(c);
    forall i, j | 0 <= i < j < |next.store| && SamePair(next.store[i], next.store[j])
      ensures next.store[j].time - next.store[i].time >= MINUTE
    {
      if j >= |sys.store| {
        assert next.store[j].arn == p.order[p.done + j - |sys.store|];
        if i < |sys.store| {
          assert Remembered(sys, sys.store[i]);
        }
      } else {
        assert next.store[i] == sys.store[i] && next.store[j] == sys.store[j];
      }
    }
  }

  /** Marking a chunk leaves the rest of the order due, and everything marked or recent recent. */
  lemma PutMarksRight(c: Container)
    requires ContainerFits(c) && c.pending.Publishing?
    ensures
      var p := c.pending;
      var marked := Mark(c.cache, p.req.key, Chunk(p), c.now);
      && (forall i :: ChunkEnd(p) <= i < |p.order| ==> p.order[i] in Due(marked, p.req.key, p.req.inputs, c.now))
      && (forall a :: a in p.req.inputs && a !in p.order[ChunkEnd(p)..] ==> Recent(marked, p.req.key, a, c.now))
  {
    var p := c.pending;
    var key, chunk, marked := p.req.key, Chunk(p), Mark(c.cache, p.req.key, Chunk(p), c.now);
    forall i | ChunkEnd(p) <= i < |p.order|
      ensures p.order[i] in Due(marked, key, p.req.inputs, c.now)
    {
      PutSlots(c.cache, key, chunk, c.now, HbKey(key, p.order[i]));
      forall n | 0 <= n < |chunk|
        ensures HbKey(key, chunk[n]) != HbKey(key, p.order[i])
      {
        assert chunk[n] == p.order[p.done + n] != p.order[i];
        if HbKey(key, chunk[n]) == HbKey(key, p.order[i]) {
          HbKeyInjective(key, chunk[n], key, p.order[i]);
        }
      }
    }
    forall a | a in p.req.inputs && a !in p.order[ChunkEnd(p)..]
      ensures Recent(marked, key, a, c.now)
    {
      PutSlots(c.cache, key, chunk, c.now, HbKey(key, a));
      if a in p.order[p.done..] {
        var n :| 0 <= n < |p.order| - p.done && p.order[p.done..][n] == a;
        assert p.order[p.done + n] == a;
        assert p.order[p.done..] == chunk + p.order[ChunkEnd(p)..];
        assert chunk[n] == a;
      }
    }
  }

  lemma PutKeepsContainers(settings: Settings, sys: System, w: nat)
    requires BeatsFit(sys) && SlotsFit(sys) && ContainersFit(sys) && Enabled(settings, sys, Put(w))
    ensures ContainersFit(Apply(settings, sys, Put(w)))
  {
    var c, next := sys.containers[w], Apply(settings, sys, Put(w));
    var p := c.pending;
    assert ContainerFits(c) && PendingFits(sys, w);
    PutMarksRight(c);
    MarkLeavesLeases(c.cache, p.req.key, Chunk(p), c.now);
    PutKeepsBeats(settings, sys, w);
    PutKeepsSlots(settings, sys, w);
    if ChunkEnd(p) == |p.order| {
      AllRecentIsAnnounced(next, w, p.req);
    }
    forall v | 0 <= v < |next.containers|
      ensures ContainerFits(next.containers[v]) && PendingFits(next, v)
    {
      assert ContainerFits(sys.containers[v]) && PendingFits(sys, v);
      var q := sys.containers[v].pending;
      if v != w && (q.Evaluating? || q.Fetching?) && q.published.Some? {
        AnnouncedInMore(sys.store, next.store, q.req, Later(sys.containers[v].latest, q.req.now), q.published.value);
      }
    }
  }

  lemma PutKeepsLog(settings: Settings, sys: System, w: nat)
    requires LogFits(settings, sys) && Enabled(settings, sys, Put(w))
    ensures LogFits(settings, Apply(settings, sys, Put(w)))
  {
    var next := Apply(settings, sys, Put(w));
    forall j | 0 <= j < |next.log|
      ensures EntryFits(settings, next.store, next.log[j])
    {
      EntryFitsMore(settings, sys.store, next.store, sys.log[j]);
    }
  }

  lemma PutKeepsOwners(settings: Settings, sys: System, w: nat)
    requires ContainersFit(sys) && AllOwned(sys) && Enabled(settings, sys, Put(w))
    ensures AllOwned(Apply(settings, sys, Put(w)))
  {
    var c, next := sys.containers[w], Apply(settings, sys, Put(w));
    var p := c.pending;
    assert ContainerFits(c);
    forall i: nat | i < |next.store|
      ensures Owned(next, i)
    {
      if i < |sys.store| {
        assert Owned(sys, i);
        if InProgress(sys, i) {
          assert InProgress(next, i);
        } else {
          var j: nat :| LoggedBy(sys, i, j);
          assert LoggedBy(next, i, j);
        }
      } else {
        assert p.order[p.done + i - |sys.store|] in Due(c.cache, p.req.key, p.req.inputs, c.now);
        assert InProgress(next, i);
      }
    }
  }

  lemma PutKeepsLeases(settings: Settings, sys: System, w: nat)
    requires LeasesFit(settings, sys) && Enabled(settings, sys, Put(w))
    ensures LeasesFit(settings, Apply(settings, sys, Put(w)))
  {
    var c, next := sys.containers[w], Apply(settings, sys, Put(w));
    MarkLeavesLeases(c.cache, c.pending.req.key, Chunk(c.pending), c.pending.req.now);
    forall v, k | 0 <= v < |next.containers| && k in next.containers[v].cache.leases
      ensures next.containers[v].cache.leases[k].expires.Some? ==> HasOrigin(settings, next, v, k)
    {
      if next.containers[v].cache.leases[k].expires.Some? {
        assert HasOrigin(settings, sys, v, k);
        var r: nat :| Origin(settings, sys, v, k, r);
        assert Origin(settings, next, v, k, r);
      }
    }
  }

  lemma PutKeepsInv(settings: Settings, sys: System, w: nat)
    requires Inv(settings, sys) && Enabled(settings, sys, Put(w))
    ensures Inv(settings, Apply(settings, sys, Put(w)))
  {
    PutKeepsBeats(settings, sys, w);
    PutKeepsSlots(settings, sys, w);
    PutKeepsSpacing(settings, sys, w);
    PutKeepsContainers(settings, sys, w);
    PutKeepsLog(settings, sys, w);
    PutKeepsOwners(settings, sys, w);
    PutKeepsLeases(settings, sys, w);
  }

  // ---------------------------------------------------------------- steps that end a call

  /** A finished call replaces its own lease, by refresh or by adding its inputs, and no other. */
  ghost predicate LeaseFollows(settings: Settings, before: Cache, after: Cache, e: Entry) {
    && after.lastHeartbeats == before.lastHeartbeats
    && (forall k :: k != e.req.key || e.ending.PutDenied? ==>
          (k in after.leases <==> k in before.leases) && (k in before.leases ==> after.leases[k] == before.leases[k]))
    && (!e.ending.PutDenied? ==>
          && e.req.key in after.leases
          && var lease := after.leases[e.req.key];
             if e.ending.Refreshed? then
               && lease.expires == Some(e.req.now + settings.leaseDuration)
               && lease.known == e.ending.active + e.req.inputs
             else if e.req.key in before.leases then
               && lease.expires == before.leases[e.req.key].expires
               && lease.known == before.leases[e.req.key].known + e.req.inputs
             else lease.expires == None)
  }

  /** The call of container w ends and is logged as e. */
  ghost predicate Ends(settings: Settings, sys: System, next: System, w: nat, e: Entry) {
    && w < |sys.containers| == |next.containers| && !sys.containers[w].pending.Idle?
    && next == Update(sys, w, sys.containers[w].(cache := next.containers[w].cache, pending := Idle)).(
                 log := sys.log + [e])
    && e.writer == w && e.req == sys.containers[w].pending.req && e.req.now == sys.containers[w].now
    && e.latest == Later(sys.containers[w].latest, e.req.now)
    && EntryFits(settings, sys.store, e)
    && CountsFit(next.containers[w].cache)
    && LeaseFollows(settings, sys.containers[w].cache, next.containers[w].cache, e)
    && (forall j :: 0 <= j < |sys.log| && sys.log[j].writer == w ==> sys.log[j].asked <= e.asked)
    && (forall i: nat :: i < |sys.store| && sys.store[i].writer == w && InProgress(sys, i) ==> i < e.asked)
  }

  lemma EndKeepsHeartbeats(settings: Settings, sys: System, next: System, w: nat, e: Entry)
    requires Ends(settings, sys, next, w, e) && BeatsFit(sys) && SlotsFit(sys)
    ensures BeatsFit(next) && SlotsFit(next)
  {
    forall i | 0 <= i < |next.store|
      ensures BeatFits(next, next.store[i]) && Remembered(next, next.store[i])
    {
      assert BeatFits(sys, sys.store[i]) && Remembered(sys, sys.store[i]);
    }
  }

  lemma EndKeepsContainers(settings: Settings, sys: System, next: System, w: nat, e: Entry)
    requires Ends(settings, sys, next, w, e) && ContainersFit(sys)
    ensures ContainersFit(next)
  {
    forall v | 0 <= v < |next.containers|
      ensures ContainerFits(next.containers[v]) && PendingFits(next, v)
    {
      assert ContainerFits(sys.containers[v]) && PendingFits(sys, v);
    }
  }

  lemma EndKeepsLog(settings: Settings, sys: System, next: System, w: nat, e: Entry)
    requires Ends(settings, sys, next, w, e) && LogFits(settings, sys)
    ensures LogFits(settings, next)
  {
  }

  lemma EndKeepsOwners(settings: Settings, sys: System, next: System, w: nat, e: Entry)
    requires Ends(settings, sys, next, w, e) && AllOwned(sys)
    ensures AllOwned(next)
  {
    forall i: nat | i < |next.store|
      ensures Owned(next, i)
    {
      assert Owned(sys, i);
      if InProgress(sys, i) {
        if sys.store[i].writer == w {
          assert LoggedBy(next, i, |sys.log|);
        } else {
          assert InProgress(next, i);
        }
      } else {
        var j: nat :| LoggedBy(sys, i, j);
        assert LoggedBy(next, i, j);
      }
    }
  }

  lemma EndKeepsLeases(settings: Settings, sys: System, next: System, w: nat, e: Entry)
    requires Ends(settings, sys, next, w, e) && LeasesFit(settings, sys) && ContainersFit(sys) && LogFits(settings, sys)
    ensures LeasesFit(settings, next)
  {
    forall v, k | 0 <= v < |next.containers| && k in next.containers[v].cache.leases
      ensures next.containers[v].cache.leases[k].expires.Some? ==> HasOrigin(settings, next, v, k)
    {
      if next.containers[v].cache.leases[k].expires.Some? {
        if v == w && k == e.req.key && e.ending.Refreshed? {
          RefreshIsOrigin(settings, sys, next, w, e);
        } else {
          assert k in sys.containers[v].cache.leases && sys.containers[v].cache.leases[k].expires.Some?;
          OriginSurvives(settings, sys, next, w, e, v, k);
        }
      }
    }
  }

  lemma RefreshIsOrigin(settings: Settings, sys: System, next: System, w: nat, e: Entry)
    requires Ends(settings, sys, next, w, e) && e.ending.Refreshed?
    ensures e.req.key in next.containers[w].cache.leases && HasOrigin(settings, next, w, e.req.key)
  {
    InputsSnoc(sys.log, e, |sys.log|, w, e.req.key);
    assert InputsSince(sys.log, |sys.log|, w, e.req.key) == {};
    assert Origin(settings, next, w, e.req.key, |sys.log|);
  }

  lemma OriginSurvives(settings: Settings, sys: System, next: System, w: nat, e: Entry, v: nat, k: string)
    requires Ends(settings, sys, next, w, e) && v < |sys.containers| && k in sys.containers[v].cache.leases
    requires HasOrigin(settings, sys, v, k) && !(v == w && k == e.req.key && e.ending.Refreshed?)
    ensures k in next.containers[v].cache.leases && HasOrigin(settings, next, v, k)
  {
    var r: nat :| Origin(settings, sys, v, k, r);
    InputsSnoc(sys.log, e, r, v, k);
    assert next.log[r] == sys.log[r];
    assert Origin(settings, next, v, k, r);
  }

  lemma EndKeepsInv(settings: Settings, sys: System, next: System, w: nat, e: Entry)
    requires Inv(settings, sys) && Ends(settings, sys, next, w, e)
    ensures Inv(settings, next)
  {
    EndKeepsHeartbeats(settings, sys, next, w, e);
    EndKeepsContainers(settings, sys, next, w, e);
    EndKeepsLog(settings, sys, next, w, e);
    EndKeepsOwners(settings, sys, next, w, e);
    EndKeepsLeases(settings, sys, next, w, e);
  }

  lemma OwnBeatsAreOld(sys: System, w: nat, now: int)
    requires BeatsFit(sys) && w < |sys.containers|
    ensures forall i :: 0 <= i < |sys.store| && sys.store[i].writer == w ==>
              sys.store[i].time <= Later(sys.containers[w].latest, now)
  {
    forall i | 0 <= i < |sys.store| && sys.store[i].writer == w
      ensures sys.store[i].time <= Later(sys.containers[w].latest, now)
    {
      assert BeatFits(sys, sys.store[i]);
    }
  }

  lemma AskedSoFar(settings: Settings, sys: System)
    requires LogFits(settings, sys)
    ensures forall j :: 0 <= j < |sys.log| ==> sys.log[j].asked <= |sys.store|
  {
    forall j | 0 <= j < |sys.log|
      ensures sys.log[j].asked <= |sys.store|
    {
      assert EntryFits(settings, sys.store, sys.log[j]);
    }
  }

  /** What an evaluation does to the leases. */
  lemma EvaluationFollows(settings: Settings, cache: Cache, e: Entry, fetch: Fetch)
    requires
      match e.ending
      case PutDenied => false
      case FromLease => LeaseValid(cache, e.req.key, e.req.now)
      case Refreshed(_, active) => !LeaseValid(cache, e.req.key, e.req.now) && fetch == Fetched(active)
      case NotRefreshed => !LeaseValid(cache, e.req.key, e.req.now) && fetch.FetchFailed?
    ensures LeaseFollows(settings, cache, Evaluate(settings, cache, e.req.key, e.req.inputs, e.req.now, fetch).cache, e)
  {
  }

  lemma DenialEnds(settings: Settings, sys: System, w: nat)
    requires Inv(settings, sys) && Enabled(settings, sys, PutFails(w, AccessDenied))
    ensures Inv(settings, Apply(settings, sys, PutFails(w, AccessDenied)))
  {
    var next := Apply(settings, sys, PutFails(w, AccessDenied));
    assert ContainerFits(sys.containers[w]);
    OwnBeatsAreOld(sys, w, sys.containers[w].now);
    AskedSoFar(settings, sys);
    EndKeepsInv(settings, sys, next, w, next.log[|sys.log|]);
  }

  lemma UseLeaseEnds(settings: Settings, sys: System, w: nat)
    requires Inv(settings, sys) && Enabled(settings, sys, UseLease(w))
    ensures Inv(settings, Apply(settings, sys, UseLease(w)))
  {
    var c, next := sys.containers[w], Apply(settings, sys, UseLease(w));
    var req, e := c.pending.req, next.log[|sys.log|];
    assert ContainerFits(c) && PendingFits(sys, w);
    OwnBeatsAreOld(sys, w, sys.containers[w].now);
    AskedSoFar(settings, sys);
    EvaluateCounts(settings, c.cache, req.key, req.inputs, req.now, Fetched({}));
    EvaluationFollows(settings, c.cache, e, Fetched({}));
    EndKeepsInv(settings, sys, next, w, e);
  }

  /** The entry a query ends in. */
  lemma FetchedEntryFits(settings: Settings, sys: System, w: nat, fetch: Fetch)
    requires BeatsFit(sys) && ContainersFit(sys) && Enabled(settings, sys, EndFetch(w, fetch))
    ensures EntryFits(settings, sys.store, Apply(settings, sys, EndFetch(w, fetch)).log[|sys.log|])
  {
    var c := sys.containers[w];
    var req := c.pending.req;
    assert ContainerFits(c) && PendingFits(sys, w);
    OwnBeatsAreOld(sys, w, sys.containers[w].now);
    EvaluateCounts(settings, c.cache, req.key, req.inputs, req.now, fetch);
    assert sys.store[..|sys.store|] == sys.store;
  }

  lemma EndFetchEnds(settings: Settings, sys: System, w: nat, fetch: Fetch)
    requires Inv(settings, sys) && Enabled(settings, sys, EndFetch(w, fetch))
    ensures Inv(settings, Apply(settings, sys, EndFetch(w, fetch)))
  {
    var c, next := sys.containers[w], Apply(settings, sys, EndFetch(w, fetch));
    var req, e := c.pending.req, next.log[|sys.log|];
    assert ContainerFits(c) && PendingFits(sys, w);
    FetchedEntryFits(settings, sys, w, fetch);
    EvaluateCounts(settings, c.cache, req.key, req.inputs, req.now, fetch);
    EvaluationFollows(settings, c.cache, e, fetch);
    EndKeepsInv(settings, sys, next, w, e);
  }

  lemma StepKeepsInv(settings: Settings, sys: System, step: Step)
    requires Inv(settings, sys) && Enabled(settings, sys, step)
    ensures Inv(settings, Apply(settings, sys, step))
  {
    match step {
      case Begin(_, _, _) => BeginKeepsInv(settings, sys, step);
      case Put(w) => PutKeepsInv(settings, sys, w);
      case PutFails(w, failure) =>
        if failure.AccessDenied? {
          DenialEnds(settings, sys, w);
        } else {
          PutUnavailableKeepsInv(settings, sys, w);
        }
      case UseLease(w) => UseLeaseEnds(settings, sys, w);
      case StartFetch(w) => StartFetchKeepsInv(settings, sys, w);
      case EndFetch(w, fetch) => EndFetchEnds(settings, sys, w, fetch);
    }
  }

  // ---------------------------------------------------------------- every run

  lemma {:induction false} RunKeepsInv(settings: Settings, sys: System, steps: seq<Step>)
    requires Inv(settings, sys) && IsRun(settings, sys, steps)
    ensures Inv(settings, Exec(settings, sys, steps))
    decreases |steps|
  {
    if steps != [] {
      StepKeepsInv(settings, sys, steps[0]);
      RunKeepsInv(settings, Apply(settings, sys, steps[0]), steps[1..]);
    }
  }

  lemma EveryRunKeepsInv(settings: Settings, clocks: seq<int>, steps: seq<Step>)
    requires IsRun(settings, Init(clocks), steps)
    ensures Inv(settings, Exec(settings, Init(clocks), steps))
  {
    RunKeepsInv(settings, Init(clocks), steps);
  }

  // ---------------------------------------------------------------- what a caller may rely on

  predicate SeenAfter(store: seq<Beat>, key: string, arn: string, time: int) {
    exists b :: b in store && b.key == key && b.arn == arn && b.time > time
  }

  /** Heartbeat i was published by its writer in a call after log position r that was denied, or in
      the one it is in the middle of. */
  ghost predicate NotCounted(sys: System, i: nat, r: nat) {
    InProgress(sys, i) || exists j: nat :: r < j && LoggedBy(sys, i, j) && sys.log[j].ending.PutDenied?
  }

  /** The agreement between a valid lease and the simple sliding-window count, for the refresh
      recorded at log position r.  The known set lies between the resources seen in the window when
      the query started and those when it ended, together with this container's own inputs since;
      it is that exactly if nothing was stored under the key while the query ran.  So every counted
      resource was seen after now - window - lease duration.  And every heartbeat of an uncounted
      one lies before the window, or was stored after the query started (by this container only in a
      call that does not count), or carries a later time than the refresh: another container's clock
      is ahead of this one's, or this one's own times have run backwards. */
  ghost predicate Fresh(settings: Settings, sys: System, w: nat, k: string, r: nat)
    requires w < |sys.containers| && k in sys.containers[w].cache.leases
  {
    && r < |sys.log| && sys.log[r].writer == w && sys.log[r].req.key == k && sys.log[r].ending.Refreshed?
    && sys.log[r].asked <= sys.log[r].ending.upto <= |sys.store|
    && sys.containers[w].now < sys.log[r].req.now + settings.leaseDuration
    && KnownFits(settings, sys, w, k, r) && CountedWereSeen(settings, sys, w, k, r)
    && MissedExcused(settings, sys, w, k, r)
  }

  ghost predicate KnownFits(settings: Settings, sys: System, w: nat, k: string, r: nat)
    requires w < |sys.containers| && k in sys.containers[w].cache.leases && r < |sys.log|
    requires sys.log[r].ending.Refreshed?
    requires sys.log[r].asked <= sys.log[r].ending.upto <= |sys.store|
  {
    var known, e := sys.containers[w].cache.leases[k].known, sys.log[r];
    var since := InputsSince(sys.log, r, w, k);
    var span := SpanFor(settings, e.req, sys.store[..e.asked], sys.store[..e.ending.upto]);
    && span.Must() + since <= known <= span.May() + since
    && ((forall i :: e.asked <= i < e.ending.upto ==> sys.store[i].key != k) ==> known == span.Must() + since)
  }

  ghost predicate CountedWereSeen(settings: Settings, sys: System, w: nat, k: string, r: nat)
    requires w < |sys.containers| && k in sys.containers[w].cache.leases
  {
    forall a :: a in sys.containers[w].cache.leases[k].known ==>
      || a in InputsSince(sys.log, r, w, k)
      || SeenAfter(sys.store, k, a, sys.containers[w].now - settings.slidingWindow - settings.leaseDuration)
  }

  ghost predicate MissedExcused(settings: Settings, sys: System, w: nat, k: string, r: nat)
    requires w < |sys.containers| && k in sys.containers[w].cache.leases && r < |sys.log|
  {
    var known, e := sys.containers[w].cache.leases[k].known, sys.log[r];
    forall i: nat :: i < |sys.store| && sys.store[i].key == k && sys.store[i].arn !in known ==>
      || sys.store[i].time < e.req.now - settings.slidingWindow
      || (i >= e.asked && (sys.store[i].writer == w ==> NotCounted(sys, i, r)))
      || (sys.store[i].time > e.req.now && (sys.store[i].writer == w ==> sys.store[i].time <= e.latest))
  }

  /** If nothing is stored under the key while a query runs, start and end agree. */
  lemma UndisturbedIsExact(store: seq<Beat>, start: nat, end: nat, key: string, lo: int, hi: int)
    requires start <= end <= |store| && forall i :: start <= i < end ==> store[i].key != key
    ensures Active(store[..end], key, lo, hi) == Active(store[..start], key, lo, hi)
  {
    assert store[..end] == store[..start] + store[start..end];
    forall b | b in store[start..end]
      ensures b.key != key
    {
      var i :| 0 <= i < end - start && store[start..end][i] == b;
      assert store[start + i] == b;
    }
  }

  lemma OriginFits(settings: Settings, sys: System, w: nat, k: string, r: nat)
    requires LogFits(settings, sys) && w < |sys.containers|
    requires LeaseValid(sys.containers[w].cache, k, sys.containers[w].now)
    requires Origin(settings, sys, w, k, r)
    ensures sys.log[r].asked <= sys.log[r].ending.upto <= |sys.store|
    ensures KnownFits(settings, sys, w, k, r)
  {
    var e := sys.log[r];
    assert EntryFits(settings, sys.store, e);
    if forall i :: e.asked <= i < e.ending.upto ==> sys.store[i].key != k {
      UndisturbedIsExact(sys.store, e.asked, e.ending.upto, k, e.req.now - settings.slidingWindow, e.req.now);
    }
  }

  lemma OriginCounts(settings: Settings, sys: System, w: nat, k: string, r: nat)
    requires LogFits(settings, sys) && w < |sys.containers|
    requires LeaseValid(sys.containers[w].cache, k, sys.containers[w].now)
    requires Origin(settings, sys, w, k, r)
    ensures CountedWereSeen(settings, sys, w, k, r)
  {
    var e := sys.log[r];
    assert EntryFits(settings, sys.store, e);
    forall a | a in e.ending.active
      ensures SeenAfter(sys.store, k, a, sys.containers[w].now - settings.slidingWindow - settings.leaseDuration)
    {
      var b :| b in sys.store[..e.ending.upto] && b.key == k && e.req.now - settings.slidingWindow <= b.time &&
          b.arn == a;
      assert b in sys.store;
    }
  }

  lemma OriginExcuses(settings: Settings, sys: System, w: nat, k: string, r: nat)
    requires LogFits(settings, sys) && AllOwned(sys)
    requires w < |sys.containers| && LeaseValid(sys.containers[w].cache, k, sys.containers[w].now)
    requires Origin(settings, sys, w, k, r)
    ensures MissedExcused(settings, sys, w, k, r)
  {
    var known, e := sys.containers[w].cache.leases[k].known, sys.log[r];
    assert EntryFits(settings, sys.store, e);
    forall i: nat | i < |sys.store| && sys.store[i].key == k && sys.store[i].arn !in known
      ensures i < e.asked ==> sys.store[i].time < e.req.now - settings.slidingWindow ||
                              (sys.store[i].time > e.req.now &&
                               (sys.store[i].writer == w ==> sys.store[i].time <= e.latest))
      ensures i >= e.asked && sys.store[i].writer == w ==> NotCounted(sys, i, r)
    {
      if i < e.asked {
        assert sys.store[..e.asked][i] == sys.store[i];
      } else if sys.store[i].writer == w {
        assert Owned(sys, i);
        if !InProgress(sys, i) {
          var j: nat :| LoggedBy(sys, i, j);
          assert r < j;
          assert sys.store[i].arn !in InputsSince(sys.log, r, w, k);
        }
      }
    }
  }

  /** In every run, every valid lease of every container is fresh in that sense. */
  lemma LeasesAreFresh(settings: Settings, clocks: seq<int>, steps: seq<Step>, w: nat, k: string)
    requires IsRun(settings, Init(clocks), steps)
    requires
      var sys := Exec(settings, Init(clocks), steps);
      w < |sys.containers| && LeaseValid(sys.containers[w].cache, k, sys.containers[w].now)
    ensures exists r: nat :: Fresh(settings, Exec(settings, Init(clocks), steps), w, k, r)
  {
    EveryRunKeepsInv(settings, clocks, steps);
    var sys := Exec(settings, Init(clocks), steps);
    assert HasOrigin(settings, sys, w, k);
    var r: nat :| Origin(settings, sys, w, k, r);
    OriginFits(settings, sys, w, k, r);
    OriginCounts(settings, sys, w, k, r);
    OriginExcuses(settings, sys, w, k, r);
    assert Fresh(settings, sys, w, k, r);
  }

  /** In every run each remembered heartbeat is in the store, and two stored heartbeats of one pair
      by one container are at least a minute apart. */
  lemma HeartbeatsAreSpaced(settings: Settings, clocks: seq<int>, steps: seq<Step>)
    requires IsRun(settings, Init(clocks), steps)
    ensures
      var sys := Exec(settings, Init(clocks), steps);
      && (forall w, h :: 0 <= w < |sys.containers| && h in sys.containers[w].cache.lastHeartbeats ==>
            HasBeat(sys.store, w, h, sys.containers[w].cache.lastHeartbeats[h]))
      && (forall i, j | 0 <= i < j < |sys.store| && SamePair(sys.store[i], sys.store[j]) ::
            sys.store[j].time - sys.store[i].time >= 60_000_000_000)
  {
    EveryRunKeepsInv(settings, clocks, steps);
  }

  /** Some call under this key, for this resource at time t, had all its puts done when the store
      held n heartbeats, and its container had published at no time after `latest`.  The call may have
      finished since, or be evaluating still. */
  ghost predicate Registered(sys: System, key: string, a: string, t: int, latest: int, n: nat) {
    || (exists j :: 0 <= j < |sys.log| && LogRegisters(sys.log[j], key, a, t, latest, n))
    || (exists w :: 0 <= w < |sys.containers| && PendingRegisters(sys.containers[w], key, a, t, latest, n))
  }

  predicate LogRegisters(e: Entry, key: string, a: string, t: int, latest: int, n: nat) {
    e.published == Some(n) && e.latest == latest && e.req.key == key && e.req.now == t && a in e.req.inputs
  }

  predicate PendingRegisters(c: Container, key: string, a: string, t: int, latest: int, n: nat) {
    && (c.pending.Evaluating? || c.pending.Fetching?) && c.pending.published == Some(n)
    && var req := c.pending.req;
       req.key == key && req.now == t && a in req.inputs && Later(c.latest, t) == latest
  }

  /** In every run, what has been registered at t has a heartbeat in the store less than a minute
      older, although heartbeats are suppressed for up to a minute.  It is no later than t, or than the
      latest time its container had published at, if that is later. */
  lemma RegisteredIsStored(settings: Settings, clocks: seq<int>, steps: seq<Step>,
                           key: string, a: string, t: int, latest: int, n: nat)
    requires IsRun(settings, Init(clocks), steps)
    requires Registered(Exec(settings, Init(clocks), steps), key, a, t, latest, n)
    ensures
      var sys := Exec(settings, Init(clocks), steps);
      n <= |sys.store| && SeenIn(sys.store[..n], key, a, t - 60_000_000_000, latest)
  {
    EveryRunKeepsInv(settings, clocks, steps);
    var sys := Exec(settings, Init(clocks), steps);
    if j :| 0 <= j < |sys.log| && LogRegisters(sys.log[j], key, a, t, latest, n) {
      assert EntryFits(settings, sys.store, sys.log[j]);
    } else {
      var w :| 0 <= w < |sys.containers| && PendingRegisters(sys.containers[w], key, a, t, latest, n);
      assert PendingFits(sys, w);
    }
  }

  lemma SeenIsActive(store: seq<Beat>, key: string, a: string, lo: int, hi: int, from: int, upto: int)
    requires SeenIn(store, key, a, lo, hi) && from <= lo && hi <= upto
    ensures a in Active(store, key, from, upto)
  {
    var b :| b in store && b.key == key && b.arn == a && lo < b.time <= hi;
    assert from <= b.time <= upto;
  }

  /** A refresh counts what had a heartbeat in its window when its query started. */
  lemma RefreshCounts(settings: Settings, store: seq<Beat>, e: Entry, a: string, lo: int, hi: int, n: nat)
    requires EntryFits(settings, store, e) && e.ending.Refreshed? && n <= e.asked
    requires SeenIn(store[..n], e.req.key, a, lo, hi) && e.req.now - settings.slidingWindow <= lo && hi <= e.req.now
    ensures a in e.known
  {
    assert store[..e.asked][..n] == store[..n];
    SeenInMore(store[..n], store[..e.asked], e.req.key, a, lo, hi);
    SeenIsActive(store[..e.asked], e.req.key, a, lo, hi, e.req.now - settings.slidingWindow, e.req.now);
  }

  /** Cross-container visibility: whatever else happens meanwhile, a refresh whose query started when
      the puts of a registration at t were done counts the resource, if its time lies in
      [latest, t + window - 60 s].  That is [t, t + window - 60 s] unless times had run backwards. */
  lemma RegisteredIsSeenEverywhere(settings: Settings, clocks: seq<int>, steps: seq<Step>,
                                   key: string, a: string, t: int, latest: int, n: nat, r: nat)
    requires IsRun(settings, Init(clocks), steps)
    requires
      var sys := Exec(settings, Init(clocks), steps);
      && Registered(sys, key, a, t, latest, n)
      && r < |sys.log| && sys.log[r].req.key == key && sys.log[r].ending.Refreshed?
      && n <= sys.log[r].asked && latest <= sys.log[r].req.now <= t + settings.slidingWindow - 60_000_000_000
    ensures a in Exec(settings, Init(clocks), steps).log[r].known
  {
    EveryRunKeepsInv(settings, clocks, steps);
    RegisteredIsStored(settings, clocks, steps, key, a, t, latest, n);
    var sys := Exec(settings, Init(clocks), steps);
    RefreshCounts(settings, sys.store, sys.log[r], a, t - MINUTE, latest, n);
  }

  /** No call of any container is evaluated at an earlier time than the container's call before. */
  ghost predicate RunsForward(settings: Settings, sys: System, steps: seq<Step>)
    requires IsRun(settings, sys, steps)
    decreases |steps|
  {
    steps == [] ||
    (&& (steps[0].Begin? ==> sys.containers[steps[0].w].now <= steps[0].req.now)
     && RunsForward(settings, Apply(settings, sys, steps[0]), steps[1..]))
  }

  predicate LatestIsNow(sys: System) {
    && (forall w :: 0 <= w < |sys.containers| ==>
          Later(sys.containers[w].latest, sys.containers[w].now) == sys.containers[w].now)
    && (forall j :: 0 <= j < |sys.log| ==> sys.log[j].latest == sys.log[j].req.now)
  }

  lemma StepKeepsLatest(settings: Settings, sys: System, step: Step)
    requires LatestIsNow(sys) && Enabled(settings, sys, step) && ContainerFits(sys.containers[step.w])
    requires step.Begin? ==> sys.containers[step.w].now <= step.req.now
    ensures LatestIsNow(Apply(settings, sys, step))
  {
  }

  lemma {:induction false} ForwardKeepsLatest(settings: Settings, sys: System, steps: seq<Step>)
    requires Inv(settings, sys) && LatestIsNow(sys) && IsRun(settings, sys, steps) && RunsForward(settings, sys, steps)
    ensures Inv(settings, Exec(settings, sys, steps)) && LatestIsNow(Exec(settings, sys, steps))
    decreases |steps|
  {
    if steps != [] {
      StepKeepsLatest(settings, sys, steps[0]);
      StepKeepsInv(settings, sys, steps[0]);
      ForwardKeepsLatest(settings, Apply(settings, sys, steps[0]), steps[1..]);
    }
  }

  /** As long as times run forward, a registration's heartbeat is no later than the registration. */
  lemma ForwardIsExact(settings: Settings, clocks: seq<int>, steps: seq<Step>,
                       key: string, a: string, t: int, latest: int, n: nat)
    requires IsRun(settings, Init(clocks), steps) && RunsForward(settings, Init(clocks), steps)
    requires Registered(Exec(settings, Init(clocks), steps), key, a, t, latest, n)
    ensures latest == t
  {
    ForwardKeepsLatest(settings, Init(clocks), steps);
    LatestIsRegistered(Exec(settings, Init(clocks), steps), key, a, t, latest, n);
  }

  lemma LatestIsRegistered(sys: System, key: string, a: string, t: int, latest: int, n: nat)
    requires ContainersFit(sys) && LatestIsNow(sys) && Registered(sys, key, a, t, latest, n)
    ensures latest == t
  {
    if w :| 0 <= w < |sys.containers| && PendingRegisters(sys.containers[w], key, a, t, latest, n) {
      assert ContainerFits(sys.containers[w]);
    }
  }

  /** In every run, a finished call that was not denied returned the size of the known set it left
      behind, and that set includes the resources asked about; a denied one returned 0. */
  lemma CountIsKnownSet(settings: Settings, clocks: seq<int>, steps: seq<Step>, j: nat)
    requires IsRun(settings, Init(clocks), steps) && j < |Exec(settings, Init(clocks), steps).log|
    ensures
      var e := Exec(settings, Init(clocks), steps).log[j];
      if e.ending.PutDenied? then e.count == 0 else e.count == |e.known| && e.req.inputs <= e.known
  {
    EveryRunKeepsInv(settings, clocks, steps);
    var sys := Exec(settings, Init(clocks), steps);
    assert EntryFits(settings, sys.store, sys.log[j]);
  }
}
