/** The methods of one container are runs of the many-container system. */
module RegistryCalls {
  import opened Seqs
  import opened RegistryModel
  import opened RegistryQuery
  import opened RegistrySystem
  import CloudWatchRegistry

  lemma {:induction false} RunsJoin(settings: Settings, sys: System, a: seq<Step>, b: seq<Step>)
    requires IsRun(settings, sys, a) && IsRun(settings, Exec(settings, sys, a), b)
    ensures IsRun(settings, sys, a + b) && Exec(settings, sys, a + b) == Exec(settings, Exec(settings, sys, a), b)
    decreases |a|
  {
    if a == [] {
      assert a + b == b;
    } else {
      assert (a + b)[1..] == a[1..] + b;
      RunsJoin(settings, Apply(settings, sys, a[0]), a[1..], b);
    }
  }

  lemma OneStep(settings: Settings, sys: System, step: Step)
    requires Enabled(settings, sys, step)
    ensures IsRun(settings, sys, [step]) && Exec(settings, sys, [step]) == Apply(settings, sys, step)
  {
    assert [step][1..] == [];
    assert IsRun(settings, Apply(settings, sys, step), []);
  }

  function LatestAfter(latest: Option<int>, arns: seq<string>, now: int): Option<int> {
    if arns == [] then latest else Some(Later(latest, now))
  }

  /** The system after container w, in the middle of publishing, has stored its order up to `stored`. */
  function AfterPuts(sys: System, w: nat, stored: nat): System
    requires w < |sys.containers| && sys.containers[w].pending.Publishing?
    requires sys.containers[w].pending.done <= stored <= |sys.containers[w].pending.order|
  {
    var c := sys.containers[w];
    var p := c.pending;
    var arns := p.order[p.done..stored];
    var store := sys.store + BeatsOf(p.req.key, arns, p.req.now, w);
    Update(sys, w, Container(Mark(c.cache, p.req.key, arns, p.req.now), c.now, LatestAfter(c.latest, arns, p.req.now),
                             if stored == |p.order| then Evaluating(p.req, Some(|store|))
                             else p.(done := stored))).(store := store)
  }

  /** Puts, one chunk after another, get there. */
  lemma {:induction false} PutsRun(settings: Settings, sys: System, w: nat, stored: nat) returns (steps: seq<Step>)
    requires w < |sys.containers| && sys.containers[w].pending.Publishing?
    requires
      var p := sys.containers[w].pending;
      p.done < |p.order| && p.done <= stored <= |p.order| && (stored == |p.order| || (stored - p.done) % CHUNK == 0)
    ensures IsRun(settings, sys, steps) && Exec(settings, sys, steps) == AfterPuts(sys, w, stored)
    decreases stored - sys.containers[w].pending.done
  {
    var c := sys.containers[w];
    var p := c.pending;
    if p.done == stored {
      steps := [];
      assert AfterPuts(sys, w, stored) == sys;
    } else {
      var next := Apply(settings, sys, Put(w));
      OneStep(settings, sys, Put(w));
      if ChunkEnd(p) == |p.order| {
        steps := [Put(w)];
      } else {
        var rest := PutsRun(settings, next, w, stored);
        PutThenRest(settings, sys, w, stored);
        RunsJoin(settings, sys, [Put(w)], rest);
        steps := [Put(w)] + rest;
      }
    }
  }

  lemma PutThenRest(settings: Settings, sys: System, w: nat, stored: nat)
    requires Enabled(settings, sys, Put(w))
    requires
      var p := sys.containers[w].pending;
      ChunkEnd(p) < |p.order| && ChunkEnd(p) <= stored <= |p.order|
    ensures AfterPuts(Apply(settings, sys, Put(w)), w, stored) == AfterPuts(sys, w, stored)
  {
    var c := sys.containers[w];
    var p := c.pending;
    var a, b := p.order[p.done..ChunkEnd(p)], p.order[ChunkEnd(p)..stored];
    assert p.order[p.done..stored] == a + b;
    BeatsSplit(p.req.key, a, b, p.req.now, w);
    MarkSplit(c.cache, p.req.key, a, b, p.req.now);
  }

  // ---------------------------------------------------------------- publishing

  /** Container w can begin this call, and `resp` is what publishing may meet. */
  ghost predicate CanCall(sys: System, w: nat, req: Request, resp: Response) {
    && w < |sys.containers| && sys.containers[w].pending.Idle? && NulFree(req.key)
    && Possible(sys.containers[w].cache, req, resp)
  }

  /** The system when the publishing part of the call is over. */
  function AfterPublish(sys: System, w: nat, req: Request, resp: Response): System
    requires w < |sys.containers| && resp.stored <= |resp.order|
  {
    var arns := resp.order[..resp.stored];
    var store := sys.store + BeatsOf(req.key, arns, req.now, w);
    var cache := Mark(sys.containers[w].cache, req.key, arns, req.now);
    var latest := LatestAfter(sys.containers[w].latest, arns, req.now);
    if Denied(resp) then
      Update(sys, w, Container(cache, req.now, latest, Idle)).(
        store := store, log := sys.log + [Entry(w, req, Later(latest, req.now), None, |store|, PutDenied, 0, {})])
    else
      Update(sys, w, Container(cache, req.now, latest,
                               Evaluating(req, if resp.putFailure.None? then Some(|store|) else None))).(store := store)
  }

  lemma PublishRuns(settings: Settings, sys: System, w: nat, req: Request, resp: Response) returns (steps: seq<Step>)
    requires CanCall(sys, w, req, resp)
    ensures IsRun(settings, sys, steps) && Exec(settings, sys, steps) == AfterPublish(sys, w, req, resp)
  {
    var begin := Begin(w, req, resp.order);
    var begun := Apply(settings, sys, begin);
    OneStep(settings, sys, begin);
    if resp.order == [] {
      assert AfterPublish(sys, w, req, resp) == begun;
      return [begin];
    }
    var puts := PutsRun(settings, begun, w, resp.stored);
    assert resp.order[0..resp.stored] == resp.order[..resp.stored];
    RunsJoin(settings, sys, [begin], puts);
    steps := [begin] + puts;
    if resp.putFailure.Some? {
      var fails := PutFails(w, resp.putFailure.value);
      var midway := AfterPuts(begun, w, resp.stored);
      OneStep(settings, midway, fails);
      assert Apply(settings, midway, fails) == AfterPublish(sys, w, req, resp);
      RunsJoin(settings, sys, steps, [fails]);
      steps := steps + [fails];
    }
  }

  /** When exactly a call at t, all of whose puts succeed, leaves each of its resources with a
      heartbeat in (t - 60 s, t]: unless the container remembers a later one than t, which suppresses
      the new one, and nobody else's heartbeat lies there. */
  lemma SeenWithinMinuteExactly(settings: Settings, sys: System, w: nat, req: Request, resp: Response, a: string)
    requires Inv(settings, sys) && CanCall(sys, w, req, resp) && resp.putFailure.None? && a in req.inputs
    ensures
      var slots, slot := sys.containers[w].cache.lastHeartbeats, HbKey(req.key, a);
      SeenIn(AfterPublish(sys, w, req, resp).store, req.key, a, req.now - 60_000_000_000, req.now) <==>
        !(slot in slots && slots[slot] > req.now && !SeenIn(sys.store, req.key, a, req.now - 60_000_000_000, req.now))
  {
    var cache, slot := sys.containers[w].cache, HbKey(req.key, a);
    var store := AfterPublish(sys, w, req, resp).store;
    if a in resp.order {
      var i :| 0 <= i < |resp.order| && resp.order[i] == a;
      assert store[|sys.store| + i] == Beat(req.key, a, req.now, w);
    } else {
      assert a !in Due(cache, req.key, req.inputs, req.now);
      NothingNew(sys.store, req, resp.order, w, a);
      if cache.lastHeartbeats[slot] <= req.now {
        RememberedIsStored(sys, w, req.key, a);
      }
    }
  }

  /** Publishing other resources adds no heartbeat of this one. */
  lemma NothingNew(store: seq<Beat>, req: Request, order: seq<string>, w: nat, a: string)
    requires a !in order
    ensures
      SeenIn(store + BeatsOf(req.key, order, req.now, w), req.key, a, req.now - MINUTE, req.now) <==>
      SeenIn(store, req.key, a, req.now - MINUTE, req.now)
  {
    forall b | b in BeatsOf(req.key, order, req.now, w)
      ensures b.arn != a
    {
    }
  }

  // ---------------------------------------------------------------- evaluating, while others go on

  predicate NoneOf(steps: seq<Step>, w: nat) {
    forall i :: 0 <= i < |steps| ==> steps[i].w != w
  }

  lemma {:induction false} OthersLeaveIt(settings: Settings, sys: System, others: seq<Step>, w: nat)
    requires IsRun(settings, sys, others) && NoneOf(others, w) && w < |sys.containers|
    ensures
      var next := Exec(settings, sys, others);
      |next.containers| == |sys.containers| && next.containers[w] == sys.containers[w] && sys.store <= next.store
    decreases |others|
  {
    if others != [] {
      assert others[0].w != w;
      OthersLeaveIt(settings, Apply(settings, sys, others[0]), others[1..], w);
    }
  }

  /** The system when the query of the call starts. */
  function Asking(settings: Settings, sys: System, w: nat, req: Request, resp: Response): System
    requires w < |sys.containers| && resp.stored <= |resp.order|
  {
    var published := AfterPublish(sys, w, req, resp);
    Update(published, w, published.containers[w].(
      pending := Fetching(req, if resp.putFailure.None? then Some(|published.store|) else None, |published.store|)))
  }

  predicate Queries(sys: System, w: nat, req: Request, resp: Response)
    requires w < |sys.containers|
  {
    !Denied(resp) && !LeaseValid(sys.containers[w].cache, req.key, req.now)
  }

  /** Other containers' steps may run while the query does; the answer is right for them. */
  ghost predicate MeanwhileFits(settings: Settings, sys: System, w: nat, req: Request, resp: Response,
      others: seq<Step>)
    requires w < |sys.containers| && resp.stored <= |resp.order|
  {
    var asking := Asking(settings, sys, w, req, resp);
    && NoneOf(others, w) && IsRun(settings, asking, others)
    && (resp.fetch.Fetched? ==>
          SpanFor(settings, req, asking.store, Exec(settings, asking, others).store).Admits(resp.fetch.active))
  }

  /** The call is over, and what it left behind is what Serve says. */
  ghost predicate ServedAs(settings: Settings, sys: System, final: System, w: nat, req: Request, resp: Response)
    requires w < |sys.containers| && resp.stored <= |resp.order|
  {
    var r := Serve(settings, w, sys.containers[w].cache, sys.store, req, resp);
    && w < |final.containers|
    && final.containers[w] ==
         Container(r.cache, req.now, LatestAfter(sys.containers[w].latest, resp.order[..resp.stored], req.now), Idle)
    && r.store <= final.store
    && final.log != [] && final.log[|final.log| - 1].writer == w && final.log[|final.log| - 1].req == req
    && final.log[|final.log| - 1].count == r.count
  }

  /** A call of one container, from its first put to its answer, is a run of the system: with any
      steps of other containers while its query runs, and failures where `resp` has them. */
  lemma CallIsARun(settings: Settings, sys: System, w: nat, req: Request, resp: Response, others: seq<Step>)
    returns (steps: seq<Step>)
    requires CanCall(sys, w, req, resp)
    requires Queries(sys, w, req, resp) ==> MeanwhileFits(settings, sys, w, req, resp, others)
    ensures IsRun(settings, sys, steps) && ServedAs(settings, sys, Exec(settings, sys, steps), w, req, resp)
  {
    steps := PublishRuns(settings, sys, w, req, resp);
    var cache := sys.containers[w].cache;
    var published := AfterPublish(sys, w, req, resp);
    MarkLeavesLeases(cache, req.key, resp.order[..resp.stored], req.now);
    if Denied(resp) {
      ServeDenied(settings, w, cache, sys.store, req, resp);
    } else {
      ServeEvaluated(settings, w, cache, sys.store, req, resp);
      if LeaseValid(cache, req.key, req.now) {
        OneStep(settings, published, UseLease(w));
        RunsJoin(settings, sys, steps, [UseLease(w)]);
        steps := steps + [UseLease(w)];
      } else {
        var rest := QueryRuns(settings, sys, w, req, resp, others);
        RunsJoin(settings, sys, steps, rest);
        steps := steps + rest;
      }
    }
  }

  lemma QueryRuns(settings: Settings, sys: System, w: nat, req: Request, resp: Response, others: seq<Step>)
    returns (steps: seq<Step>)
    requires CanCall(sys, w, req, resp) && Queries(sys, w, req, resp)
    requires MeanwhileFits(settings, sys, w, req, resp, others)
    ensures IsRun(settings, AfterPublish(sys, w, req, resp), steps)
    ensures ServedAs(settings, sys, Exec(settings, AfterPublish(sys, w, req, resp), steps), w, req, resp)
  {
    var cache, published := sys.containers[w].cache, AfterPublish(sys, w, req, resp);
    var asking := Asking(settings, sys, w, req, resp);
    MarkLeavesLeases(cache, req.key, resp.order[..resp.stored], req.now);
    ServeEvaluated(settings, w, cache, sys.store, req, resp);
    OneStep(settings, published, StartFetch(w));
    assert Apply(settings, published, StartFetch(w)) == asking;
    OthersLeaveIt(settings, asking, others, w);
    RunsJoin(settings, published, [StartFetch(w)], others);
    var before, end := Exec(settings, asking, others), EndFetch(w, resp.fetch);
    assert before.store[..|asking.store|] == asking.store;
    OneStep(settings, before, end);
    RunsJoin(settings, published, [StartFetch(w)] + others, [end]);
    steps := [StartFetch(w)] + others + [end];
  }

  /** In particular what RegisterAndCount does is such a run, however many pages fail: with a service
      that does not lie, its answer is one the system admits. */
  lemma RegisterAndCountIsARun(settings: Settings, sys: System, w: nat, req: Request, resp: Response, others: seq<Step>,
                               api: Api, arrived: seq<Beat>)
    returns (steps: seq<Step>)
    requires CanCall(sys, w, req, resp) && NoneOf(others, w)
    requires
      var asking := Asking(settings, sys, w, req, resp);
      var span := CloudWatchRegistry.SpanOf(settings, req, asking.store, arrived);
      && IsRun(settings, asking, others) && Exec(settings, asking, others).store == asking.store + arrived
      && Truthful(api, span)
      && (!Denied(resp) ==>
            CloudWatchRegistry.FetchIsRight(LeaseValid(sys.containers[w].cache, req.key, req.now), resp.fetch, api,
                span))
    ensures IsRun(settings, sys, steps) && ServedAs(settings, sys, Exec(settings, sys, steps), w, req, resp)
  {
    steps := CallIsARun(settings, sys, w, req, resp, others);
  }
}
