/** The registry object of pkg/license/cloudwatch_registry.go: its methods, update by update,
    proved to do to their fields and to the shared store what RegistryModel says. */
module CloudWatchRegistry {
  import opened Seqs
  import opened Strings
  import opened RegistryModel
  import opened RegistryQuery

  /** The append-only heartbeat store all containers share. */
  class HeartbeatStore {
    var beats: seq<Beat>

    constructor ()
      ensures beats == []
    {
      beats := [];
    }
  }

  /** A blank key counts as "unlicensed". */
  function NormalKey(key: string): string {
    if TrimSpace(key) == "" then "unlicensed" else TrimSpace(key)
  }

  /** Trimmed, without blanks and duplicates. */
  function UniqueInputs(arns: seq<string>): set<string> {
    set a | a in arns && TrimSpace(a) != "" :: TrimSpace(a)
  }

  /** Neither the lease nor the heartbeats of any other key changed: what was stored is all under `key`. */
  ghost predicate LeavesOthers(cache: Cache, store: seq<Beat>, after: Cache, grown: seq<Beat>, key: string) {
    && (forall other :: other != key ==>
          && (other in after.leases <==> other in cache.leases)
          && (other in cache.leases ==> after.leases[other] == cache.leases[other]))
    && (forall other, arn :: other != key && NulFree(other) && NulFree(key) ==>
          SlotKept(cache.lastHeartbeats, after.lastHeartbeats, HbKey(other, arn)))
    && store <= grown && (forall i :: |store| <= i < |grown| ==> grown[i].key == key)
  }

  predicate SlotKept(slots: map<string, int>, after: map<string, int>, slot: string) {
    (slot in after <==> slot in slots) && (slot in slots ==> after[slot] == slots[slot])
  }

  /** The resource is among those given, but for blanks around it. */
  predicate Given(arns: seq<string>, a: string) {
    a != "" && exists i :: 0 <= i < |arns| && TrimSpace(arns[i]) == a
  }

  /** The lease of `key` knows the resources given, and counts what it was said to count. */
  ghost predicate Learns(cache: Cache, after: Cache, key: string, arns: seq<string>, count: nat) {
    && key in after.leases && count == after.lastActiveCount == after.leases[key].cachedCount
    && (CountsFit(cache) ==> count == |after.leases[key].known|)
    && (forall a :: Given(arns, a) ==> a in after.leases[key].known)
  }

  function PriorLease(cache: Cache, key: string): Lease {
    if key in cache.leases then cache.leases[key] else Lease(0, None, {})
  }

  /** The lease of `key` now runs until then, and knows these resources and the ones given, and no others. */
  ghost predicate LearnsOnly(expires: Option<int>, known: set<string>, after: Cache, key: string, arns: seq<string>) {
    && key in after.leases && after.leases[key].expires == expires
    && forall a :: a in after.leases[key].known <==> a in known || Given(arns, a)
  }

  /** What a call that was not denied does to its key's lease and reports: without a client, or under a
      lease that has not run out, the lease learns of the resources given.  Otherwise there is a query.
      If it is answered, the lease starts anew with the answer; if not, it goes on as it was. */
  ghost predicate Updates(settings: Settings, queries: bool, cache: Cache, after: Cache, key: string,
      arns: seq<string>, now: int, fetch: Fetch, failure: Option<Failure>) {
    var prior := PriorLease(cache, key);
    if !queries || (prior.expires.Some? && now < prior.expires.value) then
      failure == None && LearnsOnly(prior.expires, prior.known, after, key, arns)
    else match fetch
      case Fetched(active) =>
        failure == None && LearnsOnly(Some(now + settings.leaseDuration), active, after, key, arns)
      case FetchFailed(f) => failure == Some(f) && LearnsOnly(prior.expires, prior.known, after, key, arns)
  }

  /** Counting in memory, without a client. */
  function InMemory(cache: Cache, key: string, inputs: set<string>): Cache {
    var prior := if key in cache.leases then cache.leases[key] else Lease(0, None, {});
    var lease := prior.(known := prior.known + inputs, cachedCount := |prior.known + inputs|);
    cache.(leases := cache.leases[key := lease], lastActiveCount := lease.cachedCount)
  }

  /** What an evaluation was told, unless a valid lease spared it the query: with a truthful service
      a right set or a failure, and if nothing fails a set. */
  ghost predicate FetchIsRight(leaseValid: bool, fetch: Fetch, api: Api, span: Span) {
    !leaseValid ==>
      && (Truthful(api, span) && fetch.Fetched? ==> span.Admits(fetch.active))
      && (Arrives(api) ==> fetch.Fetched?)
  }

  /** The query of one call: `store` when it starts, and what others add while it runs. */
  function SpanOf(settings: Settings, req: Request, store: seq<Beat>, arrived: seq<Beat>): Span {
    Span(store, store + arrived, req.key, req.now - settings.slidingWindow, req.now)
  }

  class CloudWatchRegistry {
    const container: nat
    const hasClient: bool
    const settings: Settings
    var lastActiveCount: nat
    var leases: map<string, Lease>
    var lastHeartbeats: map<string, int>

    function View(): Cache
      reads this
    {
      Cache(lastActiveCount, leases, lastHeartbeats)
    }

    constructor (container: nat, hasClient: bool, settings: Settings)
      ensures View() == Cache(0, map[], map[])
      ensures this.container == container && this.hasClient == hasClient && this.settings == settings
    {
      this.container, this.hasClient, this.settings := container, hasClient, settings;
      lastActiveCount, leases, lastHeartbeats := 0, map[], map[];
    }

    method FilterHeartbeatsToPublish(key: string, inputs: set<string>, now: int) returns (toPublish: seq<string>)
      ensures Enumerates(toPublish, Due(View(), key, inputs, now))
    {
      toPublish := [];
      var left := inputs;
      while left != {}
        invariant left <= inputs
        invariant Enumerates(toPublish, Due(View(), key, inputs - left, now))
      {
        var arn :| arn in left;
        var slot := HbKey(key, arn);
        assert arn !in toPublish;
        if slot !in lastHeartbeats || now - lastHeartbeats[slot] >= MINUTE {
          toPublish := toPublish + [arn];
        }
        assert inputs - (left - {arn}) == inputs - left + {arn};
        left := left - {arn};
      }
      assert inputs - {} == inputs;
    }

    method MarkHeartbeatsPublished(key: string, arns: seq<string>, now: int)
      modifies this`lastHeartbeats
      ensures View() == Mark(old(View()), key, arns, now)
    {
      for i := 0 to |arns|
        invariant View() == Mark(old(View()), key, arns[..i], now)
      {
        assert arns[..i + 1][..i] == arns[..i];
        lastHeartbeats := lastHeartbeats[HbKey(key, arns[i]) := now];
      }
      assert arns[..|arns|] == arns;
    }

    /** A successful put: the chunk is in the store, and its resources are marked. */
    method StoreChunk(key: string, chunk: seq<string>, now: int, store: HeartbeatStore)
      modifies this`lastHeartbeats, store
      ensures store.beats == old(store.beats) + BeatsOf(key, chunk, now, container)
      ensures View() == Mark(old(View()), key, chunk, now)
    {
      store.beats := store.beats + BeatsOf(key, chunk, now, container);
      MarkHeartbeatsPublished(key, chunk, now);
    }

    /** Stores and marks chunk by chunk.  When chunk k fails, exactly the chunks before it are in
        the store and exactly their resources are marked. */
    method PublishHeartbeats(key: string, arns: seq<string>, now: int, put: nat -> Option<Failure>,
        store: HeartbeatStore)
      returns (failure: Option<Failure>, ghost stored: nat)
      modifies this`lastHeartbeats, store
      ensures stored <= |arns| && (failure.None? <==> stored == |arns|)
      ensures failure.Some? ==> stored % 20 == 0 && put(stored / 20) == failure
      ensures forall k: nat :: 20 * k < stored ==> put(k).None?
      ensures store.beats == old(store.beats) + BeatsOf(key, arns[..stored], now, container)
      ensures View() == Mark(old(View()), key, arns[..stored], now)
    {
      stored := 0;
      var i, k := 0, 0;
      assert BeatsOf(key, arns[..0], now, container) == [];
      while i < |arns|
        invariant i == CHUNK * k && k >= 0
        invariant stored == (if i < |arns| then i else |arns|)
        invariant forall j: nat :: CHUNK * j < stored ==> put(j).None?
        invariant store.beats == old(store.beats) + BeatsOf(key, arns[..stored], now, container)
        invariant View() == Mark(old(View()), key, arns[..stored], now)
      {
        var end := i + CHUNK;
        if end > |arns| {
          end := |arns|;
        }
        failure := put(k);
        if failure.Some? {
          return;
        }
        StoreChunk(key, arns[i..end], now, store);
        ChunkJoins(old(View()), key, arns, i, end, now, container);
        stored := end;
        i := i + CHUNK;
        k := k + 1;
      }
      assert arns[..|arns|] == arns;
      failure := None;
    }

    /** The fast path's loop: add the inputs and count the new ones. */
    static method AddInputs(known: set<string>, inputs: set<string>) returns (merged: set<string>, delta: nat)
      ensures merged == known + inputs && delta == |inputs - known|
    {
      merged, delta := known, 0;
      var left := inputs;
      while left != {}
        invariant left <= inputs
        invariant merged == known + (inputs - left) && delta == |inputs - left - known|
      {
        var arn :| arn in left;
        OneMoreInput(known, inputs, left, arn);
        if arn !in merged {
          merged := merged + {arn};
          delta := delta + 1;
        }
        left := left - {arn};
      }
      assert inputs - left == inputs;
    }

    /** Replaces one lease and remembers its count. */
    method PutLease(key: string, lease: Lease)
      modifies this`leases, this`lastActiveCount
      ensures View() == old(View()).(leases := old(leases)[key := lease], lastActiveCount := lease.cachedCount)
    {
      leases := leases[key := lease];
      lastActiveCount := lease.cachedCount;
    }

    /** The fast path: a valid lease learns of the inputs. */
    method ExtendLease(key: string, inputs: set<string>, now: int, ghost fetch: Fetch) returns (lease: Lease)
      requires LeaseValid(View(), key, now)
      ensures lease == NextLease(settings, View(), key, inputs, now, fetch)
    {
      var state := leases[key];
      var known, delta := AddInputs(state.known, inputs);
      lease := state.(known := known, cachedCount := state.cachedCount + delta);
    }

    /** The lease that follows from a fetch, or from its failure. */
    method RenewLease(key: string, inputs: set<string>, now: int, fetched: Fetch)
        returns (lease: Lease, failure: Option<Failure>)
      requires !LeaseValid(View(), key, now)
      ensures lease == NextLease(settings, View(), key, inputs, now, fetched)
      ensures failure == if fetched.FetchFailed? then Some(fetched.failure) else None
    {
      match fetched {
        case FetchFailed(f) =>
          var state := if key in leases then leases[key] else Lease(0, None, {});
          var known := state.known + inputs;
          lease := state.(known := known);
          if lease.cachedCount < |known| {
            lease := lease.(cachedCount := |known|);
          }
          return lease, Some(f);
        case Fetched(active) =>
          var activeSet := active + inputs;
          return Lease(|activeSet|, Some(now + settings.leaseDuration), activeSet), None;
      }
    }

    method EvaluateActiveCount(key: string, inputs: set<string>, now: int, api: Api, ghost span: Span)
      returns (count: nat, failure: Option<Failure>, ghost fetch: Fetch)
      modifies this`leases, this`lastActiveCount
      ensures Answer(View(), count, failure) == Evaluate(settings, old(View()), key, inputs, now, fetch)
      ensures FetchIsRight(LeaseValid(old(View()), key, now), fetch, api, span)
    {
      var lease;
      failure := None;
      if key in leases && leases[key].expires.Some? && now < leases[key].expires.value {
        fetch := Fetched({});
        lease := ExtendLease(key, inputs, now, fetch);
      } else {
        var fetched := FetchActive(api, span);
        fetch := fetched;
        lease, failure := RenewLease(key, inputs, now, fetched);
      }
      PutLease(key, lease);
      count := lease.cachedCount;
    }

    /** The inputs of a call, trimmed and without duplicates. */
    static method Normalize(entitlementKey: string, resourceARNs: seq<string>)
        returns (key: string, inputs: set<string>)
      ensures key == NormalKey(entitlementKey) && inputs == UniqueInputs(resourceARNs)
    {
      key := TrimSpace(entitlementKey);
      if key == "" {
        key := "unlicensed";
      }
      inputs := {};
      for i := 0 to |resourceARNs|
        invariant inputs == UniqueInputs(resourceARNs[..i])
      {
        var arn := TrimSpace(resourceARNs[i]);
        assert resourceARNs[..i + 1] == resourceARNs[..i] + [resourceARNs[i]];
        if arn != "" {
          inputs := inputs + {arn};
        }
      }
      assert resourceARNs[..|resourceARNs|] == resourceARNs;
    }

    /** Without a client resources are counted in memory. */
    method CountInMemory(key: string, inputs: set<string>) returns (count: nat)
      modifies this`leases, this`lastActiveCount
      ensures View() == InMemory(old(View()), key, inputs) && count == lastActiveCount
    {
      var state := if key in leases then leases[key] else Lease(0, None, {});
      var known := state.known + inputs;
      leases := leases[key := state.(known := known, cachedCount := |known|)];
      lastActiveCount := |known|;
      count := lastActiveCount;
    }

    /** With a client: publish what is due, then evaluate, unless the put was denied. */
    method PublishAndEvaluate(key: string, inputs: set<string>, now: int,
        put: nat -> Option<Failure>, api: Api, store: HeartbeatStore, ghost arrived: seq<Beat>)
      returns (count: nat, failure: Option<Failure>, ghost resp: Response)
      modifies this, store
      ensures
        var req := Request(key, inputs, now);
        && Possible(old(View()), req, resp)
        && Served(View(), store.beats, count, failure) ==
              Serve(settings, container, old(View()), old(store.beats), req, resp)
        && (!Denied(resp) ==>
              FetchIsRight(LeaseValid(old(View()), key, now), resp.fetch, api,
                  SpanOf(settings, req, store.beats, arrived)))
      ensures resp.putFailure.Some? ==> put(resp.stored / 20) == resp.putFailure
      ensures forall k: nat :: 20 * k < resp.stored ==> put(k).None?
    {
      ghost var cache, beats := View(), store.beats;
      ghost var req := Request(key, inputs, now);
      var toPublish := FilterHeartbeatsToPublish(key, inputs, now);
      var putFailure, stored := PublishHeartbeats(key, toPublish, now, put, store);
      resp := Response(toPublish, stored, putFailure, Fetched({}));
      assert Possible(cache, req, resp);
      if putFailure == Some(AccessDenied) {
        ServeDenied(settings, container, cache, beats, req, resp);
        return 0, putFailure, resp;
      }
      MarkLeavesLeases(cache, key, toPublish[..stored], now);
      ghost var fetch;
      ghost var span := SpanOf(settings, req, store.beats, arrived);
      count, failure, fetch := EvaluateActiveCount(key, inputs, now, api, span);
      resp := resp.(fetch := fetch);
      ServeEvaluated(settings, container, cache, beats, req, resp);
    }

    /** One whole call.  `arrived` is what other containers store while its query runs.
        Whatever the client, it is a call under the trimmed key, or "unlicensed", for the trimmed resources:
        other keys are left alone, and unless the put was denied the key's lease knows every one of them.
        A lease that has not run out spares the call its query, and one that is renewed lasts from now on. */
    method RegisterAndCount(entitlementKey: string, resourceARNs: seq<string>, now: int,
        put: nat -> Option<Failure>, api: Api, store: HeartbeatStore, ghost arrived: seq<Beat>)
      returns (count: nat, failure: Option<Failure>, ghost resp: Response)
      modifies this, store
      ensures !hasClient ==>
                && View() == InMemory(old(View()), NormalKey(entitlementKey), UniqueInputs(resourceARNs))
                && store.beats == old(store.beats) && count == View().lastActiveCount && failure.None?
      ensures hasClient ==>
                var req := Request(NormalKey(entitlementKey), UniqueInputs(resourceARNs), now);
                && Possible(old(View()), req, resp)
                && Served(View(), store.beats, count, failure) ==
                     Serve(settings, container, old(View()), old(store.beats), req, resp)
                && (!Denied(resp) ==>
                      FetchIsRight(LeaseValid(old(View()), req.key, now), resp.fetch, api,
                                   SpanOf(settings, req, store.beats, arrived)))
      ensures resp.putFailure.Some? ==> hasClient && put(resp.stored / 20) == resp.putFailure
      ensures forall k: nat :: 20 * k < resp.stored ==> put(k).None?
      ensures
        var key := if TrimSpace(entitlementKey) == "" then "unlicensed" else TrimSpace(entitlementKey);
        && LeavesOthers(old(View()), old(store.beats), View(), store.beats, key)
        && (resp.putFailure == Some(AccessDenied) ==>
              count == 0 && failure == Some(AccessDenied) && leases == old(leases))
        && (resp.putFailure != Some(AccessDenied) ==>
              && Learns(old(View()), View(), key, resourceARNs, count)
              && Updates(settings, hasClient, old(View()), View(), key, resourceARNs, now, resp.fetch, failure))
    {
      var key, inputs := Normalize(entitlementKey, resourceARNs);
      if !hasClient {
        InMemoryIsOwn(View(), key, resourceARNs);
        count := CountInMemory(key, inputs);
        return count, None, Response([], 0, None, Fetched({}));
      }
      ghost var cache, beats := View(), store.beats;
      count, failure, resp := PublishAndEvaluate(key, inputs, now, put, api, store, arrived);
      ServeIsOwn(settings, container, cache, beats, key, resourceARNs, now, resp);
    }
  }

  /** Keys with something in them share a lease exactly if they agree but for blanks around them; all
      keys without share one, which is also that of a key "unlicensed". */
  lemma KeysShareExactly(key1: string, key2: string)
    ensures !AllSpace(key1) && !AllSpace(key2) ==>
              (NormalKey(key1) == NormalKey(key2) <==> TrimSpace(key1) == TrimSpace(key2))
    ensures AllSpace(key1) ==>
              (NormalKey(key1) == NormalKey(key2) <==> AllSpace(key2) || TrimSpace(key2) == "unlicensed")
  {
    BlankExactly(key1);
    BlankExactly(key2);
  }

  lemma InputsAreGiven(arns: seq<string>)
    ensures forall a :: a in UniqueInputs(arns) <==> Given(arns, a)
  {
    forall a | Given(arns, a)
      ensures a in UniqueInputs(arns)
    {
      var i :| 0 <= i < |arns| && TrimSpace(arns[i]) == a;
      assert arns[i] in arns;
    }
  }

  lemma InMemoryIsOwn(cache: Cache, key: string, arns: seq<string>)
    ensures var after := InMemory(cache, key, UniqueInputs(arns));
      && LeavesOthers(cache, [], after, [], key)
      && Learns(cache, after, key, arns, after.lastActiveCount)
      && LearnsOnly(PriorLease(cache, key).expires, PriorLease(cache, key).known, after, key, arns)
  {
    InputsAreGiven(arns);
  }

  lemma MarkLeavesOthers(cache: Cache, store: seq<Beat>, key: string, order: seq<string>, now: int, writer: nat)
    ensures
      LeavesOthers(cache, store, Mark(cache, key, order, now), store + BeatsOf(key, order, now, writer), key)
  {
    MarkLeavesLeases(cache, key, order, now);
    forall other, arn | other != key && NulFree(other) && NulFree(key)
      ensures SlotKept(cache.lastHeartbeats, Mark(cache, key, order, now).lastHeartbeats, HbKey(other, arn))
    {
      MarkEffect(cache, key, order, now, HbKey(other, arn));
      if i :| 0 <= i < |order| && HbKey(key, order[i]) == HbKey(other, arn) {
        HbKeyInjective(key, order[i], other, arn);
      }
    }
  }

  lemma ServeIsOwn(settings: Settings, writer: nat, cache: Cache, store: seq<Beat>, key: string, arns: seq<string>,
      now: int, resp: Response)
    requires resp.stored <= |resp.order|
    ensures
      var r := Serve(settings, writer, cache, store, Request(key, UniqueInputs(arns), now), resp);
      && LeavesOthers(cache, store, r.cache, r.store, key)
      && (resp.putFailure == Some(AccessDenied) ==>
            r.count == 0 && r.failure == Some(AccessDenied) && r.cache.leases == cache.leases)
      && (resp.putFailure != Some(AccessDenied) ==>
            && Learns(cache, r.cache, key, arns, r.count)
            && Updates(settings, true, cache, r.cache, key, arns, now, resp.fetch, r.failure))
  {
    var order, inputs := resp.order[..resp.stored], UniqueInputs(arns);
    var marked := Mark(cache, key, order, now);
    MarkLeavesLeases(cache, key, order, now);
    MarkLeavesOthers(cache, store, key, order, now, writer);
    if Denied(resp) {
      ServeDenied(settings, writer, cache, store, Request(key, inputs, now), resp);
    } else {
      ServeEvaluated(settings, writer, cache, store, Request(key, inputs, now), resp);
      EvaluateIsOwn(settings, marked, key, arns, now, resp.fetch);
      var after := Evaluate(settings, marked, key, inputs, now, resp.fetch).cache;
      assert LeavesOthers(cache, store, after, store + BeatsOf(key, order, now, writer), key);
    }
  }

  lemma EvaluateIsOwn(settings: Settings, cache: Cache, key: string, arns: seq<string>, now: int, fetch: Fetch)
    ensures
      var a := Evaluate(settings, cache, key, UniqueInputs(arns), now, fetch);
      && Learns(cache, a.cache, key, arns, a.count)
      && Updates(settings, true, cache, a.cache, key, arns, now, fetch, a.failure)
  {
    InputsAreGiven(arns);
    if CountsFit(cache) {
      EvaluateCounts(settings, cache, key, UniqueInputs(arns), now, fetch);
    }
  }

  lemma OneMoreInput(known: set<string>, inputs: set<string>, left: set<string>, arn: string)
    requires arn in left && left <= inputs
    ensures known + (inputs - (left - {arn})) == known + (inputs - left) + {arn}
    ensures |inputs - (left - {arn}) - known| ==
              |inputs - left - known| + if arn in known + (inputs - left) then 0 else 1
  {
    if arn in known {
      assert inputs - (left - {arn}) - known == inputs - left - known;
    } else {
      assert inputs - (left - {arn}) - known == (inputs - left - known) + {arn};
    }
  }
}
