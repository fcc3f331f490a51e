/** The values of pkg/license/cloudwatch_registry.go: heartbeats in a store shared by all
    containers, one lease cache per container, and what a call makes of them. */
module RegistryModel {
  import opened Seqs

  /** Times are nanoseconds; a pair is not published again within a minute. */
  const MINUTE: int := 60_000_000_000
  const CHUNK: int := 20

  /** One stored datum of the metric: entitlement key, resource, timestamp, and its writer. */
  datatype Beat = Beat(key: string, arn: string, time: int, writer: nat)

  datatype Settings = Settings(slidingWindow: int, leaseDuration: int)

  /** `expires` is None for the zero time of a lease that was never taken. */
  datatype Lease = Lease(cachedCount: nat, expires: Option<int>, known: set<string>)

  /** The mutable fields of one container's registry. */
  datatype Cache = Cache(lastActiveCount: nat, leases: map<string, Lease>, lastHeartbeats: map<string, int>)

  datatype Failure = AccessDenied | Unavailable

  datatype Fetch = Fetched(active: set<string>) | FetchFailed(failure: Failure)

  function HbKey(key: string, arn: string): string {
    key + ['\0'] + arn
  }

  predicate NulFree(key: string) {
    '\0' !in key
  }

  /** Resources whose last heartbeat is missing or at least a minute prior. */
  function Due(cache: Cache, key: string, inputs: set<string>, now: int): set<string> {
    set a | a in inputs &&
      (HbKey(key, a) !in cache.lastHeartbeats || now - cache.lastHeartbeats[HbKey(key, a)] >= MINUTE)
  }

  function Mark(cache: Cache, key: string, arns: seq<string>, now: int): Cache
    decreases |arns|
  {
    if arns == [] then cache
    else
      var earlier := Mark(cache, key, arns[..|arns| - 1], now);
      earlier.(lastHeartbeats := earlier.lastHeartbeats[HbKey(key, arns[|arns| - 1]) := now])
  }

  function BeatsOf(key: string, arns: seq<string>, now: int, writer: nat): seq<Beat> {
    seq(|arns|, i requires 0 <= i < |arns| => Beat(key, arns[i], now, writer))
  }

  /** The simple count a lease stands for: resources with a heartbeat in a closed time interval. */
  function Active(store: seq<Beat>, key: string, lo: int, hi: int): set<string> {
    set b | b in store && b.key == key && lo <= b.time <= hi :: b.arn
  }

  predicate LeaseValid(cache: Cache, key: string, now: int) {
    key in cache.leases && cache.leases[key].expires.Some? && now < cache.leases[key].expires.value
  }

  datatype Answer = Answer(cache: Cache, count: nat, failure: Option<Failure>)

  /** A lease that could not be refreshed still learns of the inputs. */
  function Widened(prior: Lease, inputs: set<string>): Lease {
    var known := prior.known + inputs;
    prior.(known := known, cachedCount := if prior.cachedCount < |known| then |known| else prior.cachedCount)
  }

  /** Serve from a valid lease, else from a fetch, else from what is known. */
  function NextLease(settings: Settings, cache: Cache, key: string, inputs: set<string>, now: int,
      fetch: Fetch): Lease {
    if LeaseValid(cache, key, now) then
      var prior := cache.leases[key];
      prior.(known := prior.known + inputs, cachedCount := prior.cachedCount + |inputs - prior.known|)
    else match fetch
      case Fetched(active) => Lease(|active + inputs|, Some(now + settings.leaseDuration), active + inputs)
      case FetchFailed(_) => Widened(if key in cache.leases then cache.leases[key] else Lease(0, None, {}), inputs)
  }

  /** evaluateActiveCount: the lease is replaced, and its count remembered and returned. */
  function Evaluate(settings: Settings, cache: Cache, key: string, inputs: set<string>, now: int,
      fetch: Fetch): Answer {
    var lease := NextLease(settings, cache, key, inputs, now, fetch);
    Answer(
      cache.(leases := cache.leases[key := lease], lastActiveCount := lease.cachedCount),
      lease.cachedCount,
      if !LeaseValid(cache, key, now) && fetch.FetchFailed? then Some(fetch.failure) else None)
  }

  datatype Request = Request(key: string, inputs: set<string>, now: int)

  /** What a call met outside: the order in which it published the due resources, how many were
      stored before a chunk failed, and what the fetch (if one was needed) returned. */
  datatype Response = Response(order: seq<string>, stored: nat, putFailure: Option<Failure>, fetch: Fetch)

  ghost predicate Enumerates(order: seq<string>, s: set<string>) {
    && (forall i, j :: 0 <= i < j < |order| ==> order[i] != order[j])
    && (forall a :: a in order <==> a in s)
  }

  /** Publication goes chunk by chunk and stops at the first chunk that fails. */
  ghost predicate Possible(cache: Cache, req: Request, resp: Response) {
    && Enumerates(resp.order, Due(cache, req.key, req.inputs, req.now))
    && resp.stored <= |resp.order|
    && (resp.putFailure.None? <==> resp.stored == |resp.order|)
    && (resp.putFailure.Some? ==> resp.stored % CHUNK == 0)
  }

  datatype Served = Served(cache: Cache, store: seq<Beat>, count: nat, failure: Option<Failure>)

  predicate Denied(resp: Response) {
    resp.putFailure == Some(AccessDenied)
  }

  /** RegisterAndCount with a client: publish, then evaluate unless the put was denied. */
  function Serve(settings: Settings, writer: nat, cache: Cache, store: seq<Beat>, req: Request, resp: Response): Served
    requires resp.stored <= |resp.order|
  {
    var arns := resp.order[..resp.stored];
    var marked := Mark(cache, req.key, arns, req.now);
    var store' := store + BeatsOf(req.key, arns, req.now, writer);
    if Denied(resp) then Served(marked, store', 0, Some(AccessDenied))
    else
      var a := Evaluate(settings, marked, req.key, req.inputs, req.now, resp.fetch);
      Served(a.cache, store', a.count, a.failure)
  }

  lemma ServeDenied(settings: Settings, writer: nat, cache: Cache, store: seq<Beat>, req: Request, resp: Response)
    requires resp.stored <= |resp.order| && Denied(resp)
    ensures
      var arns := resp.order[..resp.stored];
      Serve(settings, writer, cache, store, req, resp) ==
        Served(Mark(cache, req.key, arns, req.now), store + BeatsOf(req.key, arns, req.now, writer), 0,
            Some(AccessDenied))
  {
  }

  lemma ServeEvaluated(settings: Settings, writer: nat, cache: Cache, store: seq<Beat>, req: Request, resp: Response)
    requires resp.stored <= |resp.order| && !Denied(resp)
    ensures
      var arns := resp.order[..resp.stored];
      var a := Evaluate(settings, Mark(cache, req.key, arns, req.now), req.key, req.inputs, req.now, resp.fetch);
      Serve(settings, writer, cache, store, req, resp) ==
        Served(a.cache, store + BeatsOf(req.key, arns, req.now, writer), a.count, a.failure)
  {
  }

  // ---------------------------------------------------------------- single calls

  lemma FirstNul(key: string, arn: string)
    requires NulFree(key)
    ensures HbKey(key, arn)[|key|] == '\0' && forall i :: 0 <= i < |key| ==> HbKey(key, arn)[i] != '\0'
  {
    assert forall i :: 0 <= i < |key| ==> HbKey(key, arn)[i] == key[i];
  }

  /** Two pairs share a heartbeat slot only if they are the same pair, when keys hold no NUL. */
  lemma HbKeyInjective(key1: string, arn1: string, key2: string, arn2: string)
    requires NulFree(key1) && NulFree(key2) && HbKey(key1, arn1) == HbKey(key2, arn2)
    ensures key1 == key2 && arn1 == arn2
  {
    var h := HbKey(key1, arn1);
    FirstNul(key1, arn1);
    FirstNul(key2, arn2);
    assert |key1| == |key2|;
    assert key1 == h[..|key1|] && key2 == h[..|key2|];
    assert arn1 == h[|key1| + 1..] && arn2 == h[|key2| + 1..];
  }

  /** A key with a NUL shares every one of its slots with another pair, whose key is what stands
      before the first NUL. */
  lemma HbKeysCollide(key: string, arn: string) returns (other: string, otherArn: string)
    requires !NulFree(key)
    ensures NulFree(other) && other != key && HbKey(other, otherArn) == HbKey(key, arn)
  {
    var n := FirstNulAt(key);
    other, otherArn := key[..n], key[n + 1..] + ['\0'] + arn;
    assert key == key[..n] + ['\0'] + key[n + 1..];
  }

  lemma {:induction false} FirstNulAt(key: string) returns (n: nat)
    requires !NulFree(key)
    ensures n < |key| && key[n] == '\0' && NulFree(key[..n])
  {
    n := 0;
    while key[n] != '\0'
      invariant n < |key| && NulFree(key[..n]) && !NulFree(key[n..])
      decreases |key| - n
    {
      assert key[n..] == [key[n]] + key[n + 1..];
      assert key[..n + 1] == key[..n] + [key[n]];
      n := n + 1;
    }
  }

  /** So a pair has its slot to itself, among keys without NUL, exactly if its own key holds none. */
  lemma SlotIsOwnExactly(key: string, arn: string)
    ensures NulFree(key) <==>
              forall other, otherArn :: NulFree(other) && HbKey(other, otherArn) == HbKey(key, arn) ==>
                  other == key && otherArn == arn
  {
    if NulFree(key) {
      forall other, otherArn | NulFree(other) && HbKey(other, otherArn) == HbKey(key, arn)
        ensures other == key && otherArn == arn
      {
        HbKeyInjective(other, otherArn, key, arn);
      }
    } else {
      var other, otherArn := HbKeysCollide(key, arn);
    }
  }

  /** Marking touches exactly the slots of the marked resources. */
  lemma {:induction false} MarkEffect(cache: Cache, key: string, arns: seq<string>, now: int, h: string)
    ensures var m := Mark(cache, key, arns, now);
      && m.leases == cache.leases && m.lastActiveCount == cache.lastActiveCount
      && (h in m.lastHeartbeats <==>
            h in cache.lastHeartbeats || exists i :: 0 <= i < |arns| && HbKey(key, arns[i]) == h)
      && (h in m.lastHeartbeats ==> (m.lastHeartbeats[h] ==
            if exists i :: 0 <= i < |arns| && HbKey(key, arns[i]) == h then now else cache.lastHeartbeats[h]))
  {
    if arns != [] {
      var n := |arns| - 1;
      MarkEffect(cache, key, arns[..n], now, h);
      if i :| 0 <= i < |arns| && HbKey(key, arns[i]) == h {
        assert i < n ==> HbKey(key, arns[..n][i]) == h;
      }
    }
  }

  /** Storing and marking the next chunk brings both up to its end. */
  lemma ChunkJoins(cache: Cache, key: string, arns: seq<string>, i: nat, end: nat, now: int, writer: nat)
    requires i <= end <= |arns|
    ensures BeatsOf(key, arns[..end], now, writer) ==
              BeatsOf(key, arns[..i], now, writer) + BeatsOf(key, arns[i..end], now, writer)
    ensures Mark(cache, key, arns[..end], now) == Mark(Mark(cache, key, arns[..i], now), key, arns[i..end], now)
  {
    assert arns[..i] + arns[i..end] == arns[..end];
    BeatsSplit(key, arns[..i], arns[i..end], now, writer);
    MarkSplit(cache, key, arns[..i], arns[i..end], now);
  }

  lemma BeatsSplit(key: string, a: seq<string>, b: seq<string>, now: int, writer: nat)
    ensures BeatsOf(key, a + b, now, writer) == BeatsOf(key, a, now, writer) + BeatsOf(key, b, now, writer)
  {
  }

  lemma {:induction false} MarkSplit(cache: Cache, key: string, a: seq<string>, b: seq<string>, now: int)
    ensures Mark(cache, key, a + b, now) == Mark(Mark(cache, key, a, now), key, b, now)
    decreases |b|
  {
    if b == [] {
      assert a + b == a;
    } else {
      assert (a + b)[..|a + b| - 1] == a + b[..|b| - 1];
      MarkSplit(cache, key, a, b[..|b| - 1], now);
    }
  }

  lemma {:induction false} MarkLeavesLeases(cache: Cache, key: string, arns: seq<string>, now: int)
    ensures Mark(cache, key, arns, now).leases == cache.leases
    decreases |arns|
  {
    if arns != [] {
      MarkLeavesLeases(cache, key, arns[..|arns| - 1], now);
    }
  }

  predicate CountsFit(cache: Cache) {
    forall k :: k in cache.leases ==> cache.leases[k].cachedCount == |cache.leases[k].known|
  }

  /** On every path, the count returned and remembered is the size of the known set, which now
      includes the inputs. */
  lemma EvaluateCounts(settings: Settings, cache: Cache, key: string, inputs: set<string>, now: int, fetch: Fetch)
    requires CountsFit(cache)
    ensures var a := Evaluate(settings, cache, key, inputs, now, fetch);
      && CountsFit(a.cache)
      && a.count == a.cache.lastActiveCount == |a.cache.leases[key].known|
      && inputs <= a.cache.leases[key].known
  {
    if LeaseValid(cache, key, now) {
      var known := cache.leases[key].known;
      assert known + inputs == known + (inputs - known);
    } else if fetch.FetchFailed? && key in cache.leases {
      var known := cache.leases[key].known;
      assert known + inputs == known + (inputs - known);
      assert |known + inputs| == |known| + |inputs - known|;
    }
  }

  /** A call under one key leaves the lease, the heartbeat slots and the counts of every other key alone. */
  lemma OtherKeysUntouched(settings: Settings, writer: nat, cache: Cache, store: seq<Beat>, req: Request,
      resp: Response, other: string, arn: string, lo: int, hi: int)
    requires resp.stored <= |resp.order|
    requires other != req.key && NulFree(other) && NulFree(req.key)
    ensures var r := Serve(settings, writer, cache, store, req, resp);
      && (other in r.cache.leases <==> other in cache.leases)
      && (other in cache.leases ==> r.cache.leases[other] == cache.leases[other])
      && (HbKey(other, arn) in r.cache.lastHeartbeats <==> HbKey(other, arn) in cache.lastHeartbeats)
      && (HbKey(other, arn) in cache.lastHeartbeats ==>
            r.cache.lastHeartbeats[HbKey(other, arn)] == cache.lastHeartbeats[HbKey(other, arn)])
      && Active(r.store, other, lo, hi) == Active(store, other, lo, hi)
  {
    var arns := resp.order[..resp.stored];
    MarkEffect(cache, req.key, arns, req.now, HbKey(other, arn));
    if i :| 0 <= i < |arns| && HbKey(req.key, arns[i]) == HbKey(other, arn) {
      HbKeyInjective(req.key, arns[i], other, arn);
    }
  }
}
