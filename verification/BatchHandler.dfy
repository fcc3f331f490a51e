/** The batch handler of cmd/lambda/main.go: preflight, gathering, licence gate, send, response. */
module BatchHandler {
  import opened Seqs
  import opened Strings
  import opened Quota
  import opened LicenseModel
  import opened EnforcerModel
  import opened EnforcerTheorems
  import opened Enforcer
  import opened BatchMerge
  import SendLogs

  /** What is extracted from the gathered entries and keys before the licence check. */
  datatype Sources = Sources(accounts: seq<string>, resources: seq<string>, features: seq<string>)

  /** One invocation: `before` and `after` are the worlds of the two licence checks, `base` the
      options common to both, `gathered` what the goroutines leave behind and `sent` how SendLogs
      ends, should it come to that.  `sorted` lists a set of buckets in order. */
  datatype Invocation<!E> = Invocation(
    before: World,
    after: World,
    base: Options,
    messages: seq<Message<E>>,
    failureAction: string,
    sorted: set<string> -> seq<string>,
    sources: Shared<E> -> Sources,
    registry: Option<(string, seq<string>, int) -> RegistryReply>,
    gathered: Shared<E>,
    sent: SendLogs.Result)

  datatype Fault = LicenceFault(error: LicenseError) | SendFault(result: SendLogs.Result)

  /** The ids reported as failed, and the error that makes SQS deliver the whole batch again. */
  datatype Response = Response(failures: seq<string>, error: Option<Fault>)

  function Ids<E>(messages: seq<Message<E>>): seq<string> {
    seq(|messages|, i requires 0 <= i < |messages| => messages[i].id)
  }

  /** Every bucket some message names. */
  function BucketsNamed<E>(messages: seq<Message<E>>): set<string> {
    set i, j | 0 <= i < |messages| && messages[i].body.Some? && 0 <= j < |messages[i].body.value| &&
               messages[i].body.value[j].bucket != "" :: messages[i].body.value[j].bucket
  }

  function WithBuckets(o: Options, buckets: seq<string>): Options {
    o.(bucketName := if buckets == [] then "" else buckets[0], bucketNames := buckets)
  }

  function PreflightOptions<E>(v: Invocation<E>): Options {
    WithBuckets(v.base, v.sorted(BucketsNamed(v.messages)))
  }

  /** The buckets of what was processed, or all of them if nothing was. */
  function FinalBuckets<E>(v: Invocation<E>): seq<string> {
    if v.gathered.buckets == {} then v.sorted(BucketsNamed(v.messages)) else v.sorted(v.gathered.buckets)
  }

  function FullOptions<E>(v: Invocation<E>): Options {
    var found := v.sources(v.gathered);
    WithBuckets(v.base, FinalBuckets(v)).(
      sourceAccounts := found.accounts, sourceResources := found.resources, exercisedFeatures := found.features,
      batchRecordCount := |v.gathered.entries|, registry := v.registry)
  }

  /** The licence error that stops the invocation, and the failures reported before it. */
  datatype Stop = Stop(error: LicenseError, reported: seq<string>)

  function LicenceStop<E>(v: Invocation<E>, tr: Trackers): Option<Stop> {
    var pre := Decide(v.before, Preflight(PreflightOptions(v)), Trackers(None, None));
    if v.messages == [] then None
    else if pre.error.Some? then Some(Stop(pre.error.value, []))
    else
      var full := Decide(v.after, FullOptions(v), tr);
      if full.error.Some? then Some(Stop(full.error.value, v.gathered.failures)) else None
  }

  /** A licence error that no retry can cure ends the batch without an error. */
  predicate Aborts<E>(v: Invocation<E>, tr: Trackers) {
    LicenceStop(v, tr).Some? && IsDeterministic(LicenceStop(v, tr).value.error)
  }

  function Answer<E>(v: Invocation<E>, tr: Trackers): Response {
    var stop := LicenceStop(v, tr);
    if v.messages == [] then Response([], None)
    else if stop.Some? then
      if IsDeterministic(stop.value.error) then
        Response(if ToLower(v.failureAction) == "dlq" then stop.value.reported + Ids(v.messages) else [], None)
      else Response(stop.value.reported, Some(LicenceFault(stop.value.error)))
    else if v.gathered.entries != [] && v.sent != SendLogs.Delivered then
      Response(v.gathered.failures, Some(SendFault(v.sent)))
    else Response(v.gathered.failures, None)
  }

  // ---------------------------------------------------------------- the handler

  method CollectBuckets<E>(messages: seq<Message<E>>) returns (buckets: set<string>)
    ensures buckets == BucketsNamed(messages)
  {
    buckets := {};
    var i := 0;
    while i < |messages|
      invariant i <= |messages|
      invariant buckets == BucketsNamed(messages[..i])
    {
      ghost var earlier := buckets;
      if messages[i].body.Some? {
        var objects := messages[i].body.value;
        var j := 0;
        while j < |objects|
          invariant j <= |objects|
          invariant buckets == earlier + (set k | 0 <= k < j && objects[k].bucket != "" :: objects[k].bucket)
        {
          if objects[j].bucket != "" {
            buckets := buckets + {objects[j].bucket};
          }
          j := j + 1;
        }
      }
      NamedSnoc(messages, i);
      i := i + 1;
    }
    assert messages[..|messages|] == messages;
  }

  lemma NamedSnoc<E>(messages: seq<Message<E>>, i: nat)
    requires i < |messages|
    ensures BucketsNamed(messages[..i + 1]) == BucketsNamed(messages[..i]) +
              if messages[i].body.None? then {}
              else (set k | 0 <= k < |messages[i].body.value| && messages[i].body.value[k].bucket != ""
                      :: messages[i].body.value[k].bucket)
  {
    var longer, shorter := messages[..i + 1], messages[..i];
    assert longer[i] == messages[i];
    forall b | b in BucketsNamed(shorter) ensures b in BucketsNamed(longer) {
      var k, j :| 0 <= k < |shorter| && shorter[k].body.Some? && 0 <= j < |shorter[k].body.value| &&
                  shorter[k].body.value[j].bucket != "" && shorter[k].body.value[j].bucket == b;
      assert longer[k] == shorter[k];
    }
    forall b | b in BucketsNamed(longer)
      ensures b in BucketsNamed(shorter) ||
                (longer[i].body.Some? &&
                 exists j :: 0 <= j < |longer[i].body.value| && longer[i].body.value[j].bucket == b && b != "")
    {
      var k, j :| 0 <= k < |longer| && longer[k].body.Some? && 0 <= j < |longer[k].body.value| &&
                  longer[k].body.value[j].bucket != "" && longer[k].body.value[j].bucket == b;
      if k < i {
        assert shorter[k] == longer[k];
      }
    }
  }

  method AppendIds<E>(reported: seq<string>, messages: seq<Message<E>>) returns (failures: seq<string>)
    ensures failures == reported + Ids(messages)
  {
    failures := reported;
    for i := 0 to |messages|
      invariant failures == reported + Ids(messages[..i])
    {
      assert Ids(messages[..i + 1]) == Ids(messages[..i]) + [messages[i].id];
      failures := failures + [messages[i].id];
    }
    assert messages[..|messages|] == messages;
  }

  method Abort<E>(v: Invocation<E>, reported: seq<string>) returns (response: Response)
    ensures response == Response(if ToLower(v.failureAction) == "dlq" then reported + Ids(v.messages) else [], None)
  {
    var failures := [];
    if ToLower(v.failureAction) == "dlq" {
      failures := AppendIds(reported, v.messages);
    }
    return Response(failures, None);
  }

  method Handle<E>(v: Invocation<E>, quota: QuotaTracker, resources: ResourceTracker) returns (response: Response)
    modifies quota, resources
    ensures response == Answer(v, old(View(quota, resources)))
  {
    response := Response([], None);
    if |v.messages| == 0 {
      return;
    }
    var named := CollectBuckets(v.messages);
    var buckets := v.sorted(named);
    var primary := "";
    if |buckets| > 0 {
      primary := buckets[0];
    }
    var stripped := v.base.(bucketName := primary, bucketNames := buckets);
    var _, preflightError := PreflightEnforce(v.before, stripped, null, null);
    if preflightError.Some? {
      if IsDeterministic(preflightError.value) {
        response := Abort(v, []);
        return;
      }
      return Response([], Some(LicenceFault(preflightError.value)));
    }
    var failures := v.gathered.failures;
    if v.gathered.buckets != {} {
      buckets := v.sorted(v.gathered.buckets);
    }
    primary := "";
    if |buckets| > 0 {
      primary := buckets[0];
    }
    var found := v.sources(v.gathered);
    var options := v.base.(bucketName := primary, bucketNames := buckets,
      sourceAccounts := found.accounts, sourceResources := found.resources, exercisedFeatures := found.features,
      batchRecordCount := |v.gathered.entries|, registry := v.registry);
    assert options == FullOptions(v);
    var _, licenceError := Enforce(v.after, options, quota, resources);
    if licenceError.Some? {
      if IsDeterministic(licenceError.value) {
        response := Abort(v, failures);
        return;
      }
      return Response(failures, Some(LicenceFault(licenceError.value)));
    }
    if |v.gathered.entries| > 0 {
      if v.sent != SendLogs.Delivered {
        return Response(failures, Some(SendFault(v.sent)));
      }
    }
    return Response(failures, None);
  }

  // ---------------------------------------------------------------- what a response means

  /** The handler asks for redelivery of the whole batch in two cases only: the send failed, or the
      licence token may still be resolved at one of the two checks.  No other licence failure makes
      SQS retry. */
  lemma OnlyCurableErrors<E>(v: Invocation<E>, tr: Trackers)
    ensures
      var pre, full := PreflightOptions(v), FullOptions(v);
      var stopped := Decide(v.before, Preflight(pre), Trackers(None, None)).error.Some?;
      (Answer(v, tr).error.Some? && Answer(v, tr).error.value.LicenceFault?) <==>
        v.messages != [] && (TokenMayStillCome(v.before, Preflight(pre)) ||
            (!stopped && TokenMayStillCome(v.after, full)))
    ensures
      (Answer(v, tr).error.Some? && Answer(v, tr).error.value.SendFault?) <==>
        v.messages != [] && LicenceStop(v, tr).None? && v.gathered.entries != [] && v.sent != SendLogs.Delivered
  {
    ErrorsAreDeterministic(v.before, Preflight(PreflightOptions(v)), Trackers(None, None));
    ErrorsAreDeterministic(v.after, FullOptions(v), tr);
  }

  /** Outside strict mode the licence has no say: the answer is what it would be without checks. */
  lemma WarnNeverInterferes<E>(v: Invocation<E>, tr: Trackers)
    requires !Strict(v.before, Preflight(PreflightOptions(v))) && !Strict(v.after, FullOptions(v))
    ensures !Aborts(v, tr)
    ensures v.messages != [] ==>
              Answer(v, tr) == Response(v.gathered.failures,
                if v.gathered.entries != [] && v.sent != SendLogs.Delivered then Some(SendFault(v.sent)) else None)
  {
    ModeContract(v.before, Preflight(PreflightOptions(v)), Trackers(None, None));
    ModeContract(v.after, FullOptions(v), tr);
  }
}
