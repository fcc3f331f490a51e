/** The batch handler of cmd/lambda/main.go, message by message: what one message yields, and why
    the order in which yields are merged does not matter.  MergeRuns has the goroutines. */
module BatchMerge {
  import opened Seqs

  datatype Feature =
    | ParserALB | ParserNLB | ParserCloudFrontGzip | ParserCloudFrontParquet | ParserWAF | EnrichmentUserAgent

  datatype Processed<+E> = Entries(entries: seq<E>) | ProcessError

  /** One S3 record of a message: `processor` is the name of the matching processor, if any, and
      `processed` what its Process call returns. */
  datatype S3Object<+E> = S3Object(bucket: string, key: string, processor: Option<string>, processed: Processed<E>)
  {
    predicate Named() {
      bucket != "" && key != ""
    }

    predicate Relevant() {
      Named() && processor.Some?
    }
  }

  /** An SQS message; `body` is None if it does not parse as an S3 event. */
  datatype Message<+E> = Message(id: string, body: Option<seq<S3Object<E>>>)

  predicate EndsWith(s: string, suffix: string) {
    |suffix| <= |s| && s[|s| - |suffix|..] == suffix
  }

  /** The licensed features one non-empty object exercises. */
  function FeaturesOf(processor: string, key: string, enrich: bool): set<Feature> {
    (if processor == "ALB" then {ParserALB}
     else if processor == "NLB" then {ParserNLB}
     else if processor == "CloudFront" then
       (if EndsWith(key, ".parquet") then {ParserCloudFrontParquet} else {ParserCloudFrontGzip})
     else if processor == "WAF" then {ParserWAF}
     else {}) +
    (if enrich && processor in {"ALB", "CloudFront", "WAF"} then {EnrichmentUserAgent} else {})
  }

  // ---------------------------------------------------------------- one message

  /** What a goroutine has gathered of its message. */
  datatype Yield<+E> = Yield(entries: seq<E>, keys: seq<string>, buckets: set<string>, features: set<Feature>)

  predicate Fails<E>(objects: seq<S3Object<E>>) {
    exists i :: 0 <= i < |objects| && objects[i].Relevant() && objects[i].processed.ProcessError?
  }

  /** The entries of the objects that have a processor, object after found. */
  function EntriesOf<E>(objects: seq<S3Object<E>>): seq<E> {
    if objects == [] then []
    else
      var last := objects[|objects| - 1];
      EntriesOf(objects[..|objects| - 1]) +
      (if last.Relevant() && last.processed.Entries? then last.processed.entries else [])
  }

  function KeysOf<E>(objects: seq<S3Object<E>>): seq<string> {
    if objects == [] then []
    else KeysOf(objects[..|objects| - 1]) +
         (if objects[|objects| - 1].Relevant() then [objects[|objects| - 1].key] else [])
  }

  function BucketsOf<E>(objects: seq<S3Object<E>>): set<string> {
    set i | 0 <= i < |objects| && objects[i].Named() :: objects[i].bucket
  }

  function AllFeatures<E>(objects: seq<S3Object<E>>, enrich: bool): set<Feature> {
    if objects == [] then {}
    else
      var last := objects[|objects| - 1];
      AllFeatures(objects[..|objects| - 1], enrich) +
      (if last.Relevant() && last.processed.Entries? && last.processed.entries != []
       then FeaturesOf(last.processor.value, last.key, enrich) else {})
  }

  function YieldOf<E>(objects: seq<S3Object<E>>, enrich: bool): Yield<E> {
    Yield(EntriesOf(objects), KeysOf(objects), BucketsOf(objects), AllFeatures(objects, enrich))
  }

  /** The body of a goroutine: objects in order, up to the first that fails. */
  method ProcessMessage<E>(objects: seq<S3Object<E>>, enrich: bool) returns (failed: bool, gathered: Yield<E>)
    ensures failed <==> Fails(objects)
    ensures !failed ==> gathered == YieldOf(objects, enrich)
  {
    failed, gathered := false, Yield([], [], {}, {});
    var i := 0;
    while i < |objects|
      invariant i <= |objects|
      invariant !failed && !Fails(objects[..i])
      invariant gathered == YieldOf(objects[..i], enrich)
    {
      var found := objects[i];
      OneMore(objects, i, enrich);
      if found.Named() {
        gathered := gathered.(buckets := gathered.buckets + {found.bucket});
        if found.processor.Some? {
          if found.processed.ProcessError? {
            return true, gathered;
          }
          gathered := gathered.(keys := gathered.keys + [found.key]);
          if found.processed.entries != [] {
            gathered := gathered.(entries := gathered.entries + found.processed.entries,
                                  features := gathered.features + FeaturesOf(found.processor.value, found.key, enrich));
          }
        }
      }
      i := i + 1;
    }
    assert objects[..|objects|] == objects;
  }

  lemma OneMore<E>(objects: seq<S3Object<E>>, i: nat, enrich: bool)
    requires i < |objects|
    ensures objects[..i + 1][..i] == objects[..i]
    ensures BucketsOf(objects[..i + 1]) == BucketsOf(objects[..i]) +
              (if objects[i].Named() then {objects[i].bucket} else {})
  {
    forall b | b in BucketsOf(objects[..i])
      ensures b in BucketsOf(objects[..i + 1])
    {
      var j :| 0 <= j < i && objects[..i][j].Named() && objects[..i][j].bucket == b;
      assert objects[..i + 1][j] == objects[..i][j];
    }
    assert objects[..i + 1][i] == objects[i];
  }

  // ---------------------------------------------------------------- what a yield means

  /** When an object of this name and this processor exercises a feature. */
  ghost predicate Exercises(f: Feature, processor: string, key: string, enrich: bool) {
    match f
    case ParserALB => processor == "ALB"
    case ParserNLB => processor == "NLB"
    case ParserCloudFrontParquet => processor == "CloudFront" && exists name :: key == name + ".parquet"
    case ParserCloudFrontGzip => processor == "CloudFront" && !exists name :: key == name + ".parquet"
    case ParserWAF => processor == "WAF"
    case EnrichmentUserAgent => enrich && (processor == "ALB" || processor == "CloudFront" || processor == "WAF")
  }

  /** The object has a bucket and a key, a processor took it, and found something in it. */
  predicate HeldLogs<E>(o: S3Object<E>) {
    o.bucket != "" && o.key != "" && o.processor.Some? && o.processed.Entries? && |o.processed.entries| > 0
  }

  ghost predicate Exercised<E>(objects: seq<S3Object<E>>, enrich: bool, f: Feature) {
    exists i :: 0 <= i < |objects| && HeldLogs(objects[i])
                && Exercises(f, objects[i].processor.value, objects[i].key, enrich)
  }

  lemma FeaturesExactly(f: Feature, processor: string, key: string, enrich: bool)
    ensures f in FeaturesOf(processor, key, enrich) <==> Exercises(f, processor, key, enrich)
  {
    if EndsWith(key, ".parquet") {
      assert key == key[..|key| - |".parquet"|] + ".parquet";
    }
    if name :| key == name + ".parquet" {
      assert key[|name|..] == ".parquet";
    }
  }

  /** A message exercises exactly the features of its objects that held logs. */
  lemma {:induction false} MessageFeatures<E>(objects: seq<S3Object<E>>, enrich: bool, f: Feature)
    ensures f in AllFeatures(objects, enrich) <==> Exercised(objects, enrich, f)
  {
    if objects != [] {
      var n := |objects| - 1;
      var last := objects[n];
      MessageFeatures(objects[..n], enrich, f);
      if HeldLogs(last) {
        FeaturesExactly(f, last.processor.value, last.key, enrich);
      }
      assert forall i :: 0 <= i < n ==> objects[..n][i] == objects[i];
      assert Exercised(objects, enrich, f) <==>
          Exercised(objects[..n], enrich, f) ||
          (HeldLogs(last) && Exercises(f, last.processor.value, last.key, enrich));
    }
  }

  /** It names the keys, in order, of the objects some processor took, and their buckets and those of
      the objects none took. */
  lemma {:induction false} MessageKeys<E>(a: seq<S3Object<E>>, b: seq<S3Object<E>>)
    ensures KeysOf(a + b) == KeysOf(a) + KeysOf(b)
    ensures |b| == 1 ==>
              KeysOf(b) == if b[0].bucket != "" && b[0].key != "" && b[0].processor.Some? then [b[0].key] else []
    ensures forall name :: name in BucketsOf(a) <==>
              name != "" && exists i :: 0 <= i < |a| && a[i].bucket == name && a[i].key != ""
  {
    if b == [] {
      assert a + b == a;
    } else {
      var n := |b| - 1;
      assert (a + b)[..|a + b| - 1] == a + b[..n];
      MessageKeys(a, b[..n]);
    }
  }

  // ---------------------------------------------------------------- merging

  /** What all goroutines append to. */
  datatype Shared<+E> = Shared(
    entries: seq<E>,
    keys: seq<string>,
    buckets: set<string>,
    features: set<Feature>,
    failures: seq<string>)

  datatype Config<+E> = Config(maxConcurrent: nat, messages: seq<Message<E>>, enrich: bool)

  /** What a message contributes: nothing if it does not parse, its id if it failed, else all it yields. */
  function ShareOf<E>(m: Message<E>, enrich: bool): Shared<E> {
    if m.body.None? then Shared([], [], {}, {}, [])
    else if Fails(m.body.value) then Shared([], [], {}, {}, [m.id])
    else
      var y := YieldOf(m.body.value, enrich);
      Shared(y.entries, y.keys, y.buckets, y.features, [])
  }

  function Share<E>(c: Config<E>, i: nat): Shared<E> {
    if i < |c.messages| then ShareOf(c.messages[i], c.enrich) else Shared([], [], {}, {}, [])
  }

  function Append<E>(a: Shared<E>, b: Shared<E>): Shared<E> {
    Shared(a.entries + b.entries, a.keys + b.keys, a.buckets + b.buckets, a.features + b.features,
           a.failures + b.failures)
  }

  /** The contributions one after another. */
  function AppendAll<E>(shares: seq<Shared<E>>): Shared<E> {
    if shares == [] then Shared([], [], {}, {}, [])
    else Append(AppendAll(shares[..|shares| - 1]), shares[|shares| - 1])
  }

  /** Equal but for the order of what was appended. */
  ghost predicate Alike<E>(a: Shared<E>, b: Shared<E>) {
    && multiset(a.entries) == multiset(b.entries) && multiset(a.keys) == multiset(b.keys)
    && multiset(a.failures) == multiset(b.failures) && a.buckets == b.buckets && a.features == b.features
  }

  lemma AppendsCommute<E>(a: Shared<E>, x: Shared<E>, y: Shared<E>)
    ensures Alike(Append(Append(a, x), y), Append(Append(a, y), x))
  {
  }

  lemma AppendAlike<E>(a: Shared<E>, b: Shared<E>, x: Shared<E>)
    requires Alike(a, b)
    ensures Alike(Append(a, x), Append(b, x))
  {
  }

  function Without<T>(s: seq<T>, k: nat): seq<T>
    requires k < |s|
  {
    s[..k] + s[k + 1..]
  }

  lemma AppendSnoc<E>(shares: seq<Shared<E>>, x: Shared<E>)
    ensures AppendAll(shares + [x]) == Append(AppendAll(shares), x)
  {
    assert (shares + [x])[..|shares|] == shares;
  }

  /** A share may as well come last. */
  lemma {:induction false} PullOut<E>(a: seq<Shared<E>>, x: Shared<E>, b: seq<Shared<E>>)
    ensures Alike(AppendAll(a + [x] + b), Append(AppendAll(a + b), x))
    decreases |b|
  {
    if b == [] {
      assert a + [x] + b == a + [x] && a + b == a;
      AppendSnoc(a, x);
    } else {
      var shorter, y := b[..|b| - 1], b[|b| - 1];
      assert a + [x] + b == (a + [x] + shorter) + [y] && a + b == (a + shorter) + [y];
      AppendSnoc(a + [x] + shorter, y);
      AppendSnoc(a + shorter, y);
      PullOut(a, x, shorter);
      AppendAlike(AppendAll(a + [x] + shorter), Append(AppendAll(a + shorter), x), y);
      AppendsCommute(AppendAll(a + shorter), x, y);
    }
  }

  lemma RemoveAt<T>(s: seq<T>, k: nat)
    requires k < |s|
    ensures multiset(Without(s, k)) == multiset(s) - multiset{s[k]}
  {
    assert s == s[..k] + [s[k]] + s[k + 1..];
  }

  lemma MultisetWithout<T>(a: seq<T>, b: seq<T>, k: nat)
    requires a != [] && k < |b| && b[k] == a[|a| - 1] && multiset(a) == multiset(b)
    ensures multiset(a[..|a| - 1]) == multiset(Without(b, k))
  {
    RemoveAt(b, k);
    RemoveAt(a, |a| - 1);
    assert Without(a, |a| - 1) == a[..|a| - 1];
  }

  function Map<S, T>(order: seq<S>, f: S -> T): seq<T> {
    seq(|order|, k requires 0 <= k < |order| => f(order[k]))
  }

  lemma SameLast<E>(a: seq<Shared<E>>, x: Shared<E>, b1: seq<Shared<E>>, b2: seq<Shared<E>>)
    requires Alike(AppendAll(a), AppendAll(b1 + b2))
    ensures Alike(AppendAll(a + [x]), AppendAll(b1 + [x] + b2))
  {
    AppendSnoc(a, x);
    AppendAlike(AppendAll(a), AppendAll(b1 + b2), x);
    PullOut(b1, x, b2);
  }

  lemma MapParts<S, T>(order: seq<S>, f: S -> T, k: nat)
    requires k < |order|
    ensures Map(order, f) == Map(order[..k], f) + [f(order[k])] + Map(order[k + 1..], f)
    ensures Map(Without(order, k), f) == Map(order[..k], f) + Map(order[k + 1..], f)
    ensures k == |order| - 1 ==> Map(order, f) == Map(order[..k], f) + [f(order[k])]
  {
  }

  /** Taking the shares in another order gathers the same. */
  lemma {:induction false} OrderDoesNotMatter<S, E>(share: S -> Shared<E>, a: seq<S>, b: seq<S>)
    requires multiset(a) == multiset(b)
    ensures Alike(AppendAll(Map(a, share)), AppendAll(Map(b, share)))
    decreases |a|
  {
    assert |a| == |multiset(a)| == |multiset(b)| == |b|;
    if a != [] {
      var n := |a| - 1;
      assert a[n] in multiset(a);
      var k :| 0 <= k < |b| && b[k] == a[n];
      MultisetWithout(a, b, k);
      OrderDoesNotMatter(share, a[..n], Without(b, k));
      var b1, b2 := Map(b[..k], share), Map(b[k + 1..], share);
      MapParts(b, share, k);
      MapParts(a, share, n);
      SameLast(Map(a[..n], share), share(a[n]), b1, b2);
    }
  }

  function UpTo(n: nat): seq<nat> {
    seq(n, i => i)
  }

  /** What has been gathered once the messages in `order` have been merged. */
  function Gathered<E>(c: Config<E>, order: seq<nat>): Shared<E> {
    AppendAll(Map(order, i => Share(c, i)))
  }

  /** What a handler without goroutines gathers: message after message. */
  function Sequential<E>(c: Config<E>): Shared<E> {
    Gathered(c, UpTo(|c.messages|))
  }

  lemma {:induction false} DistinctCount(s: seq<nat>, x: nat)
    requires Distinct(s)
    ensures Count(s, x) == if x in s then 1 else 0
  {
    if s != [] {
      var n := |s| - 1;
      assert s == s[..n] + [s[n]];
      DistinctCount(s[..n], x);
    }
  }

  /** An order that takes every message once gathers what message order does. */
  lemma EveryMessageOnce<E>(c: Config<E>, order: seq<nat>)
    requires Distinct(order) && forall i: nat :: i < |c.messages| <==> i in order
    ensures Alike(Gathered(c, order), Sequential(c))
  {
    forall x: nat
      ensures multiset(order)[x] == multiset(UpTo(|c.messages|))[x]
    {
      DistinctCount(order, x);
      DistinctCount(UpTo(|c.messages|), x);
      assert x < |c.messages| ==> UpTo(|c.messages|)[x] == x;
    }
    OrderDoesNotMatter(i => Share(c, i), order, UpTo(|c.messages|));
  }
}
