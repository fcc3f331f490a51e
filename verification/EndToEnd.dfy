/** The pieces put together: what an answer of the batch handler says about every message and every
    entry, over all interleavings of the readers, the message goroutines and the sender. */
module EndToEnd {
  import opened Seqs
  import Strings
  import opened EnforcerModel
  import opened EnforcerTheorems
  import opened BatchMerge
  import opened BatchHandler
  import opened Batching
  import MergeRuns
  import SendLogs
  import ReaderPipeline

  // ---------------------------------------------------------------- messages

  /** An object with a bucket, a key and a processor; all others are passed over. */
  predicate Matched<E>(found: S3Object<E>) {
    found.bucket != "" && found.key != "" && found.processor.Some?
  }

  /** The message parses, and some object of it that has a processor could not be processed. */
  predicate MessageFails<E>(m: Message<E>) {
    m.body.Some? &&
    exists j :: 0 <= j < |m.body.value| && Matched(m.body.value[j]) && m.body.value[j].processed.ProcessError?
  }

  /** The ids of the messages that hit a processing error. */
  function FailedIds<E>(messages: seq<Message<E>>): seq<string> {
    if messages == [] then []
    else FailedIds(messages[..|messages| - 1]) +
         (if MessageFails(messages[|messages| - 1]) then [messages[|messages| - 1].id] else [])
  }

  /** The entries of all other messages. */
  function GoodEntries<E>(messages: seq<Message<E>>): seq<E> {
    if messages == [] then []
    else GoodEntries(messages[..|messages| - 1]) + GoodOf(messages[|messages| - 1])
  }

  function GoodOf<E>(m: Message<E>): seq<E> {
    if m.body.Some? && !MessageFails(m) then EntriesOf(m.body.value) else []
  }

  lemma FailsMeans<E>(m: Message<E>)
    requires m.body.Some?
    ensures Fails(m.body.value) <==> MessageFails(m)
  {
    assert forall j :: 0 <= j < |m.body.value| ==> (m.body.value[j].Relevant() <==> Matched(m.body.value[j]));
  }

  lemma ShareMeans<E>(c: Config<E>, i: nat)
    requires i < |c.messages|
    ensures Share(c, i).failures == (if MessageFails(c.messages[i]) then [c.messages[i].id] else [])
    ensures Share(c, i).entries == GoodOf(c.messages[i])
  {
    if c.messages[i].body.Some? {
      FailsMeans(c.messages[i]);
    }
  }

  lemma {:induction false} SequentialMeans<E>(c: Config<E>, n: nat)
    requires n <= |c.messages|
    ensures Gathered(c, UpTo(n)).failures == FailedIds(c.messages[..n])
    ensures Gathered(c, UpTo(n)).entries == GoodEntries(c.messages[..n])
  {
    if n > 0 {
      SequentialMeans(c, n - 1);
      assert UpTo(n) == UpTo(n - 1) + [n - 1];
      MergeRuns.GatheredSnoc(c, UpTo(n - 1), n - 1);
      ShareMeans(c, n - 1);
      var ms := c.messages[..n];
      assert ms[..n - 1] == c.messages[..n - 1] && ms[n - 1] == c.messages[n - 1];
    } else {
      assert Map(UpTo(0), i => Share(c, i)) == [];
    }
  }

  predicate DistinctIds<E>(messages: seq<Message<E>>) {
    forall i, j :: 0 <= i < j < |messages| ==> messages[i].id != messages[j].id
  }

  /** The message with this id failed. */
  predicate FailedWith<E>(messages: seq<Message<E>>, id: string) {
    exists i :: 0 <= i < |messages| && messages[i].id == id && MessageFails(messages[i])
  }

  lemma FailedWithSnoc<E>(messages: seq<Message<E>>, id: string)
    requires messages != []
    ensures
      var n := |messages| - 1;
      FailedWith(messages, id) <==> FailedWith(messages[..n], id) || (messages[n].id == id && MessageFails(messages[n]))
  {
    var n := |messages| - 1;
    assert forall i :: 0 <= i < n ==> messages[..n][i] == messages[i];
  }

  lemma {:induction false} FailedOnce<E>(messages: seq<Message<E>>, id: string)
    requires DistinctIds(messages)
    ensures Count(FailedIds(messages), id) == if FailedWith(messages, id) then 1 else 0
  {
    if messages != [] {
      var n := |messages| - 1;
      FailedOnce(messages[..n], id);
      FailedWithSnoc(messages, id);
      if MessageFails(messages[n]) {
        CountSnoc(FailedIds(messages[..n]), messages[n].id, id);
      }
    }
  }

  lemma {:induction false} IdOnce<E>(messages: seq<Message<E>>, i: nat)
    requires DistinctIds(messages) && i < |messages|
    ensures multiset(Ids(messages))[messages[i].id] == 1
  {
    var n := |messages| - 1;
    assert Ids(messages) == Ids(messages[..n]) + [messages[n].id];
    if i < n {
      IdOnce(messages[..n], i);
    }
  }

  // ---------------------------------------------------------------- the answer, message by message

  /** The run of the goroutines that led to what the handler went on with. */
  ghost predicate GatheredBy<E>(v: Invocation<E>, c: Config<E>, merges: seq<MergeRuns.Step>) {
    && c.messages == v.messages
    && MergeRuns.IsRun(c, MergeRuns.Init(c), merges)
    && MergeRuns.Exec(c, MergeRuns.Init(c), merges).joined
    && v.gathered == MergeRuns.Exec(c, MergeRuns.Init(c), merges).shared
  }

  lemma GatheredMeans<E>(v: Invocation<E>, c: Config<E>, merges: seq<MergeRuns.Step>)
    requires GatheredBy(v, c, merges)
    ensures multiset(v.gathered.failures) == multiset(FailedIds(v.messages))
    ensures multiset(v.gathered.entries) == multiset(GoodEntries(v.messages))
  {
    MergeRuns.EveryRunGathersAll(c, merges);
    SequentialMeans(c, |c.messages|);
    assert c.messages[..|c.messages|] == v.messages;
  }

  // ---------------------------------------------------------------- what the licence gate sees

  /** The message parses, hit no error, and one of its objects held logs that exercise the feature. */
  ghost predicate Uses<E>(m: Message<E>, enrich: bool, f: Feature) {
    m.body.Some? && !MessageFails(m) && Exercised(m.body.value, enrich, f)
  }

  /** It parses, hit no error, and names the bucket with some key. */
  predicate ReadFrom<E>(m: Message<E>, bucket: string) {
    m.body.Some? && !MessageFails(m) && bucket != "" &&
    exists j :: 0 <= j < |m.body.value| && m.body.value[j].bucket == bucket && m.body.value[j].key != ""
  }

  /** It parses, hit no error, and some processor took an object of it with this key. */
  predicate Took<E>(m: Message<E>, key: string) {
    m.body.Some? && !MessageFails(m) &&
    exists j :: 0 <= j < |m.body.value| && Matched(m.body.value[j]) && m.body.value[j].key == key
  }

  lemma {:induction false} KeysMean<E>(objects: seq<S3Object<E>>, key: string)
    ensures key in KeysOf(objects) <==> exists j :: 0 <= j < |objects| && Matched(objects[j]) && objects[j].key == key
  {
    if objects != [] {
      var n := |objects| - 1;
      KeysMean(objects[..n], key);
      assert objects[n].Relevant() <==> Matched(objects[n]);
      assert forall j :: 0 <= j < n ==> objects[..n][j] == objects[j];
    }
  }

  lemma ShareShows<E>(c: Config<E>, i: nat, f: Feature, bucket: string, key: string)
    requires i < |c.messages|
    ensures f in Share(c, i).features <==> Uses(c.messages[i], c.enrich, f)
    ensures bucket in Share(c, i).buckets <==> ReadFrom(c.messages[i], bucket)
    ensures key in Share(c, i).keys <==> Took(c.messages[i], key)
  {
    var m := c.messages[i];
    if m.body.Some? {
      FailsMeans(m);
      MessageFeatures(m.body.value, c.enrich, f);
      MessageKeys(m.body.value, []);
      KeysMean(m.body.value, key);
    }
  }

  lemma {:induction false} SequentialShows<E>(c: Config<E>, n: nat, f: Feature, bucket: string, key: string)
    requires n <= |c.messages|
    ensures f in Gathered(c, UpTo(n)).features <==> exists i :: 0 <= i < n && Uses(c.messages[i], c.enrich, f)
    ensures bucket in Gathered(c, UpTo(n)).buckets <==> exists i :: 0 <= i < n && ReadFrom(c.messages[i], bucket)
    ensures key in Gathered(c, UpTo(n)).keys <==> exists i :: 0 <= i < n && Took(c.messages[i], key)
  {
    if n > 0 {
      SequentialShows(c, n - 1, f, bucket, key);
      ShareShows(c, n - 1, f, bucket, key);
      assert UpTo(n) == UpTo(n - 1) + [n - 1];
      MergeRuns.GatheredSnoc(c, UpTo(n - 1), n - 1);
    } else {
      assert Map(UpTo(0), i => Share(c, i)) == [];
    }
  }

  /** In every interleaving the licence gate sees the features, buckets and keys of the messages that
      hit no error, and no others. */
  lemma GateSees<E>(v: Invocation<E>, c: Config<E>, merges: seq<MergeRuns.Step>, f: Feature, bucket: string,
                    key: string)
    requires GatheredBy(v, c, merges)
    ensures f in v.gathered.features <==> exists i :: 0 <= i < |v.messages| && Uses(v.messages[i], c.enrich, f)
    ensures bucket in v.gathered.buckets <==> exists i :: 0 <= i < |v.messages| && ReadFrom(v.messages[i], bucket)
    ensures key in v.gathered.keys <==> exists i :: 0 <= i < |v.messages| && Took(v.messages[i], key)
  {
    MergeRuns.EveryRunGathersAll(c, merges);
    SequentialShows(c, |c.messages|, f, bucket, key);
    var here, there := v.gathered.keys, Gathered(c, UpTo(|c.messages|)).keys;
    assert key in here <==> key in multiset(here);
    assert key in there <==> key in multiset(there);
  }

  // ---------------------------------------------------------------- what is reported

  predicate PreflightStops<E>(v: Invocation<E>) {
    Decide(v.before, Preflight(PreflightOptions(v)), Trackers(None, None)).error.Some?
  }

  lemma Reports<E>(v: Invocation<E>, tr: Trackers)
    requires v.messages != []
    ensures
      var reported := if PreflightStops(v) then [] else v.gathered.failures;
      Answer(v, tr).failures == if !Aborts(v, tr) then reported
                                else if Strings.ToLower(v.failureAction) == "dlq" then reported + Ids(v.messages)
                                else []
  {
  }

  lemma CountReports<E>(messages: seq<Message<E>>, failures: seq<string>, i: nat)
    requires DistinctIds(messages) && i < |messages| && multiset(failures) == multiset(FailedIds(messages))
    ensures
      var failed := if MessageFails(messages[i]) then 1 else 0;
      && multiset(failures)[messages[i].id] == failed
      && multiset(failures + Ids(messages))[messages[i].id] == failed + 1
      && multiset([] + Ids(messages))[messages[i].id] == 1
  {
    FailedOnce(messages, messages[i].id);
    IdOnce(messages, i);
    assert FailedWith(messages, messages[i].id) <==> MessageFails(messages[i]);
    assert [] + Ids(messages) == Ids(messages);
  }

  /** How often each message is reported failed.  Unless the licence aborts the batch: once if it hit
      a processing error, else not at all (and never when the preflight already stopped the batch,
      whose error has SQS deliver all of it again).  An abort that discards reports none, so even
      failed messages are acknowledged; one to the dead-letter queue reports every message, and
      those that had failed before a late abort twice. */
  lemma ReportedHowOften<E>(v: Invocation<E>, tr: Trackers, c: Config<E>, merges: seq<MergeRuns.Step>, i: nat)
    requires GatheredBy(v, c, merges) && DistinctIds(v.messages) && i < |v.messages|
    ensures
      var reports := multiset(Answer(v, tr).failures)[v.messages[i].id];
      var failed := if MessageFails(v.messages[i]) && !PreflightStops(v) then 1 else 0;
      reports == if !Aborts(v, tr) then failed
                 else if Strings.ToLower(v.failureAction) == "dlq" then 1 + failed
                 else 0
  {
    GatheredMeans(v, c, merges);
    Reports(v, tr);
    CountReports(v.messages, v.gathered.failures, i);
  }

  // ---------------------------------------------------------------- delivery

  function Times<T>(n: nat, m: multiset<T>): multiset<T> {
    if n == 0 then multiset{} else m + Times(n - 1, m)
  }

  /** The records in all 2xx replies: each batch's, as often as it was accepted. */
  ghost function AcceptedTags(batches: seq<Batch>, accepted: seq<nat>): multiset<Tag>
    requires |batches| == |accepted|
  {
    if batches == [] then multiset{}
    else
      var n := |batches| - 1;
      AcceptedTags(batches[..n], accepted[..n]) +
      Times(accepted[n], multiset(TagAll(batches[n].resourceKey, batches[n].records)))
  }

  lemma {:induction false} AcceptedOnce(batches: seq<Batch>, accepted: seq<nat>)
    requires |batches| == |accepted| && forall i :: 0 <= i < |accepted| ==> accepted[i] == 1
    ensures AcceptedTags(batches, accepted) == multiset(Carried(batches))
  {
    if batches != [] {
      var n := |batches| - 1;
      AcceptedOnce(batches[..n], accepted[..n]);
      var last := multiset(TagAll(batches[n].resourceKey, batches[n].records));
      assert Times(1, last) == last + Times(0, last);
    }
  }

  lemma {:induction false} TagsOfPermutation(a: seq<LogEntry>, b: seq<LogEntry>)
    requires multiset(a) == multiset(b)
    ensures multiset(Tags(a)) == multiset(Tags(b))
    decreases |a|
  {
    assert |a| == |multiset(a)| == |multiset(b)| == |b|;
    if a != [] {
      var n := |a| - 1;
      assert a[n] in multiset(a);
      var k :| 0 <= k < |b| && b[k] == a[n];
      MultisetWithout(a, b, k);
      TagsOfPermutation(a[..n], Without(b, k));
      assert Tags(a) == Tags(a[..n]) + Tags([a[n]]);
      assert Tags(b) == Tags(b[..k]) + Tags([b[k]]) + Tags(b[k + 1..]);
      assert Tags(Without(b, k)) == Tags(b[..k]) + Tags(b[k + 1..]);
    }
  }

  /** The SendLogs call for what was gathered: its batches are what PrepareBatches promises. */
  ghost predicate SentBy(v: Invocation<LogEntry>, c: SendLogs.Config, sends: seq<SendLogs.Step>) {
    && multiset(Carried(c.batches)) == multiset(Tags(v.gathered.entries))
    && SendLogs.IsRun(c, SendLogs.Init(c), sends)
    && SendLogs.Exec(c, SendLogs.Init(c), sends).phase == SendLogs.Returned(v.sent)
  }

  /** The records the endpoint accepted during the invocation; nothing is sent if nothing was gathered. */
  ghost function Accepted(v: Invocation<LogEntry>, c: SendLogs.Config, sends: seq<SendLogs.Step>): multiset<Tag>
    requires v.gathered.entries != [] ==> SentBy(v, c, sends)
  {
    if v.gathered.entries == [] then multiset{}
    else AcceptedTags(c.batches, SendLogs.Exec(c, SendLogs.Init(c), sends).accepted)
  }

  /** A nil return of SendLogs: every input record, under its own resource, is in exactly one 2xx
      reply, and the total it logs is the number of entries. */
  lemma NilMeansAllSent(entries: seq<LogEntry>, c: SendLogs.Config, sends: seq<SendLogs.Step>)
    requires multiset(Carried(c.batches)) == multiset(Tags(entries))
    requires SendLogs.IsRun(c, SendLogs.Init(c), sends)
    requires SendLogs.Exec(c, SendLogs.Init(c), sends).phase == SendLogs.Returned(SendLogs.Delivered)
    ensures
      var s := SendLogs.Exec(c, SendLogs.Init(c), sends);
      AcceptedTags(c.batches, s.accepted) == multiset(Tags(entries)) && s.totalSent == |entries|
  {
    SendLogs.NilMeansDelivered(c, sends);
    AcceptedOnce(c.batches, SendLogs.Exec(c, SendLogs.Init(c), sends).accepted);
    SizesAddUp(c.batches);
    assert |Carried(c.batches)| == |multiset(Carried(c.batches))| == |multiset(Tags(entries))| == |entries|;
  }

  /** Acknowledged means delivered.  When the handler returns no error and the licence did not abort
      the batch, the records in accepted 2xx replies are those of every message that is not reported
      failed, each under its own resource and exactly as often as it was gathered, and no others. */
  lemma AcknowledgedIsDelivered(v: Invocation<LogEntry>, tr: Trackers, c: Config<LogEntry>, merges: seq<MergeRuns.Step>,
                                sc: SendLogs.Config, sends: seq<SendLogs.Step>)
    requires GatheredBy(v, c, merges) && (v.gathered.entries != [] ==> SentBy(v, sc, sends))
    requires Answer(v, tr).error.None? && !Aborts(v, tr)
    ensures multiset(Answer(v, tr).failures) == multiset(FailedIds(v.messages))
    ensures Accepted(v, sc, sends) == multiset(Tags(GoodEntries(v.messages)))
  {
    GatheredMeans(v, c, merges);
    AnsweredWithoutError(v, tr);
    TagsOfPermutation(v.gathered.entries, GoodEntries(v.messages));
    if v.gathered.entries != [] {
      NilMeansAllSent(v.gathered.entries, sc, sends);
    }
  }

  lemma AnsweredWithoutError(v: Invocation<LogEntry>, tr: Trackers)
    requires Answer(v, tr).error.None? && !Aborts(v, tr)
    ensures v.messages != [] ==> Answer(v, tr).failures == v.gathered.failures
    ensures v.messages != [] ==> v.gathered.entries == [] || v.sent == SendLogs.Delivered
    ensures v.messages == [] ==> Answer(v, tr).failures == []
  {
  }

  // ---------------------------------------------------------------- back to the lines read

  /** How one object was read: the reader's configuration, its input among it, and its run. */
  datatype Reading<!I> = Reading(config: ReaderPipeline.Config<I, LogEntry>, steps: seq<ReaderPipeline.Step>)

  /** The entries an object yielded are those a run of the reader returned without an error. */
  ghost predicate ReadBy<I>(found: S3Object<LogEntry>, reading: Reading<I>) {
    Matched(found) && found.processed.Entries? ==>
      && ReaderPipeline.IsRun(reading.config, ReaderPipeline.Init(reading.config), reading.steps)
      && var s := ReaderPipeline.Exec(reading.config, ReaderPipeline.Init(reading.config), reading.steps);
         s.collector == ReaderPipeline.Returned(false) && s.collected == found.processed.entries
  }

  ghost predicate EverythingRead<I>(messages: seq<Message<LogEntry>>, readings: (nat, nat) -> Reading<I>) {
    forall i, j :: 0 <= i < |messages| && messages[i].body.Some? && 0 <= j < |messages[i].body.value| ==>
      ReadBy(messages[i].body.value[j], readings(i, j))
  }

  /** The record `tag.1` of resource `tag.0` is due for this item: it is not skipped and parses to it. */
  predicate DueFor<I>(c: ReaderPipeline.Config<I, LogEntry>, item: I, tag: Tag) {
    && !c.skip(item) && c.parse(item).Entry?
    && c.parse(item).entry.resourceKey == tag.0 && c.parse(item).entry.record == tag.1
  }

  /** How often a record is due: over items, */
  function DueInItems<I>(c: ReaderPipeline.Config<I, LogEntry>, items: seq<I>, tag: Tag): nat {
    if items == [] then 0
    else (if DueFor(c, items[0], tag) then 1 else 0) + DueInItems(c, items[1..], tag)
  }

  /** over the first n objects of a message, each read as `readings` says, */
  function DueInObjects<I>(objects: seq<S3Object<LogEntry>>, readings: nat -> Reading<I>, tag: Tag, n: nat): nat
    requires n <= |objects|
  {
    if n == 0 then 0
    else
      var config := readings(n - 1).config;
      DueInObjects(objects, readings, tag, n - 1) +
      (if Matched(objects[n - 1]) && objects[n - 1].processed.Entries?
       then DueInItems(config, config.source, tag) else 0)
  }

  /** and over the first n messages: those that parse and hit no error. */
  function Due<I>(messages: seq<Message<LogEntry>>, readings: (nat, nat) -> Reading<I>, tag: Tag, n: nat): nat
    requires n <= |messages|
  {
    if n == 0 then 0
    else
      var m := messages[n - 1];
      Due(messages, readings, tag, n - 1) +
      (if m.body.Some? && !MessageFails(m)
       then DueInObjects(m.body.value, j => readings(n - 1, j), tag, |m.body.value|) else 0)
  }

  lemma TagsSplit(a: seq<LogEntry>, b: seq<LogEntry>, tag: Tag)
    ensures Count(Tags(a + b), tag) == Count(Tags(a), tag) + Count(Tags(b), tag)
  {
    assert Tags(a + b) == Tags(a) + Tags(b);
  }

  lemma {:induction false} ItemsAreDue<I>(c: ReaderPipeline.Config<I, LogEntry>, items: seq<I>, tag: Tag)
    ensures Count(Tags(c.Kept(items)), tag) == DueInItems(c, items, tag)
  {
    if items != [] {
      ItemsAreDue(c, items[1..], tag);
      TagsSplit(c.Keep(items[0]), c.Kept(items[1..]), tag);
      OneItemIsDue(c, items[0], tag);
    }
  }

  lemma OneItemIsDue<I>(c: ReaderPipeline.Config<I, LogEntry>, item: I, tag: Tag)
    ensures Count(Tags(c.Keep(item)), tag) == if DueFor(c, item, tag) then 1 else 0
  {
    if c.Keep(item) != [] {
      assert Tags(c.Keep(item)) == [(c.Keep(item)[0].resourceKey, c.Keep(item)[0].record)];
    }
  }

  lemma ReadingIsDue<I>(found: S3Object<LogEntry>, reading: Reading<I>, tag: Tag)
    requires ReadBy(found, reading) && Matched(found) && found.processed.Entries?
    ensures Count(Tags(found.processed.entries), tag) == DueInItems(reading.config, reading.config.source, tag)
  {
    var c := reading.config;
    ReaderPipeline.EveryReturnDelivers(c, reading.steps);
    TagsOfPermutation(found.processed.entries, c.Kept(c.source));
    ItemsAreDue(c, c.source, tag);
  }

  function Taken<E>(found: S3Object<E>): seq<E> {
    if Matched(found) && found.processed.Entries? then found.processed.entries else []
  }

  lemma EntriesSnoc<E>(objects: seq<S3Object<E>>, n: nat)
    requires 0 < n <= |objects|
    ensures EntriesOf(objects[..n]) == EntriesOf(objects[..n - 1]) + Taken(objects[n - 1])
  {
    assert objects[..n][..n - 1] == objects[..n - 1] && objects[..n][n - 1] == objects[n - 1];
    assert objects[n - 1].Relevant() <==> Matched(objects[n - 1]);
  }

  lemma {:induction false} ObjectsAreDue<I>(objects: seq<S3Object<LogEntry>>, readings: nat -> Reading<I>, tag: Tag,
                                            n: nat)
    requires n <= |objects| && forall j :: 0 <= j < n ==> ReadBy(objects[j], readings(j))
    ensures Count(Tags(EntriesOf(objects[..n])), tag) == DueInObjects(objects, readings, tag, n)
  {
    if n > 0 {
      var last := objects[n - 1];
      ObjectsAreDue(objects, readings, tag, n - 1);
      EntriesSnoc(objects, n);
      TagsSplit(EntriesOf(objects[..n - 1]), Taken(last), tag);
      if Matched(last) && last.processed.Entries? {
        ReadingIsDue(last, readings(n - 1), tag);
      }
    }
  }

  lemma {:induction false} MessagesAreDue<I>(messages: seq<Message<LogEntry>>, readings: (nat, nat) -> Reading<I>,
                                             tag: Tag, n: nat)
    requires EverythingRead(messages, readings) && n <= |messages|
    ensures Count(Tags(GoodEntries(messages[..n])), tag) == Due(messages, readings, tag, n)
  {
    if n > 0 {
      MessagesAreDue(messages, readings, tag, n - 1);
      var m := messages[n - 1];
      assert messages[..n][..n - 1] == messages[..n - 1] && messages[..n][n - 1] == m;
      TagsSplit(GoodEntries(messages[..n - 1]), GoodOf(m), tag);
      if m.body.Some? && !MessageFails(m) {
        ObjectsAreDue(m.body.value, j => readings(n - 1, j), tag, |m.body.value|);
        assert m.body.value[..|m.body.value|] == m.body.value;
      }
    }
  }

  /** From line to endpoint.  When the handler returns no error and the licence did not abort the
      batch, each record is accepted, under its own resource, exactly as often as a line that is not
      skipped parses to it in an object that has a processor, of a message that hit no error; in every
      interleaving of every reader pool, the message goroutines and the sender's workers. */
  lemma EveryLineIsDelivered<I>(v: Invocation<LogEntry>, tr: Trackers, readings: (nat, nat) -> Reading<I>,
                                c: Config<LogEntry>, merges: seq<MergeRuns.Step>,
                                sc: SendLogs.Config, sends: seq<SendLogs.Step>)
    requires EverythingRead(v.messages, readings)
    requires GatheredBy(v, c, merges) && (v.gathered.entries != [] ==> SentBy(v, sc, sends))
    requires Answer(v, tr).error.None? && !Aborts(v, tr)
    ensures forall tag :: Accepted(v, sc, sends)[tag] == Due(v.messages, readings, tag, |v.messages|)
  {
    AcknowledgedIsDelivered(v, tr, c, merges, sc, sends);
    forall tag: Tag
      ensures multiset(Tags(GoodEntries(v.messages)))[tag] == Due(v.messages, readings, tag, |v.messages|)
    {
      MessagesAreDue(v.messages, readings, tag, |v.messages|);
      assert v.messages[..|v.messages|] == v.messages;
    }
  }

  // ---------------------------------------------------------------- the two licence checks

  /** The buckets of the messages that were processed without an error. */
  function BucketsUsed<E>(messages: seq<Message<E>>): set<string> {
    if messages == [] then {}
    else
      var last := messages[|messages| - 1];
      BucketsUsed(messages[..|messages| - 1]) +
      (if last.body.Some? && !Fails(last.body.value) then BucketsOf(last.body.value) else {})
  }

  lemma {:induction false} SequentialBuckets<E>(c: Config<E>, n: nat)
    requires n <= |c.messages|
    ensures Gathered(c, UpTo(n)).buckets == BucketsUsed(c.messages[..n])
  {
    if n > 0 {
      SequentialBuckets(c, n - 1);
      assert UpTo(n) == UpTo(n - 1) + [n - 1];
      MergeRuns.GatheredSnoc(c, UpTo(n - 1), n - 1);
      var ms := c.messages[..n];
      assert ms[..n - 1] == c.messages[..n - 1] && ms[n - 1] == c.messages[n - 1];
    } else {
      assert Map(UpTo(0), i => Share(c, i)) == [];
    }
  }

  /** Every message that parses is processed without an error, and names a key with each bucket. */
  predicate Clean<E>(messages: seq<Message<E>>) {
    forall i :: 0 <= i < |messages| && messages[i].body.Some? ==>
      !Fails(messages[i].body.value) && AllKeyed(messages[i].body.value)
  }

  predicate AllKeyed<E>(objects: seq<S3Object<E>>) {
    forall j :: 0 <= j < |objects| && objects[j].bucket != "" ==> objects[j].key != ""
  }

  /** The second licence check sees no bucket the first did not, and the same ones for a clean batch. */
  lemma {:induction false} BucketsSeen<E>(messages: seq<Message<E>>)
    ensures BucketsUsed(messages) <= BucketsNamed(messages)
    ensures Clean(messages) ==> BucketsUsed(messages) == BucketsNamed(messages)
  {
    if messages != [] {
      var n := |messages| - 1;
      BucketsSeen(messages[..n]);
      NamedSnoc(messages, n);
      assert messages[..n + 1] == messages;
    }
  }

  /** The preflight never turns away a clean batch that the full check would let through, as long as
      what the preflight read still holds when the clock is read again. */
  lemma PreflightTurnsNoneAway<E>(v: Invocation<E>, tr: Trackers, c: Config<E>, merges: seq<MergeRuns.Step>)
    requires GatheredBy(v, c, merges) && Clean(v.messages)
    requires ReadAlike(v.before, v.after, Preflight(PreflightOptions(v)))
    requires PreflightStops(v)
    ensures Decide(v.after, FullOptions(v), tr).error.Some?
  {
    MergeRuns.EveryRunGathersAll(c, merges);
    SequentialBuckets(c, |c.messages|);
    assert c.messages[..|c.messages|] == v.messages;
    BucketsSeen(v.messages);
    assert FinalBuckets(v) == v.sorted(BucketsNamed(v.messages));
    assert Preflight(FullOptions(v)) == Preflight(PreflightOptions(v));
    PreflightReadsNoMore(v.before, v.after, PreflightOptions(v));
    PreflightIsSound(v.after, FullOptions(v), Trackers(None, None), tr);
  }
}
