/** Grouping by resource and splitting into batches, the first half of SendLogs in
    pkg/sender/otlp_client.go. */
module Batching {
  import opened Seqs

  datatype Attribute = Attribute(key: string, value: string)

  /** A log adapter: its GetResourceKey, GetResourceAttributes and ToOTel. */
  datatype LogEntry = LogEntry(resourceKey: string, attributes: seq<Attribute>, record: string)

  datatype Group = Group(attributes: seq<Attribute>, records: seq<string>)

  /** One payload: records of one resource under that resource's attributes. */
  datatype Batch = Batch(resourceKey: string, attributes: seq<Attribute>, records: seq<string>)

  /** A record together with the resource it belongs to. */
  type Tag = (string, string)

  /** The records of one resource, in input order. */
  function RecordsOf(entries: seq<LogEntry>, key: string): seq<string> {
    if entries == [] then []
    else
      var last := entries[|entries| - 1];
      RecordsOf(entries[..|entries| - 1], key) + (if last.resourceKey == key then [last.record] else [])
  }

  /** The attributes of the first entry of a resource, None if it has no entry. */
  function FirstAttributes(entries: seq<LogEntry>, key: string): Option<seq<Attribute>> {
    if entries == [] then None
    else
      var last := entries[|entries| - 1];
      var earlier := FirstAttributes(entries[..|entries| - 1], key);
      if earlier.Some? then earlier
      else if last.resourceKey == key then Some(last.attributes) else None
  }

  /** Records of one resource keep their order, and none of another is among them. */
  lemma {:induction false} RecordsInOrder(a: seq<LogEntry>, b: seq<LogEntry>, key: string)
    ensures RecordsOf(a + b, key) == RecordsOf(a, key) + RecordsOf(b, key)
    ensures |b| == 1 ==> RecordsOf(b, key) == if b[0].resourceKey == key then [b[0].record] else []
  {
    if b == [] {
      assert a + b == a;
    } else {
      var n := |b| - 1;
      assert (a + b)[..|a + b| - 1] == a + b[..n];
      RecordsInOrder(a, b[..n], key);
    }
  }

  /** Entry i is the first of its resource. */
  predicate IsFirst(entries: seq<LogEntry>, i: nat, key: string) {
    i < |entries| && entries[i].resourceKey == key && forall j :: 0 <= j < i ==> entries[j].resourceKey != key
  }

  lemma {:induction false} FirstAttributesMean(entries: seq<LogEntry>, key: string) returns (i: nat)
    requires FirstAttributes(entries, key).Some?
    ensures IsFirst(entries, i, key) && entries[i].attributes == FirstAttributes(entries, key).value
  {
    var n := |entries| - 1;
    if FirstAttributes(entries[..n], key).Some? {
      i := FirstAttributesMean(entries[..n], key);
    } else {
      i := n;
      NoneBefore(entries[..n], key);
    }
  }

  lemma {:induction false} NoneBefore(entries: seq<LogEntry>, key: string)
    requires FirstAttributes(entries, key).None?
    ensures forall i :: 0 <= i < |entries| ==> entries[i].resourceKey != key
  {
    if entries != [] {
      NoneBefore(entries[..|entries| - 1], key);
    }
  }

  /** The attributes a batch travels under are those of its resource's first entry, stamped. */
  predicate Stamped(entries: seq<LogEntry>, stamp: seq<Attribute> -> seq<Attribute>, batch: Batch) {
    exists i :: 0 <= i < |entries| && IsFirst(entries, i, batch.resourceKey)
                && batch.attributes == stamp(entries[i].attributes)
  }

  /** The groups SendLogs builds: one per resource key, holding that resource's records in order
      under the stamped attributes of its first entry. */
  ghost predicate Grouped(grouped: map<string, Group>, entries: seq<LogEntry>,
      stamp: seq<Attribute> -> seq<Attribute>) {
    && (forall k :: k in grouped <==> FirstAttributes(entries, k).Some?)
    && (forall k :: k in grouped ==>
          grouped[k] == Group(stamp(FirstAttributes(entries, k).value), RecordsOf(entries, k)))
  }

  method GroupByResource(entries: seq<LogEntry>, stamp: seq<Attribute> -> seq<Attribute>)
      returns (grouped: map<string, Group>)
    ensures Grouped(grouped, entries, stamp)
  {
    grouped := map[];
    for n := 0 to |entries|
      invariant Grouped(grouped, entries[..n], stamp)
    {
      var entry := entries[n];
      var key := entry.resourceKey;
      NoneYet(entries[..n], key);
      assert entries[..n + 1][..n] == entries[..n];
      if key !in grouped {
        grouped := grouped[key := Group(stamp(entry.attributes), [])];
      }
      grouped := grouped[key := grouped[key].(records := grouped[key].records + [entry.record])];
    }
    assert entries[..|entries|] == entries;
  }

  lemma {:induction false} NoneYet(entries: seq<LogEntry>, key: string)
    ensures FirstAttributes(entries, key).None? ==> RecordsOf(entries, key) == []
  {
    if entries != [] {
      NoneYet(entries[..|entries| - 1], key);
    }
  }

  function TagAll(key: string, records: seq<string>): seq<Tag> {
    seq(|records|, i requires 0 <= i < |records| => (key, records[i]))
  }

  /** The records a list of batches carries, each with its resource. */
  function Carried(batches: seq<Batch>): seq<Tag> {
    if batches == [] then []
    else Carried(batches[..|batches| - 1]) +
         TagAll(batches[|batches| - 1].resourceKey, batches[|batches| - 1].records)
  }

  function Tags(entries: seq<LogEntry>): seq<Tag> {
    seq(|entries|, i requires 0 <= i < |entries| => (entries[i].resourceKey, entries[i].record))
  }

  /** The grouped records, group after group in the given order. */
  function InOrder(grouped: map<string, Group>, order: seq<string>): seq<Tag>
    requires forall k :: k in order ==> k in grouped
  {
    if order == [] then []
    else InOrder(grouped, order[..|order| - 1]) +
         TagAll(order[|order| - 1], grouped[order[|order| - 1]].records)
  }

  /** An iteration order of the map: every key once. */
  ghost predicate OrderOf(order: seq<string>, grouped: map<string, Group>) {
    Distinct(order) && (forall k :: k in order <==> k in grouped)
  }

  lemma TagAllJoins(key: string, records: seq<string>, i: nat, end: nat)
    requires i <= end <= |records|
    ensures TagAll(key, records[..i]) + TagAll(key, records[i..end]) == TagAll(key, records[..end])
  {
  }

  lemma CarriedSnoc(batches: seq<Batch>, batch: Batch)
    ensures Carried(batches + [batch]) == Carried(batches) + TagAll(batch.resourceKey, batch.records)
  {
    assert (batches + [batch])[..|batches|] == batches;
  }

  /** The batches of one group: full but for the last, none empty, all under the group's
      attributes, and together the group's records in order. */
  method CutGroup(key: string, group: Group, maxBatchSize: nat) returns (batches: seq<Batch>)
    requires maxBatchSize >= 1
    ensures Carried(batches) == TagAll(key, group.records)
    ensures forall b :: 0 <= b < |batches| ==>
              && batches[b].resourceKey == key && batches[b].attributes == group.attributes
              && 1 <= |batches[b].records| <= maxBatchSize
              && (b < |batches| - 1 ==> |batches[b].records| == maxBatchSize)
  {
    batches := [];
    var i := 0;
    while i < |group.records|
      invariant 0 <= i
      invariant Carried(batches) == TagAll(key, group.records[..if i < |group.records| then i else |group.records|])
      invariant forall b :: 0 <= b < |batches| ==>
                  && batches[b].resourceKey == key && batches[b].attributes == group.attributes
                  && 1 <= |batches[b].records| <= maxBatchSize
                  && (b < |batches| - 1 || i < |group.records| ==> |batches[b].records| == maxBatchSize)
    {
      var end := i + maxBatchSize;
      if end > |group.records| {
        end := |group.records|;
      }
      var batch := Batch(key, group.attributes, group.records[i..end]);
      TagAllJoins(key, group.records, i, end);
      CarriedSnoc(batches, batch);
      batches := batches + [batch];
      i := i + maxBatchSize;
    }
    assert group.records[..|group.records|] == group.records;
  }

  lemma {:induction false} CarriedSplit(a: seq<Batch>, b: seq<Batch>)
    ensures Carried(a + b) == Carried(a) + Carried(b)
  {
    if b == [] {
      assert a + b == a;
    } else {
      var n := |b| - 1;
      assert (a + b)[..|a + b| - 1] == a + b[..n];
      CarriedSplit(a, b[..n]);
    }
  }

  lemma InOrderSnoc(grouped: map<string, Group>, order: seq<string>, g: nat)
    requires g < |order| && forall k :: k in order ==> k in grouped
    ensures InOrder(grouped, order[..g + 1]) ==
              InOrder(grouped, order[..g]) + TagAll(order[g], grouped[order[g]].records)
  {
    assert order[..g + 1][..g] == order[..g];
  }

  /** The batches the dispatch loop goes through, for any iteration order of the map. */
  method CutBatches(grouped: map<string, Group>, order: seq<string>, maxBatchSize: nat) returns (batches: seq<Batch>)
    requires maxBatchSize >= 1 && OrderOf(order, grouped)
    ensures Carried(batches) == InOrder(grouped, order)
    ensures forall b :: 0 <= b < |batches| ==>
              && 1 <= |batches[b].records| <= maxBatchSize
              && batches[b].resourceKey in grouped
              && batches[b].attributes == grouped[batches[b].resourceKey].attributes
  {
    batches := [];
    for g := 0 to |order|
      invariant Carried(batches) == InOrder(grouped, order[..g])
      invariant forall b :: 0 <= b < |batches| ==>
                  && 1 <= |batches[b].records| <= maxBatchSize
                  && batches[b].resourceKey in grouped
                  && batches[b].attributes == grouped[batches[b].resourceKey].attributes
    {
      var cut := CutGroup(order[g], grouped[order[g]], maxBatchSize);
      InOrderSnoc(grouped, order, g);
      CarriedSplit(batches, cut);
      batches := batches + cut;
    }
    assert order[..|order|] == order;
  }

  // ---------------------------------------------------------------- nothing lost, nothing doubled

  lemma {:induction false} CountTagAll(key: string, records: seq<string>, tag: Tag)
    ensures Count(TagAll(key, records), tag) == (if tag.0 == key then Count(records, tag.1) else 0)
  {
    if records != [] {
      var n := |records| - 1;
      CountTagAll(key, records[..n], tag);
      assert records == records[..n] + [records[n]];
      assert TagAll(key, records) == TagAll(key, records[..n]) + [(key, records[n])];
    }
  }

  lemma CountSnoc<T>(s: seq<T>, y: T, x: T)
    ensures Count(s + [y], x) == Count(s, x) + if x == y then 1 else 0
  {
  }

  lemma {:induction false} CountTags(entries: seq<LogEntry>, tag: Tag)
    ensures Count(Tags(entries), tag) == Count(RecordsOf(entries, tag.0), tag.1)
  {
    if entries != [] {
      var n := |entries| - 1;
      CountTags(entries[..n], tag);
      var last := (entries[n].resourceKey, entries[n].record);
      assert Tags(entries) == Tags(entries[..n]) + [last];
      CountSnoc(Tags(entries[..n]), last, tag);
      var earlier := RecordsOf(entries[..n], tag.0);
      CountSnoc(earlier, last.1, tag.1);
      assert RecordsOf(entries, tag.0) == if last.0 == tag.0 then earlier + [last.1] else earlier;
    }
  }

  lemma {:induction false} CountInOrder(grouped: map<string, Group>, order: seq<string>, tag: Tag)
    requires Distinct(order) && forall k :: k in order ==> k in grouped
    ensures Count(InOrder(grouped, order), tag) == (if tag.0 in order then Count(grouped[tag.0].records, tag.1) else 0)
  {
    if order != [] {
      var n := |order| - 1;
      CountInOrder(grouped, order[..n], tag);
      CountTagAll(order[n], grouped[order[n]].records, tag);
      assert order == order[..n] + [order[n]];
    }
  }

  /** Whatever order the map is iterated in, the groups hold every entry's record under its own
      resource exactly as often as the input does. */
  lemma GroupsKeepEveryRecord(entries: seq<LogEntry>, stamp: seq<Attribute> -> seq<Attribute>,
      grouped: map<string, Group>, order: seq<string>)
    requires Grouped(grouped, entries, stamp) && OrderOf(order, grouped)
    ensures multiset(InOrder(grouped, order)) == multiset(Tags(entries))
  {
    forall tag: Tag
      ensures multiset(InOrder(grouped, order))[tag] == multiset(Tags(entries))[tag]
    {
      CountInOrder(grouped, order, tag);
      CountTags(entries, tag);
      if tag.0 !in grouped {
        NoneYet(entries, tag.0);
      }
    }
  }

  function Sizes(batches: seq<Batch>): seq<int> {
    seq(|batches|, b requires 0 <= b < |batches| => |batches[b].records|)
  }

  lemma {:induction false} SizesAddUp(batches: seq<Batch>)
    ensures Sum(Sizes(batches)) == |Carried(batches)|
  {
    if batches != [] {
      var n := |batches| - 1;
      SizesAddUp(batches[..n]);
      assert Sizes(batches) == Sizes(batches[..n]) + [|batches[n].records|];
      SumSplit(Sizes(batches[..n]), [|batches[n].records|]);
    }
  }

  /** The whole preparation: the batches carry the input, record for record. */
  method PrepareBatches(entries: seq<LogEntry>, stamp: seq<Attribute> -> seq<Attribute>, maxBatchSize: nat)
    returns (batches: seq<Batch>)
    requires maxBatchSize >= 1
    ensures multiset(Carried(batches)) == multiset(Tags(entries))
    ensures Sum(Sizes(batches)) == |entries|
    ensures forall b :: 0 <= b < |batches| ==>
              1 <= |batches[b].records| <= maxBatchSize && Stamped(entries, stamp, batches[b])
  {
    var grouped := GroupByResource(entries, stamp);
    var order: seq<string> := [];
    var left := grouped.Keys;
    while left != {}
      invariant Distinct(order) && left <= grouped.Keys
      invariant forall k :: k in order <==> k in grouped && k !in left
    {
      var k :| k in left;
      order := order + [k];
      left := left - {k};
    }
    batches := CutBatches(grouped, order, maxBatchSize);
    GroupsKeepEveryRecord(entries, stamp, grouped, order);
    SizesAddUp(batches);
    forall b | 0 <= b < |batches|
      ensures Stamped(entries, stamp, batches[b])
    {
      var i := FirstAttributesMean(entries, batches[b].resourceKey);
    }
    assert |Carried(batches)| == |multiset(Carried(batches))| == |multiset(Tags(entries))| == |Tags(entries)|;
  }
}
