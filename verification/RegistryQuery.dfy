/** fetchActiveCountFromCloudWatch of pkg/license/cloudwatch_registry.go: list the candidate
    metrics page by page, give each a generated query id, ask for sample counts in chunks of 500,
    and read the answers page by page. */
module RegistryQuery {
  import opened Seqs
  import opened Strings
  import opened RegistryModel

  const MAX_QUERIES: int := 500

  datatype Dimension = Dimension(name: Option<string>, value: Option<string>)
  datatype ListReply = ListPage(metrics: seq<seq<Dimension>>) | ListError(failure: Failure)
  datatype Query = Query(id: string, arn: string)
  datatype MetricResult = MetricResult(id: Option<string>, values: seq<real>)
  datatype GetReply = GetPage(results: seq<MetricResult>) | GetError(failure: Failure)

  /** The replies of one evaluation: the list pages, and the result pages for each chunk of
      queries.  A reply carries a NextToken exactly if another follows it. */
  datatype Api = Api(list: seq<ListReply>, get: seq<Query> -> seq<GetReply>)

  // ---------------------------------------------------------------- what the replies say

  function ArnsOfMetric(dims: seq<Dimension>): set<string> {
    set d | d in dims && d.name == Some("ResourceARN") && d.value.Some? && d.value.value != "" :: d.value.value
  }

  function ArnsOfMetrics(metrics: seq<seq<Dimension>>): set<string> {
    if metrics == [] then {}
    else ArnsOfMetrics(metrics[..|metrics| - 1]) + ArnsOfMetric(metrics[|metrics| - 1])
  }

  function ListedArns(pages: seq<ListReply>): set<string> {
    if pages == [] then {}
    else
      var last := pages[|pages| - 1];
      ListedArns(pages[..|pages| - 1]) + (if last.ListPage? then ArnsOfMetrics(last.metrics) else {})
  }

  function SumOf(values: seq<real>): real {
    if values == [] then 0.0 else SumOf(values[..|values| - 1]) + values[|values| - 1]
  }

  /** The resources a list of results shows to be active. */
  function ArnsOfResults(results: seq<MetricResult>, arnOf: map<string, string>): set<string> {
    if results == [] then {}
    else
      var last := results[|results| - 1];
      ArnsOfResults(results[..|results| - 1], arnOf) +
      (if last.id.Some? && SumOf(last.values) > 0.0 && last.id.value in arnOf then {arnOf[last.id.value]} else {})
  }

  function ArnsOfPages(pages: seq<GetReply>, arnOf: map<string, string>): set<string> {
    if pages == [] then {}
    else
      var last := pages[|pages| - 1];
      ArnsOfPages(pages[..|pages| - 1], arnOf) + (if last.GetPage? then ArnsOfResults(last.results, arnOf) else {})
  }

  /** All samples reported for one query id, over all pages. */
  function SamplesInResults(results: seq<MetricResult>, id: string): real {
    if results == [] then 0.0
    else
      var last := results[|results| - 1];
      SamplesInResults(results[..|results| - 1], id) + (if last.id == Some(id) then SumOf(last.values) else 0.0)
  }

  function SamplesInPages(pages: seq<GetReply>, id: string): real {
    if pages == [] then 0.0
    else
      var last := pages[|pages| - 1];
      SamplesInPages(pages[..|pages| - 1], id) + (if last.GetPage? then SamplesInResults(last.results, id) else 0.0)
  }

  /** How many heartbeats of a pair the store holds in a time interval. */
  function SampleCount(store: seq<Beat>, key: string, arn: string, lo: int, hi: int): nat {
    if store == [] then 0
    else
      var b := store[|store| - 1];
      SampleCount(store[..|store| - 1], key, arn, lo, hi) +
      (if b.key == key && b.arn == arn && lo <= b.time <= hi then 1 else 0)
  }

  // ---------------------------------------------------------------- a truthful service

  predicate NonNegative(values: seq<real>) {
    forall v :: 0 <= v < |values| ==> values[v] >= 0.0
  }

  ghost predicate PlausibleResults(results: seq<MetricResult>, chunk: seq<Query>) {
    forall i :: 0 <= i < |results| ==>
      && NonNegative(results[i].values)
      && (results[i].id.Some? && HasSample(results[i], results[i].id.value) ==>
            exists q :: q in chunk && q.id == results[i].id.value)
  }

  /** What a query asks for: the resources with a heartbeat under `key` in [lo, hi].  It takes many
      requests, and other containers go on writing; `before` is the store when it starts, `after`
      when it ends. */
  datatype Span = Span(before: seq<Beat>, after: seq<Beat>, key: string, lo: int, hi: int)
  {
    function Must(): set<string> {
      Active(before, key, lo, hi)
    }

    function May(): set<string> {
      Active(after, key, lo, hi)
    }

    /** A right answer: all that was there at the start, and nothing that is not there at the end. */
    predicate Admits(active: set<string>) {
      Must() <= active <= May()
    }
  }

  /** Metric m of a list page names the resource a. */
  predicate Names(metric: seq<Dimension>, a: string) {
    a != "" && exists d :: 0 <= d < |metric| && metric[d] == Dimension(Some("ResourceARN"), Some(a))
  }

  predicate PageNames(page: ListReply, a: string) {
    page.ListPage? && exists m :: 0 <= m < |page.metrics| && Names(page.metrics[m], a)
  }

  /** Some page of the list names the resource. */
  predicate Listed(pages: seq<ListReply>, a: string) {
    exists p :: 0 <= p < |pages| && PageNames(pages[p], a)
  }

  /** A result reports some sample under this query id. */
  predicate HasSample(result: MetricResult, id: string) {
    result.id == Some(id) && exists v :: 0 <= v < |result.values| && result.values[v] > 0.0
  }

  predicate PageHasSample(page: GetReply, id: string) {
    page.GetPage? && exists i :: 0 <= i < |page.results| && HasSample(page.results[i], id)
  }

  /** Some page does. */
  predicate Sampled(pages: seq<GetReply>, id: string) {
    exists p :: 0 <= p < |pages| && PageHasSample(pages[p], id)
  }

  /** The pages show a resource to be active: one of them has a sample under an id that stands for it. */
  predicate Shown(pages: seq<GetReply>, arnOf: map<string, string>, a: string) {
    exists id :: id in arnOf && arnOf[id] == a && Sampled(pages, id)
  }

  predicate NoneNegative(pages: seq<GetReply>) {
    forall p, i :: 0 <= p < |pages| && pages[p].GetPage? && 0 <= i < |pages[p].results| ==>
      NonNegative(pages[p].results[i].values)
  }

  /** The answer to one chunk, all of whose pages arrive: no negative and no foreign samples; a sample
      for each query whose resource the window held all along, and for none whose resource it does not
      hold at the end.  On which page, and how many, is open. */
  ghost predicate AnswersTruly(pages: seq<GetReply>, chunk: seq<Query>, span: Span) {
    && (forall p :: 0 <= p < |pages| ==> pages[p].GetPage? && PlausibleResults(pages[p].results, chunk))
    && (forall q :: q in chunk ==>
          && (q.arn in span.Must() ==> Sampled(pages, q.id))
          && (Sampled(pages, q.id) ==> q.arn in span.May()))
  }

  predicate DistinctIds(chunk: seq<Query>) {
    forall i, j :: 0 <= i < j < |chunk| ==> chunk[i].id != chunk[j].id
  }

  predicate ListArrives(pages: seq<ListReply>) {
    forall p :: 0 <= p < |pages| ==> pages[p].ListPage?
  }

  predicate PagesArrive(pages: seq<GetReply>) {
    forall p :: 0 <= p < |pages| ==> pages[p].GetPage?
  }

  /** A service that may fail at any page but does not lie: a list that arrives names at least every
      resource to be found, and a chunk within the limit that arrives is answered truly. */
  ghost predicate Truthful(api: Api, span: Span) {
    && (ListArrives(api.list) ==> forall a :: a in span.Must() ==> Listed(api.list, a))
    && (forall chunk :: DistinctIds(chunk) && |chunk| <= 500 && PagesArrive(api.get(chunk)) ==>
          AnswersTruly(api.get(chunk), chunk, span))
  }

  /** Nothing fails. */
  ghost predicate Arrives(api: Api) {
    ListArrives(api.list) && forall chunk :: PagesArrive(api.get(chunk))
  }

  /** The first list page that fails does so with f. */
  predicate ListFailsWith(pages: seq<ListReply>, f: Failure) {
    exists p :: 0 <= p < |pages| && pages[p] == ListError(f) && ListArrives(pages[..p])
  }

  predicate GetFailsWith(pages: seq<GetReply>, f: Failure) {
    exists p :: 0 <= p < |pages| && pages[p] == GetError(f) && PagesArrive(pages[..p])
  }

  lemma {:induction false} MetricNames(metric: seq<Dimension>, a: string)
    ensures a in ArnsOfMetric(metric) <==> Names(metric, a)
  {
    if d :| 0 <= d < |metric| && metric[d] == Dimension(Some("ResourceARN"), Some(a)) {
      assert metric[d] in metric;
    }
  }

  lemma {:induction false} MetricsName(metrics: seq<seq<Dimension>>, a: string)
    ensures a in ArnsOfMetrics(metrics) <==> exists m :: 0 <= m < |metrics| && Names(metrics[m], a)
  {
    if metrics != [] {
      var n := |metrics| - 1;
      MetricsName(metrics[..n], a);
      MetricNames(metrics[n], a);
      assert forall m :: 0 <= m < n ==> metrics[..n][m] == metrics[m];
    }
  }

  lemma {:induction false} PagesName(pages: seq<ListReply>, a: string)
    ensures a in ListedArns(pages) <==> Listed(pages, a)
  {
    if pages != [] {
      var n := |pages| - 1;
      PagesName(pages[..n], a);
      if pages[n].ListPage? {
        MetricsName(pages[n].metrics, a);
      }
      assert forall p :: 0 <= p < n ==> pages[..n][p] == pages[p];
      assert Listed(pages, a) <==> Listed(pages[..n], a) || PageNames(pages[n], a);
    }
  }

  /** The set built page by page holds exactly the resources some page names. */
  lemma ListedMeans(pages: seq<ListReply>)
    ensures forall a :: a in ListedArns(pages) <==> Listed(pages, a)
  {
    forall a
      ensures a in ListedArns(pages) <==> Listed(pages, a)
    {
      PagesName(pages, a);
    }
  }

  lemma {:induction false} SumOfNonNegative(values: seq<real>)
    requires NonNegative(values)
    ensures SumOf(values) >= 0.0
    ensures SumOf(values) > 0.0 <==> exists v :: 0 <= v < |values| && values[v] > 0.0
  {
    if values != [] {
      var n := |values| - 1;
      SumOfNonNegative(values[..n]);
      assert forall v :: 0 <= v < n ==> values[..n][v] == values[v];
    }
  }

  lemma {:induction false} ResultsShow(results: seq<MetricResult>, arnOf: map<string, string>, a: string)
    requires forall i :: 0 <= i < |results| ==> NonNegative(results[i].values)
    ensures a in ArnsOfResults(results, arnOf) <==>
            exists id :: id in arnOf && arnOf[id] == a && PageHasSample(GetPage(results), id)
  {
    if results != [] {
      var n := |results| - 1;
      var last := results[n];
      ResultsShow(results[..n], arnOf, a);
      SumOfNonNegative(last.values);
      forall id
        ensures PageHasSample(GetPage(results), id) <==>
                PageHasSample(GetPage(results[..n]), id) || HasSample(last, id)
      {
        assert forall i :: 0 <= i < n ==> GetPage(results[..n]).results[i] == results[i];
        assert GetPage(results).results[n] == last;
      }
    }
  }

  lemma {:induction false} PagesShow(pages: seq<GetReply>, arnOf: map<string, string>, a: string)
    requires NoneNegative(pages)
    ensures a in ArnsOfPages(pages, arnOf) <==> Shown(pages, arnOf, a)
  {
    if pages != [] {
      var n := |pages| - 1;
      PagesShow(pages[..n], arnOf, a);
      if pages[n].GetPage? {
        ResultsShow(pages[n].results, arnOf, a);
        assert pages[n] == GetPage(pages[n].results);
      }
      forall id
        ensures Sampled(pages, id) <==> Sampled(pages[..n], id) || PageHasSample(pages[n], id)
      {
        assert forall p :: 0 <= p < n ==> pages[..n][p] == pages[p];
      }
    }
  }

  /** The set built page by page holds exactly the resources with a sample on some page. */
  lemma PagesMean(pages: seq<GetReply>, arnOf: map<string, string>)
    requires NoneNegative(pages)
    ensures forall a :: a in ArnsOfPages(pages, arnOf) <==> Shown(pages, arnOf, a)
  {
    forall a
      ensures a in ArnsOfPages(pages, arnOf) <==> Shown(pages, arnOf, a)
    {
      PagesShow(pages, arnOf, a);
    }
  }

  // ---------------------------------------------------------------- the code

  method ListCandidates(pages: seq<ListReply>) returns (candidates: set<string>, failure: Option<Failure>)
    ensures failure.None? <==> ListArrives(pages)
    ensures failure.None? ==> forall a :: a in candidates <==> Listed(pages, a)
    ensures failure.Some? ==> ListFailsWith(pages, failure.value)
  {
    candidates := {};
    for p := 0 to |pages|
      invariant forall i :: 0 <= i < p ==> pages[i].ListPage?
      invariant candidates == ListedArns(pages[..p])
    {
      match pages[p] {
        case ListError(f) => return candidates, Some(f);
        case ListPage(metrics) =>
          for m := 0 to |metrics|
            invariant candidates == ListedArns(pages[..p]) + ArnsOfMetrics(metrics[..m])
          {
            var dims := metrics[m];
            for d := 0 to |dims|
              invariant candidates == ListedArns(pages[..p]) + ArnsOfMetrics(metrics[..m]) + ArnsOfMetric(dims[..d])
            {
              assert dims[..d + 1] == dims[..d] + [dims[d]];
              if dims[d].name == Some("ResourceARN") && dims[d].value.Some? && dims[d].value.value != "" {
                candidates := candidates + {dims[d].value.value};
              }
            }
            assert dims[..|dims|] == dims;
            assert metrics[..m + 1][..m] == metrics[..m];
          }
          assert metrics[..|metrics|] == metrics;
      }
      assert pages[..p + 1][..p] == pages[..p];
    }
    assert pages[..|pages|] == pages;
    ListedMeans(pages);
    failure := None;
  }

  function QueryId(n: nat): string {
    "r" + Decimal(n)
  }

  lemma QueryIdsDiffer(m: nat, n: nat)
    requires QueryId(m) == QueryId(n)
    ensures m == n
  {
    assert QueryId(m)[1..] == Decimal(m) && QueryId(n)[1..] == Decimal(n);
    DecimalInjective(m, n);
  }

  function Arns(queries: seq<Query>): set<string> {
    set q | q in queries :: q.arn
  }

  function Ids(queries: seq<Query>): set<string> {
    set q | q in queries :: q.id
  }

  /** One query per candidate, each under its own id, and the ids lead back to the resources. */
  predicate QueriesFor(queries: seq<Query>, arnOf: map<string, string>, candidates: set<string>) {
    && Arns(queries) == candidates && Ids(queries) == arnOf.Keys
    && (forall q :: q in queries ==> q.id in arnOf && arnOf[q.id] == q.arn)
    && (forall i, j :: 0 <= i < j < |queries| ==> queries[i].id != queries[j].id)
    && (forall i, j :: 0 <= i < j < |queries| ==> queries[i].arn != queries[j].arn)
  }

  method BuildQueries(candidates: set<string>) returns (queries: seq<Query>, arnOf: map<string, string>)
    ensures QueriesFor(queries, arnOf, candidates)
  {
    queries, arnOf := [], map[];
    var left := candidates;
    var idx := 0;
    while left != {}
      invariant idx == |queries| && left <= candidates
      invariant forall i :: 0 <= i < |queries| ==> queries[i].id == QueryId(i)
      invariant QueriesFor(queries, arnOf, candidates - left)
    {
      var arn :| arn in left;
      var id := QueryId(idx);
      forall i | 0 <= i < |queries|
        ensures queries[i].id != id
      {
        if queries[i].id == id {
          QueryIdsDiffer(i, idx);
        }
      }
      OneMoreQuery(queries, arnOf, candidates - left, id, arn);
      assert candidates - (left - {arn}) == candidates - left + {arn};
      queries, arnOf := queries + [Query(id, arn)], arnOf[id := arn];
      idx := idx + 1;
      left := left - {arn};
    }
    assert candidates - {} == candidates;
  }

  lemma OneMoreQuery(queries: seq<Query>, arnOf: map<string, string>, done: set<string>, id: string, arn: string)
    requires QueriesFor(queries, arnOf, done) && arn !in done
    requires forall i :: 0 <= i < |queries| ==> queries[i].id != id
    ensures QueriesFor(queries + [Query(id, arn)], arnOf[id := arn], done + {arn})
  {
    var q := Query(id, arn);
    var more := queries + [q];
    assert forall x :: x in more <==> x in queries || x == q;
    assert Arns(more) == Arns(queries) + {arn};
    assert Ids(more) == Ids(queries) + {id};
    forall i | 0 <= i < |queries|
      ensures queries[i].arn != arn
    {
      assert queries[i].arn in Arns(queries);
    }
  }

  method ReadChunk(pages: seq<GetReply>, arnOf: map<string, string>)
      returns (active: set<string>, failure: Option<Failure>)
    ensures failure.None? <==> PagesArrive(pages)
    ensures failure.None? ==> active == ArnsOfPages(pages, arnOf)
    ensures failure.None? && NoneNegative(pages) ==> forall a :: a in active <==> Shown(pages, arnOf, a)
    ensures failure.Some? ==> GetFailsWith(pages, failure.value)
  {
    active := {};
    for p := 0 to |pages|
      invariant forall i :: 0 <= i < p ==> pages[i].GetPage?
      invariant active == ArnsOfPages(pages[..p], arnOf)
    {
      match pages[p] {
        case GetError(f) => return active, Some(f);
        case GetPage(results) =>
          for i := 0 to |results|
            invariant active == ArnsOfPages(pages[..p], arnOf) + ArnsOfResults(results[..i], arnOf)
          {
            var res := results[i];
            assert results[..i + 1][..i] == results[..i];
            if res.id.Some? && |res.values| > 0 {
              var totalSamples := 0.0;
              for v := 0 to |res.values|
                invariant totalSamples == SumOf(res.values[..v])
              {
                assert res.values[..v + 1][..v] == res.values[..v];
                totalSamples := totalSamples + res.values[v];
              }
              assert res.values[..|res.values|] == res.values;
              if totalSamples > 0.0 && res.id.value in arnOf {
                active := active + {arnOf[res.id.value]};
              }
            }
          }
          assert results[..|results|] == results;
      }
      assert pages[..p + 1][..p] == pages[..p];
    }
    assert pages[..|pages|] == pages;
    if NoneNegative(pages) {
      PagesMean(pages, arnOf);
    }
    failure := None;
  }

  ghost predicate SomeChunkFailsWith(api: Api, f: Failure) {
    exists chunk :: GetFailsWith(api.get(chunk), f)
  }

  /** The second half: ask chunk by chunk, read page by page, stop at the first failure. */
  method FetchChunks(api: Api, queries: seq<Query>, arnOf: map<string, string>, ghost candidates: set<string>,
      ghost span: Span)
    returns (fetch: Fetch)
    requires QueriesFor(queries, arnOf, candidates)
    ensures Truthful(api, span) && fetch.Fetched? ==> FoundAmong(queries, span, fetch.active)
    ensures Arrives(api) ==> fetch.Fetched?
    ensures fetch.FetchFailed? ==> SomeChunkFailsWith(api, fetch.failure)
  {
    var active: set<string> := {};
    var i := 0;
    while i < |queries|
      invariant 0 <= i
      invariant Truthful(api, span) ==> FoundAmong(queries[..if i < |queries| then i else |queries|], span, active)
    {
      var end := i + MAX_QUERIES;
      if end > |queries| {
        end := |queries|;
      }
      var chunk := queries[i..end];
      var found, getFailure := ReadChunk(api.get(chunk), arnOf);
      if getFailure.Some? {
        assert GetFailsWith(api.get(chunk), getFailure.value);
        return FetchFailed(getFailure.value);
      }
      NextChunk(api, queries, arnOf, candidates, i, end, span, active);
      active := active + found;
      i := i + MAX_QUERIES;
    }
    assert queries[..|queries|] == queries;
    return Fetched(active);
  }

  /** For any number of resources and any split into pages: a truthful service is answered with a
      right set or with a failure, never with part of one; a failure is the first page's that failed,
      of the list or of a chunk; and if nothing fails there is an answer. */
  method FetchActive(api: Api, ghost span: Span) returns (fetch: Fetch)
    ensures Truthful(api, span) && fetch.Fetched? ==> span.Admits(fetch.active)
    ensures Arrives(api) ==> fetch.Fetched?
    ensures fetch.FetchFailed? ==>
              || ListFailsWith(api.list, fetch.failure)
              || (ListArrives(api.list) && SomeChunkFailsWith(api, fetch.failure))
  {
    var candidates, listFailure := ListCandidates(api.list);
    if listFailure.Some? {
      return FetchFailed(listFailure.value);
    }
    if candidates == {} {
      return Fetched({});
    }
    var queries, arnOf := BuildQueries(candidates);
    fetch := FetchChunks(api, queries, arnOf, candidates, span);
    if Truthful(api, span) && fetch.Fetched? {
      AllAreAsked(queries, arnOf, candidates, span, fetch.active);
    }
  }

  // ---------------------------------------------------------------- why it is right

  /** The part of a right answer that concerns the resources of some queries. */
  ghost predicate FoundAmong(queries: seq<Query>, span: Span, active: set<string>) {
    && (forall q :: q in queries && q.arn in span.Must() ==> q.arn in active)
    && active <= span.May()
  }

  lemma FoundJoins(queries: seq<Query>, i: nat, end: nat, span: Span, active: set<string>, found: set<string>)
    requires i <= end <= |queries|
    requires FoundAmong(queries[..i], span, active) && FoundAmong(queries[i..end], span, found)
    ensures FoundAmong(queries[..end], span, active + found)
  {
    assert queries[..end] == queries[..i] + queries[i..end];
  }

  /** Adding a chunk's answer brings the count up to the end of the chunk. */
  lemma NextChunk(api: Api, queries: seq<Query>, arnOf: map<string, string>, candidates: set<string>, i: nat, end: nat,
      span: Span, active: set<string>)
    requires QueriesFor(queries, arnOf, candidates)
    requires i <= end <= |queries| && end - i <= MAX_QUERIES && PagesArrive(api.get(queries[i..end]))
    ensures Truthful(api, span) && FoundAmong(queries[..i], span, active) ==>
              FoundAmong(queries[..end], span, active + ArnsOfPages(api.get(queries[i..end]), arnOf))
  {
    if Truthful(api, span) && FoundAmong(queries[..i], span, active) {
      var chunk := queries[i..end];
      assert DistinctIds(chunk);
      assert AnswersTruly(api.get(chunk), chunk, span);
      ChunkIsRight(api.get(chunk), chunk, queries, arnOf, candidates, span);
      FoundJoins(queries, i, end, span, active, ArnsOfPages(api.get(chunk), arnOf));
    }
  }

  lemma AllAreAsked(queries: seq<Query>, arnOf: map<string, string>, candidates: set<string>, span: Span,
      active: set<string>)
    requires QueriesFor(queries, arnOf, candidates)
    requires forall a :: a in span.Must() ==> a in candidates
    requires FoundAmong(queries, span, active)
    ensures span.Admits(active)
  {
    forall a | a in span.Must()
      ensures a in active
    {
      assert a in Arns(queries);
      var q :| q in queries && q.arn == a;
    }
  }

  lemma {:induction false} SampledIffActive(store: seq<Beat>, key: string, arn: string, lo: int, hi: int)
    ensures SampleCount(store, key, arn, lo, hi) > 0 <==> arn in Active(store, key, lo, hi)
  {
    if store != [] {
      var n := |store| - 1;
      SampledIffActive(store[..n], key, arn, lo, hi);
      assert store == store[..n] + [store[n]];
      assert Active(store, key, lo, hi) == Active(store[..n], key, lo, hi) + Active([store[n]], key, lo, hi);
    }
  }

  /** On one page, and over all of them: the samples under an id sum above 0 exactly if some page has one. */
  lemma {:induction false} ResultsCount(results: seq<MetricResult>, id: string)
    requires forall i :: 0 <= i < |results| ==> NonNegative(results[i].values)
    ensures SamplesInResults(results, id) >= 0.0
    ensures SamplesInResults(results, id) > 0.0 <==> PageHasSample(GetPage(results), id)
  {
    if results != [] {
      var n := |results| - 1;
      ResultsCount(results[..n], id);
      SumOfNonNegative(results[n].values);
      assert forall i :: 0 <= i < n ==> GetPage(results[..n]).results[i] == results[i];
      assert GetPage(results).results[n] == results[n];
    }
  }

  lemma {:induction false} PagesCount(pages: seq<GetReply>, id: string)
    requires NoneNegative(pages)
    ensures SamplesInPages(pages, id) >= 0.0
    ensures SamplesInPages(pages, id) > 0.0 <==> Sampled(pages, id)
  {
    if pages != [] {
      var n := |pages| - 1;
      PagesCount(pages[..n], id);
      if pages[n].GetPage? {
        ResultsCount(pages[n].results, id);
        assert pages[n] == GetPage(pages[n].results);
      }
      assert forall p :: 0 <= p < n ==> pages[..n][p] == pages[p];
      assert Sampled(pages, id) <==> Sampled(pages[..n], id) || PageHasSample(pages[n], id);
    }
  }

  /** A service that counts heartbeats answers truly: it is enough that the samples it reports under
      each id, over all pages, are no fewer than the window held at the start and no more than at the end. */
  lemma CountedAnswersAreTrue(pages: seq<GetReply>, chunk: seq<Query>, span: Span)
    requires forall p :: 0 <= p < |pages| ==> pages[p].GetPage? && PlausibleResults(pages[p].results, chunk)
    requires forall q :: q in chunk ==>
               SampleCount(span.before, span.key, q.arn, span.lo, span.hi) as real <= SamplesInPages(pages, q.id)
               <= SampleCount(span.after, span.key, q.arn, span.lo, span.hi) as real
    ensures AnswersTruly(pages, chunk, span)
  {
    forall q | q in chunk
      ensures q.arn in span.Must() ==> Sampled(pages, q.id)
      ensures Sampled(pages, q.id) ==> q.arn in span.May()
    {
      PagesCount(pages, q.id);
      SampledIffActive(span.before, span.key, q.arn, span.lo, span.hi);
      SampledIffActive(span.after, span.key, q.arn, span.lo, span.hi);
    }
  }

  /** A truly answered chunk yields all of its resources that were there at the start, and no
      resource that is not there at the end. */
  lemma ChunkIsRight(pages: seq<GetReply>, chunk: seq<Query>, queries: seq<Query>, arnOf: map<string, string>,
      candidates: set<string>, span: Span)
    requires QueriesFor(queries, arnOf, candidates) && (forall q :: q in chunk ==> q in queries)
    requires AnswersTruly(pages, chunk, span)
    ensures FoundAmong(chunk, span, ArnsOfPages(pages, arnOf))
  {
    PagesMean(pages, arnOf);
    forall q | q in chunk && q.arn in span.Must()
      ensures q.arn in ArnsOfPages(pages, arnOf)
    {
      assert Sampled(pages, q.id) && arnOf[q.id] == q.arn;
    }
    forall a | a in ArnsOfPages(pages, arnOf)
      ensures a in span.May()
    {
      var id :| id in arnOf && arnOf[id] == a && Sampled(pages, id);
      var p :| 0 <= p < |pages| && PageHasSample(pages[p], id);
      var i :| 0 <= i < |pages[p].results| && HasSample(pages[p].results[i], id);
      assert pages[p].results[i].id.value == id;
      var q :| q in chunk && q.id == id;
      assert q.arn == a;
    }
  }
}
