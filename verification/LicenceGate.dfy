/** The two licence checks of cmd/lambda/main.go, in terms of what the invocation was given and what
    its logs hold: which batches are stopped, and that no other is. */
module LicenceGate {
  import opened Seqs
  import opened Strings
  import opened LicenseModel
  import opened EnforcerModel
  import opened EnforcerTheorems
  import opened EnforcerMeaning
  import opened BatchMerge
  import opened BatchHandler

  /** Both checks are told to be strict. */
  predicate SaidStrict<E>(v: Invocation<E>) {
    ModeSays(v.before, v.base, "strict") && ModeSays(v.after, v.base, "strict")
  }

  /** Neither the options nor the environment name a mode, or both leave it at "auto". */
  predicate LeftToTheRun(w: World, o: Options) {
    ModeSays(w, o, "") || ModeSays(w, o, "auto")
  }

  /** The token of these options is good at this moment, and carries these claims. */
  predicate HasLicence(w: World, f: Facts, c: Claims) {
    && !w.converted(f.time) && f.token != ""
    && w.verify(f.token, f.time, f.crl).Accepted? && w.verify(f.token, f.time, f.crl).claims == c
  }

  predicate WithoutLicence(w: World, f: Facts) {
    !w.converted(f.time) && f.token == ""
  }

  /** What the registry, or else the container, says of the resources found, when `key` counts them. */
  function RegistrySays<E>(v: Invocation<E>, tr: Trackers, f: Facts, key: string, asked: bool): RegistryReply {
    var found := v.sources(v.gathered).resources;
    if v.registry.Some? && asked then v.registry.value(key, found, f.time) else RegistryReply(Seen(tr, found), None)
  }

  /** Something found in the logs goes beyond the licence. */
  ghost predicate BeyondScope<E>(v: Invocation<E>, f: Facts, c: Claims) {
    var found := v.sources(v.gathered);
    || (exists a :: a in found.accounts && a != "" && !v.after.accountAllowed(c, a))
    || (exists r :: r in found.resources && TrimSpace(r) != "" && !v.after.resourceAllowed(c, TrimSpace(r)))
    || (!v.after.nonProdEnv(f.env) &&
        exists x :: x in found.features && TrimSpace(x) != "" && !v.after.hasFeature(c, TrimSpace(x)))
  }

  /** In strict mode a batch under a good licence is stopped exactly if the caller's account or the
      project is not the licence's, an account, resource or feature found in its logs is beyond it,
      the registry fails for good, or there are too many resources. */
  lemma LicensedBatchStopsExactly<E>(v: Invocation<E>, tr: Trackers, e: Facts, f: Facts, before: Claims, c: Claims)
    requires v.messages != [] && SaidStrict(v)
    requires e.Read(v.before, v.base) && HasLicence(v.before, e, before)
    requires f.Read(v.after, v.base) && HasLicence(v.after, f, c)
    ensures
      var key := EntitlementKey(Some(c), v.after.nonProdEnv(f.env), f.env, f.project, v.after.projectName);
      var reply := RegistrySays(v, tr, f, key, MaxResources(c) > 0);
      LicenceStop(v, tr).Some? <==>
        || !CallerOk(v.before, v.base, before) || !ProjectOk(v.before, v.base, before)
        || !CallerOk(v.after, v.base, c) || !ProjectOk(v.after, v.base, c)
        || BeyondScope(v, f, c)
        || FailsForGood(reply) || 0 < MaxResources(c) < reply.count
  {
    LicensedPreflight(v, e, before);
    LicensedFull(v, tr, f, c);
  }

  /** Buckets and logs change neither the clock nor environment, project and token. */
  lemma SameReading(w: World, base: Options, o: Options, f: Facts) returns (g: Facts)
    requires f.Read(w, base) && ModeSays(w, base, "strict")
    requires o == base.(bucketName := o.bucketName, bucketNames := o.bucketNames, sourceAccounts := o.sourceAccounts,
                        sourceResources := o.sourceResources, exercisedFeatures := o.exercisedFeatures,
                        batchRecordCount := o.batchRecordCount, registry := o.registry)
    ensures g.Read(w, o) && g.strict && g == f.(free := g.free, prod := g.prod, strict := g.strict)
    ensures forall c :: CallerOk(w, o, c) == CallerOk(w, base, c) && ProjectOk(w, o, c) == ProjectOk(w, base, c)
    ensures w.nonProdEnv(f.env) ==> g.free
  {
    g := FactsOf(w, o);
    ReadsExactly(w, base, f);
    ReadsExactly(w, o, g);
  }

  lemma LicensedPreflight<E>(v: Invocation<E>, f: Facts, c: Claims)
    requires SaidStrict(v) && f.Read(v.before, v.base) && HasLicence(v.before, f, c)
    ensures Decide(v.before, Preflight(PreflightOptions(v)), Trackers(None, None)).error.Some? <==>
              !CallerOk(v.before, v.base, c) || !ProjectOk(v.before, v.base, c)
  {
    var o := Preflight(PreflightOptions(v));
    var g := SameReading(v.before, v.base, o, f);
    ErrsExactly(v.before, o, Trackers(None, None), g);
  }

  lemma LicensedFull<E>(v: Invocation<E>, tr: Trackers, f: Facts, c: Claims)
    requires ModeSays(v.after, v.base, "strict") && f.Read(v.after, v.base) && HasLicence(v.after, f, c)
    ensures
      var key := EntitlementKey(Some(c), v.after.nonProdEnv(f.env), f.env, f.project, v.after.projectName);
      var reply := RegistrySays(v, tr, f, key, MaxResources(c) > 0);
      Decide(v.after, FullOptions(v), tr).error.Some? <==>
        || !CallerOk(v.after, v.base, c) || !ProjectOk(v.after, v.base, c) || BeyondScope(v, f, c)
        || FailsForGood(reply) || 0 < MaxResources(c) < reply.count
  {
    var o := FullOptions(v);
    var g := SameReading(v.after, v.base, o, f);
    ErrsExactly(v.after, o, tr, g);
  }

  /** Whatever the preflight made of the batch, logs that go beyond the licence stop it. */
  lemma BeyondScopeStops<E>(v: Invocation<E>, tr: Trackers, f: Facts, c: Claims)
    requires v.messages != [] && ModeSays(v.after, v.base, "strict")
    requires f.Read(v.after, v.base) && HasLicence(v.after, f, c) && BeyondScope(v, f, c)
    ensures LicenceStop(v, tr).Some?
  {
    LicensedFull(v, tr, f, c);
  }

  // ---------------------------------------------------------------- without a licence

  /** Sorting a set of buckets lists it. */
  ghost predicate Lists<E>(v: Invocation<E>) {
    forall buckets, b :: b in v.sorted(buckets) <==> b in buckets
  }

  /** Some object that some message announces lies in this bucket. */
  predicate Named<E>(messages: seq<Message<E>>, bucket: string) {
    bucket != "" && exists i :: 0 <= i < |messages| && NamedBy(messages[i], bucket)
  }

  predicate NamedBy<E>(message: Message<E>, bucket: string) {
    message.body.Some? && exists j :: 0 <= j < |message.body.value| && message.body.value[j].bucket == bucket
  }

  /** Names known before the download. */
  predicate KnownBefore<E>(v: Invocation<E>, f: Facts, name: string) {
    || Named(v.messages, name) || name == v.before.functionName || v.base.contextArn == Some(name) || name == f.project
  }

  /** Names known after it: the buckets that were read, or all if none was, and the resources in the logs. */
  predicate KnownAfter<E>(v: Invocation<E>, f: Facts, name: string) {
    || name in v.gathered.buckets || (v.gathered.buckets == {} && Named(v.messages, name))
    || name == v.after.functionName || v.base.contextArn == Some(name) || name == f.project
    || name in v.sources(v.gathered).resources
  }

  /** In strict mode a batch of a non-production environment without a licence is stopped exactly if some
      name looks like production, the registry fails for good, or there are too many records or resources. */
  lemma FreeBatchStopsExactly<E>(v: Invocation<E>, tr: Trackers, e: Facts, f: Facts)
    requires v.messages != [] && SaidStrict(v) && Lists(v)
    requires e.Read(v.before, v.base) && WithoutLicence(v.before, e) && v.before.nonProdEnv(e.env)
    requires f.Read(v.after, v.base) && WithoutLicence(v.after, f) && v.after.nonProdEnv(f.env)
    ensures
      var key := EntitlementKey(None, true, f.env, f.project, v.after.projectName);
      var reply := RegistrySays(v, tr, f, key, true);
      LicenceStop(v, tr).Some? <==>
        || (exists name :: KnownBefore(v, e, name) && LooksProd(name))
        || (exists name :: KnownAfter(v, f, name) && LooksProd(name))
        || FailsForGood(reply) || reply.count > 10 || TooManyRecords(tr, |v.gathered.entries|)
  {
    FreePreflightStops(v, e);
    FreeFull(v, tr, f);
  }

  /** So many records are more than the batch ceiling, or more than is left of the container's. */
  predicate TooManyRecords(tr: Trackers, records: nat) {
    && tr.quota.Some? && records > 0
    && (|| records > tr.quota.value.maxBatchRecords
        || records > tr.quota.value.maxContainerRecords - tr.quota.value.containerRecords)
  }

  lemma FreePreflightStops<E>(v: Invocation<E>, f: Facts)
    requires SaidStrict(v) && Lists(v)
    requires f.Read(v.before, v.base) && WithoutLicence(v.before, f) && v.before.nonProdEnv(f.env)
    ensures Decide(v.before, Preflight(PreflightOptions(v)), Trackers(None, None)).error.Some? <==>
              exists name :: KnownBefore(v, f, name) && LooksProd(name)
  {
    var o := Preflight(PreflightOptions(v));
    var g := SameReading(v.before, v.base, o, f);
    ErrsExactly(v.before, o, Trackers(None, None), g);
    assert !Objectionable(v.before, o, Trackers(None, None), g.(prod := false));
    forall name | LooksProd(name)
      ensures Visible(v.before, o, f.project, name) <==> KnownBefore(v, f, name)
    {
      ProdIsNamed(name);
      NamedExactly(v.messages, name);
    }
  }

  lemma FreeFull<E>(v: Invocation<E>, tr: Trackers, f: Facts)
    requires SaidStrict(v) && Lists(v)
    requires f.Read(v.after, v.base) && WithoutLicence(v.after, f) && v.after.nonProdEnv(f.env)
    ensures
      var key := EntitlementKey(None, true, f.env, f.project, v.after.projectName);
      var reply := RegistrySays(v, tr, f, key, true);
      Decide(v.after, FullOptions(v), tr).error.Some? <==>
        || (exists name :: KnownAfter(v, f, name) && LooksProd(name))
        || FailsForGood(reply) || reply.count > 10 || TooManyRecords(tr, |v.gathered.entries|)
  {
    var o := FullOptions(v);
    var g := SameReading(v.after, v.base, o, f);
    ErrsExactly(v.after, o, tr, g);
    forall name | LooksProd(name)
      ensures Visible(v.after, o, f.project, name) <==> KnownAfter(v, f, name)
    {
      ProdIsNamed(name);
      NamedExactly(v.messages, name);
    }
  }

  lemma ProdIsNamed(name: string)
    requires LooksProd(name)
    ensures name != ""
  {
    LooksProdExactly(name);
    BlankNeverMatches();
  }

  lemma NamedExactly<E>(messages: seq<Message<E>>, bucket: string)
    ensures bucket in BucketsNamed(messages) <==> Named(messages, bucket)
  {
    if Named(messages, bucket) {
      var i :| 0 <= i < |messages| && NamedBy(messages[i], bucket);
      var j :| 0 <= j < |messages[i].body.value| && messages[i].body.value[j].bucket == bucket;
    }
  }

  /** Where neither mode nor claim is given, a batch without a licence never gets as far as the download. */
  lemma UnlicensedBatchStops<E>(v: Invocation<E>, tr: Trackers, e: Facts)
    requires v.messages != [] && (SaidStrict(v) || LeftToTheRun(v.before, v.base))
    requires e.Read(v.before, v.base) && WithoutLicence(v.before, e)
    requires !v.before.nonProdEnv(e.env) && forall u :: !v.before.authorized(u)
    ensures LicenceStop(v, tr).Some? && LicenceStop(v, tr).value.reported == []
  {
    var o := Preflight(PreflightOptions(v));
    var g := FactsOf(v.before, o);
    ReadsExactly(v.before, v.base, e);
    ReadsExactly(v.before, o, g);
    assert g == e.(free := g.free, prod := g.prod, strict := g.strict) && g.strict && !g.free;
    ErrsExactly(v.before, o, Trackers(None, None), g);
  }
}
