/** The licence decision said once more, over the options, the environment and the answers of the
    oracles alone: what a run reads, when it errs, what it reports and what it leaves in the trackers. */
module EnforcerMeaning {
  import opened Seqs
  import opened Strings
  import opened Quota
  import opened LicenseModel
  import opened EnforcerModel
  import opened EnforcerTheorems

  // ---------------------------------------------------------------- what a run reads

  /** The name is made of these three parts, and the middle one stands alone in it. */
  predicate StandsAlone(name: string, before: string, word: string, after: string) {
    && name == before + word + after
    && (before == "" || before[|before| - 1] in "-_./:")
    && (after == "" || after[0] in "-_./:")
  }

  ghost predicate LooksProd(name: string) {
    exists before, word, after :: StandsAlone(TrimSpace(name), before, word, after) && SaysProd(word)
  }

  predicate SaysProd(word: string) {
    ToLower(word) == "production" || ToLower(word) == "prod" || ToLower(word) == "live" || ToLower(word) == "prd"
  }

  /** A name the run can see. */
  predicate Visible(w: World, o: Options, project: string, name: string) {
    || name in o.bucketNames || name == o.bucketName || name == w.functionName || o.contextArn == Some(name)
    || name == project || name in o.sourceResources
  }

  /** The word the mode option says, or the setting where the option says nothing. */
  predicate ModeSays(w: World, o: Options, word: string) {
    ToLower(TrimSpace(if TrimSpace(o.mode) == "" then w.modeSetting else o.mode)) == word
  }

  /** What is read before the licence is looked at. */
  datatype Facts = Facts(time: int, env: string, project: string, free: bool, prod: bool, strict: bool, token: string,
      crl: CrlSource)
  {
    ghost predicate Read(w: World, o: Options) {
      ReadInputs(w, o) && ReadClaim(w, o) && ReadMode(w, o) && ReadToken(w, o)
    }

    /** The clock counts unless AWS time is known and the two are more than 15 minutes apart. */
    predicate ReadInputs(w: World, o: Options) {
      var clock := if o.evaluationTime.Some? then o.evaluationTime.value else w.now;
      && (match o.authoritativeTime
          case Some(aws) => time == if aws - 900_000_000_000 <= clock <= aws + 900_000_000_000 then clock else aws
          case None => time == clock)
      && env == (if TrimSpace(o.environment) == "" then w.detectedEnv else TrimSpace(o.environment))
      && project == TrimSpace(if TrimSpace(o.projectName) == "" then w.projectName else o.projectName)
    }

    ghost predicate ReadClaim(w: World, o: Options) {
      var bucket := if o.bucketNames == [] then o.bucketName else Join(o.bucketNames, ",");
      && (free <==> w.nonProdEnv(env) || w.authorized(Usage(env, time, bucket, project)))
      && (prod <==> exists name :: Visible(w, o, project, name) && LooksProd(name))
    }

    /** Strict where that is said; where nothing is, or "auto", for a production name or without a
        claim to free use. */
    predicate ReadMode(w: World, o: Options) {
      strict <==> ModeSays(w, o, "strict") || ((ModeSays(w, o, "") || ModeSays(w, o, "auto")) && (prod || !free))
    }

    predicate ReadToken(w: World, o: Options) {
      && (match w.token(o.licenseKey, o.licenseFile) case Token(t) => token == t case TokenError(_) => token == "")
      && (o.crl != "" ==> crl == Explicit(o.crl))
      && (o.crl == "" && o.crlFile != "" ==> crl == Explicit(o.crlFile))
      && (o.crl == "" && o.crlFile == "" ==> crl == if o.crlURL == "" then Default else Online(o.crlURL))
    }
  }

  lemma LooksProdExactly(name: string)
    ensures LooksProd(name) <==> MatchesProdKeyword(name)
  {
    var s := TrimSpace(name);
    if before, word, after :| StandsAlone(s, before, word, after) && SaysProd(word) {
      assert s[|before|..|before| + |word|] == word;
      assert before != "" ==> s[|before| - 1] == before[|before| - 1];
      assert after != "" ==> s[|before| + |word|] == after[0];
      assert KeywordAt(s, |before|, |before| + |word|);
    }
    if i, j :| 0 <= i <= j <= |s| && KeywordAt(s, i, j) {
      assert s == s[..i] + s[i..j] + s[j..];
      assert StandsAlone(s, s[..i], s[i..j], s[j..]) && SaysProd(s[i..j]);
    }
  }

  lemma ProdExactly(w: World, o: Options)
    ensures HasProd(w, o) <==> exists name :: Visible(w, o, Project(w, o), name) && LooksProd(name)
  {
    forall name
      ensures LooksProd(name) <==> MatchesProdKeyword(name)
    {
      LooksProdExactly(name);
    }
    if name :| Visible(w, o, Project(w, o), name) && LooksProd(name) {
      BlankNeverMatches();
      if name in o.bucketNames || (name == o.bucketName && name != "") {
        assert name in Buckets(o);
        var i :| 0 <= i < |Buckets(o)| && Buckets(o)[i] == name;
      } else if name in o.sourceResources {
        var i :| 0 <= i < |o.sourceResources| && o.sourceResources[i] == name;
      }
    }
    if HasProd(w, o) {
      SomeNameMatches(w, o);
    }
  }

  lemma BlankNeverMatches()
    ensures !MatchesProdKeyword("")
  {
  }

  lemma SomeNameMatches(w: World, o: Options)
    requires HasProd(w, o)
    ensures exists name :: Visible(w, o, Project(w, o), name) && MatchesProdKeyword(name)
  {
    if AnyProd(Buckets(o)) {
      var i :| 0 <= i < |Buckets(o)| && MatchesProdKeyword(Buckets(o)[i]);
      assert Visible(w, o, Project(w, o), Buckets(o)[i]);
    } else if AnyProd(o.sourceResources) {
      var i :| 0 <= i < |o.sourceResources| && MatchesProdKeyword(o.sourceResources[i]);
      assert Visible(w, o, Project(w, o), o.sourceResources[i]);
    } else if MatchesProdKeyword(w.functionName) {
      assert Visible(w, o, Project(w, o), w.functionName);
    } else if MatchesProdKeyword(Project(w, o)) {
      assert Visible(w, o, Project(w, o), Project(w, o));
    } else {
      assert Visible(w, o, Project(w, o), o.contextArn.value);
    }
  }

  function FactsOf(w: World, o: Options): Facts {
    Facts(EvalTime(w, o), Env(w, o), Project(w, o), FreeEligible(w, o), HasProd(w, o), Strict(w, o),
          ResolvedToken(w, o), Crl(o))
  }

  /** Two lists of names are joined one after the other, with the separator wherever two names meet. */
  lemma {:induction false} JoinSplits(a: seq<string>, b: seq<string>, separator: string)
    ensures a != [] && b != [] ==> Join(a + b, separator) == Join(a, separator) + separator + Join(b, separator)
    ensures |a| == 1 ==> Join(a, separator) == a[0]
  {
    if |a| == 1 {
      assert (a + b)[1..] == b;
    } else if |a| > 1 {
      assert (a + b)[1..] == a[1..] + b;
      JoinSplits(a[1..], b, separator);
    }
  }

  /** A run reads exactly one set of facts, and it is the one the decision works with. */
  lemma ReadsExactly(w: World, o: Options, f: Facts)
    ensures f.Read(w, o) <==> f == FactsOf(w, o)
  {
    ProdExactly(w, o);
  }

  // ---------------------------------------------------------------- runs without a licence

  /** How many resources there are, unless a registry says: all tracked so far, or the names given. */
  function Seen(tr: Trackers, names: seq<string>): nat {
    match tr.resources
    case Some(earlier) => |earlier + (set r | r in names && TrimSpace(r) != "" :: TrimSpace(r))|
    case None => |names|
  }

  /** The batch is too large, or the container's total with it. */
  predicate OverRecords(o: Options, tr: Trackers) {
    && tr.quota.Some? && o.batchRecordCount > 0
    && (|| o.batchRecordCount > tr.quota.value.maxBatchRecords
        || tr.quota.value.containerRecords + o.batchRecordCount > tr.quota.value.maxContainerRecords)
  }

  predicate FailsForGood(reply: RegistryReply) {
    reply.error.Some? && IsDeterministic(reply.error.value)
  }

  function FreeAnswer(w: World, o: Options, tr: Trackers, f: Facts): RegistryReply {
    match o.registry
    case Some(ask) =>
      ask(EntitlementKey(None, w.nonProdEnv(f.env), f.env, f.project, w.projectName), o.sourceResources, f.time)
    case None => RegistryReply(Seen(tr, o.sourceResources), None)
  }

  /** What a run leaves in the trackers: the batch is counted, the resources are tracked, or not. */
  predicate Leaves(before: Trackers, after: Trackers, o: Options, counted: bool, tracked: bool) {
    && after.quota == (match before.quota
         case Some(q) => Some(if counted && o.batchRecordCount > 0
                              then q.(containerRecords := q.containerRecords + o.batchRecordCount) else q)
         case None => None)
    && after.resources == (match before.resources
         case Some(earlier) => Some(
           if !tracked then earlier
           else earlier + (set r | r in o.sourceResources && TrimSpace(r) != "" :: TrimSpace(r)))
         case None => None)
  }

  lemma ConvertedIsUnrestricted(w: World, o: Options, tr: Trackers, f: Facts)
    requires f.Read(w, o) && w.converted(f.time)
    ensures Decide(w, o, tr) == Outcome(Some(Status(true, ApacheConverted, false, false, None)), None, tr)
  {
    ReadsExactly(w, o, f);
  }

  /** Without a token, a run that has no claim to free use, or looks like production, is refused in
      strict mode and goes on otherwise; either way nothing is counted. */
  lemma ProductionNeedsLicence(w: World, o: Options, tr: Trackers, f: Facts)
    requires f.Read(w, o) && !w.converted(f.time) && f.token == "" && (!f.free || f.prod)
    ensures
      var r, token := Decide(w, o, tr), w.token(o.licenseKey, o.licenseFile);
      && r.trackers == tr && (r.error.Some? <==> f.strict)
      && (if f.free then
            && r.status == Some(Status(!f.strict, if f.strict then UnlicensedProduction else SuspectedProduction,
                                       false, false, None))
            && (f.strict ==> "COMMERCIAL LICENSE" <= r.error.value.msg
                             && r.error.value.wraps == {CommercialLicenseRequired})
          else if f.strict && token.TokenError? then r.status.None? && r.error == Some(token.error)
          else
            && r.status == Some(Status(false, UnlicensedProduction, false, false, None))
            && (f.strict ==> "COMMERCIAL LICENSE" <= r.error.value.msg))
  {
    ReadsExactly(w, o, f);
  }

  /** Free use: in strict mode it ends where the registry fails for good, or where the batch, the
      container's total or more than 10 resources exceed the grant; otherwise it is only marked.
      The batch and its resources are counted in every case. */
  lemma FreeUseSpeaks(w: World, o: Options, tr: Trackers, f: Facts)
    requires f.Read(w, o) && !w.converted(f.time) && f.token == "" && f.free && !f.prod
    ensures
      var r, reply := Decide(w, o, tr), FreeAnswer(w, o, tr, f);
      var lost := f.strict && FailsForGood(reply);
      var over := OverRecords(o, tr) || reply.count > 10;
      && Leaves(tr, r.trackers, o, true, true)
      && (r.error.Some? <==> lost || (f.strict && over))
      && (lost ==> r.error == reply.error)
      && (r.error.Some? && !lost ==> r.error.value.wraps == {ResourceQuotaExceeded})
      && r.status == Some(
           if lost then Status(false, RegistryRefused, false, false, None)
           else if over then Status(!f.strict, FairUseExceeded, true, false, None)
           else Status(true, NonProdFree, false, false, None))
  {
    ReadsExactly(w, o, f);
    FreeTierSpeaks(w, o, tr, f);
  }

  lemma FreeTierSpeaks(w: World, o: Options, tr: Trackers, f: Facts)
    requires f.env == Env(w, o) && f.project == Project(w, o) && f.time == EvalTime(w, o)
    ensures
      var after := TrackAll(Recorded(tr, o.batchRecordCount), o.sourceResources);
      && Leaves(tr, after, o, true, true) && (OverFairUse(o, after) <==> OverRecords(o, tr))
      && FreeAnswer(w, o, tr, f) ==
           if o.registry.Some? then o.registry.value(
             EntitlementKey(None, w.nonProdEnv(Env(w, o)), Env(w, o), Project(w, o), w.projectName),
             o.sourceResources, EvalTime(w, o))
           else RegistryReply(LocalCount(after, o.sourceResources), None)
  {
  }

  // ---------------------------------------------------------------- runs with a token

  /** A token that is refused: strict mode passes the verifier's word on; otherwise a run that could
      be free is. */
  lemma RefusedTokenSpeaks(w: World, o: Options, tr: Trackers, f: Facts)
    requires f.Read(w, o) && !w.converted(f.time) && f.token != "" && w.verify(f.token, f.time, f.crl).Refused?
    ensures
      var r, refused := Decide(w, o, tr), w.verify(f.token, f.time, f.crl);
      && r.trackers == tr && (r.error.Some? <==> f.strict)
      && (f.strict ==> r.error.value.wraps == refused.error.wraps
                       && r.error.value.msg == "commercial license verification failed: " + refused.error.msg)
      && r.status ==
           if !f.strict && f.free && !f.prod then Some(Status(true, NonProdFree, false, false, None))
           else match refused.why
             case Some(why) => Some(Status(false, why.reason, false, false, why.claims))
             case None => None
  {
    ReadsExactly(w, o, f);
    RefusedSpeaks(w, o, tr, f);
  }

  lemma RefusedSpeaks(w: World, o: Options, tr: Trackers, f: Facts)
    requires ResolvedToken(w, o) != "" && w.verify(ResolvedToken(w, o), EvalTime(w, o), Crl(o)).Refused?
    ensures
      var refused := w.verify(ResolvedToken(w, o), EvalTime(w, o), Crl(o));
      Commercial(w, o, tr) ==
        if Strict(w, o) then
          Outcome(RefusalStatus(refused.why),
                  Some(Wrap("commercial license verification failed", refused.error)), tr)
        else if CanFallBack(w, o) then FreeGrant(tr)
        else Outcome(RefusalStatus(refused.why), None, tr)
  {
    assert "commercial " + VERIFICATION_FAILED == "commercial license verification failed";
  }

  function LicensedAnswer(w: World, o: Options, tr: Trackers, f: Facts, c: Claims): RegistryReply {
    if o.registry.Some? && MaxResources(c) > 0 then
      o.registry.value(EntitlementKey(Some(c), w.nonProdEnv(f.env), f.env, f.project, w.projectName),
                       o.sourceResources, f.time)
    else RegistryReply(Seen(tr, o.sourceResources), None)
  }

  /** The first objection to a verified licence, in the order of the checks. */
  function Objection(w: World, o: Options, c: Claims, reply: RegistryReply): Option<Reason> {
    if !CallerOk(w, o, c) then Some(CallerMismatch)
    else if !SourcesOk(w, o, c) then Some(SourceMismatch)
    else if !FeaturesOk(w, o, c) then Some(FeatureMissing)
    else if !ResourcesOk(w, o, c) then Some(ResourceRefused)
    else if !ProjectOk(w, o, c) then Some(ProjectMismatch)
    else if 0 < MaxResources(c) < reply.count then Some(TooManyResources)
    else None
  }

  function WrappedBy(reason: Reason): set<Sentinel> {
    match reason
    case FeatureMissing => {FeatureNotEntitled}
    case ResourceRefused => {ResourceNotAllowed}
    case ProjectMismatch => {ScopeMismatch}
    case TooManyResources => {ResourceQuotaExceeded}
    case _ => {}
  }

  /** A verified licence with an objection to it: strict mode refuses the run; otherwise it goes on
      under that reason, or as a free run where it could be one and the objection is to an account or
      the project. */
  lemma ObjectionSpeaks(w: World, o: Options, tr: Trackers, f: Facts, c: Claims, inGrace: bool)
    requires f.Read(w, o) && !w.converted(f.time) && f.token != ""
    requires w.verify(f.token, f.time, f.crl) == Accepted(c, inGrace)
    requires Objection(w, o, c, LicensedAnswer(w, o, tr, f, c)).Some?
    requires ScopeOk(w, o, c) ==> !(f.strict && FailsForGood(LicensedAnswer(w, o, tr, f, c)))
    ensures
      var r, reason := Decide(w, o, tr), Objection(w, o, c, LicensedAnswer(w, o, tr, f, c)).value;
      var tracked := CallerOk(w, o, c) && SourcesOk(w, o, c) && FeaturesOk(w, o, c) && ResourcesOk(w, o, c);
      var granted := !f.strict && f.free && !f.prod && reason in {CallerMismatch, SourceMismatch, ProjectMismatch};
      && Leaves(tr, r.trackers, o, false, tracked)
      && (r.error.Some? <==> f.strict)
      && (f.strict ==> "COMMERCIAL LICENSE" <= r.error.value.msg && r.error.value.wraps == WrappedBy(reason))
      && r.status == Some(if granted then Status(true, NonProdFree, false, false, None)
                          else Status(false, reason, false, false, Some(c)))
  {
    ReadsExactly(w, o, f);
    VerifiedIsChecked(w, o, tr);
    var reply := LicensedAnswer(w, o, tr, f, c);
    if ScopeOk(w, o, c) {
      ScopedIsInScope(w, o, c, inGrace, tr);
      TooManySpeaks(w, o, tr, f, c, inGrace);
    } else {
      TableSpeaks(w, o, tr, c, inGrace, reply);
    }
  }

  /** The outcome of a run to which this objection is made. */
  predicate SaysWhy(w: World, o: Options, c: Claims, reason: Reason, r: Outcome) {
    var granted := !Strict(w, o) && CanFallBack(w, o) && reason in {CallerMismatch, SourceMismatch, ProjectMismatch};
    && (r.error.Some? <==> Strict(w, o))
    && (Strict(w, o) ==> "COMMERCIAL LICENSE" <= r.error.value.msg && r.error.value.wraps == WrappedBy(reason))
    && r.status == Some(if granted then Status(true, NonProdFree, false, false, None)
                        else Status(false, reason, false, false, Some(c)))
  }

  /** The row of the table that speaks is the one of the objection. */
  lemma ObjectionIsTheRow(w: World, o: Options, c: Claims, reply: RegistryReply)
    requires !ScopeOk(w, o, c)
    ensures
      var checks, objection := ScopeChecks(w, o, c), Objection(w, o, c, reply);
      var k := FirstFailing(checks);
      && k < SCOPE_CHECKS && objection == Some(checks[k].reason) && checks[k].wraps == WrappedBy(checks[k].reason)
      && (checks[k].fallsBack <==> checks[k].reason in {CallerMismatch, SourceMismatch, ProjectMismatch})
      && (k >= 4 <==> CallerOk(w, o, c) && SourcesOk(w, o, c) && FeaturesOk(w, o, c) && ResourcesOk(w, o, c))
  {
    FirstFailingMeans(w, o, c);
    var k := FirstFailing(ScopeChecks(w, o, c));
    assert k == 0 || k == 1 || k == 2 || k == 3 || k == 4;
  }

  lemma TableSpeaks(w: World, o: Options, tr: Trackers, c: Claims, inGrace: bool, reply: RegistryReply)
    requires !ScopeOk(w, o, c)
    ensures
      var r, objection := Checked(w, o, c, inGrace, tr), Objection(w, o, c, reply);
      var tracked := CallerOk(w, o, c) && SourcesOk(w, o, c) && FeaturesOk(w, o, c) && ResourcesOk(w, o, c);
      objection.Some? && SaysWhy(w, o, c, objection.value, r) && Leaves(tr, r.trackers, o, false, tracked)
  {
    ObjectionIsTheRow(w, o, c, reply);
    var checks := ScopeChecks(w, o, c);
    var k := FirstFailing(checks);
    FailedSpeaks(w, o, c, checks[k], if k >= 4 then TrackAll(tr, o.sourceResources) else tr);
  }

  lemma TooManySpeaks(w: World, o: Options, tr: Trackers, f: Facts, c: Claims, inGrace: bool)
    requires f.env == Env(w, o) && f.project == Project(w, o) && f.time == EvalTime(w, o)
    requires
      var reply := LicensedAnswer(w, o, tr, f, c);
      0 < MaxResources(c) < reply.count && !(Strict(w, o) && FailsForGood(reply))
    ensures
      var r := InScope(w, o, c, inGrace, TrackAll(tr, o.sourceResources));
      SaysWhy(w, o, c, TooManyResources, r) && Leaves(tr, r.trackers, o, false, true)
  {
    var after := TrackAll(tr, o.sourceResources);
    assert Counted(w, o, c, after) == LicensedAnswer(w, o, tr, f, c);
    FailedSpeaks(w, o, c, Check(Some(Env(w, o)), TooManyResources, {ResourceQuotaExceeded}, false), after);
  }

  lemma FailedSpeaks(w: World, o: Options, c: Claims, check: Check, tr: Trackers)
    requires check.offender.Some?
    ensures
      var r := Failed(w, o, c, check, tr);
      && r.trackers == tr && (r.error.Some? <==> Strict(w, o))
      && (Strict(w, o) ==> "COMMERCIAL LICENSE" <= r.error.value.msg && r.error.value.wraps == check.wraps)
      && r.status == Some(if !Strict(w, o) && check.fallsBack && CanFallBack(w, o)
                          then Status(true, NonProdFree, false, false, None)
                          else Status(false, check.reason, false, false, Some(c)))
  {
  }

  /** A verified licence without one: only a registry that fails for good ends the run, and the
      throughput mark is set, and a warning given at most once an hour, exactly where the licence
      limits throughput and the tracker finds it exceeded. */
  lemma LicenceSpeaks(w: World, o: Options, tr: Trackers, f: Facts, c: Claims, inGrace: bool)
    requires f.Read(w, o) && !w.converted(f.time) && f.token != ""
    requires w.verify(f.token, f.time, f.crl) == Accepted(c, inGrace)
    requires ScopeOk(w, o, c)
    requires Objection(w, o, c, LicensedAnswer(w, o, tr, f, c)).None? ||
               (f.strict && FailsForGood(LicensedAnswer(w, o, tr, f, c)))
    ensures
      var r, reply := Decide(w, o, tr), LicensedAnswer(w, o, tr, f, c);
      var lost := f.strict && FailsForGood(reply);
      var exceeded := !lost && tr.quota.Some? && ThroughputBreached(tr.quota.value, w.signals, MaxMonthlyGB(c));
      var warned := exceeded && (tr.quota.value.lastWarningTime == 0 ||
                                 Unix(f.time) - tr.quota.value.lastWarningTime >= 3600);
      && r.error == (if lost then reply.error else None)
      && r.status == Some(Status(true, if inGrace then GracePeriod else ValidLicense, false, exceeded, Some(c)))
      && (!warned ==> Leaves(tr, r.trackers, o, false, true))
      && (warned ==> r.trackers.quota.Some? && r.trackers.quota.value.lastWarningTime == Unix(f.time)
                     && Leaves(tr.(quota := r.trackers.quota), r.trackers, o, false, true)
                     && tr.quota == Some(r.trackers.quota.value.(lastWarningTime := tr.quota.value.lastWarningTime)))
  {
    ReadsExactly(w, o, f);
    VerifiedIsChecked(w, o, tr);
    ScopedIsInScope(w, o, c, inGrace, tr);
    var after := TrackAll(tr, o.sourceResources);
    assert Counted(w, o, c, after) == LicensedAnswer(w, o, tr, f, c);
  }

  // ---------------------------------------------------------------- errors

  /** What speaks against a run, be the mode what it may. */
  predicate Objectionable(w: World, o: Options, tr: Trackers, f: Facts) {
    && !w.converted(f.time)
    && if f.token == "" then
         || !f.free || f.prod || OverRecords(o, tr)
         || FailsForGood(FreeAnswer(w, o, tr, f)) || FreeAnswer(w, o, tr, f).count > 10
       else match w.verify(f.token, f.time, f.crl)
         case Refused(_, _) => true
         case Accepted(c, _) =>
           || !CallerOk(w, o, c) || !SourcesOk(w, o, c) || !FeaturesOk(w, o, c) || !ResourcesOk(w, o, c)
           || !ProjectOk(w, o, c)
           || FailsForGood(LicensedAnswer(w, o, tr, f, c))
           || 0 < MaxResources(c) < LicensedAnswer(w, o, tr, f, c).count
  }

  /** Exactly when there is an error. */
  lemma ErrsExactly(w: World, o: Options, tr: Trackers, f: Facts)
    requires f.Read(w, o)
    ensures Decide(w, o, tr).error.Some? <==> f.strict && Objectionable(w, o, tr, f)
  {
    if w.converted(f.time) {
      ConvertedIsUnrestricted(w, o, tr, f);
    } else if f.token == "" {
      if !f.free || f.prod {
        ProductionNeedsLicence(w, o, tr, f);
      } else {
        FreeUseSpeaks(w, o, tr, f);
      }
    } else {
      match w.verify(f.token, f.time, f.crl) {
        case Refused(_, _) => RefusedTokenSpeaks(w, o, tr, f);
        case Accepted(c, inGrace) => LicensedErrsExactly(w, o, tr, f, c, inGrace);
      }
    }
  }

  lemma LicensedErrsExactly(w: World, o: Options, tr: Trackers, f: Facts, c: Claims, inGrace: bool)
    requires f.Read(w, o) && !w.converted(f.time) && f.token != ""
    requires w.verify(f.token, f.time, f.crl) == Accepted(c, inGrace)
    ensures
      var reply := LicensedAnswer(w, o, tr, f, c);
      Decide(w, o, tr).error.Some? <==>
        f.strict && (!ScopeOk(w, o, c) || FailsForGood(reply) || 0 < MaxResources(c) < reply.count)
  {
    var reply := LicensedAnswer(w, o, tr, f, c);
    if Objection(w, o, c, reply).Some? && !(ScopeOk(w, o, c) && f.strict && FailsForGood(reply)) {
      ObjectionSpeaks(w, o, tr, f, c, inGrace);
    } else {
      LicenceSpeaks(w, o, tr, f, c, inGrace);
    }
  }

  /** Where no mode is said, or "auto", a run without a token is refused exactly if it has no claim to
      free use or looks like production: nothing else stops it, and nothing stops a run that could be free. */
  lemma UnsaidModeProtects(w: World, o: Options, tr: Trackers, f: Facts)
    requires f.Read(w, o) && (ModeSays(w, o, "") || ModeSays(w, o, "auto"))
    ensures !w.converted(f.time) && f.token == "" ==> (Decide(w, o, tr).error.Some? <==> !f.free || f.prod)
    ensures f.free && !f.prod ==> Decide(w, o, tr).error.None?
  {
    ErrsExactly(w, o, tr, f);
  }

  /** Where the mode says "warn", or any other word, there is never an error. */
  lemma WarnNeverErrs(w: World, o: Options, tr: Trackers)
    requires !ModeSays(w, o, "") && !ModeSays(w, o, "auto") && !ModeSays(w, o, "strict")
    ensures Decide(w, o, tr).error.None?
  {
    var f := FactsOf(w, o);
    ReadsExactly(w, o, f);
    ErrsExactly(w, o, tr, f);
  }

  /** Where it says "strict", whatever speaks against a run stops it: any name that looks like
      production, any foreign account, and so on. */
  lemma StrictStopsExactly(w: World, o: Options, tr: Trackers, f: Facts)
    requires f.Read(w, o) && ModeSays(w, o, "strict")
    ensures Decide(w, o, tr).error.Some? <==> Objectionable(w, o, tr, f)
  {
    ErrsExactly(w, o, tr, f);
  }
}
