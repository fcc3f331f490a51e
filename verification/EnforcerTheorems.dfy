/** What the licence decision guarantees: over all paths, between two runs, and over sequences of calls. */
module EnforcerTheorems {
  import opened Seqs
  import opened Strings
  import opened Quota
  import opened LicenseModel
  import opened EnforcerModel

  // ---------------------------------------------------------------- all paths

  /** Outside strict mode there is never an error; in strict mode no error means a valid status. */
  lemma ModeContract(w: World, o: Options, tr: Trackers)
    ensures !Strict(w, o) ==> Decide(w, o, tr).error.None?
    ensures Strict(w, o) && Decide(w, o, tr).error.None? ==>
              Decide(w, o, tr).status.Some? && Decide(w, o, tr).status.value.valid
  {
  }

  predicate VerifiedRun(w: World, o: Options) {
    && !w.converted(EvalTime(w, o)) && ResolvedToken(w, o) != ""
    && w.verify(ResolvedToken(w, o), EvalTime(w, o), Crl(o)).Accepted?
  }

  function VerifiedClaims(w: World, o: Options): Claims
    requires VerifiedRun(w, o)
  {
    w.verify(ResolvedToken(w, o), EvalTime(w, o), Crl(o)).claims
  }

  predicate CallerOk(w: World, o: Options, c: Claims) {
    var account := if o.callerAccount == "" then o.contextAccount else o.callerAccount;
    account == "" || w.accountAllowed(c, account)
  }

  predicate SourcesOk(w: World, o: Options, c: Claims) {
    forall a :: a in o.sourceAccounts ==> a == "" || w.accountAllowed(c, a)
  }

  predicate FeaturesOk(w: World, o: Options, c: Claims) {
    w.nonProdEnv(Env(w, o)) ||
    forall f :: f in o.exercisedFeatures ==> TrimSpace(f) == "" || w.hasFeature(c, TrimSpace(f))
  }

  predicate ResourcesOk(w: World, o: Options, c: Claims) {
    forall r :: r in o.sourceResources ==> TrimSpace(r) == "" || w.resourceAllowed(c, TrimSpace(r))
  }

  /** A licence for one project fits no other; its "project" counts before its "project_id". */
  predicate ProjectOk(w: World, o: Options, c: Claims) {
    && (Tagged(c, "project") ==> ToLower(TrimSpace(c.metadata["project"])) == ToLower(Project(w, o)))
    && (!Tagged(c, "project") && Tagged(c, "project_id") ==>
          ToLower(TrimSpace(c.metadata["project_id"])) == ToLower(Project(w, o)))
  }

  predicate Tagged(c: Claims, tag: string) {
    tag in c.metadata && TrimSpace(c.metadata[tag]) != ""
  }

  predicate ScopeOk(w: World, o: Options, c: Claims) {
    CallerOk(w, o, c) && SourcesOk(w, o, c) && FeaturesOk(w, o, c) && ResourcesOk(w, o, c) && ProjectOk(w, o, c)
  }

  /** Which row of the table fails first, in terms of the accounts, features, resources and project themselves. */
  lemma FirstFailingMeans(w: World, o: Options, c: Claims)
    ensures
      var k := FirstFailing(ScopeChecks(w, o, c));
      && (k == 0 <==> !CallerOk(w, o, c))
      && (k == 1 <==> CallerOk(w, o, c) && !SourcesOk(w, o, c))
      && (k == 2 <==> CallerOk(w, o, c) && SourcesOk(w, o, c) && !FeaturesOk(w, o, c))
      && (k == 3 <==> CallerOk(w, o, c) && SourcesOk(w, o, c) && FeaturesOk(w, o, c) && !ResourcesOk(w, o, c))
      && (k == 4 <==>
            && CallerOk(w, o, c) && SourcesOk(w, o, c) && FeaturesOk(w, o, c) && ResourcesOk(w, o, c)
            && !ProjectOk(w, o, c))
      && (k == 5 <==> ScopeOk(w, o, c))
  {
    var checks := ScopeChecks(w, o, c);
    var k := FirstFailing(checks);
    assert checks[0].offender.None? <==> CallerOk(w, o, c) by {
      assert [CallerAccount(o)][0] == CallerAccount(o);
    }
    assert checks[1].offender.None? <==> SourcesOk(w, o, c);
    assert checks[2].offender.None? <==> FeaturesOk(w, o, c);
    assert checks[3].offender.None? <==> ResourcesOk(w, o, c);
    assert checks[4].offender.None? <==> ProjectOk(w, o, c);
  }

  /** In either mode the reason reported for a verified licence is that of the first check that fails,
      in the order caller account, source accounts, features, resources, project, registry, resource
      count.  Strict mode refuses the run for it; outside strict mode there is no error, and where the
      free grant can step in it replaces the two account reasons and the project's. */
  lemma FirstFailureSpeaks(w: World, o: Options, tr: Trackers)
    requires VerifiedRun(w, o)
    ensures
      var c, r := VerifiedClaims(w, o), Decide(w, o, tr);
      var reply := Counted(w, o, c, TrackAll(tr, o.sourceResources));
      var registryStops := Strict(w, o) && reply.error.Some? && IsDeterministic(reply.error.value);
      var tooMany := MaxResources(c) > 0 && reply.count > MaxResources(c);
      var granted := !Strict(w, o) && CanFallBack(w, o);
      && r.status.Some?
      && var reason := r.status.value.reason;
      && (reason == CallerMismatch <==> !CallerOk(w, o, c) && !granted)
      && (reason == SourceMismatch <==> CallerOk(w, o, c) && !SourcesOk(w, o, c) && !granted)
      && (reason == FeatureMissing <==> CallerOk(w, o, c) && SourcesOk(w, o, c) && !FeaturesOk(w, o, c))
      && (reason == ResourceRefused <==>
            CallerOk(w, o, c) && SourcesOk(w, o, c) && FeaturesOk(w, o, c) && !ResourcesOk(w, o, c))
      && (reason == ProjectMismatch <==>
            && CallerOk(w, o, c) && SourcesOk(w, o, c) && FeaturesOk(w, o, c) && ResourcesOk(w, o, c)
            && !ProjectOk(w, o, c) && !granted)
      && (reason == TooManyResources <==> ScopeOk(w, o, c) && !registryStops && tooMany)
      && (reason in {ValidLicense, GracePeriod} <==> ScopeOk(w, o, c) && (registryStops || !tooMany))
      && (ScopeOk(w, o, c) && registryStops ==> r.error == reply.error)
      && (r.error.Some? <==> Strict(w, o) && (!ScopeOk(w, o, c) || registryStops || tooMany))
  {
    var v := w.verify(ResolvedToken(w, o), EvalTime(w, o), Crl(o));
    VerifiedIsChecked(w, o, tr);
    if ScopeOk(w, o, v.claims) {
      ScopedIsInScope(w, o, v.claims, v.inGrace, tr);
      QuotaSpeaks(w, o, v.claims, v.inGrace, TrackAll(tr, o.sourceResources));
    } else {
      ScopeSpeaks(w, o, v.claims, v.inGrace, tr);
    }
  }

  /** The reason for which the table refuses a licence. */
  function ScopeReason(w: World, o: Options, c: Claims): Reason {
    if !CallerOk(w, o, c) then CallerMismatch
    else if !SourcesOk(w, o, c) then SourceMismatch
    else if !FeaturesOk(w, o, c) then FeatureMissing
    else if !ResourcesOk(w, o, c) then ResourceRefused
    else ProjectMismatch
  }

  lemma ScopeSpeaks(w: World, o: Options, c: Claims, inGrace: bool, tr: Trackers)
    requires !ScopeOk(w, o, c)
    ensures
      var r, reason := Checked(w, o, c, inGrace, tr), ScopeReason(w, o, c);
      var granted := !Strict(w, o) && CanFallBack(w, o) && reason !in {FeatureMissing, ResourceRefused};
      && r.status.Some? && (r.error.Some? <==> Strict(w, o))
      && r.status.value.reason == if granted then NonProdFree else reason
  {
    FirstFailingMeans(w, o, c);
    var checks := ScopeChecks(w, o, c);
    var k := FirstFailing(checks);
    assert checks[k].reason == ScopeReason(w, o, c);
  }

  lemma QuotaSpeaks(w: World, o: Options, c: Claims, inGrace: bool, tr: Trackers)
    ensures
      var r, reply := InScope(w, o, c, inGrace, tr), Counted(w, o, c, tr);
      var registryStops := Strict(w, o) && reply.error.Some? && IsDeterministic(reply.error.value);
      var tooMany := MaxResources(c) > 0 && reply.count > MaxResources(c);
      && r.status.Some?
      && (if registryStops || !tooMany then r.status.value.reason in {ValidLicense, GracePeriod}
          else r.status.value.reason == TooManyResources)
      && (registryStops ==> r.error == reply.error)
      && (r.error.Some? <==> Strict(w, o) && (registryStops || tooMany))
  {
  }

  /** What the registry says to a verified run, if it is asked. */
  function RegistrysAnswer(w: World, o: Options, tr: Trackers): RegistryReply
    requires VerifiedRun(w, o)
  {
    Counted(w, o, VerifiedClaims(w, o), TrackAll(tr, o.sourceResources))
  }

  /** An error comes with a valid status exactly in strict mode, for a verified licence whose scope
      fits and a registry that fails for good. */
  lemma ValidErrorIsTheRegistrys(w: World, o: Options, tr: Trackers)
    ensures
      (Decide(w, o, tr).error.Some? && Decide(w, o, tr).status.Some? && Decide(w, o, tr).status.value.valid) <==>
        && Strict(w, o) && VerifiedRun(w, o) && ScopeOk(w, o, VerifiedClaims(w, o))
        && RegistrysAnswer(w, o, tr).error.Some? && IsDeterministic(RegistrysAnswer(w, o, tr).error.value)
  {
    if VerifiedRun(w, o) {
      FirstFailingMeans(w, o, VerifiedClaims(w, o));
      VerifiedIsChecked(w, o, tr);
    }
  }

  /** Free use is never reported for a run with a production indicator or without eligibility. */
  lemma FreeMeansNoIndicator(w: World, o: Options, tr: Trackers)
    requires Decide(w, o, tr).status.Some? && Decide(w, o, tr).status.value.reason == NonProdFree
    ensures FreeEligible(w, o) && !HasProd(w, o)
  {
    if w.converted(EvalTime(w, o)) {
    } else if FreeEligible(w, o) && ResolvedToken(w, o) == "" {
    } else {
      CommercialFreeFellBack(w, o, tr);
    }
  }

  lemma CommercialFreeFellBack(w: World, o: Options, tr: Trackers)
    ensures Commercial(w, o, tr).status.Some? && Commercial(w, o, tr).status.value.reason == NonProdFree ==>
              CanFallBack(w, o)
  {
    var v := w.verify(ResolvedToken(w, o), EvalTime(w, o), Crl(o));
    if ResolvedToken(w, o) != "" && v.Accepted? {
      VerifiedIsChecked(w, o, tr);
      FreeMeansFellBack(w, o, v.claims, v.inGrace, tr);
    } else if ResolvedToken(w, o) != "" && v.why.Some? {
      assert v.why.value.reason != NonProdFree;
    }
  }

  lemma FreeMeansFellBack(w: World, o: Options, c: Claims, inGrace: bool, tr: Trackers)
    ensures Checked(w, o, c, inGrace, tr).status.Some?
    ensures Checked(w, o, c, inGrace, tr).status.value.reason == NonProdFree ==> CanFallBack(w, o)
  {
    var checks := ScopeChecks(w, o, c);
    var k := FirstFailing(checks);
    assert k < SCOPE_CHECKS ==> checks[k].reason != NonProdFree;
  }

  /** With a token, outside strict mode, the free grant steps in for a failed verification, a
      foreign account or a foreign project, and for nothing else. */
  lemma FallbackExactly(w: World, o: Options, tr: Trackers)
    requires !w.converted(EvalTime(w, o)) && ResolvedToken(w, o) != "" && !Strict(w, o)
    ensures
      (Decide(w, o, tr).status.Some? && Decide(w, o, tr).status.value.reason == NonProdFree) <==>
        && CanFallBack(w, o)
        && (VerifiedRun(w, o) ==>
              var c := VerifiedClaims(w, o);
              || !CallerOk(w, o, c) || !SourcesOk(w, o, c)
              || (FeaturesOk(w, o, c) && ResourcesOk(w, o, c) && !ProjectOk(w, o, c)))
  {
    if VerifiedRun(w, o) {
      VerifiedIsChecked(w, o, tr);
      CheckedFallback(w, o, VerifiedClaims(w, o), w.verify(ResolvedToken(w, o), EvalTime(w, o), Crl(o)).inGrace, tr);
    } else {
      RefusedFallback(w, o, tr);
    }
  }

  lemma RefusedFallback(w: World, o: Options, tr: Trackers)
    requires ResolvedToken(w, o) != "" && !Strict(w, o)
    requires w.verify(ResolvedToken(w, o), EvalTime(w, o), Crl(o)).Refused?
    ensures (Commercial(w, o, tr).status.Some? && Commercial(w, o, tr).status.value.reason == NonProdFree) <==>
              CanFallBack(w, o)
  {
  }

  lemma CheckedFallback(w: World, o: Options, c: Claims, inGrace: bool, tr: Trackers)
    requires !Strict(w, o)
    ensures Checked(w, o, c, inGrace, tr).status.Some?
    ensures
      Checked(w, o, c, inGrace, tr).status.value.reason == NonProdFree <==>
        && CanFallBack(w, o)
        && (|| !CallerOk(w, o, c) || !SourcesOk(w, o, c)
            || (FeaturesOk(w, o, c) && ResourcesOk(w, o, c) && !ProjectOk(w, o, c)))
  {
    FirstFailingMeans(w, o, c);
    var checks := ScopeChecks(w, o, c);
    var k := FirstFailing(checks);
    if k < SCOPE_CHECKS {
      assert checks[k].reason != NonProdFree && (checks[k].fallsBack <==> k in {0, 1, 4});
      FailedFallback(w, o, c, checks[k], if k >= 4 then TrackAll(tr, o.sourceResources) else tr);
    } else {
      InScopeIsNotFree(w, o, c, inGrace, TrackAll(tr, o.sourceResources));
    }
  }

  lemma FailedFallback(w: World, o: Options, c: Claims, check: Check, tr: Trackers)
    requires check.offender.Some? && check.reason != NonProdFree
    ensures Failed(w, o, c, check, tr).status.Some?
    ensures Failed(w, o, c, check, tr).status.value.reason == NonProdFree <==>
              !Strict(w, o) && check.fallsBack && CanFallBack(w, o)
  {
  }

  lemma InScopeIsNotFree(w: World, o: Options, c: Claims, inGrace: bool, tr: Trackers)
    ensures InScope(w, o, c, inGrace, tr).status.Some? &&
              InScope(w, o, c, inGrace, tr).status.value.reason != NonProdFree
  {
  }

  /** Strict mode, no claim to free use, and a token not resolved for a reason that may pass. */
  predicate TokenMayStillCome(w: World, o: Options) {
    var token := w.token(o.licenseKey, o.licenseFile);
    && !w.converted(EvalTime(w, o)) && !FreeEligible(w, o) && Strict(w, o)
    && token.TokenError? && !IsDeterministic(token.error)
  }

  /** Every error is one a retry cannot cure, but for exactly that case. */
  lemma ErrorsAreDeterministic(w: World, o: Options, tr: Trackers)
    ensures (Decide(w, o, tr).error.Some? && !IsDeterministic(Decide(w, o, tr).error.value)) <==>
              TokenMayStillCome(w, o)
    ensures TokenMayStillCome(w, o) ==> w.token(o.licenseKey, o.licenseFile) == TokenError(Decide(w, o, tr).error.value)
  {
    if w.converted(EvalTime(w, o)) {
    } else if FreeEligible(w, o) && ResolvedToken(w, o) == "" {
      FreeErrors(w, o, tr);
    } else {
      CommercialErrors(w, o, tr);
    }
  }

  lemma FreeErrors(w: World, o: Options, tr: Trackers)
    ensures Suspected(w, o, tr).error.Some? ==> IsDeterministic(Suspected(w, o, tr).error.value)
    ensures FreeTier(w, o, tr).error.Some? ==> IsDeterministic(FreeTier(w, o, tr).error.value)
  {
    if Suspected(w, o, tr).error.Some? {
      SentinelIsEnough(Suspected(w, o, tr).error.value, CommercialLicenseRequired);
    }
    var free := FreeTier(w, o, tr).error;
    if free.Some? && ResourceQuotaExceeded in free.value.wraps {
      SentinelIsEnough(free.value, ResourceQuotaExceeded);
    }
  }

  lemma CommercialErrors(w: World, o: Options, tr: Trackers)
    ensures
      var token := w.token(o.licenseKey, o.licenseFile);
      (Commercial(w, o, tr).error.Some? && !IsDeterministic(Commercial(w, o, tr).error.value)) <==>
        Strict(w, o) && token.TokenError? && !IsDeterministic(token.error)
  {
    if ResolvedToken(w, o) == "" {
      CommercialMessage(w.detail(UnlicensedProduction, Env(w, o)), {});
    } else {
      var v := w.verify(ResolvedToken(w, o), EvalTime(w, o), Crl(o));
      if v.Accepted? {
        VerifiedIsChecked(w, o, tr);
        if Checked(w, o, v.claims, v.inGrace, tr).error.Some? {
          CheckedErrors(w, o, v.claims, v.inGrace, tr);
        }
      } else {
        VerificationMessage(v.error);
      }
    }
  }

  lemma CheckedErrors(w: World, o: Options, c: Claims, inGrace: bool, tr: Trackers)
    requires Checked(w, o, c, inGrace, tr).error.Some?
    ensures IsDeterministic(Checked(w, o, c, inGrace, tr).error.value)
  {
    var checks := ScopeChecks(w, o, c);
    var k := FirstFailing(checks);
    if k < SCOPE_CHECKS {
      CommercialMessage(w.detail(checks[k].reason, checks[k].offender.value), checks[k].wraps);
    } else {
      CommercialMessage(w.detail(TooManyResources, Env(w, o)), {ResourceQuotaExceeded});
    }
  }

  /** Enforce returns neither a status nor an error exactly for a token whose verifier could not
      even build a status, outside strict mode and without a claim to the free grant. */
  lemma NothingAtAllExactly(w: World, o: Options, tr: Trackers)
    ensures
      (Decide(w, o, tr).status.None? && Decide(w, o, tr).error.None?) <==>
        && !w.converted(EvalTime(w, o)) && ResolvedToken(w, o) != "" && !Strict(w, o) && !CanFallBack(w, o)
        && w.verify(ResolvedToken(w, o), EvalTime(w, o), Crl(o)).Refused?
        && w.verify(ResolvedToken(w, o), EvalTime(w, o), Crl(o)).why.None?
  {
    if VerifiedRun(w, o) {
      FirstFailingMeans(w, o, VerifiedClaims(w, o));
    }
  }

  // ---------------------------------------------------------------- two runs

  /** What the logs add can turn warn into strict, never strict into anything else. */
  lemma ModeOnlyTightens(w: World, o: Options)
    ensures Strict(w, Preflight(o)) ==> Strict(w, o)
    ensures HasProd(w, Preflight(o)) ==> HasProd(w, o)
  {
  }

  /** The preflight runs with a tracker that already holds too many resources, and nothing else
      speaks against the run.  It can be read off the preflight's own options. */
  predicate TrackerOverflows(w: World, p: Options, before: Trackers) {
    && !w.converted(EvalTime(w, p)) && Strict(w, p) && before.resources.Some?
    && (|| (&& FreeEligible(w, p) && ResolvedToken(w, p) == "" && !HasProd(w, p)
            && |before.resources.value| > MAX_NON_PROD_RESOURCES)
        || (&& VerifiedRun(w, p) && ScopeOk(w, p, VerifiedClaims(w, p))
            && 0 < MaxResources(VerifiedClaims(w, p)) < |before.resources.value|))
  }

  /** What is wrong with a run whatever its logs are. */
  predicate BaselineFails(w: World, o: Options) {
    && !w.converted(EvalTime(w, o)) && Strict(w, o)
    && if FreeEligible(w, o) && ResolvedToken(w, o) == "" then HasProd(w, o)
       else !VerifiedRun(w, o) || !CallerOk(w, o, VerifiedClaims(w, o)) || !ProjectOk(w, o, VerifiedClaims(w, o))
  }

  lemma BaselineCarries(w: World, o: Options)
    requires BaselineFails(w, Preflight(o))
    ensures BaselineFails(w, o)
  {
    ModeOnlyTightens(w, o);
    var p := Preflight(o);
    assert EvalTime(w, p) == EvalTime(w, o) && Project(w, p) == Project(w, o);
    assert FreeEligible(w, p) == FreeEligible(w, o) && ResolvedToken(w, p) == ResolvedToken(w, o);
  }

  lemma BaselineErrs(w: World, o: Options, tr: Trackers)
    requires BaselineFails(w, o)
    ensures Decide(w, o, tr).error.Some?
  {
    if VerifiedRun(w, o) {
      VerifiedIsChecked(w, o, tr);
      FirstFailingMeans(w, o, VerifiedClaims(w, o));
    } else if !(FreeEligible(w, o) && ResolvedToken(w, o) == "") {
      UnverifiedNeedsStrict(w, o, tr);
    }
  }

  /** When the preflight refuses a run. */
  lemma PreflightErrsExactly(w: World, o: Options, before: Trackers)
    ensures Decide(w, Preflight(o), before).error.Some? <==>
              BaselineFails(w, Preflight(o)) || TrackerOverflows(w, Preflight(o), before)
  {
    var p := Preflight(o);
    if w.converted(EvalTime(w, p)) {
    } else if FreeEligible(w, p) && ResolvedToken(w, p) == "" {
      FreePreflight(w, o, before);
    } else if VerifiedRun(w, p) {
      VerifiedPreflight(w, o, before);
    } else {
      UnverifiedNeedsStrict(w, p, before);
    }
  }

  lemma VerifiedPreflight(w: World, o: Options, before: Trackers)
    requires VerifiedRun(w, Preflight(o))
    ensures Commercial(w, Preflight(o), before).error.Some? <==>
              BaselineFails(w, Preflight(o)) || TrackerOverflows(w, Preflight(o), before)
  {
    var p := Preflight(o);
    var v := w.verify(ResolvedToken(w, p), EvalTime(w, p), Crl(p));
    VerifiedIsChecked(w, p, before);
    CheckedPreflight(w, o, v.claims, v.inGrace, before);
  }

  /** Preflight refuses nothing that the full check would let through: whatever the logs, the
      trackers and the registry turn out to say, an error before the download is an error after,
      unless a tracker overflows. */
  lemma PreflightIsSound(w: World, o: Options, before: Trackers, tr: Trackers)
    requires Decide(w, Preflight(o), before).error.Some? && !TrackerOverflows(w, Preflight(o), before)
    ensures Decide(w, o, tr).error.Some?
  {
    PreflightErrsExactly(w, o, before);
    BaselineCarries(w, o);
    BaselineErrs(w, o, tr);
  }

  /** The same preflight as o has, with any logs and any registry. */
  ghost predicate Extends(extended: Options, o: Options) {
    Preflight(extended) == Preflight(o)
  }

  /** If it does overflow, the preflight refuses a run of which some extension would pass. */
  lemma OverflowRefusesTooMuch(w: World, o: Options, before: Trackers, tr: Trackers) returns (extended: Options)
    requires TrackerOverflows(w, Preflight(o), before)
    ensures Decide(w, Preflight(o), before).error.Some?
    ensures Extends(extended, o) && Decide(w, extended, tr).error.None?
  {
    PreflightErrsExactly(w, o, before);
    var p := Preflight(o);
    extended := p.(registry := Some((key, names, time) => RegistryReply(0, None)));
    assert EvalTime(w, extended) == EvalTime(w, p);
    assert FreeEligible(w, extended) == FreeEligible(w, p) && HasProd(w, extended) == HasProd(w, p);
    if FreeEligible(w, p) && ResolvedToken(w, p) == "" {
      EmptyRegistryIsFree(w, extended, tr);
    } else {
      EmptyRegistryPasses(w, p, extended, tr);
    }
  }

  lemma EmptyRegistryIsFree(w: World, o: Options, tr: Trackers)
    requires o.registry.Some? && (forall k, names, t :: o.registry.value(k, names, t) == RegistryReply(0, None))
    requires o.batchRecordCount <= 0
    ensures FreeTier(w, o, tr).error.None?
  {
  }

  lemma EmptyRegistryPasses(w: World, p: Options, o: Options, tr: Trackers)
    requires o == p.(registry := o.registry) && VerifiedRun(w, p) && ScopeOk(w, p, VerifiedClaims(w, p))
    requires 0 < MaxResources(VerifiedClaims(w, p))
    requires o.registry.Some? && (forall k, names, t :: o.registry.value(k, names, t) == RegistryReply(0, None))
    ensures Decide(w, o, tr).error.None?
  {
    var v := w.verify(ResolvedToken(w, p), EvalTime(w, p), Crl(p));
    RegistryIsNoScope(w, p, o, v.claims);
    VerifiedIsChecked(w, o, tr);
    ScopedIsInScope(w, o, v.claims, v.inGrace, tr);
    EmptyRegistryInScope(w, o, v.claims, v.inGrace, TrackAll(tr, o.sourceResources));
  }

  lemma RegistryIsNoScope(w: World, p: Options, o: Options, c: Claims)
    requires o == p.(registry := o.registry)
    ensures EvalTime(w, o) == EvalTime(w, p) && ResolvedToken(w, o) == ResolvedToken(w, p) && Crl(o) == Crl(p)
    ensures ScopeOk(w, o, c) == ScopeOk(w, p, c)
  {
    assert Project(w, o) == Project(w, p) && Env(w, o) == Env(w, p);
  }

  lemma ScopedIsInScope(w: World, o: Options, c: Claims, inGrace: bool, tr: Trackers)
    requires ScopeOk(w, o, c)
    ensures Checked(w, o, c, inGrace, tr) == InScope(w, o, c, inGrace, TrackAll(tr, o.sourceResources))
  {
    FirstFailingMeans(w, o, c);
  }

  lemma EmptyRegistryInScope(w: World, o: Options, c: Claims, inGrace: bool, tr: Trackers)
    requires o.registry.Some? && (forall k, names, t :: o.registry.value(k, names, t) == RegistryReply(0, None))
    requires 0 < MaxResources(c)
    ensures InScope(w, o, c, inGrace, tr).error.None?
  {
  }

  /** A preflight error holds for every extension of the run exactly if no tracker overflows. */
  lemma PreflightIsSoundExactly(w: World, o: Options, before: Trackers)
    requires Decide(w, Preflight(o), before).error.Some?
    ensures (forall extended, tr :: Extends(extended, o) ==> Decide(w, extended, tr).error.Some?) <==>
              !TrackerOverflows(w, Preflight(o), before)
  {
    if TrackerOverflows(w, Preflight(o), before) {
      var extended := OverflowRefusesTooMuch(w, o, before, Trackers(None, None));
      assert Extends(extended, o) && Decide(w, extended, Trackers(None, None)).error.None?;
    } else {
      forall extended, tr | Extends(extended, o)
        ensures Decide(w, extended, tr).error.Some?
      {
        PreflightIsSound(w, extended, before, tr);
      }
    }
  }

  lemma VerifiedIsChecked(w: World, o: Options, tr: Trackers)
    requires ResolvedToken(w, o) != "" && w.verify(ResolvedToken(w, o), EvalTime(w, o), Crl(o)).Accepted?
    ensures
      var v := w.verify(ResolvedToken(w, o), EvalTime(w, o), Crl(o));
      Commercial(w, o, tr) == Checked(w, o, v.claims, v.inGrace, tr)
  {
  }

  /** Without a verified licence there is an error exactly in strict mode. */
  lemma UnverifiedNeedsStrict(w: World, o: Options, tr: Trackers)
    requires ResolvedToken(w, o) == "" || w.verify(ResolvedToken(w, o), EvalTime(w, o), Crl(o)).Refused?
    ensures Commercial(w, o, tr).error.Some? <==> Strict(w, o)
  {
  }

  /** Without logs and registry only the tracker can exceed the free tier. */
  lemma FreePreflight(w: World, o: Options, before: Trackers)
    ensures FreeTier(w, Preflight(o), before).error.Some? <==>
              Strict(w, Preflight(o)) && before.resources.Some? && |before.resources.value| > MAX_NON_PROD_RESOURCES
  {
    TrackingNothing(before);
  }

  lemma CheckedPreflight(w: World, o: Options, c: Claims, inGrace: bool, before: Trackers)
    ensures
      var p := Preflight(o);
      Checked(w, p, c, inGrace, before).error.Some? <==>
        && Strict(w, p)
        && (|| !CallerOk(w, p, c) || !ProjectOk(w, p, c)
            || (before.resources.Some? && 0 < MaxResources(c) < |before.resources.value|))
  {
    var p := Preflight(o);
    FirstFailingMeans(w, p, c);
    if ScopeOk(w, p, c) {
      TrackingNothing(before);
      InScopePreflight(w, o, c, inGrace, before);
    }
  }

  lemma TrackingNothing(tr: Trackers)
    ensures TrackAll(tr, []) == tr
  {
    if tr.resources.Some? {
      assert tr.resources.value + Tracked([]) == tr.resources.value;
    }
  }

  lemma InScopePreflight(w: World, o: Options, c: Claims, inGrace: bool, before: Trackers)
    ensures InScope(w, Preflight(o), c, inGrace, before).error.Some? <==>
              Strict(w, Preflight(o)) && before.resources.Some? && 0 < MaxResources(c) < |before.resources.value|
  {
  }

  /** What a preflight without trackers reads of the world: two worlds, at two moments, that agree
      on this much refuse alike. */
  predicate ReadAlike(w1: World, w2: World, o: Options) {
    && w1.converted(EvalTime(w1, o)) == w2.converted(EvalTime(w2, o))
    && FreeEligible(w1, o) == FreeEligible(w2, o) && HasProd(w1, o) == HasProd(w2, o) && Strict(w1, o) == Strict(w2, o)
    && Project(w1, o) == Project(w2, o)
    && w1.token(o.licenseKey, o.licenseFile) == w2.token(o.licenseKey, o.licenseFile)
    && (ResolvedToken(w1, o) != "" ==>
          w1.verify(ResolvedToken(w1, o), EvalTime(w1, o), Crl(o)) ==
              w2.verify(ResolvedToken(w2, o), EvalTime(w2, o), Crl(o)))
    && (VerifiedRun(w1, o) && VerifiedRun(w2, o) ==>
          CallerOk(w1, o, VerifiedClaims(w1, o)) == CallerOk(w2, o, VerifiedClaims(w2, o)))
  }

  lemma PreflightReadsNoMore(w1: World, w2: World, o: Options)
    requires ReadAlike(w1, w2, Preflight(o))
    ensures Decide(w1, Preflight(o), Trackers(None, None)).error.Some? <==>
              Decide(w2, Preflight(o), Trackers(None, None)).error.Some?
  {
    PreflightErrsExactly(w1, o, Trackers(None, None));
    PreflightErrsExactly(w2, o, Trackers(None, None));
  }

  /** Runs whose throughput accounts differ and nothing else does. */
  predicate AlikeButThroughput(a: Trackers, b: Trackers) {
    && a.resources == b.resources
    && (a.quota.Some? <==> b.quota.Some?)
    && (a.quota.Some? ==>
          && a.quota.value.containerRecords == b.quota.value.containerRecords
          && a.quota.value.maxBatchRecords == b.quota.value.maxBatchRecords
          && a.quota.value.maxContainerRecords == b.quota.value.maxContainerRecords)
  }

  function WithoutThroughput(s: Option<Status>): Option<Status> {
    if s.Some? then Some(s.value.(throughputExceeded := false)) else s
  }

  predicate OutcomesAlike(a: Outcome, b: Outcome) {
    && a.error == b.error
    && WithoutThroughput(a.status) == WithoutThroughput(b.status)
    && AlikeButThroughput(a.trackers, b.trackers)
  }

  /** Throughput never blocks: byte counters, overage flags and signals change neither the error
      nor the status, but for its throughput mark, nor the record and resource accounts. */
  lemma ThroughputNeverBlocks(w: World, signals: Signals, o: Options, tr1: Trackers, tr2: Trackers)
    requires AlikeButThroughput(tr1, tr2)
    ensures OutcomesAlike(Decide(w, o, tr1), Decide(w.(signals := signals), o, tr2))
  {
    var w2 := w.(signals := signals);
    SameReading(w, signals, o);
    if w.converted(EvalTime(w, o)) {
    } else if FreeEligible(w, o) && ResolvedToken(w, o) == "" {
      FreeTierAlike(w, signals, o, tr1, tr2);
      assert OutcomesAlike(Suspected(w, o, tr1), Suspected(w2, o, tr2));
    } else {
      CommercialAlike(w, signals, o, tr1, tr2);
    }
  }

  /** Nothing read before the throughput check depends on the signals. */
  lemma SameReading(w: World, signals: Signals, o: Options)
    ensures
      var w2 := w.(signals := signals);
      && EvalTime(w2, o) == EvalTime(w, o) && Env(w2, o) == Env(w, o) && Project(w2, o) == Project(w, o)
      && HasProd(w2, o) == HasProd(w, o) && FreeEligible(w2, o) == FreeEligible(w, o)
      && Mode(w2, o) == Mode(w, o) && ResolvedToken(w2, o) == ResolvedToken(w, o)
  {
  }

  lemma FreeTierAlike(w: World, signals: Signals, o: Options, tr1: Trackers, tr2: Trackers)
    requires AlikeButThroughput(tr1, tr2)
    ensures OutcomesAlike(FreeTier(w, o, tr1), FreeTier(w.(signals := signals), o, tr2))
  {
    SameReading(w, signals, o);
    TrackedAlike(o, tr1, tr2);
  }

  lemma TrackedAlike(o: Options, tr1: Trackers, tr2: Trackers)
    requires AlikeButThroughput(tr1, tr2)
    ensures
      var after1 := TrackAll(Recorded(tr1, o.batchRecordCount), o.sourceResources);
      var after2 := TrackAll(Recorded(tr2, o.batchRecordCount), o.sourceResources);
      AlikeButThroughput(after1, after2) && OverFairUse(o, after1) == OverFairUse(o, after2)
  {
  }

  lemma CommercialAlike(w: World, signals: Signals, o: Options, tr1: Trackers, tr2: Trackers)
    requires AlikeButThroughput(tr1, tr2)
    ensures OutcomesAlike(Commercial(w, o, tr1), Commercial(w.(signals := signals), o, tr2))
  {
    SameReading(w, signals, o);
    match w.verify(ResolvedToken(w, o), EvalTime(w, o), Crl(o)) {
      case Refused(_, _) =>
      case Accepted(c, inGrace) => CheckedAlike(w, signals, o, c, inGrace, tr1, tr2);
    }
  }

  lemma CheckedAlike(w: World, signals: Signals, o: Options, c: Claims, inGrace: bool, tr1: Trackers, tr2: Trackers)
    requires AlikeButThroughput(tr1, tr2)
    ensures OutcomesAlike(Checked(w, o, c, inGrace, tr1), Checked(w.(signals := signals), o, c, inGrace, tr2))
  {
    SameReading(w, signals, o);
    SameChecks(w, signals, o, c);
    var k := FirstFailing(ScopeChecks(w, o, c));
    if k < SCOPE_CHECKS {
      var check := ScopeChecks(w, o, c)[k];
      FailedAlike(w, signals, o, c, check, tr1, tr2);
      FailedAlike(w, signals, o, c, check, TrackAll(tr1, o.sourceResources), TrackAll(tr2, o.sourceResources));
    } else {
      InScopeAlike(w, signals, o, c, inGrace, TrackAll(tr1, o.sourceResources), TrackAll(tr2, o.sourceResources));
    }
  }

  lemma FailedAlike(w: World, signals: Signals, o: Options, c: Claims, check: Check, tr1: Trackers, tr2: Trackers)
    requires check.offender.Some? && AlikeButThroughput(tr1, tr2)
    ensures OutcomesAlike(Failed(w, o, c, check, tr1), Failed(w.(signals := signals), o, c, check, tr2))
  {
    SameReading(w, signals, o);
  }

  lemma InScopeAlike(w: World, signals: Signals, o: Options, c: Claims, inGrace: bool, tr1: Trackers, tr2: Trackers)
    requires AlikeButThroughput(tr1, tr2)
    ensures OutcomesAlike(InScope(w, o, c, inGrace, tr1), InScope(w.(signals := signals), o, c, inGrace, tr2))
  {
    SameReading(w, signals, o);
    CountedAlike(w, signals, o, c, tr1, tr2);
    var reply := Counted(w, o, c, tr1);
    if reply.error.Some? && Strict(w, o) && IsDeterministic(reply.error.value) {
    } else if MaxResources(c) > 0 && reply.count > MaxResources(c) {
      FailedAlike(w, signals, o, c, Check(Some(Env(w, o)), TooManyResources, {ResourceQuotaExceeded}, false), tr1, tr2);
    } else {
      LicensedAlike(w, signals, o, c, inGrace, tr1, tr2);
    }
  }

  lemma CountedAlike(w: World, signals: Signals, o: Options, c: Claims, tr1: Trackers, tr2: Trackers)
    requires AlikeButThroughput(tr1, tr2)
    ensures Counted(w, o, c, tr1) == Counted(w.(signals := signals), o, c, tr2)
  {
    SameReading(w, signals, o);
  }

  lemma LicensedAlike(w: World, signals: Signals, o: Options, c: Claims, inGrace: bool, tr1: Trackers, tr2: Trackers)
    requires AlikeButThroughput(tr1, tr2)
    ensures OutcomesAlike(Licensed(w, o, c, inGrace, tr1), Licensed(w.(signals := signals), o, c, inGrace, tr2))
  {
  }

  lemma SameChecks(w: World, signals: Signals, o: Options, c: Claims)
    ensures ScopeChecks(w.(signals := signals), o, c) == ScopeChecks(w, o, c)
  {
    var w2 := w.(signals := signals);
    SameFirstBad([CallerAccount(o)], a => BadAccount(w, c, a), a => BadAccount(w2, c, a));
    SameFirstBad(o.sourceAccounts, a => BadAccount(w, c, a), a => BadAccount(w2, c, a));
    SameFirstBad(o.exercisedFeatures, f => BadFeature(w, o, c, f), f => BadFeature(w2, o, c, f));
    SameFirstBad(o.sourceResources, r => BadResource(w, c, r), r => BadResource(w2, c, r));
  }

  lemma {:induction false} SameFirstBad(names: seq<string>, bad1: string -> bool, bad2: string -> bool)
    requires forall x :: bad1(x) == bad2(x)
    ensures FirstBad(names, bad1) == FirstBad(names, bad2)
  {
    if names != [] {
      SameFirstBad(names[1..], bad1, bad2);
    }
  }

  // ---------------------------------------------------------------- sequences of calls

  datatype Call = Call(world: World, options: Options)

  /** A batch let through free of charge in strict mode. */
  predicate AcceptedFree(call: Call, tr: Trackers) {
    && !call.world.converted(EvalTime(call.world, call.options))
    && FreeEligible(call.world, call.options) && ResolvedToken(call.world, call.options) == ""
    && Strict(call.world, call.options)
    && Decide(call.world, call.options, tr).error.None?
  }

  function BatchSize(call: Call): nat {
    if call.options.batchRecordCount > 0 then call.options.batchRecordCount else 0
  }

  /** Records let through free of charge over a sequence of calls sharing the trackers. */
  function AcceptedTotal(calls: seq<Call>, tr: Trackers): nat {
    if calls == [] then 0
    else (if AcceptedFree(calls[0], tr) then BatchSize(calls[0]) else 0) +
         AcceptedTotal(calls[1..], Decide(calls[0].world, calls[0].options, tr).trackers)
  }

  /** A call never lowers the record account and never moves the ceilings. */
  predicate Grown(before: Trackers, after: Trackers) {
    before.quota.Some? ==>
      && after.quota.Some?
      && after.quota.value.maxBatchRecords == before.quota.value.maxBatchRecords
      && after.quota.value.maxContainerRecords == before.quota.value.maxContainerRecords
      && after.quota.value.containerRecords >= before.quota.value.containerRecords
  }

  lemma AccountsOnlyGrow(w: World, o: Options, tr: Trackers)
    ensures Grown(tr, Decide(w, o, tr).trackers)
  {
    FreeTierGrows(w, o, tr);
    CommercialGrows(w, o, tr);
  }

  lemma FreeTierGrows(w: World, o: Options, tr: Trackers)
    ensures Grown(tr, FreeTier(w, o, tr).trackers)
  {
  }

  lemma CommercialGrows(w: World, o: Options, tr: Trackers)
    ensures Grown(tr, Commercial(w, o, tr).trackers)
  {
    match w.verify(ResolvedToken(w, o), EvalTime(w, o), Crl(o)) {
      case Refused(_, _) =>
      case Accepted(c, inGrace) => CheckedGrows(w, o, c, inGrace, tr);
    }
  }

  lemma CheckedGrows(w: World, o: Options, c: Claims, inGrace: bool, tr: Trackers)
    ensures Grown(tr, Checked(w, o, c, inGrace, tr).trackers)
  {
    var checks := ScopeChecks(w, o, c);
    var k := FirstFailing(checks);
    if k < SCOPE_CHECKS {
      FailureTouchesNoAccount(w, o, c, checks[k], if k >= 4 then TrackAll(tr, o.sourceResources) else tr);
    } else {
      InScopeGrows(w, o, c, inGrace, TrackAll(tr, o.sourceResources));
    }
  }

  lemma FailureTouchesNoAccount(w: World, o: Options, c: Claims, check: Check, tr: Trackers)
    requires check.offender.Some?
    ensures Failed(w, o, c, check, tr).trackers == tr
  {
  }

  lemma InScopeGrows(w: World, o: Options, c: Claims, inGrace: bool, tr: Trackers)
    ensures Grown(tr, InScope(w, o, c, inGrace, tr).trackers)
  {
  }

  /** A batch let through free of charge in strict mode is within both ceilings and accounted for. */
  lemma AcceptedWithinCeilings(call: Call, tr: Trackers)
    requires tr.quota.Some? && AcceptedFree(call, tr) && BatchSize(call) > 0
    ensures
      var before, after := tr.quota.value, Decide(call.world, call.options, tr).trackers.quota.value;
      && BatchSize(call) <= before.maxBatchRecords
      && after.containerRecords == before.containerRecords + BatchSize(call)
      && after.containerRecords <= before.maxContainerRecords
  {
    AccountsOnlyGrow(call.world, call.options, tr);
    assert Decide(call.world, call.options, tr) == FreeTier(call.world, call.options, tr);
  }

  lemma {:induction false} FreeTotalBounded(calls: seq<Call>, tr: Trackers)
    requires tr.quota.Some?
    ensures AcceptedTotal(calls, tr) <=
              if tr.quota.value.containerRecords <= tr.quota.value.maxContainerRecords
              then tr.quota.value.maxContainerRecords - tr.quota.value.containerRecords else 0
    decreases |calls|
  {
    if calls != [] {
      AccountsOnlyGrow(calls[0].world, calls[0].options, tr);
      if AcceptedFree(calls[0], tr) && BatchSize(calls[0]) > 0 {
        AcceptedWithinCeilings(calls[0], tr);
      }
      FreeTotalBounded(calls[1..], Decide(calls[0].world, calls[0].options, tr).trackers);
    }
  }

  /** Whatever the environment sets, and whatever other calls come between, one container lets
      through at most 25,000 records free of charge in strict mode, in batches of at most 10,000. */
  lemma FreeUseIsCapped(maxBatchSetting: Option<int>, maxContainerSetting: Option<int>, calls: seq<Call>,
                        resources: Option<set<string>>)
    ensures
      var initial := Trackers(Some(QuotaState(0, 0, Limit(maxBatchSetting, 10_000),
                                            Limit(maxContainerSetting, 25_000), 0, false)), resources);
      && AcceptedTotal(calls, initial) <= Limit(maxContainerSetting, 25_000) <= 25_000
      && (calls != [] && AcceptedFree(calls[|calls| - 1], After(calls[..|calls| - 1], initial)) ==>
            BatchSize(calls[|calls| - 1]) <= Limit(maxBatchSetting, 10_000) <= 10_000)
  {
    var initial := Trackers(Some(QuotaState(0, 0, Limit(maxBatchSetting, 10_000),
                                          Limit(maxContainerSetting, 25_000), 0, false)), resources);
    FreeTotalBounded(calls, initial);
    if calls != [] {
      CeilingsStay(calls[..|calls| - 1], initial);
      var last, before := calls[|calls| - 1], After(calls[..|calls| - 1], initial);
      if AcceptedFree(last, before) && BatchSize(last) > 0 {
        AcceptedWithinCeilings(last, before);
      }
    }
  }

  function After(calls: seq<Call>, tr: Trackers): Trackers {
    if calls == [] then tr
    else After(calls[1..], Decide(calls[0].world, calls[0].options, tr).trackers)
  }

  lemma {:induction false} CeilingsStay(calls: seq<Call>, tr: Trackers)
    requires tr.quota.Some?
    ensures After(calls, tr).quota.Some?
    ensures After(calls, tr).quota.value.maxBatchRecords == tr.quota.value.maxBatchRecords
    decreases |calls|
  {
    if calls != [] {
      AccountsOnlyGrow(calls[0].world, calls[0].options, tr);
      CeilingsStay(calls[1..], Decide(calls[0].world, calls[0].options, tr).trackers);
    }
  }
}
