/** Enforce, PreflightEnforce and ResourceTracker of pkg/license/enforcer.go step by step, proved
    against the decision function. */
module Enforcer {
  import opened Seqs
  import opened Strings
  import opened Quota
  import opened LicenseModel
  import opened EnforcerModel

  /** The container's set of monitored resources. */
  class ResourceTracker {
    var resources: set<string>

    constructor ()
      ensures resources == {}
    {
      resources := {};
    }

    method Track(resource: string) returns (count: nat, added: bool)
      modifies this
      ensures resources == old(resources) + Tracked([resource])
      ensures count == |resources|
      ensures added <==> TrimSpace(resource) != "" && TrimSpace(resource) !in old(resources)
    {
      var id := TrimSpace(resource);
      if id == "" {
        return |resources|, false;
      }
      if id in resources {
        return |resources|, false;
      }
      resources := resources + {id};
      return |resources|, true;
    }
  }

  /** The values behind the two references; either may be nil. */
  function View(quota: QuotaTracker?, resources: ResourceTracker?): Trackers
    reads quota, resources
  {
    Trackers(if quota == null then None else Some(quota.View()),
             if resources == null then None else Some(resources.resources))
  }

  lemma TrackedSnoc(base: set<string>, names: seq<string>, i: nat)
    requires i < |names|
    ensures base + Tracked(names[..i + 1]) == base + Tracked(names[..i]) + Tracked([names[i]])
    ensures names[i] == "" ==> Tracked([names[i]]) == {}
  {
    var longer, shorter := names[..i + 1], names[..i];
    assert longer == shorter + [names[i]];
    forall x
      ensures x in Tracked(longer) <==> x in Tracked(shorter) || x in Tracked([names[i]])
    {
      if x in Tracked(shorter) {
        var r :| r in shorter && TrimSpace(r) != "" && TrimSpace(r) == x;
        assert r in longer;
      }
    }
  }

  method TrackEach(names: seq<string>, tracker: ResourceTracker)
    modifies tracker
    ensures tracker.resources == old(tracker.resources) + Tracked(names)
  {
    ghost var before := tracker.resources;
    var i := 0;
    while i < |names|
      invariant i <= |names|
      invariant tracker.resources == before + Tracked(names[..i])
    {
      TrackedSnoc(before, names, i);
      if names[i] != "" {
        var _, _ := tracker.Track(names[i]);
      }
      i := i + 1;
    }
    assert names[..|names|] == names;
  }

  method TrackResources(names: seq<string>, quota: QuotaTracker?, resources: ResourceTracker?)
    modifies resources
    ensures View(quota, resources) == TrackAll(old(View(quota, resources)), names)
  {
    if resources != null {
      TrackEach(names, resources);
    }
  }

  // ---------------------------------------------------------------- production indicators

  method FindProd(names: seq<string>) returns (found: bool)
    ensures found <==> AnyProd(names)
  {
    var i := 0;
    while i < |names|
      invariant i <= |names|
      invariant forall k :: 0 <= k < i ==> !MatchesProdKeyword(names[k])
    {
      if MatchesProdKeyword(names[i]) {
        return true;
      }
      i := i + 1;
    }
    return false;
  }

  lemma TrimmedKeyword(s: string)
    ensures MatchesProdKeyword(TrimSpace(s)) == MatchesProdKeyword(s)
  {
    TrimIsIdempotent(s);
  }

  method DetectProductionIndicators(w: World, o: Options) returns (found: bool)
    ensures found <==> HasProd(w, o)
  {
    var buckets := o.bucketNames;
    if o.bucketName != "" {
      var listed := false;
      var i := 0;
      while i < |buckets|
        invariant i <= |buckets|
        invariant listed <==> o.bucketName in buckets[..i]
      {
        if buckets[i] == o.bucketName {
          listed := true;
          break;
        }
        i := i + 1;
      }
      if !listed {
        buckets := buckets + [o.bucketName];
      }
    }
    assert buckets == Buckets(o);
    found := FindProd(buckets);
    if found {
      return;
    }
    var name := TrimSpace(w.functionName);
    TrimmedKeyword(w.functionName);
    if name != "" && MatchesProdKeyword(name) {
      return true;
    }
    if o.contextArn.Some? && MatchesProdKeyword(o.contextArn.value) {
      return true;
    }
    var project := TrimSpace(o.projectName);
    if project == "" {
      project := TrimSpace(w.projectName);
    }
    if project != "" && MatchesProdKeyword(project) {
      return true;
    }
    found := FindProd(o.sourceResources);
  }

  // ---------------------------------------------------------------- free non-production use

  method EnforceFree(w: World, o: Options, mode: string, evalTime: int, quota: QuotaTracker?,
      resources: ResourceTracker?)
    returns (status: Status, error: Option<LicenseError>)
    requires mode == Mode(w, o) && evalTime == EvalTime(w, o)
    modifies quota, resources
    ensures Outcome(Some(status), error, View(quota, resources)) == FreeTier(w, o, old(View(quota, resources)))
  {
    var env, project := Env(w, o), Project(w, o);
    var quotaExceeded := false;
    if quota != null && o.batchRecordCount > 0 {
      var dense := quota.CheckBatchDensity(o.batchRecordCount);
      if dense {
        quotaExceeded := true;
      }
      var over, _ := quota.RecordAndCheckContainerQuota(o.batchRecordCount);
      if over {
        quotaExceeded := true;
      }
    }
    ghost var recorded := View(quota, resources);
    assert recorded == Recorded(old(View(quota, resources)), o.batchRecordCount);
    TrackResources(o.sourceResources, quota, resources);
    assert quotaExceeded <==> OverFairUse(o, View(quota, resources));

    var activeResources;
    if o.registry.Some? {
      var key := EntitlementKey(None, w.nonProdEnv(env), env, project, w.projectName);
      var reply := o.registry.value(key, o.sourceResources, evalTime);
      if reply.error.Some? && mode == "strict" && IsDeterministic(reply.error.value) {
        return Status(false, RegistryRefused, false, false, None), reply.error;
      }
      activeResources := reply.count;
    } else if resources != null {
      activeResources := |resources.resources|;
    } else {
      activeResources := |o.sourceResources|;
    }
    if activeResources > MAX_NON_PROD_RESOURCES {
      quotaExceeded := true;
    }
    var reason := NonProdFree;
    if quotaExceeded {
      reason := FairUseExceeded;
      if mode == "strict" {
        return Status(false, reason, true, false, None),
            Some(LicenseError(w.detail(FairUseExceeded, env), {ResourceQuotaExceeded}));
      }
    }
    return Status(true, reason, quotaExceeded, false, None), None;
  }

  // ---------------------------------------------------------------- licensed use

  /** What FirstBad returns is fixed by the first offender's index. */
  lemma {:induction false} FirstBadAt(names: seq<string>, bad: string -> bool, i: nat)
    requires i < |names| && bad(names[i])
    requires forall k :: 0 <= k < i ==> !bad(names[k])
    ensures FirstBad(names, bad) == Some(names[i])
  {
    if i > 0 {
      assert forall k :: 0 <= k < i - 1 ==> names[1..][k] == names[k + 1];
      FirstBadAt(names[1..], bad, i - 1);
    }
  }

  /** The loop over accounts, features and resources alike: it stops at the first that offends. */
  method FindFirst(names: seq<string>, bad: string -> bool) returns (offender: Option<string>)
    ensures offender == FirstBad(names, bad)
  {
    var i := 0;
    while i < |names|
      invariant i <= |names|
      invariant forall k :: 0 <= k < i ==> !bad(names[k])
    {
      if bad(names[i]) {
        FirstBadAt(names, bad, i);
        return Some(names[i]);
      }
      i := i + 1;
    }
    return None;
  }

  /** What a failing check does to the run. */
  method Refuse(w: World, o: Options, mode: string, hasProd: bool, claims: Claims, check: Check)
    returns (status: Status, error: Option<LicenseError>)
    requires mode == Mode(w, o) && hasProd == HasProd(w, o) && check.offender.Some?
    ensures forall tr :: Outcome(Some(status), error, tr) == Failed(w, o, claims, check, tr)
  {
    status, error := Status(false, check.reason, false, false, Some(claims)), None;
    if mode == "strict" {
      error := Some(LicenseError(COMMERCIAL + w.detail(check.reason, check.offender.value), check.wraps));
      return;
    }
    if check.fallsBack && FreeEligible(w, o) && !hasProd {
      status := Status(true, NonProdFree, false, false, None);
    }
  }

  /** The checks up to the resources, which touch no tracker. */
  method CheckScope(w: World, o: Options, mode: string, hasProd: bool, claims: Claims)
    returns (refused: bool, status: Status, error: Option<LicenseError>)
    requires mode == Mode(w, o) && hasProd == HasProd(w, o)
    ensures
      var checks := ScopeChecks(w, o, claims);
      var k := FirstFailing(checks);
      && (refused <==> k < 4)
      && (refused ==> forall tr :: Outcome(Some(status), error, tr) == Failed(w, o, claims, checks[k], tr))
  {
    ghost var checks := ScopeChecks(w, o, claims);
    var callerAccount := o.callerAccount;
    if callerAccount == "" {
      callerAccount := o.contextAccount;
    }
    var bad := account => BadAccount(w, claims, account);
    if bad(callerAccount) {
      assert checks[0].offender == Some(callerAccount);
      status, error := Refuse(w, o, mode, hasProd, claims, Check(Some(callerAccount), CallerMismatch, {}, true));
      return true, status, error;
    }
    assert checks[0].offender.None?;
    var offender := FindFirst(o.sourceAccounts, bad);
    assert checks[1].offender == offender;
    if offender.Some? {
      status, error := Refuse(w, o, mode, hasProd, claims, Check(offender, SourceMismatch, {}, true));
      return true, status, error;
    }
    offender := FindFirst(o.exercisedFeatures, feature => BadFeature(w, o, claims, feature));
    assert checks[2].offender == offender;
    if offender.Some? {
      status, error := Refuse(w, o, mode, hasProd, claims,
          Check(offender, FeatureMissing, {FeatureNotEntitled}, false));
      return true, status, error;
    }
    offender := FindFirst(o.sourceResources, resource => BadResource(w, claims, resource));
    assert checks[3].offender == offender;
    if offender.Some? {
      status, error := Refuse(w, o, mode, hasProd, claims,
          Check(offender, ResourceRefused, {ResourceNotAllowed}, false));
      return true, status, error;
    }
    return false, Status(true, ValidLicense, false, false, Some(claims)), None;
  }

  /** The registry, the resource quota and the throughput ceiling. */
  method CheckQuotas(w: World, o: Options, mode: string, hasProd: bool, evalTime: int, verified: Status,
                     quota: QuotaTracker?, resources: ResourceTracker?)
    returns (status: Status, error: Option<LicenseError>)
    requires mode == Mode(w, o) && hasProd == HasProd(w, o) && evalTime == EvalTime(w, o)
    requires verified.claims.Some? && verified.reason in {GracePeriod, ValidLicense}
    requires verified == Status(true, verified.reason, false, false, verified.claims)
    modifies quota
    ensures Outcome(Some(status), error, View(quota, resources)) ==
              InScope(w, o, verified.claims.value, verified.reason == GracePeriod, old(View(quota, resources)))
  {
    status := verified;
    var claims := verified.claims.value;
    var maxResources := MaxResources(claims);
    var activeResources;
    if o.registry.Some? && maxResources > 0 {
      var key := EntitlementKey(Some(claims), w.nonProdEnv(Env(w, o)), Env(w, o), Project(w, o), w.projectName);
      var reply := o.registry.value(key, o.sourceResources, evalTime);
      if reply.error.Some? && mode == "strict" && IsDeterministic(reply.error.value) {
        return status, reply.error;
      }
      activeResources := reply.count;
    } else if resources != null {
      activeResources := |resources.resources|;
    } else {
      activeResources := |o.sourceResources|;
    }
    if maxResources > 0 && activeResources > maxResources {
      status, error := Refuse(w, o, mode, hasProd, claims,
          Check(Some(Env(w, o)), TooManyResources, {ResourceQuotaExceeded}, false));
      return;
    }
    error := None;
    var maxMonthlyGB := MaxMonthlyGB(claims);
    if maxMonthlyGB > 0 && quota != null {
      var breached := quota.CheckThroughputQuota(maxMonthlyGB, w.signals);
      if breached {
        var _ := quota.ShouldEmitFairUseWarningAt(evalTime);
        status := status.(throughputExceeded := true);
      }
    }
  }

  /** Past the first four checks only the project is left of the table. */
  lemma ProjectIsLast(w: World, o: Options, claims: Claims, inGrace: bool, tr: Trackers)
    requires FirstFailing(ScopeChecks(w, o, claims)) >= 4
    ensures Checked(w, o, claims, inGrace, tr) ==
              if BadProject(w, o, claims)
              then Failed(w, o, claims, Check(Some(Project(w, o)), ProjectMismatch, {ScopeMismatch}, true),
                          TrackAll(tr, o.sourceResources))
              else InScope(w, o, claims, inGrace, TrackAll(tr, o.sourceResources))
  {
    var checks := ScopeChecks(w, o, claims);
    assert checks[4].offender.Some? <==> BadProject(w, o, claims);
  }

  method CheckLicense(w: World, o: Options, mode: string, hasProd: bool, evalTime: int, claims: Claims, inGrace: bool,
                      quota: QuotaTracker?, resources: ResourceTracker?)
    returns (status: Status, error: Option<LicenseError>)
    requires mode == Mode(w, o) && hasProd == HasProd(w, o) && evalTime == EvalTime(w, o)
    modifies quota, resources
    ensures Outcome(Some(status), error, View(quota, resources)) ==
              Checked(w, o, claims, inGrace, old(View(quota, resources)))
  {
    var refused;
    refused, status, error := CheckScope(w, o, mode, hasProd, claims);
    if refused {
      return;
    }
    ProjectIsLast(w, o, claims, inGrace, View(quota, resources));
    TrackResources(o.sourceResources, quota, resources);
    var expected := LicensedProject(claims);
    if expected != "" && ToLower(expected) != ToLower(Project(w, o)) {
      status, error := Refuse(w, o, mode, hasProd, claims,
          Check(Some(Project(w, o)), ProjectMismatch, {ScopeMismatch}, true));
      return;
    }
    status := Status(true, if inGrace then GracePeriod else ValidLicense, false, false, Some(claims));
    status, error := CheckQuotas(w, o, mode, hasProd, evalTime, status, quota, resources);
  }

  method EnforceCommercial(w: World, o: Options, mode: string, hasProd: bool, evalTime: int,
                           quota: QuotaTracker?, resources: ResourceTracker?)
    returns (status: Option<Status>, error: Option<LicenseError>)
    requires mode == Mode(w, o) && hasProd == HasProd(w, o) && evalTime == EvalTime(w, o)
    modifies quota, resources
    ensures Outcome(status, error, View(quota, resources)) == Commercial(w, o, old(View(quota, resources)))
  {
    var resolved := w.token(o.licenseKey, o.licenseFile);
    if resolved.TokenError? && mode == "strict" {
      return None, Some(resolved.error);
    }
    var token := ResolvedToken(w, o);
    if token == "" {
      status := Some(Status(false, UnlicensedProduction, false, false, None));
      if mode == "strict" {
        return status, Some(LicenseError(COMMERCIAL + w.detail(UnlicensedProduction, Env(w, o)), {}));
      }
      return status, None;
    }
    match w.verify(token, evalTime, Crl(o))
    case Refused(why, cause) =>
      status := RefusalStatus(why);
      if mode == "strict" {
        return status, Some(Wrap("commercial " + VERIFICATION_FAILED, cause));
      }
      if FreeEligible(w, o) && !hasProd {
        return Some(Status(true, NonProdFree, false, false, None)), None;
      }
      return status, None;
    case Accepted(claims, inGrace) =>
      var verdict;
      verdict, error := CheckLicense(w, o, mode, hasProd, evalTime, claims, inGrace, quota, resources);
      status := Some(verdict);
  }

  // ---------------------------------------------------------------- the entry points

  method ResolveMode(w: World, o: Options, hasProd: bool) returns (mode: string)
    requires hasProd == HasProd(w, o)
    ensures mode == Mode(w, o)
  {
    mode := ToLower(TrimSpace(o.mode));
    if mode == "" {
      mode := ToLower(TrimSpace(w.modeSetting));
    }
    if mode == "" || mode == "auto" {
      if hasProd || !FreeEligible(w, o) {
        mode := "strict";
      } else {
        mode := "warn";
      }
    }
  }

  method Enforce(w: World, o: Options, quota: QuotaTracker?, resources: ResourceTracker?)
    returns (status: Option<Status>, error: Option<LicenseError>)
    modifies quota, resources
    ensures Outcome(status, error, View(quota, resources)) == Decide(w, o, old(View(quota, resources)))
  {
    var evalTime := if o.evaluationTime.Some? then o.evaluationTime.value else w.now;
    if o.authoritativeTime.Some? {
      var drift := evalTime - o.authoritativeTime.value;
      if drift < -MAX_DRIFT || drift > MAX_DRIFT {
        evalTime := o.authoritativeTime.value;
      }
    }
    if w.converted(evalTime) {
      return Some(Status(true, ApacheConverted, false, false, None)), None;
    }
    var hasProd := DetectProductionIndicators(w, o);
    var mode := ResolveMode(w, o, hasProd);
    if FreeEligible(w, o) && ResolvedToken(w, o) == "" {
      if hasProd {
        if mode == "strict" {
          return Some(Status(false, UnlicensedProduction, false, false, None)),
                 Some(LicenseError(COMMERCIAL + w.detail(SuspectedProduction, Env(w, o)), {CommercialLicenseRequired}));
        }
        return Some(Status(true, SuspectedProduction, false, false, None)), None;
      }
      var verdict;
      verdict, error := EnforceFree(w, o, mode, evalTime, quota, resources);
      return Some(verdict), error;
    }
    status, error := EnforceCommercial(w, o, mode, hasProd, evalTime, quota, resources);
  }

  method PreflightEnforce(w: World, o: Options, quota: QuotaTracker?, resources: ResourceTracker?)
    returns (status: Option<Status>, error: Option<LicenseError>)
    modifies quota, resources
    ensures Outcome(status, error, View(quota, resources)) == Decide(w, Preflight(o), old(View(quota, resources)))
  {
    var stripped := o;
    stripped := stripped.(sourceAccounts := []);
    stripped := stripped.(sourceResources := []);
    stripped := stripped.(exercisedFeatures := []);
    stripped := stripped.(batchRecordCount := 0);
    stripped := stripped.(registry := None);
    status, error := Enforce(w, stripped, quota, resources);
  }
}
