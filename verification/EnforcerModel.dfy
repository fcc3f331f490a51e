/** The licence decision of pkg/license/enforcer.go as a function of its inputs: production is
    decided by a table of checks in a fixed order, of which the first that fails speaks.
    Token verification, environment classification and scope matching are fixed but arbitrary. */
module EnforcerModel {
  import opened Seqs
  import opened Strings
  import opened Quota
  import opened LicenseModel

  const MAX_DRIFT: int := 900_000_000_000

  /** The machine-readable status reasons; the comment gives the tag each stands for. */
  datatype Reason =
    | ApacheConverted        // apache_converted
    | UnlicensedProduction   // unlicensed_production
    | SuspectedProduction    // suspected_production
    | NonProdFree            // non_prod_free
    | FairUseExceeded        // quota_exceeded
    | RegistryRefused        // registry_error
    | ValidLicense           // valid
    | GracePeriod            // grace_period
    | InvalidToken           // invalid
    | RevokedToken           // revoked
    | ExpiredToken           // expired
    | CallerMismatch         // account_mismatch
    | SourceMismatch         // source_account_mismatch
    | FeatureMissing         // feature_not_entitled
    | ResourceRefused        // resource_not_allowed
    | ProjectMismatch        // project_mismatch
    | TooManyResources       // resource_quota_exceeded

  datatype Status = Status(valid: bool, reason: Reason, quotaExceeded: bool, throughputExceeded: bool,
      claims: Option<Claims>)

  datatype TokenResult = Token(token: string) | TokenError(error: LicenseError)

  datatype CrlSource = Explicit(source: string) | Online(url: string) | Default

  /** What the token verifier can report about a token it refuses. */
  type TokenReason = r: Reason | r in {InvalidToken, RevokedToken, ExpiredToken} witness InvalidToken

  /** The status that comes with a refusal; None where none could be built at all. */
  datatype Refusal = Refusal(reason: TokenReason, claims: Option<Claims>)

  datatype Verification = Accepted(claims: Claims, inGrace: bool) | Refused(why: Option<Refusal>, error: LicenseError)

  datatype Usage = Usage(environment: string, time: int, bucket: string, project: string)

  datatype RegistryReply = RegistryReply(count: int, error: Option<LicenseError>)

  /** What is fixed while a decision is taken: the process environment and the oracles.
      `detail` renders the part of a message that follows its fixed opening. */
  datatype World = World(
    now: int,
    detectedEnv: string,
    modeSetting: string,
    functionName: string,
    projectName: string,
    signals: Signals,
    converted: int -> bool,
    nonProdEnv: string -> bool,
    authorized: Usage -> bool,
    token: (string, string) -> TokenResult,
    verify: (string, int, CrlSource) -> Verification,
    accountAllowed: (Claims, string) -> bool,
    resourceAllowed: (Claims, string) -> bool,
    hasFeature: (Claims, string) -> bool,
    detail: (Reason, string) -> string)

  datatype Options = Options(
    environment: string,
    projectName: string,
    licenseKey: string,
    licenseFile: string,
    crl: string,
    crlFile: string,
    crlURL: string,
    mode: string,
    callerAccount: string,
    contextArn: Option<string>,
    contextAccount: string,
    sourceAccounts: seq<string>,
    sourceResources: seq<string>,
    batchRecordCount: int,
    bucketName: string,
    bucketNames: seq<string>,
    exercisedFeatures: seq<string>,
    evaluationTime: Option<int>,
    authoritativeTime: Option<int>,
    registry: Option<(string, seq<string>, int) -> RegistryReply>)

  /** The values of the two trackers, where there are any. */
  datatype Trackers = Trackers(quota: Option<QuotaState>, resources: Option<set<string>>)

  datatype Outcome = Outcome(status: Option<Status>, error: Option<LicenseError>, trackers: Trackers)

  // ---------------------------------------------------------------- inputs

  /** The container clock, unless it is off by more than 15 minutes from AWS time. */
  function EvalTime(w: World, o: Options): (time: int)
    ensures o.authoritativeTime.Some? ==>
              -900_000_000_000 <= time - o.authoritativeTime.value <= 900_000_000_000
  {
    var clock := if o.evaluationTime.Some? then o.evaluationTime.value else w.now;
    if o.authoritativeTime.Some? &&
       (clock - o.authoritativeTime.value < -MAX_DRIFT || clock - o.authoritativeTime.value > MAX_DRIFT)
    then o.authoritativeTime.value else clock
  }

  function Env(w: World, o: Options): string {
    if TrimSpace(o.environment) != "" then TrimSpace(o.environment) else w.detectedEnv
  }

  function Project(w: World, o: Options): string {
    if TrimSpace(o.projectName) != "" then TrimSpace(o.projectName) else TrimSpace(w.projectName)
  }

  function Join(parts: seq<string>, separator: string): string {
    if parts == [] then "" else if |parts| == 1 then parts[0] else parts[0] + separator + Join(parts[1..], separator)
  }

  /** Free use may be granted here: a non-production environment, or one the policy authorizes. */
  predicate FreeEligible(w: World, o: Options) {
    || w.nonProdEnv(Env(w, o))
    || w.authorized(Usage(Env(w, o), EvalTime(w, o),
                          if o.bucketNames != [] then Join(o.bucketNames, ",") else o.bucketName, Project(w, o)))
  }

  predicate IsDelimiter(c: char) {
    c == '-' || c == '_' || c == '.' || c == '/' || c == ':'
  }

  /** A production keyword stands at s[i..j], delimited or at an end of the string. */
  predicate KeywordAt(s: string, i: int, j: int) {
    && 0 <= i <= j <= |s|
    && ToLower(s[i..j]) in {"production", "prod", "live", "prd"}
    && (i == 0 || IsDelimiter(s[i - 1]))
    && (j == |s| || IsDelimiter(s[j]))
  }

  predicate MatchesProdKeyword(text: string) {
    var s := TrimSpace(text);
    exists i, j :: 0 <= i <= j <= |s| && KeywordAt(s, i, j)
  }

  function Buckets(o: Options): seq<string> {
    if o.bucketName != "" && o.bucketName !in o.bucketNames then o.bucketNames + [o.bucketName] else o.bucketNames
  }

  predicate AnyProd(names: seq<string>) {
    exists i :: 0 <= i < |names| && MatchesProdKeyword(names[i])
  }

  /** Some name this run can see looks like production. */
  predicate HasProd(w: World, o: Options) {
    || AnyProd(Buckets(o))
    || MatchesProdKeyword(w.functionName)
    || (o.contextArn.Some? && MatchesProdKeyword(o.contextArn.value))
    || MatchesProdKeyword(Project(w, o))
    || AnyProd(o.sourceResources)
  }

  /** The enforcement mode: the option, else the setting; "auto" is strict for suspected production. */
  function Mode(w: World, o: Options): string {
    var chosen := if ToLower(TrimSpace(o.mode)) != "" then ToLower(TrimSpace(o.mode))
        else ToLower(TrimSpace(w.modeSetting));
    if chosen == "" || chosen == "auto" then
      if HasProd(w, o) || !FreeEligible(w, o) then "strict" else "warn"
    else chosen
  }

  predicate Strict(w: World, o: Options) {
    Mode(w, o) == "strict"
  }

  function ResolvedToken(w: World, o: Options): string {
    match w.token(o.licenseKey, o.licenseFile)
    case Token(t) => t
    case TokenError(_) => ""
  }

  function CallerAccount(o: Options): string {
    if o.callerAccount != "" then o.callerAccount else o.contextAccount
  }

  function Crl(o: Options): CrlSource {
    if o.crl != "" then Explicit(o.crl)
    else if o.crlFile != "" then Explicit(o.crlFile)
    else if o.crlURL != "" then Online(o.crlURL)
    else Default
  }

  // ---------------------------------------------------------------- trackers

  function Tracked(names: seq<string>): set<string> {
    set r | r in names && TrimSpace(r) != "" :: TrimSpace(r)
  }

  function TrackAll(tr: Trackers, names: seq<string>): Trackers {
    if tr.resources.Some? then tr.(resources := Some(tr.resources.value + Tracked(names))) else tr
  }

  /** Every batch with records is added to the container's total, accepted or not. */
  function Recorded(tr: Trackers, batch: int): Trackers {
    if tr.quota.Some? && batch > 0
    then tr.(quota := Some(tr.quota.value.(containerRecords := tr.quota.value.containerRecords + batch)))
    else tr
  }

  /** The registry's count if it is consulted, else the tracker's, else the number of names. */
  function LocalCount(tr: Trackers, names: seq<string>): int {
    if tr.resources.Some? then |tr.resources.value| else |names|
  }

  // ---------------------------------------------------------------- the free non-production tier

  predicate OverFairUse(o: Options, recorded: Trackers) {
    recorded.quota.Some? && o.batchRecordCount > 0 &&
    (|| o.batchRecordCount > recorded.quota.value.maxBatchRecords
     || recorded.quota.value.containerRecords > recorded.quota.value.maxContainerRecords)
  }

  function FreeTier(w: World, o: Options, tr: Trackers): Outcome {
    var after := TrackAll(Recorded(tr, o.batchRecordCount), o.sourceResources);
    var key := EntitlementKey(None, w.nonProdEnv(Env(w, o)), Env(w, o), Project(w, o), w.projectName);
    var reply := if o.registry.Some? then o.registry.value(key, o.sourceResources, EvalTime(w, o))
                 else RegistryReply(LocalCount(after, o.sourceResources), None);
    if reply.error.Some? && Strict(w, o) && IsDeterministic(reply.error.value) then
      Outcome(Some(Status(false, RegistryRefused, false, false, None)), reply.error, after)
    else if OverFairUse(o, after) || reply.count > MAX_NON_PROD_RESOURCES then
      Outcome(Some(Status(!Strict(w, o), FairUseExceeded, true, false, None)),
              if Strict(w, o) then Some(LicenseError(w.detail(FairUseExceeded, Env(w, o)), {ResourceQuotaExceeded}))
              else None,
              after)
    else
      Outcome(Some(Status(true, NonProdFree, false, false, None)), None, after)
  }

  // ---------------------------------------------------------------- the commercial table

  /** One row: who offends against it, if anyone, how that is reported, and whether outside strict
      mode the free grant steps in. */
  datatype Check = Check(offender: Option<string>, reason: Reason, wraps: set<Sentinel>, fallsBack: bool)

  /** The first name that offends. */
  function FirstBad(names: seq<string>, bad: string -> bool): (r: Option<string>)
    ensures r.Some? ==> r.value in names && bad(r.value)
    ensures r.None? <==> forall i :: 0 <= i < |names| ==> !bad(names[i])
  {
    if names == [] then None
    else if bad(names[0]) then Some(names[0])
    else
      assert forall i :: 0 < i < |names| ==> names[i] == names[1..][i - 1];
      FirstBad(names[1..], bad)
  }

  predicate BadAccount(w: World, claims: Claims, account: string) {
    account != "" && !w.accountAllowed(claims, account)
  }

  predicate BadFeature(w: World, o: Options, claims: Claims, feature: string) {
    TrimSpace(feature) != "" && !w.nonProdEnv(Env(w, o)) && !w.hasFeature(claims, TrimSpace(feature))
  }

  predicate BadResource(w: World, claims: Claims, resource: string) {
    TrimSpace(resource) != "" && !w.resourceAllowed(claims, TrimSpace(resource))
  }

  function LicensedProject(claims: Claims): string {
    if Metadata(claims, "project") != "" then Metadata(claims, "project") else Metadata(claims, "project_id")
  }

  predicate BadProject(w: World, o: Options, claims: Claims) {
    LicensedProject(claims) != "" && ToLower(LicensedProject(claims)) != ToLower(Project(w, o))
  }

  const SCOPE_CHECKS: nat := 5

  /** The checks that need no count, in the order in which they are made. */
  function ScopeChecks(w: World, o: Options, claims: Claims): (checks: seq<Check>)
    ensures |checks| == SCOPE_CHECKS
  {
    [ Check(FirstBad([CallerAccount(o)], a => BadAccount(w, claims, a)), CallerMismatch, {}, true),
      Check(FirstBad(o.sourceAccounts, a => BadAccount(w, claims, a)), SourceMismatch, {}, true),
      Check(FirstBad(o.exercisedFeatures, f => BadFeature(w, o, claims, f)), FeatureMissing,
            {FeatureNotEntitled}, false),
      Check(FirstBad(o.sourceResources, r => BadResource(w, claims, r)), ResourceRefused, {ResourceNotAllowed}, false),
      Check(if BadProject(w, o, claims) then Some(Project(w, o)) else None, ProjectMismatch, {ScopeMismatch}, true) ]
  }

  function FirstFailing(checks: seq<Check>): (k: nat)
    ensures k <= |checks|
    ensures forall i :: 0 <= i < k ==> checks[i].offender.None?
    ensures k < |checks| ==> checks[k].offender.Some?
  {
    if checks == [] || checks[0].offender.Some? then 0 else 1 + FirstFailing(checks[1..])
  }

  /** Outside strict mode some failures fall back to the free grant, if the run could have it. */
  predicate CanFallBack(w: World, o: Options) {
    FreeEligible(w, o) && !HasProd(w, o)
  }

  function FreeGrant(tr: Trackers): Outcome {
    Outcome(Some(Status(true, NonProdFree, false, false, None)), None, tr)
  }

  function Failed(w: World, o: Options, claims: Claims, check: Check, tr: Trackers): Outcome
    requires check.offender.Some?
  {
    var status := Some(Status(false, check.reason, false, false, Some(claims)));
    if Strict(w, o) then
      Outcome(status, Some(LicenseError(COMMERCIAL + w.detail(check.reason, check.offender.value), check.wraps)), tr)
    else if check.fallsBack && CanFallBack(w, o) then FreeGrant(tr)
    else Outcome(status, None, tr)
  }

  /** The registry is asked only by licences that limit the number of resources. */
  function Counted(w: World, o: Options, claims: Claims, tr: Trackers): RegistryReply {
    if o.registry.Some? && MaxResources(claims) > 0 then
      o.registry.value(EntitlementKey(Some(claims), w.nonProdEnv(Env(w, o)), Env(w, o), Project(w, o), w.projectName),
                       o.sourceResources, EvalTime(w, o))
    else RegistryReply(LocalCount(tr, o.sourceResources), None)
  }

  predicate Breached(w: World, claims: Claims, tr: Trackers) {
    tr.quota.Some? && ThroughputBreached(tr.quota.value, w.signals, MaxMonthlyGB(claims))
  }

  function Licensed(w: World, o: Options, claims: Claims, inGrace: bool, tr: Trackers): Outcome {
    var breached := Breached(w, claims, tr);
    Outcome(Some(Status(true, if inGrace then GracePeriod else ValidLicense, false, breached, Some(claims))), None,
            if breached then tr.(quota := Some(Warned(tr.quota.value, Unix(EvalTime(w, o))))) else tr)
  }

  /** A licence whose scope fits: the registry and the resource quota are left. */
  function InScope(w: World, o: Options, claims: Claims, inGrace: bool, tr: Trackers): Outcome {
    var reply := Counted(w, o, claims, tr);
    if reply.error.Some? && Strict(w, o) && IsDeterministic(reply.error.value) then
      Outcome(Some(Status(true, if inGrace then GracePeriod else ValidLicense, false, false, Some(claims))),
          reply.error, tr)
    else if MaxResources(claims) > 0 && reply.count > MaxResources(claims) then
      Failed(w, o, claims, Check(Some(Env(w, o)), TooManyResources, {ResourceQuotaExceeded}, false), tr)
    else Licensed(w, o, claims, inGrace, tr)
  }

  /** A verified licence against the table, then the rest.  Resources are tracked before the project
      is compared, and not at all if an earlier check fails. */
  function Checked(w: World, o: Options, claims: Claims, inGrace: bool, tr: Trackers): Outcome {
    var checks := ScopeChecks(w, o, claims);
    var k := FirstFailing(checks);
    var after := if k >= 4 then TrackAll(tr, o.sourceResources) else tr;
    if k < SCOPE_CHECKS then Failed(w, o, claims, checks[k], after) else InScope(w, o, claims, inGrace, after)
  }

  function Unlicensed(w: World, o: Options, tr: Trackers): Outcome {
    Outcome(Some(Status(false, UnlicensedProduction, false, false, None)),
            if Strict(w, o) then Some(LicenseError(COMMERCIAL + w.detail(UnlicensedProduction, Env(w, o)), {}))
            else None,
            tr)
  }

  function RefusalStatus(why: Option<Refusal>): Option<Status> {
    if why.None? then None else Some(Status(false, why.value.reason, false, false, why.value.claims))
  }

  /** A run that needs a commercial licence, or was given one. */
  function Commercial(w: World, o: Options, tr: Trackers): Outcome {
    var token := w.token(o.licenseKey, o.licenseFile);
    if token.TokenError? && Strict(w, o) then Outcome(None, Some(token.error), tr)
    else if ResolvedToken(w, o) == "" then Unlicensed(w, o, tr)
    else match w.verify(ResolvedToken(w, o), EvalTime(w, o), Crl(o))
      case Refused(why, error) =>
        if Strict(w, o) then Outcome(RefusalStatus(why), Some(Wrap("commercial " + VERIFICATION_FAILED, error)), tr)
        else if CanFallBack(w, o) then FreeGrant(tr)
        else Outcome(RefusalStatus(why), None, tr)
      case Accepted(claims, inGrace) => Checked(w, o, claims, inGrace, tr)
  }

  function Suspected(w: World, o: Options, tr: Trackers): Outcome {
    if Strict(w, o) then
      Outcome(Some(Status(false, UnlicensedProduction, false, false, None)),
              Some(LicenseError(COMMERCIAL + w.detail(SuspectedProduction, Env(w, o)), {CommercialLicenseRequired})),
              tr)
    else Outcome(Some(Status(true, SuspectedProduction, false, false, None)), None, tr)
  }

  /** The whole decision. */
  function Decide(w: World, o: Options, tr: Trackers): Outcome {
    if w.converted(EvalTime(w, o)) then Outcome(Some(Status(true, ApacheConverted, false, false, None)), None, tr)
    else if FreeEligible(w, o) && ResolvedToken(w, o) == "" then
      if HasProd(w, o) then Suspected(w, o, tr) else FreeTier(w, o, tr)
    else Commercial(w, o, tr)
  }

  /** PreflightEnforce: the same decision before anything about the logs is known. */
  function Preflight(o: Options): Options {
    o.(sourceAccounts := [], sourceResources := [], exercisedFeatures := [], batchRecordCount := 0, registry := None)
  }
}
