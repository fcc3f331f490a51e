/** Licence claims, their limits and entitlement key, and the classification of licence errors,
    from pkg/license/model.go. */
module LicenseModel {
  import opened Seqs
  import opened Strings

  const MAX_NON_PROD_RESOURCES: int := 10

  datatype Limits = Limits(maxResources: int, maxMonthlyGB: int, raw: map<string, int>)

  /** The claims Enforce looks at; `id`, `orgId` and `metadata` scope the registry. */
  datatype Claims = Claims(id: string, orgId: string, metadata: map<string, string>, limits: Option<Limits>)

  /** The library errors an error can wrap. */
  datatype Sentinel =
    | CommercialLicenseRequired | FeatureNotEntitled | LicenseRevoked | ResourceQuotaExceeded | ResourceNotAllowed
    | RegistryAccessDenied | Expired | NotYetValid | ProductMismatch | InvalidSignature | InvalidLicenseFormat
    | LicenseNotFound | ScopeMismatch | VersionNotEntitled | MaintenanceExpired
    | InvalidCRL | CRLExpired | CRLMissing

  datatype LicenseError = LicenseError(msg: string, wraps: set<Sentinel>)

  /** fmt.Errorf("%s: %w", msg, cause). */
  function Wrap(msg: string, cause: LicenseError): LicenseError {
    LicenseError(msg + ": " + cause.msg, cause.wraps)
  }

  const DETERMINISTIC: set<Sentinel> := {
    CommercialLicenseRequired, FeatureNotEntitled, LicenseRevoked, ResourceQuotaExceeded, ResourceNotAllowed,
    RegistryAccessDenied, Expired, NotYetValid, ProductMismatch, InvalidSignature, InvalidLicenseFormat,
    LicenseNotFound, ScopeMismatch, VersionNotEntitled, MaintenanceExpired }

  /** A permanent failure, by what the error wraps or by what its message says. */
  predicate IsDeterministic(e: LicenseError) {
    || e.wraps * DETERMINISTIC != {}
    || Contains(e.msg, COMMERCIAL)
    || Contains(e.msg, VERIFICATION_FAILED)
    || Contains(e.msg, "ACCOUNT MISMATCH")
    || Contains(e.msg, "RESOURCE QUOTA EXCEEDED")
    || Contains(e.msg, "RESOURCE NOT ALLOWED")
    || Contains(e.msg, "not authorized")
    || Contains(e.msg, "AccessDenied")
  }

  const COMMERCIAL: string := "COMMERCIAL LICENSE"
  const VERIFICATION_FAILED: string := "license verification failed"

  lemma ContainsMiddle(before: string, part: string, after: string)
    ensures Contains(before + part + after, part)
  {
    var whole := before + part + after;
    assert whole[|before|..|before| + |part|] == part;
    assert OccursAt(whole, part, |before|);
  }

  lemma WrappingKeeps(before: string, part: string, cause: LicenseError)
    ensures Contains(Wrap(before + part, cause).msg, part)
  {
    ContainsMiddle(before, part, ": " + cause.msg);
    assert before + part + (": " + cause.msg) == before + part + ": " + cause.msg;
  }

  /** Every message that opens with the shouted prefix is recognised. */
  lemma CommercialMessage(rest: string, wraps: set<Sentinel>)
    ensures IsDeterministic(LicenseError(COMMERCIAL + rest, wraps))
  {
    ContainsMiddle("", COMMERCIAL, rest);
    assert "" + COMMERCIAL + rest == COMMERCIAL + rest;
  }

  /** So is the message of a failed verification, whatever the cause. */
  lemma VerificationMessage(cause: LicenseError)
    ensures IsDeterministic(Wrap("commercial " + VERIFICATION_FAILED, cause))
  {
    WrappingKeeps("commercial ", VERIFICATION_FAILED, cause);
  }

  /** Wrapping a sentinel is enough. */
  lemma SentinelIsEnough(e: LicenseError, s: Sentinel)
    requires s in e.wraps && s in DETERMINISTIC
    ensures IsDeterministic(e)
  {
    assert s in e.wraps * DETERMINISTIC;
  }

  predicate IsLastingPhrase(part: string) {
    || part == "COMMERCIAL LICENSE" || part == "license verification failed" || part == "ACCOUNT MISMATCH"
    || part == "RESOURCE QUOTA EXCEEDED" || part == "RESOURCE NOT ALLOWED" || part == "not authorized"
    || part == "AccessDenied"
  }

  ghost predicate HoldsPhrase(msg: string, part: string) {
    exists before, after :: msg == before + part + after
  }

  /** A failure is permanent exactly if it wraps a sentinel that has nothing to do with the revocation
      list itself, or its message holds one of seven phrases. */
  lemma LastingExactly(e: LicenseError)
    ensures IsDeterministic(e) <==>
              || (exists s :: s in e.wraps && s != InvalidCRL && s != CRLExpired && s != CRLMissing)
              || (exists part :: IsLastingPhrase(part) && HoldsPhrase(e.msg, part))
  {
    if s :| s in e.wraps && s != InvalidCRL && s != CRLExpired && s != CRLMissing {
      assert s in e.wraps * DETERMINISTIC;
    }
    if e.wraps * DETERMINISTIC != {} {
      var s :| s in e.wraps * DETERMINISTIC;
    }
    forall part
      ensures Contains(e.msg, part) <==> HoldsPhrase(e.msg, part)
    {
      ContainsExactly(e.msg, part);
    }
  }

  lemma ContainsExactly(msg: string, part: string)
    ensures Contains(msg, part) <==> HoldsPhrase(msg, part)
  {
    if i :| 0 <= i <= |msg| && OccursAt(msg, part, i) {
      assert msg == msg[..i] + part + msg[i + |part|..];
    }
    if before, after :| msg == before + part + after {
      ContainsMiddle(before, part, after);
    }
  }

  /** A limit is the structured field if positive, else the raw number if positive, else 0: uncapped. */
  function LimitOf(field: int, raw: map<string, int>, name: string): (limit: nat)
    ensures field > 0 ==> limit == field
    ensures field <= 0 && name in raw && raw[name] > 0 ==> limit == raw[name]
    ensures limit > 0 <==> field > 0 || (name in raw && raw[name] > 0)
  {
    if field > 0 then field
    else if name in raw && raw[name] > 0 then raw[name]
    else 0
  }

  /** Which limit is which. */
  lemma LimitsMean(c: Claims, limits: Limits)
    requires c.limits == Some(limits)
    ensures limits.maxResources > 0 ==> MaxResources(c) == limits.maxResources
    ensures limits.maxResources <= 0 && "max_resources" in limits.raw && limits.raw["max_resources"] > 0 ==>
              MaxResources(c) == limits.raw["max_resources"]
    ensures limits.maxMonthlyGB > 0 ==> MaxMonthlyGB(c) == limits.maxMonthlyGB
    ensures limits.maxMonthlyGB <= 0 && "max_monthly_gb" in limits.raw && limits.raw["max_monthly_gb"] > 0 ==>
              MaxMonthlyGB(c) == limits.raw["max_monthly_gb"]
  {
  }

  function MaxResources(c: Claims): nat {
    if c.limits.None? then 0 else LimitOf(c.limits.value.maxResources, c.limits.value.raw, "max_resources")
  }

  function MaxMonthlyGB(c: Claims): nat {
    if c.limits.None? then 0 else LimitOf(c.limits.value.maxMonthlyGB, c.limits.value.raw, "max_monthly_gb")
  }

  function Metadata(c: Claims, name: string): string {
    if name in c.metadata then TrimSpace(c.metadata[name]) else ""
  }

  /** The key under which a deployment's resources are counted; `project` falls back to
      PROJECT_NAME.  The first source that is not blank wins. */
  function EntitlementKey(claims: Option<Claims>, nonProd: bool, env: string, project: string,
      projectName: string): string {
    var proj := if TrimSpace(project) != "" then TrimSpace(project) else TrimSpace(projectName);
    if claims.Some? && Metadata(claims.value, "subscription_id") != "" then Metadata(claims.value, "subscription_id")
    else if claims.Some? && Metadata(claims.value, "project_id") != "" then
      Qualified(TrimSpace(claims.value.orgId), Metadata(claims.value, "project_id"))
    else if claims.Some? && Metadata(claims.value, "project") != "" then
      Qualified(TrimSpace(claims.value.orgId), Metadata(claims.value, "project"))
    else if claims.Some? && claims.value.id != "" then claims.value.id
    else if claims.Some? && TrimSpace(claims.value.orgId) != "" then TrimSpace(claims.value.orgId)
    else if nonProd then (if proj != "" then "bsl1.1-free/" + env + "/" + proj else "bsl1.1-free")
    else if proj != "" then "unlicensed/" + proj
    else "unlicensed"
  }

  function Qualified(org: string, project: string): string {
    if org != "" then org + "/" + project else project
  }

  predicate NamesNoScope(c: Claims) {
    Metadata(c, "subscription_id") == "" && Metadata(c, "project_id") == "" && Metadata(c, "project") == ""
  }

  lemma StaysTrimmed(s: string)
    requires TrimSpace(s) != ""
    ensures !AllSpace(TrimSpace(s))
  {
    BlankExactly(TrimSpace(s));
    TrimIsIdempotent(s);
  }

  /** An entitlement key identifies something, except for one kind of licence: no scope in its
      metadata and an id of nothing but spaces, which hides even its organisation. */
  lemma KeyIsBlankExactly(claims: Option<Claims>, nonProd: bool, env: string, project: string, projectName: string)
    ensures
      TrimSpace(EntitlementKey(claims, nonProd, env, project, projectName)) == "" <==>
        claims.Some? && NamesNoScope(claims.value) && claims.value.id != "" && TrimSpace(claims.value.id) == ""
  {
    var key := EntitlementKey(claims, nonProd, env, project, projectName);
    BlankExactly(key);
    if claims.Some? {
      var c := claims.value;
      if Metadata(c, "subscription_id") != "" {
        StaysTrimmed(c.metadata["subscription_id"]);
      } else if Metadata(c, "project_id") != "" {
        StaysTrimmed(c.metadata["project_id"]);
        QualifiedIsNotBlank(TrimSpace(c.orgId), Metadata(c, "project_id"));
      } else if Metadata(c, "project") != "" {
        StaysTrimmed(c.metadata["project"]);
        QualifiedIsNotBlank(TrimSpace(c.orgId), Metadata(c, "project"));
      } else if c.id == "" && TrimSpace(c.orgId) != "" {
        StaysTrimmed(c.orgId);
      } else if c.id == "" {
        assert !IsSpace(key[0]);
      }
    } else {
      assert !IsSpace(key[0]);
    }
  }

  lemma QualifiedIsNotBlank(org: string, project: string)
    requires !AllSpace(project)
    ensures !AllSpace(Qualified(org, project))
  {
    var i :| 0 <= i < |project| && !IsSpace(project[i]);
    assert org != "" ==> Qualified(org, project)[|org| + 1 + i] == project[i];
  }

  /** Two licences with subscriptions count together exactly if they name the same one. */
  lemma SubscriptionsExactly(c1: Claims, c2: Claims, nonProd: bool, env: string, project: string, projectName: string)
    requires "subscription_id" in c1.metadata && TrimSpace(c1.metadata["subscription_id"]) != ""
    requires "subscription_id" in c2.metadata && TrimSpace(c2.metadata["subscription_id"]) != ""
    ensures EntitlementKey(Some(c1), nonProd, env, project, projectName) ==
              EntitlementKey(Some(c2), nonProd, env, project, projectName) <==>
              TrimSpace(c1.metadata["subscription_id"]) == TrimSpace(c2.metadata["subscription_id"])
  {
  }

  /** Two licences that name neither subscription nor project do exactly if they have the same id, or
      if neither has one and they belong to the same organisation. */
  lemma UnscopedExactly(c1: Claims, c2: Claims, nonProd: bool, env: string, project: string, projectName: string)
    requires NamesNoScope(c1) && NamesNoScope(c2) && (c1.id == "" <==> c2.id == "")
    requires c1.id == "" ==> TrimSpace(c1.orgId) != "" && TrimSpace(c2.orgId) != ""
    ensures EntitlementKey(Some(c1), nonProd, env, project, projectName) ==
              EntitlementKey(Some(c2), nonProd, env, project, projectName) <==>
              c1.id == c2.id && (c1.id == "" ==> TrimSpace(c1.orgId) == TrimSpace(c2.orgId))
  {
  }

  /** A licence that names anything is counted under it wherever it is used. */
  lemma LicencesTravel(c: Claims, nonProd1: bool, env1: string, project1: string, name1: string,
      nonProd2: bool, env2: string, project2: string, name2: string)
    requires !NamesNoScope(c) || c.id != "" || TrimSpace(c.orgId) != ""
    ensures EntitlementKey(Some(c), nonProd1, env1, project1, name1) ==
              EntitlementKey(Some(c), nonProd2, env2, project2, name2)
  {
  }

  /** Without a licence a blank project is replaced by PROJECT_NAME, and without that none counts. */
  lemma ProjectNameStandsIn(nonProd: bool, env: string, project: string, projectName: string)
    requires TrimSpace(project) == ""
    ensures EntitlementKey(None, nonProd, env, project, projectName) ==
              EntitlementKey(None, nonProd, env, TrimSpace(projectName), "")
    ensures TrimSpace(projectName) == "" ==>
              EntitlementKey(None, nonProd, env, project, projectName) ==
                if nonProd then "bsl1.1-free" else "unlicensed"
  {
    TrimIsIdempotent(projectName);
  }

  /** Free runs and runs that would need a licence are never counted together. */
  lemma FreeAndUnlicensedApart(env1: string, env2: string, project1: string, project2: string, name1: string,
      name2: string)
    ensures EntitlementKey(None, true, env1, project1, name1) != EntitlementKey(None, false, env2, project2, name2)
  {
    assert EntitlementKey(None, true, env1, project1, name1)[0] == 'b';
    assert EntitlementKey(None, false, env2, project2, name2)[0] == 'u';
  }

  /** The project a licence is scoped to by its metadata. */
  function ScopedProject(c: Claims): string {
    if Metadata(c, "project_id") != "" then Metadata(c, "project_id") else Metadata(c, "project")
  }

  /** Two projects of one organisation are counted apart. */
  lemma ProjectsAreIsolated(c1: Claims, c2: Claims, nonProd: bool, env: string, project: string, projectName: string)
    requires Metadata(c1, "subscription_id") == Metadata(c2, "subscription_id") == ""
    requires TrimSpace(c1.orgId) == TrimSpace(c2.orgId)
    requires ScopedProject(c1) != "" && ScopedProject(c2) != "" && ScopedProject(c1) != ScopedProject(c2)
    ensures EntitlementKey(Some(c1), nonProd, env, project, projectName) !=
              EntitlementKey(Some(c2), nonProd, env, project, projectName)
  {
    SuffixesApart(TrimSpace(c1.orgId) + "/", ScopedProject(c1), ScopedProject(c2));
  }

  /** It is the project_id that tells them apart, whatever stands under "project", and the latter only
      where neither has a project_id. */
  lemma ProjectIdsExactly(c1: Claims, c2: Claims, tag: string, nonProd: bool, env: string, project: string,
      projectName: string)
    requires "subscription_id" !in c1.metadata && "subscription_id" !in c2.metadata
    requires TrimSpace(c1.orgId) == TrimSpace(c2.orgId)
    requires tag == "project_id" ||
               (tag == "project" && "project_id" !in c1.metadata && "project_id" !in c2.metadata)
    requires tag in c1.metadata && TrimSpace(c1.metadata[tag]) != ""
    requires tag in c2.metadata && TrimSpace(c2.metadata[tag]) != ""
    ensures EntitlementKey(Some(c1), nonProd, env, project, projectName) ==
              EntitlementKey(Some(c2), nonProd, env, project, projectName) <==>
              TrimSpace(c1.metadata[tag]) == TrimSpace(c2.metadata[tag])
  {
    SuffixesApart(TrimSpace(c1.orgId) + "/", TrimSpace(c1.metadata[tag]), TrimSpace(c2.metadata[tag]));
  }

  /** So are two unlicensed projects of one environment. */
  lemma UnlicensedAreIsolated(nonProd: bool, env: string, project1: string, project2: string, projectName: string)
    requires TrimSpace(project1) != "" && TrimSpace(project2) != "" && TrimSpace(project1) != TrimSpace(project2)
    ensures EntitlementKey(None, nonProd, env, project1, projectName) !=
              EntitlementKey(None, nonProd, env, project2, projectName)
  {
    SuffixesApart("bsl1.1-free/" + env + "/", TrimSpace(project1), TrimSpace(project2));
    SuffixesApart("unlicensed/", TrimSpace(project1), TrimSpace(project2));
  }

  /** The key of a free run, where `nonProd` says which environments count as non-production. */
  function FreeKeyOf(nonProd: string -> bool, env: string, project: string): string {
    EntitlementKey(None, nonProd(env), env, project, "")
  }

  /** `inner` is `outer`, a slash, and a rest that does not open with a space. */
  predicate NestedIn(inner: string, outer: string) {
    && |outer| < |inner| && inner[..|outer|] == outer && inner[|outer|] == '/'
    && (|inner| > |outer| + 1 ==> !IsSpace(inner[|outer| + 1]))
  }

  predicate Collide(nonProd: string -> bool, env1: string, env2: string, project1: string, project2: string) {
    && TrimSpace(project1) != "" && TrimSpace(project2) != ""
    && FreeKeyOf(nonProd, env1, project1) == FreeKeyOf(nonProd, env2, project2)
  }

  /** Two different non-production environments have projects that share a key exactly if one of the
      environments is nested in the other. */
  lemma FreeKeysCollideExactly(nonProd: string -> bool, env1: string, env2: string)
    requires env1 != env2 && nonProd(env1) && nonProd(env2)
    ensures (exists project1, project2 :: Collide(nonProd, env1, env2, project1, project2)) <==>
              NestedIn(env1, env2) || NestedIn(env2, env1)
  {
    if project1, project2 :| Collide(nonProd, env1, env2, project1, project2) {
      if |env1| <= |env2| {
        CollidingIsNested(nonProd, env2, env1, project2, project1);
      } else {
        CollidingIsNested(nonProd, env1, env2, project1, project2);
      }
    }
    if NestedIn(env1, env2) {
      var project := NestedCollides(nonProd, env1, env2, "p");
      assert Collide(nonProd, env1, env2, "p", project);
    }
    if NestedIn(env2, env1) {
      var project := NestedCollides(nonProd, env2, env1, "p");
      assert Collide(nonProd, env1, env2, project, "p");
    }
  }

  /** Environments without a slash, such as the documented ones, are told apart, and so are projects. */
  lemma FreeKeysApart(nonProd: string -> bool, env1: string, env2: string, project1: string, project2: string)
    requires nonProd(env1) && nonProd(env2) && '/' !in env1 && '/' !in env2
    requires TrimSpace(project1) != "" && TrimSpace(project2) != ""
    ensures FreeKeyOf(nonProd, env1, project1) == FreeKeyOf(nonProd, env2, project2) <==>
              env1 == env2 && TrimSpace(project1) == TrimSpace(project2)
  {
    if env1 == env2 {
      SuffixesApart("bsl1.1-free/" + env1 + "/", TrimSpace(project1), TrimSpace(project2));
    } else if Collide(nonProd, env1, env2, project1, project2) {
      FreeKeysCollideExactly(nonProd, env1, env2);
    }
  }

  lemma CollidingIsNested(nonProd: string -> bool, inner: string, outer: string, project1: string, project2: string)
    requires inner != outer && |outer| <= |inner| && nonProd(inner) && nonProd(outer)
    requires Collide(nonProd, inner, outer, project1, project2)
    ensures NestedIn(inner, outer)
  {
    var p1, p2 := TrimSpace(project1), TrimSpace(project2);
    assert "bsl1.1-free/" + inner + "/" + p1 == "bsl1.1-free/" + (inner + "/" + p1);
    assert "bsl1.1-free/" + outer + "/" + p2 == "bsl1.1-free/" + (outer + "/" + p2);
    SuffixesApart("bsl1.1-free/", inner + "/" + p1, outer + "/" + p2);
    TrimmedOpens(project2);
    JoinedIsNested(inner, outer, p1, p2);
  }

  lemma JoinedIsNested(inner: string, outer: string, p1: string, p2: string)
    requires inner != outer && |outer| <= |inner| && p2 != "" && !IsSpace(p2[0])
    requires inner + "/" + p1 == outer + "/" + p2
    ensures NestedIn(inner, outer)
  {
    var a, b := inner + "/" + p1, outer + "/" + p2;
    assert a[..|outer|] == outer && b[..|outer|] == outer && inner[..|outer|] == a[..|outer|];
    assert b[|outer|] == '/' == a[|outer|] && |outer| < |inner|;
    assert b[|outer| + 1..] == p2;
    assert |inner| > |outer| + 1 ==> inner[|outer| + 1] == a[|outer| + 1] == p2[0];
  }

  /** Whatever the inner environment's project, the outer one has a project with the same key. */
  lemma NestedCollides(nonProd: string -> bool, inner: string, outer: string, project: string) returns (other: string)
    requires nonProd(inner) && nonProd(outer) && NestedIn(inner, outer) && TrimSpace(project) != ""
    ensures Collide(nonProd, inner, outer, project, other)
  {
    var p := TrimSpace(project);
    TrimmedOpens(project);
    other := NestedJoins(inner, outer, p);
    assert "bsl1.1-free/" + inner + "/" + p == "bsl1.1-free/" + (inner + "/" + p);
    assert "bsl1.1-free/" + outer + "/" + other == "bsl1.1-free/" + (outer + "/" + other);
  }

  lemma NestedJoins(inner: string, outer: string, p: string) returns (other: string)
    requires NestedIn(inner, outer) && Trimmed(p)
    ensures Trimmed(other) && TrimSpace(other) == other && inner + "/" + p == outer + "/" + other
  {
    var rest := inner[|outer| + 1..];
    other := rest + "/" + p;
    assert other[|other| - 1] == p[|p| - 1];
    assert inner == outer + "/" + rest;
  }

  /** Not blank, and without space at either end. */
  predicate Trimmed(s: string) {
    s != "" && !IsSpace(s[0]) && !IsSpace(s[|s| - 1])
  }

  // ---------------------------------------------------------------- organisations

  /** Without a subscription, the key of a licence scoped to a project. */
  lemma ScopedKeyIsQualified(c: Claims, nonProd: bool, env: string, project: string, projectName: string)
    requires Metadata(c, "subscription_id") == "" && ScopedProject(c) != ""
    ensures EntitlementKey(Some(c), nonProd, env, project, projectName) ==
              Qualified(TrimSpace(c.orgId), ScopedProject(c))
    ensures Trimmed(ScopedProject(c)) && (TrimSpace(c.orgId) == "" || Trimmed(TrimSpace(c.orgId)))
  {
    TrimmedOpens(c.orgId);
    TrimmedOpens(c.metadata[if Metadata(c, "project_id") != "" then "project_id" else "project"]);
  }

  predicate ProjectsCollide(org1: string, org2: string, project1: string, project2: string) {
    Trimmed(project1) && Trimmed(project2) && Qualified(org1, project1) == Qualified(org2, project2)
  }

  /** Two organisations, as they stand in a key, have scoped projects that share one exactly if one of
      them is missing, or nested in the other. */
  lemma OrganisationsCollideExactly(org1: string, org2: string)
    requires org1 != org2 && (org1 == "" || Trimmed(org1)) && (org2 == "" || Trimmed(org2))
    ensures (exists project1, project2 :: ProjectsCollide(org1, org2, project1, project2)) <==>
              org1 == "" || org2 == "" || NestedIn(org1, org2) || NestedIn(org2, org1)
  {
    if project1, project2 :| ProjectsCollide(org1, org2, project1, project2) {
      if org1 != "" && org2 != "" {
        if |org1| <= |org2| {
          JoinedIsNested(org2, org1, project2, project1);
        } else {
          JoinedIsNested(org1, org2, project1, project2);
        }
      }
    }
    if org1 == "" {
      assert ProjectsCollide(org1, org2, org2 + "/" + "p", "p");
    } else if org2 == "" {
      assert ProjectsCollide(org1, org2, "p", org1 + "/" + "p");
    } else if NestedIn(org1, org2) {
      var project := NestedJoins(org1, org2, "p");
      assert ProjectsCollide(org1, org2, "p", project);
    } else if NestedIn(org2, org1) {
      var project := NestedJoins(org2, org1, "p");
      assert ProjectsCollide(org1, org2, project, "p");
    }
  }

  lemma {:induction false} TrimmedOpens(s: string)
    ensures TrimSpace(s) != "" ==> !IsSpace(TrimSpace(s)[0]) && !IsSpace(TrimSpace(s)[|TrimSpace(s)| - 1])
    decreases |s|
  {
    if s != "" && IsSpace(s[0]) {
      TrimmedOpens(s[1..]);
    } else if s != "" && IsSpace(s[|s| - 1]) {
      TrimmedOpens(s[..|s| - 1]);
    }
  }

  lemma SuffixesApart(prefix: string, a: string, b: string)
    ensures prefix + a == prefix + b ==> a == b
  {
    assert (prefix + a)[|prefix|..] == a && (prefix + b)[|prefix|..] == b;
  }
}
