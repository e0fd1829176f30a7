/**
 * What the default grants allow, entity by entity, and what a request without levels comes down to
 * (src/auth/grants.ts:17-35, 55-127, src/auth/assert_grant.ts:19-46, src/controllers/tokens_controller.ts:75-84).
 */
module GrantTables {
  import opened Wrappers
  import opened Grants
  import opened TokenMint

  /** What members may write. */
  predicate MembersWrite(entity: string) {
    || entity == "teams" || entity == "drafts" || entity == "runs" || entity == "dispatch" || entity == "workspaces"
    || entity == "agents" || entity == "settings" || entity == "notifications" || entity == "builder"
    || entity == "hug" || entity == "tokens" || entity == "realms" || entity == "daemons" || entity == "orgs"
    || entity == "scopes"
  }

  /** All there is to grant. */
  predicate IsEntity(entity: string) {
    MembersWrite(entity) || entity == "users" || entity == "reports"
  }

  /** The levels of an access map, asked for one by one. */
  ghost predicate Allows(access: Access, entity: string, read: bool, write: bool, admin: bool) {
    && (HasAccess(access, entity, "read") <==> read)
    && (HasAccess(access, entity, "write") <==> write)
    && (HasAccess(access, entity, "admin") <==> admin)
  }

  lemma AllowsByRank(access: Access, entity: string, rank: nat)
    requires MaxRank(LevelsOf(access, entity)) == rank
    ensures Allows(access, entity, rank >= 1, rank >= 2, rank >= 3)
  {
    HasAccessByRank(access, entity, "read");
    HasAccessByRank(access, entity, "write");
    HasAccessByRank(access, entity, "admin");
  }

  lemma MemberNames(entity: string)
    ensures entity in MEMBER_ENTITIES <==> MembersWrite(entity)
    ensures entity in ENTITIES <==> IsEntity(entity)
  {
    var m, e := MEMBER_ENTITIES, ENTITIES;
    assert m[0] == "teams" && m[1] == "drafts" && m[2] == "runs" && m[3] == "dispatch" && m[4] == "workspaces";
    assert m[5] == "agents" && m[6] == "settings" && m[7] == "notifications" && m[8] == "builder" && m[9] == "hug";
    assert m[10] == "tokens" && m[11] == "realms" && m[12] == "daemons" && m[13] == "orgs" && m[14] == "scopes";
    assert e[0] == "users" && e[1] == "orgs" && e[2] == "scopes" && e[3] == "teams" && e[4] == "drafts";
    assert e[5] == "tokens" && e[6] == "realms" && e[7] == "daemons" && e[8] == "runs" && e[9] == "dispatch";
    assert e[10] == "workspaces" && e[11] == "agents" && e[12] == "settings" && e[13] == "notifications";
    assert e[14] == "builder" && e[15] == "hug" && e[16] == "reports";
  }

  lemma MemberLevels(entity: string)
    ensures Allows(MemberAccess(), entity, IsEntity(entity), MembersWrite(entity), false)
  {
    MemberNames(entity);
    AllowsByRank(MemberAccess(), entity, MaxRank(LevelsOf(MemberAccess(), entity)));
  }

  lemma AdminLevels(entity: string)
    ensures Allows(AllAdminAccess(), entity, IsEntity(entity), IsEntity(entity), IsEntity(entity))
  {
    MemberNames(entity);
    AllowsByRank(AllAdminAccess(), entity, MaxRank(LevelsOf(AllAdminAccess(), entity)));
  }

  /** No permissions at all, or an object without any. */
  predicate NoRequest(raw: RawGrant) {
    raw == NotAnObject || raw == RawGrant(None, NoAccess, None)
  }

  /**
   * A member's token minted from an empty request reads all seventeen entities, writes all but users and reports, and
   * administers none, in the member's own orgs and realms; a member's token without a stored grant is read the same, in
   * their orgs and no realm.
   */
  lemma MemberDefault(s: Subject, raw: RawGrant, entity: string)
    requires !s.admin && NoRequest(raw)
    ensures var minted, read := ResolveUserGrant(s, raw, None), Effective(None, Person(s));
            && Allows(minted.access, entity, IsEntity(entity), MembersWrite(entity), false)
            && Allows(read.access, entity, IsEntity(entity), MembersWrite(entity), false)
            && minted.domains == Domains(Only(s.orgIds), Only(s.realmIds))
            && read.domains == Domains(Only(s.orgIds), Only([]))
  {
    MemberLevels(entity);
  }

  /** An admin's default, minted or standing in, allows everything on everything, everywhere. */
  lemma AdminDefault(s: Subject, raw: RawGrant, entity: string, target: string)
    requires s.admin && NoRequest(raw)
    ensures var minted, read := ResolveUserGrant(s, raw, None), Effective(None, Person(s));
            && Allows(minted.access, entity, IsEntity(entity), IsEntity(entity), IsEntity(entity))
            && Allows(read.access, entity, IsEntity(entity), IsEntity(entity), IsEntity(entity))
            && DomainAllows(minted.domains.orgs, target) && DomainAllows(minted.domains.realms, target)
            && DomainAllows(read.domains.orgs, target) && DomainAllows(read.domains.realms, target)
  {
    AdminLevels(entity);
  }

  /**
   * A daemon token without stored grant, and a realm token minted without permissions: daemons, dispatch and runs, up
   * to writing and not administering; the realm it is used for, or those it was minted for; and no org.
   */
  lemma DaemonDefault(realm: Option<string>, ids: seq<string>, entity: string, target: string)
    requires realm != Some("*") && "*" !in ids
    ensures var read, minted := Effective(None, Daemon(realm)), RealmGrant(ids, None);
            var named := entity == "daemons" || entity == "dispatch" || entity == "runs";
            && read.access == minted.access
            && read.access == map["daemons" := ["write"], "dispatch" := ["write"], "runs" := ["read", "write"]]
            && Allows(read.access, entity, named, named, false)
            && (DomainAllows(read.domains.realms, target) <==> realm == Some(target))
            && (DomainAllows(minted.domains.realms, target) <==> target in ids)
            && !DomainAllows(read.domains.orgs, target) && !DomainAllows(minted.domains.orgs, target)
  {
    var access := Effective(None, Daemon(realm)).access;
    AllowsByRank(access, entity, MaxRank(LevelsOf(access, entity)));
  }

  /** A request that says `full`, `admin` or `*` in the old way: a word for its access, and no domains. */
  predicate AsksForAll(raw: RawGrant) {
    raw.RawGrant? && raw.domains.None? && raw.access.Word?
    && (raw.access.text == "full" || raw.access.text == "admin" || raw.access.text == "*")
  }

  lemma AdminByText(access: Access, entity: string)
    ensures HasAccess(access, entity, "admin") <==> entity in access && "admin" in access[entity]
  {
    if entity in access && "admin" in access[entity] {
      var i :| 0 <= i < |access[entity]| && access[entity][i] == "admin";
      assert LevelRank(LevelsOf(access, entity)[i]) == 3;
    }
  }

  /**
   * A member's new token may administer an entity if and only if the request lists `admin` for it, or asks for all of
   * them in the old way: nothing else a request says brings it about.
   */
  lemma AdminOnlyWhenAskedFor(s: Subject, raw: RawGrant, entity: string)
    requires !s.admin
    ensures HasAccess(ResolveUserGrant(s, raw, None).access, entity, "admin") <==>
              || (&& raw.RawGrant? && raw.access.Levels? && entity in raw.access.levels
                  && "admin" in raw.access.levels[entity])
              || (AsksForAll(raw) && IsEntity(entity))
  {
    MemberLevels(entity);
    AdminLevels(entity);
    AdminByText(ResolveUserGrant(s, raw, None).access, entity);
    AdminByText(MemberAccess(), entity);
    AdminByText(AllAdminAccess(), entity);
    NormalizeLevels(raw, DefaultGrant(s), entity);
  }

  /** Under a caller's grant nothing comes on top, and never more than the caller's own stored lists allow. */
  lemma AdminUnderCaller(s: Subject, raw: RawGrant, ceiling: Grant, entity: string)
    ensures HasAccess(ResolveUserGrant(s, raw, Some(ceiling)).access, entity, "admin") ==>
              && HasAccess(ResolveUserGrant(s, raw, None).access, entity, "admin")
              && HasAccess(ceiling.access, entity, "admin")
  {
    ClampAccessBounded(Wanted(s, raw).access, ceiling.access, entity, "admin");
  }

  // ---- Where a member's token holds. ----

  /** The orgs a request is about, when it says so: the old list, where empty ids do not count, or the new domain. */
  ghost predicate AsksForOrg(raw: RawGrant, org: string) {
    match raw
    case RawGrant(Some(domains), _, _) => domains.orgs.Absent? || domains.orgs.Everything? || org in domains.orgs.ids
    case RawGrant(None, Levels(_), _) => true
    case RawGrant(None, _, Some(orgIds)) => org in orgIds && org != ""
    case _ => true
  }

  ghost predicate AsksForRealm(raw: RawGrant, realm: string) {
    match raw
    case RawGrant(Some(domains), _, _) =>
      domains.realms.Absent? || domains.realms.Everything? || realm in domains.realms.ids
    case _ => true
  }

  lemma {:induction false} NonEmptyIdsAre(ids: seq<string>, id: string)
    ensures id in NonEmptyIds(ids) <==> id in ids && id != ""
  {
    if |ids| > 0 {
      NonEmptyIdsAre(ids[1..], id);
      assert ids == [ids[0]] + ids[1..];
    }
  }

  /** A member's new token holds exactly in those of their own orgs and realms that the request is about. */
  lemma MemberDomainsAre(s: Subject, raw: RawGrant, target: string)
    requires !s.admin && "*" !in s.orgIds && "*" !in s.realmIds && target != "*"
    ensures var d := ResolveUserGrant(s, raw, None).domains;
            && (DomainAllows(d.orgs, target) <==> target in s.orgIds && AsksForOrg(raw, target))
            && (DomainAllows(d.realms, target) <==> target in s.realmIds && AsksForRealm(raw, target))
  {
    var normal := Normalize(raw, DefaultGrant(s)).domains;
    ClampListExact(normal.orgs, s.orgIds, target);
    ClampListExact(normal.realms, s.realmIds, target);
    if raw.RawGrant? && raw.orgIds.Some? {
      NonEmptyIdsAre(raw.orgIds.value, target);
    }
  }

  // ---- Enrolment. ----

  /** The token's stored realms cover this one, or it stores none, and what stands in for them is this one. */
  ghost predicate HoldsRealm(permissions: RawGrant, realm: string) {
    match permissions
    case RawGrant(Some(domains), _, _) =>
      domains.realms.Absent? || domains.realms.Everything? || "*" in domains.realms.ids || realm in domains.realms.ids
    case _ => true
  }

  /** The levels stored for daemons, if there are any, neither write nor administer. */
  ghost predicate DaemonsReadOnly(permissions: RawGrant) {
    && permissions.RawGrant? && permissions.access.Levels? && "daemons" in permissions.access.levels
    && "write" !in permissions.access.levels["daemons"] && "admin" !in permissions.access.levels["daemons"]
  }

  lemma WriteByText(access: Access, entity: string)
    ensures HasAccess(access, entity, "write") <==>
              entity in access && ("write" in access[entity] || "admin" in access[entity])
  {
    if entity in access && ("write" in access[entity] || "admin" in access[entity]) {
      var i :| 0 <= i < |access[entity]| && (access[entity][i] == "write" || access[entity][i] == "admin");
      assert LevelRank(LevelsOf(access, entity)[i]) >= 2;
    }
  }

  /** The realm asked for goes before the token's own; each refusal is given exactly when its reason holds. */
  lemma EnrollmentOutcomes(permissions: RawGrant, authRealm: string, requestedRealm: string)
    ensures var realm := if requestedRealm != "" then requestedRealm else authRealm;
            var r := ResolveEnrollment(permissions, authRealm, requestedRealm);
            && (r == Failure(RealmRequired) <==> realm == "")
            && (r == Failure(NotGranted) <==> realm != "" && !HoldsRealm(permissions, realm))
            && (r == Failure(MissingDaemonsWrite) <==>
                  realm != "" && HoldsRealm(permissions, realm) && DaemonsReadOnly(permissions))
            && (r.Success? ==> r.value.realmId == realm && r.value.permissions.domains.realms == Only([realm]))
  {
    var realm := if requestedRealm != "" then requestedRealm else authRealm;
    var fallback := DefaultDaemonGrant([realm], []);
    var g := Normalize(StoredOrEmpty(permissions), fallback);
    NormalizeLevels(StoredOrEmpty(permissions), fallback, "daemons");
    WriteByText(g.access, "daemons");
    AdminLevels("daemons");
    WriteByText(AllAdminAccess(), "daemons");
    assert DomainAllows(Only([realm]), realm);
    assert "write" in ["write"];
  }
}
