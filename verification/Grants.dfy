/**
 * Token grants: what a grant allows, and the two clamps (src/auth/grants.ts).
 * A level is its text; a domain is absent, `'*'`, or a list that may itself contain `'*'`.
 */
module Grants {
  import opened Wrappers

  datatype Domain = Absent | Everything | Only(ids: seq<string>)

  type Access = map<string, seq<string>>

  datatype Domains = Domains(orgs: Domain, realms: Domain)

  datatype Grant = Grant(domains: Domains, access: Access)

  datatype Subject = Subject(admin: bool, orgIds: seq<string>, realmIds: seq<string>)

  const STAR := "*"

  const ENTITIES := [
    "users", "orgs", "scopes", "teams", "drafts", "tokens", "realms", "daemons", "runs", "dispatch",
    "workspaces", "agents", "settings", "notifications", "builder", "hug", "reports"]

  const MEMBER_ENTITIES := [
    "teams", "drafts", "runs", "dispatch", "workspaces", "agents", "settings", "notifications", "builder",
    "hug", "tokens", "realms", "daemons", "orgs", "scopes"]

  /** `read` 1, `write` 2, `admin` 3; anything else is no level at all (0). */
  function LevelRank(level: string): nat {
    if level == "read" then 1 else if level == "write" then 2 else if level == "admin" then 3 else 0
  }

  // ---- Meaning. ----

  function LevelsOf(access: Access, entity: string): seq<string> {
    if entity in access then access[entity] else []
  }

  /** The highest rank in a list of levels. */
  function MaxRank(levels: seq<string>): nat {
    if |levels| == 0 then 0
    else
      var rest := MaxRank(levels[1..]);
      if LevelRank(levels[0]) > rest then LevelRank(levels[0]) else rest
  }

  /** Does the grant allow `need` on `entity`? */
  predicate HasAccess(access: Access, entity: string, need: string)
    requires LevelRank(need) > 0
  {
    exists i :: 0 <= i < |LevelsOf(access, entity)| && LevelRank(LevelsOf(access, entity)[i]) >= LevelRank(need)
  }

  predicate DomainAllows(d: Domain, target: string) {
    match d
    case Absent => false
    case Everything => true
    case Only(ids) => STAR in ids || target in ids
  }

  lemma {:induction false} MaxRankBounds(levels: seq<string>)
    ensures forall i :: 0 <= i < |levels| ==> LevelRank(levels[i]) <= MaxRank(levels)
    ensures MaxRank(levels) > 0 ==> exists i :: 0 <= i < |levels| && LevelRank(levels[i]) == MaxRank(levels)
    ensures MaxRank(levels) <= 3
  {
    if |levels| > 0 {
      MaxRankBounds(levels[1..]);
      assert levels == [levels[0]] + levels[1..];
      if LevelRank(levels[0]) == MaxRank(levels) {
        assert LevelRank(levels[0]) == MaxRank(levels);
      } else if MaxRank(levels) > 0 {
        var i :| 0 <= i < |levels[1..]| && LevelRank(levels[1..][i]) == MaxRank(levels[1..]);
        assert LevelRank(levels[i + 1]) == MaxRank(levels);
      }
    }
  }

  /** Access to an entity is decided by its highest level alone. */
  lemma HasAccessByRank(access: Access, entity: string, need: string)
    requires LevelRank(need) > 0
    ensures HasAccess(access, entity, need) <==> MaxRank(LevelsOf(access, entity)) >= LevelRank(need)
  {
    MaxRankBounds(LevelsOf(access, entity));
  }

  // ---- Narrowing one grant to another. ----

  function Members(ids: seq<string>, allowed: seq<string>): seq<string> {
    if |ids| == 0 then [] else (if ids[0] in allowed then [ids[0]] else []) + Members(ids[1..], allowed)
  }

  function WithoutStar(ids: seq<string>): seq<string> {
    if |ids| == 0 then [] else (if ids[0] != STAR then [ids[0]] else []) + WithoutStar(ids[1..])
  }

  predicate Unrestricted(d: Domain) {
    d.Everything? || (d.Only? && STAR in d.ids)
  }

  function Ids(d: Domain): seq<string> {
    if d.Only? then d.ids else []
  }

  function ClampDomain(wanted: Domain, allowed: Domain): Domain {
    if Unrestricted(allowed) then wanted
    else
      var allowedList := WithoutStar(Ids(allowed));
      if Unrestricted(wanted) then Only(allowedList) else Only(Members(Ids(wanted), allowedList))
  }

  /** Levels no higher than `cap`; an unknown level is dropped. */
  function Capped(levels: seq<string>, cap: nat): seq<string> {
    if |levels| == 0 then []
    else (if 0 < LevelRank(levels[0]) <= cap then [levels[0]] else []) + Capped(levels[1..], cap)
  }

  function ClampLevels(wanted: Access, ceiling: Access, entity: string): seq<string> {
    Capped(LevelsOf(wanted, entity), MaxRank(LevelsOf(ceiling, entity)))
  }

  function ClampAccess(wanted: Access, ceiling: Access): Access {
    map entity | entity in wanted && |ClampLevels(wanted, ceiling, entity)| > 0 :: ClampLevels(wanted, ceiling, entity)
  }

  function ClampToGrant(g: Grant, ceiling: Grant): Grant {
    Grant(Domains(ClampDomain(g.domains.orgs, ceiling.domains.orgs),
        ClampDomain(g.domains.realms, ceiling.domains.realms)),
          ClampAccess(g.access, ceiling.access))
  }

  lemma {:induction false} MembersIn(ids: seq<string>, allowed: seq<string>)
    ensures forall x :: x in Members(ids, allowed) <==> x in ids && x in allowed
    ensures Members(Members(ids, allowed), allowed) == Members(ids, allowed)
  {
    if |ids| > 0 {
      MembersIn(ids[1..], allowed);
      assert ids == [ids[0]] + ids[1..];
      if ids[0] in allowed {
        assert Members(ids, allowed)[1..] == Members(ids[1..], allowed);
      } else {
        assert Members(ids, allowed) == Members(ids[1..], allowed);
      }
    }
  }

  lemma {:induction false} MembersAll(ids: seq<string>, allowed: seq<string>)
    requires forall x :: x in ids ==> x in allowed
    ensures Members(ids, allowed) == ids
  {
    if |ids| > 0 {
      assert ids[0] in ids;
      assert forall x :: x in ids[1..] ==> x in ids;
      MembersAll(ids[1..], allowed);
    }
  }

  lemma {:induction false} WithoutStarIn(ids: seq<string>)
    ensures forall x :: x in WithoutStar(ids) <==> x in ids && x != STAR
    ensures STAR !in ids ==> WithoutStar(ids) == ids
  {
    if |ids| > 0 {
      WithoutStarIn(ids[1..]);
      assert ids == [ids[0]] + ids[1..];
    }
  }

  /** On domains the clamp is exactly intersection, for every mix of absent, list, list with a star, and star. */
  lemma ClampDomainIsIntersection(wanted: Domain, allowed: Domain, target: string)
    ensures DomainAllows(ClampDomain(wanted, allowed), target) <==>
              DomainAllows(wanted, target) && DomainAllows(allowed, target)
  {
    WithoutStarIn(Ids(allowed));
    MembersIn(Ids(wanted), WithoutStar(Ids(allowed)));
  }

  lemma ClampDomainTwice(wanted: Domain, allowed: Domain)
    ensures ClampDomain(ClampDomain(wanted, allowed), allowed) == ClampDomain(wanted, allowed)
  {
    var list := WithoutStar(Ids(allowed));
    WithoutStarIn(Ids(allowed));
    MembersIn(Ids(wanted), list);
    MembersAll(list, list);
  }

  lemma {:induction false} CappedMax(levels: seq<string>, cap: nat)
    ensures MaxRank(Capped(levels, cap)) <= cap && MaxRank(Capped(levels, cap)) <= MaxRank(levels)
    ensures MaxRank(levels) <= cap ==> MaxRank(Capped(levels, cap)) == MaxRank(levels)
    ensures cap > 0 ==>
              (MaxRank(Capped(levels, cap)) == cap <==> exists i :: 0 <= i < |levels| && LevelRank(levels[i]) == cap)
    ensures Capped(Capped(levels, cap), cap) == Capped(levels, cap)
  {
    if |levels| > 0 {
      CappedMax(levels[1..], cap);
      assert levels == [levels[0]] + levels[1..];
      if 0 < LevelRank(levels[0]) <= cap {
        assert Capped(levels, cap)[1..] == Capped(levels[1..], cap);
      } else {
        assert Capped(levels, cap) == Capped(levels[1..], cap);
      }
      if exists i :: 0 <= i < |levels[1..]| && LevelRank(levels[1..][i]) == cap {
        var i :| 0 <= i < |levels[1..]| && LevelRank(levels[1..][i]) == cap;
        assert LevelRank(levels[i + 1]) == cap;
      }
    }
  }

  /** The clamp never allows more than either grant. */
  lemma ClampAccessBounded(wanted: Access, ceiling: Access, entity: string, need: string)
    requires LevelRank(need) > 0
    ensures HasAccess(ClampAccess(wanted, ceiling), entity, need) ==>
              HasAccess(wanted, entity, need) && HasAccess(ceiling, entity, need)
  {
    HasAccessByRank(wanted, entity, need);
    HasAccessByRank(ceiling, entity, need);
    HasAccessByRank(ClampAccess(wanted, ceiling), entity, need);
    CappedMax(LevelsOf(wanted, entity), MaxRank(LevelsOf(ceiling, entity)));
  }

  /** The wanted levels reach no higher than the ceiling, or include the ceiling's own highest level. */
  predicate MeetsCeiling(wanted: Access, ceiling: Access, entity: string) {
    var cap := MaxRank(LevelsOf(ceiling, entity));
    MaxRank(LevelsOf(wanted, entity)) <= cap || cap == 0
    || exists i :: 0 <= i < |LevelsOf(wanted, entity)| && LevelRank(LevelsOf(wanted, entity)[i]) == cap
  }

  /**
   * On access the clamp allows all that both allow exactly when the wanted list meets the ceiling:
   * `['write']` under a `read` ceiling keeps nothing, although both allow reading.
   */
  lemma ClampAccessExactIff(wanted: Access, ceiling: Access, entity: string)
    ensures (forall need :: LevelRank(need) > 0 && HasAccess(wanted, entity, need) && HasAccess(ceiling, entity, need)
                            ==> HasAccess(ClampAccess(wanted, ceiling), entity, need))
            <==> MeetsCeiling(wanted, ceiling, entity)
  {
    var w, cap := LevelsOf(wanted, entity), MaxRank(LevelsOf(ceiling, entity));
    CappedMax(w, cap);
    MaxRankBounds(LevelsOf(ceiling, entity));
    forall need | LevelRank(need) > 0
      ensures HasAccess(wanted, entity, need) <==> MaxRank(w) >= LevelRank(need)
      ensures HasAccess(ceiling, entity, need) <==> cap >= LevelRank(need)
      ensures HasAccess(ClampAccess(wanted, ceiling), entity, need) <==> MaxRank(Capped(w, cap)) >= LevelRank(need)
    {
      HasAccessByRank(wanted, entity, need);
      HasAccessByRank(ceiling, entity, need);
      HasAccessByRank(ClampAccess(wanted, ceiling), entity, need);
    }
    if !MeetsCeiling(wanted, ceiling, entity) {
      var i :| 0 <= i < |LevelsOf(ceiling, entity)| && LevelRank(LevelsOf(ceiling, entity)[i]) == cap;
      var need := LevelsOf(ceiling, entity)[i];
      assert HasAccess(wanted, entity, need) && HasAccess(ceiling, entity, need);
      assert !HasAccess(ClampAccess(wanted, ceiling), entity, need);
    }
  }

  /** Level lists as `normalize_grant` and the defaults write them out: a level brings the lower ones along. */
  predicate DownwardClosed(levels: seq<string>) {
    && ("admin" in levels ==> "write" in levels)
    && ("write" in levels ==> "read" in levels)
  }

  lemma DownwardClosedMeetsAnyCeiling(wanted: Access, ceiling: Access, entity: string)
    requires DownwardClosed(LevelsOf(wanted, entity))
    ensures MeetsCeiling(wanted, ceiling, entity)
  {
    var w, cap := LevelsOf(wanted, entity), MaxRank(LevelsOf(ceiling, entity));
    MaxRankBounds(w);
    MaxRankBounds(LevelsOf(ceiling, entity));
    if MaxRank(w) > cap > 0 {
      var i :| 0 <= i < |w| && LevelRank(w[i]) == MaxRank(w);
      assert w[i] in w;
      var low := if cap == 1 then "read" else "write";
      assert low in w && LevelRank(low) == cap;
    }
  }

  /** The agent default `daemons: ['write']` is not downward closed, and a `read` ceiling takes even reading away. */
  lemma WriteAloneUnderRead()
    ensures var wanted := map["daemons" := ["write"]];
            var ceiling := map["daemons" := ["read"]];
            && HasAccess(wanted, "daemons", "read") && HasAccess(ceiling, "daemons", "read")
            && !HasAccess(ClampAccess(wanted, ceiling), "daemons", "read")
  {
    var wanted: Access := map["daemons" := ["write"]];
    var ceiling: Access := map["daemons" := ["read"]];
    assert LevelRank(wanted["daemons"][0]) >= LevelRank("read");
    assert LevelRank(ceiling["daemons"][0]) >= LevelRank("read");
    assert MaxRank(["read"]) == 1;
    assert Capped(["write"], 1) == [];
    assert "daemons" !in ClampAccess(wanted, ceiling);
  }

  /** Clamping to the same ceiling again changes nothing. */
  lemma ClampTwice(g: Grant, ceiling: Grant)
    ensures ClampToGrant(ClampToGrant(g, ceiling), ceiling) == ClampToGrant(g, ceiling)
  {
    ClampDomainTwice(g.domains.orgs, ceiling.domains.orgs);
    ClampDomainTwice(g.domains.realms, ceiling.domains.realms);
    var once := ClampAccess(g.access, ceiling.access);
    var twice := ClampAccess(once, ceiling.access);
    forall entity
      ensures ClampLevels(once, ceiling.access, entity) == ClampLevels(g.access, ceiling.access, entity)
    {
      CappedMax(LevelsOf(g.access, entity), MaxRank(LevelsOf(ceiling.access, entity)));
    }
    assert twice.Keys == once.Keys;
    assert twice == once;
  }

  /** The access loop as it runs: entities in any order, an entity written only when a level is kept. */
  method ClampAccessLoop(wanted: Access, ceiling: Access) returns (access: Access)
    ensures access == ClampAccess(wanted, ceiling)
  {
    access := map[];
    var left := wanted.Keys;
    while left != {}
      invariant left <= wanted.Keys
      invariant access.Keys == set e | e in wanted.Keys - left && |ClampLevels(wanted, ceiling, e)| > 0
      invariant forall e :: e in access ==> access[e] == ClampLevels(wanted, ceiling, e)
      decreases left
    {
      var entity :| entity in left;
      var kept := Capped(wanted[entity], MaxRank(LevelsOf(ceiling, entity)));
      if |kept| > 0 {
        access := access[entity := kept];
      }
      left := left - {entity};
    }
  }

  // ---- Containment between grants. ----

  ghost predicate DomainWithin(a: Domain, b: Domain) {
    forall t :: DomainAllows(a, t) ==> DomainAllows(b, t)
  }

  ghost predicate AccessWithin(a: Access, b: Access) {
    forall entity :: MaxRank(LevelsOf(a, entity)) <= MaxRank(LevelsOf(b, entity))
  }

  /** Everything `a` allows, `b` allows. */
  ghost predicate Within(a: Grant, b: Grant) {
    DomainWithin(a.domains.orgs, b.domains.orgs) && DomainWithin(a.domains.realms, b.domains.realms)
        && AccessWithin(a.access, b.access)
  }

  lemma ClampWithinCeiling(g: Grant, ceiling: Grant)
    ensures Within(ClampToGrant(g, ceiling), ceiling) && Within(ClampToGrant(g, ceiling), g)
  {
    forall t
      ensures DomainAllows(ClampDomain(g.domains.orgs, ceiling.domains.orgs), t) ==>
                DomainAllows(ceiling.domains.orgs, t) && DomainAllows(g.domains.orgs, t)
      ensures DomainAllows(ClampDomain(g.domains.realms, ceiling.domains.realms), t) ==>
                DomainAllows(ceiling.domains.realms, t) && DomainAllows(g.domains.realms, t)
    {
      ClampDomainIsIntersection(g.domains.orgs, ceiling.domains.orgs, t);
      ClampDomainIsIntersection(g.domains.realms, ceiling.domains.realms, t);
    }
    forall entity
      ensures MaxRank(LevelsOf(ClampAccess(g.access, ceiling.access), entity)) <=
              MaxRank(LevelsOf(ceiling.access, entity))
      ensures MaxRank(LevelsOf(ClampAccess(g.access, ceiling.access), entity)) <= MaxRank(LevelsOf(g.access, entity))
    {
      CappedMax(LevelsOf(g.access, entity), MaxRank(LevelsOf(ceiling.access, entity)));
    }
  }

  // ---- Narrowing a grant to its subject. ----

  function ClampList(wanted: Domain, allowed: seq<string>): seq<string> {
    match wanted
    case Absent => []
    case Everything => allowed
    case Only(ids) => Members(WithoutStar(ids), allowed)
  }

  function ClampToSubject(g: Grant, s: Subject): Grant {
    if s.admin then g
    else
      var orgs, realms := ClampList(g.domains.orgs, s.orgIds), ClampList(g.domains.realms, s.realmIds);
      g.(domains := Domains(Only(orgs), Only(realms)))
  }

  /** A domain names only ids of the subject. */
  ghost predicate NamesOnly(d: Domain, ids: seq<string>) {
    forall t :: DomainAllows(d, t) ==> t in ids
  }

  /**
   * For an id that is not itself a star: the clamp keeps what is wanted and the subject's; a star inside a list is
   * lost.
   */
  lemma ClampListExact(wanted: Domain, allowed: seq<string>, target: string)
    ensures target != STAR ==>
            (target in ClampList(wanted, allowed) <==>
             target in allowed && (wanted.Everything? || (wanted.Only? && target in wanted.ids)))
    ensures wanted.Only? ==> STAR !in ClampList(wanted, allowed)
    ensures STAR !in allowed ==> NamesOnly(Only(ClampList(wanted, allowed)), allowed)
  {
    if wanted.Only? {
      WithoutStarIn(wanted.ids);
      MembersIn(WithoutStar(wanted.ids), allowed);
    }
  }

  // ---- Defaults and normalisation. ----

  function AllAdminAccess(): Access {
    map entity | entity in ENTITIES :: ["read", "write", "admin"]
  }

  function MemberAccess(): Access {
    map entity | entity in MEMBER_ENTITIES + ["users", "reports"] ::
      if entity in MEMBER_ENTITIES then ["read", "write"] else ["read"]
  }

  function DefaultGrant(s: Subject): Grant {
    if s.admin then Grant(Domains(Everything, Everything), AllAdminAccess())
    else Grant(Domains(Only(s.orgIds), Only(s.realmIds)), MemberAccess())
  }

  function DefaultDaemonGrant(realmIds: seq<string>, orgIds: seq<string>): Grant {
    Grant(Domains(if |orgIds| > 0 then Only(orgIds) else Absent, Only(realmIds)),
          map["daemons" := ["write"], "dispatch" := ["write"], "runs" := ["read", "write"]])
  }

  /** The `access` field of stored or requested permissions: missing, a legacy word, or a map. */
  datatype RawAccess = NoAccess | Word(text: string) | Levels(levels: Access)

  /** Permissions as stored or requested; `orgIds` is the legacy list. */
  datatype RawGrant = NotAnObject | RawGrant(domains: Option<Domains>, access: RawAccess, orgIds: Option<seq<string>>)

  function NonEmptyIds(ids: seq<string>): seq<string> {
    if |ids| == 0 then [] else (if |ids[0]| > 0 then [ids[0]] else []) + NonEmptyIds(ids[1..])
  }

  function OrElse(d: Domain, fallback: Domain): Domain {
    if !d.Absent? then d else if !fallback.Absent? then fallback else Only([])
  }

  function Normalize(raw: RawGrant, fallback: Grant): Grant {
    match raw
    case NotAnObject => fallback
    case RawGrant(domains, access, orgIds) =>
      if domains.None? && !access.Levels? && (orgIds.Some? || access.Word?) then
        var orgs := if orgIds.Some? then Only(NonEmptyIds(orgIds.value))
                    else if fallback.domains.orgs.Everything? then Everything else Only(Ids(fallback.domains.orgs));
        Grant(Domains(orgs, fallback.domains.realms),
              if access == Word("full") || access == Word("admin") || access == Word("*") then AllAdminAccess()
              else fallback.access)
      else
        var d := if domains.Some? then domains.value else Domains(Absent, Absent);
        Grant(Domains(OrElse(d.orgs, fallback.domains.orgs), OrElse(d.realms, fallback.domains.realms)),
              if access.Levels? then fallback.access + access.levels else fallback.access)
  }
}
