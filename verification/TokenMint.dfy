/**
 * Minting tokens under a caller's stored grant (src/controllers/tokens_controller.ts), how a stored grant is read when
 * its token is used (src/auth/assert_grant.ts), and narrowing a grant to the realm a daemon enrols into
 * (src/lib/enroll_grant.ts).
 */
module TokenMint {
  import opened Wrappers
  import opened Grants
  import opened Sequences

  predicate IsEmptyRequest(raw: RawGrant) {
    raw.NotAnObject? || raw == RawGrant(None, NoAccess, None)
  }

  /** The grant stored on a new user token; `caller` is the stored grant of the token making the request, if any. */
  function ResolveUserGrant(s: Subject, raw: RawGrant, caller: Option<Grant>): Grant {
    match caller
    case Some(ceiling) => ClampToGrant(Wanted(s, raw), ceiling)
    case None => Wanted(s, raw)
  }

  /** What a request comes down to before the caller's own grant is looked at. */
  function Wanted(s: Subject, raw: RawGrant): Grant {
    var fallback := DefaultGrant(s);
    if IsEmptyRequest(raw) then fallback else ClampToSubject(Normalize(raw, fallback), s)
  }

  /** One mint: whose it is and what was asked for. */
  datatype Mint = Mint(subject: Subject, raw: RawGrant)

  /** Each token minted under the previous one's stored grant. */
  function MintChain(first: Grant, mints: seq<Mint>): Grant {
    if |mints| == 0 then first
    else
      var last := mints[|mints| - 1];
      ResolveUserGrant(last.subject, last.raw, Some(MintChain(first, mints[..|mints| - 1])))
  }

  /**
   * However long the chain and whatever is asked for, the last token's stored lists allow nothing the first's did not.
   * How a stored grant is read is another matter: see below.
   */
  lemma {:induction false} ChainNeverWidens(first: Grant, mints: seq<Mint>)
    ensures Within(MintChain(first, mints), first)
  {
    if |mints| > 0 {
      var last := mints[|mints| - 1];
      var before := MintChain(first, mints[..|mints| - 1]);
      ChainNeverWidens(first, mints[..|mints| - 1]);
      ClampWithinCeiling(Wanted(last.subject, last.raw), before);
    }
  }

  /**
   * A non-admin's token names only their own orgs and realms, with or without a caller's grant (ids are never a star).
   */
  lemma MintedStaysWithinSubject(s: Subject, raw: RawGrant, caller: Option<Grant>)
    requires !s.admin && STAR !in s.orgIds && STAR !in s.realmIds
    ensures var d := ResolveUserGrant(s, raw, caller).domains;
            NamesOnly(d.orgs, s.orgIds) && NamesOnly(d.realms, s.realmIds)
  {
    var wanted := Wanted(s, raw);
    var normal := Normalize(raw, DefaultGrant(s));
    forall t
      ensures DomainAllows(wanted.domains.orgs, t) ==> t in s.orgIds
      ensures DomainAllows(wanted.domains.realms, t) ==> t in s.realmIds
    {
      ClampListExact(normal.domains.orgs, s.orgIds, t);
      ClampListExact(normal.domains.realms, s.realmIds, t);
    }
    if caller.Some? {
      ClampWithinCeiling(wanted, caller.value);
    }
  }

  /** Both at once along a chain that ends with a non-admin's mint. */
  lemma ChainStaysWithinSubject(first: Grant, mints: seq<Mint>)
    requires |mints| > 0
    requires var s := mints[|mints| - 1].subject; !s.admin && STAR !in s.orgIds && STAR !in s.realmIds
    ensures var s := mints[|mints| - 1].subject;
            var g := MintChain(first, mints);
            && Within(g, first)
            && NamesOnly(g.domains.orgs, s.orgIds) && NamesOnly(g.domains.realms, s.realmIds)
  {
    var last := mints[|mints| - 1];
    ChainNeverWidens(first, mints);
    MintedStaysWithinSubject(last.subject, last.raw, Some(MintChain(first, mints[..|mints| - 1])));
  }

  /** Asking again for what one already holds under the same caller's grant gives the same domains and levels back. */
  lemma MintIsStableUnderCeiling(s: Subject, raw: RawGrant, ceiling: Grant)
    ensures ClampToGrant(ResolveUserGrant(s, raw, Some(ceiling)), ceiling) == ResolveUserGrant(s, raw, Some(ceiling))
  {
    ClampTwice(Wanted(s, raw), ceiling);
  }

  // ---- How a stored grant is read. ----

  /** Whose token is used: a person's, with their role and orgs now, or a daemon's, with the realm it is used for. */
  datatype Reader = Person(subject: Subject) | Daemon(realm: Option<string>)

  function AsRaw(g: Grant): RawGrant {
    RawGrant(Some(g.domains), Levels(g.access), None)
  }

  /** What stands in for whatever a stored grant does not name; a person's realms are not looked up for it. */
  function FallbackOf(reader: Reader): Grant {
    match reader
    case Person(s) => DefaultGrant(s.(realmIds := []))
    case Daemon(realm) => DefaultDaemonGrant(if realm.Some? then [realm.value] else [], [])
  }

  /** The grant every check goes by; a token without a stored one has the fallback. */
  function Effective(stored: Option<Grant>, reader: Reader): Grant {
    match stored
    case Some(g) => Normalize(AsRaw(g), FallbackOf(reader))
    case None => FallbackOf(reader)
  }

  lemma EffectiveLevels(g: Grant, reader: Reader, entity: string)
    ensures LevelsOf(Effective(Some(g), reader).access, entity) ==
            LevelsOf(if entity in g.access then g.access else FallbackOf(reader).access, entity)
  {
  }

  /**
   * The clamp leaves an entity's reading alone: something of what was wanted on it is kept, or what stands in for it is
   * no more than the ceiling allows.
   */
  predicate Settles(wanted: Access, ceiling: Access, fallback: Access, entity: string) {
    || entity !in ceiling
    || MaxRank(LevelsOf(fallback, entity)) <= MaxRank(LevelsOf(ceiling, entity))
    || |ClampLevels(wanted, ceiling, entity)| > 0
  }

  ghost predicate AllSettle(wanted: Access, ceiling: Access, fallback: Access) {
    forall entity :: Settles(wanted, ceiling, fallback, entity)
  }

  lemma EntityWithinIff(wanted: Grant, ceiling: Grant, reader: Reader, entity: string)
    ensures var minted := ClampToGrant(wanted, ceiling);
            MaxRank(LevelsOf(Effective(Some(minted), reader).access, entity))
              <= MaxRank(LevelsOf(Effective(Some(ceiling), reader).access, entity))
            <==> Settles(wanted.access, ceiling.access, FallbackOf(reader).access, entity)
  {
    var minted := ClampToGrant(wanted, ceiling);
    EffectiveLevels(minted, reader, entity);
    EffectiveLevels(ceiling, reader, entity);
    var kept := ClampLevels(wanted.access, ceiling.access, entity);
    assert entity in minted.access <==> |kept| > 0;
    CappedMax(LevelsOf(wanted.access, entity), MaxRank(LevelsOf(ceiling.access, entity)));
    if |kept| > 0 {
      KeptUnderNamed(LevelsOf(wanted.access, entity), MaxRank(LevelsOf(ceiling.access, entity)));
      assert entity in ceiling.access;
    }
  }

  lemma {:induction false} KeptUnderNamed(levels: seq<string>, cap: nat)
    requires |Capped(levels, cap)| > 0
    ensures cap > 0
  {
    if !(0 < LevelRank(levels[0]) <= cap) {
      KeptUnderNamed(levels[1..], cap);
    }
  }

  lemma EffectiveDomainsWithin(wanted: Grant, ceiling: Grant, reader: Reader)
    requires !wanted.domains.orgs.Absent? && !wanted.domains.realms.Absent?
    ensures var minted, read := ClampToGrant(wanted, ceiling), Effective(Some(ceiling), reader).domains;
            && Effective(Some(minted), reader).domains == minted.domains
            && DomainWithin(minted.domains.orgs, read.orgs) && DomainWithin(minted.domains.realms, read.realms)
  {
    forall t
      ensures DomainAllows(ClampDomain(wanted.domains.orgs, ceiling.domains.orgs), t) ==>
                DomainAllows(ceiling.domains.orgs, t)
      ensures DomainAllows(ClampDomain(wanted.domains.realms, ceiling.domains.realms), t) ==>
                DomainAllows(ceiling.domains.realms, t)
    {
      ClampDomainIsIntersection(wanted.domains.orgs, ceiling.domains.orgs, t);
      ClampDomainIsIntersection(wanted.domains.realms, ceiling.domains.realms, t);
    }
  }

  lemma WantedNamesDomains(s: Subject, raw: RawGrant)
    ensures !Wanted(s, raw).domains.orgs.Absent? && !Wanted(s, raw).domains.realms.Absent?
  {
  }

  /**
   * One mint, as both tokens are read: the new token allows nothing its ceiling does not exactly when on every entity
   * the clamp keeps something of what was wanted, or what stands in for the entity is no more than the ceiling allows.
   */
  lemma MintWithinIff(s: Subject, raw: RawGrant, ceiling: Grant, reader: Reader)
    ensures Within(Effective(Some(ResolveUserGrant(s, raw, Some(ceiling))), reader), Effective(Some(ceiling), reader))
            <==> AllSettle(Wanted(s, raw).access, ceiling.access, FallbackOf(reader).access)
  {
    var wanted := Wanted(s, raw);
    WantedNamesDomains(s, raw);
    EffectiveDomainsWithin(wanted, ceiling, reader);
    forall entity
      ensures MaxRank(LevelsOf(Effective(Some(ClampToGrant(wanted, ceiling)), reader).access, entity))
                <= MaxRank(LevelsOf(Effective(Some(ceiling), reader).access, entity))
              <==> Settles(wanted.access, ceiling.access, FallbackOf(reader).access, entity)
    {
      EntityWithinIff(wanted, ceiling, reader, entity);
    }
  }

  /** A request that lists `read` wherever the ceiling lists a level it knows leaves every entity settled. */
  lemma ReadKeepsSettled(wanted: Access, ceiling: Access, fallback: Access)
    requires forall entity :: entity in ceiling ==>
               MaxRank(LevelsOf(ceiling, entity)) > 0 && "read" in LevelsOf(wanted, entity)
    ensures AllSettle(wanted, ceiling, fallback)
  {
    forall entity ensures Settles(wanted, ceiling, fallback, entity) {
      if entity in ceiling {
        ReadIsKept(LevelsOf(wanted, entity), MaxRank(LevelsOf(ceiling, entity)));
      }
    }
  }

  lemma {:induction false} ReadIsKept(levels: seq<string>, cap: nat)
    requires "read" in levels && cap > 0
    ensures |Capped(levels, cap)| > 0
  {
    if levels[0] != "read" {
      HeadOrTail(levels);
      ReadIsKept(levels[1..], cap);
    }
  }

  /**
   * A person whose token may read teams asks for `teams: ['write']` alone: the new token is read as one that writes.
   */
  lemma WriteAloneReadsBackWider(s: Subject)
    requires !s.admin
    ensures var ceiling := Grant(Domains(Only(s.orgIds), Only(s.realmIds)), map["teams" := ["read"]]);
            var asked := RawGrant(None, Levels(map["teams" := ["write"]]), None);
            var minted := ResolveUserGrant(s, asked, Some(ceiling));
            && "teams" !in minted.access
            && HasAccess(Effective(Some(minted), Person(s)).access, "teams", "write")
            && !HasAccess(Effective(Some(ceiling), Person(s)).access, "teams", "write")
  {
    var ceiling := Grant(Domains(Only(s.orgIds), Only(s.realmIds)), map["teams" := ["read"]]);
    var asked := RawGrant(None, Levels(map["teams" := ["write"]]), None);
    var minted := ResolveUserGrant(s, asked, Some(ceiling));
    AskedTeamsOnly(s);
    EffectiveLevels(minted, Person(s), "teams");
    EffectiveLevels(ceiling, Person(s), "teams");
    MemberTeams(s);
    HasAccessByRank(Effective(Some(minted), Person(s)).access, "teams", "write");
    HasAccessByRank(Effective(Some(ceiling), Person(s)).access, "teams", "write");
    assert MaxRank(["write"]) == 2 && MaxRank(["read", "write"][1..]) == 2 && MaxRank(["read"]) == 1;
  }

  lemma AskedTeamsOnly(s: Subject)
    ensures var ceiling := Grant(Domains(Only(s.orgIds), Only(s.realmIds)), map["teams" := ["read"]]);
            var asked := RawGrant(None, Levels(map["teams" := ["write"]]), None);
            s.admin || "teams" !in ResolveUserGrant(s, asked, Some(ceiling)).access
  {
    NormalizeLevels(RawGrant(None, Levels(map["teams" := ["write"]]), None), DefaultGrant(s), "teams");
    assert MaxRank(["read"]) == 1 && Capped(["write"], 1) == [];
  }

  lemma MemberTeams(s: Subject)
    requires !s.admin
    ensures LevelsOf(FallbackOf(Person(s)).access, "teams") == ["read", "write"]
  {
    assert MEMBER_ENTITIES[0] == "teams";
  }

  /** At every mint of the chain every entity settles, as read by `reader`. */
  ghost predicate ChainSettles(first: Grant, mints: seq<Mint>, reader: Reader) {
    forall k :: 0 <= k < |mints| ==> MintSettles(first, mints, reader, k)
  }

  ghost predicate MintSettles(first: Grant, mints: seq<Mint>, reader: Reader, k: int)
    requires 0 <= k < |mints|
  {
    AllSettle(Wanted(mints[k].subject, mints[k].raw).access, MintChain(first, mints[..k]).access,
        FallbackOf(reader).access)
  }

  /** As tokens are read: along a chain in which every entity settles at every mint, nothing is ever gained. */
  lemma {:induction false} EffectiveChainNeverWidens(first: Grant, mints: seq<Mint>, reader: Reader)
    requires ChainSettles(first, mints, reader)
    ensures Within(Effective(Some(MintChain(first, mints)), reader), Effective(Some(first), reader))
  {
    if |mints| > 0 {
      var earlier, last := mints[..|mints| - 1], mints[|mints| - 1];
      forall k | 0 <= k < |earlier| ensures MintSettles(first, earlier, reader, k) {
        assert MintSettles(first, mints, reader, k);
        assert earlier[..k] == mints[..k];
      }
      EffectiveChainNeverWidens(first, earlier, reader);
      assert MintSettles(first, mints, reader, |mints| - 1);
      MintWithinIff(last.subject, last.raw, MintChain(first, earlier), reader);
    }
  }

  /** And reading adds no org and no realm: a non-admin's minted token names only their own, as it is read too. */
  lemma EffectiveStaysWithinSubject(s: Subject, raw: RawGrant, ceiling: Grant, reader: Reader)
    requires !s.admin && STAR !in s.orgIds && STAR !in s.realmIds
    ensures var d := Effective(Some(ResolveUserGrant(s, raw, Some(ceiling))), reader).domains;
            NamesOnly(d.orgs, s.orgIds) && NamesOnly(d.realms, s.realmIds)
  {
    WantedNamesDomains(s, raw);
    EffectiveDomainsWithin(Wanted(s, raw), ceiling, reader);
    MintedStaysWithinSubject(s, raw, Some(ceiling));
  }

  // ---- Realm tokens. ----

  datatype MintError = NoRealm | OutsideCaller | NotMember(realmId: string)

  /** `[...new Set([...a, ...b])]` */
  function Distinct(ids: seq<string>): seq<string> {
    AddNew([], ids)
  }

  function RequestedRealms(fromBody: seq<string>, fromPermissions: Domain): seq<string> {
    Distinct(fromBody + WithoutStar(Ids(fromPermissions)))
  }

  /** Which realms a realm token may be minted for; `memberOf` are the caller's realms, checked one by one. */
  method ResolveRealmIds(fromBody: seq<string>, fromPermissions: Domain, caller: Option<Grant>, memberOf: set<string>)
    returns (r: Result<seq<string>, MintError>)
    ensures var ids := RequestedRealms(fromBody, fromPermissions);
            var bounded := caller.Some? && caller.value.domains.realms.Only?
                && STAR !in caller.value.domains.realms.ids;
            var outside := bounded && exists x :: x in ids && x !in caller.value.domains.realms.ids;
            && (r == Failure(NoRealm) <==> ids == [])
            && (r == Failure(OutsideCaller) <==> ids != [] && outside)
            && (r.Success? <==> ids != [] && !outside && forall x :: x in ids ==> x in memberOf)
            && (r.Success? ==> r.value == ids)
            && (r.Failure? && r.error.NotMember? ==> r.error.realmId in ids && r.error.realmId !in memberOf)
  {
    var ids := RequestedRealms(fromBody, fromPermissions);
    if |ids| == 0 {
      return Failure(NoRealm);
    }
    if caller.Some? && caller.value.domains.realms.Only? && STAR !in caller.value.domains.realms.ids {
      if exists x :: x in ids && x !in caller.value.domains.realms.ids {
        return Failure(OutsideCaller);
      }
    }
    for i := 0 to |ids|
      invariant forall k :: 0 <= k < i ==> ids[k] in memberOf
    {
      if ids[i] !in memberOf {
        return Failure(NotMember(ids[i]));
      }
    }
    return Success(ids);
  }

  /** The grant stored on a realm token: the requested permissions over the daemon default, realms set outright. */
  function RealmGrant(ids: seq<string>, raw: Option<RawGrant>): Grant {
    var fallback := DefaultDaemonGrant(ids, []);
    var g := if raw.Some? then Normalize(raw.value, fallback) else fallback;
    g.(domains := g.domains.(realms := Only(ids)))
  }

  /**
   * A minted realm token covers exactly the requested realms, all of them the caller's own; and they lie within the
   * caller's grant exactly when that grant has a realm domain at all.
   */
  lemma RealmTokenCovers(fromBody: seq<string>, fromPermissions: Domain, raw: Option<RawGrant>, caller: Grant,
                         memberOf: set<string>)
    requires STAR !in memberOf
    requires var ids := RequestedRealms(fromBody, fromPermissions);
             && ids != [] && (forall x :: x in ids ==> x in memberOf)
             && (caller.domains.realms.Only? && STAR !in caller.domains.realms.ids ==>
                   forall x :: x in ids ==> x in caller.domains.realms.ids)
    ensures var realms := RealmGrant(RequestedRealms(fromBody, fromPermissions), raw).domains.realms;
            && (forall t :: DomainAllows(realms, t) <==> t in fromBody || (t in Ids(fromPermissions) && t != STAR))
            && (forall t :: DomainAllows(realms, t) ==> t in memberOf)
            && (DomainWithin(realms, caller.domains.realms) <==> !caller.domains.realms.Absent?)
  {
    var ids := RequestedRealms(fromBody, fromPermissions);
    AddNewAdds([], fromBody + WithoutStar(Ids(fromPermissions)));
    WithoutStarIn(Ids(fromPermissions));
    assert DomainAllows(Only(ids), ids[0]);
  }

  /** The orgs a request comes down to: none are implied. */
  function RequestedOrgs(raw: Option<RawGrant>): Domain {
    match raw
    case Some(RawGrant(Some(domains), _, _)) => if domains.orgs.Absent? then Only([]) else domains.orgs
    case Some(RawGrant(None, Levels(_), _)) => Only([])
    case Some(RawGrant(None, _, Some(orgIds))) => Only(NonEmptyIds(orgIds))
    case Some(RawGrant(None, _, None)) => Only([])
    case _ => Absent
  }

  /** The levels a request comes down to on one entity: those asked for, or the daemon default's. */
  function RequestedLevels(raw: Option<RawGrant>, entity: string): seq<string> {
    var daemon := LevelsOf(DefaultDaemonGrant([], []).access, entity);
    match raw
    case Some(RawGrant(_, Levels(levels), _)) => if entity in levels then levels[entity] else daemon
    case Some(RawGrant(None, Word(word), _)) =>
      if word == "full" || word == "admin" || word == "*" then LevelsOf(AllAdminAccess(), entity) else daemon
    case _ => daemon
  }

  lemma RealmGrantDomains(ids: seq<string>, raw: Option<RawGrant>)
    ensures RealmGrant(ids, raw).domains == Domains(RequestedOrgs(raw), Only(ids))
  {
  }

  lemma NormalizeLevels(raw: RawGrant, fallback: Grant, entity: string)
    ensures LevelsOf(Normalize(raw, fallback).access, entity) ==
            match raw
            case RawGrant(_, Levels(levels), _) =>
              if entity in levels then levels[entity] else LevelsOf(fallback.access, entity)
            case RawGrant(None, Word(word), _) =>
              var all := word == "full" || word == "admin" || word == "*";
              LevelsOf(if all then AllAdminAccess() else fallback.access, entity)
            case _ => LevelsOf(fallback.access, entity)
  {
  }

  lemma RealmGrantLevels(ids: seq<string>, raw: Option<RawGrant>, entity: string)
    ensures LevelsOf(RealmGrant(ids, raw).access, entity) == RequestedLevels(raw, entity)
  {
    var fallback := DefaultDaemonGrant(ids, []);
    assert fallback.access == DefaultDaemonGrant([], []).access;
    if raw.Some? {
      NormalizeLevels(raw.value, fallback, entity);
    }
  }

  lemma RealmGrantRead(ids: seq<string>, raw: Option<RawGrant>, realm: Option<string>, entity: string)
    ensures var read := Effective(Some(RealmGrant(ids, raw)), Daemon(realm));
            && read.domains.realms == Only(ids)
            && (forall t :: DomainAllows(read.domains.orgs, t) <==> DomainAllows(RequestedOrgs(raw), t))
            && LevelsOf(read.access, entity) == RequestedLevels(raw, entity)
  {
    RealmGrantDomains(ids, raw);
    RealmGrantLevels(ids, raw, entity);
    EffectiveLevels(RealmGrant(ids, raw), Daemon(realm), entity);
    DaemonNamesKept(ids, raw);
  }

  /** Whatever is requested, the stored realm grant names every entity of the daemon default. */
  lemma DaemonNamesKept(ids: seq<string>, raw: Option<RawGrant>)
    ensures DefaultDaemonGrant([], []).access.Keys <= RealmGrant(ids, raw).access.Keys
  {
    DaemonEntities("");
    if raw.Some? && raw.value.RawGrant? {
      NormalizeSettles(raw.value, DefaultDaemonGrant(ids, []));
    }
  }

  /** The caller's realm domain, as minting sees it, is there, or what stands in for it covers the realms. */
  ghost predicate RealmsCovered(ids: seq<string>, caller: Option<Grant>, reader: Reader) {
    || (caller.Some? && !caller.value.domains.realms.Absent?)
    || forall x :: x in ids ==> DomainAllows(FallbackOf(reader).domains.realms, x)
  }

  /**
   * As both tokens are read, a realm token lies within its caller's whole grant exactly when the caller's realm domain
   * covers the realms and what was asked for, or else the daemon default, lies within the caller's grant: only the
   * realms are compared when the token is minted.
   */
  lemma RealmTokenWithinIff(fromBody: seq<string>, fromPermissions: Domain, raw: Option<RawGrant>,
                            caller: Option<Grant>, reader: Reader, realm: Option<string>)
    requires var ids := RequestedRealms(fromBody, fromPermissions);
             && ids != [] && STAR !in ids
             && (caller.Some? && caller.value.domains.realms.Only? && STAR !in caller.value.domains.realms.ids ==>
                   forall x :: x in ids ==> x in caller.value.domains.realms.ids)
    ensures var ids := RequestedRealms(fromBody, fromPermissions);
            var holder := Effective(caller, reader);
            Within(Effective(Some(RealmGrant(ids, raw)), Daemon(realm)), holder) <==>
            && RealmsCovered(ids, caller, reader)
            && DomainWithin(RequestedOrgs(raw), holder.domains.orgs)
            && forall entity :: MaxRank(RequestedLevels(raw, entity)) <= MaxRank(LevelsOf(holder.access, entity))
  {
    var ids := RequestedRealms(fromBody, fromPermissions);
    var read, holder := Effective(Some(RealmGrant(ids, raw)), Daemon(realm)), Effective(caller, reader);
    forall entity
      ensures LevelsOf(read.access, entity) == RequestedLevels(raw, entity)
      ensures read.domains.realms == Only(ids)
      ensures forall t :: DomainAllows(read.domains.orgs, t) <==> DomainAllows(RequestedOrgs(raw), t)
    {
      RealmGrantRead(ids, raw, realm, entity);
    }
    RealmGrantRead(ids, raw, realm, "");
    RealmsWithinIff(ids, caller, reader);
  }

  lemma RealmsWithinIff(ids: seq<string>, caller: Option<Grant>, reader: Reader)
    requires ids != [] && STAR !in ids
    requires caller.Some? && caller.value.domains.realms.Only? && STAR !in caller.value.domains.realms.ids ==>
               forall x :: x in ids ==> x in caller.value.domains.realms.ids
    ensures DomainWithin(Only(ids), Effective(caller, reader).domains.realms) <==> RealmsCovered(ids, caller, reader)
  {
    var holder := Effective(caller, reader).domains.realms;
    assert forall x :: x in ids ==> DomainAllows(Only(ids), x);
    if caller.Some? && !caller.value.domains.realms.Absent? {
      assert holder == caller.value.domains.realms;
    } else {
      assert forall t :: DomainAllows(holder, t) <==> DomainAllows(FallbackOf(reader).domains.realms, t);
    }
  }

  /** A caller whose token names daemons for reading only mints a realm token that writes them. */
  lemma RealmTokenAddsLevels(s: Subject, realm: Option<string>)
    ensures var caller := Grant(Domains(Only([]), Only(["r"])), map["daemons" := ["read"]]);
            var minted := RealmGrant(RequestedRealms(["r"], Absent), None);
            && HasAccess(Effective(Some(minted), Daemon(realm)).access, "daemons", "write")
            && !HasAccess(Effective(Some(caller), Person(s)).access, "daemons", "write")
            && !Within(Effective(Some(minted), Daemon(realm)), Effective(Some(caller), Person(s)))
  {
    var caller := Grant(Domains(Only([]), Only(["r"])), map["daemons" := ["read"]]);
    var ids := RequestedRealms(["r"], Absent);
    var minted := RealmGrant(ids, None);
    RealmGrantRead(ids, None, realm, "daemons");
    EffectiveLevels(caller, Person(s), "daemons");
    HasAccessByRank(Effective(Some(minted), Daemon(realm)).access, "daemons", "write");
    HasAccessByRank(Effective(Some(caller), Person(s)).access, "daemons", "write");
    assert MaxRank(["write"]) == 2 && MaxRank(["read"]) == 1;
  }

  // ---- Enrolment. ----

  datatype EnrollError = RealmRequired | NotGranted | MissingDaemonsWrite

  datatype Enrolled = Enrolled(realmId: string, permissions: Grant)

  /** `token_permissions ?? {}` */
  function StoredOrEmpty(permissions: RawGrant): RawGrant {
    if permissions.NotAnObject? then RawGrant(None, NoAccess, None) else permissions
  }

  /** Empty text stands for a missing realm id. */
  function ResolveEnrollment(permissions: RawGrant, authRealm: string,
                             requestedRealm: string): Result<Enrolled, EnrollError> {
    var realmId := if |requestedRealm| > 0 then requestedRealm else authRealm;
    if |realmId| == 0 then Failure(RealmRequired)
    else
      var g := Normalize(StoredOrEmpty(permissions), DefaultDaemonGrant([realmId], []));
      if !DomainAllows(g.domains.realms, realmId) then Failure(NotGranted)
      else if !HasAccess(g.access, "daemons", "write") then Failure(MissingDaemonsWrite)
      else Success(Enrolled(realmId, g.(domains := g.domains.(realms := Only([realmId])))))
  }

  /**
   * The narrowed grant covers its one realm and no other exactly when that realm is not called `*`, in which case it
   * covers all of them; it never allows more than the token's grant, and keeps `daemons:write`.
   */
  lemma EnrollmentNarrows(permissions: RawGrant, authRealm: string, requestedRealm: string)
    ensures match ResolveEnrollment(permissions, authRealm, requestedRealm)
            case Failure(_) => true
            case Success(e) =>
              && ((forall t :: DomainAllows(e.permissions.domains.realms, t) <==> t == e.realmId) <==>
                   e.realmId != STAR)
              && (e.realmId == STAR ==> forall t :: DomainAllows(e.permissions.domains.realms, t))
              && Within(e.permissions, Normalize(StoredOrEmpty(permissions), DefaultDaemonGrant([e.realmId], [])))
              && HasAccess(e.permissions.access, "daemons", "write")
  {
    match ResolveEnrollment(permissions, authRealm, requestedRealm)
    case Failure(_) =>
    case Success(e) =>
      var g := Normalize(StoredOrEmpty(permissions), DefaultDaemonGrant([e.realmId], []));
      if e.realmId == STAR {
        assert DomainAllows(g.domains.realms, STAR);
        assert forall t :: DomainAllows(g.domains.realms, t);
        assert DomainAllows(e.permissions.domains.realms, "");
      }
  }

  /** The realm domain a token stores, if it stores one. */
  function StoredRealms(permissions: RawGrant): Domain {
    match permissions
    case RawGrant(Some(domains), _, _) => domains.realms
    case _ => Absent
  }

  /**
   * Resolving accepts the realm `*` exactly from tokens that may write daemons and hold `*`, or no realm domain at all.
   */
  lemma StarEnrolsIff(permissions: RawGrant, authRealm: string)
    ensures ResolveEnrollment(permissions, authRealm, STAR).Success? <==>
            && (StoredRealms(permissions).Absent? || Unrestricted(StoredRealms(permissions)))
            && HasAccess(Normalize(StoredOrEmpty(permissions), DefaultDaemonGrant([STAR], [])).access, "daemons",
                 "write")
  {
    assert STAR in [STAR];
  }

  /** A token that holds `*` resolves to the realm called `*`, and the result holds `*` again. */
  lemma StarEnrols()
    ensures var stored := RawGrant(Some(Domains(Only([]), Everything)), Levels(map["daemons" := ["write"]]), None);
            var r := ResolveEnrollment(stored, "", STAR);
            r.Success? && r.value.realmId == STAR && DomainAllows(r.value.permissions.domains.realms, "any realm")
  {
    var stored := RawGrant(Some(Domains(Only([]), Everything)), Levels(map["daemons" := ["write"]]), None);
    var g := Normalize(stored, DefaultDaemonGrant([STAR], []));
    assert LevelsOf(g.access, "daemons") == ["write"];
    assert LevelRank(LevelsOf(g.access, "daemons")[0]) == 2;
    StarEnrolsIff(stored, "");
    assert STAR in [STAR];
  }

  /** The stored result is a fixed point: enrolling again with it gives the same realm and the same grant. */
  lemma EnrollmentIsStable(permissions: RawGrant, authRealm: string, requestedRealm: string)
    ensures match ResolveEnrollment(permissions, authRealm, requestedRealm)
            case Failure(_) => true
            case Success(e) => ResolveEnrollment(AsRaw(e.permissions), e.realmId, "") == Success(e)
  {
    match ResolveEnrollment(permissions, authRealm, requestedRealm)
    case Failure(_) =>
    case Success(e) =>
      var fallback := DefaultDaemonGrant([e.realmId], []);
      DaemonEntities(e.realmId);
      NormalizeSettles(StoredOrEmpty(permissions), fallback);
      NormalizeReadsBackIff(e.permissions, fallback);
  }

  /** A normalised grant names both its domains and every entity its fallback names. */
  lemma NormalizeSettles(raw: RawGrant, fallback: Grant)
    requires raw.RawGrant? && fallback.access.Keys <= AllAdminAccess().Keys
    ensures !Normalize(raw, fallback).domains.orgs.Absent?
    ensures fallback.access.Keys <= Normalize(raw, fallback).access.Keys
  {
  }

  lemma DaemonEntities(realmId: string)
    ensures DefaultDaemonGrant([realmId], []).access.Keys <= AllAdminAccess().Keys
  {
    assert ENTITIES[7] == "daemons" && ENTITIES[9] == "dispatch" && ENTITIES[8] == "runs";
  }

  /**
   * A stored grant that names both its domains is read back with the same domains, and as it is if and only if it
   * names every entity of the fallback: the others come from the fallback.
   */
  lemma NormalizeReadsBackIff(g: Grant, fallback: Grant)
    requires !g.domains.orgs.Absent? && !g.domains.realms.Absent?
    ensures var again := Normalize(AsRaw(g), fallback);
            && again.domains == g.domains
            && (forall entity ::
                 LevelsOf(again.access, entity) ==
                 LevelsOf(if entity in g.access then g.access else fallback.access, entity))
            && (again == g <==> fallback.access.Keys <= g.access.Keys)
  {
    if fallback.access.Keys <= g.access.Keys {
      assert fallback.access + g.access == g.access;
    }
  }
}
