/**
 * Which teams use which agents (src/lib/agent_workflow.ts parse_ref, extract_agents, build_usage).
 * A workflow is given as parsed JSON, or None when it does not parse.
 */
module AgentUsage {
  import opened Wrappers
  import opened Json
  import opened Text
  import opened Sequences
  import opened Sorting

  // ---- Agent refs. ----

  datatype AgentRef = AgentRef(name: string, version: Option<string>)

  function LastAt(s: string): Option<nat> {
    if |s| == 0 then None
    else if s[|s| - 1] == '@' then Some(|s| - 1)
    else LastAt(s[..|s| - 1])
  }

  function ParseRef(s: string): AgentRef {
    match LastAt(s)
    case Some(at) =>
      if at == 0 || at + 1 >= |s| then AgentRef(s, None) else AgentRef(s[..at], Some(s[at + 1..]))
    case None => AgentRef(s, None)
  }

  lemma {:induction false} LastAtIs(s: string)
    ensures match LastAt(s)
            case Some(at) => at < |s| && s[at] == '@' && forall i :: at < i < |s| ==> s[i] != '@'
            case None => '@' !in s
  {
    if |s| > 0 && s[|s| - 1] != '@' {
      LastAtIs(s[..|s| - 1]);
      assert s == s[..|s| - 1] + [s[|s| - 1]];
    }
  }

  lemma LastAtUnique(s: string, at: nat)
    requires at < |s| && s[at] == '@' && forall i :: at < i < |s| ==> s[i] != '@'
    ensures LastAt(s) == Some(at)
  {
    LastAtIs(s);
  }

  /** A ref splits into a pair exactly when it is `name@version` with both parts there and no `@` in the version. */
  lemma ParseRefIff(s: string, name: string, version: string)
    ensures ParseRef(s) == AgentRef(name, Some(version)) <==>
            s == name + "@" + version && |name| > 0 && |version| > 0 && '@' !in version
  {
    LastAtIs(s);
    if ParseRef(s) == AgentRef(name, Some(version)) {
      var at := LastAt(s).value;
      assert s == s[..at] + [s[at]] + s[at + 1..];
      forall c | c in version ensures c != '@' {
        var i :| 0 <= i < |version| && version[i] == c;
        assert s[at + 1 + i] == c;
      }
    }
    if s == name + "@" + version && |name| > 0 && |version| > 0 && '@' !in version {
      var at := |name|;
      forall i | at < i < |s| ensures s[i] != '@' {
        assert s[i] == version[i - at - 1];
      }
      LastAtUnique(s, at);
      assert s[..at] == name && s[at + 1..] == version;
    }
  }

  /** Anything else keeps its whole text as the name. */
  lemma ParseRefWhole(s: string)
    ensures ParseRef(s).version.None? ==> ParseRef(s).name == s
    ensures ParseRef(s).version.Some? ==> s == ParseRef(s).name + "@" + ParseRef(s).version.value
  {
    if ParseRef(s).version.Some? {
      ParseRefIff(s, ParseRef(s).name, ParseRef(s).version.value);
    }
  }

  // ---- The refs of a workflow. ----

  function PhaseRef(phase: Json): seq<string> {
    match (Field(phase, "type"), Field(phase, "agent"))
    case (Some(JString("team")), _) => []
    case (_, Some(JString(agent))) => if |Trim(agent)| > 0 then [Trim(agent)] else []
    case _ => []
  }

  function PhaseRefs(phases: seq<Json>): seq<string> {
    if |phases| == 0 then [] else PhaseRefs(phases[..|phases| - 1]) + PhaseRef(phases[|phases| - 1])
  }

  function BucketRefs(bucket: Option<Json>): seq<string> {
    if bucket.Some? && bucket.value.JArray? then PhaseRefs(bucket.value.items) else []
  }

  /** Every ref a workflow mentions, phases then support, each once. */
  function Agents(workflow: Option<Json>): seq<string> {
    match workflow
    case None => []
    case Some(w) => AddNew([], BucketRefs(Field(w, "phases")) + BucketRefs(Field(w, "support")))
  }

  lemma {:induction false} AddNewSplits<T>(ids: seq<T>, a: seq<T>, b: seq<T>)
    ensures AddNew(ids, a + b) == AddNew(AddNew(ids, a), b)
    decreases |a|
  {
    if |a| == 0 {
      assert a + b == b;
    } else {
      AddNewSplits(if a[0] in ids then ids else ids + [a[0]], a[1..], b);
      assert (a + b)[1..] == a[1..] + b;
    }
  }

  method AddBucket(agents: seq<string>, bucket: Option<Json>) returns (more: seq<string>)
    ensures more == AddNew(agents, BucketRefs(bucket))
  {
    more := agents;
    if bucket.None? || !bucket.value.JArray? {
      return;
    }
    var phases := bucket.value.items;
    for i := 0 to |phases|
      invariant more == AddNew(agents, PhaseRefs(phases[..i]))
    {
      assert phases[..i + 1][..i] == phases[..i];
      AddNewSplits(agents, PhaseRefs(phases[..i]), PhaseRef(phases[i]));
      var found := PhaseRef(phases[i]);
      if |found| > 0 {
        assert found == [found[0]];
        assert AddNew(more, [found[0]]) ==
            AddNew(if found[0] in more then more else more + [found[0]], [found[0]][1..]);
        if found[0] !in more {
          more := more + [found[0]];
        }
      }
    }
    assert phases[..|phases|] == phases;
  }

  method ExtractAgents(workflow: Option<Json>) returns (agents: seq<string>)
    ensures agents == Agents(workflow) && NoDuplicates(agents)
  {
    agents := [];
    if workflow.Some? {
      var phases, support := Field(workflow.value, "phases"), Field(workflow.value, "support");
      agents := AddBucket(agents, phases);
      agents := AddBucket(agents, support);
      AddNewSplits([], BucketRefs(phases), BucketRefs(support));
      AddNewAdds([], BucketRefs(phases) + BucketRefs(support));
    }
  }

  // ---- Usage. ----

  datatype Team = Team(id: string, scope: string, name: string)

  datatype TeamVersion = TeamVersion(teamId: string, version: string, workflow: Option<Json>)

  datatype TeamEntry = TeamEntry(scope: string, slug: string)

  datatype Realm = Realm(id: string, teams: seq<TeamEntry>)

  datatype UsageRef = UsageRef(scope: string, name: string, version: string, realmIds: seq<string>)

  type Latest = seq<string> -> string

  function TeamKey(scope: string, name: string): string {
    scope + "/" + name
  }

  /** The second scope is longer, and the first name starts with what it has more. */
  ghost predicate SplitsFurther(s1: string, n1: string, s2: string, n2: string) {
    exists p :: s2 == s1 + "/" + p && n1 == p + "/" + n2
  }

  /** Different teams with one key. */
  ghost predicate Confused(s1: string, n1: string, s2: string, n2: string) {
    SplitsFurther(s1, n1, s2, n2) || SplitsFurther(s2, n2, s1, n1)
  }

  lemma KeyOfLongerScope(s1: string, n1: string, s2: string, n2: string)
    requires |s1| < |s2|
    ensures TeamKey(s1, n1) == TeamKey(s2, n2) <==> SplitsFurther(s1, n1, s2, n2)
  {
    if TeamKey(s1, n1) == TeamKey(s2, n2) {
      var k := TeamKey(s1, n1);
      var p := s2[|s1| + 1..];
      assert k[..|s1|] == s1 && k[|s1|] == '/' && k[|s1| + 1..] == n1;
      assert s2 == k[..|s2|];
      assert s2[..|s1|] == s1 && s2[|s1|] == '/';
      assert s2 == s1 + "/" + p;
      assert n1[..|p|] == p && n1[|p|..] == k[|s2|..] == "/" + n2;
      assert n1 == p + "/" + n2;
    }
    if p :| s2 == s1 + "/" + p && n1 == p + "/" + n2 {
      assert TeamKey(s1, n1) == s1 + "/" + p + "/" + n2 == TeamKey(s2, n2);
    }
  }

  /** For all scopes and names: two teams have one key when they are the same team or confused, and only then. */
  lemma TeamKeysMeet(s1: string, n1: string, s2: string, n2: string)
    ensures TeamKey(s1, n1) == TeamKey(s2, n2) <==> (s1 == s2 && n1 == n2) || Confused(s1, n1, s2, n2)
  {
    if |s1| < |s2| {
      KeyOfLongerScope(s1, n1, s2, n2);
    } else if |s2| < |s1| {
      KeyOfLongerScope(s2, n2, s1, n1);
    } else {
      if TeamKey(s1, n1) == TeamKey(s2, n2) {
        var k := TeamKey(s1, n1);
        assert k[..|s1|] == s1 && k[..|s2|] == s2;
        assert k[|s1| + 1..] == n1 && k[|s2| + 1..] == n2;
      }
    }
  }

  /** The joined key tells teams apart as long as names hold no slash, as team creation sees to; scopes may hold any. */
  lemma TeamKeyInjective(s1: string, n1: string, s2: string, n2: string)
    requires '/' !in n1 && '/' !in n2
    ensures TeamKey(s1, n1) == TeamKey(s2, n2) <==> s1 == s2 && n1 == n2
  {
    TeamKeysMeet(s1, n1, s2, n2);
    NoSlashNoSplit(s1, n1, s2, n2);
    NoSlashNoSplit(s2, n2, s1, n1);
  }

  lemma NoSlashNoSplit(s1: string, n1: string, s2: string, n2: string)
    requires '/' !in n1
    ensures !SplitsFurther(s1, n1, s2, n2)
  {
    forall p ensures n1 != p + "/" + n2 {
      assert (p + "/" + n2)[|p|] == '/';
    }
  }

  function VersionsOf(versions: seq<TeamVersion>, teamId: string): seq<TeamVersion> {
    if |versions| == 0 then []
    else VersionsOf(versions[..|versions| - 1], teamId)
         + if versions[|versions| - 1].teamId == teamId then [versions[|versions| - 1]] else []
  }

  function Texts(versions: seq<TeamVersion>): seq<string> {
    seq(|versions|, i requires 0 <= i < |versions| => versions[i].version)
  }

  /** The first of a team's versions with the given text. */
  function FindVersion(versions: seq<TeamVersion>, text: string): Option<TeamVersion> {
    if |versions| == 0 then None
    else if versions[0].version == text then Some(versions[0])
    else FindVersion(versions[1..], text)
  }

  /** The version of a team that counts. */
  function LatestOf(versions: seq<TeamVersion>, latest: Latest, teamId: string): Option<TeamVersion> {
    var mine := VersionsOf(versions, teamId);
    if |mine| == 0 then None else FindVersion(mine, latest(Texts(mine)))
  }

  /** A realm's id, once for each of its entries under the key. */
  function EntryHits(entries: seq<TeamEntry>, id: string, key: string): seq<string> {
    if |entries| == 0 then []
    else
      var last := entries[|entries| - 1];
      EntryHits(entries[..|entries| - 1], id, key) + if TeamKey(last.scope, last.slug) == key then [id] else []
  }

  function RealmsListing(realms: seq<Realm>, key: string): seq<string> {
    if |realms| == 0 then []
    else
      var last := realms[|realms| - 1];
      RealmsListing(realms[..|realms| - 1], key) + EntryHits(last.teams, last.id, key)
  }

  /** One entry per distinct ref that names the agent. */
  function RefEntries(refs: seq<string>, agent: string, entry: UsageRef): seq<UsageRef> {
    if |refs| == 0 then []
    else RefEntries(refs[..|refs| - 1], agent, entry) + if ParseRef(refs[|refs| - 1]).name == agent then [entry] else []
  }

  function TeamUsage(versions: seq<TeamVersion>, realms: seq<Realm>, latest: Latest, team: Team,
                     agent: string): seq<UsageRef> {
    match LatestOf(versions, latest, team.id)
    case Some(v) =>
      RefEntries(Agents(v.workflow), agent,
                 UsageRef(team.scope, team.name, v.version, RealmsListing(realms, TeamKey(team.scope, team.name))))
    case None => []
  }

  /** The naive answer for one agent: team by team, ref by ref. */
  function Usage(teams: seq<Team>, versions: seq<TeamVersion>, realms: seq<Realm>, latest: Latest,
                 agent: string): seq<UsageRef> {
    if |teams| == 0 then []
    else Usage(teams[..|teams| - 1], versions, realms, latest, agent)
         + TeamUsage(versions, realms, latest, teams[|teams| - 1], agent)
  }

  // ---- The order of the teams. ----

  /** `localeCompare`, whatever the locale. */
  type Locale = (string, string) -> int

  /** `Array.prototype.sort` on teams. */
  type SortCall = (seq<Team>, (Team, Team) -> int) -> seq<Team>

  function TeamOrder(locale: Locale): (Team, Team) -> int {
    (a: Team, b: Team) => if a.scope != b.scope then locale(a.scope, b.scope) else locale(a.name, b.name)
  }

  ghost predicate TiesOnlyItself(locale: Locale) {
    forall a, b :: locale(a, b) == 0 ==> a == b
  }

  ghost predicate TiesEverything(locale: Locale) {
    forall a, b :: locale(a, b) == 0
  }

  /**
   * On all teams at once, scope first, then name, is an order exactly when the locale tells all different strings
   * apart (or none): the names are not looked at when two different scopes tie. No `localeCompare` does either, as
   * canonically equivalent strings tie; what holds for one list follows below.
   */
  lemma TeamOrderIsPreorderIff(locale: Locale)
    requires TotalPreorder(locale)
    ensures TotalPreorder(TeamOrder(locale)) <==> TiesOnlyItself(locale) || TiesEverything(locale)
  {
    if TiesOnlyItself(locale) || TiesEverything(locale) {
      TeamOrderIsPreorder(locale);
    } else {
      TeamOrderBroken(locale);
    }
  }

  lemma TeamOrderIsPreorder(locale: Locale)
    requires TotalPreorder(locale) && (TiesOnlyItself(locale) || TiesEverything(locale))
    ensures TotalPreorder(TeamOrder(locale))
  {
    var cmp := TeamOrder(locale);
    forall a, b ensures Opposite(cmp, a, b) {
      assert Opposite(locale, a.scope, b.scope) && Opposite(locale, a.name, b.name);
    }
    forall a, b, c ensures Chains(cmp, a, b, c) {
      assert Opposite(locale, a.scope, b.scope) && Opposite(locale, b.scope, c.scope);
      assert Chains(locale, a.scope, b.scope, c.scope) && Chains(locale, a.name, b.name, c.name);
    }
  }

  lemma TeamOrderBroken(locale: Locale)
    requires TotalPreorder(locale) && !TiesOnlyItself(locale) && !TiesEverything(locale)
    ensures !TotalPreorder(TeamOrder(locale))
  {
    var s, t :| locale(s, t) == 0 && s != t;
    var m, n :| locale(m, n) != 0;
    assert Opposite(locale, m, n) && Opposite(locale, s, t);
    var low, high := if locale(m, n) < 0 then m else n, if locale(m, n) < 0 then n else m;
    assert Opposite(locale, low, high);
    assert !Chains(TeamOrder(locale), Team("", s, high), Team("", t, ""), Team("", s, low));
  }

  // ---- The order of one list of teams. ----

  /** No two different scopes of the list tie. */
  ghost predicate ScopesApart(teams: seq<Team>, locale: Locale) {
    forall t, u :: t in teams && u in teams && locale(t.scope, u.scope) == 0 ==> t.scope == u.scope
  }

  /** Where two different scopes of the list tie, each of them has only names that tie. */
  ghost predicate NamesSettled(teams: seq<Team>, locale: Locale) {
    forall t, u, v ::
      (&& t in teams && u in teams && v in teams
       && t.scope == v.scope && t.scope != u.scope && locale(t.scope, u.scope) == 0)
      ==> locale(t.name, v.name) == 0
  }

  lemma SettledChains(teams: seq<Team>, locale: Locale, a: Team, b: Team, c: Team)
    requires TotalPreorder(locale) && NamesSettled(teams, locale)
    requires a in teams && b in teams && c in teams
    ensures Chains(TeamOrder(locale), a, b, c)
  {
    assert Opposite(locale, a.scope, b.scope) && Opposite(locale, b.scope, c.scope);
    assert Chains(locale, a.scope, b.scope, c.scope) && Chains(locale, a.name, b.name, c.name);
  }

  lemma UnsettledBreaks(teams: seq<Team>, locale: Locale, t: Team, u: Team, v: Team)
    requires TotalPreorder(locale) && t in teams && u in teams && v in teams
    requires t.scope == v.scope && t.scope != u.scope && locale(t.scope, u.scope) == 0 && locale(t.name, v.name) != 0
    ensures !PreorderOn(teams, TeamOrder(locale))
  {
    assert Opposite(locale, t.scope, u.scope) && Opposite(locale, t.name, v.name);
    assert !Chains(TeamOrder(locale), t, u, v) || !Chains(TeamOrder(locale), v, u, t);
  }

  /**
   * The comparator is consistent on a list, so that `sort` has to return one result, exactly when the names are
   * settled.
   */
  lemma TeamOrderConsistentIff(teams: seq<Team>, locale: Locale)
    requires TotalPreorder(locale)
    ensures PreorderOn(teams, TeamOrder(locale)) <==> NamesSettled(teams, locale)
  {
    if NamesSettled(teams, locale) {
      forall a, b | a in teams && b in teams ensures Opposite(TeamOrder(locale), a, b) {
        assert Opposite(locale, a.scope, b.scope) && Opposite(locale, a.name, b.name);
      }
      forall a, b, c | a in teams && b in teams && c in teams ensures Chains(TeamOrder(locale), a, b, c) {
        SettledChains(teams, locale, a, b, c);
      }
    } else {
      var t, u, v :| t in teams && u in teams && v in teams
        && t.scope == v.scope && t.scope != u.scope && locale(t.scope, u.scope) == 0 && locale(t.name, v.name) != 0;
      UnsettledBreaks(teams, locale, t, u, v);
    }
  }

  /** Scope by scope, and by name within a scope. */
  ghost predicate InTeamOrder(teams: seq<Team>, locale: Locale) {
    forall i, j :: 0 <= i < j < |teams| ==>
      locale(teams[i].scope, teams[j].scope) < 0
      || (teams[i].scope == teams[j].scope && locale(teams[i].name, teams[j].name) <= 0)
  }

  lemma TiedNotInOrder(t: Team, u: Team, locale: Locale, sorted: seq<Team>)
    requires TotalPreorder(locale) && t in sorted && u in sorted && locale(t.scope, u.scope) == 0 && t.scope != u.scope
    ensures !InTeamOrder(sorted, locale)
  {
    var i :| 0 <= i < |sorted| && sorted[i] == t;
    var j :| 0 <= j < |sorted| && sorted[j] == u;
    assert Opposite(locale, t.scope, u.scope);
    assert i < j || j < i;
  }

  /**
   * Whatever the locale ties elsewhere, the sorted teams come scope by scope and by name within a scope exactly when no
   * two different scopes of this list tie; and the result is the stable sort whenever the names are settled.
   */
  lemma TeamsAreInOrder(teams: seq<Team>, locale: Locale, sorted: seq<Team>)
    requires TotalPreorder(locale) && SortResult(teams, TeamOrder(locale), sorted)
    ensures InTeamOrder(sorted, locale) <==> ScopesApart(teams, locale)
    ensures NamesSettled(teams, locale) ==> sorted == Sort(teams, TeamOrder(locale))
  {
    TeamOrderConsistentIff(teams, locale);
    if NamesSettled(teams, locale) {
      SortResultUnique(teams, TeamOrder(locale), sorted);
    }
    SameMembers(sorted, teams);
    if !ScopesApart(teams, locale) {
      var t, u :| t in teams && u in teams && locale(t.scope, u.scope) == 0 && t.scope != u.scope;
      TiedNotInOrder(t, u, locale, sorted);
    }
  }

  /** What a map of lists says about a key: nothing there is the empty list. */
  function At<T>(m: map<string, seq<T>>, key: string): seq<T> {
    if key in m then m[key] else []
  }

  function Push<T>(m: map<string, seq<T>>, key: string, x: T): map<string, seq<T>> {
    m[key := At(m, key) + [x]]
  }

  method GroupVersions(versions: seq<TeamVersion>) returns (byTeam: map<string, seq<TeamVersion>>)
    ensures forall id :: At(byTeam, id) == VersionsOf(versions, id)
  {
    byTeam := map[];
    for i := 0 to |versions|
      invariant forall id :: At(byTeam, id) == VersionsOf(versions[..i], id)
    {
      assert versions[..i + 1][..i] == versions[..i];
      byTeam := Push(byTeam, versions[i].teamId, versions[i]);
    }
    assert versions[..|versions|] == versions;
  }

  method IndexEntries(byKey: map<string, seq<string>>, entries: seq<TeamEntry>, id: string)
    returns (more: map<string, seq<string>>)
    ensures forall key :: At(more, key) == At(byKey, key) + EntryHits(entries, id, key)
  {
    more := byKey;
    for k := 0 to |entries|
      invariant forall key :: At(more, key) == At(byKey, key) + EntryHits(entries[..k], id, key)
    {
      var e := entries[k];
      ghost var before := more;
      more := Push(more, TeamKey(e.scope, e.slug), id);
      forall key ensures At(more, key) == At(byKey, key) + EntryHits(entries[..k + 1], id, key) {
        assert entries[..k + 1][..k] == entries[..k];
        var hit := if TeamKey(e.scope, e.slug) == key then [id] else [];
        AppendThree(At(byKey, key), EntryHits(entries[..k], id, key), hit);
      }
    }
    assert entries[..|entries|] == entries;
  }

  method IndexRealms(realms: seq<Realm>) returns (byKey: map<string, seq<string>>)
    ensures forall key :: At(byKey, key) == RealmsListing(realms, key)
  {
    byKey := map[];
    for i := 0 to |realms|
      invariant forall key :: At(byKey, key) == RealmsListing(realms[..i], key)
    {
      assert realms[..i + 1][..i] == realms[..i];
      byKey := IndexEntries(byKey, realms[i].teams, realms[i].id);
    }
    assert realms[..|realms|] == realms;
  }

  method AddTeam(usage: map<string, seq<UsageRef>>, refs: seq<string>, entry: UsageRef)
    returns (more: map<string, seq<UsageRef>>)
    ensures forall agent :: At(more, agent) == At(usage, agent) + RefEntries(refs, agent, entry)
    ensures forall agent :: agent in more <==> agent in usage || |RefEntries(refs, agent, entry)| > 0
  {
    more := usage;
    for i := 0 to |refs|
      invariant forall agent :: At(more, agent) == At(usage, agent) + RefEntries(refs[..i], agent, entry)
      invariant forall agent :: agent in more <==> agent in usage || |RefEntries(refs[..i], agent, entry)| > 0
    {
      ghost var before := more;
      var name := ParseRef(refs[i]).name;
      more := Push(more, name, entry);
      forall agent
        ensures At(more, agent) == At(usage, agent) + RefEntries(refs[..i + 1], agent, entry)
        ensures agent in more <==> agent in usage || |RefEntries(refs[..i + 1], agent, entry)| > 0
      {
        assert refs[..i + 1][..i] == refs[..i] && refs[..i + 1][i] == refs[i];
        AppendThree(At(usage, agent), RefEntries(refs[..i], agent, entry), if name == agent then [entry] else []);
      }
    }
    assert refs[..|refs|] == refs;
  }

  /** One team's part of the map. */
  method AddTeamUsage(usage: map<string, seq<UsageRef>>, team: Team, versions: seq<TeamVersion>, mine: seq<TeamVersion>,
                      realms: seq<Realm>, realmIds: seq<string>, latest: Latest)
    returns (more: map<string, seq<UsageRef>>)
    requires mine == VersionsOf(versions, team.id)
    requires realmIds == RealmsListing(realms, TeamKey(team.scope, team.name))
    ensures forall agent :: At(more, agent) == At(usage, agent) + TeamUsage(versions, realms, latest, team, agent)
    ensures forall agent :: agent in more <==> agent in usage || |TeamUsage(versions, realms, latest, team, agent)| > 0
  {
    more := usage;
    if |mine| > 0 {
      var entry := FindVersion(mine, latest(Texts(mine)));
      if entry.Some? {
        var refs := ExtractAgents(entry.value.workflow);
        more := AddTeam(usage, refs, UsageRef(team.scope, team.name, entry.value.version, realmIds));
      }
    }
  }

  /**
   * For every agent the built map holds exactly the naive answer over the sorted teams, and it has a key exactly for
   * the agents used. `sort` is the engine's, of which nothing need be known here.
   */
  method BuildUsage(teams: seq<Team>, versions: seq<TeamVersion>, realms: seq<Realm>, latest: Latest, locale: Locale,
                    sort: SortCall)
    returns (usage: map<string, seq<UsageRef>>)
    ensures forall agent :: At(usage, agent) == Usage(sort(teams, TeamOrder(locale)), versions, realms, latest, agent)
    ensures forall agent :: agent in usage <==>
              |Usage(sort(teams, TeamOrder(locale)), versions, realms, latest, agent)| > 0
  {
    var sorted := sort(teams, TeamOrder(locale));
    usage := CollectUsage(sorted, versions, realms, latest);
  }

  method CollectUsage(teams: seq<Team>, versions: seq<TeamVersion>, realms: seq<Realm>, latest: Latest)
    returns (usage: map<string, seq<UsageRef>>)
    ensures forall agent :: At(usage, agent) == Usage(teams, versions, realms, latest, agent)
    ensures forall agent :: agent in usage <==> |Usage(teams, versions, realms, latest, agent)| > 0
  {
    usage := map[];
    var byTeam := GroupVersions(versions);
    var byKey := IndexRealms(realms);
    for i := 0 to |teams|
      invariant forall agent :: At(usage, agent) == Usage(teams[..i], versions, realms, latest, agent)
      invariant forall agent :: agent in usage <==> |Usage(teams[..i], versions, realms, latest, agent)| > 0
    {
      var team := teams[i];
      assert teams[..i + 1][..i] == teams[..i];
      var realmIds := At(byKey, TeamKey(team.scope, team.name));
      usage := AddTeamUsage(usage, team, versions, At(byTeam, team.id), realms, realmIds, latest);
    }
    assert teams[..|teams|] == teams;
  }

  lemma {:induction false} HitsMean(entries: seq<TeamEntry>, id: string, key: string)
    ensures forall x :: x in EntryHits(entries, id, key) <==>
              x == id && exists e :: e in entries && TeamKey(e.scope, e.slug) == key
  {
    if |entries| > 0 {
      HitsMean(entries[..|entries| - 1], id, key);
      assert entries == entries[..|entries| - 1] + [entries[|entries| - 1]];
    }
  }

  lemma {:induction false} ListingMeans(realms: seq<Realm>, key: string)
    ensures forall x :: x in RealmsListing(realms, key) <==>
              exists r, e :: r in realms && e in r.teams && r.id == x && TeamKey(e.scope, e.slug) == key
  {
    if |realms| > 0 {
      var last := realms[|realms| - 1];
      ListingMeans(realms[..|realms| - 1], key);
      HitsMean(last.teams, last.id, key);
      assert realms == realms[..|realms| - 1] + [last];
      assert last in realms;
    }
  }

  ghost predicate Lists(r: Realm, scope: string, name: string) {
    exists e :: e in r.teams && e.scope == scope && e.slug == name
  }

  /** The realms listed under a team's key are exactly those whose list has the team. */
  ghost predicate ListingExact(realms: seq<Realm>, scope: string, name: string) {
    forall x :: x in RealmsListing(realms, TeamKey(scope, name)) <==>
        exists r :: r in realms && r.id == x && Lists(r, scope, name)
  }

  /**
   * For all scopes and names: the listing is exact when every realm with an entry confused with the team has the team
   * on its list as well, and only then.
   */
  lemma RealmsAreExactIff(realms: seq<Realm>, scope: string, name: string)
    ensures ListingExact(realms, scope, name) <==>
            forall r, e :: r in realms && e in r.teams && Confused(e.scope, e.slug, scope, name) ==>
              exists q :: q in realms && q.id == r.id && Lists(q, scope, name)
  {
    ListingMeans(realms, TeamKey(scope, name));
    forall r, e | r in realms && e in r.teams
      ensures TeamKey(e.scope, e.slug) == TeamKey(scope, name) <==>
                (e.scope == scope && e.slug == name) || Confused(e.scope, e.slug, scope, name)
    {
      TeamKeysMeet(e.scope, e.slug, scope, name);
    }
    if ListingExact(realms, scope, name) {
      forall r, e | r in realms && e in r.teams && Confused(e.scope, e.slug, scope, name)
        ensures exists q :: q in realms && q.id == r.id && Lists(q, scope, name)
      {
        assert r.id in RealmsListing(realms, TeamKey(scope, name));
      }
    }
  }

  /** With slash-free names, which team creation sees to, a usage entry names exactly the realms that list the team. */
  lemma RealmsAreExact(realms: seq<Realm>, scope: string, name: string)
    requires '/' !in name && forall r, e :: r in realms && e in r.teams ==> '/' !in e.slug
    ensures ListingExact(realms, scope, name)
  {
    ListingMeans(realms, TeamKey(scope, name));
    forall r, e | r in realms && e in r.teams
      ensures TeamKey(e.scope, e.slug) == TeamKey(scope, name) <==> e.scope == scope && e.slug == name
    {
      TeamKeyInjective(e.scope, e.slug, scope, name);
    }
  }

  /**
   * Only a name with a slash, which team creation refuses, shares a key: then a realm is reported for the other team.
   */
  lemma SlashConfusesTeams()
    ensures Confused("a/b", "c", "a", "b/c")
    ensures !ListingExact([Realm("r", [TeamEntry("a/b", "c")])], "a", "b/c")
  {
    assert "a/b" == "a" + "/" + "b" && "b/c" == "b" + "/" + "c";
    assert SplitsFurther("a", "b/c", "a/b", "c");
    var e := TeamEntry("a/b", "c");
    var r := Realm("r", [e]);
    assert r in [r] && e in r.teams;
    assert |"a/b"| != |"a"|;
    assert !Lists(r, "a", "b/c");
    RealmsAreExactIff([r], "a", "b/c");
  }

  // ---- What counts, said by the workflows and the rows. ----

  /** A phase that is no team and names this ref, white space around it aside. */
  ghost predicate PhaseNames(phase: Json, ref: string) {
    && phase.JObject? && !("type" in phase.fields && phase.fields["type"] == JString("team"))
    && "agent" in phase.fields && phase.fields["agent"].JString?
    && ref != "" && Trim(phase.fields["agent"].value) == ref
  }

  ghost predicate BucketNames(workflow: Json, bucket: string, ref: string) {
    && workflow.JObject? && bucket in workflow.fields && workflow.fields[bucket].JArray?
    && exists phase :: phase in workflow.fields[bucket].items && PhaseNames(phase, ref)
  }

  lemma PhaseRefIs(phase: Json, ref: string)
    ensures ref in PhaseRef(phase) <==> PhaseNames(phase, ref)
  {
  }

  lemma {:induction false} PhaseRefsAre(phases: seq<Json>, ref: string)
    ensures ref in PhaseRefs(phases) <==> exists phase :: phase in phases && PhaseNames(phase, ref)
  {
    if |phases| > 0 {
      var before, last := phases[..|phases| - 1], phases[|phases| - 1];
      PhaseRefsAre(before, ref);
      PhaseRefIs(last, ref);
      assert phases == before + [last];
    }
  }

  lemma BucketRefsAre(workflow: Json, bucket: string, ref: string)
    ensures ref in BucketRefs(Field(workflow, bucket)) <==> BucketNames(workflow, bucket, ref)
  {
    if workflow.JObject? && bucket in workflow.fields && workflow.fields[bucket].JArray? {
      PhaseRefsAre(workflow.fields[bucket].items, ref);
    }
  }

  /** A workflow's refs are those its phases or its support name, each once. */
  lemma AgentsAre(workflow: Option<Json>, ref: string)
    ensures NoDuplicates(Agents(workflow))
    ensures ref in Agents(workflow) <==>
              (workflow.Some?
               && (BucketNames(workflow.value, "phases", ref) || BucketNames(workflow.value, "support", ref)))
  {
    if workflow.Some? {
      BucketRefsAre(workflow.value, "phases", ref);
      BucketRefsAre(workflow.value, "support", ref);
      AddNewAdds([], BucketRefs(Field(workflow.value, "phases")) + BucketRefs(Field(workflow.value, "support")));
    }
  }

  lemma {:induction false} AddNewKeepsFront(ids: seq<string>, more: seq<string>)
    ensures ids <= AddNew(ids, more)
    decreases |more|
  {
    if |more| > 0 {
      AddNewKeepsFront(if more[0] in ids then ids else ids + [more[0]], more[1..]);
    }
  }

  /** Those of the phases come first. */
  lemma PhasesComeFirst(workflow: Json) returns (k: nat)
    ensures var refs := Agents(Some(workflow));
            k <= |refs| && forall i :: 0 <= i < |refs| ==> (i < k <==> BucketNames(workflow, "phases", refs[i]))
  {
    var phases, support := BucketRefs(Field(workflow, "phases")), BucketRefs(Field(workflow, "support"));
    var front, refs := AddNew([], phases), Agents(Some(workflow));
    AddNewSplits([], phases, support);
    AddNewAdds([], phases);
    AddNewKeepsFront(front, support);
    AddNewAdds(front, support);
    k := |front|;
    forall i | 0 <= i < |refs| ensures i < k <==> BucketNames(workflow, "phases", refs[i]) {
      BucketRefsAre(workflow, "phases", refs[i]);
      if i < k {
        assert refs[i] == front[i];
      } else {
        assert forall j :: 0 <= j < k ==> refs[j] == front[j] && refs[j] != refs[i];
      }
    }
  }

  /** The version texts of a team, in the order of its rows. */
  function TeamTexts(versions: seq<TeamVersion>, teamId: string): seq<string> {
    if |versions| == 0 then []
    else
      var last := versions[|versions| - 1];
      TeamTexts(versions[..|versions| - 1], teamId) + if last.teamId == teamId then [last.version] else []
  }

  /** The team's first row with this text. */
  ghost predicate FirstWithText(versions: seq<TeamVersion>, teamId: string, text: string, i: int) {
    && 0 <= i < |versions| && versions[i].teamId == teamId && versions[i].version == text
    && forall j :: 0 <= j < i && versions[j].teamId == teamId ==> versions[j].version != text
  }

  lemma {:induction false} FindVersionThenOne(a: seq<TeamVersion>, x: TeamVersion, text: string)
    ensures FindVersion(a + [x], text) ==
            if FindVersion(a, text).Some? then FindVersion(a, text) else if x.version == text then Some(x) else None
  {
    if |a| == 0 {
      assert a + [x] == [x] && [x][1..] == [];
    } else {
      FindVersionThenOne(a[1..], x, text);
      assert (a + [x])[1..] == a[1..] + [x];
    }
  }

  lemma {:induction false} FindVersionFinds(versions: seq<TeamVersion>, teamId: string, text: string)
    ensures Texts(VersionsOf(versions, teamId)) == TeamTexts(versions, teamId)
    ensures match FindVersion(VersionsOf(versions, teamId), text)
            case Some(v) => exists i :: FirstWithText(versions, teamId, text, i) && versions[i] == v
            case None => forall i :: !FirstWithText(versions, teamId, text, i)
  {
    if |versions| > 0 {
      var before, last := versions[..|versions| - 1], versions[|versions| - 1];
      FindVersionFinds(before, teamId, text);
      assert versions == before + [last];
      if last.teamId == teamId {
        FindVersionThenOne(VersionsOf(before, teamId), last, text);
      } else {
        assert VersionsOf(versions, teamId) == VersionsOf(before, teamId);
      }
      FirstOfMore(before, last, teamId, text);
    }
  }

  lemma FirstOfMore(before: seq<TeamVersion>, last: TeamVersion, teamId: string, text: string)
    ensures forall i :: FirstWithText(before + [last], teamId, text, i) <==>
              || FirstWithText(before, teamId, text, i)
              || (i == |before| && last.teamId == teamId && last.version == text
                  && forall j :: !FirstWithText(before, teamId, text, j))
  {
    var now := before + [last];
    assert forall j :: 0 <= j < |before| ==> now[j] == before[j];
    forall i ensures FirstWithText(now, teamId, text, i) <==>
        || FirstWithText(before, teamId, text, i)
        || (i == |before| && last.teamId == teamId && last.version == text
            && forall j :: !FirstWithText(before, teamId, text, j))
    {
      if 0 <= i < |before| {
        assert forall j :: 0 <= j <= i ==> now[j] == before[j];
      }
      if i == |before| && (forall j :: !FirstWithText(before, teamId, text, j)) {
        NoneWithText(before, teamId, text);
      }
    }
  }

  lemma {:induction false} NoneWithText(versions: seq<TeamVersion>, teamId: string, text: string)
    requires forall i :: !FirstWithText(versions, teamId, text, i)
    ensures forall j :: 0 <= j < |versions| && versions[j].teamId == teamId ==> versions[j].version != text
  {
    if |versions| > 0 {
      var before := versions[..|versions| - 1];
      forall i ensures !FirstWithText(before, teamId, text, i) {
        if FirstWithText(before, teamId, text, i) {
          assert FirstWithText(versions, teamId, text, i);
        }
      }
      NoneWithText(before, teamId, text);
      assert forall j :: 0 <= j < |before| ==> before[j] == versions[j];
      assert !FirstWithText(versions, teamId, text, |before|);
    }
  }

  /** An entry of an agent: a team whose counting version names the agent, with the realms under the team's key. */
  ghost predicate UsedBy(versions: seq<TeamVersion>, realms: seq<Realm>, latest: Latest, team: Team, agent: string,
                         u: UsageRef) {
    exists i ::
      && FirstWithText(versions, team.id, latest(TeamTexts(versions, team.id)), i)
      && u == UsageRef(team.scope, team.name, versions[i].version, RealmsListing(realms, team.scope + "/" + team.name))
      && exists ref :: ref in Agents(versions[i].workflow) && ParseRef(ref).name == agent
  }

  lemma {:induction false} RefEntriesAre(refs: seq<string>, agent: string, entry: UsageRef, u: UsageRef)
    ensures u in RefEntries(refs, agent, entry) <==>
              (u == entry && exists ref :: ref in refs && ParseRef(ref).name == agent)
  {
    if |refs| > 0 {
      RefEntriesAre(refs[..|refs| - 1], agent, entry, u);
      assert refs == refs[..|refs| - 1] + [refs[|refs| - 1]];
    }
  }

  lemma TeamUsageIs(versions: seq<TeamVersion>, realms: seq<Realm>, latest: Latest, team: Team, agent: string,
                    u: UsageRef)
    ensures u in TeamUsage(versions, realms, latest, team, agent) <==>
              UsedBy(versions, realms, latest, team, agent, u)
  {
    var text := latest(TeamTexts(versions, team.id));
    FindVersionFinds(versions, team.id, text);
    match LatestOf(versions, latest, team.id)
    case Some(v) =>
      var entry := UsageRef(team.scope, team.name, v.version, RealmsListing(realms, TeamKey(team.scope, team.name)));
      RefEntriesAre(Agents(v.workflow), agent, entry, u);
      var i :| FirstWithText(versions, team.id, text, i) && versions[i] == v;
      forall j | FirstWithText(versions, team.id, text, j) ensures j == i {}
    case None =>
  }

  ghost predicate UsedBySome(teams: seq<Team>, versions: seq<TeamVersion>, realms: seq<Realm>, latest: Latest,
                             agent: string, u: UsageRef) {
    exists team :: team in teams && UsedBy(versions, realms, latest, team, agent, u)
  }

  /**
   * The answer for an agent holds an entry exactly when some team's version whose text `latest` picks among that team's
   * texts, the first with that text, names the agent.
   */
  lemma {:induction false} UsageIs(teams: seq<Team>, versions: seq<TeamVersion>, realms: seq<Realm>, latest: Latest,
                                   agent: string, u: UsageRef)
    ensures u in Usage(teams, versions, realms, latest, agent) <==>
              UsedBySome(teams, versions, realms, latest, agent, u)
  {
    if |teams| > 0 {
      var before, last := teams[..|teams| - 1], teams[|teams| - 1];
      UsageIs(before, versions, realms, latest, agent, u);
      TeamUsageIs(versions, realms, latest, last, agent, u);
      assert teams == before + [last];
    }
  }
}
