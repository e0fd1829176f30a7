/**
 * One event over all its channels: shared channels, personal channels, members "their way" and the person layer,
 * all through one `EventSends` (src/notifications/fan_out.service.ts, deliver_for_channel_ids and
 * deliver_to_members_their_way).
 */
module EventDelivery {
  import opened Wrappers
  import opened Channels
  import opened DestinationWalk
  import opened DestinationReach
  import opened DestinationOnce
  import opened Sequences
  import opened Sorting

  const ORG_IN_APP_CHANNEL_KEY := "org.in_app"
  const REALM_MEMBERS_CHANNEL_KEY := "realm.members"
  const ORG_REALM_MEMBERS_CHANNEL_KEY := "org.realm_members"

  datatype Status = Dispatched | Skipped | Failed

  /** What the channel loop carries along: the shared state, the failure count, the channels a failure is raised for. */
  datatype Progress = Progress(st: Walk, failures: nat, raised: seq<string>)

  /** What one event needs besides its channels: the members behind each members channel. */
  datatype Audience = Audience(world: World, members: map<string, seq<Personal>>)

  datatype Report = Report(status: Status, end: Progress)

  predicate MembersWay(c: Channel) {
    c.systemKey == ORG_IN_APP_CHANNEL_KEY || c.systemKey == REALM_MEMBERS_CHANNEL_KEY
  }

  function NewWalk(st: Walk): Walk {
    st.(visited := [])
  }

  /** A top-level call: its own empty `visited`, the event's shared sends. */
  function TopWalk(w: World, ds: seq<Destination>, ctx: Context, st: Walk): (r: Walk)
    ensures st.sent <= r.sent && st.log <= r.log
  {
    NewWalk(WalkDests(w, ds, ctx, NewWalk(st)))
  }

  lemma TopWalkKeeps(w: World, ds: seq<Destination>, ctx: Context, st: Walk, inv: Walk -> bool)
    requires ctx.guarded && Keeps(w, true, inv) && inv(st)
    ensures inv(TopWalk(w, ds, ctx, st))
  {
    WalkKeeps(w, ds, ctx, NewWalk(st), inv);
  }

  lemma TopWalkRespectsPeople(w: World, forced: set<string>, ds: seq<Destination>, ctx: Context, st: Walk)
    requires ctx.guarded && OwnerOk(w, forced, ctx.owner)
    requires PeopleRespected(w, forced, st.log)
    ensures PeopleRespected(w, forced, TopWalk(w, ds, ctx, st).log)
  {
    WalkRespectsPeople(w, forced, ds, ctx, NewWalk(st));
  }

  // ---- An org's "All realm members" channel stands for the realm's own. ----

  function WithoutPlaceholders(cs: seq<Channel>): seq<Channel> {
    if |cs| == 0 then []
    else (if cs[0].systemKey == ORG_REALM_MEMBERS_CHANNEL_KEY then [] else [cs[0]]) + WithoutPlaceholders(cs[1..])
  }

  /** `realmChannel` is the enabled channel stored under `realmChannelId`, if there is one. */
  function RealmMembersForOrgChannel(cs: seq<Channel>, hasRealm: bool, realmChannelId: string,
                                     realmChannel: Option<Channel>): seq<Channel> {
    if forall c :: c in cs ==> c.systemKey != ORG_REALM_MEMBERS_CHANNEL_KEY then cs
    else
      var rest := WithoutPlaceholders(cs);
      if !hasRealm || (exists c :: c in rest && c.id == realmChannelId) then rest
      else if realmChannel.Some? then rest + [realmChannel.value]
      else rest
  }

  /** What the channel lookups of one event answer. */
  datatype ChannelLookup = ChannelLookup(enabled: seq<Channel>, realmChannelId: string, realmChannel: Option<Channel>)

  /** The channels an event with these channel ids is delivered to; `realm` is empty when it has none. */
  function FoundFor(ids: seq<string>, realm: string, lookup: ChannelLookup): seq<Channel> {
    if |ids| == 0 then []
    else RealmMembersForOrgChannel(lookup.enabled, |realm| > 0, lookup.realmChannelId, lookup.realmChannel)
  }

  ghost predicate DistinctIds(cs: seq<Channel>) {
    forall i, j :: 0 <= i < j < |cs| ==> cs[i].id != cs[j].id
  }

  lemma {:induction false} WithoutPlaceholdersKeeps(cs: seq<Channel>)
    ensures forall c :: c in WithoutPlaceholders(cs) <==> c in cs && c.systemKey != ORG_REALM_MEMBERS_CHANNEL_KEY
    ensures DistinctIds(cs) ==> DistinctIds(WithoutPlaceholders(cs))
  {
    if |cs| > 0 {
      WithoutPlaceholdersKeeps(cs[1..]);
      assert cs == [cs[0]] + cs[1..];
      if DistinctIds(cs) {
        forall c | c in WithoutPlaceholders(cs[1..]) ensures c.id != cs[0].id {
          var k :| 0 <= k < |cs[1..]| && cs[1..][k] == c;
          assert cs[k + 1] == c;
        }
      }
    }
  }

  /** The placeholder never survives, nothing else is lost, the realm's channel comes in at most once. */
  lemma RealmMembersReplaced(cs: seq<Channel>, hasRealm: bool, id: string, realmChannel: Option<Channel>)
    requires DistinctIds(cs)
    requires realmChannel.Some? ==>
               realmChannel.value.id == id && realmChannel.value.systemKey != ORG_REALM_MEMBERS_CHANNEL_KEY
    ensures var r := RealmMembersForOrgChannel(cs, hasRealm, id, realmChannel);
            var asked := exists c :: c in cs && c.systemKey == ORG_REALM_MEMBERS_CHANNEL_KEY;
            && DistinctIds(r)
            && (forall c :: c in r ==> c.systemKey != ORG_REALM_MEMBERS_CHANNEL_KEY)
            && (forall c :: c in cs && c.systemKey != ORG_REALM_MEMBERS_CHANNEL_KEY ==> c in r)
            && (asked && hasRealm && realmChannel.Some? ==> exists c :: c in r && c.id == id)
            && (forall c :: c in r && c !in cs ==> asked && hasRealm && Some(c) == realmChannel)
  {
    WithoutPlaceholdersKeeps(cs);
    var rest := WithoutPlaceholders(cs);
    if realmChannel.Some? {
      assert realmChannel.value in rest + [realmChannel.value];
    }
  }

  // ---- Shared channels first. ----

  function Select(cs: seq<Channel>, personal: bool): seq<Channel> {
    if |cs| == 0 then []
    else (if cs[0].owner.Some? == personal then [cs[0]] else []) + Select(cs[1..], personal)
  }

  /** The stable sort on "has an owner". */
  function SharedFirst(cs: seq<Channel>): seq<Channel> {
    Select(cs, false) + Select(cs, true)
  }

  lemma {:induction false} SelectKeeps(cs: seq<Channel>, personal: bool)
    ensures forall c :: c in Select(cs, personal) <==> c in cs && c.owner.Some? == personal
  {
    if |cs| > 0 {
      SelectKeeps(cs[1..], personal);
      assert cs == [cs[0]] + cs[1..];
    }
  }

  lemma {:induction false} SelectOccurrences(cs: seq<Channel>, c: Channel)
    ensures Occurrences(Select(cs, false), c) + Occurrences(Select(cs, true), c) == Occurrences(cs, c)
    ensures |Select(cs, false)| + |Select(cs, true)| == |cs|
  {
    if |cs| > 0 {
      SelectOccurrences(cs[1..], c);
      forall personal: bool
        ensures Occurrences(Select(cs, personal), c) == Occurrences(Select(cs[1..], personal), c)
                + if cs[0].owner.Some? == personal && cs[0] == c then 1 else 0
      {
        if cs[0].owner.Some? == personal {
          assert Select(cs, personal)[1..] == Select(cs[1..], personal);
        } else {
          assert Select(cs, personal) == Select(cs[1..], personal);
        }
      }
    }
  }

  /** A rearrangement in which no shared channel follows a personal one. */
  lemma SharedFirstOrders(cs: seq<Channel>)
    ensures |SharedFirst(cs)| == |cs|
    ensures forall c :: Occurrences(SharedFirst(cs), c) == Occurrences(cs, c)
    ensures forall i, j :: 0 <= i < j < |cs| ==> SharedFirst(cs)[i].owner.Some? ==> SharedFirst(cs)[j].owner.Some?
  {
    SelectKeeps(cs, false);
    SelectKeeps(cs, true);
    forall c
      ensures Occurrences(SharedFirst(cs), c) == Occurrences(cs, c) && |SharedFirst(cs)| == |cs|
    {
      SelectOccurrences(cs, c);
      OccurrencesAppend(Select(cs, false), Select(cs, true), c);
    }
    assert |SharedFirst(cs)| == |cs| by {
      SelectOccurrences(cs, Channel("", None, [], [], None, ""));
    }
    var r := SharedFirst(cs);
    forall i | 0 <= i < |r|
      ensures r[i].owner.Some? <==> i >= |Select(cs, false)|
    {
      if i < |Select(cs, false)| {
        assert r[i] in Select(cs, false);
      } else {
        assert r[i] == Select(cs, true)[i - |Select(cs, false)|];
        assert r[i] in Select(cs, true);
      }
    }
  }

  /** The comparator of the code: the difference of "has an owner" as numbers. */
  function OwnedLast(): (Channel, Channel) -> int {
    (a: Channel, b: Channel) => (if a.owner.Some? then 1 else 0) - (if b.owner.Some? then 1 else 0)
  }

  lemma {:induction false} SelectPermutes(cs: seq<Channel>)
    ensures multiset(Select(cs, false)) + multiset(Select(cs, true)) == multiset(cs)
  {
    if |cs| > 0 {
      SelectPermutes(cs[1..]);
      assert cs == [cs[0]] + cs[1..];
      var personal := cs[0].owner.Some?;
      assert Select(cs, personal) == [cs[0]] + Select(cs[1..], personal);
      assert Select(cs, !personal) == Select(cs[1..], !personal);
    }
  }

  lemma {:induction false} KeepIsSelect(cs: seq<Channel>, y: Channel)
    ensures Keep(cs, TiedWith(y, OwnedLast())) == Select(cs, y.owner.Some?)
  {
    if |cs| > 0 {
      KeepIsSelect(cs[1..], y);
    }
  }

  lemma {:induction false} SelectTwice(cs: seq<Channel>, a: bool, b: bool)
    ensures Select(Select(cs, a), b) == if a == b then Select(cs, a) else []
  {
    if |cs| > 0 {
      SelectTwice(cs[1..], a, b);
      if cs[0].owner.Some? == a {
        assert Select(cs, a)[1..] == Select(cs[1..], a);
      } else {
        assert Select(cs, a) == Select(cs[1..], a);
      }
    }
  }

  /** Selecting shared and then personal channels is the stable sort by that comparator. */
  lemma SharedFirstIsStableSort(cs: seq<Channel>)
    ensures SharedFirst(cs) == Sort(cs, OwnedLast())
  {
    var cmp := OwnedLast();
    assert TotalPreorder(cmp);
    SharedFirstOrders(cs);
    SelectPermutes(cs);
    SortPermutes(cs, cmp);
    SortOrders(cs, cmp);
    forall y ensures Ties(SharedFirst(cs), y, cmp) == Ties(Sort(cs, cmp), y, cmp) {
      SortStable(cs, cmp, y);
      KeepIsSelect(cs, y);
      KeepAppend(Select(cs, false), Select(cs, true), TiedWith(y, cmp));
      KeepIsSelect(Select(cs, false), y);
      KeepIsSelect(Select(cs, true), y);
      SelectTwice(cs, false, y.owner.Some?);
      SelectTwice(cs, true, y.owner.Some?);
    }
    StableSortUnique(SharedFirst(cs), Sort(cs, cmp), cmp);
  }

  // ---- Members, each their way. ----

  /** A member's own in-app destination is left out: the shared notice reaches them already. */
  function WithoutInApp(ds: seq<Destination>): seq<Destination> {
    if |ds| == 0 then []
    else (if ds[0].CliqHub? then [] else [ds[0]]) + WithoutInApp(ds[1..])
  }

  /** Everything but in-app is kept, as often as it was there. */
  lemma {:induction false} WithoutInAppKeeps(ds: seq<Destination>, d: Destination)
    ensures Occurrences(WithoutInApp(ds), d) == if d.CliqHub? then 0 else Occurrences(ds, d)
  {
    if |ds| > 0 {
      WithoutInAppKeeps(ds[1..], d);
      if !ds[0].CliqHub? {
        assert WithoutInApp(ds)[1..] == WithoutInApp(ds[1..]);
      } else {
        assert WithoutInApp(ds) == WithoutInApp(ds[1..]);
      }
    }
  }

  predicate PersonReached(w: World, p: Personal) {
    p.user in w.mayReceive && p.user !in w.personOff
  }

  function PersonalContext(p: Personal): Context {
    Context(p.channel.id, Some(p.user), p.channel.secret, true)
  }

  function MemberStep(w: World, p: Personal, st: Walk): (r: Walk)
    ensures st.sent <= r.sent && st.log <= r.log
  {
    if !PersonReached(w, p) then st
    else TopWalk(w, WithoutInApp(Destinations(p.channel)), PersonalContext(p), st)
  }

  function MembersSteps(w: World, ps: seq<Personal>, st: Walk): (r: Walk)
    ensures st.sent <= r.sent && st.log <= r.log
  {
    if |ps| == 0 then st else MembersSteps(w, ps[1..], MemberStep(w, ps[0], st))
  }

  // ---- The channel loop. ----

  function MembersOf(a: Audience, c: Channel): seq<Personal> {
    if MembersWay(c) && c.id in a.members then a.members[c.id] else []
  }

  /** The channel's own walk, then its members'. */
  function ChannelWalk(a: Audience, c: Channel, st: Walk): (r: Walk)
    ensures st.sent <= r.sent && st.log <= r.log
  {
    var st1 := TopWalk(a.world, Destinations(c), ContextOf(c, true), st);
    MembersSteps(a.world, MembersOf(a, c), st1)
  }

  function ChannelStep(a: Audience, eventType: string, c: Channel, p: Progress): (r: Progress)
    ensures p.st.sent <= r.st.sent && p.st.log <= r.st.log
    ensures p.failures <= r.failures <= p.failures + 1
    ensures p.raised <= r.raised && |r.raised| - |p.raised| <= r.failures - p.failures
  {
    if !Allowed(a.world, true, c.owner) then p
    else if |Destinations(c)| == 0 && !MembersWay(c) then p.(failures := p.failures + 1)
    else
      var st := ChannelWalk(a, c, p.st);
      if AnySuccess(st.log, |p.st.log|) then p.(st := st)
      else Progress(st, p.failures + 1, if eventType == "notification.failed" then p.raised else p.raised + [c.id])
  }

  function ChannelSteps(a: Audience, eventType: string, cs: seq<Channel>, p: Progress): (r: Progress)
    ensures p.st.sent <= r.st.sent && p.st.log <= r.st.log
    ensures p.failures <= r.failures <= p.failures + |cs|
    ensures p.raised <= r.raised && |r.raised| - |p.raised| <= r.failures - p.failures
  {
    if |cs| == 0 then p else ChannelSteps(a, eventType, cs[1..], ChannelStep(a, eventType, cs[0], p))
  }

  // ---- The person layer. ----

  function PersonStep(w: World, p: Personal, st: Walk): (r: Walk)
    ensures st.sent <= r.sent && st.log <= r.log
  {
    if p.user !in w.mayReceive || (!p.force && p.user in w.personOff) then st
    else TopWalk(w, Destinations(p.channel), PersonalContext(p), st)
  }

  function PeopleSteps(w: World, ps: seq<Personal>, st: Walk): (r: Walk)
    ensures st.sent <= r.sent && st.log <= r.log
  {
    if |ps| == 0 then st else PeopleSteps(w, ps[1..], PersonStep(w, ps[0], st))
  }

  const START := Progress(Walk([], {}, []), 0, [])

  function ChannelPhase(a: Audience, eventType: string, found: seq<Channel>): Progress {
    ChannelSteps(a, eventType, SharedFirst(found), START)
  }

  function StatusOf(channels: nat, people: nat, failures: nat): Status {
    if channels == 0 && people == 0 then Skipped
    else if channels > 0 && failures > 0 && failures >= channels then Failed
    else Dispatched
  }

  function DeliverEvent(a: Audience, eventType: string, found: seq<Channel>, people: seq<Personal>): Report {
    var p := ChannelPhase(a, eventType, found);
    Report(StatusOf(|found|, |people|, p.failures), p.(st := PeopleSteps(a.world, people, p.st)))
  }

  // ---- What a walk keeps, the whole event keeps. ----

  lemma {:induction false} MembersKeep(w: World, ps: seq<Personal>, st: Walk, inv: Walk -> bool)
    requires Keeps(w, true, inv) && inv(st)
    ensures inv(MembersSteps(w, ps, st))
  {
    if |ps| > 0 {
      if PersonReached(w, ps[0]) {
        TopWalkKeeps(w, WithoutInApp(Destinations(ps[0].channel)), PersonalContext(ps[0]), st, inv);
      }
      MembersKeep(w, ps[1..], MemberStep(w, ps[0], st), inv);
    }
  }

  lemma {:induction false} ChannelsKeep(a: Audience, eventType: string, cs: seq<Channel>, p: Progress,
                                        inv: Walk -> bool)
    requires Keeps(a.world, true, inv) && inv(p.st)
    ensures inv(ChannelSteps(a, eventType, cs, p).st)
  {
    if |cs| > 0 {
      var st1 := TopWalk(a.world, Destinations(cs[0]), ContextOf(cs[0], true), p.st);
      TopWalkKeeps(a.world, Destinations(cs[0]), ContextOf(cs[0], true), p.st, inv);
      MembersKeep(a.world, MembersOf(a, cs[0]), st1, inv);
      ChannelsKeep(a, eventType, cs[1..], ChannelStep(a, eventType, cs[0], p), inv);
    }
  }

  lemma {:induction false} PeopleKeep(w: World, ps: seq<Personal>, st: Walk, inv: Walk -> bool)
    requires Keeps(w, true, inv) && inv(st)
    ensures inv(PeopleSteps(w, ps, st))
  {
    if |ps| > 0 {
      TopWalkKeeps(w, Destinations(ps[0].channel), PersonalContext(ps[0]), st, inv);
      PeopleKeep(w, ps[1..], PersonStep(w, ps[0], st), inv);
    }
  }

  lemma EventKeeps(a: Audience, eventType: string, found: seq<Channel>, people: seq<Personal>, inv: Walk -> bool)
    requires Keeps(a.world, true, inv) && inv(START.st)
    ensures inv(DeliverEvent(a, eventType, found, people).end.st)
  {
    ChannelsKeep(a, eventType, SharedFirst(found), START, inv);
    PeopleKeep(a.world, people, ChannelPhase(a, eventType, found).st, inv);
  }

  /**
   * Each Slack or webhook endpoint reached anywhere in the event is handed to a deliverer exactly once; no other is.
   */
  lemma EndpointExactlyOnce(a: Audience, eventType: string, found: seq<Channel>, people: seq<Personal>, key: string)
    ensures var log := DeliverEvent(a, eventType, found, people).end.st.log;
            Posts(log, key) == if Mentioned(log, key) then 1 else 0
  {
    OnceIsKept(a.world, key);
    EventKeeps(a, eventType, found, people, (st: Walk) => OnceFor(st, key));
  }

  // ---- The event reaches exactly what its audience leads to. ----

  /** A destination of the list itself, or behind a name some ref trail from it leads to. */
  ghost predicate Behind(w: World, ds: seq<Destination>, ctx: Context, x: Leaf) {
    || Occurrences(Leaves(ds, ctx), x) > 0
    || exists n :: Reachable(w, ctx.guarded, Refs(ds), {}, n) && Occurrences(LeavesOfName(w, ctx.guarded, n), x) > 0
  }

  lemma NothingBehindNothing(w: World, ctx: Context, x: Leaf)
    ensures !Behind(w, [], ctx, x)
  {
    assert Refs([]) == {};
  }

  lemma TopWalkHandles(w: World, ds: seq<Destination>, ctx: Context, st: Walk, x: Leaf)
    ensures Handled(TopWalk(w, ds, ctx, st).log, x) > 0 <==> Handled(st.log, x) > 0 || Behind(w, ds, ctx, x)
  {
    var r := WalkDests(w, ds, ctx, NewWalk(st));
    FreshWalkHandlesExactly(w, ds, ctx, NewWalk(st), x);
    assert r.log == st.log + Logged(NewWalk(st), r);
    HandledAppend(st.log, Logged(NewWalk(st), r), x);
  }

  ghost predicate BehindMember(w: World, p: Personal, x: Leaf) {
    PersonReached(w, p) && Behind(w, WithoutInApp(Destinations(p.channel)), PersonalContext(p), x)
  }

  ghost predicate BehindPerson(w: World, p: Personal, x: Leaf) {
    && p.user in w.mayReceive && (p.force || p.user !in w.personOff)
    && Behind(w, Destinations(p.channel), PersonalContext(p), x)
  }

  /** The channel's own destinations and, for a members channel, its members'. */
  ghost predicate BehindChannel(a: Audience, c: Channel, x: Leaf) {
    && Allowed(a.world, true, c.owner)
    && (|| Behind(a.world, Destinations(c), ContextOf(c, true), x)
        || exists p :: p in MembersOf(a, c) && BehindMember(a.world, p, x))
  }

  lemma MemberHandles(w: World, p: Personal, st: Walk, x: Leaf)
    ensures Handled(MemberStep(w, p, st).log, x) > 0 <==> Handled(st.log, x) > 0 || BehindMember(w, p, x)
  {
    TopWalkHandles(w, WithoutInApp(Destinations(p.channel)), PersonalContext(p), st, x);
  }

  lemma PersonHandles(w: World, p: Personal, st: Walk, x: Leaf)
    ensures Handled(PersonStep(w, p, st).log, x) > 0 <==> Handled(st.log, x) > 0 || BehindPerson(w, p, x)
  {
    TopWalkHandles(w, Destinations(p.channel), PersonalContext(p), st, x);
  }

  lemma {:induction false} MembersHandle(w: World, ps: seq<Personal>, st: Walk, x: Leaf)
    ensures Handled(MembersSteps(w, ps, st).log, x) > 0 <==>
              Handled(st.log, x) > 0 || exists p :: p in ps && BehindMember(w, p, x)
  {
    if |ps| > 0 {
      MemberHandles(w, ps[0], st, x);
      MembersHandle(w, ps[1..], MemberStep(w, ps[0], st), x);
      HeadOrTail(ps);
    }
  }

  lemma {:induction false} PeopleHandle(w: World, ps: seq<Personal>, st: Walk, x: Leaf)
    ensures Handled(PeopleSteps(w, ps, st).log, x) > 0 <==>
              Handled(st.log, x) > 0 || exists p :: p in ps && BehindPerson(w, p, x)
  {
    if |ps| > 0 {
      PersonHandles(w, ps[0], st, x);
      PeopleHandle(w, ps[1..], PersonStep(w, ps[0], st), x);
      HeadOrTail(ps);
    }
  }

  lemma ChannelHandles(a: Audience, eventType: string, c: Channel, p: Progress, x: Leaf)
    ensures Handled(ChannelStep(a, eventType, c, p).st.log, x) > 0 <==>
              Handled(p.st.log, x) > 0 || BehindChannel(a, c, x)
  {
    TopWalkHandles(a.world, Destinations(c), ContextOf(c, true), p.st, x);
    MembersHandle(a.world, MembersOf(a, c), TopWalk(a.world, Destinations(c), ContextOf(c, true), p.st), x);
    NothingBehindNothing(a.world, ContextOf(c, true), x);
  }

  lemma {:induction false} ChannelsHandle(a: Audience, eventType: string, cs: seq<Channel>, p: Progress, x: Leaf)
    ensures Handled(ChannelSteps(a, eventType, cs, p).st.log, x) > 0 <==>
              Handled(p.st.log, x) > 0 || exists c :: c in cs && BehindChannel(a, c, x)
  {
    if |cs| > 0 {
      ChannelHandles(a, eventType, cs[0], p, x);
      ChannelsHandle(a, eventType, cs[1..], ChannelStep(a, eventType, cs[0], p), x);
      HeadOrTail(cs);
    }
  }

  /** A destination some channel of the event, some member or somebody in the person layer leads to. */
  ghost predicate Leads(a: Audience, found: seq<Channel>, people: seq<Personal>, x: Leaf) {
    || (exists c :: c in found && BehindChannel(a, c, x))
    || (exists p :: p in people && BehindPerson(a.world, p, x))
  }

  /** Over the whole event a destination is handled if and only if the event's audience leads to it. */
  lemma EventHandlesExactly(a: Audience, eventType: string, found: seq<Channel>, people: seq<Personal>, x: Leaf)
    ensures Handled(DeliverEvent(a, eventType, found, people).end.st.log, x) > 0 <==> Leads(a, found, people, x)
  {
    SelectKeeps(found, false);
    SelectKeeps(found, true);
    forall c ensures c in SharedFirst(found) <==> c in found {
      assert c.owner.Some? == true || c.owner.Some? == false;
    }
    assert Handled([], x) == 0;
    ChannelsHandle(a, eventType, SharedFirst(found), START, x);
    PeopleHandle(a.world, people, ChannelPhase(a, eventType, found).st, x);
  }

  lemma {:induction false} HandledAt(log: seq<Entry>, x: Leaf)
    requires Handled(log, x) > 0
    ensures exists i :: 0 <= i < |log| && log[i].leaf == x
  {
    if log[0].leaf != x {
      HandledAt(log[1..], x);
      var i :| 0 <= i < |log[1..]| && log[1..][i].leaf == x;
      assert log[i + 1].leaf == x;
    }
  }

  ghost predicate LeadsToKey(a: Audience, found: seq<Channel>, people: seq<Personal>, key: string) {
    exists x :: Leads(a, found, people, x) && TakeKey(x.dest) == Some(key)
  }

  /**
   * Through any nesting of refs, every Slack or webhook endpoint the event's channels, members and person layer lead
   * to is posted to exactly once, and no other endpoint at all.
   */
  lemma EndpointPostedIff(a: Audience, eventType: string, found: seq<Channel>, people: seq<Personal>, key: string)
    ensures Posts(DeliverEvent(a, eventType, found, people).end.st.log, key) ==
            if LeadsToKey(a, found, people, key) then 1 else 0
  {
    var log := DeliverEvent(a, eventType, found, people).end.st.log;
    EndpointExactlyOnce(a, eventType, found, people, key);
    if x :| Leads(a, found, people, x) && TakeKey(x.dest) == Some(key) {
      EventHandlesExactly(a, eventType, found, people, x);
      HandledAt(log, x);
    }
    if Mentioned(log, key) {
      var i :| 0 <= i < |log| && TakeKey(log[i].leaf.dest) == Some(key);
      HandledMember(log, i);
      EventHandlesExactly(a, eventType, found, people, log[i].leaf);
    }
  }

  // ---- Nobody is sent what they may not see. ----

  function Forced(people: seq<Personal>): set<string> {
    set p | p in people && p.force :: p.user
  }

  lemma {:induction false} MembersRespectPeople(w: World, forced: set<string>, ps: seq<Personal>, st: Walk)
    requires PeopleRespected(w, forced, st.log)
    ensures PeopleRespected(w, forced, MembersSteps(w, ps, st).log)
  {
    if |ps| > 0 {
      if PersonReached(w, ps[0]) {
        TopWalkRespectsPeople(w, forced, WithoutInApp(Destinations(ps[0].channel)), PersonalContext(ps[0]), st);
      }
      MembersRespectPeople(w, forced, ps[1..], MemberStep(w, ps[0], st));
    }
  }

  lemma {:induction false} ChannelsRespectPeople(a: Audience, eventType: string, forced: set<string>, cs: seq<Channel>,
                                                 p: Progress)
    requires PeopleRespected(a.world, forced, p.st.log)
    ensures PeopleRespected(a.world, forced, ChannelSteps(a, eventType, cs, p).st.log)
  {
    if |cs| > 0 {
      if Allowed(a.world, true, cs[0].owner) {
        TopWalkRespectsPeople(a.world, forced, Destinations(cs[0]), ContextOf(cs[0], true), p.st);
        var st1 := TopWalk(a.world, Destinations(cs[0]), ContextOf(cs[0], true), p.st);
        MembersRespectPeople(a.world, forced, MembersOf(a, cs[0]), st1);
      }
      ChannelsRespectPeople(a, eventType, forced, cs[1..], ChannelStep(a, eventType, cs[0], p));
    }
  }

  lemma {:induction false} PersonLayerRespectsPeople(w: World, forced: set<string>, ps: seq<Personal>, st: Walk)
    requires PeopleRespected(w, forced, st.log)
    requires Forced(ps) <= forced
    ensures PeopleRespected(w, forced, PeopleSteps(w, ps, st).log)
  {
    if |ps| > 0 {
      if ps[0].user in w.mayReceive && (ps[0].force || ps[0].user !in w.personOff) {
        assert ps[0] in ps;
        TopWalkRespectsPeople(w, forced, Destinations(ps[0].channel), PersonalContext(ps[0]), st);
      }
      assert Forced(ps[1..]) <= Forced(ps);
      PersonLayerRespectsPeople(w, forced, ps[1..], PersonStep(w, ps[0], st));
    }
  }

  /**
   * Over the whole event nothing is handed to a person who may not receive it; one who switched it off is reached
   * only when "Runs I start" forces it, and then only in the person layer.
   */
  lemma EventRespectsPeople(a: Audience, eventType: string, found: seq<Channel>, people: seq<Personal>)
    ensures PeopleRespected(a.world, {}, ChannelPhase(a, eventType, found).st.log)
    ensures PeopleRespected(a.world, Forced(people), DeliverEvent(a, eventType, found, people).end.st.log)
  {
    ChannelsRespectPeople(a, eventType, {}, SharedFirst(found), START);
    ChannelsRespectPeople(a, eventType, Forced(people), SharedFirst(found), START);
    PersonLayerRespectsPeople(a.world, Forced(people), people, ChannelPhase(a, eventType, found).st);
  }

  // ---- What the status says. ----

  /**
   * A channel counts as failed when it has nothing to deliver to, or nothing it reached was accepted or already sent.
   */
  predicate Fails(a: Audience, eventType: string, c: Channel, p: Progress) {
    && Allowed(a.world, true, c.owner)
    && ((|Destinations(c)| == 0 && !MembersWay(c)) || !AnySuccess(ChannelWalk(a, c, p.st).log, |p.st.log|))
  }

  /** The progress before channel `i`. */
  function Before(a: Audience, eventType: string, cs: seq<Channel>, p: Progress, i: nat): Progress
    requires i <= |cs|
  {
    ChannelSteps(a, eventType, cs[..i], p)
  }

  lemma {:induction false} AllFail(a: Audience, eventType: string, cs: seq<Channel>, p: Progress)
    ensures ChannelSteps(a, eventType, cs, p).failures == p.failures + |cs| <==>
            forall i :: 0 <= i < |cs| ==> Fails(a, eventType, cs[i], Before(a, eventType, cs, p, i))
  {
    if |cs| > 0 {
      var p1 := ChannelStep(a, eventType, cs[0], p);
      AllFail(a, eventType, cs[1..], p1);
      assert Before(a, eventType, cs, p, 0) == p by { assert cs[..0] == []; }
      forall i | 0 < i < |cs|
        ensures Before(a, eventType, cs, p, i) == Before(a, eventType, cs[1..], p1, i - 1)
      {
        assert cs[..i][1..] == cs[1..][..i - 1];
      }
      assert forall i :: 0 <= i < |cs[1..]| ==> cs[1..][i] == cs[i + 1];
      if forall i :: 0 <= i < |cs| ==> Fails(a, eventType, cs[i], Before(a, eventType, cs, p, i)) {
        forall i | 0 <= i < |cs[1..]|
          ensures Fails(a, eventType, cs[1..][i], Before(a, eventType, cs[1..], p1, i))
        {
          assert Fails(a, eventType, cs[i + 1], Before(a, eventType, cs, p, i + 1));
        }
      }
      if (forall i :: 0 <= i < |cs[1..]| ==> Fails(a, eventType, cs[1..][i], Before(a, eventType, cs[1..], p1, i)))
         && Fails(a, eventType, cs[0], p)
      {
        forall i | 0 <= i < |cs|
          ensures Fails(a, eventType, cs[i], Before(a, eventType, cs, p, i))
        {
          if i > 0 {
            assert Fails(a, eventType, cs[1..][i - 1], Before(a, eventType, cs[1..], p1, i - 1));
          }
        }
      }
    }
  }

  /** `failed` means there were channels and every single one failed; `skipped` that there was nobody to send to. */
  lemma StatusMeaning(a: Audience, eventType: string, found: seq<Channel>, people: seq<Personal>)
    ensures var cs := SharedFirst(found);
            DeliverEvent(a, eventType, found, people).status == Failed <==>
            |cs| > 0 && forall i :: 0 <= i < |cs| ==> Fails(a, eventType, cs[i], Before(a, eventType, cs, START, i))
    ensures DeliverEvent(a, eventType, found, people).status == Skipped <==> found == [] && people == []
  {
    SharedFirstOrders(found);
    AllFail(a, eventType, SharedFirst(found), START);
  }

  lemma RaisedByOne(a: Audience, eventType: string, c: Channel, p: Progress)
    ensures var r := ChannelStep(a, eventType, c, p).raised;
            r == p.raised || (eventType != "notification.failed" && r == p.raised + [c.id])
  {
  }

  /** At most one failure notice per channel of the event, and none about a `notification.failed` event. */
  lemma {:induction false} RaisedChannels(a: Audience, eventType: string, cs: seq<Channel>, p: Progress)
    ensures var r := ChannelSteps(a, eventType, cs, p).raised;
            && (eventType == "notification.failed" ==> r == p.raised)
            && |r| <= |p.raised| + |cs|
            && (forall id :: id in r[|p.raised|..] ==> exists c :: c in cs && c.id == id)
  {
    if |cs| > 0 {
      var p1 := ChannelStep(a, eventType, cs[0], p);
      RaisedByOne(a, eventType, cs[0], p);
      RaisedChannels(a, eventType, cs[1..], p1);
      RaisedFurther(cs, p.raised, p1.raised, ChannelSteps(a, eventType, cs, p).raised);
    }
  }

  lemma RaisedFurther(cs: seq<Channel>, before: seq<string>, mid: seq<string>, r: seq<string>)
    requires |cs| > 0 && mid <= r && (mid == before || mid == before + [cs[0].id])
    requires forall id :: id in r[|mid|..] ==> exists c :: c in cs[1..] && c.id == id
    ensures forall id :: id in r[|before|..] ==> exists c :: c in cs && c.id == id
  {
    assert cs == [cs[0]] + cs[1..];
    assert r[|before|..] == mid[|before|..] + r[|mid|..];
    forall id | id in r[|before|..] ensures exists c :: c in cs && c.id == id {
      if id in mid[|before|..] {
        assert cs[0] in cs && cs[0].id == id;
      } else {
        var c :| c in cs[1..] && c.id == id;
        assert c in cs;
      }
    }
  }
}
