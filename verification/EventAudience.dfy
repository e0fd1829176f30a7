/**
 * Whom and what an event reaches, said in terms of what is stored: the channels' columns, the people's choices and the
 * trails of refs (src/notifications/fan_out.service.ts:294-548).
 */
module EventAudience {
  import opened Wrappers
  import opened Sequences
  import opened Channels
  import opened DestinationWalk
  import opened DestinationReach
  import opened EventDelivery
  import opened UnguardedWalk

  /** All stored kinds but refs and those without a deliverer. */
  predicate HasDeliverer(d: Destination) {
    !d.ChannelRef? && !d.Unsupported?
  }

  /** An owned channel is for a person who may receive the event and has not switched it off; `guarded` as in a walk. */
  predicate PersonAgrees(w: World, guarded: bool, owner: Option<string>) {
    guarded && owner.Some? ==> owner.value in w.mayReceive && owner.value !in w.personOff
  }

  /** One of these destinations as it is delivered for a channel with this id, owner and secret column. */
  ghost predicate OnList(ds: seq<Destination>, id: string, owner: Option<string>, column: Option<string>, x: Leaf) {
    x.dest in ds && HasDeliverer(x.dest) && x.owner == owner && SignedFor(x, id, column)
  }

  /** Some channel called `n` has a ref to `m`. */
  ghost predicate RefersTo(w: World, guarded: bool, n: string, m: string) {
    n in w.targets
    && exists t :: t in w.targets[n] && PersonAgrees(w, guarded, t.owner) && ChannelRef(m) in t.destinations
  }

  ghost predicate RefTrail(w: World, guarded: bool, ds: seq<Destination>, p: seq<string>) {
    && |p| > 0 && ChannelRef(p[0]) in ds
    && forall i :: 0 <= i < |p| - 1 ==> RefersTo(w, guarded, p[i], p[i + 1])
  }

  /** On a channel whose name a trail of refs ends with, signed at most with what its own config says. */
  ghost predicate AtTrailEnd(w: World, guarded: bool, ds: seq<Destination>, x: Leaf) {
    exists p, t ::
      && RefTrail(w, guarded, ds, p) && p[|p| - 1] in w.targets && t in w.targets[p[|p| - 1]]
      && PersonAgrees(w, guarded, t.owner) && OnList(t.destinations, t.id, t.owner, None, x)
  }

  // ---- A walk's destinations in these terms. ----

  lemma {:induction false} LeavesAre(ds: seq<Destination>, ctx: Context, x: Leaf)
    ensures Occurrences(Leaves(ds, ctx), x) > 0 <==> OnList(ds, ctx.channelId, ctx.owner, ctx.secret, x)
  {
    if |ds| > 0 {
      LeavesAre(ds[1..], ctx, x);
      HeadOrTail(ds);
      OccurrencesAppend(OwnLeaf(ds[0], ctx), Leaves(ds[1..], ctx), x);
    }
  }

  lemma {:induction false} LeavesBehindAre(w: World, guarded: bool, ts: seq<Record>, x: Leaf)
    ensures Occurrences(LeavesBehind(w, guarded, ts), x) > 0 <==>
              exists t :: t in ts && PersonAgrees(w, guarded, t.owner) && OnList(t.destinations, t.id, t.owner, None, x)
  {
    if |ts| > 0 {
      var own := if Allowed(w, guarded, ts[0].owner) then Leaves(ts[0].destinations, RecordContext(ts[0], guarded))
                 else [];
      LeavesBehindAre(w, guarded, ts[1..], x);
      OccurrencesAppend(own, LeavesBehind(w, guarded, ts[1..]), x);
      LeavesAre(ts[0].destinations, RecordContext(ts[0], guarded), x);
      HeadOrTail(ts);
    }
  }

  lemma SuccessorsAre(w: World, guarded: bool, n: string, m: string)
    ensures m in Successors(w, guarded, n) <==> RefersTo(w, guarded, n, m)
  {
    if RefersTo(w, guarded, n, m) {
      var t :| t in w.targets[n] && PersonAgrees(w, guarded, t.owner) && ChannelRef(m) in t.destinations;
      assert m in Refs(t.destinations);
      assert m in RefsBehind(w, guarded, w.targets[n]);
    }
  }

  lemma TrailsAre(w: World, guarded: bool, ds: seq<Destination>, p: seq<string>)
    ensures Trail(w, guarded, Refs(ds), {}, p) <==> RefTrail(w, guarded, ds, p)
  {
    forall i | 0 <= i < |p| - 1
      ensures p[i + 1] in Successors(w, guarded, p[i]) <==> RefersTo(w, guarded, p[i], p[i + 1])
    {
      SuccessorsAre(w, guarded, p[i], p[i + 1]);
    }
    if |p| > 0 && ChannelRef(p[0]) in ds {
      assert p[0] in Refs(ds);
    }
  }

  lemma BehindIs(w: World, ds: seq<Destination>, ctx: Context, x: Leaf)
    ensures Behind(w, ds, ctx, x) <==>
              OnList(ds, ctx.channelId, ctx.owner, ctx.secret, x) || AtTrailEnd(w, ctx.guarded, ds, x)
  {
    LeavesAre(ds, ctx, x);
    if n :| Reachable(w, ctx.guarded, Refs(ds), {}, n) && Occurrences(LeavesOfName(w, ctx.guarded, n), x) > 0 {
      var p :| Trail(w, ctx.guarded, Refs(ds), {}, p) && p[|p| - 1] == n;
      TrailsAre(w, ctx.guarded, ds, p);
      LeavesBehindAre(w, ctx.guarded, w.targets[n], x);
    }
    if AtTrailEnd(w, ctx.guarded, ds, x) {
      var p, t :| RefTrail(w, ctx.guarded, ds, p) && p[|p| - 1] in w.targets && t in w.targets[p[|p| - 1]]
        && PersonAgrees(w, ctx.guarded, t.owner) && OnList(t.destinations, t.id, t.owner, None, x);
      TrailsAre(w, ctx.guarded, ds, p);
      LeavesBehindAre(w, ctx.guarded, w.targets[p[|p| - 1]], x);
      assert Reachable(w, ctx.guarded, Refs(ds), {}, p[|p| - 1]);
    }
  }

  // ---- The event's audience in these terms. ----

  /** Destination rows, or else what the legacy column holds. */
  function StoredDestinations(c: Channel): seq<Destination> {
    if c.rows != [] then c.rows else c.legacy
  }

  /** A person's own channel, of which `without` may leave the in-app destination out. */
  ghost predicate TheirWay(w: World, p: Personal, without: bool, x: Leaf) {
    || (!(without && x.dest.CliqHub?)
        && OnList(StoredDestinations(p.channel), p.channel.id, Some(p.user), p.channel.secret, x))
    || AtTrailEnd(w, true, StoredDestinations(p.channel), x)
  }

  /** The channel's own destinations; for "All org members" and "All realm members", every member's other ones. */
  ghost predicate ChannelLeadsTo(a: Audience, c: Channel, x: Leaf) {
    && PersonAgrees(a.world, true, c.owner)
    && (|| OnList(StoredDestinations(c), c.id, c.owner, c.secret, x)
        || AtTrailEnd(a.world, true, StoredDestinations(c), x)
        || (&& (c.systemKey == "org.in_app" || c.systemKey == "realm.members") && c.id in a.members
            && exists p :: p in a.members[c.id] && PersonAgrees(a.world, true, Some(p.user))
                           && TheirWay(a.world, p, true, x)))
  }

  /** The person layer: somebody who may receive the event, and is forced or has not switched it off. */
  ghost predicate PersonLeadsTo(w: World, p: Personal, x: Leaf) {
    p.user in w.mayReceive && (p.force || p.user !in w.personOff) && TheirWay(w, p, false, x)
  }

  /** An org's "All realm members" is replaced by the realm's own channel, when there is a realm and it is not there. */
  ghost predicate IsOfEvent(ids: seq<string>, realm: string, lookup: ChannelLookup, c: Channel) {
    && ids != []
    && (|| (c in lookup.enabled && c.systemKey != "org.realm_members")
        || (&& (exists q :: q in lookup.enabled && q.systemKey == "org.realm_members")
            && realm != "" && lookup.realmChannel == Some(c)
            && !exists q :: q in lookup.enabled && q.systemKey != "org.realm_members" && q.id == lookup.realmChannelId))
  }

  lemma {:induction false} NotInAppAre(ds: seq<Destination>, d: Destination)
    ensures d in WithoutInApp(ds) <==> d in ds && !d.CliqHub?
  {
    if |ds| > 0 {
      NotInAppAre(ds[1..], d);
      HeadOrTail(ds);
    }
  }

  lemma NotInAppTrails(w: World, ds: seq<Destination>, x: Leaf)
    ensures AtTrailEnd(w, true, WithoutInApp(ds), x) <==> AtTrailEnd(w, true, ds, x)
  {
    forall p ensures RefTrail(w, true, WithoutInApp(ds), p) <==> RefTrail(w, true, ds, p) {
      if |p| > 0 {
        NotInAppAre(ds, ChannelRef(p[0]));
      }
    }
  }

  lemma MemberIs(w: World, p: Personal, x: Leaf)
    ensures BehindMember(w, p, x) <==> PersonAgrees(w, true, Some(p.user)) && TheirWay(w, p, true, x)
  {
    var ds := Destinations(p.channel);
    BehindIs(w, WithoutInApp(ds), PersonalContext(p), x);
    NotInAppAre(ds, x.dest);
    NotInAppTrails(w, ds, x);
  }

  lemma PersonIs(w: World, p: Personal, x: Leaf)
    ensures BehindPerson(w, p, x) <==> PersonLeadsTo(w, p, x)
  {
    BehindIs(w, Destinations(p.channel), PersonalContext(p), x);
  }

  lemma ChannelIs(a: Audience, c: Channel, x: Leaf)
    ensures BehindChannel(a, c, x) <==> ChannelLeadsTo(a, c, x)
  {
    BehindIs(a.world, Destinations(c), ContextOf(c, true), x);
    forall p ensures BehindMember(a.world, p, x) <==>
        PersonAgrees(a.world, true, Some(p.user)) && TheirWay(a.world, p, true, x)
    {
      MemberIs(a.world, p, x);
    }
  }

  lemma FoundAre(ids: seq<string>, realm: string, lookup: ChannelLookup, c: Channel)
    ensures c in FoundFor(ids, realm, lookup) <==> IsOfEvent(ids, realm, lookup, c)
  {
    WithoutPlaceholdersKeeps(lookup.enabled);
  }

  ghost predicate IsHandled(log: seq<Entry>, x: Leaf) {
    exists i :: 0 <= i < |log| && log[i].leaf == x
  }

  lemma HandledIs(log: seq<Entry>, x: Leaf)
    ensures Handled(log, x) > 0 <==> IsHandled(log, x)
  {
    if Handled(log, x) > 0 {
      HandledAt(log, x);
    }
    if i :| 0 <= i < |log| && log[i].leaf == x {
      HandledMember(log, i);
    }
  }

  /**
   * An event for these channel ids reaches a destination if and only if a channel of the event, one of its members
   * their way, or somebody in the person layer leads to it, directly or along refs.
   */
  lemma EventReachesExactly(a: Audience, eventType: string, ids: seq<string>, realm: string, lookup: ChannelLookup,
                            people: seq<Personal>, x: Leaf)
    ensures IsHandled(DeliverEvent(a, eventType, FoundFor(ids, realm, lookup), people).end.st.log, x) <==>
              || (exists c :: IsOfEvent(ids, realm, lookup, c) && ChannelLeadsTo(a, c, x))
              || (exists p :: p in people && PersonLeadsTo(a.world, p, x))
  {
    var found := FoundFor(ids, realm, lookup);
    HandledIs(DeliverEvent(a, eventType, found, people).end.st.log, x);
    EventHandlesExactly(a, eventType, found, people, x);
    forall c ensures c in found <==> IsOfEvent(ids, realm, lookup, c) {
      FoundAre(ids, realm, lookup, c);
    }
    forall c ensures BehindChannel(a, c, x) <==> ChannelLeadsTo(a, c, x) {
      ChannelIs(a, c, x);
    }
    forall p ensures BehindPerson(a.world, p, x) <==> PersonLeadsTo(a.world, p, x) {
      PersonIs(a.world, p, x);
    }
  }

  /** What a rule's channel leads to: nobody's choice is asked for. */
  ghost predicate RuleLeadsTo(w: World, c: Channel, x: Leaf) {
    || OnList(StoredDestinations(c), c.id, c.owner, c.secret, x)
    || AtTrailEnd(w, false, StoredDestinations(c), x)
  }

  ghost predicate SomeRuleLeadsTo(w: World, cs: seq<Channel>, x: Leaf) {
    exists c :: c in cs && RuleLeadsTo(w, c, x)
  }

  lemma OneRuleHandles(w: World, c: Channel, log: seq<Entry>, x: Leaf)
    ensures IsHandled(TopWalk(w, Destinations(c), ContextOf(c, false), Walk([], {}, log)).log, x) <==>
              IsHandled(log, x) || RuleLeadsTo(w, c, x)
  {
    var st := Walk([], {}, log);
    HandledIs(log, x);
    HandledIs(TopWalk(w, Destinations(c), ContextOf(c, false), st).log, x);
    TopWalkHandles(w, Destinations(c), ContextOf(c, false), st, x);
    BehindIs(w, Destinations(c), ContextOf(c, false), x);
  }

  /** The rules of an org event reach exactly what some channel of theirs leads to. */
  lemma {:induction false} RulesReachExactly(w: World, cs: seq<Channel>, x: Leaf)
    ensures IsHandled(ChannelsLog(w, cs, []), x) <==> SomeRuleLeadsTo(w, cs, x)
  {
    if |cs| > 0 {
      var before, last := cs[..|cs| - 1], cs[|cs| - 1];
      RulesReachExactly(w, before, x);
      OneRuleHandles(w, last, ChannelsLog(w, before, []), x);
      assert forall c :: c in cs <==> c in before || c == last by {
        assert cs == before + [last];
      }
    }
  }
}
