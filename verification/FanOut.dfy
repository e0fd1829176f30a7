/**
 * The fan-out as it runs: sets and counters updated in place, one `EventSends` threaded through every delivery
 * (src/notifications/fan_out.service.ts). Each method is tied to the function of the shared state it computes.
 */
module FanOut {
  import opened Wrappers
  import opened Channels
  import opened DestinationWalk
  import opened EventDelivery

  /** What one event has already sent. */
  class EventSends {
    var keys: set<string>

    constructor ()
      ensures keys == {}
    {
      keys := {};
    }

    /** True the first time `key` is seen. */
    method Take(key: string) returns (first: bool)
      modifies this
      ensures first <==> key !in old(keys)
      ensures keys == old(keys) + {key}
    {
      first := key !in keys;
      keys := keys + {key};
    }
  }

  /** The `visited` set of one top-level call, in insertion order. */
  class Visited {
    var names: seq<string>

    constructor ()
      ensures names == []
    {
      names := [];
    }

    method Add(name: string)
      modifies this
      ensures names == old(names) + [name]
    {
      names := names + [name];
    }
  }

  class FanOutService {
    const world: World
    /** Every supported destination reached, in order. */
    var log: seq<Entry>

    constructor (world: World)
      ensures this.world == world && log == []
    {
      this.world := world;
      log := [];
    }

    ghost function State(visited: Visited, sends: EventSends): Walk
      reads this, visited, sends
    {
      Walk(visited.names, sends.keys, log)
    }

    /** One supported destination. Without an `EventSends` (`ctx.guarded` false) nothing is skipped or taken. */
    method DeliverLeaf(d: Destination, visited: Visited, sends: EventSends, ctx: Context) returns (ok: bool)
      requires Supported(d)
      modifies this, sends
      ensures State(visited, sends) == DestinationWalk.DeliverLeaf(world, d, ctx, old(State(visited, sends)))
      ensures |log| == |old(log)| + 1 && ok == (log[|old(log)|].outcome != Threw)
    {
      var leaf := Leaf(ctx.channelId, ctx.owner, d, SecretFor(d, ctx.secret));
      var key := TakeKey(d);
      if ctx.guarded && key.Some? {
        var first := sends.Take(key.value);
        if !first {
          assert sends.keys == old(sends.keys);
          log := log + [Entry(leaf, AlreadySent)];
          return true;
        }
      }
      ok := world.accepts(|log|);
      log := log + [Entry(leaf, if ok then Accepted else Threw)];
    }

    /** One destination: a ref is followed unless its name was visited, an unsupported one is passed over. */
    method DeliverOne(d: Destination, visited: Visited, sends: EventSends, ctx: Context) returns (ok: bool)
      modifies this, visited, sends
      ensures State(visited, sends) == WalkOne(world, d, ctx, old(State(visited, sends)))
      ensures ok == AnySuccess(log, |old(log)|)
      decreases Fresh(world, visited.names), 0
    {
      ok := false;
      if d.ChannelRef? {
        if d.name !in visited.names {
          ghost var before := visited.names;
          visited.Add(d.name);
          FreshShrinks(world, before, visited.names);
          if d.name in world.targets {
            ok := DeliverTargets(world.targets[d.name], visited, sends, ctx.guarded);
          }
        }
      } else if Supported(d) {
        ok := DeliverLeaf(d, visited, sends, ctx);
      }
    }

    /** Deliver to a list of destinations, following refs; cycles end at `visited`. */
    method DeliverDestinations(ds: seq<Destination>, visited: Visited, sends: EventSends, ctx: Context)
      returns (ok: bool)
      modifies this, visited, sends
      ensures State(visited, sends) == WalkDests(world, ds, ctx, old(State(visited, sends)))
      ensures ok == AnySuccess(log, |old(log)|)
      decreases Fresh(world, visited.names), 1
    {
      ok := false;
      ghost var st0 := State(visited, sends);
      for i := 0 to |ds|
        invariant Extends(st0, State(visited, sends))
        invariant WalkDests(world, ds, ctx, st0) == WalkDests(world, ds[i..], ctx, State(visited, sends))
        invariant ok == AnySuccess(log, |st0.log|)
      {
        ghost var st1 := State(visited, sends);
        FreshShrinks(world, st0.visited, st1.visited);
        assert ds[i..][0] == ds[i] && ds[i..][1..] == ds[i + 1..];
        var one := DeliverOne(ds[i], visited, sends, ctx);
        SuccessAppends(st0.log, st1.log, log);
        ok := ok || one;
      }
      assert ds[|ds|..] == [];
    }

    /** The channels one ref name stands for; a personal channel is passed over unless its person may get the event. */
    method DeliverTargets(ts: seq<Record>, visited: Visited, sends: EventSends, guarded: bool) returns (ok: bool)
      modifies this, visited, sends
      ensures State(visited, sends) == WalkTargets(world, ts, guarded, old(State(visited, sends)))
      ensures ok == AnySuccess(log, |old(log)|)
      decreases Fresh(world, visited.names), 2
    {
      ok := false;
      ghost var st0 := State(visited, sends);
      for j := 0 to |ts|
        invariant Extends(st0, State(visited, sends))
        invariant WalkTargets(world, ts, guarded, st0) == WalkTargets(world, ts[j..], guarded, State(visited, sends))
        invariant ok == AnySuccess(log, |st0.log|)
      {
        ghost var st1 := State(visited, sends);
        assert ts[j..][0] == ts[j] && ts[j..][1..] == ts[j + 1..];
        FreshShrinks(world, st0.visited, st1.visited);
        if Allowed(world, guarded, ts[j].owner) {
          var child := DeliverDestinations(ts[j].destinations, visited, sends, RecordContext(ts[j], guarded));
          SuccessAppends(st0.log, st1.log, log);
          ok := ok || child;
        }
      }
      assert ts[|ts|..] == [];
    }

    /** What is shared between top-level calls. */
    ghost function Shared(sends: EventSends): Walk
      reads this, sends
    {
      Walk([], sends.keys, log)
    }

    /** A top-level call with its own `visited`. */
    method DeliverTop(ds: seq<Destination>, sends: EventSends, ctx: Context) returns (ok: bool)
      modifies this, sends
      ensures Shared(sends) == TopWalk(world, ds, ctx, old(Shared(sends)))
      ensures ok == AnySuccess(log, |old(log)|)
    {
      var visited := new Visited();
      ok := DeliverDestinations(ds, visited, sends, ctx);
    }

    /** "All org / realm members": each member through their own channel's destinations other than in-app. */
    method DeliverToMembersTheirWay(members: seq<Personal>, sends: EventSends) returns (any: bool)
      modifies this, sends
      ensures Shared(sends) == MembersSteps(world, members, old(Shared(sends)))
      ensures any == AnySuccess(log, |old(log)|)
    {
      any := false;
      ghost var st0 := Shared(sends);
      for i := 0 to |members|
        invariant st0.log <= log
        invariant MembersSteps(world, members, st0) == MembersSteps(world, members[i..], Shared(sends))
        invariant any == AnySuccess(log, |st0.log|)
      {
        var p := members[i];
        assert members[i..][0] == p && members[i..][1..] == members[i + 1..];
        ghost var before := log;
        if PersonReached(world, p) {
          var sent := DeliverTop(WithoutInApp(Destinations(p.channel)), sends, PersonalContext(p));
          SuccessAppends(st0.log, before, log);
          any := any || sent;
        }
      }
      assert members[|members|..] == [];
    }

    /**
     * Deliver one event to the channels with these ids, an org's "All realm members" replaced by the realm's own, then
     * to the person layer. `raised` names the failing channels.
     */
    method DeliverForChannelIds(members: map<string, seq<Personal>>, eventType: string, ids: seq<string>, realm: string,
                                lookup: ChannelLookup, people: seq<Personal>)
      returns (status: Status, raised: seq<string>)
      requires log == []
      modifies this
      ensures var report := DeliverEvent(Audience(world, members), eventType, FoundFor(ids, realm, lookup), people);
              status == report.status && raised == report.end.raised && log == report.end.st.log
    {
      var found := FoundFor(ids, realm, lookup);
      status, raised := DeliverFound(members, eventType, found, people);
    }

    /** The channel loop and the person layer. */
    method DeliverFound(members: map<string, seq<Personal>>, eventType: string, found: seq<Channel>,
                        people: seq<Personal>)
      returns (status: Status, raised: seq<string>)
      requires log == []
      modifies this
      ensures var report := DeliverEvent(Audience(world, members), eventType, found, people);
              status == report.status && raised == report.end.raised && log == report.end.st.log
    {
      if |found| == 0 && |people| == 0 {
        return Skipped, [];
      }
      var sends := new EventSends();
      var channels := SharedFirst(found);
      SharedFirstOrders(found);
      var failures: nat;
      failures, raised := DeliverChannels(members, eventType, channels, sends);
      DeliverPeople(people, sends);
      status := if |channels| > 0 && failures > 0 && failures >= |channels| then Failed else Dispatched;
    }

    /** The channel loop. */
    method DeliverChannels(members: map<string, seq<Personal>>, eventType: string, channels: seq<Channel>,
                           sends: EventSends)
      returns (failures: nat, raised: seq<string>)
      modifies this, sends
      ensures Progress(Shared(sends), failures, raised) ==
              ChannelSteps(Audience(world, members), eventType, channels, Progress(old(Shared(sends)), 0, []))
    {
      failures, raised := 0, [];
      ghost var a := Audience(world, members);
      ghost var start := Progress(Shared(sends), 0, []);
      for i := 0 to |channels|
        invariant ChannelSteps(a, eventType, channels, start) ==
                    ChannelSteps(a, eventType, channels[i..], Progress(Shared(sends), failures, raised))
      {
        assert channels[i..][0] == channels[i] && channels[i..][1..] == channels[i + 1..];
        failures, raised := DeliverChannel(members, eventType, channels[i], sends, failures, raised);
      }
      assert channels[|channels|..] == [];
    }

    /** One channel of the event: its own destinations and, for a members channel, its members. */
    method DeliverChannel(members: map<string, seq<Personal>>, eventType: string, c: Channel, sends: EventSends,
                          failures: nat, raised: seq<string>)
      returns (failures': nat, raised': seq<string>)
      modifies this, sends
      ensures Progress(Shared(sends), failures', raised') ==
              ChannelStep(Audience(world, members), eventType, c, old(Progress(Shared(sends), failures, raised)))
    {
      failures', raised' := failures, raised;
      if !Allowed(world, true, c.owner) {
        return;
      }
      if |Destinations(c)| == 0 && !MembersWay(c) {
        failures' := failures + 1;
        return;
      }
      ghost var start := log;
      var ok := DeliverTop(Destinations(c), sends, ContextOf(c, true));
      if MembersWay(c) && c.id in members {
        ghost var mid := log;
        var any := DeliverToMembersTheirWay(members[c.id], sends);
        SuccessAppends(start, mid, log);
        ok := ok || any;
      }
      if !ok {
        failures' := failures + 1;
        if eventType != "notification.failed" {
          raised' := raised + [c.id];
        }
      }
    }

    /** The person layer: a forced person is reached even when they switched the event off. */
    method DeliverPeople(people: seq<Personal>, sends: EventSends)
      modifies this, sends
      ensures Shared(sends) == PeopleSteps(world, people, old(Shared(sends)))
    {
      ghost var st0 := Shared(sends);
      for i := 0 to |people|
        invariant PeopleSteps(world, people, st0) == PeopleSteps(world, people[i..], Shared(sends))
      {
        var p := people[i];
        assert people[i..][0] == p && people[i..][1..] == people[i + 1..];
        if p.user in world.mayReceive && (p.force || p.user !in world.personOff) {
          var _ := DeliverTop(Destinations(p.channel), sends, PersonalContext(p));
        }
      }
      assert people[|people|..] == [];
    }
  }
}
