/**
 * The walk over destinations and channel refs, as a function of the shared state
 * (src/notifications/fan_out.service.ts, deliver_destinations).
 */
module DestinationWalk {
  import opened Wrappers
  import opened Channels

  function Names(names: seq<string>): set<string> {
    set n | n in names
  }

  /** How many resolvable names are still unvisited: the outer termination measure. */
  function Fresh(w: World, visited: seq<string>): nat {
    |w.targets.Keys - Names(visited)|
  }

  /** The shared state only grows. */
  ghost predicate Extends(st: Walk, r: Walk) {
    st.visited <= r.visited && st.sent <= r.sent && st.log <= r.log
  }

  lemma FreshShrinks(w: World, a: seq<string>, b: seq<string>)
    requires a <= b
    ensures Fresh(w, b) <= Fresh(w, a)
    ensures forall n :: n in w.targets && n !in a && n in b ==> Fresh(w, b) < Fresh(w, a)
  {
    var x, y := w.targets.Keys - Names(a), w.targets.Keys - Names(b);
    assert y <= x;
    SubsetSize(y, x);
    forall n | n in w.targets && n !in a && n in b
      ensures Fresh(w, b) < Fresh(w, a)
    {
      assert y <= x - {n};
      SubsetSize(y, x - {n});
    }
  }

  lemma SubsetSize<T>(a: set<T>, b: set<T>)
    requires a <= b
    ensures |a| <= |b|
  {
    assert b == a + (b - a);
  }

  /** `visited.add(n)` */
  function Mark(st: Walk, n: string): Walk {
    st.(visited := st.visited + [n])
  }

  /** One supported destination: skipped when its endpoint was already taken, otherwise handed to its deliverer. */
  function DeliverLeaf(w: World, d: Destination, ctx: Context, st: Walk): (r: Walk)
    ensures Extends(st, r)
  {
    var leaf := Leaf(ctx.channelId, ctx.owner, d, SecretFor(d, ctx.secret));
    var key := TakeKey(d);
    if ctx.guarded && key.Some? && key.value in st.sent then
      st.(log := st.log + [Entry(leaf, AlreadySent)])
    else
      var sent := if ctx.guarded && key.Some? then st.sent + {key.value} else st.sent;
      st.(sent := sent, log := st.log + [Entry(leaf, if w.accepts(|st.log|) then Accepted else Threw)])
  }

  function WalkOne(w: World, d: Destination, ctx: Context, st: Walk): (r: Walk)
    ensures Extends(st, r)
    decreases Fresh(w, st.visited), 0, 0
  {
    match d
    case ChannelRef(n) =>
      if n in st.visited then st
      else
        var st1 := Mark(st, n);
        if n in w.targets then
          FreshShrinks(w, st.visited, st1.visited);
          WalkTargets(w, w.targets[n], ctx.guarded, st1)
        else st1
    case _ => if Supported(d) then DeliverLeaf(w, d, ctx, st) else st
  }

  function WalkDests(w: World, ds: seq<Destination>, ctx: Context, st: Walk): (r: Walk)
    ensures Extends(st, r)
    decreases Fresh(w, st.visited), 1, |ds|
  {
    if |ds| == 0 then st
    else
      var st1 := WalkOne(w, ds[0], ctx, st);
      FreshShrinks(w, st.visited, st1.visited);
      WalkDests(w, ds[1..], ctx, st1)
  }

  function WalkTargets(w: World, ts: seq<Record>, guarded: bool, st: Walk): (r: Walk)
    ensures Extends(st, r)
    decreases Fresh(w, st.visited), 2, |ts|
  {
    if |ts| == 0 then st
    else
      var st1 := WalkTarget(w, ts[0], guarded, st);
      FreshShrinks(w, st.visited, st1.visited);
      WalkTargets(w, ts[1..], guarded, st1)
  }

  function WalkTarget(w: World, t: Record, guarded: bool, st: Walk): (r: Walk)
    ensures Extends(st, r)
    decreases Fresh(w, st.visited), 2, 0
  {
    if !Allowed(w, guarded, t.owner) then st
    else WalkDests(w, t.destinations, RecordContext(t, guarded), st)
  }

  /** What `any_success` reports: some destination reached since `from` was accepted or had been sent already. */
  predicate AnySuccess(log: seq<Entry>, from: nat) {
    exists i :: from <= i < |log| && log[i].outcome != Threw
  }

  lemma SuccessAppends(a: seq<Entry>, b: seq<Entry>, c: seq<Entry>)
    requires a <= b <= c
    ensures AnySuccess(c, |a|) <==> AnySuccess(b, |a|) || AnySuccess(c, |b|)
  {
  }

  // ---- What a walk keeps. ----

  /** Handing over a destination keeps `inv`, and which names were visited plays no part in it. */
  ghost predicate Keeps(w: World, guarded: bool, inv: Walk -> bool) {
    && (forall d, ctx: Context, st ::
          Supported(d) && ctx.guarded == guarded && inv(st) ==> inv(DeliverLeaf(w, d, ctx, st)))
    && (forall st: Walk, visited :: inv(st) ==> inv(st.(visited := visited)))
  }

  lemma {:induction false} OneKeeps(w: World, d: Destination, ctx: Context, st: Walk, inv: Walk -> bool)
    requires Keeps(w, ctx.guarded, inv) && inv(st)
    ensures inv(WalkOne(w, d, ctx, st))
    decreases Fresh(w, st.visited), 0, 0
  {
    if d.ChannelRef? && d.name !in st.visited {
      var st1 := Mark(st, d.name);
      assert inv(st1);
      if d.name in w.targets {
        FreshShrinks(w, st.visited, st1.visited);
        TargetsKeep(w, w.targets[d.name], ctx.guarded, st1, inv);
      }
    }
  }

  /** Whatever handing over one destination keeps, a whole walk keeps. */
  lemma {:induction false} WalkKeeps(w: World, ds: seq<Destination>, ctx: Context, st: Walk, inv: Walk -> bool)
    requires Keeps(w, ctx.guarded, inv) && inv(st)
    ensures inv(WalkDests(w, ds, ctx, st))
    decreases Fresh(w, st.visited), 1, |ds|
  {
    if |ds| > 0 {
      var st1 := WalkOne(w, ds[0], ctx, st);
      FreshShrinks(w, st.visited, st1.visited);
      OneKeeps(w, ds[0], ctx, st, inv);
      WalkKeeps(w, ds[1..], ctx, st1, inv);
    }
  }

  lemma {:induction false} TargetsKeep(w: World, ts: seq<Record>, guarded: bool, st: Walk, inv: Walk -> bool)
    requires Keeps(w, guarded, inv) && inv(st)
    ensures inv(WalkTargets(w, ts, guarded, st))
    decreases Fresh(w, st.visited), 2, |ts|
  {
    if |ts| > 0 {
      var st1 := WalkTarget(w, ts[0], guarded, st);
      FreshShrinks(w, st.visited, st1.visited);
      if Allowed(w, guarded, ts[0].owner) {
        WalkKeeps(w, ts[0].destinations, RecordContext(ts[0], guarded), st, inv);
      }
      TargetsKeep(w, ts[1..], guarded, st1, inv);
    }
  }
}
