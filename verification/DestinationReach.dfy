/**
 * What the walk reaches: exactly the names on ref trails, and exactly the supported destinations behind them,
 * although sibling branches share one `visited` set and the graph may be cyclic.
 */
module DestinationReach {
  import opened Wrappers
  import opened Channels
  import opened DestinationWalk
  import opened Sequences

  /** The names a list of destinations refers to. */
  function Refs(ds: seq<Destination>): set<string> {
    set d | d in ds && d.ChannelRef? :: d.name
  }

  /** The names referred to by the channels that name `n` stands for, refused personal channels left out. */
  function RefsBehind(w: World, guarded: bool, ts: seq<Record>): set<string> {
    set t, n | t in ts && Allowed(w, guarded, t.owner) && n in Refs(t.destinations) :: n
  }

  function Successors(w: World, guarded: bool, n: string): set<string> {
    if n in w.targets then RefsBehind(w, guarded, w.targets[n]) else {}
  }

  /** A trail of refs that starts in `start` and never touches `avoid`. */
  ghost predicate Trail(w: World, guarded: bool, start: set<string>, avoid: set<string>, p: seq<string>) {
    && |p| > 0
    && p[0] in start
    && (forall i :: 0 <= i < |p| ==> p[i] !in avoid)
    && (forall i :: 0 <= i < |p| - 1 ==> p[i + 1] in Successors(w, guarded, p[i]))
  }

  ghost predicate Reachable(w: World, guarded: bool, start: set<string>, avoid: set<string>, n: string) {
    exists p :: Trail(w, guarded, start, avoid, p) && p[|p| - 1] == n
  }

  function RefsOf(d: Destination): set<string> {
    if d.ChannelRef? then {d.name} else {}
  }

  /** The names a target refers to, when it is allowed. */
  function RefsVia(w: World, guarded: bool, t: Record): set<string> {
    if Allowed(w, guarded, t.owner) then Refs(t.destinations) else {}
  }

  /** Names added between two states. */
  function Added(st: Walk, r: Walk): seq<string>
    requires |st.visited| <= |r.visited|
  {
    r.visited[|st.visited|..]
  }

  // ---- Closure: every added name has had all its successors visited. ----

  ghost predicate Closed(w: World, guarded: bool, st: Walk, r: Walk)
    requires Extends(st, r)
  {
    && (NoDuplicates(st.visited) ==> NoDuplicates(r.visited))
    && forall n :: n in Added(st, r) ==> Successors(w, guarded, n) <= Names(r.visited)
  }

  lemma ClosedCompose(w: World, guarded: bool, a: Walk, b: Walk, c: Walk)
    requires Extends(a, b) && Extends(b, c)
    requires Closed(w, guarded, a, b) && Closed(w, guarded, b, c)
    ensures Extends(a, c) && Closed(w, guarded, a, c)
    ensures Added(a, c) == Added(a, b) + Added(b, c) && Names(b.visited) <= Names(c.visited)
  {
    assert Added(a, c) == Added(a, b) + Added(b, c);
    assert Names(b.visited) <= Names(c.visited);
  }

  /** Marking a name before its targets are walked is enough: by the end its successors are visited too. */
  lemma MarkedNameCloses(w: World, guarded: bool, n: string, st: Walk, st1: Walk, r: Walk)
    requires n !in st.visited && st1 == Mark(st, n)
    requires Extends(st1, r) && Closed(w, guarded, st1, r)
    requires Successors(w, guarded, n) <= Names(r.visited)
    ensures Extends(st, r) && Closed(w, guarded, st, r)
  {
    AddedAfterMark(n, st, st1, r);
  }

  lemma AddedAfterMark(n: string, st: Walk, st1: Walk, r: Walk)
    requires st1 == Mark(st, n) && Extends(st1, r)
    ensures Extends(st, r) && n in r.visited
    ensures Added(st, r) == [n] + Added(st1, r)
    ensures Logged(st, r) == Logged(st1, r)
  {
    assert n == st1.visited[|st.visited|] == r.visited[|st.visited|];
  }

  lemma {:induction false} OneCloses(w: World, d: Destination, ctx: Context, st: Walk, r: Walk)
    requires r == WalkOne(w, d, ctx, st)
    ensures Closed(w, ctx.guarded, st, r)
    ensures RefsOf(d) <= Names(r.visited)
    decreases Fresh(w, st.visited), 0, 0
  {
    if d.ChannelRef? && d.name !in st.visited {
      var n := d.name;
      var st1 := Mark(st, n);
      FreshShrinks(w, st.visited, st1.visited);
      if n in w.targets {
        TargetsClose(w, w.targets[n], ctx.guarded, st1);
      } else {
        assert Added(st1, r) == [];
      }
      MarkedNameCloses(w, ctx.guarded, n, st, st1, r);
      AddedAfterMark(n, st, st1, r);
    } else {
      assert r.visited == st.visited;
      assert Added(st, r) == [];
    }
  }

  lemma {:induction false} DestsClose(w: World, ds: seq<Destination>, ctx: Context, st: Walk)
    ensures Closed(w, ctx.guarded, st, WalkDests(w, ds, ctx, st))
    ensures Refs(ds) <= Names(WalkDests(w, ds, ctx, st).visited)
    decreases Fresh(w, st.visited), 1, |ds|
  {
    if |ds| > 0 {
      var st1 := WalkOne(w, ds[0], ctx, st);
      FreshShrinks(w, st.visited, st1.visited);
      OneCloses(w, ds[0], ctx, st, st1);
      DestsClose(w, ds[1..], ctx, st1);
      var r := WalkDests(w, ds, ctx, st);
      ClosedCompose(w, ctx.guarded, st, st1, r);
    }
  }

  lemma {:induction false} TargetsClose(w: World, ts: seq<Record>, guarded: bool, st: Walk)
    ensures Closed(w, guarded, st, WalkTargets(w, ts, guarded, st))
    ensures RefsBehind(w, guarded, ts) <= Names(WalkTargets(w, ts, guarded, st).visited)
    decreases Fresh(w, st.visited), 2, |ts|
  {
    if |ts| > 0 {
      var st1 := WalkTarget(w, ts[0], guarded, st);
      FreshShrinks(w, st.visited, st1.visited);
      TargetCloses(w, ts[0], guarded, st, st1);
      TargetsClose(w, ts[1..], guarded, st1);
      ClosedCompose(w, guarded, st, st1, WalkTargets(w, ts, guarded, st));
    }
  }

  lemma {:induction false} TargetCloses(w: World, t: Record, guarded: bool, st: Walk, r: Walk)
    requires r == WalkTarget(w, t, guarded, st)
    ensures Closed(w, guarded, st, r) && RefsVia(w, guarded, t) <= Names(r.visited)
    decreases Fresh(w, st.visited), 2, 0
  {
    if Allowed(w, guarded, t.owner) {
      DestsClose(w, t.destinations, RecordContext(t, guarded), st);
    } else {
      assert Added(st, r) == [];
    }
  }

  // ---- Soundness: every added name is on a trail. ----

  ghost predicate AllReachable(w: World, guarded: bool, start: set<string>, avoid: set<string>, names: seq<string>) {
    forall n :: n in names ==> Reachable(w, guarded, start, avoid, n)
  }

  lemma ReachableThrough(w: World, guarded: bool, n: string, avoid: set<string>, names: seq<string>)
    requires n !in avoid
    requires AllReachable(w, guarded, Successors(w, guarded, n), avoid + {n}, names)
    ensures AllReachable(w, guarded, {n}, avoid, [n] + names)
  {
    forall m | m in [n] + names ensures Reachable(w, guarded, {n}, avoid, m) {
      if m == n {
        assert Trail(w, guarded, {n}, avoid, [n]) && [n][|[n]| - 1] == n;
      } else {
        var p :| Trail(w, guarded, Successors(w, guarded, n), avoid + {n}, p) && p[|p| - 1] == m;
        var q := [n] + p;
        assert forall i :: 0 < i < |q| ==> q[i] == p[i - 1];
        assert Trail(w, guarded, {n}, avoid, q) && q[|q| - 1] == m;
      }
    }
  }

  lemma MarkedNameReaches(w: World, guarded: bool, n: string, st: Walk, st1: Walk, r: Walk)
    requires n !in st.visited && st1 == Mark(st, n) && Extends(st1, r)
    requires AllReachable(w, guarded, Successors(w, guarded, n), Names(st1.visited), Added(st1, r))
    ensures Extends(st, r) && AllReachable(w, guarded, {n}, Names(st.visited), Added(st, r))
  {
    assert Names(st1.visited) == Names(st.visited) + {n};
    AddedAfterMark(n, st, st1, r);
    ReachableThrough(w, guarded, n, Names(st.visited), Added(st1, r));
  }

  lemma {:induction false} OneReaches(w: World, d: Destination, ctx: Context, st: Walk, r: Walk)
    requires r == WalkOne(w, d, ctx, st)
    ensures AllReachable(w, ctx.guarded, RefsOf(d), Names(st.visited), Added(st, r))
    decreases Fresh(w, st.visited), 0, 0
  {
    if d.ChannelRef? && d.name !in st.visited {
      var n := d.name;
      var st1 := Mark(st, n);
      FreshShrinks(w, st.visited, st1.visited);
      if n in w.targets {
        TargetsReach(w, w.targets[n], ctx.guarded, st1);
      } else {
        assert Added(st1, r) == [];
      }
      MarkedNameReaches(w, ctx.guarded, n, st, st1, r);
    } else {
      assert Added(st, r) == [];
    }
  }

  /** Two consecutive stretches of a walk, each reachable from part of the start, are reachable from the whole. */
  lemma ReachesCompose(w: World, guarded: bool, s1: set<string>, s2: set<string>, s: set<string>, a: Walk, b: Walk,
                       c: Walk)
    requires Extends(a, b) && Extends(b, c) && s1 <= s && s2 <= s
    requires AllReachable(w, guarded, s1, Names(a.visited), Added(a, b))
    requires AllReachable(w, guarded, s2, Names(b.visited), Added(b, c))
    ensures AllReachable(w, guarded, s, Names(a.visited), Added(a, c))
  {
    assert Names(a.visited) <= Names(b.visited);
    assert Added(a, c) == Added(a, b) + Added(b, c);
  }

  lemma {:induction false} DestsReach(w: World, ds: seq<Destination>, ctx: Context, st: Walk)
    ensures AllReachable(w, ctx.guarded, Refs(ds), Names(st.visited), Added(st, WalkDests(w, ds, ctx, st)))
    decreases Fresh(w, st.visited), 1, |ds|
  {
    if |ds| > 0 {
      var st1 := WalkOne(w, ds[0], ctx, st);
      FreshShrinks(w, st.visited, st1.visited);
      OneReaches(w, ds[0], ctx, st, st1);
      DestsReach(w, ds[1..], ctx, st1);
      ReachesCompose(w, ctx.guarded, RefsOf(ds[0]), Refs(ds[1..]), Refs(ds), st, st1, WalkDests(w, ds, ctx, st));
    }
  }

  lemma {:induction false} TargetsReach(w: World, ts: seq<Record>, guarded: bool, st: Walk)
    ensures AllReachable(w, guarded, RefsBehind(w, guarded, ts), Names(st.visited),
              Added(st, WalkTargets(w, ts, guarded, st)))
    decreases Fresh(w, st.visited), 2, |ts|
  {
    if |ts| > 0 {
      var st1 := WalkTarget(w, ts[0], guarded, st);
      FreshShrinks(w, st.visited, st1.visited);
      if Allowed(w, guarded, ts[0].owner) {
        DestsReach(w, ts[0].destinations, RecordContext(ts[0], guarded), st);
      }
      TargetsReach(w, ts[1..], guarded, st1);
      ReachesCompose(w, guarded, RefsVia(w, guarded, ts[0]), RefsBehind(w, guarded, ts[1..]),
          RefsBehind(w, guarded, ts), st, st1, WalkTargets(w, ts, guarded, st));
    }
  }

  // ---- The main result: the added names are exactly the reachable ones. ----

  lemma {:induction false} TrailStaysAdded(w: World, guarded: bool, start: set<string>, st: Walk, r: Walk,
                                           p: seq<string>)
    requires Extends(st, r) && Closed(w, guarded, st, r) && start <= Names(r.visited)
    requires Trail(w, guarded, start, Names(st.visited), p)
    ensures p[|p| - 1] in Added(st, r)
    decreases |p|
  {
    var last := p[|p| - 1];
    if |p| > 1 {
      var q := p[..|p| - 1];
      assert Trail(w, guarded, start, Names(st.visited), q);
      TrailStaysAdded(w, guarded, start, st, r, q);
      assert last in Successors(w, guarded, p[|p| - 2]);
    }
    assert last in r.visited && last !in st.visited;
    assert r.visited == st.visited + Added(st, r);
  }

  /**
   * A walk adds a name exactly when a ref trail from its destinations leads there without passing a name already
   * visited.
   */
  lemma WalkAddsExactlyReachable(w: World, ds: seq<Destination>, ctx: Context, st: Walk, n: string)
    ensures n in Added(st, WalkDests(w, ds, ctx, st)) <==>
            Reachable(w, ctx.guarded, Refs(ds), Names(st.visited), n)
  {
    var r := WalkDests(w, ds, ctx, st);
    DestsClose(w, ds, ctx, st);
    DestsReach(w, ds, ctx, st);
    if Reachable(w, ctx.guarded, Refs(ds), Names(st.visited), n) {
      var p :| Trail(w, ctx.guarded, Refs(ds), Names(st.visited), p) && p[|p| - 1] == n;
      TrailStaysAdded(w, ctx.guarded, Refs(ds), st, r, p);
    }
  }

  /** From an empty `visited`: no name twice, exactly the names on ref trails, and closed under successors. */
  lemma FreshWalkVisitsReachable(w: World, ds: seq<Destination>, ctx: Context, st: Walk)
    requires st.visited == []
    ensures var v := WalkDests(w, ds, ctx, st).visited;
            && NoDuplicates(v)
            && (forall n :: n in v <==> Reachable(w, ctx.guarded, Refs(ds), {}, n))
            && (forall n :: n in v ==> Successors(w, ctx.guarded, n) <= Names(v))
  {
    var r := WalkDests(w, ds, ctx, st);
    DestsClose(w, ds, ctx, st);
    assert Names(st.visited) == {};
    assert Added(st, r) == r.visited;
    forall n ensures n in r.visited <==> Reachable(w, ctx.guarded, Refs(ds), {}, n) {
      WalkAddsExactlyReachable(w, ds, ctx, st, n);
    }
  }

  // ---- The destinations handled: each reachable channel is walked once per name and target. ----

  function LeafOf(d: Destination, ctx: Context): Leaf {
    Leaf(ctx.channelId, ctx.owner, d, SecretFor(d, ctx.secret))
  }

  /** The supported destinations of one list, in order. */
  function Leaves(ds: seq<Destination>, ctx: Context): seq<Leaf> {
    if |ds| == 0 then [] else OwnLeaf(ds[0], ctx) + Leaves(ds[1..], ctx)
  }

  function LeavesBehind(w: World, guarded: bool, ts: seq<Record>): seq<Leaf> {
    if |ts| == 0 then []
    else
      (if Allowed(w, guarded, ts[0].owner) then Leaves(ts[0].destinations, RecordContext(ts[0], guarded)) else [])
      + LeavesBehind(w, guarded, ts[1..])
  }

  function LeavesOfName(w: World, guarded: bool, n: string): seq<Leaf> {
    if n in w.targets then LeavesBehind(w, guarded, w.targets[n]) else []
  }

  /** How often a destination occurs behind a list of names. */
  function LeavesOfNames(w: World, guarded: bool, names: seq<string>, x: Leaf): nat {
    if |names| == 0 then 0
    else Occurrences(LeavesOfName(w, guarded, names[0]), x) + LeavesOfNames(w, guarded, names[1..], x)
  }

  /** How often a stretch of the log handled a destination. */
  function Handled(log: seq<Entry>, x: Leaf): nat {
    if |log| == 0 then 0 else (if log[0].leaf == x then 1 else 0) + Handled(log[1..], x)
  }

  function Logged(st: Walk, r: Walk): seq<Entry>
    requires |st.log| <= |r.log|
  {
    r.log[|st.log|..]
  }

  lemma {:induction false} HandledAppend(a: seq<Entry>, b: seq<Entry>, x: Leaf)
    ensures Handled(a + b, x) == Handled(a, x) + Handled(b, x)
  {
    if |a| == 0 {
      assert a + b == b;
    } else {
      HandledAppend(a[1..], b, x);
      assert (a + b)[1..] == a[1..] + b;
    }
  }

  lemma {:induction false} LeavesOfNamesAppend(w: World, guarded: bool, a: seq<string>, b: seq<string>, x: Leaf)
    ensures LeavesOfNames(w, guarded, a + b, x) == LeavesOfNames(w, guarded, a, x) + LeavesOfNames(w, guarded, b, x)
  {
    if |a| == 0 {
      assert a + b == b;
    } else {
      LeavesOfNamesAppend(w, guarded, a[1..], b, x);
      assert (a + b)[1..] == a[1..] + b;
    }
  }

  /** Between two states `x` was handled `own` times plus once per occurrence behind the names added. */
  ghost predicate Accounts(w: World, guarded: bool, own: nat, st: Walk, r: Walk, x: Leaf)
    requires Extends(st, r)
  {
    Handled(Logged(st, r), x) == own + LeavesOfNames(w, guarded, Added(st, r), x)
  }

  lemma AccountsCompose(w: World, guarded: bool, o1: nat, o2: nat, a: Walk, b: Walk, c: Walk, x: Leaf)
    requires Extends(a, b) && Extends(b, c)
    requires Accounts(w, guarded, o1, a, b, x) && Accounts(w, guarded, o2, b, c, x)
    ensures Extends(a, c) && Accounts(w, guarded, o1 + o2, a, c, x)
  {
    assert Logged(a, c) == Logged(a, b) + Logged(b, c);
    assert Added(a, c) == Added(a, b) + Added(b, c);
    HandledAppend(Logged(a, b), Logged(b, c), x);
    LeavesOfNamesAppend(w, guarded, Added(a, b), Added(b, c), x);
  }

  function OwnLeaf(d: Destination, ctx: Context): seq<Leaf> {
    if Supported(d) then [LeafOf(d, ctx)] else []
  }

  lemma StillAccounts(w: World, guarded: bool, st: Walk, x: Leaf)
    ensures Accounts(w, guarded, 0, st, st, x)
  {
    assert Added(st, st) == [] && Logged(st, st) == [];
  }

  lemma LeafAccounts(w: World, d: Destination, ctx: Context, st: Walk, r: Walk, x: Leaf)
    requires Supported(d) && r == DeliverLeaf(w, d, ctx, st)
    ensures Accounts(w, ctx.guarded, Occurrences(OwnLeaf(d, ctx), x), st, r, x)
  {
    assert Added(st, r) == [];
    assert Logged(st, r) == [r.log[|st.log|]];
    assert Handled([r.log[|st.log|]], x) == if LeafOf(d, ctx) == x then 1 else 0;
    assert Occurrences([LeafOf(d, ctx)], x) == if LeafOf(d, ctx) == x then 1 else 0;
  }

  lemma MarkedNameAccounts(w: World, guarded: bool, n: string, st: Walk, st1: Walk, r: Walk, x: Leaf)
    requires st1 == Mark(st, n) && Extends(st1, r)
    requires Accounts(w, guarded, Occurrences(LeavesOfName(w, guarded, n), x), st1, r, x)
    ensures Extends(st, r) && Accounts(w, guarded, 0, st, r, x)
  {
    AddedAfterMark(n, st, st1, r);
    assert ([n] + Added(st1, r))[1..] == Added(st1, r);
  }

  lemma {:induction false} OneAccounts(w: World, d: Destination, ctx: Context, st: Walk, r: Walk, x: Leaf)
    requires r == WalkOne(w, d, ctx, st)
    ensures Accounts(w, ctx.guarded, Occurrences(OwnLeaf(d, ctx), x), st, r, x)
    decreases Fresh(w, st.visited), 0, 0
  {
    if Supported(d) {
      LeafAccounts(w, d, ctx, st, r, x);
    } else if d.ChannelRef? && d.name !in st.visited {
      var n := d.name;
      var st1 := Mark(st, n);
      FreshShrinks(w, st.visited, st1.visited);
      if n in w.targets {
        TargetsAccount(w, w.targets[n], ctx.guarded, st1, x);
      } else {
        StillAccounts(w, ctx.guarded, st1, x);
      }
      MarkedNameAccounts(w, ctx.guarded, n, st, st1, r, x);
    } else {
      StillAccounts(w, ctx.guarded, st, x);
    }
  }

  /** Any destination is handled once for each time it occurs in the list itself and behind each name added. */
  lemma {:induction false} WalkAccounts(w: World, ds: seq<Destination>, ctx: Context, st: Walk, x: Leaf)
    ensures Accounts(w, ctx.guarded, Occurrences(Leaves(ds, ctx), x), st, WalkDests(w, ds, ctx, st), x)
    decreases Fresh(w, st.visited), 1, |ds|
  {
    if |ds| > 0 {
      var st1 := WalkOne(w, ds[0], ctx, st);
      FreshShrinks(w, st.visited, st1.visited);
      OneAccounts(w, ds[0], ctx, st, st1, x);
      WalkAccounts(w, ds[1..], ctx, st1, x);
      OccurrencesAppend(OwnLeaf(ds[0], ctx), Leaves(ds[1..], ctx), x);
      AccountsCompose(w, ctx.guarded, Occurrences(OwnLeaf(ds[0], ctx), x), Occurrences(Leaves(ds[1..], ctx), x),
                      st, st1, WalkDests(w, ds, ctx, st), x);
    }
  }

  lemma {:induction false} TargetsAccount(w: World, ts: seq<Record>, guarded: bool, st: Walk, x: Leaf)
    ensures Accounts(w, guarded, Occurrences(LeavesBehind(w, guarded, ts), x), st, WalkTargets(w, ts, guarded, st), x)
    decreases Fresh(w, st.visited), 2, |ts|
  {
    if |ts| > 0 {
      var st1 := WalkTarget(w, ts[0], guarded, st);
      FreshShrinks(w, st.visited, st1.visited);
      var own := if Allowed(w, guarded, ts[0].owner) then Leaves(ts[0].destinations, RecordContext(ts[0], guarded))
                 else [];
      if Allowed(w, guarded, ts[0].owner) {
        WalkAccounts(w, ts[0].destinations, RecordContext(ts[0], guarded), st, x);
      }
      TargetsAccount(w, ts[1..], guarded, st1, x);
      OccurrencesAppend(own, LeavesBehind(w, guarded, ts[1..]), x);
      AccountsCompose(w, guarded, Occurrences(own, x), Occurrences(LeavesBehind(w, guarded, ts[1..]), x),
                      st, st1, WalkTargets(w, ts, guarded, st), x);
    }
  }

  lemma {:induction false} OccursBehindSome(w: World, guarded: bool, names: seq<string>, x: Leaf)
    ensures LeavesOfNames(w, guarded, names, x) > 0 <==>
            exists n :: n in names && Occurrences(LeavesOfName(w, guarded, n), x) > 0
  {
    if |names| > 0 {
      OccursBehindSome(w, guarded, names[1..], x);
      assert names == [names[0]] + names[1..];
    }
  }

  /**
   * From an empty `visited`, a destination is handled if and only if it is one of the list's own or sits on an
   * allowed channel behind a name that some ref trail leads to.
   */
  lemma FreshWalkHandlesExactly(w: World, ds: seq<Destination>, ctx: Context, st: Walk, x: Leaf)
    requires st.visited == []
    ensures Handled(Logged(st, WalkDests(w, ds, ctx, st)), x) > 0 <==>
            || Occurrences(Leaves(ds, ctx), x) > 0
            || exists n :: Reachable(w, ctx.guarded, Refs(ds), {}, n)
                 && Occurrences(LeavesOfName(w, ctx.guarded, n), x) > 0
  {
    var r := WalkDests(w, ds, ctx, st);
    WalkAccounts(w, ds, ctx, st, x);
    FreshWalkVisitsReachable(w, ds, ctx, st);
    assert Added(st, r) == r.visited;
    OccursBehindSome(w, ctx.guarded, r.visited, x);
  }

  // ---- Who is reached. ----

  /** The person of a destination, if any, may receive the event, and has not switched it off unless in `forced`. */
  ghost predicate OwnerOk(w: World, forced: set<string>, owner: Option<string>) {
    owner.Some? ==> owner.value in w.mayReceive && (owner.value in w.personOff ==> owner.value in forced)
  }

  ghost predicate PeopleRespected(w: World, forced: set<string>, log: seq<Entry>) {
    forall i :: 0 <= i < |log| ==> OwnerOk(w, forced, log[i].leaf.owner)
  }

  /**
   * A destination belongs to its own channel, and a webhook is signed with that channel's secret column, or else with
   * the secret written in the destination.
   */
  ghost predicate SignedFor(x: Leaf, channelId: string, column: Option<string>) {
    var webhook := x.dest.Webhook? || x.dest.Http?;
    && x.channelId == channelId
    && (!webhook ==> x.secret.None?)
    && (webhook && column.Some? && column.value != "" ==> x.secret == column)
    && (webhook && (column.None? || column.value == "") ==>
          if x.dest.secret.Some? && x.dest.secret.value != "" then x.secret == x.dest.secret else x.secret.None?)
  }

  lemma {:induction false} LeafOwner(ds: seq<Destination>, ctx: Context, x: Leaf)
    requires Occurrences(Leaves(ds, ctx), x) > 0
    ensures x.owner == ctx.owner && SignedFor(x, ctx.channelId, ctx.secret)
  {
    OccurrencesAppend(OwnLeaf(ds[0], ctx), Leaves(ds[1..], ctx), x);
    if Occurrences(OwnLeaf(ds[0], ctx), x) == 0 {
      LeafOwner(ds[1..], ctx, x);
    }
  }

  lemma {:induction false} LeafBehind(w: World, guarded: bool, ts: seq<Record>, x: Leaf) returns (t: Record)
    requires Occurrences(LeavesBehind(w, guarded, ts), x) > 0
    ensures t in ts && Allowed(w, guarded, t.owner) && x.owner == t.owner && SignedFor(x, t.id, None)
  {
    var own := if Allowed(w, guarded, ts[0].owner) then Leaves(ts[0].destinations, RecordContext(ts[0], guarded))
               else [];
    OccurrencesAppend(own, LeavesBehind(w, guarded, ts[1..]), x);
    if Occurrences(own, x) > 0 {
      t := ts[0];
      LeafOwner(t.destinations, RecordContext(t, guarded), x);
    } else {
      t := LeafBehind(w, guarded, ts[1..], x);
      HeadOrTail(ts);
    }
  }

  lemma {:induction false} HandledMember(log: seq<Entry>, i: nat)
    requires i < |log|
    ensures Handled(log, log[i].leaf) > 0
  {
    if i > 0 {
      HandledMember(log[1..], i - 1);
    }
  }

  /** The entry comes from an allowed channel behind a name the walk added, and nothing but its own config signs it. */
  ghost predicate ComesThroughRef(w: World, ctx: Context, st: Walk, r: Walk, x: Leaf)
    requires Extends(st, r)
  {
    exists n, t :: n in Added(st, r) && n in w.targets && t in w.targets[n]
      && Allowed(w, ctx.guarded, t.owner) && x.owner == t.owner && SignedFor(x, t.id, None)
  }

  /**
   * What is delivered carries its own channel's id and owner. A webhook of the list itself is signed with the channel's
   * secret column first; behind a ref it has at most the secret in its own config.
   */
  lemma WalkSignsByChannel(w: World, ds: seq<Destination>, ctx: Context, st: Walk, i: nat)
    requires |st.log| <= i < |WalkDests(w, ds, ctx, st).log|
    ensures var r := WalkDests(w, ds, ctx, st);
            var x := r.log[i].leaf;
            || (Occurrences(Leaves(ds, ctx), x) > 0 && x.owner == ctx.owner && SignedFor(x, ctx.channelId, ctx.secret))
            || ComesThroughRef(w, ctx, st, r, x)
  {
    var r := WalkDests(w, ds, ctx, st);
    var x := r.log[i].leaf;
    HandledMember(Logged(st, r), i - |st.log|);
    WalkAccounts(w, ds, ctx, st, x);
    if Occurrences(Leaves(ds, ctx), x) > 0 {
      LeafOwner(ds, ctx, x);
    } else {
      OccursBehindSome(w, ctx.guarded, Added(st, r), x);
      var n :| n in Added(st, r) && Occurrences(LeavesOfName(w, ctx.guarded, n), x) > 0;
      var t := LeafBehind(w, ctx.guarded, w.targets[n], x);
    }
  }

  /**
   * A channel's secret column, where it is not also what the destination's config says, signs a webhook exactly when
   * the webhook is on the list of the channel walked directly: never behind a ref, whichever channel that leads to.
   */
  lemma ColumnSignsOnlyDirectly(w: World, ds: seq<Destination>, ctx: Context, st: Walk, i: nat, column: string)
    requires |st.log| <= i < |WalkDests(w, ds, ctx, st).log|
    requires column != "" && ctx.secret == Some(column)
    requires var x := WalkDests(w, ds, ctx, st).log[i].leaf;
             (x.dest.Webhook? || x.dest.Http?) && x.dest.secret != Some(column)
    ensures var x := WalkDests(w, ds, ctx, st).log[i].leaf;
            x.secret == Some(column) <==> Occurrences(Leaves(ds, ctx), x) > 0
  {
    WalkSignsByChannel(w, ds, ctx, st, i);
    var x := WalkDests(w, ds, ctx, st).log[i].leaf;
    if Occurrences(Leaves(ds, ctx), x) > 0 {
      LeafOwner(ds, ctx, x);
    }
  }

  lemma OneDestWalk(w: World, d: Destination, ctx: Context, st: Walk)
    ensures WalkDests(w, [d], ctx, st) == WalkOne(w, d, ctx, st)
  {
    var st1 := WalkOne(w, d, ctx, st);
    assert [d][1..] == [] && [d][0] == d;
    assert WalkDests(w, [d], ctx, st) == WalkDests(w, [d][1..], ctx, st1);
  }

  lemma OneTargetWalk(w: World, t: Record, guarded: bool, st: Walk)
    ensures WalkTargets(w, [t], guarded, st) == WalkTarget(w, t, guarded, st)
  {
    var st1 := WalkTarget(w, t, guarded, st);
    assert [t][1..] == [] && [t][0] == t;
    assert WalkTargets(w, [t], guarded, st) == WalkTargets(w, [t][1..], guarded, st1);
  }

  /** One channel, walked directly and through a ref to it: the ref loses its secret column. */
  lemma RefLosesColumn(w: World, url: string, column: string)
    requires column != "" && w.targets == map["hooks" := [Record("hooks", None, [Webhook(Some(url), None)])]]
    ensures var d, empty := Webhook(Some(url), None), Walk([], {}, []);
            var direct := WalkDests(w, [d], Context("hooks", None, Some(column), true), empty).log;
            var behind := WalkDests(w, [ChannelRef("hooks")], Context("other", None, Some(column), true), empty).log;
            && |direct| == 1 && direct[0].leaf == Leaf("hooks", None, d, Some(column))
            && |behind| == 1 && behind[0].leaf == Leaf("hooks", None, d, None)
  {
    var d, empty := Webhook(Some(url), None), Walk([], {}, []);
    var t := Record("hooks", None, [d]);
    var ctx := Context("other", None, Some(column), true);
    OneDestWalk(w, d, Context("hooks", None, Some(column), true), empty);
    OneDestWalk(w, ChannelRef("hooks"), ctx, empty);
    OneTargetWalk(w, t, true, Mark(empty, "hooks"));
    OneDestWalk(w, d, RecordContext(t, true), Mark(empty, "hooks"));
  }

  /** Through any nesting of refs, a guarded walk hands nothing to a person who may not receive it. */
  lemma WalkRespectsPeople(w: World, forced: set<string>, ds: seq<Destination>, ctx: Context, st: Walk)
    requires ctx.guarded && OwnerOk(w, forced, ctx.owner)
    requires PeopleRespected(w, forced, st.log)
    ensures PeopleRespected(w, forced, WalkDests(w, ds, ctx, st).log)
  {
    var r := WalkDests(w, ds, ctx, st);
    forall i | |st.log| <= i < |r.log|
      ensures OwnerOk(w, forced, r.log[i].leaf.owner)
    {
      WalkSignsByChannel(w, ds, ctx, st, i);
    }
  }
}
