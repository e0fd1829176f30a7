/**
 * Walks without an `EventSends`, as the rules of an org event make them (src/notifications/fan_out.service.ts:188-195):
 * nothing is remembered between channels, so an endpoint is posted to once for every place that leads to it.
 */
module UnguardedWalk {
  import opened Wrappers
  import opened Channels
  import opened DestinationWalk
  import opened DestinationReach
  import opened DestinationOnce
  import opened EventDelivery
  import opened Sequences

  function LeavesIn(log: seq<Entry>): seq<Leaf> {
    seq(|log|, i requires 0 <= i < |log| => log[i].leaf)
  }

  function HasKey(key: string): Leaf -> bool {
    (x: Leaf) => TakeKey(x.dest) == Some(key)
  }

  /** How many entries of a log are for an endpoint, posted or not. */
  function Mentions(log: seq<Entry>, key: string): nat {
    |Keep(LeavesIn(log), HasKey(key))|
  }

  // ---- Without an `EventSends` every entry is a post. ----

  ghost predicate AllPosted(st: Walk, key: string) {
    Posts(st.log, key) == Mentions(st.log, key)
  }

  lemma LeafPosts(w: World, d: Destination, ctx: Context, st: Walk, key: string)
    requires !ctx.guarded && AllPosted(st, key)
    ensures AllPosted(DeliverLeaf(w, d, ctx, st), key)
  {
    var log := DeliverLeaf(w, d, ctx, st).log;
    assert log[..|log| - 1] == st.log;
    assert LeavesIn(log) == LeavesIn(st.log) + [log[|st.log|].leaf];
    KeepAppend(LeavesIn(st.log), [log[|st.log|].leaf], HasKey(key));
  }

  /** A walk without an `EventSends` posts every endpoint as often as it handles it. */
  lemma WalkPosts(w: World, ds: seq<Destination>, ctx: Context, st: Walk, key: string)
    requires !ctx.guarded && AllPosted(st, key)
    ensures AllPosted(WalkDests(w, ds, ctx, st), key)
  {
    var inv := (s: Walk) => AllPosted(s, key);
    forall d, c: Context, s | !c.guarded && inv(s) ensures inv(DeliverLeaf(w, d, c, s)) {
      LeafPosts(w, d, c, s, key);
    }
    WalkKeeps(w, ds, ctx, st, inv);
  }

  // ---- What a walk handles, as a multiset of places. ----

  lemma {:induction false} OccurrencesIsMultiset<T>(xs: seq<T>, x: T)
    ensures Occurrences(xs, x) == multiset(xs)[x]
  {
    if |xs| > 0 {
      OccurrencesIsMultiset(xs[1..], x);
      assert xs == [xs[0]] + xs[1..];
    }
  }

  lemma {:induction false} HandledIsOccurrences(log: seq<Entry>, x: Leaf)
    ensures Handled(log, x) == Occurrences(LeavesIn(log), x)
  {
    if |log| > 0 {
      HandledIsOccurrences(log[1..], x);
      assert LeavesIn(log)[1..] == LeavesIn(log[1..]);
    }
  }

  /** The destinations behind a list of names, in order. */
  function LeavesBehindNames(w: World, names: seq<string>): seq<Leaf> {
    if |names| == 0 then [] else LeavesOfName(w, false, names[0]) + LeavesBehindNames(w, names[1..])
  }

  lemma {:induction false} NamesOccurrences(w: World, names: seq<string>, x: Leaf)
    ensures LeavesOfNames(w, false, names, x) == Occurrences(LeavesBehindNames(w, names), x)
  {
    if |names| > 0 {
      NamesOccurrences(w, names[1..], x);
      OccurrencesAppend(LeavesOfName(w, false, names[0]), LeavesBehindNames(w, names[1..]), x);
    }
  }

  lemma {:induction false} NamesPermute(w: World, a: seq<string>, b: seq<string>, x: Leaf)
    requires multiset(a) == multiset(b)
    ensures LeavesOfNames(w, false, a, x) == LeavesOfNames(w, false, b, x)
    decreases |a|
  {
    if |a| == 0 {
      assert |multiset(b)| == 0;
    } else {
      var i := RemoveHead(a, b);
      NamesPermute(w, a[1..], b[..i] + b[i + 1..], x);
      LeavesOfNamesAppend(w, false, b[..i], b[i + 1..], x);
      LeavesOfNamesAppend(w, false, b[..i], b[i..], x);
      assert b == b[..i] + b[i..] && b[i..][1..] == b[i + 1..];
    }
  }

  /** The places a channel leads to: its own destinations and those behind the given names. */
  function Places(w: World, c: Channel, names: seq<string>): seq<Leaf> {
    Leaves(Destinations(c), ContextOf(c, false)) + LeavesBehindNames(w, names)
  }

  /** `names` lists exactly the names that ref trails from the channel lead to, each once, in any order. */
  ghost predicate Enumerates(w: World, c: Channel, names: seq<string>) {
    NoDuplicates(names) && forall n :: n in names <==> Reachable(w, false, Refs(Destinations(c)), {}, n)
  }

  /** How many of those places are the endpoint. */
  function PlacesWith(w: World, c: Channel, names: seq<string>, key: string): nat {
    |Keep(Places(w, c, names), HasKey(key))|
  }

  lemma WalkHandlesPlaces(w: World, c: Channel, names: seq<string>, st: Walk, x: Leaf)
    requires st.visited == [] && Enumerates(w, c, names)
    ensures multiset(LeavesIn(Logged(st, WalkDests(w, Destinations(c), ContextOf(c, false), st))))[x] ==
              multiset(Places(w, c, names))[x]
  {
    var ds, ctx := Destinations(c), ContextOf(c, false);
    var r := WalkDests(w, ds, ctx, st);
    WalkAccounts(w, ds, ctx, st, x);
    FreshWalkVisitsReachable(w, ds, ctx, st);
    assert Added(st, r) == r.visited;
    SameNamesPermute(r.visited, names);
    NamesPermute(w, r.visited, names, x);
    NamesOccurrences(w, names, x);
    OccurrencesAppend(Leaves(ds, ctx), LeavesBehindNames(w, names), x);
    HandledIsOccurrences(Logged(st, r), x);
    OccurrencesIsMultiset(LeavesIn(Logged(st, r)), x);
    OccurrencesIsMultiset(Places(w, c, names), x);
  }

  /** One channel walked from scratch adds one entry for an endpoint per place it leads to. */
  lemma WalkMentions(w: World, c: Channel, names: seq<string>, st: Walk, key: string)
    requires st.visited == [] && Enumerates(w, c, names)
    ensures Mentions(WalkDests(w, Destinations(c), ContextOf(c, false), st).log, key) ==
              Mentions(st.log, key) + PlacesWith(w, c, names, key)
  {
    var r := WalkDests(w, Destinations(c), ContextOf(c, false), st);
    var added := Logged(st, r);
    assert multiset(LeavesIn(added)) == multiset(Places(w, c, names)) by {
      forall x ensures multiset(LeavesIn(added))[x] == multiset(Places(w, c, names))[x] {
        WalkHandlesPlaces(w, c, names, st, x);
      }
    }
    KeepPermutes(LeavesIn(added), Places(w, c, names), HasKey(key));
    assert LeavesIn(r.log) == LeavesIn(st.log) + LeavesIn(added);
    KeepAppend(LeavesIn(st.log), LeavesIn(added), HasKey(key));
  }

  // ---- Several channels, one after another. ----

  /** What walking these channels from scratch, one after another, adds to a log. */
  function ChannelsLog(w: World, cs: seq<Channel>, log: seq<Entry>): seq<Entry> {
    if |cs| == 0 then log
    else
      var last := cs[|cs| - 1];
      TopWalk(w, Destinations(last), ContextOf(last, false), Walk([], {}, ChannelsLog(w, cs[..|cs| - 1], log))).log
  }

  function PlacesOfAll(w: World, cs: seq<Channel>, names: Channel -> seq<string>, key: string): nat {
    if |cs| == 0 then 0
    else PlacesOfAll(w, cs[..|cs| - 1], names, key) + PlacesWith(w, cs[|cs| - 1], names(cs[|cs| - 1]), key)
  }

  /**
   * Whatever the channels and their refs, and whatever is accepted: an endpoint is posted to exactly as often as the
   * channels lead to it, so at most once exactly when they lead to it at most once.
   */
  lemma {:induction false} PostedPerPlace(w: World, cs: seq<Channel>, names: Channel -> seq<string>, key: string)
    requires forall c :: c in cs ==> Enumerates(w, c, names(c))
    ensures Posts(ChannelsLog(w, cs, []), key) == Mentions(ChannelsLog(w, cs, []), key) ==
              PlacesOfAll(w, cs, names, key)
    ensures Posts(ChannelsLog(w, cs, []), key) <= 1 <==> PlacesOfAll(w, cs, names, key) <= 1
  {
    if |cs| > 0 {
      var before, last := cs[..|cs| - 1], cs[|cs| - 1];
      assert cs == before + [last] && last in cs;
      PostedPerPlace(w, before, names, key);
      var st := Walk([], {}, ChannelsLog(w, before, []));
      WalkPosts(w, Destinations(last), ContextOf(last, false), st, key);
      WalkMentions(w, last, names(last), st, key);
    } else {
      assert LeavesIn([]) == [];
    }
  }
}
