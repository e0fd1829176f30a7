/**
 * At most once, and never silently dropped: what one shared `EventSends` guarantees for Slack and webhook URLs
 * (src/notifications/fan_out.service.ts:528-545).
 */
module DestinationOnce {
  import opened Wrappers
  import opened Channels
  import opened DestinationWalk

  function Posts(log: seq<Entry>, key: string): nat {
    if |log| == 0 then 0
    else Posts(log[..|log| - 1], key)
         + if TakeKey(log[|log| - 1].leaf.dest) == Some(key) && log[|log| - 1].outcome != AlreadySent then 1 else 0
  }

  ghost predicate Mentioned(log: seq<Entry>, key: string) {
    exists i :: 0 <= i < |log| && TakeKey(log[i].leaf.dest) == Some(key)
  }

  /**
   * An endpoint was handed to a deliverer exactly once if it was taken, never otherwise; being reached means being
   * taken.
   */
  ghost predicate OnceFor(st: Walk, key: string) {
    && Posts(st.log, key) == (if key in st.sent then 1 else 0)
    && (Mentioned(st.log, key) <==> key in st.sent)
  }

  lemma LeafKeepsOnce(w: World, d: Destination, ctx: Context, st: Walk, key: string)
    requires ctx.guarded && OnceFor(st, key)
    ensures OnceFor(DeliverLeaf(w, d, ctx, st), key)
  {
    var r := DeliverLeaf(w, d, ctx, st);
    assert r.log[..|r.log| - 1] == st.log;
    assert forall i :: 0 <= i < |st.log| ==> r.log[i] == st.log[i];
    if TakeKey(d) == Some(key) {
      assert TakeKey(r.log[|st.log|].leaf.dest) == Some(key);
    }
  }

  /** What `OnceFor` says about an endpoint, a walk keeps. */
  lemma OnceIsKept(w: World, key: string)
    ensures Keeps(w, true, (st: Walk) => OnceFor(st, key))
  {
    forall d, ctx: Context, st | ctx.guarded && OnceFor(st, key) ensures OnceFor(DeliverLeaf(w, d, ctx, st), key) {
      LeafKeepsOnce(w, d, ctx, st, key);
    }
  }

  lemma WalkKeepsOnce(w: World, ds: seq<Destination>, ctx: Context, st: Walk, key: string)
    requires ctx.guarded && OnceFor(st, key)
    ensures OnceFor(WalkDests(w, ds, ctx, st), key)
  {
    OnceIsKept(w, key);
    WalkKeeps(w, ds, ctx, st, (s: Walk) => OnceFor(s, key));
  }
}
