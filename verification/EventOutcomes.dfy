/**
 * What becomes of each destination an event reaches, and what each channel's turn counts for, said in terms of the
 * destinations and the deliverers' answers alone (src/notifications/fan_out.service.ts:294-355, 528-545).
 */
module EventOutcomes {
  import opened Wrappers
  import opened Channels
  import opened DestinationWalk
  import opened DestinationOnce
  import opened DestinationReach
  import opened EventDelivery
  import opened UnguardedWalk

  /** One place to post to: two Slack URLs or two webhook URLs, `http` being a webhook, that are equal and not empty. */
  predicate SameEndpoint(a: Destination, b: Destination) {
    || (a.Slack? && b.Slack? && a.webhookUrl == b.webhookUrl && a.webhookUrl.Some? && a.webhookUrl.value != "")
    || ((a.Webhook? || a.Http?) && (b.Webhook? || b.Http?) && a.url == b.url && a.url.Some? && a.url.value != "")
  }

  ghost predicate SentBefore(log: seq<Entry>, i: int)
    requires 0 <= i < |log|
  {
    exists j :: 0 <= j < i && SameEndpoint(log[i].leaf.dest, log[j].leaf.dest)
  }

  lemma SameEndpointByKey(a: Destination, b: Destination)
    ensures SameEndpoint(a, b) <==> TakeKey(a).Some? && TakeKey(a) == TakeKey(b)
  {
    if TakeKey(a).Some? {
      TakeKeyInjective(a, b);
    }
  }

  // ---- With an `EventSends`. ----

  /** An entry is skipped because its endpoint was posted to before, or else is what its deliverer answers. */
  ghost predicate Told(w: World, log: seq<Entry>, i: int)
    requires 0 <= i < |log|
  {
    log[i].outcome == if SentBefore(log, i) then AlreadySent else if w.accepts(i) then Accepted else Threw
  }

  ghost predicate AllTold(w: World, st: Walk) {
    && (forall key :: key in st.sent <==> Mentioned(st.log, key))
    && (forall i :: 0 <= i < |st.log| ==> Told(w, st.log, i))
  }

  lemma LeafKeepsTold(w: World, d: Destination, ctx: Context, st: Walk)
    requires ctx.guarded && AllTold(w, st)
    ensures AllTold(w, DeliverLeaf(w, d, ctx, st))
  {
    var r := DeliverLeaf(w, d, ctx, st);
    var n := |st.log|;
    assert r.log[..n] == st.log && r.log[n].leaf.dest == d;
    forall key ensures key in r.sent <==> Mentioned(r.log, key) {
      if Mentioned(st.log, key) {
        var i :| 0 <= i < n && TakeKey(st.log[i].leaf.dest) == Some(key);
        assert r.log[i] == st.log[i];
      }
      if TakeKey(d) == Some(key) {
        assert TakeKey(r.log[n].leaf.dest) == Some(key);
      }
    }
    forall j | 0 <= j < n ensures SameEndpoint(d, st.log[j].leaf.dest) <==>
        TakeKey(d).Some? && TakeKey(d) == TakeKey(st.log[j].leaf.dest)
    {
      SameEndpointByKey(d, st.log[j].leaf.dest);
    }
    forall i | 0 <= i < |r.log| ensures Told(w, r.log, i) {
      if i < n {
        assert Told(w, st.log, i);
        assert SentBefore(r.log, i) <==> SentBefore(st.log, i);
      } else {
        assert SentBefore(r.log, n) <==> TakeKey(d).Some? && Mentioned(st.log, TakeKey(d).value);
      }
    }
  }

  /**
   * Over a whole event, a destination is skipped exactly when an earlier one posts to the same non-empty Slack or
   * webhook URL; every other one, each email and in-app notice among them, is handed over, and is accepted exactly when
   * its deliverer accepts it.
   */
  lemma EventEntriesTold(a: Audience, eventType: string, found: seq<Channel>, people: seq<Personal>, i: nat)
    requires i < |DeliverEvent(a, eventType, found, people).end.st.log|
    ensures var log := DeliverEvent(a, eventType, found, people).end.st.log;
            log[i].outcome == if SentBefore(log, i) then AlreadySent else if a.world.accepts(i) then Accepted else Threw
  {
    var inv := (st: Walk) => AllTold(a.world, st);
    forall d, ctx: Context, st | ctx.guarded && inv(st) ensures inv(DeliverLeaf(a.world, d, ctx, st)) {
      LeafKeepsTold(a.world, d, ctx, st);
    }
    EventKeeps(a, eventType, found, people, inv);
    assert Told(a.world, DeliverEvent(a, eventType, found, people).end.st.log, i);
  }

  /** An email is always handed over. */
  lemma EmailAlwaysHandedOver(a: Audience, eventType: string, found: seq<Channel>, people: seq<Personal>, i: nat)
    requires i < |DeliverEvent(a, eventType, found, people).end.st.log|
    requires var d := DeliverEvent(a, eventType, found, people).end.st.log[i].leaf.dest; d.Email? || d.CliqHub?
    ensures DeliverEvent(a, eventType, found, people).end.st.log[i].outcome ==
              if a.world.accepts(i) then Accepted else Threw
  {
    EventEntriesTold(a, eventType, found, people, i);
  }

  // ---- Without one. ----

  /** Everything after the first `n` entries is what its deliverer answers. */
  ghost predicate AllHandedOver(w: World, log: seq<Entry>, n: nat) {
    forall i :: n <= i < |log| ==> log[i].outcome == if w.accepts(i) then Accepted else Threw
  }

  ghost predicate HandedOverSince(w: World, log: seq<Entry>, st: Walk) {
    log <= st.log && AllHandedOver(w, st.log, |log|)
  }

  /** Channels walked one after another without an `EventSends`: nothing is skipped, whatever was posted before. */
  lemma {:induction false} RulesSkipNothing(w: World, cs: seq<Channel>, log: seq<Entry>)
    ensures log <= ChannelsLog(w, cs, log)
    ensures forall i :: |log| <= i < |ChannelsLog(w, cs, log)| ==>
              ChannelsLog(w, cs, log)[i].outcome == if w.accepts(i) then Accepted else Threw
  {
    if |cs| > 0 {
      var last := cs[|cs| - 1];
      RulesSkipNothing(w, cs[..|cs| - 1], log);
      WalkHandsOver(w, log, Destinations(last), ContextOf(last, false),
                    Walk([], {}, ChannelsLog(w, cs[..|cs| - 1], log)));
    }
  }

  lemma WalkHandsOver(w: World, log: seq<Entry>, ds: seq<Destination>, ctx: Context, st: Walk)
    requires !ctx.guarded && HandedOverSince(w, log, st)
    ensures HandedOverSince(w, log, WalkDests(w, ds, ctx, st))
  {
    var inv := (s: Walk) => HandedOverSince(w, log, s);
    forall d, c: Context, s | !c.guarded && inv(s) ensures inv(DeliverLeaf(w, d, c, s)) {}
    WalkKeeps(w, ds, ctx, st, inv);
  }

  // ---- What a channel's turn counts for. ----

  /** Something of this stretch of the log was accepted, or had been sent before. */
  ghost predicate GotThrough(log: seq<Entry>, from: nat, to: nat)
    requires to <= |log|
  {
    exists k :: from <= k < to && (log[k].outcome == Accepted || log[k].outcome == AlreadySent)
  }

  /** A channel that is shared, or whose person may receive the event and has not switched it off. */
  predicate HasTurn(w: World, c: Channel) {
    c.owner.Some? ==> c.owner.value in w.mayReceive && c.owner.value !in w.personOff
  }

  /** No destination stored, and not one of the two channels that stand for their members. */
  predicate NothingConfigured(c: Channel) {
    |c.rows| == 0 && |c.legacy| == 0 && c.systemKey != "org.in_app" && c.systemKey != "realm.members"
  }

  lemma {:induction false} StepsThenOne(a: Audience, eventType: string, cs: seq<Channel>, c: Channel, p: Progress)
    ensures ChannelSteps(a, eventType, cs + [c], p) == ChannelStep(a, eventType, c, ChannelSteps(a, eventType, cs, p))
  {
    if |cs| == 0 {
      assert cs + [c] == [c] && [c][1..] == [];
      var p1 := ChannelStep(a, eventType, c, p);
      assert ChannelSteps(a, eventType, [c], p) == ChannelSteps(a, eventType, [c][1..], p1);
    } else {
      StepsThenOne(a, eventType, cs[1..], c, ChannelStep(a, eventType, cs[0], p));
      assert (cs + [c])[1..] == cs[1..] + [c];
    }
  }

  /**
   * One turn fails exactly when nothing it added to the log got through; a failure is noticed unless nothing was
   * configured or the event is itself such a notice.
   */
  lemma TurnCounts(a: Audience, eventType: string, cs: seq<Channel>, p: Progress, i: nat)
    requires i < |cs|
    ensures var b, e := Before(a, eventType, cs, p, i), Before(a, eventType, cs, p, i + 1);
            var failed := HasTurn(a.world, cs[i]) && !GotThrough(e.st.log, |b.st.log|, |e.st.log|);
            && b.st.log <= e.st.log
            && e.failures == b.failures + (if failed then 1 else 0)
            && e.raised == b.raised + if failed && !NothingConfigured(cs[i]) && eventType != "notification.failed"
                                      then [cs[i].id] else []
  {
    assert cs[..i + 1] == cs[..i] + [cs[i]];
    StepsThenOne(a, eventType, cs[..i], cs[i], p);
    var b, e := Before(a, eventType, cs, p, i), Before(a, eventType, cs, p, i + 1);
    assert e == ChannelStep(a, eventType, cs[i], b);
    assert AnySuccess(e.st.log, |b.st.log|) <==> GotThrough(e.st.log, |b.st.log|, |e.st.log|);
  }

  lemma FailsByLog(a: Audience, eventType: string, cs: seq<Channel>, p: Progress, i: nat)
    requires i < |cs|
    ensures var b, e := Before(a, eventType, cs, p, i), Before(a, eventType, cs, p, i + 1);
            Fails(a, eventType, cs[i], b) <==>
            HasTurn(a.world, cs[i]) && !GotThrough(e.st.log, |b.st.log|, |e.st.log|)
  {
    TurnCounts(a, eventType, cs, p, i);
    assert cs[..i + 1] == cs[..i] + [cs[i]];
    StepsThenOne(a, eventType, cs[..i], cs[i], p);
    var b, e := Before(a, eventType, cs, p, i), Before(a, eventType, cs, p, i + 1);
    assert e.failures == b.failures + if Fails(a, eventType, cs[i], b) then 1 else 0;
  }

  /**
   * `failed` if and only if there were channels, every one had its turn, and nothing any of them added got through;
   * `skipped` if and only if there was neither a channel nor anybody in the person layer.
   */
  lemma StatusByLog(a: Audience, eventType: string, found: seq<Channel>, people: seq<Personal>)
    ensures var cs := SharedFirst(found);
            var status := DeliverEvent(a, eventType, found, people).status;
            && |cs| == |found|
            && (status == Failed <==> |found| > 0 && forall i :: 0 <= i < |cs| ==> TurnFails(a, eventType, cs, i))
            && (status == Skipped <==> |found| == 0 && |people| == 0)
  {
    var cs := SharedFirst(found);
    StatusMeaning(a, eventType, found, people);
    SharedFirstOrders(found);
    forall i | 0 <= i < |cs|
      ensures TurnFails(a, eventType, cs, i) <==> Fails(a, eventType, cs[i], Before(a, eventType, cs, START, i))
    {
      FailsByLog(a, eventType, cs, START, i);
    }
  }

  ghost predicate TurnFails(a: Audience, eventType: string, cs: seq<Channel>, i: int)
    requires 0 <= i < |cs|
  {
    var b, e := Before(a, eventType, cs, START, i), Before(a, eventType, cs, START, i + 1);
    HasTurn(a.world, cs[i]) && !GotThrough(e.st.log, |b.st.log|, |e.st.log|)
  }
}
