/**
 * The events a submission causes: one notice for each channel name nobody answers to, one failure for each channel that
 * fails, and nothing else (src/notifications/fan_out.service.ts:61-68, 263-289, unknown_channel.ts:32-69).
 */
module CausedEvents {
  import opened Json
  import opened Sequences
  import opened Channels
  import opened EventDelivery
  import opened EventRouting
  import opened Cascade

  /** What tells a realm that a channel of one of its events failed. */
  function FailureOf(e: SubmittedEvent, channelId: string): SubmittedEvent {
    SubmittedEvent("notification.failed", e.realm, "", "All destinations failed",
                   JObject(map["original_event_type" := JString(e.kind), "channel_id" := JString(channelId)]))
  }

  /** What tells a realm, on the same run, that one of its events named a channel that does not exist. */
  function NoticeOf(e: SubmittedEvent, name: string): SubmittedEvent {
    SubmittedEvent("notification.unknown_channel", e.realm, e.run,
                   "No channel named '" + name + "' in this realm — nothing was sent to it.",
                   JObject(map["name" := JString(name), "source" := JString("notify_channels"),
                               "for_event" := JString(e.kind)]))
  }

  ghost predicate Caused(e: SubmittedEvent, x: SubmittedEvent) {
    || (exists id :: x == FailureOf(e, id))
    || (exists name :: x == NoticeOf(e, name))
    || (exists name, id :: x == FailureOf(NoticeOf(e, name), id))
  }

  ghost predicate AddsOnlyCaused(e: SubmittedEvent, before: seq<SubmittedEvent>, now: seq<SubmittedEvent>) {
    before <= now && forall k :: |before| <= k < |now| ==> Caused(e, now[k])
  }

  /** Nothing is refused and nothing merged. */
  ghost predicate TakesAll(hub: Hub) {
    forall n, x :: hub.fate(n, x) == Stored
  }

  // ---- Failures. ----

  lemma FailureIsQuiet(hub: Hub, now: Moment, b: Bus, x: SubmittedEvent)
    requires Rank(x) == 0
    ensures NotifyRealm(hub, now, b, x) == b && NotifyAccount(hub, now, b, x) == b
  {
    SubmittedRanksLower(hub, now, x, "", "");
    var ids := hub.rules(now, x);
    assert DeliverTo(hub, now, b, x, ids) == EmitFailed(hub, b, x, []) == b;
  }

  /** A failure names no channels and causes no further event. */
  lemma FailureCausesNothing(hub: Hub, stored: seq<SubmittedEvent>, x: SubmittedEvent)
    requires Rank(x) == 0
    ensures Submit(hub, stored, x, []).stored == if hub.fate(|stored|, x) == Stored then stored + [x] else stored
  {
    FailureIsQuiet(hub, Moment(|stored|, false), Bus(stored + [x], 0), x);
  }

  lemma NestedFailure(hub: Hub, b: Bus, e: SubmittedEvent, id: string)
    ensures FailedEvent(e, id) == FailureOf(e, id)
    ensures Nested(hub, b, FailedEvent(e, id)).stored ==
              if hub.fate(|b.stored|, FailureOf(e, id)) == Stored then b.stored + [FailureOf(e, id)] else b.stored
  {
    SubmittedRanksLower(hub, Moment(0, false), e, "", id);
    FailureCausesNothing(hub, b.stored, FailedEvent(e, id));
  }

  /** Only failures of failing channels are added. */
  lemma {:induction false} FailuresStored(hub: Hub, b: Bus, e: SubmittedEvent, failing: seq<string>)
    requires |failing| > 0 ==> e.kind != "notification.failed"
    ensures var r := EmitFailed(hub, b, e, failing).stored;
            && b.stored <= r
            && forall k :: |b.stored| <= k < |r| ==> exists id :: id in failing && r[k] == FailureOf(e, id)
    decreases |failing|
  {
    if |failing| > 0 {
      NestedFailure(hub, b, e, failing[0]);
      FailuresStored(hub, Nested(hub, b, FailedEvent(e, failing[0])), e, failing[1..]);
      HeadOrTail(failing);
    }
  }

  function FailuresOf(e: SubmittedEvent, failing: seq<string>): seq<SubmittedEvent> {
    if |failing| == 0 then [] else [FailureOf(e, failing[0])] + FailuresOf(e, failing[1..])
  }

  /** Where nothing is refused, exactly one for each failing channel, in order. */
  lemma {:induction false} FailuresInOrder(hub: Hub, b: Bus, e: SubmittedEvent, failing: seq<string>)
    requires |failing| > 0 ==> e.kind != "notification.failed"
    requires TakesAll(hub)
    ensures EmitFailed(hub, b, e, failing).stored == b.stored + FailuresOf(e, failing)
    decreases |failing|
  {
    if |failing| > 0 {
      NestedFailure(hub, b, e, failing[0]);
      FailuresInOrder(hub, Nested(hub, b, FailedEvent(e, failing[0])), e, failing[1..]);
      AppendThree(b.stored, [FailureOf(e, failing[0])], FailuresOf(e, failing[1..]));
    }
  }

  lemma FailuresAreCaused(hub: Hub, b: Bus, e: SubmittedEvent, failing: seq<string>)
    requires |failing| > 0 ==> e.kind != "notification.failed"
    ensures AddsOnlyCaused(e, b.stored, EmitFailed(hub, b, e, failing).stored)
  {
    FailuresStored(hub, b, e, failing);
  }

  // ---- Notices. ----

  /** A notice names no channels: it goes by the rules. */
  lemma NoticeGoesByRules(hub: Hub, now: Moment, b: Bus, e: SubmittedEvent, name: string)
    ensures var x := NoticeOf(e, name);
            && x == UnknownChannelEvent(e, name)
            && NotifyRealm(hub, now, b, x) == if |x.realm| == 0 then b else DeliverTo(hub, now, b, x, hub.rules(now, x))
  {
    SubmittedRanksLower(hub, now, e, name, "");
    assert "notify" !in NoticeOf(e, name).payload.fields;
  }

  lemma NoticeFailuresCaused(hub: Hub, now: Moment, b: Bus, e: SubmittedEvent, name: string, ids: seq<string>)
    ensures AddsOnlyCaused(e, b.stored, DeliverTo(hub, now, b, NoticeOf(e, name), ids).stored)
  {
    FailuresStored(hub, b, NoticeOf(e, name), FailingChannels(hub, now, NoticeOf(e, name), ids));
  }

  /** A notice is stored, and causes at most failures of its own. */
  lemma NoticeStored(hub: Hub, stored: seq<SubmittedEvent>, e: SubmittedEvent, name: string)
    ensures var x, r := NoticeOf(e, name), Submit(hub, stored, UnknownChannelEvent(e, name), []).stored;
            && x == UnknownChannelEvent(e, name)
            && AddsOnlyCaused(e, stored, r)
            && (hub.fate(|stored|, x) == Stored ==> stored + [x] <= r)
  {
    var x, now := NoticeOf(e, name), Moment(|stored|, false);
    var b := Bus(stored + [x], 0);
    NoticeGoesByRules(hub, now, b, e, name);
    NoticeFailuresCaused(hub, now, b, e, name, hub.rules(now, x));
    if hub.fate(|stored|, x) == Stored {
      assert Submit(hub, stored, x, []) == NotifyRealm(hub, now, b, x);
    }
  }

  /**
   * For each missing name the store holds its notice afterwards: one it already had for this run, or a new one. Only
   * such notices and their failures are added.
   */
  lemma {:induction false} NoticesStored(hub: Hub, b: Bus, e: SubmittedEvent, names: seq<string>)
    requires |names| > 0 ==> Rank(e) == 2
    ensures var r := RaiseUnknown(hub, b, e, names).stored;
            && AddsOnlyCaused(e, b.stored, r)
            && (TakesAll(hub) ==> forall name :: name in names ==> IsNoted(e, name, b.stored, r))
    decreases |names|
  {
    if |names| > 0 {
      var name := names[0];
      SubmittedRanksLower(hub, Moment(0, false), e, name, "");
      var child := UnknownChannelEvent(e, name);
      NoticeStored(hub, b.stored, e, name);
      var known := |e.run| > 0 && AlreadyRaised(b.stored, e.run, child.message);
      var b1 := if known then b else Nested(hub, b, child);
      NoticesStored(hub, b1, e, names[1..]);
      HeadOrTail(names);
      var r := RaiseUnknown(hub, b, e, names).stored;
      assert r == RaiseUnknown(hub, b1, e, names[1..]).stored;
      if TakesAll(hub) {
        NotedFirst(hub, b, e, name, b1, known, r);
        forall m | m in names ensures IsNoted(e, m, b.stored, r) {
          if m != name {
            assert IsNoted(e, m, b1.stored, r);
          }
        }
      }
    }
  }

  /** A notice of this event's run about the name is in `now`; without a run, one that `before` did not hold. */
  ghost predicate IsNoted(e: SubmittedEvent, name: string, before: seq<SubmittedEvent>, now: seq<SubmittedEvent>) {
    exists k :: 0 <= k < |now| && (e.run == "" ==> |before| <= k)
      && now[k].kind == "notification.unknown_channel" && now[k].run == e.run
      && now[k].message == "No channel named '" + name + "' in this realm — nothing was sent to it."
  }

  lemma NotedFirst(hub: Hub, b: Bus, e: SubmittedEvent, name: string, b1: Bus, known: bool, r: seq<SubmittedEvent>)
    requires known <==> |e.run| > 0 && AlreadyRaised(b.stored, e.run, NoticeOf(e, name).message)
    requires b1.stored <= r && (if known then b1 == b else b.stored + [NoticeOf(e, name)] <= b1.stored)
    ensures IsNoted(e, name, b.stored, r)
  {
    if known {
      var k :| 0 <= k < |b.stored| && b.stored[k].kind == UNKNOWN_CHANNEL && b.stored[k].run == e.run
        && b.stored[k].message == NoticeOf(e, name).message;
      assert r[k] == b.stored[k];
    } else {
      assert r[|b.stored|] == NoticeOf(e, name);
    }
  }

  // ---- A whole submission. ----

  lemma DeliveryCauses(hub: Hub, now: Moment, b: Bus, e: SubmittedEvent, ids: seq<string>)
    ensures AddsOnlyCaused(e, b.stored, DeliverTo(hub, now, b, e, ids).stored)
  {
    FailuresAreCaused(hub, b, e, FailingChannels(hub, now, e, ids));
  }

  lemma RealmCauses(hub: Hub, now: Moment, b: Bus, e: SubmittedEvent)
    ensures AddsOnlyCaused(e, b.stored, NotifyRealm(hub, now, b, e).stored)
  {
    var plan := PlanFanOut(IntentOf(hub, now, e));
    DeliveryCauses(hub, now, b, e, hub.rules(now, e));
    if |e.realm| > 0 && plan.ToRefs? {
      var resolved := ResolveChannelRefs(hub.usable(now, e.realm), plan.refs);
      SubmittedRanksLower(hub, now, e, "", "");
      var b1 := if e.kind == UNKNOWN_CHANNEL then b else RaiseUnknown(hub, b, e, resolved.missing);
      if e.kind != UNKNOWN_CHANNEL {
        NoticesStored(hub, b, e, resolved.missing);
      }
      DeliveryCauses(hub, now, b1, e, resolved.ids);
    }
  }

  /**
   * Whatever is configured and whatever fails, a stored event is followed only by its own notices and failures, and the
   * failures of those notices, all of the same realm.
   */
  lemma SubmitCausesOnly(hub: Hub, stored: seq<SubmittedEvent>, e: SubmittedEvent, targets: seq<string>)
    requires hub.fate(|stored|, e) == Stored
    ensures AddsOnlyCaused(e, stored + [e], Submit(hub, stored, e, targets).stored)
  {
    var now := Moment(|stored|, false);
    var b := Bus(stored + [e], 0);
    RealmCauses(hub, now, b, e);
    DeliveryCauses(hub, now, b, e, hub.rules(now, e));
    var b1 := match RouteOf(e)
      case RealmRoute => NotifyRealm(hub, now, b, e)
      case AccountRoute => NotifyAccount(hub, now, b, e)
      case NoRoute => b;
    DeliveryCauses(hub, Moment(|stored|, true), b1, e, targets);
  }
}
