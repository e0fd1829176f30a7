/**
 * Events that fan-out itself submits, and the fan-out of those
 * (src/notifications/fan_out.service.ts notify_realm, notify_account and emit_notification_failed;
 * src/notifications/unknown_channel.ts; src/services/events_service.ts submit).
 */
module Cascade {
  import opened Wrappers
  import opened Json
  import opened Channels
  import opened EventDelivery
  import opened EventRouting

  /** The schema refuses an event; a second report of a run's start or end is merged into the first and not routed. */
  datatype Fate = Stored | Merged | Refused

  /**
   * When something is asked: how many events were stored before this one, and whether it is for its targeted channels.
   */
  datatype Moment = Moment(stored: nat, targeted: bool)

  /**
   * Everything a submission depends on besides the event. Each function is told the moment, so an event's routing, its
   * targeted channels and every event nested below it can be answered differently, deliverers included.
   */
  datatype Hub = Hub(
    fate: (nat, SubmittedEvent) -> Fate,
    usable: (Moment, string) -> map<string, seq<string>>,
    runChannels: (Moment, string) -> Option<seq<string>>,
    rules: (Moment, SubmittedEvent) -> seq<string>,
    lookup: (Moment, SubmittedEvent, seq<string>) -> ChannelLookup,
    people: (Moment, SubmittedEvent) -> seq<Personal>,
    audience: (Moment, SubmittedEvent) -> Audience)

  /** The stored events and how deep submissions nested below the current one. */
  datatype Bus = Bus(stored: seq<SubmittedEvent>, depth: nat)

  function UnknownChannelMessage(name: string): string {
    "No channel named '" + name + "' in this realm — nothing was sent to it."
  }

  /** The message identifies the name, which is what "once per run per name" is checked by. */
  lemma MessageNamesChannel(a: string, b: string)
    ensures UnknownChannelMessage(a) == UnknownChannelMessage(b) <==> a == b
  {
    var pre, post := "No channel named '", "' in this realm — nothing was sent to it.";
    assert UnknownChannelMessage(a) == pre + a + post && UnknownChannelMessage(b) == pre + b + post;
    assert UnknownChannelMessage(a)[|pre|..|pre| + |a|] == a;
    assert UnknownChannelMessage(b)[|pre|..|pre| + |b|] == b;
  }

  function UnknownChannelEvent(e: SubmittedEvent, name: string): SubmittedEvent {
    SubmittedEvent(UNKNOWN_CHANNEL, e.realm, e.run, UnknownChannelMessage(name),
                   JObject(map["name" := JString(name), "source" := JString("notify_channels"),
                               "for_event" := JString(e.kind)]))
  }

  function FailedEvent(e: SubmittedEvent, channelId: string): SubmittedEvent {
    SubmittedEvent(FAILED, e.realm, "", "All destinations failed",
                   JObject(map["original_event_type" := JString(e.kind), "channel_id" := JString(channelId)]))
  }

  function IntentOf(hub: Hub, now: Moment, e: SubmittedEvent): Intent {
    var intent := ReadIntent(e.payload);
    if intent != Unspecified then intent
    else if |e.run| == 0 || !RunNotifyOverride(e.kind) then Unspecified
    else match hub.runChannels(now, e.run) case Some(refs) => Named(refs) case None => Unspecified
  }

  /** How far an event can still cascade. */
  function Rank(e: SubmittedEvent): nat {
    if e.kind == FAILED && !PlanFanOut(ReadIntent(e.payload)).ToRefs? then 0
    else if e.kind == UNKNOWN_CHANNEL then 1
    else 2
  }

  /** Everything fan-out submits ranks strictly below the event it was submitted for. */
  lemma SubmittedRanksLower(hub: Hub, now: Moment, e: SubmittedEvent, name: string, channelId: string)
    ensures Rank(UnknownChannelEvent(e, name)) == 1 && Rank(FailedEvent(e, channelId)) == 0
    ensures PlanFanOut(IntentOf(hub, now, e)).ToRefs? && e.kind != UNKNOWN_CHANNEL ==> Rank(e) == 2
    ensures e.kind != FAILED ==> Rank(e) >= 1
  {
    var payload := UnknownChannelEvent(e, name).payload;
    assert "notify" !in payload.fields;
    assert "notify" !in FailedEvent(e, channelId).payload.fields;
  }

  /** The channels the event's delivery reports as failing. */
  function FailingChannels(hub: Hub, now: Moment, e: SubmittedEvent, ids: seq<string>): (r: seq<string>)
    ensures e.kind == FAILED ==> r == []
  {
    var found := FoundFor(ids, e.realm, hub.lookup(now, e, ids));
    RaisedChannels(hub.audience(now, e), e.kind, SharedFirst(found), START);
    DeliveryReport(hub, now, e, ids).end.raised
  }

  function DeliveryReport(hub: Hub, now: Moment, e: SubmittedEvent, ids: seq<string>): Report {
    DeliverEvent(hub.audience(now, e), e.kind, FoundFor(ids, e.realm, hub.lookup(now, e, ids)), hub.people(now, e))
  }

  // ---- What a submission reports. ----

  function RealmStatus(hub: Hub, now: Moment, e: SubmittedEvent): Status {
    if |e.realm| == 0 then Skipped
    else
      match PlanFanOut(IntentOf(hub, now, e))
      case Mute => Skipped
      case ByRules => DeliveryReport(hub, now, e, hub.rules(now, e)).status
      case ToRefs(refs) =>
        var ids := ResolveChannelRefs(hub.usable(now, e.realm), refs).ids;
        if |ids| == 0 then Failed else DeliveryReport(hub, now, e, ids).status
  }

  function AccountStatus(hub: Hub, now: Moment, e: SubmittedEvent): Status {
    var ids := hub.rules(now, e);
    if |ids| == 0 then Skipped else DeliveryReport(hub, now, e, ids).status
  }

  /** An event without a route makes the router throw, which counts as a failure. */
  function RouteStatus(hub: Hub, now: Moment, e: SubmittedEvent): Status {
    match RouteOf(e)
    case RealmRoute => RealmStatus(hub, now, e)
    case AccountRoute => AccountStatus(hub, now, e)
    case NoRoute => Failed
  }

  /** Targeted channels count only where routing reached nobody; a refused event reports nothing. */
  function SubmitStatus(hub: Hub, stored: seq<SubmittedEvent>, e: SubmittedEvent,
                        targets: seq<string>): Option<Status> {
    match hub.fate(|stored|, e)
    case Refused => None
    case Merged => Some(Skipped)
    case Stored =>
      var routed := RouteStatus(hub, Moment(|stored|, false), e);
      Some(if |targets| > 0 && routed == Skipped then DeliveryReport(hub, Moment(|stored|, true), e, targets).status
           else routed)
  }

  predicate AlreadyRaised(stored: seq<SubmittedEvent>, run: string, message: string) {
    exists i :: 0 <= i < |stored| && stored[i].kind == UNKNOWN_CHANNEL && stored[i].run == run
        && stored[i].message == message
  }

  function Max(a: nat, b: nat): nat {
    if a < b then b else a
  }

  /** A nested submission deepens the cascade by one. */
  function Nested(hub: Hub, b: Bus, e: SubmittedEvent): (r: Bus)
    ensures b.stored <= r.stored && r.depth <= Max(b.depth, 1 + Rank(e))
    decreases Rank(e), 4
  {
    var inner := Submit(hub, b.stored, e, []);
    Bus(inner.stored, Max(b.depth, 1 + inner.depth))
  }

  function RaiseUnknown(hub: Hub, b: Bus, e: SubmittedEvent, names: seq<string>): (r: Bus)
    requires |names| > 0 ==> Rank(e) == 2
    ensures b.stored <= r.stored && r.depth <= Max(b.depth, Rank(e))
    decreases Rank(e), 0, |names|
  {
    if |names| == 0 then b
    else
      var child := UnknownChannelEvent(e, names[0]);
      assert Rank(child) == 1 by { SubmittedRanksLower(hub, Moment(0, false), e, names[0], ""); }
      var b1 := if |e.run| > 0 && AlreadyRaised(b.stored, e.run, child.message) then b else Nested(hub, b, child);
      RaiseUnknown(hub, b1, e, names[1..])
  }

  function EmitFailed(hub: Hub, b: Bus, e: SubmittedEvent, failing: seq<string>): (r: Bus)
    requires |failing| > 0 ==> e.kind != FAILED
    ensures b.stored <= r.stored && r.depth <= Max(b.depth, Rank(e))
    decreases Rank(e), 0, |failing|
  {
    if |failing| == 0 then b
    else
      var child := FailedEvent(e, failing[0]);
      assert Rank(child) == 0 && Rank(e) >= 1 by { SubmittedRanksLower(hub, Moment(0, false), e, "", failing[0]); }
      EmitFailed(hub, Nested(hub, b, child), e, failing[1..])
  }

  function DeliverTo(hub: Hub, now: Moment, b: Bus, e: SubmittedEvent, ids: seq<string>): (r: Bus)
    ensures b.stored <= r.stored && r.depth <= Max(b.depth, Rank(e))
    decreases Rank(e), 1
  {
    EmitFailed(hub, b, e, FailingChannels(hub, now, e, ids))
  }

  function NotifyRealm(hub: Hub, now: Moment, b: Bus, e: SubmittedEvent): (r: Bus)
    ensures b.stored <= r.stored && r.depth <= Max(b.depth, Rank(e))
    decreases Rank(e), 2
  {
    if |e.realm| == 0 then b
    else
      match PlanFanOut(IntentOf(hub, now, e))
      case Mute => b
      case ByRules => DeliverTo(hub, now, b, e, hub.rules(now, e))
      case ToRefs(refs) =>
        var resolved := ResolveChannelRefs(hub.usable(now, e.realm), refs);
        SubmittedRanksLower(hub, now, e, "", "");
        var b1 := if e.kind == UNKNOWN_CHANNEL then b else RaiseUnknown(hub, b, e, resolved.missing);
        if |resolved.ids| == 0 then b1 else DeliverTo(hub, now, b1, e, resolved.ids)
  }

  function NotifyAccount(hub: Hub, now: Moment, b: Bus, e: SubmittedEvent): (r: Bus)
    ensures b.stored <= r.stored && r.depth <= Max(b.depth, Rank(e))
    decreases Rank(e), 2
  {
    var ids := hub.rules(now, e);
    if |ids| == 0 then b else DeliverTo(hub, now, b, e, ids)
  }

  /**
   * Store an event, route it, then deliver to any targeted channels. One that is refused or merged goes no further.
   * However channels are configured and whatever fails, the cascade below an event is no deeper than its rank.
   */
  function Submit(hub: Hub, stored: seq<SubmittedEvent>, e: SubmittedEvent, targets: seq<string>): (r: Bus)
    ensures stored <= r.stored && r.depth <= Rank(e) <= 2
    decreases Rank(e), 3
  {
    if hub.fate(|stored|, e) != Stored then Bus(stored, 0)
    else
      var now := Moment(|stored|, false);
      var b := Bus(stored + [e], 0);
      var b1 := match RouteOf(e)
        case RealmRoute => NotifyRealm(hub, now, b, e)
        case AccountRoute => NotifyAccount(hub, now, b, e)
        case NoRoute => b;
      if |targets| == 0 then b1 else DeliverTo(hub, Moment(|stored|, true), b1, e, targets)
  }

  // ---- Once per run per name. ----

  /** No two stored unknown-channel notices of one run carry the same message. */
  ghost predicate NoticesOnce(stored: seq<SubmittedEvent>) {
    forall i, j :: (0 <= i < j < |stored| && stored[i].kind == UNKNOWN_CHANNEL && stored[j].kind == UNKNOWN_CHANNEL
                    && stored[i].run == stored[j].run && |stored[i].run| > 0) ==> stored[i].message != stored[j].message
  }

  /** What may be stored next without repeating a notice. */
  ghost predicate Storable(stored: seq<SubmittedEvent>, e: SubmittedEvent) {
    e.kind == UNKNOWN_CHANNEL && |e.run| > 0 ==> !AlreadyRaised(stored, e.run, e.message)
  }

  lemma {:induction false} SubmitKeepsNotices(hub: Hub, stored: seq<SubmittedEvent>, e: SubmittedEvent,
                                              targets: seq<string>)
    requires NoticesOnce(stored) && Storable(stored, e)
    ensures NoticesOnce(Submit(hub, stored, e, targets).stored)
    decreases Rank(e), 3
  {
    if hub.fate(|stored|, e) == Stored {
      var now := Moment(|stored|, false);
      var b := Bus(stored + [e], 0);
      assert NoticesOnce(b.stored);
      var b1 := match RouteOf(e)
        case RealmRoute => NotifyRealm(hub, now, b, e)
        case AccountRoute => NotifyAccount(hub, now, b, e)
        case NoRoute => b;
      RouteKeepsNotices(hub, now, b, e);
      EmitKeepsNotices(hub, b1, e, FailingChannels(hub, Moment(|stored|, true), e, targets));
    }
  }

  lemma {:induction false} RouteKeepsNotices(hub: Hub, now: Moment, b: Bus, e: SubmittedEvent)
    requires NoticesOnce(b.stored)
    ensures NoticesOnce(NotifyRealm(hub, now, b, e).stored)
    ensures NoticesOnce(NotifyAccount(hub, now, b, e).stored)
    decreases Rank(e), 2
  {
    EmitKeepsNotices(hub, b, e, FailingChannels(hub, now, e, hub.rules(now, e)));
    var plan := PlanFanOut(IntentOf(hub, now, e));
    if plan.ToRefs? {
      var resolved := ResolveChannelRefs(hub.usable(now, e.realm), plan.refs);
      SubmittedRanksLower(hub, now, e, "", "");
      var b1 := b;
      if e.kind != UNKNOWN_CHANNEL {
        b1 := RaiseUnknown(hub, b, e, resolved.missing);
        RaiseKeepsNotices(hub, b, e, resolved.missing);
      }
      EmitKeepsNotices(hub, b1, e, FailingChannels(hub, now, e, resolved.ids));
    }
  }

  lemma {:induction false} RaiseKeepsNotices(hub: Hub, b: Bus, e: SubmittedEvent, names: seq<string>)
    requires |names| > 0 ==> Rank(e) == 2
    requires NoticesOnce(b.stored)
    ensures NoticesOnce(RaiseUnknown(hub, b, e, names).stored)
    decreases Rank(e), 0, |names|
  {
    if |names| > 0 {
      SubmittedRanksLower(hub, Moment(0, false), e, names[0], "");
      var child := UnknownChannelEvent(e, names[0]);
      var b1 := if |e.run| > 0 && AlreadyRaised(b.stored, e.run, child.message) then b else Nested(hub, b, child);
      if !(|e.run| > 0 && AlreadyRaised(b.stored, e.run, child.message)) {
        SubmitKeepsNotices(hub, b.stored, child, []);
      }
      RaiseKeepsNotices(hub, b1, e, names[1..]);
    }
  }

  lemma {:induction false} EmitKeepsNotices(hub: Hub, b: Bus, e: SubmittedEvent, failing: seq<string>)
    requires |failing| > 0 ==> e.kind != FAILED
    requires NoticesOnce(b.stored)
    ensures NoticesOnce(EmitFailed(hub, b, e, failing).stored)
    decreases Rank(e), 0, |failing|
  {
    if |failing| > 0 {
      SubmittedRanksLower(hub, Moment(0, false), e, "", failing[0]);
      var child := FailedEvent(e, failing[0]);
      SubmitKeepsNotices(hub, b.stored, child, []);
      EmitKeepsNotices(hub, Nested(hub, b, child), e, failing[1..]);
    }
  }

  // ---- Over any sequence of client submissions. ----

  /** Clients may not submit CliqHub's own system events. */
  predicate ClientMaySubmit(e: SubmittedEvent) {
    e.kind != UNKNOWN_CHANNEL && e.kind != NO_ACCESS
  }

  /** One client's submission: an event, and the channels it is aimed at besides. */
  datatype Submission = Submission(event: SubmittedEvent, targets: seq<string>)

  function SubmitAll(hub: Hub, stored: seq<SubmittedEvent>, submissions: seq<Submission>): seq<SubmittedEvent>
    decreases |submissions|
  {
    if |submissions| == 0 then stored
    else
      var first := submissions[0];
      var now :=
        if ClientMaySubmit(first.event) then Submit(hub, stored, first.event, first.targets).stored else stored;
      SubmitAll(hub, now, submissions[1..])
  }

  /** Whatever clients submit, one submission after another, each run hears of each missing name at most once. */
  lemma {:induction false} OneNoticePerRunAndName(hub: Hub, stored: seq<SubmittedEvent>, submissions: seq<Submission>)
    requires NoticesOnce(stored)
    ensures NoticesOnce(SubmitAll(hub, stored, submissions))
    decreases |submissions|
  {
    if |submissions| > 0 {
      var first := submissions[0];
      if ClientMaySubmit(first.event) {
        SubmitKeepsNotices(hub, stored, first.event, first.targets);
        OneNoticePerRunAndName(hub, Submit(hub, stored, first.event, first.targets).stored, submissions[1..]);
      } else {
        OneNoticePerRunAndName(hub, stored, submissions[1..]);
      }
    }
  }
}
