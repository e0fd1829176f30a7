/**
 * What becomes of a submitted event, said by its type and payload (src/notifications/router.ts:16-40,
 * fan_out.service.ts:49-85, 213-289, src/services/events_service.ts:126-272).
 */
module SubmissionRoutes {
  import opened Wrappers
  import opened Json
  import opened Sequences
  import opened Channels
  import opened EventDelivery
  import opened EventRouting
  import opened RoutingTerms
  import opened Cascade

  /** How a run that ended, or a phase that was escalated, may be covered by channels chosen when the run started. */
  predicate CoveredByRun(hub: Hub, now: Moment, e: SubmittedEvent, refs: seq<string>) {
    && e.run != "" && hub.runChannels(now, e.run) == Some(refs) && refs != []
    && (|| e.kind == "run.completed" || e.kind == "run.failed" || e.kind == "run.crashed"
        || e.kind == "run.cancelled" || e.kind == "phase.escalated")
  }

  // ---- The delivery to some channels. ----

  function Delivered(hub: Hub, now: Moment, e: SubmittedEvent, ids: seq<string>): Report {
    DeliverEvent(hub.audience(now, e), e.kind, FoundFor(ids, e.realm, hub.lookup(now, e, ids)), hub.people(now, e))
  }

  /**
   * The event is stored, then `b` is what it was when delivery began; it goes to exactly these channels, a failure is
   * raised for each that fails, and that delivery's status is reported.
   */
  ghost predicate SentTo(hub: Hub, stored: seq<SubmittedEvent>, e: SubmittedEvent, b: Bus, ids: seq<string>) {
    var report := Delivered(hub, Moment(|stored|, false), e, ids);
    && (report.end.raised != [] ==> e.kind != "notification.failed")
    && Submit(hub, stored, e, []) == EmitFailed(hub, b, e, report.end.raised)
    && SubmitStatus(hub, stored, e, []) == Some(report.status)
  }

  lemma DeliverToIs(hub: Hub, now: Moment, b: Bus, e: SubmittedEvent, ids: seq<string>)
    ensures DeliveryReport(hub, now, e, ids) == Delivered(hub, now, e, ids)
    ensures var raised := Delivered(hub, now, e, ids).end.raised;
            && (raised != [] ==> e.kind != "notification.failed")
            && DeliverTo(hub, now, b, e, ids) == EmitFailed(hub, b, e, raised)
  {
    assert FailingChannels(hub, now, e, ids) == Delivered(hub, now, e, ids).end.raised;
  }

  /** The event is stored, nothing else happens, and this is reported. */
  ghost predicate StoredOnly(hub: Hub, stored: seq<SubmittedEvent>, e: SubmittedEvent, status: Status) {
    Submit(hub, stored, e, []) == Bus(stored + [e], 0) && SubmitStatus(hub, stored, e, []) == Some(status)
  }

  lemma ListedNames(hub: Hub, now: Moment, e: SubmittedEvent, items: seq<Json>)
    requires Lists(e.payload, items)
    ensures var plan := PlanFanOut(IntentOf(hub, now, e));
            plan.ToRefs? && forall name :: name in plan.refs <==> WrittenIn(items)(name)
  {
    PlanMeaning(e.payload);
    ChannelNamesAre(items);
    forall item ensures Written(item) <==> NamesChannel(item) {
      WrittenNames(item);
    }
  }

  /** What is left to the rules: an empty list, or nothing decided and no channels chosen for the run. */
  ghost predicate LeftToRules(hub: Hub, now: Moment, e: SubmittedEvent) {
    || (exists items :: Says(e.payload, JArray(items)) && forall item :: item in items ==> !Written(item))
    || (LeavesOpen(e.payload) && forall refs :: !CoveredByRun(hub, now, e, refs))
  }

  lemma RulesPlanned(hub: Hub, now: Moment, e: SubmittedEvent)
    requires LeftToRules(hub, now, e)
    ensures PlanFanOut(IntentOf(hub, now, e)) == ByRules
  {
    if items :| Says(e.payload, JArray(items)) && forall item :: item in items ==> !Written(item) {
      ChannelNamesAre(items);
      forall item ensures Written(item) <==> NamesChannel(item) {
        WrittenNames(item);
      }
      if |ChannelNames(items)| > 0 {
        assert ChannelNames(items)[0] in ChannelNames(items);
      }
    } else {
      OpenIntent(e.payload);
      match hub.runChannels(now, e.run) {
        case Some(refs) => assert !CoveredByRun(hub, now, e, refs);
        case None =>
      }
    }
  }

  // ---- What becomes of a submission. ----

  /** An event the schema refuses, or a second report of a run's start or end, goes nowhere. */
  lemma NotStored(hub: Hub, stored: seq<SubmittedEvent>, e: SubmittedEvent, targets: seq<string>)
    requires hub.fate(|stored|, e) != Stored
    ensures Submit(hub, stored, e, targets) == Bus(stored, 0)
    ensures SubmitStatus(hub, stored, e, targets) == if hub.fate(|stored|, e) == Refused then None else Some(Skipped)
  {
  }

  /** A muted realm event is stored and nothing else happens; so is one without a realm. */
  lemma MutedIsStoredOnly(hub: Hub, stored: seq<SubmittedEvent>, e: SubmittedEvent)
    requires hub.fate(|stored|, e) == Stored && ForRealm(e) && (e.realm == "" || Says(e.payload, JBool(false)))
    ensures StoredOnly(hub, stored, e, Skipped)
  {
    RouteIs(e);
    PlanMeaning(e.payload);
  }

  /**
   * How a realm event goes to the channels that these names stand for, after a notice for each that stands for none.
   */
  ghost predicate SentToNamed(hub: Hub, stored: seq<SubmittedEvent>, e: SubmittedEvent, ids: seq<string>,
                              missing: seq<string>) {
    var start := Bus(stored + [e], 0);
    && (missing != [] && e.kind != "notification.unknown_channel" ==> Rank(e) == 2)
    && var b := if e.kind == "notification.unknown_channel" then start else RaiseUnknown(hub, start, e, missing);
       if ids == [] then
         Submit(hub, stored, e, []) == b && SubmitStatus(hub, stored, e, []) == Some(Failed)
       else SentTo(hub, stored, e, b, ids)
  }

  lemma NamedPlan(hub: Hub, stored: seq<SubmittedEvent>, e: SubmittedEvent, refs: seq<string>, names: string -> bool)
    returns (ids: seq<string>, missing: seq<string>)
    requires hub.fate(|stored|, e) == Stored && ForRealm(e) && e.realm != ""
    requires PlanFanOut(IntentOf(hub, Moment(|stored|, false), e)) == ToRefs(refs)
    requires forall name :: name in refs <==> names(name)
    ensures Resolves(hub.usable(Moment(|stored|, false), e.realm), names, ids, missing)
    ensures SentToNamed(hub, stored, e, ids, missing)
  {
    var now := Moment(|stored|, false);
    RouteIs(e);
    RefsResolve(hub.usable(now, e.realm), refs, names);
    SubmittedRanksLower(hub, now, e, "", "");
    var out := ResolveChannelRefs(hub.usable(now, e.realm), refs);
    ids, missing := out.ids, out.missing;
    var start := Bus(stored + [e], 0);
    var b := if e.kind == "notification.unknown_channel" then start else RaiseUnknown(hub, start, e, missing);
    DeliverToIs(hub, now, b, e, ids);
  }

  /** A realm event that names channels goes to exactly those, whatever the rules say. */
  lemma NamedGoesToNamed(hub: Hub, stored: seq<SubmittedEvent>, e: SubmittedEvent, items: seq<Json>)
    returns (ids: seq<string>, missing: seq<string>)
    requires hub.fate(|stored|, e) == Stored && ForRealm(e) && e.realm != "" && Lists(e.payload, items)
    ensures Resolves(hub.usable(Moment(|stored|, false), e.realm), WrittenIn(items), ids, missing)
    ensures SentToNamed(hub, stored, e, ids, missing)
  {
    var now := Moment(|stored|, false);
    ListedNames(hub, now, e, items);
    ids, missing := NamedPlan(hub, stored, e, PlanFanOut(IntentOf(hub, now, e)).refs, WrittenIn(items));
  }

  /** A run's end that decides nothing itself goes to the channels chosen when the run was started. */
  lemma CoveredGoesToRunChannels(hub: Hub, stored: seq<SubmittedEvent>, e: SubmittedEvent, refs: seq<string>)
    returns (ids: seq<string>, missing: seq<string>)
    requires hub.fate(|stored|, e) == Stored && e.realm != "" && LeavesOpen(e.payload)
    requires CoveredByRun(hub, Moment(|stored|, false), e, refs)
    ensures Resolves(hub.usable(Moment(|stored|, false), e.realm), name => name in refs, ids, missing)
    ensures SentToNamed(hub, stored, e, ids, missing)
  {
    OpenIntent(e.payload);
    ids, missing := NamedPlan(hub, stored, e, refs, name => name in refs);
  }

  /** Any other realm event goes to what the realm's rules say. */
  lemma RealmRulesDecide(hub: Hub, stored: seq<SubmittedEvent>, e: SubmittedEvent)
    requires hub.fate(|stored|, e) == Stored && ForRealm(e) && e.realm != ""
    requires LeftToRules(hub, Moment(|stored|, false), e)
    ensures SentTo(hub, stored, e, Bus(stored + [e], 0), hub.rules(Moment(|stored|, false), e))
  {
    var now := Moment(|stored|, false);
    RouteIs(e);
    RulesPlanned(hub, now, e);
    DeliverToIs(hub, now, Bus(stored + [e], 0), e, hub.rules(now, e));
  }

  /** A team or auth event goes to what the account's rules say, whatever its payload does; without any, nowhere. */
  lemma AccountRulesDecide(hub: Hub, stored: seq<SubmittedEvent>, e: SubmittedEvent)
    requires hub.fate(|stored|, e) == Stored && ForAccount(e)
    ensures var ids := hub.rules(Moment(|stored|, false), e);
            if ids == [] then StoredOnly(hub, stored, e, Skipped)
            else SentTo(hub, stored, e, Bus(stored + [e], 0), ids)
  {
    var now := Moment(|stored|, false);
    RouteIs(e);
    OneWay(e);
    DeliverToIs(hub, now, Bus(stored + [e], 0), e, hub.rules(now, e));
  }

  /** Any other type is stored and reported as failed. */
  lemma NoRouteFails(hub: Hub, stored: seq<SubmittedEvent>, e: SubmittedEvent)
    requires hub.fate(|stored|, e) == Stored && !ForRealm(e) && !ForAccount(e)
    ensures StoredOnly(hub, stored, e, Failed)
  {
    RouteIs(e);
  }

  /** Every stored event is in exactly one of these cases. */
  lemma CasesAreAll(hub: Hub, now: Moment, e: SubmittedEvent)
    ensures !(ForRealm(e) && ForAccount(e))
    ensures Says(e.payload, JBool(false)) || (exists items :: Lists(e.payload, items)) || LeftToRules(hub, now, e)
            || exists refs :: LeavesOpen(e.payload) && CoveredByRun(hub, now, e, refs)
  {
    OneWay(e);
    if !Says(e.payload, JBool(false)) && !LeavesOpen(e.payload) {
      var items :| Says(e.payload, JArray(items));
      assert Lists(e.payload, items) || forall item :: item in items ==> !Written(item);
    }
  }

  /** Targeted channels get the event besides; their status is reported where the routing reached nobody. */
  lemma TargetsBesides(hub: Hub, stored: seq<SubmittedEvent>, e: SubmittedEvent, targets: seq<string>)
    requires hub.fate(|stored|, e) == Stored && targets != []
    ensures var report := Delivered(hub, Moment(|stored|, true), e, targets);
            var routed := SubmitStatus(hub, stored, e, []);
            && (report.end.raised != [] ==> e.kind != "notification.failed")
            && Submit(hub, stored, e, targets) == EmitFailed(hub, Submit(hub, stored, e, []), e, report.end.raised)
            && SubmitStatus(hub, stored, e, targets) == if routed == Some(Skipped) then Some(report.status) else routed
  {
    DeliverToIs(hub, Moment(|stored|, true), Submit(hub, stored, e, []), e, targets);
  }
}
