/**
 * Submitting an event as it runs: one store, appended to by the submission and by every submission nested in it
 * (src/services/events_service.ts submit, src/notifications/router.ts, fan_out.service.ts, unknown_channel.ts).
 */
module EventBus {
  import opened Wrappers
  import opened EventDelivery
  import opened EventRouting
  import opened Cascade

  class EventStore {
    const hub: Hub
    var stored: seq<SubmittedEvent>
    /** How deep submissions nested below the current one. */
    ghost var depth: nat

    constructor (hub: Hub)
      ensures this.hub == hub && stored == []
    {
      this.hub := hub;
      stored := [];
    }

    ghost function State(): Bus
      reads this
    {
      Bus(stored, depth)
    }

    /**
     * Accept an event. It returns for every configuration, leaving only events appended, at most two levels down;
     * nothing is reported for an event that is refused.
     */
    method SubmitEvent(e: SubmittedEvent, targets: seq<string>) returns (status: Option<Status>)
      modifies this
      ensures State() == Submit(hub, old(stored), e, targets)
      ensures status == SubmitStatus(hub, old(stored), e, targets)
      ensures old(stored) <= stored && depth <= Rank(e) <= 2
      decreases Rank(e), 3
    {
      depth := 0;
      var before := |stored|;
      match hub.fate(before, e) {
        case Refused => return None;
        case Merged => return Some(Skipped);
        case Stored =>
      }
      stored := stored + [e];
      var notifications := Failed;
      match RouteOf(e) {
        case RealmRoute => notifications := NotifyRealmOf(Moment(before, false), e);
        case AccountRoute => notifications := NotifyAccountOf(Moment(before, false), e);
        case NoRoute =>
      }
      if |targets| > 0 {
        var targeted := Deliver(Moment(before, true), e, targets);
        if notifications == Skipped {
          notifications := targeted;
        }
      }
      status := Some(notifications);
    }

    method SubmitNested(e: SubmittedEvent)
      modifies this
      ensures State() == Nested(hub, old(State()), e)
      decreases Rank(e), 4
    {
      ghost var before := depth;
      var _ := SubmitEvent(e, []);
      depth := Max(before, 1 + depth);
    }

    method NotifyRealmOf(now: Moment, e: SubmittedEvent) returns (status: Status)
      modifies this
      ensures State() == NotifyRealm(hub, now, old(State()), e) && status == RealmStatus(hub, now, e)
      decreases Rank(e), 2
    {
      if |e.realm| == 0 {
        return Skipped;
      }
      match PlanFanOut(IntentOf(hub, now, e)) {
        case Mute => return Skipped;
        case ByRules => status := Deliver(now, e, hub.rules(now, e));
        case ToRefs(refs) =>
          var ids, missing := ResolveRefs(hub.usable(now, e.realm), refs);
          SubmittedRanksLower(hub, now, e, "", "");
          if e.kind != UNKNOWN_CHANNEL {
            RaiseUnknownChannels(e, missing);
          }
          if |ids| == 0 {
            return Failed;
          }
          status := Deliver(now, e, ids);
      }
    }

    method NotifyAccountOf(now: Moment, e: SubmittedEvent) returns (status: Status)
      modifies this
      ensures State() == NotifyAccount(hub, now, old(State()), e) && status == AccountStatus(hub, now, e)
      decreases Rank(e), 2
    {
      var ids := hub.rules(now, e);
      if |ids| == 0 {
        return Skipped;
      }
      status := Deliver(now, e, ids);
    }

    /** One notice per missing name, unless this run already has it. */
    method RaiseUnknownChannels(e: SubmittedEvent, names: seq<string>)
      requires |names| > 0 ==> Rank(e) == 2
      modifies this
      ensures State() == RaiseUnknown(hub, old(State()), e, names)
      decreases Rank(e), 1
    {
      ghost var b0 := State();
      for i := 0 to |names|
        invariant RaiseUnknown(hub, b0, e, names) == RaiseUnknown(hub, State(), e, names[i..])
      {
        assert names[i..][0] == names[i] && names[i..][1..] == names[i + 1..];
        var notice := UnknownChannelEvent(e, names[i]);
        SubmittedRanksLower(hub, Moment(0, false), e, names[i], "");
        if !(|e.run| > 0 && AlreadyRaised(stored, e.run, notice.message)) {
          SubmitNested(notice);
        }
      }
      assert names[|names|..] == [];
    }

    /** A failure notice per failing channel. */
    method Deliver(now: Moment, e: SubmittedEvent, ids: seq<string>) returns (status: Status)
      modifies this
      ensures State() == DeliverTo(hub, now, old(State()), e, ids) && status == DeliveryReport(hub, now, e, ids).status
      decreases Rank(e), 1
    {
      var failing := FailingChannels(hub, now, e, ids);
      ghost var b0 := State();
      for i := 0 to |failing|
        invariant EmitFailed(hub, b0, e, failing) == EmitFailed(hub, State(), e, failing[i..])
      {
        assert failing[i..][0] == failing[i] && failing[i..][1..] == failing[i + 1..];
        SubmittedRanksLower(hub, Moment(0, false), e, "", failing[i]);
        SubmitNested(FailedEvent(e, failing[i]));
      }
      assert failing[|failing|..] == [];
      status := DeliveryReport(hub, now, e, ids).status;
    }
  }
}
