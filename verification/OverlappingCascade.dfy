/**
 * The cascade when submissions overlap (src/notifications/fan_out.service.ts:341,
 * src/notifications/unknown_channel.ts): failure notices are not awaited, so at any moment any event already submitted
 * may cause another one, in any order and however often.
 */
module OverlappingCascade {
  import opened Wrappers
  import opened Channels
  import opened EventRouting
  import opened Cascade

  /** A submission, how deep it is nested, and the submission that caused it. */
  datatype Submitted = Submitted(event: SubmittedEvent, depth: nat, cause: Option<nat>)

  /**
   * A client submits; or fan-out of an earlier event does, for a name it could not resolve or a channel that failed.
   */
  datatype Action =
    | Client(event: SubmittedEvent)
    | MissingName(cause: nat, at: Moment, name: string)
    | FailingChannel(cause: nat, channelId: string)

  /**
   * A missing name needs an event that names channels and is no such notice itself; a failure needs one that is none.
   */
  predicate Enabled(hub: Hub, s: seq<Submitted>, a: Action) {
    match a
    case Client(_) => true
    case MissingName(k, at, _) =>
      k < |s| && s[k].event.kind != UNKNOWN_CHANNEL && PlanFanOut(IntentOf(hub, at, s[k].event)).ToRefs?
    case FailingChannel(k, _) => k < |s| && s[k].event.kind != FAILED
  }

  function Do(hub: Hub, s: seq<Submitted>, a: Action): seq<Submitted> {
    if !Enabled(hub, s, a) then s
    else
      s + [match a
           case Client(e) => Submitted(e, 0, None)
           case MissingName(k, _, name) => Submitted(UnknownChannelEvent(s[k].event, name), s[k].depth + 1, Some(k))
           case FailingChannel(k, id) => Submitted(FailedEvent(s[k].event, id), s[k].depth + 1, Some(k))]
  }

  function After(hub: Hub, s: seq<Submitted>, actions: seq<Action>): seq<Submitted>
    decreases |actions|
  {
    if |actions| == 0 then s else After(hub, Do(hub, s, actions[0]), actions[1..])
  }

  /**
   * Each submission was caused by an earlier one of higher rank, one level up, and has room for its own rank below it.
   */
  ghost predicate Shallow(s: seq<Submitted>) {
    forall i :: 0 <= i < |s| ==> RanksBelowCause(s, i)
  }

  ghost predicate RanksBelowCause(s: seq<Submitted>, i: int)
    requires 0 <= i < |s|
  {
    && s[i].depth + Rank(s[i].event) <= 2
    && match s[i].cause
       case None => s[i].depth == 0
       case Some(k) => k < i && s[i].depth == s[k].depth + 1 && Rank(s[i].event) < Rank(s[k].event)
  }

  lemma DoKeepsShallow(hub: Hub, s: seq<Submitted>, a: Action)
    requires Shallow(s)
    ensures Shallow(Do(hub, s, a))
  {
    var t := Do(hub, s, a);
    if Enabled(hub, s, a) {
      match a {
        case Client(_) =>
        case MissingName(k, at, name) =>
          SubmittedRanksLower(hub, at, s[k].event, name, "");
          assert RanksBelowCause(s, k);
        case FailingChannel(k, id) =>
          SubmittedRanksLower(hub, Moment(0, false), s[k].event, "", id);
          assert RanksBelowCause(s, k);
      }
    }
    forall i | 0 <= i < |t| ensures RanksBelowCause(t, i) {
      if i < |s| {
        assert RanksBelowCause(s, i);
      }
    }
  }

  lemma {:induction false} AfterIsShallow(hub: Hub, s: seq<Submitted>, actions: seq<Action>)
    requires Shallow(s)
    ensures Shallow(After(hub, s, actions))
    decreases |actions|
  {
    if |actions| > 0 {
      DoKeepsShallow(hub, s, actions[0]);
      AfterIsShallow(hub, Do(hub, s, actions[0]), actions[1..]);
    }
  }

  /**
   * Over every interleaving of submissions, for every configuration: whatever fan-out submits ranks below what caused
   * it, and nothing nests more than two levels below a client's event.
   */
  lemma NeverDeeperThanTwo(hub: Hub, actions: seq<Action>, i: nat)
    requires i < |After(hub, [], actions)|
    ensures var s := After(hub, [], actions);
            && s[i].depth + Rank(s[i].event) <= 2
            && (s[i].cause.Some? ==>
                  s[i].cause.value < i && s[i].depth == s[s[i].cause.value].depth + 1
                  && Rank(s[i].event) < Rank(s[s[i].cause.value].event))
  {
    AfterIsShallow(hub, [], actions);
    assert RanksBelowCause(After(hub, [], actions), i);
  }
}
