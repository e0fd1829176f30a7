/**
 * Which fan-out path an event takes, and which channels it names
 * (src/notifications/router.ts, notify_intent.ts, fan_out.service.ts resolve_channel_refs).
 */
module EventRouting {
  import opened Wrappers
  import opened Json
  import opened Sequences
  import opened Text

  /** `realm` and `run` are trimmed; empty stands for absent. */
  datatype SubmittedEvent = SubmittedEvent(kind: string, realm: string, run: string, message: string, payload: Json)

  datatype Route = RealmRoute | AccountRoute | NoRoute

  datatype Intent = Unspecified | Muted | Named(refs: seq<string>)

  datatype Plan = Mute | ToRefs(refs: seq<string>) | ByRules

  const FAILED := "notification.failed"
  const UNKNOWN_CHANNEL := "notification.unknown_channel"
  const NO_ACCESS := "notification.no_access"

  predicate StartsWith(s: string, prefix: string) {
    prefix <= s
  }

  function RouteOf(e: SubmittedEvent): Route {
    var t := e.kind;
    if || StartsWith(t, "run.") || StartsWith(t, "phase.") || StartsWith(t, "hug.")
       || StartsWith(t, "daemon.") || StartsWith(t, "realm.") || StartsWith(t, "custom.") then RealmRoute
    else if t == "notification.test" || t == FAILED then (if |e.realm| > 0 then RealmRoute else AccountRoute)
    else if t == UNKNOWN_CHANNEL || t == NO_ACCESS then RealmRoute
    else if StartsWith(t, "team.") || StartsWith(t, "auth.") then AccountRoute
    else NoRoute
  }

  function ChannelNames(items: seq<Json>): seq<string> {
    if |items| == 0 then []
    else (if items[0].JString? && |Trim(items[0].value)| > 0 then [items[0].value] else []) + ChannelNames(items[1..])
  }

  /** What the payload's `notify.channels` asks for. */
  function ReadIntent(payload: Json): Intent {
    match Field(payload, "notify")
    case None => Unspecified
    case Some(notify) =>
      match Field(notify, "channels")
      case None => Unspecified
      case Some(channels) =>
        if channels == JBool(false) then Muted
        else if channels.JArray? then Named(ChannelNames(channels.items))
        else Unspecified
  }

  function PlanFanOut(intent: Intent): Plan {
    match intent
    case Muted => Mute
    case Named(refs) => if |refs| > 0 then ToRefs(refs) else ByRules
    case Unspecified => ByRules
  }

  /** What `payload.notify.channels` holds. */
  function NotifyChannels(payload: Json): Option<Json> {
    match Field(payload, "notify")
    case Some(notify) => Field(notify, "channels")
    case None => None
  }

  predicate NamesChannel(item: Json) {
    item.JString? && |Trim(item.value)| > 0
  }

  lemma {:induction false} ChannelNamesAre(items: seq<Json>)
    ensures forall name :: name in ChannelNames(items) <==> JString(name) in items && NamesChannel(JString(name))
  {
    if |items| > 0 {
      ChannelNamesAre(items[1..]);
      HeadOrTail(items);
    }
  }

  /**
   * Only a literal `false` mutes; only a list that names at least one channel replaces the rules, by exactly the names
   * in it; everything else, an empty list included, leaves the event to the rules.
   */
  lemma PlanMeaning(payload: Json)
    ensures var plan := PlanFanOut(ReadIntent(payload));
            var channels := NotifyChannels(payload);
            && (plan.Mute? <==> channels == Some(JBool(false)))
            && (plan.ToRefs? <==>
                  && channels.Some? && channels.value.JArray?
                  && exists item :: item in channels.value.items && NamesChannel(item))
            && (plan.ToRefs? ==>
                  forall name :: name in plan.refs <==>
                    JString(name) in channels.value.items && NamesChannel(JString(name)))
  {
    var channels := NotifyChannels(payload);
    if channels.Some? && channels.value.JArray? {
      var items := channels.value.items;
      ChannelNamesAre(items);
      if item :| item in items && NamesChannel(item) {
        assert item.value in ChannelNames(items);
      }
      if |ChannelNames(items)| > 0 {
        var name := ChannelNames(items)[0];
        assert name in ChannelNames(items) && NamesChannel(JString(name));
      }
    }
  }

  /** The run lifecycle events a run's own channels cover. */
  predicate RunNotifyOverride(kind: string) {
    kind in ["run.completed", "run.failed", "run.crashed", "run.cancelled", "phase.escalated"]
  }

  // ---- Named refs to channel ids. ----

  datatype Resolved = Resolved(ids: seq<string>, missing: seq<string>)

  function IndexOfColon(s: string): Option<nat> {
    if |s| == 0 then None
    else if s[0] == ':' then Some(0)
    else match IndexOfColon(s[1..]) case None => None case Some(i) => Some(i + 1)
  }

  /** The names one ref is tried under: itself, then what follows its first colon. */
  function Candidates(s: string): (r: seq<string>)
    ensures |r| > 0
  {
    match IndexOfColon(s)
    case Some(i) => if i < |s| - 1 && i + 1 <= |s| then [s, s[i + 1..]] else [s]
    case None => [s]
  }

  /** The channels of the first candidate that names any. */
  function Matches(usable: map<string, seq<string>>, names: seq<string>): seq<string> {
    if |names| == 0 then []
    else if names[0] in usable && |usable[names[0]]| > 0 then usable[names[0]]
    else Matches(usable, names[1..])
  }

  function ResolveStep(usable: map<string, seq<string>>, s: string, r: Resolved): Resolved {
    var m := Matches(usable, Candidates(s));
    if |m| > 0 then r.(ids := AddNew(r.ids, m))
    else if s in r.missing then r else r.(missing := r.missing + [s])
  }

  function ResolveFrom(usable: map<string, seq<string>>, refs: seq<string>, r: Resolved): Resolved {
    if |refs| == 0 then r else ResolveFrom(usable, refs[1..], ResolveStep(usable, refs[0], r))
  }

  function ResolveChannelRefs(usable: map<string, seq<string>>, refs: seq<string>): Resolved {
    ResolveFrom(usable, refs, Resolved([], []))
  }

  lemma {:induction false} ResolveFromSplits(usable: map<string, seq<string>>, refs: seq<string>, r: Resolved)
    requires NoDuplicates(r.ids) && NoDuplicates(r.missing)
    ensures var out := ResolveFrom(usable, refs, r);
            && NoDuplicates(out.ids) && NoDuplicates(out.missing)
            && (forall x :: x in out.ids <==>
                 x in r.ids || exists s :: s in refs && x in Matches(usable, Candidates(s)))
            && (forall s :: s in out.missing <==> s in r.missing || (s in refs && Matches(usable, Candidates(s)) == []))
  {
    if |refs| > 0 {
      var m := Matches(usable, Candidates(refs[0]));
      AddNewAdds(r.ids, m);
      ResolveFromSplits(usable, refs[1..], ResolveStep(usable, refs[0], r));
      assert refs == [refs[0]] + refs[1..];
    }
  }

  /** Each matching channel once; each ref that names nothing once; every ref lands on exactly one side. */
  lemma ResolveSplitsRefs(usable: map<string, seq<string>>, refs: seq<string>)
    ensures var out := ResolveChannelRefs(usable, refs);
            && NoDuplicates(out.ids) && NoDuplicates(out.missing)
            && (forall x :: x in out.ids <==> exists s :: s in refs && x in Matches(usable, Candidates(s)))
            && (forall s :: s in out.missing <==> s in refs && Matches(usable, Candidates(s)) == [])
  {
    ResolveFromSplits(usable, refs, Resolved([], []));
  }

  /** The loop over refs as it runs. */
  method ResolveRefs(usable: map<string, seq<string>>, refs: seq<string>)
    returns (ids: seq<string>, missing: seq<string>)
    ensures Resolved(ids, missing) == ResolveChannelRefs(usable, refs)
  {
    ids, missing := [], [];
    for i := 0 to |refs|
      invariant ResolveChannelRefs(usable, refs) == ResolveFrom(usable, refs[i..], Resolved(ids, missing))
    {
      assert refs[i..][0] == refs[i] && refs[i..][1..] == refs[i + 1..];
      var candidates := Candidates(refs[i]);
      ghost var ids0 := ids;
      var found := false;
      var c := 0;
      while c < |candidates| && !found
        invariant 0 <= c <= |candidates|
        invariant !found ==> ids == ids0 && Matches(usable, candidates) == Matches(usable, candidates[c..])
        invariant found ==> |Matches(usable, candidates)| > 0 && ids == AddNew(ids0, Matches(usable, candidates))
      {
        assert candidates[c..][0] == candidates[c] && candidates[c..][1..] == candidates[c + 1..];
        if candidates[c] in usable && |usable[candidates[c]]| > 0 {
          found := true;
          var matches := usable[candidates[c]];
          for k := 0 to |matches|
            invariant AddNew(ids0, matches) == AddNew(ids, matches[k..])
          {
            assert matches[k..][0] == matches[k] && matches[k..][1..] == matches[k + 1..];
            if matches[k] !in ids {
              ids := ids + [matches[k]];
            }
          }
          assert matches[|matches|..] == [];
        }
        c := c + 1;
      }
      if !found && refs[i] !in missing {
        missing := missing + [refs[i]];
      }
    }
    assert refs[|refs|..] == [];
  }
}
