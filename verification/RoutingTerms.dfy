/**
 * What types, payloads and channel names say, in their own text (src/notifications/router.ts:16-40, notify_intent.ts,
 * fan_out.service.ts resolve_channel_refs).
 */
module RoutingTerms {
  import opened Wrappers
  import opened Json
  import opened Sequences
  import opened Text
  import opened EventRouting

  /** Types that go to a realm. */
  predicate ForRealm(e: SubmittedEvent) {
    || "run." <= e.kind || "phase." <= e.kind || "hug." <= e.kind
    || "daemon." <= e.kind || "realm." <= e.kind || "custom." <= e.kind
    || e.kind == "notification.unknown_channel" || e.kind == "notification.no_access"
    || ((e.kind == "notification.test" || e.kind == "notification.failed") && e.realm != "")
  }

  /** Types that go to account rules. */
  predicate ForAccount(e: SubmittedEvent) {
    || "team." <= e.kind || "auth." <= e.kind
    || ((e.kind == "notification.test" || e.kind == "notification.failed") && e.realm == "")
  }

  /** `payload.notify.channels` is this value. */
  predicate Says(payload: Json, channels: Json) {
    && payload.JObject? && "notify" in payload.fields
    && payload.fields["notify"].JObject? && "channels" in payload.fields["notify"].fields
    && payload.fields["notify"].fields["channels"] == channels
  }

  /** A text with some character that is not white space. */
  predicate Written(item: Json) {
    item.JString? && exists c :: c in item.value && !IsSpace(c)
  }

  /** The payload lists these items, at least one of them a written name. */
  predicate Lists(payload: Json, items: seq<Json>) {
    Says(payload, JArray(items)) && exists item :: item in items && Written(item)
  }

  /** The payload decides nothing: no `false` and no list, not even an empty one. */
  ghost predicate LeavesOpen(payload: Json) {
    !Says(payload, JBool(false)) && forall items :: !Says(payload, JArray(items))
  }

  lemma RouteIs(e: SubmittedEvent)
    ensures RouteOf(e) == if ForRealm(e) then RealmRoute else if ForAccount(e) then AccountRoute else NoRoute
  {
  }

  /** No type goes both ways: their first letters differ. */
  lemma OneWay(e: SubmittedEvent)
    ensures !(ForRealm(e) && ForAccount(e))
  {
    if "team." <= e.kind || "auth." <= e.kind {
      assert e.kind[0] == 't' || e.kind[0] == 'a';
    }
  }

  // ---- The channels a list of names stands for. ----

  /** What is tried for one name: itself, and when no channel is called that, what follows its first colon. */
  ghost predicate StandsFor(usable: map<string, seq<string>>, name: string, id: string) {
    || (name in usable && id in usable[name])
    || (&& (name in usable ==> usable[name] == [])
        && exists before, rest ::
             name == before + ":" + rest && ':' !in before && rest != "" && rest in usable && id in usable[rest])
  }

  lemma {:induction false} FirstColon(s: string)
    ensures match IndexOfColon(s)
            case None => ':' !in s
            case Some(i) => i < |s| && s[i] == ':' && ':' !in s[..i]
  {
    if |s| > 0 && s[0] != ':' {
      FirstColon(s[1..]);
      HeadOrTail(s);
      match IndexOfColon(s[1..]) {
        case None =>
        case Some(i) =>
          assert s[..i + 1] == [s[0]] + s[1..][..i];
      }
    }
  }

  lemma {:induction false} SplitAtFirstColon(before: string, rest: string)
    requires ':' !in before
    ensures var s := before + ":" + rest; IndexOfColon(s) == Some(|before|) && s[|before| + 1..] == rest
  {
    var s := before + ":" + rest;
    if |before| > 0 {
      assert before[0] in before && forall c :: c in before[1..] ==> c in before;
      SplitAtFirstColon(before[1..], rest);
      assert s[1..] == before[1..] + ":" + rest;
    }
  }

  lemma MatchesAre(usable: map<string, seq<string>>, name: string, id: string)
    ensures id in Matches(usable, Candidates(name)) <==> StandsFor(usable, name, id)
  {
    FirstColon(name);
    var at := IndexOfColon(name);
    if before, rest :|
      name == before + ":" + rest && ':' !in before && rest != "" && rest in usable && id in usable[rest]
    {
      SplitAtFirstColon(before, rest);
    }
    if at.Some? && at.value < |name| - 1 {
      var before, rest := name[..at.value], name[at.value + 1..];
      assert name == before + ":" + rest;
      assert Candidates(name) == [name, rest];
      OneName(usable, rest);
      assert [name, rest][1..] == [rest];
    } else {
      assert Candidates(name) == [name];
      OneName(usable, name);
    }
  }

  lemma OneName(usable: map<string, seq<string>>, name: string)
    ensures Matches(usable, [name]) == if name in usable then usable[name] else []
  {
    assert [name][1..] == [];
  }

  /** `ids` are the channels that some of these names stand for, each once; `missing` the names that stand for none. */
  ghost predicate Resolves(usable: map<string, seq<string>>, names: string -> bool, ids: seq<string>,
                           missing: seq<string>) {
    && NoDuplicates(ids) && NoDuplicates(missing)
    && (forall id :: id in ids <==> exists name :: names(name) && StandsFor(usable, name, id))
    && (forall name :: name in missing <==> names(name) && forall id :: !StandsFor(usable, name, id))
  }

  lemma RefsResolve(usable: map<string, seq<string>>, refs: seq<string>, names: string -> bool)
    requires forall name :: name in refs <==> names(name)
    ensures var out := ResolveChannelRefs(usable, refs); Resolves(usable, names, out.ids, out.missing)
  {
    ResolveSplitsRefs(usable, refs);
    forall name, id ensures id in Matches(usable, Candidates(name)) <==> StandsFor(usable, name, id) {
      MatchesAre(usable, name, id);
    }
    var out := ResolveChannelRefs(usable, refs);
    forall name ensures name in out.missing <==> names(name) && forall id :: !StandsFor(usable, name, id) {
      var m := Matches(usable, Candidates(name));
      if m != [] {
        assert m[0] in m && StandsFor(usable, name, m[0]);
      }
    }
  }

  // ---- Payloads. ----

  lemma {:induction false} WrittenIsNotBlank(s: string)
    ensures |TrimLeft(s)| > 0 <==> exists c :: c in s && !IsSpace(c)
    ensures |TrimRight(s)| > 0 <==> exists c :: c in s && !IsSpace(c)
  {
    if |s| > 0 {
      WrittenIsNotBlank(s[1..]);
      WrittenIsNotBlank(s[..|s| - 1]);
      HeadOrTail(s);
      assert s == s[..|s| - 1] + [s[|s| - 1]];
    }
  }

  lemma {:induction false} TrimLeftKeeps(s: string)
    ensures forall c :: !IsSpace(c) ==> (c in TrimLeft(s) <==> c in s)
  {
    if |s| > 0 {
      TrimLeftKeeps(s[1..]);
      HeadOrTail(s);
    }
  }

  lemma WrittenNames(item: Json)
    ensures Written(item) <==> NamesChannel(item)
  {
    if item.JString? {
      WrittenIsNotBlank(item.value);
      WrittenIsNotBlank(TrimLeft(item.value));
      TrimLeftKeeps(item.value);
    }
  }

  /** The names a payload lists. */
  function WrittenIn(items: seq<Json>): string -> bool {
    (name: string) => JString(name) in items && Written(JString(name))
  }

  lemma OpenIntent(payload: Json)
    ensures LeavesOpen(payload) <==> ReadIntent(payload) == Unspecified
  {
    match NotifyChannels(payload)
    case None =>
    case Some(channels) =>
      assert Says(payload, channels);
      if channels.JArray? {
        assert Says(payload, JArray(channels.items));
      }
  }
}
