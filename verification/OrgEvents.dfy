/**
 * Org events (src/notifications/recipients.ts resolve_recipients, fan_out.service.ts notify_org): who a built-in
 * message goes to, and that each person and each channel gets it once.
 */
module OrgEvents {
  import opened Wrappers
  import opened Sequences
  import opened Channels
  import opened DestinationWalk
  import opened DestinationOnce
  import opened DestinationReach
  import opened EventDelivery
  import opened FanOut
  import opened UnguardedWalk

  datatype Recipient = Recipient(email: string, userId: Option<string>, selector: string)

  /** What the database holds: who each selector stands for, and how addresses are lower-cased. */
  datatype People = People(expand: string -> seq<Recipient>, lower: string -> string)

  // ---- Recipients. ----

  /** All selectors' people, in selector order. */
  function Expansion(people: People, selectors: seq<string>): seq<Recipient> {
    if |selectors| == 0 then []
    else Expansion(people, selectors[..|selectors| - 1]) + people.expand(selectors[|selectors| - 1])
  }

  function EmailKey(people: People): Recipient -> string {
    (r: Recipient) => people.lower(r.email)
  }

  /** `seen` holds the lower-cased addresses of `all`. */
  ghost predicate SeenOf(people: People, all: seq<Recipient>, seen: set<string>) {
    forall address :: address in seen <==> exists j :: 0 <= j < |all| && people.lower(all[j].email) == address
  }

  /** One more person: kept unless the address was seen. */
  lemma OneMoreRecipient(people: People, all: seq<Recipient>, seen: set<string>, r: Recipient)
    requires SeenOf(people, all, seen)
    ensures SeenOf(people, all + [r], seen + {people.lower(r.email)})
    ensures FirstBy(all + [r], EmailKey(people)) ==
            FirstBy(all, EmailKey(people)) + if people.lower(r.email) in seen then [] else [r]
  {
    var key, now, address := EmailKey(people), all + [r], people.lower(r.email);
    assert now[..|now| - 1] == all && now[|now| - 1] == r;
    assert (exists i :: 0 <= i < |all| && key(all[i]) == key(r)) <==> address in seen by {
      if address in seen {
        var i :| 0 <= i < |all| && people.lower(all[i].email) == address;
        assert key(all[i]) == key(r);
      }
      if i :| 0 <= i < |all| && key(all[i]) == key(r) {
        assert people.lower(all[i].email) == address;
      }
    }
    forall x ensures x in seen + {address} <==> exists j :: 0 <= j < |now| && people.lower(now[j].email) == x {
      if x in seen {
        var j :| 0 <= j < |all| && people.lower(all[j].email) == x;
        assert now[j] == all[j];
      } else if x == address {
        assert now[|all|] == r;
      }
    }
  }

  /** The people of one selector. */
  method AddRecipients(people: People, ghost all: seq<Recipient>, more: seq<Recipient>, seen: set<string>,
                       out: seq<Recipient>)
    returns (seen': set<string>, out': seq<Recipient>)
    requires SeenOf(people, all, seen) && out == FirstBy(all, EmailKey(people))
    ensures SeenOf(people, all + more, seen') && out' == FirstBy(all + more, EmailKey(people))
  {
    seen', out' := seen, out;
    assert all + more[..0] == all;
    for k := 0 to |more|
      invariant SeenOf(people, all + more[..k], seen') && out' == FirstBy(all + more[..k], EmailKey(people))
    {
      OneMoreRecipient(people, all + more[..k], seen', more[k]);
      assert all + more[..k + 1] == all + more[..k] + [more[k]];
      var address := people.lower(more[k].email);
      if address !in seen' {
        out' := out' + [more[k]];
      }
      seen' := seen' + {address};
    }
    assert more[..|more|] == more;
  }

  /** Selector by selector, person by person, keeping the first of each lower-cased address. */
  method ResolveRecipients(people: People, selectors: seq<string>) returns (out: seq<Recipient>)
    ensures out == FirstBy(Expansion(people, selectors), EmailKey(people))
  {
    out := [];
    var seen: set<string> := {};
    for i := 0 to |selectors|
      invariant out == FirstBy(Expansion(people, selectors[..i]), EmailKey(people))
      invariant SeenOf(people, Expansion(people, selectors[..i]), seen)
    {
      assert selectors[..i + 1][..i] == selectors[..i];
      seen, out := AddRecipients(people, Expansion(people, selectors[..i]), people.expand(selectors[i]), seen, out);
    }
    assert selectors[..|selectors|] == selectors;
  }

  lemma {:induction false} ExpansionIs(people: People, selectors: seq<string>, r: Recipient)
    ensures r in Expansion(people, selectors) <==>
              exists selector :: selector in selectors && r in people.expand(selector)
  {
    if |selectors| > 0 {
      var before, last := selectors[..|selectors| - 1], selectors[|selectors| - 1];
      ExpansionIs(people, before, r);
      assert selectors == before + [last];
    }
  }

  /** No address twice, however it is written; nobody no selector stands for; everybody some selector stands for. */
  lemma RecipientsOnce(people: People, selectors: seq<string>)
    ensures var out := FirstBy(Expansion(people, selectors), EmailKey(people));
            && (forall i, j :: 0 <= i < j < |out| ==> people.lower(out[i].email) != people.lower(out[j].email))
            && (forall r :: r in out ==> exists selector :: selector in selectors && r in people.expand(selector))
            && (forall selector, r :: selector in selectors && r in people.expand(selector) ==>
                 exists j :: 0 <= j < |out| && people.lower(out[j].email) == people.lower(r.email))
  {
    var all := Expansion(people, selectors);
    var key := EmailKey(people);
    FirstByOnce(all, key);
    var out := FirstBy(all, key);
    forall i, j | 0 <= i < j < |out| ensures people.lower(out[i].email) != people.lower(out[j].email) {
      assert key(out[i]) != key(out[j]);
    }
    forall r | r in out ensures exists selector :: selector in selectors && r in people.expand(selector) {
      ExpansionIs(people, selectors, r);
    }
    forall selector, r | selector in selectors && r in people.expand(selector)
      ensures exists j :: 0 <= j < |out| && people.lower(out[j].email) == people.lower(r.email)
    {
      ExpansionIs(people, selectors, r);
      var i :| 0 <= i < |all| && all[i] == r;
      var j :| 0 <= j < |out| && key(out[j]) == key(all[i]);
    }
  }

  /** Whoever shares an address with somebody named earlier is left out, and the order is the selectors'. */
  lemma RecipientsAreFirsts(people: People, selectors: seq<string>) returns (at: seq<int>)
    ensures var all := Expansion(people, selectors);
            var out := FirstBy(all, EmailKey(people));
            && |at| == |out|
            && (forall k :: 0 <= k < |at| ==> IsFirst(all, EmailKey(people), at[k]) && out[k] == all[at[k]])
            && (forall i, j :: 0 <= i < j < |at| ==> at[i] < at[j])
            && (forall i :: IsFirst(all, EmailKey(people), i) ==> i in at)
  {
    at := FirstByFirsts(Expansion(people, selectors), EmailKey(people));
  }

  // ---- Built-in messages. ----

  /** A built-in message: by email, or to the inbox of people with an account. */
  datatype Builtin = Builtin(byEmail: bool, selectors: seq<string>)

  datatype Delivery =
    | Emailed(to: Recipient, withLinks: bool, ok: bool)
    | Inbox(userId: string, ok: bool)
    | ToChannel(channelId: string, ok: bool)

  /** A `done` key: the text keys of the source differ by their kind, as ids hold no `|`. */
  datatype Key = EmailTo(address: string) | InboxOf(userId: string) | ChannelDone(channelId: string)

  function KeyOf(d: Delivery): Key {
    match d
    case Emailed(to, _, _) => EmailTo(to.email)
    case Inbox(userId, _) => InboxOf(userId)
    case ToChannel(channelId, _) => ChannelDone(channelId)
  }

  /** `done` holds exactly what was delivered, and nothing was delivered twice. */
  ghost predicate DoneOnce(done: set<Key>, deliveries: seq<Delivery>) {
    && (forall i, j :: 0 <= i < j < |deliveries| ==> KeyOf(deliveries[i]) != KeyOf(deliveries[j]))
    && (forall i :: 0 <= i < |deliveries| ==> KeyOf(deliveries[i]) in done)
    && (forall k :: k in done ==> exists i :: 0 <= i < |deliveries| && KeyOf(deliveries[i]) == k)
  }

  lemma DoneOnceAdds(done: set<Key>, deliveries: seq<Delivery>, d: Delivery)
    requires DoneOnce(done, deliveries) && KeyOf(d) !in done
    ensures DoneOnce(done + {KeyOf(d)}, deliveries + [d])
  {
    var more := deliveries + [d];
    forall k | k in done + {KeyOf(d)} ensures exists i :: 0 <= i < |more| && KeyOf(more[i]) == k {
      if k in done {
        var i :| 0 <= i < |deliveries| && KeyOf(deliveries[i]) == k;
        assert more[i] == deliveries[i];
      } else {
        assert more[|deliveries|] == d;
      }
    }
  }

  /** What became of one email: sent, turned down, or the deliverer threw. */
  datatype Mail = Sent | NotSent | Threw

  /**
   * An event's links belong to one selector's recipient. Making them, once per event, throws or says if there are any.
   */
  datatype Links = NoLinks | LinksFor(selector: string, made: Option<bool>)

  predicate LinksBelongTo(links: Links, r: Recipient) {
    links.LinksFor? && links.selector == r.selector
  }

  /** The outcome of one email: without its links being made nothing is sent, and a throw reports no links. */
  function MailOutcome(links: Links, r: Recipient, mail: Mail): Delivery {
    if LinksBelongTo(links, r) && links.made.None? then Emailed(r, false, false)
    else if mail.Threw? then Emailed(r, false, false)
    else Emailed(r, LinksBelongTo(links, r) && links.made == Some(true), mail.Sent?)
  }

  /** What the database, the mailer and the inbox answer: who has an account, and what becomes of the k-th delivery. */
  datatype Answers = Answers(active: set<string>, links: Links, mail: nat -> Mail, accepts: nat -> bool)

  /**
   * The k-th delivery: an email goes to somebody the messages stand for, and is sent when the mailer sends it and its
   * links, if they are this person's, could be made; links are reported for that person alone, when there are any and
   * the mailer did not throw. An inbox row is for an active account, and is there when it was accepted.
   */
  ghost predicate Told(a: Answers, everyone: set<Recipient>, k: nat, d: Delivery) {
    match d
    case Emailed(to, withLinks, ok) =>
      var theirs := a.links.LinksFor? && a.links.selector == to.selector;
      && to in everyone
      && (ok <==> a.mail(k) == Sent && !(theirs && a.links.made == None))
      && (withLinks <==> theirs && a.links.made == Some(true) && a.mail(k) != Mail.Threw)
    case Inbox(userId, ok) => userId in a.active && (ok <==> a.accepts(k))
    case ToChannel(_, _) => true
  }

  ghost predicate AllTold(a: Answers, everyone: set<Recipient>, deliveries: seq<Delivery>) {
    forall k :: 0 <= k < |deliveries| ==> Told(a, everyone, k, deliveries[k])
  }

  /** The enabled channels of the rules, each where it is first named, those already done left out. */
  function RuleChannels(done: set<Key>, rules: seq<string>, channels: map<string, Channel>): seq<Channel> {
    if |rules| == 0 then []
    else
      var before, id := rules[..|rules| - 1], rules[|rules| - 1];
      RuleChannels(done, before, channels)
      + if id in channels && ChannelDone(id) !in done && id !in before then [channels[id]] else []
  }

  /** The keys the rules leave behind. */
  ghost function RuleKeys(rules: seq<string>, channels: map<string, Channel>): set<Key> {
    set id | id in rules && id in channels :: ChannelDone(id)
  }

  lemma RuleChannelsAdds(done: set<Key>, rules: seq<string>, channels: map<string, Channel>, id: string)
    ensures RuleKeys(rules + [id], channels) ==
            RuleKeys(rules, channels) + if id in channels then {ChannelDone(id)} else {}
    ensures id in channels ==> (ChannelDone(id) in RuleKeys(rules, channels) <==> id in rules)
    ensures RuleChannels(done, rules + [id], channels) ==
            if id in channels && ChannelDone(id) !in done && id !in rules
            then RuleChannels(done, rules, channels) + [channels[id]]
            else RuleChannels(done, rules, channels)
  {
    assert (rules + [id])[..|rules|] == rules;
  }

  lemma {:induction false} RuleChannelsFresh(done: set<Key>, rules: seq<string>, channels: map<string, Channel>)
    requires forall k :: k in done ==> !k.ChannelDone?
    ensures RuleChannels(done, rules, channels) == RuleChannels({}, rules, channels)
  {
    if |rules| > 0 {
      RuleChannelsFresh(done, rules[..|rules| - 1], channels);
    }
  }

  /** No channel twice, and exactly the enabled ones the rules name. */
  lemma {:induction false} RuleChannelsOnce(rules: seq<string>, channels: map<string, Channel>)
    requires forall id :: id in channels ==> channels[id].id == id
    ensures var cs := RuleChannels({}, rules, channels);
            && (forall c :: c in cs <==> c.id in rules && c.id in channels && channels[c.id] == c)
            && (forall i, j :: 0 <= i < j < |cs| ==> cs[i].id != cs[j].id)
  {
    if |rules| > 0 {
      var before, id := rules[..|rules| - 1], rules[|rules| - 1];
      RuleChannelsOnce(before, channels);
      assert rules == before + [id];
      var cs := RuleChannels({}, before, channels);
      assert forall i :: 0 <= i < |cs| ==> cs[i] in cs;
    }
  }

  ghost predicate NamedBefore(rules: seq<string>, a: string, b: string) {
    exists p :: 0 <= p < |rules| && rules[p] == a && b !in rules[..p + 1]
  }

  /** In the order in which the rules first name them. */
  lemma {:induction false} RuleChannelsInOrder(rules: seq<string>, channels: map<string, Channel>)
    requires forall id :: id in channels ==> channels[id].id == id
    ensures var cs := RuleChannels({}, rules, channels);
            forall i, j :: 0 <= i < j < |cs| ==> NamedBefore(rules, cs[i].id, cs[j].id)
  {
    if |rules| > 0 {
      var before, id := rules[..|rules| - 1], rules[|rules| - 1];
      RuleChannelsInOrder(before, channels);
      RuleChannelsOnce(before, channels);
      var cs0, cs := RuleChannels({}, before, channels), RuleChannels({}, rules, channels);
      forall i, j | 0 <= i < j < |cs| ensures NamedBefore(rules, cs[i].id, cs[j].id) {
        assert cs0[i] == cs[i] && cs0[i] in cs0;
        if j < |cs0| {
          var p :| 0 <= p < |before| && before[p] == cs[i].id && cs[j].id !in before[..p + 1];
          assert rules[..p + 1] == before[..p + 1];
        } else {
          var p :| 0 <= p < |before| && before[p] == cs[i].id;
          assert rules[..p + 1] == before[..p + 1];
        }
      }
    }
  }

  class OrgNotifier {
    const people: People
    const answers: Answers
    var done: set<Key>
    var deliveries: seq<Delivery>
    ghost var everyone: set<Recipient>

    constructor (people: People, answers: Answers)
      ensures this.people == people && this.answers == answers
      ensures done == {} && deliveries == [] && Valid()
    {
      this.people, this.answers := people, answers;
      done, deliveries, everyone := {}, [], {};
    }

    ghost predicate Valid()
      reads this
    {
      DoneOnce(done, deliveries) && AllTold(answers, everyone, deliveries)
    }

    method Deliver(d: Delivery)
      requires Valid() && KeyOf(d) !in done
      requires Told(answers, everyone, |deliveries|, d)
      modifies this`done, this`deliveries
      ensures Valid() && done == old(done) + {KeyOf(d)} && deliveries == old(deliveries) + [d]
    {
      DoneOnceAdds(done, deliveries, d);
      done := done + {KeyOf(d)};
      deliveries := deliveries + [d];
    }

    /**
     * One built-in email message: every recipient's address has it afterwards, none twice, links only where they
     * belong.
     */
    method EmailRecipients(recipients: seq<Recipient>)
      requires Valid() && forall r :: r in recipients ==> r in everyone
      modifies this`done, this`deliveries
      ensures Valid() && old(deliveries) <= deliveries
      ensures done == old(done) + set r | r in recipients :: EmailTo(r.email)
    {
      for i := 0 to |recipients|
        invariant Valid() && old(deliveries) <= deliveries
        invariant done == old(done) + set r | r in recipients[..i] :: EmailTo(r.email)
      {
        var r := recipients[i];
        assert recipients[..i + 1] == recipients[..i] + [r];
        if EmailTo(r.email) !in done {
          assert r in everyone;
          Deliver(MailOutcome(answers.links, r, answers.mail(|deliveries|)));
        }
      }
      assert recipients[..|recipients|] == recipients;
    }

    /** The inboxes of those of the recipients that have an active account. */
    ghost function InboxKeys(recipients: seq<Recipient>): set<Key> {
      set r | r in recipients && r.userId.Some? && r.userId.value in answers.active :: InboxOf(r.userId.value)
    }

    /** One built-in inbox message: exactly the recipients with an active account, each once. */
    method FillInboxes(recipients: seq<Recipient>)
      requires Valid()
      modifies this`done, this`deliveries
      ensures Valid() && old(deliveries) <= deliveries
      ensures done == old(done) + InboxKeys(recipients)
    {
      for i := 0 to |recipients|
        invariant Valid() && old(deliveries) <= deliveries
        invariant done == old(done) + InboxKeys(recipients[..i])
      {
        var r := recipients[i];
        assert recipients[..i + 1] == recipients[..i] + [r];
        if r.userId.Some? && r.userId.value in answers.active && InboxOf(r.userId.value) !in done {
          Deliver(Inbox(r.userId.value, answers.accepts(|deliveries|)));
        }
      }
      assert recipients[..|recipients|] == recipients;
    }

    /** The keys one message leaves behind. */
    ghost function KeysOf(spec: Builtin): set<Key> {
      var recipients := FirstBy(Expansion(people, spec.selectors), EmailKey(people));
      if spec.byEmail then set r | r in recipients :: EmailTo(r.email)
      else InboxKeys(recipients)
    }

    ghost function KeysOfAll(specs: seq<Builtin>): set<Key> {
      if |specs| == 0 then {} else KeysOfAll(specs[..|specs| - 1]) + KeysOf(specs[|specs| - 1])
    }

    /** Who one message is for. */
    ghost function RecipientsOf(spec: Builtin): seq<Recipient> {
      FirstBy(Expansion(people, spec.selectors), EmailKey(people))
    }

    /** A message by email is for somebody with this address. */
    ghost predicate IsEmailed(specs: seq<Builtin>, address: string) {
      exists spec, r :: spec in specs && spec.byEmail && r in RecipientsOf(spec) && r.email == address
    }

    /** A message to inboxes is for somebody with this active account. */
    ghost predicate IsInboxed(specs: seq<Builtin>, userId: string) {
      exists spec, r :: spec in specs && !spec.byEmail && r in RecipientsOf(spec) && r.userId == Some(userId)
        && userId in answers.active
    }

    lemma KeysOfIs(spec: Builtin)
      ensures forall x :: EmailTo(x) in KeysOf(spec) <==> IsEmailed([spec], x)
      ensures forall x :: InboxOf(x) in KeysOf(spec) <==> IsInboxed([spec], x)
    {
      assert forall other :: other in [spec] <==> other == spec;
    }

    lemma {:induction false} KeysAre(specs: seq<Builtin>)
      ensures forall x :: EmailTo(x) in KeysOfAll(specs) <==> IsEmailed(specs, x)
      ensures forall x :: InboxOf(x) in KeysOfAll(specs) <==> IsInboxed(specs, x)
    {
      if |specs| > 0 {
        var before, last := specs[..|specs| - 1], specs[|specs| - 1];
        KeysAre(before);
        KeysOfIs(last);
        assert forall spec :: spec in specs <==> spec in before || spec in [last] by {
          assert specs == before + [last];
        }
      }
    }

    lemma {:induction false} NoChannelKeys(specs: seq<Builtin>)
      ensures forall k :: k in KeysOfAll(specs) ==> !k.ChannelDone?
    {
      if |specs| > 0 {
        NoChannelKeys(specs[..|specs| - 1]);
      }
    }

    /** One built-in message. */
    method SendBuiltin(spec: Builtin)
      requires Valid()
      modifies this
      ensures Valid() && old(deliveries) <= deliveries && done == old(done) + KeysOf(spec)
    {
      var recipients := ResolveRecipients(people, spec.selectors);
      everyone := everyone + set r | r in recipients;
      if spec.byEmail {
        EmailRecipients(recipients);
      } else {
        FillInboxes(recipients);
      }
    }

    /** The built-in messages of an event, in order: everyone each of them stands for is reached, and nobody else. */
    method SendBuiltins(specs: seq<Builtin>)
      requires Valid()
      modifies this
      ensures Valid() && old(deliveries) <= deliveries && done == old(done) + KeysOfAll(specs)
    {
      for i := 0 to |specs|
        invariant Valid() && old(deliveries) <= deliveries && done == old(done) + KeysOfAll(specs[..i])
      {
        SendBuiltin(specs[i]);
        assert specs[..i + 1][..i] == specs[..i] && specs[..i + 1][i] == specs[i];
      }
      assert specs[..|specs|] == specs;
    }

    /**
     * The rules people added: each enabled channel they name once, in the order they first name it, through its own
     * walk without an `EventSends`.
     */
    method SendRules(rules: seq<string>, channels: map<string, Channel>, service: FanOutService)
      requires Valid() && forall id :: id in channels ==> channels[id].id == id
      modifies this`done, this`deliveries, service
      ensures Valid() && old(deliveries) <= deliveries
      ensures done == old(done) + RuleKeys(rules, channels)
      ensures service.log == ChannelsLog(service.world, RuleChannels(old(done), rules, channels), old(service.log))
    {
      for i := 0 to |rules|
        invariant Valid() && old(deliveries) <= deliveries
        invariant done == old(done) + RuleKeys(rules[..i], channels)
        invariant service.log ==
                    ChannelsLog(service.world, RuleChannels(old(done), rules[..i], channels), old(service.log))
      {
        FollowRule(old(done), old(service.log), rules[..i], rules[i], channels, service);
        assert rules[..i + 1] == rules[..i] + [rules[i]];
      }
      assert rules[..|rules|] == rules;
    }

    /** One rule after those in `earlier`, which began with `done0` and `log0`. */
    method FollowRule(ghost done0: set<Key>, ghost log0: seq<Entry>, ghost earlier: seq<string>, id: string,
                      channels: map<string, Channel>, service: FanOutService)
      requires Valid() && forall id :: id in channels ==> channels[id].id == id
      requires done == done0 + RuleKeys(earlier, channels)
      requires service.log == ChannelsLog(service.world, RuleChannels(done0, earlier, channels), log0)
      modifies this`done, this`deliveries, service
      ensures Valid() && old(deliveries) <= deliveries
      ensures done == done0 + RuleKeys(earlier + [id], channels)
      ensures service.log == ChannelsLog(service.world, RuleChannels(done0, earlier + [id], channels), log0)
    {
      RuleChannelsAdds(done0, earlier, channels, id);
      if id in channels && ChannelDone(id) !in done {
        SendRule(channels[id], service);
      }
    }

    /** One rule's channel, walked from scratch; its outcome is whether any destination was reached. */
    method SendRule(c: Channel, service: FanOutService)
      requires Valid() && ChannelDone(c.id) !in done
      modifies this`done, this`deliveries, service
      ensures Valid() && done == old(done) + {ChannelDone(c.id)}
      ensures service.log ==
                TopWalk(service.world, Destinations(c), ContextOf(c, false), Walk([], {}, old(service.log))).log
      ensures deliveries == old(deliveries) + [ToChannel(c.id, AnySuccess(service.log, |old(service.log)|))]
    {
      var unused := new EventSends();
      var ok := service.DeliverTop(Destinations(c), unused, ContextOf(c, false));
      Deliver(ToChannel(c.id, ok));
    }

    /**
     * A whole org event: everybody its built-in messages stand for, then every enabled channel its rules name, each
     * exactly once; dispatched as soon as one delivery was accepted.
     */
    method NotifyOrg(inOrg: bool, specs: seq<Builtin>, rules: seq<string>, channels: map<string, Channel>,
                     service: FanOutService)
      returns (status: Status)
      requires Valid() && done == {} && deliveries == [] && forall id :: id in channels ==> channels[id].id == id
      modifies this, service
      ensures Valid()
      ensures service.log == if inOrg
                then ChannelsLog(service.world, RuleChannels({}, rules, channels), old(service.log))
                else old(service.log)
      ensures forall address :: EmailTo(address) in done <==> inOrg && IsEmailed(specs, address)
      ensures forall userId :: InboxOf(userId) in done <==> inOrg && IsInboxed(specs, userId)
      ensures forall id :: ChannelDone(id) in done <==> inOrg && id in rules && id in channels
      ensures status == Skipped <==> done == {}
      ensures status == Dispatched <==> exists i :: 0 <= i < |deliveries| && deliveries[i].ok
    {
      if inOrg {
        SendBuiltins(specs);
        NoChannelKeys(specs);
        KeysAre(specs);
        RuleChannelsFresh(done, rules, channels);
        SendRules(rules, channels, service);
      }
      if |deliveries| == 0 {
        return Skipped;
      }
      assert KeyOf(deliveries[0]) in done;
      status := if exists i :: 0 <= i < |deliveries| && deliveries[i].ok then Dispatched else Failed;
    }
  }

  /**
   * Over the rules of an org event an endpoint is posted to exactly as often as the enabled rule channels lead to it,
   * whatever they are and whatever is accepted: at most once exactly when they lead to it at most once.
   */
  lemma RulesPostPerPlace(w: World, rules: seq<string>, channels: map<string, Channel>, names: Channel -> seq<string>,
                          key: string)
    requires forall c :: c in RuleChannels({}, rules, channels) ==> Enumerates(w, c, names(c))
    ensures var cs := RuleChannels({}, rules, channels);
            var log := ChannelsLog(w, cs, []);
            && Posts(log, key) == Mentions(log, key) == PlacesOfAll(w, cs, names, key)
            && (Posts(log, key) <= 1 <==> PlacesOfAll(w, cs, names, key) <= 1)
  {
    PostedPerPlace(w, RuleChannels({}, rules, channels), names, key);
  }

  function OneSlack(id: string, url: string): Channel {
    Channel(id, None, [Slack(Some(url))], [], None, "")
  }

  /** Two rules for two channels with one URL: it is posted to twice. */
  lemma UnguardedPostsAgain(w: World, url: string)
    requires |url| > 0
    ensures var channels := map["a" := OneSlack("a", url), "b" := OneSlack("b", url)];
            var cs := RuleChannels({}, ["a", "b"], channels);
            cs == [channels["a"], channels["b"]] && Posts(ChannelsLog(w, cs, []), "slack|" + url) == 2
  {
    var a, b := OneSlack("a", url), OneSlack("b", url);
    var channels := map["a" := a, "b" := b];
    RuleChannelsAdds({}, [], channels, "a");
    RuleChannelsAdds({}, ["a"], channels, "b");
    assert [] + ["a"] == ["a"] && ["a"] + ["b"] == ["a", "b"];
    assert RuleChannels({}, ["a", "b"], channels) == [a] + [b];
    TwoSlackPosts(w, url);
  }

  /** The same through the rules loop itself. */
  method PostTwice(people: People, world: World, url: string) returns (service: FanOutService)
    requires |url| > 0
    ensures fresh(service) && Posts(service.log, "slack|" + url) == 2
  {
    service := new FanOutService(world);
    var notifier := new OrgNotifier(people, Answers({}, NoLinks, _ => Sent, _ => true));
    UnguardedPostsAgain(world, url);
    notifier.SendRules(["a", "b"], map["a" := OneSlack("a", url), "b" := OneSlack("b", url)], service);
  }

  lemma TwoSlackPosts(w: World, url: string)
    requires |url| > 0
    ensures Posts(ChannelsLog(w, [OneSlack("a", url), OneSlack("b", url)], []), "slack|" + url) == 2
  {
    var a, b := OneSlack("a", url), OneSlack("b", url);
    var names := (c: Channel) => [];
    OneSlackPlaces(w, "a", url);
    OneSlackPlaces(w, "b", url);
    PostedPerPlace(w, [a, b], names, "slack|" + url);
    assert [a, b][..1] == [a] && [a][..0] == [];
    assert PlacesOfAll(w, [a], names, "slack|" + url) == 1;
  }

  lemma OneSlackPlaces(w: World, id: string, url: string)
    requires |url| > 0
    ensures Enumerates(w, OneSlack(id, url), []) && PlacesWith(w, OneSlack(id, url), [], "slack|" + url) == 1
  {
    var c := OneSlack(id, url);
    var d := Slack(Some(url));
    assert "slack" + "|" == "slack|";
    assert Refs(Destinations(c)) == {};
    forall n ensures !Reachable(w, false, Refs(Destinations(c)), {}, n) {}
    assert Leaves([d], ContextOf(c, false)) == [LeafOf(d, ContextOf(c, false))];
    assert Places(w, c, []) == [LeafOf(d, ContextOf(c, false))];
    assert TakeKey(d) == Some("slack|" + url);
    var x := LeafOf(d, ContextOf(c, false));
    assert HasKey("slack|" + url)(x) && [x][1..] == [];
    assert Keep([x], HasKey("slack|" + url)) == [x] + Keep([], HasKey("slack|" + url));
  }
}
