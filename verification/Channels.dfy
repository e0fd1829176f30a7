/**
 * Channels, their destinations, and what one event's delivery leaves behind
 * (src/notifications/channel_config.ts, deliverers/abstract_channel_deliverer.ts).
 */
module Channels {
  import opened Wrappers

  /**
   * A destination as stored on a channel. `Unsupported` stands for every `type` without a deliverer (`jira` included).
   */
  datatype Destination =
    | ChannelRef(name: string)
    | Slack(webhookUrl: Option<string>)
    | Webhook(url: Option<string>, secret: Option<string>)
    | Http(url: Option<string>, secret: Option<string>)
    | Email(to: string)
    | CliqHub
    | Unsupported(kind: string)

  /** `owner` is the `user_id` of a personal channel; `rows` are eager-loaded, `legacy` is the JSON column. */
  datatype Channel = Channel(
    id: string,
    owner: Option<string>,
    rows: seq<Destination>,
    legacy: seq<Destination>,
    secret: Option<string>,
    systemKey: string)

  /**
   * A channel as the lookups behind a ref return it (src/services/notification.service.ts:85-118): without its secret
   * column.
   */
  datatype Record = Record(id: string, owner: Option<string>, destinations: seq<Destination>)

  /** A person's own channel as the member and person layers load it. */
  datatype Personal = Personal(user: string, channel: Channel, force: bool)

  /** The channel a list of destinations belongs to; `guarded` tells whether an `EventSends` came along. */
  datatype Context = Context(channelId: string, owner: Option<string>, secret: Option<string>, guarded: bool)

  datatype Outcome = Accepted | Threw | AlreadySent

  /** One supported destination that was reached, and what became of it. */
  datatype Entry = Entry(leaf: Leaf, outcome: Outcome)

  datatype Leaf = Leaf(channelId: string, owner: Option<string>, dest: Destination, secret: Option<string>)

  /**
   * Everything outside the walk, fixed while one event is delivered: what each ref name resolves to, who may
   * receive the event, who switched it off, and whether the k-th destination reached would be accepted.
   */
  datatype World = World(
    targets: map<string, seq<Record>>,
    mayReceive: set<string>,
    personOff: set<string>,
    accepts: nat -> bool)

  /** The mutable state the walk shares: a JavaScript set keeps insertion order, so `visited` is a sequence. */
  datatype Walk = Walk(visited: seq<string>, sent: set<string>, log: seq<Entry>)

  /** Destination rows win over the legacy column when there are any. */
  function Destinations(c: Channel): seq<Destination> {
    if |c.rows| > 0 then c.rows else c.legacy
  }

  predicate Supported(d: Destination) {
    d.Slack? || d.Webhook? || d.Http? || d.Email? || d.CliqHub?
  }

  /** `http` is delivered as `webhook`. */
  function Provider(d: Destination): string {
    match d
    case Slack(_) => "slack"
    case Webhook(_, _) => "webhook"
    case Http(_, _) => "webhook"
    case Email(_) => "email"
    case CliqHub => "cliqhub"
    case ChannelRef(_) => "channel_ref"
    case Unsupported(kind) => kind
  }

  /** The endpoint address of a Slack or webhook destination, when it is a non-empty string. */
  function Url(d: Destination): Option<string> {
    var u := if d.Slack? then d.webhookUrl else if d.Webhook? || d.Http? then d.url else None;
    if u.Some? && |u.value| > 0 then u else None
  }

  function TakeKey(d: Destination): Option<string> {
    match Url(d)
    case None => None
    case Some(u) => Some(Provider(d) + "|" + u)
  }

  /** The text form of the key never confuses two endpoints. */
  lemma TakeKeyInjective(a: Destination, b: Destination)
    requires TakeKey(a).Some?
    ensures TakeKey(a) == TakeKey(b) <==> Provider(a) == Provider(b) && Url(a) == Url(b)
  {
    if TakeKey(a) == TakeKey(b) {
      var ka, kb := TakeKey(a).value, TakeKey(b).value;
      assert ka[0] == Provider(a)[0] && kb[0] == Provider(b)[0];
      assert Provider(a) == Provider(b);
      assert Url(a).value == ka[|Provider(a)| + 1..] == kb[|Provider(b)| + 1..] == Url(b).value;
    }
  }

  function NonEmpty(s: Option<string>): Option<string> {
    if s.Some? && |s.value| > 0 then s else None
  }

  /** The signing secret: the channel's column wins over the one in the destination. */
  function SecretFor(d: Destination, column: Option<string>): Option<string> {
    if !d.Webhook? && !d.Http? then None
    else if NonEmpty(column).Some? then column
    else NonEmpty(d.secret)
  }

  /** A personal channel is reached only when its person may receive the event and has not switched it off. */
  predicate Allowed(w: World, guarded: bool, owner: Option<string>) {
    guarded && owner.Some? ==> owner.value in w.mayReceive && owner.value !in w.personOff
  }

  function ContextOf(c: Channel, guarded: bool): Context {
    Context(c.id, c.owner, c.secret, guarded)
  }

  /** Behind a ref there is no secret column to pass on. */
  function RecordContext(t: Record, guarded: bool): Context {
    Context(t.id, t.owner, None, guarded)
  }
}
