# CliqHub API: verified models of its core algorithms

A Dafny model of the self-contained algorithms of the CliqHub API, with proofs of what they keep. Run
`dafny verify dfyconfig.toml` to check all of it.

## What is modelled

- **Notification fan-out** (`Channels`, `DestinationWalk`, `DestinationReach`, `DestinationOnce`, `EventDelivery`,
  `FanOut`, `EventOutcomes`, `EventAudience`). Channels refer to other channels by name, possibly in cycles. One
  `visited` set is shared by all branches of a walk, one `EventSends` by all the walks of an event. `DestinationWalk`
  gives the walk as a function of that shared state; `FanOut` is the code in its own form, sets and counters updated
  in loops, each method tied to the function. The proofs connect the walk with plain reachability over ref trails,
  with a per-endpoint count of posts, and with who may receive an event. `EventAudience` and `EventOutcomes` say whom
  an event reaches and what becomes of each destination in terms of stored columns, URLs and deliverers' answers
  alone.
- **The cascade** (`EventRouting`, `Cascade`, `EventBus`, `RoutingTerms`, `SubmissionRoutes`, `CausedEvents`,
  `OverlappingCascade`, `NoticeRaces`). Delivery failures and missing channel names submit further events into the
  same fan-out. Every answer the database gives is a parameter that may change with every stored event, so the bound
  on the nesting depth holds for every configuration. `SubmissionRoutes` says what becomes of a submission by its type
  and payload, `CausedEvents` which events follow it. `OverlappingCascade` bounds the depth over every interleaving of
  submissions; `NoticeRaces` splits raising a notice into its two awaits.
- **Org events** (`OrgEvents`, `UnguardedWalk`): recipients, built-in messages, inboxes and rule channels, with one
  `done` set; and what walks without an `EventSends` post.
- **The worker pool** (`InParallel`): a transition system with one step for each piece of code between two awaits, so
  that every interleaving is a run of it; and a class that executes it under any schedule.
- **Idempotent daemon requests** (`InboundDedup`): requests, clock and garbage collection as actions in any order,
  with failing lookups, inserts and deletes.
- **Grants** (`Grants`, `TokenMint`, `GrantTables`): what a grant allows, the two clamps, chains of mints, realm
  tokens, enrolment, and the default grants entity by entity.
- **Versions and lists** (`Sorting`, `SemVer`, `SeedCatalog`, `ListSort`).
- **Strings and settings** (`SearchLike`, `McpSettings`, `MeshSettings`, `AgentUsage`).

`Wrappers`, `Json`, `Text` and `Sequences` hold shared definitions.

## What the proofs found

Where a promise does not hold for all inputs, the model keeps the code and the proof gives the exact condition.

- `clamp_grant_to_grant` allows all that both grants allow if and only if the wanted levels reach no higher than the
  ceiling or list the ceiling's own highest level. The agent default `daemons: ['write']` does not list `read`, so a
  ceiling of `['read']` leaves nothing (`Grants.WriteAloneUnderRead`).
- A stored grant is read with the subject's default filling in every entity it does not name
  (`src/auth/assert_grant.ts`). The clamp drops an entity none of whose wanted levels fits, so a mint can be read as
  more than its ceiling: under `teams: ['read']` a request for `teams: ['write']` stores no `teams`, and a non-admin's
  token is then read with the member default, which writes (`TokenMint.WriteAloneReadsBackWider`). One mint stays
  within its ceiling, as both are read, if and only if on every entity the ceiling names either the default is no more
  than the ceiling or the clamp keeps something (`TokenMint.MintWithinIff`). Requests that list `read` wherever the
  ceiling names a level do (`TokenMint.ReadKeepsSettled`), and chains of such mints never gain anything
  (`TokenMint.EffectiveChainNeverWidens`).
- A realm token lies within its caller's whole grant, as both are read, if and only if the caller's realm domain
  covers the realms and the requested orgs and levels, or else the daemon default's, lie within that grant: minting
  compares realms only (`TokenMint.RealmTokenWithinIff`). A caller whose token names `daemons: ['read']` mints one
  that writes daemons (`TokenMint.RealmTokenAddsLevels`).
- `EnrollGrant.resolve` gives exactly one realm if and only if that realm is not called `*`
  (`TokenMint.EnrollmentNarrows`). It accepts `*` exactly from tokens that may write daemons and hold `*` themselves,
  or have no realm domain (`TokenMint.StarEnrolsIff`); minting stores no `*` on a realm token, and registering a
  daemon checks the token's own domain once more.
- A webhook behind a channel ref goes out without its channel's secret column, because the lookups behind a ref return
  records without it; the column signs a webhook if and only if its channel is walked directly
  (`DestinationReach.ColumnSignsOnlyDirectly`, `DestinationReach.RefLosesColumn`).
- "Raised once per run per name" fails when raises overlap (`NoticeRaces.RaisedTwice`): a run's notice of a name is
  stored at most once if and only if no two raises that store it have both checked before either stores
  (`NoticeRaces.NoticeOnceIff`).
- Over every run of the protocol, repeated daemon deliveries leave the state one execution leaves if and only if
  handlers tolerate a late repeat, and lookups that never fail do not change that
  (`InboundDedup.DuplicatesHarmlessIff`). Idempotent handlers alone are not enough
  (`InboundDedup.IdempotentIsNotEnough` gives the run); idempotent handlers that commute are.
- A replayed response equals the captured one if and only if the captured body is not a JSON string, which is parsed a
  second time (`InboundDedup.ReplayFaithfulIff`); when the string is no JSON text, parsing throws and the request goes
  to the error handler instead of being answered from the cache (`InboundDedup.PlainTextNotReplayed`).
- After the seed's bulk insert the upgrade loop has nothing left to do, because the insert adds the newer version as a
  row of its own (`SeedCatalog.Catalog.Seed`). The comment above the loop says that outdated rows are upgraded.
- The team comparator does not look at names when the locale ties two different scopes. The sorted teams come in scope
  and name order if and only if no two different scopes of the list tie (`AgentUsage.TeamsAreInOrder`), and the
  comparator is consistent on a list if and only if tied scopes have only tied names
  (`AgentUsage.TeamOrderConsistentIff`). Over all strings no `localeCompare` makes it an order
  (`AgentUsage.TeamOrderIsPreorderIff`), since canonically equivalent strings tie.
- Two different teams share a realm key if and only if one's name begins with what the other's scope has more
  (`AgentUsage.TeamKeysMeet`). Team creation refuses names with a slash, so for the teams there are, scopes with
  slashes included, the index is exact (`AgentUsage.RealmsAreExact`).
- Without an `EventSends`, as on the rules of an org event, an endpoint is posted to once for every place the enabled
  rule channels lead to: at most once if and only if they lead to it at most once (`OrgEvents.RulesPostPerPlace`). Two
  rule channels with one URL post to it twice (`OrgEvents.UnguardedPostsAgain`).
- The header of `semver.ts` says that build metadata is accepted and that `sort_desc` sorts in place; the pattern
  refuses build metadata and hyphens inside a tag, and the sort copies. The model follows the code.

## Model

| member | source | states |
|---|---|---|
| Channels.TakeKeyInjective | src/notifications/fan_out.service.ts:529-530 | the text key under which an endpoint is taken tells any two endpoints apart |
| DestinationWalk.WalkDests | src/notifications/fan_out.service.ts:466-548 | the walk ends on every ref graph (measure: names not yet visited, then destinations left) and only adds to the visited, sent and logged state |
| DestinationWalk.WalkTargets | src/notifications/fan_out.service.ts:493-503 | the same for the channels behind one ref name, although `visited` grows inside the recursive calls |
| DestinationWalk.DeliverLeaf | src/notifications/fan_out.service.ts:507-544 | one supported destination never takes anything back from the shared state |
| DestinationReach.TargetsClose | src/notifications/fan_out.service.ts:475-504 | after a branch, every name it added has had all its successors visited, and all refs of the branch are visited |
| DestinationReach.TargetsReach | src/notifications/fan_out.service.ts:475-504 | every name a branch adds lies on a ref trail from that branch which avoids names visited before |
| DestinationReach.WalkAddsExactlyReachable | src/notifications/fan_out.service.ts:466-548 | from any shared state, a walk adds a name if and only if a ref trail leads there without passing a name already visited |
| DestinationReach.FreshWalkVisitsReachable | src/notifications/fan_out.service.ts:466-548 | from an empty set, the visited names are exactly the reachable ones, each once, and closed under successors |
| DestinationReach.WalkAccounts | src/notifications/fan_out.service.ts:466-548 | a destination is handled exactly as often as it occurs in the list itself and behind each added name |
| DestinationReach.FreshWalkHandlesExactly | src/notifications/fan_out.service.ts:466-548 | a supported destination is handled if and only if it is on the list or on an allowed channel behind a reachable name, cycles included |
| DestinationReach.WalkSignsByChannel | src/notifications/fan_out.service.ts:493-526 | what is delivered carries its own channel's id and owner; on the list itself the secret column signs a webhook first, behind a ref at most the secret in its own config |
| DestinationReach.ColumnSignsOnlyDirectly | src/notifications/fan_out.service.ts:493-526 | a channel's secret column, unless the config says the same, signs a webhook if and only if it is on the list walked directly |
| DestinationReach.RefLosesColumn | src/services/notification.service.ts:85-118 | one channel walked directly and through a ref: the ref loses its column |
| DestinationReach.WalkRespectsPeople | src/notifications/fan_out.service.ts:493-503 | through any nesting of refs nothing is handed to a person who may not receive the event or switched it off |
| DestinationOnce.WalkKeepsOnce | src/notifications/fan_out.service.ts:528-545 | a walk keeps, for each endpoint, "posted once if taken, never otherwise; reached if and only if taken" |
| EventDelivery.RealmMembersReplaced | src/notifications/fan_out.service.ts:391-400 | the org placeholder never survives, nothing else is lost, ids stay distinct, the realm's own channel comes in when asked for |
| EventDelivery.SharedFirstOrders | src/notifications/fan_out.service.ts:312 | the channels are rearranged, none lost or doubled, and no shared channel follows a personal one |
| EventDelivery.SharedFirstIsStableSort | src/notifications/fan_out.service.ts:312 | that arrangement is the stable sort by the code's comparator |
| EventDelivery.WithoutInAppKeeps | src/notifications/fan_out.service.ts:430 | of a member's own destinations exactly the in-app ones are left out |
| EventDelivery.EndpointExactlyOnce | src/notifications/fan_out.service.ts:294-355 | over one whole event each endpoint reached is handed to a deliverer exactly once |
| EventDelivery.EventHandlesExactly | src/notifications/fan_out.service.ts:294-355 | over one whole event a destination is handled if and only if a channel, a member their way, or the person layer leads to it |
| EventDelivery.EndpointPostedIff | src/notifications/fan_out.service.ts:294-355 | each Slack or webhook endpoint the event's audience leads to is posted to exactly once, and no other endpoint at all |
| EventDelivery.MembersHandle | src/notifications/fan_out.service.ts:427-434 | members: exactly the destinations behind reachable members' own channels, in-app left out, are added |
| EventDelivery.PeopleHandle | src/notifications/fan_out.service.ts:345-351 | person layer: exactly the destinations behind people who may receive the event and are forced or have not switched it off |
| EventDelivery.EventRespectsPeople | src/notifications/fan_out.service.ts:316-351 | nobody gets what they may not receive; one who switched the event off is reached only when forced, and only in the person layer |
| EventDelivery.StatusMeaning | src/notifications/fan_out.service.ts:300-353 | `failed` if and only if there were channels and every one failed in its turn; `skipped` if and only if there was nobody |
| EventDelivery.RaisedChannels | src/notifications/fan_out.service.ts:339-342 | at most one failure notice per channel of the event, and none about a `notification.failed` event |
| EventOutcomes.EventEntriesTold | src/notifications/fan_out.service.ts:528-545 | over one whole event a destination is skipped if and only if an earlier one is Slack or webhook (or `http`) with the same non-empty URL; every other one is handed over, and accepted if and only if its deliverer accepts it |
| EventOutcomes.EmailAlwaysHandedOver | src/notifications/fan_out.service.ts:528-545 | an email or in-app destination is handed over every time |
| EventOutcomes.RulesSkipNothing | src/notifications/fan_out.service.ts:183-195 | over the rule channels of an org event nothing is skipped, whatever was posted before |
| EventOutcomes.TurnCounts | src/notifications/fan_out.service.ts:314-343 | a channel counts as failed if and only if it had its turn and nothing its turn added was accepted or already sent; a failure notice is due exactly then, unless nothing was configured or the event is one itself |
| EventOutcomes.StatusByLog | src/notifications/fan_out.service.ts:300-353 | `failed` if and only if there were channels and every one had its turn and nothing of it got through; `skipped` if and only if there was no channel and nobody in the person layer |
| EventAudience.EventReachesExactly | src/notifications/fan_out.service.ts:294-548 | from channel ids to handed-out destinations: what is reached, for which channel and person and signed with what, is exactly what stored destinations, members' own other ones, the person layer and trails of refs lead to |
| EventAudience.RulesReachExactly | src/notifications/fan_out.service.ts:183-195 | the same for the rule channels of an org event, where nobody's choice is asked for |
| FanOut.EventSends.Take | src/notifications/deliverers/abstract_channel_deliverer.ts:29-33 | true exactly the first time a key is seen, and the key is remembered |
| FanOut.FanOutService.DeliverLeaf | src/notifications/fan_out.service.ts:507-544 | the code of one destination computes the walk's step, and reports success unless the deliverer threw |
| FanOut.FanOutService.DeliverOne | src/notifications/fan_out.service.ts:475-545 | the loop body computes the walk's step on the shared sets |
| FanOut.FanOutService.DeliverDestinations | src/notifications/fan_out.service.ts:466-548 | the loop over shared mutable sets computes the walk, and returns true if and only if something was accepted or had been sent |
| FanOut.FanOutService.DeliverTargets | src/notifications/fan_out.service.ts:493-503 | the loop over the channels of one ref name computes its walk |
| FanOut.FanOutService.DeliverToMembersTheirWay | src/notifications/fan_out.service.ts:426-436 | the member loop computes the members' steps and reports whether anything was delivered |
| FanOut.FanOutService.DeliverChannel | src/notifications/fan_out.service.ts:314-343 | one turn of the channel loop computes the channel step with its failure count and failure notice |
| FanOut.FanOutService.DeliverPeople | src/notifications/fan_out.service.ts:345-351 | the person-layer loop computes the people's steps |
| FanOut.FanOutService.DeliverForChannelIds | src/notifications/fan_out.service.ts:294-355 | the whole delivery of an event from its channel ids, the org placeholder replaced: status, channels a failure is raised for, and everything handed out |
| FanOut.FanOutService.DeliverFound | src/notifications/fan_out.service.ts:300-354 | the channel loop and then the person layer compute the event, with its status |
| FanOut.FanOutService.DeliverChannels | src/notifications/fan_out.service.ts:314-343 | the channel loop computes the channel steps, failures counted and notices collected |
| EventRouting.PlanMeaning | src/notifications/notify_intent.ts:20-47 | only a literal `false` mutes, only a list naming a channel replaces the rules, by exactly its names; all else leaves the rules |
| EventRouting.ResolveSplitsRefs | src/notifications/fan_out.service.ts:231-257 | every matching channel once, every name that matches nothing once, each ref on exactly one side |
| EventRouting.ResolveRefs | src/notifications/fan_out.service.ts:231-257 | the nested loops compute that resolution |
| Cascade.MessageNamesChannel | src/notifications/unknown_channel.ts:32-34 | the notice's message identifies the missing name |
| Cascade.SubmittedRanksLower | src/notifications/unknown_channel.ts:45-69 | the notices fan-out submits have rank 1 and 0, below the rank of any event that causes them |
| Cascade.FailingChannels | src/notifications/fan_out.service.ts:263-289 | no failure notice is ever due for a `notification.failed` event |
| Cascade.NotifyRealm | src/notifications/fan_out.service.ts:49-85 | a realm fan-out only appends events and nests no deeper than the event's rank |
| Cascade.Submit | src/services/events_service.ts:126-272 | for every configuration and every failure, a submission ends, only appends events, and re-enters fan-out at most its rank, at most 2, levels deep |
| Cascade.SubmitKeepsNotices | src/notifications/unknown_channel.ts:45-69 | a submission that nothing overlaps, with all it causes, stores no second notice of one name for one run |
| Cascade.OneNoticePerRunAndName | src/notifications/unknown_channel.ts:45-69 | over any sequence of client submissions one after another, with or without target channels, each run hears of each missing name at most once |
| SubmissionRoutes.NotStored | src/services/events_service.ts:161-214 | a refused event reports nothing, a merged report `skipped`; neither is stored or delivered |
| SubmissionRoutes.MutedIsStoredOnly | src/notifications/router.ts:16-39 | a realm event whose payload mutes it, or without a realm, stores only itself and reports `skipped` |
| RoutingTerms.RefsResolve | src/notifications/fan_out.service.ts:231-257 | resolving a list of names gives each channel some name stands for once, and each name that stands for none once |
| RoutingTerms.MatchesAre | src/notifications/fan_out.service.ts:231-257 | which channels one name stands for: those called so, or else those called what follows its first colon |
| SubmissionRoutes.NamedGoesToNamed | src/notifications/router.ts:16-39 | run, phase, hug, daemon, realm and custom events, and the two system notices, that list a written name go to exactly the channels listed, after a notice for each name nobody answers to, with that delivery's status, or `failed` when no name stands for a channel |
| SubmissionRoutes.CoveredGoesToRunChannels | src/notifications/fan_out.service.ts:212-225 | the five run-end types go to the channels chosen for the run when the payload decides nothing |
| SubmissionRoutes.RealmRulesDecide | src/notifications/fan_out.service.ts:72-85 | any other realm event, one with an empty list included, goes to what the rules say |
| SubmissionRoutes.AccountRulesDecide | src/notifications/fan_out.service.ts:92-102 | team and auth events, and tests and failures without a realm, go to what the account's rules say whatever the payload does, and nowhere without any |
| SubmissionRoutes.NoRouteFails | src/services/events_service.ts:245-254 | any other type stores only itself and reports `failed` |
| SubmissionRoutes.CasesAreAll | src/notifications/router.ts:16-39 | no type goes both ways, and the payload cases cover every event |
| SubmissionRoutes.TargetsBesides | src/services/events_service.ts:256-270 | targeted channels get the event besides, and their status is reported where routing reached nobody |
| CausedEvents.FailureCausesNothing | src/notifications/fan_out.service.ts:263-289 | a failure notice causes no further event |
| CausedEvents.FailuresInOrder | src/notifications/fan_out.service.ts:263-289 | one failure per failing channel, of the event's realm and no run, in order, where nothing is refused |
| CausedEvents.NoticesStored | src/notifications/unknown_channel.ts:45-69 | each missing name has its notice afterwards, one the run already had or a new one, where nothing is refused |
| CausedEvents.SubmitCausesOnly | src/services/events_service.ts:126-272 | a stored event is followed only by its own notices and failures and the failures of those notices, all of its realm |
| OverlappingCascade.NeverDeeperThanTwo | src/notifications/fan_out.service.ts:263-289 | over every interleaving of submissions, notices not awaited included: what fan-out submits ranks below its cause, and nothing nests more than two levels deep |
| NoticeRaces.RunKeepsInv | src/notifications/unknown_channel.ts:45-69 | over every interleaving of checks and stores: every notice is one raise's, and none was there when that raise checked |
| NoticeRaces.CheckPassesIff | src/notifications/unknown_channel.ts:48-51 | on a run a raise goes on if and only if its check succeeds and finds no notice of the name; checking stores nothing |
| NoticeRaces.StoreAdds | src/notifications/unknown_channel.ts:52-64 | a store that takes effect adds the raise's own notice, in its realm and run; one that does not ends the raise |
| NoticeRaces.EndedStaysEnded | src/notifications/unknown_channel.ts:45-69 | a raise that has ended never stores anything |
| NoticeRaces.NoticeOnceIff | src/notifications/unknown_channel.ts:45-69 | a run's notice of a name is stored at most once if and only if no two raises that store it both check before either stores |
| NoticeRaces.RaisedTwice | src/notifications/unknown_channel.ts:45-69 | two raises that both check first store it twice |
| EventBus.EventStore.SubmitEvent | src/services/events_service.ts:126-272 | the appending, re-entrant code computes that cascade, nests at most two levels, and reports the dispatch status of routing or else of the targeted channels |
| EventBus.EventStore.NotifyRealmOf | src/notifications/fan_out.service.ts:49-85 | mute, refs or rules: the realm path on the event store, with its status |
| EventBus.EventStore.RaiseUnknownChannels | src/notifications/fan_out.service.ts:61-68 | one submission per missing name the run has not heard of |
| EventBus.EventStore.Deliver | src/notifications/fan_out.service.ts:339-342 | one `notification.failed` per failing channel, and the status of the delivery |
| OrgEvents.ResolveRecipients | src/notifications/recipients.ts:96-108 | the loops compute the first occurrence, by lower-cased address, of all selectors' people in order |
| OrgEvents.RecipientsOnce | src/notifications/recipients.ts:96-108 | no address twice, however written; nobody no selector stands for; everybody some selector stands for |
| OrgEvents.RecipientsAreFirsts | src/notifications/recipients.ts:96-108 | the result is exactly the first person of each address, in selector order |
| OrgEvents.OrgNotifier.Deliver | src/notifications/fan_out.service.ts:149-195 | one delivery keeps "each address, inbox and rule channel at most once; done means delivered; each outcome is what the mailer, the links and the inbox answered" |
| OrgEvents.OrgNotifier.EmailRecipients | src/notifications/fan_out.service.ts:157-165 | every recipient's address has an outcome, none twice: sent if and only if the mailer sends it and its links, if theirs, could be made; links reported for their recipient alone |
| OrgEvents.OrgNotifier.FillInboxes | src/notifications/fan_out.service.ts:166-179 | exactly the recipients with an active account, each inbox once |
| OrgEvents.OrgNotifier.SendBuiltins | src/notifications/fan_out.service.ts:152-180 | the built-in messages reach exactly everyone they stand for |
| OrgEvents.OrgNotifier.SendRule | src/notifications/fan_out.service.ts:192-194 | a rule's channel is walked from scratch without an `EventSends`; its outcome is whether anything was reached |
| OrgEvents.OrgNotifier.SendRules | src/notifications/fan_out.service.ts:183-195 | exactly the enabled channels the rules name, each once, in the order first named; everything they hand out |
| OrgEvents.OrgNotifier.NotifyOrg | src/notifications/fan_out.service.ts:131-199 | the whole org event: an address is written to, an inbox filled and a rule channel walked, each once, if and only if a message or rule is for it; dispatched if and only if one delivery was accepted |
| OrgEvents.UnguardedPostsAgain | src/notifications/fan_out.service.ts:183-195 | two rules for two channels with one URL post to it twice |
| OrgEvents.PostTwice | src/notifications/fan_out.service.ts:183-195 | the same input through the rules loop |
| OrgEvents.RuleChannelsOnce | src/notifications/fan_out.service.ts:184-191 | the channels walked are exactly the enabled ones the rules name, none twice |
| OrgEvents.RuleChannelsInOrder | src/notifications/fan_out.service.ts:184-191 | they come in the order the rules first name them |
| UnguardedWalk.WalkPosts | src/notifications/fan_out.service.ts:528-545 | a walk without an `EventSends` posts every endpoint as often as it handles it |
| UnguardedWalk.WalkMentions | src/notifications/fan_out.service.ts:466-548 | a channel walked from scratch handles an endpoint once per place it leads to, counted over any listing of its reachable names |
| UnguardedWalk.PostedPerPlace | src/notifications/fan_out.service.ts:188-195 | over any channels one after another, posts equal places; at most once if and only if at most one place |
| OrgEvents.RulesPostPerPlace | src/notifications/fan_out.service.ts:183-195 | over the rules of an event an endpoint is posted to exactly as often as the enabled rule channels lead to it |
| InParallel.RunKeepsInv | src/lib/in_parallel.ts:10-25 | in every reachable state items below `next` are each awaited by one worker or settled once, `failed` is the first error, no worker left early |
| InParallel.AtMostLimitRunning | src/lib/in_parallel.ts:23 | at every moment of every run at most `min(limit, n)` items are running, none with a limit of zero or less |
| InParallel.LimitIsReached | src/lib/in_parallel.ts:23 | for every `n` and `limit` some run has exactly `min(limit, n)` items running at once |
| InParallel.StartedPartition | src/lib/in_parallel.ts:14-20 | no item starts twice; the started items are those below `next`, each running or settled exactly once |
| InParallel.NothingStartsAfterFailure | src/lib/in_parallel.ts:14-20 | after a failure nothing starts and the kept error never changes |
| InParallel.EndResult | src/lib/in_parallel.ts:23-24 | when all workers have returned, every started item has settled, and all n ran once or the result is the first error in time |
| InParallel.AllRunUnlessNoWorker | src/lib/in_parallel.ts:23 | without an error everything ran if and only if there was a worker or nothing to do |
| InParallel.NeverStuckNeverForever | src/lib/in_parallel.ts:13-23 | no schedule runs forever, and a state can stop only when every worker has returned |
| InParallel.WorkerPool.Segment | src/lib/in_parallel.ts:13-22 | what a worker does between two awaits is a settle followed by a take or a return |
| InParallel.WorkerPool.Run | src/lib/in_parallel.ts:10-25 | under any schedule the pool ends with the first error, or with every item run once when it has a worker |
| InboundDedup.RowStays | src/middleware/inbound_dedup.ts:167-189 | over every interleaving a recorded row neither changes nor disappears while the clock is within seven days of it |
| InboundDedup.HitReplaysRow | src/middleware/inbound_dedup.ts:67-78 | a lookup that succeeds in that window answers with that row, and the handler does not run |
| InboundDedup.ReplayFaithfulIff | src/middleware/inbound_dedup.ts:70-76 | given that no JSON text denotes itself as a string, what is replayed is what was captured if and only if the body is not a string |
| InboundDedup.ReplayOfPlainTextThrows | src/middleware/inbound_dedup.ts:70-76 | a stored string that is no JSON text is not replayed: the request ends by the error path and its handler does not run |
| InboundDedup.PlainTextNotReplayed | src/middleware/inbound_dedup.ts:52-90 | the run from boot: a plain string is recorded, and the second delivery neither replays it nor runs the handler |
| InboundDedup.BootRowStays | src/middleware/inbound_dedup.ts:52-90 | from boot, over every run, a recorded row holds a handler's answer and stays as it is through its window |
| InboundDedup.AnswerKeptSevenDays | src/middleware/inbound_dedup.ts:167-189 | from boot, over every interleaving: an answer stamped at clock `t` and inserted where there was none is in the table as long as the clock is at most `t` + 604800000 |
| InboundDedup.AnswerReplayedSevenDays | src/middleware/inbound_dedup.ts:52-90 | until then a lookup that succeeds ends its request without the handler and gives that answer again, or what its string reads as, with the recorded status |
| InboundDedup.AnswerForgottenAfterwards | src/middleware/inbound_dedup.ts:227-239 | a collection begun any later than that takes it away |
| InboundDedup.RowsAreAnswers | src/middleware/inbound_dedup.ts:80-87 | over every run a row holds only a response that a handler of that transaction sent |
| InboundDedup.ErroredNeverRecorded | src/middleware/inbound_dedup.ts:83-84 | a handler that left by an error first counts as run and never records anything |
| InboundDedup.NoRerunInWindow | src/middleware/inbound_dedup.ts:66-78 | once a row is there and earlier misses are through, the handler does not run again in the window when lookups succeed |
| InboundDedup.DuplicatesHarmlessIff | src/middleware/inbound_dedup.ts:10-12 | over every run from boot, repeated executions leave what one execution leaves if and only if a late repeat changes nothing; the same over the runs without failing lookups |
| InboundDedup.EveryHistoryHappens | src/middleware/inbound_dedup.ts:52-90 | every history of executions is that of some run from boot in which no lookup fails |
| InboundDedup.IdempotentIsNotEnough | src/middleware/inbound_dedup.ts:10-12 | a run from boot without failing lookups in which idempotent handlers do not end as one execution each |
| InboundDedup.IdempotentAndCommuting | src/middleware/inbound_dedup.ts:10-12 | with idempotent handlers that commute a late repeat changes nothing |
| InboundDedup.CommutingIsHarmless | src/middleware/inbound_dedup.ts:10-12 | so over every run they end as one execution each |
| InboundDedup.CaptureResponse | src/middleware/inbound_dedup.ts:104-144 | the first of `res.json`, `next` and rejection decides what is captured |
| InboundDedup.DedupStore.Record | src/middleware/inbound_dedup.ts:167-189 | insert-if-absent, best effort |
| InboundDedup.DedupStore.RunGc | src/middleware/inbound_dedup.ts:227-239 | exactly the rows older than seven days go, best effort |
| InboundDedup.DedupStore.HandleDedup | src/middleware/inbound_dedup.ts:52-90 | a request on its own ends as the five protocol steps leave it; a missing transaction id touches nothing |
| Grants.HasAccessByRank | src/auth/grants.ts:181-186 | access to an entity depends on its highest level alone |
| Grants.ClampDomainIsIntersection | src/auth/grants.ts:237-245 | on domains the clamp is exactly intersection for every mix of absent, list, list with `*`, and `*` |
| Grants.ClampAccessBounded | src/auth/grants.ts:247-252 | the clamp never allows more than either grant |
| Grants.ClampAccessExactIff | src/auth/grants.ts:247-252 | it allows all that both allow if and only if the wanted levels meet the ceiling |
| Grants.DownwardClosedMeetsAnyCeiling | src/auth/grants.ts:69-90 | levels that list the lower ones too, as most defaults do, meet every ceiling |
| Grants.WriteAloneUnderRead | src/auth/grants.ts:111-127 | `daemons: ['write']` under a `read` ceiling loses reading |
| Grants.ClampTwice | src/auth/grants.ts:236-261 | clamping twice to one ceiling equals clamping once |
| Grants.ClampWithinCeiling | src/auth/grants.ts:236-261 | the result lies within the ceiling and within the wanted grant |
| Grants.ClampAccessLoop | src/auth/grants.ts:247-252 | the loop over entities computes the access clamp, in any order |
| Grants.ClampListExact | src/auth/grants.ts:214-221 | the clamp to a subject keeps what is wanted and the subject's; a star inside a list is lost |
| TokenMint.NormalizeReadsBackIff | src/auth/grants.ts:138-179 | a stored grant keeps its domains when read back, and is read back as it is if and only if it names every entity of the fallback |
| TokenMint.ChainNeverWidens | src/controllers/tokens_controller.ts:75-84 | along any chain of mints the last token's stored lists allow nothing the first's did not |
| TokenMint.MintedStaysWithinSubject | src/controllers/tokens_controller.ts:75-84 | a non-admin's token names only their own orgs and realms |
| TokenMint.ChainStaysWithinSubject | src/controllers/tokens_controller.ts:75-84 | both at once along a chain, for grants as stored |
| TokenMint.MintWithinIff | src/auth/assert_grant.ts:19-46 | as tokens are read, a mint allows nothing its ceiling does not if and only if on every entity the clamp keeps something or the default is no more than the ceiling |
| TokenMint.WriteAloneReadsBackWider | src/auth/assert_grant.ts:36-46 | under `teams: ['read']` a request for `teams: ['write']` is read as writing teams |
| TokenMint.ReadKeepsSettled | src/auth/grants.ts:247-252 | requests that list `read` wherever the ceiling names a level meet that condition |
| TokenMint.EffectiveChainNeverWidens | src/auth/assert_grant.ts:19-46 | along a chain whose mints all meet it, the last token as read allows nothing the first as read did not |
| TokenMint.EffectiveStaysWithinSubject | src/auth/assert_grant.ts:36-46 | reading adds no org and no realm to a non-admin's minted token |
| TokenMint.MintIsStableUnderCeiling | src/controllers/tokens_controller.ts:75-84 | a minted grant is unchanged by the ceiling it was minted under |
| TokenMint.ResolveRealmIds | src/controllers/tokens_controller.ts:86-115 | which realms a realm token is minted for, and exactly when each refusal is given |
| TokenMint.RealmTokenCovers | src/controllers/tokens_controller.ts:160-166 | exactly the requested realms, all the caller's own, and within the caller's realm domain if and only if there is one |
| TokenMint.RealmTokenWithinIff | src/controllers/tokens_controller.ts:160-166 | as both tokens are read, within the caller's whole grant if and only if its realm domain covers the realms and the requested orgs and levels, or the daemon default's, lie within it |
| TokenMint.RealmTokenAddsLevels | src/controllers/tokens_controller.ts:160-166 | a caller whose token names `daemons: ['read']` mints one that writes daemons |
| TokenMint.EnrollmentNarrows | src/lib/enroll_grant.ts:31-60 | the result covers exactly its one realm if and only if that is not `*`, and all realms if it is; never more than the token's grant; keeps `daemons:write` |
| TokenMint.StarEnrols | src/lib/enroll_grant.ts:31-60 | a token that holds `*` resolves to the realm `*`, and the result holds `*` again |
| TokenMint.StarEnrolsIff | src/lib/enroll_grant.ts:31-60 | which tokens resolving accepts `*` from |
| TokenMint.EnrollmentIsStable | src/lib/enroll_grant.ts:31-60 | enrolling again with the result gives the result |
| GrantTables.MemberDefault | src/auth/grants.ts:77-106 | a member's default, minted or standing in: reads all seventeen entities, writes all but users and reports, administers none, in the member's own orgs (and realms, when minted) |
| GrantTables.AdminDefault | src/auth/grants.ts:69-100 | an admin's default allows everything on all seventeen, everywhere |
| GrantTables.DaemonDefault | src/auth/grants.ts:109-127 | the daemon default: daemons, dispatch and runs up to writing, its own realms, no org |
| GrantTables.AdminOnlyWhenAskedFor | src/auth/grants.ts:138-179 | a member's new token administers an entity if and only if the request lists `admin` for it or says `full`, `admin` or `*` in the old way |
| GrantTables.AdminUnderCaller | src/controllers/tokens_controller.ts:75-84 | under a caller's grant it never does what the caller's stored lists do not |
| GrantTables.MemberDomainsAre | src/auth/grants.ts:204-229 | a member's new token holds in exactly those of their own orgs and realms that the request is about |
| GrantTables.EnrollmentOutcomes | src/lib/enroll_grant.ts:31-60 | the requested realm goes before the token's own, and each refusal is given exactly when its reason holds |
| Sorting.StableSortUnique | src/lib/semver.ts:82-84 | only one list is in order, holds the given rows and keeps ties in order, so the engine's sort is the one modelled |
| Sorting.SortResultUnique | src/lib/agent_workflow.ts:241-243 | with a comparator consistent on the list at hand, a sort call has one possible result, the stable sort |
| Sorting.StrictUnique | src/lib/list_sort.ts:53-62 | two strictly ordered lists of the same elements are one list |
| SemVer.ParseIff | src/lib/semver.ts:21-41 | a version parses, and to these decimal values and this tag, if and only if its trimmed text has the pattern's shape |
| SemVer.CompareAntisymmetric | src/lib/semver.ts:48-63 | swapping the arguments swaps the sign; zero means the same parsed value, or both unparseable |
| SemVer.CompareTransitive | src/lib/semver.ts:48-63 | order and ties carry over |
| SemVer.CompareIsTotalPreorder | src/lib/semver.ts:48-63 | the comparison is a total preorder with what does not parse as one class at the bottom |
| SemVer.CompareDecides | src/lib/semver.ts:48-63 | major, minor and patch decide in this order as numbers, then a release comes after its prereleases, and two tags go by their texts |
| SemVer.NumberIsDecimal | src/lib/semver.ts:35-37 | a numeral counts each digit times the power of ten of its place |
| SemVer.LongerIsLarger | src/lib/semver.ts:35-37 | a longer numeral without leading zeros is the larger |
| Text.TrimIs | src/lib/semver.ts:32 | trimming takes white space away at both ends and leaves none there |
| Text.TextLessIff | src/lib/semver.ts:62 | of two texts the less is the one the other begins with, or the one with the smaller character where they first differ |
| SemVer.Max | src/lib/semver.ts:69-76 | null if and only if nothing parses, else the first listed of the versions at least as high as all that parse |
| SemVer.SortDescCorrect | src/lib/semver.ts:82-84 | the rows themselves, highest first, ties in place, and the only list like that |
| SemVer.HeadIsMax | src/lib/semver.ts:69-84 | the head of the sorted list ties with the maximum |
| SeedCatalog.CompareTuples | src/lib/seed.ts:69-80 | the index loop decides "larger at the first place where the zero-padded tuples differ" |
| SeedCatalog.AboveTrichotomy | src/lib/seed.ts:69-80 | exactly one of newer, older, equal when padded |
| SeedCatalog.NotNewerTransitive | src/lib/seed.ts:69-80 | "not newer" chains: the comparison is a strict weak order |
| SeedCatalog.NewerAgreesWithCompare | src/lib/seed.ts:61-80 | on plain `x.y.z` versions it agrees with the semantic comparison |
| SeedCatalog.SplitIs | src/lib/seed.ts:63 | a version is split at every dot, plus and hyphen and nowhere else |
| SeedCatalog.LeadingNumberIs | src/lib/seed.ts:63-66 | a part counts as what its leading digits write, and as zero without any |
| SeedCatalog.UpgradeKeeps | src/lib/seed.ts:311-324 | overwriting a name's newest row with a newer version creates no duplicate key and lowers nothing |
| SeedCatalog.Catalog.Newest | src/lib/seed.ts:314 | the `reduce` finds a row that no row of the name is newer than |
| SeedCatalog.Catalog.InsertOne | src/lib/seed.ts:302-304 | a built-in is appended or its key was there; keys stay unique |
| SeedCatalog.Catalog.InsertMissing | src/lib/seed.ts:302-304 | existing rows stay, keys stay unique, every built-in is reached |
| SeedCatalog.Catalog.UpgradeOne | src/lib/seed.ts:311-324 | one turn of the loop: what may change, and that nothing does when up to date |
| SeedCatalog.Catalog.UpgradeOutdated | src/lib/seed.ts:311-324 | from any catalog: keys stay unique, nothing is lowered, all built-ins end up to date, and a second run changes nothing |
| SeedCatalog.Catalog.Seed | src/lib/seed.ts:302-324 | insert then upgrade: no stored row changes at all |
| ListSort.ListOrderIsStrictTotal | src/lib/list_sort.ts:53-62 | for any columns, direction and fallback the order is strict and total on different ids |
| ListSort.NullsComeLast | src/lib/list_sort.ts:39-41 | with NULLS LAST a missing value never comes first, in either direction |
| ListSort.AskedColumnDecides | src/lib/list_sort.ts:53-62 | asked for a column, ascending puts the smaller value first and descending the larger; equal values leave it to the id |
| ListSort.AskedColumnMissing | src/lib/list_sort.ts:39-62 | a missing value comes last, except on a descending column without NULLS LAST, where it comes first |
| ListSort.UnknownKeyFallsBack | src/lib/list_sort.ts:53-62 | without a known key the fallback decides, whatever the direction |
| ListSort.FirstTellingDecides | src/lib/list_sort.ts:53-62 | the first item that tells two rows apart decides |
| ListSort.ExactMatchFirst | src/lib/list_sort.ts:72-74 | an exact match comes before everything else |
| ListSort.SortsAgree | src/lib/list_sort.ts:53-62 | any two correct sorts of the same rows are the same sequence |
| ListSort.PagesNeitherSkipNorRepeat | src/lib/list_sort.ts:53-62 | pages cut from separately sorted requests over an unchanged table join into the whole list, without gap or repeat |
| ListSort.SortIsCorrect | src/lib/list_sort.ts:53-62 | such a sort exists for every table with unique ids |
| SearchLike.EscapedMatchesOnlyItself | src/lib/search.ts:5-8 | any input, escaped, is a valid pattern that matches itself and nothing else |
| SearchLike.EscapedFindsSubstring | src/lib/search.ts:5-8 | between percent signs it matches exactly the texts that contain the input |
| McpSettings.MatchFrontIff | src/lib/mcp_settings.ts:22 | the pattern tried at the front finds a name if and only if `${name}` stands there |
| McpSettings.ScanFindsAll | src/lib/mcp_settings.ts:113-124 | skipping past each match, the scan finds a name if and only if `${name}` occurs anywhere |
| McpSettings.ScanInto | src/lib/mcp_settings.ts:121 | the `matchAll` loop adds exactly the scanned names |
| McpSettings.SortedSameMembers | src/lib/mcp_settings.ts:123 | the sorted list of a set of names is unique |
| McpSettings.ServerTextsWrite | src/lib/mcp_settings.ts:118-121 | a placeholder is looked for in a server's url, command, args, header values and environment values, and in nothing else |
| McpSettings.McpPlaceholders | src/lib/mcp_settings.ts:113-124 | strictly sorted; a well-formed name is there if and only if `${name}` stands in a url, command, argument, header value or environment value of some server |
| McpSettings.DescribedByLast | src/lib/mcp_settings.ts:140-141 | a secret is described by the last preset that describes it |
| McpSettings.McpKeysAre | src/lib/mcp_settings.ts:43-57 | the keys accepted are `mcp.servers` and `mcp.secrets.` with a well-formed name, and only with a transport listed |
| McpSettings.DescriptionIs | src/lib/mcp_settings.ts:140-147 | a secret's description: the last preset's that has one, or else the standing phrase |
| McpSettings.McpSettingDefs | src/lib/mcp_settings.ts:134-151 | with a transport listed: `mcp.servers` is optional, and the required secrets are exactly `mcp.secrets.NAME` for each name used, described as above, in the order of their keys |
| MeshSettings.MaskSettings | src/mesh/settings_util.ts:6-24 | the loop computes the masked copy |
| MeshSettings.MergePatch | src/mesh/settings_util.ts:26-46 | the loop computes the merge in any order; an unknown provider is refused |
| MeshSettings.MaskHidesSecrets | src/mesh/settings_util.ts:6-24 | no secret shows: it is the mask, empty, or `true` as another secret's flag; any other setting is as it was, or `true` as a secret's flag |
| MeshSettings.MaskShowsSecret | src/mesh/settings_util.ts:17-22 | a stored secret with a text is shown as the mask with its `_set` key true; an empty or null one as it is |
| MeshSettings.MaskMergeRoundTrip | src/mesh/settings_util.ts:6-46 | sending the masked copy back unedited changes nothing, whatever is stored |
| MeshSettings.MergesKeyByKey | src/mesh/settings_util.ts:36-43 | key by key: a key ending in `_set` and a secret sent as mask, empty or null are passed over; any other value, empty and null included, is stored |
| MeshSettings.EditsMergeExactly | src/mesh/settings_util.ts:6-46 | editing the masked copy to values that are taken changes exactly those keys |
| MeshSettings.EditComesThroughIff | src/mesh/settings_util.ts:26-46 | an edit comes through if and only if it is taken or repeats the stored value |
| AgentUsage.ParseRefIff | src/lib/agent_workflow.ts:140-149 | a ref splits into a pair if and only if it is `name@version`, both non-empty, no `@` in the version |
| AgentUsage.ParseRefWhole | src/lib/agent_workflow.ts:140-149 | anything else keeps its whole text as the name |
| AgentUsage.ExtractAgents | src/lib/agent_workflow.ts:57-77 | every ref of phases and support once, in order, team phases left out |
| AgentUsage.AgentsAre | src/lib/agent_workflow.ts:57-77 | the refs are the trimmed, non-empty agents of phases and support entries whose type is not `team`, each once |
| AgentUsage.PhasesComeFirst | src/lib/agent_workflow.ts:63 | those of the phases come before those of the support alone |
| AgentUsage.GroupVersions | src/lib/agent_workflow.ts:223-227 | the versions map agrees with filtering by team |
| AgentUsage.IndexRealms | src/lib/agent_workflow.ts:230-237 | the realm map agrees with scanning all realms' lists |
| AgentUsage.BuildUsage | src/lib/agent_workflow.ts:216-268 | for every agent the map holds exactly the naive answer over the sorted teams, and a key if and only if that is not empty |
| AgentUsage.UsageIs | src/lib/agent_workflow.ts:244-265 | an agent has an entry for a team if and only if the team's first version with the text `latest` picks among its texts names the agent |
| AgentUsage.TeamOrderIsPreorderIff | src/lib/agent_workflow.ts:241-243 | over all teams at once the comparator is an order if and only if the locale ties only equal strings, or all |
| AgentUsage.TeamsAreInOrder | src/lib/agent_workflow.ts:241-243 | for any locale, the sorted teams come scope by scope and by name within a scope if and only if no two different scopes of the list tie; the result is the stable sort when the names are settled |
| AgentUsage.TeamOrderConsistentIff | src/lib/agent_workflow.ts:241-243 | the comparator is consistent on a list if and only if different scopes that tie have only names that tie |
| AgentUsage.TeamKeyInjective | src/lib/agent_workflow.ts:233-253 | the joined key tells teams apart when names hold no slash, whatever the scopes hold |
| AgentUsage.TeamKeysMeet | src/lib/agent_workflow.ts:233-253 | for all scopes and names, which different teams share a key |
| AgentUsage.RealmsAreExactIff | src/lib/agent_workflow.ts:230-253 | for all scopes and names, the listing is exact if and only if every realm with a confused entry lists the team too |
| AgentUsage.RealmsAreExact | src/lib/agent_workflow.ts:230-253 | with slash-free names an entry names exactly the realms that list the team |
| AgentUsage.SlashConfusesTeams | src/lib/agent_workflow.ts:233-253 | with a name that holds a slash, which team creation refuses, a realm is reported for a team it does not list |

## Left out

- FanOut.FanOutService.DeliverForChannelIds: channel lookup, `may_receive` and `person_off` are fixed for one event; a realm id inside the event's own payload cannot change what refs resolve to halfway.
- FanOut.FanOutService.DeliverLeaf: what a deliverer does is one bit, accepted or thrown; the deliverers' own de-duplication of emails and in-app notices is not part of this model, so the once-only results are about Slack and webhook URLs.
- Cascade.Submit: submissions run one after another, while the code does not await `notification.failed`; for overlapping ones the depth bound is `OverlappingCascade.NeverDeeperThanTwo`, and what else they do to each other is not modelled.
- Cascade.SubmitKeepsNotices: the check for an earlier notice and its storing are one step; `NoticeRaces.NoticeOnceIff` has them apart.
- Cascade.OneNoticePerRunAndName: submissions do not overlap; `NoticeRaces.NoticeOnceIff` is the exact condition when they do.
- EventBus.EventStore.SubmitEvent: an event's title, severity and ids are not modelled, nor the channel's name in a failure's message; merging a second report of a run's start or end stores and routes nothing; what it fills into the first row is not modelled, nor are notices raised elsewhere for a phase without a channel. Failure notices are submitted one after another before the call returns.
- OrgEvents.OrgNotifier.NotifyOrg: wording, the content of links, and the invitee's own account org as the place of their inbox row are not modelled; case folding is a parameter.
- InParallel.WorkerPool.Run: an item's own work is opaque and settles at some point; a promise that never settles is not modelled.
- InboundDedup.DedupStore.HandleDedup: a handler runs in one step; starting and stopping the collection timer is not modelled.
- TokenMint.ResolveUserGrant: an `access` word together with `domains`, which spreads into single characters, is not modelled, nor are session tokens whose stored grant is not read.
- SemVer.Max: numbers are exact, while the code's lose precision from 2 to the power 53 on.
- ListSort.PagesNeitherSkipNorRepeat: a column value is its place in the column's own order; collations and SQL generation are not modelled.
- McpSettings.McpPlaceholders: JSON parsing and the validation of a server list (`parse_mcp_servers`); the list comes parsed or refused.
- AgentUsage.BuildUsage: `localeCompare` and the engine's `sort` are parameters; the SQL queries around it and the dispatch check are left out.
- HTTP controllers, schemas, Sequelize models, migrations, crypto, mappers, slugs and ids: plumbing without an invariant of its own.
