# A model of the frp-cluster control plane

The control plane keeps a replicated state: server nodes, clients, proxies, join tokens and traffic samples.
Several control planes gossip by merging each other's whole state. A scheduler scores nodes, selects them for
clients and recommends migrations. On the client side a process manager runs one frpc process per selected
node and reports exited ones back for exclusion.

The project models this in three layers.

* **Values and functions.** `Cluster` holds the entities, `Steps` one function per local operation
  (`Steps.Apply`), `Replicas.MergeState` the merge, and `Network`, `Preference`, `Migration`, `Counters`, `Tokens`,
  `TrafficLog`, `SampleMerge` and `TrafficReport` their parts. The properties are lemmas about these functions, about runs
  of local steps (`Runs`, `NoFlap`) and about runs of many replicas (`Gossip`; `TokenRuns`, `TokenForks` and `TokenRaises` for one
  join token). `Effects`, `MergeEffects`, `Selections` and `FrpcText` say what single operations leave, entry by entry, and `History`
  and `Settings` what the state says of the steps that led to it.
* **The code's own form.** `ControlStore.Store` is the mutable store; its methods work on map fields step by step, with
  loops over maps in arbitrary order, and each is proved equal to the function of its operation. The same holds
  for the in-place slice algorithms (`Sorting.SortSlice`, `ControlStore.FilterExcludedNodes`), the
  sample merge, the report, the snapshot, the process manager (`Reconciler.FrpcManager`), the settings file and the
  configuration renderer.
* **Text.** Identifiers, URLs, settings files and frpc configurations are strings of Unicode characters, with the
  source's trimming, splitting, quoting and replacing.

Every operation takes the time as a parameter and uses it throughout. Maps are visited in arbitrary order
everywhere, so that order independence is part of each result.

## What the code does not keep

These are properties one might expect of the code and that it does not have; each has its exact condition below.

* Normalising a control URL twice can give something else than normalising it once (`"a /"`), so replicas may spell one URL
  differently at the same `UpdatedAt`. Agreement of single entries is therefore stated up to a canonical spelling. One exchange
  makes two replicas identical exactly when no entry was written differently on both sides at one time and every control URL
  is spelled alike: the spelling that is copied is one that normalisation leaves alone, or both sides have the same one already.
* An older node entry replaces a newer one that lacks a node token; and a local write never looks at the time of what it
  overwrites. In runs with tokens and fresh times every replica always holds the latest write it absorbed, for each entry,
  exactly when no local step overwrites an entry with a later time than its own.
* Two writes to one entry at one time are never reconciled by an exchange.
* A merge hands token uses back when the remote copy has more of them but more users or an earlier expiry. When one replica
  admits all nodes, some run does so exactly when two or more of the joins are by nodes that had joined before. When the nodes
  are pairwise different but join at several replicas, some run does so exactly when the token has three uses and there are
  five joins, two of them outside each single replica. Two repeated joins suffice wherever they happen; one at several
  replicas is left open. Each time one more replica takes part that admits nobody.
* A replica's own URL is removed from its peers and put back by the node loop of the same merge.
* Two local events of one type and time are one event after any merge; so are all the recommendations of one pass. A local event
  is also lost to a later remote one with its identifier, and to the cap of 500 when it is among the oldest.
* A join of an unknown node starts its counters at 0 even if clients already name it.
* While automatic migration is on, a recommendation pass drops manual targets; and it does not clear the time stamp of a
  target that was already cleared by hand.
* `UpdateConfig` sets the migration switch before it refuses a negative gap, so a refused update can cost a client its
  manual target.
* Below 1 Mbps the bandwidth term is 50, better than between 1 and 10 Mbps.
* Proxy identifiers do not separate two pairs of node and client when one joined text goes on with a dash where the other
  ends, or when they are equal.
* A proxy type made of blanks stays empty in a rendered configuration, although an empty one becomes `tcp`.
* Excluding a node by its own identifier works only if that identifier is a sanitized one.
* The process manager starts before it stops only across files: a changed file's own old process is stopped first, and
  when its new one cannot be started nothing runs under that file.

## Model

| member | source | states |
|---|---|---|
| Gossip.StepKeepsInv | internal/control/store.go:331-446 | over local writes with fresh times, sends and deliveries in any order with repetition, every entry of every replica and message is a write it absorbed |
| Gossip.RunKeepsInv | internal/control/store.go:331-446 | that holds in every world of every run that starts empty |
| Gossip.RunAgrees | internal/control/store.go:347-421 | in every run entries with one key and time agree on all replicas, counters aside; as long as no step overwrote a later entry, replicas that absorbed the same writes agree |
| Gossip.RunLatestIff | internal/control/store.go:347-421 | in every run all replicas always hold the latest write they absorbed, key by key, exactly when no local step overwrites an entry with a later time than its own |
| Gossip.StepKeepsLatestIff | internal/control/store.go:347-421 | the same for one step: local, send or delivery |
| Gossip.LocalKeepsLatestIff | internal/control/service.go:415-427 | a local step keeps the latest write of a key exactly when it leaves the key alone or is not earlier than the entry it overwrites |
| Gossip.ExchangeConverges | cmd/frp-cluster/main.go:223-241 | after one undisturbed exchange at any point of any run both sides have equal registers, right counters and identical clients and proxies; identical nodes exactly when the control URLs are spelled alike, as stable ones are |
| Gossip.ExchangeAgreesIff | cmd/frp-cluster/main.go:223-241 | an exchange makes an entry agree exactly when the two sides did not write it differently at one time |
| Gossip.ExchangeEqualisesIff | cmd/frp-cluster/main.go:223-241 | an exchange makes nodes, clients and proxies of two replicas identical, counters included, exactly when there is no such clash and every control URL is spelled alike |
| Gossip.ExchangeUrls | cmd/frp-cluster/main.go:223-241 | a node's URL is the same on both sides exactly when the side with the later or only entry has a stable one, or both had one spelling at one time |
| PeerSync.SyncPeer | cmd/frp-cluster/main.go:223-241 | two store objects after pull, merge, push and merge, also when either request fails: their contents, right counters, and equal maps exactly when they were reconcilable |
| PeerSync.RetryConverges | cmd/frp-cluster/main.go:203-221 | after a pull alone, the next whole exchange leaves the same entries as a first one would have |
| Settings.MergedSettings | internal/control/store.go:343-345 | a merge keeps the migration switch, the gap and the public URL, keeps an authentication token that is there, and takes over the peer's if there is none |
| Settings.StepSettings | internal/control/store.go:294-317 | what every step of every replica does to its settings |
| Settings.RunSettings | internal/control/store.go:294-345 | in every run of many replicas each replica's switch and gap are what its own updates named last, whatever its peers have |
| Settings.TokenStays | internal/control/store.go:343-345 | in every run an authentication token, once set, never changes |
| Settings.TokensSpread | internal/control/store.go:343-345 | in every run each authentication token is one that some replica started with |
| Replicas.MergeIsLater | internal/control/store.go:347-421 | for every node, client and proxy a merge takes the later of the two sides |
| Replicas.OlderNodeWinsIff | internal/control/store.go:359-365 | an older node entry wins exactly when only it has a node token |
| Replicas.StepStamps | internal/control/service.go:96-174 | a local step stamps everything it changes in an entry, counters aside, with its own time, and deletes no entry |
| Replicas.RegistersDetermine | internal/control/service.go:547-571 | states with equal registers, right counters and stable URLs have identical maps |
| Replicas.FirstCopyIff | internal/control/store.go:358-364 | the first copy of a node spells its control URL as the original exactly when that URL is stable |
| MergeEffects.MergedNode | internal/control/store.go:351-365 | every merged node is the local or the taken remote entry; it keeps a local node token that the remote one lacks |
| MergeEffects.TokensStay | internal/control/store.go:359-365 | a merged node has no token exactly when neither side had one |
| MergeEffects.UnnamedEntries | internal/control/store.go:347-421 | entries without an identifier are named by their key, nodes and clients by the sanitized one, or skipped |
| Lww.MergeMaps | internal/control/store.go:347-421 | the merge loop over a map in arbitrary order equals the entry-by-entry merge in the order it took |
| Lww.OrderIrrelevant | internal/control/store.go:347-421 | when no two remote entries are read as one identifier, all orders give the same map |
| Lww.MergeIsJoin | internal/control/store.go:347-421 | for a map stored under its own identifiers the loop is the pointwise join |
| SampleMerge.MergeTrafficSamples | internal/control/traffic.go:154-180 | the loop over both lists, the sort and the truncation return the newest samples of the key-wise latest ones |
| SampleMerge.MergeCommutes | internal/control/traffic.go:154-180 | when samples of one node and time are equal, the merge is commutative despite cutoff and truncation |
| SampleMerge.MergeAssociates | internal/control/traffic.go:154-180 | ... and associative |
| SampleMerge.MergeAbsorbs | internal/control/traffic.go:154-180 | ... and merging again with something already merged changes nothing |
| SampleMerge.TruncationIsHarmless | internal/control/traffic.go:176-178 | a truncated sample stays outranked after any later merge, also under a later cutoff, so truncating early or late is the same |
| SampleMerge.PushedSamples | cmd/frp-cluster/main.go:223-241 | after a pull and a later push the peer's log is one merge of both logs at the later time |
| SampleMerge.SingleMergeCommutesIff | internal/control/traffic.go:161-164 | two samples of one node and time merge in either order alike exactly when they are equal |
| MergeEffects.MergedSamples | internal/control/traffic.go:154-180 | the merged log is in order of time and holds exactly the samples of named nodes of the last seven days that are the latest of their node and second and have fewer than 100000 later ones |
| ControlStore.Store.MergeState | internal/control/store.go:331-446 | the whole merge: entries in any order with malformed remote keys, tokens, samples, events, peers, right counters afterwards; for well-formed remote states the order-free merge |
| ControlStore.Store.MergeEntries | internal/control/store.go:343-421 | configuration, nodes, tokens, clients, proxies and samples after the merge loops |
| ControlStore.Store.MergeRemoteTokens | internal/control/store.go:371-387 | the token loop in any order is the pointwise token merge |
| MergeEffects.MergedTokens | internal/control/store.go:371-387 | which tokens there are after a merge, with which uses, expiry and users |
| ControlStore.MergedIsMerge | internal/control/store.go:347-444 | for a remote state as replicas hold it every visiting order gives the same merged state |
| ControlStore.MergedStaysKeyed | internal/control/store.go:347-421 | whatever the remote maps hold, every merged entry is stored under its own non-empty identifier |
| Events.MergeEvents | internal/control/store.go:423-442 | the merged log is in time order and holds the newest 500 of the events kept per identifier |
| Events.LocalEventsKeptIff | internal/control/store.go:423-442 | with at most 500 events a merge keeps every local event exactly when no two different local ones share an identifier and no remote event with a local non-empty identifier is later |
| Events.CapDropsOldest | internal/control/store.go:439-442 | the merged log has all events kept per identifier, or 500 of them; none that is dropped is later than one that stays |
| Events.MergeCollapsesIff | internal/control/store.go:423-438 | before the cap there are as many events as local ones and new identifiers exactly when the local identifiers differ, and never more |
| Events.ByIdCovers | internal/control/store.go:423-434 | after a merge there is one event for each identifier of either side, remote ones without an identifier aside |
| Events.SharedIdLeavesOne | internal/control/store.go:423-434 | of events that share an identifier a merge leaves at most one |
| ControlStore.AnnouncementsCollapse | internal/control/service.go:766-770 | the announcements of one pass share an identifier, so a merge leaves at most one of them |
| ControlStore.AnnouncementsSay | internal/control/service.go:766-770 | what the announcements of a pass say |
| ControlStore.Store.AddEvent | internal/control/store.go:448-463 | appends and keeps the last 500 |
| Peers.OwnUrlReturnsIff | internal/control/store.go:366-368 | with stable URLs a replica's own URL is a peer after the node loop exactly when a remote node advertises it |
| Peers.ListsDropOwn | internal/control/store.go:338-342 | before the node loop it is not |
| Peers.FromUrlsAdds | internal/control/store.go:366-368 | the node loop adds exactly the stable URLs of the nodes |
| MergeEffects.MergedPeers | internal/control/store.go:338-342 | with stable URLs the peers after the lists are those of both sides, the source and the remote's public URL, without the own one |
| MergeEffects.NodePeer | internal/control/store.go:347-368 | which URL the node loop adds for a remote entry |
| ControlStore.Store.MergePeerLists | internal/control/store.go:338-342 | the peer list after both merges and the removal of the own URL |
| ControlStore.Store.AddNodePeers | internal/control/store.go:366-368 | the peers after the node loop, in the order it took |
| StringLists.MergeLists | internal/control/store.go:531-572 | the sorted list of the distinct non-empty normalised values |
| StringLists.WithoutUrlElements | internal/control/store.go:546-557 | removal leaves the normalised non-empty URLs other than the removed one |
| StringLists.RemoveUrl | internal/control/store.go:546-557 | the loop returns that list, in the old order |
| Text.NormalizeIdempotentIff | internal/control/store.go:523-529 | normalising is idempotent at a URL exactly when its trimmed text has no blank directly before the slashes at its end |
| Text.NormalizeTwiceDiffers | internal/control/store.go:523-529 | a URL for which it is not |
| Text.NormalizeKeepsCanonical | internal/control/store.go:523-529 | normalising never changes the canonical spelling |
| Text.StableIsCanonical | internal/control/store.go:523-529 | stable URLs with one canonical spelling are equal |
| Text.SanitizeFixpoint | internal/control/service.go:816-829 | sanitizing maps onto the sanitized identifiers and leaves exactly these alone |
| Text.SanitizeNonEmpty | internal/control/service.go:816-829 | a text that begins with a sanitized identifier does not sanitize to nothing |
| Text.SanitizeSpells | internal/control/service.go:816-829 | sanitizing spells each character by a table and cuts off punctuation at the ends |
| Text.StrLessSays | internal/control/service.go:704-729 | identifiers are compared character by character, by code |
| Text.ItoaReads | internal/control/store.go:450 | a rendered number can be read back |
| Network.ScoreRange | internal/control/service.go:644-702 | scores lie in 21..100, unmeasured is 50, a stale measurement at most 40 |
| Network.ScoreFadesWithTime | internal/control/service.go:690-694 | scores never rise as time passes |
| Network.ScoreBySteps | internal/control/service.go:644-702 | the score of every measurement by the two tables of steps, weighted 45 to 55, and the cap for stale ones |
| Network.RefreshedBandwidth | internal/control/service.go:613-642 | a refresh fills in the given bandwidth, or that of the slower of two measured directions, or else the largest measured value, and changes no other measurement |
| Network.FasterDirectionIsFree | internal/control/service.go:631-642 | making only the faster of two measured directions faster changes neither the bandwidth nor the score |
| Network.ScoreMonotone | internal/control/service.go:644-702 | fresh scores grow with the bandwidth from 1 Mbps up and fall with a positive latency |
| Network.SlowLinkWinsIff | internal/control/service.go:666-687 | a link below 1 Mbps has the better bandwidth term exactly against links from 1 up to 10 Mbps |
| Network.SlowerScoresHigherIff | internal/control/service.go:644-702 | of two equally fresh links with equal latency, exactly when the slower one has the better score |
| Network.RefreshIdempotent | internal/control/service.go:613-620 | refreshing twice at one time is refreshing once and gives the score of the measurement |
| Network.HeartbeatIsRefreshed | internal/control/service.go:573-611 | a measured heartbeat is fresh unless it carries an old time, and refreshing it at once leaves it alone |
| Network.HeartbeatMeasures | internal/control/service.go:573-611 | which values a heartbeat measures, nested before flat and never below 0, and when it measures nothing |
| Preference.PreferIsLexicographic | internal/control/service.go:704-729 | the comparison is the lexicographic order of score, load, latency with 0 as worst, bandwidth and identifier |
| Preference.PreferIsStrictTotal | internal/control/service.go:704-729 | on nodes with different identifiers it is a strict total order |
| Sorting.ListingUnique | internal/control/service.go:704-729 | a strict total order has one sorted arrangement, so the unstable sort and map order do not show |
| Sorting.SortSlice | internal/control/service.go:704-729 | the in-place sort of a slice prefix yields that arrangement and leaves the rest |
| Preference.SelectionSound | internal/control/service.go:192-284 | selected nodes are online, not excluded, distinct, never none; failure only for want of nodes or an unknown mode |
| Preference.SelectionOptimal | internal/control/service.go:210-236 | without a pin the selection is exactly the best k of the eligible nodes in preference order |
| Preference.SelectionPins | internal/control/service.go:210-236 | single and one-node failover return the eligible manual target, else the eligible current node, else the best |
| Preference.PinsIff | internal/control/service.go:260-284 | a client is pinned exactly when its manual target or its current node is eligible |
| Selections.SelectionOutcome | internal/control/service.go:192-236 | a selection is refused exactly when no node that was seen in the last 90 seconds is left unexcluded, or for an unknown mode; else it has as many such nodes as the mode asks for, none twice |
| Selections.PinnedOutcome | internal/control/service.go:210-236 | a node that is asked for alone is the client's manual target or else its current node, if that is available |
| ControlStore.Store.OnlineNodes | internal/control/service.go:197-208 | collects the refreshed online nodes, each once, in any map order |
| ControlStore.Store.SelectNodes | internal/control/service.go:192-236 | the selection of the eligible online nodes, as above |
| ControlStore.FilterExcludedNodes | internal/control/service.go:238-258 | moves exactly the eligible nodes to the front of the slice, in place |
| ControlStore.SelectNodesForClient | internal/control/service.go:210-236 | sorts in place and returns the selection |
| ControlStore.PinnedNode | internal/control/service.go:260-284 | finds the node the client is pinned to, if any |
| Migration.PassDecides | internal/control/service.go:731-782 | after a pass a followed client is pending exactly when its node is offline or beaten by the gap; its target is the best node and not its own; else it has no target |
| Effects.PassOutcome | internal/control/service.go:731-782 | what a pass does to every client, in terms of the nodes seen in the last 90 seconds, their scores and the gap of the configuration: whom it leaves alone, whom it tells to move where and why, and whose target it takes away |
| Effects.SettledTargets | internal/control/service.go:547-571 | heartbeats, leaves and plugin events recount before the pass: a pending client's target is the most preferred node under the counters they leave |
| Migration.PassIdempotent | internal/control/service.go:731-782 | a second pass at the same time changes nothing and logs nothing |
| Migration.LargeGapOnlyOffline | internal/control/service.go:754 | with a gap above 79 only clients on offline nodes are told to move |
| Migration.ClearedTimeIff | internal/control/service.go:774-780 | when a cleared client keeps a migration time stamp |
| Migration.PassDropsManual | internal/control/service.go:731-782 | a manual target survives a pass exactly when migration is off, no node is online or the client is not followed |
| ControlStore.Store.ApplyMigrationRecommendations | internal/control/service.go:731-782 | the pass, with one event per client that gets a new recommendation |
| ControlStore.Store.AdviseAll | internal/control/service.go:746-781 | the loop over the clients in any order |
| Effects.AnnouncedIff | internal/control/service.go:757-772 | a pass announces exactly the clients that it changed and left pending |
| ControlStore.CandidatesFollowPass | internal/control/service.go:505-529 | after an active pass a followed client is a candidate exactly when its node is offline or beaten by the gap, and for the best node |
| NoFlap.CalmStep | internal/control/service.go:731-782 | with scores and gap fixed for the passes, any step in which this one client stays or obeys moves it only if its node is offline or beaten, and then settles it; a settled client stays settled and is told nothing |
| NoFlap.AnyPassTells | internal/control/service.go:749-781 | whatever target a followed client had, an active pass leaves it none, or one with the top score while its own node is offline or beaten |
| NoFlap.MovesBounded | internal/control/service.go:731-782 | over any such run of logins, joins, leaves, heartbeats and switches, whatever the loads become and whatever other clients do, the client moves at most once, and not at all if it was settled |
| NoFlap.TotalMovesBounded | internal/control/service.go:731-782 | the moves of any set of such clients are at most as many as were not settled at the start |
| NoFlap.NeverAgain | internal/control/service.go:731-782 | after its move no later pass recommends the client to move, and it never moves again |
| NoFlap.SettledForGood | internal/control/service.go:731-782 | a settled client stays settled through the rest of the run |
| NoFlap.PendingCanMove | internal/control/service.go:308-312 | a login that names a pending client and its target is such a step, moves it and settles it |
| NoFlap.CanMoveIff | internal/control/service.go:731-782 | after an active pass some such step moves a followed client exactly when the pass left it pending, if its and the best node's identifiers are sanitized |
| NoFlap.LoginReachesIff | internal/control/service.go:286-297 | some login names a given node and client exactly when both are non-empty sanitized identifiers |
| NoFlap.PendingIsPinned | internal/control/service.go:260-275 | single selection keeps a pending client on its current node while that is eligible |
| NoFlap.SwitchServesTarget | internal/control/service.go:470-503 | the automatic switch of a pending client is such a step, keeps its target, and makes single selection serve it |
| Counters.RecountCounts | internal/control/service.go:547-571 | after a recount every counter is the number of entries it stands for |
| Counters.RecountIsFixpoint | internal/control/service.go:547-571 | a recount changes nothing exactly when the counters are right |
| Counters.ClientCountsAddUp | internal/control/service.go:547-571 | the nodes' client counters add up to the connected clients on known nodes |
| Counters.ProxyCountsAddUp | internal/control/service.go:547-571 | the nodes' proxy counters add up to the open proxies on known nodes |
| ControlStore.Store.RecomputeNodeCounts | internal/control/service.go:547-571 | the incrementing loops over both maps in any order compute the recount |
| Runs.JoinCountsIff | internal/control/service.go:48-71 | a join keeps the counters right exactly for a known node or one that nobody is on |
| Runs.StepKeepsCounts | internal/control/service.go:96-174 | every local step keeps the counters right, a join under that condition |
| Runs.SettleCounts | internal/control/service.go:348-349 | heartbeat, leave and plugin event end with right counters whatever they were |
| Runs.LeaveCascades | internal/control/service.go:133-174 | after a leave the node is offline with no connected client and no open proxy |
| Effects.LeaveOutcome | internal/control/service.go:149-164 | a leave takes the node, its clients and its proxies offline; all others keep status and place |
| Effects.PluginOutcome | internal/control/service.go:286-351 | what every plugin operation leaves of every client and proxy: which are connected or open where afterwards, with which name, type and port, and that the others stay |
| Effects.ShownClientSays | internal/control/service.go:415-427 | what else an event says of the client it shows |
| Effects.EventNames | internal/control/service.go:286-297 | which node and client an event speaks of |
| Effects.NewProxyCounts | internal/control/service.go:313-328 | opening a proxy that was not open raises the proxy counters of its node and client by one and no others |
| History.HistoryDecides | internal/control/service.go:23-174 | what a state shows after any run is what the last step that speaks of it said, for everything that single steps set and end |
| History.ClientStepIff | internal/control/service.go:286-351 | exactly the events that show a client, its logout and the leave of its node change where it is connected |
| History.ClientHistory | internal/control/service.go:96-351 | after any run a client is connected to a node exactly when the last step that speaks of it shows it there and the node has not left since |
| History.ProxyHistory | internal/control/service.go:96-351 | after any run a proxy is open exactly when the last event about it opened it and its node has not left since |
| History.OnlineHistory | internal/control/service.go:23-208 | after any run a node can be selected exactly when its last accepted join or heartbeat, or event on it, is at most 90 seconds old and it has not left since |
| History.ReportAcceptedIff | internal/control/service.go:96-174 | after any run a heartbeat is accepted exactly with the token of the node's last accepted join; when a leave is |
| Runs.RunKeepsTarget | internal/control/service.go:429-468 | with migration off a manual target survives every run that does not re-target the client |
| Runs.TargetIsServed | internal/control/service.go:260-284 | and single and one-node failover then return that target while it is online and not excluded |
| Runs.RefusedUpdateDropsTargetIff | internal/control/store.go:294-305 | after a refused update the next active pass drops a followed client's manual target exactly when the update names the switch on |
| Runs.RunKeepsToken | internal/control/token.go:56-71 | in every run of one store a token of u uses admits at most u joins, and uses left plus users is u |
| Runs.StepKeepsToken | internal/control/token.go:56-71 | and none of them at or after the expiry |
| Runs.RunKeepsTokenLog | internal/control/token.go:25-71 | in every run a created token lists exactly the nodes it let in, in order, until it is removed after its expiry |
| Runs.AdmittedIff | internal/control/token.go:25-71 | after any run a join is let in exactly with an identifier, an address, within the token's life, and while fewer nodes were let in than it has uses |
| TokenRuns.TokenStepSafe | internal/control/store.go:371-387 | over admissions at one replica, sends and deliveries with at most one repeated join no copy's uses rise, a merge leaves the minimum, admissions stay within the uses and before the expiry |
| TokenRuns.NewTokenRunSafe | internal/control/token.go:25-71 | so from a new token on, whichever replica admits: in every such run no uses rise and at most as many nodes are admitted as the token has uses |
| TokenRaises.RepeatsRaiseIff | internal/control/store.go:371-387 | some run that admits given nodes at one of at least two replicas hands uses back exactly when two or more of them are repetitions |
| TokenRaises.RepeatsRaise | internal/control/store.go:371-387 | two repetitions suffice for such a run when the joins are spread over any replicas |
| TokenRaises.DistinctRaisesIff | internal/control/store.go:371-387 | pairwise different nodes at any replicas: some run within the given joins hands uses back exactly when the token has three uses, there are five joins and two of them outside each replica |
| TokenForks.DistinctRaiseNeeds | internal/control/store.go:371-387 | whatever the replicas do with different nodes, also without a replica to spare, a run in which uses rise has that many |
| TokenForks.ForkStep | internal/control/store.go:371-387 | until uses rise, every copy has at least as many users as uses taken, a copy with one use taken has one user, and each replica takes ever more |
| Tokens.TwoReplicasRaise | internal/control/store.go:382-385 | six different nodes at two replicas alone: a concrete run that hands a use back |
| Tokens.OneRepeatRaises | internal/control/store.go:382-385 | four joins at two replicas with one repetition that hand a use back |
| Tokens.MergeRaisesIff | internal/control/store.go:382-385 | exactly when one merge hands uses back |
| Tokens.RepeatedJoinerRaises | internal/control/store.go:382-385 | the shortest case: one node joins three times and a merge hands a use back |
| Tokens.CopiesOfMaps | internal/control/store.go:371-387 | one key of the token maps evolves as a single copy does |
| ControlStore.Store.CreateJoinToken | internal/control/token.go:25-54 | the new token with its defaults and its event |
| ControlStore.Store.ConsumeJoinToken | internal/control/token.go:56-71 | unknown, expired, used up or consumed, with the tokens afterwards |
| ControlStore.Store.JoinNode | internal/control/service.go:23-86 | state, peers, event and answer of a join, and its errors |
| Effects.JoinAcceptedIff | internal/control/service.go:23-47 | when a join is accepted, and the errors of its token |
| Effects.JoinOutcome | internal/control/service.go:48-71 | the node that an accepted join leaves, and that nothing else changes |
| Effects.JoinRefused | internal/control/token.go:56-71 | a refused join changes nothing, but that it removes an expired token |
| ControlStore.Store.HeartbeatNode | internal/control/service.go:96-123 | state, events and answer of a heartbeat, and its errors |
| Effects.HeartbeatOutcome | internal/control/service.go:96-123 | an accepted heartbeat shows the node online, stores what it measured and reported, and records the report |
| Effects.ReportRefusals | internal/control/service.go:96-190 | the errors of heartbeats and leaves |
| ControlStore.Store.LeaveNode | internal/control/service.go:133-174 | state, events and answer of a leave, and its errors |
| ControlStore.Store.ApplyPluginEvent | internal/control/service.go:286-351 | state and events after a plugin event |
| ControlStore.ObservationSays | internal/control/service.go:309-346 | which log entry an event makes, and that closing an unknown proxy and the logout of an unknown client make none |
| ControlStore.Store.SetClientTarget | internal/control/service.go:429-468 | state, event and answer, and its errors |
| ControlStore.Store.AutoSwitchClientTarget | internal/control/service.go:470-503 | state, event and answer, and its errors |
| Effects.TargetOutcome | internal/control/service.go:429-503 | setting, clearing and switching a target changes the target of that one client only |
| Effects.SwitchAcceptedIff | internal/control/service.go:470-484 | a switch is refused exactly for an unknown client, an unknown node, or one not seen in the last 90 seconds |
| Effects.TargetRefusals | internal/control/service.go:429-468 | when setting a target is refused, and the errors |
| ControlStore.Store.AutoSwitchCandidates | internal/control/service.go:505-529 | the pending clients with targets, sorted, independent of map order |
| Steps.RefusedUpdateIff | internal/control/store.go:294-305 | a refused update leaves the configuration alone exactly when it does not name the other position of the migration switch |
| ControlStore.Store.UpdateClusterConfig | internal/control/store.go:294-317 | an accepted update is in force in every setting it names; a refused one leaves the configuration alone exactly in that case |
| TrafficLog.RunKeepsLogOk | internal/control/traffic.go:46-92 | every run of server-stamped reports keeps the log time-ordered, a minute apart per node, with each delta the growth since the node's previous sample |
| Runs.RunKeepsLog | internal/control/service.go:96-123 | the same for every run of the store's steps |
| TrafficRuns.ReportIsRecorded | internal/control/traffic.go:46-74 | a report becomes the last sample, with its own counters and time, unless it is silent or within a minute of the node's last sample |
| TrafficRuns.AddedSample | internal/control/traffic.go:61-71 | the sample that any report adds: its time, its counters, and the growth since the node's last sample |
| TrafficRuns.RunShowsReports | internal/control/traffic.go:46-92 | in every run each retained sample shows a report, in order, and behind a node's last sample there are only silent reports and such within a minute |
| TrafficRuns.GrowthIsRecorded | internal/control/traffic.go:46-92 | when a node's counter never falls, the deltas behind any retained sample add up to what its last recorded report says beyond that sample's report, whatever other nodes report |
| TrafficLog.DeltasTelescope | internal/control/traffic.go:182-196 | deltas between two samples of a node add up to at least the growth of its counter, and to exactly that if and only if it never fell |
| TrafficLog.KeepIsSuffix | internal/control/traffic.go:76-92 | pruning a time-ordered log keeps exactly the in-window suffix |
| TrafficLog.PruneIsSuffix | internal/control/traffic.go:76-92 | with the cap, a suffix that drops only old samples or is full |
| ControlStore.Store.PruneTrafficSamples | internal/control/traffic.go:76-92 | the compaction of the backing array in place, then sliced, computes it |
| ControlStore.CompactSamples | internal/control/traffic.go:80-87 | moves exactly the samples from the cutoff on to the front, in order |
| ControlStore.Store.RecordTraffic | internal/control/traffic.go:46-74 | counters and log after a report, and when it is ignored |
| ControlStore.Store.LastTrafficSample | internal/control/traffic.go:182-189 | the backward search finds the node's latest sample |
| TrafficReport.TrafficSeries | internal/control/traffic.go:94-152 | the report lists the in-window samples by time and node and one row per node, and its grand totals are the sums over the rows and the samples |
| TrafficReport.DeltasConserved | internal/control/traffic.go:117-137 | the nodes' deltas add up to the deltas of all samples, each counted once |
| TrafficReport.LedgerDeltas | internal/control/traffic.go:117-137 | a node's delta is the sum of its samples' deltas |
| TrafficReport.LedgerTotals | internal/control/traffic.go:117-137 | a node's total is the maximum of its live counter and its samples |
| TrafficReport.RowsSay | internal/control/traffic.go:94-152 | every row of a report in terms of the samples and live counters themselves: growth of the covered samples, largest counter, bytes in and out |
| Snapshots.Snapshot | internal/control/store.go:151-245 | nodes, clients and proxies by identifier with silent nodes and what is on them shown as down, and the summary counts |
| Snapshots.ShownEntries | internal/control/store.go:155-195 | how single nodes, clients and proxies are shown |
| Snapshots.LoadIsShown | internal/control/store.go:155-195 | with right counters an online node shows exactly as many clients and proxies as it counts, any other none |
| Snapshots.ShownClientsAddUp | internal/control/store.go:221-240 | the counters of the online nodes add up to the clients shown online |
| Snapshots.ShownProxiesAddUp | internal/control/store.go:221-240 | ... and to the proxies shown open |
| ProxyIds.DashMoves | internal/control/service.go:854-856 | a dash can move from the node to the client without changing the identifier |
| ProxyIds.CanCollideIff | internal/control/service.go:854-856 | two pairs of node and client can have proxies with one identifier exactly when their joined texts are equal or one goes on with a dash where the other ends |
| ProxyIds.DashFreeSeparates | internal/control/service.go:854-856 | without dashes they can exactly when they are the same pair |
| Reconciler.FrpcManager.Reconcile | cmd/frp-cluster/main.go:782-826 | the loops over wanted and stale files in any order, and the read and start failures |
| Reconciler.SuccessMatches | cmd/frp-cluster/main.go:782-826 | on success exactly the wanted files are managed with their contents, and unchanged running processes are kept |
| Reconciler.StartsPrecedeStops | cmd/frp-cluster/main.go:815-826 | every start precedes every stop of a stale process |
| Reconciler.StaleUntouched | cmd/frp-cluster/main.go:791-814 | a stale process is alive at every moment while the wanted files are brought up |
| Reconciler.FailureKeepsStale | cmd/frp-cluster/main.go:806-808 | a failed start leaves every stale process managed and alive, and happens only for a file that is neither kept nor startable |
| Reconciler.DrainOncePerStale | cmd/frp-cluster/main.go:828-837 | a successful reconciliation waits for the drain time once per stale file and for nothing else; without a drain or without processes not at all |
| Reconciler.DrainPrecedesStop | cmd/frp-cluster/main.go:828-837 | and directly before each stop of a stale process |
| Reconciler.BringNeverWaits | cmd/frp-cluster/main.go:791-814 | bringing up files never waits |
| Reconciler.StopNeverWaits | cmd/frp-cluster/main.go:858-867 | neither does stopping all of them |
| Reconciler.SuccessCarries | cmd/frp-cluster/main.go:782-826 | after a success each wanted file runs by its old process if that had the same contents and was running, else by a new one, and no other file is managed |
| Reconciler.FailureSays | cmd/frp-cluster/main.go:806-808 | what a failed start leaves, and which file it names |
| Reconciler.KeptUntouched | cmd/frp-cluster/main.go:791-814 | a kept process is alive at every moment while the wanted files are brought up, also when that fails |
| Reconciler.KeptThroughout | cmd/frp-cluster/main.go:782-826 | and at every moment of a whole successful reconciliation |
| Reconciler.OldProcessAliveIff | cmd/frp-cluster/main.go:791-797 | the old process of a wanted file is alive after a success exactly when it is kept |
| Reconciler.OldProcessAfterFailure | cmd/frp-cluster/main.go:795-807 | after a failed start it is alive exactly when it is kept or was not reached, and nothing runs under the failing file |
| Reconciler.ChangedFileCanVanish | cmd/frp-cluster/main.go:795-807 | one changed file that cannot be started loses its running process |
| Reconciler.BringAllEffect | cmd/frp-cluster/main.go:791-814 | the loop goes through exactly when every file that is not kept can be started, in any order |
| Reconciler.BringAllKeepsInv | cmd/frp-cluster/main.go:791-814 | no process leaks: what was started and not stopped is managed, once |
| Reconciler.StopAllEmpties | cmd/frp-cluster/main.go:858-867 | after stopping all, nothing ever started is alive |
| Reconciler.FrpcManager.StopAll | cmd/frp-cluster/main.go:858-867 | the loop over the sorted paths |
| Reconciler.FrpcManager.DropStale | cmd/frp-cluster/main.go:815-837 | the stale processes are stopped after the drain time, the others stay |
| Reconciler.FrpcManager.ExitedNodeIds | cmd/frp-cluster/main.go:869-883 | the sorted distinct nodes of the exited processes |
| FrpcConfig.ReadsBackIff | cmd/frp-cluster/main.go:900-917 | the node read back from a rendered file is its node exactly when the identifier needs no escape, whatever else the file holds |
| FrpcConfig.ConfigSplits | internal/control/config.go:144-165 | no rendered value can add or hide a line |
| FrpcText.EscapeRoundTrip | internal/control/config.go:144-165 | every quoted value can be read back, so no two values are rendered alike |
| FrpcText.ConfigSays | internal/control/config.go:144-155 | the head of a rendered file names the node's address and port, the token, the client and the node, each under its key |
| FrpcText.ProxySays | internal/control/config.go:156-164 | and each section its proxy |
| FrpcText.SpecsSay | internal/control/config.go:193-219 | the proxies that are rendered, with what is filled in |
| FrpcText.FilesSay | internal/control/config.go:128-140 | the name and the contents of each selected node's file |
| FrpcText.RequestDefaults | internal/control/config.go:113-122 | a request without a client or a mode |
| FrpcConfig.RenderNodeConfig | internal/control/config.go:144-165 | the buffer holds exactly those lines |
| FrpcConfig.ReadClusterNode | cmd/frp-cluster/main.go:900-917 | the first line that names a node decides |
| FrpcFiles.GenerateFrpcConfigFiles | internal/control/config.go:113-142 | one file per selected node, or the selection's error; a request without a mode is one for aggregate |
| FrpcFiles.FilePerNode | internal/control/config.go:128-140 | in every mode each selected node has a file of its own and there are no other files, and the node reads back from it |
| FrpcFiles.NormalizeProxySpecs | internal/control/config.go:193-219 | the loop fills the gaps of each spec by its position |
| FrpcFiles.ProxiesAreNamed | internal/control/config.go:193-219 | every rendered proxy has a name and an address; its type is empty exactly when a blank one was given |
| FrpcFiles.ExcludingIff | internal/control/service.go:238-258 | excluding a node by its identifier works exactly for non-empty sanitized ones |
| FrpcFiles.ExitedIdsAre | cmd/frp-cluster/main.go:869-883 | exactly the nodes named by the files of exited processes are reported |
| FrpcFiles.FailoverAvoids | cmd/frp-cluster/main.go:453-460 | whichever processes exited and whatever the nodes became, re-selecting with the identifiers read from their files never returns their nodes |
| EnvRoundTrip.RoundTripIff | internal/control/envfile.go:12-95 | a map of settings is read back as written exactly when all its keys are good, no value has a line break, every value survives on its own, and every line is below 64 KiB in UTF-8 |
| EnvRoundTrip.SurvivesIff | internal/control/envfile.go:43-95 | a value alone is read back exactly under a condition on its characters |
| EnvRoundTrip.DirtyFile | internal/control/envfile.go:62-76 | the last key whose value has a line break loses it |
| EnvRoundTrip.CleanFile | internal/control/envfile.go:12-41 | without line breaks every key gets what its own line says, unless a line is too long for the scanner |
| EnvRoundTrip.ParsedKeysAreGood | internal/control/envfile.go:22-36 | whatever the text, the keys that are read are not empty, trimmed, without equals sign, and no comments |
| EnvRoundTrip.ErrorSays | internal/control/envfile.go:12-41 | when reading fails, it is for the first bad line, and the error tells which and why |
| EnvFile.BareIff | internal/control/envfile.go:87-95 | a value is written without quotes exactly when it is not empty and has none of nine characters |
| EnvFile.ReadEnvFile | internal/control/envfile.go:12-41 | the loop over the lines, with the line number of the first error, and the scanner's error for a line of 64 KiB |
| EnvFile.WriteEnvFile | internal/control/envfile.go:55-76 | the lines of the sorted keys |

## Left out

- HTTP handlers, sessions, JSON decoding, the web UI and the DNS hook: plumbing around the modelled operations.
- Disk persistence: saving always succeeds here.
- TOTP and random token generation: tokens are parameters and, where a result needs it, not empty.
- Network probing and dashboard scraping: measurement with floating point.
- `normalizePluginEvent`: plugin events come with their fields resolved; operations the source does not know are one case without their name.
- Event messages, metadata and the network event metadata: an event has its kind, identifiers and time. The text of the kind matters only where it enters the event identifier.
- The monthly switch counters and the settings of the configuration that no modelled operation reads.
- Node fields that are only copied (virtual host ports, region, tags, dashboard address) and traffic counters per proxy, of which only the number counts.
- Statuses are datatypes, so a status string the source never writes cannot occur.
- Entries that are null in a merged state are skipped by the source; the maps here have none.
- One time per operation: the source reads the clock again for the list of online nodes.
- `UnixNano` overflow and the width of byte counters: integers are unbounded.
- ControlStore.Store.JoinNode: leaves out region, tags and virtual host ports, which are copied from the request.
- ControlStore.Store.ApplyPluginEvent: takes an event with its fields resolved, and operations the source does not know as one case.
- ControlStore.Store.SetClientTarget: leaves out the monthly switch counter, which no other modelled operation reads.
- ControlStore.Store.AutoSwitchClientTarget: leaves out the monthly switch counter, too.
- ControlStore.Store.UpdateClusterConfig: leaves out the public entry host and the DNS hook, which no other modelled operation reads.
- ControlStore.Store.RecordTraffic: reduces the counters per proxy to their number, which decides whether a report is empty.
- ControlStore.Store.MergeState: runs the peer part of the node loop as a loop of its own; peers and entries do not influence each other.
- TokenRaises.DistinctRaisesIff: asks for one replica that admits nobody, and leaves open when uses come back if exactly one join is repeated and several replicas admit nodes; `Tokens.OneRepeatRaises` shows that they can.
- TokenRaises.RepeatsRaise: asks for as many uses as joins, and for one replica that admits nobody.
- MergeEffects.MergedSamples: asks that samples of one node and time are equal on both sides; otherwise the side that is read first wins.
- MergeEffects.MergedPeers: asks for URLs that normalisation leaves alone; for others `ControlStore.Store.MergePeerLists` gives the list without such a description.
- TrafficRuns.RunShowsReports: reports stamped by the server and an empty log at the start, as on a new replica without peers.
- Events.LocalEventsKeptIff: beyond 500 events only what the cap drops is stated, since equally old events may be dropped in any order.
- Events.MergeEvents: events of one time may come in any order, as in the source, so only the time order is stated.
- TrafficReport.TrafficSeries: samples of one node and time may come in any order.
- Snapshots.Snapshot: leaves out tokens, events, the proxies listed under each client and the switch metrics.
- EnvFile.ReadEnvFile: texts are valid Unicode.
- FrpcConfig.RenderNodeConfig: the Unicode tables for printable characters and lower case are parameters.
- Reconciler.FrpcManager.Reconcile: a process is looked at once per call, so which ones have exited and which files can be started are sets; the contents of a file are its digest, and distinct contents have distinct digests.
- PeerSync.SyncPeer: whether a request fails is a parameter; the two stores change only by this exchange while it runs.
- The rendering of one text for all nodes (`GenerateFrpcConfig`), the frps configuration and `ParseProxySpec`: formatting without further properties.
- The agent, join and leave commands: they call the modelled operations over HTTP.
