# Verified model of the MPC node

mpcium is a network of nodes that generate, reshare and use threshold keys. This project models the parts of a node
where correctness depends on several pieces of code agreeing with each other, and proves that they do, or exactly when
they do.

| file | what it models |
|---|---|
| GoStrings.dfy | Go byte strings and the string functions the other files need (cutting, ordering, decimal numbers, trimming); duplicate-free sequences and pigeonhole |
| PartyId.dfy | party keys: node id and version packed into a big-endian integer and unpacked again |
| Node.dfy | the ordered party list of a session, and the guards of signing-session creation |
| Topics.dfy | direct topics and the sender that is read back from them |
| Session.dfy | the way of a direct TSS message through topics, subscriptions, the local handler table, sealing and acceptance |
| Subscriptions.dfy | how opening, subscribing and closing change the subscriptions |
| Fabric.dfy | the messaging fabric as an object |
| Resharing.dfy | the two committees of a resharing, their subscriptions and their messages |
| Routing.dfy | the same over every history of sessions that open, subscribe and close while keys change |
| Isolation.dfy | which messages of one protocol run reach the sessions of another |
| Registry.dfy | the peer registry of a node with its symmetric-key table, as an object |
| Readiness.dfy | the same state under interleaved watcher, key-exchange handler and queries, at the grain of shared reads and writes |
| Cluster.dfy | key exchange across all nodes, with messages lost, delayed, duplicated and sent again |
| Shares.dfy | storage keys, share store and key-info store, and the order of their writes |
| Lifecycle.dfy | wallets over any history of keygens, reshares and signings |
| LifecycleRequests.dfy | what was requested of a wallet and what came of it, and that operations can complete |
| BackupFile.dfy | frame, name and loading of one encrypted backup file |
| Backup.dfy | the incremental backup protocol and restore |
| Bridge.dfy | deliveries, events, deduplicated results and replies across consumers and nodes |
| Answers.dfy | what the handlers' ways lead to, and that every request can be brought to an end |
| Outcomes.dfy | which of the requests that share a message id leaves a result |
| ResharingOutcomes.dfy | what resharing requests leave, by the ways their handlers take |
| EventHandlers.dfy | what each path through the node-side handlers enqueues and answers |
| Consumer.dfy | how a JetStream consumer polls for a reply and settles its delivery |
| SessionManager.dfy | the index of running signing sessions |

Code that changes state step by step is modelled by classes with methods (`Fabric.Fabric`, `Registry.Registry`,
`Shares.Store`, `Shares.PartySession`, `Backup.Executor`, `EventHandlers.EventConsumer`, `Consumer.EventConsumer`,
`SessionManager.Manager`); each method is proved against a function or relation on values, and the theorems are about
these. Runs of several nodes are state machines whose steps are single reads, writes or messages.

Cryptography enters by contract only: X25519 as a function whose two sides agree (section 6.1 of RFC 7748), HKDF as a
function (section 2 of RFC 5869), signatures as an ideal check, authenticated encryption as a sealed value that opens
under its own key and nothing else. NATS is a table of subscriptions, JetStream a queue that drops repeated message
ids, Consul a shared map, Badger a growing set of versioned records with tombstones whose `Backup` emits records newer
than the watermark, among them the newest record of every key changed since.

Where the code does less than its comments or names suggest, the model follows the code:

- `AreMajorityReady` compares counts, and loads the counter twice, so it does not say that keys exist with the ready peers (`Readiness.MajorityWithoutKeys`); `Readiness.MajorityKeysIff` gives the condition.
- A listing that repeats a peer and is yet as long as the cluster can make `ArePeersReady` answer true too early, and nothing else can (`Readiness.ReadinessSoundIff`): shorter and longer listings may repeat peers, registered ids need not be listed, and listed ids need not be registered.
- A message goes out once per addressee on one topic per node, so one that addresses both parties of a node, as messages to both committees do, is taken twice by each of them (`Routing.BothCommitteesTwice`, `Routing.BothCommitteesOnceIff`).
- Topics and party keys tell runs of one protocol apart by wallet or transaction and by version only. Two wallets that sign under one transaction take each other's messages (`Isolation.SigningIsolationIff`, `Isolation.CrossTalk`); sessions are closed only on success, so a retry at the same version and the failed attempt before it take every message alike (`Isolation.RetryDoubles`, `Isolation.DoublesTakeAlike`). `Isolation.RunIsolationIff` says when runs are isolated.
- The local handler table never shrinks, so a session closed after one resharing takes part in the next (`Resharing.StaleSessionAccepts`, `Resharing.ClosedUntouchedIff`).
- A continuing member's old session does not listen to members that join (`Resharing.ResharingSubscriptions`).
- The retry-later branch for too few participants in the signing handler is never taken: session creation does not return that error (`Node.SigningPlanSucceedsIff`).
- A signing session looks key info up twice; a failed first lookup counts as version 1, and the session then has other party keys than the share (`Lifecycle.SigningFindsShare`).
- A keygen ignores a failed key-info lookup, so it can overwrite a wallet and reset its version (`Lifecycle.LifecycleAgreementIff`).
- A resharing request can be acknowledged with no result, which the committees decide (`ResharingOutcomes.ResharingResultIff`), and can leave two, when its handlers both fail and succeed (`ResharingOutcomes.ResharingOneResultIff`).
- A request that a consumer rejects leaves no result when its message id was used before (`Outcomes.RejectedOwnsIff`).
- A failed `latest.version` write followed by a failed backup in the same second destroys a good file (`Backup.TornOverWhole`, and `Backup.RestoreCorrect` for the exact condition).
- Party keys, storage keys, info strings, message ids and session ids are all joined without escaping; for each the exact collisions are stated.

## Model

| member | source | states |
|---|---|---|
| PartyId.BigBytesOfSetBytes | pkg/mpc/core/party_id.go:13-46 | Reading bytes as a big integer and writing it back returns the bytes without their leading zeros |
| PartyId.SetBytesOfBigBytes | pkg/mpc/core/party_id.go:29-35 | Writing a big integer and reading it back returns it |
| PartyId.CompareIsKeyEquality | pkg/mpc/core/party_id.go:29-35 | `ComparePartyIDs` is equality of keys; label and random id play no part |
| PartyId.PartyKeyRoundTrip | pkg/mpc/core/party_id.go:13-46 | A node id survives the party key at any version if and only if it has no ':', no leading zero byte and no surrounding white space |
| PartyId.PartyIDRoundTrip | pkg/mpc/core/party_id.go:13-46 | The same for whole party ids; a missing party has no node; label and random id are kept |
| PartyId.DecodersAgree | pkg/identity/identity.go:536-538 | The identity store's decoder, which does not trim, and the session's decoder both return the id on such ids |
| PartyId.PartyKeyInjective | pkg/mpc/core/party_id.go:37-46 | For ids without ':' or leading zero, a key determines node and version, version 0 included |
| PartyId.PartyKeySharedIff | pkg/mpc/core/party_id.go:37-46 | For all ids and versions, exactly which pairs share a key |
| PartyId.PartyKeyCollision | pkg/mpc/core/party_id.go:37-46 | Two different nodes with one key, if ':' is allowed |
| PartyId.SetBytesOrder | pkg/mpc/core/party_id.go:37-46 | Byte strings of one length compare as the integers they stand for |
| PartyId.PartyKeyOrder | pkg/mpc/core/party_id.go:37-46 | For ids of one length and a common version, numeric key order is the order of the ids |
| PartyId.PartyIDsToNodeIDs | pkg/mpc/core/party_id.go:21-27 | The loop decodes every party in place |
| Node.SortSorts | pkg/mpc/node.go:224-244 | Sorting yields the sorted permutation |
| Node.SortedUnique | pkg/mpc/node.go:224-244 | A multiset of keys has one sorted sequence |
| Node.PartyOrderAgreement | pkg/mpc/node.go:224-244 | Any two permutations of one ready list give every node the same key sequence |
| Node.SessionKeysStrict | pkg/mpc/node.go:224-244 | Keys of plain distinct ids rise strictly |
| Node.OwnIndexAgreement | pkg/mpc/node.go:224-244 | All nodes give a member one and the same index, unique in the sequence, and decode its key back to it |
| Node.PartyOrderIsIdOrder | pkg/mpc/node.go:224-244 | For ids of one length, party order is id order |
| Node.SortPartyIDs | pkg/mpc/node.go:238-243 | The sorted party ids are a permutation whose keys are the sorted keys |
| Node.KeygenPartyIDs | pkg/mpc/node.go:224-244 | The loop yields the session keys in order, all under the given label, and finds the own party exactly when the node is listed |
| Node.GetReadyPeersForSession | pkg/mpc/node.go:259-269 | The loop keeps the recorded participants that are ready, in their recorded order |
| Node.ReadyOfIs | pkg/mpc/node.go:259-269 | These are the intersection of both lists, and repeat nobody where the record repeats nobody |
| Node.ReadyOfOrder | pkg/mpc/node.go:259-269 | They come in their recorded order |
| Node.CreateSigningSession | pkg/mpc/node.go:146-216 | The two key-info lookups, guards, party list and session agree with the plan the theorems are about |
| Node.QuorumCarriesThrough | pkg/mpc/ecdsa/signing.go:86-109 | A created session has its own party in the list and threshold+1 distinct recorded participants, and neither participant check of `Init` can fail against unchanged key info |
| Node.SessionVersion | pkg/mpc/node.go:153-179 | The parties are the ready participants at the version the first lookup read, in key order, and the own party is the node's at that version; version 1 when that lookup failed |
| Node.InitAfterChange | pkg/mpc/ecdsa/signing.go:86-109 | Against key info changed since creation, `Init` passes exactly when a quorum of the new record was recorded before and ready then; exactly when it refuses, and how |
| Node.SigningPlanSucceedsIff | pkg/mpc/node.go:146-216 | Creation succeeds exactly with key info, a ready quorum and a participating node, and otherwise names the first of these that is missing; it never answers "not enough participants" |
| Topics.TopicRoundTrip | pkg/mpc/core/session.go:414-422 | The sender is read back from a keygen, signing or resharing topic if and only if it has no ':', whatever receiver and wallet hold |
| Topics.TopicInjective | pkg/mpc/core/session.go:160-176 | Topics determine protocol, curve, sender, receiver and topic id; the id is the wallet for keygen and resharing, the transaction alone for signing, so wallets that sign under one transaction share topics |
| Topics.TopicForms | pkg/mpc/ecdsa/keygen.go:57-59 | The direct topics of all protocols and curves, field by field |
| Fabric.Fabric.Listen | pkg/messaging/p2p.go:106-130 | The session gets one more subscription to this sender, on NATS and in the local table; every other count stays |
| Fabric.Fabric.SubscribeFromPeers | pkg/mpc/core/session.go:306-314 | One subscription per sender, in order |
| Fabric.Fabric.Open | pkg/mpc/core/session.go:330-340 | A new session listens to its senders |
| Fabric.Fabric.Close | pkg/mpc/core/session.go:342-356 | No live subscription of this session is left; the other sessions' subscriptions and all local handlers are as before |
| Fabric.Fabric.Invoke | pkg/mpc/core/session.go:249-291 | Handlers run one after the other; each accepted message is one update |
| Fabric.Fabric.SendToSelf | pkg/messaging/p2p.go:42-56 | Calls every handler under the topic and fails when there is none |
| Fabric.Fabric.SendToOther | pkg/messaging/p2p.go:58-104 | Reaches every live subscriber and fails when there is none |
| Fabric.Fabric.Send | pkg/mpc/core/session.go:174-198 | One addressee: own node in the clear through the local table, another node sealed through NATS; a failed encryption and a failed send are each reported |
| Fabric.Fabric.HandleTssMessage | pkg/mpc/core/session.go:127-201 | All addressees in turn: the updates caused, every one with this very message, and the errors reported |
| Session.ReachedIsLocal | pkg/mpc/core/session.go:306-314 | A send reaches only sessions of the node it is addressed to |
| Session.ReceiveOnOwnTopic | pkg/mpc/core/session.go:203-291 | What such a session makes of the payload: it takes it exactly when the channel is usable and its own key is addressed |
| Session.ReceivedIsSent | pkg/mpc/core/session.go:203-291 | A session hands on the message that was sent, whole, or nothing |
| Session.UpdatesCarry | pkg/mpc/core/session.go:127-291 | Every update that a message causes is with that very message |
| Session.FailuresIff | pkg/mpc/core/session.go:174-198 | A failed encryption is reported for exactly the addressees on other nodes without a key, a failed send for exactly those that nobody listens for |
| Session.DirectExactness | pkg/mpc/core/session.go:127-291 | The routing law, for every message: it updates a session once for each subscription to the sender and each addressee on the session's node if the session's own key is addressed and the nodes share a key, and updates no other session |
| Session.HitsCount | pkg/mpc/core/session.go:172-175 | A node is hit at most once if and only if no two addressees sit on it |
| Resharing.GetLegacyCommitteePeers | pkg/mpc/ecdsa/resharing.go:114-130 | The map-filling loop computes the ordered difference of the committees |
| Resharing.DifferenceIs | pkg/mpc/eddsa/resharing.go:112-128 | The difference is exact and repeats nobody |
| Resharing.DifferenceOrder | pkg/mpc/ecdsa/resharing.go:114-130 | It keeps the order of the old committee |
| Resharing.SessionNodes | pkg/mpc/core/session.go:306-340 | Decoding the ordered party keys gives each member once |
| Resharing.ResharingSubscriptions | pkg/mpc/ecdsa/resharing.go:95-130 | A new-committee session listens to each node of both committees exactly once; an old one listens to all of them if and only if the new committee brings in nobody |
| Resharing.CommitteesDisjoint | pkg/mpc/node.go:356-369 | Old and new party keys never coincide, however much the node sets overlap |
| Subscriptions.OpenedListens | pkg/mpc/core/session.go:306-340 | Opening a session subscribes it once to each of its senders and changes no other session's subscriptions |
| Subscriptions.ClosedIsGone | pkg/mpc/core/session.go:342-356 | Closing ends the live subscriptions of this session only, and none of its local handlers |
| Resharing.ListenerExactness | pkg/mpc/core/session.go:127-291 | A listening session takes a message once per addressee on its node if addressed, subscribed and keyed with the sender, and otherwise not at all |
| Resharing.BothPartiesHit | pkg/mpc/core/session.go:172-175 | A message to both parties of a node hits the node twice |
| Resharing.HitsOfBothCommittees | pkg/mpc/core/session.go:172-175 | A message to both committees hits a node once for each committee it is in |
| Resharing.NewcomerNotHeard | pkg/mpc/ecdsa/resharing.go:95-130 | What a joining member sends to an old-committee session is dropped |
| Resharing.ClosedSessionUpdates | pkg/messaging/p2p.go:42-56 | Exactly what a closed session still takes: what its own node sends itself under its party key |
| Resharing.ClosedUntouchedIff | pkg/messaging/p2p.go:42-56 | Closed sessions stay untouched if and only if none has a handler on the sender's own topic and a key among the addressees |
| Resharing.StaleSessionAccepts | pkg/messaging/p2p.go:106-130 | In two consecutive reshares, a message to the own old party updates the closed session of the first as well |
| Routing.RunKeepsInv | pkg/mpc/core/session.go:293-356 | Over every history of opening, subscribing, closing and key changes, a session is registered locally once for each of its senders, and on NATS while it is open |
| Routing.RoutingExactness | pkg/mpc/core/session.go:127-291 | At any point of any history, any message updates an open session once per addressee on its node, and with the message as sent, if its key is addressed, its topics are the sender's, it has subscribed to the sender and has a channel with it, and otherwise not at all, be the two of one run or not; a closed session only from its own node |
| Routing.NotSentIff | pkg/mpc/core/session.go:174-198 | At any point of any history, a send is reported as failed if and only if no session on the addressed node listens to the sender under the same topics |
| Routing.ListenHears | pkg/mpc/core/session.go:293-314 | An open session can subscribe to any further sender and then takes what addresses it from there |
| Routing.CloseDeafens | pkg/mpc/core/session.go:342-356 | An open session can be closed, and after that no message from another node updates it again, whatever happens |
| Routing.OncePerSessionIff | pkg/mpc/core/session.go:172-199 | Every open session that heeds a message takes it exactly once if and only if each of their nodes has exactly one addressee |
| Routing.ResharingExactness | pkg/mpc/core/session.go:249-291 | Of the two sessions of a node in both committees, the old one takes what an old member addresses to its old key, the new one what any member addresses to its new key, each once per addressee on the node; at least twice when the message addresses both keys |
| Routing.BothCommitteesTwice | pkg/mpc/core/session.go:172-199 | A message to both committees is taken twice by each of the two sessions of a continuing member |
| Routing.BothCommitteesOnceIff | pkg/mpc/core/session.go:172-199 | It is taken once by every open session that heeds it if and only if none of these sits on a node of both committees |
| Routing.ResharingCanOpen | pkg/eventconsumer/event.go:668-689 | Any history can go on with a node opening both sessions as the handler does |
| Isolation.MessageIsolationIff | pkg/mpc/core/session.go:203-291 | At any point of any history, a message updates no open session of another run if and only if none has the same topics, an addressed key, a subscription to the sender and a channel with it |
| Isolation.RunIsolationIff | pkg/mpc/core/session.go:203-291 | No message that a session can send at its versions updates an open session of another run if and only if none of these is in reach by topics, version, subscription and channel |
| Isolation.SigningIsolationIff | pkg/mpc/ecdsa/signing.go:64-71 | One signing session never reaches another if and only if transactions or versions differ or there is no subscription or no channel; the wallets play no part |
| Isolation.CrossTalk | pkg/mpc/ecdsa/signing.go:64-71 | Any history can go on to two wallets signing under one transaction, where a session of the one takes a message of the other |
| Isolation.DoublesTakeAlike | pkg/mpc/core/session.go:249-291 | Two open sessions with one node, key, topics and senders take every message alike |
| Isolation.RetryDoubles | pkg/mpc/ecdsa/keygen.go:130-140 | A retry at the version of a failed attempt, whose session is still open, is such a double of it |
| Registry.DropAllIs | pkg/mpc/registry.go:174-219 | Dropping peers in any order takes exactly these down, counts them and removes their keys |
| Registry.RegisterAllIs | pkg/mpc/registry.go:101-129 | Registering a listing, repeats and unknown ids included, brings exactly its ids up and counts each newcomer once |
| Registry.TickFolds | pkg/mpc/registry.go:174-219 | Dropping in any order and then registering has the effect of a tick |
| Registry.TickEffectUnique | pkg/mpc/registry.go:174-219 | The effect of a tick does not depend on the order in which the map is walked |
| Registry.TickKeepsCount | pkg/mpc/registry.go:101-129 | `readyCount` stays one more than the number of peers that are up, for every listing |
| Registry.TickMatchesListing | pkg/mpc/registry.go:174-219 | After a duplicate-free listing of registered peers, these are up, `ready` says whether they are the whole cluster, and keys of peers that left are gone |
| Registry.ListingOfIds | pkg/mpc/registry.go:267-283 | Keys put by the nodes are scanned back to a duplicate-free listing of the other nodes |
| Registry.HealthDataRoundTrip | pkg/mpc/registry.go:356-374 | Health data is parsed back if and only if the node id has no ',' |
| Registry.HealthDataIff | pkg/mpc/registry.go:361-374 | Exactly which health data is understood, and as what |
| Registry.Registry.constructor | pkg/mpc/registry.go:61-95 | The registered others are the given ids without the own, without repeats where there were none |
| Registry.Registry.GetReadyPeersFromKVStore | pkg/mpc/registry.go:267-283 | The loop yields the listing, the own id left out |
| Registry.Registry.RegisterReadyPairs | pkg/mpc/registry.go:101-129 | The loop folds single registrations; `ready` is set when the listing is as long as the cluster |
| Registry.Registry.WatchTick | pkg/mpc/registry.go:174-219 | One round of the watcher has the effect of a tick |
| Registry.Registry.DropMissing | pkg/mpc/registry.go:188-214 | The walk drops each peer that is up and not listed, once, with its key |
| Registry.Registry.GetReadyPeersIncludeSelf | pkg/mpc/registry.go:255-265 | Each peer that is up once, the own id last, `readyCount` members in all |
| Readiness.StepKeepsInv | pkg/mpc/registry.go:101-129 | Every shared read or write keeps the count, key and lock invariant |
| Readiness.RunKeepsInv | pkg/mpc/registry.go:174-219 | So does every run in which no listing as long as the cluster repeats a peer |
| Readiness.ReadinessSound | pkg/mpc/registry.go:285-291 | Under every interleaving of such a run, when `ArePeersReady` answers true the key table's domain is exactly the set of other nodes |
| Readiness.ArePeersReadyIff | pkg/mpc/registry.go:285-291 | Between ticks the answer is true if and only if the node is ready and holds keys for exactly the other nodes |
| Readiness.ReadyReachable | pkg/mpc/registry.go:101-129 | A node whose tick lists all others and that has got their keys comes to answer true |
| Readiness.ReadyWritesWait | pkg/mpc/registry.go:120-128 | The flag changes only while no query holds the lock |
| Readiness.ReadinessSoundIff | pkg/mpc/registry.go:120-128 | For any set of listings the ticks may see: every true answer in every run is sound if and only if no listing in the set is as long as the cluster and repeats a peer |
| Readiness.RepeatMisleads | pkg/mpc/registry.go:101-129 | For each such listing, a run with it alone that ends in a true answer with a key missing |
| Readiness.RepeatedListingBreaks | pkg/mpc/registry.go:267-283 | Such listings occur: two store keys that scan to one peer make the answer unsound |
| Readiness.MajorityKeysIff | pkg/mpc/registry.go:297-300 | When the check, read by read, answers true, there are keys with all ready peers if and only if as many key holders are not ready as the last counter load was ahead of the ready peers; with a settled counter, if and only if nobody but ready peers holds a key |
| Readiness.AreMajorityReadyIff | pkg/mpc/registry.go:297-300 | Without interference the answer is true if and only if as many peers as the threshold are up and there are as many keys as peers up |
| Readiness.MajorityWithoutKeys | pkg/mpc/registry.go:293-300 | A run where the check passes and the only ready peer has no key |
| Readiness.TickRefines | pkg/mpc/registry.go:174-219 | The watcher's single writes, run without interference, add up to the tick of the registry object |
| Cluster.InfoSymmetric | pkg/mpc/key_exchange_session.go:160-166 | Both sides derive one info string |
| Cluster.InfoInjectiveIff | pkg/mpc/key_exchange_session.go:160-166 | Pairs with one info string are the same pair if and only if their smaller ids have one length |
| Cluster.InfoCollision | pkg/mpc/key_exchange_session.go:160-166 | Two different pairs with one info string |
| Cluster.RunKeepsKeys | pkg/mpc/key_exchange_session.go:78-127 | Over every run, each key held is the one derived from the two key pairs |
| Cluster.KeyAgreement | pkg/mpc/key_exchange_session.go:168-187 | At any point of any run, two nodes that hold keys for each other hold the same key |
| Cluster.DeliverStores | pkg/mpc/key_exchange_session.go:87-120 | A listening node stores under the sender the key derived from the secret and the two ids in order; a bad public key changes nothing |
| Cluster.BroadcastSends | pkg/mpc/key_exchange_session.go:138-158 | A listening node can broadcast its public key at any time, which changes nothing else |
| Cluster.ListenStarts | pkg/mpc/key_exchange_session.go:78-86 | A node without a key pair can start to listen with a new one |
| Cluster.LocalSteps | pkg/mpc/registry.go:174-219 | The registry of a node takes its steps at any time without touching the others |
| Cluster.ExchangeCompletes | pkg/mpc/key_exchange_session.go:78-158 | At any point of any run, a broadcast and a delivery in each direction give two listening nodes the same key for each other, and all other keys stay |
| Cluster.ChannelIff | pkg/identity/identity.go:430-467 | Two nodes can exchange sealed messages if and only if each holds a key for the other |
| Cluster.RunKeepsNodes | pkg/mpc/registry.go:174-219 | Every node's readiness invariant holds in cluster runs without repeating full-length listings |
| Cluster.ReadyMeansUsable | pkg/mpc/registry.go:285-291 | A node that reports readiness holds a key for every other node, and each peer that has a key for it holds the same |
| Shares.ComposeKeyInjective | pkg/mpc/ecdsa/keygen.go:61-63 | Curve prefixes keep key spaces apart for all wallet strings |
| Shares.VersionedInjective | pkg/mpc/core/session.go:407-412 | Versioned wallet ids determine wallet and positive version |
| Shares.StorageKeyInjectiveIff | pkg/mpc/core/session.go:407-412 | For all integer versions, exactly which shares would be stored under one key |
| Shares.StorageKeyForms | pkg/mpc/core/session.go:407-412 | The storage keys of both curves, spelled out |
| Shares.PositiveVersionsApart | pkg/mpc/ecdsa/resharing.go:164-191 | No keygen or reshare write touches the share of another wallet, curve or version, nor the cached pre-parameters |
| Shares.LegacyCollision | pkg/mpc/core/session.go:371-412 | An unversioned wallet whose name looks versioned shares its key with another wallet |
| Shares.PartySession.StoreThenPublish | pkg/mpc/ecdsa/keygen.go:93-113 | Share first, key info only after that succeeded, published only after both; with either failing, what was written |
| Shares.PartySession.LoadOldShare | pkg/mpc/core/session.go:371-404 | Which key is read for positive, zero and negative versions |
| Shares.PartySession.InitSigning | pkg/mpc/ecdsa/signing.go:86-130 | `Init` needs key info, enough participants, a quorum of recorded ones and a share of the recorded version, says which is missing first, and loads that share |
| Lifecycle.ActKeepsInv | pkg/mpc/ecdsa/resharing.go:164-191 | Every write of any node keeps key info, shares and history of every wallet in agreement, unless a keygen begins to overwrite that wallet |
| Lifecycle.RunKeepsInv | pkg/mpc/ecdsa/resharing.go:164-191 | So does every history without overlapping operations on one wallet and without a keygen that overwrites it |
| Lifecycle.LifecycleAgreement | pkg/mpc/node.go:300-369 | After keygen and k reshares, no keygen among them overwriting the wallet, key info has version 1+k and the latest committee, and every member holds a share generated under exactly that committee's keys at the key the old-share loader computes |
| LifecycleRequests.LatestRequest | pkg/mpc/ecdsa/resharing.go:164-191 | A settled wallet with a completed operation is as its last request asked: key info names the requested committee and threshold, and every node of that committee can load its share |
| LifecycleRequests.BeginStarts | pkg/mpc/node.go:356-369 | An operation starts with the requested committee and threshold, at version 1 for keygen and one version up for resharing |
| LifecycleRequests.ReshareBeginsIff | pkg/mpc/node.go:278-345 | Exactly when a resharing may begin |
| LifecycleRequests.ReshareCompletes | pkg/mpc/ecdsa/resharing.go:154-222 | A resharing that may begin can run to completion, with the requested committee, threshold and shares one version up |
| LifecycleRequests.KeygenCompletes | pkg/mpc/ecdsa/keygen.go:81-140 | So can a keygen on a wallet without key info, at version 1 |
| LifecycleRequests.AbandonFrees | pkg/mpc/ecdsa/keygen.go:93-113 | An operation that nobody published can be given up, and changes nothing |
| Lifecycle.LifecycleAgreementIff | pkg/mpc/node.go:92-95 | From any start and for any wallet: key info, shares and history agree in every history if and only if no keygen may overwrite the wallet after a failed lookup |
| Lifecycle.KeygenResets | pkg/mpc/node.go:92-95 | Any history can go on with such a keygen, which resets the version to 1 |
| Lifecycle.WindowAgreement | pkg/mpc/ecdsa/resharing.go:164-191 | Between the first publication of an operation and its completion, key info is that of the operation and every member done computing holds its new share |
| Lifecycle.SigningFindsShare | pkg/mpc/ecdsa/signing.go:91-126 | Every signing session that a member done with its share can create finds that share; it is for this party and covers all parties of the session if and only if the version lookup gave the recorded version |
| BackupFile.ParseInvertsFrame | pkg/kvstore/badger_backup.go:216-249 | Parsing accepts exactly the frames and returns what was framed, for every metadata length below 2^32 |
| BackupFile.FrameForm | pkg/kvstore/badger_backup.go:110-134 | The file, part by part: magic, big-endian length, metadata, ciphertext |
| BackupFile.HeaderPrefixRefused | pkg/kvstore/badger_backup.go:223-240 | Every strict prefix of a header is refused |
| BackupFile.LoadsIffWhole | pkg/kvstore/badger_backup.go:216-260 | A file cut at any point loads if and only if nothing is missing |
| BackupFile.PadOrder | pkg/kvstore/badger_backup.go:79-82 | Zero-padded numbers of one width sort as numbers |
| BackupFile.StampOrder | pkg/kvstore/badger_backup.go:79-82 | Time stamps sort as times, and are equal only for equal times |
| BackupFile.StampForm | pkg/kvstore/badger_backup.go:81 | The time stamp, field by field |
| BackupFile.ClockOrder | pkg/kvstore/badger_backup.go:81 | Stamps are in calendar order, from year to second |
| BackupFile.NameForm | pkg/kvstore/badger_backup.go:81-82 | The file name, part by part; it is one that restoring looks for |
| BackupFile.NameOrder | pkg/kvstore/badger_backup.go:177-181 | File names of one node sort by time, and within one second by the decimal version with its extension |
| BackupFile.VersionOrderIff | pkg/kvstore/badger_backup.go:79-82 | Within one second, a lower version sorts first if and only if it is at most the higher one cut to as many digits |
| BackupFile.NamesFollowVersions | pkg/kvstore/badger_backup.go:177-181 | With one file per time stamp and versions rising with the stamps, names sort as versions |
| BackupFile.ClockShape | pkg/kvstore/badger_backup.go:81 | The stamps of calendar times have the one shape and width that these orders need |
| BackupFile.NameInjective | pkg/kvstore/badger_backup.go:79-82 | A name is taken again only by the same version in the same second |
| BackupFile.SameSecondOrder | pkg/kvstore/badger_backup.go:177-181 | Within one second, version 10 sorts before version 9 |
| Backup.Executor.Execute | pkg/kvstore/badger_backup.go:72-142 | The method takes exactly the protocol's skip, tear or write step, or none when the file cannot be created |
| Backup.BackupEffect | pkg/kvstore/badger_backup.go:90-142 | What a whole and a torn backup write, and how a saved one moves version and watermark on |
| Backup.BackupPossible | pkg/kvstore/badger_backup.go:84-93 | With anything newer than the watermark there is something to back up |
| Backup.SkipIff | pkg/kvstore/badger_backup.go:90-93 | A backup is skipped exactly when there is nothing to back up |
| Backup.CommitLive | pkg/kvstore/badger_backup.go:84-88 | A commit gives the written keys their new values, deletions included, and leaves the others |
| Backup.RestoreAll | pkg/kvstore/badger_backup.go:183-214 | The loop loads file after file and gives up at the first that fails |
| Backup.LoadsIffComplete | pkg/kvstore/badger_backup.go:183-214 | Restoring succeeds if and only if every listed file is complete |
| Backup.LoadedUnion | pkg/kvstore/badger_backup.go:183-214 | What is restored is the union of the files' records, whatever the order and overlap |
| Backup.RunKeepsInv | pkg/kvstore/badger_backup.go:72-142 | Over every run of commits, backups, skips, torn files and failed version writes, the watermark invariant holds |
| Backup.SavedWatermarkCovered | pkg/kvstore/badger_backup.go:144-175 | In every run, complete files hold the newest record of every key as of the saved watermark |
| Backup.CoveredIffReached | pkg/kvstore/badger_backup.go:72-142 | They hold everything as of the last whole backup if and only if one of them reaches its watermark |
| Backup.RestoreCorrect | pkg/kvstore/badger_backup.go:183-214 | In every run, restoring all complete files in any order gives the live map of the source at the last whole backup, given that a file still reaches it; the condition is exact for the records restored |
| Backup.BackupThenRestore | pkg/kvstore/badger_backup.go:72-214 | Right after a whole backup, in any run, restoring gives the current contents of the source under every key |
| Backup.FreshTearsReach | pkg/kvstore/badger_backup.go:72-142 | A run in which no torn file takes the name of an earlier file keeps the last watermark within reach |
| Backup.DistinctStampsAreFresh | pkg/kvstore/badger_backup.go:79-82 | Distinct time stamps are enough for that |
| Backup.TornOverWhole | pkg/kvstore/badger_backup.go:110-140 | A run that loses a whole file to a torn one of its name |
| Bridge.ResultKeyInjectiveIff | pkg/eventconsumer/event.go:854-871 | For session ids without ':', exactly which requests share a message id |
| Bridge.ResultKeyIff | pkg/eventconsumer/event.go:854-871 | For all session ids, those of clients included, exactly which requests share a message id |
| Bridge.StepKeepsInv | pkg/eventconsumer/event.go:366-582 | Every step of consumers and handlers keeps the delivery, thread and queue invariant |
| Bridge.RunKeepsInv | pkg/eventconsumer/signing.go:140-244 | So does every run |
| Bridge.AckedHasResult | pkg/eventconsumer/keygen.go:124-219 | Over every run, an acknowledged keygen or signing delivery has a result filed under its message id |
| Bridge.AtMostOneResult | pkg/mpc/ecdsa/signing.go:159-189 | However many nodes answer, by success or error, at most one result per delivery enters the queue |
| Answers.EffectsAre | pkg/eventconsumer/event.go:162-813 | What each way does: one result and then a reply, a reply only, or nothing |
| Answers.ResultKeyForms | pkg/eventconsumer/event.go:854-875 | The message ids, spelled out |
| Answers.FinishedIsAnswered | pkg/eventconsumer/event.go:162-582 | Over every run, once a thread on an answering way is done, a result stands under the message id of its event, its reply is out, and a delivery that waits for it can be acknowledged |
| Answers.AnswerCompletes | pkg/eventconsumer/signing.go:187-215 | A handler on an answering way can bring a waiting delivery to its acknowledgement and one result |
| Answers.RequestCompletes | pkg/eventconsumer/signing.go:140-216 | Any new request can be fetched, forwarded, answered and acknowledged |
| Answers.RejectionCompletes | pkg/eventconsumer/keygen.go:124-145 | A fetched request can be rejected and acknowledged, with a result under its own message id |
| Answers.NakReleases | pkg/eventconsumer/keygen.go:150-192 | Until it is settled, a delivery can be given back, which changes nothing else |
| Outcomes.RejectedOwnsIff | pkg/eventconsumer/keygen.go:195-219 | A rejected request leaves a result of its own if and only if its rejection was the first use of its message id |
| Outcomes.OneContenderFiles | pkg/eventconsumer/signing.go:218-245 | Of all rejections and events that may use the message id of a rejected request, exactly one has filed under it |
| Outcomes.OneOfTwoRejections | pkg/eventconsumer/keygen.go:195-219 | Of two rejected requests with one message id that nobody else may use, exactly one leaves a result |
| Outcomes.ForwardedOwnsIff | pkg/eventconsumer/signing.go:140-266 | An acknowledged forwarded keygen or signing request has a result from its own event if and only if no rejection was first to use its message id |
| Outcomes.ForwardedHasOwnResult | pkg/eventconsumer/signing.go:258-266 | So it has one if no rejected request of its kind joins base and session id to the same string |
| Outcomes.SuppressedRejection | pkg/eventconsumer/keygen.go:195-219 | A run in which one of two rejected requests leaves none |
| ResharingOutcomes.RunKeepsPaths | pkg/eventconsumer/event.go:593-763 | Over every run, what the handlers of each resharing event have enqueued and answered fits the ways they take |
| ResharingOutcomes.ResharingResultIff | pkg/eventconsumer/event.go:653-763 | A forwarded resharing request that is acknowledged has a result in every run, whatever other requests do, if and only if none of its own handlers is outside both committees or an old member only |
| ResharingOutcomes.RejectedHasResult | pkg/eventconsumer/resharing.go:145-166 | A rejected request that is acknowledged always has a result |
| ResharingOutcomes.ResharingOneResultIff | pkg/eventconsumer/event.go:719-813 | It leaves at most one in every run if and only if its own handlers do not both fail and succeed, or file both under one id, or the request has no session id |
| ResharingOutcomes.AckWithoutResult | pkg/eventconsumer/event.go:653-657 | For every event and each quiet way, a run that acknowledges a request with the queue empty |
| ResharingOutcomes.TwoResults | pkg/eventconsumer/event.go:719-763 | For every event, wallet and other session id, a run that leaves two results |
| EventHandlers.EventConsumer.HandleKeyGenEvent | pkg/eventconsumer/event.go:162-282 | Exactly which outcome takes which way; every way but one enqueues one result under the wallet and then replies |
| EventHandlers.EventConsumer.HandleSigningEvent | pkg/eventconsumer/event.go:366-513 | Exactly which requests take which way: which start a session, which get an error result and a reply, which are dropped in silence |
| EventHandlers.EventConsumer.Sign | pkg/mpc/ecdsa/signing.go:132-192 | A signature that verifies and is enqueued under the transaction is then answered; a bad one or a failed enqueue goes to the error channel and answers nothing |
| EventHandlers.EventConsumer.HandleResharingEvent | pkg/eventconsumer/event.go:593-763 | Exactly which inputs take which way; failures are filed under the wallet, successes of new members under the session id of the request, and nodes outside both committees and leaving members reply only |
| EventHandlers.InterleavingIff | pkg/eventconsumer/event.go:162-813 | Handlers and watchers of all nodes at work on one event: in no interleaving, at no point, are there more replies than results, if and only if none takes one of the two quiet ways |
| Consumer.ElapsedAtLeast | pkg/eventconsumer/keygen.go:169-189 | Silent polls use up the time they must |
| Consumer.NoReply | pkg/eventconsumer/keygen.go:169-192 | After silent polls, a passed deadline or a receive error rules out a reply |
| Consumer.SteadyElapsed | pkg/eventconsumer/resharing.go:115-142 | The poll bounds of 60 and 120 are reached by a request nobody answers |
| Consumer.EventConsumer.HandleKeygenEvent | pkg/eventconsumer/keygen.go:124-193 | One settlement on every path; Ack exactly after an own result or a reply in time; at most 60 polls |
| Consumer.EventConsumer.HandleSigningEvent | pkg/eventconsumer/signing.go:140-216 | The same for signing |
| Consumer.EventConsumer.HandleResharingEvent | pkg/eventconsumer/resharing.go:80-143 | The same for resharing, with at most 120 polls |
| Consumer.EventConsumer.PollForReply | pkg/eventconsumer/signing.go:187-215 | The select loop settles once: Ack if and only if a reply comes in time after nothing but timeouts |
| SessionManager.SessionIDsCollideIff | pkg/session/manager.go:12-14 | Exactly which requests share a session id |
| SessionManager.SessionIDCollision | pkg/session/manager.go:12-14 | Two different requests with one session id |
| SessionManager.SurvivesAdd | pkg/session/manager.go:36-43 | What an add changes in the set of surviving ids |
| SessionManager.SurvivesCleanup | pkg/session/manager.go:87-105 | What a cleanup changes in it |
| SessionManager.Manager.AddSession | pkg/session/manager.go:36-43 | The map gains or renews one id, and still holds exactly the ids whose latest add survived every later cleanup |
| SessionManager.Manager.HasSession | pkg/session/manager.go:46-59 | Answers whether the id survives in the history |
| SessionManager.Manager.CleanupStaleSessions | pkg/session/manager.go:87-105 | Exactly the stale ids go, the others keep their times, and the map still agrees with the history |
| SessionManager.PresenceByAge | pkg/session/manager.go:87-105 | At non-decreasing times, an id is present while its age is within the timeout and absent after the first cleanup past it |

## Left out

- The rounds of the threshold protocols, curve arithmetic, X25519, HKDF, AES-GCM, Ed25519, JSON and base64: library code, used by contract.
- Fabric.Fabric.HandleTssMessage: messages with addressees only; broadcasts and their signatures go over another topic with one fixed subscription.
- Fabric.Fabric.Invoke: handlers run one after the other within the send; in the code each runs in a goroutine of its own, so updates of different sends may come in another order.
- Failing decoders inside message handling (`GetMsgRound`, JSON): they report an error and change no session.
- Process restarts with fresh ephemeral keys, and replay of old key-exchange broadcasts: marked as open in the code (pkg/mpc/key_exchange_session.go:99).
- Health checks, connection callbacks, re-triggered exchanges and log output: beyond the store listing, which every tick takes as an arbitrary input, and broadcasts, which the cluster model allows at any time, they change none of the modelled state.
- Overlapping operations on one wallet and curve: nothing in the code orders them, so `Lifecycle.Act` starts an operation only when none is underway.
- A version lookup that fails while resharing sessions are created: `Lifecycle.Act` begins a resharing from the recorded version.
- Lifecycle.WindowAgreement: nothing is claimed for members still computing; an abandoned earlier attempt may have left them a share of the same version.
- Lifecycle.LifecycleAgreement: committees name plain ids without repeats; the code checks neither for the ids of a resharing request. A wallet from before versions existed must not have a name ending like a versioned one, by `Shares.LegacyCollision`.
- Exclusivity of `HasSession` and `AddSession` across concurrent handlers: they are separate calls.
- The outcome of a keygen whose sessions end at the 30-second deadline: a race between the timeout and the two contexts.
- Fabric.Fabric.SendToOther: one delivery for each send; its retries after a lost acknowledgement could deliver a message twice.
- Readiness.Apply: a waiting writer does not hold up new readers, as it would under Go's RWMutex; this only adds runs.
- Node.QuorumCarriesThrough: the intersection in `Init` is taken as a set, so a participant recorded twice is out of its scope.
- GoStrings.TrimSpace: white space is recognised by its UTF-8 encoding; how invalid encodings at the ends are decoded is not modelled.
- Enqueue, publish and reply operations of the bridge do not fail. With a failing enqueue the code replies all the same, and the delivery is acknowledged without a result.
- Bridge.AtMostOneResult: the deduplication window of the queue is taken as unbounded, and a redelivered request counts as a new delivery.
- Consumer.EventConsumer.PollForReply: the context counts as done from the deadline on, and a poll without error has a message, as NATS promises.
- The semaphores and channels of the event workers, and the consumers' wait for peers before subscribing: they delay handlers and change no result.
- A half-written `latest.version`, and a backup file that is named by another process.
- Backup.Executor.Execute: the files' bytes are not part of the protocol state; `BackupFile.LoadsIffWhole` is the link between a file that was cut and one that does not load.
- The bound on the threshold in the repository's README: no code enforces it.
- Command line, configuration, prompts, key management, local signers, migrations, benchmarks and examples.
