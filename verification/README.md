# Chat backend: a model of its shared state

A Dafny model of the state that the chat backend's processes share, and proofs about every
interleaving of the steps that change it. `dafny verify dfyconfig.toml` checks the project.

One step is one Redis pipeline or script, one database call, or the code between two `await`s;
anything else may happen between two steps. Each area has a specification on values (a state, labelled
steps, lemmas over runs of any length) and, where the source updates something in place, a class whose
methods make exactly those steps.

**Dispatcher** (`Dispatcher`, `DispatcherInvariants`, `DispatcherTheorems`, `DispatcherDeadlock`,
`DispatcherLosses`, `DispatcherStarvation`, `DispatcherShutdown`, `DispatcherCompletion`,
`KafkaConsumer`). One consume loop puts each record into its conversation's bounded queue; one worker
per conversation takes from it under a semaphore; a sentinel after `chat_end` ends the worker. The loop
blocked in a `put` keeps the queue it was given, even when that queue's worker has exited and the
dictionaries have moved on. A worker's own put of the sentinel can block. Shutdown steps are part of the
model. The proofs: one live worker for a conversation, order without duplicates, an exact account of
what is lost and by which step, what a stuck state looks like, how a shutdown can end, and that every
run is finite; and a condition on the input under which everything is dispatched. Messages that land
behind a sentinel are lost, a `chat_end` that returns while its queue is full blocks its worker for
good, and idle workers can starve the next one; these follow from the code and are proved with reachable
states, not excluded.

**Agent routing** (`SortedSets`, `RedisSets`, `Skills`, `AgentRouting`, `AgentService`, `AgentRouter`,
`Composition`). The sorted set of agents by load, the routing script's scan, agent lifecycle with TTL
expiry as a step of the environment, and a release that reads first and commits later. The scan is
proved equal to a declared choice. Accounting is exact if and only if each command meets a condition
that can be checked before it. Of routes in a row exactly as many succeed as slots are free.
`Composition` runs the router under the dispatcher's steps and derives from the dispatcher's single
worker that the two-step release is as good as an atomic one.

**Online chats** (`OnlineTracking`, `OnlineLifecycle`, `OnlineChatTracker`, `TrackerComposition`). A
hash per chat and four indexes, in two levels: what survives every interleaving, a removal on an
outdated read included, and what needs a lifecycle discipline, stated as an if-and-only-if. Then the
paged listing, and the two-step removal under the dispatcher's and the gateway's steps.

**Persistence and its readers** (`Persistence`, `StoredLog`, `Retry`, `PersistenceWorker`, `Redelivery`,
`FailingRedelivery`, `History`, `ConversationList`). Handlers are lists of cell upserts and counter
additions; the retry loop runs them against an arbitrary pattern of failures; redelivery sends the
consumer back any number of times, with or without failures. The history endpoint is tied back to the
log of payloads; the conversation list is proved a true top-limit of the union of the bots' rows.

**Timed bounds** (`RateLimiting`, `ConnectionLiveness`, `WebsocketManager`). Expiry arithmetic over
whole runs: the rate limiter's fixed window, and the registry keys behind the gateway's connections.

`Options` and `Listings` (listing a finite set in a strict total order) serve the others.

Where the code and its documentation differ, the model follows the code:

- the rate limiter calls itself a sliding window (`shared/cache/rate_limiter.py:2`); it is a fixed one
  that starts at the first request, so a minute can admit twice the limit; `RateLimiting.OneLimitExactly`
  says for which requests it does not admit more than one;
- the conversation list accepts a `status` filter (`api/routers/conversations.py:31`) that its body
  never uses: an observation only, with no counterpart in the model, whose endpoint takes no status;
- the history endpoint documents today's bucket as its default (`api/routers/conversations.py:114`);
  it scans seven days;
- the limit of a page of online chats is none if it is 0 at offset 0, which is the whole list, or
  negative, which at an early offset is all chats but so many: Redis reads a negative index from the end
  (`shared/cache/online_chat_tracker.py:127-133`), and the endpoint takes any integer
  (`gateway/main.py:84-85`);
- routing is documented as preventing double assignment (`shared/cache/agent_router.py:126`); a second
  transfer of an active conversation does take a second slot.

Assumptions: one consumer process; every payload is a JSON object; `event.conversation_id` is the Kafka
key; Redis is reachable, except where the rate limiter lets requests pass; the clocks of the gateway and
of Redis run at the same rate. Whether Redis still serves a key at the very instant it expires is a
parameter of the rate limiter; the connection registry takes it to be gone, the worse case there. Times
are integers or reals; the UTC day number stands for the YYYYMMDD bucket, which orders and distinguishes
days in the same way.

## Model

| member | source | states |
|---|---|---|
| `DispatcherInvariants.InvStep` | consumer/kafka_consumer.py:41-139 | every step of the loop, a worker or the shutdown keeps: the two dictionaries name exactly the live workers, permits and holders add up to 10 000, no queue is over-full, queues are in input order across incarnations, and every accepted payload is somewhere |
| `DispatcherInvariants.InvReachable` | consumer/kafka_consumer.py:20-139 | these hold in every reachable state |
| `DispatcherTheorems.OneWorker` | consumer/kafka_consumer.py:18-21 | at most one live worker for a conversation at any time, and both dictionaries hold exactly the live ones |
| `DispatcherTheorems.FifoPerConversation` | consumer/kafka_consumer.py:41-69 | over all incarnations of its worker, a conversation's dispatched payloads are strictly increasing accepted records: in order, none twice |
| `DispatcherTheorems.Conservation` | consumer/kafka_consumer.py:47-139 | every accepted payload is dispatched, pending, or doomed (behind a sentinel, about to be put behind one, or held by the cancelled loop), and only one of these |
| `DispatcherTheorems.DoomedForever` | consumer/kafka_consumer.py:64-65 | a doomed payload is never dispatched by any continuation, also not by a later worker of its conversation |
| `DispatcherLosses.LossArises` | consumer/kafka_consumer.py:83-88 | a step dooms a payload if and only if it accepts it while its conversation's queue already holds a sentinel, or the loop is blocked with it and either the chat_end handler of that queue returns with room for its sentinel or the loop is cancelled |
| `DispatcherLosses.LossHappens` | consumer/kafka_consumer.py:139 | it happens: a chat_end and one later record of its conversation reach a state with that record doomed |
| `DispatcherTheorems.ExitDrains` | consumer/kafka_consumer.py:47-65 | when a worker takes its sentinel, all ahead of it has been dispatched, both entries are gone, the permit is back, and exactly what is behind it is lost |
| `DispatcherTheorems.QuietEnd` | consumer/kafka_consumer.py:83-88 | if the queue is empty and nothing more arrives for the conversation, its exited worker has dispatched everything it was given and left no entry |
| `DispatcherTheorems.Bounds` | consumer/kafka_consumer.py:23-26 | in every reachable state at most 100 items wait in a queue and at most 10,000 workers hold a permit, and a waiting worker can start if and only if fewer do |
| `DispatcherTheorems.AcceptBlocks` | consumer/kafka_consumer.py:127-139 | a record blocks the loop if and only if its conversation has a queue in which 100 items wait; else it is the last of that queue, or the only one of a new one |
| `DispatcherTheorems.TakeDoes` | consumer/kafka_consumer.py:47-65 | a taken payload is begun on; the sentinel ends the worker, gives back its permit and clears its conversation from both dictionaries; no other worker is touched |
| `DispatcherTheorems.FinishDoes` | consumer/kafka_consumer.py:53-88 | when a handler ends its worker goes on; only after a chat_end that returned does it put a sentinel at the end of its queue, or wait to if 100 items wait there |
| `DispatcherDeadlock.Deadlock` | consumer/kafka_consumer.py:24-26 | in a stuck state outside shutdown, every pending payload waits on a worker that is putting its sentinel into its own full queue or is starved of permits all held by empty-queued or self-blocked workers, and a loop with work left is blocked on such a worker's queue |
| `DispatcherDeadlock.OtherwiseComplete` | consumer/kafka_consumer.py:94-139 | without such workers a stuck state has accepted the whole input and dispatched all of it that is not doomed |
| `DispatcherCompletion.EverythingDispatched` | consumer/kafka_consumer.py:94-139 | from the input alone: if no record of a conversation follows a chat_end of it and there are at most 10 000 conversations, every maximal run outside shutdown has accepted and dispatched every payload |
| `DispatcherDeadlock.SelfBlockArises` | consumer/kafka_consumer.py:83-88 | a step makes a worker block itself if and only if it is the return of its chat_end handler with its own queue full |
| `DispatcherDeadlock.SentinelPutNeverResumes` | consumer/kafka_consumer.py:86-88 | the step that would complete a worker's blocked put of its sentinel is never enabled |
| `DispatcherDeadlock.SelfBlockedForever` | consumer/kafka_consumer.py:86-88 | such a worker and its queue stay as they are in every continuation, shutdown included |
| `DispatcherDeadlock.StarvedIsStuck` | consumer/kafka_consumer.py:94-97 | while the loop waits on a starved worker's queue nothing at all moves, for the idle workers that hold the permits could only be ended through the loop |
| `DispatcherDeadlock.WholeLoopStalls` | consumer/kafka_consumer.py:139 | once the loop waits on the queue of a self-blocked or a starved worker, no record of any conversation is accepted until it is cancelled |
| `DispatcherDeadlock.SelfBlockHappens` | consumer/kafka_consumer.py:24-26 | it happens: a chat_end with 101 later records of its conversation reaches that state |
| `DispatcherStarvation.StarvedHappens` | consumer/kafka_consumer.py:94-97 | so does the other cause: once 10 000 conversations have been served and not ended, the next one's worker is starved, its payload pending, and without further input the state is stuck |
| `DispatcherDeadlock.RunsAreFinite` | consumer/kafka_consumer.py:100-139 | outside shutdown a run has at most seven steps for a record, so every maximal run ends stuck |
| `DispatcherShutdown.StopOkStep` | consumer/kafka_consumer.py:180-182 | every step keeps: the sentinels a shutdown still has to put go to different queues with room under exited workers, and every other live worker has a sentinel in its queue |
| `DispatcherShutdown.ShutdownEnd` | consumer/kafka_consumer.py:169-185 | when no step at all is enabled, shutdown included, the loop has been cancelled and either every sentinel has been put and every worker has exited, or a self-blocked or starved worker holds the shutdown up |
| `DispatcherShutdown.AllRunsAreFinite` | consumer/kafka_consumer.py:169-185 | with shutdown a run has at most nine steps for a record and two more |
| `KafkaConsumer.Consumer.Append` | consumer/kafka_consumer.py:139 | a put with room adds at the end of that queue alone |
| `KafkaConsumer.Consumer.Pop` | consumer/kafka_consumer.py:48 | a get takes the oldest item of that queue alone |
| `KafkaConsumer.Consumer.StartHandler` | consumer/kafka_consumer.py:54-55 | the payload is logged as dispatched and its worker is inside its handler |
| `KafkaConsumer.Consumer.EndWorker` | consumer/kafka_consumer.py:63-65 | both entries go, and the permit comes back |
| `KafkaConsumer.Consumer.SkipRecord` | consumer/kafka_consumer.py:106-111 | a record without key or value, or undecodable, is passed over and changes nothing else |
| `KafkaConsumer.Consumer.FindOrCreateQueue` | consumer/kafka_consumer.py:127-137 | creates queue and worker together, only for a conversation that has none |
| `KafkaConsumer.Consumer.AcceptRecord` | consumer/kafka_consumer.py:119-139 | reading a record is the protocol's accept step |
| `KafkaConsumer.Consumer.PutRecord` | consumer/kafka_consumer.py:139 | puts the record at the end, or, where 100 items wait, blocks holding the reference of the full queue |
| `KafkaConsumer.Consumer.ResumePut` | consumer/kafka_consumer.py:139 | the blocked put completes into the queue it held, whatever the dictionaries now say |
| `KafkaConsumer.Consumer.AcquirePermit` | consumer/kafka_consumer.py:94-97 | a worker starts by taking one permit |
| `KafkaConsumer.Consumer.GetItem` | consumer/kafka_consumer.py:47-65 | takes the oldest item; a payload goes to its handler, the sentinel ends the worker, clears both entries and gives back the permit |
| `KafkaConsumer.Consumer.HandlerDone` | consumer/kafka_consumer.py:53-88 | after the handler, raised or not, the worker goes on; only a chat_end that returned puts the sentinel, and blocks on a full queue |
| `KafkaConsumer.Consumer.ResumeSentinel` | consumer/kafka_consumer.py:86-88 | would complete a blocked put of the sentinel; no valid state enables it |
| `KafkaConsumer.Consumer.CancelLoop` | consumer/kafka_consumer.py:172-178 | cancelling the loop drops the payload of a blocked put and nothing else |
| `KafkaConsumer.Consumer.SnapshotQueues` | consumer/kafka_consumer.py:181 | the shutdown fixes the list of queues it will send sentinels to, each current queue once |
| `KafkaConsumer.Consumer.PutStopSentinel` | consumer/kafka_consumer.py:181-182 | puts a sentinel into the next listed queue |
| `Skills.Split` | shared/cache/agent_router.py:194 | splitting never gives an empty list and never leaves a comma in an element |
| `Skills.RoundTrip` | shared/cache/agent_router.py:95 | the stored skills read back as the list given if and only if it is non-empty and comma-free |
| `Skills.JoinSplit` | shared/cache/agent_router.py:194 | joining undoes splitting for every stored text |
| `Skills.SearchIsListSearch` | shared/cache/agent_router.py:42-47 | for every stored text and every required skill, commas or not, the search succeeds if and only if the pieces of the skill occur side by side among the pieces of the text; required skills without Lua pattern characters |
| `Skills.SearchMatchesReadBack` | shared/cache/agent_router.py:42-47 | for a comma-free required skill the search agrees with what the dashboard reads back, whatever is stored; required skills without Lua pattern characters |
| `Skills.SearchFindsPieces` | shared/cache/agent_router.py:95 | against the list given: a skill is found if and only if its pieces occur side by side among the pieces of the list's skills; required skills without Lua pattern characters |
| `Skills.SearchExact` | shared/cache/agent_router.py:42-47 | the search is membership for every comma-free required skill if and only if each non-empty comma-separated piece of a stored skill is itself in the list; required skills without Lua pattern characters |
| `Skills.SearchIsMembership` | shared/cache/agent_router.py:42-47 | so with comma-free skills throughout it is membership; required skills without Lua pattern characters |
| `Skills.SearchFindsStretches` | shared/cache/agent_router.py:42-47 | what is found are the stretches of pieces, joined; required skills without Lua pattern characters |
| `Skills.SearchExactForAll` | shared/cache/agent_router.py:42-47 | the search is membership for every required skill if and only if each stretch of pieces, joined, is in the list; for a comma-free list, if and only if it has at most one skill; required skills without Lua pattern characters |
| `Skills.CommaBreaksSearch` | shared/cache/agent_router.py:42-47 | two families of failures: the list [a + "," + b] is found to have a, and the list [a, b] to have a + "," + b; required skills without Lua pattern characters |
| `AgentRouting.Choice` | shared/cache/agent_router.py:24-60 | the choice is the least (score, id) among pooled agents with score at least 0 that are online, below capacity and skilled; there is none exactly when nobody is eligible |
| `AgentRouting.BestUnique` | shared/cache/agent_router.py:24-60 | the declared choice is unique |
| `AgentService.AnyoneServes` | shared/cache/agent_router.py:24-60 | without a required skill an agent is found if and only if somebody in the pool is online with a score from 0 up to below its limit, 5 where none is stored |
| `AgentService.SkilledServes` | shared/cache/agent_router.py:41-47 | with a comma-free one, if and only if such an agent has it in its stored list; required skills without Lua pattern characters |
| `AgentService.LeastLoadedServes` | shared/cache/agent_router.py:24 | the agent found is the least loaded of them, of equally loaded ones the least in byte order |
| `AgentService.RouteDoes` | shared/cache/agent_router.py:29-60 | the agent found gets one slot more and the chat, the chat that agent; dropped are offline agents with a score of at least 0 that come before it, or all if nobody is found; everything else stays |
| `AgentService.AllSlotsServe` | shared/cache/agent_router.py:37-55 | from every state, of any routes in a row exactly the first as many find an agent as slots are free, summed over the pool |
| `AgentService.LoginServesLimit` | shared/cache/agent_router.py:83-98 | so an agent that logs in with limit n serves n chats and not one more |
| `AgentService.LastOneCounts` | shared/cache/agent_router.py:83-114 | after any commands an agent is online if and only if the last login, heartbeat, logout or expiry of it is one of the first two, and limit and skills are those of its last login |
| `AgentService.LifecycleLeaves` | shared/cache/agent_router.py:101-114 | only a login and a logout touch the pool, and none of these commands a chat |
| `AgentService.ReleaseDoes` | shared/cache/agent_router.py:155-168 | a release takes one slot from the agent of the active entry, in the pool or not, the chat from that agent's set, and the entry; without an entry nothing changes |
| `AgentRouting.CapacityStep` | shared/cache/agent_router.py:37-51 | a command keeps every pooled score within its limit if and only if it is not a login with a negative limit |
| `AgentRouting.CapacityNeverExceeded` | shared/cache/agent_router.py:37-51 | over every interleaving of logins, logouts, expiries, routes, repeated routes and split or doubled releases no score exceeds its limit |
| `AgentRouting.ExactStep` | shared/cache/agent_router.py:83-168 | from exact accounts a command leads to exact accounts if and only if it is allowed: no login, logout or expiry of an agent holding chats, no route of an active conversation, no commit of an outdated read |
| `AgentRouting.ExactRun` | shared/cache/agent_router.py:83-168 | accounts stay exact over every disciplined run |
| `AgentRouting.AllowedExactly` | shared/cache/agent_router.py:83-168 | the discipline by what it prevents: from exact accounts, no disciplined continuation after a command makes scores, chat sets and entries disagree or leaves a chat that cannot be released, if and only if the command is allowed; an expired agent, say, is dropped by a later route and comes back at -1 with a release |
| `AgentRouting.SlotConservation` | shared/cache/agent_router.py:51-53 | after every disciplined run a pooled agent's score is the size of its chat set and the number of active entries naming it, chat sets are disjoint, each active chat is in its agent's, and if no login sets a negative limit active chats number at most the sum of the limits |
| `AgentRouter.Router.RouteToAgent` | shared/cache/agent_router.py:23-61 | the early-exit scan returns the declared choice, assigns exactly that agent, and drops from the pool exactly the offline members before it, or all offline ones if there is no choice |
| `AgentRouter.Router.AssignAgent` | shared/cache/agent_router.py:51-53 | one slot, one chat, one active entry |
| `AgentRouter.Router.RemoveFromPool` | shared/cache/agent_router.py:35 | drops one member and leaves the rest |
| `AgentRouter.Router.AgentGoOnline` | shared/cache/agent_router.py:83-98 | resets the score to 0 and leaves chat sets and active entries alone |
| `AgentRouter.Router.AgentHeartbeat` | shared/cache/agent_router.py:101-104 | renews the status and does not put the agent back into the pool |
| `AgentRouter.Router.AgentGoOffline` | shared/cache/agent_router.py:107-114 | leaves pool and status, keeps chats and meta |
| `AgentRouter.Router.StatusExpires` | shared/cache/agent_router.py:91 | the 30 s key can vanish at any time and takes only the status with it |
| `AgentRouter.Router.ReadHolder` | shared/cache/agent_router.py:160-162 | the agent of the conversation's active entry, an empty id counting as none |
| `AgentRouter.Router.CommitRelease` | shared/cache/agent_router.py:164-168 | decrements the agent that was read, recreating it at -1 if it left the pool |
| `AgentRouter.Router.ReleaseAgentSlot` | shared/cache/agent_router.py:155-168 | read and commit with nothing between are the atomic release |
| `Composition.InvStep` | consumer/handlers/chat_end.py:21 | every step of the whole system keeps: an uncommitted read belongs to a worker inside its chat_end handler, for its own conversation, and is still true |
| `Composition.HandlersAct` | consumer/handlers/transfer_to_agent.py:23 | what a handler does to the router is for the conversation of the record it handles: a transfer routes it without a skill, a chat_end reads its agent, the commit is on what was read |
| `Composition.HandlerWaits` | consumer/handlers/chat_end.py:21-22 | a chat_end handler ends only when its release has committed or raised, if it read an agent |
| `Composition.ReleaseRuns` | shared/cache/agent_router.py:160-168 | a release is read once; committed at once it is the atomic release, raised it changes nothing |
| `Composition.ReleaseRefinesAtomic` | shared/cache/agent_router.py:155-172 | over every interleaving with routes, other releases, lifecycle and dispatcher steps, the router's state is that of a run in which every release is one step |
| `Composition.AtomicBalance` | shared/cache/agent_router.py:155-168 | in a run of atomic releases, activations equal decrements plus one if the conversation is active |
| `Composition.EachRouteReleasedAtMostOnce` | consumer/handlers/transfer_to_agent.py:23 | in every run of the whole system, a conversation's activating routes are its decrements plus one if it is active now |
| `Composition.SystemSlots` | consumer/handlers/chat_end.py:21-22 | slot conservation, disjoint chat sets and the bound by the sum of limits included, for the dispatcher and the router together, with split releases |
| `Composition.UnserialisedReleases` | shared/cache/agent_router.py:160-168 | without the single worker it fails: two releases that both read first take a score to -1 |
| `TrackerComposition.InvStep` | consumer/handlers/chat_end.py:22 | every step of dispatcher, gateway and tracker keeps: each uncommitted read of a removal is, for user and for agent, still true or left with nothing to remove, and a worker's is by the one inside its conversation's chat_end handler |
| `TrackerComposition.HandlersAct` | consumer/handlers/chat_start.py:40 | what a handler does to the tracker is for the conversation of the record it handles: a chat_start puts it online, a transfer assigns it, a chat_end reads it and removes what was read |
| `TrackerComposition.HandlerWaits` | consumer/handlers/chat_end.py:22 | a chat_end handler ends only when its removal has committed or raised, if it read a record |
| `TrackerComposition.RemovalRuns` | consumer/handlers/chat_end.py:22 | a removal is read once; committed at once it is the atomic one, raised it changes nothing |
| `TrackerComposition.GatewayRuns` | gateway/websocket_manager.py:69-75 | the same for a disconnect of the gateway, of any chat and at any time, side by side with others |
| `TrackerComposition.MessageActs` | shared/cache/online_chat_tracker.py:77-84 | a message can be stamped whenever its conversation has ever had a worker, inside a handler or after it, and stamps that conversation |
| `TrackerComposition.OfflineRefinesAtomic` | shared/cache/online_chat_tracker.py:87-105 | the tracker's state is that of a run in which every removal is one step, over every interleaving of removals of a chat by its worker and by any number of disconnects, and of messages that outlive their handler; a chat is started or assigned only in agreement with what the gateway removals of it on the way have read |
| `TrackerComposition.RemovalIsOffline` | shared/cache/online_chat_tracker.py:90-105 | whatever it has read, a removal is the atomic one if and only if for user and for agent it read what the hash says, or the hash says nothing and the chat is not in the set it read |
| `TrackerComposition.AllowedExactly` | shared/cache/online_chat_tracker.py:87-105 | that discipline is exact: after any step from a state of a disciplined run, every disciplined continuation is that of atomic removals if and only if the step is allowed |
| `TrackerComposition.SystemIndexes` | consumer/handlers/transfer_to_agent.py:33 | exact inverse indexes for dispatcher, gateway and tracker together in every such run, overlapping split removals included |
| `OnlineTracking.AgreeStep` | shared/cache/online_chat_tracker.py:38-106 | every event, also a removal on an outdated read, keeps the indexes in agreement |
| `OnlineTracking.AgreeAlways` | shared/cache/online_chat_tracker.py:38-106 | under every interleaving the two lists agree, each online chat has a non-empty hash, and a hash naming a user or an agent is in that one's set |
| `OnlineTracking.ExactStep` | shared/cache/online_chat_tracker.py:38-106 | from exact inverse indexes an event leads to exact ones if and only if it is allowed; a removal, if and only if what it read still stands |
| `OnlineTracking.ExactRun` | shared/cache/online_chat_tracker.py:38-106 | over every disciplined run each index is exactly the inverse image of the hashes |
| `OnlineTracking.CleanRemoval` | shared/cache/online_chat_tracker.py:87-115 | after it the id of a chat taken offline occurs nowhere, other hashes are untouched, and the online count was the number of hashes |
| `OnlineTracking.OutdatedReadLeavesStray` | shared/cache/online_chat_tracker.py:90-105 | an assignment between the read and the removal leaves the id in the agent's set |
| `OnlineLifecycle.RecordSince` | shared/cache/online_chat_tracker.py:38-84 | from going online until it is removed or goes online again, whatever else happens: the chat is in both lists and its user's set, with this user, bot, server and start; queued with no agent until assigned, then active with the last one assigned, in whose set it is; last message that of the last one received, in whole seconds |
| `OnlineLifecycle.ListedSince` | shared/cache/online_chat_tracker.py:118-147 | and so it is listed, with that record and no other |
| `OnlineLifecycle.GoneSince` | shared/cache/online_chat_tracker.py:97-105 | once removed, on whatever was read, and until an event of it follows, a chat is in neither list, has no record and is not in the sets of the user and agent read |
| `OnlineLifecycle.OthersUntouched` | shared/cache/online_chat_tracker.py:38-105 | an event of one chat leaves every other where it was in every index |
| `OnlineLifecycle.OfflineReads` | shared/cache/online_chat_tracker.py:90-95 | chat_offline removes on the user and agent of the record, empty where absent, and does nothing without one |
| `OnlineChatTracker.Tracker.ChatOnline` | shared/cache/online_chat_tracker.py:38-60 | writes both lists, the user's set and a whole fresh hash |
| `OnlineChatTracker.Tracker.ChatAssigned` | shared/cache/online_chat_tracker.py:64-73 | sets two fields, creating a hash if there is none, and adds to the agent's set without leaving an earlier one |
| `OnlineChatTracker.Tracker.ChatMessageReceived` | shared/cache/online_chat_tracker.py:77-84 | sets one field, creating a hash if there is none |
| `OnlineChatTracker.Tracker.ReadChat` | shared/cache/online_chat_tracker.py:90-95 | finds exactly the chats with a hash, and their user and agent |
| `OnlineChatTracker.Tracker.RemoveChat` | shared/cache/online_chat_tracker.py:97-105 | removes the id from the lists, the hash, and the sets of the user and agent that were read |
| `OnlineChatTracker.Tracker.ChatOffline` | shared/cache/online_chat_tracker.py:87-105 | read and removal with nothing between |
| `OnlineChatTracker.Tracker.GetOnlineCount` | shared/cache/online_chat_tracker.py:112-115 | the number of online chats, which is also the number listed by time |
| `OnlineChatTracker.Tracker.ReadIds` | shared/cache/online_chat_tracker.py:126-133 | the page's ids, by Redis's index rules |
| `OnlineChatTracker.Tracker.GetAllOnlineChats` | shared/cache/online_chat_tracker.py:118-147 | the page by Redis's index rules of the ids found first, with the hashes the second call finds; a page of the listing if nothing happened in between |
| `OnlineChatTracker.Describe` | shared/cache/online_chat_tracker.py:143-147 | pairs each id with its hash and leaves out ids without one |
| `OnlineChatTracker.ListedIsOnline` | shared/cache/online_chat_tracker.py:118-147 | the whole listing holds every online chat once, with its hash, and skips none |
| `OnlineChatTracker.ListedInTimeOrder` | shared/cache/online_chat_tracker.py:126-133 | the listing follows the times the chats went online, in the direction asked for |
| `OnlineChatTracker.NewestComesFirst` | shared/cache/online_chat_tracker.py:46-49 | a chat that goes online after all others heads the newest-first listing, with its user |
| `OnlineChatTracker.PageIsSlice` | shared/cache/online_chat_tracker.py:126-133 | for every offset and limit, negative ones included, a page is the slice of the whole listing that Redis's index rules give |
| `OnlineChatTracker.PageHolds` | shared/cache/online_chat_tracker.py:126-133 | on the page are exactly the places from the offset to offset + limit - 1, each counted from the end of the listing if negative |
| `OnlineChatTracker.PageAcross` | shared/cache/online_chat_tracker.py:126-147 | a page whose ids are read in one state and whose hashes in another: no chat twice, each online in the first and with its hash in the second, none of the page left out that still has one |
| `OnlineChatTracker.PagesPartition` | shared/cache/online_chat_tracker.py:126-133 | the first n pages of an unchanging state are the first n * limit chats of the listing |
| `OnlineChatTracker.EnoughPages` | shared/cache/online_chat_tracker.py:126-133 | enough pages are the whole listing |
| `OnlineChatTracker.PageLength` | shared/cache/online_chat_tracker.py:126-133 | over all integers, a page keeps within its limit if and only if the limit is positive, or is 0 at an offset other than 0 or with nothing online; limit 0 at offset 0 is the whole list, and a negative limit that takes the last index below 0 lists all chats but so many |
| `Persistence.PersistLogCells` | consumer/persistence_worker.py:37-147 | a log's effect on the cells is one union, later payloads winning |
| `Persistence.PersistLogCount` | consumer/persistence_worker.py:71-76 | a log moves each unread counter by its increments minus its decrements |
| `Persistence.UnreadIsSentLessRead` | consumer/persistence_worker.py:71-135 | a log moves an unread counter by the messages sent to its user less the reads that user acknowledged |
| `Persistence.DayHolds` | consumer/persistence_worker.py:39-40 | the day of a timestamp is the one whose 86,400 s hold it |
| `StoredLog.ConversationIsLog` | consumer/persistence_worker.py:63-69 | after any log a conversation's row says ended if and only if an end was logged, with the time of the last one, and holds time and first 100 characters of the last message |
| `StoredLog.StartIsLog` | consumer/persistence_worker.py:81-102 | after any log a user's inbox has a started conversation as active and unread 0, and the default queue has it at priority 3 with its user, at the time it started; each only if it was started |
| `StoredLog.ReceiptIsLog` | consumer/persistence_worker.py:115-147 | after any log a message's receipt of each kind is by and at the last acknowledgement of that kind, and an assignment's row names the agent assigned last at that time, by the system |
| `Redelivery.RedeliveryHarmless` | consumer/persistence_worker.py:206-224 | however often and far the consumer is sent back, once it is again at its furthest point every cell is as after one pass and each counter is off by the net of what was delivered again |
| `Redelivery.SuffixReplay` | consumer/persistence_worker.py:206-224 | replaying any suffix after the whole log changes no cell and moves each counter by that suffix's net |
| `Retry.HandlersWriteCounterLast` | consumer/persistence_worker.py:42-135 | in every handler only the last write can touch a counter |
| `Retry.AttemptCells` | consumer/persistence_worker.py:163-166 | what a failed attempt leaves behind, a complete one would set again |
| `Retry.AttemptIs` | consumer/persistence_worker.py:163-166 | an attempt makes its writes in order up to the first that raises, which may have been applied, and succeeds if none does |
| `Retry.RetryCount` | consumer/persistence_worker.py:161-181 | for any failures whatever, a counter moves once for each attempt that applied its last write |
| `Retry.RetryEnds` | consumer/persistence_worker.py:161-181 | a payload is handled if and only if some attempt succeeds, is dead-lettered otherwise, and the sleeps telescope to the next delay less the first |
| `Retry.SleepsDouble` | consumer/persistence_worker.py:161-181 | the payload is handled by the first attempt in which every call returns, or dead-lettered after the n-th; before the k-th but one it slept 0.5, 1, 2, ... s |
| `Retry.ApplicationsExact` | consumer/persistence_worker.py:161-181 | the last write is applied as often as the payload is handled if and only if no attempt that was made had all its earlier writes done and its last one applied and raised; otherwise more often |
| `Retry.ExactlyOnceExactly` | consumer/persistence_worker.py:161-181 | under any failures: handled with all cells written if and only if some attempt succeeds, else dead-lettered once; sleeps at most 0.5 * (2^(N-1) - 1) s; and the counter moves once for a handled and not at all for a dead-lettered payload if and only if no reply to a last write was lost or there is no counter to move |
| `Retry.RetryExactlyOnce` | consumer/persistence_worker.py:161-181 | so if raising calls are not applied, a payload is handled with its counter moved once, or dead-lettered once with none moved |
| `Retry.AppliedThenRaisedCountsTwice` | consumer/persistence_worker.py:161-181 | a counter write that raises after it was applied, and is then retried, counts twice |
| `Retry.ReadReceiptWrites` | consumer/persistence_worker.py:112-135 | a read receipt is such a payload |
| `PersistenceWorker.Worker.RunHandler` | consumer/persistence_worker.py:37-147 | the writes in order up to the first that raises, and nothing after it |
| `PersistenceWorker.Worker.ExecuteWithRetry` | consumer/persistence_worker.py:161-181 | the retry loop is the specified function: same store, same sleeps, at most one dead letter, published if the dead-letter topic can be reached |
| `PersistenceWorker.Worker.SendToDlq` | consumer/persistence_worker.py:184-203 | one attempt, no effect on the store; without a producer, or if it raises, the payload is published nowhere |
| `PersistenceWorker.Worker.HandleRecord` | consumer/persistence_worker.py:209-227 | records without known type change nothing; a known payload is dead-lettered if and only if each of three attempts has a call that raises, 0.5 s and 1 s apart; one that lacks a required key sleeps 1.5 s in all and is dead-lettered without a write; a message whose text is null likewise, but with its row stored if any attempt got so far |
| `PersistenceWorker.MalformedIsDead` | consumer/persistence_worker.py:161-181 | a handler that raises before its first write leaves the store as it was and is dead-lettered after all attempts |
| `PersistenceWorker.NullTextIsDead` | consumer/persistence_worker.py:42-64 | a message whose text is null is stored and yet dead-lettered, and never counted |
| `PersistenceWorker.NullRowIs` | consumer/persistence_worker.py:42-61 | the row stored of a message whose text is null is the message's own, with a null content |
| `PersistenceWorker.Worker.ConsumeLoop` | consumer/persistence_worker.py:206-227 | the consume loop over a log is the fold of what each record does |
| `PersistenceWorker.OneMoreRecord` | consumer/persistence_worker.py:209-224 | from right counters, one more record leaves them right if and only if no attempt at it lost the reply to its counter's write |
| `PersistenceWorker.LogExactlyOnce` | consumer/persistence_worker.py:206-224 | at every point of a log the unread counters are the handled messages less the handled reads, if and only if no attempt at any record lost the reply to its counter's write |
| `PersistenceWorker.LossesCanCancel` | consumer/persistence_worker.py:206-224 | at the end of a log alone that can happen by chance: a message and its read receipt, each counted twice |
| `FailingRedelivery.DeliveriesCounted` | consumer/persistence_worker.py:206-224 | with rewinds and failures together: after every delivery the unread counters are the handled deliveries of messages less those of reads, if and only if no delivery loses the reply to its counter's write |
| `FailingRedelivery.FailuresStayLocal` | consumer/persistence_worker.py:206-224 | with rewinds and failures together: once the consumer is again at its furthest point, every cell that no unhandled delivery writes is as after one pass without failures |
| `History.QueryBucket` | api/routers/conversations.py:147-153 | the first rows of one day's partition, with their columns; its LIMIT must be positive |
| `History.ScanBack` | api/routers/conversations.py:139-169 | the loop with its shrinking, always positive limit gives the first limit rows of the days' concatenation, each day as its own query finds it |
| `History.GetMessages` | api/routers/conversations.py:111-169 | 404 if and only if no row of the conversation exists, 403 if and only if its bot id is there, non-empty and none of the admin's; otherwise the given day's, or the seven days', first limit messages as given out, whatever is stored between the queries |
| `History.ScanIsHistory` | api/routers/conversations.py:139-142 | the concatenation is the only listing of the window's messages by newest day, then ascending time and id |
| `History.ListedInOrder` | api/routers/conversations.py:139-151 | of two listed messages the first is of a later day, or of the same day and earlier, or of the same instant with the lesser id |
| `History.RowsAreScan` | api/routers/conversations.py:144-165 | the rows given out are those of the days' keys in their order, each with the columns that its own day's query found |
| `History.ScanWhileStoring` | api/routers/conversations.py:139-169 | while messages are being stored, what was stored before the first query is in the concatenation, and only what is stored by the last |
| `History.ShortMeansAll` | api/routers/conversations.py:166-169 | a result shorter than the limit holds the row of every message of the days scanned |
| `History.EventStores` | consumer/persistence_worker.py:39-61 | of all handlers only the message handler writes a message row, its own, in the bucket of its timestamp and with its columns |
| `History.LogStores` | consumer/persistence_worker.py:42-61 | after any log, each column of a message row is what the last logged message of that key says |
| `History.LogRows` | consumer/persistence_worker.py:39-61 | after any log the conversation's rows are its logged messages, each with exactly the columns of the last one of its key |
| `History.ShownAsSent` | api/routers/conversations.py:155-165 | what is written of a message is given out again: sender, sender's type, text, content type, time, sequence number, each under its own name, with the defaults for missing ones |
| `History.HistoryIsLog` | consumer/persistence_worker.py:39-61 | after any log the endpoint lists the first limit of the conversation's logged messages of its days, newest day first, ascending inside a day, each as the last one logged under its key was sent |
| `ConversationList.SortRecent` | api/routers/conversations.py:72 | the sort keeps every row, puts later times first and a missing time last, and leaves equally recent rows in the order they came in |
| `ConversationList.PartitionOrder` | api/routers/conversations.py:52-57 | a bot's rows are read the latest started first, of one start by id |
| `ConversationList.ListConversations` | api/routers/conversations.py:29-73 | 403 exactly for somebody else's bot; otherwise the merge of the first rows of all the admin's bots or of the one asked for, each bot's as its own query finds them, and rows of no other bot |
| `ConversationList.ChatStartKeepsTimesEqual` | consumer/handlers/chat_start.py:31-38 | rows written with one time for both columns keep partition order and recency in agreement |
| `ConversationList.StartedRows` | consumer/handlers/chat_start.py:31-38 | the rows are those of the chats started with a bot, each with its start as its last message's time |
| `ConversationList.TopIsTop` | api/routers/conversations.py:51-73 | if each bot's first limit rows are no less recent than the rows after them, the result is a true top-limit of the union: rows of the bots, none twice, in order, limit of them or all, and none left out is more recent |
| `ConversationList.TopAcross` | api/routers/conversations.py:51-73 | with each bot read in its own state and its first limit rows there no less recent than those after: the result is in order and without repeats, each row was in its bot's state, and a row of such a state is listed or the list is full of rows at least as recent |
| `ConversationList.OrderIsNeeded` | api/routers/conversations.py:51-73 | if two rows of a bot disagree, the limit that is the earlier one's place lists it and leaves out the more recent one |
| `ConversationList.TopExactly` | api/routers/conversations.py:33 | for limits up to any most, 200 in the endpoint, no list of any bots leaves out a more recent row if and only if each bot's first most rows are no less recent than those after them |
| `ConversationList.StartedTopIsTop` | consumer/handlers/chat_start.py:31-38 | after any sequence of chat_starts from the empty table the result is the true top-limit, unconditionally |
| `RateLimiting.RateLimiter.CheckRateLimit` | shared/cache/rate_limiter.py:40-56 | increments the key found alive or sets it to 1, to expire 60 s from now only where no TTL runs, and allows while the count is within the limit or when Redis does not answer |
| `RateLimiting.UserAlone` | shared/cache/rate_limiter.py:41-52 | a user's replies depend only on that user's requests |
| `RateLimiting.AdmitsFirstOfLifetime` | shared/cache/rate_limiter.py:43-52 | among everybody's requests, one is admitted if and only if it is among its user's first limit requests of its key lifetime; later ones never prolong it |
| `RateLimiting.LifetimeIsAMinute` | shared/cache/rate_limiter.py:43-45 | of two successive requests of a user the second shares the first's lifetime if and only if it comes less than 60 s after the request that opened it, or at 60 s if the key is still served then |
| `RateLimiting.LifetimeCap` | shared/cache/rate_limiter.py:43-52 | a key lifetime admits at most the limit |
| `RateLimiting.TwoLimitsAMinute` | shared/cache/rate_limiter.py:43-52 | every closed interval of 60 s holds at most twice the limit of admitted requests, and one less if the store still serves a key at the very instant it expires |
| `RateLimiting.TwoLimitsReached` | shared/cache/rate_limiter.py:43-52 | both bounds are reached, for every limit |
| `RateLimiting.OneLimitExactly` | shared/cache/rate_limiter.py:43-52 | one limit holds in every closed minute, as a sliding window promises, if and only if the r-th request of a key lifetime never comes within 60 s of an earlier lifetime's request that its own lifetime follows with more than limit - r, itself included |
| `ConnectionLiveness.KeyStep` | gateway/websocket_manager.py:26-48 | every step keeps a connected conversation's key beyond last_seen + 300, and while an EXPIRE is on the way, beyond the time it lands |
| `ConnectionLiveness.InvStep` | gateway/websocket_manager.py:26-90 | every allowed step keeps the tables in agreement, what a finished sweep guarantees, and the keys' margin |
| `ConnectionLiveness.StepKeeps` | gateway/websocket_manager.py:26-90 | the tables fit and sweeps have seen every connection after any step whatever; the keys outlive their connections after any allowed one in time |
| `ConnectionLiveness.ServedSince` | gateway/websocket_manager.py:40-67 | from its accept until it is superseded, disconnected or evicted, a conversation has this socket and this lock, was last seen at its last heartbeat or else at the accept, and is drawn up for eviction if and only if that is more than 120 s ago |
| `ConnectionLiveness.UnservedSince` | gateway/websocket_manager.py:69-72 | once its socket is taken away it has neither socket nor lock until one is accepted |
| `ConnectionLiveness.TakenAway` | gateway/websocket_manager.py:69-90 | a superseded, disconnected or evicted conversation leaves the three tables, others stay, and a DEL of its key follows but for a superseded one |
| `ConnectionLiveness.KeySince` | shared/cache/connection_registry.py:33-63 | while no DEL lands, a key expires 300 s after the last SET of it or the last EXPIRE that found it |
| `ConnectionLiveness.CallsLandOnce` | gateway/websocket_manager.py:44-74 | over any run, a connect's SET can land if and only if more connects were accepted than SETs landed, a heartbeat's EXPIRE and the DEL of a disconnect or an eviction likewise |
| `ConnectionLiveness.SweepEvictsEach` | gateway/main.py:52-56 | a sweep evicts each conversation not seen for more than 120 s when it looked, once and whatever happens meanwhile, and no other; it is done when all are evicted |
| `ConnectionLiveness.RegistryOutlivesLiveness` | gateway/main.py:45-56 | at every instant of every run in which no connect is accepted while a DEL of its key is on the way, EXPIREs land within d and less than 180 - d s pass since the last finished sweep looked, each connection whose connect has finished has an unexpired key |
| `ConnectionLiveness.OverlapLosesKey` | gateway/websocket_manager.py:69-74 | from every timely state with a DEL of the key on the way: accept, register, and that DEL leave a finished connect without a key, at once |
| `ConnectionLiveness.AllowedExactly` | gateway/websocket_manager.py:40-44 | from every state of a disciplined run, no disciplined continuation after a step loses a key if and only if the step is not an accept with a DEL of its key on the way |
| `ConnectionLiveness.LateSweepLosesKey` | gateway/main.py:45-56 | for every d from 0 up to 180 s: with 180 - d allowed instead of less, some run of allowed steps with every EXPIRE within d loses a key |
| `ConnectionLiveness.LateRefreshLosesKey` | gateway/websocket_manager.py:46-48 | for every d from 0 up to 180 s: with EXPIREs allowed any longer than d, some run of allowed steps swept in time for d loses a key |
| `WebsocketManager.ConnectionManager.CloseExisting` | gateway/websocket_manager.py:31-38 | a duplicate's old socket leaves all three tables; its key stays |
| `WebsocketManager.ConnectionManager.Pop` | gateway/websocket_manager.py:82-86 | removes one conversation from the three tables |
| `WebsocketManager.ConnectionManager.Connect` | gateway/websocket_manager.py:40-44 | fills all three tables before the key is set |
| `WebsocketManager.ConnectionManager.SetKey` | shared/cache/connection_registry.py:40 | the key is good for 300 s from now, and no earlier heartbeat is outstanding |
| `WebsocketManager.ConnectionManager.RegisterConnection` | shared/cache/connection_registry.py:33-40 | sets the key to 300 s from when it lands |
| `WebsocketManager.ConnectionManager.Heartbeat` | gateway/websocket_manager.py:46-48 | marks the conversation seen, connected or not, before the key is renewed |
| `WebsocketManager.ConnectionManager.RefreshConnectionTtl` | shared/cache/connection_registry.py:59-63 | renews a live key and never revives a gone one |
| `WebsocketManager.ConnectionManager.Disconnect` | gateway/websocket_manager.py:69-73 | empties the tables first, the key later |
| `WebsocketManager.ConnectionManager.UnregisterConnection` | shared/cache/connection_registry.py:44-48 | deletes the key, whichever connection it now belongs to |
| `WebsocketManager.ConnectionManager.GetStaleConnections` | gateway/websocket_manager.py:61-67 | exactly the conversations not seen for more than 120 s |
| `WebsocketManager.ConnectionManager.StartSweep` | gateway/main.py:52 | the eviction loop's list is fixed once |
| `WebsocketManager.ConnectionManager.Evict` | gateway/main.py:53-55 | a listed conversation is disconnected even if it was seen again meanwhile |
| `WebsocketManager.ConnectionManager.FinishSweep` | gateway/main.py:53-56 | a sweep is finished when its list is worked off |

## Left out

- Kafka, Redis, Cassandra, PostgreSQL, HTTP and WebSocket transport: only the state change of a call and, for persistence, whether it raised.
- JWT, API keys, the routers for authentication, bots and agents, request validation beyond the limit's range: library calls or single branches.
- Logging, tracing, telemetry, the admin feed, the dashboard, deployment and schema scripts: no state with a hard invariant.
- Several consumer instances and partition rebalancing: the single-worker argument is for one process.
- A payload that is JSON null, which would act as a sentinel, or not an object, whose `get` raises outside the `try`.
- JSON null in a payload's optional keys other than the text, which the handlers store as null; a malformed other key raises like a failing write.
- A client that sends its own `conversation_id`, which the gateway lets override the Kafka key.
- The order in which a dictionary lists its queues, which is arbitrary in the model.
- Fairness of asyncio's queues and semaphore: the steps interleave arbitrarily, so nothing is claimed about who is woken first.
- Handlers' database writes, notifications and published events, except the router calls, the tracker calls and the rows of `conversations_by_bot`.
- A superseded socket's later disconnect, which removes the new connection: the model's disconnect does the same, and nothing is claimed against it.
- `ping_all` and `send_message`: they only lead to `disconnect`, which can happen at any time in the model.
- Cassandra's validation: the ack insert lacks the schema's `bucket` column and outgoing messages use an empty counter key; the model takes each write as given.
- AgentRouter.Router.RouteToAgent: gives the script's result; the Python caller also takes an empty agent id for none.
- Skills.SearchIsListSearch: the search is a plain one. For a required skill without any of `^$*+?.([%-` Lua itself searches plainly, and for those the rows about the search are claimed. With `^` or `$` and none of the others, nor a `)`, the match is literal all the same, for they are special only at the ends of a pattern, where the script puts commas; with any other of them Lua matches a pattern, and nothing is claimed.
- History.GetMessages: an empty `bucket` stands for none.
- ConversationList.ListConversations: rows are given by their keys and `last_message_at`; their other columns take no part in the merge.
- ConnectionLiveness.RegistryOutlivesLiveness: Redis calls of connect, heartbeat and disconnect are taken to succeed; a failing one leaves the tables without a key.
