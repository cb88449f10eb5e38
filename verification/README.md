# Verification of the worker proxy

This project models a proxy that stands between workers nobody trusts and a Temporal server, and
proves what the proxy promises. A worker polls for tasks and is handed opaque task tokens; the proxy
remembers to which namespace and task queue each token was issued, and forwards a later call that
presents a token only for an identity of that namespace that holds that queue. These parts are modelled:

- **The token cache.** A shard is a map plus a recency list with a sliding time to live, a capacity
  bound and a background sweep (`Shard.dfy`, a class updated in place). `Lru.dfy` says what each locked
  operation does to the list; `LruOrder.dfy`, `LruSweep.dfy`, `LruInclusion.dfy` and
  `LruRetention.dfy` prove the consequences of the one invariant no line of the code states: list order
  is deadline order. `Sharding.dfy` and `Cache.dfy` put 32 shards together under an arbitrary hash.
  `Valkey.dfy` is the second store and compares it with the first.
- **The proxy.** `RpcPolicy.dfy`, `Scope.dfy`, `Auth.dfy` and `Actions.dfy` are the tables and scans it
  relies on. `Proxy.dfy` is the transition system: calls of any number of workers run concurrently,
  each takes one step at a time (authorization with its lookup, upstream answer, removal of the consumed
  token, one put per token of the response, logging and delivery), and steps interleave in any order,
  with store failures, unknown effects of failed commands and spontaneous losses of the store as
  further events. Every sequence of events is a run. `Authorization.dfy` says by the fields of a request
  when it passes; `ProxyTrail.dfy`, `ProxyCalls.dfy`, `ProxySafety.dfy`, `ProxyLog.dfy`,
  `NonInterference.dfy` and `GroundTruth.dfy` prove invariants over all runs.
  `Interceptor.dfy` is the code of one call as it is written, over any store that may fail and a log it
  updates in place, proved to be a run of that system.
- **Both together.** `CacheAsStore.dfy` shows that the cache is a map that loses bindings, and only for
  one of two reasons. `CachedProxy.dfy` is the transition system of calls, shards and clock readings, with
  sweeps as events, and refines the proxy over such a map; `CachedSafety.dfy` says which follow-ups it
  accepts, exactly, and what a denied call does to the cache; `CachedDeeds.dfy` lists, for every call
  however far it got, its operations on the cache; `CachedTruth.dfy` puts an upstream server behind it. `CachedInterceptor.dfy` is the code of a call over the cache object itself, each of its
  steps (`CachedSteps.dfy`) an event of that system.
- **The supervisor.** `Supervisor.dfy` is the event-driven supervisor of child processes used by an
  example worker.

Time is an integer number of nanoseconds. A shard reads the clock under its lock, so the readings of
one shard never run backwards, while those of different shards may come in any order
(`Sharding.CacheTimed`, `Sharding.TimedShardByShard`); a lookup reads it twice; a sweep may work with an
older reading (`Lru.OpTimed`). Bytes of a token and strings are `seq<char>`.

Two things the comments say and the code does not do, and one property that needs a condition:

- The cap is announced as the size rounded up to a multiple of the shard count; the code rounds down,
  with at least one slot a shard. `Sharding.CapIsRoundedUpIff` says for which sizes the two agree and
  `Sharding.CapacityBound` what holds for all.
- A failed call is said never to change the cache. The lookup of its authorization does:
  `CachedSafety.LookUpUnchangedIff` says exactly when it changes nothing, and
  `CachedSafety.DeniedCallChangesTheCache` gives a denied call that changes it. What is true of every call that
  is denied or fails is that it has looked up the token it presents and done nothing else
  (`CachedSafety.DeniedOrFailedOnlyLooksUp`, `CachedSafety.LookUpEffect`), so that it changes no binding
  (`ProxyTrail.DeniedOrFailedKeepsBindings`).
- The Valkey store covers the local cache only for lookups whose two clock readings are close enough for
  the rounding to whole milliseconds to absorb. `Valkey.DominatesIffPrompt` gives the exact condition and
  `Valkey.PromptIsNeeded` the trace that tells when it fails.

## Model

| member | source | states |
|---|---|---|
| Shards.Shard.constructor | internal/tokencache/cache.go:45-51 | a new shard is empty, map and list agree |
| Shards.Shard.Put | internal/tokencache/cache.go:53-75 | map and list stay in bijection by key; the list becomes the old one without the key, the new slot in front, cut back to the capacity; the eviction loop ends, its nil branch is dead |
| Shards.Shard.Overwrite | internal/tokencache/cache.go:58-63 | the branch of a put that finds its key rewrites that element only and moves it to the front |
| Shards.Shard.EvictOverflow | internal/tokencache/cache.go:68-74 | eviction takes elements from the back until the capacity holds and never the one just put |
| Shards.Shard.Get | internal/tokencache/cache.go:79-95 | reply and new list of a lookup: absent, expired and dropped, or hit with the deadline slid and the element in front |
| Shards.Shard.Delete | internal/tokencache/cache.go:97-103 | exactly the slot of the key goes |
| Shards.Shard.RemoveElement | internal/tokencache/cache.go:105-109 | list and map lose the same element and still agree |
| Shards.Shard.EvictExpired | internal/tokencache/cache.go:111-122 | the backward walk drops exactly the slots whose deadline lies before the reading, in any list |
| Lru.DoKeepsInv | internal/tokencache/cache.go:53-122 | every operation keeps distinct keys, non-increasing deadlines, the capacity, and deadlines no later than now plus the time to live |
| Lru.RunKeepsInv | internal/tokencache/cache.go:53-122 | so does every trace of operations with a clock that does not run backwards |
| LruOrder.DeadlineOrder | internal/tokencache/cache.go:57-74 | in every reachable shard the list is sorted front to back by non-increasing deadline, without repeated keys, within the capacity |
| LruOrder.SweepIsPrefix | internal/tokencache/cache.go:111-122 | the live slots are a prefix and the expired ones a suffix, for every moment |
| LruOrder.EvictionTakesTheEarliest | internal/tokencache/cache.go:65-74 | a full shard pushes out the slot with the earliest deadline, so no live slot while an expired one remains |
| LruOrder.GetUnchangedIff | internal/tokencache/cache.go:77-95 | a lookup leaves the list as it was exactly for an absent key, or for a live front slot whose new deadline is its old one |
| LruOrder.GetKeepsBindings | internal/tokencache/cache.go:79-95 | a lookup changes no slot of another key and no entry; its own slot is refreshed, or dropped if it had expired |
| LruSweep.SweepTransparency | internal/tokencache/cache.go:53-122 | with sweeps interleaved anywhere, stale readings included, every lookup is answered as by a bounded list that drops expired slots at once and is never swept |
| LruInclusion.LruInclusion | internal/tokencache/cache.go:53-109 | on every trace each hit of a smaller shard is a hit of a larger one with the same entry, its list is a subsequence of the larger one, and the difference in length is at most that of the capacities |
| LruInclusion.InclusionExactly | internal/tokencache/cache.go:53-109 | one capacity includes another on every trace if and only if it is no smaller, zero or less meaning unbounded |
| LruRetention.RetentionExact | internal/tokencache/cache.go:53-95 | within the deadline of its last touch a token hits if and only if at no moment as many other keys as the shard holds had been touched since and not deleted again |
| LruRetention.RetentionGuarantee | internal/tokencache/cache.go:53-95 | hence it hits unless at least that many distinct other keys were named in between |
| LruRetention.HeartbeatsKeepAlive | internal/tokencache/cache.go:127-132 | touches spaced at most the time to live apart keep a token alive for ever below that pressure, with the entry it was issued with |
| Sharding.TimedShardByShard | internal/tokencache/cache.go:53-57 | a trace is in order if and only if the readings of each shard by itself are; nothing relates the readings of different shards |
| Sharding.CacheRunKeepsInv | internal/tokencache/cache.go:182-207 | after any trace every shard of the cache is sorted by deadline, without repeated keys and within its capacity, as of the last reading of its own clock |
| Sharding.CapacityBound | internal/tokencache/cache.go:143-153 | after any trace, whatever the clock, the whole cache holds at most 32 * max(maxSize/32, 1) tokens: at most maxSize from 32 on, at most 32 below |
| Sharding.CapIsRoundedUpIff | internal/tokencache/cache.go:140-144 | the announced cap, rounded up, is the real one exactly for sizes 1 to 31 and positive multiples of 32 |
| Sharding.PerShardExactly | internal/tokencache/cache.go:143-144 | a shard gets the thirty-second part of the size, rounded down, from 32 on, and one slot for any smaller size |
| Sharding.HomesByHash | internal/tokencache/cache.go:182-187 | every shard is the home of some hash values, and two tokens share a shard exactly if their hashes are equal modulo 32 |
| Sharding.ShardRunsAlone | internal/tokencache/cache.go:182-207 | a shard ends up as if it had run alone on the operations routed to it |
| Sharding.TokensStayAtHome | internal/tokencache/cache.go:182-207 | for any hash a token lives only in its own shard |
| Sharding.DifferentShardsCommute | internal/tokencache/cache.go:182-207 | operations routed to different shards commute, replies included |
| Sharding.LookupIsIdeal | internal/tokencache/cache.go:182-207 | after any trace a lookup of the whole cache is answered by the unswept ideal list of its shard |
| Sharding.ShardingIsInvisible | internal/tokencache/cache.go:182-207 | while no shard overflows the 32 shards answer every trace like one flat map with sliding deadlines |
| Caches.Cache.constructor | internal/tokencache/cache.go:143-153 | 32 distinct empty shards, each with capacity max(maxSize/32, 1) |
| Caches.Cache.Put | internal/tokencache/cache.go:191-194 | one step of the sharded specification |
| Caches.Cache.Get | internal/tokencache/cache.go:198-201 | reply and new state are those of one step of the sharded specification |
| Caches.Cache.Delete | internal/tokencache/cache.go:204-207 | one step of the sharded specification |
| Caches.Cache.Tick | internal/tokencache/cache.go:174-177 | a tick of the janitor is 32 single sweeps of the sharded specification with one reading |
| Caches.TickIsASequenceOfSweeps | internal/tokencache/cache.go:174-177 | those sweeps drop from every shard exactly what had expired at that reading |
| Valkey.ComputeTtlMilliseconds | internal/tokencache/valkey.go:199-205 | the imperative rounding computes the specified number of milliseconds |
| Valkey.TtlRoundsUp | internal/tokencache/valkey.go:199-205 | for a positive time to live the milliseconds cover it by less than one millisecond too much, and are never below one |
| Valkey.ValkeyStore.Put | internal/tokencache/valkey.go:69-78 | the entry is stored under the key with a fresh deadline and nothing else changes; a command that never arrived changes nothing, one whose answer is lost has taken effect |
| Valkey.ValkeyStore.Get | internal/tokencache/valkey.go:80-94 | the reply is the entry under the key if its last millisecond has not passed, and that deadline is slid; every other key is as it was; an error reports no entry |
| Valkey.ValkeyStore.Delete | internal/tokencache/valkey.go:96-101 | unless the command never arrived nothing is stored under the key any more, and every other key is as it was |
| Valkey.FindsTheLastPut | internal/tokencache/valkey.go:69-101 | on every trace a lookup is answered with the entry of the last put of its token, unless that was deleted since or a lookup of it came more than the time to live after the use before, and with nothing otherwise |
| Valkey.DeletedIsGone | internal/tokencache/valkey.go:96-101 | on every trace a lookup between the delete of a token and its next put finds nothing |
| Valkey.ValkeyDominatesLocal | internal/tokencache/valkey.go:69-101 | on every trace of prompt lookups each hit of the local cache is a hit of the Valkey store with the same entry |
| Valkey.SameReadingIsPrompt | internal/tokencache/valkey.go:199-205 | one clock reading for check and refresh is always prompt |
| Valkey.PromptIsNeeded | internal/tokencache/cache.go:88-92 | for any two readings of a lookup, the trace on which the server has lost at the end of the deadline a token the cache still has, just if they are not prompt |
| Valkey.DominatesIffPrompt | internal/tokencache/valkey.go:69-101 | whatever pairs of readings lookups may take, every hit of the local cache is a hit of the Valkey store on every trace if and only if all those pairs are prompt |
| Auth.ValidateTaskQueues | internal/auth/static.go:76-88 | succeeds with a copy if and only if there is a queue and none is empty |
| Auth.BuildIdentities | internal/auth/static.go:52-74 | fails if and only if some entry is unacceptable; otherwise exactly the hashed keys are in the table, each with the identity of an acceptable entry |
| Auth.AuthenticatesAsWritten | internal/auth/static.go:117-123 | a key authenticates with the namespace, queues and subject of its own entry, any other key as nobody; every valid identity has a namespace and non-empty queues |
| RpcPolicy.OnlyListed | internal/rpcpolicy/allowlist.go:56-92 | an RPC is allowed if and only if it is one of the sixteen of a worker |
| Scope.QueueNamesAgree | internal/scope/scope.go:63-134 | the ways to read a queue and a token off a request agree on which requests have one and on its name |
| Scope.CollectResponseTaskTokens | internal/scope/scope.go:144-173 | the loop returns the non-empty tokens of a response in message order |
| Scope.CollectedExactly | internal/scope/scope.go:136-143 | the tokens collected are exactly the non-empty ones in the fields of the response, each as often as it occurs: the token of a poll; the next workflow task and then the activity tasks of a completed one |
| Scope.ValidateWorkerHeartbeatTaskQueues | internal/scope/scope.go:177-188 | accepts exactly when every heartbeat names an authorized queue, and otherwise reports the first that does not |
| Scope.ValidateCommands | internal/scope/scope.go:220-244 | accepts exactly when every command is allowed |
| Scope.AllowedIffStaysHere | internal/scope/scope.go:199-219 | that is, exactly when every piece of work the commands create runs in the namespace and queue of the workflow itself |
| Actions.FromRequest | internal/actions/actions.go:46-64 | the loop returns the billable actions of a request |
| Actions.BilledCommands | internal/actions/actions.go:72-95 | they are billed as one for each billable command and one more for each child start |
| Actions.OfCommandsAppend | internal/actions/actions.go:48-55 | they follow the order of the commands |
| Actions.ActionsByKind | internal/actions/actions.go:72-95 | there are as many actions of each kind as commands of that kind, each with its count |
| Actions.BilledRequests | internal/actions/actions.go:46-64 | a heartbeat costs one, a completed workflow task what its commands cost, any other request nothing |
| Authorization.AllowedIffOwn | internal/proxy/interceptor.go:181-283 | a request passes if and only if its namespace, the queue it polls or shuts down and the queues it reports are the caller's and, if it presents a token, the token is bound to the caller and no command sends work away; the scope is the queue it acts on; only token requests fail for want of the store |
| Authorization.StickyPoll | internal/proxy/interceptor.go:285-293 | a sticky poll is authorized by, and scoped to, the normal queue it declares; the name of the sticky queue plays no part |
| Authorization.DirectPoll | internal/proxy/interceptor.go:285-293 | any other poll is authorized by, and scoped to, the name of its queue; a normal queue it declares plays no part |
| Authorization.AcceptedInOwnNamespace | internal/proxy/interceptor.go:181-283 | an accepted request names the namespace of its caller, unless it asks for system information |
| Authorization.PresentsExactly | internal/proxy/interceptor.go:211-221 | the store is asked for exactly the non-empty token of a token request in the caller's own namespace |
| Interceptor.UnaryInterceptor.AuthorizeRequest | internal/proxy/interceptor.go:181-283 | the branches of the code compute the verdict of the specification, the lookup included |
| Interceptor.UnaryInterceptor.Intercept | internal/proxy/interceptor.go:44-119 | the code of a call leaves store, log and outcome as its events do one after the other |
| Interceptor.UnaryInterceptor.Respond | internal/proxy/interceptor.go:78-118 | so does its second half: upstream answer, delete, put loop with early return, log loop |
| ProxyTrail.TrailIsExact | internal/proxy/interceptor.go:70-103 | in every interleaving the effects of a call on the bindings are exactly those its progress calls for: first the removal, then one put per token in order |
| ProxyTrail.RegisteredBeforeDelivered | internal/proxy/interceptor.go:92-103 | a reply reaches the worker only after every token in its fields was bound by that call to the caller's namespace and scoped queue |
| ProxyTrail.FailedPutRegistersAPrefix | internal/proxy/interceptor.go:98-101 | if a put fails the reply is withheld and exactly a proper prefix of its tokens was put, the failing one possibly besides |
| ProxyTrail.DeniedOrFailedKeepsBindings | internal/proxy/interceptor.go:70-81 | a call that is denied, finds the store unavailable or fails upstream changes no binding |
| ProxyTrail.BoundByTheLastPut | internal/proxy/interceptor.go:85-103 | a token is bound exactly if the last thing that happened to it was a put, and to the entry of that put |
| ProxyCalls.OutsideTheTable | internal/proxy/interceptor.go:47-51 | in every run a call of an RPC outside the table asks and changes nothing in the store and ends denied |
| ProxyCalls.LetThroughInOwnNamespace | internal/proxy/interceptor.go:53-80 | in every run each call past authorization belongs to a valid identity, is of an RPC in the table, and names its caller's namespace unless it asks for system information |
| ProxyCalls.TerminalCallsRemove | internal/proxy/interceptor.go:85-91 | in every run a call of one of the seven terminal RPCs has tried to remove the token of its request before it registers or delivers anything, as its first effect; no other call removes any |
| ProxyCalls.FailsClosed | README.md:287-289 | a failed lookup stops the call before it is forwarded, a failed put withholds the reply, a failed removal is passed over |
| ProxySafety.StoreInvariant | internal/proxy/interceptor.go:93-98 | every entry ever stored has a queue and belongs to some configured identity |
| ProxySafety.MissingScopeIsUnreachable | internal/proxy/interceptor.go:94-97 | with upstream responses of the right type the branch for a missing queue scope is never taken |
| ProxySafety.OnlyTerminalCallsRemove | internal/rpcpolicy/allowlist.go:60-72 | nothing but a terminal call on that token, or a loss of the store, removes a binding |
| ProxySafety.TerminalExactly | internal/rpcpolicy/allowlist.go:56-92 | of the token RPCs all but heartbeats and query completions are terminal, of the others none |
| ProxySafety.ConsumedTokenIsDenied | internal/proxy/interceptor.go:85-91 | once the delete of a terminal call has taken effect every later lookup of the token is turned away until a response binds it again, whatever runs in between |
| ProxySafety.DeliveredTokenIsBound | internal/proxy/interceptor.go:85-103 | a delivered token to which nothing has happened since is bound to the caller's namespace and queue, one reissued by the call that consumed it included |
| ProxySafety.FollowUpAcceptedIff | internal/proxy/interceptor.go:211-240 | over any store that has not lost it, such a token is accepted, under the same queue, from the identities of that namespace that hold the queue and from no other |
| ProxyLog.LogIsExact | internal/proxy/interceptor.go:105-116 | for each call the log holds all its billable actions in command order if the reply was delivered, and nothing otherwise |
| ProxyLog.LogIsALowerBound | internal/actions/actions.go:5-12 | what upstream accepted exceeds the logged total by exactly the cost of calls under way, of withheld replies and of lost answers; with none of these they are equal |
| NonInterference.ErasingOthersChangesNothing | internal/auth/auth.go:7-9 | if two groups of identities share no namespace and queue and upstream hands no token to both, erasing all calls of one group leaves every call, outcome and binding of the other unchanged |
| GroundTruth.StoreTellsTheTruth | internal/proxy/interceptor.go:181-240 | against an upstream that keeps the real tasks, every stored token has the namespace and queue of its real task |
| GroundTruth.CreatedExactly | internal/scope/scope.go:199-219 | each command that names a destination creates one piece of work there, for the root of its workflow and in the order of the commands; no other command creates any |
| GroundTruth.WorkStaysWithItsRoot | internal/scope/scope.go:199-244 | every activity, child workflow and continued run transitively created from a root that a client started stays in its namespace and queue, those of requests whose answer was lost included |
| GroundTruth.WorkersGetTheirOwnTasks | internal/scope/scope.go:85-95 | a worker is only ever handed tasks of its namespace from a queue it is authorized for |
| CacheAsStore.CacheIsALossyMap | internal/tokencache/cache.go:23-30 | on every trace the sharded cache answers like a plain map that loses some keys before each operation |
| CacheAsStore.LossesAreJustified | internal/tokencache/cache.go:65-94 | a key is lost only after it has expired, or as the earliest to expire of a full shard that takes in a new key |
| CacheAsStore.LookupAfterTouch | internal/tokencache/cache.go:79-95 | a lookup any time after a touch hits if and only if the deadline of the touch has not passed and the pressure stayed below the capacity |
| CachedProxy.CachedRunIsAProxyRun | internal/proxy/interceptor.go:44-119 | every run of calls, shards, sweeps and clock readings is a run of the proxy over a map that loses, before each step, what the cache drops in it: same calls, outcomes, log and bindings |
| CachedProxy.DropsAreJustified | internal/tokencache/cache.go:65-94 | in every run the cache drops a token only after it has expired or as the earliest to expire of a full shard that takes in a new token |
| CachedSafety.FollowUpWithinTtl | internal/proxy/interceptor.go:211-240 | in every run, if the last operation on a token put or found it, a follow-up in order is accepted if and only if the caller owns its entry, no more than the time to live has passed and the shard stayed below its capacity in other tokens touched since |
| CachedSafety.UnknownTokenIsDenied | internal/proxy/interceptor.go:221-227 | a token never put, or last deleted or looked up in vain, is denied to everyone |
| CachedProxy.HitsAfterPut | internal/tokencache/cache.go:127-132 | in every run a token that has only been looked up since it was put is found with the entry of that put, or not at all |
| CachedSafety.DeliveredFollowUp | internal/scope/scope.go:136-143 | a token that a delivered reply carried and that has since been looked up any number of times, but neither removed nor put again, is accepted from exactly the callers that hold the queue of the call it was delivered to, while its last touch is no older than the time to live and the shard stayed below its capacity |
| CachedSafety.DeniedOrFailedOnlyLooksUp | internal/proxy/interceptor.go:70-84 | in every run a call that is denied or fails upstream has done nothing to the cache but look up, once, the token it presents, if it got to it |
| CachedSafety.LookUpEffect | internal/tokencache/cache.go:79-95 | that lookup refreshes the token's own slot and moves it to the front if live, drops it if expired, and leaves every other slot with its entry, deadline and place |
| CachedSafety.LookUpUnchangedIff | internal/proxy/interceptor.go:221-227 | in every run the lookup of a call leaves the cache as it is exactly for an absent token, or for a live front slot whose new deadline is its old one |
| CachedSafety.DeniedCallChangesTheCache | internal/proxy/interceptor.go:83-84 | for any hash and configuration, a run in which a call is denied and the cache is not what it was |
| CachedSafety.SlotsAreLegitimate | internal/proxy/interceptor.go:93-98 | in every run every cached slot has a queue and belongs to a configured identity |
| CachedDeeds.ActsAreDeeds | internal/proxy/interceptor.go:70-103 | in every run the operations of each call on the cache are exactly, in order: one lookup of its token if it got to it, the removal of that token if its RPC is terminal and upstream has answered, and one put, to the caller's namespace and scope, for each token of the reply registered so far |
| CachedInterceptor.LocalInterceptor.AuthorizeRequest | internal/proxy/interceptor.go:181-283 | authorization over the cache object is the check step of the system, expiry and sliding included |
| CachedInterceptor.LocalInterceptor.Intercept | internal/proxy/interceptor.go:44-119 | the code of a call over the cache object, from any state with other calls under way: cache and log are those of a run of the system, longer by exactly the listed events of this call with their clock readings, and the outcome is the one they lead to |
| CachedInterceptor.LocalInterceptor.Tick | internal/tokencache/cache.go:174-177 | a tick of the janitor on the cache object makes that run longer by its 32 sweeps |
| CachedTruth.SceneIsAWorld | internal/proxy/interceptor.go:44-119 | against an upstream that keeps the real tasks, the proxy over its cache does as over a map that loses bindings |
| CachedTruth.SlotsTellTheTruth | internal/proxy/interceptor.go:181-240 | there every cached slot, live or not, has the namespace and queue of the real task of its token |
| CachedTruth.WorkStaysPut | internal/scope/scope.go:199-244 | and every work created stays where the root runs that a client started |
| CachedTruth.OwnTasksOnly | internal/scope/scope.go:85-95 | and a worker is only ever handed tasks of its namespace from a queue it is authorized for |
| Supervisor.StartChildSupervisor | examples/dynamic-worker-ts/src/child-supervisor.ts:25-38 | refuses an empty list of specs, otherwise all children are registered before any event |
| Supervisor.ChildSupervisor.Fail | examples/dynamic-worker-ts/src/child-supervisor.ts:53-61 | records the first failure only; the first stop sends SIGTERM to every registered child but the failing one |
| Supervisor.ChildSupervisor.HandleError | examples/dynamic-worker-ts/src/child-supervisor.ts:71-73 | an error event is one step of the specification |
| Supervisor.ChildSupervisor.HandleClose | examples/dynamic-worker-ts/src/child-supervisor.ts:74-87 | a close event is one step of the specification |
| Supervisor.ChildSupervisor.Shutdown | examples/dynamic-worker-ts/src/child-supervisor.ts:92-98 | a shutdown is one step of the specification |
| Supervisor.Anytime | examples/dynamic-worker-ts/src/child-supervisor.ts:30-99 | after any events: who is left, whether it is stopping, the first failure, and that every signal was sent at the very first event |
| Supervisor.SettlesOnce | examples/dynamic-worker-ts/src/child-supervisor.ts:40-45 | the completion is pending until the last child has closed and settled exactly once from then on |
| Supervisor.Completion | examples/dynamic-worker-ts/src/child-supervisor.ts:30-99 | it rejects, with the first failure, if and only if an error came before the last close or some close came before the supervisor was stopping; later events change nothing |
| Supervisor.SignalsOnce | examples/dynamic-worker-ts/src/child-supervisor.ts:47-61 | the stop sends one signal to each registered child other than the failing one, and none is sent later |

## Left out

- ProxySafety.FollowUpAcceptedIff: the store is assumed not to have lost the token; CachedSafety.FollowUpWithinTtl derives that from the retention conditions.
- NonInterference.ErasingOthersChangesNothing: covers bindings and outcomes over a map that loses keys by events of its own; that other callers' tokens raise the pressure on a bounded shard is what LruRetention.RetentionExact measures.
- GroundTruth.WorkersGetTheirOwnTasks: assumes, as CachedTruth.OwnTasksOnly does and the code itself, that a sticky queue name belongs to the normal queue its poll declares, because the name cannot be guessed.
- Valkey.ValkeyDominatesLocal: assumes one monotone clock for proxy and server, and no failed commands.
- Auth.AuthenticatesAsWritten: assumes that the hash of API keys does not collide.
- Interceptor.UnaryInterceptor.Intercept: its store is a map of bindings that may fail; deadlines and recency are in CachedInterceptor.LocalInterceptor.Intercept, whose store never fails.
- CachedInterceptor.LocalInterceptor.Intercept: runs one call without interruption; calls that interleave are the runs of CachedProxy.
- `container/list`: the list is a sequence field of list elements, without links between them; elements are objects shared between map and list and are updated in place.
- Mutexes and goroutines: each locked operation is one atomic step; a tick of the janitor is 32 separate sweeps.
- `maphash`: an arbitrary fixed function; the 64-bit width of its sum plays no part in the results.
- Integer widths: durations, sizes and counts are unbounded integers; the overflow of a 64-bit duration is not modelled.
- Starting and stopping the janitor, its interval, and `Close` of either store.
- JSON encoding of entries, hashing of token keys, the wire protocol and the timeouts of the Valkey client: an exact round trip, an injective key, and commands that fail with or without effect.
- Reading the auth file, JWT verification and credential extraction from metadata: a call starts from the identity they yield, valid or not.
- The branch for a request that is not a protobuf message, and deriving the RPC name from the full method name: a request of the model always has one of the message types.
- Unset messages inside a request: they read as their zero values, as their getters do.
- Error texts: only the class of an outcome is kept (denied, store unavailable, upstream failed, missing scope, put failed, delivered).
- Log fields other than the call and the action: task queue, RPC and subject follow from the call.
- Forwarding to upstream, TLS, gRPC status plumbing, configuration and the worker-commands capability mask: calls over libraries, or a single branch.
- Commands that carry no namespace or queue are one constructor where they are not billed; Nexus operations are billed, and where they lead is not claimed.
- Starting processes, prefixing their output and the texts of supervisor errors: a failure keeps the child and its cause.
- An error that `kill` reports while it is being called: it counts as an error event just after the stop, which has the same effect because the stop has been recorded by then; a second error event of one child is not delivered to a handler and is not modelled.
