# A verified model of capy-amqp-cpp

This project models the stateful parts of the `capy-amqp-cpp` message-broker client in Dafny and
proves what callers rely on. Everything is stated for all inputs, all interleavings or all runs.

- **Remote calls.** `Broker` is the broker object whose callbacks register, look up and remove
  fetches and listeners in place; each method is proved against the functions of `BrokerModel`.
  `RpcSystem` uses the same functions as the steps of a system with any number of brokers, requests,
  listeners, reply objects and messages in flight; `RpcRuns` and `RpcFinalize` prove what holds in
  every run, and `RpcProgress` that requests and replies get through.
  `Deferred` and `Replay` are the callback object and the reply object, `Decimal` the printed
  correlation ids, `Json` the message values and the (arbitrary) codec.
- **Cache.** `Cache` is the sharded expiring cache as 256 maps changed in place, specified by the one
  flat map they make up (`CacheModel`). `CacheRuns` interleaves threads at the granularity of a shard
  lock, `CacheLaws` says what each operation answers in terms of what was written and when,
  `CacheCurator` exactly who can notice the curator, and `ConnectionCache` is the per-thread connection
  cache on top.
- **dotenv.** `DotenvLanguage` states the file format declaratively, `DotenvScan` is an automaton
  proved to decide it, and `DotenvParser` is the recursive-descent parser, proved against both.
- **Pool.** `Pool` has the blocking pool's critical sections as an object and its mutex and condition
  variable protocol as a step system.
- **Addresses.** `AddressPattern` gives the regular expression a meaning (the set of its matches and
  the order in which a backtracking matcher tries them) and a scanner that finds the first match;
  `PortNumber` is `std::stoi` with base 0; `Address` is the parser of connection addresses, and
  `AddressRoundTrip` says which printed addresses it reads back.

Run `dafny verify dfyconfig.toml` to check everything.

## Assumptions about the environment

They are conditions of the step systems, named where they are used.

- A queue declared with an empty name gets a name the server never gave out before (queue.declare,
  section 1.7.2.1 of the AMQP 0-9-1 reference): `RpcSystem.FreshQueue`. `RpcRuns.QueueNamesDecide`
  shows that isolation depends on it.
- The nameless exchange routes by queue name (section 3.1.3.1 of the AMQP 0-9-1 specification), and
  nobody but a committed reply publishes to a reply queue.
- Each callback is one atomic step; calls that print an id are serialised, and fewer than 2147483647
  ids are printed. User handlers return normally: a throw aborts the process.
- Handlers are attached to a fetch while it is live: the reference that `fetch` returns dangles after.
- Listener callbacks come while their listener is live, because the code does not guard their lookup.
- The clock readings by which the cache judges one key, all taken under the lock of its shard, never
  go back (`CacheCurator.NonDecreasing`); readings for different keys may come in any order.
- User code touches a reply object only while it is allocated, each transaction resolves once, and
  only after `commit` returned.
- The message codec is any pair of functions; only where it says `Lossless` is decoding assumed to
  undo encoding.

## Where the code and its documentation differ

- The repository's README connects to an `http://` address; the expression accepts only `amq`, `amqp`
  and `amqps`, and `amq` is then refused (`Address.Accepted`).
- Without a virtual host the query or fragment of an address is not recognised as one: the group of the
  port takes it, or without a port that of the host (`AddressRoundTrip.RoundTrip`).
- The getter of the protocol returns a constant, so the round trip is about the stored record.

## Model

| member | source | states |
|---|---|---|
| RpcRuns.RepliesComeHome | src/broker_impl/broker.cc:158-256 | in every run, a payload given to a fetch's data handler was committed in answer to a request that this very fetch published with its own message, whatever ids other processes use; with a lossless codec it is the committed answer itself |
| RpcRuns.QueueNamesDecide | src/broker_impl/broker.cc:183-204 | two clients with equal ids: the reply reaches the client that asked exactly when the two reply queues have different names, and the other client otherwise |
| RpcRuns.OpeningRuns | src/broker_impl/broker.cc:148-154 | the state in which two processes have live fetches under equal ids is reached by a run of the protocol |
| RpcRuns.RepliesArrive | src/broker_impl/broker.cc:158-256 | with different queue names that exchange is a run: a state in which the first client has heard its own answer, and nobody anything else, is reachable |
| RpcProgress.LiveFetchAsks | src/broker_impl/broker.cc:160-190 | when its reply queue is declared, a live fetch publishes its own message with its id and that queue, and consumes from the queue |
| RpcProgress.OpenListenerIsHanded | src/broker_impl/broker.cc:331-412 | a request that decodes gives a listener with an open gate and a data handler a reply object that can be committed |
| RpcProgress.CommittedReplyIsHeard | src/broker_impl/broker.cc:204-256 | from any reachable state a committed reply can be received at once, and the fetch that asked, if live, hears the answer exactly if its gate is open and a data handler attached, and is finalized and removed |
| RpcProgress.ListenerIsTold | src/broker_impl/broker.cc:300-361 | in the protocol a success opens a listener's gate, any failure of its own and any request that does not decode shuts it, and only a failure to consume removes it |
| RpcProgress.FailedReplyIsReported | src/broker_impl/broker.cc:402-406 | a reply whose transaction fails shuts its listener and frees the reply object |
| RpcRuns.OnceOnly | src/broker_impl/broker.cc:219-278 | for every order and repetition of callbacks each fetch has at most one data call and one removal, and the fetches begun are exactly the live and the removed ones |
| RpcRuns.RemovedMeansSilent | src/broker_impl/broker.cc:194-278 | from any reachable state, a removed fetch never becomes live again and none of its handlers runs again |
| RpcRuns.SilentAfterRemoval | src/broker_impl/broker.cc:194-278 | the same for any state with the invariant: no later step logs a handler of a fetch that is not live |
| RpcFinalize.FinalizedOnce | src/broker_impl/broker.cc:194-278 | in every run a removed fetch that a finalize handler was attached to heard it exactly once, as its last call; any other fetch never |
| RpcFinalize.OnlyRemovalFinalizes | src/broker_impl/broker.cc:194-278 | a callback that removes a fetch runs its registered finalize handler once, after all others; no other callback runs it |
| RpcRuns.ReplyAccounting | src/broker_impl/broker.cc:366-407 | in every run each commit published exactly one reply, to its own request's queue with its own request's id; frees plus unresolved transactions equal commits plus deletions; the channel of each commit is freed once when its transaction is resolved and not before; complete handlers that ran were registered after the last commit before |
| RpcRuns.FreedAtMostOnce | src/broker_impl/broker.cc:397-406 | once its transactions are resolved, a reply object was freed at most once if and only if it was committed or deleted at most once in all; the channel of each commit, named by the commit, was freed exactly once, and no other |
| RpcRuns.DisciplinedUseIsSafe | src/broker_impl/broker.cc:397-406 | at any time, an object committed or deleted at most once has been freed at most once, and so has each channel |
| RpcRuns.TwoCommitsFreeTwice | src/broker_impl/broker.cc:35-40 | two commits of one object lead to two frees, so the discipline is needed |
| RpcRuns.CommitDropsHandler | src/broker_impl/broker.cc:14-40 | whatever happens after a commit, a complete handler that runs was registered after that commit |
| RpcRuns.CompleteRunsWhenFreed | src/broker_impl/broker.cc:14-29 | a complete handler with no other registered and no commit after it runs when the object is freed |
| RpcRuns.NewIdIsUnused | src/broker_impl/broker.cc:148-153 | in every reachable state the id of a new fetch or listener is that of no live or former fetch and no live listener of its broker, and the lookup after registration finds the entry |
| RpcSystem.StepKeepsInv | src/broker_impl/broker.cc:144-444 | every event keeps the invariant on ids, requests, reply objects, logs and removals |
| RpcSystem.RouteLeadsHome | src/broker_impl/broker.cc:343-407 | the consumer of the queue a reply was sent to is the fetch whose request the reply object answers |
| BrokerModel.DeclareErrorEnds | src/broker_impl/broker.cc:273-278 | a live fetch hears QUEUE_DECLARATION once, then its finalize handler, and is gone |
| BrokerModel.ConsumeErrorEnds | src/broker_impl/broker.cc:263-269 | a live fetch hears DATA_RESPONSE once, then its finalize handler, and is gone |
| BrokerModel.CommitErrorKeeps | src/broker_impl/broker.cc:192-197 | a live fetch hears PUBLISH once, stays, and is shut off from data |
| BrokerModel.ConsumeOkOpens | src/broker_impl/broker.cc:258-261 | the success handler runs and the gate opens; nothing else changes |
| BrokerModel.GoneMeansNothing | src/broker_impl/broker.cc:158-278 | any callback of a removed fetch runs nothing, publishes nothing and changes nothing |
| BrokerModel.RejectedBody | src/broker_impl/broker.cc:219-252 | a reply body the decoder rejects runs a registered error handler once and the data handler never, and removes the fetch, although data is reported afterwards |
| BrokerModel.AcceptedBody | src/broker_impl/broker.cc:231-254 | a reply body that decodes reaches the data handler exactly when the gate is open, and removes the fetch |
| BrokerModel.DataCallsOf | src/broker_impl/broker.cc:204-256 | a data call comes only from a received body, carries its decoding, and is the only one of that callback |
| BrokerModel.ListenerIsDeferred | src/broker_impl/broker.cc:300-412 | through any deliveries, callbacks and registrations a listener's entry is what its callback object is after the corresponding reports |
| BrokerModel.ListenerHears | src/broker_impl/broker.cc:300-444 | each listener callback runs the handler of its kind with the error of its kind; success opens the gate, failure shuts it, only a failure to consume removes the entry |
| BrokerModel.RejectedRequest | src/broker_impl/broker.cc:352-362 | a request body that does not decode reaches the error handler as CHANNEL_MESSAGE, and the listener stays, shut |
| BrokerModel.ListenerSuccessHeard | src/broker_impl/broker.cc:433-435 | over any sequence of events, each success of the consumer runs an attached success handler once, and nothing else does |
| BrokerModel.RequestsHeard | src/broker_impl/broker.cc:331-412 | over any sequence of deliveries, callbacks and registrations that holds a status, a request that decodes runs the data handler exactly if one is attached and the consumer reported success with no failure since |
| BrokerModel.RejectedRequestClosesGate | src/broker_impl/broker.cc:352-362 | any time after a request body that does not decode, a request that does decode runs an attached data handler if and only if the consumer has reported success since, and nothing has failed after that |
| Broker.Counter.CreateUniqueId | src/broker_impl/broker.cc:47-52 | prints the counter and advances it; no later id is printed alike |
| Broker.Broker.FetchMessage | src/broker_impl/broker.cc:144-154 | registers a fresh callback object under an unused id and returns it; all other entries stay |
| Broker.Broker.OnDeclared | src/broker_impl/broker.cc:160-190 | a live fetch publishes its message with its id and its reply queue; a removed one publishes nothing |
| Broker.Broker.OnCommitError | src/broker_impl/broker.cc:192-197 | reports PUBLISH to a live fetch, shuts its gate and leaves it in place |
| Broker.Broker.OnConsuming | src/broker_impl/broker.cc:258-261 | opens the gate of a live fetch and runs its success handler |
| Broker.Broker.OnConsumeError | src/broker_impl/broker.cc:263-269 | a live fetch hears DATA_RESPONSE, then its finalize handler, and exactly its entry is removed |
| Broker.Broker.OnDeclareError | src/broker_impl/broker.cc:273-278 | a live fetch hears QUEUE_DECLARATION, then its finalize handler, and exactly its entry is removed |
| Broker.Broker.OnReceived | src/broker_impl/broker.cc:204-256 | decodes, reports a rejected body, reports data, removes: the fetches and calls are those of the model |
| Broker.Broker.ListenMessages | src/broker_impl/broker.cc:289-296 | registers a fresh listener under an unused id; all other entries stay |
| Broker.Broker.OnListener | src/broker_impl/broker.cc:300-325 | each listener callback reports to its entry; a consume error removes it |
| Broker.Broker.OnDelivered | src/broker_impl/broker.cc:331-412 | a request that decodes gets a fresh reply object routed to the request's own queue and id, and goes to the data handler if the gate is open; one that does not is reported |
| Replay.Answer | src/broker_impl/broker.cc:370-384 | the value sent is never empty, and is the message itself when that is a non-empty value |
| Replay.AnswerSpelledOut | src/broker_impl/broker.cc:370-384 | a failure is sent as the error object with its own number and text, an empty value as number 317 with its text, any other value as itself |
| Replay.FailuresDiffer | src/broker_impl/broker.cc:372-375 | two failures are sent alike only if they have the same number and text |
| Replay.ReplayImpl.constructor | src/broker_impl/broker.cc:21-25 | a new reply object has an empty message and no handlers |
| Replay.ReplayImpl.OnComplete | src/broker_impl/broker.cc:27-29 | registers the complete handler and changes nothing else |
| Replay.ReplayImpl.SetCommit | src/broker_impl/broker.cc:31-33 | registers the commit handler and changes nothing else |
| Replay.ReplayImpl.Send | src/broker_impl/broker.cc:368-395 | building an error object first and sending the message only if it stayed empty sends exactly the answer; a failure with its own number and text |
| Replay.ReplayImpl.Commit | src/broker_impl/broker.cc:35-40 | with a commit handler one reply is published and the complete handler dropped, without one nothing happens |
| Replay.ReplayImpl.Destroy | src/broker_impl/broker.cc:14-19 | runs the complete handler if there is one |
| Replay.StepKeepsInv | src/broker_impl/broker.cc:366-407 | every event in the life of a reply object keeps its accounts of replies, frees, channels and handler runs |
| Decimal.PrintMeaning | src/broker_impl/broker.cc:47-52 | a printed number is a numeral without leading zero that stands for the number |
| Decimal.PrintInjective | src/broker_impl/broker.cc:47-52 | two numbers print alike only if they are equal |
| Deferred.Deferred.constructor | include/capy/amqp_deferred.h:50-51 | a new callback object has no handlers, the given error, and an arbitrary gate |
| Deferred.Deferred.ReportData | include/capy/amqp_deferred.h:83-87 | runs the data handler exactly if it is registered and the gate is open |
| Deferred.Deferred.ReportSuccess | include/capy/amqp_deferred.h:93-98 | opens the gate and runs the success handler exactly if one is registered |
| Deferred.Deferred.ReportError | include/capy/amqp_deferred.h:105-114 | an error closes the gate, runs a registered error handler and leaves the slot empty; an OK report only empties the slot |
| Deferred.Deferred.Destroy | include/capy/amqp_deferred.h:159-163 | a pending error and then the finalize handler, each if registered |
| Deferred.GateFollowsStatus | include/capy/amqp_deferred.h:83-114 | over any sequence of reports the gate follows the latest effective status, and before any it is what memory held |
| Deferred.DataRunsExactlyWhenOpen | include/capy/amqp_deferred.h:83-114 | after an initial success or failure, a data report runs a registered data handler if and only if the latest effective status before it was a success |
| Deferred.SuccessReachesHandlerOnce | include/capy/amqp_deferred.h:93-98 | over any sequence of reports every success runs a registered success handler once, no other report and no destruction does, and registrations run nothing |
| Deferred.FailureReachesHandlerOnce | include/capy/amqp_deferred.h:105-114 | every failure reaches a registered error handler exactly once, and an OK report none |
| Deferred.DestructionRepeatsNothing | include/capy/amqp_deferred.h:159-163 | destruction repeats no reported error and runs a registered finalize handler once, which no report does |
| CacheModel.FlattenAt | include/capy/amqp_cache.h:388-391 | a key is in the flat map exactly if it is in the one shard its hash selects, with the same item |
| CacheModel.FlattenSize | include/capy/amqp_cache.h:155-176 | shards are disjoint: the flat map's size is the sum of theirs |
| CacheModel.SetRefines | include/capy/amqp_cache.h:187-236 | setting in the shard is setting in the flat map, with the same answer, in all three write modes |
| CacheModel.GetRefines | include/capy/amqp_cache.h:287-331 | reading the shard is reading the flat map, with the same answer and the same lazy erasure |
| CacheModel.DelRefines | include/capy/amqp_cache.h:256-266 | deleting from the shard is deleting from the flat map, with the same answer |
| CacheModel.CullRefines | include/capy/amqp_cache.h:98-116 | sweeping a shard is sweeping the flat map of that shard's expired keys |
| Cache.Cache.constructor | include/capy/amqp_cache.h:124-139 | a new cache is an empty map |
| Cache.Cache.Set | include/capy/amqp_cache.h:187-236 | writes the value with its expiration and returns 1 if unconditional, or present for the one mode and absent for the other; otherwise changes nothing and returns 0 |
| Cache.Cache.Get | include/capy/amqp_cache.h:287-331 | returns the value stored if its expiration is 0 or not passed; an item past it is erased and nothing returned |
| Cache.Cache.Has | include/capy/amqp_cache.h:244-248 | true exactly for a stored non-null value whose expiration is 0 or not passed |
| Cache.Cache.Del | include/capy/amqp_cache.h:256-266 | removes the key from the flat map and counts it |
| Cache.Cache.Flush | include/capy/amqp_cache.h:268-276 | empties the flat map and returns its former size |
| Cache.Cache.Metrics | include/capy/amqp_cache.h:155-176 | undisturbed, returns the flat map's size |
| Cache.Cache.CullExpiredKeys | include/capy/amqp_cache.h:98-116 | removes from one shard exactly the items expired at their own clock reading |
| Cache.Cache.CuratePass | include/capy/amqp_cache.h:352-365 | one pass is one sweep of the flat map, each item that can expire judged by its own reading taken during the pass |
| CacheRuns.RunRefines | include/capy/amqp_cache.h:187-331 | for every hash function and every interleaving at shard-lock granularity, answers (the shard counts of metrics and flush included) and final contents are those of one flat map, and each key stays in its own shard |
| CacheRuns.WalkReturns | include/capy/amqp_cache.h:155-276 | in every interleaving a flush call returns exactly the entries its own steps erased from the flat map, and a metrics call those its own steps saw |
| CacheRuns.CountsHold | include/capy/amqp_cache.h:155-276 | in every interleaving fresh inserts equal live entries plus those erased by del, expiry, curator and flush; a finished metrics or flush call is off by no more than the erasures of others and the inserts made while it ran |
| CacheRuns.StepKeepsInv | include/capy/amqp_cache.h:187-276 | every critical section keeps conservation and the bounds of every walk in progress |
| CacheLaws.ReadsWhatWasWritten | include/capy/amqp_cache.h:287-331 | over any run: after a write that took effect, with no write, deletion or flush of the key since and a clock that does not go back, a read answers the value written up to and including its expiration (always if that is 0), and nothing after |
| CacheLaws.ReadsExactly | include/capy/amqp_cache.h:287-331 | the same for any clock: nothing also once a read or sweep has looked at the item past its expiration |
| CacheLaws.WritesGoByPresence | include/capy/amqp_cache.h:187-266 | after such a write, OnlyIfSet and deletion answer 1 and OnlyIfNotSet 0 until the item was looked at past its expiration, and the reverse after; an unconditional write always answers 1 |
| CacheLaws.AbsentUntilWritten | include/capy/amqp_cache.h:187-331 | a key not written since the start, its deletion or its flush is answered as absent by every operation |
| CacheLaws.RefusedWriteChangesNothing | include/capy/amqp_cache.h:202-233 | every write answers 1, or answers 0 and changes nothing |
| CacheLaws.ShardsAnswerAlike | include/capy/amqp_cache.h:187-331 | the sharded cache answers by these laws in every interleaving at shard-lock granularity |
| CacheCurator.CuratorNoticedExactly | include/capy/amqp_cache.h:202-366 | for every run, in any write modes, with walks or without: all answers of reads and writes (and, if asked for, of deletions) are those of the run without sweeps if and only if no conditional write (or deletion) meets an entry that would still be stored and that the last sweep since it was written found expired |
| CacheCurator.CuratorNoticedExactlyInShards | include/capy/amqp_cache.h:202-366 | the same for the sharded cache and sweeps of single shards, which may overlap operations on other shards |
| CacheCurator.CuratorInvisible | include/capy/amqp_cache.h:341-366 | with readings for each key that never go back, sweeps inserted anywhere in a run without conditional writes change no answer of a read or write |
| CacheCurator.LiveKeysTellNothing | include/capy/amqp_cache.h:202-233 | what a caller can check: if conditional writes (and deletions) are used only on keys that are absent or not expired by a clock reading taken before, no answer changes |
| CacheCurator.ConditionalWriteWitness | include/capy/amqp_cache.h:202-233 | a concrete run with one sweep and one conditional write, of either mode, whose answer is the opposite without the sweep |
| ConnectionCache.Connections.NewChannel | src/broker_impl/broker.h:133-144 | a thread's channel is on its own connection, made if it has none |
| ConnectionCache.Connections.GetConnection | src/broker_impl/broker.h:155-161 | returns the thread's own connection, never null |
| ConnectionCache.OneConnectionPerThread | src/broker_impl/broker.h:133-161 | in every interleaving without flush: no thread makes two connections, no use is of null, all uses of one thread are of one connection and two threads never share one |
| ConnectionCache.CallUsesOwn | src/broker_impl/broker.h:133-161 | each call in progress can go on, and ends in one use: of a connection just made if the thread had none, of its own otherwise |
| Pool.MadeAt | src/broker_impl/pool.h:107-112 | the object at index k of a full pool is the one the factory made for k |
| Pool.ReversedAt | src/broker_impl/pool.h:65-73 | the reversed order is counted from the end |
| Pool.Pool.constructor | src/broker_impl/pool.h:61-63 | a new pool holds what the factory made, in order |
| Pool.Pool.TryAcquire | src/broker_impl/pool.h:65-73 | hands out the next object of the schedule, or nothing if none is available |
| Pool.Pool.Release | src/broker_impl/pool.h:75-79 | puts the object at the end of the schedule |
| Pool.Pool.GetAvailable | src/broker_impl/pool.h:83-86 | objects made plus released minus acquired |
| Pool.FirstInFirstOut | src/broker_impl/pool.h:65-79 | in every run the acquired objects are a prefix of the reversed fill order followed by the releases |
| Pool.NoLostWakeUp | src/broker_impl/pool.h:65-79 | in every reachable state with the lock free, spurious wake-ups included, a thread sleeps only if nothing is available |
| Pool.NothingLost | src/broker_impl/pool.h:61-86 | when only held objects are released, available plus held plus returning objects are exactly those made |
| Pool.NeverHeldTwice | src/broker_impl/pool.h:65-79 | an object made once is in at most one of those places, once |
| Pool.SleeperMeansAllOut | src/broker_impl/pool.h:65-79 | with the lock free, a sleeper implies that every object made is out of the vector |
| Pool.QuietMeansWaitingForCallers | src/broker_impl/pool.h:65-79 | no deadlock: when nothing can move, the lock is free and every call in progress sleeps with all objects held by callers |
| DotenvScan.AcceptsLanguage | external/dotenv/dotenv.h:140-246 | the automaton accepts exactly the texts of well-formed files |
| DotenvScan.StuckMeansHopeless | external/dotenv/dotenv.h:296-299 | the automaton is stuck exactly on the texts that cannot be completed to a file |
| DotenvScan.Unambiguous | external/dotenv/dotenv.h:155-178 | all well-formed readings of a text have the same bindings |
| DotenvScan.CommentNeedsText | external/dotenv/dotenv.h:209-215 | where a line begins, a hash sign and one more character can be completed if and only if that is not a line break |
| DotenvScan.ReturnNeedsFeed | external/dotenv/dotenv.h:242-246 | where a line begins, a carriage return and one more character can be completed if and only if that is a line feed |
| DotenvScan.KeyNeedsEquals | external/dotenv/dotenv.h:164-174 | a key cannot be followed by a comment or a line break, and by anything else it can |
| DotenvScan.EqualsNeedsKey | external/dotenv/dotenv.h:155-178 | no line can begin with an equals sign |
| DotenvScan.ValueEndsAtBlank | external/dotenv/dotenv.h:155-207 | after a value and a blank only a blank, a comment or a line break can follow |
| DotenvLanguage.FirstWinsMeaning | external/dotenv/dotenv.h:315-321 | old entries stay, and a new key gets the value of its first pair |
| DotenvLanguage.PositionMeaning | external/dotenv/dotenv.h:155-158 | the row counts line feeds, and the column counts back to the start of the line |
| DotenvParser.Classes | external/dotenv/dotenv.h:355-392 | the parser's character classes with both quotes are those of the format, each given by the characters it leaves out |
| DotenvParser.Parser.Get | external/dotenv/dotenv.h:292-292 | takes the next character, or sets the end flag |
| DotenvParser.Parser.Next | external/dotenv/dotenv.h:287-294 | consumes the lookahead into the bound buffer and counts the column at 32 bits; throws only with a bound null buffer |
| DotenvParser.Parser.Match | external/dotenv/dotenv.h:275-285 | consumes a character of the class, or reports the present position and changes nothing |
| DotenvParser.Parser.MatchWhile | external/dotenv/dotenv.h:162-162 | consumes the longest run of the class, into the bound buffer |
| DotenvParser.Parser.Key | external/dotenv/dotenv.h:180-194 | the key is the longest run of key characters, quotes included |
| DotenvParser.Parser.Value | external/dotenv/dotenv.h:196-207 | the value is the longest run of value characters, possibly empty |
| DotenvParser.Parser.InsertToMap | external/dotenv/dotenv.h:315-321 | a key already present keeps its value; throws only with a bound buffer or an empty key |
| DotenvParser.Parser.PairContent | external/dotenv/dotenv.h:164-174 | a pair is stored once read, or the parse stops where nothing can repair it |
| DotenvParser.Parser.Comment | external/dotenv/dotenv.h:209-215 | a comment needs a character and runs to the line break |
| DotenvParser.Parser.LineContent | external/dotenv/dotenv.h:155-178 | after a line the map holds its first-wins bindings and the counters name the position |
| DotenvParser.Parser.NL | external/dotenv/dotenv.h:242-246 | a line feed, or a carriage return followed by one, and nothing else |
| DotenvParser.Parser.Env | external/dotenv/dotenv.h:140-153 | the loop over lines ends at the end of an accepted text or at the first hopeless character |
| DotenvParser.Parser.Parse | external/dotenv/dotenv.h:125-153 | terminates; never reaches the internal throws; succeeds exactly on well-formed files and then stores the first binding of each key; otherwise reports the row and column of the first character that no continuation can repair |
| DotenvParser.OutcomeMeaning | external/dotenv/dotenv.h:296-299 | stopping at an offending character means: no file, the prefix can be completed, the prefix with that character cannot |
| DotenvParser.KeptPairs | external/dotenv/dotenv.h:315-321 | the pairs that a failed parse keeps are those of the longest well-formed file that the consumed text starts with |
| DotenvParser.DistinctKeysSurvive | external/dotenv/dotenv.h:315-321 | first-wins drops no pair of a file with distinct keys and adds none |
| DotenvParser.RoundTrip | external/dotenv/dotenv.h:155-246 | the parser, run on a file with distinct keys printed with any blanks, comments and line endings, succeeds and turns an empty map into exactly the file's own pairs |
| AddressPattern.ScanIsFirst | src/amqp_address.cc:94-97 | the scanner succeeds exactly if the expression matches the whole text, and finds the match that comes first in the order of a backtracking matcher |
| AddressPattern.LoginIsFirst | src/amqp_address.cc:94-97 | a login group is found if there is one, and all its readings end at the same place |
| AddressPattern.Classes | src/amqp_address.cc:94-94 | the character classes of the expression, by code or by what they leave out |
| PortNumber.PlainNumber | src/amqp_address.cc:131-131 | a plain decimal number is read as itself if an int holds it and is an error if not, whatever non-digit follows |
| PortNumber.Octal | src/amqp_address.cc:131-131 | after a leading zero the digits up to the first that is not octal are read in base 8, whatever follows |
| PortNumber.Hexadecimal | src/amqp_address.cc:131-131 | after `0x` and a hexadecimal digit the digits up to the first that is not hexadecimal are read in base 16, whatever follows |
| PortNumber.Digits | src/amqp_address.cc:131-131 | which characters are white space, octal and hexadecimal digits, and what each digit stands for |
| PortNumber.PositionalValue | src/amqp_address.cc:131-131 | a text of digits stands for the sum of its parts, each shifted by the digits that follow |
| PortNumber.LeadingSpace | src/amqp_address.cc:131-131 | white space before the number changes nothing |
| PortNumber.MinusSign | src/amqp_address.cc:131-131 | a minus sign negates a number that was readable without it |
| PortNumber.NoNumber | src/amqp_address.cc:131-131 | a text without a digit where the number should start is an error, with a sign or without |
| Address.Split | src/amqp_address.cc:55-65 | the getline loop yields the pieces between delimiters |
| Address.TokensMeaning | src/amqp_address.cc:55-65 | the pieces hold no delimiter and joined give the text back, but for a delimiter at its end |
| Address.ToUpper | src/amqp_address.cc:101-101 | the in-place transform is the upper-case text |
| Address.From | src/amqp_address.cc:86-182 | the record filled field by field, or the error, is what the address means; an accepted one holds the parts of the match, or the default port and guest login for those left out |
| Address.LoginPieces | src/amqp_address.cc:146-166 | only a login with a colon and a non-empty password gives user and password |
| Address.Accepted | src/amqp_address.cc:86-182 | an address is accepted if and only if the expression matches, the protocol is amqp or amqps, the port is absent or a 16-bit number, and the login is absent or has both parts; only the empty text is reported as empty |
| Address.RecordSpelledOut | src/amqp_address.cc:86-182 | every accepted address gives host and virtual host as matched, port 5672 or the number read, the login's user and password or guest twice, and the protocol as written |
| Address.NullEndsAddress | src/amqp_address.cc:86-97 | an address means what it means up to its first null character |
| AddressRoundTrip.RoundTrip | src/amqp_address.cc:86-182 | with or without login, port, virtual host and query or fragment, each independently: an address printed from its parts is read back as exactly those parts if and only if there is a virtual host, or no query or fragment, or a port and no slash in the query or fragment |
| AddressRoundTrip.Defaults | src/amqp_address.cc:123-151 | an address of a host and perhaps a virtual host gets the default port and the guest login |

## Left out

- AMQP-CPP, libuv, TCP connections, heartbeats and `ConnectionHandler`: foreign code and I/O; their effects are the callback steps.
- `publish_message` and `Broker::Bind`: straight-line library calls with one barrier.
- Routing connection errors to the latest listener (`set_deferred`, `reset_deferred`): depends on which thread runs the loop. The listener's callback object may therefore outlive its entry, and when its finalize handler runs is not modelled.
- Listener callbacks after their listener is removed dereference null in the code; nothing is claimed about them.
- JSON and message-pack encoding: any pair of functions; the error object of an answer is modelled as the value it builds.
- Error texts and error categories: only codes are kept. The text of an exception is not.
- The maps of `Broker.Broker` stand for the two caches, whose entries never expire; `CacheRuns.RunRefines` is why a flat map is enough.
- `RpcSystem` does not record which handlers of a listener run, only whether one was given the reply object.
- Handlers that call back into the broker: their steps are separate events of the run, after the callback that ran them.
- `Pool::empty` and the pool's destructor: they add only easy members.
- File opening and the singleton of `dotenv::config`, thread start-up, the curator's sleep: environment only.
- `FASTCACHE_SLOW` and `FASTCACHE_MUTABLE_DATA`: off by default.
- `std::regex` may give up on very long texts with an exception; the model's matcher never does.
