# auxlry: a verified model of its stateful cores

auxlry is a multi-agent daemon. This project models, in Dafny, the parts of it that keep state or
speak a binary format, and proves what they keep over every run.

| file | models |
|---|---|
| `MemoryGraph.dfy` | the knowledge graph's edge table and the bounded breadth-first expansion of hybrid search |
| `HybridSearch.dfy` | reciprocal-rank fusion, importance boost, filters, sort and truncation |
| `IdFilter.dfy` | the quoted id filters sent to the vector table, and their reader |
| `MemoryStores.dfy` | vector rows, metadata and edges, the four memory tools, and the search over all three |
| `SessionDebounce.dfy` | message batching: sessions, timer tasks, a clock |
| `InterfaceDispatch.dfy` | the interface agent's loop with its deferred stack and steering |
| `AgentSignals.dfy` | signals, their reasons, the registry of running agents, the last assistant text |
| `AgentRun.dfy` | the run of an operator or synapse: retries inside steering rounds |
| `AgentConcurrency.dfy` | the two semaphores and the registry under all interleavings |
| `Bytes.dfy`, `StunTurn.dfy` | the STUN/TURN codec with HMAC-SHA1 message integrity |
| `NodeProtocol.dfy` | frames, the dispatchers of both peers and the remote executor |
| `NodeLinking.dfy` | one-time link codes with their age, and node tokens |
| `MessageChunker.dfy` | the chat adapter's message splitter |
| `Wrappers.dfy` | option and result values |

An object the program updates is a class here, and each of its methods is tied to a step function
(`View() == Apply(old(View()), ...)`); the results about whole runs are lemmas about that function.
Loops of the program are loops with invariants.

What the proofs say about the code where its promise has a limit:

- Order and conservation hold for every channel of a set exactly when no two of them share a session
  key `interface:channel` (`ChannelsApartExactly`); otherwise `SharedKeyMisdelivers` sends a message of
  one channel to the other. A shared key needs a colon both in an interface name and in a channel name
  (`SharedKeyShape`), so either kind of name being colon-free is enough (`ChannelsStayApart`). The only
  adapter reports channels as digits (src/adapters/discord.rs:175-180), so it never produces one.
- The flush delay is below twice the debounce time only if that time is not 0; `FlushTiming` and
  `OpenSessionsAreRecent` cover both cases.
- A TURN request's header length, realm and nonce are right exactly below 65536 bytes
  (`RequestLength`, `ChallengeReadsBack`); longer ones are truncated to 16 bits. Realm and nonce are
  recovered with every user name below 65536 bytes; `LongNameHidesChallenge` is a longer one that hides both.
- A run publishes a terminal event exactly when its prompt renders and its client can be made
  (`RunAgent`); otherwise Started stays alone.
- No interleaving of agents deadlocks exactly when both concurrency limits are at least 1 (`DeadlockFreedom`).
- A remote operation succeeds like the local one exactly when both messages fit a 64 MiB frame, but takes
  effect on the peer exactly when the request fits: a reply that is too long hides an operation that was
  done (`RemoteRefinesLocal`).
- The documentation says that link codes expire after 5 minutes (README.md:123 of the repository); the code checks no age.
  A code admits after any time (`CodesNeverExpire`, `LateCodeExample`), so the documented rule is followed
  exactly where no pending code is older than 5 minutes (`ExpiryExactly`).
- A signal fails for an agent that is still registered but whose run has returned (`ActiveAgents.Signal`).
- Deferred batches are served last in, first out, so no order among them is claimed.

## Model

| member | source | states |
|---|---|---|
| MemoryGraph.Expand | src/memory/search.rs:131-161 | the three nested loops compute `Expansion`, the function the distance results are about |
| MemoryGraph.Visit | src/memory/search.rs:144-158 | the edges of one frontier node add exactly the neighbours not seen before, each once |
| MemoryGraph.EdgesForExact | src/memory/graph.rs:93-116 | an edge is listed for an id exactly when it is stored and touches the id at either end |
| MemoryGraph.LayerStep | src/memory/search.rs:142-160 | one round takes the ids at distance n, with everything within n seen, to the ids at distance n + 1 |
| MemoryGraph.ExpansionExact | src/memory/search.rs:131-161 | the expansion lists exactly the ids at undirected distance 1 to depth from the seeds, each once, none a seed, nearest first |
| MemoryGraph.ExpansionPrefix | src/memory/search.rs:142-160 | the list for a smaller depth is a prefix of the list for a larger one |
| HybridSearch.Fuse | src/memory/search.rs:166-186 | both loops together give each id of either list its summed score and its first row, the vector row if there is one |
| HybridSearch.FusionByShares | src/memory/search.rs:166-186 | adding shares entry by entry yields the sum of 1/(61+rank) over vector positions plus 0.5/(61+rank) over graph positions |
| HybridSearch.VectorBeatsGraph | src/memory/search.rs:166-186 | a vector hit of rank r outranks a graph-only hit of rank g if r < 61 + 2g, and exactly then for a hit the graph list lacks |
| HybridSearch.BoostAndFilter | src/memory/search.rs:188-216 | in whatever order the map is walked, the admitted candidates come out once each with their boosted scores |
| HybridSearch.PoolExactly | src/memory/search.rs:191-216 | an entry stays exactly if it has the requested kind and, where it has metadata, the least importance; metadata multiplies its score by 1 + importance / 10 |
| HybridSearch.SortByScore | src/memory/search.rs:218-219 | the same entries, in descending order of score |
| HybridSearch.SortAndTruncate | src/memory/search.rs:218-220 | distinct ids, best first, min(limit, candidates) many, and nothing left out beats anything returned |
| IdFilter.InFilterReadsBack | src/memory/store.rs:164-165 | for every non-empty list of strings, the reader of ISO/IEC 9075-2 section 5.3 gets back exactly that list |
| IdFilter.EqFilterReadsBack | src/memory/store.rs:147-154 | the delete filter names exactly the id it was built from, whatever its characters |
| IdFilter.QuotesAreDoubled | src/memory/store.rs:147-165 | every quote in an id is doubled and no other character is touched |
| IdFilter.PlainFilters | src/memory/store.rs:147-165 | the text of both filters for ids without quotes |
| MemoryStores.FetchByIdsExact | src/memory/store.rs:157-211 | fetching through the filter finds exactly the rows of the given ids, each once |
| MemoryStores.DeleteRowsExact | src/memory/store.rs:147-154 | deleting through the filter removes exactly the rows of the given id |
| MemoryStores.UpsertExact | src/memory/graph.rs:70-90 | an edge replaces the one with the same triple or is added; triples stay unique and no other edge changes |
| MemoryStores.EdgesAwayExact | src/memory/graph.rs:214-222 | exactly the edges touching the id go |
| MemoryStores.EdgeCountExact | src/memory/graph.rs:163-172 | the count is the number of edges listed for the id |
| MemoryStores.RecordAccessesExact | src/memory/graph.rs:175-184 | for distinct ids, exactly those with metadata gain one access and the new time |
| MemoryStores.SearchCountsOnce | src/memory/search.rs:231-233 | a search counts one access for each returned memory that has metadata, and none elsewhere |
| MemoryStores.Memory.StoreTool | src/memory/tools.rs:174-201 | the new state of all three tables after a store |
| MemoryStores.Memory.UpdateTool | src/memory/tools.rs:258-281 | the new state after an update: row replaced with an empty source, kind changed only where metadata exists |
| MemoryStores.Memory.DeleteTool | src/memory/tools.rs:324-341 | the new state after a delete in all three tables |
| MemoryStores.Memory.CreateEdgeTool | src/memory/tools.rs:407-424 | the new state after an edge call; an unknown relation is an error and changes nothing |
| MemoryStores.Memory.Search | src/memory/search.rs:119-236 | for hits that are stored rows, each once: at most limit rows that were hit or lie at distance 1 to depth from the first limit hits, of the requested kind and importance, with the scores of both ranks and the boost, best first, and a row left out scores no more in a full answer; only the access counters of the returned ids change |
| MemoryStores.SearchIsExact | src/memory/search.rs:127-236 | the same of every answer that is the top of the candidate pool, in terms of the three tables alone |
| MemoryStores.UpdateIsExact | src/memory/tools.rs:258-281 | after an update the id has one row, the new one, its access count is kept, and every other memory is untouched |
| MemoryStores.StoreIsExact | src/memory/tools.rs:174-201 | a store adds one row with the given source and counters at 0 with its time, unless the id has some already, and changes nothing else |
| MemoryStores.DeleteIsExact | src/memory/tools.rs:324-341 | a delete leaves every other memory's row, metadata and edges |
| MemoryStores.EdgeIsExact | src/memory/tools.rs:407-424 | an edge call with the name of a relation leaves that edge in place of any other of the same source, target and relation, and any other name changes nothing |
| MemoryStores.RelationReadsBack | src/memory/graph.rs:19-38 | a name reads as a relation exactly if it is that relation's name |
| MemoryStores.SearchLeaves | src/memory/search.rs:231-233 | a search leaves rows and edges, and counts one access at its time for each returned id with metadata |
| MemoryStores.StepKeepsInStep | src/memory/tools.rs:174-424 | every tool call and search keeps one row per id, metadata that agrees with its row, and unique edge triples |
| MemoryStores.RunKeepsInStep | src/memory/tools.rs:174-424 | so does every run whose stores use fresh ids |
| MemoryStores.DeleteIsComplete | src/memory/tools.rs:324-341 | after a delete the id has no row, no metadata and no edge |
| MemoryStores.DeletedStaysOut | src/memory/tools.rs:324-341 | and it gets neither row nor metadata until it is written again, over every run |
| MemoryStores.SearchPoolExact | src/memory/search.rs:127-216 | a search can return an id exactly if its row is a vector hit or lies at distance 1 to depth from the first limit hits, has the requested kind and, where it has metadata, the least importance; its score is 1/(61+rank) as a hit plus half of that by its rank among the linked rows, times 1 + importance / 10 |
| MemoryStores.DeletedIsNotFound | src/memory/search.rs:127-216 | no search returns a deleted id until it is written again |
| SessionDebounce.SessionManager.AddMessage | src/interface/session.rs:51-113 | the new sessions, timers and history after a message |
| SessionDebounce.SessionManager.WakeTimer | src/interface/session.rs:82-110 | the new state after a timer's check: flush, sleep again, or end |
| SessionDebounce.StepKeepsGood | src/interface/session.rs:51-113 | every step keeps the session and timer pairing, the timing bounds and conservation |
| SessionDebounce.SessionsAreWatched | src/interface/session.rs:58-112 | in every reachable state an open session has messages and exactly one timer, a closed one has none, and sent then pending messages are the arrivals in order |
| SessionDebounce.FlushTiming | src/interface/session.rs:71-106 | every batch is flushed a whole number of debounce times D after its first message, at least D and less than 2D after its last one, neighbours in it are less than 2D apart, and all times coincide for D = 0 |
| SessionDebounce.OpenSessionsAreRecent | src/interface/session.rs:71-106 | no session is still open 2D after its last message, in any reachable state |
| SessionDebounce.ArrivalsExactly | src/interface/session.rs:51-72 | the arrivals of every run are its calls in order, with author, content and time |
| SessionDebounce.ChannelsApartExactly | src/interface/session.rs:58-112 | for every debounce time and set of names: order and conservation hold per interface and channel in all runs over the names if and only if no two of them share a key |
| SessionDebounce.SharedKeyShape | src/interface/session.rs:58 | two names share a key if and only if the key can be cut at two colons, one name taking the earlier and the other the later |
| SessionDebounce.KeyInjective | src/interface/session.rs:58 | colon-free channel names, or colon-free interface names, give different names different keys |
| SessionDebounce.ChannelsStayApart | src/interface/session.rs:58-112 | with either kind of name colon-free, order and conservation hold per interface and channel |
| SessionDebounce.SharedKeyMisdelivers | src/interface/session.rs:58-106 | for every debounce time and every two names that share a key: a reachable state in which the message of one channel was sent to the other |
| InterfaceDispatch.InterfaceLoop.Next | src/interface/agent.rs:213-222 | the new state when the loop picks its next batch or stops |
| InterfaceDispatch.InterfaceLoop.Receive | src/interface/agent.rs:236-261 | the new state when a batch arrives during processing: steered or deferred |
| InterfaceDispatch.InterfaceLoop.Drain | src/interface/agent.rs:265-268 | a waiting batch moves to the deferred stack |
| InterfaceDispatch.InterfaceLoop.Respond | src/interface/agent.rs:270-291 | the loop over the adapters sends the reply or the apology once through each adapter of the interface |
| InterfaceDispatch.StepHolds | src/interface/agent.rs:210-292 | no step loses or duplicates a batch; only an arrival adds one |
| InterfaceDispatch.DeliveriesBy | src/interface/agent.rs:190-196 | each adapter is asked to send exactly one message, the response or the apology, if it carries the interface's name, and none otherwise |
| InterfaceDispatch.DispatchIsExact | src/interface/agent.rs:210-292 | over every run arrivals equal queued, deferred, in progress, answered and steered batches; steers stay on their channel; each answer has its one reply or apology; after exit every arrival was answered or steered |
| InterfaceDispatch.SteersExactly | src/interface/agent.rs:236-257 | over every run the steers are, in order, exactly the batches at the head of the queue that arrived for the channel in progress and that an agent took |
| InterfaceDispatch.StackStep | src/interface/agent.rs:213-268 | every batch that is taken and neither served nor steered goes on top of the deferred stack, which only serving its top one shortens |
| InterfaceDispatch.QueueInOrder | src/interface/agent.rs:210-268 | over every run batches leave the queue in the order in which they arrived |
| InterfaceDispatch.AnswersExactly | src/interface/agent.rs:213-291 | over every run the answers are the served batches in order, the one deferred last before the head of the queue, each with the result its answering ended in |
| InterfaceDispatch.NothingWaitsAtReply | src/interface/agent.rs:265-291 | a reply goes out only when every batch that arrived has been taken from the queue |
| InterfaceDispatch.ClosedRunEnds | src/interface/agent.rs:213-292 | once the input has closed every run is bounded and can only stop by exiting |
| AgentSignals.ReasonReadsBack | src/core/signal.rs:175-184 | the reason of every signal is decoded to that signal, so no cancellation reads as unknown |
| AgentSignals.ExtractLastAssistantText | src/core/signal.rs:212-225 | the text at the message and part after which no assistant text comes, or nothing where there is none |
| AgentSignals.LastTextExact | src/core/signal.rs:212-225 | the same of the function that specifies it |
| AgentSignals.ActiveAgents.Signal | src/core/signal.rs:105-115 | succeeds exactly for a registered id whose run still holds its receiver, and changes that agent's cell only |
| AgentSignals.ActiveAgents.SignalChannel | src/core/signal.rs:118-139 | no agent on the channel is one error; otherwise one agent met there is signalled and no other, or has dropped its receiver and the call gives up |
| AgentRun.PromptWithRetries | src/operator/agent.rs:175-241 | the retry loop yields the first outcome that is not transient, or the third |
| AgentRun.RunRound | src/operator/agent.rs:172-355 | the next state or the end of the run after one round |
| AgentRun.RunInner | src/operator/agent.rs:143-356 | the nested loops end on every oracle with finitely many Steer signals, and compute `RunFrom` |
| AgentRun.PromptExact | src/core/signal.rs:175-209 | a prompt ends by itself or at its first hook that is a call beyond the budget or finds a signal, the one sent last; calls and signals are those up to there |
| AgentRun.AttemptsExact | src/operator/agent.rs:175-241 | a round ends as its deciding attempt does: the first that is no error containing JsonError or ApiResponse, or the third; its calls are those of the attempts up to it |
| AgentRun.RoundFacts | src/operator/agent.rs:243-354 | a round ends the run with the event and result of its deciding attempt: the reply, the limit text, the error, or on a wrap-up the last assistant text or the notice; or it is steered and restarts with that prompt, the cancelled history, no signal and the calls left over |
| AgentRun.RunEndsWell | src/synapse/agent.rs:175-367 | every run: each round but the last was stopped by the Steer that was published for it and that the next one asks, with the history it left and the calls left over or one; the one terminal event and the result belong to how the last round's deciding attempt ended; at most 3 (max_turns + steers) model calls |
| AgentRun.BoundIsReached | src/operator/agent.rs:168-328 | for every limit and number of steers some run makes exactly that many model calls |
| AgentRun.RunAgent | src/operator/agent.rs:87-140 | Started and then the events of the run, with its result, exactly if the node is found and prompt and client are available |
| AgentConcurrency.Pool.Acquire | src/operator/agent.rs:94-98 | the new state when a run takes a permit of its kind |
| AgentConcurrency.Pool.Deregister | src/synapse/agent.rs:140-142 | the new state when a run leaves the registry, still holding its permit |
| AgentConcurrency.LimitsHold | src/synapse/agent.rs:99-142 | in every reachable state registered operators and synapses stay within their own limits, and the registered runs are the active ones |
| AgentConcurrency.DelegatesFinishFirst | src/synapse/tools.rs:68-73 | only a registered synapse delegates, and at every later point of every run it has left the registry only if the operator it started has finished |
| AgentConcurrency.DeadlockFreedom | src/synapse/tools.rs:68-73 | no reachable state is deadlocked if and only if both limits are at least 1 |
| AgentConcurrency.RunsFinish | src/operator/agent.rs:87-140 | with both limits at least 1 and no new work, every schedule is bounded and ends with all runs finished |
| StunTurn.HmacSha1 | src/network/turn.rs:263-294 | the pads XORed in place give the keyed hash of RFC 2104 |
| StunTurn.BuildAllocateRequest | src/network/turn.rs:131-193 | the bytes of the plain request, and an authenticated one that a server accepts exactly if its attributes take less than 65536 bytes |
| StunTurn.ServerAcceptsRequest | src/network/turn.rs:131-193 | on the received bytes: Allocate request, length, cookie, transaction, UDP transport, user name, realm and nonce, and last the RFC 2104 hash keyed with MD5(user ":" realm ":" password) over all before it |
| StunTurn.HmacIsRfc2104 | src/network/turn.rs:263-294 | the keyed hash with pads 0x36 and 0x5c over a key padded or hashed to 64 bytes |
| StunTurn.RequestAttributes | src/network/turn.rs:165-192 | the message integrity is the last attribute and is keyed over all that precedes it, after RFC 5389 section 15.4 |
| StunTurn.RequestLength | src/network/turn.rs:186-192 | the attribute area is whole words and the header gives its length exactly below 65536 bytes |
| StunTurn.RoundUp4IsMasking | src/network/turn.rs:219 | the padded length is the least multiple of 4 not below the length |
| StunTurn.ExtractAuthChallenge | src/network/turn.rs:195-226 | the last realm and the last nonce the walk meets, as text, or the error for the first one missing |
| StunTurn.ChallengeTypes | src/network/turn.rs:195-226 | realm is attribute type 0x0014 and nonce 0x0015 |
| StunTurn.LastOfExact | src/network/turn.rs:209-217 | the value of the attribute of its type that no other one comes after |
| StunTurn.ChallengeReadsBack | src/network/turn.rs:195-226 | walking a built request never recovers a realm or nonce of 65536 bytes or more; with a user name below 65536 bytes it recovers both if and only if both are shorter |
| StunTurn.LongNameHidesChallenge | src/network/turn.rs:142-147 | a user name of 65536 letters z makes the walk of the built request miss realm and nonce |
| StunTurn.ParseXorMappedAddress | src/network/hole_punch.rs:53-90 | on any bytes, the address of the first IPv4 attribute of type 0x0020, or an error |
| StunTurn.ParseAllocateResponse | src/network/turn.rs:228-259 | the same function of the bytes for type 0x0016 |
| StunTurn.ScanFindsFirst | src/network/hole_punch.rs:60-87 | on any bytes, well-formed or not, the address walk finds what the attribute list holds |
| StunTurn.AddressReadsBack | src/network/hole_punch.rs:68-80 | decoding the XOR-ed form of RFC 5389 section 15.2 gives back every address and port |
| Bytes.XorBit | src/network/turn.rs:276-279 | a bit is set exactly where the two bits differ |
| StunTurn.ResponseReadsBack | src/network/turn.rs:228-259 | for every list of attributes of less than 65536 bytes the walk of the encoded response gives the address of the first one of the kind that holds one, or nothing |
| StunTurn.SentAddressReadsBack | src/network/hole_punch.rs:53-90 | the address a server encodes after other attributes is the one the client reads |
| NodeProtocol.Stream.SendMessage | src/network/transport.rs:7-21 | one frame is appended to the stream |
| NodeProtocol.Stream.RecvMessage | src/network/transport.rs:24-46 | the first frame is taken off the stream, or the read fails |
| NodeProtocol.FrameReadsBack | src/network/transport.rs:24-46 | a message of any length is read back exactly when it is at most 67108864 bytes long |
| NodeProtocol.CutFrameFails | src/network/transport.rs:26-39 | a frame that is cut short anywhere is an error |
| NodeProtocol.FramesReadBack | src/network/transport.rs:7-46 | any sequence of messages of at most 64 MiB is read back from its concatenated frames |
| NodeProtocol.PeersAgree | src/cli/node_cmd.rs:163-208 | the node's protocol loop answers every message as the core's `handle_message` (src/node/handler.rs:182-235) does, with the same effect |
| NodeProtocol.OtherMessages | src/cli/node_cmd.rs:163-208 | Ping is answered with Pong, a message that is no request with an error showing it, and the node is not touched |
| NodeProtocol.OperationsReachTheNode | src/node/executor.rs:30-48 | each operation calls the node's function of that name with its own arguments |
| NodeProtocol.RemoteRefinesLocal | src/node/remote.rs:23-116 | for messages of every length: a remote operation returns a value exactly if the peer's local one did and both messages fit; the peer's state is the local operation's exactly if the request fits; errors keep their text; no reply is unexpected |
| NodeProtocol.SessionRefinesLocal | src/node/remote.rs:23-116 | any sequence of remote operations leaves the peer as the local operations whose requests fit would, each once and in order |
| NodeLinking.LinkTables.StorePendingCode | src/storage/database.rs:269-276 | a pending code cannot be stored twice; otherwise it becomes pending |
| NodeLinking.LinkTables.ConsumePendingCode | src/storage/database.rs:279-286 | tells whether the code was pending and removes it |
| NodeLinking.LinkTables.Authenticate | src/node/handler.rs:104-179 | tables, result and reply for each kind of first message |
| NodeLinking.CodesAdmitOnce | src/node/handler.rs:113-144 | over every run each storing of a code is still pending or has admitted exactly one link |
| NodeLinking.CodesNeverExpire | src/storage/database.rs:279-286 | whatever happens and however long it takes after a code is stored, except its use, the next request with it is accepted |
| NodeLinking.ExpiryExactly | src/node/handler.rs:113-127 | requests are decided by the documented 5-minute rule if and only if the code, where pending, is at most 5 minutes old |
| NodeLinking.LateCodeExample | src/node/handler.rs:113-127 | a code stored 301 seconds before is accepted |
| NodeLinking.LinksAreBought | src/node/handler.rs:113-144 | over every run links and pending codes together are as many as the codes stored |
| NodeLinking.TableHoldsLatest | src/storage/database.rs:131-140 | the token table holds one row per linked name, with the token of its latest link |
| NodeLinking.TokensLogInTheirNode | src/storage/database.rs:143-158 | with fresh tokens, lookup by token inverts lookup by name, and only the latest token of a name logs in |
| NodeLinking.LoginExactly | src/node/handler.rs:145-168 | after every run with fresh tokens a token login gives a node if and only if the answer is delivered and the token is that of the node's latest accepted request |
| NodeLinking.EarlierTokenIsRejected | src/node/handler.rs:145-168 | the earlier token of a node that was linked again logs in nobody |
| NodeLinking.AdmissionExactly | src/node/handler.rs:111-179 | an undelivered answer or another first message logs in nobody, a delivered request its node exactly while its code is pending |
| NodeLinking.LinksExactly | src/node/handler.rs:113-144 | the links of a run are its accepted requests in order, with their codes, nodes and tokens |
| NodeLinking.RelinkingRevokes | src/node/handler.rs:130-132 | linking a name again makes every earlier token of it unknown |
| MessageChunker.ChunkMessage | src/adapters/discord.rs:120-145 | the loop computes `Chunks`, the function the chunk results are about |
| MessageChunker.ChunksConcat | src/adapters/discord.rs:120-145 | the chunks concatenate to the text |
| MessageChunker.CutRule | src/adapters/discord.rs:134-142 | every chunk but the last ends at the last newline of its window, or is a full window without one |
| MessageChunker.ChunksFit | src/adapters/discord.rs:128-145 | every chunk fits, and no two neighbours fit into one |
| MessageChunker.CountBound | src/adapters/discord.rs:120-145 | at most 2 (length / (max_len + 1)) + 1 chunks |

## Left out

- MemoryStores.Memory.Search: scores are exact reals, not 32-bit floats, so ties made by rounding and NaN are not modelled; the nearest-neighbour answer and the importance formula are parameters.
- MemoryStores.Memory.StoreTool: a failure between two of the three tables is not modelled; every call completes.
- MemoryGraph.Expand: a failing edge query, which the loop skips, is not modelled; edge ids and creation times are not columns of the table.
- SessionDebounce.SessionManager.AddMessage: waiting for the session lock takes no time, and a full or closed batch queue is not modelled.
- InterfaceDispatch.InterfaceLoop.Respond: failures to persist or to send, which are only logged, are not modelled; the retries inside one answer are part of its given result.
- AgentRun.RunInner: the model provider's own turn counting is replaced by a budget that no prompt exceeds; backoff delays take no time.
- AgentConcurrency.LimitsHold: runs that are cancelled from outside are not modelled.
- MessageChunker.ChunkMessage: one-byte characters only; slicing inside a longer character is not modelled.
- StunTurn.ExtractAuthChallenge: the lossy conversion to text is a parameter; the sockets around the codec are not modelled.
- StunTurn.ChallengeReadsBack: with a user name of 65536 bytes or more, whether realm and nonce are recovered depends on the bytes of the name; no condition for that case is given.
- NodeProtocol.RemoteRefinesLocal: the message encoding is a parameter of which decoding its own encodings, and no proper prefix of them, is required; failures of the connection itself are not modelled.
- NodeLinking.LinkTables.Authenticate: code generation, token files and the reconnect backoff of a node are not modelled.
- The node registry, in which overlapping connections of one name replace and remove each other by name.
- The vector, embedding and SQL engines, the model provider, template rendering, QUIC and TLS.
- The keyword classifier, the event bus and its persister, configuration, HTTP routes, the dashboard and the process commands.
- The sandbox checks, file and process execution on a node.
