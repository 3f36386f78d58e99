# Models of the A2A gateway's protocols and algorithms

This project models the stateful protocols and the self-contained algorithms of the A2A commerce
gateway in Dafny 4.11, and proves what they keep over every input, every run and every
interleaving of their steps. `dafny verify dfyconfig.toml` checks all of it.

Each module follows one source file:

| module | what it models |
|---|---|
| `Sharder`, `SharderTight` | the greedy assignment of test files to CI shards, Graham's bound for it, and the inputs that reach the bound |
| `TierLimiter`, `TierMaximum` | the per-tier limiter: an event is recorded first, then an hour, a minute and a tool are counted, each by its own clock; and the runs that reach its bounds |
| `PublicLimiter` | the limiter of public routes, which prunes its lists, against one that keeps everything |
| `Disputes`, `DisputeRuns`, `DisputeBooks`, `DisputeOrder` | disputes over escrows: single calls and the expiry sweep; runs in which requests overlap and are cut off at any wait; the books of all runs; and the runs in which requests to end an escrow take turns |
| `Idempotency`, `IdempotencyRuns` | the idempotency gate for header keys, first without overlap, then with every storage call as a step |
| `EventStream` | the server-sent event generator over the event bus, and resuming it |
| `McpConnection` | reassembling lines from a child process, and matching responses to requests |
| `X402` | payment proofs: nonces in memory over a unique table, and the retry queue |
| `BudgetCaps` | rolling daily and monthly caps, checked before a call and charged after it |
| `Webhooks` | deliveries, their first sends and the retry worker |
| `Pagination`, `Base64`, `Decimal` | cursors, pages, the walk along `next_cursor`, and the search that slices in storage |
| `Markers` | statistics written between comment markers of an HTML page |

A stateful protocol has two forms. A class has the fields of the source's object, and its methods
are proved against specification functions of the old state. A run is a sequence of steps built
from the same functions, where each step is what happens between two waits, so any other request
may come in between; an invariant holds of every run, and the theorems follow from it. Clocks,
outcomes of network calls, and rows returned by a query in no stated order are parameters of the
steps. Where an order of time matters, clocks do not run backwards. Time and money are exact.

## Where the code does something else than its documentation says

- The hourly limit of a tier is not the number of calls an hour. The event is recorded before it is
  counted, so a limit `L` lets `L - 1` calls through, and bursts come on top. If each request read
  the clock once, the limit would be a bound exactly for tiers whose burst limit is at most one
  (`TierMaximum.LimitHoldsOneClock`), and the most calls in an hour would be the larger of `L - 1`
  and one burst, and 59 bursts (`TierLimiter.HourlyTotalOneClock`, `TierMaximum.HourlyReached`).
  The code reads the clock for every count. Then the limit is a bound exactly for tiers with a burst
  limit of at most one and an hourly limit of at most two, however little later the counts read it
  (`TierMaximum.LimitHoldsExactly`), and so for none of the tiers that are sold
  (`TierMaximum.ShippedTiersExceed`). How large the bound is depends on that lag
  (`TierLimiter.WindowTotal`), and there is none if it is unbounded
  (`TierLimiter.LateCountsSeeNothing`). Windows include the event at their lower end.
- The idempotency gate is documented to let one concurrent request through and replay the rest. A
  second request with the same body that finds the placeholder goes ahead as well
  (`IdempotencyRuns.OverlapRunsTwice`), as the code's own comment says. What holds in every
  interleaving is weaker, see `OneBodyPerRow` and `NoneAfterResponse`; single-shot execution holds
  when requests do not overlap. The time to live runs from the reservation, not from the response:
  a success can be followed by another run within it if and only if an earlier attempt had reserved
  the row (`Idempotency.RunsAgainWithinTtl`).
- Ending an escrow reads its status, pays, and writes the status, with waits in between and no lock.
  An escrow can be paid out, or paid out again, if and only if it is held or some request that has
  seen it as held has yet to pay (`DisputeRuns.CanBePaid`). So two overlapping endings pay twice, two
  overlapping resolutions of different disputes both succeed in opposite ways
  (`DisputeRuns.OverlappingResolutionsClash`, `DisputeRuns.DoublePayout`), and a request cut off
  after its deposit leaves an escrow that can be paid again (`DisputeRuns.CutOffPaysAgain`). In every
  run the books are off by exactly these surplus payouts (`DisputeBooks.BooksOfEveryRun`). That an
  escrow pays once and agrees with one dispute holds when the requests to end it take turns and none
  is cut off between its deposit and its status (`DisputeOrder`).
- A dispute may stay without a resolution for ever. It can still get one if and only if its escrow
  is held, or a request to resolve this very dispute that has seen the escrow as held is still under
  way (`DisputeRuns.CanBeResolved`). So a crash strands every unresolved dispute over an escrow that
  has ended, and after turns were taken so does a direct release or refund, which does not look at
  disputes (`gateway/src/tools/payments.py`), and the resolution of another dispute.
- `search_services` slices by `offset` while the page it returns is described by the cursor:
  following `next_cursor` shows the same items again (`Pagination.SearchRepeatsItsPage`), and its
  default limit is 20 where the page says 50. `Pagination.SearchIsFaithful` says exactly when the
  page is the one described.
- Rewriting a marker is documented as idempotent. For a value that contains `<`, a later write does
  not replace an earlier one (`Markers.WhenTheLastValueWins` is exact).
- A negative budget cap is truncated toward zero, so it may be stored above the requested value;
  this never lets a paid call through (`BudgetCaps.StoredCap`, `BudgetCaps.RequestedCapHolds`).

## Model

| member | source | states |
|---|---|---|
| Sharder.GrahamBound | scripts/ci/shard_tests.py:60-68 | for any files and any assignment of them to m shards with heaviest load M, every greedy load L has 3·m·L ≤ (4·m − 1)·M |
| Sharder.GreedyBound | scripts/ci/shard_tests.py:61-68 | the same bound for counts already in descending order, by induction on the files placed |
| Sharder.GreedyIsOptimalOnLargeFiles | scripts/ci/shard_tests.py:65-68 | when every file exceeds a third of M, no greedy load exceeds M |
| Sharder.LargeFileHasRoom | scripts/ci/shard_tests.py:65-68 | if a large file did not fit on the lightest shard, no assignment within M would exist: the exchange argument by counting shards |
| Sharder.SmallFileOvershoot | scripts/ci/shard_tests.py:65-68 | the lightest shard is at most the average, so a file of at most a third of M keeps its shard within the bound |
| Sharder.LoadsAddUp | scripts/ci/shard_tests.py:62-68 | the loads of all shards add up to the total count: no file is lost or on two shards |
| Sharder.SortSorts | scripts/ci/shard_tests.py:61 | the sort puts the counts in descending order |
| Sharder.SortKeepsSums | scripts/ci/shard_tests.py:61 | the sort keeps every sum over the files, so it loses and duplicates none |
| Sharder.LightestShard | scripts/ci/shard_tests.py:66 | the first shard of least load |
| Sharder.AssignShards | scripts/ci/shard_tests.py:62-68 | the loop on arrays of loads and lists ends with the greedy loads and with the greedy lists of paths |
| Sharder.SelectShard | scripts/ci/shard_tests.py:30-82 | error outside 0..num_shards − 1, nothing for no files, and else the greedy list of the requested shard |
| Sharder.ShardsPartition | scripts/ci/shard_tests.py:60-82 | the runs for all shard ids together select every path exactly as often as it was collected |
| SharderTight.GrahamBoundIsExact | scripts/ci/shard_tests.py:60-68 | for every m there are files on which the greedy rule reaches 4·m − 1 while another assignment stays within 3·m |
| SharderTight.GreedyReaches | scripts/ci/shard_tests.py:65-68 | on that family some greedy shard ends at 4·m − 1 |
| TierLimiter.RunInv | gateway/src/deps/rate_limit.py:57-73 | in every interleaving, each accepted request had the counts that the check demands, taken within its lag |
| TierLimiter.WindowTotal | gateway/src/deps/rate_limit.py:57-67 | for any lag between record and counts and any window, h stretches of an hour less the lag and k of a minute less the lag that cover it bound its accepted calls by h·(L − 1) + k·(B − 1) |
| TierLimiter.HourlyTotal | gateway/src/deps/rate_limit.py:57-67 | a whole hour with up to 60/61 s between a record and its counts holds at most 2·(L − 1) + 61·(B − 1) accepted calls of an agent |
| TierLimiter.HourlyTotalOneClock | gateway/src/deps/rate_limit.py:57-67 | a whole hour, in every interleaving in which each request reads the clock once, holds at most max(L − 1, B − 1) + 59·(B − 1) accepted calls of an agent |
| TierLimiter.HourlyTotalInLimits | gateway/src/deps/rate_limit.py:62-67 | hence at most 2·L + 60·a − 61, for burst allowance a |
| TierLimiter.HourlyBound | gateway/src/deps/rate_limit.py:62-63 | of calls that passed within the hourly limit, any hour less the lag holds at most L − 1 |
| TierLimiter.BurstBound | gateway/src/deps/rate_limit.py:63-67 | of calls that passed as bursts, any minute less the lag holds at most B − 1 |
| TierLimiter.BurstCover | gateway/src/deps/rate_limit.py:63-67 | k minutes, each less the lag, hold at most k times as many |
| TierLimiter.ToolHourlyTotal | gateway/src/deps/rate_limit.py:69-73 | a tool's own limit l allows at most l − 1 calls in any hour less the lag: it has no burst escape |
| TierMaximum.HourlyReached | gateway/src/deps/rate_limit.py:57-67 | for every tier, some run in order of time, without overlap, reaches that maximum in less than an hour |
| TierMaximum.LimitHoldsOneClock | gateway/src/deps/rate_limit.py:62-67 | in runs in which each request reads the clock once, the configured limit bounds every hour if and only if the burst limit is at most one |
| TierMaximum.LimitHoldsExactly | gateway/src/deps/rate_limit.py:60-67 | in runs in which counts read the clock up to some positive lag below a minute later, the configured limit bounds every hour if and only if the burst limit is at most one and the hourly limit at most two |
| TierMaximum.ShippedTiersExceed | pricing.json:6-37 | at any lag, each of the tiers that are sold has a run that exceeds its configured limit within an hour |
| TierLimiter.LateCountsSeeNothing | products/paywall/src/storage.py:314-342 | a request that counts an hour after the last recording passes any limit, so the lag must be bounded |
| TierLimiter.PaywallStorage.CheckRateLimits | gateway/src/deps/rate_limit.py:45-78 | admin and missing access record nothing; otherwise one event is added, and the call is refused if and only if the agent's events of the last hour and of the last minute reach their limits, or its events of this very tool reach the tool's, counted as sets over the table; the error carries the count and the limit |
| TierLimiter.CheckIsARun | gateway/src/deps/rate_limit.py:57-73 | an uninterrupted check is one of the interleaved runs, and accepts in the same cases |
| TierLimiter.RefusalsAreDue | gateway/src/deps/rate_limit.py:57-73 | in every interleaving a refused call has at least as many events in its log as its limit allows, of the agent in the hour and the minute, or of the agent and the same tool: calls of other tools never cause a tool refusal |
| PublicLimiter.ActiveTwice | gateway/src/rate_limit_headers.py:52-52 | pruning at an earlier cutoff never changes what a later cutoff keeps |
| PublicLimiter.AllowedStaysProper | gateway/src/rate_limit_headers.py:54-65 | an allowed request keeps every request's own window within the limit |
| PublicLimiter.WindowBound | gateway/src/rate_limit_headers.py:54-65 | no window (s, s + W] holds more than `limit` allowed requests of a client |
| PublicLimiter.BlockedIsFull | gateway/src/rate_limit_headers.py:54-59 | a blocked client has exactly `limit` active requests |
| PublicLimiter.RetryAfterIsExact | gateway/src/rate_limit_headers.py:56-59 | a retry k ≥ 1 seconds later is allowed if and only if k is at least `retry_after` |
| PublicLimiter.ClientLater | gateway/src/rate_limit_headers.py:77-91 | pruned and full history give the same decision at every later time |
| PublicLimiter.PublicRateLimiter.Record | gateway/src/rate_limit_headers.py:36-65 | allowed if and only if the full history has fewer than `limit` requests in the window, with what then remains; else blocked with the wait; exactly an allowed request is added to the history |
| PublicLimiter.PublicRateLimiter.Remaining | gateway/src/rate_limit_headers.py:67-75 | the limit less the requests of the full history in the window, or 0, and nothing changes |
| PublicLimiter.PublicRateLimiter.Cleanup | gateway/src/rate_limit_headers.py:77-91 | whatever is removed, every client's later decisions stay those of the full history |
| Disputes.SweepSettlesExpired | gateway/src/disputes.py:223-253 | in any row order, an escrow that is held and has an expired dispute is refunded and exactly one of its disputes, an expired one, is resolved; for any other escrow nothing changes |
| Disputes.SweepOutcome | gateway/src/disputes.py:234-252 | after n rows, exactly the first row of each held escrow has won |
| Disputes.SweepReport | gateway/src/disputes.py:233-253 | the report lists exactly the rows that won |
| Disputes.SweepRefunds | gateway/src/disputes.py:223-253 | the sweep pays each payer whose escrow it refunds, once and in full, and nobody else |
| Disputes.PaymentEngine.End | products/payments/src/engine.py:504-576 | a held escrow pays the whole amount to the payee when released, to the payer when refunded or expired, and gets the status of that ending; the errors, with which nothing changes, are exact |
| Disputes.DisputeEngine.Open | gateway/src/disputes.py:114-147 | if the escrow exists and is held, one open dispute with the other party as respondent and a deadline 604800 s later; else the error and no change |
| Disputes.DisputeEngine.Respond | gateway/src/disputes.py:149-168 | succeeds if and only if the dispute exists and is open, and then refuses a second response; no other dispute changes, and how the dispute can be resolved does not |
| Disputes.DisputeEngine.ResolveDispute | gateway/src/disputes.py:170-207 | exactly when it succeeds and with which error it does not; a release pays the payee and settles the escrow, a refund pays the payer, and the row of this dispute alone has that resolution and resolver |
| Disputes.DisputeEngine.ProcessExpired | gateway/src/disputes.py:223-253 | the loop over the rows ends in the world of the sweep, and reports what it resolved |
| DisputeRuns.RunInv | gateway/src/disputes.py:114-207 | in every run, with requests cut at their waits: an ended escrow was paid at least once, a resolved dispute has a resolution and its escrow has ended, and every request is about what it says |
| DisputeRuns.CanBePaid | products/payments/src/engine.py:512-544 | an escrow gets one more payout in some continuation if and only if it is held or some request that has seen it as held has yet to pay |
| DisputeRuns.CanBeResolved | gateway/src/disputes.py:178-199 | a dispute without a resolution gets one in some continuation if and only if its escrow is held or a request to resolve it that has seen the escrow as held is under way |
| DisputeRuns.CrashStrandsDisputes | gateway/src/disputes.py:185-199 | after a crash, no dispute without a resolution over an escrow that has ended ever gets one |
| DisputeRuns.HeldCanBeStranded | gateway/src/disputes.py:185-199 | every unresolved dispute over a held escrow can be stranded for ever by a stop between the escrow's status and the dispute's row |
| DisputeRuns.CutOffPaysAgain | products/payments/src/engine.py:550-573 | a request cut off between its deposit and the status leaves an escrow that was paid and can be paid again |
| DisputeRuns.OverlappingEndingsPayTwice | products/payments/src/engine.py:512-544 | from any state, two overlapping direct endings of a held escrow pay it twice |
| DisputeRuns.OverlappingResolutionsClash | gateway/src/disputes.py:178-199 | from any state, two disputes over a held escrow resolved at the same time get opposite resolutions and the escrow two payouts |
| DisputeRuns.DoublePayout | gateway/src/disputes.py:178-199 | a run from the start that ends so |
| DisputeBooks.BooksOfEveryRun | products/payments/src/engine.py:482-602 | in every run each wallet is accounted for by what it had, put into escrows and was paid, and all money together is off by exactly the payouts beyond what was due |
| DisputeBooks.SumIsRightExactly | products/payments/src/engine.py:482-602 | in every run the sum is never too small, and right if and only if each ended escrow was paid once and each held one not at all |
| DisputeOrder.OneDisputeSettles | gateway/src/disputes.py:170-207 | when requests to end an escrow take turns, at most one dispute of an escrow has a resolution; the escrow is refunded if it is a refund and settled if it is a release |
| DisputeOrder.PaidOnce | products/payments/src/engine.py:504-602 | then an escrow is paid once if it has ended, and otherwise only while its status is about to be written |
| DisputeOrder.PaidInFull | products/payments/src/engine.py:504-602 | then each payout is the whole amount of its escrow, to the party its final status names |
| DisputeOrder.MoneyIsConserved | products/payments/src/engine.py:482-602 | then no money comes or goes, once no status is about to be written |
| DisputeOrder.OthersStayUnresolved | gateway/src/disputes.py:178-199 | then a dispute over an escrow that ended in any other way than by this dispute, directly or by another, stays without a resolution, whatever follows |
| DisputeOrder.LosersStayUnresolved | gateway/src/disputes.py:178-199 | then, when one dispute has a resolution, no other over the escrow ever gets one |
| Idempotency.IdempotencyCache.CheckIdempotency | gateway/src/deps/idempotency.py:113-196 | the decision table: a slot that is free or past its TTL is reserved with the body's hash and the request proceeds; a live row refuses another body, lets its own body proceed while it has no response, and replays the response otherwise; no other row changes, and without a key none does |
| Idempotency.IdempotencyCache.RecordResponse | gateway/src/deps/idempotency.py:210-227 | sets status and response of the slot's row, keeps its hash and age, and changes no other row |
| Idempotency.RunsExactly | gateway/src/deps/idempotency.py:124-189 | an attempt runs the mutation if and only if its slot is free or past its TTL, or holds the same body without a response |
| Idempotency.FinishedStays | gateway/src/deps/idempotency.py:156-196 | until it expires, a row with a response is changed by no attempt on any slot |
| Idempotency.SingleShot | gateway/src/deps/idempotency.py:171-196 | after a success and until its row expires, an equal body gets that very response and a different body is refused |
| Idempotency.OncePerTtl | gateway/src/deps/idempotency.py:124-169 | a success that reserved its slot is the only run of the mutation for a whole TTL |
| Idempotency.NextRunExactly | gateway/src/deps/idempotency.py:156-189 | after a success, the mutation runs at the first attempt on the slot that is more than a TTL after the row was reserved, and at none before |
| Idempotency.RunsAgainWithinTtl | gateway/src/deps/idempotency.py:156-189 | another run within a TTL of a success is possible if and only if an earlier attempt had reserved the row |
| IdempotencyRuns.OneBodyPerRow | gateway/src/deps/idempotency.py:128-196 | in every interleaving, all that go ahead on a row are for its slot and carry its body hash |
| IdempotencyRuns.NoneAfterResponse | gateway/src/deps/idempotency.py:184-196 | once a row has a response, nobody whose lookup follows goes ahead on it |
| IdempotencyRuns.OverlapRunsTwice | gateway/src/deps/idempotency.py:184-189 | two overlapping requests with the same key and body both go ahead |
| EventStream.EmitBatch | gateway/src/routes/sse.py:77-92 | a frame with its id for each wanted event, and the cursor past every event |
| EventStream.SseEvents | gateway/src/routes/sse.py:56-101 | the generator's loop yields the frames of the stream, heartbeats included, up to its end |
| EventStream.TurnYields | gateway/src/routes/sse.py:70-98 | a turn adds a frame for each wanted event up to its new cursor, and one heartbeat if and only if the interval since the last is over |
| EventStream.TurnMoves | gateway/src/routes/sse.py:70-89 | a turn takes the next hundred events of the type whatever their source, or all there are, and its cursor is the last of them |
| EventStream.StreamEnds | gateway/src/routes/sse.py:60-68 | the stream takes a turn for every poll until the connection is too old or the client is gone, and none after that |
| EventStream.WantedIs | gateway/src/routes/sse.py:71-83 | an event is wanted if and only if it is in the log, its id in the range, and its type and source are those asked for |
| EventStream.PollShowsWanted | gateway/src/routes/sse.py:71-92 | one poll shows exactly the wanted events between the old and the new cursor |
| EventStream.ShortPollCatchesUp | gateway/src/routes/sse.py:71-75 | a poll below the limit of 100 leaves no wanted event unseen |
| EventStream.StreamShowsWanted | gateway/src/routes/sse.py:60-101 | for every growing log and every schedule, the frames are the matching events with id above `since_id`, in order, without gap or repeat |
| EventStream.CutFaithful | gateway/src/routes/sse.py:86-90 | cut after any frame, a client has seen exactly the matching events up to the last id it saw |
| EventStream.ResumeIsSeamless | gateway/src/routes/sse.py:130-138 | cutting after any frame and resuming with the last id seen gives in all what one uninterrupted stream shows |
| McpConnection.MCPConnection.SendRequest | gateway/src/mcp_proxy.py:127-134 | the next id, and that id pending |
| McpConnection.MCPConnection.RequestTimedOut | gateway/src/mcp_proxy.py:142-144 | forgets the request and changes nothing else |
| McpConnection.MCPConnection.Handle | gateway/src/mcp_proxy.py:166-179 | a blank line is skipped; the body between the white space is parsed; a message with a pending id completes it with its reply, one that is no object ends the connection, and anything else changes nothing |
| McpConnection.MCPConnection.ReadChunk | gateway/src/mcp_proxy.py:160-179 | after any chunk, the lines handled are those of the whole stream and the buffer is what follows its last newline |
| McpConnection.MCPConnection.ReadLoop | gateway/src/mcp_proxy.py:153-184 | however the output is cut into chunks, the effect is that of handling the lines of the whole output, and of a run over the messages in them |
| McpConnection.AppendChunk | gateway/src/mcp_proxy.py:161-163 | the lines of two pieces are those of the first, and those of its unfinished line with the second |
| McpConnection.LinesJoin | gateway/src/mcp_proxy.py:162-163 | the lines with their newlines, followed by the unfinished one, are the output again |
| McpConnection.LinesAreLines | gateway/src/mcp_proxy.py:162-163 | neither a line nor the unfinished one holds a newline |
| McpConnection.FateByOwnEvents | gateway/src/mcp_proxy.py:127-179 | in every interleaving, a request's fate is decided by its own first response or its own timeout alone, and completed at most once |
| McpConnection.BytesDecideFate | gateway/src/mcp_proxy.py:157-179 | for any bytes from the child process, the fate of each request is decided by the first message with its id on their lines, if none before it is unusable |
| McpConnection.IdsAreUnique | gateway/src/mcp_proxy.py:129-134 | the ids issued along any run are pairwise distinct, and none was issued before |
| X402.NonceAcceptedOnce | gateway/src/x402.py:160-179 | over interleaved checks and restarts, no two checks of a nonce are accepted, and the memory is within the table |
| X402.FastPathDecidesTheSame | gateway/src/x402.py:165-179 | in every run a check with the memory is decided as by the table alone |
| X402.FreshIsAccepted | gateway/src/x402.py:160-179 | in any state of a run, an uninterrupted check of a nonce the table does not have is accepted, and both sets gain it |
| X402.NothingLost | gateway/src/x402.py:247-258 | every proof of the queue is settled or kept, as often as it was there |
| X402.X402Verifier.CheckReplay | gateway/src/x402.py:160-179 | accepted if and only if memory and table do not have the nonce and the table takes it; then both have it, and otherwise neither changes |
| X402.X402Verifier.ValidateProofLocally | gateway/src/x402.py:185-209 | accepted if and only if the merchant, the value, the times, the network and the nonce are right; the first check that fails is the refusal, and only an accepted proof uses up its nonce |
| X402.X402Verifier.RetryPendingSettlements | gateway/src/x402.py:245-259 | also when the queue grows during the loop: all of it is tried once, exactly the proofs whose call failed stay, in their order, and the counts are those of the calls |
| BudgetCaps.RunInv | gateway/src/deps/tool_context.py:229-268 | every check that passed has room under its cap for all that passed no later, up to what was in flight |
| BudgetCaps.CapHoldsUpToInFlight | gateway/src/deps/tool_context.py:229-268 | in every interleaving, the cost recorded in any 24 hours or 30 days exceeds the cap by at most the cost in flight at the last check of a call recorded there |
| BudgetCaps.CapHolds | gateway/src/deps/tool_context.py:240-268 | when calls do not overlap, no window exceeds the cap |
| BudgetCaps.OverlapExceedsTheCap | gateway/src/deps/tool_context.py:240-268 | for every cap, two overlapping calls of that cost spend twice the cap |
| BudgetCaps.StoredCap | gateway/src/tools/billing.py:327-330 | the stored cap is within one unit of the requested one, and not above it if and only if that is not negative or a whole number of units |
| BudgetCaps.RequestedCapHolds | gateway/src/tools/billing.py:327-342 | without overlap, no window spends more credits than the cap that was requested |
| BudgetCaps.UninterruptedCheck | gateway/src/deps/tool_context.py:241-268 | two checks with nothing between let a call through exactly when the gate permits it |
| BudgetCaps.BudgetGate.SetBudgetCap | gateway/src/tools/billing.py:327-342 | replaces both caps of the agent and no others, each stored within one unit and not above the requested one unless that is negative and fractional |
| BudgetCaps.BudgetGate.CheckBudgetCaps | gateway/src/deps/tool_context.py:211-268 | permitted if and only if no cap is set or, under each cap, the agent's usage in the last 24 hours or 30 days, summed over the table, and the cost stay within it |
| BudgetCaps.BudgetGate.RecordUsage | products/billing/src/storage.py:487-512 | adds one row of the agent, and none when the idempotency key was used before |
| Webhooks.DeliveryHistory | gateway/src/webhooks.py:350-386 | at most three sends, each only after all before it failed, the third at least 30 s after the first; delivered if and only if the last succeeded, failed if and only if three failed |
| Webhooks.TerminalStays | gateway/src/webhooks.py:409-438 | a delivered or failed delivery is never sent or written again |
| Webhooks.PendingIsPicked | gateway/src/webhooks.py:413-425 | a pending delivery that is not being sent is picked if and only if 10 s since its first send or 20 s since its second are over |
| Webhooks.UninterruptedRetry | gateway/src/webhooks.py:427-438 | the three steps of a retry write what an uninterrupted send writes, and to no other delivery |
| Webhooks.WebhookManager.Deliver | gateway/src/webhooks.py:273-316 | one row for each webhook that is active, registered for the event's kind and unfiltered or with an agent of the event in its filter, or any if the event has no agents, in their order |
| Webhooks.WebhookManager.Send | gateway/src/webhooks.py:348-382 | delivered, failed after the third attempt, and otherwise due again 10 s or 20 s after its start; no other row changes |
| Webhooks.WebhookManager.ProcessRetries | gateway/src/webhooks.py:409-438 | in any row order, exactly the due deliveries are sent, each once |
| Base64.DecodeEncode | gateway/src/tools/_pagination.py:15-23 | every sequence of bytes comes back from its URL-safe encoding (section 5 of RFC 4648) through Python's lenient decoder |
| Decimal.ParsePrint | gateway/src/tools/_pagination.py:17-25 | every integer comes back from its decimal notation |
| Pagination.CursorRoundTrip | gateway/src/tools/_pagination.py:15-28 | a cursor decodes to its offset, or to 0 for a negative one, and is never empty |
| Pagination.DefaultPage | gateway/src/tools/_pagination.py:49-77 | without parameters, the first 50 items, and the cursor of offset 50, written out, if there are more |
| Pagination.FollowMovesOn | gateway/src/tools/_pagination.py:49-75 | the next request begins where the page ended; the page repeats if and only if the limit is 0 |
| Pagination.WalkYieldsAll | gateway/src/tools/_pagination.py:49-77 | with a limit of at least 1 the walk ends and yields all items from the first offset, each once and in order |
| Pagination.WalkFromTheStart | gateway/src/tools/_pagination.py:49-77 | from offset 0 the pages concatenate to the list |
| Pagination.PagesAreFull | gateway/src/tools/_pagination.py:56-64 | only the last page of a walk may be shorter than the limit |
| Pagination.SearchRepeatsItsPage | gateway/src/tools/marketplace.py:18-57 | the page after a search page has the same items and a later offset |
| Pagination.SearchIsFaithful | gateway/src/tools/marketplace.py:18-57 | on distinct results and for any parameters, a search page is the page described if and only if both ranges are empty or equal |
| Markers.MatchIsUnique | scripts/update_website_stats.py:84-88 | there is at most one match at a place, so backtracking cannot matter |
| Markers.ReplaceIsRewrite | scripts/update_website_stats.py:78-89 | the left-to-right substitution equals rewriting the body of each hit between consecutive `<`, for any value |
| Markers.MarkerIsReplaced | scripts/update_website_stats.py:78-89 | on a page with a marker, written out with any white space: its body becomes the value, and what stands before and after is replaced as if it stood alone |
| Markers.OnlyMarkersChange | scripts/update_website_stats.py:82-88 | a page that a write changes has a marker of the key in it |
| Markers.MatchIsMarker | scripts/update_website_stats.py:84-88 | whatever the pattern matches is a marker of the key with white space where the pattern allows it |
| Markers.LastValueWins | scripts/update_website_stats.py:78-89 | writing twice under a key is writing the second value; with equal values, idempotence |
| Markers.WhenTheLastValueWins | scripts/update_website_stats.py:78-89 | a last value without `<` wins if and only if the first has no `<` or the page no such marker |
| Markers.KeysCommute | scripts/update_website_stats.py:103-106 | rewrites under different keys commute |
| Markers.OutsideUnchanged | scripts/update_website_stats.py:78-89 | the stretches of the page outside the bodies, and where bodies stand between them, are the same before and after |
| Markers.WriteFillsFrame | scripts/update_website_stats.py:78-89 | the page after a write is those stretches with the value in every body, for any value |
| Markers.NoMarkerNoChange | scripts/update_website_stats.py:82-82 | a page without the marker is left as it is |
| Markers.EveryMarkerHolds | scripts/update_website_stats.py:84-89 | after a write, every match in the page has the value as its body |
| Markers.UnchangedExactly | scripts/update_website_stats.py:78-89 | for any value, a write leaves a page as it is if and only if every match in it has the value as its body |
| Markers.UpdatedTwice | scripts/update_website_stats.py:101-109 | updating an updated page changes nothing |
| Markers.UpdatedIsInSync | scripts/update_website_stats.py:101-106 | after an update every marker of "total-tools", "num-services" and "version" holds that statistic |
| Markers.InSyncExactly | scripts/update_website_stats.py:101-109 | an update leaves a page as it is if and only if every marker of the three keys holds its statistic already |
| Markers.HtmlFile.Update | scripts/update_website_stats.py:92-113 | reports whether some marker holds another value than its statistic, changes the page only in write mode, and then every marker holds its own |

## Left out

- Gatekeeper metrics (`gateway/src/gatekeeper_metrics.py`): counters and histograms, which would only add easy members.
- HTTP routing, middleware, manifests, authorization tables, tier gating, error maps and SDK clients.
- Cryptography, hashing and JSON: a body enters by its hash, a line from the child process through a parsing function that may be anything, a proof as its fields.
- Sharder: parsing the output of test collection, and the order in which the chosen paths are printed.
- Tier limiter: failures of the storage, and the older rate checks of the batch and execute routes.
- Disputes: reason, notes and timestamps of a dispute, and the payment engine's idempotency keys and settlement rows; the lookup of unknown ids is an error of the models, and escrows and disputes are numbered in the order they are made. A wallet's deposit or withdrawal is one step, and a failing one is a request cut off before it. The expiry sweep is proved without interruption; in runs it is so many requests to resolve.
- Idempotency: keys sent in the body, which are never recorded. Replacing an expired row is one step, so the failure of one of two racing replacements is not modelled.
- Event stream: frames as text, and `gateway/src/routes/websocket.py`, whose replay is capped by pattern.
- McpConnection: cancelling a request, a timeout between a response and the wake-up of its waiter, and starting connections in `MCPProxyManager`.
- X402: the calls to the facilitator beyond success and failure, two retriers at once, and runs of a verifier without a nonce table, which forgets its nonces when it restarts.
- BudgetCaps: a gate whose storage fails lets calls through, caps or the tier changing during a run, costs finer than an atomic unit, and the rounding of floats.
- Webhooks: a crash or a storage failure during a send, signatures (retries sign with the secret as stored, first sends with the decrypted one), registering and deleting webhooks, and the limit on concurrent sends, which only delays them.
- Decimal.ParsePrint: `int` also takes white space, underscores and other scripts' digits, and refuses more than 4300 digits; these are not modelled.
- Pagination.CursorRoundTrip: decoded bytes outside ASCII stand for the first page; Python may read digits of other scripts there.
- Pagination.SearchIsFaithful: sorting within a page is not modelled.
- Markers: a value with a backslash is a template for Python's substitution and not modelled; keys have no white space, `<` or `>`, as the three in use.
