# OrderForge, verified

Dafny models of the services of OrderForge whose correctness rests on interleavings, retries and byte
framing, with proofs of what they promise. `dafny verify dfyconfig.toml` checks all of it.

## What is modelled

**The work queue and settlement.** `Keyspace` is the content of `redis-workqueue` and the effect of
each command, MULTI or Lua script on it. `Queue` is the machine of all processes over it: enqueues,
workers with their program counters (claim, gate, ZADD, watch, fetch, stage, ack, abandon), heartbeats
in two separate commands, crashes, liveness lapses, reaper expiries and drains, and any number of
settlement sweepers. Each call may fail, succeed, or succeed with its reply lost; everything
interleaves. `NoLoss`, `Ledger`, `Known` and `Settlement` prove invariants of every run of it. `Timed` adds a
clock and the timing assumptions; `Progress` and `Finishing` show that these never bring it to a halt; `Spots`
gives the effect of a command on one id in closed form; `Ownership`, `OwnershipSteps`,
`OwnershipLoops` and `OwnershipResults` prove single ownership from them; `Burial` says when a task
becomes dead, and `DoneAndDead` and `Exhaustion` show runs at the limits. The same code in its own imperative form is
in `Redis` (the keyspace updated in place by scripts and transactions), `Coordinator` (enqueue and
reaper), `Framework` (runLoop, claim, handleTask, ack, heartbeat; each method takes exactly the
machine's steps) and `Sweeper`. How each call ends is a parameter there, and the results say what
follows from it.

**The file handshake.** `Handshake` is the directory shared by the framework, the shim and the stage
child: atomic renames, markers, resets under running children. `Rejection` says exactly when a
rejection is genuine, `Acceptance` exactly when a success can be reported. `EndToEnd` couples one such
pod to every worker of the queue, and `Delivery` runs all of it from an enqueue to the finalized flag.

**The cache ambassador.** `Resp` says which bytes are a command or a reply (Redis serialization
protocol specification, RESP2, sections "Bulk strings" and "Arrays"), with 64-bit lengths that wrap;
`RespReader` has the readers and writers over a buffered connection that delivers the bytes in
arbitrary pieces. `Sharding` is what the shards answer and when they look like one store.
`Ambassador` has the pool and the routing over a network that may fail anywhere, as its parameters
say, `Connection` the client loop with its buffered writer, `Client` what a client sees of both, and
`Sharing` many clients whose borrowing, exchanges and returns interleave with each other and with
requests that a shard runs late.

**Logs and availability.** `LogLines`, `LogShipper` (ticks that do not overlap, imperative) and
`ShipperRace`, `ShipperDrain` and `ShipperExit` (the poll loop and the shutdown drain interleaved)
model the log shipper; `LogSink` the ring; `Merge` the availability merge.

## Where the code and its documentation part

- The branch for a failed `ZADD inflight` removes the only copy of a task when the ZADD really did not
  happen (`NoLoss.LosingRun`); `NoLoss.DropKeepsIff` says exactly when it does not, and nothing else
  ever loses a task (`NoLoss.NoTaskLostIff`).
- Under every timing assumption a done task can still become dead (`DoneAndDead.DoneAndDeadRun`): the
  heartbeat re-adds it between the ack and `setCurrent("")`, the one step that does
  (`OwnershipResults.DoneComesBackIff`), and the reaper then finds its attempts used up
  (`Burial.DoneAndDeadIff`).
- A rejection need not come from the stage. As long as the shim neither fails to make the out directory
  nor gets an error from the child, every rejection an attempt can report comes from a child that read
  exactly its envelope and exited non-zero, if and only if the attempt begins with no `request.ready` of
  an earlier one, no child of the task but one that has read this envelope or exited 0, and no look of
  the shim past `request.ready` (`Rejection.RejectionIsGenuineIff`). Each of the three can fail alone
  (`Rejection.DirLeft`, `ChildLeft`, `LookLeft`), and each of the two failures can mislead a first
  attempt (`SpawnFails`, `ChildFails`), in runs in which no child has ever refused the envelope. Success
  is sound.
- Reusing an order id can take back a settlement: an enqueue does so if and only if the id belongs to an
  order that was acked with success and has left settle:pending, or that a sweeper is just taking off
  (`Settlement.SettledIff`, `Settlement.NoSettlementLostIff`). Fresh ids never do.
- `handleConn` flushes only when the command it answered used up the read buffer. A blank line, an
  empty array or a started command behind the last command of a read holds its reply back until the
  client sends more. A reply is held back exactly when no read of the connection ended where the last
  command answered ends, and that command is no QUIT (`Connection.HandleConn`, `Client.BatchHeldBack`,
  `Client.BlankLineHoldsBack`).
- The error reply for an unknown command quotes its name; a name with a line feed makes it more than
  one reply (`Connection.OneReplyEach`).
- A multi-key DEL goes to the shard of its first key; the shards stay like one store if and only if
  every stored key it names is on that shard (`Sharding.ShardsAreOneStore`). A retried DEL can report
  0 for keys it did delete (`Sharding.SecondReply`).
- The log shipper counts a new offset from the offset at the time a read returns. When the poll loop
  commits while the shutdown drain is reading, the drain commits an offset beyond what was shipped
  (`ShipperRace.BeyondTheEnd`). Unless a push was stored without the shipper hearing so, that is exactly
  when the final commit is unsound (`ShipperDrain.DrainCommitIff`). The process exits right after.
- The interface promises `fulfillable` when summed available_qty meets what is requested for every sku.
  On non-negative stock the merge keeps that for a query if and only if no sku's items together ask for
  more or less than the largest of them (both counted from 0 up) and no item without a sku asks for
  anything (`Merge.PromiseKeptIff`). With negative stock, which the promise sums and the merge ignores,
  every query that names a sku can be answered wrongly (`Merge.NegativeStockBreaks`), and only queries
  that ask for nothing are safe on all stock (`Merge.AnyStockIff`).

## Model

| member | source | states |
|---|---|---|
| NoLoss.NoTaskLostIff | services/workqueue-framework/main.go:195-268 | Throughout a run, an enqueued id is in ready, inflight, done, dead or some processing list, the inductive form not counting the copy of a worker past its ZADD, if and only if no failed-ZADD branch of the run removes its copy when it is nowhere else. |
| NoLoss.StepKeepsIff | services/workqueue-framework/main.go:233-237 | A step of any process loses an id if and only if it is such a branch. |
| NoLoss.NoTaskLost | services/workqueue-framework/main.go:195-268 | So no id is lost on which that branch is never taken. |
| NoLoss.DropKeepsIff | services/workqueue-framework/main.go:233-237 | The failed-ZADD branch keeps an id located if and only if the id is elsewhere too, or twice in this list. |
| NoLoss.LosingRun | services/workqueue-framework/main.go:233-237 | A concrete run in which that branch loses an enqueued task. |
| NoLoss.StepKeeps | services/workqueue-coordinator/reaper.go:25-72 | Every other step of worker, reaper, heartbeat and sweeper keeps the invariant. |
| Ledger.AttemptLedger | services/workqueue-coordinator/reaper.go:26-36 | For max >= 1 every run keeps: ready pushes are min(attempt, max), dead copies are the rest of the attempts, and claims plus copies in ready are the ready pushes. |
| Ledger.FirstInFirstOut | services/workqueue-framework/main.go:198-203 | From any state on, the ids waiting in ready are claimed in the order in which they wait, ahead of everything pushed later, retries included. |
| Ledger.StatusIsTrue | services/workqueue-coordinator/reaper.go:25-72 | In every run a task whose status is dead is in dead, and one whose status is done or failed is in done. |
| Ledger.StageRunsBounded | services/workqueue-framework/main.go:251-251 | A stage is launched no more often than its task is claimed, and that at most max times, however crashes and reaper race. |
| Ledger.LaunchesAreClaimed | services/workqueue-framework/main.go:198-251 | Launches plus workers on their way to one are at most the claims. |
| Known.FetchFinds | services/workqueue-framework/main.go:242-247 | In every run, whatever a worker is on has been enqueued with a payload, so that its HGET finds one whenever it answers. |
| Settlement.AlwaysFaithful | services/workqueue-framework/main.go:242-265 | Whatever a worker carries to its ack is the stored envelope of that id. |
| Settlement.FinalizedWasAcked | services/settlement/app.py:103-116 | In every run an order is pending or finalized only if a task carrying it was acked with success. |
| Settlement.SettledIff | services/settlement/app.py:103-116 | A step of any process leaves every success-acked order pending or finalized, and every order about to be taken off finalized, if and only if it is not an enqueue reusing the id of an order that is settled or being taken off. |
| Settlement.NoSettlementLostIff | services/settlement/app.py:103-133 | Throughout a run, with any number of sweepers, failed calls and crashes, this holds if and only if the run has no such enqueue. |
| Settlement.OneStepFromLost | services/settlement/app.py:110-116 | An order about to be taken off unfinalized is one SREM away from being neither pending nor finalized. |
| Settlement.NoSettlementLost | services/workqueue-coordinator/enqueue.go:85-94 | With fresh order ids every order acked with success is in settle:pending or finalized. |
| Settlement.SettledOncePerSweeper | services/settlement/app.py:110-116 | With fresh order ids finalized is written for an order at most once per sweeper. |
| Settlement.SettledOnce | services/settlement/app.py:110-116 | It is written at most once when no two sweepers are between HGET and HSET of that order at a time. |
| Handshake.SoundKept | services/workqueue-framework/main.go:285-332 | Every step of framework, shim and child keeps: no file or child holds another envelope than the one handed over, and every sign of success goes back to a child that read it whole and exited 0. |
| Handshake.SpuriousRejection | services/order-stage/shim.js:105-120 | A run in which a stale child makes the framework report the rejection of an acceptable envelope. |
| Rejection.RejectionIsGenuineIff | services/workqueue-framework/main.go:285-332 | In attempts in which the shim marks no failure of its own, every reported rejection means that a child of this attempt read exactly the envelope and exited non-zero, if and only if the attempt begins with no request standing, with no child but one that has read this envelope or exited 0, and with no look past request.ready. |
| Rejection.Misled | services/order-stage/shim.js:68-121 | From any other beginning there is such an attempt that reports a rejection without a refusal. |
| Rejection.GenuineKept | services/order-stage/shim.js:68-121 | Every step of framework, shim and children keeps, during an attempt that begins so, that a mark of failure goes back to a refusal. |
| Rejection.DirLeft | services/order-stage/shim.js:68-74 | A run that leaves only a request standing, after which an acceptable envelope is rejected though no child has ever refused it. |
| Rejection.ChildLeft | services/order-stage/shim.js:105-120 | Likewise with only a child left. |
| Rejection.LookLeft | services/order-stage/shim.js:123-143 | Likewise with only a look of the shim under way. |
| Rejection.SpawnFails | services/order-stage/shim.js:84-91 | A clean first attempt is rejected unread when the out directory cannot be made. |
| Rejection.ChildFails | services/order-stage/shim.js:99-103 | A clean first attempt is rejected unread when the child reports an error. |
| Acceptance.SuccessIff | services/workqueue-framework/main.go:285-332 | Whatever earlier attempts have left in a sound pod, some undisturbed attempt reports a success if and only if the stage accepts the envelope. |
| Acceptance.Succeeds | services/order-stage/shim.js:68-121 | From any beginning an acceptable envelope is written, seen, read, accepted, marked and reported. |
| Delivery.SettledIff | services/workqueue-framework/main.go:229-280 | Some run of all the processes in which only this order is enqueued ends with the order finalized if and only if the stage accepts its envelope. |
| EndToEnd.ProjectsToQueue | services/workqueue-framework/main.go:229-280 | A run of workers with their pods is a run of the queue machine, so the theorems on that hold of it. |
| EndToEnd.SuccessIsSound | services/workqueue-framework/main.go:251-265 | Before an ack with success a child in that worker's pod read exactly the stored envelope for that id and exited 0. |
| EndToEnd.FinalizedIsSound | services/settlement/app.py:103-116 | A finalized order goes back to a child that accepted an envelope carrying it, which had been enqueued for that task. |
| Ownership.GuardedNotOverdue | services/workqueue-framework/main.go:369-397 | Under the timing assumptions an id guarded by a live worker is never past its deadline. |
| Progress.TimeGoesOnIff | services/workqueue-framework/main.go:369-397 | The timing assumptions never contradict each other: every run within them can go on within them to any later moment, with all its workers running, if and only if a reaper tick may take any time at all. |
| Finishing.Finishes | services/workqueue-framework/main.go:195-268 | After every run within the timing assumptions each running worker can at once go on to the end of its round, nobody else moving, and if the stage decides, the task it has claimed is done then. |
| OwnershipLoops.OwnedKept | services/workqueue-coordinator/reaper.go:55-156 | Every timed step keeps an undone id exclusive, protected by its deadline and accounted for in its attempts. |
| OwnershipResults.SingleOwnership | services/workqueue-framework/main.go:229-247 | Under the timing assumptions, in every run an undone id has exactly one token or is dead with none, at most one worker handles it, and its attempt counter is one plus its crashes and abandonments less one still to be reaped. |
| OwnershipResults.DoneIsNotDead | services/workqueue-framework/main.go:337-384 | Done and dead are disjoint for every id whose worker never beats between its ack and clearing current. |
| OwnershipResults.DoneComesBackIff | services/workqueue-framework/main.go:377-381 | A step brings a done id back into circulation if and only if it is such a beat. |
| DoneAndDead.DoneAndDeadRun | services/workqueue-framework/main.go:239-240 | A run within all timing assumptions after which an id is done and dead. |
| Burial.BuriedIff | services/workqueue-coordinator/reaper.go:25-72 | Under the timing assumptions a step makes an id dead if and only if it is an expiry of an id in flight, or a drain of the list of a worker without liveness key that holds it, with its attempts used up. |
| Burial.DoneAndDeadIff | services/workqueue-coordinator/reaper.go:25-72 | An id ends up done and dead if and only if such a step takes it when it is done already. |
| Burial.BuriedAfterBeat | services/workqueue-framework/main.go:377-381 | That happens only after a beat between its ack and clearing current. |
| Exhaustion.DeadByAbandonment | services/workqueue-coordinator/reaper.go:25-37 | Under any configuration that meets the assumptions a task can be abandoned MAX_ATTEMPTS times, by a worker that never dies, and is dead then, one attempt over the limit. |
| RedisServer.Redis.RequeueExpired | services/workqueue-coordinator/reaper.go:25-37 | The script, in place, has the effect of one expiry on the keyspace, and its result tells which branch it took. |
| RedisServer.Redis.DrainDeadWorker | services/workqueue-coordinator/reaper.go:55-72 | The loop over the list has the effect of one atomic drain; -1 for a live worker, else the number of ids. |
| RedisServer.Redis.AckTx | services/workqueue-framework/main.go:337-352 | The transaction, in place, is the ack of the machine, applied or not. |
| Coordinator.Coordinator.HandleEnqueue | services/workqueue-coordinator/enqueue.go:47-99 | 400 and nothing exactly for a body without an order id; otherwise 201 exactly when the transaction answered, and after a 500 it is applied unless it was refused. |
| Coordinator.Coordinator.ReapExpiredInflight | services/workqueue-coordinator/reaper.go:96-124 | An id is expired if and only if its score was at most now, the range query answered and its script ran; each such id has one more attempt and is ready or dead, and every id with a later deadline keeps its score, its copies and its attempts. |
| Coordinator.Coordinator.ReapDeadWorkers | services/workqueue-coordinator/reaper.go:128-156 | However its calls end, it empties exactly the lists of dead workers whose script ran, and tries as many lists as the scan delivers, all when it does not fail; every id in such a list is off inflight with more attempts and ready or dead, and every other id is untouched. |
| Coordinator.Coordinator.Tick | services/workqueue-coordinator/reaper.go:77-92 | A tick expires an id under exactly the condition of its first pass and drains; if no call fails it drains every list; an id whose deadline lies ahead and that no dead worker holds keeps its score, its copies and its attempts. |
| Coordinator.QuiescentReaping | services/workqueue-coordinator/reaper.go:94-156 | After any run that ends with no liveness key and all deadlines passed, such a full tick empties inflight and every processing list and leaves every enqueued id that no failed-ZADD branch lost in ready, done or dead. |
| Framework.TaskOutcome | services/workqueue-framework/main.go:229-280 | A claimed task becomes done if and only if ZADD and HGET answered with a payload, the stage decided and the ack ran; its order goes up for settlement if and only if the stage accepted it; given up, it keeps its deadline; its copy leaves the list exactly as its own calls end; nothing else changes. |
| Framework.LuckyLoop | services/workqueue-framework/main.go:167-193 | A worker whom nothing fails takes the ready tasks in their order and has each of them done. |
| Framework.Framework.Gate | services/workqueue-framework/main.go:211-224 | The gate opens exactly for a task that SISMEMBER reports as not done; the copy of a done one is removed. |
| Framework.Framework.Claim | services/workqueue-framework/main.go:198-225 | Its calls and outcomes are exactly claim and gate steps of the machine, none only if nothing was moved; it returns the head of ready exactly when both calls answered and the head is not done. |
| Framework.Framework.HandleTask | services/workqueue-framework/main.go:229-280 | Every way through it is a sequence of machine steps from past the gate to idle, ends with nothing current, and leaves the store of TaskOutcome. |
| Framework.Framework.Beat | services/workqueue-framework/main.go:371-384 | A beat is exactly the SET and, with something current, the ZADD GT of the machine, and the store has the effect of those that were not refused. |
| Framework.Framework.RunLoop | services/workqueue-framework/main.go:163-193 | Any number of rounds is a run of the machine's worker from idle to idle, and leaves the store of its rounds one after the other. |
| SettlementApp.App.FinalizeOrder | services/settlement/app.py:103-116 | Whatever calls fail, the order leaves pending only when finalized; when it returns normally it is finalized and off pending. |
| SettlementApp.App.Sweep | services/settlement/app.py:119-133 | A leader's sweep does to each pending order what its own calls allow and goes on past failures; another does nothing. |
| SettlementApp.SweepRuns | services/settlement/app.py:103-133 | However its calls end, such a sweep is, from any state of the queue machine, a run of one of its sweepers, started anew if need be, with the same effect. |
| SettlementApp.SweepLosesNothing | services/settlement/app.py:119-133 | However the calls of a sweep end, a settled order stays settled. |
| SettlementApp.CleanSweep | services/settlement/app.py:119-133 | Without failures the sweep finalizes all that is pending and empties it. |
| SettlementApp.SweepsConverge | services/settlement/app.py:119-133 | Every interleaving of complete sweeps leaves the store one sweep alone leaves. |
| SettlementApp.ReusedOrderIsLost | services/workqueue-coordinator/enqueue.go:85-94 | A run in which enqueuing an order id again loses its settlement. |
| Resp.ReplyIsLocal | services/cache-ambassador/resp.go:85-150 | Whether and how much readReply reads is settled by the bytes it consumes. |
| Resp.ReplyIsStable | services/cache-ambassador/resp.go:85-150 | More input never changes a reply that can be read. |
| Resp.NoPrefixIsReply | services/cache-ambassador/resp.go:85-150 | No proper prefix of a reply is a reply. |
| Resp.PrintThenRead | services/cache-ambassador/resp.go:85-127 | Every reply value, however nested, printed and followed by anything, is read as exactly its encoding. |
| Resp.CommandIsLocal | services/cache-ambassador/resp.go:31-80 | A command that can be read, or a panic on a size or count beyond the address space, is settled by the bytes consumed so far. |
| Resp.CommandRoundTrip | services/cache-ambassador/resp.go:31-162 | readCommand over encodeCommand returns the arguments, of any content, and leaves the rest. |
| Resp.PipelineRoundTrip | services/cache-ambassador/resp.go:31-162 | Concatenated encoded commands followed by any bytes are read back one by one, in order, and the bytes that follow are left for the next read. |
| Resp.FieldsAreWords | services/cache-ambassador/resp.go:42-46 | The words of a line are found whole and in order, whatever space is before, between and behind them. |
| Resp.InlineRoundTrip | services/cache-ambassador/resp.go:37-47 | A plain line that does not begin with a star is read as the command made of its words, and the rest is left. |
| Resp.HugeCountPanics | services/cache-ambassador/resp.go:53-58 | An announced count that no slice can have panics, whatever follows. |
| Resp.DigitsAreValue | services/cache-ambassador/resp.go:155-157 | Printed lengths parse back to themselves. |
| RespReader.Reader.ReadLine | services/cache-ambassador/resp.go:131-140 | However the bytes arrive, the line read is the one up to the first newline, and no further read is issued once it is there. |
| RespReader.ReadReply | services/cache-ambassador/resp.go:85-127 | Succeeds exactly when the stream begins with a reply, and then has appended exactly its bytes and left the rest. |
| RespReader.ReadCommand | services/cache-ambassador/resp.go:31-80 | Returns what the bytes to come encode, independent of the pieces they arrive in, reads the connection no further than needed, and panics exactly on what cannot be allocated. |
| RespReader.WriteCommand | services/cache-ambassador/resp.go:153-162 | The loop writes the multibulk frame of the arguments. |
| RespReader.WriteBulk | services/cache-ambassador/resp.go:165-171 | The frame written is that of the bulk reply value. |
| Sharding.ShardsAreOneStore | services/cache-ambassador/main.go:78-122 | On the shards and on one store a forwarded command gets the same reply, and the shards still hold what that store holds, each key on its own shard, if and only if no key it deletes is stored on another shard. |
| Sharding.SetThenGet | services/cache-ambassador/main.go:100-104 | On a shard, what was set last is what is read until it is deleted, DEL reports whether the key was there, and other keys are left alone. |
| Sharding.TwiceIsOnce | services/cache-ambassador/pool.go:86-109 | A command run twice leaves the store as one run does. |
| Sharding.SecondReply | services/cache-ambassador/pool.go:86-109 | The second reply differs if and only if a DEL had something to delete. |
| Ambassador.Roundtrip | services/cache-ambassador/pool.go:39-54 | On an aligned connection a reply is returned if and only if the shard got the command, the write succeeded, the whole answer arrived and the deadline could be cleared; it is the answer, and the connection is aligned again; the command has run if and only if the shard got it. |
| Ambassador.Pool.Put | services/cache-ambassador/pool.go:75-81 | Keeps at most maxIdle connections, all aligned. |
| Ambassador.Pool.Do | services/cache-ambassador/pool.go:86-109 | Keeps the pool aligned, and does to reply, store and number of runs what RelayOutcome says; a connection goes back to the pool exactly when a reply is returned on it. |
| Ambassador.RelayOutcome | services/cache-ambassador/pool.go:86-109 | A complete exchange on a reused connection is the only run; otherwise the reply is the answer of the last run, on a fresh connection; there is none if and only if both ways failed; the store is as after one run, or none. |
| Ambassador.LosslessRunsOnce | services/cache-ambassador/pool.go:86-109 | Over a network that loses nothing every command runs exactly once and is answered, on a reused connection or not. |
| Ambassador.Server.Forward | services/cache-ambassador/main.go:114-122 | Only the shard of the key changes, by the runs of RelayOutcome, and the reply is its answer, or the synthesised error exactly when there is none. |
| Ambassador.Server.Dispatch | services/cache-ambassador/main.go:84-108 | Local replies touch no shard, keyed commands are forwarded, and only QUIT closes; when nothing is lost the shard has run the command once and the reply is its answer. |
| Ambassador.LocalReplies | services/cache-ambassador/main.go:84-108 | What PING, QUIT, HELLO, CLIENT, a keyed command without a key and an unknown command are answered, byte by byte. |
| Ambassador.AnyCase | services/cache-ambassador/main.go:84-84 | Names are compared letter by letter in either case; bytes that are no letters are left alone. |
| Connection.OneReplyEach | services/cache-ambassador/main.go:84-122 | What the client gets for a command is exactly one reply if and only if the command is not an unknown name with a line feed in it. |
| Connection.Writer.Write | services/cache-ambassador/main.go:140-142 | Sent and pending bytes together grow by what is written, in order, nothing goes out early unless the buffer fills, and it fails only when the connection takes no more, which then has all it had room for. |
| Connection.HandleConn | services/cache-ambassador/main.go:124-154 | Without a broken connection all non-empty commands up to a QUIT are answered, in order, and all replies are sent unless the last one answered is no QUIT and no read ended where it ends; replies that fit the buffer are then held back. The connection breaks only over replies it has no room for, and then has all it had room for. When the network loses nothing each command is handled once. |
| Connection.OwingReads | services/cache-ambassador/main.go:145-149 | After each command, whether bytes are still buffered decides whether a flush will be owed, in the terms of where the reads of the whole stream end. |
| Client.LosslessIsOneStore | services/cache-ambassador/main.go:1-8 | Over a network that loses nothing each reply is exactly that of one store after the commands before it, if every DEL stays on one shard. |
| Client.OneStoreBehind | services/cache-ambassador/main.go:1-8 | What a connection asks and gets could have come from one store, command by command, if every DEL stays on one shard. |
| Client.RepliesLineUp | services/cache-ambassador/main.go:140-149 | Single replies written in a row are read back in a row, so the client's n-th reply is that of its n-th command. |
| Client.BatchHeldBack | services/cache-ambassador/main.go:143-149 | When what follows a batch of commands brings none to answer, then, for any cut into reads, the replies are held back if and only if no read ended where the batch ends. |
| Client.PlainClientIsServed | services/cache-ambassador/main.go:143-149 | A client that sends whole commands is owed no flush, however its bytes are cut. |
| Client.TailHoldsBack | services/cache-ambassador/main.go:143-149 | When commands come in one read with a tail that brings none to answer, their replies are held back if and only if the tail is not empty. |
| Client.BlankLineHoldsBack | services/cache-ambassador/main.go:132-149 | A PING and a blank line in one read leave the PONG unflushed. |
| Sharing.AlwaysAligned | services/cache-ambassador/pool.go:11-14 | In every interleaving of any number of clients, and of requests run after their connection was given up, idle connections hold no unread byte, pools keep at most maxIdle, and no command is sent three times. |
| Sharing.EachGetsItsOwn | services/cache-ambassador/pool.go:86-109 | A served client gets the reply of one store to its own command at one place in one order of all runs of commands, late ones included. |
| Sharing.EachRunsOnce | services/cache-ambassador/pool.go:86-109 | In every run the shards have run each command exactly as often as it was brought to them, apart from the requests still to be run late. |
| Sharing.ServedIff | services/cache-ambassador/pool.go:39-54 | An exchange serves its client if and only if the shard got the command and the whole answer came back; otherwise a reused connection gets the one retry. |
| Sharing.LosslessServes | services/cache-ambassador/pool.go:86-109 | From every aligned state a resting client has a run of its own steps that ends with it served its shard's answer, sent once and run once. |
| Sharing.NeverStuck | services/cache-ambassador/pool.go:86-109 | From every state, and even when nothing works any more, a client is through within four steps of its own. |
| LogLines.LinesSplit | services/log-shipper/index.js:99-108 | Cutting a log at a newline cuts its lines. |
| LogShipper.CommitIsExact | services/log-shipper/index.js:158-179 | Shipping a batch and committing its offsets keeps: what the sink has of a file is the non-empty lines of its committed prefix, in order, once each. |
| LogLines.LinesOfPiece | services/log-shipper/index.js:94-109 | A piece of a log that begins at a line has values to give if and only if a complete non-empty line lies in it. |
| LogShipper.Shipper.CollectBatch | services/log-shipper/index.js:49-122 | A listed log has an item if and only if its stat and read succeed and a complete non-empty line lies in what is read beyond its offset; the item takes it from there to the last newline read, and no offset moves. |
| LogShipper.Shipper.Tick | services/log-shipper/index.js:158-179 | Pushes exactly when forced, large or old enough, succeeds exactly when the push does, and moves offsets only then, to exactly what was shipped; when every file can be read, a forced tick that is done leaves no complete non-empty line unshipped, and the sink then has every line once, in order, if no push was ambiguous. |
| LogShipper.Shipper.Shutdown | services/log-shipper/index.js:196-207 | The final drain succeeds if one of its five pushes does, and then leaves no complete non-empty line of a readable log behind. |
| LogShipper.SplitLines | services/log-shipper/index.js:102-108 | The values are the non-empty pieces between newlines. |
| ShipperRace.AtLeastOnce | services/log-shipper/index.js:49-122 | In every interleaving of poll loop and drain, stats overtaken by commits included, while the process runs, an offset splits no line and every complete non-empty line below it has been accepted. |
| ShipperRace.ReadCollects | services/log-shipper/index.js:88-113 | A read adds to the batch if and only if it succeeds and brings a complete non-empty line. |
| ShipperRace.ExitsWhenDrained | services/log-shipper/index.js:196-207 | The drain ends the process exactly when it has nothing to push or its push succeeded, and then all it collected is accepted. |
| ShipperExit.Delivers | services/log-shipper/index.js:196-207 | After every run in which no drain has begun, whatever the poll loop is in the middle of and whatever is logged after the signal, a drain nothing goes wrong for ends the process, leaves no complete non-empty line of a log beyond its offset, and has shipped exactly the complete lines beyond the old one. |
| ShipperRace.DrainCommit | services/log-shipper/index.js:196-207 | Even after ambiguous pushes the final commit of a file is sound if its chunks commit to their own ends, no commit of the poll loop having come between their reads and their returns. |
| ShipperDrain.DrainCommitIff | services/log-shipper/index.js:196-207 | If every stored push was acknowledged, the offset the final commit leaves for a file is sound if and only if the chunk it ships of that file commits to its own end. |
| ShipperDrain.OrderlyKept | services/log-shipper/index.js:158-207 | Every step but an ambiguous push keeps: nothing shipped lies beyond the offsets until the poll loop has ended, a tick takes every file once, and a chunk of the drain that does not commit to its own end was counted from the last offset the poll loop commits. |
| ShipperRace.BeyondTheEnd | services/log-shipper/index.js:196-207 | A run in which the final commit is beyond the end of the file. |
| LogSink.Ring.Add | services/log-sink/main.go:57-65 | The ring holds the newest capacity records ever added, oldest first. |
| LogSink.Ring.Query | services/log-sink/main.go:130-140 | The matching ones among them, newest first. |
| LogSink.AnswerIsAll | services/log-sink/main.go:130-140 | A record is in the answer if and only if it is retained and matches. |
| LogSink.ContainsIff | services/log-sink/main.go:130-140 | A record matches a query if and only if its line has the query somewhere. |
| Merge.CollectOffers | services/inventory-merge/merge.py:35-63 | For every sku the offers of all shards that answered, in order; partial exactly when one failed. |
| Merge.OfferIff | services/inventory-merge/merge.py:35-63 | An offer for a sku is a line for it of a shard that answered, with that line's amount, price and time and that shard's warehouse. |
| Merge.MergeAvailability | services/inventory-merge/merge.py:66-113 | Fulfillable exactly when each item's positive offers cover it; one allocation per item with candidates, from the best offer; total price and slowest delivery of these. |
| Merge.BestIsBest | services/inventory-merge/merge.py:93-93 | The offer chosen is a candidate; none is faster, none as fast is cheaper, and of equally fast and cheap ones it is the first. |
| Merge.OrderIndependent | services/inventory-merge/merge.py:66-113 | Shuffling the partials changes neither coverage nor the partial flag nor total price nor delivery time. |
| Merge.FailureIsConservative | services/inventory-merge/merge.py:44-48 | A shard that fails instead of answering never covers an item that was not covered. |
| Merge.PromiseKeptIff | docs/design/CONTRACTS.md:168-168 | The merge keeps the promise on all non-negative stock if and only if, in the query, each named sku's largest quantity and total quantity agree counted from 0 up, and no item without a sku asks for anything. |
| Merge.NegativeStockBreaks | docs/design/CONTRACTS.md:168-168 | For every query that names a sku there is stock, some of it negative, on which the promise and the merge differ. |
| Merge.AnyStockIff | docs/design/CONTRACTS.md:168-168 | On all stock, negative included, the merge keeps the promise exactly for queries that name no sku and ask for nothing. |
| Merge.PromiseKept | docs/design/CONTRACTS.md:168-168 | Queries naming no sku twice are of that kind. |
| Merge.PromiseBroken | docs/design/CONTRACTS.md:168-168 | A query naming a sku twice, and stock on which it is reported fulfillable against the promise. |

## Left out

- Redis itself: restarts, durability, client-side retries, key expiry in the cache (SETEX and SET EX
  store, nothing expires). A MULTI or script is one step.
- HTTP, JSON and UUIDs: envelopes are abstract values with an order id, task ids are fresh, and
  extractOrderID is the identity on what the coordinator stored. Signals, health endpoints and metrics.
- Leader election: a sweep runs or does not; any number of sweepers may run at once.
- Framework.Framework.HandleTask: one worker alone with Redis; interference by others is in the queue
  machine, whose steps it takes. The answer of the stage is a parameter; `EndToEnd` has the handshake.
  How calls end does not depend on earlier ones.
- Framework.Framework.RunLoop: likewise.
- Coordinator.Coordinator.ReapDeadWorkers: SCAN returns every key present throughout, once.
- SettlementApp.App.Sweep: one sweeper alone; interference by others is in the queue machine.
- OwnershipResults.SingleOwnership: assumes what the operators must provide: one clock for workers and
  reaper, atomic beats at most HEARTBEAT_S apart starting before the first claim, worker names not
  reused, live workers' calls succeed, one reaper that completes a tick per interval, and
  2 HEARTBEAT_S + interval + the time from a worker's first deadline to setCurrent below VISIBILITY_S,
  in whole seconds. Clock skew between hosts adds to that sum and is not modelled.
- Handshake: the content of result.json, the poll interval and the process timeout's value.
- Resp.CommandAt: bytes.Fields and ToUpper on ASCII only. The panics of make on a size or count beyond a
  48-bit address space are modelled; running out of memory on a smaller one is not.
- Connection.HandleConn: client streams of at most 2^48-2 bytes, the size a Go slice can have; one
  client at a time, other clients being in `Sharing`. Its connection breaks, if ever, after some number of
  bytes. The concrete CRC32 is a parameter.
- Ambassador.Roundtrip: a request that the shard runs after its connection was given up; that is a step
  of `Sharing`. A shard that answers a command with anything but one reply to it.
- Ambassador.Pool.Do: the same late run of its first request.
- Client.OneStoreBehind: the same; in `Sharing` the order of all runs has the late ones in it, so a
  command answered as unavailable can take effect after later ones.
- LogShipper.Shipper.Shutdown: stat and read of a file end alike in all five attempts, and nothing is
  logged between them; `ShipperRace` has both.
- Truncated or rotated log files that outgrow their offset between polls; files are append-only. The
  timestamps of pushed values, and UTF-8 decoding of lines.
- Merge.MergeAvailability: prices are whole cents, so rounding to two places is the identity; _as_int
  and _as_float have been applied.
- Warehouse leaves, inventory-root fan-out, order-api, stage pricing and the metrics adapter.
