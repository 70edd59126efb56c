# NearInstant, verified model

NearInstant swaps XNO for XMR without a custodian. This project models its deterministic
core in Dafny and proves what it is meant to guarantee, in four groups:

- **Settlement.** `runA` and `runB` of `web/two_party.js` as one transition system
  (`Settlement`), atomicity over all runs (`Atomicity`), recoverability and exactly which
  crashes break it (`Recoverability`), what a closed-out session is worth (`CloseOut`), the
  imperative drivers refining that system (`Drivers`), the wait for the Monero lock
  (`LockWait`), and the per-chunk machine with its schedules (`SwapMachine`, `Schedule`).
- **Exchange.** The gossip relay at lock granularity (`Relay`), relays flooding one another
  (`Mesh`), the order book, its Merkle tree and its walks (`Orders`, `Book`, `Merkle`, `Matching`, `Fcfs`).
- **Channels and ledger.** The one-way channel, its journal and judge (`Channel`,
  `Journal`), the guard ladder (`GuardLadder`) over shared block terms (`NanoBlock`).
- **Messages and wallets.** The ledger message bus (`LedgerBus`), the ordered wire and the
  step channels (`Mailbox`, and from the listening side `StepWire`), the wallet's scan cache and spent set (`ScanCache`), the Nano
  address codec (`Address`, with `Chunking` for cutting sequences into groups).

`Common` holds the option and result types. `dafny verify dfyconfig.toml` checks everything.

## Choices

- Hashes, signatures, ring signatures, pre-signatures and ciphertexts are terms of free
  datatypes: equal terms, equal inputs. Completing an adaptor pre-signature puts the share
  into the signature, and extracting with another round's pre-signature yields garbage. The
  book's tie-break order is one fixed strict total order on order terms.
- A co-signing round is one step that gives both drivers the same result in memory. Every
  broadcast and every store write is a step of its own, and a driver may stop between any
  two. Parties follow the code but may stop for ever; they read secrets only from the block
  on chain. The two wallet accounts differ.
- Waits, node answers, gate verdicts and deadlines are nondeterministic choices or inputs.
- The relay has any number of threads, interleaved wherever one waits for a lock.
- State that the source keeps in objects is kept in classes (`Session`, `Engine`,
  `OrderBook`, `ChannelState`, `MailboxWire`, `ResumableDriver`, `StepReceiver`,
  `HeadlessWallet`), each
  method proved against the function the theorems are about.
- Integers are unbounded naturals, with 16-, 12- and 64-bit header fields cut explicitly.

## What the code does not promise

- The comment at `web/two_party.js:714-717` calls every completed step persisted before the
  next starts. Three effects are not covered by that: the finished claim round before
  `presigned` is written (`ClaimWindowStrandsA`), the finished refund round before A's
  `refund` is written, while B writes its own and locks (`RefundWindowStrandsBoth`), and the
  lock broadcast before `lock` is written, which a resumed B turns into `skipped` once A has
  refunded (`LockWindowStrandsB`). `RecoverableExactly` says that, from B's `refund` marker
  on, these three are all. No crash is needed for the first two: a round whose last message
  is lost finishes on one side only (`web/two_party.js:553-563`), which leaves the same world
  as a finished round whose result A then loses, so the windows stand for that too. In the
  claim round A's catch then refunds, and is left unpaid if B's claim is there first
  (`Drivers.CoSign.Halfway`).
- `recovered` is also reported when the ten-minute hunt of `recoverXmrFromRefund` finds
  nothing; the callers then mark the session done (`web/index.html:4360`,
  `integrations/hermes/scripts/xnoxmr.cjs:604`). Left behind is a lock too shallow at that
  time (`RunToShallowCloseOut`), and a buried one the hunt does not see because its chunk was
  skipped on every pass, or its height was never recorded and it is older than 5000 blocks
  (`RunToBlindCloseOut`). These are all: `ToldTrulyExactly`, with `LockWait.Hunt` for what
  seeing takes.
- A's sweep waits with the price gate still on (`web/two_party.js:1115`; the recovery at
  1255-1262 turns it off): a gate refusal before any pass has seen the lock makes the wait
  return null, and A stops unpaid with x recorded. `Drivers.Session.Sweep` and
  `LockWait.SweepWait` give the exact condition.
- An order can be accepted and flooded twice without any clock going back: `dexd` reads the
  time before `ingest` waits for a lock, and its sweeper runs beside it
  (`WaitingCallRefloods`). `OnceExactly` gives the exact condition on callers, which `dexd`
  does not enforce. `EachRepeatCostsASweep` and the bounds on gossip (`FloodsBounded`,
  `GossipEnds`) hold without it, repeats costing a sweep each.
- `fetch` counts chunks, not distinct chunks: a repeat can hide a gap (`RepeatHidesGap`,
  with the exact condition in `FetchesExactly`); and it lists 500 receivables, so longer
  messages never arrive (`FetchableExactly`).
- A wire used again after `send` threw can skip a message (`PrefixExactly`), and `stepWire`
  without a store reuses slots (`FreshExactly`).
- A receiver of `stepWire` settles on the first attempt that answers, lowest first, and that
  can be one the peer has left (`StaysWithAStaleAttempt`, exactly: `LiveExactly`).
- The wallet's state file is not written atomically, and any error of reading it back loads
  as a blank state, which the next save keeps; the wallet can then sign the same input again
  (`UnreadFileSpendsTwice`, `SpendsOnceExactly`).
- `verify_inclusion` alone does not fix the path's length (`ShortPathsAcceptInnerNodes`);
  that is exactly what makes an accepted hash a leaf (`LeafExactly`), and for order hashes
  it does not have to be checked (`AcceptedOrderIsListed`).
- `swap-core/swap-engine/src/schedule.rs:28-29` allows a last chunk up to max plus min; the
  code never exceeds max, and that is what `BuildSchedule` states.

## Model

| member | source | states |
|---|---|---|
| `Atomicity.Atomic` | web/two_party.js:809-1137 | Over every run of A and B from the start, any interleaving, any stops and restarts (also between an effect and its store write): A has swept Monero only if the claim confirmed, B only if the refund confirmed, no party ever holds both legs, and the claim confirms only over a buried lock |
| `Atomicity.InvStep` | web/two_party.js:809-1137 | Every step of either driver, every co-signing round and every Monero block keeps the joint invariant of both stores, both memories, the joint account and the joint outputs |
| `Atomicity.InvRun` | web/two_party.js:809-1137 | The invariant holds in every reachable state under any crash policy |
| `Atomicity.SpendsStep` | web/two_party.js:1114-1127 | The joint Monero outputs are spent only by A's sweep and B's recovery, and a spend is final |
| `Atomicity.SweepsTakeBothShares` | web/two_party.js:1111-1123 | Over every run the Monero moves only by the joint secret: a sweep by A means its store holds B's share, extracted from the claim on chain, one by B that the refund on chain yields A's |
| `Settlement.RunConcat` | web/two_party.js:714-717 | A driver resumed from its store continues the same run: running two step lists in turn is running their concatenation |
| `Recoverability.AlwaysRecoverable` | web/two_party.js:816-876 | With crashes between persisted steps: from the moment B's store holds the refund pre-signature, the last thing it asks for before locking, in every reachable state A can get paid acting alone, B can once the joint account has a successor, and both can without any further co-signing |
| `Recoverability.RecoverableExactly` | web/two_party.js:998-1128 | Recoverability holds if and only if no crash falls between a finished claim or refund round and A's store write of it, nor between B's lock broadcast and its store write |
| `Recoverability.ClaimWindowStrandsA` | web/two_party.js:1058-1067 | A run in which A stops between the claim round and the `presigned` write, B claims, and A can never reach the Monero in any continuation |
| `Recoverability.LockWindowStrandsB` | web/two_party.js:821-844 | A run in which B stops between the lock broadcast and the `lock` write, A refunds, B records `skipped`, and B never recovers its Monero in any continuation |
| `Recoverability.KeptRun` | web/two_party.js:833-847 | With the three windows closed, every run keeps: the refund B relies on is A's to take, the claim that can land is the one A can extract from, and B locks at most once and knows it |
| `Recoverability.AFinishes` | web/two_party.js:1208-1220 | Holding the refund pre-signature, written down or about to be, A reaches payment by its own steps: refund while the account is unmoved, extract and sweep after a claim |
| `Recoverability.BFinishes` | web/two_party.js:866-876 | After the account has moved, B reaches payment by its own steps: it has the XNO, or recovers its one lock with the share the refund published |
| `Recoverability.BothFinish` | web/two_party.js:1240-1275 | From any such state one wire-free schedule pays both parties |
| `Recoverability.ClaimStaysForgotten` | web/two_party.js:1111-1112 | Extraction works only from the pre-signature of the landed round: without its record A is never paid, whatever follows |
| `Recoverability.LockStaysForgotten` | web/two_party.js:1240-1245 | Once the lock is recorded as skipped while an output is there, B is never made whole |
| `Recoverability.RefundWindowStrandsBoth` | web/two_party.js:1004-1005 | A run in which A stops between the refund round and its `refund` write, B having written its own: B locks, and in no continuation is either party ever paid |
| `Recoverability.RefundStaysForgotten` | web/two_party.js:820-844 | Once B relies on a refund A has no record of, no step of either driver ever moves the account again |
| `CloseOut.ToldTrulyExactly` | web/two_party.js:1240-1275 | The `recovered` marker always means B has everything back if and only if whatever it locked is ten deep by the time of the hunt and the hunt sees an output that deep; `LockWait.Hunt` says exactly when it does |
| `CloseOut.RunToShallowCloseOut` | web/two_party.js:1263-1266 | A failing input: the refund landed, one output unspent and too shallow for the hunt, and B marked recovered, whether or not hunts see what is deep |
| `CloseOut.RunToBlindCloseOut` | web/two_party.js:1257-1266 | The other failing input: the output is buried and unspent, the hunt misses it (chunk skipped on every pass, or no height recorded and older than 5000 blocks), and B is marked recovered |
| `CloseOut.SettledRun` | web/two_party.js:866-876 | With every hunt over buried outputs and none overlooked, a marked recovery is final: all outputs are B's and none is added |
| `Drivers.Session.RunA` | web/two_party.js:992-1137 | A's driver in its own order of tests and writes, B and the chain interleaving at every wait. What it reports is so; it stops short only over a really lost write or for what it met, idle, after letting B go on, and never after throwing a finished round away; it holds at most one open, one refund and one claim round, no claim round without the gate's consent; it refunds only with cause, found in its looks (no buried lock in sight, the gate refused, no claim round to be had, no claim up to the deadline); and holding the refund, unless a store write was really lost, it ends paid, except over a claim from a round it has no record of, or with x when its sweep never saw the lock before the gate refused |
| `Drivers.Session.RunB` | web/two_party.js:809-987 | B's driver likewise. A claim round it held ends with its claim landed, or with the account's successor there first; holding the refund, unless a store write was really lost, it ends done, recovered or declined with nothing locked, or it lost that race, or A was not at the claim round after B had let it go on and the account had no successor in all of B's looks; a call that finds the account moved ends done or recovered, recovered with nothing swept only after a whole hunt in vain; recovered means everything is back only if the lock was buried, and then whenever the hunt sees it; at most one lock is added, only with the gate's consent |
| `Drivers.Session.RefundNow` | web/two_party.js:1208-1220 | With the refund held and the account unmoved the manual refund always lands, without B |
| `Drivers.Session.BroadcastRefund` | web/two_party.js:1186-1199 | The refund lands exactly when the open block is still the frontier; otherwise it is rejected and nothing is recorded; either way the account then has its successor, and the cause is on record |
| `Drivers.Session.Safe` | web/two_party.js:809-1137 | Wherever the drivers leave a session, atomicity holds |
| `Drivers.Session.FundAndOpen` | web/two_party.js:998-1004 | A goes on only with the open in its store and sends the funding once, exactly when its marker is missing; it stops only over a lost write, an open it co-signed and the node refused, or, no round held, with no funding at all both sides could open |
| `Drivers.Session.SecureRefund` | web/two_party.js:1004-1005 | A goes on only with the refund pre-signature in its store; a refund round it held is stored unless the write was really lost, and it stops without one only if B was not there after A had let it go on |
| `Drivers.Session.ReadSuccessor` | web/two_party.js:1084-1112 | A moved frontier is A's own refund, or B's claim and what its signature yields; nothing else |
| `Drivers.Session.FromRefund` | web/two_party.js:1006-1137 | From the refund on, unless a store write was really lost, A ends paid, or over an unrecorded claim, or with x and a sweep that never saw the lock in time; so with the lock seen it holds the claim pre-signature or the account has its successor; and a refund that lands has its cause on record |
| `Drivers.ExtractedFromRecord` | web/two_party.js:1111-1112 | What A extracts from a claim it has the record of is B's share |
| `Drivers.HistoryIsRun` | web/two_party.js:714-717 | A session's recorded history is a run of the transition system |
| `Drivers.Session.AwaitLock` | web/two_party.js:1006-1028 | Either a lock is recorded as seen and nothing else is written, or the refund is broadcast and A has its XNO back, and then none of its looks met a buried lock in sight, up to the deadline or to a gate refusal with nothing in sight |
| `Drivers.Session.WaitForLock` | web/two_party.js:598-647 | A lock once seen stays in the cache; without a hit no look met a buried lock in sight; and a lock buried from the start is found if and only if a look sees it before the gate refuses |
| `Drivers.Session.CommitClaim` | web/two_party.js:1037-1068 | Past the last gate A holds the claim pre-signature in its store, or the account has its successor, or the pre-signature was lost before it was written; without the gate's consent no claim round is held and the refund is broadcast; with it the refund is broadcast only when no round was held and none was to be had, or it finished on B's side alone |
| `Drivers.Session.AwaitClaim` | web/two_party.js:1076-1112 | The wait always ends, with x in A's store or with A's XNO back: the refund is broadcast only after every look up to the deadline met an account without a successor, and a refund that loses the race is followed by another look |
| `Drivers.Session.Sweep` | web/two_party.js:1114-1127 | The wait still has the price gate on and no deadline: with B's share extracted, A gets the Monero if and only if some look sees the lock before the gate refuses; otherwise A ends unpaid with x recorded |
| `Drivers.Session.TakeLock` | web/two_party.js:1117-1127 | A buried lock is swept with the extracted share, whether or not the marker is then written; one that is spent already was A's own sweep |
| `Drivers.Session.CoSignOpen` | web/two_party.js:732-776 | B goes on only with the open in its store; an uncertified deal is declined with nothing locked; it stops only over a lost write or, no round held, with no funding at all both sides could open |
| `Drivers.Session.CoSignRefund` | web/two_party.js:820-820 | B goes on to lock only with the refund pre-signature in its store; a refund round it held is stored unless the write was really lost |
| `Drivers.Session.WatchForRefund` | web/two_party.js:884-924 | With the other side away, B acts on the account exactly when it has moved, giving up only after every look met it unmoved, and what it then reports is so |
| `Drivers.Session.CompleteClaim` | web/two_party.js:956-977 | The completed claim lands exactly when the open block is still the frontier, and is then recorded |
| `Drivers.Session.LockMonero` | web/two_party.js:821-847 | B locks only holding the refund, skips when the frontier has moved, and without the gate's consent adds no output |
| `Drivers.Session.OnMoved` | web/two_party.js:866-876 | A moved frontier is told apart by its destination: own claim is recorded; a lock that the hunt sees and that is buried before it ends is swept, any other is closed out over with nothing swept; recovered means everything is back only if the lock was buried, and then whenever the hunt sees it |
| `Drivers.Session.TakeBack` | web/two_party.js:1246-1274 | A buried lock is swept with the share the refund published, whether or not the marker is then written |
| `Drivers.Session.CloseOutIsHonest` | web/two_party.js:1263-1266 | A session closed out has everything back only if every output is buried, and then it has if the hunt sees what is buried |
| `Drivers.Session.Claim` | web/two_party.js:930-977 | A claim round held ends with the claim landed or the account's successor met first; without one, after letting A go on, B watches the account to the end and stops only while it has not moved |
| `Drivers.Session.SignAndClaim` | web/two_party.js:952-977 | Once both have held the claim round the claim lands, or the node refuses it because the account already has its successor |
| `Drivers.Session.HuntLock` | web/two_party.js:1257-1266 | The hunt ends with a lock it sees that is buried, or after all its passes, none of which had one in sight |
| `Drivers.Session.PersistA` | web/two_party.js:714-717 | Each effect is followed by exactly its own store write, or the driver stops with the store unchanged, on record as a lost write |
| `LockWait.Wait` | web/two_party.js:581-648 | A result is an output of at least the amount at the depth asked for (1 to 10), counted from the highest tip ever shown; if no chunk is skipped and the start height is known, no result means no lock that deep exists, a result is the earliest lock, and the price gate gives up only with no lock visible; a lone lock is found exactly when some pass sees it and it is deep enough by the last, and the gate gives up only if none has seen it |
| `LockWait.ScanWindow` | web/two_party.js:605-625 | The chunked scan finds an output only if it pays and lies in the window, and with no chunk skipped finds the earliest or proves there is none; a lone lock is found exactly when it is in the window and its chunk is not skipped |
| `LockWait.Hunt` | web/two_party.js:1246-1266 | The recovery hunt finds B's lock if and only if some pass sees its block, from the recorded height or 5000 blocks back and in a chunk not skipped, and it is ten deep by the last pass |
| `LockWait.SweepWait` | web/two_party.js:1115-1115 | A gated wait without a deadline for a lock ten deep from the start finds it if and only if some pass sees it and the gate refused after none before that |
| `LockWait.SeenByLook` | web/two_party.js:605-625 | A block is seen exactly when some single pass sees it, and then one is the first |
| `LockWait.ScanChunk` | web/two_party.js:611-623 | A chunk is skipped exactly after three failures; otherwise its first paying output is found or there is none |
| `Schedule.BuildSchedule` | web/swap_machine.js:32-50 | Each error exactly under its condition (too many chunks exactly when ceil(total/maxChunk) exceeds the limit); otherwise chunks sum to the total, number ceil(total/maxChunk), are positive, at most maxChunk and at least min(total, minChunk, ceil(maxChunk/2)) |
| `Schedule.FewestChunks` | web/swap_machine.js:32-50 | No cut of the total into chunks of at most maxChunk has fewer chunks |
| `Schedule.PlanTotal` | web/swap_machine.js:38-49 | The schedule keeps the total, balanced tail included, and its length is the ceiling quotient |
| `Schedule.PlanChunks` | web/swap_machine.js:38-49 | Every chunk of every schedule is within its bounds |
| `Schedule.PlanShape` | web/swap_machine.js:38-49 | Chunks are full up to the last; only a tail below the minimum is evened out with the chunk before it |
| `SwapMachine.ExactAccounting` | web/swap_machine.js:96-146 | Over every event sequence the settled totals are the prefix sum of finished chunks, plus the current chunk on the XNO side exactly while its sweep is pending; the invariant throw is unreachable |
| `SwapMachine.CompletedSettlesAll` | web/swap_machine.js:132-140 | A completed swap has settled the whole schedule on both sides with nothing in flight |
| `SwapMachine.LossesAreExclusive` | web/swap_machine.js:67-78 | Fed the same events, the two roles' worst-case losses are never both positive and sum to what is in flight, at most the largest chunk |
| `SwapMachine.RolesAgree` | web/swap_machine.js:80-146 | The two roles' machines never differ in anything but the role |
| `SwapMachine.AbortCovered` | web/swap_machine.js:84-110 | Any abort or reorg that ends the swap tells a party with a positive worst-case loss how to get its value back |
| `SwapMachine.ProgressIsBounded` | web/swap_machine.js:96-146 | At most 5n + 1 progressing events are ever accepted for n chunks, whatever arrives |
| `SwapMachine.RankStep` | web/swap_machine.js:96-146 | No event moves the machine back, and every progressing event moves it one place on |
| `SwapMachine.ConfirmBeforeReveal` | web/swap_machine.js:117-128 | The claim of chunk c is emitted only on its guard confirmation, after its pre-sign, after its mature lock, all accepted, in that order |
| `SwapMachine.RevealedOnce` | web/swap_machine.js:126-128 | The claim of a chunk is emitted at most once over a whole trace |
| `SwapMachine.CompletedScript` | web/swap_machine.js:106-146 | Over any trace to completion the XMR seller was told to lock, guard and claim every chunk exactly once and for its own amount, the XNO seller to pre-sign and sweep every chunk exactly once, both to return the bonds, in order and nothing else |
| `SwapMachine.ToldByScript` | web/swap_machine.js:92-146 | Over every trace whatsoever, what a side was told is the beginning of that script up to its stage, and after an abort at most one recovery of the chunk at hand |
| `SwapMachine.ActionsAreRightful` | web/swap_machine.js:92-94 | Every action ever emitted names a chunk of the schedule and its own amount, and goes to its own role alone |
| `SwapMachine.ActionsAreNext` | web/swap_machine.js:112-128 | Within a chunk each step asks a side for the very next action of its script or for none |
| `SwapMachine.RefusedExactly` | web/swap_machine.js:96-143 | Which events are taken and which refused, with which error: the awaited one, an abort, a reorg between pre-sign and settled claim, a shallow lock; nothing else |
| `SwapMachine.AbortTells` | web/swap_machine.js:80-90 | On an abort B is told to refund exactly when Monero of its own is in flight and the claim has not settled, A to sweep exactly when B was told to claim this chunk |
| `SwapMachine.ProgressExactly` | web/swap_machine.js:112-143 | A machine goes on on exactly the event it waits for |
| `SwapMachine.CanComplete` | web/swap_machine.js:96-146 | Wherever a trace without an abort has led, the awaited events one by one complete the swap |
| `SwapMachine.EnteredBy` | web/swap_machine.js:117-128 | A machine at a middle stage of chunk c was brought there by that stage's own event for c |
| `SwapMachine.AccountsStep` | web/swap_machine.js:67-72 | Every event keeps the accounts exact, and a refused event changes nothing |
| `SwapMachine.Engine.Handle` | web/swap_machine.js:96-146 | The in-place machine: new fields and reply (actions or error) are those of the specification whose script, refusals and accounts are proved below and above |
| `SwapMachine.Engine.AdvanceStage` | web/swap_machine.js:112-143 | The stage table in place, with no change on an event not awaited |
| `SwapMachine.Engine.AbortNow` | web/swap_machine.js:100-109 | Abort in place: the recovery action of the stage left, stage aborted |
| `SwapMachine.Engine.CheckInvariant` | web/swap_machine.js:67-72 | Decides whether the settled values differ by at most one chunk |
| `Relay.SeenMatchesBook` | swap-core/dexd/src/relay.rs:45-124 | Over every interleaving of any number of ingests and sweeps at lock granularity: `seen` is the disjoint union of the book's hashes and those in-flight calls answer for, no hash is claimed twice, locks have one holder, the book stays sorted and within its bound (what may enter it: `BookIsProper`) |
| `Relay.BookIsProper` | swap-core/dexd/src/relay.rs:59-65 | In every reachable state each entry of the book was, as it came in, signed by its own maker, of positive amount and rate, unexpired and alive for at most a week |
| `Relay.CallStory` | swap-core/dexd/src/relay.rs:45-66 | Over every interleaving a finished ingest was answered `Duplicate` if its hash was in `seen` when it looked, otherwise `Accepted` if the order was proper and there was room as it reached the book, and `Rejected` if not |
| `Relay.AcceptanceLists` | swap-core/dexd/src/relay.rs:59-65 | An accepted order is listed exactly as it came in, beside what was there |
| `Relay.RejectionRestores` | swap-core/dexd/src/relay.rs:59-65 | A rejected order leaves no trace: its hash is out of `seen` again and the book untouched |
| `Relay.AtMostOnce` | swap-core/dexd/src/relay.rs:45-66 | With steady call times and sweeps called only when every ingest in flight was called at that time or later, no order hash is accepted twice, across races and expiry sweeps |
| `Relay.OnceExactly` | swap-core/dexd/src/main.rs:318-323 | No order is ever accepted twice if and only if call times are steady and sweeps are called quietly |
| `Relay.WaitingCallRefloods` | swap-core/dexd/src/main.rs:505-513 | No clock goes back: an ingest called at 9 waits while a sweep called at 10 drops the same order, and is then accepted |
| `Relay.EachRepeatCostsASweep` | swap-core/dexd/src/relay.rs:45-124 | Whatever callers do, an order is accepted at most once more than the book was swept |
| `Relay.RollbackRefloods` | swap-core/dexd/src/relay.rs:45-66 | With a call time going back a swept order is accepted a second time |
| `Relay.SweepMoves` | swap-core/dexd/src/relay.rs:114-118 | A sweep moves hashes from the book to its own claim and leaves `seen` alone |
| `Mesh.FloodsBounded` | swap-core/dexd/src/main.rs:261-323 | Whatever callers do, sweeper threads included: in a mesh of N relays with at most d peers each, every order is accepted at most N times and once more per sweep called, and copies delivered and in flight never exceed those put in plus d * (N + sweeps) for each order |
| `Mesh.GossipEnds` | swap-core/dexd/src/main.rs:261-323 | Gossip terminates whatever callers do: a run is no longer than a bound in the copies put in, the mesh, the orders and the sweeps called |
| `Mesh.CarefulFloods` | swap-core/dexd/src/main.rs:318-323 | Only if call times are steady and sweeps are called quietly, which the sweeper thread of dexd does not ensure: every order is accepted at most N times, and copies never exceed those put in plus d * N for each order |
| `Mesh.CarefulGossipEnds` | swap-core/dexd/src/main.rs:318-323 | Under the same condition the bound on a run has no term for repeated floods |
| `Mesh.SweepsRun` | swap-core/dexd/src/main.rs:505-513 | Every sweep that goes over a book was called, and each call goes over it once |
| `Mesh.ConservedRun` | swap-core/dexd/src/main.rs:261-268 | Copies come only from outside or from an acceptance, one to each peer but the sender, and leave only by delivery |
| `Mesh.SoundRun` | swap-core/dexd/src/main.rs:293-323 | Whatever callers do, every relay of the mesh keeps its own invariants, accepts no order that was not put in, and none again without a sweep having made room |
| `Mesh.OnlyGenuineTravel` | swap-core/dexd/src/main.rs:293-323 | Whatever is put in, forged orders included, every copy relays send on is of an order signed by its own maker |
| `Mesh.EveryPeerIsTold` | swap-core/dexd/src/main.rs:261-268 | Once a relay has accepted an order, each of its peers but the one it names as sender has a copy on its way or has been called with it |
| `Mesh.NothingIsLost` | swap-core/dexd/src/main.rs:261-268 | A copy in flight stays so until its relay is called with its order |
| `Mesh.PaidRun` | swap-core/dexd/src/relay.rs:45-124 | A call takes a bounded number of steps, six for an ingest and four for a sweep |
| `Relay.QuiescentSeenIsBook` | swap-core/dexd/src/relay.rs:97-124 | When every call has returned, `seen` is exactly the book's hashes: nothing leaks and nothing is missing |
| `Relay.NeverStuck` | swap-core/dexd/src/relay.rs:110-124 | The two-lock order never deadlocks: while a call is unfinished, some call can go on |
| `Relay.InvStep` | swap-core/dexd/src/relay.rs:45-124 | Every lock-granular step keeps locks, partition, order and bound |
| `Relay.Repartition` | swap-core/dexd/src/relay.rs:109-122 | Moving hashes between the book and one call's claim, with `seen` changed by exactly the difference, keeps the partition |
| `Book.InsertedIs` | swap-core/dex-core/src/book.rs:48-60 | Inserting keeps the listing strictly ordered, adds the entry, and displaces nothing but the same order's older entry |
| `Book.SweepSplits` | swap-core/dex-core/src/book.rs:68-79 | What the book held is what a sweep keeps plus what it reports, disjointly, and everything kept is unexpired |
| `Book.LiveIs` | swap-core/dex-core/src/book.rs:68-79 | A sweep keeps exactly the unexpired entries, in order |
| `Book.DroppedIs` | swap-core/dex-core/src/book.rs:68-79 | A sweep reports exactly the expired hashes, as many as entries removed |
| `Book.BestFirst` | swap-core/dex-core/src/book.rs:95-109 | A side lists exactly the book's entries of that side, without repeats, best price first for either side |
| `Book.KeysAreUnique` | swap-core/dex-core/src/book.rs:26-30 | In an ordered book an order hash occurs once |
| `Book.InsertedHashes` | swap-core/dex-core/src/book.rs:48-60 | Inserting adds exactly the order's hash to the book's hashes |
| `Book.OrderBook.Insert` | swap-core/dex-core/src/book.rs:48-60 | In place: only a verifying order enters; otherwise nothing changes |
| `Book.OrderBook.SweepExpired` | swap-core/dex-core/src/book.rs:68-79 | In place: keeps exactly the live entries, returns exactly the dropped hashes, disjoint from what stays |
| `Book.OrderBook.ListSide` | swap-core/dex-core/src/book.rs:95-109 | The listing of a side, reversed for XMR sellers |
| `Matching.WalkIsBest` | swap-core/dex-core/src/matching.rs:25-44 | Among all fills of the same total that respect order sizes and skip the taker's own orders, the walk pays least (XNO sellers) or gets most (XMR sellers) |
| `Matching.WalkFills` | swap-core/dex-core/src/matching.rs:25-44 | The walk is such a fill, of exactly min(amount, depth not the taker's own) |
| `Matching.WalkIsGreedy` | swap-core/dex-core/src/matching.rs:33-42 | An entry is left short only if nothing is taken after it |
| `Matching.WalkIsFavourable` | swap-core/dex-core/src/matching.rs:33-42 | At the rate of its last touched entry the walk takes no less of anything better and no more of anything worse than any other fill |
| `Matching.PicksAreTheWalk` | swap-core/dex-core/src/matching.rs:33-42 | The list of picks takes of every entry what the walk does, and never one of the taker's own |
| `Matching.PicksCostTheWalk` | swap-core/dex-core/src/matching.rs:33-42 | The list of picks costs and takes exactly what the walk does |
| `Matching.SelectForAmount` | swap-core/dex-core/src/matching.rs:25-44 | The returned list fills min(amount, what other makers offer) of a price-ordered side, takes of orders of that side only, never of the taker's own nor beyond an order's size, and no feasible allocation of the same total has a better sum of rate times take |
| `Fcfs.AcquitsExactly` | swap-core/dex-core/src/matching.rs:121-153 | The audit acquits if and only if all sequence numbers are distinct and the settled list is a prefix of the order hashes sorted by sequence |
| `Fcfs.ConvictsOf` | swap-core/dex-core/src/matching.rs:131-152 | A conviction names a sequence number given twice, against itself, whatever was settled; otherwise the first settlement out of turn, by the number settled (0 without a receipt) and the lowest one skipped |
| `Fcfs.CollisionIs` | swap-core/dex-core/src/matching.rs:131-139 | The repeated number reported is the lowest there is |
| `Fcfs.DeviationIs` | swap-core/dex-core/src/matching.rs:140-152 | A wrong settlement is reported at its first deviation from the pending order |
| `Fcfs.VerdictIgnoresInputOrder` | swap-core/dex-core/src/matching.rs:121-153 | The full verdict is the same for every permutation of the receipts |
| `Fcfs.SortIs` | swap-core/dex-core/src/matching.rs:123-130 | The sort is a sorted permutation under (sequence, order hash) |
| `Fcfs.NoCollisionIs` | swap-core/dex-core/src/matching.rs:131-139 | The adjacent-pair scan of a sorted list finds no collision exactly when all sequence numbers differ |
| `Fcfs.SettledInOrderIs` | swap-core/dex-core/src/matching.rs:140-152 | Settlement is unobjectionable exactly when it is a prefix of the pending order |
| `Fcfs.DistinctSorted` | swap-core/dex-core/src/matching.rs:130-139 | Sorting neither hides nor makes a collision |
| `Fcfs.SortedKeysAgree` | swap-core/dex-core/src/matching.rs:124-130 | A bag of (sequence, hash) keys has one sorted listing |
| `Fcfs.AuditFcfs` | swap-core/dex-core/src/matching.rs:121-153 | The loops compute the verdict the theorems are about, violation pair included |
| `Merkle.PathsVerify` | swap-core/dex-core/src/book.rs:200-227 | Completeness: every leaf's path, of the tree's height, is accepted against the root, odd layers included |
| `Merkle.AcceptedIsLeaf` | swap-core/dex-core/src/book.rs:183-227 | Soundness: an accepted path of the tree's height proves its leaf is in the tree |
| `Merkle.AcceptedOrderIsListed` | swap-core/dex-core/src/book.rs:138-150 | Soundness for orders: whatever the path's length, an order hash is accepted against a book's root only if the book lists it |
| `Merkle.OrderHashAtTheBottom` | swap-core/dex-core/src/book.rs:217-227 | A path from an order hash into a tree of order hashes has exactly the tree's height |
| `Merkle.LeafExactly` | swap-core/dex-core/src/book.rs:217-227 | An accepted hash is a leaf of a nonempty book if and only if its path is as long as the tree is high |
| `Merkle.ShortPathsAcceptInnerNodes` | swap-core/dex-core/src/book.rs:217-227 | Both conditions are needed: an inner node is accepted by a shorter path, and the empty root accepts itself |
| `Merkle.SameOrdersSameRoot` | swap-core/dex-core/src/book.rs:138-141 | Two clients holding the same orders list them alike and compute the same root |
| `Merkle.MerkleRoot` | swap-core/dex-core/src/book.rs:183-198 | The layer loop computes the tree's root |
| `Merkle.MerklePath` | swap-core/dex-core/src/book.rs:200-214 | The loop computes a path of the tree's height that the root accepts |
| `Merkle.VerifyInclusion` | swap-core/dex-core/src/book.rs:217-227 | The fold accepts exactly when climbing the path reaches the root |
| `Merkle.InclusionProof` | swap-core/dex-core/src/book.rs:144-148 | There is a proof exactly for the listed orders, and it verifies |
| `Channel.RunsAreMonotone` | swap-core/channels/src/channel.rs:185-226 | Over any sequence of calls the accepted states strictly raise the taker's slice up to capacity, under one key image, each carrying a ring signature valid for the channel's ring, its own key image and pseudo-out, over the canonical hash of its split at its own place |
| `Channel.AcceptedExactly` | swap-core/channels/src/channel.rs:185-226 | After any calls an offer is accepted if and only if it names this channel, is in time, raises the slice within capacity and is validly signed for its place under the channel's key image; any other changes nothing |
| `Channel.AcceptedWasOffered` | swap-core/channels/src/channel.rs:147-161 | Every accepted state came with a reference naming this channel and its slice, before the lifetime cap, in the order of the calls |
| `Channel.RefusedExactly` | swap-core/channels/src/channel.rs:147-219 | Each error under exactly its own condition, the first that applies |
| `Channel.ChannelState.AcceptState` | swap-core/channels/src/channel.rs:185-226 | A refused state changes nothing and names the source's error; an accepted one advances slice, index and key image, before the lifetime cap |
| `Channel.ChannelState.AcceptChunkRef` | swap-core/channels/src/channel.rs:149-163 | Accepts exactly a reference to this channel, before the cap, strictly above the slice and within capacity; errors in the source's order |
| `Channel.ChannelState.Open` | swap-core/channels/src/channel.rs:125-145 | Opens exactly when the lifetime cap lies strictly before the horizon |
| `Channel.ChannelState.SettlementSplit` | swap-core/channels/src/channel.rs:277-283 | Outputs and fee are exactly the capacity and the taker's slice is whole; refused exactly when the maker's part cannot cover the fee or nothing is left to pay out |
| `Journal.JudgedExactly` | swap-core/channels/src/journal.rs:99-117 | Against the log of any channel run: Latest exactly for the newest state, Stale with both indices for each older one, Unanchored exactly for what was never accepted |
| `Journal.StaleStaysStale` | swap-core/channels/src/journal.rs:83-117 | Appending any entries, forged duplicates included, never acquits a stale state and never changes its index |
| `Journal.ReplayRecovers` | swap-core/channels/src/journal.rs:23-71 | Replaying an account's chain recovers exactly the anchored states in order, whatever other blocks lie between |
| `Journal.Replay` | swap-core/channels/src/journal.rs:56-71 | The loop recovers the links of exactly the 1-raw sends |
| `Journal.LookupWithin` | swap-core/channels/src/journal.rs:104-109 | A found index is the one logged with that hash, and not found means not logged |
| `LedgerBus.UnpackPack` | web/ledger_relay.js:34-47 | A header whose fields fit survives packing and unpacking |
| `LedgerBus.PackUnpack` | web/ledger_relay.js:34-47 | A word reads as a header exactly when its top byte is the magic, and then packing gives the word back: a bijection |
| `LedgerBus.PostThenFetch` | web/ledger_relay.js:57-134 | Once every send of a successful post is among the at most 500 listed and read, in any order and with any repeats, fetch returns exactly the posted blob |
| `LedgerBus.FetchableExactly` | web/ledger_relay.js:109-118 | A posted blob can ever be fetched if and only if it is at most 500 chunks long |
| `LedgerBus.TooLongIsPending` | web/ledger_relay.js:111-118 | A longer one is never fetched, however often it is tried |
| `LedgerBus.RoundTrip` | web/ledger_relay.js:109-134 | With all chunks present, repeats allowed, fetch returns the blob; with distinct indices it returns null until then |
| `LedgerBus.FetchesExactly` | web/ledger_relay.js:109-134 | Fetch returns the blob if and only if as many chunks were read as it has and every chunk not among them is all zeros |
| `LedgerBus.RepeatHidesGap` | web/ledger_relay.js:121-133 | Two copies of one chunk are taken for a two-chunk message: a concrete mailbox for which fetch returns a different blob |
| `LedgerBus.PostedIsFetchable` | web/ledger_relay.js:57-105 | Whatever rejections, refreshes and repeats a post went through, all it leaves on chain are chunks of its blob under its header |
| `LedgerBus.FilledWithBlob` | web/ledger_relay.js:119-132 | The buffer holds the blob where a chunk was read and zeros elsewhere, in any order of arrival |
| `LedgerBus.Post` | web/ledger_relay.js:57-105 | On success every chunk is on chain, on any outcome nothing else is, and at most three chunks are there twice; it gives up only over a balance too low for the chunk at hand, a failed broadcast, a fourth rejection or no answer any more, so with a network that takes every chunk and a balance that pays for them it succeeds, each chunk sent once |
| `LedgerBus.AllLanded` | web/ledger_relay.js:57-105 | With a network that takes every chunk and a balance that pays for them, a post can stop neither before its last chunk nor after it |
| `LedgerBus.UnderIsRun` | web/ledger_relay.js:76-105 | However far a post got, all it sent are chunks of its blob, every chunk before the one at hand among them, with at most one extra per refresh and at most three refreshes |
| `LedgerBus.Fetch` | web/ledger_relay.js:109-134 | Over the listed receivables, the loops compute the fetch the theorems are about, range error included |
| `Mailbox.DeliversPrefix` | web/mailbox.js:70-108 | Whatever relays drop, delay, repeat, reorder or alter, the receiver has a prefix of what was sent |
| `Mailbox.PrefixExactly` | web/mailbox.js:70-88 | Ordered delivery holds if and only if a wire is not used again after its send threw |
| `Mailbox.SlotsAreFresh` | web/two_party.js:260-286 | With the attempt persisted before use, no (step, attempt, sequence) slot is sealed with two plaintexts, wherever the driver crashes |
| `Mailbox.FreshExactly` | web/two_party.js:263-265 | Freshness holds if and only if a store is attached |
| `Mailbox.MailboxWire.Send` | web/mailbox.js:70-88 | Posts one and the same ciphertext at most four rounds; the sequence moves on exactly when a relay took it |
| `Mailbox.MailboxWire.Recv` | web/mailbox.js:89-108 | The first blob handed over decides: this slot's message and one place on, or a failure with the slot unchanged |
| `Mailbox.FirstBlobIs` | web/mailbox.js:89-101 | The blob that decides is the earliest: none in a round before, none from an earlier relay in its own |
| `Mailbox.ResumableDriver.OpenChannel` | web/two_party.js:260-267 | The attempt is counted and stored before the channel exists, keeping slots fresh |
| `Mailbox.ResumableDriver.SendOn` | web/two_party.js:269-271 | Sealing on a step channel keeps every slot with one plaintext |
| `StepWire.OneAttempt` | web/two_party.js:248-286 | However often either side stops and comes back and whatever relays do, what a receiver got since it opened is a prefix of what the peer sent on one single attempt, at most two away from its own count |
| `StepWire.HeardExactly` | web/two_party.js:268-270 | A receiver can ever take a message from the peer's attempt if and only if the two attempt counts are at most two apart |
| `StepWire.LiveExactly` | web/two_party.js:274-281 | With relays that keep everything, the channel a fresh receiver settles on is the one the peer is using if and only if the peer left nothing on an earlier attempt still in the window |
| `StepWire.StaysWithAStaleAttempt` | web/two_party.js:269-281 | A run: the peer tried alone once, is at its second attempt, and the receiver settles on the first, where nothing more will come |
| `StepWire.StepReceiver.RecvFirst` | web/two_party.js:273-283 | The first blob that opens, round by round and lowest attempt first, decides the channel; with none nothing changes and no candidate had anything that opens |
| `StepWire.StepReceiver.RecvLocked` | web/two_party.js:274-274 | Once a channel has answered only its next slot is read |
| `GuardLadder.WalkClimbs` | swap-core/nano-ceremony/src/guard.rs:115-129 | A ladder of n rungs is climbed in exactly n broadcasts, each accepted, one fewer remaining each time, balance unchanged |
| `GuardLadder.AcceptedLadderClimbs` | swap-core/nano-ceremony/src/guard.rs:65-129 | Any ladder `new` accepts, from whichever of its frontiers the account is at: broadcasting the offered rung again and again lands every remaining rung in order, each accepted, moves no value, and ends with nothing left |
| `GuardLadder.NewExactly` | swap-core/nano-ceremony/src/guard.rs:71-86 | `new` takes exactly the rungs that are signed value-free changes of this account at this balance and follow one another |
| `GuardLadder.ConfirmedExactly` | swap-core/nano-ceremony/src/guard.rs:93-113 | A ladder is taken against a report exactly when the reported balance is the one its rungs keep and the reported frontier is one a rung sits on |
| `GuardLadder.StaleIsRefusedForever` | swap-core/nano-ceremony/src/guard.rs:36-55 | Once any block lands, every block signed against the frontier it replaced is refused in every later state |
| `GuardLadder.FrontierDeepens` | design/verify_core.py:65-85 | Over any confirmations the frontier stays or gets strictly deeper, so none comes back |
| `GuardLadder.LadderOffersEachRung` | swap-core/nano-ceremony/src/guard.rs:65-129 | A ladder as built and signed is accepted, offers rung k at the k-th frontier with n - k remaining, and nothing at the top |
| `GuardLadder.ConfirmedLadderIsValueFree` | swap-core/nano-ceremony/src/guard.rs:93-113 | A ladder taken against the node's report offers a rung the ledger accepts and that moves no value |
| `GuardLadder.BuildRungs` | swap-core/nano-ceremony/src/guard.rs:40-55 | Rung k is the value-free change block on the frontier left by the k rungs before it |
| `ScanCache.CacheIsExact` | web/headless_wallet.js:130-176 | Over any scans of lagging or disagreeing nodes, sends and crashes, files that do not read back included, the cache holds every owned output in [restore, scannedTo) once |
| `ScanCache.WalletSpendsOnce` | web/headless_wallet.js:178-215 | While the state file always reads back, no output is an input of two offered transactions |
| `ScanCache.SpendsOnceExactly` | web/headless_wallet.js:126-127 | No output is ever spent twice if and only if the state file always reads back; a torn write and any read error alike load as a blank state |
| `ScanCache.UnreadFileSpendsTwice` | web/headless_wallet.js:126-127 | A concrete run: a file that does not read back and loads as blank, and the same coin offered again |
| `ScanCache.ScanKeepsCache` | web/headless_wallet.js:134-171 | A scan round at any tip, ahead of or behind the checkpoint, keeps the cache exact and loses nothing |
| `ScanCache.CaughtUpIsFullScan` | web/headless_wallet.js:163-171 | Below the checkpoint the cache holds exactly what one scan of the whole range would find |
| `ScanCache.CatchesUp` | web/headless_wallet.js:164-172 | Against a tip that stands still the refresh is caught up after one round per twenty blocks |
| `ScanCache.AddNewIs` | web/headless_wallet.js:169-169 | Merging by index adds exactly the new outputs and keeps one of each |
| `ScanCache.CandidatesAre` | web/headless_wallet.js:186-186 | The candidates are exactly the cached, unspent, unlocked outputs, each once, smallest first |
| `ScanCache.ChooseInputs` | web/headless_wallet.js:187-190 | The fewest smallest inputs, at most 16, that cover the amount and their own fee; none exactly when no admissible number of them does |
| `ScanCache.SignKeepsApart` | web/headless_wallet.js:206-207 | Marking before offering keeps a new transaction apart from every earlier one |
| `ScanCache.SignedInputsAreRipe` | web/headless_wallet.js:186-186 | Whatever was scanned, sent and lost before, every input ever signed is an output the wallet owns, at least ten blocks below the tip its node showed, and not marked spent |
| `ScanCache.HeadlessWallet.XmrRefresh` | web/headless_wallet.js:130-176 | The refresh in place: final file and answer are those of the round-by-round specification, only scans happen, every stop on the way included |
| `ScanCache.HeadlessWallet.XmrSend` | web/headless_wallet.js:178-215 | Exactly how a send ends: refusals leave the refreshed file alone, otherwise the fewest covering inputs are marked spent and that one transaction offered, accepted or not |
| `ScanCache.HeadlessWallet.MarkAndOffer` | web/headless_wallet.js:206-211 | The inputs are in the saved spent list before the transaction is offered |
| `ScanCache.HeadlessWallet.Safe` | web/headless_wallet.js:130-215 | Wherever its methods leave the wallet, the cache is exact and no output was offered twice, the file always reading back |
| `Address.Decode` | swap-core/nano-ceremony/src/address.rs:58-96 | For any checksum function: a key is returned exactly for that key's text behind `nano_` or `xrb_`, so an accepted `nano_` address is the encoding of the key returned |
| `Address.EncodeThenDecode` | swap-core/nano-ceremony/src/address.rs:50-96 | Decoding the encoding of any 32-byte key gives the key back |
| `Address.TextIsInjective` | swap-core/nano-ceremony/src/address.rs:50-54 | Two keys with the same address are the same key |
| `Address.TextIsPayload` | swap-core/nano-ceremony/src/address.rs:58-75 | A text is a key's if and only if all of it is in the alphabet and its bits are that key's 300-bit payload |
| `Address.TextIsNumber` | swap-core/nano-ceremony/src/address.rs:16-54 | Read as sixty base-32 digits the text of a key is the key as a 256-bit big-endian number followed by its digest as a 40-bit little-endian one |
| `Address.AlphabetIs` | swap-core/nano-ceremony/src/address.rs:10-14 | The digits are the figures and small letters without 0, 2, l and v |
| `Address.Unpack` | swap-core/nano-ceremony/src/address.rs:72-96 | Exactly the payloads of keys pass the padding and checksum tests |
| `Address.GatherSpread` | swap-core/nano-ceremony/src/address.rs:26-48 | Cutting the bits of values into groups and reading them back gives the values, for bytes and five-bit digits alike |
| `Address.SpreadGather` | swap-core/nano-ceremony/src/address.rs:26-48 | Reading groups of bits and spreading them again gives the bits |
| `Address.CharValueOfDigit` | swap-core/nano-ceremony/src/address.rs:10-14 | Every digit's character is read back as that digit |
| `Address.Encode` | swap-core/nano-ceremony/src/address.rs:50-54 | Body and checksum are encoded apart and are together the text of the whole payload |
| `Address.BytesToBits` | swap-core/nano-ceremony/src/address.rs:39-48 | The nested loops produce the padding and then each byte most significant bit first |
| `Address.PushBits` | swap-core/nano-ceremony/src/address.rs:66-71 | The loop yields the digits' bits, or nothing exactly when a character is not in the alphabet |
| `Address.PackBytes` | swap-core/nano-ceremony/src/address.rs:76-91 | The in-place loops fill the array with the bytes the bits stand for |

## Left out

- Drivers.Session.RunA: wall-clock deadlines become a bounded number of looks at the chain; progress notes, work and RPC retries are not modelled. A sweep wait without a deadline that is given no further look counts as not having seen the lock.
- Drivers.Session.WaitForLock: an output once in sight stands for the earliest one, so with several outputs on the joint address a buried one is taken for the hit.
- Atomicity.Atomic: one `mature` flag stands for the depth A goes on at, fewer than ten blocks on the instant tier, and for the ten blocks sweeping needs, so that a landed claim implies a buried lock holds at the deal's depth.
- Settlement.RunConcat: `RoundOpen` presumes that both sides' nodes list the same pending funding first.
- Drivers.Session.RunB: bounded in the same way; whether the frontier can be read is an input. A wait for the other side on the wire is one stretch of any length in which that side and the chain go on.
- Mesh.FloodsBounded: peers joining and leaving are copies put in from outside, and browser outboxes are not relays.
- Drivers.Session.CommitClaim: a session saved before the pre-signature was persisted, which signs the claim once more over the wire, is not modelled.
- LockWait.Wait: outputs never leave the chain (no Monero reorg), an earliest-lock guarantee is given only for a known start height, and times between passes are not modelled.
- LedgerBus.Fetch: which 500 receivables a node lists is its own choice; the model takes the first of a list in any order.
- LedgerBus.Post: the identity's own account is reduced to its balance; its frontier and pocketing are not modelled.
- Mailbox.MailboxWire.Recv: one call's polls are given as a list; the wait between polls is not modelled.
- StepWire.StepReceiver.RecvFirst: timeouts of the candidate channels are not modelled; a round gives each channel the blob it meets, if any.
- ScanCache.HeadlessWallet.XmrSend: calls do not overlap; among inputs of equal amount the source's comparator fixes no order, and the model keeps the cached one. Whether a node builds or accepts is an input.
- ScanCache.HeadlessWallet.XmrRefresh: the failover loop over nodes is folded into what each scan call meets; displayed totals and the read-only variant are left out.
- Schedule.BuildSchedule: negative amounts, which the BigInt code would accept, are not modelled; the source calls its values u128.
- Relay.SeenMatchesBook: the relay is a state machine over values at lock granularity, not an object, because its point is what other threads do between two locks.
- Address.Decode: addresses are strings of characters; a character outside ASCII is refused as one stranger where the code refuses its bytes.
- A's own safety between funding and the stored refund, and exactly-once funding or locking when a crash falls between an external send and its store write: the code does not give them.
- A crash inside a co-signing round, a message lost in it other than one that leaves it finished on one side, and a party that deviates from the code.
- Deal negotiation, profit certification and `minViableXnoRaw`: they rest on a floating-point mid; their verdict is a free choice here.
- Cryptography itself (FROST, adaptor algebra, CLSAG, AES-GCM, ECDH, Blake2b, proof of work) and the key ceremony.
- Monero reorgs below the confirmation depth, key-image consensus and the fee market.
- Commit-reveal tickets, price levels and the mid quote, order and proof-of-funds wire formats: single-branch validators and displays.
- The floating-point modules (`earn.rs`, `reputation.rs`, `market.rs`, `horizon.rs`, `ledger.rs`) and the deployment copies of the web files.
- Overflow of u64 and u128 counters.
