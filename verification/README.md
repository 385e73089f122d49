# TON network core: a Dafny model with proofs

The project models three parts of the TON node and proves what they promise over every input, every run
or every reachable state:

- **CatChain** (`Catchain*.dfy`): the receiver that buffers signed blocks of a DAG until their parents are
  delivered, its scheduler, fork ids, vector timestamps and illness; the answer to `getDifference`; the
  upper half that keeps the frontier, replays ancestors and chooses dependencies; and a whole node in which
  both halves, the actor mail and the asynchronous making of local blocks interleave freely.
- **Kademlia** (`Dht*.dfy`): prefix buckets, the two-sweep lookup, `distance`, and the iterative query.
- **ADNL** (`Adnl*.dfy`): the encrypted stream of an external connection, packing, splitting and joining of
  large messages, the sliding replay window of peers and proxy, and the two-party channel handshake.

`dafny verify dfyconfig.toml` checks everything.

## How to read it

State that the program updates in place is updated by methods of classes (`Receiver`, `CatChain`, `Bucket`,
`Member`, `Query`, `Connection`, `Assembler`, `ReceivedMask`); loops are loops with invariants. For the two
halves of CatChain the object's fields are the components of one record, and each method is proved equal to a
transition function on that record; everything said about runs is said about those functions. Protocols are
state machines: a run is any sequence of events.

Conventions of the model:

- Hashes are injective: a block is named by source, height and payload, which is what its id covers
  (catchain/catchain-received-block.cpp:340-345). A signature is a flag on the message that carries it. The
  root block is a name of its own.
- The payload parser yields one of five cases. A fork proof is a pair of references.
- A failed `CHECK` is recorded, never assumed away, and ends the run: `State.checks` in the receiver, `alive`
  in the node and the proxy, `Aborted` on a stream, `ok` of a ping. When checks fail is then a theorem. Checks
  that only speak of what the program itself passes are preconditions.
- Two kinds of received block end the receiver: one of a source that does not exist, whose hash fails a CHECK
  before validation could refuse it (catchain/catchain-receiver.cpp:67 and 33-36), and one with a direct
  dependency on the root, which validation accepts and whose missing source object `pre_deliver` dereferences
  (catchain/catchain-received-block.cpp:181-182); the dereference is recorded like a CHECK.
  `CatchainTheorems.ChecksHoldIff` shows that these are the only ways. A run is alive (`Alive`) as long as
  neither happened; the other results about runs of the receiver are about alive ones.
- Integers are unbounded; widths are written out where they matter (`pending_deps_`, the window's 64-bit
  arithmetic, the 32-bit length on the stream).
- Random choices, clocks and the order of continuations are arguments of events.

## Model

| member | source | states |
|---|---|---|
| CatchainConfluence.Confluence | catchain/catchain-receiver.cpp:65-104 | two runs over the same fork-free set of valid blocks without fork proofs, in any order and with any repeats, end with the same delivered set and the same ill set |
| CatchainConfluence.DeliveredIsLeast | catchain/catchain-received-block.cpp:168-287 | the delivered set is the least set of received blocks closed under: all parents in it and no direct dependency in the causal past of `prev` |
| CatchainConfluence.IllIsLeast | catchain/catchain-received-block.cpp:248-263 | the ill set is the least set containing every block with delivered parents and a redundant dependency, and every child of a member |
| CatchainConfluence.VerdictIsStaleness | catchain/catchain-received-block.cpp:168-225 | with one fork per source, `pre_deliver` rejects a ready block exactly when a direct dependency is covered by the timestamp of `prev` |
| CatchainConfluence.StaleIffRedundant | catchain/catchain-received-block.cpp:180-191 | the timestamp test on a dependency is exactly reachability from `prev` in the DAG |
| CatchainVectorTime.VectorTimeIsReachability | catchain/catchain-block.cpp:49-55 | in every run, forks included, `B.is_descendant_of(A)` holds for delivered blocks exactly when A is B or an ancestor of B |
| CatchainVectorTime.KnownIsReached | catchain/catchain-received-block.cpp:265-275 | soundness half: whatever a timestamp covers is reached through prev and deps edges |
| CatchainVectorTime.ReachedIsKnown | catchain/catchain-received-block.cpp:265-275 | completeness half: every ancestor is covered by the timestamp |
| CatchainTheorems.ChecksHoldIff | catchain/catchain-receiver.cpp:65-104 | a run of the receiver fails if and only if some received block names no existing source, or some received block has only delivered parents and a dependency on the root that the scan of `pre_deliver` gets to; no other CHECK ever fails |
| CatchainTheorems.UnknownSourceFailsCheck | catchain/catchain-receiver.cpp:33-36 | a concrete message that fails the CHECK taken before validation: a block of source 7 where there are two |
| CatchainTheorems.RootDependencyFailsCheck | catchain/catchain-received-block.cpp:180-182 | a concrete message that validation accepts and that dereferences the missing source of the root |
| CatchainNode.UnknownSourceKills | catchain/catchain-receiver.cpp:65-71 | a block of an unknown source ends any live node |
| CatchainAdmission.AdmittedIff | catchain/catchain-receiver.cpp:65-104 | after any run, a message that names an existing source is taken exactly if its block is new and it is genuine (`Genuine`): signed, above its `prev` in the same chain, at most `max_deps` dependencies on as many other sources, a payload, every reference signed or known; otherwise the state does not change at all |
| CatchainAdmission.OnlyGenuineBlocks | catchain/catchain-received-block.cpp:362-439 | in every run each block the receiver holds, with its edges, came in a message that was genuine when it arrived |
| CatchainEvidence.BlamedIff | catchain/catchain-receiver-source.cpp:60-82 | in every run a source is blamed exactly if two of its blocks at one height are known, or one of its blocks is ill, or a delivered block carries a fork proof against it, or a fork proof came in with two vouched-for references to different blocks of it at one height |
| CatchainEvidence.PayloadsTakeEffect | catchain/catchain-received-block.cpp:131-225 | in every run each fork proof in a delivered block is about two different vouched-for blocks of one source at one height, and that source is blamed and its fork proven; and the payloads kept for the application are exactly those of delivered blocks that are not inner messages |
| CatchainEvidence.ProofIff | catchain/catchain-receiver.cpp:800-832 | a pair of references changes nothing unless both are vouched for and name different blocks of one source at one height; then that source, and no other, is proven and blamed, and what was registered for it is forgotten |
| CatchainTheorems.SchedulerIsExact | catchain/catchain-receiver.cpp:236-247 | in every alive run `pending_deps_` of a waiting block is its number of undelivered parents, no block enters `to_run_` twice, the queue drains, and no stored healthy block with delivered parents is left behind |
| CatchainTheorems.DeliveryIsCausal | catchain/catchain-received-block.cpp:227-246 | the `new_block` callbacks list every delivered block once, after all of its parents |
| CatchainTheorems.DeliveredIsAcyclic | catchain/catchain-received-block.cpp:340-345 | delivered blocks form no cycle although ids do not cover dependencies |
| CatchainTheorems.IllnessIsClosedAndSafe | catchain/catchain-received-block.cpp:248-263 | between events every child of an ill block is ill, so no initialized or delivered block has an ill parent; delivered blocks never become ill, and ill blocks stay ill |
| CatchainTheorems.TimestampsAreFinal | catchain/catchain-receiver.cpp:42-47 | fork id and timestamp of a delivered block never change, so the copies given to the upper half stay right |
| CatchainTheorems.ForkStructure | catchain/catchain-received-block.cpp:109-129 | a fork id belongs to one source, (fork id, height) names at most one block, heights inside a fork are contiguous along prev, and a source with two forks is blamed |
| CatchainTheorems.DeliveredHeightsAreExact | catchain/catchain-receiver-source.cpp:113-131 | for every source: unblamed, every height up to its delivered height is registered to a block of its own and a known block of it is delivered exactly when its height is at most that; blamed, the delivered height is 0 |
| CatchainReceived.ReceivedHeightsAreExact | catchain/catchain-receiver-source.cpp:93-111 | for every unblamed source the received height counts the blocks it has sent without a gap: delivered height at most received height, blocks up to the one delivered, those up to the other waiting, and the next height unknown or only referenced |
| CatchainReceived.SynchronisationChecksHold | catchain/catchain-receiver.cpp:872-874 | for an unblamed source the block above the delivered height is registered and initialized whenever less is delivered than received, the highest registered block is not below the received height, and the block at the delivered height is delivered: the checks of `synchronize_with`, `has_unreceived` and `unsafe_start_up_check_completed` |
| CatchainReceived.AdvanceEnds | catchain/catchain-receiver-source.cpp:101-110 | the walk passes exactly the blocks up to the first height that is not registered or not far enough |
| CatchainRuns.StepKeeps | catchain/catchain-receiver.cpp:65-104 | every event that fails no CHECK keeps the whole receiver invariant and leaves the queue empty; delivery, illness, bodies and timestamps only grow |
| CatchainInvariant.SetIllKeeps | catchain/catchain-received-block.cpp:248-263 | spreading illness keeps the invariant, on any graph of reverse dependencies |
| CatchainDeliver.DeliverKeeps | catchain/catchain-received-block.cpp:227-287 | delivery and the wake-up of waiting blocks keep the invariant |
| CatchainDeliver.InitializeForkKeeps | catchain/catchain-received-block.cpp:109-129 | fork assignment keeps the invariant and its height check holds |
| CatchainCreate.InitializeKeeps | catchain/catchain-received-block.cpp:30-88 | filling in a received block, with stubs for unknown parents, keeps the invariant |
| CatchainReceiverClass.UpdateDeps | catchain/catchain-received-block.cpp:265-275 | the loop computes the pointwise maximum |
| CatchainReceiverClass.DepDelivered | catchain/catchain-received-block.cpp:277-287 | the loop over waiting blocks merges timestamps, decrements counters and lists the blocks that became ready, in order |
| CatchainReceiverClass.Link | catchain/catchain-received-block.cpp:61-82 | the loop over the parents merges delivered ones, counts the others and registers with them |
| CatchainReceiverClass.Receiver.SetIll | catchain/catchain-received-block.cpp:248-263 | the recursion over reverse dependencies terminates on any graph and equals the transition function |
| CatchainReceiverClass.Receiver.PreDeliver | catchain/catchain-received-block.cpp:131-225 | the scan over dependencies and forks and the payload cases equal the transition function; a block with a fork proof becomes ill unless the proof is about two different vouched-for blocks of one source at one height, and then that source is blamed and its fork proven |
| CatchainReceiverClass.Receiver.RunScheduler | catchain/catchain-receiver.cpp:236-243 | the loop terminates and equals the transition function; unless a CHECK failed the queue is empty and the invariant kept |
| CatchainReceiverClass.Receiver.ReceiveBlock | catchain/catchain-receiver.cpp:65-104 | equals the event's transition function and the state only grows; a block of an existing source is taken exactly if it is genuine and new, anything else leaves no trace; if no CHECK failed the invariant is kept, and if one did the block names no source or a block is stuck on a dependency on the root |
| CatchainReceiverClass.Receiver.GotForkProof | catchain/catchain-receiver.cpp:800-832 | two vouched-for references to different blocks of one source at one height blame and prove exactly that source; anything else changes nothing; the invariant is kept |
| CatchainReceiverClass.Receiver.BlockDelivered | catchain/catchain-receiver-source.cpp:113-131 | equals the transition function; the new height is the last of the registered delivered blocks that follow without a gap |
| CatchainReceiverClass.Receiver.BlockReceived | catchain/catchain-receiver-source.cpp:93-111 | equals the transition function; the new height is the last of the registered initialized or delivered blocks that follow without a gap |
| CatchainTheorems.SecondBlockBlames | catchain/catchain-receiver-source.cpp:146-166 | a reference to a new block blames an unblamed source exactly when another block of that source and height is known; the fork is proven then, and no other source changes |
| CatchainDifference.GetDifference | catchain/catchain-receiver.cpp:724-798 | wrong size, found fork (the first) or an update: each lagging source gets exactly its next min(gap, cap) blocks, all of which exist and are delivered; at most 100 plus the saturated sources are sent, and everything if at most 100 are missing |
| CatchainDifference.SearchCap | catchain/catchain-receiver.cpp:761-778 | the binary search finds the smallest cap in 1..101 whose capped total exceeds 100, or 101 |
| CatchainDifference.FairCapMeans | catchain/catchain-receiver.cpp:759-779 | the fair cap is unique, bounds the answer, and cuts nothing off when at most 100 blocks are missing |
| CatchainUpper.UpperDiscipline | catchain/catchain.cpp:29-86 | over every run with any number of blames the preprocess trace is a duplicate-free ancestor-closed linear extension of the DAG, the processed set is ancestor-closed, no block is handed to `process_blocks` twice, what is handed over was preprocessed, and the frontier holds preprocessed blocks of healthy foreign sources only, none of them handed over |
| CatchainUpper.SendPreprocessIs | catchain/catchain.cpp:51-69 | the replay appends exactly the missing part of the causal past, parents first |
| CatchainUpper.SetProcessedIs | catchain/catchain.cpp:71-86 | marking, which stops at marked blocks, marks exactly the causal past |
| CatchainUpper.FrontierIsExact | catchain/catchain.cpp:119-166 | in runs without blames `top_blocks_` is exactly the unprocessed foreign blocks without children |
| CatchainUpper.RebuiltFrontier | catchain/catchain.cpp:168-198 | the frontier rebuilt by `on_blame` is, for each healthy foreign source, the last block of it that arrived, unless that is processed or in the past of another healthy source's last block; it is an antichain with one block per source |
| CatchainUpper.LatestIsRemembered | catchain/catchain.cpp:155-156 | over every run with any blames the block remembered for a healthy source is the last one of it that arrived |
| CatchainUpper.FrontierSince | catchain/catchain.cpp:119-166 | whatever the frontier was after some events, without further blames it gains the new blocks of healthy foreign sources and loses exactly what later blocks build on (blocks of blamed sources count for `prev` only) and what is handed over |
| CatchainUpper.ProcessHandsOver | catchain/catchain.cpp:29-49 | in any run one call of `send_process` hands over distinct blocks of the frontier, as many as it holds or `max_deps` allows, and takes exactly them off it |
| CatchainUpper.ReplayedOnArrival | catchain/catchain.cpp:152-158 | in any run a new block of a healthy source extends the preprocess trace by exactly the missing part of its causal past, and one of a blamed source does not |
| CatchainBoth.HalvesAgree | catchain/catchain.cpp:119-144 | in every interleaving of the two halves, forks and blames included, until a CHECK of the receiver fails, the next callback finds the parents of its block, and the upper half's copies of the timestamps answer ancestry exactly |
| CatchainBlame.RepeatsIffProcessed | catchain/catchain.cpp:29-41 | over every run a frontier block lies in the causal past of an earlier choice exactly when it is marked processed already |
| CatchainCrash.BlamedRunDies | catchain/catchain-receiver.cpp:258-266 | a concrete run of the whole node from its start, with one proven fork: the second local block passes validation, its dependency is in the past of the first, the receiver makes it ill and the CHECK in `add_block_cont_3` fails |
| CatchainUpperClass.CatChain.SendPreprocess | catchain/catchain.cpp:51-69 | the recursion terminates and equals the replay function |
| CatchainUpperClass.CatChain.SetProcessed | catchain/catchain.cpp:71-86 | the recursion terminates and equals the marking function |
| CatchainUpperClass.CatChain.OnNewBlock | catchain/catchain.cpp:119-166 | equals the step function and keeps the invariant, by which the block is remembered as the last of its source |
| CatchainUpperClass.CatChain.OnBlame | catchain/catchain.cpp:168-198 | the quadratic scan equals the step function and keeps the invariant |
| CatchainUpperClass.CatChain.SendProcess | catchain/catchain.cpp:29-49 | whatever is drawn at random is a possible outcome of the step and keeps the invariant |
| CatchainVerdict.AcceptedIff | catchain/catchain-received-block.cpp:168-225 | with any forks and blames, a valid block whose parents are delivered is delivered if and only if no dependency is the root or in the causal past of `prev`, `prev` knows no other fork of a blamed dependency's source, and a fork proof in its payload is right; it ends the program if a dependency on the root comes before any other offender; otherwise it is ill |
| CatchainVerdict.MixesForkIff | catchain/catchain-received-block.cpp:192-204 | the scan over fork ids of a blamed source asks exactly whether a block of another fork of it is in the past of `prev` |
| CatchainVerdict.FreshAccepted | catchain/catchain-receiver.cpp:258-266 | such a block without a fork proof, when no block of its source and height is known, is the only one delivered and gets nobody blamed |
| CatchainOwnBlock.OwnAccepted | catchain/catchain-receiver.cpp:258-266 | while no source is blamed, a fresh valid local block without redundant dependencies is delivered at once and blames nobody |
| CatchainNode.NoSelfFork | catchain/catchain-receiver.cpp:258-361 | under every interleaving of `add_block`, fork proofs and continuations at most one local block is in flight, requests become blocks in order with none lost, and local blocks have heights 1, 2, 3, ... each extending the one before |
| CatchainFate.DiesIff | catchain/catchain-receiver.cpp:258-361 | after any run of the whole node, forks and blames included, the next event kills a live node exactly if it is listed: a failed CHECK of the receiver, a genuine block in its own name that it did not make, a request while it is blamed or with an unknown or own dependency, a local block that is not genuine, or one that is not delivered |
| CatchainFate.LivingNode | catchain/catchain-receiver.cpp:86-94 | as long as a node lives, under every interleaving, its receiver keeps its invariant with an empty queue, every local block made is delivered, and the receiver holds no other block in its name |
| CatchainPeace.OwnBlocksAreAcceptable | catchain/catchain.cpp:29-49 | in every peaceful run (`Calm`, see below) no CHECK of the node fails, the frontier is exact, every local block made is delivered, and the block in flight passes validation with no dependency in its predecessor's causal past |
| CatchainPeace.ChoicesAreSound | catchain/catchain.cpp:29-49 | in every peaceful run the dependencies chosen for successive local blocks number at most `max_deps`, come from distinct foreign sources and never lie in the past of an earlier choice |
| DhtKeys.BucketSide | dht/dht.cpp:165-178 | relative to our own key a bucket lies wholly nearer to the target or wholly farther, by one bit of the XOR |
| DhtKeys.CommonPrefix | dht/dht.cpp:341-357 | counting leading zeroes of the XOR finds the one bucket of a key, or that it is ours |
| DhtMember.BucketOrder | dht/dht.cpp:165-186 | the order in which the two sweeps visit buckets is the order of distance of their nodes |
| DhtMember.Member.GetNearestNodes | dht/dht.cpp:160-189 | the two sweeps return the k active nodes nearest to the target in increasing XOR distance |
| DhtMember.Member.SweepUp | dht/dht.cpp:165-177 | the upward sweep returns the nearest of the nodes nearer than we are, and only such nodes |
| DhtMember.Member.Distance | dht/dht.cpp:191-207 | the number of active nodes strictly nearer to the key than we are, capped, with 2k for a cap of 0 |
| DhtMember.Member.AddFullNode | dht/dht.cpp:341-357 | keeps every bucket's invariant and touches only the bucket of the key |
| DhtMember.Member.ReceivePing | dht/dht.cpp:359-369 | the pinged key decides the bucket; only that bucket changes, as `Bucket.ReceivePing` says, and every invariant is kept |
| DhtMember.Member.Check | dht/dht.cpp:399-405 | keeps every bucket's invariant |
| DhtLookup.NearestUnique | dht/dht.cpp:160-189 | sort-and-take has only one answer, so the lookup is determined |
| DhtLookup.NearestAppend | dht/dht-bucket.cpp:40-56 | appending a farther sorted bucket while there is room keeps the k nearest |
| DhtLookup.AppendNearest | dht/dht-bucket.cpp:40-56 | a bucket's active nodes are appended in order of distance while there is room |
| DhtLookup.ActiveCount | dht/dht-bucket.cpp:58-66 | counts the active nodes |
| DhtBucket.Bucket.AddFullNode | dht/dht-bucket.cpp:68-99 | a known node takes the newer description if it is signed and keeps everything else; a new signed one enters a free or stale backup slot, unready; nothing else changes, and keys stay unique and in the bucket's prefix |
| DhtBucket.Bucket.ReceivePing | dht/dht-bucket.cpp:101-119 | the CHECK in `update_value` holds exactly when the pinged node is unknown or the answer describes it; a good answer clears the missed pings, brings the newer description and starts readiness, a badly signed newer one changes nothing; a backup that is ready then is active exactly if an active slot was free; no key appears or is lost |
| DhtBucket.SilentNode | dht/dht-remote-node.cpp:37-75 | a node that has just answered stays ready through three unanswered pings and loses readiness with the fourth, and may be overwritten only more than a minute after that |
| DhtBucket.Bucket.Promote | dht/dht-bucket.cpp:137-146 | moves a ready backup to the first free active slot, or changes nothing; active nodes are ready |
| DhtBucket.Bucket.Demote | dht/dht-bucket.cpp:121-135 | empties the active slot and moves the node to a free backup slot, to a stale one if none is free, and nowhere if there is neither |
| DhtBucket.Bucket.CheckActive | dht/dht-bucket.cpp:148-163 | an active node stays, pinged if it was silent for a minute, unless three pings in a row went unanswered; every other active slot is empty; no node is lost while the backup has free slots; ready backups are untouched, and free slots are counted |
| DhtBucket.Bucket.Check | dht/dht-bucket.cpp:148-173 | no node appears, none is lost while the backup has free slots, ready backups are not lost, active nodes stay unless they lapse, and no ready backup waits while an active slot is free |
| DhtQuery.Query.AddNodes | dht/dht-query.cpp:66-95 | after any offers the list is the k nearest of everything ever offered, pending is a subset of it, and nobody asked is pending again |
| DhtQuery.NeverBack | dht/dht-query.cpp:79-92 | a node that was pushed out can never come back |
| DhtQuery.ReplaceTrack | dht/dht-query.cpp:79-92 | a nearer node pushes out the farthest one and the bookkeeping is kept |
| DhtQuery.Query.SendQueries | dht/dht-query.cpp:39-64 | the keys asked are the nearest pending ones in order of distance, each once, as many as the budget allows, and the others stay pending; when it finishes every listed node has been asked |
| DhtQuery.Query.OnResult | dht/dht-query.hpp:66-70 | an answer keeps all of this; `active_queries_ <= k_` holds in every run when k is 1 or a is at most k + 1 |
| DhtOverrun.Overrun | dht/dht-query.hpp:66-70 | for every other k and a (k up to 85) a query, given at most two answers of k nodes each (its trace says which), has more than k + 1 queries running, so that its next answer fails that check |
| AdnlStream.StreamDelivers | adnl/adnl-ext-connection.cpp:30-112 | however the bytes are split, the packets accepted are exactly those whose frames have fully arrived, in order, and both cipher positions agree |
| AdnlStream.ChunksDoNotMatter | adnl/adnl-ext-connection.cpp:59-133 | for any bytes, well-formed or not, feeding them in pieces ends in the same state as feeding them at once |
| AdnlStream.AbortsIff | adnl/adnl-ext-connection.cpp:162-174 | a packet aborts the program exactly when it has 32 to 63 bytes and a right hash, and closes the connection exactly when its hash is wrong |
| AdnlStream.StreamOutcome | adnl/adnl-ext-connection.cpp:59-174 | for any bytes: what is accepted is the data of the good frames the stream starts with, the connection closes exactly if what follows has a forbidden length or is complete with a wrong hash, and the program aborts exactly if it is a complete packet of 32 to 63 bytes with a right hash |
| AdnlStream.EmptyPacketAborts | adnl/adnl-ext-connection.cpp:162-174 | concrete bytes that abort: a frame of length 32 with the hash of nothing |
| AdnlStream.FrameSize | adnl/adnl-ext-connection.cpp:30-36 | the length on the wire is right exactly for data shorter than 2^32 - 32 bytes; above that the 32-bit sum wraps and the frame is sent with a wrong length |
| AdnlStream.KeystreamMatters | adnl/adnl-ext-connection.cpp:51-53 | a byte on the wire tells exactly which byte the keystream had at its position |
| AdnlStream.CiphersMirror | adnl/adnl-ext-connection.cpp:136-160 | client and server use the 96 shared bytes crosswise: in order, the key the client reads with, the one the server reads with, and their vectors |
| AdnlConnection.Connection.Send | adnl/adnl-ext-connection.cpp:30-57 | the output is the concatenation of all frames encrypted with one running position; bad sizes are dropped |
| AdnlConnection.Connection.Receive | adnl/adnl-ext-connection.cpp:59-112 | one call equals one step of the receiver |
| AdnlConnection.Connection.OnNet | adnl/adnl-ext-connection.cpp:114-134 | the loop terminates and equals feeding the chunk |
| AdnlPacking.Pack | adnl/adnl-peer.cpp:235-356 | on a direct connection the loop terminates, the packets carry the input in order with none lost or repeated, there are at most one more packets than messages, each fits 1440 bytes with every address list it may carry, none is closed while the next message fits, and each carries a handshake message and address lists exactly if they fit |
| AdnlParts.Split | adnl/adnl-peer.cpp:358-386 | the parts cover the message in steps of 1024 bytes and each fits the peer MTU |
| AdnlParts.SplitThenJoin | adnl/adnl-peer.cpp:557-610 | parts fed in order, with repeats of parts already received before completion, deliver exactly the original message once and reset the state |
| AdnlParts.DeliveredIsWhole | adnl/adnl-peer.cpp:557-610 | over any parts in any order, nested ones included, every message delivered is the parse of bytes whose hash and size are the ones their parts announced, glued from parts with consecutive offsets starting at 0 |
| AdnlParts.WrongHashStays | adnl/adnl-peer.cpp:592-598 | a full buffer with another hash than announced delivers nothing, whatever further parts of it arrive |
| AdnlParts.Interrupted | adnl/adnl-peer.cpp:567-576 | a later part of another message loses the one being put together: the rest of its parts deliver nothing |
| AdnlParts.Ignored | adnl/adnl-peer.cpp:558-566 | a part that announces too large a message or the zero hash changes nothing, also in the middle of another message |
| AdnlParts.Assembler.ProcessPart | adnl/adnl-peer.cpp:557-610 | over any parts writes stay in the buffer, the filled prefix grows by the accepted data, nested delivery terminates, and the result equals the joining function |
| AdnlParts.Assembler.Append | adnl/adnl-peer.cpp:586-590 | the copy lands behind the filled prefix and changes nothing before it |
| AdnlWindow.RefusedIff | adnl/adnl-received-mask.h:34-45 | a positive number is refused exactly when it was accepted before or is 64 or more behind the maximum |
| AdnlWindow.DeliverRepresents | adnl/adnl-received-mask.h:46-62 | accepting a number adds exactly that number to the set the mask stands for |
| AdnlWindow.ReceivedMask.PacketIsDelivered | adnl/adnl-received-mask.h:34-45 | the same for the object, numbers up to 0 being never refused |
| AdnlWindow.ReceivedMask.DeliverPacket | adnl/adnl-received-mask.h:46-62 | the object's set grows by the number |
| AdnlWindow.ProxyAcceptsOnce | adnl/adnl-proxy.cpp:160-166 | for all 64-bit numbers on which the signed sum is defined, the proxy never accepts a (start time, number) pair twice nor an older start time after a newer one, refuses exactly the old ones, and passes on the others with a positive number |
| AdnlWindow.ProxyAbortsIff | adnl/adnl-received-mask.h:46-50 | the CHECK on the number fails exactly for 0 and numbers from 2^63 up, unless the start time is old |
| AdnlWindow.PeerAcceptsOnce | adnl/adnl-peer.cpp:115-203 | over any two-way traffic, with resets by packet header, by `Reinit` message (adnl/adnl-peer.cpp:519) and by address list (adnl/adnl-peer.cpp:687), no number is accepted twice between resets; below the last 64 numbers one is refused exactly when it was accepted since the last reset or is 64 or more behind; and what is acknowledged was sent |
| AdnlWindow.ArrivalIff | adnl/adnl-peer.cpp:115-203 | what one packet does, for all dates and numbers: it is recorded and its acknowledgement taken exactly if neither end has restarted since, no date is from the future, its number is not spent and what it acknowledges was sent; a newer reinit date starts a new epoch on both sides; nothing else changes |
| AdnlWindow.PeerRefusesIff | adnl/adnl-peer.hpp:127-136 | the peer's test agrees with the set except for fresh numbers among the last 64 below 2^64 whose wrapped sum is not above the maximum, which it refuses |
| AdnlChannel.ChannelAgreement | adnl/adnl-peer.cpp:462-508 | in every run of two peers over a network that loses, repeats and reorders, if one end is ready both are set up on each other's keys and outgoing keys and ids equal the other's incoming ones; the end with the smaller id reads with the shared secret |
| AdnlChannel.AlwaysFinishes | adnl/adnl-peer.cpp:462-508 | after any such run, whatever was lost, four messages that arrive make both ends ready, provided the keys agree on a secret |
| AdnlChannel.BecomesReady | adnl/adnl-peer.cpp:493-508 | an end becomes ready exactly on a confirmation by the other end that names its own key and the key in use, or on a packet over the channel |
| AdnlChannel.KeyTaken | adnl/adnl-peer.cpp:462-491 | another key is taken exactly if the channel is not set up or the date is newer than that of the key in use |
| AdnlChannel.DeriveMirror | adnl/adnl-channel.cpp:46-58 | the two ends derive crossed keys, also when their ids are equal |
| AdnlChannel.Reverse | adnl/adnl-channel.cpp:41-44 | the loop reverses the shared secret |

## Left out

- Reading the database at start-up, `find_pending_deps`, synchronisation timers and neighbour choice: they only ask for blocks. Of `synchronize_with` the CHECK on the block it starts from is proved.
- The incarnation number: all messages are of the one incarnation of the chain.
- `debug_add_fork`, unsafe resync of own blocks and other operator paths.
- `blamed_heights_`: it never becomes non-empty (catchain/catchain-receiver-source.cpp:61-72), so the branch that reads it is not modelled.
- Object identity of receiver blocks and sources: fields of block objects are maps keyed by block, and the receiver's fields form one record, so aliasing between block objects is not captured.
- Remote DHT nodes are values inside their slots, because each slot owns its node.
- `missed_pings_` is unbounded; a wrap after 2^32 unanswered pings is not modelled.
- CatchainPeace.OwnBlocksAreAcceptable: is about peaceful runs, as is `CatchainPeace.ChoicesAreSound`: no event fails a CHECK or gets a source blamed; nobody else signs for this node, so its blocks come in and are referenced only once the receiver knows them (`Unforged`); and the application's payloads are neither empty nor fork proofs. With a blame it fails, as `CatchainCrash.BlamedRunDies` shows, and `CatchainVerdict.AcceptedIff` is the exact condition.
- CatchainConfluence.Confluence: the pool holds no block with a direct dependency on the root; `CatchainVerdict.AcceptedIff` says what becomes of such a block.
- CatchainNode.NoSelfFork: fork proofs found during a step arrive as an arbitrary list, judged before the step blames anybody as in the code; this covers more runs than the code has.
- DhtQuery.Query.OnResult: demands that the check on `active_queries_` holds, which is so in every run when k is 1 or a is at most k + 1; the configuration accepts other values, and `DhtOverrun.Overrun` shows the failing runs.
- The value half of the DHT (`store`, republishing, the sweep over values) and the find-value and store queries beyond their shared base class.
- AdnlStream.StreamDelivers: the pause flag `stop_read_`, the 256-byte handshake packet and errors returned by the packet handler are not modelled.
- AdnlPacking.Pack: direct connections only; in the other branch the loop does not advance past a direct-only message (adnl/adnl-peer.cpp:295-298).
- AdnlChannel.ChannelAgreement: runs without a reinit reset; both ends keep their channel key for the run, as a peer pair does until the program restarts.
- AdnlWindow.ProxyAcceptsOnce: leaves out the numbers from 2^63 - 64 to 2^63 - 1, on which a signed addition overflows.
- TL serialization, signatures, Ed25519 and AES themselves, sockets, HTTP, FEC and the command-line programs.
