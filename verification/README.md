# A model of a permissioned Ethereum node and its proofs

This project models the parts of the node whose correctness is decided by code and proves what they promise. Each
component has a model on values, with the theorems, and where the program works by changing fields or buffers in
place a class whose methods are proved equal to that model.

| component | value model and theorems | in place |
|---|---|---|
| PBFT consensus | `Pbft.dfy`, `PbftSystem.dfy`, `PbftVotes.dfy`, `PbftViews.dfy`, `PbftLaws.dfy`, `PbftSafety.dfy`, `PbftRuns.dfy`, `PbftEntries.dfy` | `PbftNode.dfy` |
| VM code preparation and first pass | `VmCode.dfy`, `VmOptimizer.dfy` | `VmPrepare.dfy` |
| VM gas and memory | `VmGas.dfy` | `VmMeter.dfy` |
| account state and its journal | `StateJournal.dfy` | `StateCache.dfy` |
| block verification pipeline | `BlockPipeline.dfy` | `BlockQueue.dfy` |
| canonical chain, number and bloom index | `ChainTree.dfy` | `ChainIndex.dfy` |
| replay window and packing | `ReplayWindow.dfy` | `NonceCheck.dfy` |
| sync chunks | | `ChunkMap.dfy` |
| channel framing | `BigEndian.dfy`, `Framing.dfy` | `Channel.dfy` |
| contract ABI | `Abi.dfy` | `ContractAbi.dfy` |
| transaction queue | | `TransactionQueue.dfy` |

Hashes are opaque numbers. PBFT is a state machine of n nodes of which at most (n-1)/3 do anything that their keys
allow; a run is any interleaving of messages, timeouts, imports and garbage collection. What a message shows of a
correct node is what its two signatures show: that the node signed the hash, and that it signed the other fields. The
hypothesis that signatures bind everything, kind included, is `Setup.bound` and is named where a theorem uses it.
Section 9.4.3 of the Ethereum Yellow Paper defines valid jump destinations; Castro and Liskov, "Practical Byzantine
Fault Tolerance", sections 4.2 and 4.4, is the protocol the consensus code follows.

Places where the code does not do what its surroundings suggest, each with a lemma:

- the instruction table gives the constant form of JUMPI one argument instead of two, so the first pass changes a
  program that starves it (`VmOptimizer.TableRowsBreakJumpI`); `VmOptimizer.StepsAgree` says exactly when;
- PBFT signs the block hash and the other fields separately, and the kind of a packet not at all: a sign vote serves as
  a commit vote, and two correct nodes can seal different blocks (`PbftRuns.SignVotesCountedAsCommits`);
  `PbftSafety.DisagreementNeedsUncast` says what every such run has in common, `PbftSafety.Agreement` what excludes it;
- a vote also serves as a view-change request, so a view may be entered on votes (`PbftEntries.VoteCountedAsRequest`);
  `PbftSafety.EveryViewEntryBacked` says what every entry rests on, `PbftSafety.CorrectNodesAsked` what it means when
  the counted requests were sent as requests; for four nodes both failures vanish exactly with bound signatures
  (`PbftRuns.AgreementIffBound`, `PbftEntries.EntriesAskedIffBound`);
- when a block below the head is reported, requests made below the later head stay in the tables and count
  (`PbftEntries.LoweredHeadCountsOldRequest`);
- the PBFT lock copies the raw proposal slot, which is filled before the leader check
  (`PbftSafety.LockFollowsRawSlot`, `PbftRuns.StrayRequestSealed`);
- the view the PBFT fast path picks depends on the iteration order of hash tables (`PbftViews.ScanDependsOnOrder`);
- a side-branch import deletes its keys from the nonce cache, so a transaction can be packed into two blocks
  (`ReplayWindow.SideImportRepeats`); `ReplayWindow.RunExactIff` says exactly when the cache stays exact;
- block limits may reach two blocks past the nonce window, not further (`ReplayWindow.NeverTwice`,
  `ReplayWindow.BoundIsTight`);
- the bloom scan's top loop runs one entry past `latest` unless that is a multiple of 256 (`ChainIndex.OverrunIff`);
- removing all numbers smaller than a number removes the number too (`ChunkMap.Chunks.RemoveAllSmallerThan`);
- string offsets are cut to 32 bits (`Abi.HeadPointsIff`, `Abi.FarStringLost`).

## Model

| member | source | states |
|---|---|---|
| `PbftNode.Engine.constructor` | cvpoc/PBFT.cpp:97-143 | an engine of an n-node group starts at height 0, view 0, with nothing stored, locked, voted or sent |
| `PbftNode.Engine.AddPrepareReq` | cvpoc/PBFT.cpp:1119-1145 | storing a proposal in the prepare slot drops the sign and commit votes of other views under its hash and nothing else |
| `PbftNode.EraseOtherViews` | cvpoc/PBFT.cpp:1119-1145 | keeps exactly the votes cast in one view |
| `PbftNode.Engine.BroadcastSignReq` | cvpoc/PBFT.cpp:522-539 | sends one signature on the block hash and files the same vote locally |
| `PbftNode.Engine.BroadcastCommitReq` | cvpoc/PBFT.cpp:541-558 | sends one commit signature and files the same vote locally |
| `PbftNode.Engine.CheckAndSaveBlock` | cvpoc/PBFT.cpp:1021-1056 | a block is sealed exactly when it has a sign quorum and precisely a commit quorum, its view is the current one and it is above the head |
| `PbftNode.Engine.CheckAndCommitBlock` | cvpoc/PBFT.cpp:1058-1082 | at exactly the quorum of sign votes, and in the proposal's own view, the lock takes the raw slot, a commit vote is sent and sealing is tried |
| `PbftNode.Engine.AcceptExecuted` | cvpoc/PBFT.cpp:806-829 | the executed proposal enters the prepare slot, is signed, and committing is tried |
| `PbftNode.Engine.HandlePrepareMsg` | cvpoc/PBFT.cpp:715-833 | every outcome of the prepare handler, with exactly the raw slot changed where it is stored before the leader check; something is sent if and only if the proposal is new, of this height and view, from the node whose turn it is, verifying, allowed by the lock and valid |
| `PbftNode.Engine.HandleSignMsg` | cvpoc/PBFT.cpp:835-879 | which sign votes are filed, which are future votes kept for later, and which are dropped |
| `PbftNode.Engine.HandleCommitMsg` | cvpoc/PBFT.cpp:881-925 | the same for commit votes, followed by the seal check |
| `PbftNode.Engine.HandleFutureBlock` | cvpoc/PBFT.cpp:456-464 | a waiting proposal is handled once its height and view are current, or stays |
| `PbftNode.Engine.HandleViewChangeMsg` | cvpoc/PBFT.cpp:927-1019 | a view-change request is filed or refused; one for the wanted view may complete the change, any other sets off the scan of the fast path |
| `PbftNode.Engine.StoreViewChangeReq` | cvpoc/PBFT.cpp:935-966 | a request replaces nothing but the sender's earlier one for that view |
| `PbftNode.Engine.FastStart` | cvpoc/PBFT.cpp:968-1015 | the scan over stored requests, in the order of the tables, and the new wanted view, one below the minimum it finds |
| `PbftNode.Engine.ChangeViewIfAgreed` | cvpoc/PBFT.cpp:1084-1112 | the view is entered only with requests from quorum-1 others |
| `PbftNode.Engine.ViewTimedOut` | cvpoc/PBFT.cpp:405-449 | a timeout asks for the next view, dropping requests for it that are older than the head |
| `PbftNode.Engine.ReportBlock` | cvpoc/PBFT.cpp:260-288 | an imported block resets the view, opens the next height and forgets the block's votes |
| `PbftNode.Engine.DelViewChangeReqs` | cvpoc/PBFT.cpp:1177-1195 | only requests made on the present head survive a new height |
| `PbftNode.Engine.DelCacheOf` | cvpoc/PBFT.cpp:1155-1175 | forgets exactly the votes and proposal of one block |
| `PbftNode.Engine.DropOldVotes` | cvpoc/PBFT.cpp:1197-1238 | garbage collection drops exactly the votes far below the head |
| `PbftNode.Engine.ShouldSealBlock` | cvpoc/PBFT.cpp:191-227 | answers yes if and only if no leader has failed, the node's index is view plus head modulo n and it has no lock at this height; with a lock it re-proposes the locked block |
| `PbftNode.Engine.ProposeBlock` | cvpoc/PBFT.cpp:150-189 | a leader's own proposal goes out and through its own prepare handler |
| `PbftLaws.ProposalSignedIff` | cvpoc/PBFT.cpp:715-833 | a proposal is signed, and the sign vote sent first, if and only if it is new, of the height and view in progress, verifies, is from the node whose index is view plus head modulo n while no leader has failed, agrees with the lock and passes the chain checks; otherwise nothing is sent |
| `PbftLaws.ProposalKept` | cvpoc/PBFT.cpp:731-745 | a proposal of the height and view in progress takes the raw slot, a later one the future slot |
| `PbftLaws.WaitingSignedIff` | cvpoc/PBFT.cpp:456-464 | a waiting proposal leaves its slot when its height and view have come, and is signed then if and only if it would be on arrival |
| `PbftLaws.SealCheckMeans` | cvpoc/PBFT.cpp:191-227 | only the node whose turn it is may seal, and only without a lock at this height; with one it sends the locked proposal out again unless a proposal of this height is there, and signs it if it could be signed on arrival |
| `PbftLaws.ProposeMeans` | cvpoc/PBFT.cpp:150-189 | the leader sends its proposal and then its sign vote for the executed block |
| `PbftLaws.LeaderMoves` | cvpoc/PBFT.cpp:252-258 | in one view no node is leader at two consecutive heads, neither for signing its proposals nor for sealing, when there are two nodes or more |
| `PbftLaws.EachLeadsOnce` | cvpoc/PBFT.cpp:252-258 | in one view each node leads at exactly one of any n consecutive heads |
| `PbftLaws.SignVoteIff` | cvpoc/PBFT.cpp:835-879 | a sign vote is filed if and only if it is new, another node's, verifies, and is for the proposal in hand in its view or may still matter; the commit vote goes out and the lock is taken exactly when that makes the quorum in the current view, and the block is sealed exactly when its commit votes then are a quorum |
| `PbftLaws.CommitVoteIff` | cvpoc/PBFT.cpp:881-925 | the same for commit votes, with the seal exactly when the quorum is reached for a block above the head that has its sign votes |
| `PbftLaws.PrepareKeepsVotes` | cvpoc/PBFT.cpp:1119-1145 | taking a proposal in hand drops exactly the votes of other views for it |
| `PbftLaws.GarbageMeans` | cvpoc/PBFT.cpp:1197-1238 | garbage collection keeps exactly the votes made at or above the head |
| `PbftLaws.ReportMeans` | cvpoc/PBFT.cpp:260-288 | a reported block becomes the head; if it ends the height in progress the next begins in view 0 with exactly the requests made on it or above it |
| `PbftLaws.ReportForgets` | cvpoc/PBFT.cpp:1155-1175 | exactly the votes for the reported block, and it as proposal in hand, are forgotten |
| `PbftLaws.ChangeMeans` | cvpoc/PBFT.cpp:1084-1112 | the wanted view is entered if and only if requests of quorum-1 others are stored, and nothing of the old view stays but the lock and the requests for later views |
| `PbftLaws.TimeoutMeans` | cvpoc/PBFT.cpp:405-449 | a timeout wants and asks for the next view, and enters it if and only if enough requests for it were made on the head or above it |
| `PbftLaws.RequestStoredIff` | cvpoc/PBFT.cpp:927-1019 | a request is stored if and only if it is another node's first for a later view, verifies, and is above the head or on it or on a known block at its height; it opens the wanted view exactly when it completes the count |
| `PbftLaws.LaggardAnswered` | cvpoc/PBFT.cpp:940-946 | exactly a new request two or more views behind the wanted one is answered with the own request |
| `PbftLaws.FastActsIff` | cvpoc/PBFT.cpp:984-1015 | for every order of the tables the fast path acts if and only if more than f nodes have eligible requests and the lock does not hold it back, and then wants the view below the least first-met one |
| `PbftLaws.ScanHeights` | cvpoc/PBFT.cpp:984-1001 | the scan's least height is that of the requests which raised their node's highest view |
| `PbftSafety.Agreement` | cvpoc/PBFT.cpp:1021-1082 | in every run, whatever views they seal in, two correct nodes never seal different blocks at one height, as long as full quorums count votes of correct nodes only for what they were cast for |
| `PbftSafety.DisagreementNeedsUncast` | cvpoc/PBFT.cpp:1021-1082 | for the code as it is: if two correct nodes sealed different blocks at one height, some correct node was counted as committing the one and as signing the other, and every such node was counted for a vote it did not cast |
| `PbftSafety.BoundQuorumsCast` | cvpoc/Common.h:90-114 | if signatures bound kind, hash and fields together, no full quorum in any run would count a vote for something else |
| `PbftSafety.BoundAgreement` | cvpoc/PBFT.cpp:1021-1082 | under that hypothesis agreement holds in every run |
| `PbftSafety.VoterBinds` | cvpoc/PBFT.cpp:1058-1082 | a node that cast a commit vote for one block of a height and a sign vote for another, no earlier, makes them the same |
| `PbftSafety.QuorumsAt` | cvpoc/PBFT.cpp:1021-1056 | when a block was sealed, quorums of different nodes were counted for it in both tables |
| `PbftRuns.SignVotesCountedAsCommits` | cvpoc/PBFT.cpp:881-925 | for any four nodes without bound signatures, nobody or one of them faulty, a run with one proposal per height and view in which sign votes are also taken as commit votes and two correct nodes seal the blocks of views 0 and 1 at one height |
| `PbftRuns.AgreementIffBound` | cvpoc/Common.h:90-114 | four nodes whose leaders of views 0 and 1 propose different blocks agree in every run if and only if signatures bind kind, hash and fields together |
| `PbftEntries.VoteCountedAsRequest` | cvpoc/PBFT.cpp:927-1105 | for any four nodes without bound signatures a run in which a node enters view 1 counting, among the requests for it, the sign vote of a correct node that has never sent a request for any view |
| `PbftEntries.EntriesAskedIffBound` | cvpoc/Common.h:90-114 | four nodes count at every view entry of every run only requests that correct nodes sent as requests, if and only if signatures bind kind, hash and fields together |
| `PbftEntries.LoweredHeadCountsOldRequest` | cvpoc/PBFT.cpp:260-288 | a run, bound signatures or not, in which a block below the head is reported and then the head again, and a view is entered on a correct node's request made below the head |
| `PbftRuns.StrayRequestSealed` | cvpoc/PBFT.cpp:742-747 | a run in which a rejected second request for a view becomes the lock of two nodes, and two correct nodes seal different blocks even with bound signatures |
| `PbftSafety.RunInv` | cvpoc/PBFT.cpp:326-383 | in every reachable state of every run slots, votes and locks are consistent, and what a node holds of a correct node is vouched for by what that node signed |
| `PbftSystem.ApplyKeepsCore` | cvpoc/PBFT.cpp:715-1112 | no event breaks what a node's own fields promise: slots hold the proposal of their view, the lock is a proposal with a full sign quorum |
| `PbftVotes.ApplyAccounted` | cvpoc/PBFT.cpp:715-1112 | every event keeps that each vote and request a node holds verifies, stands in its place, and is vouched for by its signer: sent as it is if signatures bind everything, otherwise its hash signed somewhere and its fields signed somewhere |
| `PbftVotes.CommitQuorumSeen` | cvpoc/PBFT.cpp:1026-1034 | the commit votes counted for a block come from that many different nodes; a correct one cast that vote if signatures bind everything, otherwise it signed the hash and something in that view |
| `PbftVotes.SignQuorumSeen` | cvpoc/PBFT.cpp:1026-1060 | the same for sign votes |
| `PbftVotes.DistinctVoters` | cvpoc/PBFT.cpp:1147-1153 | votes filed under one hash come from as many nodes as there are votes |
| `PbftSafety.CorrectInBoth` | cvpoc/PBFT.h:44 | two quorums of n-(n-1)/3 share a correct node |
| `PbftViews.ApplyKeepsViewOrder` | cvpoc/PBFT.cpp:260-1112 | every event leaves (height, view) or moves it forward, keeps view <= wanted view and stored requests above the view |
| `PbftSafety.ViewsAdvance` | cvpoc/PBFT.cpp:260-275 | over every run a correct node's (height, view) never decreases |
| `PbftSafety.ViewsOrdered` | cvpoc/PBFT.cpp:927-1015 | in every reachable state view <= wanted view and stored requests name later views |
| `PbftViews.ViewEntryBacked` | cvpoc/PBFT.cpp:1084-1105 | entering another view of a height takes stored requests for that view from quorum-1 different other nodes, each verifying under its sender's key; a correct sender signed the hash, and the height and view together, of just that request, and sent it as a request if signatures bind everything |
| `PbftViews.ApplyKeepsHeadOrder` | cvpoc/PBFT.cpp:945-948 | unless a block below the head is reported, every event keeps the height in progress at most one above the head and all stored requests at or above the head |
| `PbftSafety.EveryViewEntryBacked` | cvpoc/PBFT.cpp:1084-1105 | the same at every view entry of every run; and as long as no block below the node's head was reported to it, every counted request was made at or above the head |
| `PbftSafety.CorrectNodesAsked` | cvpoc/PBFT.cpp:405-449 | if the counted requests of correct nodes were sent as requests, at least quorum-1 less the faulty nodes, and with more than one node at least one, are other correct nodes that asked for this very view at or above the head |
| `PbftViews.ScanFinds` | cvpoc/PBFT.cpp:984-1001 | for every order of the tables the scan gathers each node's highest eligible view, and as minimum the least view in which a node is first met |
| `PbftViews.FastPicks` | cvpoc/PBFT.cpp:1003-1014 | when the fast path acts, more than f nodes have eligible requests and the wanted view becomes one below that minimum |
| `PbftViews.ScanDependsOnOrder` | cvpoc/PBFT.cpp:984-1001 | the minimum depends on the order: with requests of one node for views 5 and 7 it is whichever comes first |
| `PbftSafety.LockFollowsRawSlot` | cvpoc/PBFT.cpp:742-747 | a rejected second request for a view fills the raw slot, and the lock then names it while the commit vote names the accepted block |
| `VmCode.StartsIffOutsideData` | cvvm/VMOpt.cpp:57-84 | an instruction starts at a byte if and only if the byte is not push data |
| `VmCode.ValidDestsMeaning` | cvvm/VMCalls.cpp:61-76 | the valid destinations of section 9.4.3 of the Ethereum Yellow Paper are exactly the JUMPDEST bytes outside push data |
| `VmCode.StartsBound` | cvvm/VMOpt.cpp:37-47 | control never passes 32 bytes behind the code, and a trailing PUSH32 gets there, so 33 padding bytes are enough and needed |
| `VmCode.PassRewrites` | cvvm/VMOpt.cpp:165-231 | what the whole pass makes of every instruction, exactly: a jump becomes its constant form if and only if it stands right behind a push of a valid destination, a push of several bytes goes to the pool if and only if its slot ends up with its value, all else stays, and from the first instruction start behind the user code on no byte changes |
| `VmCode.TargetBefore` | cvvm/VMOpt.cpp:202-229 | only the push right before a jump decides whether its target is constant |
| `VmCode.PassStep` | cvvm/VMOpt.cpp:168-231 | the same for one push and the jump behind it |
| `VmPrepare.ScrubMeaning` | cvvm/VMOpt.cpp:57-84 | the scrubbing loop marks exactly the synthetic opcodes that are instructions, and no push data |
| `VmPrepare.DestsMeaning` | cvvm/VMOpt.cpp:57-84 | the table lists, strictly increasing, exactly the valid destinations |
| `VmPrepare.ScrubPrepares` | cvvm/VMOpt.cpp:37-84 | padded and scrubbed code satisfies everything the first pass relies on |
| `VmPrepare.Interpreter.CopyCode` | cvvm/VMOpt.cpp:37-47 | the working copy is the code followed by zeros |
| `VmPrepare.Interpreter.BuildJumpTable` | cvvm/VMOpt.cpp:57-84 | the loop scrubs the code in place and fills the table with the valid destinations |
| `VmPrepare.Interpreter.VerifyJumpDest` | cvvm/VMCalls.cpp:61-76 | accepts a destination if and only if it is in the table; the binary search refuses everything else |
| `VmPrepare.Interpreter.Decode` | cvvm/VMOpt.cpp:173-183 | the constant of a push and the hash of all its bytes but the first |
| `VmPrepare.Interpreter.PoolConstant` | cvvm/VMOpt.cpp:184-200 | a free or equal pool slot takes the constant and the push becomes a pool reference; a clash leaves the code |
| `VmPrepare.Interpreter.ReplaceConstJump` | cvvm/VMOpt.cpp:202-229 | a JUMP or JUMPI right behind a push to a valid destination becomes the constant form, and nothing else changes |
| `VmPrepare.Interpreter.FirstPass` | cvvm/VMOpt.cpp:165-231 | the in-place pass computes the rewriting that the meaning-preservation theorem is about |
| `VmPrepare.Interpreter.Optimize` | cvvm/VMOpt.cpp:49-236 | the prepared program and pool are the rewriting of the prepared code, and the table is ascending and lists exactly the valid destinations of the user code |
| `VmPrepare.Interpreter.CheckJump` | cvvm/VMCalls.cpp:61-76 | in freshly prepared code a jump is accepted if and only if its destination is a valid destination of the user code in the sense of section 9.4.3 |
| `VmOptimizer.PassPreservesMeaning` | cvvm/VMOpt.cpp:110-236 | with equal metrics for a jump and its constant form, k steps of the rewritten and of the original code pass through the same states for every program, start state and k |
| `VmOptimizer.PushMeans` | cvvm/VM.cpp:762-808 | a push leaves its bytes as a big-endian number on the stack and goes on behind them |
| `VmOptimizer.JumpMeans` | cvvm/VM.cpp:810-816 | a jump goes to the destination on top if it is valid and fails otherwise |
| `VmOptimizer.JumpIMeans` | cvvm/VM.cpp:818-827 | a conditional jump goes on behind itself on zero and otherwise does what a jump does |
| `VmOptimizer.Lockstep` | cvvm/VMOpt.cpp:110-236 | without that assumption the runs agree as long as no rewritten JUMPI finds a single stack item |
| `VmOptimizer.StepsAgree` | cvvm/VMOpt.cpp:202-229 | on a reachable state the two programs take the same step if and only if it is not such a starved JUMPI |
| `VmOptimizer.OptimizedRuns` | cvvm/VM.cpp:762-827 | the rewritten program always has a next fetch inside its code until it is starved |
| `VmOptimizer.RunPlain` | cvvm/VM.cpp:762-827 | after any number of steps of the original code control is at an instruction start inside the padded code, the stack within 1024, and a jump behind a push finds the pushed constant on top |
| `VmOptimizer.ControlStaysInside` | cvvm/VM.cpp:762-827 | in every run the program counter is at an instruction start and at most the code size plus 32 |
| `VmOptimizer.SameRowsNeverStarve` | libcvvmcore/Instruction.cpp:221-307 | equal argument counts for JUMPI and its constant form rule starvation out |
| `VmOptimizer.TableRowsBreakJumpI` | libcvvmcore/Instruction.cpp:305-307 | with the table's count of one argument for the constant JUMPI a concrete program behaves differently after the pass |
| `VmGas.MemCostMono` | cvvm/VM.cpp:72-76 | memory never gets cheaper as it grows |
| `VmGas.MemCostMeans` | cvvm/VM.cpp:72-76 | n words cost memoryGas each and a surcharge of n squared over quadCoeffDiv, rounded down |
| `VmGas.WordsMean` | cvvm/VM.cpp:94-100 | memory grows to the least whole number of words that is enough, and never shrinks |
| `VmGas.CopyCostMeans` | cvvm/VM.cpp:85-92 | copying is paid per started word |
| `VmGas.Charge` | cvvm/VM.cpp:78-100 | a charge that is accepted takes exactly instruction, growth and copy cost, and the growth part is the difference of the two memory prices |
| `VmGas.Exec` | libcv/Executive.cpp:397-519 | any program with any nesting ends, and gas is conserved exactly: what is left and what went to instructions, memory growth, copying, precompiled contracts, code deposits, exceptions and cut-off high bits, in this frame and all nested ones, is the gas supplied and the stipends granted; nothing burns without an exception, gas left plus instructions executed never exceeds the gas supplied, and the memory charges add up to the price of the final size |
| `VmGas.Run` | cvvm/VMCalls.cpp:83-192 | the same from any point of a run, with every nested call and creation inside it |
| `VmGas.StepOf` | cvvm/VMCalls.cpp:83-192 | the same for one instruction and all it starts |
| `VmGas.PlainGoes` | cvvm/VM.cpp:78-120 | an instruction that can be paid goes on with exactly its price gone, another faults |
| `VmGas.HaltEnds` | cvvm/VM.cpp:78-120 | a halt that can be paid ends with exactly its price gone, another faults |
| `VmGas.CallSetup` | cvvm/VMCalls.cpp:124-192 | a call set up has paid base price, surcharges and memory growth and sets aside what is asked for, or under the later rule at most all but a 64th |
| `VmGas.PayableSucceeds` | cvvm/VMCalls.cpp:124-165 | a call whose price and gas can be paid and counted is set up |
| `VmGas.AfterSetup` | cvvm/VMCalls.cpp:110-122 | after a call the caller has what it did not take along and all that comes back; a call refused or to an account without code costs nothing more than its setup and brings the stipend |
| `VmGas.AfterPay` | cvvm/VMCalls.cpp:83-108 | the same for a creation |
| `VmGas.A64thStays` | cvvm/VMCalls.cpp:148-155 | under the later rule a caller keeps at least a 64th of what it had left, whatever the callee does |
| `VmGas.MadeIfPossible` | cvvm/VMCalls.cpp:96-122 | a call or creation that can be paid, below depth 1024, is made one level deeper; otherwise all its gas comes back |
| `VmGas.CalleeLeaves` | libcv/Executive.cpp:260-322 | a precompiled contract takes its price or everything, an account without code nothing, a contract what its execution uses |
| `VmGas.DepositPaid` | libcv/Executive.cpp:414-455 | what is left after a creation in each outcome of the code deposit |
| `VmGas.EnterCall` | libcv/Executive.cpp:260-322 | a callee never hands back more than it was given, and all of it is accounted for |
| `VmGas.EnterCreate` | libcv/Executive.cpp:324-519 | nor does a creation, whichever way the code deposit is decided |
| `VmGas.RefusedCallsCost` | cvvm/VMCalls.cpp:124-192 | a refused call costs gas under a schedule if and only if calling is not free and the stipend is below call plus value-transfer charge |
| `VmMeter.Meter.UpdateGas` | cvvm/VM.cpp:85-92 | adds exactly growth and copy cost and says whether the gas suffices |
| `VmMeter.Meter.UpdateMem` | cvvm/VM.cpp:94-100 | memory is sized to whole words and never shrinks |
| `VmMeter.Meter.Pay` | cvvm/VM.cpp:78-120 | the metering of one instruction is the charge of the gas model |
| `VmMeter.Meter.CallSetup` | cvvm/VMCalls.cpp:124-192 | what the caller pays and what the callee may spend, stipend included |
| `VmMeter.Meter.FinishCall` | cvvm/VMCalls.cpp:110-122 | the meter after a call is that of the frame the gas model goes on with |
| `VmMeter.Meter.CaseCall` | cvvm/VMCalls.cpp:110-122 | setup and call together: the meter fails where the model fails and agrees with its next frame otherwise |
| `StateJournal.RollbackRestores` | libcv/State.cpp:472-505 | after any sequence of balance, nonce, storage, creation and first-code changes, loads, evictions and nested rollbacks, rolling back gives the world at the savepoint, every field of every address |
| `StateJournal.ApplyUndone` | libcv/State.cpp:254-436 | undoing what one operation logged gives back the view before it |
| `StateJournal.RunUndoes` | libcv/State.cpp:467-505 | the log above a savepoint always undoes the run since then |
| `StateJournal.UndoSplit` | libcv/State.cpp:472-505 | undoing two stretches of log is undoing the later one and then the earlier |
| `StateJournal.LoadKeeps` | libcv/State.cpp:145-175 | loading an account changes nothing that can be seen |
| `StateJournal.PutKeeps` | libcv/State.cpp:262-436 | a logged write keeps clean entries equal to the trie and the log able to undo it |
| `StateJournal.PopKeeps` | libcv/State.cpp:472-505 | so does one popped log entry |
| `StateJournal.PopView` | libcv/State.cpp:472-505 | popping on the cache is undoing on the view |
| `StateJournal.HistoryGrows` | libcv/State.cpp:273-320 | a create or touch entry can only be the first the log holds for its account |
| `StateCache.State.constructor` | libcv/State.cpp:31-38 | a new state shows the trie: exactly its accounts, with balance, nonce, code and slots as recorded |
| `StateCache.State.ClearCacheIfTooLarge` | libcv/State.cpp:177-193 | evicting any clean entries changes nothing that can be seen |
| `StateCache.State.Load` | libcv/State.cpp:145-175 | finds an account if and only if it is visible, whatever is cached |
| `StateCache.State.CreateAccount` | libcv/State.cpp:316-322 | the account becomes visible as given and the creation is logged |
| `StateCache.State.CreateContract` | libcv/State.cpp:311-314 | an account with the start nonce, no balance, no code and the slots of an empty trie appears, and nothing else changes |
| `StateCache.State.IncNonce` | libcv/State.cpp:262-271 | the nonce is one more, modulo 2^256, or a new account with one more than the start nonce, no balance and no code appears; nothing else changes |
| `StateCache.State.AddBalance` | libcv/State.cpp:273-286 | the balance is the sum modulo 2^256, or a new account with the amount appears; nothing else changes, and a touch is logged for an empty unchanged account |
| `StateCache.State.SubBalance` | libcv/State.cpp:288-299 | refuses to go below zero, otherwise the balance is less by the amount and nothing else changes |
| `StateCache.State.GetBalance` | libcv/State.cpp:254-260 | reads the visible balance |
| `StateCache.State.GetStorage` | libcv/State.cpp:338-354 | reads the visible slot and remembers a trie read without making the entry dirty |
| `StateCache.State.SetStorage` | libcv/State.cpp:356-360 | the slot then holds the value; every other slot, field and account looks as before; the previous value is logged |
| `StateCache.State.ReadBack` | libcv/State.cpp:338-360 | a read after a write gets the value written, a read of another slot what was there |
| `StateCache.State.GetCode` | libcv/State.cpp:415-430 | reads the visible code |
| `StateCache.State.SetNewCode` | libcv/State.cpp:432-436 | a code-less dirty account has its code and code hash, and nothing else changes |
| `StateCache.State.PopLast` | libcv/State.cpp:476-503 | undoes exactly the last change on the cache |
| `StateCache.State.Rollback` | libcv/State.cpp:472-505 | the popping loop is the rollback that the restoration theorem is about |
| `BlockPipeline.PromoteExact` | libcv/BlockQueue.cpp:526-548 | the worklist moves a block if and only if it descends from the root, on any parent graph, cyclic ones included, and ends |
| `BlockPipeline.PromoteMeaning` | libcv/BlockQueue.cpp:526-548 | the moved blocks come parents first, and what stays has no parent among them |
| `BlockPipeline.StepKeeps` | libcv/BlockQueue.cpp:66-154 | every event keeps the ready set equal to the hashes in the three queues, the unknown set equal to the waiting ones, and every queued block behind its parent |
| `BlockPipeline.LoopsIdleIff` | libcv/BlockQueue.cpp:319-367 | when an import marks blocks bad, the loops over the three queues find nothing exactly when no queued block was tainted before, as long as no waiting block is in the chain |
| `BlockPipeline.InterleavingsKeep` | libcv/BlockQueue.cpp:66-154 | so does every interleaving of imports, verifiers, drains and completed drains |
| `BlockPipeline.BatchInOrder` | libcv/BlockQueue.cpp:487-512 | after any history a drained batch gives each block after its parent, which is in the chain or earlier in the batch |
| `BlockPipeline.DeliverSorts` | libcv/BlockQueue.cpp:111-154 | a delivered front block and the finished ones behind it leave in order up to the first unfinished one: out as bad exactly if the parent was bad or has just gone as bad, and otherwise, in their order, on to import |
| `BlockPipeline.RejectSorts` | libcv/BlockQueue.cpp:96-109 | a rejected block is bad, and the finished ones then in front leave in the same way |
| `BlockPipeline.BadInRun` | libcv/BlockQueue.cpp:66-154 | over every run a hash becomes bad only when the block with it is rejected or has a bad parent |
| `BlockPipeline.NothingLost` | libcv/BlockQueue.cpp:487-512 | in every interleaving a verified block is still waiting or has been handed out by a drain |
| `BlockPipeline.GoodFrontDelivered` | libcv/BlockQueue.cpp:111-138 | a delivered front block whose parent is not bad is never lost |
| `BlockPipeline.DrainsReach` | libcv/BlockQueue.cpp:487-512 | drains that are imported and completed one after the other hand out every verified block |
| `BlockQueue.BlockQueue.RemoveByKeyEqual` | libcv/BlockQueue.h:171-199 | splits off exactly the children of a hash, in their order |
| `BlockQueue.BlockQueue.NoteReadyBlock` | libcv/BlockQueue.cpp:526-548 | the in-place loop makes the promotion above |
| `BlockQueue.BlockQueue.CollectBad` | libcv/BlockQueue.cpp:369-383 | the same closure leaves the unknown set and becomes bad |
| `BlockQueue.BlockQueue.ImportBlock` | libcv/BlockQueue.cpp:227-317 | the queue import leaves and its answer: AlreadyKnown and AlreadyInChain for what is recorded or in the chain, and BadChain, UnknownParent and Success exactly when the block became known bad, waiting or ready |
| `BlockQueue.BlockQueue.TakeWork` | libcv/BlockQueue.cpp:66-88 | a verifier takes the oldest block and leaves a placeholder |
| `BlockQueue.BlockQueue.DeliverWork` | libcv/BlockQueue.cpp:111-138 | further back the block only takes its placeholder's place; at the front it is appended to the verified ones if its parent is not known bad and is bad otherwise, and the finished ones behind it follow up to the first unfinished one, each bad exactly if its parent is or has just become bad |
| `BlockQueue.BlockQueue.RejectWork` | libcv/BlockQueue.cpp:96-109 | the block leaves the queue and is remembered as bad, and the finished ones now in front leave as above |
| `BlockQueue.BlockQueue.DrainVerifiedBlocks` | libcv/BlockQueue.cpp:141-154 | passes on the longest finished front, in order, and sorts out as bad exactly the blocks whose parent is or has just become bad |
| `BlockQueue.BlockQueue.DrainBatch` | libcv/BlockQueue.cpp:487-512 | hands out the front of the verified blocks, as many as asked for or there are, and none while others are being imported |
| `BlockQueue.BlockQueue.FinishDrain` | libcv/BlockQueue.cpp:385-400 | drained blocks leave the draining set |
| `ChainTree.CommonIsDeepest` | libcv/BlockChain.cpp:1444-1493 | the common block is the deepest: a block is an ancestor of both ends if and only if it is one of its ancestors |
| `ChainTree.ChainStays` | libcv/BlockChain.cpp:1111-1191 | importing a block changes no existing chain |
| `ChainTree.OrKeepsSum` | libcv/BlockChain.cpp:1143-1160 | or-ing one bloom into both levels keeps the upper level the union of its sixteen children |
| `ChainIndex.BlockChain.constructor` | libcv/BlockChain.cpp:409-420 | a chain of genesis alone |
| `ChainIndex.BlockChain.TreeRoute` | libcv/BlockChain.cpp:1444-1493 | ends with the deepest common ancestor and exactly the path down to it and up to the other end |
| `ChainIndex.BlockChain.ClearBlockBlooms` | libcv/BlockChain.cpp:1320-1360 | the cleared range is empty and every upper bloom is again the union of its children |
| `ChainIndex.BlockChain.Revert` | libcv/BlockChain.cpp:1605-1617 | the blooms are those of the canonical chain cut before the first invalid block |
| `ChainIndex.BlockChain.Import` | libcv/BlockChain.cpp:860-1191 | after every import the index names the head's ancestor at every height, lower blooms are those of the canonical blocks and nothing above the head, upper ones their unions; the heavier chain wins, ties by gas only; a stored block is refused only up to the head's number, so blocks above a rewound head come in again with the same guarantees |
| `ChainIndex.BlockChain.Adopt` | libcv/BlockChain.cpp:1116-1191 | the same for the branch that becomes canonical, with its dead and live blocks |
| `ChainIndex.BlockChain.Sides` | libcv/BlockChain.cpp:1307-1317 | dead is the old chain above the common block, last first, live the new one |
| `ChainIndex.BlockChain.Rewind` | libcv/BlockChain.cpp:1412-1442 | a rewind leaves the head at that canonical block and the same guarantees |
| `ChainIndex.BlockChain.WithBlockBloom` | libcv/BlockChain.cpp:1635-1647 | strictly increasing, and a number is returned if and only if it is at least earliest, its canonical bloom has the bits, and it is at most latest or in the one entry the top loop runs too far |
| `ChainIndex.BlockChain.Scan` | libcv/BlockChain.cpp:1649-1687 | the same for one entry of one level |
| `ChainIndex.OverrunIff` | libcv/BlockChain.cpp:1643 | numbers above latest are possible if and only if latest is not a multiple of 256 |
| `ChainIndex.ReorgLists` | libcv/BlockChain.cpp:1307-1317 | a block is dead if and only if it was canonical and no longer is, live if and only if the reverse |
| `ReplayWindow.GrowthIsRebuild` | libcv/NonceCheck.cpp:72-131 | after one more block the incremental cache equals a full rebuild if and only if no key of an evicted block, other than the new block's own, is still in the window |
| `ReplayWindow.RebuildIsExact` | libcv/NonceCheck.cpp:93-131 | a rebuild holds exactly the keys of the window, which never includes block 0 |
| `ReplayWindow.EveryRunExact` | libcv/NonceCheck.cpp:72-131 | in every run of sealing, rebuilding and side imports that share no key with the window the cache is the exact window and every block was packed against it |
| `ReplayWindow.RunExactIff` | libcv/BlockChain.cpp:1241 | a run's cache is exact throughout if and only if every side import shared no key with the window below it |
| `ReplayWindow.SideImportRepeats` | libcv/BlockChain.cpp:1241 | a run from genesis in which a side block brings the transaction of block 1, and the node then packs it again into block 2 |
| `ReplayWindow.NeverTwice` | libcv/Block.cpp:327-385 | on such a chain no transaction is included twice when block limits reach at most maxblocksize + 2 |
| `ReplayWindow.KeysFarApart` | libcv/Block.cpp:359-368 | and no sender and random id repeat within maxblocksize + 1 blocks |
| `ReplayWindow.BoundIsTight` | libcv/BlockChain.cpp:153-161 | with a block limit one larger a chain that includes a transaction twice passes every check |
| `ReplayWindow.PackedIsPackable` | libcv/Block.cpp:327-385 | packing any queue leaves a block in which every transaction passes the checks where it stands and none stands twice |
| `ReplayWindow.PackedAccounts` | libcv/Block.cpp:327-455 | what packing drops are transactions that did not fit or were thrown out, what it postpones are those the executive postponed, and every transaction up to the stop, which comes only at the limit, is in the block, dropped, postponed or deliberately left |
| `ReplayWindow.NothingOverlooked` | libcv/Block.cpp:327-455 | an admissible transaction gets in unless the block has its hash or key already or the limit is reached |
| `ReplayWindow.SideImportIsExactIff` | libcv/BlockChain.cpp:1241 | an import that does not become the head leaves the cache exact if and only if none of its keys was in the window |
| `NonceCheck.NonceCache.constructor` | libcv/NonceCheck.cpp:14-22 | starts exact |
| `NonceCheck.NonceCache.Ok` | libcv/NonceCheck.cpp:34-52 | true exactly for keys not held, and inserts only then and only when asked |
| `NonceCheck.NonceCache.DelCache` | libcv/NonceCheck.cpp:56-68 | forgets exactly the keys of the given transactions |
| `NonceCheck.NonceCache.UpdateCache` | libcv/NonceCheck.cpp:72-131 | the eviction and insertion loops are the update of the window model |
| `NonceCheck.Block.Sync` | libcv/Block.cpp:300-464 | the packing loop is the packing of the window model, the flag says whether the limit was reached, and dropped and postponed hashes are of transactions that ended so |
| `ChunkMap.Chunks.HaveItem` | libcv/BlockChainSync.cpp:38-49 | true if and only if the flat map has the number |
| `ChunkMap.Chunks.FindItem` | libcv/BlockChainSync.cpp:52-65 | is lookup in the flat map |
| `ChunkMap.Chunks.RemoveHead` | libcv/BlockChainSync.cpp:72-82 | removes exactly the number when it starts a chunk |
| `ChunkMap.Chunks.RemoveAllStartingWith` | libcv/BlockChainSync.cpp:98-117 | keeps exactly the numbers below |
| `ChunkMap.Chunks.RemoveAllSmallerThan` | libcv/BlockChainSync.cpp:119-151 | keeps exactly the numbers above, so the number itself goes too |
| `ChunkMap.Chunks.MergeInto` | libcv/BlockChainSync.cpp:153-185 | inserts an absent number and changes no other, joining up to three chunks |
| `ChunkMap.Chunks.TrimHead` | libcv/BlockChainSync.cpp:875-886 | removes exactly the numbers handed over |
| `ChunkMap.OneForm` | libcv/BlockChainSync.cpp:153-185 | non-empty, non-touching chunks are the only representation of a flat map, so these contracts fix the chunks themselves |
| `Framing.RoundTrip` | libchannelserver/ChannelMessage.h:31-67 | decoding an encoded message followed by anything gives the message and its length |
| `Framing.Layout` | libchannelserver/ChannelMessage.h:31-42 | length, type, tag, result and data stand at bytes 0, 4, 6, 38 and 42, numbers in network order and the result in two's complement |
| `Framing.DecodedIsEncoded` | libchannelserver/ChannelMessage.h:44-67 | what decodes is the encoding of the message it decodes to |
| `Framing.AnySplit` | libchannelserver/ChannelSession.cpp:189-236 | for any bytes whatever, how they were split over reads changes neither the messages delivered nor whether the session breaks |
| `Framing.FramesArrive` | libchannelserver/ChannelSession.cpp:189-236 | any reads of encoded messages and the beginning of another deliver exactly those messages in order and keep exactly the unfinished bytes |
| `Framing.PartAsksForMore` | libchannelserver/ChannelMessage.h:44-57 | no proper beginning of a message decodes |
| `Channel.Message.Encode` | libchannelserver/ChannelMessage.h:31-42 | appends exactly the encoding |
| `Channel.Message.Decode` | libchannelserver/ChannelMessage.h:44-67 | result and fields of each outcome |
| `Channel.ChannelSession.OnRead` | libchannelserver/ChannelSession.cpp:189-236 | one read drains the buffer as the stream model does |
| `Abi.RoundTrip` | libcvcore/ABI.h:71-149 | reading the encoding of any u256, u160 and string arguments gives them back, when no string starts at or beyond 2^32 |
| `Abi.Layout` | libcvcore/ABI.h:71-92 | every head word and every tail stands where the head/tail layout puts it |
| `Abi.WireFormat` | libcvcore/ABI.h:29-60 | numbers and addresses are right-aligned head words, a string has its length, its bytes and zeros up to whole words in the tail |
| `Abi.TailsFollow` | libcvcore/ABI.h:71-92 | tails start behind the heads and follow each other without gaps |
| `Abi.HeadPointsIff` | libcvcore/ABI.h:79-83 | the head word of a string is its true offset if and only if that is below 2^32, as the offset goes through a 32-bit constructor |
| `Abi.FarStringLost` | libcvcore/ABI.h:79-83 | a string behind one of 2^32 bytes comes back empty |
| `ContractAbi.ContractABI.Serialise` | libcvcore/ABI.h:29-60 | one fixed item per argument, and for a string one dynamic item with its place |
| `ContractAbi.ContractABI.PatchOffsets` | libcvcore/ABI.h:77-83 | the running offset is the true place of each tail |
| `ContractAbi.ContractABI.AbiIn` | libcvcore/ABI.h:71-92 | selector, heads, tails |
| `ContractAbi.ContractABI.AbiOut` | libcvcore/ABI.h:100-149 | reads argument after argument at its head word |
| `BigEndian.ReadBack` | libdevcore/CommonData.h:87-108 | reading k big-endian bytes gives the number modulo 256^k |
| `BigEndian.WriteBack` | libdevcore/CommonData.h:87-108 | writing what was read gives the bytes back |
| `BigEndian.Digits` | libdevcore/CommonData.h:87-108 | byte i of k is the digit that counts 256 to the power k-1-i |
| `TransactionQueue.TransactionQueue.constructor` | libcv/TransactionQueue.h:37 | an empty queue is consistent |
| `TransactionQueue.TransactionQueue.Import` | libcv/TransactionQueue.cpp:98-260 | each answer has its own condition, known before dropped before nonce before block limit before price; the price is refused if and only if a held transaction of the same sender and nonce offers strictly more; a refusal changes nothing; after success nothing else is held for that sender and nonce, nothing but the transaction has come in, no offer has fallen, and all indexes agree within the limit |
| `TransactionQueue.TransactionQueue.Vacate` | libcv/TransactionQueue.cpp:193-230 | an earlier transaction of the same sender and nonce makes room if and only if it does not offer more |
| `TransactionQueue.TransactionQueue.Remove` | libcv/TransactionQueue.cpp:307-325 | one transaction leaves every index |
| `TransactionQueue.TransactionQueue.MakeCurrent` | libcv/TransactionQueue.cpp:366-408 | exactly the unbroken run of nonces after the transaction becomes current, then the future is cut to its limit, each sender losing from the top |
| `TransactionQueue.TransactionQueue.SetFuture` | libcv/TransactionQueue.cpp:340-364 | exactly the transaction and the sender's current ones of later nonces wait again, and nothing else moves |
| `TransactionQueue.TransactionQueue.Drop` | libcv/TransactionQueue.cpp:410-422 | a known hash is remembered as dropped and leaves the current queue |
| `TransactionQueue.TransactionQueue.DropGood` | libcv/TransactionQueue.cpp:424-435 | the run behind the transaction becomes current and the transaction leaves the current queue; one that waits in the future queue stays there |
| `TransactionQueue.TransactionQueue.Clear` | libcv/TransactionQueue.cpp:437-446 | everything but the dropped hashes is forgotten |
| `TransactionQueue.RunMoves` | libcv/TransactionQueue.cpp:366-393 | the run is the slots before the first gap, no more and no fewer |
| `TransactionQueue.OffersNeverFall` | libcv/TransactionQueue.cpp:193-230 | over any sequence of imports the offer for a sender and nonce does not fall while one is held |
| `TransactionQueue.EntersUnlessFull` | libcv/TransactionQueue.cpp:232-258 | the imported transaction is current unless there are then too many |
| `TransactionQueue.DemotedKeeps` | libcv/TransactionQueue.cpp:340-364 | making any current slots future keeps the indexes in agreement |
| `TransactionQueue.PromotedKeeps` | libcv/TransactionQueue.cpp:375-391 | so does making a future slot current |

## Left out

- PbftSafety.Agreement: the code alone does not give it; it holds under the stated condition on full quorums, and
  signatures that bind a packet's kind and all its fields would establish the condition. Timestamps are not modelled.
- PBFT proposals are unique per height and view in the theorems, a block's hash fixes its height, and a key has one
  signature per hash: equivocating leaders appear only in the run of `PbftRuns.StrayRequestSealed`.
- PBFT.shouldSeal, its leader and lock test, generateSeal and generateCommit form one step, though
  libpbftseal/PBFTClient.cpp asks the first at line 231 and calls the others from line 325 on without asking again; what
  another thread does in between is not modelled, and agreement rests on the test still holding.
- PBFT membership changes, restarts, backup and reload of messages, liveness, timers, empty-block switching and peer
  masks are not modelled; every node is a sealer and its host alive.
- PBFT view numbers do not wrap at 2^256, and the check for an unusable head in getLeader is not modelled.
- VmOptimizer.PassPreservesMeaning: instructions other than pushes and jumps are arbitrary functions of the machine, and
  the per-instruction callback is not modelled; the pass is switched off by cvvm/VMConfig.h and the EVM_JUMPS_AND_SUBS
  instructions are compiled out.
- VmGas.Exec: sums do not wrap at 64 bits, refunds and the final gas settlement of a transaction are not modelled,
  and neither is ETHCALL.
- StateJournal.RollbackRestores: kill, Permanence::Reverted, commit and setting code over existing code are not
  operations of the model, as they are not journaled or not undone exactly; the alive flag is therefore not modelled.
- StateCache.State.SetNewCode: only for a dirty account without code, for the same reason.
- BlockQueue.BlockQueue.ImportBlock: malformed blocks, importVerified, retryAllUnknown, clear, blocks in the
  future, difficulty and byte sizes are not modelled, and a child of a known-bad block is imported only when the loops
  that then clean the three queues find nothing, because the tail that std::remove_if leaves is unspecified.
- BlockPipeline.InterleavingsKeep: imports in which those loops would take something are not enabled.
- BlockPipeline.BatchInOrder: the same.
- BlockQueue.BlockQueue.FinishDrain: draining with bad blocks is not modelled.
- BlockPipeline.StepKeeps: each critical section is one step, and the same imports are not enabled.
- ChainIndex.BlockChain.TreeRoute: its index result, its other flags and the early return on a zero hash are not
  modelled.
- ChainIndex.BlockChain.Import: a hash names one block, whose content does not change between imports; block
  verification, the state database, transaction addresses and the in-memory copies of the indexes are not modelled; a
  block's bloom is a set of bits, and genesis is never entered into the blooms.
- ReplayWindow.EveryRunExact: reorganisations appear only as rebuilds of the node's own chain, and block 0 is empty.
- NonceCheck.Block.Sync: execution is any function from the block so far and the transaction to the way it ends.
- ChunkMap.Chunks.RemoveHead: removing a number inside a chunk is not modelled, as the code trims a list it has already
  moved from; checks of header links are not modelled.
- Channel.Message.Decode: a length below 42 makes the code copy a range that ends before it begins, which the model
  only marks as undefined.
- Channel.ChannelSession.OnRead: after such a length the model's session takes no more reads.
- Abi.RoundTrip: byte, string32 and bool arguments follow another layout and are not modelled; an offset or length of
  2^64 or more reads as outside the data.
- TransactionQueue.TransactionQueue.Import: the priority order is not modelled, because its comparison looks into maps
  that change, so any current transaction may be the one that is cut; exceptions and callbacks are not modelled, and the
  nested maps are written as one map from sender and nonce.
- Encryption, networking, RPC, configuration, account management, logging, the database copies of caches and the JIT
  are input and output or foreign calls.
