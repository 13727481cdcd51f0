# futurehead-node: verified models

A Dafny 4.11 model of the stateful logic in the futurehead-node repository, and proofs
about it. `dafny verify dfyconfig.toml` checks everything.

| part | files | what it models |
|---|---|---|
| default singletons, swap protocol | `DefaultInit.dfy`, `DefaultLiveness.dfy`, `DefaultAnswers.dfy`, `FlagValues.dfy` | `Context::getDefault` and `CommandQueue::getDefault` of CL/cl.hpp: a compare-and-swap on a 1/2/4 flag, a spin wait, publication; one protocol nested in the other; any number of threads, sequentially consistent memory, exceptions off |
| default singletons, call-once slots | `OnceSlots.dfy`, `OnceAnswers.dfy` | Platform, Context, Device and CommandQueue of CL/cl2.hpp: `getDefault` and `setDefault` racing, initialisers that call each other, a stack of calls per thread |
| reference counting | `Ownership.dfy`, `Wrappers.dfy`, `InfoQuery.dfy` | `detail::Wrapper` of both headers, as sequences of acts and as objects updated in place, and the two `getInfoHelper` loops that fill vectors of counted handles |
| ledger | `LedgerModel.dfy`, `LedgerInvariant.dfy`, `LedgerVerdict.dfy`, `LedgerProcess.dfy`, `LedgerUndo.dfy`, `LedgerRollback.dfy`, `LedgerDeterminacy.dfy`, `Ledger.dfy`, `LedgerHistory.dfy`, `MapSums.dfy` | acceptance and rollback of universal (state and epoch) blocks: block, account, pending and confirmation-height tables, representative weights modulo 2^128 |
| representative weights | `Radix.dfy`, `AccountCodec.dfy`, `RepSelection.dfy`, `RepFile.dfy` | the weight-file script, the node's address encoder and decoder, and the node's reader of the file |
| shared definitions | `Common.dfy` | optional values, null handle and success code, 2^128 |
| small structures | `VersionText.dfy`, `BoundedVector.dfy`, `OwnedString.dfy` | `getVersion`, `cl::vector`, `cl::string` of CL/cl.hpp |

## Main results

* Swap protocol: one winner, one assignment, flags that only go from 1 to 2 to 4, no read
  during the write, every return is the winner's pair, and that pair is what the runtime
  answered the winner's build call; the queue inherits a failed context's error; some thread
  can always do useful work, and every fair run answers every call of every program in order.
* Call-once slots: one initialiser per slot, completed slots are final, all calls agree, and
  hold the runtime's answer or what a setDefault passed; a queue is built from the completed context and device slots, or carries the context's
  error; initialisers descend strictly in rank, so no thread waits for itself, every run
  is bounded and a run that cannot go on has finished every call.
* Reference counting: counts equal holders plus outside references after any operations,
  with references handed out by the runtime and given up by the program in between;
  no retain, release or live wrapper ever meets a freed handle, with the one point in time
  where a wrapper being overwritten does; every owned reference is released exactly once.
  The two loops that fill vectors leave the same vector and the same counts.
* Ledger: in every history of arrivals, undos, rollbacks and cementings the supply is the
  genesis amount, weights are the delegated balances, no two blocks fork, and every send is
  pending or received by exactly one block; undoing an accepted block restores the ledger.
  Rollback refuses exactly the cemented blocks and otherwise removes dependents only; it
  conserves the supply, keeps the shape and removes all dependents if and only if none of
  them is cemented. Accounts, pending entries and weights are a function of the blocks alone:
  two histories that end with the same blocks agree, whatever the order of arrival.
  Acceptance is characterised without regard to the order of the checks, and each of the
  twelve verdicts by an exact condition.
* Weight file: greedy selection is optimal, independent of reply order and within one unit
  of the share asked for on either side of its last entry; the script reads every address as the node does; files round trip,
  and the table the node loads holds exactly the selected representatives.

## Where the code falls short

Each of these keeps the code as it is, shows an input, and proves exactly when the property holds.

* CL/cl.hpp:2813, 2821, 6585, 6593: with C++11 atomics neither flag has an initialiser, and both
  start at 0. `WorksOnlyFromNotInitialized` proves that the protocol works for both singletons if
  and only if both flags start at 1. Inputs: `BreaksWithNeitherBit` for a context flag of 0
  (two contexts are built and assigned), `TwoEnter` for a queue flag of 0 (two initialisers).
* futurehead/secure/ledger.cpp:130-138: the visitor for state blocks keeps the failure of a
  nested rollback in a local variable that hides the member of the same name, so the outer
  rollback goes on and leaves a cemented receive without its send. `RollbackIsRightIff` and the
  contract of `Rollback` prove that an uncemented block is rolled back with the supply conserved
  if and only if nothing that depends on it is cemented. Input: `RunSwallowedError` makes such a
  ledger with the program's own operations, rolls the send back, gets no error and twice the
  supply. Where receives are cemented only after their sends the condition holds
  (`ConfirmedClosedIsFree`), so histories stay sound.
* futurehead/secure/ledger.cpp:416-436: an epoch block that opens an account is not required to
  have a zero previous hash. `ProcessKeepsSound` proves that this is the only way a processed
  block can upset the ledger. Input: `ForeignOpeningIsAccepted`.
* CL/cl.hpp:1178-1188: overwriting before retaining frees objects to which the vector held the
  last references. `AssignThenRetain` proves that it is safe if and only if every handle in the
  answer has a reference the vector does not own (`SafeToAssign`). Input: `LastReferenceIsFreed`.
  The loop of CL/cl2.hpp is safe whenever that one is, and for that input too.
* ci/record_rep_weights.py:58: with a threshold of zero one representative is written where none
  is needed. `GreedyIsOptimal` is an if-and-only-if for that reason. Input: `WritesOneTooMany`,
  any list with a weight.
* ci/record_rep_weights.py:11, 39: `--limit` has no type, so a limit given on the command line stays
  text, and the product of a number and a text raises before the file is opened. `RunScript` proves
  that a file is written if and only if the option is absent and the records can be written; any
  option is an input.
* ci/record_rep_weights.py:19, 50: translation leaves characters outside the account alphabet alone,
  so the decoder takes capital letters and 2 for digits too, and no checksum is looked at.
  `ScriptAcceptsIff` gives the exact condition; on addresses the node accepts with an underscore
  both agree (`ScriptAgreesWithNode`).
* CL/cl.hpp:501-512: the header says that a null pointer leaves the string empty; with a positive
  size the code copies from it. `FromChars` proves that the promise holds if and only if the pointer
  is not null or the size is 0. Input: `NullWithSize`.

## Model

| member | source | states |
|---|---|---|
| DefaultInit.StepKeepsInv | CL/cl.hpp:2646-2692 | every access to shared memory by any thread, whatever the runtime answers, keeps the protocol invariant of both flags |
| DefaultInit.InitialisedAtMostOnce | CL/cl.hpp:1046-1074 | in every interleaving from 1 at most one thread wins, `default_` is assigned at most once, the flag is 1, 2 or 4 and tells how far initialisation is |
| DefaultInit.FlagMovesInOrder | CL/cl.hpp:2648-2683 | in every run one step leaves a flag alone, or takes it from 1 to 2, or from 2 to 4 |
| DefaultInit.OnlyForward | CL/cl.hpp:2648-2690 | in any continuation a flag only rises, the same winner holds it while it is 2, and nothing changes after 4 |
| DefaultInit.PublishedIsFinal | CL/cl.hpp:2671-2690 | once the flag is 4 the slot never changes in any continuation |
| DefaultInit.NoReadDuringWrite | CL/cl.hpp:2652-2690 | no thread reads value or error while another is initialising that singleton |
| DefaultInit.ReturnsWhatTheWinnerBuilt | CL/cl.hpp:2646-2692 | a call returning on any of its paths returns the handle and error the one initialiser built |
| DefaultAnswers.StoredIsTheAnswer | CL/cl.hpp:2671-2683 | a published singleton, for the queue beside a good context, holds what the runtime answered a step of the winner that stood at the build call of that singleton, for the queue with the published context in hand |
| DefaultAnswers.AnswersInOrder | CL/cl.hpp:5592-5651 | in every run a thread's results answer the calls of its program in order, with an error exactly where the caller asks for one |
| DefaultInit.QueueInheritsContextError | CL/cl.hpp:5592-5651 | a published queue implies a published context, and a failed context gives the queue its error and leaves it null |
| DefaultLiveness.StepWorksOrWaits | CL/cl.hpp:5592-5651 | a step either lowers a natural-number measure of the work left or changes nothing |
| DefaultLiveness.SomebodyAdvances | CL/cl.hpp:5592-5651 | deadlock freedom: while a call is unfinished some thread has a step that is not a spin |
| DefaultLiveness.AdvanceIsStable | CL/cl.hpp:2659-2669 | no other thread can send a thread that could go on back to spinning |
| DefaultLiveness.EveryCallReturns | CL/cl.hpp:5592-5651 | under every fair schedule all calls of all threads return |
| DefaultAnswers.EveryCallAnswered | CL/cl.hpp:5592-5651 | under every fair schedule there is a time when every call of every program has its answer |
| FlagValues.WorksOnlyFromNotInitialized | CL/cl.hpp:2811-2827 | the protocol keeps its promise for both singletons over all runs if and only if both flags start at 1 |
| FlagValues.BreaksWithInitializedBit | CL/cl.hpp:2652-2657 | a context or queue flag that starts with bit 4 makes a call return something nobody built |
| FlagValues.BreaksWithBeingInitializedBit | CL/cl.hpp:2659-2669 | a context or queue flag that starts with bit 2 and not 4 leaves every caller spinning |
| FlagValues.BreaksWithNeitherBit | CL/cl.hpp:2811-2827 | a context flag of any other value than 1, such as the 0 of an uninitialised atomic, lets two threads build and assign, whatever the queue flag |
| FlagValues.TwoEnter | CL/cl.hpp:5594-5616 | a context or queue flag with neither bit and not 1 lets two threads into the initialising path |
| OnceSlots.StepKeepsInv | CL/cl2.hpp:6580-6605 | every step of every thread keeps slots, stacks of nested calls and returned results consistent |
| OnceSlots.CompletedIsFinal | CL/cl2.hpp:2768-2776 | a completed slot never changes in any continuation, an active one stays with its thread until complete |
| OnceSlots.InitialisedAtMostOnce | CL/cl2.hpp:1959-1982 | for any programs and interleaving each slot's initialiser runs at most once |
| OnceSlots.AllCallsAgree | CL/cl2.hpp:2768-2790 | any two returned calls on a slot, getDefault or setDefault, return the same value and error |
| OnceSlots.WinnerGetsItsValueBack | CL/cl2.hpp:2255-2260 | the setDefault whose initialiser ran returns the value passed, without error |
| OnceSlots.QueueComesFromDefaults | CL/cl2.hpp:6580-6605 | a queue made by default has the failed context's error and is null, or was built from the completed context and device slots, and the device's unchecked error is success |
| OnceSlots.ErrorsPassedOn | CL/cl2.hpp:2887-2914 | a device made by default has the context's error, and without error is the first device of the context; a context made by default was built from the platform slot, null if that failed |
| OnceAnswers.StoredIsTheAnswer | CL/cl2.hpp:2154-2190 | a completed platform, context or queue that was not provided, the queue beside a good context, holds the runtime's answer to a call asked for that very slot with the platform, or the context and device, the slots hold; a failed platform is null |
| OnceAnswers.GivenWasPassed | CL/cl2.hpp:1977-1982 | a provided default is what a setDefault on that slot passed, without error |
| OnceAnswers.WrittenIsFinal | CL/cl2.hpp:2534-2574 | from the moment it is written a slot keeps its value and error |
| OnceSlots.RanksDescend | CL/cl2.hpp:2534-2564 | a call higher on a stack is for a slot of strictly lower rank |
| OnceSlots.NeverWaitsForItself | CL/cl2.hpp:6884-6896 | no thread waits at call_once for an initialiser it is itself running |
| OnceSlots.NoDeadlock | CL/cl2.hpp:6884-6896 | while a thread is unfinished some thread can go on |
| OnceSlots.RunsAreBounded | CL/cl2.hpp:6580-6605 | the length of a run plus the work left at its end is at most the work at its start |
| OnceSlots.EveryCallReturns | CL/cl2.hpp:6884-6910 | runs are bounded, and nobody can go on exactly when every program is finished |
| OnceAnswers.EveryCallAnswered | CL/cl2.hpp:6884-6910 | a thread's results answer the calls of its program in order, and all of them once nobody can go on |
| Ownership.OpKeepsExact | CL/cl.hpp:1790-1841 | each of adopt, copy, move, the three assignments, destroy, and of the program obtaining or giving up a reference keeps a handle's count equal to its live wrappers plus outside references, and owned equal to released plus held |
| Ownership.OpKeepsFlags | CL/cl.hpp:1872-1947 | after every operation a non-null wrapper's flag is `isReferenceCountable` of its handle, recomputed or carried |
| Ownership.OpKeepsBalance | CL/cl.hpp:1862-1979 | both of these for all handles and wrappers at once |
| Ownership.OpDoes | CL/cl.hpp:1885-1947 | each operation does what it is for: a copy holds the handle of its source and leaves it alone, a move takes the fields and empties the source, adoption and raw assignment hold the given handle with its flag, destruction removes, and no other wrapper changes |
| Ownership.OpCounts | CL/cl.hpp:1790-1841 | the count of a counted handle rises by one for a new owner that retains and falls by one for an owner that lets go, and by nothing else |
| Ownership.OpSpares | CL/cl2.hpp:1790-1808 | no wrapper operation asks the runtime about null or about a handle it does not count |
| Ownership.NoEarlyFree | CL/cl.hpp:1795-1841 | at every point inside every operation the runtime is asked about live handles only and no wrapper names a freed one, except the target between release and write, exactly when it held the last reference |
| Ownership.RunConserves | CL/cl2.hpp:1583-1678 | any sequence of operations conserves references and keeps flags right |
| Ownership.AllReleasedInTheEnd | CL/cl.hpp:1795-1798 | when all wrappers are gone every reference they owned has been released exactly once |
| Wrappers.Runtime.Retain | CL/cl.hpp:1851-1854 | one more reference, asked of a live handle only |
| Wrappers.Runtime.Release | CL/cl.hpp:1856-1859 | one reference less, asked of a live handle only |
| Wrappers.Runtime.Obtain | CL/cl.hpp:1793 | a reference the program gets from the runtime and may hand to a wrapper; the books stay balanced |
| Wrappers.Runtime.Discard | CL/cl.hpp:1856-1859 | a reference the program gives up itself; the books stay balanced |
| Wrappers.CreateAndAdopt | CL/cl.hpp:1793 | from a fresh runtime an object is created and adopted: one wrapper holds it and the books balance |
| Wrappers.Wrapper.Default | CL/cl.hpp:1885-1887 | an empty wrapper; the books stay balanced |
| Wrappers.Wrapper.Adopt | CL/cl2.hpp:1713-1722 | takes over the caller's reference or retains, flag computed; the books stay balanced |
| Wrappers.Wrapper.Copy | CL/cl2.hpp:1729-1734 | the handle of the source, which is unchanged; flag computed anew, one retain of a live handle; the books stay balanced |
| Wrappers.Wrapper.Move | CL/cl2.hpp:1736-1742 | handle and flag change hands, source emptied, no runtime call |
| Wrappers.Wrapper.CopyAssign | CL/cl2.hpp:1744-1753 | holds the handle of the source, which is unchanged; refines release, write, retain; nothing on itself; both runtime calls find live handles even between two wrappers of one object |
| Wrappers.Wrapper.MoveAssign | CL/cl2.hpp:1755-1765 | holds what the source held and leaves it empty; refines release, write, empty the source; nothing on itself |
| Wrappers.Wrapper.RawAssign | CL/cl2.hpp:1767-1773 | holds the given handle with its flag; refines release, write, take over the caller's reference |
| Wrappers.Wrapper.Destroy | CL/cl2.hpp:1724-1727 | refines release and removal |
| InfoQuery.AssignThenRetain | CL/cl.hpp:1162-1190 | references outside the vector are unchanged but for slots after a failed retain; when no retain fails, no retain of a freed handle if and only if every handle in the answer has a reference the vector does not own; null and uncounted handles are left alone; failed queries change nothing |
| InfoQuery.RetainEach | CL/cl.hpp:1179-1189 | the loop retains every counted slot up to the end or the first failure, and asks for live handles only exactly if each was held before the loop |
| InfoQuery.ReplaceEach | CL/cl2.hpp:964-966 | the loop retains each new handle and releases each old one, releases are always of live handles, retains are exactly if each is still referenced when due |
| InfoQuery.RetainThenReplace | CL/cl2.hpp:940-969 | references outside the vector are unchanged; no retain of a freed handle exactly if each handle is kept until its slot is due |
| InfoQuery.BothLoops | CL/cl2.hpp:940-969 | on the same reply, vector and counts, with no failing retain, the loops of both headers leave the same status, vector and count of every counted handle, and the second is safe whenever the first is |
| InfoQuery.RetainFirstIsSafer | CL/cl2.hpp:962-966 | wherever assigning first is safe, retaining first is |
| InfoQuery.AskingAgainIsSafe | CL/cl2.hpp:962-966 | asking again for what the vector already holds is safe with no reference outside it |
| InfoQuery.LastReferenceIsFreed | CL/cl.hpp:1178-1188 | a vector with the last reference to the one object returned: assigning first is unsafe, retaining first is safe |
| LedgerVerdict.AcceptedIff | futurehead/secure/ledger.cpp:198-442 | a block is accepted if and only if it is new, authorised, in place, not of the burn account, balanced and worked for, in whatever order that is looked at |
| LedgerVerdict.VerdictIff | futurehead/secure/ledger.cpp:198-442 | each of the twelve verdicts is given if and only if its ground, stated through block and ledger, holds; so the grounds exclude each other and one always holds |
| LedgerVerdict.OutOfOrderIsAGap | futurehead/secure/ledger.cpp:290 | a block whose predecessor has not arrived is never called a fork, and a new signed one is answered gap_previous |
| LedgerVerdict.WorkByKind | futurehead/lib/work.cpp:103-122 | the work test asks the epoch-2 receive threshold of receives and epoch blocks that end in epoch 2, the epoch-2 threshold of sends and changes there, and the epoch-1 threshold otherwise |
| LedgerVerdict.OnlyTheOwnerActs | futurehead/secure/ledger.cpp:257-379 | balance and representative of an open account change only by a block its own key signed |
| LedgerProcess.AcceptedLands | futurehead/secure/ledger.cpp:198-442 | an accepted block continues its account's chain, spends less than the balance, or receives exactly a pending amount, or changes nothing in amount |
| LedgerProcess.AppliedKeepsShape | futurehead/secure/ledger.cpp:343-372 | accepting keeps chains, heads, absence of forks, and the match of sends, pendings and receives |
| LedgerProcess.AppliedConservesSupply | futurehead/secure/ledger.cpp:346-364 | balances plus pending amounts stay the same |
| LedgerProcess.AppliedKeepsDrift | futurehead/secure/ledger.cpp:346-352 | weights move modulo 2^128 exactly as delegated balances do |
| LedgerProcess.ProcessKeepsSound | futurehead/secure/ledger.cpp:234-255 | for every block and verdict the ledger stays sound if and only if the block is not an accepted epoch block opening an account on a foreign block |
| LedgerProcess.ForeignOpeningBreaksChains | futurehead/secure/ledger.cpp:416-436 | such a block breaks the chains |
| LedgerUndo.VisitorReadsKind | futurehead/secure/ledger.cpp:115-148 | the visitor's tests on balances and link tell send and receive as stored |
| LedgerUndo.UndoneKeepsShape | futurehead/secure/ledger.cpp:107-169 | undoing an undoable head keeps the shape |
| LedgerUndo.UndoneKeepsSkeleton | futurehead/secure/ledger.cpp:150-169 | the visitor's end keeps chains, heads, pendings and uncemented receives in order whichever way the inner loop ended |
| LedgerUndo.UndoneOrphans | futurehead/secure/ledger.cpp:132-141 | it leaves a receive without its send exactly if it undoes a send that is not pending |
| LedgerUndo.UndoneSupply | futurehead/secure/ledger.cpp:132-148 | undoing any head changes the supply by nothing, or by the amount of a send that is not pending |
| LedgerUndo.UndoneKeepsDrift | futurehead/secure/ledger.cpp:117-127 | weights follow delegated balances back |
| LedgerUndo.UndoneKeepsSound | futurehead/secure/ledger.cpp:107-169 | undoing an undoable head keeps the ledger sound |
| LedgerUndo.UndoInvertsProcess | futurehead/secure/ledger.cpp:107-169 | undoing the block just accepted restores all tables and weights |
| LedgerRollback.DependentsClosed | futurehead/secure/ledger.cpp:953-986 | the dependents of a block hold it and whatever builds on or receives from a member |
| LedgerRollback.ReceiverToRollBack | futurehead/secure/ledger.cpp:132-138 | when a send is not pending, the destination's head is a later dependent: the nested rollback is well directed |
| LedgerRollback.ReceiverIsCemented | futurehead/secure/ledger.cpp:135-138 | when the nested rollback refuses that head, whoever received the send is cemented |
| LedgerRollback.RollbackIsRightIff | futurehead/secure/ledger.cpp:953-986 | rolling back an uncemented block conserves the supply, keeps a ledger in shape in shape, and removes exactly the dependents, each if and only if no dependent is cemented |
| LedgerRollback.ConfirmedClosedIsFree | futurehead/secure/ledger.cpp:967-980 | where receives are cemented only after their sends, an uncemented block has no cemented dependents |
| LedgerRollback.RollbackKeepsSound | futurehead/secure/ledger.cpp:953-986 | on a sound ledger every rollback keeps it sound and removes exactly the dependents |
| LedgerDeterminacy.AppliedKeepsDated | futurehead/secure/ledger.cpp:285-344 | stored details are a function of the block and of the entries it refers to, and accepting keeps it so |
| LedgerDeterminacy.RevertedKeepsDated | futurehead/secure/ledger.cpp:953-986 | so does removing blocks |
| LedgerDeterminacy.EntriesAgree | futurehead/secure/ledger.cpp:339-345 | in two sound ledgers with the same blocks every block has the same height and details |
| LedgerDeterminacy.AccountsAgree | futurehead/secure/ledger.cpp:366-367 | and every account the same entry |
| LedgerDeterminacy.PendingAgrees | futurehead/secure/ledger.cpp:355-364 | and every pending entry is in both |
| LedgerDeterminacy.LedgerIsItsBlocks | futurehead/secure/ledger.cpp:339-372 | two sound ledgers with the same blocks have the same accounts, pending entries and weights |
| LedgerObject.Ledger.constructor | futurehead/secure/blockstore_partial.hpp:30-45 | the tables of a fresh ledger |
| LedgerObject.Ledger.Process | futurehead/secure/ledger.cpp:814-824 | the in-place updates give the verdict and the store of the value-level `Process`, and the verdict is the one whose ground holds |
| LedgerObject.Ledger.RemoveHead | futurehead/secure/ledger.cpp:132-169 | the in-place end of the visitor gives the value-level `Undone` |
| LedgerObject.Ledger.RestorePending | futurehead/secure/ledger.cpp:134-138 | the visitor's loop ends, leaves the sender's chain alone, and the send is pending again or its receiver cemented and the failure dropped |
| LedgerObject.Ledger.UndoHead | futurehead/secure/ledger.cpp:107-169 | the visitor removes the head and otherwise only uncemented blocks of any dependence-closed set around it, moves weights with balances, and raises the supply exactly if it leaves a receive without its send |
| LedgerObject.Ledger.RollbackWithin | futurehead/secure/ledger.cpp:953-986 | terminates, fails without effect exactly on cemented blocks, else removes the block and only uncemented blocks of any dependence-closed set around it |
| LedgerObject.Ledger.Rollback | futurehead/secure/ledger.cpp:953-986 | fails exactly on cemented blocks and then changes nothing; else the supply is conserved, the shape kept and exactly the dependents removed, each if and only if no dependent is cemented; keeps a sound ledger sound, so that what is left is the ledger of the remaining blocks |
| LedgerHistory.GenesisIsSound | futurehead/secure/blockstore_partial.hpp:30-45 | a fresh ledger is sound |
| LedgerHistory.HistoryIsSound | futurehead/secure/ledger.cpp:814-824 | in every history of arrivals, undos, rollbacks and cementings supply is the genesis amount, weights are delegated balances, shape holds |
| LedgerHistory.HistoryIsDated | futurehead/secure/ledger.cpp:285-344 | in every history stored details are those the references of a block call for |
| LedgerHistory.OrderOfArrivalDoesNotMatter | futurehead/secure/ledger.cpp:814-824 | two histories that end with the same blocks end with the same accounts, pending entries and weights |
| LedgerHistory.SentOnceSpentOnce | futurehead/secure/ledger.cpp:317-328 | in every history a send is pending if and only if nobody received it, and at most one block did |
| LedgerHistory.UndoConservesIff | futurehead/secure/ledger.cpp:132-139 | the visitor's end conserves the supply if and only if it does not undo a send that is not pending |
| LedgerHistory.ForeignOpeningIsAccepted | futurehead/secure/ledger.cpp:416-436 | a sound ledger and an epoch block that is accepted and makes it unsound |
| LedgerHistory.SwallowedErrorDoublesSupply | futurehead/secure/ledger.cpp:130-139 | from a ledger with a cemented receive of an uncemented send, any result of rolling the send back has the supply doubled and the receive orphaned |
| LedgerHistory.RunSwallowedError | futurehead/secure/ledger.cpp:130-139 | the same by running arrivals, cementing and rollback: no error is returned and the supply is doubled |
| AccountCodec.EncodeAccount | futurehead/lib/numbers.cpp:34-54 | the loop from the low end, reversed, yields the 60 five-bit groups of key and checksum in order |
| AccountCodec.EncodeGroups | futurehead/lib/numbers.cpp:46-51 | the loop yields the five-bit groups from the low end, so reversed they are in order |
| AccountCodec.DecodeAccount | futurehead/lib/numbers.cpp:73-128 | the character loop errs exactly where the decoding function gives nothing, and yields its key |
| AccountCodec.AlphabetInverse | futurehead/lib/numbers.cpp:13-31 | the encoding table is the 32 characters of the source in order, and the two tables are inverse on digits and tell digits from other characters |
| AccountCodec.NodeDecodeExact | futurehead/lib/numbers.cpp:73-128 | a text decodes to a key if and only if it is that key's address, or the same with a dash for the underscore |
| AccountCodec.AddressLayout | futurehead/lib/numbers.cpp:43-53 | an address is the prefix, the key in 52 characters and the checksum in 8 |
| AccountCodec.AcceptedIsAddress | futurehead/lib/numbers.cpp:73-128 | a text the node accepts with an underscore is the address of its key |
| AccountCodec.PaddedDecode | ci/record_rep_weights.py:50 | base-32 decoding of 60 digits and four pads gives the value without its lowest four bits (section 6 of RFC 4648) |
| AccountCodec.ScriptDecodesText | ci/record_rep_weights.py:50-51 | for every 60-digit address the script computes bits 40 to 295 |
| AccountCodec.ScriptAgreesWithNode | ci/record_rep_weights.py:50-51 | the script reads the key the node reads from every address the node accepts with an underscore |
| AccountCodec.ScriptInvertsEncoder | ci/record_rep_weights.py:19-51 | the script inverts the node's encoder for every key and checksum function |
| AccountCodec.ScriptAcceptsIff | ci/record_rep_weights.py:50 | text without padding of its own decodes if and only if, prefixes removed, every character is a digit of either alphabet and the length is 4 modulo 8 |
| RepSelection.SortFacts | ci/record_rep_weights.py:32 | the sort is a permutation, falling in weight, stable |
| RepSelection.SelectReaches | ci/record_rep_weights.py:45-59 | the zero-weight break never loses weight: the selection reaches what the list reaches |
| RepSelection.PrefixIsHeaviest | ci/record_rep_weights.py:32-59 | no choice of k representatives outweighs the first k |
| RepSelection.GreedyIsOptimal | ci/record_rep_weights.py:32-59 | the number written is the least of any choice reaching the threshold, if and only if the threshold is positive or all weights are zero |
| RepSelection.WritesOneTooMany | ci/record_rep_weights.py:47-59 | with a threshold that needs nobody and some weight in the list, one too many is written |
| RepSelection.SortDistinct | ci/record_rep_weights.py:32 | accounts listed once stay listed once |
| RepSelection.OrderDoesNotMatter | ci/record_rep_weights.py:20-59 | count and total are the same for every order of the reply |
| RepSelection.ThresholdBounds | ci/record_rep_weights.py:34-40 | for limits between 0 and 1 the threshold is whole units, between zero and the supply, at most the share asked for and less than one unit below it |
| RepSelection.CoverageBound | ci/record_rep_weights.py:32-59 | the total written reaches the threshold and misses limit times supply by less than 10^30 |
| RepSelection.NoMoreThanNeeded | ci/record_rep_weights.py:45-59 | with a positive threshold the list written is not empty and without its last entry is below limit times supply |
| RepFile.FixedWidth | ci/record_rep_weights.py:43-52 | formatting in hex and unhexlifying gives exactly k bytes if and only if the number fits, and then its big-endian bytes |
| RepFile.RecordWeights | ci/record_rep_weights.py:28-64 | the script yields the file, count and total of the greedy selection of the sorted reply, or fails exactly where a record or the height cannot be written; for limits between 0 and 1 the total misses the share by less than one unit |
| RepFile.Height | ci/record_rep_weights.py:28 | the height and the cutoff make up the block count, or the height is 0 and the count at most the cutoff |
| RepFile.RunScript | ci/record_rep_weights.py:11-40 | a file is written if and only if no limit is given on the command line and every record can be written |
| RepFile.WriteRecords | ci/record_rep_weights.py:45-59 | the writing loop with its two breaks writes the records of the selection |
| RepFile.RecordRoundTrip | ci/record_rep_weights.py:50-54 | a record is 48 bytes that read back as account and weight |
| RepFile.FileRoundTrip | ci/record_rep_weights.py:42-56 | a file is 16 + 48 n bytes and reads back as height and the same ordered list |
| RepFile.GetBootstrapWeights | futurehead/node/node.cpp:1613-1640 | the reading loop yields the height modulo 2^64 and the table of all whole records; nothing for a short header |
| RepFile.TableHoldsRecords | futurehead/node/node.cpp:1625-1637 | with distinct accounts the table holds each record and nothing else |
| RepFile.TableKeepsLast | futurehead/node/node.cpp:1636 | the table maps an account to the weight of its last record |
| RepFile.KeysDiffer | futurehead/lib/numbers.cpp:73-128 | different accepted addresses have different keys |
| RepFile.TableHoldsReps | futurehead/node/node.cpp:1625-1637 | the table of the records of listed, distinct accounts maps each key to its weight and holds nothing else |
| RepFile.ScriptToNode | futurehead/node/node.cpp:1613-1640 | from the reply over the file to the loaded table: exactly the selected representatives, each with its weight, and the height modulo 2^64 |
| VersionText.GetVersion | CL/cl.hpp:1731-1748 | both loops stay in bounds and in their half of the word, and yield major and minor packed |
| VersionText.ReadNumber | CL/cl.hpp:1736-1740 | one loop: stops at the first stop character, within bounds, with the number of the digits before it |
| VersionText.ParsePrinted | CL/cl.hpp:1731-1748 | parsing a printed version of major below 2^15 and minor below 2^16 gives it back |
| VersionText.OrderIsLexicographic | CL/cl.hpp:1731-1748 | packed versions compare as (major, minor) |
| VersionText.TestsDecide | CL/cl.hpp:1876-1879 | the test against 1.1 means later than 1.1, and the one against 0x10002 means 1.2 or later |
| BoundedVector.CappedTwice | CL/cl.hpp:726-734 | capping as items arrive equals capping at the end |
| BoundedVector.ResizedTo | CL/cl.hpp:841-860 | resizing keeps the items that fit and fills the rest, and beyond capacity changes nothing |
| BoundedVector.Vector.PushBack | CL/cl.hpp:726-734 | the list with the item appended, capped; error exactly at capacity |
| BoundedVector.Vector.PopBack | CL/cl.hpp:740-748 | the list without its last item; error exactly on empty |
| BoundedVector.Vector.Clear | CL/cl.hpp:715-720 | the loop ends with the empty list |
| BoundedVector.Vector.Fill | CL/cl.hpp:768-774 | min(n, capacity) copies |
| BoundedVector.Vector.Resize | CL/cl.hpp:841-860 | refused beyond capacity without change, else cut or filled |
| BoundedVector.Vector.Assign | CL/cl.hpp:893-901 | the first min(capacity, length) items of the range |
| BoundedVector.Vector.AppendTo | CL/cl.hpp:893-1002 | iteration from begin to end terminates, stays in the contents and yields exactly them, with both positions -1 when empty |
| BoundedVector.Vector.CopyFrom | CL/cl.hpp:783-796 | the contents of the other vector, itself included |
| BoundedVector.Equal | CL/cl.hpp:802-814 | true if and only if the contents are equal |
| OwnedString.String.FromChars | CL/cl.hpp:506-520 | the characters given, terminated in an own buffer; what the header promises holds if and only if the pointer is not null or the size is 0, and otherwise null is read from |
| OwnedString.NullWithSize | CL/cl.hpp:506-520 | a null pointer with a size of 1 is read from |
| OwnedString.Fitted | CL/cl.hpp:555-566 | a resized text keeps its characters as far as it goes and has NULs after them |
| OwnedString.String.FromText | CL/cl.hpp:527-540 | the characters before the terminator, empty for null |
| OwnedString.String.Resize | CL/cl.hpp:542-573 | keeps the first min(size, n) characters and fills with NULs; every copy and fill in bounds; buffer null iff empty, else size + 1 cells ending in NUL |
| OwnedString.String.Assign | CL/cl.hpp:591-620 | the other string's text in an own buffer, the other untouched, self-assignment harmless |
| OwnedString.String.Copy | CL/cl.hpp:626-631 | an equal string with an own buffer |

## Left out

- Legacy send, receive, open and change blocks: the genesis block is the only block that is not universal.
- Frontier table, successor links, timestamps, statistics, cached block and account counters, the list of rolled-back blocks, the epoch-2 callback.
- Signatures, hashing and proof of work: booleans, a field and a number of the block; hashes are assumed neither zero nor equal to an epoch link.
- The confirmation-height processor: cementing is an event that only rises and never overtakes a source.
- What becomes of a ledger after a rollback that left a receive without its send: `Process` computes the same tables on it, but no invariant is claimed for what follows.
- UndoneSupply: not for the genesis block, nor for a receive whose send is gone; both are cemented, and the visitor is never run on them.
- Failing retain and release calls, except the early return of `AssignThenRetain`, and the mutable `operator()()` that exposes a raw handle.
- AssignThenRetain: vectors are values, so the order in which `assign` releases old slots is not modelled; no result depends on it.
- `Device::getDefault` of CL/cl.hpp, exceptions-enabled builds, weak memory, `unitTestClearDefault`, contexts without devices in `Device::makeDefault`.
- GetVersion: the shift and bitwise or are written as multiplication and addition, equal because each half fits.
- The mutable `back()` at CL/cl.hpp:1024-1027, which indexes one past the last item, and element types with destructors.
- Allocation failure in `cl::string`, and writes through `operator[]`.
- HTTP requests, argument parsing, printing and floating-point rounding of the script; weights are whole and not negative, the share is computed exactly.
- RecordWeights: a script that ends in an exception yields nothing, though its file may hold a part.
- The other headers of CL, the remaining classes of both wrappers, the network, wallet, voting and RPC code of the node: declarations, one-call wrappers, or outside the core modelled here.
