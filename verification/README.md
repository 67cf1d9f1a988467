# The core of the JC virtual machine: a verified model

This project models the four parts of JC (a Java virtual machine written in C) in which its
hard invariants live, and proves what those parts promise. `dafny verify dfyconfig.toml`
checks everything.

* **Garbage collection** (`GcShape`, `GcGraph`, `GcMeaning`, `ScanStack`, `GcTrace`, `GcCollect`). The
  collector traces twice, first what is live and then what only finalizable objects reach,
  with an explicit stack of lists kept in linked frames. It then sweeps the heap and unloads
  class loaders. The main theorem is about one whole collection (`GcCollect.Collect`): the
  marks are exactly reachability, exactly the rest is freed, and what is left refers only to
  what is left. `GcMeaning` says once more, by paths through the words of objects, what is
  reached and what becomes of a referent, and `Collect` is proved against that as well.
  `ScanStack`, `Collector` and the sweep are imperative, as in the source; `GcShape` holds
  the tri-colour reasoning.
* **Object monitors** (`MonitorModel` and the other `Monitor` modules). Thin locks taken by
  compare-and-swap, contention flags and waiter lists kept per owner, and inflation to fat
  locks, as a step relation over threads. Every access to shared memory is a step of its own
  (sequential consistency), so the theorems of `MonitorRuns` hold in every interleaving and
  for any number of threads and locks. `MonitorLocking` says what a whole call to lock or
  unlock comes to, and `MonitorWaking` what a release does for those who wait.
  `MonitorStranded` decides for every initial state
  whether some run leaves a waiter behind.
* **Bytecode and dispatch** (`Bytecode`, `BytecodeParser`, `BytecodeResolve`, `InsnMachine`, `Interp`,
  `InstructionMeaning`, `CodeLayout`, `CodeReading`, `CodeParsing` and the modules beside them; `Classes`, `MethodTables`, `HashBuckets`, `InterfaceTables`,
  `InstanceOf`). `ByteMachine` runs a method from its bytes as chapter 6 of the Java Virtual
  Machine Specification, 2nd edition, describes the instructions. The parser (two passes, an
  offset map), the resolver and the interpreter (a stack of words changed in place, string
  constants rewritten when first run) are proved equal to `ParseCode`, `ResolveAll` and
  `InsnRun`, and `BytecodeRun` proves that this form simulates the bytes. `CodeLayout` lays
  instructions out in bytes without regard to the parser, and `CodeParsing` proves that the
  parser accepts exactly what can be laid out so, and gives it back. `InstructionMeaning`
  says opcode by opcode what the instructions do. The dispatch tables are proved to agree
  with plain searches of the class hierarchy.
* **Memory** (`HeapSizes`, `HeapPages`, `HeapSweep`, `ObjectHead`, `ObjectLookup`, `LoaderMemory`,
  `RefLists`, `FieldLayout`, `Utf`). The heap's pages and blocks, the sweep over them, object
  headers, the stack-like allocator of class loader memory, sorted reference lists, field
  offsets, and modified UTF-8 (section 4.4.7 of the Java Virtual Machine Specification, 2nd edition).

Each imperative part is a class or a method over arrays whose `ensures` ties it to a
function or predicate, and the lemmas prove what is promised about that.

## Where the code falls short

Eight promises are false of the code. In each case the model keeps the code as it is, there
is a concrete counterexample, and the exact condition is proved.

| promise | counterexample | exact condition |
|---|---|---|
| a lock attempt never uses thread table entry 0 | `FaultReachable` | `FaultExactly`: the word read was unlocked and the compare-and-swap then failed |
| whoever waits is on the list of a thread that will wake it | `StrandedExample`: two threads, 33 objects and 33 fat locks | `StrandedExactly`: in runs from a given initial state it can fail for a list of thread `o` exactly when there are at least two threads and both the lock table and the objects number more than `32 * o` |
| a collection leaves no dangling reference | `ClassDangles`: a weak reference to a class whose loader goes | `CollectedWellFormed`: no kept Reference refers to a Class instance whose loader is unmarked |
| removing duplicates from a sorted table removes all | `RepetitionLeft` | `DistinctExact`: no entry stands three times |
| assignability of arrays | `FewerDimensions` | `DecidedExact`: not two arrays, the first with fewer dimensions, whose element types agree |
| resetting loader memory to a mark restores it | `FullChunk` | `ResetExact`: there was no chunk at the mark, or the last one was not exactly full |
| an interface call finds the nearest implementation | `CollidingCall` | `InterfaceCall`: no two implementations have the same hash |
| encoding what was decoded gives back the bytes | `Overlong` | `DecodeEncode`: the bytes are in shortest form |

## Model

| member | source | states |
|---|---|---|
| GcCollect.Collect | libjc/gc_scan.c:33-340 | After a collection exactly the objects and loaders that neither the roots nor an object to be finalized reach are gone; a kept Reference has its referent exactly if the roots reach it, it is a Class instance, or the reference is phantom and it is kept, and every other word of every survivor is as it was; the survivors refer only to survivors exactly when no kept Reference has lost its class |
| GcCollect.MarkAll | libjc/gc_scan.c:131-214 | LIVE is exactly what the roots reach, KEEP exactly that and what unreachable finalizable objects reach; the count is the number of unmarked finalizable objects |
| GcCollect.MarkFinalizable | libjc/gc_scan.c:141-214 | The second trace marks exactly what the unreachable finalizable objects reach, and their count is repaired |
| GcCollect.ClearMarks | libjc/gc_scan.c:123-129 | All marks are clear and every finalizable object is counted |
| GcCollect.FinalizerRoots | libjc/gc_scan.c:154-201 | The roots of the second trace, split over the reused list and a second one, are the finalizable objects that are not live |
| GcCollect.MarksMean | libjc/gc_scan.c:131-214 | The marks, told by paths through the words: LIVE is what the roots reach, KEEP what they or an object to be finalized reach, where weak and phantom referents (and, if memory is short, soft ones) are no words to follow |
| GcCollect.CollectedMeans | libjc/gc_scan.c:216-337 | So is what the collection leaves: which objects, which loaders, and each of their words |
| GcCollect.Sweep | libjc/gc_scan.c:216-322 | Exactly what is not kept is freed and referents are cleared as if all were decided at once, although the sweep has already freed some of them |
| GcCollect.UnloadLoaders | libjc/gc_scan.c:325-337 | Exactly the unmarked loaders go, with the Class instances in their memory |
| GcCollect.ReferentAfterSweep | libjc/gc_scan.c:241-282 | A referent still there after the sweep is live, a Class instance (which always reads as live), or phantom and kept |
| GcCollect.CollectedWellFormed | libjc/gc_scan.c:216-337 | Objects and loaders left form a closed graph exactly when no kept Reference refers to a class whose loader goes |
| GcCollect.ClassDangles | libjc/gc_scan.c:246-250 | A weak reference to a class of another loader survives that loader, however the collection marks |
| GcCollect.KeptExact | libjc/gc_scan.c:131-214 | The two traces together mark exactly the union of both reachable sets |
| GcCollect.FinalizersKept | libjc/gc_scan.c:203-214 | After the second trace no finalizable object is unmarked |
| GcTrace.Collector.Trace | libjc/gc_scan.c:574-904 | When a trace ends the new marks on objects and loaders are exactly those reachable over strong edges from the roots; LIVE is set with KEEP when asked for |
| GcTrace.Collector.Turn | libjc/gc_scan.c:588-895 | One turn keeps the tracing invariant and decreases (unmarked items, pending entries, height of the stack) |
| GcTrace.Collector.Scan | libjc/gc_scan.c:608-895 | What is marked and pushed for each kind of object |
| GcTrace.Collector.MarkObject | libjc/gc_scan.c:493-532 | Sets the marks asked for and keeps the count of finalizable objects |
| GcTrace.Collector.PushFields | libjc/gc_scan.c:628-704 | All reference words are pushed except the referent of a weak or phantom Reference, and of a soft one if memory is short |
| GcTrace.Collector.FrameList | libjc/gc_scan.c:724-778 | The classes in a saved stack trace whose loaders are still unmarked |
| GcTrace.Collector.MarkLoader | libjc/gc_scan.c:814-885 | A loader is marked and exactly its explicit and implicit references become pending |
| GcTrace.Collector.MarkLoaders | libjc/gc_scan.c:787-819 | A ClassLoader object marks both its own loader and the one it stands for, each once |
| GcTrace.GetExplicitRefs | libjc/gc_scan.c:914-986 | Exactly the non-null references of Class instances and reference-valued static fields |
| GcMeaning.ReachableMeans | libjc/gc_scan.c:574-904 | What the trace counts as reachable is what a path through words, loaders and classes leads to once those referents are nulled |
| GcMeaning.SoftKept | libjc/gc_scan.c:687-690 | Unless memory is short, what a live soft Reference refers to is live |
| GcMeaning.SoftStays | libjc/gc_scan.c:687-690 | And the collection leaves the words of such a Reference as they were |
| GcMeaning.WeakIgnored | libjc/gc_scan.c:691-704 | What a weak or phantom Reference refers to makes no difference to what is reached |
| GcShape.FinishedMarksExact | libjc/gc_scan.c:574-904 | With nothing pending, marks that cover their successors and are grounded in the roots are exactly reachability |
| GcShape.ClosedSetHoldsReachable | libjc/gc_scan.c:574-904 | A set closed under edges that holds the roots holds everything reachable |
| ScanStack.Stack.Push | libjc/gc_scan.c:538-568 | Chunked frames behave as one stack: a pushed list is on top, also when a new frame is needed |
| ScanStack.Stack.Take | libjc/gc_scan.c:589-612 | Takes the first entry of the top list and nothing else |
| ScanStack.Stack.Pop | libjc/gc_scan.c:600-607 | Drops the exhausted top list, moving down a frame where needed, and tells when all is done |
| MonitorRuns.RunInv | libjc/lock.c:18-494 | The invariant holds in every state of every run |
| MonitorRuns.OneOwner | libjc/lock.c:18-318 | An object has at most one owner, and the thin count plus one or the fat count is its acquisitions minus its releases, across overflow and inflation |
| MonitorRuns.UnlockExactly | libjc/lock.c:232-318 | An unlock takes back one acquisition, or changes nothing and throws if the thread has none |
| MonitorLocking.LockStep | libjc/lock.c:18-224 | Every step of a lock attempt goes on with nothing acquired, hits the fault, or ends the attempt with exactly one acquisition more and the thread as owner; it is refused only with the count at its largest or when no fat lock can be had |
| MonitorLocking.LockReturns | libjc/lock.c:18-224 | So a whole call to lock that returns, whatever other threads do meanwhile, has acquired the object once, unless it was refused |
| MonitorLocking.UnlockReturns | libjc/lock.c:232-368 | A whole call to unlock takes back exactly one acquisition, or none if there was none |
| MonitorLocking.NothingHeld | libjc/lock.c:18-368 | At all other points of the code what is held stays as it is |
| MonitorWaking.FlagExact | libjc/lock.c:85-124 | In every state of every run, when nobody is at a thread's list its contention flag is set exactly when someone is on the list |
| MonitorWaking.EveryoneServed | libjc/lock.c:326-368 | When a releasing thread is through with its list, everyone there waits for the object released or for one whose lock is fat by now, unless an inflation has failed |
| MonitorRuns.FatLocksPlaced | libjc/lock.c:374-494 | A fat lock serves at most one object; on the free list it serves none and is unowned |
| MonitorRuns.NoLostWakeup | libjc/lock.c:85-168 | The contention flag is set, and whoever waits on a thread's list waits for an object that thread holds, or the thread is on its way to emptying the list, or the object's fat lock has the thread's id in its high bits; the last only once such a lock has been made |
| MonitorRuns.NobodyWaitsForIdle | libjc/lock.c:326-368 | A thread that holds nothing and is outside the locking code has nobody waiting on it, as long as no lock with its id in the high bits has been made |
| MonitorRuns.ReleaseProgress | libjc/lock.c:257-368 | Each step of a releasing thread brings it nearer to having emptied its list |
| MonitorRuns.BlockedExactly | libjc/lock.c:18-368 | The only threads that cannot go on are behind another owner, asleep on a list, behind a mutex whose holder can go on, or at the fault |
| MonitorRuns.SectionGoesOn | libjc/lock.c:85-168 | Whoever holds a waiter-list mutex can always take its next step |
| MonitorRuns.FaultExactly | libjc/lock.c:85-90 | When a lock attempt looks up the thread with id 0 |
| MonitorRuns.FaultReachable | libjc/lock.c:31-90 | Two threads racing for an unlocked object reach that point |
| MonitorSafety.PassesOwned | libjc/lock.c:99-115 | When the recheck passes the thread owns the object, or the word is a fat one with the thread's id in its high bits |
| MonitorStranded.StrandedExactly | libjc/lock.c:85-168 | From which initial states some run leaves a waiter asleep on the list of a thread that holds nothing, while nobody holds what it waits for; and some run puts a waiter on a wrong list at all: from the same ones |
| MonitorStranded.MisplacedNeeds | libjc/lock.c:99-115 | A waiter on a wrong list, in any state of any run, needs two threads and a table and objects for more than 32 locks for each smaller thread id |
| MonitorStranded.Strand | libjc/lock.c:18-368 | A run that gets there from every initial state with as much |
| MonitorStranded.StrandedExample | libjc/lock.c:18-368 | A run of two threads over 33 objects that leaves one of them behind |
| MonitorStranded.RunPlaced | libjc/lock.c:374-494 | In every state of every run each fat lock made is free, on an object or in the hands of an inflating thread, and there are no more of them than objects |
| MonitorStranded.RoomLeft | libjc/lock.c:374-430 | A lock made because none is free leaves an object without one |
| MonitorPaths.Overflow | libjc/lock.c:57-83 | One lock more than the thin count holds turns the lock into a fat one held once more |
| MonitorPaths.UnlockAll | libjc/lock.c:232-318 | Unlocking as often as held frees a fat lock |
| MonitorPaths.Enlist | libjc/lock.c:85-124 | A thread that has seen an owner joins its list if the word still reads like that owner |
| MonitorInvariant.StepSound | libjc/lock.c:18-494 | Every step keeps lockwords, fat locks and what each thread knows of them in order |
| MonitorInvariant.FattenSound | libjc/lock.c:374-470 | Storing a fat lockword keeps owner and count |
| MonitorInvariant.RecycleSound | libjc/gc_scan.c:307-311 | So does recycling the fat lock of a dead object |
| MonitorSafety.StepQueued | libjc/lock.c:85-368 | Every step keeps flags, lists and mutexes in order |
| MonitorSafety.RecycleQueued | libjc/gc_scan.c:307-311 | So does recycling |
| MonitorQueue.WakingOwns | libjc/lock.c:326-368 | A waking thread inflates only thin locks it owns |
| CodeParsing.ParseExact | libjc/cf_parse.c:948-1101 | A method is accepted exactly when its bytes are the layout of legal instructions whose targets are instructions, and its exception ranges start and end on instructions (or end with the code) and are not empty |
| CodeParsing.ParseAssembled | libjc/cf_parse.c:1135-1626 | Laying out such instructions and parsing gives back those instructions and ranges, with targets as indices |
| CodeReading.DecodeEncoded | libjc/cf_parse.c:1160-1555 | Where the bytes of a legal instruction stand, that instruction is read: every format, pool kind, local, array kind, padded switch |
| CodeReading.EncodeDecoded | libjc/cf_parse.c:1160-1555 | Whatever is read is the bytes of a legal instruction |
| BytecodeParser.ParseMethod | libjc/cf_parse.c:948-1101 | The two passes over arrays accept and produce exactly what ParseExact and ParseAssembled speak of |
| BytecodeParser.ParseState.constructor | libjc/cf_parse.c:1135-1149 | Parsing starts at offset 0 |
| BytecodeParser.ParseState.ParseInsn | libjc/cf_parse.c:1160-1555 | Each instruction is decoded, or rejected, by the format of its opcode, and the position moves behind it |
| BytecodeParser.ParseState.ParseWide | libjc/cf_parse.c:1515-1545 | The wide forms become the plain ones with a 16-bit index |
| BytecodeParser.ParseState.ParsePool | libjc/cf_parse.c:1317-1353 | Constant pool operands are accepted exactly when the entry is there and of the right kind |
| BytecodeParser.ParseState.ParseLookup | libjc/cf_parse.c:1354-1412 | Accepted exactly with zero padding, a count that is not negative, and strictly ascending keys |
| BytecodeParser.ParseState.ParseTable | libjc/cf_parse.c:1413-1468 | Accepted exactly with zero padding and bounds in order |
| BytecodeParser.ParseState.ParsePairs | libjc/cf_parse.c:1396-1411 | The pairs read, and whether they ascend |
| BytecodeParser.ParseState.ParseTargets | libjc/cf_parse.c:1461-1467 | The targets read |
| BytecodeParser.ParseState.ParsePadding | libjc/cf_parse.c:1362-1373 | Skips to a multiple of four over zero bytes only |
| BytecodeParser.ParseState.ParseImmediate | libjc/cf_parse.c:1268-1272 | One- and two-byte operands, sign-extended |
| BytecodeParser.ParseState.ParseBranch | libjc/cf_parse.c:1280-1309 | Branch offsets become byte targets; the wide branches become the plain ones |
| BytecodeParser.ParseState.ParseLocal8 | libjc/cf_parse.c:1652-1666 | An index below the number of locals |
| BytecodeParser.ParseState.ParseLocal16 | libjc/cf_parse.c:1672-1686 | The same for two bytes |
| BytecodeParser.ParseState.ParsePool16 | libjc/cf_parse.c:1710-1746 | A pool index of an allowed kind |
| BytecodeParser.ParseState.ParseUint8 | libjc/cf_parse.c:1941-1951 | One byte, or failure at the end |
| BytecodeParser.ParseState.ParseUint16 | libjc/cf_parse.c:1924-1938 | Two bytes, big-endian |
| BytecodeParser.ParseState.ParseInteger | libjc/cf_parse.c:1809-1818 | Four bytes, signed |
| BytecodeParser.Decode | libjc/cf_parse.c:1147-1559 | The first pass fills the instruction array in order and an offset map that is exactly the instruction starts |
| BytecodeParser.MapOffset | libjc/cf_parse.c:1632-1646 | An offset maps to the index of the instruction that starts there; 0 always maps to 0 |
| BytecodeParser.MapOffsets | libjc/cf_parse.c:1597-1622 | All targets of a switch, or failure |
| BytecodeParser.MapTargetsOf | libjc/cf_parse.c:1560-1622 | The targets of one instruction |
| BytecodeParser.Link | libjc/cf_parse.c:1560-1626 | The second pass rewrites targets in place and rejects the method exactly when one is no instruction start |
| BytecodeParser.ParseTraps | libjc/cf_parse.c:1015-1046 | Trap bounds as indices; the end may be the end of the code, and empty ranges are rejected |
| BytecodeResolve.ResolveInsns | libjc/resolve2.c:567-1033 | In place: no constant is left to look up, what was pushed still is, and every other instruction with its targets stays |
| BytecodeResolve.ResolveInsn | libjc/resolve2.c:576-1021 | The same for one instruction, opcode by opcode |
| BytecodeResolve.ResolvedMethod | libjc/resolve2.c:567-1033 | For every method the parser accepts all constants can be resolved: nothing is left over |
| BytecodeResolve.DecodedInPool | libjc/cf_parse.c:1332-1353 | A decoded constant is in the pool and can be pushed |
| BytecodeSim.DecodeSame | libjc/cf_parse.c:1160-1555 | Every accepted instruction does the same decoded and resolved as it does in its bytes |
| BytecodeSim.LookupTarget | libjc/interp.c:1222-1233 | The binary search of a lookupswitch finds what a search of its bytes in order finds |
| BytecodeSim.TableTarget | libjc/interp.c:1477-1485 | A tableswitch picks the target its bytes give |
| BytecodeSim.BSearchExact | libjc/interp.c:1579-1585 | The binary search over ascending keys finds a key exactly when it is there |
| BytecodeRun.SweepChained | libjc/cf_parse.c:1156-1558 | Accepted instructions follow one another from offset 0 to the end of the code |
| BytecodeRun.StartsIncrease | libjc/cf_parse.c:1163-1166 | Offsets of instruction starts increase strictly with their indices |
| BytecodeRun.TargetExact | libjc/cf_parse.c:1632-1646 | A target is accepted exactly when an instruction starts there, and becomes its index |
| BytecodeRun.OrderAgrees | libjc/cf_parse.c:1015-1046 | Offsets and indices are ordered alike, so ranges mean the same in both |
| BytecodeRun.TrapMapped | libjc/cf_parse.c:1015-1046 | A trap covers an index exactly when it covers the offset |
| BytecodeRun.HandlerMapped | libjc/interp.c:1505-1539 | The handler chosen by index is the one chosen by offset |
| BytecodeRun.StepSimulates | libjc/interp.c:323-1539 | One instruction of the bytes is one step of the interpreter, or two when a string constant runs for the first time |
| BytecodeRun.RunSimulates | libjc/interp.c:323-1539 | Every run over the bytes of an accepted method is matched by a run of the decoded, resolved and self-rewriting form |
| BytecodeRun.ResultExact | libjc/interp.c:102-1573 | The method returns, throws or gets stuck in the interpreter exactly as it does over its bytes |
| Interp.Interpret | libjc/interp.c:102-1573 | The loop over the words and the code array, both changed in place, is the run of the decoded machine |
| Interp.Dispatch | libjc/interp.c:323-1539 | One instruction, and on an exception the jump to its handler with only the exception on the stack |
| Interp.FindHandler | libjc/interp.c:1505-1539 | The first trap that covers the instruction and catches the exception |
| Interp.Activation.ExecInsn | libjc/interp.c:323-1485 | Every instruction changes locals and stack as its meaning says |
| Interp.Activation.ExecBasic | libjc/interp.c:323-1476 | The same for instructions without operands |
| Interp.Activation.ComputeUnary | libjc/interp.c:783-806 | Conversions and negation replace the top word |
| Interp.Activation.ComputeBinary | libjc/interp.c:807-844 | Integer arithmetic replaces the two top words; a zero divisor throws |
| Interp.Activation.Branch | libjc/interp.c:845-892 | Operands are popped and the branch taken or not |
| Interp.Activation.Switch | libjc/interp.c:1222-1233 | The key is popped and its target chosen |
| Interp.Activation.LoadLocal | libjc/interp.c:896-898 | One or two words of locals are pushed |
| Interp.Activation.StoreLocal | libjc/interp.c:1101-1104 | One or two words are popped into locals |
| Interp.Activation.BumpLocal | libjc/interp.c:893-895 | A local is incremented, wrapping around |
| Interp.Activation.LeaveMethod | libjc/interp.c:1089-1092 | The value returned is the top of the stack |
| Interp.Activation.ThrowTop | libjc/interp.c:402-407 | Throws the top of the stack, or a NullPointerException for null |
| Interp.Activation.Shuffling | libjc/interp.c:570-608 | The dup family, pop and swap, done word by word, permute and copy as specified |
| Interp.Activation.Dup2X2 | libjc/interp.c:600-608 | The longest of them |
| Interp.Activation.Dup2X1 | libjc/interp.c:592-599 | Two words copied below the third |
| Interp.Activation.DupX2 | libjc/interp.c:580-586 | One word copied below the third |
| Interp.Activation.Swap | libjc/interp.c:1468-1476 | The two top words change places |
| InstructionMeaning.OneWordBranches | libjc/interp.c:869-892 | ifeq to ifle, ifnull and ifnonnull pop a word and jump exactly if it is ==, !=, <, >=, > or <= 0 |
| InstructionMeaning.TwoWordBranches | libjc/interp.c:845-868 | The if_icmp and if_acmp instructions pop two words and jump exactly if the lower is in that relation to the upper |
| InstructionMeaning.OtherBranches | libjc/interp.c:781-782 | goto jumps |
| InstructionMeaning.LookupMeans | libjc/interp.c:1222-1233 | A lookupswitch pops its key and goes to the target paired with it, or to the default |
| InstructionMeaning.TableMeans | libjc/interp.c:1477-1485 | A tableswitch goes to the target at the key's place between its bounds, or to the default |
| InstructionMeaning.BinaryMeans | libjc/interp.c:807-844 | iadd, isub, imul, idiv, irem, the shifts, iand, ior and ixor put the specified result for the two top words; division by zero throws |
| InstructionMeaning.UnaryMeans | libjc/interp.c:783-806 | ineg, i2b, i2c and i2s put the one word in range that is congruent |
| InstructionMeaning.LoadsMean | libjc/interp.c:896-898 | A load pushes the local, or for a long or double both its words |
| InstructionMeaning.StoresMean | libjc/interp.c:1101-1104 | A store pops one word into the local |
| InstructionMeaning.LongStoresMean | libjc/interp.c:1256-1259 | A store of a long or double pops two |
| InstructionMeaning.IncrementMeans | libjc/interp.c:893-895 | iinc adds to the local, modulo 2 to the 32 |
| InstructionMeaning.ShufflesMean | libjc/interp.c:570-608 | pop, pop2, the dup family and swap, on named words |
| InstructionMeaning.ConstantsMean | libjc/resolve2.c:576-1021 | The instructions with constants of their own push those, once resolved |
| InstructionMeaning.PoolMeans | libjc/interp.c:1168-1204 | ldc and ldc2_w push what their pool entry stands for |
| InstructionMeaning.ReturnMeans | libjc/interp.c:1089-1092 | ireturn, freturn and areturn return the top word |
| InstructionMeaning.LongReturnMeans | libjc/interp.c:1244-1247 | lreturn and dreturn return the two top words |
| InstructionMeaning.VoidReturnMeans | libjc/interp.c:1442-1443 | return returns nothing |
| InstructionMeaning.ThrowMeans | libjc/interp.c:402-407 | athrow throws the top word, or a NullPointerException for null |
| InstructionMeaning.HandlerFirst | libjc/interp.c:1505-1539 | The handler is that of the first entry that covers the instruction and catches the exception |
| InstructionMeaning.ThrowSettles | libjc/interp.c:1505-1539 | Execution goes on there with the exception alone on the stack, or the exception leaves the method |
| InstructionMeaning.OthersSettle | libjc/interp.c:1495-1573 | Jumping and returning end an instruction as they should |
| InstructionMeaning.ExternalMeans | libjc/interp.c:323-1485 | All other instructions are handed out with their operands |
| WordArithmetic.BitsExact | libjc/interp.c:823-826 | iand, ior and ixor combine words bit by bit |
| WordArithmetic.WrapExact | libjc/interp.c:807-810 | A result is the one word congruent to it modulo 2 to the 32 |
| WordArithmetic.DivisionExact | libjc/interp.c:839-844 | Quotient and remainder satisfy the division identity, the quotient rounding toward zero; the one quotient that does not fit wraps around |
| WordArithmetic.ShiftsExact | libjc/interp.c:1093-1112 | Shifts multiply, divide rounding down, and shift in zeros, by the low five bits of the count |
| WordArithmetic.ConvertExact | libjc/interp.c:783-806 | Narrowing keeps the low-order bits, sign-extended or not |
| Classes.LookupExact | libjc/resolve2.c:1499-1532 | The search of a class's sorted methods finds the instance method of a name and signature exactly when the class declares one |
| Classes.SearchExact | libjc/resolve2.c:1499-1515 | The binary search finds a key exactly when it is there |
| Classes.NearestExact | libjc/resolve.c:186-205 | The nearest declaration is one in a class on the way up before which none declares the method, and there is none only if no class on the way does |
| Classes.NearestPublicExact | libjc/resolve2.c:1117-1121 | The same for the nearest public declaration |
| MethodTables.AssignSlots | libjc/derive2.c:242-252 | A class's own virtual methods take the slots behind the inherited ones, in order |
| MethodTables.ResolveVtable | libjc/resolve.c:146-209 | Every slot ends up with the nearest declaration of the method it was made for |
| MethodTables.OverrideAll | libjc/resolve.c:186-205 | A method replaces every inherited entry of its name and signature and no other |
| MethodTables.OneOwner | libjc/derive2.c:242-252 | A slot belongs to one method of one class in a chain |
| MethodTables.VirtualCall | libjc/interp.c:1005-1013 | A virtual call on any instance runs the method of the first class on the way up that declares one |
| MethodTables.Devirtualized | libjc/resolve2.c:883-886 | Calling a method of a final class directly runs the same method |
| MethodTables.VtableIndex | libjc/derive2.c:242-252 | The index of a method is a slot of its own class |
| HashBuckets.Dedupe | libjc/resolve2.c:1137-1147 | The in-place pass keeps what Squeeze says |
| HashBuckets.RemoveAt | libjc/resolve2.c:1145-1146 | One entry goes, the rest moves down |
| HashBuckets.SqueezeElements | libjc/resolve2.c:1297-1306 | The set of entries stays |
| HashBuckets.SqueezeExact | libjc/resolve2.c:1137-1147 | No equal neighbours are left exactly when no three stood in a row |
| HashBuckets.DistinctExact | libjc/resolve2.c:1134-1147 | Of a sorted table every entry is left once exactly when none stands three times |
| HashBuckets.RepetitionLeft | libjc/resolve2.c:1137-1147 | Three equal entries leave two |
| HashBuckets.LinkEntry | libjc/resolve2.c:1160-1175 | An entry becomes the head of its bucket, and whether it was the first or the second there |
| HashBuckets.LinkBuckets | libjc/resolve2.c:1156-1175 | Bucket chains hold exactly the entries hashing to them, and the counts of non-empty and one-entry buckets are right |
| HashBuckets.FillBucket | libjc/resolve2.c:1214-1222 | A chain is written out as a run of cells with an empty one behind it |
| HashBuckets.FillTable | libjc/resolve2.c:1205-1231 | The runs use up the cells exactly and every bucket starts its own |
| HashBuckets.TotalExact | libjc/resolve2.c:1156-1175 | Every entry is in exactly one bucket |
| InterfaceTables.AddIfaceMethods | libjc/resolve2.c:1456-1493 | Writes the methods of all interfaces of a class, however inherited, at the given place |
| InterfaceTables.IfaceMethodsExact | libjc/resolve2.c:1456-1493 | That is exactly the instance methods of every interface the class has |
| InterfaceTables.Gather | libjc/resolve2.c:1086-1109 | Along the whole superclass chain |
| InterfaceTables.FindPublic | libjc/resolve2.c:1117-1128 | The nearest public instance method of a name and signature up the chain |
| InterfaceTables.Implement | libjc/resolve2.c:1111-1132 | Each interface method is replaced by its implementation; fails exactly when one has none |
| InterfaceTables.FillQuick | libjc/resolve2.c:1191-1203 | The quick entry of a bucket is set exactly when the bucket has one method |
| InterfaceTables.BuildTables | libjc/resolve2.c:1149-1235 | Bucket table and quick table of the implementations |
| InterfaceTables.DeriveTables | libjc/resolve2.c:1069-1235 | The whole derivation; fails exactly when an interface method has no public implementation |
| InterfaceTables.LookupInterface | libjc/c_support.c:216-242 | The slow call finds the first entry of the bucket with the hash |
| InterfaceTables.InterfaceCall | libjc/c_support.c:216-242 | Every interface method leads to its nearest public implementation exactly when hashes do not collide |
| InterfaceTables.QuickCall | include/jc_defs.h:653-669 | A quick entry runs the same function as the slow call |
| InterfaceTables.QuickCallNearest | include/jc_defs.h:653-669 | So a quick call always runs the nearest public implementation, whether or not hashes collide |
| InterfaceTables.CollidingCall | libjc/c_support.c:216-242 | An interface of two methods with one hash, one of which is called in place of the other |
| InstanceOf.Collect | libjc/resolve2.c:1253-1292 | What is collected is everything above the class, over superclasses and interfaces |
| InstanceOf.CollectInterfaces | libjc/resolve2.c:1259-1276 | The part of one class's interfaces, taken from their finished tables |
| InstanceOf.AllEntries | libjc/resolve2.c:1264-1275 | Reading every bucket of a table meets exactly its entries |
| InstanceOf.DeriveTable | libjc/resolve2.c:1241-1373 | The table holds, as a set, exactly what is above the class |
| InstanceOf.InTable | libjc/instance.c:52-81 | The bucket scan finds a class exactly when the table holds it |
| InstanceOf.AssignableFrom | libjc/instance.c:20-81 | The loop over array dimensions and the table decides as Decided says |
| InstanceOf.DecidedExact | libjc/instance.c:20-81 | That is assignment compatibility, except for two arrays of which the first has fewer dimensions |
| InstanceOf.FewerDimensions | libjc/instance.c:37-51 | An int[] passes for an int[][] |
| InstanceOf.SubclassOf | libjc/instance.c:109-125 | Decides the superclass relation |
| HeapSizes.GenBlockSizes | libjc/heap.c:313-343 | Sizes increase, block counts decrease, and each size is the largest with its count, for every granularity |
| HeapSizes.RoundupBlockSize | libjc/heap.c:350-373 | The largest size with as many blocks as the size asked for; none exactly when fewer than two fit |
| HeapSizes.FewerBlocks | libjc/heap.c:350-373 | A larger size fits less often |
| HeapSizes.HeapBlockSize | libjc/heap.c:382-412 | The binary search finds the least size that is large enough, or the number of pages |
| HeapPages.Heap.Grow | libjc/heap.c:117-133 | New pages come into use as free pages |
| HeapPages.Heap.Claim | libjc/heap.c:158-190 | A run is taken as a whole or not at all; only true page words are read, and the search advances past every start that cannot succeed |
| HeapPages.Heap.Undo | libjc/heap.c:185-187 | A partial reservation leaves no trace |
| HeapPages.Heap.AllocPages | libjc/heap.c:92-202 | The first run of free pages from where the last search ended is taken; a collection is asked for only when there is none |
| HeapPages.Heap.TryHint | libjc/heap.c:229-248 | The hinted block is taken if free and the hint moves on inside its page |
| HeapPages.Heap.PopPage | libjc/heap.c:250-275 | The first page of a use-first list becomes the hint |
| HeapPages.Heap.NewPage | libjc/heap.c:277-304 | One free page becomes a page of one taken and otherwise free blocks |
| HeapPages.Heap.TakePage | libjc/heap.c:277-281 | Taking a page disturbs no page of small blocks, hint or list |
| HeapPages.Heap.InitSmall | libjc/heap.c:284-301 | The blocks and the page word of a new page |
| HeapPages.Heap.AllocSmall | libjc/heap.c:211-305 | The block returned was free, everything in use and all other sizes are as before, and nothing else is taken |
| HeapPages.Heap.FinishLarge | libjc/new.c:127-146 | The first page of a run says how long it is |
| HeapPages.Heap.AllocLarge | libjc/new.c:125-146 | A large object gets pages that were free, and everything in use is as before |
| HeapPages.ClaimedCut | libjc/heap.c:158-190 | The pages stay partitioned into free pages, small pages and runs |
| HeapPages.NextBoundary | libjc/heap.c:170-183 | Skipping a piece leads to the start of the next one |
| HeapPages.InPage | libjc/heap.c:350-373 | All blocks of a size fit in a page and one more never does |
| HeapPages.HintExact | libjc/heap.c:238-241 | The same-page test finds the end of the page exactly |
| HeapPages.BlocksApart | libjc/heap.c:211-305 | Different blocks do not overlap |
| HeapSweep.Sweep.constructor | libjc/inline.h:39-45 | A sweep starts in front of the first page |
| HeapSweep.Sweep.Next | libjc/inline.h:51-146 | The next occupied block or large object in address order; what is left to return is what was left but for it |
| HeapSweep.Sweep.FinishPage | libjc/inline.h:64-88 | A page without a kept block becomes free, any other heads its list |
| HeapSweep.Sweep.Advance | libjc/inline.h:58-106 | On to the next occupied block of the page |
| HeapSweep.Sweep.EnterPage | libjc/inline.h:125-134 | The first occupied block of a page |
| HeapSweep.Sweep.NextPage | libjc/inline.h:110-145 | Over free pages and pages being allocated to the next item |
| HeapSweep.Sweep.Dispose | libjc/gc_scan.c:226-322 | What is not kept is freed, as a block or as a run of pages |
| HeapSweep.Recycle | libjc/gc_scan.c:216-340 | Exactly the blocks and runs not kept are freed, pages without a kept block become free, runs being allocated stay, and the heap is fit for allocation again |
| HeapSweep.ListsExact | libjc/inline.h:64-88 | The pages of small blocks left, which are those on the use-first lists, are exactly those with a kept block |
| HeapSweep.Visit | libjc/gc_scan.c:123-129 | A sweep without recycling changes nothing |
| HeapSweep.VisitItems | libjc/inline.h:51-146 | A sweep returns exactly the occupied blocks and large objects, each once, in address order |
| HeapSweep.ItemsExact | libjc/inline.h:51-146 | The same from any page boundary on |
| ObjectHead.NotConfused | libjc/definitions.h:160-211 | Free, allocating, skip and lock words and references are never taken for one another |
| ObjectHead.FindObjectHead | libjc/inline.h:12-33 | The header is found from the block, with or without a skip word, whatever the references are |
| ObjectHead.InitializeObject | libjc/new.c:21-72 | A new object is zeroed, its header is where it will be looked for, and nothing else is written |
| ObjectHead.InitializeBsi | libjc/derive.c:865-889 | The smallest block is chosen, and the object fits in it together with any skip word |
| ObjectHead.StoresKeepHead | libjc/inline.h:12-33 | Storing references or changing lock bits keeps the header findable |
| ObjectHead.MarkInterior | libjc/gc_root.c:149-176 | The bitmap marks exactly the pages inside large objects |
| ObjectHead.LocateBlock | libjc/gc_root.c:35-115 | The walk from an address to its block |
| ObjectHead.SmallLocated | libjc/gc_root.c:35-115 | Every address in an occupied block leads to that block |
| ObjectHead.LargeLocated | libjc/gc_root.c:35-115 | Every address in a large object, on any page, leads to it |
| ObjectHead.LocatedInside | libjc/gc_root.c:35-115 | An address that leads to a block lies in it, or in front of the first block of its page |
| ObjectLookup.LocateObject | libjc/gc_root.c:35-115 | Every address inside an allocated object, on any page of it, leads to that object's header, and only headers are found |
| ObjectLookup.WithinLocated | libjc/gc_root.c:35-115 | An address lies in one object at most, the one its block is located for |
| LoaderMemory.Uni.constructor | libjc/cl_alloc.c:35-41 | An allocator starts without chunks |
| LoaderMemory.Uni.Ensure | libjc/cl_alloc.c:70-138 | A chunk is added exactly when there is no room and the budget and the system allow it |
| LoaderMemory.Uni.Reserve | libjc/cl_alloc.c:260-273 | The budget is taken from, and never below zero |
| LoaderMemory.Uni.Alloc | libjc/cl_alloc.c:147-166 | A block on top of the current chunk; pages available plus pages held stay the same |
| LoaderMemory.Uni.Unalloc | libjc/cl_alloc.c:177-205 | The last block goes back, with its chunk if that becomes empty; any other block is left |
| LoaderMemory.Uni.Free | libjc/cl_alloc.c:47-62 | Every page goes back to the budget |
| LoaderMemory.Uni.ResetTo | libjc/cl_alloc.c:291-312 | Back to a mark; the pages dropped go back to the budget |
| LoaderMemory.Uni.Covers | libjc/cl_alloc.c:241-254 | Whether an address lies in the allocator's memory |
| LoaderMemory.NewChunkWhen | libjc/cl_alloc.c:70-166 | A chunk is added exactly when the current one would be left without a byte to spare, of the least number of pages that does |
| LoaderMemory.AllocatedOk | libjc/cl_alloc.c:147-166 | Chunks stay apart and blocks are aligned |
| LoaderMemory.AllocatedApart | libjc/cl_alloc.c:147-166 | A new block overlaps nothing in use |
| LoaderMemory.UndoAlloc | libjc/cl_alloc.c:177-205 | Unallocating the last block restores chunks and offset exactly |
| LoaderMemory.UndoAll | libjc/cl_alloc.c:177-205 | So does unallocating any number of blocks in reverse order |
| LoaderMemory.ResetExact | libjc/cl_alloc.c:279-312 | Resetting to a mark after any allocations restores the state at the mark exactly when the marked chunk was not full |
| LoaderMemory.ResetAll | libjc/cl_alloc.c:279-312 | The same after any sequence of allocations |
| LoaderMemory.AllocatedGrows | libjc/cl_alloc.c:147-166 | An allocation leaves earlier chunks alone and only fills the current one or adds one |
| LoaderMemory.FullChunk | libjc/cl_alloc.c:302-304 | A full marked chunk is lost |
| LoaderMemory.SharedBudget | libjc/cl_alloc.c:260-273 | With several allocators on one budget, pages available plus pages held by all stay the same |
| RefLists.RefList.AddRef | libjc/resolve.c:831-872 | The list stays strictly sorted and gains exactly the reference |
| RefLists.RefList.Find | libjc/resolve.c:840-850 | The binary search finds the reference or the place for it |
| RefLists.RefList.Grow | libjc/resolve.c:852-863 | A larger array with the same entries |
| RefLists.RefList.ShiftUp | libjc/resolve.c:865-867 | Room at one place, all else in order |
| RefLists.Merge | libjc/class_loader.c:334-372 | The in-place merge leaves the strictly sorted union |
| RefLists.MergeBack | libjc/class_loader.c:343-358 | Merging from the back overwrites no entry that is still unread |
| RefLists.MergeLast | libjc/class_loader.c:349-358 | One step of that |
| RefLists.CloseGap | libjc/class_loader.c:366-372 | What was merged moves down behind what is in front |
| RefLists.MergeOne | libjc/class_loader.c:349-358 | The larger of the two last entries goes in front, equal ones once |
| RefLists.SortedUnique | libjc/class_loader.c:306-385 | A strictly sorted list is determined by its elements |
| FieldLayout.ComputeOffsets | libjc/derive2.c:160-196 | The loop over the fields gives the offsets, the instance size and the static size of the layout |
| FieldLayout.AlignTo | libjc/derive2.c:174-187 | Counting up stops at the first multiple of the alignment |
| FieldLayout.AlignUpExact | libjc/derive2.c:174-187 | That multiple is the least one |
| FieldLayout.ChainLaidOut | libjc/derive2.c:160-196 | Along every superclass chain all instance fields are aligned, inside the instance, off the header and off each other, and references fill the words below the header |
| FieldLayout.StartsWhereSuperEnds | libjc/derive2.c:160-167 | A class's fields start where instances of its superclass end |
| FieldLayout.StaticFields | libjc/derive2.c:173-177 | Static fields are aligned and disjoint |
| FieldLayout.Packed | libjc/derive2.c:173-187 | Each field lies at the first aligned offset behind those before it, and the last one ends the room taken |
| FieldLayout.Downward | libjc/derive2.c:180-182 | References follow each other downward from where the superclass's end |
| FieldLayout.ScannedExactly | libjc/inline.h:152-169 | The words the collector scans are exactly the reference fields, also when their number does not fit in the lockword |
| FieldLayout.RefCountField | libjc/derive.c:815-819 | The count kept in the lockword fits in its six bits |
| Utf.UtfDecode | libjc/utf.c:18-57 | Both passes report the number of characters, or -1 for invalid bytes; the buffer gets the characters |
| Utf.UtfEncode | libjc/utf.c:67-95 | Both passes report the number of bytes; the buffer gets the encoding |
| Utf.EncodeDecode | libjc/utf.c:18-95 | Decoding an encoding gives back every sequence of 16-bit characters, 0 included |
| Utf.DecodeEncode | libjc/utf.c:18-95 | Encoding what was decoded gives back the bytes exactly when they were in shortest form |
| Utf.DecodeExact | libjc/utf.c:18-57 | Bytes decode to some characters exactly when they are groups of one to three bytes that stand for them |
| Utf.EncodeLeast | libjc/utf.c:67-95 | Of all bytes that decode to given characters the encoding is the shortest |
| Utf.Overlong | libjc/utf.c:18-57 | A letter in two bytes is accepted and encoded in one |
| Utf.NoZeroByte | libjc/utf.c:67-95 | An encoding holds no zero byte |

## Left out

Garbage collection:

- Objects allocated on a thread's stack, and the parity of their visited bit.
- Failure inside a collection (memory for the scan stack or the lists cannot be had), statistics, verbose output, and waking the finalizer thread.
- The sanity check at `libjc/gc_scan.c:256-258`, which a soft reference that is only kept would break, is not part of the model.
- Finding the roots on thread stacks and in native references: the roots are a parameter.
- Changes to lockwords by the finalizer thread while the world is stopped. Mark bits are sets of objects, not bits of the lockword.

Monitors:

- The thread table of ids in use is fixed during a run: threads that end, and reuse of their ids, are not modelled.
- `wait` and `notify`, and interruption of a waiting thread.
- Condition variables are modelled as the state they wait for, so spurious wakeups do not occur.

Bytecode:

- jsr and ret, and instructions on objects, arrays, fields, methods, long and floating-point values: what they do is a parameter of the machines (`ext`), the same for the bytes and for the decoded form. Resolution of fields and methods belongs to it.
- The quotient of the least integer by -1 wraps around in the model; the C expression is undefined.
- A tableswitch whose bounds are more than 2 to the 31 apart overflows in C; the model rejects it when the table does not fit in the code.
- An instruction that runs past the end of the code is caught in the source by an assertion only; the model makes it a format error.
- Operand stack overflow and reading locals that do not exist end a run as stuck; verification of bytecode is not modelled. As in the source, the short forms of loads and stores are not checked against the number of locals when parsed, and opcode 0xe0, meant for internal use, is accepted.
- Line number tables, periodic thread checks, and synchronized methods.
- Interp.Activation.External: what `ext` hands back must keep the number of locals and the stack limit.

Dispatch:

- A class file that declares a method twice.
- The standard sort: it is a parameter that keeps the multiset of entries.
- InstanceOf.AssignableFrom: loading and resolving the classes involved on the way.

Memory:

- Each page allocation is atomic. A partial reservation that is undone carries a page count (`libjc/heap.c:166-187`), so a concurrent search could skip into a large object.
- Races of threads for a hint or a page list.
- Collections run from inside an allocation, and the exception when memory runs out: `None` stands for both. A heap of fewer than eight pages cannot grow in the source, and the model requires eight or all of them in use.
- HeapSweep.Sweep.Next: a page of a run being allocated still has its page word; the model does not describe a sweep of a heap in which another thread is writing an object over such words.
- ObjectLookup.LocateObject: no page and no block is being allocated, which the source asserts.
- HeapPages.Heap.FinishLarge: page words are values of a datatype, and the pages inside a large object read as its data. That free, allocating, skip and lock words are different bit patterns is proved in `ObjectHead`.
- The bitmap of interior pages is an array of booleans.
- LoaderMemory.Uni.Alloc: the address the system gives for new pages is a parameter; the chunk header is 16 bytes and the alignment 8.
- FieldLayout.ComputeOffsets: references have 4 bytes and the header 8; sizes and alignments of other types are parameters.
- Initialization of classes, arrays of several dimensions, and splay trees.
- JNI, signals, ELF loading, zip files and command line.
