# Verified models of the CSOS tree

The repository holds a small kernel, Linux 0.01 and the Lua 5.1.4 core. This project models the parts of them
whose correctness rests on an invariant, and proves what they keep. Code that changes its data in place is a
class here whose fields are the source's variables and whose methods follow the source's statements. Each method
promises its whole new state, and where a caller's view is simpler than the data structure that view is written
down separately and every run is shown to agree with it. `dafny verify dfyconfig.toml` checks everything.

## The models

**Lua's incremental collector** (`LuaHeap`, `LuaInvariants`, `LuaSweep`, `LuaStore`, `LuaMutate`, `LuaEvents`,
`LuaCollector`, `LuaMarkBits`, `LuaStack`). The object graph with strings, tables, userdata, both kinds of
closures, prototypes, threads and upvalues; the colours, the two whites, `gray`, `grayagain`, `rootgc`, the
string table, the open upvalues. `Collector.Run` interleaves single collector steps with any program: stores
with their barriers, writes to any stack without, allocation, interning (with revival of dead strings), loading
of functions, closures, `luaF_close`, fetches of anything that can be reached, calls and returns, thread
switches. `LuaEvents.Happened` says field by field what each of these does. Nothing reachable is ever freed, and
whatever any field of a live object names is alive, field by field and kind of object by kind of object.
`Collector.FullGC` ends, from any state, with exactly the reachable and the fixed objects. `CaptureRun` gets
from the initial state to a closure with an open upvalue. `LuaMarkBits` shows that the bit tricks of `lgc.h`
mean what the colours say, and `LuaStack` that moving a stack in memory changes nothing that the object graph
says of a thread.

**Copy-on-write paging** (`PageTables`, `PageSteps`, `PageRanges`, `PageFaults`, `AddressSpaces`, `Paging`).
Page directory, page tables in memory and the reference counts. The specification is a separate map for each
process, copied at fork. `Memory.Run` shows that loads, stores, forks, kernel writes, exits and running out of
memory look like that: over any run, each load yields the word that was last stored there, or 0. `verify_area`
and each kernel store after it are events of their own, between which other processes run, as they do while
`waitpid` and `read` sleep: what has been verified stays so. Counts are exact, a writable page has count 1, and
a fork that fails halfway leaves no trace.
Finding: `do_no_page` frees nothing when `put_page` fails. A page is lost exactly if one page is free before the
call and a page table is needed (`Memory.DoNoPage`). `LosePage` runs into this from the initial state: the
process has exited, nobody refers to the page, and it is not free.

**The MINIX file system's blocks** (`BlockTree`, `BlockSteps`, `BlockFree`, `FileSystem`). Inode zones, single-
and double-indirect tables inside the blocks, and the zone bitmap. Files are maps from block numbers to
contents; `Device.Run` shows that the tree under them agrees, that each read yields the word last written, that
no block has two places, and that the set bits are exactly the blocks in use.

**The code generator for logical expressions** (`LuaMachine`, `LuaRuns`, `LuaMeaning`, `LuaGen`, `LuaValue`,
`LuaLists`, `LuaResult`, `LuaBranch`, `LuaJoin`, `LuaSequence`, `LuaTraits`, `LuaFuncState`, `LuaEncoding`).
Jump lists threaded through the code, from `getjump` to `luaK_posfix`. Expressions mean what section 2.5.3 of
the Lua 5.1 Reference Manual says, with global reads and comparisons logged, since metamethods can see their
order. `FuncState.Compile` shows that the code leaves that value, and that log, for every expression made of
constants, locals, globals, `and`, `or`, `not` and the six comparisons. The laws of these operators, and the
usual idioms of the instructions, are stated apart from the generator; `LuaEncoding` shows that its machine goes
where the interpreter of the bytecode checker can go.
Finding (`LuaLostValue`): this is false of some expressions. In `((1 or false) and true) or false` the jump made
for the constant `true` takes over the jumps that wait for its place, and one of them brings the value 1; the
expression becomes 1 instead of `true`. `DecidesExactly` gives the condition under which the jump for a constant
is right, `Lose` and `ValueLost` the example. The jumps taken over are remembered as misplaced until their list
is landed or `not` drops its values, which does no harm; only asking for the value of one does.
`LuaTraits.Loses` tells for every expression, without any code, whether that happens: `Compile` sets its flag
`mixed` if and only if `Loses` says so, and otherwise the code is right. `NotLosing` is such a case, and
`UndecidedLosesNothing` a simple rule on top.

**The bytecode checker** (`LuaBytecode`, `LuaAdmissible`, `LuaChecker`, `LuaCheckerSound`, `LuaCheckerExact`).
`symbexec` as a loop. `LuaAdmissible` says what bytecode may do, by the registers, constants, upvalues and next
addresses of the interpreter, and opcode by opcode what the source asks for beyond that; `CheckCode` accepts
exactly the admissible code. Paths of accepted code stay inside it and off the counts of SETLIST. The parity
test for jump targets is exact.
Findings: the interpreter skips for any C of LOADBOOL other than 0, but the checker looks only at C equal to 1.
`ControlFlow` says exactly when accepted code is safe; `Leaves` is accepted code that is not. It looks behind a
TAILCALL only if its C is 0, while the interpreter leaves the results of a C function there whatever C is
(`OpenTaken`, `Drops`). `NotedExactly` lists the instructions that change registers without the symbolic
execution noting it.

**The buffer cache** (`BufferQueues`, `BufferStates`, `BufferUsers`, `BufferCache`). The hash chains and the
free ring as linked structures, and processes that may sleep at each of the three places in `getblk`, in
`get_hash_table` and in `brelse`. `Cache.Run` covers every interleaving: no block is cached twice, and a buffer
in use keeps its identity. Which buffer a block gets is said exactly: the first unused one of the free list.
`b_next` may be null in `insert_into_queues`; that store has no effect here. Where the source re-reads the block
after sleeping in `get_hash_table`, the check can never fail.
Finding: a search that has slept for a locked buffer goes on behind it. It may then sleep for a free buffer
although one in front of that place is free by now (`Cache.Scan`, `BufferUsers.Continued`).

**Scheduler, sleep queues, disk requests, kernel heap, floating bytes** (`Scheduler`, `SleepQueues`,
`DiskElevator`, `KernelHeap`, `FloatingByte`). Selection within two rounds, and over all runs a bound on slices
and one on waiting; no lost wake-up in the uninterruptible queue; at most two sweeps of the disk arm;
disjointness of the kernel's blocks; the least representable size.
Findings: a slice reaches twice the priority exactly if a call of `sys_nice` lowers the priority too far for it
(`Scheduler.BoundKept`), and no refill repairs that (`ScheduledBroken`); `BreakBound` is such a run. `_kfree`
puts its chunk where the allocator does not look, exactly in the case `Heap.Kfree` names; `Heap.Leak` needs two
blocks, and the bytes of the first stay lost whatever follows. Two waiting disk requests for the same place
would spoil the order of the sweeps (`DiskElevator.EqualKeys`).

## Model

| member | source | states |
|---|---|---|
| LuaInvariants.ReachableAlive | user/lua-5.1.4/src/lgc.c:525-607 | in every state of the collector's invariant, whatever can be reached from the main thread, the running thread, the registry or a basic metatable is in the heap and not dead |
| LuaHeap.PathExists | user/lua-5.1.4/src/lgc.c:277-320 | whatever lies in every closed set around the roots is reached over a path of references from one of them |
| LuaHeap.FieldsAreEdges | user/lua-5.1.4/src/lgc.c:69-271 | a set holds the successors of an object exactly if it holds what each of its fields names, kind of object by kind of object |
| LuaInvariants.LiveFields | user/lua-5.1.4/src/lgc.c:69-271 | in every state of a run, what a field of an object that is not dead names is not dead either |
| LuaInvariants.ReachLeast | user/lua-5.1.4/src/lgc.c:158-271 | the reachable objects are the least set that holds the roots and is closed under the fields of its members |
| LuaInvariants.AtomicInv | user/lua-5.1.4/src/lgc.c:525-553 | once the atomic step has marked all roots and emptied its lists, flipping the current white starts a sound sweep: nothing outside any closed set that holds the roots is alive any more |
| LuaInvariants.MarkEnd | user/lua-5.1.4/src/lgc.c:525-553 | with nothing left to traverse, "not dead under the flipped white" is the same as "marked", and the live objects lead only to live objects |
| LuaInvariants.PopGray | user/lua-5.1.4/src/lgc.c:277-320 | taking an object off `gray` keeps the tri-colour invariant with that object pending: threads go to `grayagain` and stay gray, anything else turns black |
| LuaInvariants.MarkFinish | user/lua-5.1.4/src/lgc.c:158-270 | an object all of whose successors are marked needs no further attention |
| LuaInvariants.MarkBegin | user/lua-5.1.4/src/lgc.c:501-512 | in a heap that is all current white, marking may start from empty work lists |
| LuaStore.BarrierMarked | user/lua-5.1.4/src/lgc.c:662-672 | after a store, marking the stored object restores the invariant of the propagate phase and changes nobody's liveness |
| LuaStore.BarrierBack | user/lua-5.1.4/src/lgc.c:675-683 | turning a black table gray again and queueing it for the atomic step restores the invariant, in every phase |
| LuaStore.NoBarrier | user/lua-5.1.4/src/lgc.h:86-98 | when the barrier macros' test fails, the store has broken nothing |
| LuaStore.ClosedStored | user/lua-5.1.4/src/lgc.c:695-710 | a freshly closed upvalue is an object into which its value was just stored, so that the barrier of `luaC_linkupval` is what it needs |
| LuaSweep.UnlinkInv | user/lua-5.1.4/src/lgc.c:407-428 | taking an object off `rootgc` during the sweep keeps the invariant and everyone's liveness |
| LuaSweep.ReleaseInv | user/lua-5.1.4/src/lgc.c:378-400 | freeing an unlinked dead object keeps the invariant: nothing alive refers to it |
| LuaSweep.CellClosedInv | user/lua-5.1.4/src/lgc.c:695-710 | outside the propagate phase a closed upvalue in the current white keeps the invariant |
| LuaSweep.WorkDecreases | user/lua-5.1.4/src/lgc.c:556-607 | each single step lowers the phase, or the count of white, unmarked and unswept objects, or the length of `gray`: a cycle ends |
| LuaMutate.OneCellPerSlot | user/lua-5.1.4/src/lfunc.c:53-79 | two open upvalues of the same stack slot are the same upvalue |
| LuaMutate.NewCellInv | user/lua-5.1.4/src/lfunc.c:53-79 | a new open upvalue put into its place keeps the list strictly decreasing in stack level, and the rest of the invariant |
| LuaMutate.StackInv | user/lua-5.1.4/src/lgc.c:256-270 | the stack of a thread may change without a barrier in every phase, as long as it holds live values and no open upvalue loses its slot |
| LuaMutate.ReviveInv | user/lua-5.1.4/src/lstring.c:75-93 | a dead object without dead successors may be given the other white again |
| LuaMutate.NoSuchString | user/lua-5.1.4/src/lstring.c:75-93 | a string that is not in the chain of its hash does not exist: strings are unique |
| LuaMutate.InnerProto | user/lua-5.1.4/src/lvm.c:719-737 | what a live closure instantiates is alive |
| LuaMutate.InitInv | user/lua-5.1.4/src/lstate.c:143-190 | the state `lua_newstate` sets up satisfies the invariant |
| LuaCollector.Collector.ReallyMark | user/lua-5.1.4/src/lgc.c:69-112 | marks a white object with all that has to follow at once, keeps the tri-colour invariant, marks nothing outside any closed set around the object, and leaves fewer white objects |
| LuaCollector.Collector.PropagateMark | user/lua-5.1.4/src/lgc.c:277-320 | traverses one gray object; nothing outside the closed set is marked, `grayagain` only grows, and `gray` shrinks unless something white was marked |
| LuaCollector.Collector.PropagateAll | user/lua-5.1.4/src/lgc.c:323-327 | empties `gray`, with the invariant kept: terminates |
| LuaCollector.Collector.MarkMt | user/lua-5.1.4/src/lgc.c:493-497 | all metatables of the basic types are marked |
| LuaCollector.Collector.MarkRoot | user/lua-5.1.4/src/lgc.c:501-512 | starts a cycle: the main thread and the registry are marked and every marked object is reachable |
| LuaCollector.Collector.RemarkUpvals | user/lua-5.1.4/src/lgc.c:515-522 | after it no open upvalue is an exception to the tri-colour invariant |
| LuaCollector.Collector.Atomic | user/lua-5.1.4/src/lgc.c:525-553 | ends marking, flips the white and enters the sweep with the invariant; whatever is alive lies in any closed set with the roots |
| LuaCollector.Collector.SweepUpvals | user/lua-5.1.4/src/lgc.c:407-428 | sweeps the open upvalues of a thread: those left carry the current white, and nothing alive has changed |
| LuaCollector.Collector.FreeCell | user/lua-5.1.4/src/lfunc.c:89-93 | a dead open upvalue leaves its thread's list, the global list and the heap; nothing else changes |
| LuaCollector.Collector.Barrier | user/lua-5.1.4/src/lgc.h:86-98 | after a store into an object that is not a table, the invariant holds again and everyone's liveness is kept |
| LuaCollector.Collector.BarrierF | user/lua-5.1.4/src/lgc.c:662-672 | the forward barrier, in the propagate phase and during a sweep |
| LuaCollector.Collector.BarrierT | user/lua-5.1.4/src/lgc.h:90-98 | the backward barrier after a store into a table |
| LuaCollector.Collector.CloseFirst | user/lua-5.1.4/src/lfunc.c:96-112 | an open upvalue becomes closed with the value of its slot, moves to `rootgc`, and no other object changes |
| LuaCollector.Collector.FreeObj | user/lua-5.1.4/src/lgc.c:378-400 | exactly one object leaves the heap; what is alive stays as it is, also when a dying thread has upvalues to close |
| LuaCollector.Collector.SweepObject | user/lua-5.1.4/src/lgc.c:411-426 | one round of the sweep: keeps or frees the object at the sweep pointer and gets nearer to the end |
| LuaCollector.Collector.KeepObject | user/lua-5.1.4/src/lgc.c:414-418 | a survivor is whitened and the pointer moves on |
| LuaCollector.Collector.EraseObject | user/lua-5.1.4/src/lgc.c:419-425 | a dead object is unlinked and freed |
| LuaCollector.Collector.SweepChain | user/lua-5.1.4/src/lgc.c:572-580 | one step of the sweep-string phase, with its change of phase |
| LuaCollector.Collector.SweepList | user/lua-5.1.4/src/lgc.c:407-428 | at most `count` rounds of the sweep |
| LuaCollector.Collector.SingleStep | user/lua-5.1.4/src/lgc.c:556-607 | each step of the state machine keeps the invariant, makes progress, leaves every reachable object as it was, and keeps the promise that only objects in `S` will survive |
| LuaCollector.Collector.FinishSweep | user/lua-5.1.4/src/lgc.c:636-653 | a full collection gives up a marking phase or finishes a sweep under way, from any phase |
| LuaCollector.Collector.RunCycle | user/lua-5.1.4/src/lgc.c:654-657 | a whole cycle ends with nothing in the heap but `S` and the fixed objects |
| LuaCollector.Collector.FullGC | user/lua-5.1.4/src/lgc.c:636-659 | from any state of the collector: terminates with precisely the reachable and the fixed objects in the heap, all in the current white, each reachable object as it was; what the fields of a reachable object name (metatable, environment, slots, upvalues, constants, stack, and so on) is in the heap, and any set of objects that is closed under the fields holds whatever is left but not fixed |
| LuaCollector.Collector.SetReg | user/lua-5.1.4/src/lgc.c:256-270 | a register is written without a barrier |
| LuaCollector.Collector.SetTable | user/lua-5.1.4/src/lvm.c:134-149 | a table store with its barrier: the heap changes in that slot only |
| LuaCollector.Collector.SetMetatable | user/lua-5.1.4/src/lapi.c:697-731 | the metatable of a table or userdata changes, and nothing else: its slots or its environment stay |
| LuaCollector.Collector.SetEnv | user/lua-5.1.4/src/lapi.c:734-758 | the environment of a function or userdata, or the globals of a thread change, and nothing else |
| LuaCollector.Collector.GetMetatable | user/lua-5.1.4/src/lapi.c:587-613 | the register gets the metatable of the table or userdata, which is alive, or nil |
| LuaCollector.Collector.GetBasicMt | user/lua-5.1.4/src/lapi.c:587-613 | the register gets the metatable of a basic type, which is alive, or nil |
| LuaCollector.Collector.GetEnv | user/lua-5.1.4/src/lapi.c:616-637 | the register gets the environment of the function or userdata, or the globals of the thread, which are alive |
| LuaCollector.Collector.GetUpval | user/lua-5.1.4/src/lvm.c:423-427 | reads the value of a closed cell, or of an open one the slot of the stack it points to |
| LuaCollector.Collector.SetUpval | user/lua-5.1.4/src/lvm.c:447-452 | afterwards the cell stands for the value stored; a closed cell holds it, and of an open one just the slot of the stack that it points to has changed |
| LuaCollector.Collector.SetCUpvalue | user/lua-5.1.4/src/lapi.c:203-225 | an upvalue of a C function changes, with its barrier |
| LuaCollector.Collector.AddConstant | user/lua-5.1.4/src/lcode.c:229-247 | a prototype gets a constant, with its barrier |
| LuaCollector.Collector.Link | user/lua-5.1.4/src/lgc.c:686-692 | a new object in the current white keeps the invariant in every phase and is alive |
| LuaCollector.Collector.LinkUdata | user/lua-5.1.4/src/lstring.c:96-110 | the same for userdata, which are chained behind the main thread |
| LuaCollector.Collector.NewTable | user/lua-5.1.4/src/lvm.c:457-464 | a new empty table in a register, everything else as before |
| LuaCollector.Collector.NewUserdata | user/lua-5.1.4/src/lapi.c:1025-1035 | a new userdata with its environment |
| LuaCollector.Collector.NewThread | user/lua-5.1.4/src/lstate.c:119-131 | a new thread that shares the globals of the running one |
| LuaCollector.Collector.NewCClosure | user/lua-5.1.4/src/lapi.c:486-500 | a new C function with its upvalues |
| LuaCollector.Collector.Intern | user/lua-5.1.4/src/lstring.c:75-93 | finds the string with this text, reviving it if it is dead, or makes it; the heap changes only if there was none |
| LuaCollector.Collector.FindUpval | user/lua-5.1.4/src/lfunc.c:53-79 | the one live open upvalue of a slot: found, revived or created |
| LuaCollector.Collector.MakeClosure | user/lua-5.1.4/src/lvm.c:719-737 | a new closure with the prototype, the environment and exactly the cells asked for; closures that capture one slot get one cell |
| LuaCollector.Collector.LoadMain | user/lua-5.1.4/src/ldo.c:490-504 | the main function: a closure with the environment of the running thread, the prototype, and as many new closed upvalues of its own as asked for; everything else as before |
| LuaCollector.Collector.AddUpvals | user/lua-5.1.4/src/ldo.c:500-502 | new closed upvalues fill a closure that is still being made; it is white, so that no barrier is needed |
| LuaCollector.Collector.CloseFrom | user/lua-5.1.4/src/lfunc.c:96-112 | closes exactly the upvalues at or above a level; each live one keeps the value it stands for, the others and the stack are untouched |
| LuaCollector.Collector.SetTop | user/lua-5.1.4/src/lapi.c:164-180 | registers are pushed or popped |
| LuaCollector.Collector.FetchObject | user/lua-5.1.4/src/lvm.c:407-440 | whatever can be reached over some path of references (globals, environments, metatables, constants, upvalues, the registry) may be put into a register; no barrier is needed |
| LuaCollector.Collector.SetStack | user/lua-5.1.4/src/lapi.c:110-122 | any reachable thread may get a value into any slot of its stack; no barrier is needed |
| LuaCollector.Collector.SwitchTo | user/lua-5.1.4/src/ldo.c:417-458 | any reachable thread may run next: resume and yield |
| LuaCollector.Collector.SetBasicMt | user/lua-5.1.4/src/lapi.c:723-726 | a root changes, or is cleared, without a barrier |
| LuaCollector.Collector.Fix | user/lua-5.1.4/src/lstring.h:24 | a string is fixed for good |
| LuaCollector.Collector.constructor | user/lua-5.1.4/src/lstate.c:143-190 | the initial state |
| LuaCollector.Collector.Step | user/lua-5.1.4/src/lgc.c:556-607 | each event does to the heap, the registers and the roots what it stands for, field by field, or nothing if it cannot happen; every step keeps the invariant; a step of the collector leaves every reachable object as it was, a full one leaves nothing else but fixed objects |
| LuaCollector.Collector.Run | user/lua-5.1.4/src/lgc.c:556-692 | over every interleaving of collector steps, stores, allocations, loading of functions, fetches of any reachable object, writes to any stack, calls, returns and thread switches, each event does what it stands for, nothing the program can reach is freed or dead, and every field of a live object names live objects |
| LuaCollector.CaptureRun | user/lua-5.1.4/src/lvm.c:719-737 | a run from the initial state after which a closure exists whose upvalue is open: it stands for a register of the running thread |
| LuaCollector.MainRun | user/lua-5.1.4/src/ldo.c:490-504 | a run from the initial state that loads a main function |
| LuaMarkBits.IsDead | user/lua-5.1.4/src/lgc.h:69-70 | the bit test is true exactly of the other white |
| LuaMarkBits.OtherWhite | user/lua-5.1.4/src/lgc.h:69 | flipping the white bits keeps the fixed bit |
| LuaMarkBits.Survives | user/lua-5.1.4/src/lgc.c:410-414 | the one-mask test of the sweep keeps an object exactly if it is not dead or fixed |
| LuaMarkBits.SurvivesEnd | user/lua-5.1.4/src/lgc.c:483-490 | when the state is closed the same test keeps an object exactly if it is the main thread |
| LuaMarkBits.MakeWhite | user/lua-5.1.4/src/lgc.c:32-35 | the object gets the current white and keeps all its other bits |
| LuaMarkBits.Gray2Black | user/lua-5.1.4/src/lgc.h:73 | gray becomes black and no other bit changes |
| LuaMarkBits.White2Gray | user/lua-5.1.4/src/lgc.c:37 | white becomes gray and no other bit changes |
| LuaMarkBits.Black2Gray | user/lua-5.1.4/src/lgc.c:38 | black becomes gray and no other bit changes |
| LuaMarkBits.ChangeWhite | user/lua-5.1.4/src/lgc.h:72 | one white becomes the other and no other bit changes |
| LuaMarkBits.TestsShow | user/lua-5.1.4/src/lgc.c:410-414 | if the bytes carry the collector's marks, the bit tests of the sweep decide as the collector's model does |
| LuaMarkBits.MacrosShow | user/lua-5.1.4/src/lgc.c:32-38 | and each macro on a byte is the model's change of one colour |
| LuaStack.LuaThread.constructor | user/lua-5.1.4/src/lstate.c:42-58 | one frame, one nil value, no upvalues |
| LuaStack.LuaThread.CorrectStack | user/lua-5.1.4/src/ldo.c:126-138 | every address that points into the stack has moved with it |
| LuaStack.LuaThread.ReallocStack | user/lua-5.1.4/src/ldo.c:141-149 | moving the block changes neither the values of the stack, nor the level of any open upvalue, nor the value that one reads, nor a frame |
| LuaStack.LuaThread.ReallocCI | user/lua-5.1.4/src/ldo.c:152-158 | moving the block of the frames changes none that is in use, nor which one runs |
| LuaStack.LuaThread.CheckStack | user/lua-5.1.4/src/ldo.c:161-166 | the same for growing; afterwards there is room |
| LuaStack.LuaThread.CheckStackSizes | user/lua-5.1.4/src/lgc.c:241-253 | the same for shrinking: no slot that may be in use and no frame in use is cut off; by how much each block shrinks, and when |
| LuaStack.LuaThread.TraverseStack | user/lua-5.1.4/src/lgc.c:256-270 | the collector's work on a stack changes no value below the top, and clears what frames may use above it |
| LuaStack.LuaThread.ReadsLevel | user/lua-5.1.4/src/lfunc.c:53-79 | an open upvalue reads the value at its level, which is what the object graph says |
| PageTables.Retarget | linux-0.01/mm/memory.c:63-73 | changing where one entry points changes the reference counts of the two frames by one, and no other |
| PageTables.NoRefs | linux-0.01/mm/memory.c:37-57 | nothing refers to a page with count 0 |
| PageTables.CountFits | linux-0.01/mm/memory.c:139-157 | a count stays below the number of processes, so it never overflows |
| Paging.Memory.GetFreePage | linux-0.01/mm/memory.c:37-57 | the last free page, zeroed and counted once; 0 exactly if there is none |
| Paging.Memory.FreePage | linux-0.01/mm/memory.c:63-73 | lowers one count; panics exactly for a page above memory or already free |
| Paging.Memory.FreePageTables | linux-0.01/mm/memory.c:79-105 | the entries of the range are gone and every count is exact again; no panic is reached, and no other page loses its permission to be written |
| Paging.Memory.FreeTable | linux-0.01/mm/memory.c:88-101 | the same for one page table, which is freed itself |
| Paging.Memory.CopyPageTables | linux-0.01/mm/memory.c:124-163 | every page is shared read-only at the same place; nobody sees a difference; on failure only the new tables are left behind and memory was full; entries of other processes keep every bit |
| Paging.Memory.UnWpPage | linux-0.01/mm/memory.c:194-209 | the page becomes private and writable with its contents; every other view is kept; fails only if memory is full |
| Paging.Memory.PutPage | linux-0.01/mm/memory.c:171-192 | maps the page, with a new table if needed; succeeds exactly if the table is there or a page is free; if not, nothing has changed |
| Paging.Memory.DoNoPage | linux-0.01/mm/memory.c:237-245 | a page of zeros appears exactly if as many pages are free before the call as are needed; a page is lost exactly if one page is free before the call and a page table is needed |
| Paging.Memory.Touch | linux-0.01/mm/memory.c:237-245 | a process touches a number of new pages, each of which takes one free page, and one more for the table |
| Paging.Memory.WriteVerify | linux-0.01/mm/memory.c:224-235 | afterwards the page, if present, can be written; no view changes and no page verified before is unverified |
| Paging.Memory.VerifyArea | linux-0.01/kernel/fork.c:18-31 | all pages of the area can be written to by the kernel; no view changes |
| Paging.Memory.CopyMem | linux-0.01/kernel/fork.c:33-54 | the new process sees exactly what its parent sees, and nobody else sees a difference; if memory runs out, every count, entry and view is as before |
| Paging.Memory.CopyProcess | linux-0.01/kernel/fork.c:61-122 | the same with the page of the task structure, which is given back on failure |
| Paging.Memory.DoExit | linux-0.01/kernel/exit.c:64-92 | the process maps nothing any more, and nobody else sees a difference |
| Paging.Memory.ReleaseTask | linux-0.01/kernel/exit.c:13-27 | the page of the task structure is freed |
| Paging.Memory.FaultForWrite | linux-0.01/mm/memory.c:194-222 | at most two faults make a page writable for its process, with its contents |
| Paging.Memory.UserStore | linux-0.01/mm/memory.c:216-222 | a store, if the process survives, changes the one word addressed: every other word, of that page and of every other page of any process, is as before; otherwise the process is killed as memory is full |
| Paging.Memory.UserLoad | linux-0.01/mm/memory.c:237-245 | a load yields the word of the address space, which is 0 on a page that was never written |
| Paging.Memory.FaultForRead | linux-0.01/mm/memory.c:237-245 | an absent page is made present with the words that the address space has there, or the process is killed because memory is full |
| Paging.Memory.KernelStore | linux-0.01/mm/memory.c:224-235 | a kernel store to a verified page, which ignores write protection, changes the one word addressed and no other of any process, and unverifies nothing |
| Paging.Memory.PutUserWords | linux-0.01/kernel/fork.c:18-31 | `verify_area` and the stores after it, with any run of the other processes before each store: afterwards the word at each byte address is the one put there, the words beside them and all other processes' are as those runs leave them |
| Paging.Memory.constructor | linux-0.01/mm/memory.c:37-57 | one process that has touched nothing |
| Paging.Memory.Step | linux-0.01/mm/memory.c:124-245 | each of these events keeps the counts exact, the spaces right and every verified area verified, and says word by word what it does to every process; which events are refused, and which processes and areas there are afterwards, is said exactly |
| Paging.Memory.Run | linux-0.01/mm/memory.c:124-245 | over any run of forks, loads, stores, calls of `verify_area`, kernel stores, returns from system calls, exits and releases, every process sees what it would see if fork had copied each page: each load yields the word last stored there by the process, or by an ancestor before the fork, or 0; what a process in a system call has verified stays verified whatever the others do in between; precisely the events that `Permitted` excludes are refused |
| AddressSpaces.RunApart | linux-0.01/kernel/fork.c:18-31 | a run of the other processes leaves the address space of a process in a system call alone |
| PageSteps.ShareKeeps | linux-0.01/mm/memory.c:139-157 | sharing a page between parent and child changes no entry of anybody else |
| PageFaults.AreasKept | linux-0.01/kernel/fork.c:18-31 | an event that touches the page tables of other processes only leaves every verified area verified |
| Paging.ForkSees | linux-0.01/kernel/fork.c:33-54 | sharing all pages read-only makes child and parent see the same |
| Paging.ForkUndone | linux-0.01/kernel/fork.c:49-52 | freeing the tables of a failed copy brings back every count, every entry and every view |
| Paging.AllFree | linux-0.01/mm/memory.c:79-105 | when nobody is left, a page is free exactly if it was not lost |
| Paging.LostPage | linux-0.01/mm/memory.c:237-245 | nothing refers to a lost page, and its count is 1 |
| Paging.LosePage | linux-0.01/mm/memory.c:237-245 | a run from the initial state in which one process uses up memory and exits; one page is then referred to by nobody and is still not free |
| AddressSpaces.ShowsFork | linux-0.01/kernel/fork.c:33-54 | such a fork is an eager copy of the address space |
| AddressSpaces.ShowsWrite | linux-0.01/mm/memory.c:194-209 | a store that changes one view changes one address space |
| AddressSpaces.ShowsExit | linux-0.01/kernel/exit.c:64-92 | an exit removes one address space |
| AddressSpaces.WroteOthers | linux-0.01/kernel/fork.c:18-31 | stores of one process leave every other address space alone |
| AddressSpaces.RecallsNext | linux-0.01/mm/memory.c:194-222 | if every load of a run yields what was last stored before it, that goes on being so with one event more that changes words as a store, fork or exit should |
| AddressSpaces.WroteAllPut | linux-0.01/kernel/fork.c:18-31 | a sequence of stores at distinct aligned addresses leaves at each address its word, and every other word as it was |
| AddressSpaces.WordPlace | linux-0.01/kernel/fork.c:18-31 | a byte address stands for one word of one page, and different aligned addresses for different words |
| BlockTree.SlotInjective | linux-0.01/fs/inode.c:49-115 | no two logical blocks, of any inodes, have their zone number in the same place |
| BlockTree.SlotLeads | linux-0.01/fs/inode.c:49-125 | where the tree keeps the zone number of a logical block is said over zones and words: below 7 the zone of the inode; below 519 word `lb - 7` of the block in zone 7; else word `(lb - 519) % 512` of the block that word `(lb - 519) / 512` of the block in zone 8 names; 0 where a table is missing |
| BlockTree.GainInv | linux-0.01/fs/inode.c:49-115 | giving a free block a place keeps the tree disjoint and the bitmap exact |
| FileSystem.Device.FindFirstZero | linux-0.01/fs/bitmap.c:1-37 | the first clear bit, or 8192 if there is none |
| FileSystem.Device.NewBlock | linux-0.01/fs/bitmap.c:67-97 | the first free block, marked used and zeroed; 0 exactly if no block is free, though a bit that stands for no block may then have been set |
| FileSystem.Device.FreeBlock | linux-0.01/fs/bitmap.c:39-65 | clears the bit; panics exactly for a block outside the data zone or one not in use |
| FileSystem.Device.MapZone | linux-0.01/fs/inode.c:58-74 | a zone of the inode, filled on demand; nothing else is mapped differently |
| FileSystem.Device.MapWord | linux-0.01/fs/inode.c:77-84 | the same for a word of an indirect table |
| FileSystem.Device.BMap | linux-0.01/fs/inode.c:49-125 | the block of a logical block, said over zones and words of tables for each of the three ranges, and 0 if a table is missing; if it was created, later look-ups find it, every other logical block of every inode maps as before, and no file reads differently |
| FileSystem.Device.FreeInd | linux-0.01/fs/truncate.c:5-21 | frees exactly the blocks a table names and the table; none is free already |
| FileSystem.Device.FreeDind | linux-0.01/fs/truncate.c:23-39 | the same for the double-indirect tree |
| FileSystem.Device.Truncate | linux-0.01/fs/truncate.c:41-58 | frees exactly the blocks of this inode and clears its zones; no other inode is affected and no panic is reached |
| FileSystem.Device.ReadWord | linux-0.01/fs/file_dev.c:11-40 | a read yields the word of the file; holes read as 0 |
| FileSystem.Device.WriteWord | linux-0.01/fs/file_dev.c:42-84 | a write changes the one word addressed: every other word of that file, and every word of every other file, is as before; or it finds the device full and changes none |
| FileSystem.Device.constructor | linux-0.01/fs/bitmap.c:67-97 | a new device with only the reserved bit set |
| FileSystem.Device.Run | linux-0.01/fs/inode.c:49-125 | over any run each read yields what was last written to that word since the file was last truncated, or 0; the set bits are exactly the disjoint blocks in use; an event is refused only if it is not legal, and a write only if the device is full |
| FileSystem.StepLooked | linux-0.01/fs/inode.c:49-115 | filling one place of the tree maps no other logical block differently |
| FileSystem.ThroughTable | linux-0.01/fs/inode.c:87-114 | neither does making a table on the way |
| FileSystem.TruncatedShows | linux-0.01/fs/truncate.c:41-58 | after truncation the file is empty and the others are as they were |
| BlockFree.TruncateDone | linux-0.01/fs/truncate.c:41-58 | once every block of the inode has been freed, the tree is disjoint and the bitmap exact again, and every other file reads as before |
| LuaMachine.EvalAgree | user/lua-5.1.4/src/lvm.c:373-382 | the value of an expression depends only on the registers of its locals |
| LuaMachine.Exchanged | user/lua-5.1.4/src/lcode.c:681-694 | `x > y` has the value and the calls of `<` on the exchanged values, and `x >= y` those of `<=`, though the operands are still evaluated from left to right |
| LuaMachine.Answers | user/lua-5.1.4/src/lcode.c:781-786 | what each of the six operators answers about two values is what the world answers to `==`, `<` or `<=` about them, in the right order |
| LuaMachine.Unequal | user/lua-5.1.4/src/lcode.c:681-694 | `x ~= y` has the value and the calls of `not (x == y)` |
| LuaMachine.NotAndOr | user/lua-5.1.4/src/lcode.c:594-626 | `not` exchanges `and` and `or`, with the same value and the same calls |
| LuaMachine.NotValue | user/lua-5.1.4/src/lvm.c:505-509 | `not` yields true of nil and false only |
| LuaMachine.ShortCircuit | user/lua-5.1.4/src/lcode.c:718-760 | `and` and `or` yield the first operand if it decides, else the second, which is not evaluated otherwise |
| LuaMachine.RelationIdiom | user/lua-5.1.4/src/lvm.c:551-558 | the usual four instructions turn a comparison into a value |
| LuaMachine.LogicIdioms | user/lua-5.1.4/src/lvm.c:573-581 | a TESTSET, a jump and a MOVE make `or`, or `and`, of two registers |
| LuaMachine.TestIdiom | user/lua-5.1.4/src/lvm.c:567-572 | a TEST with 0 jumps over what is done for a true value |
| LuaEncoding.StepAgrees | user/lua-5.1.4/src/lvm.c:373-581 | where the machine of the generated code goes on, the interpreter of the checker can go, and every register that changes on the way is one that its instruction touches |
| LuaRuns.LandRun | user/lua-5.1.4/src/lcode.c:179-182 | sending open jumps to the current position changes a run only in that these exits become its end |
| LuaRuns.ContinueRun | user/lua-5.1.4/src/lcode.c:797-809 | code that has been extended, with its waiting jumps resolved, runs as before and then goes on behind |
| LuaRuns.PatchRun | user/lua-5.1.4/src/lcode.c:150-160 | patching a list changes a run exactly in where the exits through the list lead, and in the register their value gets |
| LuaRuns.NextRun | user/lua-5.1.4/src/lcode.c:745-760 | the same for code that another operand's code follows |
| LuaLists.ListConcat | user/lua-5.1.4/src/lcode.c:185-196 | linking the end of one list to another one gives the concatenated list |
| LuaLists.ListPart | user/lua-5.1.4/src/lcode.c:100-106 | the jumps of a list are distinct, and each is the head of the rest |
| LuaGen.Branch | user/lua-5.1.4/src/lcode.c:524-536 | a TESTSET and a jump make a condition out of a value |
| LuaGen.BranchNot | user/lua-5.1.4/src/lcode.c:524-532 | a NOT just emitted is taken back and its operand tested the other way round, with the same meaning |
| LuaGen.BranchJmp | user/lua-5.1.4/src/lcode.c:516-521 | inverting a comparison gives the opposite condition |
| LuaGen.BranchAlways | user/lua-5.1.4/src/lcode.c:59-66 | an unconditional jump for a constant is right but for the values that waiting jumps bring: exactly those are misplaced from then on |
| LuaGen.MeansSame | user/lua-5.1.4/src/lcode.c:185-196 | where open jumps point, or in which list they are threaded, does not matter |
| LuaGen.Land | user/lua-5.1.4/src/lcode.c:179-182 | of the two lists of a condition one goes to the current position |
| LuaGen.Sequenced | user/lua-5.1.4/src/lcode.c:745-760 | the code of the second operand behind a condition on the first means `and` or `or`, whatever waits and wherever it lands |
| LuaValue.Negated | user/lua-5.1.4/src/lcode.c:594-626 | negating the value and exchanging the lists means `not`; misplaced values are forgotten with the others |
| LuaValue.Held | user/lua-5.1.4/src/lcode.c:59-66 | a jump over code to come holds back everything that reached the end |
| LuaValue.JumpLabels | user/lua-5.1.4/src/lcode.c:392-403 | a comparison followed by the two labels puts its result into a register |
| LuaValue.PatchMeans | user/lua-5.1.4/src/lcode.c:390-411 | patching both lists leaves every path with the value in the register, if no value in them is misplaced |
| LuaValue.Comparison | user/lua-5.1.4/src/lcode.c:681-694 | the comparison of two evaluated operands, also with exchanged operands, means the operator |
| LuaFuncState.FuncState.Concat | user/lua-5.1.4/src/lcode.c:185-196 | the list of both lists; only their jumps change |
| LuaFuncState.FuncState.NeedValue | user/lua-5.1.4/src/lcode.c:122-128 | true exactly if some jump of the list does not bring its value |
| LuaFuncState.FuncState.PatchTestReg | user/lua-5.1.4/src/lcode.c:131-141 | a TESTSET gets its register or becomes a TEST; other instructions stay |
| LuaFuncState.FuncState.PatchListAux | user/lua-5.1.4/src/lcode.c:150-160 | value-bringing jumps go to one target and the others to the default; no other instruction changes |
| LuaFuncState.FuncState.RemoveValues | user/lua-5.1.4/src/lcode.c:144-147 | no jump of the list brings a value any more |
| LuaFuncState.FuncState.DischargeJpc | user/lua-5.1.4/src/lcode.c:163-166 | all jumps waiting for the current position now go there |
| LuaFuncState.FuncState.CodeI | user/lua-5.1.4/src/lcode.c:797-809 | appends one instruction, to which the waiting jumps now go |
| LuaFuncState.FuncState.NewJump | user/lua-5.1.4/src/lcode.c:59-66 | a new jump at the head of a list with the jumps that waited here |
| LuaFuncState.FuncState.PatchToHere | user/lua-5.1.4/src/lcode.c:179-182 | the jumps of the list wait for the current position |
| LuaFuncState.FuncState.AddK | user/lua-5.1.4/src/lcode.c:229-247 | an equal constant is used again; the others keep their numbers |
| LuaFuncState.FuncState.DischargeVars | user/lua-5.1.4/src/lcode.c:304-334 | the descriptor means the same expression, and is no variable any more |
| LuaFuncState.FuncState.Discharge2Reg | user/lua-5.1.4/src/lcode.c:343-379 | the value is in the register, the meaning kept |
| LuaFuncState.FuncState.Exp2Reg | user/lua-5.1.4/src/lcode.c:390-411 | however the value is reached, it ends up in the register, and both lists are empty; `mixed` is set exactly if a list holds a misplaced value |
| LuaFuncState.FuncState.Exp2NextReg | user/lua-5.1.4/src/lcode.c:414-419 | the value is in the next register, which is reserved |
| LuaFuncState.FuncState.Exp2AnyReg | user/lua-5.1.4/src/lcode.c:422-433 | the value is in some register |
| LuaFuncState.FuncState.Exp2Val | user/lua-5.1.4/src/lcode.c:436-441 | jumps are gone, the meaning is kept |
| LuaFuncState.FuncState.Exp2RK | user/lua-5.1.4/src/lcode.c:444-469 | a register or a constant that fits into an operand |
| LuaFuncState.FuncState.InvertJump | user/lua-5.1.4/src/lcode.c:516-521 | the condition of one comparison is inverted |
| LuaFuncState.FuncState.JumpOnCond | user/lua-5.1.4/src/lcode.c:524-536 | the code leaves through the new jump exactly if the value is `cond` |
| LuaFuncState.FuncState.AlwaysJump | user/lua-5.1.4/src/lcode.c:539-591 | an unconditional exit that always means the condition; the waiting jumps that bring a value, and no others, become misplaced |
| LuaFuncState.FuncState.GoIfTrue | user/lua-5.1.4/src/lcode.c:539-564 | falls through if the value is true and leaves through the returned list if it is not; the waiting list of true exits lands here; which lists then hold jumps that bring values, and misplaced ones, is what `Leave` computes |
| LuaFuncState.FuncState.GoIfFalse | user/lua-5.1.4/src/lcode.c:567-591 | the mirror image |
| LuaFuncState.FuncState.CodeNot | user/lua-5.1.4/src/lcode.c:594-626 | the descriptor means the negation; no jump of it brings a value any more, so none is misplaced |
| LuaFuncState.FuncState.PosfixLogic | user/lua-5.1.4/src/lcode.c:745-760 | the descriptor means `and` or `or` of the operands; its lists bring values, and hold misplaced ones, exactly where those of the operands do |
| LuaFuncState.FuncState.CodeComp | user/lua-5.1.4/src/lcode.c:681-694 | the descriptor means the comparison |
| LuaFuncState.FuncState.SubExpr | user/lua-5.1.4/src/lparser.c:828-853 | for every expression: the lists are acyclic and disjoint, old code is unchanged but for its waiting jumps, and the descriptor means the expression, with the misplaced values named, unless an operand of a comparison asked for one; which lists hold misplaced values, and whether one was asked for, is exactly what `Trace` computes from the expression only; registers are used like a stack |
| LuaFuncState.FuncState.Compile | user/lua-5.1.4/src/lcode.c:390-419 | running the code leaves in the target register the value of the expression, evaluates the same operands in the same order, and leaves lower registers alone, unless a misplaced value is asked for, which is exactly what `Loses` tells beforehand; an error is reported only if the code is too long or the registers run out |
| LuaFuncState.ScopedMore | user/lua-5.1.4/src/lcode.c:229-247 | new constants do not disturb an expression |
| LuaTraits.SetFrame | user/lua-5.1.4/src/lcode.c:745-760 | whatever code follows, a jump that is not resolved brings a value or not as before |
| LuaTraits.UndecidedLosesNothing | user/lua-5.1.4/src/lcode.c:539-591 | a simple rule: without a first operand of `or` that ends in `true`, or of `and` in `false`, nothing is lost |
| LuaTraits.NotForgives | user/lua-5.1.4/src/lcode.c:594-626 | behind `not` an expression loses a value only if a comparison inside it does: what its own lists hold does not matter |
| LuaLostValue.DecidesExactly | user/lua-5.1.4/src/lcode.c:539-591 | the jump for a constant decides the condition rightly if and only if no jump that waits here brings a value |
| LuaLostValue.LosingLoses | user/lua-5.1.4/src/lcode.c:567-591 | in `((1 or false) and true) or false` a misplaced value is asked for |
| LuaLostValue.NotLosing | user/lua-5.1.4/src/lcode.c:594-626 | in `not (((1 or false) and true) or false)` none is, so that by `Compile` its code is right |
| LuaLostValue.TrueFirst | user/lua-5.1.4/src/lcode.c:567-591 | behind `true or` a value is lost exactly if a jump with a value waits at first, or one is lost in the second operand |
| LuaLostValue.CompileLosing | user/lua-5.1.4/src/lcode.c:390-419 | compiling that expression sets `mixed` |
| LuaLostValue.Lose | user/lua-5.1.4/src/lcode.c:567-591 | the generator's own steps for `((1 or false) and true) or false` yield a certain code |
| LuaLostValue.ValueLost | user/lua-5.1.4/src/lcode.c:567-591 | that code leaves the number 1, though the expression is `true` |
| LuaChecker.CountBefore | user/lua-5.1.4/src/ldebug.c:348-361 | how many words right before a jump target look like a SETLIST with a count |
| LuaChecker.ParityExact | user/lua-5.1.4/src/ldebug.c:348-361 | in any code, that number is even if and only if the word is an instruction and no count |
| LuaChecker.CheckPseudo | user/lua-5.1.4/src/ldebug.c:450-462 | accepts exactly the words that may follow a CLOSURE |
| LuaChecker.CheckFormat | user/lua-5.1.4/src/ldebug.c:328-365 | accepts exactly the operands the instruction's format allows, and jumps inside the code to an even run |
| LuaChecker.CheckRound | user/lua-5.1.4/src/ldebug.c:322-473 | accepts exactly the instructions that pass every check |
| LuaChecker.Symbexec | user/lua-5.1.4/src/ldebug.c:317-475 | the walk's result: nothing if a check fails, else the instruction last noted as changing the register |
| LuaCheckerExact.CheckCode | user/lua-5.1.4/src/ldebug.c:484-486 | accepts a prototype exactly if it is admissible: its header holds, and each instruction touches only registers of the frame, uses only constants and upvalues that exist, goes only to instructions, and meets the demands that the source makes beyond that, which are named opcode by opcode |
| LuaCheckerExact.AcceptedExactly | user/lua-5.1.4/src/ldebug.c:317-475 | the checks of all words that are instructions pass if and only if the prototype is admissible |
| LuaCheckerExact.AcceptedFits | user/lua-5.1.4/src/ldebug.c:317-475 | every instruction of accepted code fits: its registers, constants, upvalues and successors, and the demands beyond that |
| LuaCheckerExact.FitsChecked | user/lua-5.1.4/src/ldebug.c:317-475 | an instruction that fits passes every check of its round |
| LuaCheckerSound.Returns | user/lua-5.1.4/src/ldebug.c:437-441 | the code of a function that returns one value is accepted |
| LuaChecker.FullWalk | user/lua-5.1.4/src/ldebug.c:317-475 | the walk meets precisely the words that are instructions, from any of them on |
| LuaChecker.NextStart | user/lua-5.1.4/src/ldebug.c:442-449 | behind an instruction, and its count if it has one, comes the next instruction or the end |
| LuaCheckerSound.StepInside | user/lua-5.1.4/src/lvm.c:373-761 | from a checked instruction control goes to a checked instruction |
| LuaCheckerSound.PathInside | user/lua-5.1.4/src/lvm.c:373-761 | no path of accepted code leaves it or lands on a count, if its LOADBOOLs skip well |
| LuaCheckerSound.ControlFlow | user/lua-5.1.4/src/ldebug.c:374-381 | accepted code is safe on every path if and only if no LOADBOOL that is reached skips to a bad place |
| LuaCheckerSound.BooleansSuffice | user/lua-5.1.4/src/lvm.c:411-415 | it is safe whenever no LOADBOOL has an operand C above 1 |
| LuaCheckerSound.Leaves | user/lua-5.1.4/src/lvm.c:411-415 | accepted code that leaves its own bounds, by a LOADBOOL with C 2 |
| LuaCheckerSound.JumpInside | user/lua-5.1.4/src/ldebug.c:343-364 | every jump of accepted code leads to an instruction |
| LuaCheckerSound.TestJumps | user/lua-5.1.4/src/ldebug.c:369-372 | behind a test is a jump, and both ways lead to instructions |
| LuaCheckerSound.PseudoInside | user/lua-5.1.4/src/ldebug.c:450-462 | the words behind a CLOSURE are instructions themselves |
| LuaCheckerSound.RegistersInside | user/lua-5.1.4/src/ldebug.c:304-314 | each register an instruction touches exists, but for two slots of TFORLOOP that the stack's reserve covers |
| LuaCheckerSound.ConstantsInside | user/lua-5.1.4/src/ldebug.c:304-314 | each constant exists, and the name of a global is a string |
| LuaCheckerSound.UpvaluesInside | user/lua-5.1.4/src/ldebug.c:387-391 | each upvalue exists |
| LuaCheckerSound.OpenTaken | user/lua-5.1.4/src/ldebug.c:290-301 | what leaves a variable number of values on the stack is followed by an instruction that takes up to the top of the stack, unless it is a TAILCALL whose C is not 0 |
| LuaCheckerSound.OpenMeans | user/lua-5.1.4/src/ldebug.c:290-301 | the instructions allowed behind an open call are exactly those for which the top of the stack matters |
| LuaCheckerSound.TakenTouched | user/lua-5.1.4/src/lvm.c:603-718 | an instruction that says how many values it takes touches just these and what they are for |
| LuaCheckerSound.Drops | user/lua-5.1.4/src/lvm.c:603-631 | accepted code with a TAILCALL whose results, if a C function leaves any, the next instruction does not take |
| LuaCheckerSound.LastChange | user/lua-5.1.4/src/ldebug.c:317-475 | the result of tracing a register is the last instruction on the walk noted as changing it |
| LuaCheckerSound.NotedExactly | user/lua-5.1.4/src/ldebug.c:366-470 | an instruction notes every register it changes, exactly with the named exceptions |
| BufferQueues.RingUnlinked | linux-0.01/fs/buffer.c:81-87 | taking a buffer off the free list leaves the rest a circle in the same order |
| BufferQueues.RingLinked | linux-0.01/fs/buffer.c:89-96 | putting one at its end too |
| BufferQueues.ChainUnhashed | linux-0.01/fs/buffer.c:71-80 | taking a buffer off a hash chain leaves the rest a chain |
| BufferQueues.ChainHashed | linux-0.01/fs/buffer.c:97-104 | putting one in front too |
| BufferStates.Removed | linux-0.01/fs/buffer.c:71-87 | `remove_from_queues` keeps all lists sound |
| BufferStates.Replaced | linux-0.01/fs/buffer.c:89-104 | so does `insert_into_queues` if the block is nowhere else |
| BufferUsers.TwoFree | linux-0.01/fs/buffer.c:144-194 | more than one buffer is free while a process looks for one |
| BufferUsers.Took | linux-0.01/fs/buffer.c:167-168 | taking an unused buffer keeps the invariant of all processes |
| BufferUsers.Gave | linux-0.01/fs/buffer.c:177-193 | so does giving it its new block, or freeing it again |
| BufferUsers.OneBuffer | linux-0.01/fs/buffer.c:106-194 | in no reachable state do two buffers that can be found carry the same block |
| BufferUsers.HeldBlocks | linux-0.01/fs/buffer.c:123-204 | what a process holds carries the block it asked for, so processes share one buffer for one block |
| BufferCache.Cache.constructor | linux-0.01/fs/buffer.c:225-254 | all buffers free, empty and on the free list in order; all chains empty |
| BufferCache.Cache.RemoveFromQueues | linux-0.01/fs/buffer.c:71-87 | the links after removal |
| BufferCache.Cache.InsertIntoQueues | linux-0.01/fs/buffer.c:89-104 | the links after insertion |
| BufferCache.Cache.FindBuffer | linux-0.01/fs/buffer.c:106-114 | a buffer with this block, or the certainty that there is none |
| BufferCache.Cache.GetHashTable | linux-0.01/fs/buffer.c:123-137 | finds the block exactly if it is cached; then its buffer has one user more, and the process has it or, if it is locked, waits for it |
| BufferCache.Cache.HashDone | linux-0.01/fs/buffer.c:123-137 | after the sleep the buffer still has the block: the re-check never fails |
| BufferCache.Cache.Getblk | linux-0.01/fs/buffer.c:144-194 | up to its next sleep: a cached block is shared; else the first unused buffer in the order of the free list is waited for if it is locked, taken and written back if it is dirty, and otherwise carries the block at once, held by the process and last on the list; the process sleeps for a free buffer only if all are in use; no buffer in use has changed its identity |
| BufferCache.Cache.Scan | linux-0.01/fs/buffer.c:151-166 | the search of the free list from any place on: the first unused buffer from there is the one waited for or taken, and it sleeps exactly if there is none from there on; from the head that means that every buffer is in use |
| BufferCache.Cache.Finish | linux-0.01/fs/buffer.c:174-193 | after the last sleep the buffer carries the block, clean and not up to date, with one user, last on the free list; or, if another one carries it by now, it is empty and that one is shared |
| BufferCache.Cache.Brelse | linux-0.01/fs/buffer.c:196-204 | drops one reference, at once or when the buffer is no longer locked |
| BufferCache.Cache.Resume | linux-0.01/fs/buffer.c:29-35 | what a process that is woken does, for each place where it may sleep: it sleeps on while the buffer is locked, has its block, starts `getblk` again, or goes on with its search or behind `sync_dev` |
| BufferCache.Cache.Step | linux-0.01/fs/buffer.c:106-204 | each event does what it stands for, or nothing if it cannot happen; every step keeps the invariant, and a buffer in use keeps its block |
| BufferCache.Cache.Run | linux-0.01/fs/buffer.c:106-204 | over all interleavings each event does what it stands for, no block is cached twice, the lists are sound and every count is the number of references |
| BufferCache.FirstFree | linux-0.01/fs/buffer.c:151-193 | if the head of the free list is unused, clean and not locked, it is the buffer that a block gets which is not cached |
| BufferCache.FirstTwo | linux-0.01/fs/buffer.c:144-194 | with two buffers the first two blocks asked for are in the first and the second one |
| SleepQueues.Sleepers.SleepOn | linux-0.01/kernel/sched.c:114-128 | the sleeper becomes the head and remembers the old head |
| SleepQueues.Sleepers.WakeUp | linux-0.01/kernel/sched.c:151-157 | the head becomes runnable and the queue empty |
| SleepQueues.Sleepers.Resume | linux-0.01/kernel/sched.c:124-127 | a resumed sleeper makes the one it remembers runnable |
| SleepQueues.Sleepers.ResumeAll | linux-0.01/kernel/sched.c:114-157 | once no sleeper is runnable, nobody whose queue was woken still sleeps |
| SleepQueues.Sleepers.WakeAll | linux-0.01/kernel/sched.c:114-157 | one wake-up with the resumptions it causes wakes the whole queue and nobody else |
| SleepQueues.Sleepers.Run | linux-0.01/kernel/sched.c:114-157 | over all interleavings each event does what it stands for, waking nobody else, and each sleeper is named by exactly one pointer |
| SleepQueues.NoneLeft | linux-0.01/kernel/sched.c:114-128 | why no wake-up is lost: each sleeper is remembered by one that went to sleep later |
| SleepQueues.HeadLabel | linux-0.01/kernel/sched.c:151-157 | the head of a queue waits on that queue |
| SleepQueues.SavedLabel | linux-0.01/kernel/sched.c:124-127 | the task a woken one remembers has been woken with it |
| Scheduler.Machine.CheckAlarms | linux-0.01/kernel/sched.c:73-83 | due alarms are signalled, and signalled sleepers made runnable; nothing else |
| Scheduler.Machine.Select | linux-0.01/kernel/sched.c:88-97 | the last runnable task with the largest slice, or the idle task |
| Scheduler.Machine.Refill | linux-0.01/kernel/sched.c:99-102 | every task has half its slice and its priority |
| Scheduler.Machine.Schedule | linux-0.01/kernel/sched.c:68-105 | slot by slot: a due alarm is cleared and signalled, a signalled interruptible sleeper is runnable, and the slice is as before or half of it and the priority; chooses a runnable task of maximal slice within two rounds; new slices are given out exactly if every runnable task has used its own |
| Scheduler.ScheduledTurned | linux-0.01/kernel/sched.c:76-102 | whatever `schedule` does in a run, it does to state, slice, alarm and signals of each slot just that |
| Scheduler.Machine.DoTimer | linux-0.01/kernel/sched.c:159-169 | a tick lowers the slice, of the idle task too, and in user mode reschedules when it is used up |
| Scheduler.Machine.CopyProcess | linux-0.01/kernel/fork.c:61-122 | the child is runnable, with its full slice |
| Scheduler.Machine.Step | linux-0.01/kernel/sched.c:68-212 | each event does what the specification of events says and keeps the tasks in order |
| Scheduler.Machine.Run | linux-0.01/kernel/sched.c:68-212 | any sequence of events is a run of that specification |
| Scheduler.BrokenAfter | linux-0.01/kernel/sched.c:68-212 | for every event: whose slice reaches twice the priority afterwards, exactly |
| Scheduler.ScheduledBroken | linux-0.01/kernel/sched.c:99-102 | new slices neither break nor repair the bound of any task |
| Scheduler.BoundKept | linux-0.01/kernel/sched.c:68-212 | over all runs with both kinds of ticks, sleeps, wake-ups, alarms, forks and exits, every slice stays below twice the priority if and only if no call of `nice` lowers a priority too far for the slice |
| Scheduler.StaysBroken | linux-0.01/kernel/sched.c:99-102 | a slice that is too large stays so until its task runs |
| Scheduler.BreakBound | linux-0.01/kernel/sched.c:207-212 | a run of three events from the initial state that breaks the bound: fork, schedule, nice by 10 |
| Scheduler.TickNearer | linux-0.01/kernel/sched.c:68-169 | an event before its turn makes the wait of a runnable task longer only if it is a call of `nice` that raises a priority while the task has used up its slice, and then by no more than that; each user tick brings the turn nearer |
| Scheduler.NiceTotal | linux-0.01/kernel/sched.c:207-212 | `nice` makes the wait of another task longer by at most the priority it gains, and only if that task has used up its slice |
| Scheduler.WaitBound | linux-0.01/kernel/sched.c:68-169 | a runnable task waits no more user ticks than the slices of the others, their next slices if its own is used up, one for a slice the kernel has used up, and what calls of `nice` add to those next slices; ticks in kernel mode, sleeps, wake-ups, alarms, `nice` and exits may come between |
| DiskElevator.Disk.AddRequest | linux-0.01/kernel/hd.c:327-366 | the request goes to the first place behind the second entry where it fits, else to the end; while no two waiting requests were for the same place, the rest of the list is at most two sweeps, in each of which drives and cylinders never go back |
| DiskElevator.Disk.Done | linux-0.01/kernel/hd.c:253-290 | the first request leaves the list, which stays in order |
| DiskElevator.OrderFacts | linux-0.01/kernel/hd.c:52-56 | the order is strict and total on distinct keys, and compares drive, cylinder, head and sector, in this order |
| DiskElevator.AddedQueue | linux-0.01/kernel/hd.c:336-365 | the insertion keeps the linked list |
| DiskElevator.AddedSweeps | linux-0.01/kernel/hd.c:345-355 | insertion at that place keeps at most one descent |
| DiskElevator.SweepsOfArm | linux-0.01/kernel/hd.c:52-56 | at most one descent of the order means that drives and cylinders are passed in at most two sweeps |
| DiskElevator.EqualKeys | linux-0.01/kernel/hd.c:345-355 | with equal requests that fails: the arm goes down twice |
| DiskElevator.BelowSweep | linux-0.01/kernel/hd.c:345-352 | a request that fits nowhere and lies before the last entry lies before the whole last sweep |
| KernelHeap.Heap.constructor | ksrc/kmalloc.c:21-29 | one chunk, the whole arena |
| KernelHeap.Heap.FindChunk | ksrc/kmalloc.c:37-54 | a smallest chunk that is big enough, or the certainty that there is none |
| KernelHeap.Heap.Kmalloc | ksrc/kmalloc.c:32-72 | best fit: the block is cut from the beginning of the chunk; fails exactly if no chunk has the length and four bytes more; of the bytes that can be handed out just those are gone |
| KernelHeap.Heap.Kfree | ksrc/kmalloc.c:76-112 | the block but for its last four bytes can be allocated again if and only if the new chunk gets a slot that is looked at or a neighbour is free; which slot that is; what was lost stays lost |
| KernelHeap.Heap.FixChunk | ksrc/kmalloc.c:114-142 | one merge keeps chunks and blocks disjoint and every byte, and gets nearer to the end, also with chunks of length zero; if nothing is merged there is no neighbour |
| KernelHeap.Heap.Merge | ksrc/kmalloc.c:106-107 | the repeated merging ends; a hidden chunk comes into sight exactly if it touches a visible one |
| KernelHeap.Heap.Leak | ksrc/kmalloc.c:76-112 | two blocks are allocated and freed; the first is then in no slot and in no block, and so it stays over any later sequence of operations |
| KernelHeap.Heap.Run | ksrc/kmalloc.c:32-142 | over any sequence of allocations and releases of any blocks in use each does what it stands for, byte by byte, free chunks and blocks with headers are disjoint and inside the arena, and what is lost stays lost |
| KernelHeap.Allocated | ksrc/kmalloc.c:59-71 | carving a block keeps everything apart |
| KernelHeap.Joined | ksrc/kmalloc.c:119-138 | joining two neighbours keeps everything apart |
| KernelHeap.JoinedBytes | ksrc/kmalloc.c:119-138 | and loses or invents no byte |
| FloatingByte.Int2Fb | user/lua-5.1.4/src/lobject.c:35-43 | the loop computes the packed form |
| FloatingByte.HalvedUp | user/lua-5.1.4/src/lobject.c:35-43 | repeated halving with rounding up is division by a power of two, rounded up |
| FloatingByte.RoundUp | user/lua-5.1.4/src/lobject.c:35-51 | packing and unpacking is exact below 16, never less, and exceeds by less than 2x/15 |
| FloatingByte.LeastAbove | user/lua-5.1.4/src/lobject.c:35-51 | and gives the least representable number that is not less |
| FloatingByte.PackedMonotone | user/lua-5.1.4/src/lobject.c:35-43 | packing is monotone |
| FloatingByte.PackedBack | user/lua-5.1.4/src/lobject.c:47-51 | every byte is the packed form of what it stands for |
| FloatingByte.BytesMonotone | user/lua-5.1.4/src/lobject.c:47-51 | unpacking is strictly monotone |

## Left out

Lua's collector:
- Weak tables, finalizers and the userdata list that serves them.
- Resizing of the string table (`checkSizes`, `luaS_resize`). In the object graph upvalues name their slot by its level; that moving a stack keeps levels and values is proved apart from it, in `LuaStack`.
- The part of a stack above its top, and dead keys or empty entries in tables: the collector clears them, the model does not have them.
- Pacing: thresholds, estimates and debts. A step may be taken at any time.
- Closing the whole state, but for the test that then decides what is kept.
- LuaSweep.WorkDecreases: is about one step; that the loops end follows from the `decreases` clauses of the methods that use it.

Paging:
- Paging.Memory.FreePage: the address HIGH_MEMORY itself, for which the source looks one place behind the end of its table of counts.
- The first fork, which copies only 160 pages and is not copy-on-write, and `exec`.
- The contents of the task structure, segment sizes that are no multiple of four megabytes, and flushing the processor's translations.

Files:
- Failing reads, and blocks that are freed while a buffer for them is held elsewhere.
- Inode allocation, sizes, times and dirty flags.

The code generator:
- LuaFuncState.FuncState.Compile: when a misplaced value is asked for is stated exactly; that the code is right is stated for the case that none is. If one is asked for, the code may still be right: the jump may sit in code that no run reaches, as in `((true or (1 or false)) and true) or false`, and which code is reached depends on the locals, the globals and what comparisons do.
- Merging of adjacent LOADNIL instructions in `luaK_nil`; a LOADNIL is always emitted.
- Line information; the limit on nesting; calls, `...`, indexed variables, upvalues, arithmetic and constant folding; assignment to locals.
- Code that is too long and lack of registers set a flag where the source raises an error.
- Metamethods that change the locals of the function that is running.

The bytecode checker:
- That instructions with an open operand list come only behind open ones.
- Debug information, and nested prototypes, each of which is checked by itself.

Buffers:
- Contents of buffers and what `sync_dev` writes; read errors; 8-bit overflow of `b_count`.
- There are more buffers than processes, which the source takes for granted.

Scheduler and sleep queues:
- `interruptible_sleep_on`, which signals there are, the parts of `copy_process` and `do_exit` that have no influence on scheduling, and the task switch itself.
- Scheduler.WaitBound: only ticks in user mode are counted, as the source reschedules on no others, and only while no task is forked, since each new task brings its own slice.

Disk requests:
- Interrupts inside `add_request`, retries, and the transfer itself.
- DiskElevator.Disk.AddRequest: two sweeps are promised while no two waiting requests are for the same place, as the locks of the buffers see to.

Kernel heap:
- KernelHeap.Heap.Kfree: of blocks in use only, and while the table has room, which is what the source demands of its callers without checking it.
- Lengths whose sum with the header wraps around; callers that overwrite the length in front of their block. The source panics where `Kmalloc` reports failure.

Floating bytes:
- FloatingByte.RoundUp: sizes above 15 * 2^27 are excluded; what they are rounded up to does not fit into the source's 32-bit `int`.
- `luaO_log2`.

Not modelled at all:
- Hardware, boot, interrupts, console and file path look-up of both kernels; CSOS's tasks and FAT; the C library; Lua's libraries. They would add easy members, or rest on device behaviour.
