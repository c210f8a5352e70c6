# Verification of the Lua 5.4 runtime and the hub's codecs

The hub runs its core and its plugins on a bundled Lua 5.4.8, and its protocol code on a small codec library. This
project models the parts of both whose correctness rests on an invariant that no single function shows, and proves what
they promise, in Dafny 4.11. `dafny verify dfyconfig.toml` checks all of it.

- **The incremental garbage collector** (`lua/src/lgc.c`). Objects, their colours and the collector's lists are the
  state of one class; the write barriers, the single steps of a cycle, the atomic phase with ephemeron convergence,
  weak tables and resurrection, and the sweep are its methods. A program that loads, stores, creates, captures, closes,
  resizes tables and interns strings runs interleaved with the steps in any way. Files: `GcObjects` (objects and
  reachability), `GcMarking` (what one visit does), `GcState` (the state, marking and the atomic phase), `GcWorld` (the
  invariant), `GcWrites`, `GcAlloc`, `GcTables` and `GcMutator` (the program), `GcSweep` and `GcCycle` (sweeping),
  `GcPhases` and `GcSteps` (phases), `GcLists` and `GcDriver` (finalizers, dead and fixed strings, whole collections),
  `GcExact` (what a whole collection keeps and frees, exactly), `GcStrings` (interning), `GcEffects` (what the actions of
  a program mean), `GcProgram` (runs).
- **The one-pass compiler** (`lua/src/lcode.c`, `lua/src/lparser.c`). Conditions and simple expressions are compiled
  with jump lists threaded through unfinished instructions, and the code is run by a small machine: `JumpCode` (the
  machine and the lists), `ExprSpec`, `ExprLemmas`, `ExprLogic`, `ExprJoin` and `ExprHas` (what code with pending jumps
  computes), `CodeGen` (the generator). `Assignment` has multiple assignment, `Scoping` names and upvalue chains,
  `OperatorParser` operator precedence, `JumpThreading` the final pass, `LineInfo` the line table.
- **The stack** (`lua/src/lfunc.c`, `lua/src/ldo.c`): open upvalues, to-be-closed variables and relocation
  (`LuaStack`), and programs that use captured variables (`StackProgram`).
- **Strings and sorting**: the table of short strings (`StringTable`) and `table.sort` (`TableSort`).
- **The codecs of the hub** (`adclib/`): `Base32`, `Utf8` and `Tiger`.

`Folding` holds one predicate that is always true. Where a definition is quantified over it, the solver unfolds the
definition only where a proof asks for it, by asserting the predicate.

## Model

| member | source | states |
|---|---|---|
| `GcProgram.RunNew` | lua/src/lgc.c:1585-1645 | From a new state, after any sequence of actions of the program and of single steps and full collections, the invariant holds, whatever the program can reach by references of any kind is in the heap and is not dead, and every action on the way, from the initial state to the last one, had the effect that `GcEffects.Effect` gives it. |
| `GcProgram.Run` | lua/src/lgc.c:1585-1645 | The same from any state that satisfies the invariant. |
| `GcProgram.RunCycle` | lua/src/lgc.c:1568-1645 | Completeness: every object that was unreachable when a cycle started is gone at the first pause after it, whatever the program did in between, each action with its effect, unless it is a short string whose content was interned again. |
| `GcProgram.Do` | lua/src/lapi.c:896-990 | Every action has the effect on heap and roots that `GcEffects.Effect` states apart from the methods, and keeps the invariant: a load pushes the value at its source, a store changes the one field and nothing if the operands do not fit, a step of the collector does what `GcDriver.SingleStep` promises, and a full collection frees everything that was unreachable; no action between two pauses changes what counts as garbage, but that interning revives the string with that content. |
| `GcEffects.ReadBack` | lua/src/lapi.c:896-990 | What an action stores is read from that place afterwards; an upvalue that is joined reads like the other one; if the object has no such field, or cannot hold the value, nothing changes. |
| `GcEffects.Invisible` | lua/src/lgc.c:1585-1645 | The collector is invisible: whatever the program can read, through its stack, tables, userdata, upvalues, other stacks or roots, reads the same after any step and after a full collection, but for an entry of a weak table whose weak key or value is not strongly accessible and no string: it may read as nil. |
| `GcProgram.JoinUpvalue` | lua/src/lapi.c:1453-1461 | A closure refers to the upvalue of another closure from then on; nothing else of the heap changes, and the invariant is kept. |
| `GcWorld.AtEveryState` | lua/src/lgc.h:15-25 | The invariant in plain words: each object is on exactly one of 'allgc', 'finobj', 'tobefnz' and 'fixedgc'; while marking no black object refers to a white one, and each gray object that can be listed is in exactly one gray list, once; nothing accessible is freed or dead. |
| `GcWorld.InitialSound` | lua/src/lstate.c:363-416 | A new state satisfies the invariant. |
| `GcWorld.OneString` | lua/src/lstring.c:189-216 | At every state of a run, through collections and revivals, two short strings of the heap are the same object exactly if they have the same content. |
| `GcStrings.InternString` | lua/src/lstring.c:189-216 | The string given has the content asked for, and is the one the heap had with it, if any, dead or alive; it is pushed, safe to use, and no other object changes; the invariant is kept, in every phase. |
| `GcStrings.NewString` | lua/src/lstring.c:204-215 | A content that no string of the heap has gets a new object; the names of the objects there were stay. |
| `GcDriver.SingleStep` | lua/src/lgc.c:1585-1645 | Every step of the collector keeps the invariant and the order of the phases; what is strongly accessible survives it, alive and with what can be read of it; what is unreachable is recorded as garbage when a cycle starts and only then; a step marks what the rules call for and no more; it either calls the finalizer of the first object that awaits it or brings the cycle closer to its end. |
| `GcDriver.FullGc` | lua/src/lgc.c:1710-1739 | A full collection from any state of a cycle ends at a pause; it frees all that is unreachable, adds nothing, and what is strongly accessible survives with what can be read of it. It is exact: whatever is left is a string, or strongly accessible, or needed by an object to be finalized; the objects with finalizers that are not strongly accessible are to be finalized, after those that already were, in the order of their list, which has the last marked one first; and of the weak values in tables that are strongly accessible exactly those that are objects other than strings and not strongly accessible themselves are gone. |
| `GcExact.CycleExact` | lua/src/lgc.c:1710-1720 | The same of one cycle without the program, from a pause over the atomic phase to the next pause. |
| `GcDriver.Abandon` | lua/src/lgc.c:1711-1712 | Giving up a cycle by sweeping everything back to white keeps the invariant and frees nothing that is alive; while marking nothing is dead. |
| `GcPhases.MarksExact` | lua/src/lgc.c:1525-1545 | When the first part of the atomic phase ends, everything marked, strings included, is in the least set that holds the roots and what was marked before and is closed under the marking rules; and an object other than a string is marked if and only if it is strongly accessible from these. |
| `GcExact.MarkedExactly` | lua/src/lgc.c:1544-1560 | When the atomic phase has ended, resurrection included, whatever is marked is a string, or strongly accessible from what was marked before and the roots, or needed by an object to be finalized. |
| `GcPhases.FinishSound` | lua/src/lgc.c:1525-1565 | When the atomic phase has ended and the sweep starts the invariant holds again: whatever is not marked is dead, and nothing alive refers to it. |
| `GcPhases.FinishSafe` | lua/src/lgc.c:1525-1565 | What the program can reach strongly when the atomic phase starts is alive when it ends. |
| `GcPhases.SeparatedExactly` | lua/src/lgc.c:1544-1551 | Of the objects with finalizers, exactly those that are not strongly accessible are to be finalized when the atomic phase ends, after those that already were and in the order of the list, and the others keep waiting. |
| `GcPhases.ClearedExactly` | lua/src/lgc.c:725-762 | Of a weak table that is strongly accessible an entry is gone when the atomic phase ends if and only if its value is weak and is an object, other than a string, that is not strongly accessible, or its key is weak and is an object, other than a string, that is not marked even after what is to be finalized was; all other entries stay as they are. |
| `GcPhases.AllSweptAlive` | lua/src/lgc.c:1612-1615 | When 'allgc' has been swept to its end no dead object is left on any list. |
| `GcPhases.PauseAlive` | lua/src/lgc.c:824-845 | Between two cycles every object has the current white, but for fixed strings. |
| `GcState.GlobalState.constructor` | lua/src/lstate.c:363-416 | A new state holds a white main thread and nothing else, and is at a pause. |
| `GcState.GlobalState.ReallyMark` | lua/src/lgc.c:297-329 | A white object and what is visited with it get marked, within any set that is closed under the marking rules; gray ones are queued exactly once; a string only turns black. |
| `GcState.GlobalState.TraverseWeakValue` | lua/src/lgc.c:446-465 | Visiting a table with weak values marks its keys; unless every value in it is marked it waits in a list for the atomic phase, or for clearing; no entry is lost. |
| `GcState.GlobalState.TraverseEphemeron` | lua/src/lgc.c:480-520 | Visiting an ephemeron table marks the values of marked keys and nothing outside the marking rules; if it reports that nothing was marked then only strings were, and every marked key has a marked value; otherwise there are fewer white objects. |
| `GcState.GlobalState.TraverseTable` | lua/src/lgc.c:542-562 | Each weak mode keeps the marking invariant, leaves the table in the list its entries call for, and loses no entry. |
| `GcState.GlobalState.TraverseThread` | lua/src/lgc.c:629-654 | A visited thread waits for the atomic phase while the program can change it, and is black after its last visit; if it has open upvalues it is in 'twups' again. |
| `GcState.GlobalState.TraverseUdata` | lua/src/lgc.c:565-572 | A visited userdata is black and refers only to marked objects. |
| `GcState.GlobalState.TraverseSlots` | lua/src/lgc.c:580-614 | So is a visited closure or prototype. |
| `GcState.GlobalState.PropagateMark` | lua/src/lgc.c:660-673 | Visiting one gray object keeps the marking invariant, and reduces the sum of gray and white objects. |
| `GcState.GlobalState.PropagateAll` | lua/src/lgc.c:676-681 | Propagation ends, with no object waiting and the invariant kept. |
| `GcState.GlobalState.ConvergeRound` | lua/src/lgc.c:694-709 | A round over the ephemeron tables that asks for another one leaves fewer white objects; one that does not leaves every marked key with a marked value in all of them. |
| `GcState.GlobalState.ConvergeEphemerons` | lua/src/lgc.c:691-710 | Convergence ends, within any set closed under the marking rules, with a marked value for every marked key of the tables that are still listed. |
| `GcState.GlobalState.AtomicMarkLeast` | lua/src/lgc.c:1533-1545 | The first part of the atomic phase marks the least set that holds what was marked and the roots and is closed under strong references and the marking rules. |
| `GcState.GlobalState.ClearByValues` | lua/src/lgc.c:744-762 | No table of that part of the list keeps an entry whose value is not marked, and no entry is lost for another reason than a weak value that is an unmarked object other than a string; strings are marked instead. |
| `GcState.GlobalState.ClearByKeys` | lua/src/lgc.c:725-737 | No table of the list keeps an entry whose key is not marked; only strings are marked; the other knowledge about tables is kept. |
| `GcState.GlobalState.RemarkUpvals` | lua/src/lgc.c:367-391 | Afterwards a marked open upvalue of a white thread has a marked value, and 'twups' holds only marked threads. |
| `GcState.GlobalState.SeparateToBeFnz` | lua/src/lgc.c:974-991 | The white objects of 'finobj' go to the end of 'tobefnz', in order, and the others stay, in order. |
| `GcState.GlobalState.RunAtomic` | lua/src/lgc.c:1525-1565 | The whole atomic phase: what is marked refers only to what is marked; strong marks are exact, and what is marked after them is needed by an object to be finalized, or a string; weak tables lose only entries whose weak value is not strongly accessible, or whose weak key is not marked in the end, never for a string, and strongly accessible ones keep no such value; of the objects with finalizers exactly those that are not strongly accessible move to the end of 'tobefnz', in order; the white flips. |
| `GcSteps.RestartStep` | lua/src/lgc.c:403-409 | Starting a cycle marks the roots and what the rules call for because of them, and nothing else, keeps the invariant, and records as garbage exactly what is unreachable then. |
| `GcSteps.PropagateStep` | lua/src/lgc.c:1597-1605 | A propagation step keeps the invariant, loses no entry, marks only what the rules call for because of what was marked, and makes progress. |
| `GcSteps.AtomicStep` | lua/src/lgc.c:1606-1611 | The atomic phase with the sweep up to the first live object keeps the invariant and what is strongly accessible, adds no object, and concludes the marking as `GcPhases.SeparatedExactly`, `GcPhases.ClearedExactly` and `GcExact.MarkedExactly` say. |
| `GcSteps.SweepStep` | lua/src/lgc.c:1568-1582 | A sweep step frees only dead objects and passes at most GCSWEEPMAX objects; at the end of a list it moves on to the next one. |
| `GcSteps.SweepToLive` | lua/src/lgc.c:851-857 | The pointer moves past exactly one object that stays, or the list ends; what it skips is freed. |
| `GcCycle.SweepList` | lua/src/lgc.c:824-845 | Sweeping passes exactly `countin` objects, or the rest of the list; only dead objects are freed, and the order of the others does not change. |
| `GcCycle.FreeObject` | lua/src/lgc.c:772-814 | Freeing removes the object from the heap and from its list, and from the upvalues of its thread or the threads with upvalues; nothing alive is freed. |
| `GcMutator.Barrier` | lua/src/lgc.c:208-223 | After a store that may have broken the tri-colour invariant for one reference the forward barrier restores the whole invariant, by marking the one value, with what the rules call for and no more, or by sweeping the one object. |
| `GcMutator.BarrierBack` | lua/src/lgc.c:230-240 | The backward barrier does so by turning the object gray again, which it does to that object alone. |
| `GcMutator.NewObject` | lua/src/lgc.c:258-267 | A new object has the current white and is the first of 'allgc'; the invariant is kept, in every phase. |
| `GcMutator.SetArray` | lua/src/lapi.c:921-930 | A store into the array part changes that slot of the table only, and keeps the invariant. |
| `GcMutator.SetEntry` | lua/src/lapi.c:896-906 | A store under an existing key changes that value only, and keeps the invariant. |
| `GcMutator.AddEntry` | lua/src/lapi.c:896-906 | A store under a new key adds that entry only, and keeps the invariant. |
| `GcTables.Resized` | lua/src/ltable.c:508-586 | Whatever the new size of the array part, every entry of the new parts was one of the table; if no key was in it twice, every entry is still there and no key is in it twice; empty nodes and dead keys are gone. |
| `GcMutator.Resize` | lua/src/ltable.c:553-586 | Resizing a table changes its two parts like that and nothing else, and keeps the invariant without a barrier, in every phase. |
| `GcMutator.SetUserValue` | lua/src/lapi.c:973-990 | Setting a user value changes it only, and keeps the invariant. |
| `GcMutator.SetMetatable` | lua/src/lapi.c:933-970 | Setting a metatable changes it only, keeps the invariant, and nothing alive dies. |
| `GcMutator.SetClosedUpval` | lua/src/lapi.c:1398-1415 | Assigning to a closed upvalue changes it only, and keeps the invariant. |
| `GcMutator.SetOpenUpval` | lua/src/lapi.c:1398-1415 | Assigning to an open upvalue changes the stack slot it stands for only, with the invariant kept though the thread need not be accessible. |
| `GcMutator.FindUpval` | lua/src/lfunc.c:87-99 | The open upvalue of the slot is given: the one there is, or, if there is none, a new one, with the thread in 'twups'; the invariant is kept. |
| `GcMutator.CloseUpval` | lua/src/lfunc.c:193-207 | Closing moves the value of the slot into the upvalue, which is black then unless it was white, and keeps the invariant. |
| `GcDriver.CheckFinalizer` | lua/src/lgc.c:1019-1041 | An object that gets a finalizer moves to the front of 'finobj', once, whatever the phase and wherever the sweep pointer is; nothing alive dies or changes. |
| `GcDriver.CallFinalizer` | lua/src/lgc.c:907-932 | The first object of 'tobefnz' returns to 'allgc' and is pushed for its finalizer; the invariant is kept. |
| `GcDriver.InternHit` | lua/src/lstring.c:196-203 | A string found by its content is safe to use again, even a dead one, which gets the current white; the invariant is kept. `GcStrings.InternString` finds it. |
| `GcDriver.Fix` | lua/src/lgc.c:243-251 | The newest object moves to 'fixedgc' and is gray for ever; the invariant is kept. |
| `CodeGen.FuncState.ExpressionToNextReg` | lua/src/lparser.c:1259-1286 | Compiling any expression of constants, locals, upvalues, comparisons, 'not', 'and' and 'or' emits code that, from any state, ends just behind itself with the value of the expression in the next register, all registers in use being unchanged, whatever constants, upvalues and order relations are; runs that stopped before are not disturbed. It is refused only near the limit of registers or of jump distances. |
| `CodeGen.FuncState.AssignLocal` | lua/src/lcode.c:1050-1056 | The same with the value in the register of a local variable, the other registers in use being unchanged. |
| `CodeGen.FuncState.Condition` | lua/src/lparser.c:1637-1671 | The code for a condition goes through exactly if it is true, and otherwise stops at one of the jumps of the list that is returned; no register in use changes. |
| `CodeGen.FuncState.Expression` | lua/src/lparser.c:1259-1286 | One pass over an expression leaves a descriptor with two lists of pending jumps that together describe its value. |
| `CodeGen.FuncState.Exp2Reg` | lua/src/lcode.c:916-938 | Whichever way a run takes through the pending jumps, the value ends up in the register. |
| `CodeGen.FuncState.Exp2AnyReg` | lua/src/lcode.c:956-971 | The value is in some register, its own one if it has one and no jumps, without change. |
| `CodeGen.FuncState.NeedValue` | lua/src/lcode.c:900-906 | True exactly if some jump of the list has no value of its own. |
| `CodeGen.FuncState.PatchListAux` | lua/src/lcode.c:289-299 | Every jump of the list leads to its target, with its value stored or dropped; no other instruction changes. |
| `CodeGen.FuncState.Concat` | lua/src/lcode.c:182-193 | The result lists the jumps of both lists in order; only links of the first list change. |
| `CodeGen.FuncState.JumpOnCond` | lua/src/lcode.c:1117-1129 | The test and its jump are emitted for the value, a NOT that was just emitted being removed and the test inverted. |
| `CodeGen.FuncState.GoIfTrue` | lua/src/lcode.c:1135-1156 | The code goes through if the value is true; otherwise it stops at a jump of the list, which carries that value if it carries one. |
| `CodeGen.FuncState.GoIfFalse` | lua/src/lcode.c:1162-1182 | The same for a false value. |
| `CodeGen.FuncState.CodeNot` | lua/src/lcode.c:1188-1216 | The descriptor yields the negated value, its lists having changed places and lost their values. |
| `CodeGen.FuncState.CodeOrder` | lua/src/lcode.c:1553-1578 | The jump is taken exactly if the comparison of the source holds, with immediate operands on either side and operands turned round. |
| `CodeGen.FuncState.CodeEq` | lua/src/lcode.c:1585-1610 | The jump is taken exactly if the values are equal, or are not, with constants and immediates as operands and operands exchanged. |
| `CodeGen.FuncState.InfixLogic` | lua/src/lcode.c:1640-1647 | The code of the first operand goes through exactly if the second one decides, and otherwise stops at a jump of the list. |
| `CodeGen.FuncState.PosfixLogic` | lua/src/lcode.c:1712-1723 | Joining the lists of both operands gives a descriptor of the 'and' or 'or' of the two. |
| `CodeGen.FuncState.AddK` | lua/src/lcode.c:544-570 | The index given is that of the constant, though the cache is shared with other functions; constants are only added. |
| `CodeGen.FuncState.FixJump` | lua/src/lcode.c:168-176 | A jump is fixed exactly if the distance can be encoded; nothing else changes. |
| `JumpCode.PatchedOne` | lua/src/lcode.c:289-299 | Patching one pending jump sends exactly the runs that had stopped there to the target, with the value the test passes on. |
| `JumpCode.RunOn` | lua/src/lcode.c:383-391 | When code is added, or pending jumps get targets, a run goes on from where it had stopped. |
| `JumpThreading.Finish` | lua/src/lcode.c:1847-1875 | The final pass, in place, leaves every landing as it was, from every position, cycles of jumps included; a jump of the finished code leads to a jump only if 100 hops of the unfinished code do; no other instruction changes but to complete returns; it is refused only if the code is longer than a jump can span. |
| `JumpThreading.RunsSame` | lua/src/lcode.c:1847-1875 | For any state and any semantics of the effects, a run of the finished code does step by step what the unfinished code wants: the same values returned or passed on from the same registers, upvalues closed and the vararg frame moved back where the function needs it. |
| `JumpThreading.CompletedMeans` | lua/src/lcode.c:1853-1866 | A completed return or tail call has the effect that the function's flags call for, whichever of the three forms of a return it had. |
| `JumpThreading.FinalTarget` | lua/src/lcode.c:1830-1840 | The target is where at most 100 hops lead. |
| `JumpThreading.ThreadedOnly` | lua/src/lcode.c:1866-1871 | Threading one jump adds no landing, so that an endless cycle of jumps stays one. |
| `Assignment.FuncState.Assign` | lua/src/lparser.c:1374-1402 | The code of a multiple assignment of any length has the effect of a simultaneous one, on locals, upvalues and tables, errors of indexing included; it is refused only if there are too many registers. |
| `Assignment.FuncState.CheckConflict` | lua/src/lparser.c:1330-1365 | Afterwards no store can change an operand of a store that is done later, and the code still computes all operands. |
| `Assignment.FuncState.AdjustAssign` | lua/src/lparser.c:482-501 | There is one value for each variable: missing ones are nil, and extra ones are evaluated and dropped. |
| `Assignment.FirstWins` | lua/src/lparser.c:1400-1401 | Of several occurrences of one place, a local, an upvalue or a field of a table, the first one on the left gets its value last. |
| `Assignment.NothingElse` | lua/src/lparser.c:1374-1402 | No place that is none of the variables changes. |
| `Assignment.FailsExactly` | lua/src/lparser.c:1374-1402 | The assignment fails exactly if one of the variables is to be a field of what is no table, or has the key nil. |
| `Assignment.Exchange` | lua/src/lparser.c:1374-1402 | `a, b = b, a` exchanges two variables. |
| `Scoping.Parser.SingleVarAux` | lua/src/lparser.c:435-456 | For any nesting and shadowing the descriptor leads, along the chain of upvalues, to the variable that lexical scoping names, or to none if it names none; variables and existing upvalues do not change, and a function gets at most one new upvalue, which has that name, and none if it has one; the block of a captured local is marked; it is refused only if a function has all the upvalues it can have. |
| `Scoping.Parser.SingleVar` | lua/src/lparser.c:463-475 | A name is resolved to its variable, or to a field of the variable that '_ENV' names there. |
| `Scoping.Parser.NewUpvalue` | lua/src/lparser.c:364-382 | The new upvalue leads to what the enclosing function means by the name; it is refused exactly at the limit. |
| `Scoping.FollowFrozen` | lua/src/lparser.c:342-349 | A chain of upvalues still leads to the same variable after upvalues were added, so that one can be reused by name. |
| `Scoping.RegisterOnce` | lua/src/lparser.c:229-236 | No two active variables share a register. |
| `Scoping.Parser.LeaveBlock` | lua/src/lparser.c:672-692 | The variables of the block go out of scope, the others stay, and it tells whether one of the block was captured. |
| `OperatorParser.SubExprComplete` | lua/src/lparser.c:1259-1286 | From the tokens of any tree that fits the priorities the parser builds that tree and consumes exactly these tokens, unless the nesting is too deep. |
| `OperatorParser.ReadsManual` | lua/doc/manual.html:2424-2450 | The parser reads exactly the grammar of the manual, with its levels and associativities and no priorities: from the tokens of any tree of it that tree is built, unless the nesting is too deep, and what is built is a tree of it. |
| `OperatorParser.FitsLayered` | lua/src/lparser.c:1235-1248 | The trees that fit the table of priorities are those of the manual's grammar, for every limit. |
| `OperatorParser.Grouping` | lua/doc/manual.html:2424-2450 | How three constants group with any two binary operators, given by their tokens: by the levels of the manual, and on equal levels to the left, but to the right for `..` and `^`. |
| `OperatorParser.UnaryFirst` | lua/src/lparser.c:1259-1286 | A unary operator in front of two operands takes only a power as a whole. |
| `OperatorParser.UnaryLast` | lua/src/lparser.c:1259-1286 | A unary operator may follow any binary one, and takes the operand behind it. |
| `OperatorParser.Unique` | lua/src/lparser.c:1235-1248 | The priorities leave one tree only. |
| `OperatorParser.RejectedRightly` | lua/src/lparser.c:1259-1286 | A syntax error is reported only for tokens that begin no tree that fits. |
| `OperatorParser.PrintParse` | lua/src/lparser.c:1235-1286 | Any tree, printed with the parentheses that the priorities call for, is read back. |
| `OperatorParser.NoneNeeded` | lua/src/lparser.c:1235-1248 | A tree that fits is printed without added parentheses. |
| `OperatorParser.Association` | lua/src/lparser.c:1273-1283 | Two operators in a row associate to the right exactly if the second one's left priority is above the first one's right priority. |
| `OperatorParser.LexState.ParseSubexpr` | lua/src/lparser.c:1259-1286 | The recursive method with its call counter computes the specification above, and gives back the first operator that it does not take. |
| `LineInfo.Compile` | lua/src/lcode.c:330-376 | After any sequence of saved, fixed and replaced lines, each replacement removing at most two, the table gives for every instruction the line that was recorded last. |
| `LineInfo.EstimateValid` | lua/src/ldebug.c:69-72 | The estimate of the checkpoint, a division, is never beyond the right one. |
| `LineInfo.LineTable.GetFuncLine` | lua/src/ldebug.c:86-98 | The reader gives the line of the instruction. |
| `LineInfo.LineTable.ChangedLine` | lua/src/ldebug.c:873-891 | True exactly if the lines of the two instructions differ, whichever way it is found. |
| `LineInfo.LineTable.SaveLineInfo` | lua/src/lcode.c:330-345 | The line is added to the lines; the table encodes them after that exactly if the difference saved, if one is, is to the line of the instruction before. |
| `LineInfo.LineTable.RemoveLastLineInfo` | lua/src/lcode.c:354-366 | The last line is removed, and a checkpoint with it; what the table encodes is right, whatever was removed before. |
| `LineInfo.LineTable.Recut` | lua/src/lcode.c:330-376 | After any number of removals and a save the table is right exactly if no absolute entry was removed, or the first such entry stood at the first or the second position removed, or the line differences at such entries add up to zero, or the new entry is absolute anyway; with at most two removals it always is. |
| `LineInfo.ThreeRemoved` | lua/src/lcode.c:354-366 | Lines 1, 2 and 1000 saved and removed, and then line 998 saved: the table tells line 0. |
| `LuaStack.LuaThread.FindUpval` | lua/src/lfunc.c:87-99 | The one open upvalue of the slot is found, or a new one is linked in its place of the sorted list. |
| `LuaStack.LuaThread.CloseUpval` | lua/src/lfunc.c:193-207 | Exactly the open upvalues at the level or above are closed, and every upvalue has the value it had. |
| `LuaStack.LuaThread.SetUpval` | lua/src/lapi.c:1398-1415 | Assigning through an upvalue is seen through it, and, while it is open, in its stack slot, and nowhere else. |
| `LuaStack.LuaThread.NewTbcUpval` | lua/src/lfunc.c:168-179 | A variable is pushed on the list of those to be closed, over a gap of any size; false values are skipped and values without a closing method are refused; no stack value changes. |
| `LuaStack.LuaThread.PopTbcList` | lua/src/lfunc.c:213-220 | The last variable is removed, and the head is the one pushed before it. |
| `LuaStack.LuaThread.Close` | lua/src/lfunc.c:227-237 | Exactly the pending variables at the level or above are closed, the newest first, and exactly the upvalues there, though closing may move the stack; every upvalue and every slot below the top has the value it had. |
| `LuaStack.LuaThread.ReallocStack` | lua/src/ldo.c:219-242 | All pointers lead to the same positions of the new block, which has the values of the old one; without memory nothing moves. |
| `LuaStack.LuaThread.MoveStack` | lua/src/ldo.c:162-242 | Moving the stack changes the value of no upvalue. |
| `LuaStack.LuaThread.GrowStack` | lua/src/ldo.c:249-276 | There is room as asked for, in a stack twice as large if that is enough and within the limit, or it is told exactly why not, and nothing is lost; an overflow leaves the extra room for handling it. |
| `LuaStack.LuaThread.ShrinkStack` | lua/src/ldo.c:307-319 | Memory permitting, the stack gets smaller exactly if it is more than three times as large as what is in use, or beyond the limit with no error being handled, and is then twice as large as that or at the limit; what is in use is kept. |
| `StackProgram.RunNew` | lua/src/lfunc.c:65-237 | Over any run of declaring, capturing, reading, writing, marking variables as to be closed, leaving scopes, at once or step by step with anything in between, and moving the stack, every variable read, through an upvalue or in its slot, has the value last written to it, before and after it is closed; the closing methods are called for exactly the variables that were marked and whose scope is left, the newest first; and a variable without such a method is refused. |
| `StackProgram.OnePerSlot` | lua/src/lfunc.c:87-99 | There is at most one open upvalue for a slot. |
| `StringTable.StrTab.Run` | lua/src/lstring.c:62-216 | Over any sequence of interning, removing and resizing, failed or not, the table stays valid, and its contents and size are exactly those that the sequence calls for; a string that is not removed stays, the same object; what is interned has the content asked for; and interning fails exactly where it must. |
| `StringTable.SameObject` | lua/src/lstring.c:189-216 | Two contents that could be interned, and were not removed since, gave the same object exactly if they are equal. |
| `StringTable.SucceedAt` | lua/src/lstring.c:189-216 | Each interning of a run gives a string unless the content is not there and there is no memory for it, or the strings cannot be counted any more. |
| `StringTable.StrTab.Counted` | lua/src/lstring.c:189-216 | Of every content there is one string, and the count is exact. |
| `StringTable.TableRehash` | lua/src/lstring.c:62-77 | In-place rehash loses and duplicates no string, and puts each in the bucket of its hash, though a string may be moved twice. |
| `StringTable.StrTab.Resize` | lua/src/lstring.c:85-103 | The table gets the new size, or keeps the old one if the allocation fails; it is valid in both cases. |
| `StringTable.StrTab.Intern` | lua/src/lstring.c:189-216 | The string there is, or a fresh one, is given; it fails exactly if there is none and memory is refused, or the table is full of as many strings as can be counted even after a collection; the table grows when it is full. |
| `StringTable.StrTab.Remove` | lua/src/lstring.c:165-172 | Exactly that string is unlinked. |
| `TableSort.Sort` | lua/src/ltablib.c:399-409 | For any comparison at all the elements stay the same ones and the call ends; for a strict weak order, or at most three elements, there is no error; for an order the result is sorted; and for a comparison that is always true an error is reported for four elements or more. |
| `TableSort.Unreported` | lua/src/ltablib.c:345-409 | A comparison that is always true is no order, and sorting two elements by it reports no error. |
| `TableSort.AuxSort` | lua/src/ltablib.c:345-396 | The same for an interval, outside which nothing changes; the depth of recursion is at most the logarithm of its length, for any comparison and any random numbers. |
| `TableSort.Partition` | lua/src/ltablib.c:298-327 | For any comparison every access is inside the interval; for an order the result is partitioned around the position given. |
| `Base32.RoundTrip` | adclib/base32.cpp:25-87 | Decoding what was encoded gives back any sequence of bytes. |
| `Base32.ToBase32` | adclib/base32.cpp:25-51 | The text spells exactly the bits of the bytes, five a character, with zeros at the end, and is as short as can be. |
| `Base32.Alphabet` | adclib/base32.cpp:23-23 | The characters written are the 32 letters and digits of table 3 of RFC 4648, each for its value. |
| `Base32.ReadAlphabet` | adclib/base32.cpp:13-21 | A character has a value exactly if it is one of these, or the small letter of one, and then that value. |
| `Base32.FromBase32` | adclib/base32.cpp:53-87 | The buffer gets exactly the first bits of the values of the characters of the alphabet, in upper or lower case, other characters being skipped, with zeros after them; the positions written are those of `Base32.Writes`, all inside the buffer. |
| `Base32.WritesInside` | adclib/base32.cpp:53-87 | All positions written are inside the buffer exactly if it is not empty, or the text has no character of the alphabet. |
| `Base32.NeverFull` | adclib/base32.cpp:62-85 | The end of an empty buffer is never reached: the byte of every value is written. |
| `Base32.EmptyBuffer` | adclib/base32.cpp:62-85 | Three characters are written to positions 0, 0, 1 and 1 of an empty buffer. |
| `Utf8.SanitizedIsValid` | adclib/adclib.cpp:153-188 | Repaired text is valid, spells the same code points, and is not changed by a second repair. |
| `Utf8.Unchanged` | adclib/adclib.cpp:153-176 | Repair changes nothing exactly if the text consists of shortest forms. |
| `Utf8.ValidUnchanged` | adclib/adclib.cpp:106-118 | Valid text is left unchanged exactly if it holds no overlong form of four bytes. |
| `Utf8.OverlongAccepted` | adclib/adclib.cpp:106-118 | The bytes f0 80 80 80 are valid and are changed to a single zero. |
| `Utf8.NotLonger` | adclib/adclib.cpp:153-176 | Repaired text is never longer than the text. |
| `Utf8.SanitizeUtf8` | adclib/adclib.cpp:153-176 | The loop computes the repaired text of the specification, which is valid. |
| `Utf8.AcceptsExactly` | adclib/adclib.cpp:77-127 | A step of the decoder is valid exactly at a character of the syntax in section 4 of RFC 3629, or at an overlong form of four bytes. |
| `Utf8.InvalidCovers` | adclib/adclib.cpp:77-127 | An invalid step covers its first byte and the bytes behind it that continue it, as many as it stands for, and stops before any other byte. |
| `Utf8.Local` | adclib/adclib.cpp:153-176 | Repair and validity are local: on both sides of any byte that starts anew they are what they are without the other side, so that nothing valid is lost to what is invalid before it. |
| `Utf8.Chunk` | adclib/adclib.cpp:153-176 | What repair makes of one byte that starts anew and the bytes that continue it: a valid form is kept, in its shortest form, and each other byte becomes an underscore. |
| `Utf8.ValidateUtf8` | adclib/adclib.cpp:178-188 | The loop accepts exactly valid text. |
| `Utf8.EncodedIsValid` | adclib/adclib.cpp:130-151 | Encoding any code points and decoding them gives them back. |
| `Utf8.EncodeReplaces` | adclib/adclib.cpp:130-151 | A number that is no code point is written as U+FFFD. |
| `Tiger.TigerHash.HashPieces` | adclib/tiger.cpp:103-180 | For any compression function, hashing a message in any pieces folds the function over the message padded with 0x01, zeros and its length in bits to whole blocks. |
| `Tiger.TigerHash.Update` | adclib/tiger.cpp:103-143 | Data are added to the message, whatever its length and alignment. |
| `Tiger.TigerHash.Finalize` | adclib/tiger.cpp:145-180 | The result is the fold over the padded message, with one more block when the length has no place. |
| `Tiger.PaddedOnce` | adclib/tiger.cpp:145-178 | Messages of less than 2^61 bytes differ after padding if they differ. |
| `Tiger.PaddedBytes` | adclib/tiger.cpp:145-178 | The padded message byte by byte: the message, 0x01, as few zeros as lead to whole blocks, and the length in bits modulo 2^64, the lowest byte first. |

## Findings

- Valid text need not be a fixed point of the repair: the decoder lets overlong forms of four bytes pass
  (adclib/adclib.cpp:106-118 says so), and the repair shortens them. `Utf8.OverlongAccepted` gives the bytes
  f0 80 80 80 as an example, and `Utf8.ValidUnchanged` the exact condition. Both functions agree with each other
  otherwise: `Utf8.SanitizedIsValid`.
- `FROMBASE32` tells the end of the buffer by comparing the position with the size after it has grown, so that with
  size 0 it never does, and every character of the alphabet is written. `Base32.WritesInside` gives the exact
  condition, `Base32.NeverFull` and `Base32.EmptyBuffer` what is written otherwise. No caller passes an empty buffer
  (adclib/adclib.cpp:231, 246-249, 274-285), and `Base32.FromBase32` asks for one with at least one byte, or for a text
  without such characters.
- `removelastlineinfo` forgets the previous line when it removes an absolute entry, and makes the counter force the next
  entry to be absolute; each relative entry removed after that counts down again. One or two removals in a row are
  right in any case, and `LineInfo.LineTable.Recut` gives the exact condition for any number of them. With three they
  can go wrong: `LineInfo.ThreeRemoved` saves the lines 1, 2 and 1000, removes them, and saves line 998, which is read
  as line 0. Where the function is called (lua/src/lcode.c:373-376, 1121, 1787-1790) a save follows each removal.
- `table.sort` reports "invalid order function" only for a comparison that is no strict weak order, and only for more
  than three elements (`TableSort.Sort`), but need not report it for one that is none: `TableSort.Unreported`.

## Left out

- Generational collection, the pacing of incremental steps, and the collector's memory estimates.
- GcDriver.FullGc: models a full collection that calls no finalizer, as in an emergency; calls of finalizers at the end of a cycle are single steps.
- GcDriver.CallFinalizer: ends when the object is on the stack; what the finalizer does is further actions of the program.
- GcState.GlobalState.TraverseThread: a stack has no slots above its top, and does not shrink when it is visited.
- GcMutator.SetMetatable: the metatable, and with it the mode, of a weak table is chosen when it is created and does not change. The manual lets a change take effect at the next cycle only (lua/doc/manual.html:1017-1020).
- GcMutator.AddEntry: the positions of nodes are given by the caller, and so is when a table is resized and to what size; collision chains and the lookup of keys in `ltable.c` are not part of this model.
- GcStrings.InternString: the table is the set of the short strings of the heap; its buckets are modelled by themselves in `StringTable`. Long strings have no name, and the collection that growing the table may start and the cache of `luaS_new` are left out.
- GcState.GlobalState.RunAtomic: which white is current is modelled, but not the bit patterns of `marked`.
- Userdata and metatables of basic types are numbered; the types of roots that hold no reference are left out.
- CodeGen.FuncState.Expression: arithmetic, concatenation, calls, table accesses, floats, compile-time constants, varargs, metamethods and errors of comparisons; equality is that of values, and '<' and '<=' are any relations.
- CodeGen.FuncState.Condition: models 'if' conditions, and not the replacement of a nil condition by false in loops (lua/src/lparser.c:1409).
- CodeGen.FuncState.AddK: the limit of 2^25 constants, and that of the code size to what an integer can count.
- Assignment.FuncState.Assign: the right-hand sides are pure functions of the variables and the tables as they were, not compiled from text; calls with several results, nil ranges merged into one instruction, constants as values of stores, compile-time constants and the limit of nesting are left out. Assignments through metamethods are, too.
- Assignment.FuncState.AdjustAssign: a call with several results, or '...', at the end of the list.
- Assignment.Exchange: two local variables; the general case is `Assignment.FuncState.Assign`.
- Scoping.Parser.SingleVarAux: 'goto', attributes other than 'const' and 'close', and debug information.
- OperatorParser.SubExprComplete: of the suffixes of an operand, calls with one argument and indices in brackets; constructors, functions and strings as operands are left out.
- LineInfo.Compile: code without debug information, for which the reader answers -1; line differences beyond the width of an integer.
- JumpThreading.Finish: instructions other than jumps, returns and tail calls are opaque.
- LuaStack.LuaThread.Close: a closing method can only move the stack; one that reads, writes or captures variables is a sequence of actions between `CloseUpvals` and `CloseNext` of `StackProgram`. Errors in it are not modelled. A level is above the first slot, which holds the function of the base call.
- LuaStack.LuaThread.FindUpval: the list of open upvalues is a sequence; the back links of its members are not modelled.
- LuaStack.LuaThread.ReallocStack: a block is a new array, and the error raised without memory is a result.
- StringTable.StrTab.Intern: the hash is any function of the content, and its reduction to a bucket is the remainder; a collection during growth removes the contents given; long strings and the cache of `luaS_new` are left out.
- TableSort.Sort: the table is an array of values, the comparison a function without effects that raises no error, and the random numbers any sequence. Tables of 2^31 - 1 elements or more are refused by the source.
- Utf8.SanitizedIsValid: a `wchar_t` of 32 bits; with 16 bits, as on Windows, code points above ffff are truncated.
- Tiger.TigerHash.HashPieces: the compression function is any function of the state and a block, on a machine that stores the lowest byte first.
- The interpreter itself, tables, C functions, coroutine switches inside calls, and the hub's networking, TLS, compression and Lua scripts.
