# Squirrel core in Dafny

This project models the core of the Squirrel 3.0.4 compiler and virtual machine as extended by Squirt, and proves what
that code is for. `dafny verify dfyconfig.toml` checks all of it.

| files | subject | main results |
|---|---|---|
| ControlFlow, Simulation, ControlLaws, Patching, Emitter | structured statements to patched relative jumps, and the loop that runs them | the emitted code halts exactly when and how the statement terminates; a switch enters the first clause with the value; later patching equals aiming from the start |
| TrapBalance | trap pushes and pops | every reachable state has the static traps, exactly if no exit drops 256 or more |
| TableNodes, Table | `SQTable`, a chained scatter table | every run agrees with a finite map; a rehash never causes another |
| Peephole | the optimizer in `AddInstruction` | optimized streams preserve meaning; the side conditions are exact |
| CallFrames, StepLaws, FrameLaws, FrameExamples | the reference machine: boxed variables, absolute frames, generators that hold frames | what each operation does to slots and frames; calls restore their callers; every yield and resume round trip; when a catch lands right; runs that go wrong |
| OpenOuters, Bookkeeping, FrameSteps, Interpreter | `SQVM` and `SQGenerator` on a movable stack, relative frames and one trap list | every run agrees with the reference machine |
| Mark | the mark phase | the target chain holds exactly what can be reached |
| Serial, SerialStreams, SerialExample | `Save` and `Load` | round trip, no prefix loads, streams differ |
| Heapsort | array sorting | permutation for any compare function, failure exactly after a failing call, sorted for a total preorder |
| RefTables, Strings | host references, interned strings | agreement with counters; same object exactly for same text |
| Delegation, Classes, ClassRuns | delegates, class layout | no delegate cycles; every run on slots agrees with named members |
| Wrappers | `Option`, removal from a sequence, bit masks | |

Each component has a reference that does not know the layout: a big-step semantics, a finite map, boxed variables,
a parser, counters, named members. Loops and in-place updates of the original are methods on classes and arrays, and
each is proved against that reference.

Where the code does not meet what one would expect, the model keeps the code and states when it does:

- A `JZ` that is not fused falls into the rule for `SET`; a test of register 0 (`if (this)`) then tests register 255
  (`Peephole.TrimExact`).
- A failing `%` raises nothing, so retargeting it changes which register keeps its value (`Peephole.FuseExact`).
- A frame that is left with traps pushed leaves them on the common trap list (`Bookkeeping.MatchLeave`); compiled code
  does that only where a pop count does not fit (`TrapBalance.FunctionBalanced`).
- `EnterFrame` refuses to grow the stack during a metamethod only after it has pushed the frame
  (`FrameLaws.CallEnters`, `FrameExamples.RefusedExample`).
- A resumed generator's traps still hold the stack base where they were pushed. A catch then moves the frame and all
  its callers, exactly if the generator was resumed elsewhere (`FrameLaws.StaleCatch`, `FrameExamples.StaleExample`).
- A generator call whose result is discarded has target -1, and the generator is stored there all the same, one slot
  below the caller's base. Slots below are safe exactly for targets from 0 up (`FrameLaws.GenerateSpares`,
  `FrameExamples.DiscardedExample`).
- A yield sets the slots of the frame to null before it closes the captured ones. A closure over a generator's variable
  then finds null, and no longer shares the variable with the generator (`FrameLaws.YieldCloses`, `FrameLaws.YieldLoses`).
- POPTRAP keeps its count in a byte, so leaving 256 or more try blocks at once drops too few traps
  (`TrapBalance.TypeFunction`, `TrapBalance.NestReturns`).
- `GetRefCount` files an object that has no references (`RefTables.AskingFiles`).

## Model

| member | source | states |
|---|---|---|
| `Simulation.FunctionCorrect` | SQUIRREL3/squirrel/sqcompiler.cpp:1450-1510 | for every environment and every statement tree whose pop counts fit the instruction's byte, the compiled function halts in a final state if and only if the statement terminates in it: same trace of actions, same result or uncaught error, no trap left |
| `Simulation.Simulate` | SQUIRREL3/squirrel/sqcompiler.cpp:315-416 | every statement placed anywhere in a program drives the machine to the goal of its outcome: the end, the break or continue target, the return, or the innermost handler |
| `Simulation.SimulateWhile` | SQUIRREL3/squirrel/sqcompiler.cpp:1477-1495 | the JZ/JMP loop repeats the body exactly as `while` does, with break and continue |
| `Simulation.SimulateDoWhile` | SQUIRREL3/squirrel/sqcompiler.cpp:1496-1510 | the same for `do`, whose JZ skips the backward jump |
| `Simulation.SimulateForEach` | SQUIRREL3/squirrel/sqcompiler.cpp:1556-1597 | the same for `foreach`, with exhausted containers, generators that die and iteration errors |
| `Simulation.SimulateIterate` | SQUIRREL3/squirrel/sqvm.cpp:1086-1094 | FOREACH and POSTFOREACH reach the body, the exit or a handler as one iteration of the loop does |
| `Simulation.SimulateIfElse` | SQUIRREL3/squirrel/sqcompiler.cpp:1450-1476 | both branches meet after the statement; exactly one of them runs |
| `Simulation.SimulateSwitch` | SQUIRREL3/squirrel/sqcompiler.cpp:1598-1642 | labels are tested in order, a matching clause runs and falls through past the next test, `break` leaves; ControlLaws.SwitchEnters says which clause matches |
| `Simulation.SimulateCase` | SQUIRREL3/squirrel/sqcompiler.cpp:1608-1628 | one clause: its label test, its body, and the jump over the next label test |
| `Simulation.SimulateTry` | SQUIRREL3/squirrel/sqcompiler.cpp:1756-1786 | an error in the body reaches the handler with the traps of the try statement removed; any other exit pops exactly its trap |
| `Simulation.SimulateLeave` | SQUIRREL3/squirrel/sqcompiler.cpp:359-378 | break and continue pop the traps pushed since the loop, as many as the byte says, and jump to its target |
| `Simulation.SimulateReturn` | SQUIRREL3/squirrel/sqcompiler.cpp:341-355 | return pops all traps of the function before RETURN, where their number fits the byte |
| `Simulation.SimulateThrow` | SQUIRREL3/squirrel/sqvm.cpp:1141-1151 | THROW ends in the innermost handler, or halts with the error |
| `ControlLaws.SwitchEnters` | SQUIRREL3/squirrel/sqcompiler.cpp:1608-1636 | if EQ tells equal from different values and labels leave the value switched on alone, the statement enters the first clause whose label has that value, and the default if and only if no label has it; an error in a label ends it |
| `ControlLaws.CodeEnters` | SQUIRREL3/squirrel/sqcompiler.cpp:1608-1636 | under the same premise the code, placed anywhere, computes and compares the labels one after the other up to that clause and stands at its start with all traps, or fails as the last label did |
| `ControlLaws.OneFirst` | SQUIRREL3/squirrel/sqcompiler.cpp:1608-1636 | there is exactly one such clause |
| `ControlLaws.ForEachStarts` | SQUIRREL3/squirrel/sqcompiler.cpp:1571-1583 | iteration starts with index, value and iterator null and every other register as the container left it |
| `ControlLaws.ForEachReaches` | SQUIRREL3/squirrel/sqcompiler.cpp:1571-1583 | the code reaches its first FOREACH in such a state |
| `Patching.FillCode` | SQUIRREL3/squirrel/sqcompiler.cpp:359-378 | patching the recorded jumps of a statement afterwards gives the code that was aimed at the target from the start, and touches nothing else |
| `Patching.FillLoop` | SQUIRREL3/squirrel/sqcompiler.cpp:63-71 | resolving first the continues and then the breaks of a loop body gives the finished loop code |
| `Patching.FillSwitchBreaks` | SQUIRREL3/squirrel/sqcompiler.cpp:1637-1642 | resolving the breaks of a switch gives its finished code, its continues still open or not as before |
| `Emitter.CompileFunction` | SQUIRREL3/squirrel/sqcompiler.cpp:1960-1980 | emission with later patching fails exactly for a break or continue outside a loop or switch, and otherwise yields the code of Simulation.FunctionCorrect and TrapBalance.TypeFunction, pop counts cut to a byte |
| `Emitter.FuncState.Statement` | SQUIRREL3/squirrel/sqcompiler.cpp:315-416 | appends the code of the statement with open jumps, records their positions in order, and restores target and trap counters |
| `Emitter.FuncState.Statements` | SQUIRREL3/squirrel/sqcompiler.cpp:308-314 | appends the code of two statements in order |
| `Emitter.FuncState.IfStatement` | SQUIRREL3/squirrel/sqcompiler.cpp:1450-1476 | the JZ, patched once or twice, skips the first branch and the jump behind it |
| `Emitter.FuncState.WhileStatement` | SQUIRREL3/squirrel/sqcompiler.cpp:1477-1495 | appends the finished loop, with continues to the condition and breaks to the end |
| `Emitter.FuncState.DoWhileStatement` | SQUIRREL3/squirrel/sqcompiler.cpp:1496-1510 | appends the finished loop, with continues to the condition and breaks to the end |
| `Emitter.FuncState.ForEachStatement` | SQUIRREL3/squirrel/sqcompiler.cpp:1556-1597 | appends the finished loop; FOREACH and POSTFOREACH exit behind the backward jump |
| `Emitter.FuncState.SwitchStatement` | SQUIRREL3/squirrel/sqcompiler.cpp:1598-1642 | appends the finished switch and leaves only its continues unresolved |
| `Emitter.FuncState.Clauses` | SQUIRREL3/squirrel/sqcompiler.cpp:1608-1636 | clause by clause, each label test is patched once the next clause is known, so that the whole becomes the finished switch |
| `Emitter.FuncState.TryCatchStatement` | SQUIRREL3/squirrel/sqcompiler.cpp:1756-1786 | PUSHTRAP is patched with handler and register, and the counters of enclosing loops go up for the body only |
| `Emitter.FuncState.BreakStatement` | SQUIRREL3/squirrel/sqcompiler.cpp:359-368 | POPTRAP for the traps since the loop, and an open jump that is recorded; an error without a loop or switch |
| `Emitter.FuncState.ContinueStatement` | SQUIRREL3/squirrel/sqcompiler.cpp:369-378 | the same for continue |
| `Emitter.FuncState.ReturnStatement` | SQUIRREL3/squirrel/sqcompiler.cpp:341-355 | POPTRAP with the number of all traps cut to a byte, then RETURN |
| `Emitter.FuncState.ResolveBreaks` | SQUIRREL3/squirrel/sqcompiler.cpp:1981-1990 | the last n recorded breaks aim at the current position; nothing else changes |
| `Emitter.FuncState.ResolveContinues` | SQUIRREL3/squirrel/sqcompiler.cpp:1991-2000 | the last n recorded continues aim at the given position; nothing else changes |
| `Emitter.FuncState.EndLoop` | SQUIRREL3/squirrel/sqcompiler.cpp:67-71 | resolves what the block recorded and drops its targets |
| `TrapBalance.FunctionBalanced` | SQUIRREL3/squirrel/sqvm.cpp:1097-1109 | if the pop counts fit, then over every run of a compiled function every state has exactly the traps of the static try nesting of its instruction, RETURN finds none, and the machine never gets stuck |
| `TrapBalance.StepBalanced` | SQUIRREL3/squirrel/sqvm.cpp:1141-1163 | one instruction, or the unwinding of one error, keeps traps and static depth equal, each trap pointing to a handler of its own depth |
| `TrapBalance.TypeFunction` | SQUIRREL3/squirrel/sqopcodes.h:113-117 | the code of a function respects the static trap map of its statement if and only if every break, continue and return of it drops fewer than 256 traps |
| `TrapBalance.Type` | SQUIRREL3/squirrel/sqcompiler.cpp:327-378 | the same for every statement in every place, through break, continue, return and handler entry |
| `TrapBalance.NestReturns` | SQUIRREL3/squirrel/sqcompiler.cpp:345-352 | a return inside n try blocks leaves n less its remainder by 256 traps behind, so 256 nested blocks leave 256; the run ends as the statement means if and only if n is below 256 |
| `Table.Run` | SQUIRREL3/squirrel/sqtable.cpp:119-174 | after any sequence of NewSlot, Set, Remove and Clear on a new table, looking up any key answers as the finite map does |
| `Table.SQTable.NewSlot` | SQUIRREL3/squirrel/sqtable.cpp:119-174 | the contents become the old map with the key added or replaced; inserting needs at most one rehash, which makes room for the pending key |
| `Table.SQTable.Insert` | SQUIRREL3/squirrel/sqtable.cpp:128-171 | plants a new key at its main position, behind the node there, or in place of a displaced foreign node, and corrects the free pointer |
| `Table.SQTable.FindPrevious` | SQUIRREL3/squirrel/sqtable.cpp:140-145 | finds the one node that links to a displaced node |
| `Table.SQTable.CorrectFirstFree` | SQUIRREL3/squirrel/sqtable.cpp:163-171 | moves the free pointer down to an unused, unlinked node, or reports that there is none |
| `Table.SQTable.Rehash` | SQUIRREL3/squirrel/sqtable.cpp:46-71 | the size doubles from three quarters full, halves at a quarter, else stays; unforced, a table of the right size is untouched; the contents stay, no rehash inside, and a free node is left |
| `Table.SQTable.AllocNodes` | SQUIRREL3/squirrel/sqtable.cpp:33-44 | a table of that size with no live key and the last node free |
| `Table.SQTable.Remove` | SQUIRREL3/squirrel/sqtable.cpp:21-31 | exactly the key is gone and every other key keeps its value; the size follows the rehash rule for one key less, and if it stays all links stay, the removed node's included |
| `Table.SQTable.Get` | SQUIRREL3/squirrel/sqtable.cpp:108-118 | the value of the key, or nothing if it is not in the contents |
| `Table.SQTable.Lookup` | SQUIRREL3/squirrel/sqtable.h:66-75 | the chain walk from the main position finds a key exactly if it is live, and ends |
| `Table.SQTable.Set` | SQUIRREL3/squirrel/sqtable.cpp:195-203 | replaces the value of a live key only, and says whether there was one |
| `Table.SQTable.Next` | SQUIRREL3/squirrel/sqtable.cpp:176-192 | the next live node from a position, with nothing live in between, or -1 at the end |
| `Table.SQTable.Visit` | SQUIRREL3/squirrel/sqtable.cpp:176-192 | iterating an unmodified table with Next visits every live key exactly once, with its value, and then ends |
| `Table.SQTable.Clone` | SQUIRREL3/squirrel/sqtable.cpp:73-106 | the copy has the same contents, and copying never rehashes |
| `Table.SQTable.Clear` | SQUIRREL3/squirrel/sqtable.cpp:216-221 | no live key and a working table |
| `Table.SQTable.constructor` | SQUIRREL3/squirrel/sqtable.cpp:10-19 | an empty table with at least the size asked for, and exactly that size for powers of two from 4 up |
| `TableNodes.PlantMovingOk` | SQUIRREL3/squirrel/sqtable.cpp:135-161 | moving a foreign node to the free slot and planting the key in its place keeps the node invariant: every key reachable from its main position, chains acyclic, no node linked twice |
| `TableNodes.HomeMasks` | SQUIRREL3/squirrel/sqtable.cpp:122 | the main position is the hash masked with the size less one, for every power of two |
| `Masks.MaskIsMod` | SQUIRREL3/squirrel/sqtable.cpp:122 | a number masked with a power of two less one is its remainder |
| `TableNodes.PlantBehindOk` | SQUIRREL3/squirrel/sqtable.cpp:154-161 | planting a colliding key behind its main position keeps the node invariant |
| `TableNodes.PlantHomeOk` | SQUIRREL3/squirrel/sqtable.cpp:128-161 | planting a key in an empty main position keeps the node invariant |
| `TableNodes.ForgetOk` | SQUIRREL3/squirrel/sqtable.cpp:21-31 | a removed node that stays in its chain keeps the node invariant |
| `Peephole.StreamPreserved` | SQUIRREL3/squirrel/sqfuncstate.cpp:462-592 | for every straight-line stream of emissions and discards under the side conditions, the optimized code ends like the plain stream, in the same way with the same heap, outers, captured variables and registers but for eliminated dead ones |
| `Peephole.FuseExact` | SQUIRREL3/squirrel/sqfuncstate.cpp:468-588 | each fusion preserves meaning for all objects and machines if and only if its side condition holds: a fused JZ tests the CMP target, an eliminated literal is used once, an unguarded % is not retargeted |
| `Peephole.FuseOk` | SQUIRREL3/squirrel/sqfuncstate.cpp:468-588 | every fusion whose side condition holds does what the pair did; retargeting % is fine where % cannot fail |
| `Peephole.FuseBroken` | SQUIRREL3/squirrel/sqfuncstate.cpp:468-552 | whenever the side condition fails there are objects and registers that tell fused and unfused code apart |
| `Peephole.TrimExact` | SQUIRREL3/squirrel/sqfuncstate.cpp:475-485 | dropping the target of an unfused SET, NEWSLOT or SETOUTER is always harmless; a JZ that falls into that rule keeps its meaning if and only if it does not test the register in its arg3, which is register 0 |
| `Peephole.StepSame` | SQUIRREL3/squirrel/sqvm.cpp:778-984 | an instruction that reads no dead register does the same in machines that agree elsewhere, and revives the registers it writes |
| `Peephole.FeedSame` | SQUIRREL3/squirrel/sqfuncstate.cpp:447-592 | one more emission or discard keeps optimized and plain code in agreement |
| `Peephole.DiscardOk` | SQUIRREL3/squirrel/sqfuncstate.cpp:447-460 | a discarded target differs in that register only |
| `Peephole.EqualTells` | SQUIRREL3/squirrel/sqvm.cpp:896-906 | where comparing reports equality, EQ leaves something true exactly if its operands are equal and NE exactly if they differ; no other register changes |
| `Peephole.FusedEqualTells` | SQUIRREL3/squirrel/sqfuncstate.cpp:563-571 | fused with the load of a literal, they tell the same about the register and the literal |
| `Peephole.FuseExamples` | SQUIRREL3/squirrel/sqfuncstate.cpp:468-588 | what pairs with a temporary become: JCMP, RETURN, GETK, PREPCALLK, APPENDARRAY with a constant |
| `Peephole.MoreFuseExamples` | SQUIRREL3/squirrel/sqfuncstate.cpp:468-588 | what other pairs become, and that the literal of a local variable and a literal from 256 up are not fused |
| `Peephole.FuncState.AddInstruction` | SQUIRREL3/squirrel/sqfuncstate.cpp:462-592 | rewrites the last instruction, drops it or appends, as the rules say, and pauses after a retargeted load |
| `Peephole.FuncState.DiscardTarget` | SQUIRREL3/squirrel/sqfuncstate.cpp:447-460 | clears the target of the last instruction exactly when it is the discarded one |
| `Interpreter.RunAll` | SQUIRREL3/squirrel/sqvm.cpp:1660-1746 | over every run of calls, tail calls, native calls, generator calls, yields, resumptions, returns, traps, throws, captures, reads, writes, closes and stack growth on one machine, its fields answer as the reference with boxed variables, absolute frames and each frame's own traps, and stand for that reference afterwards: as many traps listed as the calls count, open outers strictly descending |
| `Interpreter.SQVM.FindOuter` | SQUIRREL3/squirrel/sqvm.cpp:1660-1679 | the one open outer of the slot, or a new one; the open list stays strictly descending and complete |
| `Interpreter.SQVM.CloseOuters` | SQUIRREL3/squirrel/sqvm.cpp:1738-1746 | detaches the boxes of all slots from the given one up, each with its current value; outers below stay open |
| `Interpreter.SQVM.RelocateOuters` | SQUIRREL3/squirrel/sqvm.cpp:1729-1736 | every open outer points to its own slot of the new stack block, closed ones are untouched |
| `Interpreter.SQVM.GetOuter` | SQUIRREL3/squirrel/sqvm.cpp:934-939 | reads the box of the captured variable, open or closed |
| `Interpreter.SQVM.SetOuter` | SQUIRREL3/squirrel/sqvm.cpp:940-948 | writes the box of the captured variable and no other |
| `Interpreter.SQVM.Capture` | SQUIRREL3/squirrel/sqvm.cpp:588-604 | a captured local stands for the box of its slot |
| `Interpreter.SQVM.EnterFrame` | SQUIRREL3/squirrel/sqvm.cpp:1681-1710 | relative bookkeeping of the caller, growth by 60 slots when tight, refusal during a metamethod with the frame already pushed |
| `Interpreter.SQVM.LeaveFrame` | SQUIRREL3/squirrel/sqvm.cpp:1712-1727 | drops the frame, closes its variables, clears the slots above the caller's top; the frame's traps have been popped or taken by its generator |
| `Interpreter.SQVM.StartCall` | SQUIRREL3/squirrel/sqvm.cpp:425-430 | the reference call, including the refused one |
| `Interpreter.SQVM.TailCall` | SQUIRREL3/squirrel/sqvm.cpp:788-799 | the reference tail call: closes, moves the arguments down and reuses the frame with its traps; StepLaws.TailCallMoves says where each argument then is |
| `Interpreter.SQVM.CallNative` | SQUIRREL3/squirrel/sqvm.cpp:1211-1240 | the reference native call |
| `Interpreter.SQVM.Return` | SQUIRREL3/squirrel/sqvm.cpp:450-480 | the result goes to the caller's register, to nobody, or out of a root frame, before the frame is left |
| `Interpreter.SQVM.ReturnOp` | SQUIRREL3/squirrel/sqvm.cpp:912-922 | the generator of the frame, if it has one, is dead before the frame returns |
| `Interpreter.SQVM.Generate` | SQUIRREL3/squirrel/sqvm.cpp:436-446 | a generator call saves the whole new frame in a new suspended generator, leaves the frame again, and gives the caller the generator |
| `Interpreter.SQVM.YieldOp` | SQUIRREL3/squirrel/sqvm.cpp:1065-1079 | the frame goes into its generator with its traps, the yielded value to the caller; a frame without a generator only reports failure |
| `Interpreter.SQVM.ResumeOp` | SQUIRREL3/squirrel/sqvm.cpp:1080-1085 | the reference resumption, refused for dead and running generators and, with the new frame already pushed, where the stack may not grow |
| `Interpreter.SQGenerator.Yield` | SQUIRREL3/squirrel/sqobject.cpp:131-156 | only a running generator yields; it then holds exactly the frame's slots below target and the frame's traps, innermost first, and the frame is cleared |
| `Interpreter.SQGenerator.Resume` | SQUIRREL3/squirrel/sqobject.cpp:158-194 | succeeds exactly for a suspended generator whose frame has room or may make room; slots and traps go back in order and it then holds no trap; otherwise generator and traps stay as they were |
| `Interpreter.SQGenerator.Kill` | SQUIRREL3/squirrel/sqclosure.h:115-118 | the generator is dead and keeps nothing |
| `Interpreter.SQVM.Throw` | SQUIRREL3/squirrel/sqvm.cpp:1132-1167 | leaves frames, killing their generators, up to the innermost trap or past the root frame |
| `Interpreter.SQVM.Catch` | SQUIRREL3/squirrel/sqvm.cpp:1141-1151 | base and top become those the trap recorded, so a stale trap moves the frame and with it, through the relative bookkeeping, all callers; error stored, trap dropped, slots above cleared |
| `Interpreter.SQVM.PushTrap` | SQUIRREL3/squirrel/sqvm.cpp:1097-1102 | the trap becomes the last of its frame |
| `Interpreter.SQVM.PopTrap` | SQUIRREL3/squirrel/sqvm.cpp:1103-1109 | the frame loses its last n traps |
| `Bookkeeping.MatchCounts` | SQUIRREL3/squirrel/sqvm.cpp:1097-1109 | whenever fields and frames correspond, the trap list is as long as the frames' trap counts together |
| `Bookkeeping.MatchLeave` | SQUIRREL3/squirrel/sqvm.cpp:1712-1727 | leaving a frame keeps trap list and frames in step if and only if the frame has no traps left |
| `Bookkeeping.MatchCatch` | SQUIRREL3/squirrel/sqvm.cpp:1141-1151 | catching at a trap with another base shifts every caller by the difference, since callers are kept relative to the base |
| `FrameLaws.CallRestores` | SQUIRREL3/squirrel/sqvm.cpp:1681-1727 | a call or resumption, anything that runs while its frame is there, and its return or yield leave base, top, traps and number of all callers' frames as they were |
| `FrameLaws.ClosedKeepsValue` | SQUIRREL3/squirrel/sqvm.cpp:1738-1746 | over every run a closed variable keeps its value unless a closure writes it |
| `FrameLaws.LeaveCloses` | SQUIRREL3/squirrel/sqvm.cpp:1712-1727 | leaving a frame closes its captured variables with the values they have then |
| `FrameLaws.LeaveKeeps` | SQUIRREL3/squirrel/sqvm.cpp:1712-1727 | the caller's variables stay in their boxes with their values |
| `StepLaws.TailCallMoves` | SQUIRREL3/squirrel/sqvm.cpp:788-799 | after a tail call, refused or not, each slot at the start of the frame holds its argument; every other slot, every other frame, and the base, traps and target of this one are as before |
| `StepLaws.ReturnDelivers` | SQUIRREL3/squirrel/sqvm.cpp:450-480 | a return hands the value of its register, or null, to the register of the caller that waits for it or out of a root frame; below the frame only that register and the slots from the caller's top up change; exactly the generator of the frame is dead |
| `StepLaws.YieldDelivers` | SQUIRREL3/squirrel/sqvm.cpp:1065-1079 | a yield hands over the value of its register in the same way, and exactly its generator becomes suspended |
| `StepLaws.ThrowLands` | SQUIRREL3/squirrel/sqvm.cpp:1132-1167 | a throw is caught if and only if some frame has traps with no root frame above it; the innermost such frame goes on at its innermost trap's handler, base and top, that trap gone and the error in its register, slots below all tops unchanged; else the first root frame is the last one left; generators of frames left are dead |
| `StepLaws.TrapCatches` | SQUIRREL3/squirrel/sqvm.cpp:1097-1102 | a trap just pushed catches in its own frame: code position at its handler, the error in its register, all frames and other slots as they were |
| `StepLaws.TrapDrops` | SQUIRREL3/squirrel/sqvm.cpp:1103-1109 | pushing a trap and popping it changes nothing |
| `StepLaws.CapturedIsSlot` | SQUIRREL3/squirrel/sqvm.cpp:934-948 | as long as handle and slot have the same box, reading and writing through the closure is reading and writing the slot |
| `StepLaws.CaptureShares` | SQUIRREL3/squirrel/sqvm.cpp:588-604 | capturing a local gives a handle with the box of its slot, capturing an outer one with the box of that outer |
| `StepLaws.SlotStores` | SQUIRREL3/squirrel/sqvm.cpp:788-799 | a slot holds what was last stored in it; no other slot and no other variable changes |
| `StepLaws.OuterStores` | SQUIRREL3/squirrel/sqvm.cpp:940-948 | writing a captured variable is seen through all handles with its box and no other |
| `StepLaws.CloseSplits` | SQUIRREL3/squirrel/sqvm.cpp:1738-1746 | closing leaves every slot its value, gives the slots from there on boxes of their own, and leaves the old boxes to the closures with the same values; variables below stay shared |
| `StepLaws.PushPops` | SQUIRREL3/squirrel/sqvm.cpp:1757-1768 | the pushed value is on top; popped slots are null |
| `StepLaws.CallKeepsSlots` | SQUIRREL3/squirrel/sqvm.cpp:1681-1710 | a call finds every slot as it was; if less than 15 slots are left above it, there are 60 more, all null, or during a metamethod it is refused |
| `StepLaws.CallFrame` | SQUIRREL3/squirrel/sqvm.cpp:425-430 | the frame that a call pushes |
| `StepLaws.GenerateHolds` | SQUIRREL3/squirrel/sqvm.cpp:436-446 | a generator call makes one suspended generator that holds all slots of the call's frame, `this` weakly, with its code position and no traps |
| `StepLaws.Refused` | SQUIRREL3/squirrel/sqobject.cpp:158-162 | resuming a dead or running generator, and yielding in a frame without one, changes nothing |
| `Mark.Collector.RunMark` | SQUIRREL3/squirrel/sqstate.cpp:256-277 | from an unmarked heap, the target chain holds exactly the objects reachable from the roots, each once, the old chain exactly the others, and both are doubly linked lists |
| `Mark.Collector.MarkFrom` | SQUIRREL3/squirrel/sqobject.cpp:547-666 | marks and moves everything reachable through unmarked objects, ends on cycles, and moves nothing back |
| `Mark.Collector.MarkObject` | SQUIRREL3/squirrel/sqstate.cpp:237-253 | does nothing for values that are not collectable or already marked |
| `Mark.AddToChain` | SQUIRREL3/squirrel/sqstate.cpp:368-374 | the object becomes the head of a well-formed chain |
| `Mark.RemoveFromChain` | SQUIRREL3/squirrel/sqstate.cpp:376-384 | the object is out and the rest is a well-formed chain in the same order |
| `Mark.ClosedContains` | SQUIRREL3/squirrel/sqobject.cpp:547-666 | a set closed under references contains all that is reachable from its members |
| `Serial.ClosureRoundTrip` | SQUIRREL3/squirrel/sqobject.cpp:350-372 | loading a saved closure followed by any bytes gives an equal function and exactly those bytes |
| `Serial.NoPrefixLoads` | SQUIRREL3/squirrel/sqobject.cpp:361-372 | no strict prefix of a saved closure loads |
| `Serial.StreamsDiffer` | SQUIRREL3/squirrel/sqobject.cpp:350-359 | if one saved stream is a prefix of another, the functions are equal; so different functions have different streams |
| `Serial.ProtoExact` | SQUIRREL3/squirrel/sqobject.cpp:452-532 | the same for function prototypes with nested functions, of any depth |
| `Serial.ProtoSteady` | SQUIRREL3/squirrel/sqobject.cpp:452-532 | whatever loads from a stream loads the same when more bytes follow |
| `Serial.ClosureSteady` | SQUIRREL3/squirrel/sqobject.cpp:361-372 | the same for closures |
| `Serial.ObjExact` | SQUIRREL3/squirrel/sqobject.cpp:297-348 | integers, floats, strings and null read back exactly |
| `SerialExample.SampleStream` | SQUIRREL3/squirrel/sqobject.cpp:350-450 | the stream of a function with one of everything is, byte by byte, this: tags, counts, lists and tail in this order, little-endian |
| `SerialStreams.Writer.SaveAll` | SQUIRREL3/squirrel/sqobject.cpp:442-445 | appends the streams of the nested functions in order, and fails exactly if one of them holds a value that cannot be saved |
| `SerialStreams.Writer.Save` | SQUIRREL3/squirrel/sqobject.cpp:389-450 | appends the stream of the prototype, recursively, or stops at the first value that cannot be saved |
| `SerialStreams.Writer.WriteObject` | SQUIRREL3/squirrel/sqobject.cpp:297-317 | appends tag and contents, or fails on other types |
| `SerialStreams.Reader.LoadAll` | SQUIRREL3/squirrel/sqobject.cpp:521-525 | loads the nested functions as the format's parser does, with the same values and rest |
| `SerialStreams.Reader.Load` | SQUIRREL3/squirrel/sqobject.cpp:452-532 | the same for prototypes, recursively |
| `SerialStreams.Reader.ReadObject` | SQUIRREL3/squirrel/sqobject.cpp:319-348 | the same for single objects |
| `SerialStreams.Reader.CheckTag` | SQUIRREL3/squirrel/sqobject.cpp:286-295 | succeeds exactly on the expected tag |
| `SerialStreams.SaveAndLoad` | SQUIRREL3/squirrel/sqobject.cpp:389-532 | writing a prototype with the writer and reading it with the reader returns the prototype that was saved |
| `Heapsort.Hsort` | SQUIRREL3/squirrel/sqbaselib.cpp:709-724 | ends with a permutation for every compare function, even a stateful, inconsistent or failing one; succeeds if and only if no call of it failed and none found an element smaller than itself, and stops at the first that did; if it reports a total preorder, it succeeds and the array is ascending |
| `Heapsort.SiftDown` | SQUIRREL3/squirrel/sqbaselib.cpp:669-707 | rearranges only up to bottom, and completes the heap below top, although node 0 is its own left child; fails exactly after a failed comparison or one that would swap an element with itself |
| `Heapsort.LargerChild` | SQUIRREL3/squirrel/sqbaselib.cpp:677-690 | neither child exceeds the chosen one; fails exactly if the comparison does |
| `Heapsort.SwapKeeps` | SQUIRREL3/squirrel/sqbaselib.cpp:693-702 | moving the larger child up keeps the heap but for the place the root went to |
| `Heapsort.RootIsMax` | SQUIRREL3/squirrel/sqbaselib.cpp:709-724 | nothing in a heap of this shape exceeds its root |
| `Heapsort.RootToPlace` | SQUIRREL3/squirrel/sqbaselib.cpp:718-722 | the root goes to its final place, and only the root is then out of order |
| `RefTables.RunAll` | SQUIRREL3/squirrel/sqstate.cpp:437-564 | every sequence of AddRef, Release and GetRefCount answers as a map of 32-bit counters, across all resizes |
| `RefTables.CountsBalance` | SQUIRREL3/squirrel/sqstate.cpp:437-480 | if objects are released and asked about only while held, each count is AddRefs less Releases and no count is zero |
| `RefTables.AnswersBalance` | SQUIRREL3/squirrel/sqstate.cpp:437-480 | under the same fair use, GetRefCount answers AddRefs less Releases so far, and Release answers that the object is gone if and only if none is left |
| `RefTables.ReleasingUnknown` | SQUIRREL3/squirrel/sqstate.cpp:454-480 | releasing an object that is not held changes nothing and answers that it is not gone |
| `RefTables.AskingFiles` | SQUIRREL3/squirrel/sqstate.cpp:445-451 | GetRefCount keeps all counts positive if and only if the object had references; otherwise the next Release wraps around |
| `RefTables.RefTable.Resize` | SQUIRREL3/squirrel/sqstate.cpp:482-503 | every object keeps its count; as many objects are found as were filed, and none without references unless one was filed so |
| `RefTables.RefTable.Find` | SQUIRREL3/squirrel/sqstate.cpp:518-528 | finds the node, its predecessor and bucket exactly if the object is filed |
| `RefTables.RefTable.GetOrAdd` | SQUIRREL3/squirrel/sqstate.cpp:518-538 | files an unknown object with no references, after doubling a full table, where all slots are found |
| `RefTables.RefTable.Add` | SQUIRREL3/squirrel/sqstate.cpp:505-516 | takes a free node for the object |
| `RefTables.RefTable.AddRef` | SQUIRREL3/squirrel/sqstate.cpp:437-443 | adds one to the count of the object |
| `RefTables.RefTable.Release` | SQUIRREL3/squirrel/sqstate.cpp:454-480 | takes one from the count, and frees the node exactly at zero |
| `RefTables.RefTable.AllocNodes` | SQUIRREL3/squirrel/sqstate.cpp:540-564 | all nodes are free, in order |
| `RefTables.TakenRight` | SQUIRREL3/squirrel/sqstate.cpp:505-516 | moving a node from free list to bucket keeps the two a partition of the nodes |
| `RefTables.MainMasks` | SQUIRREL3/squirrel/sqstate.cpp:518-522 | the bucket is the hash masked with the size less one; the size is always a power of two |
| `RefTables.FreedRight` | SQUIRREL3/squirrel/sqstate.cpp:454-473 | moving it back keeps them a partition |
| `Strings.RunAll` | SQUIRREL3/squirrel/sqstate.cpp:586-660 | over every run of interning and releasing, the objects handed out are the same exactly where a reference that numbers the texts in use gives the same number, and an object is live exactly as long as its number is in use |
| `Strings.LiveByText` | SQUIRREL3/squirrel/sqstate.cpp:593-618 | so two live strings of a run are the same object if and only if their texts are equal |
| `Strings.SQStringTable.Add` | SQUIRREL3/squirrel/sqstate.cpp:593-618 | returns the live string with these contents if there is one, else a new one; no other string appears or disappears |
| `Strings.SQStringTable.Resize` | SQUIRREL3/squirrel/sqstate.cpp:620-636 | all strings stay, each in the bucket of its hash |
| `Strings.SQStringTable.MoveBucket` | SQUIRREL3/squirrel/sqstate.cpp:625-634 | relinks one old bucket string by string, while the strings still to come stay linked as they were |
| `Strings.SQStringTable.Remove` | SQUIRREL3/squirrel/sqstate.cpp:638-660 | exactly this string is gone |
| `Strings.BucketMasks` | SQUIRREL3/squirrel/sqstate.cpp:593-600 | the bucket is the hash masked with the number of buckets less one, which is always a power of two |
| `Strings.HashStr` | SQUIRREL3/squirrel/sqstring.h:5-12 | the loop computes the hash |
| `Strings.HashOfPrefix` | SQUIRREL3/squirrel/sqstring.h:5-12 | the hash depends on the length and at most the first 63 characters |
| `Strings.HashExamples` | SQUIRREL3/squirrel/sqstring.h:5-12 | the hashes of "", "a" and "ab" |
| `FrameLaws.RoundTrip` | SQUIRREL3/squirrel/sqobject.cpp:131-194 | a frame that yields and is resumed after any run that does not resume it, on the same machine, with the stack growing or not, comes back on top with its code position, its slots below target (slot 0 as far as its object lives, the rest null) and its traps in order; it is refused exactly if the stack is tight inside a metamethod |
| `FrameLaws.RunKeeps` | SQUIRREL3/squirrel/sqobject.cpp:158-162 | over every run a dead generator stays dead and no frame runs it; a suspended one keeps its whole frame until it is resumed |
| `FrameLaws.RunHome` | SQUIRREL3/squirrel/sqvm.cpp:1097-1102 | over every run without resumptions every trap has the base of its frame |
| `FrameLaws.HomeLands` | SQUIRREL3/squirrel/sqvm.cpp:1141-1151 | where every trap has the base of its frame, every throw lands in a frame at its own base or leaves |
| `FrameLaws.CatchRestores` | SQUIRREL3/squirrel/sqvm.cpp:1132-1167 | a caught throw leaves the base of the catching frame and all its callers as they were if and only if the trap that catches has that frame's base |
| `FrameLaws.ResumedHome` | SQUIRREL3/squirrel/sqobject.cpp:177-180 | the traps of a resumed frame have its base if and only if it has none or lies where it lay before |
| `FrameLaws.StaleCatch` | SQUIRREL3/squirrel/sqvm.cpp:1141-1151 | a throw that a resumed frame catches puts it on its own base, with its callers unmoved, if and only if it was resumed at the base where its traps were pushed |
| `FrameLaws.RoundTripCatch` | SQUIRREL3/squirrel/sqobject.cpp:131-194 | the same for a whole round trip: yield, any run that does not resume it, resume, throw |
| `FrameExamples.StaleExample` | SQUIRREL3/squirrel/sqvm.cpp:1141-1151 | one run from the start: a generator that yields inside a try and is resumed one slot lower catches an error and ends, with its caller, one slot too high |
| `FrameLaws.GenerateBelow` | SQUIRREL3/squirrel/sqvm.cpp:436-446 | a generator call that succeeds changes at most one slot below its caller's base: the one its target names, which then holds the new generator |
| `FrameLaws.GenerateSpares` | SQUIRREL3/squirrel/sqvm.cpp:436-446 | a generator call that succeeds leaves everything below its caller's base as it was if and only if its target is not negative |
| `FrameExamples.DiscardedExample` | SQUIRREL3/squirrel/sqvm.cpp:802-804 | one run from the start: a function whose generator call is discarded returns, and its caller reads a generator where it had stored something else |
| `FrameLaws.YieldCloses` | SQUIRREL3/squirrel/sqobject.cpp:145-148 | a yield clears the frame before its variables close: each of them, and so any closure over it, is off the stack and null, except the yielded register, which keeps its value |
| `FrameLaws.YieldLoses` | SQUIRREL3/squirrel/sqobject.cpp:145-148 | over every run after the yield, resumptions included, such a variable stays so until a closure writes it; the resumed frame does not share it |
| `FrameLaws.CallEnters` | SQUIRREL3/squirrel/sqvm.cpp:1681-1710 | a call pushes its frame on unchanged callers whether it succeeds or not, and fails if and only if the stack would have to grow during a metamethod call |
| `FrameExamples.RefusedExample` | SQUIRREL3/squirrel/sqvm.cpp:1681-1710 | one run from the start: a call refused during a metamethod leaves its frame on the call stack |
| `Delegation.SetDelegate` | SQUIRREL3/squirrel/sqobject.cpp:117-129 | accepts a delegate if and only if the delegate graph then has no cycle, ends, and changes nothing when it refuses |
| `Delegation.SetAll` | SQUIRREL3/squirrel/sqobject.cpp:117-129 | starting without delegates, every sequence of settings gives the graph and the answers of the reference that makes a setting if and only if no cycle results, and the graph never has a cycle |
| `Delegation.SetDelegateEnds` | SQUIRREL3/squirrel/sqobject.cpp:117-129 | all climbs stay finite exactly when the new delegate does not lead back |
| `Delegation.Get` | SQUIRREL3/squirrel/sqvm.cpp:1346-1357 | lookup ends, and answers from the first table on the way up that has the key |
| `Classes.SQClass.NewSlot` | SQUIRREL3/squirrel/sqclass.cpp:53-99 | the index table and slot vectors do what named fields, methods and metamethods should, with one slot more exactly where a new field or method appears; a locked class keeps its fields and their indices |
| `Classes.SQClass.constructor` | SQUIRREL3/squirrel/sqclass.cpp:13-34 | a derived class has every member of its base, at the same index |
| `Classes.SQClass.Lock` | SQUIRREL3/squirrel/sqclass.h:58 | exactly the class and all its bases become locked |
| `Classes.CreateInstance` | SQUIRREL3/squirrel/sqclass.cpp:101-105 | the instance starts with the default values; exactly its class and that class's bases become locked, so that a locked class has only locked bases |
| `Classes.DefineSlot` | SQUIRREL3/squirrel/sqclass.cpp:53-99 | whatever is added to a class, every instance keeps one value per field slot and all its field values |
| `Classes.SQClass.Get` | SQUIRREL3/squirrel/sqclass.h:35-47 | the default of the field of that name, else the method, else nothing |
| `Classes.SQClass.GetConstructor` | SQUIRREL3/squirrel/sqclass.h:48-55 | the constructor that was defined last, if any |
| `Classes.SQInstance.Get` | SQUIRREL3/squirrel/sqclass.h:113-125 | the instance's own field, else the class's method, else nothing; all accesses in range |
| `Classes.SQInstance.Set` | SQUIRREL3/squirrel/sqclass.h:126-133 | sets exactly the named field, and only a field |
| `Classes.SQInstance.Clone` | SQUIRREL3/squirrel/sqclass.cpp:168-177 | the copy has the same field values |
| `ClassRuns.RunAll` | SQUIRREL3/squirrel/sqclass.cpp:13-177 | every run that derives classes, defines slots, creates and clones instances, and reads and writes them answers as classes and instances with named members do, as long as no class needs more than 2^24 slots of a kind |
| `ClassRuns.RunWhole` | SQUIRREL3/squirrel/sqclass.cpp:57-58 | over every run a locked class stays locked with the same fields, so every instance has exactly the fields of its class |
| `ClassRuns.RunKeepsField` | SQUIRREL3/squirrel/sqclass.h:113-133 | over every run that does not write it, a field of an instance reads as it was, whatever is done to classes, other instances and other fields |
| `ClassRuns.DefineReads` | SQUIRREL3/squirrel/sqclass.cpp:53-99 | a slot reads back as it was given; exactly the closures that become methods of a derived class are bound to it; metamethods are kept apart; all other names, and the constructor unless it is the one defined, answer as before |
| `ClassRuns.DefineRefused` | SQUIRREL3/squirrel/sqclass.cpp:57-58 | a slot is refused if and only if the class is locked and the slot is neither a function nor static |
| `ClassRuns.DefineSpares` | SQUIRREL3/squirrel/sqclass.cpp:53-99 | other classes and all instances are left alone |
| `ClassRuns.DeriveReads` | SQUIRREL3/squirrel/sqclass.cpp:13-34 | a derived class starts unlocked and answers as its base |
| `ClassRuns.InstantiateReads` | SQUIRREL3/squirrel/sqclass.cpp:101-105 | a new instance answers as its class, which gets locked with all its bases and no other class |
| `ClassRuns.WriteReads` | SQUIRREL3/squirrel/sqclass.h:113-133 | a copy answers as the original; a field reads back as written, in that instance alone |
| `Classes.MethodReadsBack` | SQUIRREL3/squirrel/sqclass.h:14-22 | a method index reads back if and only if it is below 2^24 |
| `Classes.FieldReadsBack` | SQUIRREL3/squirrel/sqclass.h:14-22 | a field index reads back if and only if it is below 2^24 |
| `Classes.AddField` | SQUIRREL3/squirrel/sqclass.cpp:94-98 | a new field gets a slot of its own, and a method of that name stops being a member |
| `Classes.AddMethod` | SQUIRREL3/squirrel/sqclass.cpp:77-87 | a new method gets a slot of its own, and every other member keeps its slot |

## Left out

- `for` statements: their increment code is cut out and emitted again through the optimizer, and the exit jump is patched only when its position is positive.
- OP_CLOSE on break, continue and scope end, line information, `&&`, `||` and `?:` jumps inside expressions, and `yield` in the control-flow model; an expression is a sequence of primitive actions there.
- Simulation.SimulateLeave: the OP_CLOSE that RESOLVE_OUTERS emits before the jump is not in the control-flow model.
- Emitter.FuncState.Statement: `for`, `yield`, declarations and OP_CLOSE are not among its statements.
- Emitter.FuncState.BreakStatement: without the OP_CLOSE of RESOLVE_OUTERS.
- Emitter.FuncState.ContinueStatement: without the OP_CLOSE of RESOLVE_OUTERS.
- Emitter.FuncState.ReturnStatement: without `yield`, which shares the code in the source.
- Emitter.CompileFunction: emission is a plain append there; the optimizer is treated on its own in Peephole, for straight-line code, and jump targets between fused instructions are not modelled.
- Peephole.FuncState.AddInstruction: the rewrite of CALL to TAILCALL under RETURN is not modelled.
- Peephole.FuncState.DiscardTarget: the case of a CALL is not modelled.
- Peephole.StreamPreserved: calls and the tail-call rewrite are not in the instruction set, and operations on objects may change the heap but not registers through captured variables.
- Table.SQTable.NewSlot: nothing is claimed about its result when it rehashes, because the key is already planted then and the retry reports an existing key.
- Table.SQTable.Get: weak references stored as values are returned as they are.
- Table.SQTable.Clone: the delegate of the copy is not set.
- Interpreter.SQVM.EnterFrame: the new call-stack entry gets target -1 and code position 0, where the source leaves what an earlier use of the entry left, until the caller sets them.
- Interpreter.SQVM.StartCall: parameter checks, default and variable parameters, environment objects and the debug hook are not modelled; the new frame is assumed to fit after the stack has grown by 60 slots, as the code assumes.
- Interpreter.SQVM.CallNative: parameter and type checks, the copied outers and the environment are not modelled.
- Interpreter.SQVM.Throw: the error handler callback and the debug hook are not modelled.
- Interpreter.SQVM.Capture: the otOUTER case is the operation Inherit of the reference, which copies a handle; default parameters of the closure are not modelled.
- Interpreter.SQVM.YieldOp: the error object raised for a frame without a generator is not modelled, only that the instruction fails.
- Interpreter.RunAll: outers and generators live as long as the run, since reference counts of objects are not modelled; which weakly held `this` objects are still alive is a parameter of each resumption; coroutine threads and `sq_reservestack`, which moves the stack without relocating outers, are not part of the runs; every operation keeps within the stack, as its `Fits` says, which for a throw excludes stale traps that move a frame off the stack.
- Serial.ClosureRoundTrip: 32-bit integers and 1-byte characters only; floats are their 4 bytes; negative counts in a stream count as a failed load.
- SerialStreams.Writer.Save: the write function is taken to succeed; its failure is not modelled.
- SerialStreams.Writer.WriteObject: the write function is taken to succeed.
- RefTables.RefTable.Resize: the assertion on non-zero counts holds as long as `GetRefCount` is used on referenced objects only.
- Strings.RunAll: characters are taken after their conversion to unsigned short; lengths of allocation blocks and the terminating zero are not modelled.
- Delegation.Get: metamethods and default delegates are not modelled; only the table part of the lookup is.
- Classes.SQClass.NewSlot: an added slot is at most the 2^24th of its kind, as the index encoding requires; attributes, user data sizes and release hooks are not modelled.
- ClassRuns.RunAll: a slot beyond the 2^24th of its kind in one class is not added in these runs; there the index encoding fails, by Classes.MethodReadsBack and Classes.FieldReadsBack.
- Classes.SQClass.Get: weak references stored as defaults are returned as they are.
- Classes.SQInstance.Get: weak references stored in fields are returned as they are.
- Mark.Collector.MarkFrom: which fields each type of object visits is not modelled; an object is the list of its references.
- Mark.Collector.RunMark: objects are their lists of references; which fields each type visits, and the sweep that follows, are not modelled.
- Heapsort.Hsort: a compare function that changes the array while it is being sorted is not covered.
- The debug hook, coroutine suspension and the error handler callback.
- The LLVM code generator, the lexer, the type checker and reflection, the IDE, and the standard libraries.
