# Lama: the collector, the compilers, the interpreter and two library units

This project models five parts of the Lama implementation in Dafny and proves what each of
them is for. All main results are about every input, every run or every reachable state.

* **The mark-compact collector** (`runtime/gc.c`). `Words` (32-bit words, headers, the three
  uses of the forwarding word), `Layout` (objects tile the heap), `Reachability`, `Marking`
  (the queue that lives in the forwarding words), `Compaction` (destinations, references,
  sliding), `Roots` (the areas that are scanned and rewritten), `Isomorphism` (the result of a
  collection), `Accounting` (the sizing policy over all cycles), `HeapInvariant` (what
  collection, allocation and writes keep), `Observation` (what the program can see), and
  `GarbageCollector`, the imperative collector itself: class `Collector` with the heap array,
  `begin`, `current` and `size`, changed in place.
* **The compiler to the stack machine** (`src/SM.ml`) against the reference evaluator
  (`src/Language.ml`). `Reference` is the evaluator in continuation-passing style, `Direct`
  the same language without continuations, `StackMachine` the machine, `Compiler` the
  compiler with its flag and label protocol, and `Operations` says what the operations compute
  that all of them use. `Continuations`, `Correspondence`,
  `PatternTests`, `PatternsCompiled`, `Scopes`, `BindingsCompiled`, `Unfolding`, `Preservation`, `Simulation`,
  `Watched`, `Labels` and `CompilerCorrect` build the proof that compilation preserves meaning;
  `CapturedPlaces` is about the assignments for which it does not.
  `Closures` is `funinfo` with its fixpoint over calls, `Bytecode` and `BytecodeFile` are the
  encoder, the file format and the disassembler of `byterun/byterun.c`.
* **The symbolic stack of the x86 code generator** (`src/X86.ml`). `Symbolic` is the operand
  stack of registers and slots, `StackDepths` traces depths through the code of main programs
  and functions, `StackClashes` shows which code disagrees with itself, `Locations` joins the
  two views, and `MissingOperand` runs the generator on two programs that it cannot translate.
* **The bytecode interpreter** (`interpreter/interpreter.c`). `InterpreterFrames` has the
  evaluator's configurations and activations, `StackLayout` says how activations lie in
  memory, and `BytecodeInterpreter` is the interpreter: class `Interpreter` with its registers
  and two downward stacks.
* **Library units and small algorithms.** `Collection` (balanced maps and sets,
  `stdlib/Collection.lama`), `Comparison` and `ComparisonOrder` (`=?=` on cyclic data, `stdlib/Data.lama`),
  `FlatOrder` and `TagHash` (`runtime/runtime.c`, and `hash` of `src/X86.ml`), and `FlatKeys`,
  which puts the library's maps and the order of their keys together.

Values that the program only hands around stay what they are; `mremap`, input and the
addresses that the operating system chooses are parameters. Ghost parameters and fields of the
methods name the mathematical state that the concrete one stands for.

## What turned out not to hold

* Not every cell that the collector marks is rewritten exactly once
  (`Roots.TopCell`, `Roots.BottomCell`, `Roots.StopCell`). It is so exactly for the root areas that
  `Roots.FixedOnce` describes; `Roots.DisciplineTested` has the same condition as a test on the
  addresses that delimit the areas and on the registered ones.
* The target of an assignment may be a scope or a branch that declares the variable itself. The
  reference evaluator assigns after leaving the scope, to the variable outside; the compiled
  code has taken the address inside. `CapturedPlaces.ShadowedDiffers` is a program whose result
  is 5 for the one and 1 for the other. The addresses are those of the meant variables exactly if
  no scope inside the target declares one of them (`CapturedPlaces.MeantExactly`).
* A `case` can be the target of an assignment. If it can fail, its branches arrive at the common
  label with two operands and its failure exit with one, so that the code generator places the
  same operand differently on two edges (`StackClashes.FailingPlace`). It goes on with the stack
  of the last jump. If that is the failure exit, it lacks an operand for the assignment and stops
  (`MissingOperand.GeneratorStops`); if not, it emits code whose edges disagree, and says nothing
  (`MissingOperand.GeneratorMisplaces`). All edges agree exactly if no such case is assigned to
  (`StackClashes.AgreeExactly`, `Locations.ProgramPlaces`, `Locations.RoutinePlaces`), and then
  the generator also gets through (`Locations.ProgramSound`, `Locations.RoutineSound`).
* `LflatCompare` is not an order of the words. Its test `~UNBOXED (q)` is never zero, so an
  address compared with an integer is compared by value, while the other way round the integer
  always counts as less. A difference is boxed to 31 bits: words far apart compare the wrong way
  round, and two addresses 2^31 apart compare equal. `FlatOrder.FlatCompareOrders`,
  `FlatOrder.FlatCompareContradicts` and `FlatOrder.FlatCompareEqual` have the exact conditions
  over all 32-bit words, `FlatOrder.IntegersContradict`, `FlatOrder.FarWordsContradict` and
  `FlatOrder.AddressesCollide` words that fail. In a map of the standard library with such keys
  an integer is not found any more when two addresses have been added (`FlatKeys.LostKey`), and
  one value is found under the key of another (`FlatKeys.SharedKey`).
* `=?=` boxes the difference of two integers to 31 bits. Integers more than 2^30 apart come the
  wrong way round, and of two that are exactly 2^30 apart each is less than the other
  (`ComparisonOrder.DecidedAtOnce`, `Comparison.OpposedClash`); exchanging the values negates the
  answer on all values of a heap exactly if no two integers in it are so far apart
  (`Comparison.AntisymmetricExactly`).
* `validateColl` accepts trees that are neither ordered nor balanced: `verify` sees the parent's
  key only, and factors are not bounded (`Collection.ValidateExact`, `Collection.ValidatorMisses`).
* `LtagHash` accepts a tag only if its first five characters do not start with `_` (or there
  are none); the code generator's `hash` has no such check (`TagHash.RoundTrip`;
  `TagHash.Refused` is the tag `_a`).
* The machine's `PATT Boxed` answers yes for everything that is not an integer, the reference
  matcher only for strings, arrays and s-expressions
  (`PatternsCompiled.AcceptsMatches` has the exact difference, `PatternsCompiled.BoxOnEmpty` a
  value). Compiled programs agree with the reference in all runs that do not meet such a branch.
* `main` declares two arguments that nobody pushes. When it ends, the interpreter stores its
  result over the second global, or past the end of the stack area when there are fewer than two
  globals (`BytecodeInterpreter.Interpreter.MainResult`).

## Model

| member | source | states |
|---|---|---|
| `Words.SetMark` | runtime/gc.h:26-29 | setting the mark bit leaves the enqueued bit and the forwarding address of the same word as they are |
| `Words.ResetMark` | runtime/gc.h:30-30 | clearing the mark bit leaves the two other uses of the word alone |
| `Words.MakeEnqueued` | runtime/gc.h:28-28 | setting the enqueued bit leaves mark and address alone |
| `Words.MakeDequeued` | runtime/gc.h:29-29 | clearing the enqueued bit leaves mark and address alone |
| `Words.SetAddress` | runtime/gc.h:31-36 | `x & 3 \| addr` stores an aligned address under both bits, given a cleared address field |
| `Words.MakeHeader` | runtime/runtime_common.h:18-19 | `LEN` and `TAG` read back the length and the tag that went into a header |
| `Layout.WalkTiles` | runtime/gc.c:716-729 | the heap iterator, going by object sizes, lands exactly on the end of the heap if and only if the objects tile it |
| `Layout.Apart` | runtime/gc.c:770-803 | the words of two objects never overlap and stay inside the heap |
| `Layout.FieldsAt` | runtime/gc.c:805-821 | which words are fields: all elements of an array, the members of an s-expression after its tag, what a closure has captured after its entry, nothing of a string |
| `Layout.WordsOf` | runtime/gc.c:770-803 | how many words an object has, by kind and length; a string has the least number that holds its bytes and the terminating one |
| `Marking.TailBelowEnd` | runtime/gc.c:485-491 | at every enqueue the queue is shorter than the heap has objects, so its next slot is below `heap.current` |
| `Marking.EnqueueKeeps` | runtime/gc.c:485-491 | writing the slot and the enqueued bit, possibly in one word, keeps the queue: pending slots, bits and all other words |
| `Marking.EnqueueField` | runtime/gc.c:502-532 | a field whose target has a bit set needs nothing; any other target can be enqueued, and the tail iterator stands on a whole object |
| `Marking.DequeueKeeps` | runtime/gc.c:493-500 | dequeuing and marking the head keeps the queue, and no pending slot is overwritten before it is read |
| `Marking.MarkDone` | runtime/gc.c:502-532 | when the queue is empty, all enqueued bits are clear and the marked set has grown by exactly what the root reaches |
| `Compaction.DestOrder` | runtime/gc.c:283-306 | destinations are packed, in address order, never above their sources and never overlapping |
| `Compaction.ForwardComputed` | runtime/gc.c:308-328 | the address arithmetic against the old and the new base yields the object's new content address, without overflow |
| `Compaction.SlideKeeps` | runtime/gc.c:455-477 | moving one object, with source and target overlapping, disturbs neither the moved ones nor those still to come |
| `Isomorphism.SlideReads` | runtime/gc.c:455-477 | when an object's turn comes, its header, mark bit and forwarding address are intact, and the next object is found by its size |
| `Isomorphism.PlanOnto` | runtime/gc.c:283-306 | every object of the new heap is the image of one of the old heap |
| `Isomorphism.ResultIsomorphic` | runtime/gc.c:258-281 | the forwarding map is an order-preserving bijection from the marked objects onto the new heap; kinds, lengths, bytes and integers are kept and pointer fields are forwarded |
| `Isomorphism.ResultSettled` | runtime/gc.c:258-281 | the new heap is tiled by objects, has clear bits and only good words in its fields |
| `Roots.FixedDistinct` | runtime/gc.c:330-395 | no root cell is rewritten twice if and only if the registered cells are separate |
| `Roots.FixedCovers` | runtime/gc.c:330-395 | every marked root cell is rewritten if and only if the skipped extra roots are covered by other areas |
| `Roots.FixedOnce` | runtime/gc.c:401-453 | both together are exactly the discipline that collection relies on |
| `Roots.DisciplineTested` | runtime/gc.c:330-453 | the discipline as a test on addresses: alignment and overlap of stack and globals, and the place of every extra root |
| `Roots.TopCell` | runtime/gc.c:334-395 | an extra root registered at `stack_top` itself is marked and never rewritten |
| `Roots.BottomCell` | runtime/gc.c:334-441 | an extra root at the word past the end of the stack is rewritten twice |
| `Roots.StopCell` | runtime/gc.c:340-346 | an extra root registered at the end of the globals is marked and never rewritten |
| `Roots.AreaCell` | runtime/gc.c:334-448 | an extra root that is a word of the stack or of the globals is marked, and rewritten once |
| `Accounting.NextSize` | runtime/gc.c:258-281 | the new size is the least one not below the old size, the minimum capacity, and twice the live words plus the request |
| `Accounting.BalancedAlloc` | runtime/gc.c:175-183 | an allocation without a collection keeps the sizing invariant |
| `Accounting.BalancedCollect` | runtime/gc.c:258-281 | after a collection the request fits, the size is the maximum over all cycles of 2 * live + request (or the minimum), and the words scanned by all cycles are at most 2 * allocated + the request |
| `HeapInvariant.RootsRewritable` | runtime/gc.c:225-256 | after marking, every cell that will be rewritten leads to a marked object, and nothing but what the roots reach is marked |
| `HeapInvariant.RootsStillGood` | runtime/gc.c:401-453 | rewritten root cells fit the new heap, wherever it is |
| `HeapInvariant.NothingMoved` | runtime/gc.c:51-66 | an allocation that needs no collection preserves everything, each object in its place |
| `HeapInvariant.AppendedSettled` | runtime/gc.c:870-922 | a new zeroed object with its header keeps the heap well formed |
| `HeapInvariant.PayloadWord` | runtime/gc.c:805-842 | a write of a good word into a field, or of any word elsewhere in the payload, keeps the heap well formed |
| `Observation.SameTree` | runtime/gc.c:258-281 | corresponding words of the heap before and after a collection unfold to the same trees, to any depth, through cycles and sharing |
| `Observation.ViewKept` | runtime/gc.c:258-281 | all that a program can see from its roots is the same after a collection |
| `Observation.ViewAfterAppend` | runtime/gc.c:51-66 | and the same after the allocation that follows |
| `Observation.ArrayShown` | runtime/gc.c:805-821 | an array shows as many elements as its length says, each the tree of its word |
| `Observation.SexpShown` | runtime/gc.c:805-821 | an s-expression shows its tag, and its members in the same way |
| `Observation.ClosureShown` | runtime/gc.c:805-821 | a closure shows its entry, and what it has captured |
| `Observation.StringShown` | runtime/gc.c:796-799 | a string shows its bytes, four to a word, and the terminating one |
| `Observation.ElementWritten` | runtime/runtime.c:941-963 | an element that has been written shows the tree of what was written, and the others that of what they held |
| `Observation.WrittenElsewhere` | runtime/runtime.c:941-963 | a write into an object shows in no value that does not lead to the object |
| `Observation.NewShown` | runtime/gc.c:870-922 | a new object shows the kind and the length that were asked for, and nothing but zeros |
| `GarbageCollector.Collector.NextPointerField` | runtime/gc.c:823-842 | the field iterator stops at the next pointer and passes integers only |
| `GarbageCollector.Collector.QueueEnqueue` | runtime/gc.c:485-491 | the heap afterwards is the old one with the slot and the enqueued bit written, and the tail goes on to the next object |
| `GarbageCollector.Collector.QueueDequeue` | runtime/gc.c:493-500 | returns the address in the head's slot and clears that object's enqueued bit |
| `GarbageCollector.Collector.Mark` | runtime/gc.c:502-532 | the marked set grows by exactly the objects reachable from one root value |
| `GarbageCollector.Collector.MarkPhase` | runtime/gc.c:225-256 | exactly the objects reachable from stack, extra roots and globals are marked; everything except forwarding words is unchanged |
| `GarbageCollector.Collector.ComputeLocations` | runtime/gc.c:283-306 | every marked object knows its destination, and the words of live objects are counted |
| `GarbageCollector.Collector.FixCell` | runtime/gc.c:308-328 | one root cell afterwards holds the forwarded word, all others what they held |
| `GarbageCollector.Collector.FixExtraRoots` | runtime/gc.c:334-395 | extra roots that other scans meet are left to them, the others are forwarded once |
| `GarbageCollector.Collector.FixRoots` | runtime/gc.c:401-453 | all cells to be rewritten hold forwarded words, all others are untouched |
| `GarbageCollector.Collector.UpdateObjects` | runtime/gc.c:401-440 | every pointer field of every live object is forwarded, and nothing else is written |
| `GarbageCollector.Collector.UpdateReferences` | runtime/gc.c:401-453 | objects and roots together, against a base that may have moved |
| `GarbageCollector.Collector.PhysicallyRelocate` | runtime/gc.c:455-477 | every live object lies at its destination with its words as they were, and mark bits are clear |
| `GarbageCollector.Collector.CompactPhase` | runtime/gc.c:258-281 | the heap afterwards is isomorphic to what was marked, its size follows the policy, and roots are forwarded; it fails only if remapping fails |
| `GarbageCollector.Collector.AllocOnExistingHeap` | runtime/gc.c:175-183 | fails exactly when the request does not fit; otherwise the words are zero and everything below is untouched |
| `GarbageCollector.Collector.Collect` | runtime/gc.c:185-223 | one whole cycle preserves the program's data and keeps only what is reachable |
| `GarbageCollector.Collector.GcAlloc` | runtime/gc.c:185-223 | after a collection the allocation succeeds, and all cycles together have scanned at most 2 * allocated + the request |
| `GarbageCollector.Collector.Alloc` | runtime/gc.c:51-66 | allocation from any valid state, with a collection only if there is no room |
| `GarbageCollector.Collector.NewObject` | runtime/gc.c:870-922 | a new object keeps the invariant of all runs and what the program could see |
| `GarbageCollector.Collector.AllocString` | runtime/gc.c:870-881 | the same for strings, with their terminating byte; the result shows a string of this length, all zeros |
| `GarbageCollector.Collector.AllocArray` | runtime/gc.c:883-894 | the same for arrays; the result shows an array of this length |
| `GarbageCollector.Collector.AllocSexp` | runtime/gc.c:896-908 | the same for s-expressions |
| `GarbageCollector.Collector.AllocClosure` | runtime/gc.c:910-922 | the same for closures |
| `GarbageCollector.Collector.WritePayload` | runtime/gc.c:805-842 | writes of the program keep the invariant |
| `GarbageCollector.Collector.ChangeRoots` | runtime/gc.c:598-622 | pushing, popping and changing roots keeps the invariant as long as the discipline is kept |
| `GarbageCollector.Collector.constructor` | runtime/gc.c:567-583 | the empty heap of minimum size satisfies the invariant |
| `Continuations.Cps` | src/Language.ml:456-582 | evaluating `e` with continuation `k` is evaluating `e` and then `k`: whenever it finishes, direct evaluation of `e` finishes with the number of values that its attribute says, and `k` goes on from there |
| `Continuations.CpsCase` | src/Language.ml:537-582 | the same for pattern matching, whose branch runs inside the intrinsic |
| `Continuations.CpsWhile` | src/Language.ml:531-536 | the same for loops, whose body is followed by the loop again |
| `Direct.ExecMore` | src/Language.ml:456-582 | a result of direct evaluation does not depend on how much fuel there was |
| `StackMachine.StopsOnce` | src/SM.ml:434-616 | the machine stops in at most one configuration |
| `Operations.Operates` | src/Language.ml:428-446 | what each operator computes on all integers: sum, difference and product up to 63 bits, the quotient that truncates, the remainder with the sign of the dividend, 1 or 0 for comparisons and connectives; there are no others, and none divides by zero |
| `Operations.Exact` | src/Language.ml:428-446 | results of 63 bits are not changed |
| `Operations.BinopRuns` | src/SM.ml:466-475 | `BINOP` on two integers leaves what the operator computes, the lower one first, and fails exactly if there is nothing |
| `Operations.ApplyRuns` | src/Language.ml:509-509 | so does the reference evaluator |
| `Operations.BinopExecutes` | src/Language.ml:509-509 | and direct evaluation |
| `Operations.Allocated` | src/Language.ml:103-106 | a new object has the elements it was made of, in their order, and no other value changes |
| `Operations.ElementAssigned` | src/Language.ml:112-119 | after an assignment the element holds what was assigned, and no other element, length, kind or tag has changed |
| `Operations.Assignable` | src/Language.ml:112-119 | assignment is possible exactly for elements that exist, in a string with codes of characters |
| `Operations.BuiltinBehaves` | src/Language.ml:160-177 | `read` takes the next integer of the input, `write` appends to the output, `length` is the number of elements; nothing else happens, and there are no others |
| `Operations.InitsFirst` | src/SM.ml:1393-1432 | initialisers of a scope run in the order in which they are written, each assigns its variable, and the body follows |
| `Correspondence.StoresAllocate` | src/SM.ml:475-490 | objects allocated on both sides correspond |
| `Correspondence.SetCorresponds` | src/Language.ml:115-152 | an element assignment on corresponding stores succeeds together and leaves them corresponding |
| `Correspondence.BuiltinCorresponds` | src/Language.ml:153-180 | builtins on corresponding arguments read, write and answer the same |
| `PatternsCompiled.AcceptsMatches` | src/SM.ml:1270-1320 | what compiled pattern code accepts is what the matcher matches, except `#box` on other boxed values: the exact condition |
| `PatternsCompiled.BoxOnEmpty` | src/SM.ml:1270-1320 | the value that `write` returns is accepted by compiled `#box` and not matched by the reference |
| `PatternsCompiled.BoxFreeNever` | src/Language.ml:546-576 | a pattern without `#box` is never concerned |
| `PatternsCompiled.PatternRuns` | src/SM.ml:1270-1334 | pattern code started on `v :: s` falls through with `s` exactly on acceptance and reaches its failure label with `s` otherwise; a pattern without failure flag accepts everything |
| `BindingsCompiled.MatchBinds` | src/Language.ml:546-576 | the matcher binds every name to the part of the value that its path leads to |
| `BindingsCompiled.BindRuns` | src/SM.ml:1335-1369 | binding code stores exactly these parts into the slots of their names and leaves the stack as it was |
| `BindingsCompiled.BranchBound` | src/SM.ml:1335-1369 | inside a branch, variables of the reference and slots of the machine agree |
| `Scopes.LookupAgrees` | src/SM.ml:1237-1255 | a variable is where the compiler's designation says, with the value that the reference finds |
| `Scopes.UpdateAgrees` | src/SM.ml:420-433 | an assignment updates both sides alike, through any number of scopes, and shadowed variables stay |
| `Scopes.OpenAgrees` | src/SM.ml:1057-1072 | opening a scope keeps agreement |
| `Scopes.CloseAgrees` | src/SM.ml:1073-1080 | closing a scope keeps agreement of the outer scopes |
| `Labels.CompileNeat` | src/SM.ml:1373-1579 | compiled code defines labels of its own range only, each once, and jumps to its target label only if its flag is set |
| `CompilerCorrect.JumpsResolve` | src/SM.ml:1635-1660 | in a compiled program all labels are unique and every jump has somewhere to go |
| `CompilerCorrect.NeverTargeted` | src/SM.ml:1370-1379 | with the flag clear the target label is never jumped to |
| `Simulation.IfRuns` | src/SM.ml:1490-1504 | compiled conditionals do what evaluation does, whichever branch leaves by a jump |
| `Simulation.LoopRuns` | src/SM.ml:1505-1536 | compiled loops do what evaluation does, for every number of turns |
| `Simulation.BranchesRun` | src/SM.ml:1538-1579 | compiled branches select and run the branch that the reference selects; dropping branches after an irrefutable pattern is sound |
| `Simulation.PlaceAssignRuns` | src/SM.ml:1489-1495 | assignment to any other place than a plain variable, conditional, case, sequence, scope or element: the machine stores where the reference does, through an address or into an object as the run decides |
| `Simulation.PlaceNamed` | src/Language.ml:407-412 | the variable that a place turns out to be in a run is one that can be seen in its text |
| `Simulation.Simulates` | src/SM.ml:1380-1579 | compiled code of any expression, anywhere in a program, pushes the expression's values, or the address of its place, and has its effects; it falls through with a clear flag and leaves by its label with a set one |
| `CapturedPlaces.ShadowedDiffers` | src/Language.ml:533-535 | `var x = 1; (var x = 2; x) := 5; x` ends with 5 in the reference evaluator and with 1 in compiled code |
| `CapturedPlaces.MeantExactly` | src/SM.ml:1390-1435 | the addresses that the code of a place takes are those of the variables outside exactly if no scope inside the place declares one of its variables |
| `Watched.ExecAlike` | src/SM.ml:1270-1334 | an evaluation that stops at every branch accepted by the machine's tests and refused by the matcher finishes as the plain one does, if it finishes or the expression has no `#box` |
| `CompilerCorrect.DirectPreserved` | src/SM.ml:1635-1660 | whole programs, against direct evaluation |
| `CompilerCorrect.CompilerPreserves` | src/SM.ml:1635-1660 | whenever the reference evaluator finishes a program, without meeting a branch that the machine would take and the matcher refuses, the compiled program finishes with the same output and corresponding values; programs without `#box` meet none |
| `CompilerCorrect.CompiledAlwaysAgrees` | src/SM.ml:434-616 | no such run of the compiled program that stops has printed anything else |
| `Closures.DownUp` | src/SM.ml:935-972 | naming a closure's members from further inside and resolving them back again is the identity |
| `Closures.DownInRange` | src/SM.ml:935-972 | all resulting accesses are to slots that exist |
| `Closures.DownGrown` | src/SM.ml:935-972 | closures that have grown at their ends do not change the names that were found before |
| `Closures.FoundPath` | src/SM.ml:933-938 | the path found is the chain of functions from the callee's parent down to the caller |
| `Closures.PathExactly` | src/SM.ml:933-938 | there is at most one such chain, and it is found if there is one |
| `Closures.FunInfo.ExtendOne` | src/SM.ml:943-970 | one function's closure gets exactly the missing members at its end, and the result names all of them |
| `Closures.FunInfo.PropagateDownwards` | src/SM.ml:940-971 | the whole path is extended with what comes down from the closure and with nothing else; the result is what naming along the path gives, and the change flag is exact |
| `Closures.FunInfo.PropagateForCall` | src/SM.ml:931-975 | closures get only what this call needs; when nothing changes, the recorded call is settled |
| `Closures.RoomShrinks` | src/SM.ml:977-985 | every change uses up room that closures can never exceed, so rounds come to an end |
| `Closures.BoundedSize` | src/SM.ml:977-985 | closures stay within the slots of the enclosing functions |
| `Closures.FunInfo.PropagateClosures` | src/SM.ml:977-985 | the fixpoint ends; closures are free of duplicates and bounded, only grow, hold nothing new but what some recorded call needs, and every recorded call is settled |
| `Closures.SettledMeans` | src/SM.ml:977-985 | a settled call's record resolves, member by member, to the callee's closure, through slots that exist |
| `Bytecode.Int32Read` | src/SM.ml:179-181 | 32-bit integers read back |
| `Bytecode.PlacesRead` | src/SM.ml:186-212 | designations of variables read back, globals by their indices |
| `Bytecode.InsnDecoded` | byterun/byterun.c:87-270 | decoding undoes encoding for every instruction, whatever follows it, and the decoder's own tables name operators, patterns and builtins as the instruction does |
| `Bytecode.Refused` | src/SM.ml:213-326 | what has no encoding: unknown operators and conditions, functions in the place of variables, and instructions that only exist before closures are known |
| `BytecodeFile.LabelAt` | src/SM.ml:174-174 | in uniquely labelled code the offset of a label of any of the three kinds is the size of the code before it |
| `BytecodeFile.LabelsOnly` | src/SM.ml:233-233 | nothing but the three instructions makes a label |
| `BytecodeFile.PublicsOf` | src/SM.ml:322-322 | the public symbols are those declared |
| `BytecodeFile.PatchAll` | src/SM.ml:331-338 | patching all fixups in place gives the code as if labels had been known, and fails exactly on an undefined label |
| `BytecodeFile.EncodeStable` | src/SM.ml:164-326 | later additions to the tables do not change code already encoded |
| `BytecodeFile.ReadsBack` | byterun/byterun.c:24-27 | a string without zero bytes is read back from its offset |
| `BytecodeFile.Encoder.AddString` | src/SM.ml:101-117 | a string is in the table once, and what is there stays |
| `BytecodeFile.Encoder.AddGlobal` | src/SM.ml:188-197 | distinct globals have distinct indices below the count, which is their number |
| `BytecodeFile.Encoder.InsnCode` | src/SM.ml:213-326 | one instruction's bytes, label, fixup and public symbol; it fails exactly on instructions without an encoding |
| `BytecodeFile.Encoder.Pass` | src/SM.ml:328-328 | the whole pass, from empty tables |
| `BytecodeFile.Encoder.Publics` | src/SM.ml:339-348 | every public symbol is published with its name's and its label's offset; undefined ones are a failure |
| `BytecodeFile.Compile` | src/SM.ml:164-364 | compilation succeeds exactly on compilable code, and the file is what the tables say |
| `BytecodeFile.Disassemble` | byterun/byterun.c:76-279 | the disassembler lists the code up to the end mark |
| `BytecodeFile.RoundTrip` | byterun/byterun.c:76-279 | disassembling compiled code shows the instructions again under their names, without pseudo-instructions, with labels as offsets, strings as themselves and globals as indices |
| `BytecodeFile.FileRoundTrip` | byterun/byterun.c:40-73 | a serialized file reads back as what was written |
| `BytecodeFile.LabelShown` | src/SM.ml:331-338 | in the listing of the file everything before a label is shown below the label's offset, and the first instruction after it is shown at that offset |
| `Symbolic.StepCanonical` | src/X86.ml:266-590 | every instruction keeps the symbolic stack the one that its depth determines: four registers, then consecutive slots |
| `Symbolic.BeginCanonical` | src/X86.ml:868-876 | so it is at the start of a function |
| `Symbolic.PrefixCanonical` | src/X86.ml:759-807 | and after every prefix of any code that gets through the generator |
| `Symbolic.SlotsInside` | src/X86.ml:784-794 | every slot in use lies between the locals and `stack_slots` |
| `StackDepths.PatternTests` | src/SM.ml:1270-1334 | pattern code consumes one value on both exits, and all its inner edges agree on depths |
| `StackDepths.BranchesLead` | src/SM.ml:1538-1579 | branches find the value and its copy, leave the result, and agree at every failure label |
| `StackDepths.CodeLeads` | src/SM.ml:1380-1579 | in the code of a well-attributed expression in which no case that can fail is assigned to, with a place counted as two slots, every edge into a label has the same depth, and the code leaves just its values at its end or at its target label |
| `StackDepths.ProgramDepths` | src/SM.ml:1635-1660 | in the code of a main program in which no case that can fail is assigned to, no instruction lacks operands and END finds exactly one value |
| `StackDepths.RoutineDepths` | src/SM.ml:1581-1606 | the same, under the same condition, for a function, which starts with an empty stack |
| `StackDepths.WholeDepths` | src/SM.ml:1607-1660 | and for the code of a main program with all its functions, if no case that can fail is assigned to in any of them |
| `StackDepths.EdgesAgree` | src/SM.ml:1380-1660 | under this condition any two edges into one label, in main program or functions, have the same depth |
| `StackClashes.CodeClashes` | src/SM.ml:1538-1579 | an expression in which a case that can fail is assigned to, however deep, makes its code jump to some label from two depths |
| `StackClashes.AgreeExactly` | src/SM.ml:1380-1660 | in the code of main program and functions all edges into a label have the same depth if and only if no case that can fail is assigned to |
| `StackClashes.FailingPlace` | src/SM.ml:1570-1579 | `case 1 of 1 -> x esac := 3` does not |
| `Locations.StepFollows` | src/X86.ml:266-590 | the generator never fails where the depth trace goes on, and its operand count is the traced depth |
| `Locations.ProgramGenerates` | src/X86.ml:586-590 | for a compiled main program in which no case that can fail is assigned to the generator gets through, its stack is canonical after every prefix and empty at the end |
| `Locations.RoutineGenerates` | src/X86.ml:586-590 | the same, under the same condition, for a function |
| `Locations.ProgramPlaces` | src/X86.ml:266-278 | all edges into a label find the operands in the same registers and slots, so that no merge code is needed, if and only if no case that can fail is assigned to |
| `Locations.RoutinePlaces` | src/X86.ml:266-278 | the same for every function |
| `Locations.ProgramSound` | src/X86.ml:266-590 | the generator gets through a main program, with all operands in the same places on all edges, if and only if no case that can fail is assigned to |
| `Locations.RoutineSound` | src/X86.ml:266-590 | the same for a function |
| `MissingOperand.GeneratorStops` | src/X86.ml:236-247 | on `case 1 of 1 -> x esac := 3` the generator finds two operands where the assignment needs three, and stops with an exception |
| `MissingOperand.GeneratorMisplaces` | src/X86.ml:266-278 | for `(if 1 then case 1 of 1 -> x esac else x fi) := 3` the generator gets through although edges into one label disagree about places |
| `InterpreterFrames.StepEvaluates` | src/SM.ml:434-609 | a step over activations with operands of their own is the evaluator's step on its single stack |
| `InterpreterFrames.RunEvaluates` | src/SM.ml:434-609 | the same for runs |
| `InterpreterFrames.CallersWait` | src/SM.ml:554-609 | however long a called activation runs, the activations below it do not change |
| `InterpreterFrames.CallReturns` | src/SM.ml:554-609 | from a call to its END: the caller has its variables and remaining operands, one value in the place of the arguments, and goes on after the call |
| `StackLayout.LayoutCall` | interpreter/interpreter.c:146-168 | a call moves no words: the caller's operands are the callee's arguments |
| `StackLayout.LayoutReturn` | interpreter/interpreter.c:292-311 | what lies between the result and the caller's operands is exactly locals, arguments and closure |
| `StackLayout.LayoutFetch` | interpreter/interpreter.c:198-226 | locals and arguments lie where the address computation looks for them |
| `StackLayout.Restored` | interpreter/interpreter.c:292-311 | after the END of a called activation the frame pointer, the numbers of arguments and locals, the call stack and the words below are those of before the call |
| `BytecodeInterpreter.Interpreter.constructor` | interpreter/interpreter.c:113-123 | the interpreter starts in the evaluator's initial state, globals zeroed |
| `BytecodeInterpreter.Interpreter.GetAddr` | interpreter/interpreter.c:198-226 | the address of every variable that the evaluator knows, without a false alarm |
| `BytecodeInterpreter.Interpreter.Ld` | interpreter/interpreter.c:228-231 | loads push the evaluator's value or overflow |
| `BytecodeInterpreter.Interpreter.St` | interpreter/interpreter.c:238-242 | stores change the evaluator's variable and nothing else, captured variables included |
| `BytecodeInterpreter.Interpreter.Call` | interpreter/interpreter.c:146-153 | a call enters the evaluator's new activation |
| `BytecodeInterpreter.Interpreter.ExecuteClosure` | interpreter/interpreter.c:277-284 | a closure call finds the closure under the arguments and enters its code |
| `BytecodeInterpreter.Interpreter.Begin` | interpreter/interpreter.c:155-168 | the caller's registers are saved, and cleared locals stand below the arguments |
| `BytecodeInterpreter.Interpreter.FinalizeFunction` | interpreter/interpreter.c:292-311 | locals, arguments and closure are gone, the result is the caller's operand, and the caller's registers are back |
| `BytecodeInterpreter.Interpreter.Closure` | interpreter/interpreter.c:256-275 | a closure holds the values of the captured variables |
| `BytecodeInterpreter.Interpreter.Execute` | interpreter/interpreter.c:553-602 | one instruction is the evaluator's step, or a stack is full |
| `BytecodeInterpreter.Interpreter.Interpret` | interpreter/interpreter.c:553-602 | any number of instructions ends in the configuration that the evaluator reaches, or in an overflow |
| `BytecodeInterpreter.Interpreter.MainResult` | interpreter/interpreter.c:292-311 | where the END of `main` would store its result |
| `Collection.RotTrue` | stdlib/Collection.lama:59-90 | the rotation formulas keep stored factors equal to height differences, whatever the factors are |
| `Collection.FixLeft` | stdlib/Collection.lama:103-113 | a left subtree that is two too high is put right by a single or double rotation, and the height is back |
| `Collection.FixRight` | stdlib/Collection.lama:116-127 | the mirror image |
| `Collection.Inner` | stdlib/Collection.lama:94-131 | insertion keeps the tree balanced, and its flag says exactly whether the height has grown by one |
| `Collection.RotModel` | stdlib/Collection.lama:59-90 | rotation moves no key and keeps the order |
| `Collection.InnerModel` | stdlib/Collection.lama:94-131 | insertion puts the value on the stack of its key, touches no other key and keeps the order |
| `Collection.FindModel` | stdlib/Collection.lama:136-157 | lookup returns the top of the key's stack, with at most as many comparisons as the tree is high |
| `Collection.RemoveShape` | stdlib/Collection.lama:159-183 | removal changes no height and no factor |
| `Collection.RemoveModel` | stdlib/Collection.lama:159-183 | removal pops the stack of its key and touches no other |
| `Collection.BindingsSorted` | stdlib/Collection.lama:185-201 | the listing is strictly ascending and holds exactly the live keys with their tops |
| `Collection.ElementsSorted` | stdlib/Collection.lama:185-201 | the same for sets |
| `Collection.RunRefines` | stdlib/Collection.lama:213-235 | after any run of additions and removals the tree stands for the map from keys to stacks that the run gives |
| `Collection.RunAnswers` | stdlib/Collection.lama:221-235 | what `findMap` and `bindings` answer after any run |
| `Collection.MapAnswers` | stdlib/Collection.lama:221-235 | the same from the operations alone: a key has the value of its latest addition that no later removal cancels, counting back from the end of the run, or none |
| `Collection.NothingLeft` | stdlib/Collection.lama:159-183 | removing a key that has no value leaves it without one |
| `Collection.OffUnused` | stdlib/Collection.lama:159-183 | what removal leaves in sets plays no part in maps |
| `Collection.RemoveRestores` | stdlib/Collection.lama:221-231 | `removeMap` brings back what the key's latest `addMap` had shadowed, whatever happened to other keys in between |
| `Collection.SetAnswers` | stdlib/Collection.lama:253-290 | membership and listing after any run on a set |
| `Collection.Populous` | stdlib/Collection.lama:94-131 | a balanced tree of height h has at least Fib(h + 2) - 1 nodes |
| `Collection.LookupCost` | stdlib/Collection.lama:144-154 | a lookup after any run makes at most h comparisons, where at least Fib(h + 2) - 1 distinct keys have been added |
| `Collection.ValidateExact` | stdlib/Collection.lama:29-49 | what the validator accepts, exactly |
| `Collection.RunsPass` | stdlib/Collection.lama:29-49 | it accepts every tree that a run makes |
| `Collection.ValidatorMisses` | stdlib/Collection.lama:29-49 | and a tree that is neither ordered nor balanced |
| `Comparison.StrCmpZero` | runtime/runtime.c:639-639 | string comparison answers 0 exactly on equal texts up to the terminating zero |
| `Comparison.LargestBisimulation` | stdlib/Data.lama:107-129 | bisimilarity, defined by observations of all depths, contains every bisimulation |
| `Comparison.AllDone` | stdlib/Data.lama:97-129 | when all joined pairs have been compared, classes hold bisimilar values only |
| `Comparison.Mirror` | stdlib/Data.lama:97-129 | answers depend on the partition only, not on cells or weights, and exchanging the values flips the sign unless integers are 2^30 apart |
| `Comparison.Antisymmetric` | stdlib/Data.lama:39-132 | `y =?= x` is minus `x =?= y`, unless both are -2^30 because of integers 2^30 apart |
| `Comparison.OpposedClash` | runtime/runtime.c:623-625 | two such integers are each less than the other |
| `Comparison.AntisymmetricExactly` | stdlib/Data.lama:39-132 | on all values of a heap the order is antisymmetric exactly if it holds no two such integers |
| `ComparisonOrder.StrCmpSign` | runtime/runtime.c:639-639 | strings come as in a dictionary: at the first difference the smaller has the smaller character or has ended |
| `ComparisonOrder.DecidedAtOnce` | stdlib/Data.lama:107-129 | the sign of the answer on all values, cyclic ones too, where kinds, integers, strings, tags, entry points or lengths decide |
| `ComparisonOrder.FirstDecides` | stdlib/Data.lama:97-105 | on values of which one is a tree, with as many components, the first ones that are not bisimilar decide |
| `ComparisonOrder.LessExactly` | stdlib/Data.lama:39-132 | which of two values is less, told from the values alone, if one of them is a tree; what has been met on the way plays no part |
| `Comparison.Comparer.Walk` | stdlib/Data.lama:44-58 | finds the root, and path shortening changes no class; the forest stays acyclic |
| `Comparison.Comparer.Find` | stdlib/Data.lama:60-63 | the root of a value's class, if it has one |
| `Comparison.Comparer.AlreadyEq` | stdlib/Data.lama:42-95 | answers whether the values are in one class; if not, their classes are joined and no others |
| `Comparison.Comparer.Attach` | stdlib/Data.lama:84-91 | linking one root to another joins exactly these two classes |
| `Comparison.Comparer.CmpArgs` | stdlib/Data.lama:97-105 | lengths, then components up to the first difference |
| `Comparison.Comparer.CmpRec` | stdlib/Data.lama:107-129 | the recursion ends on cyclic data, and its answer is that of the specification |
| `Comparison.Comparer.CompareData` | stdlib/Data.lama:39-132 | `=?=` answers 0 if and only if the values are bisimilar, on every finite graph |
| `Comparison.Comparer.EqualData` | stdlib/Data.lama:135-137 | `===` is bisimilarity |
| `FlatOrder.FlatCompareOrders` | runtime/runtime.c:605-613 | for which pairs of 32-bit words `LflatCompare` has the sign of their difference |
| `FlatOrder.FlatCompareContradicts` | runtime/runtime.c:605-613 | for which pairs each word counts as less than the other |
| `FlatOrder.FlatCompareEqual` | runtime/runtime.c:605-613 | words count as equal exactly if they are equal or addresses 2^31 apart |
| `FlatOrder.AddressesOrdered` | runtime/runtime.c:605-613 | which pairs of addresses are compared as they lie, both ways |
| `FlatOrder.IntegersContradict` | runtime/runtime.c:605-613 | the integer 0 contradicts an address above it and one below it |
| `FlatOrder.FarWordsContradict` | runtime/runtime.c:605-613 | two addresses, and two integers, far apart are each less than the other |
| `FlatOrder.AddressesCollide` | runtime/runtime.c:605-613 | two addresses that count as one key |
| `FlatKeys.InOrderExactly` | runtime/runtime.c:605-613 | a set of words is compared as its words lie exactly if distances are within reach and integers lie below addresses |
| `FlatKeys.FlatAnswers` | stdlib/Collection.lama:94-183 | on such words any run of additions and removals, keyed by `flatCompare`, answers as a map, told from the operations alone |
| `FlatKeys.IdentityMap` | stdlib/Data.lama:40-95 | a map whose keys stand for identities through their words then is the map from identities |
| `FlatKeys.LostKey` | stdlib/Collection.lama:94-154 | with the integer 0 and two addresses the integer is lost when the second address comes in |
| `FlatKeys.SharedKey` | stdlib/Collection.lama:94-154 | the value of one address is found under another |
| `TagHash.DigitOf` | runtime/runtime.c:214-214 | the digit of every character: `_`, small letters, capital letters, numerals, `'` |
| `TagHash.SpellDigits` | runtime/runtime.c:242-255 | spelling the digits of a string over the alphabet gives it back unless it starts with the zero digit |
| `TagHash.SpellStart` | runtime/runtime.c:242-255 | a spelling never starts with the zero digit |
| `TagHash.DeHash` | runtime/runtime.c:242-255 | the buffer, filled from its end, holds the spelling and its terminator |
| `TagHash.LtagHash` | runtime/runtime.c:218-240 | succeeds exactly on tags whose first five characters are in the alphabet and do not start with `_`, with their number in base 64 |
| `TagHash.RoundTrip` | runtime/runtime.c:237-237 | the final check passes exactly on these |
| `TagHash.Refused` | runtime/runtime.c:218-240 | `_a` has the number of `a`, does not spell back and is refused |
| `TagHash.Hash` | src/X86.ml:818-823 | the code generator computes the same number |
| `TagHash.HashFaithful` | runtime/runtime.c:214-255 | hashes are below 2^30, are undone by `de_hash`, and differ for tags that differ in their first five characters |

## Left out

- CompilerCorrect.CompilerPreserves: assumes runs without a branch that the machine takes and the matcher refuses, which needs `#box`, because there the two sides differ as `PatternsCompiled.AcceptsMatches` says; targets of assignments that declare none of their own variables, because there they differ as `CapturedPlaces` says; and that names resolve and pattern variables are distinct, without which the compiler itself stops with an error. No functions other than builtins are called, and no closures are made.
- CompilerCorrect.CompilerPreserves: covers runs in which the reference evaluator finishes. The machine's `==` on an integer and another value goes on where the reference fails.
- CompilerCorrect.DirectPreserved: the same conditions, with the run given as an evaluation that stops at such branches.
- Simulation.Simulates: the same conditions, with the run given in the same way.
- Continuations.Cps: user functions and closures are not among the values, so calls of them stop the evaluation.
- Correspondence.BuiltinCorresponds: `read`, `write` and `length`; the builtin `string` is not part of this model.
- Scopes.LookupAgrees: locals and globals of a main program; arguments and captured variables are in `Closures` and `InterpreterFrames`.
- StackDepths.RoutineDepths: names inside a function stand for globals, locals and functions; that a variable is an argument or captured does not change depths and is not distinguished.
- Symbolic.StepCanonical: the operand stack only; which registers are saved around calls, and the frame of a tail call, are not part of this model.
- InterpreterFrames.StepEvaluates: steps are defined where every activation keeps to its own operands, calls pass as many arguments as the callee declares, and END finds one value; other code the interpreter would run differently from the evaluator. That END finds one value in compiled code is `StackDepths.WholeDepths`.
- InterpreterFrames.RunEvaluates: instructions that only consume and push operands (arithmetic, aggregates, patterns, builtins) are represented by `CONST`, `DROP` and `DUP`.
- BytecodeInterpreter.Interpreter.Execute: the same instructions.
- BytecodeInterpreter.Interpreter.Interpret: the same instructions; a run stops before the END of `main`, whose result lands as `MainResult` says.
- GarbageCollector.Collector.GcAlloc: assumes that boxed words in heap range are content addresses of objects, that root areas keep the discipline of `Roots.FixedOnce`, and that words which are no heap pointers stay outside wherever the heap is mapped.
- Comparison.Comparer.CompareData: the map from values to cells is keyed by identity. The library's map, keyed by `flatCompare`, is this map while the words of the values are compared as they lie (`FlatKeys.IdentityMap`), and not otherwise (`FlatKeys.LostKey`).
- Comparison.Comparer.CmpRec: entry points of closures are compared as numbers. The runtime subtracts their addresses as if they were integers, which comes to the same for functions that are not one byte apart and lie within 2^31 bytes.
- ComparisonOrder.LessExactly: on two cyclic values of one kind, head and length the sign depends on the order in which pairs are met, and only zero is characterised.
- Comparison.Comparer.EqualData: the same map.
- TagHash.Hash: no check for a leading `_`, as in the source.
- Functions and lambdas of the source language in the preservation theorem: `PROTO`, `PPROTO`, tail-call flags and the closure conversion of whole programs. `Closures` has the propagation of closures, `InterpreterFrames` calls and closures at run time.
- Slot addresses on the stack of the interpreter (`LDA`, `STI`).
- `Unit`, which no production of the grammar makes; it would compile to 0 where the reference pushes the empty value.
- Line numbers, imports and public symbols in the machine; the encoder keeps them.
- The builtin `string` and all library functions other than `read`, `write` and `length`.
- Overflow in the interpreter, whose integers are unbounded here. The evaluators of the compiler part wrap to 63 bits, and words of the collector, of hashing and of bytecode files have 32 bits.
- The decoding of bytes inside the interpreter: its instructions are numbered, and `BytecodeFile.RoundTrip` relates bytes to instructions. Checks that the instruction pointer stays inside the file are not part of this model.
- Collections during interpretation; objects keep their identity there.
- The debug header, heap dumps, signals and the `FULL_INVARIANT_CHECKS` comparison of the collector; `mmap` and `mremap`, which are a parameter that may fail or move the heap.
- Assembly text, real registers and flags, and calling conventions of the x86 code generator.
- Hash tables, `lookupMemo`, printing and parsing units of the standard library.
- The grammar, the lexer, interface files and the driver.
