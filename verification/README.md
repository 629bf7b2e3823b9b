# Crack compiler: verified models of the front end's core

Dafny models of the parts of the Crack compiler in which a mistake is hard to see and expensive: the
persistent module cache, the reference counting it compiles into programs, the metadata formats, the
type graph, name resolution and constant folding. `dafny verify dfyconfig.toml` checks everything.

| files | what they model |
|---|---|
| IncrementalBuild, IncrementalBuildMissing, IncrementalBuildSoundness, IncrementalBuildExact, IncrementalBuildHistory, Construct | `Construct::getModule` and `ModuleDef::deserialize`: when a cached module is reused, over whole histories of edits and builds |
| Ownership, OwnershipLedger, OwnershipBalance, OwnershipProgram, OwnershipExact, OwnershipFailures, OwnershipCalm, OwnershipCalmProgram | what the emitted code does to reference counts, for expressions, function bodies and whole programs |
| OwnershipCode, OwnershipEmitter, OwnershipBodies, OwnershipOrder | the instructions that are emitted, their execution and order, the emitting methods, and whole compiled bodies |
| CachePublication, CachePublicationAlone, CachePublicationReaders, CachePublicationSafety, CachePublicationSingle | `Context::cacheModule` and the builder's part as interleaved file operations of many processes |
| Wire, ObjectGraph | varints, blobs, digests, and object graphs with sharing |
| Toker, TokenStream, TokenStreamCode | the tokens the tokenizer produces, the bodies of generics and the token lists of annotations |
| CanonicalName, LazyImports, LazyImportsCode | module names and imports resolved on first use |
| Inheritance, ClassOffsets, OrderedTypes, Dependencies | ancestor lists and paths, offsets in instances, type order, the search for dependencies |
| Namespaces, Overloads | lookup, aliasing, overload resolution |
| IntConst | integer constants at 64 bits with an unsigned-negative flag |

Where the source updates state in place there is a class or a method with the same loops, proved equal
to a specification function, and the theorems are about that function. Where it computes by
recursion there is only the function.

## Assumptions

* Incremental build: a digest is represented by what it digests, so digests are collision-free.
  Compiling is a function of the source, the interfaces of the modules it records as dependencies and
  the headers of its compile-time dependencies (predicate `Lawful`). The implicit dependency on
  `crack.lang` counts as an import. `depth` bounds the nesting of getModule calls and is arbitrary.
* Ownership: the builder is the one in builder/llvm. Code between two cleanup frames has no branches,
  so emission order is execution order. A callee is any function of the heap that keeps the books of
  its caller (`Lawful`); this is proved of every function written as a body of statements, and assumed
  of native ones. `oper bind` and `oper release` are those of lib/crack/lang.crk. An argument is
  borrowed, as builder/llvm/LLVMBuilder.cc:1653 promotes it to a variable without a bind.
* A run *settles* if no store finds its slot changed since the old value was loaded, nothing already
  dead is bound, every counted argument is covered, and no productive result is dropped. Each of these
  is what the exact theorems (`...Iff`, `UncoveredDies`) say it has to be, and `OwnershipCalm` gives a
  condition on the text of a program under which every run settles.
* Cache publication: operations on files are atomic one by one; a reader that has opened a file keeps
  it. `Lose` is the write error that `ofstream` records and nobody looks at.

## Where the code and its description disagree

1. `AssignExpr::emit` loads the old value before it evaluates the new one and releases what it loaded.
   `x = (x = null)` and `g = f()` with an `f` that clears `g` release an object twice
   (NestedAssignmentFails, CallThatClearsItsTargetFails; exactly when: AssignmentBalancesIff). The
   aggregate of a field assignment is evaluated twice (AggregateTwiceBalancesIff), and for a field
   without release its productive result is dropped (builder/llvm/LLVMBuilder.cc:2174;
   ProductiveAggregateLeaks).
2. An assignment is not volatile, so the value of `g = new()` is passed to a function unprotected
   (AssignedOperandCoveredIff, AssignedArgumentDies); the manual (doc/Manual.nml:3834) promises
   protection for references to volatile variables only. The parameters of a function are borrowed, so
   assigning one of a counted type upsets the counts unless the same object is assigned
   (AssignmentBalancesIff).
3. `ModuleDef::deserialize` passes over an unfinished dependency (model/ModuleDef.cc:540). If a recorded
   dependency closes a cycle with current imports, a stale module may be reused (StaleModule; exactly
   when: BuildIsSound).
4. builder/Builder.h:508 asks a builder to remove other copies before writing; `LLVMBuilder` does not.
   The comment in model/Context.cc:335 holds for a builder that does, and one writer at a time (exactly
   when a reader finds an old builder file: OldBuilderFileIff, NeverAnOldBuilderFile).
5. `move()` is unlink, link, unlink: a kill in between leaves a second name for a published metadata or
   builder file, which a later process with the same host name and process id opens for writing; and
   nobody looks at the state of the metadata stream before it is moved (exactly when a published file
   is damaged: DamagesIff, AlwaysIntact).
6. Blob lengths are written modulo 2^32. The text of a token whose type is not written with data is
   replaced by the type's own, which is empty for keywords other than `is`, documentation strings and
   interpolation marks (exactly when the text survives: Toker.BodyComesBack).
7. A match on a deleted function ends the search in its overload, after the arguments were rewritten
   (exactly when: FindsFirstIff, ResolvesToFirstIff); a flattened alias then misses functions the tree
   still finds (AliasAgreesIff).
8. The uint32 bound wraps (model/IntConst.cc:93; UInt32ConvertsIff, UInt32ClosedIff), folded bitwise
   results with the top bit set convert to no signed type (BitwiseToSignedIff, NegativeOrIsNotSigned),
   and unsigned division is wrong on complements (RemainderIff, QuotientIff,
   ComplementDivisorIff, ComplementsIff).
9. `rehome` tests the instance root against null, but a vtable not found moves the address by one
   (exactly when the answer is right: RehomeIff).

## Model

| member | source | states |
|---|---|---|
| `IncrementalBuildHistory.BuildIsSound` | model/Construct.cc:582-759 | After every history of source edits, removals, lost metadata, lost builder files and builds, and if only the current imports are acyclic: a build that succeeds hands out finished modules, and all of them are the ones compiled from scratch if and only if every recorded dependency has the recorded digest; no wrong module was loaded at any time if and only if no dependency passed over at model/ModuleDef.cc:541 ended with a digest other than the recorded one and no module was compiled against an unfinished one. |
| `IncrementalBuildHistory.AcyclicBuildIsSound` | model/Construct.cc:582-759 | What can be checked before the build: if the current imports are acyclic together with the dependencies recorded in cache entries of unchanged sources with a builder file, every module handed out is the one compiled from scratch; the build compiles exactly the loaded modules that are not up to date, leaves everything loaded up to date, and succeeds when every source compiles and no cached module has lost its source. |
| `IncrementalBuildExact.SoundIffConsistent` | model/ModuleDef.cc:503-598 | For any module cache of finished modules compiled from present sources: all are as from scratch if and only if all recorded digests are the present ones. |
| `IncrementalBuildExact.AllSoundIff` | model/ModuleDef.cc:538-541 | The branch that passes over unfinished dependencies and compiling against unfinished modules are the only ways to load a wrong module, and exactly when they do is stated. |
| `IncrementalBuildExact.GetModuleTold` | model/Construct.cc:582-759 | Without any ranking: a call that goes on keeps what was loaded, adds finished modules only, and every module ever loaded is a compilation of its present source whose recorded dependencies were each found with the recorded digest, passed over, or unfinished when it was compiled. |
| `IncrementalBuildHistory.RebuildIsIdle` | model/ModuleDef.cc:473-622 | Under the condition of AcyclicBuildIsSound, a second build with nothing edited in between recompiles nothing the first one loaded, whatever the second one is asked for. |
| `IncrementalBuildHistory.LoadedInOrder` | model/Construct.cc:735-758 | Under the condition of AcyclicBuildIsSound, the loaded modules are exactly the module cache, each once, and each after all dependencies its header records, so that the backward walk over them at exit (Crack.cc:125) meets dependents first. |
| `IncrementalBuildHistory.StaleModule` | model/ModuleDef.cc:540-541 | Acyclic current imports alone are not enough: a concrete history of four modules after which the build hands out a module compiled against an interface that no longer exists, because an unfinished dependency is passed over. |
| `IncrementalBuildSoundness.GetModuleSound` | model/Construct.cc:582-759 | From any intermediate state of a run in which current imports and the dependencies still to be checked are acyclic together: the answer is the module compiled from scratch, null if and only if the module is not loaded and has neither source nor cache entry, and an error that leaves the state alone for a cached module without source; everything newly loaded is correct, and exactly what was not up to date has been compiled; with enough call depth and a healthy source tree there is no failure. |
| `IncrementalBuildSoundness.DeserializeSound` | model/ModuleDef.cc:473-622 | In such a state the rebuild decision is exact: a cached module without source is an error; otherwise it is refused if and only if its source digest, its builder file, a recorded interface digest or a recorded header digest differs from what compiling from scratch gives. |
| `IncrementalBuildMissing.NullIff` | model/ModuleDef.cc:473-503 | Of every state, whatever the imports: null is answered if and only if the module is not loaded and has neither source nor cache entry (and the state is untouched); a cached module without source is an error, again in an untouched state; and no call makes up for a source that is gone. |
| `IncrementalBuildMissing.GoneDependencyStops` | model/ModuleDef.cc:521-550 | A check of recorded dependencies that reaches one that is cached but has lost its source stops with the error, whatever follows; it is not reached only if something before it asked for a rebuild or failed. |
| `IncrementalBuildMissing.GoneDependencyFails` | model/ModuleDef.cc:473-535 | So asking for a module whose recorded dependency is in that condition fails, if nothing recorded before it differs or fails. |
| `IncrementalBuildMissing.UnfinishedDependency` | model/ModuleDef.cc:540-585 | An unfinished module is passed over among the recorded dependencies, and forces a rebuild among the compile-time ones. |
| `IncrementalBuildMissing.UnknownDependency` | model/ModuleDef.cc:531-536 | A recorded dependency with neither source nor cache entry forces a rebuild without loading anything more; importing such a module is an error. |
| `IncrementalBuildSoundness.ReuseIsRecompile` | model/ModuleDef.cc:503-598 | A module whose recorded dependency digests are the present ones is what compiling its recorded source again would give, and everything it imports is present. |
| `IncrementalBuildHistory.ReplayDisk` | model/Context.cc:325-396 | Whatever happens, failed builds included, everything in the persistent cache is the result of compiling the source its header names. |
| `ConstructCode.Construct.GetModule` | model/Construct.cc:582-759 | The method on one mutable module cache, load list and persistent cache does to its state, and answers, what the specification says. |
| `ConstructCode.Construct.Deserialize` | model/ModuleDef.cc:433-622 | The two dependency loops with their `mustRebuild` flag leave the state, and reach the decision, of the specification. |
| `ConstructCode.Construct.ParseModule` | model/Construct.cc:735-758 | Compiling: unfinished in the module cache first, then the imports, then the persistent cache, then finished and loaded. |
| `OwnershipBalance.Balance` | model/ResultExpr.cc:19-67 | For every expression, nested assignments, field targets and calls included, and whatever lawful callees do: a run that settles leaves every count equal to the number of variables and fields holding the object plus what cleanups and a productive result still owe; no release has met a count of zero; what was covered stays covered and cleanups are only added. |
| `OwnershipLedger.StoreKeepsBooksIff` | model/AssignExpr.cc:50-93 | A store with the new reference in hand and the old value to be released keeps the books if and only if the slot still holds the value that was loaded for release (and a field's object is alive). |
| `OwnershipLedger.ReleaseBooks` | lib/crack/lang.crk:59-70 | A release of an owed reference pays it, destroys what nobody holds any more with all its fields, and never decrements a zero count. |
| `OwnershipLedger.CloseBooks` | builder/llvm/BCleanupFrame.cc:26-39 | Closing a cleanup frame, latest cleanup first, pays exactly what the frame holds. |
| `OwnershipExact.AssignmentBalancesIff` | model/AssignExpr.cc:50-93 | A variable assignment keeps the books if and only if evaluating the value left in the variable what was there before. |
| `OwnershipExact.FieldAssignmentBalancesIff` | builder/llvm/LLVMBuilder.cc:2170-2217 | A field assignment keeps the books if and only if, at the store, the object is alive and its field holds what the second evaluation of the aggregate loaded. |
| `OwnershipExact.NestedAssignmentFails` | model/AssignExpr.cc:50-93 | `x = (x = null)` breaks the books in every state in which `x` holds an object: the old value is released twice. |
| `OwnershipExact.CallThatClearsItsTargetFails` | model/AssignExpr.cc:50-93 | `g = f()` breaks the books whenever `f` sets `g` to null and `g` held an object; such an `f` is lawful. |
| `OwnershipExact.OneBindOneRelease` | model/Expr.cc:96-119 | makeNonVolatile on an unprotected operand adds exactly one bind and exactly one cleanup, both of the operand's value, and passes that value. |
| `OwnershipExact.ArgumentsSurvive` | model/FuncCall.cc:33-56 | Every operand that is productive, or volatile with a bind and a release, is covered by a reference of the frame once all operands have been evaluated, whatever the later operands did. |
| `OwnershipExact.SharedArgumentsSurvive` | model/FuncCall.cc:33-56 | In particular global variables, fields and call results of a type with both operators are covered. |
| `OwnershipExact.LocalArgumentIsRead` | model/Expr.cc:96-119 | A local variable or parameter passed as an operand is read, and nothing else happens. |
| `OwnershipExact.AliveUntilClose` | model/FuncCall.cc:33-56 | What is covered when the callee starts is alive when it returns and after anything evaluated before the frame closes, whatever variables are overwritten meanwhile. |
| `OwnershipExact.UncoveredDies` | model/FuncCall.cc:33-56 | Coverage is exact: an object that nothing covers is dead after some lawful callee. |
| `OwnershipFailures.AssignedOperandCoveredIff` | model/AssignExpr.cc:95-97 | The operand `g = mk()` leaves the object it passes covered if and only if something else covers it or `g` held that very object before. |
| `OwnershipFailures.AssignedArgumentDies` | model/FuncCall.cc:33-56 | So `f(g = mk())` with a new object loses it: the object is dead when `f` returns, for an `f` that clears what holds it. |
| `OwnershipFailures.ProductiveAggregateLeaks` | builder/llvm/LLVMBuilder.cc:2170-2177 | For a field without release `mk().f = null` upsets the books in every state: the reference `mk` returned is never released. |
| `OwnershipBalance.DroppedBalancesIff` | builder/llvm/LLVMBuilder.cc:2170-2177 | Dropping a result keeps the books if and only if it carries no reference. |
| `OwnershipFailures.AggregateTwiceBalancesIff` | model/AssignExpr.cc:60-85 | For a field with release `mk().f = null` calls `mk` twice; given two objects, the books are kept if and only if the field holds the same in both. |
| `OwnershipProgram.BodyIsLawful` | model/Context.cc:484-515 | A function body of statements, definitions and a return is itself a lawful callee: it hands over the reference its result carries, and its caller's variables are as before. |
| `OwnershipProgram.ProgramIsLawful` | model/CleanupFrame.cc:20-38 | So is every function of every program, to every depth of calls. |
| `OwnershipProgram.CountsBalance` | model/CleanupFrame.cc:20-38 | A settled call of any function, from balanced counts, ends with every count equal to the number of variables and fields holding the object, plus one for the result, and without a fault. |
| `OwnershipCalm.CalmRun` | model/AssignExpr.cc:50-93 | A condition checked on the text alone (no value writes what its own assignment reads, every counted operand protected) makes every run of the expression settle or stop at a store through null, and assign no more than it says. |
| `OwnershipCalm.PathStable` | model/AssignExpr.cc:60-72 | What writes none of the variables of a chain of fields leaves the object at its end the same, so evaluating an aggregate twice is harmless there. |
| `OwnershipCalmProgram.CalmProgramIsQuiet` | model/AssignExpr.cc:50-93 | In a program whose bodies all satisfy that condition every run of every function settles (or stops at a null store). |
| `OwnershipCalmProgram.CalmCountsBalance` | model/ResultExpr.cc:19-67 | In such a program counts balance on every run that does not stop: no hypothesis about the run is left. |
| `OwnershipCode.EmitCorrect` | builder/llvm/LLVMBuilder.cc:663-732 | Compiler correctness: the instructions emitted for any expression, executed from any state, reach the heap, the values and the open cleanups that the semantics gives. |
| `OwnershipOrder.CallEmission` | builder/llvm/LLVMBuilder.cc:663-732 | The code of a call is the code of the receiver, then that of each argument in order, each on top of the code before it and with its value released if productive, and then the call, whose first value is the receiver's and whose value i + 1 is argument i's (value i without a receiver); operands are made non-volatile, unless the function is special. |
| `OwnershipOrder.CallRun` | model/FuncCall.cc:33-56 | The run evaluates the operands in the same order and calls the function with their values, the receiver's first, in the heap they have left. |
| `OwnershipOrder.ReceiverFirst` | builder/llvm/LLVMBuilder.cc:675-698 | `a.f(b)` on local variables is: load a, load b, call f with a and b. |
| `OwnershipOrder.ElementsInTurn` | model/MultiExpr.cc:19-29 | The elements of a sequence run one after the other, each but the last released when productive, and the last one's value is the result. |
| `OwnershipBodies.StatementCompiles` | parser/Parser.cc:333-337 | Compiling an expression statement or a definition with its cleanups and executing the code has exactly the effect of running it. |
| `OwnershipBodies.ReturnCompiles` | builder/llvm/LLVMBuilder.cc:1956-1975 | The same for a return, and the returned value is in its temporary. |
| `OwnershipOrder.DefinitionCode` | model/Context.cc:484-515 | `T x = y` is load, bind, store, and `return y` is load, bind. |
| `OwnershipBodies.BodyCompiles` | builder/llvm/LLVMBuilder.cc:1956-1975 | The same for whole function bodies, with the cleanups of variables and the frame of the caller. |
| `OwnershipOrder.StatementsInTurn` | parser/Parser.cc:333-337 | Each statement runs in the heap that the one before it left. |
| `OwnershipOrder.VariablesCloseInReverse` | model/CleanupFrame.h:24-28 | The code of a body ends with the cleanups of parameters and local variables, in the reverse of the order of their definitions. |
| `OwnershipOrder.LocalsInOrder` | model/Context.cc:484-515 | A definition's variable stands in the list of cleanups between those defined before and after it. |
| `OwnershipOrder.ParametersHoldArguments` | builder/llvm/LLVMBuilder.cc:1652-1656 | On entry every parameter holds its own argument. |
| `OwnershipEmitter.Context.Emit` | model/FuncCall.cc:33-56 | The emit() methods on one mutable function, cleanup frame and register set append exactly the specified code. |
| `OwnershipEmitter.Context.EmitAssign` | model/AssignExpr.cc:50-93 | Old value loaded first, then value, store and bind in the order of the target's kind, then the old value's cleanup. |
| `OwnershipOrder.VariableAssignmentCode` | model/AssignExpr.cc:50-93 | `x = y` is: load x, load y, store, bind, and a release of the old x with the frame. |
| `OwnershipOrder.FieldAssignmentCode` | builder/llvm/LLVMBuilder.cc:2170-2217 | `a.f = y` is: load a twice, load the old field by the second, load y, bind, store by the first, and a release of the old field with the frame. |
| `OwnershipEmitter.Context.EmitElems` | model/MultiExpr.cc:19-29 | Every element but the last is handled as a transient; the last is the result. |
| `OwnershipEmitter.Context.EmitOperands` | model/FuncCall.cc:33-56 | All operands are rewritten first, each with a register of its own, and emitted afterwards in order. |
| `OwnershipBalance.TransientStep` | model/ResultExpr.cc:41-67 | After handleTransient a result owes nothing any more: the reference a productive result carries is one the open frame will release, and everything covered stays covered. |
| `OwnershipBalance.AssignmentStep` | model/ResultExpr.cc:19-39 | After handleAssignment there is exactly one reference for the variable to take, productive or not. |
| `CachePublicationReaders.AlwaysIntact` | model/Context.cc:325-396 | Over every interleaving of the file operations of any number of writers and readers, with writers killed anywhere, uniquifiers used again and write errors: what is at the canonical metadata or builder name, and whatever a reader has open, is one writer's complete file all the time if and only if no operation damages; and none does as long as no killed writer's uniquifier is used again and no write error goes unnoticed. |
| `CachePublicationReaders.DamagesIff` | model/Context.cc:356-395 | One operation keeps every published file whole if and only if it is none of four: opening a temporary metadata or builder file whose name is a second name of a published file, and moving an incomplete metadata or builder file into place. |
| `CachePublicationSafety.QuietDirectoryIsClean` | model/Context.cc:363-395 | After any run at all, once no writer is at work and none was killed, no temporary file is left. |
| `CachePublicationSafety.ExitCleansUp` | model/Context.cc:363-395 | Every exit of cacheModule, normal or by exception at any point, leaves no temporary metadata file, and no temporary builder file unless a killed namesake's is there. |
| `CachePublicationSingle.OldBuilderFileIff` | model/Context.cc:374-395 | For any number of writers and any builder, over every run without damage: no reader can ever find a builder file older than the metadata it has opened if and only if no metadata is moved in beside an older builder file, and no builder file beside newer metadata or behind the back of a reader of newer metadata. |
| `CachePublicationSingle.InStepIffNoneFound` | model/Context.cc:335-344 | In step, in these statements, is exactly that no reader holds an old builder file and none that opens files at this moment gets one. |
| `CachePublicationSingle.NeverAnOldBuilderFile` | builder/Builder.h:504-531 | With one writer at a time, over every run without damage, a reader can find an old builder file if and only if metadata was moved into place while a builder file was there; a builder that removes other copies first, as asked, sees to it that this never happens. |
| `CachePublicationSingle.ReusedNameDamagesPublishedFile` | util/CacheFiles.cc:183-188 | A writer killed between link() and unlink() of the metadata, and a later process with the same host name and process id: a concrete run in which the published metadata is truncated in place. |
| `CachePublicationSingle.ReusedNameDamagesBuilderFile` | builder/llvm/LLVMBuilder.cc:2340-2386 | The same with the builder file: a reader's open builder file is truncated although all metadata files are whole and no write error happens, whether or not the builder cleans up. |
| `CachePublicationSingle.TwoWritersMixVersions` | model/Context.cc:374-395 | With two writers at once a reader can get new metadata with an old builder file. |
| `CachePublicationSingle.WithoutCleaningOldFilesAreFound` | builder/llvm/LLVMBuilder.cc:2340-2370 | With one writer too, for a builder that does not remove other copies, which is what LLVMBuilder does. |
| `CachePublicationSingle.NewerFilesMayBeFound` | model/Context.cc:374-395 | A builder file newer than the metadata can be found even with one writer and a builder that cleans up. |
| `CachePublication.Directory.CacheModule` | model/Context.cc:325-396 | The method, with its exception handlers, leaves the disk the writer's state machine leaves when nobody interferes, for every choice of failures. |
| `CachePublicationAlone.UndisturbedPublishes` | model/Context.cc:325-396 | An undisturbed run without exception leaves two new files at the canonical names, complete but for a metadata stream in error, no temporary name, and every other name and file as before. |
| `CachePublicationAlone.ExceptionKeepsMetadata` | model/Context.cc:363-395 | After an exception anywhere before the moves all names are as before, but that a builder that cleans up may have removed the old builder file; all old files are intact. |
| `CachePublicationAlone.DiscardIff` | model/Context.cc:308-323 | A reader takes the canonical metadata name away if and only if the file it opened is damaged. |
| `CachePublication.Directory.BuilderCacheModule` | builder/llvm/LLVMBuilder.cc:2340-2370 | The builder's part of the same run. |
| `CachePublication.MoveIsRename` | util/CacheFiles.cc:183-188 | With nobody in between, unlink, link, unlink is rename(); but without a source file the destination is lost. |
| `Wire.VarintRoundTrip` | model/Serializer.cc:28-49 | Every 32-bit value, followed by anything, is read back, from one to five bytes. |
| `Wire.VarintIsBase128` | model/Serializer.cc:28-49 | The encoding is the number in base 128, lowest digit first and without leading zeros, the top bit set on all bytes but the last. |
| `Wire.VarintOf300` | model/Serializer.cc:28-49 | 300 is written as the bytes AC 02. |
| `Wire.BlobRoundTrip` | model/Serializer.cc:51-59 | A blob is read back if and only if its length fits 32 bits. |
| `Wire.VarintUnambiguous` | model/Deserializer.cc:24-51 | No encoding is a prefix of another. |
| `Wire.Serializer.WriteUInt` | model/Serializer.cc:28-49 | The writing loop appends the base-128 groups to the stream, and to the digest exactly when it is enabled. |
| `Wire.Serializer.WriteBlob` | model/Serializer.cc:51-59 | The same for the length and the bytes of a blob. |
| `Wire.Serializer.WriteObject` | model/Serializer.cc:61-78 | A new object gets the next id before its body is written, a known one is a reference to its id. |
| `Wire.Deserializer.ReadUInt` | model/Deserializer.cc:24-51 | The reading loop agrees with the format; exactly the bytes consumed are digested; the end of data is an error or the eof answer. |
| `Wire.Deserializer.ReadBytes` | model/Deserializer.cc:53-68 | The same for blobs. |
| `ObjectGraph.GraphRoundTrip` | model/Deserializer.cc:84-121 | For every acyclic object graph with arbitrary sharing, decoding the encoding consumes exactly its bytes and yields an isomorphic graph: nothing lost, nothing added, two references meet in the copy exactly when they met in the original. |
| `ObjectGraph.ObjRoundTrip` | model/Serializer.cc:61-78 | The same in the middle of a stream: ids are handed out before a body is written and registered only after it is read, and writer and reader stay in step all the same. |
| `ObjectGraph.SampleBytes` | model/Serializer.cc:61-78 | The bytes of one object with data, a shared reference and an optional reference. |
| `ObjectGraph.SerializeObj` | model/Serializer.cc:61-78 | The writing methods, which share one object map with nested serializers, append exactly the specified bytes. |
| `ObjectGraph.DeserializeObj` | model/Deserializer.cc:84-121 | The reading methods agree with the specification on every input, damaged ones included, and digest exactly what they consume. |
| `TokenStream.TokenRoundTripIff` | model/Generic.cc:79-188 | A token record is read back as the token it was written for, with file, line and start column, if and only if the format carries its text. |
| `TokenStream.BodyRoundTrip` | model/Generic.cc:190-211 | Every list of writable tokens comes back from exactly as many records as the separate count says, and the reader digests the bytes the writer digested. |
| `TokenStream.DigestIgnoresColumns` | model/Generic.cc:95-99 | Lists that differ in columns only have equal digested bytes and record counts. |
| `TokenStreamCode.GenericRoundTrip` | model/Generic.cc:278-306 | What a generic's body is written as is read back as that body, whatever the reader's uninitialized line variable held. |
| `Toker.BodyComesBack` | model/Generic.cc:102-188 | Every body of tokens the tokenizer can produce is read back with the same types, files, lines and columns and with the spelling the tokenizer gave each token; only keywords other than `is`, documentation and interpolation marks come back without text. |
| `Toker.RecordComesBack` | model/Generic.cc:79-188 | The same for a single record; identifiers, strings and all number literals come back with whatever text they had. |
| `Toker.SymbolText` | parser/Toker.cc:278-466 | Each symbol the scanner reads, by longest match over one to three characters, has the spelling that its type is read back with. |
| `Toker.SymbolIsPrefix` | parser/Toker.cc:431-466 | A symbol is spelled as it stands in the source. |
| `Toker.KeywordText` | parser/Toker.cc:150-207 | Of the keywords only `is` is read back with its spelling. |
| `Toker.SignComesBack` | model/Generic.cc:161-164 | Byte for byte: the records 62 0 and 65 0 are read back as a minus and a plus sign. |
| `Toker.SampleBytes` | model/Generic.cc:190-211 | The bytes of two tokens: file before line, then type and column, and for an identifier length and text in between. |
| `TokenStreamCode.SerializeBody` | model/Generic.cc:213-276 | The counting loop and the writing loop agree (the check at line 262 never fails), and stream and digest get exactly the specified bytes. |
| `TokenStreamCode.SerializeFullToken` | model/Generic.cc:190-211 | The moves and the token's own record, and how many records that is. |
| `TokenStreamCode.SerializeToken` | model/Generic.cc:79-100 | Type and text reach the digest, the column does not. |
| `TokenStreamCode.DeserializeToken` | model/Generic.cc:102-188 | The reader agrees with the specification on every input. |
| `TokenStreamCode.DeserializeBody` | model/Generic.cc:278-306 | The same for the whole body, damaged input included. |
| `TokenStreamCode.TokenListRoundTrip` | compiler/TokSerializer.cc:101-137 | What an annotation's token list is written as is read back with its tokens and its location. |
| `TokenStreamCode.TokSerializer.Load` | compiler/TokSerializer.cc:37-68 | Tokens are collected up to an end token, whose location becomes the list's; anything else is refused; all that was collected will be delivered by getToken. |
| `TokenStreamCode.TokSerializer.Serialize` | compiler/TokSerializer.cc:101-137 | The tokens and an end token at the list's location, or else at the first token's, which then becomes the list's. |
| `TokenStreamCode.CollectedIsReadable` | compiler/TokSerializer.cc:85-97 | The tokens getToken delivers, those before the first end token, are all tokens of a list that was read in, in order. |
| `Inheritance.AddedIff` | model/TypeDef.cc:221-261 | addToAncestors succeeds if and only if the class and its ancestors (VTableBase excepted) are all pointer types, none occurs twice in the list or already in it, and Object comes first or not at all; the list then holds exactly these, parents first. |
| `Inheritance.AllAddedIff` | model/TypeDef.cc:221-261 | The same for a whole base list. |
| `Inheritance.RefusedIff` | model/TypeDef.cc:221-261 | Spelled out: refused if and only if a primitive class, a class already listed, a class met twice, or Object anywhere but in front is among what the class brings along. |
| `Inheritance.ParentsFirst` | model/TypeDef.cc:221-261 | In what a class adds, every parent but VTableBase stands before the class that has it. |
| `Inheritance.PathsAreUnique` | model/TypeDef.cc:221-261 | If a class was admitted, two parent paths to the same ancestor (VTableBase excepted) are equal. |
| `Inheritance.FindPathIff` | model/TypeDef.cc:876-899 | A path is found if and only if the class is derived from the ancestor, and following the recorded indices leads there. |
| `Inheritance.FindPathIsFirst` | model/TypeDef.cc:876-899 | Where there are several paths, the one with the earliest parents is found. |
| `Inheritance.ReferencesLead` | model/TypeDef.cc:883-892 | The references of a path: each names a parent of the class reached so far by its index, the last is the ancestor. |
| `Inheritance.AncestorsAreTheDerived` | model/TypeDef.cc:263-274 | For an admitted class the ancestor list holds exactly the classes it is derived from, and the path found is the only one. |
| `Inheritance.IsDerivedFromLoop` | model/TypeDef.cc:263-274 | The loop over the parents answers derivation. |
| `Inheritance.Matches` | model/TypeDef.cc:288-301 | The flipped search answers the same question about the other type. |
| `Inheritance.Vectors.AddToAncestors` | model/TypeDef.cc:221-261 | The method that fills the vector in place does what the specification says. |
| `Inheritance.Vectors.GetPathToAncestor` | model/TypeDef.cc:876-899 | On success the vector from the given depth on is a path with nothing after it: starting at the class, each entry's index is that of its `ancestor` among the parents of the class reached so far, and the last one is the ancestor asked for; entries before the depth are kept; on failure the vector is untouched. |
| `Dependencies.AddDependenciesOf` | model/Context.cc:776-779 | The search terminates on every type graph, cycles included, and adds exactly the modules, other than the importing one, of all definitions reachable from the symbol. |
| `Dependencies.VisitedAll` | model/TypeDef.cc:1351-1365 | From an empty visited set, the modules met are exactly those of reachable definitions. |
| `Dependencies.MentionsIff` | model/FuncDef.cc:284-291 | What a definition mentions: a variable its type, a function its return type and all argument types, an overload what all its functions do; and the modules it stands in. |
| `Dependencies.NextIff` | model/TypeDef.cc:1351-1365 | A type leads on to what its members mention, but for names with two underscores, and needs its own module and theirs. |
| `Dependencies.AddType` | model/TypeDef.cc:1351-1365 | From any visited set: what is new was reachable, everything it mentions is visited, and its modules were added. |
| `Dependencies.AddFunc` | model/FuncDef.cc:284-291 | The same for a function's module, return type and arguments. |
| `Dependencies.AddOverload` | model/OverloadDef.cc:524-531 | The same for all functions of an overload. |
| `Dependencies.AddDef` | model/VarDef.cc:191-199 | The same for any definition, a variable included. |
| `Dependencies.ModuleDef.AddDependency` | model/ModuleDef.cc:138-143 | A module is never its own dependency. |
| `OrderedTypes.OrderTypes` | model/Namespace.cc:383-392 | The list has no duplicates, holds only serializable types of the group, puts every such parent or template before its dependent, and holds exactly the eligible types of the namespace tree and those they need. |
| `OrderedTypes.GoodIsClosed` | model/Namespace.cc:32-60 | Everything a listed type needs, through any number of steps, is listed no later than the type itself. |
| `OrderedTypes.Collection.Add` | model/Namespace.cc:32-60 | Adding one type keeps vector and set equal, free of duplicates and ordered, and adds only what the type needs. |
| `OrderedTypes.Collection.GetOrderedTypes` | model/Namespace.cc:383-392 | The same for a namespace tree; every owned eligible type in it is present afterwards. |
| `ClassOffsets.OffsetsCompose` | model/BaseMetaClass.cc:64-76 | In every admitted hierarchy offset(C, A) = offset(C, B) + offset(B, A), for every A but VTableBase, to which there may be several paths. |
| `ClassOffsets.BaseOffset` | model/BaseMetaClass.cc:37-77 | In an admitted class the offset of a direct base is the one listed for it, and that of the class itself is 0. |
| `ClassOffsets.NegativeIsNone` | model/BaseMetaClass.cc:37-76 | A search answers a negative number if and only if it answers -1, if and only if the class is no ancestor. |
| `ClassOffsets.GetInstOffset` | model/BaseMetaClass.cc:48-58 | The loop over the bases answers the offset along the path found. |
| `ClassOffsets.FindAncestorOffset` | model/BaseMetaClass.cc:64-76 | So does the other loop, with its different test for failure: the two agree. |
| `ClassOffsets.FindInstanceRootOffset` | model/BaseMetaClass.cc:79-85 | The offset stored with the first entry for the vtable, or -1. |
| `ClassOffsets.Rehome` | model/BaseMetaClass.cc:100-115 | The method answers what the specification says. |
| `ClassOffsets.RehomeFromAnywhere` | model/BaseMetaClass.cc:100-115 | From every sub-object of an instance, rehoming gives the address of the target's body, or null if and only if the class is not derived from it. |
| `ClassOffsets.RehomeTwice` | model/BaseMetaClass.cc:100-115 | Rehoming to one class and then to another is rehoming to the other, if the first one's body has a vtable of its own. |
| `ClassOffsets.RehomeIff` | model/BaseMetaClass.cc:91-115 | From an address in an instance rehoming to an ancestor gives the address of its body if and only if the class lists the vtable found there, with that offset. |
| `ClassOffsets.UnknownVTableIsNotNoticed` | model/BaseMetaClass.cc:91-95 | Otherwise, for a vtable the class does not know, it gives an address one byte off instead of null. |
| `Namespaces.Target.AliasAll` | model/Namespace.cc:315-329 | For every acyclic namespace graph not containing the target: afterwards each name the target resolved is unchanged, and every other name resolves to an alias of what the other namespace's recursive lookup gives. |
| `Namespaces.AliasAnswersAlike` | model/Namespace.cc:278-307 | An alias is the definition itself, or an overload with the same answer to every exact-signature question (if nothing reachable is deleted; otherwise every answer it gives is the original's). |
| `Namespaces.FindIn` | model/Namespace.cc:171-188 | The lookup method is depth-first lookup, own definitions first. |
| `Namespaces.LookUpIsEarliest` | model/Namespace.cc:171-188 | A name means what the first namespace to define it says, own definitions before all parents and each parent with all it inherits before the next; it means nothing if and only if no ancestor defines it. |
| `Overloads.ResolvesToFirstIff` | model/OverloadDef.cc:94-122 | Resolution gives the first depth-first match of the first pass, and only without one the first match of the converting pass, with exactly that function's values at every position, or untouched arguments on failure, if and only if the match that decides is not a deleted function; so always without deleted functions. |
| `Overloads.ResolutionMeans` | model/OverloadDef.cc:94-122 | Without deleted functions: the function is the first one that takes the arguments as they are, the adaptive ones converted (but not the first one if all are adaptive), and gets exactly these values; without such a one, the first that takes them all converted; without that, there is none and the arguments are untouched. |
| `Overloads.FirstOperandDecides` | model/FuncDef.cc:67-79 | `5 + 6` on op(byte, byte) and op(int, int) is op(int, int), with only the second operand converted. |
| `Overloads.FlattenInOrder` | model/OverloadDef.cc:32-56 | In the flattened list own functions come first and those of a parent after all of the parents before it. |
| `Overloads.FindsFirstIff` | model/OverloadDef.cc:58-92 | One pass agrees with the first match in the flattened list, arguments included, if and only if that match is not deleted. |
| `Overloads.DeletedFunctionSpoilsArguments` | model/OverloadDef.cc:58-92 | With a deleted function: resolution fails and the arguments have been changed all the same. |
| `Overloads.ResolveCall` | model/OverloadDef.cc:94-122 | The method that overwrites the argument vector in place does what the specification says. |
| `Overloads.FindMatch` | model/OverloadDef.cc:58-92 | So does the search with its reused scratch vector. |
| `Overloads.FuncMatches` | model/FuncDef.cc:54-101 | What each conversion mode does, argument by argument: without conversion and for arguments that are not adaptive the type has to fit and the value is kept; adaptive arguments are converted, in the secondary mode all but the first; in the full mode everything is converted. A match fills the scratch vector with exactly these values, and without conversion it is untouched. |
| `Overloads.AliasAgreesIff` | model/OverloadDef.cc:183-195 | Every answer of an alias is the original's; for each signature the two agree if and only if not (the first function with it is deleted and the tree finds another); they agree for all signatures without deleted functions. |
| `Overloads.DeletedFunctionSplitsAlias` | model/OverloadDef.cc:139-156 | A tree and a signature for which they differ. |
| `Overloads.GetSigMatch` | model/OverloadDef.cc:139-156 | The recursive loops answer as specified. |
| `Overloads.SigMatchMeans` | model/OverloadDef.cc:139-156 | What is answered has the signature and is not deleted; and a function with the signature that is not deleted and comes before all others that have it is the answer. |
| `Overloads.CreateAlias` | model/OverloadDef.cc:183-195 | The alias made by filling the list in place is the flattened overload. |
| `Overloads.FuncList.AddFlattened` | model/OverloadDef.cc:32-56 | Own functions, then the parents', depth first. |
| `IntConst.NarrowConvertsIff` | model/IntConst.cc:101-119 | A constant converts to byte (uint16) if and only if its bits above the width are all zeros, or all ones with the unsigned-negative flag. |
| `IntConst.NarrowClosed` | model/IntConst.cc:160-238 | Constants convertible to byte, or to uint16, are closed under the folded bitwise operators, flag included, and complement goes both ways. |
| `IntConst.BitwiseFits` | model/IntConst.cc:160-176 | The same for constants of every width up to 64. |
| `IntConst.ComplementFits` | model/IntConst.cc:233-238 | A constant has a width if and only if its complement has. |
| `IntConst.UInt32ConvertsIff` | model/IntConst.cc:89-100 | Exactly what converts to uint32: every unsigned-negative constant with its top bit set, however large, because UINT32_MAX + 1 wraps. |
| `IntConst.UInt32ClosedIff` | model/IntConst.cc:89-100 | For operands that convert to uint32 a folded bitwise result converts too, except exactly for the exclusive or of two complements that differ above the low 32 bits; a complement converts if and only if the constant has 32 bits. |
| `IntConst.UInt32NotClosed` | model/IntConst.cc:89-100 | Two such constants: the exclusive or of ~0x100000000 and ~0. |
| `IntConst.ArithLowBits` | model/IntConst.cc:177-186 | The low w bits of every folded sum, difference and product are those of the w-bit operation, for every w up to 64. |
| `IntConst.ArithConvertsIff` | model/IntConst.cc:145-186 | A folded sum, difference, product or negation converts to each of seven types if and only if its signed value is one of the type; to int64 always. |
| `IntConst.ArithIsExactIff` | model/IntConst.cc:177-186 | For operands that convert to a signed type: at 16 and 32 bits the folded constant has exactly the value of the sum, difference or product and converts if and only if that is one of the type; at 64 bits it always converts, and has the value if and only if that is an int64. |
| `IntConst.BitwiseLowBits` | model/IntConst.cc:160-176 | The same for the bitwise operators. |
| `IntConst.NegLowBits` | model/IntConst.cc:227-231 | The same for negation. |
| `IntConst.NegIsExactIff` | model/IntConst.cc:227-231 | A folded negation has the negative value, except for the least int64. |
| `IntConst.ComplementLowBits` | model/IntConst.cc:233-238 | The same for complement. |
| `IntConst.ComplementConvertsIff` | model/IntConst.cc:233-238 | The complement of x has the value -1 - x and converts to exactly the signed types that x converts to. |
| `IntConst.FormsAgree` | model/ops.cc:48-105 | Method form, function form and reversed form of a call fold to the same constant, with the w-bit operation's low bits. |
| `IntConst.BitwiseToSignedIff` | model/IntConst.cc:47-78 | A folded bitwise result converts to a signed type if and only if the operator gives 0 on the operands' bits from the sign bit of the type up. |
| `IntConst.SignedClosedIff` | model/IntConst.cc:47-78 | For operands that convert to the type themselves: if and only if the operator gives 0 on their signs. |
| `IntConst.NegativeOrIsNotSigned` | model/IntConst.cc:161-173 | `-6 or 1` has the bits of -5 and converts to no signed type. |
| `IntConst.RemainderIff` | model/IntConst.cc:189-201 | By a plain divisor the folded remainder has the width of the operands; it is the w-bit remainder if and only if the dividend is plain or the divisor divides 2^64 - 2^w. |
| `IntConst.QuotientIff` | model/IntConst.cc:189-201 | The folded quotient by a plain divisor is the w-bit quotient if and only if the dividend is plain (or w is 64). |
| `IntConst.UnsignedConvertsIff` | model/IntConst.cc:189-201 | Unsigned quotients and remainders convert to a type if and only if their value is one of the type, and are an error only for divisor 0; bitwise results always convert to uint64. |
| `IntConst.ComplementDivisorIff` | model/IntConst.cc:189-201 | A plain dividend by a complement gives quotient 0 and itself as remainder: right if and only if it is below the w-bit divisor. |
| `IntConst.ComplementsIff` | model/IntConst.cc:189-201 | Complement by complement: quotient, and low bits of the remainder, are the w-bit ones if and only if the w-bit dividend is below twice the w-bit divisor; the remainder has w bits if and only if the dividend is not below the divisor. |
| `IntConst.ZeroComplementIsNoError` | model/IntConst.cc:189-201 | A complement that is 0 in its width is accepted as a divisor. |
| `IntConst.RemainderOfComplementIsWrong` | model/IntConst.cc:189-201 | An instance: as a byte, `~1 % 7` is 2, but 0 is folded. |
| `CanonicalName.ParseThenJoin` | model/ModuleDef.cc:215-269 | Joining undoes splitting for every name without an unmatched closing bracket. |
| `CanonicalName.SplitsIff` | model/ModuleDef.cc:215-254 | Splitting has an answer if and only if every closing bracket is matched. |
| `CanonicalName.JoinThenParseIff` | model/ModuleDef.cc:256-269 | Splitting undoes joining for exactly the non-empty lists of parts without a dot outside brackets, balanced in every part but perhaps the last. |
| `CanonicalName.SampleParts` | model/ModuleDef.cc:215-269 | `a.b[c.d]` has the parts `a` and `b[c.d]`, both ways. |
| `CanonicalName.ParseCanonicalName` | model/ModuleDef.cc:215-254 | The loop over one string with its nesting count agrees with the specification on every name. |
| `CanonicalName.JoinName` | model/ModuleDef.cc:256-269 | The loop with its `first` flag joins with dots. |
| `LazyImports.GetIsFirst` | model/LazyImports.cc:56-69 | After any registrations getImport answers the first registration of the name, with its module. |
| `LazyImports.GetIsEarliest` | model/LazyImports.cc:56-69 | By position: the answer is registration i if and only if i is the earliest of the name, and nothing if there is none. |
| `LazyImports.StoredAnswerAgreesIff` | model/LazyImports.cc:71-147 | Storing and reading back, in any order of the modules and without raw shared libraries, keeps the answer for a name if and only if the first module in that order that has the name is the one that registered it first. |
| `LazyImports.StoredAnswersAgree` | model/LazyImports.cc:71-147 | So it does for every name and order if no local name is registered by two modules. |
| `LazyImports.SharedNamesMayMove` | model/LazyImports.cc:71-147 | A table of two modules, a name and an order for which it does not. |
| `LazyImports.ModuleRoundTrip` | model/LazyImports.cc:71-147 | A module's record reads back as its name in parts and its symbols in order. |
| `LazyImports.SampleBytes` | model/LazyImports.cc:71-110 | The record of one module with one renamed symbol, byte by byte. |
| `LazyImportsCode.LazyImports.AddImport` | model/LazyImports.cc:31-49 | The module objects and the two maps to them always describe exactly the registrations so far. |
| `LazyImportsCode.LazyImports.GetImport` | model/LazyImports.cc:56-69 | The answer is the first registration of the name with its module, in every table, even if the module was replaced; the check behind the loop is unreachable. |
| `LazyImportsCode.LazyImports.Serialize` | model/LazyImports.cc:71-100 | The nested writing loops; every record reads back as its module's name and symbols if they fit the length prefixes. |
| `LazyImportsCode.LazyImports.DeserializeModuleImports` | model/LazyImports.cc:121-147 | The field loop agrees with the format on every input; a record with symbols makes a new object with exactly these under the joined name, replacing what the map had there, and names registered before keep their objects; a record without symbols changes nothing. |
| `LazyImportsCode.LazyImports.DeserializeImportSymbol` | model/LazyImports.cc:102-119 | The inner field loop agrees with the format on every input; a missing local name is the source name. |
| `LazyImportsCode.LazyImports.Reload` | model/LazyImports.cc:121-147 | A table read from another one's records answers each name as the other does if and only if the condition of StoredAnswerAgreesIff holds. |

## Left out

- Generic instantiation, slave, extension and sourceless modules, shared libraries: they bypass or weaken the digest checks.
- The parser, code generation proper, dynamic loading, statistics, error texts and displays.
- Incremental build: the bytes of the header (covered by the codec as such), and cache files changed by other processes during a run; a cached module that cannot be decoded counts as a failed build.
- IncrementalBuildHistory.BuildIsSound: speaks of builds that succeed; that a build succeeds is proved under the condition of AcyclicBuildIsSound.
- IncrementalBuildSoundness.GetModuleSound: success needs a call depth above the module's rank, in place of an unlimited stack.
- Ownership: conditionals, loops, exceptions, early returns and the ternary operator; destructors written by the user beyond the release of fields; function entry of `this`; the stack discipline of registers with equal numbers in recursive emission, which are numbered apart here.
- OwnershipBalance.Balance: speaks of runs that settle; what a run does after a store through null, or after it has unsettled, is not described.
- OwnershipCalm.CalmRun: one direction only, as the condition is about the text and the exact conditions (AssignmentBalancesIff, FieldAssignmentBalancesIff, UncoveredDies) are about runs.
- OwnershipExact.CallThatClearsItsTargetFails: states the failure for a function without parameters.
- Cache publication: readers take the header and the builder file as two steps only; decoding in between is not modelled. A name is reused only between processes that are not alive together.
- CachePublicationSingle.NeverAnOldBuilderFile: a builder file of the same session or a later one is possible, and NewerFilesMayBeFound shows the latter; runs with damage (DamagesIff) are not covered, as the authors of files then change.
- LazyImports.StoredAnswerAgreesIff: tables without raw shared libraries, whose flag the format does not carry.
- ObjectGraph.GraphRoundTrip: the encoding must be shorter than 2^32 bytes, which also keeps ids in range; the nodes stand for all serializable classes and carry one blob, one list of references and one section of optional references, so the fields of each class are not told apart. Unknown optional fields are read as in the source: the header is passed over, its payload is not.
- Wire.Deserializer.ReadUInt: a varint whose shift leaves the 32 bits is a result of its own, since the behaviour is undefined in C++.
- Toker: scanning of identifiers, numbers, strings and comments, whose text is arbitrary here; a symbol that the input ends in; the uninitialized variable that decides what `=:` and `!:` are.
- TokenStream.TokenRoundTripIff: the end column is recomputed from the text, as in the source.
- Serialization of aliases of functions from shared libraries, and of doubles.
- ClassOffsets.FindAncestorOffset: integers are unbounded, where the source narrows to a 32-bit int.
- OrderedTypes.OrderTypes: termination asks for acyclic parents and templates, and acyclic nesting.
- Namespaces: the `exposed` flags and owners of aliases; names of nested namespaces; a target that is part of the other namespace's graph.
- Overloads.GetSigMatch: signatures are compared by type only, not also by argument name; overload graphs with shared parents appear as trees.
- The match of an overload against a function type.
- IntConst: shifts and their flags, signed division, floating point.
- LazyImports: the order in which the map enumerates modules is a parameter; the field key and length around each record are those of the codec.
- LazyImportsCode.LazyImports.AddImport: a module name with an unmatched closing bracket stops the program in the source and is excluded here.
