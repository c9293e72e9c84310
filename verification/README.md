# Proofs about the Raz runtime, the ObLink linker and the workspace graph

The project models three components of the Raz toolchain and proves properties of the models with
Dafny 4.11. `dafny verify dfyconfig.toml` checks everything.

**Async runtime.** `Futures` is one future: its lock-protected regions as functions, and a class
that runs them on mutable fields. `AsyncProtocol` puts any number of futures, one async frame and
any number of threads into a step system. A step is one lock-protected region or one atomic
operation of `raz_rt_async_await_poll`, `invalidate_async_await`, `async_await_continuation`,
`request_async_poll`, `raz_rt_async_result_store`, `raz_rt_async_frame_cancel`, `finish_future` or
the frame destructor, so a run is any interleaving of those calls. `AsyncInvariant` states an
inductive invariant, `AsyncPreservation` and `AsyncStep` prove that every step keeps it,
`AsyncHistory` and `AsyncEvents` relate the states before and after a step, and `AsyncTheorems`
draws the conclusions over whole runs. `AsyncOutcome` traces what the frame reads after an await back
to the call that asked for it, `AsyncTokens` shows that no replaced continuation stays queued,
`AsyncPasses` counts the passes between two openings of the gate, and `AsyncThreads` says which thread
runs what. `Slots` is slot ownership; `Words`, `Projection`,
`ProjectionRuns` and `ProjectedSlot` are the packed projection bitmap, which refines a sequence of
booleans. `ArgCodec` is the Windows command-line quoter and parser, and `ArgMeaning` states both as
rules.

**ObLink.** `Coff` holds parsed objects. `Comdat`, `Aliases` and `Liveness` select sections;
`ComdatMeaning` and `LivenessMeaning` state what they select in the fields of sections and symbols;
`Layout` and `Align` place items in an output section, `Outputs` groups sections into outputs,
`Arrange` adds what the linker synthesizes, `SectionOrder` drops blank outputs and orders the rest,
and `ImageLayout` states the result in terms of the input; `PlacementMeaning` states it in terms of
section headers. `Targets` and `Symbols` resolve names, and `SymbolMeaning` says what every symbol of
a link stands for;
`ReferenceSafety` runs selection, liveness, layout and symbol collection one after the other and
proves what references can rely on, with `DroppedDefinition` as the input that shows the limit.
`Fields`, `Relocate`, `FieldMeaning`, `Rebase` and `RebaseImage` relocate images, say what the fields
mean, and move images; `LinkedImage` composes relocation with the phases before it; `BaseRelocs`
encodes `.reloc`, `RelocReservation` stores it, and `DisplacedReloc` is an input for which that
fails; `LinkRebase` runs the phases from RVAs to `.pdata` on a link and moves the result, with
`AbsoluteCall` as the case where that differs from linking again; `ThunkSpace` and `ImageSpace`
compare what lies in one output, and `OverlappedTail` is an input for which two parts overlap;
`ImportPlan`, `ImportTables`, `ImportDirectory`,
`ImportReader`, `ImportThunks` and `ImportLink` synthesize and read the import directory; `Pe`,
`PeReader` and `PeHeaders` build and read the file image. File formats follow Microsoft's PE Format
specification, sections "COMDAT Sections (Object Only)", "The .idata Section", "The .reloc Section
(Image Only)", "Type Indicators" and "Optional Header".

**Workspace graph.** `Workspace` is the reverse-edge worklist that decides what need not be rebuilt.

## Reading the models

- Atomics are sequentially consistent. A callback that the runtime invokes synchronously becomes an
  activity of the same thread that its caller does not wait for, except where the caller re-enters
  the poll gate; the runs of the model therefore include all runs of the runtime and more.
- The loop test of `request_async_poll` is one step although it loads the intent and then the
  lifecycle: the gate is held, so the lifecycle cannot change between the two loads. "A pass starts"
  means that this test succeeds; an intent can still be claimed before the poll function is entered.
- Fields of the protocol state that only record history (who owns a reference, where a registration
  is) are listed at the head of `AsyncProtocol`; no step reads them to decide what happens.
- Thirty-two-bit wrap-around is explicit in `Align`, `Layout`, `Pe`, `Relocate` and `BaseRelocs`.
  Bitmap words are naturals below 2^64 with bitwise operators defined bit by bit.
- Exceptions are `Result` values; message texts are abbreviated.

## Where the code does less than one would expect

- *Rebasing.* The linked image moved by the loader equals the image linked at the new base if and
  only if the bases agree modulo 2^32 or no field depends on the base without a base relocation.
  Two kinds of field do: REL32 against an absolute symbol, and SECREL against `__ImageBase`, whose
  resolved offset is the base itself (`Rebase.PlainField`, `RebaseImage.ImageRebase`, and for a link
  from its input objects `LinkRebase.LinkRebase`). A call to an absolute address, linked at 0 and
  moved to 0x10000, is an instance where they differ (`AbsoluteCall.MovedIsNotRelinked`).
- *Reference safety.* A surviving definition in a non-empty output is not enough for a reference to
  resolve. Liveness follows the first surviving definition; if that one lies in an empty section
  whose output is dropped, a later COMDAT copy is not kept and the reference fails
  (`DroppedDefinition.SurvivingIsNotEnough`). A reference by name resolves to a placed definition if
  and only if some placed section that defines the name has an occupied output, and that is so
  whenever the output of the section liveness follows is occupied. An output is occupied if and only
  if some placed section of the same canonical name has a size, or it is `.bss` and there are common
  symbols, `.text` and there are code imports, or `.idata` and there are imports.
- *The .reloc reservation.* The search for `.reloc` by name finds a section of that name which the
  input contributes before the reserved one. The "reservation was too small" error is reached if and
  only if the input contributes such a section with a size and its extent is below the payload size
  (`RelocReservation.StoresUnlessDisplaced`); `DisplacedReloc` links an eight-byte pointer and a
  four-byte `.reloc` and reaches it.
- *Thunks in .text.* Import thunks start behind the bytes of `.text`, not behind its extent. In a
  link with code imports some thunk therefore shares a byte with a placed section if and only if an
  uninitialized tail of `.text` reaches past those bytes and begins before the thunks end
  (`ImageSpace.ThunksClearIff`); `OverlappedTail` links one byte of code, eight uninitialized bytes
  behind it and one imported function, and the thunk lands in the eight bytes. All other parts of an
  output are pairwise disjoint (`ImageSpace.AllApartIff`).
- *Projection count.* The stored count is truncated to 32 bits, so the bitmap is well formed if and
  only if fewer than 2^32 projections were requested (`ProjectedSlot.ArmedIsPacked`). The export loop
  counts in 32 bits up to and including the count, so it ends if and only if the count is below
  2^32 - 1; at 2^32 - 1 it wraps around for ever and hands out more than the runs
  (`ProjectedSlot.ExportEnds`, `ProjectedSlot.ExportOverruns`).
- *Projection ranges.* `first + count` is a 64-bit signed sum. If it fits, exactly the clamped range
  is set; if it does not, two's complement arithmetic makes it negative and nothing is set
  (`Projection.ClampedUnlessWrapped`; in C++ the overflow is undefined).
- *Command lines.* The round trip holds if and only if the arguments contain no NUL and no unquoted
  argument other than the last ends in a backslash (`ArgCodec.CommandLineRoundTrip`).
- *Cyclic associative COMDATs.* Sections that are associated with each other in a cycle all survive:
  only sections whose chain of parents reaches a losing section are dropped.

## Model

| member | source | states |
|---|---|---|
| Futures.RazFuture.Register | src/runtime/runtime_internal.hpp:307-324 | Queues under a fresh positive id while pending; once settled returns 0 with the settled value and status for the caller to deliver |
| Futures.RazFuture.Remove | src/runtime/runtime_internal.hpp:326-335 | Takes out the entry with this id, if it is still queued, and returns its continuation |
| Futures.RazFuture.Finish | src/runtime/runtime_internal.hpp:337-353 | The first settlement wins, stores value and status and claims every queued continuation; later ones change nothing |
| Futures.RazFuture.Poll | src/runtime/platform_threads_crypto.cpp:143-171 | Status and result come from one settlement, and a result exists exactly when completed |
| Futures.RemoveKeepsOthers | src/runtime/runtime_internal.hpp:326-335 | Removal leaves no entry with this id and keeps all others, and ids stay unique |
| AsyncInvariant.InitialHolds | src/runtime/async.cpp:9-16 | A new frame satisfies the protocol invariant |
| AsyncStep.StepKeeps | src/runtime/async.cpp:398-551 | Every enabled step of every activity, and every new call, keeps the protocol invariant: each registration is in one place, each reference has one owner, gate, poll loop, terminal intent and lifecycle agree |
| AsyncHistory.StepEvolves | src/runtime/runtime_internal.hpp:442-575 | No step undoes a settlement, a terminal intent, a lifecycle or the fate of a registration |
| AsyncEvents.StepExact | src/runtime/runtime_internal.hpp:462-575 | In each step, invocation, decision, release and consumption of a registration happen exactly when their mark appears, and never a second time |
| AsyncTheorems.Reachable | src/runtime/async.cpp:398-551 | Every state of every run satisfies the invariant |
| AsyncTheorems.NothingGoesBack | src/runtime/runtime_internal.hpp:337-353 | Along every run settlements, intent and winner are final, lifecycles only move forward and registrations only move towards consumption |
| AsyncTheorems.CountIsMark | src/runtime/runtime_internal.hpp:462-575 | Counted over a whole run, each event happens to a registration exactly once if its final state shows it and otherwise never |
| AsyncTheorems.ContextConsumedOnce | src/runtime/async.cpp:486-551 | In every run each await context is accepted, found stale or detached at most once, consumed at most once and only after that; it is live exactly until consumed, and its future reference is held exactly until released |
| AsyncTheorems.QuiescentContexts | src/runtime/runtime_internal.hpp:462-493 | When no call is under way, a context whose future settled has been consumed, any other is queued or detached, and every future reference but that of the current await has been released |
| AsyncTheorems.FrameCount | src/runtime/runtime_internal.hpp:442-456 | In every reachable state the frame count is the open handle plus live contexts plus publication guards |
| AsyncTheorems.FutureCount | src/runtime/runtime_internal.hpp:294-305 | A future's count is its client references plus unreleased awaits plus the frame it completes |
| AsyncTheorems.OnlyLatestResumes | src/runtime/runtime_internal.hpp:535-571 | The generation test succeeds exactly for the registered await, and then every other await was armed before it |
| AsyncTheorems.CountZero | src/runtime/runtime_internal.hpp:442-448 | At count zero there is no pending await, live context or open handle, and no call or callback is using the frame |
| AsyncTheorems.AliveWhileUsed | src/runtime/async.cpp:398-453 | Every call and callback acts on a live frame, up to and including the final lifecycle store and the release of its guard |
| AsyncTheorems.LookupsDefined | src/runtime/runtime_internal.hpp:417-575 | No call is ever stuck on a future or context that does not exist |
| AsyncTheorems.OneTerminal | src/runtime/async.cpp:398-453 | At most one completion or cancellation ever wins, its intent never changes, and its lifecycle exchange finds Active |
| AsyncTheorems.ObservedFinal | src/runtime/async.cpp:398-453 | Whoever observes completed or cancelled observes a settled completion future, with the stored result or cancellation if the winner settled it, the matching intent and no registered await |
| AsyncTheorems.WinnerSettles | src/runtime/async.cpp:398-453 | If the completion future is pending when the winner settles it, its value is what every later state shows |
| AsyncTheorems.NoAwaitAfterTerminal | src/runtime/async.cpp:486-551 | Once the lifecycle has left Active no new await is ever registered |
| AsyncTheorems.SettledForGood | src/runtime/runtime_internal.hpp:337-353 | All observers after settlement see the same status and value |
| AsyncTheorems.Delivery | src/runtime/runtime_internal.hpp:307-353 | A continuation is invoked at most once, with the settled value, never if it was removed; once a settled future's deliveries are done each was invoked or removed, also when registration races with settlement |
| AsyncTheorems.GateExclusive | src/runtime/runtime_internal.hpp:495-575 | Activities inside the recursive poll gate belong to one thread and only one of them executes |
| AsyncTheorems.OnePass | src/runtime/runtime_internal.hpp:495-533 | Poll loops are never nested or concurrent, and the running flag is set while there is one |
| AsyncTheorems.PassStartsActive | src/runtime/runtime_internal.hpp:495-533 | A pass starts only by a step of its poll loop, while the lifecycle is Active and no terminal intent exists |
| AsyncTheorems.WakeupServed | src/runtime/runtime_internal.hpp:495-571 | An accepted wakeup stores the resume state of its await and the value and status its future was settled with, and by the time no poll loop or waking callback remains a pass has started after it or a terminal intent exists, also across the 64-pass yield |
| AsyncOutcome.AcceptedOutcome | src/runtime/runtime_internal.hpp:552-566 | In every run, the step that accepts the callback of a context ends the registered await and publishes the resume state of that context and the value and status its future was settled with; the cancelled flag is set if that status is negative and otherwise stays |
| AsyncOutcome.StaleOutcome | src/runtime/runtime_internal.hpp:545-572 | Any other callback leaves the published outcome and the registered await as they were |
| AsyncOutcome.ReadyAwait | src/runtime/async.cpp:490-506 | An await call that finds its future settled publishes the resume state it was called with, the settled value (0 if cancelled) and the status, and sets the cancelled flag if the status is negative |
| AsyncOutcome.AwaitEnds | src/runtime/async.cpp:486-551 | While the frame is active, an await call ends by publishing a ready future, by finding itself registered already, by having had its callback at once, or by queueing a continuation whose token it publishes if its context is still the registered one; each with the future and resume state it was called with |
| AsyncOutcome.AwaitArms | src/runtime/async.cpp:520-531 | Arming registers the future and resume state of the call under a new context, and of what is published it clears the status and nothing else |
| AsyncOutcome.RepeatedAwait | src/runtime/async.cpp:507-512 | Awaiting what is awaited already, with the same resume state, changes nothing |
| AsyncOutcome.StepPublishes | src/runtime/async.cpp:398-551 | No other step than an accepted callback, a ready await, an arming or a stored cancellation changes what is published, and the cancelled flag is set exactly when a step sees a negative status or stores a cancellation |
| AsyncOutcome.CancelFlag | src/runtime/async.cpp:430-453 | In every state of every run the cancelled flag is set if and only if an earlier step published a negative status or stored a cancellation |
| AsyncTokens.OnlyRegisteredQueued | src/runtime/runtime_internal.hpp:462-493 | In every reachable state a queued await continuation is the registered one under the published id, or an await call is about to publish that id or to remove the continuation |
| AsyncPasses.PassBudget | src/runtime/runtime_internal.hpp:510-531 | Between two openings of the gate a poll loop runs at most 64 passes, and it opens the gate only after 64 |
| AsyncThreads.ThreadsFollowCalls | src/runtime/runtime_internal.hpp:307-353 | In every run a continuation runs on the thread of the call that settles the future or finds it settled, the destructor on that of the call that drops the last reference, and no activity changes threads |
| Slots.StepKeeps | src/runtime/async.cpp:44-132 | Every slot operation keeps each cleanup and block either with exactly one slot or with exactly one recorded fate |
| Slots.OwnershipConserved | src/runtime/runtime_internal.hpp:417-433 | After any operations and destruction each armed cleanup was run or disarmed exactly once in all, and each block freed or handed out exactly once in all |
| Slots.ReleasedOnlyOnRequest | src/runtime/async.cpp:357-385 | Only take, transfer and disarm drop a cleanup, only take hands out a block |
| Slots.DestructionReleasesNothing | src/runtime/runtime_internal.hpp:419-433 | The destructor drops no cleanup and hands out no block |
| Slots.AsyncFrame.ClearSlot | src/runtime/async.cpp:65-81 | Runs the armed cleanup, frees the owned block and empties the slot |
| Slots.AsyncFrame.StoreValue | src/runtime/async.cpp:83-96 | Refused or: clears the slot and stores a plain value |
| Slots.AsyncFrame.StoreOwnedValue | src/runtime/async.cpp:98-112 | Refused or: clears the slot and arms the cleanup |
| Slots.AsyncFrame.AllocateOwnedBytes | src/runtime/async.cpp:114-132 | Null when refused, else the slot owns the returned block and its cleanup |
| Slots.AsyncFrame.AllocateProjectedBytes | src/runtime/async.cpp:134-162 | Null when refused, else the slot owns the returned block with an armed projected cleanup |
| Slots.AsyncFrame.StoreOwnedBytes | src/runtime/async.cpp:338-355 | Refused or: the slot owns a copy and its cleanup |
| Slots.AsyncFrame.TakeValue | src/runtime/async.cpp:357-373 | Returns the value, block included, and empties the slot without cleanup |
| Slots.AsyncFrame.TransferProjected | src/runtime/async.cpp:44-57 | Drops the projected cleanup of an armed slot; the block stays with the frame |
| Slots.AsyncFrame.DisarmSlot | src/runtime/async.cpp:375-385 | Drops the cleanup; the block stays with the frame |
| Slots.AsyncFrame.Destroy | src/runtime/runtime_internal.hpp:417-433 | Clears every slot from the last to the first |
| Words.SpanMaskBits | src/runtime/async.cpp:179-180 | The shifted mask has exactly the bits of the span, also for a whole word |
| Projection.UpdateRange | src/runtime/async.cpp:165-190 | The word loop sets exactly the range up to the clamped end, keeps every other bit and returns the Hamming distance |
| Projection.ClampedUnlessWrapped | src/runtime/async.cpp:171-172 | The touched range is the requested one clamped to the count if and only if its end fits 64 bits; otherwise nothing is touched |
| ProjectedSlot.ArmedIsPacked | src/runtime/async.cpp:147-156 | Padding bits are zero and the word count is the rounded-up quotient if and only if the 32-bit count loses nothing |
| ProjectedSlot.Slot.Arm | src/runtime/async.cpp:134-162 | Every projection starts as the repeated mask says, with version 0 |
| ProjectedSlot.Slot.RangeSet | src/runtime/async.cpp:193-211 | Sets the clamped range, keeps the bitmap packed and bumps the version exactly when something changed |
| ProjectedSlot.Slot.BatchSet | src/runtime/async.cpp:306-329 | A batch with an invalid range changes nothing; otherwise all ranges apply in order, the flips are counted, and the version moves exactly when the count is non-zero |
| ProjectionRuns.RunsAreRuns | src/runtime/async.cpp:269-304 | Exported runs tile the range, each is constant and neighbours alternate |
| ProjectionRuns.OnlyRuns | src/runtime/async.cpp:269-304 | There is no other list of maximal alternating runs |
| ProjectionRuns.ImportExport | src/runtime/async.cpp:269-329 | Applying exported runs to any bitmap of the same count reproduces the exported one and counts the Hamming distance |
| ProjectedSlot.ExportImports | src/runtime/async.cpp:269-329 | Every exported run is a valid batch range, the batch reproduces the bitmap, and it reports zero exactly when the bitmaps were equal |
| ProjectedSlot.RunCount | src/runtime/async.cpp:253-267 | Returns the number of runs |
| ProjectedSlot.ExportEnds | src/runtime/async.cpp:281-302 | The export loop with its 32-bit counter ends if and only if the count is below 2^32 - 1, and whenever it ends it has handed out exactly the runs |
| ProjectedSlot.ExportOverruns | src/runtime/async.cpp:284 | At count 2^32 - 1 the loop goes on and hands out more entries than there are runs |
| ProjectedSlot.CopyRuns | src/runtime/async.cpp:269-304 | Where the loop ends, fills the caller's arrays with the first `capacity` runs and returns how many there are |
| ArgCodec.QuoteArgument | src/runtime/files_process.cpp:546-561 | The slash-counting loop computes the quoted form |
| ArgCodec.JoinArguments | src/runtime/files_process.cpp:562-566 | The quoted arguments with single blanks between them |
| ArgCodec.ParseCommandLine | src/runtime/runtime_internal.hpp:182-220 | The cursor loop computes the parsed argument list |
| ArgCodec.JoinParses | src/runtime/runtime_internal.hpp:199-212 | Parsing the joined line gives the arguments back if and only if no unquoted argument other than the last ends in a backslash |
| ArgCodec.CommandLineRoundTrip | src/runtime/files_process.cpp:546-566 | With the line cut at its first NUL, the arguments come back if and only if they are NUL-free and none is glued to its successor |
| ArgMeaning.QuotedIff | src/runtime/files_process.cpp:546-561 | An argument is written as it is if it is not empty and has no blank, tab or quote, and otherwise between quotes |
| ArgMeaning.ArgumentRules | src/runtime/runtime_internal.hpp:189-212 | How every piece of an argument is read: backslashes halve before a quote, which is literal after an odd number and else switches quoting; elsewhere they stand for themselves, also in front of a blank |
| ArgMeaning.LineShape | src/runtime/runtime_internal.hpp:189-212 | Every line is one of the pieces these rules read: backslashes, backslashes and a quote, or backslashes and another character |
| ArgMeaning.LineRules | src/runtime/runtime_internal.hpp:184-187 | Blanks and tabs between arguments are passed over; anything else begins an argument |
| Comdat.SelectLeaders | src/oblink/src/link.cpp:1201-1282 | Fails exactly when some group has no leader; otherwise drops exactly the candidates that are not leader of their name |
| Comdat.LeaderIsWinner | src/oblink/src/link.cpp:1176-1273 | Pairwise comparison succeeds exactly on the groups each policy allows, and finds the policy's winner: first, last, or earliest of maximal size; where ANY and LARGEST mix, no LARGEST member and not the first one is larger than the winner |
| Comdat.DropFollowers | src/oblink/src/link.cpp:1283-1306 | Fails exactly when an associative section names no parent; otherwise drops exactly the sections whose chain of parents reaches a dropped one |
| Comdat.SelectionHolds | src/oblink/src/link.cpp:1201-1307 | One survivor per leader name, the policy's winner; associative sections survive exactly with their parents, others always |
| Comdat.SelectSections | src/oblink/src/link.cpp:1201-1307 | Succeeds if and only if every group is resolvable and every parent named, and then the selection holds |
| ComdatMeaning.Candidates | src/oblink/src/link.cpp:1206-1224 | On the fields: what is a COMDAT (bit 12 or a selection number), what is associative (number 5), and that the other COMDATs with a leader name compete |
| ComdatMeaning.Discarded | src/oblink/src/link.cpp:579-582 | A section is for the linker alone if it is named `.drectve`, its name begins with `.debug` or bit 11 of its characteristics is set |
| ComdatMeaning.ExactMatchIsAlike | src/oblink/src/link.cpp:1176-1192 | EXACT_MATCH holds if and only if the bytes, the image sizes and the relocations with the names they refer to are equal, and the checksums where both are non-zero |
| ComdatMeaning.GroupResolves | src/oblink/src/link.cpp:1194-1273 | A leader name resolves if and only if it has one section, or all its sections carry 0, 2 or 6, or all 7, or all 3 and one size, or all 4 and equal contents |
| ComdatMeaning.GroupKeeps | src/oblink/src/link.cpp:1201-1282 | Of each leader name selection keeps exactly one section: the first under ANY, SAME_SIZE and EXACT_MATCH, the last under NEWEST, the first of the largest under LARGEST, and under a mix of ANY and LARGEST one that no LARGEST section exceeds |
| ComdatMeaning.ParentsNamedIff | src/oblink/src/link.cpp:1283-1306 | Every parent is named if and only if every section with selection 5 carries the number, from 1, of a section of its own object |
| ComdatMeaning.FollowsParent | src/oblink/src/link.cpp:1283-1306 | A section with selection 5 is kept exactly if the section its number names is |
| ComdatMeaning.OthersKept | src/oblink/src/link.cpp:1213-1224 | A section that is no COMDAT, or has no leader name, and is not associative is kept |
| Aliases.ResolveAliasName | src/oblink/src/link.cpp:584-593 | The loop follows alternate names until the chain ends or a name repeats |
| Aliases.ResolvedEndsChain | src/oblink/src/link.cpp:584-593 | The result lies on the chain, and it is itself an alias exactly when the chain never ends |
| Aliases.ResolvedStops | src/oblink/src/link.cpp:584-593 | The result is the first name of the chain that is no alias or has been met before |
| Liveness.CollectDefinitions | src/oblink/src/link.cpp:601-708 | Each name goes to its first external definition in an eligible section |
| Liveness.ComputeLiveSections | src/oblink/src/link.cpp:601-708 | Terminates with the least set of eligible sections that holds the roots and is closed under relocation and associative edges |
| Liveness.ClosedHoldsReached | src/oblink/src/link.cpp:601-708 | Whatever is reached from a root lies in every closed set |
| LivenessMeaning.LiveIsLeast | src/oblink/src/link.cpp:601-708 | On the fields: the live sections are the least set that holds the sections that are no COMDATs and those of the entry point and the forced symbols, and with a section those its relocations and its associative children lead to |
| LivenessMeaning.WeakDefaultLives | src/oblink/src/link.cpp:669-680 | A live section keeps alive the section to which the default of an undefined weak symbol leads, also when nothing defines the symbol |
| LivenessMeaning.PlacedAreLive | src/oblink/src/link.cpp:1340-1346 | The sections that take part in layout are exactly the live ones |
| LivenessMeaning.DescriptorsAre | src/oblink/src/link.cpp:1355-1362 | Refused are selected sections with bytes whose name begins with `.idata$2`, unless they are COMDATs and not live |
| Align.AlignUpBounds | src/oblink/src/link.cpp:28-31 | Without overflow the result is the next multiple |
| Layout.AlignmentAsked | src/oblink/src/link.cpp:56-60 | The alignment of a section is 2 to the power of e - 1 where bits 20 to 23 of its characteristics hold e from 1 to 14, and 16 otherwise |
| Layout.ContributionsSorted | src/oblink/src/link.cpp:1400-1404 | Contributions come in name order, in input order within a name, none lost or doubled |
| Layout.PlaceContributions | src/oblink/src/link.cpp:1405-1424 | Without overflow the first section is at 0 and each other at the least multiple of the alignment its characteristics ask for that is not below the end of its predecessor; bytes are where the offset says and the virtual size is the last end |
| Layout.PlaceItems | src/oblink/src/link.cpp:1411-1423 | The 32-bit cursor loop places bytes at exactly computed offsets behind what was there |
| Layout.PlaceCommons | src/oblink/src/link.cpp:1426-1452 | Common symbols go behind the existing extent, aligned, without adding bytes |
| Layout.ContributionsDisjoint | src/oblink/src/link.cpp:1400-1424 | Contributions are aligned as their characteristics ask, in order, disjoint and inside the virtual size |
| Layout.AssignRvas | src/oblink/src/link.cpp:1556-1561 | Without overflow the loop assigns the running aligned RVA |
| Layout.RvasDisjoint | src/oblink/src/link.cpp:1556-1561 | Section RVAs are aligned and increasing and sections do not overlap |
| Outputs.GroupSections | src/oblink/src/link.cpp:1369-1396 | One group per canonical name of a placed section, names distinct, each with all its sections in input order |
| Outputs.CanonicalOf | src/oblink/src/link.cpp:83-96 | What lies before the first `$` of a name decides: one of six prefixes, or else its first eight characters |
| Outputs.PlaceGroups | src/oblink/src/link.cpp:1400-1424 | Each group is laid out in its own output: blank exactly when no section has a size; every section at the aligned offset of its item with its bytes there; the bytes end with the last initialized section and the extent with the last item |
| Arrange.Synthesize | src/oblink/src/link.cpp:1426-1500 | Common symbols lie aligned behind the extent of `.bss`, thunks behind the bytes of `.text`, the import block aligned behind the extent of `.idata`, at the offsets returned; every output keeps its bytes, exactly the outputs they go to become occupied, and no other is touched |
| SectionOrder.DropAndOrder | src/oblink/src/link.cpp:1519-1552 | Keeps exactly the outputs that are not blank, in the order `.text`, `.rdata`, `.data`, `.bss`, `.pdata`, `.tls`, `.idata`, `.rsrc`, `.reloc`, then all other names lexicographically, and renumbers exactly the placements in them |
| SectionOrder.PrecedesIs | src/oblink/src/link.cpp:1519-1538 | The comparison of the sort is exactly this order of names |
| Sorting.StringLessAt | src/oblink/src/link.cpp:1537 | Of two strings the smaller ends, or has the smaller character, where they first differ |
| SectionOrder.FirstKept | src/oblink/src/link.cpp:1532-1538 | Of several outputs with one name the image lists first the one created first, unless it was blank |
| ImageLayout.LayOut | src/oblink/src/link.cpp:1369-1555 | A placed section has an address if and only if its output is occupied; it is in the first output of its canonical name, at the offset of its item, with its bytes there and inside; what is synthesized lies behind the contributions; the `.reloc` found by name is the contributed one if there is one; there is no output if and only if nothing is contributed, synthesized or reserved |
| ImageLayout.CountInIs | src/oblink/src/link.cpp:1506-1514 | Counted for the reservation are exactly the relocations of type 1 and 2 |
| PlacementMeaning.SectionsTight | src/oblink/src/link.cpp:1400-1424 | In a link every placed section begins its output, or lies at the least multiple of the alignment its header asks for that is not below the end of another section of that output |
| PlacementMeaning.PieceAligned | src/oblink/src/link.cpp:1400-1500 | In a link every section lies at a multiple of the alignment its header asks for, every common symbol of its size but no more than 16, every thunk of 2 and the import block of 8 |
| PlacementMeaning.PieceAsAsked | src/oblink/src/link.cpp:1400-1500 | The alignment and extent by which pieces are placed are those of the section header, the common symbol, a six-byte jump and the import plan |
| Symbols.CollectGlobals | src/oblink/src/link.cpp:1563-1604 | Fails if and only if a symbol names a missing section or a name has two definitions outside COMDATs; otherwise maps exactly the placed external names, each to its definition outside COMDATs or else its first |
| ReferenceSafety.LinkSymbols | src/oblink/src/link.cpp:1335-1604 | Selection, liveness, layout and symbol collection in sequence. If what is synthesized fits 32 bits, it fails exactly when selection does or the choice is refused: descriptors of GNU import libraries, no output at all, clashing definitions or a symbol in a missing section. On success placements and globals are exact |
| ReferenceSafety.ResolvesIffDefined | src/oblink/src/link.cpp:1669-1702 | A reference by name resolves to a placed definition of that name if and only if a placed section of an occupied output defines it; otherwise to a common symbol or import of that name, or it fails |
| SymbolMeaning.ResolvesByName | src/oblink/src/link.cpp:1669-1678 | A name resolves to an address if and only if it, or the first of its alternate names that is known, has that address |
| SymbolMeaning.ResolvesToMeaning | src/oblink/src/link.cpp:1680-1702 | Every symbol of every link: in a section with an address, that address plus its value, whatever the storage class; in another section, what its name leads to; section -1, its value; undefined, the image base for `__ImageBase`, else what its name leads to, else for a weak symbol what its default means; anything else is an error |
| SymbolMeaning.WeakMeansDefault | src/oblink/src/link.cpp:1695-1699 | An undefined weak symbol that no name leads from means what its default means, also when defaults form a chain or a cycle |
| ReferenceSafety.FollowedIsPlaced | src/oblink/src/link.cpp:1340-1346 | What a placed section refers to by name is placed too |
| ReferenceSafety.ReferenceIsSafe | src/oblink/src/link.cpp:1680-1702 | A relocation of a placed section by an unaliased name with a surviving definition resolves to a placed definition of it, also when its own object's copy was discarded, if the output of the section liveness follows is occupied |
| DroppedDefinition.SurvivingIsNotEnough | src/oblink/src/link.cpp:601-708 | In every link of a concrete input the name survives in an occupied output and the reference still fails |
| DroppedDefinition.LinkCallToF | src/oblink/src/link.cpp:1335-1604 | That input links up to relocation |
| LinkedImage.ResolveAll | src/oblink/src/link.cpp:1707-1716 | Resolves the relocations of every section with an address; fails exactly when one of them does not resolve |
| SymbolMeaning.ResolvesIff | src/oblink/src/link.cpp:1707-1716 | All relocations resolve if and only if every relocation of every section with an address does, those of type 0 included |
| LinkedImage.FieldReachesDefinition | src/oblink/src/link.cpp:1704-1782 | From objects to bytes: the relocated field of a placed section designates the address of a placed definition of the name it refers to, with the addend of the input section |
| SymbolMeaning.FieldReachesPlace | src/oblink/src/link.cpp:1680-1782 | From objects to bytes: the field of a relocation whose symbol, static or not, lies in a section with an address designates that address plus the value of the symbol plus the addend |
| SymbolMeaning.FieldReachesValue | src/oblink/src/link.cpp:1690-1782 | The field of a relocation whose symbol has section number -1 designates the value of the symbol plus the addend |
| Relocate.ApplyRelocations | src/oblink/src/link.cpp:1704-1782 | Fails exactly when some relocation does; otherwise patches all fields in order and emits a base relocation per absolute address |
| FieldMeaning.FieldDesignates | src/oblink/src/link.cpp:1719-1778 | Whatever its type (1 to 4 and REL32_1 to SECREL, 5 to 11), a relocated field designates its target: instruction end plus signed REL32 field, absolute field, or base plus image-relative or section-relative field equals the target address plus the addend, and a SECTION field is the output index plus one |
| FieldMeaning.FieldFits | src/oblink/src/link.cpp:1719-1780 | A relocation is an error if and only if its REL32 distance is no signed 32-bit number, its ADDR32 address is not below 4 GiB, its ADDR32NB target is absolute or its type is none of 1 to 11 |
| FieldMeaning.RelocatesIff | src/oblink/src/link.cpp:1704-1782 | With disjoint fields, relocation succeeds if and only if every field lies inside its output and can hold its value |
| FieldMeaning.BaseRelocsAre | src/oblink/src/link.cpp:1743-1758 | Base relocations are exactly the RVAs of ADDR64 (as type 10) and ADDR32 fields (as type 3) against anything but absolute symbols |
| FieldMeaning.ImageDesignates | src/oblink/src/link.cpp:1704-1782 | In a linked image with disjoint fields every field designates its own target plus the addend of the input section |
| FieldMeaning.OtherBytesStay | src/oblink/src/link.cpp:1704-1782 | Bytes outside all relocated fields are those of the input |
| Rebase.RelocatedIsPatched | src/oblink/src/link.cpp:1704-1782 | With disjoint fields, relocating in order equals patching every field from the original bytes |
| Rebase.MovedField | src/oblink/src/link.cpp:1740-1775 | A base-relocated field plus the distance moved is the field linked at the new base |
| Rebase.PlainField | src/oblink/src/link.cpp:1704-1782 | Any other field is the same at both bases if and only if it is not base-dependent or the bases agree modulo 2^32 |
| Rebase.RebaseEquivalence | src/oblink/src/link.cpp:1704-1813 | Applying the emitted base relocations in any order gives the sections linked at the new base if and only if no field is base-dependent or the bases agree modulo 2^32 |
| RebaseImage.SortedPdataKeeps | src/oblink/src/link.cpp:1817-1846 | Runtime-function records come out as a permutation in order of begin address |
| RebaseImage.PdataAscends | src/oblink/src/link.cpp:1817-1846 | In the sorted table every record begins, by its first four bytes least significant first, no lower than the records before it |
| RebaseImage.PayloadInReserve | src/oblink/src/link.cpp:1506-1517 | Twelve bytes per absolute relocation are enough for the payload |
| RebaseImage.ImageRebase | src/oblink/src/link.cpp:1704-1850 | The same equivalence for the finished image, `.reloc` bytes and sorted `.pdata` included, with relocations read back from the written payload, when neither `.pdata` nor the output of the payload holds a base-dependent field |
| RelocReservation.StoreBaseRelocs | src/oblink/src/link.cpp:1784-1813 | Replaces the bytes of the first output named `.reloc`; fails exactly when there is none or the payload exceeds its extent |
| RelocReservation.StoresUnlessDisplaced | src/oblink/src/link.cpp:1506-1517 | In a link the store fails if and only if the input contributes a `.reloc` with a size whose extent is below the payload size |
| DisplacedReloc.ReservationTooSmall | src/oblink/src/link.cpp:1790-1810 | In every link of a concrete input the payload does not fit the `.reloc` that is found |
| DisplacedReloc.LinkPointerAndReloc | src/oblink/src/link.cpp:1335-1604 | That input links up to relocation |
| LinkRebase.AssignAll | src/oblink/src/link.cpp:1556-1561 | Unless the image exceeds 4 GiB, the outputs of a link get the running aligned RVAs that `LinkRebase.LinkRebase` asks for |
| LinkRebase.OutputsTight | src/oblink/src/link.cpp:1556-1561 | The first output lies one alignment unit up, and each other at the first multiple of the alignment beyond the image bytes and the file bytes of its predecessor |
| LinkRebase.FinishLink | src/oblink/src/link.cpp:1704-1850 | From the bytes and RVAs of a link to its finished sections: fails exactly when a relocation does not resolve or apply, the payload does not fit, or `.pdata` is no whole number of records |
| LinkRebase.ReserveUntouched | src/oblink/src/link.cpp:1506-1517 | When the input contributes no `.reloc` of its own, no relocation of the link patches the reserved one |
| LinkRebase.LinkRebase | src/oblink/src/link.cpp:1556-1850 | For a link of any objects at its assigned RVAs: the finished image at one base, moved by the loader with the relocations read from it, is the finished image at the other base if and only if no field is base-dependent or the bases agree modulo 2^32 |
| AbsoluteCall.MovedIsNotRelinked | src/oblink/src/link.cpp:1724-1742 | One REL32 against an absolute address meets every condition of the equivalence and gives different images at 0 and 0x10000 |
| BaseRelocs.WritePayload | src/oblink/src/link.cpp:1784-1813 | The block loop with backfilled sizes computes the payload |
| BaseRelocs.PayloadSize | src/oblink/src/link.cpp:1784-1813 | At most twelve bytes per relocation, a multiple of four |
| BaseRelocs.PayloadRoundTrip | src/oblink/src/link.cpp:1784-1813 | A decoder that checks block sizes and skips padding reads back exactly the entries in order |
| BaseRelocs.RelocSectionRoundTrip | src/oblink/src/link.cpp:1784-1813 | The loader reads exactly the emitted relocations, in ascending order of address |
| ImportPlan.PlanImports | src/oblink/src/link.cpp:1114-1159 | Imports sorted; two share a group if and only if their DLL names agree letter by letter but for the case of A to Z, and no two groups have names that so agree; tables end to end |
| ImportPlan.GroupsIncrease | src/oblink/src/link.cpp:1114-1130 | Group names strictly increase in lower case and no two agree but for case, so each DLL has one descriptor |
| ImportPlan.LowerMeansSame | src/oblink/src/link.cpp:215-219 | Two names have one lower-case form if and only if they have one length and agree at every position but for the case of A to Z |
| ImportPlan.LowerIsSpelling | src/oblink/src/link.cpp:215-219 | The lower-case form of a name is the same name but for case and has no capital letter |
| ImportTables.TablesTight | src/oblink/src/link.cpp:1131-1147 | Twenty bytes per descriptor and one more; eight-aligned behind them the lookup and the address table, eight bytes per import and per terminator, group by group |
| ImportTables.HintsTight | src/oblink/src/link.cpp:1148-1154 | Each import by name takes a two-byte hint, its name and a zero, and the next one follows at the next even offset; imports by ordinal take nothing |
| ImportTables.HintsBound | src/oblink/src/link.cpp:1148-1155 | The first hint begins its table, and the DLL names begin at the next even offset behind the last one |
| ImportTables.NamesTight | src/oblink/src/link.cpp:1155-1159 | DLL names follow one another with their zeros up to the end of the block |
| ImportDirectory.InTable | src/oblink/src/link.cpp:1131-1159 | Every store lies inside its own table and the tables lie inside the reserved size |
| ImportDirectory.StoresApart | src/oblink/src/link.cpp:1606-1667 | No two stores of the writing loop overlap |
| ImportDirectory.StoresStay | src/oblink/src/link.cpp:1606-1667 | Every stored field is still there after all stores |
| ImportDirectory.WriteDirectory | src/oblink/src/link.cpp:1606-1667 | The loop performs every store of the plan |
| ImportReader.ReadsAll | src/oblink/src/link.cpp:1606-1667 | A loader walking descriptors, lookup tables, hints and names finds the planned directory |
| ImportReader.EntryHeld | src/oblink/src/link.cpp:1620-1637 | Lookup and address table both hold the entry of each import at its place |
| ImportReader.WriteAndRead | src/oblink/src/link.cpp:1606-1667 | Writing and reading gives each DLL once, no two of the names read back agreeing but for case, with exactly its imports in order, from the lookup table and from the address table |
| ImportThunks.PlaceThunks | src/oblink/src/link.cpp:1455-1474 | One even, disjoint indirect jump per code import behind the code |
| ImageSpace.ThunksClearIff | src/oblink/src/link.cpp:1466-1476 | In a link with code imports a thunk shares a byte with a placed section if and only if some contribution to `.text` reaches past its initialized bytes and begins before the thunks end |
| ImageSpace.SectionsApart | src/oblink/src/link.cpp:1400-1424 | In a link two sections of one output are disjoint, in order of name and then of input, also when they have no bytes |
| ImageSpace.PieceInside | src/oblink/src/link.cpp:1400-1500 | In a link every section, common symbol, thunk and the import block lies aligned and inside the virtual size of the first output of its name |
| ImageSpace.AllApartIff | src/oblink/src/link.cpp:1400-1500 | In a link no two of them share a byte if and only if there is no code import or no tail of `.text` in the way of the thunks |
| OverlappedTail.ThunkInTail | src/oblink/src/link.cpp:1466-1476 | In every link of a concrete input with an uninitialized section at the end of `.text`, a thunk shares a byte with a placed section |
| OverlappedTail.LinkCodeAndTail | src/oblink/src/link.cpp:1335-1604 | That input links up to relocation |
| ImportThunks.AimThunks | src/oblink/src/link.cpp:1640-1656 | Fails exactly when a slot is out of reach; otherwise each thunk loads from its slot and code stays as it was |
| ImportLink.SlotHolds | src/oblink/src/link.cpp:1620-1640 | The address-table slot planned for an import holds that import |
| ImportLink.LinkImports | src/oblink/src/link.cpp:1455-1667 | End to end, every code thunk jumps through the slot where the loader finds its own import |
| Pe.BuildPe32Plus | src/oblink/src/pe.cpp:42-159 | Succeeds exactly on 1 to 96 sections with non-zero alignments whose headers and data fit, and writes headers, table, padding and raw data |
| PeReader.SmallIsBuildable | src/oblink/src/pe.cpp:42-159 | Without 32-bit overflow no error is reachable and the header region is aligned |
| PeReader.DataWhereNamed | src/oblink/src/pe.cpp:137-158 | Each section header gives name, RVA, characteristics and the larger of the two sizes of its section, and names an aligned file range behind the headers that holds exactly its bytes, zero padded to the next multiple of the file alignment |
| PeReader.DataDisjoint | src/oblink/src/pe.cpp:52-61 | Raw data of different sections does not overlap |
| PeHeaders.HeadersRoundTrip | src/oblink/src/pe.cpp:72-136 | A loader following the header offsets reads back machine, counts, entry, base, alignments, sizes, versions, subsystem, reserves and all sixteen directories; the flags say that the image cannot be moved (bit 0 set, no dynamic base) exactly when it has no base relocations |
| PeHeaders.ImageCovers | src/oblink/src/pe.cpp:56-65 | SizeOfImage is aligned, covers the headers and every section, and exceeds one of their ends by less than the alignment |
| PeHeaders.SizesAre | src/oblink/src/pe.cpp:56-65 | SizeOfCode and SizeOfInitializedData sum the raw sizes, and SizeOfUninitializedData the aligned memory sizes, of the sections with bit 5, 6 and 7, in 32 bits |
| PeHeaders.CodeBaseIs | src/oblink/src/pe.cpp:62 | BaseOfCode is the RVA of the first code section whose RVA is not zero, or zero |
| Workspace.RebuildDependents | src/bootstrap/compiler/project/workspace.cpp:118-129 | Whatever the dependents were, they become exactly the reverse edges, sorted and unique, and nothing else changes |
| Workspace.PropagateDirty | src/bootstrap/compiler/project/workspace.cpp:141-153 | The worklist yields exactly what is reachable from the seeds along dependents |
| Workspace.WorkspaceGraph.Rebuild | src/bootstrap/compiler/project/workspace.cpp:118-129 | The graph's dependents become the exact reverse edges |
| Workspace.WorkspaceGraph.Compare | src/bootstrap/compiler/project/workspace.cpp:173-200 | Added and removed modules; source-changed exactly those of both graphs whose source fingerprints differ; graph-changed exactly those whose import fingerprint, dependencies or source path differ; and as dirty exactly what is reachable from added modules, changed modules and former dependents of removed ones |
| Workspace.WorkspaceGraph.DirtyFromPath | src/bootstrap/compiler/project/workspace.cpp:166-171 | The module of the path and everything that transitively depends on it, nothing for an unknown path |
| Workspace.CleanStep | src/bootstrap/compiler/project/workspace.cpp:173-200 | A clean module and its direct dependencies have the same source fingerprint, import fingerprint, source path and dependencies in both graphs, and those dependencies are clean or absent |
| Workspace.CleanClosure | src/bootstrap/compiler/project/workspace.cpp:173-200 | A clean module has the same transitive dependencies in both graphs, each with the same source fingerprint, import fingerprint, source path and dependencies, and each clean |

## Left out

- Memory orderings, condition variables, blocking waits, and the wait and deletion inside `release_future`: only its effect on the count is modelled, so nothing is claimed about when waiting ends.
- Lifetime of the gate mutex: the publication guard is destroyed before the gate is unlocked, so aliveness is claimed up to the release of the guard.
- Widths of reference counts, generations and continuation ids: they are unbounded here.
- Slot functions racing with terminal transitions, slot address queries and null handles: slots are used by one poller at a time. Allocation never yields null, as throwing `operator new` promises.
- ProjectedSlot.CopyRuns: not called with room for runs at count 2^32 - 1, where the loop does not end (`ProjectedSlot.ExportEnds`).
- ReferenceSafety.ReferenceIsSafe and ReferenceSafety.ResolvesIffDefined: liveness follows an alternate name even where the name itself is defined, and resolution tries the name first, so safety is stated for names without an alternate; what alternates resolve to is `SymbolMeaning.ResolvesByName`.
- AsyncOutcome.AwaitEnds: the number that the await call returns is not modelled, nor is its refusal of negative resume states.
- Comdat.LeaderIsWinner: groups that mix ANY and LARGEST are compared pairwise; an ANY member that meets an ANY leader is passed over whatever its size, so no maximum over all members is claimed for them.
- Symbols.Resolve: a cycle of weak externals, which the linker follows for ever, ends here after as many steps as there are symbols.
- ReferenceSafety.ReferenceIsSafe: assumes that what is synthesized into `.bss`, `.text`, `.idata` and `.reloc` fits 32 bits. Sizes of common symbols and the import plan are inputs, their symbols are extra globals, and merged section characteristics are not modelled. Symbol offsets are not wrapped to 32 bits.
- ImportPlan.PlanImports: offsets are unbounded; they equal the 32-bit ones whenever the block ends below 4 GiB, which the reading results assume.
- ImageSpace.AllApartIff: assumes that the contributions to every output fit 32 bits, as its parts do.
- Layout.PlaceContributions: with 32-bit overflow only the number of offsets is stated, since the linker does not detect it.
- Relocate.ApplyRelocations: relocations arrive as resolved fixes, which `LinkedImage.ResolveAll` makes; resolving all before patching any changes only which of several errors is reported.
- RebaseImage.ImageRebase: a contributed `.reloc` with base-dependent fields of its own is excluded, because the payload replaces its bytes. The same holds for `LinkRebase.LinkRebase`.
- LinkRebase.FinishLink: import tables and thunk displacements are filled in between RVAs and relocation; the bytes at that point are an input of the right shape, and what fills them is proved in `ImportLink`.
- LinkedImage.FieldReachesDefinition: relocates the bytes of layout, in which import tables and thunk displacements are still zero.
- BaseRelocs.RelocSectionRoundTrip: assumes fewer than 2^32 / 12 relocations, the size field being 32 bits wide.
- `std::sort` is modelled by a stable sort; unstable orders of equal keys are not explored.
- ArgCodec.ParseCommandLine: arguments are not converted to UTF-8, and the POSIX branch is not modelled.
- Parsing of COFF files and archives, the second PE writer in `image.cpp`, library discovery, entry-point and TLS lookup, link maps and all file access.
- Dependency hashing, fingerprinting and the stored form of the workspace graph; canonical paths are plain strings.
- Erased callables, trait objects, sockets, TLS, files, process launch, cryptography, CRC-32 and arenas: easy members or thin wrappers.
