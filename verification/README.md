# Verification of the crash-capture and profiling core

This project models the parts of the Sentry SDK for Apple platforms whose data is read by crash handlers,
by lock-free readers or by a sampling thread while other threads change it, and proves what those parts
rely on. Addresses, memory contents and the answers of the kernel and of the Objective-C runtime are
arbitrary inputs throughout; interleavings are sequences of single steps under sequential consistency.

| file | what it models |
|---|---|
| `Wrappers.dfy` | optional values |
| `Sums.dfy` | multiset bookkeeping shared by the interleaving models |
| `ImageHistory.dfy` | the cached images as a list, the loader's view of them, and when the two agree |
| `ImageCache.dfy` | the binary image cache as linked nodes changed in place |
| `ImageProtocol.dfy` | the same cache as interleaved atomic steps of any number of threads |
| `ImageOwnership.dfy` | list, mutex and node ownership over all interleavings, starts and stops included |
| `ImageReaders.dfy` | where the pointers lead that threads follow, over all interleavings |
| `ImageScan.dfy` | lock-free iteration and removal while no thread stops the cache |
| `ImageLinearize.dfy` | the interleaved cache refines the list of `ImageHistory` |
| `ImageCalls.dfy` | what becomes of each call on the interleaved cache, told from what it read |
| `ImageRegistration.dfy` | registering for added images |
| `ImageRaces.dfy` | four interleavings step by step: a double report, and a reader, an adder and a removal left behind by a stop |
| `StackWalk.dfy` | stack bounds, frames and `backtrace` over arbitrary memory, on four architectures |
| `ThreadMetadata.dfy` | the thread metadata cache |
| `SamplingPass.dfy` | thread handles and one sampling pass, with the trace of its kernel calls |
| `SamplingProtocol.dfy` | what holds of every such trace |
| `Sampler.dfy` | starting and stopping the profiler as interleaved steps |
| `Introspection.dfy` | the bounded recursion that writes what an address points to |
| `IntrospectionTree.dfy` | what is written, as a tree described container by container |
| `ThreadNames.dfy` | the thread-name cache, with the world after every micro-step |
| `FreezeProtocol.dfy` | the counter that freezes it |
| `ScopeReport.dfy` | reading the scope out of a stopped world |
| `ScopeSync.dfy` | the scope mirror and its breadcrumb ring, with the world after every micro-step |

Conventions. History variables record what a step did (`appended`, `reports`, `seen`, `released`, `trace`)
and never decide what a step does; the exception is `freed` in the image cache, which stands for the allocator:
a step that would look into freed memory does not exist. Where the source works step by step the step-by-step
form is kept: classes whose methods update fields, loops with invariants, or a state machine where several
threads take part.
`hide` statements in proofs only drop definitions that the proof at hand does not need.

What the proofs show about the code beyond what it promises:

- A load address that is unloaded, used again and unloaded again stays listed: removal marks the first node with
  the address, dead or alive. `ImageHistory.CacheAgreesIff` gives the exact condition.
- The header of the image cache calls registration thread safe. Nothing is missed, but an image may be reported
  twice (`ImageRaces.CanReportTwice`); twice is the maximum. `ImageRegistration.ReportedTwiceIff` says exactly when.
- A stop can free a node that a thread outside the mutex still uses: the node an iteration or a removal looks into
  next, the node an iteration has found available, an adder has listed or a removal has marked, just before it hands
  it to its callback (`ImageRaces`, three runs). The guard of the iteration and the second check of the adder do not
  prevent it. By `ImageReaders.NoThreadIsStuck` these are the only ways in which a thread can follow a dangling
  pointer, and by `ImageScan.NoReaderIsLost` none of them is possible for a thread while no stop cuts the list.
- `StackBounds::contains` keeps a frame inside the stack exactly when the start of the stack is at least one frame
  above zero.
- The flag that `backtrace` sets is documented to be false only when the depth was too small. It also stays false at
  an unreadable frame (`StackWalk.UnreadableFirstFrame`), and it is not written at all when no walk takes place.
- A start whose thread cannot be created leaves isSampling set, so that later starts do nothing until a stop
  (`Sampler.FailedCreationLasts`). That stop cancels and joins a thread that does not exist
  (`Sampler.StopGoesAstrayIff`); if the two calls return, the sampler works again (`Sampler.RecoversFromFailedStart`).
- A refused resume leaves its thread suspended (`SamplingProtocol.RefusedThreadStaysSuspended`); the code does not look
  at the result. Every suspension of a pass is
  undone if and only if the kernel refuses no resume (`SamplingProtocol.SuspensionsAreBracketed`).
- Each start of the sampler puts one alarm into circulation for good: after n starts without a failing alarm call
  n alarms circulate (`Sampler.RestartAddsAnAlarm` is a run with two).
- The budget of the introspection is exceeded by up to nine objects, and for every budget of at least two some
  graph does so.
- A crash in the middle of an update of the thread names can show a thread under another's name: between two swaps
  the new handles stand beside the old names (`ThreadNames.CrashBetweenSwaps`, `ThreadNames.PairedAnswerIsRightIff`).
- An unfreeze with nothing to undo, interrupted between its two steps, can make a later, matching unfreeze have no
  effect, so that the thread-name cache stays frozen (`FreezeProtocol.FreezeCanGetStuck`). Every unfreeze takes effect
  if and only if at no point more unfreezes have begun than freezes (`FreezeProtocol.UnfreezesTakeEffectIff`).
- Configuring breadcrumbs is safe against a crash at every step exactly when the new maximum is at most zero; the
  strings of the old ring are not freed. A null from malloc is written through at once. `sentrycrash_scopesync_clear`,
  and so `reset`, keeps the trace context.

## Model

| member | source | states |
|---|---|---|
| ImageHistory.CacheAgreesIff | Sources/SentryCrash/Recording/SentryCrashBinaryImageCache.c:75-151 | for every well-formed loader history, iteration lists exactly the loaded images, in load order, if and only if no address has been unloaded twice |
| ImageHistory.CacheAgreesWhenLoadedOnce | Sources/SentryCrash/Recording/SentryCrashBinaryImageCache.c:75-151 | the cache is exact as long as no address is loaded twice |
| ImageHistory.ReusedAddressGoesStale | Sources/SentryCrash/Recording/SentryCrashBinaryImageCache.c:116-131 | load, unload, load, unload of one address leaves it listed although nothing is loaded |
| ImageHistory.CacheShape | Sources/SentryCrash/Recording/SentryCrashBinaryImageCache.c:75-131 | after any history the nodes at an address are one per load, the first dead if there was an unload, all others alive |
| ImageHistory.ListedMark | Sources/SentryCrash/Recording/SentryCrashBinaryImageCache.c:116-151 | marking deletes an address from the listing when its only node is the live one, and is invisible when there is none or one dead node |
| ImageCache.Cache.constructor | Sources/SentryCrash/Recording/SentryCrashBinaryImageCache.c:68-73 | the static initial state: stopped, only the unavailable root, no callbacks |
| ImageCache.Cache.Start | Sources/SentryCrash/Recording/SentryCrashBinaryImageCache.c:153-164 | the cache is started and the listing is unchanged, also when it was started before |
| ImageCache.Cache.Added | Sources/SentryCrash/Recording/SentryCrashBinaryImageCache.c:75-114 | a resolved image is appended exactly when the cache is started, and reported once if a callback is registered |
| ImageCache.Cache.Removed | Sources/SentryCrash/Recording/SentryCrashBinaryImageCache.c:116-131 | the list changes as by an unload event; the callback is called exactly when some node has the address |
| ImageCache.Cache.Iterate | Sources/SentryCrash/Recording/SentryCrashBinaryImageCache.c:133-151 | calls back on exactly the available images, in list order |
| ImageCache.Cache.RegisterAddedCallback | Sources/SentryCrash/Recording/SentryCrashBinaryImageCache.c:194-210 | registers the callback and reports every available image at once |
| ImageCache.Cache.RegisterRemovedCallback | Sources/SentryCrash/Recording/SentryCrashBinaryImageCache.c:212-216 | registers the callback and leaves the list alone |
| ImageCache.Cache.Stop | Sources/SentryCrash/Recording/SentryCrashBinaryImageCache.c:172-192 | the list is cut down to the root, every node that was listed is freed once, in list order, and the cache is stopped |
| ImageCache.Replay | Sources/SentryCrash/Recording/SentryCrashBinaryImageCache.c:75-170 | start, any well-formed history and an iteration on the linked list give the loaded images if and only if no address was unloaded twice |
| ImageOwnership.ListAndOwnership | Sources/SentryCrash/Recording/SentryCrashBinaryImageCache.c:75-192 | at every point of every interleaving the list from the root is acyclic, with the mutex free the tail is null over an empty list or its last node, and each allocated node is in exactly one of the list, a stop's hands, one adder's hands, or freed once |
| ImageOwnership.RunInv | Sources/SentryCrash/Recording/SentryCrashBinaryImageCache.c:75-210 | mutual exclusion, the list, the tail, the hands and the conservation of nodes hold in every state of every run |
| ImageReaders.NoThreadIsStuck | Sources/SentryCrash/Recording/SentryCrashBinaryImageCache.c:75-210 | in all interleavings, stops included, a thread without a next step has finished, waits for the mutex, or is a reader, a removal or an adder outside the mutex about to look into a node that a stop has freed, its own callback included; nothing is linked to a stopped cache |
| ImageReaders.NoUseAfterFreeUnderLock | Sources/SentryCrash/Recording/SentryCrashBinaryImageCache.c:100-110 | under the mutex every node read, written or freed is live: the tail is listed, a dropped node belongs to its adder alone, a stop frees only what it cut off, and a registration scans listed nodes |
| ImageReaders.AllStand | Sources/SentryCrash/Recording/SentryCrashBinaryImageCache.c:104-151 | a reader, a removal and an adder past its link always stand at a node that is listed, in a stop's hands, or freed by a stop |
| ImageRaces.ReaderCanBeLeftBehind | Sources/SentryCrash/Recording/SentryCrashBinaryImageCache.c:143-150 | a run in which a stop frees the node that an iteration, past its guard, has found available and is about to call back on |
| ImageRaces.AdderCanBeLeftBehind | Sources/SentryCrash/Recording/SentryCrashBinaryImageCache.c:110-113 | a run in which a stop frees the node that an adder, past its unlock, is about to hand to the callback |
| ImageRaces.RemoverCanBeLeftBehind | Sources/SentryCrash/Recording/SentryCrashBinaryImageCache.c:122-127 | a run in which a stop frees the node that a removal has marked and is about to hand to its callback |
| ImageScan.IterationIsSound | Sources/SentryCrash/Recording/SentryCrashBinaryImageCache.c:133-151 | against any appends, removals, starts and stops, as long as no stop cuts the list while it runs, a lock-free iteration sees a prefix of the list in order, no node twice, reaches every node listed when it began and calls back on those still available |
| ImageScan.CallsOnlyOnAvailable | Sources/SentryCrash/Recording/SentryCrashBinaryImageCache.c:145-150 | in all runs, an iteration or the initial report of a registration calls back on exactly the nodes of its record, each in a step of its own, and had tested each and found it available at that moment |
| ImageScan.FoundWhenTested | Sources/SentryCrash/Recording/SentryCrashBinaryImageCache.c:145-150 | what a pass has found is what was so when it tested the node: unavailable, or available and by now called back on or about to be |
| ImageScan.NoReaderIsLost | Sources/SentryCrash/Recording/SentryCrashBinaryImageCache.c:75-192 | a thread that at some point stands nowhere or at a listed node is never left behind while no stop cuts the list from then on: it stands at a listed node and has a next step, has finished or waits for the mutex |
| ImageScan.NobodyIsLostWithoutStop | Sources/SentryCrash/Recording/SentryCrashBinaryImageCache.c:75-151 | in particular nobody is left behind in a run without a stop |
| ImageScan.RunTracks | Sources/SentryCrash/Recording/SentryCrashBinaryImageCache.c:116-151 | in runs without a stop, every iteration and every removal in progress has passed exactly a prefix of the list, and the list only grows |
| ImageLinearize.StepCommits | Sources/SentryCrash/Recording/SentryCrashBinaryImageCache.c:75-151 | each step of the interleaved cache changes the abstract list by exactly the loader event it commits, if any |
| ImageLinearize.Linearizable | Sources/SentryCrash/Recording/SentryCrashBinaryImageCache.c:75-151 | at every point of every interleaving without a stop the list is what the sequential cache holds after the committed events in commit order; CallCommitsOnce and HistoryIsTheCalls say whose events these are, ImageCalls.LoadsAreTheAdmitted which adds are among them |
| ImageLinearize.CallCommitsOnce | Sources/SentryCrash/Recording/SentryCrashBinaryImageCache.c:75-131 | in all interleavings an add commits its one event when it links its node and a remove when it marks a node or reads the end of the list, and neither commits anything else; which adds come to link is in ImageCalls.AdderFate |
| ImageLinearize.HistoryIsTheCalls | Sources/SentryCrash/Recording/SentryCrashBinaryImageCache.c:75-131 | so each event occurs in the committed history as often as calls for it have taken effect |
| ImageLinearize.ConcurrentCacheAgreesIff | Sources/SentryCrash/Recording/SentryCrashBinaryImageCache.c:75-151 | the available images are the loaded ones, where loaded means by the order of the commits, if and only if no address was unloaded twice in that order |
| ImageCalls.AdderFate | Sources/SentryCrash/Recording/SentryCrashBinaryImageCache.c:75-114 | in all interleavings an ended add has listed a node of its address if and only if it read a set tail at its check, found the image and read a set tail at its recheck, and it has called back if and only if it read a callback |
| ImageCalls.NoAddIsLost | Sources/SentryCrash/Recording/SentryCrashBinaryImageCache.c:78-114 | without a stop, an ended add whose check read a set tail and whose lookup succeeded has a node of its address in the list |
| ImageCalls.LoadsAreTheAdmitted | Sources/SentryCrash/Recording/SentryCrashBinaryImageCache.c:78-114 | without a stop, the committed history holds each load exactly as often as adds of that address passed check and lookup and are past their link or over |
| ImageCalls.RunPromises | Sources/SentryCrash/Recording/SentryCrashBinaryImageCache.c:75-192 | in all interleavings an add is about to free its own node, or to leave without one, only while the tail is null, and to link it or be done only while it is set; a start gives the mutex back with the tail set and a stop with the tail null |
| ImageCalls.RemoverFate | Sources/SentryCrash/Recording/SentryCrashBinaryImageCache.c:116-131 | in all interleavings an ended removal that found its image has marked a node of its address for good and handed it over if and only if it found a callback; one that found none has told nobody |
| ImageRegistration.RegistrationMissesNothing | Sources/SentryCrash/Recording/SentryCrashBinaryImageCache.c:100-113 | with one registration, once it and the adders are through, each listed image was reported or had been found removed by the initial report, and one still available was reported |
| ImageRegistration.ReportsAre | Sources/SentryCrash/Recording/SentryCrashBinaryImageCache.c:100-113 | with one registration and no stop the number of reports of an image is one if the initial report found it available plus one if its adder found the callback set |
| ImageRegistration.ReportedTwiceIff | Sources/SentryCrash/Recording/SentryCrashBinaryImageCache.c:194-210 | never more than two reports, and two if and only if the initial report tested the image while available, its adder looked for the callback after it was set, and both have made their call |
| ImageRaces.CanReportTwice | Sources/SentryCrash/Recording/SentryCrashBinaryImageCache.c:100-113 | a run that reports an image twice: a whole registration between an adder's append and its look at the callback |
| StackWalk.ContainsMeansInside | Sources/Sentry/include/SentryStackBounds.hpp:31-45 | for valid bounds, containment keeps the whole frame strictly inside the stack if and only if the start is at least a frame's size |
| StackWalk.FramesAreSafe | Sources/Sentry/SentryBacktrace.cpp:82-104 | every frame walked is readable, aligned, wholly inside the stack and at least 16 bytes above the one before it |
| StackWalk.WalkIsBounded | Sources/Sentry/SentryBacktrace.cpp:86-104 | the walk visits at most (start - end) / 16 frames on 64-bit targets, whatever memory holds |
| StackWalk.WalkFrames | Sources/Sentry/SentryBacktrace.cpp:86-104 | the frame loop fills the buffer as the full stack prescribes, dereferences only a prefix of the chain, and raises the flag exactly at a chain that ends by itself within the depth |
| StackWalk.Backtrace | Sources/Sentry/SentryBacktrace.cpp:40-110 | the buffer is the full stack with skip dropped, cut to the depth and mapped to previous instructions; the flag says whether the complete chain fitted; without a walk nothing is reported and the flag is untouched |
| StackWalk.UnreadableFirstFrame | Sources/Sentry/SentryBacktrace.cpp:82-109 | with room for 127 more frames an unreadable first frame leaves the flag false |
| StackWalk.BacktraceOfLaidOutStack | Sources/Sentry/SentryBacktrace.cpp:40-110 | on memory in which each frame holds the next frame's address and, one word above, a return address, the last word being no higher valid frame, the result is the program counter, the link register if it looks like a frame and the return addresses in order, without the first skip, cut to the depth, each moved to the instruction before by arithmetic on the word; the flag is raised exactly when all of them fit |
| StackWalk.SomeLaidOutStack | Sources/Sentry/include/SentryStackFrame.hpp:18-23 | on every architecture there is such a stack |
| ThreadMetadata.ThreadMetadataCache.MetadataForThread | Sources/Sentry/SentryThreadMetadataCache.cpp:27-63 | answers from the first entry of the handle, or learns one unless the priority failed |
| ThreadMetadata.StableMemo | Sources/Sentry/SentryThreadMetadataCache.cpp:27-63 | over any sequence of lookups: at most one entry per handle, none changes, no failed priority is stored, names have at most 100 characters |
| ThreadMetadata.FirstLookupDecides | Sources/Sentry/SentryThreadMetadataCache.cpp:27-63 | the first successful lookup of a handle decides every later one |
| ThreadMetadata.LookUpAfter | Sources/Sentry/SentryThreadMetadataCache.cpp:27-63 | after any lookups a thread is answered with the handle, the name cut to 100 characters and the priority that the system gave when the priority could first be had, with zeros if that name begins with io.sentry, and with priority -1 if it never could |
| ThreadMetadata.LookupIsTheThreads | Sources/Sentry/SentryThreadMetadataCache.cpp:27-63 | the same of the cache as a sequence of entries |
| SamplingPass.ThreadHandle.Destroy | Sources/Sentry/SentryThreadHandle.cpp:28-35 | gives the port back exactly when the handle owns it |
| SamplingPass.ThreadHandle.PthreadHandle | Sources/Sentry/SentryThreadHandle.cpp:237-253 | asks the system until the thread is known, never after |
| SamplingPass.ThreadHandle.StackBounds | Sources/Sentry/SentryThreadHandle.cpp:201-211 | the bounds of a known thread in machine words, invalid bounds for an unknown one |
| SamplingPass.ThreadHandle.Suspend | Sources/Sentry/SentryThreadHandle.cpp:213-220 | succeeds only on a real handle that the kernel suspends |
| SamplingPass.ThreadHandle.Resume | Sources/Sentry/SentryThreadHandle.cpp:222-229 | succeeds on a real handle exactly when the kernel resumes it |
| SamplingPass.AllExcludingCurrent | Sources/Sentry/SentryThreadHandle.cpp:63-86 | one owning handle per listed thread but the calling one, whose reference is given back at once; none if the listing fails |
| SamplingPass.Metadata | Sources/Sentry/SentryThreadMetadataCache.cpp:27-63 | a lookup asks the system only on a miss, and for the name only when there is a priority |
| SamplingPass.WalkThread | Sources/Sentry/SentryBacktrace.cpp:157-177 | suspend, walk and resume, and a report exactly of a complete stack that fits |
| SamplingPass.VisitThread | Sources/Sentry/SentryBacktrace.cpp:117-178 | the calls made for one thread and what the cache learns |
| SamplingPass.EnumerateBacktraces | Sources/Sentry/SentryBacktrace.cpp:112-179 | the trace of a whole pass is that of the specification, on which the properties below are proved |
| SamplingProtocol.SuspensionsAreBracketed | Sources/Sentry/SentryBacktrace.cpp:135-170 | at every point of a pass at most one thread is between suspend and resume, nothing but the walk happens while one is, every suspend is followed by exactly one call of resume, and all suspensions are undone if and only if the kernel refuses none |
| SamplingProtocol.NobodyStaysSuspended | Sources/Sentry/SentryBacktrace.cpp:135-170 | when resumes succeed at most one thread is suspended at any point, none while a callback or a lookup runs, and none in the end |
| SamplingProtocol.RefusedThreadStaysSuspended | Sources/Sentry/SentryBacktrace.cpp:157-166 | a thread that a pass suspends is left suspended if and only if the kernel refuses to resume it |
| SamplingProtocol.SomeThreadIsWalked | Sources/Sentry/SentryBacktrace.cpp:117-166 | such a thread, its resume refused, exists for every port |
| SamplingProtocol.PortsAreBalanced | Sources/Sentry/SentryThreadHandle.cpp:28-86 | over a pass every port reference handed out is given back |
| SamplingProtocol.AtMostOneReportEach | Sources/Sentry/SentryBacktrace.cpp:117-178 | each listed thread is reported at most once and the sampling thread never; ReportsAreDue gives the exact reports |
| SamplingProtocol.ReportsAreDue | Sources/Sentry/SentryBacktrace.cpp:117-178 | from the kernel's answers, exactly which reports a pass makes and in which order: one idle report per other thread that does not run; one with the whole stack per running thread that is not the profiler's own, is suspended, has readable state, valid bounds and a complete stack of at most 128 addresses; none otherwise. Each running thread is looked up once, and suspended exactly when it is not the profiler's own and the kernel agrees |
| SamplingProtocol.ReportedStacksAreComplete | Sources/Sentry/SentryBacktrace.cpp:161-177 | a report for a thread that is not idle holds its complete chain, nothing left out |
| SamplingProtocol.OwnThreadsAreNeverSuspended | Sources/Sentry/SentryBacktrace.cpp:128-133 | a thread found to be the profiler's own is never suspended in any number of later passes |
| SamplingProtocol.FirstLookupFindsOwnThread | Sources/Sentry/SentryThreadMetadataCache.cpp:14-52 | the first successful lookup of a thread named with the prefix io.sentry makes it an own thread, and that visit does not suspend it |
| SamplingProtocol.OwnThreadsAreSparedFromFirstLookup | Sources/Sentry/SentryBacktrace.cpp:117-178 | from the first successful lookup of a thread named with the prefix io.sentry on, nothing in the rest of that pass or in any number of later passes suspends it |
| Sampler.OneLiveThread | Sources/Sentry/SentrySamplingProfiler.cpp:114-167 | over all interleavings of starts and stops at most one sampling thread is alive, it is the latest, and isSampling is set while it is |
| Sampler.CountsTheCurrentSession | Sources/Sentry/SentrySamplingProfiler.cpp:122-167 | with the mutex free the sample count is the latest session's alone, zero if its thread could not be created, and after a completed stop no sampling thread is left |
| Sampler.CallsDoTheirWork | Sources/Sentry/SentrySamplingProfiler.cpp:122-167 | a start about to give the mutex back has left the flag up, with its session open or its creation failed, and a stop has left it down with no thread alive |
| Sampler.EachMessageIsSampled | Sources/Sentry/SentrySamplingProfiler.cpp:54-69 | every message a sampling thread takes is followed by exactly one count and sample, unless its alarm cannot be set or it is still on its way there |
| Sampler.NumSamplesIsTheSamples | Sources/Sentry/SentrySamplingProfiler.cpp:67-68 | with the mutex free and no failed creation, numSamples is how often the latest session's thread has gone on to sample |
| Sampler.EndsForAReason | Sources/Sentry/SentrySamplingProfiler.cpp:54-65 | a sampling thread ends once, and only because it was cancelled, a message could not be received or an alarm could not be set |
| Sampler.KeepsSampling | Sources/Sentry/SentrySamplingProfiler.cpp:54-69 | while a session is open with an alarm on its way, every run can be continued to any number of further samples, with as many alarms as before |
| Sampler.FailedCreationLasts | Sources/Sentry/SentrySamplingProfiler.cpp:122-149 | after a failed creation isSampling stays set, nothing is sampled and no start opens a session until a stop lowers the flag |
| Sampler.StopGoesAstrayIff | Sources/Sentry/SentrySamplingProfiler.cpp:154-167 | at its check a stop goes on to cancel and join a thread that does not exist if and only if isSampling was set by a start whose thread could not be created |
| Sampler.RecoversFromFailedStart | Sources/Sentry/SentrySamplingProfiler.cpp:114-167 | a run of a start whose thread cannot be created, a stop whose cancel and join return, and a start that opens a session |
| Sampler.AlarmsAreConserved | Sources/Sentry/SentrySamplingProfiler.cpp:54-69 | alarms and messages never exceed the starts, and together with failed alarm calls equal them |
| Sampler.RestartAddsAnAlarm | Sources/Sentry/SentrySamplingProfiler.cpp:114-167 | a run of start, stop and start that leaves two alarms pending for one live thread |
| Introspection.CheckRestricted | Sources/SentryCrash/Recording/SentryCrashReport.c:595-607 | a class is restricted if and only if its name is in the list |
| Introspection.WriteMemoryContents | Sources/SentryCrash/Recording/SentryCrashReport.c:680-702 | writes the events and leaves the budget of the specification |
| Introspection.WriteObjCObject | Sources/SentryCrash/Recording/SentryCrashReport.c:609-667 | the same for the Objective-C part, and tells whether it accounted for the address |
| Introspection.WriteUnknownObject | Sources/SentryCrash/Recording/SentryCrashReport.c:492-593 | the same for an object's instance variables, tagged pointers included |
| Introspection.WriteIvarList | Sources/SentryCrash/Recording/SentryCrashReport.c:523-590 | the loop over instance variables, which never consults the budget |
| IntrospectionTree.OutputIsTree | Sources/SentryCrash/Recording/SentryCrashReport.c:492-702 | on every graph and budget the output is a tree in which every container, at any depth, holds exactly what the runtime's answers call for: the address; type and class by kind; text, number or date value; the first element under its own address; each of the first ten instance variables in order, a pointer as a container about its own target and a scalar with its own value; the fallback description; and recursion exactly where the budget left is positive, with what is used up accounted for |
| IntrospectionTree.WrittenAre | Sources/SentryCrash/Recording/SentryCrashReport.c:523-589 | the instance variables written are exactly those among the first ten with a pointer or scalar encoding, in order |
| Introspection.OutputIsBounded | Sources/SentryCrash/Recording/SentryCrashReport.c:492-702 | on every graph the recursion ends and writes at most nine objects more than its budget, 24 for the default of 15 |
| Introspection.BoundIsReached | Sources/SentryCrash/Recording/SentryCrashReport.c:492-702 | for every budget of at least two some graph reaches that bound |
| Introspection.MemoryIsBracketed | Sources/SentryCrash/Recording/SentryCrashReport.c:514-702 | containers nest perfectly with net depth zero, for every graph, budget and restricted list |
| Introspection.RestrictedInstancesAreLeaves | Sources/SentryCrash/Recording/SentryCrashReport.c:609-702 | an instance of a restricted class is a leaf wherever it appears |
| ThreadNames.ConsistentIsSafe | Sources/SentryCrash/Recording/SentryCrashCachedData.c:205-230 | with the count below every installed length and every string live, no stopped-world lookup can fault |
| ThreadNames.NamesAreRight | Sources/SentryCrash/Recording/SentryCrashCachedData.c:205-230 | at rest a lookup finds the name of the first listed thread with the handle, and no queue name |
| ThreadNames.LookUpAfter | Sources/SentryCrash/Recording/SentryCrashCachedData.c:56-217 | after any updates, the last of which lists ts, a lookup gives the buffer of the first thread in ts with the handle if its pthread is non-zero, its name could be had and the buffer is not empty, and no name otherwise or if no port matches |
| ThreadNames.Cache.Build | Sources/SentryCrash/Recording/SentryCrashCachedData.c:74-89 | the new tables are complete before any reader can see them |
| ThreadNames.Cache.Install | Sources/SentryCrash/Recording/SentryCrashCachedData.c:91-97 | the count and the four pointers are exchanged one store at a time; every world in between is consistent and is one of the stages of an update, the one with new handles beside old names among them |
| ThreadNames.Cache.FreeTables | Sources/SentryCrash/Recording/SentryCrashCachedData.c:99-122 | exactly the blocks of the old tables are freed, without touching what is installed |
| ThreadNames.Cache.UpdateThreadList | Sources/SentryCrash/Recording/SentryCrashCachedData.c:56-128 | at any micro-step no lookup faults and the world is one of the stages of an update; afterwards the cache describes the new listing, each old block has been freed exactly once and each port given back |
| ThreadNames.StagedAnswers | Sources/SentryCrash/Recording/SentryCrashCachedData.c:91-97 | in any stage a lookup answers from the old listing, from the new one, or with the old name at the place of the new handle |
| ThreadNames.PairedAnswerIsRightIff | Sources/SentryCrash/Recording/SentryCrashCachedData.c:91-97 | among handles of one listing and names of another a lookup is right about a thread if and only if both listings have the same name at its place |
| ThreadNames.CrashBetweenSwaps | Sources/SentryCrash/Recording/SentryCrashCachedData.c:93-95 | when one thread takes the place of another in the listing, a crash between the swaps finds it under the other's name |
| ThreadNames.Replay | Sources/SentryCrash/Recording/SentryCrashCachedData.c:56-230 | over any number of updates every micro-step is crash-safe, lookups answer from the last listing, exactly the superseded blocks have been freed, once each, and all ports are given back |
| ThreadNames.Cache.GetThreadName | Sources/SentryCrash/Recording/SentryCrashCachedData.c:205-217 | the lookup loop yields what the specification reads |
| FreezeProtocol.CounterIsExact | Sources/SentryCrash/Recording/SentryCrashCachedData.c:186-203 | in every interleaving the counter is the outstanding freezes less the unfreezes in flight, and it is positive exactly when the former outnumber the latter |
| FreezeProtocol.UnfreezesTakeEffectIff | Sources/SentryCrash/Recording/SentryCrashCachedData.c:186-203 | over whole runs every unfreeze undoes a freeze, with the counter the freezes less the unfreezes begun, if and only if at no point more unfreezes have begun than freezes |
| FreezeProtocol.FreezeCanGetStuck | Sources/SentryCrash/Recording/SentryCrashCachedData.c:186-203 | a run in which the matching unfreeze follows the freeze and the counter still ends at one |
| FreezeProtocol.AtMostOneUpdateWhileFrozen | Sources/SentryCrash/Recording/SentryCrashCachedData.c:130-149 | while the counter stays positive at most one update completes, the one past its check, and none begins |
| FreezeProtocol.MonitorUpdatesIff | Sources/SentryCrash/Recording/SentryCrashCachedData.c:136-147 | a monitor that leaves its test goes to update if and only if the counter is at most zero, and sleeps otherwise |
| FreezeProtocol.HistoryCounts | Sources/SentryCrash/Recording/SentryCrashCachedData.c:130-191 | the recorded freezes are the callers whose freeze is over, and the recorded updates are the times the monitor came out of one |
| FreezeProtocol.CallInTurn | Sources/SentryCrash/Recording/SentryCrashCachedData.c:186-203 | called one at a time the counter is the freezes not yet undone, surplus unfreezes without effect |
| ScopeReport.ConsistentReport | Sources/SentryCrash/Recording/SentryCrashReport.c:1600-1661 | in a consistent world the report touches no bad memory and its breadcrumbs are the non-null slots from the current one around |
| ScopeReport.NonNullIs | Sources/SentryCrash/Recording/SentryCrashReport.c:1646-1653 | a null slot adds nothing to the list and texts are listed as they are |
| ScopeSync.Scope.SetField | Sources/Sentry/SentryScopeSyncC.c:17-29 | one variable takes the new text; every world in between is consistent and differs there alone |
| ScopeSync.Scope.Set | Sources/Sentry/SentryScopeSyncC.c:31-83 | a setter has its meaning and is crash-safe at every micro-step |
| ScopeSync.Scope.AddBreadcrumb | Sources/Sentry/SentryScopeSyncC.c:85-95 | a breadcrumb is added; at every micro-step a crash is harmless and the report keeps the newest breadcrumbs but one, in order |
| ScopeSync.Scope.ClearBreadcrumbs | Sources/Sentry/SentryScopeSyncC.c:97-109 | the ring is emptied, crash-safe at every micro-step |
| ScopeSync.Scope.ConfigureBreadcrumbs | Sources/Sentry/SentryScopeSyncC.c:111-122 | an empty ring of the new size, which keeps nothing when the maximum is negative; crash-safe at every micro-step if and only if the maximum is at most zero, or nothing was allocated before or now; a null from malloc faults unless there is nothing to zero; old strings stay allocated |
| ScopeSync.Scope.Clear | Sources/Sentry/SentryScopeSyncC.c:124-136 | forgets all fields but the trace context, and the breadcrumbs |
| ScopeSync.Scope.Reset | Sources/Sentry/SentryScopeSyncC.c:138-143 | the same, and no breadcrumbs until the next configuration |
| ScopeSync.Scope.WriteScope | Sources/SentryCrash/Recording/SentryCrashReport.c:1600-1661 | the loops of the report write what the mirror prescribes |
| ScopeSync.WindowIsLast | Sources/Sentry/SentryScopeSyncC.c:85-95 | the padded window of the ring holds exactly the last adds |
| ScopeSync.ReportIsExpected | Sources/SentryCrash/Recording/SentryCrashReport.c:1634-1657 | the report is the fields as last set and the non-null entries of the last min(n, maximum) adds, oldest first |
| ScopeSync.ReportsWhatWasLastSet | Sources/Sentry/SentryScopeSyncC.c:31-143 | after any history a text is reported for a field if and only if it is what the field was last set to and no clear or reset has followed, which the trace context survives; no field is reported twice |
| ScopeSync.ReportsTheLastAdds | Sources/Sentry/SentryScopeSyncC.c:85-143 | the breadcrumbs reported are the non-null ones among the last so many, as configured, of those added since the last configuration, clearing of breadcrumbs or clear |
| ScopeSync.ReportsNoBreadcrumbs | Sources/Sentry/SentryScopeSyncC.c:85-143 | without a configuration since the beginning or the last reset there are none |
| ScopeSync.ClearForgets | Sources/Sentry/SentryScopeSyncC.c:124-143 | right after a clear or a reset nothing is reported but the trace context |
| ScopeSync.Replay | Sources/Sentry/SentryScopeSyncC.c:11-143 | for every history of operations the report is the one their meaning prescribes |

## Left out

- ImageScan.RunTracks: for runs without a stop; for single passes and threads, what holds while no stop cuts the list is in IterationIsSound and NoReaderIsLost.
- ImageLinearize.Linearizable: for runs without a stop; a stop empties the list and is no loader event.
- ImageRegistration.RegistrationMissesNothing: one registration, of a non-null callback, and no stop; registering null or several callbacks is not modelled.
- ImageProtocol: whether a removal finds a callback is open at every removal.
- ImageCache.Cache.Added: the second check of the tail, which only a concurrent stop can fail, is in ImageProtocol.
- Sampler models starting and stopping on values, as one state machine with the sampling thread, because what matters is their interleaving; what a pass does is in SamplingPass.
- Sampler takes cancelling and joining a thread that does not exist to return or to hang, and to do nothing else.
- SamplingPass.AllExcludingCurrent: the list that is deallocated uninitialised after a failed listing is not modelled.
- SamplingPass takes the kernel's answers about a thread as constant during its visit.
- SamplingPass.VisitThread: a report's timestamp and its thread and queue metadata are not part of the event; ThreadMetadata.LookUpAfter says what the lookup of a visit yields.
- StackWalk.Backtrace: the address of the walker's own frame, used when a thread walks itself, is an arbitrary parameter.
- Introspection takes the order and outcome of every runtime query as given, with at most ten instance variables; scalar values are opaque.
- ThreadNames assumes that allocation succeeds, ScopeSync that copying a string does; stores are seen by the stopped world in program order.
- ThreadNames does not model polling intervals, thread creation or cancellation of the monitor.
- FreezeProtocol counts on unbounded integers, and the sleep in freeze is no synchronisation, so it is not modelled.
- ScopeSync.Scope.ConfigureBreadcrumbs: a positive maximum whose size in bytes does not fit a size_t is not modelled; uninitialised slots count as faults because they may hold anything.
- The JSON encoding behind the writer, the report store, the rest of the report and the Objective-C layers are not part of this model.
- Weak memory ordering is not modelled.
