# Verified models of six experiments

The repository collects independent experiments. Six of them have behaviour that is hard to get right, and
each has its own Dafny modules here.

**Sticker cube and its breadth-first search** (`Cube`, `Levels`, `CubeSearch`; tcube.cpp). A turn overwrites a
48-cell array in place through a table computed at start-up. `RotateFace` is proved to apply one permutation;
the algebra of turns is proved about that permutation, and `Search` is proved to compute the reachable set and
every distance. `Levels` holds the theory of the search for an arbitrary graph. `init_peer_off` calls
`get(.., 3-k)` with `k` in 0..2, so it names the cells 3, 2, 1 of an edge and not 2, 1, 0. The table is
modelled as it is; nothing is claimed about the pieces of a physical cube.

**Tiled matrix product** (`Gemm`, `Sums`, `TiledGemm`; myGEMM.cl, topencl.cpp). The work-items of a launch are a
machine whose steps interleave in any order, and a barrier (section 6.12.8 of OpenCL C 1.2) that opens when the
whole work-group has arrived. `add`, `mul` and `zero` are arbitrary, so equality with the naive product
needs no law of arithmetic.

**Thread pool and future pipeline** (`ThreadPool`, `Pipeline`; thread_pool.h, tthreads.cpp). What a thread does
under the mutex is a method of class `Pool`. Around it, threads are a machine with spurious wakeups (section
30.5.1 of ISO C++11), notifications after the unlock, and a stopper. `Pipeline` is `test4`: two one-worker
pools and tasks that wait for each other's futures.

**Blocking queue** (`BlockingQueue`, `QueueClient`; thread_queue.h, tthreads.cpp). Class `Queue` holds the
critical sections; any number of filtered consumers and producers surround it. `QueueClient` is `test2`.

**Modesetting** (`Modeset`; tdrm1.c). Class `Program` is the program, class `Kernel` an abstract kernel in which
every call that may fail fails at will. `asked`, `sets` and `failures` are ghost logs of what the kernel was asked and answered.

**Streams and buffers** (`Streams`, `Tst1`, `Descriptors`, `ReadAhead`, `ReverseBuffer`, `GlyphBlend`; tipc.cpp,
SocketHelper.cpp, kernel_module/hello.c, ft2wrap.h). Transfer loops run against an arbitrary finite schedule of
short transfers, interruptions, failures and closing; the character device is a machine of readers and
writers; drawing works in place on an image.

In the machines, a state with the property `Reachable` is one that some sequence of events leads to, for any
number of threads. All theorems about them are about every such state or every such sequence.

## What the proofs found

- A CRTC whose id is 2^31 or more is never allocated, because `-1` in an `int32_t` means "taken"
  (`Modeset.ExhaustedIff`, `LargeIdIsNeverUsed`).
- `modeset_cleanup` dereferences the saved CRTC also when saving it failed. `Modeset.Program.Run` returns
  `crashed` exactly if a save failed. Otherwise every CRTC is as before if and only if each one that was set and
  could not be set back had been off.
- A pool is left with tasks after the join exactly when tasks came in after all workers had gone
  (`ThreadPool.JoinDrains`, `LateTaskIsLeft`); `Disciplined` is a rule for callers that excludes it.
- In a pool of any size, workers whose tasks enqueue can all wait for room that only they could make, and `stop_all` does not wake
  them, since it notifies the other condition variable (`WorkersCanDeadlock`, `StopDoesNotWakeThem`). It cannot
  happen if tasks do not enqueue (`OutsidersNeverDeadlock`).
- Tiles cover `TS * (K / TS)` terms. The rest is dropped, so the result is right if and only if `TS` divides
  `K` (`WholeProductIfDivisible`, `TailIsDropped`).
- `server_tst1` ignores the result of reading the length. With the whole message sent, it throws if and only if
  that read fails, the bytes of the length that came make a positive number, and the chunk read next, which
  begins inside the length, arrives and is wrong (`MessageThrowsIff`; `FailedLengthThrows` is an instance).
- A client that closes early goes unnoticed from the second chunk on, wherever it stops, because 256 divides the
  chunk size (`ClosingGoesUnnoticed`). In the first chunk it is noticed if and only if the buffer did not hold
  the missing bytes by chance (`ClosingInFirstChunk`).
- `receiveFdsThroughSocket` does not look whether a message carried a descriptor: after one that did not, it
  returns the previous descriptor again for each further message (`Descriptors.BareRepeats`).
- A `copy_from_user` that faults leaves the pointers of the device alone, and the next reader may get a mixture
  of two messages. Whatever the fault leaves behind, it does not, if and only if the write is not longer than what
  has been read of the old message, or nothing is left or asked for (`FaultedWriteMixesMessages`;
  `MixtureIsDelivered` is a run in which it happens).
- Blending divides by 256: drawing in the colour of the background darkens each covered channel by one
  (`SameColourFades`).
- A pipe must be read only from the callback: outside it, the queued asynchronous read is served first and the
  ordinary read overtakes its byte, which does no harm if and only if all bytes that overtake it are equal to it
  (`ReadOutsideACallback`).

## Model

| member | source | states |
|---|---|---|
| Cube.Across | tcube.cpp:20-35 | the neighbour over an edge is another face, and never the opposite one |
| Cube.AcrossIsAnInvolution | tcube.cpp:20-41 | the links are symmetric: crossing an edge and crossing back returns to the same side |
| Cube.TableGoesBothWays | tcube.cpp:36-41 | entry by entry, the rows of two faces that share an edge name the cells of each other's side of it |
| Cube.LinkSides | tcube.cpp:20-41 | each of the twelve links fills exactly its own two sides of the table |
| Cube.FillEdge | tcube.cpp:39-40 | writes the three entries of one side and leaves the others |
| Cube.InitPeerOff | tcube.cpp:19-42 | after the loop over the links, entry k of each side of each link is the cell of the other side with id 3 - k, written out in cell numbers |
| Cube.PeerRowIsRow | tcube.cpp:36-42 | the twelve neighbours of a face are pairwise different, none lies on the face, and turning the row moves edge to edge |
| Cube.Reset | tcube.cpp:50-57 | every cell i gets i / 8, the number of its face |
| Cube.ShiftFace | tcube.cpp:61-64 | the overlapping copies turn the face: each of its eight cells takes the value of the second next one round the face, and no other cell changes |
| Cube.ShiftRow | tcube.cpp:66-69 | the twelve neighbours move by three; every other cell keeps its value |
| Cube.RotateFace | tcube.cpp:59-70 | for every content, the in-place turn gives each cell of the face the value of the second next one round the face, each entry of the row that of the third next entry, and leaves all other cells; this is one permutation of the 48 cells |
| Cube.TurnWrittenOut | tcube.cpp:59-70 | the permutation on which the algebra of turns rests does exactly that |
| Cube.PermutationCycles | tcube.cpp:59-70 | that permutation consists of the cycles on the face and on its row of neighbours, and fixes the rest |
| Cube.StagesMakeTurn | tcube.cpp:59-70 | the two stages of the turn together are the permutation |
| Cube.FourTurns | tcube.cpp:59-70 | four turns of a face restore every state |
| Cube.DisjointTurnsCommute | tcube.cpp:59-70 | two turns that touch no common cell commute |
| Cube.OppositeTurnsCommute | tcube.cpp:20-41 | turns of opposite faces commute on every state |
| Cube.TurnNeverAddsColour | tcube.cpp:59-70 | a turn does not raise the number of even, or of odd, cells with a colour |
| Cube.TurnKeepsCensus | tcube.cpp:59-70 | the numbers of even and of odd cells of every colour are the same after a turn |
| Cube.SolvedCensus | tcube.cpp:50-57 | the solved cube has each colour on four even and four odd cells |
| Cube.LessIsATotalOrder | tcube.cpp:73-80 | the comparison is a strict total order whose ties are equal states, as std::set needs |
| Cube.LessIsLexicographic | tcube.cpp:73-80 | the first cell at which two states differ decides, as in memcmp |
| CubeSearch.InverseUndoes | tcube.cpp:59-70 | every sequence of turns has an inverse sequence |
| CubeSearch.ReachabilityIsSymmetric | tcube.cpp:59-70 | one state reaches another exactly when the other reaches it |
| CubeSearch.ReachableCensus | tcube.cpp:59-89 | every state reachable from the solved cube has each colour on four even and four odd cells |
| CubeSearch.Search | tcube.cpp:83-130 | from any root the search ends; the visited set is the reachable set; level d lists exactly the states at distance d, without duplicates; nothing lies beyond the last level; and the printed counts are those of the levels and of the ball |
| CubeSearch.Sweep | tcube.cpp:89-129 | the outer loop: at its head the current buffer lists level d and the visited set is the ball of radius d; it stops at an empty level |
| CubeSearch.SweepLevel | tcube.cpp:95-129 | one turn of the outer loop keeps what holds at its head, and records the level and the printed line |
| CubeSearch.ExpandLevel | tcube.cpp:97-126 | one turn of the outer loop takes the ball of radius d to that of radius d+1 and fills the other buffer with the next level |
| CubeSearch.Expand | tcube.cpp:110-121 | the six turns of one state enter the visited set, and the new ones are listed once |
| CubeSearch.Derive | tcube.cpp:114-115 | the copy that is turned: a move of the search is the turn of that face, cell by cell, and leaves the original alone |
| CubeSearch.SearchEnds | tcube.cpp:95-130 | an empty level means that the visited set is everything reachable |
| Levels.BallIsWords | tcube.cpp:105-125 | repeated expansion from the root reaches exactly the states with a word of at most n moves |
| Levels.LevelIsDistance | tcube.cpp:117-119 | the states that are new in step n are those whose shortest word has n moves |
| Levels.LevelDone | tcube.cpp:105-125 | expanding all states of level d completes the ball of radius d+1 |
| Levels.VisitedMore | tcube.cpp:107-121 | expanding one more state of the level adds that state and its neighbours and nothing else |
| Levels.EmptyLevelEnds | tcube.cpp:95 | once a level is empty the ball is closed under moves and holds all reachable states |
| Levels.NothingBeyond | tcube.cpp:95 | no state has a distance beyond an empty level |
| Gemm.CellsAreDistinct | topencl.cpp:210-224 | column-major addresses of different cells differ |
| Gemm.CellHasOwner | topencl.cpp:210-224 | every address of the result belongs to one row and column |
| Gemm.ElementsAre | topencl.cpp:222 | both operands lie column by column: A(row, k) is at k * M + row and B(k, col) at col * K + k |
| Gemm.ProductsAre | topencl.cpp:222 | term k of a cell is A[k * M + row] times B[col * K + k], in array positions |
| Gemm.DotIsFold | topencl.cpp:218-224 | the accumulation of a cell is the left fold of these products, for any addition and multiplication |
| Gemm.MatMult | topencl.cpp:216-227 | every cell `col * M + row` of the result is the left fold, in order of k, of the products in `Products`; all cells are written |
| Gemm.MatCmp | topencl.cpp:229-239 | the error count is the number of places at which the two results differ; it is zero exactly if the results are equal |
| Gemm.MyGemm1 | myGEMM.cl:47-64 | the naive kernel writes that same fold to `globalCol * M + globalRow` and nowhere else |
| Gemm.DotOfOnes | topencl.cpp:220-224 | the fold over terms equal to one counts them |
| TiledGemm.WholeTiles | myGEMM.cl:189 | the tiles cover no more than K terms, and all of them exactly when TS divides K |
| TiledGemm.OutCellsAreDistinct | myGEMM.cl:178-179 | no two work-items of the launch write the same cell |
| TiledGemm.OneWriterPerCell | myGEMM.cl:195-196 | each cell of the two tiles is written by exactly one item of its group |
| TiledGemm.GroupsAreIndependent | myGEMM.cl:199 | a barrier is of one work-group: whether an item can go on depends on the items of its own group alone |
| TiledGemm.TilesAreFull | myGEMM.cl:193-208 | while an item multiplies, every tile cell holds the element of A or B of that tile |
| TiledGemm.MacReads | myGEMM.cl:202-204 | one multiplication step adds exactly the next term of the naive product |
| TiledGemm.OneBarrierApart | myGEMM.cl:181-208 | in every reachable state two items of a group are at most one barrier apart |
| TiledGemm.NoRace | myGEMM.cl:193-208 | while one item may read the tiles no other item of the group is about to write them, and both tiles hold the current tile |
| TiledGemm.TiledMatchesNaive | myGEMM.cl:170-212 | for every interleaving, when all items have finished each cell holds the fold of the first TS*(K/TS) products and was written exactly once, and nothing outside the matrix was written |
| TiledGemm.TiledWrittenOut | myGEMM.cl:170-212 | the same in array positions: `col * M + row` is written once and holds the left fold of the first TS*(K/TS) products A[k * M + row] * B[col * K + k], of all K if TS divides K |
| TiledGemm.WholeProductIfDivisible | myGEMM.cl:170-212 | if TS divides K the result is the naive product |
| TiledGemm.TailIsDropped | myGEMM.cl:189 | if TS does not divide K the result is wrong already for matrices of ones |
| TiledGemm.NeverStuck | myGEMM.cl:199-207 | the barriers never deadlock: unless all items have finished one can step |
| TiledGemm.TileWorkIsProduct | myGEMM.cl:190-208 | what is left of an item's loops is the number of tiles left times the steps of one tile |
| TiledGemm.RunsAreBounded | myGEMM.cl:190-211 | every schedule ends: each step uses up one of the finitely many steps |
| ThreadPool.Pool.FetchSection | thread_pool.h:79-88 | sleeps when there is nothing to do and no stop, leaves when stopped and empty, and otherwise takes the oldest task |
| ThreadPool.Pool.EnqueueSection | thread_pool.h:107-123 | appends the task if stopped or below the limit, and otherwise changes nothing and waits |
| ThreadPool.Pool.SetStop | thread_pool.h:131-134 | sets the flag and keeps the queue |
| ThreadPool.NoLostWakeup | thread_pool.h:79-88 | while a worker sleeps, awake workers and notifications still owed cover the queue; a producer sleeps only on a full queue; after the stop a worker sleeps only until the broadcast |
| ThreadPool.StartsInOrder | thread_pool.h:84-90 | tasks start in the order of enqueueing, none twice; the queue keeps its limit before the stop |
| ThreadPool.PushedIsCalled | thread_pool.h:98-126 | in every run, the tasks enqueued and those that callers inside enqueue still carry are, as a multiset, the tasks enqueue was called with |
| ThreadPool.PushesItsOwn | thread_pool.h:107-122 | each thread enqueues the task of its own last call, however long it has waited for room |
| ThreadPool.RestMeansDone | thread_pool.h:79-124 | with at least one worker and a limit of at least one: a state in which nothing can happen has no task left that a worker could still take, or all workers sleep in their own enqueue on a full queue |
| ThreadPool.JoinDrains | thread_pool.h:140-151 | after the joins the queue is empty exactly when no task came after the last worker had gone, and then every task ran once |
| ThreadPool.DisciplineLeavesNoStrays | thread_pool.h:116-122 | if after the stop only running tasks enqueue, no task comes too late |
| ThreadPool.DisciplinedJoinDrains | thread_pool.h:128-151 | so under that rule the joins leave an empty queue and every task ran exactly once |
| ThreadPool.LateTaskIsLeft | thread_pool.h:116-122 | a run in which a task enqueued after the last worker has gone is still queued after the join |
| ThreadPool.WorkersCanDeadlock | thread_pool.h:107-122 | for every number of workers and every limit of at least one: a run after which every worker sleeps in its own enqueue and no event but a spurious wakeup, an outside call or the stop is possible |
| ThreadPool.StopDoesNotWakeThem | thread_pool.h:140-148 | from there a stop and its broadcast leave all workers asleep, and the join cannot return |
| ThreadPool.WorkersNeverWait | thread_pool.h:120 | if tasks do not enqueue tasks, no worker is ever inside enqueue |
| ThreadPool.OutsidersNeverDeadlock | thread_pool.h:79-124 | so under that rule, for any number of workers and any limit, both at least one, a state in which nothing can happen has no producer waiting and no task left but those that came too late |
| ThreadPool.RunsAreBounded | thread_pool.h:72-126 | for any number of threads, a run without new calls is bounded by the work left and two steps per spurious wakeup |
| ThreadPool.JoinReturns | thread_pool.h:140-148 | from the stop on, without new calls, such a run is bounded, and until the join has returned a step is possible, unless all workers sleep in their own enqueue |
| Pipeline.NeverStuck | tthreads.cpp:236-268 | for any number of frames and any work limits from one up, some thread can step until the last future has been read and the pools are gone |
| Pipeline.TracksRunInFrameOrder | tthreads.cpp:182-206 | the k-th call of track is for frame k with id k, and has seen its detection |
| Pipeline.LastFutureMeansAllDone | tthreads.cpp:268 | when the last future is ready, every track has run, in frame order, a detect has run for exactly the frames below the number of frames that are divisible by four, and both queues are empty |
| Pipeline.MainWaitsForAll | tthreads.cpp:268-270 | main begins to stop the pools only after the last future is ready, and when it is done both workers have returned |
| Pipeline.StepsLower | tthreads.cpp:254-268 | every step other than a spurious wakeup brings the end closer |
| Pipeline.PipelineFinishes | tthreads.cpp:236-268 | hence every run has at most 24 + 22 steps per frame and two for each spurious wakeup |
| BlockingQueue.FirstMatch | thread_queue.h:30-31 | the first element the filter accepts, or the end |
| BlockingQueue.Queue.Scan | thread_queue.h:28-37 | the loop in the wait predicate finds it |
| BlockingQueue.Queue.GetSection | thread_queue.h:20-51 | takes the first match and keeps the order of the others, gives up when closed without a match, and otherwise waits with nothing changed; unless it waits, the high-water mark rises to the length it found |
| BlockingQueue.Queue.PutSection | thread_queue.h:58-73 | appends exactly if the size is below the limit read as an unsigned 64-bit size; otherwise a call that does not block is refused and one that does waits |
| BlockingQueue.Queue.Close | thread_queue.h:75-80 | only sets the flag |
| BlockingQueue.NothingLostOrDuplicated | thread_queue.h:20-73 | items got and items queued are together the items put; the queue is a subsequence of the puts and within its limit |
| BlockingQueue.EachConsumerSeesPutOrder | thread_queue.h:28-45 | a consumer receives only matching items, in increasing order of their puts |
| BlockingQueue.PutsItsOwn | thread_queue.h:58-73 | a producer stores the value of its own last call behind all others as soon as it finds room; without room it waits if that call was blocking, and otherwise returns with nothing changed |
| BlockingQueue.EveryCallIsAccountedFor | thread_queue.h:58-73 | in every run, calls of put = values stored + calls still inside put + refusals, each of a call that did not block on a full queue |
| BlockingQueue.MaxSizeIsPeak | thread_queue.h:39 | over every run, max_size is the longest queue that a get found when it took something or gave up |
| BlockingQueue.CountersAreOwn | tthreads.cpp:82 | in every reachable state, the counter of consumer i is the number of removals that consumer i made |
| BlockingQueue.UnfilteredIsFifo | thread_queue.h:53-56 | without filters, what was got and then what is queued is exactly the sequence of puts |
| BlockingQueue.NoLostWakeup | thread_queue.h:25-70 | a sleeping consumer has no matching item and an open queue; a sleeping producer has a full queue |
| BlockingQueue.RestMeansDone | thread_queue.h:34-42 | when nothing more happens after close, every consumer loop has ended |
| BlockingQueue.RunsAreBounded | thread_queue.h:20-73 | for any number of consumers and producers, a run without new calls is bounded by the work left and two steps per spurious wakeup |
| BlockingQueue.ClosedConsumersEnd | thread_queue.h:34-42 | after close with no later call such a run is bounded, and at each point of it every consumer has ended or can take a step: so every consumer loop ends |
| QueueClient.CountersAddUp | tthreads.cpp:86-101 | after the three joins the counter of each consumer is the number of its own removals, and the counters sum to the number of puts |
| QueueClient.ClientNeverStuck | tthreads.cpp:67-100 | until all threads are joined some real step is possible |
| QueueClient.ClientIsBounded | tthreads.cpp:67-100 | apart from spurious wakeups the client takes a bounded number of steps |
| Modeset.Program.Claim | tdrm1.c:357-370 | accepts a CRTC exactly when no listed device has it and its id fits an int32_t |
| Modeset.BitIs | tdrm1.c:395 | bit j of the mask is set exactly if the mask divided by 2^j is odd |
| Modeset.Program.TryActive | tdrm1.c:350-374 | offers the CRTC the connector shows now, frees the encoder on every path |
| Modeset.Program.ScanCrtcs | tdrm1.c:393-413 | the first CRTC in the order of indices j that is usable and for which `possible_crtcs` divided by 2^j is odd; -1 exactly if there is none |
| Modeset.Program.TryEncoder | tdrm1.c:382-415 | the same for an encoder that may not be retrievable, freed on every path |
| Modeset.Program.TryOthers | tdrm1.c:381-416 | the loop over the encoders: the first usable CRTC of the first encoder that has one, with the encoder calls made |
| Modeset.Program.FindCrtc | tdrm1.c:342-421 | returns exactly the first choice in the program's order, or fails with every compatible CRTC unusable; makes exactly those encoder calls and leaves nothing allocated |
| Modeset.Program.CreateFb | tdrm1.c:448-513 | on success one new buffer, framebuffer and mapping; on any failure the kernel is as before |
| Modeset.Program.SetupDev | tdrm1.c:273-318 | a connected connector with a mode gets its first mode, the chosen CRTC and a framebuffer, or leaves no trace |
| Modeset.Program.Examine | tdrm1.c:207-234 | for one connector, the device structure and the connector are freed whenever the device is not listed |
| Modeset.Program.PrepareOne | tdrm1.c:206-237 | one iteration keeps the ledger: what is live is what was live before and what the list owns, without overlap |
| Modeset.Program.Prepare | tdrm1.c:188-242 | for every pattern of failures the ledger is exact, the resources are freed, each connector's outcome is the greedy one, and exactly one failed call stands behind each connector that was unavailable or got no framebuffer |
| Modeset.SkippedMeansExhausted | tdrm1.c:342-421 | a connector skipped for lack of a CRTC still has every compatible CRTC owned by a listed device (or unusable by its id) in the finished list |
| Modeset.ListedIsCompatible | tdrm1.c:342-421 | every listed device is for a connected connector, shows its first mode, and has a CRTC that was active or allowed by an encoder and that nobody listed before it had |
| Modeset.ExhaustedIff | tdrm1.c:357-413 | a connector gets no CRTC exactly if each one that the bound encoder shows or an encoder's bits allow is owned by a listed device or has an id of 2^31 or more |
| Modeset.LargeIdIsNeverUsed | tdrm1.c:346-370 | a single free and compatible CRTC is refused when its id is 2^31 or more |
| Modeset.ChosenIsCompatible | tdrm1.c:366-411 | what the allocator settles on is usable and compatible |
| Modeset.LedgerCons | tdrm1.c:233-237 | linking a new device extends the ledger; CRTCs and resources in the list stay pairwise distinct |
| Modeset.LedgerTail | tdrm1.c:684-719 | cleaning up the head of the list removes exactly what it owned |
| Modeset.Program.SetOne | tdrm1.c:577-585 | saving and setting one CRTC: what was saved is what the CRTC showed at the start, because no other device has it; the call made and its answer are recorded |
| Modeset.Program.SetAll | tdrm1.c:575-585 | each device in turn is put on its CRTC by one call with its connector, its framebuffer at offset (0, 0) and its mode; a device is on the screen exactly if the kernel agreed |
| Modeset.Program.CleanOne | tdrm1.c:684-719 | sets the CRTC back, with the device's connector, to the picture it had before the program, and releases everything the device owns |
| Modeset.Program.Cleanup | tdrm1.c:684-719 | one restoring call for each device in turn, up to the first that was not saved, where null is dereferenced; if all were saved, everything the list owned is released |
| Modeset.Program.ShowAll | tdrm1.c:574-591 | from a prepared list: the calls that set CRTCs are one for each device and then one back; nothing stays owned; dark are exactly the CRTCs that were set and not set back |
| Modeset.Program.Run | tdrm1.c:550-605 | the whole program: handles, framebuffers, mappings and allocations are as before; the kernel gets exactly one call for each device to set its CRTC and one to set it back; a CRTC ends dark exactly if the first succeeded and the second failed, so all are as before whenever saves and restores succeed; it crashes exactly if a save failed |
| Modeset.NothingFailed | tdrm1.c:206-237 | if no call failed, every connector is unused, without a mode, without a CRTC left, or listed |
| Modeset.RestoredIff | tdrm1.c:684-719 | in terms of the kernel's answers: the picture is as before exactly if every CRTC that was set and not set back was off before |
| Streams.SysRead | tipc.cpp:906-918 | a read call moves at most what is asked for and what is there, and 0 only at the end of a closed connection |
| Streams.AnyPartCanCome | tipc.cpp:906-918 | the schedules leave nothing out: every nonempty part of what is asked for and there can come in one call |
| Streams.ReadsInOrder | tipc.cpp:904-925 | for every schedule, what was read followed by what is left is what was there; complete means every byte asked for |
| Streams.ReadStopsFor | tipc.cpp:905-918 | the loop stops early only at the end of a closed connection or at a hard error; with short transfers and interruptions only, it completes or is still waiting |
| Streams.FirstFailureEnds | tipc.cpp:905-918 | the first failing call ends the loop with its own number and is not repeated; only interruptions and short transfers are passed over |
| Streams.OneReadInOrder | tipc.cpp:905-928 | a single call loses and reorders nothing, and reports the end only on the empty inbox of a closed connection |
| Streams.LoopRepeatsOneRead | tipc.cpp:905-925 | the blocking loop is the one-call form repeated |
| Streams.WriteAll | tipc.cpp:944-958 | the write loop is complete exactly when every byte was accepted, and ends otherwise only on a hard error |
| Streams.FirstWriteFailureEnds | tipc.cpp:945-955 | the first failing call ends the write loop with its own number; only interruptions and short transfers are passed over |
| Streams.SentIsAccepted | tipc.cpp:944-958 | the number of bytes sent is what the calls made have accepted |
| Streams.Connection.ReadLoop | tipc.cpp:904-925 | the loop over the buffer does what the schedule function says, filling the front and keeping the rest |
| Streams.Connection.ReadSome | tipc.cpp:923-928 | with a counter the loop is left after one call: the bytes placed and what is left are what was there |
| Streams.Connection.Read | tipc.cpp:892-932 | argument checks, bytes placed and result; the end of the file gives 0 with fewer bytes |
| Streams.Connection.ReadSocket | SocketHelper.cpp:252-278 | all bytes or 0 at the end of the file or -1; invalid arguments give -1 and change nothing |
| Streams.Connection.WriteLoop | tipc.cpp:944-958 | the bytes leave in order, each once, up to the first hard error |
| Streams.Connection.Write | SocketHelper.cpp:293-316 | the two functions over that loop differ only in what they return |
| Tst1.ToBytes | tipc.cpp:1305-1306 | the four bytes of a length, low byte first, read back as the same length |
| Tst1.ServerTst1 | tipc.cpp:1115-1154 | the server with its buffer does what the function Serve says |
| Tst1.Check | tipc.cpp:1139-1144 | accepts a chunk exactly if every byte is its position modulo 256 |
| Tst1.MessageIsServed | tipc.cpp:1115-1154 | with the whole message sent and the length read without failure: never throws, takes exactly the message, gives up only on a failing call, for every schedule |
| Tst1.MessageThrowsIff | tipc.cpp:1117-1144 | with the whole message sent, for every schedule and every content of the buffer: throws if and only if the length read failed, the length taken is positive, and the next chunk arrives complete and wrong |
| Tst1.LeftoverDecides | tipc.cpp:1125-1144 | after a failed length read only the first chunk matters, since the bytes left over from the length shift everything |
| Tst1.ThrowsIffFirstChunkIsCut | tipc.cpp:1125-1144 | for bytes that are right as far as they go, on every schedule: throws if and only if the connection ends in the first chunk and the rest of the buffer is wrong |
| Tst1.Transfer | tipc.cpp:1115-1317 | client and server together: if no write of the client fails, it finishes, and reading the length does not fail, what it sent in its chunks is served in the server's, on every schedule |
| Tst1.BodyNeverThrows | tipc.cpp:1125-1144 | once the first chunk is complete the server never throws, whatever happens to the connection |
| Tst1.AbortsAtFirstFailure | tipc.cpp:1132-1137 | the loop over the chunks gives up at the first failing read with its number, and for no other reason |
| Tst1.ClosingGoesUnnoticed | tipc.cpp:1130-1144 | from the second chunk on, a connection closed anywhere, also inside a chunk and after any interruptions, is taken for a complete transfer |
| Tst1.ClosingInFirstChunk | tipc.cpp:1130-1144 | a connection closed in the first chunk, after any interruptions, is taken for complete exactly if the buffer already held the missing bytes, and makes the server throw otherwise |
| Tst1.ClosingRead | tipc.cpp:905-925 | on a schedule that closes without a failing call, a read gets all that was sent up to what it asked for, and the end of the file exactly if that was less |
| Tst1.StaleMatches | tipc.cpp:1139-1144 | what the buffer still holds from the chunk before is what should have come |
| Tst1.FailedLengthThrows | tipc.cpp:1118-1119 | the instance of a length of 257 of which one byte came, for every content of the buffer |
| Tst1.Fill | tipc.cpp:1313-1315 | a chunk holds the next counting bytes |
| Tst1.SendChunks | tipc.cpp:1307-1317 | for any chunk sizes, without hard errors the bytes sent are a beginning of the counting bytes, and all of them at the end; a failing write never makes the client give up |
| Tst1.ClientTst1 | tipc.cpp:1305-1317 | length and bytes together are the message that the server expects |
| Descriptors.ReceivesInOrder | SocketHelper.cpp:451-475 | every message is used once and in order, and yields what the control buffer then holds; all descriptors returned are valid; an invalid one is lost and fails the call |
| Descriptors.HeldAt | SocketHelper.cpp:451-473 | the i-th descriptor returned is the content of the control buffer after the i-th message |
| Descriptors.CarriedIsHeld | SocketHelper.cpp:465-471 | if every message so far carried a descriptor, that is the descriptor of the message |
| Descriptors.BareRepeats | SocketHelper.cpp:429-471 | from a message without a descriptor on, it is the last one again, or what the uninitialised buffer held if there was none |
| Descriptors.ReceiveFailsFor | SocketHelper.cpp:457-469 | -1 is returned for the first failing call or for an invalid descriptor, and for nothing else |
| Descriptors.ReceiveFds | SocketHelper.cpp:421-476 | the loop with its argument checks does this, for any first content of the uninitialised control buffer, filling the array from the front |
| Descriptors.SendFds | SocketHelper.cpp:351-404 | every descriptor leaves once, in order, up to the first hard error |
| Descriptors.FirstSendFailureEnds | SocketHelper.cpp:387-400 | each successful call sends one descriptor; interruptions alone are tried again, and the first failing call ends the loop |
| Descriptors.DescriptorsArrive | SocketHelper.cpp:383-475 | valid descriptors that were sent arrive as the same sequence |
| ReadAhead.Pipe.constructor | tipc.cpp:338-373 | a new pipe has an empty cache and no read under way |
| ReadAhead.Pipe.Read | tipc.cpp:432-507 | the cached byte goes first; what is returned followed by what is left is the cached byte and the pipe; the result is 0 when all asked for came, or nothing was available to a read that does not wait, and otherwise the number of the first failing call |
| ReadAhead.Pipe.Fill | tipc.cpp:462-498 | the loop of the read moves bytes in order; it returns 0 when it has all that was asked for, or anything when it does not wait, and fails only with the number of the first failing call, which it does not repeat |
| ReadAhead.Pipe.ReadFile | tipc.cpp:468-492 | one call moves a beginning of the pipe to the right place in the buffer, or moves nothing and reports its own failure or the broken pipe |
| ReadAhead.Pipe.Trigger | tipc.cpp:543-565 | called only with an empty cache and no read under way; afterwards exactly one is |
| ReadAhead.Pipe.Complete | tipc.cpp:338-353 | completing the asynchronous read takes the next byte out of the pipe |
| ReadAhead.Pipe.ServePending | tipc.cpp:543-565 | the asynchronous read, being first in the queue, takes the next byte before a later read gets any |
| ReadAhead.Pipe.Notify | tipc.cpp:327-373 | the program's assertion fires exactly if a byte arrived and the callback reads nothing; otherwise the byte is delivered first and a new read is armed |
| ReadAhead.Pipe.Callback | tipc.cpp:360-371 | any sequence of reads in the callback keeps the bytes in order and starts with the cached one |
| ReadAhead.Pipe.Session | tipc.cpp:327-373 | with at least one read in each callback, what was delivered is at every time a beginning of what was sent, and the assertion never fires |
| ReadAhead.Pipe.ReadOutsideACallback | tipc.cpp:432-507 | for any length, mode and number of bytes available: after the queued read has been served, a read outside the callback keeps the order if and only if no byte has been read ahead or all bytes returned are equal to it |
| ReverseBuffer.Device.constructor | kernel_module/hello.c:49-69 | zeroed data and null pointers |
| ReverseBuffer.Device.TakeOut | kernel_module/hello.c:134-141 | hands out the next bytes, as many as are asked for and left, returns that number and moves the pointer by it; a fault returns -EFAULT and moves nothing |
| ReverseBuffer.Device.PutIn | kernel_module/hello.c:167-173 | the message replaces the beginning of the content byte by byte, and the pointers span it; a fault returns -EFAULT and leaves the pointers but may change the bytes |
| ReverseBuffer.PointersStayInBounds | kernel_module/hello.c:101-185 | data <= read_ptr <= end <= data + size from the first write on, and both null before |
| ReverseBuffer.ResultsFit | kernel_module/hello.c:101-185 | what calls can return: -EFBIG exactly for a write longer than the buffer, otherwise all of it or an error; a read at most what it asked for, never 0 if it asked for something, and -EAGAIN only if it must not wait |
| ReverseBuffer.ReturnsFor | kernel_module/hello.c:107-184 | the cause of every result: a signal, a fault, the length of the write, an empty buffer for a read that must not wait, or else success with the exact count |
| ReverseBuffer.ChunksArePrefixes | kernel_module/hello.c:134-141 | what readers took since a write is a beginning of the message, and with what is left it is the message, unless a later write faulted |
| ReverseBuffer.ReadersNeverSeeMixtures | kernel_module/hello.c:134-173 | in every run whose writes succeed this holds for every message ever written |
| ReverseBuffer.MutexIsReleased | kernel_module/hello.c:107-184 | only the holder releases the mutex, and a call that has returned does not hold it |
| ReverseBuffer.NeverStuck | kernel_module/hello.c:112-132 | some call can go on unless those left sleep on an empty buffer; a read that must not wait never sleeps |
| ReverseBuffer.FaultedWriteMixesMessages | kernel_module/hello.c:167-170 | whatever a faulted write leaves in the buffer, the next reader gets a beginning of the old message if and only if the write is not longer than what has been read, or nothing is read |
| ReverseBuffer.AfterFault | kernel_module/hello.c:134-170 | for given leftovers of a faulted write it does exactly if the bytes it takes are unchanged |
| ReverseBuffer.MixtureIsDelivered | kernel_module/hello.c:101-185 | a run of two writers and a reader in which the reader is handed bytes that are no beginning of the message |
| GlyphBlend.DrawBitmap | ft2wrap.h:161-191 | for every position and size, all accesses are in bounds and every pixel of the image has exactly the blended or the old value |
| GlyphBlend.DrawRow | ft2wrap.h:177-188 | the same for one row of the bitmap |
| GlyphBlend.DrawnWrittenOut | ft2wrap.h:180-186 | for byte colours: where the bitmap has a nonzero byte v, each of the three channels becomes (old * (255 - v) + its own colour * v) / 256; everything else stays |
| GlyphBlend.DivTruncates | ft2wrap.h:184-186 | for colours outside 0..255: the quotient is rounded towards zero, as in C |
| GlyphBlend.OnlyCoveredPixelsChange | ft2wrap.h:164-181 | a pixel that changes lies in the clipped rectangle and has a nonzero alpha |
| GlyphBlend.BlendStaysBetween | ft2wrap.h:184-186 | a channel lies between floor(255*min/256) and the maximum of the old value and the colour, and nothing wraps |
| GlyphBlend.BlendIsNearlyExact | ft2wrap.h:184-186 | dividing by 256 costs at most one |
| GlyphBlend.SameColourFades | ft2wrap.h:184-186 | drawing in the colour that is there loses exactly one, down to zero |
| GlyphBlend.BlendIsMonotone | ft2wrap.h:184-186 | a channel grows with the colour and with what was there |
| GlyphBlend.DisjointGlyphsCommute | ft2wrap.h:161-191 | two glyphs that cover no common pixel of the image give the same image in either order |

## Left out

- tcube.cpp from line 132 on, which is disabled, and all drawing and image loading.
- myGEMM1b and its variant launch, which agrees with the naive product only for square results.
- Rounding of floating-point numbers, timing, and the host program around the kernels.
- TiledGemm.NoRace: local memory is sequentially consistent; visibility is by the barrier's fence only as far as the step order expresses it.
- ThreadPool.RestMeansDone: which tasks enqueue is up to the tasks, so the deadlock of all workers is excluded only by the rule of `OutsidersNeverDeadlock`.
- ThreadPool.JoinReturns: a pool with a work limit of zero, in which nothing can be enqueued before the stop, is excluded, as it is from `RestMeansDone`.
- ThreadPool.DisciplinedJoinDrains: threads outside the pool that enqueue after the stop are excluded by `Disciplined`; `JoinDrains` says what happens without it.
- BlockingQueue.Queue.PutSection: the size of the queue does not wrap; the limit is the only value converted.
- Modeset.Program.FindCrtc: the CRTCs that the driver names are taken to exist, and the shift by a CRTC's index, undefined in C from 32 on, is read as that bit of the mask.
- Modeset.Program.CreateFb: every negative errno is modelled as one value, so only the sign of results matters.
- Modeset.Program.Run: page contents (`modeset_draw`), closing the device, and allocation failure of malloc are not modelled.
- The `DESTROY_DUMB`, `munmap` and `RmFB` calls of tdrm1.c, whose results the program ignores, always succeed here.
- Tst1.ServerTst1: the progress line (tipc.cpp:1146-1151) is not modelled; it divides by zero when a transfer has taken less than a millisecond at its last byte.
- Tst1.SendChunks: the random chunk sizes are an argument; after a hard error, which the program ignores, nothing is claimed about what was sent.
- Streams.Connection.Read: switching the descriptor between blocking and non-blocking mode is not modelled; a call without data answers "again" in both modes.
- ReadAhead.Pipe.Notify: the `on_read` and `on_close` handlers are set, as they are in the program.
- ReadAhead.Pipe.Session: accept, connect and the event loop are not modelled; a write of the peer appears as bytes that become readable.
- Descriptors.ReceiveFds: the control buffer keeps the size the last message left it, as recvmsg documents; truncation flags are not modelled.
- ReverseBuffer.NeverStuck: a woken reader is not guaranteed to get the mutex before others; fairness is not modelled.
- GlyphBlend.DrawBitmap: colours so large that the products overflow an int, and bitmaps with a negative pitch, are not modelled.
- The small demos (ttuple, t5, t6, teigen3test, tchrono, tforward, tdrm2, texcept) and the logging, linking and packaging files.
