# A verified model of an AF_XDP UDP reflector

The program receives Ethernet frames through an AF_XDP socket, swaps the endpoints of UDP
packets in place and sends the same frame back. One polling worker and the kernel pass a fixed
set of UMEM chunks around a cycle:

    free stack -> FILL -> kernel -> RX -> callback -> recycle, or
    TX staging -> TX -> kernel -> completion ring (CQ) -> free stack

Nothing in the program stores who owns a chunk. Ownership follows from 32-bit index arithmetic,
cached copies of shared indices, a local TX reservation and one counter. This project models
that code in Dafny and proves that ownership is exclusive in every state of every run, that what
is sent is exactly what was received and accepted, reflected, and that the start/stop handshake
keeps the control thread and the worker apart.

## How the model is built

- `Protocol.dfy` is the transition system: worker actions taken from the code, kernel actions
  chosen freely, any interleaving. `Invariant.dfy`, `Ownership.dfy` and `Preservation.dfy` prove
  its invariant; `Theorems.dfy` states what follows for every run.
- `Ring.dfy`, `FrameAlloc.dfy`, `Xsk.dfy`, `Transmitter.dfy` and `Receiver.dfy` are the classes
  of the program, with their fields, loops and 32-bit words. Each carries the recorded run of the
  transition system; `Valid()` says that the concrete fields are the last state of that run.
  `Xsk.KernelProgress` lets the kernel take any number of steps. It runs before every access to a
  shared index, a descriptor slot or a frame, so each class method is proved with the kernel
  active between any two such accesses, and every theorem about runs applies to it.
- `Reflector.dfy`, `UdpFrame.dfy`, `Checksums.dfy` and `XdpFilter.dfy` are byte level: the in-place
  reflector, the frames it serves written out field by field, their Internet checksums, and the
  in-kernel classifier.
- `Handshake.dfy` is the two-thread start/stop protocol of `main.cpp`, `Endings.dfy` shows runs of
  it for every number of passes and every way to end, and `Session.dfy` runs the classes in the
  order that `Handshake.SequentialUse` shows to be the only one possible.
- What the outside decides during a pass, the wakeup flags and the results of the wakeup calls, is
  an input (`Wakeup`, `PassEnv`), one per pass; `Receiver.Run` and `Transmitter.DrainUntil` return
  ghost marks, states of the recorded run, between which each pass is specified.
- `MachineWords.dfy` holds 32-bit wrap-around, masking and the power-of-two tests.

## What is assumed of the kernel

These are the guards of the kernel actions in `Protocol.dfy`; nothing else is assumed.

- It consumes a prefix of FILL and of TX, in order, and only published entries.
- It writes only into chunks it took from FILL and has not yet delivered.
- It delivers an RX descriptor only for such a chunk, inside that one chunk, and only into a free
  RX slot.
- It takes a TX descriptor only with a CQ slot set aside for it.
- It completes each taken descriptor once, with the submitted address, in any order.

Each load or store of a shared index is one atomic step. Plain descriptor and frame accesses are
justified by ownership of the slot or chunk at that moment.

## Model

| member | source | states |
|---|---|---|
| `Theorems.ExactlyOneOwner` | include/afxdp/receiver.hpp:119-141 | in every state of every run, also in the middle of a batch, each chunk base is in exactly one of ten places, once; no other address is in any of them |
| `Theorems.FreeFramesAreBases` | include/afxdp/receiver.hpp:126-128 | free stack and FILL together hold distinct, aligned, in-range chunk bases, although RX and CQ return arbitrary addresses inside chunks |
| `Theorems.FreeStackHasRoom` | include/afxdp/frame_alloc.hpp:39-42 | the stack never holds more than the number of frames and has room whenever a frame is about to be recycled or reclaimed, so the assertion in free holds |
| `Theorems.EndToEnd` | include/afxdp/receiver.hpp:115-133 | what the kernel took from TX is, in order and with address and length unchanged, a prefix of the RX descriptors whose callback transferred them; the bytes taken are the reflections of the bytes received and stay so until completion; a frame is declined exactly if the reflector rejects its bytes |
| `Theorems.SentWasReceived` | include/afxdp/transmitter.hpp:55-91 | every packet sent is the reflection of one received frame that was accepted and transferred, at the same descriptor |
| `Theorems.RepliesToTarget` | README.md:32 | if the filter redirected every received frame, every packet ever sent goes to the target address and has valid checksums exactly when the frame it answers had |
| `Theorems.RepliesExchangeEnds` | README.md:32 | every packet ever sent is, field by field, a well-formed UDP frame that was received, with its MAC addresses, IP addresses and ports exchanged |
| `Theorems.OutstandingExact` | include/afxdp/transmitter.hpp:149-150 | the local count equals published TX entries plus kernel-held TX frames plus unreclaimed completions, covers every completion present, and is bounded by TX plus CQ capacity and by the number of frames, at every moment |
| `Theorems.UnreturnedFit` | include/afxdp/transmitter.hpp:84-88 | when staged frames are published, they and the outstanding ones are together no more than the frames there are, so the addition does not overflow |
| `Theorems.HeldIsReceived` | include/afxdp/receiver.hpp:24-25 | until the callback touches it, the frame it borrowed holds the bytes delivered, whatever the kernel does meanwhile |
| `Theorems.CompletionHasRoom` | include/afxdp/transmitter.hpp:95-97 | as long as a descriptor is with the kernel its CQ slot is free, and CQ positions stay ordered within one ring |
| `Theorems.LengthNeverRejected` | main.cpp:361-363 | a reflected frame always has a length the transmitter accepts |
| `Theorems.RefusedOnlyWhenFull` | include/afxdp/transmitter.hpp:69-75 | in every run a refusal happens only with staged plus unconsumed TX entries equal to the ring capacity |
| `Theorems.CallbacksAccounted` | main.cpp:352-375 | every finished callback ended in exactly one of three ways, and the TX log holds as many entries as were transferred |
| `Theorems.DrainedMeansAllReturned` | include/afxdp/transmitter.hpp:115-121 | with everything published, the count is exactly the transferred frames not yet back; at zero the kernel sent all of them, holds none, and the completions are their addresses as a multiset |
| `Theorems.RunGrows` | include/afxdp/ring.hpp:84-126 | over any stretch of a run kernel positions only advance and kernel logs only grow |
| `Preservation.RunInv` | include/afxdp/receiver.hpp:115-155 | bounds, chunk ownership, descriptor placement, TX history and frame contents hold in every state of every run |
| `Preservation.WorkerStepKeeps` | include/afxdp/transmitter.hpp:35-113 | every worker action keeps that invariant |
| `Preservation.KernelStepKeeps` | include/afxdp/receiver.hpp:24-25 | every action the kernel is assumed to take keeps it |
| `MachineWords.AndLowMask` | include/afxdp/ring.hpp:73-74 | masking with capacity minus one is the remainder modulo the capacity |
| `MachineWords.AndHighMask` | include/afxdp/receiver.hpp:72 | masking with the complement of frame size minus one rounds down to a multiple of the frame size |
| `MachineWords.WrapKeepsSlot` | include/afxdp/ring.hpp:73-74 | 32-bit wrap-around does not change the slot of a position |
| `MachineWords.DistanceExact` | include/afxdp/ring.hpp:85-89 | the wrapped difference of two indices at most one ring apart is their exact distance |
| `MachineWords.FreeSpaceExact` | include/afxdp/ring.hpp:112-116 | the wrapped free-space computation is exact |
| `MachineWords.SlotsDiffer` | include/afxdp/ring.hpp:73-74 | positions less than one ring apart never share a slot |
| `MachineWords.SingleBitIsPowerOfTwo` | include/afxdp/common.hpp:89-90 | a number that passes the single-bit test is a power of two |
| `MachineWords.PowerOfTwoHasSingleBit` | include/afxdp/common.hpp:89-90 | every power of two passes it |
| `Rings.Ring.SlotOf` | include/afxdp/ring.hpp:73-74 | the masked slot of a wrapped index is its log position modulo the capacity |
| `Rings.Ring.DescAt` | include/afxdp/ring.hpp:73-74 | reading any position between consumer and last write returns the log entry there |
| `Rings.Ring.WriteDesc` | include/afxdp/ring.hpp:73-74 | writing in the window appends to the log and leaves every entry the peer may still read intact |
| `Rings.Ring.ReadableRange` | include/afxdp/ring.hpp:84-94 | the window starts at the consumer, is reloaded only when the cached one is empty, and is cut to the batch |
| `Rings.Ring.ReleaseConsumedEntries` | include/afxdp/ring.hpp:96-99 | releasing within the window advances the consumer by exactly that many |
| `Rings.Ring.WritableRange` | include/afxdp/ring.hpp:111-121 | the window starts at the unpublished producer index, is reloaded only when too small, and covers exactly the slots known to be released |
| `Rings.Ring.PublishWrittenEntries` | include/afxdp/ring.hpp:123-126 | publishing advances the producer over entries already written |
| `FrameAlloc.FrameAllocator.constructor` | include/afxdp/frame_alloc.hpp:20-25 | the stack starts with the chunk bases in order |
| `FrameAlloc.FrameAllocator.Alloc` | include/afxdp/frame_alloc.hpp:32-37 | pops the top, or reports none exactly when empty |
| `FrameAlloc.FrameAllocator.Free` | include/afxdp/frame_alloc.hpp:39-42 | pushes on top of the unchanged rest |
| `Sockets.CreateXsk` | main.cpp:295-329 | the sizes asserted statically give an initial state of the protocol over empty rings |
| `Sockets.Xsk.KernelProgress` | include/afxdp/xsk.hpp:80-95 | any sequence of kernel actions extends the run and leaves the worker's state alone |
| `Sockets.Xsk.KernelDeliver` | include/afxdp/receiver.hpp:24-25 | a trusted RX descriptor lies in one chunk the kernel owns and appends to RX |
| `Sockets.Xsk.RequestProgress` | include/afxdp/xsk.hpp:81-95 | exactly if the socket is polled or its flag set the call is made and its outcome reported, after any kernel progress; otherwise nothing happens; the worker's state stays the same |
| `Sockets.Xsk.MaskIsBase` | include/afxdp/receiver.hpp:72 | the frame mask maps an address to the base of its chunk |
| `Sockets.Xsk.RecycleFrame` | include/afxdp/receiver.hpp:126-128 | after further kernel steps the descriptor read again from its unreleased RX slot is still the callback's, and its chunk base goes back on the stack |
| `Sockets.Xsk.ReclaimFrame` | include/afxdp/transmitter.hpp:43-45 | a completed address goes back on the stack as its chunk base before its CQ slot is released |
| `Sockets.Xsk.ReflectFrame` | include/afxdp/bench.hpp:144-179 | with kernel steps between the callback's start and the reflector, the decision is about the bytes the callback was given, and only the phase of the held frame changes |
| `Sockets.Xsk.FillOccupancy` | include/afxdp/ring.hpp:102-108 | the two loads, with kernel steps between them, give the published occupancy at the second |
| `Sockets.Xsk.RefillFill` | include/afxdp/xsk.hpp:99-116 | moves exactly min(window at its load, free frames) frames, last freed first, and publishes them together |
| `Transmitters.Transmitter.constructor` | include/afxdp/transmitter.hpp:23-30 | starts with nothing reserved, staged or outstanding, and no errors |
| `Transmitters.Transmitter.Reserve` | include/afxdp/transmitter.hpp:61-71 | the window starts at the unpublished producer index, never moves or shrinks while reserved, and is used up exactly if TX is full at the load |
| `Transmitters.Transmitter.SendInPlace` | include/afxdp/transmitter.hpp:55-81 | for a frame the reflector accepted: success moves it to the end of TX staging; failure leaves it with the caller and means a bad length or a TX ring full at the load; a bad length always fails; a window with room is not loaded again |
| `Transmitters.Transmitter.ReclaimCompletedFrames` | include/afxdp/transmitter.hpp:35-51 | returns the next n completions in order within the budget; n never exceeds the outstanding count; it goes on with completions known before, or else sees all that were there; with budget left it caught up with the index it knows |
| `Transmitters.Transmitter.Publish` | include/afxdp/transmitter.hpp:84-91 | everything staged becomes visible and the reservation ends; the outstanding count stays the exact number and within the number of frames, as it does in every call of the class |
| `Transmitters.Transmitter.NoteWakeup` | include/afxdp/transmitter.hpp:99-108 | errors 4, 11, 16 and 105 are counted, the first other error is kept |
| `Transmitters.NotedMeans` | include/afxdp/transmitter.hpp:99-108 | the closed form in which the error rule is passed on is that rule |
| `Transmitters.Transmitter.KickAndReclaim` | include/afxdp/transmitter.hpp:99-112 | the call is made and its error noted, then what is left of the budget is used; with budget left every completion present is returned |
| `Transmitters.Transmitter.ServiceCompletions` | include/afxdp/transmitter.hpp:93-112 | the first reclaim returns what it knew of or all that was there, the second all that is there then within the rest of one CQ, and in between the kernel is kicked exactly if frames are outstanding |
| `Transmitters.Transmitter.PublishAndServiceTx` | include/afxdp/transmitter.hpp:84-113 | one pass publishes everything staged, returns every completion present at its start even behind a stale cached index, at most one CQ capacity, and kicks exactly if frames are left after the first reclaim, with both error fields as functions of the old ones and the outcome |
| `Transmitters.Transmitter.DrainUntil` | include/afxdp/transmitter.hpp:115-121 | at least one service pass, each as above and recorded, going on exactly until nothing is outstanding or the passes that fit are made; the result is exactly the transferred frames not yet reclaimed; zero means all are back, each once |
| `Receivers.Receiver.constructor` | include/afxdp/receiver.hpp:58-72 | the refill threshold is the given one or half the FILL ring; all counters start at zero |
| `Receivers.Receiver.Strategy` | main.cpp:352-375 | the callback counts each frame once, transfers it or leaves it recyclable, and an accepted frame is refused only with TX full |
| `Receivers.Receiver.HandleFrame` | include/afxdp/receiver.hpp:119-129 | with kernel steps before reading, reflecting, staging and recycling, one batch turn consumes exactly one RX entry and leaves no frame held |
| `Receivers.Receiver.HandleBatch` | include/afxdp/receiver.hpp:119-129 | the batch loop consumes exactly the window |
| `Receivers.Receiver.MaintainFill` | include/afxdp/receiver.hpp:135-141 | with occupancy at the threshold when checked nothing is written; below it FILL is filled to the last slot released when the window was loaded, or until no frame is free; a refill that wrote something is counted |
| `Receivers.Receiver.WakeReceive` | include/afxdp/receiver.hpp:143-152 | a wakeup is considered exactly if nothing came in, FILL was restocked or its flag is set; the first error other than 4, 11 and 16 is kept; the worker's state stays the same |
| `Receivers.Receiver.ProcessRxAndMaintainIo` | include/afxdp/receiver.hpp:115-155 | one pass takes exactly the smaller of the batch and what it knew of, or else of all that was there; publishes everything staged; services the CQ and kicks as above; maintains FILL and wakes the receive side as above |
| `Receivers.PassTakesSomething` | include/afxdp/receiver.hpp:116-117 | a pass that starts with something in RX takes at least one frame |
| `Receivers.Receiver.Run` | include/afxdp/receiver.hpp:89-100 | exactly one pass per answer from outside, each as above, recorded in the run and counted in packets_received; afterwards received = callbacks = unsupported + staged + rejected, staged = submitted, submitted = reclaimed + outstanding |
| `Receivers.Receiver.Conservation` | docs/BENCHMARKING.md:23-29 | the same sums in every state between passes, with staged = submitted + unpublished |
| `Sessions.SizesFit` | main.cpp:47-63 | the program's sizes are 8192 frames of 2048 bytes, rings of 2048 and batches of 64, and meet the conditions of all parts |
| `Sessions.Setup` | main.cpp:329-342 | before the worker exists every FILL slot holds a frame, taken from the top of the stack |
| `Sessions.Serve` | main.cpp:329-534 | for any number of passes and every ending the handshake allows, with a drain or by an early exit without: every pass and the drain do what they promise, all counters add up, what was sent is the reflected transferred part of what was received, and nothing missing means everything sent is back |
| `Sessions.PassFitsHandshake` | include/afxdp/receiver.hpp:115-155 | whatever a receive pass does, the worker of the handshake model can make the same loop turns, before and after the kick, one step each, within its longest wait |
| `Reflector.ReflectAt` | include/afxdp/bench.hpp:163-176 | each byte of the reflected frame comes from the exchanged field or stays in place |
| `Reflector.ReflectTwice` | include/afxdp/bench.hpp:144-179 | reflecting twice restores the frame |
| `Reflector.ReflectKeepsShape` | include/afxdp/bench.hpp:144-161 | a reflected frame is accepted exactly if the original is; bytes outside MAC, address and port fields are unchanged |
| `Reflector.FragmentTest` | include/afxdp/bench.hpp:156-157 | the flag mask admits only the don't-fragment bit |
| `Reflector.ReflectSwap` | include/afxdp/bench.hpp:144-179 | in place: accepted frames become their reflection, rejected ones and all memory around stay unchanged; AcceptsExactly says which are accepted |
| `Reflector.SwapEndpoints` | include/afxdp/bench.hpp:163-176 | the three exchanges through temporaries give the reflection |
| `UdpFrames.AcceptsExactly` | include/afxdp/bench.hpp:146-161 | the reflector accepts exactly the encodings of untagged, unfragmented IPv4/UDP frames with a 20-byte IP header, of 42 to 1514 bytes, trailing padding allowed |
| `UdpFrames.DecodeEncode` | include/afxdp/bench.hpp:146-161 | the fields of an encoded frame are read back unchanged |
| `UdpFrames.AcceptedEncoded` | include/afxdp/bench.hpp:146-161 | every accepted frame is rebuilt from its fields, byte for byte |
| `UdpFrames.ReflectEncoded` | include/afxdp/bench.hpp:163-176 | reflecting an encoded frame gives the encoding with MAC addresses, IP addresses and ports exchanged and all other fields the same |
| `UdpFrames.ChecksumCoverage` | include/afxdp/bench.hpp:177 | what the two checksum sums cover is the IP header, and the pseudo-header with the whole datagram |
| `UdpFrames.ValidExactly` | README.md:32 | a frame's checksums are valid exactly if both fields are the complements of the one's-complement sums of the rest, as a sender computes them, or no UDP checksum was sent |
| `Checksums.OnesSumFolds` | include/afxdp/bench.hpp:177 | the wrap-around sum depends only on the plain sum of the words |
| `Checksums.ReflectKeepsSums` | include/afxdp/bench.hpp:177 | header sum and UDP sum with pseudo-header are unchanged, for every payload, odd lengths included |
| `Checksums.ReflectKeepsValidChecksums` | README.md:32 | checksums are valid after reflection exactly if before |
| `XdpFilter.FilterIp` | bpf/xdp_prog_bpf.c:40-73 | the bounded loop reads only inside the packet, decides as the recursive parser that strips at most two tags, and redirects exactly as RedirectExactly says |
| `XdpFilter.RedirectExactly` | bpf/xdp_prog_bpf.c:44-72 | a frame is redirected exactly if its queue has a socket, there is a target, and behind none, one or two 802.1Q or 802.1ad tags comes a whole IPv4 header with the target as source, in literal bytes |
| `XdpFilter.InsertTagVerdict` | bpf/xdp_prog_bpf.c:50-59 | inserting a tag changes nothing on a frame with at most one tag and gives pass on every other |
| `XdpFilter.ThreeTagsPass` | bpf/xdp_prog_bpf.c:50-61 | three or more tags always pass |
| `XdpFilter.ReflectsToTarget` | bpf/xdp_prog_bpf.c:61-72 | filter and reflector use the same source bytes: an accepted redirected frame is sent to the target |
| `Handshake.RunInv` | main.cpp:386-436 | the handshake invariant holds in every state of every interleaving of control, worker and signal |
| `Handshake.SoleOwner` | main.cpp:386-436 | control and worker never both use the rings; startup is read only once written; a pass has its loader; drain and loader destruction wait for the worker to be gone |
| `Handshake.PassNeedsActivation` | main.cpp:408-436 | a pass begins only after the loader exists, activated by control, with no stop requested |
| `Handshake.Activated` | main.cpp:413-436 | control past activation with no signal pending has activated the worker; a failed preparation means no loader |
| `Handshake.SignalBeforeActivation` | main.cpp:433-436 | after a signal before activation no pass ever begins |
| `Handshake.SignalBeforeLoader` | main.cpp:412-413 | after a signal before control looks for one no loader is ever created |
| `Endings.NormalEnding` | main.cpp:453-541 | for every k there is a run with k passes, a drain and the teardown, ended by a signal or by too many rejections |
| `Endings.ExceptionEnding` | main.cpp:386-391 | for every k there is a run with k passes that an exception in control ends without a drain |
| `Endings.EarlyEnding` | main.cpp:412-428 | a signal during the start, a failed preparation and a failed loader each end a run with no pass |
| `Handshake.SequentialUse` | main.cpp:329-527 | every interleaving uses the rings as set up, k passes, then a drain exactly if there was a worker and control did not leave early, then the teardown |
| `Handshake.PassSteps` | include/afxdp/receiver.hpp:89-155 | the limits cut nothing off: any numbers of frames, of completions before and after the kick, and of FILL entries within them make up a pass |
| `Handshake.StuckMeansDone` | main.cpp:391-436 | no deadlock: no thread can move exactly if the program is done, and then worker and loader are gone |
| `Handshake.StopBoundsRun` | main.cpp:522-527 | after a stop request any run is at most batch + CQ + FILL + drain passes + 18 steps long |
| `Handshake.LeavingBoundsControl` | main.cpp:412-429 | once control is leaving, for whatever reason, its remaining moves are bounded whatever the worker does |
| `Handshake.WaitIsBounded` | main.cpp:412-412 | whenever control waits, the worker can move and every step shortens the wait |
| `Handshake.FairRunsEnd` | main.cpp:391-523 | from signal, failed preparation, failed loader, exception or stop before activation, every run that does not put off control for ever is over within a fixed number of steps |

## Left out

- Socket, mmap, bind and huge-page setup (`Xsk::create`, `MmapRing::create`, `Umem::create`): capacities, sizes and zero initial indices are what `CreateXsk` starts from.
- `XdpLoader`: only the target address, the sockets per queue and whether a loader exists enter the model.
- Move operations of the RAII classes and `PacketView::as`: one-branch facts.
- Timing, sampling and percentile output, argument parsing, printing, run metadata, kernel statistics, CPU pinning and scheduling.
- The `callback_bytes` total and the descriptor's `options` field, which the program always writes as zero.
- The processor's memory model: each shared-index access is one atomic step, and statistics counters are naturals.
- Clocks: the drain deadline and the moment a stop request is seen are numbers of passes; the wakeup flags and the results of wakeup calls are inputs.
- `pause` in the polling loop, which has no effect on the state.
- Handshake.FairRunsEnd: needs the scheduler to let an enabled control thread move within some number of steps; without it the worker could poll for ever before control requests stop.
- Transmitters.Transmitter.SendInPlace: only frames the reflector accepted are sent, as in `main.cpp`; another callback could offer any frame it holds, of any length, and then the length test, which `Theorems.LengthNeverRejected` shows never to fail here, would matter.
- Theorems.RepliesToTarget: takes as a hypothesis that the filter redirected the received frames; that the loader attaches the filter to the right queue is not modelled.
