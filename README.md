# Decode loop of mpi_dec_nt_test, modelled and proved in Dafny

This project models the control logic of the decode thread in the Rockchip
MPP test program `mpi_dec_nt_test`:

- `dec_loop` (test/mpi_dec_nt_test.c:62-267) reads one slot from the
  bitstream reader and applies the end-of-stream rewind policy. It then
  polls the codec engine in a `do { ... } while (1)` loop. That loop handles
  info-change frames (buffer-group renegotiation), counts, dumps and
  checksums real frames, tracks the peak buffer usage, applies the
  termination rules and drives the packet lifecycle.
- the driver `while (!data->loop_end) dec_loop(data);` of `thread_decode`
  (lines 280-281);
- the `MpiDecLoopData` record (lines 32-60), as `dec_nt_decode` initialises
  it (lines 326, 401-409).

The collaborators whose code is not visible are represented by traces of
their answers (module `Events`):

- The reader (`reader_read`) is a `seq<Slot>`; each slot carries its eos flag
  and its size.
- The engine and its neighbours are a `seq<Poll>`, one per pass of the poll
  loop. A Poll holds:
  - the status and frame of `mpi->decode`;
  - the packet's remaining length after the call;
  - the group `dec_buf_mgr_setup` returns;
  - the statuses of the two `mpi->control` calls;
  - the `mpp_buffer_group_usage` sample;
  - the `mpp_time` reading.
- `reader_rewind` is counted in `rewinds`.
- The output and verify sinks are logs of frame indices (`dumped`,
  `verified`).
- Every usage sample is kept in a ghost log, so that the peak can be stated
  against all of them.

Besides `Events`, the project has four modules:

- `LoopSpec` defines one pass (`PollStep`), the poll loop (`Drain`), one call
  (`DecLoop`) and the driver (`Run`) as functions.
- `DecTest` holds the class `MpiDecLoopData`. Its fields are those of the
  record. Its methods `DecLoop` and `ThreadDecode` run the same loops in
  place, following the C code block by block, and are proved equal to the
  functions.
- `LoopProps` proves the properties of a run:
  - the invariant and its corollaries;
  - counting;
  - termination under each sign of `frame_num`;
  - the rewind policy;
  - peak usage.
- `Scenarios` evaluates small concrete runs.

Behaviour reproduced as the code has it:

- The driver drops the status `dec_loop` returns. A failed info-change
  handshake ends only the current call (`Scenarios.FailedHandshakeEndsOnlyTheCall`).
- With `frame_num < 0`, an end-of-stream slot always rewinds the reader
  (line 84). Only an eos frame from the engine can end such a run; the
  interactive stop is not modelled.
- An info-change frame `continue`s past the usage sample and the packet
  check. A packet the engine consumed during that pass is offered again, at
  length 0, on the next pass.
- A real frame is counted and checksummed whatever its `err_info` and
  `discard` flags. It is dumped only when `err_info` is 0; `discard` only
  affects logging.
- `pkt_done` is set exactly when the packet is dropped, so the
  `mpp_assert(pkt_done)` at line 245 is an `assert` in
  `MpiDecLoopData.FinishPass`. The `if (pkt_done) break;` at line 253 is
  always taken, and the `msleep(1)` at line 263 cannot be reached.

A `-1` run over a finite file is not ended by the file's end: line 84
rewinds at every end of stream, and only an eos frame from the engine sets
`loop_end` (`Scenarios.UnboundedRewinds`,
`LoopProps.RunUnboundedEndsOnEosFrame`).

## Model

| member | source | states |
|---|---|---|
| LoopSpec.Initial | test/mpi_dec_nt_test.c:401-409 | The record handed to the thread has `loop_end` clear, no frames counted, no group, and satisfies the run invariant. |
| LoopSpec.ReadSlot | test/mpi_dec_nt_test.c:81-92 | An eos slot rewinds the reader exactly when `frame_num < 0 \|\| frame_num > frame_count`. Otherwise the packet keeps its eos flag and `loop_end` is raised. Nothing else changes. |
| LoopSpec.InfoChangeStep | test/mpi_dec_nt_test.c:128-161 | An info-change frame changes nothing but `frm_grp`. The group is installed exactly when the buffer-group control call succeeds, and the loop goes on exactly when both calls succeed. Otherwise `dec_loop` returns the failing call's non-zero status. |
| LoopSpec.CountFrame | test/mpi_dec_nt_test.c:166-198 | A real frame adds exactly one to `frame_count` and changes only the count, `first_frm` and the sinks. `first_frm` is stamped only if unset. The frame's index is dumped exactly when the output sink is open and `err_info == 0`, and checksummed exactly when the verify sink is open. |
| LoopSpec.SampleUsage | test/mpi_dec_nt_test.c:207-212 | With a group, the sample is appended to the log and the peak becomes the max of the old peak and the sample. Without one, nothing changes. |
| LoopSpec.Offer | test/mpi_dec_nt_test.c:122 | After `mpi->decode`, an offered packet is still offered with the remaining length the engine left. A NULL packet stays NULL. |
| LoopSpec.TakeFrame | test/mpi_dec_nt_test.c:162-212 | A real frame adds exactly one to `frame_count`. It is dumped exactly when the output sink is open and `err_info == 0`, and checksummed whenever the verify sink is open. `first_frm` is stamped only if unset. With a group, the usage sample is logged and the peak becomes the max of the two. |
| LoopSpec.FinishPass | test/mpi_dec_nt_test.c:214-254 | `loop_end` is raised exactly when the frame ends the run, and the call then returns at once. Otherwise a packet with remaining length is re-offered. A consumed or absent packet is dropped, `first_pkt` is stamped if unset, and the loop goes on exactly when `pkt_eos` holds and the pass gave no eos frame. |
| LoopSpec.PollStep | test/mpi_dec_nt_test.c:116-264 | One pass keeps the configuration and reader state. It only grows the count, the peak and the sample log, never overwrites a set timestamp, never clears `loop_end`, and leaves `frm_grp` alone unless the frame is an info change. |
| LoopSpec.Drain | test/mpi_dec_nt_test.c:116-264 | The poll loop consumes at most the passes given, and at least one when it returns. It keeps the monotonicity facts. |
| LoopSpec.DecLoop | test/mpi_dec_nt_test.c:62-267 | A call with a slot either returns or consumes the whole trace. It keeps the monotonicity facts. |
| LoopSpec.Run | test/mpi_dec_nt_test.c:280-281 | The driver stops only when `loop_end` is raised or a trace runs dry. A raised `loop_end` means no call at all. The driver keeps the monotonicity facts. |
| DecTest.MpiDecLoopData.constructor | test/mpi_dec_nt_test.c:401-409 | The object's record equals `Initial`. |
| DecTest.MpiDecLoopData.RenegotiateBuffers | test/mpi_dec_nt_test.c:140-158 | Updates `frm_grp` as `InfoChangeStep` does. Its status is 0 exactly when the loop goes on, and otherwise it is the returned status. |
| DecTest.MpiDecLoopData.TakeFrame | test/mpi_dec_nt_test.c:162-212 | Updates the record in place to `LoopSpec.TakeFrame` of the old record, and reports `frm_eos` and `get_frm`. |
| DecTest.MpiDecLoopData.CountFrame | test/mpi_dec_nt_test.c:166-198 | Updates the record in place to `LoopSpec.CountFrame` of the old record. |
| DecTest.MpiDecLoopData.SampleUsage | test/mpi_dec_nt_test.c:207-212 | Updates the sample log and the peak in place to `LoopSpec.SampleUsage` of the old record. |
| DecTest.MpiDecLoopData.FinishPass | test/mpi_dec_nt_test.c:214-254 | Updates `loop_end` and `first_pkt` in place to `LoopSpec.FinishPass`, and yields its packet and exit. |
| DecTest.MpiDecLoopData.ReadPacket | test/mpi_dec_nt_test.c:76-92 | Takes the next slot and updates the record to `ReadSlot` of the old record. |
| DecTest.MpiDecLoopData.PollOnce | test/mpi_dec_nt_test.c:117-264 | Consumes one pass of the trace and updates the record to `PollStep` of the old record. |
| DecTest.MpiDecLoopData.PollLoop | test/mpi_dec_nt_test.c:116-264 | The `do`-`while` loop leaves the record, the exit and the rest of the trace as `Drain` says. |
| DecTest.MpiDecLoopData.DecLoop | test/mpi_dec_nt_test.c:62-267 | One call leaves the record, the exit and the remaining traces as `LoopSpec.DecLoop` says. |
| DecTest.MpiDecLoopData.ThreadDecode | test/mpi_dec_nt_test.c:280-281 | The driver loop leaves the record and the remaining traces as `Run` says. |
| LoopProps.SeqMaxIsPeak | test/mpi_dec_nt_test.c:207-212 | The running maximum bounds every sample, and a non-empty log contains it. |
| LoopProps.TakeFrameTally | test/mpi_dec_nt_test.c:166-212 | Counting a frame keeps the dumped indices distinct, increasing and below the count. It keeps the checksums one per frame and the peak equal to the max of the samples. |
| LoopProps.PollStepInv | test/mpi_dec_nt_test.c:116-264 | A pass keeps the run invariant. With a positive target, a pass that loops again has not ended the run. |
| LoopProps.DrainInv | test/mpi_dec_nt_test.c:116-264 | The poll loop keeps the run invariant. |
| LoopProps.ReadSlotInv | test/mpi_dec_nt_test.c:83-92 | While more frames are wanted (`frame_num != 0` and the target not reached), an eos slot rewinds once and never raises `loop_end`. With `frame_num == 0` it marks the last packet and never rewinds. |
| LoopProps.DecLoopInv | test/mpi_dec_nt_test.c:62-267 | A `dec_loop` call keeps the run invariant. |
| LoopProps.RunInv | test/mpi_dec_nt_test.c:280-281 | The driver keeps the run invariant. |
| LoopProps.RunReachesTargetExactly | test/mpi_dec_nt_test.c:214-221 | With `frame_num > 0`, a run never counts more than `frame_num` frames, and it has ended exactly when `frame_count == frame_num`. |
| LoopProps.RunPeakUsage | test/mpi_dec_nt_test.c:207-212 | At the end of a run `max_usage` is the maximum of all samples taken, or 0 if none was taken. |
| LoopProps.RunSinks | test/mpi_dec_nt_test.c:191-198 | After a run, an open verify sink holds one checksum per counted frame. Without an output sink nothing was dumped. Dumped frames are distinct, in order, and counted. |
| LoopProps.RunNoOutputNoDump | test/mpi_dec_nt_test.c:192-193 | Without an output sink a run dumps nothing. |
| LoopProps.DrainNoOutputNoDump | test/mpi_dec_nt_test.c:192-193 | Without an output sink the poll loop dumps nothing. |
| LoopProps.DrainCounts | test/mpi_dec_nt_test.c:191 | The poll loop's count grows by exactly the number of real frames among the passes it consumed. |
| LoopProps.DrainStopsAtEndingFrame | test/mpi_dec_nt_test.c:214-230 | If the poll loop raised `loop_end`, its last pass returned a real frame, and the call returned that pass's status. |
| LoopProps.DrainEosTermination | test/mpi_dec_nt_test.c:222-229 | With `frame_num <= 0`, the poll loop raises `loop_end` exactly when it meets an eos real frame. |
| LoopProps.DrainAwaitsEosFrame | test/mpi_dec_nt_test.c:247-251 | With `pkt_eos` set and `frame_num <= 0`, the poll loop returns only on a pass that gave an eos frame, or on an info-change pass whose control call failed. A consumed packet alone does not end the call. |
| LoopProps.DecLoopDrainsLastPacket | test/mpi_dec_nt_test.c:62-267 | With `frame_num == 0`, a call that reads the eos slot raises `loop_end` ("found last packet"). It keeps polling until the eos frame or a failed handshake. |
| LoopProps.DrainCountTermination | test/mpi_dec_nt_test.c:214-221 | With `frame_num > 0`, the poll loop raises `loop_end` exactly when it counted a frame and the count reached `frame_num`. |
| LoopProps.DecLoopCounts | test/mpi_dec_nt_test.c:116-264 | A `dec_loop` call counts exactly the real frames among the passes it consumed. |
| LoopProps.RunCounts | test/mpi_dec_nt_test.c:280-281 | A whole run counts exactly the real frames among all the passes it consumed. |
| LoopProps.DecLoopEos | test/mpi_dec_nt_test.c:81-92 | With `frame_num <= 0`, a call ends the run exactly on an eos slot under `frame_num == 0` or an eos frame. It rewinds once for an eos slot under `frame_num < 0`. |
| LoopProps.RunEosEnd | test/mpi_dec_nt_test.c:280-281 | With `frame_num <= 0`, a run ends exactly when it read an eos slot under `frame_num == 0` or the engine returned an eos frame. |
| LoopProps.RunRewinds | test/mpi_dec_nt_test.c:83-87 | With `frame_num < 0`, a run rewinds the reader once per eos slot read. With `frame_num == 0` it never rewinds. |
| LoopProps.RunRewindsPositive | test/mpi_dec_nt_test.c:83-87 | With `frame_num > 0`, a run rewinds the reader exactly once per eos slot it reads. Because each read happens while the target is still pending, every eos slot read rewinds. |
| LoopProps.RunUnboundedEndsOnEosFrame | test/mpi_dec_nt_test.c:84-87 | With `frame_num == -1`, a run ends exactly on an eos frame. The reader is rewound once per eos slot read. |
| Scenarios.LoopsToTarget | test/mpi_dec_nt_test.c:83-92 | Three slots with eos on the third and a target of 5: one rewind, exactly 5 frames, all dumped and checksummed. |
| Scenarios.UnboundedRewinds | test/mpi_dec_nt_test.c:84-87 | A target of -1: an eos slot rewinds and the run does not end. |
| Scenarios.InfoChangeThenPicture | test/mpi_dec_nt_test.c:128-212 | An info change installs the group without counting. The next picture reaches a target of 1 and is sampled for usage. |
| Scenarios.FailedHandshakeEndsOnlyTheCall | test/mpi_dec_nt_test.c:142-146 | A failing buffer-group call returns its status from that call only. The next call reads a new slot, and its eos frame ends the run. |
| Scenarios.ErroneousFrameNotDumped | test/mpi_dec_nt_test.c:191-198 | A frame with `err_info` set is counted and checksummed but not dumped. |

## Left out

- Threads and the interactive stop (`pthread_create`/`pthread_join`, and the main thread setting `loop_end` from `getc(stdin)`, lines 411-429). These are concurrency and console I/O, so `loop_end` is raised only by the loop itself.
- `msleep(1)` at lines 234, 249 and 263 is timing only, and is a no-op here.
- The internals of `mpi->decode`, `mpi->control`, `mpp_frame_*`, `mpp_packet_*`, `dec_buf_mgr_setup`, `mpp_buffer_group_usage`, `reader_read`, `reader_rewind` and `mpp_time`. These are foreign library code. Their answers come from the traces. In particular the buffer size an info-change frame asks for is recorded (`InfoChange.bufSize`), but the group returned for it is a trace input, so the model does not check that the group fits the size. A NULL group is represented by 0.
- The two packet set-ups at lines 94-110 (file data or JPEG buffer). Only "the remaining length starts at the slot's size" is kept. The packet's eos flag set at lines 113-114 is not a separate field: it always equals `pkt_eos`, which the model carries.
- Frame dumping, CRC calculation and writing, `fps_calc_inc` and the `snprintf`/`mpp_log` logging (lines 163-200) are file I/O and external utilities. The sinks are logs of frame indices.
- `frame_rate`, `elapsed_time` and `delay` (lines 283-287) are floating point and wall-clock arithmetic after the loop.
- The setup and teardown of `dec_nt_decode` (lines 299-486) and `main` (lines 488-515) are resource plumbing. They are represented only by the initial record.
- CRC buffer allocation and release in `thread_decode` (lines 274-276, 293-294) is memory management only.
- LoopSpec.Run: the driver runs over finite traces instead of forever, and a dry trace stops the model (`Starved`). A run the source would continue indefinitely is therefore observed only up to the end of its trace.
- LoopSpec.TakeFrame: `frame_count` (`RK_S32`), `max_usage` (`size_t`) and the timestamps (`RK_S64`) are unbounded integers, so a 32-bit count wrapping after 2^31 frames is not modelled.
- LoopSpec.TakeFrame: both clock reads of one pass (`first_frm` at line 170 and `first_pkt` at line 239) take the same sample `now` of that pass.
- DecTest.MpiDecLoopData.ReadPacket: `reader_read` is asserted to succeed in the source (lines 78-79). The method requires a slot in the trace, and `DecLoop` returns `Starved` when there is none.
