/** The decode loop of mpi_dec_nt_test as functions over a trace of
    collaborator answers: one pass of the poll loop (`PollStep`), the poll
    loop of one `dec_loop` call (`Drain`), one `dec_loop` call (`DecLoop`)
    and the `while (!loop_end) dec_loop(data);` driver of `thread_decode`
    (`Run`). The class in DecTest runs the same loops in place and is proved
    to agree with these functions. */
module LoopSpec {
  import opened Events

  /** The fields of `MpiDecLoopData` the loop reads or writes, plus the
      observable effects of the output sinks:
      - `frameNum`: the target frame count (negative: unbounded);
      - `hasOutput`, `hasVerify`: whether `fp_output` / `fp_verify` are open;
      - `loopEnd`, `frameCount`, `firstPkt`, `firstFrm`, `maxUsage`: as in the record;
      - `frmGrp`: the current buffer group, 0 for NULL;
      - `dumped`: indices of the frames written to `fp_output`;
      - `verified`: indices of the frames whose checksum went to `fp_verify`;
      - `usageLog`: every usage sample taken, in order;
      - `rewinds`: how many times the reader was rewound. */
  datatype LoopData = LoopData(
    frameNum: int,
    hasOutput: bool,
    hasVerify: bool,
    loopEnd: bool,
    frameCount: int,
    firstPkt: int,
    firstFrm: int,
    maxUsage: nat,
    frmGrp: nat,
    dumped: seq<int>,
    verified: seq<int>,
    usageLog: seq<nat>,
    rewinds: nat)

  /** The packet as the poll loop sees it: the local `packet` pointer is
      either NULL or the shared packet with its remaining length. */
  datatype Packet = NoPacket | Live(length: nat)

  /** How a pass of the poll loop ends: go round again, or leave `dec_loop`
      with the status currently in `ret`. */
  datatype Action = Continue | Return(ret: int)

  /** How a `dec_loop` call ends: it returned a status, or the trace ran dry
      before it could (a bound of the model, not a path of the program). */
  datatype Exit = Returned(ret: int) | Starved

  function Max(a: nat, b: nat): nat
  {
    if a < b then b else a
  }

  /** Largest sample of a usage log, 0 for an empty one. */
  function SeqMax(s: seq<nat>): nat
  {
    if s == [] then 0 else Max(SeqMax(s[..|s| - 1]), s[|s| - 1])
  }

  /** The record as `dec_nt_decode` hands it to the decode thread: zeroed by
      `memset`, then the target frame count from the command. */
  function Initial(frameNum: int, hasOutput: bool, hasVerify: bool): (d: LoopData)
    ensures Inv(d) && !d.loopEnd && d.frameCount == 0 && d.frmGrp == 0
  {
    LoopData(frameNum, hasOutput, hasVerify, false, 0, 0, 0, 0, 0, [], [], [], 0)
  }

  /** What holds of the record between any two passes of a driver run that
      started from `Initial`. With a positive target, the run has ended
      exactly when the count has reached the target, and the count never
      passes it. The peak usage is the largest sample taken. Dumped frames
      are distinct frame indices; with a verify sink, every frame reached it. */
  ghost predicate Inv(d: LoopData)
  {
    && (d.frameNum > 0 ==> d.frameCount <= d.frameNum && (d.loopEnd <==> d.frameCount == d.frameNum))
    && Tally(d)
  }

  /** The part of `Inv` about the count, the sinks and the usage samples. */
  ghost predicate Tally(d: LoopData)
  {
    && 0 <= d.frameCount
    && d.maxUsage == SeqMax(d.usageLog)
    && (d.frameCount == 0 ==> d.firstFrm == 0)
    && Below(d.dumped, d.frameCount)
    && Increasing(d.dumped)
    && |d.verified| == (if d.hasVerify then d.frameCount else 0)
    && Enumerates(d.verified)
  }

  /** Every index in the log is a frame counted before `n`. */
  predicate Below(s: seq<int>, n: int)
  {
    forall i :: 0 <= i < |s| ==> 0 <= s[i] < n
  }

  predicate Increasing(s: seq<int>)
  {
    forall i, j :: 0 <= i < j < |s| ==> s[i] < s[j]
  }

  /** The log is `[0, 1, ..., |s| - 1]`. */
  predicate Enumerates(s: seq<int>)
  {
    forall i :: 0 <= i < |s| ==> s[i] == i
  }

  /** What every step of the loop keeps: the configuration and the reader
      state are untouched, the count, the peak usage and the sample log only
      grow, the two timestamps once set are never overwritten, and a raised
      `loop_end` stays raised. */
  predicate Progress(d: LoopData, e: LoopData)
  {
    && e.frameNum == d.frameNum && e.hasOutput == d.hasOutput && e.hasVerify == d.hasVerify
    && d.frameCount <= e.frameCount
    && d.maxUsage <= e.maxUsage && d.usageLog <= e.usageLog
    && (d.firstFrm != 0 ==> e.firstFrm == d.firstFrm)
    && (d.firstPkt != 0 ==> e.firstPkt == d.firstPkt)
    && (d.loopEnd ==> e.loopEnd)
  }

  // ---------------------------------------------------------------------------
  // Reading a slot (mpi_dec_nt_test.c:76-92, 112-114)
  // ---------------------------------------------------------------------------

  /** The loop-again condition checked when the reader reports end of stream. */
  predicate LoopAgain(d: LoopData)
  {
    d.frameNum < 0 || d.frameNum > d.frameCount
  }

  datatype Read = Read(d: LoopData, pktEos: bool)

  /** End-of-stream policy for a freshly read slot: rewind the reader and
      clear the packet's eos flag while more frames are wanted; otherwise
      this is the last packet, and `loop_end` is raised (the loop still
      drains it). */
  function ReadSlot(d: LoopData, s: Slot): (r: Read)
    ensures r.d.rewinds == d.rewinds + (if s.eos && LoopAgain(d) then 1 else 0)
    ensures r.pktEos <==> s.eos && !LoopAgain(d)
    ensures r.d.loopEnd <==> d.loopEnd || r.pktEos
    ensures r.d == d.(rewinds := r.d.rewinds, loopEnd := r.d.loopEnd)
  {
    if !s.eos then Read(d, false)
    else if LoopAgain(d) then Read(d.(rewinds := d.rewinds + 1), false)
    else Read(d.(loopEnd := true), true)
  }

  // ---------------------------------------------------------------------------
  // One pass of the poll loop (mpi_dec_nt_test.c:116-264)
  // ---------------------------------------------------------------------------

  /** A real frame: stamp the first frame time, count it, dump it when it is
      error-free, and checksum it when a verify sink is open. */
  function CountFrame(d: LoopData, f: Frame, now: int): (r: LoopData)
    requires f.Picture?
    ensures r == d.(frameCount := r.frameCount, firstFrm := r.firstFrm, dumped := r.dumped, verified := r.verified)
    ensures r.frameCount == d.frameCount + 1
    ensures r.firstFrm == (if d.firstFrm == 0 then now else d.firstFrm)
    ensures r.dumped == d.dumped + (if d.hasOutput && f.errInfo == 0 then [d.frameCount] else [])
    ensures r.verified == d.verified + (if d.hasVerify then [d.frameCount] else [])
  {
    d.(firstFrm := if d.firstFrm == 0 then now else d.firstFrm,
       frameCount := d.frameCount + 1,
       dumped := if d.hasOutput && f.errInfo == 0 then d.dumped + [d.frameCount] else d.dumped,
       verified := if d.hasVerify then d.verified + [d.frameCount] else d.verified)
  }

  /** Sample the current group's usage, when there is a group. */
  function SampleUsage(d: LoopData, usage: nat): (r: LoopData)
    ensures r == d.(maxUsage := r.maxUsage, usageLog := r.usageLog)
    ensures r.usageLog == d.usageLog + (if d.frmGrp != 0 then [usage] else [])
    ensures d.frmGrp != 0 ==> r.maxUsage == Max(d.maxUsage, usage)
    ensures d.frmGrp == 0 ==> r.maxUsage == d.maxUsage
  {
    if d.frmGrp != 0 then d.(maxUsage := Max(d.maxUsage, usage), usageLog := d.usageLog + [usage])
    else d
  }

  /** The frame ends the run (lines 215-230): a real frame that brings the
      count to the target when there is a positive target, or, without one,
      a real frame flagged end-of-stream. `taken` is the record after the
      frame was counted. */
  predicate EndsRun(taken: LoopData, f: Frame)
  {
    f.Picture? && (if taken.frameNum > 0 then taken.frameCount >= taken.frameNum else f.eos)
  }

  datatype Step = Step(d: LoopData, pkt: Packet, act: Action)

  /** The packet after `mpi->decode`: the engine consumes from the packet
      when one is offered; NULL stays NULL. */
  function Offer(pkt: Packet, p: Poll): (r: Packet)
    ensures r.Live? == pkt.Live?
    ensures r.Live? ==> r.length == p.left
  {
    if pkt.Live? then Live(p.left) else NoPacket
  }

  /** An info-change frame (lines 128-161): set up a group for the new
      buffer size, hand it to the decoder, then signal info-change ready.
      The frame is never counted, dumped or checksummed, the usage sample is
      skipped (`continue`), and the packet stays offered whatever its
      remaining length. A failing control call leaves `dec_loop` with its
      non-zero status. */
  function InfoChangeStep(d: LoopData, offered: Packet, p: Poll): (o: Step)
    requires p.frame.InfoChange?
    ensures o.d == d.(frmGrp := o.d.frmGrp)
    ensures o.d.frmGrp == (if p.setGrpRet == 0 then p.grp else d.frmGrp)
    ensures o.act == Continue <==> p.setGrpRet == 0 && p.readyRet == 0
    ensures o.act.Return? ==> o.act.ret != 0
    ensures o.act.Return? ==> o.act.ret == (if p.setGrpRet != 0 then p.setGrpRet else p.readyRet)
    ensures o.pkt == offered
  {
    if p.setGrpRet != 0 then Step(d, offered, Return(p.setGrpRet))
    else if p.readyRet != 0 then Step(d.(frmGrp := p.grp), offered, Return(p.readyRet))
    else Step(d.(frmGrp := p.grp), offered, Continue)
  }

  /** A pass without an info-change frame, up to the usage sample (lines
      162-212): a real frame is counted once whatever its error and discard
      flags, dumped exactly when error-free, always checksummed when a
      verify sink is open, and stamps the first-frame time if unset; then
      the group's usage is folded into the running peak. */
  function TakeFrame(d: LoopData, p: Poll): (r: LoopData)
    requires !p.frame.InfoChange?
    ensures r == d.(frameCount := r.frameCount, firstFrm := r.firstFrm, dumped := r.dumped,
                   verified := r.verified, maxUsage := r.maxUsage, usageLog := r.usageLog)
    ensures r.frameCount == d.frameCount + (if p.frame.Picture? then 1 else 0)
    ensures r.dumped == d.dumped + (if p.frame.Picture? && d.hasOutput && p.frame.errInfo == 0 then [d.frameCount] else [])
    ensures r.verified == d.verified + (if p.frame.Picture? && d.hasVerify then [d.frameCount] else [])
    ensures r.firstFrm == (if p.frame.Picture? && d.firstFrm == 0 then p.now else d.firstFrm)
    ensures d.frmGrp != 0 ==> r.maxUsage == Max(d.maxUsage, p.usage) && r.usageLog == d.usageLog + [p.usage]
    ensures d.frmGrp == 0 ==> r.maxUsage == d.maxUsage && r.usageLog == d.usageLog
  {
    SampleUsage(if p.frame.Picture? then CountFrame(d, p.frame, p.now) else d, p.usage)
  }

  /** The end of a pass without an info-change frame (lines 214-254). A frame
      that ends the run raises `loop_end` and returns at once. Otherwise the
      packet is re-offered while its remaining length is non-zero; once
      consumed it is dropped (later passes offer NULL), the first-packet
      time is stamped if unset, and the call returns unless an eos packet
      still awaits its eos frame. `taken` is the record after `TakeFrame`. */
  function FinishPass(taken: LoopData, offered: Packet, pktEos: bool, p: Poll): (o: Step)
    requires !p.frame.InfoChange?
    ensures o.d == taken.(loopEnd := o.d.loopEnd, firstPkt := o.d.firstPkt)
    ensures o.d.loopEnd <==> taken.loopEnd || EndsRun(taken, p.frame)
    ensures o.act.Return? ==> o.act.ret == p.ret
    ensures EndsRun(taken, p.frame) ==> o.act.Return? && o.pkt == offered && o.d.firstPkt == taken.firstPkt
    ensures !EndsRun(taken, p.frame) ==>
      if offered.Live? && offered.length != 0 then
        o.pkt == offered && o.act == Continue && o.d.firstPkt == taken.firstPkt
      else
        && o.pkt == NoPacket
        && (o.act == Continue <==> pktEos && !IsEosPicture(p))
        && o.d.firstPkt == (if offered.Live? && taken.firstPkt == 0 then p.now else taken.firstPkt)
  {
    if EndsRun(taken, p.frame) then Step(taken.(loopEnd := true), offered, Return(p.ret))
    else if offered.Live? && offered.length != 0 then Step(taken, offered, Continue)
    else
      var d2 := if offered.Live? && taken.firstPkt == 0 then taken.(firstPkt := p.now) else taken;
      Step(d2, NoPacket, if pktEos && !IsEosPicture(p) then Continue else Return(p.ret))
  }

  /** One pass of the `do { ... } while (1)` body, given what the engine,
      the buffer manager, the usage probe and the clock answer on it. */
  function PollStep(d: LoopData, pkt: Packet, pktEos: bool, p: Poll): (o: Step)
    ensures Progress(d, o.d) && o.d.rewinds == d.rewinds
    ensures !p.frame.InfoChange? ==> o.d.frmGrp == d.frmGrp
  {
    if p.frame.InfoChange? then InfoChangeStep(d, Offer(pkt, p), p)
    else FinishPass(TakeFrame(d, p), Offer(pkt, p), pktEos, p)
  }

  // ---------------------------------------------------------------------------
  // The poll loop, one dec_loop call, and the driver
  // ---------------------------------------------------------------------------

  datatype Drained = Drained(d: LoopData, exit: Exit, used: nat)

  /** The poll loop of one `dec_loop` call, run over the passes in `polls`;
      `used` is how many of them it consumed. */
  function Drain(d: LoopData, pkt: Packet, pktEos: bool, polls: seq<Poll>): (o: Drained)
    decreases |polls|
    ensures o.used <= |polls|
    ensures o.exit.Starved? ==> o.used == |polls|
    ensures o.exit.Returned? ==> 0 < o.used
    ensures Progress(d, o.d) && o.d.rewinds == d.rewinds
  {
    if polls == [] then Drained(d, Starved, 0)
    else
      var s := PollStep(d, pkt, pktEos, polls[0]);
      match s.act
      case Return(ret) => Drained(s.d, Returned(ret), 1)
      case Continue =>
        var o := Drain(s.d, s.pkt, pktEos, polls[1..]);
        Drained(o.d, o.exit, o.used + 1)
  }

  datatype Called = Called(d: LoopData, exit: Exit, used: nat)

  /** One `dec_loop` call: read a slot, apply the end-of-stream policy,
      offer the slot's data as the packet and run the poll loop. It reads
      one slot when there is one; `used` counts the passes it consumed. */
  function DecLoop(d: LoopData, slots: seq<Slot>, polls: seq<Poll>): (o: Called)
    ensures slots == [] ==> o == Called(d, Starved, 0)
    ensures o.used <= |polls|
    ensures o.exit.Starved? ==> slots == [] || o.used == |polls|
    ensures slots != [] ==> o.exit.Returned? || o.used == |polls|
    ensures Progress(d, o.d)
  {
    if slots == [] then Called(d, Starved, 0)
    else
      var r := ReadSlot(d, slots[0]);
      var l := Drain(r.d, Live(slots[0].size), r.pktEos, polls);
      Called(l.d, l.exit, l.used)
  }

  datatype Finished = Finished(d: LoopData, slotsUsed: nat, pollsUsed: nat)

  /** `while (!data->loop_end) dec_loop(data);` The status each call returns
      is dropped, so a failed info-change handshake ends only that call. The
      run also stops when the trace runs dry. */
  function Run(d: LoopData, slots: seq<Slot>, polls: seq<Poll>): (o: Finished)
    decreases |slots|
    ensures o.slotsUsed <= |slots| && o.pollsUsed <= |polls|
    ensures o.d.loopEnd || o.slotsUsed == |slots| || o.pollsUsed == |polls|
    ensures d.loopEnd ==> o == Finished(d, 0, 0)
    ensures Progress(d, o.d)
  {
    if d.loopEnd then Finished(d, 0, 0)
    else
      var c := DecLoop(d, slots, polls);
      if c.exit.Starved? then Finished(c.d, if slots == [] then 0 else 1, c.used)
      else
        var o := Run(c.d, slots[1..], polls[c.used..]);
        Finished(o.d, o.slotsUsed + 1, o.pollsUsed + c.used)
  }
}
