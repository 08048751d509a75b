/** Properties of the decode loop: what one pass, one `dec_loop` call and a
    whole driver run guarantee about counting, termination, the rewind
    policy and peak usage. */
module LoopProps {
  import opened Events
  import opened LoopSpec

  // ---------------------------------------------------------------------------
  // Peak usage
  // ---------------------------------------------------------------------------

  lemma SeqMaxAppend(s: seq<nat>, u: nat)
    ensures SeqMax(s + [u]) == Max(SeqMax(s), u)
  {
    assert (s + [u])[..|s|] == s;
  }

  /** `SeqMax` is the largest sample: no sample exceeds it, and a non-empty
      log contains it. */
  lemma {:induction false} SeqMaxIsPeak(s: seq<nat>)
    ensures forall i :: 0 <= i < |s| ==> s[i] <= SeqMax(s)
    ensures s != [] ==> exists i :: 0 <= i < |s| && s[i] == SeqMax(s)
  {
    if s != [] {
      var init := s[..|s| - 1];
      SeqMaxIsPeak(init);
      assert forall i :: 0 <= i < |init| ==> s[i] == init[i];
      if init != [] && SeqMax(init) >= s[|s| - 1] {
        var j :| 0 <= j < |init| && init[j] == SeqMax(init);
        assert s[j] == SeqMax(s);
      } else {
        assert s[|s| - 1] == SeqMax(s);
      }
    }
  }

  // ---------------------------------------------------------------------------
  // The invariant along a run
  // ---------------------------------------------------------------------------

  /** A pass keeps the invariant, and with a positive target a pass that goes
      round again has not ended the run. */
  lemma PollStepInv(d: LoopData, pkt: Packet, pktEos: bool, p: Poll)
    requires Inv(d) && (d.frameNum > 0 ==> !d.loopEnd)
    ensures Inv(PollStep(d, pkt, pktEos, p).d)
    ensures var o := PollStep(d, pkt, pktEos, p);
      o.act == Continue && d.frameNum > 0 ==> !o.d.loopEnd
  {
    if !p.frame.InfoChange? {
      TakeFrameTally(d, p);
    }
  }

  /** Counting a frame and sampling the usage keep the count, the sinks and
      the peak usage consistent. */
  lemma TakeFrameTally(d: LoopData, p: Poll)
    requires Tally(d) && !p.frame.InfoChange?
    ensures Tally(TakeFrame(d, p))
  {
    if p.frame.Picture? {
      CountFrameTally(d, p.frame, p.now);
      SampleUsageTally(CountFrame(d, p.frame, p.now), p.usage);
    } else {
      SampleUsageTally(d, p.usage);
    }
  }

  lemma CountFrameTally(d: LoopData, f: Frame, now: int)
    requires Tally(d) && f.Picture?
    ensures Tally(CountFrame(d, f, now))
  {
    BelowNext(d.dumped, d.frameCount);
    if d.hasOutput && f.errInfo == 0 {
      AppendNext(d.dumped, d.frameCount);
    }
    if d.hasVerify {
      CountUp(d.verified);
    }
  }

  lemma SampleUsageTally(d: LoopData, usage: nat)
    requires Tally(d)
    ensures Tally(SampleUsage(d, usage))
  {
    if d.frmGrp != 0 {
      SeqMaxAppend(d.usageLog, usage);
    }
  }

  lemma BelowNext(s: seq<int>, n: int)
    requires Below(s, n)
    ensures Below(s, n + 1)
  {
  }

  /** Appending the current count to an increasing log of indices below it
      keeps the log increasing and below the next count. */
  lemma AppendNext(s: seq<int>, n: int)
    requires 0 <= n && Below(s, n) && Increasing(s)
    ensures Below(s + [n], n + 1) && Increasing(s + [n])
  {
    assert forall i :: 0 <= i < |s| ==> (s + [n])[i] == s[i];
  }

  /** Appending its length to the log `[0, 1, ..., n - 1]` extends it by one. */
  lemma CountUp(s: seq<int>)
    requires Enumerates(s)
    ensures Enumerates(s + [|s|])
  {
    assert forall i :: 0 <= i < |s| ==> (s + [|s|])[i] == s[i];
  }

  /** The poll loop keeps the invariant. */
  lemma {:induction false} DrainInv(d: LoopData, pkt: Packet, pktEos: bool, polls: seq<Poll>)
    requires Inv(d) && (d.frameNum > 0 ==> !d.loopEnd)
    ensures Inv(Drain(d, pkt, pktEos, polls).d)
    decreases |polls|
  {
    if polls != [] {
      PollStepInv(d, pkt, pktEos, polls[0]);
      var s := PollStep(d, pkt, pktEos, polls[0]);
      if s.act == Continue {
        DrainInv(s.d, s.pkt, pktEos, polls[1..]);
      }
    }
  }

  /** Reading a slot keeps the invariant. While more frames are wanted (a
      negative target, or a positive one not reached) an end-of-stream slot
      always rewinds the reader and never raises `loop_end`; only a zero
      target makes it the last packet. */
  lemma ReadSlotInv(d: LoopData, s: Slot)
    requires Inv(d) && !d.loopEnd
    ensures var r := ReadSlot(d, s);
      && Inv(r.d)
      && (d.frameNum != 0 ==> !r.pktEos && !r.d.loopEnd)
      && (d.frameNum != 0 && s.eos ==> r.d.rewinds == d.rewinds + 1)
      && (d.frameNum == 0 && s.eos ==> r.pktEos && r.d.loopEnd && r.d.rewinds == d.rewinds)
  {
  }

  /** A `dec_loop` call started with `loop_end` clear keeps the invariant. */
  lemma DecLoopInv(d: LoopData, slots: seq<Slot>, polls: seq<Poll>)
    requires Inv(d) && !d.loopEnd
    ensures Inv(DecLoop(d, slots, polls).d)
  {
    if slots != [] {
      ReadSlotInv(d, slots[0]);
      var r := ReadSlot(d, slots[0]);
      DrainInv(r.d, Live(slots[0].size), r.pktEos, polls);
    }
  }

  /** The driver keeps the invariant. */
  lemma {:induction false} RunInv(d: LoopData, slots: seq<Slot>, polls: seq<Poll>)
    requires Inv(d)
    ensures Inv(Run(d, slots, polls).d)
    decreases |slots|
  {
    if !d.loopEnd {
      DecLoopInv(d, slots, polls);
      var c := DecLoop(d, slots, polls);
      if !c.exit.Starved? {
        RunInv(c.d, slots[1..], polls[c.used..]);
      }
    }
  }

  /** A count-terminated run ends with exactly the target number of frames:
      never fewer, since `loop_end` is raised only at the target, and never
      more, since the call returns at once. */
  lemma RunReachesTargetExactly(frameNum: int, hasOutput: bool, hasVerify: bool, slots: seq<Slot>, polls: seq<Poll>)
    requires frameNum > 0
    ensures var o := Run(Initial(frameNum, hasOutput, hasVerify), slots, polls);
      && o.d.frameCount <= frameNum
      && (o.d.loopEnd <==> o.d.frameCount == frameNum)
  {
    RunInv(Initial(frameNum, hasOutput, hasVerify), slots, polls);
  }

  /** At the end of a run the peak usage is the maximum of every sample
      taken: it bounds each sample and is one of them (or 0 when none was
      taken). */
  lemma RunPeakUsage(frameNum: int, hasOutput: bool, hasVerify: bool, slots: seq<Slot>, polls: seq<Poll>)
    ensures var o := Run(Initial(frameNum, hasOutput, hasVerify), slots, polls);
      && (forall i :: 0 <= i < |o.d.usageLog| ==> o.d.usageLog[i] <= o.d.maxUsage)
      && (o.d.usageLog == [] ==> o.d.maxUsage == 0)
      && (o.d.usageLog != [] ==> exists i :: 0 <= i < |o.d.usageLog| && o.d.usageLog[i] == o.d.maxUsage)
  {
    var o := Run(Initial(frameNum, hasOutput, hasVerify), slots, polls);
    RunInv(Initial(frameNum, hasOutput, hasVerify), slots, polls);
    SeqMaxIsPeak(o.d.usageLog);
  }

  /** At the end of a run every frame has gone to an open verify sink, in
      order, and the dumped frames are distinct, in order, and among those
      counted. */
  lemma RunSinks(frameNum: int, hasOutput: bool, hasVerify: bool, slots: seq<Slot>, polls: seq<Poll>)
    ensures var o := Run(Initial(frameNum, hasOutput, hasVerify), slots, polls);
      && (hasVerify ==> |o.d.verified| == o.d.frameCount)
      && (!hasVerify ==> o.d.verified == [])
      && (!hasOutput ==> o.d.dumped == [])
      && (forall i, j :: 0 <= i < j < |o.d.dumped| ==> 0 <= o.d.dumped[i] < o.d.dumped[j] < o.d.frameCount)
  {
    RunInv(Initial(frameNum, hasOutput, hasVerify), slots, polls);
    if !hasOutput {
      RunNoOutputNoDump(Initial(frameNum, hasOutput, hasVerify), slots, polls);
    }
  }

  lemma {:induction false} RunNoOutputNoDump(d: LoopData, slots: seq<Slot>, polls: seq<Poll>)
    requires !d.hasOutput && d.dumped == []
    ensures Run(d, slots, polls).d.dumped == []
    decreases |slots|
  {
    if !d.loopEnd {
      var c := DecLoop(d, slots, polls);
      if slots != [] {
        var r := ReadSlot(d, slots[0]);
        DrainNoOutputNoDump(r.d, Live(slots[0].size), r.pktEos, polls);
      }
      if !c.exit.Starved? {
        RunNoOutputNoDump(c.d, slots[1..], polls[c.used..]);
      }
    }
  }

  lemma {:induction false} DrainNoOutputNoDump(d: LoopData, pkt: Packet, pktEos: bool, polls: seq<Poll>)
    requires !d.hasOutput && d.dumped == []
    ensures Drain(d, pkt, pktEos, polls).d.dumped == []
    decreases |polls|
  {
    if polls != [] {
      var s := PollStep(d, pkt, pktEos, polls[0]);
      if s.act == Continue {
        DrainNoOutputNoDump(s.d, s.pkt, pktEos, polls[1..]);
      }
    }
  }

  // ---------------------------------------------------------------------------
  // Counting and termination inside one dec_loop call
  // ---------------------------------------------------------------------------

  /** Every real frame the engine returns during the poll loop is counted
      exactly once; info-change frames and empty polls are not counted. */
  lemma {:induction false} DrainCounts(d: LoopData, pkt: Packet, pktEos: bool, polls: seq<Poll>)
    ensures var o := Drain(d, pkt, pktEos, polls);
      o.d.frameCount == d.frameCount + Pictures(polls[..o.used])
    decreases |polls|
  {
    var o := Drain(d, pkt, pktEos, polls);
    if polls != [] {
      var s := PollStep(d, pkt, pktEos, polls[0]);
      PollStepCount(d, pkt, pktEos, polls[0]);
      PicturesPrefix(polls, o.used);
      if s.act == Continue {
        var rest := Drain(s.d, s.pkt, pktEos, polls[1..]);
        assert o == Drained(rest.d, rest.exit, rest.used + 1);
        DrainCounts(s.d, s.pkt, pktEos, polls[1..]);
      } else {
        assert o.d == s.d && o.used == 1;
      }
    }
  }

  /** One pass counts its frame exactly when it is a real one. */
  lemma PollStepCount(d: LoopData, pkt: Packet, pktEos: bool, p: Poll)
    ensures PollStep(d, pkt, pktEos, p).d.frameCount == d.frameCount + (if p.frame.Picture? then 1 else 0)
  {
  }

  /** The poll loop leaves `dec_loop` at once after the frame that ends the
      run: if it raised `loop_end`, the last pass it consumed returned a real
      frame, and the call returns that pass's decode status. */
  lemma {:induction false} DrainStopsAtEndingFrame(d: LoopData, pkt: Packet, pktEos: bool, polls: seq<Poll>)
    requires !d.loopEnd
    ensures var o := Drain(d, pkt, pktEos, polls);
      o.d.loopEnd ==>
        && o.exit.Returned? && 0 < o.used
        && polls[o.used - 1].frame.Picture?
        && o.exit.ret == polls[o.used - 1].ret
    decreases |polls|
  {
    if polls != [] {
      var s := PollStep(d, pkt, pktEos, polls[0]);
      if s.act == Continue {
        DrainStopsAtEndingFrame(s.d, s.pkt, pktEos, polls[1..]);
      }
    }
  }

  /** While the packet carries end of stream and there is no positive
      target, the poll loop drains: it returns only on the pass that gives
      the eos frame, or on an info-change pass whose control call failed. A
      consumed packet does not end the call. */
  lemma {:induction false} DrainAwaitsEosFrame(d: LoopData, pkt: Packet, polls: seq<Poll>)
    requires d.frameNum <= 0
    ensures var o := Drain(d, pkt, true, polls);
      o.exit.Returned? ==>
        var last := polls[o.used - 1];
        || IsEosPicture(last)
        || (last.frame.InfoChange? && (last.setGrpRet != 0 || last.readyRet != 0))
    decreases |polls|
  {
    if polls != [] {
      var s := PollStep(d, pkt, true, polls[0]);
      if s.act == Continue {
        DrainAwaitsEosFrame(s.d, s.pkt, polls[1..]);
      }
    }
  }

  /** With a zero target, a `dec_loop` call that reads the end-of-stream slot
      marks it the last packet, then keeps polling until the eos frame (or a
      failed info-change handshake). */
  lemma DecLoopDrainsLastPacket(d: LoopData, slots: seq<Slot>, polls: seq<Poll>)
    requires d.frameNum == 0 && 0 <= d.frameCount
    requires slots != [] && slots[0].eos
    ensures var o := DecLoop(d, slots, polls);
      && o.d.loopEnd
      && (o.exit.Returned? ==>
            var last := polls[o.used - 1];
            || IsEosPicture(last)
            || (last.frame.InfoChange? && (last.setGrpRet != 0 || last.readyRet != 0)))
  {
    var r := ReadSlot(d, slots[0]);
    assert r.pktEos;
    DrainAwaitsEosFrame(r.d, Live(slots[0].size), polls);
  }

  /** Without a positive target, the poll loop raises `loop_end` exactly when
      the engine returns a real frame flagged end-of-stream. */
  lemma {:induction false} DrainEosTermination(d: LoopData, pkt: Packet, pktEos: bool, polls: seq<Poll>)
    requires d.frameNum <= 0
    ensures var o := Drain(d, pkt, pktEos, polls);
      o.d.loopEnd <==> d.loopEnd || EosPictureIn(polls[..o.used])
    decreases |polls|
  {
    var o := Drain(d, pkt, pktEos, polls);
    if polls != [] {
      var s := PollStep(d, pkt, pktEos, polls[0]);
      EosPicturePrefix(polls, o.used);
      if s.act == Continue {
        DrainEosTermination(s.d, s.pkt, pktEos, polls[1..]);
      }
    }
  }

  /** With a positive target, the poll loop raises `loop_end` exactly when it
      counted a frame and the count reached the target. */
  lemma {:induction false} DrainCountTermination(d: LoopData, pkt: Packet, pktEos: bool, polls: seq<Poll>)
    requires d.frameNum > 0
    ensures var o := Drain(d, pkt, pktEos, polls);
      o.d.loopEnd <==> d.loopEnd || (Pictures(polls[..o.used]) > 0 && o.d.frameCount >= d.frameNum)
    decreases |polls|
  {
    var o := Drain(d, pkt, pktEos, polls);
    if polls != [] {
      var s := PollStep(d, pkt, pktEos, polls[0]);
      PicturesPrefix(polls, o.used);
      if s.act == Continue {
        DrainCountTermination(s.d, s.pkt, pktEos, polls[1..]);
        DrainCounts(s.d, s.pkt, pktEos, polls[1..]);
      }
    }
  }

  // ---------------------------------------------------------------------------
  // Counting and termination over a whole run
  // ---------------------------------------------------------------------------

  /** A `dec_loop` call counts the real frames among the passes it consumed. */
  lemma DecLoopCounts(d: LoopData, slots: seq<Slot>, polls: seq<Poll>)
    ensures var o := DecLoop(d, slots, polls);
      o.d.frameCount == d.frameCount + Pictures(polls[..o.used])
  {
    if slots != [] {
      var r := ReadSlot(d, slots[0]);
      DrainCounts(r.d, Live(slots[0].size), r.pktEos, polls);
    }
  }

  /** The driver counts every real frame of the passes it consumed, across
      all its `dec_loop` calls. */
  lemma {:induction false} RunCounts(d: LoopData, slots: seq<Slot>, polls: seq<Poll>)
    ensures var o := Run(d, slots, polls);
      o.d.frameCount == d.frameCount + Pictures(polls[..o.pollsUsed])
    decreases |slots|
  {
    if !d.loopEnd {
      DecLoopCounts(d, slots, polls);
      var c := DecLoop(d, slots, polls);
      if !c.exit.Starved? {
        var rest := Run(c.d, slots[1..], polls[c.used..]);
        assert Run(d, slots, polls) == Finished(rest.d, rest.slotsUsed + 1, rest.pollsUsed + c.used);
        RunCounts(c.d, slots[1..], polls[c.used..]);
        PrefixSplit(polls, c.used, rest.pollsUsed);
        PicturesAppend(polls[..c.used], polls[c.used..][..rest.pollsUsed]);
      }
    }
  }

  /** Without a positive target, a `dec_loop` call ends the run when it
      reads an end-of-stream slot with a zero target, or when the engine
      returns an eos frame; with a negative target an end-of-stream slot
      rewinds the reader instead. */
  lemma DecLoopEos(d: LoopData, slots: seq<Slot>, polls: seq<Poll>)
    requires d.frameNum <= 0 && 0 <= d.frameCount
    ensures var o := DecLoop(d, slots, polls);
      && (o.d.loopEnd <==>
            d.loopEnd || (slots != [] && d.frameNum == 0 && slots[0].eos) || EosPictureIn(polls[..o.used]))
      && o.d.rewinds == d.rewinds + (if slots != [] && slots[0].eos && d.frameNum < 0 then 1 else 0)
  {
    if slots != [] {
      var r := ReadSlot(d, slots[0]);
      DrainEosTermination(r.d, Live(slots[0].size), r.pktEos, polls);
    }
  }

  /** Without a positive target, a run ends exactly when it read an
      end-of-stream slot with a zero target or the engine returned an eos
      frame. */
  lemma {:induction false} RunEosEnd(d: LoopData, slots: seq<Slot>, polls: seq<Poll>)
    requires d.frameNum <= 0 && 0 <= d.frameCount
    ensures var o := Run(d, slots, polls);
      o.d.loopEnd <==>
        d.loopEnd || (d.frameNum == 0 && EosSlots(slots[..o.slotsUsed]) > 0)
        || EosPictureIn(polls[..o.pollsUsed])
    decreases |slots|
  {
    if d.loopEnd || slots == [] {
      assert Run(d, slots, polls) == Finished(d, 0, 0);
      assert slots[..0] == [] && polls[..0] == [];
    } else {
      var c := DecLoop(d, slots, polls);
      if c.exit.Starved? {
        RunEosEndStarved(d, slots, polls);
      } else {
        var rest := Run(c.d, slots[1..], polls[c.used..]);
        RunEosEnd(c.d, slots[1..], polls[c.used..]);
        DecLoopEos(d, slots, polls);
        assert Run(d, slots, polls) == Finished(rest.d, rest.slotsUsed + 1, rest.pollsUsed + c.used);
        EosEndStep(d.frameNum == 0, slots, polls, c.used, c.d.loopEnd, rest);
      }
    }
  }

  /** The case of `RunEosEnd` where the first `dec_loop` call runs out of
      passes. */
  lemma RunEosEndStarved(d: LoopData, slots: seq<Slot>, polls: seq<Poll>)
    requires d.frameNum <= 0 && 0 <= d.frameCount && !d.loopEnd && slots != []
    requires DecLoop(d, slots, polls).exit.Starved?
    ensures var o := Run(d, slots, polls);
      o.d.loopEnd <==>
        d.loopEnd || (d.frameNum == 0 && EosSlots(slots[..o.slotsUsed]) > 0)
        || EosPictureIn(polls[..o.pollsUsed])
  {
    var c := DecLoop(d, slots, polls);
    DecLoopEos(d, slots, polls);
    EosSlotsPrefix(slots, 1);
    assert Run(d, slots, polls) == Finished(c.d, 1, c.used);
    assert slots[1..][..0] == [];
  }

  /** The step case of `RunEosEnd`: a returning `dec_loop` call that used
      `used` passes, followed by a rest of the run `rest` for which the claim
      holds, gives the claim for the whole run. */
  lemma EosEndStep(zero: bool, slots: seq<Slot>, polls: seq<Poll>, used: nat, callEnd: bool, rest: Finished)
    requires slots != [] && used <= |polls|
    requires rest.slotsUsed <= |slots| - 1 && rest.pollsUsed <= |polls| - used
    requires callEnd <==> (zero && slots[0].eos) || EosPictureIn(polls[..used])
    requires rest.d.loopEnd <==>
        callEnd || (zero && EosSlots(slots[1..][..rest.slotsUsed]) > 0)
        || EosPictureIn(polls[used..][..rest.pollsUsed])
    ensures rest.d.loopEnd <==>
        (zero && EosSlots(slots[..rest.slotsUsed + 1]) > 0)
        || EosPictureIn(polls[..rest.pollsUsed + used])
  {
    EosSlotsPrefix(slots, rest.slotsUsed + 1);
    EosPicturePrefixSplit(polls, used, rest.pollsUsed);
    assert rest.pollsUsed + used == used + rest.pollsUsed;
  }

  /** Without a positive target, each end-of-stream slot read under a
      negative target rewinds the reader once; under a zero target the
      reader is never rewound. */
  lemma {:induction false} RunRewinds(d: LoopData, slots: seq<Slot>, polls: seq<Poll>)
    requires d.frameNum <= 0 && 0 <= d.frameCount
    ensures var o := Run(d, slots, polls);
      o.d.rewinds == d.rewinds + (if d.frameNum < 0 then EosSlots(slots[..o.slotsUsed]) else 0)
    decreases |slots|
  {
    var o := Run(d, slots, polls);
    if !d.loopEnd {
      DecLoopEos(d, slots, polls);
      var c := DecLoop(d, slots, polls);
      if slots != [] {
        EosSlotsPrefix(slots, o.slotsUsed);
      }
      if !c.exit.Starved? {
        var rest := Run(c.d, slots[1..], polls[c.used..]);
        assert o == Finished(rest.d, rest.slotsUsed + 1, rest.pollsUsed + c.used);
        RunRewinds(c.d, slots[1..], polls[c.used..]);
      }
    }
  }

  /** With a positive target every slot is read while the target is still
      pending, so each end-of-stream slot of the run rewinds the reader
      once. */
  lemma {:induction false} RunRewindsPositive(d: LoopData, slots: seq<Slot>, polls: seq<Poll>)
    requires d.frameNum > 0 && Inv(d)
    ensures var o := Run(d, slots, polls);
      o.d.rewinds == d.rewinds + EosSlots(slots[..o.slotsUsed])
    decreases |slots|
  {
    var o := Run(d, slots, polls);
    if !d.loopEnd {
      DecLoopInv(d, slots, polls);
      var c := DecLoop(d, slots, polls);
      if slots != [] {
        ReadSlotInv(d, slots[0]);
        EosSlotsPrefix(slots, o.slotsUsed);
      }
      if !c.exit.Starved? {
        var rest := Run(c.d, slots[1..], polls[c.used..]);
        assert o == Finished(rest.d, rest.slotsUsed + 1, rest.pollsUsed + c.used);
        RunRewindsPositive(c.d, slots[1..], polls[c.used..]);
      }
    }
  }

  /** From the initial record with a negative target, the run ends only on
      an eos frame from the engine, and the reader is rewound once per
      end-of-stream slot read. */
  lemma RunUnboundedEndsOnEosFrame(hasOutput: bool, hasVerify: bool, slots: seq<Slot>, polls: seq<Poll>)
    ensures var o := Run(Initial(-1, hasOutput, hasVerify), slots, polls);
      && (o.d.loopEnd <==> EosPictureIn(polls[..o.pollsUsed]))
      && o.d.rewinds == EosSlots(slots[..o.slotsUsed])
  {
    RunEosEnd(Initial(-1, hasOutput, hasVerify), slots, polls);
    RunRewinds(Initial(-1, hasOutput, hasVerify), slots, polls);
  }
}
