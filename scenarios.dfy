/** Concrete runs of the decode thread, evaluated on small traces. */
module Scenarios {
  import opened Events
  import opened LoopSpec

  /** A picture that consumes the whole packet, read at time `now`. */
  function Pic(now: int): Poll
  {
    Poll(0, Picture(0, 0, false), 0, 0, 0, 0, 0, now)
  }

  /** A three-packet stream whose third read reports end of stream, with a
      target of 5 frames: the reader is rewound once, the count stops at
      exactly 5, and every frame is dumped and checksummed. */
  lemma LoopsToTarget()
    ensures var slots := [Slot(false, 100), Slot(false, 100), Slot(true, 0), Slot(false, 100), Slot(false, 100)];
      var polls := [Pic(1), Pic(2), Pic(3), Pic(4), Pic(5)];
      var o := Run(Initial(5, true, true), slots, polls);
      && o.d.loopEnd && o.d.frameCount == 5 && o.d.rewinds == 1
      && o.slotsUsed == 5 && o.pollsUsed == 5
      && o.d.dumped == [0, 1, 2, 3, 4] && o.d.verified == [0, 1, 2, 3, 4]
      && o.d.firstFrm == 1 && o.d.firstPkt == 1
  {
    var slots := [Slot(false, 100), Slot(false, 100), Slot(true, 0), Slot(false, 100), Slot(false, 100)];
    var polls := [Pic(1), Pic(2), Pic(3), Pic(4), Pic(5)];
    var d := Initial(5, true, true);
    var c1 := DecLoop(d, slots, polls);
    assert c1 == Called(d.(frameCount := 1, firstFrm := 1, firstPkt := 1, dumped := [0], verified := [0]), Returned(0), 1);
    var c2 := DecLoop(c1.d, slots[1..], polls[1..]);
    assert c2 == Called(c1.d.(frameCount := 2, dumped := [0, 1], verified := [0, 1]), Returned(0), 1);
    var c3 := DecLoop(c2.d, slots[2..], polls[2..]);
    assert c3 == Called(c2.d.(frameCount := 3, dumped := [0, 1, 2], verified := [0, 1, 2], rewinds := 1), Returned(0), 1);
    var c4 := DecLoop(c3.d, slots[3..], polls[3..]);
    assert c4 == Called(c3.d.(frameCount := 4, dumped := [0, 1, 2, 3], verified := [0, 1, 2, 3]), Returned(0), 1);
    var c5 := DecLoop(c4.d, slots[4..], polls[4..]);
    assert c5 == Called(c4.d.(frameCount := 5, dumped := [0, 1, 2, 3, 4], verified := [0, 1, 2, 3, 4], loopEnd := true), Returned(0), 1);
    assert Run(c5.d, slots[5..], polls[5..]) == Finished(c5.d, 0, 0);
  }

  /** With a target of -1 an end-of-stream slot rewinds the reader and does
      not end the run: after a data slot and an end-of-stream slot, each
      answered by one picture, the run is still going. */
  lemma UnboundedRewinds()
    ensures var o := Run(Initial(-1, false, false), [Slot(false, 100), Slot(true, 0)], [Pic(1), Pic(2)]);
      && !o.d.loopEnd && o.d.rewinds == 1 && o.d.frameCount == 2 && o.d.dumped == []
  {
    var slots := [Slot(false, 100), Slot(true, 0)];
    var polls := [Pic(1), Pic(2)];
    var d := Initial(-1, false, false);
    var c1 := DecLoop(d, slots, polls);
    assert c1 == Called(d.(frameCount := 1, firstFrm := 1, firstPkt := 1), Returned(0), 1);
    var c2 := DecLoop(c1.d, slots[1..], polls[1..]);
    assert c2 == Called(c1.d.(frameCount := 2, rewinds := 1), Returned(0), 1);
    assert Run(c2.d, slots[2..], polls[2..]) == Finished(c2.d, 0, 0);
  }

  /** An info-change frame asking for 4096-byte buffers is answered with a
      group; the packet stays offered, and the next pass's picture reaches a
      target of 1 and samples the group's usage. */
  lemma InfoChangeThenPicture()
    ensures var polls := [Poll(0, InfoChange(4096), 100, 7, 0, 0, 0, 1),
                          Poll(0, Picture(0, 0, false), 0, 7, 0, 0, 3000, 2)];
      var o := Run(Initial(1, false, true), [Slot(false, 100)], polls);
      && o.d.loopEnd && o.d.frameCount == 1 && o.d.frmGrp == 7
      && o.d.maxUsage == 3000 && o.d.usageLog == [3000] && o.pollsUsed == 2
  {
    var polls := [Poll(0, InfoChange(4096), 100, 7, 0, 0, 0, 1),
                  Poll(0, Picture(0, 0, false), 0, 7, 0, 0, 3000, 2)];
    var slots := [Slot(false, 100)];
    var d := Initial(1, false, true);
    var s1 := PollStep(d, Live(100), false, polls[0]);
    assert s1 == Step(d.(frmGrp := 7), Live(100), Continue);
    var s2 := PollStep(s1.d, s1.pkt, false, polls[1]);
    assert s2 == Step(s1.d.(frameCount := 1, firstFrm := 2, verified := [0], maxUsage := 3000,
                            usageLog := [3000], loopEnd := true), Live(0), Return(0));
    assert DecLoop(d, slots, polls) == Called(s2.d, Returned(0), 2);
    assert Run(s2.d, slots[1..], polls[2..]) == Finished(s2.d, 0, 0);
  }

  /** A failed `MPP_DEC_SET_EXT_BUF_GROUP` ends only that `dec_loop` call:
      the driver ignores the status, reads the next slot, and an eos picture
      then ends the run. No group was set, so no usage was sampled. */
  lemma FailedHandshakeEndsOnlyTheCall()
    ensures var polls := [Poll(0, InfoChange(4096), 100, 7, -5, 0, 0, 1),
                          Poll(0, Picture(0, 0, true), 0, 0, 0, 0, 0, 2)];
      var slots := [Slot(false, 100), Slot(false, 100)];
      && DecLoop(Initial(0, false, false), slots, polls).exit == Returned(-5)
      && var o := Run(Initial(0, false, false), slots, polls);
      && o.d.loopEnd && o.d.frameCount == 1 && o.d.frmGrp == 0 && o.d.usageLog == []
      && o.slotsUsed == 2 && o.pollsUsed == 2
  {
  }

  /** A picture with `err_info` set is counted and checksummed but not
      dumped. */
  lemma ErroneousFrameNotDumped()
    ensures var polls := [Poll(0, Picture(1, 0, false), 0, 0, 0, 0, 0, 1), Pic(2)];
      var o := Run(Initial(2, true, true), [Slot(false, 100), Slot(false, 100)], polls);
      && o.d.loopEnd && o.d.frameCount == 2 && o.d.dumped == [1] && o.d.verified == [0, 1]
  {
    var slots := [Slot(false, 100), Slot(false, 100)];
    var polls := [Poll(0, Picture(1, 0, false), 0, 0, 0, 0, 0, 1), Pic(2)];
    var d := Initial(2, true, true);
    var c1 := DecLoop(d, slots, polls);
    assert c1 == Called(d.(frameCount := 1, firstFrm := 1, firstPkt := 1, verified := [0]), Returned(0), 1);
    var c2 := DecLoop(c1.d, slots[1..], polls[1..]);
    assert c2 == Called(c1.d.(frameCount := 2, dumped := [1], verified := [0, 1], loopEnd := true), Returned(0), 1);
    assert Run(c2.d, slots[2..], polls[2..]) == Finished(c2.d, 0, 0);
    assert Run(c1.d, slots[1..], polls[1..]) == Finished(c2.d, 1, 1);
  }
}
