/** The answers of the collaborators the decode loop cannot see into: the
    bitstream reader, the codec engine (`mpi->decode`, `mpi->control`), the
    buffer manager and its usage probe, and the clock. A run of the loop is
    driven by a trace of these answers. */
module Events {

  /** What `mpi->decode` hands back through its frame out-parameter: no frame,
      an info-change notification carrying the buffer size the decoder now
      needs, or a decoded picture with its error, discard and end-of-stream
      flags. */
  datatype Frame =
    | NoFrame
    | InfoChange(bufSize: nat)
    | Picture(errInfo: nat, discard: nat, eos: bool)

  /** One slot from `reader_read`: whether the reader hit the end of the
      stream, and the size of the data it holds. */
  datatype Slot = Slot(eos: bool, size: nat)

  /** The answers observed during one pass of the poll loop in `dec_loop`:
      - `ret`, `frame`: status and frame of `mpi->decode`;
      - `left`: the packet's remaining length after the engine consumed from it;
      - `grp`: the group `dec_buf_mgr_setup` returns (0 stands for NULL);
      - `setGrpRet`, `readyRet`: status of the `MPP_DEC_SET_EXT_BUF_GROUP` and
        `MPP_DEC_SET_INFO_CHANGE_READY` control calls (0 is success);
      - `usage`: what `mpp_buffer_group_usage` reports;
      - `now`: the clock reading `mpp_time` gives on this pass.
      Fields a pass does not reach are ignored. */
  datatype Poll = Poll(
    ret: int,
    frame: Frame,
    left: nat,
    grp: nat,
    setGrpRet: int,
    readyRet: int,
    usage: nat,
    now: int)

  predicate IsEosPicture(p: Poll)
  {
    p.frame.Picture? && p.frame.eos
  }

  /** Number of decoded pictures (not info-change frames) in a trace. */
  function Pictures(s: seq<Poll>): nat
  {
    if s == [] then 0 else (if s[0].frame.Picture? then 1 else 0) + Pictures(s[1..])
  }

  /** Some pass of the trace returned a picture with its end-of-stream flag set. */
  predicate EosPictureIn(s: seq<Poll>)
  {
    s != [] && (IsEosPicture(s[0]) || EosPictureIn(s[1..]))
  }

  /** `EosPictureIn` holds exactly when some element is an eos picture. */
  lemma {:induction false} EosPictureInIndex(s: seq<Poll>)
    ensures EosPictureIn(s) <==> exists i :: 0 <= i < |s| && IsEosPicture(s[i])
    decreases |s|
  {
    if s != [] {
      EosPictureInIndex(s[1..]);
      if exists i :: 0 <= i < |s[1..]| && IsEosPicture(s[1..][i]) {
        var i :| 0 <= i < |s[1..]| && IsEosPicture(s[1..][i]);
        assert s[i + 1] == s[1..][i];
      }
      if exists i :: 0 <= i < |s| && IsEosPicture(s[i]) {
        var i :| 0 <= i < |s| && IsEosPicture(s[i]);
        if i > 0 {
          assert s[1..][i - 1] == s[i];
        }
      }
    }
  }

  /** A prefix of length `a + b` is the prefix of length `a` followed by
      `b` elements of what comes after it. */
  lemma PrefixSplit<T>(s: seq<T>, a: nat, b: nat)
    requires a <= |s| && b <= |s| - a
    ensures s[..a + b] == s[..a] + s[a..][..b]
  {
  }

  /** Dropping `i` and then `k` elements drops `i + k`. */
  lemma DropDrop<T>(s: seq<T>, i: nat, k: nat)
    requires i <= |s| && k <= |s| - i
    ensures s[i..][k..] == s[i + k..]
  {
  }

  /** Number of slots of a trace on which the reader reported end of stream. */
  function EosSlots(s: seq<Slot>): nat
  {
    if s == [] then 0 else (if s[0].eos then 1 else 0) + EosSlots(s[1..])
  }

  lemma {:induction false} PicturesAppend(x: seq<Poll>, y: seq<Poll>)
    ensures Pictures(x + y) == Pictures(x) + Pictures(y)
    decreases |x|
  {
    if x == [] {
      assert x + y == y;
    } else {
      assert (x + y)[0] == x[0];
      assert (x + y)[1..] == x[1..] + y;
      PicturesAppend(x[1..], y);
    }
  }

  lemma {:induction false} EosPictureAppend(x: seq<Poll>, y: seq<Poll>)
    ensures EosPictureIn(x + y) <==> EosPictureIn(x) || EosPictureIn(y)
    decreases |x|
  {
    if x == [] {
      assert x + y == y;
    } else {
      assert (x + y)[0] == x[0];
      assert (x + y)[1..] == x[1..] + y;
      EosPictureAppend(x[1..], y);
    }
  }

  /** `EosPictureIn` of a prefix of length `a + b` splits at `a`. */
  lemma EosPicturePrefixSplit(s: seq<Poll>, a: nat, b: nat)
    requires a <= |s| && b <= |s| - a
    ensures EosPictureIn(s[..a + b]) <==> EosPictureIn(s[..a]) || EosPictureIn(s[a..][..b])
  {
    PrefixSplit(s, a, b);
    EosPictureAppend(s[..a], s[a..][..b]);
  }

  /** `EosSlots` of a non-empty prefix splits off its first element. */
  lemma EosSlotsPrefix(s: seq<Slot>, k: nat)
    requires 0 < k <= |s|
    ensures EosSlots(s[..k]) == (if s[0].eos then 1 else 0) + EosSlots(s[1..][..k - 1])
  {
    assert s[..k][1..] == s[1..][..k - 1];
  }

  /** `Pictures` of a non-empty prefix splits off its first element. */
  lemma {:induction false} PicturesPrefix(s: seq<Poll>, k: nat)
    requires 0 < k <= |s|
    ensures Pictures(s[..k]) == (if s[0].frame.Picture? then 1 else 0) + Pictures(s[1..][..k - 1])
  {
    assert s[..k][1..] == s[1..][..k - 1];
  }

  /** `EosPictureIn` of a non-empty prefix splits off its first element. */
  lemma EosPicturePrefix(s: seq<Poll>, k: nat)
    requires 0 < k <= |s|
    ensures EosPictureIn(s[..k]) <==> IsEosPicture(s[0]) || EosPictureIn(s[1..][..k - 1])
  {
    assert s[..k][0] == s[0];
    assert s[..k][1..] == s[1..][..k - 1];
  }
}
