/** The parameterised read test: a channel with the given capacity (and no
    unpersisted-bytes bound) over an empty file, optionally written with a buffer
    of `numWriteBytes` bytes, is read into a destination that can take
    `numReadBytes` bytes (or into a null destination). Each active row is replayed
    by one lemma; the test's own oracle for the returned count is `ExpectedCount`. */
module ChannelReadTest {
  import opened Common
  import opened BufferedChannel

  /** The channel the test's `configure` builds. */
  function Configured(capacity: nat, write: bool, src: seq<Byte>): (ch: Channel)
    requires !write || capacity > 0 || src == []
    ensures Valid(ch) && ch.capacity == capacity && ch.bound == 0
    ensures Stream(ch) == if write then src else []
  {
    var initial := Create([], capacity, 0).value;
    if write then Write(initial, src) else initial
  }

  /** The count the test expects from a read that does not throw. Its two-armed
      guard says no more than that `len` is positive and at most the smaller of
      the bytes available from `pos` and the destination's room. */
  function ExpectedCount(numWriteBytes: int, numReadBytes: int, pos: int, len: int): (c: int)
    ensures 0 < len <= Min(numWriteBytes - pos, numReadBytes) ==>
              c == Min(numWriteBytes - pos, numReadBytes)
    ensures !(0 < len <= Min(numWriteBytes - pos, numReadBytes)) ==> c == 0
  {
    var d := numWriteBytes - pos;
    if ((d <= numReadBytes && d >= len) || (d > numReadBytes && numReadBytes >= len)) && len > 0
    then Min(d, numReadBytes)
    else 0
  }

  /** Every read of written data that succeeds returns the count the test's oracle
      expects, and a read succeeds exactly when its position is in range and it
      asks for no more than the data and the destination can give. */
  lemma ReadMatchesOracle(capacity: nat, src: seq<Byte>, room: nat, pos: int, len: int)
    requires capacity > 0
    ensures var r := Read(Configured(capacity, true, src), Some(room), pos, len);
            && (r.Ok? <==> 0 <= pos <= |src| && (len <= 0 || len <= Min(|src| - pos, room)))
            && (r.Ok? ==> |r.value| == ExpectedCount(|src|, room, pos, len))
  {
  }

  /** Null destination, nothing written, 2 bytes asked: NullPointerException comes
      before any range check. */
  lemma Row64NullDestination()
    ensures Read(Configured(15, false, []), None, 0, 2) == Err(NullPointer)
  {
  }

  /** Negative position. */
  lemma Row66NegativePosition(src: seq<Byte>)
    requires |src| == 2
    ensures Read(Configured(15, true, src), Some(2), -1, 3) == Err(IllegalArgument)
  {
  }

  /** Position beyond the two bytes written. */
  lemma Row67PositionPastEnd(src: seq<Byte>)
    requires |src| == 2
    ensures Read(Configured(15, true, src), Some(2), 20, 3) == Err(IllegalArgument)
  {
  }

  /** A negative length is no error: nothing is copied, matching the oracle's 0. */
  lemma Row68NegativeLength(src: seq<Byte>)
    requires |src| == 2
    ensures Read(Configured(15, true, src), Some(2), 0, -2) == Ok([])
    ensures ExpectedCount(2, 2, 0, -2) == 0
  {
  }

  /** Five bytes asked where two exist: an IOException, not a short count. */
  lemma Row69ReadPastWritten(src: seq<Byte>)
    requires |src| == 2
    ensures Read(Configured(15, true, src), Some(2), 0, 5) == Err(IOError)
  {
  }

  /** Cross-check against a disabled row: 256 bytes into capacity 255 leave 255
      bytes in the file and one in the buffer, and a 256-byte read stitches both. */
  lemma Row105StraddlingRead(src: seq<Byte>)
    requires |src| == 256
    ensures Configured(255, true, src).flushed == src[..255]
    ensures Configured(255, true, src).buf == src[255..]
    ensures Read(Configured(255, true, src), Some(256), 0, 256) == Ok(src)
  {
    var ch := Configured(255, true, src);
    assert Stream(ch) == src;
    assert |ch.buf| == 1;
    assert Stream(ch)[0..256] == src;
  }
}
