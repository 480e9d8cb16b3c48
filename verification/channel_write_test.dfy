/** The parameterised write test: open a channel of a given capacity and
    unpersisted-bytes bound over an empty file, write one buffer, and observe how
    many bytes stay resident in the write buffer. Each active row from line 63 on
    is replayed by one lemma; row 62 is not, as its NullPointerException comes
    from the test reading a channel it never constructed. The byte contents are
    arbitrary, as the test fills its buffer with random bytes. */
module ChannelWriteTest {
  import opened BufferedChannel

  /** Construct, write `src`, and return `getNumOfBytesInWriteBuffer()`. From an
      empty channel, only the remainder of the last partial chunk stays buffered,
      unless the bound is positive and reached, in which case nothing does. */
  function BytesBufferedAfterWrite(capacity: nat, bound: int, src: seq<Byte>): (n: nat)
    requires capacity > 0 || src == []
    ensures n <= capacity
    ensures bound > 0 && |src| >= bound ==> n == 0
    ensures !(bound > 0 && |src| >= bound) && capacity > 0 ==> n == |src| % capacity
    ensures src == [] ==> n == 0
  {
    var ch := Create([], capacity, bound).value;
    NumOfBytesInWriteBuffer(Write(ch, src))
  }

  /** Bound disabled: 50 bytes into capacity 20 flush two full chunks and keep 10. */
  lemma Row63Capacity20Unbounded(src: seq<Byte>)
    requires |src| == 50
    ensures BytesBufferedAfterWrite(20, 0, src) == 10
  {
  }

  /** Bound 2 is reached by 50 bytes: nothing stays buffered. */
  lemma Row64Capacity20Bound2(src: seq<Byte>)
    requires |src| == 50
    ensures BytesBufferedAfterWrite(20, 2, src) == 0
  {
  }

  /** Bound disabled: a write smaller than the buffer stays entirely buffered. */
  lemma Row65Capacity100Unbounded(src: seq<Byte>)
    requires |src| == 50
    ensures BytesBufferedAfterWrite(100, 0, src) == 50
  {
  }

  /** Bound 2 is reached: the buffer is emptied although the write would fit. */
  lemma Row66Capacity100Bound2(src: seq<Byte>)
    requires |src| == 50
    ensures BytesBufferedAfterWrite(100, 2, src) == 0
  {
  }

  /** A write that exactly fills the buffer flushes it at once. */
  lemma Row67Capacity50Unbounded(src: seq<Byte>)
    requires |src| == 50
    ensures BytesBufferedAfterWrite(50, 0, src) == 0
  {
  }

  lemma Row68Capacity50Bound2(src: seq<Byte>)
    requires |src| == 50
    ensures BytesBufferedAfterWrite(50, 2, src) == 0
  {
  }

  /** An empty write leaves the buffer empty. */
  lemma Row69EmptyWrite()
    ensures BytesBufferedAfterWrite(50, 0, []) == 0
  {
  }

  /** A positive bound larger than the bytes written does not trigger. */
  lemma Row71Bound100NotReached(src: seq<Byte>)
    requires |src| == 50
    ensures BytesBufferedAfterWrite(100, 100, src) == 50
  {
  }

  /** The bound triggers at equality. */
  lemma Row73Bound50ReachedExactly(src: seq<Byte>)
    requires |src| == 50
    ensures BytesBufferedAfterWrite(100, 50, src) == 0
  {
  }
}
