/** Properties of the buffered channel that relate several calls: the logical
    stream is the concatenation of everything written, reads return slices of it
    whatever the flush timing, and flushing is idempotent. */
module ChannelProperties {
  import opened Common
  import opened BufferedChannel

  /** All bytes of a sequence of writes, in order. */
  function Concat(ws: seq<seq<Byte>>): (all: seq<Byte>)
  {
    if ws == [] then [] else Concat(ws[..|ws| - 1]) + ws[|ws| - 1]
  }

  /** The channel after the writes `ws`, issued in order. */
  function WriteAll(ch: Channel, ws: seq<seq<Byte>>): (r: Channel)
    requires Valid(ch) && ch.capacity > 0
    ensures Valid(r) && r.capacity == ch.capacity && r.bound == ch.bound
    decreases |ws|
  {
    if ws == [] then ch else Write(WriteAll(ch, ws[..|ws| - 1]), ws[|ws| - 1])
  }

  /** The channel's logical stream is its initial contents followed by every byte
      written, however the writes were split into flushes and syncs. */
  lemma {:induction false} WriteAllStream(ch: Channel, ws: seq<seq<Byte>>)
    requires Valid(ch) && ch.capacity > 0
    ensures Stream(WriteAll(ch, ws)) == Stream(ch) + Concat(ws)
    ensures Position(WriteAll(ch, ws)) == Position(ch) + |Concat(ws)|
    decreases |ws|
  {
    if ws != [] {
      WriteAllStream(ch, ws[..|ws| - 1]);
    }
  }

  /** On a channel opened over an empty file, the logical end used for the range
      checks of `read` is the number of bytes written since construction. */
  lemma PositionIsBytesWritten(capacity: nat, bound: int, ws: seq<seq<Byte>>)
    requires capacity > 0
    ensures Position(WriteAll(Create([], capacity, bound).value, ws)) == |Concat(ws)|
  {
    WriteAllStream(Create([], capacity, bound).value, ws);
  }

  /** Round trip: after any sequence of writes into a fresh channel, a read that
      asks for written bytes only and fits its destination returns exactly the
      written bytes from `pos` on, as many as the destination takes. */
  lemma ReadRoundTrip(capacity: nat, bound: int, ws: seq<seq<Byte>>, room: nat, pos: int, len: int)
    requires capacity > 0
    requires 0 <= pos && 0 < len && pos + len <= |Concat(ws)| && len <= room
    ensures var n := Min(|Concat(ws)| - pos, room);
            Read(WriteAll(Create([], capacity, bound).value, ws), Some(room), pos, len)
              == Ok(Concat(ws)[pos..pos + n])
  {
    var ch := Create([], capacity, bound).value;
    WriteAllStream(ch, ws);
    var w := WriteAll(ch, ws);
    assert Stream(w) == Concat(ws);
    var r := Read(w, Some(room), pos, len);
    assert r.Ok?;
  }

  /** Reads do not depend on flush timing: flushing the buffer changes no read. */
  lemma FlushPreservesReads(ch: Channel, dest: Option<nat>, pos: int, len: int)
    requires Valid(ch)
    ensures Read(Flush(ch), dest, pos, len) == Read(ch, dest, pos, len)
  {
  }

  /** Flushing twice moves no further bytes to the file than flushing once. */
  lemma FlushIdempotent(ch: Channel)
    ensures Flush(Flush(ch)) == Flush(ch)
  {
  }

  /** The resident buffer never exceeds its capacity, after any write sequence. */
  lemma BufferBound(ch: Channel, ws: seq<seq<Byte>>)
    requires Valid(ch) && ch.capacity > 0
    ensures NumOfBytesInWriteBuffer(WriteAll(ch, ws)) < ch.capacity
  {
  }
}
