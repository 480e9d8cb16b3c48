/** A write-back byte channel over one append-only file.

    The logical stream a caller sees is the file prefix (`flushed`) followed by the
    in-memory tail (`buf`). Writes are copied into the tail chunk by chunk; a tail
    that becomes exactly full is written to the file at once. A positive `bound`
    on unpersisted bytes forces a flush and a sync once it is reached. */
module BufferedChannel {
  import opened Common
  import Arith

  newtype Byte = x: int | 0 <= x < 256

  datatype Channel = Channel(
    capacity: nat,      // size of the write buffer, fixed at construction
    bound: int,         // unpersisted-bytes bound; zero or negative disables forced syncs
    flushed: seq<Byte>, // bytes already handed to the file
    buf: seq<Byte>,     // bytes still resident in the write buffer
    position: nat,      // the logical end, a counter advanced by each write
    unpersisted: nat)   // bytes written since the last forced sync

  /** The buffer part of the invariant: a full buffer never survives a write (it
      is flushed the moment it fills), and a positive bound is never left reached. */
  predicate BufferValid(ch: Channel) {
    && (|ch.buf| < ch.capacity || ch.buf == [])
    && (ch.bound > 0 ==> ch.unpersisted < ch.bound)
  }

  /** The channel invariant between public calls: in addition, the position
      counter is where the file prefix and the buffered tail together end. */
  predicate Valid(ch: Channel) {
    BufferValid(ch) && ch.position == |ch.flushed| + |ch.buf|
  }

  /** The logical byte stream: file contents followed by the buffered tail. */
  function Stream(ch: Channel): seq<Byte> {
    ch.flushed + ch.buf
  }

  /** The logical end of the channel, where the next write lands. */
  function Position(ch: Channel): (p: nat)
    requires Valid(ch)
    ensures p == |Stream(ch)|
  {
    ch.position
  }

  /** Number of bytes resident in the write buffer (`getNumOfBytesInWriteBuffer`). */
  function NumOfBytesInWriteBuffer(ch: Channel): (n: nat)
    requires Valid(ch)
    ensures n <= ch.capacity
    ensures n == Position(ch) - |ch.flushed|
  {
    |ch.buf|
  }

  /** Opens a channel over a file whose current contents are `file`, positioned at
      its end. A negative capacity cannot be allocated. */
  function Create(file: seq<Byte>, capacity: int, bound: int): (r: Result<Channel>)
    ensures r.Err? <==> capacity < 0
    ensures r.Err? ==> r.error == IllegalArgument
    ensures r.Ok? ==> && Valid(r.value) && Stream(r.value) == file && r.value.buf == []
                      && r.value.capacity == capacity && r.value.bound == bound
                      && r.value.unpersisted == 0 && Position(r.value) == |file|
  {
    if capacity < 0 then Err(IllegalArgument)
    else Ok(Channel(capacity, bound, file, [], |file|, 0))
  }

  /** Hands the whole write buffer to the file. */
  function Flush(ch: Channel): (r: Channel)
    ensures Stream(r) == Stream(ch)
    ensures r.buf == [] && ch.flushed <= r.flushed
    ensures r.capacity == ch.capacity && r.bound == ch.bound && r.unpersisted == ch.unpersisted
    ensures r.position == ch.position
    ensures Valid(ch) ==> Valid(r)
  {
    ch.(flushed := ch.flushed + ch.buf, buf := [])
  }

  /** Syncs the file: every byte written so far is now persisted. */
  function ForceWrite(ch: Channel): (r: Channel)
    ensures r.unpersisted == 0
    ensures Stream(r) == Stream(ch) && r.buf == ch.buf
    ensures r.capacity == ch.capacity && r.bound == ch.bound && r.position == ch.position
  {
    ch.(unpersisted := 0)
  }

  /** The copy loop of `write`: copy as much of `src` as fits into the buffer,
      flush the buffer when it is exactly full, repeat until `src` is consumed.
      A zero-capacity buffer can only take an empty write. The loop does not
      touch the position counter; `Write` advances it afterwards. */
  function CopyIn(ch: Channel, src: seq<Byte>): (r: Channel)
    requires BufferValid(ch)
    requires ch.capacity > 0 || src == []
    ensures BufferValid(r)
    ensures Stream(r) == Stream(ch) + src
    ensures ch.flushed <= r.flushed
    ensures r.capacity == ch.capacity && r.bound == ch.bound && r.unpersisted == ch.unpersisted
    ensures r.position == ch.position
    ensures ch.capacity > 0 ==> |r.buf| == (|ch.buf| + |src|) % ch.capacity
    decreases |src|
  {
    if src == [] then ch
    else if |ch.buf| + |src| < ch.capacity then
      // the whole source fits without filling the buffer
      Arith.ModBelow(|ch.buf| + |src|, ch.capacity);
      ch.(buf := ch.buf + src)
    else
      // fill the buffer exactly, flush it, and carry on with the rest
      var k := ch.capacity - |ch.buf|;
      var next := Flush(ch.(buf := ch.buf + src[..k]));
      assert src[..k] + src[k..] == src;
      Arith.ModAfterWrap(|ch.buf| + |src|, ch.capacity, true);
      CopyIn(next, src[k..])
  }

  /** True when a write of `n` bytes reaches a positive unpersisted-bytes bound.
      The counter counts bytes as they are appended, whether or not they reached
      the file, and the bound is met at equality. */
  predicate ReachesBound(ch: Channel, n: nat)
    ensures ReachesBound(ch, n) ==> ch.bound > 0
    ensures ch.bound > 0 && n >= ch.bound ==> ReachesBound(ch, n)
    ensures ch.bound > 0 && ch.unpersisted + n < ch.bound ==> !ReachesBound(ch, n)
  {
    ch.bound > 0 && ch.unpersisted + n >= ch.bound
  }

  /** `write(src)`: append `src` to the logical stream; if a positive bound is
      reached, flush the whole buffer and sync. */
  function Write(ch: Channel, src: seq<Byte>): (r: Channel)
    requires Valid(ch)
    requires ch.capacity > 0 || src == []
    ensures Valid(r)
    ensures Stream(r) == Stream(ch) + src
    ensures Position(r) == Position(ch) + |src|
    ensures ch.flushed <= r.flushed
    ensures r.capacity == ch.capacity && r.bound == ch.bound
    ensures ReachesBound(ch, |src|) ==> r.buf == [] && r.unpersisted == 0
    ensures !ReachesBound(ch, |src|) ==> r.unpersisted == ch.unpersisted + |src|
    ensures !ReachesBound(ch, |src|) && ch.capacity > 0 ==>
              |r.buf| == (|ch.buf| + |src|) % ch.capacity
  {
    var copied := CopyIn(ch, src);
    var counted := copied.(position := copied.position + |src|,
                           unpersisted := copied.unpersisted + |src|);
    if ReachesBound(ch, |src|) then ForceWrite(Flush(counted)) else counted
  }

  /** The bytes at `[pos, pos + n)` of the logical stream, taken from the file,
      from the buffer, or stitched from both. */
  function Resolve(ch: Channel, pos: nat, n: nat): (r: seq<Byte>)
    requires pos + n <= |Stream(ch)|
    ensures r == Stream(ch)[pos..pos + n]
  {
    var f := |ch.flushed|;
    if pos + n <= f then
      ch.flushed[pos..pos + n]
    else if pos >= f then
      ch.buf[pos - f..pos + n - f]
    else
      ch.flushed[pos..] + ch.buf[..pos + n - f]
  }

  /** `read(dest, pos, len)`. `dest` is the destination buffer, given by the number
      of bytes it can still take (`None` is a null reference). The bytes copied are
      returned; their number is the Java return value.
      A read copies every stream byte from `pos` that fits into `dest`; it fails
      when fewer than `len` bytes could be copied. */
  function Read(ch: Channel, dest: Option<nat>, pos: int, len: int): (r: Result<seq<Byte>>)
    requires Valid(ch)
    ensures r == Err(NullPointer) <==> dest.None?
    ensures r == Err(IllegalArgument) <==> dest.Some? && (pos < 0 || pos > Position(ch))
    ensures r == Err(IOError) <==>
              && dest.Some? && 0 <= pos <= Position(ch) && len > 0
              && len > Min(Position(ch) - pos, dest.value)
    ensures r.Ok? ==> 0 <= pos && pos + |r.value| <= Position(ch)
                      && r.value == Stream(ch)[pos..pos + |r.value|]
    ensures r.Ok? && len > 0 ==> len <= |r.value| == Min(Position(ch) - pos, dest.value)
    ensures r.Ok? && len <= 0 ==> r.value == []
  {
    if dest.None? then Err(NullPointer)
    else if pos < 0 || pos > Position(ch) then Err(IllegalArgument)
    else if len <= 0 then Ok([])
    else
      var n := Min(Position(ch) - pos, dest.value);
      if len > n then Err(IOError) else Ok(Resolve(ch, pos, n))
  }
}
