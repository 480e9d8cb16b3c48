# BookKeeper buffered channel and ledger placement, modelled in Dafny

This project models two pieces of Apache BookKeeper's server:

- **`BufferedChannel`**, the write-back byte channel a bookie uses in front of its
  entry-log and journal files. Callers append bytes with `write`. The bytes go
  into a fixed-capacity in-memory write buffer, and the buffer is handed to the
  file as soon as it is exactly full. An *unpersisted-bytes bound*, when positive,
  forces a flush and a sync once that many bytes have been written since the last
  sync. `read(dest, pos, len)` serves any logical offset. It reads from the file
  prefix, from the buffered tail, or from both stitched together.
- **`BookKeeperAdmin.areEntriesOfLedgerStoredInTheBookie`**, a pure predicate. It
  decides from a ledger's metadata whether a given bookie stores any of the
  ledger's entries.

The behaviour is pinned down by the repository's parameterised JUnit tests, whose
parameter tables and oracles are the source this model follows. Each active test
row is replayed by a lemma named after its line, with two exceptions:
- Write row 62 is not replayed; see "## Left out".
- Placement rows 81 and 82 repeat row 79's arguments, so the row 79 lemma covers them.

Layout:

- `common.dfy` (`Common`): exception classes as an `Error` datatype, `Option` for
  nullable references, `Result`.
- `arith.dfy` (`Arith`): Euclidean-division facts for the buffer fill level.
- `buffered_channel.dfy` (`BufferedChannel`): the channel state and its
  operations.
- `channel_properties.dfy` (`ChannelProperties`): facts that relate several calls.
  These are the stream invariant, the read round trip, flush-independence of
  reads, and flush idempotence.
- `channel_write_test.dfy`, `channel_read_test.dfy`: the two channel test tables.
- `ledger_placement.dfy` (`LedgerPlacement`), `ledger_placement_test.dfy`: the
  placement predicate and its test table.

The channel state is a `Channel` value. It holds the capacity, the bound, the file
contents `flushed`, the write buffer `buf`, the `position` counter (the logical
end, which `write` advances) and the unpersisted-byte counter. The logical stream
is `flushed + buf`. `Valid` is the invariant every write keeps:
- a non-empty buffer is strictly below capacity;
- a positive bound is never left reached;
- the position counter equals the length of the logical stream.

## Model

| member | source | states |
|---|---|---|
| BufferedChannel.Create | bookkeeper-server/src/test/java/org/apache/bookkeeper/bookie/BufferedChannelWriteTest.java:84 | A channel opened at the end of a file has that file as its stream, an empty buffer and no unpersisted bytes, with the given capacity and bound. A negative capacity fails with IllegalArgument. |
| BufferedChannel.NumOfBytesInWriteBuffer | bookkeeper-server/src/test/java/org/apache/bookkeeper/bookie/BufferedChannelWriteTest.java:88 | The resident byte count never exceeds the capacity. It is the distance from the flushed boundary to the logical end. |
| BufferedChannel.Position | bookkeeper-server/src/test/java/org/apache/bookkeeper/bookie/BufferedChannelReadTest.java:67-69 | On a valid channel, the position counter used by the read range checks equals the length of the logical stream, file prefix plus buffered tail. |
| BufferedChannel.Flush | bookkeeper-server/src/test/java/org/apache/bookkeeper/bookie/BufferedChannelWriteTest.java:66 | A flush empties the buffer and only extends the file prefix. The logical stream is unchanged. |
| BufferedChannel.ForceWrite | bookkeeper-server/src/test/java/org/apache/bookkeeper/bookie/BufferedChannelWriteTest.java:73 | A sync resets the unpersisted count to zero and leaves the stream and the buffer alone. |
| BufferedChannel.CopyIn | bookkeeper-server/src/test/java/org/apache/bookkeeper/bookie/BufferedChannelWriteTest.java:63-67 | The chunked copy appends the source to the stream and keeps the invariant. The file prefix only grows. The buffer ends at (old fill + bytes written) mod capacity. |
| BufferedChannel.Write | bookkeeper-server/src/test/java/org/apache/bookkeeper/bookie/BufferedChannelWriteTest.java:62-73 | A write appends the source to the stream and keeps the invariant. If it reaches a positive bound, it leaves the buffer empty and the counter at zero. Otherwise the counter grows by the write and the fill is (old fill + bytes written) mod capacity. The position advances by the bytes written. |
| BufferedChannel.ReachesBound | bookkeeper-server/src/test/java/org/apache/bookkeeper/bookie/BufferedChannelWriteTest.java:71-73 | A non-positive bound never triggers. A positive bound triggers whenever the write alone is at least the bound, so equality triggers. It never triggers while the counter plus the write stays below the bound. |
| BufferedChannel.Resolve | bookkeeper-server/src/test/java/org/apache/bookkeeper/bookie/BufferedChannelReadTest.java:105 | Taking a range from the file, from the buffer, or from both gives exactly that slice of the logical stream. |
| BufferedChannel.Read | bookkeeper-server/src/test/java/org/apache/bookkeeper/bookie/BufferedChannelReadTest.java:110-132 | Checks run in this order: a null destination gives NullPointer; a position below 0 or past the end gives IllegalArgument; a non-positive length gives 0 bytes. Asking for more than min(end − pos, destination room) gives IOError. Otherwise the read returns that many stream bytes from pos, which can be more than len. |
| ChannelProperties.WriteAllStream | bookkeeper-server/src/test/java/org/apache/bookkeeper/bookie/BufferedChannelReadTest.java:47-57 | After any sequence of writes, the logical stream is the initial contents followed by every byte written, and the end advances by the total. |
| ChannelProperties.PositionIsBytesWritten | bookkeeper-server/src/test/java/org/apache/bookkeeper/bookie/BufferedChannelReadTest.java:48-51 | On a channel over an empty file, the logical end is the number of bytes written since construction. |
| ChannelProperties.ReadRoundTrip | bookkeeper-server/src/test/java/org/apache/bookkeeper/bookie/BufferedChannelReadTest.java:121-124 | After any writes into a fresh channel, an in-range read that fits its destination returns exactly the written bytes from pos, as many as the destination takes. |
| ChannelProperties.FlushPreservesReads | bookkeeper-server/src/test/java/org/apache/bookkeeper/bookie/BufferedChannelReadTest.java:105 | Every read gives the same outcome before and after a flush, so the result does not depend on flush timing. |
| ChannelProperties.FlushIdempotent | bookkeeper-server/src/test/java/org/apache/bookkeeper/bookie/BufferedChannelWriteTest.java:68 | A second flush moves nothing more to the file. |
| ChannelProperties.BufferBound | bookkeeper-server/src/test/java/org/apache/bookkeeper/bookie/BufferedChannelWriteTest.java:63-73 | After any sequence of writes, the resident count stays strictly below the capacity. |
| ChannelWriteTest.BytesBufferedAfterWrite | bookkeeper-server/src/test/java/org/apache/bookkeeper/bookie/BufferedChannelWriteTest.java:79-95 | After one write into a fresh channel, the bytes left buffered are: 0 if a positive bound is reached, otherwise the write length mod capacity. An empty write leaves 0, and the count never exceeds the capacity. |
| ChannelWriteTest.Row63Capacity20Unbounded | bookkeeper-server/src/test/java/org/apache/bookkeeper/bookie/BufferedChannelWriteTest.java:63 | 50 bytes into capacity 20 with no bound leave 10 bytes buffered. |
| ChannelWriteTest.Row64Capacity20Bound2 | bookkeeper-server/src/test/java/org/apache/bookkeeper/bookie/BufferedChannelWriteTest.java:64 | With bound 2, 50 bytes into capacity 20 leave 0 bytes buffered. |
| ChannelWriteTest.Row65Capacity100Unbounded | bookkeeper-server/src/test/java/org/apache/bookkeeper/bookie/BufferedChannelWriteTest.java:65 | 50 bytes into capacity 100 with no bound leave all 50 buffered. |
| ChannelWriteTest.Row66Capacity100Bound2 | bookkeeper-server/src/test/java/org/apache/bookkeeper/bookie/BufferedChannelWriteTest.java:66 | With bound 2, 50 bytes into capacity 100 leave 0 bytes buffered. |
| ChannelWriteTest.Row67Capacity50Unbounded | bookkeeper-server/src/test/java/org/apache/bookkeeper/bookie/BufferedChannelWriteTest.java:67 | 50 bytes exactly fill capacity 50 and are flushed, leaving 0. |
| ChannelWriteTest.Row68Capacity50Bound2 | bookkeeper-server/src/test/java/org/apache/bookkeeper/bookie/BufferedChannelWriteTest.java:68 | With bound 2, 50 bytes into capacity 50 leave 0 bytes buffered. |
| ChannelWriteTest.Row69EmptyWrite | bookkeeper-server/src/test/java/org/apache/bookkeeper/bookie/BufferedChannelWriteTest.java:69 | An empty write into capacity 50 leaves 0 bytes buffered. |
| ChannelWriteTest.Row71Bound100NotReached | bookkeeper-server/src/test/java/org/apache/bookkeeper/bookie/BufferedChannelWriteTest.java:71 | Bound 100 is not reached by 50 bytes, which stay buffered in capacity 100. |
| ChannelWriteTest.Row73Bound50ReachedExactly | bookkeeper-server/src/test/java/org/apache/bookkeeper/bookie/BufferedChannelWriteTest.java:73 | Bound 50 is reached exactly by 50 bytes, leaving 0 buffered. |
| ChannelReadTest.Configured | bookkeeper-server/src/test/java/org/apache/bookkeeper/bookie/BufferedChannelReadTest.java:47-57 | The test's channel is valid, unbounded, of the given capacity. Its stream is the written buffer, or empty when nothing is written. |
| ChannelReadTest.ExpectedCount | bookkeeper-server/src/test/java/org/apache/bookkeeper/bookie/BufferedChannelReadTest.java:121-126 | The oracle's two-armed guard reduces to 0 < len ≤ min(written − pos, room). The expected count is that minimum when the guard holds, and 0 otherwise. |
| ChannelReadTest.ReadMatchesOracle | bookkeeper-server/src/test/java/org/apache/bookkeeper/bookie/BufferedChannelReadTest.java:110-132 | For any written data, a read succeeds exactly when pos is in range and len is at most min(written − pos, destination room). Every successful count equals the test's expected count. |
| ChannelReadTest.Row64NullDestination | bookkeeper-server/src/test/java/org/apache/bookkeeper/bookie/BufferedChannelReadTest.java:64 | A null destination on an unwritten channel, asking for 2 bytes, gives NullPointer, not a range error. |
| ChannelReadTest.Row66NegativePosition | bookkeeper-server/src/test/java/org/apache/bookkeeper/bookie/BufferedChannelReadTest.java:66 | Position −1 gives IllegalArgument. |
| ChannelReadTest.Row67PositionPastEnd | bookkeeper-server/src/test/java/org/apache/bookkeeper/bookie/BufferedChannelReadTest.java:67 | Position 20 with 2 bytes written gives IllegalArgument. |
| ChannelReadTest.Row68NegativeLength | bookkeeper-server/src/test/java/org/apache/bookkeeper/bookie/BufferedChannelReadTest.java:68 | Length −2 copies nothing, without error, as the oracle's 0 expects. |
| ChannelReadTest.Row69ReadPastWritten | bookkeeper-server/src/test/java/org/apache/bookkeeper/bookie/BufferedChannelReadTest.java:69 | Asking for 5 bytes from position 0 with 2 written gives IOError. |
| ChannelReadTest.Row105StraddlingRead | bookkeeper-server/src/test/java/org/apache/bookkeeper/bookie/BufferedChannelReadTest.java:105 | 256 bytes into capacity 255 leave 255 bytes in the file and 1 in the buffer. A 256-byte read returns all of them. |
| LedgerPlacement.SegmentHoldsEntries | bookkeeper-server/src/test/java/org/apache/bookkeeper/client/BookKeeperAdminAreEntriesOfLedgerStoredInTheBookieTest.java:86 | Every segment but the last holds entries, and so does every segment of an open ledger. The last segment of a closed ledger holds entries exactly when it covers the last entry id. |
| LedgerPlacement.StoredFrom | bookkeeper-server/src/test/java/org/apache/bookkeeper/client/BookKeeperAdminAreEntriesOfLedgerStoredInTheBookieTest.java:94 | The scan over segments from i on is true exactly when some later segment both contains the bookie and holds entries. |
| LedgerPlacement.AreEntriesOfLedgerStoredInTheBookie | bookkeeper-server/src/test/java/org/apache/bookkeeper/client/BookKeeperAdminAreEntriesOfLedgerStoredInTheBookieTest.java:90-98 | Null metadata gives NullPointer; any other input gives a boolean. The result is true exactly when the bookie is present and in the ensemble of a segment that holds entries. |
| LedgerPlacement.AbsentBookieStoresNothing | bookkeeper-server/src/test/java/org/apache/bookkeeper/client/BookKeeperAdminAreEntriesOfLedgerStoredInTheBookieTest.java:84-86 | A bookie in no ensemble gives false, not an error. |
| LedgerPlacement.OpenLedgerMembership | bookkeeper-server/src/test/java/org/apache/bookkeeper/client/BookKeeperAdminAreEntriesOfLedgerStoredInTheBookieTest.java:71-74 | On an open ledger, the result is true exactly when the bookie is in some ensemble. |
| LedgerPlacement.ClosedLedgerCoverage | bookkeeper-server/src/test/java/org/apache/bookkeeper/client/BookKeeperAdminAreEntriesOfLedgerStoredInTheBookieTest.java:71-74 | On a closed ledger whose non-trailing segments start at or before the last entry, the result is true exactly when the bookie is in the ensemble of a segment covering some entry up to the last one. |
| LedgerPlacementTest.Fixture | bookkeeper-server/src/test/java/org/apache/bookkeeper/client/BookKeeperAdminAreEntriesOfLedgerStoredInTheBookieTest.java:47-76 | The test's metadata is closed and ordered by first entry, with a write quorum equal to an ensemble size of 3 that every ensemble has. |
| LedgerPlacementTest.Row79BookieOfFirstSegment | bookkeeper-server/src/test/java/org/apache/bookkeeper/client/BookKeeperAdminAreEntriesOfLedgerStoredInTheBookieTest.java:79 | bookie0, in the first segment's ensemble, gives true. Rows 81 and 82 repeat the same arguments. |
| LedgerPlacementTest.Row80NullMetadata | bookkeeper-server/src/test/java/org/apache/bookkeeper/client/BookKeeperAdminAreEntriesOfLedgerStoredInTheBookieTest.java:80 | Null metadata gives NullPointer. |
| LedgerPlacementTest.Row83BookieOfBothSegments | bookkeeper-server/src/test/java/org/apache/bookkeeper/client/BookKeeperAdminAreEntriesOfLedgerStoredInTheBookieTest.java:83 | bookie1, in both ensembles, gives true. |
| LedgerPlacementTest.Row84NullBookie | bookkeeper-server/src/test/java/org/apache/bookkeeper/client/BookKeeperAdminAreEntriesOfLedgerStoredInTheBookieTest.java:84 | A null bookie gives false, not an error. |
| LedgerPlacementTest.Row86BookieOnlyOfEmptyTrailingSegment | bookkeeper-server/src/test/java/org/apache/bookkeeper/client/BookKeeperAdminAreEntriesOfLedgerStoredInTheBookieTest.java:86 | bookie3 sits only in the segment that starts at entry 11 of a closed ledger whose last entry is 10. It gives false. |

Notes on how the tests were read:

- **Oversized writes.** A write larger than the buffer is copied chunk by chunk, and each full chunk is flushed. It is not written straight through to the file. Row 63 leaves 10 of 50 bytes buffered at capacity 20, which only chunking produces.
- **When the counter grows.** The unpersisted counter grows as bytes are appended to the write buffer, not when they reach the file. Row 73 forces this: bound 50, capacity 100, a 50-byte write, 0 left buffered. No byte reaches the file before the check, so a counter grown at flush time would stay at 0 and leave all 50 bytes buffered.
- **When the bound triggers.** The bound check uses "reaches" (`>=`), not "exceeds". Row 73 empties the buffer at exactly the bound.
- **Negative length.** A read with a negative length returns 0; it is not an IllegalArgument (row 68).
- **Reading at the end.** A read at exactly the logical end that asks for bytes fails with IOError, the same as any read past the written data. Only positions beyond the end are IllegalArgument.
- **Returned count.** A successful read returns the count the test's oracle computes, min(written − pos, destination room). That count can be larger than `len`.
- **Check order.** The tests fix only part of the order of `read`'s checks. The model checks, in order: the null destination, the position range, a non-positive length, then the data available.
- **Placement rule.** A segment holds entries unless it is the trailing segment of a closed ledger and starts after the ledger's last entry.

## Left out

- Write test row 62: its NullPointerException comes from the test dereferencing a channel it never constructed. It is not behaviour of `write`, and `Write` takes a non-null source.
- Write: requires a positive capacity for a non-empty write. No test covers a zero-capacity buffer taking data.
- The disabled read rows 71-104: earlier expectations, some of them conflicting. They include the mocked allocator that returns no buffer and the mocked file channel. Row 105 is replayed only as a cross-check.
- Read: the count is the one the test oracle computes, not the per-chunk count of the upstream read loop. The separate read buffer that file reads go through is not modelled, and a read that straddles file and buffer is treated as one copy.
- Netty buffer reader and writer indices, allocators, the real `FileChannel`, temporary files, `close` and a closed channel's state, and the random byte contents. The contents are arbitrary: every row lemma holds for all sources of the tested length.
- Locking, concurrent readers and durability: a forced sync is modelled as resetting the unpersisted counter to zero.
- Java `int` and `long` widths: all counts and positions are unbounded integers. No tested value comes near overflow.
- AreEntriesOfLedgerStoredInTheBookie: requires the write quorum to equal the ensemble size. Striping with a smaller write quorum, where a bookie of a short segment may receive no entry, is covered by no test row.
- AreEntriesOfLedgerStoredInTheBookie: the ledger id argument is accepted and ignored, as the tested call never depends on it.
- `initBookie`: orchestration over local directories, a ZooKeeper cluster and registration-manager mocks. It is I/O glue.
- BookKeeperAdmin.java and BufferedChannel.java are not part of this model; only their tests are.
