/** `areEntriesOfLedgerStoredInTheBookie`: does a bookie hold any entry of a ledger,
    judging by the ledger's metadata alone?

    The metadata lists the ledger's segments in increasing order of first entry
    id, each with the ensemble of bookies that stores it. Only the configuration
    where every entry is written to the whole ensemble (write quorum equal to
    ensemble size) is modelled: every bookie of a segment's ensemble then stores
    every entry of that segment. */
module LedgerPlacement {
  import opened Common

  type BookieId = string

  /** One entry of the ensembles map: first entry id and the ensemble from there. */
  datatype Segment = Segment(firstEntryId: int, ensemble: seq<BookieId>)

  datatype LedgerMetadata = LedgerMetadata(
    segments: seq<Segment>,
    lastEntryId: int,
    closed: bool,
    ensembleSize: nat,
    writeQuorumSize: nat)

  /** Segments are keyed by strictly increasing first entry id (an ordered map). */
  predicate Ordered(md: LedgerMetadata) {
    forall i, j :: 0 <= i < j < |md.segments| ==>
      md.segments[i].firstEntryId < md.segments[j].firstEntryId
  }

  /** A segment holds entries unless it is the trailing segment of a closed ledger
      and starts after the ledger's last entry (no entry was ever written to it). */
  predicate SegmentHoldsEntries(md: LedgerMetadata, i: nat)
    requires i < |md.segments|
    ensures i < |md.segments| - 1 ==> SegmentHoldsEntries(md, i)
    ensures !md.closed ==> SegmentHoldsEntries(md, i)
    ensures md.closed && i == |md.segments| - 1 ==>
              (SegmentHoldsEntries(md, i) <==> Covers(md, i, md.lastEntryId))
  {
    !(i == |md.segments| - 1 && md.closed && md.lastEntryId < md.segments[i].firstEntryId)
  }

  /** Segment `i` is responsible for entry `e`. */
  predicate Covers(md: LedgerMetadata, i: nat, e: int)
    requires i < |md.segments|
  {
    && md.segments[i].firstEntryId <= e
    && (i + 1 < |md.segments| ==> e < md.segments[i + 1].firstEntryId)
  }

  /** The scan over the segments from index `i` on, in map order. */
  function StoredFrom(md: LedgerMetadata, bookie: BookieId, i: nat): (stored: bool)
    requires i <= |md.segments|
    ensures stored <==> exists j :: i <= j < |md.segments|
                          && bookie in md.segments[j].ensemble && SegmentHoldsEntries(md, j)
    decreases |md.segments| - i
  {
    if i == |md.segments| then false
    else if bookie in md.segments[i].ensemble && SegmentHoldsEntries(md, i) then true
    else StoredFrom(md, bookie, i + 1)
  }

  /** `BookKeeperAdmin.areEntriesOfLedgerStoredInTheBookie(ledgerId, bookie, metadata)`.
      Null metadata is dereferenced (NullPointerException); a null bookie belongs
      to no ensemble. The ledger id is not consulted. */
  function AreEntriesOfLedgerStoredInTheBookie(ledgerId: int, bookie: Option<BookieId>,
                                               md: Option<LedgerMetadata>): (r: Result<bool>)
    requires md.Some? ==> md.value.writeQuorumSize == md.value.ensembleSize
    ensures md.None? <==> r == Err(NullPointer)
    ensures md.Some? ==> r.Ok?
    ensures r == Ok(true) <==>
              && md.Some? && bookie.Some?
              && exists j :: 0 <= j < |md.value.segments|
                   && bookie.value in md.value.segments[j].ensemble
                   && SegmentHoldsEntries(md.value, j)
  {
    match md
    case None => Err(NullPointer)
    case Some(m) =>
      match bookie
      case None => Ok(false)
      case Some(b) => Ok(StoredFrom(m, b, 0))
  }

  /** A bookie in no ensemble stores nothing. */
  lemma AbsentBookieStoresNothing(ledgerId: int, bookie: BookieId, md: LedgerMetadata)
    requires md.writeQuorumSize == md.ensembleSize
    requires forall j :: 0 <= j < |md.segments| ==> bookie !in md.segments[j].ensemble
    ensures AreEntriesOfLedgerStoredInTheBookie(ledgerId, Some(bookie), Some(md)) == Ok(false)
  {
  }

  /** On an open ledger every segment may still receive entries: membership in any
      ensemble is enough. */
  lemma OpenLedgerMembership(ledgerId: int, bookie: BookieId, md: LedgerMetadata)
    requires md.writeQuorumSize == md.ensembleSize && !md.closed
    ensures AreEntriesOfLedgerStoredInTheBookie(ledgerId, Some(bookie), Some(md)) == Ok(true)
            <==> exists j :: 0 <= j < |md.segments| && bookie in md.segments[j].ensemble
  {
  }

  /** On a closed ledger whose segments all start at or before the last entry,
      except possibly the trailing one, the bookie holds data exactly when it is in
      the ensemble of a segment responsible for some entry up to the last one. */
  lemma ClosedLedgerCoverage(ledgerId: int, bookie: BookieId, md: LedgerMetadata)
    requires md.writeQuorumSize == md.ensembleSize && md.closed && Ordered(md)
    requires forall j :: 0 <= j < |md.segments| - 1 ==> md.segments[j].firstEntryId <= md.lastEntryId
    ensures AreEntriesOfLedgerStoredInTheBookie(ledgerId, Some(bookie), Some(md)) == Ok(true)
            <==> exists j, e :: 0 <= j < |md.segments| && bookie in md.segments[j].ensemble
                   && Covers(md, j, e) && e <= md.lastEntryId
  {
    var r := AreEntriesOfLedgerStoredInTheBookie(ledgerId, Some(bookie), Some(md));
    if r == Ok(true) {
      var j :| 0 <= j < |md.segments| && bookie in md.segments[j].ensemble
                && SegmentHoldsEntries(md, j);
      assert Covers(md, j, md.segments[j].firstEntryId);
    } else {
      forall j, e | 0 <= j < |md.segments| && bookie in md.segments[j].ensemble && Covers(md, j, e)
        ensures e > md.lastEntryId
      {
        assert !SegmentHoldsEntries(md, j);
      }
    }
  }
}
