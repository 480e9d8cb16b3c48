/** The parameterised placement test: a closed ledger 100 with last entry 10,
    ensemble size and write quorum 3, a first segment from entry 0 on bookies
    0, 1, 2 and a second, never-written segment from entry 11 on bookies 3, 1, 2.
    Each active row is replayed by one lemma; rows 81 and 82 repeat row 79's
    arguments and are covered by its lemma. */
module LedgerPlacementTest {
  import opened Common
  import opened LedgerPlacement

  const LedgerId: int := 100
  const Bookie0: BookieId := "bookie0:3181"
  const Bookie1: BookieId := "bookie1:3181"
  const Bookie2: BookieId := "bookie2:3181"
  const Bookie3: BookieId := "bookie3:3181"

  /** The metadata the test builds. */
  function Fixture(): (md: LedgerMetadata)
    ensures md.writeQuorumSize == md.ensembleSize && md.closed && Ordered(md)
    ensures forall j :: 0 <= j < |md.segments| ==> |md.segments[j].ensemble| == md.ensembleSize
  {
    var lastEntryId := 10;
    LedgerMetadata(
      [Segment(0, [Bookie0, Bookie1, Bookie2]), Segment(lastEntryId + 1, [Bookie3, Bookie1, Bookie2])],
      lastEntryId, true, 3, 3)
  }

  /** A bookie of the first segment, which holds entries 0 to 10. Rows 81 and 82
      repeat this row with identical arguments; the model is a pure function, so
      they give the same answer. */
  lemma Row79BookieOfFirstSegment()
    ensures AreEntriesOfLedgerStoredInTheBookie(LedgerId, Some(Bookie0), Some(Fixture())) == Ok(true)
  {
    assert SegmentHoldsEntries(Fixture(), 0);
  }

  /** Null metadata is dereferenced. */
  lemma Row80NullMetadata()
    ensures AreEntriesOfLedgerStoredInTheBookie(LedgerId, Some(Bookie0), None) == Err(NullPointer)
  {
  }

  /** A bookie of both segments. */
  lemma Row83BookieOfBothSegments()
    ensures AreEntriesOfLedgerStoredInTheBookie(LedgerId, Some(Bookie1), Some(Fixture())) == Ok(true)
  {
    assert SegmentHoldsEntries(Fixture(), 0);
  }

  /** A null bookie belongs to no ensemble: false, not an error. */
  lemma Row84NullBookie()
    ensures AreEntriesOfLedgerStoredInTheBookie(LedgerId, None, Some(Fixture())) == Ok(false)
  {
  }

  /** A bookie only in the trailing segment, which starts after the last entry of
      the closed ledger, holds nothing. */
  lemma Row86BookieOnlyOfEmptyTrailingSegment()
    ensures AreEntriesOfLedgerStoredInTheBookie(LedgerId, Some(Bookie3), Some(Fixture())) == Ok(false)
  {
    var md := Fixture();
    assert Bookie3 !in md.segments[0].ensemble by {
      assert Bookie3 != Bookie0 && Bookie3 != Bookie1 && Bookie3 != Bookie2 by {
        assert Bookie3[6] != Bookie0[6] && Bookie3[6] != Bookie1[6] && Bookie3[6] != Bookie2[6];
      }
    }
    assert !SegmentHoldsEntries(md, 1);
  }
}
