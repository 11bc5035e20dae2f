/**
 * The engine as the program has it (sequence/engine.go): a stream and a missing set that it changes in place.
 * What it leaves in the missing set, and what it reports, is stated with the functions of Engines, about which
 * the agreement with the stream is proved.
 */
module EngineStore {
  import opened Ranges
  import opened RangeSets
  import opened Streams
  import opened StreamGaps
  import opened StreamQueues
  import opened Engines

  /** Pushes the feed, takes what arrived out of the missing set, and adds the gaps that opened. */
  method Engine(feed: seq<Entry>, stream: Stream, missing: RangeSet?, now: int)
    returns (entries: seq<Entry>, newlyMissing: seq<Range>)
    requires stream.Valid() && WellFormed(stream.State())
    requires missing != null ==> missing.Valid() && missing.Repr !! stream.Repr
    modifies stream.Repr, if missing == null then {} else missing.Repr
    ensures stream.Valid() && WellFormed(stream.State()) && fresh(stream.Repr - old(stream.Repr))
    ensures (stream.State(), entries) == Streams.Push(old(stream.State()), now, feed)
    ensures missing == null ==> newlyMissing == []
    ensures missing != null ==>
              && missing.Valid() && fresh(missing.Repr - old(missing.Repr)) && missing.Repr !! stream.Repr
              && missing.Model() == Kept(old(missing.Model()), feed, stream.lastSeq) + Outstanding(stream.State())
              && Canonical(newlyMissing)
              && Denote(newlyMissing) ==
                 Outstanding(stream.State()) - Kept(old(missing.Model()), feed, stream.lastSeq)
  {
    hide Denote, Kept, Missing, Sorted, Canonical, Fed, Gaps;
    PushClimbs(stream.State(), now, feed);
    entries := stream.Push(now, feed);
    if missing == null {
      return entries, [];
    }
    ghost var was := missing.Model();
    TakeArrived(feed, stream.lastSeq, missing);
    ghost var kept := missing.Model();
    GapsDenote(stream.lastSeq, stream.entries);
    var gaps := stream.GetMissing(0);
    newlyMissing := AddGaps(gaps, missing);
  }

  /** The part of Engine that takes what arrived out of the missing set. */
  method TakeArrived(feed: seq<Entry>, lastSeq: nat, missing: RangeSet)
    requires missing.Valid()
    modifies missing.Repr
    ensures missing.Valid() && fresh(missing.Repr - old(missing.Repr))
    ensures missing.Model() == Kept(old(missing.Model()), feed, lastSeq)
  {
    if lastSeq > SEQUENCE_FIRST {
      var _ := missing.Subtract(RangeInclusive(SEQUENCE_FIRST, lastSeq));
    }
    ghost var rest := missing.Model();
    for i := 0 to |feed|
      invariant missing.Valid() && fresh(missing.Repr - old(missing.Repr))
      invariant missing.Model() == rest - Fed(feed[..i])
    {
      var _ := missing.Remove(feed[i].seqNo);
      FedStep(feed, i);
    }
    assert feed[..|feed|] == feed;
  }

  lemma FedStep(feed: seq<Entry>, i: nat)
    requires i < |feed|
    ensures Fed(feed[..i + 1]) == Fed(feed[..i]) + {feed[i].seqNo as int}
  {
    var more := feed[..i + 1];
    assert more[i] == feed[i];
    forall n | n in Fed(feed[..i]) ensures n in Fed(more) {
      var j :| 0 <= j < i && feed[..i][j].seqNo == n;
      assert more[j] == feed[..i][j];
    }
    forall n | n in Fed(more) && n != feed[i].seqNo ensures n in Fed(feed[..i]) {
      var j :| 0 <= j <= i && more[j].seqNo == n;
      assert feed[..i][j] == more[j];
    }
  }

  /** The last loop of Engine: adds every gap and collects what was new. */
  method AddGaps(gaps: seq<Range>, missing: RangeSet) returns (newly: seq<Range>)
    requires missing.Valid() && Canonical(gaps)
    modifies missing.Repr
    ensures missing.Valid() && fresh(missing.Repr - old(missing.Repr))
    ensures missing.Model() == old(missing.Model()) + Denote(gaps)
    ensures Canonical(newly) && Denote(newly) == Denote(gaps) - old(missing.Model())
  {
    hide Denote;
    DenoteEmpty();
    ghost var was := missing.Model();
    var newlyMissing := new RangeSet();
    for i := 0 to |gaps|
      invariant missing.Valid() && fresh(missing.Repr - old(missing.Repr))
      invariant newlyMissing.Valid() && fresh(newlyMissing.Repr) && newlyMissing.Repr !! missing.Repr
      invariant missing.Model() == was + Denote(gaps[..i])
      invariant newlyMissing.Model() == Denote(gaps[..i]) - was
    {
      var added := missing.Union(gaps[i]);
      newlyMissing.UnionRangeSet(added);
      DenoteGrow(gaps, i);
      DisjointFromBefore(gaps, i);
    }
    assert gaps[..|gaps|] == gaps;
    newly := newlyMissing.AsSlice();
  }

  lemma DisjointFromBefore(gaps: seq<Range>, i: nat)
    requires Canonical(gaps) && i < |gaps|
    ensures gaps[i].Seqs() !! Denote(gaps[..i])
  {
  }
}
