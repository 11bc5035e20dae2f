/** A missing set in step with its stream, on values (sequence/engine.go). */
module Engines {
  import opened Ranges
  import opened Streams
  import opened StreamLaws
  import opened StreamGaps

  const SEQUENCE_FIRST := 1

  ghost function Fed(feed: seq<Entry>): set<int> {
    set i | 0 <= i < |feed| :: feed[i].seqNo as int
  }

  /** What the engine keeps of the missing set before it adds the new gaps. */
  ghost function Kept(missing: set<int>, feed: seq<Entry>, lastSeq: nat): set<int> {
    (if lastSeq > SEQUENCE_FIRST then missing - Range(SEQUENCE_FIRST, lastSeq).Seqs() else missing) - Fed(feed)
  }

  ghost function Outstanding(s: StreamState): set<int> {
    Missing(s.lastSeq, s.ahead)
  }

  // ---- agreement ----

  lemma DeliveredWasKnown(s: StreamState, now: int, feed: seq<Entry>)
    ensures var (t, r) := Push(s, now, feed);
      && (forall i :: 0 <= i < |r| ==> r[i].seqNo in Fed(feed) || Has(s.ahead, r[i].seqNo))
      && (forall i :: 0 <= i < |t.ahead| ==> t.ahead[i].seqNo in Fed(feed) || Has(s.ahead, t.ahead[i].seqNo))
  {
    var ok := (n: nat, p) => n in Fed(feed) || Has(s.ahead, n);
    PushVouched(s, now, feed, ok);
  }

  lemma {:induction false} FeedKeepsAhead(f0: FeedState, es: seq<Entry>)
    requires Sorted(f0.ahead)
    ensures Sorted(Feed(f0, es).ahead) && forall e :: e in f0.ahead ==> e in Feed(f0, es).ahead
  {
    if es != [] {
      FeedKeepsAhead(f0, es[..|es| - 1]);
      InsertAheadSorted(Feed(f0, es[..|es| - 1]).ahead, es[|es| - 1]);
    }
  }

  lemma {:induction false} DrainKeepsAhead(lastSeq: nat, ahead: seq<Entry>)
    requires Sorted(ahead)
    ensures forall e :: e in ahead && Drain(lastSeq, ahead).lastSeq < e.seqNo ==> e in Drain(lastSeq, ahead).ahead
    decreases ahead
  {
    if ahead != [] && ahead[0].seqNo <= lastSeq + 1 {
      var next := if ahead[0].seqNo == lastSeq + 1 then ahead[0].seqNo else lastSeq;
      DrainKeepsAhead(next, ahead[1..]);
      DrainOk(next, ahead[1..]);
      assert ahead == [ahead[0]] + ahead[1..];
    }
  }

  /** What was held and is still beyond lastSeq is still held. */
  lemma PushKeepsAhead(s: StreamState, now: int, feed: seq<Entry>)
    requires WellFormed(s)
    ensures var t := Push(s, now, feed).0;
      forall e :: e in s.ahead && t.lastSeq < e.seqNo ==> e in t.ahead
  {
    var f := Feed(FeedStart(s, now), feed);
    FeedKeepsAhead(FeedStart(s, now), feed);
    DrainKeepsAhead(f.lastSeq, f.ahead);
  }

  /** Nothing that is still missing was delivered, also when the guard on SequenceFirst skips the subtraction. */
  lemma KeptIsBeyond(s: StreamState, now: int, feed: seq<Entry>, x: int)
    requires WellFormed(s) && x in Kept(Outstanding(s), feed, Push(s, now, feed).0.lastSeq)
    ensures Push(s, now, feed).0.lastSeq < x
  {
    var (t, r) := Push(s, now, feed);
    PushClimbs(s, now, feed);
    DeliveredWasKnown(s, now, feed);
    if t.lastSeq == 1 && s.lastSeq == 0 {
      assert r[|r| - 1].seqNo == 1;
      assert !Has(s.ahead, 1);
    }
  }

  lemma KeptIsOutstanding(s: StreamState, now: int, feed: seq<Entry>, x: int)
    requires WellFormed(s) && x in Kept(Outstanding(s), feed, Push(s, now, feed).0.lastSeq)
    ensures x in Outstanding(Push(s, now, feed).0)
  {
    var (t, r) := Push(s, now, feed);
    KeptIsBeyond(s, now, feed, x);
    DeliveredWasKnown(s, now, feed);
    PushKeepsAhead(s, now, feed);
    PushClimbs(s, now, feed);
    var top := s.ahead[|s.ahead| - 1];
    assert top in s.ahead && top in t.ahead;
    var i :| 0 <= i < |t.ahead| && t.ahead[i] == top;
    assert t.ahead[|t.ahead| - 1].seqNo >= top.seqNo;
    assert x in Kept(Outstanding(s), feed, t.lastSeq);
    assert !Has(t.ahead, x);
  }

  /**
   * A missing set that agreed with the stream before the engine ran agrees with it afterwards, as a
   * set and as a list of ranges; what the engine reports is the new gaps less the old ones not just fed.
   */
  lemma Agreement(s: StreamState, now: int, feed: seq<Entry>)
    requires WellFormed(s)
    ensures var t := Push(s, now, feed).0; var m := Outstanding(s);
      && Kept(m, feed, t.lastSeq) + Outstanding(t) == Outstanding(t)
      && Outstanding(t) - Kept(m, feed, t.lastSeq) == Outstanding(t) - (m - Fed(feed))
      && Denote(Gaps(t.lastSeq, t.ahead)) == Outstanding(t) && Canonical(Gaps(t.lastSeq, t.ahead))
  {
    var t := Push(s, now, feed).0;
    PushClimbs(s, now, feed);
    GapsDenote(t.lastSeq, t.ahead);
    hide Push, Gaps, Denote, Canonical, WellFormed, Outstanding, Fed;
    forall x | x in Kept(Outstanding(s), feed, t.lastSeq) ensures x in Outstanding(t) {
      KeptIsOutstanding(s, now, feed, x);
    }
    assert Outstanding(t) == Missing(t.lastSeq, t.ahead) by { OutstandingIs(t); }
    forall x | x in Outstanding(t) ensures t.lastSeq < x { OutstandingIs(t); }
  }

  lemma OutstandingIs(t: StreamState)
    ensures Outstanding(t) == Missing(t.lastSeq, t.ahead) && forall x :: x in Outstanding(t) ==> t.lastSeq < x
  {
  }

  /** The missing set kept by the engine reads, as a slice, exactly like GetMissing(0). */
  lemma SliceIsGaps(s: StreamState, now: int, feed: seq<Entry>, slice: seq<Range>)
    requires WellFormed(s) && Canonical(slice)
    requires var t := Push(s, now, feed).0;
      Denote(slice) == Kept(Outstanding(s), feed, t.lastSeq) + Outstanding(t)
    ensures var t := Push(s, now, feed).0;
      slice == Gaps(t.lastSeq, t.ahead)
  {
    var t := Push(s, now, feed).0;
    Agreement(s, now, feed);
    CanonicalUnique(slice, Gaps(t.lastSeq, t.ahead));
  }
}
