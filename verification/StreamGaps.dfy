/** The gaps of a stream (sequence/stream.go). */
module StreamGaps {
  import opened Ranges
  import opened Streams

  /** The gap between two numbers, if there is one. */
  function Gap(lastSeq: nat, first: nat): seq<Range> {
    if first > lastSeq + 1 then [Range(lastSeq + 1, first - lastSeq - 1)] else []
  }

  /** The gaps in front of and between the entries held ahead. */
  function Gaps(lastSeq: nat, ahead: seq<Entry>): seq<Range>
    decreases ahead
  {
    if ahead == [] then []
    else Gap(lastSeq, ahead[0].seqNo) + Gaps(ahead[0].seqNo, ahead[1..])
  }

  lemma {:induction false} GapsFew(lastSeq: nat, ahead: seq<Entry>)
    ensures |Gaps(lastSeq, ahead)| <= |ahead|
    decreases ahead
  {
    if ahead != [] { GapsFew(ahead[0].seqNo, ahead[1..]); }
  }

  /** The numbers after lastSeq and before the last entry held ahead that are not held. */
  ghost function Missing(lastSeq: nat, ahead: seq<Entry>): set<int> {
    if ahead == [] then {}
    else set n | lastSeq < n < ahead[|ahead| - 1].seqNo && !Has(ahead, n)
  }

  lemma {:induction false} GapsDenote(lastSeq: nat, ahead: seq<Entry>)
    requires Sorted(ahead) && forall i :: 0 <= i < |ahead| ==> lastSeq < ahead[i].seqNo
    ensures Canonical(Gaps(lastSeq, ahead)) && Denote(Gaps(lastSeq, ahead)) == Missing(lastSeq, ahead)
    ensures forall i :: 0 <= i < |Gaps(lastSeq, ahead)| ==> lastSeq < Gaps(lastSeq, ahead)[i].From()
    decreases ahead
  {
    if ahead == [] {
      DenoteEmpty();
    } else {
      var first, rest := ahead[0].seqNo, ahead[1..];
      GapsDenote(first, rest);
      GapDenotes(lastSeq, first);
      GapInFront(lastSeq, first, Gaps(first, rest));
      hide Denote, Canonical, Gap, Sorted;
      DenoteConcat(Gap(lastSeq, first), Gaps(first, rest));
      MissingSplit(lastSeq, ahead);
    }
  }

  lemma GapDenotes(lastSeq: nat, first: nat)
    ensures forall n :: n in Denote(Gap(lastSeq, first)) <==> lastSeq < n < first
  {
    if first > lastSeq + 1 { DenoteOne(Gap(lastSeq, first)[0]); } else { DenoteEmpty(); }
  }

  lemma GapInFront(lastSeq: nat, first: nat, rest: seq<Range>)
    requires Canonical(rest) && lastSeq < first && forall i :: 0 <= i < |rest| ==> first < rest[i].From()
    ensures Canonical(Gap(lastSeq, first) + rest)
    ensures forall i :: 0 <= i < |Gap(lastSeq, first) + rest| ==> lastSeq < (Gap(lastSeq, first) + rest)[i].From()
  {
  }

  lemma MissingSplit(lastSeq: nat, ahead: seq<Entry>)
    requires ahead != [] && Sorted(ahead) && lastSeq < ahead[0].seqNo
    ensures Missing(lastSeq, ahead) ==
            (set n | lastSeq < n < ahead[0].seqNo && !Has(ahead, n)) + Missing(ahead[0].seqNo, ahead[1..])
    ensures forall n :: lastSeq < n < ahead[0].seqNo ==> !Has(ahead, n)
  {
    var first, rest := ahead[0].seqNo, ahead[1..];
    forall n | first < n ensures Has(ahead, n) <==> Has(rest, n) {
      if i :| 0 <= i < |ahead| && ahead[i].seqNo == n { assert rest[i - 1] == ahead[i]; }
      if i :| 0 <= i < |rest| && rest[i].seqNo == n { assert ahead[i + 1] == rest[i]; }
    }
    assert Has(ahead, first);
  }

  /** One more entry of the queue walked over: the gap before it, if any, is the next one. */
  lemma GapsStep(r: seq<Range>, s: nat, ahead: seq<Entry>, k: nat, gaps: seq<Range>)
    requires k < |ahead| && r + Gaps(s, ahead[k..]) == gaps
    ensures var e := ahead[k].seqNo;
      (if e > s + 1 then r + [Range(s + 1, e - s - 1)] else r) + Gaps(e, ahead[k + 1..]) == gaps
  {
    assert ahead[k..][1..] == ahead[k + 1..];
  }

  lemma GapsNone(lastSeq: nat, ahead: seq<Entry>)
    requires ahead == []
    ensures Gaps(lastSeq, ahead) == []
  {
  }
}
