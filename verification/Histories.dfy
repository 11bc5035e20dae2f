/** The history of sent entries, on values (sequence/history.go). */
module Histories {
  import opened Ranges
  import opened Seqs
  import opened Streams
  import opened StreamLaws

  function TotalSize(es: seq<Entry>): nat {
    if es == [] then 0 else TotalSize(es[..|es| - 1]) + |es[|es| - 1].payload|
  }

  lemma {:induction false} TotalSizeConcat(a: seq<Entry>, b: seq<Entry>)
    ensures TotalSize(a + b) == TotalSize(a) + TotalSize(b)
  {
    if b == [] {
      assert a + b == a;
    } else {
      TotalSizeConcat(a, b[..|b| - 1]);
      assert (a + b)[..|a + b| - 1] == a + b[..|b| - 1];
    }
  }

  // ---- limits ----

  /** Limits on the number of entries, their total delay and their total payload; zero is no limit. */
  datatype Limits = Limits(count: nat, delay: int, size: int)

  ghost predicate Fits(es: seq<Entry>, lim: Limits) {
    && (lim.count != 0 ==> |es| <= lim.count)
    && (lim.delay != 0 ==> TotalDelay(es) <= lim.delay)
    && (lim.size != 0 ==> TotalSize(es) <= lim.size)
  }

  /** The last k entries. */
  function Last(es: seq<Entry>, k: nat): seq<Entry>
    requires k <= |es|
  {
    es[|es| - k..]
  }

  ghost predicate NonNegative(es: seq<Entry>) {
    forall i :: 0 <= i < |es| ==> 0 <= es[i].delay
  }

  /** r is the longest suffix of es within the limits. */
  ghost predicate IsLongestFit(r: seq<Entry>, es: seq<Entry>, lim: Limits) {
    && |r| <= |es| && r == Last(es, |r|)
    && Fits(r, lim) && forall k :: |r| < k <= |es| ==> !Fits(Last(es, k), lim)
  }

  lemma TotalsOfDrop(es: seq<Entry>, k: nat)
    requires k <= |es|
    ensures TotalDelay(es) == TotalDelay(es[..k]) + TotalDelay(es[k..])
    ensures TotalSize(es) == TotalSize(es[..k]) + TotalSize(es[k..])
  {
    assert es == es[..k] + es[k..];
    TotalDelayConcat(es[..k], es[k..]);
    TotalSizeConcat(es[..k], es[k..]);
  }

  lemma TotalsOfOne(e: Entry)
    ensures TotalDelay([e]) == e.delay && TotalSize([e]) == |e.payload|
  {
    assert [e][..0] == [];
  }

  lemma {:induction false} NonNegativeTotal(es: seq<Entry>)
    requires NonNegative(es)
    ensures TotalDelay(es) >= 0
  {
    if es != [] { NonNegativeTotal(es[..|es| - 1]); }
  }

  /** With non-negative delays a suffix of what fits also fits. */
  lemma FitsShorter(es: seq<Entry>, k: nat, lim: Limits)
    requires NonNegative(es) && k <= |es| && Fits(es, lim)
    ensures Fits(es[k..], lim)
  {
    TotalsOfDrop(es, k);
    NonNegativeTotal(es[..k]);
  }

  // ---- what Push leaves ----

  function DropDelay(es: seq<Entry>, max: int): seq<Entry> {
    if es == [] || TotalDelay(es) <= max then es else DropDelay(es[1..], max)
  }

  function DropSize(es: seq<Entry>, max: int): seq<Entry> {
    if es == [] || TotalSize(es) <= max then es else DropSize(es[1..], max)
  }

  /** Pops once for the count, then for the delay, then for the size. */
  function Trimmed(es: seq<Entry>, lim: Limits): seq<Entry> {
    var a := if lim.count != 0 && |es| > lim.count then es[1..] else es;
    var b := if lim.delay != 0 then DropDelay(a, lim.delay) else a;
    if lim.size != 0 then DropSize(b, lim.size) else b
  }

  /** r is the suffix of es left after dropping only suffixes that break the limits. */
  ghost predicate DroppedOnly(r: seq<Entry>, es: seq<Entry>, lim: Limits) {
    |r| <= |es| && r == Last(es, |r|) && forall k :: |r| < k <= |es| ==> !Fits(Last(es, k), lim)
  }

  lemma DroppedOnlyTrans(r: seq<Entry>, a: seq<Entry>, es: seq<Entry>, lim: Limits)
    requires DroppedOnly(r, a, lim) && DroppedOnly(a, es, lim)
    ensures DroppedOnly(r, es, lim)
  {
    assert forall k :: 0 <= k <= |a| ==> Last(a, k) == Last(es, k);
  }

  lemma DropOne(es: seq<Entry>, lim: Limits)
    requires es != [] && !Fits(es, lim)
    ensures DroppedOnly(es[1..], es, lim)
  {
    assert Last(es, |es|) == es;
  }

  lemma {:induction false} DropDelayOk(es: seq<Entry>, lim: Limits)
    requires lim.delay > 0
    ensures var r := DropDelay(es, lim.delay);
      DroppedOnly(r, es, lim) && TotalDelay(r) <= lim.delay
  {
    if es != [] && TotalDelay(es) > lim.delay {
      DropDelayOk(es[1..], lim);
      DropOne(es, lim);
      DroppedOnlyTrans(DropDelay(es, lim.delay), es[1..], es, lim);
    }
  }

  lemma {:induction false} DropSizeOk(es: seq<Entry>, lim: Limits)
    requires lim.size > 0
    ensures var r := DropSize(es, lim.size);
      DroppedOnly(r, es, lim) && TotalSize(r) <= lim.size
  {
    if es != [] && TotalSize(es) > lim.size {
      DropSizeOk(es[1..], lim);
      DropOne(es, lim);
      DroppedOnlyTrans(DropSize(es, lim.size), es[1..], es, lim);
    }
  }

  /**
   * Pushing onto entries within the limits leaves exactly the longest suffix within them, although the
   * count limit pops only once. Limits are not negative, as the options of the constructor see to.
   */
  lemma TrimmedIsLongestFit(was: seq<Entry>, e: Entry, lim: Limits)
    requires lim.delay >= 0 && lim.size >= 0
    requires Fits(was, lim) && NonNegative(was) && e.delay >= 0
    ensures IsLongestFit(Trimmed(was + [e], lim), was + [e], lim)
  {
    hide DroppedOnly, TotalDelay, TotalSize, DropDelay, DropSize;
    var es := was + [e];
    DroppedNone(es, lim);
    var a := if lim.count != 0 && |es| > lim.count then es[1..] else es;
    var b := if lim.delay != 0 then DropDelay(a, lim.delay) else a;
    var c := if lim.size != 0 then DropSize(b, lim.size) else b;
    if a != es { DropOne(es, lim); }
    if lim.delay != 0 { DropDelayOk(a, lim); }
    if lim.size != 0 { DropSizeOk(b, lim); }
    DroppedNone(a, lim);
    DroppedNone(b, lim);
    DroppedOnlyTrans(b, a, es, lim);
    DroppedOnlyTrans(c, b, es, lim);
    DroppedIsSuffix(b, es, lim);
    DroppedIsSuffix(c, b, lim);
    TotalsOfDrop(b, |b| - |c|);
    NonNegativeTotal(b[..|b| - |c|]);
    DroppedFits(c, es, lim);
  }

  // ---- what a run of pushes leaves ----

  /** What a history keeps after the given entries were accepted, one after the other. */
  function KeptAfter(es: seq<Entry>, lim: Limits): seq<Entry> {
    if es == [] then [] else Trimmed(KeptAfter(es[..|es| - 1], lim) + [es[|es| - 1]], lim)
  }

  /** With non-negative delays, what fits still fits without its last entry. */
  lemma FitsWithoutLast(es: seq<Entry>, e: Entry, lim: Limits)
    requires e.delay >= 0 && Fits(es + [e], lim)
    ensures Fits(es, lim)
  {
    TotalDelayConcat(es, [e]);
    TotalSizeConcat(es, [e]);
    TotalsOfOne(e);
  }

  /** After any run of pushes with non-negative delays the longest suffix of all entries within the limits is kept. */
  lemma {:induction false} RunKeepsLongestFit(es: seq<Entry>, lim: Limits)
    requires lim.delay >= 0 && lim.size >= 0 && NonNegative(es)
    ensures IsLongestFit(KeptAfter(es, lim), es, lim)
  {
    if es == [] {
      NothingFits(lim);
    } else {
      var n := |es| - 1;
      var was := KeptAfter(es[..n], lim);
      RunKeepsLongestFit(es[..n], lim);
      SuffixNonNegative(es[..n], was, lim);
      TrimmedIsLongestFit(was, es[n], lim);
      hide Trimmed;
      LongestOfMore(was, KeptAfter(es, lim), es, lim);
    }
  }

  /** Limit by limit: what is kept stays within each, and with one more entry it would not. */
  lemma RunKeepsWithin(es: seq<Entry>, lim: Limits)
    requires lim.delay >= 0 && lim.size >= 0 && NonNegative(es)
    ensures var r := KeptAfter(es, lim);
      && |r| <= |es| && r == es[|es| - |r|..]
      && (lim.count == 0 || |r| <= lim.count) && (lim.delay == 0 || TotalDelay(r) <= lim.delay)
      && (lim.size == 0 || TotalSize(r) <= lim.size)
      && (|r| < |es| ==>
            var more := es[|es| - |r| - 1..];
            || (lim.count != 0 && |more| > lim.count) || (lim.delay != 0 && TotalDelay(more) > lim.delay)
            || (lim.size != 0 && TotalSize(more) > lim.size))
  {
    RunKeepsLongestFit(es, lim);
    var r := KeptAfter(es, lim);
    if |r| < |es| { assert !Fits(Last(es, |r| + 1), lim); }
    hide KeptAfter, TotalDelay, TotalSize;
  }

  lemma NothingFits(lim: Limits)
    requires lim.delay >= 0 && lim.size >= 0
    ensures IsLongestFit([], [], lim)
  {
  }

  lemma SuffixNonNegative(es: seq<Entry>, r: seq<Entry>, lim: Limits)
    requires NonNegative(es) && IsLongestFit(r, es, lim)
    ensures NonNegative(r) && Fits(r, lim)
  {
    hide Fits;
  }

  /** The longest fit of a longest fit and one more entry is that of all entries. */
  lemma LongestOfMore(was: seq<Entry>, r: seq<Entry>, es: seq<Entry>, lim: Limits)
    requires es != [] && es[|es| - 1].delay >= 0
    requires IsLongestFit(was, es[..|es| - 1], lim) && IsLongestFit(r, was + [es[|es| - 1]], lim)
    ensures IsLongestFit(r, es, lim)
  {
    hide Fits;
    var n := |es| - 1;
    var more := was + [es[n]];
    assert more == Last(es, |was| + 1);
    assert r == Last(es, |r|);
    forall k | |r| < k <= |es| ensures !Fits(Last(es, k), lim) {
      LongerDoesNotFit(was, r, es, k, lim);
    }
  }

  lemma LongerDoesNotFit(was: seq<Entry>, r: seq<Entry>, es: seq<Entry>, k: nat, lim: Limits)
    requires es != [] && es[|es| - 1].delay >= 0 && |r| < k <= |es|
    requires IsLongestFit(was, es[..|es| - 1], lim) && IsLongestFit(r, was + [es[|es| - 1]], lim)
    ensures !Fits(Last(es, k), lim)
  {
    hide Fits;
    var n := |es| - 1;
    var more := was + [es[n]];
    assert more == Last(es, |was| + 1);
    if k <= |more| {
      assert Last(es, k) == Last(more, k);
    } else {
      assert Last(es, k) == Last(es[..n], k - 1) + [es[n]];
      if Fits(Last(es, k), lim) { FitsWithoutLast(Last(es[..n], k - 1), es[n], lim); }
    }
  }

  lemma DroppedNone(es: seq<Entry>, lim: Limits)
    ensures DroppedOnly(es, es, lim)
  {
  }

  lemma DroppedIsSuffix(r: seq<Entry>, es: seq<Entry>, lim: Limits)
    requires DroppedOnly(r, es, lim)
    ensures |r| <= |es| && r == es[|es| - |r|..] && (NonNegative(es) ==> NonNegative(r))
  {
  }

  lemma DroppedFits(r: seq<Entry>, es: seq<Entry>, lim: Limits)
    requires DroppedOnly(r, es, lim) && Fits(r, lim)
    ensures IsLongestFit(r, es, lim)
  {
  }

  // ---- what RecentX returns ----

  /** r is what is left when the last entries are taken one by one for as long as they fit. */
  ghost predicate IsGreedyFit(r: seq<Entry>, es: seq<Entry>, lim: Limits) {
    && |r| <= |es| && r == Last(es, |r|)
    && (forall k :: 1 <= k <= |r| ==> Fits(Last(es, k), lim))
    && (|r| < |es| ==> !Fits(Last(es, |r| + 1), lim))
  }

  /** With non-negative delays taking entries one by one finds the longest suffix within the limits. */
  lemma GreedyIsLongest(r: seq<Entry>, es: seq<Entry>, lim: Limits)
    requires IsGreedyFit(r, es, lim) && NonNegative(es) && lim.delay >= 0 && lim.size >= 0
    ensures IsLongestFit(r, es, lim)
  {
    assert r == [] ==> Fits(r, lim);
    forall k | |r| < k <= |es| ensures !Fits(Last(es, k), lim) {
      if Fits(Last(es, k), lim) {
        assert Last(es, k)[k - |r| - 1..] == Last(es, |r| + 1);
        FitsShorter(Last(es, k), k - |r| - 1, lim);
      }
    }
  }

  // ---- ranges ----

  /** The entries whose number lies in r, in order. */
  function InRange(es: seq<Entry>, r: Range): seq<Entry> {
    if es == [] then []
    else InRange(es[..|es| - 1], r) + if r.In(es[|es| - 1].seqNo) then [es[|es| - 1]] else []
  }

  lemma {:induction false} InRangeConcat(a: seq<Entry>, b: seq<Entry>, r: Range)
    ensures InRange(a + b, r) == InRange(a, r) + InRange(b, r)
  {
    if b == [] {
      assert a + b == a;
    } else {
      InRangeConcat(a, b[..|b| - 1], r);
      assert (a + b)[..|a + b| - 1] == a + b[..|b| - 1];
    }
  }

  lemma {:induction false} InRangeNone(es: seq<Entry>, r: Range)
    requires forall i :: 0 <= i < |es| ==> !r.In(es[i].seqNo)
    ensures InRange(es, r) == []
  {
    if es != [] { InRangeNone(es[..|es| - 1], r); }
  }

  lemma {:induction false} InRangeAll(es: seq<Entry>, r: Range)
    requires forall i :: 0 <= i < |es| ==> r.In(es[i].seqNo)
    ensures InRange(es, r) == es
  {
    if es != [] {
      InRangeAll(es[..|es| - 1], r);
      assert es == es[..|es| - 1] + [es[|es| - 1]];
    }
  }

  lemma {:induction false} InRangeExact(es: seq<Entry>, r: Range)
    requires Sorted(es)
    ensures Sorted(InRange(es, r))
    ensures forall e :: e in InRange(es, r) <==> e in es && r.In(e.seqNo)
  {
    if es != [] {
      InRangeExact(es[..|es| - 1], r);
      assert forall e :: e in es <==> e in es[..|es| - 1] || e == es[|es| - 1];
    }
  }

  lemma LastStep(es: seq<Entry>, n: nat)
    requires n < |es|
    ensures var e := es[|es| - 1 - n];
      && Last(es, n + 1) == [e] + Last(es, n)
      && TotalDelay(Last(es, n + 1)) == e.delay + TotalDelay(Last(es, n))
      && TotalSize(Last(es, n + 1)) == |e.payload| + TotalSize(Last(es, n))
  {
    var e := es[|es| - 1 - n];
    assert Last(es, n + 1) == [e] + Last(es, n);
    TotalDelayConcat([e], Last(es, n));
    TotalSizeConcat([e], Last(es, n));
    TotalsOfOne(e);
  }

  lemma SortedAt(parts: seq<seq<Entry>>, k: nat)
    requires k < |parts| && Sorted(Flat(parts))
    ensures Sorted(parts[k])
    ensures var p, b := parts[k], Flat(parts[k + 1..]);
      forall i, j :: 0 <= i < |p| && 0 <= j < |b| ==> p[i].seqNo < b[j].seqNo
  {
    hide Flat;
    FlatAt(parts, k);
    var a, p, b := Flat(parts[..k]), parts[k], Flat(parts[k + 1..]);
    assert forall i :: 0 <= i < |p| ==> p[i] == (a + p + b)[|a| + i];
    assert forall j :: 0 <= j < |b| ==> b[j] == (a + p + b)[|a| + |p| + j];
  }

  lemma NoneBefore(part: seq<Entry>, from: nat, r: Range)
    requires from <= |part| && forall i :: 0 <= i < from ==> part[i].seqNo < r.start
    ensures InRange(part[..from], r) == []
  {
    hide InRange;
    InRangeNone(part[..from], r);
  }

  lemma AllWithin(part: seq<Entry>, from: nat, to: nat, r: Range)
    requires from <= to <= |part| && forall i :: from <= i < to ==> r.In(part[i].seqNo)
    ensures InRange(part[from..to], r) == part[from..to]
  {
    hide InRange;
    InRangeAll(part[from..to], r);
  }

  lemma NoneAfter(part: seq<Entry>, to: nat, r: Range)
    requires Sorted(part) && to <= |part|
    requires to < |part| ==> r.start <= part[to].seqNo && !r.In(part[to].seqNo)
    ensures InRange(part[to..], r) == []
  {
    forall i | to <= i < |part| ensures !r.In(part[i].seqNo) {
    }
    hide InRange, Sorted;
    InRangeNone(part[to..], r);
  }

  /** In a sorted chunk the numbers of r stand together. */
  lemma RangeInside(part: seq<Entry>, from: nat, to: nat, r: Range)
    requires Sorted(part) && from <= to <= |part|
    requires forall i :: 0 <= i < from ==> part[i].seqNo < r.start
    requires forall i :: from <= i < to ==> r.In(part[i].seqNo)
    requires to < |part| ==> r.start <= part[to].seqNo && !r.In(part[to].seqNo)
    ensures part[from..to] == InRange(part, r)
  {
    hide InRange;
    NoneBefore(part, from, r);
    AllWithin(part, from, to, r);
    NoneAfter(part, to, r);
    hide Sorted;
    Split3(part, from, to);
    InRangeConcat(part[..from], part[from..to], r);
    InRangeConcat(part[..from] + part[from..to], part[to..], r);
  }

  lemma Split3(s: seq<Entry>, from: nat, to: nat)
    requires from <= to <= |s|
    ensures s == s[..from] + s[from..to] + s[to..]
  {
  }
}
