/** Which copy of a number is delivered (sequence/stream.go). */
module HeldCopies {
  import opened Streams
  import opened StreamLaws
  import opened Engines
  import opened Confluence

  /** Entry i of the feed is delivered as it comes, without being held: it is next, or waiting is over. */
  predicate FedDirectly(s: StreamState, now: int, es: seq<Entry>, i: nat)
    requires i < |es|
  {
    var f := Feed(FeedStart(s, now), es[..i]);
    f.prev <= es[i].seqNo && f.lastSeq < es[i].seqNo && (es[i].seqNo == f.lastSeq + 1 || f.expired)
  }

  ghost predicate CopyOf(o: Entry, e: Entry) {
    o.seqNo == e.seqNo && o.payload == e.payload
  }

  /** Some entry of the feed with this number is delivered as it comes. */
  ghost predicate SomeFedDirectly(s: StreamState, now: int, es: seq<Entry>, n: nat) {
    exists i :: 0 <= i < |es| && es[i].seqNo == n && FedDirectly(s, now, es, i)
  }

  /** What the walk through the feed delivers are copies of the entries that it delivers as they come. */
  lemma {:induction false} FeedDelivers(s: StreamState, now: int, es: seq<Entry>, k: nat) returns (i: nat)
    requires k < |Feed(FeedStart(s, now), es).out|
    ensures i < |es| && FedDirectly(s, now, es, i) && CopyOf(Feed(FeedStart(s, now), es).out[k], es[i])
  {
    var n := |es| - 1;
    var f := Feed(FeedStart(s, now), es[..n]);
    if k < |f.out| {
      i := FeedDelivers(s, now, es[..n], k);
      assert es[..n][..i] == es[..i];
    } else {
      i := n;
    }
  }

  /** And it delivers each of them. */
  lemma {:induction false} FedIsDelivered(s: StreamState, now: int, es: seq<Entry>, i: nat)
    requires i < |es| && FedDirectly(s, now, es, i)
    ensures Has(Feed(FeedStart(s, now), es).out, es[i].seqNo)
  {
    var n := |es| - 1;
    var out := Feed(FeedStart(s, now), es[..n]).out;
    var all := Feed(FeedStart(s, now), es).out;
    if i < n {
      assert es[..n][..i] == es[..i];
      FedIsDelivered(s, now, es[..n], i);
      var k :| 0 <= k < |out| && out[k].seqNo == es[i].seqNo;
      assert all[k].seqNo == es[i].seqNo;
    } else {
      assert all[|all| - 1].seqNo == es[i].seqNo;
    }
  }

  /** What is drained from the queue are copies of entries held there. */
  lemma {:induction false} DrainDelivers(lastSeq: nat, ahead: seq<Entry>, k: nat)
    requires k < |Drain(lastSeq, ahead).out|
    ensures exists e :: e in ahead && CopyOf(Drain(lastSeq, ahead).out[k], e)
    decreases ahead
  {
    var rest := ahead[1..];
    assert forall e :: e in rest ==> e in ahead;
    if ahead[0].seqNo == lastSeq + 1 {
      if k == 0 {
        assert CopyOf(Drain(lastSeq, ahead).out[0], ahead[0]) && ahead[0] in ahead;
      } else {
        DrainDelivers(ahead[0].seqNo, rest, k - 1);
      }
    } else {
      DrainDelivers(lastSeq, rest, k);
    }
  }

  lemma SameNumberSameEntry(a: seq<Entry>, d: Entry, e: Entry)
    requires Sorted(a) && d in a && e in a && d.seqNo == e.seqNo
    ensures d == e
  {
    var i :| 0 <= i < |a| && a[i] == d;
    var j :| 0 <= j < |a| && a[j] == e;
    assert i == j;
  }

  /** Nothing that the walk through the feed delivers is delivered from the queue as well. */
  lemma DeliveredOnce(s: StreamState, now: int, es: seq<Entry>, n: nat)
    requires WellFormed(s)
    ensures var f := Feed(FeedStart(s, now), es);
      !(Has(f.out, n) && Has(Drain(f.lastSeq, f.ahead).out, n))
  {
    var f := Feed(FeedStart(s, now), es);
    FeedAllOk(FeedStart(s, now), es);
    DrainOk(f.lastSeq, f.ahead);
  }

  /**
   * Of a number that is held, a push delivers the held copy if and only if the feed brings no other copy that
   * is delivered as it comes; when it does, that copy is the one delivered.
   */
  lemma HeldCopyIsDelivered(s: StreamState, now: int, es: seq<Entry>, held: Entry, k: nat)
    requires WellFormed(s) && held in s.ahead
    requires k < |Push(s, now, es).1| && Push(s, now, es).1[k].seqNo == held.seqNo
    ensures var o := Push(s, now, es).1[k];
      && (!SomeFedDirectly(s, now, es, held.seqNo) ==> CopyOf(o, held))
      && (SomeFedDirectly(s, now, es, held.seqNo) ==>
            exists i :: 0 <= i < |es| && FedDirectly(s, now, es, i) && CopyOf(o, es[i]))
  {
    var f := Feed(FeedStart(s, now), es);
    var d := Drain(f.lastSeq, f.ahead);
    var r := f.out + d.out;
    assert r == Push(s, now, es).1;
    if k < |f.out| {
      var i := FeedDelivers(s, now, es, k);
    } else {
      assert r[k] == d.out[k - |f.out|];
      assert Has(d.out, held.seqNo);
      DeliveredOnce(s, now, es, held.seqNo);
      if SomeFedDirectly(s, now, es, held.seqNo) {
        var i :| 0 <= i < |es| && es[i].seqNo == held.seqNo && FedDirectly(s, now, es, i);
        FedIsDelivered(s, now, es, i);
      }
      FeedKeepsAhead(FeedStart(s, now), es);
      DrainDelivers(f.lastSeq, f.ahead, k - |f.out|);
      var e :| e in f.ahead && CopyOf(r[k], e);
      SameNumberSameEntry(f.ahead, e, held);
    }
  }

  /** In particular when the feed brings no other copy of the number. */
  lemma OnlyCopyIsDelivered(s: StreamState, now: int, es: seq<Entry>, held: Entry, k: nat)
    requires WellFormed(s) && held in s.ahead && !Has(es, held.seqNo)
    requires k < |Push(s, now, es).1| && Push(s, now, es).1[k].seqNo == held.seqNo
    ensures CopyOf(Push(s, now, es).1[k], held)
  {
    HeldCopyIsDelivered(s, now, es, held, k);
  }

  /** A stream that waits for number 2 and holds number 3 delivers a later copy of number 3 when both arrive. */
  lemma LaterCopyIsDelivered(now: int, a: seq<Byte>, b: seq<Byte>)
    ensures var s := StreamState(1, Some(now), [Entry(3, 0, a)], 0);
      WellFormed(s) && Push(s, now, [Entry(2, 0, []), Entry(3, 0, b)]).1 == [Entry(2, 0, []), Entry(3, 0, b)]
  {
    var s := StreamState(1, Some(now), [Entry(3, 0, a)], 0);
    var es := [Entry(2, 0, []), Entry(3, 0, b)];
    var f0 := FeedStart(s, now);
    assert es[..1][..0] == [] && es[..1] == [es[0]];
    assert Feed(f0, []) == f0;
    assert Feed(f0, es[..1]) == FeedOne(f0, es[0]);
    var f := Feed(f0, es);
    assert f == FeedOne(FeedOne(f0, es[0]), es[1]);
    assert f.ahead[1..] == [];
    assert Drain(3, f.ahead) == Drained(3, [], []);
  }

  // ---- which numbers are delivered as they come ----

  /** Numbers delivered from the feed pass the in-feed order check; once it does not wait, the next number does not. */
  lemma {:induction false} FeedPasses(f0: FeedState, es: seq<Entry>)
    requires f0.out == [] && f0.prev == 0
    ensures var f := Feed(f0, es);
      && (forall n :: Has(f.out, n) ==> PassesIn(es, n))
      && (!f.expired ==> !PassesIn(es, f.lastSeq + 1))
  {
    if es != [] {
      var init, e := es[..|es| - 1], es[|es| - 1];
      FeedPasses(f0, init);
      FeedBegins(f0, init);
      PassesInStep(es);
      NonePassAbove(init);
      var f := Feed(f0, init);
      hide PassesIn, Highest;
      var o := Entry(e.seqNo, f.delay, e.payload);
      forall n | Has(f.out + [o], n) ensures Has(f.out, n) || n == e.seqNo {
        var i :| 0 <= i < |f.out + [o]| && (f.out + [o])[i].seqNo == n;
        if i < |f.out| { assert f.out[i].seqNo == n; }
      }
    }
  }

  lemma NonePassAbove(es: seq<Entry>)
    ensures forall n :: PassesIn(es, n) ==> n <= Highest(es)
  {
    HighestIsMax(es);
  }

  /**
   * The number n is brought as the stream needs it: all numbers from the next one up to n pass the in-feed order
   * check; when the wait is over, those from the first one in the feed beyond lastSeq.
   */
  ghost predicate BroughtInTurn(lastSeq: nat, expired: bool, es: seq<Entry>, n: nat) {
    if !expired then forall m :: lastSeq < m <= n ==> PassesIn(es, m)
    else
      exists k ::
        FirstBeyond(es, lastSeq, k) && es[k].seqNo <= n && forall m :: es[k].seqNo < m <= n ==> PassesIn(es, m)
  }

  /** Which numbers are delivered as they come is decided by the numbers in the feed. */
  lemma FedDirectlyIff(s: StreamState, now: int, es: seq<Entry>, n: nat)
    requires WellFormed(s) && s.lastSeq < n
    ensures SomeFedDirectly(s, now, es, n) <==> BroughtInTurn(s.lastSeq, WaitIsOver(s, now), es, n)
  {
    var f0 := FeedStart(s, now);
    var f := Feed(f0, es);
    FedIffDelivered(s, now, es, n);
    FeedPasses(f0, es);
    FeedBegins(f0, es);
    DeliveredIff(f0.lastSeq, f0.expired, es, f, n);
  }

  lemma FedIffDelivered(s: StreamState, now: int, es: seq<Entry>, n: nat)
    ensures SomeFedDirectly(s, now, es, n) <==> Has(Feed(FeedStart(s, now), es).out, n)
  {
    var out := Feed(FeedStart(s, now), es).out;
    if i :| 0 <= i < |es| && es[i].seqNo == n && FedDirectly(s, now, es, i) { FedIsDelivered(s, now, es, i); }
    if k :| 0 <= k < |out| && out[k].seqNo == n { var i := FeedDelivers(s, now, es, k); }
  }

  lemma DeliveredIff(lastSeq: nat, expired: bool, es: seq<Entry>, f: FeedState, n: nat)
    requires lastSeq < n && Chain(f.out) && BeginsRight(lastSeq, expired, es, f.out)
    requires f.lastSeq == (if f.out == [] then lastSeq else f.out[|f.out| - 1].seqNo)
    requires f.expired == (expired && f.out == [])
    requires (forall m :: Has(f.out, m) ==> PassesIn(es, m)) && (!f.expired ==> !PassesIn(es, f.lastSeq + 1))
    ensures Has(f.out, n) <==> BroughtInTurn(lastSeq, expired, es, n)
  {
    hide PassesIn;
    if f.out != [] {
      var from := f.out[0].seqNo;
      forall m | from <= m <= f.lastSeq ensures Has(f.out, m) { assert f.out[m - from].seqNo == m; }
      assert Has(f.out, n) ==> from <= n <= f.lastSeq;
    }
  }
}
