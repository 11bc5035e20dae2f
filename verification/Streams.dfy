/**
 * What one push does to a stream, on values (sequence/stream.go). A stream delivers entries in order, holds
 * those ahead of the next number in a sorted queue, and, when it has a maximum wait, gives up waiting for a
 * number once that time has passed since the last delivery.
 */
module Streams {

  datatype Option<+T> = None | Some(value: T)

  type Byte = b: int | 0 <= b < 256

  datatype Entry = Entry(seqNo: nat, delay: int, payload: seq<Byte>)

  /** The fields of a stream that decide what it delivers. */
  datatype StreamState = StreamState(lastSeq: nat, lastTime: Option<int>, ahead: seq<Entry>, maxWait: int)

  /** The locals of `push` while it walks through the feed. */
  datatype FeedState = FeedState(lastSeq: nat, delay: int, expired: bool, prev: nat, ahead: seq<Entry>, out: seq<Entry>)

  /** A new stream that expects initialSeq first. */
  function NewStream(initialSeq: nat, maxWait: int): StreamState
    requires 1 <= initialSeq
  {
    StreamState(initialSeq - 1, None, [], maxWait)
  }

  ghost predicate Sorted(a: seq<Entry>) {
    forall i, j :: 0 <= i < j < |a| ==> a[i].seqNo < a[j].seqNo
  }

  ghost predicate Has(a: seq<Entry>, n: int) {
    exists i :: 0 <= i < |a| && a[i].seqNo == n
  }

  /** What holds between pushes: a sorted queue that begins beyond the next expected number. */
  ghost predicate WellFormed(s: StreamState) {
    Sorted(s.ahead) && forall i :: 0 <= i < |s.ahead| ==> s.lastSeq + 1 < s.ahead[i].seqNo
  }

  /** The queue with e in its place, unless its number is already there. */
  function InsertAhead(a: seq<Entry>, e: Entry): seq<Entry> {
    if a == [] then [e]
    else if e.seqNo == a[0].seqNo then a
    else if a[0].seqNo > e.seqNo then [e] + a
    else [a[0]] + InsertAhead(a[1..], e)
  }

  function FeedOne(f: FeedState, e: Entry): FeedState {
    if e.seqNo < f.prev then f
    else if e.seqNo <= f.lastSeq then f.(prev := e.seqNo)
    else if e.seqNo == f.lastSeq + 1 || f.expired then
      FeedState(e.seqNo, 0, false, e.seqNo, f.ahead, f.out + [Entry(e.seqNo, f.delay, e.payload)])
    else f.(prev := e.seqNo, ahead := InsertAhead(f.ahead, e))
  }

  function Feed(f: FeedState, es: seq<Entry>): FeedState {
    if es == [] then f else FeedOne(Feed(f, es[..|es| - 1]), es[|es| - 1])
  }

  datatype Drained = Drained(lastSeq: nat, ahead: seq<Entry>, out: seq<Entry>)

  /** Takes from the front of the queue what now continues the stream, or lies behind it. */
  function Drain(lastSeq: nat, ahead: seq<Entry>): Drained
    decreases ahead
  {
    if ahead == [] then Drained(lastSeq, [], [])
    else if ahead[0].seqNo == lastSeq + 1 then
      var d := Drain(ahead[0].seqNo, ahead[1..]);
      d.(out := [Entry(ahead[0].seqNo, 0, ahead[0].payload)] + d.out)
    else if ahead[0].seqNo > lastSeq + 1 then Drained(lastSeq, ahead, [])
    else Drain(lastSeq, ahead[1..])
  }

  function StartTime(s: StreamState, now: int): int {
    if s.lastTime == None then now else s.lastTime.value
  }

  function FeedStart(s: StreamState, now: int): FeedState {
    var delay := now - StartTime(s, now);
    FeedState(s.lastSeq, delay, s.maxWait != 0 && delay > s.maxWait, 0, s.ahead, [])
  }

  function PushResult(s: StreamState, now: int, f: FeedState): (StreamState, seq<Entry>) {
    var d := Drain(f.lastSeq, f.ahead);
    (StreamState(d.lastSeq, Some(if f.out != [] then now else StartTime(s, now)), d.ahead, s.maxWait), f.out + d.out)
  }

  /** The new state and what `push` returns. */
  function Push(s: StreamState, now: int, es: seq<Entry>): (StreamState, seq<Entry>) {
    PushResult(s, now, Feed(FeedStart(s, now), es))
  }

  /** There is a maximum wait, and more time than that has passed since the last delivery. */
  ghost predicate WaitIsOver(s: StreamState, now: int) {
    s.maxWait != 0 && s.maxWait < if s.lastTime.Some? then now - s.lastTime.value else 0
  }

  // ---- the queue of entries held ahead ----

  lemma {:induction false} InsertAheadSorted(a: seq<Entry>, e: Entry)
    requires Sorted(a)
    ensures Sorted(InsertAhead(a, e))
    ensures forall x :: x in InsertAhead(a, e) <==> x in a || (x == e && !Has(a, e.seqNo))
    ensures |InsertAhead(a, e)| >= 1 && InsertAhead(a, e)[0].seqNo ==
      if a != [] && a[0].seqNo < e.seqNo then a[0].seqNo else e.seqNo
  {
    if a != [] && a[0].seqNo > e.seqNo {
      assert !Has(a, e.seqNo);
    } else if a != [] && a[0].seqNo < e.seqNo {
      var rest := a[1..];
      InsertAheadSorted(rest, e);
      var b := InsertAhead(rest, e);
      HasFirst(a, e.seqNo);
      hide InsertAhead, Has;
      assert forall x :: x in a <==> x == a[0] || x in rest;
      forall i | 0 <= i < |b| ensures a[0].seqNo < b[i].seqNo { assert b[i] in b; }
    }
  }

  lemma HasFirst(a: seq<Entry>, n: nat)
    requires a != []
    ensures Has(a, n) <==> a[0].seqNo == n || Has(a[1..], n)
  {
    if i :| 0 <= i < |a| && a[i].seqNo == n {
      if i > 0 { assert a[1..][i - 1] == a[i]; }
    }
    if i :| 0 <= i < |a[1..]| && a[1..][i].seqNo == n { assert a[i + 1] == a[1..][i]; }
    if a[0].seqNo == n { assert a[0].seqNo == n; }
  }

  // ---- order ----

  /** r leads from `from` up to `to`, always upwards. */
  ghost predicate Climbs(r: seq<Entry>, from: nat, to: nat) {
    && (forall i :: 0 <= i < |r| ==> from < r[i].seqNo <= to)
    && Sorted(r)
    && (if r == [] then to == from else r[|r| - 1].seqNo == to)
  }

  ghost predicate FeedOk(f0: FeedState, f: FeedState) {
    && Sorted(f.ahead)
    && (forall i :: 0 <= i < |f.ahead| ==> f0.lastSeq + 1 < f.ahead[i].seqNo)
    && Climbs(f.out, f0.lastSeq, f.lastSeq)
  }

  lemma FeedOneOk(f0: FeedState, f: FeedState, e: Entry)
    requires FeedOk(f0, f)
    ensures FeedOk(f0, FeedOne(f, e))
  {
    InsertAheadSorted(f.ahead, e);
  }

  lemma {:induction false} FeedAllOk(f0: FeedState, es: seq<Entry>)
    requires FeedOk(f0, f0)
    ensures FeedOk(f0, Feed(f0, es))
  {
    if es != [] {
      FeedAllOk(f0, es[..|es| - 1]);
      FeedOneOk(f0, Feed(f0, es[..|es| - 1]), es[|es| - 1]);
    }
  }

  /** What leaves the queue continues the stream one by one, and what stays is beyond its end. */
  ghost predicate DrainFits(lastSeq: nat, ahead: seq<Entry>) {
    var d := Drain(lastSeq, ahead);
    && Sorted(d.ahead)
    && (forall i :: 0 <= i < |d.ahead| ==> d.lastSeq + 1 < d.ahead[i].seqNo)
    && lastSeq <= d.lastSeq && |d.out| == d.lastSeq - lastSeq
    && (forall i :: 0 <= i < |d.out| ==> d.out[i].seqNo == lastSeq + 1 + i && d.out[i].delay == 0)
  }

  lemma {:induction false} DrainOk(lastSeq: nat, ahead: seq<Entry>)
    requires Sorted(ahead)
    ensures DrainFits(lastSeq, ahead)
    decreases ahead
  {
    if ahead != [] && ahead[0].seqNo <= lastSeq + 1 {
      DrainOk(if ahead[0].seqNo == lastSeq + 1 then ahead[0].seqNo else lastSeq, ahead[1..]);
      DrainMore(lastSeq, ahead);
    }
  }

  lemma DrainMore(lastSeq: nat, ahead: seq<Entry>)
    requires ahead != [] && ahead[0].seqNo <= lastSeq + 1
    requires DrainFits(if ahead[0].seqNo == lastSeq + 1 then ahead[0].seqNo else lastSeq, ahead[1..])
    ensures DrainFits(lastSeq, ahead)
  {
    DrainStep(lastSeq, ahead);
    hide Drain, Sorted;
  }

  lemma DrainStep(lastSeq: nat, ahead: seq<Entry>)
    requires ahead != [] && ahead[0].seqNo <= lastSeq + 1
    ensures var isNext := ahead[0].seqNo == lastSeq + 1;
      var d := Drain(if isNext then ahead[0].seqNo else lastSeq, ahead[1..]);
      Drain(lastSeq, ahead) ==
      if isNext then d.(out := [Entry(ahead[0].seqNo, 0, ahead[0].payload)] + d.out) else d
  {
  }

  /** A push delivers upwards only, and restores what holds between pushes. */
  lemma PushClimbs(s: StreamState, now: int, es: seq<Entry>)
    requires WellFormed(s)
    ensures var (t, r) := Push(s, now, es);
      WellFormed(t) && t.maxWait == s.maxWait && s.lastSeq <= t.lastSeq && Climbs(r, s.lastSeq, t.lastSeq)
  {
    hide Feed, Drain;
    var f := Feed(FeedStart(s, now), es);
    FeedAllOk(FeedStart(s, now), es);
    DrainOk(f.lastSeq, f.ahead);
  }
}
