/** When a stream gives up waiting (sequence/stream.go). */
module Waiting {
  import opened Streams
  import opened StreamLaws
  import opened Confluence

  /** A push delivers everything up to the new lastSeq unless the wait is over and the feed skips a number. */
  lemma PushSkips(s: StreamState, now: int, es: seq<Entry>)
    requires WellFormed(s)
    ensures var (t, r) := Push(s, now, es);
      && |r| <= t.lastSeq - s.lastSeq
      && (|r| == t.lastSeq - s.lastSeq <==>
            !(WaitIsOver(s, now) && exists k :: FirstBeyond(es, s.lastSeq, k) && es[k].seqNo != s.lastSeq + 1))
  {
    PushExact(s, now, es);
    PushClimbs(s, now, es);
    var r := Push(s, now, es).1;
    hide Push, WaitIsOver;
    if r != [] { assert r[|r| - 1].seqNo == r[0].seqNo + |r| - 1; }
    assert forall k, m :: FirstBeyond(es, s.lastSeq, k) && FirstBeyond(es, s.lastSeq, m) ==> k == m;
  }

  /** Before the maximum wait has passed, and on the first push, no number is skipped. */
  lemma WaitsInTime(s: StreamState, now: int, es: seq<Entry>)
    requires WellFormed(s) && s.maxWait >= 0
    requires s.maxWait == 0 || s.lastTime == None || now - s.lastTime.value <= s.maxWait
    ensures var (t, r) := Push(s, now, es);
      |r| == t.lastSeq - s.lastSeq && forall i :: 0 <= i < |r| ==> r[i].seqNo == s.lastSeq + 1 + i
  {
    PushSkips(s, now, es);
    PushExact(s, now, es);
    PushClimbs(s, now, es);
    hide Push;
  }

  /** After it, delivery goes on with the first entry fed beyond lastSeq. */
  lemma GivesUp(s: StreamState, now: int, es: seq<Entry>, k: nat)
    requires WellFormed(s) && s.maxWait != 0 && s.lastTime.Some? && now - s.lastTime.value > s.maxWait
    requires FirstBeyond(es, s.lastSeq, k)
    ensures var (t, r) := Push(s, now, es); r != [] && r[0].seqNo == es[k].seqNo
  {
    PushExact(s, now, es);
    hide Push;
  }

  // ---- delays ----

  lemma {:induction false} FeedDelays(f0: FeedState, es: seq<Entry>)
    requires f0.out == []
    ensures var f := Feed(f0, es);
      && (f.out == [] ==> f.delay == f0.delay)
      && (f.out != [] ==> f.delay == 0 && f.out[0].delay == f0.delay)
      && forall i :: 1 <= i < |f.out| ==> f.out[i].delay == 0
  {
    if es != [] { FeedDelays(f0, es[..|es| - 1]); }
  }

  /** The first entry delivered by a push carries the time since the last delivery, and the others no delay. */
  lemma FirstCarriesTheTime(s: StreamState, now: int, es: seq<Entry>)
    requires WellFormed(s)
    ensures var (t, r) := Push(s, now, es);
      && (r != [] ==> r[0].delay == if s.lastTime.Some? then now - s.lastTime.value else 0)
      && (forall i :: 1 <= i < |r| ==> r[i].delay == 0)
      && t.lastTime == if r != [] || s.lastTime == None then Some(now) else s.lastTime
  {
    FeedDelays(FeedStart(s, now), es);
    PushWalks(s, now, es);
    PushIs(s, now, es);
    var f := Feed(FeedStart(s, now), es);
    FeedDelay(FeedStart(s, now), es);
    hide Feed, Drain, TotalDelay, Push;
  }
}
