/** What holds after any run of pushes (sequence/stream.go). */
module StreamLaws {
  import opened Streams

  /** One call of `push`. */
  datatype PushCall = PushCall(now: int, feed: seq<Entry>)

  /** The stream after a history of pushes, and everything they returned. */
  function Run(s: StreamState, h: seq<PushCall>): (StreamState, seq<Entry>) {
    if h == [] then (s, [])
    else
      var (t, out) := Run(s, h[..|h| - 1]);
      var (u, r) := Push(t, h[|h| - 1].now, h[|h| - 1].feed);
      (u, out + r)
  }

  lemma {:induction false} RunWellFormed(s: StreamState, h: seq<PushCall>)
    requires WellFormed(s)
    ensures WellFormed(Run(s, h).0) && Run(s, h).0.maxWait == s.maxWait
  {
    if h != [] {
      RunWellFormed(s, h[..|h| - 1]);
      PushClimbs(Run(s, h[..|h| - 1]).0, h[|h| - 1].now, h[|h| - 1].feed);
    }
  }

  /** Over a whole run, with or without expiry, what was delivered is strictly increasing. */
  lemma {:induction false} RunClimbs(s: StreamState, h: seq<PushCall>)
    requires WellFormed(s)
    ensures Climbs(Run(s, h).1, s.lastSeq, Run(s, h).0.lastSeq) && s.lastSeq <= Run(s, h).0.lastSeq
  {
    if h != [] {
      var (t, out) := Run(s, h[..|h| - 1]);
      var (u, r) := Push(t, h[|h| - 1].now, h[|h| - 1].feed);
      assert Run(s, h) == (u, out + r);
      hide Run, Push, Climbs;
      RunClimbs(s, h[..|h| - 1]);
      RunWellFormed(s, h[..|h| - 1]);
      PushClimbs(t, h[|h| - 1].now, h[|h| - 1].feed);
      ClimbsOn(out, r, s.lastSeq, t.lastSeq, u.lastSeq);
    }
  }

  lemma ClimbsOn(a: seq<Entry>, b: seq<Entry>, from: nat, mid: nat, to: nat)
    requires Climbs(a, from, mid) && Climbs(b, mid, to) && from <= mid <= to
    ensures Climbs(a + b, from, to)
  {
  }

  // ---- delays ----

  function TotalDelay(es: seq<Entry>): int {
    if es == [] then 0 else TotalDelay(es[..|es| - 1]) + es[|es| - 1].delay
  }

  lemma {:induction false} TotalDelayConcat(a: seq<Entry>, b: seq<Entry>)
    ensures TotalDelay(a + b) == TotalDelay(a) + TotalDelay(b)
  {
    if b == [] {
      assert a + b == a;
    } else {
      TotalDelayConcat(a, b[..|b| - 1]);
      assert (a + b)[..|a + b| - 1] == a + b[..|b| - 1];
    }
  }

  lemma {:induction false} TotalDelayZero(es: seq<Entry>)
    requires forall i :: 0 <= i < |es| ==> es[i].delay == 0
    ensures TotalDelay(es) == 0
  {
    if es != [] { TotalDelayZero(es[..|es| - 1]); }
  }

  lemma {:induction false} FeedDelay(f0: FeedState, es: seq<Entry>)
    requires f0.out == []
    ensures var f := Feed(f0, es);
      && (f.out == [] ==> f.lastSeq == f0.lastSeq)
      && TotalDelay(f.out) + f.delay == f0.delay && (f.out != [] ==> f.delay == 0)
  {
    if es != [] {
      FeedDelay(f0, es[..|es| - 1]);
      var f := Feed(f0, es[..|es| - 1]);
      TotalDelayConcat(f.out, [Entry(es[|es| - 1].seqNo, f.delay, es[|es| - 1].payload)]);
    }
  }

  lemma PushIs(s: StreamState, now: int, es: seq<Entry>)
    ensures var f := Feed(FeedStart(s, now), es); var d := Drain(f.lastSeq, f.ahead); var (t, r) := Push(s, now, es);
      r == f.out + d.out && t.lastTime == Some(if f.out != [] then now else StartTime(s, now))
  {
    hide Feed, Drain;
  }

  /** Nothing is drained from a queue that begins beyond the next number; what is drained has no delay. */
  lemma PushWalks(s: StreamState, now: int, es: seq<Entry>)
    requires WellFormed(s)
    ensures var f := Feed(FeedStart(s, now), es); var d := Drain(f.lastSeq, f.ahead);
      && (forall i :: 0 <= i < |d.out| ==> d.out[i].delay == 0)
      && (f.lastSeq == s.lastSeq ==> d.out == [])
  {
    var f := Feed(FeedStart(s, now), es);
    FeedAllOk(FeedStart(s, now), es);
    hide Feed;
    DrainOk(f.lastSeq, f.ahead);
    if f.lastSeq == s.lastSeq && f.ahead != [] { assert s.lastSeq + 1 < f.ahead[0].seqNo; }
  }

  /** A push that delivers anything moves lastTime to now and hands out exactly the time that passed. */
  lemma PushDelay(s: StreamState, now: int, es: seq<Entry>)
    requires WellFormed(s)
    ensures var (t, r) := Push(s, now, es);
      && t.lastTime.Some?
      && TotalDelay(r) == t.lastTime.value - StartTime(s, now)
      && t.lastTime.value == if r == [] then StartTime(s, now) else now
  {
    var f := Feed(FeedStart(s, now), es);
    var d := Drain(f.lastSeq, f.ahead);
    PushWalks(s, now, es);
    PushIs(s, now, es);
    FeedDelay(FeedStart(s, now), es);
    hide Feed, Drain, TotalDelay, Push;
    TotalDelayConcat(f.out, d.out);
    TotalDelayZero(d.out);
  }

  /** The delays delivered so far add up to the time from the first push to lastTime. */
  lemma {:induction false} DelayConservation(s: StreamState, h: seq<PushCall>)
    requires WellFormed(s) && s.lastTime == None && h != []
    ensures var (t, out) := Run(s, h);
      t.lastTime.Some? && TotalDelay(out) == t.lastTime.value - h[0].now
  {
    var init, last := h[..|h| - 1], h[|h| - 1];
    var (t, out) := Run(s, init);
    RunWellFormed(s, init);
    PushDelay(t, last.now, last.feed);
    TotalDelayConcat(out, Push(t, last.now, last.feed).1);
    if init != [] {
      DelayConservation(s, init);
    }
  }

  // ---- genuineness ----

  /** Every entry carries a payload that `ok` accepts for its number. */
  ghost predicate Vouched(es: seq<Entry>, ok: (nat, seq<Byte>) -> bool) {
    forall i :: 0 <= i < |es| ==> ok(es[i].seqNo, es[i].payload)
  }

  lemma {:induction false} InsertVouched(a: seq<Entry>, e: Entry, ok: (nat, seq<Byte>) -> bool)
    requires Vouched(a, ok) && ok(e.seqNo, e.payload)
    ensures Vouched(InsertAhead(a, e), ok)
  {
    if a != [] && a[0].seqNo < e.seqNo {
      InsertVouched(a[1..], e, ok);
    }
  }

  lemma {:induction false} FeedVouched(f0: FeedState, es: seq<Entry>, ok: (nat, seq<Byte>) -> bool)
    requires Vouched(f0.ahead, ok) && Vouched(f0.out, ok) && Vouched(es, ok)
    ensures Vouched(Feed(f0, es).ahead, ok) && Vouched(Feed(f0, es).out, ok)
  {
    if es != [] {
      FeedVouched(f0, es[..|es| - 1], ok);
      InsertVouched(Feed(f0, es[..|es| - 1]).ahead, es[|es| - 1], ok);
    }
  }

  lemma {:induction false} DrainVouched(lastSeq: nat, ahead: seq<Entry>, ok: (nat, seq<Byte>) -> bool)
    requires Vouched(ahead, ok)
    ensures Vouched(Drain(lastSeq, ahead).ahead, ok) && Vouched(Drain(lastSeq, ahead).out, ok)
    decreases ahead
  {
    if ahead != [] && ahead[0].seqNo <= lastSeq + 1 {
      DrainVouched(if ahead[0].seqNo == lastSeq + 1 then ahead[0].seqNo else lastSeq, ahead[1..], ok);
    }
  }

  /** What a push delivers and keeps was in the feed or in the queue, with its payload. */
  lemma PushVouched(s: StreamState, now: int, es: seq<Entry>, ok: (nat, seq<Byte>) -> bool)
    requires Vouched(s.ahead, ok) && Vouched(es, ok)
    ensures Vouched(Push(s, now, es).0.ahead, ok) && Vouched(Push(s, now, es).1, ok)
  {
    var f := Feed(FeedStart(s, now), es);
    FeedVouched(FeedStart(s, now), es, ok);
    DrainVouched(f.lastSeq, f.ahead, ok);
  }

  lemma {:induction false} RunVouched(s: StreamState, h: seq<PushCall>, ok: (nat, seq<Byte>) -> bool)
    requires Vouched(s.ahead, ok) && forall c :: 0 <= c < |h| ==> Vouched(h[c].feed, ok)
    ensures Vouched(Run(s, h).0.ahead, ok) && Vouched(Run(s, h).1, ok)
  {
    if h != [] {
      RunVouched(s, h[..|h| - 1], ok);
      PushVouched(Run(s, h[..|h| - 1]).0, h[|h| - 1].now, h[|h| - 1].feed, ok);
    }
  }

  /** es are entries of a log of payloads that is numbered from 1. */
  ghost predicate Genuine(es: seq<Entry>, log: seq<seq<Byte>>) {
    forall i :: 0 <= i < |es| ==> 1 <= es[i].seqNo <= |log| && es[i].payload == log[es[i].seqNo - 1]
  }

  /** A push of genuine entries delivers and keeps genuine entries only. */
  lemma PushGenuine(s: StreamState, now: int, es: seq<Entry>, log: seq<seq<Byte>>)
    requires Genuine(s.ahead, log) && Genuine(es, log)
    ensures Genuine(Push(s, now, es).0.ahead, log) && Genuine(Push(s, now, es).1, log)
  {
    PushVouched(s, now, es, (n: nat, p) => 1 <= n <= |log| && p == log[n - 1]);
  }
}
