/** Streams without a maximum wait: arrival order does not matter. */
module Confluence {
  import opened Streams
  import opened StreamLaws

  // ---- which entries a history has accepted ----

  /** Entry i of a feed passes the in-feed order check. */
  ghost predicate Passes(es: seq<Entry>, i: nat)
    requires i < |es|
  {
    forall j :: 0 <= j < i ==> es[j].seqNo <= es[i].seqNo
  }

  /** The number n was accepted somewhere in the history of a stream that began after `base`. */
  ghost predicate Accepted(base: nat, h: seq<PushCall>, n: int) {
    base < n && exists c, i :: 0 <= c < |h| && 0 <= i < |h[c].feed| && h[c].feed[i].seqNo == n && Passes(h[c].feed, i)
  }

  /** The first accepted entry for every accepted number. */
  type Ledger = map<nat, Entry>

  function Note(m: Ledger, base: nat, prev: nat, e: Entry): Ledger {
    if e.seqNo < prev || e.seqNo <= base || e.seqNo in m then m else m[e.seqNo := e]
  }

  function Highest(es: seq<Entry>): nat {
    if es == [] then 0
    else
      var prev := Highest(es[..|es| - 1]);
      if es[|es| - 1].seqNo < prev then prev else es[|es| - 1].seqNo
  }

  function NoteFeed(m: Ledger, base: nat, es: seq<Entry>): Ledger {
    if es == [] then m
    else Note(NoteFeed(m, base, es[..|es| - 1]), base, Highest(es[..|es| - 1]), es[|es| - 1])
  }

  function LedgerOf(base: nat, h: seq<PushCall>): Ledger {
    if h == [] then map[] else NoteFeed(LedgerOf(base, h[..|h| - 1]), base, h[|h| - 1].feed)
  }

  lemma {:induction false} HighestIsMax(es: seq<Entry>)
    ensures forall j :: 0 <= j < |es| ==> es[j].seqNo <= Highest(es)
    ensures es != [] ==> exists j :: 0 <= j < |es| && es[j].seqNo == Highest(es)
  {
    if es != [] {
      HighestIsMax(es[..|es| - 1]);
      if es[|es| - 1].seqNo < Highest(es[..|es| - 1]) {
        var j :| 0 <= j < |es| - 1 && es[..|es| - 1][j].seqNo == Highest(es[..|es| - 1]);
        assert es[j].seqNo == Highest(es);
      }
    }
  }

  ghost predicate PassesIn(es: seq<Entry>, n: int) {
    exists i :: 0 <= i < |es| && es[i].seqNo == n && Passes(es, i)
  }

  lemma PassesInStep(es: seq<Entry>)
    requires es != []
    ensures forall n :: PassesIn(es, n) <==>
              PassesIn(es[..|es| - 1], n) || (n == es[|es| - 1].seqNo && Highest(es[..|es| - 1]) <= n)
  {
    var init, last := es[..|es| - 1], es[|es| - 1];
    HighestIsMax(init);
    assert Passes(es, |es| - 1) <==> Highest(init) <= last.seqNo;
    forall n ensures PassesIn(es, n) <==> PassesIn(init, n) || (n == last.seqNo && Highest(init) <= n) {
      if i :| 0 <= i < |init| && init[i].seqNo == n && Passes(init, i) {
        assert es[i].seqNo == n && Passes(es, i);
      }
      if i :| 0 <= i < |es| && es[i].seqNo == n && Passes(es, i) {
        if i < |init| { assert init[i].seqNo == n && Passes(init, i); }
      }
    }
  }

  lemma {:induction false} NoteFeedKeys(m: Ledger, base: nat, es: seq<Entry>)
    ensures forall n :: n in NoteFeed(m, base, es) <==> n in m || (base < n && PassesIn(es, n))
  {
    if es != [] {
      NoteFeedKeys(m, base, es[..|es| - 1]);
      PassesInStep(es);
    }
  }

  /** The ledger holds exactly the accepted numbers. */
  lemma {:induction false} LedgerKeys(base: nat, h: seq<PushCall>)
    ensures forall n :: n in LedgerOf(base, h) <==> Accepted(base, h, n)
  {
    if h != [] {
      var init, last := h[..|h| - 1], h[|h| - 1];
      LedgerKeys(base, init);
      NoteFeedKeys(LedgerOf(base, init), base, last.feed);
      forall n ensures Accepted(base, h, n) <==> Accepted(base, init, n) || (base < n && PassesIn(last.feed, n)) {
        if c, i :| 0 <= c < |init| && 0 <= i < |init[c].feed| && init[c].feed[i].seqNo == n && Passes(init[c].feed, i) {
          assert h[c] == init[c];
        }
        if base < n && PassesIn(last.feed, n) {
          var i :| 0 <= i < |last.feed| && last.feed[i].seqNo == n && Passes(last.feed, i);
          assert h[|h| - 1].feed[i].seqNo == n;
        }
        if Accepted(base, h, n) {
          var c, i :| 0 <= c < |h| && 0 <= i < |h[c].feed| && h[c].feed[i].seqNo == n && Passes(h[c].feed, i);
          if c < |init| { assert init[c] == h[c]; }
        }
      }
    }
  }

  // ---- the stream follows the ledger ----

  /** A queue that holds what the ledger has beyond lastSeq, and perhaps some of what lies behind it. */
  ghost predicate Holds(ahead: seq<Entry>, lastSeq: nat, m: Ledger) {
    && Sorted(ahead)
    && (forall e :: e in ahead ==> e.seqNo in m && m[e.seqNo] == e)
    && (forall n :: n in m && lastSeq < n ==> m[n] in ahead)
  }

  /** out delivers exactly the numbers from+1..to, in order. */
  ghost predicate Delivers(out: seq<Entry>, from: nat, to: nat) {
    from + |out| == to && forall i :: 0 <= i < |out| ==> out[i].seqNo == from + 1 + i
  }

  ghost predicate Within(m: Ledger, base: nat) {
    forall n :: n in m ==> base < n && m[n].seqNo == n
  }

  ghost predicate FilledTo(m: Ledger, base: nat, lastSeq: nat) {
    base <= lastSeq && forall n :: base < n <= lastSeq ==> n in m
  }

  ghost predicate Follows(f: FeedState, m: Ledger, base: nat, from: nat) {
    && !f.expired && Within(m, base) && FilledTo(m, base, f.lastSeq)
    && Holds(f.ahead, f.lastSeq, m) && Delivers(f.out, from, f.lastSeq)
  }

  lemma HeldHas(ahead: seq<Entry>, lastSeq: nat, m: Ledger, n: nat)
    requires Holds(ahead, lastSeq, m) && lastSeq < n && (n in m ==> m[n].seqNo == n)
    ensures Has(ahead, n) <==> n in m
  {
    if n in m {
      var i :| 0 <= i < |ahead| && ahead[i] == m[n];
    }
    if Has(ahead, n) {
      var i :| 0 <= i < |ahead| && ahead[i].seqNo == n;
      assert ahead[i] in ahead;
    }
  }

  lemma HoldsInsert(ahead: seq<Entry>, lastSeq: nat, m: Ledger, base: nat, prev: nat, e: Entry)
    requires Holds(ahead, lastSeq, m) && Within(m, base) && prev <= e.seqNo && base <= lastSeq < e.seqNo
    ensures Holds(InsertAhead(ahead, e), lastSeq, Note(m, base, prev, e))
  {
    InsertAheadSorted(ahead, e);
    HeldHas(ahead, lastSeq, m, e.seqNo);
  }

  lemma FeedOneFollows(f: FeedState, m: Ledger, base: nat, from: nat, e: Entry)
    requires Follows(f, m, base, from)
    ensures Follows(FeedOne(f, e), Note(m, base, f.prev, e), base, from)
  {
    if f.prev <= e.seqNo && f.lastSeq + 1 < e.seqNo {
      HoldsInsert(f.ahead, f.lastSeq, m, base, f.prev, e);
    }
  }

  lemma {:induction false} FeedFollows(f0: FeedState, m: Ledger, base: nat, es: seq<Entry>)
    requires Follows(f0, m, base, f0.lastSeq) && f0.prev == 0
    ensures Follows(Feed(f0, es), NoteFeed(m, base, es), base, f0.lastSeq)
    ensures Feed(f0, es).prev == Highest(es)
  {
    if es != [] {
      FeedFollows(f0, m, base, es[..|es| - 1]);
      FeedOneFollows(Feed(f0, es[..|es| - 1]), NoteFeed(m, base, es[..|es| - 1]), base, f0.lastSeq, es[|es| - 1]);
    }
  }

  lemma {:induction false} DrainFollows(lastSeq: nat, ahead: seq<Entry>, m: Ledger, base: nat)
    requires Holds(ahead, lastSeq, m) && FilledTo(m, base, lastSeq) && Within(m, base)
    ensures var d := Drain(lastSeq, ahead);
      Holds(d.ahead, d.lastSeq, m) && FilledTo(m, base, d.lastSeq)
    decreases ahead
  {
    if ahead != [] && ahead[0].seqNo <= lastSeq + 1 {
      var next := if ahead[0].seqNo == lastSeq + 1 then ahead[0].seqNo else lastSeq;
      assert ahead == [ahead[0]] + ahead[1..];
      DrainFollows(next, ahead[1..], m, base);
    }
  }

  /** The state of a stream that has no maximum wait, told by its ledger alone. */
  ghost predicate Reflects(s: StreamState, m: Ledger, base: nat) {
    && s.maxWait == 0 && WellFormed(s)
    && Within(m, base) && FilledTo(m, base, s.lastSeq) && Holds(s.ahead, s.lastSeq, m)
  }

  lemma PushReflects(s: StreamState, m: Ledger, base: nat, now: int, es: seq<Entry>)
    requires Reflects(s, m, base)
    ensures var (t, r) := Push(s, now, es);
      Reflects(t, NoteFeed(m, base, es), base) && Delivers(r, s.lastSeq, t.lastSeq)
  {
    var f := Feed(FeedStart(s, now), es);
    FeedFollows(FeedStart(s, now), m, base, es);
    DrainFollows(f.lastSeq, f.ahead, NoteFeed(m, base, es), base);
    DrainOk(f.lastSeq, f.ahead);
    PushClimbs(s, now, es);
  }

  lemma {:induction false} RunReflects(base: nat, h: seq<PushCall>)
    ensures var (t, out) := Run(NewStream(base + 1, 0), h);
      Reflects(t, LedgerOf(base, h), base) && Delivers(out, base, t.lastSeq)
  {
    if h != [] {
      RunReflects(base, h[..|h| - 1]);
      var (t, out) := Run(NewStream(base + 1, 0), h[..|h| - 1]);
      PushReflects(t, LedgerOf(base, h[..|h| - 1]), base, h[|h| - 1].now, h[|h| - 1].feed);
    }
  }

  lemma ReflectsStops(s: StreamState, m: Ledger, base: nat)
    requires Reflects(s, m, base)
    ensures s.lastSeq + 1 !in m
  {
  }

  /**
   * After any history of pushes: lastSeq is the largest number up to which everything was accepted,
   * the output is that whole run in order, and the queue is what was accepted beyond it.
   */
  lemma ClosedForm(base: nat, h: seq<PushCall>)
    ensures var (t, out) := Run(NewStream(base + 1, 0), h);
      && base <= t.lastSeq && (forall n :: base < n <= t.lastSeq ==> Accepted(base, h, n))
      && !Accepted(base, h, t.lastSeq + 1)
      && Delivers(out, base, t.lastSeq)
      && Sorted(t.ahead) && (forall n :: Has(t.ahead, n) <==> Accepted(base, h, n) && t.lastSeq < n)
  {
    var (t, out) := Run(NewStream(base + 1, 0), h);
    var m := LedgerOf(base, h);
    RunReflects(base, h);
    LedgerKeys(base, h);
    ReflectsStops(t, m, base);
    forall n ensures Has(t.ahead, n) <==> Accepted(base, h, n) && t.lastSeq < n {
      if t.lastSeq < n { HeldHas(t.ahead, t.lastSeq, m, n); }
    }
  }

  // ---- confluence ----

  /** Every entry of the history is the one the sender keeps under its number. */
  ghost predicate Consistent(h: seq<PushCall>, sent: nat -> Entry) {
    forall c, i :: 0 <= c < |h| && 0 <= i < |h[c].feed| ==> h[c].feed[i] == sent(h[c].feed[i].seqNo)
  }

  lemma {:induction false} NoteFeedConsistent(m: Ledger, base: nat, es: seq<Entry>, sent: nat -> Entry)
    requires (forall n :: n in m ==> m[n] == sent(n)) && forall i :: 0 <= i < |es| ==> es[i] == sent(es[i].seqNo)
    ensures forall n :: n in NoteFeed(m, base, es) ==> NoteFeed(m, base, es)[n] == sent(n)
  {
    if es != [] { NoteFeedConsistent(m, base, es[..|es| - 1], sent); }
  }

  lemma {:induction false} LedgerConsistent(base: nat, h: seq<PushCall>, sent: nat -> Entry)
    requires Consistent(h, sent)
    ensures forall n :: n in LedgerOf(base, h) ==> LedgerOf(base, h)[n] == sent(n)
  {
    if h != [] {
      assert Consistent(h[..|h| - 1], sent);
      LedgerConsistent(base, h[..|h| - 1], sent);
      NoteFeedConsistent(LedgerOf(base, h[..|h| - 1]), base, h[|h| - 1].feed, sent);
    }
  }

  /** Two streams that reflect the same ledger are in the same place. */
  lemma ReflectsUnique(s: StreamState, t: StreamState, m: Ledger, base: nat)
    requires Reflects(s, m, base) && Reflects(t, m, base)
    ensures s.lastSeq == t.lastSeq && s.ahead == t.ahead
  {
    ReflectsStops(s, m, base);
    ReflectsStops(t, m, base);
    assert s.lastSeq < t.lastSeq ==> s.lastSeq + 1 in m;
    assert t.lastSeq < s.lastSeq ==> t.lastSeq + 1 in m;
    assert forall e :: e in s.ahead ==> s.lastSeq < e.seqNo && e in t.ahead;
    assert forall e :: e in t.ahead ==> t.lastSeq < e.seqNo && e in s.ahead;
    SortedUnique(s.ahead, t.ahead);
  }

  lemma {:induction false} SortedUnique(a: seq<Entry>, b: seq<Entry>)
    requires Sorted(a) && Sorted(b) && forall e :: e in a <==> e in b
    ensures a == b
  {
    assert (a == [] || a[0] in a) && (b == [] || b[0] in b);
    if a != [] {
      assert a[0] in b && b[0] in a;
      assert a == [a[0]] + a[1..] && b == [b[0]] + b[1..];
      forall e ensures e in a[1..] <==> e in b[1..] {
        assert e in a <==> e in b;
      }
      SortedUnique(a[1..], b[1..]);
    }
  }

  lemma RunSent(base: nat, h: seq<PushCall>, sent: nat -> Entry)
    requires Consistent(h, sent)
    ensures var (t, out) := Run(NewStream(base + 1, 0), h);
      forall i :: 0 <= i < |out| ==> out[i].payload == sent(out[i].seqNo).payload
  {
    RunVouched(NewStream(base + 1, 0), h, (n: nat, p) => p == sent(n).payload);
  }

  /** Same numbers delivered in the same order with the same payloads; delays aside. */
  ghost predicate SameContent(a: seq<Entry>, b: seq<Entry>) {
    |a| == |b| && forall i :: 0 <= i < |a| ==> a[i].seqNo == b[i].seqNo && a[i].payload == b[i].payload
  }

  lemma SameLedger(base: nat, g: seq<PushCall>, h: seq<PushCall>, sent: nat -> Entry)
    requires Consistent(g, sent) && Consistent(h, sent)
    requires forall n :: Accepted(base, g, n) <==> Accepted(base, h, n)
    ensures LedgerOf(base, g) == LedgerOf(base, h)
  {
    hide Accepted, LedgerOf, Consistent;
    LedgerKeys(base, g);
    LedgerKeys(base, h);
    LedgerConsistent(base, g, sent);
    LedgerConsistent(base, h, sent);
  }

  /**
   * Arrival order, batching and duplicates do not matter: two histories of a sender's entries in which
   * the same numbers were accepted leave the stream in the same place, with the same output.
   */
  lemma ArrivalOrderIrrelevant(base: nat, g: seq<PushCall>, h: seq<PushCall>, sent: nat -> Entry)
    requires Consistent(g, sent) && Consistent(h, sent)
    requires forall n :: Accepted(base, g, n) <==> Accepted(base, h, n)
    ensures var (s, a) := Run(NewStream(base + 1, 0), g);
      var (t, b) := Run(NewStream(base + 1, 0), h);
      s.lastSeq == t.lastSeq && s.ahead == t.ahead && SameContent(a, b)
  {
    hide Holds, FilledTo, Accepted, WellFormed, Within, Run, LedgerOf, Consistent, Reflects;
    var (s, a) := Run(NewStream(base + 1, 0), g);
    var (t, b) := Run(NewStream(base + 1, 0), h);
    SameLedger(base, g, h, sent);
    RunReflects(base, g);
    RunReflects(base, h);
    ReflectsUnique(s, t, LedgerOf(base, g), base);
    RunSent(base, g, sent);
    RunSent(base, h, sent);
  }

  // ---- which numbers one push delivers, with or without expiry ----

  /** es[k] is the first entry of the feed beyond lastSeq. */
  ghost predicate FirstBeyond(es: seq<Entry>, lastSeq: nat, k: int) {
    0 <= k < |es| && lastSeq < es[k].seqNo && forall j :: 0 <= j < k ==> es[j].seqNo <= lastSeq
  }

  ghost predicate Chain(out: seq<Entry>) {
    forall i :: 0 <= i < |out| ==> out[i].seqNo == out[0].seqNo + i
  }

  ghost predicate NoneBeyond(es: seq<Entry>, lastSeq: nat) {
    forall j :: 0 <= j < |es| ==> es[j].seqNo <= lastSeq
  }

  /** Where deliveries begin: next in line, or, when the wait is over, at the first entry fed beyond lastSeq. */
  ghost predicate BeginsRight(lastSeq: nat, expired: bool, es: seq<Entry>, out: seq<Entry>) {
    if !expired then out != [] ==> out[0].seqNo == lastSeq + 1
    else if out == [] then NoneBeyond(es, lastSeq)
    else exists k :: FirstBeyond(es, lastSeq, k) && out[0].seqNo == es[k].seqNo
  }

  lemma {:induction false} FeedBegins(f0: FeedState, es: seq<Entry>)
    requires f0.out == [] && f0.prev == 0
    ensures var f := Feed(f0, es);
      && f.prev == Highest(es)
      && BeginsRight(f0.lastSeq, f0.expired, es, f.out)
      && f.expired == (f0.expired && f.out == [])
      && Chain(f.out) && f.lastSeq == (if f.out == [] then f0.lastSeq else f.out[|f.out| - 1].seqNo)
  {
    if es != [] {
      var init, e := es[..|es| - 1], es[|es| - 1];
      FeedBegins(f0, init);
      HighestIsMax(init);
      var f := Feed(f0, init);
      if f0.expired {
        FirstBeyondMore(es, f0.lastSeq);
        if f.out == [] && FeedOne(f, e).out != [] {
          assert FirstBeyond(es, f0.lastSeq, |es| - 1);
        }
      }
    }
  }

  lemma FirstBeyondMore(es: seq<Entry>, lastSeq: nat)
    requires es != []
    ensures forall k :: FirstBeyond(es[..|es| - 1], lastSeq, k) ==>
              FirstBeyond(es, lastSeq, k) && es[k] == es[..|es| - 1][k]
  {
  }

  lemma {:induction false} FeedHeld(f0: FeedState, es: seq<Entry>)
    requires Sorted(f0.ahead) && f0.prev == 0
    ensures var f := Feed(f0, es);
      && f.prev == Highest(es) && Sorted(f.ahead) && f0.lastSeq <= f.lastSeq
      && forall n :: f.lastSeq < n ==> (Has(f.ahead, n) <==> Has(f0.ahead, n) || PassesIn(es, n))
  {
    if es != [] {
      var init, e := es[..|es| - 1], es[|es| - 1];
      FeedHeld(f0, init);
      PassesInStep(es);
      var f := Feed(f0, init);
      InsertHas(f.ahead, e);
    }
  }

  lemma InsertHas(a: seq<Entry>, e: Entry)
    requires Sorted(a)
    ensures Sorted(InsertAhead(a, e))
    ensures forall n :: Has(InsertAhead(a, e), n) <==> Has(a, n) || n == e.seqNo
  {
    InsertAheadSorted(a, e);
    var b := InsertAhead(a, e);
    forall n ensures Has(b, n) <==> Has(a, n) || n == e.seqNo {
      if i :| 0 <= i < |a| && a[i].seqNo == n { assert a[i] in b; }
      if i :| 0 <= i < |b| && b[i].seqNo == n { assert b[i] in b; }
      if n == e.seqNo && !Has(a, n) { assert e in b; }
    }
  }

  /**
   * One push, for any maximum wait. What it delivers is an unbroken run that ends at the new lastSeq; it
   * begins right after the old one, unless the wait is over: then with the first entry fed beyond it. What
   * it holds ahead is what was held or now accepted beyond the new lastSeq.
   */
  lemma PushExact(s: StreamState, now: int, es: seq<Entry>)
    requires WellFormed(s)
    ensures var (t, r) := Push(s, now, es);
      && Chain(r) && t.lastSeq == (if r == [] then s.lastSeq else r[|r| - 1].seqNo)
      && BeginsRight(s.lastSeq, WaitIsOver(s, now), es, r)
      && forall n :: t.lastSeq < n ==> (Has(t.ahead, n) <==> Has(s.ahead, n) || PassesIn(es, n))
  {
    hide *;
    PushChains(s, now, es);
    PushBegins(s, now, es);
    PushHolds(s, now, es);
  }

  lemma PushChains(s: StreamState, now: int, es: seq<Entry>)
    requires WellFormed(s)
    ensures var (t, r) := Push(s, now, es);
      Chain(r) && t.lastSeq == (if r == [] then s.lastSeq else r[|r| - 1].seqNo)
  {
    var f0 := FeedStart(s, now);
    var f := Feed(f0, es);
    hide Feed, Drain, BeginsRight;
    FeedAllOk(f0, es);
    FeedBegins(f0, es);
    DrainOk(f.lastSeq, f.ahead);
  }

  lemma PushBegins(s: StreamState, now: int, es: seq<Entry>)
    requires WellFormed(s)
    ensures BeginsRight(s.lastSeq, WaitIsOver(s, now), es, Push(s, now, es).1)
  {
    var f0 := FeedStart(s, now);
    var f := Feed(f0, es);
    hide Feed, Drain, FirstBeyond, NoneBeyond, Chain;
    FeedAllOk(f0, es);
    FeedBegins(f0, es);
    if f.out == [] { NothingDrains(f.lastSeq, f.ahead); }
  }

  lemma PushHolds(s: StreamState, now: int, es: seq<Entry>)
    requires WellFormed(s)
    ensures var t := Push(s, now, es).0;
      forall n :: t.lastSeq < n ==> (Has(t.ahead, n) <==> Has(s.ahead, n) || PassesIn(es, n))
  {
    var f0 := FeedStart(s, now);
    var f := Feed(f0, es);
    hide Feed, Drain, PassesIn, Has;
    FeedAllOk(f0, es);
    FeedHeld(f0, es);
    DrainOk(f.lastSeq, f.ahead);
    DrainHas(f.lastSeq, f.ahead);
  }

  lemma NothingDrains(lastSeq: nat, ahead: seq<Entry>)
    requires forall i :: 0 <= i < |ahead| ==> lastSeq + 1 < ahead[i].seqNo
    ensures Drain(lastSeq, ahead).out == []
  {
  }

  lemma {:induction false} DrainHas(lastSeq: nat, ahead: seq<Entry>)
    requires Sorted(ahead)
    ensures var d := Drain(lastSeq, ahead);
      forall n :: d.lastSeq < n ==> (Has(d.ahead, n) <==> Has(ahead, n))
    decreases ahead
  {
    if ahead != [] && ahead[0].seqNo <= lastSeq + 1 {
      var next := if ahead[0].seqNo == lastSeq + 1 then ahead[0].seqNo else lastSeq;
      DrainHas(next, ahead[1..]);
      DrainOk(next, ahead[1..]);
      forall n | ahead[0].seqNo < n ensures Has(ahead, n) <==> Has(ahead[1..], n) {
        if i :| 0 <= i < |ahead| && ahead[i].seqNo == n { assert ahead[1..][i - 1] == ahead[i]; }
        if i :| 0 <= i < |ahead[1..]| && ahead[1..][i].seqNo == n { assert ahead[i + 1] == ahead[1..][i]; }
      }
    }
  }
}
