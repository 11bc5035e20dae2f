/** What a run of pushes leaves missing (sequence/stream.go). */
module Arrivals {
  import opened Streams
  import opened StreamLaws
  import opened StreamGaps
  import opened Engines
  import opened Confluence

  /** The number n passes the in-feed order check of some push. */
  ghost predicate SomePasses(h: seq<PushCall>, n: int) {
    exists j :: 0 <= j < |h| && PassesIn(h[j].feed, n)
  }

  lemma SomePassesStep(h: seq<PushCall>, n: int)
    requires h != []
    ensures SomePasses(h, n) <==> SomePasses(h[..|h| - 1], n) || PassesIn(h[|h| - 1].feed, n)
  {
    hide PassesIn;
    var init, last := h[..|h| - 1], h[|h| - 1];
    if j :| 0 <= j < |init| && PassesIn(init[j].feed, n) { assert PassesIn(h[j].feed, n); }
    if j :| 0 <= j < |h| && PassesIn(h[j].feed, n) {
      if j < |init| { assert PassesIn(init[j].feed, n); }
    }
    if PassesIn(last.feed, n) { assert PassesIn(h[|h| - 1].feed, n); }
  }

  lemma NonePass(n: int)
    ensures !SomePasses([], n)
  {
  }

  /** What a run holds ahead is what was held or accepted beyond lastSeq, for any maximum wait. */
  lemma {:induction false} RunHeld(s: StreamState, h: seq<PushCall>, n: nat)
    requires WellFormed(s) && Run(s, h).0.lastSeq < n
    ensures Has(Run(s, h).0.ahead, n) <==> Has(s.ahead, n) || SomePasses(h, n)
  {
    hide Push, PassesIn, Has, SomePasses, Sorted;
    if h == [] {
      NonePass(n);
    } else {
      var init, last := h[..|h| - 1], h[|h| - 1];
      RunWellFormed(s, init);
      var t := Run(s, init).0;
      PushExact(t, last.now, last.feed);
      PushClimbs(t, last.now, last.feed);
      RunHeld(s, init, n);
      SomePassesStep(h, n);
    }
  }

  // ---- without a maximum wait nothing is passed over ----

  /** The ledger of what is held. */
  ghost function HeldLedger(a: seq<Entry>): Ledger
    requires Sorted(a)
  {
    map i | 0 <= i < |a| :: a[i].seqNo := a[i]
  }

  lemma HeldReflects(s: StreamState)
    requires WellFormed(s) && s.maxWait == 0
    ensures Reflects(s, HeldLedger(s.ahead), s.lastSeq)
    ensures forall n :: n in HeldLedger(s.ahead) ==> Has(s.ahead, n)
  {
    var m := HeldLedger(s.ahead);
    forall e | e in s.ahead ensures e.seqNo in m && m[e.seqNo] == e {
      var i :| 0 <= i < |s.ahead| && s.ahead[i] == e;
    }
  }

  lemma PushFilled(s: StreamState, now: int, es: seq<Entry>, n: nat)
    requires WellFormed(s) && s.maxWait == 0 && s.lastSeq < n <= Push(s, now, es).0.lastSeq
    ensures Has(s.ahead, n) || PassesIn(es, n)
  {
    HeldReflects(s);
    var m := HeldLedger(s.ahead);
    PushReflects(s, m, s.lastSeq, now, es);
    NoteFeedKeys(m, s.lastSeq, es);
    hide Push, PassesIn, Has, HeldLedger, Holds, Within, WellFormed, NoteFeed;
    assert n in NoteFeed(m, s.lastSeq, es);
  }

  /** What a run has delivered was held or accepted. */
  lemma {:induction false} RunFilled(s: StreamState, h: seq<PushCall>, n: nat)
    requires WellFormed(s) && s.maxWait == 0 && s.lastSeq < n <= Run(s, h).0.lastSeq
    ensures Has(s.ahead, n) || SomePasses(h, n)
  {
    hide Push, PassesIn, Has, SomePasses, Sorted;
    if h != [] {
      var init, last := h[..|h| - 1], h[|h| - 1];
      var t := Run(s, init).0;
      RunWellFormed(s, init);
      SomePassesStep(h, n);
      if n <= t.lastSeq {
        RunFilled(s, init, n);
      } else {
        PushFilled(t, last.now, last.feed, n);
        if Has(t.ahead, n) { RunHeld(s, init, n); }
      }
    }
  }

  // ---- what is still missing ----

  lemma GreatestHeld(s: StreamState)
    requires WellFormed(s) && s.ahead != []
    ensures var top := s.ahead[|s.ahead| - 1].seqNo;
      s.lastSeq < top && Has(s.ahead, top) && forall n :: Has(s.ahead, n) ==> n <= top
  {
  }

  lemma HeldIsBelow(s: StreamState, n: nat)
    requires WellFormed(s) && Has(s.ahead, n)
    ensures s.ahead != [] && s.lastSeq < n <= s.ahead[|s.ahead| - 1].seqNo
  {
  }

  lemma OutstandingIff(s: StreamState, held: nat, n: int)
    requires WellFormed(s) && Has(s.ahead, held) && n <= held
    ensures n in Outstanding(s) <==> s.lastSeq < n && !Has(s.ahead, n)
  {
    HeldIsBelow(s, held);
    if s.lastSeq < n && !Has(s.ahead, n) && n == s.ahead[|s.ahead| - 1].seqNo { GreatestHeld(s); }
  }

  lemma OutstandingIsBeyond(s: StreamState, n: int)
    requires n in Outstanding(s)
    ensures s.lastSeq < n && !Has(s.ahead, n)
  {
  }

  /**
   * Of the numbers below one that is held, what is missing after any run is what was missing and did not pass in
   * any push.
   */
  lemma StillMissing(s: StreamState, h: seq<PushCall>, held: nat, n: int)
    requires WellFormed(s) && s.maxWait == 0 && Has(s.ahead, held) && n <= held
    ensures n in Outstanding(Run(s, h).0) <==> n in Outstanding(s) && !SomePasses(h, n)
  {
    hide *;
    var t := Run(s, h).0;
    RunWellFormed(s, h);
    RunReaches(s, h);
    OutstandingIff(s, held, n);
    if t.lastSeq < n {
      RunHeld(s, h, n);
      RunHeld(s, h, held);
      OutstandingIff(t, held, n);
    } else {
      if n in Outstanding(t) { OutstandingIsBeyond(t, n); }
      if s.lastSeq < n { RunFilled(s, h, n); }
    }
  }

  lemma RunReaches(s: StreamState, h: seq<PushCall>)
    requires WellFormed(s)
    ensures s.lastSeq <= Run(s, h).0.lastSeq
  {
    RunClimbs(s, h);
  }

  /** A run gets as far as a held number exactly when every number missing below it passes in some push. */
  lemma CaughtUpIff(s: StreamState, h: seq<PushCall>, held: nat)
    requires WellFormed(s) && s.maxWait == 0 && Has(s.ahead, held)
    ensures held <= Run(s, h).0.lastSeq <==> forall n :: n in Outstanding(s) && n < held ==> SomePasses(h, n)
  {
    var t := Run(s, h).0;
    RunWellFormed(s, h);
    hide Outstanding, Run, SomePasses, Has, WellFormed;
    if held <= t.lastSeq {
      forall n | n in Outstanding(s) && n < held ensures SomePasses(h, n) {
        StillMissing(s, h, held, n);
        if n in Outstanding(t) { OutstandingIsBeyond(t, n); }
      }
    } else {
      var n := t.lastSeq + 1;
      RunHeld(s, h, held);
      NextIsNotHeld(t);
      OutstandingIff(t, held, n);
      StillMissing(s, h, held, n);
    }
  }

  lemma NextIsNotHeld(t: StreamState)
    requires WellFormed(t)
    ensures !Has(t.ahead, t.lastSeq + 1)
  {
  }

  /** No entry that arrives has a number above `top`. */
  lemma StaysBelow(s: StreamState, h: seq<PushCall>, top: nat)
    requires WellFormed(s) && s.lastSeq <= top
    requires forall i :: 0 <= i < |s.ahead| ==> s.ahead[i].seqNo <= top
    requires forall j, i :: 0 <= j < |h| && 0 <= i < |h[j].feed| ==> h[j].feed[i].seqNo <= top
    ensures Run(s, h).0.lastSeq <= top
    ensures forall i :: 0 <= i < |Run(s, h).0.ahead| ==> Run(s, h).0.ahead[i].seqNo <= top
  {
    RunVouched(s, h, (n: nat, p) => n <= top);
    RunClimbs(s, h);
  }

  // ---- packs ----

  /** In a strictly increasing pack the in-feed order check drops nothing. */
  lemma SortedPasses(pack: seq<Entry>, n: int)
    requires Sorted(pack) && Has(pack, n)
    ensures PassesIn(pack, n)
  {
    var i :| 0 <= i < |pack| && pack[i].seqNo == n;
    assert Passes(pack, i);
  }

  /**
   * A pack that was overwritten from the front with increasing entries, none of which lies below what follows,
   * passes just their numbers.
   */
  lemma OverlaidPasses(over: seq<Entry>, rest: seq<Entry>, n: int)
    requires Sorted(over) && over != [] && forall j :: 0 <= j < |rest| ==> rest[j].seqNo <= over[0].seqNo
    ensures PassesIn(over + rest, n) <==> Has(over, n)
  {
    var p := over + rest;
    if i :| 0 <= i < |p| && p[i].seqNo == n && Passes(p, i) {
      assert p[0].seqNo <= n;
      if i >= |over| { assert over[0].seqNo == n; } else { assert over[i].seqNo == n; }
    }
    if i :| 0 <= i < |over| && over[i].seqNo == n {
      assert p[i].seqNo == n && Passes(p, i);
    }
  }
}
