/** Recent entries, on values (sequence/recent.go). */
module Recents {
  import opened Streams
  import opened StreamLaws
  import opened Histories

  /** One slot of the ring: emptied, or an entry with the delays of everything pushed after it. */
  datatype Slot = Hole | Live(entry: Entry, cumulative: int)

  function LaterSlot(x: Slot, d: int): Slot {
    if x.Hole? then Hole else Live(x.entry, x.cumulative + d)
  }

  function Later(w: seq<Slot>, d: int): seq<Slot> {
    seq(|w|, i requires 0 <= i < |w| => LaterSlot(w[i], d))
  }

  function DropHoles(w: seq<Slot>): seq<Slot> {
    if w == [] || w[0].Live? then w else DropHoles(w[1..])
  }

  /** The slots after an entry was pushed: the oldest slot goes when the ring is full, and so do leading holes. */
  function Pushed(cap: nat, w: seq<Slot>, e: Entry): seq<Slot> {
    var more := Later(w, e.delay) + [Live(e, 0)];
    DropHoles(if |w| < cap then more else more[1..])
  }

  function Emptied(w: seq<Slot>, gone: nat -> bool): seq<Slot> {
    seq(|w|, i requires 0 <= i < |w| => if w[i].Live? && gone(w[i].entry.seqNo) then Hole else w[i])
  }

  function Entries(w: seq<Slot>): seq<Entry> {
    if w == [] then []
    else Entries(w[..|w| - 1]) + if w[|w| - 1].Live? then [w[|w| - 1].entry] else []
  }

  function HoleCount(w: seq<Slot>): nat {
    if w == [] then 0 else HoleCount(w[..|w| - 1]) + if w[|w| - 1].Hole? then 1 else 0
  }

  lemma {:induction false} EntriesConcat(a: seq<Slot>, b: seq<Slot>)
    ensures Entries(a + b) == Entries(a) + Entries(b) && HoleCount(a + b) == HoleCount(a) + HoleCount(b)
  {
    if b == [] {
      assert a + b == a;
    } else {
      EntriesConcat(a, b[..|b| - 1]);
      assert (a + b)[..|a + b| - 1] == a + b[..|b| - 1];
    }
  }

  lemma {:induction false} AllHoles(w: seq<Slot>)
    requires forall i :: 0 <= i < |w| ==> w[i].Hole?
    ensures Entries(w) == [] && HoleCount(w) == |w|
  {
    if w != [] { AllHoles(w[..|w| - 1]); }
  }

  lemma {:induction false} DropHolesOk(w: seq<Slot>)
    ensures var r := DropHoles(w);
      && |r| <= |w| && r == w[|w| - |r|..] && (r != [] ==> r[0].Live?)
      && (forall i :: 0 <= i < |w| - |r| ==> w[i].Hole?)
      && Entries(r) == Entries(w) && HoleCount(w) == HoleCount(r) + (|w| - |r|)
  {
    if w != [] && w[0].Hole? {
      var rest := w[1..];
      DropHolesOk(rest);
      FirstHole(w);
      hide Entries, HoleCount;
      var r := DropHoles(rest);
      assert DropHoles(w) == r;
      hide DropHoles;
      assert rest[|rest| - |r|..] == w[|w| - |r|..];
      forall i | 0 <= i < |w| - |r| ensures w[i].Hole? {
        if i > 0 { assert w[i] == rest[i - 1]; }
      }
    }
  }

  lemma FirstHole(w: seq<Slot>)
    requires w != [] && w[0].Hole?
    ensures Entries(w) == Entries(w[1..]) && HoleCount(w) == HoleCount(w[1..]) + 1
  {
    assert w == [w[0]] + w[1..];
    EntriesConcat([w[0]], w[1..]);
    AllHoles([w[0]]);
  }

  // ---- runs ----

  datatype Op = Push(e: Entry) | RemoveFn(gone: nat -> bool)

  /** What a ring of the given capacity holds after a run of operations. */
  function Ring(cap: nat, ops: seq<Op>): seq<Slot> {
    if ops == [] then []
    else
      match ops[|ops| - 1]
      case Push(e) => Pushed(cap, Ring(cap, ops[..|ops| - 1]), e)
      case RemoveFn(gone) => Emptied(Ring(cap, ops[..|ops| - 1]), gone)
  }

  /** What an unbounded list would hold: one slot for every push, emptied when its entry was removed. */
  function Everything(ops: seq<Op>): seq<Slot> {
    if ops == [] then []
    else
      match ops[|ops| - 1]
      case Push(e) => Later(Everything(ops[..|ops| - 1]), e.delay) + [Live(e, 0)]
      case RemoveFn(gone) => Emptied(Everything(ops[..|ops| - 1]), gone)
  }

  /** Every entry ever pushed. */
  function Pushes(ops: seq<Op>): seq<Entry> {
    if ops == [] then []
    else Pushes(ops[..|ops| - 1]) + if ops[|ops| - 1].Push? then [ops[|ops| - 1].e] else []
  }

  /** The ring is the end of the unbounded list, and what the list has between capacity and ring is holes. */
  ghost predicate EndsLike(cap: nat, w: seq<Slot>, all: seq<Slot>) {
    && |w| <= |all| && |w| <= cap && w == all[|all| - |w|..]
    && forall i :: 0 <= i < |all| - |w| && |all| - cap <= i ==> all[i].Hole?
  }

  lemma GrownEndsLike(cap: nat, w: seq<Slot>, all: seq<Slot>, e: Entry)
    requires EndsLike(cap, w, all) && cap >= 1
    ensures var more := Later(w, e.delay) + [Live(e, 0)];
      EndsLike(cap, if |w| < cap then more else more[1..], Later(all, e.delay) + [Live(e, 0)])
  {
    var all' := Later(all, e.delay) + [Live(e, 0)];
    assert Later(w, e.delay) + [Live(e, 0)] == all'[|all| - |w|..];
  }

  lemma DroppedEndsLike(cap: nat, w: seq<Slot>, all: seq<Slot>)
    requires EndsLike(cap, w, all)
    ensures EndsLike(cap, DropHoles(w), all)
  {
    DropHolesOk(w);
    assert forall i :: 0 <= i < |w| ==> w[i] == all[|all| - |w| + i];
  }

  lemma PushedEndsLike(cap: nat, w: seq<Slot>, all: seq<Slot>, e: Entry)
    requires EndsLike(cap, w, all) && cap >= 1
    ensures EndsLike(cap, Pushed(cap, w, e), Later(all, e.delay) + [Live(e, 0)])
  {
    var more := Later(w, e.delay) + [Live(e, 0)];
    GrownEndsLike(cap, w, all, e);
    DroppedEndsLike(cap, if |w| < cap then more else more[1..], Later(all, e.delay) + [Live(e, 0)]);
  }

  lemma EmptiedEndsLike(cap: nat, w: seq<Slot>, all: seq<Slot>, gone: nat -> bool)
    requires EndsLike(cap, w, all)
    ensures EndsLike(cap, Emptied(w, gone), Emptied(all, gone))
  {
  }

  lemma {:induction false} RingEndsLike(cap: nat, ops: seq<Op>)
    requires cap >= 1
    ensures EndsLike(cap, Ring(cap, ops), Everything(ops))
  {
    if ops != [] {
      var init := ops[..|ops| - 1];
      RingEndsLike(cap, init);
      match ops[|ops| - 1]
      case Push(e) => PushedEndsLike(cap, Ring(cap, init), Everything(init), e);
      case RemoveFn(gone) => EmptiedEndsLike(cap, Ring(cap, init), Everything(init), gone);
    }
  }

  /**
   * After any run of pushes and removals the live entries are exactly those of the last `cap` pushed
   * entries that were not removed, in order.
   */
  lemma ClosedForm(cap: nat, ops: seq<Op>)
    requires cap >= 1
    ensures var all := Everything(ops);
      Entries(Ring(cap, ops)) == Entries(all[if |all| < cap then 0 else |all| - cap..])
  {
    hide Everything, Ring, Entries, HoleCount;
    var all, w := Everything(ops), Ring(cap, ops);
    RingEndsLike(cap, ops);
    var from := if |all| < cap then 0 else |all| - cap;
    var holes := all[from..|all| - |w|];
    AllHoles(holes);
    assert all[from..] == holes + w;
    EntriesConcat(holes, w);
  }

  /** Slot i belongs to push i; a live one carries the delays of all later pushes. */
  ghost predicate SlotOk(slot: Slot, ps: seq<Entry>, i: nat)
    requires i < |ps|
  {
    slot.Live? ==> slot.entry == ps[i] && slot.cumulative == TotalDelay(ps[i + 1..])
  }

  lemma SlotLater(slot: Slot, ps: seq<Entry>, i: nat, e: Entry)
    requires i < |ps| && SlotOk(slot, ps, i)
    ensures SlotOk(if slot.Hole? then Hole else Live(slot.entry, slot.cumulative + e.delay), ps + [e], i)
  {
    assert (ps + [e])[i + 1..] == ps[i + 1..] + [e];
    assert (ps[i + 1..] + [e])[..|ps| - i - 1] == ps[i + 1..];
  }

  lemma {:induction false} EverythingOk(ops: seq<Op>)
    ensures |Everything(ops)| == |Pushes(ops)|
    ensures forall i :: 0 <= i < |Pushes(ops)| ==> SlotOk(Everything(ops)[i], Pushes(ops), i)
  {
    if ops != [] {
      var init := ops[..|ops| - 1];
      EverythingOk(init);
      var all, ps := Everything(init), Pushes(init);
      if ops[|ops| - 1].Push? {
        var e := ops[|ops| - 1].e;
        hide SlotOk, TotalDelay;
        forall i | 0 <= i < |ps| ensures SlotOk(Everything(ops)[i], Pushes(ops), i) {
          SlotLater(all[i], ps, i, e);
        }
        LastSlot(ps, e);
      } else {
        assert Pushes(ops) == ps;
      }
    }
  }

  lemma LastSlot(ps: seq<Entry>, e: Entry)
    ensures SlotOk(Live(e, 0), ps + [e], |ps|)
  {
    assert (ps + [e])[|ps| + 1..] == [];
  }

  /** In the ring itself: cumulative delays are the sums of the delays of all later pushes. */
  lemma CumulativeIsLaterDelay(cap: nat, ops: seq<Op>, i: nat)
    requires cap >= 1 && i < |Ring(cap, ops)| && Ring(cap, ops)[i].Live?
    ensures var w := Ring(cap, ops); var ps := Pushes(ops);
      && |w| <= |ps| && w[i].entry == ps[|ps| - |w| + i]
      && w[i].cumulative == TotalDelay(ps[|ps| - |w| + i + 1..])
  {
    RingEndsLike(cap, ops);
    EverythingOk(ops);
    var all, ps := Everything(ops), Pushes(ops);
    assert SlotOk(all[|ps| - |Ring(cap, ops)| + i], ps, |ps| - |Ring(cap, ops)| + i);
  }

  /** An entry is gone from the unbounded list exactly when a later removal named its number. */
  ghost predicate RemovedSince(ops: seq<Op>, k: nat, n: nat)
    requires k <= |ops|
  {
    exists j :: k <= j < |ops| && ops[j].RemoveFn? && ops[j].gone(n)
  }

  lemma {:induction false} GoneIffRemoved(ops: seq<Op>, k: nat)
    requires k < |ops| && ops[k].Push?
    ensures var i := |Pushes(ops[..k])|;
      && i < |Everything(ops)| && i < |Pushes(ops)| && Pushes(ops)[i] == ops[k].e
      && (Everything(ops)[i].Hole? <==> RemovedSince(ops, k, ops[k].e.seqNo))
  {
    var n := |ops| - 1;
    EverythingOk(ops[..n]);
    if k < n {
      assert ops[..n][..k] == ops[..k] && ops[..n][k] == ops[k];
      GoneIffRemoved(ops[..n], k);
      var s := ops[k].e.seqNo;
      assert RemovedSince(ops, k, s) <==> RemovedSince(ops[..n], k, s) || (ops[n].RemoveFn? && ops[n].gone(s)) by {
        if j :| k <= j < n && ops[..n][j].RemoveFn? && ops[..n][j].gone(s) { assert ops[j].gone(s); }
        if j :| k <= j <= n && ops[j].RemoveFn? && ops[j].gone(s) {
          if j < n { assert ops[..n][j].gone(s); }
        }
      }
    }
  }

  // ---- what Recent returns ----

  /** The cumulative delays of the live entries. */
  function Cumulatives(w: seq<Slot>): seq<int> {
    if w == [] then []
    else Cumulatives(w[..|w| - 1]) + if w[|w| - 1].Live? then [w[|w| - 1].cumulative] else []
  }

  lemma {:induction false} CumulativesConcat(a: seq<Slot>, b: seq<Slot>)
    ensures Cumulatives(a + b) == Cumulatives(a) + Cumulatives(b)
  {
    if b == [] {
      assert a + b == a;
    } else {
      CumulativesConcat(a, b[..|b| - 1]);
      assert (a + b)[..|a + b| - 1] == a + b[..|b| - 1];
    }
  }

  lemma {:induction false} CumulativesMatch(w: seq<Slot>)
    ensures |Cumulatives(w)| == |Entries(w)| <= |w|
  {
    if w != [] { CumulativesMatch(w[..|w| - 1]); }
  }

  /** The last k live entries keep within the limits; a limit that is not positive is none. */
  ghost predicate Within(w: seq<Slot>, k: nat, maxDelay: int, maxSize: int)
    requires 1 <= k <= |Entries(w)|
  {
    CumulativesMatch(w);
    var es, cs := Entries(w), Cumulatives(w);
    && (maxDelay > 0 ==> cs[|cs| - k] <= maxDelay)
    && (maxSize > 0 ==> TotalSize(Last(es, k)) <= maxSize)
  }

  /** r is what is left when the live entries are taken backwards for as long as they keep within the limits. */
  ghost predicate IsRecent(r: seq<Entry>, w: seq<Slot>, maxDelay: int, maxSize: int) {
    var es := Entries(w);
    && |r| <= |es| && r == Last(es, |r|)
    && (forall k :: 1 <= k <= |r| ==> Within(w, k, maxDelay, maxSize))
    && (|r| < |es| ==> !Within(w, |r| + 1, maxDelay, maxSize))
  }

  ghost predicate Descending(cs: seq<int>) {
    forall i, j :: 0 <= i <= j < |cs| ==> cs[i] >= cs[j]
  }

  /** When cumulative delays fall towards the newest entry, that is the longest suffix within the limits. */
  lemma RecentIsLongest(r: seq<Entry>, w: seq<Slot>, maxDelay: int, maxSize: int)
    requires IsRecent(r, w, maxDelay, maxSize) && Descending(Cumulatives(w))
    ensures forall k :: |r| < k <= |Entries(w)| ==> !Within(w, k, maxDelay, maxSize)
  {
    CumulativesMatch(w);
    var es, cs := Entries(w), Cumulatives(w);
    forall k | |r| < k <= |es| ensures !Within(w, k, maxDelay, maxSize) {
      TotalsOfDrop(Last(es, k), k - |r| - 1);
      assert Last(es, k)[k - |r| - 1..] == Last(es, |r| + 1);
      assert cs[|cs| - k] >= cs[|cs| - (|r| + 1)];
    }
  }

  ghost predicate FallingFrom(w: seq<Slot>, top: int) {
    && (forall i :: 0 <= i < |w| && w[i].Live? ==> 0 <= w[i].cumulative <= top)
    && (forall i, j :: 0 <= i <= j < |w| && w[i].Live? && w[j].Live? ==> w[i].cumulative >= w[j].cumulative)
  }

  /** Every cumulative delay of a live entry is that of some slot. */
  lemma {:induction false} CumulativeOfSlot(w: seq<Slot>, k: nat) returns (i: nat)
    requires k < |Cumulatives(w)|
    ensures i < |w| && w[i].Live? && w[i].cumulative == Cumulatives(w)[k]
  {
    if k < |Cumulatives(w[..|w| - 1])| {
      i := CumulativeOfSlot(w[..|w| - 1], k);
    } else {
      i := |w| - 1;
    }
  }

  lemma {:induction false} FallingDescends(w: seq<Slot>, top: int)
    requires FallingFrom(w, top)
    ensures Descending(Cumulatives(w))
  {
    if w != [] {
      var n := |w| - 1;
      var init := w[..n];
      FallingPrefix(w, top);
      FallingDescends(init, top);
      if w[n].Live? {
        forall k | 0 <= k < |Cumulatives(init)| ensures Cumulatives(init)[k] >= w[n].cumulative {
          var i := CumulativeOfSlot(init, k);
          assert init[i] == w[i];
        }
        hide FallingFrom;
      }
    }
  }

  lemma FallingPrefix(w: seq<Slot>, top: int)
    requires FallingFrom(w, top) && w != []
    ensures FallingFrom(w[..|w| - 1], top)
  {
  }

  lemma FallPush(cap: nat, w: seq<Slot>, top: int, e: Entry)
    requires FallingFrom(w, top) && e.delay >= 0
    ensures FallingFrom(Pushed(cap, w, e), (if top < 0 then 0 else top) + e.delay)
  {
    var top' := (if top < 0 then 0 else top) + e.delay;
    var more := Later(w, e.delay) + [Live(e, 0)];
    FallMore(w, top, e);
    hide FallingFrom, Later;
    if |w| < cap { FallDrop(more, top'); } else { FallRest(more, top', 1); FallDrop(more[1..], top'); }
  }

  lemma FallMore(w: seq<Slot>, top: int, e: Entry)
    requires FallingFrom(w, top) && e.delay >= 0
    ensures FallingFrom(Later(w, e.delay) + [Live(e, 0)], (if top < 0 then 0 else top) + e.delay)
  {
  }

  lemma FallRest(w: seq<Slot>, top: int, k: nat)
    requires FallingFrom(w, top) && k <= |w|
    ensures FallingFrom(w[k..], top)
  {
  }

  lemma {:induction false} FallDrop(w: seq<Slot>, top: int)
    requires FallingFrom(w, top)
    ensures FallingFrom(DropHoles(w), top)
  {
    if w != [] && w[0].Hole? {
      FallRest(w, top, 1);
      FallDrop(w[1..], top);
    }
  }

  /** With non-negative delays the cumulative delays of any ring fall towards its newest entry. */
  lemma {:induction false} RingFalls(cap: nat, ops: seq<Op>)
    requires NonNegative(Pushes(ops))
    ensures exists top :: FallingFrom(Ring(cap, ops), top)
  {
    if ops == [] {
      assert FallingFrom(Ring(cap, ops), 0);
    } else {
      var init := ops[..|ops| - 1];
      assert forall i :: 0 <= i < |Pushes(init)| ==> Pushes(init)[i] == Pushes(ops)[i];
      RingFalls(cap, init);
      var w := Ring(cap, init);
      var top :| FallingFrom(w, top);
      if ops[|ops| - 1].Push? {
        var e := ops[|ops| - 1].e;
        assert Pushes(ops)[|Pushes(init)|] == e;
        FallPush(cap, w, top, e);
        assert Ring(cap, ops) == Pushed(cap, w, e);
        assert FallingFrom(Ring(cap, ops), (if top < 0 then 0 else top) + e.delay);
      } else {
        assert FallingFrom(Ring(cap, ops), top);
      }
    }
  }

  /** After any run with non-negative delays, what Recent returns is the longest live suffix within both limits. */
  lemma RecentIsLongestFit(cap: nat, ops: seq<Op>, r: seq<Entry>, maxDelay: int, maxSize: int)
    requires NonNegative(Pushes(ops)) && IsRecent(r, Ring(cap, ops), maxDelay, maxSize)
    ensures r == Last(Entries(Ring(cap, ops)), |r|) && (r != [] ==> Within(Ring(cap, ops), |r|, maxDelay, maxSize))
    ensures forall k :: |r| < k <= |Entries(Ring(cap, ops))| ==> !Within(Ring(cap, ops), k, maxDelay, maxSize)
  {
    RingFalls(cap, ops);
    var top :| FallingFrom(Ring(cap, ops), top);
    FallingDescends(Ring(cap, ops), top);
    RecentIsLongest(r, Ring(cap, ops), maxDelay, maxSize);
  }
}
