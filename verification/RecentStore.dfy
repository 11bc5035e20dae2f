/**
 * The ring buffer of recent entries (sequence/recent.go): an array, the index of the newest entry and the number of
 * slots in use. Removed entries become holes. The methods are proved against the functions on values.
 */
module RecentStore {
  import opened Streams
  import opened Histories
  import opened Recents

  const SEQUENCE_NONE := 0

  /** An array element; the sequence number zero marks an emptied one. */
  datatype RecentEntry = RecentEntry(entry: Entry, cumulativeDelay: int)

  function SlotOf(x: RecentEntry): Slot {
    if x.entry.seqNo == SEQUENCE_NONE then Hole else Live(x.entry, x.cumulativeDelay)
  }

  const EMPTY := RecentEntry(Entry(SEQUENCE_NONE, 0, []), 0)

  /** Where slot i stands in a ring of length cap whose newest slot stands at head. */
  function At(head: nat, size: nat, cap: nat, i: nat): (idx: nat)
    requires head < cap && size <= cap && i < size
    ensures idx < cap
  {
    var idx := head - size + 1 + i;
    if idx < 0 then idx + cap else idx
  }

  function Next(idx: nat, cap: nat): nat {
    if idx + 1 == cap then 0 else idx + 1
  }

  /** When the newest slot moves on while there is room, the old slots stay where they are. */
  lemma AtGrow(head: nat, size: nat, cap: nat)
    requires head < cap && size < cap
    ensures Next(head, cap) < cap && At(Next(head, cap), size + 1, cap, size) == Next(head, cap)
    ensures forall i :: 0 <= i < size ==>
              At(Next(head, cap), size + 1, cap, i) == At(head, size, cap, i) != Next(head, cap)
  {
  }

  /** When the newest slot moves on in a full ring, every slot but the oldest stays where it is. */
  lemma AtShift(head: nat, cap: nat)
    requires head < cap
    ensures Next(head, cap) < cap && At(Next(head, cap), cap, cap, cap - 1) == Next(head, cap)
    ensures forall i :: 0 <= i < cap - 1 ==>
              At(Next(head, cap), cap, cap, i) == At(head, cap, cap, i + 1) != Next(head, cap)
  {
    forall i | 0 <= i < cap - 1
      ensures At(Next(head, cap), cap, cap, i) == At(head, cap, cap, i + 1) != Next(head, cap)
    {
    }
  }

  /** The slots w stand in data, oldest first, with the newest at head. */
  ghost predicate Holds(data: seq<RecentEntry>, head: nat, w: seq<Slot>) {
    && head < |data| && |w| <= |data|
    && forall i :: 0 <= i < |w| ==> SlotOf(data[At(head, |w|, |data|, i)]) == w[i]
  }

  lemma HoldsGrow(data: seq<RecentEntry>, head: nat, w: seq<Slot>, x: RecentEntry)
    requires Holds(data, head, w) && |w| < |data|
    ensures Next(head, |data|) < |data|
    ensures Holds(data[Next(head, |data|) := x], Next(head, |data|), w + [SlotOf(x)])
  {
    AtGrow(head, |w|, |data|);
    hide At, Next;
  }

  lemma HoldsShift(data: seq<RecentEntry>, head: nat, w: seq<Slot>, x: RecentEntry)
    requires Holds(data, head, w) && |w| == |data|
    ensures Next(head, |data|) < |data|
    ensures Holds(data[Next(head, |data|) := x], Next(head, |data|), (w + [SlotOf(x)])[1..])
  {
    AtShift(head, |data|);
    hide At, Next;
  }

  class Recent {
    var head: nat
    var size: nat
    var holes: int
    var maxRecentTotalDelay: int
    var maxRecentTotalByteSize: int
    const entries: array<RecentEntry>

    ghost var slots: seq<Slot>  // oldest first

    ghost predicate Valid()
      reads this, entries
    {
      && head < entries.Length && size == |slots| <= entries.Length
      && (forall i :: 0 <= i < size ==> SlotOf(entries[At(head, size, entries.Length, i)]) == slots[i])
      && holes >= HoleCount(slots)
    }

    /** By how much `holes` exceeds the holes there are. */
    ghost function Surplus(): int
      reads this
    {
      holes - HoleCount(slots)
    }

    constructor (capacity: nat)
      requires 1 <= capacity
      ensures Valid() && slots == [] && entries.Length == capacity && fresh(entries) && Surplus() == 0
      ensures maxRecentTotalDelay == maxRecentTotalByteSize == 0
    {
      entries := new RecentEntry[capacity](_ => EMPTY);
      head, size, holes, slots := 0, 0, 0, [];
      maxRecentTotalDelay, maxRecentTotalByteSize := 0, 0;
    }

    /**
     * Adds an entry; the oldest one goes when the ring is full. The count of holes stays as exact as it was
     * unless the oldest slot of a full ring is a hole, which is overwritten without being counted down.
     */
    method Push(entry: Entry)
      requires Valid() && entry.seqNo != SEQUENCE_NONE
      modifies this`head, this`size, this`holes, this`slots, entries
      ensures Valid() && slots == Pushed(entries.Length, old(slots), entry)
      ensures Surplus() == old(Surplus()) + if LosesHole(entries.Length, old(slots)) then 1 else 0
    {
      ghost var cap := entries.Length;
      IncCumulativeDelay(entry.delay);
      Place(entry);
      TrimTail();
    }

    /** The middle of Push: the new entry takes the place after head. */
    method Place(entry: Entry)
      requires Valid() && entry.seqNo != SEQUENCE_NONE
      modifies this`head, this`size, this`slots, entries
      ensures Valid()
      ensures var more := old(slots) + [Live(entry, 0)];
        slots == if |old(slots)| < entries.Length then more else more[1..]
      ensures Surplus() == old(Surplus()) + if LosesHole(entries.Length, old(slots)) then 1 else 0
    {
      ghost var w := slots;
      ghost var data := entries[..];
      ghost var more := w + [Live(entry, 0)];
      var x := RecentEntry(entry, 0);
      HolesAfterPlace(w, Live(entry, 0));
      assert SlotOf(x) == Live(entry, 0) && Holds(data, head, w);
      hide At, HoleCount, SlotOf;
      if size < entries.Length {
        HoldsGrow(data, head, w, x);
        size := size + 1;
      } else {
        HoldsShift(data, head, w, x);
      }
      hide Next;
      head := Next(head, entries.Length);
      entries[head] := x;
      slots := if |w| < entries.Length then more else more[1..];
      assert entries[..] == data[head := x];
      assert Holds(entries[..], head, slots);
    }

    /** Adds d to the cumulative delay of every live entry. */
    method IncCumulativeDelay(d: int)
      requires Valid()
      modifies entries, this`slots
      ensures Valid() && slots == Later(old(slots), d) && Surplus() == old(Surplus())
    {
      if size == 0 {
        assert slots == Later(slots, d);
        return;
      }
      ghost var w := slots;
      var idx := At(head, size, entries.Length, 0);
      var n := size;
      while n > 0
        invariant Valid() && Surplus() == old(Surplus())
        invariant 0 <= n <= size == |w| && (n > 0 ==> idx == At(head, size, entries.Length, size - n))
        invariant forall i :: 0 <= i < size - n ==> slots[i] == LaterSlot(w[i], d)
        invariant forall i :: size - n <= i < size ==> slots[i] == w[i]
      {
        hide HoleCount;
        AddDelay(idx, size - n, d);
        idx := idx + 1;
        if idx == entries.Length {
          idx := 0;
        }
        n := n - 1;
      }
      assert slots == Later(w, d);
    }

    /** Adds d to the cumulative delay of the entry at idx, if there is one. */
    method AddDelay(idx: nat, ghost i: nat, d: int)
      requires Valid() && i < size && idx == At(head, size, entries.Length, i)
      modifies entries, this`slots
      ensures Valid() && slots == old(slots)[i := LaterSlot(old(slots)[i], d)] && Surplus() == old(Surplus())
    {
      if entries[idx].entry.seqNo != SEQUENCE_NONE {
        entries[idx] := entries[idx].(cumulativeDelay := entries[idx].cumulativeDelay + d);
      }
      HoleCountSame(slots, i, LaterSlot(slots[i], d));
      slots := slots[i := LaterSlot(slots[i], d)];
    }

    /** Drops leading holes, when there can be any. */
    method TrimTail()
      requires Valid()
      modifies this`holes, this`size, this`slots
      ensures Valid() && slots == DropHoles(old(slots)) && Surplus() == old(Surplus())
    {
      ghost var w := slots;
      if holes == 0 {
        NoHoles(w);
        return;
      }
      if size == 0 {
        return;
      }
      var idx := At(head, size, entries.Length, 0);
      var n := size;
      while n > 0
        invariant Valid() && n == size && DropHoles(slots) == DropHoles(w) && Surplus() == old(Surplus())
        invariant n > 0 ==> idx == At(head, size, entries.Length, 0)
      {
        if entries[idx].entry.seqNo != SEQUENCE_NONE {
          return;
        }
        hide HoleCount;
        DropTail();
        idx := idx + 1;
        if idx == entries.Length {
          idx := 0;
        }
        n := n - 1;
      }
    }

    /** Drops the oldest slot, a hole. */
    method DropTail()
      requires Valid() && size > 0 && slots[0].Hole?
      modifies this`holes, this`size, this`slots
      ensures Valid() && slots == old(slots)[1..] && Surplus() == old(Surplus())
    {
      FirstHole(slots);
      hide HoleCount;
      holes := holes - 1;
      size := size - 1;
      slots := slots[1..];
    }

    /** Empties every entry whose number is to be removed. */
    method RemoveFn(shouldRemove: nat -> bool)
      requires Valid()
      modifies this`head, this`holes, this`size, this`slots, entries
      ensures Valid() && slots == Emptied(old(slots), shouldRemove) && Surplus() == old(Surplus())
    {
      hide HoleCount;
      ghost var w := slots;
      EmptyAll(shouldRemove);
      if holes > 0 {
        return;
      }
      NoHoles(slots);
      TrimHead();
      TrimTail();
    }

    /** The loop of RemoveFn, from the newest slot to the oldest. */
    method EmptyAll(shouldRemove: nat -> bool)
      requires Valid()
      modifies this`holes, this`slots, entries
      ensures Valid() && slots == Emptied(old(slots), shouldRemove) && Surplus() == old(Surplus())
    {
      hide HoleCount;
      ghost var w := slots;
      var n, idx := size, head;
      while n > 0
        invariant Valid() && Surplus() == old(Surplus())
        invariant 0 <= n <= size == |w| && (n > 0 ==> idx == At(head, size, entries.Length, n - 1))
        invariant forall i :: 0 <= i < n ==> slots[i] == w[i]
        invariant forall i :: n <= i < size ==> slots[i] == Emptied(w, shouldRemove)[i]
      {
        assert SlotOf(entries[At(head, size, entries.Length, n - 1)]) == slots[n - 1] == w[n - 1];
        if entries[idx].entry.seqNo != SEQUENCE_NONE && shouldRemove(entries[idx].entry.seqNo) {
          EmptyOne(idx, n - 1);
        }
        idx := if idx == 0 then entries.Length - 1 else idx - 1;
        n := n - 1;
      }
    }

    /** Empties the entry at idx. */
    method EmptyOne(idx: nat, ghost i: nat)
      requires Valid() && i < size && idx == At(head, size, entries.Length, i) && slots[i].Live?
      modifies this`holes, this`slots, entries
      ensures Valid() && slots == old(slots)[i := Hole] && Surplus() == old(Surplus())
    {
      entries[idx] := EMPTY;
      holes := holes + 1;
      HoleCountUpdate(slots, i);
      slots := slots[i := Hole];
    }

    /** Drops trailing holes. */
    method TrimHead()
      requires Valid()
      modifies this`head, this`holes, this`size, this`slots
      ensures Valid() && slots == DropTrailing(old(slots)) && Surplus() == old(Surplus())
    {
      ghost var w := slots;
      var n, idx := size, head;
      while n > 0
        invariant Valid() && n == size && DropTrailing(slots) == DropTrailing(w) && idx == head
        invariant Surplus() == old(Surplus())
      {
        assert SlotOf(entries[At(head, size, entries.Length, size - 1)]) == slots[size - 1];
        if entries[idx].entry.seqNo != SEQUENCE_NONE {
          return;
        }
        DropHead();
        idx := if idx == 0 then entries.Length - 1 else idx - 1;
        n := n - 1;
      }
    }

    /** Drops the newest slot, a hole. */
    method DropHead()
      requires Valid() && size > 0 && slots[size - 1].Hole?
      modifies this`head, this`holes, this`size, this`slots
      ensures Valid() && slots == old(slots)[..old(size) - 1] && Surplus() == old(Surplus())
      ensures size == old(size) - 1 && head == if old(head) == 0 then entries.Length - 1 else old(head) - 1
    {
      AtPrevious(head, size, entries.Length);
      assert HoleCount(slots) == HoleCount(slots[..size - 1]) + 1;
      hide HoleCount, At;
      holes := holes - 1;
      size := size - 1;
      head := if head == 0 then entries.Length - 1 else head - 1;
      slots := slots[..|slots| - 1];
    }

    /** The number of live entries. */
    method Len() returns (l: nat)
      requires Valid()
      ensures l == |Entries(slots)|
    {
      SlotsCount(slots);
      if holes == 0 {
        return size;
      }
      l := 0;
      var n, idx := size, head;
      assert slots[..size] == slots;
      while n > 0
        invariant 0 <= n <= size && (n > 0 ==> idx == At(head, size, entries.Length, n - 1))
        invariant l + |Entries(slots[..n])| == |Entries(slots)|
      {
        assert SlotOf(entries[At(head, size, entries.Length, n - 1)]) == slots[n - 1];
        assert slots[..n][..n - 1] == slots[..n - 1];
        if entries[idx].entry.seqNo != SEQUENCE_NONE {
          l := l + 1;
        }
        idx := if idx == 0 then entries.Length - 1 else idx - 1;
        n := n - 1;
      }
    }

    /** The most recent live entries within the limits, oldest first. */
    method Recent() returns (r: seq<Entry>)
      requires Valid()
      ensures IsRecent(r, slots, maxRecentTotalDelay, maxRecentTotalByteSize)
    {
      hide Entries, Cumulatives, TotalSize, HoleCount, Within;
      NothingTaken(slots, maxRecentTotalDelay, maxRecentTotalByteSize);
      r := [];
      var currSize := 0;
      var n, idx := size, head;
      while n > 0
        invariant 0 <= n <= size && (n > 0 ==> idx == At(head, size, entries.Length, n - 1))
        invariant currSize == TotalSize(r) && TakenBack(r, slots, n, maxRecentTotalDelay, maxRecentTotalByteSize)
      {
        assert SlotOf(entries[At(head, size, entries.Length, n - 1)]) == slots[n - 1];
        if entries[idx].entry.seqNo != SEQUENCE_NONE {
          var currDelay := entries[idx].cumulativeDelay;
          currSize := currSize + |entries[idx].entry.payload|;
          TakeLive(r, slots, n, maxRecentTotalDelay, maxRecentTotalByteSize);
          if (maxRecentTotalDelay > 0 && currDelay > maxRecentTotalDelay) ||
             (maxRecentTotalByteSize > 0 && currSize > maxRecentTotalByteSize)
          {
            return;
          }
          r := [entries[idx].entry] + r;
        } else {
          SkipHole(r, slots, n, maxRecentTotalDelay, maxRecentTotalByteSize);
        }
        idx := if idx == 0 then entries.Length - 1 else idx - 1;
        n := n - 1;
      }
      AllTaken(r, slots, maxRecentTotalDelay, maxRecentTotalByteSize);
    }

    /** The live entries in the order in which Iterate hands them to its callback. */
    method Iterate() returns (r: seq<Entry>)
      requires Valid()
      ensures r == Entries(slots)
    {
      r := [];
      if size == 0 {
        return;
      }
      var n, idx := size, At(head, size, entries.Length, 0);
      while n > 0
        invariant 0 <= n <= size && (n > 0 ==> idx == At(head, size, entries.Length, size - n))
        invariant r == Entries(slots[..size - n])
      {
        assert SlotOf(entries[At(head, size, entries.Length, size - n)]) == slots[size - n];
        assert slots[..size - n + 1][..size - n] == slots[..size - n];
        if entries[idx].entry.seqNo != SEQUENCE_NONE {
          r := r + [entries[idx].entry];
        }
        idx := idx + 1;
        if idx == entries.Length {
          idx := 0;
        }
        n := n - 1;
      }
      assert slots[..size] == slots;
    }
  }

  lemma AtPrevious(head: nat, size: nat, cap: nat)
    requires head < cap && 1 <= size <= cap
    ensures var h := if head == 0 then cap - 1 else head - 1;
      forall i :: 0 <= i < size - 1 ==> At(h, size - 1, cap, i) == At(head, size, cap, i)
  {
  }

  function DropTrailing(w: seq<Slot>): seq<Slot> {
    if w == [] || w[|w| - 1].Live? then w else DropTrailing(w[..|w| - 1])
  }

  lemma HolesAfterPlace(w: seq<Slot>, x: Slot)
    requires x.Live?
    ensures HoleCount(w + [x]) == HoleCount(w)
    ensures w != [] ==> HoleCount((w + [x])[1..]) == HoleCount(w) - if w[0].Hole? then 1 else 0
  {
    assert (w + [x])[..|w|] == w;
    if w != [] {
      assert w + [x] == [w[0]] + (w + [x])[1..];
      EntriesConcat([w[0]], (w + [x])[1..]);
      assert [w[0]][..0] == [];
    }
  }

  /** A push overwrites a hole: the ring is full and its oldest slot is one. */
  predicate LosesHole(cap: nat, w: seq<Slot>) {
    0 < |w| == cap && w[0].Hole?
  }

  /** A ring of one slot: after a push, its removal and another push `holes` is one, and there is no hole. */
  method StaleHole(first: Entry, second: Entry) returns (r: Recent)
    requires first.seqNo != SEQUENCE_NONE && second.seqNo != SEQUENCE_NONE
    ensures r.Valid() && r.entries.Length == 1 && r.holes == 1 && HoleCount(r.slots) == 0
  {
    r := new Recent(1);
    r.Push(first);
    assert r.slots == [Live(first, 0)] by { OnePush(first); }
    r.RemoveFn(n => n == first.seqNo);
    assert r.slots == [Hole];
    r.Push(second);
    OneMorePush(second);
    AllHoles([]);
  }

  lemma OnePush(e: Entry)
    ensures Pushed(1, [], e) == [Live(e, 0)]
  {
    assert Later([], e.delay) + [Live(e, 0)] == [Live(e, 0)];
  }

  lemma OneMorePush(e: Entry)
    ensures Pushed(1, [Hole], e) == [Live(e, 0)] && HoleCount([Live(e, 0)]) == 0
  {
    assert (Later([Hole], e.delay) + [Live(e, 0)])[1..] == [Live(e, 0)];
    assert [Live(e, 0)][..0] == [];
  }

  lemma {:induction false} NoHoles(w: seq<Slot>)
    requires HoleCount(w) == 0
    ensures DropHoles(w) == w && DropTrailing(w) == w
  {
    DropHolesOk(w);
    assert HoleCount(w) == HoleCount(DropHoles(w)) + (|w| - |DropHoles(w)|);
  }

  lemma HoleCountUpdate(w: seq<Slot>, i: nat)
    requires i < |w| && w[i].Live?
    ensures HoleCount(w[i := Hole]) == HoleCount(w) + 1
  {
    var a, b := w[..i], w[i + 1..];
    assert w == a + [w[i]] + b && w[i := Hole] == a + [Hole] + b;
    EntriesConcat(a, [w[i]]);
    EntriesConcat(a + [w[i]], b);
    EntriesConcat(a, [Hole]);
    EntriesConcat(a + [Hole], b);
    AllHoles([Hole]);
    assert [w[i]][..0] == [];
  }

  lemma {:induction false} HoleCountSame(w: seq<Slot>, i: nat, x: Slot)
    requires i < |w| && (x.Hole? <==> w[i].Hole?)
    ensures HoleCount(w[i := x]) == HoleCount(w)
  {
    if i < |w| - 1 {
      HoleCountSame(w[..|w| - 1], i, x);
      assert w[i := x][..|w| - 1] == w[..|w| - 1][i := x];
    } else {
      assert w[i := x][..|w| - 1] == w[..|w| - 1];
    }
  }

  lemma {:induction false} SlotsCount(w: seq<Slot>)
    ensures |Entries(w)| + HoleCount(w) == |w|
  {
    if w != [] { SlotsCount(w[..|w| - 1]); }
  }

  /** r is the live entries of the slots from n on, and every end of it is within the limits. */
  ghost predicate TakenBack(r: seq<Entry>, w: seq<Slot>, n: nat, maxDelay: int, maxSize: int) {
    && n <= |w| && r == Entries(w[n..]) && |r| <= |Entries(w)| && r == Last(Entries(w), |r|)
    && forall k :: 1 <= k <= |r| ==> Within(w, k, maxDelay, maxSize)
  }

  lemma NothingTaken(w: seq<Slot>, maxDelay: int, maxSize: int)
    ensures TakenBack([], w, |w|, maxDelay, maxSize) && TotalSize([]) == 0
  {
    assert w[|w|..] == [];
  }

  lemma AllTaken(r: seq<Entry>, w: seq<Slot>, maxDelay: int, maxSize: int)
    requires TakenBack(r, w, 0, maxDelay, maxSize)
    ensures IsRecent(r, w, maxDelay, maxSize)
  {
    assert w[0..] == w;
  }

  lemma OneSlot(x: Slot)
    ensures Entries([x]) == if x.Live? then [x.entry] else []
    ensures Cumulatives([x]) == if x.Live? then [x.cumulative] else []
  {
    assert [x][..0] == [];
  }

  lemma SlotsFrom(w: seq<Slot>, n: nat)
    requires 1 <= n <= |w|
    ensures Entries(w[n - 1..]) == Entries([w[n - 1]]) + Entries(w[n..])
    ensures Entries(w) == Entries(w[..n - 1]) + Entries(w[n - 1..])
    ensures Cumulatives(w) == Cumulatives(w[..n - 1]) + (Cumulatives([w[n - 1]]) + Cumulatives(w[n..]))
  {
    hide Entries, Cumulatives;
    assert w[n - 1..] == [w[n - 1]] + w[n..] && w == w[..n - 1] + w[n - 1..];
    EntriesConcat([w[n - 1]], w[n..]);
    EntriesConcat(w[..n - 1], w[n - 1..]);
    CumulativesConcat([w[n - 1]], w[n..]);
    CumulativesConcat(w[..n - 1], w[n - 1..]);
  }

  lemma SkipHole(r: seq<Entry>, w: seq<Slot>, n: nat, maxDelay: int, maxSize: int)
    requires 1 <= n && TakenBack(r, w, n, maxDelay, maxSize) && w[n - 1].Hole?
    ensures TakenBack(r, w, n - 1, maxDelay, maxSize)
  {
    hide Entries, Within;
    SlotsFrom(w, n);
    OneSlot(w[n - 1]);
  }

  lemma NextLive(r: seq<Entry>, w: seq<Slot>, n: nat, maxDelay: int, maxSize: int)
    requires 1 <= n && TakenBack(r, w, n, maxDelay, maxSize) && w[n - 1].Live?
    ensures var e := w[n - 1].entry;
      && |r| + 1 <= |Entries(w)| && Last(Entries(w), |r| + 1) == [e] + r && Entries(w[n - 1..]) == [e] + r
      && TotalSize([e] + r) == TotalSize(r) + |e.payload|
      && |Cumulatives(w)| == |Entries(w)| && Cumulatives(w)[|Entries(w)| - |r| - 1] == w[n - 1].cumulative
  {
    var slot := w[n - 1];
    hide Entries, Cumulatives, TotalSize, Within;
    SlotsFrom(w, n);
    OneSlot(slot);
    CumulativesMatch(w);
    CumulativesMatch(w[n..]);
    TotalSizeConcat([slot.entry], r);
    TotalsOfOne(slot.entry);
  }

  /** Taking one more live entry: either it breaks a limit, and r is final, or it is taken. */
  lemma TakeLive(r: seq<Entry>, w: seq<Slot>, n: nat, maxDelay: int, maxSize: int)
    requires 1 <= n && TakenBack(r, w, n, maxDelay, maxSize) && w[n - 1].Live?
    ensures var slot := w[n - 1]; var size := TotalSize(r) + |slot.entry.payload|;
      if (maxDelay > 0 && slot.cumulative > maxDelay) || (maxSize > 0 && size > maxSize)
      then IsRecent(r, w, maxDelay, maxSize)
      else TakenBack([slot.entry] + r, w, n - 1, maxDelay, maxSize) && TotalSize([slot.entry] + r) == size
  {
    hide Entries, Cumulatives, TotalSize, Last;
    NextLive(r, w, n, maxDelay, maxSize);
  }
}
