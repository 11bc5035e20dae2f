/**
 * The history as linked chunks (sequence/history.go). A chunk is an array of fixed size of which a part is occupied.
 * The methods keep three counters in step with the entries and are proved against the functions on values.
 */
module HistoryStore {
  import opened Ranges
  import opened Seqs
  import opened Streams
  import opened StreamLaws
  import opened Histories

  const HISTORY_NODE_SIZE := 1024

  class HistoryNode {
    const data: array<Entry>
    var headIdx: nat
    var tailIdx: nat
    var prev: HistoryNode?
    var next: HistoryNode?

    constructor ()
      ensures fresh(data) && Holds([]) && headIdx == tailIdx == 0 && prev == null && next == null
    {
      data := new Entry[HISTORY_NODE_SIZE];
      headIdx, tailIdx, prev, next := 0, 0, null, null;
    }

    /** The occupied part of the chunk. */
    ghost predicate Holds(part: seq<Entry>)
      reads this, data
    {
      data.Length == HISTORY_NODE_SIZE && headIdx <= tailIdx <= HISTORY_NODE_SIZE && data[headIdx..tailIdx] == part
    }
  }

  ghost predicate DistinctData(ns: seq<HistoryNode>) {
    forall i, j :: 0 <= i < j < |ns| ==> ns[i] != ns[j] && ns[i].data != ns[j].data
  }

  lemma DistinctMore(ns: seq<HistoryNode>, n: HistoryNode)
    requires DistinctData(ns) && forall i :: 0 <= i < |ns| ==> ns[i] != n && ns[i].data != n.data
    ensures DistinctData(ns + [n])
  {
  }

  ghost predicate Totals(es: seq<Entry>, count: int, delay: int, size: int) {
    count == |es| && delay == TotalDelay(es) && size == TotalSize(es)
  }

  /** One more entry, with a number above all others. */
  lemma PushedTotals(was: seq<Entry>, now: seq<Entry>, last: nat, count: int, delay: int, size: int, e: Entry)
    requires InOrder(was, last) && last < e.seqNo && Totals(was, count, delay, size) && now == was + [e]
    ensures InOrder(now, e.seqNo) && Totals(now, count + 1, delay + e.delay, size + |e.payload|)
  {
    SortedPush(was, e);
    hide TotalDelay, TotalSize, Sorted;
    TotalDelayConcat(was, [e]);
    TotalSizeConcat(was, [e]);
    TotalsOfOne(e);
  }

  ghost predicate NoneEmpty(parts: seq<seq<Entry>>) {
    forall i :: 0 <= i < |parts| ==> parts[i] != []
  }

  /** Numbers increase up to at most `last`. */
  ghost predicate InOrder(es: seq<Entry>, last: nat) {
    Sorted(es) && (es != [] ==> es[|es| - 1].seqNo <= last)
  }

  /** One entry less, from the front. */
  lemma PoppedTotals(was: seq<Entry>, last: nat, count: int, delay: int, size: int)
    requires was != [] && InOrder(was, last) && Totals(was, count, delay, size)
    ensures InOrder(was[1..], last)
    ensures Totals(was[1..], count - 1, delay - was[0].delay, size - |was[0].payload|)
  {
    TotalsOfDrop(was, 1);
    assert was[..1] == [was[0]];
    TotalsOfOne(was[0]);
  }

  class History {
    var currEntryCount: int
    var currTotalDelay: int
    var currTotalByteSize: int
    const lim: Limits
    var lastSeq: nat
    var headNode: HistoryNode?
    var tailNode: HistoryNode?

    ghost var chunks: seq<HistoryNode>  // the chunks from headNode to tailNode
    ghost var parts: seq<seq<Entry>>  // what each of them holds
    ghost var Repr: set<object>

    ghost predicate Linked()
      reads this, Repr
    {
      && this in Repr && |chunks| == |parts|
      && (forall i {:trigger chunks[i]} :: 0 <= i < |chunks| ==> chunks[i] in Repr && chunks[i].data in Repr)
      && headNode == NodeAt(chunks, 0, null) && tailNode == NodeAt(chunks, |chunks| - 1, null)
      && (forall i {:trigger chunks[i].next} :: 0 <= i < |chunks| ==> chunks[i].next == NodeAt(chunks, i + 1, null))
      && (forall i {:trigger chunks[i].prev} :: 0 <= i < |chunks| ==> chunks[i].prev == NodeAt(chunks, i - 1, null))
      && (forall i {:trigger parts[i]} :: 0 <= i < |chunks| ==> chunks[i].Holds(parts[i]))
      && DistinctData(chunks)
    }

    /** The entries kept, oldest first. */
    ghost function Contents(): seq<Entry>
      reads this
    {
      Flat(parts)
    }

    ghost predicate Counted()
      reads this
    {
      Totals(Contents(), currEntryCount, currTotalDelay, currTotalByteSize)
    }

    ghost predicate Valid()
      reads this, Repr
    {
      && Linked() && Counted() && NoneEmpty(parts) && InOrder(Contents(), lastSeq)
      && lim.delay >= 0 && lim.size >= 0
    }

    /** A new history; negative limits count as no limit. */
    constructor (maxEntryCount: int, maxTotalDelay: int, maxTotalByteSize: int)
      ensures Valid() && fresh(Repr) && Contents() == [] && lastSeq == 0
      ensures lim == Limits(if maxEntryCount < 0 then 0 else maxEntryCount,
                            if maxTotalDelay < 0 then 0 else maxTotalDelay,
                            if maxTotalByteSize < 0 then 0 else maxTotalByteSize)
    {
      lim := Limits(if maxEntryCount < 0 then 0 else maxEntryCount,
                    if maxTotalDelay < 0 then 0 else maxTotalDelay,
                    if maxTotalByteSize < 0 then 0 else maxTotalByteSize);
      currEntryCount, currTotalDelay, currTotalByteSize, lastSeq := 0, 0, 0, 0;
      headNode, tailNode, chunks, parts, Repr := null, null, [], [], {this};
    }

    /** Makes sure that the tail chunk has room for one more entry. */
    method EnsureRoom()
      requires Linked()
      modifies Repr
      ensures Linked() && fresh(Repr - old(Repr)) && tailNode != null && tailNode.tailIdx < HISTORY_NODE_SIZE
      ensures parts == old(parts) || parts == old(parts) + [[]]
      ensures unchanged(this`currEntryCount, this`currTotalDelay, this`currTotalByteSize, this`lastSeq)
    {
      if tailNode == null {
        var n := new HistoryNode();
        headNode := n;
        tailNode := n;
        chunks, parts, Repr := [n], [[]], Repr + {n, n.data};
      } else if tailNode.tailIdx >= HISTORY_NODE_SIZE {
        AddNode();
      }
    }

    /** Links a new, empty chunk behind the tail. */
    method AddNode()
      requires Linked() && tailNode != null
      modifies Repr
      ensures Linked() && fresh(Repr - old(Repr)) && tailNode != null && tailNode.tailIdx == 0
      ensures parts == old(parts) + [[]]
      ensures unchanged(this`currEntryCount, this`currTotalDelay, this`currTotalByteSize, this`lastSeq)
    {
      hide DistinctData;
      ghost var cs := chunks;
      var n := new HistoryNode();
      n.prev := tailNode;
      assert tailNode == cs[|cs| - 1];
      tailNode.next := n;
      tailNode := n;
      chunks, parts, Repr := cs + [n], parts + [[]], Repr + {n, n.data};
      DistinctMore(cs, n);
      assert forall i :: 0 <= i < |chunks| ==> chunks[i] == if i < |cs| then cs[i] else n;
      assert forall i {:trigger chunks[i].next} :: 0 <= i < |cs| - 1 ==> chunks[i].next == cs[i + 1];
    }

    /** Writes e behind the last entry of the tail chunk. */
    method Write(e: Entry)
      requires Linked() && tailNode != null && tailNode.tailIdx < HISTORY_NODE_SIZE
      modifies Repr
      ensures Linked() && Repr == old(Repr)
      ensures |old(parts)| > 0
      ensures parts == old(parts)[..|old(parts)| - 1] + [old(parts)[|old(parts)| - 1] + [e]]
      ensures unchanged(this`currEntryCount, this`currTotalDelay, this`currTotalByteSize, this`lastSeq)
    {
      ghost var last := |chunks| - 1;
      ghost var ps := parts;
      assert tailNode == chunks[last] && tailNode.Holds(ps[last]);
      tailNode.data[tailNode.tailIdx] := e;
      tailNode.tailIdx := tailNode.tailIdx + 1;
      parts := ps[..last] + [ps[last] + [e]];
      assert tailNode.Holds(ps[last] + [e]);
    }

    /** Adds e at the end, unless its number is not new. */
    method PushEntry(e: Entry)
      requires Valid()
      modifies Repr
      ensures Valid() && fresh(Repr - old(Repr))
      ensures lastSeq == if e.seqNo <= old(lastSeq) then old(lastSeq) else e.seqNo
      ensures Contents() == if e.seqNo <= old(lastSeq) then old(Contents()) else old(Contents()) + [e]
    {
      if e.seqNo > lastSeq {
        Accept(e);
      }
    }

    /** PushEntry for an entry whose number is new. */
    method Accept(e: Entry)
      requires Valid() && lastSeq < e.seqNo
      modifies Repr
      ensures Valid() && fresh(Repr - old(Repr)) && lastSeq == e.seqNo && Contents() == old(Contents()) + [e]
    {
      hide Totals, Flat, InOrder, Linked, NoneEmpty;
      ghost var was := Contents();
      Store(e);
      PushedTotals(was, Contents(), lastSeq, currEntryCount, currTotalDelay, currTotalByteSize, e);
      Tally(currEntryCount + 1, currTotalDelay + e.delay, currTotalByteSize + |e.payload|, e.seqNo);
    }

    /** Sets the counters and the last sequence number to those of the chunks. */
    method Tally(count: int, delay: int, size: int, last: nat)
      requires Linked() && NoneEmpty(parts) && lim.delay >= 0 && lim.size >= 0
      requires InOrder(Contents(), last) && Totals(Contents(), count, delay, size)
      modifies this`currEntryCount, this`currTotalDelay, this`currTotalByteSize, this`lastSeq
      ensures Valid() && lastSeq == last && Contents() == old(Contents())
    {
      currEntryCount := count;
      currTotalDelay := delay;
      currTotalByteSize := size;
      lastSeq := last;
    }

    /** The middle of PushEntry. */
    method Store(e: Entry)
      requires Linked() && NoneEmpty(parts)
      modifies Repr
      ensures Linked() && fresh(Repr - old(Repr)) && NoneEmpty(parts)
      ensures Contents() == old(Contents()) + [e]
      ensures unchanged(this`currEntryCount, this`currTotalDelay, this`currTotalByteSize, this`lastSeq)
    {
      hide Flat;
      ghost var was := parts;
      EnsureRoom();
      ghost var ps := parts;
      Write(e);
      FlatPush(was, ps, e);
    }

    /** Takes out the oldest entry; None when there is none. */
    method Pop() returns (r: Option<Entry>)
      requires Valid()
      modifies Repr
      ensures Valid() && Repr == old(Repr) && lastSeq == old(lastSeq)
      ensures r == if old(Contents()) == [] then None else Some(old(Contents())[0])
      ensures Contents() == if old(Contents()) == [] then [] else old(Contents())[1..]
    {
      FlatEmptyIff(parts);
      assert this in Repr && (headNode == null <==> parts == []);
      hide Totals, Flat, InOrder, Linked, NoneEmpty;
      if headNode == null {
        return None;
      }
      PoppedTotals(Contents(), lastSeq, currEntryCount, currTotalDelay, currTotalByteSize);
      var e := TakeHead();
      Tally(currEntryCount - 1, currTotalDelay - e.delay, currTotalByteSize - |e.payload|, lastSeq);
      r := Some(e);
    }

    /** The middle of Pop: the oldest entry leaves the first chunk. */
    method TakeHead() returns (e: Entry)
      requires Linked() && headNode != null && NoneEmpty(parts)
      modifies Repr
      ensures Linked() && Repr == old(Repr) && NoneEmpty(parts)
      ensures old(Contents()) != [] && e == old(Contents())[0] && Contents() == old(Contents())[1..]
      ensures unchanged(this`currEntryCount, this`currTotalDelay, this`currTotalByteSize, this`lastSeq)
    {
      hide Flat, DistinctData;
      ghost var ps := parts;
      FlatPop(ps);
      assert headNode == chunks[0] && headNode.Holds(ps[0]);
      e := headNode.data[headNode.headIdx];
      Advance();
    }

    /** Moves the head of the first chunk past one entry and drops the chunk when that empties it. */
    method Advance()
      requires Linked() && headNode != null && parts[0] != []
      modifies Repr
      ensures Linked() && Repr == old(Repr)
      ensures parts == if |old(parts)[0]| > 1 then [old(parts)[0][1..]] + old(parts)[1..] else old(parts)[1..]
      ensures unchanged(this`currEntryCount, this`currTotalDelay, this`currTotalByteSize, this`lastSeq)
    {
      ghost var ps := parts;
      assert headNode == chunks[0] && headNode.Holds(ps[0]);
      headNode.headIdx := headNode.headIdx + 1;
      parts := [ps[0][1..]] + ps[1..];
      assert headNode.Holds(parts[0]);
      if headNode.headIdx == headNode.tailIdx {
        DropHead();
      }
    }

    /** Unlinks the first chunk. */
    method DropHead()
      requires Linked() && headNode != null
      modifies Repr
      ensures Linked() && Repr == old(Repr) && parts == old(parts)[1..]
      ensures unchanged(this`currEntryCount, this`currTotalDelay, this`currTotalByteSize, this`lastSeq)
    {
      ghost var cs := chunks;
      assert headNode == cs[0] && headNode.next == NodeAt(cs, 1, null);
      if headNode.next == null {
        headNode := null;
        tailNode := null;
      } else {
        var toRemove := headNode;
        headNode := toRemove.next;
        headNode.prev := null;
        toRemove.next := null;
      }
      chunks, parts := cs[1..], parts[1..];
      assert forall i :: 0 <= i < |chunks| ==> chunks[i] == cs[i + 1];
    }

    /** Adds an entry, then pops until the limits are met again. */
    method Push(e: Entry)
      requires Valid()
      modifies Repr
      ensures Valid() && fresh(Repr - old(Repr))
      ensures lastSeq == if e.seqNo <= old(lastSeq) then old(lastSeq) else e.seqNo
      ensures Contents() == Trimmed(if e.seqNo <= old(lastSeq) then old(Contents()) else old(Contents()) + [e], lim)
    {
      hide Linked, Flat, TotalDelay, TotalSize, Sorted;
      PushEntry(e);
      if lim.count != 0 && currEntryCount > lim.count {
        var _ := Pop();
      }
      ghost var a := Contents();
      if lim.delay != 0 {
        while currTotalDelay > lim.delay
          invariant Valid() && fresh(Repr - old(Repr))
          invariant lastSeq == if e.seqNo <= old(lastSeq) then old(lastSeq) else e.seqNo
          invariant DropDelay(Contents(), lim.delay) == DropDelay(a, lim.delay)
          decreases |Contents()|
        {
          TotalsOfNone();
          var _ := Pop();
        }
      }
      ghost var b := Contents();
      if lim.size != 0 {
        while currTotalByteSize > lim.size
          invariant Valid() && fresh(Repr - old(Repr))
          invariant lastSeq == if e.seqNo <= old(lastSeq) then old(lastSeq) else e.seqNo
          invariant DropSize(Contents(), lim.size) == DropSize(b, lim.size)
          decreases |Contents()|
        {
          TotalsOfNone();
          var _ := Pop();
        }
      }
    }

    /** The entries whose number lies in r, found by skipping chunks and searching inside them. */
    method GetRange(r: Range) returns (entries: seq<Entry>)
      requires Valid() && r.Valid()
      ensures entries == InRange(Contents(), r)
    {
      hide Flat, InRange, TotalDelay, TotalSize;
      entries := [];
      FlatAtStart(parts, r);
      var curr := headNode;
      ghost var k := 0;
      while curr != null
        invariant k <= |chunks| && curr == NodeAt(chunks, k, null)
        invariant entries == InRange(Flat(parts[..k]), r)
        decreases |chunks| - k
      {
        assert curr.Holds(parts[k]) && parts[k] != [] && curr.next == NodeAt(chunks, k + 1, null);
        SortedAt(parts, k);
        FlatAt(parts, k);
        InRangeConcat(Flat(parts[..k]), parts[k], r);
        InRangeConcat(Flat(parts[..k]), parts[k] + Flat(parts[k + 1..]), r);
        if curr.data[curr.tailIdx - 1].seqNo < r.From() {
          assert curr.data[curr.tailIdx - 1] == parts[k][|parts[k]| - 1];
          InRangeNone(parts[k], r);
          curr, k := curr.next, k + 1;
          continue;
        }
        if curr.data[curr.headIdx].seqNo > r.To() {
          assert curr.data[curr.headIdx] == parts[k][0];
          InRangeNone(parts[k] + Flat(parts[k + 1..]), r);
          assert Flat(parts) == Flat(parts[..k]) + (parts[k] + Flat(parts[k + 1..]));
          return;
        }
        var some := ScanChunk(curr, r, parts[k]);
        entries := entries + some;
        curr, k := curr.next, k + 1;
      }
      assert parts[..k] == parts;
    }

    /** The body of the loop of IterateRange: the entries of one chunk whose number lies in r. */
    method ScanChunk(curr: HistoryNode, r: Range, ghost part: seq<Entry>) returns (entries: seq<Entry>)
      requires curr.Holds(part) && Sorted(part) && r.Valid()
      ensures entries == InRange(part, r)
    {
      var idxStart := BinarySearch(curr, r.start, part);
      entries := [];
      var idx := idxStart;
      ghost var from := idxStart - curr.headIdx;
      while idx < curr.tailIdx
        invariant idxStart <= idx <= curr.tailIdx
        invariant entries == part[from..idx - curr.headIdx]
        invariant forall i :: from <= i < idx - curr.headIdx ==> r.In(part[i].seqNo)
      {
        assert curr.data[idx] == part[idx - curr.headIdx] && part[from].seqNo <= part[idx - curr.headIdx].seqNo;
        var s := curr.data[idx].seqNo;
        if s < r.From() || s > r.To() {
          break;
        }
        entries := entries + [curr.data[idx]];
        idx := idx + 1;
      }
      RangeInside(part, from, idx - curr.headIdx, r);
    }

    /** The first index of the chunk whose number is not below s. */
    method BinarySearch(curr: HistoryNode, s: nat, ghost part: seq<Entry>) returns (idx: nat)
      requires curr.Holds(part) && Sorted(part)
      ensures curr.headIdx <= idx <= curr.tailIdx
      ensures forall i :: 0 <= i < idx - curr.headIdx ==> part[i].seqNo < s
      ensures forall i :: idx - curr.headIdx <= i < |part| ==> s <= part[i].seqNo
    {
      var i, j := 0, curr.tailIdx - curr.headIdx;
      while i < j
        invariant 0 <= i <= j <= |part|
        invariant forall m :: 0 <= m < i ==> part[m].seqNo < s
        invariant forall m :: j <= m < |part| ==> s <= part[m].seqNo
      {
        var h := (i + j) / 2;
        assert curr.data[curr.headIdx + h] == part[h];
        if curr.data[curr.headIdx + h].seqNo < s {
          i := h + 1;
        } else {
          j := h;
        }
      }
      idx := curr.headIdx + i;
    }

    /** The last entries, taken backwards one by one for as long as they stay within the limits. */
    method RecentX(limitEntries: nat, limitDur: int, limitSize: int) returns (entries: seq<Entry>)
      requires Valid()
      ensures IsGreedyFit(entries, Contents(), Limits(limitEntries, limitDur, limitSize))
    {
      hide Flat, TotalDelay, TotalSize;
      ghost var es := Contents();
      TotalsOfNone();
      assert Last(es, 0) == [] && |es| - |es| == 0;
      var left := if limitEntries == 0 || limitEntries > currEntryCount then currEntryCount else limitEntries;
      ghost var most := left;
      entries := [];
      if left == 0 {
        return;
      }
      var lim := Limits(limitEntries, limitDur, limitSize);
      var dur, size, stop := 0, 0, false;
      var curr := tailNode;
      ghost var k := |chunks| - 1;
      assert parts[..k + 1] == parts && parts[..0] == [];
      while curr != null && !stop
        invariant -1 <= k < |chunks| && (!stop ==> curr == NodeAt(chunks, k, null))
        invariant !stop ==> |entries| < most && left == most - |entries|
        invariant !stop ==> |es| - |entries| == |Flat(parts[..k + 1])|
        invariant Taken(entries, es, lim, dur, size) && (stop ==> Stops(entries, es, lim))
        decreases k, !stop
      {
        hide Taken, Stops, IsGreedyFit, Fits, Sorted;
        assert curr.Holds(parts[k]) && curr.prev == NodeAt(chunks, k - 1, null);
        FlatAt(parts, k);
        entries, dur, size, left, stop :=
          TakeChunk(curr, lim, entries, dur, size, left, parts[k], es, |Flat(parts[..k])|, most);
        curr, k := curr.prev, k - 1;
      }
      FlatEmpty<Entry>();
      TakenIsGreedy(entries, es, lim, dur, size);
      entries := Reversed(entries);
    }

    /** The inner loop of RecentX: one chunk backwards; stop says that a limit was reached. */
    method TakeChunk(curr: HistoryNode, lim: Limits, taken: seq<Entry>, dur0: int, size0: int, left0: int,
                     ghost part: seq<Entry>, ghost es: seq<Entry>, ghost below: nat, ghost most: nat)
      returns (entries: seq<Entry>, dur: int, size: int, left: int, stop: bool)
      requires curr.Holds(part) && Taken(taken, es, lim, dur0, size0)
      requires |es| - |taken| == below + |part| && es[below..below + |part|] == part
      requires |taken| < most && left0 == most - |taken|
      requires most == if lim.count == 0 || lim.count > |es| then |es| else lim.count
      ensures Taken(entries, es, lim, dur, size)
      ensures if stop then Stops(entries, es, lim)
              else |es| - |entries| == below && |entries| < most && left == most - |entries|
    {
      hide Taken, Stops, Fits;
      entries, dur, size, left := taken, dur0, size0, left0;
      var idx := curr.tailIdx - 1;
      while idx >= curr.headIdx
        invariant curr.headIdx - 1 <= idx < curr.tailIdx
        invariant |entries| < most && left == most - |entries|
        invariant |es| - |entries| == below + idx - curr.headIdx + 1
        invariant Taken(entries, es, lim, dur, size)
      {
        var entry := curr.data[idx];
        assert entry == part[idx - curr.headIdx] == es[|es| - 1 - |entries|];
        TakeOne(entries, es, lim, dur, size);
        if lim.delay != 0 && dur + entry.delay > lim.delay {
          return entries, dur, size, left, true;
        }
        if lim.size != 0 && size + |entry.payload| > lim.size {
          return entries, dur, size, left, true;
        }
        entries := entries + [entry];
        dur := dur + entry.delay;
        size := size + |entry.payload|;
        left := left - 1;
        if left == 0 {
          CountReached(entries, es, lim);
          return entries, dur, size, left, true;
        }
        idx := idx - 1;
      }
      stop := false;
    }
  }

  lemma FlatPush(was: seq<seq<Entry>>, ps: seq<seq<Entry>>, e: Entry)
    requires |ps| > 0 && (ps == was || ps == was + [[]])
    ensures Flat(ps[..|ps| - 1] + [ps[|ps| - 1] + [e]]) == Flat(was) + [e]
  {
    FlatConcat(ps[..|ps| - 1], [ps[|ps| - 1] + [e]]);
    FlatOne(ps[|ps| - 1] + [e]);
    assert ps[..|ps| - 1] + [ps[|ps| - 1]] == ps;
    FlatConcat(was, [[]]);
    FlatOne<Entry>([]);
  }

  lemma SortedPush(es: seq<Entry>, e: Entry)
    requires Sorted(es) && (es != [] ==> es[|es| - 1].seqNo < e.seqNo)
    ensures Sorted(es + [e])
  {
  }

  lemma FlatPop(ps: seq<seq<Entry>>)
    requires |ps| > 0 && ps[0] != []
    ensures Flat(ps) != [] && Flat(ps)[0] == ps[0][0]
    ensures Flat(if |ps[0]| > 1 then [ps[0][1..]] + ps[1..] else ps[1..]) == Flat(ps)[1..]
  {
    hide Flat;
    FlatFront(ps[0], ps[1..]);
    FlatFront(ps[0][1..], ps[1..]);
    assert ps == [ps[0]] + ps[1..];
  }

  lemma FlatEmptyIff(ps: seq<seq<Entry>>)
    requires forall i :: 0 <= i < |ps| ==> ps[i] != []
    ensures Flat(ps) == [] <==> ps == []
  {
    if ps != [] { FlatPop(ps); }
  }

  lemma TotalsOfNone()
    ensures TotalDelay([]) == 0 && TotalSize([]) == 0
  {
  }

  lemma FlatAtStart(parts: seq<seq<Entry>>, r: Range)
    ensures InRange(Flat(parts[..0]), r) == []
  {
  }

  function Reversed(es: seq<Entry>): seq<Entry> {
    seq(|es|, i requires 0 <= i < |es| => es[|es| - 1 - i])
  }

  /** taken is the end of es backwards, every shorter end fits, and dur and size are its totals. */
  ghost predicate Taken(taken: seq<Entry>, es: seq<Entry>, lim: Limits, dur: int, size: int) {
    && |taken| <= |es|
    && (forall i :: 0 <= i < |taken| ==> taken[i] == es[|es| - 1 - i])
    && dur == TotalDelay(Last(es, |taken|)) && size == TotalSize(Last(es, |taken|))
    && (forall n :: 1 <= n <= |taken| ==> Fits(Last(es, n), lim))
  }

  /** The next entry breaks a limit, or there is none. */
  ghost predicate Stops(taken: seq<Entry>, es: seq<Entry>, lim: Limits) {
    |taken| < |es| ==> !Fits(Last(es, |taken| + 1), lim)
  }

  lemma TakeOne(taken: seq<Entry>, es: seq<Entry>, lim: Limits, dur: int, size: int)
    requires Taken(taken, es, lim, dur, size) && |taken| < |es| && (lim.count == 0 || |taken| < lim.count)
    ensures var e := es[|es| - 1 - |taken|];
      if (lim.delay != 0 && dur + e.delay > lim.delay) || (lim.size != 0 && size + |e.payload| > lim.size)
      then Stops(taken, es, lim)
      else Taken(taken + [e], es, lim, dur + e.delay, size + |e.payload|)
  {
    hide TotalDelay, TotalSize;
    LastStep(es, |taken|);
  }

  lemma CountReached(taken: seq<Entry>, es: seq<Entry>, lim: Limits)
    requires |taken| == |es| || (lim.count != 0 && |taken| == lim.count)
    ensures Stops(taken, es, lim)
  {
  }

  lemma TakenIsGreedy(taken: seq<Entry>, es: seq<Entry>, lim: Limits, dur: int, size: int)
    requires Taken(taken, es, lim, dur, size) && Stops(taken, es, lim)
    ensures IsGreedyFit(Reversed(taken), es, lim)
  {
    hide Fits, TotalDelay, TotalSize;
    assert Reversed(taken) == Last(es, |taken|);
  }
}
