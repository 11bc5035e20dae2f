/**
 * The reassembly buffer as the program keeps it (sequence/stream.go): a sorted linked queue of the entries
 * that are ahead of the next one. Ghost fields hold the nodes and their entries in order. Every method is
 * proved against the functions of Streams, so that what is proved about those functions holds for the queue.
 */
module StreamQueues {
  import opened Streams
  import opened Seqs
  import opened Ranges
  import RangeSets
  import opened StreamGaps

  class AheadNode {
    var entry: Entry
    var next: AheadNode?

    constructor (e: Entry, next: AheadNode?)
      ensures entry == e && this.next == next
    {
      entry, this.next := e, next;
    }
  }

  lemma SliceStep(a: seq<Entry>, k: nat)
    requires k < |a|
    ensures a[k..] == [a[k]] + a[k + 1..] && a[..k + 1] == a[..k] + [a[k]]
  {
  }

  lemma InsertPast(x: Entry, rest: seq<Entry>, e: Entry)
    requires x.seqNo < e.seqNo
    ensures InsertAhead([x] + rest, e) == [x] + InsertAhead(rest, e)
  {
    assert ([x] + rest)[1..] == rest;
  }

  lemma Regroup(a: seq<Entry>, b: seq<Entry>, c: seq<Entry>)
    ensures a + (b + c) == a + b + c
  {
  }

  /** The search of PushAhead moves past entry k. */
  lemma InsertStep(a: seq<Entry>, k: nat, e: Entry)
    requires k < |a| && a[k].seqNo < e.seqNo
    requires InsertAhead(a, e) == a[..k] + InsertAhead(a[k..], e)
    ensures InsertAhead(a, e) == a[..k + 1] + InsertAhead(a[k + 1..], e)
  {
    hide InsertAhead;
    SliceStep(a, k);
    InsertPast(a[k], a[k + 1..], e);
    Regroup(a[..k], [a[k]], InsertAhead(a[k + 1..], e));
  }

  class Stream {
    var lastSeq: nat
    var lastTime: Option<int>
    var ahead: AheadNode?
    var aheadSize: int
    var maxWaitTime: int

    ghost var nodes: seq<AheadNode>  // the nodes reached from `ahead`, in order
    ghost var entries: seq<Entry>  // their entries
    ghost var Repr: set<object>

    ghost predicate Valid()
      reads this, Repr
    {
      && this in Repr
      && (forall n :: n in nodes ==> n in Repr)
      && |nodes| == |entries| == aheadSize
      && ahead == NodeAt(nodes, 0, null)
      && (forall i {:trigger nodes[i].next} :: 0 <= i < |nodes| ==> nodes[i].next == NodeAt(nodes, i + 1, null))
      && (forall i {:trigger nodes[i].entry} :: 0 <= i < |nodes| ==> nodes[i].entry == entries[i])
      && Distinct(nodes)
    }

    ghost function State(): StreamState
      reads this
    {
      StreamState(lastSeq, lastTime, entries, maxWaitTime)
    }

    constructor (initialSeq: nat, maxWait: int)
      requires 1 <= initialSeq
      ensures Valid() && State() == NewStream(initialSeq, maxWait) && fresh(Repr)
    {
      lastSeq, lastTime, maxWaitTime := initialSeq - 1, None, maxWait;
      ahead, aheadSize := null, 0;
      nodes, entries, Repr := [], [], {this};
    }

    /** Puts an entry that cannot be delivered yet in its place in the queue. */
    method PushAhead(e: Entry)
      requires Valid()
      modifies Repr
      ensures Valid() && fresh(Repr - old(Repr))
      ensures State() == old(State()).(ahead := InsertAhead(old(entries), e))
    {
      ghost var a := entries;
      var insertAfter: AheadNode? := null;
      var curr := ahead;
      ghost var k := 0;
      while curr != null
        invariant k <= |nodes| == |a| && curr == NodeAt(nodes, k, null) && insertAfter == NodeAt(nodes, k - 1, null)
        invariant Valid() && State() == old(State()) && nodes == old(nodes) && Repr == old(Repr)
        invariant entries == a && InsertAhead(a, e) == a[..k] + InsertAhead(a[k..], e)
        decreases |nodes| - k
      {
        assert curr.entry == entries[k] && curr.next == NodeAt(nodes, k + 1, null);
        if e.seqNo == curr.entry.seqNo {
          return;
        }
        if curr.entry.seqNo > e.seqNo {
          break;
        }
        InsertStep(entries, k, e);
        insertAfter, curr, k := curr, curr.next, k + 1;
      }
      assert InsertAhead(a[k..], e) == [e] + a[k..];
      assert InsertAhead(a, e) == a[..k] + [e] + a[k..];
      hide InsertAhead, Distinct;
      Link(e, insertAfter, k);
    }

    /** The end of PushAhead: a new node after insertAfter, or in front of the queue. */
    method Link(e: Entry, insertAfter: AheadNode?, ghost k: nat)
      requires Valid() && k <= |nodes| && insertAfter == NodeAt(nodes, k - 1, null)
      modifies Repr
      ensures Valid() && fresh(Repr - old(Repr))
      ensures State() == old(State()).(ahead := old(entries)[..k] + [e] + old(entries)[k..])
    {
      ghost var ns := nodes;
      assert insertAfter != null ==> insertAfter.next == NodeAt(ns, k, null);
      var n := new AheadNode(e, if insertAfter == null then ahead else insertAfter.next);
      aheadSize := aheadSize + 1;
      if insertAfter == null {
        ahead := n;
      } else {
        insertAfter.next := n;
      }
      nodes := ns[..k] + [n] + ns[k..];
      entries := entries[..k] + [e] + entries[k..];
      Repr := Repr + {n};
      DistinctInsert(ns, k, n);
      assert forall i :: 0 <= i < |nodes| ==>
        nodes[i] == if i < k then ns[i] else if i == k then n else ns[i - 1];
    }

    /** Pushes the arrived entries and returns those that can now be delivered. */
    method Push(now: int, feed: seq<Entry>) returns (r: seq<Entry>)
      requires Valid()
      modifies Repr
      ensures Valid() && fresh(Repr - old(Repr))
      ensures (State(), r) == Streams.Push(old(State()), now, feed)
    {
      if lastTime == None {
        lastTime := Some(now);
      }
      ghost var s := old(State());
      ghost var f0 := FeedStart(s, now);
      var delay := now - lastTime.value;
      var expired := maxWaitTime != 0 && delay > maxWaitTime;
      var seqPrev := 0;
      r := [];
      for i := 0 to |feed|
        invariant Valid() && fresh(Repr - old(Repr))
        invariant maxWaitTime == s.maxWait && lastTime == Some(StartTime(s, now))
        invariant FeedState(lastSeq, delay, expired, seqPrev, entries, r) == Feed(f0, feed[..i])
      {
        assert feed[..i + 1][..i] == feed[..i];
        var e := feed[i];
        if e.seqNo < seqPrev {
          continue;
        }
        seqPrev := e.seqNo;
        if e.seqNo <= lastSeq {
          continue;
        }
        if e.seqNo == lastSeq + 1 || expired {
          r := r + [Entry(e.seqNo, delay, e.payload)];
          delay := 0;
          expired := false;
          lastSeq := e.seqNo;
          continue;
        }
        PushAhead(e);
      }
      assert feed[..|feed|] == feed;
      if |r| > 0 {
        lastTime := Some(now);
      }
      var drained := DrainAhead();
      r := r + drained;
    }

    /** The last loop of Push. */
    method DrainAhead() returns (r: seq<Entry>)
      requires Valid()
      modifies Repr
      ensures Valid() && Repr == old(Repr)
      ensures var d := Drain(old(lastSeq), old(entries));
        State() == old(State()).(lastSeq := d.lastSeq, ahead := d.ahead) && r == d.out
    {
      ghost var d := Drain(lastSeq, entries);
      r := [];
      var curr := ahead;
      while curr != null
        invariant Valid() && Repr == old(Repr) && curr == ahead
        invariant lastTime == old(lastTime) && maxWaitTime == old(maxWaitTime)
        invariant var rest := Drain(lastSeq, entries);
          rest.lastSeq == d.lastSeq && rest.ahead == d.ahead && r + rest.out == d.out
        decreases |nodes|
      {
        assert curr == nodes[0] && curr.entry == entries[0] && curr.next == NodeAt(nodes, 1, null);
        if curr.entry.seqNo == lastSeq + 1 {
          r := r + [Entry(curr.entry.seqNo, 0, curr.entry.payload)];
          lastSeq := curr.entry.seqNo;
        } else if curr.entry.seqNo > lastSeq + 1 {
          break;
        }
        ahead := curr.next;
        aheadSize := aheadSize - 1;
        curr.next := null;
        curr := ahead;
        nodes, entries := nodes[1..], entries[1..];
      }
    }

    /** The missing ranges, at most `limit` of them when limit is positive. */
    method GetMissing(limit: int) returns (r: seq<Range>)
      requires Valid() && WellFormed(State())
      ensures var gaps := Gaps(lastSeq, entries);
        r == if 0 < limit < |gaps| then gaps[..limit] else gaps
    {
      hide Gaps, Distinct;
      r := [];
      ghost var gaps := Gaps(lastSeq, entries);
      GapsFew(lastSeq, entries);
      if ahead == null {
        return;
      }
      var left := if limit <= 0 || limit > aheadSize then aheadSize else limit;
      ghost var most := left;
      var s, curr := lastSeq, ahead;
      ghost var k := 0;
      assert entries[0..] == entries;
      while left > 0 && curr != null
        invariant k <= |nodes| && curr == NodeAt(nodes, k, null)
        invariant s == if k == 0 then lastSeq else entries[k - 1].seqNo
        invariant Valid() && r + Gaps(s, entries[k..]) == gaps && |r| + left == most && left >= 0
        decreases |nodes| - k
      {
        assert curr.entry == entries[k] && curr.next == NodeAt(nodes, k + 1, null);
        GapsStep(r, s, entries, k, gaps);
        var lenSeq := curr.entry.seqNo - s - 1;
        if lenSeq > 0 {
          r := r + [Range(s + 1, lenSeq)];
          left := left - 1;
        }
        s, curr, k := curr.entry.seqNo, curr.next, k + 1;
      }
      if left > 0 {
        GapsNone(s, entries[k..]);
      }
      assert r == gaps[..|r|];
    }

    /** The missing ranges as a range set, built by appending one node per gap. */
    method GetMissingRangeSet() returns (r: RangeSets.RangeSet)
      requires Valid() && WellFormed(State())
      ensures r.Valid() && fresh(r.Repr) && r.ranges == Gaps(lastSeq, entries)
    {
      hide Gaps;
      r := new RangeSets.RangeSet();
      ghost var gaps := Gaps(lastSeq, entries);
      var s, curr := lastSeq, ahead;
      var prevRNode: RangeSets.RangeNode? := null;
      ghost var k := 0;
      assert entries[0..] == entries;
      while curr != null
        invariant k <= |nodes| && curr == NodeAt(nodes, k, null) && Valid()
        invariant s == if k == 0 then lastSeq else entries[k - 1].seqNo
        invariant r.Linked() && fresh(r.Repr) && prevRNode == NodeAt(r.nodes, |r.nodes| - 1, null)
        invariant r.ranges + Gaps(s, entries[k..]) == gaps
        decreases |nodes| - k
      {
        assert curr.entry == entries[k] && curr.next == NodeAt(nodes, k + 1, null);
        GapsStep(r.ranges, s, entries, k, gaps);
        var lenSeq := curr.entry.seqNo - s - 1;
        if lenSeq > 0 {
          r.Append(prevRNode, Range(s + 1, lenSeq));
          prevRNode := if prevRNode == null then r.first else prevRNode.next;
        }
        s, curr, k := curr.entry.seqNo, curr.next, k + 1;
      }
      GapsNone(s, entries[k..]);
      assert r.ranges == gaps;
      GapsDenote(lastSeq, entries);
    }
  }
}
