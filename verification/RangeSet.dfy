/**
 * The linked list of ranges behind every `missing` set (sequence/range.go). Nodes are linked, unlinked and
 * reshaped in place; ghost fields hold the nodes and their ranges in order, and every operation is specified
 * by the set of numbers that the list stands for, with the list kept in canonical form.
 */
module RangeSets {
  import opened Ranges
  import opened Seqs

  class RangeNode {
    var range: Range
    var next: RangeNode?

    constructor (r: Range, next: RangeNode?)
      ensures range == r && this.next == next
    {
      range, this.next := r, next;
    }
  }

  lemma SpliceDrop(rs: seq<Range>, k: nat, j: nat, r: Range)
    requires k < j < |rs|
    ensures var now := rs[..k] + [r] + rs[j..];
      && |now| == k + 1 + |rs| - j && now[k] == r && now[k + 1] == rs[j]
      && now[..k] == rs[..k] && now[k + 2..] == rs[j + 1..]
  {
  }

  lemma SpliceUpdate(rs: seq<Range>, k: nat, j: nat, r: Range, r': Range)
    requires k < j <= |rs|
    ensures (rs[..k] + [r] + rs[j..])[k := r'] == rs[..k] + [r'] + rs[j..]
  {
  }

  lemma CanonicalAt(rs: seq<Range>, j: nat)
    requires Canonical(rs) && j < |rs|
    ensures rs[j].Valid() && (0 < j ==> rs[j - 1].To() + 1 < rs[j].From())
  {
  }

  /** The search for q does not pass a range equal to q. */
  lemma Reached(rs: seq<Range>, q: Range, k: nat)
    requires Canonical(rs) && q.Valid() && k <= |rs| && forall i :: 0 <= i < k ==> rs[i].To() + 1 < q.From()
    ensures q in rs ==> k < |rs| && rs[k].From() - 1 <= q.To() && (q.From() <= rs[k].To() + 1 ==> rs[k] == q)
  {
  }

  class RangeSet {
    var first: RangeNode?

    ghost var nodes: seq<RangeNode>  // the nodes reached from `first`, in order
    ghost var ranges: seq<Range>  // their ranges
    ghost var Repr: set<object>

    /** The list is laid out as the ghost fields say; nothing about the order of the ranges. */
    ghost predicate Linked()
      reads this, Repr
    {
      && this in Repr
      && (forall n :: n in nodes ==> n in Repr)
      && |nodes| == |ranges|
      && first == NodeAt(nodes, 0, null)
      && (forall i {:trigger nodes[i].next} :: 0 <= i < |nodes| ==> nodes[i].next == NodeAt(nodes, i + 1, null))
      && (forall i {:trigger nodes[i].range} :: 0 <= i < |nodes| ==> nodes[i].range == ranges[i])
      && Distinct(nodes)
    }

    ghost predicate Valid()
      reads this, Repr
    {
      Linked() && Canonical(ranges)
    }

    /** The sequence numbers in the set. */
    ghost function Model(): set<int>
      reads this
    {
      Denote(ranges)
    }

    ghost predicate Apart(other: RangeSet)
      reads this, other
    {
      Repr !! other.Repr
    }

    constructor ()
      ensures Valid() && ranges == [] && fresh(Repr)
    {
      first, nodes, ranges, Repr := null, [], [], {this};
    }

    // ---- links, one node at a time ----

    /** Puts a new node for q between prev and curr. */
    method Insert(prev: RangeNode?, q: Range, curr: RangeNode?, ghost k: nat)
      requires Linked() && k <= |nodes| && prev == NodeAt(nodes, k - 1, null) && curr == NodeAt(nodes, k, null)
      modifies Repr
      ensures Linked() && ranges == old(ranges)[..k] + [q] + old(ranges)[k..]
      ensures |nodes| == |old(nodes)| + 1 && fresh(Repr - old(Repr))
      ensures nodes == old(nodes)[..k] + [nodes[k]] + old(nodes)[k..]
    {
      ghost var ns := nodes;
      var n := new RangeNode(q, curr);
      if prev != null {
        prev.next := n;
      } else {
        first := n;
      }
      nodes := ns[..k] + [n] + ns[k..];
      ranges := ranges[..k] + [q] + ranges[k..];
      Repr := Repr + {n};
      DistinctInsert(ns, k, n);
      assert forall i :: 0 <= i < |nodes| ==>
        nodes[i] == if i < k then ns[i] else if i == k then n else ns[i - 1];
    }

    /** Puts a new node for q behind last, the end of the list. */
    method Append(last: RangeNode?, q: Range)
      requires Linked() && last == NodeAt(nodes, |nodes| - 1, null)
      modifies Repr
      ensures Linked() && fresh(Repr - old(Repr)) && ranges == old(ranges) + [q]
      ensures |nodes| == |old(nodes)| + 1 && nodes[|nodes| - 1] == if last == null then first else last.next
    {
      ghost var k := |nodes|;
      Insert(last, q, null, k);
      assert last != null ==> last == nodes[k - 1] && last.next == NodeAt(nodes, k, null);
    }

    /** Takes the node curr, the successor of prev, out of the list. */
    method Unlink(prev: RangeNode?, curr: RangeNode, ghost k: nat)
      requires Linked() && k < |nodes| && prev == NodeAt(nodes, k - 1, null) && curr == nodes[k]
      modifies Repr
      ensures Linked() && ranges == old(ranges)[..k] + old(ranges)[k + 1..]
      ensures nodes == old(nodes)[..k] + old(nodes)[k + 1..] && Repr == old(Repr)
    {
      ghost var ns := nodes;
      if prev != null {
        prev.next := curr.next;
      } else {
        first := curr.next;
      }
      curr.next := null;
      nodes := ns[..k] + ns[k + 1..];
      ranges := ranges[..k] + ranges[k + 1..];
      assert forall i :: 0 <= i < |nodes| ==> nodes[i] == ns[if i < k then i else i + 1];
    }

    /** Changes the range held by the node curr. */
    method Reshape(curr: RangeNode, r: Range, ghost k: nat)
      requires Linked() && k < |nodes| && curr == nodes[k]
      modifies this`ranges, curr
      ensures Linked() && ranges == old(ranges)[k := r] && curr.range == r
    {
      curr.range := r;
      ranges := ranges[k := r];
    }

    // ---- adding a range ----

    /** Adds q to the set and, when a result set is given, adds to it exactly what was new. */
    method UnionInto(q: Range, result: RangeSet?)
      requires Valid() && q.Valid()
      requires result != null ==> result.Valid() && Apart(result)
      modifies Repr, if result == null then {} else result.Repr
      ensures Valid() && Model() == old(Model()) + q.Seqs()
      ensures fresh(Repr - old(Repr)) && (q in old(ranges) ==> nodes == old(nodes))
      ensures result != null ==> result.Valid() && Apart(result)
      ensures result != null ==> result.Model() == old(result.Model()) + (q.Seqs() - old(Model()))
      ensures result != null ==> fresh(result.Repr - old(result.Repr))
      decreases if result == null then 0 else 1, 2
    {
      hide Denote, Canonical;
      ghost var rs := ranges;
      var prev, curr: RangeNode? := null, first;
      ghost var k := 0;
      while curr != null
        invariant k <= |nodes| && curr == NodeAt(nodes, k, null) && prev == NodeAt(nodes, k - 1, null)
        invariant Valid() && ranges == rs && nodes == old(nodes)
        invariant result != null ==> Apart(result) && result.Valid() && result.ranges == old(result.ranges)
        invariant Repr == old(Repr) && (result != null ==> result.Repr == old(result.Repr))
        invariant forall i :: 0 <= i < k ==> rs[i].To() + 1 < q.From()
        decreases |nodes| - k
      {
        assert curr.range == ranges[k];
        Reached(rs, q, k);
        if q.To() < curr.range.From() - 1 {
          UnionClear(rs, q, k);
          Collect(result, q);
          Insert(prev, q, curr, k);
          return;
        }
        if q.From() > curr.range.To() + 1 {
          assert curr.next == NodeAt(nodes, k + 1, null);
          prev, curr, k := curr, curr.next, k + 1;
          continue;
        }
        Merge(q, curr, result, k);
        return;
      }
      Reached(rs, q, k);
      UnionClear(rs, q, k);
      Insert(prev, q, null, k);
      Collect(result, q);
    }

    /** A call of UnionInto that keeps no difference, skipped on a nil receiver. */
    static method Collect(result: RangeSet?, q: Range)
      requires q.Valid() && (result != null ==> result.Valid())
      modifies if result == null then {} else result.Repr
      ensures result != null ==> result.Valid() && result.Model() == old(result.Model()) + q.Seqs()
      ensures result != null ==> fresh(result.Repr - old(result.Repr))
      decreases if result == null then 0 else 1, 0, 0
    {
      if result != null {
        result.UnionInto(q, null);
      }
    }

    /** The middle of UnionInto: q overlaps or touches curr, the first node it reaches. */
    method Merge(q: Range, curr: RangeNode, result: RangeSet?, ghost k: nat)
      requires Valid() && q.Valid() && k < |nodes| && curr == nodes[k]
      requires forall i :: 0 <= i < k ==> ranges[i].To() + 1 < q.From()
      requires q.From() <= ranges[k].To() + 1 && ranges[k].From() - 1 <= q.To()
      requires result != null ==> result.Valid() && Apart(result)
      modifies Repr, if result == null then {} else result.Repr
      ensures Valid() && Model() == old(Model()) + q.Seqs()
      ensures Repr == old(Repr) && (old(ranges)[k] == q ==> nodes == old(nodes))
      ensures result != null ==> result.Valid() && Apart(result)
      ensures result != null ==> result.Model() == old(result.Model()) + (q.Seqs() - old(Model()))
      ensures result != null ==> fresh(result.Repr - old(result.Repr))
      decreases if result == null then 0 else 1, 1, 3
    {
      CanonicalAt(ranges, k);
      hide Denote, Lacking, Canonical;
      ghost var rs := ranges;
      ghost var had := if result == null then {} else result.Model();
      LackingLow(rs, q, k);
      MergeBelow(q, curr, result, k);
      ghost var j := MergeUp(q, curr, result, k, rs, had);
      UnionMerge(rs, q, k, j, curr.range);
    }

    /** Extends curr upwards when q reaches beyond it. */
    method MergeUp(q: Range, curr: RangeNode, result: RangeSet?,
                   ghost k: nat, ghost rs: seq<Range>, ghost had: set<int>)
      returns (ghost j: nat)
      requires Linked() && k < |nodes| && curr == nodes[k] && k < |rs| && curr.range.Valid()
      requires Canonical(rs) && ranges == rs[..k] + [curr.range] + rs[k + 1..]
      requires q.Valid() && q.From() <= rs[k].To() + 1 && rs[k].From() - 1 <= q.To() && curr.range.To() == rs[k].To()
      requires result != null ==> result.Valid() && Apart(result)
      requires result != null ==> result.Model() == had + Lacking(rs, q, rs[k].To())
      modifies Repr, if result == null then {} else result.Repr
      ensures Linked() && Repr == old(Repr) && k < j <= |rs|
      ensures ranges == rs[..k] + [curr.range] + rs[j..]
      ensures rs[j - 1].From() - 1 <= q.To() && (j < |rs| ==> q.To() < rs[j].From() - 1)
      ensures curr.range.From() == old(curr.range).From()
      ensures curr.range.To() == if rs[j - 1].To() < q.To() then q.To() else rs[j - 1].To()
      ensures q.To() <= rs[k].To() ==> nodes == old(nodes)
      ensures result != null ==> result.Valid() && Apart(result) && fresh(result.Repr - old(result.Repr))
      ensures result != null ==> result.Model() == had + (q.Seqs() - Denote(rs))
      decreases if result == null then 0 else 1, 1, 2
    {
      j := k + 1;
      if j < |rs| { CanonicalAt(rs, j); }
      hide Denote, Lacking, Canonical;
      var overlapUpper := q.To() - curr.range.To();
      if overlapUpper > 0 {
        j := MergeAbove(q, curr, overlapUpper, result, k, rs, had);
      } else {
        LackingHigh(rs, q, j);
      }
    }

    /** Extends curr downwards to where q begins. */
    method MergeBelow(q: Range, curr: RangeNode, result: RangeSet?, ghost k: nat)
      requires Linked() && k < |nodes| && curr == nodes[k] && q.Valid()
      requires result != null ==> result.Valid() && Apart(result)
      modifies Repr, if result == null then {} else result.Repr
      ensures Linked() && Repr == old(Repr) && nodes == old(nodes)
      ensures ranges == old(ranges)[..k] + [curr.range] + old(ranges)[k + 1..]
      ensures curr.range.To() == old(ranges)[k].To()
      ensures curr.range.From() == if q.From() < old(ranges)[k].From() then q.From() else old(ranges)[k].From()
      ensures result != null ==> result.Valid() && Apart(result) && fresh(result.Repr - old(result.Repr))
      ensures result != null ==>
                result.Model() ==
                old(result.Model()) + if q.From() < old(ranges)[k].From()
                then Range(q.start, old(ranges)[k].From() - q.From()).Seqs() else {}
      decreases if result == null then 0 else 1, 0, 1
    {
      hide Denote, Canonical;
      assert curr.range == ranges[k];
      var overlapLower := curr.range.From() - q.From();
      if overlapLower > 0 {
        Collect(result, Range(q.start, overlapLower));
        Reshape(curr, Range(curr.range.start - overlapLower, curr.range.length + overlapLower), k);
      }
    }

    /** Extends curr upwards to where q ends, through every next node that q reaches. */
    method MergeAbove(q: Range, curr: RangeNode, overlap: int, result: RangeSet?,
                      ghost k: nat, ghost rs: seq<Range>, ghost had: set<int>) returns (ghost j: nat)
      requires Linked() && k < |nodes| && curr == nodes[k] && k < |rs| && curr.range.Valid()
      requires Canonical(rs) && ranges == rs[..k] + [curr.range] + rs[k + 1..]
      requires q.Valid() && q.From() <= rs[k].To() + 1 && overlap == q.To() - curr.range.To() > 0
      requires curr.range.To() == rs[k].To()
      requires result != null ==> result.Valid() && Apart(result)
      requires result != null ==> result.Model() == had + Lacking(rs, q, rs[k].To())
      modifies Repr, if result == null then {} else result.Repr
      ensures Linked() && Repr == old(Repr) && k < j <= |rs|
      ensures ranges == rs[..k] + [curr.range] + rs[j..]
      ensures rs[j - 1].From() - 1 <= q.To() && (j < |rs| ==> q.To() < rs[j].From() - 1)
      ensures curr.range.From() == old(curr.range).From()
      ensures curr.range.To() == if rs[j - 1].To() < q.To() then q.To() else rs[j - 1].To()
      ensures result != null ==> result.Valid() && Apart(result) && fresh(result.Repr - old(result.Repr))
      ensures result != null ==> result.Model() == had + (q.Seqs() - Denote(rs))
      decreases if result == null then 0 else 1, 1, 1
    {
      hide Denote, Lacking, Canonical;
      var overlapUpper;
      overlapUpper, j := SwallowNext(q, curr, overlap, result, k, rs, had);
      LackingHigh(rs, q, j);
      SpliceUpdate(rs, k, j, curr.range, Range(curr.range.start, curr.range.length + overlapUpper));
      if overlapUpper > 0 {
        ExtendUp(curr, overlapUpper, result, k);
      }
    }

    /** The loop of MergeAbove. */
    method SwallowNext(q: Range, curr: RangeNode, overlap: int, result: RangeSet?,
                       ghost k: nat, ghost rs: seq<Range>, ghost had: set<int>)
      returns (overlapUpper: int, ghost j: nat)
      requires Linked() && k < |nodes| && curr == nodes[k] && k < |rs| && curr.range.Valid()
      requires Canonical(rs) && ranges == rs[..k] + [curr.range] + rs[k + 1..]
      requires q.Valid() && q.From() <= rs[k].To() + 1 && overlap == q.To() - curr.range.To() > 0
      requires curr.range.To() == rs[k].To()
      requires result != null ==> result.Valid() && Apart(result)
      requires result != null ==> result.Model() == had + Lacking(rs, q, rs[k].To())
      modifies Repr, if result == null then {} else result.Repr
      ensures Linked() && Repr == old(Repr) && k < j <= |rs| && k < |nodes| && nodes[k] == curr
      ensures ranges == rs[..k] + [curr.range] + rs[j..] && curr.range.Valid()
      ensures q.From() <= rs[j - 1].To() + 1
      ensures rs[j - 1].From() - 1 <= q.To() && (j < |rs| ==> q.To() < rs[j].From() - 1)
      ensures curr.range.From() == old(curr.range).From() && curr.range.To() == rs[j - 1].To()
      ensures overlapUpper == q.To() - curr.range.To()
      ensures result != null ==> result.Valid() && Apart(result) && fresh(result.Repr - old(result.Repr))
      ensures result != null ==> result.Model() == had + Lacking(rs, q, rs[j - 1].To())
      decreases if result == null then 0 else 1, 1, 0
    {
      hide Denote, Lacking, Canonical;
      CanonicalAt(rs, k);
      j := k + 1;
      overlapUpper := overlap;
      while curr.next != null && q.To() >= curr.next.range.From() - 1
        invariant k < j <= |rs| && |nodes| == k + 1 + |rs| - j && nodes[k] == curr && Linked()
        invariant ranges == rs[..k] + [curr.range] + rs[j..] && curr.range.Valid()
        invariant curr.range.From() == old(curr.range).From()
        invariant curr.range.To() == rs[j - 1].To() && rs[j - 1].From() - 1 <= q.To()
        invariant q.From() <= rs[j - 1].To() + 1
        invariant overlapUpper == q.To() - curr.range.To()
        invariant Repr == old(Repr)
        invariant result != null ==> result.Valid() && Apart(result) && fresh(result.Repr - old(result.Repr))
        invariant result != null ==> result.Model() == had + Lacking(rs, q, rs[j - 1].To())
        decreases |rs| - j
      {
        ghost var r := curr.range;
        assert curr.next == nodes[k + 1];
        SpliceDrop(rs, k, j, r);
        CanonicalAt(rs, j);
        assert curr.next.range == rs[j];
        LackingBetween(rs, q, j);
        var midRange := curr.next.range.From() - curr.range.To() - 1;
        overlapUpper := overlapUpper - (midRange + curr.next.range.length);
        AbsorbNext(curr, midRange, result, k);
        j := j + 1;
      }
      if j < |rs| { SpliceDrop(rs, k, j, curr.range); }
    }

    /** Extends curr over the gap after it and over the next node, which leaves the list. */
    method AbsorbNext(curr: RangeNode, midRange: int, result: RangeSet?, ghost k: nat)
      requires Linked() && k + 1 < |nodes| && curr == nodes[k] && curr.range.Valid() && 1 <= midRange
      requires result != null ==> result.Valid() && Apart(result)
      modifies Repr, if result == null then {} else result.Repr
      ensures Linked() && nodes == old(nodes)[..k + 1] + old(nodes)[k + 2..] && Repr == old(Repr)
      ensures curr.range == Range(old(ranges)[k].start, old(ranges)[k].length + midRange + old(ranges)[k + 1].length)
      ensures ranges == old(ranges)[..k] + [curr.range] + old(ranges)[k + 2..]
      ensures result != null ==> result.Valid() && Apart(result) && fresh(result.Repr - old(result.Repr))
      ensures result != null ==>
                result.Model() == old(result.Model()) + Range(old(curr.range).To() + 1, midRange).Seqs()
      decreases if result == null then 0 else 1, 0, 1
    {
      hide Denote, Canonical;
      Collect(result, Range(curr.range.To() + 1, midRange));
      assert curr.next == nodes[k + 1] && curr.next.range == ranges[k + 1] && curr.range == ranges[k];
      var toRemove := curr.next;
      Reshape(curr, Range(curr.range.start, curr.range.length + midRange + toRemove.range.length), k);
      assert curr == nodes[k] && curr != toRemove;
      Unlink(curr, toRemove, k + 1);
      assert curr == nodes[k];
    }

    method ExtendUp(curr: RangeNode, overlap: int, result: RangeSet?, ghost k: nat)
      requires Linked() && k < |nodes| && curr == nodes[k] && curr.range.Valid() && 1 <= overlap
      requires result != null ==> result.Valid() && Apart(result)
      modifies Repr, if result == null then {} else result.Repr
      ensures Linked() && Repr == old(Repr)
      ensures curr.range == Range(old(curr.range).start, old(curr.range).length + overlap)
      ensures ranges == old(ranges)[k := curr.range]
      ensures result != null ==> result.Valid() && Apart(result) && fresh(result.Repr - old(result.Repr))
      ensures result != null ==>
                result.Model() == old(result.Model()) + Range(old(curr.range).To() + 1, overlap).Seqs()
      decreases if result == null then 0 else 1, 0, 1
    {
      hide Denote, Canonical;
      Collect(result, Range(curr.range.To() + 1, overlap));
      Reshape(curr, Range(curr.range.start, curr.range.length + overlap), k);
    }

    // ---- taking a range away ----

    /** Takes one sequence number out of the set and tells whether it was there. */
    method Remove(s: nat) returns (found: bool)
      requires Valid()
      modifies Repr
      ensures Valid() && fresh(Repr - old(Repr))
      ensures found == (s in old(Model())) && Model() == old(Model()) - {s}
    {
      hide Denote;
      ghost var rs := ranges;
      var prev, curr: RangeNode? := null, first;
      ghost var k := 0;
      while curr != null
        invariant k <= |nodes| && curr == NodeAt(nodes, k, null) && prev == NodeAt(nodes, k - 1, null)
        invariant Valid() && ranges == rs && nodes == old(nodes) && Repr == old(Repr)
        invariant forall i :: 0 <= i < k ==> rs[i].To() < s
        decreases |nodes| - k
      {
        assert curr.range == ranges[k] && curr.next == NodeAt(nodes, k + 1, null);
        if s < curr.range.From() {
          NotCovered(rs, s, k);
          return false;
        }
        if s > curr.range.To() {
          prev, curr, k := curr, curr.next, k + 1;
          continue;
        }
        CutOut(s, prev, curr, k);
        return true;
      }
      NotCovered(rs, s, k);
      found := false;
    }

    /** The middle of Remove: s lies in the range of curr. */
    method CutOut(s: nat, prev: RangeNode?, curr: RangeNode, ghost k: nat)
      requires Valid() && k < |nodes| && curr == nodes[k] && prev == NodeAt(nodes, k - 1, null) && ranges[k].In(s)
      modifies Repr
      ensures Valid() && fresh(Repr - old(Repr))
      ensures s in old(Model()) && Model() == old(Model()) - {s}
    {
      hide Denote;
      Carve(ranges, k, Range(s, 1));
      CoversOne(ranges, k, s);
      hide Canonical;
      CutOne(s, prev, curr, k);
    }

    /** The links and ranges of CutOut. */
    method CutOne(s: nat, prev: RangeNode?, curr: RangeNode, ghost k: nat)
      requires Linked() && k < |nodes| && curr == nodes[k] && prev == NodeAt(nodes, k - 1, null)
      requires ranges[k].Valid() && ranges[k].In(s)
      modifies Repr
      ensures Linked() && fresh(Repr - old(Repr))
      ensures ranges == old(ranges)[..k] + Remainder(old(ranges)[k], Range(s, 1)) + old(ranges)[k + 1..]
    {
      ghost var rs := ranges;
      assert curr.range == rs[k] && curr.next == NodeAt(nodes, k + 1, null);
      if s == curr.range.From() {
        if curr.range.length == 1 {
          Unlink(prev, curr, k);
        } else {
          Reshape(curr, Range(curr.range.start + 1, curr.range.length - 1), k);
        }
      } else if s == curr.range.To() {
        Reshape(curr, Range(curr.range.start, curr.range.length - 1), k);
      } else {
        var l := curr.range.length;
        Reshape(curr, Range(curr.range.start, s - curr.range.start), k);
        Insert(curr, Range(s + 1, l - curr.range.length - 1), curr.next, k + 1);
      }
      assert ranges == rs[..k] + Remainder(rs[k], Range(s, 1)) + rs[k + 1..];
    }

    /** Takes q out of the set and, when a result set is given, adds to it exactly what was taken. */
    method SubtractInto(q: Range, result: RangeSet?)
      requires Valid() && q.Valid()
      requires result != null ==> result.Valid() && Apart(result)
      modifies Repr, if result == null then {} else result.Repr
      ensures Valid() && Model() == old(Model()) - q.Seqs() && fresh(Repr - old(Repr))
      ensures result != null ==> result.Valid() && Apart(result) && fresh(result.Repr - old(result.Repr))
      ensures result != null ==> result.Model() == old(result.Model()) + q.Seqs() * old(Model())
    {
      hide Denote, Cut, Canonical;
      ghost var rs := ranges;
      ghost var had := if result == null then {} else result.Model();
      ghost var i: nat, k: nat := 0, 0;
      CutNone(rs, q);
      var prev, curr: RangeNode? := null, first;
      while curr != null
        invariant i <= |rs| && k <= |nodes| && curr == NodeAt(nodes, k, null) && prev == NodeAt(nodes, k - 1, null)
        invariant Valid() && fresh(Repr - old(Repr)) && ranges[k..] == rs[i..]
        invariant |nodes| - k == |rs| - i && Model() == Denote(rs) - Cut(rs, q, i)
        invariant result != null ==> result.Valid() && Apart(result) && fresh(result.Repr - old(result.Repr))
        invariant result != null ==> result.Model() == had + Cut(rs, q, i)
        decreases |rs| - i
      {
        assert curr.range == ranges[k] == ranges[k..][0] == rs[i] && curr.next == NodeAt(nodes, k + 1, null);
        if q.To() < curr.range.From() {
          CutAll(rs, q, i);
          return;
        }
        CutStep(rs, q, i);
        CanonicalAt(rs, i);
        if q.From() > curr.range.To() {
          assert q.Seqs() * rs[i].Seqs() == {};
          prev, curr, k := curr, curr.next, k + 1;
        } else {
          prev, curr, k := CutNode(q, prev, curr, result, k);
        }
        i := i + 1;
      }
      CutAll(rs, q, i);
    }

    /** The body of the loop of SubtractInto: q overlaps curr. */
    method CutNode(q: Range, prev: RangeNode?, curr: RangeNode, result: RangeSet?, ghost k: nat)
      returns (prev': RangeNode?, curr': RangeNode?, ghost k': nat)
      requires Valid() && k < |nodes| && curr == nodes[k] && prev == NodeAt(nodes, k - 1, null) && q.Valid()
      requires q.From() <= ranges[k].To() && ranges[k].From() <= q.To()
      requires result != null ==> result.Valid() && Apart(result)
      modifies Repr, if result == null then {} else result.Repr
      ensures Valid() && fresh(Repr - old(Repr))
      ensures k' <= |nodes| && curr' == NodeAt(nodes, k', null) && prev' == NodeAt(nodes, k' - 1, null)
      ensures ranges[k'..] == old(ranges)[k + 1..]
      ensures Model() == old(Model()) - q.Seqs() * old(ranges)[k].Seqs()
      ensures result != null ==> result.Valid() && Apart(result) && fresh(result.Repr - old(result.Repr))
      ensures result != null ==> result.Model() == old(result.Model()) + q.Seqs() * old(ranges)[k].Seqs()
    {
      hide Denote, Canonical;
      Carve(ranges, k, q);
      assert curr.range == ranges[k];
      var remainLower := q.From() - curr.range.From();
      var remainUpper := curr.range.To() - q.To();
      var gone :=
        if remainLower <= 0 && remainUpper <= 0 then curr.range
        else if remainLower <= 0 then Range(curr.range.start, curr.range.length - remainUpper)
        else if remainUpper <= 0 then Range(curr.range.start + remainLower, curr.range.length - remainLower)
        else Range(curr.range.start + remainLower, curr.range.length - remainLower - remainUpper);
      assert q.Seqs() * ranges[k].Seqs() == gone.Seqs();
      Collect(result, gone);
      prev', curr', k' := Shrink(q, remainLower, remainUpper, prev, curr, k);
    }

    /** The links and ranges of CutNode: remainLower and remainUpper are what stays of curr on each side of q. */
    method Shrink(ghost q: Range, remainLower: int, remainUpper: int, prev: RangeNode?, curr: RangeNode, ghost k: nat)
      returns (prev': RangeNode?, curr': RangeNode?, ghost k': nat)
      requires Linked() && k < |nodes| && curr == nodes[k] && prev == NodeAt(nodes, k - 1, null) && q.Valid()
      requires ranges[k].Valid() && q.From() <= ranges[k].To() && ranges[k].From() <= q.To()
      requires remainLower == q.From() - ranges[k].From() && remainUpper == ranges[k].To() - q.To()
      modifies Repr
      ensures Linked() && fresh(Repr - old(Repr))
      ensures k' <= |nodes| && curr' == NodeAt(nodes, k', null) && prev' == NodeAt(nodes, k' - 1, null)
      ensures ranges == old(ranges)[..k] + Remainder(old(ranges)[k], q) + old(ranges)[k + 1..]
      ensures k' == k + |Remainder(old(ranges)[k], q)|
    {
      assert curr.range == ranges[k] && curr.next == NodeAt(nodes, k + 1, null);
      if remainLower <= 0 && remainUpper <= 0 {
        prev', curr', k' := prev, curr.next, k;
        Unlink(prev, curr, k);
      } else if remainLower <= 0 {
        Reshape(curr, Range(curr.range.start + (curr.range.length - remainUpper), remainUpper), k);
        prev', curr', k' := curr, curr.next, k + 1;
      } else if remainUpper <= 0 {
        Reshape(curr, Range(curr.range.start, remainLower), k);
        prev', curr', k' := curr, curr.next, k + 1;
      } else {
        var upper := Range(curr.range.start + (curr.range.length - remainUpper), remainUpper);
        prev', curr' := Split(curr, Range(curr.range.start, remainLower), upper, k);
        k' := k + 2;
      }
    }

    /** What is left of curr becomes two nodes. */
    method Split(curr: RangeNode, lower: Range, upper: Range, ghost k: nat)
      returns (prev': RangeNode?, curr': RangeNode?)
      requires Linked() && k < |nodes| && curr == nodes[k]
      modifies Repr
      ensures Linked() && fresh(Repr - old(Repr)) && k + 2 <= |nodes|
      ensures curr' == NodeAt(nodes, k + 2, null) && prev' == NodeAt(nodes, k + 1, null)
      ensures ranges == old(ranges)[..k] + [lower, upper] + old(ranges)[k + 1..]
    {
      assert curr.next == NodeAt(nodes, k + 1, null);
      curr' := curr.next;
      Reshape(curr, lower, k);
      Insert(curr, upper, curr', k + 1);
      prev' := curr.next;
      assert curr == nodes[k];
    }

    // ---- the exported operations ----

    /** Adds q and returns what it added. */
    method Union(q: Range) returns (added: RangeSet)
      requires Valid() && q.Valid()
      modifies Repr
      ensures Valid() && fresh(Repr - old(Repr)) && Model() == old(Model()) + q.Seqs()
      ensures added.Valid() && fresh(added.Repr) && Apart(added) && added.Model() == q.Seqs() - old(Model())
    {
      added := new RangeSet();
      UnionInto(q, added);
    }

    method UnionAll(qs: seq<Range>)
      requires Valid() && forall i :: 0 <= i < |qs| ==> qs[i].Valid()
      modifies Repr
      ensures Valid() && fresh(Repr - old(Repr)) && Model() == old(Model()) + Denote(qs)
    {
      hide Denote;
      DenoteEmpty();
      for i := 0 to |qs|
        invariant Valid() && fresh(Repr - old(Repr)) && Model() == old(Model()) + Denote(qs[..i])
      {
        UnionInto(qs[i], null);
        DenoteGrow(qs, i);
      }
      assert qs[..|qs|] == qs;
    }

    /** Adds every range of a set, which may be this one. */
    method UnionRangeSet(rs: RangeSet)
      requires Valid() && rs.Valid() && (rs == this || Apart(rs))
      modifies Repr
      ensures Valid() && fresh(Repr - old(Repr)) && (rs == this || Apart(rs))
      ensures Model() == old(Model()) + old(rs.Model())
    {
      hide Denote;
      ghost var qs := rs.ranges;
      DenoteEmpty();
      var curr := rs.first;
      ghost var k := 0;
      while curr != null
        invariant k <= |qs| && rs.Valid() && rs.ranges == qs && rs.nodes == old(rs.nodes)
        invariant curr == NodeAt(rs.nodes, k, null)
        invariant Valid() && fresh(Repr - old(Repr)) && (rs == this || (Apart(rs) && rs.Repr == old(rs.Repr)))
        invariant Model() == old(Model()) + Denote(qs[..k])
        decreases |qs| - k
      {
        assert curr.range == qs[k] && curr.next == NodeAt(rs.nodes, k + 1, null);
        UnionInto(curr.range, null);
        DenoteGrow(qs, k);
        if rs == this {
          SeqsDenoted(qs, k);
          CanonicalUnique(ranges, qs);
        }
        curr, k := curr.next, k + 1;
      }
      assert qs[..k] == qs;
    }

    /** Adds one sequence number and tells whether it was new. */
    method Add(s: nat) returns (isAdded: bool)
      requires Valid() && 1 <= s
      modifies Repr
      ensures Valid() && fresh(Repr - old(Repr))
      ensures Model() == old(Model()) + {s} && isAdded == (s !in old(Model()))
    {
      var result := Union(Range(s, 1));
      assert Range(s, 1).Seqs() == {s};
      assert s !in old(Model()) ==> s in result.Model();
      result.EmptyIffNull();
      isAdded := result.first != null;
      result.Clear();
    }

    lemma EmptyIffNull()
      requires Valid()
      ensures first == null <==> Model() == {}
    {
      if first == null {
        assert ranges == [];
      } else {
        FirstDenoted(ranges);
      }
    }

    /** Takes q away and returns what it took. */
    method Subtract(q: Range) returns (taken: RangeSet)
      requires Valid() && q.Valid()
      modifies Repr
      ensures Valid() && fresh(Repr - old(Repr)) && Model() == old(Model()) - q.Seqs()
      ensures taken.Valid() && fresh(taken.Repr) && Apart(taken) && taken.Model() == q.Seqs() * old(Model())
    {
      taken := new RangeSet();
      SubtractInto(q, taken);
    }

    method Clear()
      requires Valid()
      modifies Repr
      ensures Valid() && ranges == [] && Repr == old(Repr)
    {
      ghost var ns := nodes;
      var curr := first;
      ghost var k := 0;
      first, nodes, ranges := null, [], [];
      while curr != null
        invariant k <= |ns| && curr == NodeAt(ns, k, null) && Valid() && ranges == [] && Repr == old(Repr)
        invariant forall i {:trigger ns[i].next} :: k <= i < |ns| ==> ns[i].next == NodeAt(ns, i + 1, null)
        invariant Distinct(ns) && forall n :: n in ns ==> n in Repr
        decreases |ns| - k
      {
        var next := curr.next;
        assert ns[k].next == NodeAt(ns, k + 1, null);
        curr.next := null;
        curr, k := next, k + 1;
      }
    }

    /** Is every sequence number of q in the set? */
    method Contains(q: Range) returns (b: bool)
      requires Valid() && q.Valid()
      ensures b <==> q.Seqs() <= Model()
    {
      CoveredByOne(ranges, q);
      var curr := first;
      ghost var k := 0;
      while curr != null
        invariant k <= |nodes| && curr == NodeAt(nodes, k, null)
        invariant forall i :: 0 <= i < k ==> !(ranges[i].From() <= q.From() && q.To() <= ranges[i].To())
        decreases |nodes| - k
      {
        assert curr.range == ranges[k] && curr.next == NodeAt(nodes, k + 1, null);
        if q.From() >= curr.range.From() && q.To() <= curr.range.To() {
          return true;
        }
        curr, k := curr.next, k + 1;
      }
      b := false;
    }

    method AsSlice() returns (s: seq<Range>)
      requires Valid()
      ensures s == ranges
    {
      s := [];
      var curr := first;
      while curr != null
        invariant |s| <= |nodes| && curr == NodeAt(nodes, |s|, null) && s == ranges[..|s|]
        decreases |nodes| - |s|
      {
        assert curr.range == ranges[|s|] && curr.next == NodeAt(nodes, |s| + 1, null);
        s := s + [curr.range];
        curr := curr.next;
      }
    }
  }
}
