/** Sequence ranges and sorted lists of them (sequence/range.go). */
module Ranges {

  /** A run of `length` consecutive sequence numbers beginning at `start`. */
  datatype Range = Range(start: nat, length: int) {
    function From(): nat { start }

    function To(): int { start + length - 1 }

    predicate In(s: int) { start <= s < start + length }

    /** What `RangeLen` and `RangeInclusive` demand of a range. */
    predicate Valid() { 1 <= start && 1 <= length }

    ghost function Seqs(): set<int> { set s | start <= s < start + length && In(s) }
  }

  /** The range from..to; the program panics for other ends. */
  function RangeInclusive(from: nat, to: nat): (r: Range)
    requires 1 <= from <= to
    ensures r.Valid() && forall s :: r.In(s) <==> from <= s <= to
  {
    Range(from, to - from + 1)
  }

  /** The sequence numbers a list of ranges stands for. */
  ghost function Denote(rs: seq<Range>): set<int> {
    set i, s | 0 <= i < |rs| && s in rs[i].Seqs() :: s
  }

  /** Sorted, disjoint and non-touching: the form every RangeSet keeps. */
  ghost predicate Canonical(rs: seq<Range>) {
    && (forall i :: 0 <= i < |rs| ==> rs[i].Valid())
    && (forall i, j :: 0 <= i < j < |rs| ==> rs[i].To() + 1 < rs[j].From())
  }

  lemma DenoteConcat(a: seq<Range>, b: seq<Range>)
    ensures Denote(a + b) == Denote(a) + Denote(b)
  {
    forall s | s in Denote(b) ensures s in Denote(a + b) {
      var i :| 0 <= i < |b| && s in b[i].Seqs();
      assert (a + b)[|a| + i] == b[i];
    }
    forall s | s in Denote(a) ensures s in Denote(a + b) {
      var i :| 0 <= i < |a| && s in a[i].Seqs();
      assert (a + b)[i] == a[i];
    }
  }

  lemma DenoteEmpty()
    ensures Denote([]) == {}
  {
  }

  lemma DenoteOne(r: Range)
    ensures Denote([r]) == r.Seqs()
  {
    assert forall s :: s in r.Seqs() ==> s in [r][0].Seqs();
  }

  /** Splitting a list at k and j splits the set it denotes. */
  lemma DenoteSplit(rs: seq<Range>, k: nat, j: nat)
    requires k <= j <= |rs|
    ensures Denote(rs) == Denote(rs[..k]) + Denote(rs[k..j]) + Denote(rs[j..])
  {
    DenoteConcat(rs[..k], rs[k..j]);
    DenoteConcat(rs[..k] + rs[k..j], rs[j..]);
    assert rs == rs[..k] + rs[k..j] + rs[j..];
  }

  lemma DenoteSplice(rs: seq<Range>, k: nat, mid: seq<Range>, j: nat)
    requires k <= j <= |rs|
    ensures Denote(rs[..k] + mid + rs[j..]) == Denote(rs[..k]) + Denote(mid) + Denote(rs[j..])
  {
    DenoteConcat(rs[..k], mid);
    DenoteConcat(rs[..k] + mid, rs[j..]);
  }

  /** Replacing the ranges k..j by canonical ranges that stay clear of both neighbours. */
  lemma CanonicalSplice(rs: seq<Range>, k: nat, mid: seq<Range>, j: nat)
    requires Canonical(rs) && Canonical(mid) && k <= j <= |rs|
    requires forall i, m :: 0 <= i < k && 0 <= m < |mid| ==> rs[i].To() + 1 < mid[m].From()
    requires forall i, m :: j <= i < |rs| && 0 <= m < |mid| ==> mid[m].To() + 1 < rs[i].From()
    ensures Canonical(rs[..k] + mid + rs[j..])
  {
    var out := rs[..k] + mid + rs[j..];
    assert forall i :: 0 <= i < |out| ==>
      out[i] == if i < k then rs[i] else if i < k + |mid| then mid[i - k] else rs[i - k - |mid| + j];
  }

  lemma CanonicalSlice(rs: seq<Range>, k: nat, j: nat)
    requires Canonical(rs) && k <= j <= |rs|
    ensures Canonical(rs[k..j])
  {
  }

  /** No element lies between, or next to, two neighbours of a canonical list. */
  lemma GapAfter(rs: seq<Range>, k: nat, s: int)
    requires Canonical(rs) && k < |rs|
    requires rs[k].To() < s && (k + 1 < |rs| ==> s < rs[k + 1].From())
    ensures s !in Denote(rs)
  {
  }

  /** A canonical list is the only canonical list denoting its set. */
  lemma {:induction false} CanonicalUnique(a: seq<Range>, b: seq<Range>)
    requires Canonical(a) && Canonical(b) && Denote(a) == Denote(b)
    ensures a == b
  {
    if a != [] { FirstDenoted(a); }
    if b != [] { FirstDenoted(b); }
    if a != [] && b != [] {
      FirstCovers(a, b);
      FirstCovers(b, a);
      assert a[0] == b[0];
      DropFirst(a);
      DropFirst(b);
      CanonicalUnique(a[1..], b[1..]);
    }
  }

  lemma FirstDenoted(a: seq<Range>)
    requires Canonical(a) && a != []
    ensures a[0].start in Denote(a)
  {
    assert a[0].start in a[0].Seqs();
  }

  lemma FirstCovers(a: seq<Range>, b: seq<Range>)
    requires Canonical(a) && Canonical(b) && Denote(a) == Denote(b) && a != [] && b != []
    ensures b[0].start <= a[0].start && a[0].start <= b[0].start ==> a[0].length <= b[0].length
    ensures b[0].start <= a[0].start
  {
    FirstDenoted(a);
    if a[0].start == b[0].start && a[0].length > b[0].length {
      var s := b[0].To() + 1;
      assert s in a[0].Seqs();
      assert s in Denote(a);
      GapAfter(b, 0, s);
    }
  }

  lemma DropFirst(a: seq<Range>)
    requires Canonical(a) && a != []
    ensures Canonical(a[1..]) && Denote(a[1..]) == Denote(a) - a[0].Seqs()
  {
    DenoteSplit(a, 0, 1);
    DenoteOne(a[0]);
    assert a[0..1] == [a[0]];
    assert a[..0] == [];
    assert Denote([]) == {};
  }

  // ---- adding a range ----

  /** The part of q up to t that rs lacks. */
  ghost function Lacking(rs: seq<Range>, q: Range, t: int): set<int> {
    set s | s in q.Seqs() && s <= t && s !in Denote(rs)
  }

  /** q fits, without touching, between the ranges k - 1 and k. */
  lemma UnionClear(rs: seq<Range>, q: Range, k: nat)
    requires Canonical(rs) && q.Valid() && k <= |rs|
    requires forall i :: 0 <= i < k ==> rs[i].To() + 1 < q.From()
    requires k < |rs| ==> q.To() < rs[k].From() - 1
    ensures Canonical(rs[..k] + [q] + rs[k..])
    ensures Denote(rs[..k] + [q] + rs[k..]) == Denote(rs) + q.Seqs()
    ensures q.Seqs() !! Denote(rs)
  {
    CanonicalReplace(rs, k, q, k);
    DenoteSplice(rs, k, [q], k);
    DenoteSplit(rs, k, k);
    DenoteOne(q);
    assert rs[k..k] == [] && Denote([]) == {};
  }

  /** Replacing the ranges k..j by one range that stays clear of both neighbours. */
  lemma CanonicalReplace(rs: seq<Range>, k: nat, m: Range, j: nat)
    requires Canonical(rs) && m.Valid() && k <= j <= |rs|
    requires forall i :: 0 <= i < k ==> rs[i].To() + 1 < m.From()
    requires j < |rs| ==> m.To() + 1 < rs[j].From()
    ensures Canonical(rs[..k] + [m] + rs[j..])
  {
    forall i | j <= i < |rs| ensures m.To() + 1 < rs[i].From() {
      assert rs[j].From() <= rs[i].From();
    }
    CanonicalSplice(rs, k, [m], j);
  }

  /** q touches exactly the ranges k..j, and m is their hull. */
  lemma UnionMerge(rs: seq<Range>, q: Range, k: nat, j: nat, m: Range)
    requires Canonical(rs) && q.Valid() && k < j <= |rs|
    requires forall i :: 0 <= i < k ==> rs[i].To() + 1 < q.From()
    requires q.From() <= rs[k].To() + 1 && rs[j - 1].From() - 1 <= q.To()
    requires j < |rs| ==> q.To() < rs[j].From() - 1
    requires m.From() == (if q.From() < rs[k].From() then q.From() else rs[k].From())
    requires m.To() == (if rs[j - 1].To() < q.To() then q.To() else rs[j - 1].To())
    ensures Canonical(rs[..k] + [m] + rs[j..])
    ensures Denote(rs[..k] + [m] + rs[j..]) == Denote(rs) + q.Seqs()
  {
    assert rs[k].To() <= rs[j - 1].To() && Canonical(rs[k..j]);
    CanonicalReplace(rs, k, m, j);
    hide Canonical, Denote;
    DenoteSplice(rs, k, [m], j);
    DenoteSplit(rs, k, j);
    DenoteOne(m);
    Hull(rs[k..j], q, m);
  }

  lemma Hull(rs: seq<Range>, q: Range, m: Range)
    requires Canonical(rs) && q.Valid() && rs != []
    requires q.From() <= rs[0].To() + 1 && rs[|rs| - 1].From() - 1 <= q.To()
    requires m.From() == (if q.From() < rs[0].From() then q.From() else rs[0].From())
    requires m.To() == (if rs[|rs| - 1].To() < q.To() then q.To() else rs[|rs| - 1].To())
    ensures m.Seqs() == Denote(rs) + q.Seqs()
  {
    forall s | s in m.Seqs() ensures s in Denote(rs) + q.Seqs() {
      if s < q.From() {
        assert s in rs[0].Seqs();
      } else if q.To() < s {
        assert s in rs[|rs| - 1].Seqs();
      }
    }
    forall s | s in Denote(rs) ensures s in m.Seqs() {
      var i :| 0 <= i < |rs| && s in rs[i].Seqs();
      assert rs[0].From() <= rs[i].From() && rs[i].To() <= rs[|rs| - 1].To();
    }
  }

  lemma LackingLow(rs: seq<Range>, q: Range, k: nat)
    requires Canonical(rs) && q.Valid() && k < |rs|
    requires forall i :: 0 <= i < k ==> rs[i].To() + 1 < q.From()
    requires rs[k].From() - 1 <= q.To()
    ensures Lacking(rs, q, rs[k].To()) ==
            if q.From() < rs[k].From() then Range(q.start, rs[k].From() - q.From()).Seqs() else {}
  {
    assert forall s :: s in q.Seqs() && s < rs[k].From() ==> s !in Denote(rs);
    forall s | rs[k].From() <= s <= rs[k].To() ensures s in Denote(rs) {
      assert s in rs[k].Seqs();
    }
  }

  lemma LackingBetween(rs: seq<Range>, q: Range, j: nat)
    requires Canonical(rs) && q.Valid() && 0 < j < |rs|
    requires q.From() <= rs[j - 1].To() + 1 && rs[j].From() - 1 <= q.To()
    ensures Lacking(rs, q, rs[j].To()) == Lacking(rs, q, rs[j - 1].To())
            + Range(rs[j - 1].To() + 1, rs[j].From() - rs[j - 1].To() - 1).Seqs()
  {
    forall s | rs[j - 1].To() < s < rs[j].From() ensures s !in Denote(rs) {
      GapAfter(rs, j - 1, s);
    }
    forall s | rs[j].From() <= s <= rs[j].To() ensures s in Denote(rs) {
      assert s in rs[j].Seqs();
    }
  }

  lemma LackingHigh(rs: seq<Range>, q: Range, j: nat)
    requires Canonical(rs) && q.Valid() && 0 < j <= |rs|
    requires q.From() <= rs[j - 1].To() + 1
    requires j < |rs| ==> q.To() < rs[j].From() - 1
    ensures q.Seqs() - Denote(rs) == Lacking(rs, q, rs[j - 1].To())
            + if rs[j - 1].To() < q.To() then Range(rs[j - 1].To() + 1, q.To() - rs[j - 1].To()).Seqs() else {}
  {
    forall s | rs[j - 1].To() < s <= q.To() ensures s !in Denote(rs) {
      GapAfter(rs, j - 1, s);
    }
  }

  // ---- taking a range away ----

  /** What q leaves of a range r that it overlaps. */
  function Remainder(r: Range, q: Range): seq<Range>
    requires r.Valid() && q.Valid() && q.From() <= r.To() && r.From() <= q.To()
  {
    (if r.From() < q.From() then [Range(r.start, q.From() - r.From())] else [])
    + if q.To() < r.To() then [Range(q.To() + 1, r.To() - q.To())] else []
  }

  lemma RemainderDenotes(r: Range, q: Range)
    requires r.Valid() && q.Valid() && q.From() <= r.To() && r.From() <= q.To()
    ensures Canonical(Remainder(r, q)) && Denote(Remainder(r, q)) == r.Seqs() - q.Seqs()
  {
    var low := if r.From() < q.From() then [Range(r.start, q.From() - r.From())] else [];
    var high := if q.To() < r.To() then [Range(q.To() + 1, r.To() - q.To())] else [];
    DenoteConcat(low, high);
    if low != [] { DenoteOne(low[0]); }
    if high != [] { DenoteOne(high[0]); }
    assert Denote([]) == {};
  }

  /** Replacing the range k by what q leaves of it. */
  lemma Carve(rs: seq<Range>, k: nat, q: Range)
    requires Canonical(rs) && k < |rs| && q.Valid()
    requires q.From() <= rs[k].To() && rs[k].From() <= q.To()
    ensures rs[k].Valid() && Canonical(rs[..k] + Remainder(rs[k], q) + rs[k + 1..])
    ensures Denote(rs[..k] + Remainder(rs[k], q) + rs[k + 1..]) == Denote(rs) - q.Seqs() * rs[k].Seqs()
  {
    hide Denote;
    RemainderDenotes(rs[k], q);
    CanonicalSplice(rs, k, Remainder(rs[k], q), k + 1);
    DenoteSplice(rs, k, Remainder(rs[k], q), k + 1);
    Isolated(rs, k);
  }

  lemma Isolated(rs: seq<Range>, k: nat)
    requires Canonical(rs) && k < |rs|
    ensures Denote(rs[..k]) !! rs[k].Seqs() && Denote(rs[k + 1..]) !! rs[k].Seqs()
    ensures Denote(rs) == Denote(rs[..k]) + rs[k].Seqs() + Denote(rs[k + 1..])
  {
    DenoteSplit(rs, k, k + 1);
    DenoteOne(rs[k]);
    assert rs[k..k + 1] == [rs[k]];
  }

  /** The part of q in the first i ranges. */
  ghost function Cut(rs: seq<Range>, q: Range, i: nat): set<int>
    requires i <= |rs|
  {
    q.Seqs() * Denote(rs[..i])
  }

  lemma CutStep(rs: seq<Range>, q: Range, i: nat)
    requires i < |rs|
    ensures Cut(rs, q, i + 1) == Cut(rs, q, i) + q.Seqs() * rs[i].Seqs()
  {
    DenoteConcat(rs[..i], [rs[i]]);
    DenoteOne(rs[i]);
    assert rs[..i + 1] == rs[..i] + [rs[i]];
  }

  lemma CutAll(rs: seq<Range>, q: Range, i: nat)
    requires Canonical(rs) && i <= |rs| && (i < |rs| ==> q.To() < rs[i].From())
    ensures Cut(rs, q, i) == q.Seqs() * Denote(rs)
  {
    DenoteConcat(rs[..i], rs[i..]);
    assert rs == rs[..i] + rs[i..];
    assert q.Seqs() !! Denote(rs[i..]);
  }

  /** A range lies in a canonical list exactly when one of its ranges covers it. */
  lemma CoveredByOne(rs: seq<Range>, q: Range)
    requires Canonical(rs) && q.Valid()
    ensures q.Seqs() <= Denote(rs) <==> exists i :: 0 <= i < |rs| && rs[i].From() <= q.From() && q.To() <= rs[i].To()
  {
    if q.Seqs() <= Denote(rs) {
      assert q.start in q.Seqs();
      var i :| 0 <= i < |rs| && q.start in rs[i].Seqs();
      if rs[i].To() < q.To() {
        assert rs[i].To() + 1 in q.Seqs();
        GapAfter(rs, i, rs[i].To() + 1);
      }
    }
    if i :| 0 <= i < |rs| && rs[i].From() <= q.From() && q.To() <= rs[i].To() {
      assert forall s :: s in q.Seqs() ==> s in rs[i].Seqs();
    }
  }

  lemma CutNone(rs: seq<Range>, q: Range)
    ensures Cut(rs, q, 0) == {}
  {
  }

  lemma NotCovered(rs: seq<Range>, s: int, k: nat)
    requires Canonical(rs) && k <= |rs|
    requires (forall i :: 0 <= i < k ==> rs[i].To() < s) && (k < |rs| ==> s < rs[k].From())
    ensures s !in Denote(rs)
  {
  }

  lemma CoversOne(rs: seq<Range>, k: nat, s: int)
    requires k < |rs| && rs[k].In(s) && s >= 0
    ensures s in Denote(rs) && Range(s, 1).Seqs() * rs[k].Seqs() == {s}
  {
    assert s in rs[k].Seqs();
  }

  // ---- the order of unions does not matter ----

  lemma DenotePermuted(qs: seq<Range>, ps: seq<Range>)
    requires multiset(qs) == multiset(ps)
    ensures Denote(qs) == Denote(ps)
  {
    forall s | s in Denote(qs) ensures s in Denote(ps) {
      var i :| 0 <= i < |qs| && s in qs[i].Seqs();
      assert qs[i] in multiset(ps);
      var j :| 0 <= j < |ps| && ps[j] == qs[i];
    }
    forall s | s in Denote(ps) ensures s in Denote(qs) {
      var i :| 0 <= i < |ps| && s in ps[i].Seqs();
      assert ps[i] in multiset(qs);
      var j :| 0 <= j < |qs| && qs[j] == ps[i];
    }
  }

  /**
   * a and b are what two sets hold that began with the same numbers and were given the same
   * ranges, each in an order of its own: they hold the same slice.
   */
  lemma UnionOrderIrrelevant(base: set<int>, qs: seq<Range>, ps: seq<Range>, a: seq<Range>, b: seq<Range>)
    requires multiset(qs) == multiset(ps) && Canonical(a) && Canonical(b)
    requires Denote(a) == base + Denote(qs) && Denote(b) == base + Denote(ps)
    ensures a == b
  {
    DenotePermuted(qs, ps);
    CanonicalUnique(a, b);
  }

  lemma SeqsDenoted(qs: seq<Range>, i: nat)
    requires i < |qs|
    ensures qs[i].Seqs() <= Denote(qs)
  {
  }

  lemma DenoteGrow(qs: seq<Range>, i: nat)
    requires i < |qs|
    ensures Denote(qs[..i + 1]) == Denote(qs[..i]) + qs[i].Seqs()
  {
    DenoteConcat(qs[..i], [qs[i]]);
    DenoteOne(qs[i]);
    assert qs[..i + 1] == qs[..i] + [qs[i]];
  }
}
