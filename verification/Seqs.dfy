/** Lists of lists and their concatenation, and the elements of linked lists. */
module Seqs {
  /** The concatenation of a list of lists. */
  function Flat<T>(parts: seq<seq<T>>): seq<T> {
    if parts == [] then [] else Flat(parts[..|parts| - 1]) + parts[|parts| - 1]
  }

  lemma {:induction false} FlatConcat<T>(a: seq<seq<T>>, b: seq<seq<T>>)
    ensures Flat(a + b) == Flat(a) + Flat(b)
  {
    if b == [] {
      assert a + b == a;
    } else {
      FlatConcat(a, b[..|b| - 1]);
      assert (a + b)[..|a + b| - 1] == a + b[..|b| - 1];
    }
  }

  lemma FlatOne<T>(p: seq<T>)
    ensures Flat([p]) == p
  {
    assert [p][..0] == [];
  }

  lemma FlatSplit<T>(parts: seq<seq<T>>, k: nat)
    requires k <= |parts|
    ensures Flat(parts) == Flat(parts[..k]) + Flat(parts[k..])
  {
    hide Flat;
    FlatConcat(parts[..k], parts[k..]);
    assert parts == parts[..k] + parts[k..];
  }

  lemma FlatTake<T>(parts: seq<seq<T>>, k: nat)
    requires k < |parts|
    ensures Flat(parts[..k + 1]) == Flat(parts[..k]) + parts[k]
  {
    assert parts[..k + 1][..k] == parts[..k];
  }

  /** Where the entries of chunk k stand in the whole. */
  lemma FlatAt<T>(parts: seq<seq<T>>, k: nat)
    requires k < |parts|
    ensures Flat(parts) == Flat(parts[..k]) + parts[k] + Flat(parts[k + 1..])
    ensures Flat(parts[..k + 1]) == Flat(parts[..k]) + parts[k]
  {
    hide Flat;
    FlatTake(parts, k);
    FlatSplit(parts, k + 1);
  }

  lemma FlatEmpty<T>()
    ensures Flat<T>([]) == []
  {
  }

  lemma FlatFront<T>(p: seq<T>, rest: seq<seq<T>>)
    ensures Flat([p] + rest) == p + Flat(rest)
  {
    FlatConcat([p], rest);
    FlatOne(p);
  }

  /** An element of the whole is an element of some part. */
  lemma {:induction false} FlatMember<T>(parts: seq<seq<T>>, x: T)
    ensures x in Flat(parts) <==> exists k :: 0 <= k < |parts| && x in parts[k]
  {
    if parts != [] {
      FlatMember(parts[..|parts| - 1], x);
      if k :| 0 <= k < |parts| && x in parts[k] {
        if k < |parts| - 1 { assert parts[..|parts| - 1][k] == parts[k]; }
      }
    }
  }

  // ---- elements of linked lists ----

  /** The element at position i, `none` past the ends. */
  ghost function NodeAt<N>(ns: seq<N>, i: int, none: N): N {
    if 0 <= i < |ns| then ns[i] else none
  }

  ghost predicate Distinct<T>(s: seq<T>) {
    forall i, j :: 0 <= i < j < |s| ==> s[i] != s[j]
  }

  lemma DistinctInsert<T>(s: seq<T>, k: nat, x: T)
    requires Distinct(s) && x !in s && k <= |s|
    ensures Distinct(s[..k] + [x] + s[k..])
  {
  }
}
