/** The packs that answer a request. */
module StoryPacks {
  import opened Ranges
  import opened Seqs
  import opened Streams
  import opened Histories
  import opened MessageSizes

  /** The encoded size of a story pack. */
  function PackSize(es: seq<Entry>): nat {
    SIZE_SERVER_BASE + SIZE_OF_TOKEN + 1 + EntriesSize(es)
  }

  /** The entries of the requested ranges, range after range. */
  function Requested(contents: seq<Entry>, missing: seq<Range>): seq<Entry> {
    if missing == [] then []
    else Requested(contents, missing[..|missing| - 1]) + InRange(contents, missing[|missing| - 1])
  }

  ghost predicate ShortPayloads(es: seq<Entry>) {
    forall i :: 0 <= i < |es| ==> |es[i].payload| <= 255
  }

  /** A pack is never empty, and it fits a message unless a single entry is too large on its own. */
  ghost predicate GoodPack(pack: seq<Entry>) {
    pack != [] && (PackSize(pack) < 508 || |pack| == 1)
  }

  /** packs carry es in order, nothing lost or repeated. */
  ghost predicate IsPacking(packs: seq<seq<Entry>>, es: seq<Entry>) {
    Flat(packs) == es && forall i :: 0 <= i < |packs| ==> GoodPack(packs[i])
  }

  /** No pack could have taken the first entry of the next one. */
  ghost predicate Tight(packs: seq<seq<Entry>>) {
    forall i :: 0 <= i < |packs| - 1 && packs[i + 1] != [] ==> PackSize(packs[i] + [packs[i + 1][0]]) >= 508
  }

  /**
   * What may be left of a pack of increasing numbers when it is written to the network: every entry is the one that
   * was packed or one with a number beyond the pack.
   */
  ghost predicate WrittenAs(pack: seq<Entry>, now: seq<Entry>) {
    && |now| == |pack|
    && forall j :: 0 <= j < |pack| ==> now[j] == pack[j] || pack[|pack| - 1].seqNo < now[j].seqNo
  }

  ghost predicate AllWrittenAs(packs: seq<seq<Entry>>, written: seq<seq<Entry>>) {
    |written| == |packs| && forall i :: 0 <= i < |packs| ==> WrittenAs(packs[i], written[i])
  }

  /** Whatever is left of the packs, all entries are some of es. */
  ghost predicate Rewritten(packs: seq<seq<Entry>>, written: seq<seq<Entry>>, es: seq<Entry>) {
    AllWrittenAs(packs, written) && forall p, e :: p in written && e in p ==> e in es
  }

  /** The pack after its array was filled from the front with other entries. */
  function Overlay(over: seq<Entry>, pack: seq<Entry>): seq<Entry> {
    if |over| <= |pack| then over + pack[|over|..] else over[..|pack|]
  }

  // ---- what is requested ----

  /** A request finds exactly the entries whose number lies in some range. */
  lemma {:induction false} RequestedExact(es: seq<Entry>, missing: seq<Range>)
    requires Sorted(es)
    ensures forall e :: e in Requested(es, missing) <==>
              e in es && exists k :: 0 <= k < |missing| && missing[k].In(e.seqNo)
  {
    if missing != [] {
      var init, last := missing[..|missing| - 1], missing[|missing| - 1];
      RequestedExact(es, init);
      InRangeExact(es, last);
      forall e | e in es
        ensures (exists k :: 0 <= k < |missing| && missing[k].In(e.seqNo)) <==>
                (exists k :: 0 <= k < |init| && init[k].In(e.seqNo)) || last.In(e.seqNo)
      {
        if k :| 0 <= k < |init| && init[k].In(e.seqNo) { assert missing[k].In(e.seqNo); }
        if k :| 0 <= k < |missing| && missing[k].In(e.seqNo) {
          if k < |init| { assert init[k].In(e.seqNo); }
        }
        if last.In(e.seqNo) { assert missing[|missing| - 1].In(e.seqNo); }
      }
    }
  }

  /** Asked for in canonical ranges, the entries come in strictly increasing order. */
  lemma {:induction false} RequestedSorted(es: seq<Entry>, rs: seq<Range>)
    requires Sorted(es) && Canonical(rs)
    ensures Sorted(Requested(es, rs))
  {
    if rs != [] {
      var init, last := rs[..|rs| - 1], rs[|rs| - 1];
      RequestedSorted(es, init);
      RequestedExact(es, init);
      InRangeExact(es, last);
      var a, b := Requested(es, init), InRange(es, last);
      forall i, j | 0 <= i < |a| && 0 <= j < |b| ensures a[i].seqNo < b[j].seqNo {
        assert a[i] in a && b[j] in b;
        var k :| 0 <= k < |init| && init[k].In(a[i].seqNo);
        assert rs[k].To() + 1 < rs[|rs| - 1].From();
      }
    }
  }

  // ---- sizes ----

  lemma {:induction false} EntriesSizeBounds(es: seq<Entry>)
    ensures EntriesSize(es) == 13 * |es| + TotalSize(es)
  {
    if es != [] { EntriesSizeBounds(es[..|es| - 1]); }
  }

  /** With payloads of at most 255 bytes every pack fits a message and holds at most 37 entries. */
  lemma {:induction false} PackBounds(packs: seq<seq<Entry>>, es: seq<Entry>)
    requires IsPacking(packs, es) && ShortPayloads(es)
    ensures forall i :: 0 <= i < |packs| ==>
              packs[i] != [] && PackSize(packs[i]) < 508 && |packs[i]| <= 37
  {
    forall i | 0 <= i < |packs|
      ensures packs[i] != [] && PackSize(packs[i]) < 508 && |packs[i]| <= 37
    {
      EntriesSizeBounds(packs[i]);
      if |packs[i]| == 1 {
        var e := packs[i][0];
        assert e in packs[i];
        FlatMember(packs, e);
        assert packs[i][..0] == [];
        assert TotalSize(packs[i]) == |e.payload|;
      }
    }
  }

  lemma NothingRequested(contents: seq<Entry>)
    ensures Requested(contents, []) == []
  {
  }

  lemma RequestedStep(contents: seq<Entry>, missing: seq<Range>, i: nat)
    requires i < |missing|
    ensures Requested(contents, missing[..i + 1]) == Requested(contents, missing[..i]) + InRange(contents, missing[i])
  {
    assert missing[..i + 1][..i] == missing[..i];
  }

  // ---- the packing is determined ----

  lemma {:induction false} SizeOfPrefix(es: seq<Entry>, k: nat)
    requires k <= |es|
    ensures PackSize(es[..k]) <= PackSize(es)
  {
    if k < |es| {
      SizeOfPrefix(es[..|es| - 1], k);
      assert es[..|es| - 1][..k] == es[..k];
    } else {
      assert es[..k] == es;
    }
  }

  lemma FirstAndRest(packs: seq<seq<Entry>>, es: seq<Entry>)
    requires IsPacking(packs, es) && Tight(packs) && packs != []
    ensures es == packs[0] + Flat(packs[1..]) && IsPacking(packs[1..], Flat(packs[1..])) && Tight(packs[1..])
    ensures GoodPack(packs[0])
    ensures |packs| > 1 ==> packs[1] != [] && PackSize(packs[0] + [packs[1][0]]) >= 508
  {
    FlatFront(packs[0], packs[1..]);
    assert packs == [packs[0]] + packs[1..];
    hide Flat, PackSize;
    var rest := packs[1..];
    assert forall i :: 0 <= i < |rest| ==> rest[i] == packs[i + 1];
    if |packs| > 1 { assert GoodPack(packs[1]); }
  }

  lemma NextDoesNotFit(a: seq<seq<Entry>>, es: seq<Entry>)
    requires IsPacking(a, es) && Tight(a) && a != []
    ensures |a[0]| <= |es| && a[0] == es[..|a[0]|]
    ensures |a[0]| < |es| ==> PackSize(es[..|a[0]| + 1]) >= 508
  {
    FirstAndRest(a, es);
    FlatEmpty<Entry>();
    assert |a| == 1 ==> a[1..] == [];
    if |a| > 1 {
      FlatFront(a[1], a[2..]);
      assert a[1..] == [a[1]] + a[2..];
      hide Flat, PackSize, Tight;
      assert es[..|a[0]| + 1] == a[0] + [a[1][0]];
    }
  }

  lemma PrefixFits(b: seq<seq<Entry>>, es: seq<Entry>, k: nat)
    requires IsPacking(b, es) && Tight(b) && b != [] && 1 <= k < |b[0]| <= |es|
    ensures PackSize(es[..k + 1]) < 508
  {
    NextDoesNotFit(b, es);
    FirstAndRest(b, es);
    SizeOfPrefix(b[0], k + 1);
    hide Flat, PackSize, Tight;
    assert b[0][..k + 1] == es[..k + 1];
  }

  /** The first pack of one packing is not shorter than that of another one. */
  lemma FirstNotShorter(a: seq<seq<Entry>>, b: seq<seq<Entry>>, es: seq<Entry>)
    requires IsPacking(a, es) && Tight(a) && IsPacking(b, es) && Tight(b) && a != [] && b != []
    ensures |a[0]| >= |b[0]|
  {
    FirstAndRest(a, es);
    NextDoesNotFit(a, es);
    NextDoesNotFit(b, es);
    hide Flat, PackSize, Tight;
    var k := |a[0]|;
    if k < |b[0]| { PrefixFits(b, es, k); }
  }

  /** Entries are packed in one way only: as many as fit in every pack. */
  lemma {:induction false} PackingIsDetermined(a: seq<seq<Entry>>, b: seq<seq<Entry>>, es: seq<Entry>)
    requires IsPacking(a, es) && Tight(a) && IsPacking(b, es) && Tight(b)
    ensures a == b
    decreases |a|
  {
    if a == [] || b == [] {
      NonePacked(a, es);
      NonePacked(b, es);
    } else {
      FirstNotShorter(a, b, es);
      FirstNotShorter(b, a, es);
      FirstAndRest(a, es);
      FirstAndRest(b, es);
      assert a[0] == es[..|a[0]|] == b[0];
      assert Flat(a[1..]) == es[|a[0]|..] == Flat(b[1..]);
      PackingIsDetermined(a[1..], b[1..], Flat(a[1..]));
    }
  }

  lemma NonePacked(packs: seq<seq<Entry>>, es: seq<Entry>)
    requires IsPacking(packs, es)
    ensures packs == [] <==> es == []
  {
    if packs != [] {
      var e := packs[0][0];
      assert GoodPack(packs[0]) && e in packs[0];
      FlatMember(packs, e);
    }
  }
}
