/** Packing requested story entries into messages (udpstar/server/service_session.go). */
module StoryPacker {
  import opened Ranges
  import opened Seqs
  import opened Streams
  import opened HistoryStore
  import opened MessageSizes
  import opened StoryPacks

  /** A slice that starts with its array. */
  datatype Slice = Slice(data: array<Entry>, len: nat) {
    ghost function Held(): seq<Entry>
      requires len <= data.Length
      reads data
    {
      data[..len]
    }
  }

  /**
   * What the arrays hold of packs that were sent as these slices: entries of es only; in increasing order, each the
   * one that was packed or one that came after the pack; and all of the last pack.
   */
  ghost predicate SharedPacks(packs: seq<seq<Entry>>, sent: seq<Slice>, es: seq<Entry>)
    reads set s | s in sent :: s.data
  {
    && |sent| == |packs|
    && (forall i :: 0 <= i < |sent| ==> sent[i].len == |packs[i]| <= sent[i].data.Length)
    && (forall i, e :: 0 <= i < |sent| && e in sent[i].Held() ==> e in es)
    && (Sorted(es) ==> forall i :: 0 <= i < |sent| ==> WrittenAs(packs[i], sent[i].Held()))
    && (sent != [] ==> sent[|sent| - 1].Held() == packs[|sent| - 1])
  }

  /** So whatever is read from the arrays is what may be left of the packs, and the last pack is all there. */
  lemma ReadLater(packs: seq<seq<Entry>>, sent: seq<Slice>, es: seq<Entry>, written: seq<seq<Entry>>)
    requires SharedPacks(packs, sent, es) && Sorted(es)
    requires |written| == |sent| && forall i :: 0 <= i < |sent| ==> written[i] == sent[i].Held()
    ensures Rewritten(packs, written, es)
    ensures packs != [] ==> written[|packs| - 1] == packs[|packs| - 1]
  {
    forall p, e | p in written && e in p ensures e in es {
      var i :| 0 <= i < |written| && written[i] == p;
      assert e in sent[i].Held();
    }
  }

  /** What the loop has done: everything taken so far is in packs already sent or carried over. */
  ghost predicate Packed(packs: seq<seq<Entry>>, carried: seq<Entry>, taken: seq<Entry>) {
    && Flat(packs) + carried == taken
    && (forall i :: 0 <= i < |packs| ==> GoodPack(packs[i]))
    && (carried != [] ==> GoodPack(carried))
  }

  /** No pack sent could have taken the next entry, be it sent, collected or yet to come. */
  ghost predicate TightSoFar(packs: seq<seq<Entry>>, carried: seq<Entry>) {
    && Tight(packs)
    && (packs != [] ==> PackSize(packs[|packs| - 1] + if carried == [] then [] else [carried[0]]) >= 508)
  }

  lemma NothingPacked()
    ensures Packed([], [], [])
  {
    FlatEmpty<Entry>();
  }

  lemma AllPacked(packs: seq<seq<Entry>>, carried: seq<Entry>, taken: seq<Entry>)
    requires Packed(packs, carried, taken)
    ensures IsPacking(if carried == [] then packs else packs + [carried], taken)
    ensures forall k :: 0 <= k < |carried| ==> carried[k] in taken
  {
    PackedOne(packs, carried, taken, Entry(0, 0, []));
    FlatConcat(packs, [carried]);
    FlatOne(carried);
    hide Flat, GoodPack;
  }

  /** One more entry is collected, or makes a pack that is sent. */
  lemma PackedOne(packs: seq<seq<Entry>>, was: seq<Entry>, taken: seq<Entry>, entry: Entry)
    requires Packed(packs, was, taken)
    ensures PackSize(was + [entry]) < MAX_MESSAGE_SIZE ==> Packed(packs, was + [entry], taken + [entry])
    ensures was == [] ==> Packed(packs + [[entry]], [], taken + [entry])
    ensures was != [] ==> Packed(packs + [was], [entry], taken + [entry])
    ensures forall k :: 0 <= k < |was| ==> was[k] in taken
  {
    hide Flat, PackSize;
    var pack := if was == [] then [entry] else was;
    FlatConcat(packs, [pack]);
    FlatOne(pack);
    forall k | 0 <= k < |was| ensures was[k] in taken {
      assert taken[|Flat(packs)| + k] == was[k];
    }
    assert GoodPack([entry]) && (was != [] ==> GoodPack(was));
    hide GoodPack;
    assert Flat(packs) + was + [entry] == taken + [entry] == Flat(packs) + (was + [entry]);
  }

  lemma PackSizeMore(pack: seq<Entry>, entry: Entry)
    ensures PackSize(pack + [entry]) >= PackSize(pack)
  {
    assert (pack + [entry])[..|pack|] == pack;
  }

  lemma TightOne(packs: seq<seq<Entry>>, was: seq<Entry>, entry: Entry)
    requires TightSoFar(packs, was)
    ensures PackSize(was + [entry]) < 508 ==> TightSoFar(packs, was + [entry])
    ensures PackSize(was + [entry]) >= 508 && was == [] ==> TightSoFar(packs + [[entry]], [])
    ensures PackSize(was + [entry]) >= 508 && was != [] ==> TightSoFar(packs + [was], [entry])
  {
    hide PackSize;
    assert [] + [entry] == [entry] == [entry] + [];
    if packs != [] && was == [] {
      var last := packs[|packs| - 1];
      assert last + [] == last;
      PackSizeMore(last, entry);
    }
  }

  lemma AllTight(packs: seq<seq<Entry>>, carried: seq<Entry>)
    requires TightSoFar(packs, carried)
    ensures Tight(if carried == [] then packs else packs + [carried])
  {
    hide PackSize;
  }

  /** In increasing order the next entry lies beyond every pack. */
  lemma BeyondPacks(packs: seq<seq<Entry>>, was: seq<Entry>, taken: seq<Entry>, entry: Entry)
    requires Packed(packs, was, taken) && Sorted(taken + [entry])
    ensures Sorted(taken) && (was != [] ==> was[|was| - 1].seqNo < entry.seqNo)
    ensures forall i :: 0 <= i < |packs| ==> packs[i] != [] && packs[i][|packs[i]| - 1].seqNo < entry.seqNo
  {
    hide Flat;
    var all := taken + [entry];
    assert forall k :: 0 <= k < |taken| ==> all[k] == taken[k] && all[k].seqNo < all[|taken|].seqNo;
    if was != [] { assert was[|was| - 1] == all[|taken| - 1]; }
    forall i | 0 <= i < |packs| ensures packs[i] != [] && packs[i][|packs[i]| - 1].seqNo < entry.seqNo {
      assert GoodPack(packs[i]);
      var e := packs[i][|packs[i]| - 1];
      assert e in packs[i];
      FlatMember(packs, e);
      assert e in taken;
    }
  }

  /** Nothing has changed but that some entries were replaced by this one. */
  ghost predicate ReplacedIn(was: seq<Entry>, now: seq<Entry>, entry: Entry) {
    |now| == |was| && forall j :: 0 <= j < |now| ==> now[j] == was[j] || now[j] == entry
  }

  ghost predicate Replaced(was: seq<seq<Entry>>, now: seq<seq<Entry>>, entry: Entry) {
    |now| == |was| && forall i :: 0 <= i < |now| ==> ReplacedIn(was[i], now[i], entry)
  }

  /** All of these entries are some of es. */
  ghost predicate HoldOnly(written: seq<seq<Entry>>, es: seq<Entry>) {
    forall i, e :: 0 <= i < |written| && e in written[i] ==> e in es
  }

  lemma StillHoldOnly(before: seq<seq<Entry>>, now: seq<seq<Entry>>, es: seq<Entry>, entry: Entry)
    requires HoldOnly(before, es) && Replaced(before, now, entry)
    ensures HoldOnly(now, es + [entry])
  {
    forall i, e | 0 <= i < |now| && e in now[i] ensures e in es + [entry] {
      assert ReplacedIn(before[i], now[i], entry);
      var j :| 0 <= j < |now[i]| && now[i][j] == e;
      assert before[i][j] in before[i];
    }
  }

  lemma OneMoreHolds(before: seq<seq<Entry>>, mid: seq<seq<Entry>>, now: seq<seq<Entry>>, was: seq<Entry>,
                     taken: seq<Entry>, entry: Entry)
    requires HoldOnly(before, taken) && Replaced(before, mid, entry)
    requires |now| == |mid| + 1 && Replaced(mid, now[..|mid|], entry)
    requires now[|mid|] == if was == [] then [entry] else was[0 := entry]
    requires forall k :: 0 <= k < |was| ==> was[k] in taken
    ensures HoldOnly(now, taken + [entry])
  {
    ReplacedTwice(before, mid, now[..|mid|], entry);
    StillHoldOnly(before, now[..|mid|], taken, entry);
    forall i, e | 0 <= i < |now| && e in now[i] ensures e in taken + [entry] {
      if i < |mid| { assert now[..|mid|][i] == now[i]; }
    }
  }

  /** An entry written at place k of a pack, if it shares the array. */
  function Altered(was: seq<Entry>, shares: bool, k: nat, entry: Entry): seq<Entry> {
    if shares && k < |was| then was[k := entry] else was
  }

  lemma OverlayMore(cur: seq<Entry>, pack: seq<Entry>, entry: Entry)
    ensures Overlay(cur + [entry], pack) == Altered(Overlay(cur, pack), true, |cur|, entry)
    ensures |pack| <= |cur| ==> Overlay(cur + [entry], pack) == Overlay(cur, pack)
  {
  }

  lemma RestartOverlays(was: seq<Entry>, entry: Entry)
    requires was != []
    ensures Overlay([entry], was) == Altered(was, true, 0, entry) == was[0 := entry]
  {
  }

  lemma NotAltered(was: seq<Entry>, k: nat, entry: Entry)
    ensures Altered(was, false, k, entry) == was && (|was| <= k ==> Altered(was, true, k, entry) == was)
  {
  }

  lemma AlteredIsReplaced(before: seq<seq<Entry>>, now: seq<seq<Entry>>, shares: seq<bool>, k: nat, entry: Entry)
    requires |before| == |now| == |shares|
    requires forall i :: 0 <= i < |now| ==> now[i] == Altered(before[i], shares[i], k, entry)
    ensures Replaced(before, now, entry)
  {
  }

  /** In increasing order the next entry may replace any entries of the packs sent before. */
  lemma StillWritten(packs: seq<seq<Entry>>, was: seq<Entry>, taken: seq<Entry>, entry: Entry,
                     before: seq<seq<Entry>>, now: seq<seq<Entry>>)
    requires Packed(packs, was, taken) && Sorted(taken + [entry]) && Replaced(before, now, entry)
    requires Sorted(taken) ==> AllWrittenAs(packs, before)
    ensures AllWrittenAs(packs, now)
  {
    BeyondPacks(packs, was, taken, entry);
  }

  lemma NothingReplaced(written: seq<seq<Entry>>, entry: Entry)
    ensures Replaced(written, written, entry)
  {
  }

  lemma ReplacedTwice(a: seq<seq<Entry>>, b: seq<seq<Entry>>, c: seq<seq<Entry>>, entry: Entry)
    requires Replaced(a, b, entry) && Replaced(b, c, entry)
    ensures Replaced(a, c, entry)
  {
    forall i | 0 <= i < |c| ensures ReplacedIn(a[i], c[i], entry) {
      assert ReplacedIn(a[i], b[i], entry) && ReplacedIn(b[i], c[i], entry);
    }
  }

  /** The same when the collected entries were sent, or the entry on its own. */
  lemma OneMoreWritten(packs: seq<seq<Entry>>, was: seq<Entry>, taken: seq<Entry>, entry: Entry,
                       before: seq<seq<Entry>>, mid: seq<seq<Entry>>, now: seq<seq<Entry>>)
    requires Packed(packs, was, taken) && Sorted(taken + [entry])
    requires Sorted(taken) ==> AllWrittenAs(packs, before)
    requires |now| == |packs| + 1 && Replaced(before, mid, entry) && Replaced(mid, now[..|packs|], entry)
    requires now[|packs|] == if was == [] then [entry] else was[0 := entry]
    ensures AllWrittenAs(packs + [if was == [] then [entry] else was], now)
  {
    ReplacedTwice(before, mid, now[..|packs|], entry);
    StillWritten(packs, was, taken, entry, before, now[..|packs|]);
    BeyondPacks(packs, was, taken, entry);
    hide Packed, Sorted, Replaced;
  }

  /** The answer to one request, as it is built. The packs share arrays with the entries being collected. */
  class Packer {
    const spare: nat -> nat  // how much longer than needed an array of a given length is allocated
    var data: array<Entry>
    var len: nat
    var packs: seq<seq<Entry>>  // the packs as they were put on the response channel
    var sent: seq<Slice>  // the same packs as slices, which is what the receiver holds
    ghost var taken: seq<Entry>
    ghost var Repr: set<object>

    /** The entries collected for the next pack. */
    function StoryEntries(): seq<Entry>
      reads this, data
    {
      if len <= data.Length then data[..len] else []
    }

    ghost predicate Owned()
      reads this, Repr
    {
      && this in Repr && data in Repr && len <= data.Length && |packs| == |sent|
      && (forall i {:trigger sent[i]} :: 0 <= i < |sent| ==>
            sent[i].data in Repr && sent[i].len == |packs[i]| <= sent[i].data.Length)
    }

    /** What the arrays hold of the packs sent. */
    ghost function Written(): seq<seq<Entry>>
      requires Owned()
      reads this, Repr
    {
      var s := sent;
      seq(|s|, i requires 0 <= i < |s| && s[i].len <= s[i].data.Length
                 reads if 0 <= i < |s| then {s[i].data} else {} => s[i].Held())
    }

    /** The entries collected now lie over those of the last pack sent, also after they have moved elsewhere. */
    ghost predicate LastIsOverlaid()
      requires Owned()
      reads this, Repr
    {
      var n := |sent| - 1;
      n >= 0 ==>
        && Written()[n] == Overlay(StoryEntries(), packs[n])
        && (sent[n].data == data || sent[n].len <= len)
    }

    ghost predicate Valid()
      reads this, Repr
    {
      && Owned() && HoldOnly(Written(), taken) && Packed(packs, StoryEntries(), taken)
      && TightSoFar(packs, StoryEntries())
      && (Sorted(taken) ==> AllWrittenAs(packs, Written())) && LastIsOverlaid()
    }

    constructor (spare: nat -> nat)
      ensures Valid() && fresh(Repr) && taken == [] && packs == [] && StoryEntries() == []
    {
      this.spare := spare;
      data := new Entry[0];
      len, packs, sent, taken := 0, [], [], [];
      new;
      Repr := {this, data};
      NothingPacked();
    }

    /** Appends to the collected entries, in a new array when there is no room. */
    method Append(entry: Entry)
      requires Owned()
      modifies Repr
      ensures Owned() && fresh(Repr - old(Repr)) && taken == old(taken) + [entry]
      ensures StoryEntries() == old(StoryEntries()) + [entry]
      ensures packs == old(packs) && sent == old(sent)
      ensures Replaced(old(Written()), Written(), entry) && (old(LastIsOverlaid()) ==> LastIsOverlaid())
    {
      hide Overlay, Replaced;
      if len == data.Length {
        Grow();
      }
      Extend(entry);
    }

    method Extend(entry: Entry)
      requires Owned() && len < data.Length
      modifies this`len, this`taken, data
      ensures Owned() && taken == old(taken) + [entry] && StoryEntries() == old(StoryEntries()) + [entry]
      ensures Replaced(old(Written()), Written(), entry) && (old(LastIsOverlaid()) ==> LastIsOverlaid())
    {
      hide Overlay, Altered, Replaced;
      ghost var before, cur, n := Written(), StoryEntries(), |sent| - 1;
      ghost var s, d := sent, data;
      ghost var shares := seq(|s|, i requires 0 <= i < |s| => s[i].data == d);
      WriteAt(len, entry);
      taken := taken + [entry];
      AlteredIsReplaced(before, Written(), shares, |cur|, entry);
      if n >= 0 {
        OverlayMore(cur, packs[n], entry);
        NotAltered(before[n], |cur|, entry);
      }
    }

    /** Moves the collected entries to a longer array; the packs sent stay where they are. */
    method Grow()
      requires Owned() && len == data.Length
      modifies this`data, this`Repr
      ensures Owned() && fresh(Repr - old(Repr)) && len < data.Length
      ensures StoryEntries() == old(StoryEntries()) && Written() == old(Written())
      ensures old(LastIsOverlaid()) ==> LastIsOverlaid()
    {
      hide Overlay;
      ghost var before := Written();
      var longer := new Entry[len + 1 + spare(len)];
      forall k | 0 <= k < len {
        longer[k] := data[k];
      }
      data, Repr := longer, Repr + {longer};
      assert Written() == before;
    }

    /** Puts the entry at place k and ends the collected entries there. */
    method WriteAt(k: nat, entry: Entry)
      requires Owned() && k <= len && k < data.Length
      modifies this`len, data
      ensures Owned() && StoryEntries() == old(StoryEntries())[..k] + [entry] && len == k + 1
      ensures forall i :: 0 <= i < |sent| ==>
                Written()[i] == Altered(old(Written())[i], sent[i].data == data, k, entry)
    {
      ghost var before := Written();
      data[k] := entry;
      len := k + 1;
      forall i | 0 <= i < |sent| ensures Written()[i] == Altered(before[i], sent[i].data == data, k, entry) {
        assert before[i] == old(sent[i].Held()) && Written()[i] == sent[i].Held();
      }
    }

    /** Puts the first n of the collected entries on the response channel. */
    method Send(n: nat)
      requires Owned() && n <= len
      modifies this`packs, this`sent
      ensures Owned() && packs == old(packs) + [data[..n]] && sent == old(sent) + [Slice(data, n)]
      ensures Written() == old(Written()) + [data[..n]]
    {
      packs, sent := packs + [data[..n]], sent + [Slice(data, n)];
    }

    /**
     * The callback that IterateRange calls for every entry. A pack that the entry does not fit in is sent, and then
     * its first entry is overwritten, since what is collected next goes to the array of that pack.
     */
    method PackOne(entry: Entry)
      requires Valid()
      modifies Repr
      ensures Valid() && fresh(Repr - old(Repr)) && taken == old(taken) + [entry]
      ensures var was := old(StoryEntries());
        if PackSize(was + [entry]) < 508 then
          packs == old(packs) && sent == old(sent) && StoryEntries() == was + [entry]
        else if was == [] then
          packs == old(packs) + [[entry]] && StoryEntries() == []
        else
          && packs == old(packs) + [was] && StoryEntries() == [entry]
          && |sent| == |packs| && Written()[|sent| - 1] == was[0 := entry]
    {
      hide Packed, PackSize, Sorted, AllWrittenAs, Replaced, WrittenAs, HoldOnly, Overlay, TightSoFar;
      ghost var was, all, before, ps := StoryEntries(), taken, Written(), packs;
      PackedOne(ps, was, all, entry);
      TightOne(ps, was, entry);
      Append(entry);
      ghost var mid := Written();
      assert data[..len] == was + [entry];
      if PackSize(data[..len]) < MAX_MESSAGE_SIZE {
        StillHoldOnly(before, mid, all, entry);
        if Sorted(taken) { StillWritten(ps, was, all, entry, before, mid); }
        return;
      }
      SendFull(entry, was);
      OneMoreHolds(before, mid, Written(), was, all, entry);
      if Sorted(taken) { OneMoreWritten(ps, was, all, entry, before, mid, Written()); }
    }

    /** The end of PackOne: the entry does not fit, or is too large on its own. */
    method SendFull(entry: Entry, ghost was: seq<Entry>)
      requires Owned() && StoryEntries() == was + [entry]
      modifies this`packs, this`sent, this`len, data
      ensures Owned() && LastIsOverlaid() && packs == old(packs) + [if was == [] then [entry] else was]
      ensures StoryEntries() == if was == [] then [] else [entry]
      ensures Replaced(old(Written()), Written()[..|old(packs)|], entry)
      ensures Written()[|old(packs)|] == if was == [] then [entry] else was[0 := entry]
    {
      hide Replaced, Overlay;
      ghost var before := Written();
      if len == 1 {
        assert was == [] && data[..1] == [entry];
        NothingOver([entry]);
        NothingReplaced(before, entry);
        Send(1);
        len := 0;
        assert StoryEntries() == [] && Written()[..|before|] == before;
      } else {
        assert data[..len - 1] == was;
        SendRest(entry, was);
      }
    }

    method SendRest(entry: Entry, ghost was: seq<Entry>)
      requires Owned() && StoryEntries() == was + [entry] && was != []
      modifies this`packs, this`sent, this`len, data
      ensures Owned() && LastIsOverlaid() && packs == old(packs) + [was] && StoryEntries() == [entry]
      ensures Replaced(old(Written()), Written()[..|old(packs)|], entry)
      ensures Written()[|old(packs)|] == was[0 := entry]
    {
      hide Overlay, Replaced, Altered;
      ghost var before := Written();
      assert data[..len - 1] == was;
      Send(len - 1);
      ghost var s, d := sent, data;
      ghost var shares := seq(|before|, i requires 0 <= i < |before| => s[i].data == d);
      WriteAt(0, entry);
      assert StoryEntries() == [entry];
      RestartOverlays(was, entry);
      AlteredIsReplaced(before, Written()[..|before|], shares, 0, entry);
    }
  }

  /** Answers a request for missing ranges. */
  method Retransmit(history: History, missing: seq<Range>, spare: nat -> nat)
    returns (packs: seq<seq<Entry>>, sent: seq<Slice>)
    requires history.Valid() && forall i :: 0 <= i < |missing| ==> missing[i].Valid()
    ensures IsPacking(packs, Requested(history.Contents(), missing)) && Tight(packs)
    ensures SharedPacks(packs, sent, Requested(history.Contents(), missing))
    ensures forall i :: 0 <= i < |sent| ==> fresh(sent[i].data)
  {
    hide Packed, Requested, GoodPack, Flat, Sorted, WrittenAs, SharedPacks, Tight, TightSoFar;
    var packer := new Packer(spare);
    assert Requested(history.Contents(), missing[..0]) == [] by { NothingRequested(history.Contents()); }
    for i := 0 to |missing|
      invariant packer.Valid() && fresh(packer.Repr) && packer.taken == Requested(history.Contents(), missing[..i])
    {
      var found := history.GetRange(missing[i]);
      PackFound(packer, found);
      RequestedStep(history.Contents(), missing, i);
    }
    assert missing[..|missing|] == missing;
    FinishPacking(packer);
    packs, sent := packer.packs, packer.sent;
  }

  /** Two entries that do not fit together: the first pack is lost once the second entry has been packed. */
  method LateReading(a: Entry, b: Entry, spare: nat -> nat) returns (packer: Packer)
    requires a.seqNo < b.seqNo && |a.payload| == |b.payload| == 250
    ensures packer.Owned() && packer.packs == [[a], [b]] && packer.Written() == [[b], [b]]
  {
    hide Packed, PackSize, SharedPacks, IsPacking, AllWrittenAs, Sorted, Tight, TightSoFar;
    packer := new Packer(spare);
    TooLargeTogether(a, b);
    assert [] + [a] == [a] && [a][0 := b] == [b];
    packer.PackOne(a);
    packer.PackOne(b);
    assert packer.Written() == [[b]];
    FinishPacking(packer);
  }

  lemma TooLargeTogether(a: Entry, b: Entry)
    requires |a.payload| == |b.payload| == 250
    ensures PackSize([a]) < MAX_MESSAGE_SIZE <= PackSize([a] + [b])
  {
    var both := [a] + [b];
    assert [a][..0] == [];
    assert EntriesSize([a]) == 263;
    assert both[..1] == [a] && both[1] == b;
  }

  /** The entries found for one range go to the packer one by one. */
  method PackFound(packer: Packer, found: seq<Entry>)
    requires packer.Valid()
    modifies packer.Repr
    ensures packer.Valid() && fresh(packer.Repr - old(packer.Repr)) && packer.taken == old(packer.taken) + found
  {
    hide *;
    ghost var before := packer.taken;
    for j := 0 to |found|
      invariant packer.Valid() && fresh(packer.Repr - old(packer.Repr)) && packer.taken == before + found[..j]
    {
      packer.PackOne(found[j]);
      assert before + found[..j] + [found[j]] == before + found[..j + 1];
    }
    assert found[..|found|] == found;
  }

  /** After the last range what is left is sent. */
  method FinishPacking(packer: Packer)
    requires packer.Valid()
    modifies packer
    ensures packer.Owned() && packer.Repr == old(packer.Repr) && packer.taken == old(packer.taken)
    ensures IsPacking(packer.packs, packer.taken) && Tight(packer.packs)
    ensures SharedPacks(packer.packs, packer.sent, packer.taken)
    ensures var last := old(packer.StoryEntries()); var rest := if last == [] then [] else [last];
      packer.packs == old(packer.packs) + rest && packer.Written() == old(packer.Written()) + rest
  {
    hide Packed, Sorted, IsPacking, WrittenAs, Overlay, HoldOnly, TightSoFar, Tight;
    ghost var was, all, written := packer.StoryEntries(), packer.taken, packer.Written();
    AllPacked(packer.packs, was, all);
    AllTight(packer.packs, was);
    LastIsWhole(packer.packs, written, was, all);
    if packer.len > 0 {
      packer.Send(packer.len);
    }
    assert packer.Written() == written + if was == [] then [] else [was];
    WrittenIsShared(packer.packs, packer.sent, packer.Written(), all);
  }

  lemma LastIsWhole(packs: seq<seq<Entry>>, written: seq<seq<Entry>>, carried: seq<Entry>, taken: seq<Entry>)
    requires Packed(packs, carried, taken) && |written| == |packs| && HoldOnly(written, taken)
    requires Sorted(taken) ==> AllWrittenAs(packs, written)
    requires packs != [] ==> written[|packs| - 1] == Overlay(carried, packs[|packs| - 1])
    ensures var rest := if carried == [] then [] else [carried]; var ps, now := packs + rest, written + rest;
      && HoldOnly(now, taken) && (Sorted(taken) ==> AllWrittenAs(ps, now))
      && (ps != [] ==> now[|ps| - 1] == ps[|ps| - 1])
  {
    AllPacked(packs, carried, taken);
    AsPacked(carried);
    hide *;
    if carried == [] {
      assert packs + [] == packs && written + [] == written;
      if packs != [] { NothingOver(packs[|packs| - 1]); }
    } else {
      OneMoreHeld(written, carried, taken);
      if Sorted(taken) { OneMoreAsPacked(packs, written, carried); }
    }
  }

  lemma AsPacked(pack: seq<Entry>)
    ensures WrittenAs(pack, pack)
  {
  }

  lemma NothingOver(pack: seq<Entry>)
    ensures Overlay([], pack) == pack
  {
  }

  lemma OneMoreHeld(written: seq<seq<Entry>>, pack: seq<Entry>, es: seq<Entry>)
    requires HoldOnly(written, es) && forall k :: 0 <= k < |pack| ==> pack[k] in es
    ensures HoldOnly(written + [pack], es)
  {
  }

  lemma OneMoreAsPacked(packs: seq<seq<Entry>>, written: seq<seq<Entry>>, pack: seq<Entry>)
    requires AllWrittenAs(packs, written) && WrittenAs(pack, pack)
    ensures AllWrittenAs(packs + [pack], written + [pack])
  {
    hide WrittenAs;
  }

  lemma WrittenIsShared(packs: seq<seq<Entry>>, sent: seq<Slice>, written: seq<seq<Entry>>, es: seq<Entry>)
    requires |written| == |sent| == |packs|
    requires forall i :: 0 <= i < |sent| ==> sent[i].len == |packs[i]| <= sent[i].data.Length
    requires forall i :: 0 <= i < |sent| ==> written[i] == sent[i].Held()
    requires HoldOnly(written, es) && (Sorted(es) ==> AllWrittenAs(packs, written))
    requires packs != [] ==> written[|packs| - 1] == packs[|packs| - 1]
    ensures SharedPacks(packs, sent, es)
  {
    hide Sorted, WrittenAs;
    forall i, e | 0 <= i < |sent| && e in sent[i].Held() ensures e in es { assert e in written[i]; }
  }
}
