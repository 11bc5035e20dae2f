/** Retransmitted packs on the wire. */
module StoryWire {
  import opened Streams
  import opened Seqs
  import opened Histories
  import opened Messages
  import opened MessageLaws
  import opened MessageReaders
  import opened MessageSizes
  import opened StoryPacks
  import opened StoryProtocol

  /** The packer of retransmissions measures packs by the bytes they take on the wire. */
  lemma PackSizeIsLength(session: nat, story: nat, es: seq<Entry>)
    requires Puttable(StoryPack(session, story, es))
    ensures PackSize(es) == |Encode(StoryPack(session, story, es))|
  {
    SizeIsLength(StoryPack(session, story, es));
  }

  ghost predicate Transferable(es: seq<Entry>) {
    forall e :: e in es ==> IsWord(e.seqNo) && IsDuration(e.delay) && |e.payload| <= 254
  }

  /**
   * Every pack that answers a request, whatever is left of it, is parsed to just the entries that are written. As it
   * was packed it fits a datagram.
   */
  lemma RetransmissionSurvives(session: nat, story: nat, packs: seq<seq<Entry>>, written: seq<seq<Entry>>,
                               es: seq<Entry>, i: nat)
    requires IsPacking(packs, es) && Rewritten(packs, written, es) && Transferable(es) && i < |packs|
    requires IsWord(session) && IsWord(story)
    ensures var m := StoryPack(session, story, written[i]);
      && Encodable(m) && Puttable(m) && Parse(StoryServer, Encode(m)) == Some(m)
      && |Encode(m)| == PackSize(written[i]) && (written[i] == packs[i] ==> |Encode(m)| < 508)
  {
    var m := StoryPack(session, story, written[i]);
    forall j | 0 <= j < |written[i]|
      ensures EntryPuttable(written[i][j]) && EntryInWidth(written[i][j]) && |written[i][j].payload| <= 254
    {
      assert written[i] in written && written[i][j] in written[i];
    }
    assert ShortPayloads(es) by {
      forall j | 0 <= j < |es| ensures |es[j].payload| <= 255 { assert es[j] in es; }
    }
    PackBounds(packs, es);
    assert WrittenAs(packs[i], written[i]);
    PackSizeIsLength(session, story, written[i]);
    hide Encode, Parse;
    ParseRoundTrip(m, []);
    assert Encode(m) + [] == Encode(m);
  }

  /** An entry of one byte overwritten by one of 254: the pack that is written is too large for a datagram. */
  lemma OverwrittenIsTooLarge(session: nat, story: nat, a: Entry, b: Entry, c: Entry)
    requires a.seqNo < b.seqNo < c.seqNo && Transferable([a, b, c])
    requires |a.payload| == 1 && |b.payload| == |c.payload| == 254
    ensures PackSize([a, b]) < 508 <= PackSize([a, b] + [c]) && WrittenAs([a, b], [a, b][0 := c])
    ensures |Encode(StoryPack(session, story, [a, b][0 := c]))| > 508
  {
    var now := [a, b][0 := c];
    assert now == [c, b] && [a, b] + [c] == [a, b, c];
    assert b in [a, b, c] && c in [a, b, c];
    SizeOfTwo(a, b);
    SizeOfTwo(c, b);
    assert [a, b, c][..2] == [a, b];
    PackSizeIsLength(session, story, now);
  }

  lemma SizeOfTwo(a: Entry, b: Entry)
    ensures PackSize([a, b]) == 41 + |a.payload| + |b.payload|
  {
    assert [a, b][..1] == [a] && [a][..0] == [];
    assert EntriesSize([a]) == 13 + |a.payload|;
  }

  // ---- published packs on the wire ----

  /**
   * A pack of recent entries can be put into a message if and only if its payloads have at most 255 bytes and
   * the last 256 entries, if there are as many, hold more payload than a pack may carry. Otherwise the
   * serializer panics.
   */
  lemma PublishedPackIsPuttable(session: nat, story: nat, log: seq<Entry>, pack: seq<Entry>)
    requires IsGreedyFit(pack, log, Limits(0, 0, 444)) && forall e :: e in log ==> IsDuration(e.delay)
    ensures Puttable(StoryPack(session, story, pack)) <==>
              && (forall i :: 0 <= i < |pack| ==> |pack[i].payload| <= 255)
              && (|log| < 256 || TotalSize(Last(log, 256)) > 444)
  {
    assert pack == Last(log, |pack|);
    forall i | 0 <= i < |pack| ensures IsDuration(pack[i].delay) { assert pack[i] in log; }
    AtMostIffTooLarge(log, pack, 255);
    hide IsGreedyFit;
  }

  /** The recent entries that are published with a payload: the last ones, of at most 444 bytes and no fewer. */
  lemma PublishedPackIsRecent(log: seq<Entry>, payload: seq<Byte>, delay: int, pack: seq<Entry>, log': seq<Entry>)
    requires Publishes(log, payload, delay, pack, log')
    ensures log' == log + [Entry(|log| + 1, delay, payload)]
    ensures |pack| <= |log'| && pack == log'[|log'| - |pack|..] && (pack != [] ==> TotalSize(pack) <= 444)
    ensures |pack| < |log'| ==> TotalSize(log'[|log'| - |pack| - 1..]) > 444
  {
    if pack != [] { assert Fits(Last(log', |pack|), Limits(0, 0, 444)); }
    hide TotalSize;
  }

  lemma AtMostIffTooLarge(log: seq<Entry>, pack: seq<Entry>, n: nat)
    requires IsGreedyFit(pack, log, Limits(0, 0, 444))
    ensures |pack| <= n <==> |log| <= n || TotalSize(Last(log, n + 1)) > 444
  {
    if |pack| <= n < |log| {
      var longer, shorter := Last(log, n + 1), Last(log, |pack| + 1);
      assert longer[n - |pack|..] == shorter;
      TotalsOfDrop(longer, n - |pack|);
    }
  }

  lemma {:induction false} TinyTotal(es: seq<Entry>)
    requires forall i :: 0 <= i < |es| ==> |es[i].payload| == 1
    ensures TotalSize(es) == |es|
  {
    if es != [] { TinyTotal(es[..|es| - 1]); }
  }

  /** Of 256 entries of one byte each all are recent, and the pack of them cannot be put into a message. */
  lemma TooManyTinyEntries(session: nat, story: nat, log: seq<Entry>)
    requires |log| == 256 && forall i :: 0 <= i < |log| ==> |log[i].payload| == 1
    ensures IsGreedyFit(log, log, Limits(0, 0, 444)) && !Puttable(StoryPack(session, story, log))
  {
    assert Last(log, 256) == log;
    forall k | 1 <= k <= 256 ensures TotalSize(Last(log, k)) == k { TinyTotal(Last(log, k)); }
  }
}
