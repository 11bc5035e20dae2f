/**
 * The two ends of the story protocol in the form the program gives them (udpstar/server/service_session.go,
 * udpstar/client/service_story.go). Every handler is proved to take a step of the protocol, so that what the
 * protocol keeps over whole runs holds for the fields of these classes.
 */
module StoryServices {
  import opened Ranges
  import opened RangeSets
  import opened Seqs
  import opened Streams
  import opened StreamQueues
  import opened Engines
  import opened EngineStore
  import opened Histories
  import opened HistoryStore
  import opened MessageSizes
  import opened StoryPacks
  import opened StoryPacker
  import opened StoryProtocol

  /** Numbers the payloads of one source and measures the time between them (sequence/enumerator.go). */
  class Enumerator {
    var lastAt: Option<int>
    var lastSeq: nat

    constructor ()
      ensures lastSeq == 0 && lastAt == None
    {
      lastAt, lastSeq := None, 0;
    }

    method Push(now: int, payload: Payload) returns (e: Entry)
      modifies this
      ensures lastSeq == old(lastSeq) + 1 && lastAt == Some(now)
      ensures e == Entry(lastSeq, if old(lastAt) == None then 0 else now - old(lastAt).value, payload)
    {
      var delay := 0;
      if lastAt != None {
        delay := now - lastAt.value;
      }
      lastSeq := lastSeq + 1;
      lastAt := Some(now);
      e := Entry(lastSeq, delay, payload);
    }
  }

  lemma NumberedMore(log: seq<Entry>, e: Entry)
    requires Numbered(log) && e.seqNo == |log| + 1
    ensures Numbered(log + [e])
  {
  }

  lemma NoLimits(es: seq<Entry>)
    ensures Trimmed(es, Limits(0, 0, 0)) == es
  {
  }

  /** One story on the server: its numbering and its unlimited history. */
  class StoryServer {
    const enumerator: Enumerator
    const history: History

    ghost predicate Valid()
      reads this, enumerator, history, history.Repr
    {
      && history.Valid() && enumerator !in history.Repr && this !in history.Repr
      && history.lim == Limits(0, 0, 0) && Numbered(history.Contents())
      && enumerator.lastSeq == history.lastSeq == |history.Contents()|
    }

    constructor ()
      ensures Valid() && history.Contents() == [] && fresh(history.Repr) && fresh(enumerator)
    {
      enumerator := new Enumerator();
      history := new History(0, 0, 0);
    }

    /** A payload from the story channel: the pack goes to all clients. */
    method Publish(now: int, payload: Payload) returns (pack: seq<Entry>, ghost delay: int)
      requires Valid()
      modifies enumerator, history.Repr
      ensures Valid() && fresh(history.Repr - old(history.Repr)) && enumerator.lastAt == Some(now)
      ensures delay == if old(enumerator.lastAt) == None then 0 else now - old(enumerator.lastAt).value
      ensures Publishes(old(history.Contents()), payload, delay, pack, history.Contents())
    {
      hide Trimmed, IsGreedyFit, Sorted, Flat, TotalSize, Numbered;
      ghost var log := history.Contents();
      var entry := enumerator.Push(now, payload);
      delay := entry.delay;
      NumberedMore(log, entry);
      history.Push(entry);
      NoLimits(log + [entry]);
      pack := history.RecentX(0, 0, RECENT_SIZE);
    }

    /** A confirm from a client: the packs that answer it, and the slices that the receiver writes to the network. */
    method HandleStoryConfirm(confirm: Confirm, spare: nat -> nat)
      returns (packs: seq<seq<Entry>>, sent: seq<Slice>)
      requires Valid() && forall i :: 0 <= i < |confirm.missing| ==> confirm.missing[i].Valid()
      ensures confirm.missing == [] ==> packs == [] && sent == []
      ensures confirm.missing != [] ==>
                IsPacking(packs, Requested(history.Contents(), confirm.missing)) && Tight(packs)
      ensures SharedPacks(packs, sent, Requested(history.Contents(), confirm.missing))
      ensures forall i :: 0 <= i < |sent| ==> fresh(sent[i].data)
    {
      if |confirm.missing| == 0 {
        return [], [];
      }
      packs, sent := Retransmit(history, confirm.missing, spare);
    }
  }

  /** Sends a list of ranges as confirms of at most 60 ranges each, the last one possibly empty. */
  method SendConfirm(lastSeq: nat, ranges: seq<Range>) returns (sent: seq<Confirm>)
    ensures IsSplit(sent, lastSeq, ranges)
    ensures forall i :: 0 <= i < |sent| ==> sent[i].lastSeq == lastSeq && |sent[i].missing| <= 60
  {
    hide Flat;
    FlatEmpty<Range>();
    sent := [];
    var missing := [];
    assert Missings(sent) == [];
    for i := 0 to |ranges|
      invariant |missing| < LEN_STORY_CONFIRM && Flat(Missings(sent)) + missing == ranges[..i]
      invariant forall j :: 0 <= j < |sent| ==> sent[j].lastSeq == lastSeq && |sent[j].missing| == LEN_STORY_CONFIRM
    {
      missing := missing + [ranges[i]];
      if |missing| == LEN_STORY_CONFIRM {
        SentMore(sent, Confirm(lastSeq, missing));
        sent := sent + [Confirm(lastSeq, missing)];
        missing := [];
      }
    }
    SentMore(sent, Confirm(lastSeq, missing));
    sent := sent + [Confirm(lastSeq, missing)];
    assert ranges[..|ranges|] == ranges;
  }

  lemma SentMore(sent: seq<Confirm>, c: Confirm)
    ensures Flat(Missings(sent + [c])) == Flat(Missings(sent)) + c.missing
  {
    assert Missings(sent + [c]) == Missings(sent) + [c.missing];
    FlatConcat(Missings(sent), [c.missing]);
    FlatOne(c.missing);
  }

  /** One story on a client: its stream, its missing set, and what went to the story channel. */
  class StoryClient {
    const stream: Stream
    const missing: RangeSet
    var channel: seq<Payload>

    ghost predicate Valid()
      reads this, stream, stream.Repr, missing, missing.Repr
    {
      && stream.Valid() && missing.Valid() && stream.Repr !! missing.Repr
      && this !in stream.Repr && this !in missing.Repr
      && WellFormed(stream.State())
    }

    ghost function State(): Client
      reads this, stream, missing
    {
      Client(stream.State(), missing.Model(), channel)
    }

    constructor ()
      ensures Valid() && State() == Client(NewStream(1, 0), {}, [])
    {
      stream := new Stream(1, 0);
      missing := new RangeSet();
      channel := [];
      new;
      DenoteEmpty();
    }

    /** A pack from the server: delivers payloads and confirms, asking for what is newly missing. */
    method HandlePack(now: int, pack: seq<Entry>) returns (sent: seq<Confirm>, ghost newly: seq<Range>)
      requires Valid()
      modifies this, stream.Repr, missing.Repr
      ensures Valid()
      ensures Receives(old(State()), pack, now, newly, sent, State())
    {
      hide IsSplit, Denote, Canonical, Kept, Sorted;
      var events, newlyMissing := Engine(pack, stream, missing, now);
      newly := newlyMissing;
      Deliver(events);
      sent := SendConfirm(stream.lastSeq, newlyMissing);
    }

    /** Puts the payloads of the events on the story channel. */
    method Deliver(events: seq<Entry>)
      modifies this
      ensures channel == old(channel) + Payloads(events)
    {
      for i := 0 to |events|
        invariant channel == old(channel) + Payloads(events[..i])
      {
        channel := channel + [events[i].payload];
        assert Payloads(events[..i + 1]) == Payloads(events[..i]) + [events[i].payload];
      }
      assert events[..|events|] == events;
    }

    /** The request timer: asks for everything that is missing. */
    method RequestTimer() returns (sent: seq<Confirm>)
      requires Valid()
      ensures Requests(State(), missing.ranges, sent)
    {
      var ranges := missing.AsSlice();
      sent := SendConfirm(stream.lastSeq, ranges);
    }
  }
}
