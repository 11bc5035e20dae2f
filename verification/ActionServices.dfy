/**
 * The two ends of the action protocol in the form the program gives them (udpstar/client/service_action.go,
 * udpstar/server/service_client.go). Every handler is proved to take a step of the protocol, so that what the
 * protocol keeps over whole runs holds for the fields of these classes.
 */
module ActionServices {
  import opened Ranges
  import opened RangeSets
  import opened Streams
  import opened StreamQueues
  import opened Engines
  import opened EngineStore
  import opened StoryPacks
  import opened Recents
  import RecentStore
  import StoryServices
  import opened ActionProtocol

  /** How long the resend timer waits next. */
  datatype Delay = Pushback | Milliseconds(n: nat) | Idle

  /** The delay by the number of resends that were not answered. */
  function DelayAfter(unanswered: nat): Delay {
    if unanswered == 1 then Pushback else if 2 <= unanswered <= 7 then Milliseconds(100 * unanswered) else Idle
  }

  function CountAfter(unanswered: nat): nat {
    if 1 <= unanswered <= 7 then unanswered + 1 else unanswered
  }

  /** One actor of a client: its numbering, the actions it keeps, and how often it was not answered. */
  class ActionSender {
    const enumerator: StoryServices.Enumerator
    const actions: RecentStore.Recent
    var unansweredCount: nat

    ghost predicate Valid()
      reads this, enumerator, actions, actions.entries
    {
      && actions.Valid() && actions.entries.Length == ACTION_BUFFER_CAPACITY
      && actions.maxRecentTotalDelay == ACTION_EXPIRE_DURATION
      && actions.maxRecentTotalByteSize == ACTION_BYTE_LIMIT
      && unansweredCount == 0
    }

    constructor ()
      ensures Valid() && actions.slots == [] && enumerator.lastSeq == 0
      ensures fresh(enumerator) && fresh(actions) && fresh(actions.entries)
    {
      enumerator := new StoryServices.Enumerator();
      var ring := new RecentStore.Recent(ACTION_BUFFER_CAPACITY);
      ring.maxRecentTotalByteSize := ACTION_BYTE_LIMIT;
      ring.maxRecentTotalDelay := ACTION_EXPIRE_DURATION;
      actions := ring;
      unansweredCount := 0;
    }

    /** An action from the input channel; the pack is sent unless it is empty. */
    method Act(now: int, payload: Payload) returns (pack: seq<Entry>, ghost delay: int)
      requires Valid()
      modifies enumerator, actions, actions.entries
      ensures Valid() && enumerator.lastSeq == old(enumerator.lastSeq) + 1 && enumerator.lastAt == Some(now)
      ensures delay == if old(enumerator.lastAt) == None then 0 else now - old(enumerator.lastAt).value
      ensures actions.slots ==
              Pushed(ACTION_BUFFER_CAPACITY, old(actions.slots), Entry(enumerator.lastSeq, delay, payload))
      ensures SendsRecent(actions.slots, pack)
    {
      var entry := enumerator.Push(now, payload);
      delay := entry.delay;
      actions.Push(entry);
      pack := actions.Recent();
    }

    /** The resend timer: the recent actions go out. It always waits for the idle delay next. */
    method Resend() returns (pack: seq<Entry>, delay: Delay)
      requires Valid()
      modifies this
      ensures Valid() && SendsRecent(actions.slots, pack) && delay == Idle
    {
      delay := DelayAfter(unansweredCount);
      unansweredCount := CountAfter(unansweredCount);
      pack := actions.Recent();
    }

    /** A confirm: drops what it acknowledges and returns what it asks for; idle says that nothing is kept. */
    method Confirmed(msg: Confirm) returns (missing: seq<Entry>, idle: bool)
      requires Valid()
      modifies this, actions, actions.entries
      ensures Valid()
      ensures actions.slots == Acknowledged(old(actions.slots), msg.lastSeq)
      ensures missing == Requested(Entries(actions.slots), msg.missing)
      ensures idle <==> Entries(actions.slots) == []
    {
      unansweredCount := 0;
      actions.RemoveFn(s => s <= msg.lastSeq);
      ghost var ring := actions.slots;
      missing := [];
      hide Requested;
      NothingRequested(Entries(ring));
      for i := 0 to |msg.missing|
        invariant Valid() && actions.slots == ring
        invariant missing == Requested(Entries(ring), msg.missing[..i])
      {
        var kept := actions.Iterate();
        var found := KeptIn(kept, msg.missing[i]);
        missing := missing + found;
        RequestedStep(Entries(ring), msg.missing, i);
      }
      assert msg.missing[..|msg.missing|] == msg.missing;
      var n := actions.Len();
      idle := n == 0;
    }
  }

  /** The inner loop of Confirmed: the kept actions with numbers in a range. */
  method KeptIn(kept: seq<Entry>, r: Range) returns (found: seq<Entry>)
    ensures found == Histories.InRange(kept, r)
  {
    found := [];
    for j := 0 to |kept|
      invariant found == Histories.InRange(kept[..j], r)
    {
      assert kept[..j + 1][..j] == kept[..j];
      if r.In(kept[j].seqNo) {
        found := found + [kept[j]];
      }
    }
    assert kept[..|kept|] == kept;
  }

  /** One remote actor on the server: its stream, its missing set, and what went to its channel. */
  class ActionReceiver {
    const stream: Stream
    const missing: RangeSet
    ghost var delivered: seq<Entry>
    var channel: seq<Payload>

    ghost predicate Valid()
      reads this, stream, stream.Repr, missing, missing.Repr
    {
      && stream.Valid() && missing.Valid() && stream.Repr !! missing.Repr
      && this !in stream.Repr && this !in missing.Repr
      && WellFormed(stream.State())
      && |channel| == |delivered| && forall i :: 0 <= i < |channel| ==> channel[i] == delivered[i].payload
    }

    ghost function State(): Server
      reads this, stream, missing
    {
      Server(stream.State(), missing.Model(), delivered)
    }

    constructor ()
      ensures Valid() && State() == Server(NewStream(1, ACTION_EXPIRE_DURATION), {}, [])
    {
      stream := new Stream(1, ACTION_EXPIRE_DURATION);
      missing := new RangeSet();
      delivered, channel := [], [];
      new;
      DenoteEmpty();
    }

    /** A pack from the client: delivers actions in order and answers with a confirm. */
    method HandleActionPack(now: int, pack: seq<Entry>) returns (confirm: Confirm, ghost slice: seq<Range>)
      requires Valid()
      modifies this, stream.Repr, missing.Repr
      ensures Valid() && Handles(old(State()), pack, now, slice, confirm, State())
    {
      hide Denote, Canonical, Kept, Sorted;
      var actions, _ := Engine(pack, stream, missing, now);
      var lastActionSeq := stream.lastSeq;
      slice := missing.ranges;
      var ranges := missing.AsSlice();
      if |ranges| > ACTION_BUFFER_CAPACITY {
        ranges := ranges[|ranges| - ACTION_BUFFER_CAPACITY..];
      }
      Deliver(actions);
      confirm := Confirm(lastActionSeq, ranges);
    }

    /** Puts the payloads of the actions on the actor's channel. */
    method Deliver(actions: seq<Entry>)
      requires |channel| == |delivered| && forall i :: 0 <= i < |channel| ==> channel[i] == delivered[i].payload
      modifies this
      ensures |channel| == |delivered| && forall i :: 0 <= i < |channel| ==> channel[i] == delivered[i].payload
      ensures delivered == old(delivered) + actions
    {
      for i := 0 to |actions|
        invariant |channel| == |delivered| && forall j :: 0 <= j < |channel| ==> channel[j] == delivered[j].payload
        invariant delivered == old(delivered) + actions[..i]
      {
        channel := channel + [actions[i].payload];
        delivered := delivered + [actions[i]];
      }
      assert actions[..|actions|] == actions;
    }
  }
}
