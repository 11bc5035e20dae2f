/** The story protocol, over a network that may lose, duplicate and reorder. */
module StoryProtocol {
  // A server publishes and retransmits; clients reassemble and ask for what is missing. What was sent once
  // may arrive any number of times, in any order, or never.

  import opened Ranges
  import opened Seqs
  import opened Streams
  import opened StreamLaws
  import opened Engines
  import opened Confluence
  import opened Histories
  import opened MessageSizes
  import opened StoryPacks


  type Payload = seq<Byte>

  datatype Confirm = Confirm(lastSeq: nat, missing: seq<Range>)

  /** A client's stream, its missing set, and what it has put on its story channel. */
  datatype Client = Client(stream: StreamState, missing: set<int>, out: seq<Payload>)

  /**
   * The server's history and every message ever sent. A message that is never received was lost; a
   * message stays in its set, so it can be received again, and in any order.
   */
  datatype World = World(log: seq<Entry>, packs: set<seq<Entry>>, confirms: set<Confirm>, clients: seq<Client>)

  datatype Step =
    | Publish(payload: Payload, delay: int, pack: seq<Entry>)
    | Receive(c: nat, pack: seq<Entry>, now: int, newly: seq<Range>, sent: seq<Confirm>)
    | RequestTimer(c: nat, slice: seq<Range>, sent: seq<Confirm>)
    | Answer(confirm: Confirm, answer: seq<seq<Entry>>)

  function Payloads(es: seq<Entry>): seq<Payload> {
    seq(|es|, i requires 0 <= i < |es| => es[i].payload)
  }

  function Missings(cs: seq<Confirm>): seq<seq<Range>> {
    seq(|cs|, i requires 0 <= i < |cs| => cs[i].missing)
  }

  /** cs are the confirms sent for a list of ranges: full ones, and one more for the rest, even if empty. */
  ghost predicate IsSplit(cs: seq<Confirm>, lastSeq: nat, ranges: seq<Range>) {
    && cs != [] && Flat(Missings(cs)) == ranges
    && (forall i :: 0 <= i < |cs| ==> cs[i].lastSeq == lastSeq)
    && (forall i :: 0 <= i < |cs| - 1 ==> |cs[i].missing| == LEN_STORY_CONFIRM)
    && |cs[|cs| - 1].missing| < LEN_STORY_CONFIRM
  }

  ghost predicate Init(w: World) {
    && w.log == [] && w.packs == {} && w.confirms == {}
    && forall c :: 0 <= c < |w.clients| ==> w.clients[c] == Client(NewStream(1, 0), {}, [])
  }

  /** A payload is numbered and stored, and pack is the recent entries that go to all clients. */
  ghost predicate Publishes(log: seq<Entry>, payload: Payload, delay: int, pack: seq<Entry>, log': seq<Entry>) {
    && log' == log + [Entry(|log| + 1, delay, payload)]
    && IsGreedyFit(pack, log', Limits(0, 0, RECENT_SIZE))
  }

  /** A client delivers what it can of a pack and asks for the gaps it did not know. */
  ghost predicate Receives(cl: Client, pack: seq<Entry>, now: int, newly: seq<Range>, sent: seq<Confirm>, cl': Client) {
    var (t, r) := Push(cl.stream, now, pack);
    var kept := Kept(cl.missing, pack, t.lastSeq);
    && Canonical(newly) && Denote(newly) == Outstanding(t) - kept
    && IsSplit(sent, t.lastSeq, newly)
    && cl' == Client(t, kept + Outstanding(t), cl.out + Payloads(r))
  }

  /** A client asks again for everything it misses. */
  ghost predicate Requests(cl: Client, slice: seq<Range>, sent: seq<Confirm>) {
    Canonical(slice) && Denote(slice) == cl.missing && IsSplit(sent, cl.stream.lastSeq, slice)
  }

  /** The server takes a payload from its story channel. */
  ghost predicate CanPublish(w: World, a: Step, w': World)
    requires a.Publish?
  {
    && Publishes(w.log, a.payload, a.delay, a.pack, w'.log)
    && w' == w.(log := w'.log, packs := w.packs + {a.pack})
  }

  /** A client takes a pack from the network. */
  ghost predicate CanReceive(w: World, a: Step, w': World)
    requires a.Receive?
  {
    && a.c < |w.clients| && a.pack in w.packs && |w'.clients| == |w.clients|
    && Receives(w.clients[a.c], a.pack, a.now, a.newly, a.sent, w'.clients[a.c])
    && w' == w.(clients := w.clients[a.c := w'.clients[a.c]], confirms := w.confirms + set x | x in a.sent)
  }

  /** A client's request timer fires. */
  ghost predicate CanRequest(w: World, a: Step, w': World)
    requires a.RequestTimer?
  {
    && a.c < |w.clients| && Requests(w.clients[a.c], a.slice, a.sent)
    && w' == w.(confirms := w.confirms + set x | x in a.sent)
  }

  /**
   * The server takes a confirm from the network and sends packs of its log. What it puts on the channel are
   * just the entries asked for, but a pack may have changed by the time it is written to the network.
   */
  ghost predicate CanAnswer(w: World, a: Step, w': World)
    requires a.Answer?
  {
    && a.confirm in w.confirms && a.confirm.missing != []
    && (forall p :: p in a.answer ==> FromLog(p, w.log))
    && w' == w.(packs := w.packs + set x | x in a.answer)
  }

  /** Packs of entries asked for are such a step, whatever became of them after they were packed. */
  lemma RequestedCanAnswer(w: World, confirm: Confirm, answer: seq<seq<Entry>>)
    requires Ok(w) && confirm in w.confirms && confirm.missing != []
    requires forall p, e :: p in answer && e in p ==> e in Requested(w.log, confirm.missing)
    ensures CanAnswer(w, Answer(confirm, answer), w.(packs := w.packs + set x | x in answer))
  {
    RequestedFromLog(w.log, confirm.missing, answer);
  }

  ghost predicate Next(w: World, a: Step, w': World) {
    match a
    case Publish(_, _, _) => CanPublish(w, a, w')
    case Receive(_, _, _, _, _) => CanReceive(w, a, w')
    case RequestTimer(_, _, _) => CanRequest(w, a, w')
    case Answer(_, _) => CanAnswer(w, a, w')
  }

  /** A run: states ws and the steps between them. */
  ghost predicate IsRun(ws: seq<World>, steps: seq<Step>) {
    && |ws| == |steps| + 1 && Init(ws[0])
    && forall i :: 0 <= i < |steps| ==> Next(ws[i], steps[i], ws[i + 1])
  }

  // ---- the invariant ----

  ghost predicate Numbered(log: seq<Entry>) {
    forall i :: 0 <= i < |log| ==> log[i].seqNo == i + 1
  }

  /** es are entries of the log. */
  ghost predicate FromLog(es: seq<Entry>, log: seq<Entry>) {
    forall i :: 0 <= i < |es| ==> 1 <= es[i].seqNo <= |log| && es[i] == log[es[i].seqNo - 1]
  }

  /** The client has delivered exactly the log up to lastSeq, holds entries of the log, and knows its gaps. */
  ghost predicate ClientOk(cl: Client, log: seq<Entry>) {
    && WellFormed(cl.stream) && cl.stream.maxWait == 0 && cl.stream.lastSeq <= |log|
    && Genuine(cl.stream.ahead, Payloads(log))
    && cl.missing == Outstanding(cl.stream)
    && cl.out == Payloads(log)[..cl.stream.lastSeq]
  }

  ghost predicate Ok(w: World) {
    && Numbered(w.log)
    && (forall p :: p in w.packs ==> FromLog(p, w.log))
    && (forall c :: 0 <= c < |w.clients| ==> ClientOk(w.clients[c], w.log))
  }

  lemma FromLogGenuine(es: seq<Entry>, log: seq<Entry>)
    requires FromLog(es, log)
    ensures Genuine(es, Payloads(log))
  {
  }

  /** What a client does with a pack of log entries. */
  lemma ReceiveOk(cl: Client, log: seq<Entry>, pack: seq<Entry>, now: int)
    requires ClientOk(cl, log) && FromLog(pack, log)
    ensures var (t, r) := Push(cl.stream, now, pack);
      ClientOk(Client(t, Kept(cl.missing, pack, t.lastSeq) + Outstanding(t), cl.out + Payloads(r)), log)
  {
    var (t, r) := Push(cl.stream, now, pack);
    PushClimbs(cl.stream, now, pack);
    PushExact(cl.stream, now, pack);
    FromLogGenuine(pack, log);
    PushGenuine(cl.stream, now, pack, Payloads(log));
    Agreement(cl.stream, now, pack);
    DeliveredIsNext(cl.stream.lastSeq, t.lastSeq, r, log);
  }

  /** Genuine entries numbered from+1..to carry exactly that stretch of the log. */
  lemma DeliveredIsNext(from: nat, to: nat, r: seq<Entry>, log: seq<Entry>)
    requires Chain(r) && Genuine(r, Payloads(log)) && from <= |log|
    requires r != [] ==> r[0].seqNo == from + 1 && r[|r| - 1].seqNo == to
    requires r == [] ==> to == from
    ensures to <= |log| && Payloads(log)[..from] + Payloads(r) == Payloads(log)[..to]
  {
    var ps := Payloads(log);
    if r != [] {
      assert forall i :: 0 <= i < |r| ==> r[i].seqNo == from + 1 + i;
      assert to == from + |r|;
      assert forall i :: 0 <= i < |r| ==> Payloads(r)[i] == ps[from + i];
    }
  }

  lemma LongerLog(cl: Client, log: seq<Entry>, e: Entry)
    requires ClientOk(cl, log)
    ensures ClientOk(cl, log + [e])
  {
    assert Payloads(log + [e]) == Payloads(log) + [e.payload];
  }

  // ---- every step keeps the invariant ----

  lemma AnswerFromLog(log: seq<Entry>, missing: seq<Range>, answer: seq<seq<Entry>>)
    requires Numbered(log) && IsPacking(answer, Requested(log, missing))
    ensures forall p :: p in answer ==> FromLog(p, log)
  {
    forall p, e | p in answer && e in p ensures e in Requested(log, missing) {
      FlatMember(answer, e);
    }
    RequestedFromLog(log, missing, answer);
  }

  lemma RequestedFromLog(log: seq<Entry>, missing: seq<Range>, answer: seq<seq<Entry>>)
    requires Numbered(log) && forall p, e :: p in answer && e in p ==> e in Requested(log, missing)
    ensures forall p :: p in answer ==> FromLog(p, log)
  {
    RequestedExact(log, missing);
    forall p | p in answer ensures FromLog(p, log) {
      forall i | 0 <= i < |p| ensures p[i] in log {
        assert p[i] in p;
      }
    }
  }

  lemma PublishOk(w: World, a: Step, w': World)
    requires Ok(w) && a.Publish? && CanPublish(w, a, w')
    ensures Ok(w')
  {
    var e := Entry(|w.log| + 1, a.delay, a.payload);
    RecentFromLog(w'.log, a.pack);
    hide FromLog, ClientOk, IsGreedyFit;
    forall p | p in w.packs ensures FromLog(p, w'.log) {
      FromLongerLog(p, w.log, e);
    }
    forall c | 0 <= c < |w.clients| ensures ClientOk(w.clients[c], w'.log) {
      LongerLog(w.clients[c], w.log, e);
    }
  }

  lemma RecentFromLog(log: seq<Entry>, pack: seq<Entry>)
    requires Numbered(log) && IsGreedyFit(pack, log, Limits(0, 0, RECENT_SIZE))
    ensures FromLog(pack, log)
  {
    hide Fits, FromLog, Numbered;
    SuffixFromLog(log, |pack|);
  }

  lemma SuffixFromLog(log: seq<Entry>, k: nat)
    requires Numbered(log) && k <= |log|
    ensures FromLog(log[|log| - k..], log)
  {
    var r := log[|log| - k..];
    forall i | 0 <= i < k ensures r[i].seqNo == |log| - k + i + 1 && r[i] == log[|log| - k + i] {
    }
  }

  lemma FromLongerLog(p: seq<Entry>, log: seq<Entry>, e: Entry)
    requires FromLog(p, log)
    ensures FromLog(p, log + [e])
  {
  }

  lemma StepOk(w: World, a: Step, w': World)
    requires Ok(w) && Next(w, a, w')
    ensures Ok(w') && |w'.clients| == |w.clients| && w.log <= w'.log
    ensures forall c :: 0 <= c < |w.clients| ==> w.clients[c].out <= w'.clients[c].out
  {
    match a
    case Publish(_, _, _) =>
      PublishOk(w, a, w');
    case Receive(_, _, _, _, _) =>
      ReceiveOk(w.clients[a.c], w.log, a.pack, a.now);
    case RequestTimer(_, _, _) =>
    case Answer(_, _) =>
  }

  lemma {:induction false} RunOk(ws: seq<World>, steps: seq<Step>)
    requires IsRun(ws, steps)
    ensures forall i :: 0 <= i < |ws| ==> Ok(ws[i])
  {
    if steps == [] {
      var w := ws[0];
      forall c | 0 <= c < |w.clients| ensures ClientOk(w.clients[c], w.log) {
        assert w.clients[c] == Client(NewStream(1, 0), {}, []);
      }
    } else {
      RunOk(ws[..|ws| - 1], steps[..|steps| - 1]);
      var n := |steps| - 1;
      assert ws[..|ws| - 1][n] == ws[n];
      StepOk(ws[n], steps[n], ws[n + 1]);
      forall i | 0 <= i < |ws| ensures Ok(ws[i]) {
        if i < |ws| - 1 { assert ws[..|ws| - 1][i] == ws[i]; }
      }
    }
  }

  /**
   * Safety over whole runs: whatever the network does, at every moment each client has put on its channel
   * a prefix of what the server published: in order, exactly once, payloads unchanged.
   */
  lemma StorySafety(ws: seq<World>, steps: seq<Step>, i: nat, c: nat)
    requires IsRun(ws, steps) && i < |ws| && c < |ws[i].clients|
    ensures ws[i].clients[c].out <= Payloads(ws[i].log)
    ensures i + 1 < |ws| ==> c < |ws[i + 1].clients| && ws[i].clients[c].out <= ws[i + 1].clients[c].out
  {
    RunOk(ws, steps);
    assert ClientOk(ws[i].clients[c], ws[i].log);
    if i + 1 < |ws| {
      StepOk(ws[i], steps[i], ws[i + 1]);
    }
  }
}
