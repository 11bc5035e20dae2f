/** The action protocol, over a network that may lose, duplicate and reorder. */
module ActionProtocol {
  // A client numbers its actions and keeps the last 32 of them; the server gives up waiting after three seconds.

  import opened Ranges
  import opened Streams
  import opened StreamLaws
  import opened StreamGaps
  import opened Engines
  import opened Confluence
  import opened Waiting
  import opened StoryPacks
  import opened Recents

  const ACTION_BUFFER_CAPACITY := 32
  const ACTION_EXPIRE_DURATION := 3_000_000_000  // nanoseconds
  const ACTION_BYTE_LIMIT := 384

  type Payload = seq<Byte>

  datatype Confirm = Confirm(lastSeq: nat, missing: seq<Range>)

  /** The server's side of one remote actor; out is everything delivered to the actor's channel. */
  datatype Server = Server(stream: StreamState, missing: set<int>, out: seq<Entry>)

  /** log is every action the client ever numbered, ring what it still keeps. */
  datatype World = World(
    log: seq<Payload>, ring: seq<Slot>, server: Server, packs: set<seq<Entry>>, confirms: set<Confirm>)

  datatype Step =
    | Act(payload: Payload, delay: int, pack: seq<Entry>)
    | Resend(pack: seq<Entry>)
    | Receive(pack: seq<Entry>, now: int, slice: seq<Range>, confirm: Confirm)
    | Confirmed(confirm: Confirm)

  ghost predicate Init(w: World) {
    w == World([], [], Server(NewStream(1, ACTION_EXPIRE_DURATION), {}, []), {}, {})
  }

  /** The pack of recent actions that the client sends. */
  ghost predicate SendsRecent(ring: seq<Slot>, pack: seq<Entry>) {
    IsRecent(pack, ring, ACTION_EXPIRE_DURATION, ACTION_BYTE_LIMIT)
  }

  /** The last n ranges of a list. */
  function LastRanges(rs: seq<Range>, n: nat): seq<Range> {
    if |rs| > n then rs[|rs| - n..] else rs
  }

  /** The server delivers what it can of a pack and answers with a confirm. */
  ghost predicate Handles(s: Server, pack: seq<Entry>, now: int, slice: seq<Range>, confirm: Confirm, s': Server) {
    var (t, r) := Streams.Push(s.stream, now, pack);
    var missing := Kept(s.missing, pack, t.lastSeq) + Outstanding(t);
    && s' == Server(t, missing, s.out + r)
    && Canonical(slice) && Denote(slice) == missing
    && confirm == Confirm(t.lastSeq, LastRanges(slice, ACTION_BUFFER_CAPACITY))
  }

  /** What the client keeps after a confirm. */
  function Acknowledged(ring: seq<Slot>, lastSeq: nat): seq<Slot> {
    Emptied(ring, s => s <= lastSeq)
  }

  /** The client takes an action, numbers it, keeps it and sends the recent ones. */
  ghost predicate CanAct(w: World, a: Step, w': World)
    requires a.Act?
  {
    && w'.ring == Pushed(ACTION_BUFFER_CAPACITY, w.ring, Entry(|w.log| + 1, a.delay, a.payload))
    && SendsRecent(w'.ring, a.pack)
    && w' == w.(log := w.log + [a.payload], ring := w'.ring,
                packs := if a.pack == [] then w.packs else w.packs + {a.pack})
  }

  /** The resend timer fires: the recent actions go out again, even if there are none. */
  ghost predicate CanResend(w: World, a: Step, w': World)
    requires a.Resend?
  {
    SendsRecent(w.ring, a.pack) && w' == w.(packs := w.packs + {a.pack})
  }

  ghost predicate CanReceive(w: World, a: Step, w': World)
    requires a.Receive?
  {
    && a.pack in w.packs
    && Handles(w.server, a.pack, a.now, a.slice, a.confirm, w'.server)
    && w' == w.(server := w'.server, confirms := w.confirms + {a.confirm})
  }

  /** The client takes a confirm: drops what it acknowledges and sends what it asks for, if it has any. */
  ghost predicate CanConfirm(w: World, a: Step, w': World)
    requires a.Confirmed?
  {
    var ring := Acknowledged(w.ring, a.confirm.lastSeq);
    var asked := Requested(Entries(ring), a.confirm.missing);
    && a.confirm in w.confirms
    && w' == w.(ring := ring, packs := if asked == [] then w.packs else w.packs + {asked})
  }

  ghost predicate Next(w: World, a: Step, w': World) {
    match a
    case Act(_, _, _) => CanAct(w, a, w')
    case Resend(_) => CanResend(w, a, w')
    case Receive(_, _, _, _) => CanReceive(w, a, w')
    case Confirmed(_) => CanConfirm(w, a, w')
  }

  ghost predicate IsRun(ws: seq<World>, steps: seq<Step>) {
    && |ws| == |steps| + 1 && Init(ws[0])
    && forall i :: 0 <= i < |steps| ==> Next(ws[i], steps[i], ws[i + 1])
  }

  // ---- the invariant ----

  /** Slot j of the ring belongs to action number `n`; an empty one was passed by the server. */
  ghost predicate SlotFits(slot: Slot, n: int, log: seq<Payload>, passed: nat)
    requires 1 <= n <= |log|
  {
    if slot.Hole? then n <= passed else slot.entry.seqNo == n && slot.entry.payload == log[n - 1]
  }

  /** The ring holds the last actions of the log, save for those up to `passed` that may be gone. */
  ghost predicate RingOk(ring: seq<Slot>, log: seq<Payload>, passed: nat) {
    && |ring| <= |log| && |ring| <= ACTION_BUFFER_CAPACITY
    && (forall j :: 0 <= j < |ring| ==> SlotFits(ring[j], |log| - |ring| + 1 + j, log, passed))
    && (|ring| < |log| && |ring| < ACTION_BUFFER_CAPACITY ==> |log| - |ring| <= passed)
  }

  ghost predicate ServerOk(s: Server, log: seq<Payload>) {
    && WellFormed(s.stream) && s.stream.maxWait == ACTION_EXPIRE_DURATION && Genuine(s.stream.ahead, log)
    && s.missing == Outstanding(s.stream)
    && Genuine(s.out, log) && Climbs(s.out, 0, s.stream.lastSeq)
  }

  ghost predicate PackOk(p: seq<Entry>, log: seq<Payload>) {
    Sorted(p) && Genuine(p, log)
  }

  ghost predicate ConfirmOk(c: Confirm, passed: nat) {
    c.lastSeq <= passed && Canonical(c.missing)
  }

  ghost predicate Ok(w: World) {
    && RingOk(w.ring, w.log, w.server.stream.lastSeq)
    && ServerOk(w.server, w.log)
    && (forall p :: p in w.packs ==> PackOk(p, w.log))
    && (forall c :: c in w.confirms ==> ConfirmOk(c, w.server.stream.lastSeq))
  }

  // ---- the ring ----

  lemma RingPush(ring: seq<Slot>, log: seq<Payload>, passed: nat, delay: int, payload: Payload)
    requires RingOk(ring, log, passed)
    ensures RingOk(Pushed(ACTION_BUFFER_CAPACITY, ring, Entry(|log| + 1, delay, payload)), log + [payload], passed)
  {
    var e := Entry(|log| + 1, delay, payload);
    var more := Later(ring, delay) + [Live(e, 0)];
    RingMore(ring, log, passed, delay, payload);
    hide RingOk, Later, DropHoles;
    RingDrop(if |ring| < ACTION_BUFFER_CAPACITY then more else more[1..], log + [payload], passed);
  }

  lemma RingMore(ring: seq<Slot>, log: seq<Payload>, passed: nat, delay: int, payload: Payload)
    requires RingOk(ring, log, passed)
    ensures var more := Later(ring, delay) + [Live(Entry(|log| + 1, delay, payload), 0)];
      RingOk(if |ring| < ACTION_BUFFER_CAPACITY then more else more[1..], log + [payload], passed)
  {
    var more := Later(ring, delay) + [Live(Entry(|log| + 1, delay, payload), 0)];
    var log' := log + [payload];
    forall j | 0 <= j < |more| ensures SlotFits(more[j], |log'| - |more| + 1 + j, log', passed) {
      if j < |ring| { assert SlotFits(ring[j], |log| - |ring| + 1 + j, log, passed); }
    }
    if |ring| == ACTION_BUFFER_CAPACITY {
      assert forall j :: 0 <= j < |more| - 1 ==> more[1..][j] == more[j + 1];
    }
  }

  lemma RingDrop(ring: seq<Slot>, log: seq<Payload>, passed: nat)
    requires RingOk(ring, log, passed)
    ensures RingOk(DropHoles(ring), log, passed)
  {
    DropHolesOk(ring);
    hide DropHoles;
    var r := DropHoles(ring);
    var gone := |ring| - |r|;
    assert forall j :: 0 <= j < |r| ==> r[j] == ring[gone + j];
    if gone > 0 {
      assert SlotFits(ring[gone - 1], |log| - |ring| + gone, log, passed);
    }
  }

  lemma RingAck(ring: seq<Slot>, log: seq<Payload>, passed: nat, lastSeq: nat)
    requires RingOk(ring, log, passed) && lastSeq <= passed
    ensures RingOk(Acknowledged(ring, lastSeq), log, passed)
  {
  }

  lemma RingPassed(ring: seq<Slot>, log: seq<Payload>, passed: nat, further: nat)
    requires RingOk(ring, log, passed) && passed <= further
    ensures RingOk(ring, log, further)
  {
  }

  /** The live entries of the ring are genuine and strictly increasing. */
  lemma {:induction false} RingEntries(ring: seq<Slot>, log: seq<Payload>, passed: nat, first: nat)
    requires first + |ring| <= |log| && 1 <= |log|
    requires forall j :: 0 <= j < |ring| ==> SlotFits(ring[j], first + 1 + j, log, passed)
    ensures PackOk(Entries(ring), log)
    ensures forall i :: 0 <= i < |Entries(ring)| ==> first < Entries(ring)[i].seqNo <= first + |ring|
    ensures forall j :: 0 <= j < |ring| && ring[j].Live? ==> ring[j].entry in Entries(ring)
  {
    if ring != [] {
      RingEntries(ring[..|ring| - 1], log, passed, first);
    }
  }

  lemma RingPack(ring: seq<Slot>, log: seq<Payload>, passed: nat)
    requires RingOk(ring, log, passed)
    ensures PackOk(Entries(ring), log)
  {
    if ring != [] { RingEntries(ring, log, passed, |log| - |ring|); }
  }

  // ---- every step keeps the invariant ----

  lemma PackLonger(p: seq<Entry>, log: seq<Payload>, more: Payload)
    requires PackOk(p, log)
    ensures PackOk(p, log + [more])
  {
  }

  lemma RecentOk(ring: seq<Slot>, log: seq<Payload>, passed: nat, pack: seq<Entry>)
    requires RingOk(ring, log, passed) && SendsRecent(ring, pack)
    ensures PackOk(pack, log)
  {
    hide *;
    RingPack(ring, log, passed);
    RecentIsSuffix(ring, pack);
    SuffixPackOk(Entries(ring), |pack|, log);
  }

  lemma RecentIsSuffix(ring: seq<Slot>, pack: seq<Entry>)
    requires SendsRecent(ring, pack)
    ensures |pack| <= |Entries(ring)| && pack == Entries(ring)[|Entries(ring)| - |pack|..]
  {
    hide Recents.Within, Entries;
  }

  lemma SuffixPackOk(es: seq<Entry>, k: nat, log: seq<Payload>)
    requires PackOk(es, log) && k <= |es|
    ensures PackOk(es[|es| - k..], log)
  {
  }

  lemma ActOk(w: World, a: Step, w': World)
    requires Ok(w) && a.Act? && CanAct(w, a, w')
    ensures Ok(w')
  {
    hide PackOk, RingOk, ServerOk, ConfirmOk, SendsRecent, Pushed;
    var passed := w.server.stream.lastSeq;
    RingPush(w.ring, w.log, passed, a.delay, a.payload);
    RecentOk(w'.ring, w'.log, passed, a.pack);
    ServerLonger(w.server, w.log, a.payload);
    forall p | p in w'.packs ensures PackOk(p, w'.log) {
      if p in w.packs { PackLonger(p, w.log, a.payload); }
    }
  }

  lemma ServerLonger(s: Server, log: seq<Payload>, more: Payload)
    requires ServerOk(s, log)
    ensures ServerOk(s, log + [more])
  {
    hide WellFormed, Climbs, Outstanding;
  }

  /** What a confirm asks for is a pack of the ring's own actions. */
  lemma AskedOk(es: seq<Entry>, missing: seq<Range>, log: seq<Payload>)
    requires PackOk(es, log) && Canonical(missing)
    ensures PackOk(Requested(es, missing), log)
  {
    hide Sorted, Canonical, Requested;
    RequestedExact(es, missing);
    RequestedSorted(es, missing);
    var asked := Requested(es, missing);
    assert forall i :: 0 <= i < |asked| ==> asked[i] in es;
  }

  lemma ConfirmedOk(w: World, a: Step, w': World)
    requires Ok(w) && a.Confirmed? && CanConfirm(w, a, w')
    ensures Ok(w')
  {
    var passed := w.server.stream.lastSeq;
    RingAck(w.ring, w.log, passed, a.confirm.lastSeq);
    RingPack(w'.ring, w.log, passed);
    AskedOk(Entries(w'.ring), a.confirm.missing, w.log);
    hide PackOk, RingOk, ServerOk, Acknowledged, Requested;
  }

  lemma HandleOk(s: Server, log: seq<Payload>, pack: seq<Entry>, now: int, slice: seq<Range>, confirm: Confirm,
                 s': Server)
    requires ServerOk(s, log) && PackOk(pack, log) && Handles(s, pack, now, slice, confirm, s')
    ensures ServerOk(s', log) && s.stream.lastSeq <= s'.stream.lastSeq && s.out <= s'.out
    ensures ConfirmOk(confirm, s'.stream.lastSeq)
  {
    hide Streams.Push, Kept, Missing, Denote;
    PushClimbs(s.stream, now, pack);
    PushGenuine(s.stream, now, pack, log);
    Agreement(s.stream, now, pack);
    var (t, r) := Streams.Push(s.stream, now, pack);
    hide WellFormed, Canonical, Genuine, Climbs;
    LastAreCanonical(slice, ACTION_BUFFER_CAPACITY);
    MoreDelivered(s.out, r, log, s.stream.lastSeq, t.lastSeq);
  }

  lemma LastAreCanonical(slice: seq<Range>, n: nat)
    requires Canonical(slice)
    ensures Canonical(LastRanges(slice, n))
  {
  }

  lemma MoreDelivered(out: seq<Entry>, r: seq<Entry>, log: seq<Payload>, from: nat, to: nat)
    requires Genuine(out, log) && Genuine(r, log) && Climbs(out, 0, from) && Climbs(r, from, to)
    ensures Genuine(out + r, log) && Climbs(out + r, 0, to)
  {
  }

  lemma ConfirmFurther(c: Confirm, passed: nat, further: nat)
    requires ConfirmOk(c, passed) && passed <= further
    ensures ConfirmOk(c, further)
  {
  }

  lemma ReceivedOk(w: World, a: Step, w': World)
    requires Ok(w) && a.Receive? && CanReceive(w, a, w')
    ensures Ok(w') && w.server.stream.lastSeq <= w'.server.stream.lastSeq && w.server.out <= w'.server.out
  {
    HandleOk(w.server, w.log, a.pack, a.now, a.slice, a.confirm, w'.server);
    RingPassed(w.ring, w.log, w.server.stream.lastSeq, w'.server.stream.lastSeq);
    hide PackOk, RingOk, ServerOk, ConfirmOk, Handles;
    forall c | c in w.confirms ensures ConfirmOk(c, w'.server.stream.lastSeq) {
      ConfirmFurther(c, w.server.stream.lastSeq, w'.server.stream.lastSeq);
    }
  }

  lemma StepOk(w: World, a: Step, w': World)
    requires Ok(w) && Next(w, a, w')
    ensures Ok(w') && w.log <= w'.log && w.server.out <= w'.server.out
    ensures w.server.stream.lastSeq <= w'.server.stream.lastSeq
  {
    match a
    case Act(_, _, _) => ActOk(w, a, w');
    case Resend(_) => RecentOk(w.ring, w.log, w.server.stream.lastSeq, a.pack);
    case Receive(_, _, _, _) => ReceivedOk(w, a, w');
    case Confirmed(_) => ConfirmedOk(w, a, w');
  }

  lemma {:induction false} RunOk(ws: seq<World>, steps: seq<Step>)
    requires IsRun(ws, steps)
    ensures forall i :: 0 <= i < |ws| ==> Ok(ws[i])
  {
    if steps != [] {
      RunOk(ws[..|ws| - 1], steps[..|steps| - 1]);
      var n := |steps| - 1;
      assert ws[..|ws| - 1][n] == ws[n];
      StepOk(ws[n], steps[n], ws[n + 1]);
      forall i | 0 <= i < |ws| ensures Ok(ws[i]) {
        if i < |ws| - 1 { assert ws[..|ws| - 1][i] == ws[i]; }
      }
    }
  }

  // ---- what holds at every moment of every run ----

  /** Delivered action numbers strictly increase, and each carries the payload it was numbered with. */
  lemma ActionSafety(ws: seq<World>, steps: seq<Step>, i: nat)
    requires IsRun(ws, steps) && i < |ws|
    ensures Sorted(ws[i].server.out) && Genuine(ws[i].server.out, ws[i].log)
    ensures i + 1 < |ws| ==> ws[i].server.out <= ws[i + 1].server.out
  {
    RunOk(ws, steps);
    assert Ok(ws[i]);
    if i + 1 < |ws| { StepOk(ws[i], steps[i], ws[i + 1]); }
  }

  /** Every confirm in flight acknowledges only what the server has passed. */
  lemma ConfirmsBehindServer(ws: seq<World>, steps: seq<Step>, i: nat, c: Confirm)
    requires IsRun(ws, steps) && i < |ws| && c in ws[i].confirms
    ensures c.lastSeq <= ws[i].server.stream.lastSeq
  {
    RunOk(ws, steps);
    assert Ok(ws[i]);
  }

  /** The client drops only what the server has passed: any other of its last 32 actions is still there. */
  lemma UnpassedIsKept(ws: seq<World>, steps: seq<Step>, i: nat, n: nat)
    requires IsRun(ws, steps) && i < |ws|
    requires ws[i].server.stream.lastSeq < n <= |ws[i].log| && |ws[i].log| - 32 < n
    ensures exists e :: e in Entries(ws[i].ring) && e.seqNo == n && e.payload == ws[i].log[n - 1]
  {
    RunOk(ws, steps);
    assert Ok(ws[i]);
    var ring, log := ws[i].ring, ws[i].log;
    RingEntries(ring, log, ws[i].server.stream.lastSeq, |log| - |ring|);
    var j := n - 1 - (|log| - |ring|);
    assert SlotFits(ring[j], n, log, ws[i].server.stream.lastSeq);
    assert ring[j].entry in Entries(ring);
  }

  /** Every pack in flight is strictly increasing, so that the in-feed order check drops none of it. */
  lemma PacksAreIncreasing(ws: seq<World>, steps: seq<Step>, i: nat, p: seq<Entry>, k: nat)
    requires IsRun(ws, steps) && i < |ws| && p in ws[i].packs && k < |p|
    ensures Sorted(p) && Passes(p, k)
  {
    RunOk(ws, steps);
    assert PackOk(p, ws[i].log);
  }

  // ---- gaps ----

  /** The last delivery is more than three seconds ago, and the first entry beyond lastSeq is not the next one. */
  ghost predicate Skips(s: StreamState, now: int, pack: seq<Entry>) {
    && s.lastTime.Some? && now - s.lastTime.value > 3_000_000_000
    && exists k :: FirstBeyond(pack, s.lastSeq, k) && pack[k].seqNo != s.lastSeq + 1
  }

  /** A step widens the distance between the last number and the count of what was delivered only by skipping. */
  lemma StepSkips(w: World, a: Step, w': World)
    requires WellFormed(w.server.stream) && w.server.stream.maxWait == ACTION_EXPIRE_DURATION && Next(w, a, w')
    ensures var s, s' := w.server, w'.server; var gap, gap' := s.stream.lastSeq - |s.out|, s'.stream.lastSeq - |s'.out|;
      gap <= gap' && (gap == gap' <==> !(a.Receive? && Skips(s.stream, a.now, a.pack)))
  {
    hide Denote, Canonical, Kept, Outstanding, WellFormed, FirstBeyond;
    if a.Receive? { PushSkips(w.server.stream, a.now, a.pack); }
  }

  ghost predicate SkipsAt(ws: seq<World>, steps: seq<Step>, i: nat)
    requires |ws| == |steps| + 1 && i < |steps|
  {
    steps[i].Receive? && Skips(ws[i].server.stream, steps[i].now, steps[i].pack)
  }

  ghost predicate NoneSkips(ws: seq<World>, steps: seq<Step>)
    requires |ws| == |steps| + 1
  {
    forall i :: 0 <= i < |steps| ==> !SkipsAt(ws, steps, i)
  }

  /** Delivery has no gaps in a run if and only if no pack that arrives finds the wait over and skips a number. */
  lemma {:induction false} NoGaps(ws: seq<World>, steps: seq<Step>)
    requires IsRun(ws, steps)
    ensures var s := ws[|steps|].server;
      && |s.out| <= s.stream.lastSeq
      && (Delivers(s.out, 0, s.stream.lastSeq) <==> NoneSkips(ws, steps))
  {
    assert |ws| == |steps| + 1;
    if steps != [] {
      hide *;
      var n := |steps| - 1;
      ServerAt(ws, steps, n + 1);
      CountIsEnough(ws[n + 1].server);
      RunPrefix(ws, steps);
      NoneSkipsStep(ws, steps);
      NoGaps(ws[..|ws| - 1], steps[..n]);
      assert ws[..|ws| - 1][n] == ws[n];
      ServerAt(ws, steps, n);
      CountIsEnough(ws[n].server);
      StepSkips(ws[n], steps[n], ws[n + 1]);
    }
  }

  lemma ServerAt(ws: seq<World>, steps: seq<Step>, i: nat)
    requires IsRun(ws, steps) && i < |ws|
    ensures WellFormed(ws[i].server.stream) && Climbs(ws[i].server.out, 0, ws[i].server.stream.lastSeq)
    ensures ws[i].server.stream.maxWait == ACTION_EXPIRE_DURATION
  {
    RunOk(ws, steps);
    assert Ok(ws[i]);
  }

  lemma RunPrefix(ws: seq<World>, steps: seq<Step>)
    requires IsRun(ws, steps) && steps != []
    ensures var n := |steps| - 1; IsRun(ws[..|ws| - 1], steps[..n]) && Next(ws[n], steps[n], ws[n + 1])
  {
    hide Next, Init;
  }

  lemma NoneSkipsStep(ws: seq<World>, steps: seq<Step>)
    requires |ws| == |steps| + 1 && steps != []
    ensures var n := |steps| - 1; var a := steps[n];
      NoneSkips(ws, steps) <==>
        NoneSkips(ws[..|ws| - 1], steps[..n]) && !(a.Receive? && Skips(ws[n].server.stream, a.now, a.pack))
  {
    hide Skips;
    var n := |steps| - 1;
    var init, first := ws[..|ws| - 1], steps[..n];
    assert SkipsAt(ws, steps, n) <==> steps[n].Receive? && Skips(ws[n].server.stream, steps[n].now, steps[n].pack);
    forall i | 0 <= i < n ensures SkipsAt(init, first, i) <==> SkipsAt(ws, steps, i) {
    }
    if NoneSkips(ws, steps) {
      forall i | 0 <= i < n ensures !SkipsAt(init, first, i) { assert !SkipsAt(ws, steps, i); }
    }
    if NoneSkips(init, first) && !SkipsAt(ws, steps, n) {
      forall i | 0 <= i < |steps| ensures !SkipsAt(ws, steps, i) {
        if i < n { assert !SkipsAt(init, first, i); }
      }
    }
  }

  lemma CountIsEnough(s: Server)
    requires Climbs(s.out, 0, s.stream.lastSeq)
    ensures Delivers(s.out, 0, s.stream.lastSeq) <==> |s.out| == s.stream.lastSeq
  {
    if |s.out| == s.stream.lastSeq { CountedOut(s.out, s.stream.lastSeq, 0); }
  }

  /** As many increasing numbers as there are up to the last one are all of them. */
  lemma {:induction false} CountedOut(out: seq<Entry>, to: nat, k: nat)
    requires Climbs(out, 0, to) && |out| == to && k <= |out|
    ensures forall i :: k <= i < |out| ==> out[i].seqNo == i + 1
    decreases |out| - k
  {
    if k < |out| {
      CountedOut(out, to, k + 1);
      AtLeast(out, to, k);
      if k + 1 < |out| { assert out[k].seqNo < out[k + 1].seqNo; }
    }
  }

  lemma {:induction false} AtLeast(out: seq<Entry>, to: nat, k: nat)
    requires Climbs(out, 0, to) && k < |out|
    ensures out[k].seqNo >= k + 1
  {
    if k > 0 { AtLeast(out, to, k - 1); }
  }
}
