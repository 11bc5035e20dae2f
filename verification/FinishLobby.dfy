/** Finishing a lobby is atomic (udpstar/server/server.go). */
module FinishLobby {
  import opened Streams
  import opened Lobbies
  import opened LobbyLaws
  import opened LobbyServices
  import opened Sessions

  /** What a client of the lobby can see of it, without latencies. */
  ghost predicate SameSeats(a: Lobby, b: Lobby) {
    a.name == b.name && a.slots == b.slots && a.state == b.state
  }

  // ---- versions ----

  /** A turn either raises the version by one or leaves version, name, slots and state as they were. */
  lemma TurnRaisesOrKeeps(l: Lobby, e: Event)
    ensures var l' := Apply(l, e);
      l'.version == l.version + 1 || (l'.version == l.version && SameSeats(l', l))
  {
    if e.Do? {
      SameVersion(l, e.c);
      if !Process(l, e.c).1 { FalseChangesNothing(l, e.c); }
    }
  }

  /** Commands leave the version to the loop. */
  lemma SameVersion(l: Lobby, c: Command)
    ensures Process(l, c).0.version == l.version
  {
  }

  /** Versions never fall, and an unchanged version means unchanged seats. */
  lemma {:induction false} VersionsClimb(ls: seq<Lobby>, es: seq<Event>, i: nat, j: nat)
    requires IsTrace(ls, es) && i <= j < |ls|
    ensures ls[i].version <= ls[j].version
    ensures ls[i].version == ls[j].version ==> SameSeats(ls[i], ls[j])
    decreases j
  {
    if i < j {
      VersionsClimb(ls, es, i, j - 1);
      TurnRaisesOrKeeps(ls[j - 1], es[j - 1]);
    }
  }

  /** Between two states of the same version every state looks the same. */
  lemma QuietBetween(ls: seq<Lobby>, es: seq<Event>, i: nat, j: nat)
    requires IsTrace(ls, es) && i <= j < |ls| && ls[i].version == ls[j].version
    ensures forall k :: i <= k <= j ==> ls[k].version == ls[i].version && SameSeats(ls[i], ls[k])
  {
    forall k | i <= k <= j ensures ls[k].version == ls[i].version && SameSeats(ls[i], ls[k]) {
      VersionsClimb(ls, es, i, k);
      VersionsClimb(ls, es, k, j);
    }
  }

  // ---- a successful call, among any other turns ----

  /** The turns at which one call's requests are processed: the Get, then four requests to finish. */
  datatype Call = Call(get: nat, f3: nat, f2: nat, f1: nat, f0: nat)

  /** The finish request of turn f is the call's and is accepted. */
  ghost predicate AcceptedAt(ls: seq<Lobby>, es: seq<Event>, f: nat, expected: nat)
    requires IsTrace(ls, es)
  {
    f < |es| && es[f] == Do(Finish(expected)) && Accepts(ls[f], expected)
  }

  ghost predicate InTurn(c: Call) {
    c.get < c.f3 < c.f2 < c.f1 < c.f0
  }

  /** The call returned a session: it read Ready, and each request was accepted at the version it expected. */
  ghost predicate Succeeded(ls: seq<Lobby>, es: seq<Event>, c: Call)
    requires IsTrace(ls, es)
  {
    && InTurn(c) && c.f0 < |es| && es[c.get] == Do(Get(-1)) && ls[c.get].state == Ready
    && var v := ls[c.get].version;
       && AcceptedAt(ls, es, c.f3, v) && AcceptedAt(ls, es, c.f2, v + 1)
       && AcceptedAt(ls, es, c.f1, v + 2) && AcceptedAt(ls, es, c.f0, v + 3)
  }

  ghost predicate OfCall(c: Call, k: nat) {
    k == c.f3 || k == c.f2 || k == c.f1 || k == c.f0
  }

  /** The state while the call is under way, as a countdown. */
  function Countdown(c: Call, k: nat): LobbyState {
    if k <= c.f3 then Ready else if k <= c.f2 then Starting3 else if k <= c.f1 then Starting2
    else if k <= c.f0 then Starting1 else Starting
  }

  lemma AcceptedAdvances(ls: seq<Lobby>, es: seq<Event>, f: nat, v: nat)
    requires IsTrace(ls, es) && AcceptedAt(ls, es, f, v)
    ensures ls[f].version == v && ls[f + 1] == ls[f].(state := NextState(ls[f].state), version := v + 1)
  {
  }

  lemma CallVersions(ls: seq<Lobby>, es: seq<Event>, c: Call)
    requires IsTrace(ls, es) && Succeeded(ls, es, c)
    ensures var v := ls[c.get].version;
      && ls[c.f3].version == v && ls[c.f3 + 1].version == ls[c.f2].version == v + 1
      && ls[c.f2 + 1].version == ls[c.f1].version == v + 2 && ls[c.f1 + 1].version == ls[c.f0].version == v + 3
      && ls[c.f0 + 1].version == v + 4
  {
    var v := ls[c.get].version;
    AcceptedAdvances(ls, es, c.f3, v);
    AcceptedAdvances(ls, es, c.f2, v + 1);
    AcceptedAdvances(ls, es, c.f1, v + 2);
    AcceptedAdvances(ls, es, c.f0, v + 3);
  }

  /**
   * A call that returns a session is atomic: from its Get to its last request the name and the slots stay
   * what they were, the state counts down, and no other turn raises the version.
   */
  lemma FinishIsAtomic(ls: seq<Lobby>, es: seq<Event>, c: Call, k: nat)
    requires IsTrace(ls, es) && Succeeded(ls, es, c) && c.get <= k <= c.f0 + 1
    ensures ls[k].name == ls[c.get].name && ls[k].slots == ls[c.get].slots && ls[k].state == Countdown(c, k)
    ensures k <= c.f0 && !OfCall(c, k) ==> ls[k + 1].version == ls[k].version
  {
    CallVersions(ls, es, c);
    QuietBetween(ls, es, c.get, c.f3);
    QuietBetween(ls, es, c.f3 + 1, c.f2);
    QuietBetween(ls, es, c.f2 + 1, c.f1);
    QuietBetween(ls, es, c.f1 + 1, c.f0);
    var v := ls[c.get].version;
    AcceptedAdvances(ls, es, c.f3, v);
    AcceptedAdvances(ls, es, c.f2, v + 1);
    AcceptedAdvances(ls, es, c.f1, v + 2);
    AcceptedAdvances(ls, es, c.f0, v + 3);
  }

  /** A version is finished once: the accepted request for it is unique. */
  lemma OneFinishEach(ls: seq<Lobby>, es: seq<Event>, f: nat, g: nat, v: nat)
    requires IsTrace(ls, es) && AcceptedAt(ls, es, f, v) && AcceptedAt(ls, es, g, v)
    ensures f == g
  {
    AcceptedAdvances(ls, es, f, v);
    AcceptedAdvances(ls, es, g, v);
    if f < g { VersionsClimb(ls, es, f + 1, g); }
    if g < f { VersionsClimb(ls, es, g + 1, f); }
  }

  /** Successful calls that read the same version would have to share all their requests. */
  lemma SameVersionSameRequests(ls: seq<Lobby>, es: seq<Event>, c: Call, d: Call)
    requires IsTrace(ls, es) && Succeeded(ls, es, c) && Succeeded(ls, es, d)
    requires ls[c.get].version == ls[d.get].version
    ensures c.f3 == d.f3 && c.f2 == d.f2 && c.f1 == d.f1 && c.f0 == d.f0
  {
    var v := ls[c.get].version;
    OneFinishEach(ls, es, c.f3, d.f3, v);
    OneFinishEach(ls, es, c.f2, d.f2, v + 1);
    OneFinishEach(ls, es, c.f1, d.f1, v + 2);
    OneFinishEach(ls, es, c.f0, d.f0, v + 3);
  }

  /** Successful calls do not overlap: one is over before the other reads the lobby. */
  lemma CallsAreSerial(ls: seq<Lobby>, es: seq<Event>, c: Call, d: Call)
    requires IsTrace(ls, es) && Succeeded(ls, es, c) && Succeeded(ls, es, d) && c.f3 != d.f3
    ensures c.f0 < d.get || d.f0 < c.get
  {
    if ls[c.get].version == ls[d.get].version {
      SameVersionSameRequests(ls, es, c, d);
    } else if ls[c.get].version < ls[d.get].version {
      LaterCall(ls, es, c, d);
    } else {
      LaterCall(ls, es, d, c);
    }
  }

  lemma LaterCall(ls: seq<Lobby>, es: seq<Event>, c: Call, d: Call)
    requires IsTrace(ls, es) && Succeeded(ls, es, c) && Succeeded(ls, es, d)
    requires ls[c.get].version < ls[d.get].version
    ensures c.f0 < d.get
  {
    CallVersions(ls, es, c);
    if d.get <= c.f3 {
      VersionsClimb(ls, es, d.get, c.f3);
    } else if d.get <= c.f0 {
      FinishIsAtomic(ls, es, c, d.get);
    }
  }

  // ---- the call itself ----

  function ApplyAll(l: Lobby, es: seq<Event>): Lobby {
    if es == [] then l else Apply(ApplyAll(l, es[..|es| - 1]), es[|es| - 1])
  }

  /** How the wait before a request ends. */
  datatype Ending = Elapsed | Cancelled | Stopped

  /** The turns that the lobby takes for others before one of the call's requests. */
  datatype Pause = Pause(events: seq<Event>, ending: Ending)

  datatype Error = UnknownLobby | LobbyNotReady | ContextDone

  /** What the four requests come to: the lobby at the end, or the reason why they were given up. */
  datatype Outcome = Done(lobby: Lobby) | Failed(error: Error, lobby: Lobby)

  /** One wait and the request after it. */
  function Request(l: Lobby, expected: nat, p: Pause): Outcome {
    var l1 := ApplyAll(l, p.events);
    match p.ending
    case Stopped => Failed(UnknownLobby, l1)
    case Cancelled => Failed(ContextDone, l1)
    case Elapsed =>
      var l2 := Apply(l1, Do(Finish(expected)));
      if Accepts(l1, expected) then Done(l2) else Failed(LobbyNotReady, l2)
  }

  /** The requests, each for the version after the previous one; the first failure stays. */
  function Requests(l: Lobby, expected: nat, pauses: seq<Pause>): Outcome {
    if pauses == [] then Done(l)
    else
      var n := |pauses| - 1;
      match Requests(l, expected, pauses[..n])
      case Failed(e, l1) => Failed(e, l1)
      case Done(l1) => Request(l1, expected + n, pauses[n])
  }

  lemma {:induction false} ApplyAllKeeps(l: Lobby, es: seq<Event>)
    ensures ApplyAll(l, es).version >= l.version
    ensures ApplyAll(l, es).version == l.version ==> SameSeats(ApplyAll(l, es), l)
  {
    if es != [] {
      ApplyAllKeeps(l, es[..|es| - 1]);
      TurnRaisesOrKeeps(ApplyAll(l, es[..|es| - 1]), es[|es| - 1]);
    }
  }

  function Climb(s: LobbyState, n: nat): LobbyState {
    if n == 0 then s else NextState(Climb(s, n - 1))
  }

  /** The wait is not cut short, and no turn during it raises the version. */
  predicate Quiet(l: Lobby, p: Pause) {
    p.ending == Elapsed && ApplyAll(l, p.events).version == l.version
  }

  ghost predicate Undisturbed(l: Lobby, v: nat, pauses: seq<Pause>) {
    forall i :: 0 <= i < |pauses| ==>
      Requests(l, v, pauses[..i]).Done? && Quiet(Requests(l, v, pauses[..i]).lobby, pauses[i])
  }

  lemma RequestSucceeds(l: Lobby, p: Pause)
    requires l.state != Active
    ensures Request(l, l.version, p).Done? <==> Quiet(l, p)
    ensures var r := Request(l, l.version, p);
      r.Done? ==>
        && r.lobby.name == l.name && r.lobby.slots == l.slots
        && r.lobby.state == NextState(l.state) && r.lobby.version == l.version + 1
  {
    ApplyAllKeeps(l, p.events);
    hide ApplyAll;
  }

  /** The requests succeed exactly when the call is undisturbed; then only state and version have moved. */
  lemma {:induction false} RequestsSucceed(l: Lobby, pauses: seq<Pause>)
    requires l.state == Ready
    ensures Requests(l, l.version, pauses).Done? <==> Undisturbed(l, l.version, pauses)
    ensures var r := Requests(l, l.version, pauses);
      r.Done? ==>
        && r.lobby.name == l.name && r.lobby.slots == l.slots
        && r.lobby.state == Climb(Ready, |pauses|) != Active && r.lobby.version == l.version + |pauses|
  {
    if pauses != [] {
      RequestsStep(l, l.version, pauses);
      hide Undisturbed, Requests, Request, Quiet;
      var n := |pauses| - 1;
      RequestsSucceed(l, pauses[..n]);
      UndisturbedStep(l, l.version, pauses);
      var r0 := Requests(l, l.version, pauses[..n]);
      if r0.Done? {
        RequestSucceeds(r0.lobby, pauses[n]);
      }
    }
  }

  lemma RequestsStep(l: Lobby, v: nat, pauses: seq<Pause>)
    requires pauses != []
    ensures var n := |pauses| - 1; var r0 := Requests(l, v, pauses[..n]);
      Requests(l, v, pauses) == if r0.Failed? then r0 else Request(r0.lobby, v + n, pauses[n])
  {
    hide Request;
  }

  lemma UndisturbedStep(l: Lobby, v: nat, pauses: seq<Pause>)
    requires pauses != []
    ensures var n := |pauses| - 1; var r0 := Requests(l, v, pauses[..n]);
      Undisturbed(l, v, pauses) <==> Undisturbed(l, v, pauses[..n]) && r0.Done? && Quiet(r0.lobby, pauses[n])
  {
    hide Requests, Quiet;
    var n := |pauses| - 1;
    assert forall i :: 0 <= i < n ==> pauses[..n][..i] == pauses[..i] && pauses[..n][i] == pauses[i];
  }

  /**
   * A call that fails does so at the first disturbed wait, and the error tells how that ended: the lobby was stopped,
   * the call was given up, or the version had moved when the wait was over.
   */
  lemma {:induction false} WhyItFails(l: Lobby, pauses: seq<Pause>) returns (i: nat)
    requires l.state == Ready && Requests(l, l.version, pauses).Failed?
    ensures i < |pauses| && Requests(l, l.version, pauses[..i]).Done?
    ensures !Quiet(Requests(l, l.version, pauses[..i]).lobby, pauses[i])
    ensures var r := Requests(l, l.version, pauses);
      && (pauses[i].ending == Stopped ==> r.error == UnknownLobby)
      && (pauses[i].ending == Cancelled ==> r.error == ContextDone)
      && (pauses[i].ending == Elapsed ==> r.error == LobbyNotReady)
  {
    var n := |pauses| - 1;
    var init := Requests(l, l.version, pauses[..n]);
    if init.Failed? {
      i := WhyItFails(l, pauses[..n]);
      assert pauses[..n][..i] == pauses[..i];
    } else {
      i := n;
      RequestsSucceed(l, pauses[..n]);
      RequestSucceeds(init.lobby, pauses[n]);
    }
  }

  /** What a call comes to, the lobby at the end included. */
  function CallOutcome(l: Lobby, pauses: seq<Pause>): Outcome {
    if l.state == Ready then Requests(l, l.version, pauses) else Failed(LobbyNotReady, l)
  }

  // ---- what a failed call leaves behind ----

  predicate CountingDown(l: Lobby) {
    l.state != Active && l.state != Ready
  }

  /** A join, a leave or an eviction that has an effect. */
  predicate ChangesSeats(l: Lobby, e: Event) {
    e.Do? && !KeepsSeats(e) && Process(l, e.c).1
  }

  /** Events that change no seats whatever the lobby is. */
  predicate KeepsSeats(e: Event) {
    e.Timer? || e.c.Get? || e.c.ChangeName? || e.c.Finish? || e.c.RemoteRequest?
  }

  /** A countdown ends exactly when seats change. */
  lemma CountdownEnds(l: Lobby, e: Event)
    requires CountingDown(l)
    ensures CountingDown(Apply(l, e)) <==> !ChangesSeats(l, e)
  {
  }

  lemma {:induction false} CountdownStays(l: Lobby, es: seq<Event>)
    requires CountingDown(l) && forall i :: 0 <= i < |es| ==> KeepsSeats(es[i])
    ensures CountingDown(ApplyAll(l, es))
  {
    if es != [] {
      CountdownStays(l, es[..|es| - 1]);
      CountdownEnds(ApplyAll(l, es[..|es| - 1]), es[|es| - 1]);
    }
  }

  ghost predicate QuietSeats(pauses: seq<Pause>) {
    forall i, j :: 0 <= i < |pauses| && 0 <= j < |pauses[i].events| ==> KeepsSeats(pauses[i].events[j])
  }

  lemma RequestKeepsCountdown(l: Lobby, v: nat, p: Pause)
    requires CountingDown(l) && forall j :: 0 <= j < |p.events| ==> KeepsSeats(p.events[j])
    ensures CountingDown(Request(l, v, p).lobby)
  {
    CountdownStays(l, p.events);
    CountdownEnds(ApplyAll(l, p.events), Do(Finish(v)));
  }

  /** From its first accepted request on a call keeps the lobby in the countdown, also when it fails. */
  lemma {:induction false} CallLeavesCountdown(l: Lobby, v: nat, pauses: seq<Pause>)
    requires pauses != [] && QuietSeats(pauses)
    requires Requests(l, v, pauses[..1]).Done? && CountingDown(Requests(l, v, pauses[..1]).lobby)
    ensures CountingDown(Requests(l, v, pauses).lobby)
  {
    if |pauses| > 1 {
      var n := |pauses| - 1;
      assert pauses[..n][..1] == pauses[..1];
      CallLeavesCountdown(l, v, pauses[..n]);
      var r := Requests(l, v, pauses[..n]);
      if r.Done? { RequestKeepsCountdown(r.lobby, v + n, pauses[n]); }
    } else {
      assert pauses[..1] == pauses;
    }
  }

  /**
   * A call that fails after its first request leaves a lobby that no call can finish, until seats change: whatever
   * else happens, the next call is refused.
   */
  lemma FailedCallBlocksOthers(l: Lobby, pauses: seq<Pause>, es: seq<Event>, later: seq<Pause>)
    requires l.state == Ready && pauses != [] && QuietSeats(pauses)
    requires CallOutcome(l, pauses).Failed? && CallOutcome(l, pauses[..1]).Done?
    requires forall i :: 0 <= i < |es| ==> KeepsSeats(es[i])
    ensures var l' := ApplyAll(CallOutcome(l, pauses).lobby, es); CallOutcome(l', later) == Failed(LobbyNotReady, l')
  {
    RequestsSucceed(l, pauses[..1]);
    CallLeavesCountdown(l, l.version, pauses);
    CountdownStays(CallOutcome(l, pauses).lobby, es);
  }

  /** Such a call: the name of the lobby is changed while the call waits for its second request. */
  lemma RenamedWhileFinishing(l: Lobby, name: string, rest: seq<Pause>)
    requires l.state == Ready && name != l.name
    ensures var pauses := [Pause([], Elapsed), Pause([Do(ChangeName(name))], Elapsed)] + rest;
      && CallOutcome(l, pauses[..1]).Done?
      && CallOutcome(l, pauses) == Failed(LobbyNotReady, l.(state := Starting3, name := name, version := l.version + 2))
  {
    var p0, p1 := Pause([], Elapsed), Pause([Do(ChangeName(name))], Elapsed);
    var pauses := [p0, p1] + rest;
    var l1 := l.(state := Starting3, version := l.version + 1);
    assert pauses[..1] == [p0] && [p0][..0] == [];
    assert Requests(l, l.version, [p0]) == Request(l, l.version, p0) == Done(l1);
    assert p1.events[..0] == [];
    assert ApplyAll(l1, p1.events) == Apply(l1, p1.events[0]) == l1.(name := name, version := l.version + 2);
    assert pauses[..2] == [p0, p1] && [p0, p1][..1] == [p0];
    assert Requests(l, l.version, [p0, p1]) == Request(l1, l.version + 1, p1);
    FailedStays(l, l.version, pauses, 2);
  }

  datatype FinishResult = Finished(session: Session, clients: Clients) | NotFinished(error: Error)

  class Server {
    var lobbies: map<Token, LobbyService>

    constructor ()
      ensures lobbies == map[]
    {
      lobbies := map[];
    }

    /**
     * Finishes a lobby. The turns that the lobby takes for others between the requests are in pauses, as is
     * how each wait ended; def is the definition the lobby was created with.
     */
    method FinishLobby(token: Token, def: seq<Byte>, pauses: seq<Pause>) returns (r: FinishResult)
      requires |pauses| == 4 && pauses[0].ending != Cancelled
      modifies this, lobbies.Values
      ensures token !in old(lobbies) ==> r == NotFinished(UnknownLobby) && lobbies == old(lobbies)
      ensures token in old(lobbies) ==>
                var lobby := old(lobbies)[token];
                var l := old(lobby.Value());
                var last := CallOutcome(l, pauses);
                && lobby.Value() == last.lobby
                && (last.Failed? ==> r == NotFinished(last.error) && lobbies == old(lobbies))
                && (last.Done? ==> r == Finished(BuildUp(token, l.name, def, l.slots).session, last.lobby.clients))
                && (last.Done? ==> lobbies == old(lobbies) - {token})
    {
      hide Apply, Requests, ReplyTo;
      if token !in lobbies {
        return NotFinished(UnknownLobby);
      }
      var lobby := lobbies[token];
      ghost var l := lobby.Value();
      GetChangesNothing(l);
      var _, responseGet := lobby.Turn(Get(-1));
      if responseGet.view.state != Ready {
        return NotFinished(LobbyNotReady);
      }
      RequestsSucceed(l, pauses);
      var error, responseFinish := RequestFour(lobby, responseGet.version, pauses);
      if error.Some? {
        return NotFinished(error.value);
      }
      var session := LobbyToSession(token, responseFinish.name, def, responseFinish.slots);
      lobbies := lobbies - {token};
      r := Finished(session, responseFinish.clients);
    }
  }

  lemma GetChangesNothing(l: Lobby)
    ensures Apply(l, Do(Get(-1))) == l && ReplyTo(l, Get(-1)) == Current(l.version, FullView(l))
    ensures FullView(l).state == l.state
  {
  }

  /** The loop of FinishLobby: counts down from the first starting state. */
  method RequestFour(lobby: LobbyService, version: nat, pauses: seq<Pause>)
    returns (error: Option<Error>, response: Reply)
    requires |pauses| == 4
    modifies lobby
    ensures var last := Requests(old(lobby.Value()), version, pauses);
      && lobby.Value() == last.lobby && error == (if last.Failed? then Some(last.error) else None)
      && (last.Done? ==> Tells(response, last.lobby))
  {
    hide Request;
    ghost var l := lobby.Value();
    var expectedVersion := version;
    response := Silent;
    assert pauses[..4] == pauses;
    for i := 0 to 4
      invariant expectedVersion == version + i
      invariant Requests(l, version, pauses[..i]) == Done(lobby.Value())
      invariant i > 0 ==> Tells(response, lobby.Value())
    {
      assert pauses[..i + 1][..i] == pauses[..i];
      FailedStays(l, version, pauses, i + 1);
      error, response := RequestOnce(lobby, expectedVersion, pauses[i]);
      if error.Some? {
        return;
      }
      expectedVersion := expectedVersion + 1;
    }
    error := None;
  }

  /** The reply to a finish request carries the name, the slots and the clients that the lobby has. */
  predicate Tells(response: Reply, l: Lobby) {
    response.Finishing? && response.name == l.name && response.slots == l.slots && response.clients == l.clients
  }

  method RequestOnce(lobby: LobbyService, expectedVersion: nat, p: Pause)
    returns (error: Option<Error>, response: Reply)
    modifies lobby
    ensures var r := Request(old(lobby.Value()), expectedVersion, p);
      && lobby.Value() == r.lobby && error == (if r.Failed? then Some(r.error) else None)
      && (r.Done? ==> Tells(response, r.lobby))
  {
    Pass(lobby, p.events);
    hide ApplyAll;
    if p.ending == Stopped {
      return Some(UnknownLobby), Silent;
    }
    if p.ending == Cancelled {
      return Some(ContextDone), Silent;
    }
    var _, reply := lobby.Turn(Finish(expectedVersion));
    if reply == Refused {
      return Some(LobbyNotReady), reply;
    }
    error, response := None, reply;
  }

  lemma {:induction false} FailedStays(l: Lobby, v: nat, pauses: seq<Pause>, i: nat)
    requires i <= |pauses|
    ensures Requests(l, v, pauses[..i]).Failed? ==> Requests(l, v, pauses) == Requests(l, v, pauses[..i])
    decreases |pauses|
  {
    if i == |pauses| {
      assert pauses[..i] == pauses;
    } else {
      assert pauses[..|pauses| - 1][..i] == pauses[..i];
      FailedStays(l, v, pauses[..|pauses| - 1], i);
    }
  }

  /** The lobby takes some turns for others. */
  method Pass(lobby: LobbyService, events: seq<Event>)
    modifies lobby
    ensures lobby.Value() == ApplyAll(old(lobby.Value()), events)
  {
    for i := 0 to |events|
      invariant lobby.Value() == ApplyAll(old(lobby.Value()), events[..i])
    {
      assert events[..i + 1][..i] == events[..i];
      match events[i] {
        case Do(c) => var _, _ := lobby.Turn(c);
        case Timer(now) => var _ := lobby.Tick(now);
      }
    }
    assert events[..|events|] == events;
  }
}
