/** What every command and every reachable lobby keeps. */
module LobbyLaws {
  import opened Streams
  import opened Lobbies

  // ---- counting seats ----

  function Seats(slots: seq<Slot>, c: Token): nat {
    if slots == [] then 0
    else Seats(slots[..|slots| - 1], c) + if slots[|slots| - 1].client == c then 1 else 0
  }

  function One(d: Slot, c: Token): nat { if d.client == c then 1 else 0 }

  lemma {:induction false} SeatsUpdate(slots: seq<Slot>, i: nat, d: Slot, c: Token)
    requires i < |slots|
    ensures Seats(slots[i := d], c) == Seats(slots, c) - One(slots[i], c) + One(d, c)
  {
    if i < |slots| - 1 {
      SeatsUpdate(slots[..|slots| - 1], i, d, c);
      assert slots[i := d][..|slots| - 1] == slots[..|slots| - 1][i := d];
    } else {
      assert slots[i := d][..|slots| - 1] == slots[..|slots| - 1];
    }
  }

  lemma {:induction false} SeatsCleared(slots: seq<Slot>, client: Token, c: Token)
    requires c != 0
    ensures Seats(ClearClient(slots, client), c) == if c == client then 0 else Seats(slots, c)
  {
    if slots != [] {
      SeatsCleared(slots[..|slots| - 1], client, c);
      assert ClearClient(slots, client)[..|slots| - 1] == ClearClient(slots[..|slots| - 1], client);
    }
  }

  // ---- the invariant ----

  /** An available slot is as in a new lobby, and only a remote one names a client. */
  ghost predicate SlotOk(d: Slot) {
    && (d.availability == Available ==> d == Slot(d.story, Available, 0, 0, "", None))
    && (d.client != 0 ==> d.availability == Remote)
  }

  ghost predicate OneSeatEach(slots: seq<Slot>) {
    forall i, j :: 0 <= i < j < |slots| ==> slots[i].actor != slots[j].actor || slots[i].actor == 0
  }

  /** No client holds more slots than it is counted for. */
  ghost predicate Counted(slots: seq<Slot>, clients: Clients) {
    forall c :: c != 0 ==> Count(clients, c) >= Seats(slots, c)
  }

  ghost predicate CountedExactly(slots: seq<Slot>, clients: Clients) {
    forall c :: c != 0 ==> Count(clients, c) == Seats(slots, c)
  }

  ghost predicate SlotsOk(slots: seq<Slot>) {
    (forall i :: 0 <= i < |slots| ==> SlotOk(slots[i])) && OneSeatEach(slots)
  }

  ghost predicate Inv(l: Lobby) {
    && (l.state == Active <==> HasAvailable(l.slots))
    && SlotsOk(l.slots) && Counted(l.slots, l.clients)
  }

  /** The lobby without what the clients' counts say. */
  ghost predicate Seated(l: Lobby) {
    (l.state == Active <==> HasAvailable(l.slots)) && SlotsOk(l.slots)
  }

  // ---- slots stay in order ----

  lemma ClearSlotOk(slots: seq<Slot>, i: nat)
    requires SlotsOk(slots) && i < |slots|
    ensures SlotsOk(ClearSlot(slots, i)) && HasAvailable(ClearSlot(slots, i))
  {
    assert ClearSlot(slots, i)[i].availability == Available;
  }

  lemma ClearClientOk(slots: seq<Slot>, client: Token)
    requires SlotsOk(slots)
    ensures SlotsOk(ClearClient(slots, client))
    ensures HasClient(slots, client) ==> HasAvailable(ClearClient(slots, client))
  {
    if HasClient(slots, client) {
      var i :| 0 <= i < |slots| && slots[i].client == client;
      assert ClearClient(slots, client)[i].availability == Available;
    }
  }

  /** Seating an actor that has no other seat. */
  lemma SeatOk(slots: seq<Slot>, i: nat, d: Slot)
    requires SlotsOk(slots) && i < |slots| && SlotOk(d)
    requires d.actor != 0 ==> forall j :: 0 <= j < |slots| && j != i ==> slots[j].actor != d.actor
    ensures SlotsOk(slots[i := d])
  {
  }

  lemma ActorCleared(slots: seq<Slot>, actor: Token)
    requires SlotsOk(slots) && actor != 0 && FindActor(slots, actor) < |slots|
    ensures forall j :: 0 <= j < |slots| ==> ClearSlot(slots, FindActor(slots, actor))[j].actor != actor
  {
  }

  lemma LocalJoinSeated(l: Lobby, actor: Token, slotIdx: Byte, localIdx: Byte, name: string)
    requires Seated(l)
    ensures Seated(LocalJoin(l, actor, slotIdx, localIdx, name).0)
  {
    if slotIdx < |l.slots| % 256 && localIdx <= 3 {
      var d := SeatedLocal(l.slots[slotIdx], actor, localIdx, name);
      if l.slots[slotIdx].availability != Available {
        if l.slots[slotIdx].actor == actor {
          SeatOk(l.slots, slotIdx, d);
        }
      } else {
        var i := FindActor(l.slots, actor);
        if i < |l.slots| {
          ClearSlotOk(l.slots, i);
          if actor != 0 { ActorCleared(l.slots, actor); }
          SeatOk(ClearSlot(l.slots, i), slotIdx, SeatedLocal(ClearSlot(l.slots, i)[slotIdx], actor, localIdx, name));
        } else {
          SeatOk(l.slots, slotIdx, d);
        }
      }
    }
  }

  lemma RejoinSeated(l: Lobby, m: Command)
    requires Seated(l) && m.RemoteJoin? && m.slotIdx < |l.slots|
    requires l.slots[m.slotIdx].availability != Available && l.slots[m.slotIdx].actor == m.actor
    ensures Seated(Rejoin(l, m))
  {
    var was := l.slots[m.slotIdx].client;
    if was != m.client {
      ClearClientOk(l.slots, was);
      var slots := ClearClient(l.slots, was);
      SeatOk(slots, m.slotIdx, SeatedRemote(slots[m.slotIdx], m.actor, m.client, m.name, m.config));
    } else {
      SeatOk(l.slots, m.slotIdx, SeatedRemote(l.slots[m.slotIdx], m.actor, m.client, m.name, m.config));
    }
  }

  /** After Unseat the slots are in order, the actor has no seat, and an available slot is still available. */
  lemma UnseatSlots(l: Lobby, m: Command)
    requires SlotsOk(l.slots) && m.RemoteJoin?
    ensures SlotsOk(Unseat(l, m).slots)
    ensures m.actor != 0 ==> forall j :: 0 <= j < |l.slots| ==> Unseat(l, m).slots[j].actor != m.actor
    ensures forall j :: 0 <= j < |l.slots| && l.slots[j].availability == Available ==>
              Unseat(l, m).slots[j].availability == Available && Unseat(l, m).slots[j].client == 0
  {
    var i := FindActor(l.slots, m.actor);
    if i < |l.slots| {
      if l.slots[i].client != m.client {
        ClearClientOk(l.slots, l.slots[i].client);
      } else {
        ClearSlotOk(l.slots, i);
      }
    }
  }

  lemma JoinRemoteSeated(l: Lobby, m: Command)
    requires Seated(l) && m.RemoteJoin?
    ensures Seated(JoinRemote(l, m).0)
  {
    if m.slotIdx < |l.slots| {
      if l.slots[m.slotIdx].availability != Available {
        if l.slots[m.slotIdx].actor == m.actor { RejoinSeated(l, m); }
      } else {
        UnseatSlots(l, m);
        var slots := Unseat(l, m).slots;
        SeatOk(slots, m.slotIdx, SeatedRemote(slots[m.slotIdx], m.actor, m.client, m.name, m.config));
      }
    }
  }

  lemma LeaveRemoteSeated(l: Lobby, m: Command)
    requires Seated(l) && m.RemoteLeave?
    ensures Seated(LeaveRemote(l, m).0)
  {
    if m.actor == 0 {
      ClearClientOk(l.slots, m.client);
    } else {
      var i := FindSeat(l.slots, m.actor, m.client);
      if i < |l.slots| { ClearSlotOk(l.slots, i); }
    }
  }

  lemma ProcessSeated(l: Lobby, c: Command)
    requires Seated(l)
    ensures Seated(Process(l, c).0)
  {
    hide SlotsOk, HasAvailable;
    match c
    case Get(_) =>
    case JoinLocal(actor, slotIdx, localIdx, name) => LocalJoinSeated(l, actor, slotIdx, localIdx, name);
    case LeaveLocal(actor) =>
      if FindActor(l.slots, actor) < |l.slots| { ClearSlotOk(l.slots, FindActor(l.slots, actor)); }
    case ChangeName(_) =>
    case Evict(actor) =>
      if FindActor(l.slots, actor) < |l.slots| { ClearSlotOk(l.slots, FindActor(l.slots, actor)); }
    case EvictClient(client) => ClearClientOk(l.slots, client);
    case Finish(_) =>
    case RemoteJoin(_, _, _, _, _, _) => JoinRemoteSeated(l, c);
    case RemoteLeave(_, _, _) => LeaveRemoteSeated(l, c);
    case RemoteRequest(_, _) =>
  }

  // ---- counts stay in step ----

  /** By how much a client's count exceeds the slots it holds. */
  function Excess(l: Lobby, c: Token): int {
    Count(l.clients, c) - Seats(l.slots, c)
  }

  /** The excess did not change, or the count was settled. */
  ghost predicate Settled(l: Lobby, l': Lobby, c: Token) {
    Excess(l', c) == Excess(l, c) || Excess(l', c) == 0
  }

  /** The seat that a local command takes over or clears; |slots| when there is none. */
  function TakenSeat(l: Lobby, c: Command): (i: nat)
    ensures i <= |l.slots|
  {
    match c
    case LeaveLocal(actor) => FindActor(l.slots, actor)
    case JoinLocal(actor, slotIdx, localIdx, _) =>
      if slotIdx >= |l.slots| % 256 || localIdx > 3 then |l.slots|
      else if l.slots[slotIdx].availability == Available then FindActor(l.slots, actor)
      else if l.slots[slotIdx].actor == actor then slotIdx
      else |l.slots|
    case _ => |l.slots|
  }

  /** A local command takes the seat of a client, whose count stays what it was. */
  predicate TakesFrom(l: Lobby, e: Event, c: Token) {
    e.Do? && TakenSeat(l, e.c) < |l.slots| && l.slots[TakenSeat(l, e.c)].client == c
  }

  predicate TakesSeat(l: Lobby, e: Event) {
    e.Do? && TakenSeat(l, e.c) < |l.slots| && l.slots[TakenSeat(l, e.c)].client != 0
  }

  /** A local command names only an actor that has no remote seat. */
  ghost predicate Fair(l: Lobby, e: Event) {
    e.Do? && (e.c.JoinLocal? || e.c.LeaveLocal?) ==>
      forall i :: 0 <= i < |l.slots| && l.slots[i].availability == Remote ==> l.slots[i].actor != e.c.actor
  }

  /** Then it takes nobody's seat. */
  lemma FairTakesNoSeat(l: Lobby, e: Event)
    requires SlotsOk(l.slots) && Fair(l, e)
    ensures !TakesSeat(l, e)
  {
    if e.Do? && TakenSeat(l, e.c) < |l.slots| {
      assert SlotOk(l.slots[TakenSeat(l, e.c)]);
    }
  }

  lemma ClearedExcess(l: Lobby, i: nat, c: Token)
    requires i < |l.slots| && c != 0
    ensures Seats(ClearSlot(l.slots, i), c) == Seats(l.slots, c) - One(l.slots[i], c)
  {
    SeatsUpdate(l.slots, i, Cleared(l.slots[i]), c);
  }

  lemma DropClientExcess(l: Lobby, client: Token, c: Token)
    requires c != 0
    ensures Settled(l, DropClient(l, client).0, c)
    ensures Seats(DropClient(l, client).0.slots, c) == if c == client then 0 else Seats(l.slots, c)
    ensures Count(DropClient(l, client).0.clients, c) == if c == client then 0 else Count(l.clients, c)
  {
    SeatsCleared(l.slots, client, c);
    if !HasClient(l.slots, client) {
      NoSeats(l.slots, client);
    }
  }

  lemma {:induction false} NoSeats(slots: seq<Slot>, client: Token)
    requires !HasClient(slots, client)
    ensures Seats(slots, client) == 0
  {
    if slots != [] {
      assert slots[|slots| - 1].client != client;
      var init := slots[..|slots| - 1];
      assert forall i :: 0 <= i < |init| ==> init[i] == slots[i];
      NoSeats(slots[..|slots| - 1], client);
    }
  }

  lemma LocalJoinExcess(l: Lobby, actor: Token, slotIdx: Byte, localIdx: Byte, name: string, c: Token)
    requires SlotsOk(l.slots) && c != 0
    ensures var e := Do(JoinLocal(actor, slotIdx, localIdx, name));
      Excess(LocalJoin(l, actor, slotIdx, localIdx, name).0, c) == Excess(l, c) + if TakesFrom(l, e, c) then 1 else 0
  {
    if slotIdx < |l.slots| % 256 && localIdx <= 3 {
      var d := SeatedLocal(l.slots[slotIdx], actor, localIdx, name);
      assert SlotOk(l.slots[slotIdx]);
      if l.slots[slotIdx].availability != Available {
        SeatsUpdate(l.slots, slotIdx, d, c);
      } else {
        var i := FindActor(l.slots, actor);
        if i < |l.slots| {
          assert SlotOk(l.slots[i]);
          ClearedExcess(l, i, c);
          var without := ClearSlot(l.slots, i);
          SeatsUpdate(without, slotIdx, SeatedLocal(without[slotIdx], actor, localIdx, name), c);
        } else {
          SeatsUpdate(l.slots, slotIdx, d, c);
        }
      }
    }
  }

  lemma LocalLeaveExcess(l: Lobby, actor: Token, c: Token)
    requires SlotsOk(l.slots) && c != 0
    ensures Excess(LocalLeave(l, actor).0, c) ==
            Excess(l, c) + if TakesFrom(l, Do(LeaveLocal(actor)), c) then 1 else 0
  {
    var i := FindActor(l.slots, actor);
    if i < |l.slots| {
      assert SlotOk(l.slots[i]);
      ClearedExcess(l, i, c);
    }
  }

  lemma DropActorExcess(l: Lobby, actor: Token, c: Token)
    requires SlotsOk(l.slots) && c != 0
    ensures Settled(l, DropActor(l, actor).0, c)
  {
    var i := FindActor(l.slots, actor);
    if i < |l.slots| {
      assert SlotOk(l.slots[i]);
      ClearedExcess(l, i, c);
    }
  }

  lemma RejoinExcess(l: Lobby, m: Command, c: Token)
    requires SlotsOk(l.slots) && c != 0 && m.RemoteJoin? && m.slotIdx < |l.slots|
    requires l.slots[m.slotIdx].availability != Available && l.slots[m.slotIdx].actor == m.actor
    ensures Settled(l, Rejoin(l, m), c)
  {
    var was := l.slots[m.slotIdx].client;
    if was != m.client {
      DropClientExcess(l, was, c);
      var slots := DropClient(l, was).0.slots;
      assert HasClient(l.slots, was);
      SeatsUpdate(slots, m.slotIdx, SeatedRemote(slots[m.slotIdx], m.actor, m.client, m.name, m.config), c);
    } else {
      SeatsUpdate(l.slots, m.slotIdx, SeatedRemote(l.slots[m.slotIdx], m.actor, m.client, m.name, m.config), c);
    }
  }

  lemma UnseatExcess(l: Lobby, m: Command, c: Token)
    requires SlotsOk(l.slots) && c != 0 && m.RemoteJoin?
    ensures Settled(l, Unseat(l, m), c)
  {
    var i := FindActor(l.slots, m.actor);
    if i < |l.slots| {
      if l.slots[i].client != m.client {
        DropClientExcess(l, l.slots[i].client, c);
      } else {
        ClearedExcess(l, i, c);
      }
    }
  }

  lemma JoinRemoteExcess(l: Lobby, m: Command, c: Token)
    requires SlotsOk(l.slots) && c != 0 && m.RemoteJoin?
    ensures Settled(l, JoinRemote(l, m).0, c)
  {
    if m.slotIdx < |l.slots| {
      if l.slots[m.slotIdx].availability != Available {
        if l.slots[m.slotIdx].actor == m.actor { RejoinExcess(l, m, c); }
      } else {
        assert SlotOk(l.slots[m.slotIdx]);
        UnseatExcess(l, m, c);
        UnseatSlots(l, m);
        var slots := Unseat(l, m).slots;
        SeatsUpdate(slots, m.slotIdx, SeatedRemote(slots[m.slotIdx], m.actor, m.client, m.name, m.config), c);
      }
    }
  }

  lemma LeaveRemoteExcess(l: Lobby, m: Command, c: Token)
    requires SlotsOk(l.slots) && c != 0 && m.RemoteLeave?
    ensures Settled(l, LeaveRemote(l, m).0, c)
  {
    if m.actor == 0 {
      SeatsCleared(l.slots, m.client, c);
    } else {
      var i := FindSeat(l.slots, m.actor, m.client);
      if i < |l.slots| { ClearedExcess(l, i, c); }
    }
  }

  /**
   * One turn of the lobby: a local command that takes a client's seat leaves the client counted for one seat
   * more; any other turn keeps the excess or settles it.
   */
  lemma ApplyExcess(l: Lobby, e: Event, c: Token)
    requires SlotsOk(l.slots) && c != 0 && Excess(l, c) >= 0
    ensures TakesFrom(l, e, c) ==> Excess(Apply(l, e), c) == Excess(l, c) + 1
    ensures !TakesFrom(l, e, c) ==> Settled(l, Apply(l, e), c)
  {
    hide SlotsOk, Seats, FindActor;
    match e
    case Timer(now) =>
    case Do(cmd) =>
      match cmd
      case Get(_) =>
      case JoinLocal(actor, slotIdx, localIdx, name) => LocalJoinExcess(l, actor, slotIdx, localIdx, name, c);
      case LeaveLocal(actor) => LocalLeaveExcess(l, actor, c);
      case ChangeName(_) =>
      case Evict(actor) => DropActorExcess(l, actor, c);
      case EvictClient(client) => DropClientExcess(l, client, c);
      case Finish(_) =>
      case RemoteJoin(_, _, _, _, _, _) => JoinRemoteExcess(l, cmd, c);
      case RemoteLeave(_, _, _) => LeaveRemoteExcess(l, cmd, c);
      case RemoteRequest(_, _) =>
  }

  // ---- every reachable state ----

  /** ls are the states of a lobby while its loop takes the turns es. */
  ghost predicate IsTrace(ls: seq<Lobby>, es: seq<Event>) {
    |ls| == |es| + 1 && forall i :: 0 <= i < |es| ==> ls[i + 1] == Apply(ls[i], es[i])
  }

  ghost predicate Started(l: Lobby) {
    exists name, stories :: stories != [] && l == NewLobby(name, stories)
  }

  lemma {:induction false} NoSeatsAtStart(slots: seq<Slot>, c: Token)
    requires c != 0 && forall i :: 0 <= i < |slots| ==> slots[i].client == 0
    ensures Seats(slots, c) == 0
  {
    if slots != [] { NoSeatsAtStart(slots[..|slots| - 1], c); }
  }

  lemma StartInv(l: Lobby)
    requires Started(l)
    ensures Inv(l) && CountedExactly(l.slots, l.clients)
  {
    var name, stories :| stories != [] && l == NewLobby(name, stories);
    assert l.slots[0].availability == Available;
    forall c | c != 0 ensures Seats(l.slots, c) == 0 { NoSeatsAtStart(l.slots, c); }
  }

  lemma ApplyInv(l: Lobby, e: Event)
    requires Inv(l)
    ensures Inv(Apply(l, e))
  {
    hide Apply, Seats, SlotsOk, HasAvailable, TakesFrom;
    SeatedAfter(l, e);
    forall c | c != 0 ensures Count(Apply(l, e).clients, c) >= Seats(Apply(l, e).slots, c) {
      assert Excess(l, c) >= 0;
      ApplyExcess(l, e, c);
      assert Excess(Apply(l, e), c) >= 0;
    }
  }

  /** Exact counts stay exact in a turn if and only if it is not a local command that takes a client's seat. */
  lemma ExactIffNoSeatTaken(l: Lobby, e: Event)
    requires Inv(l) && CountedExactly(l.slots, l.clients)
    ensures CountedExactly(Apply(l, e).slots, Apply(l, e).clients) <==> !TakesSeat(l, e)
  {
    hide Apply, Seats, SlotsOk, HasAvailable, TakenSeat;
    forall c | c != 0
      ensures Count(Apply(l, e).clients, c) == Seats(Apply(l, e).slots, c) <==> !TakesFrom(l, e, c)
    {
      assert Excess(l, c) == 0;
      ApplyExcess(l, e, c);
    }
    if TakesSeat(l, e) {
      assert TakesFrom(l, e, l.slots[TakenSeat(l, e.c)].client);
    }
  }

  lemma SeatedAfter(l: Lobby, e: Event)
    requires Seated(l)
    ensures Seated(Apply(l, e))
  {
    if e.Do? { ProcessSeated(l, e.c); }
  }

  /**
   * In every reachable state: the lobby is active exactly when a slot is available, a nonzero actor sits
   * in at most one slot, and no client holds more slots than it is counted for.
   */
  lemma {:induction false} LobbyInvariant(ls: seq<Lobby>, es: seq<Event>)
    requires IsTrace(ls, es) && Started(ls[0])
    ensures forall i :: 0 <= i < |ls| ==> Inv(ls[i])
  {
    hide Inv, Apply, Started;
    if es == [] {
      StartInv(ls[0]);
    } else {
      var n := |es| - 1;
      LobbyInvariant(ls[..n + 1], es[..n]);
      assert ls[..n + 1][n] == ls[n];
      ApplyInv(ls[n], es[n]);
      assert forall i :: 0 <= i < n + 1 ==> ls[..n + 1][i] == ls[i];
    }
  }

  ghost predicate AllExact(ls: seq<Lobby>) {
    forall i :: 0 <= i < |ls| ==> CountedExactly(ls[i].slots, ls[i].clients)
  }

  ghost predicate NoSeatTaken(ls: seq<Lobby>, es: seq<Event>)
    requires |ls| == |es| + 1
  {
    forall i :: 0 <= i < |es| ==> !TakesSeat(ls[i], es[i])
  }

  lemma OneTurnMore(ls: seq<Lobby>, es: seq<Event>)
    requires |ls| == |es| + 1 && es != []
    ensures var n := |es| - 1;
      && (AllExact(ls) <==> AllExact(ls[..n + 1]) && CountedExactly(ls[n + 1].slots, ls[n + 1].clients))
      && (NoSeatTaken(ls, es) <==> NoSeatTaken(ls[..n + 1], es[..n]) && !TakesSeat(ls[n], es[n]))
  {
    hide CountedExactly, TakesSeat;
    var n := |es| - 1;
    assert forall i :: 0 <= i < n + 1 ==> ls[..n + 1][i] == ls[i];
    assert forall i :: 0 <= i < n ==> es[..n][i] == es[i];
  }

  /** Counts are exact throughout a run if and only if none of its local commands takes a client's seat. */
  lemma {:induction false} CountsAreExact(ls: seq<Lobby>, es: seq<Event>)
    requires IsTrace(ls, es) && Started(ls[0])
    ensures AllExact(ls) <==> NoSeatTaken(ls, es)
  {
    LobbyInvariant(ls, es);
    if es == [] {
      StartInv(ls[0]);
    } else {
      hide Inv, Apply, Started, CountedExactly, TakesSeat;
      var n := |es| - 1;
      CountsAreExact(ls[..n + 1], es[..n]);
      OneTurnMore(ls, es);
      if AllExact(ls[..n + 1]) {
        assert ls[..n + 1][n] == ls[n];
        ExactIffNoSeatTaken(ls[n], es[n]);
      }
    }
  }

  /** In particular when local commands name only actors without a remote seat. */
  lemma FairCountsAreExact(ls: seq<Lobby>, es: seq<Event>, i: nat)
    requires IsTrace(ls, es) && Started(ls[0]) && i < |ls|
    requires forall j :: 0 <= j < |es| ==> Fair(ls[j], es[j])
    ensures CountedExactly(ls[i].slots, ls[i].clients)
  {
    LobbyInvariant(ls, es);
    hide CountedExactly, Fair, TakesSeat, Apply, Started;
    forall j | 0 <= j < |es| ensures !TakesSeat(ls[j], es[j]) {
      assert Inv(ls[j]);
      FairTakesNoSeat(ls[j], es[j]);
    }
    CountsAreExact(ls, es);
  }

  /**
   * A client whose only actor is seated locally instead holds no slot, yet it stays counted for one, and no
   * timer ever forgets it.
   */
  lemma TakenSeatIsStillCounted(name: string, story: Token, now: int)
    ensures var l0 := NewLobby(name, [story]);
      var l1 := Apply(l0, Do(RemoteJoin(1, 5, 0, "a", Some([]), NO_CONTACT)));
      var l2 := Apply(l1, Do(JoinLocal(5, 0, 0, "b")));
      && CountedExactly(l1.slots, l1.clients) && !HasClient(l2.slots, 1)
      && Count(l2.clients, 1) == 1 && Excess(l2, 1) == 1 && 1 in Apply(l2, Timer(now)).clients
  {
    var l0 := NewLobby(name, [story]);
    var join, take := Do(RemoteJoin(1, 5, 0, "a", Some([]), NO_CONTACT)), Do(JoinLocal(5, 0, 0, "b"));
    var l1 := Apply(l0, join);
    var l2 := Apply(l1, take);
    assert Started(l0);
    StartInv(l0);
    assert FindActor(l0.slots[..0], 5) == 0;
    ExactIffNoSeatTaken(l0, join);
    assert l2.slots == [SeatedLocal(l0.slots[0], 5, 0, "b")];
    NoSeats(l2.slots, 1);
  }

  /** A client that holds no slot and was silent for a minute is forgotten if and only if its count is exact. */
  lemma SilentClientIsForgotten(l: Lobby, now: int, c: Token)
    requires Inv(l) && c != 0 && c in l.clients && !HasClient(l.slots, c)
    requires now - l.clients[c].contact.at > CLIENT_TIMEOUT
    ensures c !in Apply(l, Timer(now)).clients <==> Excess(l, c) == 0
  {
    NoSeats(l.slots, c);
    assert Count(l.clients, c) >= Seats(l.slots, c);
  }

  /** The timer never forgets a client that holds a slot. */
  lemma PurgeKeepsSeated(l: Lobby, now: int, c: Token)
    requires Inv(l) && c != 0 && HasClient(l.slots, c)
    ensures c in l.clients && c in Apply(l, Timer(now)).clients
  {
    SomeSeats(l.slots, c);
    assert Count(l.clients, c) >= Seats(l.slots, c);
  }

  lemma {:induction false} SomeSeats(slots: seq<Slot>, c: Token)
    requires HasClient(slots, c)
    ensures Seats(slots, c) >= 1
  {
    var i :| 0 <= i < |slots| && slots[i].client == c;
    if i < |slots| - 1 {
      assert slots[..|slots| - 1][i].client == c;
      SomeSeats(slots[..|slots| - 1], c);
    }
  }

  // ---- what commands do to the seats ----

  /** A command that reports no change leaves the name, the slots and the state as they were. */
  lemma FalseChangesNothing(l: Lobby, c: Command)
    requires !Process(l, c).1
    ensures var l' := Process(l, c).0;
      l'.name == l.name && l'.slots == l.slots && l'.state == l.state && l'.version == l.version
  {
  }

  /** Commands never change which story a slot belongs to, nor the number of slots. */
  lemma StoriesStay(l: Lobby, c: Command)
    ensures |Process(l, c).0.slots| == |l.slots|
    ensures forall i :: 0 <= i < |l.slots| ==> Process(l, c).0.slots[i].story == l.slots[i].story
  {
  }

  ghost predicate Claimable(d: Slot, actor: Token) {
    d.availability == Available || d.actor == actor
  }

  ghost predicate SitsOnlyAt(slots: seq<Slot>, actor: Token, i: nat) {
    i < |slots| && slots[i].actor == actor && forall j :: 0 <= j < |slots| && j != i ==> slots[j].actor != actor
  }

  /**
   * A remote join succeeds exactly when the slot exists and is available or already the actor's own; then
   * the actor sits there and nowhere else, under its client, and is counted for it.
   */
  lemma RemoteJoinSeats(l: Lobby, m: Command)
    requires Inv(l) && m.RemoteJoin? && m.actor != 0 && m.client != 0
    ensures var (l', joined) := JoinRemote(l, m);
      && joined == (m.slotIdx < |l.slots| && Claimable(l.slots[m.slotIdx], m.actor))
      && (joined ==> SitsOnlyAt(l'.slots, m.actor, m.slotIdx))
      && (joined ==>
            l'.slots[m.slotIdx] == Slot(l.slots[m.slotIdx].story, Remote, m.client, m.actor, m.name, m.config))
      && (joined ==> m.client in l'.clients && l'.clients[m.client].contact == m.contact)
  {
    if m.slotIdx < |l.slots| && l.slots[m.slotIdx].availability == Available {
      UnseatSlots(l, m);
    }
  }

  /** A remote join changes no seat of any other client's actors. */
  lemma RemoteJoinSpares(l: Lobby, m: Command, i: nat)
    requires Inv(l) && m.RemoteJoin? && m.actor != 0 && i < |l.slots| && i != m.slotIdx
    requires l.slots[i].actor != m.actor
    requires forall j :: 0 <= j < |l.slots| && l.slots[j].actor == m.actor ==> l.slots[j].client == m.client
    ensures JoinRemote(l, m).0.slots[i] == l.slots[i]
  {
  }

  /**
   * A local join succeeds under the same condition for a valid index, with the number of slots cut to a byte,
   * and seats the actor there only.
   */
  lemma LocalJoinSeats(l: Lobby, actor: Token, slotIdx: Byte, localIdx: Byte, name: string)
    requires Inv(l) && actor != 0
    ensures var (l', joined) := LocalJoin(l, actor, slotIdx, localIdx, name);
      && joined == (slotIdx < |l.slots| % 256 && localIdx <= 3 && Claimable(l.slots[slotIdx], actor))
      && (joined ==> SitsOnlyAt(l'.slots, actor, slotIdx))
      && (joined ==> l'.slots[slotIdx] == Slot(l.slots[slotIdx].story, Local(localIdx), 0, actor, name, None))
  {
  }

  /** After a leave, an eviction or the eviction of its client an actor has no seat. */
  lemma LeavingUnseats(l: Lobby, actor: Token, client: Token, contact: Contact)
    requires Inv(l) && actor != 0 && client != 0
    ensures forall i :: 0 <= i < |l.slots| ==>
              && LocalLeave(l, actor).0.slots[i].actor != actor
              && DropActor(l, actor).0.slots[i].actor != actor
              && DropClient(l, client).0.slots[i].client != client
              && LeaveRemote(l, RemoteLeave(client, 0, contact)).0.slots[i].client != client
              && var d := LeaveRemote(l, RemoteLeave(client, actor, contact)).0.slots[i];
                 d.actor != actor || d.client != client
  {
    var i := FindSeat(l.slots, actor, client);
    assert i < |l.slots| ==> l.slots[i].actor == actor;
  }

  // ---- what others get to see ----

  ghost predicate SameButForActors(a: Slot, b: Slot, client: Token) {
    b == a.(actor := b.actor) && (Owns(a, client) ==> b.actor == a.actor)
  }

  /** What a client is told does not depend on anybody else's actors, and shows all of its own. */
  lemma ClientSeesOnlyItsActors(l: Lobby, other: Lobby, client: Token)
    requires |other.slots| == |l.slots| && other == l.(slots := other.slots)
    requires forall i :: 0 <= i < |l.slots| ==> SameButForActors(l.slots[i], other.slots[i], client)
    ensures ViewFor(l, client) == ViewFor(other, client)
    ensures forall i :: 0 <= i < |l.slots| && Owns(l.slots[i], client) ==>
              ViewFor(l, client).slots[i].actor == l.slots[i].actor
  {
  }

  /** The timer sends every client that it does not forget just what the client would be told on request. */
  lemma BroadcastIsWhatARequestTells(l: Lobby, now: int, c: Token)
    requires Inv(l) && c != 0 && c in Broadcast(l, now)
    ensures Broadcast(l, now)[c] == ViewFor(l, c)
  {
    if l.clients[c].count <= 0 {
      if HasClient(l.slots, c) { SomeSeats(l.slots, c); }
      assert Count(l.clients, c) >= Seats(l.slots, c);
    }
  }
}
