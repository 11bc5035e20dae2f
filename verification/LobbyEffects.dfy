/** What every turn of the lobby does. */
module LobbyEffects {
  import opened Streams
  import opened Lobbies
  import opened LobbyLaws

  /** A slot as in a new lobby. */
  function Blank(story: Token): Slot {
    Slot(story, Available, 0, 0, "", None)
  }

  ghost predicate IsSeated(l: Lobby, actor: Token) {
    exists i :: 0 <= i < |l.slots| && l.slots[i].actor == actor
  }

  /** The seat of the actor: the first slot that names it. Of an actor with a token there is at most one. */
  ghost predicate SeatOf(l: Lobby, actor: Token, i: int) {
    0 <= i < |l.slots| && l.slots[i].actor == actor && forall j :: 0 <= j < i ==> l.slots[j].actor != actor
  }

  ghost predicate SeatUnder(l: Lobby, actor: Token, client: Token, i: int) {
    && 0 <= i < |l.slots| && l.slots[i].actor == actor && l.slots[i].client == client
    && forall j :: 0 <= j < i ==> l.slots[j].actor != actor || l.slots[j].client != client
  }

  ghost predicate HasSeats(l: Lobby, client: Token) {
    exists i :: 0 <= i < |l.slots| && l.slots[i].client == client
  }

  /** The slots of l, but that those in `gone` were left. */
  ghost predicate Left(l: Lobby, l': Lobby, gone: iset<int>) {
    && |l'.slots| == |l.slots|
    && forall i :: 0 <= i < |l.slots| ==>
         l'.slots[i] == if i in gone then Blank(l.slots[i].story) else l.slots[i]
  }

  ghost function SeatsOf(l: Lobby, client: Token): iset<int> {
    iset i | 0 <= i < |l.slots| && l.slots[i].client == client
  }

  lemma OnlySeat(l: Lobby, actor: Token, i: int, j: int)
    requires Inv(l) && actor != 0 && SeatOf(l, actor, i) && 0 <= j < |l.slots| && l.slots[j].actor == actor
    ensures i == j
  {
  }

  /** Nothing but the slots, the state and the clients may differ. */
  ghost predicate SameName(l: Lobby, l': Lobby) {
    l'.name == l.name && l'.version == l.version
  }

  /** What is known of all clients but one is the same. */
  ghost predicate OthersKnown(l: Lobby, l': Lobby, c: Token) {
    forall o :: o != c ==> (o in l'.clients <==> o in l.clients) && (o in l.clients ==> l'.clients[o] == l.clients[o])
  }

  /** A new lobby has a blank slot for every story, in their order, and knows no clients. */
  lemma NewLobbyIs(name: string, stories: seq<Token>)
    ensures var l := NewLobby(name, stories);
      && l.name == name && l.state == Active && l.clients == map[] && l.version == 0 && |l.slots| == |stories|
      && forall i :: 0 <= i < |stories| ==> l.slots[i] == Blank(stories[i])
  {
  }

  // ---- leaving ----

  /** A local leave gives up the seat of the actor, whoever it belongs to, and tells whether there was one. */
  lemma LeaveLocalDoes(l: Lobby, actor: Token)
    ensures var (l', left) := Process(l, LeaveLocal(actor));
      && left == IsSeated(l, actor) && Left(l, l', iset i | SeatOf(l, actor, i))
      && SameName(l, l') && l'.clients == l.clients && l'.state == if left then Active else l.state
  {
    var at := FindActor(l.slots, actor);
    assert at < |l.slots| ==> SeatOf(l, actor, at);
  }

  /** So does the eviction of an actor, which also lowers the count of the client that had the seat. */
  lemma EvictDoes(l: Lobby, actor: Token)
    ensures var (l', left) := Process(l, Evict(actor));
      && left == IsSeated(l, actor) && Left(l, l', iset i | SeatOf(l, actor, i))
      && SameName(l, l') && l'.state == (if left then Active else l.state) && (!left ==> l' == l)
      && forall i :: SeatOf(l, actor, i) ==>
           var c := l.slots[i].client;
           if l.slots[i].availability == Remote
           then && OthersKnown(l, l', c) && c in l'.clients && l'.clients[c].count == Count(l.clients, c) - 1
                && (c in l.clients ==> l'.clients[c].contact == l.clients[c].contact)
           else l'.clients == l.clients
  {
    var at := FindActor(l.slots, actor);
    assert at < |l.slots| ==> SeatOf(l, actor, at);
    assert forall i :: SeatOf(l, actor, i) ==> i == at;
  }

  /** The eviction of a client gives up all its seats and forgets it. */
  lemma EvictClientDoes(l: Lobby, client: Token)
    ensures var (l', left) := Process(l, EvictClient(client));
      && left == HasSeats(l, client) && Left(l, l', SeatsOf(l, client))
      && SameName(l, l') && l'.state == (if left then Active else l.state)
      && client !in l'.clients && OthersKnown(l, l', client)
  {
  }

  /** A client that leaves gives up all its seats; it stays known, with a count of 0 and its new contact. */
  lemma RemoteLeaveAllDoes(l: Lobby, client: Token, contact: Contact)
    ensures var (l', left) := Process(l, RemoteLeave(client, 0, contact));
      && left == HasSeats(l, client) && Left(l, l', SeatsOf(l, client))
      && SameName(l, l') && l'.state == (if left then Active else l.state) && OthersKnown(l, l', client)
      && (if left then client in l'.clients && l'.clients[client] == ClientInfo(0, contact) else l' == l)
  {
  }

  /** An actor of a client that leaves gives up its seat, when it is the client's. */
  lemma RemoteLeaveDoes(l: Lobby, client: Token, actor: Token, contact: Contact)
    requires actor != 0
    ensures var (l', left) := Process(l, RemoteLeave(client, actor, contact));
      && (left <==> exists i :: SeatUnder(l, actor, client, i))
      && Left(l, l', iset i | SeatUnder(l, actor, client, i))
      && SameName(l, l') && l'.state == (if left then Active else l.state) && OthersKnown(l, l', client)
      && (if left then client in l'.clients && l'.clients[client] == ClientInfo(Count(l.clients, client) - 1, contact)
          else l' == l)
  {
    var at := FindSeat(l.slots, actor, client);
    if at < |l.slots| {
      assert SeatUnder(l, actor, client, at);
    } else {
      assert forall i :: !SeatUnder(l, actor, client, i);
    }
  }

  // ---- joining ----

  /** When a join succeeds, for any tokens. */
  lemma JoinsSucceed(l: Lobby, m: Command, actor: Token, slotIdx: Byte, localIdx: Byte, name: string)
    requires m.RemoteJoin?
    ensures Process(l, JoinLocal(actor, slotIdx, localIdx, name)).1 <==>
            slotIdx < |l.slots| % 256 && localIdx <= 3
            && (l.slots[slotIdx].availability == Available || l.slots[slotIdx].actor == actor)
    ensures Process(l, m).1 <==>
            m.slotIdx < |l.slots|
            && (l.slots[m.slotIdx].availability == Available || l.slots[m.slotIdx].actor == m.actor)
    ensures !Process(l, JoinLocal(actor, slotIdx, localIdx, name)).1 ==>
            Process(l, JoinLocal(actor, slotIdx, localIdx, name)).0 == l
    ensures !Process(l, m).1 ==> Process(l, m).0 == l
  {
  }

  ghost predicate StateFits(l: Lobby) {
    l.state == if exists i :: 0 <= i < |l.slots| && l.slots[i].availability == Available then Active else Ready
  }

  /** A local join to an available slot takes the seat of the actor with it, and nobody else's. */
  lemma JoinLocalDoes(l: Lobby, actor: Token, slotIdx: Byte, localIdx: Byte, name: string)
    requires Process(l, JoinLocal(actor, slotIdx, localIdx, name)).1
    ensures var l' := Process(l, JoinLocal(actor, slotIdx, localIdx, name)).0;
      && SameName(l, l') && l'.clients == l.clients && |l'.slots| == |l.slots| && slotIdx < |l.slots|
      && StateFits(l')
      && l'.slots[slotIdx] == Slot(l.slots[slotIdx].story, Local(localIdx), 0, actor, name, None)
      && forall i :: 0 <= i < |l.slots| && i != slotIdx ==>
           l'.slots[i] ==
           if l.slots[slotIdx].availability == Available && SeatOf(l, actor, i) then Blank(l.slots[i].story)
           else l.slots[i]
  {
    var at := FindActor(l.slots, actor);
    assert at < |l.slots| ==> SeatOf(l, actor, at);
  }

  /** The client whose seats go when m succeeds: that of the seat the actor has, when it is another one. */
  ghost predicate Evicts(l: Lobby, m: Command, client: Token)
    requires m.RemoteJoin? && m.slotIdx < |l.slots|
  {
    client != m.client &&
    if l.slots[m.slotIdx].availability == Available
    then exists i :: SeatOf(l, m.actor, i) && l.slots[i].client == client
    else l.slots[m.slotIdx].client == client
  }

  /** The actor has a seat under its client already, which it leaves or claims again. */
  ghost predicate Moves(l: Lobby, m: Command)
    requires m.RemoteJoin? && m.slotIdx < |l.slots|
  {
    if l.slots[m.slotIdx].availability == Available
    then exists i :: SeatOf(l, m.actor, i) && l.slots[i].client == m.client
    else l.slots[m.slotIdx].client == m.client
  }

  /**
   * A remote join to an available slot takes the seat of the actor with it. When the actor was seated under another
   * client, all seats of that client go.
   */
  lemma JoinRemoteDoes(l: Lobby, m: Command)
    requires m.RemoteJoin? && Process(l, m).1
    ensures var l' := Process(l, m).0;
      && SameName(l, l') && |l'.slots| == |l.slots| && m.slotIdx < |l.slots| && StateFits(l')
      && l'.slots[m.slotIdx] == Slot(l.slots[m.slotIdx].story, Remote, m.client, m.actor, m.name, m.config)
      && forall i :: 0 <= i < |l.slots| && i != m.slotIdx ==>
           l'.slots[i] ==
           if Evicts(l, m, l.slots[i].client)
              || (l.slots[m.slotIdx].availability == Available && SeatOf(l, m.actor, i))
           then Blank(l.slots[i].story) else l.slots[i]
  {
    var at := FindActor(l.slots, m.actor);
    assert at < |l.slots| ==> SeatOf(l, m.actor, at);
    assert forall i :: SeatOf(l, m.actor, i) ==> i == at;
  }

  /** That client is forgotten, and m's is known with its new contact and one more seat, unless the actor had one. */
  lemma JoinRemoteCounts(l: Lobby, m: Command)
    requires m.RemoteJoin? && Process(l, m).1
    ensures var l' := Process(l, m).0;
      && m.slotIdx < |l.slots| && m.client in l'.clients && l'.clients[m.client].contact == m.contact
      && l'.clients[m.client].count == Count(l.clients, m.client) + (if Moves(l, m) then 0 else 1)
      && (forall c :: Evicts(l, m, c) ==> c !in l'.clients)
      && forall o :: o != m.client && !Evicts(l, m, o) ==>
           (o in l'.clients <==> o in l.clients) && (o in l.clients ==> l'.clients[o] == l.clients[o])
  {
    var at := FindActor(l.slots, m.actor);
    assert at < |l.slots| ==> SeatOf(l, m.actor, at);
    assert forall i :: SeatOf(l, m.actor, i) ==> i == at;
  }

  /** When a local actor joins from a client, every other local actor loses its seat: client 0 is evicted. */
  lemma RemoteJoinClearsLocals(name: string, contact: Contact)
    ensures var l1 := Apply(NewLobby(name, [1, 1, 1]), Do(JoinLocal(5, 0, 0, "a")));
      var l2 := Apply(l1, Do(JoinLocal(6, 1, 1, "b")));
      var l3 := Apply(l2, Do(RemoteJoin(7, 5, 2, "a", None, contact)));
      && l2.slots == [Slot(1, Local(0), 0, 5, "a", None), Slot(1, Local(1), 0, 6, "b", None), Blank(1)]
      && l3.slots == [Blank(1), Blank(1), Slot(1, Remote, 7, 5, "a", None)]
  {
    var l0 := NewLobby(name, [1, 1, 1]);
    var l1 := Apply(l0, Do(JoinLocal(5, 0, 0, "a")));
    assert l1.slots == [Slot(1, Local(0), 0, 5, "a", None), Blank(1), Blank(1)];
    var l2 := Apply(l1, Do(JoinLocal(6, 1, 1, "b")));
    assert FindActor(l1.slots, 6) == 3;
    assert l2.slots == [Slot(1, Local(0), 0, 5, "a", None), Slot(1, Local(1), 0, 6, "b", None), Blank(1)];
    assert l2.slots[0].actor == 5 && FindActor(l2.slots, 5) == 0;
    var l3 := Apply(l2, Do(RemoteJoin(7, 5, 2, "a", None, contact)));
    assert l3.slots == [Blank(1), Blank(1), Slot(1, Remote, 7, 5, "a", None)];
  }

  // ---- other commands ----

  /** A request refreshes the contact of the client. */
  lemma RequestDoes(l: Lobby, client: Token, contact: Contact)
    ensures var (l', changed) := Process(l, RemoteRequest(client, contact));
      && changed && l' == l.(clients := l'.clients) && OthersKnown(l, l', client)
      && client in l'.clients && l'.clients[client] == ClientInfo(Count(l.clients, client), contact)
  {
  }

  lemma ChangeNameDoes(l: Lobby, name: string)
    ensures Process(l, ChangeName(name)) == (l.(name := name), name != l.name)
  {
  }

  /** A finish request counts down by one step, or is refused when a slot is available or the version has moved. */
  lemma FinishDoes(l: Lobby, expected: int)
    ensures var (l', accepted) := Process(l, Finish(expected));
      && accepted == (l.state != Active && expected == l.version)
      && l' == l.(state := l'.state) && (!accepted ==> l' == l)
      && (accepted && l.state == Ready ==> l'.state == Starting3)
      && (accepted && l.state == Starting3 ==> l'.state == Starting2)
      && (accepted && l.state == Starting2 ==> l'.state == Starting1)
      && (accepted && (l.state == Starting1 || l.state == Starting) ==> l'.state == Starting)
  {
  }

  /** A turn raises the version by one exactly when the command changed something. */
  lemma TurnDoes(l: Lobby, c: Command)
    ensures Apply(l, Do(c)) == Process(l, c).0.(version := l.version + if Process(l, c).1 then 1 else 0)
  {
  }

  /** A client is forgotten by the timer exactly when it is not counted and was silent for more than a minute. */
  lemma TimerDoes(l: Lobby, now: int)
    ensures var l' := Apply(l, Timer(now));
      && l' == l.(clients := l'.clients)
      && (forall c :: c in l'.clients <==>
            c in l.clients && (l.clients[c].count > 0 || now - l.clients[c].contact.at <= 60_000_000_000))
      && (forall c :: c in l'.clients ==> l'.clients[c] == l.clients[c])
      && (forall c :: c in Broadcast(l, now) <==> c in l'.clients)
  {
  }

  // ---- replies ----

  /** The slots as they are shown: with their story, availability and name, and the latency of the slot's client. */
  ghost predicate Shows(view: LobbyView, l: Lobby) {
    && view.name == l.name && view.state == l.state && |view.slots| == |l.slots|
    && forall i :: 0 <= i < |l.slots| ==>
         && view.slots[i].story == l.slots[i].story && view.slots[i].availability == l.slots[i].availability
         && view.slots[i].name == l.slots[i].name
         && (l.slots[i].client in l.clients ==>
               view.slots[i].latency == l.clients[l.slots[i].client].contact.latency)
         && (l.slots[i].client !in l.clients ==> view.slots[i].latency == 0)
  }

  /** Every view shows the lobby; they differ in the actors. */
  lemma ViewsShow(l: Lobby, c: Token)
    ensures Shows(FullView(l), l) && Shows(ViewFor(l, c), l) && Shows(BlankView(l), l)
    ensures forall i :: 0 <= i < |l.slots| ==>
              && FullView(l).slots[i].actor == l.slots[i].actor && BlankView(l).slots[i].actor == 0
              && ViewFor(l, c).slots[i].actor ==
                 if l.slots[i].availability == Remote && l.slots[i].client == c then l.slots[i].actor else 0
  {
  }

  /** A view says that the lobby is Active exactly when it shows an available slot. */
  lemma ActiveIffAvailable(l: Lobby, view: LobbyView)
    requires Inv(l) && Shows(view, l)
    ensures view.state == Active <==> exists i :: 0 <= i < |view.slots| && view.slots[i].availability == Available
  {
    if i :| 0 <= i < |l.slots| && l.slots[i].availability == Available {
      assert view.slots[i].availability == Available;
    }
    if i :| 0 <= i < |view.slots| && view.slots[i].availability == Available {
      assert l.slots[i].availability == Available;
    }
  }

  /** A client can join a slot exactly when the client is shown it as available or it is the actor's own. */
  lemma JoinsWhatItSees(l: Lobby, m: Command)
    requires Inv(l) && m.RemoteJoin? && m.actor != 0 && m.client != 0 && m.slotIdx < |l.slots|
    ensures var view := ViewFor(l, m.client);
      Process(l, m).1 <==> view.slots[m.slotIdx].availability == Available || l.slots[m.slotIdx].actor == m.actor
  {
  }

  /** What is answered to each command. */
  lemma RepliesAre(l: Lobby, have: int, expected: int, client: Token, contact: Contact)
    ensures ReplyTo(l, Get(have)) == if have == l.version then Silent else Current(l.version, FullView(l))
    ensures ReplyTo(l, Finish(expected)) ==
            if l.state != Active && expected == l.version
            then Finishing(l.version, l.name, l.slots, l.clients) else Refused
    ensures ReplyTo(l, RemoteRequest(client, contact)).Setup?
    ensures Shows(ReplyTo(l, RemoteRequest(client, contact)).view, Process(l, RemoteRequest(client, contact)).0)
  {
  }
}
