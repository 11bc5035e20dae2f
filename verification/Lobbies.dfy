/** The lobby and its commands, on values (udpstar/server/service_lobby.go). */
module Lobbies {
  import opened Streams

  type Token = nat

  datatype Availability = Available | Local(idx: nat) | Remote

  datatype Slot = Slot(
    story: Token, availability: Availability, client: Token, actor: Token, name: string, config: Option<seq<Byte>>)

  /** Where a client was last heard from. */
  datatype Contact = Contact(at: int, addr: nat, latency: int)

  datatype ClientInfo = ClientInfo(count: int, contact: Contact)

  datatype LobbyState = Active | Ready | Starting3 | Starting2 | Starting1 | Starting

  datatype Lobby = Lobby(
    name: string, slots: seq<Slot>, state: LobbyState, clients: map<Token, ClientInfo>, version: nat)

  /** The commands of lobbyCommandProcessor; times of receipt are part of the contact. */
  datatype Command =
    | Get(haveVersion: int)
    | JoinLocal(actor: Token, slotIdx: Byte, localIdx: Byte, name: string)
    | LeaveLocal(actor: Token)
    | ChangeName(name: string)
    | Evict(actor: Token)
    | EvictClient(client: Token)
    | Finish(expectedVersion: int)
    | RemoteJoin(client: Token, actor: Token, slotIdx: Byte, name: string, config: Option<seq<Byte>>, contact: Contact)
    | RemoteLeave(client: Token, actor: Token, contact: Contact)
    | RemoteRequest(client: Token, contact: Contact)

  // ---- slots ----

  function Cleared(d: Slot): Slot {
    Slot(d.story, Available, 0, 0, "", None)
  }

  function SeatedLocal(d: Slot, actor: Token, idx: nat, name: string): Slot {
    Slot(d.story, Local(idx), 0, actor, name, None)
  }

  function SeatedRemote(d: Slot, actor: Token, client: Token, name: string, config: Option<seq<Byte>>): Slot {
    Slot(d.story, Remote, client, actor, name, config)
  }

  /** The first slot of the actor, |slots| when there is none. */
  function FindActor(slots: seq<Slot>, actor: Token): (i: nat)
    ensures i <= |slots| && (i < |slots| ==> slots[i].actor == actor)
    ensures forall j :: 0 <= j < i ==> slots[j].actor != actor
  {
    if slots == [] then 0
    else
      var i := FindActor(slots[..|slots| - 1], actor);
      if i < |slots| - 1 then i else if slots[|slots| - 1].actor == actor then |slots| - 1 else |slots|
  }

  /** The first slot of the actor that belongs to the client. */
  function FindSeat(slots: seq<Slot>, actor: Token, client: Token): (i: nat)
    ensures i <= |slots| && (i < |slots| ==> slots[i].actor == actor && slots[i].client == client)
    ensures forall j :: 0 <= j < i ==> slots[j].actor != actor || slots[j].client != client
  {
    if slots == [] then 0
    else
      var i := FindSeat(slots[..|slots| - 1], actor, client);
      if i < |slots| - 1 then i
      else if slots[|slots| - 1].actor == actor && slots[|slots| - 1].client == client then |slots| - 1
      else |slots|
  }

  function ClearSlot(slots: seq<Slot>, i: nat): seq<Slot>
    requires i < |slots|
  {
    slots[i := Cleared(slots[i])]
  }

  function ClearClient(slots: seq<Slot>, client: Token): seq<Slot> {
    seq(|slots|, i requires 0 <= i < |slots| => if slots[i].client == client then Cleared(slots[i]) else slots[i])
  }

  predicate HasClient(slots: seq<Slot>, client: Token) {
    exists i :: 0 <= i < |slots| && slots[i].client == client
  }

  predicate HasAvailable(slots: seq<Slot>) {
    exists i :: 0 <= i < |slots| && slots[i].availability == Available
  }

  function StateOf(slots: seq<Slot>): LobbyState {
    if HasAvailable(slots) then Active else Ready
  }

  // ---- clients ----

  type Clients = map<Token, ClientInfo>

  function Count(clients: Clients, c: Token): int {
    if c in clients then clients[c].count else 0
  }

  function Touch(clients: Clients, c: Token, contact: Contact): Clients {
    clients[c := ClientInfo(Count(clients, c), contact)]
  }

  /** Changes the count and the contact. */
  function CountTouch(clients: Clients, c: Token, count: int, contact: Contact): Clients {
    clients[c := ClientInfo(count, contact)]
  }

  const NO_CONTACT := Contact(0, 0, 0)

  function DecNoContact(clients: Clients, c: Token): Clients {
    clients[c := ClientInfo(Count(clients, c) - 1, if c in clients then clients[c].contact else NO_CONTACT)]
  }

  // ---- commands; the result tells whether anything changed ----

  function LocalJoin(l: Lobby, actor: Token, slotIdx: Byte, localIdx: Byte, name: string): (Lobby, bool) {
    if slotIdx >= |l.slots| % 256 || localIdx > 3 then (l, false)
    else if l.slots[slotIdx].availability != Available then
      if l.slots[slotIdx].actor == actor then
        var slots := l.slots[slotIdx := SeatedLocal(l.slots[slotIdx], actor, localIdx, name)];
        (l.(slots := slots, state := StateOf(slots)), true)
      else (l, false)
    else
      var i := FindActor(l.slots, actor);
      var without := if i < |l.slots| then ClearSlot(l.slots, i) else l.slots;
      var slots := without[slotIdx := SeatedLocal(without[slotIdx], actor, localIdx, name)];
      (l.(slots := slots, state := StateOf(slots)), true)
  }

  function LocalLeave(l: Lobby, actor: Token): (Lobby, bool) {
    var i := FindActor(l.slots, actor);
    if i < |l.slots| then (l.(slots := ClearSlot(l.slots, i), state := Active), true) else (l, false)
  }

  function DropClient(l: Lobby, client: Token): (Lobby, bool) {
    if HasClient(l.slots, client) then
      (l.(slots := ClearClient(l.slots, client), state := Active, clients := l.clients - {client}), true)
    else (l.(clients := l.clients - {client}), false)
  }

  function DropActor(l: Lobby, actor: Token): (Lobby, bool) {
    var i := FindActor(l.slots, actor);
    if i < |l.slots| then
      var clients :=
        if l.slots[i].availability == Remote then DecNoContact(l.clients, l.slots[i].client) else l.clients;
      (l.(slots := ClearSlot(l.slots, i), state := Active, clients := clients), true)
    else (l, false)
  }

  /** A remote actor claims the slot it already has. */
  function Rejoin(l: Lobby, m: Command): Lobby
    requires m.RemoteJoin? && m.slotIdx < |l.slots|
  {
    var was := l.slots[m.slotIdx].client;
    var l1 :=
      if was != m.client then
        var l0 := DropClient(l, was).0;
        l0.(clients := CountTouch(l0.clients, m.client, Count(l0.clients, m.client) + 1, m.contact))
      else l.(clients := Touch(l.clients, m.client, m.contact));
    var slots := l1.slots[m.slotIdx := SeatedRemote(l1.slots[m.slotIdx], m.actor, m.client, m.name, m.config)];
    l1.(slots := slots, state := StateOf(slots))
  }

  /** A remote actor leaves the slot it has for another one. */
  function Unseat(l: Lobby, m: Command): (r: Lobby)
    requires m.RemoteJoin?
    ensures |r.slots| == |l.slots|
  {
    var i := FindActor(l.slots, m.actor);
    if i == |l.slots| then l
    else if l.slots[i].client != m.client then DropClient(l, l.slots[i].client).0
    else
      l.(clients := CountTouch(l.clients, m.client, Count(l.clients, m.client) - 1, m.contact),
         slots := ClearSlot(l.slots, i))
  }

  function JoinRemote(l: Lobby, m: Command): (Lobby, bool)
    requires m.RemoteJoin?
  {
    if m.slotIdx >= |l.slots| then (l, false)
    else if l.slots[m.slotIdx].availability != Available then
      if l.slots[m.slotIdx].actor == m.actor then (Rejoin(l, m), true) else (l, false)
    else
      var l1 := Unseat(l, m);
      var slots := l1.slots[m.slotIdx := SeatedRemote(l1.slots[m.slotIdx], m.actor, m.client, m.name, m.config)];
      (l1.(clients := CountTouch(l1.clients, m.client, Count(l1.clients, m.client) + 1, m.contact),
           slots := slots, state := StateOf(slots)), true)
  }

  function LeaveRemote(l: Lobby, m: Command): (Lobby, bool)
    requires m.RemoteLeave?
  {
    if m.actor == 0 then
      if HasClient(l.slots, m.client) then
        (l.(slots := ClearClient(l.slots, m.client), state := Active,
            clients := CountTouch(l.clients, m.client, 0, m.contact)), true)
      else (l, false)
    else
      var i := FindSeat(l.slots, m.actor, m.client);
      if i < |l.slots| then
        (l.(slots := ClearSlot(l.slots, i), state := Active,
            clients := CountTouch(l.clients, m.client, Count(l.clients, m.client) - 1, m.contact)), true)
      else (l, false)
  }

  /** The finish request is accepted when all seats are taken and nobody changed anything meanwhile. */
  predicate Accepts(l: Lobby, expectedVersion: int) {
    l.state != Active && expectedVersion == l.version
  }

  function NextState(s: LobbyState): LobbyState {
    match s
    case Active => Active
    case Ready => Starting3
    case Starting3 => Starting2
    case Starting2 => Starting1
    case Starting1 => Starting
    case Starting => Starting
  }

  function Process(l: Lobby, c: Command): (Lobby, bool) {
    match c
    case Get(_) => (l, false)
    case JoinLocal(actor, slotIdx, localIdx, name) => LocalJoin(l, actor, slotIdx, localIdx, name)
    case LeaveLocal(actor) => LocalLeave(l, actor)
    case ChangeName(name) => (l.(name := name), name != l.name)
    case Evict(actor) => DropActor(l, actor)
    case EvictClient(client) => DropClient(l, client)
    case Finish(expected) => if Accepts(l, expected) then (l.(state := NextState(l.state)), true) else (l, false)
    case RemoteJoin(_, _, _, _, _, _) => JoinRemote(l, c)
    case RemoteLeave(_, _, _) => LeaveRemote(l, c)
    case RemoteRequest(client, contact) => (l.(clients := Touch(l.clients, client, contact)), true)
  }

  const CLIENT_TIMEOUT := 60_000_000_000  // nanoseconds

  // ---- what others get to see ----

  datatype SlotView = SlotView(story: Token, actor: Token, availability: Availability, name: string, latency: int)

  datatype LobbyView = LobbyView(name: string, slots: seq<SlotView>, state: LobbyState)

  /** The answer to a command, on its channel or to its sender. */
  datatype Reply =
    | Silent
    | Current(version: nat, view: LobbyView)
    | Finishing(version: nat, name: string, slots: seq<Slot>, clients: Clients)
    | Refused
    | Setup(view: LobbyView)

  function ViewSlot(l: Lobby, i: nat, actor: Token): SlotView
    requires i < |l.slots|
  {
    var d := l.slots[i];
    SlotView(d.story, actor, d.availability, d.name,
             if d.client in l.clients then l.clients[d.client].contact.latency else 0)
  }

  /** The lobby as the server's own players see it. */
  function FullView(l: Lobby): LobbyView {
    LobbyView(l.name, seq(|l.slots|, i requires 0 <= i < |l.slots| => ViewSlot(l, i, l.slots[i].actor)), l.state)
  }

  /** The lobby without any actor. */
  function BlankView(l: Lobby): LobbyView {
    LobbyView(l.name, seq(|l.slots|, i requires 0 <= i < |l.slots| => ViewSlot(l, i, 0)), l.state)
  }

  predicate Owns(d: Slot, client: Token) {
    d.availability == Remote && d.client == client
  }

  /** The lobby with only the client's own actors. */
  function ViewFor(l: Lobby, client: Token): LobbyView {
    LobbyView(l.name,
              seq(|l.slots|, i requires 0 <= i < |l.slots| =>
                ViewSlot(l, i, if Owns(l.slots[i], client) then l.slots[i].actor else 0)),
              l.state)
  }

  function ReplyTo(l: Lobby, c: Command): Reply {
    match c
    case Get(have) => if have == l.version then Silent else Current(l.version, FullView(l))
    case Finish(expected) =>
      if Accepts(l, expected) then Finishing(l.version, l.name, l.slots, l.clients) else Refused
    case RemoteRequest(client, _) => Setup(ViewFor(Process(l, c).0, client))
    case _ => Silent
  }

  /** The broadcast timer forgets clients whose count is not positive and that were silent for a minute. */
  function Purged(clients: Clients, now: int): Clients {
    map c | c in clients && !(clients[c].count <= 0 && now - clients[c].contact.at > CLIENT_TIMEOUT) :: clients[c]
  }

  /** What the timer sends to a client. */
  function Told(l: Lobby, c: Token): LobbyView
    requires c in l.clients
  {
    if l.clients[c].count <= 0 then BlankView(l) else ViewFor(l, c)
  }

  /** What the timer sends to every client that it does not forget. */
  function Broadcast(l: Lobby, now: int): map<Token, LobbyView> {
    map c | c in Purged(l.clients, now) :: Told(l, c)
  }

  datatype Event = Do(c: Command) | Timer(now: int)

  /** One turn of the lobby's loop. */
  function Apply(l: Lobby, e: Event): Lobby {
    match e
    case Do(c) =>
      var (l', changed) := Process(l, c);
      if changed then l'.(version := l'.version + 1) else l'
    case Timer(now) => l.(clients := Purged(l.clients, now))
  }

  /** A new lobby for the given slots. */
  function NewLobby(name: string, stories: seq<Token>): Lobby {
    Lobby(name, seq(|stories|, i requires 0 <= i < |stories| => Slot(stories[i], Available, 0, 0, "", None)),
          Active, map[], 0)
  }
}
