/**
 * The lobby service in the form the program gives it (udpstar/server/service_lobby.go): fields that its
 * commands and its timer change in place. Every method is proved to do to the fields what the functions of
 * Lobbies do to values, so that the laws about those functions hold for the service.
 */
module LobbyServices {
  import opened Streams
  import opened Lobbies

  class LobbyService {
    var name: string
    var slots: seq<Slot>
    var state: LobbyState
    var clients: Clients
    var version: nat

    ghost function Value(): Lobby
      reads this
    {
      Lobby(name, slots, state, clients, version)
    }

    constructor (name: string, stories: seq<Token>)
      ensures Value() == NewLobby(name, stories)
    {
      this.name := name;
      slots := seq(|stories|, i requires 0 <= i < |stories| => Slot(stories[i], Available, 0, 0, "", None));
      state, clients, version := Active, map[], 0;
    }

    /** One turn of the loop of Start: a command from the command channel. */
    method Turn(c: Command) returns (changed: bool, reply: Reply)
      modifies this
      ensures Value() == Apply(old(Value()), Do(c))
      ensures changed == Process(old(Value()), c).1 && reply == ReplyTo(old(Value()), c)
    {
      hide StateOf, FindActor, FindSeat;
      reply := Silent;
      if c.Get? && c.haveVersion != version {
        var view := ToView(c);
        reply := Current(version, view);
      }
      if c.Finish? {
        reply := if state == Active || c.expectedVersion != version then Refused
                 else Finishing(version, name, slots, clients);
      }
      changed := ProcessCommand(c);
      if c.RemoteRequest? {
        var view := ToView(c);
        reply := Setup(view);
      }
      if !changed {
        return;
      }
      version := version + 1;
    }

    /** The slots as a reply shows them: all of them, or only the client's own actors. */
    method ToView(c: Command) returns (view: LobbyView)
      requires c.Get? || c.RemoteRequest?
      ensures view == if c.Get? then FullView(Value()) else ViewFor(Value(), c.client)
    {
      var views: seq<SlotView> := [];
      for i := 0 to |slots|
        invariant |views| == i
        invariant forall j :: 0 <= j < i ==>
                    views[j] == ViewSlot(Value(), j, if c.Get? || Owns(slots[j], c.client) then slots[j].actor else 0)
      {
        var d := slots[i];
        var latency := if d.client in clients then clients[d.client].contact.latency else 0;
        var actor := if c.Get? || Owns(d, c.client) then d.actor else 0;
        views := views + [SlotView(d.story, actor, d.availability, d.name, latency)];
      }
      view := LobbyView(name, views, state);
    }

    /** The other kind of turn: the broadcast timer forgets silent clients whose count is not positive. */
    method Tick(now: int) returns (sent: map<Token, LobbyView>)
      modifies this
      ensures Value() == Apply(old(Value()), Timer(now))
      ensures sent == Broadcast(old(Value()), now)
    {
      hide ViewFor, BlankView;
      ghost var was := Value();
      ghost var before := clients;
      var lobby := Lobby(name, slots, state, clients, version);
      sent := map[];
      var todo := clients.Keys;
      while todo != {}
        invariant todo <= before.Keys
        invariant forall c :: c in clients <==> c in before && (c in todo || c in Purged(before, now))
        invariant forall c :: c in clients ==> clients[c] == before[c]
        invariant name == old(name) && slots == old(slots) && state == old(state) && version == old(version)
        invariant forall c :: c in sent <==> c in Purged(before, now) && c !in todo
        invariant forall c :: c in sent ==> sent[c] == Told(was, c)
        decreases |todo|
      {
        var c :| c in todo;
        todo := todo - {c};
        if clients[c].count <= 0 {
          if now - clients[c].contact.at > CLIENT_TIMEOUT {
            clients := clients - {c};
            continue;
          }
          sent := sent[c := BlankView(lobby)];
        } else {
          sent := sent[c := ViewFor(lobby, c)];
        }
      }
    }

    method ProcessCommand(c: Command) returns (changed: bool)
      modifies this
      ensures (Value(), changed) == Process(old(Value()), c)
    {
      match c
      case Get(_) => changed := false;
      case JoinLocal(actor, slotIdx, localIdx, n) => changed := JoinLocal(actor, slotIdx, localIdx, n);
      case LeaveLocal(actor) => changed := LeaveLocal(actor);
      case ChangeName(n) =>
        changed := n != name;
        name := n;
      case Evict(actor) => changed := EvictActor(actor);
      case EvictClient(client) => changed := EvictClient(client);
      case Finish(expected) => changed := FinishRequest(expected);
      case RemoteJoin(_, _, _, _, _, _) => changed := JoinRemote(c);
      case RemoteLeave(_, _, _) => changed := LeaveRemote(c);
      case RemoteRequest(client, contact) =>
        TouchClient(client, contact);
        changed := true;
    }

    /** Active when some slot is available, ready otherwise. */
    method UpdateState()
      modifies this`state
      ensures state == StateOf(slots)
    {
      for i := 0 to |slots|
        invariant forall j :: 0 <= j < i ==> slots[j].availability != Available
      {
        if slots[i].availability == Available {
          state := Active;
          return;
        }
      }
      state := Ready;
    }

    method JoinLocal(actor: Token, slotIdx: Byte, localIdx: Byte, name: string) returns (joined: bool)
      modifies this
      ensures (Value(), joined) == LocalJoin(old(Value()), actor, slotIdx, localIdx, name)
    {
      if slotIdx >= |slots| % 256 || localIdx > 3 {
        return false;
      }
      if slots[slotIdx].availability != Available {
        if slots[slotIdx].actor == actor {
          slots := slots[slotIdx := SeatedLocal(slots[slotIdx], actor, localIdx, name)];
          UpdateState();
          return true;
        }
        return false;
      }
      var i := 0;
      while i < |slots|
        invariant i <= |slots| && Value() == old(Value())
        invariant forall j :: 0 <= j < i ==> slots[j].actor != actor
      {
        if actor == slots[i].actor {
          slots := ClearSlot(slots, i);
          break;
        }
        i := i + 1;
      }
      slots := slots[slotIdx := SeatedLocal(slots[slotIdx], actor, localIdx, name)];
      UpdateState();
      joined := true;
    }

    method LeaveLocal(actor: Token) returns (left: bool)
      modifies this
      ensures (Value(), left) == LocalLeave(old(Value()), actor)
    {
      for i := 0 to |slots|
        invariant Value() == old(Value()) && forall j :: 0 <= j < i ==> slots[j].actor != actor
      {
        if actor == slots[i].actor {
          slots := ClearSlot(slots, i);
          state := Active;
          return true;
        }
      }
      left := false;
    }

    method JoinRemote(m: Command) returns (joined: bool)
      requires m.RemoteJoin?
      modifies this
      ensures (Value(), joined) == Lobbies.JoinRemote(old(Value()), m)
    {
      if m.slotIdx >= |slots| {
        return false;
      }
      if slots[m.slotIdx].availability != Available {
        if slots[m.slotIdx].actor == m.actor {
          var clientToken := slots[m.slotIdx].client;
          if clientToken != m.client {
            var _ := EvictClient(clientToken);
            IncClient(m.client, m.contact);
          } else {
            TouchClient(m.client, m.contact);
          }
          slots := slots[m.slotIdx := SeatedRemote(slots[m.slotIdx], m.actor, m.client, m.name, m.config)];
          UpdateState();
          return true;
        }
        return false;
      }
      RemoveActor(m);
      IncClient(m.client, m.contact);
      slots := slots[m.slotIdx := SeatedRemote(slots[m.slotIdx], m.actor, m.client, m.name, m.config)];
      UpdateState();
      joined := true;
    }

    /** The loop of JoinRemote: the actor leaves the slot it has, if any. */
    method RemoveActor(m: Command)
      requires m.RemoteJoin?
      modifies this
      ensures Value() == Unseat(old(Value()), m)
    {
      var i := 0;
      while i < |slots|
        invariant i <= |slots| && Value() == old(Value())
        invariant forall j :: 0 <= j < i ==> slots[j].actor != m.actor
      {
        if m.actor != slots[i].actor {
          i := i + 1;
          continue;
        }
        var clientToken := slots[i].client;
        if clientToken != m.client {
          var _ := EvictClient(clientToken);
        } else {
          DecClient(slots[i].client, m.contact);
          slots := ClearSlot(slots, i);
        }
        break;
      }
    }

    method LeaveRemote(m: Command) returns (left: bool)
      requires m.RemoteLeave?
      modifies this
      ensures (Value(), left) == Lobbies.LeaveRemote(old(Value()), m)
    {
      if m.actor == 0 {
        var removed := ClearSlotsOf(m.client);
        if removed == 0 {
          ClearNobody(old(slots), m.client);
          return false;
        }
        clients := CountTouch(clients, m.client, 0, m.contact);
        state := Active;
        return true;
      }
      for i := 0 to |slots|
        invariant Value() == old(Value())
        invariant forall j :: 0 <= j < i ==> slots[j].actor != m.actor || slots[j].client != m.client
      {
        if m.actor == slots[i].actor && m.client == slots[i].client {
          DecClient(slots[i].client, m.contact);
          slots := ClearSlot(slots, i);
          state := Active;
          return true;
        }
      }
      left := false;
    }

    /** Clears every slot of a client and counts them. */
    method ClearSlotsOf(client: Token) returns (removed: nat)
      modifies this`slots
      ensures slots == ClearClient(old(slots), client)
      ensures removed == 0 <==> !HasClient(old(slots), client)
    {
      ghost var was := slots;
      removed := 0;
      for i := 0 to |slots|
        invariant |slots| == |was|
        invariant forall j :: 0 <= j < |was| ==> slots[j] == if j < i then ClearClient(was, client)[j] else was[j]
        invariant removed == 0 <==> forall j :: 0 <= j < i ==> was[j].client != client
      {
        if client == slots[i].client {
          removed := removed + 1;
          slots := ClearSlot(slots, i);
        }
      }
    }

    method EvictClient(client: Token) returns (changed: bool)
      modifies this
      ensures (Value(), changed) == DropClient(old(Value()), client)
    {
      var removed := ClearSlotsOf(client);
      changed := removed != 0;
      if changed {
        state := Active;
      }
      clients := clients - {client};
      ClearNobody(old(slots), client);
    }

    method EvictActor(actor: Token) returns (changed: bool)
      modifies this
      ensures (Value(), changed) == DropActor(old(Value()), actor)
    {
      for i := 0 to |slots|
        invariant Value() == old(Value()) && forall j :: 0 <= j < i ==> slots[j].actor != actor
      {
        if actor == slots[i].actor {
          if slots[i].availability == Remote {
            clients := DecNoContact(clients, slots[i].client);
          }
          slots := ClearSlot(slots, i);
          state := Active;
          return true;
        }
      }
      changed := false;
    }

    method FinishRequest(expectedVersion: int) returns (accepted: bool)
      modifies this
      ensures (Value(), accepted) == Process(old(Value()), Finish(expectedVersion))
    {
      if state == Active || expectedVersion != version {
        return false;
      }
      state := NextState(state);
      accepted := true;
    }

    method TouchClient(c: Token, contact: Contact)
      modifies this`clients
      ensures clients == Touch(old(clients), c, contact)
    {
      clients := clients[c := ClientInfo(Count(clients, c), contact)];
    }

    method IncClient(c: Token, contact: Contact)
      modifies this`clients
      ensures clients == CountTouch(old(clients), c, Count(old(clients), c) + 1, contact)
    {
      clients := clients[c := ClientInfo(Count(clients, c) + 1, contact)];
    }

    method DecClient(c: Token, contact: Contact)
      modifies this`clients
      ensures clients == CountTouch(old(clients), c, Count(old(clients), c) - 1, contact)
    {
      clients := clients[c := ClientInfo(Count(clients, c) - 1, contact)];
    }
  }

  lemma ClearNobody(slots: seq<Slot>, client: Token)
    ensures !HasClient(slots, client) ==> ClearClient(slots, client) == slots
  {
  }
}
