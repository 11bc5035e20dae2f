/** What a session takes over from the slots. */
module SessionContents {
  import opened Streams
  import opened Lobbies
  import opened Sessions
  import opened SessionValidity
  import opened SessionFromLobby

  /** The actor has what the slot has, and the slot's place in its group as an index in a byte. */
  predicate TakenFrom(a: Actor, slots: seq<Slot>, i: nat)
    requires i < |slots|
  {
    && a.token == slots[i].actor && a.name == slots[i].name && a.config == slots[i].config
    && a.story == slots[i].story && a.index == Rank(slots, i) % 256
  }

  lemma {:induction false} HeadIsKept(token: Token, name: string, def: seq<Byte>, slots: seq<Slot>)
    ensures var s := BuildUp(token, name, def, slots).session; s.token == token && s.name == name && s.def == def
  {
    if slots != [] { HeadIsKept(token, name, def, slots[..|slots| - 1]); }
  }

  ghost predicate InLocals(s: Session, slots: seq<Slot>, i: nat)
    requires i < |slots|
  {
    exists k :: 0 <= k < |s.localActors| && TakenFrom(s.localActors[k], slots, i)
  }

  /** An actor of the slot's client, without a channel yet. */
  ghost predicate InClients(s: Session, slots: seq<Slot>, i: nat)
    requires i < |slots|
  {
    exists k, j :: 0 <= k < |s.clients| && s.clients[k].token == slots[i].client && 0 <= j < |s.clients[k].actors|
      && TakenFrom(s.clients[k].actors[j].actor, slots, i) && !s.clients[k].actors[j].hasChannel
  }

  /** Every local slot gives a local actor, and every remote one an actor of its client. */
  lemma SlotIsTaken(token: Token, name: string, def: seq<Byte>, slots: seq<Slot>, i: nat)
    requires StoriesNonzero(slots) && i < |slots|
    ensures slots[i].availability.Local? ==> InLocals(BuildUp(token, name, def, slots).session, slots, i)
    ensures slots[i].availability.Remote? ==> InClients(BuildUp(token, name, def, slots).session, slots, i)
  {
    BuildOk(token, name, def, slots);
    hide BuildUp, ActorAt, TakenFrom, StoriesBuilt, LocalsBuilt, StoriesNonzero, InLocals, InClients, ClientsOf;
    var s := BuildUp(token, name, def, slots).session;
    if slots[i].availability.Local? { LocalIsTaken(s, slots, i); }
    if slots[i].availability.Remote? { RemoteIsTaken(s, slots, i); }
  }

  lemma LocalIsTaken(s: Session, slots: seq<Slot>, i: nat)
    requires i < |slots| && slots[i].availability.Local? && s.localActors == LocalActors(slots)
    ensures InLocals(s, slots, i)
  {
    var e := ActorAt(slots, i);
    LocalMember(slots, e);
    assert FromLocal(slots, e);
    var k :| 0 <= k < |s.localActors| && s.localActors[k] == e;
    assert TakenFrom(s.localActors[k], slots, i);
  }

  lemma RemoteIsTaken(s: Session, slots: seq<Slot>, i: nat)
    requires i < |slots| && slots[i].availability.Remote? && ClientsOf(s.clients, slots)
    ensures InClients(s, slots, i)
  {
    var e, c := ActorAt(slots, i), slots[i].client;
    assert HasRemote(slots, c);
    var k :| 0 <= k < |s.clients| && s.clients[k].token == c;
    RemoteMember(slots, c, e);
    assert FromRemote(slots, c, e);
    var j :| 0 <= j < |ActorsOf(s.clients[k].actors)| && ActorsOf(s.clients[k].actors)[j] == e;
    NoChannelYet(slots, c);
    assert s.clients[k].actors[j].actor == e && TakenFrom(e, slots, i);
  }

  lemma {:induction false} NoChannelYet(slots: seq<Slot>, c: Token)
    ensures forall j :: 0 <= j < |RemoteActors(slots, c)| ==> !RemoteActors(slots, c)[j].hasChannel
  {
    if slots != [] { NoChannelYet(slots[..|slots| - 1], c); }
  }

  /** Local actors stand in the order of their slots. */
  lemma {:induction false} LocalsInOrder(slots: seq<Slot>, p: nat, q: nat) returns (i: nat, j: nat)
    requires p < q < |LocalActors(slots)|
    ensures i < j < |slots| && slots[i].availability.Local? && slots[j].availability.Local?
    ensures TakenFrom(LocalActors(slots)[p], slots, i) && TakenFrom(LocalActors(slots)[q], slots, j)
  {
    var n := |slots| - 1;
    var init := LocalActors(slots[..n]);
    if q < |init| {
      i, j := LocalsInOrder(slots[..n], p, q);
      RankPrefix(slots, n, i);
      RankPrefix(slots, n, j);
    } else {
      i := LocalSlot(slots[..n], p);
      RankPrefix(slots, n, i);
      j := n;
    }
  }

  lemma {:induction false} LocalSlot(slots: seq<Slot>, p: nat) returns (i: nat)
    requires p < |LocalActors(slots)|
    ensures i < |slots| && slots[i].availability.Local? && TakenFrom(LocalActors(slots)[p], slots, i)
  {
    var n := |slots| - 1;
    if p < |LocalActors(slots[..n])| {
      i := LocalSlot(slots[..n], p);
      RankPrefix(slots, n, i);
    } else {
      i := n;
    }
  }

  /** So do the actors of a client. */
  lemma {:induction false} RemotesInOrder(slots: seq<Slot>, c: Token, p: nat, q: nat) returns (i: nat, j: nat)
    requires p < q < |RemoteActors(slots, c)|
    ensures i < j < |slots| && slots[i].client == slots[j].client == c
    ensures TakenFrom(RemoteActors(slots, c)[p].actor, slots, i) && TakenFrom(RemoteActors(slots, c)[q].actor, slots, j)
  {
    var n := |slots| - 1;
    var init := RemoteActors(slots[..n], c);
    if q < |init| {
      i, j := RemotesInOrder(slots[..n], c, p, q);
      RankPrefix(slots, n, i);
      RankPrefix(slots, n, j);
    } else {
      i := RemoteSlot(slots[..n], c, p);
      RankPrefix(slots, n, i);
      j := n;
    }
  }

  lemma {:induction false} RemoteSlot(slots: seq<Slot>, c: Token, p: nat) returns (i: nat)
    requires p < |RemoteActors(slots, c)|
    ensures i < |slots| && slots[i].client == c && TakenFrom(RemoteActors(slots, c)[p].actor, slots, i)
  {
    var n := |slots| - 1;
    if p < |RemoteActors(slots[..n], c)| {
      i := RemoteSlot(slots[..n], c, p);
      RankPrefix(slots, n, i);
    } else {
      i := n;
    }
  }

  ghost predicate RemoteAt(slots: seq<Slot>, i: int, c: Token) {
    0 <= i < |slots| && slots[i].availability == Remote && slots[i].client == c
  }

  ghost predicate Earlier(slots: seq<Slot>, j: int, c: Token) {
    exists i :: i < j && RemoteAt(slots, i, c)
  }

  /** The first slot of a comes before that of b. */
  ghost predicate Precedes(slots: seq<Slot>, a: Token, b: Token) {
    forall j :: RemoteAt(slots, j, b) ==> Earlier(slots, j, a)
  }

  /** Clients stand in the order of their first slots. */
  ghost predicate ByFirstSlot(clients: seq<Client>, slots: seq<Slot>) {
    forall k, m :: 0 <= k < m < |clients| ==> Precedes(slots, clients[k].token, clients[m].token)
  }

  lemma {:induction false} ClientsInOrder(token: Token, name: string, def: seq<Byte>, slots: seq<Slot>)
    requires StoriesNonzero(slots)
    ensures ByFirstSlot(BuildUp(token, name, def, slots).session.clients, slots)
  {
    if slots != [] {
      var n := |slots| - 1;
      var init := slots[..n];
      BuildOk(token, name, def, init);
      ClientsInOrder(token, name, def, init);
      var b := BuildUp(token, name, def, init);
      NextInOrder(b.session.clients, BuildUp(token, name, def, slots).session.clients, slots) by {
        AddsOneClient(b, slots[n]);
      }
    }
  }

  /** A slot adds at most one client, at the end, and only when it is the client's. */
  lemma AddsOneClient(b: Build, d: Slot)
    ensures var was, now := b.session.clients, AddSlot(b, d).session.clients;
      && |was| <= |now| <= |was| + 1 && (forall k :: 0 <= k < |was| ==> now[k].token == was[k].token)
      && (|now| > |was| ==>
            d.availability == Remote && now[|was|].token == d.client
            && forall k :: 0 <= k < |was| ==> was[k].token != d.client)
  {
  }

  lemma NextInOrder(was: seq<Client>, now: seq<Client>, slots: seq<Slot>)
    requires slots != [] && ClientsOf(was, slots[..|slots| - 1]) && ByFirstSlot(was, slots[..|slots| - 1])
    requires |was| <= |now| <= |was| + 1 && forall k :: 0 <= k < |was| ==> now[k].token == was[k].token
    requires |now| > |was| ==> forall k :: 0 <= k < |was| ==> was[k].token != now[|was|].token
    ensures ByFirstSlot(now, slots)
  {
    var init := slots[..|slots| - 1];
    hide Precedes;
    forall k, m | 0 <= k < m < |now| ensures Precedes(slots, now[k].token, now[m].token) {
      assert HasRemote(init, was[k].token);
      if m < |was| {
        StillPrecedes(slots, now[k].token, now[m].token);
      } else {
        NewcomerFollows(was, slots, now[k].token, now[m].token);
      }
    }
  }

  lemma StillPrecedes(slots: seq<Slot>, a: Token, b: Token)
    requires slots != [] && HasRemote(slots[..|slots| - 1], a) && Precedes(slots[..|slots| - 1], a, b)
    ensures Precedes(slots, a, b)
  {
    var init := slots[..|slots| - 1];
    var i0 :| 0 <= i0 < |init| && init[i0].availability == Remote && init[i0].client == a;
    assert RemoteAt(slots, i0, a);
    forall j | 0 <= j < |slots| && slots[j].availability == Remote && slots[j].client == b
      ensures Earlier(slots, j, a)
    {
      if j < |init| {
        assert RemoteAt(init, j, b) && Earlier(init, j, a);
        var i :| i < j && RemoteAt(init, i, a);
        assert RemoteAt(slots, i, a);
      }
    }
  }

  lemma NewcomerFollows(was: seq<Client>, slots: seq<Slot>, a: Token, b: Token)
    requires slots != [] && ClientsOf(was, slots[..|slots| - 1]) && HasRemote(slots[..|slots| - 1], a)
    requires forall k :: 0 <= k < |was| ==> was[k].token != b
    ensures Precedes(slots, a, b)
  {
    var init := slots[..|slots| - 1];
    var i0 :| 0 <= i0 < |init| && init[i0].availability == Remote && init[i0].client == a;
    assert RemoteAt(slots, i0, a);
    assert !HasRemote(init, b);
    assert forall j :: 0 <= j < |init| && init[j].availability == Remote ==> init[j].client != b;
  }
}
