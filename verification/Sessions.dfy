/** From a lobby's slots to a session (service_lobby.go). */
module Sessions {
  import opened Streams
  import opened Lobbies

  datatype Actor = Actor(token: Token, name: string, config: Option<seq<Byte>>, story: Token, index: nat)

  /** Channels appear only as present or not yet assigned. */
  datatype ClientActor = ClientActor(actor: Actor, hasChannel: bool)
  datatype Client = Client(token: Token, actors: seq<ClientActor>)
  datatype Story = Story(token: Token, hasChannel: bool)
  datatype Session = Session(
    token: Token, name: string, def: seq<Byte>, localActors: seq<Actor>, clients: seq<Client>, stories: seq<Story>)

  // ---- the server's construction ----

  /** The session under construction and the locals of the loop. */
  datatype Build = Build(session: Session, lastStory: Token, actorIdx: nat)

  function FindClient(clients: seq<Client>, token: Token): (i: nat)
    ensures i <= |clients| && (i < |clients| ==> clients[i].token == token)
    ensures forall j :: 0 <= j < i ==> clients[j].token != token
  {
    if clients == [] then 0
    else
      var i := FindClient(clients[..|clients| - 1], token);
      if i < |clients| - 1 then i else if clients[|clients| - 1].token == token then |clients| - 1 else |clients|
  }

  /** An index, kept in a byte. */
  function Wrap(n: nat): (w: nat)
    ensures w < 256 && (n < 256 ==> w == n)
  {
    n % 256
  }

  lemma WrapNext(n: nat)
    ensures Wrap(Wrap(n) + 1) == Wrap(n + 1)
  {
  }

  /** Adds an actor to its client, which comes at the end when it is new. */
  function AddRemote(clients: seq<Client>, token: Token, a: ClientActor): seq<Client> {
    var i := FindClient(clients, token);
    var all := if i == |clients| then clients + [Client(token, [])] else clients;
    all[i := all[i].(actors := all[i].actors + [a])]
  }

  function AddSlot(b: Build, d: Slot): Build {
    var isNew := b.lastStory != d.story;
    var idx := if isNew then 0 else b.actorIdx;
    var actor := Actor(d.actor, d.name, d.config, d.story, idx);
    var s := if isNew then b.session.(stories := b.session.stories + [Story(d.story, false)]) else b.session;
    var s' :=
      match d.availability
      case Available => s
      case Local(_) => s.(localActors := s.localActors + [actor])
      case Remote => s.(clients := AddRemote(s.clients, d.client, ClientActor(actor, false)));
    Build(s', d.story, Wrap(idx + 1))
  }

  function BuildUp(token: Token, name: string, def: seq<Byte>, slots: seq<Slot>): Build {
    if slots == [] then Build(Session(token, name, def, [], [], []), 0, 0)
    else AddSlot(BuildUp(token, name, def, slots[..|slots| - 1]), slots[|slots| - 1])
  }

  /** The session for a lobby, all channels left unassigned. */
  method LobbyToSession(token: Token, name: string, def: seq<Byte>, slots: seq<Slot>) returns (session: Session)
    ensures session == BuildUp(token, name, def, slots).session
  {
    session := Session(token, name, def, [], [], []);
    var actorIdx: nat, lastStoryToken: nat := 0, 0;
    for n := 0 to |slots|
      invariant Build(session, lastStoryToken, actorIdx) == BuildUp(token, name, def, slots[..n])
    {
      assert slots[..n + 1][..n] == slots[..n];
      var slot := slots[n];
      if lastStoryToken != slot.story {
        lastStoryToken := slot.story;
        session := session.(stories := session.stories + [Story(lastStoryToken, false)]);
        actorIdx := 0;
      }
      var actor := Actor(slot.actor, slot.name, slot.config, slot.story, actorIdx);
      if slot.availability.Local? {
        session := session.(localActors := session.localActors + [actor]);
      } else if slot.availability == Remote {
        var clients := AppendRemote(session.clients, slot.client, ClientActor(actor, false));
        session := session.(clients := clients);
      }
      actorIdx := Wrap(actorIdx + 1);
    }
    assert slots[..|slots|] == slots;
  }

  /** The remote branch of LobbyToSession: searches the client and appends the actor to it. */
  method AppendRemote(clients: seq<Client>, token: Token, a: ClientActor) returns (r: seq<Client>)
    ensures r == AddRemote(clients, token, a)
  {
    r := clients;
    var clientIdx := 0;
    while clientIdx < |clients| && clients[clientIdx].token != token
      invariant clientIdx <= |clients| && forall j :: 0 <= j < clientIdx ==> clients[j].token != token
    {
      clientIdx := clientIdx + 1;
    }
    if clientIdx == |clients| {
      r := r + [Client(token, [])];
    }
    r := r[clientIdx := r[clientIdx].(actors := r[clientIdx].actors + [a])];
  }

  // ---- what the construction yields ----

  /** The position of slot i in its unbroken group of slots of one story. */
  function Rank(slots: seq<Slot>, i: nat): nat
    requires i < |slots|
  {
    if i == 0 || slots[i - 1].story != slots[i].story then 0 else Rank(slots, i - 1) + 1
  }

  function ActorAt(slots: seq<Slot>, i: nat): Actor
    requires i < |slots|
  {
    Actor(slots[i].actor, slots[i].name, slots[i].config, slots[i].story, Wrap(Rank(slots, i)))
  }

  lemma {:induction false} RankPrefix(slots: seq<Slot>, n: nat, i: nat)
    requires i < n <= |slots|
    ensures Rank(slots[..n], i) == Rank(slots, i) <= i
  {
    if i > 0 { RankPrefix(slots, n, i - 1); }
  }

  /** The actors of the local slots, in order. */
  function LocalActors(slots: seq<Slot>): seq<Actor> {
    if slots == [] then []
    else
      LocalActors(slots[..|slots| - 1])
      + if slots[|slots| - 1].availability.Local? then [ActorAt(slots, |slots| - 1)] else []
  }

  /** The actors of the remote slots of one client, in order. */
  function RemoteActors(slots: seq<Slot>, client: Token): seq<ClientActor> {
    if slots == [] then []
    else
      RemoteActors(slots[..|slots| - 1], client)
      + if slots[|slots| - 1].availability == Remote && slots[|slots| - 1].client == client
        then [ClientActor(ActorAt(slots, |slots| - 1), false)] else []
  }

  /** The story of every group of slots, in order. */
  function StoryTokens(slots: seq<Slot>): seq<Token> {
    if slots == [] then []
    else
      StoryTokens(slots[..|slots| - 1]) + if Rank(slots, |slots| - 1) == 0 then [slots[|slots| - 1].story] else []
  }

  ghost predicate HasRemote(slots: seq<Slot>, c: Token) {
    exists i :: 0 <= i < |slots| && slots[i].availability == Remote && slots[i].client == c
  }

  /** Every client with a remote slot stands in the list once, with all its actors. */
  ghost predicate ClientsOf(clients: seq<Client>, slots: seq<Slot>) {
    && (forall i, j :: 0 <= i < j < |clients| ==> clients[i].token != clients[j].token)
    && (forall k :: 0 <= k < |clients| ==>
          HasRemote(slots, clients[k].token) && clients[k].actors == RemoteActors(slots, clients[k].token))
    && (forall c :: HasRemote(slots, c) ==> exists k :: 0 <= k < |clients| && clients[k].token == c)
  }

  ghost predicate StoriesNonzero(slots: seq<Slot>) {
    forall i :: 0 <= i < |slots| ==> slots[i].story != 0
  }

  /** The locals of the loop after all of the slots. */
  ghost predicate LocalsBuilt(b: Build, slots: seq<Slot>) {
    && b.lastStory == (if slots == [] then 0 else slots[|slots| - 1].story)
    && b.actorIdx == (if slots == [] then 0 else Wrap(Rank(slots, |slots| - 1) + 1))
  }

  ghost predicate StoriesBuilt(stories: seq<Story>, tokens: seq<Token>) {
    |stories| == |tokens| && forall i :: 0 <= i < |stories| ==> stories[i] == Story(tokens[i], false)
  }

  /** b is what the loop has after all of the slots. */
  ghost predicate Built(b: Build, slots: seq<Slot>) {
    && LocalsBuilt(b, slots)
    && b.session.localActors == LocalActors(slots)
    && StoriesBuilt(b.session.stories, StoryTokens(slots))
    && ClientsOf(b.session.clients, slots)
  }

  lemma HasRemoteStep(slots: seq<Slot>, c: Token)
    requires slots != []
    ensures var d := slots[|slots| - 1];
      HasRemote(slots, c) <==> HasRemote(slots[..|slots| - 1], c) || (d.availability == Remote && d.client == c)
  {
    var init := slots[..|slots| - 1];
    if i :| 0 <= i < |init| && init[i].availability == Remote && init[i].client == c {
      assert slots[i].client == c;
    }
    if i :| 0 <= i < |slots| && slots[i].availability == Remote && slots[i].client == c {
      if i < |init| { assert init[i].client == c; }
    }
  }

  lemma {:induction false} NoRemoteActors(slots: seq<Slot>, c: Token)
    requires !HasRemote(slots, c)
    ensures RemoteActors(slots, c) == []
  {
    if slots != [] {
      HasRemoteStep(slots, c);
      NoRemoteActors(slots[..|slots| - 1], c);
      assert slots[|slots| - 1].availability == Remote ==> slots[|slots| - 1].client != c;
    }
  }

  lemma AddRemoteOk(clients: seq<Client>, slots: seq<Slot>)
    requires slots != [] && ClientsOf(clients, slots[..|slots| - 1]) && slots[|slots| - 1].availability == Remote
    ensures ClientsOf(AddRemote(clients, slots[|slots| - 1].client,
                                ClientActor(ActorAt(slots, |slots| - 1), false)), slots)
  {
    var init, d := slots[..|slots| - 1], slots[|slots| - 1];
    var a := ClientActor(ActorAt(slots, |slots| - 1), false);
    var r := AddRemote(clients, d.client, a);
    var i := FindClient(clients, d.client);
    forall c ensures HasRemote(slots, c) <==> HasRemote(init, c) || d.client == c { HasRemoteStep(slots, c); }
    if i == |clients| {
      NoRemoteActors(init, d.client);
    }
    assert r[i].token == d.client && r[i].actors == RemoteActors(init, d.client) + [a];
    assert forall k :: 0 <= k < |clients| && k != i ==> r[k] == clients[k];
    forall c | HasRemote(slots, c) && c != d.client ensures exists k :: 0 <= k < |r| && r[k].token == c {
      var k :| 0 <= k < |clients| && clients[k].token == c;
      assert r[k].token == c;
    }
    hide HasRemote, AddRemote;
  }

  lemma SkipRemoteOk(clients: seq<Client>, slots: seq<Slot>)
    requires slots != [] && ClientsOf(clients, slots[..|slots| - 1]) && slots[|slots| - 1].availability != Remote
    ensures ClientsOf(clients, slots)
  {
    forall c ensures HasRemote(slots, c) <==> HasRemote(slots[..|slots| - 1], c) { HasRemoteStep(slots, c); }
    assert forall c :: RemoteActors(slots, c) == RemoteActors(slots[..|slots| - 1], c) + [];
  }

  lemma {:induction false} BuildOk(token: Token, name: string, def: seq<Byte>, slots: seq<Slot>)
    requires StoriesNonzero(slots)
    ensures Built(BuildUp(token, name, def, slots), slots)
  {
    if slots != [] {
      var init := slots[..|slots| - 1];
      BuildOk(token, name, def, init);
      AddSlotOk(BuildUp(token, name, def, init), slots);
    } else {
      assert !exists c :: HasRemote(slots, c);
    }
  }

  lemma AddSlotOk(b: Build, slots: seq<Slot>)
    requires slots != [] && StoriesNonzero(slots) && Built(b, slots[..|slots| - 1])
    ensures Built(AddSlot(b, slots[|slots| - 1]), slots)
  {
    RankNext(slots);
    NonzeroAt(slots, |slots| - 1);
    hide ClientsOf, Rank, AddRemote, RemoteActors, StoriesNonzero, StoriesBuilt, LocalsBuilt;
    AddSlotLocals(b, slots);
    AddSlotStories(b, slots);
    if slots[|slots| - 1].availability == Remote {
      AddRemoteOk(b.session.clients, slots);
    } else {
      SkipRemoteOk(b.session.clients, slots);
    }
    AddSlotActors(b, slots);
  }

  lemma AddSlotActors(b: Build, slots: seq<Slot>)
    requires slots != [] && LocalsBuilt(b, slots[..|slots| - 1])
    requires slots[|slots| - 1].story != 0
    ensures var d := slots[|slots| - 1]; var s := AddSlot(b, d).session;
      var actor := ActorAt(slots, |slots| - 1);
      && s.localActors == b.session.localActors + (if d.availability.Local? then [actor] else [])
      && s.clients == if d.availability == Remote
                      then AddRemote(b.session.clients, d.client, ClientActor(actor, false)) else b.session.clients
  {
    SlotIndex(b, slots);
    hide Rank, AddRemote, Wrap, LocalsBuilt;
  }

  /** The index of the next slot: zero when its story differs from the last one. */
  lemma SlotIndex(b: Build, slots: seq<Slot>)
    requires slots != [] && LocalsBuilt(b, slots[..|slots| - 1]) && slots[|slots| - 1].story != 0
    ensures (if b.lastStory != slots[|slots| - 1].story then 0 else b.actorIdx) == Wrap(Rank(slots, |slots| - 1))
  {
    RankNext(slots);
    hide Rank, Wrap;
  }

  lemma AddSlotLocals(b: Build, slots: seq<Slot>)
    requires slots != [] && LocalsBuilt(b, slots[..|slots| - 1])
    requires slots[|slots| - 1].story != 0
    ensures LocalsBuilt(AddSlot(b, slots[|slots| - 1]), slots)
  {
    SlotIndex(b, slots);
    WrapNext(Rank(slots, |slots| - 1));
    hide Rank, AddRemote, Wrap;
  }

  lemma AddSlotStories(b: Build, slots: seq<Slot>)
    requires slots != [] && LocalsBuilt(b, slots[..|slots| - 1])
    requires slots[|slots| - 1].story != 0
    requires StoriesBuilt(b.session.stories, StoryTokens(slots[..|slots| - 1]))
    ensures StoriesBuilt(AddSlot(b, slots[|slots| - 1]).session.stories, StoryTokens(slots))
  {
    hide Rank, AddRemote, Wrap;
    TokensNext(slots);
    NewGroup(b, slots);
    hide StoryTokens, LocalsBuilt;
  }

  /** A group of slots begins exactly when the story differs from the last one. */
  lemma NewGroup(b: Build, slots: seq<Slot>)
    requires slots != [] && LocalsBuilt(b, slots[..|slots| - 1]) && slots[|slots| - 1].story != 0
    ensures b.lastStory != slots[|slots| - 1].story <==> Rank(slots, |slots| - 1) == 0
  {
    RankNext(slots);
    hide Rank;
  }

  lemma TokensNext(slots: seq<Slot>)
    requires slots != []
    ensures StoryTokens(slots) == StoryTokens(slots[..|slots| - 1])
            + if Rank(slots, |slots| - 1) == 0 then [slots[|slots| - 1].story] else []
  {
    hide Rank;
  }

  lemma NonzeroAt(slots: seq<Slot>, i: nat)
    requires StoriesNonzero(slots) && i < |slots|
    ensures slots[i].story != 0
  {
  }

  lemma RankNext(slots: seq<Slot>)
    requires slots != []
    ensures var n := |slots| - 1; var init := slots[..n];
      && Rank(slots, n) <= n
      && Rank(slots, n) == if n > 0 && init[n - 1].story == slots[n].story then Rank(init, n - 1) + 1 else 0
  {
    var n := |slots| - 1;
    if n > 0 { RankPrefix(slots, n, n - 1); }
    RankPrefix(slots, n + 1, n);
    assert slots[..n + 1] == slots;
  }
}
