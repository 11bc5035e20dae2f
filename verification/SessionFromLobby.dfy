/** A full lobby becomes a valid session. */
module SessionFromLobby {
  import opened Streams
  import opened Lobbies
  import opened Sessions
  import opened SessionValidity

  /** The slots of each story stand together. */
  ghost predicate Contiguous(slots: seq<Slot>) {
    forall i, j, k :: 0 <= i < j < k < |slots| && slots[i].story == slots[k].story ==> slots[j].story == slots[i].story
  }

  ghost predicate UniqueActors(slots: seq<Slot>) {
    && (forall i :: 0 <= i < |slots| ==> slots[i].actor != 0)
    && (forall i, j :: 0 <= i < j < |slots| ==> slots[i].actor != slots[j].actor)
  }

  ghost predicate SlotFilled(d: Slot) {
    && d.availability != Available && d.story != 0
    && (d.availability == Remote ==> d.client != 0 && d.config.Some?)
  }

  ghost predicate AllFilled(slots: seq<Slot>) {
    forall i :: 0 <= i < |slots| ==> SlotFilled(slots[i])
  }

  /** Every place within a story is below the range of a byte. */
  ghost predicate RanksFit(slots: seq<Slot>) {
    forall i :: 0 <= i < |slots| ==> Rank(slots, i) < 256
  }

  ghost function RemoteClients(slots: seq<Slot>): set<Token> {
    set i | 0 <= i < |slots| && slots[i].availability == Remote :: slots[i].client
  }

  /** What a full lobby needs to become a session. */
  ghost predicate ReadyForSession(slots: seq<Slot>) {
    Contiguous(slots) && |StoryTokens(slots)| <= 64 && 1 <= |RemoteClients(slots)| <= 64
  }

  /** The session once the caller has assigned all channels. */
  function WithChannels(s: Session): Session {
    s.(stories := seq(|s.stories|, i requires 0 <= i < |s.stories| => Story(s.stories[i].token, true)),
       clients := seq(|s.clients|, i requires 0 <= i < |s.clients| =>
         Client(s.clients[i].token, Connected(s.clients[i].actors))))
  }

  function Connected(cas: seq<ClientActor>): seq<ClientActor> {
    seq(|cas|, i requires 0 <= i < |cas| => ClientActor(cas[i].actor, true))
  }

  // ---- ranks ----

  lemma {:induction false} RankWithin(slots: seq<Slot>, i: nat, j: nat)
    requires Contiguous(slots) && i <= j < |slots| && slots[i].story == slots[j].story
    ensures Rank(slots, j) == Rank(slots, i) + (j - i)
    decreases j
  {
    if i < j { RankWithin(slots, i, j - 1); }
  }

  lemma {:induction false} RankBelow(slots: seq<Slot>, i: nat, m: nat)
    requires i < |slots| && m <= Rank(slots, i)
    ensures exists j :: 0 <= j <= i && slots[j].story == slots[i].story && Rank(slots, j) == m
  {
    if m < Rank(slots, i) { RankBelow(slots, i - 1, m); }
  }

  lemma ActorPrefix(slots: seq<Slot>, n: nat, i: nat)
    requires i < n <= |slots|
    ensures ActorAt(slots[..n], i) == ActorAt(slots, i)
  {
    RankPrefix(slots, n, i);
  }

  // ---- stories ----

  lemma {:induction false} StoryTokensExact(slots: seq<Slot>)
    ensures forall t :: t in StoryTokens(slots) <==> exists i :: 0 <= i < |slots| && slots[i].story == t
  {
    if slots != [] {
      var n := |slots| - 1;
      var init := slots[..n];
      StoryTokensExact(init);
      forall t ensures t in StoryTokens(slots) <==> exists i :: 0 <= i < |slots| && slots[i].story == t {
        if i :| 0 <= i < n && init[i].story == t { assert slots[i].story == t; }
        if i :| 0 <= i < |slots| && slots[i].story == t {
          if i < n { assert init[i].story == t; } else if Rank(slots, n) > 0 { assert init[n - 1].story == t; }
        }
        if t == slots[n].story { assert slots[n].story == t; }
      }
    }
  }

  lemma {:induction false} StoryTokensUnique(slots: seq<Slot>)
    requires Contiguous(slots)
    ensures forall i, j :: 0 <= i < j < |StoryTokens(slots)| ==> StoryTokens(slots)[i] != StoryTokens(slots)[j]
  {
    if slots != [] {
      var n := |slots| - 1;
      StoryTokensUnique(slots[..n]);
      StoryTokensExact(slots[..n]);
      if Rank(slots, n) == 0 && slots[n].story in StoryTokens(slots[..n]) {
        var i :| 0 <= i < n && slots[..n][i].story == slots[n].story;
        RankWithin(slots, i, n);
      }
    }
  }

  lemma AgainIsNotNew(slots: seq<Slot>, i: nat)
    requires forall i, j :: 0 <= i < j < |StoryTokens(slots)| ==> StoryTokens(slots)[i] != StoryTokens(slots)[j]
    requires i < |slots| - 1 && slots[i].story == slots[|slots| - 1].story
    ensures Rank(slots, |slots| - 1) > 0
  {
    var n := |slots| - 1;
    var init := StoryTokens(slots[..n]);
    var all := init + [slots[n].story];
    StoryTokensExact(slots[..n]);
    assert slots[..n][i].story in init;
    var m :| 0 <= m < |init| && init[m] == slots[i].story;
    assert !(forall i, j :: 0 <= i < j < |all| ==> all[i] != all[j]) by { assert all[m] == all[|all| - 1]; }
    assert Rank(slots, n) == 0 ==> StoryTokens(slots) == all;
  }

  /** When no story begins twice, the slots of each story stand together. */
  lemma {:induction false} UniqueIsContiguous(slots: seq<Slot>)
    requires forall i, j :: 0 <= i < j < |StoryTokens(slots)| ==> StoryTokens(slots)[i] != StoryTokens(slots)[j]
    ensures Contiguous(slots)
  {
    if slots != [] {
      var n := |slots| - 1;
      var init := slots[..n];
      assert StoryTokens(init) == StoryTokens(slots)[..|StoryTokens(init)|];
      UniqueIsContiguous(init);
      forall i, j | 0 <= i < j < n && slots[i].story == slots[n].story ensures slots[j].story == slots[n].story {
        AgainIsNotNew(slots, i);
        assert init[i].story == init[n - 1].story && (j < n - 1 ==> init[j].story == init[i].story);
      }
      forall i, j, k | 0 <= i < j < k < |slots| && slots[i].story == slots[k].story
        ensures slots[j].story == slots[i].story
      {
        if k < n { assert init[i].story == init[k].story && init[j].story == init[i].story; }
      }
    }
  }

  // ---- actors ----

  /** e is the actor of some slot that satisfies the filter. */
  ghost predicate FromLocal(slots: seq<Slot>, e: Actor) {
    exists i :: 0 <= i < |slots| && slots[i].availability.Local? && e == ActorAt(slots, i)
  }

  ghost predicate FromRemote(slots: seq<Slot>, c: Token, e: Actor) {
    exists i :: 0 <= i < |slots| && slots[i].availability == Remote && slots[i].client == c && e == ActorAt(slots, i)
  }

  lemma FromLocalStep(slots: seq<Slot>, e: Actor)
    requires slots != []
    ensures var n := |slots| - 1;
      FromLocal(slots, e) <==> FromLocal(slots[..n], e) || (slots[n].availability.Local? && e == ActorAt(slots, n))
  {
    var n := |slots| - 1;
    if i :| 0 <= i < n && slots[..n][i].availability.Local? && e == ActorAt(slots[..n], i) {
      ActorPrefix(slots, n, i);
      assert slots[i].availability.Local?;
    }
    if i :| 0 <= i < |slots| && slots[i].availability.Local? && e == ActorAt(slots, i) {
      if i < n { ActorPrefix(slots, n, i); assert slots[..n][i].availability.Local?; }
    }
  }

  lemma FromRemoteStep(slots: seq<Slot>, c: Token, e: Actor)
    requires slots != []
    ensures var n := |slots| - 1; var d := slots[n];
      FromRemote(slots, c, e) <==>
        FromRemote(slots[..n], c, e) || (d.availability == Remote && d.client == c && e == ActorAt(slots, n))
  {
    var n := |slots| - 1;
    if i :| 0 <= i < n && slots[..n][i].availability == Remote && slots[..n][i].client == c
            && e == ActorAt(slots[..n], i) {
      ActorPrefix(slots, n, i);
      assert slots[i].client == c;
    }
    if i :| 0 <= i < |slots| && slots[i].availability == Remote && slots[i].client == c && e == ActorAt(slots, i) {
      if i < n { ActorPrefix(slots, n, i); assert slots[..n][i].client == c; }
    }
  }

  lemma {:induction false} LocalMember(slots: seq<Slot>, e: Actor)
    ensures e in LocalActors(slots) <==> FromLocal(slots, e)
  {
    if slots != [] {
      LocalMember(slots[..|slots| - 1], e);
      FromLocalStep(slots, e);
    }
  }

  lemma {:induction false} RemoteMember(slots: seq<Slot>, c: Token, e: Actor)
    ensures e in ActorsOf(RemoteActors(slots, c)) <==> FromRemote(slots, c, e)
  {
    if slots != [] {
      RemoteMember(slots[..|slots| - 1], c, e);
      FromRemoteStep(slots, c, e);
      ActorsOfStep(slots, c);
    }
  }

  lemma ActorsOfStep(slots: seq<Slot>, c: Token)
    requires slots != []
    ensures var n := |slots| - 1;
      ActorsOf(RemoteActors(slots, c)) == ActorsOf(RemoteActors(slots[..n], c))
        + if slots[n].availability == Remote && slots[n].client == c then [ActorAt(slots, n)] else []
  {
  }

  lemma {:induction false} LocalsUnique(slots: seq<Slot>)
    requires UniqueActors(slots)
    ensures UniqueTokens(LocalActors(slots))
  {
    if slots != [] {
      var n := |slots| - 1;
      var init := LocalActors(slots[..n]);
      LocalsUnique(slots[..n]);
      forall k | 0 <= k < |init| ensures init[k].token != slots[n].actor {
        LocalMember(slots[..n], init[k]);
        assert FromLocal(slots[..n], init[k]);
      }
    }
  }

  lemma {:induction false} RemotesUnique(slots: seq<Slot>, c: Token)
    requires UniqueActors(slots)
    ensures UniqueTokens(ActorsOf(RemoteActors(slots, c)))
  {
    if slots != [] {
      var n := |slots| - 1;
      var init := ActorsOf(RemoteActors(slots[..n], c));
      RemotesUnique(slots[..n], c);
      ActorsOfStep(slots, c);
      forall k | 0 <= k < |init| ensures init[k].token != slots[n].actor {
        RemoteMember(slots[..n], c, init[k]);
        assert FromRemote(slots[..n], c, init[k]);
      }
    }
  }

  ghost predicate FromAny(slots: seq<Slot>, e: Actor) {
    exists i :: 0 <= i < |slots| && e == ActorAt(slots, i)
  }

  ghost predicate FromClients(clients: seq<Client>, slots: seq<Slot>, e: Actor) {
    exists k :: 0 <= k < |clients| && FromRemote(slots, clients[k].token, e)
  }

  /** The clients are distinct, and each has the actors of its slots. */
  ghost predicate OwnActors(clients: seq<Client>, slots: seq<Slot>) {
    && (forall i, j :: 0 <= i < j < |clients| ==> clients[i].token != clients[j].token)
    && (forall k :: 0 <= k < |clients| ==> clients[k].actors == RemoteActors(slots, clients[k].token))
  }

  lemma {:induction false} RemoteOfMember(clients: seq<Client>, slots: seq<Slot>, e: Actor)
    requires OwnActors(clients, slots)
    ensures e in RemoteOf(clients) <==> FromClients(clients, slots, e)
  {
    if clients != [] {
      var n := |clients| - 1;
      OwnActorsPrefix(clients, slots);
      hide FromRemote, RemoteActors, ActorsOf, OwnActors, FromClients;
      RemoteOfMember(clients[..n], slots, e);
      RemoteMember(slots, clients[n].token, e);
      FromClientsStep(clients, slots, e);
    }
  }

  lemma OwnActorsPrefix(clients: seq<Client>, slots: seq<Slot>)
    requires OwnActors(clients, slots) && clients != []
    ensures OwnActors(clients[..|clients| - 1], slots)
    ensures clients[|clients| - 1].actors == RemoteActors(slots, clients[|clients| - 1].token)
  {
    hide RemoteActors;
  }

  lemma FromClientsStep(clients: seq<Client>, slots: seq<Slot>, e: Actor)
    requires clients != []
    ensures var n := |clients| - 1;
      FromClients(clients, slots, e) <==> FromClients(clients[..n], slots, e) || FromRemote(slots, clients[n].token, e)
  {
    hide FromRemote;
    var n := |clients| - 1;
    var init := clients[..n];
    if k :| 0 <= k < n && FromRemote(slots, init[k].token, e) { assert FromRemote(slots, clients[k].token, e); }
    if k :| 0 <= k < |clients| && FromRemote(slots, clients[k].token, e) {
      if k < n { assert FromRemote(slots, init[k].token, e); }
    }
  }

  /** All remote actors of the clients are distinct. */
  lemma {:induction false} RemoteOfUnique(clients: seq<Client>, slots: seq<Slot>)
    requires UniqueActors(slots) && OwnActors(clients, slots)
    ensures UniqueTokens(RemoteOf(clients))
  {
    if clients != [] {
      var n := |clients| - 1;
      var init := clients[..n];
      RemoteOfUnique(init, slots);
      RemotesUnique(slots, clients[n].token);
      var a, b := RemoteOf(init), ActorsOf(clients[n].actors);
      forall p, q | 0 <= p < |a| && 0 <= q < |b| ensures a[p].token != b[q].token {
        RemoteOfMember(init, slots, a[p]);
        RemoteMember(slots, clients[n].token, b[q]);
        RemoteApart(slots, init, clients[n].token, a[p], b[q]);
      }
    }
  }

  lemma RemoteApart(slots: seq<Slot>, clients: seq<Client>, c: Token, e: Actor, f: Actor)
    requires UniqueActors(slots) && FromRemote(slots, c, f) && FromClients(clients, slots, e)
    requires forall k :: 0 <= k < |clients| ==> clients[k].token != c
    ensures e.token != f.token
  {
    var k :| 0 <= k < |clients| && FromRemote(slots, clients[k].token, e);
    var i :| 0 <= i < |slots| && slots[i].availability == Remote && slots[i].client == clients[k].token
             && e == ActorAt(slots, i);
    var j :| 0 <= j < |slots| && slots[j].availability == Remote && slots[j].client == c && f == ActorAt(slots, j);
    assert i != j;
  }

  lemma LocalApart(slots: seq<Slot>, clients: seq<Client>, e: Actor, f: Actor)
    requires UniqueActors(slots) && FromLocal(slots, e) && FromClients(clients, slots, f)
    ensures e.token != f.token
  {
    var i :| 0 <= i < |slots| && slots[i].availability.Local? && e == ActorAt(slots, i);
    var k :| 0 <= k < |clients| && FromRemote(slots, clients[k].token, f);
    var j :| 0 <= j < |slots| && slots[j].availability == Remote && slots[j].client == clients[k].token
             && f == ActorAt(slots, j);
    assert i != j;
  }

  /** No two of the session's actors have the same token. */
  lemma AllActorsUnique(s: Session, slots: seq<Slot>)
    requires UniqueActors(slots) && s.localActors == LocalActors(slots) && ClientsOf(s.clients, slots)
    ensures UniqueTokens(AllActors(s))
  {
    LocalsUnique(slots);
    RemoteOfUnique(s.clients, slots);
    var a, b := s.localActors, RemoteOf(s.clients);
    forall p, q | 0 <= p < |a| && 0 <= q < |b| ensures a[p].token != b[q].token {
      LocalMember(slots, a[p]);
      RemoteOfMember(s.clients, slots, b[q]);
      LocalApart(slots, s.clients, a[p], b[q]);
    }
  }

  /** The session's actors are exactly the actors of the slots. */
  ghost predicate AreActors(actors: seq<Actor>, slots: seq<Slot>) {
    forall e :: e in actors <==> FromAny(slots, e)
  }

  lemma AllActorsOk(s: Session, slots: seq<Slot>)
    requires AllFilled(slots)
    requires s.localActors == LocalActors(slots) && ClientsOf(s.clients, slots)
    ensures AreActors(AllActors(s), slots)
  {
    forall e ensures e in AllActors(s) <==> FromAny(slots, e) {
      LocalMember(slots, e);
      RemoteOfMember(s.clients, slots, e);
      AnyIsLocalOrRemote(s, slots, e);
    }
  }

  lemma AnyIsLocalOrRemote(s: Session, slots: seq<Slot>, e: Actor)
    requires ClientsOf(s.clients, slots) && AllFilled(slots)
    ensures FromAny(slots, e) <==> FromLocal(slots, e) || FromClients(s.clients, slots, e)
  {
    if i :| 0 <= i < |slots| && e == ActorAt(slots, i) {
      assert SlotFilled(slots[i]);
      if slots[i].availability == Remote {
        assert HasRemote(slots, slots[i].client);
        var k :| 0 <= k < |s.clients| && s.clients[k].token == slots[i].client;
        assert FromRemote(slots, s.clients[k].token, e);
      } else {
        assert FromLocal(slots, e);
      }
    }
  }

  // ---- places ----

  /** Distinct slots never share a place. */
  lemma NoClashFromSlots(actors: seq<Actor>, slots: seq<Slot>)
    requires RanksFit(slots) && UniqueTokens(actors) && Contiguous(slots) && AreActors(actors, slots)
    ensures NoClash(actors)
  {
    hide AreActors, Contiguous, Rank, Wrap, RanksFit;
    forall p, q | 0 <= p < q < |actors| && actors[p].story == actors[q].story
      ensures actors[p].index != actors[q].index
    {
      var i := SlotOfActor(actors, slots, p);
      var j := SlotOfActor(actors, slots, q);
      if i < j { RankWithin(slots, i, j); } else { RankWithin(slots, j, i); }
    }
  }

  /** The slot that an actor comes from; its place there is the slot's rank. */
  lemma SlotOfActor(actors: seq<Actor>, slots: seq<Slot>, p: nat) returns (i: nat)
    requires RanksFit(slots) && AreActors(actors, slots) && p < |actors|
    ensures i < |slots| && actors[p] == ActorAt(slots, i) && actors[p].index == Rank(slots, i)
  {
    hide Rank, Wrap;
    assert actors[p] in actors && FromAny(slots, actors[p]);
    var k: nat :| k < |slots| && actors[p] == ActorAt(slots, k);
    i := k;
  }

  lemma RankLow(slots: seq<Slot>, i: nat)
    requires i < |slots|
    ensures Rank(slots, i) <= i
  {
    RankPrefix(slots, |slots|, i);
    assert slots[..|slots|] == slots;
  }

  /** The places taken in a story are the ranks of its slots: 0 to some number without gaps. */
  lemma PlacesFromSlots(actors: seq<Actor>, slots: seq<Slot>, story: Token)
    requires RanksFit(slots) && AreActors(actors, slots)
    requires exists i :: 0 <= i < |slots| && slots[i].story == story
    ensures Bits(actors, story) != {} && Dense(Bits(actors, story))
  {
    var i :| 0 <= i < |slots| && slots[i].story == story;
    RankBelow(slots, i, 0);
    var first :| 0 <= first <= i && slots[first].story == slots[i].story && Rank(slots, first) == 0;
    PlaceTaken(actors, slots, first);
    forall n, m: nat | n in Bits(actors, story) && m < n ensures m in Bits(actors, story) {
      var p :| 0 <= p < |actors| && actors[p].story == story && actors[p].index == n;
      var k := SlotOfActor(actors, slots, p);
      RankBelow(slots, k, m);
      var j :| 0 <= j <= k && slots[j].story == slots[k].story && Rank(slots, j) == m;
      PlaceTaken(actors, slots, j);
    }
  }

  lemma PlaceTaken(actors: seq<Actor>, slots: seq<Slot>, i: nat)
    requires i < |slots| && Rank(slots, i) < MASK_BITS && AreActors(actors, slots)
    ensures Rank(slots, i) in Bits(actors, slots[i].story)
  {
    hide Rank, Wrap;
    assert FromAny(slots, ActorAt(slots, i));
    hide AreActors, FromAny;
    var p :| 0 <= p < |actors| && actors[p] == ActorAt(slots, i);
  }

  // ---- the session is valid ----

  /** The 257th slot of a story is given the place of the first one. */
  lemma ClashBeyondByte(actors: seq<Actor>, slots: seq<Slot>, i: nat)
    requires UniqueActors(slots) && AreActors(actors, slots) && i < |slots| && Rank(slots, i) >= 256
    ensures !NoClash(actors)
  {
    RankBelow(slots, i, 0);
    RankBelow(slots, i, 256);
    var a :| 0 <= a <= i && slots[a].story == slots[i].story && Rank(slots, a) == 0;
    var b :| 0 <= b <= i && slots[b].story == slots[i].story && Rank(slots, b) == 256;
    hide Rank;
    ActorIsThere(actors, slots, a);
    ActorIsThere(actors, slots, b);
    var p :| 0 <= p < |actors| && actors[p] == ActorAt(slots, a);
    var q :| 0 <= q < |actors| && actors[q] == ActorAt(slots, b);
    hide AreActors;
    assert actors[p].index == actors[q].index == 0 && actors[p].token != actors[q].token;
  }

  lemma {:induction false} TokenIsKept(token: Token, name: string, def: seq<Byte>, slots: seq<Slot>)
    ensures BuildUp(token, name, def, slots).session.token == token
  {
    if slots != [] { TokenIsKept(token, name, def, slots[..|slots| - 1]); }
  }

  ghost function TokensOf(clients: seq<Client>): set<Token> {
    set k | 0 <= k < |clients| :: clients[k].token
  }

  lemma {:induction false} AsManyTokens(clients: seq<Client>)
    requires forall i, j :: 0 <= i < j < |clients| ==> clients[i].token != clients[j].token
    ensures |TokensOf(clients)| == |clients|
  {
    if clients != [] {
      var n := |clients| - 1;
      AsManyTokens(clients[..n]);
      assert TokensOf(clients) == TokensOf(clients[..n]) + {clients[n].token};
    }
  }

  /** The session has a client for every one with a remote slot. */
  lemma ClientsCounted(clients: seq<Client>, slots: seq<Slot>)
    requires ClientsOf(clients, slots)
    ensures |clients| == |RemoteClients(slots)|
  {
    AsManyTokens(clients);
    forall c ensures c in RemoteClients(slots) <==> HasRemote(slots, c) {
    }
    forall c ensures c in TokensOf(clients) <==> HasRemote(slots, c) {
    }
    assert TokensOf(clients) == RemoteClients(slots);
  }

  lemma LocalsAreValid(slots: seq<Slot>, stories: seq<Story>)
    requires UniqueActors(slots)
    requires forall i :: 0 <= i < |slots| ==> KnownStory(stories, slots[i].story)
    ensures LocalsValid(LocalActors(slots), stories)
  {
    LocalsUnique(slots);
    var actors := LocalActors(slots);
    forall k | 0 <= k < |actors| ensures actors[k].token != 0 && KnownStory(stories, actors[k].story) {
      LocalMember(slots, actors[k]);
      var i :| 0 <= i < |slots| && slots[i].availability.Local? && actors[k] == ActorAt(slots, i);
      assert KnownStory(stories, slots[i].story);
    }
  }

  lemma ActorsAreValid(slots: seq<Slot>, c: Token, stories: seq<Story>)
    requires UniqueActors(slots) && AllFilled(slots)
    requires forall i :: 0 <= i < |slots| ==> KnownStory(stories, slots[i].story)
    ensures ActorsValid(Connected(RemoteActors(slots, c)), stories)
  {
    RemotesUnique(slots, c);
    var cas := Connected(RemoteActors(slots, c));
    assert ActorsOf(cas) == ActorsOf(RemoteActors(slots, c));
    forall k | 0 <= k < |cas|
      ensures cas[k].actor.config.Some? && cas[k].actor.token != 0 && KnownStory(stories, cas[k].actor.story)
    {
      assert ActorsOf(cas)[k] == cas[k].actor;
      RemoteMember(slots, c, cas[k].actor);
    }
  }

  lemma ClientsAreValid(s: Session, slots: seq<Slot>, stories: seq<Story>)
    requires UniqueActors(slots) && AllFilled(slots)
    requires ClientsOf(s.clients, slots)
    requires forall i :: 0 <= i < |slots| ==> KnownStory(stories, slots[i].story)
    ensures ClientsValid(WithChannels(s).clients, stories)
  {
    hide ActorsValid, KnownStory, UniqueActors;
    var clients := WithChannels(s).clients;
    forall k | 0 <= k < |clients| ensures clients[k].token != 0 && ActorsValid(clients[k].actors, stories) {
      ActorsAreValid(slots, s.clients[k].token, stories);
      assert HasRemote(slots, s.clients[k].token);
    }
  }

  lemma {:induction false} SameRemotes(a: seq<Client>, b: seq<Client>)
    requires |a| == |b| && forall k :: 0 <= k < |a| ==> ActorsOf(a[k].actors) == ActorsOf(b[k].actors)
    ensures RemoteOf(a) == RemoteOf(b)
  {
    if a != [] { SameRemotes(a[..|a| - 1], b[..|b| - 1]); }
  }

  lemma StoriesAreValid(stories: seq<Story>, slots: seq<Slot>)
    requires Contiguous(slots) && StoriesNonzero(slots)
    requires |stories| == |StoryTokens(slots)|
    requires forall i :: 0 <= i < |stories| ==> stories[i] == Story(StoryTokens(slots)[i], true)
    ensures StoriesValid(stories)
    ensures forall i :: 0 <= i < |slots| ==> KnownStory(stories, slots[i].story)
    ensures forall k :: 0 <= k < |stories| ==> exists i :: 0 <= i < |slots| && slots[i].story == stories[k].token
  {
    StoryTokensUnique(slots);
    StoryTokensExact(slots);
    forall i | 0 <= i < |slots| ensures KnownStory(stories, slots[i].story) {
      assert slots[i].story in StoryTokens(slots);
      var k :| 0 <= k < |StoryTokens(slots)| && StoryTokens(slots)[k] == slots[i].story;
      assert stories[k].token == slots[i].story;
    }
    forall k | 0 <= k < |stories|
      ensures stories[k].token != 0 && exists i :: 0 <= i < |slots| && slots[i].story == stories[k].token
    {
      assert StoryTokens(slots)[k] in StoryTokens(slots);
    }
  }

  /** A full lobby with distinct actors that is ready becomes a session that is valid once channels are assigned. */
  lemma ReadyIsValid(token: Token, name: string, def: seq<Byte>, slots: seq<Slot>)
    requires token != 0 && AllFilled(slots) && UniqueActors(slots) && ReadyForSession(slots) && RanksFit(slots)
    ensures ValidSession(WithChannels(BuildUp(token, name, def, slots).session))
  {
    var s := BuildUp(token, name, def, slots).session;
    var v := WithChannels(s);
    SessionParts(token, name, def, slots);
    TokenIsKept(token, name, def, slots);
    StoriesAreValid(v.stories, slots);
    ClientsCounted(s.clients, slots);
    SomeStory(s.clients, slots);
    hide Contiguous, UniqueActors, StoriesNonzero, StoriesValid, LocalsValid, ClientsValid, KnownStory, SlotFilled;
    hide RanksFit, RemoteClients;
    LocalsAreValid(slots, v.stories);
    ClientsAreValid(s, slots, v.stories);
    hide HasRemote, Bits, Dense, AllActors;
    PlacesAreValid(s, slots);
  }

  lemma SomeStory(clients: seq<Client>, slots: seq<Slot>)
    requires ClientsOf(clients, slots) && clients != []
    ensures StoryTokens(slots) != []
  {
    assert HasRemote(slots, clients[0].token);
    StoryTokensExact(slots);
    assert slots[0].story in StoryTokens(slots);
  }

  /** And a lobby that is not ready does not: the session repeats a story, has a clash, or breaks a limit. */
  lemma ValidIsReady(token: Token, name: string, def: seq<Byte>, slots: seq<Slot>)
    requires AllFilled(slots) && UniqueActors(slots)
    requires ValidSession(WithChannels(BuildUp(token, name, def, slots).session))
    ensures ReadyForSession(slots) && RanksFit(slots)
  {
    var s := BuildUp(token, name, def, slots).session;
    var v := WithChannels(s);
    SessionParts(token, name, def, slots);
    ClientsCounted(s.clients, slots);
    AllActorsOk(s, slots);
    SameActors(s);
    hide AllFilled, ClientsOf, AreActors, UniqueActors, NoClash, LocalsValid, ClientsValid, AllActors, BuildUp, Rank;
    hide RemoteClients, LocalActors;
    forall i, j | 0 <= i < j < |StoryTokens(slots)| ensures StoryTokens(slots)[i] != StoryTokens(slots)[j] {
      assert v.stories[i].token != v.stories[j].token;
    }
    UniqueIsContiguous(slots);
    forall i | 0 <= i < |slots| ensures Rank(slots, i) < 256 {
      if Rank(slots, i) >= 256 { ClashBeyondByte(AllActors(s), slots, i); }
    }
  }

  /**
   * A full lobby with distinct actors becomes a session that passes validation, as soon as channels are
   * assigned, if and only if the slots of each story stand together, no story has more than 256 of them, and
   * there are at most 64 stories and at least one and at most 64 clients.
   */
  lemma SessionIsValid(token: Token, name: string, def: seq<Byte>, slots: seq<Slot>)
    requires token != 0 && AllFilled(slots) && UniqueActors(slots)
    ensures ValidSession(WithChannels(BuildUp(token, name, def, slots).session)) <==>
            ReadyForSession(slots) && RanksFit(slots)
  {
    hide *;
    if ReadyForSession(slots) && RanksFit(slots) { ReadyIsValid(token, name, def, slots); }
    if ValidSession(WithChannels(BuildUp(token, name, def, slots).session)) { ValidIsReady(token, name, def, slots); }
  }

  /** Every story of the session has actors, at places 0 to some number, each taken once. */
  lemma PlacesAreValid(s: Session, slots: seq<Slot>)
    requires AllFilled(slots) && UniqueActors(slots) && Contiguous(slots) && RanksFit(slots)
    requires s.localActors == LocalActors(slots) && ClientsOf(s.clients, slots)
    requires StoriesBuilt(s.stories, StoryTokens(slots))
    ensures PlacesValid(WithChannels(s).stories, AllActors(WithChannels(s)))
  {
    hide Contiguous, UniqueActors, SlotFilled, ClientsOf, AllActors, NoClash, Bits, Dense, AreActors, UniqueTokens;
    var stories := WithChannels(s).stories;
    AllActorsOk(s, slots);
    AllActorsUnique(s, slots);
    SameActors(s);
    NoClashFromSlots(AllActors(s), slots);
    forall k | 0 <= k < |stories|
      ensures Bits(AllActors(s), stories[k].token) != {} && Dense(Bits(AllActors(s), stories[k].token))
    {
      StoryTokensExact(slots);
      assert StoryTokens(slots)[k] in StoryTokens(slots);
      PlacesFromSlots(AllActors(s), slots, stories[k].token);
    }
  }

  lemma SameActors(s: Session)
    ensures AllActors(WithChannels(s)) == AllActors(s)
  {
    var v := WithChannels(s);
    forall k | 0 <= k < |s.clients| ensures ActorsOf(v.clients[k].actors) == ActorsOf(s.clients[k].actors) {
    }
    SameRemotes(v.clients, s.clients);
  }

  // ---- the client's own construction ----

  /** What the client keeps of a slot it was told about. */
  datatype ClientSeat = ClientSeat(story: Token, name: string, index: nat)
  datatype ClientSession = ClientSession(stories: seq<Token>, actors: seq<ClientSeat>)

  /** One of the first n slots belongs to the story. */
  ghost predicate SeenBefore(slots: seq<Slot>, n: nat, story: Token)
    requires n <= |slots|
  {
    exists j :: 0 <= j < n && slots[j].story == story
  }

  /** How many slots lie between slot i and the last one before it whose story was new. */
  ghost function SinceNew(slots: seq<Slot>, i: nat): nat
    requires i < |slots|
  {
    if i == 0 || !SeenBefore(slots, i, slots[i].story) then 0 else SinceNew(slots, i - 1) + 1
  }

  /** The stories of the first n slots, each where it first appears. */
  ghost function FirstStories(slots: seq<Slot>, n: nat): seq<Token>
    requires n <= |slots|
  {
    if n == 0 then []
    else
      FirstStories(slots, n - 1) + if SeenBefore(slots, n - 1, slots[n - 1].story) then [] else [slots[n - 1].story]
  }

  /** What the client's loop has after the first n slots. */
  ghost predicate ClientBuilt(s: ClientSession, slots: seq<Slot>, n: nat)
    requires n <= |slots|
  {
    && s.stories == FirstStories(slots, n) && |s.actors| == n
    && forall i :: 0 <= i < n ==>
         s.actors[i] == ClientSeat(slots[i].story, slots[i].name, Wrap(SinceNew(slots, i)))
  }

  ghost predicate AreSeen(setStory: set<Token>, slots: seq<Slot>, n: nat)
    requires n <= |slots|
  {
    forall t :: t in setStory <==> SeenBefore(slots, n, t)
  }

  /** The locals of the client's loop: the stories seen and the next index. */
  ghost predicate ClientLocals(setStory: set<Token>, actorIdx: nat, slots: seq<Slot>, n: nat)
    requires n <= |slots|
  {
    && AreSeen(setStory, slots, n)
    && actorIdx == if n == 0 then 0 else Wrap(SinceNew(slots, n - 1) + 1)
  }

  /** The session a client builds from the slots it last received. */
  method ClientBuild(slots: seq<Slot>) returns (s: ClientSession)
    ensures ClientBuilt(s, slots, |slots|)
  {
    hide SeenBefore, SinceNew, FirstStories, ClientBuilt, ClientLocals;
    s := ClientSession([], []);
    var setStory: set<Token> := {};
    var actorIdx: nat := 0;
    NothingBuilt(slots);
    for i := 0 to |slots|
      invariant ClientBuilt(s, slots, i) && ClientLocals(setStory, actorIdx, slots, i)
    {
      var storyToken := slots[i].story;
      StorySeen(setStory, actorIdx, slots, i);
      BuiltStep(s, slots, i);
      LocalsStep(setStory, actorIdx, slots, i);
      ghost var seen := setStory;
      if storyToken !in setStory {
        s := s.(stories := s.stories + [storyToken]);
        setStory := setStory + {storyToken};
        actorIdx := 0;
      }
      assert setStory == seen + {storyToken};
      s := s.(actors := s.actors + [ClientSeat(storyToken, slots[i].name, actorIdx)]);
      actorIdx := Wrap(actorIdx + 1);
    }
  }

  lemma NothingBuilt(slots: seq<Slot>)
    ensures ClientBuilt(ClientSession([], []), slots, 0) && ClientLocals({}, 0, slots, 0)
  {
  }

  lemma LocalsStep(setStory: set<Token>, actorIdx: nat, slots: seq<Slot>, i: nat)
    requires i < |slots| && ClientLocals(setStory, actorIdx, slots, i)
    ensures ClientLocals(setStory + {slots[i].story}, Wrap(Wrap(SinceNew(slots, i)) + 1), slots, i + 1)
  {
    hide SinceNew, AreSeen, Wrap;
    WrapNext(SinceNew(slots, i));
    AreSeenStep(setStory, slots, i);
  }

  lemma AreSeenStep(setStory: set<Token>, slots: seq<Slot>, i: nat)
    requires i < |slots| && AreSeen(setStory, slots, i)
    ensures AreSeen(setStory + {slots[i].story}, slots, i + 1)
  {
    hide SeenBefore;
    var y := slots[i].story;
    var more := setStory + {y};
    forall t ensures t in more <==> SeenBefore(slots, i + 1, t) {
      SeenStep(slots, i, t);
      assert t in more <==> t in setStory || t == y;
    }
  }

  lemma SeenStep(slots: seq<Slot>, i: nat, t: Token)
    requires i < |slots|
    ensures SeenBefore(slots, i + 1, t) <==> SeenBefore(slots, i, t) || slots[i].story == t
  {
    if SeenBefore(slots, i + 1, t) {
      var j :| 0 <= j < i + 1 && slots[j].story == t;
      if j < i { assert 0 <= j < i && slots[j].story == t; }
    }
    if slots[i].story == t { assert 0 <= i < i + 1 && slots[i].story == t; }
  }

  lemma BuiltStep(s: ClientSession, slots: seq<Slot>, i: nat)
    requires i < |slots| && ClientBuilt(s, slots, i)
    ensures var y := slots[i].story;
      ClientBuilt(ClientSession(if SeenBefore(slots, i, y) then s.stories else s.stories + [y],
                                s.actors + [ClientSeat(y, slots[i].name, Wrap(SinceNew(slots, i)))]), slots, i + 1)
  {
    hide SinceNew, SeenBefore, Wrap;
    var y := slots[i].story;
    assert FirstStories(slots, i + 1) == FirstStories(slots, i) + if SeenBefore(slots, i, y) then [] else [y];
    hide FirstStories;
  }

  lemma StorySeen(setStory: set<Token>, actorIdx: nat, slots: seq<Slot>, i: nat)
    requires i < |slots| && ClientLocals(setStory, actorIdx, slots, i)
    ensures slots[i].story in setStory <==> SeenBefore(slots, i, slots[i].story)
    ensures Wrap(SinceNew(slots, i)) == if slots[i].story in setStory then actorIdx else 0
  {
    hide SeenBefore, Wrap;
    SinceNewStep(slots, i);
    hide SinceNew;
  }

  lemma SinceNewStep(slots: seq<Slot>, i: nat)
    requires i < |slots|
    ensures SinceNew(slots, i) == if SeenBefore(slots, i, slots[i].story) then SinceNew(slots, i - 1) + 1 else 0
  {
    hide SeenBefore;
    if i == 0 { NoneSeen(slots, slots[0].story); }
  }

  lemma NoneSeen(slots: seq<Slot>, t: Token)
    ensures !SeenBefore(slots, 0, t)
  {
  }

  /** With contiguous stories a story is new exactly when its group begins. */
  lemma NewStoryIsRankZero(slots: seq<Slot>, i: nat)
    requires Contiguous(slots) && i < |slots|
    ensures Rank(slots, i) == 0 <==> !SeenBefore(slots, i, slots[i].story)
    ensures Rank(slots, i) <= i
  {
    RankLow(slots, i);
    if j :| 0 <= j < i && slots[j].story == slots[i].story {
      RankWithin(slots, j, i);
    }
    if Rank(slots, i) != 0 { assert slots[i - 1].story == slots[i].story; }
  }

  /** Then the client counts within the groups. */
  lemma {:induction false} SinceNewIsRank(slots: seq<Slot>, i: nat)
    requires Contiguous(slots) && i < |slots|
    ensures SinceNew(slots, i) == Rank(slots, i) <= i
  {
    NewStoryIsRankZero(slots, i);
    if i > 0 { SinceNewIsRank(slots, i - 1); }
    hide Contiguous, SeenBefore;
  }

  /** And it lists one story for every group. */
  lemma {:induction false} FirstStoriesAreGroups(slots: seq<Slot>, n: nat)
    requires Contiguous(slots) && n <= |slots|
    ensures FirstStories(slots, n) == StoryTokens(slots[..n])
  {
    if n > 0 {
      hide Contiguous, SeenBefore, Rank, StoryTokens, FirstStories;
      var m := n - 1;
      FirstStoriesAreGroups(slots, m);
      FirstStoriesStep(slots, m);
      StoryTokensStep(slots, m);
    }
  }

  lemma FirstStoriesStep(slots: seq<Slot>, i: nat)
    requires Contiguous(slots) && i < |slots|
    ensures FirstStories(slots, i + 1) ==
            FirstStories(slots, i) + if Rank(slots, i) == 0 then [slots[i].story] else []
  {
    NewStoryIsRankZero(slots, i);
    hide Contiguous, SeenBefore, Rank;
  }

  lemma StoryTokensStep(slots: seq<Slot>, i: nat)
    requires i < |slots|
    ensures StoryTokens(slots[..i + 1]) ==
            StoryTokens(slots[..i]) + if Rank(slots, i) == 0 then [slots[i].story] else []
  {
    assert slots[..i + 1][..i] == slots[..i];
    RankPrefix(slots, i + 1, i);
    hide Rank;
  }

  /** The server's session lists the stories in the client's order. */
  ghost predicate SameStoryList(stories: seq<Story>, listed: seq<Token>) {
    |stories| == |listed| && forall k :: 0 <= k < |stories| ==> stories[k].token == listed[k]
  }

  /** The session has exactly the actor that the client puts in this seat, in the same story at the same index. */
  ghost predicate SameSeat(s: Session, actor: Token, seat: ClientSeat) {
    exists e :: e in AllActors(s) && e.token == actor && seat == ClientSeat(e.story, e.name, e.index)
  }

  /** Server and client agree. */
  ghost predicate Agree(s: Session, slots: seq<Slot>, c: ClientSession) {
    && SameStoryList(s.stories, c.stories)
    && |c.actors| == |slots| && forall i :: 0 <= i < |slots| ==> SameSeat(s, slots[i].actor, c.actors[i])
  }

  /** On a full lobby server and client agree if and only if the slots of each story stand together. */
  lemma ServerAndClientAgree(token: Token, name: string, def: seq<Byte>, slots: seq<Slot>, c: ClientSession)
    requires AllFilled(slots) && ClientBuilt(c, slots, |slots|)
    ensures Agree(BuildUp(token, name, def, slots).session, slots, c) <==> Contiguous(slots)
  {
    hide *;
    var s := BuildUp(token, name, def, slots).session;
    SessionParts(token, name, def, slots);
    if Contiguous(slots) { ContiguousAgree(s, slots, c); }
    if Agree(s, slots, c) { OnlyContiguousAgree(s, slots, c); }
  }

  lemma ContiguousAgree(s: Session, slots: seq<Slot>, c: ClientSession)
    requires AllFilled(slots) && Contiguous(slots) && ClientBuilt(c, slots, |slots|)
    requires s.localActors == LocalActors(slots) && ClientsOf(s.clients, slots)
    requires StoriesBuilt(s.stories, StoryTokens(slots))
    ensures Agree(s, slots, c)
  {
    hide AllFilled, Contiguous, SameSeat, ClientsOf, LocalActors, FirstStories, StoryTokens, SinceNew;
    FirstStoriesAreGroups(slots, |slots|);
    assert slots[..|slots|] == slots;
    forall i | 0 <= i < |slots| ensures SameSeat(s, slots[i].actor, c.actors[i]) {
      SeatsAgree(s, slots, c, i);
    }
  }

  lemma OnlyContiguousAgree(s: Session, slots: seq<Slot>, c: ClientSession)
    requires ClientBuilt(c, slots, |slots|) && StoriesBuilt(s.stories, StoryTokens(slots)) && Agree(s, slots, c)
    ensures Contiguous(slots)
  {
    hide Contiguous, SameSeat, FirstStories, StoryTokens, SinceNew;
    FirstStoriesUnique(slots, |slots|);
    assert StoryTokens(slots) == c.stories;
    UniqueIsContiguous(slots);
  }

  lemma SeatsAgree(s: Session, slots: seq<Slot>, c: ClientSession, i: nat)
    requires AllFilled(slots) && Contiguous(slots) && ClientBuilt(c, slots, |slots|) && i < |slots|
    requires s.localActors == LocalActors(slots) && ClientsOf(s.clients, slots)
    ensures SameSeat(s, slots[i].actor, c.actors[i])
  {
    SinceNewIsRank(slots, i);
    hide Rank, AllActors, ClientsOf, LocalActors, AreActors, SinceNew, FirstStories;
    AllActorsOk(s, slots);
    var e := ActorAt(slots, i);
    ActorIsThere(AllActors(s), slots, i);
    assert c.actors[i] == ClientSeat(e.story, e.name, e.index);
  }

  /** The client never lists a story twice. */
  lemma {:induction false} FirstStoriesUnique(slots: seq<Slot>, n: nat)
    requires n <= |slots|
    ensures forall t :: t in FirstStories(slots, n) <==> SeenBefore(slots, n, t)
    ensures forall i, j :: 0 <= i < j < |FirstStories(slots, n)| ==>
              FirstStories(slots, n)[i] != FirstStories(slots, n)[j]
  {
    if n > 0 {
      FirstStoriesUnique(slots, n - 1);
      forall t ensures SeenBefore(slots, n, t) <==> SeenBefore(slots, n - 1, t) || slots[n - 1].story == t {
        if slots[n - 1].story == t { assert SeenBefore(slots, n, t); }
      }
      hide SeenBefore;
    }
  }

  lemma SessionParts(token: Token, name: string, def: seq<Byte>, slots: seq<Slot>)
    requires AllFilled(slots)
    ensures var s := BuildUp(token, name, def, slots).session;
      && s.localActors == LocalActors(slots) && ClientsOf(s.clients, slots)
      && StoriesBuilt(s.stories, StoryTokens(slots))
    ensures StoriesNonzero(slots)
  {
    hide Contiguous, UniqueActors, ClientsOf, StoriesBuilt, LocalsBuilt, HasRemote, BuildUp;
    assert StoriesNonzero(slots) by { assert forall i :: 0 <= i < |slots| ==> SlotFilled(slots[i]); }
    BuildOk(token, name, def, slots);
  }

  lemma ActorIsThere(actors: seq<Actor>, slots: seq<Slot>, i: nat)
    requires AreActors(actors, slots) && i < |slots|
    ensures ActorAt(slots, i) in actors
  {
    hide Rank;
    assert FromAny(slots, ActorAt(slots, i));
  }
}
