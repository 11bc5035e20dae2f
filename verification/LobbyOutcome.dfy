/** From the setup of a lobby to a valid session, over every run of the lobby. */
module LobbyOutcome {
  import opened Streams
  import opened Lobbies
  import opened LobbyLaws
  import opened Sessions
  import opened SessionValidity
  import opened SessionFromLobby
  import opened FinishLobby

  /** Whoever joins has a token, and remote actors also have a client and a config. */
  ghost predicate Proper(c: Command) {
    && (c.JoinLocal? ==> c.actor != 0)
    && (c.RemoteJoin? ==> c.actor != 0 && c.client != 0 && c.config.Some?)
  }

  ghost predicate SlotProper(d: Slot) {
    && (d.availability != Available ==> d.actor != 0)
    && (d.availability == Remote ==> d.client != 0 && d.config.Some?)
  }

  ghost predicate AllProper(slots: seq<Slot>) {
    forall i :: 0 <= i < |slots| ==> SlotProper(slots[i])
  }

  ghost predicate SameStories(a: seq<Slot>, b: seq<Slot>) {
    |a| == |b| && forall i :: 0 <= i < |a| ==> a[i].story == b[i].story
  }

  lemma DropClientProper(l: Lobby, client: Token)
    requires AllProper(l.slots)
    ensures AllProper(DropClient(l, client).0.slots)
  {
  }

  lemma UnseatProper(l: Lobby, m: Command)
    requires AllProper(l.slots) && m.RemoteJoin?
    ensures AllProper(Unseat(l, m).slots)
  {
    var i := FindActor(l.slots, m.actor);
    if i < |l.slots| { DropClientProper(l, l.slots[i].client); }
  }

  lemma JoinRemoteProper(l: Lobby, m: Command)
    requires AllProper(l.slots) && m.RemoteJoin? && Proper(m)
    ensures AllProper(JoinRemote(l, m).0.slots)
  {
    UnseatProper(l, m);
    if m.slotIdx < |l.slots| { DropClientProper(l, l.slots[m.slotIdx].client); }
  }

  lemma ProcessProper(l: Lobby, c: Command)
    requires AllProper(l.slots) && Proper(c)
    ensures AllProper(Process(l, c).0.slots)
  {
    match c
    case RemoteJoin(_, _, _, _, _, _) => JoinRemoteProper(l, c);
    case _ =>
  }

  lemma {:induction false} RunProper(ls: seq<Lobby>, es: seq<Event>, k: nat)
    requires IsTrace(ls, es) && k < |ls| && AllProper(ls[0].slots)
    requires forall i :: 0 <= i < |es| && es[i].Do? ==> Proper(es[i].c)
    ensures AllProper(ls[k].slots) && SameStories(ls[k].slots, ls[0].slots)
  {
    if k > 0 {
      RunProper(ls, es, k - 1);
      if es[k - 1].Do? {
        ProcessProper(ls[k - 1], es[k - 1].c);
        StoriesStay(ls[k - 1], es[k - 1].c);
      }
    }
  }

  /** With everybody proper, a lobby in order that is not active is full of distinct actors. */
  lemma NotActiveIsFull(l: Lobby)
    requires Seated(l) && l.state != Active && AllProper(l.slots) && StoriesNonzero(l.slots)
    ensures AllFilled(l.slots) && UniqueActors(l.slots)
  {
    forall i | 0 <= i < |l.slots| ensures SlotFilled(l.slots[i]) {
      assert SlotProper(l.slots[i]);
    }
  }

  lemma SameStoriesNonzero(a: seq<Slot>, b: seq<Slot>)
    requires SameStories(a, b) && StoriesNonzero(b)
    ensures StoriesNonzero(a)
  {
  }

  // ---- slots that no command reaches ----

  /** Joins name their slot by a byte. */
  ghost predicate HighSlotsFree(slots: seq<Slot>) {
    forall i :: 256 <= i < |slots| ==> slots[i].availability == Available
  }

  lemma DropClientHigh(l: Lobby, client: Token)
    requires HighSlotsFree(l.slots)
    ensures HighSlotsFree(DropClient(l, client).0.slots)
  {
  }

  lemma JoinRemoteHigh(l: Lobby, m: Command)
    requires HighSlotsFree(l.slots) && m.RemoteJoin?
    ensures HighSlotsFree(JoinRemote(l, m).0.slots)
  {
    if m.slotIdx < |l.slots| { DropClientHigh(l, l.slots[m.slotIdx].client); }
    var i := FindActor(l.slots, m.actor);
    if i < |l.slots| { DropClientHigh(l, l.slots[i].client); }
  }

  lemma ProcessHigh(l: Lobby, c: Command)
    requires HighSlotsFree(l.slots)
    ensures HighSlotsFree(Process(l, c).0.slots)
  {
    match c
    case RemoteJoin(_, _, _, _, _, _) => JoinRemoteHigh(l, c);
    case _ =>
  }

  lemma {:induction false} RunHigh(ls: seq<Lobby>, es: seq<Event>, k: nat)
    requires IsTrace(ls, es) && Started(ls[0]) && k < |ls|
    ensures HighSlotsFree(ls[k].slots)
  {
    if k > 0 {
      RunHigh(ls, es, k - 1);
      if es[k - 1].Do? { ProcessHigh(ls[k - 1], es[k - 1].c); }
    }
  }

  /** A lobby of more than 256 slots never fills up. */
  lemma LargeLobbyStaysActive(ls: seq<Lobby>, es: seq<Event>, k: nat)
    requires IsTrace(ls, es) && Started(ls[0]) && k < |ls| && |ls[k].slots| > 256
    ensures ls[k].state == Active && forall i :: 256 <= i < |ls[k].slots| ==> ls[k].slots[i].availability == Available
  {
    LobbyInvariant(ls, es);
    RunHigh(ls, es, k);
    assert Inv(ls[k]) && ls[k].slots[256].availability == Available;
  }

  lemma RanksAreLow(slots: seq<Slot>)
    requires |slots| <= 256
    ensures RanksFit(slots)
  {
    forall i | 0 <= i < |slots| ensures Rank(slots, i) < 256 { RankLow(slots, i); }
  }

  // ---- the session ----

  /**
   * A lobby whose slots were set up with a story each and whose commands are proper gives, from every state that
   * is not active, a session that is valid if and only if the slots are ready for it.
   */
  lemma LobbyGivesValidSession(ls: seq<Lobby>, es: seq<Event>, k: nat, token: Token, def: seq<Byte>)
    requires IsTrace(ls, es) && Started(ls[0]) && k < |ls| && StoriesNonzero(ls[0].slots)
    requires forall i :: 0 <= i < |es| && es[i].Do? ==> Proper(es[i].c)
    requires ls[k].state != Active && token != 0
    ensures ValidSession(WithChannels(BuildUp(token, ls[k].name, def, ls[k].slots).session)) <==>
            ReadyForSession(ls[k].slots)
  {
    LobbyInvariant(ls, es);
    RunProper(ls, es, k);
    assert Seated(ls[k]) by { assert Inv(ls[k]); }
    hide *;
    SameStoriesNonzero(ls[k].slots, ls[0].slots);
    NotActiveIsFull(ls[k]);
    if |ls[k].slots| > 256 { LargeLobbyStaysActive(ls, es, k); }
    RanksAreLow(ls[k].slots);
    SessionIsValid(token, ls[k].name, def, ls[k].slots);
  }

  /** A full lobby of one slot with a local actor: there is no client to start a session with. */
  lemma LocalLobbyIsRefused(name: string, story: Token, token: Token, def: seq<Byte>)
    requires story != 0 && token != 0
    ensures var l0 := NewLobby(name, [story]); var e := Do(JoinLocal(5, 0, 0, "a")); var l1 := Apply(l0, e);
      && IsTrace([l0, l1], [e]) && Started(l0) && l1.state == Ready
      && !ValidSession(WithChannels(BuildUp(token, l1.name, def, l1.slots).session))
  {
    var l0 := NewLobby(name, [story]);
    var e := Do(JoinLocal(5, 0, 0, "a"));
    var l1 := Apply(l0, e);
    assert Started(l0);
    assert l1.slots == [SeatedLocal(l0.slots[0], 5, 0, "a")];
    assert RemoteClients(l1.slots) == {};
    LobbyGivesValidSession([l0, l1], [e], 1, token, def);
  }

  /** Remote actors in three slots, of which the first and the last belong to one story: the story is listed twice. */
  lemma ScatteredStoryIsRefused(name: string, token: Token, def: seq<Byte>)
    requires token != 0
    ensures var l0 := NewLobby(name, [1, 2, 1]);
      var e0, e1, e2 := JoinAt(0), JoinAt(1), JoinAt(2);
      var l1 := Apply(l0, e0); var l2 := Apply(l1, e1); var l3 := Apply(l2, e2);
      && IsTrace([l0, l1, l2, l3], [e0, e1, e2]) && Started(l0) && l3.state == Ready
      && !ValidSession(WithChannels(BuildUp(token, l3.name, def, l3.slots).session))
  {
    var l0 := NewLobby(name, [1, 2, 1]);
    var l1 := Apply(l0, JoinAt(0));
    var l2 := Apply(l1, JoinAt(1));
    var l3 := Apply(l2, JoinAt(2));
    assert Started(l0);
    ThreeJoins(name);
    hide Apply, JoinAt, NewLobby, ValidSession, BuildUp;
    var ls, es := [l0, l1, l2, l3], [JoinAt(0), JoinAt(1), JoinAt(2)];
    assert !Contiguous(l3.slots);
    assert forall i :: 0 <= i < 3 ==> ls[i + 1] == Apply(ls[i], es[i]) && Proper(es[i].c);
    LobbyGivesValidSession(ls, es, 3, token, def);
  }

  lemma ThreeJoins(name: string)
    ensures var l0 := NewLobby(name, [1, 2, 1]);
      var l3 := Apply(Apply(Apply(l0, JoinAt(0)), JoinAt(1)), JoinAt(2));
      && l3.state == Ready && |l3.slots| == 3
      && l3.slots[0].story == l3.slots[2].story == 1 && l3.slots[1].story == 2 && StoriesNonzero(l0.slots)
      && forall i: Byte :: JoinAt(i).Do? && Proper(JoinAt(i).c)
  {
    var l0 := NewLobby(name, [1, 2, 1]);
    var l1 := Apply(l0, JoinAt(0));
    var l2 := Apply(l1, JoinAt(1));
    var l3 := Apply(l2, JoinAt(2));
    assert l1.slots == l0.slots[0 := SeatedRemote(l0.slots[0], 5, 7, "a", Some([]))];
    assert l2.slots == l1.slots[1 := SeatedRemote(l1.slots[1], 6, 7, "a", Some([]))];
    assert l3.slots == l2.slots[2 := SeatedRemote(l2.slots[2], 7, 7, "a", Some([]))];
  }

  /** An actor of client 7 joins at slot i. */
  function JoinAt(i: Byte): Event {
    Do(RemoteJoin(7, 5 + i, i, "a", Some([]), NO_CONTACT))
  }

  /** For up to 64 slots of contiguous stories all that can be missing is a remote actor. */
  lemma SmallLobbyIsReady(slots: seq<Slot>)
    requires |slots| <= 64 && Contiguous(slots)
    ensures ReadyForSession(slots) <==> exists c :: HasRemote(slots, c)
  {
    FewStories(slots);
    FewRemotes(slots);
    forall c ensures HasRemote(slots, c) <==> c in RemoteClients(slots) {
    }
    if c :| HasRemote(slots, c) { assert c in RemoteClients(slots); }
    if |RemoteClients(slots)| >= 1 { var c :| c in RemoteClients(slots); }
  }

  lemma {:induction false} FewStories(slots: seq<Slot>)
    ensures |StoryTokens(slots)| <= |slots|
  {
    if slots != [] { FewStories(slots[..|slots| - 1]); }
  }

  lemma {:induction false} FewRemotes(slots: seq<Slot>)
    ensures |RemoteClients(slots)| <= |slots|
  {
    if slots != [] {
      var n := |slots| - 1;
      FewRemotes(slots[..n]);
      assert RemoteClients(slots) ==
             RemoteClients(slots[..n]) + if slots[n].availability == Remote then {slots[n].client} else {};
    }
  }

  /**
   * What a successful call to finish such a lobby returns, built from the slots and the name of its last
   * request, is the session of the slots and the name that it read at first, and it is valid if and only if
   * those slots are ready for it.
   */
  lemma FinishedSessionIsValid(ls: seq<Lobby>, es: seq<Event>, c: Call, token: Token, def: seq<Byte>)
    requires IsTrace(ls, es) && Started(ls[0]) && StoriesNonzero(ls[0].slots) && token != 0
    requires forall i :: 0 <= i < |es| && es[i].Do? ==> Proper(es[i].c)
    requires Succeeded(ls, es, c)
    ensures var read, last := ls[c.get], ls[c.f0];
      && BuildUp(token, last.name, def, last.slots) == BuildUp(token, read.name, def, read.slots)
      && (ValidSession(WithChannels(BuildUp(token, last.name, def, last.slots).session)) <==>
            ReadyForSession(read.slots))
  {
    FinishIsAtomic(ls, es, c, c.f0);
    hide IsTrace, Started, ValidSession, ReadyForSession, BuildUp;
    LobbyGivesValidSession(ls, es, c.f0, token, def);
  }
}
