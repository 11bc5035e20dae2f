/** What makes a session valid, and the check for it (udpstar/server/setup.go). */
module SessionValidity {
  import opened Streams
  import opened Lobbies
  import opened Sessions

  const MAX_CLIENTS := 64
  const MAX_STORIES := 64
  const MASK_BITS := 64

  // ---- validity, stated over the whole session ----

  function ActorsOf(cas: seq<ClientActor>): seq<Actor> {
    seq(|cas|, i requires 0 <= i < |cas| => cas[i].actor)
  }

  function RemoteOf(clients: seq<Client>): seq<Actor> {
    if clients == [] then [] else RemoteOf(clients[..|clients| - 1]) + ActorsOf(clients[|clients| - 1].actors)
  }

  function AllActors(s: Session): seq<Actor> {
    s.localActors + RemoteOf(s.clients)
  }

  /** The mask of a story as a set of bit positions; an index beyond the word size sets no bit. */
  function Bits(actors: seq<Actor>, story: Token): set<nat> {
    set i | 0 <= i < |actors| && actors[i].story == story && actors[i].index < MASK_BITS :: actors[i].index
  }

  /** No two actors take the same place of a story. */
  ghost predicate NoClash(actors: seq<Actor>) {
    forall p, q :: 0 <= p < q < |actors| ==>
      actors[p].story != actors[q].story || actors[p].index != actors[q].index || actors[p].index >= 64
  }

  /** The places taken are 0 to some number, without gaps. */
  ghost predicate Dense(bits: set<nat>) {
    forall n, m: nat :: n in bits && m < n ==> m in bits
  }

  ghost predicate StoriesValid(stories: seq<Story>) {
    && (forall i :: 0 <= i < |stories| ==> stories[i].token != 0 && stories[i].hasChannel)
    && (forall i, j :: 0 <= i < j < |stories| ==> stories[i].token != stories[j].token)
  }

  ghost predicate KnownStory(stories: seq<Story>, token: Token) {
    exists i :: 0 <= i < |stories| && stories[i].token == token
  }

  ghost predicate UniqueTokens(actors: seq<Actor>) {
    forall i, j :: 0 <= i < j < |actors| ==> actors[i].token != actors[j].token
  }

  ghost predicate LocalsValid(actors: seq<Actor>, stories: seq<Story>) {
    && (forall i :: 0 <= i < |actors| ==> actors[i].token != 0 && KnownStory(stories, actors[i].story))
    && UniqueTokens(actors)
  }

  ghost predicate ActorsValid(cas: seq<ClientActor>, stories: seq<Story>) {
    && (forall i :: 0 <= i < |cas| ==> cas[i].actor.config.Some? && cas[i].hasChannel)
    && LocalsValid(ActorsOf(cas), stories)
  }

  ghost predicate ClientsValid(clients: seq<Client>, stories: seq<Story>) {
    && (forall i :: 0 <= i < |clients| ==> clients[i].token != 0 && ActorsValid(clients[i].actors, stories))
    && (forall i, j :: 0 <= i < j < |clients| ==> clients[i].token != clients[j].token)
  }

  ghost predicate PlacesValid(stories: seq<Story>, actors: seq<Actor>) {
    && NoClash(actors)
    && forall i :: 0 <= i < |stories| ==>
         Bits(actors, stories[i].token) != {} && Dense(Bits(actors, stories[i].token))
  }

  ghost predicate ValidSession(s: Session) {
    && s.token != 0 && 1 <= |s.clients| <= 64 && 1 <= |s.stories| <= 64
    && StoriesValid(s.stories) && LocalsValid(s.localActors, s.stories) && ClientsValid(s.clients, s.stories)
    && PlacesValid(s.stories, AllActors(s))
  }

  /** What a valid session rules out, defect by defect. */
  lemma DefectsAreInvalid(s: Session)
    requires ValidSession(s)
    ensures s.token != 0 && 1 <= |s.clients| <= 64 && 1 <= |s.stories| <= 64
    ensures forall i :: 0 <= i < |s.stories| ==> s.stories[i].token != 0 && s.stories[i].hasChannel
    ensures forall i, j :: 0 <= i < j < |s.stories| ==> s.stories[i].token != s.stories[j].token
    ensures forall i :: 0 <= i < |s.localActors| ==>
              s.localActors[i].token != 0 && KnownStory(s.stories, s.localActors[i].story)
    ensures forall i, j :: 0 <= i < j < |s.localActors| ==> s.localActors[i].token != s.localActors[j].token
    ensures forall c :: 0 <= c < |s.clients| ==> s.clients[c].token != 0
    ensures forall c, d :: 0 <= c < d < |s.clients| ==> s.clients[c].token != s.clients[d].token
    ensures forall c, i :: 0 <= c < |s.clients| && 0 <= i < |s.clients[c].actors| ==>
              && s.clients[c].actors[i].actor.token != 0 && s.clients[c].actors[i].actor.config.Some?
              && s.clients[c].actors[i].hasChannel && KnownStory(s.stories, s.clients[c].actors[i].actor.story)
    ensures forall c, i, j :: 0 <= c < |s.clients| && 0 <= i < j < |s.clients[c].actors| ==>
              s.clients[c].actors[i].actor.token != s.clients[c].actors[j].actor.token
  {
    hide PlacesValid;
    forall c | 0 <= c < |s.clients| ensures OwnActorsValid(s.clients[c].actors, s.stories) {
      ActorsValidOne(s.clients[c].actors, s.stories);
    }
  }

  ghost predicate OwnActorsValid(cas: seq<ClientActor>, stories: seq<Story>) {
    && (forall i :: 0 <= i < |cas| ==>
          && cas[i].actor.token != 0 && cas[i].actor.config.Some? && cas[i].hasChannel
          && KnownStory(stories, cas[i].actor.story))
    && forall i, j :: 0 <= i < j < |cas| ==> cas[i].actor.token != cas[j].actor.token
  }

  lemma ActorsValidOne(cas: seq<ClientActor>, stories: seq<Story>)
    requires ActorsValid(cas, stories)
    ensures OwnActorsValid(cas, stories)
  {
    var actors := ActorsOf(cas);
    hide KnownStory;
    assert forall i :: 0 <= i < |cas| ==> actors[i] == cas[i].actor;
  }

  /** Two actors never share a place of a story, and every story has its places taken without a gap. */
  lemma PlacesAreTaken(s: Session, actors: seq<Actor>)
    requires ValidSession(s) && actors == AllActors(s)
    ensures forall p, q :: 0 <= p < q < |actors| && actors[p].story == actors[q].story ==>
              actors[p].index != actors[q].index || actors[p].index >= 64
    ensures forall k, n: nat :: 0 <= k < |s.stories| && (n == 0 || TakesPlace(actors, s.stories[k].token, n)) ==>
              forall m: nat :: m <= n ==> TakesPlace(actors, s.stories[k].token, m)
  {
    hide StoriesValid, LocalsValid, ClientsValid, AllActors;
    forall k, n: nat, m: nat | 0 <= k < |s.stories| && m <= n && (n == 0 || TakesPlace(actors, s.stories[k].token, n))
      ensures TakesPlace(actors, s.stories[k].token, m)
    {
      var bits := Bits(actors, s.stories[k].token);
      var b :| b in bits;
      assert n in bits || n == 0;
      assert m in bits;
    }
  }

  /** Some actor sits at place n, among the 64 that a word can hold. */
  ghost predicate TakesPlace(actors: seq<Actor>, story: Token, n: nat) {
    exists p :: 0 <= p < |actors| && actors[p].story == story && actors[p].index == n < 64
  }

  // ---- masks ----

  lemma BitsStep(actors: seq<Actor>, a: Actor, story: Token)
    ensures Bits(actors + [a], story) ==
            Bits(actors, story) + if a.story == story && a.index < MASK_BITS then {a.index} else {}
  {
    var more := actors + [a];
    assert more[|actors|] == a;
    assert forall i :: 0 <= i < |actors| ==> more[i] == actors[i];
  }

  lemma NoClashStep(actors: seq<Actor>, a: Actor)
    ensures NoClash(actors + [a]) <==> NoClash(actors) && a.index !in Bits(actors, a.story)
  {
    var more := actors + [a];
    assert more[|actors|] == a && forall i :: 0 <= i < |actors| ==> more[i] == actors[i];
    if NoClash(actors) && a.index !in Bits(actors, a.story) {
      forall p, q | 0 <= p < q < |more|
        ensures more[p].story != more[q].story || more[p].index != more[q].index || more[p].index >= MASK_BITS
      {
        if q == |actors| && more[p].index < MASK_BITS && more[p].story == a.story {
          assert actors[p].index in Bits(actors, a.story);
        }
      }
    }
  }

  /** The mask 1<<n - 1. */
  function Below(n: nat): (s: set<nat>)
    ensures (forall m: nat :: m in s <==> m < n) && |s| == n
  {
    if n == 0 then {} else Below(n - 1) + {n - 1}
  }

  /** A mask equals 1<<count - 1 exactly when it has no gaps. */
  lemma {:induction false} DenseIsPrefix(bits: set<nat>)
    ensures Dense(bits) <==> bits == Below(|bits|)
  {
    if Dense(bits) {
      var n := 0;
      while n in bits
        invariant Below(n) <= bits
        decreases |bits| - n
      {
        SubsetSize(Below(n + 1), bits);
        n := n + 1;
      }
      assert bits <= Below(n);
      assert bits == Below(n);
    }
  }

  lemma {:induction false} SubsetSize(a: set<nat>, b: set<nat>)
    requires a <= b
    ensures |a| <= |b|
    decreases a
  {
    if a != {} {
      var x :| x in a;
      SubsetSize(a - {x}, b - {x});
    }
  }

  // ---- the check ----

  type Masks = map<Token, set<nat>>

  /** The masks after some actors, for exactly the given stories. */
  ghost predicate Tracks(masks: Masks, stories: seq<Story>, actors: seq<Actor>) {
    && (forall y :: y in masks <==> KnownStory(stories, y))
    && (forall y :: y in masks ==> masks[y] == Bits(actors, y))
  }

  /** Claims the place of an actor in its story; false when it is taken. */
  method Occupy(masks: Masks, a: Actor, ghost stories: seq<Story>, ghost actors: seq<Actor>)
    returns (ok: bool, masks': Masks)
    requires Tracks(masks, stories, actors) && a.story in masks
    ensures ok <==> a.index !in Bits(actors, a.story)
    ensures ok ==> Tracks(masks', stories, actors + [a])
  {
    var mask := if a.index < MASK_BITS then {a.index} else {};
    Meets(Bits(actors, a.story), a.index);
    assert masks[a.story] == Bits(actors, a.story);
    if masks[a.story] * mask != {} {
      return false, masks;
    }
    masks' := masks[a.story := masks[a.story] + mask];
    ok := true;
    forall y ensures Bits(actors + [a], y) ==
                     Bits(actors, y) + if a.story == y && a.index < MASK_BITS then {a.index} else {}
    {
      BitsStep(actors, a, y);
    }
  }

  lemma Meets(s: set<nat>, n: nat)
    ensures s * {n} != {} <==> n in s
  {
    if n in s { assert n in s * {n}; }
  }

  method ValidateStories(stories: seq<Story>) returns (ok: bool, masks: Masks)
    ensures ok <==> StoriesValid(stories)
    ensures ok ==> Tracks(masks, stories, [])
  {
    masks := map[];
    for i := 0 to |stories|
      invariant StoriesValid(stories[..i]) && Tracks(masks, stories[..i], [])
    {
      assert stories[i] == stories[..i + 1][i] && forall j :: 0 <= j < i ==> stories[..i + 1][j] == stories[..i][j];
      if stories[i].token == 0 || !stories[i].hasChannel || stories[i].token in masks {
        ok := false;
        return;
      }
      masks := masks[stories[i].token := {}];
    }
    assert stories[..|stories|] == stories;
    ok := true;
  }

  /** The checks that local and remote actors share, one actor after another. */
  method ValidateActors(list: seq<Actor>, masks0: Masks, ghost stories: seq<Story>, ghost before: seq<Actor>)
    returns (ok: bool, masks: Masks)
    requires Tracks(masks0, stories, before) && NoClash(before)
    ensures ok <==> LocalsValid(list, stories) && NoClash(before + list)
    ensures ok ==> Tracks(masks, stories, before + list)
  {
    masks := masks0;
    var tokens: set<Token> := {};
    assert before + list[..0] == before;
    for i := 0 to |list|
      invariant LocalsValid(list[..i], stories) && NoClash(before + list[..i])
      invariant Tracks(masks, stories, before + list[..i])
      invariant forall t :: t in tokens <==> exists j :: 0 <= j < i && list[j].token == t
    {
      var a := list[i];
      ghost var now := before + list[..i];
      assert now + [a] == before + list[..i + 1];
      ActorFails(list, stories, before, i);
      NoClashStep(now, a);
      if a.token == 0 || a.token in tokens || a.story !in masks {
        return false, masks;
      }
      tokens := tokens + {a.token};
      var free;
      free, masks := Occupy(masks, a, stories, now);
      if !free {
        return false, masks;
      }
    }
    assert list[..|list|] == list;
    ok := true;
  }

  /** When actor i breaks a rule, the whole list does. */
  lemma ActorFails(list: seq<Actor>, stories: seq<Story>, before: seq<Actor>, i: nat)
    requires i < |list| && LocalsValid(list[..i], stories)
    ensures LocalsValid(list[..i + 1], stories) <==>
              && list[i].token != 0 && KnownStory(stories, list[i].story)
              && !exists j :: 0 <= j < i && list[j].token == list[i].token
    ensures LocalsValid(list, stories) ==> LocalsValid(list[..i + 1], stories)
    ensures NoClash(before + list) ==> NoClash(before + list[..i + 1])
  {
    var some := list[..i + 1];
    assert forall j :: 0 <= j <= i ==> some[j] == list[j];
    assert forall j :: 0 <= j < i ==> list[..i][j] == list[j];
    var a, b := before + some, before + list;
    assert forall p :: 0 <= p < |a| ==> a[p] == b[p];
  }

  method ValidateClients(clients: seq<Client>, masks0: Masks, ghost stories: seq<Story>, ghost locals: seq<Actor>)
    returns (ok: bool, masks: Masks)
    requires Tracks(masks0, stories, locals) && NoClash(locals)
    ensures ok <==> ClientsValid(clients, stories) && NoClash(locals + RemoteOf(clients))
    ensures ok ==> Tracks(masks, stories, locals + RemoteOf(clients))
  {
    masks := masks0;
    var tokens: set<Token> := {};
    assert locals + RemoteOf([]) == locals;
    for i := 0 to |clients|
      invariant ClientsValid(clients[..i], stories) && NoClash(locals + RemoteOf(clients[..i]))
      invariant Tracks(masks, stories, locals + RemoteOf(clients[..i]))
      invariant forall t :: t in tokens <==> exists j :: 0 <= j < i && clients[j].token == t
    {
      hide LocalsValid, Tracks;
      ghost var before := locals + RemoteOf(clients[..i]);
      ClientFails(clients, stories, i);
      ClashFails(clients, locals, i);
      if clients[i].token == 0 || clients[i].token in tokens {
        return false, masks;
      }
      tokens := tokens + {clients[i].token};
      var complete := Complete(clients[i].actors);
      if !complete {
        return false, masks;
      }
      var fine;
      fine, masks := ValidateActors(ActorsOf(clients[i].actors), masks, stories, before);
      if !fine {
        return false, masks;
      }
    }
    assert clients[..|clients|] == clients;
    ok := true;
  }

  /** Every remote actor has a config and a channel. */
  method Complete(cas: seq<ClientActor>) returns (ok: bool)
    ensures ok <==> forall i :: 0 <= i < |cas| ==> cas[i].actor.config.Some? && cas[i].hasChannel
  {
    for i := 0 to |cas|
      invariant forall j :: 0 <= j < i ==> cas[j].actor.config.Some? && cas[j].hasChannel
    {
      if cas[i].actor.config == None || !cas[i].hasChannel {
        return false;
      }
    }
    ok := true;
  }

  lemma {:induction false} RemoteOfPrefix(clients: seq<Client>, i: nat)
    requires i < |clients|
    ensures RemoteOf(clients[..i + 1]) == RemoteOf(clients[..i]) + ActorsOf(clients[i].actors)
    ensures RemoteOf(clients[..i + 1]) <= RemoteOf(clients)
    decreases |clients|
  {
    hide ActorsOf;
    assert clients[..i + 1][..i] == clients[..i];
    if i == |clients| - 1 {
      assert clients[..i + 1] == clients;
    } else {
      var init := clients[..|clients| - 1];
      assert init[..i + 1] == clients[..i + 1] && init[..i] == clients[..i];
      RemoteOfPrefix(init, i);
    }
  }

  lemma NoClashPrefix(a: seq<Actor>, b: seq<Actor>)
    requires a <= b && NoClash(b)
    ensures NoClash(a)
  {
  }

  /** When client i breaks a rule, the whole list does. */
  lemma ClientFails(clients: seq<Client>, stories: seq<Story>, i: nat)
    requires i < |clients| && ClientsValid(clients[..i], stories)
    ensures ClientsValid(clients[..i + 1], stories) <==>
              clients[i].token != 0 && ActorsValid(clients[i].actors, stories) &&
              !exists j :: 0 <= j < i && clients[j].token == clients[i].token
    ensures ClientsValid(clients, stories) ==> ClientsValid(clients[..i + 1], stories)
  {
    hide ActorsValid;
    var some := clients[..i + 1];
    assert forall j :: 0 <= j <= i ==> some[j] == clients[j];
    assert forall j :: 0 <= j < i ==> clients[..i][j] == clients[j];
  }

  lemma ClashFails(clients: seq<Client>, locals: seq<Actor>, i: nat)
    requires i < |clients|
    ensures locals + RemoteOf(clients[..i + 1]) == locals + RemoteOf(clients[..i]) + ActorsOf(clients[i].actors)
    ensures NoClash(locals + RemoteOf(clients)) ==> NoClash(locals + RemoteOf(clients[..i + 1]))
  {
    hide NoClash, RemoteOf;
    RemoteOfPrefix(clients, i);
    if NoClash(locals + RemoteOf(clients)) {
      NoClashPrefix(locals + RemoteOf(clients[..i + 1]), locals + RemoteOf(clients));
    }
  }

  /** Every story has actors, and its mask has no gaps. */
  method ValidateMasks(masks: Masks) returns (ok: bool)
    ensures ok <==> forall y :: y in masks ==> masks[y] != {} && Dense(masks[y])
  {
    var todo := masks.Keys;
    while todo != {}
      invariant todo <= masks.Keys
      invariant forall y :: y in masks && y !in todo ==> masks[y] != {} && Dense(masks[y])
      decreases |todo|
    {
      var y :| y in todo;
      todo := todo - {y};
      DenseIsPrefix(masks[y]);
      if masks[y] == {} || masks[y] != Below(|masks[y]|) {
        return false;
      }
    }
    ok := true;
  }

  /** Accepts exactly the valid sessions. */
  method Validate(s: Session) returns (ok: bool)
    ensures ok <==> ValidSession(s)
  {
    hide StoriesValid, LocalsValid, ClientsValid, NoClash, Dense, Bits;
    if s.token == 0 || |s.clients| == 0 || |s.clients| > MAX_CLIENTS || |s.stories| == 0 || |s.stories| > MAX_STORIES {
      return false;
    }
    var fine, masks := ValidateStories(s.stories);
    if !fine {
      return false;
    }
    NoClashNone();
    assert [] + s.localActors == s.localActors;
    fine, masks := ValidateActors(s.localActors, masks, s.stories, []);
    LocalsFirst(s);
    if !fine {
      return false;
    }
    fine, masks := ValidateClients(s.clients, masks, s.stories, s.localActors);
    if !fine {
      return false;
    }
    ok := ValidateMasks(masks);
  }

  lemma NoClashNone()
    ensures NoClash([])
  {
  }

  lemma LocalsFirst(s: Session)
    ensures NoClash(AllActors(s)) ==> NoClash(s.localActors)
  {
    if NoClash(AllActors(s)) { NoClashPrefix(s.localActors, AllActors(s)); }
  }
}
