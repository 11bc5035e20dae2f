/**
 * Put of every message, as calls on a serializer (udpstar/message/story, udpstar/message/lobby). The calls are
 * those of the program, one for each field, with a loop for a list. Each method is proved to append exactly the
 * encoding of its message to the buffer that it was given.
 */
module MessageServices {
  import opened Wire
  import opened Messages
  import opened Serializers

  // ---- Put ----

  const PREFIX_WORD: nat := 0x3E2A753C  // <u*>, lowest byte first

  lemma PrefixBytes()
    ensures LE(4, PREFIX_WORD) == PREFIX
  {
    assert LE(1, 0x3E) == [0x3E] + LE(0, 0);
    assert LE(2, 0x3E2A) == [0x2A] + LE(1, 0x3E);
    assert LE(3, 0x3E2A75) == [0x75] + LE(2, 0x3E2A);
  }

  /** The prefix, the category, and the type or command where there is one. */
  method PutTag(s: Serializer, k: Kind)
    requires s.Valid() && s.shapes == [] && s.fields == [] && s.buf == s.base
    modifies s
    ensures s.Valid() && s.shapes == [] && s.fields == [] && s.buf == s.base == old(s.buf) + LayoutOf(k).magic
  {
    ghost var from := s.buf;
    PrefixBytes();
    TagLength(k);
    MagicIs(k);
    hide LE, PutFields, AllWritable, Tag, LayoutOf;
    var tag := Tag(k);
    s.Put32(PREFIX_WORD);
    s.Put8(tag[0]);
    if k != KSetup {
      s.Put8(tag[1]);
    }
    s.Mark();
    Pieces(from, PREFIX, tag);
  }

  lemma MagicIs(k: Kind)
    ensures LayoutOf(k).magic == PREFIX + Tag(k)
  {
  }

  lemma Pieces(from: Bytes, prefix: Bytes, tag: Bytes)
    requires 1 <= |tag| <= 2
    ensures from + (prefix + tag) ==
            if |tag| == 1 then from + prefix + [tag[0]] else from + prefix + [tag[0]] + [tag[1]]
  {
  }

  lemma TagLength(k: Kind)
    ensures |Tag(k)| == if k == KSetup then 1 else 2
  {
  }

  /** The parts of a message, one after the other, are what Put appends. */
  lemma Written(m: Message, from: Bytes, b1: Bytes, b2: Bytes, b3: Bytes, b4: Bytes)
    requires Puttable(m)
    requires var l := LayoutOf(KindOf(m)); var p := PartsOf(m);
      && PartsWritable(l, p)
      && b1 == from + l.magic && b2 == b1 + PutFields(l.head, p.head)
      && b3 == b2 + PutList(l.row, p.rows) && b4 == b3 + PutFields(l.tail, p.tail)
    ensures b4 == from + Encode(m)
  {
    hide PutFields, PutList, LayoutOf, Puttable, KindOf;
    var l, p := LayoutOf(KindOf(m)), PartsOf(m);
    Regroup(from, l.magic, PutFields(l.head, p.head), PutList(l.row, p.rows), PutFields(l.tail, p.tail));
    Regroup([], l.magic, PutFields(l.head, p.head), PutList(l.row, p.rows), PutFields(l.tail, p.tail));
    assert forall b: Bytes :: [] + b == b;
  }

  /** The header of a story message from a client. */
  method PutStoryClient(s: Serializer, client: nat, latency: nat)
    requires s.Valid()
    modifies s
    ensures s.Valid() && s.base == old(s.base)
    ensures s.shapes == old(s.shapes) + [WORD, WORD] && s.fields == old(s.fields) + [N(client), N(latency)]
  {
    hide PutFields, AllWritable;
    s.Put32(client);
    s.Put32(latency);
  }

  /** The header of a lobby message from a client. */
  method PutLobbyClient(s: Serializer, lobby: nat, client: nat, latency: nat)
    requires s.Valid()
    modifies s
    ensures s.Valid() && s.base == old(s.base)
    ensures s.shapes == old(s.shapes) + [WORD, WORD, WORD]
    ensures s.fields == old(s.fields) + [N(lobby), N(client), N(latency)]
  {
    hide PutFields, AllWritable;
    s.Put32(lobby);
    s.Put32(client);
    s.Put32(latency);
  }

  lemma NoTail(m: Message)
    requires Puttable(m) && !m.Setup?
    ensures var l := LayoutOf(KindOf(m)); var p := PartsOf(m);
      AllWritable(l.tail, p.tail) && PutFields(l.tail, p.tail) == []
  {
  }

  /** A message that ends with its list. */
  lemma ListOnly(m: Message, from: Bytes, b1: Bytes, b2: Bytes, b3: Bytes)
    requires Puttable(m) && !m.Setup?
    requires var l := LayoutOf(KindOf(m)); var p := PartsOf(m);
      && AllWritable(l.head, p.head) && (l.row.Some? ==> RowsWritable(l.row.value, p.rows))
      && b1 == from + l.magic && b2 == b1 + PutFields(l.head, p.head) && b3 == b2 + PutList(l.row, p.rows)
    ensures b3 == from + Encode(m)
  {
    assert b3 + [] == b3;
    NoTail(m);
    hide PutFields, PutRows, PutList, Encode, AllWritable, RowsWritable, LayoutOf, PartsOf, Puttable, KindOf;
    Written(m, from, b1, b2, b3, b3);
  }

  method PutTestClient(m: Message, buf: Bytes) returns (r: Bytes)
    requires m.TestClient? && Puttable(m)
    ensures r == buf + Encode(m)
  {
    hide PutFields, PutRows, AllWritable, RowsWritable, Encode;
    var s := new Serializer(buf);
    PutTag(s, KTestClient);
    ghost var b1 := s.buf;
    PutStoryClient(s, m.client, m.latency);
    s.PutBytes(m.payload);
    ghost var b2 := s.buf;
    assert s.shapes == Head(KTestClient) && s.fields == HeadFields(m);
    assert b2 + [] == b2;
    r := s.buf;
    ListOnly(m, buf, b1, b2, r);
  }

  method PutActionPack(m: Message, buf: Bytes) returns (r: Bytes)
    requires m.ActionPack? && Puttable(m)
    ensures r == buf + Encode(m)
  {
    hide PutFields, PutRows, AllWritable, RowsWritable, Encode;
    var s := new Serializer(buf);
    PutTag(s, KActionPack);
    ghost var b1 := s.buf;
    PutStoryClient(s, m.client, m.latency);
    s.Put32(m.actor);
    ghost var b2 := s.buf;
    assert s.shapes == Head(KActionPack) && s.fields == HeadFields(m);
    s.PutEntries(m.actions);
    r := s.buf;
    ListOnly(m, buf, b1, b2, r);
  }

  method PutStoryConfirm(m: Message, buf: Bytes) returns (r: Bytes)
    requires m.StoryConfirm? && Puttable(m)
    ensures r == buf + Encode(m)
  {
    hide PutFields, PutRows, AllWritable, RowsWritable, Encode;
    var s := new Serializer(buf);
    PutTag(s, KStoryConfirm);
    ghost var b1 := s.buf;
    PutStoryClient(s, m.client, m.latency);
    s.Put32(m.story);
    s.Put32(m.last);
    ghost var b2 := s.buf;
    assert s.shapes == Head(KStoryConfirm) && s.fields == HeadFields(m);
    s.PutRanges(m.missing);
    r := s.buf;
    ListOnly(m, buf, b1, b2, r);
  }

  method PutTestServer(m: Message, buf: Bytes) returns (r: Bytes)
    requires m.TestServer? && Puttable(m)
    ensures r == buf + Encode(m)
  {
    hide PutFields, PutRows, AllWritable, RowsWritable, Encode;
    var s := new Serializer(buf);
    PutTag(s, KTestServer);
    ghost var b1 := s.buf;
    s.Put32(m.session);
    s.PutBytes(m.payload);
    ghost var b2 := s.buf;
    assert s.shapes == Head(KTestServer) && s.fields == HeadFields(m);
    assert b2 + [] == b2;
    r := s.buf;
    ListOnly(m, buf, b1, b2, r);
  }

  method PutActionConfirm(m: Message, buf: Bytes) returns (r: Bytes)
    requires m.ActionConfirm? && Puttable(m)
    ensures r == buf + Encode(m)
  {
    hide PutFields, PutRows, AllWritable, RowsWritable, Encode;
    var s := new Serializer(buf);
    PutTag(s, KActionConfirm);
    ghost var b1 := s.buf;
    s.Put32(m.session);
    s.Put32(m.actor);
    s.Put32(m.last);
    ghost var b2 := s.buf;
    assert s.shapes == Head(KActionConfirm) && s.fields == HeadFields(m);
    s.PutRanges(m.missing);
    r := s.buf;
    ListOnly(m, buf, b1, b2, r);
  }

  method PutStoryPack(m: Message, buf: Bytes) returns (r: Bytes)
    requires m.StoryPack? && Puttable(m)
    ensures r == buf + Encode(m)
  {
    hide PutFields, PutRows, AllWritable, RowsWritable, Encode;
    var s := new Serializer(buf);
    PutTag(s, KStoryPack);
    ghost var b1 := s.buf;
    s.Put32(m.session);
    s.Put32(m.story);
    ghost var b2 := s.buf;
    assert s.shapes == Head(KStoryPack) && s.fields == HeadFields(m);
    s.PutEntries(m.stories);
    r := s.buf;
    ListOnly(m, buf, b1, b2, r);
  }

  method PutLatencyReport(m: Message, buf: Bytes) returns (r: Bytes)
    requires m.LatencyReport? && Puttable(m)
    ensures r == buf + Encode(m)
  {
    hide PutFields, PutRows, AllWritable, RowsWritable, Encode;
    var s := new Serializer(buf);
    PutTag(s, KLatencyReport);
    ghost var b1 := s.buf;
    s.Put32(m.session);
    ghost var b2 := s.buf;
    assert s.shapes == Head(KLatencyReport) && s.fields == HeadFields(m);
    s.PutCount(|m.latencies|, LATENCY_ROW);
    assert LatencyRows(m.latencies[..0]) == [];
    for i := 0 to |m.latencies|
      invariant s.Listed(b2, |m.latencies|, LATENCY_ROW, LatencyRows(m.latencies[..i]))
    {
      s.PutBytes(m.latencies[i].name);
      s.Put8(m.latencies[i].state);
      s.PutDuration(m.latencies[i].latency);
      s.CloseRow(b2, |m.latencies|, LATENCY_ROW, LatencyRows(m.latencies[..i]), LatencyFields(m.latencies[i]));
      assert LatencyRows(m.latencies[..i + 1]) == LatencyRows(m.latencies[..i]) + [LatencyFields(m.latencies[i])];
    }
    assert m.latencies[..|m.latencies|] == m.latencies;
    r := s.buf;
    ListOnly(m, buf, b1, b2, r);
  }

  method PutJoin(m: Message, buf: Bytes) returns (r: Bytes)
    requires m.Join? && Puttable(m)
    ensures r == buf + Encode(m)
  {
    hide PutFields, PutRows, AllWritable, RowsWritable, Encode;
    var s := new Serializer(buf);
    PutTag(s, KJoin);
    ghost var b1 := s.buf;
    PutLobbyClient(s, m.lobby, m.client, m.latency);
    s.Put32(m.actor);
    s.Put8(m.slot);
    s.PutBytes(m.name);
    s.PutBytes(m.config);
    ghost var b2 := s.buf;
    assert s.shapes == Head(KJoin) && s.fields == HeadFields(m);
    assert b2 + [] == b2;
    r := s.buf;
    ListOnly(m, buf, b1, b2, r);
  }

  method PutLeave(m: Message, buf: Bytes) returns (r: Bytes)
    requires m.Leave? && Puttable(m)
    ensures r == buf + Encode(m)
  {
    hide PutFields, PutRows, AllWritable, RowsWritable, Encode;
    var s := new Serializer(buf);
    PutTag(s, KLeave);
    ghost var b1 := s.buf;
    PutLobbyClient(s, m.lobby, m.client, m.latency);
    s.Put32(m.actor);
    ghost var b2 := s.buf;
    assert s.shapes == Head(KLeave) && s.fields == HeadFields(m);
    assert b2 + [] == b2;
    r := s.buf;
    ListOnly(m, buf, b1, b2, r);
  }

  method PutRequest(m: Message, buf: Bytes) returns (r: Bytes)
    requires m.Request? && Puttable(m)
    ensures r == buf + Encode(m)
  {
    hide PutFields, PutRows, AllWritable, RowsWritable, Encode;
    var s := new Serializer(buf);
    PutTag(s, KRequest);
    ghost var b1 := s.buf;
    PutLobbyClient(s, m.lobby, m.client, m.latency);
    ghost var b2 := s.buf;
    assert s.shapes == Head(KRequest) && s.fields == HeadFields(m);
    assert b2 + [] == b2;
    r := s.buf;
    ListOnly(m, buf, b1, b2, r);
  }

  method PutSetup(m: Message, buf: Bytes) returns (r: Bytes)
    requires m.Setup? && Puttable(m)
    ensures r == buf + Encode(m)
  {
    hide PutFields, PutRows, AllWritable, RowsWritable, Encode, SlotRows;
    var s := new Serializer(buf);
    PutTag(s, KSetup);
    ghost var b1 := s.buf;
    s.Put32(m.lobby);
    s.PutBytes(m.name);
    s.PutBytes(m.def);
    ghost var b2 := s.buf;
    assert s.shapes == Head(KSetup) && s.fields == HeadFields(m);
    PutSlots(s, m.slots);
    ghost var b3 := s.buf;
    s.Put8(m.state);
    r := s.buf;
    OneByte(m.state);
    SetupWritten(m, buf, b1, b2, b3, r);
  }

  /** The state is the only field after the slots. */
  lemma SetupWritten(m: Message, from: Bytes, b1: Bytes, b2: Bytes, b3: Bytes, b4: Bytes)
    requires m.Setup? && Puttable(m) && AllWritable(Head(KSetup), HeadFields(m))
    requires RowsWritable(SLOT_ROW, SlotRows(m.slots))
    requires b1 == from + LayoutOf(KSetup).magic && b2 == b1 + PutFields(Head(KSetup), HeadFields(m))
    requires b3 == b2 + LE(1, |m.slots|) + PutRows(SLOT_ROW, SlotRows(m.slots)) && b4 == b3 + LE(1, m.state)
    ensures b4 == from + Encode(m)
  {
    StateOnly(m);
    var l, p := LayoutOf(KSetup), PartsOf(m);
    assert l.head == Head(KSetup) && l.row.Some? && l.row.value == SLOT_ROW && p.rows == SlotRows(m.slots);
    assert KindOf(m) == KSetup && p.head == HeadFields(m) && p.tail == TailFields(m);
    hide PutFields, PutRows, AllWritable, RowsWritable, Encode, LE, Puttable;
    hide LayoutOf, PartsOf, KindOf, Head, HeadFields, TailFields, SlotRows;
    Join3(b2, LE(1, |m.slots|), PutRows(SLOT_ROW, SlotRows(m.slots)));
    Written(m, from, b1, b2, b3, b4);
  }

  lemma StateOnly(m: Message)
    requires m.Setup?
    ensures AllWritable(LayoutOf(KSetup).tail, TailFields(m))
    ensures PutFields(LayoutOf(KSetup).tail, TailFields(m)) == LE(1, m.state)
  {
    PutFieldsSnoc([], [], SMALL, N(m.state));
    assert [] + [SMALL] == LayoutOf(KSetup).tail && [] + [N(m.state)] == TailFields(m);
    assert PutFields([], []) + PutField(SMALL, N(m.state)) == LE(1, m.state);
  }

  /** The loop of PutSetup. */
  method PutSlots(s: Serializer, slots: seq<SetupSlot>)
    requires s.Valid() && forall i :: 0 <= i < |slots| ==> SlotPuttable(slots[i])
    modifies s
    ensures s.Listed(old(s.buf), |slots|, SLOT_ROW, SlotRows(slots))
  {
    hide PutFields, PutRows, AllWritable, RowsWritable;
    s.PutCount(|slots|, SLOT_ROW);
    assert SlotRows(slots[..0]) == [];
    for i := 0 to |slots|
      invariant s.Listed(old(s.buf), |slots|, SLOT_ROW, SlotRows(slots[..i]))
    {
      s.Put32(slots[i].story);
      s.Put32(slots[i].actor);
      s.Put8(slots[i].availability);
      s.PutBytes(slots[i].name);
      s.PutDuration(slots[i].latency);
      s.CloseRow(old(s.buf), |slots|, SLOT_ROW, SlotRows(slots[..i]), SlotFields(slots[i]));
      assert SlotRows(slots[..i + 1]) == SlotRows(slots[..i]) + [SlotFields(slots[i])];
    }
    assert slots[..|slots|] == slots;
  }
}
