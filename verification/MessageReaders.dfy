/**
 * Get of every message, as calls on a deserializer, and the choice of the message to get (parse.go). The calls
 * are those of the program, one for each field, with a loop for a list. Each method is proved to return just
 * what the layout says, errors included.
 */
module MessageReaders {
  import opened Streams
  import opened Ranges
  import opened Wire
  import opened Messages
  import opened MessageLaws
  import opened Serializers
  import opened MessageServices
  import opened MessageSizes

  // ---- Get ----

  lemma PrefixRead(b: Bytes)
    requires |b| >= 4
    ensures UnLE(b[..4]) == PREFIX_WORD <==> PREFIX <= b
  {
    PrefixBytes();
    Pow8();
    LEOfUnLE(b[..4]);
    UnLEOfLE(4, PREFIX_WORD);
    hide LE, UnLE, Pow256;
    assert b[..4] == PREFIX <==> PREFIX <= b;
  }

  method CheckPrefix(s: Deserializer) returns (ok: bool)
    requires s.err.None?
    modifies s`buf
    ensures ok == (PREFIX <= old(s.buf))
    ensures s.buf == if ok then old(s.buf)[4..] else old(s.buf)
  {
    if |s.buf| >= 4 { PrefixRead(s.buf); }
    ok := |s.buf| >= 4 && PREFIX_WORD == UnLE(s.buf[..4]);
    if !ok {
      return;
    }
    s.buf := s.buf[4..];
  }

  method CheckCategory(s: Deserializer, category: Byte) returns (ok: bool)
    requires s.err.None?
    modifies s`buf
    ensures ok == ([category] <= old(s.buf))
    ensures s.buf == if ok then old(s.buf)[1..] else old(s.buf)
  {
    ok := |s.buf| >= 1 && s.buf[0] == category;
    if !ok {
      return;
    }
    s.buf := s.buf[1..];
  }

  /** checkType and checkCommand. */
  method CheckType(s: Deserializer, t: Byte) returns (ok: bool)
    requires s.err.None?
    modifies s`buf, s`err
    ensures ok == ([t] <= old(s.buf))
    ensures ok ==> s.err.None? && s.buf == old(s.buf)[1..]
  {
    if |s.buf| > 0 { assert UnLE(s.buf[..1]) == s.buf[0] + 256 * UnLE([]); }
    var b := s.GetNum(1);
    ok := s.err.None? && b == t;
  }

  method CheckTag(s: Deserializer, k: Kind) returns (ok: bool)
    requires s.Marked() && s.err.None?
    modifies s
    ensures ok ==> s.Marked() && s.Value() == ReadMagic(old(s.Value()), LayoutOf(k).magic) && s.err.None?
    ensures !ok ==> ReadMagic(old(s.Value()), LayoutOf(k).magic) == Failed(InvalidMessage)
  {
    ghost var b := s.buf;
    TagLength(k);
    MagicSteps(k, b);
    hide Tag;
    var tag := Tag(k);
    ok := CheckPrefix(s);
    if ok {
      ok := CheckCategory(s, tag[0]);
    }
    if ok && k != KSetup {
      ok := CheckType(s, tag[1]);
    }
    s.Mark();
  }

  /** The constant bytes are there when each part of them is there after the one before. */
  lemma MagicSteps(k: Kind, b: Bytes)
    ensures var magic := LayoutOf(k).magic; var tag := Tag(k);
      && (magic <= b <==>
            && PREFIX <= b && [tag[0]] <= b[4..] && (k != KSetup ==> [tag[1]] <= b[4..][1..]))
      && (magic <= b ==> b[|magic|..] == if k == KSetup then b[4..][1..] else b[4..][1..][1..])
  {
    TagLength(k);
    var tag := Tag(k);
    var magic := LayoutOf(k).magic;
    assert magic == PREFIX + tag;
    hide Tag, LayoutOf;
    if magic <= b {
      assert b[..4] == PREFIX;
      assert b[4] == magic[4];
      if k != KSetup { assert b[5] == magic[5]; }
    }
  }

  lemma NoTag(k: Kind, buf: Bytes)
    requires ReadMagic(Reading(buf), LayoutOf(k).magic) == Failed(InvalidMessage)
    ensures Decode(k, buf) == Err(InvalidMessage)
  {
    var l := LayoutOf(k);
    FailedFields(Failed(InvalidMessage), l.head);
    FailedList(Failed(InvalidMessage), l.row);
    FailedFields(Failed(InvalidMessage), l.tail);
    hide ReadFields, ReadList, LayoutOf, ReadMagic;
  }

  /** HeaderClient.Get of the story messages: both words or neither. */
  method GetStoryClient(s: Deserializer) returns (client: nat, latency: nat)
    requires s.Valid()
    modifies s
    ensures s.Valid() && s.start == old(s.start) && s.shapes == old(s.shapes) + [WORD, WORD]
    ensures s.err.None? ==> s.fields == old(s.fields) + [N(client), N(latency)]
  {
    hide ReadFields, UnLE;
    ghost var d := s.Value();
    ghost var (d1, n1) := ReadNum(d, 4);
    ghost var (d2, n2) := ReadNum(d1, 4);
    client, latency := 0, 0;
    if s.err.None? {
      if |s.buf| < 8 {
        s.err := Some(UnexpectedEof);
      } else {
        assert s.buf[4..][..4] == s.buf[4..8] && s.buf[4..][4..] == s.buf[8..];
        client, latency := UnLE(s.buf[..4]), UnLE(s.buf[4..8]);
        s.buf := s.buf[8..];
      }
    }
    s.Log2(d1, N(n1), N(n2));
  }

  /** HeaderClient.Get of the lobby messages: all three words or none. */
  method GetLobbyClient(s: Deserializer) returns (lobby: nat, client: nat, latency: nat)
    requires s.Valid()
    modifies s
    ensures s.Valid() && s.start == old(s.start) && s.shapes == old(s.shapes) + [WORD, WORD, WORD]
    ensures s.err.None? ==> s.fields == old(s.fields) + [N(lobby), N(client), N(latency)]
  {
    hide ReadFields, UnLE;
    ghost var d := s.Value();
    ghost var (d1, n1) := ReadNum(d, 4);
    ghost var (d2, n2) := ReadNum(d1, 4);
    ghost var (d3, n3) := ReadNum(d2, 4);
    lobby, client, latency := 0, 0, 0;
    if s.err.None? {
      if |s.buf| < 12 {
        s.err := Some(UnexpectedEof);
      } else {
        assert s.buf[4..][..4] == s.buf[4..8] && s.buf[4..][4..] == s.buf[8..];
        assert s.buf[8..][..4] == s.buf[8..12] && s.buf[8..][4..] == s.buf[12..];
        lobby, client, latency := UnLE(s.buf[..4]), UnLE(s.buf[4..8]), UnLE(s.buf[8..12]);
        s.buf := s.buf[12..];
      }
    }
    s.Log3(d1, d2, N(n1), N(n2), N(n3));
  }

  lemma AfterList(k: Kind, buf: Bytes, m: Message, d1: Reader, d2: Reader, head: seq<Field>, d3: Reader)
    requires d1 == ReadMagic(Reading(buf), LayoutOf(k).magic) && ReadFields(d1, Head(k)) == (d2, head)
    requires k != KSetup && d3 == ReadList(d2, Row(k)).0
    requires d3.Reading? ==>
               && Puttable(m) && KindOf(m) == k && HeadFields(m) == head && RowsOf(m) == ReadList(d2, Row(k)).1
    ensures Decode(k, buf) == if d3.Failed? then Err(d3.error) else Ok(m, d3.buf)
  {
    hide ReadFields, ReadList, ReadMagic;
    assert ReadFields(d3, []) == (d3, []) by { NoFields(d3); }
    Finished(k, buf, m, ReadParts(buf, LayoutOf(k)).1);
  }

  lemma NoFields(d: Reader)
    ensures ReadFields(d, []) == (d, [])
  {
  }

  /** A message with the fields that were read is the message that Decode gives. */
  lemma Finished(k: Kind, buf: Bytes, m: Message, p: Parts)
    requires ReadParts(buf, LayoutOf(k)).0.Reading? ==> p == ReadParts(buf, LayoutOf(k)).1
    requires ReadParts(buf, LayoutOf(k)).0.Reading? ==> Puttable(m) && KindOf(m) == k && PartsOf(m) == p
    ensures var d := ReadParts(buf, LayoutOf(k)).0;
      Decode(k, buf) == if d.Failed? then Err(d.error) else Ok(m, d.buf)
  {
    var d := ReadParts(buf, LayoutOf(k)).0;
    hide ReadParts, LayoutOf;
    if d.Reading? {
      PartsConsume(buf, LayoutOf(k));
      FieldsBackOf(k, p);
      SameFieldsSameMessage(m, MessageOf(k, p));
    }
  }

  lemma SameEntries(a: seq<Entry>, b: seq<Entry>)
    requires forall i :: 0 <= i < |a| ==> EntryPuttable(a[i])
    requires forall i :: 0 <= i < |b| ==> EntryPuttable(b[i])
    requires EntryRows(a) == EntryRows(b)
    ensures a == b
  {
    assert |a| == |EntryRows(a)| && |b| == |EntryRows(b)|;
    forall i | 0 <= i < |a| ensures a[i] == b[i] {
      assert EntryFields(a[i]) == EntryRows(a)[i] == EntryRows(b)[i] == EntryFields(b[i]);
      assert EntryFields(a[i])[1] == EntryFields(b[i])[1];
    }
  }

  lemma SameRanges(a: seq<Range>, b: seq<Range>)
    requires forall i :: 0 <= i < |a| ==> a[i].Valid()
    requires forall i :: 0 <= i < |b| ==> b[i].Valid()
    requires RangeRows(a) == RangeRows(b)
    ensures a == b
  {
    assert |a| == |RangeRows(a)| && |b| == |RangeRows(b)|;
    forall i | 0 <= i < |a| ensures a[i] == b[i] {
      assert RangeFields(a[i]) == RangeRows(a)[i] == RangeRows(b)[i] == RangeFields(b[i]);
    }
  }

  lemma SameLatencies(a: seq<ActorLatency>, b: seq<ActorLatency>)
    requires forall i :: 0 <= i < |a| ==> LatencyPuttable(a[i])
    requires forall i :: 0 <= i < |b| ==> LatencyPuttable(b[i])
    requires LatencyRows(a) == LatencyRows(b)
    ensures a == b
  {
    assert |a| == |LatencyRows(a)| && |b| == |LatencyRows(b)|;
    forall i | 0 <= i < |a| ensures a[i] == b[i] {
      assert LatencyFields(a[i]) == LatencyRows(a)[i] == LatencyRows(b)[i] == LatencyFields(b[i]);
      assert LatencyFields(a[i])[2] == LatencyFields(b[i])[2];
    }
  }

  lemma SameSlots(a: seq<SetupSlot>, b: seq<SetupSlot>)
    requires forall i :: 0 <= i < |a| ==> SlotPuttable(a[i])
    requires forall i :: 0 <= i < |b| ==> SlotPuttable(b[i])
    requires SlotRows(a) == SlotRows(b)
    ensures a == b
  {
    assert |a| == |SlotRows(a)| && |b| == |SlotRows(b)|;
    forall i | 0 <= i < |a| ensures a[i] == b[i] {
      assert SlotFields(a[i]) == SlotRows(a)[i] == SlotRows(b)[i] == SlotFields(b[i]);
      assert SlotFields(a[i])[4] == SlotFields(b[i])[4];
    }
  }

  /** The fields determine the message. */
  lemma SameFieldsSameMessage(m: Message, n: Message)
    requires Puttable(m) && Puttable(n) && KindOf(m) == KindOf(n) && PartsOf(m) == PartsOf(n)
    ensures m == n
  {
    hide EntryRows, RangeRows, LatencyRows, SlotRows;
    assert HeadFields(m) == HeadFields(n) && RowsOf(m) == RowsOf(n) && TailFields(m) == TailFields(n);
    match m
    case ActionPack(_, _, _, es) => SameEntries(es, n.actions);
    case StoryPack(_, _, es) => SameEntries(es, n.stories);
    case StoryConfirm(_, _, _, _, rs) => SameRanges(rs, n.missing);
    case ActionConfirm(_, _, _, rs) => SameRanges(rs, n.missing);
    case LatencyReport(_, ls) => SameLatencies(ls, n.latencies);
    case Setup(_, _, _, ss, _) => SameSlots(ss, n.slots);
    case _ =>
  }

  /** A reader that has not failed after a list had not failed before it. */
  lemma StillReading(d: Reader, row: Option<seq<Shape>>)
    ensures ReadList(d, row).0.Reading? ==> d.Reading?
  {
    if d.Failed? { FailedList(d, row); }
  }

  method GetTestClient(buf: Bytes) returns (r: Decoded)
    ensures r == Decode(KTestClient, buf)
  {
    hide ReadFields, ReadRows, ReadNum, ReadMagic, Decode, EntryRows, RangeRows, LatencyRows;
    var s := new Deserializer(buf);
    var ok := CheckTag(s, KTestClient);
    if !ok {
      NoTag(KTestClient, buf);
      return Err(InvalidMessage);
    }
    ghost var d1 := s.Value();
    var client, latency := GetStoryClient(s);
    var payload := s.GetBytes();
    ghost var d2, head := s.Value(), s.fields;
    assert s.shapes == Head(KTestClient);
    var m := TestClient(client, latency, payload);
    assert s.err.None? && d2.Reading? ==> HeadFields(m) == head;
    AfterList(KTestClient, buf, m, d1, d2, head, s.Value());
    r := if s.err.Some? then Err(s.err.value) else Ok(m, s.buf);
  }

  method GetActionPack(buf: Bytes) returns (r: Decoded)
    ensures r == Decode(KActionPack, buf)
  {
    hide ReadFields, ReadRows, ReadNum, ReadMagic, Decode, EntryRows, RangeRows, LatencyRows;
    var s := new Deserializer(buf);
    var ok := CheckTag(s, KActionPack);
    if !ok {
      NoTag(KActionPack, buf);
      return Err(InvalidMessage);
    }
    ghost var d1 := s.Value();
    var client, latency := GetStoryClient(s);
    var actor := s.Get32();
    ghost var d2, head := s.Value(), s.fields;
    assert s.shapes == Head(KActionPack);
    var actions := s.GetEntries();
    var m := ActionPack(client, latency, actor, actions);
    assert s.err.None? && d2.Reading? ==> HeadFields(m) == head;
    StillReading(d2, Row(KActionPack));
    AfterList(KActionPack, buf, m, d1, d2, head, s.Value());
    r := if s.err.Some? then Err(s.err.value) else Ok(m, s.buf);
  }

  method GetStoryConfirm(buf: Bytes) returns (r: Decoded)
    ensures r == Decode(KStoryConfirm, buf)
  {
    hide ReadFields, ReadRows, ReadNum, ReadMagic, Decode, EntryRows, RangeRows, LatencyRows;
    var s := new Deserializer(buf);
    var ok := CheckTag(s, KStoryConfirm);
    if !ok {
      NoTag(KStoryConfirm, buf);
      return Err(InvalidMessage);
    }
    ghost var d1 := s.Value();
    var client, latency := GetStoryClient(s);
    var story := s.Get32();
    var last := s.Get32();
    ghost var d2, head := s.Value(), s.fields;
    assert s.shapes == Head(KStoryConfirm);
    var missing := s.GetRanges();
    var m := StoryConfirm(client, latency, story, last, missing);
    assert s.err.None? && d2.Reading? ==> HeadFields(m) == head;
    StillReading(d2, Row(KStoryConfirm));
    AfterList(KStoryConfirm, buf, m, d1, d2, head, s.Value());
    r := if s.err.Some? then Err(s.err.value) else Ok(m, s.buf);
  }

  method GetTestServer(buf: Bytes) returns (r: Decoded)
    ensures r == Decode(KTestServer, buf)
  {
    hide ReadFields, ReadRows, ReadNum, ReadMagic, Decode, EntryRows, RangeRows, LatencyRows;
    var s := new Deserializer(buf);
    var ok := CheckTag(s, KTestServer);
    if !ok {
      NoTag(KTestServer, buf);
      return Err(InvalidMessage);
    }
    ghost var d1 := s.Value();
    var session := s.Get32();
    var payload := s.GetBytes();
    ghost var d2, head := s.Value(), s.fields;
    assert s.shapes == Head(KTestServer);
    var m := TestServer(session, payload);
    assert s.err.None? && d2.Reading? ==> HeadFields(m) == head;
    AfterList(KTestServer, buf, m, d1, d2, head, s.Value());
    r := if s.err.Some? then Err(s.err.value) else Ok(m, s.buf);
  }

  method GetActionConfirm(buf: Bytes) returns (r: Decoded)
    ensures r == Decode(KActionConfirm, buf)
  {
    hide ReadFields, ReadRows, ReadNum, ReadMagic, Decode, EntryRows, RangeRows, LatencyRows;
    var s := new Deserializer(buf);
    var ok := CheckTag(s, KActionConfirm);
    if !ok {
      NoTag(KActionConfirm, buf);
      return Err(InvalidMessage);
    }
    ghost var d1 := s.Value();
    var session := s.Get32();
    var actor := s.Get32();
    var last := s.Get32();
    ghost var d2, head := s.Value(), s.fields;
    assert s.shapes == Head(KActionConfirm);
    var missing := s.GetRanges();
    var m := ActionConfirm(session, actor, last, missing);
    assert s.err.None? && d2.Reading? ==> HeadFields(m) == head;
    StillReading(d2, Row(KActionConfirm));
    AfterList(KActionConfirm, buf, m, d1, d2, head, s.Value());
    r := if s.err.Some? then Err(s.err.value) else Ok(m, s.buf);
  }

  method GetStoryPack(buf: Bytes) returns (r: Decoded)
    ensures r == Decode(KStoryPack, buf)
  {
    hide ReadFields, ReadRows, ReadNum, ReadMagic, Decode, EntryRows, RangeRows, LatencyRows;
    var s := new Deserializer(buf);
    var ok := CheckTag(s, KStoryPack);
    if !ok {
      NoTag(KStoryPack, buf);
      return Err(InvalidMessage);
    }
    ghost var d1 := s.Value();
    var session := s.Get32();
    var story := s.Get32();
    ghost var d2, head := s.Value(), s.fields;
    assert s.shapes == Head(KStoryPack);
    var stories := s.GetEntries();
    var m := StoryPack(session, story, stories);
    assert s.err.None? && d2.Reading? ==> HeadFields(m) == head;
    StillReading(d2, Row(KStoryPack));
    AfterList(KStoryPack, buf, m, d1, d2, head, s.Value());
    r := if s.err.Some? then Err(s.err.value) else Ok(m, s.buf);
  }

  method GetJoin(buf: Bytes) returns (r: Decoded)
    ensures r == Decode(KJoin, buf)
  {
    hide ReadFields, ReadRows, ReadNum, ReadMagic, Decode, EntryRows, RangeRows, LatencyRows;
    var s := new Deserializer(buf);
    var ok := CheckTag(s, KJoin);
    if !ok {
      NoTag(KJoin, buf);
      return Err(InvalidMessage);
    }
    ghost var d1 := s.Value();
    var lobby, client, latency := GetLobbyClient(s);
    var actor := s.Get32();
    var slot := s.Get8();
    var name := s.GetBytes();
    var config := s.GetBytes();
    ghost var d2, head := s.Value(), s.fields;
    assert s.shapes == Head(KJoin);
    var m := Join(lobby, client, latency, actor, slot, name, config);
    assert s.err.None? && d2.Reading? ==> HeadFields(m) == head;
    AfterList(KJoin, buf, m, d1, d2, head, s.Value());
    r := if s.err.Some? then Err(s.err.value) else Ok(m, s.buf);
  }

  method GetLeave(buf: Bytes) returns (r: Decoded)
    ensures r == Decode(KLeave, buf)
  {
    hide ReadFields, ReadRows, ReadNum, ReadMagic, Decode, EntryRows, RangeRows, LatencyRows;
    var s := new Deserializer(buf);
    var ok := CheckTag(s, KLeave);
    if !ok {
      NoTag(KLeave, buf);
      return Err(InvalidMessage);
    }
    ghost var d1 := s.Value();
    var lobby, client, latency := GetLobbyClient(s);
    var actor := s.Get32();
    ghost var d2, head := s.Value(), s.fields;
    assert s.shapes == Head(KLeave);
    var m := Leave(lobby, client, latency, actor);
    assert s.err.None? && d2.Reading? ==> HeadFields(m) == head;
    AfterList(KLeave, buf, m, d1, d2, head, s.Value());
    r := if s.err.Some? then Err(s.err.value) else Ok(m, s.buf);
  }

  method GetRequest(buf: Bytes) returns (r: Decoded)
    ensures r == Decode(KRequest, buf)
  {
    hide ReadFields, ReadRows, ReadNum, ReadMagic, Decode, EntryRows, RangeRows, LatencyRows;
    var s := new Deserializer(buf);
    var ok := CheckTag(s, KRequest);
    if !ok {
      NoTag(KRequest, buf);
      return Err(InvalidMessage);
    }
    ghost var d1 := s.Value();
    var lobby, client, latency := GetLobbyClient(s);
    ghost var d2, head := s.Value(), s.fields;
    assert s.shapes == Head(KRequest);
    var m := Request(lobby, client, latency);
    assert s.err.None? && d2.Reading? ==> HeadFields(m) == head;
    AfterList(KRequest, buf, m, d1, d2, head, s.Value());
    r := if s.err.Some? then Err(s.err.value) else Ok(m, s.buf);
  }

  method GetLatencyReport(buf: Bytes) returns (r: Decoded)
    ensures r == Decode(KLatencyReport, buf)
  {
    hide ReadFields, ReadRows, ReadNum, ReadMagic, Decode, EntryRows, RangeRows, LatencyRows;
    var s := new Deserializer(buf);
    var ok := CheckTag(s, KLatencyReport);
    if !ok {
      NoTag(KLatencyReport, buf);
      return Err(InvalidMessage);
    }
    ghost var d1 := s.Value();
    var session := s.Get32();
    ghost var d2, head := s.Value(), s.fields;
    assert s.shapes == Head(KLatencyReport);
    var latencies := GetLatencies(s);
    var m := LatencyReport(session, latencies);
    assert s.err.None? && d2.Reading? ==> HeadFields(m) == head;
    StillReading(d2, Row(KLatencyReport));
    AfterList(KLatencyReport, buf, m, d1, d2, head, s.Value());
    r := if s.err.Some? then Err(s.err.value) else Ok(m, s.buf);
  }

  /** The loop of GetLatencyReport, which goes on after a failure without reading anything. */
  method GetLatencies(s: Deserializer) returns (v: seq<ActorLatency>)
    requires s.Valid()
    modifies s
    ensures ReadList(old(s.Value()), Some(LATENCY_ROW)).0 == s.Value() && s.Marked()
    ensures forall i :: 0 <= i < |v| ==> LatencyPuttable(v[i])
    ensures s.err.None? ==> |v| <= 255 && LatencyRows(v) == ReadList(old(s.Value()), Some(LATENCY_ROW)).1
  {
    hide ReadFields, ReadRows, ReadNum;
    var l, d := s.GetCount(LATENCY_ROW);
    v := [];
    assert LatencyRows(v) == [];
    for i := 0 to l
      invariant |v| == i && forall j :: 0 <= j < |v| ==> LatencyPuttable(v[j])
      invariant s.Listed(d, LATENCY_ROW, i, LatencyRows(v))
    {
      var name := s.GetBytes();
      var state := s.Get8();
      var latency := s.GetDuration();
      var a := ActorLatency(name, state, latency);
      ghost var rows := LatencyRows(v);
      assert s.fields == LatencyFields(a) && s.shapes == LATENCY_ROW;
      s.CloseRow(d, LATENCY_ROW, i, rows);
      v := v + [a];
      assert LatencyRows(v) == rows + [LatencyFields(a)];
    }
  }

  /** The loop of GetSetup. */
  method GetSlots(s: Deserializer) returns (v: seq<SetupSlot>)
    requires s.Valid()
    modifies s
    ensures ReadList(old(s.Value()), Some(SLOT_ROW)).0 == s.Value() && s.Marked()
    ensures forall i :: 0 <= i < |v| ==> SlotPuttable(v[i])
    ensures s.err.None? ==> |v| <= 255 && SlotRows(v) == ReadList(old(s.Value()), Some(SLOT_ROW)).1
  {
    hide ReadFields, ReadRows, ReadNum;
    var l, d := s.GetCount(SLOT_ROW);
    v := [];
    assert SlotRows(v) == [];
    for i := 0 to l
      invariant |v| == i && forall j :: 0 <= j < |v| ==> SlotPuttable(v[j])
      invariant s.Listed(d, SLOT_ROW, i, SlotRows(v))
    {
      var story := s.Get32();
      var actor := s.Get32();
      var availability := s.Get8();
      var name := s.GetBytes();
      var latency := s.GetDuration();
      var a := SetupSlot(story, actor, availability, name, latency);
      ghost var rows := SlotRows(v);
      assert s.fields == SlotFields(a) && s.shapes == SLOT_ROW;
      s.CloseRow(d, SLOT_ROW, i, rows);
      v := v + [a];
      assert SlotRows(v) == rows + [SlotFields(a)];
    }
  }

  method GetSetup(buf: Bytes) returns (r: Decoded)
    ensures r == Decode(KSetup, buf)
  {
    hide ReadFields, ReadRows, ReadNum, ReadMagic, Decode, SlotRows;
    var s := new Deserializer(buf);
    var ok := CheckTag(s, KSetup);
    if !ok {
      NoTag(KSetup, buf);
      return Err(InvalidMessage);
    }
    ghost var d1 := s.Value();
    var lobby := s.Get32();
    var name := s.GetBytes();
    var def := s.GetBytes();
    ghost var d2, head := s.Value(), s.fields;
    assert s.shapes == Head(KSetup);
    var slots := GetSlots(s);
    ghost var d3 := s.Value();
    var state := s.Get8();
    assert s.shapes == LayoutOf(KSetup).tail;
    var m := Setup(lobby, name, def, slots, state);
    assert HeadFields(m) == head && TailFields(m) == s.fields;
    AfterTail(buf, m, d1, d2, d3, s.Value());
    r := if s.err.Some? then Err(s.err.value) else Ok(m, s.buf);
  }

  lemma AfterTail(buf: Bytes, m: Message, d1: Reader, d2: Reader, d3: Reader, d4: Reader)
    requires d1 == ReadMagic(Reading(buf), LayoutOf(KSetup).magic) && m.Setup?
    requires ReadFields(d1, Head(KSetup)) == (d2, HeadFields(m))
    requires d3 == ReadList(d2, Some(SLOT_ROW)).0 && ReadFields(d3, LayoutOf(KSetup).tail) == (d4, TailFields(m))
    requires d3.Reading? ==> Puttable(m) && RowsOf(m) == ReadList(d2, Some(SLOT_ROW)).1
    ensures Decode(KSetup, buf) == if d4.Failed? then Err(d4.error) else Ok(m, d4.buf)
  {
    if d3.Failed? { FailedFields(d3, LayoutOf(KSetup).tail); }
    hide ReadFields, ReadList, ReadMagic;
    Finished(KSetup, buf, m, ReadParts(buf, LayoutOf(KSetup)).1);
  }

  // ---- the choice of the message to get ----

  /** Who sends a message about what. */
  datatype Channel = StoryClient | StoryServer | LobbyClient | LobbyServer

  function ChannelOf(k: Kind): Channel {
    match k
    case KTestClient => StoryClient
    case KActionPack => StoryClient
    case KStoryConfirm => StoryClient
    case KJoin => LobbyClient
    case KLeave => LobbyClient
    case KRequest => LobbyClient
    case KSetup => LobbyServer
    case _ => StoryServer
  }

  /** The kind of message for a type or command byte. */
  function KindFor(c: Channel, t: Byte): Option<Kind> {
    match c
    case StoryClient =>
      if t == TYPE_TEST then Some(KTestClient) else if t == TYPE_ACTION then Some(KActionPack)
      else if t == TYPE_STORY then Some(KStoryConfirm) else None
    case StoryServer =>
      if t == TYPE_TEST then Some(KTestServer) else if t == TYPE_ACTION then Some(KActionConfirm)
      else if t == TYPE_STORY then Some(KStoryPack) else if t == TYPE_LATENCY_REPORT then Some(KLatencyReport) else None
    case LobbyClient =>
      if t == COMMAND_JOIN then Some(KJoin) else if t == COMMAND_LEAVE then Some(KLeave)
      else if t == COMMAND_REQUEST then Some(KRequest) else None
    case LobbyServer => Some(KSetup)
  }

  function LeastSize(c: Channel): nat {
    match c
    case StoryClient => STORY_CLIENT_BASE
    case StoryServer => SIZE_SERVER_BASE
    case LobbyClient => LOBBY_CLIENT_BASE
    case LobbyServer => 0
  }

  /** ParseClient and ParseServer of both packages; what is left of the buffer is ignored. */
  function Parse(c: Channel, buf: Bytes): Option<Message> {
    if |buf| < LeastSize(c) then None
    else
      match KindFor(c, if c == LobbyServer then 0 else buf[5])
      case None => None
      case Some(k) =>
        match Decode(k, buf)
        case Ok(m, _) => Some(m)
        case Err(_) => None
  }

  lemma MagicFirst(m: Message)
    requires Puttable(m)
    ensures LayoutOf(KindOf(m)).magic <= Encode(m)
  {
    hide PutFields, PutList, LayoutOf;
  }

  lemma SizeAtLeast(m: Message)
    requires Puttable(m)
    ensures |Encode(m)| >= LeastSize(ChannelOf(KindOf(m)))
  {
    SizeIsLength(m);
    hide Encode;
  }

  lemma TypeByte(m: Message, t: Bytes)
    requires Puttable(m) && !m.Setup?
    ensures |Encode(m) + t| >= LeastSize(ChannelOf(KindOf(m))) >= 6
    ensures (Encode(m) + t)[5] == Tag(KindOf(m))[1]
  {
    var k := KindOf(m);
    assert k != KSetup && LeastSize(ChannelOf(k)) >= 6;
    TagLength(k);
    MagicFirst(m);
    SizeAtLeast(m);
    assert LayoutOf(k).magic == PREFIX + Tag(k);
    hide Encode, Tag, LayoutOf, KindOf, ChannelOf, LeastSize;
    assert LayoutOf(k).magic[5] == Tag(k)[1];
    assert (Encode(m) + t)[5] == Encode(m)[5];
  }

  lemma KindForType(k: Kind)
    ensures |Tag(k)| == if k == KSetup then 1 else 2
    ensures k == KSetup <==> ChannelOf(k) == LobbyServer
    ensures KindFor(ChannelOf(k), if k == KSetup then 0 else Tag(k)[1]) == Some(k)
  {
  }

  lemma KindForChannel(c: Channel, t: Byte)
    ensures KindFor(c, t).Some? ==> ChannelOf(KindFor(c, t).value) == c
  {
  }

  /** The receiver picks the sender's message out of everything that may come its way. */
  lemma ParseRoundTrip(m: Message, t: Bytes)
    requires Encodable(m) && ShortStrings(m)
    ensures Parse(ChannelOf(KindOf(m)), Encode(m) + t) == Some(m)
  {
    EncodableIsPuttable(m);
    KindForType(KindOf(m));
    SizeAtLeast(m);
    assert m.Setup? <==> KindOf(m) == KSetup;
    hide Encode, Decode, Encodable, ShortStrings, Puttable, KindFor, Tag, ChannelOf, KindOf, LeastSize;
    RoundTrip(m, t);
    if !m.Setup? { TypeByte(m, t); }
  }

  /** Whatever is parsed was sent that way by somebody: it is the beginning of what came. */
  lemma ParseSound(c: Channel, b: Bytes)
    requires Parse(c, b).Some?
    ensures var m := Parse(c, b).value;
      && ChannelOf(KindOf(m)) == c && Encodable(m) && Puttable(m)
      && (ShortStrings(m) ==> Encode(m) <= b)
  {
    var t := if c == LobbyServer || |b| < 6 then 0 else b[5];
    KindForChannel(c, t);
    var k := KindFor(c, t).value;
    hide Decode, Encode, Encodable, ShortStrings, KindFor, KindOf, ChannelOf, Puttable;
    DecodedIsEncodable(k, b);
    var r := Decode(k, b);
    EncodableIsPuttable(r.message);
    if ShortStrings(r.message) {
      OnlyWhatWasPut(r.message, b, r.rest);
    }
  }
}
