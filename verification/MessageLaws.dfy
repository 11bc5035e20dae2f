/** Round trips, sizes and truncated messages. */
module MessageLaws {
  import opened Streams
  import opened Ranges
  import opened Wire
  import opened Messages
  import opened MessageSizes

  // ---- messages and their fields ----

  lemma HeadFits(m: Message)
    requires Encodable(m)
    ensures AllFit(Head(KindOf(m)), HeadFields(m))
  {
    Pow8();
    hide Pow256;
  }

  lemma HeadShort(m: Message)
    ensures AllShort(HeadFields(m)) <==>
              match m
              case TestClient(_, _, p) => |p| <= 254
              case TestServer(_, p) => |p| <= 254
              case Join(_, _, _, _, _, n, f) => |n| <= 254 && |f| <= 254
              case Setup(_, n, d, _, _) => |n| <= 254 && |d| <= 254
              case _ => true
  {
    var h := HeadFields(m);
    match m
    case TestClient(_, _, p) => assert h[2] == B(p);
    case TestServer(_, p) => assert h[1] == B(p);
    case Join(_, _, _, _, _, n, f) => assert h[5] == B(n) && h[6] == B(f);
    case Setup(_, n, d, _, _) => assert h[1] == B(n) && h[2] == B(d);
    case _ =>
  }

  lemma RowsFitOf(m: Message)
    requires Encodable(m)
    ensures Row(KindOf(m)).Some? ==> RowsFit(Row(KindOf(m)).value, RowsOf(m))
  {
    hide RowsFit, RowsShort, EntryRows, RangeRows, LatencyRows, SlotRows, EntriesOf, RangesOf, LatenciesOf, SlotsOf;
    match m
    case ActionPack(_, _, _, es) => EntryRowsOk(es);
    case StoryPack(_, _, es) => EntryRowsOk(es);
    case StoryConfirm(_, _, _, _, rs) => RangeRowsOk(rs);
    case ActionConfirm(_, _, _, rs) => RangeRowsOk(rs);
    case LatencyReport(_, ls) => LatencyRowsOk(ls);
    case Setup(_, _, _, ss, _) => SlotRowsOk(ss);
    case _ =>
  }

  lemma RowsShortOf(m: Message)
    requires Encodable(m)
    ensures RowsShort(RowsOf(m)) <==>
              match m
              case ActionPack(_, _, _, es) => forall i :: 0 <= i < |es| ==> |es[i].payload| <= 254
              case StoryPack(_, _, es) => forall i :: 0 <= i < |es| ==> |es[i].payload| <= 254
              case LatencyReport(_, ls) => forall i :: 0 <= i < |ls| ==> |ls[i].name| <= 254
              case Setup(_, _, _, ss, _) => forall i :: 0 <= i < |ss| ==> |ss[i].name| <= 254
              case _ => true
  {
    NoRowsShort();
    hide RowsFit, RowsShort, EntryRows, RangeRows, LatencyRows, SlotRows, EntriesOf, RangesOf, LatenciesOf, SlotsOf;
    match m
    case ActionPack(_, _, _, es) => EntryRowsOk(es);
    case StoryPack(_, _, es) => EntryRowsOk(es);
    case StoryConfirm(_, _, _, _, rs) => RangeRowsOk(rs);
    case ActionConfirm(_, _, _, rs) => RangeRowsOk(rs);
    case LatencyReport(_, ls) => LatencyRowsOk(ls);
    case Setup(_, _, _, ss, _) => SlotRowsOk(ss);
    case _ =>
  }

  lemma RowCount(m: Message)
    requires Encodable(m)
    ensures |RowsOf(m)| <= 255 && (Row(KindOf(m)).None? ==> RowsOf(m) == [])
  {
  }

  lemma NoRowsShort()
    ensures RowsShort([])
  {
  }

  lemma TailOk(m: Message)
    ensures AllFit(LayoutOf(KindOf(m)).tail, TailFields(m)) && AllShort(TailFields(m))
  {
    Pow8();
  }

  lemma PartsFitOf(m: Message)
    requires Encodable(m)
    ensures PartsFit(LayoutOf(KindOf(m)), PartsOf(m))
    ensures PartsShort(PartsOf(m)) <==> ShortStrings(m)
  {
    HeadFits(m);
    HeadShort(m);
    RowCount(m);
    RowsFitOf(m);
    RowsShortOf(m);
    TailOk(m);
    hide AllFit, RowsFit, AllShort, RowsShort, Head, HeadFields, RowsOf, TailFields, Encodable;
  }

  lemma MessageBack(m: Message)
    requires Encodable(m) && PartsFit(LayoutOf(KindOf(m)), PartsOf(m))
    ensures MessageOf(KindOf(m), PartsOf(m)) == m
  {
    hide AllFit;
    match m
    case ActionPack(_, _, _, es) => EntryRowsOk(es);
    case StoryPack(_, _, es) => EntryRowsOk(es);
    case StoryConfirm(_, _, _, _, rs) => RangeRowsOk(rs);
    case ActionConfirm(_, _, _, rs) => RangeRowsOk(rs);
    case LatencyReport(_, ls) => LatencyRowsOk(ls);
    case Setup(_, _, _, ss, _) => SlotRowsOk(ss);
    case _ =>
  }

  lemma HeadOfFields(k: Kind, p: Parts)
    requires PartsFit(LayoutOf(k), p)
    ensures var m := MessageOf(k, p);
      KindOf(m) == k && HeadFields(m) == p.head && TailFields(m) == p.tail
  {
    hide RowsFit, AllFit;
    FieldsAsRead(Head(k), p.head);
    FieldsAsRead(LayoutOf(k).tail, p.tail);
  }

  lemma FieldsAsRead(shapes: seq<Shape>, fs: seq<Field>)
    requires AllFit(shapes, fs)
    ensures |fs| == |shapes|
    ensures forall i :: 0 <= i < |fs| ==>
              match shapes[i]
              case Num(w) => fs[i].N? && fs[i] == N(fs[i].n) && fs[i].n < Pow256(w)
              case Blob => fs[i].B? && fs[i] == B(fs[i].bytes) && |fs[i].bytes| <= 255
              case Span => fs[i].R?
  {
  }

  lemma WordsOfFields(k: Kind, p: Parts)
    requires PartsFit(LayoutOf(k), p)
    ensures Encodable(MessageOf(k, p)) && RowsOf(MessageOf(k, p)) == p.rows
  {
    FieldsAsRead(Head(k), p.head);
    Pow8();
    hide Pow256, AllFit;
    match k
    case KActionPack => EntriesOfOk(p.rows);
    case KStoryPack => EntriesOfOk(p.rows);
    case KStoryConfirm => RangesOfOk(p.rows);
    case KActionConfirm => RangesOfOk(p.rows);
    case KLatencyReport => LatenciesOfOk(p.rows);
    case KSetup => SlotsOfOk(p.rows);
    case _ =>
  }

  /** Whatever can be read is a message that can be written, and it stands for just the fields read. */
  lemma FieldsBackOf(k: Kind, p: Parts)
    requires PartsFit(LayoutOf(k), p)
    ensures var m := MessageOf(k, p); Encodable(m) && KindOf(m) == k && PartsOf(m) == p
  {
    HeadOfFields(k, p);
    WordsOfFields(k, p);
    hide MessageOf, Encodable, KindOf, PartsFit, HeadFields, RowsOf, TailFields;
  }

  // ---- round trips ----

  /** A message comes back with the rest of the buffer exactly when no byte string in it is 255 long. */
  lemma RoundTrip(m: Message, t: Bytes)
    requires Encodable(m)
    ensures Decode(KindOf(m), Encode(m) + t) == Ok(m, t) <==> ShortStrings(m)
  {
    AsParts(m);
    hide ReadParts, PutParts, PartsFit, PartsWritable, PartsShort, ShortStrings, PartsOf, MessageOf, LayoutOf;
    hide KindOf, Encodable, Puttable, Encode;
    var l, b := LayoutOf(KindOf(m)), Encode(m) + t;
    PartsExact(l, PartsOf(m), t);
    if Decode(KindOf(m), b) == Ok(m, t) {
      PartsConsume(b, l);
      FieldsBackOf(KindOf(m), ReadParts(b, l).1);
    }
  }

  /** A message is its fields, in both directions. */
  lemma AsParts(m: Message)
    requires Encodable(m)
    ensures var l, p := LayoutOf(KindOf(m)), PartsOf(m);
      && PartsFit(l, p) && PartsWritable(l, p) && Encode(m) == PutParts(l, p)
      && MessageOf(KindOf(m), p) == m && (PartsShort(p) <==> ShortStrings(m))
  {
    PartsFitOf(m);
    MessageBack(m);
    HeadWritable(m);
    RowsWritableOf(m);
    hide PutParts, MessageOf, PartsShort, ShortStrings, KindOf, AllFit, RowsFit;
  }

  lemma EncodableIsPuttable(m: Message)
    requires Encodable(m)
    ensures Puttable(m)
  {
  }

  /** No other bytes read as such a message: Get undoes Put, and nothing else. */
  lemma OnlyWhatWasPut(m: Message, b: Bytes, t: Bytes)
    requires Encodable(m) && ShortStrings(m)
    ensures Decode(KindOf(m), b) == Ok(m, t) <==> b == Encode(m) + t
  {
    RoundTrip(m, t);
    var l := LayoutOf(KindOf(m));
    var (d, p) := ReadParts(b, l);
    if Decode(KindOf(m), b) == Ok(m, t) {
      PartsConsume(b, l);
      FieldsBackOf(KindOf(m), p);
      PartsFitOf(m);
      PartsBack(b, l);
    }
  }

  /** Whatever Get returns is within the widths of the wire and of the kind that was asked for. */
  lemma DecodedIsEncodable(k: Kind, b: Bytes)
    requires Decode(k, b).Ok?
    ensures Encodable(Decode(k, b).message) && KindOf(Decode(k, b).message) == k
  {
    PartsConsume(b, LayoutOf(k));
    FieldsBackOf(k, ReadParts(b, LayoutOf(k)).1);
  }

  /** Every strict prefix of a message is refused, by an error and not by a panic. */
  lemma TruncatedIsRefused(m: Message, b: Bytes)
    requires Encodable(m) && ShortStrings(m) && b < Encode(m)
    ensures Decode(KindOf(m), b) == Err(UnexpectedEof) || Decode(KindOf(m), b) == Err(InvalidMessage)
  {
    PartsFitOf(m);
    PrefixRefused(LayoutOf(KindOf(m)), PartsOf(m), b);
  }

  /** A message whose only string has 255 bytes does not come back. */
  lemma LongStringIsLost(payload: Bytes)
    requires |payload| == 255
    ensures var m := TestServer(7, payload); Encodable(m) && Decode(KTestServer, Encode(m)) != Ok(m, [])
  {
    var m := TestServer(7, payload);
    RoundTrip(m, []);
    assert Encode(m) + [] == Encode(m);
  }

  /**
   * A Join whose name has 255 bytes is accepted when it is cut off after the name: the reader takes the name
   * for the config as well.
   */
  lemma LongNameHidesTheEnd(m: Message)
    requires Encodable(m) && m.Join? && |m.name| == 255
    ensures exists b :: b < Encode(m) && Decode(KJoin, b) == Ok(m.(config := m.name), [255] + m.name)
  {
    var fields := HeadFields(m)[..5];
    var name, config: Bytes := [255] + m.name, [|m.config|] + m.config;
    JoinBytes(m);
    FirstFive(m, name);
    var five := PutFields(Head(KJoin)[..5], fields);
    NameTwice(five + name, fields, m.name);
    NameForConfig(m);
    hide Encode, PutFields, ReadFields, LayoutOf, Head, HeadFields, Encodable, Decode, AllWritable;
    var magic := LayoutOf(KJoin).magic;
    var b := magic + (five + name);
    assert b < Encode(m) by { assert Encode(m) == b + config && |config| > 0; }
    assert b[|magic|..] == five + name;
    JoinIsRead(b, m.(config := m.name), name);
  }

  lemma NameForConfig(m: Message)
    requires Encodable(m) && m.Join?
    ensures Encodable(m.(config := m.name))
    ensures HeadFields(m.(config := m.name)) == HeadFields(m)[..5] + [B(m.name)] + [B(m.name)]
  {
  }

  lemma FirstFive(m: Message, t: Bytes)
    requires Encodable(m) && m.Join? && AllWritable(Head(KJoin)[..5], HeadFields(m)[..5])
    ensures ReadFields(Reading(PutFields(Head(KJoin)[..5], HeadFields(m)[..5]) + t), Head(KJoin)[..5])
            == (Reading(t), HeadFields(m)[..5])
  {
    HeadFits(m);
    assert AllFit(Head(KJoin)[..5], HeadFields(m)[..5]) && AllShort(HeadFields(m)[..5]);
    hide PutFields, ReadFields, AllFit, AllShort;
    FieldsRoundTrip(Head(KJoin)[..5], HeadFields(m)[..5], t);
  }

  lemma JoinBytes(m: Message)
    requires Encodable(m) && m.Join?
    ensures AllWritable(Head(KJoin)[..5], HeadFields(m)[..5])
    ensures Encode(m) ==
            LayoutOf(KJoin).magic + (PutFields(Head(KJoin)[..5], HeadFields(m)[..5]) + ([|m.name|] + m.name))
            + ([|m.config|] + m.config)
  {
    JoinFields(m);
    hide Encode, PutFields, AllWritable, LayoutOf, Head, HeadFields, Encodable;
    OnlyHead(m);
    var magic, name, config := LayoutOf(KJoin).magic, [|m.name|] + m.name, [|m.config|] + m.config;
    var five := PutFields(Head(KJoin)[..5], HeadFields(m)[..5]);
    Join4(magic, five, name, config);
  }

  lemma Join4(a: Bytes, b: Bytes, c: Bytes, d: Bytes)
    ensures a + (b + c + d) == a + (b + c) + d
  {
  }

  lemma JoinFields(m: Message)
    requires Encodable(m) && m.Join?
    ensures |HeadFields(m)| == |Head(KJoin)| == 7
    ensures AllWritable(Head(KJoin)[..5], HeadFields(m)[..5]) && AllWritable(Head(KJoin), HeadFields(m))
    ensures PutFields(Head(KJoin), HeadFields(m)) ==
            PutFields(Head(KJoin)[..5], HeadFields(m)[..5]) + ([|m.name|] + m.name) + ([|m.config|] + m.config)
  {
    var h, f := Head(KJoin), HeadFields(m);
    HeadWritable(m);
    assert h[..6][..5] == h[..5] && f[..6][..5] == f[..5];
    assert AllWritable(h[..6], f[..6]) && AllWritable(h[..5], f[..5]);
    hide PutFields, AllWritable;
    PutFieldsStep(h, f, []);
    PutFieldsStep(h[..6], f[..6], []);
  }

  lemma OnlyHead(m: Message)
    requires Puttable(m) && m.Join? && AllWritable(Head(KJoin), HeadFields(m))
    ensures Encode(m) == LayoutOf(KJoin).magic + PutFields(Head(KJoin), HeadFields(m))
  {
    assert PutFields([], []) == [];
    hide PutFields, AllWritable, Head, HeadFields, Tag;
    var both := LayoutOf(KJoin).magic + PutFields(Head(KJoin), HeadFields(m));
    assert both + [] + [] == both;
  }

  /** After the first five fields the reader finds the same string twice. */
  lemma NameTwice(b: Bytes, fields: seq<Field>, name: Bytes)
    requires |name| == 255
    requires ReadFields(Reading(b), Head(KJoin)[..5]) == (Reading([255] + name), fields)
    ensures ReadFields(Reading(b), Head(KJoin)) == (Reading([255] + name), fields + [B(name)] + [B(name)])
  {
    var h := Head(KJoin);
    var d := Reading([255] + name);
    assert d.buf[1..][..255] == name;
    assert ReadField(d, Blob) == (d, B(name));
    assert h[..6][..5] == h[..5];
    ReadFieldsStep(Reading(b), h[..6], d, fields);
    ReadFieldsStep(Reading(b), h, d, fields + [B(name)]);
  }

  lemma JoinParts(b: Bytes, m: Message, rest: Bytes)
    requires Puttable(m) && m.Join? && LayoutOf(KJoin).magic <= b
    requires ReadFields(Reading(b[|LayoutOf(KJoin).magic|..]), Head(KJoin)) == (Reading(rest), HeadFields(m))
    ensures ReadParts(b, LayoutOf(KJoin)) == (Reading(rest), PartsOf(m))
  {
    assert ReadFields(Reading(rest), []) == (Reading(rest), []);
    hide Head, HeadFields, ReadFields, Puttable;
  }

  lemma JoinIsRead(b: Bytes, m: Message, rest: Bytes)
    requires Encodable(m) && m.Join? && LayoutOf(KJoin).magic <= b
    requires ReadFields(Reading(b[|LayoutOf(KJoin).magic|..]), Head(KJoin)) == (Reading(rest), HeadFields(m))
    ensures Decode(KJoin, b) == Ok(m, rest)
  {
    AsParts(m);
    JoinParts(b, m, rest);
    hide ReadParts, LayoutOf, PartsOf, HeadFields, Head, ReadFields, MessageOf;
    hide Encodable, Encode, PartsFit, PartsWritable, PartsShort, ShortStrings;
  }

  // ---- sizes ----

  const STORY_CLIENT_BASE: nat := SIZE_OF_PREFIX + 1 + 1 + (SIZE_OF_TOKEN + 4)
  const LOBBY_CLIENT_BASE: nat := SIZE_OF_PREFIX + 1 + 1 + (2 * SIZE_OF_TOKEN + 4)
  const LOBBY_SERVER_BASE: nat := SIZE_OF_PREFIX + 1 + SIZE_OF_TOKEN

  function LatenciesSize(ls: seq<ActorLatency>): nat {
    if ls == [] then 0 else LatenciesSize(ls[..|ls| - 1]) + (1 + |ls[|ls| - 1].name| + 1 + 8)
  }

  function SlotsSize(ss: seq<SetupSlot>): nat {
    if ss == [] then 0
    else SlotsSize(ss[..|ss| - 1]) + (SIZE_OF_TOKEN + SIZE_OF_TOKEN + 1 + 1 + |ss[|ss| - 1].name| + 8)
  }

  /** The size a message gives itself. */
  function Size(m: Message): nat {
    match m
    case TestClient(_, _, p) => STORY_CLIENT_BASE + 1 + |p|
    case ActionPack(_, _, _, es) => STORY_CLIENT_BASE + SIZE_OF_TOKEN + 1 + EntriesSize(es)
    case StoryConfirm(_, _, _, _, rs) => STORY_CLIENT_BASE + SIZE_OF_TOKEN + 4 + 1 + |rs| * 8
    case TestServer(_, p) => SIZE_SERVER_BASE + 1 + |p|
    case ActionConfirm(_, _, _, rs) => SIZE_SERVER_BASE + SIZE_OF_TOKEN + 4 + 1 + |rs| * 8
    case StoryPack(_, _, es) => SIZE_SERVER_BASE + SIZE_OF_TOKEN + 1 + EntriesSize(es)
    case LatencyReport(_, ls) => SIZE_SERVER_BASE + 1 + LatenciesSize(ls)
    case Join(_, _, _, _, _, n, f) => LOBBY_CLIENT_BASE + SIZE_OF_TOKEN + 1 + 1 + |n| + 1 + |f|
    case Leave(_, _, _, _) => LOBBY_CLIENT_BASE + SIZE_OF_TOKEN
    case Request(_, _, _) => LOBBY_CLIENT_BASE
    case Setup(_, n, d, ss, _) => LOBBY_SERVER_BASE + 1 + |n| + 1 + |d| + 1 + 1 + SlotsSize(ss)
  }

  function FieldLen(s: Shape, f: Field): nat {
    match s
    case Num(w) => w
    case Blob => if f.B? then 1 + |f.bytes| else 0
    case Span => 8
  }

  /** The bytes of the first n fields. */
  function Total(shapes: seq<Shape>, fs: seq<Field>, n: nat): nat
    requires n <= |shapes| == |fs|
  {
    if n == 0 then 0 else Total(shapes, fs, n - 1) + FieldLen(shapes[n - 1], fs[n - 1])
  }

  lemma {:induction false} TotalPrefix(shapes: seq<Shape>, fs: seq<Field>, k: nat, n: nat)
    requires n <= k <= |shapes| == |fs|
    ensures Total(shapes[..k], fs[..k], n) == Total(shapes, fs, n)
  {
    if n > 0 { TotalPrefix(shapes, fs, k, n - 1); }
  }

  lemma {:induction false} FieldsLength(shapes: seq<Shape>, fs: seq<Field>)
    requires AllWritable(shapes, fs)
    ensures |PutFields(shapes, fs)| == Total(shapes, fs, |fs|)
  {
    if fs != [] {
      var n := |fs| - 1;
      FieldsLength(shapes[..n], fs[..n]);
      TotalPrefix(shapes, fs, n, n);
      PutFieldsStep(shapes, fs, []);
    }
  }

  /** Up to seven fields, one after the other. */
  lemma TotalUnrolled(shapes: seq<Shape>, fs: seq<Field>)
    requires |shapes| == |fs| <= 7
    ensures Total(shapes, fs, |fs|) ==
            LenAt(shapes, fs, 0) + LenAt(shapes, fs, 1) + LenAt(shapes, fs, 2) + LenAt(shapes, fs, 3)
            + LenAt(shapes, fs, 4) + LenAt(shapes, fs, 5) + LenAt(shapes, fs, 6)
  {
    hide FieldLen;
    var n := |fs|;
    if n > 0 { assert Total(shapes, fs, 1) == LenAt(shapes, fs, 0); }
    if n > 1 { assert Total(shapes, fs, 2) == Total(shapes, fs, 1) + LenAt(shapes, fs, 1); }
    if n > 2 { assert Total(shapes, fs, 3) == Total(shapes, fs, 2) + LenAt(shapes, fs, 2); }
    if n > 3 { assert Total(shapes, fs, 4) == Total(shapes, fs, 3) + LenAt(shapes, fs, 3); }
    if n > 4 { assert Total(shapes, fs, 5) == Total(shapes, fs, 4) + LenAt(shapes, fs, 4); }
    if n > 5 { assert Total(shapes, fs, 6) == Total(shapes, fs, 5) + LenAt(shapes, fs, 5); }
    if n > 6 { assert Total(shapes, fs, 7) == Total(shapes, fs, 6) + LenAt(shapes, fs, 6); }
  }

  function LenAt(shapes: seq<Shape>, fs: seq<Field>, i: nat): nat
    requires |shapes| == |fs|
  {
    if i < |fs| then FieldLen(shapes[i], fs[i]) else 0
  }

  lemma HeadLength(m: Message)
    requires Puttable(m)
    ensures var k := KindOf(m);
      AllWritable(Head(k), HeadFields(m)) && |PREFIX + Tag(k)| + |PutFields(Head(k), HeadFields(m))| ==
      match m
      case TestClient(_, _, p) => STORY_CLIENT_BASE + 1 + |p|
      case ActionPack(_, _, _, es) => STORY_CLIENT_BASE + SIZE_OF_TOKEN
      case StoryConfirm(_, _, _, _, rs) => STORY_CLIENT_BASE + SIZE_OF_TOKEN + 4
      case TestServer(_, p) => SIZE_SERVER_BASE + 1 + |p|
      case ActionConfirm(_, _, _, rs) => SIZE_SERVER_BASE + SIZE_OF_TOKEN + 4
      case StoryPack(_, _, es) => SIZE_SERVER_BASE + SIZE_OF_TOKEN
      case LatencyReport(_, ls) => SIZE_SERVER_BASE
      case Join(_, _, _, _, _, n, f) => LOBBY_CLIENT_BASE + SIZE_OF_TOKEN + 1 + 1 + |n| + 1 + |f|
      case Leave(_, _, _, _) => LOBBY_CLIENT_BASE + SIZE_OF_TOKEN
      case Request(_, _, _) => LOBBY_CLIENT_BASE
      case Setup(_, n, d, ss, _) => LOBBY_SERVER_BASE + 1 + |n| + 1 + |d|
  {
    hide Total, PutFields, AllWritable, Puttable;
    HeadWritable(m);
    var shapes, fs := Head(KindOf(m)), HeadFields(m);
    FieldsLength(shapes, fs);
    TotalUnrolled(shapes, fs);
  }

  /** The bytes of the rows, each of at most seven fields. */
  function RowsTotal(row: seq<Shape>, rows: seq<seq<Field>>): nat
    requires forall i :: 0 <= i < |rows| ==> |rows[i]| == |row|
  {
    if rows == [] then 0
    else RowsTotal(row, rows[..|rows| - 1]) + Total(row, rows[|rows| - 1], |row|)
  }

  lemma {:induction false} RowsLength(row: seq<Shape>, rows: seq<seq<Field>>)
    requires RowsWritable(row, rows)
    ensures |PutRows(row, rows)| == RowsTotal(row, rows)
  {
    if rows != [] {
      var n := |rows| - 1;
      RowsLength(row, rows[..n]);
      PutRowsStep(row, rows, []);
      FieldsLength(row, rows[n]);
      hide PutRows, PutFields;
    }
  }

  lemma {:induction false} EntryRowsLength(es: seq<Entry>)
    requires forall i :: 0 <= i < |es| ==> EntryPuttable(es[i])
    ensures RowsTotal(ENTRY_ROW, EntryRows(es)) == EntriesSize(es)
  {
    if es != [] {
      var n := |es| - 1;
      EntryRowsLength(es[..n]);
      assert EntryRows(es)[..n] == EntryRows(es[..n]);
      TotalUnrolled(ENTRY_ROW, EntryFields(es[n]));
    }
  }

  lemma {:induction false} RangeRowsLength(rs: seq<Range>)
    requires forall i :: 0 <= i < |rs| ==> rs[i].Valid()
    ensures RowsTotal(RANGE_ROW, RangeRows(rs)) == |rs| * 8
  {
    if rs != [] {
      var n := |rs| - 1;
      RangeRowsLength(rs[..n]);
      assert RangeRows(rs)[..n] == RangeRows(rs[..n]);
      TotalUnrolled(RANGE_ROW, RangeFields(rs[n]));
    }
  }

  lemma {:induction false} LatencyRowsLength(ls: seq<ActorLatency>)
    requires forall i :: 0 <= i < |ls| ==> LatencyPuttable(ls[i])
    ensures RowsTotal(LATENCY_ROW, LatencyRows(ls)) == LatenciesSize(ls)
  {
    if ls != [] {
      var n := |ls| - 1;
      LatencyRowsLength(ls[..n]);
      assert LatencyRows(ls)[..n] == LatencyRows(ls[..n]);
      TotalUnrolled(LATENCY_ROW, LatencyFields(ls[n]));
    }
  }

  lemma {:induction false} SlotRowsLength(ss: seq<SetupSlot>)
    requires forall i :: 0 <= i < |ss| ==> SlotPuttable(ss[i])
    ensures RowsTotal(SLOT_ROW, SlotRows(ss)) == SlotsSize(ss)
  {
    if ss != [] {
      var n := |ss| - 1;
      SlotRowsLength(ss[..n]);
      assert SlotRows(ss)[..n] == SlotRows(ss[..n]);
      TotalUnrolled(SLOT_ROW, SlotFields(ss[n]));
    }
  }

  /** What the message says of the bytes of its list, with the count in front. */
  function ListSize(m: Message): nat {
    match m
    case ActionPack(_, _, _, es) => 1 + EntriesSize(es)
    case StoryPack(_, _, es) => 1 + EntriesSize(es)
    case StoryConfirm(_, _, _, _, rs) => 1 + |rs| * 8
    case ActionConfirm(_, _, _, rs) => 1 + |rs| * 8
    case LatencyReport(_, ls) => 1 + LatenciesSize(ls)
    case Setup(_, _, _, ss, _) => 1 + SlotsSize(ss)
    case _ => 0
  }

  lemma RowsTotalOf(m: Message)
    requires Puttable(m) && Row(KindOf(m)).Some? && RowsWritable(Row(KindOf(m)).value, RowsOf(m))
    ensures 1 + RowsTotal(Row(KindOf(m)).value, RowsOf(m)) == ListSize(m)
  {
    hide RowsTotal, EntryRows, RangeRows, LatencyRows, SlotRows, EntriesSize, LatenciesSize, SlotsSize;
    match m
    case ActionPack(_, _, _, es) => EntryRowsLength(es);
    case StoryPack(_, _, es) => EntryRowsLength(es);
    case StoryConfirm(_, _, _, _, rs) => RangeRowsLength(rs);
    case ActionConfirm(_, _, _, rs) => RangeRowsLength(rs);
    case LatencyReport(_, ls) => LatencyRowsLength(ls);
    case Setup(_, _, _, ss, _) => SlotRowsLength(ss);
  }

  lemma ListLength(m: Message)
    requires Puttable(m)
    ensures Row(KindOf(m)).Some? ==> RowsWritable(Row(KindOf(m)).value, RowsOf(m))
    ensures |PutList(Row(KindOf(m)), RowsOf(m))| == ListSize(m)
  {
    RowsWritableOf(m);
    if Row(KindOf(m)).Some? {
      hide RowsWritable, PutRows, RowsTotal, RowsOf, ListSize, Row, KindOf;
      RowsLength(Row(KindOf(m)).value, RowsOf(m));
      RowsTotalOf(m);
    }
  }

  lemma TailLength(m: Message)
    ensures AllWritable(LayoutOf(KindOf(m)).tail, TailFields(m))
    ensures |PutFields(LayoutOf(KindOf(m)).tail, TailFields(m))| == if m.Setup? then 1 else 0
  {
    var shapes, fs := LayoutOf(KindOf(m)).tail, TailFields(m);
    FieldsLength(shapes, fs);
    TotalUnrolled(shapes, fs);
  }

  /** The size a message gives itself is the number of bytes that Put appends. */
  lemma SizeIsLength(m: Message)
    requires Puttable(m)
    ensures |Encode(m)| == Size(m)
  {
    HeadLength(m);
    ListLength(m);
    TailLength(m);
    hide PutFields, PutList, AllWritable, RowsWritable, Head, HeadFields, RowsOf, Row, TailFields, Puttable;
  }

  const LEN_LATENCY_REPORT: nat := 8
  const LEN_LATENCY_REPORT_NAME: nat := 52
  const MAX_LEN_NAME: nat := 32
  const MAX_LEN_DEF: nat := 63

  lemma {:induction false} LatenciesBound(ls: seq<ActorLatency>)
    requires forall i :: 0 <= i < |ls| ==> |ls[i].name| <= LEN_LATENCY_REPORT_NAME
    ensures LatenciesSize(ls) <= |ls| * (LEN_LATENCY_REPORT_NAME + 10)
  {
    if ls != [] { LatenciesBound(ls[..|ls| - 1]); }
  }

  lemma {:induction false} SlotsBound(ss: seq<SetupSlot>)
    requires forall i :: 0 <= i < |ss| ==> |ss[i].name| <= MAX_LEN_NAME
    ensures SlotsSize(ss) <= |ss| * (MAX_LEN_NAME + 18)
  {
    if ss != [] { SlotsBound(ss[..|ss| - 1]); }
  }

  /** Messages within the documented limits fit a datagram. */
  lemma LimitedMessagesFit(m: Message)
    requires Puttable(m)
    requires match m
             case StoryConfirm(_, _, _, _, rs) => |rs| <= 60
             case LatencyReport(_, ls) =>
               |ls| <= 8 && forall i :: 0 <= i < |ls| ==> |ls[i].name| <= 52
             case Setup(_, n, d, ss, _) =>
               && |n| <= 32 && |d| <= 63 && |ss| <= 8
               && forall i :: 0 <= i < |ss| ==> |ss[i].name| <= 32
             case _ => false
    ensures |Encode(m)| <= 508
  {
    SizeIsLength(m);
    match m
    case LatencyReport(_, ls) => LatenciesBound(ls);
    case Setup(_, _, _, ss, _) => SlotsBound(ss);
    case _ =>
  }
}
