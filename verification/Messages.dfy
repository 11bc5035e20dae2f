/**
 * The story and lobby messages as values, and the layout of their bytes: constant bytes in front, fields, and
 * perhaps a list of rows (udpstar/message/story, udpstar/message/lobby). A message is turned into fields and
 * back; what the program cuts to a byte or a word is cut where the fields are written.
 */
module Messages {
  import opened Streams
  import opened Ranges
  import opened Wire

  datatype ActorLatency = ActorLatency(name: Bytes, state: Byte, latency: int)

  datatype SetupSlot = SetupSlot(story: nat, actor: nat, availability: Byte, name: Bytes, latency: int)

  datatype Message =
    | TestClient(client: nat, latency: nat, payload: Bytes)
    | ActionPack(client: nat, latency: nat, actor: nat, actions: seq<Entry>)
    | StoryConfirm(client: nat, latency: nat, story: nat, last: nat, missing: seq<Range>)
    | TestServer(session: nat, payload: Bytes)
    | ActionConfirm(session: nat, actor: nat, last: nat, missing: seq<Range>)
    | StoryPack(session: nat, story: nat, stories: seq<Entry>)
    | LatencyReport(session: nat, latencies: seq<ActorLatency>)
    | Join(lobby: nat, client: nat, latency: nat, actor: nat, slot: Byte, name: Bytes, config: Bytes)
    | Leave(lobby: nat, client: nat, latency: nat, actor: nat)
    | Request(lobby: nat, client: nat, latency: nat)
    | Setup(lobby: nat, name: Bytes, def: Bytes, slots: seq<SetupSlot>, state: Byte)

  datatype Kind =
    | KTestClient | KActionPack | KStoryConfirm
    | KTestServer | KActionConfirm | KStoryPack | KLatencyReport
    | KJoin | KLeave | KRequest | KSetup

  function KindOf(m: Message): Kind {
    match m
    case TestClient(_, _, _) => KTestClient
    case ActionPack(_, _, _, _) => KActionPack
    case StoryConfirm(_, _, _, _, _) => KStoryConfirm
    case TestServer(_, _) => KTestServer
    case ActionConfirm(_, _, _, _) => KActionConfirm
    case StoryPack(_, _, _) => KStoryPack
    case LatencyReport(_, _) => KLatencyReport
    case Join(_, _, _, _, _, _, _) => KJoin
    case Leave(_, _, _, _) => KLeave
    case Request(_, _, _) => KRequest
    case Setup(_, _, _, _, _) => KSetup
  }

  // ---- the bytes in front ----

  const PREFIX: Bytes := [0x3C, 0x75, 0x2A, 0x3E]  // <u*>

  const CATEGORY_LOBBY: Byte := 2
  const CATEGORY_STORY: Byte := 3

  const TYPE_TEST: Byte := 0
  const TYPE_ACTION: Byte := 1
  const TYPE_STORY: Byte := 2
  const TYPE_LATENCY_REPORT: Byte := 3

  const COMMAND_JOIN: Byte := 1
  const COMMAND_LEAVE: Byte := 2
  const COMMAND_REQUEST: Byte := 3

  /** What follows the prefix: the category and, except for Setup, the type or command. */
  function Tag(k: Kind): Bytes {
    match k
    case KTestClient => [CATEGORY_STORY, TYPE_TEST]
    case KActionPack => [CATEGORY_STORY, TYPE_ACTION]
    case KStoryConfirm => [CATEGORY_STORY, TYPE_STORY]
    case KTestServer => [CATEGORY_STORY, TYPE_TEST]
    case KActionConfirm => [CATEGORY_STORY, TYPE_ACTION]
    case KStoryPack => [CATEGORY_STORY, TYPE_STORY]
    case KLatencyReport => [CATEGORY_STORY, TYPE_LATENCY_REPORT]
    case KJoin => [CATEGORY_LOBBY, COMMAND_JOIN]
    case KLeave => [CATEGORY_LOBBY, COMMAND_LEAVE]
    case KRequest => [CATEGORY_LOBBY, COMMAND_REQUEST]
    case KSetup => [CATEGORY_LOBBY]
  }

  // ---- the layout of each kind ----

  const WORD: Shape := Num(4)
  const LONG: Shape := Num(8)
  const SMALL: Shape := Num(1)

  const ENTRY_ROW: seq<Shape> := [WORD, LONG, Blob]
  const RANGE_ROW: seq<Shape> := [Span]
  const LATENCY_ROW: seq<Shape> := [Blob, SMALL, LONG]
  const SLOT_ROW: seq<Shape> := [WORD, WORD, SMALL, Blob, LONG]

  function Head(k: Kind): seq<Shape> {
    match k
    case KTestClient => [WORD, WORD, Blob]
    case KActionPack => [WORD, WORD, WORD]
    case KStoryConfirm => [WORD, WORD, WORD, WORD]
    case KTestServer => [WORD, Blob]
    case KActionConfirm => [WORD, WORD, WORD]
    case KStoryPack => [WORD, WORD]
    case KLatencyReport => [WORD]
    case KJoin => [WORD, WORD, WORD, WORD, SMALL, Blob, Blob]
    case KLeave => [WORD, WORD, WORD, WORD]
    case KRequest => [WORD, WORD, WORD]
    case KSetup => [WORD, Blob, Blob]
  }

  function Row(k: Kind): Option<seq<Shape>> {
    match k
    case KActionPack => Some(ENTRY_ROW)
    case KStoryPack => Some(ENTRY_ROW)
    case KStoryConfirm => Some(RANGE_ROW)
    case KActionConfirm => Some(RANGE_ROW)
    case KLatencyReport => Some(LATENCY_ROW)
    case KSetup => Some(SLOT_ROW)
    case _ => None
  }

  function LayoutOf(k: Kind): Layout {
    Layout(PREFIX + Tag(k), Head(k), Row(k), if k == KSetup then [SMALL] else [])
  }

  // ---- a message as fields ----

  const LONG63: int := 0x8000_0000_0000_0000

  /** A duration as an unsigned word, and back: two's complement of 64 bits. */
  function Unsigned(d: int): (n: nat)
    requires IsDuration(d)
    ensures n < 2 * LONG63
  {
    if d < 0 then d + 2 * LONG63 else d
  }

  function Signed(n: nat): (d: int)
    requires n < 2 * LONG63
    ensures IsDuration(d) && Unsigned(d) == n
  {
    if n < LONG63 then n else n - 2 * LONG63
  }

  predicate IsWord(n: int) { 0 <= n < WORD_SIZE }

  predicate IsDuration(d: int) { -LONG63 <= d < LONG63 }

  predicate EntryPuttable(e: Entry) { IsDuration(e.delay) && |e.payload| <= 255 }

  predicate LatencyPuttable(a: ActorLatency) { |a.name| <= 255 && IsDuration(a.latency) }

  predicate SlotPuttable(s: SetupSlot) { |s.name| <= 255 && IsDuration(s.latency) }

  predicate EntryInWidth(e: Entry) { IsWord(e.seqNo) }

  predicate RangeInWidth(r: Range) { IsWord(r.To()) }

  predicate SlotInWidth(s: SetupSlot) { IsWord(s.story) && IsWord(s.actor) }

  /** Within the widths of the wire, and no longer than the serializer allows. */
  ghost predicate Encodable(m: Message) {
    Puttable(m) &&
    match m
    case TestClient(c, l, _) => IsWord(c) && IsWord(l)
    case ActionPack(c, l, a, es) =>
      IsWord(c) && IsWord(l) && IsWord(a) && forall i :: 0 <= i < |es| ==> EntryInWidth(es[i])
    case StoryConfirm(c, l, y, n, rs) =>
      IsWord(c) && IsWord(l) && IsWord(y) && IsWord(n) && forall i :: 0 <= i < |rs| ==> RangeInWidth(rs[i])
    case TestServer(s, p) => IsWord(s)
    case ActionConfirm(s, a, n, rs) =>
      IsWord(s) && IsWord(a) && IsWord(n) && forall i :: 0 <= i < |rs| ==> RangeInWidth(rs[i])
    case StoryPack(s, y, es) => IsWord(s) && IsWord(y) && forall i :: 0 <= i < |es| ==> EntryInWidth(es[i])
    case LatencyReport(s, ls) => IsWord(s) && |ls| <= 255
    case Join(y, c, l, a, _, _, _) => IsWord(y) && IsWord(c) && IsWord(l) && IsWord(a)
    case Leave(y, c, l, a) => IsWord(y) && IsWord(c) && IsWord(l) && IsWord(a)
    case Request(y, c, l) => IsWord(y) && IsWord(c) && IsWord(l)
    case Setup(y, _, _, ss, _) => IsWord(y) && |ss| <= 255 && forall i :: 0 <= i < |ss| ==> SlotInWidth(ss[i])
  }

  /** What the serializer demands; it cuts larger numbers to their width without a word. */
  ghost predicate Puttable(m: Message) {
    match m
    case TestClient(_, _, p) => |p| <= 255
    case ActionPack(_, _, _, es) => |es| <= 255 && forall i :: 0 <= i < |es| ==> EntryPuttable(es[i])
    case StoryConfirm(_, _, _, _, rs) => |rs| <= 255 && forall i :: 0 <= i < |rs| ==> rs[i].Valid()
    case TestServer(_, p) => |p| <= 255
    case ActionConfirm(_, _, _, rs) => |rs| <= 255 && forall i :: 0 <= i < |rs| ==> rs[i].Valid()
    case StoryPack(_, _, es) => |es| <= 255 && forall i :: 0 <= i < |es| ==> EntryPuttable(es[i])
    case LatencyReport(_, ls) => forall i :: 0 <= i < |ls| ==> LatencyPuttable(ls[i])
    case Join(_, _, _, _, _, n, f) => |n| <= 255 && |f| <= 255
    case Setup(_, n, d, ss, _) => |n| <= 255 && |d| <= 255 && forall i :: 0 <= i < |ss| ==> SlotPuttable(ss[i])
    case _ => true
  }

  /** All byte strings of a message are at most 254 long. */
  ghost predicate ShortStrings(m: Message) {
    match m
    case TestClient(_, _, p) => |p| <= 254
    case ActionPack(_, _, _, es) => forall i :: 0 <= i < |es| ==> |es[i].payload| <= 254
    case TestServer(_, p) => |p| <= 254
    case StoryPack(_, _, es) => forall i :: 0 <= i < |es| ==> |es[i].payload| <= 254
    case LatencyReport(_, ls) => forall i :: 0 <= i < |ls| ==> |ls[i].name| <= 254
    case Join(_, _, _, _, _, n, f) => |n| <= 254 && |f| <= 254
    case Setup(_, n, d, ss, _) => |n| <= 254 && |d| <= 254 && forall i :: 0 <= i < |ss| ==> |ss[i].name| <= 254
    case _ => true
  }

  // ---- rows ----

  function EntryFields(e: Entry): seq<Field>
    requires EntryPuttable(e)
  {
    [N(e.seqNo), N(Unsigned(e.delay)), B(e.payload)]
  }

  function EntryOf(fs: seq<Field>): Entry
    requires AllFit(ENTRY_ROW, fs)
  {
    Pow8(); Entry(fs[0].n, Signed(fs[1].n), fs[2].bytes)
  }

  function RangeFields(r: Range): seq<Field>
    requires r.Valid()
  {
    [R(r.From(), r.To())]
  }

  function LatencyFields(a: ActorLatency): seq<Field>
    requires LatencyPuttable(a)
  {
    [B(a.name), N(a.state), N(Unsigned(a.latency))]
  }

  function LatencyOf(fs: seq<Field>): ActorLatency
    requires AllFit(LATENCY_ROW, fs)
  {
    Pow8(); ActorLatency(fs[0].bytes, fs[1].n, Signed(fs[2].n))
  }

  function SlotFields(s: SetupSlot): seq<Field>
    requires SlotPuttable(s)
  {
    [N(s.story), N(s.actor), N(s.availability), B(s.name), N(Unsigned(s.latency))]
  }

  function SlotOf(fs: seq<Field>): SetupSlot
    requires AllFit(SLOT_ROW, fs)
  {
    Pow8(); SetupSlot(fs[0].n, fs[1].n, fs[2].n, fs[3].bytes, Signed(fs[4].n))
  }

  lemma Pow8()
    ensures Pow256(8) == 2 * LONG63 && Pow256(4) == WORD_SIZE && Pow256(1) == 256
  {
    assert Pow256(0) == 1 && Pow256(1) == 256 && Pow256(2) == 0x10000 && Pow256(3) == 0x100_0000;
    assert Pow256(4) == 0x1_0000_0000 && Pow256(5) == 0x100_0000_0000 && Pow256(6) == 0x1_0000_0000_0000;
    assert Pow256(7) == 0x100_0000_0000_0000;
  }

  function EntryRows(es: seq<Entry>): seq<seq<Field>>
    requires forall i :: 0 <= i < |es| ==> EntryPuttable(es[i])
  {
    seq(|es|, i requires 0 <= i < |es| => EntryFields(es[i]))
  }

  function RangeRows(rs: seq<Range>): seq<seq<Field>>
    requires forall i :: 0 <= i < |rs| ==> rs[i].Valid()
  {
    seq(|rs|, i requires 0 <= i < |rs| => RangeFields(rs[i]))
  }

  function LatencyRows(ls: seq<ActorLatency>): seq<seq<Field>>
    requires forall i :: 0 <= i < |ls| ==> LatencyPuttable(ls[i])
  {
    seq(|ls|, i requires 0 <= i < |ls| => LatencyFields(ls[i]))
  }

  function SlotRows(ss: seq<SetupSlot>): seq<seq<Field>>
    requires forall i :: 0 <= i < |ss| ==> SlotPuttable(ss[i])
  {
    seq(|ss|, i requires 0 <= i < |ss| => SlotFields(ss[i]))
  }

  function EntriesOf(rows: seq<seq<Field>>): seq<Entry>
    requires RowsFit(ENTRY_ROW, rows)
  {
    seq(|rows|, i requires 0 <= i < |rows| => EntryOf(rows[i]))
  }

  function RangesOf(rows: seq<seq<Field>>): seq<Range>
    requires RowsFit(RANGE_ROW, rows)
  {
    seq(|rows|, i requires 0 <= i < |rows| => RangeInclusive(rows[i][0].from, rows[i][0].to))
  }

  function LatenciesOf(rows: seq<seq<Field>>): seq<ActorLatency>
    requires RowsFit(LATENCY_ROW, rows)
  {
    seq(|rows|, i requires 0 <= i < |rows| => LatencyOf(rows[i]))
  }

  function SlotsOf(rows: seq<seq<Field>>): seq<SetupSlot>
    requires RowsFit(SLOT_ROW, rows)
  {
    seq(|rows|, i requires 0 <= i < |rows| => SlotOf(rows[i]))
  }

  lemma EntryRowsOk(es: seq<Entry>)
    requires forall i :: 0 <= i < |es| ==> EntryPuttable(es[i]) && EntryInWidth(es[i])
    ensures RowsFit(ENTRY_ROW, EntryRows(es)) && EntriesOf(EntryRows(es)) == es
    ensures RowsShort(EntryRows(es)) <==> forall i :: 0 <= i < |es| ==> |es[i].payload| <= 254
  {
    Pow8();
    hide Pow256;
    forall i | 0 <= i < |es|
      ensures AllFit(ENTRY_ROW, EntryRows(es)[i]) && EntryOf(EntryRows(es)[i]) == es[i]
      ensures AllShort(EntryRows(es)[i]) <==> |es[i].payload| <= 254
    {
      assert EntryRows(es)[i][2] == B(es[i].payload);
    }
    hide AllFit, AllShort;
  }

  lemma EntriesOfOk(rows: seq<seq<Field>>)
    requires RowsFit(ENTRY_ROW, rows)
    ensures forall i :: 0 <= i < |rows| ==> EntryPuttable(EntriesOf(rows)[i]) && EntryInWidth(EntriesOf(rows)[i])
    ensures EntryRows(EntriesOf(rows)) == rows
  {
    Pow8();
    hide Pow256;
    forall i | 0 <= i < |rows|
      ensures EntryPuttable(EntriesOf(rows)[i]) && EntryInWidth(EntriesOf(rows)[i])
      ensures EntryFields(EntriesOf(rows)[i]) == rows[i]
    {
      assert AllFit(ENTRY_ROW, rows[i]);
    }
  }

  lemma RangeRowsOk(rs: seq<Range>)
    requires forall i :: 0 <= i < |rs| ==> rs[i].Valid() && RangeInWidth(rs[i])
    ensures RowsFit(RANGE_ROW, RangeRows(rs)) && RangesOf(RangeRows(rs)) == rs && RowsShort(RangeRows(rs))
  {
    forall i | 0 <= i < |rs| ensures AllFit(RANGE_ROW, RangeRows(rs)[i]) && AllShort(RangeRows(rs)[i]) {
    }
  }

  lemma RangesOfOk(rows: seq<seq<Field>>)
    requires RowsFit(RANGE_ROW, rows)
    ensures forall i :: 0 <= i < |rows| ==> RangesOf(rows)[i].Valid() && RangeInWidth(RangesOf(rows)[i])
    ensures RangeRows(RangesOf(rows)) == rows
  {
    forall i | 0 <= i < |rows|
      ensures RangesOf(rows)[i].Valid() && RangeInWidth(RangesOf(rows)[i]) && RangeFields(RangesOf(rows)[i]) == rows[i]
    {
      assert AllFit(RANGE_ROW, rows[i]);
    }
  }

  lemma LatencyRowsOk(ls: seq<ActorLatency>)
    requires forall i :: 0 <= i < |ls| ==> LatencyPuttable(ls[i])
    ensures RowsFit(LATENCY_ROW, LatencyRows(ls)) && LatenciesOf(LatencyRows(ls)) == ls
    ensures RowsShort(LatencyRows(ls)) <==> forall i :: 0 <= i < |ls| ==> |ls[i].name| <= 254
  {
    Pow8();
    hide Pow256;
    forall i | 0 <= i < |ls|
      ensures AllFit(LATENCY_ROW, LatencyRows(ls)[i]) && LatencyOf(LatencyRows(ls)[i]) == ls[i]
      ensures AllShort(LatencyRows(ls)[i]) <==> |ls[i].name| <= 254
    {
      assert LatencyRows(ls)[i][0] == B(ls[i].name);
    }
    hide AllFit, AllShort;
  }

  lemma LatenciesOfOk(rows: seq<seq<Field>>)
    requires RowsFit(LATENCY_ROW, rows)
    ensures forall i :: 0 <= i < |rows| ==> LatencyPuttable(LatenciesOf(rows)[i])
    ensures LatencyRows(LatenciesOf(rows)) == rows
  {
    Pow8();
    hide Pow256;
    forall i | 0 <= i < |rows|
      ensures LatencyPuttable(LatenciesOf(rows)[i]) && LatencyFields(LatenciesOf(rows)[i]) == rows[i]
    {
      assert AllFit(LATENCY_ROW, rows[i]);
    }
  }

  lemma SlotRowsOk(ss: seq<SetupSlot>)
    requires forall i :: 0 <= i < |ss| ==> SlotPuttable(ss[i]) && SlotInWidth(ss[i])
    ensures RowsFit(SLOT_ROW, SlotRows(ss)) && SlotsOf(SlotRows(ss)) == ss
    ensures RowsShort(SlotRows(ss)) <==> forall i :: 0 <= i < |ss| ==> |ss[i].name| <= 254
  {
    Pow8();
    hide Pow256;
    forall i | 0 <= i < |ss|
      ensures AllFit(SLOT_ROW, SlotRows(ss)[i]) && SlotOf(SlotRows(ss)[i]) == ss[i]
      ensures AllShort(SlotRows(ss)[i]) <==> |ss[i].name| <= 254
    {
      assert SlotRows(ss)[i][3] == B(ss[i].name);
    }
    hide AllFit, AllShort;
  }

  lemma SlotsOfOk(rows: seq<seq<Field>>)
    requires RowsFit(SLOT_ROW, rows)
    ensures forall i :: 0 <= i < |rows| ==> SlotPuttable(SlotsOf(rows)[i]) && SlotInWidth(SlotsOf(rows)[i])
    ensures SlotRows(SlotsOf(rows)) == rows
  {
    Pow8();
    hide Pow256;
    forall i | 0 <= i < |rows|
      ensures SlotPuttable(SlotsOf(rows)[i]) && SlotInWidth(SlotsOf(rows)[i]) && SlotFields(SlotsOf(rows)[i]) == rows[i]
    {
      assert AllFit(SLOT_ROW, rows[i]);
    }
  }

  // ---- whole messages ----

  function HeadFields(m: Message): seq<Field> {
    match m
    case TestClient(c, l, p) => [N(c), N(l), B(p)]
    case ActionPack(c, l, a, _) => [N(c), N(l), N(a)]
    case StoryConfirm(c, l, y, n, _) => [N(c), N(l), N(y), N(n)]
    case TestServer(s, p) => [N(s), B(p)]
    case ActionConfirm(s, a, n, _) => [N(s), N(a), N(n)]
    case StoryPack(s, y, _) => [N(s), N(y)]
    case LatencyReport(s, _) => [N(s)]
    case Join(y, c, l, a, i, n, f) => [N(y), N(c), N(l), N(a), N(i), B(n), B(f)]
    case Leave(y, c, l, a) => [N(y), N(c), N(l), N(a)]
    case Request(y, c, l) => [N(y), N(c), N(l)]
    case Setup(y, n, d, _, _) => [N(y), B(n), B(d)]
  }

  function RowsOf(m: Message): seq<seq<Field>>
    requires Puttable(m)
  {
    match m
    case ActionPack(_, _, _, es) => EntryRows(es)
    case StoryPack(_, _, es) => EntryRows(es)
    case StoryConfirm(_, _, _, _, rs) => RangeRows(rs)
    case ActionConfirm(_, _, _, rs) => RangeRows(rs)
    case LatencyReport(_, ls) => LatencyRows(ls)
    case Setup(_, _, _, ss, _) => SlotRows(ss)
    case _ => []
  }

  function TailFields(m: Message): seq<Field> {
    if m.Setup? then [N(m.state)] else []
  }

  function PartsOf(m: Message): Parts
    requires Puttable(m)
  {
    Parts(HeadFields(m), RowsOf(m), TailFields(m))
  }

  function MessageOf(k: Kind, p: Parts): Message
    requires PartsFit(LayoutOf(k), p)
  {
    var h := p.head;
    match k
    case KTestClient => TestClient(h[0].n, h[1].n, h[2].bytes)
    case KActionPack => ActionPack(h[0].n, h[1].n, h[2].n, EntriesOf(p.rows))
    case KStoryConfirm => StoryConfirm(h[0].n, h[1].n, h[2].n, h[3].n, RangesOf(p.rows))
    case KTestServer => TestServer(h[0].n, h[1].bytes)
    case KActionConfirm => ActionConfirm(h[0].n, h[1].n, h[2].n, RangesOf(p.rows))
    case KStoryPack => StoryPack(h[0].n, h[1].n, EntriesOf(p.rows))
    case KLatencyReport => LatencyReport(h[0].n, LatenciesOf(p.rows))
    case KJoin => Pow8(); Join(h[0].n, h[1].n, h[2].n, h[3].n, h[4].n, h[5].bytes, h[6].bytes)
    case KLeave => Leave(h[0].n, h[1].n, h[2].n, h[3].n)
    case KRequest => Request(h[0].n, h[1].n, h[2].n)
    case KSetup => Pow8(); Setup(h[0].n, h[1].bytes, h[2].bytes, SlotsOf(p.rows), p.tail[0].n)
  }

  lemma RowsWritableOf(m: Message)
    requires Puttable(m)
    ensures Row(KindOf(m)).Some? ==> RowsWritable(Row(KindOf(m)).value, RowsOf(m))
  {
  }

  lemma HeadWritable(m: Message)
    requires Puttable(m)
    ensures AllWritable(Head(KindOf(m)), HeadFields(m))
  {
  }

  /** What Put appends to the buffer. */
  function Encode(m: Message): Bytes
    requires Puttable(m)
  {
    HeadWritable(m);
    RowsWritableOf(m);
    PutParts(LayoutOf(KindOf(m)), PartsOf(m))
  }

  datatype Decoded = Ok(message: Message, rest: Bytes) | Err(error: Error)

  /** What Get makes of a buffer: the message and the bytes that are left. */
  function Decode(k: Kind, buf: Bytes): Decoded {
    var (d, p) := ReadParts(buf, LayoutOf(k));
    if d.Failed? then Err(d.error)
    else PartsConsume(buf, LayoutOf(k)); Ok(MessageOf(k, p), d.buf)
  }
}
