/** The bytes of every message, written out. */
module MessageBytes {
  import opened Streams
  import opened Ranges
  import opened Wire
  import opened Messages

  // ---- fields ----

  /** Four bytes, lowest first. */
  function Word(n: nat): Bytes {
    [n % 256, n / 0x100 % 256, n / 0x1_0000 % 256, n / 0x100_0000 % 256]
  }

  /** A duration in eight bytes, lowest first; a negative one counts down from 2 to the 64th. */
  function Duration(d: int): Bytes
    requires IsDuration(d)
  {
    var n: nat := if d < 0 then 0x1_0000_0000_0000_0000 + d else d;
    [n % 256, n / 0x100 % 256, n / 0x1_0000 % 256, n / 0x100_0000 % 256, n / 0x1_0000_0000 % 256,
     n / 0x100_0000_0000 % 256, n / 0x1_0000_0000_0000 % 256, n / 0x100_0000_0000_0000 % 256]
  }

  /** A byte string after its length. */
  function Counted(b: Bytes): Bytes
    requires |b| <= 255
  {
    [|b|] + b
  }

  function EntryBytes(e: Entry): Bytes
    requires EntryPuttable(e)
  {
    Word(e.seqNo) + Duration(e.delay) + Counted(e.payload)
  }

  /** The first and the last number of the range. */
  function RangeBytes(r: Range): Bytes
    requires r.Valid()
  {
    Word(r.start) + Word(r.start + r.length - 1)
  }

  function LatencyBytes(a: ActorLatency): Bytes
    requires LatencyPuttable(a)
  {
    Counted(a.name) + [a.state] + Duration(a.latency)
  }

  function SlotBytes(s: SetupSlot): Bytes
    requires SlotPuttable(s)
  {
    Word(s.story) + Word(s.actor) + [s.availability] + Counted(s.name) + Duration(s.latency)
  }

  function EntriesBytes(es: seq<Entry>): Bytes
    requires forall i :: 0 <= i < |es| ==> EntryPuttable(es[i])
  {
    if es == [] then [] else EntriesBytes(es[..|es| - 1]) + EntryBytes(es[|es| - 1])
  }

  function RangesBytes(rs: seq<Range>): Bytes
    requires forall i :: 0 <= i < |rs| ==> rs[i].Valid()
  {
    if rs == [] then [] else RangesBytes(rs[..|rs| - 1]) + RangeBytes(rs[|rs| - 1])
  }

  function LatenciesBytes(ls: seq<ActorLatency>): Bytes
    requires forall i :: 0 <= i < |ls| ==> LatencyPuttable(ls[i])
  {
    if ls == [] then [] else LatenciesBytes(ls[..|ls| - 1]) + LatencyBytes(ls[|ls| - 1])
  }

  function SlotsBytes(ss: seq<SetupSlot>): Bytes
    requires forall i :: 0 <= i < |ss| ==> SlotPuttable(ss[i])
  {
    if ss == [] then [] else SlotsBytes(ss[..|ss| - 1]) + SlotBytes(ss[|ss| - 1])
  }

  // ---- messages ----

  /** Several words, one after the other. */
  function Words(ns: seq<nat>): Bytes {
    if ns == [] then [] else Words(ns[..|ns| - 1]) + Word(ns[|ns| - 1])
  }

  /** A list after its length, which is cut to a byte. */
  function Listed(count: nat, rows: Bytes): Bytes {
    [count % 256] + rows
  }

  /** The bytes <u*>, then the category 3 of stories or 2 of lobbies, then the type or command, if any. */
  function FrontBytes(m: Message): Bytes {
    match m
    case TestClient(_, _, _) => [0x3C, 0x75, 0x2A, 0x3E, 3, 0]
    case ActionPack(_, _, _, _) => [0x3C, 0x75, 0x2A, 0x3E, 3, 1]
    case StoryConfirm(_, _, _, _, _) => [0x3C, 0x75, 0x2A, 0x3E, 3, 2]
    case TestServer(_, _) => [0x3C, 0x75, 0x2A, 0x3E, 3, 0]
    case ActionConfirm(_, _, _, _) => [0x3C, 0x75, 0x2A, 0x3E, 3, 1]
    case StoryPack(_, _, _) => [0x3C, 0x75, 0x2A, 0x3E, 3, 2]
    case LatencyReport(_, _) => [0x3C, 0x75, 0x2A, 0x3E, 3, 3]
    case Join(_, _, _, _, _, _, _) => [0x3C, 0x75, 0x2A, 0x3E, 2, 1]
    case Leave(_, _, _, _) => [0x3C, 0x75, 0x2A, 0x3E, 2, 2]
    case Request(_, _, _) => [0x3C, 0x75, 0x2A, 0x3E, 2, 3]
    case Setup(_, _, _, _, _) => [0x3C, 0x75, 0x2A, 0x3E, 2]
  }

  function FieldBytes(m: Message): Bytes
    requires Puttable(m)
  {
    match m
    case TestClient(client, latency, payload) => Words([client, latency]) + Counted(payload)
    case ActionPack(client, latency, actor, _) => Words([client, latency, actor])
    case StoryConfirm(client, latency, story, last, _) => Words([client, latency, story, last])
    case TestServer(session, payload) => Words([session]) + Counted(payload)
    case ActionConfirm(session, actor, last, _) => Words([session, actor, last])
    case StoryPack(session, story, _) => Words([session, story])
    case LatencyReport(session, _) => Words([session])
    case Join(lobby, client, latency, actor, slot, name, config) =>
      Words([lobby, client, latency, actor]) + [slot] + Counted(name) + Counted(config)
    case Leave(lobby, client, latency, actor) => Words([lobby, client, latency, actor])
    case Request(lobby, client, latency) => Words([lobby, client, latency])
    case Setup(lobby, name, def, _, _) => Words([lobby]) + Counted(name) + Counted(def)
  }

  function ListBytes(m: Message): Bytes
    requires Puttable(m)
  {
    match m
    case ActionPack(_, _, _, es) => Listed(|es|, EntriesBytes(es))
    case StoryPack(_, _, es) => Listed(|es|, EntriesBytes(es))
    case StoryConfirm(_, _, _, _, rs) => Listed(|rs|, RangesBytes(rs))
    case ActionConfirm(_, _, _, rs) => Listed(|rs|, RangesBytes(rs))
    case LatencyReport(_, ls) => Listed(|ls|, LatenciesBytes(ls))
    case Setup(_, _, _, ss, _) => Listed(|ss|, SlotsBytes(ss))
    case _ => []
  }

  function EndBytes(m: Message): Bytes {
    if m.Setup? then [m.state] else []
  }

  // ---- the encoding writes just these bytes ----

  lemma PutWord(n: nat)
    ensures PutField(WORD, N(n)) == Word(n)
  {
    assert LE(4, n) == [n % 256] + LE(3, n / 256);
    assert LE(3, n / 256) == [n / 256 % 256] + LE(2, n / 256 / 256);
    assert LE(2, n / 256 / 256) == [n / 256 / 256 % 256] + LE(1, n / 256 / 256 / 256);
    assert LE(1, n / 256 / 256 / 256) == [n / 256 / 256 / 256 % 256] + LE(0, n / 256 / 256 / 256 / 256);
  }

  lemma PutLong(d: int)
    requires IsDuration(d)
    ensures PutField(LONG, N(Unsigned(d))) == Duration(d)
  {
    var n := Unsigned(d);
    var high := n / 0x1_0000_0000;
    PutWord(n);
    PutWord(high);
    SplitLE(4, n);
    ShiftedFour(n);
    HighBytes(n);
    hide LE, Shifted;
  }

  lemma HighBytes(n: nat)
    ensures var high := n / 0x1_0000_0000;
      && high / 0x100 == n / 0x100_0000_0000
      && high / 0x1_0000 == n / 0x1_0000_0000_0000
      && high / 0x100_0000 == n / 0x100_0000_0000_0000
  {
  }

  lemma LEStep(w: nat, n: nat)
    ensures LE(w + 1, n) == [n % 256] + LE(w, n / 256)
  {
  }

  function Shifted(n: nat, w: nat): nat {
    if w == 0 then n else Shifted(n / 256, w - 1)
  }

  lemma ShiftedFour(n: nat)
    ensures Shifted(n, 4) == n / 0x1_0000_0000
  {
    assert Shifted(n, 4) == Shifted(n / 256, 3) == Shifted(n / 256 / 256, 2);
    assert Shifted(n / 256 / 256, 2) == Shifted(n / 256 / 256 / 256, 1) == n / 256 / 256 / 256 / 256;
    hide Shifted;
    var two := n / 0x1_0000;
    assert n / 256 / 256 == two && two / 256 / 256 == two / 0x1_0000 == n / 0x1_0000_0000;
  }

  lemma {:induction false} SplitLE(w: nat, n: nat)
    ensures LE(w + 4, n) == LE(w, n) + LE(4, Shifted(n, w))
  {
    if w > 0 {
      SplitLE(w - 1, n / 256);
      LEStep(w + 3, n);
      LEStep(w - 1, n);
      hide LE;
    }
  }

  lemma PutSmall(n: nat)
    ensures PutField(SMALL, N(n)) == LE(1, n) == [n % 256]
  {
    assert LE(1, n) == [n % 256] + LE(0, n / 256);
  }

  lemma PutMore(ss: seq<Shape>, fs: seq<Field>, s: Shape, f: Field)
    requires AllWritable(ss, fs) && Writable(s, f)
    ensures AllWritable(ss + [s], fs + [f])
    ensures PutFields(ss + [s], fs + [f]) == PutFields(ss, fs) + PutField(s, f)
  {
    assert (ss + [s])[..|ss|] == ss && (fs + [f])[..|fs|] == fs;
    PutFieldsStep(ss + [s], fs + [f], []);
    hide PutFields, PutField;
  }

  lemma PutTwo(a: Shape, b: Shape, x: Field, y: Field)
    requires Writable(a, x) && Writable(b, y)
    ensures AllWritable([a, b], [x, y]) && PutFields([a, b], [x, y]) == PutField(a, x) + PutField(b, y)
  {
    PutOne(a, x);
    PutMore([a], [x], b, y);
    assert [a] + [b] == [a, b] && [x] + [y] == [x, y];
  }

  lemma PutOne(a: Shape, x: Field)
    requires Writable(a, x)
    ensures AllWritable([a], [x]) && PutFields([a], [x]) == PutField(a, x)
  {
    PutMore([], [], a, x);
    assert [] + [a] == [a] && [] + [x] == [x] && PutFields([], []) == [];
  }

  lemma PutThree(a: Shape, b: Shape, c: Shape, x: Field, y: Field, z: Field)
    requires Writable(a, x) && Writable(b, y) && Writable(c, z)
    ensures AllWritable([a, b, c], [x, y, z])
    ensures PutFields([a, b, c], [x, y, z]) == PutField(a, x) + PutField(b, y) + PutField(c, z)
  {
    PutTwo(a, b, x, y);
    PutMore([a, b], [x, y], c, z);
    assert [a, b] + [c] == [a, b, c] && [x, y] + [z] == [x, y, z];
  }

  lemma PutFour(a: Shape, b: Shape, c: Shape, d: Shape, x: Field, y: Field, z: Field, u: Field)
    requires Writable(a, x) && Writable(b, y) && Writable(c, z) && Writable(d, u)
    ensures AllWritable([a, b, c, d], [x, y, z, u])
    ensures PutFields([a, b, c, d], [x, y, z, u]) == PutField(a, x) + PutField(b, y) + PutField(c, z) + PutField(d, u)
  {
    PutThree(a, b, c, x, y, z);
    PutMore([a, b, c], [x, y, z], d, u);
    assert [a, b, c] + [d] == [a, b, c, d] && [x, y, z] + [u] == [x, y, z, u];
  }

  lemma PutFive(a: Shape, b: Shape, c: Shape, d: Shape, e: Shape, x: Field, y: Field, z: Field, u: Field, v: Field)
    requires Writable(a, x) && Writable(b, y) && Writable(c, z) && Writable(d, u) && Writable(e, v)
    ensures AllWritable([a, b, c, d, e], [x, y, z, u, v])
    ensures PutFields([a, b, c, d, e], [x, y, z, u, v]) ==
            PutField(a, x) + PutField(b, y) + PutField(c, z) + PutField(d, u) + PutField(e, v)
  {
    PutFour(a, b, c, d, x, y, z, u);
    PutMore([a, b, c, d], [x, y, z, u], e, v);
    assert [a, b, c, d] + [e] == [a, b, c, d, e] && [x, y, z, u] + [v] == [x, y, z, u, v];
  }

  // ---- rows ----

  lemma EntryIs(e: Entry)
    requires EntryPuttable(e)
    ensures AllWritable(ENTRY_ROW, EntryFields(e)) && PutFields(ENTRY_ROW, EntryFields(e)) == EntryBytes(e)
  {
    PutWord(e.seqNo);
    PutLong(e.delay);
    hide LE, Word, Duration;
    PutThree(WORD, LONG, Blob, N(e.seqNo), N(Unsigned(e.delay)), B(e.payload));
  }

  lemma RangeIs(r: Range)
    requires r.Valid()
    ensures AllWritable(RANGE_ROW, RangeFields(r)) && PutFields(RANGE_ROW, RangeFields(r)) == RangeBytes(r)
  {
    PutWord(r.From());
    PutWord(r.To());
    hide LE, Word;
    PutOne(Span, R(r.From(), r.To()));
  }

  lemma LatencyIs(a: ActorLatency)
    requires LatencyPuttable(a)
    ensures AllWritable(LATENCY_ROW, LatencyFields(a)) && PutFields(LATENCY_ROW, LatencyFields(a)) == LatencyBytes(a)
  {
    PutLong(a.latency);
    PutSmall(a.state);
    hide LE, Duration;
    PutThree(Blob, SMALL, LONG, B(a.name), N(a.state), N(Unsigned(a.latency)));
  }

  lemma SlotIs(s: SetupSlot)
    requires SlotPuttable(s)
    ensures AllWritable(SLOT_ROW, SlotFields(s)) && PutFields(SLOT_ROW, SlotFields(s)) == SlotBytes(s)
  {
    PutWord(s.story);
    PutWord(s.actor);
    PutSmall(s.availability);
    PutLong(s.latency);
    hide LE, Word, Duration;
    PutFive(WORD, WORD, SMALL, Blob, LONG,
            N(s.story), N(s.actor), N(s.availability), B(s.name), N(Unsigned(s.latency)));
  }

  lemma {:induction false} EntriesAre(es: seq<Entry>)
    requires forall i :: 0 <= i < |es| ==> EntryPuttable(es[i])
    ensures RowsWritable(ENTRY_ROW, EntryRows(es)) && PutRows(ENTRY_ROW, EntryRows(es)) == EntriesBytes(es)
  {
    if es != [] {
      EntriesAre(es[..|es| - 1]);
      EntriesMore(es);
    }
  }

  lemma EntriesMore(es: seq<Entry>)
    requires es != [] && forall i :: 0 <= i < |es| ==> EntryPuttable(es[i])
    requires var init := es[..|es| - 1];
      RowsWritable(ENTRY_ROW, EntryRows(init)) && PutRows(ENTRY_ROW, EntryRows(init)) == EntriesBytes(init)
    ensures RowsWritable(ENTRY_ROW, EntryRows(es)) && PutRows(ENTRY_ROW, EntryRows(es)) == EntriesBytes(es)
  {
    hide EntryFields, EntryBytes, EntryPuttable, PutRows, RowsWritable, PutFields, AllWritable;
    var n := |es| - 1;
    assert EntryRows(es)[..n] == EntryRows(es[..n]);
    EntryIs(es[n]);
    RowsMore(ENTRY_ROW, EntryRows(es));
  }

  lemma RowsMore(row: seq<Shape>, rows: seq<seq<Field>>)
    requires rows != [] && RowsWritable(row, rows[..|rows| - 1]) && AllWritable(row, rows[|rows| - 1])
    ensures RowsWritable(row, rows)
    ensures PutRows(row, rows) == PutRows(row, rows[..|rows| - 1]) + PutFields(row, rows[|rows| - 1])
  {
    hide AllWritable, PutFields;
    forall i | 0 <= i < |rows| ensures AllWritable(row, rows[i]) {
      if i < |rows| - 1 { assert rows[..|rows| - 1][i] == rows[i]; }
    }
  }

  lemma {:induction false} RangesAre(rs: seq<Range>)
    requires forall i :: 0 <= i < |rs| ==> rs[i].Valid()
    ensures RowsWritable(RANGE_ROW, RangeRows(rs)) && PutRows(RANGE_ROW, RangeRows(rs)) == RangesBytes(rs)
  {
    if rs != [] {
      RangesAre(rs[..|rs| - 1]);
      RangesMore(rs);
    }
  }

  lemma RangesMore(rs: seq<Range>)
    requires rs != [] && forall i :: 0 <= i < |rs| ==> rs[i].Valid()
    requires var init := rs[..|rs| - 1];
      RowsWritable(RANGE_ROW, RangeRows(init)) && PutRows(RANGE_ROW, RangeRows(init)) == RangesBytes(init)
    ensures RowsWritable(RANGE_ROW, RangeRows(rs)) && PutRows(RANGE_ROW, RangeRows(rs)) == RangesBytes(rs)
  {
    hide RangeFields, RangeBytes, PutRows, RowsWritable, PutFields, AllWritable;
    var n := |rs| - 1;
    assert RangeRows(rs)[..n] == RangeRows(rs[..n]);
    RangeIs(rs[n]);
    RowsMore(RANGE_ROW, RangeRows(rs));
  }

  lemma {:induction false} LatenciesAre(ls: seq<ActorLatency>)
    requires forall i :: 0 <= i < |ls| ==> LatencyPuttable(ls[i])
    ensures RowsWritable(LATENCY_ROW, LatencyRows(ls)) && PutRows(LATENCY_ROW, LatencyRows(ls)) == LatenciesBytes(ls)
  {
    if ls != [] {
      LatenciesAre(ls[..|ls| - 1]);
      LatenciesMore(ls);
    }
  }

  lemma LatenciesMore(ls: seq<ActorLatency>)
    requires ls != [] && forall i :: 0 <= i < |ls| ==> LatencyPuttable(ls[i])
    requires var init := ls[..|ls| - 1];
      RowsWritable(LATENCY_ROW, LatencyRows(init)) && PutRows(LATENCY_ROW, LatencyRows(init)) == LatenciesBytes(init)
    ensures RowsWritable(LATENCY_ROW, LatencyRows(ls)) && PutRows(LATENCY_ROW, LatencyRows(ls)) == LatenciesBytes(ls)
  {
    hide LatencyFields, LatencyBytes, LatencyPuttable, PutRows, RowsWritable, PutFields, AllWritable;
    var n := |ls| - 1;
    assert LatencyRows(ls)[..n] == LatencyRows(ls[..n]);
    LatencyIs(ls[n]);
    RowsMore(LATENCY_ROW, LatencyRows(ls));
  }

  lemma {:induction false} SlotsAre(ss: seq<SetupSlot>)
    requires forall i :: 0 <= i < |ss| ==> SlotPuttable(ss[i])
    ensures RowsWritable(SLOT_ROW, SlotRows(ss)) && PutRows(SLOT_ROW, SlotRows(ss)) == SlotsBytes(ss)
  {
    if ss != [] {
      SlotsAre(ss[..|ss| - 1]);
      SlotsMore(ss);
    }
  }

  lemma SlotsMore(ss: seq<SetupSlot>)
    requires ss != [] && forall i :: 0 <= i < |ss| ==> SlotPuttable(ss[i])
    requires var init := ss[..|ss| - 1];
      RowsWritable(SLOT_ROW, SlotRows(init)) && PutRows(SLOT_ROW, SlotRows(init)) == SlotsBytes(init)
    ensures RowsWritable(SLOT_ROW, SlotRows(ss)) && PutRows(SLOT_ROW, SlotRows(ss)) == SlotsBytes(ss)
  {
    hide SlotFields, SlotBytes, SlotPuttable, PutRows, RowsWritable, PutFields, AllWritable;
    var n := |ss| - 1;
    assert SlotRows(ss)[..n] == SlotRows(ss[..n]);
    SlotIs(ss[n]);
    RowsMore(SLOT_ROW, SlotRows(ss));
  }

  // ---- whole messages ----

  function WordFields(ns: seq<nat>): seq<Field> {
    seq(|ns|, i requires 0 <= i < |ns| => N(ns[i]))
  }

  function WordShapes(n: nat): seq<Shape> {
    seq(n, i => WORD)
  }

  lemma {:induction false} PutWords(ns: seq<nat>)
    ensures AllWritable(WordShapes(|ns|), WordFields(ns))
    ensures PutFields(WordShapes(|ns|), WordFields(ns)) == Words(ns)
  {
    if ns != [] {
      var n := |ns| - 1;
      PutWords(ns[..n]);
      PutWord(ns[n]);
      hide PutFields, Word, PutField, AllWritable;
      PutMore(WordShapes(n), WordFields(ns[..n]), WORD, N(ns[n]));
      assert WordShapes(n) + [WORD] == WordShapes(n + 1);
      assert WordFields(ns[..n]) + [N(ns[n])] == WordFields(ns);
    }
  }

  /** One more byte string behind fields that are written as w. */
  lemma StringMore(s: seq<Shape>, f: seq<Field>, w: Bytes, b: Bytes)
    requires AllWritable(s, f) && PutFields(s, f) == w && |b| <= 255
    ensures AllWritable(s + [Blob], f + [B(b)]) && PutFields(s + [Blob], f + [B(b)]) == w + Counted(b)
  {
    hide PutFields;
    PutMore(s, f, Blob, B(b));
  }

  lemma WithString(ns: seq<nat>, b: Bytes)
    requires |b| <= 255
    ensures var s, f := WordShapes(|ns|) + [Blob], WordFields(ns) + [B(b)];
      AllWritable(s, f) && PutFields(s, f) == Words(ns) + Counted(b)
  {
    hide *;
    PutWords(ns);
    StringMore(WordShapes(|ns|), WordFields(ns), Words(ns), b);
  }

  lemma WithTwoStrings(ns: seq<nat>, a: Bytes, b: Bytes)
    requires |a| <= 255 && |b| <= 255
    ensures var s, f := WordShapes(|ns|) + [Blob] + [Blob], WordFields(ns) + [B(a)] + [B(b)];
      AllWritable(s, f) && PutFields(s, f) == Words(ns) + Counted(a) + Counted(b)
  {
    hide *;
    WithString(ns, a);
    StringMore(WordShapes(|ns|) + [Blob], WordFields(ns) + [B(a)], Words(ns) + Counted(a), b);
  }

  lemma WithByteAndStrings(ns: seq<nat>, x: Byte, a: Bytes, b: Bytes)
    requires |a| <= 255 && |b| <= 255
    ensures var s, f := WordShapes(|ns|) + [SMALL] + [Blob] + [Blob], WordFields(ns) + [N(x)] + [B(a)] + [B(b)];
      AllWritable(s, f) && PutFields(s, f) == Words(ns) + [x] + Counted(a) + Counted(b)
  {
    WithByte(ns, x);
    hide *;
    var s, f, w := WordShapes(|ns|) + [SMALL], WordFields(ns) + [N(x)], Words(ns) + [x];
    StringMore(s, f, w, a);
    StringMore(s + [Blob], f + [B(a)], w + Counted(a), b);
  }

  lemma WithByte(ns: seq<nat>, x: Byte)
    ensures var s, f := WordShapes(|ns|) + [SMALL], WordFields(ns) + [N(x)];
      AllWritable(s, f) && PutFields(s, f) == Words(ns) + [x]
  {
    hide *;
    PutWords(ns);
    PutByte(x);
    PutMore(WordShapes(|ns|), WordFields(ns), SMALL, N(x));
  }

  lemma PutByte(x: Byte)
    ensures Writable(SMALL, N(x)) && PutField(SMALL, N(x)) == [x]
  {
    PutSmall(x);
  }

  ghost predicate FieldsAre(m: Message)
    requires Puttable(m)
  {
    AllWritable(Head(KindOf(m)), HeadFields(m)) && PutFields(Head(KindOf(m)), HeadFields(m)) == FieldBytes(m)
  }

  lemma JustWords(m: Message, ns: seq<nat>)
    requires Puttable(m) && Head(KindOf(m)) == WordShapes(|ns|) && HeadFields(m) == WordFields(ns)
    requires FieldBytes(m) == Words(ns)
    ensures FieldsAre(m)
  {
    PutWords(ns);
    hide PutFields, WordShapes, WordFields, Words, Head, HeadFields, FieldBytes, Puttable;
  }

  lemma TestFields(m: Message)
    requires (m.TestClient? || m.TestServer?) && Puttable(m)
    ensures FieldsAre(m)
  {
    var ns := if m.TestClient? then [m.client, m.latency] else [m.session];
    WithString(ns, m.payload);
    assert FieldBytes(m) == Words(ns) + Counted(m.payload);
    assert HeadFields(m) == WordFields(ns) + [B(m.payload)] && Head(KindOf(m)) == WordShapes(|ns|) + [Blob];
    hide PutFields, WordShapes, WordFields, Words, Head, HeadFields, FieldBytes, Puttable;
  }

  lemma JoinFieldsAre(m: Message)
    requires m.Join? && Puttable(m)
    ensures FieldsAre(m)
  {
    var ns := [m.lobby, m.client, m.latency, m.actor];
    WithByteAndStrings(ns, m.slot, m.name, m.config);
    assert FieldBytes(m) == Words(ns) + [m.slot] + Counted(m.name) + Counted(m.config);
    assert HeadFields(m) == WordFields(ns) + [N(m.slot)] + [B(m.name)] + [B(m.config)];
    assert Head(KindOf(m)) == WordShapes(4) + [SMALL] + [Blob] + [Blob];
    hide PutFields, WordShapes, WordFields, Words, Head, HeadFields, FieldBytes, Puttable;
  }

  lemma SetupFieldsAre(m: Message)
    requires m.Setup? && Puttable(m)
    ensures FieldsAre(m)
  {
    var ns := [m.lobby];
    WithTwoStrings(ns, m.name, m.def);
    assert FieldBytes(m) == Words(ns) + Counted(m.name) + Counted(m.def);
    assert HeadFields(m) == WordFields(ns) + [B(m.name)] + [B(m.def)];
    assert Head(KindOf(m)) == WordShapes(1) + [Blob] + [Blob];
    hide PutFields, WordShapes, WordFields, Words, Head, HeadFields, FieldBytes, Puttable;
  }

  lemma AllFieldsAre(m: Message)
    requires Puttable(m)
    ensures FieldsAre(m)
  {
    hide FieldsAre, Words, PutFields;
    match m
    case ActionPack(c, l, a, _) => JustWords(m, [c, l, a]);
    case StoryConfirm(c, l, y, n, _) => JustWords(m, [c, l, y, n]);
    case ActionConfirm(s, a, n, _) => JustWords(m, [s, a, n]);
    case StoryPack(s, y, _) => JustWords(m, [s, y]);
    case LatencyReport(s, _) => JustWords(m, [s]);
    case Leave(y, c, l, a) => JustWords(m, [y, c, l, a]);
    case Request(y, c, l) => JustWords(m, [y, c, l]);
    case Join(_, _, _, _, _, _, _) => JoinFieldsAre(m);
    case Setup(_, _, _, _, _) => SetupFieldsAre(m);
    case _ => TestFields(m);
  }

  ghost predicate ListIs(m: Message)
    requires Puttable(m)
  {
    && (Row(KindOf(m)).Some? ==> RowsWritable(Row(KindOf(m)).value, RowsOf(m)))
    && PutList(Row(KindOf(m)), RowsOf(m)) == ListBytes(m)
  }

  lemma ListOf(m: Message, row: seq<Shape>, rows: seq<seq<Field>>, bytes: Bytes)
    requires Puttable(m) && Row(KindOf(m)).Some? && Row(KindOf(m)).value == row && RowsOf(m) == rows
    requires RowsWritable(row, rows) && PutRows(row, rows) == bytes && ListBytes(m) == Listed(|rows|, bytes)
    ensures ListIs(m)
  {
    PutSmall(|rows|);
    hide RowsWritable, PutRows, ListBytes, LE, Row, RowsOf, Puttable;
  }

  lemma AllListsAre(m: Message)
    requires Puttable(m)
    ensures ListIs(m)
  {
    hide RowsWritable, PutRows, EntriesBytes, RangesBytes, LatenciesBytes, SlotsBytes;
    hide EntryRows, RangeRows, LatencyRows, SlotRows;
    match m
    case ActionPack(_, _, _, es) => EntryList(m, es);
    case StoryPack(_, _, es) => EntryList(m, es);
    case StoryConfirm(_, _, _, _, rs) => RangeList(m, rs);
    case ActionConfirm(_, _, _, rs) => RangeList(m, rs);
    case LatencyReport(_, ls) => LatencyList(m);
    case Setup(_, _, _, ss, _) => SlotList(m);
    case _ =>
  }

  lemma EntryList(m: Message, es: seq<Entry>)
    requires Puttable(m) && ((m.ActionPack? && es == m.actions) || (m.StoryPack? && es == m.stories))
    ensures ListIs(m)
  {
    hide EntriesBytes, EntryFields, EntryBytes, PutRows, RowsWritable;
    EntriesAre(es);
    assert |EntryRows(es)| == |es| && RowsOf(m) == EntryRows(es);
    assert Row(KindOf(m)).Some? && Row(KindOf(m)).value == ENTRY_ROW;
    assert ListBytes(m) == Listed(|EntryRows(es)|, EntriesBytes(es));
    hide *;
    ListOf(m, ENTRY_ROW, EntryRows(es), EntriesBytes(es));
  }

  lemma RangeList(m: Message, rs: seq<Range>)
    requires Puttable(m) && ((m.StoryConfirm? || m.ActionConfirm?) && rs == m.missing)
    ensures ListIs(m)
  {
    hide RangesBytes, RangeFields, RangeBytes, PutRows, RowsWritable;
    RangesAre(rs);
    assert |RangeRows(rs)| == |rs| && RowsOf(m) == RangeRows(rs);
    assert Row(KindOf(m)).Some? && Row(KindOf(m)).value == RANGE_ROW;
    assert ListBytes(m) == Listed(|RangeRows(rs)|, RangesBytes(rs));
    hide *;
    ListOf(m, RANGE_ROW, RangeRows(rs), RangesBytes(rs));
  }

  lemma LatencyList(m: Message)
    requires Puttable(m) && m.LatencyReport?
    ensures ListIs(m)
  {
    hide LatenciesBytes, LatencyFields, LatencyBytes, PutRows, RowsWritable;
    LatenciesAre(m.latencies);
    assert |LatencyRows(m.latencies)| == |m.latencies| && RowsOf(m) == LatencyRows(m.latencies);
    assert Row(KindOf(m)).Some? && Row(KindOf(m)).value == LATENCY_ROW;
    assert ListBytes(m) == Listed(|LatencyRows(m.latencies)|, LatenciesBytes(m.latencies));
    hide *;
    ListOf(m, LATENCY_ROW, LatencyRows(m.latencies), LatenciesBytes(m.latencies));
  }

  lemma SlotList(m: Message)
    requires Puttable(m) && m.Setup?
    ensures ListIs(m)
  {
    hide SlotsBytes, SlotFields, SlotBytes, PutRows, RowsWritable;
    SlotsAre(m.slots);
    assert |SlotRows(m.slots)| == |m.slots| && RowsOf(m) == SlotRows(m.slots);
    assert Row(KindOf(m)).Some? && Row(KindOf(m)).value == SLOT_ROW;
    assert ListBytes(m) == Listed(|SlotRows(m.slots)|, SlotsBytes(m.slots));
    hide *;
    ListOf(m, SLOT_ROW, SlotRows(m.slots), SlotsBytes(m.slots));
  }

  lemma EndIs(m: Message)
    ensures var l := LayoutOf(KindOf(m));
      AllWritable(l.tail, TailFields(m)) && PutFields(l.tail, TailFields(m)) == EndBytes(m)
  {
    if m.Setup? {
      PutSmall(m.state);
      PutOne(SMALL, N(m.state));
    }
  }

  lemma FrontIs(m: Message)
    ensures LayoutOf(KindOf(m)).magic == FrontBytes(m)
  {
  }

  /** Whatever begins otherwise is not that message. */
  lemma OtherFrontIsInvalid(m: Message, b: Bytes)
    requires !(FrontBytes(m) <= b)
    ensures Decode(KindOf(m), b) == Err(InvalidMessage)
  {
    FrontIs(m);
    var l := LayoutOf(KindOf(m));
    hide LayoutOf, FrontBytes, ReadFields, ReadList;
    var d := Failed(InvalidMessage);
    FailedFields(d, l.head);
    FailedList(d, l.row);
    FailedFields(d, l.tail);
  }

  /** The two ends of a range are read back when they are in order and not zero; otherwise the program panics. */
  lemma RangesAreChecked(from: nat, to: nat, t: Bytes)
    requires from < 0x1_0000_0000 && to < 0x1_0000_0000
    ensures ReadField(Reading(Word(from) + Word(to) + t), Span).0 ==
            if 1 <= from <= to then Reading(t) else Failed(BadRange)
    ensures 1 <= from <= to ==> ReadField(Reading(Word(from) + Word(to) + t), Span).1 == R(from, to)
  {
    Pow8();
    PutWord(from);
    PutWord(to);
    hide LE, Word, Pow256, ReadNum;
    assert Word(from) + Word(to) + t == LE(4, from) + (LE(4, to) + t);
    NumRoundTrip(4, from, LE(4, to) + t);
    NumRoundTrip(4, to, t);
  }

  /** Put writes the front, the fields, the list and the end. */
  lemma EncodeIs(m: Message)
    requires Puttable(m)
    ensures Encode(m) == FrontBytes(m) + FieldBytes(m) + ListBytes(m) + EndBytes(m)
  {
    HeadWritable(m);
    RowsWritableOf(m);
    FrontIs(m);
    AllListsAre(m);
    EndIs(m);
    AllFieldsAre(m);
    hide PutFields, PutList, FieldBytes, FrontBytes, ListBytes, EndBytes, Head, HeadFields, Puttable, AllWritable;
  }
}
