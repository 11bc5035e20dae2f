/** Fields on the wire (udpstar/message/serializer.go). */
module Wire {
  import opened Streams

  type Bytes = seq<Byte>

  /** BadRange stands for the panic on a range that begins at zero or ends before it begins. */
  datatype Error = UnexpectedEof | InvalidMessage | BadRange

  /** A reader keeps its first error: once it has failed it reads nothing more. */
  datatype Reader = Reading(buf: Bytes) | Failed(error: Error)

  datatype Shape = Num(width: nat) | Blob | Span

  /** A number, a byte string with its length in front, or the two ends of a range. */
  datatype Field = N(n: nat) | B(bytes: Bytes) | R(from: nat, to: nat)

  // ---- little-endian numbers ----

  function Pow256(w: nat): (p: nat)
    ensures p >= 1
  {
    if w == 0 then 1 else 256 * Pow256(w - 1)
  }

  /** The low w bytes of n, lowest first. */
  function LE(w: nat, n: nat): (r: Bytes)
    ensures |r| == w
  {
    if w == 0 then [] else [n % 256] + LE(w - 1, n / 256)
  }

  function UnLE(b: Bytes): (n: nat)
    ensures n < Pow256(|b|)
  {
    if b == [] then 0 else b[0] + 256 * UnLE(b[1..])
  }

  lemma {:induction false} UnLEOfLE(w: nat, n: nat)
    requires n < Pow256(w)
    ensures UnLE(LE(w, n)) == n
  {
    if w > 0 {
      assert n / 256 < Pow256(w - 1);
      UnLEOfLE(w - 1, n / 256);
      assert LE(w, n)[1..] == LE(w - 1, n / 256);
    }
  }

  lemma {:induction false} LEOfUnLE(b: Bytes)
    ensures LE(|b|, UnLE(b)) == b
  {
    if b != [] {
      LEOfUnLE(b[1..]);
      var n := UnLE(b);
      assert n % 256 == b[0] && n / 256 == UnLE(b[1..]);
      assert b == [b[0]] + b[1..];
    }
  }

  // ---- one field ----

  const WORD_SIZE: nat := 0x1_0000_0000

  predicate Fits(s: Shape, f: Field) {
    match s
    case Num(w) => f.N? && f.n < Pow256(w)
    case Blob => f.B? && |f.bytes| <= 255
    case Span => f.R? && 1 <= f.from <= f.to < WORD_SIZE
  }

  /** Of a kind with the shape, and no longer than the serializer allows. */
  predicate Writable(s: Shape, f: Field) {
    match s
    case Num(_) => f.N?
    case Blob => f.B? && |f.bytes| <= 255
    case Span => f.R?
  }

  /** A byte string that the reader also steps over. */
  predicate Short(f: Field) {
    f.B? ==> |f.bytes| <= 254
  }

  function PutField(s: Shape, f: Field): Bytes
    requires Writable(s, f)
  {
    match s
    case Num(w) => LE(w, f.n)
    case Blob => [|f.bytes|] + f.bytes
    case Span => LE(4, f.from) + LE(4, f.to)
  }

  function ReadNum(d: Reader, w: nat): (Reader, nat) {
    if d.Failed? then (d, 0)
    else if |d.buf| < w then (Failed(UnexpectedEof), 0)
    else (Reading(d.buf[w..]), UnLE(d.buf[..w]))
  }

  /** Where the reader goes on after n bytes with their length in front. */
  function Next(n: Byte): nat {
    var after: nat := n; (after + 1) % 256
  }

  /** The step over the length and the bytes is computed in a byte, so that 255 bytes are not stepped over. */
  function ReadBlob(d: Reader): (Reader, Bytes) {
    if d.Failed? then (d, [])
    else if |d.buf| == 0 || |d.buf| <= d.buf[0] then (Failed(UnexpectedEof), [])
    else (Reading(d.buf[Next(d.buf[0])..]), d.buf[1..][..d.buf[0]])
  }

  function ReadSpan(d: Reader): (Reader, (nat, nat)) {
    var (d1, from) := ReadNum(d, 4);
    var (d2, to) := ReadNum(d1, 4);
    if d2.Failed? then (d2, (0, 0))
    else if from == 0 || to < from then (Failed(BadRange), (0, 0))
    else (d2, (from, to))
  }

  function ReadField(d: Reader, s: Shape): (Reader, Field) {
    match s
    case Num(w) => var (d', n) := ReadNum(d, w); (d', N(n))
    case Blob => var (d', b) := ReadBlob(d); (d', B(b))
    case Span => var (d', p) := ReadSpan(d); (d', R(p.0, p.1))
  }

  /** How many bytes the reader steps over for a field that it has read. */
  function Consumed(s: Shape, f: Field): nat {
    match s
    case Num(w) => w
    case Blob => if f.B? then (|f.bytes| + 1) % 256 else 0
    case Span => 8
  }

  /** The reader with more bytes at the end of what is left. */
  function More(d: Reader, t: Bytes): Reader {
    if d.Reading? then Reading(d.buf + t) else d
  }

  lemma NumRoundTrip(w: nat, n: nat, t: Bytes)
    requires n < Pow256(w)
    ensures ReadNum(Reading(LE(w, n) + t), w) == (Reading(t), n)
  {
    UnLEOfLE(w, n);
    assert (LE(w, n) + t)[..w] == LE(w, n) && (LE(w, n) + t)[w..] == t;
  }

  lemma BlobRoundTrip(bytes: Bytes, t: Bytes)
    requires |bytes| <= 254
    ensures ReadBlob(Reading([|bytes|] + bytes + t)) == (Reading(t), bytes)
  {
    var b := [|bytes|] + bytes + t;
    assert b[1..][..|bytes|] == bytes && b[|bytes| + 1..] == t;
  }

  lemma SpanRoundTrip(from: nat, to: nat, t: Bytes)
    requires 1 <= from <= to < WORD_SIZE
    ensures ReadSpan(Reading(LE(4, from) + LE(4, to) + t)) == (Reading(t), (from, to))
  {
    assert Pow256(4) == WORD_SIZE;
    hide Pow256, LE, ReadNum;
    assert LE(4, from) + LE(4, to) + t == LE(4, from) + (LE(4, to) + t);
    NumRoundTrip(4, from, LE(4, to) + t);
    NumRoundTrip(4, to, t);
  }

  lemma FieldRoundTrip(s: Shape, f: Field, t: Bytes)
    requires Fits(s, f) && Short(f)
    ensures ReadField(Reading(PutField(s, f) + t), s) == (Reading(t), f)
  {
    hide ReadNum, LE;
    match s
    case Num(w) => NumRoundTrip(w, f.n, t);
    case Blob => BlobRoundTrip(f.bytes, t);
    case Span => SpanRoundTrip(f.from, f.to, t);
  }

  lemma NumExtends(d: Reader, w: nat, t: Bytes)
    requires ReadNum(d, w).0 != Failed(UnexpectedEof)
    ensures ReadNum(More(d, t), w) == (More(ReadNum(d, w).0, t), ReadNum(d, w).1)
  {
    if d.Reading? {
      assert (d.buf + t)[..w] == d.buf[..w] && (d.buf + t)[w..] == d.buf[w..] + t;
    }
  }

  lemma BlobExtends(d: Reader, t: Bytes)
    requires ReadBlob(d).0 != Failed(UnexpectedEof)
    ensures ReadBlob(More(d, t)) == (More(ReadBlob(d).0, t), ReadBlob(d).1)
  {
    if d.Reading? {
      var n := d.buf[0];
      assert (d.buf + t)[1..][..n] == d.buf[1..][..n];
      assert (d.buf + t)[Next(n)..] == d.buf[Next(n)..] + t;
    }
  }

  lemma SpanExtends(d: Reader, t: Bytes)
    requires ReadSpan(d).0 != Failed(UnexpectedEof)
    ensures ReadSpan(More(d, t)) == (More(ReadSpan(d).0, t), ReadSpan(d).1)
  {
    hide UnLE;
    var d1 := ReadNum(d, 4).0;
    assert d1 != Failed(UnexpectedEof) && ReadNum(d1, 4).0 != Failed(UnexpectedEof);
    NumExtends(d, 4, t);
    NumExtends(d1, 4, t);
  }

  /** Unless it runs out of bytes, a read does not depend on what follows. */
  lemma FieldExtends(d: Reader, s: Shape, t: Bytes)
    requires ReadField(d, s).0 != Failed(UnexpectedEof)
    ensures ReadField(More(d, t), s) == (More(ReadField(d, s).0, t), ReadField(d, s).1)
  {
    hide ReadNum, ReadBlob, ReadSpan;
    match s
    case Num(w) => NumExtends(d, w, t);
    case Blob => BlobExtends(d, t);
    case Span => SpanExtends(d, t);
  }

  lemma FieldConsumes(b: Bytes, s: Shape)
    requires ReadField(Reading(b), s).0.Reading?
    ensures var (d, f) := ReadField(Reading(b), s); Fits(s, f) && |b| == |d.buf| + Consumed(s, f)
  {
    if s.Span? { assert Pow256(4) == WORD_SIZE; }
  }

  lemma NumBack(d: Reader, w: nat)
    requires ReadNum(d, w).0.Reading?
    ensures d.Reading? && var (d', n) := ReadNum(d, w); n < Pow256(w) && d.buf == LE(w, n) + d'.buf
  {
    hide LE, UnLE;
    LEOfUnLE(d.buf[..w]);
    assert d.buf == d.buf[..w] + d.buf[w..];
  }

  /** A field that is stepped over was written just like that. */
  lemma FieldBack(b: Bytes, s: Shape)
    requires var (d, f) := ReadField(Reading(b), s); d.Reading? && Short(f)
    ensures var (d, f) := ReadField(Reading(b), s); Fits(s, f) && b == PutField(s, f) + d.buf
  {
    FieldConsumes(b, s);
    match s
    case Num(w) => NumBack(Reading(b), w);
    case Blob =>
      var n := b[0];
      assert b == [n] + b[1..][..n] + b[Next(n)..];
    case Span =>
      var (d1, from) := ReadNum(Reading(b), 4);
      var (d2, to) := ReadNum(d1, 4);
      NumBack(Reading(b), 4);
      NumBack(d1, 4);
      assert LE(4, from) + (LE(4, to) + d2.buf) == LE(4, from) + LE(4, to) + d2.buf;
  }

  /** A field takes as many bytes as are stepped over, except one that is not stepped over. */
  lemma FieldSize(s: Shape, f: Field)
    requires Fits(s, f)
    ensures Consumed(s, f) <= |PutField(s, f)|
    ensures Consumed(s, f) == |PutField(s, f)| <==> Short(f)
  {
  }

  lemma FailedField(d: Reader, s: Shape)
    requires d.Failed?
    ensures ReadField(d, s).0 == d
  {
  }

  // ---- fields in a row ----

  predicate AllFit(shapes: seq<Shape>, fs: seq<Field>) {
    |fs| == |shapes| && forall i :: 0 <= i < |fs| ==> Fits(shapes[i], fs[i])
  }

  predicate AllWritable(shapes: seq<Shape>, fs: seq<Field>) {
    |fs| == |shapes| && forall i :: 0 <= i < |fs| ==> Writable(shapes[i], fs[i])
  }

  predicate AllShort(fs: seq<Field>) {
    forall i :: 0 <= i < |fs| ==> Short(fs[i])
  }

  function PutFields(shapes: seq<Shape>, fs: seq<Field>): Bytes
    requires AllWritable(shapes, fs)
  {
    if fs == [] then []
    else var n := |fs| - 1; PutFields(shapes[..n], fs[..n]) + PutField(shapes[n], fs[n])
  }

  function ReadFields(d: Reader, shapes: seq<Shape>): (r: (Reader, seq<Field>))
    ensures |r.1| == |shapes|
  {
    if shapes == [] then (d, [])
    else
      var n := |shapes| - 1;
      var (d1, fs) := ReadFields(d, shapes[..n]);
      var (d2, f) := ReadField(d1, shapes[n]);
      (d2, fs + [f])
  }

  function ConsumedAll(shapes: seq<Shape>, fs: seq<Field>): nat
    requires |shapes| == |fs|
  {
    if fs == [] then 0 else var n := |fs| - 1; ConsumedAll(shapes[..n], fs[..n]) + Consumed(shapes[n], fs[n])
  }

  lemma AreWritable(shapes: seq<Shape>, fs: seq<Field>)
    requires AllFit(shapes, fs)
    ensures AllWritable(shapes, fs)
    ensures fs != [] ==> AllFit(shapes[..|fs| - 1], fs[..|fs| - 1]) && Fits(shapes[|fs| - 1], fs[|fs| - 1])
    ensures fs != [] ==> (AllShort(fs) <==> AllShort(fs[..|fs| - 1]) && Short(fs[|fs| - 1]))
  {
  }

  lemma PutFieldsStep(shapes: seq<Shape>, fs: seq<Field>, t: Bytes)
    requires AllWritable(shapes, fs) && fs != []
    ensures var n := |fs| - 1;
      && PutFields(shapes, fs) == PutFields(shapes[..n], fs[..n]) + PutField(shapes[n], fs[n])
      && PutFields(shapes, fs) + t == PutFields(shapes[..n], fs[..n]) + (PutField(shapes[n], fs[n]) + t)
  {
    hide PutField;
  }

  lemma ReadFieldsStep(d: Reader, shapes: seq<Shape>, d1: Reader, fs: seq<Field>)
    requires shapes != [] && ReadFields(d, shapes[..|shapes| - 1]) == (d1, fs)
    ensures var (d2, f) := ReadField(d1, shapes[|shapes| - 1]); ReadFields(d, shapes) == (d2, fs + [f])
  {
  }

  lemma {:induction false} FieldsRoundTrip(shapes: seq<Shape>, fs: seq<Field>, t: Bytes)
    requires AllFit(shapes, fs) && AllShort(fs)
    ensures ReadFields(Reading(PutFields(shapes, fs) + t), shapes) == (Reading(t), fs)
  {
    AreWritable(shapes, fs);
    if fs == [] {
      assert shapes == [] && [] + t == t;
    } else {
      var n := |fs| - 1;
      PutFieldsStep(shapes, fs, t);
      hide PutFields, PutField, ReadFields, ReadField, Fits, Short, Writable, AllFit, AllShort, AllWritable;
      var rest := PutField(shapes[n], fs[n]) + t;
      FieldsRoundTrip(shapes[..n], fs[..n], rest);
      FieldRoundTrip(shapes[n], fs[n], t);
      ReadFieldsStep(Reading(PutFields(shapes, fs) + t), shapes, Reading(rest), fs[..n]);
      assert fs == fs[..n] + [fs[n]];
    }
  }

  lemma {:induction false} FieldsExtend(d: Reader, shapes: seq<Shape>, t: Bytes)
    requires ReadFields(d, shapes).0 != Failed(UnexpectedEof)
    ensures ReadFields(More(d, t), shapes) == (More(ReadFields(d, shapes).0, t), ReadFields(d, shapes).1)
  {
    if shapes != [] {
      var n := |shapes| - 1;
      var d1 := ReadFields(d, shapes[..n]).0;
      if d1.Failed? { FailedField(d1, shapes[n]); }
      FieldsExtend(d, shapes[..n], t);
      FieldExtends(d1, shapes[n], t);
    }
  }

  lemma {:induction false} FieldsConsume(b: Bytes, shapes: seq<Shape>)
    requires ReadFields(Reading(b), shapes).0.Reading?
    ensures var (d, fs) := ReadFields(Reading(b), shapes);
      AllFit(shapes, fs) && |b| == |d.buf| + ConsumedAll(shapes, fs)
  {
    if shapes != [] {
      var n := |shapes| - 1;
      var (d1, fs) := ReadFields(Reading(b), shapes[..n]);
      FieldsConsume(b, shapes[..n]);
      FieldConsumes(d1.buf, shapes[n]);
      assert (fs + [ReadField(d1, shapes[n]).1])[..n] == fs;
    }
  }

  lemma {:induction false} FieldsBack(b: Bytes, shapes: seq<Shape>)
    requires var (d, fs) := ReadFields(Reading(b), shapes); d.Reading? && AllShort(fs)
    ensures var (d, fs) := ReadFields(Reading(b), shapes); AllFit(shapes, fs) && b == PutFields(shapes, fs) + d.buf
  {
    FieldsConsume(b, shapes);
    var (d, fs) := ReadFields(Reading(b), shapes);
    AreWritable(shapes, fs);
    if shapes == [] {
      assert [] + b == b;
    } else {
      var n := |shapes| - 1;
      var (d1, fs1) := ReadFields(Reading(b), shapes[..n]);
      ReadFieldsStep(Reading(b), shapes, d1, fs1);
      assert fs[..n] == fs1;
      hide PutFields, ReadFields, PutField, Fits, Short, AllFit, AllShort, Writable, AllWritable;
      assert d1.Reading?;
      FieldsBack(b, shapes[..n]);
      FieldBack(d1.buf, shapes[n]);
      PutFieldsStep(shapes, fs, d.buf);
    }
  }

  lemma {:induction false} FieldsSize(shapes: seq<Shape>, fs: seq<Field>)
    requires AllFit(shapes, fs)
    ensures ConsumedAll(shapes, fs) <= |PutFields(shapes, fs)|
    ensures ConsumedAll(shapes, fs) == |PutFields(shapes, fs)| <==> AllShort(fs)
  {
    AreWritable(shapes, fs);
    if fs != [] {
      var n := |fs| - 1;
      assert ConsumedAll(shapes, fs) == ConsumedAll(shapes[..n], fs[..n]) + Consumed(shapes[n], fs[n]);
      hide *;
      PutFieldsStep(shapes, fs, []);
      FieldsSize(shapes[..n], fs[..n]);
      FieldSize(shapes[n], fs[n]);
    }
  }

  // ---- lists of rows ----

  predicate RowsFit(row: seq<Shape>, rows: seq<seq<Field>>) {
    forall i :: 0 <= i < |rows| ==> AllFit(row, rows[i])
  }

  predicate RowsWritable(row: seq<Shape>, rows: seq<seq<Field>>) {
    forall i :: 0 <= i < |rows| ==> AllWritable(row, rows[i])
  }

  predicate RowsShort(rows: seq<seq<Field>>) {
    forall i :: 0 <= i < |rows| ==> AllShort(rows[i])
  }

  function PutRows(row: seq<Shape>, rows: seq<seq<Field>>): Bytes
    requires RowsWritable(row, rows)
  {
    if rows == [] then []
    else PutRows(row, rows[..|rows| - 1]) + PutFields(row, rows[|rows| - 1])
  }

  function ReadRows(d: Reader, row: seq<Shape>, n: nat): (r: (Reader, seq<seq<Field>>))
    ensures |r.1| == n
  {
    if n == 0 then (d, [])
    else
      var (d1, rows) := ReadRows(d, row, n - 1);
      var (d2, fs) := ReadFields(d1, row);
      (d2, rows + [fs])
  }

  function ConsumedRows(row: seq<Shape>, rows: seq<seq<Field>>): nat
    requires forall i :: 0 <= i < |rows| ==> |rows[i]| == |row|
  {
    if rows == [] then 0 else ConsumedRows(row, rows[..|rows| - 1]) + ConsumedAll(row, rows[|rows| - 1])
  }

  lemma {:induction false} FailedFields(d: Reader, shapes: seq<Shape>)
    requires d.Failed?
    ensures ReadFields(d, shapes).0 == d
  {
    if shapes != [] { FailedFields(d, shapes[..|shapes| - 1]); }
  }

  lemma {:induction false} FailedRows(d: Reader, row: seq<Shape>, n: nat)
    requires d.Failed?
    ensures ReadRows(d, row, n).0 == d
  {
    if n > 0 {
      FailedRows(d, row, n - 1);
      FailedFields(d, row);
    }
  }

  lemma RowsAreWritable(row: seq<Shape>, rows: seq<seq<Field>>)
    requires RowsFit(row, rows)
    ensures RowsWritable(row, rows)
    ensures rows != [] ==> RowsFit(row, rows[..|rows| - 1]) && AllFit(row, rows[|rows| - 1])
    ensures rows != [] ==> (RowsShort(rows) <==> RowsShort(rows[..|rows| - 1]) && AllShort(rows[|rows| - 1]))
  {
    hide AllShort;
  }

  lemma PutRowsStep(row: seq<Shape>, rows: seq<seq<Field>>, t: Bytes)
    requires RowsWritable(row, rows) && rows != []
    ensures var n := |rows| - 1;
      && PutRows(row, rows) == PutRows(row, rows[..n]) + PutFields(row, rows[n])
      && PutRows(row, rows) + t == PutRows(row, rows[..n]) + (PutFields(row, rows[n]) + t)
  {
    hide PutFields, AllWritable;
  }

  lemma ReadRowsStep(d: Reader, row: seq<Shape>, n: nat, d1: Reader, rows: seq<seq<Field>>)
    requires ReadRows(d, row, n) == (d1, rows)
    ensures var (d2, fs) := ReadFields(d1, row); ReadRows(d, row, n + 1) == (d2, rows + [fs])
  {
    hide ReadFields;
  }

  lemma {:induction false} RowsRoundTrip(row: seq<Shape>, rows: seq<seq<Field>>, t: Bytes)
    requires RowsFit(row, rows) && RowsShort(rows)
    ensures ReadRows(Reading(PutRows(row, rows) + t), row, |rows|) == (Reading(t), rows)
  {
    if rows == [] {
      assert PutRows(row, rows) == [] && [] + t == t;
    } else {
      RowsRoundTrip(row, rows[..|rows| - 1], PutFields(row, rows[|rows| - 1]) + t);
      LastRowRoundTrip(row, rows, t);
    }
  }

  lemma LastRowRoundTrip(row: seq<Shape>, rows: seq<seq<Field>>, t: Bytes)
    requires rows != [] && RowsFit(row, rows) && RowsShort(rows)
    requires var n := |rows| - 1; var rest := PutFields(row, rows[n]) + t;
      ReadRows(Reading(PutRows(row, rows[..n]) + rest), row, n) == (Reading(rest), rows[..n])
    ensures ReadRows(Reading(PutRows(row, rows) + t), row, |rows|) == (Reading(t), rows)
  {
    hide PutRows, PutFields, ReadRows, ReadFields, AllFit, AllShort, AllWritable, RowsFit, RowsShort, RowsWritable;
    RowsAreWritable(row, rows);
    PutRowsStep(row, rows, t);
    AreWritable(row, rows[|rows| - 1]);
    var n := |rows| - 1;
    var rest := PutFields(row, rows[n]) + t;
    FieldsRoundTrip(row, rows[n], t);
    ReadRowsStep(Reading(PutRows(row, rows) + t), row, n, Reading(rest), rows[..n]);
    assert rows == rows[..n] + [rows[n]];
  }

  lemma {:induction false} RowsExtend(d: Reader, row: seq<Shape>, n: nat, t: Bytes)
    requires ReadRows(d, row, n).0 != Failed(UnexpectedEof)
    ensures ReadRows(More(d, t), row, n) == (More(ReadRows(d, row, n).0, t), ReadRows(d, row, n).1)
  {
    if n > 0 {
      var d1 := ReadRows(d, row, n - 1).0;
      if d1.Failed? { FailedFields(d1, row); }
      RowsExtend(d, row, n - 1, t);
      FieldsExtend(d1, row, t);
    }
  }

  lemma {:induction false} RowsConsume(b: Bytes, row: seq<Shape>, n: nat)
    requires ReadRows(Reading(b), row, n).0.Reading?
    ensures var (d, rows) := ReadRows(Reading(b), row, n);
      RowsFit(row, rows) && |b| == |d.buf| + ConsumedRows(row, rows)
  {
    if n > 0 {
      var (d1, rows) := ReadRows(Reading(b), row, n - 1);
      ReadRowsStep(Reading(b), row, n - 1, d1, rows);
      if d1.Failed? { FailedFields(d1, row); }
      hide ReadRows, ReadFields, ConsumedAll;
      RowsConsume(b, row, n - 1);
      FieldsConsume(d1.buf, row);
      var last := ReadFields(d1, row).1;
      hide AllFit;
      FitSnoc(row, rows, last);
      assert (rows + [last])[..n - 1] == rows;
    }
  }

  lemma FitSnoc(row: seq<Shape>, rows: seq<seq<Field>>, last: seq<Field>)
    requires RowsFit(row, rows) && AllFit(row, last)
    ensures RowsFit(row, rows + [last])
    ensures forall i :: 0 <= i <= |rows| ==> |(rows + [last])[i]| == |row|
  {
  }

  lemma {:induction false} RowsBack(b: Bytes, row: seq<Shape>, n: nat)
    requires var (d, rows) := ReadRows(Reading(b), row, n); d.Reading? && RowsShort(rows)
    ensures var (d, rows) := ReadRows(Reading(b), row, n);
      RowsFit(row, rows) && RowsWritable(row, rows) && b == PutRows(row, rows) + d.buf
  {
    RowsConsume(b, row, n);
    var (d, rows) := ReadRows(Reading(b), row, n);
    RowsAreWritable(row, rows);
    if n == 0 {
      assert [] + b == b;
    } else {
      var (d1, rows1) := ReadRows(Reading(b), row, n - 1);
      ReadRowsStep(Reading(b), row, n - 1, d1, rows1);
      assert rows[..n - 1] == rows1;
      hide PutRows, ReadRows, PutFields, ReadFields, AllFit, AllShort, AllWritable, RowsFit, RowsShort, RowsWritable;
      if d1.Failed? { FailedFields(d1, row); }
      RowsBack(b, row, n - 1);
      FieldsBack(d1.buf, row);
      PutRowsStep(row, rows, d.buf);
    }
  }

  lemma {:induction false} RowsSize(row: seq<Shape>, rows: seq<seq<Field>>)
    requires RowsFit(row, rows)
    ensures ConsumedRows(row, rows) <= |PutRows(row, rows)|
    ensures ConsumedRows(row, rows) == |PutRows(row, rows)| <==> RowsShort(rows)
  {
    RowsAreWritable(row, rows);
    if rows != [] {
      var n := |rows| - 1;
      PutRowsStep(row, rows, []);
      RowsSize(row, rows[..n]);
      FieldsSize(row, rows[n]);
      hide PutRows, PutFields, ConsumedAll, AllFit, AllShort, RowsFit, RowsShort, AllWritable, RowsWritable;
    }
  }

  // ---- a whole message ----

  /** Constant bytes in front, then fields, then perhaps a counted list of rows, then more fields. */
  datatype Layout = Layout(magic: Bytes, head: seq<Shape>, row: Option<seq<Shape>>, tail: seq<Shape>)

  datatype Parts = Parts(head: seq<Field>, rows: seq<seq<Field>>, tail: seq<Field>)

  predicate PartsFit(l: Layout, p: Parts) {
    && AllFit(l.head, p.head) && AllFit(l.tail, p.tail) && |p.rows| <= 255
    && (l.row.None? ==> p.rows == []) && (l.row.Some? ==> RowsFit(l.row.value, p.rows))
  }

  predicate PartsWritable(l: Layout, p: Parts) {
    && AllWritable(l.head, p.head) && AllWritable(l.tail, p.tail)
    && (l.row.Some? ==> RowsWritable(l.row.value, p.rows))
  }

  predicate PartsShort(p: Parts) {
    AllShort(p.head) && RowsShort(p.rows) && AllShort(p.tail)
  }

  function PutList(row: Option<seq<Shape>>, rows: seq<seq<Field>>): Bytes
    requires row.Some? ==> RowsWritable(row.value, rows)
  {
    if row.None? then [] else LE(1, |rows|) + PutRows(row.value, rows)
  }

  function PutParts(l: Layout, p: Parts): Bytes
    requires PartsWritable(l, p)
  {
    l.magic + PutFields(l.head, p.head) + PutList(l.row, p.rows) + PutFields(l.tail, p.tail)
  }

  function ReadMagic(d: Reader, magic: Bytes): Reader {
    if d.Failed? then d else if magic <= d.buf then Reading(d.buf[|magic|..]) else Failed(InvalidMessage)
  }

  function ReadList(d: Reader, row: Option<seq<Shape>>): (Reader, seq<seq<Field>>) {
    if row.None? then (d, []) else var (d1, n) := ReadNum(d, 1); ReadRows(d1, row.value, n)
  }

  function ReadParts(buf: Bytes, l: Layout): (Reader, Parts) {
    var d1 := ReadMagic(Reading(buf), l.magic);
    var (d2, head) := ReadFields(d1, l.head);
    var (d3, rows) := ReadList(d2, l.row);
    var (d4, tail) := ReadFields(d3, l.tail);
    (d4, Parts(head, rows, tail))
  }

  function ConsumedList(row: Option<seq<Shape>>, rows: seq<seq<Field>>): nat
    requires row.Some? ==> forall i :: 0 <= i < |rows| ==> |rows[i]| == |row.value|
  {
    if row.None? then 0 else 1 + ConsumedRows(row.value, rows)
  }

  lemma {:induction false} FailedList(d: Reader, row: Option<seq<Shape>>)
    requires d.Failed?
    ensures ReadList(d, row).0 == d
  {
  }

  lemma ListRoundTrip(row: Option<seq<Shape>>, rows: seq<seq<Field>>, t: Bytes)
    requires (row.None? ==> rows == []) && (row.Some? ==> RowsFit(row.value, rows)) && RowsShort(rows) && |rows| <= 255
    ensures ReadList(Reading(PutList(row, rows) + t), row) == (Reading(t), rows)
  {
    if row.Some? {
      assert PutList(row, rows) + t == LE(1, |rows|) + (PutRows(row.value, rows) + t);
      assert Pow256(1) == 256 * Pow256(0) == 256;
      NumRoundTrip(1, |rows|, PutRows(row.value, rows) + t);
      RowsRoundTrip(row.value, rows, t);
    } else {
      assert [] + t == t;
    }
  }

  lemma ListExtends(d: Reader, row: Option<seq<Shape>>, t: Bytes)
    requires ReadList(d, row).0 != Failed(UnexpectedEof)
    ensures ReadList(More(d, t), row) == (More(ReadList(d, row).0, t), ReadList(d, row).1)
  {
    if row.Some? {
      var (d1, n) := ReadNum(d, 1);
      NumExtends(d, 1, t);
      RowsExtend(d1, row.value, n, t);
    }
  }

  lemma ListConsumes(b: Bytes, row: Option<seq<Shape>>)
    requires ReadList(Reading(b), row).0.Reading?
    ensures var (d, rows) := ReadList(Reading(b), row);
      && (row.None? ==> rows == []) && (row.Some? ==> RowsFit(row.value, rows))
      && |rows| <= 255 && |b| == |d.buf| + ConsumedList(row, rows)
  {
    if row.Some? {
      var (d1, n) := ReadNum(Reading(b), 1);
      assert Pow256(1) == 256 * Pow256(0) == 256;
      RowsConsume(d1.buf, row.value, n);
    }
  }

  lemma ListBack(b: Bytes, row: Option<seq<Shape>>)
    requires var (d, rows) := ReadList(Reading(b), row); d.Reading? && RowsShort(rows)
    ensures var (d, rows) := ReadList(Reading(b), row);
      && (row.Some? ==> RowsFit(row.value, rows) && RowsWritable(row.value, rows))
      && b == PutList(row, rows) + d.buf
  {
    hide RowsFit, RowsShort, RowsWritable, PutRows, ReadRows;
    if row.Some? {
      var (d1, n) := ReadNum(Reading(b), 1);
      var (d, rows) := ReadRows(d1, row.value, n);
      if d1.Failed? { FailedRows(d1, row.value, n); }
      RowsBack(d1.buf, row.value, n);
      NumBack(Reading(b), 1);
      assert LE(1, n) + (PutRows(row.value, rows) + d.buf) == LE(1, n) + PutRows(row.value, rows) + d.buf;
    } else {
      assert [] + b == b;
    }
  }

  /** Fields no longer than 254 bytes come back as they were, and the rest is left untouched. */
  lemma PartsRoundTrip(l: Layout, p: Parts, t: Bytes)
    requires PartsFit(l, p) && PartsShort(p)
    ensures ReadParts(PutParts(l, p) + t, l) == (Reading(t), p)
  {
    PartsAreWritable(l, p);
    hide *;
    var tail := PutFields(l.tail, p.tail);
    var list := PutList(l.row, p.rows);
    var head := PutFields(l.head, p.head);
    PutPartsGrouped(l, p, t);
    FieldsRoundTrip(l.head, p.head, list + (tail + t));
    ListRoundTrip(l.row, p.rows, tail + t);
    FieldsRoundTrip(l.tail, p.tail, t);
    ReadPartsSteps(l, p, head + (list + (tail + t)), list + (tail + t), tail + t, t);
  }

  lemma PartsAreWritable(l: Layout, p: Parts)
    requires PartsFit(l, p)
    ensures PartsWritable(l, p) && (l.row.Some? ==> RowsWritable(l.row.value, p.rows))
    ensures AllWritable(l.head, p.head) && AllWritable(l.tail, p.tail)
    ensures AllFit(l.head, p.head) && AllFit(l.tail, p.tail) && |p.rows| <= 255
    ensures (l.row.None? ==> p.rows == []) && (l.row.Some? ==> RowsFit(l.row.value, p.rows))
    ensures PartsShort(p) ==> AllShort(p.head) && RowsShort(p.rows) && AllShort(p.tail)
  {
    AreWritable(l.head, p.head);
    AreWritable(l.tail, p.tail);
    if l.row.Some? { RowsAreWritable(l.row.value, p.rows); }
    hide AllFit, AllWritable, RowsFit, RowsWritable, AllShort, RowsShort;
  }

  lemma PutPartsGrouped(l: Layout, p: Parts, t: Bytes)
    requires PartsWritable(l, p)
    ensures PutParts(l, p) + t ==
            l.magic + (PutFields(l.head, p.head) + (PutList(l.row, p.rows) + (PutFields(l.tail, p.tail) + t)))
  {
    hide PutFields, PutList, AllWritable, RowsWritable;
    Regroup(l.magic, PutFields(l.head, p.head), PutList(l.row, p.rows), PutFields(l.tail, p.tail), t);
  }

  lemma ReadPartsSteps(l: Layout, p: Parts, b1: Bytes, b2: Bytes, b3: Bytes, t: Bytes)
    requires ReadFields(Reading(b1), l.head) == (Reading(b2), p.head)
    requires ReadList(Reading(b2), l.row) == (Reading(b3), p.rows)
    requires ReadFields(Reading(b3), l.tail) == (Reading(t), p.tail)
    ensures ReadParts(l.magic + b1, l) == (Reading(t), p)
  {
    hide ReadFields, ReadList;
    assert (l.magic + b1)[|l.magic|..] == b1;
  }

  /** Once enough bytes are there, what follows makes no difference to the outcome. */
  lemma PartsExtend(b: Bytes, l: Layout, t: Bytes)
    requires var d := ReadParts(b, l).0; d.Reading? || d == Failed(BadRange)
    ensures ReadParts(b + t, l) == (More(ReadParts(b, l).0, t), ReadParts(b, l).1)
  {
    var d1 := ReadMagic(Reading(b), l.magic);
    var d2 := ReadFields(d1, l.head).0;
    var d3 := ReadList(d2, l.row).0;
    if d1.Failed? { FailedFields(d1, l.head); }
    if d2.Failed? { FailedList(d2, l.row); }
    if d3.Failed? { FailedFields(d3, l.tail); }
    assert ReadMagic(Reading(b + t), l.magic) == More(d1, t);
    FieldsExtend(d1, l.head, t);
    ListExtends(d2, l.row, t);
    FieldsExtend(d3, l.tail, t);
  }

  function ConsumedParts(l: Layout, p: Parts): nat
    requires PartsFit(l, p)
  {
    |l.magic| + ConsumedAll(l.head, p.head) + ConsumedList(l.row, p.rows) + ConsumedAll(l.tail, p.tail)
  }

  lemma PartsConsume(b: Bytes, l: Layout)
    requires ReadParts(b, l).0.Reading?
    ensures var (d, p) := ReadParts(b, l); PartsFit(l, p) && |b| == |d.buf| + ConsumedParts(l, p)
  {
    var d1 := ReadMagic(Reading(b), l.magic);
    var d2 := ReadFields(d1, l.head).0;
    var d3 := ReadList(d2, l.row).0;
    if d1.Failed? { FailedFields(d1, l.head); }
    if d2.Failed? { FailedList(d2, l.row); }
    if d3.Failed? { FailedFields(d3, l.tail); }
    FieldsConsume(d1.buf, l.head);
    ListConsumes(d2.buf, l.row);
    FieldsConsume(d3.buf, l.tail);
  }

  /** The message comes back, with the rest left over, exactly when every byte string is at most 254 long. */
  lemma PartsExact(l: Layout, p: Parts, t: Bytes)
    requires PartsFit(l, p)
    ensures ReadParts(PutParts(l, p) + t, l) == (Reading(t), p) <==> PartsShort(p)
  {
    if PartsShort(p) {
      PartsRoundTrip(l, p, t);
    } else if ReadParts(PutParts(l, p) + t, l) == (Reading(t), p) {
      PartsConsume(PutParts(l, p) + t, l);
      FieldsSize(l.head, p.head);
      FieldsSize(l.tail, p.tail);
      if l.row.Some? { RowsSize(l.row.value, p.rows); }
    }
  }

  /** Only what was written reads as short fields: reading is the inverse of writing. */
  lemma PartsBack(b: Bytes, l: Layout)
    requires var (d, p) := ReadParts(b, l); d.Reading? && PartsShort(p)
    ensures var (d, p) := ReadParts(b, l); PartsFit(l, p) && PartsWritable(l, p) && b == PutParts(l, p) + d.buf
  {
    hide PutFields, ReadFields, PutList, ReadList, RowsFit, AllFit, AllShort, RowsShort, RowsWritable, AllWritable;
    PartsConsume(b, l);
    var d1 := ReadMagic(Reading(b), l.magic);
    var (d2, head) := ReadFields(d1, l.head);
    var (d3, rows) := ReadList(d2, l.row);
    var (d4, tail) := ReadFields(d3, l.tail);
    if d1.Failed? { FailedFields(d1, l.head); }
    if d2.Failed? { FailedList(d2, l.row); }
    if d3.Failed? { FailedFields(d3, l.tail); }
    FieldsBack(d1.buf, l.head);
    ListBack(d2.buf, l.row);
    FieldsBack(d3.buf, l.tail);
    AreWritable(l.head, head);
    AreWritable(l.tail, tail);
    Regroup(l.magic, PutFields(l.head, head), PutList(l.row, rows), PutFields(l.tail, tail), d4.buf);
  }

  lemma Regroup(a: Bytes, b: Bytes, c: Bytes, d: Bytes, e: Bytes)
    ensures a + (b + (c + (d + e))) == a + b + c + d + e
  {
  }

  lemma PartsAlone(l: Layout, p: Parts)
    requires PartsFit(l, p) && PartsShort(p)
    ensures PartsWritable(l, p) && ReadParts(PutParts(l, p), l) == (Reading([]), p)
  {
    PartsRoundTrip(l, p, []);
    hide ReadParts, PutParts, AllFit, RowsFit, PartsShort;
    assert PutParts(l, p) + [] == PutParts(l, p);
  }

  /** Cut short anywhere, a message of such fields is refused, and never with a panic. */
  lemma PrefixRefused(l: Layout, p: Parts, b: Bytes)
    requires PartsFit(l, p) && PartsShort(p) && b < PutParts(l, p)
    ensures var d := ReadParts(b, l).0; d == Failed(UnexpectedEof) || d == Failed(InvalidMessage)
  {
    PartsAlone(l, p);
    hide *;
    var all := PutParts(l, p);
    var t := all[|b|..];
    assert b + t == all && |t| > 0;
    var d := ReadParts(b, l).0;
    if d.Reading? || d == Failed(BadRange) {
      PartsExtend(b, l, t);
      MoreIsMore(d, t);
      assert false;
    }
    match d
    case Failed(e) => assert e != BadRange;
  }

  lemma MoreIsMore(d: Reader, t: Bytes)
    requires t != []
    ensures More(d, t) != Reading([])
    ensures d.Failed? ==> More(d, t) == d
  {
  }
}
