/**
 * The serializer and the deserializer (udpstar/message/serializer.go): objects with a buffer that every call
 * changes, and, for the reader, a sticky error. Ghost fields record what was written or read since the last
 * mark, so that a sequence of calls adds up to the fields of a layout, one call at a time.
 */
module Serializers {
  import opened Streams
  import opened Ranges
  import opened Wire
  import opened Messages

  lemma PutFieldsSnoc(shapes: seq<Shape>, fs: seq<Field>, s: Shape, f: Field)
    requires AllWritable(shapes, fs) && Writable(s, f)
    ensures AllWritable(shapes + [s], fs + [f])
    ensures PutFields(shapes + [s], fs + [f]) == PutFields(shapes, fs) + PutField(s, f)
  {
    assert (shapes + [s])[..|fs|] == shapes && (fs + [f])[..|fs|] == fs;
  }

  lemma ReadFieldsSnoc(d: Reader, shapes: seq<Shape>, s: Shape)
    ensures var (d1, fs) := ReadFields(d, shapes); var (d2, f) := ReadField(d1, s);
      ReadFields(d, shapes + [s]) == (d2, fs + [f])
  {
    assert (shapes + [s])[..|shapes|] == shapes;
  }

  class Serializer {
    var buf: Bytes

    // What was written since the last mark.
    ghost var base: Bytes
    ghost var shapes: seq<Shape>
    ghost var fields: seq<Field>

    ghost predicate Valid()
      reads this
    {
      AllWritable(shapes, fields) && buf == base + PutFields(shapes, fields)
    }

    constructor (buf: Bytes)
      ensures Valid() && this.buf == base == buf && shapes == [] && fields == []
    {
      this.buf, base, shapes, fields := buf, buf, [], [];
    }

    /** Starts a new record of what is written. */
    ghost method Mark()
      requires Valid()
      modifies this
      ensures Valid() && buf == old(buf) && base == buf && shapes == [] && fields == []
    {
      base, shapes, fields := buf, [], [];
    }

    /** Appends one field; what the record says is kept up to date. */
    method Append(bytes: Bytes, ghost s: Shape, ghost f: Field)
      requires Valid() && Writable(s, f) && bytes == PutField(s, f)
      modifies this
      ensures Valid() && base == old(base) && shapes == old(shapes) + [s] && fields == old(fields) + [f]
      ensures buf == old(buf) + bytes
    {
      hide PutFields, PutField, AllWritable, Writable;
      PutFieldsSnoc(shapes, fields, s, f);
      Join3(base, PutFields(shapes, fields), bytes);
      buf := buf + bytes;
      shapes, fields := shapes + [s], fields + [f];
    }

    /** Put32, and so PutToken and PutSequence, which cut what is too large. */
    method Put32(v: nat)
      requires Valid()
      modifies this
      ensures Valid() && base == old(base) && shapes == old(shapes) + [WORD] && fields == old(fields) + [N(v)]
      ensures buf == old(buf) + LE(4, v)
    {
      Append(LE(4, v), WORD, N(v));
    }

    method Put8(v: Byte)
      requires Valid()
      modifies this
      ensures Valid() && base == old(base) && shapes == old(shapes) + [SMALL] && fields == old(fields) + [N(v)]
      ensures buf == old(buf) + [v]
    {
      OneByte(v);
      Append([v], SMALL, N(v));
    }

    method PutDuration(v: int)
      requires Valid() && IsDuration(v)
      modifies this
      ensures Valid() && base == old(base)
      ensures shapes == old(shapes) + [LONG] && fields == old(fields) + [N(Unsigned(v))]
    {
      Append(LE(8, Unsigned(v)), LONG, N(Unsigned(v)));
    }

    /** PutBytes and PutStr, which panic on more than 255 bytes. */
    method PutBytes(v: Bytes)
      requires Valid() && |v| <= 255
      modifies this
      ensures Valid() && base == old(base) && shapes == old(shapes) + [Blob] && fields == old(fields) + [B(v)]
    {
      Append([|v|] + v, Blob, B(v));
    }

    method PutRange(v: Range)
      requires Valid() && v.Valid()
      modifies this
      ensures Valid() && base == old(base)
      ensures shapes == old(shapes) + RANGE_ROW && fields == old(fields) + RangeFields(v)
    {
      Append(LE(4, v.From()) + LE(4, v.To()), Span, R(v.From(), v.To()));
    }

    method PutEntry(v: Entry)
      requires Valid() && EntryPuttable(v)
      modifies this
      ensures Valid() && base == old(base)
      ensures shapes == old(shapes) + ENTRY_ROW && fields == old(fields) + EntryFields(v)
    {
      hide AllWritable, PutFields;
      Put32(v.seqNo);
      PutDuration(v.delay);
      PutBytes(v.payload);
    }

    /** The count and the first rows of a list are written, and the next row is about to begin. */
    ghost predicate Listed(from: Bytes, count: nat, row: seq<Shape>, rows: seq<seq<Field>>)
      reads this
    {
      && Valid() && shapes == [] && fields == [] && buf == base
      && RowsWritable(row, rows) && buf == from + LE(1, count) + PutRows(row, rows)
    }

    /** The count of a list, cut to a byte. */
    method PutCount(count: nat, ghost row: seq<Shape>)
      requires Valid()
      modifies this
      ensures Listed(old(buf), count, row, [])
    {
      Put8(count % 256);
      OneByte(count);
      Mark();
    }

    /** The row that was just written belongs to the list. */
    ghost method CloseRow(from: Bytes, count: nat, row: seq<Shape>, rows: seq<seq<Field>>, last: seq<Field>)
      requires Valid() && RowsWritable(row, rows) && base == from + LE(1, count) + PutRows(row, rows)
      requires shapes == row && fields == last
      modifies this
      ensures Listed(from, count, row, rows + [last]) && buf == old(buf)
    {
      hide PutFields, PutRows, AllWritable, RowsWritable, LE;
      RowsSnoc(row, rows, last);
      Join3(from + LE(1, count), PutRows(row, rows), PutFields(row, last));
      Mark();
    }

    method PutEntries(v: seq<Entry>)
      requires Valid() && |v| <= 255 && forall i :: 0 <= i < |v| ==> EntryPuttable(v[i])
      modifies this
      ensures Listed(old(buf), |v|, ENTRY_ROW, EntryRows(v))
    {
      hide PutFields, PutRows, AllWritable, RowsWritable;
      PutCount(|v|, ENTRY_ROW);
      assert EntryRows(v[..0]) == [];
      for i := 0 to |v|
        invariant Listed(old(buf), |v|, ENTRY_ROW, EntryRows(v[..i]))
      {
        PutEntry(v[i]);
        CloseRow(old(buf), |v|, ENTRY_ROW, EntryRows(v[..i]), EntryFields(v[i]));
        assert EntryRows(v[..i + 1]) == EntryRows(v[..i]) + [EntryFields(v[i])];
      }
      assert v[..|v|] == v;
    }

    method PutRanges(v: seq<Range>)
      requires Valid() && |v| <= 255 && forall i :: 0 <= i < |v| ==> v[i].Valid()
      modifies this
      ensures Listed(old(buf), |v|, RANGE_ROW, RangeRows(v))
    {
      hide PutFields, PutRows, AllWritable, RowsWritable;
      PutCount(|v|, RANGE_ROW);
      assert RangeRows(v[..0]) == [];
      for i := 0 to |v|
        invariant Listed(old(buf), |v|, RANGE_ROW, RangeRows(v[..i]))
      {
        PutRange(v[i]);
        CloseRow(old(buf), |v|, RANGE_ROW, RangeRows(v[..i]), RangeFields(v[i]));
        assert RangeRows(v[..i + 1]) == RangeRows(v[..i]) + [RangeFields(v[i])];
      }
      assert v[..|v|] == v;
    }
  }

  lemma Join3(a: Bytes, b: Bytes, c: Bytes)
    ensures a + b + c == a + (b + c)
  {
  }

  lemma OneByte(n: nat)
    ensures LE(1, n) == [n % 256]
  {
    assert LE(0, n / 256) == [];
  }

  lemma RowsSnoc(row: seq<Shape>, rows: seq<seq<Field>>, last: seq<Field>)
    requires RowsWritable(row, rows) && AllWritable(row, last)
    ensures RowsWritable(row, rows + [last]) && PutRows(row, rows + [last]) == PutRows(row, rows) + PutFields(row, last)
  {
    hide AllWritable, PutFields;
    assert (rows + [last])[..|rows|] == rows;
  }

  class Deserializer {
    var buf: Bytes
    var err: Option<Error>

    // What was read since the last mark, and from what.
    ghost var start: Reader
    ghost var shapes: seq<Shape>
    ghost var fields: seq<Field>

    ghost function Value(): Reader
      reads this
    {
      if err.Some? then Failed(err.value) else Reading(buf)
    }

    ghost predicate Valid()
      reads this
    {
      ReadFields(start, shapes) == (Value(), fields)
    }

    /** Nothing was read since the last mark. */
    ghost predicate Marked()
      reads this
    {
      Valid() && start == Value() && shapes == [] && fields == []
    }

    constructor (buf: Bytes)
      ensures Marked() && Value() == Reading(buf)
    {
      this.buf, err := buf, None;
      start, shapes, fields := Reading(buf), [], [];
    }

    ghost method Mark()
      modifies this`start, this`shapes, this`fields
      ensures Marked() && Value() == old(Value())
    {
      start, shapes, fields := Value(), [], [];
    }

    /** Keeps the record: one more field was read, from d. */
    ghost method Log(d: Reader, s: Shape, f: Field)
      requires ReadFields(start, shapes) == (d, fields) && ReadField(d, s) == (Value(), f)
      modifies this`shapes, this`fields
      ensures Valid() && start == old(start) && shapes == old(shapes) + [s] && fields == old(fields) + [f]
    {
      ReadFieldsSnoc(start, shapes, s);
      shapes, fields := shapes + [s], fields + [f];
    }

    /** Keeps the record of two words that were read at once. */
    ghost method Log2(d1: Reader, f1: Field, f2: Field)
      requires var d := ReadFields(start, shapes).0;
        && ReadFields(start, shapes).1 == fields
        && ReadField(d, WORD) == (d1, f1) && ReadField(d1, WORD) == (Value(), f2)
      modifies this`shapes, this`fields
      ensures Valid() && start == old(start)
      ensures shapes == old(shapes) + [WORD, WORD] && fields == old(fields) + [f1, f2]
    {
      hide ReadFields, ReadField;
      ReadFieldsSnoc(start, shapes, WORD);
      ReadFieldsSnoc(start, shapes + [WORD], WORD);
      assert shapes + [WORD] + [WORD] == shapes + [WORD, WORD] && fields + [f1] + [f2] == fields + [f1, f2];
      shapes, fields := shapes + [WORD, WORD], fields + [f1, f2];
    }

    ghost method Log3(d1: Reader, d2: Reader, f1: Field, f2: Field, f3: Field)
      requires var d := ReadFields(start, shapes).0;
        && ReadFields(start, shapes).1 == fields && ReadField(d, WORD) == (d1, f1)
        && ReadField(d1, WORD) == (d2, f2) && ReadField(d2, WORD) == (Value(), f3)
      modifies this`shapes, this`fields
      ensures Valid() && start == old(start)
      ensures shapes == old(shapes) + [WORD, WORD, WORD] && fields == old(fields) + [f1, f2, f3]
    {
      hide ReadFields, ReadField;
      ReadFieldsSnoc(start, shapes, WORD);
      ReadFieldsSnoc(start, shapes + [WORD], WORD);
      ReadFieldsSnoc(start, shapes + [WORD] + [WORD], WORD);
      assert shapes + [WORD] + [WORD] + [WORD] == shapes + [WORD, WORD, WORD];
      assert fields + [f1] + [f2] + [f3] == fields + [f1, f2, f3];
      shapes, fields := shapes + [WORD, WORD, WORD], fields + [f1, f2, f3];
    }

    /** Get8, Get32 and Get64, by the number of bytes. */
    method GetNum(w: nat) returns (v: nat)
      modifies this`buf, this`err
      ensures (Value(), v) == ReadNum(old(Value()), w)
    {
      if err.Some? {
        return 0;
      }
      if |buf| < w {
        err := Some(UnexpectedEof);
        return 0;
      }
      v := UnLE(buf[..w]);
      buf := buf[w..];
    }

    /** Also GetToken and GetSequence. */
    method Get32() returns (v: nat)
      requires Valid()
      modifies this
      ensures Valid() && start == old(start) && shapes == old(shapes) + [WORD] && fields == old(fields) + [N(v)]
      ensures old(err).Some? ==> err == old(err)
    {
      ghost var d := Value();
      v := GetNum(4);
      Log(d, WORD, N(v));
    }

    method Get8() returns (v: Byte)
      requires Valid()
      modifies this
      ensures Valid() && start == old(start) && shapes == old(shapes) + [SMALL] && fields == old(fields) + [N(v)]
      ensures (Value(), v as nat) == ReadNum(old(Value()), 1)
      ensures old(err).Some? ==> err == old(err)
    {
      Pow8();
      ghost var d := Value();
      var n := GetNum(1);
      Log(d, SMALL, N(n));
      v := n;
    }

    method GetDuration() returns (v: int)
      requires Valid()
      modifies this
      ensures Valid() && start == old(start) && IsDuration(v)
      ensures shapes == old(shapes) + [LONG] && fields == old(fields) + [N(Unsigned(v))]
      ensures old(err).Some? ==> err == old(err)
    {
      Pow8();
      ghost var d := Value();
      var n := GetNum(8);
      v := Signed(n);
      Log(d, LONG, N(n));
    }

    /** GetBytes and GetStr; the step after the bytes is computed in a byte. */
    method GetBytes() returns (v: Bytes)
      requires Valid()
      modifies this
      ensures Valid() && start == old(start) && |v| <= 255
      ensures shapes == old(shapes) + [Blob] && fields == old(fields) + [B(v)]
      ensures old(err).Some? ==> err == old(err)
    {
      ghost var d := Value();
      if err.Some? {
        v := [];
      } else if |buf| == 0 || |buf| <= buf[0] {
        err := Some(UnexpectedEof);
        v := [];
      } else {
        var n := buf[0];
        v := buf[1..][..n];
        buf := buf[Next(n)..];
      }
      Log(d, Blob, B(v));
    }

    /** A bad range makes the program panic. */
    method GetRange() returns (v: Range)
      requires Valid()
      modifies this
      ensures Valid() && start == old(start) && shapes == old(shapes) + RANGE_ROW
      ensures err.None? ==> v.Valid() && fields == old(fields) + RangeFields(v)
    {
      hide ReadFields, ReadNum;
      ghost var d := Value();
      var from := GetNum(4);
      var to := GetNum(4);
      v := Range(0, 0);
      if err.Some? {
        Log(d, Span, R(0, 0));
        return;
      }
      if from == 0 || to < from {
        err := Some(BadRange);
        Log(d, Span, R(0, 0));
        return;
      }
      v := RangeInclusive(from, to);
      Log(d, Span, R(from, to));
    }

    method GetEntry() returns (v: Entry)
      requires Valid()
      modifies this
      ensures Valid() && start == old(start) && shapes == old(shapes) + ENTRY_ROW
      ensures err.None? ==> EntryPuttable(v) && fields == old(fields) + EntryFields(v)
    {
      hide ReadFields;
      var seqNo := Get32();
      var delay := GetDuration();
      var payload := GetBytes();
      v := Entry(seqNo, delay, payload);
      if err.Some? {
        v := Entry(0, 0, []);
      }
    }

    /** After n rows of a list that began at d. */
    ghost predicate Listed(d: Reader, row: seq<Shape>, n: nat, rows: seq<seq<Field>>)
      reads this
    {
      Marked() && ReadRows(d, row, n).0 == Value() && (err.None? ==> ReadRows(d, row, n).1 == rows)
    }

    /** The row that was just read belongs to the list. */
    ghost method CloseRow(d: Reader, row: seq<Shape>, n: nat, rows: seq<seq<Field>>)
      requires Valid() && shapes == row && start == ReadRows(d, row, n).0
      requires start.Reading? ==> ReadRows(d, row, n).1 == rows
      modifies this`start, this`shapes, this`fields
      ensures Listed(d, row, n + 1, rows + [old(fields)]) && Value() == old(Value())
      ensures old(start).Failed? ==> err.Some?
    {
      hide ReadFields, ReadRows;
      if start.Failed? { FailedFields(start, row); }
      ReadRowsStep(d, row, n, ReadRows(d, row, n).0, ReadRows(d, row, n).1);
      Mark();
    }

    /** Reads the count of a list; zero when that fails. */
    method GetCount(ghost row: seq<Shape>) returns (l: Byte, ghost d: Reader)
      requires Valid()
      modifies this
      ensures (d, l as nat) == ReadNum(old(Value()), 1) && d == Value() && Listed(d, row, 0, [])
    {
      l := Get8();
      Mark();
      d := Value();
    }

    method GetEntries() returns (v: seq<Entry>)
      requires Valid()
      modifies this
      ensures ReadList(old(Value()), Some(ENTRY_ROW)).0 == Value() && Marked()
      ensures forall i :: 0 <= i < |v| ==> EntryPuttable(v[i])
      ensures err.None? ==> |v| <= 255 && EntryRows(v) == ReadList(old(Value()), Some(ENTRY_ROW)).1
    {
      hide ReadFields, ReadRows, ReadNum;
      var l, d := GetCount(ENTRY_ROW);
      v := [];
      if err.Some? {
        FailedRows(d, ENTRY_ROW, l);
        return;
      }
      assert EntryRows(v) == [];
      for i := 0 to l
        invariant forall j :: 0 <= j < |v| ==> EntryPuttable(v[j])
        invariant Listed(d, ENTRY_ROW, i, EntryRows(v)) && (err.None? ==> |v| == i)
      {
        var e := GetEntry();
        ghost var rows := EntryRows(v);
        assert err.None? ==> fields == EntryFields(e);
        CloseRow(d, ENTRY_ROW, i, rows);
        if err.None? {
          v := v + [e];
          assert EntryRows(v) == rows + [EntryFields(e)];
        }
      }
      if err.Some? {
        v := [];
      }
    }

    method GetRanges() returns (v: seq<Range>)
      requires Valid()
      modifies this
      ensures ReadList(old(Value()), Some(RANGE_ROW)).0 == Value() && Marked()
      ensures forall i :: 0 <= i < |v| ==> v[i].Valid()
      ensures err.None? ==> |v| <= 255 && RangeRows(v) == ReadList(old(Value()), Some(RANGE_ROW)).1
    {
      hide ReadFields, ReadRows, ReadNum;
      var l, d := GetCount(RANGE_ROW);
      v := [];
      if err.Some? {
        FailedRows(d, RANGE_ROW, l);
        return;
      }
      assert RangeRows(v) == [];
      for i := 0 to l
        invariant forall j :: 0 <= j < |v| ==> v[j].Valid()
        invariant Listed(d, RANGE_ROW, i, RangeRows(v)) && (err.None? ==> |v| == i)
      {
        var r := GetRange();
        ghost var rows := RangeRows(v);
        assert err.None? ==> fields == RangeFields(r);
        CloseRow(d, RANGE_ROW, i, rows);
        if err.None? {
          v := v + [r];
          assert RangeRows(v) == rows + [RangeFields(r)];
        }
      }
      if err.Some? {
        v := [];
      }
    }
  }
}
