/** internal/protocol/tlv: a payload is a flat sequence of (id, type, length, value) fields. */
module Tlv {
  import opened Bytes
  import opened Errors

  const HEADER_LEN: nat := 7
  const TWO32: nat := 0x1_0000_0000

  const TYPE_U32: byte := 3
  const TYPE_U64: byte := 4
  const TYPE_STRING: byte := 6
  const TYPE_BYTES: byte := 7

  datatype Field = Field(id: u16, typ: byte, value: bytes)

  // ---------------------------------------------------------------- what the wire format is

  /** One field on the wire. The length is written as a uint32, so it wraps for values of 2^32 bytes and more. */
  function FieldBytes(f: Field): (b: bytes)
    ensures |b| == HEADER_LEN + |f.value|
  {
    U16(f.id) + [f.typ] + U32(Low32(|f.value|)) + f.value
  }

  function FieldsBytes(fs: seq<Field>): (b: bytes)
  {
    if fs == [] then [] else FieldsBytes(fs[..|fs| - 1]) + FieldBytes(fs[|fs| - 1])
  }

  function HeadLength(p: bytes): u32
    requires |p| >= HEADER_LEN
  {
    FromU32(p[3..7])
  }

  /** The field at the front of a payload. */
  function Head(p: bytes): Field
    requires |p| >= HEADER_LEN && HEADER_LEN + HeadLength(p) <= |p|
  {
    Field(FromU16(p[..2]), p[2], p[HEADER_LEN..HEADER_LEN + HeadLength(p)])
  }

  function AfterHead(p: bytes): (rest: bytes)
    requires |p| >= HEADER_LEN && HEADER_LEN + HeadLength(p) <= |p|
    ensures |rest| < |p|
  {
    p[HEADER_LEN + HeadLength(p)..]
  }

  /** What DecodeFields makes of a payload, read from the front. The source compares the declared length
      with the remaining length cut to 32 bits. */
  function Parse(p: bytes): (r: Result<seq<Field>>)
    decreases |p|
  {
    if p == [] then Ok([])
    else if |p| < HEADER_LEN then Err(ShortFieldHeader)
    else if Low32(|p| - HEADER_LEN) < HeadLength(p) then Err(ShortFieldValue)
    else
      var rest :- Parse(AfterHead(p));
      Ok([Head(p)] + rest)
  }

  function GetField(fs: seq<Field>, id: u16): (r: Option<Field>)
    ensures r.Some? ==> r.value in fs && r.value.id == id
    ensures r.None? ==> forall i :: 0 <= i < |fs| ==> fs[i].id != id
  {
    if fs == [] then None else if fs[0].id == id then Some(fs[0]) else GetField(fs[1..], id)
  }

  // ---------------------------------------------------------------- the code

  method EncodeField(f: Field) returns (out: bytes)
    ensures out == FieldBytes(f)
  {
    var buf := new byte[HEADER_LEN + |f.value|](_ => 0);
    PutUint(buf, 0, 2, f.id);
    buf[2] := f.typ;
    PutUint(buf, 3, 4, Low32(|f.value|));
    assert buf[..7] == U16(f.id) + [f.typ] + U32(Low32(|f.value|));
    for i := 0 to |f.value|
      invariant buf[..7] == U16(f.id) + [f.typ] + U32(Low32(|f.value|))
      invariant buf[7..7 + i] == f.value[..i]
    {
      buf[7 + i] := f.value[i];
      assert buf[7..7 + i + 1] == buf[7..7 + i] + [f.value[i]];
    }
    out := buf[..];
    assert out == buf[..7] + buf[7..7 + |f.value|];
  }

  method EncodeFields(fs: seq<Field>) returns (out: bytes)
    ensures out == FieldsBytes(fs)
  {
    out := [];
    for i := 0 to |fs|
      invariant out == FieldsBytes(fs[..i])
    {
      var one := EncodeField(fs[i]);
      assert fs[..i + 1][..i] == fs[..i];
      out := out + one;
    }
    assert fs[..|fs|] == fs;
  }

  function Prepend(fs: seq<Field>, r: Result<seq<Field>>): Result<seq<Field>>
  {
    if r.Ok? then Ok(fs + r.value) else r
  }

  lemma PrependConcat(a: seq<Field>, b: seq<Field>, r: Result<seq<Field>>)
    ensures Prepend(a, Prepend(b, r)) == Prepend(a + b, r)
    ensures Prepend([], r) == r
    ensures Prepend(a, Ok([])) == Ok(a)
  {
    if r.Ok? {
      assert a + (b + r.value) == a + b + r.value;
      assert [] + r.value == r.value;
    }
    assert a + [] == a;
  }

  lemma ParseEmpty()
    ensures Parse([]) == Ok([])
  {
  }

  lemma SliceOfTail(p: bytes, i: nat, a: nat, b: nat)
    requires i <= |p| && a <= b <= |p| - i
    ensures p[i..][a..b] == p[i + a..i + b]
    ensures b == |p| - i ==> p[i..][a..] == p[i + a..]
  {
  }

  lemma ParseStep(p: bytes)
    requires p != []
    ensures if |p| < HEADER_LEN then Parse(p) == Err(ShortFieldHeader)
            else if Low32(|p| - HEADER_LEN) < HeadLength(p) then Parse(p) == Err(ShortFieldValue)
            else HEADER_LEN + HeadLength(p) <= |p| && Parse(p) == Prepend([Head(p)], Parse(AfterHead(p)))
  {
  }

  predicate FitsAt(payload: bytes, i: nat)
    requires i + HEADER_LEN <= |payload|
  {
    Low32(|payload| - i - HEADER_LEN) >= FromU32(payload[i + 3..i + 7])
  }

  /** What the cursor loop reads at offset `i` is the head of the rest of the payload. */
  lemma HeadAt(payload: bytes, i: nat)
    requires i + HEADER_LEN <= |payload|
    ensures var l := FromU32(payload[i + 3..i + 7]); var rest := payload[i..];
            && HeadLength(rest) == l
            && (FitsAt(payload, i) ==>
                  && i + HEADER_LEN + l <= |payload|
                  && Head(rest) == Field(FromU16(payload[i..i + 2]), payload[i + 2], payload[i + 7..i + 7 + l])
                  && AfterHead(rest) == payload[i + 7 + l..])
  {
    hide FromBigEndian;
    var rest := payload[i..];
    SliceOfTail(payload, i, 0, 2);
    SliceOfTail(payload, i, 3, 7);
    if FitsAt(payload, i) {
      SliceOfTail(payload, i, 7, 7 + HeadLength(rest));
      SliceOfTail(payload, i, 7 + HeadLength(rest), |rest|);
    }
  }

  /** One turn of the cursor loop. */
  lemma CursorStep(payload: bytes, fields: seq<Field>, i: nat)
    requires i < |payload| && Parse(payload) == Prepend(fields, Parse(payload[i..]))
    ensures |payload| - i < HEADER_LEN ==> Parse(payload) == Err(ShortFieldHeader)
    ensures |payload| - i >= HEADER_LEN && !FitsAt(payload, i) ==> Parse(payload) == Err(ShortFieldValue)
    ensures |payload| - i >= HEADER_LEN && FitsAt(payload, i) ==>
              var l := FromU32(payload[i + 3..i + 7]);
              && i + HEADER_LEN + l <= |payload|
              && Parse(payload) ==
                 Prepend(fields + [Field(FromU16(payload[i..i + 2]), payload[i + 2], payload[i + 7..i + 7 + l])],
                         Parse(payload[i + 7 + l..]))
  {
    hide Parse, HeadLength, Head, AfterHead, FromU32, FromU16;
    var rest := payload[i..];
    ParseStep(rest);
    if |rest| >= HEADER_LEN {
      HeadAt(payload, i);
      if FitsAt(payload, i) {
        PrependConcat(fields, [Head(rest)], Parse(AfterHead(rest)));
      }
    }
  }

  /** Terminates on every payload and never reads outside it, whatever lengths the payload declares. */
  method DecodeFields(payload: bytes) returns (r: Result<seq<Field>>)
    ensures r == Parse(payload)
  {
    hide Parse;
    var fields: seq<Field> := [];
    var i := 0;
    assert payload[0..] == payload;
    PrependConcat([], [], Parse(payload));
    while i < |payload|
      invariant 0 <= i <= |payload|
      invariant Parse(payload) == Prepend(fields, Parse(payload[i..]))
    {
      CursorStep(payload, fields, i);
      if |payload| - i < HEADER_LEN {
        return Err(ShortFieldHeader);
      }
      var id, typ, l := FromU16(payload[i..i + 2]), payload[i + 2], FromU32(payload[i + 3..i + 7]);
      i := i + HEADER_LEN;
      if Low32(|payload| - i) < l {
        return Err(ShortFieldValue);
      }
      var val := payload[i..i + l];
      i := i + l;
      fields := fields + [Field(id, typ, val)];
    }
    ParseEmpty();
    assert payload[i..] == [];
    PrependConcat(fields, [], Ok([]));
    return Ok(fields);
  }

  // ---------------------------------------------------------------- decoding undoes encoding

  ghost predicate ShortValues(fs: seq<Field>) { forall i :: 0 <= i < |fs| ==> |fs[i].value| < TWO32 }

  lemma ConcatAssociative(a: bytes, b: bytes, c: bytes)
    ensures a + b + c == a + (b + c)
  {
  }

  lemma {:induction false} FieldsBytesConcat(a: seq<Field>, b: seq<Field>)
    ensures FieldsBytes(a + b) == FieldsBytes(a) + FieldsBytes(b)
  {
    if b == [] {
      assert a + b == a;
    } else {
      var c, last := a + b, FieldBytes(b[|b| - 1]);
      assert c[..|c| - 1] == a + b[..|b| - 1] && c[|c| - 1] == b[|b| - 1];
      FieldsBytesConcat(a, b[..|b| - 1]);
      ConcatAssociative(FieldsBytes(a), FieldsBytes(b[..|b| - 1]), last);
    }
  }

  lemma FieldsBytesCons(f: Field, fs: seq<Field>)
    ensures FieldsBytes([f] + fs) == FieldBytes(f) + FieldsBytes(fs)
  {
    FieldsBytesConcat([f], fs);
    assert [f][..0] == [];
  }

  /** The header that FieldBytes writes reads back as the field's own id, type and length. */
  lemma HeaderReadsBack(f: Field, tail: bytes)
    requires |f.value| < TWO32
    ensures var p := FieldBytes(f) + tail;
            && HeadLength(p) == |f.value| && Head(p) == f && AfterHead(p) == tail
  {
    var p := FieldBytes(f) + tail;
    assert p[..2] == U16(f.id);
    assert p[3..7] == U32(|f.value|);
    assert p[7..7 + |f.value|] == f.value;
    U16Inverse(f.id, U16(f.id));
    U32Inverse(|f.value|, U32(|f.value|));
  }

  /** The other way: seven header bytes and a value of the declared length are the encoding of the field read. */
  lemma HeaderWritesBack(p: bytes)
    requires |p| >= HEADER_LEN && HEADER_LEN + HeadLength(p) <= |p|
    ensures FieldBytes(Head(p)) + AfterHead(p) == p
  {
    U16Inverse(0, p[..2]);
    U32Inverse(0, p[3..7]);
    var l := HeadLength(p);
    assert p == p[..2] + [p[2]] + p[3..7] + p[7..7 + l] + AfterHead(p);
  }

  /** The check DecodeFields makes before it takes field `f` off a payload that goes on with `tail`. */
  predicate LengthCheck(f: Field, tail: bytes) { Low32(|f.value| + |tail|) >= |f.value| }

  lemma ParseOne(f: Field, tail: bytes)
    requires |f.value| < TWO32
    ensures Parse(FieldBytes(f) + tail)
            == if LengthCheck(f, tail) then Prepend([f], Parse(tail)) else Err(ShortFieldValue)
  {
    hide Parse, FieldBytes, HeadLength, Head, AfterHead;
    HeaderReadsBack(f, tail);
    ParseStep(FieldBytes(f) + tail);
  }

  /** Every field of the encoded list passes its length check. */
  predicate Readable(fs: seq<Field>)
  {
    fs == [] || (LengthCheck(fs[0], FieldsBytes(fs[1..])) && Readable(fs[1..]))
  }

  lemma {:induction false} ShortValuesReadBackIff(fs: seq<Field>)
    requires ShortValues(fs)
    ensures Parse(FieldsBytes(fs)) == Ok(fs) <==> Readable(fs)
  {
    if fs != [] {
      var tail := FieldsBytes(fs[1..]);
      assert fs == [fs[0]] + fs[1..];
      FieldsBytesCons(fs[0], fs[1..]);
      ParseOne(fs[0], tail);
      ShortValuesReadBackIff(fs[1..]);
      if Parse(tail).Ok? && [fs[0]] + Parse(tail).value == fs {
        assert Parse(tail).value == ([fs[0]] + Parse(tail).value)[1..] == fs[1..];
      }
    }
  }

  lemma {:induction false} SmallIsReadable(fs: seq<Field>)
    requires |FieldsBytes(fs)| < TWO32
    ensures Readable(fs)
  {
    if fs != [] {
      assert fs == [fs[0]] + fs[1..];
      FieldsBytesCons(fs[0], fs[1..]);
      SmallIsReadable(fs[1..]);
    }
  }

  /** In particular below 2^32 bytes. */
  lemma ParseUndoesEncode(fs: seq<Field>)
    requires ShortValues(fs) && |FieldsBytes(fs)| < TWO32
    ensures Parse(FieldsBytes(fs)) == Ok(fs)
  {
    SmallIsReadable(fs);
    ShortValuesReadBackIff(fs);
  }

  /** A 4 GiB payload the encoder writes and the decoder refuses. */
  lemma LargePayloadRefused(v: bytes)
    requires |v| == TWO32 - 8
    ensures Parse(FieldsBytes([Field(1, TYPE_BYTES, [0]), Field(2, TYPE_BYTES, v)])) == Err(ShortFieldValue)
  {
    var f, g := Field(1, TYPE_BYTES, [0]), Field(2, TYPE_BYTES, v);
    FieldsBytesCons(f, [g]);
    FieldsBytesCons(g, []);
    assert [f] + [g] == [f, g] && [g] + [] == [g];
    ParseOne(f, FieldsBytes([g]));
  }

  /** Whatever DecodeFields accepts, at any length, is the encoding of the list it returns. */
  lemma {:induction false} EncodeUndoesParse(p: bytes)
    requires Parse(p).Ok?
    ensures FieldsBytes(Parse(p).value) == p
    ensures ShortValues(Parse(p).value)
    decreases |p|
  {
    if p != [] {
      ParseStep(p);
      var fs := Parse(AfterHead(p)).value;
      EncodeUndoesParse(AfterHead(p));
      FieldsBytesCons(Head(p), fs);
      HeaderWritesBack(p);
    }
  }

  /** Decoding an encoding gives the same ordered list, unknown ids and duplicates kept, exactly when every value is
      below 2^32 bytes and no length check is upset by the cut to 32 bits. */
  lemma DecodeUndoesEncodeIff(fs: seq<Field>)
    ensures Parse(FieldsBytes(fs)) == Ok(fs) <==> ShortValues(fs) && Readable(fs)
  {
    if ShortValues(fs) {
      ShortValuesReadBackIff(fs);
    } else if Parse(FieldsBytes(fs)).Ok? {
      EncodeUndoesParse(FieldsBytes(fs));
    }
  }

  /** Below 2^32 bytes a payload decodes to a list exactly when it is the encoding of that list. */
  lemma DecodesIffEncodes(p: bytes, fs: seq<Field>)
    requires |p| < TWO32
    ensures Parse(p) == Ok(fs) <==> p == FieldsBytes(fs) && ShortValues(fs)
  {
    if Parse(p) == Ok(fs) {
      EncodeUndoesParse(p);
    }
    if p == FieldsBytes(fs) && ShortValues(fs) {
      ParseUndoesEncode(fs);
    }
  }

  /** Two field lists with one encoding are one list. */
  lemma EncodingInjective(a: seq<Field>, b: seq<Field>)
    requires ShortValues(a) && ShortValues(b) && |FieldsBytes(a)| < TWO32
    requires FieldsBytes(a) == FieldsBytes(b)
    ensures a == b
  {
    ParseUndoesEncode(a);
    ParseUndoesEncode(b);
  }

  // ---------------------------------------------------------------- field lookup

  /** GetField is the first match. */
  lemma {:induction false} GetFieldFirst(fs: seq<Field>, i: nat)
    requires i < |fs| && forall j :: 0 <= j < i ==> fs[j].id != fs[i].id
    ensures GetField(fs, fs[i].id) == Some(fs[i])
  {
    if i > 0 {
      GetFieldFirst(fs[1..], i - 1);
    }
  }

  lemma {:induction false} GetFieldConcat(a: seq<Field>, b: seq<Field>, id: u16)
    ensures GetField(a + b, id) == if GetField(a, id).Some? then GetField(a, id) else GetField(b, id)
  {
    if a == [] {
      assert a + b == b;
    } else {
      assert (a + b)[1..] == a[1..] + b;
      GetFieldConcat(a[1..], b, id);
    }
  }

  /** Fields with other ids, wherever they are inserted, do not change what a lookup finds. */
  lemma InsertedFieldsInert(a: seq<Field>, extra: seq<Field>, b: seq<Field>, id: u16)
    requires forall x :: x in extra ==> x.id != id
    ensures GetField(a + extra + b, id) == GetField(a + b, id)
  {
    GetFieldConcat(a + extra, b, id);
    GetFieldConcat(a, extra, id);
    GetFieldConcat(a, b, id);
  }

  /** Fields appended at the end cannot override an id that is already present. */
  lemma AppendedDuplicateInert(a: seq<Field>, extra: seq<Field>, id: u16)
    requires GetField(a, id).Some? || forall x :: x in extra ==> x.id != id
    ensures GetField(a + extra, id) == GetField(a, id)
  {
    GetFieldConcat(a, extra, id);
  }
}
