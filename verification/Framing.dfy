/** internal/protocol/frame: a fixed 32-byte header, an optional auth block, a payload. */
module Framing {
  import opened Bytes
  import opened Errors

  const FIXED_HEADER_LEN: u16 := 32
  const MAGIC: u32 := 0xEDCE_1001
  const VERSION: u16 := 1
  // Flag bits has_auth = 1, is_response = 2, is_error = 4; every higher bit is unsupported.
  const FLAG_IS_RESPONSE: u32 := 2

  datatype Header = Header(magic: u32, version: u16, headerLen: u16, messageID: u64,
                           messageType: u32, flags: u32, payloadLen: u64)
  datatype Frame = Frame(header: Header, auth: bytes, payload: bytes)
  datatype Limits = Limits(maxAuth: u64, maxPayload: u64)

  const MAX_AUTH: u64 := 65536
  const MAX_PAYLOAD: u64 := 8388608
  const DEFAULT_LIMITS: Limits := Limits(MAX_AUTH, MAX_PAYLOAD)

  predicate HasAuth(flags: u32) { flags % 2 == 1 }

  predicate SupportedFlags(flags: u32) { flags / 8 == 0 }

  /** `flags |= has_auth` and `flags &^= has_auth`. */
  function WithAuthFlag(flags: u32, on: bool): (r: u32)
    ensures HasAuth(r) == on && r / 2 == flags / 2
  {
    flags / 2 * 2 + if on then 1 else 0
  }

  // ---------------------------------------------------------------- what the wire format is

  /** Widths of the header fields, in wire order. */
  const LAYOUT: seq<nat> := [4, 2, 2, 8, 4, 4, 8]

  lemma LayoutWidth()
    ensures Width(LAYOUT, 0) == 32
    ensures Pow256(2) == 0x1_0000 && Pow256(4) == 0x1_0000_0000 && Pow256(8) == 0x1_0000_0000_0000_0000
  {
    assert Width(LAYOUT, 4) == 16;
  }

  function HeaderValues(h: Header): (vs: seq<nat>)
    ensures |vs| == |LAYOUT|
    ensures forall i :: 0 <= i < |LAYOUT| ==> vs[i] < Pow256(LAYOUT[i])
  {
    LayoutWidth();
    [h.magic, h.version, h.headerLen, h.messageID, h.messageType, h.flags, h.payloadLen]
  }

  function HeaderBytes(h: Header): (b: bytes)
    ensures |b| == 32
  {
    LayoutWidth();
    Pack(HeaderValues(h), LAYOUT, 0)
  }

  function HeaderOf(b: bytes): (h: Header)
    requires |b| == 32
  {
    LayoutWidth();
    var vs := Unpack(b, LAYOUT, 0);
    Header(vs[0], vs[1], vs[2], vs[3], vs[4], vs[5], vs[6])
  }

  /** DecodeHeader's answer. */
  function ParseHeader(b: bytes): Result<Header>
  {
    if |b| != 32 then Err(BadHeaderLength)
    else
      var h := HeaderOf(b);
      if h.magic != MAGIC then Err(UnsupportedMagic)
      else if h.version != VERSION then Err(UnsupportedVersion)
      else if !SupportedFlags(h.flags) then Err(UnsupportedFlags)
      else Ok(h)
  }

  /** The header WriteFrame puts on the wire. header_len is added up in uint16. */
  function WireHeader(f: Frame): (h: Header)
    requires |f.payload| < 0x1_0000_0000_0000_0000
  {
    f.header.(magic := if f.header.magic == 0 then MAGIC else f.header.magic,
              version := if f.header.version == 0 then VERSION else f.header.version,
              headerLen := Low16(32 + |f.auth|),
              flags := WithAuthFlag(f.header.flags, |f.auth| > 0),
              payloadLen := |f.payload|)
  }

  /** What WriteFrame makes of a frame. */
  function Written(f: Frame, limits: Limits): Result<bytes>
  {
    if |f.auth| > limits.maxAuth then Err(AuthTooLarge)
    else if |f.payload| > limits.maxPayload then Err(PayloadTooLarge)
    else if !SupportedFlags(f.header.flags) then Err(UnsupportedFlags)
    else Ok(HeaderBytes(WireHeader(f)) + f.auth + f.payload)
  }

  /** The checks ReadFrame makes on a decoded header, in order. */
  function HeaderProblem(h: Header, limits: Limits): (e: Option<Error>)
    ensures e == None ==> h.headerLen >= FIXED_HEADER_LEN
  {
    if h.headerLen < FIXED_HEADER_LEN then Some(HeaderLenTooSmall)
    else if HasAuth(h.flags) && h.headerLen == FIXED_HEADER_LEN then Some(HeaderLenMismatch)
    else if h.headerLen - FIXED_HEADER_LEN > limits.maxAuth then Some(AuthTooLarge)
    else if h.payloadLen > limits.maxPayload then Some(PayloadTooLarge)
    else None
  }

  /** The frame cut out of the bytes after an accepted header, and what is left. */
  function ReadBody(h: Header, rest: bytes): (Result<Frame>, bytes)
    requires h.headerLen >= FIXED_HEADER_LEN
  {
    var a: nat, n: nat := h.headerLen - FIXED_HEADER_LEN, h.payloadLen;
    if |rest| < a + n then (Err(UnexpectedEnd), [])
    else (Ok(Frame(h, rest[..a], rest[a..a + n])), rest[a + n..])
  }

  /** What ReadFrame makes of the bytes a reader holds: the frame or error, and the bytes left behind. */
  function Read(data: bytes, limits: Limits): (r: (Result<Frame>, bytes))
  {
    if |data| < 32 then (Err(ShortHeader), [])
    else
      var rest := data[32..];
      match ParseHeader(data[..32])
      case Err(e) => (Err(e), rest)
      case Ok(h) =>
        var problem := HeaderProblem(h, limits);
        if problem.Some? then (Err(problem.value), rest) else ReadBody(h, rest)
  }

  // ---------------------------------------------------------------- the code

  /** The header buffer, filled field by field at the offsets of the wire contract. */
  method EncodeHeader(h: Header) returns (out: bytes)
    ensures out == HeaderBytes(h)
  {
    var buf := new byte[32](_ => 0);
    hide BigEndian, HeaderBytes;
    PutUint(buf, 0, 4, h.magic);
    PutUint(buf, 4, 2, h.version);
    PutUint(buf, 6, 2, h.headerLen);
    PutUint(buf, 8, 8, h.messageID);
    PutUint(buf, 16, 4, h.messageType);
    PutUint(buf, 20, 4, h.flags);
    PutUint(buf, 24, 8, h.payloadLen);
    out := buf[..];
    assert out == buf[..32];
    HeaderInOrder(h);
  }

  lemma HeaderInOrder(h: Header)
    ensures HeaderBytes(h) == [] + U32(h.magic) + U16(h.version) + U16(h.headerLen) + U64(h.messageID)
                              + U32(h.messageType) + U32(h.flags) + U64(h.payloadLen)
  {
    hide BigEndian;
    var vs := HeaderValues(h);
    var third, second := U32(h.flags) + U64(h.payloadLen), U64(h.messageID) + U32(h.messageType);
    assert Pack(vs, LAYOUT, 7) == [];
    assert Pack(vs, LAYOUT, 6) == U64(h.payloadLen);
    assert Pack(vs, LAYOUT, 5) == third;
    assert Pack(vs, LAYOUT, 4) == U32(h.messageType) + third;
    assert Pack(vs, LAYOUT, 3) == second + third;
    assert Pack(vs, LAYOUT, 2) == U16(h.headerLen) + (second + third);
    assert Pack(vs, LAYOUT, 1) == U16(h.version) + U16(h.headerLen) + (second + third);
  }

  method DecodeHeader(b: bytes) returns (r: Result<Header>)
    ensures r == ParseHeader(b)
  {
    if |b| != 32 { return Err(BadHeaderLength); }
    var h := HeaderOf(b);
    if h.magic != MAGIC { return Err(UnsupportedMagic); }
    if h.version != VERSION { return Err(UnsupportedVersion); }
    if h.flags / 8 != 0 { return Err(UnsupportedFlags); }
    return Ok(h);
  }

  /** An io.Reader over bytes that have all arrived. */
  class Reader {
    var data: bytes

    constructor (data: bytes)
      ensures this.data == data
    {
      this.data := data;
    }

    /** io.ReadFull: `n` bytes, or an error once everything there was has been consumed. */
    method ReadFull(n: nat) returns (r: Result<bytes>)
      modifies this
      ensures n <= old(|data|) ==> r == Ok(old(data)[..n]) && data == old(data)[n..]
      ensures n > old(|data|) ==> r == Err(UnexpectedEnd) && data == []
    {
      if n <= |data| {
        r := Ok(data[..n]);
        data := data[n..];
      } else {
        r := Err(UnexpectedEnd);
        data := [];
      }
    }
  }

  /** An io.Writer that accepts every write. */
  class Writer {
    var data: bytes

    constructor ()
      ensures data == []
    {
      data := [];
    }

    method Write(b: bytes)
      modifies this
      ensures data == old(data) + b
    {
      data := data + b;
    }
  }

  method ReadFrame(r: Reader, limits: Limits) returns (result: Result<Frame>)
    modifies r
    ensures (result, r.data) == Read(old(r.data), limits)
  {
    var fixed := r.ReadFull(32);
    if fixed.Err? { return Err(ShortHeader); }
    var header := DecodeHeader(fixed.value);
    if header.Err? { return Err(header.error); }
    var h := header.value;
    if h.headerLen < FIXED_HEADER_LEN { return Err(HeaderLenTooSmall); }
    var authLen := h.headerLen - FIXED_HEADER_LEN;
    if HasAuth(h.flags) && authLen == 0 { return Err(HeaderLenMismatch); }
    if authLen > limits.maxAuth { return Err(AuthTooLarge); }
    if h.payloadLen > limits.maxPayload { return Err(PayloadTooLarge); }
    assert HeaderProblem(h, limits) == None;
    result := ReadAuthAndPayload(r, h);
  }

  method ReadAuthAndPayload(r: Reader, h: Header) returns (result: Result<Frame>)
    requires h.headerLen >= FIXED_HEADER_LEN
    modifies r
    ensures (result, r.data) == ReadBody(h, old(r.data))
  {
    ghost var rest := r.data;
    var authLen := h.headerLen - FIXED_HEADER_LEN;
    var auth: Result<bytes> := Ok([]);
    if authLen > 0 {
      auth := r.ReadFull(authLen);
      if auth.Err? { return Err(auth.error); }
    }
    assert r.data == rest[authLen..] && auth.value == rest[..authLen];
    var payload: Result<bytes> := Ok([]);
    if h.payloadLen > 0 {
      payload := r.ReadFull(h.payloadLen);
      if payload.Err? { return Err(payload.error); }
    }
    assert rest[authLen..][..h.payloadLen] == rest[authLen..authLen + h.payloadLen];
    assert rest[authLen..][h.payloadLen..] == rest[authLen + h.payloadLen..];
    return Ok(Frame(h, auth.value, payload.value));
  }

  lemma SumInUint16(n: nat)
    ensures Low16(32 + Low16(n)) == Low16(32 + n)
  {
  }

  method WriteFrame(w: Writer, f: Frame, limits: Limits) returns (problem: Option<Error>)
    modifies w
    ensures match Written(f, limits)
            case Ok(b) => problem == None && w.data == old(w.data) + b
            case Err(e) => problem == Some(e) && w.data == old(w.data)
  {
    hide HeaderBytes, SupportedFlags;
    if |f.auth| > limits.maxAuth { return Some(AuthTooLarge); }
    if |f.payload| > limits.maxPayload { return Some(PayloadTooLarge); }
    var h := f.header;
    if h.magic == 0 { h := h.(magic := MAGIC); }
    if h.version == 0 { h := h.(version := VERSION); }
    if !SupportedFlags(h.flags) { return Some(UnsupportedFlags); }
    SumInUint16(|f.auth|);
    h := h.(headerLen := Low16(32 + Low16(|f.auth|)), payloadLen := |f.payload|);
    h := h.(flags := WithAuthFlag(h.flags, |f.auth| > 0));
    assert h == WireHeader(f);
    var hb := EncodeHeader(h);
    EmitFrame(w, hb, f);
    return None;
  }

  method EmitFrame(w: Writer, hb: bytes, f: Frame)
    modifies w
    ensures w.data == old(w.data) + (hb + f.auth + f.payload)
  {
    w.Write(hb);
    if |f.auth| > 0 { w.Write(f.auth); }
    assert w.data == old(w.data) + (hb + f.auth);
    if |f.payload| > 0 { w.Write(f.payload); }
    assert w.data == old(w.data) + (hb + f.auth + f.payload);
  }

  // ---------------------------------------------------------------- header inverse

  lemma HeaderReadsBack(h: Header)
    ensures HeaderOf(HeaderBytes(h)) == h
  {
    UnpackUndoesPack(HeaderValues(h), LAYOUT, 0);
  }

  lemma HeaderWritesBack(b: bytes)
    requires |b| == 32
    ensures HeaderBytes(HeaderOf(b)) == b
  {
    LayoutWidth();
    assert HeaderValues(HeaderOf(b)) == Unpack(b, LAYOUT, 0);
    PackUndoesUnpack(b, HeaderValues(HeaderOf(b)), LAYOUT, 0);
  }

  // ---------------------------------------------------------------- frames are never misread

  /** The frame as the other side sees it. */
  function Normalised(f: Frame): Frame
    requires |f.payload| < 0x1_0000_0000_0000_0000
  {
    Frame(WireHeader(f), f.auth, f.payload)
  }

  /** The largest auth block whose header_len fits in uint16. */
  const MAX_CARRIED_AUTH: nat := 65503

  /** What a caller can look at before writing: the frame will be read back. */
  predicate Carried(f: Frame)
  {
    && |f.auth| <= MAX_CARRIED_AUTH
    && (f.header.magic == 0 || f.header.magic == MAGIC)
    && (f.header.version == 0 || f.header.version == VERSION)
  }

  lemma WrittenHeader(f: Frame, tail: bytes)
    requires Written(f, DEFAULT_LIMITS).Ok?
    ensures var data := Written(f, DEFAULT_LIMITS).value + tail; var h := WireHeader(f);
            && |data| >= 32 && HeaderOf(data[..32]) == h && data[32..] == f.auth + f.payload + tail
            && SupportedFlags(h.flags)
  {
    hide HeaderBytes, HeaderOf;
    var data := Written(f, DEFAULT_LIMITS).value + tail;
    HeaderReadsBack(WireHeader(f));
    assert data[..32] == HeaderBytes(WireHeader(f));
  }

  lemma CarriedIsRead(f: Frame, tail: bytes)
    requires Written(f, DEFAULT_LIMITS).Ok? && Carried(f)
    ensures Read(Written(f, DEFAULT_LIMITS).value + tail, DEFAULT_LIMITS) == (Ok(Normalised(f)), tail)
  {
    hide HeaderBytes, HeaderOf;
    WrittenHeader(f, tail);
    var h, body := WireHeader(f), f.auth + f.payload + tail;
    assert h.headerLen == 32 + |f.auth|;
    assert body[..|f.auth|] == f.auth;
    assert body[|f.auth|..|f.auth| + |f.payload|] == f.payload;
    assert body[|f.auth| + |f.payload|..] == tail;
  }

  /** Auth blocks of 65504 to 65536 bytes wrap header_len around to at most 32. */
  lemma LongAuthIsRejected(f: Frame, tail: bytes)
    requires Written(f, DEFAULT_LIMITS).Ok? && |f.auth| > MAX_CARRIED_AUTH
    ensures Read(Written(f, DEFAULT_LIMITS).value + tail, DEFAULT_LIMITS).0.Err?
  {
    hide HeaderBytes, HeaderOf;
    WrittenHeader(f, tail);
    assert WireHeader(f).headerLen == |f.auth| - 65504;
  }

  lemma ForeignHeaderIsRejected(f: Frame, tail: bytes)
    requires Written(f, DEFAULT_LIMITS).Ok? && (f.header.magic !in {0, MAGIC} || f.header.version !in {0, VERSION})
    ensures Read(Written(f, DEFAULT_LIMITS).value + tail, DEFAULT_LIMITS).0.Err?
  {
    hide HeaderBytes, HeaderOf;
    WrittenHeader(f, tail);
  }

  /** Under the default limits, and whatever follows it on the stream, a written frame is read back as its
      normalised form, leaving exactly what follows, when it is Carried; otherwise it is rejected. It is
      never read as anything else. */
  lemma NeverMisread(f: Frame, tail: bytes)
    requires Written(f, DEFAULT_LIMITS).Ok?
    ensures var r := Read(Written(f, DEFAULT_LIMITS).value + tail, DEFAULT_LIMITS);
            if Carried(f) then r == (Ok(Normalised(f)), tail) else r.0.Err?
  {
    if Carried(f) {
      CarriedIsRead(f, tail);
    } else if |f.auth| > MAX_CARRIED_AUTH {
      LongAuthIsRejected(f, tail);
    } else {
      ForeignHeaderIsRejected(f, tail);
    }
  }

  /** The has_auth bit agrees with the auth bytes. */
  predicate Truthful(f: Frame) { HasAuth(f.header.flags) <==> f.auth != [] }

  lemma AcceptedShape(data: bytes, limits: Limits)
    requires Read(data, limits).0.Ok?
    ensures var f := Read(data, limits).0.value;
            && |data| >= 32 && f.header == HeaderOf(data[..32])
            && f.header.magic == MAGIC && f.header.version == VERSION && SupportedFlags(f.header.flags)
            && f.header.headerLen == 32 + |f.auth| && f.header.payloadLen == |f.payload|
            && |f.auth| <= limits.maxAuth && |f.payload| <= limits.maxPayload
            && data[32..] == f.auth + f.payload + Read(data, limits).1
  {
    hide HeaderBytes, HeaderOf;
    var f, rest := Read(data, limits).0.value, data[32..];
    var a, p := |f.auth|, |f.payload|;
    assert rest == rest[..a] + rest[a..a + p] + rest[a + p..];
  }

  lemma AuthFlagIdempotent(flags: u32, on: bool)
    ensures WithAuthFlag(flags, on) == flags <==> HasAuth(flags) == on
  {
  }

  lemma TruthfulReencodes(data: bytes, limits: Limits)
    requires Read(data, limits).0.Ok? && Truthful(Read(data, limits).0.value)
    ensures var (f, left) := (Read(data, limits).0.value, Read(data, limits).1);
            Written(f, limits).Ok? && Written(f, limits).value + left == data
  {
    hide HeaderBytes, HeaderOf;
    var f, left := Read(data, limits).0.value, Read(data, limits).1;
    AcceptedShape(data, limits);
    AuthFlagIdempotent(f.header.flags, |f.auth| > 0);
    assert WireHeader(f) == f.header;
    HeaderWritesBack(data[..32]);
    assert data == data[..32] + data[32..];
  }

  /** Accepted bytes re-encode to exactly the bytes consumed when, and only when, the has_auth bit tells the truth. */
  lemma AcceptedReencodes(data: bytes, limits: Limits)
    requires Read(data, limits).0.Ok?
    ensures var (f, left) := (Read(data, limits).0.value, Read(data, limits).1);
            && Written(f, limits).Ok?
            && (Written(f, limits).value + left == data <==> Truthful(f))
  {
    hide HeaderBytes, HeaderOf;
    var f, left := Read(data, limits).0.value, Read(data, limits).1;
    AcceptedShape(data, limits);
    if Truthful(f) {
      TruthfulReencodes(data, limits);
    } else {
      var w := Written(f, limits).value;
      if w + left == data {
        assert data[..32] == HeaderBytes(WireHeader(f));
        HeaderReadsBack(WireHeader(f));
        AuthFlagIdempotent(f.header.flags, |f.auth| > 0);
        assert false;
      }
    }
  }

  // ---------------------------------------------------------------- self-delimiting streams

  /** The bytes of frames written one after the other. */
  function Stream(fs: seq<Frame>): (b: bytes)
    requires forall f :: f in fs ==> Written(f, DEFAULT_LIMITS).Ok?
  {
    if fs == [] then [] else Written(fs[0], DEFAULT_LIMITS).value + Stream(fs[1..])
  }

  /** `n` calls of ReadFrame on one reader. */
  function ReadMany(data: bytes, n: nat): (r: (Result<seq<Frame>>, bytes))
  {
    if n == 0 then (Ok([]), data)
    else
      var (first, rest) := Read(data, DEFAULT_LIMITS);
      if first.Err? then (Err(first.error), rest)
      else
        var (others, left) := ReadMany(rest, n - 1);
        (if others.Ok? then Ok([first.value] + others.value) else others, left)
  }

  function NormalisedAll(fs: seq<Frame>): (r: seq<Frame>)
    requires forall f :: f in fs ==> Written(f, DEFAULT_LIMITS).Ok?
  {
    if fs == [] then []
    else
      assert Written(fs[0], DEFAULT_LIMITS).Ok?;
      [Normalised(fs[0])] + NormalisedAll(fs[1..])
  }

  /** k written frames followed by any tail are read back as exactly those k frames, leaving exactly the tail. */
  lemma {:induction false} SelfDelimiting(fs: seq<Frame>, tail: bytes)
    requires forall f :: f in fs ==> Written(f, DEFAULT_LIMITS).Ok? && Carried(f)
    ensures ReadMany(Stream(fs) + tail, |fs|) == (Ok(NormalisedAll(fs)), tail)
  {
    hide Read, Written, Normalised, Carried;
    if fs == [] {
      assert Stream(fs) + tail == tail;
    } else {
      var one, more := Written(fs[0], DEFAULT_LIMITS).value, Stream(fs[1..]) + tail;
      assert Stream(fs) + tail == one + more;
      NeverMisread(fs[0], more);
      SelfDelimiting(fs[1..], tail);
    }
  }
}
