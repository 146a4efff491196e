/** Go's bytes, fixed-width integers and strings.
    A Go string is a sequence of bytes, so `string` and `[]byte` are both `bytes` here. */
module Bytes {
  type byte = x: int | 0 <= x < 0x100
  type u16 = x: int | 0 <= x < 0x1_0000
  type u32 = x: int | 0 <= x < 0x1_0000_0000
  type u64 = x: int | 0 <= x < 0x1_0000_0000_0000_0000
  type bytes = seq<byte>

  const MAX_U64: u64 := 0xFFFF_FFFF_FFFF_FFFF

  /** n + 1 in uint64, which wraps. */
  function NextU64(n: u64): u64 { if n == MAX_U64 then 0 else n + 1 }

  /** Go's conversions uint16(n) and uint32(n). */
  function Low16(n: nat): (v: u16)
    ensures v <= n
    ensures n < 0x1_0000 ==> v == n
  {
    n % 0x1_0000
  }

  function Low32(n: nat): (v: u32)
    ensures v <= n
    ensures n < 0x1_0000_0000 ==> v == n
  {
    n % 0x1_0000_0000
  }

  // ---------------------------------------------------------------- big-endian integers

  function Pow256(n: nat): (p: nat)
    ensures p > 0
  {
    if n == 0 then 1 else 256 * Pow256(n - 1)
  }

  /** The low `n` bytes of `v`, most significant first. */
  function BigEndian(v: nat, n: nat): (b: bytes)
    ensures |b| == n
  {
    if n == 0 then [] else BigEndian(v / 256, n - 1) + [v % 256]
  }

  function FromBigEndian(b: bytes): (v: nat)
    ensures v < Pow256(|b|)
  {
    if b == [] then 0
    else
      var last: int := b[|b| - 1];
      FromBigEndian(b[..|b| - 1]) * 256 + last
  }

  lemma {:induction false} BigEndianReadsBack(v: nat, n: nat)
    requires v < Pow256(n)
    ensures FromBigEndian(BigEndian(v, n)) == v
  {
    if n > 0 {
      BigEndianReadsBack(v / 256, n - 1);
      assert BigEndian(v, n)[..n - 1] == BigEndian(v / 256, n - 1);
    }
  }

  lemma {:induction false} BigEndianWritesBack(b: bytes)
    ensures BigEndian(FromBigEndian(b), |b|) == b
  {
    if b != [] {
      BigEndianWritesBack(b[..|b| - 1]);
      assert b == b[..|b| - 1] + [b[|b| - 1]];
    }
  }

  function U16(v: u16): (b: bytes) ensures |b| == 2 { BigEndian(v, 2) }

  function U32(v: u32): (b: bytes) ensures |b| == 4 { BigEndian(v, 4) }

  function U64(v: u64): (b: bytes) ensures |b| == 8 { BigEndian(v, 8) }

  function FromU16(b: bytes): (v: u16)
    requires |b| == 2
  {
    FromBigEndian(b)
  }

  function FromU32(b: bytes): (v: u32)
    requires |b| == 4
  {
    assert Pow256(4) == 0x1_0000_0000;
    FromBigEndian(b)
  }

  function FromU64(b: bytes): (v: u64)
    requires |b| == 8
  {
    assert Pow256(8) == 0x1_0000_0000_0000_0000;
    FromBigEndian(b)
  }

  lemma U16Inverse(v: u16, b: bytes)
    requires |b| == 2
    ensures FromU16(U16(v)) == v && U16(FromU16(b)) == b
  {
    BigEndianReadsBack(v, 2);
    BigEndianWritesBack(b);
  }

  lemma U32Inverse(v: u32, b: bytes)
    requires |b| == 4
    ensures FromU32(U32(v)) == v && U32(FromU32(b)) == b
  {
    assert Pow256(4) == 0x1_0000_0000;
    BigEndianReadsBack(v, 4);
    BigEndianWritesBack(b);
  }

  lemma U64Inverse(v: u64, b: bytes)
    requires |b| == 8
    ensures FromU64(U64(v)) == v && U64(FromU64(b)) == b
  {
    assert Pow256(8) == 0x1_0000_0000_0000_0000;
    BigEndianReadsBack(v, 8);
    BigEndianWritesBack(b);
  }

  /** binary.BigEndian.PutUint16 (n = 2), PutUint32 (n = 4) and PutUint64 (n = 8) into `buf[at..]`. */
  method PutUint(buf: array<byte>, at: nat, n: nat, v: nat)
    requires at + n <= buf.Length
    modifies buf
    ensures buf[..at + n] == old(buf[..at]) + BigEndian(v, n)
    ensures buf[at + n..] == old(buf[at + n..])
  {
    var rest, k := v, n;
    while k > 0
      invariant 0 <= k <= n
      invariant BigEndian(v, n) == BigEndian(rest, k) + buf[at + k..at + n]
      invariant buf[..at] == old(buf[..at]) && buf[at + n..] == old(buf[at + n..])
    {
      ghost var done := buf[at + k..at + n];
      k := k - 1;
      buf[at + k] := rest % 256;
      assert buf[at + k..at + n] == [rest % 256] + done;
      rest := rest / 256;
    }
    assert buf[..at + n] == buf[..at] + buf[at..at + n];
  }

  // ---------------------------------------------------------------- records of fixed-width integers

  /** Bytes taken by the fields from the `i`-th on. */
  function Width(ws: seq<nat>, i: nat): nat
    requires i <= |ws|
    decreases |ws| - i
  {
    if i == |ws| then 0 else ws[i] + Width(ws, i + 1)
  }

  /** Integers `vs[i..]` written one after the other, `vs[i]` in `ws[i]` bytes. */
  function Pack(vs: seq<nat>, ws: seq<nat>, i: nat): (b: bytes)
    requires i <= |vs| == |ws|
    ensures |b| == Width(ws, i)
    decreases |ws| - i
  {
    if i == |ws| then [] else BigEndian(vs[i], ws[i]) + Pack(vs, ws, i + 1)
  }

  function Unpack(b: bytes, ws: seq<nat>, i: nat): (vs: seq<nat>)
    requires i <= |ws| && |b| == Width(ws, i)
    ensures |vs| == |ws| - i
    ensures forall j :: 0 <= j < |vs| ==> vs[j] < Pow256(ws[i + j])
    decreases |ws| - i
  {
    if i == |ws| then [] else [FromBigEndian(b[..ws[i]])] + Unpack(b[ws[i]..], ws, i + 1)
  }

  lemma {:induction false} UnpackUndoesPack(vs: seq<nat>, ws: seq<nat>, i: nat)
    requires i <= |vs| == |ws| && forall j :: 0 <= j < |ws| ==> vs[j] < Pow256(ws[j])
    ensures Unpack(Pack(vs, ws, i), ws, i) == vs[i..]
    decreases |ws| - i
  {
    if i < |ws| {
      var b := Pack(vs, ws, i);
      assert b[..ws[i]] == BigEndian(vs[i], ws[i]) && b[ws[i]..] == Pack(vs, ws, i + 1);
      BigEndianReadsBack(vs[i], ws[i]);
      UnpackUndoesPack(vs, ws, i + 1);
    }
  }

  lemma {:induction false} PackUndoesUnpack(b: bytes, vs: seq<nat>, ws: seq<nat>, i: nat)
    requires i <= |vs| == |ws| && |b| == Width(ws, i) && vs[i..] == Unpack(b, ws, i)
    ensures Pack(vs, ws, i) == b
    decreases |ws| - i
  {
    if i < |ws| {
      assert vs[i] == vs[i..][0] && vs[i + 1..] == vs[i..][1..] == Unpack(b[ws[i]..], ws, i + 1);
      BigEndianWritesBack(b[..ws[i]]);
      PackUndoesUnpack(b[ws[i]..], vs, ws, i + 1);
      assert b == b[..ws[i]] + b[ws[i]..];
    }
  }

  // ---------------------------------------------------------------- string literals

  function ByteOf(c: char): byte { c as int % 0x100 }

  function Ascii(s: string): (b: bytes)
    ensures |b| == |s|
    ensures forall i :: 0 <= i < |s| ==> b[i] == ByteOf(s[i])
  {
    seq(|s|, i requires 0 <= i < |s| => ByteOf(s[i]))
  }

  // ---------------------------------------------------------------- strings.TrimSpace

  predicate IsAsciiSpace(b: byte) { 9 <= b <= 13 || b == 32 }

  /** UTF-8 of U+0085 and U+00A0. */
  predicate IsSpace2(a: byte, b: byte) { a == 0xC2 && (b == 0x85 || b == 0xA0) }

  /** UTF-8 of U+1680, U+2000..U+200A, U+2028, U+2029, U+202F, U+205F and U+3000. */
  predicate IsSpace3(a: byte, b: byte, c: byte)
  {
    || (a == 0xE1 && b == 0x9A && c == 0x80)
    || (a == 0xE2 && b == 0x80 && (0x80 <= c <= 0x8A || c == 0xA8 || c == 0xA9 || c == 0xAF))
    || (a == 0xE2 && b == 0x81 && c == 0x9F)
    || (a == 0xE3 && b == 0x80 && c == 0x80)
  }

  /** Length of the white-space rune `s` starts with, 0 when there is none. */
  function SpaceAtFront(s: bytes): (n: nat)
    ensures n <= |s|
  {
    if |s| >= 1 && IsAsciiSpace(s[0]) then 1
    else if |s| >= 2 && IsSpace2(s[0], s[1]) then 2
    else if |s| >= 3 && IsSpace3(s[0], s[1], s[2]) then 3
    else 0
  }

  /** Length of the white-space rune `s` ends with, 0 when there is none. */
  function SpaceAtBack(s: bytes): (n: nat)
    ensures n <= |s|
  {
    if |s| >= 1 && IsAsciiSpace(s[|s| - 1]) then 1
    else if |s| >= 2 && IsSpace2(s[|s| - 2], s[|s| - 1]) then 2
    else if |s| >= 3 && IsSpace3(s[|s| - 3], s[|s| - 2], s[|s| - 1]) then 3
    else 0
  }

  predicate Trimmed(s: bytes) { SpaceAtFront(s) == 0 && SpaceAtBack(s) == 0 }

  function TrimLeft(s: bytes): (t: bytes)
    ensures SpaceAtFront(t) == 0
    ensures SpaceAtFront(s) == 0 ==> t == s
    ensures |t| <= |s|
    decreases |s|
  {
    if SpaceAtFront(s) == 0 then s else TrimLeft(s[SpaceAtFront(s)..])
  }

  function TrimRight(s: bytes): (t: bytes)
    ensures SpaceAtBack(t) == 0
    ensures SpaceAtBack(s) == 0 ==> t == s
    ensures SpaceAtFront(s) == 0 ==> SpaceAtFront(t) == 0
    ensures |t| <= |s|
    decreases |s|
  {
    if SpaceAtBack(s) == 0 then s else TrimRight(s[..|s| - SpaceAtBack(s)])
  }

  /** Trimming always yields a trimmed string and leaves a trimmed one alone. */
  function TrimSpace(s: bytes): (t: bytes)
    ensures Trimmed(t)
    ensures Trimmed(s) ==> t == s
    ensures |t| <= |s|
  {
    TrimRight(TrimLeft(s))
  }

  lemma TrimmedIsFixed(s: bytes)
    ensures Trimmed(s) ==> TrimSpace(s) == s
  {
  }

  predicate Blank(s: bytes) { TrimSpace(s) == [] }

  /** White-space runes and nothing else, read from the front. */
  predicate SpacesForward(s: bytes)
    decreases |s|
  {
    s == [] || (SpaceAtFront(s) > 0 && SpacesForward(s[SpaceAtFront(s)..]))
  }

  /** White-space runes and nothing else, read from the back. */
  predicate SpacesBackward(s: bytes)
    decreases |s|
  {
    s == [] || (SpaceAtBack(s) > 0 && SpacesBackward(s[..|s| - SpaceAtBack(s)]))
  }

  /** A white-space rune at an end is still there in any piece of the string that holds it at that end. */
  lemma SameRune(s: bytes, a: bytes, b: bytes)
    requires s == a + b
    ensures 0 < SpaceAtFront(s) <= |a| ==> SpaceAtFront(a) == SpaceAtFront(s)
    ensures 0 < SpaceAtBack(s) <= |b| ==> SpaceAtBack(b) == SpaceAtBack(s)
  {
  }

  lemma {:induction false} TrimLeftParts(s: bytes) returns (a: bytes)
    ensures s == a + TrimLeft(s) && SpacesForward(a)
    decreases |s|
  {
    hide SpaceAtFront;
    var n := SpaceAtFront(s);
    if n == 0 {
      a := [];
    } else {
      var rest := TrimLeftParts(s[n..]);
      a := s[..n] + rest;
      SameRune(s, a, TrimLeft(s));
      assert a[n..] == rest;
    }
  }

  lemma {:induction false} TrimRightParts(s: bytes) returns (b: bytes)
    ensures s == TrimRight(s) + b && SpacesBackward(b)
    decreases |s|
  {
    hide SpaceAtBack;
    var n := SpaceAtBack(s);
    if n == 0 {
      b := [];
    } else {
      var rest := TrimRightParts(s[..|s| - n]);
      b := rest + s[|s| - n..];
      SameRune(s, TrimRight(s), b);
      assert b[..|b| - n] == rest;
    }
  }

  /** TrimSpace takes white space off both ends and nothing else. */
  lemma TrimSpaceParts(s: bytes) returns (a: bytes, b: bytes)
    ensures s == a + TrimSpace(s) + b && SpacesForward(a) && SpacesBackward(b)
  {
    hide TrimLeft, TrimRight, SpacesForward, SpacesBackward;
    a := TrimLeftParts(s);
    b := TrimRightParts(TrimLeft(s));
  }

  predicate Printable(s: bytes) { forall i :: 0 <= i < |s| ==> 33 <= s[i] <= 126 }

  /** A printable prefix on a string that does not end in white space leaves nothing to trim. */
  lemma PrefixTrimmed(p: bytes, t: bytes)
    requires p != [] && Printable(p) && SpaceAtBack(t) == 0
    ensures Trimmed(p + t)
    ensures !Blank(p + t)
  {
    var s := p + t;
    assert s[0] == p[0];
    if t == [] {
      assert s[|s| - 1] == p[|p| - 1];
    } else {
      assert s[|s| - 1] == t[|t| - 1];
      if |s| >= 2 { assert s[|s| - 2] == if |t| >= 2 then t[|t| - 2] else p[|p| - 1]; }
      if |s| >= 3 {
        assert s[|s| - 3] == if |t| >= 3 then t[|t| - 3] else if |t| == 2 then p[|p| - 1] else p[|p| - 2];
      }
    }
  }

  lemma {:induction false} TrimRightKeepsHead(s: bytes)
    requires s != [] && 33 <= s[0] <= 126
    ensures TrimRight(s) != []
    decreases |s|
  {
    if SpaceAtBack(s) != 0 {
      TrimRightKeepsHead(s[..|s| - SpaceAtBack(s)]);
    }
  }

  lemma PrintableStart(s: bytes)
    requires s != [] && 33 <= s[0] <= 126
    ensures !Blank(s)
  {
    TrimRightKeepsHead(s);
  }

  // ---------------------------------------------------------------- %d

  const DOT: byte := 46

  predicate Digits(s: bytes) { forall i :: 0 <= i < |s| ==> 48 <= s[i] <= 57 }

  function Decimal(n: nat): (d: bytes)
    ensures d != [] && Digits(d)
  {
    if n < 10 then [48 + n] else Decimal(n / 10) + [48 + n % 10]
  }

  function DecimalValue(d: bytes): (v: int)
  {
    if d == [] then 0
    else
      var last: int := d[|d| - 1];
      DecimalValue(d[..|d| - 1]) * 10 + last - 48
  }

  lemma {:induction false} DecimalInverse(n: nat)
    ensures DecimalValue(Decimal(n)) == n
  {
    if n < 10 {
      assert DecimalValue([48 + n][..0]) == 0;
    } else {
      DecimalInverse(n / 10);
      assert Decimal(n)[..|Decimal(n)| - 1] == Decimal(n / 10);
    }
  }

  /** Digits hold no dot, so the dot written before a number is the last one. */
  lemma LastDot(s: bytes, n: nat)
    ensures var c := s + [DOT] + Decimal(n); c[|s|] == DOT && forall i :: |s| < i < |c| ==> c[i] != DOT
  {
    var c := s + [DOT] + Decimal(n);
    forall i | |s| < i < |c| ensures c[i] != DOT { assert c[i] == Decimal(n)[i - |s| - 1]; }
  }

  /** `<s>.<n>` with `n` in decimal determines both parts. */
  lemma DottedInjective(s1: bytes, n1: nat, s2: bytes, n2: nat)
    requires s1 + [DOT] + Decimal(n1) == s2 + [DOT] + Decimal(n2)
    ensures s1 == s2 && n1 == n2
  {
    var d1, d2 := Decimal(n1), Decimal(n2);
    var c1, c2 := s1 + [DOT] + d1, s2 + [DOT] + d2;
    LastDot(s1, n1);
    LastDot(s2, n2);
    assert |s1| == |s2|;
    assert c1[..|s1|] == s1 && c2[..|s2|] == s2;
    assert c1[|s1| + 1..] == d1 && c2[|s2| + 1..] == d2;
    DecimalInverse(n1);
    DecimalInverse(n2);
  }
}
