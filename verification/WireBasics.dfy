/** Field encodings of the daemon protocol: protocol.rs. */
module WireBasics {
  import opened Wrappers
  import opened Text

  type Bytes = seq<byte>

  // ---------- UTF-8 ----------

  predicate Tail(b: byte) {
    0x80 <= b <= 0xBF
  }

  /** The length of the well-formed character at the start, by section 4 of RFC 3629; 0 if there is none. */
  function CharLength(b: Bytes): (n: nat)
    ensures n <= |b|
  {
    if b == [] then 0
    else if b[0] <= 0x7F then 1
    else if |b| < 2 || !Tail(b[1]) then 0
    else if 0xC2 <= b[0] <= 0xDF then 2
    else if |b| < 3 || !Tail(b[2]) then 0
    else if 0xE0 <= b[0] <= 0xEF then
      if (b[0] == 0xE0 && b[1] < 0xA0) || (b[0] == 0xED && b[1] > 0x9F) then 0 else 3
    else if |b| < 4 || !Tail(b[3]) then 0
    else if 0xF0 <= b[0] <= 0xF4 then
      if (b[0] == 0xF0 && b[1] < 0x90) || (b[0] == 0xF4 && b[1] > 0x8F) then 0 else 4
    else 0
  }

  /** `String::from_utf8` accepts exactly these bytes. */
  predicate IsUtf8(b: Bytes) {
    b == [] || (CharLength(b) > 0 && IsUtf8(b[CharLength(b)..]))
  }

  /** A Rust `String`, as its bytes. */
  type Str = b: Bytes | IsUtf8(b)

  /** The code point that the bytes of one character stand for, by section 3 of RFC 3629. */
  function CodePoint(b: Bytes): int
    requires 1 <= |b| <= 4
  {
    match |b|
    case 1 => b[0]
    case 2 => (b[0] as int - 0xC0) * 64 + (b[1] as int - 0x80)
    case 3 => (b[0] as int - 0xE0) * 4096 + (b[1] as int - 0x80) * 64 + (b[2] as int - 0x80)
    case _ =>
      (b[0] as int - 0xF0) * 262144 + (b[1] as int - 0x80) * 4096 + (b[2] as int - 0x80) * 64 + (b[3] as int - 0x80)
  }

  /** The digits of a number to the base 64. */
  lemma Sextets(n: nat)
    ensures n / 64 / 64 == n / 4096 && n / 4096 / 64 == n / 262144
    ensures n == n / 4096 * 4096 + n / 64 % 64 * 64 + n % 64
    ensures n == n / 262144 * 262144 + n / 4096 % 64 * 4096 + n / 64 % 64 * 64 + n % 64
  {
    var p, q, r := n / 64, n / 4096, n / 262144;
    assert p / 64 == q && q / 64 == r;
    assert n == 64 * p + n % 64 && p == 64 * q + p % 64 && q == 64 * r + q % 64;
  }

  lemma ThreeBytes(a: nat, b: nat, c: nat, rest: Bytes)
    requires a < 16 && b < 64 && c < 64 && 0x800 <= a * 4096 + b * 64 + c
    requires !(0xD800 <= a * 4096 + b * 64 + c < 0xE000)
    ensures CharLength([0xE0 + a, 0x80 + b, 0x80 + c] + rest) == 3
  {
  }

  lemma FourBytes(a: nat, b: nat, c: nat, d: nat, rest: Bytes)
    requires b < 64 && c < 64 && d < 64 && 0x10000 <= a * 262144 + b * 4096 + c * 64 + d < 0x110000
    ensures a <= 4 && CharLength([0xF0 + a, 0x80 + b, 0x80 + c, 0x80 + d] + rest) == 4
  {
  }

  lemma CharIsWellFormed(c: char, rest: Bytes)
    ensures CharLength(Utf8Char(c) + rest) == |Utf8Char(c)| && CodePoint(Utf8Char(c)) == c as int
  {
    var n := c as int;
    Sextets(n);
    if 0x800 <= n < 0x10000 {
      ThreeBytes(n / 4096, n / 64 % 64, n % 64, rest);
    } else if n >= 0x10000 {
      FourBytes(n / 262144, n / 4096 % 64, n / 64 % 64, n % 64, rest);
    }
  }

  /** The bytes of a text are well formed, and no other text has them. */
  lemma {:induction false} TextIsUtf8(s: string)
    ensures IsUtf8(Utf8(s))
    ensures forall t :: Utf8(t) == Utf8(s) ==> t == s
  {
    if s != [] {
      TextIsUtf8(s[1..]);
      CharIsWellFormed(s[0], Utf8(s[1..]));
      var n := |Utf8Char(s[0])|;
      assert Utf8(s)[n..] == Utf8(s[1..]) && Utf8(s)[..n] == Utf8Char(s[0]);
      forall t | Utf8(t) == Utf8(s)
        ensures t == s
      {
        assert t != [];
        CharIsWellFormed(t[0], Utf8(t[1..]));
        assert Utf8(t)[n..] == Utf8(t[1..]) && Utf8(t)[..n] == Utf8Char(t[0]);
        assert t == [t[0]] + t[1..] && s == [s[0]] + s[1..];
      }
    }
  }

  // ---------- Big-endian integers ----------

  function Pow256(w: nat): (p: nat)
    ensures p > 0
  {
    if w == 0 then 1 else 256 * Pow256(w - 1)
  }

  /** `to_be_bytes` of a `w`-byte integer. */
  function BigEndian(n: nat, w: nat): (b: Bytes)
    ensures |b| == w
  {
    if w == 0 then [] else BigEndian(n / 256, w - 1) + [n % 256]
  }

  function FromBigEndian(b: Bytes): nat {
    if b == [] then 0 else 256 * FromBigEndian(b[..|b| - 1]) + b[|b| - 1]
  }

  lemma {:induction false} FromToBigEndian(n: nat, w: nat)
    requires n < Pow256(w)
    ensures FromBigEndian(BigEndian(n, w)) == n
  {
    if w > 0 {
      var b := BigEndian(n, w);
      assert b[..|b| - 1] == BigEndian(n / 256, w - 1);
      FromToBigEndian(n / 256, w - 1);
    }
  }

  lemma {:induction false} ToFromBigEndian(b: Bytes)
    ensures FromBigEndian(b) < Pow256(|b|)
    ensures BigEndian(FromBigEndian(b), |b|) == b
  {
    if b != [] {
      var front := b[..|b| - 1];
      ToFromBigEndian(front);
      assert FromBigEndian(b) / 256 == FromBigEndian(front) && FromBigEndian(b) % 256 == b[|b| - 1];
      assert b == front + [b[|b| - 1]];
    }
  }

  lemma Widths()
    ensures Pow256(2) == 0x1_0000 && Pow256(4) == 0x1_0000_0000 && Pow256(8) == 0x1_0000_0000_0000_0000
  {
    assert Pow256(1) == 256 && Pow256(2) == 65536 && Pow256(3) == 16777216;
    assert Pow256(4) == 4294967296 && Pow256(5) == 1099511627776 && Pow256(6) == 281474976710656;
    assert Pow256(7) == 72057594037927936;
  }

  // ---------- Fields ----------

  /** A value read from the front, and the bytes behind it. */
  datatype Parsed<+T> = Got(value: T, rest: Bytes) | Bad {
    predicate IsFailure() {
      Bad?
    }
    function PropagateFailure<U>(): Parsed<U>
      requires Bad?
    {
      Bad
    }
    function Extract(): (T, Bytes)
      requires Got?
    {
      (value, rest)
    }
  }

  // Writers put a value in front of the bytes `tail` that follow it.

  function GetByte(b: Bytes): Parsed<byte> {
    if b == [] then Bad else Got(b[0], b[1..])
  }

  function ByteTo(v: byte, tail: Bytes): Bytes {
    [v] + tail
  }

  function BoolTo(v: bool, tail: Bytes): Bytes {
    ByteTo(if v then 1 else 0, tail)
  }

  function GetBool(b: Bytes): Parsed<bool> {
    var (v, r) :- GetByte(b);
    if v == 0 then Got(false, r) else if v == 1 then Got(true, r) else Bad
  }

  function Take(b: Bytes, n: nat): Parsed<Bytes> {
    if n > |b| then Bad else Got(b[..n], b[n..])
  }

  function IntTo(n: nat, w: nat, tail: Bytes): Bytes {
    BigEndian(n, w) + tail
  }

  function GetInt(b: Bytes, w: nat): Parsed<nat> {
    var (v, r) :- Take(b, w);
    Got(FromBigEndian(v), r)
  }

  /** `put_bytes` succeeds. */
  predicate Fits(bytes: Bytes, max: nat) {
    |bytes| <= max && |bytes| < 0x1_0000_0000
  }

  function BytesTo(bytes: Bytes, tail: Bytes): Bytes {
    IntTo(|bytes|, 4, bytes + tail)
  }

  function GetBytes(b: Bytes, max: nat): Parsed<Bytes> {
    var (n, r) :- GetInt(b, 4);
    if n > max then Bad else Take(r, n)
  }

  function GetString(b: Bytes, max: nat): Parsed<Str> {
    var (s, r) :- GetBytes(b, max);
    if IsUtf8(s) then Got(s, r) else Bad
  }

  predicate FitsOptional(v: Option<Str>, max: nat) {
    v.Some? ==> Fits(v.value, max)
  }

  function OptionalTo(v: Option<Str>, tail: Bytes): Bytes {
    match v
    case None => ByteTo(0, tail)
    case Some(s) => ByteTo(1, BytesTo(s, tail))
  }

  function GetOptional(b: Bytes, max: nat): Parsed<Option<Str>> {
    var (flag, r) :- GetByte(b);
    if flag == 0 then Got(None, r)
    else if flag == 1 then
      var (s, r2) :- GetString(r, max);
      Got(Some(s), r2)
    else Bad
  }

  function GetU16(b: Bytes): Parsed<U16> {
    var (n, r) :- GetInt(b, 2);
    if n < 0x1_0000 then Got(n, r) else Bad
  }

  function GetU32(b: Bytes): Parsed<U32> {
    var (n, r) :- GetInt(b, 4);
    if n < 0x1_0000_0000 then Got(n, r) else Bad
  }

  function GetU64(b: Bytes): Parsed<U64> {
    var (n, r) :- GetInt(b, 8);
    if n < 0x1_0000_0000_0000_0000 then Got(n, r) else Bad
  }

  // ---------- What is written is read back, and only what was written is read ----------

  lemma TakeAppended(p: Bytes, tail: Bytes)
    ensures Take(p + tail, |p|) == Got(p, tail)
  {
    assert (p + tail)[..|p|] == p && (p + tail)[|p|..] == tail;
  }

  lemma ByteForward(v: byte, tail: Bytes)
    ensures GetByte(ByteTo(v, tail)) == Got(v, tail)
  {
    assert ([v] + tail)[1..] == tail;
  }

  lemma ByteBackward(b: Bytes)
    requires GetByte(b).Got?
    ensures b == ByteTo(GetByte(b).value, GetByte(b).rest)
  {
  }

  lemma BoolForward(v: bool, tail: Bytes)
    ensures GetBool(BoolTo(v, tail)) == Got(v, tail)
  {
    ByteForward(if v then 1 else 0, tail);
  }

  lemma BoolBackward(b: Bytes)
    requires GetBool(b).Got?
    ensures b == BoolTo(GetBool(b).value, GetBool(b).rest)
  {
    ByteBackward(b);
  }

  lemma IntForward(n: nat, w: nat, tail: Bytes)
    requires n < Pow256(w)
    ensures GetInt(IntTo(n, w, tail), w) == Got(n, tail)
  {
    TakeAppended(BigEndian(n, w), tail);
    FromToBigEndian(n, w);
  }

  lemma IntBackward(b: Bytes, w: nat)
    requires GetInt(b, w).Got?
    ensures b == IntTo(GetInt(b, w).value, w, GetInt(b, w).rest) && GetInt(b, w).value < Pow256(w)
  {
    ToFromBigEndian(b[..w]);
  }

  lemma BytesForward(bytes: Bytes, max: nat, tail: Bytes)
    requires Fits(bytes, max)
    ensures GetBytes(BytesTo(bytes, tail), max) == Got(bytes, tail)
  {
    Widths();
    IntForward(|bytes|, 4, bytes + tail);
    TakeAppended(bytes, tail);
  }

  lemma BytesBackward(b: Bytes, max: nat)
    requires GetBytes(b, max).Got?
    ensures var g := GetBytes(b, max); Fits(g.value, max) && b == BytesTo(g.value, g.rest)
  {
    Widths();
    IntBackward(b, 4);
    var n := GetInt(b, 4);
    var v := GetBytes(b, max);
    assert n.rest == v.value + v.rest;
  }

  lemma StringForward(s: Str, max: nat, tail: Bytes)
    requires Fits(s, max)
    ensures GetString(BytesTo(s, tail), max) == Got(s, tail)
  {
    BytesForward(s, max, tail);
  }

  lemma StringBackward(b: Bytes, max: nat)
    requires GetString(b, max).Got?
    ensures var g := GetString(b, max); Fits(g.value, max) && b == BytesTo(g.value, g.rest)
  {
    BytesBackward(b, max);
  }

  lemma OptionalForward(v: Option<Str>, max: nat, tail: Bytes)
    requires FitsOptional(v, max)
    ensures GetOptional(OptionalTo(v, tail), max) == Got(v, tail)
  {
    match v
    case None => ByteForward(0, tail);
    case Some(s) =>
      ByteForward(1, BytesTo(s, tail));
      StringForward(s, max, tail);
  }

  lemma OptionalBackward(b: Bytes, max: nat)
    requires GetOptional(b, max).Got?
    ensures var g := GetOptional(b, max); FitsOptional(g.value, max) && b == OptionalTo(g.value, g.rest)
  {
    ByteBackward(b);
    if b[0] == 1 {
      StringBackward(b[1..], max);
    }
  }

  lemma U16Forward(n: U16, tail: Bytes)
    ensures GetU16(IntTo(n, 2, tail)) == Got(n, tail)
  {
    Widths();
    IntForward(n, 2, tail);
  }

  lemma U16Backward(b: Bytes)
    requires GetU16(b).Got?
    ensures b == IntTo(GetU16(b).value, 2, GetU16(b).rest)
  {
    IntBackward(b, 2);
  }

  lemma U32Forward(n: U32, tail: Bytes)
    ensures GetU32(IntTo(n, 4, tail)) == Got(n, tail)
  {
    Widths();
    IntForward(n, 4, tail);
  }

  lemma U32Backward(b: Bytes)
    requires GetU32(b).Got?
    ensures b == IntTo(GetU32(b).value, 4, GetU32(b).rest)
  {
    IntBackward(b, 4);
  }

  lemma U64Forward(n: U64, tail: Bytes)
    ensures GetU64(IntTo(n, 8, tail)) == Got(n, tail)
  {
    Widths();
    IntForward(n, 8, tail);
  }

  lemma U64Backward(b: Bytes)
    requires GetU64(b).Got?
    ensures b == IntTo(GetU64(b).value, 8, GetU64(b).rest)
  {
    IntBackward(b, 8);
  }
}
