/** The base32 encoding of section 6 of RFC 4648, as certid uses it: 32 bytes become 52 characters (and four
    '=' that certid trims). A quantum is 5 bytes or 8 base32 digits; the last two bytes become 4 digits. */
module Base32 {
  type Byte = x: int | 0 <= x < 256
  type Digit = x: int | 0 <= x < 32
  type Hash = h: seq<Byte> | |h| == 32 witness seq(32, _ => 0)

  const ALPHABET := "ABCDEFGHIJKLMNOPQRSTUVWXYZ234567"

  /** The first position of c in s, or -1. */
  function IndexByte(s: string, c: char): (r: int)
    ensures -1 <= r < |s|
    ensures r >= 0 ==> s[r] == c && c !in s[..r]
    ensures r == -1 <==> c !in s
  {
    if s == "" then -1
    else if s[0] == c then 0
    else var r := IndexByte(s[1..], c); if r < 0 then -1 else
         assert s[..r + 1] == [s[0]] + s[1..][..r]; r + 1
  }

  function CharOf(d: Digit): char {
    if d < 26 then 'A' + d as char else '2' + (d - 26) as char
  }

  predicate IsBase32(c: char) {
    'A' <= c <= 'Z' || '2' <= c <= '7'
  }

  function CodePoint(c: char): Digit
    requires IsBase32(c)
  {
    if c >= 'A' then (c - 'A') as int else (c - '2') as int + 26
  }

  /** CharOf, IsBase32 and CodePoint are the alphabet string and the search in it, in closed form. */
  lemma AlphabetTable(d: Digit)
    ensures ALPHABET[d] == CharOf(d)
  {
  }

  lemma AlphabetSearch(c: char)
    ensures IndexByte(ALPHABET, c) == if IsBase32(c) then CodePoint(c) else -1
  {
    forall d: Digit ensures ALPHABET[d] == CharOf(d) {
      AlphabetTable(d);
    }
    SearchTable(ALPHABET, c);
  }

  lemma SearchTable(table: string, c: char)
    requires |table| == 32 && forall d: Digit :: table[d] == CharOf(d)
    ensures IndexByte(table, c) == if IsBase32(c) then CodePoint(c) else -1
  {
    if IsBase32(c) {
      assert table[CodePoint(c)] == c;
    }
    var r := IndexByte(table, c);
    assert r >= 0 ==> table[r] == CharOf(r);
  }

  predicate InAlphabet(s: string) {
    forall i :: 0 <= i < |s| ==> IsBase32(s[i])
  }

  function Render(digits: seq<Digit>): (s: string)
    ensures |s| == |digits| && InAlphabet(s)
    ensures forall i :: 0 <= i < |s| ==> s[i] == CharOf(digits[i])
  {
    seq(|digits|, i requires 0 <= i < |digits| => CharOf(digits[i]))
  }

  function Codes(s: string): (digits: seq<Digit>)
    requires InAlphabet(s)
    ensures |digits| == |s| && forall i :: 0 <= i < |s| ==> digits[i] == CodePoint(s[i])
  {
    seq(|s|, i requires 0 <= i < |s| => CodePoint(s[i]))
  }

  lemma CodesAndRender(digits: seq<Digit>, s: string)
    requires InAlphabet(s)
    ensures Codes(s) == digits <==> Render(digits) == s
  {
    assert forall d: Digit :: CodePoint(CharOf(d)) == d;
    assert forall i :: 0 <= i < |s| ==> CharOf(CodePoint(s[i])) == s[i];
    if Codes(s) == digits {
      assert forall i :: 0 <= i < |s| ==> Render(digits)[i] == s[i];
    }
  }

  function EncodeQuantum(b: seq<Byte>): (q: seq<Digit>)
    requires |b| == 5
    ensures |q| == 8
  {
    [b[0] / 8, b[0] % 8 * 4 + b[1] / 64, b[1] / 2 % 32, b[1] % 2 * 16 + b[2] / 16,
     b[2] % 16 * 2 + b[3] / 128, b[3] / 4 % 32, b[3] % 4 * 8 + b[4] / 32, b[4] % 32]
  }

  function DecodeQuantum(q: seq<Digit>): (b: seq<Byte>)
    requires |q| == 8
    ensures |b| == 5
  {
    var d: seq<int> := q;
    [d[0] * 8 + d[1] / 4, d[1] % 4 * 64 + d[2] * 2 + d[3] / 16, d[3] % 16 * 16 + d[4] / 2,
     d[4] % 2 * 128 + d[5] * 4 + d[6] / 8, d[6] % 8 * 32 + d[7]]
  }

  function EncodeTail(b: seq<Byte>): (q: seq<Digit>)
    requires |b| == 2
    ensures |q| == 4
  {
    [b[0] / 8, b[0] % 8 * 4 + b[1] / 64, b[1] / 2 % 32, b[1] % 2 * 16]
  }

  function DecodeTail(q: seq<Digit>): (b: seq<Byte>)
    requires |q| == 4
    ensures |b| == 2
  {
    var d: seq<int> := q;
    [d[0] * 8 + d[1] / 4, d[1] % 4 * 64 + d[2] * 2 + d[3] / 16]
  }

  lemma LeadingBytes(a: int, b: int, c: int)
    requires 0 <= a < 256 && 0 <= b < 256 && 0 <= c < 256
    ensures a / 8 * 8 + (a % 8 * 4 + b / 64) / 4 == a
    ensures (a % 8 * 4 + b / 64) % 4 * 64 + b / 2 % 32 * 2 + (b % 2 * 16 + c / 16) / 16 == b
  {
    assert (a % 8 * 4 + b / 64) / 4 == a % 8 && (a % 8 * 4 + b / 64) % 4 == b / 64;
    assert (b % 2 * 16 + c / 16) / 16 == b % 2;
    assert b / 2 % 32 == b / 2 - b / 64 * 32;
  }

  lemma TrailingBytes(b: int, c: int, d: int, e: int)
    requires 0 <= b < 256 && 0 <= c < 256 && 0 <= d < 256 && 0 <= e < 256
    ensures (b % 2 * 16 + c / 16) % 16 * 16 + (c % 16 * 2 + d / 128) / 2 == c
    ensures (c % 16 * 2 + d / 128) % 2 * 128 + d / 4 % 32 * 4 + (d % 4 * 8 + e / 32) / 8 == d
    ensures (d % 4 * 8 + e / 32) % 8 * 32 + e % 32 == e
  {
    assert (b % 2 * 16 + c / 16) % 16 == c / 16;
    assert (c % 16 * 2 + d / 128) / 2 == c % 16 && (c % 16 * 2 + d / 128) % 2 == d / 128;
    assert (d % 4 * 8 + e / 32) / 8 == d % 4 && (d % 4 * 8 + e / 32) % 8 == e / 32;
    assert d / 4 % 32 == d / 4 - d / 128 * 32;
  }

  lemma DecodeOfDigits(q: seq<Digit>, b: seq<Byte>)
    requires |q| == 8 && |b| == 5
    requires var d: seq<int> := q;
             && b[0] == d[0] * 8 + d[1] / 4 && b[1] == d[1] % 4 * 64 + d[2] * 2 + d[3] / 16
             && b[2] == d[3] % 16 * 16 + d[4] / 2 && b[3] == d[4] % 2 * 128 + d[5] * 4 + d[6] / 8
             && b[4] == d[6] % 8 * 32 + d[7]
    ensures DecodeQuantum(q) == b
  {
  }

  lemma DecodeEncodeQuantum(b: seq<Byte>)
    requires |b| == 5
    ensures DecodeQuantum(EncodeQuantum(b)) == b
  {
    LeadingBytes(b[0], b[1], b[2]);
    TrailingBytes(b[1], b[2], b[3], b[4]);
    DecodeOfDigits(EncodeQuantum(b), b);
  }

  lemma LeadingDigits(p: int, q: int, r: int, s: int)
    requires 0 <= p < 32 && 0 <= q < 32 && 0 <= r < 32 && 0 <= s < 32
    ensures (p * 8 + q / 4) / 8 == p
    ensures (p * 8 + q / 4) % 8 * 4 + (q % 4 * 64 + r * 2 + s / 16) / 64 == q
    ensures (q % 4 * 64 + r * 2 + s / 16) / 2 % 32 == r
    ensures (q % 4 * 64 + r * 2 + s / 16) % 2 == s / 16
  {
    assert (p * 8 + q / 4) % 8 == q / 4;
    assert (q % 4 * 64 + r * 2 + s / 16) / 64 == q % 4;
    assert (q % 4 * 64 + r * 2 + s / 16) / 2 == q % 4 * 32 + r;
  }

  lemma MiddleDigits(s: int, t: int, u: int, v: int)
    requires 0 <= s < 32 && 0 <= t < 32 && 0 <= u < 32 && 0 <= v < 32
    ensures s / 16 * 16 + (s % 16 * 16 + t / 2) / 16 == s
    ensures (s % 16 * 16 + t / 2) % 16 * 2 + (t % 2 * 128 + u * 4 + v / 8) / 128 == t
    ensures (t % 2 * 128 + u * 4 + v / 8) / 4 % 32 == u
    ensures (t % 2 * 128 + u * 4 + v / 8) % 4 == v / 8
  {
    assert (s % 16 * 16 + t / 2) / 16 == s % 16 && (s % 16 * 16 + t / 2) % 16 == t / 2;
    assert (t % 2 * 128 + u * 4 + v / 8) / 128 == t % 2;
    assert (t % 2 * 128 + u * 4 + v / 8) / 4 == t % 2 * 32 + u;
  }

  lemma LastDigits(v: int, w: int)
    requires 0 <= v < 32 && 0 <= w < 32
    ensures v / 8 * 8 + (v % 8 * 32 + w) / 32 == v && (v % 8 * 32 + w) % 32 == w
  {
  }

  lemma EncodeOfBytes(b: seq<Byte>, q: seq<Digit>)
    requires |b| == 5 && |q| == 8
    requires q[0] == b[0] / 8 && q[1] == b[0] % 8 * 4 + b[1] / 64 && q[2] == b[1] / 2 % 32
    requires q[3] == b[1] % 2 * 16 + b[2] / 16 && q[4] == b[2] % 16 * 2 + b[3] / 128
    requires q[5] == b[3] / 4 % 32 && q[6] == b[3] % 4 * 8 + b[4] / 32 && q[7] == b[4] % 32
    ensures EncodeQuantum(b) == q
  {
  }

  lemma EncodeDecodeQuantum(q: seq<Digit>)
    requires |q| == 8
    ensures EncodeQuantum(DecodeQuantum(q)) == q
  {
    LeadingDigits(q[0], q[1], q[2], q[3]);
    MiddleDigits(q[3], q[4], q[5], q[6]);
    LastDigits(q[6], q[7]);
    EncodeOfBytes(DecodeQuantum(q), q);
  }

  /** The tail has four spare bits: the decoder ignores them, so only digits with those bits clear come back. */
  lemma TailInverse(b: seq<Byte>, q: seq<Digit>)
    requires |b| == 2 && |q| == 4
    ensures DecodeTail(q) == b <==> EncodeTail(b) == q[3 := q[3] / 16 * 16]
  {
    if DecodeTail(q) == b {
      assert q[0] == b[0] / 8 && q[1] == b[0] % 8 * 4 + b[1] / 64;
      assert q[2] == b[1] / 2 % 32 && q[3] / 16 == b[1] % 2;
    }
    if EncodeTail(b) == q[3 := q[3] / 16 * 16] {
      var e: seq<int>, d: seq<int> := EncodeTail(b), q;
      assert e[0] == d[0] && e[1] == d[1] && e[2] == d[2] && e[3] == d[3] / 16 * 16;
      assert b[0] == d[0] * 8 + d[1] / 4;
      assert b[1] == d[1] % 4 * 64 + d[2] * 2 + d[3] / 16;
    }
  }

  function EncodeQuanta(b: seq<Byte>): (q: seq<Digit>)
    requires |b| % 5 == 0
    ensures 5 * |q| == 8 * |b| && |q| % 8 == 0
  {
    if b == [] then [] else
    var n := |b| - 5;
    OneMore(n, 5);
    var front := EncodeQuanta(b[..n]);
    OneMore(|front|, 8);
    front + EncodeQuantum(b[n..])
  }

  lemma OneMore(n: int, size: int)
    requires size == 5 || size == 8
    ensures (n + size) % size == n % size
  {
  }

  function DecodeQuanta(q: seq<Digit>): (b: seq<Byte>)
    requires |q| % 8 == 0
    ensures 8 * |b| == 5 * |q| && |b| % 5 == 0
  {
    if q == [] then [] else
    var n := |q| - 8;
    OneMore(n, 8);
    var front := DecodeQuanta(q[..n]);
    OneMore(|front|, 5);
    front + DecodeQuantum(q[n..])
  }

  lemma DecodeSnoc(q: seq<Digit>, last: seq<Digit>)
    requires |q| % 8 == 0 && |last| == 8
    ensures |q + last| % 8 == 0 && DecodeQuanta(q + last) == DecodeQuanta(q) + DecodeQuantum(last)
  {
    assert (q + last)[..|q|] == q && (q + last)[|q|..] == last;
  }

  lemma EncodeSnoc(b: seq<Byte>, last: seq<Byte>)
    requires |b| % 5 == 0 && |last| == 5
    ensures |b + last| % 5 == 0 && EncodeQuanta(b + last) == EncodeQuanta(b) + EncodeQuantum(last)
  {
    assert (b + last)[..|b|] == b && (b + last)[|b|..] == last;
  }

  lemma {:induction false} DecodeEncodeQuanta(b: seq<Byte>)
    requires |b| % 5 == 0
    ensures DecodeQuanta(EncodeQuanta(b)) == b
    decreases |b|
  {
    if b != [] {
      var front, last := b[..|b| - 5], b[|b| - 5..];
      DecodeEncodeQuanta(front);
      DecodeEncodeLast(front, last);
      assert b == front + last;
    }
  }

  lemma DecodeEncodeLast(front: seq<Byte>, last: seq<Byte>)
    requires |front| % 5 == 0 && |last| == 5 && DecodeQuanta(EncodeQuanta(front)) == front
    ensures |front + last| % 5 == 0 && DecodeQuanta(EncodeQuanta(front + last)) == front + last
  {
    EncodeSnoc(front, last);
    DecodeEncodeQuantum(last);
    DecodeSnoc(EncodeQuanta(front), EncodeQuantum(last));
  }

  lemma {:induction false} EncodeDecodeQuanta(q: seq<Digit>)
    requires |q| % 8 == 0
    ensures EncodeQuanta(DecodeQuanta(q)) == q
    decreases |q|
  {
    if q != [] {
      var front, last := q[..|q| - 8], q[|q| - 8..];
      EncodeDecodeQuanta(front);
      EncodeDecodeLast(front, last);
      assert q == front + last;
    }
  }

  lemma EncodeDecodeLast(front: seq<Digit>, last: seq<Digit>)
    requires |front| % 8 == 0 && |last| == 8 && EncodeQuanta(DecodeQuanta(front)) == front
    ensures |front + last| % 8 == 0 && EncodeQuanta(DecodeQuanta(front + last)) == front + last
  {
    DecodeSnoc(front, last);
    EncodeDecodeQuantum(last);
    EncodeSnoc(DecodeQuanta(front), DecodeQuantum(last));
  }

  function Encode(h: Hash): (q: seq<Digit>)
    ensures |q| == 52
  {
    EncodeQuanta(h[..30]) + EncodeTail(h[30..])
  }

  function Decode(q: seq<Digit>): Hash
    requires |q| == 52
  {
    DecodeQuanta(q[..48]) + DecodeTail(q[48..])
  }

  /** q with the four spare bits of its last digit cleared. */
  function Canonical(q: seq<Digit>): seq<Digit>
    requires |q| == 52
  {
    q[51 := q[51] / 16 * 16]
  }

  /** Encoding and decoding are inverse up to the four spare bits, which the decoder does not look at. */
  lemma CodecInverse(h: Hash, q: seq<Digit>)
    requires |q| == 52
    ensures Decode(q) == h <==> Encode(h) == Canonical(q)
  {
    DecodeEncodeQuanta(h[..30]);
    EncodeDecodeQuanta(q[..48]);
    TailInverse(h[30..], q[48..]);
    assert h == h[..30] + h[30..];
    assert Decode(q)[..30] == DecodeQuanta(q[..48]) && Decode(q)[30..] == DecodeTail(q[48..]);
    assert Encode(h)[..48] == EncodeQuanta(h[..30]) && Encode(h)[48..] == EncodeTail(h[30..]);
    assert Canonical(q) == q[..48] + q[48..][3 := q[51] / 16 * 16];
    assert Canonical(q)[..48] == q[..48] && Canonical(q)[48..] == q[48..][3 := q[51] / 16 * 16];
  }

  lemma DecodeOfEncode(h: Hash)
    ensures Decode(Encode(h)) == h && Canonical(Encode(h)) == Encode(h)
  {
    var q := Encode(h);
    assert q[51] == EncodeTail(h[30..])[3];
    assert q[51] / 16 * 16 == q[51];
    CodecInverse(h, q);
  }

  // --- What the encoding means ---

  /** The number written by s in the given base, most significant first. */
  function Value(base: nat, s: seq<nat>): nat {
    if s == [] then 0 else Value(base, s[..|s| - 1]) * base + s[|s| - 1]
  }

  lemma {:induction false} ValueOfQuanta(b: seq<Byte>)
    requires |b| % 5 == 0
    ensures Value(32, EncodeQuanta(b)) == Value(256, b)
    decreases |b|
  {
    if b != [] {
      var n := |b| - 5;
      ValueOfQuanta(b[..n]);
      assert b == b[..n] + b[n..];
      Value5(b[..n], b[n..]);
      Value8(EncodeQuanta(b[..n]), EncodeQuantum(b[n..]));
      QuantumValue(b[n..]);
    }
  }

  lemma ValueSnoc(base: nat, s: seq<nat>, d: nat)
    ensures Value(base, s + [d]) == Value(base, s) * base + d
  {
    assert (s + [d])[..|s|] == s;
  }

  lemma Value5(a: seq<nat>, b: seq<nat>)
    requires |b| == 5
    ensures Value(256, a + b) == Value(256, a) * 0x100_0000_0000 + b[0] * 0x1_0000_0000 + b[1] * 0x100_0000
                                 + b[2] * 0x1_0000 + b[3] * 0x100 + b[4]
  {
    ValueSnoc(256, a, b[0]);
    ValueSnoc(256, a + [b[0]], b[1]);
    ValueSnoc(256, a + [b[0]] + [b[1]], b[2]);
    ValueSnoc(256, a + [b[0]] + [b[1]] + [b[2]], b[3]);
    ValueSnoc(256, a + [b[0]] + [b[1]] + [b[2]] + [b[3]], b[4]);
    assert a + b == a + [b[0]] + [b[1]] + [b[2]] + [b[3]] + [b[4]];
  }

  lemma Value4(a: seq<nat>, q: seq<nat>)
    requires |q| == 4
    ensures Value(32, a + q) == Value(32, a) * 0x10_0000 + q[0] * 0x8000 + q[1] * 0x400 + q[2] * 0x20 + q[3]
  {
    ValueSnoc(32, a, q[0]);
    ValueSnoc(32, a + [q[0]], q[1]);
    ValueSnoc(32, a + [q[0]] + [q[1]], q[2]);
    ValueSnoc(32, a + [q[0]] + [q[1]] + [q[2]], q[3]);
    assert a + q == a + [q[0]] + [q[1]] + [q[2]] + [q[3]];
  }

  lemma Value8(a: seq<nat>, q: seq<nat>)
    requires |q| == 8
    ensures Value(32, a + q) == Value(32, a) * 0x100_0000_0000
                                + (q[0] * 0x8000 + q[1] * 0x400 + q[2] * 0x20 + q[3]) * 0x10_0000
                                + q[4] * 0x8000 + q[5] * 0x400 + q[6] * 0x20 + q[7]
  {
    Value4(a, q[..4]);
    Value4(a + q[..4], q[4..]);
    assert a + q == a + q[..4] + q[4..];
  }

  lemma QuantumValue(b: seq<Byte>)
    requires |b| == 5
    ensures var q: seq<int> := EncodeQuantum(b);
            (q[0] * 0x8000 + q[1] * 0x400 + q[2] * 0x20 + q[3]) * 0x10_0000
            + q[4] * 0x8000 + q[5] * 0x400 + q[6] * 0x20 + q[7]
            == (var c: seq<int> := b; c[0] * 0x1_0000_0000 + c[1] * 0x100_0000 + c[2] * 0x1_0000 + c[3] * 0x100 + c[4])
  {
    var q: seq<int> := EncodeQuantum(b);
    assert q[0] * 8 + b[0] % 8 == b[0];
    assert q[2] == b[1] / 2 - b[1] / 64 * 32;
    assert q[5] == b[3] / 4 - b[3] / 128 * 32;
  }

  /** The 52 digits, read as one number in base 32, are the 32 bytes read as one number in base 256, followed
      by four zero bits. */
  lemma EncodeMeansTheSameNumber(h: Hash)
    ensures Value(32, Encode(h)) == 16 * Value(256, h)
  {
    var tail := h[30..];
    ValueOfQuanta(h[..30]);
    Value4(EncodeQuanta(h[..30]), EncodeTail(tail));
    ValueSnoc(256, h[..30], tail[0]);
    ValueSnoc(256, h[..30] + [tail[0]], tail[1]);
    assert h == h[..30] + [tail[0]] + [tail[1]];
    TailValue(tail);
  }

  lemma TailValue(b: seq<Byte>)
    requires |b| == 2
    ensures var q: seq<int>, c: seq<int> := EncodeTail(b), b;
            q[0] * 0x8000 + q[1] * 0x400 + q[2] * 0x20 + q[3] == 16 * (c[0] * 0x100 + c[1])
  {
    assert EncodeTail(b)[2] == b[1] / 2 - b[1] / 64 * 32;
  }
}
