/** Syncthing device IDs (internal/certid/certid.go): building one from a certificate hash, reading the hash back,
    and matching an ID against a certificate. SHA-256 is a function parameter; IDs are Unicode text. */
module DeviceIds {
  import opened Base32
  import opened Luhn

  datatype Error = InvalidLength | NotBase32
  datatype Result<T> = Ok(value: T) | Err(error: Error)

  function Groups(s: string): seq<string>
    requires |s| % 7 == 0
  {
    if s == "" then [] else [s[..7]] + Groups(s[7..])
  }

  function Join(groups: seq<string>): string {
    if groups == [] then ""
    else if |groups| == 1 then groups[0]
    else groups[0] + "-" + Join(groups[1..])
  }

  /** The 56 characters of a device ID, without hyphens. */
  function Compact(h: Hash): (s: string)
    ensures |s| == 56 && InAlphabet(s)
  {
    Luhnified(Render(Encode(h)))
  }

  function DeviceID(h: Hash): string {
    Join(Groups(Compact(h)))
  }

  lemma GroupsSplit(s: string, i: nat, groups: seq<string>)
    requires i < 8 && |s| == 56 && groups + Groups(s[i * 7..]) == Groups(s)
    ensures groups + [s[i * 7..(i + 1) * 7]] + Groups(s[(i + 1) * 7..]) == Groups(s)
  {
    var rest := s[i * 7..];
    assert rest[..7] == s[i * 7..(i + 1) * 7] && rest[7..] == s[(i + 1) * 7..];
    assert groups + ([rest[..7]] + Groups(rest[7..])) == groups + [rest[..7]] + Groups(rest[7..]);
  }

  method DeviceIDFromHash(h: Hash) returns (id: string)
    ensures id == DeviceID(h)
  {
    var b32 := Luhnify(Render(Encode(h)));
    var groups: seq<string> := [];
    for i := 0 to 8
      invariant groups + Groups(b32[i * 7..]) == Groups(b32)
    {
      GroupsSplit(b32, i, groups);
      groups := groups + [b32[i * 7..(i + 1) * 7]];
    }
    assert groups == groups + Groups(b32[8 * 7..]);
    id := Join(groups);
  }

  function RemoveHyphens(s: string): string {
    if s == "" then "" else (if s[0] == '-' then "" else [s[0]]) + RemoveHyphens(s[1..])
  }

  /** Upper case as far as it concerns base32. Two letters outside ASCII, the dotless i and the long s, have an upper
      case inside it; all others stay outside, whatever they become. */
  function Upper(c: char): char {
    if 'a' <= c <= 'z' then c - ('a' - 'A')
    else if c == '\U{131}' then 'I'
    else if c == '\U{17F}' then 'S'
    else c
  }

  function Lower(c: char): char {
    if 'A' <= c <= 'Z' then c + ('a' - 'A') else c
  }

  function ToUpper(s: string): (r: string)
    ensures |r| == |s| && forall i :: 0 <= i < |s| ==> r[i] == Upper(s[i])
  {
    seq(|s|, i requires 0 <= i < |s| => Upper(s[i]))
  }

  function ToLower(s: string): (r: string)
    ensures |r| == |s| && forall i :: 0 <= i < |s| ==> r[i] == Lower(s[i])
  {
    seq(|s|, i requires 0 <= i < |s| => Lower(s[i]))
  }

  predicate IsAscii(c: char) {
    c < '\U{80}'
  }

  function Continuation(n: int): char
    requires 0 <= n
  {
    (0x80 + n % 0x40) as char
  }

  /** The bytes of a character in UTF-8, as characters below 256. */
  function Utf8(c: char): (bytes: string)
    ensures IsAscii(c) ==> bytes == [c]
    ensures !IsAscii(c) ==> |bytes| >= 2 && forall b :: b in bytes ==> !IsAscii(b)
  {
    var n := c as int;
    if n < 0x80 then [c]
    else if n < 0x800 then [(0xC0 + n / 0x40) as char, Continuation(n)]
    else if n < 0x1_0000 then [(0xE0 + n / 0x1000) as char, Continuation(n / 0x40), Continuation(n)]
    else [(0xF0 + n / 0x4_0000) as char, Continuation(n / 0x1000), Continuation(n / 0x40), Continuation(n)]
  }

  function Bytes(s: string): string {
    if s == "" then "" else Utf8(s[0]) + Bytes(s[1..])
  }

  /** What is left of an ID to decode, byte by byte. */
  function Normalised(id: string): string {
    Bytes(ToUpper(RemoveHyphens(id)))
  }

  /** The characters of a compact ID that are not check characters. */
  function Data(s: string): (d: string)
    requires |s| == 56
    ensures |d| == 52
  {
    s[..13] + s[14..27] + s[28..41] + s[42..55]
  }

  /** The hash an ID names. A character outside the alphabet, '=' and line breaks included, makes the base32
      decoder fail; the check characters are dropped unread. */
  function HashFromDeviceID(id: string): Result<Hash> {
    var s := Normalised(id);
    if |s| != 56 then Err(InvalidLength)
    else if !InAlphabet(Data(s)) then Err(NotBase32)
    else Ok(Decode(Codes(Data(s))))
  }

  function MatchesCert(sha256: seq<Byte> -> Hash, deviceID: string, certDER: seq<Byte>): Result<bool> {
    match HashFromDeviceID(deviceID)
    case Ok(expected) => Ok(sha256(certDER) == expected)
    case Err(e) => Err(e)
  }

  // --- Hyphens, letter case and check characters ---

  lemma {:induction false} RemoveHyphensAppend(a: string, b: string)
    ensures RemoveHyphens(a + b) == RemoveHyphens(a) + RemoveHyphens(b)
  {
    if a == "" {
      assert a + b == b;
    } else {
      assert (a + b)[1..] == a[1..] + b;
      RemoveHyphensAppend(a[1..], b);
    }
  }

  lemma {:induction false} NoHyphens(s: string)
    requires forall i :: 0 <= i < |s| ==> s[i] != '-'
    ensures RemoveHyphens(s) == s
  {
    if s != "" {
      NoHyphens(s[1..]);
    }
  }

  lemma {:induction false} RemoveHyphensJoin(s: string)
    requires |s| % 7 == 0 && forall i :: 0 <= i < |s| ==> s[i] != '-'
    ensures RemoveHyphens(Join(Groups(s))) == s
    decreases |s|
  {
    if s != "" {
      NoHyphens(s[..7]);
      RemoveHyphensJoin(s[7..]);
      assert s == s[..7] + s[7..];
      if s[7..] != "" {
        RemoveHyphensAppend(s[..7] + "-", Join(Groups(s[7..])));
        RemoveHyphensAppend(s[..7], "-");
        assert Groups(s)[1..] == Groups(s[7..]);
      }
    }
  }

  lemma {:induction false} RemoveHyphensLower(s: string)
    ensures RemoveHyphens(ToLower(s)) == ToLower(RemoveHyphens(s))
  {
    if s != "" {
      RemoveHyphensLower(s[1..]);
      assert ToLower(s)[1..] == ToLower(s[1..]);
    }
  }

  lemma UpperOfBase32(s: string)
    requires InAlphabet(s)
    ensures ToUpper(s) == s && ToUpper(ToLower(s)) == s
    ensures forall i :: 0 <= i < |s| ==> s[i] != '-'
  {
  }

  lemma {:induction false} AsciiBytes(s: string)
    requires forall c :: c in s ==> IsAscii(c)
    ensures Bytes(s) == s
  {
    if s != "" {
      AsciiBytes(s[1..]);
    }
  }

  /** The hyphenated ID, the ID without hyphens and both in lower case all normalise to the same text. */
  lemma NormalisedForms(h: Hash)
    ensures Normalised(DeviceID(h)) == Compact(h) && Normalised(Compact(h)) == Compact(h)
    ensures Normalised(ToLower(DeviceID(h))) == Compact(h) && Normalised(ToLower(Compact(h))) == Compact(h)
  {
    var s := Compact(h);
    UpperOfBase32(s);
    AsciiBytes(s);
    NoHyphens(s);
    RemoveHyphensJoin(s);
    RemoveHyphensLower(DeviceID(h));
    RemoveHyphensLower(s);
  }

  lemma LuhnifiedBlock(d: string)
    requires |d| % 13 == 0 && |d| >= 13 && InAlphabet(d)
    ensures Luhnified(d)[..13] == d[..13] && Luhnified(d)[14..] == Luhnified(d[13..])
  {
  }

  lemma SliceOfDrop(s: string, n: nat, i: nat, j: nat)
    requires n + i <= n + j <= |s|
    ensures s[n..][i..j] == s[n + i..n + j]
  {
  }

  /** After the first block the text is luhnified like its rest: what is at i in the rest is at 14 + i. */
  lemma NextBlock(d: string, i: nat)
    requires |d| % 13 == 0 && |d| >= 13 && InAlphabet(d) && i + 13 <= |Luhnified(d[13..])|
    ensures Luhnified(d)[14 + i..27 + i] == Luhnified(d[13..])[i..i + 13]
  {
    LuhnifiedBlock(d);
    SliceOfDrop(Luhnified(d), 14, i, i + 13);
  }

  /** Check characters put in by Luhnified are exactly the ones Data leaves out. */
  lemma DataOfLuhnified(d: string)
    requires |d| == 52 && InAlphabet(d)
    ensures Data(Luhnified(d)) == d
  {
    var s, r1, r2, r3 := Luhnified(d), d[13..], d[13..][13..], d[13..][13..][13..];
    LuhnifiedBlock(d);
    LuhnifiedBlock(r1);
    LuhnifiedBlock(r2);
    LuhnifiedBlock(r3);
    NextBlock(d, 0);
    NextBlock(d, 14);
    NextBlock(r1, 0);
    NextBlock(d, 28);
    NextBlock(r1, 14);
    NextBlock(r2, 0);
    assert s[..13] == d[..13] && s[14..27] == r1[..13] && s[28..41] == r2[..13] && s[42..55] == r3[..13];
    assert d == d[..13] + r1[..13] + r2[..13] + r3[..13];
  }

  /** The last character of each block of 14 is the check character of the 13 before it. */
  lemma {:induction false} CheckAt(d: string, i: nat)
    requires |d| % 13 == 0 && 13 * (i + 1) <= |d| && InAlphabet(d)
    ensures var s := Luhnified(d);
            14 * (i + 1) <= |s| && s[14 * i + 13] == CheckChar(s[14 * i..14 * i + 13])
    decreases i
  {
    LuhnifiedBlock(d);
    if i > 0 {
      CheckAt(d[13..], i - 1);
      SliceOfDrop(Luhnified(d), 14, 14 * (i - 1), 14 * (i - 1) + 13);
    }
  }

  lemma CheckCharacters(h: Hash, i: nat)
    requires i < 4
    ensures Compact(h)[14 * i + 13] == CheckChar(Compact(h)[14 * i..14 * i + 13])
  {
    CheckAt(Render(Encode(h)), i);
  }

  // --- Where the hyphens are ---

  /** Place r of group g. */
  lemma {:induction false} JoinedGroups(s: string, n: nat, g: nat, r: nat)
    requires |s| == 7 * n && n > 0 && r < 8 && 8 * g + r < 8 * n - 1
    ensures |s| % 7 == 0 && |Join(Groups(s))| == 8 * n - 1
    ensures Join(Groups(s))[8 * g + r] == if r == 7 then '-' else s[7 * g + r]
    decreases n
  {
    var rest := s[7..];
    if n == 1 {
      assert Groups(rest) == [] && Groups(s) == [s[..7]];
    } else {
      assert Groups(s)[1..] == Groups(rest) && Groups(rest) != [];
      assert Join(Groups(s)) == s[..7] + "-" + Join(Groups(rest));
      if g == 0 {
        JoinedGroups(rest, n - 1, 0, 0);
      } else {
        JoinedGroups(rest, n - 1, g - 1, r);
        assert Join(Groups(s))[8 * g + r] == Join(Groups(rest))[8 * (g - 1) + r];
      }
    }
  }

  /** An ID has 63 characters: eight groups of seven with a hyphen after each but the last, and without the hyphens it
      is the compact form. */
  lemma FormOfDeviceID(h: Hash, g: nat, r: nat)
    requires r < 8 && 8 * g + r < 63
    ensures |DeviceID(h)| == 63
    ensures DeviceID(h)[8 * g + r] == if r == 7 then '-' else Compact(h)[7 * g + r]
  {
    JoinedGroups(Compact(h), 8, g, r);
  }

  /** Removing hyphens removes nothing else. */
  lemma {:induction false} OnlyHyphensGo(s: string, c: char)
    ensures multiset(RemoveHyphens(s))[c] == if c == '-' then 0 else multiset(s)[c]
  {
    if s != "" {
      OnlyHyphensGo(s[1..], c);
      assert s == [s[0]] + s[1..];
    }
  }

  // --- The main results ---

  /** Reading back an ID gives the hash it was built from, whatever its hyphens and letter case. */
  lemma RoundTrip(h: Hash, id: string)
    requires Normalised(id) == Compact(h)
    ensures HashFromDeviceID(id) == Ok(h)
  {
    DataOfLuhnified(Render(Encode(h)));
    CodesAndRender(Encode(h), Render(Encode(h)));
    DecodeOfEncode(h);
  }

  /** Any mixture of upper and lower case, with hyphens anywhere or nowhere, is read alike. */
  lemma AnySpellingIsRead(h: Hash, id: string)
    requires |RemoveHyphens(id)| == 56
    requires forall i :: 0 <= i < 56 ==> RemoveHyphens(id)[i] in {Compact(h)[i], Lower(Compact(h)[i])}
    ensures HashFromDeviceID(id) == Ok(h)
  {
    var s, t := Compact(h), RemoveHyphens(id);
    forall i | 0 <= i < 56 ensures ToUpper(t)[i] == s[i] {
      assert IsBase32(s[i]);
    }
    assert ToUpper(t) == s;
    AsciiBytes(s);
    RoundTrip(h, id);
  }

  /** The four spellings that occur in practice. */
  lemma RoundTripSpellings(h: Hash)
    ensures forall id :: id in {DeviceID(h), Compact(h), ToLower(DeviceID(h)), ToLower(Compact(h))} ==>
                           HashFromDeviceID(id) == Ok(h)
  {
    NormalisedForms(h);
    forall id | id in {DeviceID(h), Compact(h), ToLower(DeviceID(h)), ToLower(Compact(h))}
      ensures HashFromDeviceID(id) == Ok(h)
    {
      RoundTrip(h, id);
    }
  }

  /** Different hashes have different IDs. */
  lemma DeviceIDInjective(g: Hash, h: Hash)
    ensures DeviceID(g) == DeviceID(h) <==> g == h
  {
    RoundTripSpellings(g);
    RoundTripSpellings(h);
    assert HashFromDeviceID(DeviceID(g)) == Ok(g) && HashFromDeviceID(DeviceID(h)) == Ok(h);
  }

  /** The ID made from one certificate matches another exactly when their hashes agree. */
  lemma MatchesCertIff(sha256: seq<Byte> -> Hash, cert1: seq<Byte>, cert2: seq<Byte>)
    ensures MatchesCert(sha256, DeviceID(sha256(cert1)), cert2) == Ok(sha256(cert1) == sha256(cert2))
  {
    RoundTripSpellings(sha256(cert1));
  }

  /** What makes an ID unreadable, and how a match is decided for any ID: an unreadable one gives its error, and a
      readable one matches exactly the certificates with the hash it names. */
  lemma MatchesIff(sha256: seq<Byte> -> Hash, id: string, cert: seq<Byte>)
    ensures HashFromDeviceID(id) == Err(InvalidLength) <==> |Normalised(id)| != 56
    ensures HashFromDeviceID(id) == Err(NotBase32) <==> |Normalised(id)| == 56 && !InAlphabet(Data(Normalised(id)))
    ensures forall e :: MatchesCert(sha256, id, cert) == Err(e) <==> HashFromDeviceID(id) == Err(e)
    ensures MatchesCert(sha256, id, cert) == Ok(true) <==> HashFromDeviceID(id) == Ok(sha256(cert))
  {
  }

  /** Which strings name a hash, and when two of them name the same one: the 52 data characters must agree up to
      the four spare bits of the last. The check characters never matter. */
  lemma SameHashIff(a: string, b: string)
    ensures HashFromDeviceID(a).Ok? <==> |Normalised(a)| == 56 && InAlphabet(Data(Normalised(a)))
    ensures HashFromDeviceID(a).Ok? && HashFromDeviceID(b).Ok? ==>
              (HashFromDeviceID(a) == HashFromDeviceID(b) <==>
               Canonical(Codes(Data(Normalised(a)))) == Canonical(Codes(Data(Normalised(b)))))
  {
    if HashFromDeviceID(a).Ok? && HashFromDeviceID(b).Ok? {
      var h := HashFromDeviceID(a).value;
      CodecInverse(h, Codes(Data(Normalised(a))));
      CodecInverse(h, Codes(Data(Normalised(b))));
    }
  }

  lemma {:induction false} WideBytes(s: string, c: char) returns (k: nat)
    requires c in s && !IsAscii(c)
    ensures k + 1 < |Bytes(s)| && !IsAscii(Bytes(s)[k]) && !IsAscii(Bytes(s)[k + 1])
  {
    var first := Utf8(s[0]);
    if s[0] == c {
      k := 0;
      assert first[0] in first && first[1] in first;
    } else {
      var j := WideBytes(s[1..], c);
      k := |first| + j;
    }
  }

  lemma DataCovers(s: string, j: nat)
    requires |s| == 56 && j < 56 && j !in {13, 27, 41, 55}
    ensures s[j] in Data(s)
  {
    var block := j / 14;
    assert Data(s)[j - block] == s[j];
  }

  /** A character that is still outside ASCII in upper case always makes the ID unreadable, even in the place of a
      check character: its bytes do not all fit there. */
  lemma WideCharacterIsRejected(id: string, c: char)
    requires c in ToUpper(RemoveHyphens(id)) && !IsAscii(c)
    ensures HashFromDeviceID(id).Err?
  {
    var s := Normalised(id);
    var k := WideBytes(ToUpper(RemoveHyphens(id)), c);
    if |s| == 56 {
      var j := if k in {13, 27, 41, 55} then k + 1 else k;
      DataCovers(s, j);
      var i :| 0 <= i < 52 && Data(s)[i] == s[j];
      assert !IsBase32(Data(s)[i]);
    }
  }

  /** An accepted string is a spelling of the ID of the hash it names exactly when its check characters are the
      right ones and its last data character has no spare bits set. */
  lemma SpellsItsHashIff(id: string)
    requires HashFromDeviceID(id).Ok?
    ensures var s := Normalised(id);
            s == Compact(HashFromDeviceID(id).value)
            <==> s == Luhnified(Data(s)) && Codes(Data(s)) == Canonical(Codes(Data(s)))
  {
    var s, h := Normalised(id), HashFromDeviceID(id).value;
    var codes := Codes(Data(s));
    CodecInverse(h, codes);
    CodesAndRender(codes, Data(s));
    CodesAndRender(Encode(h), Render(Encode(h)));
    if s == Compact(h) {
      DataOfLuhnified(Render(Encode(h)));
      DecodeOfEncode(h);
    }
  }
}
