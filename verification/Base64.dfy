/** The base64 encoding of RFC 4648, section 4, over bytes, and the two helpers built on it. */
module Base64 {
  import opened Common

  type Byte = b: int | 0 <= b < 256

  type Bytes = seq<Byte>

  function Alphabet(d: int): char
    requires 0 <= d < 64
  {
    if d < 26 then 'A' + (d as char)
    else if d < 52 then 'a' + ((d - 26) as char)
    else if d < 62 then '0' + ((d - 52) as char)
    else if d == 62 then '+' else '/'
  }

  function Digit(c: char): Option<int> {
    if 'A' <= c <= 'Z' then Some((c - 'A') as int)
    else if 'a' <= c <= 'z' then Some((c - 'a') as int + 26)
    else if '0' <= c <= '9' then Some((c - '0') as int + 52)
    else if c == '+' then Some(62)
    else if c == '/' then Some(63)
    else None
  }

  lemma DigitOfAlphabet(d: int)
    requires 0 <= d < 64
    ensures Digit(Alphabet(d)) == Some(d) && Alphabet(d) != '='
  {
  }

  /** Three bytes as four characters. */
  function Quad(a: Byte, b: Byte, c: Byte): string {
    [Alphabet(a / 4), Alphabet(a % 4 * 16 + b / 16), Alphabet(b % 16 * 4 + c / 64), Alphabet(c % 64)]
  }

  /** The groups of three bytes, the last of which may be short. */
  function Core(s: Bytes): string {
    if |s| == 0 then ""
    else if |s| == 1 then Quad(s[0], 0, 0)[..2]
    else if |s| == 2 then Quad(s[0], s[1], 0)[..3]
    else Quad(s[0], s[1], s[2]) + Core(s[3..])
  }

  function Padding(n: nat): string {
    if n % 3 == 1 then "==" else if n % 3 == 2 then "=" else ""
  }

  function Encode(s: Bytes): string {
    Core(s) + Padding(|s|)
  }

  // ---- the forgiving decoder of the web ----

  predicate AsciiSpace(c: char) {
    c == ' ' || c == '\t' || c == '\n' || c == '\r' || c == '\U{000C}'
  }

  function WithoutSpace(t: string): string {
    if t == "" then ""
    else (if AsciiSpace(t[0]) then "" else [t[0]]) + WithoutSpace(t[1..])
  }

  /** One or two padding characters go from the end of a text whose length is a multiple of four. */
  function Unpadded(t: string): string {
    var n := |t|;
    if n % 4 != 0 || n == 0 || t[n - 1] != '=' then t
    else if t[n - 2] == '=' then t[..n - 2]
    else t[..n - 1]
  }

  /** Two to four characters back to one to three bytes; bits left over are dropped. */
  function Group(t: string): Option<Bytes>
    requires 2 <= |t| <= 4
  {
    var a, b := Digit(t[0]), Digit(t[1]);
    if a.None? || b.None? then None
    else
      var x: Byte := a.value * 4 + b.value / 16;
      if |t| == 2 then Some([x])
      else
        var c := Digit(t[2]);
        if c.None? then None
        else
          var y: Byte := b.value % 16 * 16 + c.value / 4;
          if |t| == 3 then Some([x, y])
          else
            var d := Digit(t[3]);
            if d.None? then None
            else var z: Byte := c.value % 4 * 64 + d.value; Some([x, y, z])
  }

  function Groups(t: string): Option<Bytes> {
    if |t| == 0 then Some([])
    else if |t| == 1 then None
    else if |t| < 4 then Group(t)
    else
      var head, tail := Group(t[..4]), Groups(t[4..]);
      if head.Some? && tail.Some? then Some(head.value + tail.value) else None
  }

  /** What `atob` makes of a text: white space is ignored, padding may be missing. */
  function Decode(t: string): Option<Bytes> {
    Groups(Unpadded(WithoutSpace(t)))
  }

  // ---- decoding inverts encoding ----

  lemma GroupThree(a: Byte, b: Byte, c: Byte)
    ensures Group(Quad(a, b, c)) == Some([a, b, c])
  {
    var p, q, r, u := a / 4, a % 4 * 16 + b / 16, b % 16 * 4 + c / 64, c % 64;
    DigitOfAlphabet(p);
    DigitOfAlphabet(q);
    DigitOfAlphabet(r);
    DigitOfAlphabet(u);
    assert q / 16 == a % 4 && q % 16 == b / 16;
    assert r / 4 == b % 16 && r % 4 == c / 64;
    assert p * 4 + q / 16 == a && q % 16 * 16 + r / 4 == b && r % 4 * 64 + u == c;
  }

  lemma GroupOne(a: Byte)
    ensures Group(Quad(a, 0, 0)[..2]) == Some([a])
  {
    DigitOfAlphabet(a / 4);
    DigitOfAlphabet(a % 4 * 16);
  }

  lemma GroupTwo(a: Byte, b: Byte)
    ensures Group(Quad(a, b, 0)[..3]) == Some([a, b])
  {
    DigitOfAlphabet(a / 4);
    DigitOfAlphabet(a % 4 * 16 + b / 16);
    DigitOfAlphabet(b % 16 * 4);
  }

  lemma GroupsStep(head: string, rest: string, x: Bytes, y: Bytes)
    requires |head| == 4 && Group(head) == Some(x) && Groups(rest) == Some(y)
    ensures Groups(head + rest) == Some(x + y)
  {
    assert (head + rest)[..4] == head && (head + rest)[4..] == rest;
  }

  lemma GroupsOfLast(t: string, s: Bytes)
    requires 2 <= |t| <= 3 && Group(t) == Some(s)
    ensures Groups(t) == Some(s)
  {
  }

  lemma GroupsOfShort(s: Bytes, t: string)
    requires |s| < 3 && t == Core(s)
    ensures Groups(t) == Some(s)
  {
    if |s| == 1 {
      GroupOne(s[0]);
      GroupsOfLast(t, [s[0]]);
      assert s == [s[0]];
    } else if |s| == 2 {
      GroupTwo(s[0], s[1]);
      GroupsOfLast(t, [s[0], s[1]]);
      assert s == [s[0], s[1]];
    }
  }

  lemma GroupsOfLong(s: Bytes, rest: string)
    requires |s| >= 3 && rest == Core(s[3..]) && Groups(rest) == Some(s[3..])
    ensures Groups(Core(s)) == Some(s)
  {
    GroupThree(s[0], s[1], s[2]);
    GroupsStep(Quad(s[0], s[1], s[2]), rest, [s[0], s[1], s[2]], s[3..]);
    assert s == [s[0], s[1], s[2]] + s[3..];
  }

  lemma {:induction false} GroupsOfCore(s: Bytes)
    ensures Groups(Core(s)) == Some(s)
    decreases |s|
  {
    if |s| < 3 {
      GroupsOfShort(s, Core(s));
    } else {
      GroupsOfCore(s[3..]);
      GroupsOfLong(s, Core(s[3..]));
    }
  }

  lemma {:induction false} CoreLength(s: Bytes, q: nat, r: nat)
    requires |s| == 3 * q + r && r < 3
    ensures |Core(s)| == 4 * q + if r == 0 then 0 else r + 1
    decreases q
  {
    if q > 0 { CoreLength(s[3..], q - 1, r); }
  }

  lemma PaddingLength(n: nat, q: nat, r: nat)
    requires n == 3 * q + r && r < 3
    ensures |Padding(n)| == if r == 0 then 0 else 3 - r
  {
    assert n % 3 == r;
  }

  lemma LengthInFours(s: Bytes, q: nat, r: nat)
    requires |s| == 3 * q + r && r < 3
    ensures |Core(s)| + |Padding(|s|)| == 4 * (q + if r == 0 then 0 else 1)
  {
    CoreLength(s, q, r);
    PaddingLength(|s|, q, r);
  }

  lemma ThirdRoundedUp(n: nat, q: nat, r: nat)
    requires n == 3 * q + r && r < 3
    ensures (n + 2) / 3 == q + if r == 0 then 0 else 1
  {
  }

  lemma EncodeLength(s: Bytes)
    ensures |Encode(s)| == 4 * ((|s| + 2) / 3)
  {
    var q, r := |s| / 3, |s| % 3;
    LengthInFours(s, q, r);
    ThirdRoundedUp(|s|, q, r);
  }

  predicate AlphabetOnly(t: string) {
    forall c :: c in t ==> c != '=' && !AsciiSpace(c)
  }

  lemma QuadAlphabet(a: Byte, b: Byte, c: Byte)
    ensures AlphabetOnly(Quad(a, b, c))
  {
  }

  lemma {:induction false} CoreAlphabet(s: Bytes)
    ensures AlphabetOnly(Core(s))
    decreases |s|
  {
    if |s| == 1 {
      QuadAlphabet(s[0], 0, 0);
    } else if |s| == 2 {
      QuadAlphabet(s[0], s[1], 0);
    } else if |s| >= 3 {
      QuadAlphabet(s[0], s[1], s[2]);
      CoreAlphabet(s[3..]);
    }
  }

  lemma {:induction false} NoSpaceStays(t: string)
    requires forall c :: c in t ==> !AsciiSpace(c)
    ensures WithoutSpace(t) == t
    decreases |t|
  {
    if t != "" { NoSpaceStays(t[1..]); }
  }

  lemma UnpadsTo(core: string, pad: string)
    requires AlphabetOnly(core) && (|core| + |pad|) % 4 == 0
    requires pad == "" || pad == "=" || pad == "=="
    ensures Unpadded(core + pad) == core
  {
    var t := core + pad;
    assert core != "" ==> core[|core| - 1] in core;
    assert t[..|core|] == core;
  }

  lemma PaddedStays(core: string, pad: string)
    requires AlphabetOnly(core) && (pad == "" || pad == "=" || pad == "==")
    ensures WithoutSpace(core + pad) == core + pad
  {
    NoSpaceStays(core + pad);
  }

  lemma WholeFours(s: Bytes)
    ensures (|Core(s)| + |Padding(|s|)|) % 4 == 0
  {
    LengthInFours(s, |s| / 3, |s| % 3);
  }

  /** Decoding inverts encoding, for every byte sequence. */
  lemma DecodeEncode(s: Bytes)
    ensures Decode(Encode(s)) == Some(s)
  {
    CoreAlphabet(s);
    WholeFours(s);
    PaddedStays(Core(s), Padding(|s|));
    UnpadsTo(Core(s), Padding(|s|));
    GroupsOfCore(s);
  }

  /** Bits left over in the last group are dropped, as in "QR==" for the byte 65. */
  lemma LeftoverBitsDropped()
    ensures Decode("QR==") == Some([65])
  {
    NoSpaceStays("QR==");
    UnpadsTo("QR", "==");
    assert "QR" + "==" == "QR==";
    assert Digit('Q') == Some(16) && Digit('R') == Some(17);
    assert Group("QR") == Some([65]);
    GroupsOfLast("QR", [65]);
  }

  // ---- what the encoding is, and what else decodes ----

  /** The four characters of a group are the base-64 digits of the number its three bytes make. */
  lemma QuadIsNumber(a: Byte, b: Byte, c: Byte)
    ensures |Quad(a, b, c)| == 4
    ensures forall i :: 0 <= i < 4 ==> Digit(Quad(a, b, c)[i]).Some?
    ensures var q := Quad(a, b, c);
            ((Digit(q[0]).value * 64 + Digit(q[1]).value) * 64 + Digit(q[2]).value) * 64 + Digit(q[3]).value
            == (a * 256 + b) * 256 + c
  {
    DigitOfAlphabet(a / 4);
    DigitOfAlphabet(a % 4 * 16 + b / 16);
    DigitOfAlphabet(b % 16 * 4 + c / 64);
    DigitOfAlphabet(c % 64);
  }

  lemma FullGroup(a: Byte, b: Byte, c: Byte, rest: Bytes)
    ensures Core([a, b, c] + rest) == Quad(a, b, c) + Core(rest)
  {
    assert ([a, b, c] + rest)[3..] == rest;
  }

  /** The test vectors of section 10 of RFC 4648: "", "f", "fo", "foo" and "foobar". */
  lemma TestVectors()
    ensures Encode([]) == "" && Encode([102]) == "Zg==" && Encode([102, 111]) == "Zm8="
    ensures Encode([102, 111, 111]) == "Zm9v" && Encode([102, 111, 111, 98, 97, 114]) == "Zm9vYmFy"
  {
    assert Quad(102, 111, 111) == "Zm9v" && Quad(98, 97, 114) == "YmFy";
    FullGroup(102, 111, 111, []);
    FullGroup(98, 97, 114, []);
    FullGroup(102, 111, 111, [98, 97, 114]);
    assert [102, 111, 111] + [] == [102, 111, 111] && [98, 97, 114] + [] == [98, 97, 114];
    assert [102, 111, 111] + [98, 97, 114] == [102, 111, 111, 98, 97, 114];
  }

  lemma {:induction false} WithoutSpaceConcat(a: string, b: string)
    ensures WithoutSpace(a + b) == WithoutSpace(a) + WithoutSpace(b)
    decreases |a|
  {
    if a == "" {
      assert a + b == b;
    } else {
      assert (a + b)[1..] == a[1..] + b;
      WithoutSpaceConcat(a[1..], b);
    }
  }

  lemma AsciiSpacesAre(c: char)
    ensures AsciiSpace(c) <==> c as int in [9, 10, 12, 13, 32]
  {
  }

  /** White space may stand anywhere. */
  lemma SpaceIgnored(a: string, c: char, b: string)
    requires AsciiSpace(c)
    ensures Decode(a + [c] + b) == Decode(a + b)
  {
    WithoutSpaceConcat(a + [c], b);
    WithoutSpaceConcat(a, [c]);
    WithoutSpaceConcat(a, b);
    assert WithoutSpace([c]) == "";
    assert WithoutSpace(a) + "" == WithoutSpace(a);
  }

  /** The padding may be missing. */
  lemma PaddingOptional(s: Bytes)
    ensures Decode(Core(s)) == Some(s)
  {
    CoreAlphabet(s);
    NoSpaceStays(Core(s));
    assert Core(s) != "" ==> Core(s)[|Core(s)| - 1] in Core(s);
    GroupsOfCore(s);
  }

  lemma {:induction false} StrangerInGroups(t: string, i: nat)
    requires i < |t| && Digit(t[i]) == None
    ensures Groups(t) == None
    decreases |t|
  {
    if |t| >= 4 && i >= 4 { StrangerInGroups(t[4..], i - 4); }
  }

  /** A text with any other character before its padding does not decode. */
  lemma StrangersRefused(t: string, i: nat)
    requires (forall c :: c in t ==> !AsciiSpace(c)) && i < |Unpadded(t)| && Digit(t[i]) == None
    ensures Decode(t) == None
  {
    NoSpaceStays(t);
    StrangerInGroups(Unpadded(t), i);
  }

  lemma EncodeInjective(s: Bytes, t: Bytes)
    requires Encode(s) == Encode(t)
    ensures s == t
  {
    DecodeEncode(s);
    DecodeEncode(t);
  }

  // ---- the string detour of btoa and atob ----

  /** String.fromCharCode of a run of bytes. */
  function FromCharCodes(s: Bytes): string {
    seq(|s|, i requires 0 <= i < |s| => s[i] as char)
  }

  predicate Binary(t: string) {
    forall c :: c in t ==> (c as int) < 256
  }

  function CodeOf(c: char): Byte {
    if (c as int) < 256 then c as int else 0
  }

  function CharCodes(t: string): Bytes
    requires Binary(t)
  {
    seq(|t|, i requires 0 <= i < |t| => CodeOf(t[i]))
  }

  function Btoa(t: string): string
    requires Binary(t)
  {
    Encode(CharCodes(t))
  }

  function Atob(t: string): (r: Option<string>)
    ensures r.Some? ==> Binary(r.value)
  {
    var bytes := Decode(t);
    if bytes.Some? then Some(FromCharCodes(bytes.value)) else None
  }

  /** bytesToBase64: the binary string is built from pieces of 32 KiB. */
  method BytesToBase64(bytes: Bytes) returns (text: string)
    ensures text == Encode(bytes)
  {
    var binary, offset := "", 0;
    while offset < |bytes|
      invariant 0 <= offset
      invariant binary == FromCharCodes(bytes[..Min(offset, |bytes|)])
    {
      var stop := Min(offset + 0x8000, |bytes|);
      binary := binary + FromCharCodes(bytes[offset..stop]);
      offset := offset + 0x8000;
    }
    assert bytes[..Min(offset, |bytes|)] == bytes;
    assert CharCodes(binary) == bytes;
    text := Btoa(binary);
  }

  lemma CodesBack(s: Bytes)
    ensures Binary(FromCharCodes(s)) && CharCodes(FromCharCodes(s)) == s
  {
  }

  /** base64ToBytes: one character code after another into the byte array. */
  method Base64ToBytes(text: string) returns (bytes: Option<Bytes>)
    ensures bytes == Decode(text)
  {
    var binary := Atob(text);
    ghost var decoded := Decode(text);
    if binary.None? { return None; }
    CodesBack(decoded.value);
    var codes := CopyCodes(binary.value);
    bytes := Some(codes);
  }

  method CopyCodes(binary: string) returns (bytes: Bytes)
    requires Binary(binary)
    ensures bytes == CharCodes(binary)
  {
    var out := new Byte[|binary|];
    for i := 0 to |binary|
      invariant out[..i] == CharCodes(binary)[..i]
    {
      out[i] := CodeOf(binary[i]);
    }
    bytes := out[..];
  }
}
