/** The printer's authentication token: the password, UTF-8 encoded, padded with PKCS#7
    (section 6.3 of RFC 5652) to the 8-byte DES block, encrypted block by block in ECB mode
    (section 6.1 of NIST SP 800-38A) under a fixed key, and Base64-encoded with the
    standard alphabet and `=` padding (section 4 of RFC 4648).
    The DES block function itself (FIPS 46-3) is a parameter of the model. */
module Token {
  import opened Base

  /** One 8-byte DES block; a DES key has the same shape. */
  type Block = b: seq<byte> | |b| == 8 witness [0, 0, 0, 0, 0, 0, 0, 0]

  /** DES encryption of one block under a key, treated as an arbitrary function. */
  type Cipher = (Block, Block) -> Block

  const BlockSize: nat := 8

  /** The key `unhexlify("6138356539643638")`: the ASCII bytes of "a85e9d68". */
  const TokenKey: Block := [0x61, 0x38, 0x35, 0x65, 0x39, 0x64, 0x36, 0x38]

  // ---------------------------------------------------------------- UTF-8

  /** The UTF-8 encoding of one Unicode scalar value. */
  function EncodeChar(c: char): (b: seq<byte>)
    ensures 1 <= |b| <= 4
  {
    var n := c as int;
    if n < 0x80 then [n]
    else if n < 0x800 then [0xC0 + n / 64, 0x80 + n % 64]
    else if n < 0x10000 then [0xE0 + n / 4096, 0x80 + (n / 64) % 64, 0x80 + n % 64]
    else [0xF0 + n / 262144, 0x80 + (n / 4096) % 64, 0x80 + (n / 64) % 64, 0x80 + n % 64]
  }

  /** Python `s.encode()` (UTF-8). */
  function Utf8Encode(s: string): (b: seq<byte>)
    ensures |s| <= |b| <= 4 * |s|
  {
    if |s| == 0 then [] else EncodeChar(s[0]) + Utf8Encode(s[1..])
  }

  /** The number of bytes of the sequence that a UTF-8 lead byte starts, or 0. */
  function SequenceLength(lead: byte): nat {
    if lead < 0x80 then 1
    else if 0xC0 <= lead < 0xE0 then 2
    else if 0xE0 <= lead < 0xF0 then 3
    else if 0xF0 <= lead < 0xF8 then 4
    else 0
  }

  predicate IsContinuation(b: byte) {
    0x80 <= b < 0xC0
  }

  /** The scalar value that one complete UTF-8 sequence encodes. */
  function DecodeSequence(b: seq<byte>): Option<char>
    requires 1 <= |b| <= 4 && |b| == SequenceLength(b[0])
  {
    if exists i :: 1 <= i < |b| && !IsContinuation(b[i]) then None
    else
      var n :=
        if |b| == 1 then b[0] as int
        else if |b| == 2 then (b[0] as int - 0xC0) * 64 + (b[1] as int - 0x80)
        else if |b| == 3 then
          (b[0] as int - 0xE0) * 4096 + (b[1] as int - 0x80) * 64 + (b[2] as int - 0x80)
        else
          (b[0] as int - 0xF0) * 262144 + (b[1] as int - 0x80) * 4096
          + (b[2] as int - 0x80) * 64 + (b[3] as int - 0x80);
      if 0 <= n < 0xD800 || 0xE000 <= n < 0x110000 then Some(n as char) else None
  }

  /** UTF-8 decoding; `None` when the bytes are not a sequence of complete encodings. */
  function Utf8Decode(b: seq<byte>): Option<string>
    decreases |b|
  {
    if |b| == 0 then Some([])
    else
      var n := SequenceLength(b[0]);
      if n == 0 || |b| < n then None
      else match (DecodeSequence(b[..n]), Utf8Decode(b[n..]))
        case (Some(c), Some(rest)) => Some([c] + rest)
        case _ => None
  }

  lemma DecodeEncodeChar(c: char)
    ensures |EncodeChar(c)| == SequenceLength(EncodeChar(c)[0])
    ensures DecodeSequence(EncodeChar(c)) == Some(c)
  {
    var n := c as int;
    var b := EncodeChar(c);
    if n < 0x80 {
    } else if n < 0x800 {
      assert (n / 64) * 64 + n % 64 == n;
    } else if n < 0x10000 {
      assert (n / 64) / 64 == n / 4096;
      assert (n / 4096) * 4096 + ((n / 64) % 64) * 64 + n % 64 == n;
    } else {
      assert (n / 64) / 64 == n / 4096;
      assert (n / 4096) / 64 == n / 262144;
      assert (n / 262144) * 262144 + ((n / 4096) % 64) * 4096 + ((n / 64) % 64) * 64 + n % 64 == n;
    }
    assert forall i :: 1 <= i < |b| ==> IsContinuation(b[i]);
  }

  /** Decoding undoes `Utf8Encode`: the password's bytes determine the password. */
  lemma {:induction false} Utf8RoundTrip(s: string)
    ensures Utf8Decode(Utf8Encode(s)) == Some(s)
  {
    if |s| > 0 {
      var e := EncodeChar(s[0]);
      var b := Utf8Encode(s);
      DecodeEncodeChar(s[0]);
      assert b[..|e|] == e;
      assert b[|e|..] == Utf8Encode(s[1..]);
      Utf8RoundTrip(s[1..]);
      assert s == [s[0]] + s[1..];
    }
  }

  // ---------------------------------------------------------------- PKCS#7

  /** PKCS#7 padding to the 8-byte block (pycryptodome `pad(data, 8)`): k bytes of value k
      are appended, 1 <= k <= 8, so that the length becomes a multiple of 8. */
  function Pad(data: seq<byte>): (p: seq<byte>)
    ensures |p| % BlockSize == 0 && |data| < |p| <= |data| + BlockSize
    ensures p[..|data|] == data
    ensures forall i :: |data| <= i < |p| ==> p[i] == |p| - |data|
  {
    var k := BlockSize - |data| % BlockSize;
    data + seq(k, _ => k)
  }

  /** pycryptodome `unpad(p, 8)`: checks and strips PKCS#7 padding. */
  function Unpad(p: seq<byte>): Option<seq<byte>> {
    if |p| == 0 || |p| % BlockSize != 0 then None
    else
      var k := p[|p| - 1];
      if k < 1 || k > BlockSize || exists i :: |p| - k <= i < |p| && p[i] != k then None
      else Some(p[..|p| - k])
  }

  lemma {:induction false} UnpadPad(data: seq<byte>)
    ensures Unpad(Pad(data)) == Some(data)
  {
    var p := Pad(data);
    assert p[|p| - 1] == |p| - |data|;
  }

  // ---------------------------------------------------------------- ECB

  /** The `i`-th 8-byte block of `s`. */
  function BlockAt(s: seq<byte>, i: nat): Block
    requires 8 * i + 8 <= |s|
  {
    s[8 * i..8 * i + 8]
  }

  /** Past the first block, the blocks of `first + rest` are those of `rest`. */
  lemma BlocksAfterFirst(first: seq<byte>, rest: seq<byte>)
    requires |first| == 8
    ensures forall i :: 1 <= i && 8 * i + 8 <= |first| + |rest| ==>
              BlockAt(first + rest, i) == BlockAt(rest, i - 1)
  {
    forall i | 1 <= i && 8 * i + 8 <= |first| + |rest|
      ensures BlockAt(first + rest, i) == BlockAt(rest, i - 1)
    {
      assert (first + rest)[8 * i..8 * i + 8] == rest[8 * (i - 1)..8 * (i - 1) + 8];
    }
  }

  /** DES-ECB encryption (`DES.new(key, DES.MODE_ECB).encrypt(p)`): every block of the
      plaintext is encrypted independently, in its place. */
  function EcbEncrypt(cipher: Cipher, key: Block, p: seq<byte>): (c: seq<byte>)
    requires |p| % 8 == 0
    ensures |c| == |p|
    ensures forall i :: 0 <= i && 8 * i + 8 <= |p| ==> BlockAt(c, i) == cipher(key, BlockAt(p, i))
    decreases |p|
  {
    if |p| == 0 then []
    else
      var first := cipher(key, p[..8]);
      var rest := EcbEncrypt(cipher, key, p[8..]);
      assert p == p[..8] + p[8..];
      BlocksAfterFirst(first, rest);
      BlocksAfterFirst(p[..8], p[8..]);
      first + rest
  }

  // ---------------------------------------------------------------- Base64

  /** The standard Base64 alphabet: A-Z, a-z, 0-9, '+', '/'. */
  function B64Char(d: int): char
    requires 0 <= d < 64
  {
    if d < 26 then ('A' as int + d) as char
    else if d < 52 then ('a' as int + d - 26) as char
    else if d < 62 then ('0' as int + d - 52) as char
    else if d == 62 then '+'
    else '/'
  }

  predicate IsB64(c: char) {
    ('A' <= c <= 'Z') || ('a' <= c <= 'z') || ('0' <= c <= '9') || c == '+' || c == '/'
  }

  function B64Index(c: char): (d: int)
    requires IsB64(c)
    ensures 0 <= d < 64 && B64Char(d) == c
  {
    if 'A' <= c <= 'Z' then c as int - 'A' as int
    else if 'a' <= c <= 'z' then c as int - 'a' as int + 26
    else if '0' <= c <= '9' then c as int - '0' as int + 52
    else if c == '+' then 62
    else 63
  }

  lemma B64IndexOfChar(d: int)
    requires 0 <= d < 64
    ensures IsB64(B64Char(d)) && B64Index(B64Char(d)) == d && B64Char(d) != '='
  {
  }

  /** Python `b64encode`: each 3 bytes become 4 characters; a final group of 1 or 2 bytes
      is completed with `==` or `=`. */
  function Base64Encode(b: seq<byte>): (s: string)
    ensures |s| == 4 * ((|b| + 2) / 3)
    decreases |b|
  {
    if |b| == 0 then []
    else if |b| == 1 then
      [B64Char(b[0] / 4), B64Char((b[0] % 4) * 16), '=', '=']
    else if |b| == 2 then
      [B64Char(b[0] / 4), B64Char((b[0] % 4) * 16 + b[1] / 16), B64Char((b[1] % 16) * 4), '=']
    else
      [B64Char(b[0] / 4), B64Char((b[0] % 4) * 16 + b[1] / 16),
       B64Char((b[1] % 16) * 4 + b[2] / 64), B64Char(b[2] % 64)] + Base64Encode(b[3..])
  }

  /** Base64 decoding of text in the shape `Base64Encode` produces. */
  function Base64Decode(s: string): Option<seq<byte>>
    decreases |s|
  {
    if |s| == 0 then Some([])
    else if |s| < 4 || !IsB64(s[0]) || !IsB64(s[1]) then None
    else
      var a, b := B64Index(s[0]), B64Index(s[1]);
      if |s| == 4 && s[2] == '=' && s[3] == '=' then Some([a * 4 + b / 16])
      else if !IsB64(s[2]) then None
      else
        var c := B64Index(s[2]);
        if |s| == 4 && s[3] == '=' then Some([a * 4 + b / 16, (b % 16) * 16 + c / 4])
        else if !IsB64(s[3]) then None
        else
          var d := B64Index(s[3]);
          match Base64Decode(s[4..])
          case None => None
          case Some(rest) => Some([a * 4 + b / 16, (b % 16) * 16 + c / 4, (c % 4) * 64 + d] + rest)
  }

  /** The arithmetic of one group: the sextets the encoder writes give back the bytes. */
  lemma GroupArithmetic(x: byte, y: byte, z: byte)
    ensures (x / 4) * 4 + ((x % 4) * 16 + y / 16) / 16 == x
    ensures (((x % 4) * 16 + y / 16) % 16) * 16 + ((y % 16) * 4 + z / 64) / 4 == y
    ensures (((y % 16) * 4 + z / 64) % 4) * 64 + z % 64 == z
    ensures (((x % 4) * 16 + y / 16) % 16) * 16 + ((y % 16) * 4) / 4 == y
  {
  }

  /** The four characters `Base64Encode` writes for the full group `x, y, z`. */
  function EncodeGroup(x: byte, y: byte, z: byte): (s: string)
    ensures |s| == 4
  {
    [B64Char(x / 4), B64Char((x % 4) * 16 + y / 16), B64Char((y % 16) * 4 + z / 64), B64Char(z % 64)]
  }

  lemma EncodeStep(b: seq<byte>)
    requires |b| >= 3
    ensures Base64Encode(b) == EncodeGroup(b[0], b[1], b[2]) + Base64Encode(b[3..])
  {
  }

  /** One step of `Base64Decode`: a full group followed by decodable text. */
  lemma DecodeStep(x: byte, y: byte, z: byte, t: string, rest: seq<byte>)
    requires Base64Decode(t) == Some(rest)
    ensures Base64Decode(EncodeGroup(x, y, z) + t) == Some([x, y, z] + rest)
  {
    var c0, c1, c2, c3 := x / 4, (x % 4) * 16 + y / 16, (y % 16) * 4 + z / 64, z % 64;
    var s := EncodeGroup(x, y, z) + t;
    B64IndexOfChar(c0);
    B64IndexOfChar(c1);
    B64IndexOfChar(c2);
    B64IndexOfChar(c3);
    assert s[4..] == t;
    GroupArithmetic(x, y, z);
  }

  lemma RoundTripOne(x: byte)
    ensures Base64Decode(Base64Encode([x])) == Some([x])
  {
    B64IndexOfChar(x / 4);
    B64IndexOfChar((x % 4) * 16);
    GroupArithmetic(x, 0, 0);
  }

  lemma RoundTripTwo(x: byte, y: byte)
    ensures Base64Decode(Base64Encode([x, y])) == Some([x, y])
  {
    var s := Base64Encode([x, y]);
    B64IndexOfChar(x / 4);
    B64IndexOfChar((x % 4) * 16 + y / 16);
    B64IndexOfChar((y % 16) * 4);
    assert s[3] == '=' && IsB64(s[2]);
    GroupArithmetic(x, y, 0);
  }

  lemma RoundTripShort(b: seq<byte>)
    requires 1 <= |b| < 3
    ensures Base64Decode(Base64Encode(b)) == Some(b)
  {
    if |b| == 1 {
      RoundTripOne(b[0]);
      assert b == [b[0]];
    } else {
      RoundTripTwo(b[0], b[1]);
      assert b == [b[0], b[1]];
    }
  }

  lemma RoundTripGroup(x: byte, y: byte, z: byte, tail: seq<byte>)
    requires Base64Decode(Base64Encode(tail)) == Some(tail)
    ensures Base64Decode(Base64Encode([x, y, z] + tail)) == Some([x, y, z] + tail)
  {
    var b := [x, y, z] + tail;
    assert b[3..] == tail;
    EncodeStep(b);
    DecodeStep(x, y, z, Base64Encode(tail), tail);
  }

  /** Decoding undoes `Base64Encode`. */
  lemma {:induction false} Base64RoundTrip(b: seq<byte>)
    ensures Base64Decode(Base64Encode(b)) == Some(b)
    decreases |b|
  {
    if 1 <= |b| < 3 {
      RoundTripShort(b);
    } else if |b| >= 3 {
      Base64RoundTrip(b[3..]);
      assert b == [b[0], b[1], b[2]] + b[3..];
      RoundTripGroup(b[0], b[1], b[2], b[3..]);
    }
  }

  lemma DropGroupLength(n: int)
    ensures (n - 3) % 3 == n % 3
  {
  }

  lemma EndingOfGroup(g: string, t: string)
    requires |t| >= 2
    ensures var s := g + t; s[|s| - 1] == t[|t| - 1] && s[|s| - 2] == t[|t| - 2]
  {
  }

  /** The last two characters of an encoding of `n = 3q + 2` bytes are a letter of the
      alphabet and a single `=`. */
  lemma {:induction false} Base64Ending(b: seq<byte>)
    requires |b| % 3 == 2
    ensures var s := Base64Encode(b); s[|s| - 1] == '=' && s[|s| - 2] != '='
    decreases |b|
  {
    if |b| == 2 {
      B64IndexOfChar((b[1] % 16) * 4);
    } else {
      EndingOfGroup(EncodeGroup(b[0], b[1], b[2]), Base64Encode(b[3..]));
      EncodeStep(b);
      DropGroupLength(|b|);
      Base64Ending(b[3..]);
    }
  }

  // ---------------------------------------------------------------- the token

  /** The bytes that are encrypted: the UTF-8 of the password (`""` when it is `None`
      or empty), PKCS#7-padded. */
  function Plaintext(password: Option<string>): (p: seq<byte>)
    ensures |p| % BlockSize == 0
  {
    Pad(Utf8Encode(if password.Some? then password.value else ""))
  }

  /** `generate_token(password)`. */
  function GenerateToken(cipher: Cipher, password: Option<string>): string {
    Base64Encode(EcbEncrypt(cipher, TokenKey, Plaintext(password)))
  }

  /** A falsy password is the empty one, which pads to eight bytes of value 8. */
  lemma EmptyPassword(cipher: Cipher)
    ensures Plaintext(None) == Plaintext(Some("")) == [8, 8, 8, 8, 8, 8, 8, 8]
    ensures GenerateToken(cipher, None) == Base64Encode(cipher(TokenKey, [8, 8, 8, 8, 8, 8, 8, 8]))
  {
    assert Utf8Encode("") == [];
    assert BlockAt(Plaintext(None), 0) == [8, 8, 8, 8, 8, 8, 8, 8];
    assert BlockAt(EcbEncrypt(cipher, TokenKey, Plaintext(None)), 0) == EcbEncrypt(cipher, TokenKey, Plaintext(None));
  }

  /** The token always decodes to the ECB ciphertext of the padded password, whose
      blocks are the cipher applied to the plaintext's blocks. */
  lemma TokenDecodes(cipher: Cipher, password: Option<string>)
    ensures Base64Decode(GenerateToken(cipher, password)) == Some(EcbEncrypt(cipher, TokenKey, Plaintext(password)))
    ensures Unpad(Plaintext(password)) == Some(Utf8Encode(if password.Some? then password.value else ""))
  {
    Base64RoundTrip(EcbEncrypt(cipher, TokenKey, Plaintext(password)));
    UnpadPad(Utf8Encode(if password.Some? then password.value else ""));
  }

  lemma PadShort(data: seq<byte>)
    requires |data| < 8
    ensures |Pad(data)| == 8
  {
  }

  /** A password of at most 7 bytes fills one block: its token has 12 characters, the
      last a single `=`. */
  lemma ShortPasswordToken(cipher: Cipher, password: Option<string>)
    requires |Utf8Encode(if password.Some? then password.value else "")| <= 7
    ensures var t := GenerateToken(cipher, password); |t| == 12 && t[11] == '=' && t[10] != '='
  {
    var data := Utf8Encode(if password.Some? then password.value else "");
    PadShort(data);
    var c := EcbEncrypt(cipher, TokenKey, Pad(data));
    assert |c| == 8;
    Base64Ending(c);
  }
}
