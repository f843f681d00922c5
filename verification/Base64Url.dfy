/** The bytes of a text and their base64url spelling, as node's Buffer writes both. */
module Base64Url {
  import opened Text
  import opened Options

  type Byte = n: nat | n < 256

  // ---------------------------------------------------------------- base64url

  function Letter(n: nat): char
    requires n < 64
  {
    if n < 26 then 'A' + n as char
    else if n < 52 then 'a' + (n - 26) as char
    else if n < 62 then '0' + (n - 52) as char
    else if n == 62 then '-'
    else '_'
  }

  /** What a letter stands for; 64 for a character outside the alphabet. */
  function Sextet(c: char): (n: nat)
    ensures n <= 64
  {
    if 'A' <= c <= 'Z' then (c - 'A') as nat
    else if 'a' <= c <= 'z' then (c - 'a') as nat + 26
    else if '0' <= c <= '9' then (c - '0') as nat + 52
    else if c == '-' then 62
    else if c == '_' then 63
    else 64
  }

  lemma LetterIsRead(n: nat)
    requires n < 64
    ensures Sextet(Letter(n)) == n
  {
  }

  predicate Letters(s: string) { forall i :: 0 <= i < |s| ==> Sextet(s[i]) < 64 }

  function Encode(bytes: seq<Byte>): string {
    if bytes == [] then ""
    else if |bytes| == 1 then [Letter(bytes[0] / 4), Letter(bytes[0] % 4 * 16)]
    else if |bytes| == 2 then
      [Letter(bytes[0] / 4), Letter(bytes[0] % 4 * 16 + bytes[1] / 16), Letter(bytes[1] % 16 * 4)]
    else Quartet(bytes[0], bytes[1], bytes[2]) + Encode(bytes[3..])
  }

  function Quartet(a: Byte, b: Byte, c: Byte): (s: string)
    ensures |s| == 4
  {
    [Letter(a / 4), Letter(a % 4 * 16 + b / 16), Letter(b % 16 * 4 + c / 64), Letter(c % 64)]
  }

  function ByteAt(bytes: seq<Byte>, i: nat): Byte { if i < |bytes| then bytes[i] else 0 }

  /** The letters of three bytes are, six bits each, the one number the bytes are. */
  lemma QuartetIsOneNumber(a: Byte, b: Byte, c: Byte)
    ensures var q := Quartet(a, b, c);
            262144 * Sextet(q[0]) + 4096 * Sextet(q[1]) + 64 * Sextet(q[2]) + Sextet(q[3]) == 65536 * a + 256 * b + c
  {
    LetterIsRead(a / 4);
    LetterIsRead(a % 4 * 16 + b / 16);
    LetterIsRead(b % 16 * 4 + c / 64);
    LetterIsRead(c % 64);
  }

  lemma FirstThree(bytes: seq<Byte>, k: nat)
    requires bytes != [] && k < 4 && k < |Encode(bytes)|
    ensures Encode(bytes)[k] == Quartet(bytes[0], ByteAt(bytes, 1), ByteAt(bytes, 2))[k]
  {
  }

  lemma AfterThree(bytes: seq<Byte>, rest: seq<Byte>, j: nat)
    requires |bytes| > 3 && rest == bytes[3..] && 4 + j < |Encode(bytes)|
    ensures j < |Encode(rest)| && Encode(bytes)[4 + j] == Encode(rest)[j]
  {
  }

  /** The letters of each three bytes stand where the bytes do; the last are those the bytes left over reach into. */
  lemma {:induction false} EncodedInThrees(bytes: seq<Byte>, i: nat, k: nat)
    requires 3 * i < |bytes| && k < 4 && 4 * i + k < |Encode(bytes)|
    ensures Encode(bytes)[4 * i + k]
         == Quartet(bytes[3 * i], ByteAt(bytes, 3 * i + 1), ByteAt(bytes, 3 * i + 2))[k]
  {
    if i == 0 {
      FirstThree(bytes, k);
    } else {
      var rest, j := bytes[3..], 3 * (i - 1);
      AfterThree(bytes, rest, 4 * (i - 1) + k);
      assert rest[j] == bytes[3 * i];
      assert ByteAt(rest, j + 1) == ByteAt(bytes, 3 * i + 1) && ByteAt(rest, j + 2) == ByteAt(bytes, 3 * i + 2);
      EncodedInThrees(rest, i - 1, k);
    }
  }

  /** The three bytes of four sextets. */
  function Triple(p: nat, q: nat, r: nat, s: nat): (bytes: seq<Byte>)
    requires p < 64 && q < 64 && r < 64 && s < 64
  {
    [p * 4 + q / 16, q % 16 * 16 + r / 4, r % 4 * 64 + s]
  }

  function Decode(s: string): Option<seq<Byte>>
    requires Letters(s)
  {
    if s == "" then Some([])
    else if |s| == 1 then None
    else if |s| == 2 then Some(Triple(Sextet(s[0]), Sextet(s[1]), 0, 0)[..1])
    else if |s| == 3 then Some(Triple(Sextet(s[0]), Sextet(s[1]), Sextet(s[2]), 0)[..2])
    else
      var rest := Decode(s[4..]);
      if rest.None? then None
      else Some(Triple(Sextet(s[0]), Sextet(s[1]), Sextet(s[2]), Sextet(s[3])) + rest.value)
  }

  lemma QuartetIsLetters(a: Byte, b: Byte, c: Byte)
    ensures Letters(Quartet(a, b, c))
  {
    LetterIsRead(a / 4);
    LetterIsRead(a % 4 * 16 + b / 16);
    LetterIsRead(b % 16 * 4 + c / 64);
    LetterIsRead(c % 64);
  }

  lemma FewAreLetters(bytes: seq<Byte>)
    requires |bytes| < 3
    ensures Letters(Encode(bytes)) && |Encode(bytes)| == (4 * |bytes| + 2) / 3
  {
    if bytes != [] {
      var b := if |bytes| == 2 then bytes[1] else 0;
      LetterIsRead(bytes[0] / 4);
      LetterIsRead(bytes[0] % 4 * 16 + b / 16);
      LetterIsRead(b % 16 * 4);
    }
  }

  lemma {:induction false} EncodedIsLetters(bytes: seq<Byte>)
    ensures Letters(Encode(bytes))
    ensures |Encode(bytes)| == (4 * |bytes| + 2) / 3
  {
    if |bytes| < 3 {
      FewAreLetters(bytes);
    } else {
      EncodedIsLetters(bytes[3..]);
      QuartetIsLetters(bytes[0], bytes[1], bytes[2]);
    }
  }

  lemma QuartetIsTriple(a: Byte, b: Byte, c: Byte)
    ensures Triple(a / 4, a % 4 * 16 + b / 16, b % 16 * 4 + c / 64, c % 64) == [a, b, c]
  {
  }

  lemma QuartetReads(a: Byte, b: Byte, c: Byte)
    ensures Sextet(Quartet(a, b, c)[0]) == a / 4
    ensures Sextet(Quartet(a, b, c)[1]) == a % 4 * 16 + b / 16
    ensures Sextet(Quartet(a, b, c)[2]) == b % 16 * 4 + c / 64
    ensures Sextet(Quartet(a, b, c)[3]) == c % 64
  {
    LetterIsRead(a / 4);
    LetterIsRead(a % 4 * 16 + b / 16);
    LetterIsRead(b % 16 * 4 + c / 64);
    LetterIsRead(c % 64);
  }

  lemma DecodeQuartet(a: Byte, b: Byte, c: Byte, quartet: string, rest: string)
    requires quartet == Quartet(a, b, c) && Letters(quartet + rest) && Letters(rest)
    requires Decode(rest).Some?
    ensures Decode(quartet + rest) == Some([a, b, c] + Decode(rest).value)
  {
    QuartetReads(a, b, c);
    QuartetIsTriple(a, b, c);
    assert (quartet + rest)[4..] == rest;
  }

  lemma SextetsOfOne(a: Byte, s: string)
    requires s == Encode([a])
    ensures |s| == 2 && Sextet(s[0]) == a / 4 && Sextet(s[1]) == a % 4 * 16
  {
    LetterIsRead(a / 4);
    LetterIsRead(a % 4 * 16);
  }

  lemma TripleOfOne(a: Byte, q: nat)
    requires q == a % 4 * 16
    ensures q < 64 && Triple(a / 4, q, 0, 0)[..1] == [a]
  {
  }

  lemma DecodeOne(a: Byte, s: string)
    requires Letters(s) && s == Encode([a])
    ensures Decode(s) == Some([a])
  {
    SextetsOfOne(a, s);
    TripleOfOne(a, Sextet(s[1]));
  }

  lemma SextetsOfTwo(a: Byte, b: Byte, s: string)
    requires s == Encode([a, b])
    ensures |s| == 3
    ensures Sextet(s[0]) == a / 4 && Sextet(s[1]) == a % 4 * 16 + b / 16 && Sextet(s[2]) == b % 16 * 4
  {
    LetterIsRead(a / 4);
    LetterIsRead(a % 4 * 16 + b / 16);
    LetterIsRead(b % 16 * 4);
  }

  lemma TripleOfTwo(a: Byte, b: Byte, q: nat, r: nat)
    requires q == a % 4 * 16 + b / 16 && r == b % 16 * 4
    ensures q < 64 && r < 64 && Triple(a / 4, q, r, 0)[..2] == [a, b]
  {
    QuartetIsTriple(a, b, 0);
  }

  lemma DecodeTwo(a: Byte, b: Byte, s: string)
    requires Letters(s) && s == Encode([a, b])
    ensures Decode(s) == Some([a, b])
  {
    SextetsOfTwo(a, b, s);
    TripleOfTwo(a, b, Sextet(s[1]), Sextet(s[2]));
  }

  /** Decoding gives back the bytes that were encoded. */
  lemma {:induction false} DecodeEncode(bytes: seq<Byte>)
    ensures Letters(Encode(bytes)) && Decode(Encode(bytes)) == Some(bytes)
  {
    EncodedIsLetters(bytes);
    if |bytes| == 1 {
      assert bytes == [bytes[0]];
      DecodeOne(bytes[0], Encode(bytes));
    } else if |bytes| == 2 {
      assert bytes == [bytes[0], bytes[1]];
      DecodeTwo(bytes[0], bytes[1], Encode(bytes));
    } else if |bytes| >= 3 {
      DecodeEncode(bytes[3..]);
      DecodeQuartet(bytes[0], bytes[1], bytes[2], Quartet(bytes[0], bytes[1], bytes[2]), Encode(bytes[3..]));
      assert bytes == [bytes[0], bytes[1], bytes[2]] + bytes[3..];
    }
  }

  // ---------------------------------------------------------------- UTF-8

  function CharBytes(c: char): (bytes: seq<Byte>)
    ensures 1 <= |bytes| <= 4
  {
    var n := c as int;
    if n < 0x80 then [n]
    else if n < 0x800 then [0xC0 + n / 0x40, 0x80 + n % 0x40]
    else if n < 0x10000 then [0xE0 + n / 0x1000, 0x80 + n / 0x40 % 0x40, 0x80 + n % 0x40]
    else [0xF0 + n / 0x40000, 0x80 + n / 0x1000 % 0x40, 0x80 + n / 0x40 % 0x40, 0x80 + n % 0x40]
  }

  function Utf8(s: string): seq<Byte> { if s == "" then [] else CharBytes(s[0]) + Utf8(s[1..]) }

  /** How many bytes the character takes whose first byte this is. */
  function Width(lead: Byte): nat {
    if lead < 0x80 then 1 else if lead < 0xE0 then 2 else if lead < 0xF0 then 3 else 4
  }

  function PointOf(b: seq<Byte>): int
    requires 1 <= |b| <= 4
  {
    if |b| == 1 then b[0]
    else if |b| == 2 then (b[0] as int - 0xC0) * 0x40 + (b[1] as int - 0x80)
    else if |b| == 3 then (b[0] as int - 0xE0) * 0x1000 + (b[1] as int - 0x80) * 0x40 + (b[2] as int - 0x80)
    else (b[0] as int - 0xF0) * 0x40000 + (b[1] as int - 0x80) * 0x1000 + (b[2] as int - 0x80) * 0x40 + (b[3] as int - 0x80)
  }

  predicate IsScalar(n: int) { 0 <= n < 0xD800 || 0xE000 <= n < 0x110000 }

  /** The text of well-formed UTF-8. */
  function FromUtf8(bytes: seq<Byte>): Option<string> {
    if bytes == [] then Some("")
    else
      var width := Width(bytes[0]);
      if |bytes| < width then None
      else
        var point := PointOf(bytes[..width]);
        if !IsScalar(point) || CharBytes(point as char) != bytes[..width] then None
        else
          var rest := FromUtf8(bytes[width..]);
          if rest.None? then None else Some([point as char] + rest.value)
  }

  lemma Sixes(n: nat)
    ensures n == n / 0x40 * 0x40 + n % 0x40
    ensures n / 0x40 == n / 0x1000 * 0x40 + n / 0x40 % 0x40
    ensures n / 0x1000 == n / 0x40000 * 0x40 + n / 0x1000 % 0x40
  {
  }

  lemma CharIsRead(c: char)
    ensures Width(CharBytes(c)[0]) == |CharBytes(c)| && PointOf(CharBytes(c)) == c as int
  {
    Sixes(c as int);
  }

  /** Reading gives back the text whose bytes were written. */
  lemma {:induction false} FromUtf8Utf8(s: string)
    ensures FromUtf8(Utf8(s)) == Some(s)
  {
    if s != "" {
      var b := CharBytes(s[0]);
      CharIsRead(s[0]);
      FromUtf8Utf8(s[1..]);
      assert Utf8(s)[..|b|] == b && Utf8(s)[|b|..] == Utf8(s[1..]);
      assert s == [s[0]] + s[1..];
    }
  }

  lemma Utf8First(c: char, s: string)
    ensures Utf8([c] + s) == CharBytes(c) + Utf8(s)
  {
    assert ([c] + s)[1..] == s;
  }

  lemma Grouped<T>(x: seq<T>, y: seq<T>, z: seq<T>)
    ensures x + (y + z) == x + y + z
  {
  }

  lemma {:induction false} Utf8Concat(a: string, b: string)
    ensures Utf8(a + b) == Utf8(a) + Utf8(b)
  {
    if a == "" {
      assert a + b == b;
    } else {
      var c, rest := a[0], a[1..];
      assert a == [c] + rest;
      Utf8Concat(rest, b);
      Grouped([c], rest, b);
      Utf8First(c, rest + b);
      Utf8First(c, rest);
      Grouped(CharBytes(c), Utf8(rest), Utf8(b));
    }
  }

  /** The text that base64url carries; none where the bytes or letters are not well formed. */
  function TextOf(body: string): Option<string> {
    if !Letters(body) then None
    else
      var bytes := Decode(body);
      if bytes.None? then None else FromUtf8(bytes.value)
  }

  function BodyOf(text: string): string { Encode(Utf8(text)) }

  lemma TextOfBody(text: string)
    ensures TextOf(BodyOf(text)) == Some(text)
  {
    DecodeEncode(Utf8(text));
    FromUtf8Utf8(text);
  }
}
