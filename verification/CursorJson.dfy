/** The JSON text of a cursor's payload, and how many bytes it can take. */
module CursorJson {
  import opened Text
  import opened Base64Url

  // ---------------------------------------------------------------- writing

  /** A character inside a JSON string, as JSON.stringify escapes it. */
  function EscapeChar(c: char): string {
    if c == '"' then "\\\""
    else if c == '\\' then "\\\\"
    else if c == '\U{8}' then "\\b"
    else if c == '\U{c}' then "\\f"
    else if c == '\n' then "\\n"
    else if c == '\r' then "\\r"
    else if c == '\t' then "\\t"
    else if c < ' ' then "\\u00" + [DigitChar(c as nat / 16), DigitChar(c as nat % 16)]
    else [c]
  }

  function Escaped(s: string): string { if s == "" then "" else EscapeChar(s[0]) + Escaped(s[1..]) }

  function Quote(s: string): string { "\"" + Escaped(s) + "\"" }

  function Integer(n: int): string { if n < 0 then "-" + Numeral(-n, 10) else Numeral(n, 10) }

  function Member(name: string, value: string): string { "\"" + name + "\":" + value }

  function Object(members: seq<string>): string { "{" + Join(members, ',') + "}" }

  datatype Payload = Payload(purpose: string, digest: string, micros: string, id: string, iat: int, exp: int)

  function TupleText(micros: string, id: string): string {
    Object([Member("createdAtMicros", Quote(micros)), Member("id", Quote(id))])
  }

  function Members(p: Payload): (members: seq<string>)
    ensures |members| == 6
  {
    [Member("v", "1"), Member("p", Quote(p.purpose)), Member("c", Quote(p.digest)),
     Member("t", TupleText(p.micros, p.id)), Member("iat", Integer(p.iat)), Member("exp", Integer(p.exp))]
  }

  function PayloadText(p: Payload): string { Object(Members(p)) }

  // ---------------------------------------------------------------- sizes

  function Bytes(s: string): nat { |Utf8(s)| }

  predicate Ascii(s: string) { forall i :: 0 <= i < |s| ==> s[i] < '\U{80}' }

  lemma {:induction false} AsciiBytes(s: string)
    requires Ascii(s)
    ensures Bytes(s) == |s|
  {
    if s != "" { AsciiBytes(s[1..]); }
  }

  lemma BytesConcat(a: string, b: string)
    ensures Bytes(a + b) == Bytes(a) + Bytes(b)
  {
    Utf8Concat(a, b);
  }

  lemma EscapeIsShort(c: char)
    ensures EscapeChar(c) == [c] || (Ascii(EscapeChar(c)) && |EscapeChar(c)| <= 6)
  {
    if EscapeChar(c) != [c] && c < ' ' && |EscapeChar(c)| > 2 {
      LowerDigitChar(c as nat / 16, 16);
      LowerDigitChar(c as nat % 16, 16);
    }
  }

  lemma EscapeBytes(c: char)
    ensures Bytes(EscapeChar(c)) <= 6 * |CharBytes(c)|
  {
    EscapeIsShort(c);
    if EscapeChar(c) == [c] {
      assert [c][1..] == "" && Utf8([c]) == CharBytes(c) + Utf8("");
    } else {
      AsciiBytes(EscapeChar(c));
    }
  }

  /** Escaping costs at most six bytes for every byte of the text. */
  lemma {:induction false} EscapedBytes(s: string)
    ensures Bytes(Escaped(s)) <= 6 * Bytes(s)
  {
    if s != "" {
      EscapeBytes(s[0]);
      EscapedBytes(s[1..]);
      BytesConcat(EscapeChar(s[0]), Escaped(s[1..]));
    }
  }

  lemma QuoteBytes(s: string)
    ensures Bytes(Quote(s)) == Bytes(Escaped(s)) + 2
    ensures Bytes(Quote(s)) <= 6 * Bytes(s) + 2
  {
    EscapedBytes(s);
    AsciiBytes("\"");
    BytesConcat("\"", Escaped(s));
    BytesConcat("\"" + Escaped(s), "\"");
  }

  /** Text with nothing to escape is quoted as it is. */
  predicate Plain(s: string) { forall i :: 0 <= i < |s| ==> '"' < s[i] < '\U{80}' && s[i] != '\\' }

  lemma {:induction false} PlainEscaped(s: string)
    requires Plain(s)
    ensures Escaped(s) == s && Bytes(s) == |s|
  {
    if s != "" { PlainEscaped(s[1..]); }
  }

  lemma PlainQuoteBytes(s: string)
    requires Plain(s)
    ensures Bytes(Quote(s)) == |s| + 2
  {
    PlainEscaped(s);
    QuoteBytes(s);
  }

  lemma MemberBytes(name: string, value: string)
    requires Ascii(name)
    ensures Bytes(Member(name, value)) == |name| + 3 + Bytes(value)
  {
    BytesConcat("\"" + name + "\":", value);
    AsciiBytes("\"" + name + "\":");
  }

  function TotalBytes(parts: seq<string>): nat {
    if parts == [] then 0 else Bytes(parts[0]) + TotalBytes(parts[1..])
  }

  lemma {:induction false} JoinBytes(parts: seq<string>)
    requires parts != []
    ensures Bytes(Join(parts, ',')) == TotalBytes(parts) + |parts| - 1
  {
    if |parts| > 1 {
      JoinBytes(parts[1..]);
      AsciiBytes([',']);
      BytesConcat(parts[0], [',']);
      BytesConcat(parts[0] + [','], Join(parts[1..], ','));
    }
  }

  lemma ObjectBytes(members: seq<string>)
    requires members != []
    ensures Bytes(Object(members)) == TotalBytes(members) + |members| + 1
  {
    JoinBytes(members);
    AsciiBytes("{");
    AsciiBytes("}");
    BytesConcat("{", Join(members, ','));
    BytesConcat("{" + Join(members, ','), "}");
  }

  lemma TotalStep(part: string, rest: seq<string>)
    ensures TotalBytes([part] + rest) == Bytes(part) + TotalBytes(rest)
  {
    assert ([part] + rest)[1..] == rest;
  }

  lemma TotalOfTwo(a: string, b: string)
    ensures TotalBytes([a, b]) == Bytes(a) + Bytes(b)
  {
    TotalStep(b, []);
    TotalStep(a, [b]);
    assert [b] + [] == [b] && [a] + [b] == [a, b];
  }

  lemma TotalOfSix(a: string, b: string, c: string, d: string, e: string, f: string)
    ensures TotalBytes([a, b, c, d, e, f]) == Bytes(a) + Bytes(b) + Bytes(c) + Bytes(d) + Bytes(e) + Bytes(f)
  {
    TotalOfTwo(e, f);
    TotalStep(d, [e, f]);
    TotalStep(c, [d] + [e, f]);
    TotalStep(b, [c] + ([d] + [e, f]));
    TotalStep(a, [b] + ([c] + ([d] + [e, f])));
    assert [a] + ([b] + ([c] + ([d] + [e, f]))) == [a, b, c, d, e, f];
  }

  lemma TupleBytes(micros: string, id: string)
    ensures Bytes(TupleText(micros, id)) == 26 + Bytes(Quote(micros)) + Bytes(Quote(id))
  {
    var first, second := Member("createdAtMicros", Quote(micros)), Member("id", Quote(id));
    MemberBytes("createdAtMicros", Quote(micros));
    MemberBytes("id", Quote(id));
    TotalOfTwo(first, second);
    ObjectBytes([first, second]);
  }

  lemma SixMembersBytes(a: string, b: string, c: string, d: string, e: string, f: string)
    ensures Bytes(Object([a, b, c, d, e, f])) == 7 + Bytes(a) + Bytes(b) + Bytes(c) + Bytes(d) + Bytes(e) + Bytes(f)
  {
    TotalOfSix(a, b, c, d, e, f);
    ObjectBytes([a, b, c, d, e, f]);
  }

  lemma VersionBytes()
    ensures Bytes(Member("v", "1")) == 5
  {
    MemberBytes("v", "1");
    AsciiBytes("1");
  }

  lemma StringMembersBytes(p: Payload)
    ensures Bytes(Members(p)[1]) + Bytes(Members(p)[2]) == 8 + Bytes(Quote(p.purpose)) + Bytes(Quote(p.digest))
    ensures Bytes(Members(p)[3]) == 30 + Bytes(Quote(p.micros)) + Bytes(Quote(p.id))
  {
    MemberBytes("p", Quote(p.purpose));
    MemberBytes("c", Quote(p.digest));
    MemberBytes("t", TupleText(p.micros, p.id));
    TupleBytes(p.micros, p.id);
  }

  lemma IntegerMembersBytes(p: Payload)
    ensures Bytes(Members(p)[4]) + Bytes(Members(p)[5]) == 12 + Bytes(Integer(p.iat)) + Bytes(Integer(p.exp))
  {
    MemberBytes("iat", Integer(p.iat));
    MemberBytes("exp", Integer(p.exp));
  }

  lemma MembersBytes(m: seq<string>)
    requires |m| == 6
    ensures Bytes(Object(m)) == 7 + Bytes(m[0]) + Bytes(m[1]) + Bytes(m[2]) + Bytes(m[3]) + Bytes(m[4]) + Bytes(m[5])
  {
    SixMembersBytes(m[0], m[1], m[2], m[3], m[4], m[5]);
    assert m == [m[0], m[1], m[2], m[3], m[4], m[5]];
  }

  /** The payload's size, exactly, from the sizes of the texts in it. */
  lemma PayloadBytes(p: Payload)
    ensures Bytes(PayloadText(p)) == 62 + Bytes(Quote(p.purpose)) + Bytes(Quote(p.digest))
      + Bytes(Quote(p.micros)) + Bytes(Quote(p.id)) + Bytes(Integer(p.iat)) + Bytes(Integer(p.exp))
  {
    VersionBytes();
    StringMembersBytes(p);
    IntegerMembersBytes(p);
    MembersBytes(Members(p));
  }

  // ---------------------------------------------------------------- numbers

  lemma NumeralIsPlain(n: nat)
    ensures Plain(Numeral(n, 10)) && Bytes(Numeral(n, 10)) == |Numeral(n, 10)|
  {
    ValueOfNumeral(n, 10);
    assert forall i :: 0 <= i < |Numeral(n, 10)| ==> LowerDigit(Numeral(n, 10)[i], 10);
    PlainEscaped(Numeral(n, 10));
  }

  /** The integers a Number holds exactly. */
  const SAFE := 9007199254740991

  predicate Safe(n: int) { -SAFE <= n <= SAFE }

  lemma IntegerBytes(n: int)
    requires Safe(n)
    ensures Bytes(Integer(n)) <= 17
  {
    var m := if n < 0 then -n else n;
    TenTo16();
    NumeralLength(m, 16);
    NumeralIsPlain(m);
    AsciiBytes("-");
    BytesConcat("-", Numeral(m, 10));
  }
}
