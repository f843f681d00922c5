/** Signed, expiring pagination cursors: encoding under the first key, decoding under any. */
module CursorCodec {
  import opened Text
  import opened Options
  import opened Base64Url
  import opened CursorJson
  import opened CursorText

  const MAX_CURSOR := 4096
  const MAX_PURPOSE := 80
  const MAX_CONTEXT := 512
  const MAX_ID := 160
  const MIN_SECRET := 32
  const DEFAULT_TTL := 30 * 24 * 60 * 60 * 1000
  const DIGEST := 43
  const LONGEST := 2187

  /** A JavaScript value, as the codec inspects one. */
  datatype Value =
    | Undefined
    | Null
    | Bool(b: bool)
    | Number(x: real)
    | BigInt(n: int)
    | Str(s: string)
    | List(items: seq<Value>)
    | Record(fields: map<string, Value>)

  /** Every refusal is a CursorCodecError; only its message varies in the source. */
  datatype Result<+T> = Ok(value: T) | InvalidCursor

  datatype Tuple = Tuple(createdAtMicros: string, id: string)

  datatype Codec = Codec(keys: seq<string>, ttl: int)

  /** What the codec takes from the platform: the digests and JSON.parse. */
  datatype Platform = Platform(sha: string -> string, hmac: (string, string) -> string, parse: string -> Option<Value>)

  function Trunc(x: real): int { if x >= 0.0 then x.Floor else -(-x).Floor }

  // ---------------------------------------------------------------- keys

  datatype RawKeys = Listed(list: seq<string>) | Joined(text: string)

  function TrimmedKeys(raw: seq<string>): seq<string> {
    if raw == [] then []
    else (if Trim(raw[0]) == "" then [] else [Trim(raw[0])]) + TrimmedKeys(raw[1..])
  }

  /** The codec's keys and lifetime; none when the source refuses the keys. */
  function CreateCodec(raw: RawKeys, ttl: Option<real>): Option<Codec> {
    var keys := TrimmedKeys(if raw.Listed? then raw.list else Split(raw.text, ','));
    if keys == [] || exists k :: k in keys && Bytes(k) < MIN_SECRET then None
    else Some(Codec(keys, if ttl.Some? && ttl.value > 0.0 then Trunc(ttl.value) else DEFAULT_TTL))
  }

  lemma {:induction false} TrimmedKeysAre(raw: seq<string>, key: string)
    ensures key in TrimmedKeys(raw) <==> key != "" && exists i :: 0 <= i < |raw| && Trim(raw[i]) == key
  {
    if raw != [] {
      TrimmedKeysAre(raw[1..], key);
      if i :| 0 <= i < |raw| - 1 && Trim(raw[1..][i]) == key { assert Trim(raw[i + 1]) == key; }
      if i :| 1 <= i < |raw| && Trim(raw[i]) == key { assert raw[1..][i - 1] == raw[i]; }
    }
  }

  /** A list that still has the signing secret anywhere in it, however padded, makes a codec that knows the key. */
  lemma RotationKeepsKey(a: Codec, rawA: seq<string>, b: Codec, rawB: seq<string>, ttlA: Option<real>, ttlB: Option<real>, i: nat)
    requires CreateCodec(Listed(rawA), ttlA) == Some(a) && CreateCodec(Listed(rawB), ttlB) == Some(b)
    requires i < |rawB| && Trim(rawB[i]) == a.keys[0]
    ensures a.keys[0] in b.keys
  {
    TrimmedKeysAre(rawA, a.keys[0]);
    TrimmedKeysAre(rawB, a.keys[0]);
  }

  /** What is listed that is more than blanks. */
  predicate Filled(raw: seq<string>, i: nat) { i < |raw| && Trim(raw[i]) != "" }

  lemma {:induction false} FirstKeyIs(raw: seq<string>, i: nat)
    requires Filled(raw, i) && forall j: nat :: j < i ==> !Filled(raw, j)
    ensures TrimmedKeys(raw) != [] && TrimmedKeys(raw)[0] == Trim(raw[i])
  {
    if i > 0 {
      assert !Filled(raw, 0);
      assert forall j :: 0 <= j < i - 1 ==> Filled(raw[1..], j) == Filled(raw, j + 1);
      FirstKeyIs(raw[1..], i - 1);
    }
  }

  /** A list makes a codec exactly when something in it is more than blanks and each such text is at least 32 bytes once trimmed. */
  lemma CodecExactly(raw: seq<string>, ttl: Option<real>)
    ensures CreateCodec(Listed(raw), ttl).Some?
       <==> (exists i: nat :: Filled(raw, i)) && forall i: nat :: Filled(raw, i) ==> |Utf8(Trim(raw[i]))| >= 32
  {
    var keys := TrimmedKeys(raw);
    forall i: nat | Filled(raw, i) ensures Trim(raw[i]) in keys { TrimmedKeysAre(raw, Trim(raw[i])); }
    forall k | k in keys ensures exists i: nat :: Filled(raw, i) && Trim(raw[i]) == k {
      TrimmedKeysAre(raw, k);
      var i: nat :| i < |raw| && Trim(raw[i]) == k;
      assert Filled(raw, i);
    }
    if keys != [] { assert keys[0] in keys; }
    assert forall k :: k in keys && Bytes(k) >= MIN_SECRET ==> |Utf8(k)| >= 32;
  }

  /** The key that signs is the first text listed that is more than blanks. */
  lemma FirstSigns(raw: seq<string>, ttl: Option<real>, i: nat)
    requires CreateCodec(Listed(raw), ttl).Some? && Filled(raw, i) && forall j: nat :: j < i ==> !Filled(raw, j)
    ensures CreateCodec(Listed(raw), ttl).value.keys[0] == Trim(raw[i])
  {
    FirstKeyIs(raw, i);
  }

  /** One comma-separated text and the list of its parts make the same codec. */
  lemma CommasListKeys(keys: seq<string>, ttl: Option<real>)
    requires forall k :: k in keys ==> ',' !in k
    ensures CreateCodec(Joined(Join(keys, ',')), ttl) == CreateCodec(Listed(keys), ttl)
  {
    if keys == [] {
      assert TrimmedKeys([""]) == [] + TrimmedKeys([""][1..]);
    } else {
      SplitJoin(keys, ',');
    }
  }

  // ---------------------------------------------------------------- normalising

  function Field(v: Value, name: string): Value {
    if v.Record? && name in v.fields then v.fields[name] else Undefined
  }

  /** The `??` operator. */
  function Coalesce(a: Value, b: Value): Value { if a.Undefined? || a.Null? then b else a }

  function NormalString(v: Value, maxBytes: nat): Result<string> {
    if !v.Str? then InvalidCursor
    else
      var text := Trim(v.s);
      if text == "" || Bytes(text) > maxBytes then InvalidCursor else Ok(text)
  }

  predicate IsMicros(s: string) { 1 <= |s| <= 20 && forall i :: 0 <= i < |s| ==> '0' <= s[i] <= '9' }

  function NormalMicros(v: Value): Result<string> {
    match v
    case BigInt(n) => Ok(Integer(n))
    case Number(x) => if x == x.Floor as real && 0 <= x.Floor <= SAFE then Ok(Numeral(x.Floor, 10)) else InvalidCursor
    case Str(s) => if IsMicros(s) then Ok(s) else InvalidCursor
    case _ => InvalidCursor
  }

  function MicrosField(v: Value): Value {
    Coalesce(Coalesce(Field(v, "createdAtMicros"), Field(v, "micros")), Field(v, "ts"))
  }

  function NormalTuple(v: Value): Result<Tuple> {
    if !v.Record? then InvalidCursor
    else
      var micros := NormalMicros(MicrosField(v));
      var id := NormalString(Coalesce(Field(v, "id"), Field(v, "messageId")), MAX_ID);
      if micros.Ok? && id.Ok? then Ok(Tuple(micros.value, id.value)) else InvalidCursor
  }

  /** The question a cursor belongs to: its purpose and context, normalised. */
  datatype Question = Question(purpose: string, context: string)

  function NormalQuestion(v: Value): Result<Question> {
    var purpose := NormalString(Field(v, "purpose"), MAX_PURPOSE);
    var context := NormalString(Field(v, "context"), MAX_CONTEXT);
    if purpose.Ok? && context.Ok? then Ok(Question(purpose.value, context.value)) else InvalidCursor
  }

  function InputTuple(input: Value): Result<Tuple> { NormalTuple(Coalesce(Field(input, "tuple"), input)) }

  // ---------------------------------------------------------------- encode and decode

  function Expiry(c: Codec, now: real): int { Trunc(now) + c.ttl }

  function PayloadFor(w: Platform, c: Codec, now: real, q: Question, t: Tuple): Payload {
    Payload(q.purpose, w.sha(q.context), t.createdAtMicros, t.id, Trunc(now), Expiry(c, now))
  }

  function Signed(w: Platform, secret: string, p: Payload): string {
    var body := BodyOf(PayloadText(p));
    body + "." + w.hmac(secret, body)
  }

  function Encode(w: Platform, c: Codec, now: real, input: Value): Result<string>
    requires c.keys != []
  {
    var question, tuple := NormalQuestion(input), InputTuple(input);
    if question.InvalidCursor? || tuple.InvalidCursor? then InvalidCursor
    else Ok(Signed(w, c.keys[0], PayloadFor(w, c, now, question.value, tuple.value)))
  }

  /** A string's length in JavaScript: its UTF-16 units. */
  function Units(s: string): nat { if s == "" then 0 else (if s[0] < '\U{10000}' then 1 else 2) + Units(s[1..]) }

  /** One unit for a character below U+10000 and two for any other. */
  lemma {:induction false} UnitsCount(s: string)
    ensures |s| <= Units(s) <= 2 * |s|
    ensures Units(s) == |s| <==> forall i :: 0 <= i < |s| ==> s[i] as int < 0x10000
    ensures Units(s) == 2 * |s| <==> forall i :: 0 <= i < |s| ==> s[i] as int >= 0x10000
  {
    if s != "" {
      UnitsCount(s[1..]);
      assert forall i :: 1 <= i < |s| ==> s[i] == s[1..][i - 1];
    }
  }

  predicate Verifies(w: Platform, keys: seq<string>, body: string, signature: string) {
    exists i :: 0 <= i < |keys| && w.hmac(keys[i], body) == signature
  }

  /** Whether a payload answers this question and has not expired. */
  predicate Answers(w: Platform, payload: Value, q: Question, now: real) {
    && payload.Record?
    && Field(payload, "v") == Number(1.0)
    && Field(payload, "p") == Str(q.purpose) && Field(payload, "c") == Str(w.sha(q.context))
    && Field(payload, "exp").Number? && Trunc(now) as real <= Field(payload, "exp").x
  }

  function Decode(w: Platform, c: Codec, now: real, cursor: Value, expected: Value): Result<Tuple> {
    var question := NormalQuestion(expected);
    if question.InvalidCursor? || !cursor.Str? || Units(cursor.s) > MAX_CURSOR then InvalidCursor
    else
      var parts := Split(cursor.s, '.');
      if |parts| != 2 || parts[0] == "" || parts[1] == "" then InvalidCursor
      else if !Verifies(w, c.keys, parts[0], parts[1]) then InvalidCursor
      else DecodeBody(w, now, parts[0], question.value)
  }

  /** The rest of decoding, for a body whose signature was verified. */
  function DecodeBody(w: Platform, now: real, body: string, q: Question): Result<Tuple> {
    var text := TextOf(body);
    var payload := if text.None? then None else w.parse(text.value);
    if payload.None? || !Answers(w, payload.value, q, now) then InvalidCursor
    else NormalTuple(Field(payload.value, "t"))
  }

  // ---------------------------------------------------------------- the platform's laws

  function PayloadValue(p: Payload): Value {
    Record(map["v" := Number(1.0), "p" := Str(p.purpose), "c" := Str(p.digest), "t" := TupleValue(p.micros, p.id),
               "iat" := Number(p.iat as real), "exp" := Number(p.exp as real)])
  }

  function TupleValue(micros: string, id: string): Value {
    Record(map["createdAtMicros" := Str(micros), "id" := Str(id)])
  }

  predicate IsDigest(s: string) { Letters(s) && |s| == DIGEST }

  /** SHA-256 digests in base64url, and JSON.parse reading back what JSON.stringify wrote of exact numbers. */
  ghost predicate Lawful(w: Platform) {
    && (forall s :: IsDigest(w.sha(s)))
    && (forall secret, s :: IsDigest(w.hmac(secret, s)))
    && (forall p: Payload :: Safe(p.iat) && Safe(p.exp) ==> w.parse(PayloadText(p)) == Some(PayloadValue(p)))
  }

  // ---------------------------------------------------------------- size and shape

  lemma LettersArePlain(s: string)
    requires Letters(s)
    ensures Plain(s) && Ascii(s) && '.' !in s
  {
    assert Sextet('.') == 64;
  }

  lemma MicrosArePlain(s: string)
    requires IsMicros(s)
    ensures Plain(s)
  {
  }

  lemma {:induction false} AsciiUnits(s: string)
    requires Ascii(s)
    ensures Units(s) == |s|
  {
    if s != "" { AsciiUnits(s[1..]); }
  }

  lemma PayloadIsShort(p: Payload)
    requires Bytes(p.purpose) <= MAX_PURPOSE && Bytes(p.id) <= MAX_ID && IsDigest(p.digest) && IsMicros(p.micros)
    requires Safe(p.iat) && Safe(p.exp)
    ensures Bytes(PayloadText(p)) <= 1607
  {
    PayloadBytes(p);
    QuoteBytes(p.purpose);
    QuoteBytes(p.id);
    LettersArePlain(p.digest);
    PlainQuoteBytes(p.digest);
    MicrosArePlain(p.micros);
    PlainQuoteBytes(p.micros);
    IntegerBytes(p.iat);
    IntegerBytes(p.exp);
  }

  /** A cursor is two non-empty words of the base64url alphabet with one dot between them. */
  lemma CursorShape(body: string, signature: string)
    requires Letters(body) && Letters(signature)
    ensures Split(body + "." + signature, '.') == [body, signature]
    ensures Units(body + "." + signature) == |body| + 1 + |signature|
  {
    LettersArePlain(body);
    LettersArePlain(signature);
    var parts := [body, signature];
    SplitJoin(parts, '.');
    assert parts[1..] == [signature] && Join(parts, '.') == body + "." + signature;
    AsciiUnits(body + "." + signature);
  }

  lemma BodyLength(text: string)
    ensures Letters(BodyOf(text)) && |BodyOf(text)| == (4 * Bytes(text) + 2) / 3
  {
    EncodedIsLetters(Utf8(text));
  }

  /** The pattern and length that isOpaqueCursor asks for. */
  predicate IsOpaqueCursor(s: string) {
    var parts := Split(s, '.');
    1 <= Units(s) <= 4096 && |parts| <= 2 && forall i :: 0 <= i < |parts| ==> parts[i] != "" && Letters(parts[i])
  }

  lemma NormalStringIs(v: Value, maxBytes: nat)
    requires NormalString(v, maxBytes).Ok?
    ensures Bytes(NormalString(v, maxBytes).value) <= maxBytes
    ensures NormalString(Str(NormalString(v, maxBytes).value), maxBytes) == NormalString(v, maxBytes)
  {
    TrimIsIdempotent(v.s);
  }

  predicate SafeTimes(c: Codec, now: real) { Safe(Trunc(now)) && Safe(Expiry(c, now)) }

  lemma TextHasBytes(s: string)
    requires s != ""
    ensures Bytes(s) >= 1
  {
  }

  /**
   * Every cursor whose timestamp has 1 to 20 digits is at most 2187 characters long, whatever escaping and
   * encoding cost, and is an opaque cursor to the client.
   */
  lemma EncodedFits(w: Platform, c: Codec, now: real, input: Value)
    requires Lawful(w) && c.keys != [] && SafeTimes(c, now) && Encode(w, c, now, input).Ok?
    requires IsMicros(InputTuple(input).value.createdAtMicros)
    ensures Units(Encode(w, c, now, input).value) <= LONGEST && IsOpaqueCursor(Encode(w, c, now, input).value)
  {
    var q, t := NormalQuestion(input).value, InputTuple(input).value;
    var p := PayloadFor(w, c, now, q, t);
    NormalStringIs(Field(input, "purpose"), MAX_PURPOSE);
    TupleIsNormal(Coalesce(Field(input, "tuple"), input));
    PayloadIsShort(p);
    SignedFits(w, c.keys[0], p);
  }

  lemma SignedFits(w: Platform, secret: string, p: Payload)
    requires Lawful(w) && Bytes(PayloadText(p)) <= 1607
    ensures Units(Signed(w, secret, p)) <= LONGEST && IsOpaqueCursor(Signed(w, secret, p))
  {
    var body := BodyOf(PayloadText(p));
    assert IsDigest(w.hmac(secret, body));
    BodyLength(PayloadText(p));
    TextHasBytes(PayloadText(p));
    CursorShape(body, w.hmac(secret, body));
  }

  // ---------------------------------------------------------------- round trip

  lemma TupleIsNormal(v: Value)
    requires NormalTuple(v).Ok?
    ensures Bytes(NormalTuple(v).value.id) <= MAX_ID
    ensures NormalString(Str(NormalTuple(v).value.id), MAX_ID) == Ok(NormalTuple(v).value.id)
  {
    NormalStringIs(Coalesce(Field(v, "id"), Field(v, "messageId")), MAX_ID);
  }

  lemma TupleReadBack(micros: string, id: string)
    requires NormalString(Str(id), MAX_ID) == Ok(id)
    ensures NormalTuple(TupleValue(micros, id)) == if IsMicros(micros) then Ok(Tuple(micros, id)) else InvalidCursor
  {
  }

  lemma BodyReads(w: Platform, now: real, p: Payload, q: Question)
    requires Lawful(w) && Safe(p.iat) && Safe(p.exp)
    ensures DecodeBody(w, now, BodyOf(PayloadText(p)), q)
         == if p.purpose == q.purpose && p.digest == w.sha(q.context) && Trunc(now) <= p.exp
            then NormalTuple(TupleValue(p.micros, p.id)) else InvalidCursor
  {
    TextOfBody(PayloadText(p));
    assert w.parse(PayloadText(p)) == Some(PayloadValue(p));
    AnswersExactly(w, p, q, now);
    assert Field(PayloadValue(p), "t") == TupleValue(p.micros, p.id);
  }

  lemma DecodeSplits(w: Platform, c: Codec, now: real, body: string, signature: string, expected: Value)
    requires Letters(body) && Letters(signature) && body != "" && signature != ""
    requires NormalQuestion(expected).Ok? && Units(body + "." + signature) <= MAX_CURSOR
    ensures Decode(w, c, now, Str(body + "." + signature), expected)
         == if Verifies(w, c.keys, body, signature) then DecodeBody(w, now, body, NormalQuestion(expected).value)
            else InvalidCursor
  {
    CursorShape(body, signature);
  }

  /** What decoding makes of any signed payload that is short enough. */
  lemma DecodeSigned(w: Platform, c: Codec, now: real, secret: string, p: Payload, expected: Value)
    requires Lawful(w) && Safe(p.iat) && Safe(p.exp)
    requires NormalQuestion(expected).Ok? && Units(Signed(w, secret, p)) <= MAX_CURSOR
    ensures var q := NormalQuestion(expected).value;
      var body := BodyOf(PayloadText(p));
      Decode(w, c, now, Str(Signed(w, secret, p)), expected)
      == if && Verifies(w, c.keys, body, w.hmac(secret, body))
            && p.purpose == q.purpose && p.digest == w.sha(q.context) && Trunc(now) <= p.exp
         then NormalTuple(TupleValue(p.micros, p.id))
         else InvalidCursor
  {
    var body := BodyOf(PayloadText(p));
    assert IsDigest(w.hmac(secret, body));
    BodyLength(PayloadText(p));
    TextHasBytes(PayloadText(p));
    DecodeSplits(w, c, now, body, w.hmac(secret, body), expected);
    BodyReads(w, now, p, NormalQuestion(expected).value);
  }

  lemma AnswersExactly(w: Platform, p: Payload, q: Question, now: real)
    ensures Answers(w, PayloadValue(p), q, now)
       <==> p.purpose == q.purpose && p.digest == w.sha(q.context) && Trunc(now) <= p.exp
  {
  }

  /** Whether some key of the reader signs this body as the writer's key did. */
  predicate KnowsSigner(w: Platform, reader: Codec, writer: Codec, body: string)
    requires writer.keys != []
  {
    Verifies(w, reader.keys, body, w.hmac(writer.keys[0], body))
  }

  /**
   * Decoding an encoded cursor succeeds exactly when the question is the same, a key of the reader is the
   * signer's, the cursor has not expired, and the timestamp has 1 to 20 digits; it then gives back the
   * normalised tuple and nothing else.
   */
  lemma DecodesExactly(w: Platform, a: Codec, b: Codec, issued: real, now: real, input: Value, expected: Value)
    requires Lawful(w) && a.keys != [] && SafeTimes(a, issued)
    requires NormalQuestion(input).Ok? && InputTuple(input).Ok? && NormalQuestion(expected).Ok?
    ensures var asked, expects, tuple := NormalQuestion(input).value, NormalQuestion(expected).value, InputTuple(input).value;
      var body := BodyOf(PayloadText(PayloadFor(w, a, issued, asked, tuple)));
      Decode(w, b, now, Str(Encode(w, a, issued, input).value), expected)
      == if && KnowsSigner(w, b, a, body)
            && asked.purpose == expects.purpose && w.sha(asked.context) == w.sha(expects.context)
            && Trunc(now) <= Expiry(a, issued) && IsMicros(tuple.createdAtMicros)
         then Ok(tuple) else InvalidCursor
  {
    var t := InputTuple(input).value;
    var p := PayloadFor(w, a, issued, NormalQuestion(input).value, t);
    TupleIsNormal(Coalesce(Field(input, "tuple"), input));
    TupleReadBack(t.createdAtMicros, t.id);
    if Units(Signed(w, a.keys[0], p)) <= MAX_CURSOR {
      DecodeSigned(w, b, now, a.keys[0], p, expected);
    } else if IsMicros(t.createdAtMicros) {
      EncodedFits(w, a, issued, input);
    }
  }

  /** For the same question, under any keys that still hold the signing key, a cursor reads back until it expires. */
  lemma RoundTrip(w: Platform, a: Codec, b: Codec, issued: real, now: real, input: Value, expected: Value)
    requires Lawful(w) && a.keys != [] && a.keys[0] in b.keys && SafeTimes(a, issued)
    requires NormalQuestion(input).Ok? && InputTuple(input).Ok? && NormalQuestion(expected) == NormalQuestion(input)
    requires IsMicros(InputTuple(input).value.createdAtMicros)
    ensures Decode(w, b, now, Str(Encode(w, a, issued, input).value), expected)
         == if Trunc(now) <= Expiry(a, issued) then InputTuple(input) else InvalidCursor
  {
    DecodesExactly(w, a, b, issued, now, input, expected);
    var i :| 0 <= i < |b.keys| && b.keys[i] == a.keys[0];
    var body := BodyOf(PayloadText(PayloadFor(w, a, issued, NormalQuestion(input).value, InputTuple(input).value)));
    assert w.hmac(b.keys[i], body) == w.hmac(a.keys[0], body);
  }

  /** A timestamp that encodes also decodes, except a bigint outside the numbers of at most 20 digits. */
  lemma MicrosDecodeExactly(v: Value)
    requires NormalMicros(v).Ok?
    ensures IsMicros(NormalMicros(v).value) <==> !v.BigInt? || 0 <= v.n < Pow10(20)
  {
    match v
    case BigInt(n) =>
      if n >= 0 {
        NumeralIsMicros(n);
      } else {
        assert Integer(n)[0] == '-';
      }
    case Number(x) =>
      NumeralIsMicros(x.Floor);
      TenTo16();
      assert Pow10(20) == 10000 * Pow10(16);
    case Str(s) =>
    case _ =>
  }

  lemma NumeralIsMicros(n: nat)
    ensures IsMicros(Numeral(n, 10)) <==> n < Pow10(20)
  {
    NumeralLength(n, 20);
    ValueOfNumeral(n, 10);
    assert forall i :: 0 <= i < |Numeral(n, 10)| ==> LowerDigit(Numeral(n, 10)[i], 10);
  }

  /** A bigint timestamp encodes whatever it is, but reads back only between 0 and 10^20 - 1. */
  lemma BigintReadsBackExactly(w: Platform, a: Codec, b: Codec, issued: real, now: real, input: Value, n: int)
    requires Lawful(w) && a.keys != [] && a.keys[0] in b.keys && SafeTimes(a, issued) && Trunc(now) <= Expiry(a, issued)
    requires NormalQuestion(input).Ok? && InputTuple(input).Ok?
    requires MicrosField(Coalesce(Field(input, "tuple"), input)) == BigInt(n)
    ensures Encode(w, a, issued, input).Ok?
    ensures Decode(w, b, now, Str(Encode(w, a, issued, input).value), input).Ok? <==> 0 <= n < Pow10(20)
  {
    MicrosDecodeExactly(BigInt(n));
    DecodesExactly(w, a, b, issued, now, input, input);
    if 0 <= n < Pow10(20) { RoundTrip(w, a, b, issued, now, input, input); }
  }

  /** A message from before 1970, its time given as a bigint. */
  function EarlyInput(purpose: string, context: string, id: string): Value {
    Record(map["purpose" := Str(purpose), "context" := Str(context), "createdAtMicros" := BigInt(-1), "id" := Str(id)])
  }

  lemma EarlyInputEncodes(purpose: string, context: string, id: string)
    requires NormalString(Str(purpose), MAX_PURPOSE).Ok? && NormalString(Str(context), MAX_CONTEXT).Ok?
    requires NormalString(Str(id), MAX_ID).Ok?
    ensures var input := EarlyInput(purpose, context, id);
      && NormalQuestion(input).Ok? && InputTuple(input).Ok?
      && MicrosField(Coalesce(Field(input, "tuple"), input)) == BigInt(-1)
  {
    var input := EarlyInput(purpose, context, id);
    assert Field(input, "purpose") == Str(purpose) && Field(input, "context") == Str(context);
    assert Field(input, "tuple") == Undefined && Field(input, "createdAtMicros") == BigInt(-1);
    assert Field(input, "id") == Str(id);
    assert NormalMicros(BigInt(-1)).Ok?;
  }

  /** An input that encodes and whose cursor is never read back, even at once and by the codec that made it. */
  lemma NegativeBigintIsLost(w: Platform, a: Codec, issued: real, purpose: string, context: string, id: string)
    requires Lawful(w) && a.keys != [] && SafeTimes(a, issued) && a.ttl >= 0
    requires NormalString(Str(purpose), MAX_PURPOSE).Ok? && NormalString(Str(context), MAX_CONTEXT).Ok?
    requires NormalString(Str(id), MAX_ID).Ok?
    ensures Encode(w, a, issued, EarlyInput(purpose, context, id)).Ok?
    ensures var input := EarlyInput(purpose, context, id);
      Decode(w, a, issued, Str(Encode(w, a, issued, input).value), input) == InvalidCursor
  {
    var input := EarlyInput(purpose, context, id);
    EarlyInputEncodes(purpose, context, id);
    BigintReadsBackExactly(w, a, a, issued, issued, input, -1);
  }

  /** A cursor asked for another purpose or context is refused, whatever keys and time. */
  lemma OtherQuestionRefused(w: Platform, a: Codec, b: Codec, issued: real, now: real, input: Value, expected: Value)
    requires Lawful(w) && a.keys != [] && SafeTimes(a, issued)
    requires NormalQuestion(input).Ok? && InputTuple(input).Ok? && NormalQuestion(expected).Ok?
    requires NormalQuestion(expected) != NormalQuestion(input)
    requires NoCollision(w, NormalQuestion(input).value.context, NormalQuestion(expected).value.context)
    ensures Decode(w, b, now, Str(Encode(w, a, issued, input).value), expected) == InvalidCursor
  {
    DecodesExactly(w, a, b, issued, now, input, expected);
  }

  predicate NoCollision(w: Platform, s: string, t: string) { w.sha(s) == w.sha(t) ==> s == t }

  /** Once the signing key is gone from the reader's list, and no other key happens to agree with it, nothing is read. */
  lemma RetiredKeyRefused(w: Platform, a: Codec, b: Codec, issued: real, now: real, input: Value, expected: Value)
    requires Lawful(w) && a.keys != [] && a.keys[0] !in b.keys && SafeTimes(a, issued)
    requires NormalQuestion(input).Ok? && InputTuple(input).Ok? && NormalQuestion(expected).Ok?
    requires forall k, s :: k in b.keys && w.hmac(k, s) == w.hmac(a.keys[0], s) ==> k == a.keys[0]
    ensures Decode(w, b, now, Str(Encode(w, a, issued, input).value), expected) == InvalidCursor
  {
    DecodesExactly(w, a, b, issued, now, input, expected);
    var body := BodyOf(PayloadText(PayloadFor(w, a, issued, NormalQuestion(input).value, InputTuple(input).value)));
    assert forall i :: 0 <= i < |b.keys| ==> b.keys[i] in b.keys;
    assert !KnowsSigner(w, b, a, body);
  }

  // ---------------------------------------------------------------- on the fields themselves

  /** Truncation toward zero: the whole number nearest to zero with less than one left over. */
  lemma TruncIs(x: real)
    ensures x >= 0.0 ==> 0.0 <= x - Trunc(x) as real < 1.0
    ensures x < 0.0 ==> -1.0 < x - Trunc(x) as real <= 0.0
  {
  }

  /** The lifetime a codec is made with: a positive one truncated, else thirty days. */
  lemma LifetimeIs(raw: RawKeys, ttl: Option<real>, c: Codec)
    requires CreateCodec(raw, ttl) == Some(c)
    ensures ttl.Some? && ttl.value > 0.0 ==> c.ttl == Trunc(ttl.value) && 0 <= c.ttl
    ensures ttl.None? || ttl.value <= 0.0 ==> c.ttl == 2_592_000_000
    ensures forall k :: k in c.keys ==> |Utf8(k)| >= 32
  {
    assert forall k :: k in c.keys ==> Bytes(k) >= MIN_SECRET;
  }

  /** A text that is one to so many bytes once trimmed. */
  predicate Sized(s: string, maxBytes: nat) { 1 <= |Trim(s)| && |Utf8(Trim(s))| <= maxBytes }

  /** The two fields that say what a cursor is for. */
  predicate AsksFor(v: Value, purpose: string, context: string) {
    && v.Record? && Field(v, "purpose") == Str(purpose) && Field(v, "context") == Str(context)
    && Sized(purpose, 80) && Sized(context, 512)
  }

  /** The value under the first of the names that has one. */
  function FirstGiven(v: Value, names: seq<string>): Value
    requires v.Record?
  {
    if names == [] then Undefined
    else if names[0] in v.fields && v.fields[names[0]] != Undefined && v.fields[names[0]] != Null then v.fields[names[0]]
    else FirstGiven(v, names[1..])
  }

  /** The fields of a message: its time in one to twenty digits, and an identifier. */
  predicate Tells(v: Value, micros: string, id: string) {
    && v.Record?
    && FirstGiven(v, ["createdAtMicros", "micros", "ts"]) == Str(micros) && FirstGiven(v, ["id", "messageId"]) == Str(id)
    && 1 <= |micros| <= 20 && (forall i :: 0 <= i < |micros| ==> '0' <= micros[i] <= '9') && Sized(id, 160)
  }

  lemma AskedIs(v: Value, purpose: string, context: string)
    requires AsksFor(v, purpose, context)
    ensures NormalQuestion(v) == Ok(Question(Trim(purpose), Trim(context)))
  {
  }

  lemma ToldIs(v: Value, micros: string, id: string)
    requires Tells(v, micros, id)
    ensures NormalTuple(v) == Ok(Tuple(micros, Trim(id)))
  {
    FirstOfThree(v, "createdAtMicros", "micros", "ts");
    FirstOfTwo(v, "id", "messageId");
    assert MicrosField(v) == Str(micros);
  }

  lemma FirstStep(v: Value, name: string, rest: seq<string>)
    requires v.Record?
    ensures FirstGiven(v, [name] + rest)
         == if Field(v, name).Undefined? || Field(v, name).Null? then FirstGiven(v, rest) else Field(v, name)
  {
    assert ([name] + rest)[1..] == rest;
  }

  lemma FirstOfTwo(v: Value, a: string, b: string)
    requires v.Record? && FirstGiven(v, [a, b]).Str?
    ensures FirstGiven(v, [a, b]) == Coalesce(Field(v, a), Field(v, b))
  {
    FirstStep(v, b, []);
    FirstStep(v, a, [b]);
    assert [b] + [] == [b] && [a] + [b] == [a, b];
  }

  lemma FirstOfThree(v: Value, a: string, b: string, c: string)
    requires v.Record? && FirstGiven(v, [a, b, c]).Str?
    ensures FirstGiven(v, [a, b, c]) == Coalesce(Coalesce(Field(v, a), Field(v, b)), Field(v, c))
  {
    FirstStep(v, a, [b, c]);
    assert [a] + [b, c] == [a, b, c];
    FirstStep(v, b, [c]);
    assert [b] + [c] == [b, c];
    FirstStep(v, c, []);
    assert [c] + [] == [c];
  }

  /** The message an input carries, in its tuple field or beside its question. */
  predicate Carries(input: Value, micros: string, id: string) {
    if Field(input, "tuple").Undefined? || Field(input, "tuple").Null? then Tells(input, micros, id)
    else Tells(Field(input, "tuple"), micros, id)
  }

  lemma CarriedIs(input: Value, micros: string, id: string)
    requires Carries(input, micros, id)
    ensures InputTuple(input) == Ok(Tuple(micros, Trim(id)))
  {
    if Field(input, "tuple").Undefined? || Field(input, "tuple").Null? { ToldIs(input, micros, id); }
    else { ToldIs(Field(input, "tuple"), micros, id); }
  }

  /** Asked again for the same purpose and context, up to blanks around them, a cursor gives back its message until it expires. */
  lemma SameFieldsReadBack(w: Platform, a: Codec, b: Codec, issued: real, now: real, input: Value, expected: Value,
                           purpose: string, context: string, purpose': string, context': string, micros: string, id: string)
    requires Lawful(w) && a.keys != [] && a.keys[0] in b.keys && SafeTimes(a, issued)
    requires AsksFor(input, purpose, context) && Carries(input, micros, id)
    requires AsksFor(expected, purpose', context') && Trim(purpose) == Trim(purpose') && Trim(context) == Trim(context')
    ensures Encode(w, a, issued, input).Ok?
    ensures Decode(w, b, now, Str(Encode(w, a, issued, input).value), expected)
         == if Trunc(now) <= Trunc(issued) + a.ttl then Ok(Tuple(micros, Trim(id))) else InvalidCursor
  {
    AskedIs(input, purpose, context);
    AskedIs(expected, purpose', context');
    CarriedIs(input, micros, id);
    RoundTrip(w, a, b, issued, now, input, expected);
  }

  /** Asked for another purpose, or another context of another digest, a cursor is refused whatever keys and time. */
  lemma OtherFieldsRefused(w: Platform, a: Codec, b: Codec, issued: real, now: real, input: Value, expected: Value,
                           purpose: string, context: string, purpose': string, context': string, micros: string, id: string)
    requires Lawful(w) && a.keys != [] && SafeTimes(a, issued)
    requires AsksFor(input, purpose, context) && Carries(input, micros, id) && AsksFor(expected, purpose', context')
    requires Trim(purpose) != Trim(purpose') || w.sha(Trim(context)) != w.sha(Trim(context'))
    ensures Encode(w, a, issued, input).Ok?
    ensures Decode(w, b, now, Str(Encode(w, a, issued, input).value), expected) == InvalidCursor
  {
    AskedIs(input, purpose, context);
    AskedIs(expected, purpose', context');
    CarriedIs(input, micros, id);
    DecodesExactly(w, a, b, issued, now, input, expected);
  }

  /** A question whose purpose or context is no text, blank or too long neither encodes nor decodes anything. */
  lemma NoQuestionNoCursor(w: Platform, c: Codec, now: real, v: Value, cursor: Value, name: string, maxBytes: nat)
    requires c.keys != [] && ((name == "purpose" && maxBytes == 80) || (name == "context" && maxBytes == 512))
    requires !Field(v, name).Str? || Trim(Field(v, name).s) == "" || |Utf8(Trim(Field(v, name).s))| > maxBytes
    ensures Encode(w, c, now, v) == InvalidCursor && Decode(w, c, now, cursor, v) == InvalidCursor
  {
    assert NormalString(Field(v, name), maxBytes) == InvalidCursor;
  }

  /** A whole number that a Number holds exactly. */
  predicate IsCount(x: real, n: nat) { n <= 9_007_199_254_740_991 && x == n as real }

  /**
   * What is taken as a time: any bigint, a whole number a Number holds exactly from zero up, and one to twenty digits;
   * each as the digits it is written with.
   */
  lemma TakenAsTime(v: Value)
    ensures NormalMicros(v).Ok? <==>
              match v
              case BigInt(_) => true
              case Number(x) => exists n :: IsCount(x, n)
              case Str(s) => 1 <= |s| <= 20 && forall i :: 0 <= i < |s| ==> '0' <= s[i] <= '9'
              case _ => false
    ensures forall n: nat :: v == BigInt(n) || (v == Number(n as real) && n <= 9_007_199_254_740_991) ==>
                               NormalMicros(v) == Ok(Numeral(n, 10))
    ensures v.Str? && NormalMicros(v).Ok? ==> NormalMicros(v) == Ok(v.s)
  {
    if v.Number? {
      if n :| IsCount(v.x, n) { assert v.x.Floor == n; }
      if v.x == v.x.Floor as real && 0 <= v.x.Floor <= SAFE {
        var n: nat := v.x.Floor;
        assert IsCount(v.x, n);
      }
    }
  }

  /** A message without an identifier of one to 160 bytes, or without a time, does not encode. */
  lemma NoMessageNoCursor(w: Platform, c: Codec, now: real, input: Value)
    requires c.keys != []
    requires var v := Coalesce(Field(input, "tuple"), input);
      var id := Coalesce(Field(v, "id"), Field(v, "messageId"));
      || !v.Record? || !id.Str? || Trim(id.s) == "" || |Utf8(Trim(id.s))| > 160
      || MicrosField(v) in {Undefined, Null}
    ensures Encode(w, c, now, input) == InvalidCursor
  {
  }

  /** A text of more than 4096 units, or without exactly two non-empty parts that verify, is refused. */
  lemma NotPresentedIsRefused(w: Platform, c: Codec, now: real, text: string, expected: Value)
    requires Units(text) > 4096 || !Presents(w, c.keys, text)
    ensures Decode(w, c, now, Str(text), expected) == InvalidCursor
  {
  }

  // ---------------------------------------------------------------- forgery

  ghost predicate IsIssued(body: string, issued: set<Payload>) { exists p :: p in issued && body == BodyOf(PayloadText(p)) }

  /** A text of two parts whose second is the signature of the first under one of the keys. */
  predicate Presents(w: Platform, keys: seq<string>, text: string) {
    var parts := Split(text, '.');
    |parts| == 2 && Verifies(w, keys, parts[0], parts[1])
  }

  /** Nobody but the codec signs: of the texts the outside holds, those that verify carry the body of an issued payload. */
  ghost predicate Unforged(w: Platform, keys: seq<string>, held: set<string>, issued: set<Payload>) {
    && (forall p :: p in issued ==> Safe(p.iat) && Safe(p.exp))
    && (forall text :: text in held && Presents(w, keys, text) ==> IsIssued(Split(text, '.')[0], issued))
  }

  /** What the outside can hold without a forgery: texts that were issued, and any others that do not verify. */
  lemma HonestTextsAreUnforged(w: Platform, keys: seq<string>, secret: string, held: set<string>, issued: set<Payload>)
    requires Lawful(w) && forall p :: p in issued ==> Safe(p.iat) && Safe(p.exp)
    requires forall text :: text in held && Presents(w, keys, text) ==> exists p :: p in issued && text == Signed(w, secret, p)
    ensures Unforged(w, keys, held, issued)
  {
    forall text | text in held && Presents(w, keys, text) ensures IsIssued(Split(text, '.')[0], issued) {
      var p :| p in issued && text == Signed(w, secret, p);
      var body := BodyOf(PayloadText(p));
      assert IsDigest(w.hmac(secret, body));
      BodyLength(PayloadText(p));
      CursorShape(body, w.hmac(secret, body));
    }
  }

  /** If no held signature is forged, every held text that decodes was issued for this very question and has not expired. */
  lemma AcceptedWasIssued(w: Platform, c: Codec, now: real, text: string, expected: Value, held: set<string>, issued: set<Payload>)
    returns (p: Payload)
    requires Lawful(w) && Unforged(w, c.keys, held, issued) && text in held
    requires Decode(w, c, now, Str(text), expected).Ok?
    ensures p in issued && Trunc(now) <= p.exp
    ensures p.purpose == NormalQuestion(expected).value.purpose && p.digest == w.sha(NormalQuestion(expected).value.context)
    ensures Decode(w, c, now, Str(text), expected) == NormalTuple(TupleValue(p.micros, p.id))
  {
    var body := Split(text, '.')[0];
    assert Presents(w, c.keys, text);
    p :| p in issued && body == BodyOf(PayloadText(p));
    BodyReads(w, now, p, NormalQuestion(expected).value);
  }

  /** The cursors a codec itself made, held by the outside, are unforged and do decode: the hypotheses are met together. */
  lemma OwnCursorIsAccepted(w: Platform, c: Codec, issued: real, now: real, input: Value)
    requires Lawful(w) && c.keys != [] && SafeTimes(c, issued) && Trunc(now) <= Expiry(c, issued)
    requires NormalQuestion(input).Ok? && InputTuple(input).Ok? && IsMicros(InputTuple(input).value.createdAtMicros)
    ensures var text := Encode(w, c, issued, input).value;
            var p := PayloadFor(w, c, issued, NormalQuestion(input).value, InputTuple(input).value);
            Unforged(w, c.keys, {text}, {p}) && Decode(w, c, now, Str(text), input) == InputTuple(input)
  {
    var p := PayloadFor(w, c, issued, NormalQuestion(input).value, InputTuple(input).value);
    HonestTextsAreUnforged(w, c.keys, c.keys[0], {Signed(w, c.keys[0], p)}, {p});
    RoundTrip(w, c, c, issued, now, input, input);
  }

  // ---------------------------------------------------------------- a lawful platform

  /** A parser that reads back every payload text, and nothing else. */
  ghost function ReadPayload(text: string): Option<Value> {
    if p: Payload :| PayloadText(p) == text then Some(PayloadValue(p)) else None
  }

  lemma ReadsBack(p: Payload)
    ensures ReadPayload(PayloadText(p)) == Some(PayloadValue(p))
  {
    forall q: Payload | PayloadText(q) == PayloadText(p) ensures q == p { PayloadTextsDiffer(q, p); }
  }

  function Repeated(c: char, n: nat): (s: string)
    ensures |s| == n && forall i :: 0 <= i < n ==> s[i] == c
  {
    if n == 0 then "" else [c] + Repeated(c, n - 1)
  }

  /** The platform's laws can be met: payload texts differ, so some parser reads them all back. */
  lemma LawfulPlatform() returns (w: Platform)
    ensures Lawful(w)
  {
    var digest := Repeated('A', DIGEST);
    w := Platform((s: string) => digest, (secret: string, s: string) => digest, (s: string) => ReadPayload(s));
    forall p: Payload ensures w.parse(PayloadText(p)) == Some(PayloadValue(p)) { ReadsBack(p); }
  }
}
