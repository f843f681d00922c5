/** A payload's JSON text says which payload it is, so a parser that reads payloads back can exist. */
module CursorText {
  import opened Options
  import opened Text
  import opened Base64Url
  import opened CursorJson

  // ---------------------------------------------------------------- strings

  /** No character's escape starts the escape of another, and none starts like the closing quote. */
  lemma EscapesDiffer(c: char, x: string, d: char, y: string)
    requires EscapeChar(c) + x == EscapeChar(d) + y
    ensures c == d && x == y
  {
    var s, t := EscapeChar(c) + x, EscapeChar(d) + y;
    EscapeStarts(c, x, s);
    EscapeStarts(d, y, t);
    EscapeTellsChar(c, d, s);
    assert s[|EscapeChar(c)|..] == x && t[|EscapeChar(d)|..] == y;
  }

  lemma EscapeStartsItself(c: char)
    ensures Starts(c, EscapeChar(c)) && EscapeChar(c) != ""
  {
  }

  lemma StartsLonger(c: char, s: string, x: string)
    requires Starts(c, s) && s != ""
    ensures Starts(c, s + x) && (s + x)[0] != '"'
  {
  }

  /** What the first characters of an escaped text say of its first character. */
  lemma EscapeStarts(c: char, x: string, s: string)
    requires s == EscapeChar(c) + x
    ensures s != "" && s[0] != '"' && Starts(c, s)
  {
    EscapeStartsItself(c);
    StartsLonger(c, EscapeChar(c), x);
  }

  predicate Starts(c: char, s: string) {
    if Short(c) != ' ' then |s| >= 2 && s[0] == '\\' && s[1] == Short(c)
    else if c < ' ' then
      |s| >= 6 && s[0] == '\\' && s[1] == 'u' && s[4] == DigitChar(c as nat / 16) && s[5] == DigitChar(c as nat % 16)
    else s != "" && s[0] == c && c != '\\'
  }

  /** The letter that stands for a character after a backslash; a space when there is none. */
  function Short(c: char): char {
    if c == '"' then '"'
    else if c == '\\' then '\\'
    else if c == '\U{8}' then 'b'
    else if c == '\U{c}' then 'f'
    else if c == '\n' then 'n'
    else if c == '\r' then 'r'
    else if c == '\t' then 't'
    else ' '
  }

  lemma EscapeTellsChar(c: char, d: char, s: string)
    requires Starts(c, s) && Starts(d, s)
    ensures c == d
  {
    if Short(c) == ' ' && c < ' ' && Short(d) == ' ' && d < ' ' {
      DigitRoundTrip(c as nat / 16);
      DigitRoundTrip(d as nat / 16);
      DigitRoundTrip(c as nat % 16);
      DigitRoundTrip(d as nat % 16);
      DivMod(c as nat, 16);
      DivMod(d as nat, 16);
    }
  }

  /** A quoted string ends at its closing quote, whatever it holds and whatever follows. */
  lemma {:induction false} EscapedEnds(a: string, x: string, b: string, y: string)
    requires Escaped(a) + ("\"" + x) == Escaped(b) + ("\"" + y)
    ensures a == b && x == y
    decreases |a|
  {
    var s := Escaped(a) + ("\"" + x);
    if a == "" {
      assert s[0] == '"' && s[1..] == x;
      if b != "" { FirstEscape(b, y); } else { assert s[1..] == y; }
    } else {
      FirstEscape(a, x);
      if b != "" {
        FirstEscape(b, y);
        EscapesDiffer(a[0], Escaped(a[1..]) + ("\"" + x), b[0], Escaped(b[1..]) + ("\"" + y));
        EscapedEnds(a[1..], x, b[1..], y);
        assert a == [a[0]] + a[1..] && b == [b[0]] + b[1..];
      }
    }
  }

  lemma FirstEscape(a: string, x: string)
    requires a != ""
    ensures Escaped(a) + ("\"" + x) == EscapeChar(a[0]) + (Escaped(a[1..]) + ("\"" + x))
    ensures (Escaped(a) + ("\"" + x))[0] != '"'
  {
    EscapeStarts(a[0], Escaped(a[1..]) + ("\"" + x), EscapeChar(a[0]) + (Escaped(a[1..]) + ("\"" + x)));
  }

  lemma CutPrefix(k: string, x: string, y: string)
    requires k + x == k + y
    ensures x == y
  {
    assert (k + x)[|k|..] == x && (k + y)[|k|..] == y;
  }

  lemma QuoteOpens(k: string, a: string, x: string)
    ensures k + Quote(a) + x == (k + "\"") + (Escaped(a) + ("\"" + x))
  {
  }

  lemma QuotesDiffer(k: string, a: string, x: string, b: string, y: string)
    requires k + Quote(a) + x == k + Quote(b) + y
    ensures a == b && x == y
  {
    QuoteOpens(k, a, x);
    QuoteOpens(k, b, y);
    CutPrefix(k + "\"", Escaped(a) + ("\"" + x), Escaped(b) + ("\"" + y));
    EscapedEnds(a, x, b, y);
  }

  // ---------------------------------------------------------------- numbers

  lemma IntegerDigits(n: int)
    ensures ',' !in Integer(n) && '}' !in Integer(n)
    ensures Integer(n) != "" && (Integer(n)[0] == '-' <==> n < 0)
  {
    var m: nat := if n < 0 then -n else n;
    ValueOfNumeral(m, 10);
    assert forall i :: 0 <= i < |Numeral(m, 10)| ==> LowerDigit(Numeral(m, 10)[i], 10);
  }

  lemma SameInteger(m: int, n: int)
    requires Integer(m) == Integer(n)
    ensures m == n
  {
    IntegerDigits(m);
    IntegerDigits(n);
    if m < 0 {
      CutPrefix("-", Numeral(-m, 10), Numeral(-n, 10));
      NumeralsDiffer(-m, -n, 10);
    } else {
      NumeralsDiffer(m, n, 10);
    }
  }

  lemma IntegersDiffer(k: string, m: int, x: string, n: int, y: string, sep: char)
    requires sep == ',' || sep == '}'
    requires k + Integer(m) + [sep] + x == k + Integer(n) + [sep] + y
    ensures m == n && x == y
  {
    SeparatedGroups(k, Integer(m), [sep], x);
    SeparatedGroups(k, Integer(n), [sep], y);
    CutPrefix(k, Integer(m) + [sep] + x, Integer(n) + [sep] + y);
    IntegerDigits(m);
    IntegerDigits(n);
    HeadOf(Integer(m), sep, x);
    HeadOf(Integer(n), sep, y);
    SameInteger(m, n);
    CutPrefix(Integer(m) + [sep], x, y);
  }

  lemma SeparatedGroups(k: string, v: string, sep: string, x: string)
    ensures k + v + sep + x == k + (v + sep + x)
  {
  }

  // ---------------------------------------------------------------- the payload

  lemma MemberOpens(name: string, value: string, x: string)
    ensures Member(name, value) + x == Member(name, "") + value + x
  {
  }

  lemma StringMembersDiffer(name: string, a: string, x: string, b: string, y: string)
    requires Member(name, Quote(a)) + x == Member(name, Quote(b)) + y
    ensures a == b && x == y
  {
    MemberOpens(name, Quote(a), x);
    MemberOpens(name, Quote(b), y);
    QuotesDiffer(Member(name, ""), a, x, b, y);
  }

  lemma SeparatedOpens(name: string, value: string, sep: char, x: string)
    ensures Member(name, value) + ([sep] + x) == Member(name, "") + value + [sep] + x
  {
    MemberOpens(name, value, [sep] + x);
    Grouped(Member(name, "") + value, [sep], x);
  }

  lemma IntegerMembersDiffer(name: string, m: int, x: string, n: int, y: string, sep: char)
    requires sep == ',' || sep == '}'
    requires Member(name, Integer(m)) + ([sep] + x) == Member(name, Integer(n)) + ([sep] + y)
    ensures m == n && x == y
  {
    SeparatedOpens(name, Integer(m), sep, x);
    SeparatedOpens(name, Integer(n), sep, y);
    IntegersDiffer(Member(name, ""), m, x, n, y, sep);
  }

  /** The members of an object and the brace that closes it. */
  function Closed(members: seq<string>): string { Join(members, ',') + "}" }

  lemma ClosedStep(m: string, rest: seq<string>, x: string)
    requires rest != []
    ensures Closed([m] + rest) + x == m + ("," + (Closed(rest) + x))
  {
    assert ([m] + rest)[1..] == rest;
  }

  lemma ClosedLast(m: string, x: string)
    ensures Closed([m]) + x == m + ("}" + x)
  {
  }

  function MicrosMember(p: Payload): string { Member("createdAtMicros", Quote(p.micros)) }
  function IdMember(p: Payload): string { Member("id", Quote(p.id)) }

  lemma TupleOpens(p: Payload, x: string)
    ensures Member("t", TupleText(p.micros, p.id)) + x
         == (Member("t", "") + "{") + (MicrosMember(p) + ("," + (IdMember(p) + ("}" + x))))
  {
    ClosedStep(MicrosMember(p), [IdMember(p)], x);
    ClosedLast(IdMember(p), x);
    assert [MicrosMember(p)] + [IdMember(p)] == [MicrosMember(p), IdMember(p)];
    ObjectOpens("t", [MicrosMember(p), IdMember(p)], x);
  }

  lemma ObjectOpens(name: string, members: seq<string>, x: string)
    ensures Member(name, Object(members)) + x == (Member(name, "") + "{") + (Closed(members) + x)
  {
  }

  lemma TuplesDiffer(p: Payload, x: string, q: Payload, y: string)
    requires Member("t", TupleText(p.micros, p.id)) + x == Member("t", TupleText(q.micros, q.id)) + y
    ensures p.micros == q.micros && p.id == q.id && x == y
  {
    var px, qy := "," + (IdMember(p) + ("}" + x)), "," + (IdMember(q) + ("}" + y));
    TupleOpens(p, x);
    TupleOpens(q, y);
    CutPrefix(Member("t", "") + "{", MicrosMember(p) + px, MicrosMember(q) + qy);
    StringMembersDiffer("createdAtMicros", p.micros, px, q.micros, qy);
    CutPrefix(",", IdMember(p) + ("}" + x), IdMember(q) + ("}" + y));
    StringMembersDiffer("id", p.id, "}" + x, q.id, "}" + y);
    CutPrefix("}", x, y);
  }

  /** A payload's members from the last backwards, closed. */
  function Closing(p: Payload, n: nat): string
    requires n < 6
  {
    Closed(Members(p)[5 - n..]) + ""
  }

  lemma ClosingStep(p: Payload, n: nat)
    requires 1 <= n < 6
    ensures Closing(p, n) == Members(p)[5 - n] + ("," + Closing(p, n - 1))
  {
    ClosedStep(Members(p)[5 - n], Members(p)[6 - n..], "");
    assert [Members(p)[5 - n]] + Members(p)[6 - n..] == Members(p)[5 - n..];
  }

  lemma ClosingEnd(p: Payload)
    ensures Closing(p, 0) == Members(p)[5] + ("}" + "")
  {
    assert Members(p)[5..] == [Members(p)[5]];
    ClosedLast(Members(p)[5], "");
  }

  lemma TimesDiffer(p: Payload, q: Payload)
    requires Closing(p, 1) == Closing(q, 1)
    ensures p.iat == q.iat && p.exp == q.exp
  {
    ClosingStep(p, 1);
    ClosingStep(q, 1);
    IntegerMembersDiffer("iat", p.iat, Closing(p, 0), q.iat, Closing(q, 0), ',');
    ClosingEnd(p);
    ClosingEnd(q);
    IntegerMembersDiffer("exp", p.exp, "", q.exp, "", '}');
  }

  lemma TextsDiffer(p: Payload, q: Payload)
    requires Closing(p, 4) == Closing(q, 4)
    ensures p.purpose == q.purpose && p.digest == q.digest && Closing(p, 2) == Closing(q, 2)
  {
    ClosingStep(p, 4);
    ClosingStep(q, 4);
    StringMembersDiffer("p", p.purpose, "," + Closing(p, 3), q.purpose, "," + Closing(q, 3));
    CutPrefix(",", Closing(p, 3), Closing(q, 3));
    ClosingStep(p, 3);
    ClosingStep(q, 3);
    StringMembersDiffer("c", p.digest, "," + Closing(p, 2), q.digest, "," + Closing(q, 2));
    CutPrefix(",", Closing(p, 2), Closing(q, 2));
  }

  lemma TextOpens(p: Payload)
    ensures PayloadText(p) == "{" + Closing(p, 5)
  {
    assert Members(p)[0..] == Members(p);
  }

  /** Two payloads with one text are one payload. */
  lemma PayloadTextsDiffer(p: Payload, q: Payload)
    requires PayloadText(p) == PayloadText(q)
    ensures p == q
  {
    TextOpens(p);
    TextOpens(q);
    CutPrefix("{", Closing(p, 5), Closing(q, 5));
    ClosingStep(p, 5);
    ClosingStep(q, 5);
    CutPrefix(Member("v", "1"), "," + Closing(p, 4), "," + Closing(q, 4));
    CutPrefix(",", Closing(p, 4), Closing(q, 4));
    TextsDiffer(p, q);
    TupleAndTimesDiffer(p, q);
  }

  lemma TupleAndTimesDiffer(p: Payload, q: Payload)
    requires Closing(p, 2) == Closing(q, 2)
    ensures p.micros == q.micros && p.id == q.id && p.iat == q.iat && p.exp == q.exp
  {
    ClosingStep(p, 2);
    ClosingStep(q, 2);
    TuplesDiffer(p, "," + Closing(p, 1), q, "," + Closing(q, 1));
    CutPrefix(",", Closing(p, 1), Closing(q, 1));
    TimesDiffer(p, q);
  }
}
