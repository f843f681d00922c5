/** Splitting, joining and numerals, as JavaScript's String and Number do them on ASCII text. */
module Text {
  import opened Options

  // ---------------------------------------------------------------- split and join

  /** The text before the first `sep`, or all of it. */
  function Head(s: string, sep: char): (head: string)
    ensures |head| <= |s| && head == s[..|head|] && sep !in head
    ensures |head| == |s| || s[|head|] == sep
  {
    if s == "" || s[0] == sep then "" else [s[0]] + Head(s[1..], sep)
  }

  function Split(s: string, sep: char): (parts: seq<string>)
    ensures |parts| >= 1
  {
    var head := Head(s, sep);
    if |head| == |s| then [s] else [head] + Split(s[|head| + 1..], sep)
  }

  function Join(parts: seq<string>, sep: char): string {
    if parts == [] then "" else if |parts| == 1 then parts[0] else parts[0] + [sep] + Join(parts[1..], sep)
  }

  lemma {:induction false} HeadOf(a: string, sep: char, rest: string)
    requires sep !in a
    ensures Head(a, sep) == a && Head(a + [sep] + rest, sep) == a
  {
    if a == "" {
      assert (a + [sep] + rest)[0] == sep;
    } else {
      HeadOf(a[1..], sep, rest);
      assert (a + [sep] + rest)[1..] == a[1..] + [sep] + rest;
    }
  }

  lemma SplitHead(a: string, sep: char, rest: string)
    requires sep !in a
    ensures Split(a, sep) == [a] && Split(a + [sep] + rest, sep) == [a] + Split(rest, sep)
  {
    HeadOf(a, sep, rest);
    assert (a + [sep] + rest)[|a| + 1..] == rest;
  }

  /** Splitting gives back the parts that were joined. */
  lemma {:induction false} SplitJoin(parts: seq<string>, sep: char)
    requires parts != [] && forall p :: p in parts ==> sep !in p
    ensures Split(Join(parts, sep), sep) == parts
  {
    var first, rest := parts[0], parts[1..];
    assert first in parts;
    if rest == [] {
      SplitHead(first, sep, "");
      assert parts == [first];
    } else {
      assert forall p :: p in rest ==> p in parts;
      SplitJoin(rest, sep);
      SplitHead(first, sep, Join(rest, sep));
      assert parts == [first] + rest;
    }
  }

  lemma JoinFirst(part: string, rest: seq<string>, sep: char)
    requires rest != []
    ensures Join([part] + rest, sep) == part + [sep] + Join(rest, sep)
  {
    assert ([part] + rest)[1..] == rest;
  }

  lemma SplitFirst(s: string, sep: char, head: string, rest: string)
    requires head == Head(s, sep) && |head| < |s| && rest == s[|head| + 1..]
    ensures Split(s, sep) == [head] + Split(rest, sep) && s == head + [sep] + rest
  {
    assert s[|head|] == sep && s[..|head|] == head;
    Rejoined(s, |head|);
  }

  lemma Rejoined(s: string, i: nat)
    requires i < |s|
    ensures s == s[..i] + [s[i]] + s[i + 1..]
  {
  }

  /** Joining gives back the text that was split. */
  lemma {:induction false} JoinSplit(s: string, sep: char)
    ensures Join(Split(s, sep), sep) == s
    decreases |s|
  {
    var head := Head(s, sep);
    if |head| < |s| {
      var rest := s[|head| + 1..];
      SplitFirst(s, sep, head, rest);
      JoinSplit(rest, sep);
      JoinFirst(head, Split(rest, sep), sep);
    }
  }

  // ---------------------------------------------------------------- numerals

  const DIGITS := "0123456789abcdef"

  function DigitChar(d: nat): char
    requires d < 16
  {
    DIGITS[d]
  }

  /** What a digit is worth, upper or lower case; 16 for any other character. */
  function DigitValue(c: char): (d: nat)
    ensures d <= 16
  {
    if '0' <= c <= '9' then (c - '0') as nat
    else if 'a' <= c <= 'f' then (c - 'a') as nat + 10
    else if 'A' <= c <= 'F' then (c - 'A') as nat + 10
    else 16
  }

  lemma DigitRoundTrip(d: nat)
    requires d < 16
    ensures DigitValue(DigitChar(d)) == d
  {
  }

  predicate IsNumeral(s: string, base: nat) { s != "" && forall c :: c in s ==> DigitValue(c) < base }

  /** Number.prototype.toString for a whole number. */
  function Numeral(n: nat, base: nat): (s: string)
    requires 2 <= base <= 16
    ensures s != ""
  {
    if n < base then [DigitChar(n)] else Numeral(n / base, base) + [DigitChar(n % base)]
  }

  /** The number a text of digits stands for. */
  function Value(s: string, base: nat): nat {
    if s == "" then 0 else Value(s[..|s| - 1], base) * base + DigitValue(s[|s| - 1])
  }

  lemma DivMod(n: nat, base: nat)
    requires base > 0
    ensures n / base * base + n % base == n
  {
  }

  lemma ValueStep(s: string, c: char, base: nat)
    ensures Value(s + [c], base) == Value(s, base) * base + DigitValue(c)
  {
    assert (s + [c])[..|s|] == s;
  }

  /** A digit as Numeral writes it: below the base, letters in lower case. */
  predicate LowerDigit(c: char, base: nat) { DigitValue(c) < base && ('0' <= c <= '9' || 'a' <= c <= 'f') }

  lemma LowerDigitChar(d: nat, base: nat)
    requires d < base <= 16
    ensures LowerDigit(DigitChar(d), base)
  {
    DigitRoundTrip(d);
  }

  predicate LowerDigits(s: string, base: nat) { forall i :: 0 <= i < |s| ==> LowerDigit(s[i], base) }

  lemma {:induction false} NumeralDigits(n: nat, base: nat)
    requires 2 <= base <= 16
    ensures LowerDigits(Numeral(n, base), base)
  {
    if n < base {
      LowerDigitChar(n, base);
    } else {
      NumeralDigits(n / base, base);
      LowerDigitChar(n % base, base);
    }
  }

  /** A numeral of more than one digit: the numeral of the quotient, then the remainder's digit. */
  lemma NumeralUnfolds(n: nat, base: nat) returns (quotient: nat, rest: nat)
    requires 2 <= base <= 16 && n >= base
    ensures quotient == n / base && rest == n % base && quotient < n && rest < base && quotient * base + rest == n
    ensures Numeral(n, base) == Numeral(quotient, base) + [DigitChar(rest)]
  {
    quotient, rest := n / base, n % base;
    DivMod(n, base);
  }

  lemma OneDigitValue(d: nat, base: nat)
    requires d < 16
    ensures Value([DigitChar(d)], base) == d
  {
    DigitRoundTrip(d);
    assert [DigitChar(d)][..0] == "";
  }

  lemma NextDigitValue(text: string, d: nat, base: nat, quotient: nat, n: nat)
    requires d < 16 && Value(text, base) == quotient && quotient * base + d == n
    ensures Value(text + [DigitChar(d)], base) == n
  {
    DigitRoundTrip(d);
    ValueStep(text, DigitChar(d), base);
  }

  lemma {:induction false} NumeralValue(n: nat, base: nat)
    requires 2 <= base <= 16
    ensures Value(Numeral(n, base), base) == n
  {
    if n < base {
      OneDigitValue(n, base);
    } else {
      var quotient, rest := NumeralUnfolds(n, base);
      NumeralValue(quotient, base);
      NextDigitValue(Numeral(quotient, base), rest, base, quotient, n);
    }
  }

  lemma ValueOfNumeral(n: nat, base: nat)
    requires 2 <= base <= 16
    ensures IsNumeral(Numeral(n, base), base) && Value(Numeral(n, base), base) == n
    ensures LowerDigits(Numeral(n, base), base)
  {
    NumeralDigits(n, base);
    NumeralValue(n, base);
  }

  /** A numeral says which number it is, and carries no separator. */
  lemma NumeralsDiffer(m: nat, n: nat, base: nat)
    requires 2 <= base <= 16 && Numeral(m, base) == Numeral(n, base)
    ensures m == n
  {
    ValueOfNumeral(m, base);
    ValueOfNumeral(n, base);
  }

  function Pow10(k: nat): nat { if k == 0 then 1 else 10 * Pow10(k - 1) }

  /** A number below 10^k is written with at most k digits, and no other is. */
  lemma {:induction false} NumeralLength(n: nat, k: nat)
    requires k >= 1
    ensures |Numeral(n, 10)| <= k <==> n < Pow10(k)
  {
    if k == 1 {
      assert Pow10(1) == 10 * Pow10(0);
    } else if n >= 10 {
      NumeralLength(n / 10, k - 1);
    } else {
      PowGrows(k);
    }
  }

  lemma {:induction false} PowGrows(k: nat)
    requires k >= 1
    ensures Pow10(k) >= 10
  {
    if k > 1 { PowGrows(k - 1); }
  }

  lemma TenTo16()
    ensures Pow10(16) == 10_000_000_000_000_000
  {
    assert Pow10(4) == 10000 && Pow10(8) == 100000000 && Pow10(12) == 1000000000000;
  }

  /** Decimal digits without a needless zero in front. */
  predicate Canonical(s: string) {
    s == "0" || (s != "" && s[0] != '0' && forall i :: 0 <= i < |s| ==> '0' <= s[i] <= '9')
  }

  lemma DigitOfValue(c: char)
    requires '0' <= c <= '9'
    ensures DigitValue(c) < 10 && DigitChar(DigitValue(c)) == c
    ensures DigitValue(c) == 0 <==> c == '0'
  {
  }

  lemma NumeralStep(n: nat, v: nat, d: nat, base: nat)
    requires base == 10 && v > 0 && d < 10 && n == v * 10 + d
    ensures Numeral(n, base) == Numeral(v, base) + [DigitChar(d)]
  {
    var quotient, rest := NumeralUnfolds(n, base);
    assert quotient == v && rest == d;
  }

  /** Digits without a needless zero are the numeral of the number they stand for, and only "0" stands for zero. */
  lemma {:induction false} CanonicalIsNumeral(s: string)
    requires Canonical(s)
    ensures Numeral(Value(s, 10), 10) == s && (s != "0" ==> Value(s, 10) > 0)
  {
    var n := |s| - 1;
    DigitOfValue(s[n]);
    ValueStep(s[..n], s[n], 10);
    assert s == s[..n] + [s[n]];
    if n == 0 {
      assert s[..n] == "";
    } else {
      assert s[..n] != "0";
      CanonicalIsNumeral(s[..n]);
      NumeralStep(Value(s, 10), Value(s[..n], 10), DigitValue(s[n]), 10);
    }
  }

  lemma {:induction false} NumeralIsCanonical(n: nat)
    ensures Canonical(Numeral(n, 10)) && (n > 0 ==> Numeral(n, 10)[0] != '0')
  {
    if n >= 10 {
      NumeralIsCanonical(n / 10);
    }
  }

  /** The digits a text starts with. */
  function DigitRun(s: string, base: nat): (run: string)
    ensures |run| <= |s| && run == s[..|run|]
    ensures forall i :: 0 <= i < |run| ==> DigitValue(run[i]) < base
    ensures |run| < |s| ==> DigitValue(s[|run|]) >= base
  {
    if s == "" || DigitValue(s[0]) >= base then "" else [s[0]] + DigitRun(s[1..], base)
  }

  lemma {:induction false} DigitRunAll(s: string, base: nat)
    requires forall c :: c in s ==> DigitValue(c) < base
    ensures DigitRun(s, base) == s
  {
    if s != "" {
      assert s[0] in s && forall c :: c in s[1..] ==> c in s;
      DigitRunAll(s[1..], base);
    }
  }

  /** White space and line ends, as trim and parseInt take them. */
  predicate Blank(c: char) {
    || c in {' ', '\t', '\n', '\r', '\U{b}', '\U{c}', '\U{a0}', '\U{1680}', '\U{2028}', '\U{2029}', '\U{202f}',
             '\U{205f}', '\U{3000}', '\U{feff}'}
    || '\U{2000}' <= c <= '\U{200a}'
  }

  function SkipBlanks(s: string): string { if s != "" && Blank(s[0]) then SkipBlanks(s[1..]) else s }

  function Trim(s: string): string { TrimEnd(SkipBlanks(s)) }

  function TrimEnd(s: string): string { if s != "" && Blank(s[|s| - 1]) then TrimEnd(s[..|s| - 1]) else s }

  lemma {:induction false} TrimmedEnds(s: string)
    ensures SkipBlanks(s) == "" || !Blank(SkipBlanks(s)[0])
    ensures TrimEnd(s) == "" || (!Blank(TrimEnd(s)[|TrimEnd(s)| - 1]) && TrimEnd(s) <= s)
    decreases |s|
  {
    if s != "" {
      TrimmedEnds(s[1..]);
      TrimmedEnds(s[..|s| - 1]);
    }
  }

  /** A trimmed text starts and ends with no blank, and trimming it again changes nothing. */
  lemma TrimIsIdempotent(s: string)
    ensures Trim(Trim(s)) == Trim(s)
    ensures Trim(s) != "" ==> !Blank(Trim(s)[0]) && !Blank(Trim(s)[|Trim(s)| - 1])
  {
    TrimmedEnds(s);
    TrimmedEnds(SkipBlanks(s));
  }

  predicate AllBlank(s: string) { forall i :: 0 <= i < |s| ==> Blank(s[i]) }

  /** What trimming takes off: blanks before and blanks after, and no blank is left at either end. */
  lemma TrimTakesBlanks(s: string) returns (before: string, after: string)
    ensures s == before + Trim(s) + after && AllBlank(before) && AllBlank(after)
    ensures Trim(s) != "" ==> !Blank(Trim(s)[0]) && !Blank(Trim(s)[|Trim(s)| - 1])
  {
    before := SkippedBlanks(s);
    after := EndBlanks(SkipBlanks(s));
    TrimIsIdempotent(s);
    assert s == before + (Trim(s) + after);
  }

  lemma {:induction false} SkippedBlanks(s: string) returns (before: string)
    ensures s == before + SkipBlanks(s) && AllBlank(before)
  {
    if s != "" && Blank(s[0]) {
      var rest := SkippedBlanks(s[1..]);
      before := [s[0]] + rest;
      assert s == [s[0]] + s[1..];
    } else {
      before := "";
    }
  }

  lemma {:induction false} EndBlanks(s: string) returns (after: string)
    ensures s == TrimEnd(s) + after && AllBlank(after)
  {
    if s != "" && Blank(s[|s| - 1]) {
      var rest := EndBlanks(s[..|s| - 1]);
      after := rest + [s[|s| - 1]];
      assert s == s[..|s| - 1] + [s[|s| - 1]];
    } else {
      after := "";
    }
  }

  /** A text within blanks, itself with no blank at either end, is what trimming leaves. */
  lemma {:induction false} TrimmedOf(before: string, t: string, after: string)
    requires AllBlank(before) && AllBlank(after) && t != "" && !Blank(t[0]) && !Blank(t[|t| - 1])
    ensures Trim(before + t + after) == t
    decreases |before| + |after|
  {
    var s := before + t + after;
    if before != "" {
      assert s[1..] == before[1..] + t + after;
      assert forall i :: 0 <= i < |before| - 1 ==> before[1..][i] == before[i + 1];
      TrimmedOf(before[1..], t, after);
    } else if after != "" {
      var less := after[..|after| - 1];
      assert s[0] == t[0] && SkipBlanks(s) == s;
      assert s[..|s| - 1] == t + less && before + t + less == t + less;
      TrimmedOf(before, t, less);
      assert (t + less)[0] == t[0] && SkipBlanks(t + less) == t + less;
    } else {
      assert s == t;
    }
  }

  /** Number.parseInt(s, 10): blanks, a sign, and the digits that follow; none when there are no digits. */
  function ParseInt(s: string): Option<int> {
    var text := SkipBlanks(s);
    var negative := text != "" && text[0] == '-';
    var digits := DigitRun(if text != "" && text[0] in {'-', '+'} then text[1..] else text, 10);
    if digits == "" then None else Some(if negative then -(Value(digits, 10) as int) else Value(digits, 10))
  }

  lemma {:induction false} SkippedTo(before: string, text: string)
    requires AllBlank(before) && (text == "" || !Blank(text[0]))
    ensures SkipBlanks(before + text) == text
  {
    if before == "" {
      assert before + text == text;
    } else {
      assert forall i :: 0 <= i < |before| - 1 ==> before[1..][i] == before[i + 1];
      SkippedTo(before[1..], text);
      assert (before + text)[1..] == before[1..] + text;
    }
  }

  lemma DigitRunIs(digits: string, after: string)
    requires IsNumeral(digits, 10) && (after == "" || DigitValue(after[0]) >= 10)
    ensures DigitRun(digits + after, 10) == digits
  {
    var run := DigitRun(digits + after, 10);
    assert forall i :: 0 <= i < |digits| ==> digits[i] in digits && (digits + after)[i] == digits[i];
    assert after != "" ==> (digits + after)[|digits|] == after[0];
  }

  lemma SignFirst(sign: string, rest: string)
    requires |sign| == 1
    ensures (sign + rest)[0] == sign[0] && (sign + rest)[1..] == rest
  {
  }

  /** What parseInt looks for digits in: the text after its blanks and its sign. */
  lemma Unsigned(s: string, text: string, sign: string, rest: string)
    requires SkipBlanks(s) == text == sign + rest && sign in {"", "+", "-"}
    requires sign == "" && rest != "" ==> rest[0] !in {'+', '-'}
    ensures ParseInt(s) == if DigitRun(rest, 10) == "" then None else Some(SignedValue(sign, DigitRun(rest, 10)))
  {
    if sign == "" {
      assert text == rest;
    } else {
      SignFirst(sign, rest);
    }
  }

  lemma DigitIsPlain(c: char)
    requires DigitValue(c) < 10
    ensures !Blank(c) && c !in {'+', '-'}
  {
  }

  lemma SignedStart(sign: string, rest: string)
    requires sign in {"", "+", "-"} && rest != "" && !Blank(rest[0])
    ensures sign + rest != "" && !Blank((sign + rest)[0])
  {
    if sign == "" { assert sign + rest == rest; } else { assert (sign + rest)[0] == sign[0]; }
  }

  /** The number that digits and a sign before them stand for. */
  function SignedValue(sign: string, digits: string): int {
    if sign == "-" then -(Value(digits, 10) as int) else Value(digits, 10)
  }

  lemma FirstOfDigits(digits: string, after: string) returns (first: char)
    requires IsNumeral(digits, 10)
    ensures (digits + after)[0] == first && !Blank(first) && first !in {'+', '-'}
  {
    first := digits[0];
    assert first in digits;
    DigitIsPlain(first);
  }

  /** Blanks, a sign, the digits and anything that is no digit: the number is the digits', with the sign. */
  lemma ParseIntReads(before: string, sign: string, digits: string, after: string)
    requires AllBlank(before) && sign in {"", "+", "-"} && IsNumeral(digits, 10)
    requires after == "" || DigitValue(after[0]) >= 10
    ensures ParseInt(before + (sign + (digits + after))) == Some(SignedValue(sign, digits))
  {
    var first := FirstOfDigits(digits, after);
    DigitRunIs(digits, after);
    ReadSigned(before, sign, digits + after, first, digits);
  }

  lemma ReadSigned(before: string, sign: string, rest: string, first: char, digits: string)
    requires AllBlank(before) && sign in {"", "+", "-"} && rest != "" && rest[0] == first
    requires !Blank(first) && first !in {'+', '-'} && DigitRun(rest, 10) == digits && digits != ""
    ensures ParseInt(before + (sign + rest)) == Some(SignedValue(sign, digits))
  {
    var text := sign + rest;
    SignedStart(sign, rest);
    SkippedTo(before, text);
    Unsigned(before + text, text, sign, rest);
  }

  /** A text whose blanks and sign are followed by no digit is no number. */
  lemma ParseIntRefuses(before: string, sign: string, after: string)
    requires AllBlank(before) && sign in {"", "+", "-"}
    requires after == "" || (DigitValue(after[0]) >= 10 && (sign == "" ==> !Blank(after[0]) && after[0] !in {'+', '-'}))
    ensures ParseInt(before + (sign + after)) == None
  {
    var text := sign + after;
    SkippedTo(before, text);
    Unsigned(before + text, text, sign, after);
  }

  lemma ParseIntOfNumeral(n: nat)
    ensures ParseInt(Numeral(n, 10)) == Some(n)
  {
    var s := Numeral(n, 10);
    ValueOfNumeral(n, 10);
    assert LowerDigit(s[0], 10);
    DigitIsPlain(s[0]);
    DigitRunAll(s, 10);
    assert s == "" + s;
    Unsigned(s, s, "", s);
  }
}
