/** The text forms of an IPv6 address, and the reader that takes each back to its eight blocks. */
module Ipv6Text {
  import opened Text
  import opened Options

  // ---------------------------------------------------------------- reading an IPv6 text

  predicate Decimal(s: string) { s != "" && forall i :: 0 <= i < |s| ==> '0' <= s[i] <= '9' }

  /** Four runs of digits with dots between them and nothing else. */
  predicate DottedQuad(s: string) {
    var parts := Split(s, '.');
    |parts| == 4 && Decimal(parts[0]) && Decimal(parts[1]) && Decimal(parts[2]) && Decimal(parts[3])
  }

  /** Where the dotted quad at the end of the text starts; past the end when there is none. */
  function QuadStart(text: string, from: nat): (i: nat)
    requires from <= |text|
    ensures from <= i <= |text| + 1
    ensures i <= |text| ==> DottedQuad(text[i..])
    ensures forall k :: from <= k < i && k <= |text| ==> !DottedQuad(text[k..])
    decreases |text| - from
  {
    if DottedQuad(text[from..]) then from else if from == |text| then |text| + 1 else QuadStart(text, from + 1)
  }

  function QuadBlocks(quad: string): seq<nat>
    requires DottedQuad(quad)
  {
    var parts := Split(quad, '.');
    [Value(parts[0], 10) * 256 + Value(parts[1], 10), Value(parts[2], 10) * 256 + Value(parts[3], 10)]
  }

  predicate EndsDouble(text: string) { |text| >= 2 && text[|text| - 2..] == "::" }

  /** The text without one colon at its end. */
  function DropColon(text: string): string {
    if text != "" && text[|text| - 1] == ':' then text[..|text| - 1] else text
  }

  predicate DoubleAt(text: string, i: nat) { i + 1 < |text| && text[i] == ':' && text[i + 1] == ':' }

  /** Where the first double colon is; the text's length when there is none. */
  function FirstDouble(text: string, from: nat): (i: nat)
    requires from <= |text|
    ensures from <= i <= |text| && (i < |text| ==> DoubleAt(text, i))
    ensures forall k :: from <= k < i ==> !DoubleAt(text, k)
    decreases |text| - from
  {
    if from == |text| || DoubleAt(text, from) then from else FirstDouble(text, from + 1)
  }

  function HexValues(groups: seq<string>): seq<nat> {
    if groups == [] then [] else [Value(DigitRun(groups[0], 16), 16)] + HexValues(groups[1..])
  }

  function ParsePart(part: string): seq<nat> { if part == "" then [] else HexValues(Split(part, ':')) }

  function Zeros(n: nat): seq<nat> { if n == 0 then [] else [0] + Zeros(n - 1) }

  /** Head and rest of the text around its first double colon, as the first two parts of split('::'). */
  function AroundDouble(text: string): (string, Option<string>) {
    var i := FirstDouble(text, 0);
    if i == |text| then (text, None)
    else
      var after := text[i + 2..];
      (text[..i], Some(after[..FirstDouble(after, 0)]))
  }

  function Assembled(text: string, tail: seq<nat>): Option<seq<nat>> {
    var (head, rest) := AroundDouble(text);
    Filled(ParsePart(head), rest.Some?, ParsePart(if rest.Some? then rest.value else "") + tail)
  }

  /** Front and back, with the zeros a double colon stands for between them. */
  function Filled(front: seq<nat>, compressed: bool, back: seq<nat>): Option<seq<nat>> {
    if !compressed then Some(front + back)
    else if |front| + |back| > 8 then None
    else Some(front + Zeros(8 - |front| - |back|) + back)
  }

  /** The blocks of the address; nothing where the source's Array(n) would refuse a negative length. */
  function BlocksOf(address: string): Option<seq<nat>> {
    var i := QuadStart(address, 0);
    if i > |address| then Assembled(address, [])
    else
      var text := address[..i];
      Assembled(if EndsDouble(text) then text else DropColon(text), QuadBlocks(address[i..]))
  }

  // ---------------------------------------------------------------- writing an IPv6 text

  /** A text form of section 2.2 of RFC 4291: groups, at most one double colon, and maybe a dotted IPv4 tail. */
  datatype Form = Form(front: seq<string>, compressed: bool, back: seq<string>, tail: Option<seq<string>>)

  predicate HexGroup(g: string) { 1 <= |g| <= 4 && forall i :: 0 <= i < |g| ==> DigitValue(g[i]) < 16 }

  predicate Octet(o: string) { Decimal(o) && Value(o, 10) < 256 }

  predicate Octets(q: seq<string>) { |q| == 4 && Octet(q[0]) && Octet(q[1]) && Octet(q[2]) && Octet(q[3]) }

  predicate ValidForm(f: Form) {
    var groups := |f.front| + |f.back| + if f.tail.Some? then 2 else 0;
    && (forall i :: 0 <= i < |f.front| ==> HexGroup(f.front[i]))
    && (forall i :: 0 <= i < |f.back| ==> HexGroup(f.back[i]))
    && (f.tail.Some? ==> Octets(f.tail.value))
    && (if f.compressed then groups <= 7 else groups == 8 && f.back == [])
  }

  function Middle(f: Form): string {
    Join(f.front, ':') + if f.compressed then "::" + Join(f.back, ':') else ""
  }

  function Render(f: Form): string {
    if f.tail.None? then Middle(f)
    else Middle(f) + (if f.compressed && f.back == [] then "" else ":") + Join(f.tail.value, '.')
  }

  /** The numbers hexadecimal groups stand for. */
  function GroupValues(groups: seq<string>): seq<nat> {
    if groups == [] then [] else [Value(groups[0], 16)] + GroupValues(groups[1..])
  }

  function TailBlocks(f: Form): seq<nat>
    requires ValidForm(f)
  {
    if f.tail.None? then []
    else [Value(f.tail.value[0], 10) * 256 + Value(f.tail.value[1], 10),
          Value(f.tail.value[2], 10) * 256 + Value(f.tail.value[3], 10)]
  }

  /** The eight blocks the form stands for. */
  function Meaning(f: Form): (blocks: seq<nat>)
    requires ValidForm(f)
  {
    GroupValues(f.front) + Zeros(8 - |f.front| - |f.back| - |TailBlocks(f)|) + (GroupValues(f.back) + TailBlocks(f))
  }

  lemma {:induction false} GroupValuesLength(groups: seq<string>)
    ensures |GroupValues(groups)| == |groups|
  {
    if groups != [] { GroupValuesLength(groups[1..]); }
  }

  lemma {:induction false} GroupValuesAt(groups: seq<string>, i: nat)
    requires i < |groups|
    ensures |GroupValues(groups)| == |groups| && GroupValues(groups)[i] == Value(groups[i], 16)
  {
    GroupValuesLength(groups);
    if i > 0 { GroupValuesAt(groups[1..], i - 1); }
  }

  lemma {:induction false} ZerosAt(n: nat)
    ensures |Zeros(n)| == n && forall i :: 0 <= i < n ==> Zeros(n)[i] == 0
  {
    if n > 0 { ZerosAt(n - 1); }
  }

  /** Of three runs one after the other, the element at each place. */
  lemma ThirdsAt(a: seq<nat>, b: seq<nat>, c: seq<nat>, i: nat)
    requires i < |a| + |b| + |c|
    ensures (a + b + c)[i] == if i < |a| then a[i] else if i < |a| + |b| then b[i - |a|] else c[i - |a| - |b|]
  {
  }

  /**
   * The block at each place: the groups before the double colon from the front, zeros where it stands, then the
   * groups after it and the dotted tail's two blocks up to the end.
   */
  lemma MeaningAt(f: Form, i: nat)
    requires ValidForm(f) && i < 8
    ensures |Meaning(f)| == 8
    ensures var tailed := if f.tail.Some? then 2 else 0;
            var back := 8 - tailed - |f.back|;
            Meaning(f)[i] == if i < |f.front| then Value(f.front[i], 16)
                             else if i < back then 0
                             else if i < 8 - tailed then Value(f.back[i - back], 16)
                             else if i == 6 then Value(f.tail.value[0], 10) * 256 + Value(f.tail.value[1], 10)
                             else Value(f.tail.value[2], 10) * 256 + Value(f.tail.value[3], 10)
  {
    var tailed := if f.tail.Some? then 2 else 0;
    var back := 8 - tailed - |f.back|;
    var front, zeros, rest := GroupValues(f.front), Zeros(back - |f.front|), GroupValues(f.back) + TailBlocks(f);
    GroupValuesLength(f.front);
    GroupValuesLength(f.back);
    ZerosAt(back - |f.front|);
    assert Meaning(f) == front + zeros + rest;
    ThirdsAt(front, zeros, rest, i);
    if i < |f.front| { GroupValuesAt(f.front, i); }
    if back <= i < 8 - tailed { GroupValuesAt(f.back, i - back); }
  }

  /** A hexadecimal group means what its number is in any case and with any zeros before it. */
  lemma {:induction false} GroupMeans(n: nat, zeros: nat, group: string)
    requires |group| == zeros + |Numeral(n, 16)|
    requires forall i :: 0 <= i < zeros ==> group[i] == '0'
    requires forall i :: zeros <= i < |group| ==> LowerHex(group[i]) == Numeral(n, 16)[i - zeros]
    ensures Value(group, 16) == n
  {
    SameDigits(group, Zeroes(zeros) + Numeral(n, 16));
    ZeroesAdd(zeros, Numeral(n, 16));
    ValueOfNumeral(n, 16);
  }

  function LowerHex(c: char): char { if 'A' <= c <= 'F' then c - 'A' + 'a' else c }

  function Zeroes(n: nat): (s: string)
    ensures |s| == n && forall i :: 0 <= i < n ==> s[i] == '0'
  {
    seq(n, _ => '0')
  }

  lemma {:induction false} SameDigits(a: string, b: string)
    requires |a| == |b| && forall i :: 0 <= i < |a| ==> LowerHex(a[i]) == b[i]
    ensures Value(a, 16) == Value(b, 16)
  {
    if a != [] {
      var n := |a| - 1;
      SameDigits(a[..n], b[..n]);
      assert DigitValue(a[n]) == DigitValue(LowerHex(a[n]));
    }
  }

  lemma {:induction false} ZeroesAdd(n: nat, s: string)
    ensures Value(Zeroes(n) + s, 16) == Value(s, 16)
    decreases n + |s|
  {
    var all := Zeroes(n) + s;
    if s != "" {
      ZeroesAdd(n, s[..|s| - 1]);
      assert all[..|all| - 1] == Zeroes(n) + s[..|s| - 1];
    } else if n > 0 {
      ZeroesAdd(n - 1, "");
      assert all[..|all| - 1] == Zeroes(n - 1) + "";
    }
  }

  // ---------------------------------------------------------------- every address has its forms

  /** Blocks as lower-case hexadecimal groups without needless zeros. */
  function Hexes(blocks: seq<nat>): seq<string> {
    if blocks == [] then [] else [Numeral(blocks[0], 16)] + Hexes(blocks[1..])
  }

  lemma {:induction false} HexLength(n: nat, k: nat, bound: nat)
    requires 1 <= k <= 4 && bound == (if k == 1 then 16 else if k == 2 then 256 else if k == 3 then 4096 else 65536)
    requires n < bound
    ensures |Numeral(n, 16)| <= k
  {
    if n >= 16 {
      var quotient, rest := NumeralUnfolds(n, 16);
      HexLength(quotient, k - 1, bound / 16);
    }
  }

  lemma {:induction false} HexesAreForms(blocks: seq<nat>)
    requires forall i :: 0 <= i < |blocks| ==> blocks[i] < 65536
    ensures |Hexes(blocks)| == |blocks| && GroupValues(Hexes(blocks)) == blocks
    ensures forall i :: 0 <= i < |Hexes(blocks)| ==> HexGroup(Hexes(blocks)[i])
  {
    if blocks != [] {
      var first, rest := blocks[0], blocks[1..];
      HexesAreForms(rest);
      HexLength(first, 4, 65536);
      ValueOfNumeral(first, 16);
      assert Hexes(blocks)[1..] == Hexes(rest);
      var text := Numeral(first, 16);
      assert forall i :: 0 <= i < |text| ==> LowerDigit(text[i], 16);
    }
  }

  predicate BlockSized(blocks: seq<nat>) { forall i :: 0 <= i < |blocks| ==> blocks[i] < 65536 }

  /** Eight blocks can be written in full. */
  lemma AddressHasFullForm(blocks: seq<nat>)
    requires |blocks| == 8 && BlockSized(blocks)
    ensures ValidForm(Form(Hexes(blocks), false, [], None)) && Meaning(Form(Hexes(blocks), false, [], None)) == blocks
  {
    HexesAreForms(blocks);
    NothingAround(blocks);
    assert GroupValues([]) == [];
  }

  /** Any run of zeros among eight blocks can be written as a double colon. */
  lemma AddressHasShortForm(front: seq<nat>, zeros: nat, back: seq<nat>)
    requires |front| + zeros + |back| == 8 && zeros > 0 && BlockSized(front) && BlockSized(back)
    ensures var form := Form(Hexes(front), true, Hexes(back), None);
            ValidForm(form) && Meaning(form) == front + Zeros(zeros) + back
  {
    HexesAreForms(front);
    HexesAreForms(back);
    ShortMeaning(Form(Hexes(front), true, Hexes(back), None), front, zeros, back);
  }

  lemma ShortMeaning(f: Form, front: seq<nat>, zeros: nat, back: seq<nat>)
    requires |front| + zeros + |back| == 8 && ValidForm(f) && f.tail.None?
    requires |f.front| == |front| && |f.back| == |back| && GroupValues(f.front) == front && GroupValues(f.back) == back
    ensures Meaning(f) == front + Zeros(zeros) + back
  {
    assert TailBlocks(f) == [];
    assert GroupValues(f.back) + [] == back;
  }

  lemma NothingAround(blocks: seq<nat>)
    ensures blocks + [] == blocks && [] + blocks == blocks && blocks + Zeros(0) + ([] + []) == blocks
  {
  }

  /** Digits are the characters a decimal numeral is made of. */
  lemma DecimalIsNumeral(s: string)
    ensures Decimal(s) <==> IsNumeral(s, 10)
  {
    if IsNumeral(s, 10) {
      assert forall i :: 0 <= i < |s| ==> s[i] in s;
    }
  }

  function Numerals(numbers: seq<nat>): seq<string> {
    seq(|numbers|, i requires 0 <= i < |numbers| => Numeral(numbers[i], 10))
  }

  /** The last two blocks can be written as four numbers below 256, each in its digits. */
  lemma AddressHasQuad(front: seq<nat>, zeros: nat, numbers: seq<nat>)
    requires |front| + zeros == 6 && BlockSized(front)
    requires |numbers| == 4 && forall i :: 0 <= i < 4 ==> numbers[i] < 256
    ensures var form := Form(Hexes(front), zeros > 0, [], Some(Numerals(numbers)));
            && ValidForm(form)
            && Meaning(form) == front + Zeros(zeros) + [256 * numbers[0] + numbers[1], 256 * numbers[2] + numbers[3]]
  {
    HexesAreForms(front);
    QuadOf(numbers);
    QuadTail(Form(Hexes(front), zeros > 0, [], Some(Numerals(numbers))), front, zeros, numbers);
  }

  lemma QuadTail(f: Form, front: seq<nat>, zeros: nat, numbers: seq<nat>)
    requires |front| + zeros == 6 && f.back == [] && ValidForm(f) && f.tail.Some? && |numbers| == 4
    requires |f.front| == |front| && GroupValues(f.front) == front
    requires forall i :: 0 <= i < 4 ==> Value(f.tail.value[i], 10) == numbers[i]
    ensures Meaning(f) == front + Zeros(zeros) + [256 * numbers[0] + numbers[1], 256 * numbers[2] + numbers[3]]
  {
    var tail := [256 * numbers[0] + numbers[1], 256 * numbers[2] + numbers[3]];
    assert TailBlocks(f) == tail;
    assert GroupValues(f.back) + tail == tail;
  }

  lemma QuadOf(numbers: seq<nat>)
    requires |numbers| == 4 && forall i :: 0 <= i < 4 ==> numbers[i] < 256
    ensures Octets(Numerals(numbers))
    ensures forall i :: 0 <= i < 4 ==> Value(Numerals(numbers)[i], 10) == numbers[i]
  {
    var quad := Numerals(numbers);
    forall i | 0 <= i < 4 ensures Octet(quad[i]) && Value(quad[i], 10) == numbers[i] { NumeralIsOctet(numbers[i]); }
  }

  lemma NumeralIsOctet(n: nat)
    requires n < 256
    ensures Octet(Numeral(n, 10)) && Value(Numeral(n, 10), 10) == n
  {
    ValueOfNumeral(n, 10);
    DecimalIsNumeral(Numeral(n, 10));
  }

  /** Around a double colon there is an address exactly when at most eight blocks are written, and then it has eight. */
  lemma FilledIsEight(front: seq<nat>, back: seq<nat>)
    ensures Filled(front, true, back).Some? <==> |front| + |back| <= 8
    ensures Filled(front, true, back).Some? ==> |Filled(front, true, back).value| == 8
  {
    if |front| + |back| <= 8 { ZerosAt(8 - |front| - |back|); }
  }

  // ---------------------------------------------------------------- colons

  predicate Colonless(g: string) { g != "" && ':' !in g && '.' !in g && '%' !in g }

  lemma GroupIsColonless(g: string)
    requires HexGroup(g) || Decimal(g)
    ensures Colonless(g)
  {
    if c :| c in g && DigitValue(c) == 16 {
      var i :| 0 <= i < |g| && g[i] == c;
    }
  }

  /** No double colon, and no colon at either end. */
  predicate Single(s: string) {
    && (forall k :: 0 <= k < |s| ==> !DoubleAt(s, k))
    && (s != "" ==> s[0] != ':' && s[|s| - 1] != ':')
    && '.' !in s && '%' !in s
  }

  lemma {:induction false} JoinIsSingle(groups: seq<string>)
    requires forall i :: 0 <= i < |groups| ==> Colonless(groups[i])
    ensures Single(Join(groups, ':'))
    ensures groups != [] ==> Join(groups, ':') != ""
  {
    if |groups| == 1 {
      assert Join(groups, ':') == groups[0];
    } else if |groups| > 1 {
      JoinIsSingle(groups[1..]);
      var g, rest := groups[0], Join(groups[1..], ':');
      var s := g + [':'] + rest;
      forall k | 0 <= k < |s| ensures !DoubleAt(s, k) {
        if k < |g| { assert s[k] == g[k] && g[k] in g; }
        else if k > |g| { assert !DoubleAt(rest, k - |g| - 1); }
      }
      assert s[0] in g;
    }
  }

  lemma AroundSingle(a: string)
    requires Single(a)
    ensures AroundDouble(a) == (a, None)
  {
  }

  lemma AroundCompressed(a: string, b: string)
    requires Single(a) && Single(b)
    ensures AroundDouble(a + "::" + b) == (a, Some(b))
  {
    var s := a + "::" + b;
    assert DoubleAt(s, |a|);
    forall k | 0 <= k < |a| ensures !DoubleAt(s, k) {
      if k + 1 < |a| { assert !DoubleAt(a, k); }
    }
    assert FirstDouble(s, 0) == |a|;
    assert s[|a| + 2..] == b && s[..|a|] == a;
    assert b[..|b|] == b;
  }

  lemma {:induction false} HexGroupsRead(groups: seq<string>)
    requires HexGroups(groups)
    ensures HexValues(groups) == GroupValues(groups)
  {
    if groups != [] {
      DigitRunAll(groups[0], 16);
      HexGroupsRead(groups[1..]);
    }
  }

  lemma ParsedGroups(groups: seq<string>)
    requires HexGroups(groups)
    ensures ParsePart(Join(groups, ':')) == GroupValues(groups)
  {
    GroupsJoinSingle(groups);
    if groups != [] {
      forall g | g in groups ensures ':' !in g {
        var i :| 0 <= i < |groups| && groups[i] == g;
        GroupIsColonless(groups[i]);
      }
      SplitJoin(groups, ':');
      HexGroupsRead(groups);
    }
  }

  predicate HexGroups(groups: seq<string>) { forall i :: 0 <= i < |groups| ==> HexGroup(groups[i]) }

  lemma GroupsJoinSingle(groups: seq<string>)
    requires HexGroups(groups)
    ensures Single(Join(groups, ':'))
    ensures groups != [] ==> Join(groups, ':') != ""
    ensures |GroupValues(groups)| == |groups|
  {
    forall i | 0 <= i < |groups| ensures Colonless(groups[i]) { GroupIsColonless(groups[i]); }
    JoinIsSingle(groups);
    GroupValuesLength(groups);
  }

  lemma AssembledAround(text: string, a: string, b: Option<string>, tail: seq<nat>)
    requires AroundDouble(text) == (a, b)
    ensures Assembled(text, tail) == Filled(ParsePart(a), b.Some?, ParsePart(if b.Some? then b.value else "") + tail)
  {
  }

  lemma MiddleAround(f: Form)
    requires ValidForm(f) && f.compressed
    ensures AroundDouble(Middle(f)) == (Join(f.front, ':'), Some(Join(f.back, ':')))
  {
    assert HexGroups(f.front) && HexGroups(f.back);
    GroupsJoinSingle(f.front);
    GroupsJoinSingle(f.back);
    JoinsAround(Join(f.front, ':'), Join(f.back, ':'), Middle(f));
  }

  lemma JoinsAround(a: string, b: string, text: string)
    requires Single(a) && Single(b) && text == a + ("::" + b)
    ensures AroundDouble(text) == (a, Some(b))
  {
    assert text == a + "::" + b;
    AroundCompressed(a, b);
  }

  lemma FilledIsMeaning(f: Form)
    requires ValidForm(f) && f.compressed
    ensures Filled(GroupValues(f.front), true, GroupValues(f.back) + TailBlocks(f)) == Some(Meaning(f))
  {
    GroupValuesLength(f.front);
    GroupValuesLength(f.back);
  }

  lemma AssembledPlain(front: seq<string>, tail: seq<nat>)
    requires HexGroups(front)
    ensures Assembled(Join(front, ':'), tail) == Some(GroupValues(front) + tail)
  {
    GroupsJoinSingle(front);
    AroundSingle(Join(front, ':'));
    ParsedGroups(front);
    assert [] + tail == tail;
  }

  lemma PlainMeaning(f: Form, front: seq<nat>, tail: seq<nat>)
    requires ValidForm(f) && !f.compressed && front == GroupValues(f.front) && tail == TailBlocks(f)
    ensures Meaning(f) == front + tail
  {
    assert GroupValues(f.back) == [] && Zeros(0) == [];
    assert front + [] + ([] + tail) == front + tail;
  }

  lemma PlainAssembles(f: Form)
    requires ValidForm(f) && !f.compressed
    ensures Assembled(Middle(f), TailBlocks(f)) == Some(Meaning(f))
  {
    AssembledPlain(f.front, TailBlocks(f));
    PlainMeaning(f, GroupValues(f.front), TailBlocks(f));
    assert Middle(f) == Join(f.front, ':');
  }

  lemma CompressedAssembles(f: Form)
    requires ValidForm(f) && f.compressed
    ensures Assembled(Middle(f), TailBlocks(f)) == Some(Meaning(f))
  {
    ParsedGroups(f.front);
    ParsedGroups(f.back);
    MiddleAround(f);
    AssembledAround(Middle(f), Join(f.front, ':'), Some(Join(f.back, ':')), TailBlocks(f));
    FilledIsMeaning(f);
  }

  lemma MeaningHasEight(f: Form)
    requires ValidForm(f)
    ensures |Meaning(f)| == 8
  {
    GroupValuesLength(f.front);
    GroupValuesLength(f.back);
    ZerosLength(8 - |f.front| - |f.back| - |TailBlocks(f)|);
  }

  // ---------------------------------------------------------------- the dotted tail

  lemma {:induction false} SplitOfNone(s: string, sep: char)
    requires sep !in s
    ensures Split(s, sep) == [s]
  {
    HeadOf(s, sep, "");
  }

  lemma {:induction false} JoinMember(parts: seq<string>, sep: char, c: char)
    requires c in Join(parts, sep)
    ensures c == sep || exists i :: 0 <= i < |parts| && c in parts[i]
  {
    if |parts| > 1 && c in Join(parts[1..], sep) && c != sep {
      JoinMember(parts[1..], sep, c);
      var i :| 0 <= i < |parts| - 1 && c in parts[1..][i];
      assert c in parts[i + 1];
    } else if |parts| >= 1 && c != sep {
      assert c in parts[0];
    }
  }

  lemma QuadCharacters(s: string)
    requires DottedQuad(s)
    ensures ':' !in s && '.' in s
  {
    var parts := Split(s, '.');
    JoinSplit(s, '.');
    QuadColonless(parts);
    if '.' !in s { SplitOfNone(s, '.'); }
  }

  lemma QuadColonless(parts: seq<string>)
    requires |parts| == 4 && forall i :: 0 <= i < 4 ==> Decimal(parts[i])
    ensures ':' !in Join(parts, '.')
  {
    forall i | 0 <= i < 4 ensures ':' !in parts[i] { GroupIsColonless(parts[i]); }
    if ':' in Join(parts, '.') { JoinMember(parts, '.', ':'); }
  }

  lemma QuadOfOctets(q: seq<string>)
    requires Octets(q)
    ensures DottedQuad(Join(q, '.')) && Split(Join(q, '.'), '.') == q
  {
    forall o | o in q ensures '.' !in o {
      var i :| 0 <= i < |q| && q[i] == o;
      GroupIsColonless(o);
    }
    SplitJoin(q, '.');
  }

  lemma QuadIsFound(prefix: string, quad: string)
    requires prefix != "" && prefix[|prefix| - 1] == ':' && DottedQuad(quad)
    ensures QuadStart(prefix + quad, 0) == |prefix|
  {
    var text := prefix + quad;
    assert text[|prefix|..] == quad;
    forall k | 0 <= k < |prefix| ensures !DottedQuad(text[k..]) {
      assert text[k..][|prefix| - 1 - k] == ':';
      if DottedQuad(text[k..]) { QuadCharacters(text[k..]); }
    }
  }

  lemma NoQuadFound(text: string)
    requires '.' !in text
    ensures QuadStart(text, 0) > |text|
  {
    forall k | 0 <= k <= |text| ensures !DottedQuad(text[k..]) {
      if DottedQuad(text[k..]) { QuadCharacters(text[k..]); }
    }
  }

  lemma MiddleCharacters(f: Form)
    requires ValidForm(f)
    ensures '.' !in Middle(f) && '%' !in Middle(f) && Middle(f) != ""
    ensures f.compressed && f.back == [] ==> EndsDouble(Middle(f))
    ensures !(f.compressed && f.back == []) ==> Middle(f)[|Middle(f)| - 1] != ':'
  {
    forall i | 0 <= i < |f.front| ensures Colonless(f.front[i]) { GroupIsColonless(f.front[i]); }
    forall i | 0 <= i < |f.back| ensures Colonless(f.back[i]) { GroupIsColonless(f.back[i]); }
    JoinIsSingle(f.front);
    JoinIsSingle(f.back);
    if f.compressed { assert Join(f.back, ':') != "" || Middle(f)[|Middle(f)| - 2..] == "::"; }
  }

  /** The text before a dotted tail, once its separating colon is dropped, is the form's middle. */
  lemma PrefixIsMiddle(f: Form)
    requires ValidForm(f)
    ensures TailPrefix(f) != "" && TailPrefix(f)[|TailPrefix(f)| - 1] == ':'
    ensures (if EndsDouble(TailPrefix(f)) then TailPrefix(f) else DropColon(TailPrefix(f))) == Middle(f)
  {
    var prefix := TailPrefix(f);
    MiddleCharacters(f);
    if f.compressed && f.back == [] {
      assert prefix == Middle(f);
      assert prefix[|prefix| - 2..][1] == prefix[|prefix| - 1];
    } else {
      assert prefix[|prefix| - 2..][0] == Middle(f)[|Middle(f)| - 1];
      assert prefix[..|prefix| - 1] == Middle(f);
    }
  }

  lemma BlocksOfPrefixed(prefix: string, quad: string)
    requires prefix != "" && prefix[|prefix| - 1] == ':' && DottedQuad(quad)
    ensures BlocksOf(prefix + quad) == Assembled(if EndsDouble(prefix) then prefix else DropColon(prefix), QuadBlocks(quad))
  {
    QuadIsFound(prefix, quad);
    assert (prefix + quad)[..|prefix|] == prefix && (prefix + quad)[|prefix|..] == quad;
  }

  lemma TailQuad(f: Form)
    requires ValidForm(f) && f.tail.Some?
    ensures DottedQuad(Join(f.tail.value, '.')) && QuadBlocks(Join(f.tail.value, '.')) == TailBlocks(f)
  {
    QuadOfOctets(f.tail.value);
  }

  function TailPrefix(f: Form): string { Middle(f) + if f.compressed && f.back == [] then "" else ":" }

  lemma BlocksOfTailed(f: Form)
    requires ValidForm(f) && f.tail.Some?
    ensures BlocksOf(Render(f)) == Assembled(Middle(f), TailBlocks(f))
  {
    TailQuad(f);
    PrefixIsMiddle(f);
    BlocksOfPrefixed(TailPrefix(f), Join(f.tail.value, '.'));
    assert Render(f) == TailPrefix(f) + Join(f.tail.value, '.');
  }

  /** Reading inverts every way of writing: full, with a double colon anywhere, with a dotted tail, in any case. */
  lemma BlocksOfRendered(f: Form)
    requires ValidForm(f)
    ensures BlocksOf(Render(f)) == Some(Meaning(f)) && |Meaning(f)| == 8
  {
    if f.compressed { CompressedAssembles(f); } else { PlainAssembles(f); }
    MeaningHasEight(f);
    if f.tail.Some? {
      BlocksOfTailed(f);
    } else {
      MiddleCharacters(f);
      NoQuadFound(Render(f));
    }
  }

  lemma {:induction false} ZerosLength(n: nat)
    ensures |Zeros(n)| == n
  {
    if n > 0 { ZerosLength(n - 1); }
  }
}
