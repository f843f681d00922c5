/** Keys for IP addresses: an IPv6 address is keyed by its /64 network, however it is written. */
module IpKey {
  import opened Text
  import opened Options
  import opened Ipv6Text

  /** The eight blocks of the address, built as the source does: the tail is taken off the text first. */
  method Ipv6Blocks(address: string) returns (blocks: Option<seq<nat>>)
    ensures forall f: Form :: ValidForm(f) && Render(f) == address ==> blocks == Some(Meaning(f))
    ensures blocks == BlocksOf(address)
  {
    var text := address;
    var tail: seq<nat> := [];
    var dotted := QuadStart(text, 0);
    if dotted <= |text| {
      tail := tail + QuadBlocks(text[dotted..]);
      assert tail == QuadBlocks(address[dotted..]);
      text := text[..dotted];
      if !EndsDouble(text) { text := DropColon(text); }
    }
    blocks := Assembled(text, tail);
    assert blocks == BlocksOf(address);
    EveryFormReads(address);
  }

  lemma EveryFormReads(address: string)
    ensures forall f: Form :: ValidForm(f) && Render(f) == address ==> BlocksOf(address) == Some(Meaning(f))
  {
    forall f: Form | ValidForm(f) && Render(f) == address ensures BlocksOf(address) == Some(Meaning(f)) {
      BlocksOfRendered(f);
    }
  }

  // ---------------------------------------------------------------- networks

  function Lower(c: char): char { if 'A' <= c <= 'Z' then c - 'A' + 'a' else c }

  /** An IPv4 address written as an IPv6 one with the prefix ::ffff:, in either case. */
  predicate Mapped(address: string) {
    && |address| > 7
    && address[..2] == "::" && address[6] == ':'
    && Lower(address[2]) == Lower(address[3]) == Lower(address[4]) == Lower(address[5]) == 'f'
    && DottedQuad(address[7..])
  }

  function First4(blocks: seq<nat>): seq<nat> { if |blocks| <= 4 then blocks else blocks[..4] }

  function PrefixText(blocks: seq<nat>): string { Join(Hexes(First4(blocks)), ':') + "::/64" }

  /** What stands for the address's network; `isIP` answers 4, 6 or 0 as node's net.isIP does. */
  function NetworkOf(isIP: string -> nat, value: string): string {
    var trimmed := Trim(value);
    var address := if Mapped(trimmed) then trimmed[7..] else trimmed;
    if isIP(address) == 4 then address
    else if isIP(address) != 6 then ""
    else
      var blocks := BlocksOf(Head(address, '%'));
      if blocks.None? then "" else PrefixText(blocks.value)
  }

  // ---------------------------------------------------------------- one network, however it is written

  lemma {:induction false} HexesAreGroups(blocks: seq<nat>)
    ensures |Hexes(blocks)| == |blocks|
    ensures forall s :: s in Hexes(blocks) ==> ':' !in s
  {
    if blocks != [] {
      HexesAreGroups(blocks[1..]);
      NumeralDigits(blocks[0], 16);
      var s := Numeral(blocks[0], 16);
      assert forall i :: 0 <= i < |s| ==> LowerDigit(s[i], 16);
    }
  }

  lemma {:induction false} HexesDiffer(a: seq<nat>, b: seq<nat>)
    requires Hexes(a) == Hexes(b)
    ensures a == b
  {
    HexesAreGroups(a);
    HexesAreGroups(b);
    if a != [] {
      assert Hexes(a)[0] == Numeral(a[0], 16) && Hexes(b)[0] == Numeral(b[0], 16);
      NumeralsDiffer(a[0], b[0], 16);
      assert Hexes(a)[1..] == Hexes(a[1..]) && Hexes(b)[1..] == Hexes(b[1..]);
      HexesDiffer(a[1..], b[1..]);
    }
  }

  /** The prefix text says exactly which four blocks it was made from. */
  lemma PrefixTextsDiffer(a: seq<nat>, b: seq<nat>)
    requires |a| == |b| == 8
    ensures PrefixText(a) == PrefixText(b) <==> a[..4] == b[..4]
  {
    var ja, jb := Join(Hexes(a[..4]), ':'), Join(Hexes(b[..4]), ':');
    if PrefixText(a) == PrefixText(b) {
      assert ja == (ja + "::/64")[..|ja|] && jb == (jb + "::/64")[..|jb|];
      HexesAreGroups(a[..4]);
      HexesAreGroups(b[..4]);
      SplitJoin(Hexes(a[..4]), ':');
      SplitJoin(Hexes(b[..4]), ':');
      HexesDiffer(a[..4], b[..4]);
    }
  }

  /** A value that is, once trimmed, a form with or without a zone after it. */
  predicate Writes(value: string, f: Form, zone: string) {
    ValidForm(f) && (zone == "" || zone[0] == '%') && Trim(value) == Render(f) + zone
  }

  lemma NetworkOfForm(isIP: string -> nat, value: string, f: Form, zone: string)
    requires Writes(value, f, zone) && !Mapped(Trim(value)) && isIP(Trim(value)) == 6
    ensures NetworkOf(isIP, value) == PrefixText(Meaning(f)) && |Meaning(f)| == 8
  {
    RenderHasNoZone(f);
    HeadOf(Render(f), '%', if zone == "" then "" else zone[1..]);
    if zone == "" { assert Render(f) + zone == Render(f); } else { assert Render(f) + zone == Render(f) + ['%'] + zone[1..]; }
    BlocksOfRendered(f);
  }

  lemma RenderHasNoZone(f: Form)
    requires ValidForm(f)
    ensures '%' !in Render(f)
  {
    MiddleCharacters(f);
    if f.tail.Some? { OctetsHaveNoZone(f.tail.value); }
  }

  lemma OctetsHaveNoZone(q: seq<string>)
    requires Octets(q)
    ensures '%' !in Join(q, '.')
  {
    forall i | 0 <= i < |q| ensures '%' !in q[i] { GroupIsColonless(q[i]); }
    if '%' in Join(q, '.') { JoinMember(q, '.', '%'); }
  }

  /**
   * Two IPv6 texts that are not IPv4 addresses in disguise have one network exactly when their first
   * 64 bits agree, whatever form, case, padding, zone or blanks they are written with.
   */
  lemma SameNetworkExactly(isIP: string -> nat, v: string, f: Form, fz: string, w: string, g: Form, gz: string)
    requires Writes(v, f, fz) && !Mapped(Trim(v)) && isIP(Trim(v)) == 6
    requires Writes(w, g, gz) && !Mapped(Trim(w)) && isIP(Trim(w)) == 6
    ensures |Meaning(f)| == |Meaning(g)| == 8
    ensures NetworkOf(isIP, v) == NetworkOf(isIP, w) <==> Meaning(f)[..4] == Meaning(g)[..4]
  {
    NetworkOfForm(isIP, v, f, fz);
    NetworkOfForm(isIP, w, g, gz);
    PrefixTextsDiffer(Meaning(f), Meaning(g));
  }

  /** What is taken as a mapped address: two colons, four letters f in either case, a colon, and a dotted quad to the end. */
  lemma MappedExactly(address: string)
    ensures Mapped(address)
       <==> && |address| >= 7 && address[..2] == "::" && (forall i :: 2 <= i < 6 ==> address[i] in {'f', 'F'})
            && address[6] == ':' && DottedQuad(address[7..])
  {
    if |address| == 7 {
      assert address[7..] == "" && Split("", '.') == [""];
    }
    assert forall c: char :: Lower(c) == 'f' <==> c in {'f', 'F'};
  }

  lemma AfterPrefix(prefix: string, rest: string)
    requires |prefix| == 7
    ensures (prefix + rest)[7..] == rest && (prefix + rest)[..2] == prefix[..2]
    ensures forall i :: 2 <= i <= 6 ==> (prefix + rest)[i] == prefix[i]
  {
  }

  /** An IPv4 address behind any spelling of the mapping prefix has the network of the bare address: itself. */
  lemma MappedIsIPv4(isIP: string -> nat, value: string, prefix: string, octets: seq<string>)
    requires Octets(octets) && isIP(Join(octets, '.')) == 4
    requires |prefix| == 7 && Trim(value) == prefix + Join(octets, '.')
    requires prefix[..2] == "::" && prefix[6] == ':' && forall i :: 2 <= i < 6 ==> prefix[i] in {'f', 'F'}
    ensures NetworkOf(isIP, value) == Join(octets, '.')
  {
    QuadOfOctets(octets);
    AfterPrefix(prefix, Join(octets, '.'));
    MappedExactly(Trim(value));
  }

  // ---------------------------------------------------------------- keys

  const KEY_LENGTH := 16

  predicate IsKey(s: string) {
    |s| == KEY_LENGTH && forall i :: 0 <= i < |s| ==> '0' <= s[i] <= '9' || 'a' <= s[i] <= 'f'
  }

  /** The key of an address under a keyed hash that writes lower-case hexadecimal; none when it is no address. */
  function KeyOf(isIP: string -> nat, hmac: string -> string, ip: string): Option<string> {
    var network := NetworkOf(isIP, ip);
    if network == "" then None
    else
      var digest := hmac(network);
      Some(if |digest| <= KEY_LENGTH then digest else digest[..KEY_LENGTH])
  }

  /** What a column stores: an address becomes its key, a key stays, anything else is nothing. */
  function StoredIpKey(keyOf: string -> Option<string>, value: Option<string>): string {
    if value.None? then ""
    else
      var text := Trim(value.value);
      if IsKey(text) then text
      else
        var key := keyOf(text);
        if key.Some? then key.value else ""
  }

  lemma KeyTrims(s: string)
    requires IsKey(s)
    ensures Trim(s) == s
  {
    assert !Blank(s[0]) && !Blank(s[|s| - 1]);
  }

  /**
   * However an address of one /64 network is written it has one key, and two networks share a key exactly when
   * their hashes begin alike.
   */
  lemma OneKeyPerNetwork(isIP: string -> nat, hmac: string -> string, v: string, f: Form, fz: string, w: string, g: Form, gz: string)
    requires Writes(v, f, fz) && !Mapped(Trim(v)) && isIP(Trim(v)) == 6
    requires Writes(w, g, gz) && !Mapped(Trim(w)) && isIP(Trim(w)) == 6
    requires forall s :: |hmac(s)| == 64
    ensures KeyOf(isIP, hmac, v) == Some(hmac(PrefixText(Meaning(f)))[..16])
    ensures KeyOf(isIP, hmac, w) == Some(hmac(PrefixText(Meaning(g)))[..16])
    ensures |Meaning(f)| == |Meaning(g)| == 8
    ensures Meaning(f)[..4] == Meaning(g)[..4] ==> KeyOf(isIP, hmac, v) == KeyOf(isIP, hmac, w)
    ensures Meaning(f)[..4] != Meaning(g)[..4] ==> PrefixText(Meaning(f)) != PrefixText(Meaning(g))
  {
    SameNetworkExactly(isIP, v, f, fz, w, g, gz);
    NetworkOfForm(isIP, v, f, fz);
    NetworkOfForm(isIP, w, g, gz);
    PrefixIsNotEmpty(Meaning(f));
    PrefixIsNotEmpty(Meaning(g));
  }

  lemma PrefixIsNotEmpty(blocks: seq<nat>)
    ensures PrefixText(blocks) != ""
  {
    var text := PrefixText(blocks);
    assert text[|text| - 1] == '4';
  }

  /** What is stored for an address, however it is written, is its key. */
  lemma AddressIsStoredAsKey(isIP: string -> nat, hmac: string -> string, value: string, f: Form, zone: string)
    requires Writes(value, f, zone) && !Mapped(Trim(value)) && isIP(Trim(value)) == 6
    requires forall s :: |hmac(s)| == 64
    ensures StoredIpKey(ip => KeyOf(isIP, hmac, ip), Some(value)) == hmac(PrefixText(Meaning(f)))[..16]
  {
    var text := Trim(value);
    TrimIsIdempotent(value);
    NetworkOfForm(isIP, text, f, zone);
    PrefixIsNotEmpty(Meaning(f));
    FormHasColon(f);
    assert ':' in text;
    NoColonInKey(text);
  }

  lemma NoColonInKey(text: string)
    requires ':' in text
    ensures !IsKey(text)
  {
  }

  lemma FormHasColon(f: Form)
    requires ValidForm(f)
    ensures ':' in Render(f)
  {
    if f.compressed {
      var middle := Middle(f);
      var i := |Join(f.front, ':')|;
      assert middle[i] == ':';
      assert Render(f)[i] == ':';
    } else if f.tail.Some? {
      var i := |Middle(f)|;
      assert Render(f)[i] == ':';
    } else {
      var first := f.front[0];
      assert Join(f.front, ':')[|first|] == ':';
      assert Render(f)[|first|] == ':';
    }
  }

  /** A text that is no address and no key is stored as nothing. */
  lemma OtherTextIsNotStored(isIP: string -> nat, hmac: string -> string, value: string)
    requires !IsKey(Trim(value)) && !Mapped(Trim(value)) && isIP(Trim(value)) != 4 && isIP(Trim(value)) != 6
    ensures StoredIpKey(ip => KeyOf(isIP, hmac, ip), Some(value)) == ""
  {
    TrimIsIdempotent(value);
  }

  /** Storing what was stored changes nothing, for any keying that answers with keys and nothing for no address. */
  lemma StoredTwiceIsStoredOnce(keyOf: string -> Option<string>, value: Option<string>)
    requires keyOf("") == None && forall ip :: keyOf(ip).Some? ==> IsKey(keyOf(ip).value)
    ensures StoredIpKey(keyOf, Some(StoredIpKey(keyOf, value))) == StoredIpKey(keyOf, value)
  {
    var stored := StoredIpKey(keyOf, value);
    if stored != "" {
      assert IsKey(stored);
      KeyTrims(stored);
    }
  }

  /** The keying of createIpKey is such a keying. */
  lemma KeysAreKeys(isIP: string -> nat, hmac: string -> string, ip: string)
    requires isIP("") == 0
    requires forall s :: |hmac(s)| == 64 && forall i :: 0 <= i < 64 ==> '0' <= hmac(s)[i] <= '9' || 'a' <= hmac(s)[i] <= 'f'
    ensures KeyOf(isIP, hmac, "") == None
    ensures KeyOf(isIP, hmac, ip).Some? ==> IsKey(KeyOf(isIP, hmac, ip).value)
  {
    assert Trim("") == "";
  }
}
