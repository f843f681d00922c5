/** Signed proof-of-work challenges and the record of those already spent. */
module ProofOfWork {
  import opened Text
  import opened Options
  import opened LeadingZeros
  import Base64Url

  datatype Challenge = Challenge(id: string, difficulty: int, issuedAt: int, signature: string)
  datatype NonceField = Number(n: int) | Words(text: string) | Missing
  datatype Proof = Proof(challenge: Option<string>, nonce: NonceField)
  datatype Verdict = Ok | Required | Invalid | Expired | Reused

  /** The keyed signature of a payload for a client address, and the hash of a challenge with its nonce. */
  datatype Setup = Setup(
    difficulty: int,
    ttlMs: int,
    sign: (string, string) -> string,
    digest: string -> seq<byte>)

  const MAX_SAFE_INTEGER := 9_007_199_254_740_991

  predicate WordChar(c: char) { 'A' <= c <= 'Z' || 'a' <= c <= 'z' || '0' <= c <= '9' || c == '_' || c == '-' }

  predicate Word(s: string, min: nat, max: nat) {
    min <= |s| <= max && forall i :: 0 <= i < |s| ==> WordChar(s[i])
  }

  function ParsePowChallenge(challenge: string): Option<Challenge> {
    var parts := Split(challenge, '.');
    if |parts| != 4 then None
    else
      var issuedAt, difficulty := ParseInt(parts[1]), ParseInt(parts[2]);
      if !Word(parts[0], 16, 64) then None
      else if issuedAt.None? || issuedAt.value <= 0 then None
      else if difficulty.None? || difficulty.value < 0 || difficulty.value > 32 then None
      else if !Word(parts[3], 32, 96) then None
      else Some(Challenge(parts[0], difficulty.value, issuedAt.value, parts[3]))
  }

  function NormalizePowNonce(field: NonceField): string {
    match field
    case Number(n) => if 0 <= n <= MAX_SAFE_INTEGER then Numeral(n, 10) else ""
    case Words(s) =>
      if s == "0" || (1 <= |s| <= 16 && s[0] != '0' && forall i :: 0 <= i < |s| ==> '0' <= s[i] <= '9') then s else ""
    case Missing => ""
  }

  function Payload(id: string, issuedAt: nat, difficulty: nat): string {
    id + "." + Numeral(issuedAt, 10) + "." + Numeral(difficulty, 10)
  }

  function CreateChallenge(setup: Setup, clientIp: string, id: string, now: nat): Option<string> {
    if setup.difficulty <= 0 then None
    else
      var payload := Payload(id, now, setup.difficulty);
      Some(payload + "." + setup.sign(clientIp, payload))
  }

  type Spent = map<string, int>

  function Pruned(spent: Spent, now: int): Spent { map id | id in spent && spent[id] > now :: spent[id] }

  function Submitted(proof: Proof): string { if proof.challenge.Some? then proof.challenge.value else "" }

  /** The work was done: the hash of the challenge with its nonce starts with enough zeros. */
  ghost predicate Worked(setup: Setup, proof: Proof, parsed: Challenge)
    requires parsed.difficulty >= 0
  {
    StartsWithZeros(setup.digest(Submitted(proof) + ":" + NormalizePowNonce(proof.nonce)), parsed.difficulty)
  }

  predicate WellSigned(setup: Setup, clientIp: string, parsed: Challenge)
    requires parsed.issuedAt >= 0 && parsed.difficulty >= 0
  {
    var expected := setup.sign(clientIp, Payload(parsed.id, parsed.issuedAt, parsed.difficulty));
    parsed.difficulty == setup.difficulty && expected != "" && expected == parsed.signature
  }

  /** One call of `verify`: what is spent afterwards, and the verdict. */
  ghost function Verified(setup: Setup, spent: Spent, clientIp: string, proof: Proof, now: int): (Spent, Verdict) {
    if setup.difficulty <= 0 then (spent, Ok)
    else
      var kept := Pruned(spent, now);
      var parsed := ParsePowChallenge(Submitted(proof));
      if parsed.None? || NormalizePowNonce(proof.nonce) == "" then (kept, Required)
      else
        var c := parsed.value;
        if !WellSigned(setup, clientIp, c) then (kept, Invalid)
        else if now < c.issuedAt || now - c.issuedAt > setup.ttlMs then (kept, Expired)
        else if c.id in kept then (kept, Reused)
        else if !Worked(setup, proof, c) then (kept, Invalid)
        else (kept[c.id := now + setup.ttlMs], Ok)
  }

  class ProofOfWork {
    const setup: Setup
    var usedChallenges: Spent

    constructor (setup: Setup)
      ensures this.setup == setup && usedChallenges == map[]
    {
      this.setup := setup;
      usedChallenges := map[];
    }

    method Prune(now: int)
      modifies this
      ensures usedChallenges == Pruned(old(usedChallenges), now)
    {
      ghost var all := usedChallenges;
      var left := usedChallenges.Keys;
      while left != {}
        invariant left <= all.Keys
        invariant usedChallenges == map id | id in all && (id in left || all[id] > now) :: all[id]
        decreases left
      {
        var id :| id in left;
        if usedChallenges[id] <= now { usedChallenges := usedChallenges - {id}; }
        left := left - {id};
      }
    }

    method Verify(clientIp: string, proof: Proof, now: int) returns (verdict: Verdict)
      modifies this
      ensures (usedChallenges, verdict) == Verified(setup, old(usedChallenges), clientIp, proof, now)
    {
      if setup.difficulty <= 0 { return Ok; }
      Prune(now);
      var challenge := Submitted(proof);
      var nonce := NormalizePowNonce(proof.nonce);
      var parsed := ParsePowChallenge(challenge);
      if parsed.None? || nonce == "" { return Required; }
      var c := parsed.value;
      if !WellSigned(setup, clientIp, c) { return Invalid; }
      if now < c.issuedAt || now - c.issuedAt > setup.ttlMs { return Expired; }
      if c.id in usedChallenges { return Reused; }
      var worked := HasLeadingZeroBits(setup.digest(challenge + ":" + nonce), c.difficulty);
      if !worked { return Invalid; }
      usedChallenges := usedChallenges[c.id := now + setup.ttlMs];
      verdict := Ok;
    }
  }

  // ---------------------------------------------------------------- an issued challenge is accepted

  lemma WordHasNoDot(s: string, min: nat, max: nat)
    requires Word(s, min, max)
    ensures '.' !in s
  {
  }

  lemma NumeralHasNoDot(n: nat)
    ensures '.' !in Numeral(n, 10)
  {
    NumeralDigits(n, 10);
    var s := Numeral(n, 10);
    assert forall i :: 0 <= i < |s| ==> LowerDigit(s[i], 10);
  }

  /** Which written challenges are read: the sizes, letters and numbers that are let through, and nothing else. */
  lemma ReadExactly(id: string, issuedAt: nat, difficulty: nat, signature: string)
    requires '.' !in id && '.' !in signature
    ensures ParsePowChallenge(Payload(id, issuedAt, difficulty) + "." + signature)
         == if 16 <= |id| <= 64 && Base64Url.Letters(id) && issuedAt >= 1 && difficulty <= 32
               && 32 <= |signature| <= 96 && Base64Url.Letters(signature)
            then Some(Challenge(id, difficulty, issuedAt, signature)) else None
  {
    var parts := [id, Numeral(issuedAt, 10), Numeral(difficulty, 10), signature];
    FourJoined(parts);
    NumeralHasNoDot(issuedAt);
    NumeralHasNoDot(difficulty);
    SplitJoin(parts, '.');
    ParseIntOfNumeral(issuedAt);
    ParseIntOfNumeral(difficulty);
    WordIsLetters(id, 16, 64);
    WordIsLetters(signature, 32, 96);
  }

  lemma WordIsLetters(text: string, min: nat, max: nat)
    ensures Word(text, min, max) <==> min <= |text| <= max && Base64Url.Letters(text)
  {
    assert forall c: char :: WordChar(c) <==> Base64Url.Sextet(c) < 64;
  }

  /** A challenge reads back as it was issued, as long as its difficulty is one the reader allows. */
  lemma IssuedReadsBack(setup: Setup, clientIp: string, id: string, now: nat)
    requires setup.difficulty > 0 && now > 0 && Word(id, 16, 64)
    requires Word(setup.sign(clientIp, Payload(id, now, setup.difficulty)), 32, 96)
    ensures var signature := setup.sign(clientIp, Payload(id, now, setup.difficulty));
            ParsePowChallenge(CreateChallenge(setup, clientIp, id, now).value)
            == if setup.difficulty <= 32 then Some(Challenge(id, setup.difficulty, now, signature)) else None
  {
    var signature := setup.sign(clientIp, Payload(id, now, setup.difficulty));
    WordHasNoDot(id, 16, 64);
    WordHasNoDot(signature, 32, 96);
    WordIsLetters(id, 16, 64);
    WordIsLetters(signature, 32, 96);
    ReadExactly(id, now, setup.difficulty, signature);
  }

  lemma FourJoined(parts: seq<string>)
    requires |parts| == 4
    ensures Join(parts, '.') == parts[0] + "." + parts[1] + "." + parts[2] + "." + parts[3]
  {
    assert parts[1..][1..] == parts[2..] && parts[2..][1..] == parts[3..];
    assert Join(parts[3..], '.') == parts[3];
    assert Join(parts[2..], '.') == parts[2] + "." + parts[3];
    assert Join(parts[1..], '.') == parts[1] + ("." + (parts[2] + "." + parts[3]));
  }

  /** Without a difficulty nothing is issued and everything is let through; with one, nothing is let through unproved. */
  lemma OffExactly(setup: Setup, spent: Spent, clientIp: string, id: string, now: nat)
    ensures CreateChallenge(setup, clientIp, id, now).None? <==> setup.difficulty <= 0
    ensures Verified(setup, spent, clientIp, Proof(None, Missing), now).1 == Ok <==> setup.difficulty <= 0
  {
    assert Split("", '.') == [""];
  }

  /** The identifiers that are drawn and the signatures that are made are of the sizes and letters that are read. */
  lemma DigestsAreWords(bytes: seq<Base64Url.Byte>)
    ensures |bytes| == 16 ==> Word(Base64Url.Encode(bytes), 16, 64)
    ensures |bytes| == 32 ==> Word(Base64Url.Encode(bytes), 32, 96)
  {
    Base64Url.EncodedIsLetters(bytes);
    WordIsLetters(Base64Url.Encode(bytes), 16, 64);
    WordIsLetters(Base64Url.Encode(bytes), 32, 96);
  }

  /** Issued and worked in time, a challenge not yet spent is accepted and then marked as spent. */
  lemma IssuedIsAccepted(setup: Setup, spent: Spent, clientIp: string, id: string, issued: nat, nonce: NonceField, now: int)
    requires 0 < setup.difficulty <= 32 && issued > 0 && Word(id, 16, 64)
    requires Word(setup.sign(clientIp, Payload(id, issued, setup.difficulty)), 32, 96)
    requires NormalizePowNonce(nonce) != "" && id !in Pruned(spent, now)
    ensures var challenge := CreateChallenge(setup, clientIp, id, issued).value;
            var proof := Proof(Some(challenge), nonce);
            var (after, verdict) := Verified(setup, spent, clientIp, proof, now);
            && (verdict == Ok <==>
                  issued <= now <= issued + setup.ttlMs
                  && StartsWithZeros(setup.digest(challenge + ":" + NormalizePowNonce(nonce)), setup.difficulty))
            && (verdict == Ok ==> id in after && after[id] == now + setup.ttlMs)
  {
    IssuedReadsBack(setup, clientIp, id, issued);
  }

  /**
   * A nonce has one spelling: a text is taken exactly when it is the numeral of a number below 10^16, and a number
   * sent as a number is taken as its numeral.
   */
  lemma NonceIsNumeral(text: string, n: nat)
    ensures NormalizePowNonce(Words(text)) in {text, ""} && NormalizePowNonce(Number(n)) in {Numeral(n, 10), ""}
    ensures NormalizePowNonce(Words(text)) != "" <==> exists m: nat :: m < Pow10(16) && text == Numeral(m, 10)
    ensures NormalizePowNonce(Number(n)) != "" <==> n <= MAX_SAFE_INTEGER
    ensures n <= MAX_SAFE_INTEGER ==> NormalizePowNonce(Words(Numeral(n, 10))) == NormalizePowNonce(Number(n))
  {
    TenTo16();
    NumeralIsTaken(n);
    if NormalizePowNonce(Words(text)) != "" {
      CanonicalIsNumeral(text);
      NumeralLength(Value(text, 10), 16);
    }
    if m: nat :| m < Pow10(16) && text == Numeral(m, 10) { NumeralIsTaken(m); }
  }

  lemma NumeralIsTaken(n: nat)
    ensures n < Pow10(16) ==> NormalizePowNonce(Words(Numeral(n, 10))) == Numeral(n, 10)
  {
    NumeralIsCanonical(n);
    NumeralLength(n, 16);
  }

  /**
   * A proof is accepted exactly when its challenge reads as four parts whose last is the signature of the first
   * three for this client and this difficulty, it comes in time, its id is not marked, and the work was done.
   */
  lemma AcceptedExactly(setup: Setup, spent: Spent, clientIp: string, proof: Proof, now: int)
    requires setup.difficulty > 0
    ensures Verified(setup, spent, clientIp, proof, now).1 == Ok <==>
              var parsed := ParsePowChallenge(Submitted(proof));
              && parsed.Some? && NormalizePowNonce(proof.nonce) != ""
              && var c := parsed.value;
                 && c.difficulty == setup.difficulty
                 && c.signature == setup.sign(clientIp, c.id + "." + Numeral(c.issuedAt, 10) + "." + Numeral(c.difficulty, 10))
                 && c.issuedAt <= now <= c.issuedAt + setup.ttlMs
                 && !(c.id in spent && spent[c.id] > now)
                 && StartsWithZeros(setup.digest(Submitted(proof) + ":" + NormalizePowNonce(proof.nonce)), c.difficulty)
  {
  }

  // ---------------------------------------------------------------- a challenge is spent once

  datatype Call = Call(clientIp: string, proof: Proof, now: int)

  ghost function Step(setup: Setup, spent: Spent, call: Call): (Spent, Verdict) {
    Verified(setup, spent, call.clientIp, call.proof, call.now)
  }

  ghost function After(setup: Setup, spent: Spent, calls: seq<Call>): Spent
    decreases |calls|
  {
    if calls == [] then spent else After(setup, Step(setup, spent, calls[0]).0, calls[1..])
  }

  /** The clock never goes back. */
  ghost predicate Forward(from: int, calls: seq<Call>)
    decreases |calls|
  {
    calls == [] || (from <= calls[0].now && Forward(calls[0].now, calls[1..]))
  }

  function Parsed(call: Call): Option<Challenge> { ParsePowChallenge(Submitted(call.proof)) }

  lemma MarkStep(setup: Setup, spent: Spent, call: Call, id: string, until: int)
    requires setup.difficulty > 0 && id in spent && spent[id] >= until && call.now < until
    ensures id in Step(setup, spent, call).0 && Step(setup, spent, call).0[id] >= until
  {
    assert id in Pruned(spent, call.now);
  }

  /** A mark stays until the moment it is for. */
  lemma {:induction false} MarkStays(setup: Setup, spent: Spent, calls: seq<Call>, from: int, id: string, until: int, later: int)
    requires setup.difficulty > 0 && Forward(from, calls)
    requires id in spent && spent[id] >= until
    requires forall c :: c in calls ==> c.now <= later
    requires later < until
    ensures id in After(setup, spent, calls) && After(setup, spent, calls)[id] >= until
    decreases |calls|
  {
    if calls != [] {
      assert calls[0] in calls && forall c :: c in calls[1..] ==> c in calls;
      MarkStep(setup, spent, calls[0], id, until);
      MarkStays(setup, Step(setup, spent, calls[0]).0, calls[1..], calls[0].now, id, until, later);
    }
  }

  lemma {:induction false} ForwardBounds(from: int, calls: seq<Call>, last: Call)
    requires Forward(from, calls + [last])
    ensures Forward(from, calls) && from <= last.now
    ensures forall c :: c in calls ==> c.now <= last.now
    decreases |calls|
  {
    if calls != [] {
      assert (calls + [last])[1..] == calls[1..] + [last];
      ForwardBounds(calls[0].now, calls[1..], last);
    }
  }

  /**
   * Once an id was accepted, no challenge with that id is accepted for the whole of `ttlMs`, whoever sends it
   * and whatever issue time it carries.
   */
  lemma SpentIdRests(setup: Setup, spent: Spent, first: Call, between: seq<Call>, second: Call)
    requires setup.difficulty > 0 && Forward(first.now, between + [second])
    requires Step(setup, spent, first).1 == Ok && second.now < first.now + setup.ttlMs
    requires Parsed(second).Some? && Parsed(first).value.id == Parsed(second).value.id
    ensures Step(setup, After(setup, Step(setup, spent, first).0, between), second).1 != Ok
  {
    ForwardBounds(first.now, between, second);
    MarkStays(setup, Step(setup, spent, first).0, between, first.now, Parsed(first).value.id, first.now + setup.ttlMs, second.now);
  }

  /**
   * A challenge accepted once and then again must have been accepted at the very millisecond it was
   * issued, and again at the very last one it is valid: its mark ends one comparison too early.
   */
  lemma AcceptedTwiceOnlyAtTheEdges(setup: Setup, spent: Spent, first: Call, between: seq<Call>, second: Call)
    requires setup.difficulty > 0 && Forward(first.now, between + [second])
    requires Step(setup, spent, first).1 == Ok
    requires Step(setup, After(setup, Step(setup, spent, first).0, between), second).1 == Ok
    requires Parsed(first).value.id == Parsed(second).value.id
    requires Parsed(first).value.issuedAt == Parsed(second).value.issuedAt
    ensures first.now == Parsed(first).value.issuedAt
    ensures second.now == Parsed(first).value.issuedAt + setup.ttlMs
  {
    if second.now < first.now + setup.ttlMs { SpentIdRests(setup, spent, first, between, second); }
  }

  /** Accepted strictly after its issue, a challenge is never accepted again. */
  lemma NeverAgainAfterIssue(setup: Setup, spent: Spent, first: Call, between: seq<Call>, second: Call)
    requires setup.difficulty > 0 && Forward(first.now, between + [second])
    requires Step(setup, spent, first).1 == Ok && first.now > Parsed(first).value.issuedAt
    requires Parsed(second).Some? && Parsed(first).value.id == Parsed(second).value.id
    requires Parsed(first).value.issuedAt == Parsed(second).value.issuedAt
    ensures Step(setup, After(setup, Step(setup, spent, first).0, between), second).1 != Ok
  {
    if Step(setup, After(setup, Step(setup, spent, first).0, between), second).1 == Ok {
      AcceptedTwiceOnlyAtTheEdges(setup, spent, first, between, second);
    }
  }

  /** Sent again with nothing in between, an accepted proof is accepted exactly at those two edges. */
  lemma AcceptedAgainExactly(setup: Setup, spent: Spent, first: Call, now: int)
    requires setup.difficulty > 0 && Step(setup, spent, first).1 == Ok && first.now <= now
    ensures Step(setup, Step(setup, spent, first).0, first.(now := now)).1 == Ok
       <==> first.now == Parsed(first).value.issuedAt && now == Parsed(first).value.issuedAt + setup.ttlMs
  {
  }
}
