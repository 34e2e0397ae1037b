/**
  The second login step: time-based one-time passwords (RFC 6238, on top of RFC 4226), one-time
  recovery codes, and the challenges that tie a code to a password login.  HMAC-SHA-1, SHA-256
  and the stored secret are unknown functions; calls are taken one at a time.  Each of the three
  settings that a login reads may be lost: the code discards the error and goes on with an empty
  string, that is the empty key, step 0 or no recovery codes.
*/
module Login2FA {

  import opened Strings
  import opened Wrappers

  /** An HMAC-SHA-1 result. */
  type Mac = h: seq<bv8> | |h| == 20 witness seq(20, _ => 0)

  /** Signs a time step, or fails if the secret is not base32. */
  type Signer = int -> Option<Mac>

  /** `mac` signs with the stored secret, `blank` with the empty key; `digest` is HashRecoveryCode. */
  datatype Crypto = Crypto(mac: Signer, blank: Signer, digest: string -> string)

  /** Which of a login's reads fail. */
  datatype Lost = Lost(secret: bool, step: bool, codes: bool)

  function Key(c: Crypto, lost: Lost): Signer {
    if lost.secret then c.blank else c.mac
  }

  // ---------------------------------------------------------------- truncation

  function Offset(h: Mac): (o: int)
    ensures 0 <= o && o + 3 < 19
  {
    var low := h[19] & 0x0F;
    assert low <= 15;
    low as int
  }

  function Masked(a: bv8, b: bv8, c: bv8, d: bv8): bv32 {
    (((a & 0x7F) as bv32) << 24) | ((b as bv32) << 16) | ((c as bv32) << 8) | (d as bv32)
  }

  function Binary(h: Mac): bv32 {
    var o := Offset(h);
    Masked(h[o], h[o + 1], h[o + 2], h[o + 3])
  }

  function Truncate(h: Mac): (otp: nat)
    ensures otp < 1_000_000
  {
    (Binary(h) as int) % 1_000_000
  }

  /** Four bytes, most significant first. */
  function Word(a: bv8, b: bv8, c: bv8, d: bv8): bv32 {
    ((a as bv32) << 24) | ((b as bv32) << 16) | ((c as bv32) << 8) | (d as bv32)
  }

  function BigEndian(b: seq<bv8>): bv32
    requires |b| == 4
  {
    Word(b[0], b[1], b[2], b[3])
  }

  lemma MaskTop(a: bv8, b: bv8, c: bv8, d: bv8)
    ensures Masked(a, b, c, d) == Word(a, b, c, d) & 0x7FFF_FFFF
  {
  }

  function ClearTop(x: bv32): bv32 {
    x & 0x7FFF_FFFF
  }

  type Packing = (bv8, bv8, bv8, bv8) -> bv32

  ghost predicate DropsTopBit(masked: Packing, word: Packing, clear: bv32 -> bv32) {
    forall a, b, c, d :: masked(a, b, c, d) == clear(word(a, b, c, d))
  }

  /** The bytes at `o` are those of the slice, however they are packed. */
  lemma SliceAt(h: seq<bv8>, o: nat, masked: Packing, word: Packing, clear: bv32 -> bv32)
    requires o + 4 <= |h| && DropsTopBit(masked, word, clear)
    ensures var b := h[o..o + 4];
      masked(h[o], h[o + 1], h[o + 2], h[o + 3]) == clear(word(b[0], b[1], b[2], b[3]))
  {
    var b := h[o..o + 4];
    assert b[0] == h[o] && b[1] == h[o + 1] && b[2] == h[o + 2] && b[3] == h[o + 3];
    assert masked(b[0], b[1], b[2], b[3]) == clear(word(b[0], b[1], b[2], b[3]));
  }

  lemma MaskingDrops()
    ensures DropsTopBit(Masked, Word, ClearTop)
  {
    forall a, b, c, d ensures Masked(a, b, c, d) == ClearTop(Word(a, b, c, d)) { MaskTop(a, b, c, d); }
  }

  /** Section 5.3 of RFC 4226: the four bytes at the offset, without their top bit. */
  lemma DynamicTruncation(h: Mac)
    ensures Binary(h) == ClearTop(BigEndian(h[Offset(h)..Offset(h) + 4]))
  {
    MaskingDrops();
    SliceAt(h, Offset(h), Masked, Word, ClearTop);
  }

  /** The offset is given by the low four bits of the last byte. */
  lemma OffsetIsLowBits(h: Mac)
    ensures Offset(h) == h[19] as int % 16
  {
    LowBits(h[19]);
  }

  lemma LowBits(b: bv8)
    ensures (b & 0x0F) as int == b as int % 16
  {}

  function DigitChar(d: nat): (c: char)
    requires d < 10
    ensures '0' <= c <= '9' && c as int - '0' as int == d
  {
    (d + '0' as int) as char
  }

  /** The last `width` decimal digits of `n`. */
  function Decimal(n: nat, width: nat): (s: string)
    ensures |s| == width
  {
    if width == 0 then "" else Decimal(n / 10, width - 1) + [DigitChar(n % 10)]
  }

  function ReadDecimal(s: string): int {
    if s == [] then 0 else 10 * ReadDecimal(s[..|s| - 1]) + (s[|s| - 1] as int - '0' as int)
  }

  function Power10(k: nat): nat {
    if k == 0 then 1 else 10 * Power10(k - 1)
  }

  lemma {:induction false} DecimalRoundTrip(n: nat, width: nat)
    requires n < Power10(width)
    ensures ReadDecimal(Decimal(n, width)) == n
    ensures forall c | c in Decimal(n, width) :: '0' <= c <= '9'
    decreases width
  {
    if width > 0 {
      DecimalRoundTrip(n / 10, width - 1);
      var s := Decimal(n, width);
      assert s[..|s| - 1] == Decimal(n / 10, width - 1);
    }
  }

  function GenerateOTP(sign: Signer, step: int): Option<string> {
    match sign(step)
    case None => None
    case Some(h) => Some(Decimal(Truncate(h), 6))
  }

  /** The HMAC of the example in section 5.4 of RFC 4226. */
  const EXAMPLE: Mac := [0x1f, 0x86, 0x98, 0x69, 0x0e, 0x02, 0xca, 0x16, 0x61, 0x85,
                         0x50, 0xef, 0x7f, 0x19, 0xda, 0x8e, 0x94, 0x5b, 0x55, 0x5a]

  /** That section's example comes out as published. */
  lemma PublishedExample(sign: Signer, step: int)
    requires sign(step) == Some(EXAMPLE)
    ensures Offset(EXAMPLE) == 10 && Binary(EXAMPLE) == 0x50ef_7f19 && GenerateOTP(sign, step) == Some("872921")
  {
    LowBits(0x5a);
    assert EXAMPLE[10] == 0x50 && EXAMPLE[11] == 0xef && EXAMPLE[12] == 0x7f && EXAMPLE[13] == 0x19;
    assert Masked(0x50, 0xef, 0x7f, 0x19) == 0x50ef_7f19;
    assert Truncate(EXAMPLE) == 872921;
    assert Decimal(87, 2) == "87" && Decimal(8729, 4) == "8729" && Decimal(872921, 6) == "872921";
  }

  /** Six digits that spell the truncated value. */
  lemma OTPSpellsValue(sign: Signer, step: int)
    requires sign(step).Some?
    ensures var otp := GenerateOTP(sign, step);
      && otp.Some? && |otp.value| == 6 && (forall d | d in otp.value :: '0' <= d <= '9')
      && ReadDecimal(otp.value) == Truncate(sign(step).value)
  {
    assert Power10(6) == 1_000_000;
    DecimalRoundTrip(Truncate(sign(step).value), 6);
  }

  // ---------------------------------------------------------------- one code

  /** Unix seconds divided by 30 as Go divides, toward zero. */
  function StepOf(now: int): int {
    if now >= 0 then now / 30 else -((-now) / 30)
  }

  /** A time step is the half minute the clock is in; before 1970 the division rounds the other way. */
  lemma StepIsHalfMinute(now: int)
    ensures now >= 0 ==> StepOf(now) * 30 <= now < StepOf(now) * 30 + 30
    ensures now < 0 ==> StepOf(now) * 30 - 30 < now <= StepOf(now) * 30
  {}

  predicate Accepts(sign: Signer, code: string, lastStep: int, step: int) {
    |code| == 6 && step > lastStep && GenerateOTP(sign, step) == Some(code)
  }

  /** The first of the three steps around `now` that the code fits. */
  function Matched(sign: Signer, code: string, lastStep: int, now: int): Option<int> {
    var cur := StepOf(now);
    var clean := TrimSpace(code);
    if Accepts(sign, clean, lastStep, cur - 1) then Some(cur - 1)
    else if Accepts(sign, clean, lastStep, cur) then Some(cur)
    else if Accepts(sign, clean, lastStep, cur + 1) then Some(cur + 1)
    else None
  }

  lemma MatchedIff(sign: Signer, code: string, lastStep: int, now: int)
    ensures Matched(sign, code, lastStep, now).Some? <==> exists step ::
      StepOf(now) - 1 <= step <= StepOf(now) + 1 && Accepts(sign, TrimSpace(code), lastStep, step)
  {}

  /** It is the earliest step of the three that the code fits. */
  lemma MatchedIsEarliest(sign: Signer, code: string, lastStep: int, now: int)
    requires Matched(sign, code, lastStep, now).Some?
    ensures var step := Matched(sign, code, lastStep, now).value;
      && StepOf(now) - 1 <= step <= StepOf(now) + 1 && Accepts(sign, TrimSpace(code), lastStep, step)
      && forall k | StepOf(now) - 1 <= k < step :: !Accepts(sign, TrimSpace(code), lastStep, k)
  {}

  method ValidateTOTP(sign: Signer, code: string, lastStep: int, now: int) returns (valid: bool, matched: int)
    ensures valid <==> exists step ::
      StepOf(now) - 1 <= step <= StepOf(now) + 1 && Accepts(sign, TrimSpace(code), lastStep, step)
    ensures valid ==> matched > lastStep && StepOf(now) - 1 <= matched <= StepOf(now) + 1
    ensures Matched(sign, code, lastStep, now) == (if valid then Some(matched) else None)
  {
    MatchedIff(sign, code, lastStep, now);
    var clean := TrimSpace(code);
    if |clean| != 6 { return false, 0; }
    var currentStep := StepOf(now);
    var step := currentStep - 1;
    while step <= currentStep + 1
      invariant currentStep - 1 <= step <= currentStep + 2
      invariant step > currentStep - 1 ==> !Accepts(sign, clean, lastStep, currentStep - 1)
      invariant step > currentStep ==> !Accepts(sign, clean, lastStep, currentStep)
      invariant step > currentStep + 1 ==> !Accepts(sign, clean, lastStep, currentStep + 1)
    {
      if step > lastStep {
        var expected := GenerateOTP(sign, step);
        if expected.Some? && expected.value == clean {
          return true, step;
        }
      }
      step := step + 1;
    }
    return false, 0;
  }

  /** The hashes without the first occurrence of `h`. */
  function Without(hashes: seq<string>, h: string): seq<string> {
    if hashes == [] then []
    else if hashes[0] == h then hashes[1..]
    else [hashes[0]] + Without(hashes[1..], h)
  }

  method ValidateRecoveryCode(c: Crypto, code: string, stored: seq<string>)
    returns (valid: bool, remaining: seq<string>)
    ensures valid <==> c.digest(code) in stored
    ensures remaining == Without(stored, c.digest(code))
    ensures multiset(remaining) == multiset(stored) - (if valid then multiset{c.digest(code)} else multiset{})
  {
    var h := c.digest(code);
    WithoutRemovesOne(stored, h);
    var matchedIdx := IndexOf(stored, h);
    WithoutIsCut(stored, h, matchedIdx);
    if matchedIdx == |stored| { return false, stored; }
    remaining := AllBut(stored, matchedIdx);
    valid := true;
  }

  /** Where `h` first occurs, or the length. */
  method IndexOf(stored: seq<string>, h: string) returns (k: nat)
    ensures k <= |stored| && h !in stored[..k] && (k < |stored| ==> stored[k] == h)
    ensures k == |stored| <==> h !in stored
  {
    k := 0;
    while k < |stored| && stored[k] != h
      invariant 0 <= k <= |stored|
      invariant h !in stored[..k]
    {
      k := k + 1;
    }
    assert stored[..|stored|] == stored;
  }

  method AllBut(stored: seq<string>, k: nat) returns (remaining: seq<string>)
    requires k < |stored|
    ensures remaining == stored[..k] + stored[k + 1..]
  {
    remaining := [];
    var i := 0;
    while i < |stored|
      invariant 0 <= i <= |stored|
      invariant remaining == if i <= k then stored[..i] else stored[..k] + stored[k + 1..i]
    {
      if i != k { remaining := remaining + [stored[i]]; }
      i := i + 1;
    }
  }

  lemma {:induction false} WithoutIsCut(hashes: seq<string>, h: string, k: nat)
    requires k <= |hashes| && h !in hashes[..k] && (k < |hashes| ==> hashes[k] == h)
    ensures Without(hashes, h) == if k < |hashes| then hashes[..k] + hashes[k + 1..] else hashes
    decreases |hashes|
  {
    if hashes != [] && k > 0 {
      assert hashes[..k][0] == hashes[0];
      assert hashes[1..][..k - 1] == hashes[..k][1..];
      assert forall x | x in hashes[..k][1..] :: x in hashes[..k];
      WithoutIsCut(hashes[1..], h, k - 1);
      assert k < |hashes| ==> [hashes[0]] + (hashes[1..][..k - 1] + hashes[1..][k..]) == hashes[..k] + hashes[k + 1..];
      assert [hashes[0]] + hashes[1..] == hashes;
    }
  }

  lemma {:induction false} WithoutNothing(hashes: seq<string>, h: string)
    requires h !in hashes
    ensures Without(hashes, h) == hashes
  {
    if hashes != [] {
      WithoutNothing(hashes[1..], h);
      assert hashes[0] in hashes && [hashes[0]] + hashes[1..] == hashes;
    }
  }

  lemma {:induction false} WithoutRemovesOne(hashes: seq<string>, h: string)
    ensures multiset(Without(hashes, h)) == multiset(hashes) - multiset{h}
    ensures h !in hashes ==> Without(hashes, h) == hashes
  {
    if h !in hashes {
      WithoutNothing(hashes, h);
    } else if hashes[0] == h {
      assert hashes == [h] + hashes[1..];
    } else {
      WithoutRemovesOne(hashes[1..], h);
      assert hashes == [hashes[0]] + hashes[1..];
      assert multiset(hashes) == multiset{hashes[0]} + multiset(hashes[1..]);
    }
  }

  // ---------------------------------------------------------------- runs of calls

  datatype Challenge = Challenge(expiry: int, attempts: nat)

  datatype State = State(challenges: map<string, Challenge>, lastStep: int, recovery: seq<string>)

  /** A password login that issues a challenge, or a second step. */
  datatype Call = Issue(token: string, expiry: int) | Login(token: string, code: string, now: int, lost: Lost)

  datatype Answer =
    | Issued
    | Expired             // no such challenge, or it is too old
    | TooMany
    | ByTotp(step: int)   // session granted
    | ByRecovery(hash: string)
    | Wrong(remaining: int)

  const MAX_ATTEMPTS: nat := 5

  /** The challenge is there, in time and not used up. */
  predicate Live(s: State, token: string, now: int) {
    token in s.challenges && now <= s.challenges[token].expiry && s.challenges[token].attempts < MAX_ATTEMPTS
  }

  function StepRead(s: State, lost: Lost): int {
    if lost.step then 0 else s.lastStep
  }

  function CodesRead(s: State, lost: Lost): seq<string> {
    if lost.codes then [] else s.recovery
  }

  function Reply(c: Crypto, s: State, call: Call): Answer {
    match call
    case Issue(_, _) => Issued
    case Login(token, code, now, lost) =>
      if token !in s.challenges || now > s.challenges[token].expiry then Expired
      else if s.challenges[token].attempts >= MAX_ATTEMPTS then TooMany
      else
        var clean := TrimSpace(code);
        var m := Matched(Key(c, lost), clean, StepRead(s, lost), now);
        if m.Some? then ByTotp(m.value)
        else if c.digest(clean) in CodesRead(s, lost) then ByRecovery(c.digest(clean))
        else Wrong(MAX_ATTEMPTS - (s.challenges[token].attempts + 1))
  }

  function Next(c: Crypto, s: State, call: Call): State {
    match call
    case Issue(token, expiry) => s.(challenges := s.challenges[token := Challenge(expiry, 0)])
    case Login(token, code, now, lost) =>
      var closed := s.(challenges := s.challenges - {token});
      match Reply(c, s, call)
      case Issued => s
      case Expired => closed
      case TooMany => closed
      case ByTotp(step) => closed.(lastStep := step)
      case ByRecovery(hash) => closed.(recovery := Without(CodesRead(s, lost), hash))
      case Wrong(remaining) =>
        if remaining <= 0 || token !in s.challenges then closed
        else s.(challenges := s.challenges[token := s.challenges[token].(attempts := s.challenges[token].attempts + 1)])
  }

  function Replies(c: Crypto, s: State, calls: seq<Call>): (answers: seq<Answer>)
    ensures |answers| == |calls|
    decreases |calls|
  {
    if calls == [] then [] else [Reply(c, s, calls[0])] + Replies(c, Next(c, s, calls[0]), calls[1..])
  }

  function Final(c: Crypto, s: State, calls: seq<Call>): State
    decreases |calls|
  {
    if calls == [] then s else Final(c, Next(c, s, calls[0]), calls[1..])
  }

  /** The time steps of the accepted one-time passwords, in order. */
  function Steps(answers: seq<Answer>): seq<int> {
    if answers == [] then []
    else (if answers[0].ByTotp? then [answers[0].step] else []) + Steps(answers[1..])
  }

  predicate Rising(from: int, steps: seq<int>) {
    && (forall i | 0 <= i < |steps| :: steps[i] > from)
    && forall i, j | 0 <= i < j < |steps| :: steps[i] < steps[j]
  }

  /** What one call does to the stored step and to the stored hashes. */
  lemma OneCall(c: Crypto, s: State, call: Call)
    ensures var a, t := Reply(c, s, call), Next(c, s, call);
      && (a.ByTotp? ==> call.Login?)
      && (a.ByTotp? ==> t.lastStep == a.step > StepRead(s, call.lost))
      && (!a.ByTotp? ==> t.lastStep == s.lastStep)
      && (a.ByRecovery? ==> a.hash in s.recovery && t.recovery == Without(s.recovery, a.hash))
      && (!a.ByRecovery? ==> t.recovery == s.recovery)
  {
  }

  lemma StepsFront(a: Answer, rest: seq<Answer>)
    ensures Steps([a] + rest) == (if a.ByTotp? then [a.step] else []) + Steps(rest)
  {
    assert ([a] + rest)[1..] == rest;
  }

  function LastOf(from: int, steps: seq<int>): int {
    if steps == [] then from else steps[|steps| - 1]
  }

  /** A one-time password is accepted for a step that is not after the stored one. */
  predicate Replays(c: Crypto, s: State, call: Call) {
    Reply(c, s, call).ByTotp? && Reply(c, s, call).step <= s.lastStep
  }

  predicate NoReplay(c: Crypto, s: State, calls: seq<Call>)
    decreases |calls|
  {
    calls == [] || (!Replays(c, s, calls[0]) && NoReplay(c, Next(c, s, calls[0]), calls[1..]))
  }

  lemma RisingSplits(from: int, first: int, rest: seq<int>)
    ensures Rising(from, [first] + rest) <==> first > from && Rising(first, rest)
  {
    var all := [first] + rest;
    if Rising(from, all) {
      assert all[0] == first;
      forall i | 0 <= i < |rest| ensures rest[i] > first { assert all[i + 1] == rest[i]; }
      forall i, j | 0 <= i < j < |rest| ensures rest[i] < rest[j] {
        assert all[i + 1] == rest[i] && all[j + 1] == rest[j];
      }
    }
  }

  /**
    The stored step is that of the last accepted password.  Over a run of calls the accepted steps
    strictly increase, so that no step works twice, exactly if no call replays a step.
  */
  lemma {:induction false} StepsRise(c: Crypto, s: State, calls: seq<Call>)
    ensures Rising(s.lastStep, Steps(Replies(c, s, calls))) <==> NoReplay(c, s, calls)
    ensures Final(c, s, calls).lastStep == LastOf(s.lastStep, Steps(Replies(c, s, calls)))
    decreases |calls|
  {
    if calls != [] {
      var a, t := Reply(c, s, calls[0]), Next(c, s, calls[0]);
      var rest := Replies(c, t, calls[1..]);
      OneCall(c, s, calls[0]);
      StepsRise(c, t, calls[1..]);
      StepsFront(a, rest);
      if a.ByTotp? {
        RisingSplits(s.lastStep, a.step, Steps(rest));
      } else {
        assert [] + Steps(rest) == Steps(rest);
      }
    }
  }

  /** Without a lost read of the step nothing is ever replayed. */
  lemma {:induction false} StepReadsPreventReplay(c: Crypto, s: State, calls: seq<Call>)
    requires forall call | call in calls :: call.Login? ==> !call.lost.step
    ensures NoReplay(c, s, calls)
    ensures Rising(s.lastStep, Steps(Replies(c, s, calls)))
    decreases |calls|
  {
    StepsRise(c, s, calls);
    if calls != [] {
      OneCall(c, s, calls[0]);
      assert calls[0] in calls;
      StepReadsPreventReplay(c, Next(c, s, calls[0]), calls[1..]);
    }
  }

  predicate Signable(sign: Signer, step: int) {
    sign(step).Some?
  }

  ghost predicate CanReplay(c: Crypto, s: State, token: string, now: int, lost: Lost) {
    exists code :: Replays(c, s, Login(token, code, now, lost))
  }

  ghost predicate OldStepInWindow(sign: Signer, lastStep: int, now: int) {
    exists step :: StepOf(now) - 1 <= step <= StepOf(now) + 1 && 0 < step <= lastStep && Signable(sign, step)
  }

  /** The password of a step fits that step or an earlier one. */
  lemma OwnPassword(sign: Signer, step: int, lastStep: int, now: int) returns (code: string)
    requires StepOf(now) - 1 <= step <= StepOf(now) + 1 && lastStep < step && Signable(sign, step)
    ensures GenerateOTP(sign, step) == Some(code) && TrimSpace(code) == code
    ensures var m := Matched(sign, TrimSpace(code), lastStep, now); m.Some? && m.value <= step
  {
    code := GenerateOTP(sign, step).value;
    OTPSpellsValue(sign, step);
    assert !IsSpace(code[0]) && !IsSpace(code[5]) by { assert code[0] in code && code[5] in code; }
    assert TrimSpace(code) == code;
    assert Accepts(sign, code, lastStep, step);
  }

  lemma ReplayNeeds(c: Crypto, s: State, token: string, code: string, now: int, lost: Lost)
    requires Replays(c, s, Login(token, code, now, lost))
    ensures Live(s, token, now) && lost.step && OldStepInWindow(Key(c, lost), s.lastStep, now)
  {
    var step := Reply(c, s, Login(token, code, now, lost)).step;
    assert Matched(Key(c, lost), TrimSpace(code), StepRead(s, lost), now) == Some(step);
    assert Signable(Key(c, lost), step);
  }

  lemma OldStepReplays(c: Crypto, s: State, token: string, step: int, now: int, lost: Lost) returns (code: string)
    requires Live(s, token, now) && lost.step
    requires StepOf(now) - 1 <= step <= StepOf(now) + 1 && 0 < step <= s.lastStep && Signable(Key(c, lost), step)
    ensures Replays(c, s, Login(token, code, now, lost))
  {
    code := OwnPassword(Key(c, lost), step, 0, now);
  }

  /**
    The exact condition for a replay.  Some code lets a login in at a step that is not after the
    stored one exactly if the login meets a live challenge, its read of the stored step is lost, and
    one of the three steps around the clock is positive, not after the stored one, and can be signed.
  */
  lemma ReplayIff(c: Crypto, s: State, token: string, now: int, lost: Lost)
    ensures CanReplay(c, s, token, now, lost) <==>
      Live(s, token, now) && lost.step && OldStepInWindow(Key(c, lost), s.lastStep, now)
  {
    if CanReplay(c, s, token, now, lost) {
      var code :| Replays(c, s, Login(token, code, now, lost));
      ReplayNeeds(c, s, token, code, now, lost);
    } else if Live(s, token, now) && lost.step && OldStepInWindow(Key(c, lost), s.lastStep, now) {
      var step :| StepOf(now) - 1 <= step <= StepOf(now) + 1 && 0 < step <= s.lastStep && Signable(Key(c, lost), step);
      var code := OldStepReplays(c, s, token, step, now, lost);
    }
  }

  /** A password that was accepted is accepted again, under a new challenge, by a login that loses the step. */
  lemma UsedPasswordAgain(c: Crypto, s: State, first: Call, token: string, expiry: int)
    requires first.Login? && Reply(c, s, first).ByTotp? && Reply(c, s, first).step > 0 && first.now <= expiry
    ensures var t := Next(c, Next(c, s, first), Issue(token, expiry));
      Replays(c, t, Login(token, first.code, first.now, first.lost.(step := true)))
  {
    var step := Reply(c, s, first).step;
    TrimTwice(first.code);
    assert Accepts(Key(c, first.lost), TrimSpace(first.code), 0, step);
  }

  lemma {:induction false} Earlier(c: Crypto, s: State, calls: seq<Call>, i: nat)
    requires i < |calls|
    ensures Replies(c, s, calls)[i] == Reply(c, Final(c, s, calls[..i]), calls[i])
    decreases |calls|
  {
    if i > 0 {
      Earlier(c, Next(c, s, calls[0]), calls[1..], i - 1);
      assert calls[..i][1..] == calls[1..][..i - 1] && calls[..i][0] == calls[0];
    }
  }

  /**
    An accepted step is at most one away from the clock and after the step that was read, and its
    password under the secret that was read is the code that was sent.
  */
  lemma AcceptedInWindow(c: Crypto, s: State, calls: seq<Call>, i: nat)
    requires i < |calls| && Replies(c, s, calls)[i].ByTotp?
    ensures calls[i].Login?
    ensures var step, lost := Replies(c, s, calls)[i].step, calls[i].lost;
      && StepOf(calls[i].now) - 1 <= step <= StepOf(calls[i].now) + 1
      && step > StepRead(Final(c, s, calls[..i]), lost)
      && GenerateOTP(if lost.secret then c.blank else c.mac, step) == Some(TrimSpace(calls[i].code))
  {
    Earlier(c, s, calls, i);
    TrimTwice(calls[i].code);
  }

  function Used(answers: seq<Answer>): multiset<string> {
    if answers == [] then multiset{}
    else (if answers[0].ByRecovery? then multiset{answers[0].hash} else multiset{}) + Used(answers[1..])
  }

  lemma UsedFront(a: Answer, rest: seq<Answer>)
    ensures Used([a] + rest) == (if a.ByRecovery? then multiset{a.hash} else multiset{}) + Used(rest)
  {
    assert ([a] + rest)[1..] == rest;
  }

  lemma RecoveryStep(c: Crypto, s: State, call: Call)
    ensures var a := Reply(c, s, call);
      multiset(s.recovery)
      == multiset(Next(c, s, call).recovery) + (if a.ByRecovery? then multiset{a.hash} else multiset{})
  {
    OneCall(c, s, call);
    var a := Reply(c, s, call);
    if a.ByRecovery? { WithoutRemovesOne(s.recovery, a.hash); }
  }

  /** Every recovery login consumes one stored hash, and nothing else ever removes or adds one. */
  lemma {:induction false} RecoveryConserved(c: Crypto, s: State, calls: seq<Call>)
    ensures multiset(s.recovery) == multiset(Final(c, s, calls).recovery) + Used(Replies(c, s, calls))
    decreases |calls|
  {
    if calls != [] {
      var t := Next(c, s, calls[0]);
      RecoveryStep(c, s, calls[0]);
      RecoveryConserved(c, t, calls[1..]);
      UsedFront(Reply(c, s, calls[0]), Replies(c, t, calls[1..]));
    }
  }

  // ---------------------------------------------------------------- challenges

  predicate Grants(a: Answer) {
    a.ByTotp? || a.ByRecovery?
  }

  /** The code was looked at. */
  predicate Checked(a: Answer) {
    Grants(a) || a.Wrong?
  }

  /** How often the challenge `token` led to an answer that satisfies `f`. */
  function CountFor(calls: seq<Call>, answers: seq<Answer>, token: string, f: Answer -> bool): nat
    requires |calls| == |answers|
  {
    if calls == [] then 0
    else
      var one := if calls[0].Login? && calls[0].token == token && f(answers[0]) then 1 else 0;
      one + CountFor(calls[1..], answers[1..], token, f)
  }

  /** Code checks a challenge has left. */
  function Left(s: State, token: string): nat {
    if token in s.challenges && s.challenges[token].attempts < MAX_ATTEMPTS
    then MAX_ATTEMPTS - s.challenges[token].attempts
    else 0
  }

  predicate NotIssued(calls: seq<Call>, token: string) {
    forall i | 0 <= i < |calls| :: !(calls[i].Issue? && calls[i].token == token)
  }

  /**
    A challenge is issued with five checks.  Exactly while it is in time and has any left a code is
    checked; a wrong one uses up one of them and is told how many are left, and a right one ends it.
    No call touches the challenge of another token.
  */
  lemma ChecksAreCounted(c: Crypto, s: State, call: Call)
    ensures var a, t := Reply(c, s, call), Next(c, s, call);
      && (call.Issue? ==> Left(t, call.token) == 5 && t.challenges[call.token].expiry == call.expiry)
      && (call.Login? ==>
            (Checked(a) <==> Left(s, call.token) > 0 && call.now <= s.challenges[call.token].expiry))
      && (call.Login? && !Checked(a) ==> call.token !in t.challenges)
      && (a.Wrong? ==> a.remaining == Left(t, call.token) == Left(s, call.token) - 1)
      && (a.Wrong? && a.remaining > 0 ==> t.challenges[call.token].expiry == s.challenges[call.token].expiry)
      && (Grants(a) ==> call.token !in t.challenges)
      && t.challenges - {call.token} == s.challenges - {call.token}
  {
  }

  /**
    Who is let in.  A login whose code is checked gets in by the code of an unused step within one of
    the current one or, failing that, by a recovery code that is stored; by no other code.
  */
  lemma GrantedIff(c: Crypto, s: State, token: string, code: string, now: int, lost: Lost)
    requires Live(s, token, now)
    ensures var a, clean := Reply(c, s, Login(token, code, now, lost)), TrimSpace(code);
      && (a.ByTotp? <==> exists step ::
            StepOf(now) - 1 <= step <= StepOf(now) + 1 && Accepts(Key(c, lost), clean, StepRead(s, lost), step))
      && (a.ByRecovery? <==> !a.ByTotp? && c.digest(clean) in s.recovery && !lost.codes)
  {
    TrimTwice(code);
    MatchedIff(Key(c, lost), TrimSpace(code), StepRead(s, lost), now);
  }

  /** What one call, not the one that issues it, does to a challenge. */
  lemma ChallengeStep(c: Crypto, s: State, call: Call, token: string)
    requires !(call.Issue? && call.token == token)
    ensures var a, t := Reply(c, s, call), Next(c, s, call);
      && (token in t.challenges ==> token in s.challenges)
      && Left(t, token) <= Left(s, token)
      && (call.Login? && call.token == token && Grants(a) ==> token in s.challenges && token !in t.challenges)
      && (call.Login? && call.token == token && Checked(a) ==> Left(t, token) < Left(s, token))
  {
  }

  /** A challenge grants at most one session. */
  lemma {:induction false} OneSessionPerChallenge(c: Crypto, s: State, calls: seq<Call>, token: string)
    requires NotIssued(calls, token)
    ensures CountFor(calls, Replies(c, s, calls), token, Grants) <= (if token in s.challenges then 1 else 0)
    decreases |calls|
  {
    if calls != [] {
      var t := Next(c, s, calls[0]);
      assert Replies(c, s, calls)[1..] == Replies(c, t, calls[1..]);
      ChallengeStep(c, s, calls[0], token);
      OneSessionPerChallenge(c, t, calls[1..], token);
    }
  }

  /** A challenge lets at most five codes be checked, right or wrong. */
  lemma {:induction false} FiveAttemptsPerChallenge(c: Crypto, s: State, calls: seq<Call>, token: string)
    requires NotIssued(calls, token)
    ensures CountFor(calls, Replies(c, s, calls), token, Checked) <= Left(s, token) <= MAX_ATTEMPTS
    decreases |calls|
  {
    if calls != [] {
      var t := Next(c, s, calls[0]);
      assert Replies(c, s, calls)[1..] == Replies(c, t, calls[1..]);
      ChallengeStep(c, s, calls[0], token);
      FiveAttemptsPerChallenge(c, t, calls[1..], token);
    }
  }

  // ---------------------------------------------------------------- the handler

  /** The part of the server behind the second login step. */
  class Server {
    const crypto: Crypto
    var temp2FAChallenges: map<string, Challenge>
    var lastTotpStep: Option<int>      // the setting, if it was ever written
    var totpRecoveryCodes: seq<string>

    constructor (crypto: Crypto, codes: seq<string>)
      ensures this.crypto == crypto && Abs() == State(map[], 0, codes)
    {
      this.crypto := crypto;
      temp2FAChallenges, lastTotpStep, totpRecoveryCodes := map[], None, codes;
    }

    function Abs(): State
      reads this
    {
      State(temp2FAChallenges, if lastTotpStep.Some? then lastTotpStep.value else 0, totpRecoveryCodes)
    }

    /** The part after the attempt is counted. */
    method CheckCode(token: string, attempts: nat, code: string, now: int, lost: Lost) returns (a: Answer)
      modifies this
      ensures var s, clean := old(Abs()), TrimSpace(code);
        var m := Matched(Key(crypto, lost), clean, StepRead(s, lost), now);
        var closed := s.(challenges := s.challenges - {token});
        if m.Some? then a == ByTotp(m.value) && Abs() == closed.(lastStep := m.value)
        else if crypto.digest(clean) in CodesRead(s, lost) then
          && a == ByRecovery(crypto.digest(clean))
          && Abs() == closed.(recovery := Without(CodesRead(s, lost), crypto.digest(clean)))
        else
          && a == Wrong(MAX_ATTEMPTS - attempts)
          && Abs() == if MAX_ATTEMPTS - attempts <= 0 then closed else s
    {
      var cleanCode := TrimSpace(code);
      var lastStep := if lastTotpStep.Some? && !lost.step then lastTotpStep.value else 0;
      var valid, matched := ValidateTOTP(Key(crypto, lost), cleanCode, lastStep, now);
      if valid {
        lastTotpStep := Some(matched);
        temp2FAChallenges := temp2FAChallenges - {token};
        return ByTotp(matched);
      }
      var storedHashes := if lost.codes then [] else totpRecoveryCodes;
      var recValid, remaining := ValidateRecoveryCode(crypto, cleanCode, storedHashes);
      if recValid {
        totpRecoveryCodes := remaining;
        temp2FAChallenges := temp2FAChallenges - {token};
        return ByRecovery(crypto.digest(cleanCode));
      }
      var remainingAttempts := MAX_ATTEMPTS - attempts;
      if remainingAttempts <= 0 {
        temp2FAChallenges := temp2FAChallenges - {token};
      }
      return Wrong(remainingAttempts);
    }

    /** `lost` says which of the settings cannot be read. */
    method HandleLogin2FA(token: string, code: string, now: int, lost: Lost) returns (a: Answer)
      modifies this
      ensures a == Reply(crypto, old(Abs()), Login(token, code, now, lost))
      ensures Abs() == Next(crypto, old(Abs()), Login(token, code, now, lost))
    {
      if token !in temp2FAChallenges {
        assert temp2FAChallenges - {token} == temp2FAChallenges;
        return Expired;
      }
      var ch := temp2FAChallenges[token];
      if now > ch.expiry {
        temp2FAChallenges := temp2FAChallenges - {token};
        return Expired;
      }
      if ch.attempts >= MAX_ATTEMPTS {
        temp2FAChallenges := temp2FAChallenges - {token};
        return TooMany;
      }
      ghost var before := temp2FAChallenges;
      ch := ch.(attempts := ch.attempts + 1);
      temp2FAChallenges := temp2FAChallenges[token := ch];
      assert temp2FAChallenges - {token} == before - {token};
      a := CheckCode(token, ch.attempts, code, now, lost);
    }
  }
}
