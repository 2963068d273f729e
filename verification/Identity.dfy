/** Values that may be missing, and outcomes that may be errors. */
module Outcomes {
  datatype Option<+T> = None | Some(value: T)
  datatype Result<+T, +E> = Ok(value: T) | Err(error: E)

  function Get<K, V>(m: map<K, V>, k: K): Option<V> {
    if k in m then Some(m[k]) else None
  }
}

/** Client identities (client.rs), signed requests (client_api.rs) and the owner-signed leases
    that nodes gossip (gossip.rs). */
module Identity {
  import opened Bytes
  import opened Outcomes
  import opened Tokens

  /** A domain name, as the bytes of its UTF-8 text; Rust compares such strings bytewise. */
  type Domain = seq<byte>

  type Millis = u64

  datatype RecordType = A | Aaaa | Cname | Mx | Txt | Ns

  datatype Record = Record(name: seq<byte>, recordType: RecordType, ttlSecs: u32, value: seq<byte>)

  // ---------------------------------------------------------------- client keys and hosts

  function HexDigit(n: nat): char
    requires n < 16
  {
    "0123456789abcdef"[n]
  }

  lemma HexDigitInjective(m: nat, n: nat)
    requires m < 16 && n < 16 && HexDigit(m) == HexDigit(n)
    ensures m == n
  {
  }

  function Hex(bytes: seq<byte>): (text: string)
    ensures |text| == 2 * |bytes|
  {
    if bytes == [] then "" else [HexDigit(bytes[0] / 16), HexDigit(bytes[0] % 16)] + Hex(bytes[1..])
  }

  lemma {:induction false} HexInjective(a: seq<byte>, b: seq<byte>)
    requires Hex(a) == Hex(b)
    ensures a == b
  {
    assert |a| == |b|;
    if a != [] {
      HexDigitInjective(a[0] / 16, b[0] / 16) by { assert Hex(a)[0] == Hex(b)[0]; }
      HexDigitInjective(a[0] % 16, b[0] % 16) by { assert Hex(a)[1] == Hex(b)[1]; }
      HexInjective(a[1..], b[1..]) by { assert Hex(a)[2..] == Hex(a[1..]) && Hex(b)[2..] == Hex(b[1..]); }
      assert a == [a[0]] + a[1..] && b == [b[0]] + b[1..];
    }
  }

  datatype ClientIdentity = ClientIdentity(verifyingKey: seq<byte>, rdns: string)

  function ClientKey(identity: ClientIdentity): string {
    Hex(identity.verifyingKey) + "@" + identity.rdns
  }

  /** The key string names one verifying key and one hostname, although a hostname may itself
      contain '@' or hexadecimal digits. */
  lemma ClientKeyDeterminesIdentity(a: ClientIdentity, b: ClientIdentity)
    requires |a.verifyingKey| == |b.verifyingKey|
    requires ClientKey(a) == ClientKey(b)
    ensures a == b
  {
    var n := 2 * |a.verifyingKey|;
    var x, y := ClientKey(a), ClientKey(b);
    HexInjective(a.verifyingKey, b.verifyingKey) by {
      assert x[..n] == Hex(a.verifyingKey) && y[..n] == Hex(b.verifyingKey);
    }
    assert x[n + 1..] == a.rdns && y[n + 1..] == b.rdns;
  }

  /** The value of a lower-case hexadecimal digit. */
  function DigitValue(c: char): Option<nat> {
    if '0' <= c <= '9' then Some(c as int - '0' as int)
    else if 'a' <= c <= 'f' then Some(c as int - 'a' as int + 10)
    else None
  }

  /** Two digits that read as the byte. */
  predicate ReadsAs(high: char, low: char, b: byte) {
    DigitValue(high).Some? && DigitValue(low).Some? && 16 * DigitValue(high).value + DigitValue(low).value == b
  }

  lemma DigitReads(n: nat)
    requires n < 16
    ensures DigitValue(HexDigit(n)) == Some(n)
  {
    if n < 10 {
      assert HexDigit(n) == ('0' as int + n) as char;
    } else {
      assert HexDigit(n) == ('a' as int + n - 10) as char;
    }
  }

  lemma DigitsRead(b: byte)
    ensures ReadsAs(HexDigit(b / 16), HexDigit(b % 16), b)
  {
    hide HexDigit, DigitValue;
    DigitReads(b / 16);
    DigitReads(b % 16);
  }

  lemma {:induction false} HexReads(bytes: seq<byte>, i: nat)
    requires i < |bytes|
    ensures ReadsAs(Hex(bytes)[2 * i], Hex(bytes)[2 * i + 1], bytes[i])
  {
    DigitsRead(bytes[0]);
    hide ReadsAs, HexDigit;
    if i > 0 {
      HexReads(bytes[1..], i - 1);
    }
  }

  /** The key string: the key's bytes, two lower-case hexadecimal digits each, an at sign, and the
      hostname as it is. */
  lemma ClientKeyReads(identity: ClientIdentity)
    ensures var text, n := ClientKey(identity), |identity.verifyingKey|;
            && |text| == 2 * n + 1 + |identity.rdns| && text[2 * n] == '@' && text[2 * n + 1..] == identity.rdns
            && forall i | 0 <= i < n :: ReadsAs(text[2 * i], text[2 * i + 1], identity.verifyingKey[i])
  {
    forall i | 0 <= i < |identity.verifyingKey|
      ensures ReadsAs(ClientKey(identity)[2 * i], ClientKey(identity)[2 * i + 1], identity.verifyingKey[i])
    {
      HexReads(identity.verifyingKey, i);
    }
  }

  predicate IsWhitespace(c: char) {
    || '\U{9}' <= c <= '\U{d}' || c == ' ' || c == '\U{85}' || c == '\U{a0}' || c == '\U{1680}'
    || '\U{2000}' <= c <= '\U{200a}' || c == '\U{2028}' || c == '\U{2029}' || c == '\U{202f}'
    || c == '\U{205f}' || c == '\U{3000}'
  }

  function TrimStart(s: string): string {
    if s != "" && IsWhitespace(s[0]) then TrimStart(s[1..]) else s
  }

  function TrimEnd(s: string): string {
    if s != "" && IsWhitespace(s[|s| - 1]) then TrimEnd(s[..|s| - 1]) else s
  }

  function TrimDots(s: string): string {
    if s != "" && s[|s| - 1] == '.' then TrimDots(s[..|s| - 1]) else s
  }

  function LowerChar(c: char): char {
    if 'A' <= c <= 'Z' then ((c as int) + 32) as char else c
  }

  function Lower(s: string): string {
    seq(|s|, i requires 0 <= i < |s| => LowerChar(s[i]))
  }

  type Host = string

  /** `quota_key`: the host that pays for a registration, from the claimed hostname. */
  function QuotaKey(rdns: string): Host {
    Lower(TrimDots(TrimEnd(TrimStart(rdns))))
  }

  ghost predicate AllWhitespace(s: string) {
    forall c | c in s :: IsWhitespace(c)
  }

  ghost predicate AllDots(s: string) {
    forall c | c in s :: c == '.'
  }

  /** The same text, with the letters A to Z made small. */
  ghost predicate IsLowered(s: string, t: string) {
    && |s| == |t|
    && forall i | 0 <= i < |s| ::
         if 'A' <= s[i] <= 'Z' then t[i] as int - 'a' as int == s[i] as int - 'A' as int else t[i] == s[i]
  }

  /** A hostname in its whitespace: what counts of it, and the dots after that. */
  ghost predicate Consists(rdns: string, before: string, core: string, dots: string, after: string) {
    && rdns == before + core + dots + after
    && AllWhitespace(before) && AllDots(dots) && AllWhitespace(after)
    && (core != "" ==> !IsWhitespace(core[0]) && core[|core| - 1] != '.')
    && (core != "" && dots == "" ==> !IsWhitespace(core[|core| - 1]))
  }

  lemma {:induction false} StartTrimmed(before: string, rest: string)
    requires AllWhitespace(before) && (rest != "" ==> !IsWhitespace(rest[0]))
    ensures TrimStart(before + rest) == rest
  {
    if before == "" {
      assert before + rest == rest;
    } else {
      assert before[0] in before;
      assert (before + rest)[1..] == before[1..] + rest;
      StartTrimmed(before[1..], rest);
    }
  }

  lemma {:induction false} EndTrimmed(rest: string, after: string)
    requires AllWhitespace(after) && (rest != "" ==> !IsWhitespace(rest[|rest| - 1]))
    ensures TrimEnd(rest + after) == rest
  {
    if after == "" {
      assert rest + after == rest;
    } else {
      var init := after[..|after| - 1];
      assert after[|after| - 1] in after;
      assert (rest + after)[..|rest + after| - 1] == rest + init;
      EndTrimmed(rest, init);
    }
  }

  lemma {:induction false} DotsTrimmed(rest: string, dots: string)
    requires AllDots(dots) && (rest != "" ==> rest[|rest| - 1] != '.')
    ensures TrimDots(rest + dots) == rest
  {
    if dots == "" {
      assert rest + dots == rest;
    } else {
      var init := dots[..|dots| - 1];
      assert dots == init + [dots[|dots| - 1]];
      assert dots[|dots| - 1] in dots;
      forall c | c in init
        ensures c == '.'
      {
        assert c in dots;
      }
      assert (rest + dots)[..|rest + dots| - 1] == rest + init;
      DotsTrimmed(rest, init);
    }
  }

  lemma {:induction false} SplitStart(s: string) returns (before: string)
    ensures s == before + TrimStart(s) && AllWhitespace(before)
    ensures TrimStart(s) != "" ==> !IsWhitespace(TrimStart(s)[0])
  {
    if s != "" && IsWhitespace(s[0]) {
      var more := SplitStart(s[1..]);
      before := [s[0]] + more;
    } else {
      before := "";
    }
  }

  lemma {:induction false} SplitEnd(s: string) returns (after: string)
    ensures s == TrimEnd(s) + after && AllWhitespace(after)
    ensures TrimEnd(s) != "" ==> !IsWhitespace(TrimEnd(s)[|TrimEnd(s)| - 1])
  {
    if s != "" && IsWhitespace(s[|s| - 1]) {
      var more := SplitEnd(s[..|s| - 1]);
      after := more + [s[|s| - 1]];
    } else {
      after := "";
    }
  }

  lemma {:induction false} SplitDots(s: string) returns (dots: string)
    ensures s == TrimDots(s) + dots && AllDots(dots)
    ensures TrimDots(s) != "" ==> TrimDots(s)[|TrimDots(s)| - 1] != '.'
  {
    if s != "" && s[|s| - 1] == '.' {
      var more := SplitDots(s[..|s| - 1]);
      dots := more + [s[|s| - 1]];
    } else {
      dots := "";
    }
  }

  lemma TrimmedTo(rdns: string, before: string, core: string, dots: string, after: string)
    requires Consists(rdns, before, core, dots, after)
    ensures TrimDots(TrimEnd(TrimStart(rdns))) == core
  {
    hide TrimStart, TrimEnd, TrimDots, IsWhitespace;
    if core == "" && dots == "" {
      assert rdns == (before + after) + "";
      assert "" + "" == "";
      StartTrimmed(before + after, "");
      EndTrimmed("", "");
      DotsTrimmed("", "");
    } else {
      var rest := core + dots + after;
      assert rdns == before + rest;
      assert rest[0] == if core != "" then core[0] else dots[0];
      assert core == "" ==> dots[0] in dots;
      assert dots != "" ==> dots[|dots| - 1] in dots;
      DotIsNoSpace();
      StartTrimmed(before, rest);
      EndTrimmed(core + dots, after);
      DotsTrimmed(core, dots);
    }
  }

  lemma DotIsNoSpace()
    ensures !IsWhitespace('.')
  {
  }

  lemma TrimmedFrom(rdns: string) returns (before: string, dots: string, after: string)
    ensures Consists(rdns, before, TrimDots(TrimEnd(TrimStart(rdns))), dots, after)
  {
    hide TrimStart, TrimEnd, TrimDots, IsWhitespace;
    before := SplitStart(rdns);
    after := SplitEnd(TrimStart(rdns));
    dots := SplitDots(TrimEnd(TrimStart(rdns)));
    var core := TrimDots(TrimEnd(TrimStart(rdns)));
    assert rdns == before + (core + dots + after);
    assert rdns == before + core + dots + after;
    if core != "" {
      assert core[0] == TrimStart(rdns)[0];
      if dots == "" {
        assert core == TrimEnd(TrimStart(rdns));
      }
    }
  }

  lemma LoweredIff(s: string, t: string)
    ensures Lower(s) == t <==> IsLowered(s, t)
  {
    if IsLowered(s, t) {
      forall i | 0 <= i < |s|
        ensures Lower(s)[i] == t[i]
      {
      }
    }
  }

  /** The host that a hostname counts for is what is left of it without the whitespace around it, without
      the dots that then end it, and with small letters: neither case nor a trailing dot makes another
      host. */
  lemma HostIsTheCore(rdns: string, h: Host)
    ensures QuotaKey(rdns) == h
            <==> exists before, core, dots, after :: Consists(rdns, before, core, dots, after) && IsLowered(core, h)
  {
    var before, dots, after := TrimmedFrom(rdns);
    hide Consists, TrimStart, TrimEnd, TrimDots, IsLowered, Lower;
    LoweredIff(TrimDots(TrimEnd(TrimStart(rdns))), h);
    forall b, core, d, a | Consists(rdns, b, core, d, a)
      ensures core == TrimDots(TrimEnd(TrimStart(rdns)))
    {
      TrimmedTo(rdns, b, core, d, a);
    }
  }

  // ---------------------------------------------------------------- signatures

  /** What the signing client commits to. */
  datatype Message =
    | ProbeMessage(at: Millis)
    | RegisterMessage(domain: Domain, at: Millis)
    | SetRecordsMessage(domain: Domain, records: seq<Record>, at: Millis)

  /** Ed25519 as far as this code sees it; every statement holds for every choice of these. */
  datatype Ed25519 = Ed25519(
    keyParses: seq<byte> -> bool,
    signatureParses: seq<byte> -> bool,
    verify: (seq<byte>, Message, seq<byte>) -> bool)
  {
    predicate Accepts(key: seq<byte>, message: Message, signature: seq<byte>) {
      signatureParses(signature) && verify(key, message, signature)
    }
  }

  datatype Envelope = Envelope(verifyingKey: seq<byte>, rdns: string, timestamp: Millis, signature: seq<byte>)

  datatype AuthError = Stale | MalformedKey | MalformedSignature | InvalidSignature

  const REQUEST_FRESHNESS_WINDOW := 10_000

  predicate IsFresh(timestamp: Millis, now: Millis) {
    (if now >= timestamp then now - timestamp else timestamp - now) <= REQUEST_FRESHNESS_WINDOW
  }

  function Authenticate(ed: Ed25519, envelope: Envelope, message: Message, now: Millis)
    : Result<ClientIdentity, AuthError>
  {
    if !IsFresh(envelope.timestamp, now) then Err(Stale)
    else if |envelope.verifyingKey| != 32 || !ed.keyParses(envelope.verifyingKey) then Err(MalformedKey)
    else if !ed.signatureParses(envelope.signature) then Err(MalformedSignature)
    else if !ed.verify(envelope.verifyingKey, message, envelope.signature) then Err(InvalidSignature)
    else Ok(ClientIdentity(envelope.verifyingKey, envelope.rdns))
  }

  // ---------------------------------------------------------------- leases

  datatype Rumor = Rumor(
    domain: Domain, token: Token, clientKey: string, ownerKey: seq<byte>, rdns: string,
    registeredAt: Millis, registrationSignature: seq<byte>,
    probedAt: Millis, probeSignature: seq<byte>,
    records: seq<Record>, recordsAt: Option<Millis>, recordsSignature: Option<seq<byte>>)

  /** The part of authorization that no refresh touches: the key string names the owner. */
  predicate NamesItsOwner(r: Rumor) {
    |r.ownerKey| == 32 && ClientKey(ClientIdentity(r.ownerKey, r.rdns)) == r.clientKey
  }

  predicate RecordsAuthorized(ed: Ed25519, r: Rumor) {
    match (r.recordsAt, r.recordsSignature)
    case (None, None) => r.records == []
    case (Some(at), Some(signature)) => ed.Accepts(r.ownerKey, SetRecordsMessage(r.domain, r.records, at), signature)
    case _ => false
  }

  predicate IsAuthorized(ed: Ed25519, r: Rumor) {
    && NamesItsOwner(r)
    && ed.keyParses(r.ownerKey)
    && ed.Accepts(r.ownerKey, RegisterMessage(r.domain, r.registeredAt), r.registrationSignature)
    && ed.Accepts(r.ownerKey, ProbeMessage(r.probedAt), r.probeSignature)
    && RecordsAuthorized(ed, r)
  }
}
