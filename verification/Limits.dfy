/** Where the node does less than its documentation promises, and exactly when. */
module Limits {
  import opened Bytes
  import opened Outcomes
  import opened Tokens
  import opened Collision
  import opened Identity
  import opened Registry
  import opened FirstFiveClaims
  import opened Sweeping
  import opened Runs
  import opened HostCap

  // ---------------------------------------------------------------- registering under a fresh key

  /** The step is a probe this node acknowledged, by the client with this key string. */
  predicate ProbesAs(ed: Ed25519, step: Step, key: string) {
    match step
    case ProbeStep(e, now) =>
      && Authenticate(ed, e, ProbeMessage(e.timestamp), now).Ok?
      && ClientKey(ClientIdentity(e.verifyingKey, e.rdns)) == key
    case _ => false
  }

  lemma OnlyProbesAreEvidence(ed: Ed25519, s: Store, step: Step)
    requires Enabled(s, step) && !step.ProbeStep?
    ensures Next(ed, s, step).evidence == s.evidence
  {
    match step
    case RegisterStep(e, domain, verified, now, order, nonce) =>
      var client := ClientIdentity(e.verifyingKey, e.rdns);
      HandleRegisterShape(ed, s, e, domain, verified, now, order, nonce);
      RegisterGrants(ed, s, domain, client, now, order, nonce);
      SweepClaims(ed, s, order, now);
    case SetRecordsStep(e, domain, records, now) => SetRecordsPublishes(ed, s, e, domain, records, now);
    case AdoptStep(r, now) =>
    case SweepStep(order, now) => SweepClaims(ed, s, order, now);
  }

  lemma NextEvidence(ed: Ed25519, s: Store, step: Step, key: string)
    requires Enabled(s, step)
    ensures key in Next(ed, s, step).evidence <==> key in s.evidence || ProbesAs(ed, step, key)
  {
    if !step.ProbeStep? {
      OnlyProbesAreEvidence(ed, s, step);
    }
  }

  ghost predicate EverProbed(ed: Ed25519, steps: seq<Step>, key: string) {
    exists i :: 0 <= i < |steps| && ProbesAs(ed, steps[i], key)
  }

  lemma EverProbedOneMore(ed: Ed25519, init: seq<Step>, last: Step, key: string)
    ensures EverProbed(ed, init + [last], key) <==> EverProbed(ed, init, key) || ProbesAs(ed, last, key)
  {
    var steps := init + [last];
    assert steps[|init|] == last;
    if i :| 0 <= i < |init| && ProbesAs(ed, init[i], key) {
      assert steps[i] == init[i];
    }
  }

  lemma {:induction false} EvidenceIffProbed(ed: Ed25519, steps: seq<Step>, key: string)
    requires ValidRun(ed, EMPTY, steps)
    ensures key in Run(ed, EMPTY, steps).evidence <==> EverProbed(ed, steps, key)
  {
    if steps != [] {
      var init, last := steps[..|steps| - 1], steps[|steps| - 1];
      EvidenceIffProbed(ed, init, key);
      NextEvidence(ed, Run(ed, EMPTY, init), last, key);
      EverProbedOneMore(ed, init, last, key);
      assert steps == init + [last];
    }
  }

  /** Liveness is recorded per host but probe evidence per owner key: in any run, granting a name
      stops the handler exactly when this owner key itself was never acknowledged, however recently
      the host was. */
  lemma GrantPanicsIffKeyNeverProbed(ed: Ed25519, steps: seq<Step>, e: Envelope, domain: Domain, now: Millis,
                                     order: seq<Host>, nonce: Nonce)
    requires ValidRun(ed, EMPTY, steps) && Enumerates(order, Run(ed, EMPTY, steps).claims.Keys)
    requires Authenticate(ed, e, RegisterMessage(domain, e.timestamp), now).Ok?
    requires Register(ed, Run(ed, EMPTY, steps), domain, ClientIdentity(e.verifyingKey, e.rdns), now, order,
        nonce).1.Ok?
    ensures HandleRegister(ed, Run(ed, EMPTY, steps), e, domain, true, now, order, nonce).1.Panicked?
            <==> !EverProbed(ed, steps, ClientKey(ClientIdentity(e.verifyingKey, e.rdns)))
  {
    var s, client := Run(ed, EMPTY, steps), ClientIdentity(e.verifyingKey, e.rdns);
    EvidenceIffProbed(ed, steps, ClientKey(client));
    RegisterGrants(ed, s, domain, client, now, order, nonce);
    SweepClaims(ed, s, order, now);
    var t := Register(ed, s, domain, client, now, order, nonce).0;
    assert t.evidence == s.evidence;
  }

  // ---------------------------------------------------------------- publishing records

  lemma FewAreAllKept(c: Claims)
    requires |c| <= MAX_REGISTRATIONS
    ensures FirstFive(c) == c
  {
    forall d | d in c
      ensures |Ahead(c, d)| < MAX_REGISTRATIONS
    {
      OutranksIsTotal(c, d, d);
      SubsetSize(Ahead(c, d), c.Keys - {d});
      assert |c.Keys - {d}| == |c| - 1;
    }
  }

  /** Alone on its name, a host keeps it through a sweep exactly while its claim is kept. */
  lemma {:induction false} SoleHolderSwept(slot: Option<Registration>, table: Table, order: seq<Host>, d: Domain,
                                           h: Host)
    requires BackedBy(slot, h) && forall g | Contends(table, d, g) :: g == h
    ensures SlotSweep(slot, table, order, d)
            == if h !in order then slot else if Contends(table, d, h) then Holding(table, d, h) else None
  {
    if order != [] {
      var init, last := order[..|order| - 1], order[|order| - 1];
      SoleHolderSwept(slot, table, init, d, h);
      assert order == init + [last];
      assert Contends(table, d, last) ==> last == h;
    }
  }

  /** The name is leased by one host whose claim, uncontested, is in force. */
  ghost predicate SafelyHeld(ed: Ed25519, s: Store, d: Domain, h: Host, key: string, now: Millis) {
    && Inv(ed, s)
    && Owns(s, d, key) && BackedBy(Get(s.registrations, d), h)
    && Claimed(s, h, d) && s.claims[h][d].clientKey == key && InForce(ed, s.claims[h][d], now)
    && (forall g | Claimed(s, g, d) :: g == h)
    && h !in Expired(s, now)
  }

  predicate OldRecordsStillSigned(ed: Ed25519, prior: Rumor, at: Millis, signature: seq<byte>) {
    ed.Accepts(prior.ownerKey, SetRecordsMessage(prior.domain, prior.records, at), signature)
  }

  /** The claim table keeps the old records under the new signature, so a safely held name whose
      owner publishes records is gone after the next sweep, unless the signature over the new records
      also covers the old ones. */
  lemma PublishedNameSurvivesIff(ed: Ed25519, s: Store, d: Domain, h: Host, key: string, records: seq<Record>,
                                 at: Millis, signature: seq<byte>, order: seq<Host>, now: Millis)
    requires SafelyHeld(ed, s, d, h, key, now)
    requires ed.Accepts(s.claims[h][d].ownerKey, SetRecordsMessage(d, records, at), signature)
    requires Enumerates(order, s.claims.Keys)
    ensures d in Sweep(ed, Publish(s, d, key, records, at, signature), order, now).registrations
            <==> OldRecordsStillSigned(ed, s.claims[h][d], at, signature)
  {
    var t := Publish(s, d, key, records, at, signature);
    var table := KeptTable(ed, t.claims, now);
    assert t.claims.Keys == s.claims.Keys;
    PublishedClaimKeptIff(ed, s, d, h, key, records, at, signature, now);
    assert BackedBy(Get(ExpireHosts(t, now).registrations, d), h);
    forall g | Contends(table, d, g)
      ensures g == h
    {
      PublishedSoleContender(ed, s, d, h, key, records, at, signature, now, g);
    }
    SweepAt(ed, t, order, now, d);
    SoleHolderSwept(Get(ExpireHosts(t, now).registrations, d), table, order, d, h);
  }

  lemma PublishedSoleContender(ed: Ed25519, s: Store, d: Domain, h: Host, key: string, records: seq<Record>,
                               at: Millis, signature: seq<byte>, now: Millis, g: Host)
    requires SafelyHeld(ed, s, d, h, key, now)
    requires Contends(KeptTable(ed, Publish(s, d, key, records, at, signature).claims, now), d, g)
    ensures g == h
  {
    hide InForce, Inv, ResignedClaims;
    var t := Publish(s, d, key, records, at, signature);
    RetainedIsInForce(ed, t.claims[g], now, d);
    ResignedSameNames(s.claims[g], d, key, at, signature);
    assert Claimed(s, g, d);
  }

  lemma ResignedIsInForceIff(ed: Ed25519, r: Rumor, key: string, at: Millis, signature: seq<byte>, now: Millis)
    requires InForce(ed, r, now) && r.clientKey == key
    ensures InForce(ed, Resigned(r, key, at, signature), now) <==> OldRecordsStillSigned(ed, r, at, signature)
  {
  }

  lemma SmallTableRetains(ed: Ed25519, c: Claims, now: Millis, d: Domain)
    requires |c| <= MAX_REGISTRATIONS && d in c
    ensures d in Retained(ed, c, now) <==> InForce(ed, c[d], now)
  {
    var standing := Standing(ed, c, now);
    SubsetSize(standing.Keys, c.Keys);
    FewAreAllKept(standing);
  }

  lemma PublishedClaimKeptIff(ed: Ed25519, s: Store, d: Domain, h: Host, key: string, records: seq<Record>,
                              at: Millis, signature: seq<byte>, now: Millis)
    requires SafelyHeld(ed, s, d, h, key, now)
    ensures var t := Publish(s, d, key, records, at, signature);
            h in t.claims
            && (d in Retained(ed, t.claims[h], now) <==> OldRecordsStillSigned(ed, s.claims[h][d], at, signature))
  {
    var t := Publish(s, d, key, records, at, signature);
    PublishSameShape(s, d, key, records, at, signature);
    SameShapeKeeps(s, t);
    assert t.claims[h][d] == Resigned(s.claims[h][d], key, at, signature);
    ResignedIsInForceIff(ed, s.claims[h][d], key, at, signature, now);
    SmallTableRetains(ed, t.claims[h], now, d);
  }

  /** A signature covers one list of records. */
  ghost predicate Binding(ed: Ed25519, key: seq<byte>, d: Domain, at: Millis, signature: seq<byte>) {
    forall x, y | ed.Accepts(key, SetRecordsMessage(d, x, at), signature)
                  && ed.Accepts(key, SetRecordsMessage(d, y, at), signature) :: x == y
  }

  /** With signatures that cover one list of records each, publishing costs the name at the next sweep
      exactly when it changes the records. */
  lemma PublishingChangesCostTheName(ed: Ed25519, s: Store, d: Domain, h: Host, key: string, records: seq<Record>,
                                     at: Millis, signature: seq<byte>, order: seq<Host>, now: Millis)
    requires SafelyHeld(ed, s, d, h, key, now)
    requires ed.Accepts(s.claims[h][d].ownerKey, SetRecordsMessage(d, records, at), signature)
    requires Binding(ed, s.claims[h][d].ownerKey, d, at, signature)
    requires Enumerates(order, s.claims.Keys)
    ensures d in Sweep(ed, Publish(s, d, key, records, at, signature), order, now).registrations
            <==> records == s.claims[h][d].records
  {
    PublishedNameSurvivesIff(ed, s, d, h, key, records, at, signature, order, now);
    assert Filed(s.claims[h][d], h, d);
  }

  // ---------------------------------------------------------------- three tokens

  /** Tokens issued one millisecond apart with equal nonces: the middle one is the odd one out. */
  lemma ThreeTokensInACircle(n: Nonce)
    ensures Withstands(Token(0, n), Token(1, n))
    ensures Withstands(Token(1, n), Token(2, n))
    ensures Withstands(Token(2, n), Token(0, n))
    ensures !Withstands(Token(0, n), Token(2, n)) && !Withstands(Token(1, n), Token(0, n))
  {
    IssuedAMillisecondApart(0, n);
    IssuedAMillisecondApart(1, n);
    var a, b, c := Token(0, n), Token(1, n), Token(2, n);
    PrecedesIsTransitive(a, b, c);
    NegotiateIsSymmetric(a, b);
    NegotiateIsSymmetric(c, a);
  }

  lemma EvenAlternates(t: Millis, n: Nonce)
    requires t < 2
    ensures Even(Token(t, n)) != Even(Token(t + 1, n))
  {
    var x := t + Sum(n);
    assert (x % 2 == 0) != ((x + 1) % 2 == 0);
  }

  lemma IssuedAMillisecondApart(t: Millis, n: Nonce)
    requires t < 2
    ensures Precedes(Token(t, n), Token(t + 1, n)) && Even(Token(t, n)) != Even(Token(t + 1, n))
    ensures Withstands(Token(t, n), Token(t + 1, n))
  {
    EvenAlternates(t, n);
    OrderingKeyIsTimeThenNonce(Token(t, n), Token(t + 1, n));
    NegotiateIsSymmetric(Token(t, n), Token(t + 1, n));
  }
}
