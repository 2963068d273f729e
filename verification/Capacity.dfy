/** How many names a host can come to hold when leases also arrive by gossip, and which of the names
    it registers are leased. */
module Capacity {
  import opened Outcomes
  import opened Tokens
  import opened Collision
  import opened Identity
  import opened Registry
  import opened FirstFiveClaims
  import opened Sweeping
  import opened Runs
  import opened HostCap
  import opened Limits

  // ---------------------------------------------------------------- ten names at most

  lemma UnionSize<T>(a: set<T>, b: set<T>)
    ensures |a + b| <= |a| + |b|
  {
    assert a + b == a + (b - a);
    assert |a + (b - a)| == |a| + |b - a|;
    SubsetSize(b - a, b);
  }

  /** Whatever is registered and gossiped, no host ever holds more than ten names: as many without a
      lease as its counter says, and as many with one as it has claims. */
  lemma HeldAtMostTen(ed: Ed25519, steps: seq<Step>, h: Host)
    requires ValidRun(ed, EMPTY, steps)
    ensures var s := Run(ed, EMPTY, steps);
            |Held(s, h)| <= Count(s, h) + |ClaimsOf(s, h)| <= 10
  {
    var s := Run(ed, EMPTY, steps);
    RunKeepsInv(ed, steps);
    HeldIsTaken(ed, s, h);
    TakenParts(ed, s, h);
    hide Run, ValidRun, Inv, Held, Taken;
    SubsetSize(Held(s, h), Taken(s, h));
  }

  lemma TakenParts(ed: Ed25519, s: Store, h: Host)
    requires Inv(ed, s)
    ensures |Taken(s, h)| <= Count(s, h) + |ClaimsOf(s, h)|
    ensures Count(s, h) <= MAX_REGISTRATIONS && |ClaimsOf(s, h)| <= MAX_REGISTRATIONS
  {
    hide ClaimsFiled, LeasesCoupled, BackedAreClaimed, BareAreSeen, Bare;
    UnionSize(Bare(s, h), ClaimsOf(s, h).Keys);
    assert |ClaimsOf(s, h).Keys| == |ClaimsOf(s, h)|;
  }

  // ---------------------------------------------------------------- which granted names are leased

  predicate EvidenceSignedBy(ed: Ed25519, s: Store, client: ClientIdentity) {
    |client.verifyingKey| == 32 && ClientKey(client) in s.evidence ==>
      var (at, signature) := s.evidence[ClientKey(client)];
      ed.Accepts(client.verifyingKey, ProbeMessage(at), signature)
  }

  /** Stored probe evidence is what its owner signed. */
  ghost predicate EvidenceSigned(ed: Ed25519, s: Store) {
    forall client :: EvidenceSignedBy(ed, s, client)
  }

  lemma ProbeKeepsSigned(ed: Ed25519, s: Store, e: Envelope, now: Millis)
    requires EvidenceSigned(ed, s)
    ensures EvidenceSigned(ed, HandleProbe(ed, s, e, now).0)
  {
    var t := HandleProbe(ed, s, e, now).0;
    if Authenticate(ed, e, ProbeMessage(e.timestamp), now).Ok? {
      var client := ClientIdentity(e.verifyingKey, e.rdns);
      assert t.evidence == s.evidence[ClientKey(client) := (e.timestamp, e.signature)];
      forall other: ClientIdentity
        ensures EvidenceSignedBy(ed, t, other)
      {
        assert EvidenceSignedBy(ed, s, other);
        if |other.verifyingKey| == 32 && ClientKey(other) == ClientKey(client) {
          ClientKeyDeterminesIdentity(other, client);
        }
      }
    }
  }

  lemma SameEvidenceSigned(ed: Ed25519, s: Store, t: Store)
    requires EvidenceSigned(ed, s) && t.evidence == s.evidence
    ensures EvidenceSigned(ed, t)
  {
    forall client
      ensures EvidenceSignedBy(ed, t, client)
    {
      assert EvidenceSignedBy(ed, s, client);
    }
  }

  lemma {:induction false} RunKeepsEvidenceSigned(ed: Ed25519, steps: seq<Step>)
    requires ValidRun(ed, EMPTY, steps)
    ensures EvidenceSigned(ed, Run(ed, EMPTY, steps))
  {
    if steps != [] {
      var init, last := steps[..|steps| - 1], steps[|steps| - 1];
      RunKeepsEvidenceSigned(ed, init);
      var s := Run(ed, EMPTY, init);
      if last.ProbeStep? {
        ProbeKeepsSigned(ed, s, last.envelope, last.now);
      } else {
        OnlyProbesAreEvidence(ed, s, last);
        SameEvidenceSigned(ed, s, Next(ed, s, last));
      }
    }
  }

  /** A request for a name that the node granted. */
  ghost predicate Granted(ed: Ed25519, s: Store, e: Envelope, domain: Domain, now: Millis, order: seq<Host>,
                          nonce: Nonce) {
    && Enumerates(order, s.claims.Keys)
    && HandleRegister(ed, s, e, domain, true, now, order, nonce).1.Registered?
  }

  /** What granting does: sweep, enter the name without a lease, and submit the lease. */
  lemma GrantedShape(ed: Ed25519, s: Store, e: Envelope, domain: Domain, now: Millis, order: seq<Host>, nonce: Nonce)
    requires Granted(ed, s, e, domain, now, order, nonce)
    ensures var client := ClientOf(e);
            var swept := Sweep(ed, s, order, now);
            var granting := Granting(swept, domain, Unleased(client, Token(now, nonce)));
            && Authenticate(ed, e, RegisterMessage(domain, e.timestamp), now) == Ok(client)
            && domain !in swept.registrations && CanRegister(swept, QuotaKey(e.rdns), now)
            && ClientKey(client) in s.evidence && granting.evidence == s.evidence
            && HandleRegister(ed, s, e, domain, true, now, order, nonce)
               == (Submit(ed, granting, LeaseFor(e, client, domain, Token(now, nonce),
                   s.evidence[ClientKey(client)]), now), Registered(Token(now, nonce)))
  {
    hide Submit, Sweep;
    RegisterGrants(ed, s, domain, ClientOf(e), now, order, nonce);
    SweepClaims(ed, s, order, now);
  }

  /** A lease on a name just granted is in force exactly while its own key's probe is recent. */
  lemma GrantedLeaseInForceIff(ed: Ed25519, s: Store, e: Envelope, domain: Domain, now: Millis, order: seq<Host>,
                               nonce: Nonce)
    requires Granted(ed, s, e, domain, now, order, nonce) && EvidenceSigned(ed, s)
    requires ClientKey(ClientOf(e)) in s.evidence
    ensures var probe := s.evidence[ClientKey(ClientOf(e))];
            InForce(ed, LeaseFor(e, ClientOf(e), domain, Token(now, nonce), probe), now)
            <==> SaturatingSub(now, probe.0) <= LIVENESS_WINDOW
  {
    hide HandleRegister, Submit, Sweep, ClientKey, QuotaKey, CanRegister, Granting;
    GrantedShape(ed, s, e, domain, now, order, nonce);
    assert EvidenceSignedBy(ed, s, ClientOf(e));
  }

  lemma SubmittedSlot(ed: Ed25519, s: Store, r: Rumor, now: Millis, reg: Registration)
    requires Get(s.registrations, r.domain) == Some(reg) && reg.rumor.None? && reg.token == r.token
    ensures var h := QuotaKey(r.rdns);
            var u := Submit(ed, s, r, now);
            && h in u.claims && r.domain in u.registrations
            && (u.registrations[r.domain].rumor.Some? <==> r.domain in u.claims[h])
            && (u.registrations[r.domain]
                == if r.domain in u.claims[h] then FromRumor(u.claims[h][r.domain], h) else reg)
  {
    hide Retained, InForce, QuotaKey, ReconcileRegistrations;
    var h, filed := QuotaKey(r.rdns), Filing(s, r);
    var kept := Retained(ed, filed.claims[h], now);
    ReconcileAt(ed, filed, h, now, r.domain);
    if r.domain in kept {
      RetainedIsInForce(ed, filed.claims[h], now, r.domain);
      NegotiateIsSymmetric(r.token, r.token);
    }
  }

  lemma SubmittedIsKeptIff(ed: Ed25519, s: Store, r: Rumor, now: Millis)
    ensures var h := QuotaKey(r.rdns);
            var u := Submit(ed, s, r, now);
            && h in u.claims
            && (r.domain in u.claims[h] <==> InForce(ed, r, now) && |AheadOf(u.claims[h], r)| < MAX_REGISTRATIONS)
  {
    var h, filed := QuotaKey(r.rdns), Filing(s, r);
    var standing := Standing(ed, filed.claims[h], now);
    if InForce(ed, r, now) {
      assert Get(standing, r.domain) == Some(r);
      KeptUnlessOutranked(standing, r);
    } else {
      assert r.domain !in standing;
    }
  }

  /** In any run, a name just granted is held by the host and key that asked for it, under the token they
      are told, which is issued at that moment; and it carries a lease, so that gossip can spread it,
      exactly when its owner key itself was probed within the window and fewer than five claims of that
      host come before it. */
  lemma GrantedNameIsLeasedIff(ed: Ed25519, steps: seq<Step>, e: Envelope, domain: Domain, now: Millis,
                               order: seq<Host>, nonce: Nonce)
    requires ValidRun(ed, EMPTY, steps) && Granted(ed, Run(ed, EMPTY, steps), e, domain, now, order, nonce)
    ensures var s, h := Run(ed, EMPTY, steps), QuotaKey(e.rdns);
            var (u, reply) := HandleRegister(ed, s, e, domain, true, now, order, nonce);
            && ClientKey(ClientOf(e)) in s.evidence && h in u.claims
            && domain in Held(u, h) && u.registrations[domain].clientKey == ClientKey(ClientOf(e))
            && u.registrations[domain].token == Token(now, nonce) && reply == Registered(u.registrations[domain].token)
            && var probe := s.evidence[ClientKey(ClientOf(e))];
               var lease := LeaseFor(e, ClientOf(e), domain, Token(now, nonce), probe);
               u.registrations[domain].rumor.Some?
               <==> now - 60_000 <= probe.0 && |AheadOf(u.claims[h], lease)| < 5
  {
    var s, client, token := Run(ed, EMPTY, steps), ClientOf(e), Token(now, nonce);
    RunKeepsEvidenceSigned(ed, steps);
    GrantedShape(ed, s, e, domain, now, order, nonce);
    GrantedLeaseInForceIff(ed, s, e, domain, now, order, nonce);
    var granting := Granting(Sweep(ed, s, order, now), domain, Unleased(client, token));
    var lease := LeaseFor(e, client, domain, token, s.evidence[ClientKey(client)]);
    hide HandleRegister, Sweep, Granted, EvidenceSigned, Run, ValidRun, InForce, AheadOf;
    SubmittedSlot(ed, granting, lease, now, Unleased(client, token));
    SubmittedIsKeptIff(ed, granting, lease, now);
    KeptIsSubmitted(ed, granting, lease, now);
  }

  lemma KeptIsSubmitted(ed: Ed25519, s: Store, r: Rumor, now: Millis)
    ensures var c := Submit(ed, s, r, now).claims;
            QuotaKey(r.rdns) in c && (r.domain in c[QuotaKey(r.rdns)] ==> c[QuotaKey(r.rdns)][r.domain] == r)
  {
  }

  // ---------------------------------------------------------------- attaching

  /** Attaching a lease gives nobody the name: if it is registered afterwards, it was so before, under the
      same key and token. */
  lemma AttachingGivesNobodyTheName(ed: Ed25519, s: Store, r: Rumor, now: Millis)
    ensures var t := AttachRumor(ed, s, r, now);
            r.domain in t.registrations ==>
              && r.domain in s.registrations
              && t.registrations[r.domain].clientKey == s.registrations[r.domain].clientKey
              && t.registrations[r.domain].token == s.registrations[r.domain].token
  {
    hide Retained, QuotaKey, ReconcileRegistrations;
    var h, filed := QuotaKey(r.rdns), Filing(s, r);
    ReconcileAt(ed, filed, h, now, r.domain);
    if r.domain in Retained(ed, filed.claims[h], now) {
      RetainedIsInForce(ed, filed.claims[h], now, r.domain);
    }
    NegotiateIsSymmetric(r.token, r.token);
  }
}
