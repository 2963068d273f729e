/** The cap of five names per host, in runs whose clock does not go back: what a host has taken never
    exceeds its counter, provided none of its own leases is heard from elsewhere and no probe is dated
    ahead. `Overflow` shows both provisos to be needed. */
module HostCap {
  import opened Bytes
  import opened Tokens
  import opened Identity
  import opened Registry
  import opened FirstFiveClaims
  import opened Sweeping
  import opened Runs

  function Held(s: Store, h: Host): set<Domain> {
    set d | d in s.registrations && s.registrations[d].host == h
  }

  function ClaimsOf(s: Store, h: Host): Claims {
    if h in s.claims then s.claims[h] else map[]
  }

  function ClientOf(e: Envelope): ClientIdentity {
    ClientIdentity(e.verifyingKey, e.rdns)
  }

  /** The names a host holds without a lease, and those it claims, held or not. */
  function Taken(s: Store, h: Host): set<Domain> {
    Bare(s, h) + ClaimsOf(s, h).Keys
  }

  lemma HeldIsTaken(ed: Ed25519, s: Store, h: Host)
    requires Inv(ed, s)
    ensures Held(s, h) <= Taken(s, h)
  {
    forall d | d in Held(s, h)
      ensures d in Taken(s, h)
    {
      if s.registrations[d].rumor.Some? {
        assert Claimed(s, s.registrations[d].host, d);
      }
    }
  }

  // ---------------------------------------------------------------- the invariant

  ghost predicate TakenCounted(s: Store, h: Host) {
    |Taken(s, h)| <= Count(s, h)
  }

  /** No lease of the host was probed later than the host was seen. */
  ghost predicate ClaimsSeen(s: Store, h: Host) {
    forall d | d in ClaimsOf(s, h) :: h in s.lastSeen && ClaimsOf(s, h)[d].probedAt <= s.lastSeen[h]
  }

  ghost predicate SeenBefore(s: Store, clock: Millis) {
    && (forall h | h in s.lastSeen :: s.lastSeen[h] <= clock)
    && (forall k | k in s.evidence :: s.evidence[k].0 <= clock)
  }

  predicate EvidenceSeen(s: Store, client: ClientIdentity) {
    |client.verifyingKey| == 32 && ClientKey(client) in s.evidence && QuotaKey(client.rdns) in s.lastSeen
    ==> s.evidence[ClientKey(client)].0 <= s.lastSeen[QuotaKey(client.rdns)]
  }

  ghost predicate AllEvidenceSeen(s: Store) {
    forall client :: EvidenceSeen(s, client)
  }

  ghost predicate CapInv(ed: Ed25519, s: Store, h: Host, clock: Millis) {
    && Inv(ed, s)
    && TakenCounted(s, h) && ClaimsSeen(s, h) && SeenBefore(s, clock) && AllEvidenceSeen(s)
  }

  lemma SameEvidence(s: Store, t: Store)
    requires AllEvidenceSeen(s) && t.evidence == s.evidence
    requires forall h | h in t.lastSeen :: h in s.lastSeen && t.lastSeen[h] == s.lastSeen[h]
    ensures AllEvidenceSeen(t)
  {
    forall client
      ensures EvidenceSeen(t, client)
    {
      assert EvidenceSeen(s, client);
    }
  }

  /** Taking nothing new keeps the host within its counter. */
  lemma TakenShrinks(s: Store, t: Store, h: Host)
    requires TakenCounted(s, h) && Taken(t, h) <= Taken(s, h) && Count(t, h) == Count(s, h)
    ensures TakenCounted(t, h)
  {
    SubsetSize(Taken(t, h), Taken(s, h));
  }

  // ---------------------------------------------------------------- reconciliation

  lemma ReconcileClaims(ed: Ed25519, s: Store, host: Host, now: Millis, h: Host, d: Domain)
    requires d in ClaimsOf(Reconcile(ed, s, host, now), h)
    ensures d in ClaimsOf(s, h) && ClaimsOf(Reconcile(ed, s, host, now), h)[d] == ClaimsOf(s, h)[d]
  {
    hide Retained, ReconcileRegistrations, InForce;
    if h == host {
      RetainedIsInForce(ed, s.claims[host], now, d);
    }
  }

  lemma ReconcileBare(ed: Ed25519, s: Store, host: Host, now: Millis, h: Host)
    ensures Bare(Reconcile(ed, s, host, now), h) <= Bare(s, h)
  {
    ReconcileKeepsBare(ed, s, host, now);
    hide Reconcile;
  }

  lemma ReconcileTakes(ed: Ed25519, s: Store, host: Host, now: Millis, h: Host)
    ensures var t := Reconcile(ed, s, host, now);
            && Taken(t, h) <= Taken(s, h)
            && (forall d | d in ClaimsOf(t, h) :: d in ClaimsOf(s, h) && ClaimsOf(t, h)[d] == ClaimsOf(s, h)[d])
            && t == s.(claims := t.claims, registrations := t.registrations)
  {
    var t := Reconcile(ed, s, host, now);
    assert t == s.(claims := t.claims, registrations := t.registrations) by {
      hide Retained, ReconcileRegistrations;
    }
    hide Reconcile, Bare, ClaimsOf;
    ReconcileBare(ed, s, host, now, h);
    forall d | d in ClaimsOf(t, h)
      ensures d in ClaimsOf(s, h) && ClaimsOf(t, h)[d] == ClaimsOf(s, h)[d]
    {
      ReconcileClaims(ed, s, host, now, h, d);
    }
  }

  lemma {:induction false} ReconcileAllTakes(ed: Ed25519, s: Store, order: seq<Host>, now: Millis, h: Host)
    ensures var t := ReconcileAll(ed, s, order, now);
            && Taken(t, h) <= Taken(s, h) && t == s.(claims := t.claims, registrations := t.registrations)
  {
    hide Taken, Reconcile;
    if order != [] {
      var init, last := order[..|order| - 1], order[|order| - 1];
      ReconcileAllTakes(ed, s, init, now, h);
      ReconcileTakes(ed, ReconcileAll(ed, s, init, now), last, now, h);
    }
  }

  // ---------------------------------------------------------------- sweeping

  lemma ExpiredClaimLapses(s: Store, now: Millis, h: Host, d: Domain)
    requires ClaimsSeen(s, h) && h in Expired(s, now) && d in ClaimsOf(s, h)
    ensures !LeaseIsLive(ClaimsOf(s, h)[d], now)
  {
  }

  lemma ExpiredClaimsLapse(ed: Ed25519, s: Store, now: Millis, h: Host)
    requires ClaimsSeen(s, h) && h in Expired(s, now) && h in s.claims
    ensures Retained(ed, s.claims[h], now) == map[]
  {
    hide FirstFive;
    forall d | d in s.claims[h]
      ensures d !in Standing(ed, s.claims[h], now)
    {
      ExpiredClaimLapses(s, now, h, d);
    }
    NoClaims(Standing(ed, s.claims[h], now));
  }

  lemma NoClaims(c: Claims)
    requires forall d :: d !in c
    ensures FirstFive(c) == map[]
  {
  }

  lemma ExpiredIsBare(s: Store, now: Millis, h: Host)
    requires h in Expired(s, now)
    ensures Bare(ExpireHosts(s, now), h) == {}
  {
  }

  /** A host that has expired has nothing left after the sweep: its leases, probed no later than it was
      seen, have lapsed too. */
  lemma ExpiredTakesNothing(ed: Ed25519, s: Store, order: seq<Host>, now: Millis, h: Host)
    requires Enumerates(order, s.claims.Keys) && ClaimsSeen(s, h) && h in Expired(s, now)
    ensures Taken(Sweep(ed, s, order, now), h) == {}
  {
    hide Retained, ClaimsSeen, Bare, ExpireHosts, Expired;
    SweepClaims(ed, s, order, now);
    if h in s.claims {
      ExpiredClaimsLapse(ed, s, now, h);
    }
    ExpiredIsBare(s, now, h);
    ReconcileAllBare(ed, ExpireHosts(s, now), order, now, h);
  }

  lemma {:induction false} ReconcileAllBare(ed: Ed25519, s: Store, order: seq<Host>, now: Millis, h: Host)
    ensures Bare(ReconcileAll(ed, s, order, now), h) <= Bare(s, h)
  {
    hide Reconcile, Bare;
    if order != [] {
      var init, last := order[..|order| - 1], order[|order| - 1];
      ReconcileAllBare(ed, s, init, now, h);
      ReconcileBare(ed, ReconcileAll(ed, s, init, now), last, now, h);
    }
  }

  lemma SweepKeepsTaken(ed: Ed25519, s: Store, order: seq<Host>, now: Millis, h: Host)
    requires Enumerates(order, s.claims.Keys) && ClaimsSeen(s, h) && TakenCounted(s, h)
    ensures TakenCounted(Sweep(ed, s, order, now), h)
  {
    var t, base := Sweep(ed, s, order, now), ExpireHosts(s, now);
    SweepClaims(ed, s, order, now);
    if h in Expired(s, now) {
      ExpiredTakesNothing(ed, s, order, now, h);
    } else {
      ReconcileAllTakes(ed, base, order, now, h);
      assert Bare(base, h) <= Bare(s, h);
      assert Count(t, h) == Count(base, h) == Count(s, h);
      hide Bare, Sweep, ExpireHosts, Count;
      TakenShrinks(s, t, h);
    }
  }

  lemma SweepKeepsSeen(ed: Ed25519, s: Store, order: seq<Host>, now: Millis, h: Host)
    requires Enumerates(order, s.claims.Keys) && ClaimsSeen(s, h)
    ensures ClaimsSeen(Sweep(ed, s, order, now), h)
  {
    var t := Sweep(ed, s, order, now);
    SweepClaims(ed, s, order, now);
    forall d | d in ClaimsOf(t, h)
      ensures h in t.lastSeen && ClaimsOf(t, h)[d].probedAt <= t.lastSeen[h]
    {
      RetainedIsInForce(ed, s.claims[h], now, d);
      assert d in ClaimsOf(s, h);
    }
  }

  lemma SweepKeepsCap(ed: Ed25519, s: Store, order: seq<Host>, now: Millis, h: Host, clock: Millis)
    requires CapInv(ed, s, h, clock) && Enumerates(order, s.claims.Keys) && clock <= now
    ensures CapInv(ed, Sweep(ed, s, order, now), h, now)
  {
    hide Inv, TakenCounted, ClaimsSeen;
    var t := Sweep(ed, s, order, now);
    SweepKeepsInv(ed, s, order, now);
    SweepKeepsTaken(ed, s, order, now, h);
    SweepKeepsSeen(ed, s, order, now, h);
    SweepClaims(ed, s, order, now);
    assert t.evidence == s.evidence && t.lastSeen == s.lastSeen - Expired(s, now);
    SameEvidence(s, t);
  }

  // ---------------------------------------------------------------- probing

  function Probed(s: Store, client: ClientIdentity, now: Millis, at: Millis, signature: seq<byte>): Store {
    RefreshProbe(Probe(s, client, now, at, signature), ClientKey(client), at, signature)
  }

  lemma ProbedKeepsEvidence(s: Store, client: ClientIdentity, now: Millis, at: Millis, signature: seq<byte>, clock: Millis)
    requires SeenBefore(s, clock) && AllEvidenceSeen(s) && |client.verifyingKey| == 32 && clock <= now && at <= now
    ensures var t := Probed(s, client, now, at, signature); SeenBefore(t, now) && AllEvidenceSeen(t)
  {
    var t := Probed(s, client, now, at, signature);
    forall other: ClientIdentity
      ensures EvidenceSeen(t, other)
    {
      assert EvidenceSeen(s, other);
      if |other.verifyingKey| == 32 && ClientKey(other) == ClientKey(client) {
        ClientKeyDeterminesIdentity(other, client);
      }
    }
  }

  lemma ProbedKeepsSeen(s: Store, client: ClientIdentity, now: Millis, at: Millis, signature: seq<byte>, h: Host,
                        clock: Millis)
    requires ClaimsFiled(s) && ClaimsSeen(s, h) && SeenBefore(s, clock)
    requires |client.verifyingKey| == 32 && clock <= now && at <= now
    ensures ClaimsSeen(Probed(s, client, now, at, signature), h)
  {
    var t := Probed(s, client, now, at, signature);
    forall d | d in ClaimsOf(t, h)
      ensures h in t.lastSeen && ClaimsOf(t, h)[d].probedAt <= t.lastSeen[h]
    {
      assert d in ClaimsOf(s, h) && Filed(s.claims[h][d], h, d);
      if s.claims[h][d].clientKey == ClientKey(client) {
        SameOwner(s.claims[h][d], client);
      }
    }
  }

  /** The host has the same names without a lease, and claims the same names. */
  lemma SameShapeTakesSame(s: Store, t: Store, h: Host)
    requires SameShape(s, t)
    ensures Taken(t, h) == Taken(s, h) && Count(t, h) == Count(s, h)
  {
    assert Bare(t, h) == Bare(s, h);
    assert ClaimsOf(t, h).Keys == ClaimsOf(s, h).Keys;
  }

  lemma ProbeKeepsCap(ed: Ed25519, s: Store, e: Envelope, now: Millis, h: Host, clock: Millis)
    requires CapInv(ed, s, h, clock) && clock <= now && e.timestamp <= now
    ensures CapInv(ed, HandleProbe(ed, s, e, now).0, h, now)
  {
    hide Inv, Taken, ClaimsSeen;
    ProbeKeepsInv(ed, s, e, now);
    var client := ClientOf(e);
    if Authenticate(ed, e, ProbeMessage(e.timestamp), now).Ok? {
      var mid := Probe(s, client, now, e.timestamp, e.signature);
      ProbedKeepsEvidence(s, client, now, e.timestamp, e.signature, clock);
      RefreshSameShape(mid, ClientKey(client), e.timestamp, e.signature);
      SameShapeTakesSame(mid, Probed(s, client, now, e.timestamp, e.signature), h);
      ProbingTakesNothing(s, client, now, e.timestamp, e.signature, h);
      InvFiles(ed, s);
      ProbedKeepsSeen(s, client, now, e.timestamp, e.signature, h, clock);
      assert HandleProbe(ed, s, e, now).0 == Probed(s, client, now, e.timestamp, e.signature);
    }
  }

  lemma InvFiles(ed: Ed25519, s: Store)
    requires Inv(ed, s)
    ensures ClaimsFiled(s)
  {
  }

  lemma ProbingTakesNothing(s: Store, client: ClientIdentity, now: Millis, at: Millis, signature: seq<byte>, h: Host)
    ensures var t := Probe(s, client, now, at, signature); Taken(t, h) == Taken(s, h) && Count(t, h) == Count(s, h)
  {
  }

  // ---------------------------------------------------------------- publishing records

  lemma PublishKeepsSeen(s: Store, domain: Domain, key: string, records: seq<Record>, at: Millis, signature: seq<byte>,
                         h: Host)
    requires ClaimsSeen(s, h)
    ensures ClaimsSeen(Publish(s, domain, key, records, at, signature), h)
  {
    hide WithRecordEvidence;
    var t := Publish(s, domain, key, records, at, signature);
    forall d | d in ClaimsOf(t, h)
      ensures h in t.lastSeen && ClaimsOf(t, h)[d].probedAt <= t.lastSeen[h]
    {
      assert d in ClaimsOf(s, h) && ClaimsOf(t, h)[d].probedAt == ClaimsOf(s, h)[d].probedAt;
    }
  }

  lemma PublishKeepsCap(ed: Ed25519, s: Store, e: Envelope, domain: Domain, records: seq<Record>, now: Millis, h: Host,
                        clock: Millis)
    requires CapInv(ed, s, h, clock) && clock <= now
    ensures CapInv(ed, HandleSetRecords(ed, s, e, domain, records, now).0, h, now)
  {
    hide Inv, Taken, ClaimsSeen;
    var t := HandleSetRecords(ed, s, e, domain, records, now).0;
    SetRecordsKeepsInv(ed, s, e, domain, records, now);
    SetRecordsPublishes(ed, s, e, domain, records, now);
    if t != s {
      var key := ClientKey(ClientOf(e));
      PublishSameShape(s, domain, key, records, e.timestamp, e.signature);
      SameShapeTakesSame(s, t, h);
      PublishKeepsSeen(s, domain, key, records, e.timestamp, e.signature, h);
      SameEvidence(s, t);
    }
  }

  // ---------------------------------------------------------------- submitting leases

  lemma SubmitTakes(ed: Ed25519, s: Store, r: Rumor, now: Millis, h: Host)
    requires r.domain in Taken(s, h) || QuotaKey(r.rdns) != h
    ensures Taken(Submit(ed, s, r, now), h) <= Taken(s, h) && Count(Submit(ed, s, r, now), h) == Count(s, h)
  {
    hide Reconcile;
    var filed := Filing(s, r);
    assert Bare(filed, h) == Bare(s, h);
    ReconcileTakes(ed, filed, QuotaKey(r.rdns), now, h);
  }

  lemma SubmitKeepsSeen(ed: Ed25519, s: Store, r: Rumor, now: Millis, h: Host)
    requires ClaimsSeen(s, h)
    requires QuotaKey(r.rdns) == h ==> h in s.lastSeen && r.probedAt <= s.lastSeen[h]
    ensures ClaimsSeen(Submit(ed, s, r, now), h)
  {
    hide Reconcile;
    var filed, u := Filing(s, r), Submit(ed, s, r, now);
    ReconcileTakes(ed, filed, QuotaKey(r.rdns), now, h);
    forall d | d in ClaimsOf(u, h)
      ensures h in u.lastSeen && ClaimsOf(u, h)[d].probedAt <= u.lastSeen[h]
    {
      assert d in ClaimsOf(filed, h) && ClaimsOf(u, h)[d] == ClaimsOf(filed, h)[d];
      assert d in ClaimsOf(s, h) || (d == r.domain && QuotaKey(r.rdns) == h);
    }
  }

  lemma SubmitKeepsCap(ed: Ed25519, s: Store, r: Rumor, now: Millis, h: Host, clock: Millis)
    requires CapInv(ed, s, h, clock) && NamesItsOwner(r)
    requires QuotaKey(r.rdns) == h ==> r.domain in Taken(s, h) && h in s.lastSeen && r.probedAt <= s.lastSeen[h]
    ensures CapInv(ed, Submit(ed, s, r, now), h, clock)
  {
    hide Inv, Taken, ClaimsSeen;
    SubmitKeepsInv(ed, s, r, now);
    SubmitTakes(ed, s, r, now, h);
    TakenShrinks(s, Submit(ed, s, r, now), h);
    SubmitKeepsSeen(ed, s, r, now, h);
    SubmitSees(ed, s, r, now);
    SameEvidence(s, Submit(ed, s, r, now));
  }

  lemma SubmitSees(ed: Ed25519, s: Store, r: Rumor, now: Millis)
    ensures var u := Submit(ed, s, r, now); u == s.(claims := u.claims, registrations := u.registrations)
  {
    hide Retained, ReconcileRegistrations;
  }

  // ---------------------------------------------------------------- registering

  lemma GrantedIsTaken(s: Store, domain: Domain, reg: Registration, h: Host)
    requires domain !in s.registrations && reg.rumor.None?
    ensures Taken(Granting(s, domain, reg), h) == if h == reg.host then Taken(s, h) + {domain} else Taken(s, h)
  {
    var t := Granting(s, domain, reg);
    assert Bare(t, h) == if h == reg.host then Bare(s, h) + {domain} else Bare(s, h);
    hide Bare;
  }

  lemma GrantTakes(s: Store, domain: Domain, reg: Registration, h: Host)
    requires TakenCounted(s, h) && domain !in s.registrations && reg.rumor.None?
    ensures TakenCounted(Granting(s, domain, reg), h)
  {
    hide Taken;
    GrantedIsTaken(s, domain, reg, h);
  }

  lemma GrantKeepsSeen(s: Store, domain: Domain, reg: Registration, h: Host)
    requires ClaimsSeen(s, h)
    ensures ClaimsSeen(Granting(s, domain, reg), h)
  {
    assert ClaimsOf(Granting(s, domain, reg), h) == ClaimsOf(s, h);
  }

  lemma GrantKeepsCap(ed: Ed25519, s: Store, domain: Domain, reg: Registration, h: Host, clock: Millis)
    requires CapInv(ed, s, h, clock) && domain !in s.registrations && reg.rumor.None?
    requires Count(s, reg.host) < MAX_REGISTRATIONS && reg.host in s.lastSeen
    ensures CapInv(ed, Granting(s, domain, reg), h, clock)
  {
    hide Inv, TakenCounted, Taken, ClaimsSeen;
    GrantKeepsInv(ed, s, domain, reg);
    GrantTakes(s, domain, reg, h);
    GrantKeepsSeen(s, domain, reg, h);
    SameEvidence(s, Granting(s, domain, reg));
  }

  /** What a registration request does: nothing, what `register` does, or that and a submission. */
  lemma HandleRegisterShape(ed: Ed25519, s: Store, e: Envelope, domain: Domain, verified: bool, now: Millis,
                            order: seq<Host>, nonce: Nonce)
    ensures var client := ClientOf(e);
            var (t, outcome) := Register(ed, s, domain, client, now, order, nonce);
            var u := HandleRegister(ed, s, e, domain, verified, now, order, nonce).0;
            || u == s || u == t
            || (&& outcome.Ok? && ClientKey(client) in t.evidence && |client.verifyingKey| == 32
                && u == Submit(ed, t, LeaseFor(e, client, domain, outcome.value, t.evidence[ClientKey(client)]), now))
  {
    hide Register, Submit, ClientKey, QuotaKey;
  }

  lemma RegisterKeepsCap(ed: Ed25519, s: Store, domain: Domain, client: ClientIdentity, now: Millis,
                         order: seq<Host>, nonce: Nonce, h: Host, clock: Millis)
    requires CapInv(ed, s, h, clock) && Enumerates(order, s.claims.Keys) && clock <= now
    ensures CapInv(ed, Register(ed, s, domain, client, now, order, nonce).0, h, now)
  {
    hide CapInv, Register, Sweep;
    RegisterGrants(ed, s, domain, client, now, order, nonce);
    SweepKeepsCap(ed, s, order, now, h, clock);
    LaterClock(ed, s, h, clock, now);
    var (t, outcome) := Register(ed, s, domain, client, now, order, nonce);
    if outcome.Ok? {
      GrantKeepsCap(ed, Sweep(ed, s, order, now), domain, Unleased(client, outcome.value), h, now);
    }
  }

  lemma LaterClock(ed: Ed25519, s: Store, h: Host, clock: Millis, now: Millis)
    requires CapInv(ed, s, h, clock) && clock <= now
    ensures CapInv(ed, s, h, now)
  {
    hide Inv, TakenCounted, ClaimsSeen;
  }

  /** The lease of a name just granted was probed no later than its host was seen. */
  lemma GrantedLeaseSeen(ed: Ed25519, s: Store, e: Envelope, domain: Domain, now: Millis, order: seq<Host>, nonce: Nonce)
    requires var (t, outcome) := Register(ed, s, domain, ClientOf(e), now, order, nonce);
             outcome.Ok? && AllEvidenceSeen(t) && ClientKey(ClientOf(e)) in t.evidence && |e.verifyingKey| == 32
    ensures var t := Register(ed, s, domain, ClientOf(e), now, order, nonce).0;
            && QuotaKey(e.rdns) in t.lastSeen && t.evidence[ClientKey(ClientOf(e))].0 <= t.lastSeen[QuotaKey(e.rdns)]
            && domain in Bare(t, QuotaKey(e.rdns))
  {
    RegisterGrants(ed, s, domain, ClientOf(e), now, order, nonce);
    hide Register, Sweep;
    assert EvidenceSeen(Register(ed, s, domain, ClientOf(e), now, order, nonce).0, ClientOf(e));
  }

  lemma HandleRegisterKeepsCap(ed: Ed25519, s: Store, e: Envelope, domain: Domain, verified: bool, now: Millis,
                               order: seq<Host>, nonce: Nonce, h: Host, clock: Millis)
    requires CapInv(ed, s, h, clock) && Enumerates(order, s.claims.Keys) && clock <= now
    ensures CapInv(ed, HandleRegister(ed, s, e, domain, verified, now, order, nonce).0, h, now)
  {
    hide HandleRegister, Register, Submit, Inv, ClaimsSeen, EvidenceSeen, Bare, ClientKey, QuotaKey;
    var client := ClientOf(e);
    var (t, outcome) := Register(ed, s, domain, client, now, order, nonce);
    var u := HandleRegister(ed, s, e, domain, verified, now, order, nonce).0;
    HandleRegisterShape(ed, s, e, domain, verified, now, order, nonce);
    RegisterKeepsCap(ed, s, domain, client, now, order, nonce, h, clock);
    LaterClock(ed, s, h, clock, now);
    if u != s && u != t {
      GrantedLeaseSeen(ed, s, e, domain, now, order, nonce);
      SubmitKeepsCap(ed, t, LeaseFor(e, client, domain, outcome.value, t.evidence[ClientKey(client)]), now, h, now);
    }
  }

  // ---------------------------------------------------------------- adopting

  lemma AdoptKeepsCap(ed: Ed25519, s: Store, r: Rumor, now: Millis, h: Host, clock: Millis)
    requires CapInv(ed, s, h, clock) && QuotaKey(r.rdns) != h && clock <= now
    ensures CapInv(ed, AdoptRumor(ed, s, r, now), h, now)
  {
    hide CapInv, Submit;
    LaterClock(ed, s, h, clock, now);
    if InForce(ed, r, now) {
      SubmitKeepsCap(ed, s, r, now, h, now);
    }
  }

  // ---------------------------------------------------------------- runs

  predicate Clocked(steps: seq<Step>) {
    forall i, j | 0 <= i < j < |steps| :: steps[i].now <= steps[j].now
  }

  /** A probe may be dated at most `lead` ahead of the node's clock, and a lease heard is of one of
      these hosts. */
  predicate Allowed(step: Step, heard: set<Host>, lead: nat) {
    match step
    case ProbeStep(e, now) => e.timestamp <= now + lead
    case AdoptStep(r, _) => QuotaKey(r.rdns) in heard
    case _ => true
  }

  ghost predicate AllAllowed(steps: seq<Step>, heard: set<Host>, lead: nat) {
    forall i | 0 <= i < |steps| :: Allowed(steps[i], heard, lead)
  }

  lemma NextKeepsCap(ed: Ed25519, s: Store, step: Step, heard: set<Host>, h: Host, clock: Millis)
    requires CapInv(ed, s, h, clock) && Enabled(s, step) && Allowed(step, heard, 0) && h !in heard && clock <= step.now
    ensures CapInv(ed, Next(ed, s, step), h, step.now)
  {
    hide CapInv;
    match step
    case ProbeStep(e, now) => ProbeKeepsCap(ed, s, e, now, h, clock);
    case RegisterStep(e, domain, verified, now, order, nonce) =>
      HandleRegisterKeepsCap(ed, s, e, domain, verified, now, order, nonce, h, clock);
    case SetRecordsStep(e, domain, records, now) => PublishKeepsCap(ed, s, e, domain, records, now, h, clock);
    case AdoptStep(r, now) => AdoptKeepsCap(ed, s, r, now, h, clock);
    case SweepStep(order, now) => SweepKeepsCap(ed, s, order, now, h, clock);
  }

  function ClockOf(steps: seq<Step>): Millis {
    if steps == [] then 0 else steps[|steps| - 1].now
  }

  lemma EmptyCap(ed: Ed25519, h: Host)
    ensures CapInv(ed, EMPTY, h, 0)
  {
    EmptyInv(ed);
    assert Taken(EMPTY, h) == {};
  }

  lemma {:induction false} RunKeepsCap(ed: Ed25519, steps: seq<Step>, heard: set<Host>, h: Host)
    requires ValidRun(ed, EMPTY, steps) && Clocked(steps) && AllAllowed(steps, heard, 0) && h !in heard
    ensures CapInv(ed, Run(ed, EMPTY, steps), h, ClockOf(steps))
  {
    hide CapInv, Enabled, Allowed, Next;
    if steps == [] {
      EmptyCap(ed, h);
    } else {
      var init, last := steps[..|steps| - 1], steps[|steps| - 1];
      RunKeepsCap(ed, init, heard, h);
      NextKeepsCap(ed, Run(ed, EMPTY, init), last, heard, h, ClockOf(init));
    }
  }

  /** With a clock that does not go back and no probe dated ahead of it, a host none of whose own
      leases is heard from elsewhere, whatever is heard of others, holds no more names than its counter
      says, which is at most five. */
  lemma CapOfUnheard(ed: Ed25519, steps: seq<Step>, heard: set<Host>, h: Host)
    requires ValidRun(ed, EMPTY, steps) && Clocked(steps) && AllAllowed(steps, heard, 0) && h !in heard
    ensures var s := Run(ed, EMPTY, steps); |Held(s, h)| <= |Taken(s, h)| <= Count(s, h) <= 5
  {
    hide Run, ValidRun, AllAllowed, Clocked, Taken, Held, Sound;
    var s := Run(ed, EMPTY, steps);
    RunKeepsCap(ed, steps, heard, h);
    HeldIsTaken(ed, s, h);
    SubsetSize(Held(s, h), Taken(s, h));
    InvCounts(ed, s, h);
  }

  lemma InvCounts(ed: Ed25519, s: Store, h: Host)
    requires Inv(ed, s)
    ensures Count(s, h) <= MAX_REGISTRATIONS
  {
  }

  // ---------------------------------------------------------------- a request for a name

  /** What a request for a name may come to: nothing, a sweep, a grant, or a grant and a lease filed. */
  lemma RegisterShape(ed: Ed25519, s: Store, e: Envelope, domain: Domain, verified: bool, now: Millis,
                      order: seq<Host>, nonce: Nonce)
    returns (r: Rumor)
    ensures var t, swept := HandleRegister(ed, s, e, domain, verified, now, order, nonce).0, Sweep(ed, s, order, now);
            var granted := Granting(swept, domain, Unleased(ClientOf(e), Token(now, nonce)));
            || t == s || t == swept
            || (&& domain !in swept.registrations && (t == granted || t == Submit(ed, granted, r, now))
                && verified && Authenticate(ed, e, RegisterMessage(domain, e.timestamp), now).Ok?)
    ensures r.domain == domain && r.token == Token(now, nonce) && r.rdns == e.rdns && r.clientKey == ClientKey(ClientOf(e))
  {
    r := LeaseFor(e, ClientOf(e), domain, Token(now, nonce), (0, []));
    hide Sweep, Submit, ClientKey, QuotaKey, Granting, Authenticate, IsLive, CanRegister, Attachable;
    match Authenticate(ed, e, RegisterMessage(domain, e.timestamp), now)
    case Err(_) =>
    case Ok(client) =>
      AuthenticatedAs(ed, e, RegisterMessage(domain, e.timestamp), now);
      RegisterGrants(ed, s, domain, client, now, order, nonce);
      hide Register;
      match Register(ed, s, domain, client, now, order, nonce)
      case (u, Err(_)) =>
      case (u, Ok(token)) =>
        if ClientKey(client) in u.evidence {
          r := LeaseFor(e, client, domain, token, u.evidence[ClientKey(client)]);
        }
  }

  lemma AuthenticatedAs(ed: Ed25519, e: Envelope, message: Message, now: Millis)
    requires Authenticate(ed, e, message, now).Ok?
    ensures Authenticate(ed, e, message, now).value == ClientOf(e)
  {
  }
}
