/** Two ways a host's first requests can go wrong: losing the name by publishing records for it, and
    stopping the handler with a second owner key. */
module LostNames {
  import opened Bytes
  import opened Outcomes
  import opened Tokens
  import opened Identity
  import opened Registry
  import opened Runs
  import opened HostCap
  import opened Limits
  import opened Overflow

  // ---------------------------------------------------------------- publishing

  /** One client's probe, request for a name, and publication, each acknowledged when it arrives. */
  ghost predicate Acknowledged(ed: Ed25519, p: Envelope, q: NameRequest, w: Envelope, records: seq<Record>, now: Millis) {
    && ClientOf(w) == ClientOf(p)
    && Authenticate(ed, p, ProbeMessage(p.timestamp), now).Ok?
    && Signed(ed, q, ClientOf(p), now)
    && Authenticate(ed, w, SetRecordsMessage(q.domain, records, w.timestamp), now).Ok?
  }

  function FirstLease(p: Envelope, q: NameRequest, now: Millis): Rumor {
    LeaseFor(q.envelope, ClientOf(q.envelope), q.domain, Token(now, q.nonce), (p.timestamp, p.signature))
  }

  /** A lease assembled from an acknowledged probe and request is in force. */
  lemma FirstLeaseInForce(ed: Ed25519, p: Envelope, q: NameRequest, now: Millis)
    requires Authenticate(ed, p, ProbeMessage(p.timestamp), now).Ok? && Signed(ed, q, ClientOf(p), now)
    ensures InForce(ed, FirstLease(p, q, now), now)
  {
    hide ClientKey;
  }

  /** A probe and a request. */
  function FirstSteps(p: Envelope, q: NameRequest, now: Millis): seq<Step> {
    [ProbeStep(p, now)] + OpeningSteps([q], QuotaKey(p.rdns), now)
  }

  lemma OneOpening(p: Envelope, q: NameRequest, now: Millis)
    ensures OpeningClaims([q], (p.timestamp, p.signature), now) == map[q.domain := FirstLease(p, q, now)]
  {
    hide ClientKey;
    assert [q][..0] == [];
  }

  lemma FirstIsFresh(ed: Ed25519, p: Envelope, q: NameRequest, now: Millis)
    requires Authenticate(ed, p, ProbeMessage(p.timestamp), now).Ok? && Signed(ed, q, ClientOf(p), now)
    ensures ValidRun(ed, EMPTY, FirstSteps(p, q, now))
    ensures Fresh(ed, Run(ed, EMPTY, FirstSteps(p, q, now)), ClientOf(p), map[q.domain := FirstLease(p, q, now)],
                  (p.timestamp, p.signature), now)
  {
    hide QuotaKey, ClientKey, Authenticate, Fresh, Run, ValidRun, Vouches, Signed;
    var probed := Run(ed, EMPTY, [ProbeStep(p, now)]);
    ProbeVouches(ed, p, now);
    ProbedIsFresh(ed, p, now);
    AllAreFresh(ed, probed, ClientOf(p), (p.timestamp, p.signature), [q], now);
    RunOn(ed, EMPTY, [ProbeStep(p, now)], OpeningSteps([q], QuotaKey(p.rdns), now));
    OneOpening(p, q, now);
  }

  lemma FreshIsSafe(ed: Ed25519, s: Store, client: ClientIdentity, r: Rumor, probe: (Millis, seq<byte>), now: Millis)
    requires Inv(ed, s) && Fresh(ed, s, client, map[r.domain := r], probe, now)
    ensures SafelyHeld(ed, s, r.domain, QuotaKey(client.rdns), ClientKey(client), now)
    ensures s.claims == map[QuotaKey(client.rdns) := map[r.domain := r]]
  {
    var h, c := QuotaKey(client.rdns), map[r.domain := r];
    hide QuotaKey, ClientKey, InForce, Inv;
    OnlyLeased(s, h, c);
    assert r.domain in c && OwnLease(c[r.domain], client, probe.0, now);
    assert s.registrations[r.domain] == FromRumor(r, h);
    assert s.claims == map[h := c];
  }

  /** After them the name is leased, and safe. */
  lemma OpeningHolds(ed: Ed25519, p: Envelope, q: NameRequest, now: Millis)
    requires Authenticate(ed, p, ProbeMessage(p.timestamp), now).Ok? && Signed(ed, q, ClientOf(p), now)
    ensures var h := QuotaKey(p.rdns);
            var s := Run(ed, EMPTY, FirstSteps(p, q, now));
            && ValidRun(ed, EMPTY, FirstSteps(p, q, now))
            && s.claims == map[h := map[q.domain := FirstLease(p, q, now)]]
            && SafelyHeld(ed, s, q.domain, h, ClientKey(ClientOf(p)), now)
  {
    hide QuotaKey, ClientKey, Authenticate, Signed, Fresh, Inv, Run, ValidRun;
    FirstIsFresh(ed, p, q, now);
    RunKeepsInv(ed, FirstSteps(p, q, now));
    FreshIsSafe(ed, Run(ed, EMPTY, FirstSteps(p, q, now)), ClientOf(p), FirstLease(p, q, now), (p.timestamp, p.signature), now);
  }

  /** An owner whose probe, request and publication were all acknowledged at one instant holds the
      name then, and loses it in the next sweep even at that instant, unless its signature over the new
      records also covers the empty list it registered with. */
  lemma PublishingLosesTheName(ed: Ed25519, p: Envelope, q: NameRequest, w: Envelope, records: seq<Record>, now: Millis)
    requires Acknowledged(ed, p, q, w, records, now)
    ensures var steps := FirstSteps(p, q, now) + [SetRecordsStep(w, q.domain, records, now)];
            var sweep := SweepStep([QuotaKey(p.rdns)], now);
            && ValidRun(ed, EMPTY, steps + [sweep])
            && Owns(Run(ed, EMPTY, steps), q.domain, ClientKey(ClientOf(p)))
            && Run(ed, EMPTY, steps).registrations[q.domain].records == records
            && (q.domain in Run(ed, EMPTY, steps + [sweep]).registrations
                <==> ed.Accepts(w.verifyingKey, SetRecordsMessage(q.domain, [], w.timestamp), w.signature))
  {
    hide QuotaKey, ClientKey, InForce, Inv, Sweep, Signed, FirstSteps, Run, ValidRun;
    var h, key, first := QuotaKey(p.rdns), ClientKey(ClientOf(p)), FirstSteps(p, q, now);
    var publish, sweep := SetRecordsStep(w, q.domain, records, now), SweepStep([h], now);
    OpeningHolds(ed, p, q, now);
    SignedBy(ed, q, ClientOf(p), now);
    var s := Run(ed, EMPTY, first);
    var t := Publish(s, q.domain, key, records, w.timestamp, w.signature);
    assert Next(ed, s, publish) == t;
    assert t.claims.Keys == s.claims.Keys == {h};
    assert t.registrations[q.domain].records == records;
    hide Publish, HandleSetRecords;
    OneMoreStep(ed, EMPTY, first, publish);
    OneMoreStep(ed, EMPTY, first + [publish], sweep);
    PublishedNameSurvivesIff(ed, s, q.domain, h, key, records, w.timestamp, w.signature, [h], now);
  }

  // ---------------------------------------------------------------- a probe dated behind

  lemma LeaseIsRegistered(s: Store, h: Host, r: Rumor)
    requires HoldsBoth(s, h, map[r.domain := r], map[])
    ensures s.registrations == map[r.domain := FromRumor(r, h)]
  {
    OnlyLeased(s, h, map[r.domain := r]);
  }

  lemma LapsedIsDropped(ed: Ed25519, s: Store, h: Host, r: Rumor, now: Millis)
    requires HoldsBoth(s, h, map[r.domain := r], map[]) && s.claims == map[h := map[r.domain := r]]
    requires !InForce(ed, r, now) && Expired(s, now) == {}
    ensures Enumerates([h], s.claims.Keys)
    ensures Sweep(ed, s, [h], now) == s.(claims := map[h := map[]], registrations := map[])
  {
    hide InForce, Leased, HoldsBoth, ExpireHosts, Expired, ReconcileAll;
    LeaseIsRegistered(s, h, r);
    NothingExpires(s, now);
    OneReconciled(ed, s, h, now);
    assert Standing(ed, map[r.domain := r], now) == map[];
    assert Retained(ed, map[r.domain := r], now) == map[];
    assert s.claims[h := map[]] == map[h := map[]];
    assert ReconcileRegistrations(s.registrations, map[], h) == map[];
  }

  /** The lease of a name lives a minute from the time its probe bears, the host a minute from the
      probe's arrival. With one probe and one request, both acknowledged, the name is still held after
      a sweep within a minute of the probe's arrival if and only if it is within a minute of the probe's
      date; if it is not, the host is live and the lost name goes on being counted. */
  lemma NameLapsesByProbeDate(ed: Ed25519, p: Envelope, q: NameRequest, now: Millis, later: Millis)
    requires Authenticate(ed, p, ProbeMessage(p.timestamp), now).Ok? && Signed(ed, q, ClientOf(p), now)
    requires now <= later <= now + 60_000
    ensures var h, steps := QuotaKey(p.rdns), FirstSteps(p, q, now) + [SweepStep([QuotaKey(p.rdns)], later)];
            var s, t := Run(ed, EMPTY, FirstSteps(p, q, now)), Run(ed, EMPTY, steps);
            && ValidRun(ed, EMPTY, steps) && q.domain in s.registrations
            && (q.domain in t.registrations <==> later <= p.timestamp + 60_000)
            && IsLive(t, h, later) && Count(t, h) == 1
  {
    FirstIsFresh(ed, p, q, now);
    FirstLeaseLives(ed, p, q, now, later);
    hide QuotaKey, ClientKey, Authenticate, Signed, FirstSteps, Run, ValidRun, FirstLease, InForce, Fresh;
    var steps := FirstSteps(p, q, now);
    FreshLapses(ed, Run(ed, EMPTY, steps), ClientOf(p), FirstLease(p, q, now), (p.timestamp, p.signature), now, later);
    hide Sweep, IsLive, Count, Enumerates;
    ThenSwept(ed, steps, [QuotaKey(p.rdns)], later);
  }

  lemma ThenSwept(ed: Ed25519, steps: seq<Step>, order: seq<Host>, now: Millis)
    requires ValidRun(ed, EMPTY, steps) && Enumerates(order, Run(ed, EMPTY, steps).claims.Keys)
    ensures ValidRun(ed, EMPTY, steps + [SweepStep(order, now)])
    ensures Run(ed, EMPTY, steps + [SweepStep(order, now)]) == Sweep(ed, Run(ed, EMPTY, steps), order, now)
  {
    hide Run, ValidRun, Sweep, Enumerates;
    OneMoreStep(ed, EMPTY, steps, SweepStep(order, now));
  }

  lemma FirstLeaseLives(ed: Ed25519, p: Envelope, q: NameRequest, now: Millis, later: Millis)
    requires Authenticate(ed, p, ProbeMessage(p.timestamp), now).Ok? && Signed(ed, q, ClientOf(p), now)
    ensures InForce(ed, FirstLease(p, q, now), later) <==> later <= p.timestamp + LIVENESS_WINDOW
    ensures FirstLease(p, q, now).domain == q.domain
  {
    FirstLeaseInForce(ed, p, q, now);
    hide IsAuthorized, Authenticate, Signed, ClientKey;
  }

  lemma FreshLapses(ed: Ed25519, s: Store, client: ClientIdentity, r: Rumor, probe: (Millis, seq<byte>),
                    now: Millis, later: Millis)
    requires Fresh(ed, s, client, map[r.domain := r], probe, now) && now <= later <= now + LIVENESS_WINDOW
    ensures var h := QuotaKey(client.rdns);
            var t := Sweep(ed, s, [h], later);
            && Enumerates([h], s.claims.Keys) && r.domain in s.registrations
            && (r.domain in t.registrations <==> InForce(ed, r, later)) && IsLive(t, h, later) && Count(t, h) == 1
  {
    FreshStore(ed, s, client, r, probe, now);
    hide QuotaKey, InForce, Fresh, HoldsBoth, Sweep;
    var h := QuotaKey(client.rdns);
    assert Expired(s, later) == {};
    if InForce(ed, r, later) {
      assert |map[r.domain := r]| == 1;
      SweptIsSame(ed, s, h, map[r.domain := r], map[], later);
      assert Only(s, h) == [h];
    } else {
      LapsedIsDropped(ed, s, h, r, later);
    }
  }

  lemma FreshStore(ed: Ed25519, s: Store, client: ClientIdentity, r: Rumor, probe: (Millis, seq<byte>), now: Millis)
    requires Fresh(ed, s, client, map[r.domain := r], probe, now)
    ensures var h := QuotaKey(client.rdns);
            && HoldsBoth(s, h, map[r.domain := r], map[]) && s.claims == map[h := map[r.domain := r]]
            && r.domain in s.registrations && Count(s, h) == 1 && s.lastSeen == map[h := now]
  {
    hide QuotaKey, ClientKey, InForce;
    OnlyLeased(s, QuotaKey(client.rdns), map[r.domain := r]);
    assert |map[r.domain := r]| == 1;
    assert s.claims == map[QuotaKey(client.rdns) := map[r.domain := r]];
  }

  // ---------------------------------------------------------------- a second owner key

  /** A host just seen, with no name entered yet, is granted one. */
  lemma FirstNameIsGranted(ed: Ed25519, s: Store, q: NameRequest, now: Millis)
    requires s.lastSeen == map[QuotaKey(q.envelope.rdns) := now] && s.registrations == map[] && s.counts == map[]
    ensures Register(ed, s, q.domain, ClientOf(q.envelope), now, [], q.nonce)
            == (Granting(s, q.domain, BareOf(q, now)), Ok(Token(now, q.nonce)))
  {
    hide QuotaKey, ClientKey;
    assert Expired(s, now) == {};
    NothingExpires(s, now);
    NoneReconciled(ed, s, now);
  }

  /** When one client of a host has probed, and another key of that host asks for a name, the handler
      stops at its `expect`; the name stays entered, without a lease, and counted. */
  lemma SecondKeyPanics(ed: Ed25519, p: Envelope, q: NameRequest, now: Millis)
    requires Authenticate(ed, p, ProbeMessage(p.timestamp), now).Ok? && Signed(ed, q, ClientOf(q.envelope), now)
    requires QuotaKey(q.envelope.rdns) == QuotaKey(p.rdns) && ClientOf(q.envelope) != ClientOf(p)
    ensures ValidRun(ed, EMPTY, [ProbeStep(p, now)] + [RequestStep(q, [], now)])
    ensures HandleRegister(ed, Run(ed, EMPTY, [ProbeStep(p, now)]), q.envelope, q.domain, true, now, [], q.nonce).1.Panicked?
    ensures var s, t := Run(ed, EMPTY, [ProbeStep(p, now)]), Run(ed, EMPTY, [ProbeStep(p, now)] + [RequestStep(q, [], now)]);
            t == s.(registrations := map[q.domain := BareOf(q, now)], counts := map[QuotaKey(p.rdns) := 1])
  {
    OthersDiffer(ClientOf(q.envelope), ClientOf(p)) by {
      assert |q.envelope.verifyingKey| == 32 == |p.verifyingKey|;
    }
    hide QuotaKey, ClientKey, Run, ValidRun;
    ProbedHoldsNothing(ed, p, now);
    var s := Run(ed, EMPTY, [ProbeStep(p, now)]);
    assert s.registrations == map[] by {
      OnlyLeased(s, QuotaKey(p.rdns), map[]);
    }
    FirstNameIsGranted(ed, s, q, now);
    hide Register, Authenticate, Fresh;
    OneMoreStep(ed, EMPTY, [ProbeStep(p, now)], RequestStep(q, [], now));
  }

  /** Such requests exist for every host. */
  lemma PanicIsReached(rdns: string) returns (p: Envelope, q: NameRequest)
    ensures ValidRun(Trusting(), EMPTY, [ProbeStep(p, 0)]) && QuotaKey(p.rdns) == QuotaKey(q.envelope.rdns) == QuotaKey(rdns)
    ensures var s := Run(Trusting(), EMPTY, [ProbeStep(p, 0)]);
            HandleRegister(Trusting(), s, q.envelope, q.domain, true, 0, [], q.nonce).1.Panicked?
  {
    hide QuotaKey, ClientKey, Run, ValidRun, HandleRegister;
    p := By(rdns, 0);
    q := NameRequest(By(rdns, 0).(verifyingKey := Key()[0 := 1]), [0], NONCE);
    TrustingAccepts(rdns, 0, ProbeMessage(0), 0);
    assert Key()[0] == 0 && Key()[0 := 1][0] == 1;
    SecondKeyPanics(Trusting(), p, q, 0);
    ProbedHoldsNothing(Trusting(), p, 0);
  }
}
