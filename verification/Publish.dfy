/** Publishing records for one name leaves every other name alone. */
module Publishing {
  import opened Bytes
  import opened Outcomes
  import opened Identity
  import opened Registry
  import opened Sweeping
  import opened Runs
  import opened HostCap
  import opened Limits
  import opened Overflow

  // ---------------------------------------------------------------- what publishing touches

  /** Nothing but this name separates the two stores. */
  ghost predicate SameBut(s: Store, t: Store, domain: Domain) {
    && (forall d | d != domain :: Get(t.registrations, d) == Get(s.registrations, d))
    && t.claims.Keys == s.claims.Keys
    && (forall h, d | h in s.claims && d != domain :: Get(t.claims[h], d) == Get(s.claims[h], d))
    && t.lastSeen == s.lastSeen && t.counts == s.counts && t.evidence == s.evidence
  }

  lemma RegistrationsOfOthers(s: Store, domain: Domain, key: string, records: seq<Record>, at: Millis,
                              signature: seq<byte>, d: Domain)
    requires d != domain
    ensures Get(Publish(s, domain, key, records, at, signature).registrations, d) == Get(s.registrations, d)
  {
    hide ResignedClaims, WithRecordEvidence;
  }

  lemma ClaimsOfOthers(s: Store, domain: Domain, key: string, records: seq<Record>, at: Millis, signature: seq<byte>,
                       h: Host, d: Domain)
    requires d != domain && h in s.claims
    ensures var t := Publish(s, domain, key, records, at, signature);
            h in t.claims && Get(t.claims[h], d) == Get(s.claims[h], d)
  {
    hide Resigned, WithRecordEvidence;
  }

  lemma TablesOfOthers(s: Store, domain: Domain, key: string, records: seq<Record>, at: Millis, signature: seq<byte>)
    ensures var t := Publish(s, domain, key, records, at, signature);
            t.claims.Keys == s.claims.Keys && t.lastSeen == s.lastSeen && t.counts == s.counts && t.evidence == s.evidence
  {
    hide ResignedClaims, WithRecordEvidence;
  }

  /** No registration and no claim on any other name changes, nor any sighting, counter or evidence. */
  lemma PublishingTouchesOneName(s: Store, domain: Domain, key: string, records: seq<Record>, at: Millis,
                                 signature: seq<byte>)
    ensures SameBut(s, Publish(s, domain, key, records, at, signature), domain)
  {
    TablesOfOthers(s, domain, key, records, at, signature);
    hide Publish;
    forall d | d != domain
      ensures Get(Publish(s, domain, key, records, at, signature).registrations, d) == Get(s.registrations, d)
    {
      RegistrationsOfOthers(s, domain, key, records, at, signature, d);
    }
    forall h, d | h in s.claims && d != domain
      ensures Get(Publish(s, domain, key, records, at, signature).claims[h], d) == Get(s.claims[h], d)
    {
      ClaimsOfOthers(s, domain, key, records, at, signature, h, d);
    }
  }

  /** The lease shows the owner's new signature over records, and otherwise is what it was. */
  predicate ShowsRecords(before: Rumor, after: Rumor, records: seq<Record>, at: Millis, signature: seq<byte>) {
    && after.recordsAt == Some(at) && after.recordsSignature == Some(signature) && after.records == records
    && after.(recordsAt := before.recordsAt, recordsSignature := before.recordsSignature, records := before.records) == before
  }

  /** On the name itself: the owner's registration serves the new records, as its lease does; the owner's
      claims take the signature and keep their old records; nobody else's change. */
  lemma PublishingServesTheRecords(s: Store, domain: Domain, key: string, records: seq<Record>, at: Millis,
                                   signature: seq<byte>)
    requires Owns(s, domain, key)
    ensures var t := Publish(s, domain, key, records, at, signature);
            && domain in t.registrations
            && var before, after := s.registrations[domain], t.registrations[domain];
               && after.records == records && after.host == before.host && after.token == before.token
               && after.clientKey == key
               && (after.rumor.Some? <==> before.rumor.Some?)
               && (before.rumor.Some? ==> ShowsRecords(before.rumor.value, after.rumor.value, records, at, signature))
    ensures forall h | Claimed(s, h, domain) ::
              var t := Publish(s, domain, key, records, at, signature);
              && Claimed(t, h, domain)
              && var before, after := s.claims[h][domain], t.claims[h][domain];
                 if before.clientKey == key then ShowsRecords(before, after, before.records, at, signature)
                 else after == before
  {
    var t := Publish(s, domain, key, records, at, signature);
    forall h | Claimed(s, h, domain)
      ensures Claimed(t, h, domain) && t.claims[h][domain] == Resigned(s.claims[h][domain], key, at, signature)
    {
      hide WithRecordEvidence, Resigned;
    }
    assert t.registrations[domain]
        == WithRecordEvidence(s.registrations[domain].(records := records), key, at, signature) by {
      hide ResignedClaims, WithRecordEvidence;
    }
    hide Publish;
  }

  // ---------------------------------------------------------------- other names outlive it

  lemma SafelyHeldTables(ed: Ed25519, s: Store, d: Domain, h: Host, key: string, now: Millis)
    requires SafelyHeld(ed, s, d, h, key, now)
    ensures Inv(ed, s) && Owns(s, d, key) && BackedBy(Get(s.registrations, d), h) && Claimed(s, h, d)
    ensures InForce(ed, s.claims[h][d], now) && s.claims[h][d].clientKey == key && |s.claims[h]| <= MAX_REGISTRATIONS
    ensures (forall g | Claimed(s, g, d) :: g == h) && h !in Expired(s, now)
  {
  }

  lemma SoleClaimIsSwept(ed: Ed25519, s: Store, d: Domain, h: Host, order: seq<Host>, now: Millis)
    requires Enumerates(order, s.claims.Keys) && BackedBy(Get(s.registrations, d), h) && Claimed(s, h, d)
    requires (forall g | Claimed(s, g, d) :: g == h) && h !in Expired(s, now)
    requires |s.claims[h]| <= MAX_REGISTRATIONS && InForce(ed, s.claims[h][d], now)
    ensures var t := Sweep(ed, s, order, now);
            && Get(t.registrations, d) == Some(FromRumor(s.claims[h][d], h)) && t.claims.Keys == s.claims.Keys
            && Claimed(t, h, d) && t.claims[h][d] == s.claims[h][d] && (forall g | Claimed(t, g, d) :: g == h)
  {
    hide InForce, Retained, Sweep, SlotSweep;
    var table := KeptTable(ed, s.claims, now);
    SweepClaims(ed, s, order, now);
    SmallTableRetains(ed, s.claims[h], now, d);
    RetainedIsInForce(ed, s.claims[h], now, d);
    forall g | Contends(table, d, g)
      ensures g == h
    {
      RetainedIsInForce(ed, s.claims[g], now, d);
      assert Claimed(s, g, d);
    }
    SweepAt(ed, s, order, now, d);
    assert BackedBy(Get(ExpireHosts(s, now).registrations, d), h);
    SoleHolderSwept(Get(ExpireHosts(s, now).registrations, d), table, order, d, h);
    forall g | Claimed(Sweep(ed, s, order, now), g, d)
      ensures g == h
    {
      assert Contends(table, d, g);
    }
  }

  lemma SafelyHeldBy(ed: Ed25519, s: Store, d: Domain, h: Host, key: string, now: Millis, r: Rumor)
    requires Inv(ed, s) && Get(s.registrations, d) == Some(FromRumor(r, h)) && Claimed(s, h, d) && s.claims[h][d] == r
    requires r.clientKey == key && InForce(ed, r, now) && (forall g | Claimed(s, g, d) :: g == h) && h !in Expired(s, now)
    ensures SafelyHeld(ed, s, d, h, key, now)
  {
    hide Inv, InForce;
  }

  /** A safely held name is as safely held after a sweep at that instant, in any order. */
  lemma SafelyHeldIsSwept(ed: Ed25519, s: Store, d: Domain, h: Host, key: string, order: seq<Host>, now: Millis)
    requires SafelyHeld(ed, s, d, h, key, now) && Enumerates(order, s.claims.Keys)
    ensures SafelyHeld(ed, Sweep(ed, s, order, now), d, h, key, now)
  {
    SafelyHeldTables(ed, s, d, h, key, now);
    hide Inv, InForce, Sweep, QuotaKey, SafelyHeld, Expired, Enumerates;
    SoleClaimIsSwept(ed, s, d, h, order, now);
    SweepKeepsInv(ed, s, order, now);
    SweptHaveNoExpired(ed, s, order, now);
    SafelyHeldBy(ed, Sweep(ed, s, order, now), d, h, key, now, s.claims[h][d]);
  }

  lemma SweptHaveNoExpired(ed: Ed25519, s: Store, order: seq<Host>, now: Millis)
    requires Enumerates(order, s.claims.Keys)
    ensures Expired(Sweep(ed, s, order, now), now) == {}
  {
    hide Sweep;
    SweepClaims(ed, s, order, now);
  }

  lemma SameButIsSafelyHeld(ed: Ed25519, s: Store, t: Store, domain: Domain, d: Domain, h: Host, key: string, now: Millis)
    requires SameBut(s, t, domain) && d != domain && Inv(ed, t) && SafelyHeld(ed, s, d, h, key, now)
    ensures SafelyHeld(ed, t, d, h, key, now) && Get(t.registrations, d) == Get(s.registrations, d)
  {
    hide Inv, InForce;
    forall g
      ensures Claimed(t, g, d) <==> Claimed(s, g, d)
      ensures Claimed(t, g, d) ==> t.claims[g][d] == s.claims[g][d]
    {
      if g in s.claims {
        assert Get(t.claims[g], d) == Get(s.claims[g], d);
      }
    }
    assert Get(t.registrations, d) == Get(s.registrations, d);
  }

  lemma HandledTouchesOneName(ed: Ed25519, s: Store, w: Envelope, domain: Domain, records: seq<Record>, at: Millis)
    ensures SameBut(s, HandleSetRecords(ed, s, w, domain, records, at).0, domain)
  {
    SetRecordsPublishes(ed, s, w, domain, records, at);
    PublishingTouchesOneName(s, domain, ClientKey(ClientOf(w)), records, w.timestamp, w.signature);
  }

  /** In any run: a name that is safely held when anybody publishes records for another name is held
      exactly as before after that, and still safely held after a sweep in any order. */
  lemma OtherNamesOutlivePublishing(ed: Ed25519, steps: seq<Step>, w: Envelope, domain: Domain, records: seq<Record>,
                                    at: Millis, d: Domain, h: Host, key: string, order: seq<Host>, now: Millis)
    requires ValidRun(ed, EMPTY, steps) && d != domain && SafelyHeld(ed, Run(ed, EMPTY, steps), d, h, key, now)
    requires Enumerates(order, Run(ed, EMPTY, steps).claims.Keys)
    ensures var published := steps + [SetRecordsStep(w, domain, records, at)];
            var swept := published + [SweepStep(order, now)];
            && ValidRun(ed, EMPTY, swept)
            && Get(Run(ed, EMPTY, published).registrations, d) == Get(Run(ed, EMPTY, steps).registrations, d)
            && SafelyHeld(ed, Run(ed, EMPTY, published), d, h, key, now)
            && SafelyHeld(ed, Run(ed, EMPTY, swept), d, h, key, now)
  {
    hide Run, ValidRun, HandleSetRecords, Sweep, Inv, SafelyHeld, Enumerates;
    var s, publish := Run(ed, EMPTY, steps), SetRecordsStep(w, domain, records, at);
    var t := Next(ed, s, publish);
    RunKeepsInv(ed, steps);
    NextKeepsInv(ed, s, publish);
    HandledTouchesOneName(ed, s, w, domain, records, at);
    SameButIsSafelyHeld(ed, s, t, domain, d, h, key, now);
    SafelyHeldIsSwept(ed, t, d, h, key, order, now);
    OneMoreStep(ed, EMPTY, steps, publish);
    OneMoreStep(ed, EMPTY, steps + [publish], SweepStep(order, now));
  }
}
