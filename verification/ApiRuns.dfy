/** Runs driven by clients alone: whoever claims a name holds it, so no two hosts claim one name. */
module ApiRuns {
  import opened Bytes
  import opened Tokens
  import opened Collision
  import opened Identity
  import opened Registry
  import opened Sweeping
  import opened Runs
  import opened HostCap

  // ---------------------------------------------------------------- the invariant

  /** The claimant holds the name, under the claim's token. */
  predicate HolderAgrees(s: Store, h: Host, d: Domain)
    requires Claimed(s, h, d)
  {
    && d in s.registrations
    && s.registrations[d].host == h
    && s.registrations[d].token == s.claims[h][d].token
  }

  ghost predicate ClaimsHeld(s: Store) {
    forall h, d | Claimed(s, h, d) :: HolderAgrees(s, h, d)
  }

  ghost predicate LiveClaimsHeld(ed: Ed25519, s: Store, now: Millis) {
    forall h, d | Claimed(s, h, d) && InForce(ed, s.claims[h][d], now) :: HolderAgrees(s, h, d)
  }

  ghost predicate AllClaimsSeen(s: Store) {
    forall h :: ClaimsSeen(s, h)
  }

  // ---------------------------------------------------------------- reconciliation

  lemma HolderKept(ed: Ed25519, s: Store, host: Host, now: Millis, g: Host, d: Domain)
    requires host in s.claims && LiveClaimsHeld(ed, s, now)
    requires Claimed(Reconcile(ed, s, host, now), g, d) && HolderAgrees(s, g, d)
    ensures HolderAgrees(Reconcile(ed, s, host, now), g, d)
  {
    hide Retained, InForce, Negotiate;
    var kept := Retained(ed, s.claims[host], now);
    ReconcileAt(ed, s, host, now, d);
    if d in kept {
      RetainedIsInForce(ed, s.claims[host], now, d);
      assert Claimed(s, host, d) && HolderAgrees(s, host, d);
    }
  }

  lemma ReconcileKeepsLiveHeld(ed: Ed25519, s: Store, host: Host, now: Millis)
    requires LiveClaimsHeld(ed, s, now)
    ensures LiveClaimsHeld(ed, Reconcile(ed, s, host, now), now)
  {
    var t := Reconcile(ed, s, host, now);
    if host in s.claims {
      forall g, d | Claimed(t, g, d) && InForce(ed, t.claims[g][d], now)
        ensures HolderAgrees(t, g, d)
      {
        assert Claimed(s, g, d) && s.claims[g][d] == t.claims[g][d];
        HolderKept(ed, s, host, now, g, d);
      }
    }
  }

  lemma ReconcileKeepsHeld(ed: Ed25519, s: Store, host: Host, now: Millis)
    requires ClaimsHeld(s)
    ensures ClaimsHeld(Reconcile(ed, s, host, now))
  {
    var t := Reconcile(ed, s, host, now);
    if host in s.claims {
      forall g, d | Claimed(t, g, d)
        ensures HolderAgrees(t, g, d)
      {
        assert Claimed(s, g, d);
        HolderKept(ed, s, host, now, g, d);
      }
    }
  }

  lemma {:induction false} ReconcileAllKeepsLiveHeld(ed: Ed25519, s: Store, order: seq<Host>, now: Millis)
    requires LiveClaimsHeld(ed, s, now)
    ensures LiveClaimsHeld(ed, ReconcileAll(ed, s, order, now), now)
  {
    hide LiveClaimsHeld, Reconcile;
    if order != [] {
      var init, last := order[..|order| - 1], order[|order| - 1];
      ReconcileAllKeepsLiveHeld(ed, s, init, now);
      ReconcileKeepsLiveHeld(ed, ReconcileAll(ed, s, init, now), last, now);
    }
  }

  // ---------------------------------------------------------------- sweeping

  /** A host whose lease is live has been seen in time, so expiry leaves its names alone. */
  lemma LiveLeaseLiveHost(s: Store, now: Millis, h: Host, d: Domain)
    requires AllClaimsSeen(s) && Claimed(s, h, d) && LeaseIsLive(s.claims[h][d], now)
    ensures h !in Expired(s, now)
  {
    assert ClaimsSeen(s, h) && d in ClaimsOf(s, h);
  }

  lemma ExpiryKeepsLiveHeld(ed: Ed25519, s: Store, now: Millis)
    requires ClaimsHeld(s) && AllClaimsSeen(s)
    ensures LiveClaimsHeld(ed, ExpireHosts(s, now), now)
  {
    hide AllClaimsSeen;
    var t := ExpireHosts(s, now);
    forall h, d | Claimed(t, h, d) && InForce(ed, t.claims[h][d], now)
      ensures HolderAgrees(t, h, d)
    {
      LiveLeaseLiveHost(s, now, h, d);
      assert Claimed(s, h, d) && HolderAgrees(s, h, d);
    }
  }

  lemma SweepKeepsHeld(ed: Ed25519, s: Store, order: seq<Host>, now: Millis)
    requires Enumerates(order, s.claims.Keys) && ClaimsHeld(s) && AllClaimsSeen(s)
    ensures ClaimsHeld(Sweep(ed, s, order, now))
  {
    var t := Sweep(ed, s, order, now);
    ExpiryKeepsLiveHeld(ed, s, now);
    ReconcileAllKeepsLiveHeld(ed, ExpireHosts(s, now), order, now);
    SweepClaims(ed, s, order, now);
    hide Sweep, Retained, HolderAgrees, InForce;
    forall h, d | Claimed(t, h, d)
      ensures HolderAgrees(t, h, d)
    {
      RetainedIsInForce(ed, s.claims[h], now, d);
    }
  }

  // ---------------------------------------------------------------- requests

  lemma ProbedKeepsHeld(s: Store, client: ClientIdentity, now: Millis, at: Millis, signature: seq<byte>)
    requires ClaimsHeld(s)
    ensures ClaimsHeld(Probed(s, client, now, at, signature))
  {
    var t := Probed(s, client, now, at, signature);
    forall h, d | Claimed(t, h, d)
      ensures HolderAgrees(t, h, d)
    {
      assert Claimed(s, h, d) && HolderAgrees(s, h, d);
    }
  }

  lemma PublishKeepsHeld(s: Store, domain: Domain, key: string, records: seq<Record>, at: Millis, signature: seq<byte>)
    requires ClaimsHeld(s)
    ensures ClaimsHeld(Publish(s, domain, key, records, at, signature))
  {
    var t := Publish(s, domain, key, records, at, signature);
    forall h, d | Claimed(t, h, d)
      ensures HolderAgrees(t, h, d)
    {
      PublishKeepsHolder(s, domain, key, records, at, signature, h, d);
    }
  }

  lemma PublishKeepsHolder(s: Store, domain: Domain, key: string, records: seq<Record>, at: Millis,
                           signature: seq<byte>, h: Host, d: Domain)
    requires ClaimsHeld(s) && Claimed(Publish(s, domain, key, records, at, signature), h, d)
    ensures HolderAgrees(Publish(s, domain, key, records, at, signature), h, d)
  {
    ResignedSameNames(s.claims[h], domain, key, at, signature);
    assert Claimed(s, h, d) && HolderAgrees(s, h, d);
  }

  lemma GrantKeepsHeld(s: Store, domain: Domain, reg: Registration)
    requires ClaimsHeld(s) && domain !in s.registrations
    ensures ClaimsHeld(Granting(s, domain, reg))
  {
    var t := Granting(s, domain, reg);
    forall h, d | Claimed(t, h, d)
      ensures HolderAgrees(t, h, d)
    {
      assert Claimed(s, h, d) && HolderAgrees(s, h, d);
    }
  }

  lemma FilingKeepsHeld(s: Store, r: Rumor)
    requires ClaimsHeld(s)
    requires r.domain in s.registrations && s.registrations[r.domain].host == QuotaKey(r.rdns)
    requires s.registrations[r.domain].token == r.token
    ensures ClaimsHeld(Filing(s, r))
  {
    var t := Filing(s, r);
    forall h, d | Claimed(t, h, d)
      ensures HolderAgrees(t, h, d)
    {
      if !(h == QuotaKey(r.rdns) && d == r.domain) {
        assert Claimed(s, h, d) && HolderAgrees(s, h, d);
      }
    }
  }

  lemma HandleRegisterKeepsHeld(ed: Ed25519, s: Store, e: Envelope, domain: Domain, verified: bool, now: Millis,
                                order: seq<Host>, nonce: Nonce)
    requires ClaimsHeld(s) && AllClaimsSeen(s) && Enumerates(order, s.claims.Keys)
    ensures ClaimsHeld(HandleRegister(ed, s, e, domain, verified, now, order, nonce).0)
  {
    hide HandleRegister, Register, Sweep, Reconcile, ClaimsHeld, AllClaimsSeen, ClientKey, QuotaKey;
    var client := ClientOf(e);
    var (t, outcome) := Register(ed, s, domain, client, now, order, nonce);
    var u := HandleRegister(ed, s, e, domain, verified, now, order, nonce).0;
    HandleRegisterShape(ed, s, e, domain, verified, now, order, nonce);
    RegisterGrants(ed, s, domain, client, now, order, nonce);
    SweepKeepsHeld(ed, s, order, now);
    if outcome.Ok? {
      GrantKeepsHeld(Sweep(ed, s, order, now), domain, Unleased(client, outcome.value));
      if u != s && u != t {
        var lease := LeaseFor(e, client, domain, outcome.value, t.evidence[ClientKey(client)]);
        FilingKeepsHeld(t, lease);
        ReconcileKeepsHeld(ed, Filing(t, lease), QuotaKey(lease.rdns), now);
      }
    }
  }

  // ---------------------------------------------------------------- runs

  lemma NextKeepsHeld(ed: Ed25519, s: Store, step: Step)
    requires ClaimsHeld(s) && AllClaimsSeen(s) && Enabled(s, step) && Allowed(step, {}, 0)
    ensures ClaimsHeld(Next(ed, s, step))
  {
    hide ClaimsHeld, AllClaimsSeen;
    match step
    case ProbeStep(e, now) =>
      if Authenticate(ed, e, ProbeMessage(e.timestamp), now).Ok? {
        ProbedKeepsHeld(s, ClientOf(e), now, e.timestamp, e.signature);
        assert HandleProbe(ed, s, e, now).0 == Probed(s, ClientOf(e), now, e.timestamp, e.signature);
      }
    case RegisterStep(e, domain, verified, now, order, nonce) =>
      HandleRegisterKeepsHeld(ed, s, e, domain, verified, now, order, nonce);
    case SetRecordsStep(e, domain, records, now) =>
      SetRecordsPublishes(ed, s, e, domain, records, now);
      PublishKeepsHeld(s, domain, ClientKey(ClientOf(e)), records, e.timestamp, e.signature);
    case SweepStep(order, now) => SweepKeepsHeld(ed, s, order, now);
  }

  ghost predicate ApiInv(ed: Ed25519, s: Store, clock: Millis) {
    ClaimsHeld(s) && forall h :: CapInv(ed, s, h, clock)
  }

  lemma {:induction false} RunKeepsApi(ed: Ed25519, steps: seq<Step>)
    requires ValidRun(ed, EMPTY, steps) && Clocked(steps) && AllAllowed(steps, {}, 0)
    ensures ApiInv(ed, Run(ed, EMPTY, steps), ClockOf(steps))
  {
    hide CapInv, Next, Enabled, Allowed;
    forall h
      ensures CapInv(ed, Run(ed, EMPTY, steps), h, ClockOf(steps))
    {
      RunKeepsCap(ed, steps, {}, h);
    }
    if steps != [] {
      var init, last := steps[..|steps| - 1], steps[|steps| - 1];
      RunKeepsApi(ed, init);
      CapSees(ed, Run(ed, EMPTY, init), ClockOf(init));
      NextKeepsHeld(ed, Run(ed, EMPTY, init), last);
    }
  }

  lemma CapSees(ed: Ed25519, s: Store, clock: Millis)
    requires forall h :: CapInv(ed, s, h, clock)
    ensures AllClaimsSeen(s)
  {
    forall h
      ensures ClaimsSeen(s, h)
    {
      assert CapInv(ed, s, h, clock);
    }
  }

  /** In a run driven by clients alone, with a clock that does not go back and no probe dated ahead
      of it, a host holds no more names than its counter says, which is at most five; whoever claims a
      name holds it; and no name is claimed by two hosts. */
  lemma TotalCap(ed: Ed25519, steps: seq<Step>)
    requires ValidRun(ed, EMPTY, steps) && Clocked(steps) && AllAllowed(steps, {}, 0)
    ensures var s := Run(ed, EMPTY, steps);
            && (forall h :: |Held(s, h)| <= Count(s, h) <= MAX_REGISTRATIONS)
            && (forall h, d | Claimed(s, h, d) :: d in Held(s, h))
            && (forall g, h, d | Claimed(s, g, d) && Claimed(s, h, d) :: g == h)
  {
    hide CapInv, Run, ValidRun;
    RunKeepsApi(ed, steps);
    var s := Run(ed, EMPTY, steps);
    forall h
      ensures |Held(s, h)| <= Count(s, h) <= MAX_REGISTRATIONS
    {
      CapOfUnheard(ed, steps, {}, h);
    }
    forall h, d | Claimed(s, h, d)
      ensures d in s.registrations && s.registrations[d].host == h
    {
      assert HolderAgrees(s, h, d);
    }
  }
}
