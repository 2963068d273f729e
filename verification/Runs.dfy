/** What every step of a node keeps, whatever its clients and peers send. */
module Runs {
  import opened Bytes
  import opened Outcomes
  import opened Tokens
  import opened Identity
  import opened Registry
  import opened FirstFiveClaims
  import opened Sweeping

  // ---------------------------------------------------------------- steps and runs

  datatype Step =
    | ProbeStep(envelope: Envelope, now: Millis)
    | RegisterStep(envelope: Envelope, domain: Domain, rdnsVerified: bool, now: Millis, order: seq<Host>, nonce: Nonce)
    | SetRecordsStep(envelope: Envelope, domain: Domain, records: seq<Record>, now: Millis)
    | AdoptStep(rumor: Rumor, now: Millis)
    | SweepStep(order: seq<Host>, now: Millis)

  function Next(ed: Ed25519, s: Store, step: Step): Store {
    match step
    case ProbeStep(e, now) => HandleProbe(ed, s, e, now).0
    case RegisterStep(e, domain, verified, now, order, nonce) =>
      HandleRegister(ed, s, e, domain, verified, now, order, nonce).0
    case SetRecordsStep(e, domain, records, now) => HandleSetRecords(ed, s, e, domain, records, now).0
    case AdoptStep(r, now) => AdoptRumor(ed, s, r, now)
    case SweepStep(order, now) => Sweep(ed, s, order, now)
  }

  /** A step that sweeps iterates the claim table it finds. */
  ghost predicate Enabled(s: Store, step: Step) {
    match step
    case RegisterStep(_, _, _, _, order, _) => Enumerates(order, s.claims.Keys)
    case SweepStep(order, _) => Enumerates(order, s.claims.Keys)
    case _ => true
  }

  function Run(ed: Ed25519, s: Store, steps: seq<Step>): Store {
    if steps == [] then s else Next(ed, Run(ed, s, steps[..|steps| - 1]), steps[|steps| - 1])
  }

  ghost predicate ValidRun(ed: Ed25519, s: Store, steps: seq<Step>) {
    steps != [] ==>
      && ValidRun(ed, s, steps[..|steps| - 1])
      && Enabled(Run(ed, s, steps[..|steps| - 1]), steps[|steps| - 1])
  }

  // ---------------------------------------------------------------- the invariant

  /** A claim is filed under its own name and host, and names its owner. */
  predicate Filed(r: Rumor, h: Host, d: Domain) {
    r.domain == d && QuotaKey(r.rdns) == h && NamesItsOwner(r)
  }

  ghost predicate ClaimsFiled(s: Store) {
    forall h, d | h in s.claims && d in s.claims[h] :: Filed(s.claims[h][d], h, d)
  }

  ghost predicate ClaimsCapped(s: Store) {
    forall h | h in s.claims :: |s.claims[h]| <= MAX_REGISTRATIONS
  }

  /** An attached lease is authorized and says what the registration says. */
  predicate Coupled(ed: Ed25519, d: Domain, reg: Registration) {
    reg.rumor.Some? ==>
      var r := reg.rumor.value;
      && IsAuthorized(ed, r)
      && r.domain == d && r.token == reg.token && r.clientKey == reg.clientKey
      && QuotaKey(r.rdns) == reg.host && r.records == reg.records
  }

  ghost predicate LeasesCoupled(ed: Ed25519, s: Store) {
    forall d | d in s.registrations :: Coupled(ed, d, s.registrations[d])
  }

  predicate Claimed(s: Store, h: Host, d: Domain) {
    h in s.claims && d in s.claims[h]
  }

  ghost predicate BackedAreClaimed(s: Store) {
    forall d | d in s.registrations && s.registrations[d].rumor.Some? :: Claimed(s, s.registrations[d].host, d)
  }

  ghost predicate BareAreSeen(s: Store) {
    forall d | d in s.registrations && s.registrations[d].rumor.None? :: s.registrations[d].host in s.lastSeen
  }

  /** The names a host holds without a lease. */
  function Bare(s: Store, h: Host): set<Domain> {
    set d | d in s.registrations && s.registrations[d].host == h && s.registrations[d].rumor.None?
  }

  ghost predicate BareAreCounted(s: Store) {
    forall h :: |Bare(s, h)| <= Count(s, h) <= MAX_REGISTRATIONS
  }

  /** Everything but the size of the claim table. */
  ghost predicate Sound(ed: Ed25519, s: Store) {
    && ClaimsFiled(s) && LeasesCoupled(ed, s) && BackedAreClaimed(s) && BareAreSeen(s) && BareAreCounted(s)
  }

  ghost predicate Inv(ed: Ed25519, s: Store) {
    Sound(ed, s) && ClaimsCapped(s)
  }

  // ---------------------------------------------------------------- reconciliation keeps it

  lemma BareShrinks(s: Store, t: Store)
    requires forall d | d in t.registrations && t.registrations[d].rumor.None?
               :: d in s.registrations && s.registrations[d] == t.registrations[d]
    ensures forall h :: Bare(t, h) <= Bare(s, h) && |Bare(t, h)| <= |Bare(s, h)|
  {
    forall h
      ensures Bare(t, h) <= Bare(s, h) && |Bare(t, h)| <= |Bare(s, h)|
    {
      SubsetSize(Bare(t, h), Bare(s, h));
    }
  }

  lemma ReconcileKeepsBare(ed: Ed25519, s: Store, host: Host, now: Millis)
    ensures var t := Reconcile(ed, s, host, now);
            forall d | d in t.registrations && t.registrations[d].rumor.None?
              :: d in s.registrations && s.registrations[d] == t.registrations[d]
  {
  }

  lemma RetainedIsInForce(ed: Ed25519, c: Claims, now: Millis, d: Domain)
    requires d in Retained(ed, c, now)
    ensures d in c && Retained(ed, c, now)[d] == c[d] && InForce(ed, c[d], now)
  {
  }

  lemma SlotAfterKeepsLease(ed: Ed25519, slot: Option<Registration>, claim: Option<Rumor>, host: Host, d: Domain)
    requires slot.Some? ==> Coupled(ed, d, slot.value)
    requires claim.Some? ==> Filed(claim.value, host, d) && IsAuthorized(ed, claim.value)
    ensures var after := SlotAfter(slot, claim, host);
            && (after.Some? ==> Coupled(ed, d, after.value))
            && (BackedBy(after, host) ==> claim.Some?)
            && (after.Some? && after.value.host != host ==> after == slot)
  {
  }

  lemma ReconcileKeepsLeases(ed: Ed25519, s: Store, host: Host, now: Millis)
    requires ClaimsFiled(s) && LeasesCoupled(ed, s) && BackedAreClaimed(s)
    ensures var t := Reconcile(ed, s, host, now); LeasesCoupled(ed, t) && BackedAreClaimed(t)
  {
    var t := Reconcile(ed, s, host, now);
    if host in s.claims {
      forall d | d in t.registrations
        ensures Coupled(ed, d, t.registrations[d])
        ensures t.registrations[d].rumor.Some? ==> Claimed(t, t.registrations[d].host, d)
      {
        LeaseKeptAt(ed, s, host, now, d);
      }
    }
  }

  lemma LeaseKeptAt(ed: Ed25519, s: Store, host: Host, now: Millis, d: Domain)
    requires ClaimsFiled(s) && LeasesCoupled(ed, s) && BackedAreClaimed(s)
    requires host in s.claims && d in Reconcile(ed, s, host, now).registrations
    ensures var t := Reconcile(ed, s, host, now);
            Coupled(ed, d, t.registrations[d])
            && (t.registrations[d].rumor.Some? ==> Claimed(t, t.registrations[d].host, d))
  {
    hide Retained, IsAuthorized, QuotaKey, SlotAfter, ReconcileRegistrations;
    var kept := Retained(ed, s.claims[host], now);
    ReconcileAt(ed, s, host, now, d);
    if d in kept {
      RetainedIsInForce(ed, s.claims[host], now, d);
      assert Filed(s.claims[host][d], host, d);
    }
    SlotAfterKeepsLease(ed, Get(s.registrations, d), Get(kept, d), host, d);
  }

  lemma ReconcileKeepsSound(ed: Ed25519, s: Store, host: Host, now: Millis)
    requires Sound(ed, s)
    ensures Sound(ed, Reconcile(ed, s, host, now))
  {
    var t := Reconcile(ed, s, host, now);
    ReconcileKeepsLeases(ed, s, host, now);
    ReconcileKeepsBare(ed, s, host, now);
    BareShrinks(s, t);
    assert forall h :: Count(t, h) == Count(s, h);
  }

  lemma ReconcileCaps(ed: Ed25519, s: Store, host: Host, now: Millis)
    requires forall h | h in s.claims && h != host :: |s.claims[h]| <= MAX_REGISTRATIONS
    ensures ClaimsCapped(Reconcile(ed, s, host, now))
  {
    if host in s.claims {
      RetainedSize(ed, s.claims[host], now);
    }
  }

  lemma {:induction false} ReconcileAllKeepsInv(ed: Ed25519, s: Store, order: seq<Host>, now: Millis)
    requires Inv(ed, s)
    ensures Inv(ed, ReconcileAll(ed, s, order, now))
  {
    if order != [] {
      var init, last := order[..|order| - 1], order[|order| - 1];
      ReconcileAllKeepsInv(ed, s, init, now);
      ReconcileKeepsSound(ed, ReconcileAll(ed, s, init, now), last, now);
      ReconcileCaps(ed, ReconcileAll(ed, s, init, now), last, now);
    }
  }

  lemma ExpireKeepsInv(ed: Ed25519, s: Store, now: Millis)
    requires Inv(ed, s)
    ensures Inv(ed, ExpireHosts(s, now))
  {
    var t := ExpireHosts(s, now);
    BareShrinks(s, t);
    forall h
      ensures |Bare(t, h)| <= Count(t, h) <= MAX_REGISTRATIONS
    {
      if h in Expired(s, now) {
        assert Bare(t, h) == {};
      }
    }
    assert forall d | d in t.registrations :: Coupled(ed, d, s.registrations[d]);
  }

  lemma SweepKeepsInv(ed: Ed25519, s: Store, order: seq<Host>, now: Millis)
    requires Inv(ed, s)
    ensures Inv(ed, Sweep(ed, s, order, now))
  {
    ExpireKeepsInv(ed, s, now);
    ReconcileAllKeepsInv(ed, ExpireHosts(s, now), order, now);
  }

  /** Nothing but the contents of leases and later sightings separates the two stores. */
  ghost predicate SameShape(s: Store, t: Store) {
    && t.registrations.Keys == s.registrations.Keys
    && (forall d | d in s.registrations ::
          && t.registrations[d].host == s.registrations[d].host
          && (t.registrations[d].rumor.None? <==> s.registrations[d].rumor.None?))
    && t.claims.Keys == s.claims.Keys
    && (forall h | h in s.claims :: t.claims[h].Keys == s.claims[h].Keys)
    && s.lastSeen.Keys <= t.lastSeen.Keys
    && t.counts == s.counts
  }

  lemma SameShapeBare(s: Store, t: Store, h: Host)
    requires SameShape(s, t)
    ensures Bare(t, h) == Bare(s, h) && Count(t, h) == Count(s, h)
  {
  }

  lemma SameShapeClaimed(s: Store, t: Store)
    requires SameShape(s, t) && BackedAreClaimed(s)
    ensures BackedAreClaimed(t)
  {
    forall d | d in t.registrations && t.registrations[d].rumor.Some?
      ensures Claimed(t, t.registrations[d].host, d)
    {
      assert Claimed(s, s.registrations[d].host, d);
    }
  }

  lemma SameShapeCapped(s: Store, t: Store)
    requires SameShape(s, t) && ClaimsCapped(s)
    ensures ClaimsCapped(t)
  {
    forall h | h in t.claims
      ensures |t.claims[h]| <= MAX_REGISTRATIONS
    {
      assert |t.claims[h]| == |t.claims[h].Keys| && |s.claims[h]| == |s.claims[h].Keys|;
    }
  }

  lemma SameShapeSeen(s: Store, t: Store)
    requires SameShape(s, t) && BareAreSeen(s)
    ensures BareAreSeen(t)
  {
  }

  lemma SameShapeKeeps(s: Store, t: Store)
    requires SameShape(s, t) && BackedAreClaimed(s) && BareAreSeen(s) && BareAreCounted(s) && ClaimsCapped(s)
    ensures BackedAreClaimed(t) && BareAreSeen(t) && BareAreCounted(t) && ClaimsCapped(t)
  {
    hide SameShape, BackedAreClaimed, BareAreSeen, ClaimsCapped, Bare, Count;
    SameShapeClaimed(s, t);
    SameShapeCapped(s, t);
    SameShapeSeen(s, t);
    forall h
      ensures Bare(t, h) == Bare(s, h) && Count(t, h) == Count(s, h)
    {
      SameShapeBare(s, t, h);
    }
  }

  lemma FilingFiles(s: Store, r: Rumor)
    requires ClaimsFiled(s) && NamesItsOwner(r)
    ensures ClaimsFiled(Filing(s, r))
  {
    hide ClientKey, QuotaKey, NamesItsOwner;
    var mid := Filing(s, r);
    forall h, d | h in mid.claims && d in mid.claims[h]
      ensures Filed(mid.claims[h][d], h, d)
    {
      if !(h == QuotaKey(r.rdns) && d == r.domain) {
        assert mid.claims[h][d] == s.claims[h][d];
      }
    }
  }

  lemma FilingClaims(s: Store, r: Rumor)
    requires BackedAreClaimed(s)
    ensures BackedAreClaimed(Filing(s, r))
  {
    hide QuotaKey;
    var mid := Filing(s, r);
    forall d | d in mid.registrations && mid.registrations[d].rumor.Some?
      ensures Claimed(mid, mid.registrations[d].host, d)
    {
      assert Claimed(s, s.registrations[d].host, d);
    }
  }

  lemma FilingOnly(s: Store, r: Rumor)
    ensures Filing(s, r) == s.(claims := Filing(s, r).claims)
  {
  }

  /** What does not look at the claims. */
  lemma OtherClaimsKeepSound(ed: Ed25519, s: Store, t: Store)
    requires LeasesCoupled(ed, s) && BareAreSeen(s) && BareAreCounted(s) && t == s.(claims := t.claims)
    ensures LeasesCoupled(ed, t) && BareAreSeen(t) && BareAreCounted(t)
  {
    hide Coupled;
    assert forall h :: Bare(t, h) == Bare(s, h) && Count(t, h) == Count(s, h);
  }

  lemma FilingKeepsSound(ed: Ed25519, s: Store, r: Rumor)
    requires Sound(ed, s) && NamesItsOwner(r)
    ensures Sound(ed, Filing(s, r))
  {
    FilingFiles(s, r);
    FilingClaims(s, r);
    FilingOnly(s, r);
    hide ClaimsFiled, BackedAreClaimed, NamesItsOwner, LeasesCoupled, BareAreSeen, BareAreCounted, Filing;
    OtherClaimsKeepSound(ed, s, Filing(s, r));
  }

  lemma SubmitKeepsInv(ed: Ed25519, s: Store, r: Rumor, now: Millis)
    requires Inv(ed, s) && NamesItsOwner(r)
    ensures Inv(ed, Submit(ed, s, r, now))
  {
    FilingKeepsSound(ed, s, r);
    ReconcileKeepsSound(ed, Filing(s, r), QuotaKey(r.rdns), now);
    ReconcileCaps(ed, Filing(s, r), QuotaKey(r.rdns), now);
  }

  // ---------------------------------------------------------------- client requests keep it

  /** An accepted signature from the client behind a key string speaks for every lease that
      carries this key string. */
  lemma SameOwner(r: Rumor, client: ClientIdentity)
    requires NamesItsOwner(r) && |client.verifyingKey| == 32 && r.clientKey == ClientKey(client)
    ensures r.ownerKey == client.verifyingKey && r.rdns == client.rdns
  {
    ClientKeyDeterminesIdentity(ClientIdentity(r.ownerKey, r.rdns), client);
  }

  lemma ReprobedStaysCoupled(ed: Ed25519, d: Domain, reg: Registration, client: ClientIdentity, at: Millis,
                             signature: seq<byte>)
    requires Coupled(ed, d, reg) && |client.verifyingKey| == 32
    requires ed.Accepts(client.verifyingKey, ProbeMessage(at), signature)
    ensures Coupled(ed, d, ReprobedRegistration(reg, ClientKey(client), at, signature))
  {
    if reg.clientKey == ClientKey(client) && reg.rumor.Some? {
      SameOwner(reg.rumor.value, client);
    }
  }

  lemma RefreshSameShape(s: Store, key: string, at: Millis, signature: seq<byte>)
    ensures SameShape(s, RefreshProbe(s, key, at, signature))
  {
  }

  lemma RefreshKeepsFiled(s: Store, key: string, at: Millis, signature: seq<byte>)
    requires ClaimsFiled(s)
    ensures ClaimsFiled(RefreshProbe(s, key, at, signature))
  {
    var t := RefreshProbe(s, key, at, signature);
    forall h, d | h in t.claims && d in t.claims[h]
      ensures Filed(t.claims[h][d], h, d)
    {
      assert Filed(s.claims[h][d], h, d);
    }
  }

  lemma RefreshKeepsCoupled(ed: Ed25519, s: Store, client: ClientIdentity, at: Millis, signature: seq<byte>)
    requires LeasesCoupled(ed, s) && |client.verifyingKey| == 32
    requires ed.Accepts(client.verifyingKey, ProbeMessage(at), signature)
    ensures LeasesCoupled(ed, RefreshProbe(s, ClientKey(client), at, signature))
  {
    var t := RefreshProbe(s, ClientKey(client), at, signature);
    forall d | d in t.registrations
      ensures Coupled(ed, d, t.registrations[d])
    {
      ReprobedStaysCoupled(ed, d, s.registrations[d], client, at, signature);
    }
  }

  lemma RefreshKeepsInv(ed: Ed25519, s: Store, client: ClientIdentity, at: Millis, signature: seq<byte>)
    requires Inv(ed, s) && |client.verifyingKey| == 32
    requires ed.Accepts(client.verifyingKey, ProbeMessage(at), signature)
    ensures Inv(ed, RefreshProbe(s, ClientKey(client), at, signature))
  {
    RefreshSameShape(s, ClientKey(client), at, signature);
    SameShapeKeeps(s, RefreshProbe(s, ClientKey(client), at, signature));
    RefreshKeepsFiled(s, ClientKey(client), at, signature);
    RefreshKeepsCoupled(ed, s, client, at, signature);
  }

  lemma ProbeKeepsInv(ed: Ed25519, s: Store, e: Envelope, now: Millis)
    requires Inv(ed, s)
    ensures Inv(ed, HandleProbe(ed, s, e, now).0)
  {
    hide Inv, RefreshProbe;
    match Authenticate(ed, e, ProbeMessage(e.timestamp), now)
    case Err(_) =>
    case Ok(client) =>
      ProbingKeepsInv(ed, s, client, now, e.timestamp, e.signature);
      RefreshKeepsInv(ed, Probe(s, client, now, e.timestamp, e.signature), client, e.timestamp, e.signature);
  }

  lemma ProbingKeepsInv(ed: Ed25519, s: Store, client: ClientIdentity, now: Millis, at: Millis, signature: seq<byte>)
    requires Inv(ed, s)
    ensures Inv(ed, Probe(s, client, now, at, signature))
  {
    ProbingOnlySees(s, client, now, at, signature);
    hide Inv, Probe;
    MoreSightingsKeepInv(ed, s, Probe(s, client, now, at, signature));
  }

  lemma ProbingOnlySees(s: Store, client: ClientIdentity, now: Millis, at: Millis, signature: seq<byte>)
    ensures var t := Probe(s, client, now, at, signature);
            t == s.(lastSeen := t.lastSeen, evidence := t.evidence) && s.lastSeen.Keys <= t.lastSeen.Keys
  {
    hide QuotaKey, ClientKey;
  }

  lemma MoreSightingsKeepInv(ed: Ed25519, s: Store, t: Store)
    requires Inv(ed, s) && t == s.(lastSeen := t.lastSeen, evidence := t.evidence) && s.lastSeen.Keys <= t.lastSeen.Keys
    ensures Inv(ed, t)
  {
    hide Coupled, Filed;
    assert forall h :: Bare(t, h) == Bare(s, h) && Count(t, h) == Count(s, h);
    assert forall h, d :: Claimed(t, h, d) <==> Claimed(s, h, d);
  }

  lemma PublishedStaysCoupled(ed: Ed25519, d: Domain, reg: Registration, client: ClientIdentity,
                              records: seq<Record>, at: Millis, signature: seq<byte>)
    requires Coupled(ed, d, reg) && |client.verifyingKey| == 32 && reg.clientKey == ClientKey(client)
    requires ed.Accepts(client.verifyingKey, SetRecordsMessage(d, records, at), signature)
    ensures Coupled(ed, d, WithRecordEvidence(reg.(records := records), ClientKey(client), at, signature))
  {
    if reg.rumor.Some? {
      SameOwner(reg.rumor.value, client);
    }
  }

  lemma PublishedRegistration(s: Store, domain: Domain, key: string, records: seq<Record>, at: Millis,
                              signature: seq<byte>, d: Domain)
    requires d in s.registrations
    ensures var t := Publish(s, domain, key, records, at, signature);
            && d in t.registrations && t.registrations[d].host == s.registrations[d].host
            && (t.registrations[d].rumor.None? <==> s.registrations[d].rumor.None?)
  {
    hide ResignedClaims;
  }

  lemma PublishedTables(s: Store, domain: Domain, key: string, records: seq<Record>, at: Millis, signature: seq<byte>)
    ensures var t := Publish(s, domain, key, records, at, signature);
            && t.registrations.Keys == s.registrations.Keys && t.claims.Keys == s.claims.Keys
            && t.lastSeen == s.lastSeen && t.counts == s.counts
  {
    hide ResignedClaims, WithRecordEvidence;
  }

  lemma PublishSameShape(s: Store, domain: Domain, key: string, records: seq<Record>, at: Millis, signature: seq<byte>)
    ensures SameShape(s, Publish(s, domain, key, records, at, signature))
  {
    var t := Publish(s, domain, key, records, at, signature);
    forall h | h in s.claims
      ensures h in t.claims && t.claims[h].Keys == s.claims[h].Keys
    {
      hide ResignedClaims, WithRecordEvidence;
      ResignedSameNames(s.claims[h], domain, key, at, signature);
    }
    PublishedTables(s, domain, key, records, at, signature);
    hide Publish;
    forall d | d in s.registrations
      ensures t.registrations[d].host == s.registrations[d].host
      ensures t.registrations[d].rumor.None? <==> s.registrations[d].rumor.None?
    {
      PublishedRegistration(s, domain, key, records, at, signature, d);
    }
  }

  lemma ResignedSameNames(c: Claims, domain: Domain, key: string, at: Millis, signature: seq<byte>)
    ensures ResignedClaims(c, domain, key, at, signature).Keys == c.Keys
  {
  }

  lemma PublishKeepsFiled(s: Store, domain: Domain, key: string, records: seq<Record>, at: Millis, signature: seq<byte>)
    requires ClaimsFiled(s)
    ensures ClaimsFiled(Publish(s, domain, key, records, at, signature))
  {
    hide WithRecordEvidence, ResignedClaims, Filed;
    var t := Publish(s, domain, key, records, at, signature);
    forall h, d | h in t.claims && d in t.claims[h]
      ensures Filed(t.claims[h][d], h, d)
    {
      ResignedSameNames(s.claims[h], domain, key, at, signature);
      ResignedStaysFiled(s.claims[h], domain, key, at, signature, h, d);
    }
  }

  lemma ResignedStaysFiled(c: Claims, domain: Domain, key: string, at: Millis, signature: seq<byte>, h: Host, d: Domain)
    requires d in c && Filed(c[d], h, d)
    ensures d in ResignedClaims(c, domain, key, at, signature)
    ensures Filed(ResignedClaims(c, domain, key, at, signature)[d], h, d)
  {
    hide ClientKey, QuotaKey;
  }

  lemma PublishKeepsCoupled(ed: Ed25519, s: Store, client: ClientIdentity, domain: Domain, records: seq<Record>,
                            at: Millis, signature: seq<byte>)
    requires LeasesCoupled(ed, s) && Owns(s, domain, ClientKey(client)) && |client.verifyingKey| == 32
    requires ed.Accepts(client.verifyingKey, SetRecordsMessage(domain, records, at), signature)
    ensures LeasesCoupled(ed, Publish(s, domain, ClientKey(client), records, at, signature))
  {
    var t := Publish(s, domain, ClientKey(client), records, at, signature);
    forall d | d in t.registrations
      ensures Coupled(ed, d, t.registrations[d])
    {
      assert Coupled(ed, d, s.registrations[d]);
      if d == domain {
        PublishedStaysCoupled(ed, d, s.registrations[d], client, records, at, signature);
      }
    }
  }

  lemma PublishKeepsInv(ed: Ed25519, s: Store, client: ClientIdentity, domain: Domain, records: seq<Record>,
                        at: Millis, signature: seq<byte>)
    requires Inv(ed, s) && Owns(s, domain, ClientKey(client)) && |client.verifyingKey| == 32
    requires ed.Accepts(client.verifyingKey, SetRecordsMessage(domain, records, at), signature)
    ensures Inv(ed, Publish(s, domain, ClientKey(client), records, at, signature))
  {
    var key := ClientKey(client);
    PublishSameShape(s, domain, key, records, at, signature);
    SameShapeKeeps(s, Publish(s, domain, key, records, at, signature));
    PublishKeepsFiled(s, domain, key, records, at, signature);
    PublishKeepsCoupled(ed, s, client, domain, records, at, signature);
  }

  lemma SetRecordsPublishes(ed: Ed25519, s: Store, e: Envelope, domain: Domain, records: seq<Record>, now: Millis)
    ensures var client := ClientIdentity(e.verifyingKey, e.rdns);
            var t := HandleSetRecords(ed, s, e, domain, records, now).0;
            t == s
            || (&& t == Publish(s, domain, ClientKey(client), records, e.timestamp, e.signature)
                && Owns(s, domain, ClientKey(client)) && |client.verifyingKey| == 32
                && ed.Accepts(client.verifyingKey, SetRecordsMessage(domain, records, e.timestamp), e.signature))
  {
  }

  lemma SetRecordsKeepsInv(ed: Ed25519, s: Store, e: Envelope, domain: Domain, records: seq<Record>, now: Millis)
    requires Inv(ed, s)
    ensures Inv(ed, HandleSetRecords(ed, s, e, domain, records, now).0)
  {
    SetRecordsPublishes(ed, s, e, domain, records, now);
    if HandleSetRecords(ed, s, e, domain, records, now).0 != s {
      PublishKeepsInv(ed, s, ClientIdentity(e.verifyingKey, e.rdns), domain, records, e.timestamp, e.signature);
    }
  }

  lemma BareAfterInsert(s: Store, d: Domain, reg: Registration, h: Host)
    requires d !in s.registrations && reg.rumor.None?
    ensures Bare(s.(registrations := s.registrations[d := reg]), h)
            == if h == reg.host then Bare(s, h) + {d} else Bare(s, h)
  {
  }

  lemma GrantKeepsCounts(s: Store, domain: Domain, reg: Registration)
    requires BareAreCounted(s) && domain !in s.registrations && reg.rumor.None?
        && Count(s, reg.host) < MAX_REGISTRATIONS
    ensures BareAreCounted(Granting(s, domain, reg))
  {
    var t := Granting(s, domain, reg);
    forall h
      ensures |Bare(t, h)| <= Count(t, h) <= MAX_REGISTRATIONS
    {
      BareAfterInsert(s, domain, reg, h);
      assert Bare(t, h) == Bare(s.(registrations := t.registrations), h);
    }
  }

  lemma GrantKeepsInv(ed: Ed25519, s: Store, domain: Domain, reg: Registration)
    requires Inv(ed, s) && domain !in s.registrations && reg.rumor.None? && Count(s, reg.host) < MAX_REGISTRATIONS
    requires reg.host in s.lastSeen
    ensures Inv(ed, Granting(s, domain, reg))
  {
    var t := Granting(s, domain, reg);
    GrantKeepsCounts(s, domain, reg);
    forall d | d in t.registrations
      ensures Coupled(ed, d, t.registrations[d])
      ensures t.registrations[d].rumor.Some? ==> Claimed(t, t.registrations[d].host, d)
    {
      assert d != domain ==> t.registrations[d] == s.registrations[d] && Coupled(ed, d, s.registrations[d]);
    }
  }

  /** Registering leaves the store alone, sweeps it, or sweeps it and grants the name. */
  lemma RegisterGrants(ed: Ed25519, s: Store, domain: Domain, client: ClientIdentity, now: Millis,
                       order: seq<Host>, nonce: Nonce)
    ensures var host := QuotaKey(client.rdns);
            var swept := Sweep(ed, s, order, now);
            var (t, outcome) := Register(ed, s, domain, client, now, order, nonce);
            || (t == s && outcome == Err(NotLive) && !IsLive(s, host, now))
            || (&& t == swept && outcome == Err(LimitReached) && IsLive(s, host, now)
                && (domain in swept.registrations || !CanRegister(swept, host, now)))
            || (&& t == Granting(swept, domain, Unleased(client, outcome.value)) && outcome == Ok(Token(now, nonce))
                && domain !in swept.registrations && CanRegister(swept, host, now) && IsLive(s, host, now))
  {
  }

  lemma RegisterKeepsInv(ed: Ed25519, s: Store, domain: Domain, client: ClientIdentity, now: Millis,
                         order: seq<Host>, nonce: Nonce)
    requires Inv(ed, s)
    ensures Inv(ed, Register(ed, s, domain, client, now, order, nonce).0)
  {
    RegisterGrants(ed, s, domain, client, now, order, nonce);
    SweepKeepsInv(ed, s, order, now);
    var (t, outcome) := Register(ed, s, domain, client, now, order, nonce);
    if outcome.Ok? {
      GrantKeepsInv(ed, Sweep(ed, s, order, now), domain, Unleased(client, outcome.value));
    }
  }

  lemma HandleRegisterKeepsInv(ed: Ed25519, s: Store, e: Envelope, domain: Domain, verified: bool, now: Millis,
                               order: seq<Host>, nonce: Nonce)
    requires Inv(ed, s)
    ensures Inv(ed, HandleRegister(ed, s, e, domain, verified, now, order, nonce).0)
  {
    match Authenticate(ed, e, RegisterMessage(domain, e.timestamp), now)
    case Err(_) =>
    case Ok(client) =>
      RegisterKeepsInv(ed, s, domain, client, now, order, nonce);
      match Register(ed, s, domain, client, now, order, nonce)
      case (t, Err(_)) =>
      case (t, Ok(token)) =>
        if ClientKey(client) in t.evidence {
          var lease := LeaseFor(e, client, domain, token, t.evidence[ClientKey(client)]);
          if Attachable(t, lease) {
            SubmitKeepsInv(ed, t, lease, now);
          }
        }
  }

  lemma AdoptKeepsInv(ed: Ed25519, s: Store, r: Rumor, now: Millis)
    requires Inv(ed, s)
    ensures Inv(ed, AdoptRumor(ed, s, r, now))
  {
    if InForce(ed, r, now) {
      SubmitKeepsInv(ed, s, r, now);
    }
  }

  lemma NextKeepsInv(ed: Ed25519, s: Store, step: Step)
    requires Inv(ed, s)
    ensures Inv(ed, Next(ed, s, step))
  {
    match step
    case ProbeStep(e, now) => ProbeKeepsInv(ed, s, e, now);
    case RegisterStep(e, domain, verified, now, order, nonce) =>
      HandleRegisterKeepsInv(ed, s, e, domain, verified, now, order, nonce);
    case SetRecordsStep(e, domain, records, now) => SetRecordsKeepsInv(ed, s, e, domain, records, now);
    case AdoptStep(r, now) => AdoptKeepsInv(ed, s, r, now);
    case SweepStep(order, now) => SweepKeepsInv(ed, s, order, now);
  }

  lemma EmptyInv(ed: Ed25519)
    ensures Inv(ed, EMPTY)
  {
    assert forall h :: Bare(EMPTY, h) == {};
  }

  /** In every run of requests, leases heard and sweeps, at any clock readings, attached leases stay
      authorized and agree with their registrations, and capacity stays split: names without a lease
      are at most the counter, which is at most five, and names with one are among the host's claims,
      which are at most five. */
  lemma {:induction false} RunKeepsInv(ed: Ed25519, steps: seq<Step>)
    requires ValidRun(ed, EMPTY, steps)
    ensures Inv(ed, Run(ed, EMPTY, steps))
  {
    if steps == [] {
      EmptyInv(ed);
    } else {
      RunKeepsInv(ed, steps[..|steps| - 1]);
      NextKeepsInv(ed, Run(ed, EMPTY, steps[..|steps| - 1]), steps[|steps| - 1]);
    }
  }

  // ---------------------------------------------------------------- nothing stale survives a sweep

  predicate Justified(ed: Ed25519, s: Store, reg: Registration, now: Millis) {
    match reg.rumor
    case Some(r) => InForce(ed, r, now)
    case None => IsLive(s, reg.host, now)
  }

  lemma SweptLeaseIsInForce(ed: Ed25519, s: Store, order: seq<Host>, now: Millis, d: Domain, reg: Registration)
    requires Inv(ed, s) && Enumerates(order, s.claims.Keys)
    requires Get(Sweep(ed, s, order, now).registrations, d) == Some(reg) && reg.rumor.Some?
    ensures InForce(ed, reg.rumor.value, now)
  {
    hide InForce, Sweep, SlotSweep, ClaimsFiled, LeasesCoupled, BareAreSeen, BareAreCounted, ClaimsCapped;
    var base, table := ExpireHosts(s, now), KeptTable(ed, s.claims, now);
    SweepAt(ed, s, order, now, d);
    SweepSettlesOrKeeps(Get(base.registrations, d), table, order, d);
    assert Settled(Some(reg), table, d) by {
      if Get(s.registrations, d) == Some(reg) {
        assert Claimed(s, reg.host, d);
        assert BackedBy(Some(reg), reg.host) && reg.host in order;
      }
    }
    var h :| Contends(table, d, h) && Some(reg) == Holding(table, d, h);
    RetainedIsInForce(ed, s.claims[h], now, d);
  }

  lemma SweptIsJustified(ed: Ed25519, s: Store, order: seq<Host>, now: Millis, d: Domain)
    requires Inv(ed, s) && Enumerates(order, s.claims.Keys) && d in Sweep(ed, s, order, now).registrations
    ensures var t := Sweep(ed, s, order, now); Justified(ed, t, t.registrations[d], now)
  {
    var t := Sweep(ed, s, order, now);
    var reg := t.registrations[d];
    if reg.rumor.Some? {
      SweptLeaseIsInForce(ed, s, order, now, d, reg);
    } else {
      SweepKeepsInv(ed, s, order, now);
      SweepClaims(ed, s, order, now);
      assert t.lastSeen == s.lastSeen - Expired(s, now);
      assert reg.host in t.lastSeen;
    }
  }

  /** After a sweep in any run, each registration carries an authorized lease that is live, or its
      host has been seen within the window. */
  lemma NothingStaleSurvives(ed: Ed25519, steps: seq<Step>, order: seq<Host>, now: Millis)
    requires ValidRun(ed, EMPTY, steps) && Enumerates(order, Run(ed, EMPTY, steps).claims.Keys)
    ensures var t := Sweep(ed, Run(ed, EMPTY, steps), order, now);
            forall d | d in t.registrations :: Justified(ed, t, t.registrations[d], now)
  {
    RunKeepsInv(ed, steps);
    var s := Run(ed, EMPTY, steps);
    var t := Sweep(ed, s, order, now);
    forall d | d in t.registrations
      ensures Justified(ed, t, t.registrations[d], now)
    {
      SweptIsJustified(ed, s, order, now, d);
    }
  }

  // ---------------------------------------------------------------- no promotion

  predicate Submits(step: Step, h: Host, d: Domain) {
    match step
    case RegisterStep(e, domain, _, _, _, _) => QuotaKey(e.rdns) == h && domain == d
    case AdoptStep(r, _) => QuotaKey(r.rdns) == h && r.domain == d
    case _ => false
  }

  lemma SubmitClaims(ed: Ed25519, s: Store, r: Rumor, now: Millis, h: Host, d: Domain)
    requires Claimed(Submit(ed, s, r, now), h, d)
    ensures Claimed(s, h, d) || (QuotaKey(r.rdns) == h && r.domain == d)
  {
  }

  lemma {:induction false} ReconcileAllClaimed(ed: Ed25519, s: Store, order: seq<Host>, now: Millis, h: Host, d: Domain)
    requires Claimed(ReconcileAll(ed, s, order, now), h, d)
    ensures Claimed(s, h, d)
  {
    if order != [] {
      ReconcileAllClaimed(ed, s, order[..|order| - 1], now, h, d);
    }
  }

  lemma RegisterClaims(ed: Ed25519, s: Store, domain: Domain, client: ClientIdentity, now: Millis,
                       order: seq<Host>, nonce: Nonce, h: Host, d: Domain)
    requires Claimed(Register(ed, s, domain, client, now, order, nonce).0, h, d)
    ensures Claimed(s, h, d)
  {
    if IsLive(s, QuotaKey(client.rdns), now) {
      ReconcileAllClaimed(ed, ExpireHosts(s, now), order, now, h, d);
    }
  }

  lemma HandleRegisterClaims(ed: Ed25519, s: Store, e: Envelope, domain: Domain, verified: bool, now: Millis,
                             order: seq<Host>, nonce: Nonce, h: Host, d: Domain)
    requires Claimed(HandleRegister(ed, s, e, domain, verified, now, order, nonce).0, h, d)
    requires !(QuotaKey(e.rdns) == h && domain == d)
    ensures Claimed(s, h, d)
  {
    match Authenticate(ed, e, RegisterMessage(domain, e.timestamp), now)
    case Err(_) =>
    case Ok(client) =>
      if verified {
        var (t, outcome) := Register(ed, s, domain, client, now, order, nonce);
        if outcome.Ok? && ClientKey(client) in t.evidence {
          var lease := LeaseFor(e, client, domain, outcome.value, t.evidence[ClientKey(client)]);
          if Attachable(t, lease) {
            SubmitClaims(ed, t, lease, now, h, d);
          }
        }
        RegisterClaims(ed, s, domain, client, now, order, nonce, h, d);
      }
  }

  lemma NextClaims(ed: Ed25519, s: Store, step: Step, h: Host, d: Domain)
    requires Claimed(Next(ed, s, step), h, d) && !Submits(step, h, d)
    ensures Claimed(s, h, d)
  {
    match step
    case ProbeStep(e, now) =>
    case RegisterStep(e, domain, verified, now, order, nonce) =>
      HandleRegisterClaims(ed, s, e, domain, verified, now, order, nonce, h, d);
    case SetRecordsStep(e, domain, records, now) =>
    case AdoptStep(r, now) =>
      if InForce(ed, r, now) {
        SubmitClaims(ed, s, r, now, h, d);
      }
    case SweepStep(order, now) => ReconcileAllClaimed(ed, ExpireHosts(s, now), order, now, h, d);
  }

  /** A claim that a host does not hold, turned away or lapsed, never comes back by itself: until
      that very pair is submitted again it is neither claimed nor registered under a lease, whatever
      becomes vacant meanwhile. */
  lemma {:induction false} NoPromotion(ed: Ed25519, before: seq<Step>, after: seq<Step>, h: Host, d: Domain)
    requires ValidRun(ed, EMPTY, before + after)
    requires !Claimed(Run(ed, EMPTY, before), h, d)
    requires forall step | step in after :: !Submits(step, h, d)
    ensures var t := Run(ed, EMPTY, before + after);
            !Claimed(t, h, d) && !BackedBy(Get(t.registrations, d), h)
    decreases after
  {
    hide Next, Enabled, Submits, Claimed, Inv, BackedBy;
    var steps := before + after;
    RunKeepsInv(ed, steps);
    if after == [] {
      assert steps == before;
    } else {
      var init := after[..|after| - 1];
      assert steps[..|steps| - 1] == before + init;
      NoPromotion(ed, before, init, h, d);
      if Claimed(Run(ed, EMPTY, steps), h, d) {
        NextClaims(ed, Run(ed, EMPTY, before + init), after[|after| - 1], h, d);
      }
    }
    UnclaimedIsUnbacked(ed, Run(ed, EMPTY, steps), h, d);
  }

  lemma UnclaimedIsUnbacked(ed: Ed25519, s: Store, h: Host, d: Domain)
    requires Inv(ed, s)
    ensures BackedBy(Get(s.registrations, d), h) ==> Claimed(s, h, d)
  {
    hide Coupled, Filed;
  }
}
