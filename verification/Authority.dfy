/** Who stands behind the names that a node knows: every lease was signed for by its owner, and every
    name goes back to one request or to one lease heard. */
module Authority {
  import opened Bytes
  import opened Tokens
  import opened Identity
  import opened Registry
  import opened Sweeping
  import opened Runs
  import opened HostCap
  import opened Gossip

  // ---------------------------------------------------------------- leases are signed

  /** The key that the lease names has signed for the lease's own name and for the probe, by the answers
      of the signature library; and the key string is that key's and hostname's. */
  predicate SignedByOwner(ed: Ed25519, r: Rumor) {
    && |r.ownerKey| == 32 && ed.keyParses(r.ownerKey) && r.clientKey == ClientKey(ClientIdentity(r.ownerKey, r.rdns))
    && ed.signatureParses(r.registrationSignature)
    && ed.verify(r.ownerKey, RegisterMessage(r.domain, r.registeredAt), r.registrationSignature)
    && ed.signatureParses(r.probeSignature)
    && ed.verify(r.ownerKey, ProbeMessage(r.probedAt), r.probeSignature)
  }

  /** The key has signed for the records too, or there are none and nothing to show for them. */
  predicate RecordsSigned(ed: Ed25519, r: Rumor) {
    if r.recordsAt.Some? && r.recordsSignature.Some?
    then ed.signatureParses(r.recordsSignature.value)
         && ed.verify(r.ownerKey, SetRecordsMessage(r.domain, r.records, r.recordsAt.value), r.recordsSignature.value)
    else r.recordsAt.None? && r.recordsSignature.None? && r.records == []
  }

  ghost predicate ClaimsSigned(ed: Ed25519, s: Store) {
    forall h, d | Claimed(s, h, d) :: SignedByOwner(ed, s.claims[h][d])
  }

  /** The lease says this name, of this host. */
  predicate Says(r: Rumor, h: Host, d: Domain) {
    r.domain == d && QuotaKey(r.rdns) == h
  }

  /** Every claim and every attached lease is its owner's, for the name and host it stands at; an
      attached lease also for the records that are served. */
  ghost predicate AllSigned(ed: Ed25519, s: Store) {
    && (forall h, d | Claimed(s, h, d) :: SignedByOwner(ed, s.claims[h][d]) && Says(s.claims[h][d], h, d))
    && (forall d | d in s.registrations && s.registrations[d].rumor.Some? ::
          var r := s.registrations[d].rumor.value;
          && SignedByOwner(ed, r) && RecordsSigned(ed, r) && Says(r, s.registrations[d].host, d)
          && r.records == s.registrations[d].records && r.token == s.registrations[d].token)
  }

  /** An authorized lease is one that its owner has signed for in every respect, and no other is. */
  lemma AuthorizedIffSigned(ed: Ed25519, r: Rumor)
    ensures IsAuthorized(ed, r) <==> SignedByOwner(ed, r) && RecordsSigned(ed, r)
  {
    hide ClientKey;
  }

  lemma RetainedAreSigned(ed: Ed25519, c: Claims, now: Millis, d: Domain)
    requires d in Retained(ed, c, now)
    ensures SignedByOwner(ed, Retained(ed, c, now)[d])
  {
    RetainedIsInForce(ed, c, now, d);
    AuthorizedIffSigned(ed, c[d]);
  }

  lemma SubmitKeepsSigned(ed: Ed25519, s: Store, r: Rumor, now: Millis)
    requires ClaimsSigned(ed, s)
    ensures ClaimsSigned(ed, Submit(ed, s, r, now))
  {
    hide SignedByOwner, Retained, QuotaKey, ReconcileRegistrations;
    var t, mid := Submit(ed, s, r, now), Filing(s, r);
    forall h, d | Claimed(t, h, d)
      ensures SignedByOwner(ed, t.claims[h][d])
    {
      if h == QuotaKey(r.rdns) {
        RetainedAreSigned(ed, mid.claims[h], now, d);
      } else {
        assert Claimed(s, h, d);
      }
    }
  }

  lemma SweepKeepsSigned(ed: Ed25519, s: Store, order: seq<Host>, now: Millis)
    requires Enumerates(order, s.claims.Keys)
    ensures ClaimsSigned(ed, Sweep(ed, s, order, now))
  {
    hide SignedByOwner, Retained, Sweep;
    SweepClaims(ed, s, order, now);
    var t := Sweep(ed, s, order, now);
    forall h, d | Claimed(t, h, d)
      ensures SignedByOwner(ed, t.claims[h][d])
    {
      RetainedAreSigned(ed, s.claims[h], now, d);
    }
  }

  lemma ReprobedIsSigned(ed: Ed25519, r: Rumor, client: ClientIdentity, at: Millis, signature: seq<byte>)
    requires SignedByOwner(ed, r) && |client.verifyingKey| == 32
    requires ed.Accepts(client.verifyingKey, ProbeMessage(at), signature)
    ensures SignedByOwner(ed, Reprobed(r, ClientKey(client), at, signature))
  {
    if r.clientKey == ClientKey(client) {
      SameOwner(r, client);
    }
    hide ClientKey;
  }

  lemma ProbeKeepsSignedClaims(ed: Ed25519, s: Store, e: Envelope, now: Millis)
    requires ClaimsSigned(ed, s)
    ensures ClaimsSigned(ed, HandleProbe(ed, s, e, now).0)
  {
    hide SignedByOwner, ClientKey, Reprobed;
    var t := HandleProbe(ed, s, e, now).0;
    forall h, d | t != s && Claimed(t, h, d)
      ensures SignedByOwner(ed, t.claims[h][d])
    {
      assert Claimed(s, h, d);
      ReprobedIsSigned(ed, s.claims[h][d], ClientOf(e), e.timestamp, e.signature);
    }
  }

  lemma ResignedIsSigned(ed: Ed25519, r: Rumor, key: string, at: Millis, signature: seq<byte>)
    requires SignedByOwner(ed, r)
    ensures SignedByOwner(ed, Resigned(r, key, at, signature))
  {
    hide ClientKey;
  }

  lemma PublishKeepsSignedClaims(ed: Ed25519, s: Store, domain: Domain, key: string, records: seq<Record>, at: Millis,
                                 signature: seq<byte>)
    requires ClaimsSigned(ed, s)
    ensures ClaimsSigned(ed, Publish(s, domain, key, records, at, signature))
  {
    hide SignedByOwner, Resigned, WithRecordEvidence;
    var t := Publish(s, domain, key, records, at, signature);
    forall h, d | Claimed(t, h, d)
      ensures SignedByOwner(ed, t.claims[h][d])
    {
      assert Claimed(s, h, d);
      ResignedIsSigned(ed, s.claims[h][d], key, at, signature);
    }
  }

  lemma NextKeepsSigned(ed: Ed25519, s: Store, step: Step)
    requires ClaimsSigned(ed, s) && Enabled(s, step)
    ensures ClaimsSigned(ed, Next(ed, s, step))
  {
    hide ClaimsSigned, HandleRegister, HandleProbe, HandleSetRecords, Sweep, Submit, InForce, Publish, Enumerates, Granting;
    match step
    case ProbeStep(e, now) => ProbeKeepsSignedClaims(ed, s, e, now);
    case RegisterStep(e, domain, verified, now, order, nonce) =>
      var r := RegisterShape(ed, s, e, domain, verified, now, order, nonce);
      SweepKeepsSigned(ed, s, order, now);
      var swept := Sweep(ed, s, order, now);
      var granted := Granting(swept, domain, Unleased(ClientOf(e), Token(now, nonce)));
      SameClaimsSigned(ed, swept, granted) by { GrantingSameClaims(swept, domain, Unleased(ClientOf(e), Token(now, nonce))); }
      SubmitKeepsSigned(ed, granted, r, now);
    case SetRecordsStep(e, domain, records, now) =>
      SetRecordsPublishes(ed, s, e, domain, records, now);
      PublishKeepsSignedClaims(ed, s, domain, ClientKey(ClientOf(e)), records, e.timestamp, e.signature);
    case AdoptStep(r, now) => SubmitKeepsSigned(ed, s, r, now);
    case SweepStep(order, now) => SweepKeepsSigned(ed, s, order, now);
  }

  lemma GrantingSameClaims(s: Store, domain: Domain, reg: Registration)
    ensures Granting(s, domain, reg).claims == s.claims
  {
  }

  lemma SameClaimsSigned(ed: Ed25519, s: Store, t: Store)
    requires ClaimsSigned(ed, s) && t.claims == s.claims
    ensures ClaimsSigned(ed, t)
  {
  }

  lemma InvIsSigned(ed: Ed25519, s: Store)
    requires Inv(ed, s) && ClaimsSigned(ed, s)
    ensures AllSigned(ed, s)
  {
    hide SignedByOwner, RecordsSigned, IsAuthorized, QuotaKey;
    forall h, d | Claimed(s, h, d)
      ensures Says(s.claims[h][d], h, d)
    {
      assert Filed(s.claims[h][d], h, d);
    }
    forall d | d in s.registrations && s.registrations[d].rumor.Some?
      ensures Coupled(ed, d, s.registrations[d])
      ensures SignedByOwner(ed, s.registrations[d].rumor.value) && RecordsSigned(ed, s.registrations[d].rumor.value)
    {
      AuthorizedIffSigned(ed, s.registrations[d].rumor.value);
    }
  }

  lemma NothingIsSigned(ed: Ed25519)
    ensures ClaimsSigned(ed, EMPTY)
  {
  }

  lemma {:induction false} RunKeepsSigned(ed: Ed25519, steps: seq<Step>)
    requires ValidRun(ed, EMPTY, steps)
    ensures ClaimsSigned(ed, Run(ed, EMPTY, steps))
  {
    hide ClaimsSigned, Next, Enabled;
    if steps == [] {
      NothingIsSigned(ed);
    } else {
      RunKeepsSigned(ed, steps[..|steps| - 1]);
      NextKeepsSigned(ed, Run(ed, EMPTY, steps[..|steps| - 1]), steps[|steps| - 1]);
    }
  }

  /** In every run, whatever is heard: every claim and every attached lease carries its owner's signature
      for that very name, for its probe, and, when attached, for the records served. */
  lemma LeasesAreSigned(ed: Ed25519, steps: seq<Step>)
    requires ValidRun(ed, EMPTY, steps)
    ensures AllSigned(ed, Run(ed, EMPTY, steps))
  {
    hide Run, ValidRun, Inv, ClaimsSigned, AllSigned;
    RunKeepsInv(ed, steps);
    RunKeepsSigned(ed, steps);
    InvIsSigned(ed, Run(ed, EMPTY, steps));
  }

  lemma {:induction false} AdoptAllKeepsSigned(ed: Ed25519, s: Store, rumors: seq<Rumor>, now: Millis)
    requires ClaimsSigned(ed, s)
    ensures ClaimsSigned(ed, AdoptAll(ed, s, rumors, now))
  {
    hide ClaimsSigned, Submit, InForce;
    if rumors != [] {
      AdoptAllKeepsSigned(ed, s, rumors[..|rumors| - 1], now);
      SubmitKeepsSigned(ed, AdoptAll(ed, s, rumors[..|rumors| - 1], now), rumors[|rumors| - 1], now);
    }
  }

  lemma AfterKeepsSigned(ed: Ed25519, n: Node, event: NodeEvent)
    requires ClaimsSigned(ed, n.store) && n.open.Keys == n.pending.Keys && Possible(n, event)
    ensures ClaimsSigned(ed, After(ed, n, event).store)
  {
    hide ClaimsSigned, AdoptAll, Next, Ask, Missing, Served, IsWellFormed, IsValidRumorResponse, Enabled;
    match event
    case Message(from, message, challenge, clock, now, victim) =>
      hide Prune;
      if message.Rumors? {
        AdoptAllKeepsSigned(ed, n.store, message.rumors, now);
      } else if message.Digest? {
        AskingKeepsStore(n, from, Missing(n.store, message.entries), challenge, clock, victim);
      }
    case Maintenance(_) =>
    case Local(step) => NextKeepsSigned(ed, n.store, step);
  }

  lemma {:induction false} GossipKeepsSigned(ed: Ed25519, events: seq<NodeEvent>, n: Node)
    requires Reaches(ed, Start(EMPTY), events, n)
    ensures ClaimsSigned(ed, n.store)
  {
    hide ClaimsSigned, Possible, After;
    if events == [] {
      NothingIsSigned(ed);
    } else {
      var init, last := events[..|events| - 1], events[|events| - 1];
      var m: Node :| Reaches(ed, Start(EMPTY), init, m) && m.open.Keys == m.pending.Keys && Possible(m, last)
          && n == After(ed, m, last);
      GossipKeepsSigned(ed, init, m);
      AfterKeepsSigned(ed, m, last);
    }
  }

  /** The same message by message, whatever peers send. */
  lemma GossipedLeasesAreSigned(ed: Ed25519, events: seq<NodeEvent>, n: Node)
    requires Reaches(ed, Start(EMPTY), events, n)
    ensures AllSigned(ed, n.store)
  {
    hide Reaches, Inv, ClaimsSigned, AllSigned;
    GossipKeepsStoreInv(ed, events, n);
    GossipKeepsSigned(ed, events, n);
    InvIsSigned(ed, n.store);
  }

  /** The key has never signed for registering this name. */
  ghost predicate NeverSignedFor(ed: Ed25519, key: seq<byte>, d: Domain) {
    forall at, signature :: !ed.verify(key, RegisterMessage(d, at), signature)
  }

  ghost predicate NeverLeasedUnder(s: Store, key: seq<byte>, d: Domain) {
    && (d in s.registrations && s.registrations[d].rumor.Some? ==> s.registrations[d].rumor.value.ownerKey != key)
    && forall h | Claimed(s, h, d) :: s.claims[h][d].ownerKey != key
  }

  lemma UnsignedIsNotLeased(ed: Ed25519, s: Store, key: seq<byte>, d: Domain)
    requires AllSigned(ed, s) && NeverSignedFor(ed, key, d)
    ensures NeverLeasedUnder(s, key, d)
  {
    hide ClientKey, QuotaKey, RecordsSigned;
  }

  /** A name that a key has never signed for is never leased or claimed under it: not by any request, and
      not by anything that a peer makes up. */
  lemma NoLeaseWithoutSignature(ed: Ed25519, steps: seq<Step>, events: seq<NodeEvent>, n: Node, key: seq<byte>, d: Domain)
    requires NeverSignedFor(ed, key, d) && ValidRun(ed, EMPTY, steps) && Reaches(ed, Start(EMPTY), events, n)
    ensures NeverLeasedUnder(Run(ed, EMPTY, steps), key, d) && NeverLeasedUnder(n.store, key, d)
  {
    hide Run, ValidRun, Reaches, AllSigned, NeverSignedFor, NeverLeasedUnder;
    LeasesAreSigned(ed, steps);
    GossipedLeasesAreSigned(ed, events, n);
    UnsignedIsNotLeased(ed, Run(ed, EMPTY, steps), key, d);
    UnsignedIsNotLeased(ed, n.store, key, d);
  }

  // ---------------------------------------------------------------- every name has an origin

  /** A name of a host, under a token and a client's key string. */
  datatype Mark = Mark(host: Host, domain: Domain, token: Token, clientKey: string)

  /** The name is registered so, or claimed so. */
  predicate Known(s: Store, m: Mark) {
    || (&& m.domain in s.registrations && s.registrations[m.domain].host == m.host
        && s.registrations[m.domain].token == m.token && s.registrations[m.domain].clientKey == m.clientKey)
    || (&& Claimed(s, m.host, m.domain)
        && s.claims[m.host][m.domain].token == m.token && s.claims[m.host][m.domain].clientKey == m.clientKey)
  }

  function MarkOf(r: Rumor): Mark {
    Mark(QuotaKey(r.rdns), r.domain, r.token, r.clientKey)
  }

  /** The request is dated within ten seconds of its arrival, and its own key has signed this message. */
  predicate Passes(ed: Ed25519, e: Envelope, message: Message, now: Millis) {
    && e.timestamp <= now + 10_000 && now <= e.timestamp + 10_000
    && |e.verifyingKey| == 32 && ed.keyParses(e.verifyingKey) && ed.signatureParses(e.signature)
    && ed.verify(e.verifyingKey, message, e.signature)
  }

  /** A request for the name, from a host whose reverse DNS was confirmed, dated within ten seconds of its
      arrival and signed by its own key; the token bears the time of arrival. */
  predicate Requested(ed: Ed25519, e: Envelope, domain: Domain, verified: bool, now: Millis, nonce: Nonce, m: Mark) {
    && verified && m == Mark(QuotaKey(e.rdns), domain, Token(now, nonce), ClientKey(ClientOf(e)))
    && Passes(ed, e, RegisterMessage(domain, e.timestamp), now)
  }

  /** A lease heard within a minute of its probe's date, signed in every respect. */
  predicate HeardOf(ed: Ed25519, r: Rumor, now: Millis, m: Mark) {
    m == MarkOf(r) && SignedByOwner(ed, r) && RecordsSigned(ed, r) && now <= r.probedAt + 60_000
  }

  predicate Originates(ed: Ed25519, step: Step, m: Mark) {
    match step
    case RegisterStep(e, domain, verified, now, _, nonce) => Requested(ed, e, domain, verified, now, nonce, m)
    case AdoptStep(r, now) => HeardOf(ed, r, now, m)
    case _ => false
  }

  lemma ReconcileKnows(ed: Ed25519, s: Store, h: Host, now: Millis, m: Mark)
    requires Known(Reconcile(ed, s, h, now), m)
    ensures Known(s, m)
  {
    hide Retained, ReconcileRegistrations;
    if h in s.claims {
      if m.domain in Retained(ed, s.claims[h], now) {
        RetainedIsInForce(ed, s.claims[h], now, m.domain);
      }
      ReconcileAt(ed, s, h, now, m.domain);
    }
  }

  lemma {:induction false} ReconcileAllKnows(ed: Ed25519, s: Store, order: seq<Host>, now: Millis, m: Mark)
    requires Known(ReconcileAll(ed, s, order, now), m)
    ensures Known(s, m)
  {
    hide Known, Reconcile;
    if order != [] {
      var init, last := order[..|order| - 1], order[|order| - 1];
      ReconcileKnows(ed, ReconcileAll(ed, s, init, now), last, now, m);
      ReconcileAllKnows(ed, s, init, now, m);
    }
  }

  lemma ExpireKnows(s: Store, now: Millis, m: Mark)
    requires Known(ExpireHosts(s, now), m)
    ensures Known(s, m)
  {
  }

  lemma SweepKnows(ed: Ed25519, s: Store, order: seq<Host>, now: Millis, m: Mark)
    requires Known(Sweep(ed, s, order, now), m)
    ensures Known(s, m)
  {
    hide Known, ReconcileAll, ExpireHosts;
    ReconcileAllKnows(ed, ExpireHosts(s, now), order, now, m);
    ExpireKnows(s, now, m);
  }

  lemma FilingKnows(s: Store, r: Rumor, m: Mark)
    requires Known(Filing(s, r), m)
    ensures Known(s, m) || m == MarkOf(r)
  {
    hide QuotaKey;
  }

  lemma SubmitKnows(ed: Ed25519, s: Store, r: Rumor, now: Millis, m: Mark)
    requires Known(Submit(ed, s, r, now), m)
    ensures Known(s, m) || m == MarkOf(r)
  {
    hide Known, Reconcile, Filing, QuotaKey;
    ReconcileKnows(ed, Filing(s, r), QuotaKey(r.rdns), now, m);
    FilingKnows(s, r, m);
  }

  lemma GrantingKnows(s: Store, domain: Domain, reg: Registration, m: Mark)
    requires Known(Granting(s, domain, reg), m)
    ensures Known(s, m) || m == Mark(reg.host, domain, reg.token, reg.clientKey)
  {
  }

  lemma ProbeKnows(ed: Ed25519, s: Store, e: Envelope, now: Millis, m: Mark)
    requires Known(HandleProbe(ed, s, e, now).0, m)
    ensures Known(s, m)
  {
    hide ClientKey, Authenticate;
  }

  lemma PublishedClaimsKnow(s: Store, domain: Domain, key: string, records: seq<Record>, at: Millis, signature: seq<byte>,
                            h: Host, d: Domain)
    ensures var t := Publish(s, domain, key, records, at, signature);
            Claimed(t, h, d) ==>
              && Claimed(s, h, d) && t.claims[h][d].token == s.claims[h][d].token
              && t.claims[h][d].clientKey == s.claims[h][d].clientKey
  {
    hide WithRecordEvidence;
  }

  lemma PublishedRegistrationsKnow(s: Store, domain: Domain, key: string, records: seq<Record>, at: Millis,
                                   signature: seq<byte>, d: Domain)
    ensures var t := Publish(s, domain, key, records, at, signature);
            d in t.registrations ==>
              && d in s.registrations && t.registrations[d].host == s.registrations[d].host
              && t.registrations[d].token == s.registrations[d].token
              && t.registrations[d].clientKey == s.registrations[d].clientKey
  {
    hide ResignedClaims;
  }

  lemma PublishKnows(s: Store, domain: Domain, key: string, records: seq<Record>, at: Millis, signature: seq<byte>, m: Mark)
    requires Known(Publish(s, domain, key, records, at, signature), m)
    ensures Known(s, m)
  {
    PublishedClaimsKnow(s, domain, key, records, at, signature, m.host, m.domain);
    PublishedRegistrationsKnow(s, domain, key, records, at, signature, m.domain);
    hide Publish;
  }

  lemma RegisterKnows(ed: Ed25519, s: Store, e: Envelope, domain: Domain, verified: bool, now: Millis, order: seq<Host>,
                      nonce: Nonce, m: Mark)
    requires Known(HandleRegister(ed, s, e, domain, verified, now, order, nonce).0, m)
    ensures Known(s, m) || Requested(ed, e, domain, verified, now, nonce, m)
  {
    AuthenticatedMeans(ed, e, RegisterMessage(domain, e.timestamp), now);
    hide Known, HandleRegister, Sweep, Submit, Granting, ClientKey, QuotaKey, Authenticate;
    var r := RegisterShape(ed, s, e, domain, verified, now, order, nonce);
    var swept, reg := Sweep(ed, s, order, now), Unleased(ClientOf(e), Token(now, nonce));
    if Known(swept, m) { SweepKnows(ed, s, order, now, m); }
    if Known(Granting(swept, domain, reg), m) { GrantingKnows(swept, domain, reg, m); }
    if Known(Submit(ed, Granting(swept, domain, reg), r, now), m) {
      SubmitKnows(ed, Granting(swept, domain, reg), r, now, m);
    }
  }

  /** What the request has passed, by the clock and the answers of the signature library. */
  lemma AuthenticatedMeans(ed: Ed25519, e: Envelope, message: Message, now: Millis)
    ensures Authenticate(ed, e, message, now).Ok? <==> Passes(ed, e, message, now)
  {
  }

  lemma NextKnows(ed: Ed25519, s: Store, step: Step, m: Mark)
    requires Known(Next(ed, s, step), m)
    ensures Known(s, m) || Originates(ed, step, m)
  {
    hide Known, HandleRegister, HandleProbe, HandleSetRecords, Sweep, Submit, Publish, Requested, ClientKey;
    match step
    case ProbeStep(e, now) => ProbeKnows(ed, s, e, now, m);
    case RegisterStep(e, domain, verified, now, order, nonce) =>
      RegisterKnows(ed, s, e, domain, verified, now, order, nonce, m);
    case SetRecordsStep(e, domain, records, now) =>
      SetRecordsPublishes(ed, s, e, domain, records, now);
      if HandleSetRecords(ed, s, e, domain, records, now).0 != s {
        PublishKnows(s, domain, ClientKey(ClientOf(e)), records, e.timestamp, e.signature, m);
      }
    case AdoptStep(r, now) =>
      if InForce(ed, r, now) {
        AuthorizedIffSigned(ed, r);
        SubmitKnows(ed, s, r, now, m);
      }
    case SweepStep(order, now) => SweepKnows(ed, s, order, now, m);
  }

  lemma NothingIsKnown(m: Mark)
    ensures !Known(EMPTY, m)
  {
  }

  /** Whatever is registered or claimed in a run goes back to one step of it: a confirmed host's own,
      fresh, signed request for that name, granted under that token, or a live lease, signed in every
      respect, that was heard. */
  lemma {:induction false} EveryNameHasAnOrigin(ed: Ed25519, steps: seq<Step>, m: Mark)
    requires Known(Run(ed, EMPTY, steps), m)
    ensures exists i :: 0 <= i < |steps| && Originates(ed, steps[i], m)
  {
    hide Known, Originates, Next;
    if steps == [] {
      NothingIsKnown(m);
    } else {
      var init, last := steps[..|steps| - 1], steps[|steps| - 1];
      NextKnows(ed, Run(ed, EMPTY, init), last, m);
      if Originates(ed, last, m) {
        assert Originates(ed, steps[|steps| - 1], m);
      } else {
        EveryNameHasAnOrigin(ed, init, m);
        var i :| 0 <= i < |init| && Originates(ed, init[i], m);
        assert Originates(ed, steps[i], m);
      }
    }
  }

  // ---------------------------------------------------------------- replies

  /** Why a request is refused is what is first wrong with it: its date, its key, the form of its
      signature, or the signature. */
  lemma RefusedForWhatIsWrong(ed: Ed25519, e: Envelope, message: Message, now: Millis)
    requires Authenticate(ed, e, message, now).Err?
    ensures match Authenticate(ed, e, message, now).error
            case Stale => e.timestamp > now + 10_000 || now > e.timestamp + 10_000
            case MalformedKey =>
              && e.timestamp <= now + 10_000 && now <= e.timestamp + 10_000
              && !(|e.verifyingKey| == 32 && ed.keyParses(e.verifyingKey))
            case MalformedSignature =>
              |e.verifyingKey| == 32 && ed.keyParses(e.verifyingKey) && !ed.signatureParses(e.signature)
            case InvalidSignature =>
              && |e.verifyingKey| == 32 && ed.keyParses(e.verifyingKey) && ed.signatureParses(e.signature)
              && !ed.verify(e.verifyingKey, message, e.signature)
  {
  }

  /** A probe is acknowledged if and only if it passes; the host is then seen, and otherwise nothing
      changes. */
  lemma ProbesAreAcknowledgedIff(ed: Ed25519, s: Store, e: Envelope, now: Millis)
    ensures var (t, reply) := HandleProbe(ed, s, e, now);
            && (reply == ProbeAck <==> Passes(ed, e, ProbeMessage(e.timestamp), now))
            && (reply == ProbeAck ==> IsLive(t, QuotaKey(e.rdns), now))
            && (reply != ProbeAck ==> reply == Refused && t == s)
  {
    AuthenticatedMeans(ed, e, ProbeMessage(e.timestamp), now);
    hide Passes, ClientKey, QuotaKey;
  }

  /** Records are set if and only if the request passes and its key and hostname hold the name; they are
      then what the name serves, and otherwise nothing changes. */
  lemma RecordsAreSetIff(ed: Ed25519, s: Store, e: Envelope, domain: Domain, records: seq<Record>, now: Millis)
    ensures var (t, reply) := HandleSetRecords(ed, s, e, domain, records, now);
            && (reply == RecordsSet
                <==> && Passes(ed, e, SetRecordsMessage(domain, records, e.timestamp), now) && domain in s.registrations
                     && s.registrations[domain].clientKey == ClientKey(ClientOf(e)))
            && (reply == RecordsSet ==> domain in t.registrations && t.registrations[domain].records == records)
            && (reply != RecordsSet ==> reply == Refused && t == s)
  {
    AuthenticatedMeans(ed, e, SetRecordsMessage(domain, records, e.timestamp), now);
    hide Passes, ClientKey, ResignedClaims;
  }

  /** A name is granted, whether or not the handler then stops, if and only if the request passes, the
      host's reverse DNS was confirmed, the host was seen within the minute, and after the sweep the name
      is free and the host counts fewer than five. */
  lemma NamesAreGrantedIff(ed: Ed25519, s: Store, e: Envelope, domain: Domain, verified: bool, now: Millis, order: seq<Host>,
                           nonce: Nonce)
    requires Enumerates(order, s.claims.Keys)
    ensures var (h, swept) := (QuotaKey(e.rdns), Sweep(ed, s, order, now));
            var (t, reply) := HandleRegister(ed, s, e, domain, verified, now, order, nonce);
            && (reply != Refused
                <==> && Passes(ed, e, RegisterMessage(domain, e.timestamp), now) && verified
                     && h in s.lastSeen && now - 60_000 <= s.lastSeen[h]
                     && domain !in swept.registrations && Count(swept, h) < 5)
            && (reply == Refused ==> t == s || t == swept)
            && (reply != Refused ==> reply == Registered(Token(now, nonce)) || reply == Panicked)
  {
    AuthenticatedMeans(ed, e, RegisterMessage(domain, e.timestamp), now);
    RegisterGrants(ed, s, domain, ClientOf(e), now, order, nonce);
    SweepClaims(ed, s, order, now);
    hide Passes, ClientKey, QuotaKey, Sweep, Register, AttachRumor;
    if Authenticate(ed, e, RegisterMessage(domain, e.timestamp), now).Ok? {
      AuthenticatedAs(ed, e, RegisterMessage(domain, e.timestamp), now);
    }
    hide Authenticate;
  }
}
