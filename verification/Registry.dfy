/** The registration table as a value: what each operation of store.rs, liveness.rs and api.rs
    does to it. Class `RegistryStore` carries these out step by step. */
module Registry {
  import opened Bytes
  import opened Outcomes
  import opened Tokens
  import opened Collision
  import opened Identity

  const LIVENESS_WINDOW := 60_000
  const MAX_REGISTRATIONS := 5

  datatype Registration = Registration(
    clientKey: string, host: Host, token: Token, records: seq<Record>, rumor: Option<Rumor>)

  type Claims = map<Domain, Rumor>

  datatype Store = Store(
    registrations: map<Domain, Registration>,
    claims: map<Host, Claims>,
    lastSeen: map<Host, Millis>,
    counts: map<Host, nat>,
    evidence: map<string, (Millis, seq<byte>)>)

  const EMPTY := Store(map[], map[], map[], map[], map[])

  function SaturatingSub(a: nat, b: nat): nat {
    if a >= b then a - b else 0
  }

  predicate LeaseIsLive(r: Rumor, now: Millis) {
    SaturatingSub(now, r.probedAt) <= LIVENESS_WINDOW
  }

  // ---------------------------------------------------------------- the first five claims

  /** The sort order of `reconcile_quota`: token key, then domain. */
  predicate Outranks(c: Claims, d: Domain, e: Domain)
    requires d in c && e in c
  {
    var x, y := OrderingKey(c[d].token), OrderingKey(c[e].token);
    LexLess(x, y) || (x == y && LexLess(d, e))
  }

  function Ahead(c: Claims, d: Domain): set<Domain>
    requires d in c
  {
    set e | e in c && Outranks(c, e, d)
  }

  /** The claims with fewer than five claims ahead of them. */
  function FirstFive(c: Claims): Claims {
    map d | d in c && |Ahead(c, d)| < MAX_REGISTRATIONS :: c[d]
  }

  predicate InForce(ed: Ed25519, r: Rumor, now: Millis) {
    IsAuthorized(ed, r) && LeaseIsLive(r, now)
  }

  function Standing(ed: Ed25519, c: Claims, now: Millis): Claims {
    map d | d in c && InForce(ed, c[d], now) :: c[d]
  }

  function Retained(ed: Ed25519, c: Claims, now: Millis): Claims {
    FirstFive(Standing(ed, c, now))
  }

  // ---------------------------------------------------------------- reconciliation

  function FromRumor(r: Rumor, host: Host): Registration {
    Registration(r.clientKey, host, r.token, r.records, Some(r))
  }

  predicate BackedBy(slot: Option<Registration>, host: Host) {
    slot.Some? && slot.value.host == host && slot.value.rumor.Some?
  }

  /** What reconciling `host`, whose retained claim on one name is `claim`, makes of the
      registration of that name. */
  function SlotAfter(slot: Option<Registration>, claim: Option<Rumor>, host: Host): Option<Registration> {
    var cleared := if BackedBy(slot, host) then None else slot;
    match claim
    case None => cleared
    case Some(r) =>
      if cleared.None? || Negotiate(cleared.value.token, r.token) == r.token
      then Some(FromRumor(r, host)) else cleared
  }

  function ReconcileRegistrations(regs: map<Domain, Registration>, kept: Claims, host: Host)
    : map<Domain, Registration>
  {
    map d | d in regs.Keys + kept.Keys && SlotAfter(Get(regs, d), Get(kept, d), host).Some?
      :: SlotAfter(Get(regs, d), Get(kept, d), host).value
  }

  function Reconcile(ed: Ed25519, s: Store, host: Host, now: Millis): Store {
    if host !in s.claims then s else
      var kept := Retained(ed, s.claims[host], now);
      s.(claims := s.claims[host := kept],
         registrations := ReconcileRegistrations(s.registrations, kept, host))
  }

  function ReconcileAll(ed: Ed25519, s: Store, order: seq<Host>, now: Millis): Store {
    if order == [] then s
    else Reconcile(ed, ReconcileAll(ed, s, order[..|order| - 1], now), order[|order| - 1], now)
  }

  // ---------------------------------------------------------------- liveness and sweeping

  function Expired(s: Store, now: Millis): set<Host> {
    set h | h in s.lastSeen && SaturatingSub(now, s.lastSeen[h]) > LIVENESS_WINDOW
  }

  function ExpireHosts(s: Store, now: Millis): Store {
    var gone := Expired(s, now);
    s.(registrations := map d | d in s.registrations && s.registrations[d].host !in gone :: s.registrations[d],
       lastSeen := s.lastSeen - gone,
       counts := s.counts - gone)
  }

  /** `order` lists every element of `keys` once: one order a hash map may be iterated in. */
  ghost predicate Enumerates<T(!new)>(order: seq<T>, keys: set<T>) {
    && (forall i, j | 0 <= i < j < |order| :: order[i] != order[j])
    && (forall k :: k in order <==> k in keys)
  }

  /** `reclaim_stale`, visiting the claim table in the given order. */
  function Sweep(ed: Ed25519, s: Store, order: seq<Host>, now: Millis): Store {
    ReconcileAll(ed, ExpireHosts(s, now), order, now)
  }

  predicate IsLive(s: Store, host: Host, now: Millis) {
    host in s.lastSeen && SaturatingSub(now, s.lastSeen[host]) <= LIVENESS_WINDOW
  }

  function Count(s: Store, host: Host): nat {
    if host in s.counts then s.counts[host] else 0
  }

  predicate CanRegister(s: Store, host: Host, now: Millis) {
    IsLive(s, host, now) && Count(s, host) < MAX_REGISTRATIONS
  }

  // ---------------------------------------------------------------- store operations

  function Probe(s: Store, client: ClientIdentity, now: Millis, at: Millis, signature: seq<byte>): Store {
    s.(lastSeen := s.lastSeen[QuotaKey(client.rdns) := now],
       evidence := s.evidence[ClientKey(client) := (at, signature)])
  }

  function Reprobed(r: Rumor, key: string, at: Millis, signature: seq<byte>): Rumor {
    if r.clientKey == key then r.(probedAt := at, probeSignature := signature) else r
  }

  function ReprobedRegistration(reg: Registration, key: string, at: Millis, signature: seq<byte>): Registration {
    if reg.clientKey == key && reg.rumor.Some?
    then reg.(rumor := Some(reg.rumor.value.(probedAt := at, probeSignature := signature)))
    else reg
  }

  function ReprobedClaims(c: Claims, key: string, at: Millis, signature: seq<byte>): Claims {
    map d | d in c :: Reprobed(c[d], key, at, signature)
  }

  function RefreshProbe(s: Store, key: string, at: Millis, signature: seq<byte>): Store {
    s.(registrations := map d | d in s.registrations :: ReprobedRegistration(s.registrations[d], key, at, signature),
       claims := map h | h in s.claims :: ReprobedClaims(s.claims[h], key, at, signature))
  }

  predicate Owns(s: Store, domain: Domain, key: string) {
    domain in s.registrations && s.registrations[domain].clientKey == key
  }

  function SetRecords(s: Store, domain: Domain, key: string, records: seq<Record>): Store {
    if Owns(s, domain, key)
    then s.(registrations := s.registrations[domain := s.registrations[domain].(records := records)])
    else s
  }

  /** The registration's copy of the lease takes the records and their signature. */
  function WithRecordEvidence(reg: Registration, key: string, at: Millis, signature: seq<byte>): Registration {
    if reg.clientKey == key && reg.rumor.Some?
    then reg.(rumor := Some(reg.rumor.value.(
                records := reg.records, recordsAt := Some(at), recordsSignature := Some(signature))))
    else reg
  }

  /** The claim table's copy takes the signature but keeps its records. */
  function Resigned(r: Rumor, key: string, at: Millis, signature: seq<byte>): Rumor {
    if r.clientKey == key then r.(recordsAt := Some(at), recordsSignature := Some(signature)) else r
  }

  function ResignedClaims(c: Claims, domain: Domain, key: string, at: Millis, signature: seq<byte>): Claims {
    if domain in c then c[domain := Resigned(c[domain], key, at, signature)] else c
  }

  function AttachRecordEvidence(s: Store, domain: Domain, key: string, at: Millis, signature: seq<byte>): Store {
    s.(registrations := map d | d in s.registrations ::
         if d == domain then WithRecordEvidence(s.registrations[d], key, at, signature) else s.registrations[d],
       claims := map h | h in s.claims :: ResignedClaims(s.claims[h], domain, key, at, signature))
  }

  function Publish(s: Store, domain: Domain, key: string, records: seq<Record>, at: Millis,
                   signature: seq<byte>): Store {
    AttachRecordEvidence(SetRecords(s, domain, key, records), domain, key, at, signature)
  }

  /** The claim table with one more submission, before it is cut down. */
  function Filing(s: Store, r: Rumor): Store {
    var host := QuotaKey(r.rdns);
    var c := if host in s.claims then s.claims[host] else map[];
    s.(claims := s.claims[host := c[r.domain := r]])
  }

  function Submit(ed: Ed25519, s: Store, r: Rumor, now: Millis): Store {
    Reconcile(ed, Filing(s, r), QuotaKey(r.rdns), now)
  }

  predicate Attachable(s: Store, r: Rumor) {
    Owns(s, r.domain, r.clientKey) && s.registrations[r.domain].token == r.token
  }

  function AttachRumor(ed: Ed25519, s: Store, r: Rumor, now: Millis): Store {
    if Attachable(s, r) then Submit(ed, s, r, now) else s
  }

  function AdoptRumor(ed: Ed25519, s: Store, r: Rumor, now: Millis): Store {
    if InForce(ed, r, now) then Submit(ed, s, r, now) else s
  }

  datatype RegistrationError = NotLive | LimitReached

  function Unleased(client: ClientIdentity, token: Token): Registration {
    Registration(ClientKey(client), QuotaKey(client.rdns), token, [], None)
  }

  /** A name entered without a lease, and counted. */
  function Granting(s: Store, domain: Domain, reg: Registration): Store {
    s.(registrations := s.registrations[domain := reg],
       counts := s.counts[reg.host := Count(s, reg.host) + 1])
  }

  /** `register`; `nonce` is what the random generator returns and `order` how the claim table
      happens to be iterated. */
  function Register(ed: Ed25519, s: Store, domain: Domain, client: ClientIdentity, now: Millis,
                    order: seq<Host>, nonce: Nonce)
    : (Store, Result<Token, RegistrationError>)
  {
    var host := QuotaKey(client.rdns);
    if !IsLive(s, host, now) then (s, Err(NotLive))
    else
      var swept := Sweep(ed, s, order, now);
      if domain in swept.registrations || !CanRegister(swept, host, now) then (swept, Err(LimitReached))
      else
        var token := Token(now, nonce);
        (Granting(swept, domain, Unleased(client, token)), Ok(token))
  }

  // ---------------------------------------------------------------- the client API

  datatype Response =
    | ProbeAck
    | Registered(token: Token)
    | RecordsSet
    | Refused
    /** The handler stopped at its `expect`; the store keeps what it had written by then. */
    | Panicked

  function HandleProbe(ed: Ed25519, s: Store, e: Envelope, now: Millis): (Store, Response) {
    match Authenticate(ed, e, ProbeMessage(e.timestamp), now)
    case Ok(client) =>
      (RefreshProbe(Probe(s, client, now, e.timestamp, e.signature),
                    ClientKey(client), e.timestamp, e.signature), ProbeAck)
    case Err(_) => (s, Refused)
  }

  function LeaseFor(e: Envelope, client: ClientIdentity, domain: Domain, token: Token,
                    probe: (Millis, seq<byte>)): Rumor {
    Rumor(domain, token, ClientKey(client), e.verifyingKey, e.rdns, e.timestamp, e.signature,
          probe.0, probe.1, [], None, None)
  }

  function HandleRegister(ed: Ed25519, s: Store, e: Envelope, domain: Domain, rdnsVerified: bool,
                          now: Millis, order: seq<Host>, nonce: Nonce): (Store, Response) {
    match Authenticate(ed, e, RegisterMessage(domain, e.timestamp), now)
    case Err(_) => (s, Refused)
    case Ok(client) =>
      if !rdnsVerified then (s, Refused)
      else
        match Register(ed, s, domain, client, now, order, nonce)
        case (t, Err(_)) => (t, Refused)
        case (t, Ok(token)) =>
          if ClientKey(client) !in t.evidence then (t, Panicked)
          else
            var lease := LeaseFor(e, client, domain, token, t.evidence[ClientKey(client)]);
            (AttachRumor(ed, t, lease, now), Registered(token))
  }

  function HandleSetRecords(ed: Ed25519, s: Store, e: Envelope, domain: Domain, records: seq<Record>,
                            now: Millis): (Store, Response) {
    match Authenticate(ed, e, SetRecordsMessage(domain, records, e.timestamp), now)
    case Err(_) => (s, Refused)
    case Ok(client) =>
      if Owns(s, domain, ClientKey(client))
      then (Publish(s, domain, ClientKey(client), records, e.timestamp, e.signature), RecordsSet)
      else (s, Refused)
  }
}
