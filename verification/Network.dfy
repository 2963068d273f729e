/** A name that two hosts hold leases on, in a network of nodes that gossip: who holds it at which node,
    after any run, and when the nodes can come to agree. */
module Networks {
  import opened Bytes
  import opened Outcomes
  import opened Tokens
  import opened Collision
  import opened Identity
  import opened Registry
  import opened HostCap
  import opened Gossip
  import opened HonestRound
  import opened Contests
  import opened Runs
  import Convergence
  import Limits
  import Overflow
  import Rivals

  // ---------------------------------------------------------------- client requests

  /** Nothing but the contents of leases and records separates the two stores' tables. */
  ghost predicate SameLeases(s: Store, t: Store) {
    && t.registrations.Keys == s.registrations.Keys
    && (forall d | d in s.registrations ::
          && t.registrations[d].host == s.registrations[d].host && t.registrations[d].token == s.registrations[d].token
          && (t.registrations[d].rumor.Some? <==> s.registrations[d].rumor.Some?))
    && Convergence.SameTokens(s.claims, t.claims)
  }

  lemma SameLeasesClaims(s: Store, t: Store, h: Host, d: Domain)
    requires SameLeases(s, t)
    ensures Claimed(t, h, d) <==> Claimed(s, h, d)
    ensures Claimed(t, h, d) ==> t.claims[h][d].token == s.claims[h][d].token
  {
    Convergence.SameTokensContend(s.claims, t.claims, d, h);
  }

  lemma SameLeasesSeen(s: Store, t: Store, l: Lease)
    requires SameLeases(s, t)
    ensures Sees(t, l) <==> Sees(s, l)
  {
    SameLeasesClaims(s, t, l.host, l.domain);
  }

  lemma SameLeasesPoised(s: Store, t: Store, c: Contest)
    requires SameLeases(s, t) && Poised(s, c)
    ensures Poised(t, c) && Opinion(t, c.name) == Opinion(s, c.name)
  {
    hide Admits, Withstands, Convergence.SameTokens;
    forall l | Sees(t, l)
      ensures Admits(c, l)
    {
      SameLeasesSeen(s, t, l);
    }
    forall h
      ensures Claimed(t, h, c.name) <==> Claimed(s, h, c.name)
      ensures Claimed(t, h, c.name) ==> t.claims[h][c.name].token == s.claims[h][c.name].token
    {
      SameLeasesClaims(s, t, h, c.name);
    }
    hide Sees;
  }

  lemma ProbeSameLeases(s: Store, client: ClientIdentity, now: Millis, at: Millis, signature: seq<byte>)
    ensures SameLeases(s, RefreshProbe(Probe(s, client, now, at, signature), ClientKey(client), at, signature))
  {
    hide ClientKey;
  }

  lemma PublishSameLeases(s: Store, domain: Domain, key: string, records: seq<Record>, at: Millis, signature: seq<byte>)
    ensures SameLeases(s, Publish(s, domain, key, records, at, signature))
  {
    PublishedTables(s, domain, key, records, at, signature);
    var t := Publish(s, domain, key, records, at, signature);
    hide Publish;
    forall h | h in s.claims
      ensures Convergence.SameKept(s.claims[h], t.claims[h])
    {
      PublishedClaims(s, domain, key, records, at, signature, h);
    }
    forall d | d in s.registrations
      ensures t.registrations[d].token == s.registrations[d].token
    {
      PublishedRegistration(s, domain, key, records, at, signature, d);
      PublishedToken(s, domain, key, records, at, signature, d);
    }
    PublishSameShape(s, domain, key, records, at, signature);
  }

  lemma PublishedClaims(s: Store, domain: Domain, key: string, records: seq<Record>, at: Millis, signature: seq<byte>,
                        h: Host)
    requires h in s.claims
    ensures var t := Publish(s, domain, key, records, at, signature);
            h in t.claims && Convergence.SameKept(s.claims[h], t.claims[h])
  {
    hide WithRecordEvidence;
  }

  lemma PublishedToken(s: Store, domain: Domain, key: string, records: seq<Record>, at: Millis, signature: seq<byte>,
                       d: Domain)
    requires d in s.registrations
    ensures var t := Publish(s, domain, key, records, at, signature);
            d in t.registrations && t.registrations[d].token == s.registrations[d].token
  {
    hide ResignedClaims;
  }

  lemma ProbeKeepsOpinion(ed: Ed25519, s: Store, e: Envelope, now: Millis, c: Contest)
    requires Poised(s, c)
    ensures var t := HandleProbe(ed, s, e, now).0; Poised(t, c) && Opinion(t, c.name) == Opinion(s, c.name)
  {
    hide Poised, RefreshProbe, Probe, SameLeases;
    match Authenticate(ed, e, ProbeMessage(e.timestamp), now)
    case Err(_) =>
    case Ok(client) =>
      ProbeSameLeases(s, client, now, e.timestamp, e.signature);
      var probed := Probe(s, client, now, e.timestamp, e.signature);
      SameLeasesPoised(s, RefreshProbe(probed, ClientKey(client), e.timestamp, e.signature), c);
  }

  lemma SetRecordsKeepsOpinion(ed: Ed25519, s: Store, e: Envelope, domain: Domain, records: seq<Record>, now: Millis,
                               c: Contest)
    requires Poised(s, c)
    ensures var t := HandleSetRecords(ed, s, e, domain, records, now).0;
            Poised(t, c) && Opinion(t, c.name) == Opinion(s, c.name)
  {
    SetRecordsPublishes(ed, s, e, domain, records, now);
    hide Poised, Publish, SameLeases, HandleSetRecords, ClientKey;
    var key := ClientKey(ClientIdentity(e.verifyingKey, e.rdns));
    PublishSameLeases(s, domain, key, records, e.timestamp, e.signature);
    SameLeasesPoised(s, Publish(s, domain, key, records, e.timestamp, e.signature), c);
  }

  lemma GrantingKeepsOpinion(ed: Ed25519, s: Store, domain: Domain, reg: Registration, c: Contest, now: Millis)
    requires Poised(s, c) && domain != c.name && reg.rumor.None? && Vouched(ed, s, c.name, now)
    ensures var t := Granting(s, domain, reg);
            && Poised(t, c) && Opinion(t, c.name) == Opinion(s, c.name) && Vouched(ed, t, c.name, now)
            && SameClaim(s, t, c.name)
  {
    var t := Granting(s, domain, reg);
    forall l | Sees(t, l)
      ensures Admits(c, l)
    {
      GrantingSees(s, domain, reg, l);
    }
    hide Sees, Admits, InForce;
    assert Coherent(s, c.name);
    assert forall h :: Claimed(t, h, c.name) <==> Claimed(s, h, c.name);
  }

  /** A request that leaves the contest as it is: for the name itself when it is held, or for another
      name, under a token behind those of the contest. */
  ghost predicate Unrelated(s: Store, c: Contest, e: Envelope, domain: Domain, token: Token) {
    if domain == c.name then domain in s.registrations else Admits(c, Lease(QuotaKey(e.rdns), domain, token))
  }

  lemma RegisterKeepsOpinion(ed: Ed25519, s: Store, e: Envelope, domain: Domain, verified: bool, now: Millis,
                             order: seq<Host>, nonce: Nonce, c: Contest)
    requires Inv(ed, s) && Poised(s, c) && Fair(c) && Enumerates(order, s.claims.Keys) && Vouched(ed, s, c.name, now)
    requires Unrelated(s, c, e, domain, Token(now, nonce))
    ensures var t := HandleRegister(ed, s, e, domain, verified, now, order, nonce).0;
            Poised(t, c) && Opinion(t, c.name) == Opinion(s, c.name) && SameClaim(s, t, c.name)
  {
    SweepKeepsOpinion(ed, s, order, now, c);
    hide Inv, Poised, Fair, Vouched, Sweep, Submit, HandleRegister, Granting, Admits, QuotaKey, ClientKey, Enumerates;
    var r := RegisterShape(ed, s, e, domain, verified, now, order, nonce);
    var swept := Sweep(ed, s, order, now);
    if domain !in swept.registrations {
      assert domain != c.name;
      var granted := Granting(swept, domain, Unleased(ClientOf(e), Token(now, nonce)));
      GrantingKeepsOpinion(ed, swept, domain, Unleased(ClientOf(e), Token(now, nonce)), c, now);
      SubmitElsewhere(ed, granted, r, now, c);
    }
  }

  // ---------------------------------------------------------------- a round

  /** What the asking node's store becomes in an honest round with the announcing node's. */
  function Pulled(ed: Ed25519, s: Store, t: Store, entries: seq<DigestEntry>, now: Millis): Store {
    AdoptAll(ed, s, Served(t, Missing(s, entries)), now)
  }

  /** That is what the messages of the round do, each handled by the node it is sent to. */
  lemma RoundIsPulled(ed: Ed25519, n: Node, m: Node, from: Address, to: Address, entries: seq<DigestEntry>,
                      challenge: Challenge, spare: Challenge, clock: Instant, later: Instant, now: Millis, victim: Address)
    requires Inv(ed, m.store) && Announces(entries, m.store) && |m.store.registrations| <= MAX_DIGEST_ENTRIES
    requires n.open.Keys == n.pending.Keys && m.open.Keys == m.pending.Keys
    ensures
      var (asked, request) := Receive(ed, n, from, Digest(entries), challenge, clock, now, victim);
      if request.None? then asked == n && Pulled(ed, n.store, m.store, entries, now) == n.store
      else
        && from in asked.open
        && var (served, reply) := Receive(ed, m, to, request.value, spare, clock, now, victim);
           && served == m && reply.Some?
           && Receive(ed, asked, from, reply.value, spare, later, now, victim).0.store
              == Pulled(ed, n.store, m.store, entries, now)
  {
    var missing := Missing(n.store, entries);
    DigestWellFormed(m.store, entries);
    MissingDistinct(n.store, entries) by { AnnouncesDistinct(entries, m.store); }
    if missing != [] {
      HonestRoundCompletes(ed, n, m, from, to, entries, challenge, spare, clock, later, now, victim);
      RequestIsServed(ed, m, to, missing, challenge, spare, clock, now, victim);
    } else {
      assert Served(m.store, []) == [];
    }
    hide Inv, Announces, Missing, Served, ExpectedAnswer, IsRightAnswer, WantedLeases, Ask, TakeRumors;
  }

  lemma {:induction false} AdoptAllKeepsOpinion(ed: Ed25519, s: Store, rumors: seq<Rumor>, now: Millis, c: Contest)
    requires Poised(s, c) && Fair(c) && Vouched(ed, s, c.name, now)
    requires forall r | r in rumors :: r.domain != c.name && Admits(c, LeaseIn(r))
    ensures var t := AdoptAll(ed, s, rumors, now);
            Poised(t, c) && Opinion(t, c.name) == Opinion(s, c.name) && Vouched(ed, t, c.name, now)
  {
    hide Poised, Fair, Vouched, Admits, Submit, LeaseIn, InForce;
    if rumors != [] {
      var init, last := rumors[..|rumors| - 1], rumors[|rumors| - 1];
      AdoptAllKeepsOpinion(ed, s, init, now, c);
      if InForce(ed, last, now) {
        SubmitElsewhere(ed, AdoptAll(ed, s, init, now), last, now, c);
      }
    }
  }

  lemma {:induction false} AdoptAllInParts(ed: Ed25519, s: Store, a: seq<Rumor>, b: seq<Rumor>, now: Millis)
    ensures AdoptAll(ed, s, a + b, now) == AdoptAll(ed, AdoptAll(ed, s, a, now), b, now)
  {
    hide AdoptRumor;
    if b == [] {
      assert a + b == a;
    } else {
      AdoptAllInParts(ed, s, a, b[..|b| - 1], now);
      assert (a + b)[..|a + b| - 1] == a + b[..|b| - 1];
    }
  }

  /** One lease on the name among those taken in. */
  lemma AdoptAllMeets(ed: Ed25519, s: Store, rumors: seq<Rumor>, now: Millis, c: Contest, i: nat)
    requires Poised(s, c) && Fair(c) && Vouched(ed, s, c.name, now) && Distinct(RumorDomains(rumors))
    requires i < |rumors| && rumors[i].domain == c.name && InForce(ed, rumors[i], now)
    requires forall r | r in rumors :: Admits(c, LeaseIn(r))
    ensures var t, q := AdoptAll(ed, s, rumors, now), rumors[i];
            && Poised(t, c) && Vouched(ed, t, c.name, now)
            && Opinion(t, c.name) == Some(Meet(Opinion(s, c.name), Contestant(QuotaKey(q.rdns), q.token)))
  {
    hide Poised, Fair, Vouched, Admits, Submit, InForce, QuotaKey, Meet;
    var before, after := rumors[..i], rumors[i + 1..];
    assert rumors == before + [rumors[i]] + after;
    OthersElsewhere(rumors, i);
    AdoptAllInParts(ed, s, before + [rumors[i]], after, now);
    AdoptAllInParts(ed, s, before, [rumors[i]], now);
    AdoptAllKeepsOpinion(ed, s, before, now, c);
    var u := AdoptAll(ed, s, before, now);
    assert AdoptAll(ed, u, [rumors[i]], now) == AdoptRumor(ed, u, rumors[i], now) by {
      assert [rumors[i]][..0] == [];
      assert AdoptAll(ed, u, [], now) == u;
    }
    SubmitHere(ed, u, rumors[i], now, c);
    AdoptAllKeepsOpinion(ed, AdoptRumor(ed, u, rumors[i], now), after, now, c);
  }

  lemma OthersElsewhere(rumors: seq<Rumor>, i: nat)
    requires Distinct(RumorDomains(rumors)) && i < |rumors|
    ensures forall r | r in rumors[..i] + rumors[i + 1..] :: r.domain != rumors[i].domain
    ensures forall r | r in rumors[..i] + rumors[i + 1..] :: r in rumors
  {
    var domains := RumorDomains(rumors);
    forall j | 0 <= j < |rumors| && j != i
      ensures rumors[j].domain != rumors[i].domain
    {
      assert domains[j] != domains[i] by {
        if j < i { assert domains[j] != domains[i]; } else { assert domains[i] != domains[j]; }
      }
    }
  }

  /** The announcing node's lease on the name is in force. */
  predicate Offered(ed: Ed25519, s: Store, d: Domain, now: Millis) {
    d in s.registrations && s.registrations[d].rumor.Some? ==> InForce(ed, s.registrations[d].rumor.value, now)
  }

  /** Who holds the name at a node after it has asked one of the other opinion. */
  function Heeds(mine: Option<Contestant>, theirs: Option<Contestant>): Option<Contestant> {
    match (mine, theirs)
    case (_, None) => mine
    case (None, Some(q)) => Some(q)
    case (Some(p), Some(q)) =>
      if p.token.issuedAt < q.token.issuedAt && !Withstands(p.token, q.token) then Some(q) else Some(p)
  }

  lemma ServedAdmitted(ed: Ed25519, t: Store, domains: seq<Domain>, c: Contest, r: Rumor)
    requires Inv(ed, t) && AllAdmitted(t, c) && r in Served(t, domains)
    ensures Admits(c, LeaseIn(r)) && HonestRound.Leased(t, r.domain)
    ensures r == t.registrations[r.domain].rumor.value
    ensures r.token == t.registrations[r.domain].token && QuotaKey(r.rdns) == t.registrations[r.domain].host
  {
    hide QuotaKey, Admits;
    ServedIsAuthorized(ed, t, domains, r);
    assert Coupled(ed, r.domain, t.registrations[r.domain]);
    assert Sees(t, LeaseIn(r));
  }

  /** The name is asked for exactly when it is announced and unknown here, or held here under an
      earlier issue time. */
  lemma AskedForIff(s: Store, t: Store, entries: seq<DigestEntry>, d: Domain)
    requires Announces(entries, t)
    ensures d in Missing(s, entries)
            <==> d in t.registrations
                 && (d in s.registrations ==> s.registrations[d].token.issuedAt < t.registrations[d].token.issuedAt)
  {
    MissingIff(s, entries, d);
    if d in t.registrations {
      assert d in EntryDomains(entries);
      var i :| 0 <= i < |entries| && EntryDomains(entries)[i] == d;
      assert entries[i] in entries && entries[i].domain == d;
    }
  }

  lemma PulledMeets(ed: Ed25519, s: Store, t: Store, entries: seq<DigestEntry>, now: Millis, c: Contest)
    requires Poised(s, c) && Fair(c) && Vouched(ed, s, c.name, now)
    requires Inv(ed, t) && Poised(t, c) && Offered(ed, t, c.name, now) && Announces(entries, t)
    ensures var u := Pulled(ed, s, t, entries, now);
            && Poised(u, c)
            && Opinion(u, c.name) == if c.name in Missing(s, entries) && c.name in t.registrations
                                     then Some(Meet(Opinion(s, c.name), Opinion(t, c.name).value)) else Opinion(s, c.name)
  {
    hide Inv, Fair, Vouched, Admits, InForce, Meet, QuotaKey, Announces, LeaseIn, Coherent;
    var missing := Missing(s, entries);
    var rumors := Served(t, missing);
    forall r | r in rumors
      ensures Admits(c, LeaseIn(r)) && r.domain in missing
    {
      ServedAdmitted(ed, t, missing, c, r);
      ServedIff(t, missing, r);
    }
    MissingDistinct(s, entries) by { AnnouncesDistinct(entries, t); }
    ServedDistinct(t, missing);
    AskedForIff(s, t, entries, c.name);
    hide Poised, AllAdmitted;
    if c.name in missing {
      var i := ServedHere(ed, t, missing, c);
      ServedAdmitted(ed, t, missing, c, rumors[i]) by { PoisedAdmits(t, c); }
      AdoptAllMeets(ed, s, rumors, now, c, i);
    } else {
      AdoptAllKeepsOpinion(ed, s, rumors, now, c);
    }
  }

  lemma PoisedAdmits(s: Store, c: Contest)
    requires Poised(s, c)
    ensures AllAdmitted(s, c)
  {
  }

  lemma ServedHere(ed: Ed25519, t: Store, missing: seq<Domain>, c: Contest) returns (i: nat)
    requires Inv(ed, t) && Poised(t, c) && c.name in missing && c.name in t.registrations
    ensures i < |Served(t, missing)| && Served(t, missing)[i].domain == c.name
  {
    hide QuotaKey, Admits, IsAuthorized;
    assert Coupled(ed, c.name, t.registrations[c.name]);
    var r := t.registrations[c.name].rumor.value;
    ServedIff(t, missing, r);
    i :| 0 <= i < |Served(t, missing)| && Served(t, missing)[i] == r;
  }

  /** In a round the asking node's holder changes exactly as the two holders' tokens say. */
  lemma RoundHeeds(ed: Ed25519, s: Store, t: Store, entries: seq<DigestEntry>, now: Millis, c: Contest)
    requires Inv(ed, s) && Poised(s, c) && Fair(c) && Vouched(ed, s, c.name, now)
    requires Inv(ed, t) && Poised(t, c) && Offered(ed, t, c.name, now) && Announces(entries, t)
    ensures var u := Pulled(ed, s, t, entries, now);
            Inv(ed, u) && Poised(u, c) && Opinion(u, c.name) == Heeds(Opinion(s, c.name), Opinion(t, c.name))
  {
    AdoptAllKeepsInv(ed, s, Served(t, Missing(s, entries)), now);
    hide Inv, Poised, Fair, Vouched, Offered, Announces, AdoptAll, Served, Missing, Withstands;
    PulledMeets(ed, s, t, entries, now, c);
    AskedForIff(s, t, entries, c.name);
    HeedsIsMeet(Opinion(s, c.name), Opinion(t, c.name));
  }

  lemma HeedsIsMeet(mine: Option<Contestant>, theirs: Option<Contestant>)
    ensures Heeds(mine, theirs)
            == if theirs.Some? && (mine.Some? ==> mine.value.token.issuedAt < theirs.value.token.issuedAt)
               then Some(Meet(mine, theirs.value)) else mine
  {
    hide Negotiate;
  }

  // ---------------------------------------------------------------- the network

  type Network = map<Address, Store>

  datatype NetStep =
    | Round(asker: Address, announcer: Address, entries: seq<DigestEntry>, at: Millis)
    | Local(node: Address, step: Step)

  function NetNext(ed: Ed25519, net: Network, step: NetStep): Network {
    match step
    case Round(i, j, entries, at) => if i in net && j in net then net[i := Pulled(ed, net[i], net[j], entries, at)] else net
    case Local(i, local) => if i in net then net[i := Next(ed, net[i], local)] else net
  }

  function NetRun(ed: Ed25519, net: Network, steps: seq<NetStep>): Network {
    if steps == [] then net else NetNext(ed, NetRun(ed, net, steps[..|steps| - 1]), steps[|steps| - 1])
  }

  /** A local step at a node: any request of a client, and any sweep. A node that sweeps finds the
      holder's claim in force, and is asked for no name that would bear on the contest. */
  ghost predicate LocalUndisturbed(ed: Ed25519, s: Store, step: Step, c: Contest) {
    && Enabled(s, step)
    && match step
       case ProbeStep(_, _) => true
       case SetRecordsStep(_, _, _, _) => true
       case SweepStep(_, now) => Vouched(ed, s, c.name, now)
       case RegisterStep(e, domain, _, now, _, nonce) =>
         Vouched(ed, s, c.name, now) && Unrelated(s, c, e, domain, Token(now, nonce))
       case AdoptStep(_, _) => false
  }

  /** An honest round, in which the leases on the name are in force. */
  ghost predicate RoundUndisturbed(ed: Ed25519, s: Store, t: Store, entries: seq<DigestEntry>, at: Millis, d: Domain) {
    && Announces(entries, t) && |t.registrations| <= MAX_DIGEST_ENTRIES
    && Vouched(ed, s, d, at) && Offered(ed, t, d, at)
  }

  ghost predicate Undisturbed(ed: Ed25519, net: Network, step: NetStep, c: Contest) {
    match step
    case Round(i, j, entries, at) => i in net && j in net && RoundUndisturbed(ed, net[i], net[j], entries, at, c.name)
    case Local(i, local) => i in net && LocalUndisturbed(ed, net[i], local, c)
  }

  ghost predicate UndisturbedRun(ed: Ed25519, net: Network, steps: seq<NetStep>, c: Contest) {
    steps != [] ==>
      && UndisturbedRun(ed, net, steps[..|steps| - 1], c)
      && Undisturbed(ed, NetRun(ed, net, steps[..|steps| - 1]), steps[|steps| - 1], c)
  }

  /** Every node holds the name under a lease of one of the two, or does not know it. */
  ghost predicate Contested(ed: Ed25519, net: Network, c: Contest) {
    Fair(c) && forall i | i in net :: Inv(ed, net[i]) && Poised(net[i], c)
  }

  type Opinions = map<Address, Option<Contestant>>

  function OpinionsIn(net: Network, d: Domain): Opinions {
    map i | i in net :: Opinion(net[i], d)
  }

  /** The whole network as far as the name is concerned: rounds, and nothing else, move opinions. */
  function Moved(opinions: Opinions, step: NetStep): Opinions {
    if step.Round? && step.asker in opinions && step.announcer in opinions
    then opinions[step.asker := Heeds(opinions[step.asker], opinions[step.announcer])]
    else opinions
  }

  function Moves(opinions: Opinions, steps: seq<NetStep>): Opinions {
    if steps == [] then opinions else Moved(Moves(opinions, steps[..|steps| - 1]), steps[|steps| - 1])
  }

  lemma LocalKeepsOpinion(ed: Ed25519, s: Store, step: Step, c: Contest)
    requires Inv(ed, s) && Poised(s, c) && Fair(c) && LocalUndisturbed(ed, s, step, c)
    ensures Inv(ed, Next(ed, s, step)) && Poised(Next(ed, s, step), c)
    ensures Opinion(Next(ed, s, step), c.name) == Opinion(s, c.name)
  {
    NextKeepsInv(ed, s, step);
    hide Inv, Poised, Fair, Vouched, HandleProbe, HandleRegister, HandleSetRecords, Sweep, Unrelated, Enumerates;
    match step
    case ProbeStep(e, now) => ProbeKeepsOpinion(ed, s, e, now, c);
    case RegisterStep(e, domain, verified, now, order, nonce) =>
      RegisterKeepsOpinion(ed, s, e, domain, verified, now, order, nonce, c);
    case SetRecordsStep(e, domain, records, now) => SetRecordsKeepsOpinion(ed, s, e, domain, records, now, c);
    case SweepStep(order, now) => SweepKeepsOpinion(ed, s, order, now, c);
  }

  lemma StepMoves(ed: Ed25519, net: Network, step: NetStep, c: Contest)
    requires Contested(ed, net, c) && Undisturbed(ed, net, step, c)
    ensures Contested(ed, NetNext(ed, net, step), c)
    ensures OpinionsIn(NetNext(ed, net, step), c.name) == Moved(OpinionsIn(net, c.name), step)
  {
    hide Inv, Poised, Fair, Vouched, Offered, LocalUndisturbed, Pulled, Next, Announces, Heeds, Opinion;
    match step
    case Round(i, j, entries, at) => RoundHeeds(ed, net[i], net[j], entries, at, c);
    case Local(i, local) => LocalKeepsOpinion(ed, net[i], local, c);
  }

  /** Over any run of requests, sweeps and rounds, the nodes hold the name as the rounds alone say. */
  lemma {:induction false} OpinionsFollow(ed: Ed25519, net: Network, steps: seq<NetStep>, c: Contest)
    requires Contested(ed, net, c) && UndisturbedRun(ed, net, steps, c)
    ensures Contested(ed, NetRun(ed, net, steps), c)
    ensures OpinionsIn(NetRun(ed, net, steps), c.name) == Moves(OpinionsIn(net, c.name), steps)
  {
    hide Contested, Undisturbed, OpinionsIn, Moved, NetNext;
    if steps != [] {
      OpinionsFollow(ed, net, steps[..|steps| - 1], c);
      StepMoves(ed, NetRun(ed, net, steps[..|steps| - 1]), steps[|steps| - 1], c);
    }
  }

  // ---------------------------------------------------------------- when nodes come to agree

  /** A node that holds the name for `p` goes over to `q` on asking a node that holds it for `q`. */
  predicate GoesOver(p: Contestant, q: Contestant) {
    p.token.issuedAt < q.token.issuedAt && !Withstands(p.token, q.token)
  }

  /** The token that was issued later wins. */
  predicate LaterWins(a: Token, b: Token) {
    if a.issuedAt < b.issuedAt then Negotiate(a, b) == b
    else if b.issuedAt < a.issuedAt then Negotiate(a, b) == a
    else false
  }

  lemma LaterWinsIff(a: Contestant, b: Contestant)
    ensures LaterWins(a.token, b.token) <==> GoesOver(a, b) || GoesOver(b, a)
    ensures LaterWins(a.token, b.token) <==> a.token.issuedAt != b.token.issuedAt && Even(a.token) == Even(b.token)
    ensures !(GoesOver(a, b) && GoesOver(b, a))
  {
    NegotiateIsSymmetric(a.token, b.token);
    OrderingKeyIsTimeThenNonce(a.token, b.token);
    OrderingKeyIsTimeThenNonce(b.token, a.token);
    hide Precedes, Even, Negotiate;
  }

  ghost predicate TwoSided(opinions: Opinions, a: Contestant, b: Contestant) {
    forall i | i in opinions && opinions[i].Some? :: opinions[i].value == a || opinions[i].value == b
  }

  /** Of two contestants `q` is not deserted: whoever holds the name for it goes on doing so. */
  lemma {:induction false} NotDeserted(opinions: Opinions, steps: seq<NetStep>, p: Contestant, q: Contestant, i: Address)
    requires TwoSided(opinions, p, q) && !GoesOver(q, p)
    ensures TwoSided(Moves(opinions, steps), p, q) && Moves(opinions, steps).Keys == opinions.Keys
    ensures i in opinions && opinions[i] == Some(q) ==> Moves(opinions, steps)[i] == Some(q)
  {
    hide Withstands;
    if steps != [] {
      NotDeserted(opinions, steps[..|steps| - 1], p, q, i);
    }
  }

  lemma {:induction false} MovesInParts(opinions: Opinions, first: seq<NetStep>, rest: seq<NetStep>)
    ensures Moves(opinions, first + rest) == Moves(Moves(opinions, first), rest)
  {
    hide Moved;
    if rest == [] {
      assert first + rest == first;
    } else {
      MovesInParts(opinions, first, rest[..|rest| - 1]);
      assert (first + rest)[..|first + rest| - 1] == first + rest[..|rest| - 1];
    }
  }

  predicate Asks(step: NetStep, i: Address, j: Address) {
    step.Round? && step.asker == i && step.announcer == j
  }

  /** A node of either opinion, or none, that asks a holder for the later-issued winner holds the name
      for it ever after. */
  lemma AskersGoOver(opinions: Opinions, steps: seq<NetStep>, p: Contestant, q: Contestant, i: Address, j: Address, k: nat)
    requires TwoSided(opinions, p, q) && GoesOver(p, q) && i in opinions && j in opinions && opinions[j] == Some(q)
    requires k < |steps| && Asks(steps[k], i, j)
    ensures i in Moves(opinions, steps) && Moves(opinions, steps)[i] == Some(q)
  {
    LaterWinsIff(p, q);
    NotDeserted(opinions, steps[..k], p, q, j);
    var before := Moves(opinions, steps[..k]);
    var after := Moved(before, steps[k]);
    assert steps == steps[..k + 1] + steps[k + 1..] && steps[..k + 1][..k] == steps[..k];
    MovesInParts(opinions, steps[..k + 1], steps[k + 1..]);
    assert after == Moves(opinions, steps[..k + 1]);
    hide Withstands;
    assert after[i] == Some(q);
    assert TwoSided(after, p, q);
    NotDeserted(after, steps[k + 1..], p, q, i);
  }

  lemma ContestedIsTwoSided(ed: Ed25519, net: Network, c: Contest)
    requires Contested(ed, net, c)
    ensures TwoSided(OpinionsIn(net, c.name), c.a, c.b)
  {
    hide Inv, Poised;
    forall i | i in net && c.name in net[i].registrations
      ensures Contesting(c, Opinion(net[i], c.name).value)
    {
      HolderContests(net[i], c);
    }
  }

  /** When the later-issued token does not win, or the two were issued in one millisecond, every node
      that holds the name goes on holding it for the same host, in any run. */
  lemma StandOff(ed: Ed25519, net: Network, steps: seq<NetStep>, c: Contest, i: Address)
    requires Contested(ed, net, c) && UndisturbedRun(ed, net, steps, c) && !LaterWins(c.a.token, c.b.token)
    requires i in net && c.name in net[i].registrations
    ensures i in NetRun(ed, net, steps) && Opinion(NetRun(ed, net, steps)[i], c.name) == Opinion(net[i], c.name)
  {
    OpinionsFollow(ed, net, steps, c);
    ContestedIsTwoSided(ed, net, c);
    LaterWinsIff(c.a, c.b);
    hide Contested, UndisturbedRun, NetRun, GoesOver, LaterWins, Moves;
    var opinions := OpinionsIn(net, c.name);
    NotDeserted(opinions, steps, c.a, c.b, i);
    NotDeserted(opinions, steps, c.b, c.a, i);
    assert i in OpinionsIn(NetRun(ed, net, steps), c.name);
  }

  /** Two nodes hold the name for different hosts, and each asks the other at least once, whatever else
      happens. They then hold it for the same host if and only if the issue times differ and the token
      issued later wins, which is to say that the two tokens have the same parity. */
  lemma NodesAgreeIff(ed: Ed25519, net: Network, steps: seq<NetStep>, c: Contest, i: Address, j: Address, k: nat, l: nat)
    requires Contested(ed, net, c) && UndisturbedRun(ed, net, steps, c)
    requires i in net && j in net && Opinion(net[i], c.name) == Some(c.a) && Opinion(net[j], c.name) == Some(c.b)
    requires k < |steps| && Asks(steps[k], i, j) && l < |steps| && Asks(steps[l], j, i)
    ensures var end := NetRun(ed, net, steps);
            && i in end && j in end
            && (Opinion(end[i], c.name) == Opinion(end[j], c.name) <==> LaterWins(c.a.token, c.b.token))
            && (LaterWins(c.a.token, c.b.token)
                <==> c.a.token.issuedAt != c.b.token.issuedAt && Even(c.a.token) == Even(c.b.token))
  {
    OpinionsFollow(ed, net, steps, c);
    ContestedIsTwoSided(ed, net, c);
    LaterWinsIff(c.a, c.b);
    hide Contested, UndisturbedRun, NetRun, GoesOver, LaterWins, Moves, Even, Asks, TwoSided, Opinion;
    EndsAgreeIff(OpinionsIn(net, c.name), steps, c.a, c.b, i, j, k, l);
    assert i in OpinionsIn(NetRun(ed, net, steps), c.name) && j in OpinionsIn(NetRun(ed, net, steps), c.name);
  }

  lemma EndsAgreeIff(opinions: Opinions, steps: seq<NetStep>, a: Contestant, b: Contestant, i: Address, j: Address,
                     k: nat, l: nat)
    requires TwoSided(opinions, a, b) && a != b
    requires i in opinions && opinions[i] == Some(a) && j in opinions && opinions[j] == Some(b)
    requires k < |steps| && Asks(steps[k], i, j) && l < |steps| && Asks(steps[l], j, i)
    ensures var end := Moves(opinions, steps);
            i in end && j in end && (end[i] == end[j] <==> GoesOver(a, b) || GoesOver(b, a))
  {
    LaterWinsIff(a, b);
    assert TwoSided(opinions, b, a);
    hide TwoSided, GoesOver, LaterWins, Moves, Even, Asks;
    if GoesOver(a, b) {
      AskersGoOver(opinions, steps, a, b, i, j, k);
      NotDeserted(opinions, steps, a, b, j);
    } else if GoesOver(b, a) {
      AskersGoOver(opinions, steps, b, a, j, i, l);
      NotDeserted(opinions, steps, b, a, i);
    } else {
      NotDeserted(opinions, steps, a, b, j);
      NotDeserted(opinions, steps, b, a, i);
    }
  }

  lemma NetRunInParts(ed: Ed25519, net: Network, first: NetStep, rest: seq<NetStep>, c: Contest)
    requires UndisturbedRun(ed, net, [first] + rest, c)
    ensures NetRun(ed, net, [first] + rest) == NetRun(ed, NetNext(ed, net, first), rest)
    ensures Undisturbed(ed, net, first, c) && UndisturbedRun(ed, NetNext(ed, net, first), rest, c)
  {
    hide Undisturbed, NetNext;
    if rest == [] {
      assert [first] + rest == [first] && [first][..0] == [];
      assert NetRun(ed, net, [first][..0]) == net;
    } else {
      assert ([first] + rest)[..|[first] + rest| - 1] == [first] + rest[..|rest| - 1];
      NetRunInParts(ed, net, first, rest[..|rest| - 1], c);
    }
  }

  /** In a stand-off, a node that did not know the name keeps to what it hears first. */
  lemma FirstHeardIsKept(ed: Ed25519, net: Network, first: NetStep, rest: seq<NetStep>, c: Contest, i: Address, j: Address)
    requires Contested(ed, net, c) && UndisturbedRun(ed, net, [first] + rest, c) && !LaterWins(c.a.token, c.b.token)
    requires Asks(first, i, j) && i in net && j in net && c.name !in net[i].registrations && c.name in net[j].registrations
    ensures var end := NetRun(ed, net, [first] + rest);
            i in end && Opinion(end[i], c.name) == Opinion(net[j], c.name)
  {
    NetRunInParts(ed, net, first, rest, c);
    StepMoves(ed, net, first, c);
    var next := NetNext(ed, net, first);
    assert i in OpinionsIn(next, c.name) && OpinionsIn(next, c.name)[i] == Opinion(net[j], c.name);
    hide Contested, UndisturbedRun, Undisturbed, NetRun, NetNext, LaterWins, Moved, OpinionsIn;
    StandOff(ed, next, rest, c, i);
  }

  // ---------------------------------------------------------------- message by message

  predicate Opposed(c: Contest, p: Contestant, other: Contestant) {
    (p == c.a && other == c.b) || (p == c.b && other == c.a)
  }

  /** The node holds the name for `p`, and the other's lease cannot win it, or is not asked for. */
  ghost predicate Keeps(ed: Ed25519, n: Node, c: Contest, p: Contestant, other: Contestant) {
    && n.open.Keys == n.pending.Keys && Inv(ed, n.store) && Poised(n.store, c) && Opinion(n.store, c.name) == Some(p)
    && (Withstands(p.token, other.token) || forall a | a in n.pending :: c.name !in n.pending[a].requested)
  }

  /** A message, however late and from whomever, or a local step, that brings no third contestant. */
  ghost predicate EventUndisturbed(ed: Ed25519, n: Node, event: NodeEvent, c: Contest) {
    match event
    case Message(_, message, _, _, now, _) => (
      match message
      case Digest(entries) =>
        forall e | e in entries && e.domain == c.name :: e.issuedAt == c.a.token.issuedAt || e.issuedAt == c.b.token.issuedAt
      case Request(_, _) => true
      case Rumors(rumors, _) => Vouched(ed, n.store, c.name, now) && forall r | r in rumors :: Admits(c, LeaseIn(r)))
    case Maintenance(_) => true
    case Local(step) => LocalUndisturbed(ed, n.store, step, c)
  }

  lemma {:induction false} AdoptAllStays(ed: Ed25519, s: Store, rumors: seq<Rumor>, now: Millis, c: Contest,
                                         p: Contestant, other: Contestant)
    requires Poised(s, c) && Fair(c) && Vouched(ed, s, c.name, now) && Opinion(s, c.name) == Some(p) && Opposed(c, p, other)
    requires forall r | r in rumors :: Admits(c, LeaseIn(r))
    requires Withstands(p.token, other.token) || forall r | r in rumors :: r.domain != c.name
    ensures var t := AdoptAll(ed, s, rumors, now);
            Poised(t, c) && Vouched(ed, t, c.name, now) && Opinion(t, c.name) == Some(p)
  {
    hide Poised, Fair, Vouched, StandsBehind, Submit, InForce, QuotaKey, Opinion, Withstands;
    if rumors != [] {
      var init, last := rumors[..|rumors| - 1], rumors[|rumors| - 1];
      AdoptAllStays(ed, s, init, now, c, p, other);
      var t := AdoptAll(ed, s, init, now);
      if InForce(ed, last, now) {
        if last.domain == c.name {
          SubmitHere(ed, t, last, now, c);
        } else {
          SubmitElsewhere(ed, t, last, now, c);
        }
      }
    }
  }

  lemma TakingKeeps(ed: Ed25519, n: Node, from: Address, rumors: seq<Rumor>, answer: Token, now: Millis, c: Contest,
                    p: Contestant, other: Contestant)
    requires Keeps(ed, n, c, p, other) && Fair(c) && Opposed(c, p, other) && Vouched(ed, n.store, c.name, now)
    requires forall r | r in rumors :: Admits(c, LeaseIn(r))
    ensures Keeps(ed, TakeRumors(ed, n, from, rumors, answer, now), c, p, other)
  {
    hide Inv, Poised, Fair, Vouched, Admits, Opinion, Withstands, Opposed, AdoptAll;
    if from in n.pending && IsValidRumorResponse(n.pending[from].requested, rumors) {
      AdoptAllStays(ed, n.store, rumors, now, c, p, other);
      AdoptAllKeepsInv(ed, n.store, rumors, now);
    }
  }

  lemma AskingKeeps(ed: Ed25519, n: Node, from: Address, entries: seq<DigestEntry>, challenge: Challenge, clock: Instant,
                    victim: Address, c: Contest, p: Contestant, other: Contestant)
    requires Keeps(ed, n, c, p, other) && Opposed(c, p, other) && !GoesOver(p, other)
    requires forall e | e in entries && e.domain == c.name ::
               e.issuedAt == c.a.token.issuedAt || e.issuedAt == c.b.token.issuedAt
    ensures Keeps(ed, Ask(n, from, Missing(n.store, entries), challenge, clock, victim), c, p, other)
  {
    hide Inv, Poised, Withstands;
    MissingIff(n.store, entries, c.name);
    hide Missing;
  }

  lemma EventKeeps(ed: Ed25519, n: Node, event: NodeEvent, c: Contest, p: Contestant, other: Contestant)
    requires Keeps(ed, n, c, p, other) && Fair(c) && Opposed(c, p, other) && !GoesOver(p, other)
    requires EventUndisturbed(ed, n, event, c)
    ensures Keeps(ed, After(ed, n, event), c, p, other)
  {
    hide Inv, Poised, Fair, Vouched, Admits, Opinion, GoesOver, Withstands, Opposed, LocalUndisturbed, TakeRumors, Ask,
      Missing, Served, IsWellFormed, Next;
    match event
    case Message(from, message, challenge, clock, now, victim) =>
      hide Keeps;
      OpenIsPending(ed, n, c, p, other);
      if message.Digest? {
        AskingKeeps(ed, n, from, message.entries, challenge, clock, victim, c, p, other);
      } else if message.Rumors? {
        TakingKeeps(ed, n, from, message.rumors, message.answer, now, c, p, other);
      }
    case Maintenance(_) =>
    case Local(step) => LocalKeepsOpinion(ed, n.store, step, c);
  }

  lemma OpenIsPending(ed: Ed25519, n: Node, c: Contest, p: Contestant, other: Contestant)
    requires Keeps(ed, n, c, p, other)
    ensures n.open.Keys == n.pending.Keys
  {
  }

  ghost predicate Undergoes(ed: Ed25519, n: Node, events: seq<NodeEvent>, m: Node, c: Contest) {
    if events == [] then m == n
    else
      exists k: Node ::
        && Undergoes(ed, n, events[..|events| - 1], k, c)
        && EventUndisturbed(ed, k, events[|events| - 1], c)
        && k.open.Keys == k.pending.Keys && m == After(ed, k, events[|events| - 1])
  }

  /** A holder who does not go over stays the holder message by message, however rounds interleave and
      messages are delayed, lost or repeated. */
  lemma {:induction false} HolderStays(ed: Ed25519, n: Node, events: seq<NodeEvent>, m: Node, c: Contest,
                                       p: Contestant, other: Contestant)
    requires Keeps(ed, n, c, p, other) && Fair(c) && Opposed(c, p, other) && !GoesOver(p, other)
    requires Undergoes(ed, n, events, m, c)
    ensures Keeps(ed, m, c, p, other)
  {
    hide Keeps, Fair, Opposed, GoesOver, EventUndisturbed, After;
    if events != [] {
      var k: Node :| Undergoes(ed, n, events[..|events| - 1], k, c) && EventUndisturbed(ed, k, events[|events| - 1], c)
        && k.open.Keys == k.pending.Keys && m == After(ed, k, events[|events| - 1]);
      HolderStays(ed, n, events[..|events| - 1], k, c, p, other);
      EventKeeps(ed, k, events[|events| - 1], c, p, other);
    }
  }

  // ---------------------------------------------------------------- two such replicas

  /** A node that has heard one of the leases. */
  function Hearer(rdns: string, issuedAt: Millis): Store {
    AdoptRumor(Overflow.Trusting(), EMPTY, Rivals.RivalLease(rdns, issuedAt), 2)
  }

  function SplitNet(): Network {
    map["x" := Hearer("a", 0), "y" := Hearer("b", 1)]
  }

  const SPLIT := Contest(
    Rivals.NAME, Contestant("a", Token(0, Overflow.NONCE)), Contestant("b", Token(1, Overflow.NONCE)), {}, {})

  function SplitRounds(): seq<NetStep> {
    [Round("y", "x", [DigestEntry(Rivals.NAME, 0)], 2)] + [Round("x", "y", [DigestEntry(Rivals.NAME, 1)], 2)]
  }

  lemma HearerHolds(rdns: string, issuedAt: Millis)
    requires QuotaKey(rdns) == rdns
    ensures var r, s := Rivals.RivalLease(rdns, issuedAt), Hearer(rdns, issuedAt);
            s == EMPTY.(claims := map[rdns := map[Rivals.NAME := r]], registrations := map[Rivals.NAME := FromRumor(r, rdns)])
    ensures Inv(Overflow.Trusting(), Hearer(rdns, issuedAt))
  {
    hide QuotaKey, ClientKey, InForce, Inv;
    Rivals.RivalInForce(rdns, issuedAt);
    Rivals.HearIntoSingle(Overflow.Trusting(), EMPTY, map[], Rivals.RivalLease(rdns, issuedAt), 2);
    EmptyInv(Overflow.Trusting());
    AdoptKeepsInv(Overflow.Trusting(), EMPTY, Rivals.RivalLease(rdns, issuedAt), 2);
  }

  lemma HearerIsPoised(rdns: string, issuedAt: Millis, c: Contest)
    requires QuotaKey(rdns) == rdns && c.name == Rivals.NAME
    requires Contesting(c, Contestant(rdns, Token(issuedAt, Overflow.NONCE)))
    ensures var s, ed := Hearer(rdns, issuedAt), Overflow.Trusting();
            && Poised(s, c) && Opinion(s, c.name) == Some(Contestant(rdns, Token(issuedAt, Overflow.NONCE)))
            && Vouched(ed, s, c.name, 2) && Offered(ed, s, c.name, 2)
            && Announces([DigestEntry(c.name, issuedAt)], s) && |s.registrations| == 1
  {
    hide QuotaKey, ClientKey, InForce, Hearer, Announces;
    HearerHolds(rdns, issuedAt);
    Rivals.RivalInForce(rdns, issuedAt);
    HearerAnnounces(Hearer(rdns, issuedAt), Token(issuedAt, Overflow.NONCE));
  }

  lemma HearerAnnounces(s: Store, token: Token)
    requires s.registrations.Keys == {Rivals.NAME} && s.registrations[Rivals.NAME].token == token
    ensures Announces([DigestEntry(Rivals.NAME, token.issuedAt)], s) && |s.registrations| == 1
  {
    var entries := [DigestEntry(Rivals.NAME, token.issuedAt)];
    assert |s.registrations| == |s.registrations.Keys|;
    assert EntryDomains(entries) == [Rivals.NAME];
    assert entries[0] in entries;
  }

  lemma SplitIsContested()
    ensures Contested(Overflow.Trusting(), SplitNet(), SPLIT)
    ensures !LaterWins(SPLIT.a.token, SPLIT.b.token)
  {
    Rivals.LettersAreHosts();
    hide QuotaKey, ClientKey, Hearer, Inv, Negotiate, Even, Precedes;
    HearerHolds("a", 0);
    HearerHolds("b", 1);
    HearerIsPoised("a", 0, SPLIT);
    HearerIsPoised("b", 1, SPLIT);
    Limits.IssuedAMillisecondApart(0, Overflow.NONCE);
    NegotiateIsSymmetric(SPLIT.a.token, SPLIT.b.token);
  }

  /** The one that holds the later-issued lease does not ask. */
  lemma LaterDoesNotAsk()
    ensures NetRun(Overflow.Trusting(), SplitNet(), SplitRounds()[..1]) == SplitNet()
  {
    Rivals.LettersAreHosts();
    hide QuotaKey, ClientKey, Hearer;
    HearerHolds("b", 1);
    var net, steps, entries := SplitNet(), SplitRounds(), [DigestEntry(Rivals.NAME, 0)];
    assert steps[..1] == [steps[0]] && steps[..1][..0] == [] && entries[..0] == [];
    assert NetRun(Overflow.Trusting(), net, steps[..1][..0]) == net;
    assert Missing(net["y"], entries[..0]) == [];
    assert Missing(net["y"], entries) == [];
    assert Served(net["x"], []) == [];
    assert net["y" := net["y"]] == net;
  }

  lemma SplitRoundsAreUndisturbed()
    ensures UndisturbedRun(Overflow.Trusting(), SplitNet(), SplitRounds(), SPLIT)
  {
    Rivals.LettersAreHosts();
    hide QuotaKey, ClientKey, Hearer, Vouched, Offered, Announces, Poised, NetRun;
    HearerIsPoised("a", 0, SPLIT);
    HearerIsPoised("b", 1, SPLIT);
    LaterDoesNotAsk();
    var ed, net, steps := Overflow.Trusting(), SplitNet(), SplitRounds();
    assert steps[..1] == [steps[0]] && steps[..1][..0] == [];
    assert NetRun(ed, net, steps[..1][..0]) == net by { NoStepsLeave(ed, net); }
    assert UndisturbedRun(ed, net, steps[..1][..0], SPLIT);
    assert UndisturbedRun(ed, net, steps[..1], SPLIT);
  }

  lemma NoStepsLeave(ed: Ed25519, net: Network)
    ensures NetRun(ed, net, []) == net
  {
  }

  /** Two nodes have heard one lease each, of different hosts on one name, both in force and under
      different tokens. They ask each other, and differ still; and so they do after whatever follows. */
  lemma ReplicasStaySplit(more: seq<NetStep>)
    requires UndisturbedRun(Overflow.Trusting(), SplitNet(), SplitRounds() + more, SPLIT)
    ensures Contested(Overflow.Trusting(), SplitNet(), SPLIT)
    ensures UndisturbedRun(Overflow.Trusting(), SplitNet(), SplitRounds(), SPLIT)
    ensures var end := NetRun(Overflow.Trusting(), SplitNet(), SplitRounds() + more);
            && "x" in end && Opinion(end["x"], Rivals.NAME) == Some(SPLIT.a)
            && "y" in end && Opinion(end["y"], Rivals.NAME) == Some(SPLIT.b)
  {
    Rivals.LettersAreHosts();
    hide QuotaKey, ClientKey, Hearer, Contested, UndisturbedRun, NetRun, LaterWins, Opinion;
    SplitIsContested();
    SplitRoundsAreUndisturbed();
    HearerIsPoised("a", 0, SPLIT);
    HearerIsPoised("b", 1, SPLIT);
    OpinionIsOfHeld(SplitNet()["x"], Rivals.NAME);
    OpinionIsOfHeld(SplitNet()["y"], Rivals.NAME);
    StandOff(Overflow.Trusting(), SplitNet(), SplitRounds() + more, SPLIT, "x");
    StandOff(Overflow.Trusting(), SplitNet(), SplitRounds() + more, SPLIT, "y");
  }

  lemma OpinionIsOfHeld(s: Store, d: Domain)
    ensures Opinion(s, d).Some? <==> d in s.registrations
  {
  }

  /** Each of the two stores is what hearing the lease leaves, in a run of its node. */
  lemma HearersAreReached(rdns: string, issuedAt: Millis)
    ensures ValidRun(Overflow.Trusting(), EMPTY, [AdoptStep(Rivals.RivalLease(rdns, issuedAt), 2)])
    ensures Run(Overflow.Trusting(), EMPTY, [AdoptStep(Rivals.RivalLease(rdns, issuedAt), 2)]) == Hearer(rdns, issuedAt)
  {
    hide AdoptRumor, Rivals.RivalLease;
    Overflow.RunOne(Overflow.Trusting(), EMPTY, AdoptStep(Rivals.RivalLease(rdns, issuedAt), 2));
  }
}
