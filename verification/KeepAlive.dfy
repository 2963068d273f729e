/** A name stays its owner's as long as the owner answers a probe within a minute, whatever else the node
    is asked and hears. */
module KeepAlive {
  import opened Bytes
  import opened Outcomes
  import opened Tokens
  import opened Collision
  import opened Identity
  import opened Registry
  import opened Runs
  import opened HostCap
  import opened Authority
  import opened Contests
  import opened Networks
  import Overflow
  import LostNames

  /** The holder's claim is authorized, names this key, and was last probed with this date. */
  ghost predicate Answered(ed: Ed25519, s: Store, d: Domain, key: string, date: Millis) {
    && d in s.registrations
    && var h := s.registrations[d].host;
       Claimed(s, h, d) && IsAuthorized(ed, s.claims[h][d])
       && s.claims[h][d].clientKey == key && s.claims[h][d].probedAt == date
  }

  /** The date of the key's last probe that passed. */
  function DateAfter(ed: Ed25519, step: Step, key: string, date: Millis): Millis {
    match step
    case ProbeStep(e, now) =>
      if ClientKey(ClientOf(e)) == key && Passes(ed, e, ProbeMessage(e.timestamp), now) then e.timestamp else date
    case _ => date
  }

  function DateOf(ed: Ed25519, steps: seq<Step>, key: string, date: Millis): Millis {
    if steps == [] then date else DateAfter(ed, steps[|steps| - 1], key, DateOf(ed, steps[..|steps| - 1], key, date))
  }

  /** Anybody may probe, publish, ask for names and gossip, and the node may sweep; but whenever it sweeps
      or takes a lease in, the last probe of the key is dated within the minute. Names asked for and leases
      heard do not come before the holder's among its host's, and none on this name wins it; the owner does
      not publish for it. */
  ghost predicate Attended(ed: Ed25519, s: Store, step: Step, c: Contest, p: Contestant, key: string, date: Millis) {
    && Enabled(s, step)
    && match step
       case ProbeStep(_, _) => true
       case SetRecordsStep(e, domain, _, _) => domain != c.name || ClientKey(ClientOf(e)) != key
       case SweepStep(_, now) => now <= date + 60_000
       case RegisterStep(e, domain, _, now, _, nonce) => now <= date + 60_000 && Unrelated(s, c, e, domain, Token(now, nonce))
       case AdoptStep(r, now) =>
         && now <= date + 60_000 && Admits(c, LeaseIn(r))
         && (r.domain == c.name ==> QuotaKey(r.rdns) != p.host && Withstands(p.token, r.token))
  }

  ghost predicate AttendedRun(ed: Ed25519, s: Store, steps: seq<Step>, c: Contest, p: Contestant, key: string, date: Millis) {
    steps != [] ==>
      var init, last := steps[..|steps| - 1], steps[|steps| - 1];
      && AttendedRun(ed, s, init, c, p, key, date)
      && Attended(ed, Run(ed, s, init), last, c, p, key, DateOf(ed, init, key, date))
  }

  /** The name is held for `p`, under a claim last probed at this date, which nothing known comes before. */
  ghost predicate Stands(ed: Ed25519, s: Store, c: Contest, p: Contestant, key: string, date: Millis) {
    Inv(ed, s) && Poised(s, c) && Opinion(s, c.name) == Some(p) && Answered(ed, s, c.name, key, date)
  }

  lemma AnsweredIsVouched(ed: Ed25519, s: Store, d: Domain, key: string, date: Millis, now: Millis)
    requires Answered(ed, s, d, key, date) && now <= date + 60_000
    ensures Vouched(ed, s, d, now)
  {
    hide IsAuthorized;
  }

  lemma SameClaimIsAnswered(ed: Ed25519, s: Store, t: Store, d: Domain, key: string, date: Millis)
    requires Answered(ed, s, d, key, date) && SameClaim(s, t, d) && Opinion(t, d) == Opinion(s, d)
    ensures Answered(ed, t, d, key, date)
  {
    hide IsAuthorized;
    assert d in t.registrations && t.registrations[d].host == Opinion(t, d).value.host;
  }

  lemma ReprobedIsAuthorized(ed: Ed25519, r: Rumor, client: ClientIdentity, at: Millis, signature: seq<byte>)
    requires IsAuthorized(ed, r) && |client.verifyingKey| == 32 && r.clientKey == ClientKey(client)
    requires ed.Accepts(client.verifyingKey, ProbeMessage(at), signature)
    ensures IsAuthorized(ed, Reprobed(r, ClientKey(client), at, signature))
  {
    SameOwner(r, client);
    hide ClientKey;
  }

  /** A probe that passes dates the leases of its key, and touches no others. */
  lemma ProbeDates(ed: Ed25519, s: Store, e: Envelope, now: Millis, d: Domain, key: string, date: Millis)
    requires Answered(ed, s, d, key, date)
    requires Opinion(HandleProbe(ed, s, e, now).0, d) == Opinion(s, d)
    ensures Answered(ed, HandleProbe(ed, s, e, now).0, d, key, DateAfter(ed, ProbeStep(e, now), key, date))
  {
    AuthenticatedMeans(ed, e, ProbeMessage(e.timestamp), now);
    var h, t := s.registrations[d].host, HandleProbe(ed, s, e, now).0;
    assert d in t.registrations && t.registrations[d].host == Opinion(t, d).value.host;
    if Passes(ed, e, ProbeMessage(e.timestamp), now) {
      hide ClientKey, IsAuthorized, QuotaKey;
      assert t.claims[h][d] == Reprobed(s.claims[h][d], ClientKey(ClientOf(e)), e.timestamp, e.signature);
      if ClientKey(ClientOf(e)) == key {
        ReprobedIsAuthorized(ed, s.claims[h][d], ClientOf(e), e.timestamp, e.signature);
      }
    }
  }

  /** Publishing for another name, or by another key, leaves the claim. */
  lemma PublishedElsewhere(ed: Ed25519, s: Store, e: Envelope, domain: Domain, records: seq<Record>, now: Millis, h: Host,
                           d: Domain)
    requires Claimed(s, h, d) && (domain != d || ClientKey(ClientOf(e)) != s.claims[h][d].clientKey)
    ensures var t := HandleSetRecords(ed, s, e, domain, records, now).0; Claimed(t, h, d) && t.claims[h][d] == s.claims[h][d]
  {
    SetRecordsPublishes(ed, s, e, domain, records, now);
    hide ClientKey, HandleSetRecords, WithRecordEvidence;
  }

  lemma RivalIsWithstood(ed: Ed25519, s: Store, r: Rumor, now: Millis, c: Contest, p: Contestant)
    requires Poised(s, c) && Fair(c) && Vouched(ed, s, c.name, now) && Opinion(s, c.name) == Some(p)
    requires r.domain == c.name && Admits(c, LeaseIn(r)) && InForce(ed, r, now)
    requires QuotaKey(r.rdns) != p.host && Withstands(p.token, r.token)
    ensures var t := Submit(ed, s, r, now);
            Poised(t, c) && Opinion(t, c.name) == Some(p) && SameClaim(s, t, c.name)
  {
    SubmitHere(ed, s, r, now, c);
    hide Poised, Fair, InForce, Submit, Admits, QuotaKey, Withstands, Vouched, SameClaim;
    HeldIsRegistered(s, c.name);
  }

  lemma AdoptKeeps(ed: Ed25519, s: Store, r: Rumor, now: Millis, c: Contest, p: Contestant, key: string, date: Millis)
    requires Stands(ed, s, c, p, key, date) && Fair(c) && Attended(ed, s, AdoptStep(r, now), c, p, key, date)
    ensures Stands(ed, AdoptRumor(ed, s, r, now), c, p, key, date)
  {
    AdoptKeepsInv(ed, s, r, now);
    hide Inv, Poised, Fair, InForce, Submit, Admits, QuotaKey, Withstands, Answered, Opinion, Vouched, SameClaim, LeaseIn;
    AnsweredIsVouched(ed, s, c.name, key, date, now);
    if InForce(ed, r, now) {
      if r.domain == c.name {
        RivalIsWithstood(ed, s, r, now, c, p);
      } else {
        SubmitElsewhere(ed, s, r, now, c);
      }
      SameClaimIsAnswered(ed, s, Submit(ed, s, r, now), c.name, key, date);
    }
  }

  lemma HeldIsRegistered(s: Store, d: Domain)
    ensures Opinion(s, d).Some? <==> d in s.registrations
  {
  }

  lemma AttendedKeeps(ed: Ed25519, s: Store, step: Step, c: Contest, p: Contestant, key: string, date: Millis)
    requires Stands(ed, s, c, p, key, date) && Fair(c) && Attended(ed, s, step, c, p, key, date)
    ensures Stands(ed, Next(ed, s, step), c, p, key, DateAfter(ed, step, key, date))
  {
    NextKeepsInv(ed, s, step);
    hide Inv, Poised, Fair, InForce, Opinion, HandleProbe, HandleRegister, HandleSetRecords, Sweep, AdoptRumor, Unrelated,
      Enumerates, Admits, Withstands, QuotaKey, ClientKey, Passes, Vouched, SameClaim, IsAuthorized;
    match step
    case ProbeStep(e, now) =>
      ProbeKeepsOpinion(ed, s, e, now, c);
      ProbeDates(ed, s, e, now, c.name, key, date);
    case RegisterStep(e, domain, verified, now, order, nonce) =>
      AnsweredIsVouched(ed, s, c.name, key, date, now);
      RegisterKeepsOpinion(ed, s, e, domain, verified, now, order, nonce, c);
      SameClaimIsAnswered(ed, s, Next(ed, s, step), c.name, key, date);
    case SetRecordsStep(e, domain, records, now) =>
      SetRecordsKeepsOpinion(ed, s, e, domain, records, now, c);
      PublishedElsewhere(ed, s, e, domain, records, now, s.registrations[c.name].host, c.name);
      assert SameClaim(s, Next(ed, s, step), c.name) by { SameClaimBy(s, Next(ed, s, step), c.name); }
      SameClaimIsAnswered(ed, s, Next(ed, s, step), c.name, key, date);
    case AdoptStep(r, now) => AdoptKeeps(ed, s, r, now, c, p, key, date);
    case SweepStep(order, now) =>
      AnsweredIsVouched(ed, s, c.name, key, date, now);
      SweepKeepsOpinion(ed, s, order, now, c);
      SameClaimIsAnswered(ed, s, Next(ed, s, step), c.name, key, date);
  }

  lemma SameClaimBy(s: Store, t: Store, d: Domain)
    requires d in s.registrations && Claimed(s, s.registrations[d].host, d) && Claimed(t, s.registrations[d].host, d)
    requires t.claims[s.registrations[d].host][d] == s.claims[s.registrations[d].host][d]
    ensures SameClaim(s, t, d)
  {
  }

  /** Over any such run the name stays with its holder, under the same token. */
  lemma {:induction false} FreeForLife(ed: Ed25519, s: Store, steps: seq<Step>, c: Contest, p: Contestant, key: string,
                                       date: Millis)
    requires Stands(ed, s, c, p, key, date) && Fair(c) && AttendedRun(ed, s, steps, c, p, key, date)
    ensures Stands(ed, Run(ed, s, steps), c, p, key, DateOf(ed, steps, key, date))
  {
    hide Stands, Fair, Attended, Next, DateAfter;
    if steps != [] {
      var init, last := steps[..|steps| - 1], steps[|steps| - 1];
      FreeForLife(ed, s, init, c, p, key, date);
      AttendedKeeps(ed, Run(ed, s, init), last, c, p, key, DateOf(ed, init, key, date));
    }
  }

  /** The contest of a name with a rival yet to come. */
  function Uncontested(name: Domain, p: Contestant, rival: Contestant): Contest {
    Contest(name, p, rival, {}, {})
  }

  lemma OneLeaseStands(ed: Ed25519, s: Store, h: Host, r: Rumor, rival: Contestant)
    requires Inv(ed, s) && s.claims == map[h := map[r.domain := r]] && s.registrations == map[r.domain := FromRumor(r, h)]
    requires IsAuthorized(ed, r) && QuotaKey(r.rdns) == h
    ensures var p := Contestant(h, r.token);
            Stands(ed, s, Uncontested(r.domain, p, rival), p, r.clientKey, r.probedAt)
  {
    hide Inv, IsAuthorized, QuotaKey;
  }

  /** So does a name registered with one acknowledged probe and one acknowledged request: it stays with the
      host that asked for it, under the same token, in every such run that follows. */
  lemma FirstNameIsForLife(ed: Ed25519, e: Envelope, q: Overflow.NameRequest, now: Millis, rival: Contestant,
                           steps: seq<Step>)
    requires Authenticate(ed, e, ProbeMessage(e.timestamp), now).Ok? && Overflow.Signed(ed, q, ClientOf(e), now)
    requires rival.host != QuotaKey(e.rdns) && rival.token != Token(now, q.nonce)
    requires var p := Contestant(QuotaKey(e.rdns), Token(now, q.nonce));
             AttendedRun(ed, Run(ed, EMPTY, LostNames.FirstSteps(e, q, now)), steps, Uncontested(q.domain, p, rival), p,
                         ClientKey(ClientOf(e)), e.timestamp)
    ensures Opinion(Run(ed, Run(ed, EMPTY, LostNames.FirstSteps(e, q, now)), steps), q.domain)
            == Some(Contestant(QuotaKey(e.rdns), Token(now, q.nonce)))
  {
    var s, r, h := Run(ed, EMPTY, LostNames.FirstSteps(e, q, now)), LostNames.FirstLease(e, q, now), QuotaKey(e.rdns);
    LostNames.FirstIsFresh(ed, e, q, now);
    LostNames.FirstLeaseInForce(ed, e, q, now);
    Overflow.SignedBy(ed, q, ClientOf(e), now);
    hide QuotaKey, ClientKey, Authenticate, Overflow.Signed, Run, ValidRun, AttendedRun, LostNames.FirstSteps, IsAuthorized,
      Overflow.Fresh, Inv, Stands;
    assert r.domain == q.domain && r.token == Token(now, q.nonce) && r.rdns == e.rdns && r.probedAt == e.timestamp;
    RunKeepsInv(ed, LostNames.FirstSteps(e, q, now));
    LostNames.FreshStore(ed, s, ClientOf(e), r, (e.timestamp, e.signature), now);
    LostNames.LeaseIsRegistered(s, h, r);
    OneLeaseStands(ed, s, h, r, rival);
    var p := Contestant(h, r.token);
    assert Fair(Uncontested(q.domain, p, rival));
    FreeForLife(ed, s, steps, Uncontested(q.domain, p, rival), p, ClientKey(ClientOf(e)), e.timestamp);
    StandsForHolder(ed, Run(ed, s, steps), Uncontested(q.domain, p, rival), p, ClientKey(ClientOf(e)),
                    DateOf(ed, steps, ClientKey(ClientOf(e)), e.timestamp));
  }

  lemma StandsForHolder(ed: Ed25519, s: Store, c: Contest, p: Contestant, key: string, date: Millis)
    requires Stands(ed, s, c, p, key, date)
    ensures Opinion(s, c.name) == Some(p)
  {
  }
}
