/** More than five names for one host: the runs that show both provisos of the cap to be needed, and
    the exact condition under which it holds. */
module Overflow {
  import opened Bytes
  import opened Outcomes
  import opened Tokens
  import opened Collision
  import opened Identity
  import opened Registry
  import opened FirstFiveClaims
  import opened Sweeping
  import opened Runs
  import opened HostCap
  import opened Limits

  // ---------------------------------------------------------------- leased and unleased names

  function Leased(c: Claims, h: Host): map<Domain, Registration> {
    map d | d in c :: FromRumor(c[d], h)
  }

  ghost predicate AllInForce(ed: Ed25519, c: Claims, now: Millis) {
    forall d | d in c :: InForce(ed, c[d], now)
  }

  /** Host `h` has these claims, no other host has any, and the store's registrations are the names of
      the claims, each under its lease, and these names of `h` without a lease. */
  ghost predicate HoldsBoth(s: Store, h: Host, c: Claims, bare: map<Domain, Registration>) {
    && s.claims.Keys <= {h} && ClaimsOf(s, h) == c
    && s.registrations == Leased(c, h) + bare && bare.Keys !! c.Keys
    && forall d | d in bare :: bare[d].host == h && bare[d].rumor.None?
  }

  lemma HeldAre(s: Store, h: Host, c: Claims, bare: map<Domain, Registration>, d: Domain)
    requires HoldsBoth(s, h, c, bare)
    ensures d in Held(s, h) <==> d in c || d in bare
  {
  }

  lemma UnionSize(c: Claims, bare: map<Domain, Registration>)
    requires bare.Keys !! c.Keys
    ensures |c.Keys + bare.Keys| == |c| + |bare|
  {
    assert |c.Keys| == |c| && |bare.Keys| == |bare|;
  }

  lemma HeldAreAll(s: Store, h: Host, c: Claims, bare: map<Domain, Registration>)
    requires HoldsBoth(s, h, c, bare)
    ensures Held(s, h) == c.Keys + bare.Keys && bare.Keys !! c.Keys
  {
    forall d
      ensures d in Held(s, h) <==> d in c.Keys + bare.Keys
    {
      HeldAre(s, h, c, bare, d);
    }
    hide Held, Leased;
  }

  lemma HoldsAll(s: Store, h: Host, c: Claims, bare: map<Domain, Registration>)
    requires HoldsBoth(s, h, c, bare)
    ensures |Held(s, h)| == |c| + |bare|
  {
    HeldAreAll(s, h, c, bare);
    hide Held, HoldsBoth;
    UnionSize(c, bare);
  }

  lemma FewInForceAreRetained(ed: Ed25519, c: Claims, now: Millis)
    requires |c| <= MAX_REGISTRATIONS && AllInForce(ed, c, now)
    ensures Retained(ed, c, now) == c
  {
    assert Standing(ed, c, now) == c;
    FewAreAllKept(c);
  }

  /** Every leased name of `h` is taken from it and given back; the others stay. */
  lemma ReconciledBoth(c: Claims, kept: Claims, bare: map<Domain, Registration>, h: Host)
    requires c.Keys <= kept.Keys && bare.Keys !! kept.Keys && forall d | d in bare :: bare[d].rumor.None?
    ensures ReconcileRegistrations(Leased(c, h) + bare, kept, h) == Leased(kept, h) + bare
  {
    var before, after := Leased(c, h) + bare, Leased(kept, h) + bare;
    forall d
      ensures SlotAfter(Get(before, d), Get(kept, d), h) == Get(after, d)
    {
      hide Negotiate;
      assert d in bare ==> Get(before, d) == Some(bare[d]) == Get(after, d);
      assert d in c && d !in bare ==> Get(before, d) == Some(FromRumor(c[d], h));
    }
    hide SlotAfter, Leased;
    SameSlotsSameMap(ReconcileRegistrations(before, kept, h), after);
  }

  /** The order that lists the one host with claims, if it has any. */
  function Only(s: Store, h: Host): seq<Host> {
    if h in s.claims then [h] else []
  }

  lemma ReconciledIsSame(ed: Ed25519, s: Store, h: Host, c: Claims, bare: map<Domain, Registration>, now: Millis)
    requires HoldsBoth(s, h, c, bare) && Retained(ed, c, now) == c && h in s.claims
    ensures Reconcile(ed, s, h, now) == s
  {
    hide Retained, ReconcileRegistrations, Leased;
    ReconciledBoth(c, c, bare, h);
    assert s.claims[h := c] == s.claims;
  }

  lemma OnlyEnumerates(s: Store, h: Host)
    requires s.claims.Keys <= {h}
    ensures Enumerates(Only(s, h), s.claims.Keys)
  {
  }

  /** A sweep while nothing has lapsed changes nothing. */
  lemma SweptIsSame(ed: Ed25519, s: Store, h: Host, c: Claims, bare: map<Domain, Registration>, now: Millis)
    requires HoldsBoth(s, h, c, bare) && |c| <= MAX_REGISTRATIONS && AllInForce(ed, c, now) && Expired(s, now) == {}
    ensures Enumerates(Only(s, h), s.claims.Keys) && Sweep(ed, s, Only(s, h), now) == s
  {
    NothingExpires(s, now);
    OnlyEnumerates(s, h);
    hide AllInForce, Retained, Reconcile, ExpireHosts, Expired, Leased, ReconcileAll, HoldsBoth, Enumerates;
    if h in s.claims {
      FewInForceAreRetained(ed, c, now);
      ReconciledIsSame(ed, s, h, c, bare, now);
      OneReconciled(ed, s, h, now);
    } else {
      NoneReconciled(ed, s, now);
    }
  }

  lemma NoneReconciled(ed: Ed25519, s: Store, now: Millis)
    ensures ReconcileAll(ed, s, [], now) == s
  {
  }

  lemma NothingExpires(s: Store, now: Millis)
    requires Expired(s, now) == {}
    ensures ExpireHosts(s, now) == s
  {
  }

  lemma OneReconciled(ed: Ed25519, s: Store, h: Host, now: Millis)
    ensures ReconcileAll(ed, s, [h], now) == Reconcile(ed, s, h, now)
  {
    hide Reconcile;
    assert [h][..0] == [];
    assert ReconcileAll(ed, s, [], now) == s;
  }

  /** What a submission does, once it is known which claims are retained. */
  lemma SubmittedAs(ed: Ed25519, s: Store, r: Rumor, kept: Claims, now: Millis)
    requires Retained(ed, ClaimsOf(s, QuotaKey(r.rdns))[r.domain := r], now) == kept
    ensures var h := QuotaKey(r.rdns);
            Submit(ed, s, r, now)
            == s.(claims := s.claims[h := kept], registrations := ReconcileRegistrations(s.registrations, kept, h))
  {
    hide Retained, ReconcileRegistrations, QuotaKey;
    var h, more := QuotaKey(r.rdns), ClaimsOf(s, QuotaKey(r.rdns))[r.domain := r];
    assert s.claims[h := more][h := kept] == s.claims[h := kept];
  }

  /** A submission by `h`, whose cut-down claims then are `kept`. */
  lemma SubmittedBoth(ed: Ed25519, s: Store, h: Host, c: Claims, kept: Claims, bare: map<Domain, Registration>,
                      r: Rumor, now: Millis)
    requires HoldsBoth(s, h, c, bare) && QuotaKey(r.rdns) == h
    requires Retained(ed, c[r.domain := r], now) == kept && c.Keys <= kept.Keys && bare.Keys !! kept.Keys
    ensures var t := Submit(ed, s, r, now);
            HoldsBoth(t, h, kept, bare) && t == s.(claims := t.claims, registrations := t.registrations)
  {
    hide Retained, Leased, ReconcileRegistrations, QuotaKey, Submit;
    SubmittedAs(ed, s, r, kept, now);
    ReconciledBoth(c, kept, bare, h);
  }

  // ---------------------------------------------------------------- a request, granted

  /** A request for a name, and the nonce its token will get. */
  datatype NameRequest = NameRequest(envelope: Envelope, domain: Domain, nonce: Nonce)

  function RequestStep(q: NameRequest, order: seq<Host>, now: Millis): Step {
    RegisterStep(q.envelope, q.domain, true, now, order, q.nonce)
  }

  predicate Signed(ed: Ed25519, q: NameRequest, client: ClientIdentity, now: Millis) {
    && ClientOf(q.envelope) == client
    && Authenticate(ed, q.envelope, RegisterMessage(q.domain, q.envelope.timestamp), now).Ok?
  }

  function LeaseOf(s: Store, q: NameRequest, now: Millis): Rumor
    requires ClientKey(ClientOf(q.envelope)) in s.evidence
  {
    LeaseFor(q.envelope, ClientOf(q.envelope), q.domain, Token(now, q.nonce), s.evidence[ClientKey(ClientOf(q.envelope))])
  }

  function BareOf(q: NameRequest, now: Millis): Registration {
    Unleased(ClientOf(q.envelope), Token(now, q.nonce))
  }

  /** If sweeping changes nothing, the name is free and the host may register, the request is granted. */
  lemma RequestIsGranted(ed: Ed25519, s: Store, q: NameRequest, order: seq<Host>, now: Millis)
    requires Signed(ed, q, ClientOf(q.envelope), now) && ClientKey(ClientOf(q.envelope)) in s.evidence
    requires Sweep(ed, s, order, now) == s && q.domain !in s.registrations
    requires CanRegister(s, QuotaKey(q.envelope.rdns), now)
    ensures Next(ed, s, RequestStep(q, order, now))
            == Submit(ed, Granting(s, q.domain, BareOf(q, now)), LeaseOf(s, q, now), now)
  {
    hide Sweep, Submit, ClientKey, QuotaKey;
    assert Register(ed, s, q.domain, ClientOf(q.envelope), now, order, q.nonce)
        == (Granting(s, q.domain, BareOf(q, now)), Ok(Token(now, q.nonce)));
  }

  lemma GrantedBoth(s: Store, h: Host, c: Claims, bare: map<Domain, Registration>, domain: Domain, reg: Registration)
    requires HoldsBoth(s, h, c, bare) && domain !in s.registrations && reg.host == h && reg.rumor.None?
    ensures HoldsBoth(Granting(s, domain, reg), h, c, bare[domain := reg]) && domain !in c && domain !in bare
  {
    hide Leased;
    assert Leased(c, h).Keys == c.Keys by { LeasedNames(c, h); }
    assert domain in Leased(c, h) + bare <==> domain in c || domain in bare;
    assert (Leased(c, h) + bare)[domain := reg] == Leased(c, h) + bare[domain := reg];
  }

  lemma FreeAmongBoth(s: Store, h: Host, c: Claims, bare: map<Domain, Registration>, domain: Domain)
    requires HoldsBoth(s, h, c, bare)
    ensures domain in s.registrations <==> domain in c || domain in bare
  {
    LeasedNames(c, h);
    hide Leased;
  }

  lemma BothApart(s: Store, h: Host, c: Claims, bare: map<Domain, Registration>)
    requires HoldsBoth(s, h, c, bare)
    ensures bare.Keys !! c.Keys
  {
    hide Leased;
  }

  lemma LeasedNames(c: Claims, h: Host)
    ensures Leased(c, h).Keys == c.Keys
  {
  }

  // ---------------------------------------------------------------- five claims and more grants

  lemma SixthIsLast(c: Claims, r: Rumor)
    requires |c| == MAX_REGISTRATIONS && r.domain !in c && forall d | d in c :: Precedes(c[d].token, r.token)
    ensures FirstFive(c[r.domain := r]) == c
  {
    var more := c[r.domain := r];
    forall d | d in more && d != r.domain
      ensures Outranks(more, d, r.domain)
    {
      assert Precedes(c[d].token, r.token);
    }
    hide Outranks, OrderingKey, FirstFive;
    assert |more.Keys| == |more| && more.Keys == c.Keys + {r.domain};
    assert Without(more, r.domain) == c;
    FirstFiveWithoutLast(more, r.domain);
    FewAreAllKept(c);
    FirstFiveWithin(more);
  }

  lemma FirstFiveWithin(c: Claims)
    ensures Within(FirstFive(c), c)
  {
  }

  /** Five claims that come before a sixth stay when it is submitted. */
  lemma SixthIsCut(ed: Ed25519, c: Claims, r: Rumor, now: Millis)
    requires |c| == MAX_REGISTRATIONS && r.domain !in c && AllInForce(ed, c, now)
    requires forall d | d in c :: Precedes(c[d].token, r.token)
    ensures Retained(ed, c[r.domain := r], now) == c
  {
    hide InForce, Precedes, FirstFive;
    var more := c[r.domain := r];
    if InForce(ed, r, now) {
      assert Standing(ed, more, now) == more;
      SixthIsLast(c, r);
    } else {
      assert Standing(ed, more, now) == c;
      FewAreAllKept(c);
    }
  }

  /** The host has five claims in force, is live, and its counter counts the names it has without a
      lease. */
  ghost predicate Full(ed: Ed25519, s: Store, h: Host, c: Claims, bare: map<Domain, Registration>, now: Millis) {
    && HoldsBoth(s, h, c, bare) && |c| == MAX_REGISTRATIONS && AllInForce(ed, c, now)
    && Count(s, h) == |bare| && IsLive(s, h, now) && Expired(s, now) == {}
  }

  /** A request after the five claims. */
  ghost predicate Late(ed: Ed25519, q: NameRequest, client: ClientIdentity, c: Claims, now: Millis) {
    && Signed(ed, q, client, now) && q.domain !in c
    && forall d | d in c :: Precedes(c[d].token, Token(now, q.nonce))
  }

  /** What the grant does to the tables, the claims being cut back to the five. */
  lemma FullSubmits(ed: Ed25519, s: Store, h: Host, c: Claims, bare: map<Domain, Registration>, reg: Registration,
                    lease: Rumor, now: Millis)
    requires Full(ed, s, h, c, bare, now) && QuotaKey(lease.rdns) == h && lease.domain !in c && lease.domain !in bare
    requires reg.host == h && reg.rumor.None? && forall d | d in c :: Precedes(c[d].token, lease.token)
    ensures lease.domain !in s.registrations
    ensures var granting := Granting(s, lease.domain, reg);
            var t := Submit(ed, granting, lease, now);
            && HoldsBoth(t, h, c, bare[lease.domain := reg])
            && t == granting.(claims := t.claims, registrations := t.registrations)
  {
    FreeAmongBoth(s, h, c, bare, lease.domain);
    hide QuotaKey, Retained, Submit, Leased, AllInForce, Precedes, Expired, IsLive, HoldsBoth, Count;
    GrantedBoth(s, h, c, bare, lease.domain, reg);
    SixthIsCut(ed, c, lease, now);
    BothApart(Granting(s, lease.domain, reg), h, c, bare[lease.domain := reg]);
    SubmittedBoth(ed, Granting(s, lease.domain, reg), h, c, c, bare[lease.domain := reg], lease, now);
  }

  lemma OneMoreBare(bare: map<Domain, Registration>, domain: Domain, reg: Registration)
    requires domain !in bare
    ensures |bare[domain := reg]| == |bare| + 1
  {
    assert bare[domain := reg].Keys == bare.Keys + {domain};
    assert |bare[domain := reg].Keys| == |bare[domain := reg]| && |bare.Keys| == |bare|;
  }

  /** One more grant: one more name, without a lease. */
  lemma FullGrants(ed: Ed25519, s: Store, client: ClientIdentity, c: Claims, bare: map<Domain, Registration>,
                   q: NameRequest, now: Millis)
    requires Full(ed, s, QuotaKey(client.rdns), c, bare, now) && |bare| < MAX_REGISTRATIONS
    requires Late(ed, q, client, c, now) && q.domain !in bare && ClientKey(client) in s.evidence
    ensures var h := QuotaKey(client.rdns);
            var t := Next(ed, s, RequestStep(q, [h], now));
            && Enumerates([h], s.claims.Keys)
            && Full(ed, t, h, c, bare[q.domain := BareOf(q, now)], now) && t.evidence == s.evidence
  {
    hide QuotaKey, ClientKey, Submit, Leased, AllInForce, Precedes, Authenticate, Expired, IsLive, Next, Sweep;
    var h, reg, lease := QuotaKey(client.rdns), BareOf(q, now), LeaseOf(s, q, now);
    assert h in s.claims;
    SweptIsSame(ed, s, h, c, bare, now);
    FullSubmits(ed, s, h, c, bare, reg, lease, now);
    RequestIsGranted(ed, s, q, [h], now);
    OneMoreBare(bare, q.domain, reg);
    SameSightings(Granting(s, q.domain, reg), Submit(ed, Granting(s, q.domain, reg), lease, now), now);
    GrantSightings(s, q.domain, reg, now);
  }

  lemma SameSightings(s: Store, t: Store, now: Millis)
    requires t == s.(claims := t.claims, registrations := t.registrations)
    ensures Expired(t, now) == Expired(s, now) && forall h :: IsLive(t, h, now) == IsLive(s, h, now)
  {
  }

  lemma GrantSightings(s: Store, domain: Domain, reg: Registration, now: Millis)
    ensures var t := Granting(s, domain, reg);
            && Expired(t, now) == Expired(s, now) && (forall h :: IsLive(t, h, now) == IsLive(s, h, now))
            && Count(t, reg.host) == Count(s, reg.host) + 1
  {
  }

  function RequestSteps(reqs: seq<NameRequest>, h: Host, now: Millis): (steps: seq<Step>)
    ensures |steps| == |reqs| && forall i | 0 <= i < |reqs| :: steps[i] == RequestStep(reqs[i], [h], now)
  {
    seq(|reqs|, i requires 0 <= i < |reqs| => RequestStep(reqs[i], [h], now))
  }

  function BareNames(reqs: seq<NameRequest>, now: Millis): map<Domain, Registration> {
    if reqs == [] then map[]
    else var last := reqs[|reqs| - 1]; BareNames(reqs[..|reqs| - 1], now)[last.domain := BareOf(last, now)]
  }

  ghost predicate DistinctNames(reqs: seq<NameRequest>) {
    forall i, j | 0 <= i < j < |reqs| :: reqs[i].domain != reqs[j].domain
  }

  lemma {:induction false} BareNamesAre(reqs: seq<NameRequest>, now: Millis, d: Domain)
    ensures d in BareNames(reqs, now) ==> exists i :: 0 <= i < |reqs| && reqs[i].domain == d
  {
    if reqs != [] {
      var init := reqs[..|reqs| - 1];
      BareNamesAre(init, now, d);
      if d in BareNames(init, now) {
        var i :| 0 <= i < |init| && init[i].domain == d;
        assert reqs[i].domain == d;
      }
    }
  }

  lemma LastIsNew(reqs: seq<NameRequest>, now: Millis)
    requires reqs != [] && DistinctNames(reqs)
    ensures reqs[|reqs| - 1].domain !in BareNames(reqs[..|reqs| - 1], now)
  {
    BareNamesAre(reqs[..|reqs| - 1], now, reqs[|reqs| - 1].domain);
  }

  lemma OneMoreStep(ed: Ed25519, s: Store, init: seq<Step>, last: Step)
    requires ValidRun(ed, s, init) && Enabled(Run(ed, s, init), last)
    ensures ValidRun(ed, s, init + [last]) && Run(ed, s, init + [last]) == Next(ed, Run(ed, s, init), last)
  {
    hide Next, Enabled;
    assert (init + [last])[..|init|] == init;
  }

  lemma {:induction false} RunOn(ed: Ed25519, s: Store, first: seq<Step>, rest: seq<Step>)
    requires ValidRun(ed, s, first) && ValidRun(ed, Run(ed, s, first), rest)
    ensures ValidRun(ed, s, first + rest) && Run(ed, s, first + rest) == Run(ed, Run(ed, s, first), rest)
    decreases |rest|
  {
    hide Next, Enabled;
    if rest == [] {
      assert first + rest == first;
    } else {
      RunOn(ed, s, first, rest[..|rest| - 1]);
      assert (first + rest)[..|first + rest| - 1] == first + rest[..|rest| - 1];
    }
  }

  lemma RunOne(ed: Ed25519, s: Store, step: Step)
    requires Enabled(s, step)
    ensures ValidRun(ed, s, [step]) && Run(ed, s, [step]) == Next(ed, s, step)
  {
    hide Next, Enabled;
    assert [step][..0] == [];
    assert ValidRun(ed, s, []) && Run(ed, s, []) == s;
  }

  /** Up to five grants on top of five claims: that many names more. */
  lemma {:induction false} AllAreGranted(ed: Ed25519, s: Store, client: ClientIdentity, c: Claims,
                                         reqs: seq<NameRequest>, now: Millis)
    requires Full(ed, s, QuotaKey(client.rdns), c, map[], now) && ClientKey(client) in s.evidence
    requires |reqs| <= MAX_REGISTRATIONS && DistinctNames(reqs)
    requires forall i | 0 <= i < |reqs| :: Late(ed, reqs[i], client, c, now)
    ensures var h := QuotaKey(client.rdns);
            var steps := RequestSteps(reqs, h, now);
            && ValidRun(ed, s, steps) && Full(ed, Run(ed, s, steps), h, c, BareNames(reqs, now), now)
            && |BareNames(reqs, now)| == |reqs| && Run(ed, s, steps).evidence == s.evidence
    decreases |reqs|
  {
    hide Full, Late, QuotaKey, ClientKey, Next, Enumerates;
    var h := QuotaKey(client.rdns);
    if reqs != [] {
      var init, last := reqs[..|reqs| - 1], reqs[|reqs| - 1];
      AllAreGranted(ed, s, client, c, init, now);
      var steps := RequestSteps(init, h, now);
      assert RequestSteps(reqs, h, now) == steps + [RequestStep(last, [h], now)];
      LastIsNew(reqs, now);
      FullGrants(ed, Run(ed, s, steps), client, c, BareNames(init, now), last, now);
      OneMoreStep(ed, s, steps, RequestStep(last, [h], now));
      assert BareNames(reqs, now).Keys == BareNames(init, now).Keys + {last.domain};
      assert |BareNames(reqs, now).Keys| == |BareNames(reqs, now)| && |BareNames(init, now).Keys| == |BareNames(init, now)|;
    }
  }

  lemma FullHolds(ed: Ed25519, s: Store, h: Host, c: Claims, bare: map<Domain, Registration>, now: Millis)
    requires Full(ed, s, h, c, bare, now)
    ensures |Held(s, h)| == MAX_REGISTRATIONS + |bare|
  {
    HoldsAll(s, h, c, bare);
  }

  // ---------------------------------------------------------------- leases heard from elsewhere

  lemma AdoptedHolds(ed: Ed25519, s: Store, h: Host, c: Claims, r: Rumor, now: Millis)
    requires HoldsBoth(s, h, c, map[]) && |c| < MAX_REGISTRATIONS && AllInForce(ed, c, now)
    requires InForce(ed, r, now) && QuotaKey(r.rdns) == h && r.domain !in c
    ensures var t := AdoptRumor(ed, s, r, now);
            && HoldsBoth(t, h, c[r.domain := r], map[]) && AllInForce(ed, c[r.domain := r], now)
            && t == s.(claims := t.claims, registrations := t.registrations)
  {
    hide InForce, QuotaKey, Retained, Submit, Leased;
    var more := c[r.domain := r];
    assert more.Keys == c.Keys + {r.domain};
    assert |more.Keys| == |more| && |c.Keys| == |c|;
    FewInForceAreRetained(ed, more, now);
    SubmittedBoth(ed, s, h, c, more, map[], r, now);
  }

  /** A host's leases, heard one after another. */
  function Adoptions(leases: seq<Rumor>, now: Millis): (steps: seq<Step>)
    ensures |steps| == |leases| && forall i | 0 <= i < |leases| :: steps[i] == AdoptStep(leases[i], now)
  {
    seq(|leases|, i requires 0 <= i < |leases| => AdoptStep(leases[i], now))
  }

  function Named(leases: seq<Rumor>): Claims {
    if leases == [] then map[]
    else var last := leases[|leases| - 1]; Named(leases[..|leases| - 1])[last.domain := last]
  }

  ghost predicate OneHostsLeases(ed: Ed25519, leases: seq<Rumor>, h: Host, now: Millis) {
    && (forall i | 0 <= i < |leases| :: InForce(ed, leases[i], now) && QuotaKey(leases[i].rdns) == h)
    && forall i, j | 0 <= i < j < |leases| :: leases[i].domain != leases[j].domain
  }

  lemma {:induction false} NamedAre(leases: seq<Rumor>, d: Domain)
    requires d in Named(leases)
    ensures exists i :: 0 <= i < |leases| && leases[i] == Named(leases)[d] && leases[i].domain == d
  {
    var init, last := leases[..|leases| - 1], leases[|leases| - 1];
    if d == last.domain {
      assert leases[|leases| - 1] == Named(leases)[d];
    } else {
      NamedAre(init, d);
      var i :| 0 <= i < |init| && init[i] == Named(init)[d] && init[i].domain == d;
      assert leases[i] == Named(leases)[d];
    }
  }

  lemma LastNameIsNew(ed: Ed25519, leases: seq<Rumor>, h: Host, now: Millis)
    requires leases != [] && OneHostsLeases(ed, leases, h, now)
    ensures leases[|leases| - 1].domain !in Named(leases[..|leases| - 1])
  {
    var init, d := leases[..|leases| - 1], leases[|leases| - 1].domain;
    if d in Named(init) {
      NamedAre(init, d);
    }
  }

  lemma {:induction false} HeardHolds(ed: Ed25519, s: Store, leases: seq<Rumor>, h: Host, now: Millis)
    requires HoldsBoth(s, h, map[], map[]) && |leases| <= MAX_REGISTRATIONS && OneHostsLeases(ed, leases, h, now)
    ensures var steps := Adoptions(leases, now);
            var t := Run(ed, s, steps);
            && ValidRun(ed, s, steps) && HoldsBoth(t, h, Named(leases), map[]) && AllInForce(ed, Named(leases), now)
            && |Named(leases)| == |leases| && t == s.(claims := t.claims, registrations := t.registrations)
    decreases |leases|
  {
    hide InForce, QuotaKey, HoldsBoth, AllInForce, AdoptRumor;
    if leases == [] {
      hide Run;
      NoneInForce(ed, now);
      assert Adoptions(leases, now) == [] && Run(ed, s, []) == s by { RunNothing(ed, s); }
    } else {
      var init, last := leases[..|leases| - 1], leases[|leases| - 1];
      HeardHolds(ed, s, init, h, now);
      LastNameIsNew(ed, leases, h, now);
      var steps := Adoptions(init, now);
      assert Adoptions(leases, now) == steps + [AdoptStep(last, now)];
      OneMoreStep(ed, s, steps, AdoptStep(last, now));
      hide Run, ValidRun;
      AdoptedHolds(ed, Run(ed, s, steps), h, Named(init), last, now);
      assert Named(leases).Keys == Named(init).Keys + {last.domain};
      assert |Named(leases).Keys| == |Named(leases)| && |Named(init).Keys| == |Named(init)|;
    }
  }

  lemma NoneInForce(ed: Ed25519, now: Millis)
    ensures AllInForce(ed, map[], now)
  {
  }

  lemma RunNothing(ed: Ed25519, s: Store)
    ensures Run(ed, s, []) == s && ValidRun(ed, s, [])
  {
  }

  /** The first probe a node acknowledges. */
  lemma ProbedHoldsNothing(ed: Ed25519, p: Envelope, now: Millis)
    requires Authenticate(ed, p, ProbeMessage(p.timestamp), now).Ok?
    ensures var s := Next(ed, EMPTY, ProbeStep(p, now));
            && ValidRun(ed, EMPTY, [ProbeStep(p, now)]) && Run(ed, EMPTY, [ProbeStep(p, now)]) == s
            && HoldsBoth(s, QuotaKey(p.rdns), map[], map[]) && s.claims == map[] && s.counts == map[]
            && s.evidence == map[ClientKey(ClientOf(p)) := (p.timestamp, p.signature)]
            && s.lastSeen == map[QuotaKey(p.rdns) := now]
  {
    hide QuotaKey, ClientKey;
    RunOne(ed, EMPTY, ProbeStep(p, now));
    assert Next(ed, EMPTY, ProbeStep(p, now)).registrations == map[];
    assert Leased(map[], QuotaKey(p.rdns)) + map[] == map[];
  }

  function HeardRun(p: Envelope, leases: seq<Rumor>, reqs: seq<NameRequest>, now: Millis): seq<Step> {
    [ProbeStep(p, now)] + Adoptions(leases, now) + RequestSteps(reqs, QuotaKey(p.rdns), now)
  }

  lemma HeardIsFull(ed: Ed25519, p: Envelope, leases: seq<Rumor>, now: Millis)
    requires Authenticate(ed, p, ProbeMessage(p.timestamp), now).Ok?
    requires |leases| == MAX_REGISTRATIONS && OneHostsLeases(ed, leases, QuotaKey(p.rdns), now)
    ensures var h := QuotaKey(p.rdns);
            var steps := [ProbeStep(p, now)] + Adoptions(leases, now);
            var s := Run(ed, EMPTY, steps);
            ValidRun(ed, EMPTY, steps) && Full(ed, s, h, Named(leases), map[], now) && ClientKey(ClientOf(p)) in s.evidence
  {
    hide QuotaKey, ClientKey, HoldsBoth, AllInForce, Authenticate, OneHostsLeases, Run, ValidRun;
    var h := QuotaKey(p.rdns);
    ProbedHoldsNothing(ed, p, now);
    var probed := Run(ed, EMPTY, [ProbeStep(p, now)]);
    HeardHolds(ed, probed, leases, h, now);
    RunOn(ed, EMPTY, [ProbeStep(p, now)], Adoptions(leases, now));
    assert Expired(probed, now) == {} && IsLive(probed, h, now);
    SameSightings(probed, Run(ed, probed, Adoptions(leases, now)), now);
  }

  /** A node that has heard five leases of a host grants that host, at the request of a probed client,
      up to five names more: it can hold ten. */
  lemma FiveHeardAndMore(ed: Ed25519, p: Envelope, leases: seq<Rumor>, reqs: seq<NameRequest>, now: Millis)
    requires Authenticate(ed, p, ProbeMessage(p.timestamp), now).Ok?
    requires |leases| == MAX_REGISTRATIONS && OneHostsLeases(ed, leases, QuotaKey(p.rdns), now)
    requires |reqs| <= MAX_REGISTRATIONS && DistinctNames(reqs)
    requires forall i | 0 <= i < |reqs| :: Late(ed, reqs[i], ClientOf(p), Named(leases), now)
    ensures ValidRun(ed, EMPTY, HeardRun(p, leases, reqs, now))
    ensures |Held(Run(ed, EMPTY, HeardRun(p, leases, reqs, now)), QuotaKey(p.rdns))| == 5 + |reqs|
  {
    hide QuotaKey, ClientKey, Full, Late, Authenticate, OneHostsLeases, Run, ValidRun, Held;
    var h, heard := QuotaKey(p.rdns), [ProbeStep(p, now)] + Adoptions(leases, now);
    HeardIsFull(ed, p, leases, now);
    AllAreGranted(ed, Run(ed, EMPTY, heard), ClientOf(p), Named(leases), reqs, now);
    RunOn(ed, EMPTY, heard, RequestSteps(reqs, h, now));
    FullHolds(ed, Run(ed, EMPTY, HeardRun(p, leases, reqs, now)), h, Named(leases), BareNames(reqs, now), now);
  }

  // ---------------------------------------------------------------- a probe dated ahead

  /** Probe evidence that keeps a lease live. */
  predicate Vouches(ed: Ed25519, client: ClientIdentity, probe: (Millis, seq<byte>), now: Millis) {
    && |client.verifyingKey| == 32 && ed.keyParses(client.verifyingKey)
    && ed.Accepts(client.verifyingKey, ProbeMessage(probe.0), probe.1)
    && SaturatingSub(now, probe.0) <= LIVENESS_WINDOW
  }

  /** A lease of this client, issued and probed at these times. */
  predicate OwnLease(r: Rumor, client: ClientIdentity, probedAt: Millis, issuedAt: Millis) {
    r.clientKey == ClientKey(client) && r.probedAt == probedAt && r.token.issuedAt == issuedAt
  }

  ghost predicate OwnLeases(c: Claims, client: ClientIdentity, probedAt: Millis, issuedAt: Millis) {
    forall d | d in c :: OwnLease(c[d], client, probedAt, issuedAt)
  }

  /** All names are those registered at `now` by one client, of the one host seen; they are leased. */
  ghost predicate Fresh(ed: Ed25519, s: Store, client: ClientIdentity, c: Claims, probe: (Millis, seq<byte>), now: Millis) {
    var h := QuotaKey(client.rdns);
    && HoldsBoth(s, h, c, map[]) && AllInForce(ed, c, now) && OwnLeases(c, client, probe.0, now)
    && (h in s.claims <==> c != map[]) && Count(s, h) == |c| && s.counts.Keys <= {h}
    && s.lastSeen == map[h := now] && Get(s.evidence, ClientKey(client)) == Some(probe)
  }

  lemma OwnLeaseInForce(ed: Ed25519, s: Store, q: NameRequest, client: ClientIdentity, probe: (Millis, seq<byte>), now: Millis)
    requires Signed(ed, q, client, now) && Get(s.evidence, ClientKey(client)) == Some(probe) && Vouches(ed, client, probe, now)
    ensures InForce(ed, LeaseOf(s, q, now), now) && OwnLease(LeaseOf(s, q, now), client, probe.0, now)
  {
    hide ClientKey;
  }

  /** The name just entered gets its lease along with the others. */
  lemma ReconciledOwn(c: Claims, h: Host, reg: Registration, lease: Rumor)
    requires lease.domain !in c && reg.rumor.None? && reg.token == lease.token
    ensures ReconcileRegistrations(Leased(c, h)[lease.domain := reg], c[lease.domain := lease], h)
            == Leased(c[lease.domain := lease], h)
  {
    var before, kept := Leased(c, h)[lease.domain := reg], c[lease.domain := lease];
    NegotiateIsSymmetric(lease.token, lease.token);
    forall d
      ensures SlotAfter(Get(before, d), Get(kept, d), h) == Get(Leased(kept, h), d)
    {
      hide Negotiate;
    }
    hide SlotAfter, Leased;
    SameSlotsSameMap(ReconcileRegistrations(before, kept, h), Leased(kept, h));
  }

  lemma OneMoreLease(c: Claims, lease: Rumor)
    requires lease.domain !in c
    ensures |c[lease.domain := lease]| == |c| + 1
  {
    var kept := c[lease.domain := lease];
    assert kept.Keys == c.Keys + {lease.domain};
    assert |kept.Keys| == |kept| && |c.Keys| == |c|;
  }

  /** With one more lease in force, all are retained. */
  lemma OwnRetained(ed: Ed25519, c: Claims, lease: Rumor, now: Millis)
    requires lease.domain !in c && |c| < MAX_REGISTRATIONS && AllInForce(ed, c, now) && InForce(ed, lease, now)
    ensures var kept := c[lease.domain := lease];
            AllInForce(ed, kept, now) && |kept| == |c| + 1 && Retained(ed, kept, now) == kept
  {
    hide InForce, Retained;
    OneMoreLease(c, lease);
    FewInForceAreRetained(ed, c[lease.domain := lease], now);
  }

  lemma AllLeased(s: Store, t: Store, h: Host, kept: Claims)
    requires s.claims.Keys <= {h} && t.claims == s.claims[h := kept] && t.registrations == Leased(kept, h)
    ensures HoldsBoth(t, h, kept, map[])
  {
    hide Leased;
    assert Leased(kept, h) + map[] == Leased(kept, h);
  }

  lemma OwnSubmitted(ed: Ed25519, s: Store, h: Host, c: Claims, reg: Registration, lease: Rumor, now: Millis)
    requires s.claims.Keys <= {h} && ClaimsOf(s, h) == c && s.registrations == Leased(c, h)[lease.domain := reg]
    requires QuotaKey(lease.rdns) == h && lease.domain !in c && |c| < MAX_REGISTRATIONS
    requires AllInForce(ed, c, now) && InForce(ed, lease, now)
    requires reg.rumor.None? && reg.token == lease.token
    ensures var t := Submit(ed, s, lease, now);
            && h in t.claims && HoldsBoth(t, h, c[lease.domain := lease], map[])
            && t == s.(claims := t.claims, registrations := t.registrations)
    ensures AllInForce(ed, c[lease.domain := lease], now) && |c[lease.domain := lease]| == |c| + 1
  {
    hide InForce, AllInForce, HoldsBoth, Retained, QuotaKey, Leased, ReconcileRegistrations, Submit;
    var kept := c[lease.domain := lease];
    OwnRetained(ed, c, lease, now);
    SubmittedAs(ed, s, lease, kept, now);
    ReconciledOwn(c, h, reg, lease);
    AllLeased(s, Submit(ed, s, lease, now), h, kept);
  }

  lemma FreshIsSwept(ed: Ed25519, s: Store, client: ClientIdentity, c: Claims, probe: (Millis, seq<byte>), now: Millis)
    requires Fresh(ed, s, client, c, probe, now) && |c| <= MAX_REGISTRATIONS
    ensures var order := Only(s, QuotaKey(client.rdns));
            Enumerates(order, s.claims.Keys) && Sweep(ed, s, order, now) == s
    ensures s.registrations == Leased(c, QuotaKey(client.rdns)) && IsLive(s, QuotaKey(client.rdns), now)
  {
    hide QuotaKey, ClientKey, AllInForce, OwnLeases, Leased, Sweep, Enumerates, Only;
    var h := QuotaKey(client.rdns);
    assert Expired(s, now) == {};
    SweptIsSame(ed, s, h, c, map[], now);
    assert Leased(c, h) + map[] == Leased(c, h);
  }

  lemma StillFresh(ed: Ed25519, s: Store, t: Store, client: ClientIdentity, c: Claims, probe: (Millis, seq<byte>),
                   reg: Registration, lease: Rumor, now: Millis)
    requires Fresh(ed, s, client, c, probe, now) && reg.host == QuotaKey(client.rdns)
    requires OwnLease(lease, client, probe.0, now) && QuotaKey(client.rdns) in t.claims
    requires HoldsBoth(t, QuotaKey(client.rdns), c[lease.domain := lease], map[])
    requires AllInForce(ed, c[lease.domain := lease], now) && |c[lease.domain := lease]| == |c| + 1
    requires t == Granting(s, lease.domain, reg).(claims := t.claims, registrations := t.registrations)
    ensures Fresh(ed, t, client, c[lease.domain := lease], probe, now)
  {
    hide QuotaKey, ClientKey, AllInForce, HoldsBoth, OwnLease;
    assert lease.domain in c[lease.domain := lease];
  }

  lemma FreshGrants(ed: Ed25519, s: Store, client: ClientIdentity, c: Claims, probe: (Millis, seq<byte>),
                    q: NameRequest, now: Millis)
    requires Fresh(ed, s, client, c, probe, now) && |c| < MAX_REGISTRATIONS && Vouches(ed, client, probe, now)
    requires Signed(ed, q, client, now) && q.domain !in c
    ensures ClientKey(ClientOf(q.envelope)) in s.evidence
    ensures var order := Only(s, QuotaKey(client.rdns));
            && Enumerates(order, s.claims.Keys)
            && Fresh(ed, Next(ed, s, RequestStep(q, order, now)), client, c[q.domain := LeaseOf(s, q, now)], probe, now)
            && |c[q.domain := LeaseOf(s, q, now)]| == |c| + 1
  {
    SignedBy(ed, q, client, now);
    EvidenceKept(ed, s, client, c, probe, now);
    hide QuotaKey, ClientKey, AllInForce, OwnLeases, Leased, Sweep, Submit, Next, Vouches, Signed, Enumerates;
    var h, reg, lease := QuotaKey(client.rdns), BareOf(q, now), LeaseOf(s, q, now);
    FreshIsSwept(ed, s, client, c, probe, now);
    LeasedNames(c, h);
    OwnLeaseInForce(ed, s, q, client, probe, now);
    FreshMayRegister(ed, s, client, c, probe, now);
    RequestIsGranted(ed, s, q, Only(s, h), now);
    OwnSubmitted(ed, Granting(s, q.domain, reg), h, c, reg, lease, now);
    StillFresh(ed, s, Submit(ed, Granting(s, q.domain, reg), lease, now), client, c, probe, reg, lease, now);
  }

  lemma FreshMayRegister(ed: Ed25519, s: Store, client: ClientIdentity, c: Claims, probe: (Millis, seq<byte>), now: Millis)
    requires Fresh(ed, s, client, c, probe, now) && |c| < MAX_REGISTRATIONS
    ensures CanRegister(s, QuotaKey(client.rdns), now) && s.claims.Keys <= {QuotaKey(client.rdns)}
    ensures ClaimsOf(s, QuotaKey(client.rdns)) == c && AllInForce(ed, c, now)
  {
    hide QuotaKey, ClientKey, AllInForce, OwnLeases, Leased;
  }

  lemma SignedBy(ed: Ed25519, q: NameRequest, client: ClientIdentity, now: Millis)
    requires Signed(ed, q, client, now)
    ensures ClientOf(q.envelope) == client && Signed(ed, q, ClientOf(q.envelope), now)
  {
  }

  /** The first requests of a host: its claims appear with the first. */
  function OpeningSteps(reqs: seq<NameRequest>, h: Host, now: Millis): (steps: seq<Step>)
    ensures |steps| == |reqs|
    ensures forall i | 0 <= i < |reqs| :: steps[i] == RequestStep(reqs[i], if i == 0 then [] else [h], now)
  {
    seq(|reqs|, i requires 0 <= i < |reqs| => RequestStep(reqs[i], if i == 0 then [] else [h], now))
  }

  /** The claims that such requests leave. */
  function OpeningClaims(reqs: seq<NameRequest>, probe: (Millis, seq<byte>), now: Millis): Claims {
    if reqs == [] then map[]
    else
      var q := reqs[|reqs| - 1];
      OpeningClaims(reqs[..|reqs| - 1], probe, now)[q.domain :=
        LeaseFor(q.envelope, ClientOf(q.envelope), q.domain, Token(now, q.nonce), probe)]
  }

  lemma {:induction false} OpeningClaimsAre(reqs: seq<NameRequest>, probe: (Millis, seq<byte>), now: Millis, d: Domain)
    ensures d in OpeningClaims(reqs, probe, now) <==> exists i :: 0 <= i < |reqs| && reqs[i].domain == d
  {
    if reqs != [] {
      var init := reqs[..|reqs| - 1];
      OpeningClaimsAre(init, probe, now, d);
      if i :| 0 <= i < |init| && init[i].domain == d {
        assert reqs[i].domain == d;
      }
      if d == reqs[|reqs| - 1].domain {
        assert reqs[|reqs| - 1].domain == d;
      }
    }
  }

  lemma {:induction false} AllAreFresh(ed: Ed25519, s: Store, client: ClientIdentity, probe: (Millis, seq<byte>),
                                       reqs: seq<NameRequest>, now: Millis)
    requires Fresh(ed, s, client, map[], probe, now) && Vouches(ed, client, probe, now)
    requires |reqs| <= MAX_REGISTRATIONS && DistinctNames(reqs)
    requires forall i | 0 <= i < |reqs| :: Signed(ed, reqs[i], client, now)
    ensures var steps := OpeningSteps(reqs, QuotaKey(client.rdns), now);
            var c := OpeningClaims(reqs, probe, now);
            && ValidRun(ed, s, steps) && Fresh(ed, Run(ed, s, steps), client, c, probe, now) && |c| == |reqs|
    decreases |reqs|
  {
    hide Fresh, Signed, Vouches, QuotaKey, ClientKey, Next, Enumerates;
    var h := QuotaKey(client.rdns);
    if reqs == [] {
      hide Run, ValidRun;
      RunNothing(ed, s);
      assert OpeningSteps(reqs, h, now) == [];
    } else {
      var init, last := reqs[..|reqs| - 1], reqs[|reqs| - 1];
      AllAreFresh(ed, s, client, probe, init, now);
      var steps, c := OpeningSteps(init, h, now), OpeningClaims(init, probe, now);
      hide Run, ValidRun;
      OpeningClaimsAre(init, probe, now, last.domain);
      var t := Run(ed, s, steps);
      OrderInTurn(ed, t, client, c, probe, now);
      FreshGrants(ed, t, client, c, probe, last, now);
      SignedBy(ed, last, client, now);
      EvidenceKept(ed, t, client, c, probe, now);
      assert OpeningSteps(reqs, h, now) == steps + [RequestStep(last, Only(t, h), now)];
      OneMoreStep(ed, s, steps, RequestStep(last, Only(t, h), now));
    }
  }

  lemma OrderInTurn(ed: Ed25519, s: Store, client: ClientIdentity, c: Claims, probe: (Millis, seq<byte>), now: Millis)
    requires Fresh(ed, s, client, c, probe, now)
    ensures Only(s, QuotaKey(client.rdns)) == if |c| == 0 then [] else [QuotaKey(client.rdns)]
  {
    hide QuotaKey;
    assert |c| == 0 <==> c == map[];
  }

  lemma EvidenceKept(ed: Ed25519, s: Store, client: ClientIdentity, c: Claims, probe: (Millis, seq<byte>), now: Millis)
    requires Fresh(ed, s, client, c, probe, now)
    ensures Get(s.evidence, ClientKey(client)) == Some(probe)
  {
    hide ClientKey;
  }

  // ---------------------------------------------------------------- the sweep that forgets the host

  /** Somebody else's probe touches no lease of this client. */
  lemma OthersProbe(ed: Ed25519, s: Store, client: ClientIdentity, c: Claims, x: Envelope, probedAt: Millis,
                    issuedAt: Millis, now: Millis)
    requires HoldsBoth(s, QuotaKey(client.rdns), c, map[]) && OwnLeases(c, client, probedAt, issuedAt)
    requires Authenticate(ed, x, ProbeMessage(x.timestamp), now).Ok? && ClientKey(ClientOf(x)) != ClientKey(client)
    ensures Next(ed, s, ProbeStep(x, now)) == Probe(s, ClientOf(x), now, x.timestamp, x.signature)
  {
    OnlyLeased(s, QuotaKey(client.rdns), c);
    hide QuotaKey, ClientKey, HoldsBoth, RefreshProbe;
    var t := Probe(s, ClientOf(x), now, x.timestamp, x.signature);
    assert forall d | d in c :: OwnLease(c[d], client, probedAt, issuedAt);
    assert forall d | d in t.registrations :: t.registrations[d] == FromRumor(c[d], QuotaKey(client.rdns));
    RefreshesNothing(t, ClientKey(ClientOf(x)), x.timestamp, x.signature);
  }

  lemma RefreshesNothing(s: Store, key: string, at: Millis, signature: seq<byte>)
    requires forall d | d in s.registrations :: s.registrations[d].clientKey != key
    requires forall h, d | h in s.claims && d in s.claims[h] :: s.claims[h][d].clientKey != key
    ensures RefreshProbe(s, key, at, signature) == s
  {
    var t := RefreshProbe(s, key, at, signature);
    assert t.registrations == s.registrations;
    forall h | h in s.claims
      ensures t.claims[h] == s.claims[h]
    {
    }
    assert t.claims == s.claims;
  }

  lemma OnlyExpired(s: Store, h: Host, c: Claims, now: Millis)
    requires HoldsBoth(s, h, c, map[]) && Expired(s, now) == {h}
    ensures ExpireHosts(s, now)
            == s.(registrations := map[], lastSeen := s.lastSeen - {h}, counts := s.counts - {h})
  {
    hide Expired;
    assert forall d | d in s.registrations :: s.registrations[d].host == h;
    assert ExpireHosts(s, now).registrations == map[];
  }

  lemma ReconciledFromNothing(ed: Ed25519, s: Store, h: Host, c: Claims, now: Millis)
    requires h in s.claims && s.claims[h] == c && s.registrations == map[] && Retained(ed, c, now) == c
    ensures Reconcile(ed, s, h, now) == s.(registrations := Leased(c, h))
  {
    hide Retained;
    assert Leased(map[], h) + map[] == map[] && Leased(c, h) + map[] == Leased(c, h);
    ReconciledBoth(map[], c, map[], h);
    assert s.claims[h := c] == s.claims;
    hide ReconcileRegistrations, Leased;
  }

  lemma OnlyLeased(s: Store, h: Host, c: Claims)
    requires HoldsBoth(s, h, c, map[])
    ensures s.registrations == Leased(c, h) && (h in s.claims ==> s.claims[h] == c && s.claims.Keys == {h})
  {
    hide Leased;
    assert Leased(c, h) + map[] == Leased(c, h);
  }

  /** The host has expired but its leases have not: the sweep forgets its counter and sighting and
      gives it back its names. */
  lemma SweptIsForgotten(ed: Ed25519, s: Store, h: Host, c: Claims, now: Millis)
    requires HoldsBoth(s, h, c, map[]) && h in s.claims && |c| <= MAX_REGISTRATIONS && AllInForce(ed, c, now)
    requires Expired(s, now) == {h}
    ensures Enumerates([h], s.claims.Keys)
    ensures Sweep(ed, s, [h], now) == s.(lastSeen := s.lastSeen - {h}, counts := s.counts - {h})
  {
    OnlyLeased(s, h, c);
    OnlyEnumerates(s, h);
    OnlyExpired(s, h, c, now);
    FewInForceAreRetained(ed, c, now);
    hide AllInForce, Retained, ExpireHosts, Expired, Leased, Reconcile, HoldsBoth, Enumerates, ReconcileAll;
    ReconciledFromNothing(ed, ExpireHosts(s, now), h, c, now);
    OneReconciled(ed, ExpireHosts(s, now), h, now);
  }

  /** A request for a taken name is refused, but sweeps. */
  lemma RefusedButSwept(ed: Ed25519, s: Store, x: NameRequest, order: seq<Host>, now: Millis)
    requires Signed(ed, x, ClientOf(x.envelope), now) && IsLive(s, QuotaKey(x.envelope.rdns), now)
    requires x.domain in Sweep(ed, s, order, now).registrations
    ensures Next(ed, s, RequestStep(x, order, now)) == Sweep(ed, s, order, now)
  {
    hide Sweep, QuotaKey, ClientKey;
  }

  lemma ReprobedIsInForce(ed: Ed25519, r: Rumor, x: Envelope, now: Millis)
    requires InForce(ed, r, now) && r.ownerKey == x.verifyingKey
    requires Authenticate(ed, x, ProbeMessage(x.timestamp), now).Ok?
    ensures InForce(ed, Reprobed(r, r.clientKey, x.timestamp, x.signature), now)
  {
    hide ClientKey;
  }

  /** A lease that names this client is this client's. */
  lemma OwnerOfLease(ed: Ed25519, r: Rumor, client: ClientIdentity, now: Millis)
    requires InForce(ed, r, now) && r.clientKey == ClientKey(client) && |client.verifyingKey| == 32
    ensures r.ownerKey == client.verifyingKey
  {
    SameOwner(r, client);
  }

  lemma ReprobedLeases(c: Claims, h: Host, key: string, at: Millis, signature: seq<byte>, regs: map<Domain, Registration>)
    requires forall d | d in c :: c[d].clientKey == key
    requires regs == map d | d in Leased(c, h) :: ReprobedRegistration(Leased(c, h)[d], key, at, signature)
    ensures regs == Leased(ReprobedClaims(c, key, at, signature), h)
  {
  }

  /** The host probes again: its leases are refreshed. */
  lemma OwnProbe(ed: Ed25519, s: Store, client: ClientIdentity, c: Claims, x: Envelope, now: Millis)
    requires HoldsBoth(s, QuotaKey(client.rdns), c, map[]) && forall d | d in c :: c[d].clientKey == ClientKey(client)
    requires ClientOf(x) == client && Authenticate(ed, x, ProbeMessage(x.timestamp), now).Ok?
    ensures var h, t := QuotaKey(client.rdns), Next(ed, s, ProbeStep(x, now));
            && HoldsBoth(t, h, ReprobedClaims(c, ClientKey(client), x.timestamp, x.signature), map[])
            && t.claims.Keys == s.claims.Keys && t.counts == s.counts && t.lastSeen == s.lastSeen[h := now]
            && ClientKey(client) in t.evidence
  {
    hide QuotaKey, ClientKey, Reprobed, ReprobedRegistration, HoldsBoth;
    var h, key, t := QuotaKey(client.rdns), ClientKey(client), Next(ed, s, ProbeStep(x, now));
    assert t == RefreshProbe(Probe(s, client, now, x.timestamp, x.signature), key, x.timestamp, x.signature);
    RefreshedHolds(s, t, h, c, key, x.timestamp, x.signature);
  }

  lemma RefreshedHolds(s: Store, t: Store, h: Host, c: Claims, key: string, at: Millis, signature: seq<byte>)
    requires HoldsBoth(s, h, c, map[]) && forall d | d in c :: c[d].clientKey == key
    requires t.registrations
             == map d | d in s.registrations :: ReprobedRegistration(s.registrations[d], key, at, signature)
    requires t.claims == map g | g in s.claims :: ReprobedClaims(s.claims[g], key, at, signature)
    ensures HoldsBoth(t, h, ReprobedClaims(c, key, at, signature), map[])
  {
    OnlyLeased(s, h, c);
    hide Reprobed, ReprobedRegistration;
    var c2 := ReprobedClaims(c, key, at, signature);
    ReprobedLeases(c, h, key, at, signature, t.registrations);
    assert ClaimsOf(t, h) == c2;
    hide Leased;
    assert Leased(c2, h) + map[] == Leased(c2, h);
  }

  lemma OwnProbeInForce(ed: Ed25519, client: ClientIdentity, c: Claims, x: Envelope, now: Millis)
    requires AllInForce(ed, c, now) && forall d | d in c :: c[d].clientKey == ClientKey(client)
    requires ClientOf(x) == client && Authenticate(ed, x, ProbeMessage(x.timestamp), now).Ok?
    ensures AllInForce(ed, ReprobedClaims(c, ClientKey(client), x.timestamp, x.signature), now)
  {
    hide ClientKey, InForce, Reprobed;
    forall d | d in c
      ensures InForce(ed, Reprobed(c[d], ClientKey(client), x.timestamp, x.signature), now)
    {
      OwnerOfLease(ed, c[d], client, now);
      ReprobedIsInForce(ed, c[d], x, now);
    }
  }

  // ---------------------------------------------------------------- the whole run

  /** A host's client probes ahead of the node's clock and registers, or it probes, the clock goes back,
      another client of the host probes, and the first one registers. When the host has expired but its
      leases have not, somebody else probes and asks for one of its names; then the host's client probes
      again and asks for more names. */
  datatype Ahead = Ahead(
    probe: Envelope, second: Option<(Millis, Envelope)>, first: seq<NameRequest>, start: Millis,
    other: Envelope, refused: NameRequest,
    again: Envelope, more: seq<NameRequest>, later: Millis)

  function AheadHost(a: Ahead): Host {
    QuotaKey(a.probe.rdns)
  }

  function AheadClaims(a: Ahead): Claims {
    OpeningClaims(a.first, (a.probe.timestamp, a.probe.signature), a.start)
  }

  /** The second probe comes with the reading of the clock at the first. */
  function Probes(a: Ahead): seq<Step> {
    match a.second
    case None => [ProbeStep(a.probe, a.start)]
    case Some((early, x)) => [ProbeStep(a.probe, early)] + [ProbeStep(x, a.start)]
  }

  function Opening(a: Ahead): seq<Step> {
    Probes(a) + OpeningSteps(a.first, AheadHost(a), a.start)
  }

  function Interlude(a: Ahead): seq<Step> {
    [ProbeStep(a.other, a.later)] + [RequestStep(a.refused, [AheadHost(a)], a.later)]
  }

  function AheadRun(a: Ahead): seq<Step> {
    Opening(a) + Interlude(a) + [ProbeStep(a.again, a.later)] + RequestSteps(a.more, AheadHost(a), a.later)
  }

  ghost predicate Opens(ed: Ed25519, a: Ahead) {
    && (match a.second
        case None => Authenticate(ed, a.probe, ProbeMessage(a.probe.timestamp), a.start).Ok?
        case Some((early, x)) =>
          && Authenticate(ed, a.probe, ProbeMessage(a.probe.timestamp), early).Ok?
          && a.start <= a.probe.timestamp + LIVENESS_WINDOW
          && Authenticate(ed, x, ProbeMessage(x.timestamp), a.start).Ok?
          && QuotaKey(x.rdns) == AheadHost(a) && ClientOf(x) != ClientOf(a.probe))
    && |a.first| == MAX_REGISTRATIONS && DistinctNames(a.first)
    && forall i | 0 <= i < |a.first| :: Signed(ed, a.first[i], ClientOf(a.probe), a.start)
  }

  ghost predicate Interrupts(ed: Ed25519, a: Ahead) {
    && a.start + LIVENESS_WINDOW < a.later <= a.probe.timestamp + LIVENESS_WINDOW
    && Authenticate(ed, a.other, ProbeMessage(a.other.timestamp), a.later).Ok?
    && QuotaKey(a.other.rdns) != AheadHost(a)
    && Signed(ed, a.refused, ClientOf(a.other), a.later) && a.refused.domain in AheadClaims(a)
  }

  ghost predicate Returns(ed: Ed25519, a: Ahead) {
    && Authenticate(ed, a.again, ProbeMessage(a.again.timestamp), a.later).Ok? && ClientOf(a.again) == ClientOf(a.probe)
    && |a.more| <= MAX_REGISTRATIONS && DistinctNames(a.more)
    && forall i | 0 <= i < |a.more| ::
         Signed(ed, a.more[i], ClientOf(a.probe), a.later) && a.more[i].domain !in AheadClaims(a)
  }

  lemma ProbeVouches(ed: Ed25519, p: Envelope, now: Millis)
    requires Authenticate(ed, p, ProbeMessage(p.timestamp), now).Ok?
    ensures Vouches(ed, ClientOf(p), (p.timestamp, p.signature), now)
  {
  }

  lemma ProbedIsFresh(ed: Ed25519, p: Envelope, now: Millis)
    requires Authenticate(ed, p, ProbeMessage(p.timestamp), now).Ok?
    ensures ValidRun(ed, EMPTY, [ProbeStep(p, now)])
    ensures Fresh(ed, Run(ed, EMPTY, [ProbeStep(p, now)]), ClientOf(p), map[], (p.timestamp, p.signature), now)
  {
    hide QuotaKey, ClientKey, Authenticate, HoldsBoth, Run, ValidRun;
    ProbedHoldsNothing(ed, p, now);
  }

  lemma OthersDiffer(a: ClientIdentity, b: ClientIdentity)
    requires |a.verifyingKey| == |b.verifyingKey| && a != b
    ensures ClientKey(a) != ClientKey(b)
  {
    if ClientKey(a) == ClientKey(b) {
      ClientKeyDeterminesIdentity(a, b);
    }
  }

  /** The second client's probe is what counts for the host, the first one's for the leases. */
  lemma SecondProbeIsFresh(ed: Ed25519, p: Envelope, early: Millis, x: Envelope, now: Millis)
    requires Authenticate(ed, p, ProbeMessage(p.timestamp), early).Ok?
    requires Authenticate(ed, x, ProbeMessage(x.timestamp), now).Ok?
    requires QuotaKey(x.rdns) == QuotaKey(p.rdns) && ClientOf(x) != ClientOf(p)
    ensures var steps := [ProbeStep(p, early)] + [ProbeStep(x, now)];
            && ValidRun(ed, EMPTY, steps)
            && Fresh(ed, Run(ed, EMPTY, steps), ClientOf(p), map[], (p.timestamp, p.signature), now)
  {
    OthersDiffer(ClientOf(x), ClientOf(p)) by {
      assert |x.verifyingKey| == 32 == |p.verifyingKey|;
    }
    hide QuotaKey, ClientKey, Authenticate, HoldsBoth, Run, ValidRun, Next, Fresh, Probe, OwnLeases;
    ProbedHoldsNothing(ed, p, early);
    var s := Run(ed, EMPTY, [ProbeStep(p, early)]);
    assert OwnLeases(map[], ClientOf(p), p.timestamp, now) by { NoLeases(ed, ClientOf(p), p.timestamp, now); }
    OthersProbe(ed, s, ClientOf(p), map[], x, p.timestamp, now, now);
    NothingHeldIsFresh(ed, s, p, x, now);
    OneMoreStep(ed, EMPTY, [ProbeStep(p, early)], ProbeStep(x, now));
  }

  lemma NoLeases(ed: Ed25519, client: ClientIdentity, probedAt: Millis, now: Millis)
    ensures OwnLeases(map[], client, probedAt, now) && AllInForce(ed, map[], now)
  {
  }

  lemma NothingHeldIsFresh(ed: Ed25519, s: Store, p: Envelope, x: Envelope, now: Millis)
    requires HoldsBoth(s, QuotaKey(p.rdns), map[], map[]) && s.claims == map[] && s.counts == map[]
    requires s.evidence == map[ClientKey(ClientOf(p)) := (p.timestamp, p.signature)] && s.lastSeen.Keys == {QuotaKey(p.rdns)}
    requires QuotaKey(x.rdns) == QuotaKey(p.rdns) && ClientKey(ClientOf(x)) != ClientKey(ClientOf(p))
    ensures var t := Probe(s, ClientOf(x), now, x.timestamp, x.signature);
            Fresh(ed, t, ClientOf(p), map[], (p.timestamp, p.signature), now)
  {
    hide QuotaKey, ClientKey, HoldsBoth, AllInForce, OwnLeases;
    var t := Probe(s, ClientOf(x), now, x.timestamp, x.signature);
    NoLeases(ed, ClientOf(p), p.timestamp, now);
    SameTables(s, t, QuotaKey(p.rdns), map[]);
    assert t.lastSeen == map[QuotaKey(p.rdns) := now];
  }

  lemma ProbesAreFresh(ed: Ed25519, a: Ahead)
    requires Opens(ed, a)
    ensures ValidRun(ed, EMPTY, Probes(a))
    ensures Fresh(ed, Run(ed, EMPTY, Probes(a)), ClientOf(a.probe), map[], (a.probe.timestamp, a.probe.signature), a.start)
    ensures Vouches(ed, ClientOf(a.probe), (a.probe.timestamp, a.probe.signature), a.start)
  {
    hide QuotaKey, Fresh, Run, ValidRun, Signed;
    match a.second
    case None =>
      ProbeVouches(ed, a.probe, a.start);
      ProbedIsFresh(ed, a.probe, a.start);
    case Some((early, x)) => SecondProbeIsFresh(ed, a.probe, early, x, a.start);
  }

  lemma OpeningIsFresh(ed: Ed25519, a: Ahead)
    requires Opens(ed, a)
    ensures var s := Run(ed, EMPTY, Opening(a));
            && ValidRun(ed, EMPTY, Opening(a)) && |AheadClaims(a)| == MAX_REGISTRATIONS
            && Fresh(ed, s, ClientOf(a.probe), AheadClaims(a), (a.probe.timestamp, a.probe.signature), a.start)
  {
    ProbesAreFresh(ed, a);
    hide QuotaKey, Authenticate, Fresh, Run, ValidRun, Signed, Vouches, Probes;
    var p, client := a.probe, ClientOf(a.probe);
    AllAreFresh(ed, Run(ed, EMPTY, Probes(a)), client, (p.timestamp, p.signature), a.first, a.start);
    RunOn(ed, EMPTY, Probes(a), OpeningSteps(a.first, AheadHost(a), a.start));
  }

  lemma StillInForce(ed: Ed25519, c: Claims, client: ClientIdentity, probedAt: Millis, issuedAt: Millis, now: Millis, later: Millis)
    requires AllInForce(ed, c, now) && OwnLeases(c, client, probedAt, issuedAt) && later <= probedAt + LIVENESS_WINDOW
    ensures AllInForce(ed, c, later)
  {
    hide ClientKey, IsAuthorized;
    forall d | d in c
      ensures InForce(ed, c[d], later)
    {
      assert InForce(ed, c[d], now) && OwnLease(c[d], client, probedAt, issuedAt);
    }
  }

  /** After the other host's request: the names are held, and no longer counted. */
  ghost predicate Forgotten(ed: Ed25519, s: Store, a: Ahead) {
    && HoldsBoth(s, AheadHost(a), AheadClaims(a), map[]) && AllInForce(ed, AheadClaims(a), a.later)
    && AheadHost(a) in s.claims && Count(s, AheadHost(a)) == 0
    && s.lastSeen == map[QuotaKey(a.other.rdns) := a.later]
  }

  lemma OthersKey(a: Ahead)
    requires |a.other.verifyingKey| == 32 == |a.probe.verifyingKey| && QuotaKey(a.other.rdns) != AheadHost(a)
    ensures ClientKey(ClientOf(a.other)) != ClientKey(ClientOf(a.probe))
  {
    if ClientKey(ClientOf(a.other)) == ClientKey(ClientOf(a.probe)) {
      ClientKeyDeterminesIdentity(ClientOf(a.other), ClientOf(a.probe));
    }
  }

  lemma FreshHas(ed: Ed25519, s: Store, client: ClientIdentity, c: Claims, probe: (Millis, seq<byte>), now: Millis)
    requires Fresh(ed, s, client, c, probe, now) && |c| > 0
    ensures var h := QuotaKey(client.rdns);
            && HoldsBoth(s, h, c, map[]) && AllInForce(ed, c, now) && OwnLeases(c, client, probe.0, now)
            && h in s.claims && s.counts.Keys <= {h} && s.lastSeen == map[h := now]
  {
    hide QuotaKey, ClientKey, HoldsBoth, AllInForce, OwnLeases;
  }

  /** Before that request: the other host has probed. */
  ghost predicate Between(ed: Ed25519, s: Store, a: Ahead) {
    var h := AheadHost(a);
    && HoldsBoth(s, h, AheadClaims(a), map[]) && AllInForce(ed, AheadClaims(a), a.later) && h in s.claims
    && s.counts.Keys <= {h} && s.lastSeen == map[h := a.start, QuotaKey(a.other.rdns) := a.later]
    && |AheadClaims(a)| == MAX_REGISTRATIONS
  }

  lemma OneHasExpired(s: Store, h: Host, g: Host, start: Millis, later: Millis)
    requires g != h && s.lastSeen == map[h := start, g := later] && start + LIVENESS_WINDOW < later
    ensures Expired(s, later) == {h} && IsLive(s, g, later) && s.lastSeen - {h} == map[g := later]
  {
    assert s.lastSeen - {h} == map[g := later];
  }

  lemma ForgottenBySweep(ed: Ed25519, s: Store, a: Ahead)
    requires Between(ed, s, a) && Interrupts(ed, a)
    ensures var step := RequestStep(a.refused, [AheadHost(a)], a.later);
            Enabled(s, step) && Forgotten(ed, Next(ed, s, step), a)
  {
    hide QuotaKey, ClientKey, AllInForce, Authenticate, OpeningClaims, Next, Sweep, Leased, Expired, IsLive, Enumerates,
      HoldsBoth, Signed;
    var h, g, c := AheadHost(a), QuotaKey(a.other.rdns), AheadClaims(a);
    OneHasExpired(s, h, g, a.start, a.later);
    SweptIsForgotten(ed, s, h, c, a.later);
    OnlyLeased(s, h, c);
    LeasedNames(c, h);
    SignedBy(ed, a.refused, ClientOf(a.other), a.later);
    RefusedButSwept(ed, s, a.refused, [h], a.later);
    SameTables(s, Next(ed, s, RequestStep(a.refused, [h], a.later)), h, c);
  }

  lemma OtherHasProbed(ed: Ed25519, s: Store, a: Ahead)
    requires Opens(ed, a) && Interrupts(ed, a) && |AheadClaims(a)| == MAX_REGISTRATIONS
    requires Fresh(ed, s, ClientOf(a.probe), AheadClaims(a), (a.probe.timestamp, a.probe.signature), a.start)
    ensures Between(ed, Next(ed, s, ProbeStep(a.other, a.later)), a)
  {
    var p, client, c := a.probe, ClientOf(a.probe), AheadClaims(a);
    OthersKey(a) by {
      assert |p.verifyingKey| == 32 == |a.other.verifyingKey| by { ProbesAreFresh(ed, a); }
    }
    hide QuotaKey, ClientKey, Authenticate, Fresh, AllInForce, OwnLeases, HoldsBoth, OpeningClaims, Signed, Next;
    FreshHas(ed, s, client, c, (p.timestamp, p.signature), a.start);
    StillInForce(ed, c, client, p.timestamp, a.start, a.start, a.later);
    OthersProbe(ed, s, client, c, a.other, p.timestamp, a.start, a.later);
    SameTables(s, Probe(s, ClientOf(a.other), a.later, a.other.timestamp, a.other.signature), AheadHost(a), c);
  }

  lemma InterludeForgets(ed: Ed25519, a: Ahead)
    requires Opens(ed, a) && Interrupts(ed, a)
    ensures ValidRun(ed, EMPTY, Opening(a) + Interlude(a))
    ensures Forgotten(ed, Run(ed, EMPTY, Opening(a) + Interlude(a)), a)
  {
    hide QuotaKey, Opens, Interrupts, Fresh, Run, ValidRun, OpeningClaims, Forgotten, Between, Next, RequestStep;
    var h := AheadHost(a);
    OpeningIsFresh(ed, a);
    var s := Run(ed, EMPTY, Opening(a));
    OtherHasProbed(ed, s, a);
    ForgottenBySweep(ed, Next(ed, s, ProbeStep(a.other, a.later)), a);
    OneMoreStep(ed, EMPTY, Opening(a), ProbeStep(a.other, a.later));
    OneMoreStep(ed, EMPTY, Opening(a) + [ProbeStep(a.other, a.later)], RequestStep(a.refused, [h], a.later));
    hide Opening;
    assert Opening(a) + Interlude(a)
        == Opening(a) + [ProbeStep(a.other, a.later)] + [RequestStep(a.refused, [h], a.later)];
  }

  lemma SameTables(s: Store, t: Store, h: Host, c: Claims)
    requires HoldsBoth(s, h, c, map[]) && t.registrations == s.registrations && t.claims == s.claims
    ensures HoldsBoth(t, h, c, map[])
  {
    hide Leased;
  }

  function AgainClaims(a: Ahead): Claims {
    ReprobedClaims(AheadClaims(a), ClientKey(ClientOf(a.probe)), a.again.timestamp, a.again.signature)
  }

  lemma AgainIsFull(ed: Ed25519, s: Store, a: Ahead)
    requires Forgotten(ed, s, a) && Returns(ed, a) && |AheadClaims(a)| == MAX_REGISTRATIONS
    requires forall d | d in AheadClaims(a) :: AheadClaims(a)[d].clientKey == ClientKey(ClientOf(a.probe))
    requires QuotaKey(a.other.rdns) != AheadHost(a)
    ensures var t := Next(ed, s, ProbeStep(a.again, a.later));
            Full(ed, t, AheadHost(a), AgainClaims(a), map[], a.later) && ClientKey(ClientOf(a.probe)) in t.evidence
  {
    hide QuotaKey, ClientKey, Authenticate, AllInForce, HoldsBoth, OpeningClaims, Next, Signed, Reprobed;
    var client, c := ClientOf(a.probe), AheadClaims(a);
    OwnProbe(ed, s, client, c, a.again, a.later);
    OwnProbeInForce(ed, client, c, a.again, a.later);
    assert AgainClaims(a).Keys == c.Keys;
    assert |AgainClaims(a)| == |AgainClaims(a).Keys| && |c| == |c.Keys|;
    assert Expired(Next(ed, s, ProbeStep(a.again, a.later)), a.later) == {};
  }

  lemma MoreAreLate(ed: Ed25519, a: Ahead, i: nat)
    requires Returns(ed, a) && i < |a.more| && a.start < a.later
    requires forall d | d in AheadClaims(a) :: AheadClaims(a)[d].token.issuedAt == a.start
    ensures Late(ed, a.more[i], ClientOf(a.probe), AgainClaims(a), a.later)
  {
    hide QuotaKey, ClientKey, Authenticate, OpeningClaims, Signed;
    forall d | d in AgainClaims(a)
      ensures Precedes(AgainClaims(a)[d].token, Token(a.later, a.more[i].nonce))
    {
      OrderingKeyIsTimeThenNonce(AgainClaims(a)[d].token, Token(a.later, a.more[i].nonce));
    }
  }

  lemma {:induction false} OpeningClaimsOwn(reqs: seq<NameRequest>, client: ClientIdentity, probe: (Millis, seq<byte>), now: Millis)
    requires forall i | 0 <= i < |reqs| :: ClientOf(reqs[i].envelope) == client
    ensures OwnLeases(OpeningClaims(reqs, probe, now), client, probe.0, now)
  {
    hide ClientKey;
    if reqs != [] {
      OpeningClaimsOwn(reqs[..|reqs| - 1], client, probe, now);
    }
  }

  lemma AheadClaimsOwn(ed: Ed25519, a: Ahead)
    requires Opens(ed, a)
    ensures forall d | d in AheadClaims(a) ::
              AheadClaims(a)[d].clientKey == ClientKey(ClientOf(a.probe)) && AheadClaims(a)[d].token.issuedAt == a.start
  {
    hide ClientKey, Authenticate, OpeningClaims;
    OpeningClaimsOwn(a.first, ClientOf(a.probe), (a.probe.timestamp, a.probe.signature), a.start);
    assert forall d | d in AheadClaims(a) ::
        OwnLease(AheadClaims(a)[d], ClientOf(a.probe), a.probe.timestamp, a.start);
  }

  lemma AllMoreAreLate(ed: Ed25519, a: Ahead)
    requires Opens(ed, a) && Interrupts(ed, a) && Returns(ed, a)
    ensures |a.more| <= MAX_REGISTRATIONS && DistinctNames(a.more)
    ensures forall i | 0 <= i < |a.more| :: Late(ed, a.more[i], ClientOf(a.probe), AgainClaims(a), a.later)
  {
    AheadClaimsOwn(ed, a);
    hide OpeningClaims, Late, Signed, Authenticate, QuotaKey;
    forall i | 0 <= i < |a.more|
      ensures Late(ed, a.more[i], ClientOf(a.probe), AgainClaims(a), a.later)
    {
      MoreAreLate(ed, a, i);
    }
  }

  /** What the interlude leaves: five names held, none counted. */
  lemma ForgottenHolds(ed: Ed25519, s: Store, a: Ahead)
    requires Forgotten(ed, s, a) && |AheadClaims(a)| == MAX_REGISTRATIONS
    ensures |Held(s, AheadHost(a))| == MAX_REGISTRATIONS && Count(s, AheadHost(a)) == 0
  {
    hide OpeningClaims, HoldsBoth, QuotaKey, AllInForce;
    HoldsAll(s, AheadHost(a), AheadClaims(a), map[]);
  }

  lemma AgainIsGranted(ed: Ed25519, s: Store, a: Ahead)
    requires Opens(ed, a) && Interrupts(ed, a) && Returns(ed, a)
    requires Forgotten(ed, s, a) && |AheadClaims(a)| == MAX_REGISTRATIONS
    ensures var steps := [ProbeStep(a.again, a.later)] + RequestSteps(a.more, AheadHost(a), a.later);
            ValidRun(ed, s, steps) && |Held(Run(ed, s, steps), AheadHost(a))| == MAX_REGISTRATIONS + |a.more|
  {
    AheadClaimsOwn(ed, a);
    AllMoreAreLate(ed, a);
    AgainIsFull(ed, s, a);
    hide QuotaKey, ClientKey, Full, Late, Run, ValidRun, Held, OpeningClaims, Next, DistinctNames, Forgotten, Opens,
      Interrupts, Returns, ReprobedClaims;
    var h, again := AheadHost(a), ProbeStep(a.again, a.later);
    RunOne(ed, s, again);
    AllAreGranted(ed, Next(ed, s, again), ClientOf(a.probe), AgainClaims(a), a.more, a.later);
    RunOn(ed, s, [again], RequestSteps(a.more, h, a.later));
    FullHolds(ed, Run(ed, s, [again] + RequestSteps(a.more, h, a.later)), h, AgainClaims(a), BareNames(a.more, a.later),
              a.later);
  }

  /** A probe dated ahead of the clock, or of the clock once set back, takes a host past five without any
      gossip: after the other host's request its names are held but not counted, and it is granted up to
      five more. */
  lemma ProbedAheadAndMore(ed: Ed25519, a: Ahead)
    requires Opens(ed, a) && Interrupts(ed, a) && Returns(ed, a)
    ensures var s := Run(ed, EMPTY, Opening(a) + Interlude(a));
            && ValidRun(ed, EMPTY, Opening(a) + Interlude(a))
            && |Held(s, AheadHost(a))| == 5 && Count(s, AheadHost(a)) == 0
    ensures ValidRun(ed, EMPTY, AheadRun(a))
    ensures |Held(Run(ed, EMPTY, AheadRun(a)), AheadHost(a))| == 5 + |a.more|
  {
    hide Run, ValidRun, Held, Opens, Interrupts, Returns, Count, Forgotten, AheadHost, AheadClaims, Opening, Interlude, Fresh;
    var early := Opening(a) + Interlude(a);
    InterludeForgets(ed, a);
    OpeningIsFresh(ed, a);
    ForgottenHolds(ed, Run(ed, EMPTY, early), a);
    AgainIsGranted(ed, Run(ed, EMPTY, early), a);
    var rest := [ProbeStep(a.again, a.later)] + RequestSteps(a.more, AheadHost(a), a.later);
    RunOn(ed, EMPTY, early, rest);
    assert AheadRun(a) == early + rest;
  }

  // ---------------------------------------------------------------- the exact condition

  /** The clock is never set back by more than this from any earlier reading. */
  predicate SetBackAtMost(steps: seq<Step>, back: nat) {
    forall i, j | 0 <= i < j < |steps| :: steps[i].now <= steps[j].now + back
  }

  /** In no run hearing leases of these hosts only, with probes dated at most `lead` ahead and a clock
      set back by at most `back`, does the host hold more than five names. */
  ghost predicate CapHolds(heard: set<Host>, lead: nat, back: nat, h: Host) {
    forall ed: Ed25519, steps: seq<Step>
      | ValidRun(ed, EMPTY, steps) && SetBackAtMost(steps, back) && AllAllowed(steps, heard, lead)
      :: |Held(Run(ed, EMPTY, steps), h)| <= 5
  }

  function Key(): (key: seq<byte>)
    ensures |key| == 32
  {
    seq(32, _ => 0)
  }

  const NONCE: Nonce := [0, 0, 0, 0, 0, 0, 0, 0]

  function Trusting(): Ed25519 {
    Ed25519(_ => true, _ => true, (_, _, _) => true)
  }

  function By(rdns: string, at: Millis): Envelope {
    Envelope(Key(), rdns, at, [])
  }

  lemma TrustingAccepts(rdns: string, at: Millis, message: Message, now: Millis)
    requires IsFresh(at, now)
    ensures Authenticate(Trusting(), By(rdns, at), message, now) == Ok(ClientOf(By(rdns, at)))
  {
  }

  function SomeLease(rdns: string, domain: Domain): Rumor {
    Rumor(domain, Token(0, NONCE), ClientKey(ClientIdentity(Key(), rdns)), Key(), rdns, 0, [], 0, [], [], None, None)
  }

  function SomeLeases(rdns: string): (leases: seq<Rumor>)
    ensures |leases| == MAX_REGISTRATIONS && forall i | 0 <= i < |leases| :: leases[i] == SomeLease(rdns, [i])
  {
    seq(MAX_REGISTRATIONS, i requires 0 <= i < MAX_REGISTRATIONS => SomeLease(rdns, [i]))
  }

  function SomeRequests(rdns: string, base: nat, at: Millis): (reqs: seq<NameRequest>)
    requires base <= 100
    ensures |reqs| == MAX_REGISTRATIONS
    ensures forall i | 0 <= i < |reqs| :: reqs[i] == NameRequest(By(rdns, at), [base + i], NONCE)
  {
    seq(MAX_REGISTRATIONS, i requires 0 <= i < MAX_REGISTRATIONS => NameRequest(By(rdns, at), [base + i], NONCE))
  }

  lemma SomeRequestsSigned(rdns: string, base: nat, at: Millis)
    requires base <= 100
    ensures DistinctNames(SomeRequests(rdns, base, at))
    ensures forall q | q in SomeRequests(rdns, base, at) :: Signed(Trusting(), q, ClientIdentity(Key(), rdns), at)
  {
    var reqs := SomeRequests(rdns, base, at);
    forall i | 0 <= i < |reqs|
      ensures Signed(Trusting(), reqs[i], ClientIdentity(Key(), rdns), at) && reqs[i].domain[0] == base + i
    {
      TrustingAccepts(rdns, at, RegisterMessage(reqs[i].domain, at), at);
    }
  }

  lemma SomeLeaseInForce(rdns: string, domain: Domain)
    ensures InForce(Trusting(), SomeLease(rdns, domain), 1)
  {
    hide ClientKey;
  }

  lemma SomeLeasesAreInForce(rdns: string)
    ensures OneHostsLeases(Trusting(), SomeLeases(rdns), QuotaKey(rdns), 1)
  {
    hide QuotaKey, ClientKey, InForce;
    forall i | 0 <= i < MAX_REGISTRATIONS
      ensures InForce(Trusting(), SomeLeases(rdns)[i], 1) && SomeLeases(rdns)[i].domain[0] == i
    {
      SomeLeaseInForce(rdns, [i]);
    }
  }

  lemma SomeRequestsAreLate(rdns: string, i: nat)
    requires i < MAX_REGISTRATIONS
    ensures Late(Trusting(), SomeRequests(rdns, 100, 1)[i], ClientIdentity(Key(), rdns), Named(SomeLeases(rdns)), 1)
  {
    hide Signed, ClientKey, QuotaKey;
    var q := SomeRequests(rdns, 100, 1)[i];
    SomeRequestsSigned(rdns, 100, 1);
    assert q in SomeRequests(rdns, 100, 1);
    RequestIsLate(SomeLeases(rdns), q);
  }

  /** Ten names, after hearing five leases. */
  lemma TenByGossip(rdns: string) returns (steps: seq<Step>)
    ensures ValidRun(Trusting(), EMPTY, steps) && SetBackAtMost(steps, 0) && AllAllowed(steps, {QuotaKey(rdns)}, 0)
    ensures |Held(Run(Trusting(), EMPTY, steps), QuotaKey(rdns))| == 10
  {
    hide QuotaKey, ClientKey, Run, ValidRun, Held, Late;
    var leases, reqs := SomeLeases(rdns), SomeRequests(rdns, 100, 1);
    TrustingAccepts(rdns, 1, ProbeMessage(1), 1);
    SomeLeasesAreInForce(rdns);
    SomeRequestsSigned(rdns, 100, 1);
    forall i | 0 <= i < |reqs|
      ensures Late(Trusting(), reqs[i], ClientIdentity(Key(), rdns), Named(leases), 1)
    {
      SomeRequestsAreLate(rdns, i);
    }
    hide Authenticate, Trusting;
    FiveHeardAndMore(Trusting(), By(rdns, 1), leases, reqs, 1);
    steps := HeardRun(By(rdns, 1), leases, reqs, 1);
    HeardRunAllowed(rdns);
  }

  lemma HeardRunAllowed(rdns: string)
    ensures var steps := HeardRun(By(rdns, 1), SomeLeases(rdns), SomeRequests(rdns, 100, 1), 1);
            SetBackAtMost(steps, 0) && AllAllowed(steps, {QuotaKey(rdns)}, 0)
  {
    hide QuotaKey, ClientKey;
  }

  lemma RequestIsLate(leases: seq<Rumor>, q: NameRequest)
    requires forall i | 0 <= i < |leases| :: leases[i].token == Token(0, NONCE) && leases[i].domain == [i]
    requires q.nonce == NONCE && |q.domain| == 1 && q.domain[0] >= |leases|
    ensures q.domain !in Named(leases) && forall d | d in Named(leases) :: Precedes(Named(leases)[d].token, Token(1, q.nonce))
  {
    OrderingKeyIsTimeThenNonce(Token(0, NONCE), Token(1, NONCE));
    forall d | d in Named(leases)
      ensures Named(leases)[d].token == Token(0, NONCE) && d != q.domain
    {
      NamedAre(leases, d);
    }
  }

  function OtherHost(rdns: string): (other: string)
    ensures QuotaKey(other) != QuotaKey(rdns)
  {
    assert QuotaKey("a") == "a" && QuotaKey("b") == "b";
    if QuotaKey(rdns) == "a" then "b" else "a"
  }

  function OtherKey(): (key: seq<byte>)
    ensures |key| == 32 && key != Key()
  {
    var key := Key()[0 := 1];
    assert key[0] != Key()[0];
    key
  }

  /** The clock stands at 1 when the first client probes, and at 0 when the second one does. */
  function SetBack(rdns: string): Option<(Millis, Envelope)> {
    Some((1, By(rdns, 0).(verifyingKey := OtherKey())))
  }

  function SomeAhead(rdns: string, second: Option<(Millis, Envelope)>): Ahead {
    Ahead(By(rdns, 1), second, SomeRequests(rdns, 0, 0), 0, By(OtherHost(rdns), 60_001),
          NameRequest(By(OtherHost(rdns), 60_001), [0], NONCE),
          By(rdns, 60_001), SomeRequests(rdns, 100, 60_001), 60_001)
  }

  lemma SomeAheadOpens(rdns: string, second: Option<(Millis, Envelope)>)
    requires second == None || second == SetBack(rdns)
    ensures Opens(Trusting(), SomeAhead(rdns, second))
  {
    TrustingAccepts(rdns, 1, ProbeMessage(1), 0);
    TrustingAccepts(rdns, 1, ProbeMessage(1), 1);
    SomeRequestsSigned(rdns, 0, 0);
    hide QuotaKey, ClientKey, Signed;
    var a, ed := SomeAhead(rdns, second), Trusting();
    assert forall i | 0 <= i < |a.first| :: a.first[i] in a.first;
    if second.Some? {
      assert Authenticate(ed, second.value.1, ProbeMessage(0), 0).Ok?;
    }
  }

  lemma SomeAheadClaims(rdns: string, second: Option<(Millis, Envelope)>, d: Domain)
    ensures d in AheadClaims(SomeAhead(rdns, second)) <==> exists i :: 0 <= i < MAX_REGISTRATIONS && d == [i]
  {
    hide OpeningClaims, ClientKey, QuotaKey;
    var first := SomeRequests(rdns, 0, 0);
    OpeningClaimsAre(first, (1, []), 0, d);
    forall i | 0 <= i < MAX_REGISTRATIONS
      ensures first[i].domain == [i]
    {
    }
    assert AheadClaims(SomeAhead(rdns, second)) == OpeningClaims(first, (1, []), 0);
    hide AheadClaims, SomeAhead, SomeRequests;
    if i :| 0 <= i < MAX_REGISTRATIONS && d == [i] {
      assert first[i].domain == d;
    }
  }

  lemma SomeAheadIsInterrupted(rdns: string, second: Option<(Millis, Envelope)>)
    ensures Interrupts(Trusting(), SomeAhead(rdns, second))
  {
    hide QuotaKey, ClientKey, Authenticate, OpeningClaims;
    TrustingAccepts(OtherHost(rdns), 60_001, ProbeMessage(60_001), 60_001);
    TrustingAccepts(OtherHost(rdns), 60_001, RegisterMessage([0], 60_001), 60_001);
    SomeAheadClaims(rdns, second, [0]);
  }

  lemma SomeAheadReturns(rdns: string, second: Option<(Millis, Envelope)>)
    ensures Returns(Trusting(), SomeAhead(rdns, second))
  {
    hide QuotaKey, ClientKey, Authenticate, OpeningClaims, Signed;
    var a, ed := SomeAhead(rdns, second), Trusting();
    TrustingAccepts(rdns, 60_001, ProbeMessage(60_001), 60_001);
    SomeRequestsSigned(rdns, 100, 60_001);
    hide AheadClaims;
    forall i | 0 <= i < |a.more|
      ensures Signed(ed, a.more[i], ClientOf(a.probe), a.later) && a.more[i].domain !in AheadClaims(a)
    {
      assert a.more[i] in a.more && a.more[i].domain[0] == 100 + i;
      SomeAheadClaims(rdns, second, a.more[i].domain);
    }
  }

  /** Ten names without gossip, after one probe dated a millisecond ahead. */
  lemma TenByProbingAhead(rdns: string) returns (steps: seq<Step>)
    ensures ValidRun(Trusting(), EMPTY, steps) && SetBackAtMost(steps, 0) && AllAllowed(steps, {}, 1)
    ensures |Held(Run(Trusting(), EMPTY, steps), QuotaKey(rdns))| == 10
  {
    hide QuotaKey, ClientKey, Run, ValidRun, Held, Opens, Interrupts, Returns;
    var a := SomeAhead(rdns, None);
    SomeAheadOpens(rdns, None);
    SomeAheadIsInterrupted(rdns, None);
    SomeAheadReturns(rdns, None);
    ProbedAheadAndMore(Trusting(), a);
    steps := AheadRun(a);
  }

  /** Ten names without gossip and with no probe dated ahead, after the clock was set back by a
      millisecond. */
  lemma TenBySettingBack(rdns: string) returns (steps: seq<Step>)
    ensures ValidRun(Trusting(), EMPTY, steps) && SetBackAtMost(steps, 1) && AllAllowed(steps, {}, 0)
    ensures |Held(Run(Trusting(), EMPTY, steps), QuotaKey(rdns))| == 10
  {
    hide QuotaKey, ClientKey, Run, ValidRun, Held, Opens, Interrupts, Returns;
    var a := SomeAhead(rdns, SetBack(rdns));
    SomeAheadOpens(rdns, SetBack(rdns));
    SomeAheadIsInterrupted(rdns, SetBack(rdns));
    SomeAheadReturns(rdns, SetBack(rdns));
    ProbedAheadAndMore(Trusting(), a);
    steps := AheadRun(a);
  }

  lemma MoreIsAllowed(steps: seq<Step>, heard: set<Host>, lead: nat, more: set<Host>, longer: nat)
    requires AllAllowed(steps, heard, lead) && heard <= more && lead <= longer
    ensures AllAllowed(steps, more, longer)
  {
    forall i | 0 <= i < |steps|
      ensures Allowed(steps[i], more, longer)
    {
      assert Allowed(steps[i], heard, lead);
    }
  }

  lemma LessSetBack(steps: seq<Step>, back: nat, more: nat)
    requires SetBackAtMost(steps, back) && back <= more
    ensures SetBackAtMost(steps, more)
  {
  }

  lemma NeverSetBack(steps: seq<Step>)
    ensures SetBackAtMost(steps, 0) <==> Clocked(steps)
  {
  }

  /** One run with more than five names breaks the cap for whatever allows that run. */
  lemma CapBroken(steps: seq<Step>, few: set<Host>, heard: set<Host>, little: nat, lead: nat, some: nat, back: nat, h: Host)
    requires ValidRun(Trusting(), EMPTY, steps) && |Held(Run(Trusting(), EMPTY, steps), h)| > 5
    requires AllAllowed(steps, few, little) && SetBackAtMost(steps, some)
    requires few <= heard && little <= lead && some <= back
    ensures !CapHolds(heard, lead, back, h)
  {
    hide Run, ValidRun, Held, AllAllowed, SetBackAtMost;
    MoreIsAllowed(steps, few, little, heard, lead);
    LessSetBack(steps, some, back);
  }

  /** The cap of a host is safe exactly when none of its own leases may be heard from elsewhere, no
      probe may be dated ahead of the node's clock, and that clock may not be set back. */
  lemma CapHoldsIff(heard: set<Host>, lead: nat, back: nat, rdns: string)
    ensures CapHolds(heard, lead, back, QuotaKey(rdns)) <==> QuotaKey(rdns) !in heard && lead == 0 && back == 0
  {
    hide QuotaKey, Run, ValidRun, Held, Clocked, AllAllowed, SetBackAtMost;
    var h := QuotaKey(rdns);
    if h in heard {
      var steps := TenByGossip(rdns);
      CapBroken(steps, {h}, heard, 0, lead, 0, back, h);
    } else if lead > 0 {
      var steps := TenByProbingAhead(rdns);
      CapBroken(steps, {}, heard, 1, lead, 0, back, h);
    } else if back > 0 {
      var steps := TenBySettingBack(rdns);
      CapBroken(steps, {}, heard, 0, lead, 1, back, h);
    } else {
      forall ed: Ed25519, steps: seq<Step>
        | ValidRun(ed, EMPTY, steps) && SetBackAtMost(steps, back) && AllAllowed(steps, heard, lead)
        ensures |Held(Run(ed, EMPTY, steps), h)| <= 5
      {
        NeverSetBack(steps);
        CapOfUnheard(ed, steps, heard, h);
      }
    }
  }
}
