/** One node and one name that two hosts hold leases on: what each thing that can happen at the node
    does to the name's holder. */
module Contests {
  import opened Bytes
  import opened Outcomes
  import opened Tokens
  import opened Collision
  import opened Identity
  import opened Registry
  import opened FirstFiveClaims
  import opened Sweeping
  import opened Runs
  import opened HostCap

  // ---------------------------------------------------------------- leases a node knows

  datatype Lease = Lease(host: Host, domain: Domain, token: Token)

  function LeaseIn(r: Rumor): Lease {
    Lease(QuotaKey(r.rdns), r.domain, r.token)
  }

  /** The lease is among the claims, or registered. */
  predicate Sees(s: Store, l: Lease) {
    || (Claimed(s, l.host, l.domain) && s.claims[l.host][l.domain].token == l.token)
    || (&& BackedBy(Get(s.registrations, l.domain), l.host)
        && s.registrations[l.domain].token == l.token)
  }

  lemma RetainedWithin(ed: Ed25519, c: Claims, now: Millis)
    ensures Within(Retained(ed, c, now), c)
  {
  }

  lemma ReconcileSees(ed: Ed25519, s: Store, h: Host, now: Millis, l: Lease)
    requires Sees(Reconcile(ed, s, h, now), l)
    ensures Sees(s, l)
  {
    hide Retained, Negotiate;
    if h in s.claims {
      RetainedWithin(ed, s.claims[h], now);
      ReconcileAt(ed, s, h, now, l.domain);
      hide ReconcileRegistrations;
    }
  }

  lemma {:induction false} ReconcileAllSees(ed: Ed25519, s: Store, order: seq<Host>, now: Millis, l: Lease)
    requires Sees(ReconcileAll(ed, s, order, now), l)
    ensures Sees(s, l)
  {
    hide Sees, Reconcile;
    if order != [] {
      var init, last := order[..|order| - 1], order[|order| - 1];
      ReconcileSees(ed, ReconcileAll(ed, s, init, now), last, now, l);
      ReconcileAllSees(ed, s, init, now, l);
    }
  }

  lemma ExpireSees(s: Store, now: Millis, l: Lease)
    requires Sees(ExpireHosts(s, now), l)
    ensures Sees(s, l)
  {
  }

  lemma SweepSees(ed: Ed25519, s: Store, order: seq<Host>, now: Millis, l: Lease)
    requires Sees(Sweep(ed, s, order, now), l)
    ensures Sees(s, l)
  {
    hide Sees, ReconcileAll;
    ReconcileAllSees(ed, ExpireHosts(s, now), order, now, l);
    ExpireSees(s, now, l);
  }

  lemma FilingSees(s: Store, r: Rumor, l: Lease)
    requires Sees(Filing(s, r), l)
    ensures Sees(s, l) || l == LeaseIn(r)
  {
    hide QuotaKey;
  }

  lemma SubmitSees(ed: Ed25519, s: Store, r: Rumor, now: Millis, l: Lease)
    requires Sees(Submit(ed, s, r, now), l)
    ensures Sees(s, l) || l == LeaseIn(r)
  {
    hide Sees, Reconcile, Filing;
    ReconcileSees(ed, Filing(s, r), QuotaKey(r.rdns), now, l);
    FilingSees(s, r, l);
  }

  lemma GrantingSees(s: Store, domain: Domain, reg: Registration, l: Lease)
    requires Sees(Granting(s, domain, reg), l) && reg.rumor.None?
    ensures Sees(s, l)
  {
  }

  // ---------------------------------------------------------------- the contest

  datatype Contestant = Contestant(host: Host, token: Token)

  /** Two hosts' leases on one name. No more than `frontA` are the other names on which a lease of the
      first host comes before its lease here, and likewise for the second. */
  datatype Contest = Contest(name: Domain, a: Contestant, b: Contestant, frontA: set<Domain>, frontB: set<Domain>)

  ghost predicate Fair(c: Contest) {
    && c.a.host != c.b.host && c.a.token != c.b.token
    && |c.frontA| < MAX_REGISTRATIONS && |c.frontB| < MAX_REGISTRATIONS
  }

  function FrontOf(c: Contest, p: Contestant): set<Domain> {
    if p == c.a then c.frontA else c.frontB
  }

  predicate Contesting(c: Contest, p: Contestant) {
    p == c.a || p == c.b
  }

  predicate StandsBehind(c: Contest, p: Contestant, l: Lease) {
    l.host == p.host && l.domain != c.name && ComesBefore(l.token, l.domain, p.token, c.name) ==> l.domain in FrontOf(c, p)
  }

  /** A lease that leaves the contest as it is. */
  predicate Admits(c: Contest, l: Lease) {
    && (l.domain == c.name ==> Contesting(c, Contestant(l.host, l.token)))
    && StandsBehind(c, c.a, l) && StandsBehind(c, c.b, l)
  }

  function Opinion(s: Store, d: Domain): Option<Contestant> {
    if d in s.registrations then Some(Contestant(s.registrations[d].host, s.registrations[d].token)) else None
  }

  /** The holder's lease is attached and among its host's claims, and withstands every other claim on
      the name; where nobody holds the name nobody claims it. */
  ghost predicate Coherent(s: Store, d: Domain) {
    if d in s.registrations then
      var reg := s.registrations[d];
      && reg.rumor.Some? && Claimed(s, reg.host, d) && s.claims[reg.host][d].token == reg.token
      && forall h | Claimed(s, h, d) && h != reg.host :: Withstands(reg.token, s.claims[h][d].token)
    else forall h :: !Claimed(s, h, d)
  }

  ghost predicate AllAdmitted(s: Store, c: Contest) {
    forall l | Sees(s, l) :: Admits(c, l)
  }

  ghost predicate Poised(s: Store, c: Contest) {
    Coherent(s, c.name) && AllAdmitted(s, c)
  }

  /** The holder's claim is in force. */
  predicate Vouched(ed: Ed25519, s: Store, d: Domain, now: Millis) {
    d in s.registrations ==>
      var h := s.registrations[d].host;
      Claimed(s, h, d) && InForce(ed, s.claims[h][d], now)
  }

  /** The holder's claim is the same lease, with the same probe and records, in both stores. */
  predicate SameClaim(s: Store, t: Store, d: Domain) {
    d in s.registrations ==>
      var h := s.registrations[d].host;
      Claimed(s, h, d) && Claimed(t, h, d) && t.claims[h][d] == s.claims[h][d]
  }

  /** Who holds a name after a node of this opinion has taken in the lease of `q`. */
  function Meet(mine: Option<Contestant>, q: Contestant): Contestant {
    match mine
    case None => q
    case Some(p) => if p == q || !Withstands(p.token, q.token) then q else p
  }

  lemma HolderContests(s: Store, c: Contest)
    requires Poised(s, c) && c.name in s.registrations
    ensures Contesting(c, Opinion(s, c.name).value)
  {
    var reg := s.registrations[c.name];
    assert Sees(s, Lease(reg.host, c.name, reg.token));
  }

  lemma ClaimantContests(s: Store, c: Contest, h: Host)
    requires AllAdmitted(s, c) && Claimed(s, h, c.name)
    ensures Contesting(c, Contestant(h, s.claims[h][c.name].token))
  {
    assert Sees(s, Lease(h, c.name, s.claims[h][c.name].token));
  }

  // ---------------------------------------------------------------- contestants keep their claims

  lemma NotBeforeItself(k: Token, d: Domain)
    ensures !ComesBefore(k, d, k, d)
  {
    LexIrreflexive(OrderingKey(k));
    LexIrreflexive(d);
  }

  /** Among admitted claims a contestant's, in force, is kept. */
  lemma ContestantKept(ed: Ed25519, c: Contest, p: Contestant, claims: Claims, now: Millis)
    requires Fair(c) && Contesting(c, p) && c.name in claims && claims[c.name].token == p.token
    requires forall e | e in claims :: Admits(c, Lease(p.host, e, claims[e].token))
    requires InForce(ed, claims[c.name], now)
    ensures var kept := Retained(ed, claims, now); c.name in kept && kept[c.name] == claims[c.name]
  {
    hide InForce, FirstFive, ComesBefore;
    var standing := Standing(ed, claims, now);
    forall e | e in standing && ComesBefore(standing[e].token, e, p.token, c.name)
      ensures e in FrontOf(c, p)
    {
      NotBeforeItself(p.token, c.name);
      assert Admits(c, Lease(p.host, e, claims[e].token));
    }
    FewAheadIsKept(standing, c.name, FrontOf(c, p));
    RetainedWithin(ed, claims, now);
  }

  // ---------------------------------------------------------------- a sweep

  /** The slot shows this contestant, with its lease attached. */
  predicate Shows(slot: Option<Registration>, p: Contestant) {
    slot.Some? && slot.value.host == p.host && slot.value.token == p.token && slot.value.rumor.Some?
  }

  lemma {:induction false} ShownStays(slot: Option<Registration>, table: Table, order: seq<Host>, d: Domain, p: Contestant)
    requires Shows(slot, p) && Prevails(table, d, p.host) && table[p.host][d].token == p.token
    ensures Shows(SlotSweep(slot, table, order, d), p)
  {
    if order != [] {
      ShownStays(slot, table, order[..|order| - 1], d, p);
      var last := order[|order| - 1];
      assert Contends(table, d, last) && last != p.host ==> Withstands(p.token, table[last][d].token);
    }
  }

  /** What the sweep leaves of a name whose holder's claim it retains. */
  lemma SweptShows(ed: Ed25519, s: Store, order: seq<Host>, now: Millis, d: Domain, p: Contestant)
    requires Enumerates(order, s.claims.Keys) && Shows(Get(s.registrations, d), p)
    requires Prevails(KeptTable(ed, s.claims, now), d, p.host) && KeptTable(ed, s.claims, now)[p.host][d].token == p.token
    ensures Shows(Get(Sweep(ed, s, order, now).registrations, d), p)
  {
    hide Sweep, SlotSweep, Retained, Prevails, Withstands;
    var table, slot := KeptTable(ed, s.claims, now), Get(ExpireHosts(s, now).registrations, d);
    SweepAt(ed, s, order, now, d);
    assert Contends(table, d, p.host) by { PrevailerContends(table, d, p.host); }
    if slot.Some? {
      ShownStays(slot, table, order, d, p);
    } else {
      PrevailingWins(slot, table, order, d, p.host);
    }
  }

  lemma PrevailerContends(table: Table, d: Domain, h: Host)
    requires Prevails(table, d, h)
    ensures Contends(table, d, h)
  {
  }

  lemma KeptWithin(ed: Ed25519, claims: Table, now: Millis, d: Domain, h: Host)
    requires Contends(KeptTable(ed, claims, now), d, h)
    ensures Contends(claims, d, h) && KeptTable(ed, claims, now)[h][d] == claims[h][d]
  {
    hide Retained;
    RetainedWithin(ed, claims[h], now);
  }

  lemma HolderPrevails(ed: Ed25519, s: Store, now: Millis, d: Domain)
    requires Coherent(s, d) && d in s.registrations && d in Retained(ed, s.claims[s.registrations[d].host], now)
    ensures Prevails(KeptTable(ed, s.claims, now), d, s.registrations[d].host)
  {
    hide Retained, Withstands;
    var table, p := KeptTable(ed, s.claims, now), s.registrations[d].host;
    KeptWithin(ed, s.claims, now, d, p);
    forall h | Contends(table, d, h) && h != p
      ensures Withstands(table[p][d].token, table[h][d].token)
    {
      KeptWithin(ed, s.claims, now, d, h);
      assert Claimed(s, h, d);
    }
  }

  /** While nobody outranks or outlives the holder's claim, a sweep in any order leaves the name with
      the holder; and only then. */
  lemma SweepHoldsIff(ed: Ed25519, s: Store, order: seq<Host>, now: Millis, d: Domain)
    requires Inv(ed, s) && Coherent(s, d) && d in s.registrations && Enumerates(order, s.claims.Keys)
    ensures var h, t := s.registrations[d].host, Sweep(ed, s, order, now);
            && (Opinion(t, d) == Opinion(s, d) <==> d in Retained(ed, s.claims[h], now))
            && (d in Retained(ed, s.claims[h], now) ==> Coherent(t, d))
  {
    hide Inv, Retained, Sweep, Prevails, Withstands, Coherent;
    var h, t, p := s.registrations[d].host, Sweep(ed, s, order, now), Opinion(s, d).value;
    HolderIsShown(s, d);
    SweepClaims(ed, s, order, now);
    if d in Retained(ed, s.claims[h], now) {
      HolderPrevails(ed, s, now, d);
      KeptWithin(ed, s.claims, now, d, h);
      SweptShows(ed, s, order, now, d, p);
      SweptCoherent(ed, s, t, now, d);
    } else if Opinion(t, d) == Opinion(s, d) {
      SweepKeepsInv(ed, s, order, now);
      SweptHolderClaims(ed, s, order, now, d);
      assert false;
    }
  }

  lemma HolderIsShown(s: Store, d: Domain)
    requires Coherent(s, d) && d in s.registrations
    ensures Shows(Get(s.registrations, d), Opinion(s, d).value) && Claimed(s, s.registrations[d].host, d)
    ensures s.claims[s.registrations[d].host][d].token == s.registrations[d].token
  {
  }

  lemma SweptCoherent(ed: Ed25519, s: Store, t: Store, now: Millis, d: Domain)
    requires Coherent(s, d) && d in s.registrations && Shows(Get(t.registrations, d), Opinion(s, d).value)
    requires t.claims == KeptTable(ed, s.claims, now) && d in Retained(ed, s.claims[s.registrations[d].host], now)
    ensures Coherent(t, d) && Opinion(t, d) == Opinion(s, d)
  {
    hide Retained, Withstands;
    var p := s.registrations[d].host;
    KeptWithin(ed, s.claims, now, d, p);
    forall h | Claimed(t, h, d) && h != p
      ensures Withstands(s.registrations[d].token, t.claims[h][d].token)
    {
      KeptWithin(ed, s.claims, now, d, h);
      assert Claimed(s, h, d);
    }
  }

  /** A leased name whose claim the sweep drops has a holder seen within the minute, or none. */
  lemma SweptHolderClaims(ed: Ed25519, s: Store, order: seq<Host>, now: Millis, d: Domain)
    requires Inv(ed, s) && Coherent(s, d) && d in s.registrations && Enumerates(order, s.claims.Keys)
    requires Opinion(Sweep(ed, s, order, now), d) == Opinion(s, d)
    ensures d in Retained(ed, s.claims[s.registrations[d].host], now)
  {
    hide Retained, Sweep, SlotSweep, Negotiate;
    var h, t, table := s.registrations[d].host, Sweep(ed, s, order, now), KeptTable(ed, s.claims, now);
    var slot := Get(ExpireHosts(s, now).registrations, d);
    SweepAt(ed, s, order, now, d);
    assert !Sticky(slot, table) by { assert Claimed(s, h, d); }
    OneSweep(slot, table, order, d);
    var g :| Contends(table, d, g) && Get(t.registrations, d) == Holding(table, d, g);
    assert g == h;
  }

  lemma SweepKeepsOpinion(ed: Ed25519, s: Store, order: seq<Host>, now: Millis, c: Contest)
    requires Inv(ed, s) && Poised(s, c) && Fair(c) && Enumerates(order, s.claims.Keys) && Vouched(ed, s, c.name, now)
    ensures var t := Sweep(ed, s, order, now);
            && Poised(t, c) && Opinion(t, c.name) == Opinion(s, c.name) && Vouched(ed, t, c.name, now)
            && SameClaim(s, t, c.name)
  {
    hide Inv, Retained, Sweep, SlotSweep, Coherent, InForce, Admits, Sees;
    var t := Sweep(ed, s, order, now);
    forall l | Sees(t, l)
      ensures Admits(c, l)
    {
      SweepSees(ed, s, order, now, l);
    }
    SweepClaims(ed, s, order, now);
    if c.name in s.registrations {
      HolderRetained(ed, s, s.claims[s.registrations[c.name].host], now, c);
      SweepHoldsIff(ed, s, order, now, c.name);
      assert t.registrations[c.name].host == s.registrations[c.name].host by {
        assert Opinion(t, c.name) == Opinion(s, c.name);
      }
      HolderIsShown(t, c.name);
    } else {
      UnheldSwept(ed, s, order, now, c.name);
    }
  }

  lemma HolderRetained(ed: Ed25519, s: Store, claims: Claims, now: Millis, c: Contest)
    requires Poised(s, c) && Fair(c) && c.name in s.registrations && Vouched(ed, s, c.name, now)
    requires claims == s.claims[s.registrations[c.name].host]
    ensures var kept := Retained(ed, claims, now); c.name in kept && kept[c.name] == claims[c.name]
  {
    hide InForce, Retained, Admits;
    var p := Opinion(s, c.name).value;
    HolderContests(s, c);
    forall e | e in claims
      ensures Admits(c, Lease(p.host, e, claims[e].token))
    {
      assert Claimed(s, p.host, e);
      assert Sees(s, Lease(p.host, e, claims[e].token));
    }
    ContestantKept(ed, c, p, claims, now);
  }

  lemma UnheldSwept(ed: Ed25519, s: Store, order: seq<Host>, now: Millis, d: Domain)
    requires Coherent(s, d) && d !in s.registrations && Enumerates(order, s.claims.Keys)
    ensures var t := Sweep(ed, s, order, now); Coherent(t, d) && d !in t.registrations
  {
    hide Retained, Sweep, SlotSweep;
    var t, table := Sweep(ed, s, order, now), KeptTable(ed, s.claims, now);
    SweepClaims(ed, s, order, now);
    forall h | Contends(table, d, h)
      ensures Claimed(s, h, d)
    {
      KeptWithin(ed, s.claims, now, d, h);
    }
    SweepAt(ed, s, order, now, d);
    assert Get(ExpireHosts(s, now).registrations, d) == None;
    SettledSweep(None, table, order, d);
    assert Get(t.registrations, d) == None;
    forall h
      ensures !Claimed(t, h, d)
    {
      assert !Contends(table, d, h);
    }
  }

  // ---------------------------------------------------------------- a lease taken in

  lemma SubmitAdmitted(ed: Ed25519, s: Store, r: Rumor, now: Millis, c: Contest)
    requires AllAdmitted(s, c) && Admits(c, LeaseIn(r))
    ensures AllAdmitted(Submit(ed, s, r, now), c)
  {
    hide Sees, Admits, Submit, QuotaKey;
    forall l | Sees(Submit(ed, s, r, now), l)
      ensures Admits(c, l)
    {
      SubmitSees(ed, s, r, now, l);
    }
  }

  /** What a submission does: the host's claims are cut down, and each name is reconciled with what is
      left. */
  lemma SubmitAt(ed: Ed25519, s: Store, r: Rumor, now: Millis, d: Domain)
    ensures var h, t := QuotaKey(r.rdns), Submit(ed, s, r, now);
            var kept := Retained(ed, ClaimsOf(s, h)[r.domain := r], now);
            && t == s.(claims := s.claims[h := kept], registrations := t.registrations)
            && Get(t.registrations, d) == SlotAfter(Get(s.registrations, d), Get(kept, d), h)
  {
    hide QuotaKey, Retained, SlotAfter, ReconcileRegistrations;
    var h, mid := QuotaKey(r.rdns), Filing(s, r);
    assert mid.claims[h] == ClaimsOf(s, h)[r.domain := r];
    ReconcileAt(ed, mid, h, now, d);
    var kept := Retained(ed, mid.claims[h], now);
    assert s.claims[h := mid.claims[h]][h := kept] == s.claims[h := kept];
  }

  /** Filed among admitted claims, a contestant's lease in force is kept. */
  lemma FiledIsKept(ed: Ed25519, s: Store, r: Rumor, now: Millis, c: Contest, p: Contestant)
    requires AllAdmitted(s, c) && Fair(c) && Admits(c, LeaseIn(r)) && Contesting(c, p) && QuotaKey(r.rdns) == p.host
    requires var more := ClaimsOf(s, p.host)[r.domain := r];
             c.name in more && more[c.name].token == p.token && InForce(ed, more[c.name], now)
    ensures var more := ClaimsOf(s, p.host)[r.domain := r];
            var kept := Retained(ed, more, now);
            c.name in kept && kept[c.name] == more[c.name]
  {
    hide QuotaKey, InForce, Retained, Admits;
    var more := ClaimsOf(s, p.host)[r.domain := r];
    forall e | e in more
      ensures Admits(c, Lease(p.host, e, more[e].token))
    {
      if e != r.domain {
        assert Claimed(s, p.host, e);
        assert Sees(s, Lease(p.host, e, more[e].token));
      }
    }
    ContestantKept(ed, c, p, more, now);
  }

  /** A lease on another name leaves the holder. */
  lemma SubmitElsewhere(ed: Ed25519, s: Store, r: Rumor, now: Millis, c: Contest)
    requires Poised(s, c) && Fair(c) && Vouched(ed, s, c.name, now)
    requires r.domain != c.name && Admits(c, LeaseIn(r))
    ensures var t := Submit(ed, s, r, now);
            && Poised(t, c) && Opinion(t, c.name) == Opinion(s, c.name) && Vouched(ed, t, c.name, now)
            && SameClaim(s, t, c.name)
  {
    SubmitAdmitted(ed, s, r, now, c);
    SubmitAt(ed, s, r, now, c.name);
    var h, t := QuotaKey(r.rdns), Submit(ed, s, r, now);
    var more := ClaimsOf(s, h)[r.domain := r];
    RetainedWithin(ed, more, now);
    if c.name in s.registrations {
      HolderContests(s, c);
      if h == s.registrations[c.name].host {
        FiledIsKept(ed, s, r, now, c, Opinion(s, c.name).value);
      }
    }
    hide AllAdmitted, QuotaKey, InForce, Retained, Submit, Fair, Admits;
    SlotElsewhere(s, t, h, Retained(ed, more, now), c.name);
  }

  /** Reconciling a host with claims it already had on the name: the holder stays. */
  lemma SlotElsewhere(s: Store, t: Store, h: Host, kept: Claims, d: Domain)
    requires Coherent(s, d) && t.claims == s.claims[h := kept]
    requires Get(t.registrations, d) == SlotAfter(Get(s.registrations, d), Get(kept, d), h)
    requires d in kept ==> Claimed(s, h, d) && kept[d] == s.claims[h][d]
    requires d in s.registrations && s.registrations[d].host == h ==> d in kept
    ensures Coherent(t, d) && Opinion(t, d) == Opinion(s, d)
    ensures d in s.registrations ==>
              var g := s.registrations[d].host; Claimed(t, g, d) && t.claims[g][d] == s.claims[g][d]
  {
    hide Negotiate;
    if d in s.registrations {
      assert t.registrations[d] == Get(t.registrations, d).value;
      forall g | Claimed(t, g, d) && g != s.registrations[d].host
        ensures Withstands(s.registrations[d].token, t.claims[g][d].token)
      {
        assert Claimed(s, g, d);
      }
    } else {
      forall g | Claimed(t, g, d)
        ensures Claimed(s, g, d)
      {
      }
      assert Get(t.registrations, d) == None;
    }
  }

  /** A contestant's lease meets the holder's. */
  lemma SubmitHere(ed: Ed25519, s: Store, r: Rumor, now: Millis, c: Contest)
    requires Poised(s, c) && Fair(c) && Vouched(ed, s, c.name, now)
    requires r.domain == c.name && Admits(c, LeaseIn(r)) && InForce(ed, r, now)
    ensures var t, q := Submit(ed, s, r, now), Contestant(QuotaKey(r.rdns), r.token);
            && Poised(t, c) && Opinion(t, c.name) == Some(Meet(Opinion(s, c.name), q)) && Vouched(ed, t, c.name, now)
            && (c.name in s.registrations && Meet(Opinion(s, c.name), q).host != q.host ==> SameClaim(s, t, c.name))
  {
    SubmitAdmitted(ed, s, r, now, c);
    SubmitAt(ed, s, r, now, c.name);
    var h, t, q := QuotaKey(r.rdns), Submit(ed, s, r, now), Contestant(QuotaKey(r.rdns), r.token);
    FiledIsKept(ed, s, r, now, c, q);
    if c.name in s.registrations {
      HolderContests(s, c);
    }
    forall g | Claimed(s, g, c.name)
      ensures Contesting(c, Contestant(g, s.claims[g][c.name].token))
    {
      ClaimantContests(s, c, g);
    }
    hide AllAdmitted, QuotaKey, InForce, Retained, Submit, Admits;
    SlotHere(s, t, r, Retained(ed, ClaimsOf(s, h)[r.domain := r], now), c, q);
  }

  lemma SlotHere(s: Store, t: Store, r: Rumor, kept: Claims, c: Contest, q: Contestant)
    requires Coherent(s, c.name) && Fair(c) && Contesting(c, q) && r.token == q.token
    requires c.name in s.registrations ==> Contesting(c, Opinion(s, c.name).value)
    requires forall g | Claimed(s, g, c.name) :: Contesting(c, Contestant(g, s.claims[g][c.name].token))
    requires t.claims == s.claims[q.host := kept] && Get(kept, c.name) == Some(r)
    requires Get(t.registrations, c.name) == SlotAfter(Get(s.registrations, c.name), Some(r), q.host)
    ensures Coherent(t, c.name) && Opinion(t, c.name) == Some(Meet(Opinion(s, c.name), q))
    ensures var g := Meet(Opinion(s, c.name), q).host;
            Claimed(t, g, c.name) && (if g == q.host then t.claims[g][c.name] == r
                                      else Claimed(s, g, c.name) && t.claims[g][c.name] == s.claims[g][c.name])
  {
    hide Negotiate;
    NegotiateIsSymmetric(c.a.token, c.b.token);
    var winner := Meet(Opinion(s, c.name), q);
    assert Shows(Get(t.registrations, c.name), winner);
    forall g | Claimed(t, g, c.name) && g != winner.host
      ensures Withstands(winner.token, t.claims[g][c.name].token)
    {
      assert g != q.host ==> Claimed(s, g, c.name);
    }
  }
}
