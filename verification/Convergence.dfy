/** Replicas that hear the same leases, in whatever order and however often: when they agree. */
module Convergence {
  import opened Outcomes
  import opened Tokens
  import opened Collision
  import opened Identity
  import opened Registry
  import opened FirstFiveClaims
  import opened Sweeping

  // ---------------------------------------------------------------- runs of one replica

  datatype Event =
    | Hear(rumor: Rumor, at: Millis)
    | Tick(order: seq<Host>, at: Millis)

  function Apply(ed: Ed25519, s: Store, e: Event): Store {
    match e
    case Hear(r, at) => AdoptRumor(ed, s, r, at)
    case Tick(order, at) => Sweep(ed, s, order, at)
  }

  function Run(ed: Ed25519, s: Store, events: seq<Event>): Store {
    if events == [] then s
    else Apply(ed, Run(ed, s, events[..|events| - 1]), events[|events| - 1])
  }

  /** Each sweep visits the claim table it finds, and nothing happens after `deadline`. */
  ghost predicate ValidRun(ed: Ed25519, s: Store, events: seq<Event>, deadline: Millis) {
    events != [] ==>
      var init, last := events[..|events| - 1], events[|events| - 1];
      && ValidRun(ed, s, init, deadline)
      && last.at <= deadline
      && (last.Tick? ==> Enumerates(last.order, Run(ed, s, init).claims.Keys))
  }

  function Heard(events: seq<Event>): set<Rumor> {
    if events == [] then {}
    else
      var last := events[|events| - 1];
      Heard(events[..|events| - 1]) + if last.Hear? then {last.rumor} else {}
  }

  ghost predicate InForceUntil(ed: Ed25519, heard: set<Rumor>, deadline: Millis) {
    forall r | r in heard :: InForce(ed, r, deadline)
  }

  // ---------------------------------------------------------------- the batch table

  /** The leases of one host on one name. */
  function LeasesOn(heard: set<Rumor>, h: Host, d: Domain): set<Rumor> {
    set r | r in heard && QuotaKey(r.rdns) == h && r.domain == d
  }

  function NamesHeard(heard: set<Rumor>, h: Host): set<Domain> {
    set r | r in heard && QuotaKey(r.rdns) == h :: r.domain
  }

  function HostsHeard(heard: set<Rumor>): set<Host> {
    set r | r in heard :: QuotaKey(r.rdns)
  }

  ghost predicate IsEarliest(leases: set<Rumor>, r: Rumor) {
    r in leases && forall q | q in leases :: !Precedes(q.token, r.token)
  }

  lemma {:induction false} SomeIsEarliest(leases: set<Rumor>)
    requires leases != {}
    ensures exists r :: IsEarliest(leases, r)
  {
    var x :| x in leases;
    PrecedesIsTotal(x.token, x.token);
    if leases == {x} {
      assert IsEarliest(leases, x);
    } else {
      SomeIsEarliest(leases - {x});
      var y :| IsEarliest(leases - {x}, y);
      assert IsEarliest(leases, if Precedes(x.token, y.token) then x else y) by {
        forall q | q in leases && Precedes(x.token, y.token)
          ensures !Precedes(q.token, x.token)
        {
          if Precedes(q.token, x.token) {
            PrecedesIsTransitive(q.token, x.token, y.token);
          }
        }
      }
    }
  }

  /** A lease with the least token of those of one host on one name. */
  ghost function Earliest(heard: set<Rumor>, h: Host, d: Domain): (r: Rumor)
    requires d in NamesHeard(heard, h)
    ensures IsEarliest(LeasesOn(heard, h, d), r)
  {
    assert LeasesOn(heard, h, d) != {} by {
      var r :| r in heard && QuotaKey(r.rdns) == h && r.domain == d;
      assert r in LeasesOn(heard, h, d);
    }
    SomeIsEarliest(LeasesOn(heard, h, d));
    var r :| IsEarliest(LeasesOn(heard, h, d), r);
    r
  }

  ghost function EarliestClaims(heard: set<Rumor>, h: Host): Claims {
    map d | d in NamesHeard(heard, h) :: Earliest(heard, h, d)
  }

  /** Everything heard of a host, cut down at once: its first five names, each ranked by its earliest
      lease. */
  ghost function Firsts(heard: set<Rumor>, h: Host): Claims {
    FirstFive(EarliestClaims(heard, h))
  }

  ghost function FirstTable(heard: set<Rumor>): Table {
    map h | h in HostsHeard(heard) :: Firsts(heard, h)
  }

  ghost predicate OneToken(heard: set<Rumor>, h: Host, d: Domain) {
    forall q, r | q in LeasesOn(heard, h, d) && r in LeasesOn(heard, h, d) :: q.token == r.token
  }

  /** Each of the host's first five names was heard under one token only. */
  ghost predicate OneTokenEach(heard: set<Rumor>, h: Host) {
    forall d | d in Firsts(heard, h) :: OneToken(heard, h, d)
  }

  /** Of each host and name one lease was heard, in one state. */
  ghost predicate OnePerPair(heard: set<Rumor>) {
    forall q, r | q in heard && r in heard && QuotaKey(q.rdns) == QuotaKey(r.rdns) && q.domain == r.domain :: q == r
  }

  /** The same hosts claim the same names under the same tokens. */
  ghost predicate SameKept(a: Claims, b: Claims) {
    a.Keys == b.Keys && forall d | d in a :: a[d].token == b[d].token
  }

  ghost predicate SameTokens(a: Table, b: Table) {
    a.Keys == b.Keys && forall h | h in a :: SameKept(a[h], b[h])
  }

  function ClaimsIn(table: Table, h: Host): Claims {
    if h in table then table[h] else map[]
  }

  // ---------------------------------------------------------------- what every run keeps

  lemma KeptWhileInForce(ed: Ed25519, c: Claims, now: Millis, deadline: Millis)
    requires now <= deadline && forall d | d in c :: InForce(ed, c[d], deadline)
    ensures Retained(ed, c, now) == FirstFive(c)
  {
    assert Standing(ed, c, now) == c;
  }

  ghost predicate AllSettled(s: Store) {
    forall d :: Settled(Get(s.registrations, d), s.claims, d)
  }

  ghost predicate IsCut(table: Table) {
    forall h | h in table :: FirstFive(table[h]) == table[h]
  }

  /** Every claim is a lease that was heard of that host on that name. */
  ghost predicate WereHeard(table: Table, heard: set<Rumor>) {
    forall d, h | Contends(table, d, h) :: table[h][d] in LeasesOn(heard, h, d)
  }

  ghost predicate Follows(s: Store, heard: set<Rumor>) {
    AllSettled(s) && IsCut(s.claims) && WereHeard(s.claims, heard) && s.claims.Keys == HostsHeard(heard)
  }

  /** A first name heard under one token only is claimed as soon as it has been heard. */
  ghost predicate FirstsKept(table: Table, heard: set<Rumor>, all: set<Rumor>, h: Host) {
    forall d | d in Firsts(all, h) && OneToken(all, h, d) && LeasesOn(heard, h, d) != {} :: Contends(table, d, h)
  }

  lemma SettledWhenTableChanges(slot: Option<Registration>, table: Table, d: Domain, h: Host, c: Claims)
    requires Settled(slot, table, d)
    ensures Settled(SlotAfter(slot, Get(c, d), h), table[h := c], d)
  {
    var now := table[h := c];
    if d in c {
      assert Contends(now, d, h);
    }
    if slot.Some? {
      var g :| Contends(table, d, g) && slot == Holding(table, d, g);
      assert g != h ==> Contends(now, d, g) && slot == Holding(now, d, g);
    }
  }

  lemma AllSettledWhenTableChanges(s: Store, h: Host, c: Claims)
    requires AllSettled(s)
    ensures AllSettled(s.(claims := s.claims[h := c], registrations := ReconcileRegistrations(s.registrations, c, h)))
  {
    var regs := ReconcileRegistrations(s.registrations, c, h);
    forall d
      ensures Settled(Get(regs, d), s.claims[h := c], d)
    {
      assert Get(regs, d) == SlotAfter(Get(s.registrations, d), Get(c, d), h);
      SettledWhenTableChanges(Get(s.registrations, d), s.claims, d, h, c);
    }
  }

  lemma HearClaims(ed: Ed25519, s: Store, r: Rumor, at: Millis, deadline: Millis)
    requires forall d | d in ClaimsIn(s.claims, QuotaKey(r.rdns))
        :: InForce(ed, s.claims[QuotaKey(r.rdns)][d], deadline)
    requires InForce(ed, r, deadline) && at <= deadline
    ensures var h := QuotaKey(r.rdns);
            var c := FirstFive(ClaimsIn(s.claims, h)[r.domain := r]);
            AdoptRumor(ed, s, r, at)
            == s.(claims := s.claims[h := c], registrations := ReconcileRegistrations(s.registrations, c, h))
  {
    var h := QuotaKey(r.rdns);
    var more := ClaimsIn(s.claims, h)[r.domain := r];
    KeptWhileInForce(ed, more, at, deadline);
    assert s.claims[h := more][h := FirstFive(more)] == s.claims[h := FirstFive(more)];
  }

  lemma WereHeardMore(table: Table, heard: set<Rumor>, r: Rumor)
    requires WereHeard(table, heard)
    ensures var h := QuotaKey(r.rdns);
            WereHeard(table[h := FirstFive(ClaimsIn(table, h)[r.domain := r])], heard + {r})
  {
    hide QuotaKey, FirstFive;
    var h := QuotaKey(r.rdns);
    var more := ClaimsIn(table, h)[r.domain := r];
    FirstFiveWithin(more);
    forall d, g | Contends(table[h := FirstFive(more)], d, g)
      ensures table[h := FirstFive(more)][g][d] in LeasesOn(heard + {r}, g, d)
    {
      if !(g == h && d == r.domain) {
        assert Contends(table, d, g);
      }
    }
  }

  lemma FirstFiveWithin(c: Claims)
    ensures Within(FirstFive(c), c)
  {
  }

  lemma AllInForceHere(ed: Ed25519, table: Table, heard: set<Rumor>, h: Host, deadline: Millis)
    requires WereHeard(table, heard) && InForceUntil(ed, heard, deadline)
    ensures forall d | d in ClaimsIn(table, h) :: InForce(ed, table[h][d], deadline)
  {
    hide QuotaKey, InForce;
    forall d | d in ClaimsIn(table, h)
      ensures InForce(ed, table[h][d], deadline)
    {
      assert Contends(table, d, h);
      assert table[h][d] in heard;
    }
  }

  lemma HearFollows(ed: Ed25519, s: Store, heard: set<Rumor>, r: Rumor, at: Millis, deadline: Millis)
    requires Follows(s, heard) && InForceUntil(ed, heard + {r}, deadline) && at <= deadline
    ensures Follows(AdoptRumor(ed, s, r, at), heard + {r})
    ensures AdoptRumor(ed, s, r, at).claims
            == s.claims[QuotaKey(r.rdns) := FirstFive(ClaimsIn(s.claims, QuotaKey(r.rdns))[r.domain := r])]
  {
    hide QuotaKey, InForce, FirstFive, AdoptRumor, ReconcileRegistrations;
    var h := QuotaKey(r.rdns);
    var more := ClaimsIn(s.claims, h)[r.domain := r];
    AllInForceHere(ed, s.claims, heard, h, deadline);
    HearClaims(ed, s, r, at, deadline);
    AllSettledWhenTableChanges(s, h, FirstFive(more));
    WereHeardMore(s.claims, heard, r);
    FirstFiveIdempotent(more);
  }

  /** What a host claims, with one more lease heard, is ranked no earlier than everything heard ranks
      it. */
  lemma MoreNoneEarlier(table: Table, heard: set<Rumor>, r: Rumor, all: set<Rumor>)
    requires WereHeard(table, heard) && heard + {r} <= all
    ensures NoneEarlier(ClaimsIn(table, QuotaKey(r.rdns))[r.domain := r], EarliestClaims(all, QuotaKey(r.rdns)))
  {
    hide QuotaKey;
    var h := QuotaKey(r.rdns);
    var more := ClaimsIn(table, h)[r.domain := r];
    forall e | e in more
      ensures e in EarliestClaims(all, h) && !Precedes(more[e].token, EarliestClaims(all, h)[e].token)
    {
      assert e != r.domain ==> Contends(table, e, h);
      assert more[e] in LeasesOn(all, h, e);
      assert IsEarliest(LeasesOn(all, h, e), Earliest(all, h, e));
    }
  }

  /** A first name heard under one token is kept among whatever the host claims. */
  lemma FirstNameIsKept(table: Table, heard: set<Rumor>, r: Rumor, all: set<Rumor>, d: Domain)
    requires WereHeard(table, heard) && heard + {r} <= all
    requires var h := QuotaKey(r.rdns);
             d in Firsts(all, h) && OneToken(all, h, d) && d in ClaimsIn(table, h)[r.domain := r]
    ensures d in FirstFive(ClaimsIn(table, QuotaKey(r.rdns))[r.domain := r])
  {
    hide QuotaKey, FirstFive;
    var h := QuotaKey(r.rdns);
    var more := ClaimsIn(table, h)[r.domain := r];
    MoreNoneEarlier(table, heard, r, all);
    FirstFiveWithin(EarliestClaims(all, h));
    assert d != r.domain ==> Contends(table, d, h);
    assert more[d] in LeasesOn(all, h, d);
    assert IsEarliest(LeasesOn(all, h, d), Earliest(all, h, d));
    RankHolds(more, EarliestClaims(all, h), d);
  }

  lemma HeardBefore(heard: set<Rumor>, r: Rumor, h: Host, d: Domain)
    requires h != QuotaKey(r.rdns) || d != r.domain
    ensures LeasesOn(heard + {r}, h, d) == LeasesOn(heard, h, d)
  {
    hide QuotaKey;
  }

  lemma HearKeepsFirsts(table: Table, heard: set<Rumor>, r: Rumor, all: set<Rumor>, h: Host)
    requires WereHeard(table, heard) && heard + {r} <= all && FirstsKept(table, heard, all, h)
    ensures FirstsKept(table[QuotaKey(r.rdns) := FirstFive(ClaimsIn(table, QuotaKey(r.rdns))[r.domain := r])],
                       heard + {r}, all, h)
  {
    hide QuotaKey, FirstFive, WereHeard, OneToken, Firsts;
    var g := QuotaKey(r.rdns);
    var more := ClaimsIn(table, g)[r.domain := r];
    forall d | d in Firsts(all, h) && OneToken(all, h, d) && LeasesOn(heard + {r}, h, d) != {}
      ensures Contends(table[g := FirstFive(more)], d, h)
    {
      if h != g || d != r.domain {
        HeardBefore(heard, r, h, d);
        hide LeasesOn;
        assert Contends(table, d, h);
      }
      if h == g {
        FirstNameIsKept(table, heard, r, all, d);
      }
    }
  }

  lemma StaysCut(ed: Ed25519, table: Table, heard: set<Rumor>, at: Millis, deadline: Millis)
    requires IsCut(table) && WereHeard(table, heard) && InForceUntil(ed, heard, deadline) && at <= deadline
    ensures KeptTable(ed, table, at) == table
  {
    hide InForce, FirstFive, Retained;
    forall h | h in table
      ensures Retained(ed, table[h], at) == table[h]
    {
      AllInForceHere(ed, table, heard, h, deadline);
      KeptWhileInForce(ed, table[h], at, deadline);
    }
  }

  lemma SettledAfterExpiry(s: Store, now: Millis, table: Table, d: Domain)
    requires Settled(Get(s.registrations, d), table, d)
    ensures Settled(Get(ExpireHosts(s, now).registrations, d), table, d)
  {
  }

  ghost predicate Blank(s: Store) {
    s.registrations == map[] && s.claims == map[]
  }

  lemma TickFollows(ed: Ed25519, s: Store, heard: set<Rumor>, order: seq<Host>, at: Millis, deadline: Millis)
    requires Follows(s, heard) && InForceUntil(ed, heard, deadline) && at <= deadline && Enumerates(order, s.claims.Keys)
    ensures Follows(Sweep(ed, s, order, at), heard) && Sweep(ed, s, order, at).claims == s.claims
  {
    hide InForce, FirstFive, Sweep, ExpireHosts, SlotSweep, QuotaKey;
    StaysCut(ed, s.claims, heard, at, deadline);
    SweepClaims(ed, s, order, at);
    forall d
      ensures Settled(Get(Sweep(ed, s, order, at).registrations, d), s.claims, d)
    {
      SettledAfterExpiry(s, at, s.claims, d);
      SweepAt(ed, s, order, at, d);
      SettledSweep(Get(ExpireHosts(s, at).registrations, d), s.claims, order, d);
    }
  }

  /** Every run settles names by leases it heard, and keeps every first name of `all` that it heard
      under the one token. */
  lemma {:induction false} RunFollows(ed: Ed25519, s: Store, events: seq<Event>, all: set<Rumor>, deadline: Millis)
    requires Blank(s) && ValidRun(ed, s, events, deadline) && Heard(events) <= all && InForceUntil(ed, all, deadline)
    ensures Follows(Run(ed, s, events), Heard(events))
    ensures forall h :: FirstsKept(Run(ed, s, events).claims, Heard(events), all, h)
  {
    hide InForce, FirstFive, Apply, Follows, FirstsKept;
    if events == [] {
      BlankFollows(s, all);
    } else {
      var init, last := events[..|events| - 1], events[|events| - 1];
      RunFollows(ed, s, init, all, deadline);
      StepFollows(ed, Run(ed, s, init), Heard(init), last, all, deadline);
    }
  }

  lemma BlankFollows(s: Store, all: set<Rumor>)
    requires Blank(s)
    ensures Follows(s, {}) && forall h :: FirstsKept(s.claims, {}, all, h)
  {
    hide QuotaKey;
  }

  lemma StepFollows(ed: Ed25519, s: Store, heard: set<Rumor>, event: Event, all: set<Rumor>, deadline: Millis)
    requires Follows(s, heard) && (forall h :: FirstsKept(s.claims, heard, all, h)) && event.at <= deadline
    requires event.Tick? ==> Enumerates(event.order, s.claims.Keys)
    requires heard + (if event.Hear? then {event.rumor} else {}) <= all && InForceUntil(ed, all, deadline)
    ensures var t, more := Apply(ed, s, event), heard + if event.Hear? then {event.rumor} else {};
            Follows(t, more) && forall h :: FirstsKept(t.claims, more, all, h)
  {
    hide InForce, FirstFive, FirstsKept, QuotaKey, AdoptRumor, Sweep;
    match event
    case Hear(r, at) =>
      HearFollows(ed, s, heard, r, at, deadline);
      forall h
        ensures FirstsKept(AdoptRumor(ed, s, r, at).claims, heard + {r}, all, h)
      {
        HearKeepsFirsts(s.claims, heard, r, all, h);
      }
    case Tick(order, at) =>
      assert heard + {} == heard;
      TickFollows(ed, s, heard, order, at, deadline);
  }

  // ---------------------------------------------------------------- which claims a run ends with

  /** When the host's first five names were heard under one token each, these are its claims. */
  lemma KeptAreFirsts(s: Store, heard: set<Rumor>, h: Host)
    requires Follows(s, heard) && FirstsKept(s.claims, heard, heard, h) && OneTokenEach(heard, h)
    ensures SameKept(ClaimsIn(s.claims, h), Firsts(heard, h))
  {
    hide QuotaKey, FirstFive;
    var c, least := ClaimsIn(s.claims, h), EarliestClaims(heard, h);
    forall e | e in c
      ensures e in least && c[e] in LeasesOn(heard, h, e) && !Precedes(c[e].token, least[e].token)
    {
      assert Contends(s.claims, e, h);
      assert IsEarliest(LeasesOn(heard, h, e), Earliest(heard, h, e));
    }
    FirstFiveWithin(least);
    forall d | d in Firsts(heard, h)
      ensures d in c && c[d].token == least[d].token
    {
      assert least[d] in LeasesOn(heard, h, d);
      assert Contends(s.claims, d, h);
    }
    EmptyIsCut();
    NoMoreThanFirst(c, least);
  }

  lemma EmptyIsCut()
    ensures FirstFive(map[]) == map[]
  {
  }

  /** Hearing one lease at a time, with sweeps in between, keeps for every host exactly the five names
      that cutting down everything ever heard would keep, under the same tokens, if each of these was
      heard under one token only. */
  lemma IncrementalIsBatch(ed: Ed25519, s: Store, events: seq<Event>, deadline: Millis)
    requires Blank(s) && ValidRun(ed, s, events, deadline) && InForceUntil(ed, Heard(events), deadline)
    requires forall h :: OneTokenEach(Heard(events), h)
    ensures Follows(Run(ed, s, events), Heard(events))
    ensures SameTokens(Run(ed, s, events).claims, FirstTable(Heard(events)))
    ensures OnePerPair(Heard(events)) ==> Run(ed, s, events).claims == FirstTable(Heard(events))
  {
    RunFollows(ed, s, events, Heard(events), deadline);
    hide InForceUntil, Run, ValidRun, Heard, FirstsKept, OneTokenEach, Follows, FirstTable, SameTokens, OnePerPair;
    FollowingIsBatch(Run(ed, s, events), Heard(events));
  }

  lemma FollowingIsBatch(s: Store, heard: set<Rumor>)
    requires Follows(s, heard) && forall h :: FirstsKept(s.claims, heard, heard, h) && OneTokenEach(heard, h)
    ensures SameTokens(s.claims, FirstTable(heard))
    ensures OnePerPair(heard) ==> s.claims == FirstTable(heard)
  {
    hide FirstsKept, OneTokenEach, OnePerPair, Firsts, SameKept, AllSettled, IsCut, WereHeard, HostsHeard;
    forall h | h in s.claims
      ensures SameKept(s.claims[h], Firsts(heard, h))
      ensures OnePerPair(heard) ==> s.claims[h] == Firsts(heard, h)
    {
      KeptAreFirsts(s, heard, h);
      if OnePerPair(heard) {
        OneLeaseIsExact(s, heard, h);
      }
    }
  }

  lemma OneLeaseIsExact(s: Store, heard: set<Rumor>, h: Host)
    requires Follows(s, heard) && OnePerPair(heard) && h in s.claims && SameKept(s.claims[h], Firsts(heard, h))
    ensures s.claims[h] == Firsts(heard, h)
  {
    hide QuotaKey, FirstFive, AllSettled, IsCut;
    FirstFiveWithin(EarliestClaims(heard, h));
    forall d | d in s.claims[h]
      ensures s.claims[h][d] == Firsts(heard, h)[d]
    {
      assert Contends(s.claims, d, h);
      assert IsEarliest(LeasesOn(heard, h, d), Earliest(heard, h, d));
    }
  }

  // ---------------------------------------------------------------- when a host's claims are the same

  /** A store that some run from a blank one reaches by hearing these leases and no others. */
  ghost predicate Reached(ed: Ed25519, heard: set<Rumor>, deadline: Millis, s: Store) {
    exists start, events ::
      Blank(start) && ValidRun(ed, start, events, deadline) && Heard(events) == heard && s == Run(ed, start, events)
  }

  /** All runs that hear these leases keep the same names for the host, under the same tokens. */
  ghost predicate KeptAlike(ed: Ed25519, heard: set<Rumor>, deadline: Millis, h: Host) {
    forall s, t | Reached(ed, heard, deadline, s) && Reached(ed, heard, deadline, t)
      :: SameKept(ClaimsIn(s.claims, h), ClaimsIn(t.claims, h))
  }

  lemma ReachedFollows(ed: Ed25519, heard: set<Rumor>, deadline: Millis, s: Store, h: Host)
    requires Reached(ed, heard, deadline, s) && InForceUntil(ed, heard, deadline)
    ensures Follows(s, heard) && FirstsKept(s.claims, heard, heard, h)
  {
    hide InForce, FirstsKept, Follows;
    var start, events :| Blank(start) && ValidRun(ed, start, events, deadline) && Heard(events) == heard
      && s == Run(ed, start, events);
    RunFollows(ed, start, events, heard, deadline);
  }

  /** All these leases can be heard, in a run of them alone. */
  lemma {:induction false} AllCanBeHeard(ed: Ed25519, heard: set<Rumor>, deadline: Millis) returns (events: seq<Event>)
    ensures ValidRun(ed, EMPTY, events, deadline) && Heard(events) == heard
  {
    if heard == {} {
      events := [];
    } else {
      var r :| r in heard;
      var before := AllCanBeHeard(ed, heard - {r}, deadline);
      HeardAgain(ed, before, r, deadline);
      events := before + [Hear(r, deadline)];
      assert heard - {r} + {r} == heard;
    }
  }

  lemma HeardAgain(ed: Ed25519, before: seq<Event>, r: Rumor, deadline: Millis)
    requires ValidRun(ed, EMPTY, before, deadline)
    ensures var events := before + [Hear(r, deadline)];
            && ValidRun(ed, EMPTY, events, deadline) && Heard(events) == Heard(before) + {r}
            && Run(ed, EMPTY, events) == AdoptRumor(ed, Run(ed, EMPTY, before), r, deadline)
  {
    hide AdoptRumor, Sweep;
    var events := before + [Hear(r, deadline)];
    assert events[..|events| - 1] == before;
  }

  lemma NothingHeard(ed: Ed25519, deadline: Millis)
    ensures ValidRun(ed, EMPTY, [], deadline) && Heard([]) == {} && Run(ed, EMPTY, []) == EMPTY
  {
  }

  /** A run that hears these leases and ends by hearing `r` again. */
  lemma HeardLast(ed: Ed25519, heard: set<Rumor>, r: Rumor, deadline: Millis) returns (s: Store)
    requires r in heard && InForceUntil(ed, heard, deadline)
    ensures Reached(ed, heard, deadline, s)
    ensures exists table: Table :: WereHeard(table, heard)
              && ClaimsIn(s.claims, QuotaKey(r.rdns)) == FirstFive(ClaimsIn(table, QuotaKey(r.rdns))[r.domain := r])
  {
    hide InForce, FirstFive, Follows, FirstsKept, AdoptRumor, QuotaKey, Run, ValidRun, Heard;
    var before := AllCanBeHeard(ed, heard, deadline);
    HeardAgain(ed, before, r, deadline);
    var events := before + [Hear(r, deadline)];
    assert Blank(EMPTY) && heard + {r} == heard;
    var t := Run(ed, EMPTY, before);
    s := Run(ed, EMPTY, events);
    assert Reached(ed, heard, deadline, s);
    assert Reached(ed, heard, deadline, t);
    ReachedFollows(ed, heard, deadline, t, QuotaKey(r.rdns));
    HearFollows(ed, t, heard, r, deadline, deadline);
    assert WereHeard(t.claims, heard) by { assert Follows(t, heard); FollowsHeard(t, heard); }
  }

  lemma FollowsHeard(s: Store, heard: set<Rumor>)
    requires Follows(s, heard)
    ensures WereHeard(s.claims, heard)
  {
  }

  lemma LastIsKept(table: Table, heard: set<Rumor>, h: Host, d: Domain, r: Rumor)
    requires WereHeard(table, heard) && r in LeasesOn(heard, h, d)
    ensures var kept := FirstFive(ClaimsIn(table, h)[d := r]);
            && (d in kept ==> kept[d] == r)
            && (d in Firsts(heard, h) && r == Earliest(heard, h, d) ==> d in kept)
  {
    hide FirstFive, QuotaKey;
    FirstFiveWithin(ClaimsIn(table, h)[d := r]);
    if d in Firsts(heard, h) && r == Earliest(heard, h, d) {
      assert heard + {r} == heard;
      MoreNoneEarlier(table, heard, r, heard);
      RankHolds(ClaimsIn(table, h)[d := r], EarliestClaims(heard, h), d);
    }
  }

  lemma TwoTokens(heard: set<Rumor>, h: Host, d: Domain) returns (q: Rumor)
    requires d in Firsts(heard, h) && !OneToken(heard, h, d)
    ensures d in NamesHeard(heard, h) && Earliest(heard, h, d) in LeasesOn(heard, h, d)
    ensures q in LeasesOn(heard, h, d) && q.token != Earliest(heard, h, d).token
  {
    hide QuotaKey, FirstFive;
    FirstFiveWithin(EarliestClaims(heard, h));
    assert IsEarliest(LeasesOn(heard, h, d), Earliest(heard, h, d));
    q :| q in LeasesOn(heard, h, d) && q.token != Earliest(heard, h, d).token;
  }

  lemma LeasesAre(heard: set<Rumor>, h: Host, d: Domain, r: Rumor)
    requires r in LeasesOn(heard, h, d)
    ensures r in heard && QuotaKey(r.rdns) == h && r.domain == d
  {
    hide QuotaKey;
  }

  /** A first name heard under two tokens: what is kept depends on which was heard last. */
  lemma LastOneCounts(ed: Ed25519, heard: set<Rumor>, deadline: Millis, h: Host, d: Domain)
    requires InForceUntil(ed, heard, deadline) && d in Firsts(heard, h) && !OneToken(heard, h, d)
    ensures !KeptAlike(ed, heard, deadline, h)
  {
    var q := TwoTokens(heard, h, d);
    var r := Earliest(heard, h, d);
    LeasesAre(heard, h, d, q);
    LeasesAre(heard, h, d, r);
    hide InForceUntil, FirstFive, QuotaKey, KeptAlike, Reached, WereHeard, LeasesOn, Firsts, OneToken;
    var s := HeardLast(ed, heard, r, deadline);
    var t := HeardLast(ed, heard, q, deadline);
    var x: Table :| WereHeard(x, heard) && ClaimsIn(s.claims, h) == FirstFive(ClaimsIn(x, h)[d := r]);
    var y: Table :| WereHeard(y, heard) && ClaimsIn(t.claims, h) == FirstFive(ClaimsIn(y, h)[d := q]);
    LastIsKept(x, heard, h, d, r);
    LastIsKept(y, heard, h, d, q);
    assert !SameKept(ClaimsIn(s.claims, h), ClaimsIn(t.claims, h));
    DifferentlyKept(ed, heard, deadline, h, s, t);
  }

  lemma DifferentlyKept(ed: Ed25519, heard: set<Rumor>, deadline: Millis, h: Host, s: Store, t: Store)
    requires Reached(ed, heard, deadline, s) && Reached(ed, heard, deadline, t)
    requires !SameKept(ClaimsIn(s.claims, h), ClaimsIn(t.claims, h))
    ensures !KeptAlike(ed, heard, deadline, h)
  {
    hide Reached, SameKept;
  }

  /** All runs that hear just these leases keep the same names for a host, under the same tokens, if
      and only if each of its first five names was heard under one token only. */
  lemma KeptAlikeIff(ed: Ed25519, heard: set<Rumor>, deadline: Millis, h: Host)
    requires InForceUntil(ed, heard, deadline)
    ensures KeptAlike(ed, heard, deadline, h) <==> OneTokenEach(heard, h)
  {
    hide InForce, FirstFive, FirstsKept, Follows, OneToken, Firsts, SameKept, Reached;
    if OneTokenEach(heard, h) {
      forall s, t | Reached(ed, heard, deadline, s) && Reached(ed, heard, deadline, t)
        ensures SameKept(ClaimsIn(s.claims, h), ClaimsIn(t.claims, h))
      {
        ReachedFollows(ed, heard, deadline, s, h);
        ReachedFollows(ed, heard, deadline, t, h);
        KeptAreFirsts(s, heard, h);
        KeptAreFirsts(t, heard, h);
        SameKeptAgree(ClaimsIn(s.claims, h), ClaimsIn(t.claims, h), Firsts(heard, h));
      }
    } else {
      var d :| d in Firsts(heard, h) && !OneToken(heard, h, d);
      LastOneCounts(ed, heard, deadline, h, d);
    }
  }

  lemma SameKeptAgree(a: Claims, b: Claims, c: Claims)
    requires SameKept(a, c) && SameKept(b, c)
    ensures SameKept(a, b)
  {
  }

  // ---------------------------------------------------------------- convergence

  ghost predicate AllNamesDecided(table: Table) {
    forall d :: Decided(table, d)
  }

  lemma SameTokensContend(a: Table, b: Table, d: Domain, h: Host)
    requires SameTokens(a, b)
    ensures Contends(a, d, h) <==> Contends(b, d, h)
    ensures Contends(a, d, h) ==> a[h][d].token == b[h][d].token
  {
    assert h in a ==> SameKept(a[h], b[h]);
  }

  lemma SameTokensPrevail(a: Table, b: Table, d: Domain, c: Host)
    requires SameTokens(a, b) && Prevails(a, d, c)
    ensures Prevails(b, d, c)
  {
    hide SameTokens, Withstands;
    SameTokensContend(a, b, d, c);
    forall h | Contends(b, d, h) && h != c
      ensures Withstands(b[c][d].token, b[h][d].token)
    {
      SameTokensContend(a, b, d, h);
    }
  }

  lemma SameTokensDecide(a: Table, b: Table, d: Domain)
    requires SameTokens(a, b) && Decided(a, d)
    ensures Decided(b, d)
  {
    hide SameTokens;
    if c :| Prevails(a, d, c) {
      SameTokensPrevail(a, b, d, c);
    } else {
      forall h
        ensures !Contends(b, d, h)
      {
        SameTokensContend(a, b, d, h);
      }
    }
  }

  lemma SameTokensBack(a: Table, b: Table)
    requires SameTokens(a, b)
    ensures SameTokens(b, a)
  {
  }

  lemma DecidedAlike(a: Table, b: Table)
    requires SameTokens(a, b)
    ensures AllNamesDecided(a) <==> AllNamesDecided(b)
  {
    hide SameTokens, Decided;
    SameTokensBack(a, b);
    forall d
      ensures Decided(a, d) <==> Decided(b, d)
    {
      if Decided(a, d) { SameTokensDecide(a, b, d); }
      if Decided(b, d) { SameTokensDecide(b, a, d); }
    }
  }

  /** A closing sweep leaves the claims, settles every name, and gives it to the prevailing host. */
  lemma ClosingSweep(ed: Ed25519, s: Store, heard: set<Rumor>, order: seq<Host>, deadline: Millis, d: Domain)
    requires Follows(s, heard) && InForceUntil(ed, heard, deadline) && Enumerates(order, s.claims.Keys)
    ensures var x := Sweep(ed, s, order, deadline);
            && x.claims == s.claims && Settled(Get(x.registrations, d), s.claims, d)
            && forall c | Prevails(s.claims, d, c) :: Get(x.registrations, d) == Holding(s.claims, d, c)
  {
    hide InForce, FirstFive, Sweep, ExpireHosts, SlotSweep, QuotaKey, Withstands, Settled;
    StaysCut(ed, s.claims, heard, deadline, deadline);
    TickFollows(ed, s, heard, order, deadline, deadline);
    var slot := Get(ExpireHosts(s, deadline).registrations, d);
    SettledAfterExpiry(s, deadline, s.claims, d);
    SweepAt(ed, s, order, deadline, d);
    forall c | Prevails(s.claims, d, c)
      ensures SlotSweep(slot, s.claims, order, d) == Holding(s.claims, d, c)
    {
      assert c in order;
      PrevailingWins(slot, s.claims, order, d, c);
    }
  }

  /** The same names, held by the same hosts under the same tokens. */
  predicate SameHolder(a: Option<Registration>, b: Option<Registration>) {
    match (a, b)
    case (None, None) => true
    case (Some(x), Some(y)) => x.host == y.host && x.token == y.token
    case _ => false
  }

  ghost predicate Agree(x: Store, y: Store) {
    SameTokens(x.claims, y.claims) && forall d :: SameHolder(Get(x.registrations, d), Get(y.registrations, d))
  }

  lemma ClosedAgreeAt(ed: Ed25519, s: Store, t: Store, heard: set<Rumor>, a: seq<Host>, b: seq<Host>,
                      deadline: Millis, d: Domain)
    requires Follows(s, heard) && Follows(t, heard) && InForceUntil(ed, heard, deadline)
    requires Enumerates(a, s.claims.Keys) && Enumerates(b, t.claims.Keys)
    requires SameTokens(s.claims, t.claims) && Decided(s.claims, d)
    ensures var x, y := Sweep(ed, s, a, deadline), Sweep(ed, t, b, deadline);
            && SameHolder(Get(x.registrations, d), Get(y.registrations, d))
            && (s.claims == t.claims ==> Get(x.registrations, d) == Get(y.registrations, d))
  {
    hide InForce, Sweep, Follows, SameTokens;
    ClosingSweep(ed, s, heard, a, deadline, d);
    ClosingSweep(ed, t, heard, b, deadline, d);
    if c :| Prevails(s.claims, d, c) {
      SameTokensPrevail(s.claims, t.claims, d, c);
      SameTokensContend(s.claims, t.claims, d, c);
    } else {
      forall h
        ensures !Contends(t.claims, d, h)
      {
        SameTokensContend(s.claims, t.claims, d, h);
      }
    }
  }

  lemma ClosedAgree(ed: Ed25519, s: Store, t: Store, heard: set<Rumor>, a: seq<Host>, b: seq<Host>, deadline: Millis)
    requires Follows(s, heard) && Follows(t, heard) && InForceUntil(ed, heard, deadline)
    requires Enumerates(a, s.claims.Keys) && Enumerates(b, t.claims.Keys)
    requires SameTokens(s.claims, t.claims) && AllNamesDecided(s.claims)
    ensures var x, y := Sweep(ed, s, a, deadline), Sweep(ed, t, b, deadline);
            Agree(x, y) && x.claims == s.claims && y.claims == t.claims
            && (s.claims == t.claims ==> x.registrations == y.registrations)
  {
    hide InForce, Sweep, Follows, SameTokens, Decided, SameHolder, Prevails, Settled;
    var x, y := Sweep(ed, s, a, deadline), Sweep(ed, t, b, deadline);
    forall d
      ensures SameHolder(Get(x.registrations, d), Get(y.registrations, d))
      ensures s.claims == t.claims ==> Get(x.registrations, d) == Get(y.registrations, d)
    {
      ClosedAgreeAt(ed, s, t, heard, a, b, deadline, d);
    }
    ClosingSweep(ed, s, heard, a, deadline, []);
    ClosingSweep(ed, t, heard, b, deadline, []);
    if s.claims == t.claims {
      SameSlotsSameMap(x.registrations, y.registrations);
    }
  }

  /** Two replicas that have heard the same leases agree after one sweep each, whatever came in which
      order, how often, between which sweeps, and however their tables are iterated: same claims and
      same holders under the same tokens, and the very same registrations if no host was heard with
      two leases on one name. */
  lemma ReplicasConverge(ed: Ed25519, s: Store, t: Store, run: seq<Event>, sun: seq<Event>,
                         a: seq<Host>, b: seq<Host>, deadline: Millis)
    requires Blank(s) && ValidRun(ed, s, run, deadline)
    requires Blank(t) && ValidRun(ed, t, sun, deadline)
    requires Heard(run) == Heard(sun) && InForceUntil(ed, Heard(run), deadline)
    requires (forall h :: OneTokenEach(Heard(run), h)) && AllNamesDecided(FirstTable(Heard(run)))
    requires Enumerates(a, HostsHeard(Heard(run))) && Enumerates(b, HostsHeard(Heard(run)))
    ensures var x := Sweep(ed, Run(ed, s, run), a, deadline);
            var y := Sweep(ed, Run(ed, t, sun), b, deadline);
            && Agree(x, y) && SameTokens(x.claims, FirstTable(Heard(run)))
            && (OnePerPair(Heard(run)) ==>
                  x.registrations == y.registrations && x.claims == y.claims == FirstTable(Heard(run)))
  {
    IncrementalIsBatch(ed, s, run, deadline);
    IncrementalIsBatch(ed, t, sun, deadline);
    var u, v := Run(ed, s, run), Run(ed, t, sun);
    hide InForce, Sweep, AllNamesDecided, OneTokenEach, Agree;
    assert u.claims.Keys == v.claims.Keys == HostsHeard(Heard(run));
    SameTokensBack(u.claims, FirstTable(Heard(run)));
    SameTokensAgree(u.claims, v.claims, FirstTable(Heard(run)));
    DecidedAlike(u.claims, FirstTable(Heard(run)));
    ClosedAgree(ed, u, v, Heard(run), a, b, deadline);
  }

  lemma SameTokensAgree(a: Table, b: Table, c: Table)
    requires SameTokens(a, c) && SameTokens(b, c)
    ensures SameTokens(a, b)
  {
    hide SameKept;
    forall h | h in a
      ensures SameKept(a[h], b[h])
    {
      SameKeptAgree(a[h], b[h], c[h]);
    }
  }

  ghost predicate OutcomeFixed(ed: Ed25519, s: Store, deadline: Millis) {
    forall a, b | Enumerates(a, s.claims.Keys) && Enumerates(b, s.claims.Keys)
      :: Sweep(ed, s, a, deadline).registrations == Sweep(ed, s, b, deadline).registrations
  }

  lemma FixedOutcomeDecides(ed: Ed25519, s: Store, table: Table, some: seq<Host>, deadline: Millis, d: Domain)
    requires OutcomeFixed(ed, s, deadline) && Enumerates(some, s.claims.Keys)
    requires s.claims == table == KeptTable(ed, table, deadline) && Settled(Get(s.registrations, d), table, d)
    ensures Decided(table, d)
  {
    var slot := Get(ExpireHosts(s, deadline).registrations, d);
    SettledAfterExpiry(s, deadline, table, d);
    forall a, b | Enumerates(a, table.Keys) && Enumerates(b, table.Keys)
      ensures SlotSweep(slot, table, a, d) == SlotSweep(slot, table, b, d)
    {
      SweepAt(ed, s, a, deadline, d);
      SweepAt(ed, s, b, deadline, d);
    }
    OrderIrrelevantIffDecided(slot, table, d, some);
  }

  lemma FixedIffDecided(ed: Ed25519, s: Store, heard: set<Rumor>, some: seq<Host>, deadline: Millis)
    requires Follows(s, heard) && InForceUntil(ed, heard, deadline) && Enumerates(some, s.claims.Keys)
    ensures OutcomeFixed(ed, s, deadline) <==> AllNamesDecided(s.claims)
  {
    hide InForce, Sweep, Decided, FirstFive, QuotaKey, Enumerates;
    StaysCut(ed, s.claims, heard, deadline, deadline);
    if AllNamesDecided(s.claims) {
      forall a, b | Enumerates(a, s.claims.Keys) && Enumerates(b, s.claims.Keys)
        ensures Sweep(ed, s, a, deadline).registrations == Sweep(ed, s, b, deadline).registrations
      {
        SameTokensItself(s.claims);
        ClosedAgree(ed, s, s, heard, a, b, deadline);
      }
    }
    if OutcomeFixed(ed, s, deadline) {
      forall d
        ensures Decided(s.claims, d)
      {
        FixedOutcomeDecides(ed, s, s.claims, some, deadline, d);
      }
    }
  }

  lemma SameTokensItself(a: Table)
    ensures SameTokens(a, a)
  {
  }

  /** The closing sweep of one replica is independent of iteration order if and only if every contested
      name has a contestant who withstands all the others among its claims, whatever was heard; these
      are the first five of all that was heard whenever each was heard under one token. */
  lemma ConvergesIffDecided(ed: Ed25519, s: Store, run: seq<Event>, some: seq<Host>, deadline: Millis)
    requires Blank(s) && ValidRun(ed, s, run, deadline) && InForceUntil(ed, Heard(run), deadline)
    requires Enumerates(some, HostsHeard(Heard(run)))
    ensures OutcomeFixed(ed, Run(ed, s, run), deadline) <==> AllNamesDecided(Run(ed, s, run).claims)
    ensures (forall h :: OneTokenEach(Heard(run), h)) ==>
              (OutcomeFixed(ed, Run(ed, s, run), deadline) <==> AllNamesDecided(FirstTable(Heard(run))))
  {
    RunFollows(ed, s, run, Heard(run), deadline);
    var u := Run(ed, s, run);
    assert u.claims.Keys == HostsHeard(Heard(run));
    hide InForce, OneTokenEach, Follows, OutcomeFixed, AllNamesDecided, FirstsKept;
    FixedIffDecided(ed, u, Heard(run), some, deadline);
    if forall h :: OneTokenEach(Heard(run), h) {
      IncrementalIsBatch(ed, s, run, deadline);
      DecidedAlike(u.claims, FirstTable(Heard(run)));
    }
  }

  // ---------------------------------------------------------------- the exact condition for all replicas

  /** A store in which some replica that hears these leases ends up. */
  ghost predicate Closed(ed: Ed25519, heard: set<Rumor>, deadline: Millis, x: Store) {
    exists s, order ::
      Reached(ed, heard, deadline, s) && Enumerates(order, s.claims.Keys) && x == Sweep(ed, s, order, deadline)
  }

  ghost predicate AlwaysAgree(ed: Ed25519, heard: set<Rumor>, deadline: Millis) {
    forall x, y | Closed(ed, heard, deadline, x) && Closed(ed, heard, deadline, y) :: Agree(x, y)
  }

  lemma {:induction false} SomeOrder<T(!new)>(keys: set<T>) returns (order: seq<T>)
    ensures Enumerates(order, keys)
  {
    if keys == {} {
      order := [];
    } else {
      var k :| k in keys;
      var rest := SomeOrder(keys - {k});
      order := rest + [k];
    }
  }

  lemma AgreeingKeepAlike(ed: Ed25519, heard: set<Rumor>, deadline: Millis, h: Host)
    requires InForceUntil(ed, heard, deadline) && AlwaysAgree(ed, heard, deadline)
    ensures KeptAlike(ed, heard, deadline, h)
  {
    hide InForce, Reached, Follows, FirstsKept, Sweep, Settled, Prevails, Enumerates;
    forall s, t | Reached(ed, heard, deadline, s) && Reached(ed, heard, deadline, t)
      ensures SameKept(ClaimsIn(s.claims, h), ClaimsIn(t.claims, h))
    {
      ReachedFollows(ed, heard, deadline, s, h);
      ReachedFollows(ed, heard, deadline, t, h);
      var a := SomeOrder(s.claims.Keys);
      var b := SomeOrder(t.claims.Keys);
      ClosingSweep(ed, s, heard, a, deadline, []);
      ClosingSweep(ed, t, heard, b, deadline, []);
      var x, y := Sweep(ed, s, a, deadline), Sweep(ed, t, b, deadline);
      assert Closed(ed, heard, deadline, x) && Closed(ed, heard, deadline, y);
      assert Agree(x, y);
    }
  }

  lemma HolderTells(table: Table, d: Domain, a: Option<Registration>, b: Option<Registration>)
    requires Settled(a, table, d) && Settled(b, table, d) && SameHolder(a, b)
    ensures a == b
  {
  }

  lemma AgreeingFixes(ed: Ed25519, heard: set<Rumor>, deadline: Millis, s: Store)
    requires InForceUntil(ed, heard, deadline) && AlwaysAgree(ed, heard, deadline) && Reached(ed, heard, deadline, s)
    ensures OutcomeFixed(ed, s, deadline)
  {
    hide InForce, Reached, Follows, FirstsKept, Sweep, Settled, Prevails, SameHolder, SameTokens, Enumerates;
    ReachedFollows(ed, heard, deadline, s, []);
    forall a, b | Enumerates(a, s.claims.Keys) && Enumerates(b, s.claims.Keys)
      ensures Sweep(ed, s, a, deadline).registrations == Sweep(ed, s, b, deadline).registrations
    {
      var x, y := Sweep(ed, s, a, deadline), Sweep(ed, s, b, deadline);
      assert Closed(ed, heard, deadline, x) && Closed(ed, heard, deadline, y);
      assert Agree(x, y);
      forall d
        ensures Get(x.registrations, d) == Get(y.registrations, d)
      {
        ClosingSweep(ed, s, heard, a, deadline, d);
        ClosingSweep(ed, s, heard, b, deadline, d);
        HolderTells(s.claims, d, Get(x.registrations, d), Get(y.registrations, d));
      }
      SameSlotsSameMap(x.registrations, y.registrations);
    }
  }

  /** All replicas that hear just these leases agree after a closing sweep if and only if each host's
      first five names were heard under one token each, and every name that several hosts keep has a
      contestant who withstands the others. */
  lemma ReplicasAgreeIff(ed: Ed25519, heard: set<Rumor>, deadline: Millis)
    requires InForceUntil(ed, heard, deadline)
    ensures AlwaysAgree(ed, heard, deadline)
            <==> (forall h :: OneTokenEach(heard, h)) && AllNamesDecided(FirstTable(heard))
  {
    if (forall h :: OneTokenEach(heard, h)) && AllNamesDecided(FirstTable(heard)) {
      SingleAndDecidedAgree(ed, heard, deadline);
    }
    if AlwaysAgree(ed, heard, deadline) {
      AgreeingAreSingle(ed, heard, deadline);
      AgreeingAreDecided(ed, heard, deadline);
    }
  }

  lemma SingleAndDecidedAgree(ed: Ed25519, heard: set<Rumor>, deadline: Millis)
    requires InForceUntil(ed, heard, deadline) && (forall h :: OneTokenEach(heard, h)) && AllNamesDecided(FirstTable(heard))
    ensures AlwaysAgree(ed, heard, deadline)
  {
    hide InForce, Sweep, AllNamesDecided, OneTokenEach, Agree, FirstTable, Blank, ValidRun, SameTokens;
    forall x, y | Closed(ed, heard, deadline, x) && Closed(ed, heard, deadline, y)
      ensures Agree(x, y)
    {
      var s, a :| Reached(ed, heard, deadline, s) && Enumerates(a, s.claims.Keys) && x == Sweep(ed, s, a, deadline);
      var t, b :| Reached(ed, heard, deadline, t) && Enumerates(b, t.claims.Keys) && y == Sweep(ed, t, b, deadline);
      var u, run :| Blank(u) && ValidRun(ed, u, run, deadline) && Heard(run) == heard && s == Run(ed, u, run);
      var v, sun :| Blank(v) && ValidRun(ed, v, sun, deadline) && Heard(sun) == heard && t == Run(ed, v, sun);
      IncrementalIsBatch(ed, u, run, deadline);
      IncrementalIsBatch(ed, v, sun, deadline);
      SameTokensAgree(s.claims, t.claims, FirstTable(heard));
      DecidedAlike(s.claims, FirstTable(heard));
      ClosedAgree(ed, s, t, heard, a, b, deadline);
    }
  }

  lemma AgreeingAreSingle(ed: Ed25519, heard: set<Rumor>, deadline: Millis)
    requires InForceUntil(ed, heard, deadline) && AlwaysAgree(ed, heard, deadline)
    ensures forall h :: OneTokenEach(heard, h)
  {
    hide InForce, AlwaysAgree, OneTokenEach, KeptAlike;
    forall h
      ensures OneTokenEach(heard, h)
    {
      AgreeingKeepAlike(ed, heard, deadline, h);
      KeptAlikeIff(ed, heard, deadline, h);
    }
  }

  lemma AgreeingAreDecided(ed: Ed25519, heard: set<Rumor>, deadline: Millis)
    requires InForceUntil(ed, heard, deadline) && AlwaysAgree(ed, heard, deadline) && forall h :: OneTokenEach(heard, h)
    ensures AllNamesDecided(FirstTable(heard))
  {
    hide InForce, AlwaysAgree, OneTokenEach, OutcomeFixed, AllNamesDecided, FirstTable, ValidRun, Run, Enumerates;
    var events := AllCanBeHeard(ed, heard, deadline);
    var s := Run(ed, EMPTY, events);
    assert Blank(EMPTY) && Reached(ed, heard, deadline, s);
    AgreeingFixes(ed, heard, deadline, s);
    var order := SomeOrder(HostsHeard(heard));
    ConvergesIffDecided(ed, EMPTY, events, order, deadline);
  }

  // ---------------------------------------------------------------- two rivals

  /** At most two hosts contest any name, and they do so under different tokens. */
  ghost predicate AtMostTwoRivals(heard: set<Rumor>) {
    && (forall p, q, r | p in heard && q in heard && r in heard && p.domain == q.domain == r.domain
          :: || QuotaKey(p.rdns) == QuotaKey(q.rdns) || QuotaKey(p.rdns) == QuotaKey(r.rdns)
             || QuotaKey(q.rdns) == QuotaKey(r.rdns))
    && (forall q, r | q in heard && r in heard && q.domain == r.domain && QuotaKey(q.rdns) != QuotaKey(r.rdns)
          :: q.token != r.token)
  }

  lemma FirstsWereHeard(heard: set<Rumor>, d: Domain, h: Host)
    requires Contends(FirstTable(heard), d, h)
    ensures var r := FirstTable(heard)[h][d]; r in heard && QuotaKey(r.rdns) == h && r.domain == d
  {
    hide QuotaKey, FirstFive;
    FirstFiveWithin(EarliestClaims(heard, h));
    assert IsEarliest(LeasesOn(heard, h, d), Earliest(heard, h, d));
  }

  lemma TwoRivalsDecide(heard: set<Rumor>, d: Domain, g: Host, h: Host)
    requires AtMostTwoRivals(heard) && g != h
    requires Contends(FirstTable(heard), d, g) && Contends(FirstTable(heard), d, h)
    ensures Decided(FirstTable(heard), d)
  {
    hide QuotaKey, FirstTable;
    var table := FirstTable(heard);
    FirstsWereHeard(heard, d, g);
    FirstsWereHeard(heard, d, h);
    forall k | Contends(table, d, k)
      ensures k == g || k == h
    {
      FirstsWereHeard(heard, d, k);
    }
    TwoContestantsDecide(table, d, g, h);
  }

  lemma LoneContestantPrevails(table: Table, d: Domain)
    requires forall g, h | Contends(table, d, g) && Contends(table, d, h) :: g == h
    ensures Decided(table, d)
  {
    if g :| Contends(table, d, g) {
      assert Prevails(table, d, g);
    }
  }

  /** Two rivals per name, with different tokens, are enough for every name to be decided. */
  lemma AtMostTwoRivalsDecide(heard: set<Rumor>)
    requires AtMostTwoRivals(heard)
    ensures AllNamesDecided(FirstTable(heard))
  {
    hide FirstTable, AtMostTwoRivals;
    var table := FirstTable(heard);
    forall d
      ensures Decided(table, d)
    {
      if g, h :| Contends(table, d, g) && Contends(table, d, h) && h != g {
        TwoRivalsDecide(heard, d, g, h);
      } else {
        LoneContestantPrevails(table, d);
      }
    }
  }
}
