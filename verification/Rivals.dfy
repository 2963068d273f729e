/** Three hosts that claim one name: replicas agree on its holder exactly when one of the three tokens
    withstands the other two. */
module Rivals {
  import opened Outcomes
  import opened Tokens
  import opened Collision
  import opened Identity
  import opened Registry
  import opened Sweeping
  import opened Limits
  import opened Overflow
  import opened Convergence

  /** Three leases in force, of three hosts, on one name, in the order of their tokens. */
  ghost predicate ThreeRivals(ed: Ed25519, a: Rumor, b: Rumor, c: Rumor, deadline: Millis) {
    && a.domain == b.domain == c.domain
    && QuotaKey(a.rdns) != QuotaKey(b.rdns) && QuotaKey(b.rdns) != QuotaKey(c.rdns) && QuotaKey(a.rdns) != QuotaKey(c.rdns)
    && InForce(ed, a, deadline) && InForce(ed, b, deadline) && InForce(ed, c, deadline)
    && Precedes(a.token, b.token) && Precedes(b.token, c.token)
  }

  function Single(r: Rumor): Claims {
    map[r.domain := r]
  }

  function ThreeClaims(a: Rumor, b: Rumor, c: Rumor): Table {
    map[QuotaKey(a.rdns) := Single(a), QuotaKey(b.rdns) := Single(b), QuotaKey(c.rdns) := Single(c)]
  }

  /** A host heard of through one lease alone claims that name. */
  lemma LoneLease(heard: set<Rumor>, r: Rumor)
    requires r in heard && forall o | o in heard && o != r :: QuotaKey(o.rdns) != QuotaKey(r.rdns)
    ensures EarliestClaims(heard, QuotaKey(r.rdns)) == Single(r)
  {
    hide QuotaKey;
    var h := QuotaKey(r.rdns);
    assert NamesHeard(heard, h) == {r.domain};
    assert LeasesOn(heard, h, r.domain) == {r};
    assert IsEarliest({r}, Earliest(heard, h, r.domain));
  }

  lemma ThreeOnePerPair(ed: Ed25519, a: Rumor, b: Rumor, c: Rumor, deadline: Millis)
    requires ThreeRivals(ed, a, b, c, deadline)
    ensures OnePerPair({a, b, c}) && InForceUntil(ed, {a, b, c}, deadline)
  {
    hide QuotaKey, InForce, Precedes;
  }

  lemma OnePerPairIsOneToken(heard: set<Rumor>, h: Host)
    requires OnePerPair(heard)
    ensures OneTokenEach(heard, h)
  {
    hide QuotaKey, FirstFive;
  }

  lemma SingleIsKept(r: Rumor)
    ensures FirstFive(Single(r)) == Single(r)
  {
    assert Single(r).Keys == {r.domain};
    assert |Single(r)| == |Single(r).Keys|;
    FewAreAllKept(Single(r));
  }

  /** Each of three rival hosts claims the one name. */
  lemma ThreeAreFirst(ed: Ed25519, a: Rumor, b: Rumor, c: Rumor, deadline: Millis)
    requires ThreeRivals(ed, a, b, c, deadline)
    ensures FirstTable({a, b, c}) == ThreeClaims(a, b, c)
  {
    hide QuotaKey, InForce, Precedes, FirstFive, EarliestClaims;
    forall r | r in {a, b, c}
      ensures Firsts({a, b, c}, QuotaKey(r.rdns)) == Single(r)
    {
      LoneLease({a, b, c}, r);
      SingleIsKept(r);
    }
    hide Firsts, Single;
    assert FirstTable({a, b, c}).Keys == {QuotaKey(a.rdns), QuotaKey(b.rdns), QuotaKey(c.rdns)};
  }

  lemma ThreeContend(ed: Ed25519, a: Rumor, b: Rumor, c: Rumor, deadline: Millis, d: Domain, h: Host)
    requires ThreeRivals(ed, a, b, c, deadline)
    ensures var table := ThreeClaims(a, b, c);
            && (Contends(table, d, h)
                <==> d == a.domain && (h == QuotaKey(a.rdns) || h == QuotaKey(b.rdns) || h == QuotaKey(c.rdns)))
            && (Contends(table, d, h) ==>
                  table[h][d] == if h == QuotaKey(a.rdns) then a else if h == QuotaKey(b.rdns) then b else c)
  {
    hide QuotaKey, InForce, Precedes;
  }

  lemma ThreeTokens(ed: Ed25519, a: Rumor, b: Rumor, c: Rumor, deadline: Millis)
    requires ThreeRivals(ed, a, b, c, deadline)
    ensures var table := ThreeClaims(a, b, c);
            (set h | h in table && a.domain in table[h] :: table[h][a.domain].token) == {a.token, b.token, c.token}
  {
    hide QuotaKey, InForce, Precedes;
    var table: Table := ThreeClaims(a, b, c);
    var tokens := set h | h in table && a.domain in table[h] :: table[h][a.domain].token;
    forall h
      ensures h in table && a.domain in table[h]
              <==> h == QuotaKey(a.rdns) || h == QuotaKey(b.rdns) || h == QuotaKey(c.rdns)
    {
      ThreeContend(ed, a, b, c, deadline, a.domain, h);
    }
    ThreeContend(ed, a, b, c, deadline, a.domain, QuotaKey(a.rdns));
    ThreeContend(ed, a, b, c, deadline, a.domain, QuotaKey(b.rdns));
    ThreeContend(ed, a, b, c, deadline, a.domain, QuotaKey(c.rdns));
    hide ThreeClaims;
    assert a.token in tokens && b.token in tokens && c.token in tokens;
    forall t | t in tokens
      ensures t in {a.token, b.token, c.token}
    {
      var h :| h in table && a.domain in table[h] && table[h][a.domain].token == t;
      ThreeContend(ed, a, b, c, deadline, a.domain, h);
    }
  }

  predicate MiddleIsOdd(a: Token, b: Token, c: Token) {
    Even(b) != Even(a) && Even(b) != Even(c)
  }

  lemma ThreeDecidedIff(ed: Ed25519, a: Rumor, b: Rumor, c: Rumor, deadline: Millis)
    requires ThreeRivals(ed, a, b, c, deadline)
    ensures Decided(ThreeClaims(a, b, c), a.domain) <==> !MiddleIsOdd(a.token, b.token, c.token)
  {
    hide QuotaKey, InForce, Even, Withstands;
    var table, d := ThreeClaims(a, b, c), a.domain;
    forall h
      ensures Contends(table, d, h) <==> h == QuotaKey(a.rdns) || h == QuotaKey(b.rdns) || h == QuotaKey(c.rdns)
      ensures Contends(table, d, h) ==>
                table[h][d] == if h == QuotaKey(a.rdns) then a else if h == QuotaKey(b.rdns) then b else c
    {
      ThreeContend(ed, a, b, c, deadline, d, h);
    }
    PrecedesIsTotal(a.token, b.token);
    PrecedesIsTotal(b.token, c.token);
    PrecedesIsTransitive(a.token, b.token, c.token);
    PrecedesIsTotal(a.token, c.token);
    hide ThreeClaims, Precedes;
    assert Contends(table, d, QuotaKey(a.rdns));
    ThreeTokens(ed, a, b, c, deadline);
    PrevailsIffParity(table, d);
    ChampionIffParityChangesAtMostOnce({a.token, b.token, c.token});
    ThreeTokensLackAChampionIff(a.token, b.token, c.token);
  }

  lemma OthersUndisputed(ed: Ed25519, a: Rumor, b: Rumor, c: Rumor, deadline: Millis, d: Domain)
    requires ThreeRivals(ed, a, b, c, deadline) && d != a.domain
    ensures Decided(ThreeClaims(a, b, c), d)
  {
    hide QuotaKey, InForce, Precedes, Prevails;
  }

  lemma AllDecidedIff(ed: Ed25519, a: Rumor, b: Rumor, c: Rumor, deadline: Millis)
    requires ThreeRivals(ed, a, b, c, deadline)
    ensures AllNamesDecided(ThreeClaims(a, b, c)) <==> !MiddleIsOdd(a.token, b.token, c.token)
  {
    ThreeDecidedIff(ed, a, b, c, deadline);
    hide ThreeClaims, Decided, MiddleIsOdd;
    forall d | d != a.domain
      ensures Decided(ThreeClaims(a, b, c), d)
    {
      OthersUndisputed(ed, a, b, c, deadline, d);
    }
  }

  lemma ThreeEnumerated(ed: Ed25519, a: Rumor, b: Rumor, c: Rumor, deadline: Millis)
    requires ThreeRivals(ed, a, b, c, deadline)
    ensures Enumerates([QuotaKey(a.rdns), QuotaKey(b.rdns), QuotaKey(c.rdns)], ThreeClaims(a, b, c).Keys)
  {
    hide QuotaKey, InForce, Precedes;
  }

  /** After any run in which a replica hears just these three leases, the closing sweep leaves the same
      registrations in every iteration order exactly when the middle token's parity is that of one of
      the others. */
  lemma ThreeRivalsConvergeIff(ed: Ed25519, s: Store, run: seq<Event>, a: Rumor, b: Rumor, c: Rumor, deadline: Millis)
    requires Blank(s) && ValidRun(ed, s, run, deadline) && Heard(run) == {a, b, c} && ThreeRivals(ed, a, b, c, deadline)
    ensures OutcomeFixed(ed, Run(ed, s, run), deadline) <==> !MiddleIsOdd(a.token, b.token, c.token)
  {
    ThreeAreFirst(ed, a, b, c, deadline);
    ThreeOnePerPair(ed, a, b, c, deadline);
    forall h
      ensures OneTokenEach({a, b, c}, h)
    {
      OnePerPairIsOneToken({a, b, c}, h);
    }
    hide OneTokenEach;
    assert HostsHeard({a, b, c}) == ThreeClaims(a, b, c).Keys;
    ThreeEnumerated(ed, a, b, c, deadline);
    AllDecidedIff(ed, a, b, c, deadline);
    hide Run, ValidRun, Heard, FirstTable, OutcomeFixed, AllNamesDecided, MiddleIsOdd, ThreeClaims, Enumerates,
      ThreeRivals, Blank, OnePerPair, InForceUntil;
    ConvergesIffDecided(ed, s, run, [QuotaKey(a.rdns), QuotaKey(b.rdns), QuotaKey(c.rdns)], deadline);
  }

  // ---------------------------------------------------------------- one host, two leases on one name

  /** Two leases of one host on one name, under different tokens. */
  ghost predicate Renewed(ed: Ed25519, q: Rumor, r: Rumor, deadline: Millis) {
    && q.domain == r.domain && QuotaKey(q.rdns) == QuotaKey(r.rdns) && q.token != r.token
    && InForce(ed, q, deadline) && InForce(ed, r, deadline)
  }

  function HearBoth(q: Rumor, r: Rumor, at: Millis): seq<Event> {
    [Hear(q, at)] + [Hear(r, at)]
  }

  lemma HearIntoSingle(ed: Ed25519, s: Store, before: Claims, r: Rumor, at: Millis)
    requires s.claims.Keys <= {QuotaKey(r.rdns)} && ClaimsIn(s.claims, QuotaKey(r.rdns)) == before
    requires before.Keys <= {r.domain}
    requires forall d | d in before :: InForce(ed, before[d], at)
    requires s.registrations == map d | d in before :: FromRumor(before[d], QuotaKey(r.rdns))
    requires InForce(ed, r, at)
    ensures AdoptRumor(ed, s, r, at)
            == s.(claims := map[QuotaKey(r.rdns) := Single(r)],
                  registrations := map[r.domain := FromRumor(r, QuotaKey(r.rdns))])
  {
    hide QuotaKey, InForce, FirstFive, AdoptRumor, ReconcileRegistrations;
    var h := QuotaKey(r.rdns);
    assert before[r.domain := r] == Single(r);
    SingleIsKept(r);
    HearClaims(ed, s, r, at, at);
    ReinstalledSingle(before, r, h);
    assert s.claims[h := Single(r)] == map[h := Single(r)];
  }

  lemma ReinstalledSingle(before: Claims, r: Rumor, h: Host)
    requires before.Keys <= {r.domain}
    ensures ReconcileRegistrations(map d | d in before :: FromRumor(before[d], h), Single(r), h)
            == map[r.domain := FromRumor(r, h)]
  {
    hide Negotiate;
  }

  /** Whichever of the two is heard last is claimed and holds the name: nobody else contends for it,
      and still the order decides. */
  lemma LastHeardHolds(ed: Ed25519, q: Rumor, r: Rumor, deadline: Millis)
    requires Renewed(ed, q, r, deadline)
    ensures ValidRun(ed, EMPTY, HearBoth(q, r, deadline), deadline) && Heard(HearBoth(q, r, deadline)) == {q, r}
    ensures Run(ed, EMPTY, HearBoth(q, r, deadline)).claims == map[QuotaKey(r.rdns) := Single(r)]
    ensures Run(ed, EMPTY, HearBoth(q, r, deadline)).registrations == map[r.domain := FromRumor(r, QuotaKey(r.rdns))]
  {
    hide QuotaKey, InForce, AdoptRumor, Run, ValidRun, Heard;
    NothingHeard(ed, deadline);
    HeardAgain(ed, [], q, deadline);
    assert [] + [Hear(q, deadline)] == [Hear(q, deadline)];
    HeardAgain(ed, [Hear(q, deadline)], r, deadline);
    HearIntoSingle(ed, EMPTY, map[], q, deadline);
    HearIntoSingle(ed, Run(ed, EMPTY, [Hear(q, deadline)]), Single(q), r, deadline);
  }

  /** So such leases keep replicas from agreeing, even on this host's claims. */
  lemma RenewalsDisagree(ed: Ed25519, q: Rumor, r: Rumor, deadline: Millis)
    requires Renewed(ed, q, r, deadline)
    ensures !KeptAlike(ed, {q, r}, deadline, QuotaKey(r.rdns)) && !AlwaysAgree(ed, {q, r}, deadline)
  {
    hide QuotaKey, InForce, KeptAlike, AlwaysAgree, Run, ValidRun, Heard, HearBoth;
    var h, x, y := QuotaKey(r.rdns), Run(ed, EMPTY, HearBoth(q, r, deadline)), Run(ed, EMPTY, HearBoth(r, q, deadline));
    LastHeardHolds(ed, q, r, deadline);
    LastHeardHolds(ed, r, q, deadline);
    assert {r, q} == {q, r} && Blank(EMPTY);
    assert Reached(ed, {q, r}, deadline, x) && Reached(ed, {q, r}, deadline, y);
    assert Single(r)[r.domain] == r && Single(q)[r.domain] == q;
    assert ClaimsIn(x.claims, h) == Single(r) && ClaimsIn(y.claims, h) == Single(q);
    DifferentlyKept(ed, {q, r}, deadline, h, x, y);
    if AlwaysAgree(ed, {q, r}, deadline) {
      AgreeingKeepAlike(ed, {q, r}, deadline, h);
    }
  }

  // ---------------------------------------------------------------- such leases exist

  const NAME: Domain := [0x61]

  function RivalLease(rdns: string, issuedAt: Millis): Rumor {
    Rumor(NAME, Token(issuedAt, NONCE), ClientKey(ClientIdentity(Key(), rdns)), Key(), rdns, 0, [], 0, [], [], None, None)
  }

  function RivalRun(): seq<Event> {
    [Hear(RivalLease("a", 0), 2)] + [Hear(RivalLease("b", 1), 2)] + [Hear(RivalLease("c", 2), 2)]
  }

  lemma RivalRunIsValid()
    ensures ValidRun(Trusting(), EMPTY, RivalRun(), 2)
    ensures Heard(RivalRun()) == {RivalLease("a", 0), RivalLease("b", 1), RivalLease("c", 2)}
  {
    hide AdoptRumor, RivalLease;
    var x, y, z := Hear(RivalLease("a", 0), 2), Hear(RivalLease("b", 1), 2), Hear(RivalLease("c", 2), 2);
    assert ([x] + [y] + [z])[..2] == [x] + [y] && ([x] + [y])[..1] == [x] && [x][..0] == [];
    assert Heard([x]) == {x.rumor};
    assert Heard([x] + [y]) == {x.rumor, y.rumor};
    assert ValidRun(Trusting(), EMPTY, [x], 2);
    assert ValidRun(Trusting(), EMPTY, [x] + [y], 2);
  }

  lemma RivalInForce(rdns: string, issuedAt: Millis)
    ensures InForce(Trusting(), RivalLease(rdns, issuedAt), 2)
  {
    hide ClientKey;
  }

  lemma LettersAreHosts()
    ensures QuotaKey("a") == "a" && QuotaKey("b") == "b" && QuotaKey("c") == "c"
  {
  }

  lemma RivalTokensAlternate()
    ensures Precedes(Token(0, NONCE), Token(1, NONCE)) && Precedes(Token(1, NONCE), Token(2, NONCE))
    ensures MiddleIsOdd(Token(0, NONCE), Token(1, NONCE), Token(2, NONCE))
  {
    hide Even, Precedes;
    IssuedAMillisecondApart(0, NONCE);
    IssuedAMillisecondApart(1, NONCE);
  }

  lemma RivalsAreThree()
    ensures ThreeRivals(Trusting(), RivalLease("a", 0), RivalLease("b", 1), RivalLease("c", 2), 2)
    ensures MiddleIsOdd(Token(0, NONCE), Token(1, NONCE), Token(2, NONCE))
  {
    hide QuotaKey, InForce, MiddleIsOdd, Precedes, ClientKey, Trusting;
    RivalInForce("a", 0);
    RivalInForce("b", 1);
    RivalInForce("c", 2);
    RivalTokensAlternate();
    LettersAreHosts();
  }

  /** A replica hears three authorized leases of three hosts on one name: two orders of its closing
      sweep leave different registrations. */
  lemma ThreeRivalsDiverge() returns (x: seq<Host>, y: seq<Host>)
    ensures ValidRun(Trusting(), EMPTY, RivalRun(), 2)
    ensures var s := Run(Trusting(), EMPTY, RivalRun());
            && Enumerates(x, s.claims.Keys) && Enumerates(y, s.claims.Keys)
            && Sweep(Trusting(), s, x, 2).registrations != Sweep(Trusting(), s, y, 2).registrations
  {
    hide Run, ValidRun, Heard, ThreeRivals, MiddleIsOdd, Sweep, RivalLease, Enumerates, RivalRun;
    RivalRunIsValid();
    RivalsAreThree();
    RivalTokens();
    ThreeRivalsConvergeIff(Trusting(), EMPTY, RivalRun(), RivalLease("a", 0), RivalLease("b", 1), RivalLease("c", 2), 2);
    var s := Run(Trusting(), EMPTY, RivalRun());
    x, y :| Enumerates(x, s.claims.Keys) && Enumerates(y, s.claims.Keys)
            && Sweep(Trusting(), s, x, 2).registrations != Sweep(Trusting(), s, y, 2).registrations;
  }

  lemma RivalTokens()
    ensures RivalLease("a", 0).token == Token(0, NONCE) && RivalLease("b", 1).token == Token(1, NONCE)
    ensures RivalLease("c", 2).token == Token(2, NONCE)
  {
    hide ClientKey;
  }

  /** Such leases exist: one owner's, issued a millisecond apart. */
  lemma RenewalsExist()
    ensures Renewed(Trusting(), RivalLease("a", 0), RivalLease("a", 1), 2)
  {
    hide QuotaKey, InForce, ClientKey, Trusting;
    RivalInForce("a", 0);
    RivalInForce("a", 1);
  }
}
