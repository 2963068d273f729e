/** The store itself: the tables of liveness.rs and store.rs, updated in place, and the handlers of
    api.rs. Each method does to the tables what the function of the same name in `Registry` does to
    their values. */
module SortedClaims {
  import opened Bytes
  import opened Tokens
  import opened Identity
  import opened Registry

  /** The comparison passed to the sort in `reconcile_quota`. */
  predicate Before(a: Rumor, b: Rumor) {
    var x, y := OrderingKey(a.token), OrderingKey(b.token);
    LexLess(x, y) || (x == y && LexLess(a.domain, b.domain))
  }

  lemma BeforeIsTotal(a: Rumor, b: Rumor)
    requires a.domain != b.domain
    ensures Before(a, b) || Before(b, a)
  {
    LexTotal(OrderingKey(a.token), OrderingKey(b.token));
    LexTotal(a.domain, b.domain);
  }

  lemma BeforeIsTransitive(a: Rumor, b: Rumor, c: Rumor)
    requires Before(a, b) && Before(b, c)
    ensures Before(a, c)
  {
    var x, y, z := OrderingKey(a.token), OrderingKey(b.token), OrderingKey(c.token);
    if LexLess(x, y) && LexLess(y, z) { LexTransitive(x, y, z); }
    if LexLess(a.domain, b.domain) && LexLess(b.domain, c.domain) { LexTransitive(a.domain, b.domain, c.domain); }
  }

  lemma BeforeIsIrreflexive(a: Rumor)
    ensures !Before(a, a)
  {
    LexIrreflexive(OrderingKey(a.token));
    LexIrreflexive(a.domain);
  }

  ghost predicate Sorted(s: seq<Rumor>) {
    forall i, j | 0 <= i < j < |s| :: Before(s[i], s[j])
  }

  ghost predicate DistinctNames(s: seq<Rumor>) {
    forall i, j | 0 <= i < j < |s| :: s[i].domain != s[j].domain
  }

  predicate KeyedByName(c: Claims) {
    forall d | d in c :: c[d].domain == d
  }

  /** The values of a map, in whatever order its keys are met. */
  method Values(c: Claims) returns (values: seq<Rumor>)
    requires KeyedByName(c)
    ensures DistinctNames(values)
    ensures forall r :: r in values <==> r.domain in c && c[r.domain] == r
  {
    values := [];
    var rest := c.Keys;
    while rest != {}
      invariant rest <= c.Keys && DistinctNames(values)
      invariant forall r :: r in values <==> r.domain in c && r.domain !in rest && c[r.domain] == r
    {
      var d :| d in rest;
      values := values + [c[d]];
      rest := rest - {d};
    }
  }

  lemma InsertedIsSorted(s: seq<Rumor>, i: nat, v: Rumor)
    requires i <= |s| && Sorted(s)
    requires forall k | 0 <= k < i :: Before(s[k], v)
    requires i < |s| ==> Before(v, s[i])
    ensures Sorted(s[..i] + [v] + s[i..])
  {
    forall k | i < k < |s|
      ensures Before(v, s[k])
    {
      BeforeIsTransitive(v, s[i], s[k]);
    }
  }

  /** `sort_by` on claims with different names. */
  method Sort(values: seq<Rumor>) returns (sorted: seq<Rumor>)
    requires DistinctNames(values)
    ensures Sorted(sorted)
    ensures forall r :: r in sorted <==> r in values
  {
    sorted := [];
    for n := 0 to |values|
      invariant Sorted(sorted)
      invariant forall r :: r in sorted <==> r in values[..n]
    {
      var v := values[n];
      var i := 0;
      while i < |sorted| && Before(sorted[i], v)
        invariant i <= |sorted| && forall k | 0 <= k < i :: Before(sorted[k], v)
      {
        i := i + 1;
      }
      if i < |sorted| {
        assert sorted[i] in values[..n];
        BeforeIsTotal(sorted[i], v);
      }
      InsertedIsSorted(sorted, i, v);
      assert forall r :: r in sorted <==> r in sorted[..i] || r in sorted[i..];
      sorted := sorted[..i] + [v] + sorted[i..];
      assert values[..n + 1] == values[..n] + [v];
    }
  }

  ghost predicate Lists(s: seq<Rumor>, c: Claims) {
    && KeyedByName(c) && Sorted(s)
    && forall r :: r in s <==> r.domain in c && c[r.domain] == r
  }

  lemma ListedNamesDiffer(s: seq<Rumor>, c: Claims)
    requires Lists(s, c)
    ensures DistinctNames(s)
  {
    forall i, j | 0 <= i < j < |s|
      ensures s[i].domain != s[j].domain
    {
      assert s[i] in s && s[j] in s;
      BeforeIsIrreflexive(s[i]);
    }
  }

  function NamesOf(s: seq<Rumor>): set<Domain> {
    set r | r in s :: r.domain
  }

  lemma {:induction false} NamesOfSize(s: seq<Rumor>)
    requires DistinctNames(s)
    ensures |NamesOf(s)| == |s|
  {
    if s != [] {
      var init, last := s[..|s| - 1], s[|s| - 1];
      NamesOfSize(init);
      assert s == init + [last];
      assert NamesOf(s) == NamesOf(init) + {last.domain};
    }
  }

  /** In the sorted list, the claims ahead of the one at position `i` are the `i` before it. */
  lemma PositionIsRank(s: seq<Rumor>, c: Claims, i: nat)
    requires Lists(s, c) && i < |s|
    ensures s[i].domain in c && |Ahead(c, s[i].domain)| == i
  {
    assert s[i] in s;
    ListedNamesDiffer(s, c);
    forall e
      ensures e in Ahead(c, s[i].domain) <==> e in NamesOf(s[..i])
    {
      if e in c {
        assert c[e] in s;
        var j :| 0 <= j < |s| && s[j] == c[e];
        assert Outranks(c, e, s[i].domain) <==> Before(s[j], s[i]);
        if j < i {
          assert s[j] in s[..i];
        } else {
          BeforeIsIrreflexive(s[i]);
          if Before(s[j], s[i]) && i < j {
            BeforeIsTransitive(s[i], s[j], s[i]);
          }
        }
      }
    }
    NamesOfSize(s[..i]);
    assert Ahead(c, s[i].domain) == NamesOf(s[..i]);
  }

  /** Sorting and truncating leaves the claims with fewer than five ahead. */
  lemma TruncatedIsFirstFive(s: seq<Rumor>, c: Claims)
    requires Lists(s, c)
    ensures var kept := s[..if |s| < MAX_REGISTRATIONS then |s| else MAX_REGISTRATIONS];
            NamesOf(kept) == FirstFive(c).Keys && forall r | r in kept :: r == FirstFive(c)[r.domain]
  {
    var kept := s[..if |s| < MAX_REGISTRATIONS then |s| else MAX_REGISTRATIONS];
    forall i | 0 <= i < |s|
      ensures s[i].domain in c && c[s[i].domain] == s[i] && |Ahead(c, s[i].domain)| == i
    {
      assert s[i] in s;
      PositionIsRank(s, c, i);
    }
    forall d | d in FirstFive(c)
      ensures d in NamesOf(kept)
    {
      assert c[d] in s;
      var i :| 0 <= i < |s| && s[i] == c[d];
      assert s[i] in kept;
    }
  }
}

module RegistryStores {
  import opened Bytes
  import opened Outcomes
  import opened Tokens
  import opened Collision
  import opened Identity
  import opened Registry
  import opened Sweeping
  import opened SortedClaims

  /** Any order in which the elements of a set may be visited. */
  method Visit<T(!new)>(keys: set<T>) returns (order: seq<T>)
    ensures Enumerates(order, keys)
  {
    order := [];
    var rest := keys;
    while rest != {}
      invariant rest <= keys && Enumerates(order, keys - rest)
    {
      var k :| k in rest;
      order := order + [k];
      rest := rest - {k};
    }
    assert keys - {} == keys;
  }

  function Elements<T>(order: seq<T>): set<T> {
    set k | k in order
  }

  lemma OneMoreElement<T>(order: seq<T>, i: nat)
    requires i < |order|
    ensures Elements(order[..i + 1]) == Elements(order[..i]) + {order[i]}
  {
    assert order[..i + 1] == order[..i] + [order[i]];
  }

  /** The registrations left once a host's leased ones are cleared away. */
  function Cleared(regs: map<Domain, Registration>, quota: Host): map<Domain, Registration> {
    map d | d in regs && (regs[d].host != quota || regs[d].rumor.None?) :: regs[d]
  }

  /** A cleared slot after a winner, if there is one, has been offered it. */
  function Offered(slot: Option<Registration>, claim: Option<Rumor>, quota: Host): Option<Registration> {
    match claim
    case None => slot
    case Some(r) =>
      if slot.None? || Negotiate(slot.value.token, r.token) == r.token then Some(FromRumor(r, quota)) else slot
  }

  lemma InstalledIsReconciled(regs: map<Domain, Registration>, kept: Claims, quota: Host, after: map<Domain,
                              Registration>)
    requires forall d :: Get(after, d) == Offered(Get(Cleared(regs, quota), d), Get(kept, d), quota)
    ensures after == ReconcileRegistrations(regs, kept, quota)
  {
    var goal := ReconcileRegistrations(regs, kept, quota);
    forall d
      ensures Get(after, d) == Get(goal, d)
    {
      assert Get(goal, d) == SlotAfter(Get(regs, d), Get(kept, d), quota);
    }
    SameSlotsSameMap(after, goal);
  }

  lemma NamesGrow(winners: seq<Rumor>, i: nat)
    requires DistinctNames(winners) && i < |winners|
    ensures NamesOf(winners[..i + 1]) == NamesOf(winners[..i]) + {winners[i].domain}
    ensures winners[i].domain !in NamesOf(winners[..i])
  {
    assert winners[..i + 1] == winners[..i] + [winners[i]];
  }

  class LivenessTracker {
    var lastSeen: map<Host, Millis>
    var counts: map<Host, nat>

    constructor ()
      ensures lastSeen == map[] && counts == map[]
    {
      lastSeen, counts := map[], map[];
    }

    method RecordProbe(client: ClientIdentity, now: Millis)
      modifies this`lastSeen
      ensures lastSeen == old(lastSeen)[QuotaKey(client.rdns) := now]
      ensures forall other: ClientIdentity, t: Millis ::
                IsLive(other, t) <==> if QuotaKey(other.rdns) == QuotaKey(client.rdns) then t <= now + 60_000
                                      else old(IsLive(other, t))
    {
      lastSeen := lastSeen[QuotaKey(client.rdns) := now];
    }

    predicate IsLive(client: ClientIdentity, now: Millis)
      reads this
    {
      var host := QuotaKey(client.rdns);
      host in lastSeen && SaturatingSub(now, lastSeen[host]) <= LIVENESS_WINDOW
    }

    function RegistrationCount(client: ClientIdentity): nat
      reads this
    {
      if QuotaKey(client.rdns) in counts then counts[QuotaKey(client.rdns)] else 0
    }

    predicate CanRegister(client: ClientIdentity, now: Millis)
      reads this
    {
      IsLive(client, now) && RegistrationCount(client) < MAX_REGISTRATIONS
    }

    method IncrementRegistration(client: ClientIdentity)
      modifies this`counts
      ensures counts == old(counts)[QuotaKey(client.rdns) := old(RegistrationCount(client)) + 1]
    {
      counts := counts[QuotaKey(client.rdns) := RegistrationCount(client) + 1];
    }

    method ForgetClientByKey(key: Host)
      modifies this
      ensures counts == old(counts) - {key} && lastSeen == old(lastSeen) - {key}
      ensures forall other: ClientIdentity, t: Millis ::
                IsLive(other, t) <==> QuotaKey(other.rdns) != key && old(IsLive(other, t))
      ensures forall other: ClientIdentity ::
                RegistrationCount(other) == if QuotaKey(other.rdns) == key then 0 else old(RegistrationCount(other))
    {
      counts := counts - {key};
      lastSeen := lastSeen - {key};
    }

    method ExpiredClients(now: Millis) returns (gone: seq<Host>)
      ensures Enumerates(gone, set h | h in lastSeen && SaturatingSub(now, lastSeen[h]) > LIVENESS_WINDOW)
    {
      gone := Visit(set h | h in lastSeen && SaturatingSub(now, lastSeen[h]) > LIVENESS_WINDOW);
    }
  }

  class RegistryStore {
    var registrations: map<Domain, Registration>
    var quotaClaims: map<Host, Claims>
    var evidence: map<string, (Millis, seq<byte>)>
    const liveness: LivenessTracker
    const ed: Ed25519

    ghost function State(): Store
      reads this, liveness
    {
      Store(registrations, quotaClaims, liveness.lastSeen, liveness.counts, evidence)
    }

    /** Claims are filed under the name they claim. */
    ghost predicate Valid()
      reads this
    {
      forall h | h in quotaClaims :: KeyedByName(quotaClaims[h])
    }

    constructor (ed: Ed25519)
      ensures Valid() && fresh(liveness) && State() == EMPTY && this.ed == ed
    {
      this.ed := ed;
      registrations, quotaClaims, evidence := map[], map[], map[];
      liveness := new LivenessTracker();
    }

    method ProbeWithEvidence(client: ClientIdentity, now: Millis, at: Millis, signature: seq<byte>)
      requires Valid()
      modifies this, liveness
      ensures Valid() && State() == Probe(old(State()), client, now, at, signature)
    {
      liveness.RecordProbe(client, now);
      evidence := evidence[ClientKey(client) := (at, signature)];
    }

    method SetRecordsOf(domain: Domain, client: ClientIdentity, records: seq<Record>) returns (ok: bool)
      requires Valid()
      modifies this
      ensures Valid() && State() == SetRecords(old(State()), domain, ClientKey(client), records)
      ensures ok == Owns(old(State()), domain, ClientKey(client))
    {
      ok := domain in registrations && registrations[domain].clientKey == ClientKey(client);
      if ok {
        registrations := registrations[domain := registrations[domain].(records := records)];
      }
    }

    method RefreshProbeEvidence(key: string, at: Millis, signature: seq<byte>)
      requires Valid()
      modifies this
      ensures Valid() && State() == RefreshProbe(old(State()), key, at, signature)
    {
      RefreshRegistrations(key, at, signature);
      RefreshClaims(key, at, signature);
    }

    method RefreshRegistrations(key: string, at: Millis, signature: seq<byte>)
      modifies this`registrations
      ensures registrations == RefreshProbe(old(State()), key, at, signature).registrations
    {
      var names := Visit(registrations.Keys);
      for i := 0 to |names|
        invariant registrations.Keys == old(registrations).Keys
        invariant forall d | d in old(registrations) :: registrations[d]
                    == if d in names[..i] then ReprobedRegistration(old(registrations)[d], key, at, signature)
                       else old(registrations)[d]
      {
        var reg := registrations[names[i]];
        if reg.clientKey == key && reg.rumor.Some? {
          var rumor := reg.rumor.value.(probedAt := at, probeSignature := signature);
          registrations := registrations[names[i] := reg.(rumor := Some(rumor))];
        }
        assert names[..i + 1] == names[..i] + [names[i]];
      }
    }

    method RefreshClaims(key: string, at: Millis, signature: seq<byte>)
      modifies this`quotaClaims
      ensures quotaClaims == RefreshProbe(old(State()), key, at, signature).claims
    {
      var hosts := Visit(quotaClaims.Keys);
      for i := 0 to |hosts|
        invariant quotaClaims.Keys == old(quotaClaims).Keys
        invariant forall h | h in old(quotaClaims) :: quotaClaims[h]
                    == if h in hosts[..i] then ReprobedClaims(old(quotaClaims)[h], key, at, signature)
                       else old(quotaClaims)[h]
      {
        var c := RefreshedClaims(quotaClaims[hosts[i]], key, at, signature);
        quotaClaims := quotaClaims[hosts[i] := c];
        assert hosts[..i + 1] == hosts[..i] + [hosts[i]];
      }
    }

    static method RefreshedClaims(claims: Claims, key: string, at: Millis, signature: seq<byte>) returns (c: Claims)
      ensures c == ReprobedClaims(claims, key, at, signature)
    {
      c := claims;
      var names := Visit(claims.Keys);
      for j := 0 to |names|
        invariant c.Keys == claims.Keys
        invariant forall d | d in claims
            :: c[d] == if d in names[..j] then Reprobed(claims[d], key, at, signature) else claims[d]
      {
        var rumor := c[names[j]];
        if rumor.clientKey == key {
          c := c[names[j] := rumor.(probedAt := at, probeSignature := signature)];
        }
        assert names[..j + 1] == names[..j] + [names[j]];
      }
    }

    method AttachRecordEvidenceTo(domain: Domain, key: string, at: Millis, signature: seq<byte>)
      requires Valid()
      modifies this
      ensures Valid() && State() == AttachRecordEvidence(old(State()), domain, key, at, signature)
    {
      if domain in registrations {
        var reg := registrations[domain];
        if reg.clientKey == key && reg.rumor.Some? {
          var rumor := reg.rumor.value.(records := reg.records, recordsAt := Some(at),
              recordsSignature := Some(signature));
          registrations := registrations[domain := reg.(rumor := Some(rumor))];
        }
      }
      ResignClaims(domain, key, at, signature);
      assert registrations == AttachRecordEvidence(old(State()), domain, key, at, signature).registrations;
    }

    method ResignClaims(domain: Domain, key: string, at: Millis, signature: seq<byte>)
      modifies this`quotaClaims
      ensures quotaClaims == AttachRecordEvidence(old(State()), domain, key, at, signature).claims
    {
      hide ResignedClaims, WithRecordEvidence;
      var hosts := Visit(quotaClaims.Keys);
      for i := 0 to |hosts|
        invariant quotaClaims.Keys == old(quotaClaims).Keys
        invariant forall h | h in old(quotaClaims) :: quotaClaims[h]
                    == if h in hosts[..i] then ResignedClaims(old(quotaClaims)[h], domain, key, at, signature)
                       else old(quotaClaims)[h]
      {
        var c := ResignIn(quotaClaims[hosts[i]], domain, key, at, signature);
        quotaClaims := quotaClaims[hosts[i] := c];
        assert hosts[..i + 1] == hosts[..i] + [hosts[i]];
      }
    }

    static method ResignIn(claims: Claims, domain: Domain, key: string, at: Millis, signature: seq<byte>) returns (c: Claims)
      ensures c == ResignedClaims(claims, domain, key, at, signature)
    {
      c := claims;
      if domain in c && c[domain].clientKey == key {
        c := c[domain := c[domain].(recordsAt := Some(at), recordsSignature := Some(signature))];
      }
    }

    method ReconcileQuota(quota: Host, now: Millis)
      requires Valid()
      modifies this
      ensures Valid() && State() == Reconcile(ed, old(State()), quota, now)
    {
      if quota !in quotaClaims {
        return;
      }
      var winners := CutClaims(quota, now);
      ClearHost(quota);
      InstallWinners(winners, quotaClaims[quota], quota);
      InstalledIsReconciled(old(registrations), quotaClaims[quota], quota, registrations);
    }

    /** Drops the host's lapsed claims and those after the fifth. */
    method CutClaims(quota: Host, now: Millis) returns (winners: seq<Rumor>)
      requires Valid() && quota in quotaClaims
      modifies this`quotaClaims
      ensures Valid() && quotaClaims == old(quotaClaims)[quota := Retained(ed, old(quotaClaims)[quota], now)]
      ensures DistinctNames(winners) && NamesOf(winners) == quotaClaims[quota].Keys
      ensures forall r | r in winners :: r == quotaClaims[quota][r.domain]
    {
      hide InForce, Ahead, Sorted;
      var claims := Standing(ed, quotaClaims[quota], now);
      winners := Winners(claims);
      var winnerDomains := NamesOf(winners);
      claims := map d | d in claims && d in winnerDomains :: claims[d];
      assert claims == Retained(ed, quotaClaims[quota], now);
      quotaClaims := quotaClaims[quota := claims];
    }

    /** Sorts and truncates. */
    static method Winners(claims: Claims) returns (winners: seq<Rumor>)
      requires KeyedByName(claims)
      ensures DistinctNames(winners) && NamesOf(winners) == FirstFive(claims).Keys
      ensures forall r | r in winners :: r == FirstFive(claims)[r.domain]
    {
      winners := Values(claims);
      winners := Sort(winners);
      TruncatedIsFirstFive(winners, claims);
      ListedNamesDiffer(winners, claims);
      if |winners| > MAX_REGISTRATIONS {
        winners := winners[..MAX_REGISTRATIONS];
      } else {
        assert winners[..|winners|] == winners;
      }
    }

    method ClearHost(quota: Host)
      modifies this`registrations
      ensures registrations == Cleared(old(registrations), quota)
    {
      registrations := map d | d in registrations && (registrations[d].host != quota || registrations[d].rumor.None?)
                         :: registrations[d];
    }

    /** Offers each winner its name. */
    method InstallWinners(winners: seq<Rumor>, ghost kept: Claims, quota: Host)
      requires DistinctNames(winners)
      requires NamesOf(winners) == kept.Keys && forall r | r in winners :: r == kept[r.domain]
      modifies this`registrations
      ensures forall d :: Get(registrations, d) == Offered(Get(old(registrations), d), Get(kept, d), quota)
    {
      for i := 0 to |winners|
        invariant forall d :: Get(registrations, d)
                    == Offered(Get(old(registrations), d), if d in NamesOf(winners[..i]) then Get(kept, d)
                        else None, quota)
      {
        var rumor := winners[i];
        NamesGrow(winners, i);
        assert rumor in winners;
        assert Get(registrations, rumor.domain) == Get(old(registrations), rumor.domain);
        var replace := rumor.domain !in registrations
                       || Negotiate(registrations[rumor.domain].token, rumor.token) == rumor.token;
        if replace {
          registrations := registrations[rumor.domain := FromRumor(rumor, quota)];
        }
      }
      assert winners[..|winners|] == winners;
    }

    method AttachRumorTo(rumor: Rumor, now: Millis) returns (ok: bool)
      requires Valid()
      modifies this
      ensures Valid() && State() == AttachRumor(ed, old(State()), rumor, now)
      ensures ok == Attachable(old(State()), rumor)
    {
      ok := && rumor.domain in registrations
            && registrations[rumor.domain].clientKey == rumor.clientKey
            && registrations[rumor.domain].token == rumor.token;
      if ok {
        File(rumor);
        ReconcileQuota(QuotaKey(rumor.rdns), now);
      }
    }

    method File(rumor: Rumor)
      requires Valid()
      modifies this`quotaClaims
      ensures Valid() && State() == Filing(old(State()), rumor)
    {
      var quota := QuotaKey(rumor.rdns);
      var c: Claims := if quota in quotaClaims then quotaClaims[quota] else map[];
      quotaClaims := quotaClaims[quota := c[rumor.domain := rumor]];
    }

    method Adopt(rumor: Rumor, now: Millis) returns (accepted: bool)
      requires Valid()
      modifies this
      ensures Valid() && State() == AdoptRumor(ed, old(State()), rumor, now)
      ensures accepted == InForce(ed, rumor, now)
    {
      if !IsAuthorized(ed, rumor) || SaturatingSub(now, rumor.probedAt) > LIVENESS_WINDOW {
        return false;
      }
      File(rumor);
      ReconcileQuota(QuotaKey(rumor.rdns), now);
      return true;
    }

    method ReleaseExpired(now: Millis)
      requires Valid()
      modifies this`registrations, liveness
      ensures Valid() && State() == ExpireHosts(old(State()), now)
    {
      hide QuotaKey, KeyedByName;
      var expired := liveness.ExpiredClients(now);
      var gone := Elements(expired);
      assert gone == Expired(State(), now);
      registrations := map d | d in registrations && registrations[d].host !in gone :: registrations[d];
      for i := 0 to |expired|
        invariant registrations == ExpireHosts(old(State()), now).registrations
        invariant liveness.lastSeen == old(liveness.lastSeen) - Elements(expired[..i])
        invariant liveness.counts == old(liveness.counts) - Elements(expired[..i])
      {
        liveness.ForgetClientByKey(expired[i]);
        OneMoreElement(expired, i);
      }
      assert expired[..|expired|] == expired;
    }

    method ReclaimStale(now: Millis) returns (ghost order: seq<Host>)
      requires Valid()
      modifies this, liveness
      ensures Enumerates(order, old(quotaClaims).Keys)
      ensures Valid() && State() == Sweep(ed, old(State()), order, now)
    {
      ghost var base := ExpireHosts(State(), now);
      ReleaseExpired(now);
      var keys := Visit(quotaClaims.Keys);
      for i := 0 to |keys|
        invariant Valid() && State() == ReconcileAll(ed, base, keys[..i], now)
      {
        ReconcileQuota(keys[i], now);
        assert keys[..i + 1][..i] == keys[..i];
      }
      assert keys[..|keys|] == keys;
      order := keys;
    }

    method RegisterName(domain: Domain, client: ClientIdentity, now: Millis, nonce: Nonce)
      returns (outcome: Result<Token, RegistrationError>, ghost order: seq<Host>)
      requires Valid()
      modifies this, liveness
      ensures Enumerates(order, old(quotaClaims).Keys)
      ensures Valid() && (State(), outcome) == Register(ed, old(State()), domain, client, now, order, nonce)
    {
      hide Sweep, QuotaKey, ClientKey;
      if !liveness.IsLive(client, now) {
        order := Visit(quotaClaims.Keys);
        return Err(NotLive), order;
      }
      order := ReclaimStale(now);
      if domain in registrations {
        return Err(LimitReached), order;
      }
      if !liveness.CanRegister(client, now) {
        return Err(LimitReached), order;
      }
      var token := Token(now, nonce);
      registrations := registrations[domain := Registration(ClientKey(client), QuotaKey(client.rdns), token, [], None)];
      liveness.IncrementRegistration(client);
      return Ok(token), order;
    }

    // -------------------------------------------------------------- the client API

    method ServeProbe(e: Envelope, now: Millis) returns (response: Response)
      requires Valid()
      modifies this, liveness
      ensures Valid() && (State(), response) == HandleProbe(ed, old(State()), e, now)
    {
      match Authenticate(ed, e, ProbeMessage(e.timestamp), now) {
        case Ok(client) =>
          ProbeWithEvidence(client, now, e.timestamp, e.signature);
          RefreshProbeEvidence(ClientKey(client), e.timestamp, e.signature);
          response := ProbeAck;
        case Err(_) =>
          response := Refused;
      }
    }

    method ServeRegister(e: Envelope, domain: Domain, rdnsVerified: bool, now: Millis, nonce: Nonce)
      returns (response: Response, ghost order: seq<Host>)
      requires Valid()
      modifies this, liveness
      ensures Enumerates(order, old(quotaClaims).Keys)
      ensures Valid()
      ensures (State(), response) == HandleRegister(ed, old(State()), e, domain, rdnsVerified, now, order, nonce)
    {
      match Authenticate(ed, e, RegisterMessage(domain, e.timestamp), now) {
        case Err(_) =>
          order := Visit(quotaClaims.Keys);
          response := Refused;
        case Ok(client) =>
          if !rdnsVerified {
            order := Visit(quotaClaims.Keys);
            response := Refused;
          } else {
            var outcome;
            outcome, order := RegisterName(domain, client, now, nonce);
            match outcome {
              case Err(_) => response := Refused;
              case Ok(token) =>
                if ClientKey(client) !in evidence {
                  response := Panicked;
                } else {
                  var lease := LeaseFor(e, client, domain, token, evidence[ClientKey(client)]);
                  var _ := AttachRumorTo(lease, now);
                  response := Registered(token);
                }
            }
          }
      }
    }

    method ServeSetRecords(e: Envelope, domain: Domain, records: seq<Record>, now: Millis) returns (response: Response)
      requires Valid()
      modifies this
      ensures Valid() && (State(), response) == HandleSetRecords(ed, old(State()), e, domain, records, now)
    {
      match Authenticate(ed, e, SetRecordsMessage(domain, records, e.timestamp), now) {
        case Err(_) => response := Refused;
        case Ok(client) =>
          var ok := SetRecordsOf(domain, client, records);
          if ok {
            AttachRecordEvidenceTo(domain, ClientKey(client), e.timestamp, e.signature);
            response := RecordsSet;
          } else {
            response := Refused;
          }
      }
    }
  }
}
