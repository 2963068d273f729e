/** Two honest nodes complete an exchange; and the node whose tables the exchange updates. */
module HonestRound {
  import opened Outcomes
  import opened Tokens
  import opened Identity
  import opened Registry
  import opened FirstFiveClaims
  import opened Runs
  import opened Gossip

  /** The digest lists every registration once, in any order. */
  ghost predicate Announces(entries: seq<DigestEntry>, s: Store) {
    && Distinct(EntryDomains(entries))
    && (forall e | e in entries ::
          e.domain in s.registrations && s.registrations[e.domain].token.issuedAt == e.issuedAt)
    && (forall d | d in s.registrations :: d in EntryDomains(entries))
  }

  /** Unknown here, or known under an earlier token. */
  predicate Wants(s: Store, e: DigestEntry) {
    e.domain in s.registrations ==> s.registrations[e.domain].token.issuedAt < e.issuedAt
  }

  lemma {:induction false} DistinctSize(domains: seq<Domain>, keys: set<Domain>)
    requires Distinct(domains) && forall d | d in domains :: d in keys
    ensures |domains| <= |keys|
  {
    if domains != [] {
      var init, last := domains[..|domains| - 1], domains[|domains| - 1];
      assert last !in init;
      DistinctSize(init, keys - {last});
    }
  }

  lemma {:induction false} MissingIff(s: Store, entries: seq<DigestEntry>, d: Domain)
    ensures d in Missing(s, entries) <==> exists e :: e in entries && e.domain == d && Wants(s, e)
  {
    if entries != [] {
      var init, last := entries[..|entries| - 1], entries[|entries| - 1];
      MissingIff(s, init, d);
      assert entries == init + [last];
    }
  }

  lemma {:induction false} MissingDistinct(s: Store, entries: seq<DigestEntry>)
    requires Distinct(EntryDomains(entries))
    ensures Distinct(Missing(s, entries)) && |Missing(s, entries)| <= |entries|
  {
    if entries != [] {
      var init, last := entries[..|entries| - 1], entries[|entries| - 1];
      assert forall i | 0 <= i < |init| :: EntryDomains(init)[i] == EntryDomains(entries)[i];
      MissingDistinct(s, init);
      forall e | e in init
        ensures e.domain != last.domain
      {
        var i :| 0 <= i < |init| && init[i] == e;
        assert EntryDomains(entries)[i] != EntryDomains(entries)[|init|];
      }
      MissingIff(s, init, last.domain);
    }
  }

  predicate Leased(s: Store, d: Domain) {
    d in s.registrations && s.registrations[d].rumor.Some?
  }

  lemma {:induction false} ServedIff(s: Store, domains: seq<Domain>, r: Rumor)
    ensures r in Served(s, domains)
            <==> r.domain in domains && Leased(s, r.domain) &&
                 r == s.registrations[r.domain].rumor.value.(domain := r.domain)
  {
    if domains != [] {
      var init, last := domains[..|domains| - 1], domains[|domains| - 1];
      ServedIff(s, init, r);
      assert domains == init + [last];
    }
  }

  lemma {:induction false} ServedDistinct(s: Store, domains: seq<Domain>)
    requires Distinct(domains)
    ensures Distinct(RumorDomains(Served(s, domains))) && |Served(s, domains)| <= |domains|
  {
    if domains != [] {
      var init, last := domains[..|domains| - 1], domains[|domains| - 1];
      ServedDistinct(s, init);
      var before, all := Served(s, init), Served(s, domains);
      forall i, j | 0 <= i < j < |all|
        ensures RumorDomains(all)[i] != RumorDomains(all)[j]
      {
        if j < |before| {
          assert RumorDomains(before)[i] != RumorDomains(before)[j];
        } else {
          ServedIff(s, init, before[i]);
          assert last !in init;
        }
      }
    }
  }

  /** An honest node's digest passes the checks on digests. */
  lemma DigestWellFormed(s: Store, entries: seq<DigestEntry>)
    requires Announces(entries, s) && |s.registrations| <= MAX_DIGEST_ENTRIES
    ensures IsWellFormed(Digest(entries))
  {
    forall d | d in EntryDomains(entries)
      ensures d in s.registrations.Keys
    {
      var i :| 0 <= i < |entries| && EntryDomains(entries)[i] == d;
      assert entries[i] in entries;
    }
    DistinctSize(EntryDomains(entries), s.registrations.Keys);
    assert |s.registrations.Keys| == |s.registrations|;
  }

  /** What an honest node serves is authorized and is what it has. */
  lemma ServedIsAuthorized(ed: Ed25519, s: Store, domains: seq<Domain>, r: Rumor)
    requires Inv(ed, s) && r in Served(s, domains)
    ensures Leased(s, r.domain) && r == s.registrations[r.domain].rumor.value && IsAuthorized(ed, r)
  {
    ServedIff(s, domains, r);
    assert Coupled(ed, r.domain, s.registrations[r.domain]);
  }

  /** Exactly the leases that the asking node wants and the announcing node has. */
  ghost predicate WantedLeases(rumors: seq<Rumor>, theirs: Store, mine: Store, entries: seq<DigestEntry>) {
    forall r :: r in rumors <==>
      exists e :: e in entries && Wants(mine, e) && Leased(theirs, e.domain)
                  && r == theirs.registrations[e.domain].rumor.value
  }

  lemma ServedAreWanted(ed: Ed25519, theirs: Store, mine: Store, entries: seq<DigestEntry>)
    requires Inv(ed, theirs)
    ensures WantedLeases(Served(theirs, Missing(mine, entries)), theirs, mine, entries)
  {
    var missing := Missing(mine, entries);
    hide Inv, Missing, Served;
    forall r
      ensures r in Served(theirs, missing) <==>
              exists e :: e in entries && Wants(mine, e) && Leased(theirs, e.domain)
                          && r == theirs.registrations[e.domain].rumor.value
    {
      if r in Served(theirs, missing) {
        ServedIsAuthorized(ed, theirs, missing, r);
        ServedIff(theirs, missing, r);
        MissingIff(mine, entries, r.domain);
      }
      if e :| e in entries && Wants(mine, e) && Leased(theirs, e.domain) && r == theirs.registrations[e.domain].rumor.value {
        LeasedSaysItsName(ed, theirs, e.domain);
        MissingIff(mine, entries, e.domain);
        ServedIff(theirs, missing, r);
      }
    }
  }

  lemma LeasedSaysItsName(ed: Ed25519, s: Store, d: Domain)
    requires Inv(ed, s) && Leased(s, d)
    ensures s.registrations[d].rumor.value.domain == d && IsAuthorized(ed, s.registrations[d].rumor.value)
  {
    assert Coupled(ed, d, s.registrations[d]);
  }

  /** A request of distinct names, no more than a digest may hold, gets what is had on them. */
  lemma RequestIsServed(ed: Ed25519, m: Node, to: Address, domains: seq<Domain>, theirs: Challenge, challenge: Challenge,
                        clock: Instant, now: Millis, victim: Address)
    requires m.open.Keys == m.pending.Keys && Distinct(domains) && |domains| <= 4096
    ensures Receive(ed, m, to, Request(domains, theirs), challenge, clock, now, victim)
            == (m, Some(Rumors(Served(m.store, domains), ExpectedAnswer(theirs))))
  {
    hide Served, ExpectedAnswer;
  }

  lemma DigestIsAsked(ed: Ed25519, n: Node, from: Address, entries: seq<DigestEntry>, challenge: Challenge, clock: Instant,
                      now: Millis, victim: Address)
    requires n.open.Keys == n.pending.Keys && Distinct(EntryDomains(entries)) && |entries| <= 4096
    requires Missing(n.store, entries) != []
    ensures var missing := Missing(n.store, entries);
            Receive(ed, n, from, Digest(entries), challenge, clock, now, victim)
            == (Ask(n, from, missing, challenge, clock, victim), Some(Request(missing, challenge)))
  {
    hide Missing, Ask, Distinct, Served, TakeRumors, ExpectedAnswer;
  }

  lemma AnswerIsTaken(ed: Ed25519, n: Node, from: Address, rumors: seq<Rumor>, answer: Token, spare: Challenge,
                      clock: Instant, now: Millis, victim: Address)
    requires n.open.Keys == n.pending.Keys && Distinct(RumorDomains(rumors)) && |rumors| <= 4096
    ensures Receive(ed, n, from, Rumors(rumors, answer), spare, clock, now, victim)
            == (TakeRumors(ed, n, from, rumors, answer, now), None)
  {
    hide TakeRumors;
  }

  lemma AuthorizedAndLive(ed: Ed25519, r: Rumor, now: Millis)
    requires IsAuthorized(ed, r) && now <= r.probedAt + 60_000
    ensures InForce(ed, r, now)
  {
    hide IsAuthorized;
  }

  /** Between two honest nodes of at most 4096 registrations each message of a round is answered by the
      other node's own handler and passes every check there: the announcing node replies with the one
      right answer to the challenge, and with exactly the leases, of names that the asking node lacked or
      knew under an earlier token, that it holds; the asking node takes them in, and each one that is
      still live is in force. */
  lemma HonestRoundCompletes(ed: Ed25519, n: Node, m: Node, from: Address, to: Address, entries: seq<DigestEntry>,
                             challenge: Challenge, spare: Challenge, clock: Instant, later: Instant, now: Millis,
                             victim: Address)
    requires Inv(ed, m.store) && Announces(entries, m.store) && |m.store.registrations| <= MAX_DIGEST_ENTRIES
    requires n.open.Keys == n.pending.Keys && m.open.Keys == m.pending.Keys && Missing(n.store, entries) != []
    ensures
      var (asked, request) := Receive(ed, n, from, Digest(entries), challenge, clock, now, victim);
      && request.Some? && from in asked.open
      && var (served, reply) := Receive(ed, m, to, request.value, spare, clock, now, victim);
         && served == m && reply.Some? && reply.value.Rumors?
         && IsRightAnswer(challenge, reply.value.answer)
         && WantedLeases(reply.value.rumors, m.store, n.store, entries)
         && (forall r | r in reply.value.rumors && now <= r.probedAt + 60_000 :: InForce(ed, r, now))
         && var done := Receive(ed, asked, from, reply.value, spare, later, now, victim).0;
            && done.store == AdoptAll(ed, n.store, reply.value.rumors, now)
            && done.log == n.log + [Asked(from, Missing(n.store, entries), challenge)]
                           + [Answered(|n.log|, from, reply.value.answer)]
                           + AdoptedLog(|n.log|, from, reply.value.rumors)
  {
    var missing := Missing(n.store, entries);
    var rumors := Served(m.store, missing);
    DigestWellFormed(m.store, entries);
    MissingDistinct(n.store, entries) by { AnnouncesDistinct(entries, m.store); }
    ServedDistinct(m.store, missing);
    hide Inv, Announces, Missing, Served, ExpectedAnswer, IsRightAnswer, WantedLeases, IsAuthorized, Ask, TakeRumors, Leased;
    ServedAreWanted(ed, m.store, n.store, entries);
    ChallengeHasOneAnswer(challenge, ExpectedAnswer(challenge));
    forall r | r in rumors
      ensures r.domain in missing && IsAuthorized(ed, r)
    {
      ServedIff(m.store, missing, r);
      ServedIsAuthorized(ed, m.store, missing, r);
    }
    forall r | r in rumors && now <= r.probedAt + 60_000
      ensures InForce(ed, r, now)
    {
      AuthorizedAndLive(ed, r, now);
    }
    RoundTaken(ed, n, from, missing, rumors, challenge, clock, now, victim);
    var asked := Ask(n, from, missing, challenge, clock, victim);
    assert |missing| <= 4096 && |rumors| <= 4096 by { EntriesAreFew(m.store, entries); }
    assert asked.open.Keys == asked.pending.Keys by { AskedIsOpen(n, from, missing, challenge, clock, victim); }
    DigestIsAsked(ed, n, from, entries, challenge, clock, now, victim);
    RequestIsServed(ed, m, to, missing, challenge, spare, clock, now, victim);
    hide Receive, Distinct, InForce;
    AnswerIsTaken(ed, asked, from, rumors, ExpectedAnswer(challenge), spare, later, now, victim);
  }

  lemma AskedIsOpen(n: Node, from: Address, missing: seq<Domain>, challenge: Challenge, clock: Instant, victim: Address)
    requires n.open.Keys == n.pending.Keys
    ensures var asked := Ask(n, from, missing, challenge, clock, victim); asked.open.Keys == asked.pending.Keys
  {
  }

  lemma EntriesAreFew(s: Store, entries: seq<DigestEntry>)
    requires Announces(entries, s) && |s.registrations| <= MAX_DIGEST_ENTRIES
    ensures |entries| <= 4096
  {
    DigestWellFormed(s, entries);
  }

  lemma AnnouncesDistinct(entries: seq<DigestEntry>, t: Store)
    requires Announces(entries, t)
    ensures Distinct(EntryDomains(entries))
  {
  }

  /** More than 4096 entries, or two of one name. */
  ghost predicate Excessive(domains: seq<Domain>) {
    |domains| > 4096 || exists i, j :: 0 <= i < j < |domains| && domains[i] == domains[j]
  }

  function NamesIn(message: GossipMessage): seq<Domain> {
    match message
    case Digest(entries) => EntryDomains(entries)
    case Request(domains, _) => domains
    case Rumors(rumors, _) => RumorDomains(rumors)
  }

  /** An excessive message does nothing and gets no reply; and whatever message comes from whomever, a
      reply to it is not excessive. */
  lemma NoExcess(ed: Ed25519, n: Node, from: Address, message: GossipMessage, challenge: Challenge, clock: Instant,
                 now: Millis, victim: Address)
    requires n.open.Keys == n.pending.Keys
    ensures var (after, reply) := Receive(ed, n, from, message, challenge, clock, now, victim);
            && (Excessive(NamesIn(message)) ==> after == n && reply == None)
            && (reply.Some? ==> !Excessive(NamesIn(reply.value)))
            && (reply.Some? ==>
                  (message.Digest? && reply.value.Request?) || (message.Request? && reply.value.Rumors?))
  {
    hide Missing, Served, AdoptAll, Ask, TakeRumors, ExpectedAnswer;
    if IsWellFormed(message) {
      match message
      case Digest(entries) => MissingDistinct(n.store, entries);
      case Request(domains, _) => ServedDistinct(n.store, domains);
      case Rumors(_, _) =>
    }
  }

  lemma RoundTaken(ed: Ed25519, n: Node, from: Address, missing: seq<Domain>, rumors: seq<Rumor>,
                   challenge: Challenge, clock: Instant, now: Millis, victim: Address)
    requires n.open.Keys == n.pending.Keys && IsValidRumorResponse(missing, rumors)
    ensures var asked := Ask(n, from, missing, challenge, clock, victim);
            && from in asked.open
            && var done := TakeRumors(ed, asked, from, rumors, ExpectedAnswer(challenge), now);
               && done.store == AdoptAll(ed, n.store, rumors, now)
               && done.log == n.log + [Asked(from, missing, challenge), Answered(|n.log|, from,
                   ExpectedAnswer(challenge))]
                              + AdoptedLog(|n.log|, from, rumors)
  {
    var two := [Asked(from, missing, challenge), Answered(|n.log|, from, ExpectedAnswer(challenge))];
    assert n.log + [two[0]] + [two[1]] == n.log + two;
  }

  // ---------------------------------------------------------------- what becomes of a lease once taken

  /** An accepted lease is among its host's claims afterwards unless five of those come before it. */
  lemma AcceptedIsKeptUnlessOutranked(ed: Ed25519, s: Store, r: Rumor, now: Millis)
    requires InForce(ed, r, now)
    ensures var h := QuotaKey(r.rdns);
            var t := AdoptRumor(ed, s, r, now);
            && h in t.claims
            && (Get(t.claims[h], r.domain) == Some(r) <==> |AheadOf(t.claims[h], r)| < MAX_REGISTRATIONS)
  {
    var filed := Filing(s, r);
    var standing := Standing(ed, filed.claims[QuotaKey(r.rdns)], now);
    assert Get(standing, r.domain) == Some(r);
    KeptUnlessOutranked(standing, r);
    assert AdoptRumor(ed, s, r, now) == Reconcile(ed, filed, QuotaKey(r.rdns), now);
  }
}

module GossipNodes {
  import opened Outcomes
  import opened Tokens
  import opened Identity
  import opened Registry
  import opened Gossip
  import opened RegistryStores

  class GossipNode {
    const store: RegistryStore
    var pending: map<Address, Pending>
    ghost var log: seq<LogEntry>
    ghost var open: map<Address, nat>

    ghost function State(): Node
      reads this, store, store.liveness
    {
      Node(store.State(), pending, log, open)
    }

    ghost predicate Valid()
      reads this, store
    {
      store.Valid() && open.Keys == pending.Keys
    }

    constructor (store: RegistryStore)
      requires store.Valid()
      ensures Valid() && this.store == store && State() == Start(store.State())
    {
      this.store := store;
      pending, log, open := map[], [], map[];
    }

    static method CheckWellFormed(message: GossipMessage) returns (ok: bool)
      ensures ok <==> IsWellFormed(message)
    {
      match message {
        case Digest(entries) =>
          var unique := UniqueDomains(EntryDomains(entries));
          ok := |entries| <= MAX_DIGEST_ENTRIES && unique;
        case Request(domains, _) =>
          var unique := UniqueDomains(domains);
          ok := |domains| <= MAX_REQUEST_ENTRIES && unique;
        case Rumors(rumors, _) =>
          var unique := UniqueDomains(RumorDomains(rumors));
          ok := |rumors| <= MAX_DIGEST_ENTRIES && unique;
      }
    }

    static method CheckRumorResponse(requested: seq<Domain>, rumors: seq<Rumor>) returns (ok: bool)
      ensures ok <==> IsValidRumorResponse(requested, rumors)
    {
      for i := 0 to |rumors|
        invariant forall j | 0 <= j < i :: rumors[j].domain in requested
      {
        if rumors[i].domain !in requested {
          assert rumors[i] in rumors;
          return false;
        }
      }
      ok := UniqueDomains(RumorDomains(rumors));
    }

    /** Makes room when the table is full, by dropping its oldest entry. */
    method MakeRoom(from: Address) returns (ghost victim: Address)
      requires Valid()
      modifies this
      ensures Valid() && log == old(log)
      ensures var full := MustEvict(old(State()), from);
              && (full ==> IsOldest(old(pending), victim))
              && pending == (if full then old(pending) - {victim} else old(pending))
              && open == (if full then old(open) - {victim} else old(open))
    {
      victim := from;
      if from !in pending && |pending| >= MAX_PENDING_CHALLENGES {
        assert pending.Keys != {} by { assert |pending.Keys| == |pending|; }
        var oldest :| oldest in pending;
        var rest := pending.Keys - {oldest};
        while rest != {}
          invariant oldest in pending && rest <= pending.Keys
          invariant forall b | b in pending && b !in rest :: pending[oldest].issuedAt <= pending[b].issuedAt
        {
          var b :| b in rest;
          rest := rest - {b};
          if pending[b].issuedAt < pending[oldest].issuedAt {
            oldest := b;
          }
        }
        pending := pending - {oldest};
        open := open - {oldest};
        victim := oldest;
      }
    }

    /** The names in a digest that are unknown here, or known under an earlier token. */
    method FindMissing(entries: seq<DigestEntry>) returns (missing: seq<Domain>)
      ensures missing == Missing(store.State(), entries)
    {
      missing := [];
      for i := 0 to |entries|
        invariant missing == Missing(store.State(), entries[..i])
      {
        var e := entries[i];
        assert entries[..i + 1][..i] == entries[..i];
        if e.domain !in store.registrations || store.registrations[e.domain].token.issuedAt < e.issuedAt {
          missing := missing + [e.domain];
        }
      }
      assert entries[..|entries|] == entries;
    }

    method CollectServed(domains: seq<Domain>) returns (rumors: seq<Rumor>)
      ensures rumors == Served(store.State(), domains)
    {
      rumors := [];
      for i := 0 to |domains|
        invariant rumors == Served(store.State(), domains[..i])
      {
        var d := domains[i];
        assert domains[..i + 1][..i] == domains[..i];
        if d in store.registrations && store.registrations[d].rumor.Some? {
          rumors := rumors + [store.registrations[d].rumor.value.(domain := d)];
        }
      }
      assert domains[..|domains|] == domains;
    }

    method AdoptRumors(rumors: seq<Rumor>, now: Millis)
      requires store.Valid()
      modifies store
      ensures store.Valid() && store.State() == AdoptAll(store.ed, old(store.State()), rumors, now)
    {
      for i := 0 to |rumors|
        invariant store.Valid() && store.State() == AdoptAll(store.ed, old(store.State()), rumors[..i], now)
      {
        var _ := store.Adopt(rumors[i], now);
        assert rumors[..i + 1][..i] == rumors[..i];
      }
      assert rumors[..|rumors|] == rumors;
    }

    method HandleDigest(from: Address, entries: seq<DigestEntry>, challenge: Challenge, clock: Instant)
      returns (reply: Option<GossipMessage>, ghost victim: Address)
      requires Valid()
      modifies this
      ensures Valid() && (MustEvict(old(State()), from) ==> IsOldest(old(pending), victim))
      ensures var missing := Missing(store.State(), entries);
              if missing == [] then State() == old(State()) && reply == None
              else State() == Ask(old(State()), from, missing, challenge, clock, victim)
                   && reply == Some(Request(missing, challenge))
    {
      var missing := FindMissing(entries);
      if missing == [] {
        reply := None;
        victim := from;
        if MustEvict(State(), from) {
          victim := OldestOf(pending);
        }
        return;
      }
      victim := MakeRoom(from);
      pending := pending[from := Pending(challenge, missing, clock)];
      open := open[from := |log|];
      log := log + [Asked(from, missing, challenge)];
      reply := Some(Request(missing, challenge));
    }

    static lemma OldestOf(pending: map<Address, Pending>) returns (a: Address)
      requires |pending| > 0
      ensures IsOldest(pending, a)
      decreases |pending|
    {
      assert pending.Keys != {} by { assert |pending.Keys| == |pending|; }
      var x :| x in pending;
      var rest := pending - {x};
      assert rest.Keys == pending.Keys - {x};
      if |rest| == 0 {
        assert rest.Keys == {};
        a := x;
      } else {
        var y := OldestOf(rest);
        a := if pending[x].issuedAt <= pending[y].issuedAt then x else y;
        forall b | b in pending
          ensures pending[a].issuedAt <= pending[b].issuedAt
        {
          assert b == x || b in rest;
        }
      }
    }

    method HandleRumors(from: Address, rumors: seq<Rumor>, answer: Token, now: Millis)
      requires Valid()
      modifies this, store
      ensures Valid() && State() == TakeRumors(store.ed, old(State()), from, rumors, answer, now)
    {
      if from !in pending {
        return;
      }
      var request := pending[from];
      ghost var id := open[from];
      pending := pending - {from};
      open := open - {from};
      log := log + [Answered(id, from, answer)];
      if answer != ExpectedAnswer(request.challenge) {
        return;
      }
      var valid := CheckRumorResponse(request.requested, rumors);
      if !valid {
        return;
      }
      AdoptRumors(rumors, now);
      log := log + AdoptedLog(id, from, rumors);
    }

    /** One turn of the receiving loop, for a message that decoded. */
    method ReceiveMessage(from: Address, message: GossipMessage, challenge: Challenge, clock: Instant, now: Millis)
      returns (reply: Option<GossipMessage>, ghost victim: Address)
      requires Valid()
      modifies this, store
      ensures Valid() && (MustEvict(old(State()), from) ==> IsOldest(old(pending), victim))
      ensures (State(), reply) == Receive(store.ed, old(State()), from, message, challenge, clock, now, victim)
    {
      victim := from;
      if MustEvict(State(), from) {
        victim := OldestOf(pending);
      }
      reply := None;
      var ok := CheckWellFormed(message);
      if !ok {
        return;
      }
      match message {
        case Digest(entries) => reply, victim := HandleDigest(from, entries, challenge, clock);
        case Request(domains, theirs) =>
          var rumors := CollectServed(domains);
          reply := Some(Rumors(rumors, ExpectedAnswer(theirs)));
        case Rumors(rumors, answer) => HandleRumors(from, rumors, answer, now);
      }
    }

    method PruneChallenges(clock: Instant)
      requires Valid()
      modifies this
      ensures Valid() && State() == Prune(old(State()), clock)
    {
      pending := map a | a in pending && SaturatingSub(clock, pending[a].issuedAt) < PENDING_CHALLENGE_TIMEOUT
          :: pending[a];
      open := map a | a in open && a in pending :: open[a];
    }
  }
}
