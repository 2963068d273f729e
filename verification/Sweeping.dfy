/** What sweeps (`reclaim_stale`) do to one name at a time, and when the order in which the claim
    table is visited matters. */
module Sweeping {
  import opened Outcomes
  import opened Collision
  import opened Identity
  import opened Registry
  import opened FirstFiveClaims

  type Table = map<Host, Claims>

  /** Every host's claims, cut down at `now`. */
  function KeptTable(ed: Ed25519, claims: Table, now: Millis): Table {
    map h | h in claims :: Retained(ed, claims[h], now)
  }

  function ClaimOn(table: Table, h: Host, d: Domain): Option<Rumor> {
    if h in table then Get(table[h], d) else None
  }

  /** The registration of one name after the hosts of `order` have been reconciled in turn. */
  function SlotSweep(slot: Option<Registration>, table: Table, order: seq<Host>, d: Domain): Option<Registration> {
    if order == [] then slot
    else
      var h := order[|order| - 1];
      SlotAfter(SlotSweep(slot, table, order[..|order| - 1], d), ClaimOn(table, h, d), h)
  }

  // ---------------------------------------------------------------- a store swept name by name

  lemma ReconcileAt(ed: Ed25519, s: Store, host: Host, now: Millis, d: Domain)
    requires host in s.claims
    ensures Get(Reconcile(ed, s, host, now).registrations, d)
            == SlotAfter(Get(s.registrations, d), Get(Retained(ed, s.claims[host], now), d), host)
  {
  }

  lemma {:induction false} ReconcileAllClaims(ed: Ed25519, s: Store, order: seq<Host>, now: Millis)
    requires forall h | h in order :: h in s.claims
    ensures var t := ReconcileAll(ed, s, order, now);
            && t.claims.Keys == s.claims.Keys
            && (forall h | h in s.claims :: t.claims[h] == if h in order then Retained(ed, s.claims[h], now)
                else s.claims[h])
            && t == s.(claims := t.claims, registrations := t.registrations)
  {
    hide Retained, ReconcileRegistrations;
    if order != [] {
      var init, last := order[..|order| - 1], order[|order| - 1];
      ReconcileAllClaims(ed, s, init, now);
      RetainedIdempotent(ed, s.claims[last], now);
      assert order == init + [last];
    }
  }

  /** Sweeping the table sweeps each name on its own. */
  lemma {:induction false} ReconcileAllAt(ed: Ed25519, s: Store, order: seq<Host>, now: Millis, d: Domain)
    requires forall h | h in order :: h in s.claims
    ensures Get(ReconcileAll(ed, s, order, now).registrations, d)
            == SlotSweep(Get(s.registrations, d), KeptTable(ed, s.claims, now), order, d)
  {
    if order != [] {
      var init, last := order[..|order| - 1], order[|order| - 1];
      ReconcileAllAt(ed, s, init, now, d);
      ReconcileAllClaims(ed, s, init, now);
      var t := ReconcileAll(ed, s, init, now);
      RetainedIdempotent(ed, s.claims[last], now);
      assert Retained(ed, t.claims[last], now) == KeptTable(ed, s.claims, now)[last];
      ReconcileAt(ed, t, last, now, d);
    }
  }

  lemma SweepClaims(ed: Ed25519, s: Store, order: seq<Host>, now: Millis)
    requires Enumerates(order, s.claims.Keys)
    ensures Sweep(ed, s, order, now).claims == KeptTable(ed, s.claims, now)
    ensures KeptTable(ed, KeptTable(ed, s.claims, now), now) == KeptTable(ed, s.claims, now)
    ensures Sweep(ed, s, order, now)
            == ExpireHosts(s, now).(claims := KeptTable(ed, s.claims, now),
                                    registrations := Sweep(ed, s, order, now).registrations)
  {
    ReconcileAllClaims(ed, ExpireHosts(s, now), order, now);
    var table := KeptTable(ed, s.claims, now);
    assert Sweep(ed, s, order, now).claims == table;
    forall h | h in s.claims
      ensures Retained(ed, table[h], now) == table[h]
    {
      RetainedIdempotent(ed, s.claims[h], now);
    }
  }

  lemma SweepAt(ed: Ed25519, s: Store, order: seq<Host>, now: Millis, d: Domain)
    requires Enumerates(order, s.claims.Keys)
    ensures Get(Sweep(ed, s, order, now).registrations, d)
            == SlotSweep(Get(ExpireHosts(s, now).registrations, d), KeptTable(ed, s.claims, now), order, d)
  {
    ReconcileAllAt(ed, ExpireHosts(s, now), order, now, d);
  }

  lemma SameSlotsSameMap<K(!new), V>(a: map<K, V>, b: map<K, V>)
    requires forall k :: Get(a, k) == Get(b, k)
    ensures a == b
  {
    forall k
      ensures k in a <==> k in b
      ensures k in a ==> a[k] == b[k]
    {
      assert Get(a, k) == Get(b, k);
    }
  }

  // ---------------------------------------------------------------- contests

  predicate Contends(table: Table, d: Domain, h: Host) {
    h in table && d in table[h]
  }

  function Holding(table: Table, d: Domain, h: Host): Option<Registration>
    requires Contends(table, d, h)
  {
    Some(FromRumor(table[h][d], h))
  }

  /** The contestant whom no other contestant's reconciliation displaces. */
  ghost predicate Prevails(table: Table, d: Domain, c: Host) {
    && Contends(table, d, c)
    && forall h | Contends(table, d, h) && h != c :: Withstands(table[c][d].token, table[h][d].token)
  }

  /** The name is uncontested, or somebody prevails. */
  ghost predicate Decided(table: Table, d: Domain) {
    (exists c :: Prevails(table, d, c)) || (forall h :: !Contends(table, d, h))
  }

  /** The name is free or registered to a contestant under its own claim. */
  ghost predicate Settled(slot: Option<Registration>, table: Table, d: Domain) {
    slot.None? || exists h :: Contends(table, d, h) && slot == Holding(table, d, h)
  }

  lemma PrevailsOverBoth(table: Table, d: Domain, c: Host, h: Host)
    requires Prevails(table, d, c) && Contends(table, d, h) && h != c
    ensures Withstands(table[c][d].token, table[h][d].token)
    ensures !Withstands(table[h][d].token, table[c][d].token)
  {
    NegotiateIsSymmetric(table[c][d].token, table[h][d].token);
  }

  lemma PrevailsIsUnique(table: Table, d: Domain, b: Host, c: Host)
    requires Prevails(table, d, b) && Prevails(table, d, c)
    ensures b == c
  {
    if b != c {
      PrevailsOverBoth(table, d, b, c);
    }
  }

  lemma SettledStep(slot: Option<Registration>, table: Table, d: Domain, h: Host)
    requires Settled(slot, table, d)
    ensures Settled(SlotAfter(slot, ClaimOn(table, h, d), h), table, d)
    ensures Contends(table, d, h) ==> SlotAfter(slot, ClaimOn(table, h, d), h).Some?
  {
    if Contends(table, d, h) {
      assert Holding(table, d, h).Some?;
    }
  }

  lemma {:induction false} SettledSweep(slot: Option<Registration>, table: Table, order: seq<Host>, d: Domain)
    requires Settled(slot, table, d)
    ensures Settled(SlotSweep(slot, table, order, d), table, d)
  {
    if order != [] {
      var init, last := order[..|order| - 1], order[|order| - 1];
      SettledSweep(slot, table, init, d);
      SettledStep(SlotSweep(slot, table, init, d), table, d, last);
    }
  }

  /** A settled slot ends with the prevailing contestant once its turn has come. */
  lemma {:induction false} PrevailingWins(slot: Option<Registration>, table: Table, order: seq<Host>, d: Domain,
                                          c: Host)
    requires Settled(slot, table, d) && Prevails(table, d, c) && c in order
    ensures SlotSweep(slot, table, order, d) == Holding(table, d, c)
  {
    var init, last := order[..|order| - 1], order[|order| - 1];
    var before := SlotSweep(slot, table, init, d);
    assert order == init + [last];
    if last == c {
      SettledSweep(slot, table, init, d);
      if before.Some? {
        var g :| Contends(table, d, g) && before == Holding(table, d, g);
        if g != c {
          PrevailsOverBoth(table, d, c, g);
        }
      }
    } else {
      PrevailingWins(slot, table, init, d, c);
      if Contends(table, d, last) {
        PrevailsOverBoth(table, d, c, last);
      }
    }
  }

  // ---------------------------------------------------------------- one sweep from any slot

  /** No reconciliation of a host in the table clears this registration away. */
  predicate Sticky(slot: Option<Registration>, table: Table) {
    slot.Some? && !(slot.value.host in table && slot.value.rumor.Some?)
  }

  /** A registration outside the claim table that every contestant leaves in place. */
  ghost predicate Entrenched(slot: Option<Registration>, table: Table, d: Domain) {
    Sticky(slot, table) && forall h | Contends(table, d, h) :: Withstands(slot.value.token, table[h][d].token)
  }

  lemma {:induction false} EntrenchedStays(slot: Option<Registration>, table: Table, order: seq<Host>, d: Domain)
    requires Entrenched(slot, table, d) && forall h | h in order :: h in table
    ensures SlotSweep(slot, table, order, d) == slot
  {
    if order != [] {
      EntrenchedStays(slot, table, order[..|order| - 1], d);
      var last := order[|order| - 1];
      assert Contends(table, d, last) ==> Withstands(slot.value.token, table[last][d].token);
    }
  }

  /** Until it is replaced, the slot is what it was; afterwards it is settled. */
  lemma {:induction false} SweepSettlesOrKeeps(slot: Option<Registration>, table: Table, order: seq<Host>, d: Domain)
    ensures var after := SlotSweep(slot, table, order, d);
            Settled(after, table, d)
            || (&& after == slot
                && (forall h | h in order :: !BackedBy(slot, h))
                && (forall h | h in order && Contends(table, d, h) && slot.Some?
                      :: Withstands(slot.value.token, table[h][d].token)))
  {
    if order != [] {
      var init, last := order[..|order| - 1], order[|order| - 1];
      assert order == init + [last];
      SweepSettlesOrKeeps(slot, table, init, d);
      var before := SlotSweep(slot, table, init, d);
      if Settled(before, table, d) {
        SettledStep(before, table, d, last);
      } else if Contends(table, d, last) {
        assert Holding(table, d, last).Some?;
      }
    }
  }

  lemma OneSweep(slot: Option<Registration>, table: Table, order: seq<Host>, d: Domain)
    requires Enumerates(order, table.Keys) && !Entrenched(slot, table, d)
    ensures Settled(SlotSweep(slot, table, order, d), table, d)
  {
    SweepSettlesOrKeeps(slot, table, order, d);
    if slot.Some? && !Sticky(slot, table) {
      assert slot.value.host in order && BackedBy(slot, slot.value.host);
    } else if Sticky(slot, table) {
      var h :| Contends(table, d, h) && !Withstands(slot.value.token, table[h][d].token);
      assert h in order;
    }
  }

  // ---------------------------------------------------------------- two sweeps

  /** Where two sweeps take a name, without reference to any order. */
  ghost predicate Rests(start: Option<Registration>, table: Table, d: Domain, end: Option<Registration>) {
    if Entrenched(start, table, d) then end == start
    else (forall c | Prevails(table, d, c) :: end == Holding(table, d, c))
         && ((forall h :: !Contends(table, d, h)) ==> end.None?)
  }

  lemma RestIsUnique(start: Option<Registration>, table: Table, d: Domain, x: Option<Registration>,
                     y: Option<Registration>)
    requires Decided(table, d) && Rests(start, table, d, x) && Rests(start, table, d, y)
    ensures x == y
  {
  }

  lemma TwoSweeps(slot: Option<Registration>, table: Table, first: seq<Host>, second: seq<Host>, d: Domain)
    requires Enumerates(first, table.Keys) && Enumerates(second, table.Keys) && Decided(table, d)
    ensures Rests(slot, table, d, SlotSweep(SlotSweep(slot, table, first, d), table, second, d))
  {
    if Entrenched(slot, table, d) {
      EntrenchedStays(slot, table, first, d);
      EntrenchedStays(slot, table, second, d);
    } else {
      OneSweep(slot, table, first, d);
      var mid := SlotSweep(slot, table, first, d);
      SettledSweep(mid, table, second, d);
      forall c | Prevails(table, d, c)
        ensures SlotSweep(mid, table, second, d) == Holding(table, d, c)
      {
        PrevailingWins(mid, table, second, d, c);
      }
    }
  }

  lemma RestStays(start: Option<Registration>, table: Table, order: seq<Host>, d: Domain, end: Option<Registration>)
    requires Enumerates(order, table.Keys) && Decided(table, d) && Rests(start, table, d, end)
    ensures SlotSweep(end, table, order, d) == end
  {
    if Entrenched(start, table, d) {
      EntrenchedStays(start, table, order, d);
    } else if c :| Prevails(table, d, c) {
      assert Settled(end, table, d);
      PrevailingWins(end, table, order, d, c);
    } else {
      assert Settled(end, table, d);
      SettledSweep(end, table, order, d);
    }
  }

  /** Every name is uncontested at `now`, or one contestant prevails on it. */
  ghost predicate AllDecided(ed: Ed25519, s: Store, now: Millis) {
    forall d :: Decided(KeptTable(ed, s.claims, now), d)
  }

  lemma NothingExpiresTwice(ed: Ed25519, s: Store, order: seq<Host>, now: Millis)
    requires Enumerates(order, s.claims.Keys)
    ensures ExpireHosts(Sweep(ed, s, order, now), now) == Sweep(ed, s, order, now)
  {
    SweepClaims(ed, s, order, now);
    var t := Sweep(ed, s, order, now);
    assert Expired(t, now) == {};
    assert ExpireHosts(t, now).registrations == t.registrations;
    assert t.lastSeen - {} == t.lastSeen && t.counts - {} == t.counts;
  }

  lemma TwiceSweptAt(ed: Ed25519, s: Store, now: Millis, a: seq<Host>, b: seq<Host>, d: Domain)
    requires Enumerates(a, s.claims.Keys) && Enumerates(b, s.claims.Keys)
    ensures var table := KeptTable(ed, s.claims, now);
            Get(Sweep(ed, Sweep(ed, s, a, now), b, now).registrations, d)
            == SlotSweep(SlotSweep(Get(ExpireHosts(s, now).registrations, d), table, a, d), table, b, d)
  {
    SweepClaims(ed, s, a, now);
    SweepAt(ed, s, a, now, d);
    SweepAt(ed, Sweep(ed, s, a, now), b, now, d);
    NothingExpiresTwice(ed, s, a, now);
  }

  lemma TwiceSweptAgrees(ed: Ed25519, s: Store, now: Millis, a: seq<Host>, b: seq<Host>, c: seq<Host>, e: seq<Host>)
    requires Enumerates(a, s.claims.Keys) && Enumerates(b, s.claims.Keys)
    requires Enumerates(c, s.claims.Keys) && Enumerates(e, s.claims.Keys)
    requires AllDecided(ed, s, now)
    ensures Sweep(ed, Sweep(ed, s, a, now), b, now) == Sweep(ed, Sweep(ed, s, c, now), e, now)
  {
    var table := KeptTable(ed, s.claims, now);
    var x, y := Sweep(ed, Sweep(ed, s, a, now), b, now), Sweep(ed, Sweep(ed, s, c, now), e, now);
    forall d
      ensures Get(x.registrations, d) == Get(y.registrations, d)
    {
      var slot := Get(ExpireHosts(s, now).registrations, d);
      TwiceSweptAt(ed, s, now, a, b, d);
      TwiceSweptAt(ed, s, now, c, e, d);
      TwoSweeps(slot, table, a, b, d);
      TwoSweeps(slot, table, c, e, d);
      RestIsUnique(slot, table, d, Get(x.registrations, d), Get(y.registrations, d));
    }
    SameSlotsSameMap(x.registrations, y.registrations);
    TwiceSweptRest(ed, s, now, a, b);
    TwiceSweptRest(ed, s, now, c, e);
  }

  lemma TwiceSweptRest(ed: Ed25519, s: Store, now: Millis, a: seq<Host>, b: seq<Host>)
    requires Enumerates(a, s.claims.Keys) && Enumerates(b, s.claims.Keys)
    ensures var t := Sweep(ed, Sweep(ed, s, a, now), b, now);
            t == ExpireHosts(s, now).(claims := KeptTable(ed, s.claims, now), registrations := t.registrations)
  {
    SweepClaims(ed, s, a, now);
    SweepClaims(ed, Sweep(ed, s, a, now), b, now);
    NothingExpiresTwice(ed, s, a, now);
  }

  /** Two sweeps at one instant, over any table and in any orders, reach the same store, and no
      further sweep at that instant changes it, provided every contested name has a prevailing
      contestant. Leases and hosts may expire at that instant, and registrations that carry no
      lease may stand in the way. */
  lemma SweepFixedPoint(ed: Ed25519, s: Store, now: Millis,
                        a: seq<Host>, b: seq<Host>, c: seq<Host>, e: seq<Host>, more: seq<Host>)
    requires Enumerates(a, s.claims.Keys) && Enumerates(b, s.claims.Keys)
    requires Enumerates(c, s.claims.Keys) && Enumerates(e, s.claims.Keys) && Enumerates(more, s.claims.Keys)
    requires AllDecided(ed, s, now)
    ensures Sweep(ed, Sweep(ed, s, a, now), b, now) == Sweep(ed, Sweep(ed, s, c, now), e, now)
    ensures var t := Sweep(ed, Sweep(ed, s, a, now), b, now); Sweep(ed, t, more, now) == t
  {
    TwiceSweptAgrees(ed, s, now, a, b, c, e);
    var u := Sweep(ed, s, a, now);
    var t := Sweep(ed, u, b, now);
    SweepClaims(ed, s, a, now);
    SweepClaims(ed, u, b, now);
    SweepClaims(ed, t, more, now);
    NothingExpiresTwice(ed, u, b, now);
    var table := KeptTable(ed, s.claims, now);
    forall d
      ensures Get(Sweep(ed, t, more, now).registrations, d) == Get(t.registrations, d)
    {
      var slot := Get(ExpireHosts(s, now).registrations, d);
      TwiceSweptAt(ed, s, now, a, b, d);
      TwoSweeps(slot, table, a, b, d);
      SweepAt(ed, t, more, now, d);
      RestStays(slot, table, more, d, Get(t.registrations, d));
    }
    SameSlotsSameMap(Sweep(ed, t, more, now).registrations, t.registrations);
  }

  // ---------------------------------------------------------------- when the order matters

  ghost predicate OrderIrrelevant(slot: Option<Registration>, table: Table, d: Domain) {
    forall a, b | Enumerates(a, table.Keys) && Enumerates(b, table.Keys)
      :: SlotSweep(slot, table, a, d) == SlotSweep(slot, table, b, d)
  }

  lemma MovedToEnd(order: seq<Host>, keys: set<Host>, x: Host) returns (moved: seq<Host>)
    requires Enumerates(order, keys) && x in keys
    ensures Enumerates(moved, keys) && moved != [] && moved[|moved| - 1] == x
  {
    var i :| 0 <= i < |order| && order[i] == x;
    moved := order[..i] + order[i + 1..] + [x];
    forall k
      ensures k in moved <==> k in keys
    {
      if k in order && k != x {
        var j :| 0 <= j < |order| && order[j] == k;
        assert k == if j < i then moved[j] else moved[j - 1];
      }
    }
  }

  /** For a name that is settled, the visiting order is irrelevant exactly when the name is
      uncontested or one contestant withstands all the others. */
  lemma OrderIrrelevantIffDecided(slot: Option<Registration>, table: Table, d: Domain, order: seq<Host>)
    requires Settled(slot, table, d) && Enumerates(order, table.Keys)
    ensures OrderIrrelevant(slot, table, d) <==> Decided(table, d)
  {
    if c :| Prevails(table, d, c) {
      forall a, b | Enumerates(a, table.Keys) && Enumerates(b, table.Keys)
        ensures SlotSweep(slot, table, a, d) == SlotSweep(slot, table, b, d)
      {
        PrevailingWins(slot, table, a, d, c);
        PrevailingWins(slot, table, b, d, c);
      }
    } else if forall h :: !Contends(table, d, h) {
      forall a, b | Enumerates(a, table.Keys) && Enumerates(b, table.Keys)
        ensures SlotSweep(slot, table, a, d) == SlotSweep(slot, table, b, d)
      {
        SettledSweep(slot, table, a, d);
        SettledSweep(slot, table, b, d);
      }
    } else {
      var g :| Contends(table, d, g);
      var o := MovedToEnd(order, table.Keys, g);
      var z := LastContestantLeavesAHolder(slot, table, o, d, g);
      assert !Prevails(table, d, z);
      var x :| Contends(table, d, x) && x != z && !Withstands(table[z][d].token, table[x][d].token);
      var p := MovedToEnd(order, table.Keys, x);
      var y := LastContestantLeavesAHolder(slot, table, p, d, x);
      assert SlotSweep(slot, table, o, d) != SlotSweep(slot, table, p, d);
    }
  }

  lemma LastContestantLeavesAHolder(slot: Option<Registration>, table: Table, order: seq<Host>, d: Domain, x: Host)
    returns (y: Host)
    requires Settled(slot, table, d) && Contends(table, d, x) && order != [] && order[|order| - 1] == x
    ensures Contends(table, d, y) && SlotSweep(slot, table, order, d) == Holding(table, d, y)
    ensures y == x || Withstands(table[y][d].token, table[x][d].token)
  {
    var init := order[..|order| - 1];
    SettledSweep(slot, table, init, d);
    var before := SlotSweep(slot, table, init, d);
    SettledStep(before, table, d, x);
    y :| Contends(table, d, y) && SlotSweep(slot, table, order, d) == Holding(table, d, y);
  }

  /** For contestants holding different tokens, somebody prevails exactly when the tokens' parities
      change at most once in token order. */
  lemma PrevailsIffParity(table: Table, d: Domain)
    requires forall g, h | Contends(table, d, g) && Contends(table, d, h) && g != h
        :: table[g][d].token != table[h][d].token
    requires exists h :: Contends(table, d, h)
    ensures (exists c :: Prevails(table, d, c))
            <==> ParityChangesAtMostOnce(set h | h in table && d in table[h] :: table[h][d].token)
  {
    var tokens := set h | h in table && d in table[h] :: table[h][d].token;
    var h0 :| Contends(table, d, h0);
    assert table[h0][d].token in tokens;
    ChampionIffParityChangesAtMostOnce(tokens);
    if c :| Prevails(table, d, c) {
      forall t | t in tokens && t != table[c][d].token
        ensures Withstands(table[c][d].token, t)
      {
        var h :| h in table && d in table[h] && table[h][d].token == t;
        assert Contends(table, d, h);
      }
      assert Champion(tokens, table[c][d].token);
    }
    if HasChampion(tokens) {
      var w :| Champion(tokens, w);
      var c :| c in table && d in table[c] && table[c][d].token == w;
      forall h | Contends(table, d, h) && h != c
        ensures Withstands(table[c][d].token, table[h][d].token)
      {
        assert Contends(table, d, c);
        assert table[h][d].token in tokens;
      }
      assert Prevails(table, d, c);
    }
  }

  /** Two hosts contesting a name under different tokens always leave it decided. */
  lemma TwoContestantsDecide(table: Table, d: Domain, g: Host, h: Host)
    requires Contends(table, d, g) && Contends(table, d, h) && table[g][d].token != table[h][d].token
    requires forall k | Contends(table, d, k) :: k == g || k == h
    ensures Decided(table, d)
  {
    NegotiateIsSymmetric(table[g][d].token, table[h][d].token);
    assert Prevails(table, d, g) || Prevails(table, d, h);
  }
}
