/** The five claims a host keeps: cutting down incrementally gives what cutting down once would. */
module FirstFiveClaims {
  import opened Bytes
  import opened Outcomes
  import opened Tokens
  import opened Identity
  import opened Registry

  // ---------------------------------------------------------------- the ranking is a total order

  lemma OutranksIsTotal(c: Claims, d: Domain, e: Domain)
    requires d in c && e in c
    ensures d != e ==> (Outranks(c, d, e) <==> !Outranks(c, e, d))
    ensures !Outranks(c, d, d)
  {
    var x, y := OrderingKey(c[d].token), OrderingKey(c[e].token);
    LexIrreflexive(x);
    LexIrreflexive(d);
    LexTotal(x, y);
    LexTotal(d, e);
    if LexLess(x, y) && LexLess(y, x) { LexTransitive(x, y, x); }
    if LexLess(d, e) && LexLess(e, d) { LexTransitive(d, e, d); }
  }

  lemma OutranksIsTransitive(c: Claims, d: Domain, e: Domain, f: Domain)
    requires d in c && e in c && f in c && Outranks(c, d, e) && Outranks(c, e, f)
    ensures Outranks(c, d, f)
  {
    var x, y, z := OrderingKey(c[d].token), OrderingKey(c[e].token), OrderingKey(c[f].token);
    if LexLess(x, y) && LexLess(y, z) { LexTransitive(x, y, z); }
    if LexLess(d, e) && LexLess(e, f) { LexTransitive(d, e, f); }
  }

  ghost predicate Within(m: Claims, c: Claims) {
    forall d | d in m :: d in c && m[d] == c[d]
  }

  // ---------------------------------------------------------------- how many are kept

  lemma {:induction false} LastInRank(c: Claims, keys: set<Domain>) returns (z: Domain)
    requires keys != {} && keys <= c.Keys
    ensures z in keys && forall d | d in keys && d != z :: Outranks(c, d, z)
  {
    var x :| x in keys;
    if keys == {x} {
      z := x;
    } else {
      var rest := keys - {x};
      var y := LastInRank(c, rest);
      OutranksIsTotal(c, x, y);
      z := if Outranks(c, y, x) then x else y;
      forall d | d in keys && d != z
        ensures Outranks(c, d, z)
      {
        if z == x && d != y {
          OutranksIsTransitive(c, d, y, x);
        }
      }
    }
  }

  function Without(c: Claims, z: Domain): (rest: Claims)
    ensures rest.Keys == c.Keys - {z}
    ensures z in c ==> |rest| == |c| - 1
  {
    var rest := map d | d in c && d != z :: c[d];
    assert rest.Keys == c.Keys - {z};
    rest
  }

  lemma AheadWithoutLast(c: Claims, z: Domain, d: Domain)
    requires z in c && d in c && d != z && Outranks(c, d, z)
    ensures Ahead(c, d) == Ahead(Without(c, z), d)
  {
    OutranksIsTotal(c, d, z);
    forall e | e in Ahead(c, d)
      ensures e in Ahead(Without(c, z), d)
    {
      assert e != z;
    }
  }

  lemma AheadOfLast(c: Claims, z: Domain)
    requires z in c && forall d | d in c && d != z :: Outranks(c, d, z)
    ensures |Ahead(c, z)| == |c| - 1
  {
    OutranksIsTotal(c, z, z);
    assert Ahead(c, z) == Without(c, z).Keys;
  }

  lemma FirstFiveWithoutLast(c: Claims, z: Domain)
    requires z in c && forall d | d in c && d != z :: Outranks(c, d, z)
    ensures FirstFive(c).Keys
            == FirstFive(Without(c, z)).Keys + if |c| - 1 < MAX_REGISTRATIONS then {z} else {}
  {
    hide FirstFive, Outranks, Without;
    forall d
      ensures d in FirstFive(c) <==> d in FirstFive(Without(c, z)) || (d == z && |c| - 1 < MAX_REGISTRATIONS)
    {
      KeptWithoutLast(c, z, d);
    }
  }

  lemma KeptWithoutLast(c: Claims, z: Domain, d: Domain)
    requires z in c && forall e | e in c && e != z :: Outranks(c, e, z)
    ensures d in FirstFive(c) <==> d in FirstFive(Without(c, z)) || (d == z && |c| - 1 < MAX_REGISTRATIONS)
  {
    hide Ahead, Outranks;
    if d == z {
      AheadOfLast(c, z);
    } else if d in c {
      AheadWithoutLast(c, z, d);
    }
  }

  /** Exactly the five best are kept, or all of them when there are fewer. */
  lemma {:induction false} FirstFiveSize(c: Claims)
    ensures |FirstFive(c)| == if |c| < 5 then |c| else 5
    decreases |c|
  {
    if |c| > 0 {
      var z := LastInRank(c, c.Keys);
      FirstFiveSize(Without(c, z));
      FirstFiveWithoutLast(c, z);
      assert z !in FirstFive(Without(c, z)).Keys;
      assert |FirstFive(c)| == |FirstFive(c).Keys|;
    } else {
      assert FirstFive(c).Keys == {};
    }
  }

  // ---------------------------------------------------------------- cutting down twice

  lemma AheadShrinks(m: Claims, c: Claims, d: Domain)
    requires Within(m, c) && d in m
    ensures Ahead(m, d) <= Ahead(c, d) && |Ahead(m, d)| <= |Ahead(c, d)|
  {
    SubsetSize(Ahead(m, d), Ahead(c, d));
  }

  lemma {:induction false} SubsetSize<T>(a: set<T>, b: set<T>)
    requires a <= b
    ensures |a| <= |b|
  {
    if a != {} {
      var x :| x in a;
      SubsetSize(a - {x}, b - {x});
    }
  }

  /** A claim out of the first five has five of the first five ahead of it. */
  lemma FiveKeptAhead(c: Claims, d: Domain)
    requires d in c && |Ahead(c, d)| >= MAX_REGISTRATIONS
    ensures |FirstFive(c).Keys * Ahead(c, d)| >= MAX_REGISTRATIONS
  {
    var front: Claims := map e | e in Ahead(c, d) :: c[e];
    assert front.Keys == Ahead(c, d);
    FirstFiveSize(front);
    forall e | e in front
      ensures Ahead(front, e) == Ahead(c, e)
    {
      forall f | f in Ahead(c, e)
        ensures f in front
      {
        OutranksIsTransitive(c, f, e, d);
      }
    }
    assert FirstFive(front).Keys == FirstFive(c).Keys * Ahead(c, d);
  }

  /** Dropping claims outside the first five does not change the first five. */
  lemma FirstFiveOfSandwiched(m: Claims, c: Claims)
    requires Within(m, c) && FirstFive(c).Keys <= m.Keys
    ensures FirstFive(m) == FirstFive(c)
  {
    forall d | d in c
      ensures d in FirstFive(m) <==> d in FirstFive(c)
    {
      if d in m {
        AheadShrinks(m, c, d);
        if |Ahead(c, d)| >= MAX_REGISTRATIONS {
          FiveKeptAhead(c, d);
          SubsetSize(FirstFive(c).Keys * Ahead(c, d), Ahead(m, d));
        }
      }
    }
  }

  lemma FirstFiveIdempotent(c: Claims)
    ensures FirstFive(FirstFive(c)) == FirstFive(c)
  {
    FirstFiveOfSandwiched(FirstFive(c), c);
  }

  /** Adding one claim to the five kept so far keeps the five that adding it to all would. */
  lemma FirstFiveIncremental(c: Claims, d: Domain, r: Rumor)
    requires d in c ==> c[d] == r
    ensures FirstFive(FirstFive(c)[d := r]) == FirstFive(c[d := r])
  {
    var all := c[d := r];
    var some := FirstFive(c)[d := r];
    forall e | e in FirstFive(all)
      ensures e in some
    {
      if e != d {
        AheadShrinks(c, all, e);
      }
    }
    FirstFiveOfSandwiched(some, all);
  }

  /** The claims of a host that come before lease `r` in the sort order. */
  function AheadOf(c: Claims, r: Rumor): set<Domain> {
    var x := OrderingKey(r.token);
    set e | e in c && (LexLess(OrderingKey(c[e].token), x) || (OrderingKey(c[e].token) == x && LexLess(e, r.domain)))
  }

  lemma KeptUnlessOutranked(c: Claims, r: Rumor)
    requires Get(c, r.domain) == Some(r)
    ensures Get(FirstFive(c), r.domain) == Some(r) <==> |AheadOf(FirstFive(c), r)| < MAX_REGISTRATIONS
  {
    assert AheadOf(FirstFive(c), r) == FirstFive(c).Keys * Ahead(c, r.domain);
    if |Ahead(c, r.domain)| >= MAX_REGISTRATIONS {
      FiveKeptAhead(c, r.domain);
    } else {
      SubsetSize(AheadOf(FirstFive(c), r), Ahead(c, r.domain));
    }
  }

  // ---------------------------------------------------------------- one name's rank

  /** A claim on `d` under token `k` sorts before one on `e` under token `l`. */
  predicate ComesBefore(k: Token, d: Domain, l: Token, e: Domain) {
    var x, y := OrderingKey(k), OrderingKey(l);
    LexLess(x, y) || (x == y && LexLess(d, e))
  }

  /** A claim under an earlier token keeps its place before another. */
  lemma EarlierComesBefore(j: Token, k: Token, d: Domain, l: Token, e: Domain)
    requires !Precedes(k, j) && ComesBefore(k, d, l, e)
    ensures ComesBefore(j, d, l, e)
  {
    var x, y, z := OrderingKey(j), OrderingKey(k), OrderingKey(l);
    LexTotal(x, y);
    if LexLess(x, y) && LexLess(y, z) { LexTransitive(x, y, z); }
  }

  /** Among few enough claims before it, a claim is kept. */
  lemma FewAheadIsKept(c: Claims, d: Domain, front: set<Domain>)
    requires d in c && |front| < MAX_REGISTRATIONS
    requires forall e | e in c && ComesBefore(c[e].token, e, c[d].token, d) :: e in front
    ensures d in FirstFive(c)
  {
    forall e | e in Ahead(c, d)
      ensures e in front
    {
      assert ComesBefore(c[e].token, e, c[d].token, d);
    }
    SubsetSize(Ahead(c, d), front);
  }

  /** No claim of `c` is under an earlier token than the one on the same name in `least`. */
  ghost predicate NoneEarlier(c: Claims, least: Claims) {
    forall e | e in c :: e in least && !Precedes(c[e].token, least[e].token)
  }

  lemma RankHolds(c: Claims, least: Claims, d: Domain)
    requires NoneEarlier(c, least) && d in c && d in FirstFive(least) && c[d].token == least[d].token
    ensures d in FirstFive(c)
  {
    forall e | e in c && ComesBefore(c[e].token, e, c[d].token, d)
      ensures e in Ahead(least, d)
    {
      EarlierComesBefore(least[e].token, c[e].token, e, c[d].token, d);
    }
    FewAheadIsKept(c, d, Ahead(least, d));
  }

  /** Claims that contain the first five, each under its earliest token, are no more than those. */
  lemma NoMoreThanFirst(c: Claims, least: Claims)
    requires NoneEarlier(c, least) && FirstFive(c) == c && FirstFive(least).Keys <= c.Keys
    requires forall d | d in FirstFive(least) :: c[d].token == least[d].token
    ensures c.Keys == FirstFive(least).Keys
  {
    forall e | e in c
      ensures e in FirstFive(least)
    {
      if e !in FirstFive(least) {
        FiveKeptAhead(least, e);
        forall f | f in FirstFive(least).Keys * Ahead(least, e)
          ensures f in Ahead(c, e)
        {
          StillAhead(c, least, f, e);
        }
        SubsetSize(FirstFive(least).Keys * Ahead(least, e), Ahead(c, e));
        assert false;
      }
    }
  }

  lemma StillAhead(c: Claims, least: Claims, f: Domain, e: Domain)
    requires NoneEarlier(c, least) && e in c && f in c && f in least && c[f].token == least[f].token && Outranks(least, f, e)
    ensures f in Ahead(c, e)
  {
    LaterComesAfter(c[f].token, f, least[e].token, c[e].token, e);
  }

  lemma LaterComesAfter(k: Token, d: Domain, l: Token, m: Token, e: Domain)
    requires !Precedes(m, l) && ComesBefore(k, d, l, e)
    ensures ComesBefore(k, d, m, e)
  {
    var x, y, z := OrderingKey(k), OrderingKey(l), OrderingKey(m);
    LexTotal(y, z);
    if LexLess(x, y) && LexLess(y, z) { LexTransitive(x, y, z); }
  }

  lemma RetainedSize(ed: Ed25519, c: Claims, now: Millis)
    ensures |Retained(ed, c, now)| <= MAX_REGISTRATIONS
  {
    FirstFiveSize(Standing(ed, c, now));
  }

  /** A second look at the same instant keeps the same claims. */
  lemma RetainedIdempotent(ed: Ed25519, c: Claims, now: Millis)
    ensures Retained(ed, Retained(ed, c, now), now) == Retained(ed, c, now)
  {
    var kept := Retained(ed, c, now);
    assert Standing(ed, kept, now) == kept;
    FirstFiveIdempotent(Standing(ed, c, now));
  }
}
