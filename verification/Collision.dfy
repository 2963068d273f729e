/** Registration tokens (token.rs) and the pairwise arbitration of two tokens (collision.rs). */
module Tokens {
  import opened Bytes

  type Nonce = s: seq<byte> | |s| == 8 witness [0, 0, 0, 0, 0, 0, 0, 0]

  datatype Token = Token(issuedAt: u64, nonce: Nonce)

  /** `raw_ordering_key`: the timestamp's eight big-endian bytes, then the nonce. */
  function OrderingKey(t: Token): (key: seq<byte>)
    ensures |key| == 16
  {
    ToBytes(t.issuedAt, 8) + t.nonce
  }

  predicate Precedes(a: Token, b: Token) {
    LexLess(OrderingKey(a), OrderingKey(b))
  }

  /** The 16-byte key compares by issue time first and nonce second, and it identifies its token. */
  lemma OrderingKeyIsTimeThenNonce(a: Token, b: Token)
    ensures Precedes(a, b) <==>
            a.issuedAt < b.issuedAt || (a.issuedAt == b.issuedAt && LexLess(a.nonce, b.nonce))
    ensures OrderingKey(a) == OrderingKey(b) ==> a == b
  {
    Pow256Values();
    LexIsNumeric(a.issuedAt, b.issuedAt, 8);
    LexAppend(ToBytes(a.issuedAt, 8), ToBytes(b.issuedAt, 8), a.nonce, b.nonce);
    if OrderingKey(a) == OrderingKey(b) {
      assert OrderingKey(a)[..8] == ToBytes(a.issuedAt, 8) && OrderingKey(a)[8..] == a.nonce;
      assert OrderingKey(b)[..8] == ToBytes(b.issuedAt, 8) && OrderingKey(b)[8..] == b.nonce;
    }
  }

  /** Distinct tokens are strictly ordered, one way only. */
  lemma PrecedesIsTotal(a: Token, b: Token)
    ensures a != b ==> (Precedes(a, b) <==> !Precedes(b, a))
    ensures !Precedes(a, a)
  {
    LexIrreflexive(OrderingKey(a));
    if a != b {
      LexTotal(OrderingKey(a), OrderingKey(b));
      OrderingKeyIsTimeThenNonce(a, b);
      if Precedes(a, b) && Precedes(b, a) {
        LexTransitive(OrderingKey(a), OrderingKey(b), OrderingKey(a));
      }
    }
  }

  lemma PrecedesIsTransitive(a: Token, b: Token, c: Token)
    requires Precedes(a, b) && Precedes(b, c)
    ensures Precedes(a, c)
  {
    LexTransitive(OrderingKey(a), OrderingKey(b), OrderingKey(c));
  }
}

module Collision {
  import opened Bytes
  import opened Tokens

  datatype WinCondition = HigherWins | LowerWins

  /** Bitwise exclusive or. */
  function Xor(a: nat, b: nat): nat {
    if a == 0 && b == 0 then 0 else 2 * Xor(a / 2, b / 2) + (a % 2 + b % 2) % 2
  }

  function FoldXor(acc: nat, bytes: seq<byte>): nat
    decreases bytes
  {
    if bytes == [] then acc else FoldXor(Xor(acc, bytes[0]), bytes[1..])
  }

  function Resolve(condition: WinCondition, a: Token, b: Token): Token {
    match condition
    case HigherWins => if !Precedes(a, b) then a else b
    case LowerWins => if !Precedes(b, a) then a else b
  }

  /** `mutually_derived_condition`: the low bit of the exclusive or of both issue times and all
      sixteen nonce bytes. */
  function DerivedCondition(a: Token, b: Token): WinCondition {
    if FoldXor(Xor(a.issuedAt, b.issuedAt) % 256, a.nonce + b.nonce) % 2 == 0
    then HigherWins else LowerWins
  }

  function Negotiate(a: Token, b: Token): Token {
    Resolve(DerivedCondition(a, b), a, b)
  }

  // ---------------------------------------------------------------- parity

  function Sum(bytes: seq<byte>): nat {
    if bytes == [] then 0 else bytes[0] + Sum(bytes[1..])
  }

  /** Whether an even number of the bits that take part in arbitration are set in `t`. */
  predicate Even(t: Token) {
    (t.issuedAt + Sum(t.nonce)) % 2 == 0
  }

  lemma TwiceDropsOut(x: nat, a: nat, b: nat)
    ensures (2 * x + (a % 2 + b % 2) % 2) % 2 == (a + b) % 2
  {
  }

  lemma XorLowBit(a: nat, b: nat)
    ensures Xor(a, b) % 2 == (a + b) % 2
  {
    if a != 0 || b != 0 {
      var x := Xor(a / 2, b / 2);
      assert Xor(a, b) == 2 * x + (a % 2 + b % 2) % 2;
      hide Xor;
      TwiceDropsOut(x, a, b);
    }
  }

  lemma LowBitOfLowByte(x: nat)
    ensures x % 256 % 2 == x % 2
  {
    assert x == 256 * (x / 256) + x % 256;
    assert x == 2 * (128 * (x / 256)) + x % 256;
  }

  lemma ParityOfSum(x: nat, y: nat, z: nat)
    requires x % 2 == z % 2
    ensures (x + y) % 2 == (z + y) % 2
    ensures (x + y) % 2 == 0 <==> (x % 2 == y % 2)
  {
  }

  lemma {:induction false} FoldXorLowBit(acc: nat, bytes: seq<byte>)
    ensures FoldXor(acc, bytes) % 2 == (acc + Sum(bytes)) % 2
    decreases bytes
  {
    if bytes != [] {
      FoldXorLowBit(Xor(acc, bytes[0]), bytes[1..]);
      XorLowBit(acc, bytes[0]);
      ParityOfSum(Xor(acc, bytes[0]), Sum(bytes[1..]), acc + bytes[0]);
    }
  }

  lemma {:induction false} SumAppend(a: seq<byte>, b: seq<byte>)
    ensures Sum(a + b) == Sum(a) + Sum(b)
  {
    if a == [] {
      assert a + b == b;
    } else {
      SumAppend(a[1..], b);
      assert (a + b)[1..] == a[1..] + b;
    }
  }

  /** The higher token wins exactly when both tokens have the same parity. */
  lemma ConditionIsParityAgreement(a: Token, b: Token)
    ensures DerivedCondition(a, b).HigherWins? <==> (Even(a) <==> Even(b))
  {
    hide Xor, FoldXor, Sum;
    var x := Xor(a.issuedAt, b.issuedAt);
    FoldXorLowBit(x % 256, a.nonce + b.nonce);
    SumAppend(a.nonce, b.nonce);
    XorLowBit(a.issuedAt, b.issuedAt);
    LowBitOfLowByte(x);
    ParityOfSum(x % 256, Sum(a.nonce) + Sum(b.nonce), a.issuedAt + b.issuedAt);
    ParityOfSum(a.issuedAt + Sum(a.nonce), b.issuedAt + Sum(b.nonce), a.issuedAt + Sum(a.nonce));
  }

  // ---------------------------------------------------------------- the tournament of tokens

  /** A registration holding token `holder` survives a reconciliation offering token `other`. */
  predicate Withstands(holder: Token, other: Token) {
    Negotiate(holder, other) != other
  }

  /** Arbitration between different tokens picks one of them, the same one from either side, and
      which one is read off the order and the parities. */
  lemma NegotiateIsSymmetric(a: Token, b: Token)
    ensures Negotiate(a, b) == Negotiate(b, a)
    ensures Negotiate(a, b) == a || Negotiate(a, b) == b
    ensures a != b ==> (Withstands(a, b) <==> !Withstands(b, a))
    ensures Precedes(a, b) ==> (Withstands(a, b) <==> Even(a) != Even(b))
    ensures Precedes(b, a) ==> (Withstands(a, b) <==> Even(a) == Even(b))
  {
    ConditionIsParityAgreement(a, b);
    ConditionIsParityAgreement(b, a);
    PrecedesIsTotal(a, b);
    PrecedesIsTotal(b, a);
  }

  /** The token that no reconciliation by a rival can displace. */
  ghost predicate Champion(tokens: set<Token>, c: Token) {
    c in tokens && forall t | t in tokens && t != c :: Withstands(c, t)
  }

  ghost predicate HasChampion(tokens: set<Token>) {
    exists c :: Champion(tokens, c)
  }

  lemma ChampionIsUnique(tokens: set<Token>, c: Token, d: Token)
    requires Champion(tokens, c) && Champion(tokens, d)
    ensures c == d
  {
    NegotiateIsSymmetric(c, d);
  }

  /** Read in order, the parities of the tokens change at most once. */
  ghost predicate ParityChangesAtMostOnce(tokens: set<Token>) {
    forall a, b, c | a in tokens && b in tokens && c in tokens && Precedes(a, b) && Precedes(b, c)
      :: Even(b) == Even(a) || Even(b) == Even(c)
  }

  /** Any number of distinct tokens has an undisplaceable one exactly when no token sits, in
      order, between two of the opposite parity. */
  lemma ChampionIffParityChangesAtMostOnce(tokens: set<Token>)
    requires tokens != {}
    ensures HasChampion(tokens) <==> ParityChangesAtMostOnce(tokens)
  {
    if HasChampion(tokens) {
      var w :| Champion(tokens, w);
      forall a, b, c | a in tokens && b in tokens && c in tokens && Precedes(a, b) && Precedes(b, c)
        ensures Even(b) == Even(a) || Even(b) == Even(c)
      {
        ChampionSide(tokens, w, a);
        ChampionSide(tokens, w, b);
        ChampionSide(tokens, w, c);
        PrecedesIsTotal(w, b);
        if Precedes(b, w) {
          PrecedesIsTransitive(a, b, w);
          PrecedesIsTotal(a, w);
        } else if Precedes(w, b) {
          PrecedesIsTransitive(w, b, c);
          PrecedesIsTotal(w, c);
        } else {
          PrecedesIsTotal(a, b);
        }
      }
    }
    if ParityChangesAtMostOnce(tokens) {
      var low := Least(tokens);
      var agree := set t | t in tokens && Even(t) == Even(low);
      assert low in agree;
      var w := Greatest(agree);
      forall t | t in tokens && t != w
        ensures Withstands(w, t)
      {
        NegotiateIsSymmetric(w, t);
        PrecedesIsTotal(w, t);
        if Precedes(t, w) {
          assert t == low || Precedes(low, t);
        } else {
          assert t !in agree;
        }
      }
      assert Champion(tokens, w);
    }
  }

  lemma ChampionSide(tokens: set<Token>, w: Token, t: Token)
    requires Champion(tokens, w) && t in tokens
    ensures Precedes(t, w) ==> Even(t) == Even(w)
    ensures Precedes(w, t) ==> Even(t) != Even(w)
  {
    PrecedesIsTotal(w, t);
    PrecedesIsTotal(t, w);
    NegotiateIsSymmetric(w, t);
  }

  lemma {:induction false} Least(tokens: set<Token>) returns (low: Token)
    requires tokens != {}
    ensures low in tokens && forall t | t in tokens && t != low :: Precedes(low, t)
  {
    var x :| x in tokens;
    if tokens == {x} {
      low := x;
    } else {
      var rest := tokens - {x};
      var y := Least(rest);
      PrecedesIsTotal(x, y);
      low := if Precedes(x, y) then x else y;
      forall t | t in tokens && t != low
        ensures Precedes(low, t)
      {
        if low == x && t != y {
          PrecedesIsTransitive(x, y, t);
        }
      }
    }
  }

  lemma {:induction false} Greatest(tokens: set<Token>) returns (high: Token)
    requires tokens != {}
    ensures high in tokens && forall t | t in tokens && t != high :: Precedes(t, high)
  {
    var x :| x in tokens;
    if tokens == {x} {
      high := x;
    } else {
      var rest := tokens - {x};
      var y := Greatest(rest);
      PrecedesIsTotal(x, y);
      high := if Precedes(y, x) then x else y;
      forall t | t in tokens && t != high
        ensures Precedes(t, high)
      {
        if high == x && t != y {
          PrecedesIsTransitive(t, y, x);
        }
      }
    }
  }

  /** Two different tokens always have an undisplaceable one: the winner of their negotiation. */
  lemma TwoTokensHaveAChampion(a: Token, b: Token)
    ensures Champion({a, b}, Negotiate(a, b))
  {
    NegotiateIsSymmetric(a, b);
  }

  /** Three tokens in order have none exactly when the middle one's parity differs from both. */
  lemma ThreeTokensLackAChampionIff(low: Token, mid: Token, high: Token)
    requires Precedes(low, mid) && Precedes(mid, high)
    ensures !HasChampion({low, mid, high}) <==> Even(mid) != Even(low) && Even(mid) != Even(high)
  {
    var tokens := {low, mid, high};
    ChampionIffParityChangesAtMostOnce(tokens);
    PrecedesIsTransitive(low, mid, high);
    PrecedesIsTotal(low, mid);
    PrecedesIsTotal(mid, high);
    PrecedesIsTotal(low, high);
    PrecedesIsTotal(high, low);
    forall a, b, c | a in tokens && b in tokens && c in tokens && Precedes(a, b) && Precedes(b, c)
      ensures a == low && b == mid && c == high
    {
      PrecedesIsTotal(a, b);
      PrecedesIsTotal(b, c);
      PrecedesIsTransitive(a, b, c);
    }
  }
}
