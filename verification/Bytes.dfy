/** Byte strings: big-endian integers and the lexicographic order that Rust's `Ord` gives
    byte arrays and (UTF-8) strings. */
module Bytes {

  type byte = x: int | 0 <= x < 256

  type u16 = x: int | 0 <= x < 0x1_0000
  type u32 = x: int | 0 <= x < 0x1_0000_0000
  type u64 = x: int | 0 <= x < 0x1_0000_0000_0000_0000

  // ---------------------------------------------------------------- big-endian integers

  function Pow256(width: nat): (p: nat)
    ensures p > 0
  {
    if width == 0 then 1 else 256 * Pow256(width - 1)
  }

  lemma Pow256Values()
    ensures Pow256(1) == 0x100
    ensures Pow256(2) == 0x1_0000
    ensures Pow256(4) == 0x1_0000_0000
    ensures Pow256(8) == 0x1_0000_0000_0000_0000
  {
    assert Pow256(2) == 256 * Pow256(1);
    assert Pow256(3) == 256 * Pow256(2);
    assert Pow256(4) == 256 * Pow256(3);
    assert Pow256(5) == 256 * Pow256(4);
    assert Pow256(6) == 256 * Pow256(5);
    assert Pow256(7) == 256 * Pow256(6);
  }

  /** The low `width` bytes of `n`, most significant first: `(n as uN).to_be_bytes()`, the
      truncating cast included. */
  function ToBytes(n: nat, width: nat): (s: seq<byte>)
    ensures |s| == width
  {
    if width == 0 then [] else ToBytes(n / 256, width - 1) + [n % 256]
  }

  function FromBytes(s: seq<byte>): nat {
    if s == [] then 0 else 256 * FromBytes(s[..|s| - 1]) + s[|s| - 1]
  }

  /** Decoding the truncated encoding loses exactly the bits the cast drops. */
  lemma {:induction false} FromToBytes(n: nat, width: nat)
    ensures FromBytes(ToBytes(n, width)) == n % Pow256(width)
  {
    if width == 0 {
    } else {
      FromToBytes(n / 256, width - 1);
      var s := ToBytes(n, width);
      assert s[..|s| - 1] == ToBytes(n / 256, width - 1);
      ModStep(n, Pow256(width - 1));
    }
  }

  lemma ModStep(n: nat, p: nat)
    requires p > 0
    ensures n % (256 * p) == 256 * ((n / 256) % p) + n % 256
  {
    var q := n / 256 / p;
    var r := 256 * ((n / 256) % p) + n % 256;
    assert n / 256 == p * q + (n / 256) % p;
    assert n == (256 * p) * q + r;
    assert (n / 256) % p <= p - 1;
    assert 0 <= r < 256 * p;
    ModUnique(n, 256 * p, q, r);
  }

  lemma ModUnique(n: int, m: int, q: int, r: int)
    requires m > 0 && n == m * q + r && 0 <= r < m
    ensures n % m == r
  {
    var k := n / m - q;
    assert -m < m * k < m by {
      assert m * k == r - n % m;
    }
    assert k == 0;
  }

  lemma RoundTrip16(n: u16)
    ensures FromBytes(ToBytes(n, 2)) == n
  {
    FromToBytes(n, 2);
    Pow256Values();
  }

  lemma RoundTrip32(n: u32)
    ensures FromBytes(ToBytes(n, 4)) == n
  {
    FromToBytes(n, 4);
    Pow256Values();
  }

  lemma {:induction false} FromBytesBound(s: seq<byte>)
    ensures FromBytes(s) < Pow256(|s|)
  {
    if s != [] {
      FromBytesBound(s[..|s| - 1]);
    }
  }

  lemma {:induction false} ToFromBytes(s: seq<byte>)
    ensures ToBytes(FromBytes(s), |s|) == s
  {
    if s != [] {
      ToFromBytes(s[..|s| - 1]);
      var n := FromBytes(s);
      assert n / 256 == FromBytes(s[..|s| - 1]) && n % 256 == s[|s| - 1];
    }
  }

  // ---------------------------------------------------------------- numbers inside buffers

  function U16At(buf: seq<byte>, pos: nat): (n: u16)
    requires pos + 2 <= |buf|
  {
    FromBytesBound(buf[pos..pos + 2]);
    Pow256Values();
    FromBytes(buf[pos..pos + 2])
  }

  function U32At(buf: seq<byte>, pos: nat): (n: u32)
    requires pos + 4 <= |buf|
  {
    FromBytesBound(buf[pos..pos + 4]);
    Pow256Values();
    FromBytes(buf[pos..pos + 4])
  }

  lemma U16Read(buf: seq<byte>, pos: nat, n: u16)
    requires pos + 2 <= |buf|
    ensures U16At(buf, pos) == n <==> buf[pos..pos + 2] == ToBytes(n, 2)
  {
    RoundTrip16(n);
    ToFromBytes(buf[pos..pos + 2]);
  }

  lemma U32Read(buf: seq<byte>, pos: nat, n: u32)
    requires pos + 4 <= |buf|
    ensures U32At(buf, pos) == n <==> buf[pos..pos + 4] == ToBytes(n, 4)
  {
    RoundTrip32(n);
    ToFromBytes(buf[pos..pos + 4]);
  }

  /** `part` stands in `buf` from `pos` on. */
  predicate Has(buf: seq<byte>, pos: nat, part: seq<byte>) {
    pos + |part| <= |buf| && buf[pos..pos + |part|] == part
  }

  lemma HasPart(buf: seq<byte>, pos: nat, part: seq<byte>, from: nat, to: nat)
    requires Has(buf, pos, part) && from <= to <= |part|
    ensures Has(buf, pos + from, part[from..to])
  {
    forall i | 0 <= i < to - from
      ensures buf[pos + from..pos + to][i] == part[from..to][i]
    {
      assert part[from + i] == buf[pos..pos + |part|][from + i];
    }
  }

  lemma HasBoth(buf: seq<byte>, pos: nat, a: seq<byte>, b: seq<byte>)
    ensures Has(buf, pos, a + b) <==> Has(buf, pos, a) && Has(buf, pos + |a|, b)
  {
    if pos + |a| + |b| <= |buf| {
      var whole, left, right := buf[pos..pos + |a| + |b|], buf[pos..pos + |a|], buf[pos + |a|..pos + |a| + |b|];
      assert whole == left + right;
      assert (left + right)[..|a|] == left && (left + right)[|a|..] == right;
      assert (a + b)[..|a|] == a && (a + b)[|a|..] == b;
    }
  }

  lemma HasMiddle(before: seq<byte>, part: seq<byte>, after: seq<byte>)
    ensures Has(before + part + after, |before|, part)
  {
  }

  // ---------------------------------------------------------------- lexicographic order

  predicate LexLess(a: seq<int>, b: seq<int>) {
    b != [] && (a == [] || a[0] < b[0] || (a[0] == b[0] && LexLess(a[1..], b[1..])))
  }

  lemma {:induction false} LexIrreflexive(a: seq<int>)
    ensures !LexLess(a, a)
  {
    if a != [] {
      LexIrreflexive(a[1..]);
    }
  }

  lemma {:induction false} LexTotal(a: seq<int>, b: seq<int>)
    ensures LexLess(a, b) || a == b || LexLess(b, a)
  {
    if a != [] && b != [] && a[0] == b[0] {
      LexTotal(a[1..], b[1..]);
      assert a == [a[0]] + a[1..] && b == [b[0]] + b[1..];
    }
  }

  lemma {:induction false} LexTransitive(a: seq<int>, b: seq<int>, c: seq<int>)
    requires LexLess(a, b) && LexLess(b, c)
    ensures LexLess(a, c)
  {
    if a != [] && a[0] == b[0] == c[0] {
      LexTransitive(a[1..], b[1..], c[1..]);
    }
  }

  lemma {:induction false} LexAppend(a: seq<int>, b: seq<int>, x: seq<int>, y: seq<int>)
    requires |a| == |b|
    ensures LexLess(a + x, b + y) <==> LexLess(a, b) || (a == b && LexLess(x, y))
  {
    if a == [] {
      assert a + x == x && b + y == y;
    } else {
      LexAppend(a[1..], b[1..], x, y);
      assert (a + x)[1..] == a[1..] + x && (b + y)[1..] == b[1..] + y;
      assert a == [a[0]] + a[1..] && b == [b[0]] + b[1..];
    }
  }

  /** Big-endian encodings of one width compare like the numbers they encode. */
  lemma {:induction false} LexIsNumeric(n: nat, m: nat, width: nat)
    requires n < Pow256(width) && m < Pow256(width)
    ensures LexLess(ToBytes(n, width), ToBytes(m, width)) <==> n < m
    ensures ToBytes(n, width) == ToBytes(m, width) <==> n == m
  {
    if width > 0 {
      LexIsNumeric(n / 256, m / 256, width - 1);
      var a, b := ToBytes(n / 256, width - 1), ToBytes(m / 256, width - 1);
      LexAppend(a, b, [n % 256], [m % 256]);
      assert LexLess([n % 256], [m % 256]) <==> n % 256 < m % 256;
      assert ToBytes(n, width) == ToBytes(m, width) <==> a == b && n % 256 == m % 256 by {
        if a + [n % 256] == b + [m % 256] {
          assert (a + [n % 256])[..width - 1] == a && (b + [m % 256])[..width - 1] == b;
          assert (a + [n % 256])[width - 1] == n % 256 && (b + [m % 256])[width - 1] == m % 256;
        }
      }
    }
  }
}
