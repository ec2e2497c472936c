/** Byte strings and their big-endian values: the arithmetic under the RLP and ABI codecs. */
module Bytes {
  type Byte = b: int | 0 <= b < 256

  /** The number a big-endian byte string stands for; leading zeros do not matter. */
  function Value(s: seq<Byte>): nat {
    if s == [] then 0 else Value(s[..|s| - 1]) * 256 + s[|s| - 1]
  }

  /** `BigUint::to_bytes_be`: the shortest big-endian form, and one zero byte for zero. */
  function ToBytes(n: nat): (r: seq<Byte>)
    ensures r != [] && Value(r) == n
    ensures |r| > 1 ==> r[0] != 0
  {
    if n < 256 then
      assert [n][..0] == [];
      [n]
    else
      var high := ToBytes(n / 256);
      var r := high + [n % 256];
      assert r[..|r| - 1] == high;
      r
  }

  function Pow256(k: nat): (p: nat)
    ensures p >= 1
  {
    if k == 0 then 1 else 256 * Pow256(k - 1)
  }

  function Zeros(k: nat): (z: seq<Byte>)
    ensures |z| == k && forall i :: 0 <= i < k ==> z[i] == 0
  {
    seq(k, _ => 0)
  }

  /** `to_be_bytes` of an unsigned integer of `width` bytes: wraps like the machine type. */
  function Fixed(n: nat, width: nat): (r: seq<Byte>)
    ensures |r| == width
  {
    if width == 0 then [] else Fixed(n / 256, width - 1) + [n % 256]
  }

  lemma {:induction false} ValueBound(s: seq<Byte>)
    ensures Value(s) < Pow256(|s|)
  {
    if s != [] {
      ValueBound(s[..|s| - 1]);
    }
  }

  lemma {:induction false} Pow256Add(a: nat, b: nat)
    ensures Pow256(a + b) == Pow256(a) * Pow256(b)
  {
    if b > 0 {
      Pow256Add(a, b - 1);
      assert Pow256(a + b) == 256 * (Pow256(a) * Pow256(b - 1)) == Pow256(a) * (256 * Pow256(b - 1));
    }
  }

  lemma {:induction false} Pow256Monotone(a: nat, b: nat)
    requires a <= b
    ensures Pow256(a) <= Pow256(b)
  {
    if a < b {
      Pow256Monotone(a, b - 1);
    }
  }

  lemma {:induction false} ValueConcat(a: seq<Byte>, b: seq<Byte>)
    ensures Value(a + b) == Value(a) * Pow256(|b|) + Value(b)
  {
    if b == [] {
      assert a + b == a;
    } else {
      var c := b[..|b| - 1];
      assert (a + b)[..|a + b| - 1] == a + c;
      ValueConcat(a, c);
      assert Value(a) * Pow256(|c|) * 256 == Value(a) * Pow256(|b|);
    }
  }

  lemma {:induction false} ValueZeros(k: nat)
    ensures Value(Zeros(k)) == 0
  {
    if k > 0 {
      assert Zeros(k)[..k - 1] == Zeros(k - 1);
      ValueZeros(k - 1);
    }
  }

  /** Two byte strings of one length with one value are the same string. */
  lemma {:induction false} ValueInjective(a: seq<Byte>, b: seq<Byte>)
    requires |a| == |b| && Value(a) == Value(b)
    ensures a == b
  {
    if a != [] {
      var m := |a| - 1;
      assert Value(a) == Value(a[..m]) * 256 + a[m];
      assert Value(b) == Value(b[..m]) * 256 + b[m];
      ValueInjective(a[..m], b[..m]);
      assert a == a[..m] + [a[m]] && b == b[..m] + [b[m]];
    }
  }

  /** `ToBytes` is the only form without a leading zero. */
  lemma {:induction false} ToBytesUnique(s: seq<Byte>)
    requires s != [] && (|s| > 1 ==> s[0] != 0)
    ensures ToBytes(Value(s)) == s
  {
    var m := |s| - 1;
    assert Value(s) == Value(s[..m]) * 256 + s[m];
    if m == 0 {
      assert s[..0] == [];
    } else {
      ToBytesUnique(s[..m]);
      LeadingByteCounts(s[..m]);
      assert Value(s) / 256 == Value(s[..m]) && Value(s) % 256 == s[m];
      assert s == s[..m] + [s[m]];
    }
  }

  lemma {:induction false} LeadingByteCounts(s: seq<Byte>)
    requires s != [] && s[0] != 0
    ensures Value(s) >= 1
  {
    if |s| > 1 {
      LeadingByteCounts(s[..|s| - 1]);
    }
  }

  lemma {:induction false} ToBytesLength(n: nat, k: nat)
    requires k >= 1 && n < Pow256(k)
    ensures |ToBytes(n)| <= k
  {
    if n >= 256 {
      assert k > 1 by {
        assert Pow256(1) == 256 * Pow256(0) == 256;
      }
      assert n / 256 < Pow256(k - 1);
      ToBytesLength(n / 256, k - 1);
    }
  }

  lemma {:induction false} FixedValue(n: nat, width: nat)
    ensures Value(Fixed(n, width)) == n % Pow256(width)
  {
    if width > 0 {
      var p := Pow256(width - 1);
      var r := Fixed(n, width);
      assert r[..width - 1] == Fixed(n / 256, width - 1);
      FixedValue(n / 256, width - 1);
      ModSplit(n, p);
    }
  }

  lemma ModSplit(n: nat, p: nat)
    requires p >= 1
    ensures (n / 256 % p) * 256 + n % 256 == n % (256 * p)
  {
    var q, r := n / 256 / p, n / 256 % p;
    assert n / 256 == q * p + r;
    assert n == (q * p + r) * 256 + n % 256 == q * (256 * p) + (r * 256 + n % 256) by {
      assert q * p * 256 == q * (256 * p);
    }
    var rem := r * 256 + n % 256;
    assert 0 <= rem < 256 * p by {
      assert r * 256 <= (p - 1) * 256;
    }
    DivModUnique(n, 256 * p, q, rem);
  }

  lemma DivModUnique(n: int, d: int, q: int, r: int)
    requires 0 <= r < d && n == q * d + r
    ensures n / d == q && n % d == r
  {
    var k := q - n / d;
    assert k * d == q * d - n / d * d;
    assert k * d == n % d - r;
    MultipleAtLeast(k, d);
  }

  lemma MultipleAtLeast(k: int, d: int)
    requires d > 0
    ensures k > 0 ==> k * d >= d
    ensures k < 0 ==> k * d <= -d
  {
  }
}
