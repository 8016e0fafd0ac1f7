/**
 Bytes and the little-endian integer layout the injector relies on: the
 address patched into the loader payload, the return address pushed on the
 target's stack, and the fields read out of a PE image are all stored least
 significant byte first.
 */
module Bytes {

  newtype byte = x: int | 0 <= x < 256

  function Pow256(n: nat): (p: nat)
    ensures p >= 1
  {
    if n == 0 then 1 else 256 * Pow256(n - 1)
  }

  /** The widths of the fields the launcher reads and writes. */
  lemma Pow256Widths()
    ensures Pow256(2) == 0x1_0000
    ensures Pow256(4) == 0x1_0000_0000
    ensures Pow256(8) == 0x1_0000_0000_0000_0000
  {
    assert Pow256(1) == 0x100;
    assert Pow256(2) == 0x1_0000;
    assert Pow256(3) == 0x100_0000;
    assert Pow256(4) == 0x1_0000_0000;
    assert Pow256(5) == 0x100_0000_0000;
    assert Pow256(6) == 0x1_0000_0000_0000;
    assert Pow256(7) == 0x100_0000_0000_0000;
  }

  /** The `n` bytes that store `x` (truncated to `n` bytes) in memory. */
  function ToLE(x: nat, n: nat): (bs: seq<byte>)
    ensures |bs| == n
  {
    if n == 0 then [] else [(x % 256) as byte] + ToLE(x / 256, n - 1)
  }

  /** The unsigned value stored in `bs`, least significant byte first. */
  function FromLE(bs: seq<byte>): (x: nat)
    ensures x < Pow256(|bs|)
  {
    if |bs| == 0 then 0 else bs[0] as nat + 256 * FromLE(bs[1..])
  }

  lemma DivModUnique(x: nat, m: nat, q: nat, r: nat)
    requires m > 0 && r < m && x == m * q + r
    ensures x % m == r && x / m == q
  {
    var q', r' := x / m, x % m;
    assert m * q' + r' == m * q + r;
    if q' > q {
      MulGrows(m, q, q' - q);
      assert false;
    } else if q' < q {
      MulGrows(m, q', q - q');
      assert false;
    }
  }

  lemma MulGrows(m: nat, a: nat, d: nat)
    requires d >= 1
    ensures m * (a + d) >= m * a + m
  {
    assert m * (a + d) == m * a + m * d;
    assert m * d == m + m * (d - 1);
  }

  lemma SplitMod(x: nat, p: nat)
    requires p >= 1
    ensures x % (256 * p) == x % 256 + 256 * ((x / 256) % p)
  {
    var q := x / 256;
    var r := x % 256;
    var a := q / p;
    var b := q % p;
    assert q == p * a + b;
    assert x == (256 * p) * a + (256 * b + r) by {
      assert x == 256 * q + r;
      assert 256 * q == 256 * (p * a) + 256 * b;
      assert 256 * (p * a) == (256 * p) * a;
    }
    assert 256 * b + r < 256 * p by {
      assert b <= p - 1;
      assert 256 * b <= 256 * (p - 1);
    }
    DivModUnique(x, 256 * p, a, 256 * b + r);
  }

  /** Reading back the bytes written for `x` yields `x` modulo the field width. */
  lemma {:induction false} FromToLE(x: nat, n: nat)
    ensures FromLE(ToLE(x, n)) == x % Pow256(n)
    decreases n
  {
    if n > 0 {
      var bs := ToLE(x, n);
      assert bs[1..] == ToLE(x / 256, n - 1);
      FromToLE(x / 256, n - 1);
      SplitMod(x, Pow256(n - 1));
    }
  }

  /** Writing back the value read from `bs` reproduces `bs`. */
  lemma {:induction false} ToFromLE(bs: seq<byte>)
    ensures ToLE(FromLE(bs), |bs|) == bs
    decreases |bs|
  {
    if |bs| > 0 {
      var x := FromLE(bs);
      DivModUnique(x, 256, FromLE(bs[1..]), bs[0] as nat);
      ToFromLE(bs[1..]);
      assert ToLE(x, |bs|) == [bs[0]] + bs[1..];
    }
  }

  /** Reading back a value that fits the field gives the value itself. */
  lemma FromToLEFits(x: nat, n: nat)
    requires x < Pow256(n)
    ensures FromLE(ToLE(x, n)) == x
  {
    FromToLE(x, n);
  }

  /** The value of a four-byte field, spelled out. */
  lemma FromLE4(b0: byte, b1: byte, b2: byte, b3: byte)
    ensures FromLE([b0, b1, b2, b3]) == b0 as nat + 0x100 * b1 as nat + 0x1_0000 * b2 as nat + 0x100_0000 * b3 as nat
  {
    assert [b3][1..] == [];
    assert FromLE([b3]) == b3 as nat;
    assert [b2, b3][1..] == [b3];
    assert FromLE([b2, b3]) == b2 as nat + 256 * b3 as nat;
    assert [b1, b2, b3][1..] == [b2, b3];
    assert FromLE([b1, b2, b3]) == b1 as nat + 256 * (b2 as nat + 256 * b3 as nat);
    assert [b0, b1, b2, b3][1..] == [b1, b2, b3];
  }

  /** A 32-bit field read as a C `int`/`LONG`: two's complement. */
  function ToInt32(u: nat): (v: int)
    requires u < 0x1_0000_0000
    ensures -0x8000_0000 <= v < 0x8000_0000
    ensures v % 0x1_0000_0000 == u
  {
    if u < 0x8000_0000 then u else u - 0x1_0000_0000
  }
}
