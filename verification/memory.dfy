/**
 The address space of the suspended child as the Windows injector sees it
 through ReadProcessMemory and WriteProcessMemory: a partial map from
 addresses to bytes. Reads are total: an address the map does not hold reads
 as zero. Multi-byte fields are stored least significant byte first.
 */
module RemoteMemory {
  import opened Bytes

  type Memory = map<int, byte>

  /** The byte at `a`, zero where nothing is mapped. */
  function Peek(m: Memory, a: int): byte {
    if a in m then m[a] else 0
  }

  /** The `n` bytes from `a` on. */
  function ReadMem(m: Memory, a: int, n: nat): (bs: seq<byte>)
    ensures |bs| == n
    ensures forall i :: 0 <= i < n ==> bs[i] == Peek(m, a + i)
  {
    seq(n, i requires 0 <= i < n => Peek(m, a + i))
  }

  predicate InSpan(a: int, n: nat, x: int) {
    a <= x < a + n
  }

  /** The addresses `[a, a + n)`. */
  function Span(a: int, n: nat): (s: set<int>)
    ensures forall x :: x in s <==> a <= x < a + n
  {
    set x | a <= x < a + n && InSpan(a, n, x)
  }

  /** The memory after `bs` is stored from `a` on. */
  function WriteMem(m: Memory, a: int, bs: seq<byte>): (r: Memory)
    ensures r.Keys == m.Keys + Span(a, |bs|)
    ensures forall i :: 0 <= i < |bs| ==> r[a + i] == bs[i]
    ensures forall x :: x in m && !(a <= x < a + |bs|) ==> r[x] == m[x]
  {
    map x | x in m.Keys + Span(a, |bs|) :: if a <= x < a + |bs| then bs[x - a] else m[x]
  }

  /** Two address ranges share no address. */
  predicate Disjoint(a: int, n: nat, b: int, k: nat) {
    a + n <= b || b + k <= a
  }

  /** Reading back what was written gives it back. */
  lemma ReadWritten(m: Memory, a: int, bs: seq<byte>)
    ensures ReadMem(WriteMem(m, a, bs), a, |bs|) == bs
  {
    var r := ReadMem(WriteMem(m, a, bs), a, |bs|);
    assert forall i :: 0 <= i < |bs| ==> r[i] == bs[i];
  }

  /** A write leaves every disjoint range as it was. */
  lemma ReadElsewhere(m: Memory, a: int, bs: seq<byte>, b: int, n: nat)
    requires Disjoint(a, |bs|, b, n)
    ensures ReadMem(WriteMem(m, a, bs), b, n) == ReadMem(m, b, n)
  {
    var w := WriteMem(m, a, bs);
    forall i | 0 <= i < n
      ensures ReadMem(w, b, n)[i] == ReadMem(m, b, n)[i]
    {
    }
  }

  /** A 16-bit little-endian field. */
  function U16(m: Memory, a: int): (v: nat)
    ensures v < 0x1_0000
  {
    FromLE(ReadMem(m, a, 2))
  }

  /** A 32-bit little-endian field. */
  function U32(m: Memory, a: int): (v: nat)
    ensures v < 0x1_0000_0000
  {
    FromLE(ReadMem(m, a, 4))
  }
}
