/** Bytes, machine words, blocks of bytes and counting, shared by the modules. */
module Common {

  const MAXOPBLOCKS: nat := 10            // most blocks an operation on files writes
  const UINT: nat := 0x1_0000_0000        // one more than the largest uint

  type Byte = b: int | 0 <= b < 256

  ghost predicate Distinct<T>(s: seq<T>) {
    forall i, j :: 0 <= i < j < |s| ==> s[i] != s[j]
  }

  /** A quotient and remainder by a constant. */
  lemma QuotRem(x: nat, w: nat, q: nat, r: nat)
    requires w in {2, 8, 16, 32, 1024, 3072, 4096} && x == w * q + r && r < w
    ensures x / w == q && x % w == r
  {
  }

  /** memmove of bytes to offset off of a block or page. */
  function Overlay(block: seq<Byte>, off: nat, bytes: seq<Byte>): (s: seq<Byte>)
    requires off + |bytes| <= |block|
    ensures |s| == |block|
    ensures forall i :: 0 <= i < |block| ==> s[i] == if off <= i < off + |bytes| then bytes[i - off] else block[i]
  {
    block[..off] + bytes + block[off + |bytes|..]
  }

  // ---------------------------------------------------------------------------------
  // Counting.

  /** The numbers below n. */
  function Upto(n: nat): (s: set<int>)
    ensures |s| == n && forall i :: i in s <==> 0 <= i < n
  {
    if n == 0 then {} else Upto(n - 1) + {n - 1}
  }

  lemma Element<T>(s: set<T>) returns (x: T)
    requires s != {}
    ensures x in s
  {
    x :| x in s;
  }

  /** An injection from a to b: a is no larger. */
  lemma {:induction false} Injected(f: map<int, int>, a: set<int>, b: set<int>)
    requires a <= f.Keys && (forall x :: x in a ==> f[x] in b)
    requires forall x, y :: x in a && y in a && x != y ==> f[x] != f[y]
    ensures |a| <= |b|
    decreases a
  {
    if a != {} {
      var x := Element(a);
      Injected(f, a - {x}, b - {f[x]});
    }
  }

  lemma SubsetSize<T>(a: set<T>, b: set<T>)
    requires a <= b
    ensures |a| <= |b| && (|a| == |b| ==> a == b)
  {
    var c := b - a;
    assert b == a + c && |b| == |a| + |c|;
  }
}
