/** Bytes in memory, and copying them. */
module Memory {

  type Byte = bv8

  /** The bytes x written over a from position p on. */
  function Splice(a: seq<Byte>, p: nat, x: seq<Byte>): (r: seq<Byte>)
    requires p + |x| <= |a|
    ensures |r| == |a| && r[p..p + |x|] == x
    ensures forall i :: 0 <= i < p || p + |x| <= i < |a| ==> r[i] == a[i]
  {
    a[..p] + x + a[p + |x|..]
  }

  /** memcpy into a buffer. */
  method Memcpy(dst: array<Byte>, p: nat, x: seq<Byte>)
    requires p + |x| <= dst.Length
    modifies dst
    ensures dst[..] == Splice(old(dst[..]), p, x)
  {
    forall i | 0 <= i < |x| {
      dst[p + i] := x[i];
    }
  }

  /** n bytes from p on; the bytes after the end of b read as zeros. */
  function Peek(b: seq<Byte>, p: nat, n: nat): (r: seq<Byte>)
    ensures |r| == n
  {
    seq(n, i requires 0 <= i < n => if p + i < |b| then b[p + i] else 0)
  }

  /** b shows x from p on, as far as the limit goes. */
  ghost predicate Shows(b: seq<Byte>, p: nat, x: seq<Byte>, limit: nat) {
    limit <= |b| && forall i :: 0 <= i < |x| && p + i < limit ==> b[p + i] == x[i]
  }

  lemma PeekShown(b: seq<Byte>, p: nat, x: seq<Byte>, limit: nat, i: nat, n: nat)
    requires Shows(b, p, x, limit) && i + n <= |x| && p + i + n <= limit
    ensures Peek(b, p + i, n) == x[i..i + n]
  {
    var y := x[i..i + n];
    forall k | 0 <= k < |y| ensures Peek(b, p + i, n)[k] == y[k] {
      assert b[p + (i + k)] == x[i + k];
    }
  }

  lemma ShowsPart(b: seq<Byte>, p: nat, x: seq<Byte>, limit: nat, i: nat, j: nat)
    requires Shows(b, p, x, limit) && i <= j <= |x|
    ensures Shows(b, p + i, x[i..j], limit)
  {
    var y := x[i..j];
    forall k | 0 <= k < |y| && p + i + k < limit ensures b[p + i + k] == y[k] {
      assert b[p + (i + k)] == x[i + k];
    }
  }
}
