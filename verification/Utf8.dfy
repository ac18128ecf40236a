/** Stepping over one UTF-8 code point (section 3 of RFC 3629). */
module Utf8 {

  import opened Memory

  /** UTF_CONT_BYTE_HEADER: the byte is of the form 10xxxxxx. */
  predicate IsContinuation(b: Byte) {
    b & 0xc0 == 0x80
  }

  /** The first offset at or after `i` that does not hold a continuation byte. */
  function SkipContinuation(data: seq<Byte>, i: nat): (r: nat)
    ensures i <= r && (i <= |data| ==> r <= |data|)
    decreases |data| - i
  {
    if i < |data| && IsContinuation(data[i]) then SkipContinuation(data, i + 1) else i
  }

  // ------------------------------------------------- well-formed UTF-8

  /** The bytes of one well-formed code point, as listed in section 4 of RFC 3629. */
  predicate IsCodePoint(c: seq<Byte>) {
    match |c|
    case 1 => c[0] <= 0x7f
    case 2 => 0xc2 <= c[0] <= 0xdf && IsContinuation(c[1])
    case 3 =>
      && IsContinuation(c[1]) && IsContinuation(c[2])
      && (|| (c[0] == 0xe0 && 0xa0 <= c[1])
          || (0xe1 <= c[0] <= 0xec)
          || (c[0] == 0xed && c[1] <= 0x9f)
          || (0xee <= c[0] <= 0xef))
    case 4 =>
      && IsContinuation(c[1]) && IsContinuation(c[2]) && IsContinuation(c[3])
      && (|| (c[0] == 0xf0 && 0x90 <= c[1])
          || (0xf1 <= c[0] <= 0xf3)
          || (c[0] == 0xf4 && c[1] <= 0x8f))
    case _ => false
  }

  /** The text spelled by a list of code points. */
  function Text(points: seq<seq<Byte>>): seq<Byte> {
    if points == [] then [] else points[0] + Text(points[1..])
  }

  predicate AllCodePoints(points: seq<seq<Byte>>) {
    forall k :: 0 <= k < |points| ==> IsCodePoint(points[k])
  }

  lemma CodePointShape(c: seq<Byte>)
    requires IsCodePoint(c)
    ensures 1 <= |c| <= 4 && !IsContinuation(c[0])
    ensures forall k :: 1 <= k < |c| ==> IsContinuation(c[k])
  {
  }

  lemma {:induction false} SkipWithinCodePoint(c: seq<Byte>, rest: seq<Byte>, i: nat)
    requires IsCodePoint(c) && 1 <= i <= |c|
    requires rest != [] ==> !IsContinuation(rest[0])
    ensures SkipContinuation(c + rest, i) == |c|
    decreases |c| - i
  {
    CodePointShape(c);
    if i < |c| {
      SkipWithinCodePoint(c, rest, i + 1);
    }
  }

  lemma {:induction false} SkipShift(head: seq<Byte>, rest: seq<Byte>, i: nat)
    requires i <= |rest|
    ensures SkipContinuation(head + rest, |head| + i) == |head| + SkipContinuation(rest, i)
    decreases |rest| - i
  {
    if i < |rest| {
      assert (head + rest)[|head| + i] == rest[i];
      SkipShift(head, rest, i + 1);
    }
  }

  /** On well-formed text, stepping one byte past the code-point boundary before
      code point k and skipping continuation bytes lands exactly on the boundary
      before code point k + 1. */
  lemma {:induction false} StepIsNextBoundary(points: seq<seq<Byte>>, k: nat)
    requires AllCodePoints(points) && k < |points|
    ensures var here := |Text(points[..k])|;
            SkipContinuation(Text(points), here + 1) == |Text(points[..k + 1])|
  {
    hide IsCodePoint, IsContinuation, SkipContinuation;
    var rest := Text(points[1..]);
    CodePointShape(points[0]);
    if k == 0 {
      assert points[..0] == [] && points[..1][1..] == [];
      if |points| > 1 {
        CodePointShape(points[1]);
        assert rest[0] == points[1][0];
      }
      SkipWithinCodePoint(points[0], rest, 1);
    } else {
      StepIsNextBoundary(points[1..], k - 1);
      assert points[..k][1..] == points[1..][..k - 1];
      assert points[..k + 1][1..] == points[1..][..k];
      TextPrefix(points[1..], k - 1);
      SkipShift(points[0], rest, |Text(points[1..][..k - 1])| + 1);
    }
  }

  lemma {:induction false} TextPrefix(points: seq<seq<Byte>>, k: nat)
    requires AllCodePoints(points) && k < |points|
    ensures |Text(points[..k])| + 1 <= |Text(points)|
  {
    CodePointShape(points[0]);
    if k > 0 {
      TextPrefix(points[1..], k - 1);
      assert points[..k][1..] == points[1..][..k - 1];
    }
  }

  /** The offset i lies between two code points, or at either end of the text. */
  ghost predicate Boundary(points: seq<seq<Byte>>, i: nat) {
    exists k :: 0 <= k <= |points| && i == |Text(points[..k])|
  }

  /** From a boundary, the step lands on a boundary or past the end of the text. */
  lemma StepKeepsBoundary(points: seq<seq<Byte>>, i: nat)
    requires AllCodePoints(points) && Boundary(points, i)
    ensures var r := SkipContinuation(Text(points), i + 1);
            Boundary(points, r) || r > |Text(points)|
  {
    hide SkipContinuation, IsCodePoint;
    var k :| 0 <= k <= |points| && i == |Text(points[..k])|;
    if k < |points| {
      StepIsNextBoundary(points, k);
    } else {
      assert points[..k] == points;
    }
  }

  /** Only continuation bytes are skipped. */
  lemma {:induction false} SkipsContinuations(data: seq<Byte>, i: nat, j: nat)
    requires i <= j < SkipContinuation(data, i)
    ensures j < |data| && IsContinuation(data[j])
    decreases |data| - i
  {
    if i < j {
      SkipsContinuations(data, i + 1, j);
    }
  }

  /** No code point starts with a continuation byte. */
  lemma {:induction false} BoundaryStarts(points: seq<seq<Byte>>, i: nat)
    requires AllCodePoints(points) && Boundary(points, i) && i < |Text(points)|
    ensures !IsContinuation(Text(points)[i])
  {
    hide IsCodePoint, IsContinuation;
    var k :| 0 <= k <= |points| && i == |Text(points[..k])|;
    CodePointShape(points[0]);
    if k > 0 {
      assert points[..k][1..] == points[1..][..k - 1];
      BoundaryStarts(points[1..], |Text(points[1..][..k - 1])|);
    }
  }
}
