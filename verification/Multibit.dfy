/** Multibit compression (src/util/multibit_compress.h): a large bit set is a pyramid
    of 64-bit blocks in which a set bit of an inner block names a child. Only the
    blocks reached from the root are stored, in depth-first order. */
module Multibit {

  import opened Memory
  import opened Options

  const BLOCK: nat := 8
  const KEY_BITS: nat := 64
  const FLAT_MAX_BITS: nat := 256

  /** A block of the pyramid: its level and its place on that level. */
  datatype Node = Node(level: nat, key: nat)

  /** Where a pyramid lies in memory, and the level of its leaves. */
  datatype Shape = Shape(at: nat, maxLevel: nat)

  // -------------------------------------------------------------------- the layout

  function Pow64(n: nat): (r: nat)
    ensures r >= 1
  {
    if n == 0 then 1 else KEY_BITS * Pow64(n - 1)
  }

  /** The number of blocks on the levels above. */
  function RootOffset(level: nat): nat {
    if level == 0 then 0 else RootOffset(level - 1) + Pow64(level - 1)
  }

  function MaxLevel(total: nat): nat {
    if total <= 0x40 then 0
    else if total <= 0x1000 then 1
    else if total <= 0x4_0000 then 2
    else if total <= 0x100_0000 then 3
    else if total <= 0x4000_0000 then 4
    else 5
  }

  function FlatSize(total: nat): nat {
    (total + 7) / 8
  }

  /** mmbit_size: the bytes the whole structure takes. */
  function Footprint(total: nat): nat {
    if total <= FLAT_MAX_BITS then FlatSize(total)
    else BLOCK * (RootOffset(MaxLevel(total)) + (total + KEY_BITS - 1) / KEY_BITS)
  }

  /** mmbit_root_offset_from_level. */
  lemma RootOffsets()
    ensures RootOffset(1) == 1 && RootOffset(2) == 65 && RootOffset(3) == 4161
    ensures RootOffset(4) == 266305 && RootOffset(5) == 17043521
  {
    assert Pow64(1) == 64 && Pow64(2) == 4096 && Pow64(3) == 262144 && Pow64(4) == 16777216;
  }

  /** The structure ends with the block of the last key. */
  lemma FootprintIsTight(total: nat)
    requires total > FLAT_MAX_BITS
    ensures BlockAt(ShapeOf(0, total), Node(MaxLevel(total), (total - 1) / 64)) + 8 == Footprint(total)
  {
    hide RootOffset;
  }

  lemma {:induction false} RootOffsetGrows(i: nat, j: nat)
    requires i <= j
    ensures RootOffset(i) <= RootOffset(j)
    decreases j
  {
    if i < j {
      RootOffsetGrows(i, j - 1);
    }
  }

  /** Larger sets take no less room. */
  lemma FootprintGrows(n: nat, k: nat)
    requires n <= k
    ensures Footprint(n) <= Footprint(k)
  {
    hide RootOffset;
    RootOffsetGrows(MaxLevel(n), MaxLevel(k));
    if n <= FLAT_MAX_BITS < k {
      assert FlatSize(n) <= 32 && BLOCK * ((k + KEY_BITS - 1) / KEY_BITS) >= 32;
    }
  }

  function BlockAt(sh: Shape, n: Node): nat {
    sh.at + BLOCK * (RootOffset(n.level) + n.key)
  }

  /** The eight bytes of a block; zeros where there is no memory. */
  function Block(m: seq<Byte>, sh: Shape, n: Node): (r: seq<Byte>)
    ensures |r| == BLOCK
  {
    var p := BlockAt(sh, n);
    if p + BLOCK <= |m| then m[p..p + BLOCK] else [0, 0, 0, 0, 0, 0, 0, 0]
  }

  predicate Bit(b: seq<Byte>, i: nat)
    requires i / 8 < |b|
  {
    (b[i / 8] >> (i % 8)) & 1 == 1
  }

  /** The first set bit at or after `from`: ctz of the block with lower bits masked. */
  function NextBit(b: seq<Byte>, from: nat): (r: nat)
    requires |b| == BLOCK && from <= KEY_BITS
    ensures from <= r <= KEY_BITS
    ensures r < KEY_BITS ==> Bit(b, r)
    ensures forall i :: from <= i < r ==> !Bit(b, i)
    decreases KEY_BITS - from
  {
    if from == KEY_BITS || Bit(b, from) then from else NextBit(b, from + 1)
  }

  /** The set bits at or after `from`. */
  function Popcount(b: seq<Byte>, from: nat): nat
    requires |b| == BLOCK && from <= KEY_BITS
    decreases KEY_BITS - from
  {
    if from == KEY_BITS then 0 else (if Bit(b, from) then 1 else 0) + Popcount(b, from + 1)
  }

  lemma {:induction false} PopcountDrops(b: seq<Byte>, i: nat, j: nat)
    requires |b| == BLOCK && i <= j <= KEY_BITS
    ensures Popcount(b, j) <= Popcount(b, i)
    ensures i < j && Bit(b, j - 1) ==> Popcount(b, j) < Popcount(b, i)
    decreases j - i
  {
    if i < j {
      PopcountDrops(b, i, j - 1);
    }
  }

  // ----------------------------------------------------------- the depth-first order

  function Child(n: Node, bit: nat): Node {
    Node(n.level + 1, n.key * KEY_BITS + bit)
  }

  /** The blocks below n, and n itself, in the order they are stored. */
  function Nodes(m: seq<Byte>, sh: Shape, n: Node): (r: seq<Node>)
    ensures |r| > 0
    decreases sh.maxLevel - n.level, KEY_BITS + 1
  {
    [n] + Kids(m, sh, n, 0)
  }

  /** The blocks below the bits of n from `from` on. */
  function Kids(m: seq<Byte>, sh: Shape, n: Node, from: nat): seq<Node>
    requires from <= KEY_BITS
    decreases sh.maxLevel - n.level, KEY_BITS - from
  {
    if n.level >= sh.maxLevel then []
    else
      var bit := NextBit(Block(m, sh, n), from);
      if bit == KEY_BITS then []
      else Nodes(m, sh, Child(n, bit)) + Kids(m, sh, n, bit + 1)
  }

  const ROOT: Node := Node(0, 0)

  /** What is left once the blocks below n are done. */
  function Up(m: seq<Byte>, sh: Shape, n: Node): seq<Node>
    decreases n.level
  {
    if n.level == 0 then []
    else
      var p := Node(n.level - 1, n.key / KEY_BITS);
      Kids(m, sh, p, n.key % KEY_BITS + 1) + Up(m, sh, p)
  }

  /** The bytes of these blocks, one after the other. */
  function Bytes(m: seq<Byte>, sh: Shape, ns: seq<Node>): (r: seq<Byte>)
    ensures |r| == BLOCK * |ns|
  {
    if ns == [] then [] else Bytes(m, sh, ns[..|ns| - 1]) + Block(m, sh, ns[|ns| - 1])
  }

  function Parent(n: Node): Node
    requires n.level > 0
  {
    Node(n.level - 1, n.key / KEY_BITS)
  }

  /** What a walk standing at bit `from` of n still has to visit. */
  function Rest(m: seq<Byte>, sh: Shape, n: Node, from: nat): seq<Node>
    requires from <= KEY_BITS
  {
    Kids(m, sh, n, from) + Up(m, sh, n)
  }

  lemma ChildParent(n: Node, bit: nat)
    requires bit < KEY_BITS
    ensures Parent(Child(n, bit)) == n && Child(n, bit).key % KEY_BITS == bit
  {}

  lemma Descend(m: seq<Byte>, sh: Shape, n: Node, from: nat)
    requires from <= KEY_BITS && n.level < sh.maxLevel && NextBit(Block(m, sh, n), from) < KEY_BITS
    ensures var c := Child(n, NextBit(Block(m, sh, n), from)); Rest(m, sh, n, from) == [c] + Rest(m, sh, c, 0)
  {
    hide Block, NextBit, Child;
    var bit := NextBit(Block(m, sh, n), from);
    var c := Child(n, bit);
    ChildParent(n, bit);
    ChildLevel(n, bit);
    var down, across, up := Kids(m, sh, c, 0), Kids(m, sh, n, bit + 1), Up(m, sh, n);
    assert Nodes(m, sh, c) == [c] + down;
    assert Kids(m, sh, n, from) == Nodes(m, sh, c) + across;
    assert Up(m, sh, c) == across + up;
    assert ([c] + down + across) + up == [c] + (down + (across + up));
  }

  lemma ChildLevel(n: Node, bit: nat)
    ensures Child(n, bit).level == n.level + 1
  {}

  lemma Ascend(m: seq<Byte>, sh: Shape, n: Node, from: nat)
    requires from <= KEY_BITS && (n.level >= sh.maxLevel || NextBit(Block(m, sh, n), from) == KEY_BITS)
    ensures Rest(m, sh, n, from) == if n.level == 0 then [] else Rest(m, sh, Parent(n), n.key % KEY_BITS + 1)
  {
    hide Block, NextBit;
    assert Kids(m, sh, n, from) == [];
    assert [] + Up(m, sh, n) == Up(m, sh, n);
  }

  /** Every block from the root to n has the bit of the next one set. */
  predicate OnPath(m: seq<Byte>, sh: Shape, n: Node)
    decreases n.level
  {
    n.level > 0 ==> Bit(Block(m, sh, Parent(n)), n.key % KEY_BITS) && OnPath(m, sh, Parent(n))
  }

  lemma PathDown(m: seq<Byte>, sh: Shape, n: Node, bit: nat)
    requires OnPath(m, sh, n) && bit < KEY_BITS && Bit(Block(m, sh, n), bit)
    ensures OnPath(m, sh, Child(n, bit)) && Child(n, bit).level == n.level + 1
  {
    hide Block, Bit;
    ChildParent(n, bit);
  }

  lemma PathUp(m: seq<Byte>, sh: Shape, n: Node)
    requires OnPath(m, sh, n) && n.level > 0
    ensures OnPath(m, sh, Parent(n)) && Bit(Block(m, sh, Parent(n)), n.key % KEY_BITS)
  {
    hide Block, Bit;
  }

  // ------------------------------------------------------------------- the encoding

  function ShapeOf(at: nat, total: nat): Shape {
    Shape(at, MaxLevel(total))
  }

  /** The stored form: the bytes of a flat set, or the blocks reached from the root. */
  function Image(m: seq<Byte>, at: nat, total: nat): seq<Byte> {
    if total <= FLAT_MAX_BITS then
      if at + FlatSize(total) <= |m| then m[at..at + FlatSize(total)] else []
    else
      var sh := ShapeOf(at, total);
      Bytes(m, sh, Nodes(m, sh, ROOT))
  }

  /** The structure lies in memory: the flat bytes, or every block that is reached. */
  predicate Fits(m: seq<Byte>, at: nat, total: nat) {
    at + Footprint(total) <= |m|
    && (total > FLAT_MAX_BITS ==>
          var sh := ShapeOf(at, total); Within(sh, Nodes(m, sh, ROOT), at + Footprint(total)))
  }

  predicate Within(sh: Shape, ns: seq<Node>, end: nat) {
    forall i :: 0 <= i < |ns| ==> BlockAt(sh, ns[i]) + BLOCK <= end
  }

  /** A walk at bit `from` of n has met the blocks `seen`, n among them. */
  ghost predicate Walking(m: seq<Byte>, sh: Shape, n: Node, from: nat, seen: seq<Node>) {
    && from <= KEY_BITS && n.level <= sh.maxLevel && OnPath(m, sh, n)
    && (from > 0 ==> Bit(Block(m, sh, n), from - 1))
    && Nodes(m, sh, ROOT) == seen + Rest(m, sh, n, from)
    && seen != [] && (from == 0 ==> seen[|seen| - 1] == n)
  }

  lemma WalkStart(m: seq<Byte>, sh: Shape)
    ensures Walking(m, sh, ROOT, 0, [ROOT])
  {
    hide Nodes, Rest;
    RootRest(m, sh);
  }

  /** The set bits agree with those from `from` on exactly on the first visit. */
  lemma FirstVisit(m: seq<Byte>, sh: Shape, n: Node, from: nat, seen: seq<Node>)
    requires Walking(m, sh, n, from, seen) && from < KEY_BITS
    ensures Popcount(Block(m, sh, n), 0) == Popcount(Block(m, sh, n), from) <==> from == 0
  {
    hide Block, Popcount, Bit, Nodes, Rest, OnPath;
    PopcountDrops(Block(m, sh, n), 0, from);
  }

  lemma WalkDown(m: seq<Byte>, sh: Shape, n: Node, from: nat, seen: seq<Node>)
    requires Walking(m, sh, n, from, seen) && n.level < sh.maxLevel && NextBit(Block(m, sh, n), from) < KEY_BITS
    ensures var c := Child(n, NextBit(Block(m, sh, n), from));
            Walking(m, sh, c, 0, seen + [c]) && |Rest(m, sh, c, 0)| < |Rest(m, sh, n, from)|
  {
    hide Block, NextBit, Child, Nodes, Rest, OnPath;
    Descend(m, sh, n, from);
    PathDown(m, sh, n, NextBit(Block(m, sh, n), from));
  }

  lemma WalkUp(m: seq<Byte>, sh: Shape, n: Node, from: nat, seen: seq<Node>)
    requires Walking(m, sh, n, from, seen)
    requires n.level >= sh.maxLevel || NextBit(Block(m, sh, n), from) == KEY_BITS
    ensures if n.level == 0 then seen == Nodes(m, sh, ROOT)
            else Walking(m, sh, Parent(n), n.key % KEY_BITS + 1, seen)
                 && Rest(m, sh, Parent(n), n.key % KEY_BITS + 1) == Rest(m, sh, n, from)
  {
    hide Block, NextBit, Nodes, Rest, OnPath;
    Ascend(m, sh, n, from);
    if n.level > 0 {
      PathUp(m, sh, n);
    }
  }

  /** The depth-first walk of mmbit_compsize. */
  method CountBlocks(m: seq<Byte>, sh: Shape) returns (count: nat)
    requires Within(sh, Nodes(m, sh, ROOT), |m|)
    ensures count == |Nodes(m, sh, ROOT)|
  {
    hide Walking, Block, NextBit, Child, Popcount, Rest, Nodes;
    var n: Node, from: nat := ROOT, 0;
    count := 0;
    ghost var seen := [ROOT];
    WalkStart(m, sh);
    while true
      invariant Walking(m, sh, n, from, seen) && from <= KEY_BITS
      invariant count == if from == 0 then |seen| - 1 else |seen|
      decreases |Rest(m, sh, n, from)|, n.level
    {
      if from < KEY_BITS {
        var block := Block(m, sh, n);
        FirstVisit(m, sh, n, from, seen);
        if Popcount(block, 0) == Popcount(block, from) {
          count := count + 1;
        }
        var bit := NextBit(block, from);
        if n.level < sh.maxLevel && bit < KEY_BITS {
          WalkDown(m, sh, n, from, seen);
          n, from := Child(n, bit), 0;
          seen := seen + [n];
          continue;
        }
      }
      WalkUp(m, sh, n, from, seen);
      if n.level == 0 {
        break;
      }
      n, from := Parent(n), n.key % KEY_BITS + 1;
    }
  }

  lemma RootRest(m: seq<Byte>, sh: Shape)
    ensures Nodes(m, sh, ROOT) == [ROOT] + Rest(m, sh, ROOT, 0)
  {
    hide Kids;
    assert Up(m, sh, ROOT) == [];
  }

  lemma SpliceTwice(a: seq<Byte>, p: nat, x: seq<Byte>, y: seq<Byte>)
    requires p + |x| + |y| <= |a|
    ensures Splice(Splice(a, p, x), p + |x|, y) == Splice(a, p, x + y)
  {
    var l, r := Splice(Splice(a, p, x), p + |x|, y), Splice(a, p, x + y);
    forall i | 0 <= i < |a| ensures l[i] == r[i] {
      if p <= i < p + |x| {
        assert Splice(a, p, x)[i] == Splice(a, p, x)[p..p + |x|][i - p];
        assert r[i] == r[p..p + |x + y|][i - p];
      } else if p + |x| <= i < p + |x| + |y| {
        assert l[i] == l[p + |x|..p + |x| + |y|][i - p - |x|];
        assert r[i] == r[p..p + |x + y|][i - p];
      }
    }
  }

  lemma BytesPush(m: seq<Byte>, sh: Shape, ns: seq<Node>, n: Node)
    ensures Bytes(m, sh, ns + [n]) == Bytes(m, sh, ns) + Block(m, sh, n)
  {
    hide Block;
    assert (ns + [n])[..|ns|] == ns;
  }

  /** The walk of mmbit_compress: the same, writing each block on its first visit. */
  method WriteBlocks(m: seq<Byte>, sh: Shape, buf: array<Byte>, pos: nat)
    requires Within(sh, Nodes(m, sh, ROOT), |m|)
    requires pos + BLOCK * |Nodes(m, sh, ROOT)| <= buf.Length
    modifies buf
    ensures buf[..] == Splice(old(buf[..]), pos, Bytes(m, sh, Nodes(m, sh, ROOT)))
  {
    hide Walking, Written, Block, NextBit, Child, Popcount, Rest, Nodes, Splice, Bytes;
    var n: Node, from: nat := ROOT, 0;
    var comp := pos;
    ghost var start, seen, done := buf[..], [ROOT], [];
    WalkStart(m, sh);
    NothingWritten(m, sh, start, pos);
    while true
      invariant Walking(m, sh, n, from, seen) && from <= KEY_BITS
      invariant seen == if from == 0 then done + [n] else done
      invariant comp == pos + BLOCK * |done|
      invariant Written(m, sh, start, pos, done, buf[..])
      decreases |Rest(m, sh, n, from)|, n.level
    {
      if from < KEY_BITS {
        var block := Block(m, sh, n);
        FirstVisit(m, sh, n, from, seen);
        if Popcount(block, 0) == Popcount(block, from) {
          SeenAreNodes(m, sh, n, from, seen);
          WriteNext(m, sh, start, pos, done, n, buf[..]);
          Memcpy(buf, comp, block);
          comp := comp + BLOCK;
          done := seen;
        }
        var bit := NextBit(block, from);
        if n.level < sh.maxLevel && bit < KEY_BITS {
          WalkDown(m, sh, n, from, seen);
          n, from := Child(n, bit), 0;
          seen := seen + [n];
          continue;
        }
      }
      WalkUp(m, sh, n, from, seen);
      if n.level == 0 {
        break;
      }
      n, from := Parent(n), n.key % KEY_BITS + 1;
    }
    AllWritten(m, sh, start, pos, done, buf[..]);
  }

  /** b is a with the blocks ns written from p on. */
  ghost predicate Written(m: seq<Byte>, sh: Shape, a: seq<Byte>, p: nat, ns: seq<Node>, b: seq<Byte>) {
    p + BLOCK * |ns| <= |a| && b == Splice(a, p, Bytes(m, sh, ns))
  }

  lemma SeenAreNodes(m: seq<Byte>, sh: Shape, n: Node, from: nat, seen: seq<Node>)
    requires Walking(m, sh, n, from, seen)
    ensures |seen| <= |Nodes(m, sh, ROOT)|
  {
    hide Nodes, Rest, OnPath, Block, Bit;
  }

  lemma AllWritten(m: seq<Byte>, sh: Shape, a: seq<Byte>, p: nat, ns: seq<Node>, b: seq<Byte>)
    requires Written(m, sh, a, p, ns, b)
    ensures p + BLOCK * |ns| <= |a| && b == Splice(a, p, Bytes(m, sh, ns))
  {
    hide Splice, Bytes;
  }

  lemma WriteNext(m: seq<Byte>, sh: Shape, a: seq<Byte>, p: nat, ns: seq<Node>, n: Node, b: seq<Byte>)
    requires p + BLOCK * |ns + [n]| <= |a| && Written(m, sh, a, p, ns, b)
    ensures |b| == |a| && Written(m, sh, a, p, ns + [n], Splice(b, p + BLOCK * |ns|, Block(m, sh, n)))
  {
    hide Block, Bytes, Splice;
    BytesPush(m, sh, ns, n);
    SpliceTwice(a, p, Bytes(m, sh, ns), Block(m, sh, n));
  }

  lemma NothingWritten(m: seq<Byte>, sh: Shape, a: seq<Byte>, p: nat)
    requires p <= |a|
    ensures Written(m, sh, a, p, [], a)
  {}

  // ------------------------------------------------------------------- the decoding

  predicate Proper(n: Node) {
    n.key < Pow64(n.level)
  }

  lemma ChildProper(n: Node, bit: nat)
    requires Proper(n) && bit < KEY_BITS
    ensures Proper(Child(n, bit))
  {}

  lemma {:induction false} LevelsApart(i: nat, j: nat)
    requires i < j
    ensures RootOffset(i) + Pow64(i) <= RootOffset(j)
    decreases j
  {
    if i + 1 < j {
      LevelsApart(i, j - 1);
    }
  }

  /** Different blocks lie apart. */
  lemma BlocksApart(sh: Shape, a: Node, b: Node)
    requires Proper(a) && Proper(b) && a != b
    ensures BlockAt(sh, a) + BLOCK <= BlockAt(sh, b) || BlockAt(sh, b) + BLOCK <= BlockAt(sh, a)
  {
    hide Pow64;
    if a.level < b.level {
      LevelsApart(a.level, b.level);
    } else if b.level < a.level {
      LevelsApart(b.level, a.level);
    }
  }

  /** Both memories hold the same blocks here. */
  ghost predicate Agree(a: seq<Byte>, b: seq<Byte>, sh: Shape, ns: seq<Node>) {
    forall n :: n in ns ==> Proper(n) && Block(a, sh, n) == Block(b, sh, n)
  }

  lemma CopyBlock(src: seq<Byte>, dst: seq<Byte>, sh: Shape, ns: seq<Node>, c: Node)
    requires |src| == |dst| && Agree(src, dst, sh, ns) && Proper(c) && BlockAt(sh, c) + BLOCK <= |dst|
    ensures Agree(src, Splice(dst, BlockAt(sh, c), Block(src, sh, c)), sh, ns + [c])
  {
    hide BlockAt, Splice, Proper;
    var after := Splice(dst, BlockAt(sh, c), Block(src, sh, c));
    forall n | n in ns + [c] ensures Proper(n) && Block(src, sh, n) == Block(after, sh, n) {
      var p := BlockAt(sh, n);
      if n == c {
      } else {
        BlocksApart(sh, n, c);
        assert n in ns;
        assert Block(src, sh, n) == Block(dst, sh, n);
        if p + BLOCK <= |dst| {
          assert after[p..p + BLOCK] == dst[p..p + BLOCK];
        }
      }
    }
  }

  lemma {:induction false} BytesAt(m: seq<Byte>, sh: Shape, ns: seq<Node>, i: nat)
    requires i < |ns|
    ensures Bytes(m, sh, ns)[BLOCK * i..BLOCK * i + BLOCK] == Block(m, sh, ns[i])
    decreases |ns|
  {
    hide Block;
    var k := |ns| - 1;
    if i < k {
      BytesAt(m, sh, ns[..k], i);
      assert Bytes(m, sh, ns)[BLOCK * i..BLOCK * i + BLOCK] == Bytes(m, sh, ns[..k])[BLOCK * i..BLOCK * i + BLOCK];
    }
  }

  /** The blocks from the root to n are among ns. */
  predicate PathIn(n: Node, ns: seq<Node>)
    decreases n.level
  {
    n in ns && (n.level > 0 ==> PathIn(Parent(n), ns))
  }

  lemma {:induction false} PathInGrows(n: Node, ns: seq<Node>, c: Node)
    requires PathIn(n, ns)
    ensures PathIn(n, ns + [c])
    decreases n.level
  {
    if n.level > 0 {
      PathInGrows(Parent(n), ns, c);
    }
  }

  /** Only bytes from lo to hi differ. */
  ghost predicate Framed(a: seq<Byte>, b: seq<Byte>, lo: nat, hi: nat) {
    |a| == |b| && forall i :: 0 <= i < |a| && (i < lo || hi <= i) ==> a[i] == b[i]
  }

  lemma FramedSplice(a: seq<Byte>, b: seq<Byte>, lo: nat, hi: nat, p: nat, x: seq<Byte>)
    requires Framed(a, b, lo, hi) && lo <= p && p + |x| <= hi <= |b|
    ensures Framed(a, Splice(b, p, x), lo, hi)
  {
    hide Splice;
  }

  lemma RootAt(sh: Shape)
    ensures BlockAt(sh, ROOT) == sh.at
  {}

  lemma BlockAfterRoot(sh: Shape, n: Node)
    ensures BlockAt(sh, n) >= sh.at
  {}

  /** No bit is set. */
  predicate Blank(b: seq<Byte>)
    requires |b| == BLOCK
  {
    NextBit(b, 0) == KEY_BITS
  }

  /** The walk of mmbit_decompress over a stored form that starts at `pos` and of which
      the bytes before `limit` are shown: each block is copied as soon as the bit naming
      it is known. After a cut inside the root, the first child named may lie anywhere;
      the read is then refused. */
  method ReadBlocks(body: array<Byte>, sh: Shape, buf: array<Byte>, pos: nat, limit: nat,
                    ghost src: seq<Byte>, ghost end: nat)
    returns (ok: bool, size: nat)
    requires body != buf && |src| == body.Length && sh.maxLevel > 0
    requires Within(sh, Nodes(src, sh, ROOT), end) && end <= body.Length
    requires Shows(buf[..], pos, Bytes(src, sh, Nodes(src, sh, ROOT)), limit)
    requires !Blank(Peek(buf[..], pos, BLOCK))
    modifies body
    ensures ok <==> pos + BLOCK * |Nodes(src, sh, ROOT)| <= limit
    ensures ok ==> size == BLOCK * |Nodes(src, sh, ROOT)| && Agree(src, body[..], sh, Nodes(src, sh, ROOT))
    ensures ok ==> Framed(old(body[..]), body[..], sh.at, end)
  {
    hide Block, Bit, NextBit, Kids, Up, Child, BlockAt, Bytes, Splice, Nodes, Rest, Framed, Agree, Proper, Peek, Shows;
    ghost var all := Nodes(src, sh, ROOT);
    ghost var bytes, intact := Bytes(src, sh, all), pos + BLOCK <= limit;
    RootRest(src, sh);
    var n: Node, from: nat := ROOT, 0;
    ghost var done: seq<Node> := [ROOT];
    ghost var start := body[..];
    NothingYet(src, start, sh, end);
    BlockAfterRoot(sh, ROOT);
    assert BlockAt(sh, all[0]) + BLOCK <= end;
    var root := Peek(buf[..], pos, BLOCK);
    if intact {
      BytesAt(src, sh, all, 0);
      PeekShown(buf[..], pos, bytes, limit, 0, BLOCK);
      CopyBlock(src, body[..], sh, [], ROOT);
      assert [] + [ROOT] == [ROOT];
    }
    FramedSplice(start, body[..], sh.at, end, BlockAt(sh, ROOT), root);
    BlockSpliced(body[..], sh, ROOT, root);
    Memcpy(body, BlockAt(sh, ROOT), root);
    var comp := pos + BLOCK;
    while true
      invariant from <= KEY_BITS && |done| > 0 && comp == pos + BLOCK * |done|
      invariant intact ==> n.level <= sh.maxLevel && PathIn(n, done)
      invariant intact ==> all == done + Rest(src, sh, n, from) && comp <= limit
      invariant intact ==> Agree(src, body[..], sh, done) && Framed(start, body[..], sh.at, end)
      invariant !intact ==> n == ROOT && from == 0 && comp > limit && Block(body[..], sh, ROOT) == root
      decreases if intact then |Rest(src, sh, n, from)| else 0, n.level
    {
      if intact {
        AgreeAt(src, body[..], sh, done, n);
      }
      if from < KEY_BITS {
        var block := Block(body[..], sh, n);
        var bit := NextBit(block, from);
        if n.level < sh.maxLevel && bit < KEY_BITS {
          var c := Child(n, bit);
          var next := Peek(buf[..], comp, BLOCK);
          if intact {
            Descend(src, sh, n, from);
            ChildParent(n, bit);
            ChildLevel(n, bit);
            ChildProper(n, bit);
            assert all[|done|] == c;
            BlockAfterRoot(sh, c);
            assert BlockAt(sh, all[|done|]) + BLOCK <= end;
            if comp + BLOCK <= limit {
              BytesAt(src, sh, all, |done|);
              PeekShown(buf[..], pos, bytes, limit, BLOCK * |done|, BLOCK);
              CopyBlock(src, body[..], sh, done, c);
              FramedSplice(start, body[..], sh.at, end, BlockAt(sh, c), next);
              PathInGrows(n, done, c);
            }
          }
          if BlockAt(sh, c) + BLOCK <= body.Length {
            Memcpy(body, BlockAt(sh, c), next);
          }
          comp := comp + BLOCK;
          if comp > limit {
            return false, 0;
          }
          done := done + [c];
          n, from := c, 0;
          continue;
        }
      }
      Ascend(src, sh, n, from);
      if n.level == 0 {
        break;
      }
      n, from := Parent(n), n.key % KEY_BITS + 1;
    }
    assert done == all;
    return true, comp - pos;
  }

  lemma BlockSpliced(m: seq<Byte>, sh: Shape, n: Node, x: seq<Byte>)
    requires |x| == BLOCK && BlockAt(sh, n) + BLOCK <= |m|
    ensures Block(Splice(m, BlockAt(sh, n), x), sh, n) == x
  {
    hide Splice;
  }

  lemma NothingYet(src: seq<Byte>, m: seq<Byte>, sh: Shape, end: nat)
    ensures Agree(src, m, sh, []) && Proper(ROOT) && Framed(m, m, sh.at, end)
  {}

  lemma AgreeAt(a: seq<Byte>, b: seq<Byte>, sh: Shape, ns: seq<Node>, n: Node)
    requires Agree(a, b, sh, ns) && n in ns
    ensures Proper(n) && Block(a, sh, n) == Block(b, sh, n)
  {}

  // -------------------------------------------------------- the set that is stored

  /** mmbit_isset: the bit of the key, and of every block on the way to it. */
  predicate IsSet(m: seq<Byte>, at: nat, total: nat, key: nat) {
    if total <= FLAT_MAX_BITS then at + key / 8 < |m| && Bit([m[at + key / 8]], key % 8)
    else
      var sh := ShapeOf(at, total);
      var leaf := Node(sh.maxLevel, key / KEY_BITS);
      Bit(Block(m, sh, leaf), key % KEY_BITS) && OnPath(m, sh, leaf)
  }

  /** What decoding a into b has to achieve: the flat bytes, or the blocks reached. */
  ghost predicate Restored(a: seq<Byte>, b: seq<Byte>, at: nat, total: nat) {
    if total <= FLAT_MAX_BITS then
      at + FlatSize(total) <= |a| && at + FlatSize(total) <= |b|
      && a[at..at + FlatSize(total)] == b[at..at + FlatSize(total)]
    else
      var sh := ShapeOf(at, total);
      Agree(a, b, sh, Nodes(a, sh, ROOT))
  }

  /** The child a set bit names comes with its parent. */
  lemma {:induction false} NodesClosed(m: seq<Byte>, sh: Shape, n: Node, p: Node, bit: nat)
    requires bit < KEY_BITS && p.level < sh.maxLevel && Bit(Block(m, sh, p), bit)
    requires p in Nodes(m, sh, n)
    ensures Child(p, bit) in Nodes(m, sh, n)
    decreases sh.maxLevel - n.level, KEY_BITS + 1
  {
    hide Block, Bit, NextBit, Child;
    if p == n {
      KidsHave(m, sh, n, 0, bit);
    } else {
      KidsClosed(m, sh, n, 0, p, bit);
    }
  }

  lemma {:induction false} KidsClosed(m: seq<Byte>, sh: Shape, n: Node, from: nat, p: Node, bit: nat)
    requires bit < KEY_BITS && p.level < sh.maxLevel && Bit(Block(m, sh, p), bit)
    requires from <= KEY_BITS && p in Kids(m, sh, n, from)
    ensures Child(p, bit) in Kids(m, sh, n, from)
    decreases sh.maxLevel - n.level, KEY_BITS - from
  {
    hide Block, Bit, NextBit, Child, Nodes;
    var b := NextBit(Block(m, sh, n), from);
    ChildLevel(n, b);
    if p in Nodes(m, sh, Child(n, b)) {
      NodesClosed(m, sh, Child(n, b), p, bit);
    } else {
      KidsClosed(m, sh, n, b + 1, p, bit);
    }
  }

  lemma {:induction false} KidsHave(m: seq<Byte>, sh: Shape, n: Node, from: nat, bit: nat)
    requires from <= bit < KEY_BITS && n.level < sh.maxLevel && Bit(Block(m, sh, n), bit)
    ensures Child(n, bit) in Kids(m, sh, n, from)
    decreases KEY_BITS - from
  {
    hide Block, Bit, Child;
    var b := NextBit(Block(m, sh, n), from);
    if b < bit {
      KidsHave(m, sh, n, b + 1, bit);
    } else {
      assert b == bit;
      assert Child(n, bit) in Nodes(m, sh, Child(n, bit));
    }
  }

  lemma ParentProper(n: Node)
    requires Proper(n) && n.level > 0
    ensures Proper(Parent(n)) && Child(Parent(n), n.key % KEY_BITS) == n
  {}

  /** A block every bit on whose path is set is stored. */
  lemma {:induction false} PathIsStored(m: seq<Byte>, sh: Shape, n: Node)
    requires Proper(n) && n.level <= sh.maxLevel && OnPath(m, sh, n)
    ensures n in Nodes(m, sh, ROOT)
    decreases n.level
  {
    hide Block, Bit, Kids, Child;
    if n.level == 0 {
      assert n == ROOT;
    } else {
      ParentProper(n);
      PathIsStored(m, sh, Parent(n));
      NodesClosed(m, sh, ROOT, Parent(n), n.key % KEY_BITS);
    }
  }

  lemma {:induction false} SamePath(a: seq<Byte>, b: seq<Byte>, sh: Shape, n: Node)
    requires Agree(a, b, sh, Nodes(a, sh, ROOT)) && Proper(n) && n.level <= sh.maxLevel
    ensures OnPath(a, sh, n) == OnPath(b, sh, n)
    decreases n.level
  {
    hide Block, Bit, Nodes, Child, Proper;
    if n.level > 0 {
      ParentProper(n);
      SamePath(a, b, sh, Parent(n));
      if OnPath(a, sh, Parent(n)) {
        PathIsStored(a, sh, Parent(n));
      }
    }
  }

  lemma KeyProper(total: nat, key: nat)
    requires key < total <= 0x1_0000_0000
    ensures Proper(Node(MaxLevel(total), key / KEY_BITS))
  {
    assert Pow64(1) == 0x40;
    assert Pow64(2) == 0x1000;
    assert Pow64(3) == 0x4_0000;
    assert Pow64(4) == 0x100_0000;
    assert Pow64(5) == 0x4000_0000;
  }

  /** A restored structure holds the same set. */
  lemma SameSet(a: seq<Byte>, b: seq<Byte>, at: nat, total: nat, key: nat)
    requires Restored(a, b, at, total) && key < total <= 0x1_0000_0000
    ensures IsSet(a, at, total, key) == IsSet(b, at, total, key)
  {
    hide Bit, Block, Nodes;
    if total <= FLAT_MAX_BITS {
      var f := FlatSize(total);
      assert a[at + key / 8] == a[at..at + f][key / 8];
      assert b[at + key / 8] == b[at..at + f][key / 8];
    } else {
      var sh := ShapeOf(at, total);
      var leaf := Node(sh.maxLevel, key / KEY_BITS);
      KeyProper(total, key);
      SamePath(a, b, sh, leaf);
      if OnPath(a, sh, leaf) {
        PathIsStored(a, sh, leaf);
      }
    }
  }

  /** And it is stored in the same bytes. */
  lemma SameImage(a: seq<Byte>, b: seq<Byte>, at: nat, total: nat)
    requires |a| == |b| && Restored(a, b, at, total)
    ensures Image(a, at, total) == Image(b, at, total)
  {
    if total > FLAT_MAX_BITS {
      hide Nodes, Block, Bytes;
      var sh := ShapeOf(at, total);
      SameNodes(a, b, sh, ROOT);
      SameBytes(a, b, sh, Nodes(a, sh, ROOT));
    }
  }

  lemma {:induction false} SameNodes(a: seq<Byte>, b: seq<Byte>, sh: Shape, n: Node)
    requires Agree(a, b, sh, Nodes(a, sh, n))
    ensures Nodes(a, sh, n) == Nodes(b, sh, n)
    decreases sh.maxLevel - n.level, KEY_BITS + 1
  {
    hide Block, Proper;
    assert n in Nodes(a, sh, n);
    SameKids(a, b, sh, n, 0);
  }

  lemma {:induction false} SameKids(a: seq<Byte>, b: seq<Byte>, sh: Shape, n: Node, from: nat)
    requires from <= KEY_BITS && Block(a, sh, n) == Block(b, sh, n) && Agree(a, b, sh, Kids(a, sh, n, from))
    ensures Kids(a, sh, n, from) == Kids(b, sh, n, from)
    decreases sh.maxLevel - n.level, KEY_BITS - from
  {
    hide Block, Proper, NextBit, Nodes, Child;
    var bit := NextBit(Block(a, sh, n), from);
    ChildLevel(n, bit);
    if n.level < sh.maxLevel && bit < KEY_BITS {
      SameNodes(a, b, sh, Child(n, bit));
      SameKids(a, b, sh, n, bit + 1);
    }
  }

  lemma {:induction false} SameBytes(a: seq<Byte>, b: seq<Byte>, sh: Shape, ns: seq<Node>)
    requires Agree(a, b, sh, ns)
    ensures Bytes(a, sh, ns) == Bytes(b, sh, ns)
  {
    hide Block, Proper;
    if ns != [] {
      SameBytes(a, b, sh, ns[..|ns| - 1]);
    }
  }

  // ---------------------------------------------------------------------- the calls

  /** A pyramid with more than its root. */
  predicate Tall(m: seq<Byte>, at: nat, total: nat) {
    total > FLAT_MAX_BITS && NextBit(Block(m, ShapeOf(at, total), ROOT), 0) < KEY_BITS
  }

  lemma TallNodes(m: seq<Byte>, at: nat, total: nat)
    requires total > FLAT_MAX_BITS
    ensures Tall(m, at, total) <==> |Nodes(m, ShapeOf(at, total), ROOT)| > 1
  {
    hide Block, NextBit;
    var sh := ShapeOf(at, total);
    assert Kids(m, sh, ROOT, 0) == [] <==> !Tall(m, at, total);
  }

  lemma FootprintHolds(total: nat)
    requires total > FLAT_MAX_BITS
    ensures BLOCK <= Footprint(total)
  {}

  method CompSize(m: seq<Byte>, at: nat, total: nat) returns (size: nat)
    requires Fits(m, at, total)
    ensures size == |Image(m, at, total)|
  {
    hide Nodes, Within, NextBit, Block, RootOffset;
    if total <= FLAT_MAX_BITS {
      return FlatSize(total);
    }
    var sh := ShapeOf(at, total);
    WithinGrows(sh, Nodes(m, sh, ROOT), at + Footprint(total), |m|);
    TallNodes(m, at, total);
    if NextBit(Block(m, sh, ROOT), 0) == KEY_BITS {
      return BLOCK;
    }
    var count := CountBlocks(m, sh);
    return BLOCK * count;
  }

  lemma WithinGrows(sh: Shape, ns: seq<Node>, end: nat, more: nat)
    requires Within(sh, ns, end) && end <= more
    ensures Within(sh, ns, more)
  {
    hide BlockAt;
  }

  method Compress(m: seq<Byte>, at: nat, total: nat, buf: array<Byte>, pos: nat, space: nat)
    returns (ok: bool, size: nat)
    requires Fits(m, at, total) && pos + space <= buf.Length
    modifies buf
    ensures ok <==> |Image(m, at, total)| <= space
    ensures ok ==> size == |Image(m, at, total)| && buf[..] == Splice(old(buf[..]), pos, Image(m, at, total))
    ensures !ok ==> buf[..] == old(buf[..])
  {
    hide Nodes, Within, NextBit, Block, RootOffset, Bytes, Splice;
    size := CompSize(m, at, total);
    if size > space {
      return false, 0;
    }
    if total <= FLAT_MAX_BITS {
      Memcpy(buf, pos, m[at..at + size]);
      return true, size;
    }
    var sh := ShapeOf(at, total);
    WithinGrows(sh, Nodes(m, sh, ROOT), at + Footprint(total), |m|);
    TallNodes(m, at, total);
    if NextBit(Block(m, sh, ROOT), 0) == KEY_BITS {
      OneBlock(m, sh);
      Memcpy(buf, pos, Block(m, sh, ROOT));
      return true, size;
    }
    WriteBlocks(m, sh, buf, pos);
    return true, size;
  }

  lemma OneBlock(m: seq<Byte>, sh: Shape)
    requires |Nodes(m, sh, ROOT)| == 1
    ensures Bytes(m, sh, Nodes(m, sh, ROOT)) == Block(m, sh, ROOT)
  {
    hide Block;
    assert Nodes(m, sh, ROOT) == [ROOT];
    BytesPush(m, sh, [], ROOT);
    assert [] + [ROOT] == [ROOT];
  }

  /** Where reading a set stored at `pos` ends, of which the bytes before `limit` are
      those stored for src: whole, it is read; cut, a flat set is read from whatever
      follows, and a pyramid only if its root is cut and reads as empty. */
  function ReadEnd(src: seq<Byte>, at: nat, total: nat, buf: seq<Byte>, pos: nat, limit: nat): Option<nat> {
    if pos + |Image(src, at, total)| <= limit then Some(pos + |Image(src, at, total)|)
    else if total <= FLAT_MAX_BITS then Some(pos + FlatSize(total))
    else if pos + BLOCK <= limit || !Blank(Peek(buf, pos, BLOCK)) then None
    else Some(pos + BLOCK)
  }

  /** What a cut set holds once read. */
  ghost predicate AsRead(m: seq<Byte>, at: nat, total: nat, buf: seq<Byte>, pos: nat) {
    if total <= FLAT_MAX_BITS then
      at + FlatSize(total) <= |m| && m[at..at + FlatSize(total)] == Peek(buf, pos, FlatSize(total))
    else Blank(Block(m, ShapeOf(at, total), ROOT))
  }

  /** mmbit_decompress at `pos`, with `limit` the end of the space given, of which the
      bytes before the limit are those stored for src and the others anything. */
  method Decompress(body: array<Byte>, at: nat, total: nat, buf: array<Byte>, pos: nat, limit: nat,
                    ghost src: seq<Byte>)
    returns (ok: bool, size: nat)
    requires body != buf && |src| == body.Length && Fits(src, at, total)
    requires Shows(buf[..], pos, Image(src, at, total), limit)
    modifies body
    ensures ok <==> ReadEnd(src, at, total, buf[..], pos, limit).Some?
    ensures ok ==> pos + size == ReadEnd(src, at, total, buf[..], pos, limit).value
    ensures ok ==> Framed(old(body[..]), body[..], at, at + Footprint(total))
    ensures ok && pos + |Image(src, at, total)| <= limit ==> Restored(src, body[..], at, total)
    ensures ok && pos + |Image(src, at, total)| > limit ==> AsRead(body[..], at, total, buf[..], pos)
  {
    hide Nodes, Within, NextBit, Block, RootOffset, Bytes, Agree, Proper, Peek, Shows;
    if total <= FLAT_MAX_BITS {
      size := FlatSize(total);
      if pos + size <= limit {
        PeekShown(buf[..], pos, Image(src, at, total), limit, 0, size);
      }
      Memcpy(body, at, Peek(buf[..], pos, size));
      return true, size;
    }
    var sh := ShapeOf(at, total);
    RootIsFirst(src, sh);
    RootAt(sh);
    FootprintHolds(total);
    ghost var ns := Nodes(src, sh, ROOT);
    var root := Peek(buf[..], pos, BLOCK);
    if pos + BLOCK <= limit {
      BytesAt(src, sh, ns, 0);
      PeekShown(buf[..], pos, Image(src, at, total), limit, 0, BLOCK);
    }
    if NextBit(root, 0) == KEY_BITS {
      BlockSpliced(body[..], sh, ROOT, root);
      if pos + BLOCK <= limit {
        TallNodes(src, at, total);
        NothingYet(src, body[..], sh, at);
        CopyBlock(src, body[..], sh, [], ROOT);
        assert ns == [] + [ROOT];
      }
      Memcpy(body, at, root);
      return true, BLOCK;
    }
    ok, size := ReadBlocks(body, sh, buf, pos, limit, src, at + Footprint(total));
    if pos + BLOCK <= limit {
      TallNodes(src, at, total);
    }
  }

  lemma RootIsFirst(m: seq<Byte>, sh: Shape)
    ensures |Nodes(m, sh, ROOT)| >= 1 && Nodes(m, sh, ROOT)[0] == ROOT
  {
    hide Kids;
  }

  /** No key below n is set. */
  ghost predicate NoKey(m: seq<Byte>, at: nat, total: nat, n: nat) {
    forall key: nat :: key < n ==> !IsSet(m, at, total, key)
  }

  /** Some key is set in the flat set that reads from `pos` on. */
  ghost predicate AnyKey(buf: seq<Byte>, pos: nat, total: nat) {
    total <= FLAT_MAX_BITS && exists key: nat :: key < total && IsSet(Peek(buf, pos, FlatSize(total)), 0, total, key)
  }

  lemma {:induction false} BlankHasNoPath(m: seq<Byte>, sh: Shape, n: Node)
    requires Blank(Block(m, sh, ROOT)) && Proper(n) && n.level > 0
    ensures !OnPath(m, sh, n)
    decreases n.level
  {
    hide Block;
    ParentProper(n);
    if n.level == 1 {
      assert Parent(n) == ROOT;
    } else {
      BlankHasNoPath(m, sh, Parent(n));
    }
  }

  lemma ZerosAreBlank(b: seq<Byte>)
    requires |b| == BLOCK && forall i :: 0 <= i < BLOCK ==> b[i] == 0
    ensures Blank(b)
  {
    var bit := NextBit(b, 0);
    if bit < KEY_BITS {
      assert b[bit / 8] == 0;
    }
  }

  /** Past the end of the buffer no key is set. */
  lemma NoKeyAfter(buf: seq<Byte>, pos: nat, total: nat)
    requires pos >= |buf|
    ensures !AnyKey(buf, pos, total)
  {
    if total <= FLAT_MAX_BITS {
      var x := Peek(buf, pos, FlatSize(total));
      forall key: nat | key < total ensures !IsSet(x, 0, total, key) {
        assert x[0 + key / 8] == 0;
      }
    }
  }

  /** A cut set that was read holds a key exactly when its bytes do. */
  lemma AsReadKeys(m: seq<Byte>, at: nat, total: nat, buf: seq<Byte>, pos: nat)
    requires AsRead(m, at, total, buf, pos) && total <= 0x1_0000_0000
    ensures NoKey(m, at, total, total) <==> !AnyKey(buf, pos, total)
  {
    hide Bit, Block, Blank, Peek, OnPath;
    var f := FlatSize(total);
    forall key: nat | key < total
      ensures IsSet(m, at, total, key) == (total <= FLAT_MAX_BITS && IsSet(Peek(buf, pos, f), 0, total, key))
    {
      if total <= FLAT_MAX_BITS {
        assert m[at + key / 8] == m[at..at + f][key / 8] == Peek(buf, pos, f)[0 + key / 8];
      } else {
        KeyProper(total, key);
        BlankHasNoPath(m, ShapeOf(at, total), Node(MaxLevel(total), key / KEY_BITS));
      }
    }
  }

  /** Writing elsewhere leaves a restored structure restored. */
  lemma RestoredElsewhere(src: seq<Byte>, a: seq<Byte>, b: seq<Byte>, at: nat, total: nat, lo: nat, hi: nat)
    requires |src| == |a| && Fits(src, at, total) && Restored(src, a, at, total)
    requires Framed(a, b, lo, hi) && (lo == hi || Footprint(total) == 0 || hi <= at || at + Footprint(total) <= lo)
    ensures Restored(src, b, at, total)
  {
    hide Nodes, Proper, FlatSize, RootOffset;
    if total <= FLAT_MAX_BITS {
      var f := FlatSize(total);
      assert a[at..at + f] == b[at..at + f];
    } else {
      FootprintHolds(total);
      var sh := ShapeOf(at, total);
      var ns := Nodes(src, sh, ROOT);
      forall n | n in ns ensures Proper(n) && Block(src, sh, n) == Block(b, sh, n) {
        AgreeAt(src, a, sh, ns, n);
        BlockAfterRoot(sh, n);
        var i :| 0 <= i < |ns| && ns[i] == n;
        var p := BlockAt(sh, n);
        assert p + BLOCK <= at + Footprint(total);
        assert a[p..p + BLOCK] == b[p..p + BLOCK];
      }
    }
  }

  lemma RestoredItself(a: seq<Byte>, at: nat, total: nat)
    requires Fits(a, at, total)
    ensures Restored(a, a, at, total)
  {
    hide Kids, Block;
    if total > FLAT_MAX_BITS {
      NodesProper(a, ShapeOf(at, total), ROOT);
    }
  }

  lemma {:induction false} NodesProper(m: seq<Byte>, sh: Shape, n: Node)
    requires Proper(n)
    ensures forall k :: k in Nodes(m, sh, n) ==> Proper(k)
    decreases sh.maxLevel - n.level, KEY_BITS + 1
  {
    hide Proper;
    KidsProper(m, sh, n, 0);
  }

  lemma {:induction false} KidsProper(m: seq<Byte>, sh: Shape, n: Node, from: nat)
    requires Proper(n) && from <= KEY_BITS
    ensures forall k :: k in Kids(m, sh, n, from) ==> Proper(k)
    decreases sh.maxLevel - n.level, KEY_BITS - from
  {
    hide Block, Proper, NextBit, Nodes, Child;
    var bit := NextBit(Block(m, sh, n), from);
    ChildLevel(n, bit);
    if n.level < sh.maxLevel && bit < KEY_BITS {
      ChildProper(n, bit);
      NodesProper(m, sh, Child(n, bit));
      KidsProper(m, sh, n, bit + 1);
    }
  }
}
