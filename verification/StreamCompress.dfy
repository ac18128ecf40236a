/** Stream state compression (src/stream_compress.c, src/stream_compress_impl.h): one
    template, instantiated to measure, to write and to read back the parts of a
    stream's state that matter. What is read decides what is read next. */
module StreamCompress {
  import opened Memory
  import opened Options
  import opened Multibit

  datatype Region = Region(at: nat, size: nat)

  /** Start-of-match slots: the writable and valid sets, and the slots. */
  datatype Som = Som(writable: nat, valid: nat, location: nat, count: nat, horizon: nat)

  /** The parts of a RoseEngine the template reads. Places are relative to the stream
      body. `leftIter` holds the leftfixes the sparse iterator visits, the ones that
      are not transient; it is absent when the engine has no such iterator. */
  datatype Rose = Rose(
    roleCount: nat,
    activeLeaf: nat, activeLeafCount: nat,
    activeLeft: nat, activeLeftCount: nat,
    longLit: Region, anchoredDistance: nat, anchor: Region, groups: Region,
    history: nat, historyRequired: nat,
    exhausted: nat, ekeyCount: nat,
    logical: nat, logicalCount: nat,
    comb: nat, ckeyCount: nat,
    nfaStates: seq<Region>, leftfixBeginQueue: nat, leftIter: Option<set<nat>>,
    lagTable: nat, lagIndex: seq<nat>,
    som: Option<Som>)

  /** The template's two copy operations. */
  datatype Piece =
    | Plain(at: nat, size: nat)
    | Bits(at: nat, total: nat)

  /** struct hs_stream: the engine pointer, then the offset, then the body. */
  const OFFSET_AT: nat := 8
  const HEADER: nat := 16

  const U32: nat := 0x1_0000_0000

  function Offset(m: seq<Byte>): nat {
    if |m| < HEADER then 0
    else Load(m[OFFSET_AT..HEADER])
  }

  /** A little-endian load. */
  function Load(b: seq<Byte>): nat {
    if b == [] then 0 else b[0] as nat + 256 * Load(b[1..])
  }

  /** The bytes of history that are copied: the offset is cut to 32 bits first. */
  function HistoryCopied(offset: nat, required: nat): (r: nat)
    ensures r <= required
  {
    var low := offset % U32;
    if low < required then low else required
  }

  // ------------------------------------------------------------------- the template

  function InBody(r: Region): Piece {
    Plain(HEADER + r.at, r.size)
  }

  /** The copies that depend on nothing but the offset. */
  function Fixed(rose: Rose, offset: nat): seq<Piece> {
    var h := HistoryCopied(offset, rose.historyRequired);
    [Plain(HEADER, 1),
     Bits(HEADER + 1, rose.roleCount),
     Bits(HEADER + rose.activeLeaf, rose.activeLeafCount),
     Bits(HEADER + rose.activeLeft, rose.activeLeftCount),
     InBody(rose.longLit)]
    + (if offset <= rose.anchoredDistance then [InBody(rose.anchor)] else [])
    + [InBody(rose.groups),
       Plain(HEADER + rose.history + rose.historyRequired - h, h),
       Bits(HEADER + rose.exhausted, rose.ekeyCount),
       Bits(HEADER + rose.logical, rose.logicalCount),
       Bits(HEADER + rose.comb, rose.ckeyCount)]
  }

  predicate LeafOn(rose: Rose, m: seq<Byte>, qi: nat) {
    IsSet(m, HEADER + rose.activeLeaf, rose.activeLeafCount, qi)
  }

  function Leaf(rose: Rose, m: seq<Byte>, qi: nat): seq<Piece>
    requires qi < |rose.nfaStates|
  {
    if LeafOn(rose, m, qi) then [InBody(rose.nfaStates[qi])] else []
  }

  /** The state of each active endfix below n. */
  function Leaves(rose: Rose, m: seq<Byte>, n: nat): seq<Piece>
    requires n <= |rose.nfaStates|
  {
    if n == 0 then [] else Leaves(rose, m, n - 1) + Leaf(rose, m, n - 1)
  }

  predicate LeftOn(rose: Rose, m: seq<Byte>, ri: nat) {
    rose.leftIter.Some? && ri in rose.leftIter.value
    && IsSet(m, HEADER + rose.activeLeft, rose.activeLeftCount, ri)
  }

  function LagByte(rose: Rose, ri: nat): Piece
    requires ri < |rose.lagIndex|
  {
    Plain(HEADER + rose.lagTable + rose.lagIndex[ri], 1)
  }

  function Left(rose: Rose, m: seq<Byte>, ri: nat): seq<Piece>
    requires rose.leftfixBeginQueue + ri < |rose.nfaStates| && ri < |rose.lagIndex|
  {
    if LeftOn(rose, m, ri) then [InBody(rose.nfaStates[rose.leftfixBeginQueue + ri]), LagByte(rose, ri)] else []
  }

  /** The state and the lag byte of each active leftfix below n. */
  function Lefts(rose: Rose, m: seq<Byte>, n: nat): seq<Piece>
    requires rose.leftfixBeginQueue + n <= |rose.nfaStates| && n <= |rose.lagIndex|
  {
    if n == 0 then [] else Lefts(rose, m, n - 1) + Left(rose, m, n - 1)
  }

  function LeftPieces(rose: Rose, m: seq<Byte>): seq<Piece>
    requires Sound(rose)
  {
    if rose.leftIter.Some? then Lefts(rose, m, rose.activeLeftCount) else []
  }

  function SomSets(som: Som): seq<Piece> {
    [Bits(HEADER + som.writable, som.count), Bits(HEADER + som.valid, som.count)]
  }

  function Product(a: nat, b: nat): (r: nat)
    ensures r == a * b
  {
    a * b
  }

  function Slot(som: Som, m: seq<Byte>, slot: nat): seq<Piece> {
    if IsSet(m, HEADER + som.valid, som.count, slot)
    then [Plain(HEADER + som.location + Product(slot, som.horizon), som.horizon)] else []
  }

  /** The valid start-of-match slots below n. */
  function Slots(som: Som, m: seq<Byte>, n: nat): seq<Piece> {
    if n == 0 then [] else Slots(som, m, n - 1) + Slot(som, m, n - 1)
  }

  function SomPieces(rose: Rose, m: seq<Byte>): seq<Piece> {
    if rose.som.None? then []
    else SomSets(rose.som.value) + Slots(rose.som.value, m, rose.som.value.count)
  }

  /** The engine's tables cover its queues, and its counts fit 32 bits. */
  predicate Sound(rose: Rose) {
    && rose.activeLeafCount <= |rose.nfaStates|
    && rose.leftfixBeginQueue + rose.activeLeftCount <= |rose.nfaStates|
    && rose.activeLeftCount <= |rose.lagIndex|
    && rose.roleCount <= U32 && rose.activeLeafCount <= U32 && rose.activeLeftCount <= U32
    && rose.ekeyCount <= U32 && rose.logicalCount <= U32 && rose.ckeyCount <= U32
    && (rose.som.Some? ==> rose.som.value.count <= U32)
  }

  /** Everything that is copied for the stream in m before the start-of-match part. */
  function BeforeSom(rose: Rose, m: seq<Byte>): seq<Piece>
    requires Sound(rose)
  {
    [Plain(OFFSET_AT, 8)]
    + Fixed(rose, Offset(m))
    + Leaves(rose, m, rose.activeLeafCount)
    + LeftPieces(rose, m)
  }

  /** Everything that is copied for the stream in m, in order. */
  function Script(rose: Rose, m: seq<Byte>): seq<Piece>
    requires Sound(rose)
  {
    BeforeSom(rose, m) + SomPieces(rose, m)
  }

  // ---------------------------------------------------------------- the stored bytes

  function PieceImage(m: seq<Byte>, p: Piece): seq<Byte> {
    match p
    case Plain(at, size) => if at + size <= |m| then m[at..at + size] else []
    case Bits(at, total) => Image(m, at, total)
  }

  function ImageOf(m: seq<Byte>, ps: seq<Piece>): seq<Byte> {
    if ps == [] then [] else ImageOf(m, ps[..|ps| - 1]) + PieceImage(m, ps[|ps| - 1])
  }

  predicate PieceFits(m: seq<Byte>, p: Piece) {
    match p
    case Plain(at, size) => at + size <= |m|
    case Bits(at, total) => Fits(m, at, total)
  }

  function Start(p: Piece): nat { p.at }

  function End(p: Piece): nat {
    match p
    case Plain(at, size) => at + size
    case Bits(at, total) => at + Footprint(total)
  }

  predicate Apart(p: Piece, q: Piece) {
    Start(p) == End(p) || Start(q) == End(q) || End(p) <= Start(q) || End(q) <= Start(p)
  }

  /** The pieces lie in memory and none overlaps another. */
  predicate Separate(m: seq<Byte>, ps: seq<Piece>) {
    && (forall i :: 0 <= i < |ps| ==> PieceFits(m, ps[i]))
    && (forall i, j :: 0 <= i < j < |ps| ==> Apart(ps[i], ps[j]))
  }

  ghost predicate PieceRestored(a: seq<Byte>, b: seq<Byte>, p: Piece) {
    match p
    case Plain(at, size) => at + size <= |a| && |a| == |b| && a[at..at + size] == b[at..at + size]
    case Bits(at, total) => |a| == |b| && Restored(a, b, at, total)
  }

  ghost predicate AllRestored(a: seq<Byte>, b: seq<Byte>, ps: seq<Piece>) {
    forall p :: p in ps ==> PieceRestored(a, b, p)
  }

  /** Where reading a piece back ends, when the bytes before the limit are those stored
      for src and the others anything; None if it is refused. */
  function PieceEnd(src: seq<Byte>, p: Piece, buf: seq<Byte>, cur: nat, limit: nat): Option<nat> {
    match p
    case Plain(_, _) =>
      if cur + |PieceImage(src, p)| <= limit then Some(cur + |PieceImage(src, p)|) else None
    case Bits(at, total) => ReadEnd(src, at, total, buf, cur, limit)
  }

  /** The same for several pieces, from the start of the buffer. */
  function Reading(src: seq<Byte>, ps: seq<Piece>, buf: seq<Byte>, limit: nat): Option<nat> {
    if ps == [] then Some(0)
    else
      var cur := Reading(src, ps[..|ps| - 1], buf, limit);
      if cur.None? then None else PieceEnd(src, ps[|ps| - 1], buf, cur.value, limit)
  }

  lemma ImagePush(m: seq<Byte>, ps: seq<Piece>, p: Piece)
    ensures ImageOf(m, ps + [p]) == ImageOf(m, ps) + PieceImage(m, p)
  {
    hide PieceImage;
    assert (ps + [p])[..|ps|] == ps;
  }

  lemma ReadingPush(src: seq<Byte>, ps: seq<Piece>, p: Piece, buf: seq<Byte>, limit: nat)
    ensures var cur := Reading(src, ps, buf, limit);
            Reading(src, ps + [p], buf, limit) == if cur.None? then None else PieceEnd(src, p, buf, cur.value, limit)
  {
    hide PieceEnd;
    assert (ps + [p])[..|ps|] == ps;
  }

  /** Once refused, refused for good. */
  lemma {:induction false} RefusedForGood(src: seq<Byte>, ps: seq<Piece>, qs: seq<Piece>, buf: seq<Byte>, limit: nat)
    requires ps <= qs && Reading(src, ps, buf, limit).None?
    ensures Reading(src, qs, buf, limit).None?
    decreases |qs|
  {
    hide PieceEnd;
    if |ps| < |qs| {
      RefusedForGood(src, ps, qs[..|qs| - 1], buf, limit);
    } else {
      assert ps == qs;
    }
  }

  /** A piece is whole exactly when its end is within the limit. */
  lemma PieceEndWithin(src: seq<Byte>, p: Piece, buf: seq<Byte>, cur: nat, limit: nat)
    requires PieceFits(src, p) && PieceEnd(src, p, buf, cur, limit).Some?
    ensures var c := PieceEnd(src, p, buf, cur, limit).value;
            && cur <= c
            && (c <= limit <==> cur + |PieceImage(src, p)| <= limit)
            && (c <= limit ==> c == cur + |PieceImage(src, p)|)
            && (p.Plain? ==> c <= limit)
  {
    hide Blank, Peek, Nodes;
    if p.Bits? {
      RootIsFirst(src, ShapeOf(p.at, p.total));
    }
  }

  /** The bytes of a piece lie where the pieces before it end. */
  lemma {:induction false} ImageAt(m: seq<Byte>, ps: seq<Piece>, i: nat)
    requires i < |ps|
    ensures ImageOf(m, ps[..i]) + PieceImage(m, ps[i]) <= ImageOf(m, ps)
    decreases |ps|
  {
    hide PieceImage;
    var k := |ps| - 1;
    if i < k {
      ImageAt(m, ps[..k], i);
      assert ps[..k][..i] == ps[..i];
    }
  }

  lemma PieceRestoredItself(m: seq<Byte>, p: Piece)
    requires PieceFits(m, p)
    ensures PieceRestored(m, m, p)
  {
    hide Fits, Restored;
    if p.Bits? {
      RestoredItself(m, p.at, p.total);
    }
  }

  lemma PieceRestoredElsewhere(src: seq<Byte>, a: seq<Byte>, b: seq<Byte>, q: Piece, p: Piece)
    requires |src| == |a| && PieceFits(src, q) && PieceRestored(src, a, q) && Apart(q, p)
    requires Framed(a, b, Start(p), End(p))
    ensures PieceRestored(src, b, q)
  {
    hide Fits, Restored, Footprint;
    match q
    case Plain(at, size) =>
      assert a[at..at + size] == b[at..at + size];
    case Bits(at, total) =>
      RestoredElsewhere(src, a, b, at, total, Start(p), End(p));
  }

  // ---------------------------------------------------------------- the three passes

  datatype Mode = Measure | Write | Read

  /** After this many pieces: where a pass stands, what it has written, and what it has
      restored. When reading, the bytes before the limit are those stored for `src`;
      the first `kept` pieces were whole, and only sets are read after a cut. */
  ghost predicate Standing(mode: Mode, src: seq<Byte>, whole: seq<Piece>, done: seq<Piece>, kept: nat,
                           mem: seq<Byte>, buf: seq<Byte>, limit: nat, cur: nat)
  {
    && |src| == |mem| && Separate(src, whole) && done <= whole && kept <= |done|
    && AllRestored(src, mem, done[..kept])
    && (kept == |done| ==> cur == |ImageOf(src, done)|)
    && (mode != Read ==> mem == src && kept == |done|)
    && (mode == Write ==> |ImageOf(src, whole)| <= limit <= |buf| && ImageOf(src, done) <= buf)
    && (mode == Read ==>
          && Shows(buf, 0, ImageOf(src, whole), limit)
          && Reading(src, done, buf, limit) == Some(cur)
          && (kept == |done| <==> cur <= limit)
          && (forall i :: kept <= i < |done| ==> done[i].Bits?))
  }

  /** One more piece has been dealt with, ending at `next`. */
  ghost predicate Copied(mode: Mode, src: seq<Byte>, p: Piece, cur: nat, next: nat, limit: nat,
                         mem: seq<Byte>, mem1: seq<Byte>, buf: seq<Byte>, buf1: seq<Byte>)
  {
    match mode
    case Measure => mem1 == mem && buf1 == buf && next == cur + |PieceImage(src, p)|
    case Write =>
      && mem1 == mem && cur <= |buf| == |buf1| && next == cur + |PieceImage(src, p)|
      && buf[..cur] + PieceImage(src, p) <= buf1
    case Read =>
      && buf1 == buf && Framed(mem, mem1, Start(p), End(p))
      && PieceEnd(src, p, buf, cur, limit) == Some(next)
      && (next <= limit ==> PieceRestored(src, mem1, p))
      && (next > limit && p.Bits? ==> AsRead(mem1, p.at, p.total, buf, cur))
  }

  lemma Step(mode: Mode, src: seq<Byte>, whole: seq<Piece>, done: seq<Piece>, kept: nat, p: Piece,
             mem: seq<Byte>, mem1: seq<Byte>, buf: seq<Byte>, buf1: seq<Byte>, limit: nat, cur: nat, next: nat)
    requires Standing(mode, src, whole, done, kept, mem, buf, limit, cur)
    requires |done| < |whole| && whole[|done|] == p
    requires Copied(mode, src, p, cur, next, limit, mem, mem1, buf, buf1)
    ensures var kept1 := if mode != Read || next <= limit then |done| + 1 else kept;
            Standing(mode, src, whole, done + [p], kept1, mem1, buf1, limit, next)
  {
    hide ImageOf, PieceImage, PieceRestored, PieceFits, Apart, PieceEnd, Reading, Shows, AsRead;
    ImagePush(src, done, p);
    ReadingPush(src, done, p, buf, limit);
    var kept1 := if mode != Read || next <= limit then |done| + 1 else kept;
    if mode == Read {
      PieceEndWithin(src, p, buf, cur, limit);
    }
    assert done + [p] <= whole;
    var sofar := (done + [p])[..kept1];
    forall q | q in sofar ensures PieceRestored(src, mem1, q) {
      var i :| 0 <= i < |sofar| && sofar[i] == q;
      if mode != Read {
        assert whole[i] == q;
        PieceRestoredItself(src, q);
      } else if i < |done| {
        assert whole[i] == q && done[..kept][i] == q;
        PieceRestoredElsewhere(src, mem, mem1, q, p);
      }
    }
  }

  /** The template's local state: where it stands in the buffer. `src`, `whole`, `done`
      and `kept` are for the proof: the stream the bytes are or were written for, all it
      takes, what has been dealt with, and how much of that was whole. */
  class Copier {
    const mode: Mode
    const rose: Rose
    const mem: array<Byte>
    const buf: array<Byte>
    const limit: nat
    var cur: nat
    ghost const src: seq<Byte>
    ghost const whole: seq<Piece>
    ghost var done: seq<Piece>
    ghost var kept: nat

    ghost predicate Valid()
      reads this, mem, buf
    {
      mem != buf && Standing(mode, src, whole, done, kept, mem[..], buf[..], limit, cur)
    }

    /** Reading is refused somewhere in these pieces. */
    ghost predicate Fails(ps: seq<Piece>)
      reads this, buf
    {
      mode == Read && Reading(src, ps, buf[..], limit).None?
    }

    constructor (mode: Mode, rose: Rose, mem: array<Byte>, buf: array<Byte>, limit: nat, ghost src: seq<Byte>)
      requires mem != buf && Sound(rose) && |src| == mem.Length && Separate(src, Script(rose, src))
      requires mode != Read ==> mem[..] == src
      requires mode == Write ==> |ImageOf(src, Script(rose, src))| <= limit <= buf.Length
      requires mode == Read ==> Shows(buf[..], 0, ImageOf(src, Script(rose, src)), limit)
      ensures Valid() && done == [] && whole == Script(rose, src)
      ensures this.mode == mode && this.rose == rose && this.mem == mem && this.buf == buf
      ensures this.limit == limit && this.src == src
    {
      this.mode, this.rose, this.mem, this.buf, this.limit := mode, rose, mem, buf, limit;
      this.src, this.whole, done, kept := src, Script(rose, src), [], 0;
      cur := 0;
    }

    /** SIZE_COPY_IN and COPY_MULTIBIT_SIZE. */
    method MeasurePiece(p: Piece) returns (size: nat)
      requires Valid() && PieceFits(src, p) && mode == Measure
      ensures size == |PieceImage(src, p)|
    {
      hide ImageOf, Reading, AllRestored, Separate, Fits, Image;
      if p.Plain? {
        size := p.size;
      } else {
        size := CompSize(mem[..], p.at, p.total);
      }
    }

    /** COPY_IN and COPY_MULTIBIT_IN. */
    method WritePiece(p: Piece) returns (ok: bool, size: nat)
      requires Valid() && PieceFits(src, p) && mode == Write
      requires cur + |PieceImage(src, p)| <= limit
      modifies buf
      ensures ok && size == |PieceImage(src, p)|
      ensures Copied(mode, src, p, cur, cur + size, limit, old(mem[..]), mem[..], old(buf[..]), buf[..])
    {
      hide ImageOf, Reading, AllRestored, Separate, Fits, Image;
      if p.Plain? {
        ok, size := true, p.size;
        Memcpy(buf, cur, mem[p.at..p.at + size]);
      } else {
        ok, size := Compress(mem[..], p.at, p.total, buf, cur, limit - cur);
      }
      SpliceStarts(old(buf[..]), cur, PieceImage(src, p));
    }

    /** COPY_OUT and COPY_MULTIBIT_OUT. */
    method ReadPiece(p: Piece) returns (ok: bool, size: nat)
      requires Valid() && PieceFits(src, p) && mode == Read
      requires cur <= limit ==> Shows(buf[..], cur, PieceImage(src, p), limit)
      modifies mem
      ensures ok <==> PieceEnd(src, p, buf[..], cur, limit).Some?
      ensures ok ==> Copied(mode, src, p, cur, cur + size, limit, old(mem[..]), mem[..], old(buf[..]), buf[..])
    {
      hide ImageOf, Reading, AllRestored, Separate, Fits, Image, Restored, Footprint, ReadEnd, AsRead, Peek;
      ShowsNothing(buf[..], cur, PieceImage(src, p), limit);
      if p.Plain? {
        size := p.size;
        ok := cur + size <= limit;
        if ok {
          PeekShown(buf[..], cur, PieceImage(src, p), limit, 0, size);
          Memcpy(mem, p.at, Peek(buf[..], cur, size));
        }
      } else {
        ok, size := Decompress(mem, p.at, p.total, buf, cur, limit, src);
        if ok {
          PieceEndWithin(src, p, buf[..], cur, limit);
        }
      }
    }

    /** The macros, before the position is moved. */
    method CopyBytes(p: Piece) returns (ok: bool, size: nat)
      requires Valid() && PieceFits(src, p) && ImageOf(src, done) + PieceImage(src, p) <= ImageOf(src, whole)
      modifies mem, buf
      ensures ok <==> (mode == Read ==> PieceEnd(src, p, buf[..], cur, limit).Some?)
      ensures ok ==> Copied(mode, src, p, cur, cur + size, limit, old(mem[..]), mem[..], old(buf[..]), buf[..])
      ensures mode != Write ==> buf[..] == old(buf[..])
    {
      hide ImageOf, PieceImage, PieceFits, PieceEnd, Reading, AllRestored, Separate, PieceRestored, Shows, AsRead;
      match mode
      case Measure =>
        ok := true;
        size := MeasurePiece(p);
      case Write =>
        ok, size := WritePiece(p);
      case Read =>
        if cur <= limit {
          ShowsNext(buf[..], src, whole, done, p, limit);
        }
        ok, size := ReadPiece(p);
    }

    /** COPY and COPY_MULTIBIT. */
    method Copy(p: Piece) returns (ok: bool)
      requires Valid() && |done| < |whole| && whole[|done|] == p
      modifies this, mem, buf
      ensures mode != Write ==> buf[..] == old(buf[..])
      ensures ok ==> Valid() && done == old(done) + [p]
      ensures ok && mode == Read && cur > limit && p.Bits? ==> AsRead(mem[..], p.at, p.total, buf[..], old(cur))
      ensures !ok ==> Fails(old(done) + [p])
    {
      hide ImageOf, PieceImage, PieceEnd, Reading, AllRestored, Separate, Shows, AsRead;
      ghost var m0, b0, c0 := mem[..], buf[..], cur;
      PieceOf(src, whole, done, p);
      ReadingPush(src, done, p, buf[..], limit);
      var size;
      ok, size := CopyBytes(p);
      if !ok {
        return;
      }
      Step(mode, src, whole, done, kept, p, m0, mem[..], b0, buf[..], limit, c0, c0 + size);
      cur := cur + size;
      kept := if mode != Read || cur <= limit then |done| + 1 else kept;
      done := done + [p];
    }

    /** Several pieces one after the other. */
    method CopyAll(ps: seq<Piece>) returns (ok: bool)
      requires Valid() && done + ps <= whole
      modifies this, mem, buf
      ensures mode != Write ==> buf[..] == old(buf[..])
      ensures ok ==> Valid() && done == old(done) + ps
      ensures !ok ==> Fails(old(done) + ps)
    {
      hide Standing, Reading;
      var i := 0;
      while i < |ps|
        invariant 0 <= i <= |ps| && Valid() && done == old(done) + ps[..i]
        invariant mode != Write ==> buf[..] == old(buf[..])
      {
        assert (old(done) + ps)[|old(done)| + i] == ps[i];
        ghost var sofar := done;
        ok := Copy(ps[i]);
        assert sofar + [ps[i]] == old(done) + ps[..i + 1];
        if !ok {
          RefusedForGood(src, sofar + [ps[i]], old(done) + ps, buf[..], limit);
          return;
        }
        i := i + 1;
      }
      assert ps[..i] == ps;
      ok := true;
    }

    /** The states of the active endfixes. The active set was whole, since a plain copy
        came after it, so the set in memory is the one the bytes were written for. */
    method CopyLeaves() returns (ok: bool)
      requires Valid() && Sound(rose) && |done| > 5 && done[5].Plain?
      requires done[3] == Bits(HEADER + rose.activeLeaf, rose.activeLeafCount)
      requires done + Leaves(rose, src, rose.activeLeafCount) <= whole
      modifies this, mem, buf
      ensures mode != Write ==> buf[..] == old(buf[..])
      ensures ok ==> Valid() && done == old(done) + Leaves(rose, src, rose.activeLeafCount)
      ensures !ok ==> Fails(old(done) + Leaves(rose, src, rose.activeLeafCount))
    {
      hide Standing, IsSet, Leaves, Reading;
      NoPieces(rose, src);
      var qi := 0;
      while qi < rose.activeLeafCount
        invariant 0 <= qi <= rose.activeLeafCount && Valid()
        invariant done == old(done) + Leaves(rose, src, qi)
        invariant mode != Write ==> buf[..] == old(buf[..])
      {
        LeavesPrefix(rose, src, qi, rose.activeLeafCount);
        assert done[5].Plain?;
        BitsAgree(mode, src, whole, done, kept, mem[..], buf[..], limit, cur, 3, qi);
        assert Leaf(rose, mem[..], qi) == Leaf(rose, src, qi);
        Chain(whole, old(done), Leaves(rose, src, qi), Leaf(rose, src, qi), Leaves(rose, src, rose.activeLeafCount));
        ghost var more := done + Leaf(rose, src, qi);
        ok := CopyAll(Leaf(rose, mem[..], qi));
        if !ok {
          RefusedForGood(src, more, old(done) + Leaves(rose, src, rose.activeLeafCount), buf[..], limit);
          return;
        }
        qi := qi + 1;
      }
      ok := true;
    }

    /** sc_left_*: the states and lag bytes of the active leftfixes. */
    method CopyLeftfixes() returns (ok: bool)
      requires Valid() && Sound(rose) && |done| > 5 && done[5].Plain?
      requires done[4] == Bits(HEADER + rose.activeLeft, rose.activeLeftCount)
      requires done + LeftPieces(rose, src) <= whole
      modifies this, mem, buf
      ensures mode != Write ==> buf[..] == old(buf[..])
      ensures ok ==> Valid() && done == old(done) + LeftPieces(rose, src)
      ensures !ok ==> Fails(old(done) + LeftPieces(rose, src))
    {
      hide Standing, IsSet, Lefts, Reading;
      if rose.leftIter.None? {
        return true;
      }
      NoPieces(rose, src);
      var ri := 0;
      while ri < rose.activeLeftCount
        invariant 0 <= ri <= rose.activeLeftCount && Valid()
        invariant done == old(done) + Lefts(rose, src, ri)
        invariant mode != Write ==> buf[..] == old(buf[..])
      {
        LeftsPrefix(rose, src, ri, rose.activeLeftCount);
        assert done[5].Plain?;
        BitsAgree(mode, src, whole, done, kept, mem[..], buf[..], limit, cur, 4, ri);
        assert Left(rose, mem[..], ri) == Left(rose, src, ri);
        Chain(whole, old(done), Lefts(rose, src, ri), Left(rose, src, ri), Lefts(rose, src, rose.activeLeftCount));
        ghost var more := done + Left(rose, src, ri);
        ok := CopyAll(Left(rose, mem[..], ri));
        if !ok {
          RefusedForGood(src, more, old(done) + Lefts(rose, src, rose.activeLeftCount), buf[..], limit);
          return;
        }
        ri := ri + 1;
      }
      ok := true;
    }

    /** The valid start-of-match slots, as the set in memory has them. After a cut the
        check of the first copy fails, whatever the slot. */
    method CopySlots(som: Som) returns (ok: bool)
      requires Valid() && som.count <= U32 && done != [] && done[|done| - 1] == Bits(HEADER + som.valid, som.count)
      requires done + Slots(som, src, som.count) <= whole
      modifies this, mem, buf
      ensures mode != Write ==> buf[..] == old(buf[..])
      ensures old(kept) == |old(done)| && ok ==> Valid() && done == old(done) + Slots(som, src, som.count)
      ensures old(kept) == |old(done)| && !ok ==> Fails(old(done) + Slots(som, src, som.count))
      ensures old(kept) < |old(done)| ==> Valid() && done == old(done) && cur == old(cur) && mem[..] == old(mem[..])
      ensures old(kept) < |old(done)| ==>
                (ok <==> NoKey(mem[..], HEADER + som.valid, som.count, som.count))
    {
      hide Standing, IsSet, Slots, Reading;
      NoSlots(som, src);
      KeptOrCut(mode, src, whole, done, kept, mem[..], buf[..], limit, cur);
      ghost var valid, cut := |done| - 1, kept < |done|;
      var slot := 0;
      while slot < som.count
        invariant 0 <= slot <= som.count && Valid() && |done| > valid && done[valid] == old(done)[valid]
        invariant mode != Write ==> buf[..] == old(buf[..])
        invariant !cut ==> kept == |done| && done == old(done) + Slots(som, src, slot)
        invariant cut ==> mode == Read && cur > limit && done == old(done) && cur == old(cur) && mem[..] == old(mem[..])
        invariant cut ==> NoKey(mem[..], HEADER + som.valid, som.count, slot)
      {
        SlotsPrefix(som, src, slot, som.count);
        KeptOrCut(mode, src, whole, done, kept, mem[..], buf[..], limit, cur);
        if !cut {
          BitsAgree(mode, src, whole, done, kept, mem[..], buf[..], limit, cur, valid, slot);
          Chain(whole, old(done), Slots(som, src, slot), Slot(som, src, slot), Slots(som, src, som.count));
        }
        if IsSet(mem[..], HEADER + som.valid, som.count, slot) {
          if mode == Read && cur > limit {
            return false;
          }
          var p := Plain(HEADER + som.location + Product(slot, som.horizon), som.horizon);
          assert Slot(som, src, slot) == [p];
          ghost var more := done + [p];
          ok := Copy(p);
          if !ok {
            RefusedForGood(src, more, old(done) + Slots(som, src, som.count), buf[..], limit);
            return;
          }
          KeptOrCut(mode, src, whole, done, kept, mem[..], buf[..], limit, cur);
        }
        slot := slot + 1;
      }
      ok := true;
    }

    /** sc_som_*: the two sets, then the valid slots. */
    method CopySomInfo() returns (ok: bool)
      requires Valid() && Sound(rose) && whole == Script(rose, src) && done == BeforeSom(rose, src)
      modifies this, mem, buf
      ensures mode != Write ==> buf[..] == old(buf[..])
      ensures mode != Read ==> ok && Valid() && done == whole
      ensures mode == Read ==> (ok <==> ExpandEnd(rose, src, buf[..], limit).Some?)
      ensures mode == Read && ok ==> ExpandEnd(rose, src, buf[..], limit) == Some(cur)
      ensures mode == Read && ok && cur <= limit ==> Valid() && done == whole
    {
      hide Standing, Slots, Reading, Script, BeforeSom, IsSet, AsRead, AnyKey;
      SomStages(rose, src);
      if rose.som.None? {
        ReadingNow(mode, src, whole, done, kept, mem[..], buf[..], limit, cur);
        return true;
      }
      var som := rose.som.value;
      var w, v := Bits(HEADER + som.writable, som.count), Bits(HEADER + som.valid, som.count);
      ok := Copy(w);
      if !ok {
        return;
      }
      ghost var start := cur;
      ReadingNow(mode, src, whole, done, kept, mem[..], buf[..], limit, cur);
      ok := Copy(v);
      if !ok {
        return;
      }
      ReadingNow(mode, src, whole, done, kept, mem[..], buf[..], limit, cur);
      KeptOrCut(mode, src, whole, done, kept, mem[..], buf[..], limit, cur);
      if mode == Read && cur > limit {
        AsReadKeys(mem[..], v.at, v.total, buf[..], start);
      }
      ok := CopySlots(som);
      if ok {
        ReadingNow(mode, src, whole, done, kept, mem[..], buf[..], limit, cur);
      }
    }

    /** sc_size, sc_compress, sc_expand. */
    method Run() returns (r: nat)
      requires Valid() && Sound(rose) && whole == Script(rose, src) && done == [] && |src| >= HEADER
      modifies this, mem, buf
      ensures mode != Write ==> buf[..] == old(buf[..])
      ensures mode != Read ==> r == |ImageOf(src, whole)| && Valid() && done == whole
      ensures mode == Read ==> r == Ended(ExpandEnd(rose, src, buf[..], limit))
      ensures mode == Read && 0 < r <= limit ==> Valid() && done == whole && kept == |done|
    {
      hide Standing, ImageOf, Fixed, Leaves, LeftPieces, SomPieces, Reading, ExpandEnd;
      ScriptStages(rose, src);
      var ok := CopyAll([Plain(OFFSET_AT, 8)]);
      if !ok {
        NeverEnds(rose, src, [Plain(OFFSET_AT, 8)], buf[..], limit);
        return 0;
      }
      KeptOrCut(mode, src, whole, done, kept, mem[..], buf[..], limit, cur);
      OffsetAgrees(mode, src, whole, done, kept, mem[..], buf[..], limit, cur);
      ok := CopyAll(Fixed(rose, Offset(mem[..])));
      if !ok {
        NeverEnds(rose, src, [Plain(OFFSET_AT, 8)] + Fixed(rose, Offset(src)), buf[..], limit);
        return 0;
      }
      FixedHolds(rose, Offset(src));
      ghost var s2 := done + Leaves(rose, src, rose.activeLeafCount);
      ok := CopyLeaves();
      if !ok {
        NeverEnds(rose, src, s2, buf[..], limit);
        return 0;
      }
      ok := CopyLeftfixes();
      if !ok {
        NeverEnds(rose, src, s2 + LeftPieces(rose, src), buf[..], limit);
        return 0;
      }
      ok := CopySomInfo();
      if !ok {
        return 0;
      }
      if mode != Read || cur <= limit {
        Finished(mode, src, whole, done, kept, mem[..], buf[..], limit, cur);
      }
      return cur;
    }
  }

  lemma ScriptStages(rose: Rose, m: seq<Byte>)
    requires Sound(rose)
    ensures var s0 := [Plain(OFFSET_AT, 8)];
            var s1 := s0 + Fixed(rose, Offset(m));
            var s2 := s1 + Leaves(rose, m, rose.activeLeafCount);
            var s3 := s2 + LeftPieces(rose, m);
            [] + s0 == s0 && s0 <= s1 <= s2 <= s3 == BeforeSom(rose, m) <= Script(rose, m)
  {
    hide Fixed, Leaves, LeftPieces, SomPieces;
  }

  lemma SomStages(rose: Rose, m: seq<Byte>)
    requires Sound(rose)
    ensures rose.som.None? ==> Script(rose, m) == BeforeSom(rose, m)
    ensures rose.som.Some? ==>
              var som := rose.som.value;
              var s3 := BeforeSom(rose, m);
              var w, v := Bits(HEADER + som.writable, som.count), Bits(HEADER + som.valid, som.count);
              && s3 + [w] <= Script(rose, m) && s3 + [w] + [v] <= Script(rose, m)
              && Script(rose, m) == s3 + [w] + [v] + Slots(som, m, som.count)
  {
    hide BeforeSom, Slots;
  }

  lemma Finished(mode: Mode, src: seq<Byte>, whole: seq<Piece>, done: seq<Piece>, kept: nat,
                 mem: seq<Byte>, buf: seq<Byte>, limit: nat, cur: nat)
    requires Standing(mode, src, whole, done, kept, mem, buf, limit, cur) && done == whole
    requires mode != Read || cur <= limit
    ensures kept == |done| && cur == |ImageOf(src, whole)| && AllRestored(src, mem, whole)
    ensures mode != Read ==> mem == src
    ensures mode == Write ==> ImageOf(src, whole) <= buf
  {
    hide ImageOf, Reading, AllRestored, Separate, Shows;
    assert done[..kept] == done;
  }

  lemma ReadingNow(mode: Mode, src: seq<Byte>, whole: seq<Piece>, done: seq<Piece>, kept: nat,
                   mem: seq<Byte>, buf: seq<Byte>, limit: nat, cur: nat)
    requires Standing(mode, src, whole, done, kept, mem, buf, limit, cur)
    ensures mode == Read ==> Reading(src, done, buf, limit) == Some(cur)
  {
    hide ImageOf, Reading, AllRestored, Separate, Shows;
  }

  /** Everything so far was whole, unless reading has gone past the limit; a plain copy
      is never made after a cut. */
  lemma KeptOrCut(mode: Mode, src: seq<Byte>, whole: seq<Piece>, done: seq<Piece>, kept: nat,
                  mem: seq<Byte>, buf: seq<Byte>, limit: nat, cur: nat)
    requires Standing(mode, src, whole, done, kept, mem, buf, limit, cur)
    ensures kept <= |done| && (kept < |done| <==> mode == Read && cur > limit)
    ensures done != [] && done[|done| - 1].Plain? ==> kept == |done|
  {
    hide ImageOf, Reading, AllRestored, Separate, Shows;
  }

  lemma OffsetAgrees(mode: Mode, src: seq<Byte>, whole: seq<Piece>, done: seq<Piece>, kept: nat,
                     mem: seq<Byte>, buf: seq<Byte>, limit: nat, cur: nat)
    requires Standing(mode, src, whole, done, kept, mem, buf, limit, cur)
    requires done == [Plain(OFFSET_AT, 8)] && kept == |done|
    ensures Offset(mem) == Offset(src)
  {
    hide ImageOf, Reading, Separate, Load, Shows;
    assert done[..kept][0] == Plain(OFFSET_AT, 8);
    assert PieceRestored(src, mem, Plain(OFFSET_AT, 8));
  }

  lemma FixedHolds(rose: Rose, offset: nat)
    ensures |Fixed(rose, offset)| > 9 && Fixed(rose, offset)[4] == InBody(rose.longLit)
    ensures Fixed(rose, offset)[0] == Plain(HEADER, 1)
    ensures Fixed(rose, offset)[1] == Bits(HEADER + 1, rose.roleCount)
    ensures Fixed(rose, offset)[2] == Bits(HEADER + rose.activeLeaf, rose.activeLeafCount)
    ensures Fixed(rose, offset)[3] == Bits(HEADER + rose.activeLeft, rose.activeLeftCount)
    ensures offset <= rose.anchoredDistance ==> Fixed(rose, offset)[5] == InBody(rose.anchor)
  {}

  lemma NoPieces(rose: Rose, m: seq<Byte>)
    requires rose.leftfixBeginQueue <= |rose.nfaStates|
    ensures Leaves(rose, m, 0) == [] && Lefts(rose, m, 0) == []
  {}

  lemma NoSlots(som: Som, m: seq<Byte>)
    ensures Slots(som, m, 0) == []
  {}

  lemma Chain(whole: seq<Piece>, base: seq<Piece>, a: seq<Piece>, x: seq<Piece>, all: seq<Piece>)
    requires base + all <= whole && a + x <= all
    ensures base + a + x <= whole && base + (a + x) == base + a + x
  {}

  lemma {:induction false} LeavesPrefix(rose: Rose, m: seq<Byte>, i: nat, n: nat)
    requires i < n <= |rose.nfaStates|
    ensures Leaves(rose, m, i) + Leaf(rose, m, i) == Leaves(rose, m, i + 1) <= Leaves(rose, m, n)
    decreases n
  {
    hide Leaf;
    if i + 1 < n {
      LeavesPrefix(rose, m, i, n - 1);
    }
  }

  lemma {:induction false} LeftsPrefix(rose: Rose, m: seq<Byte>, i: nat, n: nat)
    requires i < n && rose.leftfixBeginQueue + n <= |rose.nfaStates| && n <= |rose.lagIndex|
    ensures Lefts(rose, m, i) + Left(rose, m, i) == Lefts(rose, m, i + 1) <= Lefts(rose, m, n)
    decreases n
  {
    hide Left;
    if i + 1 < n {
      LeftsPrefix(rose, m, i, n - 1);
    }
  }

  lemma {:induction false} SlotsPrefix(som: Som, m: seq<Byte>, i: nat, n: nat)
    requires i < n
    ensures Slots(som, m, i) + Slot(som, m, i) == Slots(som, m, i + 1) <= Slots(som, m, n)
    decreases n
  {
    hide Slot;
    if i + 1 < n {
      SlotsPrefix(som, m, i, n - 1);
    }
  }

  /** A set that was whole, or came before a plain copy, reads the same in memory. */
  lemma BitsAgree(mode: Mode, src: seq<Byte>, whole: seq<Piece>, done: seq<Piece>, kept: nat,
                  mem: seq<Byte>, buf: seq<Byte>, limit: nat, cur: nat, i: nat, key: nat)
    requires Standing(mode, src, whole, done, kept, mem, buf, limit, cur)
    requires i < |done| && done[i].Bits? && key < done[i].total <= U32
    requires kept == |done| || exists j :: i < j < |done| && done[j].Plain?
    ensures IsSet(mem, done[i].at, done[i].total, key) == IsSet(src, done[i].at, done[i].total, key)
  {
    hide ImageOf, Reading, Separate, IsSet, Restored, Shows;
    if kept < |done| {
      var j :| i < j < |done| && done[j].Plain?;
      assert j < kept;
    }
    assert done[..kept][i] == done[i];
    assert PieceRestored(src, mem, done[i]);
    SameSet(src, mem, done[i].at, done[i].total, key);
  }

  lemma SpliceStarts(a: seq<Byte>, p: nat, x: seq<Byte>)
    requires p + |x| <= |a|
    ensures a[..p] + x <= Splice(a, p, x)
  {}

  lemma PieceOf(src: seq<Byte>, whole: seq<Piece>, done: seq<Piece>, p: Piece)
    requires Separate(src, whole) && done <= whole && |done| < |whole| && whole[|done|] == p
    ensures PieceFits(src, p)
    ensures ImageOf(src, done) + PieceImage(src, p) <= ImageOf(src, whole)
  {
    hide PieceImage, PieceFits;
    assert whole[..|done|] == done;
    ImageAt(src, whole, |done|);
  }

  lemma ShowsNothing(b: seq<Byte>, p: nat, x: seq<Byte>, limit: nat)
    requires limit <= |b|
    ensures p > limit ==> Shows(b, p, x, limit)
  {}

  lemma ShowsNext(b: seq<Byte>, src: seq<Byte>, whole: seq<Piece>, done: seq<Piece>, p: Piece, limit: nat)
    requires Shows(b, 0, ImageOf(src, whole), limit)
    requires ImageOf(src, done) + PieceImage(src, p) <= ImageOf(src, whole)
    ensures Shows(b, |ImageOf(src, done)|, PieceImage(src, p), limit)
  {
    hide ImageOf, PieceImage, Shows;
    var x, i := ImageOf(src, whole), |ImageOf(src, done)|;
    ShowsPart(b, 0, x, limit, i, i + |PieceImage(src, p)|);
    assert x[i..i + |PieceImage(src, p)|] == PieceImage(src, p);
  }

  /** Where expanding ends, when the bytes before the limit are those stored for src and
      the others anything. Once past the limit it still ends well if the valid set it
      then reads asks for no slot. */
  ghost function ExpandEnd(rose: Rose, src: seq<Byte>, buf: seq<Byte>, limit: nat): Option<nat>
    requires Sound(rose)
  {
    if rose.som.None? then Reading(src, BeforeSom(rose, src), buf, limit)
    else
      var som := rose.som.value;
      var sets := BeforeSom(rose, src) + [Bits(HEADER + som.writable, som.count)];
      var start := Reading(src, sets, buf, limit);
      var end := Reading(src, sets + [Bits(HEADER + som.valid, som.count)], buf, limit);
      if start.None? || end.None? then None
      else if end.value <= limit then Reading(src, Script(rose, src), buf, limit)
      else if AnyKey(buf, start.value, som.count) then None
      else end
  }

  function Ended(end: Option<nat>): nat {
    if end.Some? then end.value else 0
  }

  lemma NeverEnds(rose: Rose, src: seq<Byte>, ps: seq<Piece>, buf: seq<Byte>, limit: nat)
    requires Sound(rose) && ps <= BeforeSom(rose, src) && Reading(src, ps, buf, limit).None?
    ensures ExpandEnd(rose, src, buf, limit).None?
  {
    hide Reading, BeforeSom, AnyKey;
    RefusedForGood(src, ps, BeforeSom(rose, src), buf, limit);
    if rose.som.Some? {
      var writable := Bits(HEADER + rose.som.value.writable, rose.som.value.count);
      RefusedForGood(src, ps, BeforeSom(rose, src) + [writable], buf, limit);
    }
  }

  // ----------------------------------------------------------- what the passes give

  /** The compressed form of a stream. */
  function Stored(rose: Rose, m: seq<Byte>): seq<Byte>
    requires Sound(rose)
  {
    ImageOf(m, Script(rose, m))
  }

  /** A stream of this engine, none of whose parts overlaps another. */
  predicate IsStream(rose: Rose, m: seq<Byte>) {
    Sound(rose) && |m| >= HEADER && Separate(m, Script(rose, m))
  }

  lemma OffsetFirst(rose: Rose, m: seq<Byte>)
    requires Sound(rose) && |m| >= HEADER
    ensures |Stored(rose, m)| >= 8
  {
    hide Fixed, Leaves, LeftPieces, SomPieces, ImageOf;
    ImageAt(m, Script(rose, m), 0);
    assert Script(rose, m)[0] == Plain(OFFSET_AT, 8);
  }

  /** size_compress_stream. */
  method SizeCompressStream(rose: Rose, mem: array<Byte>) returns (r: nat)
    requires IsStream(rose, mem[..])
    modifies mem
    ensures mem[..] == old(mem[..])
    ensures r == |Stored(rose, mem[..])| && r >= 8
  {
    hide Script, Separate, ImageOf;
    OffsetFirst(rose, mem[..]);
    var none := new Byte[0];
    var copier := new Copier(Measure, rose, mem, none, 0, mem[..]);
    r := copier.Run();
    Finished(Measure, copier.src, copier.whole, copier.done, copier.kept, mem[..], none[..], 0, copier.cur);
  }

  /** compress_stream, which hs_compress_stream calls with room enough. */
  method CompressStream(buf: array<Byte>, size: nat, rose: Rose, mem: array<Byte>) returns (r: nat)
    requires IsStream(rose, mem[..]) && mem != buf
    requires |Stored(rose, mem[..])| <= size <= buf.Length
    modifies mem, buf
    ensures mem[..] == old(mem[..])
    ensures r == |Stored(rose, mem[..])| && Stored(rose, mem[..]) <= buf[..]
  {
    hide Script, Separate, ImageOf;
    var copier := new Copier(Write, rose, mem, buf, size, mem[..]);
    r := copier.Run();
    Finished(Write, copier.src, copier.whole, copier.done, copier.kept, mem[..], buf[..], size, copier.cur);
  }

  /** hs_compress_stream: the space needed is always reported; the buffer is written
      when it has that much, and is left alone when it has not. */
  method HsCompressStream(rose: Rose, mem: array<Byte>, buf: array<Byte>, space: nat) returns (ok: bool, used: nat)
    requires IsStream(rose, mem[..]) && mem != buf && space <= buf.Length
    modifies mem, buf
    ensures mem[..] == old(mem[..]) && used == |Stored(rose, mem[..])|
    ensures ok <==> used <= space
    ensures if ok then Stored(rose, mem[..]) <= buf[..] else buf[..] == old(buf[..])
  {
    hide Script, Separate, ImageOf;
    used := SizeCompressStream(rose, mem);
    ok := used <= space;
    if ok {
      var written := CompressStream(buf, used, rose, mem);
    }
  }

  /** expand_stream, over any memory, of a buffer whose first `size` bytes are the first
      bytes stored for `src`; what follows them in memory may be anything. If all was
      there, every part is restored, whatever was in memory before, and compressing
      again would give the same bytes. If not, ExpandEnd says when that is noticed. */
  method ExpandStream(mem: array<Byte>, rose: Rose, buf: array<Byte>, size: nat, ghost src: seq<Byte>) returns (r: nat)
    requires IsStream(rose, src) && |src| == mem.Length && mem != buf
    requires Shows(buf[..], 0, Stored(rose, src), size)
    modifies mem, buf
    ensures buf[..] == old(buf[..])
    ensures r == Ended(ExpandEnd(rose, src, buf[..], size))
    ensures size >= |Stored(rose, src)| ==> r == |Stored(rose, src)| && SameStream(rose, src, mem[..])
    ensures size >= |Stored(rose, src)| ==> AllRestored(src, mem[..], Script(rose, src))
    ensures size >= |Stored(rose, src)| ==>
              Script(rose, mem[..]) == Script(rose, src) && Stored(rose, mem[..]) == Stored(rose, src)
  {
    hide Script, Separate, ImageOf, AllRestored, ExpandEnd, Shows, SameStream;
    var copier := new Copier(Read, rose, mem, buf, size, src);
    r := copier.Run();
    if size >= |Stored(rose, src)| {
      WholeIsRead(rose, src, buf[..], size);
      OffsetFirst(rose, src);
      Finished(Read, src, copier.whole, copier.done, copier.kept, mem[..], buf[..], size, copier.cur);
      PartsRestored(rose, src, mem[..]);
      SameScript(rose, src, mem[..]);
      SameStored(src, mem[..], Script(rose, src));
    }
  }

  /** Pieces that are all there are read to their end. */
  lemma {:induction false} ReadingWhole(src: seq<Byte>, ps: seq<Piece>, buf: seq<Byte>, limit: nat)
    requires |ImageOf(src, ps)| <= limit
    ensures Reading(src, ps, buf, limit) == Some(|ImageOf(src, ps)|)
  {
    hide PieceImage;
    if ps != [] {
      ReadingWhole(src, ps[..|ps| - 1], buf, limit);
      WholePiece(src, ps[|ps| - 1], buf, |ImageOf(src, ps[..|ps| - 1])|, limit);
    }
  }

  lemma WholePiece(src: seq<Byte>, p: Piece, buf: seq<Byte>, cur: nat, limit: nat)
    requires cur + |PieceImage(src, p)| <= limit
    ensures PieceEnd(src, p, buf, cur, limit) == Some(cur + |PieceImage(src, p)|)
  {
    hide Image;
  }

  lemma {:induction false} ImageGrows(m: seq<Byte>, ps: seq<Piece>, qs: seq<Piece>)
    requires ps <= qs
    ensures ImageOf(m, ps) <= ImageOf(m, qs)
    decreases |qs|
  {
    hide PieceImage;
    if |ps| < |qs| {
      ImageGrows(m, ps, qs[..|qs| - 1]);
    } else {
      assert ps == qs;
    }
  }

  lemma WholeIsRead(rose: Rose, src: seq<Byte>, buf: seq<Byte>, limit: nat)
    requires Sound(rose) && |Stored(rose, src)| <= limit
    ensures ExpandEnd(rose, src, buf, limit) == Some(|Stored(rose, src)|)
  {
    hide Script, BeforeSom, ImageOf, Reading, AnyKey, Slots;
    SomStages(rose, src);
    ReadingWhole(src, Script(rose, src), buf, limit);
    if rose.som.Some? {
      var som := rose.som.value;
      var sets := BeforeSom(rose, src) + [Bits(HEADER + som.writable, som.count)];
      var all := sets + [Bits(HEADER + som.valid, som.count)];
      ImageGrows(src, sets, Script(rose, src));
      ImageGrows(src, all, Script(rose, src));
      ReadingWhole(src, sets, buf, limit);
      ReadingWhole(src, all, buf, limit);
    }
  }

  lemma {:induction false} SameStored(a: seq<Byte>, b: seq<Byte>, ps: seq<Piece>)
    requires AllRestored(a, b, ps)
    ensures ImageOf(a, ps) == ImageOf(b, ps)
  {
    hide Restored, Image;
    if ps != [] {
      var p := ps[|ps| - 1];
      SameStored(a, b, ps[..|ps| - 1]);
      assert PieceRestored(a, b, p);
      if p.Bits? {
        SameImage(a, b, p.at, p.total);
      }
    }
  }

  lemma InStages(rose: Rose, m: seq<Byte>)
    requires Sound(rose)
    ensures Plain(OFFSET_AT, 8) in Script(rose, m)
    ensures Bits(HEADER + rose.activeLeaf, rose.activeLeafCount) in Script(rose, m)
    ensures Bits(HEADER + rose.activeLeft, rose.activeLeftCount) in Script(rose, m)
    ensures rose.som.Some? ==> Bits(HEADER + rose.som.value.valid, rose.som.value.count) in Script(rose, m)
  {
    hide Fixed, Leaves, LeftPieces, Slots;
    FixedHolds(rose, Offset(m));
    var f := Fixed(rose, Offset(m));
    assert f[2] in f && f[3] in f;
    if rose.som.Some? {
      assert SomPieces(rose, m)[1] == Bits(HEADER + rose.som.value.valid, rose.som.value.count);
    }
  }

  // ------------------------------------------------------------- what has to be restored

  ghost predicate SameBytes(a: seq<Byte>, b: seq<Byte>, at: nat, size: nat) {
    at + size <= |a| && |a| == |b| && a[at..at + size] == b[at..at + size]
  }

  ghost predicate SameKeys(a: seq<Byte>, b: seq<Byte>, at: nat, total: nat) {
    forall key: nat :: key < total ==> IsSet(a, at, total, key) == IsSet(b, at, total, key)
  }

  /** The parts every stream has: offset, status, long literal state, groups, the anchor
      buffer while it is needed, and the history as far as the low 32 bits of the
      offset say there is any. */
  ghost predicate SameBase(rose: Rose, a: seq<Byte>, b: seq<Byte>)
    requires |a| >= 16
  {
    var offset := Load(a[8..16]);
    var h := if offset % 0x1_0000_0000 < rose.historyRequired then offset % 0x1_0000_0000 else rose.historyRequired;
    && SameBytes(a, b, 8, 8) && SameBytes(a, b, 16, 1)
    && SameBytes(a, b, 16 + rose.longLit.at, rose.longLit.size)
    && SameBytes(a, b, 16 + rose.groups.at, rose.groups.size)
    && (offset <= rose.anchoredDistance ==> SameBytes(a, b, 16 + rose.anchor.at, rose.anchor.size))
    && SameBytes(a, b, 16 + rose.history + rose.historyRequired - h, h)
  }

  /** The sets every stream has. */
  ghost predicate SameSets(rose: Rose, a: seq<Byte>, b: seq<Byte>) {
    && SameKeys(a, b, 16 + 1, rose.roleCount)
    && SameKeys(a, b, 16 + rose.activeLeaf, rose.activeLeafCount)
    && SameKeys(a, b, 16 + rose.activeLeft, rose.activeLeftCount)
    && SameKeys(a, b, 16 + rose.exhausted, rose.ekeyCount)
    && SameKeys(a, b, 16 + rose.logical, rose.logicalCount)
    && SameKeys(a, b, 16 + rose.comb, rose.ckeyCount)
  }

  /** The state of every active endfix, and the state and lag byte of every active
      leftfix that is not transient. */
  ghost predicate SameEngines(rose: Rose, a: seq<Byte>, b: seq<Byte>)
    requires Sound(rose)
  {
    && (forall qi: nat :: qi < rose.activeLeafCount && IsSet(a, 16 + rose.activeLeaf, rose.activeLeafCount, qi) ==>
          SameBytes(a, b, 16 + rose.nfaStates[qi].at, rose.nfaStates[qi].size))
    && (rose.leftIter.Some? ==>
          forall ri: nat :: ri < rose.activeLeftCount && ri in rose.leftIter.value
                            && IsSet(a, 16 + rose.activeLeft, rose.activeLeftCount, ri) ==>
            SameLeft(rose, a, b, ri))
  }

  ghost predicate SameLeft(rose: Rose, a: seq<Byte>, b: seq<Byte>, ri: nat)
    requires rose.leftfixBeginQueue + ri < |rose.nfaStates| && ri < |rose.lagIndex|
  {
    var state := rose.nfaStates[rose.leftfixBeginQueue + ri];
    SameBytes(a, b, 16 + state.at, state.size) && SameBytes(a, b, 16 + rose.lagTable + rose.lagIndex[ri], 1)
  }

  /** The start-of-match sets, and every slot in the valid set. */
  ghost predicate SameSom(som: Som, a: seq<Byte>, b: seq<Byte>) {
    && SameKeys(a, b, 16 + som.writable, som.count) && SameKeys(a, b, 16 + som.valid, som.count)
    && (forall slot: nat :: slot < som.count && IsSet(a, 16 + som.valid, som.count, slot) ==>
          SameBytes(a, b, 16 + som.location + Product(slot, som.horizon), som.horizon))
  }

  /** b holds the stream that a holds. */
  ghost predicate SameStream(rose: Rose, a: seq<Byte>, b: seq<Byte>)
    requires Sound(rose) && |a| >= 16
  {
    && SameBase(rose, a, b) && SameSets(rose, a, b) && SameEngines(rose, a, b)
    && (rose.som.Some? ==> SameSom(rose.som.value, a, b))
  }

  lemma PlainRestored(a: seq<Byte>, b: seq<Byte>, ps: seq<Piece>, at: nat, size: nat)
    requires AllRestored(a, b, ps) && Plain(at, size) in ps
    ensures SameBytes(a, b, at, size)
  {
    assert PieceRestored(a, b, Plain(at, size));
  }

  lemma BitsRestored(a: seq<Byte>, b: seq<Byte>, ps: seq<Piece>, at: nat, total: nat)
    requires AllRestored(a, b, ps) && Bits(at, total) in ps && total <= U32
    ensures SameKeys(a, b, at, total)
  {
    hide Restored, IsSet;
    assert PieceRestored(a, b, Bits(at, total));
    forall key: nat | key < total ensures IsSet(a, at, total, key) == IsSet(b, at, total, key) {
      SameSet(a, b, at, total, key);
    }
  }

  lemma BaseRestored(rose: Rose, a: seq<Byte>, b: seq<Byte>, ps: seq<Piece>)
    requires |a| >= 16 && AllRestored(a, b, ps) && Plain(OFFSET_AT, 8) in ps
    requires forall p :: p in Fixed(rose, Offset(a)) ==> p in ps
    ensures SameBase(rose, a, b)
  {
    hide AllRestored, SameBytes, Load, Fixed;
    var h := HistoryCopied(Offset(a), rose.historyRequired);
    FixedListed(rose, Offset(a));
    PlainRestored(a, b, ps, OFFSET_AT, 8);
    PlainRestored(a, b, ps, HEADER, 1);
    PlainRestored(a, b, ps, HEADER + rose.longLit.at, rose.longLit.size);
    PlainRestored(a, b, ps, HEADER + rose.groups.at, rose.groups.size);
    PlainRestored(a, b, ps, HEADER + rose.history + rose.historyRequired - h, h);
    if Offset(a) <= rose.anchoredDistance {
      PlainRestored(a, b, ps, HEADER + rose.anchor.at, rose.anchor.size);
    }
  }

  /** What is copied for every stream, whatever the order. */
  lemma FixedListed(rose: Rose, offset: nat)
    ensures var f := Fixed(rose, offset);
            var h := HistoryCopied(offset, rose.historyRequired);
            && Plain(HEADER, 1) in f
            && InBody(rose.longLit) in f && InBody(rose.groups) in f
            && (offset <= rose.anchoredDistance ==> InBody(rose.anchor) in f)
            && Plain(HEADER + rose.history + rose.historyRequired - h, h) in f
            && Bits(HEADER + 1, rose.roleCount) in f
            && Bits(HEADER + rose.activeLeaf, rose.activeLeafCount) in f
            && Bits(HEADER + rose.activeLeft, rose.activeLeftCount) in f
            && Bits(HEADER + rose.exhausted, rose.ekeyCount) in f
            && Bits(HEADER + rose.logical, rose.logicalCount) in f
            && Bits(HEADER + rose.comb, rose.ckeyCount) in f
  {
    hide Fixed, HistoryCopied;
    var f := Fixed(rose, offset);
    var n := |f| - 5;
    FixedHolds(rose, offset);
    FixedEnds(rose, offset);
    assert f[0] in f && f[1] in f && f[2] in f && f[3] in f && f[4] in f && f[5] in f;
    assert f[n] in f && f[n + 1] in f && f[n + 2] in f && f[n + 3] in f && f[n + 4] in f;
  }

  lemma SetsRestored(rose: Rose, a: seq<Byte>, b: seq<Byte>, ps: seq<Piece>)
    requires Sound(rose) && AllRestored(a, b, ps) && forall p :: p in Fixed(rose, Offset(a)) ==> p in ps
    ensures SameSets(rose, a, b)
  {
    hide AllRestored, SameKeys, Fixed, Offset;
    FixedListed(rose, Offset(a));
    BitsRestored(a, b, ps, HEADER + 1, rose.roleCount);
    BitsRestored(a, b, ps, HEADER + rose.activeLeaf, rose.activeLeafCount);
    BitsRestored(a, b, ps, HEADER + rose.activeLeft, rose.activeLeftCount);
    BitsRestored(a, b, ps, HEADER + rose.exhausted, rose.ekeyCount);
    BitsRestored(a, b, ps, HEADER + rose.logical, rose.logicalCount);
    BitsRestored(a, b, ps, HEADER + rose.comb, rose.ckeyCount);
  }

  lemma {:induction false} LeafListed(rose: Rose, m: seq<Byte>, n: nat, qi: nat)
    requires qi < n <= |rose.nfaStates| && LeafOn(rose, m, qi)
    ensures InBody(rose.nfaStates[qi]) in Leaves(rose, m, n)
  {
    hide LeafOn;
    if qi < n - 1 {
      LeafListed(rose, m, n - 1, qi);
    }
  }

  lemma {:induction false} LeftListed(rose: Rose, m: seq<Byte>, n: nat, ri: nat)
    requires rose.leftfixBeginQueue + n <= |rose.nfaStates| && ri < n <= |rose.lagIndex| && LeftOn(rose, m, ri)
    ensures InBody(rose.nfaStates[rose.leftfixBeginQueue + ri]) in Lefts(rose, m, n)
    ensures LagByte(rose, ri) in Lefts(rose, m, n)
  {
    hide LeftOn;
    if ri < n - 1 {
      LeftListed(rose, m, n - 1, ri);
    }
  }

  lemma {:induction false} SlotListed(som: Som, m: seq<Byte>, n: nat, slot: nat)
    requires slot < n && IsSet(m, HEADER + som.valid, som.count, slot)
    ensures Plain(HEADER + som.location + Product(slot, som.horizon), som.horizon) in Slots(som, m, n)
  {
    hide IsSet;
    if slot < n - 1 {
      SlotListed(som, m, n - 1, slot);
    }
  }

  lemma EnginesRestored(rose: Rose, a: seq<Byte>, b: seq<Byte>, ps: seq<Piece>)
    requires Sound(rose) && AllRestored(a, b, ps)
    requires forall p :: p in Leaves(rose, a, rose.activeLeafCount) || p in LeftPieces(rose, a) ==> p in ps
    ensures SameEngines(rose, a, b)
  {
    hide AllRestored, SameBytes, Leaves, Lefts, IsSet;
    forall qi: nat | qi < rose.activeLeafCount && IsSet(a, 16 + rose.activeLeaf, rose.activeLeafCount, qi)
      ensures SameBytes(a, b, 16 + rose.nfaStates[qi].at, rose.nfaStates[qi].size)
    {
      LeafListed(rose, a, rose.activeLeafCount, qi);
      PlainRestored(a, b, ps, HEADER + rose.nfaStates[qi].at, rose.nfaStates[qi].size);
    }
    if rose.leftIter.Some? {
      forall ri: nat | ri < rose.activeLeftCount && ri in rose.leftIter.value
                       && IsSet(a, 16 + rose.activeLeft, rose.activeLeftCount, ri)
        ensures SameLeft(rose, a, b, ri)
      {
        var state := rose.nfaStates[rose.leftfixBeginQueue + ri];
        LeftListed(rose, a, rose.activeLeftCount, ri);
        PlainRestored(a, b, ps, HEADER + state.at, state.size);
        PlainRestored(a, b, ps, HEADER + rose.lagTable + rose.lagIndex[ri], 1);
      }
    }
  }

  lemma SomRestored(som: Som, a: seq<Byte>, b: seq<Byte>, ps: seq<Piece>)
    requires AllRestored(a, b, ps) && som.count <= U32
    requires forall p :: p in SomSets(som) + Slots(som, a, som.count) ==> p in ps
    ensures SameSom(som, a, b)
  {
    hide AllRestored, SameBytes, SameKeys, Slots, IsSet;
    var sets := SomSets(som);
    assert sets[0] in sets && sets[1] in sets;
    BitsRestored(a, b, ps, HEADER + som.writable, som.count);
    BitsRestored(a, b, ps, HEADER + som.valid, som.count);
    forall slot: nat | slot < som.count && IsSet(a, 16 + som.valid, som.count, slot)
      ensures SameBytes(a, b, 16 + som.location + Product(slot, som.horizon), som.horizon)
    {
      SlotListed(som, a, som.count, slot);
      PlainRestored(a, b, ps, HEADER + som.location + Product(slot, som.horizon), som.horizon);
    }
  }

  /** When everything copied is restored, so is everything a stream consists of. */
  lemma PartsRestored(rose: Rose, a: seq<Byte>, b: seq<Byte>)
    requires Sound(rose) && |a| >= 16 && AllRestored(a, b, Script(rose, a))
    ensures SameStream(rose, a, b)
  {
    hide AllRestored, Fixed, Leaves, LeftPieces, Slots, SomSets, Offset;
    hide SameBase, SameSets, SameEngines, SameSom;
    var ps := Script(rose, a);
    assert ps[0] in ps;
    BaseRestored(rose, a, b, ps);
    SetsRestored(rose, a, b, ps);
    EnginesRestored(rose, a, b, ps);
    if rose.som.Some? {
      SomRestored(rose.som.value, a, b, ps);
    }
  }

  /** What has been restored asks for the same copies. */
  lemma SameScript(rose: Rose, a: seq<Byte>, b: seq<Byte>)
    requires Sound(rose) && |a| == |b| && AllRestored(a, b, Script(rose, a))
    ensures Script(rose, a) == Script(rose, b)
  {
    hide Script, AllRestored, PieceRestored, Restored, Leaves, Lefts, Slots, Offset;
    InStages(rose, a);
    AtPiece(a, b, Script(rose, a), HEADER + rose.activeLeaf, rose.activeLeafCount);
    AtPiece(a, b, Script(rose, a), HEADER + rose.activeLeft, rose.activeLeftCount);
    SameLeaves(rose, a, b, rose.activeLeafCount);
    SameLefts(rose, a, b, rose.activeLeftCount);
    SameOffset(a, b, Script(rose, a));
    if rose.som.Some? {
      var som := rose.som.value;
      AtPiece(a, b, Script(rose, a), HEADER + som.valid, som.count);
      SameSlots(som, a, b, som.count);
    }
    SameStages(rose, a, b);
  }

  lemma AtPiece(a: seq<Byte>, b: seq<Byte>, ps: seq<Piece>, at: nat, total: nat)
    requires AllRestored(a, b, ps) && Bits(at, total) in ps
    ensures Restored(a, b, at, total)
  {
    hide Restored;
    assert PieceRestored(a, b, Bits(at, total));
  }

  lemma SameOffset(a: seq<Byte>, b: seq<Byte>, ps: seq<Piece>)
    requires AllRestored(a, b, ps) && Plain(OFFSET_AT, 8) in ps
    ensures Offset(a) == Offset(b)
  {
    hide Load, Restored;
    assert PieceRestored(a, b, Plain(OFFSET_AT, 8));
  }

  lemma SameStages(rose: Rose, a: seq<Byte>, b: seq<Byte>)
    requires Sound(rose) && Offset(a) == Offset(b)
    requires Leaves(rose, a, rose.activeLeafCount) == Leaves(rose, b, rose.activeLeafCount)
    requires Lefts(rose, a, rose.activeLeftCount) == Lefts(rose, b, rose.activeLeftCount)
    requires rose.som.Some? ==> var som := rose.som.value; Slots(som, a, som.count) == Slots(som, b, som.count)
    ensures Script(rose, a) == Script(rose, b)
  {
    hide Fixed, Leaves, Lefts, Slots, Offset;
  }

  lemma {:induction false} SameLeaves(rose: Rose, a: seq<Byte>, b: seq<Byte>, n: nat)
    requires Sound(rose) && n <= rose.activeLeafCount
    requires Restored(a, b, HEADER + rose.activeLeaf, rose.activeLeafCount)
    ensures Leaves(rose, a, n) == Leaves(rose, b, n)
  {
    hide Restored, IsSet;
    if n > 0 {
      SameLeaves(rose, a, b, n - 1);
      SameSet(a, b, HEADER + rose.activeLeaf, rose.activeLeafCount, n - 1);
    }
  }

  lemma {:induction false} SameLefts(rose: Rose, a: seq<Byte>, b: seq<Byte>, n: nat)
    requires Sound(rose) && n <= rose.activeLeftCount
    requires Restored(a, b, HEADER + rose.activeLeft, rose.activeLeftCount)
    ensures Lefts(rose, a, n) == Lefts(rose, b, n)
  {
    hide Restored, IsSet;
    if n > 0 {
      SameLefts(rose, a, b, n - 1);
      SameSet(a, b, HEADER + rose.activeLeft, rose.activeLeftCount, n - 1);
    }
  }

  lemma {:induction false} SameSlots(som: Som, a: seq<Byte>, b: seq<Byte>, n: nat)
    requires n <= som.count <= U32 && Restored(a, b, HEADER + som.valid, som.count)
    ensures Slots(som, a, n) == Slots(som, b, n)
  {
    hide Restored, IsSet;
    if n > 0 {
      SameSlots(som, a, b, n - 1);
      SameSet(a, b, HEADER + som.valid, som.count, n - 1);
    }
  }

  // -------------------------------------------------------------- shortened buffers

  /** Some endfix or iterated leftfix is active. */
  predicate AnyActive(rose: Rose, m: seq<Byte>)
    requires Sound(rose)
  {
    Leaves(rose, m, rose.activeLeafCount) != [] || LeftPieces(rose, m) != []
  }

  /** Nothing is stored that is read without looking at the space given: no
      start-of-match slots, and a plain copy after the last set that holds anything. */
  predicate CutsNoticed(rose: Rose, m: seq<Byte>)
    requires Sound(rose)
  {
    && (rose.som.None? || rose.som.value.count == 0)
    && (AnyActive(rose, m) || (rose.ekeyCount == 0 && rose.logicalCount == 0 && rose.ckeyCount == 0))
  }

  /** Whatever follows a cut in memory, expanding what comes before it is refused. */
  ghost predicate EveryCutRefused(rose: Rose, m: seq<Byte>)
    requires Sound(rose)
  {
    forall buf: seq<Byte>, size: nat :: size < |Stored(rose, m)| && Shows(buf, 0, Stored(rose, m), size)
      ==> ExpandEnd(rose, m, buf, size).None?
  }

  predicate AllFit(m: seq<Byte>, ps: seq<Piece>) {
    forall i :: 0 <= i < |ps| ==> PieceFits(m, ps[i])
  }

  /** Reading stays within the limit exactly while all it read was there. */
  lemma {:induction false} ReadingWithin(src: seq<Byte>, ps: seq<Piece>, buf: seq<Byte>, limit: nat)
    requires AllFit(src, ps) && Reading(src, ps, buf, limit).Some?
    ensures var c := Reading(src, ps, buf, limit).value;
            (c <= limit <==> |ImageOf(src, ps)| <= limit) && (c <= limit ==> c == |ImageOf(src, ps)|)
  {
    hide PieceFits, PieceImage, PieceEnd;
    if ps != [] {
      var k := |ps| - 1;
      ReadingWithin(src, ps[..k], buf, limit);
      PieceEndWithin(src, ps[k], buf, Reading(src, ps[..k], buf, limit).value, limit);
    }
  }

  /** A plain copy is only made if everything up to its end is there. */
  lemma {:induction false} PlainIsThere(src: seq<Byte>, ps: seq<Piece>, i: nat, buf: seq<Byte>, limit: nat)
    requires AllFit(src, ps) && Reading(src, ps, buf, limit).Some? && i < |ps| && ps[i].Plain?
    ensures |ImageOf(src, ps[..i + 1])| <= limit
    decreases |ps|
  {
    hide PieceFits, PieceImage, PieceEnd;
    var k := |ps| - 1;
    if i == k {
      assert ps[..i + 1] == ps;
      ReadingWithin(src, ps, buf, limit);
      PieceEndWithin(src, ps[k], buf, Reading(src, ps[..k], buf, limit).value, limit);
    } else {
      PlainIsThere(src, ps[..k], i, buf, limit);
      assert ps[..k][..i + 1] == ps[..i + 1];
    }
  }

  /** Sets at the end that hold nothing add nothing. */
  lemma {:induction false} EmptyTail(m: seq<Byte>, ps: seq<Piece>, n: nat)
    requires n <= |ps| && forall i :: n <= i < |ps| ==> ps[i].Bits? && ps[i].total == 0
    ensures |ImageOf(m, ps)| == |ImageOf(m, ps[..n])|
    decreases |ps|
  {
    hide PieceImage;
    if n == |ps| {
      assert ps[..n] == ps;
    } else {
      var k := |ps| - 1;
      EmptyTail(m, ps[..k], n);
      assert ps[..k][..n] == ps[..n];
      EmptySet(m, ps[k]);
    }
  }

  lemma EmptySet(m: seq<Byte>, p: Piece)
    requires p.Bits? && p.total == 0
    ensures PieceImage(m, p) == []
  {}

  /** Sets whose bytes lie past the end of the buffer read as empty. */
  lemma {:induction false} SetsReadEmpty(src: seq<Byte>, ps: seq<Piece>, n: nat, buf: seq<Byte>)
    requires AllFit(src, ps) && n <= |ps| && buf == ImageOf(src, ps[..n])
    requires forall i :: n <= i < |ps| ==> ps[i].Bits?
    ensures Reading(src, ps, buf, |buf|).Some? && Reading(src, ps, buf, |buf|).value >= |buf|
    decreases |ps|
  {
    hide PieceFits, PieceImage, PieceEnd, ImageOf;
    if n == |ps| {
      assert ps[..n] == ps;
      ReadingWhole(src, ps, buf, |buf|);
    } else {
      var k := |ps| - 1;
      assert ps[..k][..n] == ps[..n];
      SetsReadEmpty(src, ps[..k], n, buf);
      SetReadsEmpty(src, ps[k], buf, Reading(src, ps[..k], buf, |buf|).value);
    }
  }

  lemma SetReadsEmpty(src: seq<Byte>, p: Piece, buf: seq<Byte>, cur: nat)
    requires p.Bits? && PieceFits(src, p) && cur >= |buf|
    ensures PieceEnd(src, p, buf, cur, |buf|).Some? && PieceEnd(src, p, buf, cur, |buf|).value >= cur
  {
    hide Image;
    ZerosAreBlank(Peek(buf, cur, BLOCK));
  }

  /** If the sets after the first n pieces are not empty, the bytes of those n pieces
      alone are accepted. */
  lemma CutAccepted(rose: Rose, m: seq<Byte>, ps: seq<Piece>, n: nat)
    requires IsStream(rose, m) && n <= |ps| && forall i :: n <= i < |ps| ==> ps[i].Bits?
    requires ps == BeforeSom(rose, m) + if rose.som.Some? then SomSets(rose.som.value) else []
    requires rose.som.Some? ==> n < |ps|
    requires |ImageOf(m, ps[..n])| < |ImageOf(m, ps)|
    ensures !EveryCutRefused(rose, m)
  {
    hide BeforeSom, Script, ImageOf, Reading, Shows, AnyKey, Slots, PieceFits, Separate;
    var buf := ImageOf(m, ps[..n]);
    SomStages(rose, m);
    FitsAll(m, Script(rose, m), ps);
    SetsReadEmpty(m, ps, n, buf);
    ReadingWithin(m, ps, buf, |buf|);
    ImageGrows(m, ps[..n], Script(rose, m));
    ImageGrows(m, ps, Script(rose, m));
    ShowsPrefix(buf, Stored(rose, m));
    if rose.som.Some? {
      var som := rose.som.value;
      var k := |ps| - 1;
      var sets := BeforeSom(rose, m) + [Bits(HEADER + som.writable, som.count)];
      assert ps[..k] == sets && ps == sets + [Bits(HEADER + som.valid, som.count)];
      assert ps[..k][..n] == ps[..n];
      FitsAll(m, Script(rose, m), ps[..k]);
      SetsReadEmpty(m, ps[..k], n, buf);
      NoKeyAfter(buf, Reading(m, sets, buf, |buf|).value, som.count);
    } else {
      assert ps == BeforeSom(rose, m);
    }
    assert ExpandEnd(rose, m, buf, |buf|).Some?;
  }

  lemma FitsAll(m: seq<Byte>, all: seq<Piece>, ps: seq<Piece>)
    requires Separate(m, all) && ps <= all
    ensures AllFit(m, ps)
  {
    hide PieceFits, Apart;
  }

  lemma ShowsPrefix(b: seq<Byte>, x: seq<Byte>)
    requires b <= x
    ensures Shows(b, 0, x, |b|)
  {}

  lemma {:induction false} LeavesArePlain(rose: Rose, m: seq<Byte>, n: nat)
    requires n <= |rose.nfaStates|
    ensures forall p :: p in Leaves(rose, m, n) ==> p.Plain?
  {
    hide LeafOn;
    if n > 0 {
      LeavesArePlain(rose, m, n - 1);
    }
  }

  lemma {:induction false} LeftsArePlain(rose: Rose, m: seq<Byte>, n: nat)
    requires rose.leftfixBeginQueue + n <= |rose.nfaStates| && n <= |rose.lagIndex|
    ensures forall p :: p in Lefts(rose, m, n) ==> p.Plain?
  {
    hide LeftOn;
    if n > 0 {
      LeftsArePlain(rose, m, n - 1);
    }
  }

  /** The part before the start-of-match part ends in a plain copy, or, when nothing is
      active, in the history and three sets. */
  lemma Ending(rose: Rose, m: seq<Byte>)
    requires Sound(rose)
    ensures var s := BeforeSom(rose, m);
            && |s| > 4
            && (AnyActive(rose, m) ==> s[|s| - 1].Plain?)
            && (!AnyActive(rose, m) ==>
                  && s[|s| - 4].Plain?
                  && s[|s| - 3] == Bits(HEADER + rose.exhausted, rose.ekeyCount)
                  && s[|s| - 2] == Bits(HEADER + rose.logical, rose.logicalCount)
                  && s[|s| - 1] == Bits(HEADER + rose.comb, rose.ckeyCount))
  {
    hide Leaves, Lefts, Offset;
    var f, l, r := Fixed(rose, Offset(m)), Leaves(rose, m, rose.activeLeafCount), LeftPieces(rose, m);
    LeavesArePlain(rose, m, rose.activeLeafCount);
    LeftsArePlain(rose, m, rose.activeLeftCount);
    FixedEnds(rose, Offset(m));
    hide Fixed, LeftPieces;
    var s := BeforeSom(rose, m);
    if r != [] {
      assert s[|s| - 1] == r[|r| - 1];
    } else if l != [] {
      assert s[|s| - 1] == l[|l| - 1];
    } else {
      assert s == [Plain(OFFSET_AT, 8)] + f;
    }
  }

  lemma FixedEnds(rose: Rose, offset: nat)
    ensures var f := Fixed(rose, offset);
            var h := HistoryCopied(offset, rose.historyRequired);
            && |f| > 9 && f[|f| - 5] == InBody(rose.groups)
            && f[|f| - 4] == Plain(HEADER + rose.history + rose.historyRequired - h, h)
            && f[|f| - 3] == Bits(HEADER + rose.exhausted, rose.ekeyCount)
            && f[|f| - 2] == Bits(HEADER + rose.logical, rose.logicalCount)
            && f[|f| - 1] == Bits(HEADER + rose.comb, rose.ckeyCount)
  {}

  /** Where every cut is noticed, only a whole buffer is expanded. */
  lemma CutRefused(rose: Rose, m: seq<Byte>, buf: seq<Byte>, size: nat)
    requires IsStream(rose, m) && CutsNoticed(rose, m) && ExpandEnd(rose, m, buf, size).Some?
    ensures |Stored(rose, m)| <= size
  {
    hide BeforeSom, ImageOf, Reading, ExpandEnd, Separate, PieceFits, AnyActive;
    var s, all := BeforeSom(rose, m), Script(rose, m);
    if Reading(m, s, buf, size).None? {
      NeverEnds(rose, m, s, buf, size);
    }
    Ending(rose, m);
    var i := if AnyActive(rose, m) then |s| - 1 else |s| - 4;
    FitsAll(m, all, s);
    PlainIsThere(m, s, i, buf, size);
    assert all[..i + 1] == s[..i + 1];
    assert rose.som.Some? ==> Slots(rose.som.value, m, 0) == [];
    EmptyTail(m, all, i + 1);
  }

  lemma BitsStored(m: seq<Byte>, p: Piece)
    requires p.Bits? && PieceFits(m, p) && p.total > 0
    ensures PieceImage(m, p) != []
  {
    hide Nodes;
    RootIsFirst(m, ShapeOf(p.at, p.total));
  }

  lemma ImageStrict(m: seq<Byte>, ps: seq<Piece>, n: nat, i: nat)
    requires n <= i < |ps| && ps[i].Bits? && PieceFits(m, ps[i]) && ps[i].total > 0
    ensures |ImageOf(m, ps[..n])| < |ImageOf(m, ps)|
  {
    hide ImageOf, PieceFits;
    BitsStored(m, ps[i]);
    ImageAt(m, ps, i);
    ImageGrows(m, ps[..n], ps[..i]);
  }

  /** Every shortened buffer is refused, whatever follows it in memory, exactly when the
      engine has no start-of-match slots and either some endfix or iterated leftfix is
      active or there are no exhaustion, logical or combination keys. */
  lemma EveryPrefixRefusedIff(rose: Rose, m: seq<Byte>)
    requires IsStream(rose, m)
    ensures EveryCutRefused(rose, m) <==> CutsNoticed(rose, m)
  {
    hide BeforeSom, Script, ImageOf, Reading, ExpandEnd, Separate, PieceFits, AnyActive, Shows;
    if CutsNoticed(rose, m) {
      forall buf: seq<Byte>, size: nat | size < |Stored(rose, m)| && Shows(buf, 0, Stored(rose, m), size)
        ensures ExpandEnd(rose, m, buf, size).None?
      {
        if ExpandEnd(rose, m, buf, size).Some? {
          CutRefused(rose, m, buf, size);
        }
      }
    } else {
      SomStages(rose, m);
      Ending(rose, m);
      var s := BeforeSom(rose, m);
      var ps := s + if rose.som.Some? then SomSets(rose.som.value) else [];
      FitsAll(m, Script(rose, m), ps);
      if rose.som.Some? && rose.som.value.count > 0 {
        ImageStrict(m, ps, |s|, |s|);
        assert ps[|s| + 1].Bits?;
        CutAccepted(rose, m, ps, |s|);
      } else {
        var i := if rose.ekeyCount > 0 then |s| - 3 else if rose.logicalCount > 0 then |s| - 2 else |s| - 1;
        ImageStrict(m, ps, |s| - 3, i);
        CutAccepted(rose, m, ps, |s| - 3);
      }
    }
  }

  // ------------------------------------------------------------------ a small example

  /** A status byte, and up to eight combinations in one. */
  function SmallEngine(keys: nat): Rose {
    var nowhere := Region(0, 0);
    Rose(0, 0, 0, 0, 0, nowhere, 0, nowhere, nowhere, 0, 0, 0, 0, 0, 0, 1, keys, [], 0, None, 0, [], None)
  }

  function SmallStream(): seq<Byte> {
    [0, 0, 0, 0, 0, 0, 0, 0, 0, 0, 0, 0, 0, 0, 0, 0, 0, 0xff]
  }

  lemma SmallOffset()
    ensures Offset(SmallStream()) == 0
  {
    hide Load;
    LoadZeros(SmallStream()[OFFSET_AT..HEADER]);
  }

  lemma {:induction false} LoadZeros(b: seq<Byte>)
    requires forall i :: 0 <= i < |b| ==> b[i] == 0
    ensures Load(b) == 0
  {
    if b != [] {
      LoadZeros(b[1..]);
    }
  }

  function SmallFixed(keys: nat): seq<Piece> {
    [Plain(16, 1), Bits(17, 0), Bits(16, 0), Bits(16, 0), Plain(16, 0), Plain(16, 0), Plain(16, 0),
     Plain(16, 0), Bits(16, 0), Bits(16, 0), Bits(17, keys)]
  }

  lemma SmallStart(keys: nat)
    requires keys <= 8
    ensures var rose := SmallEngine(keys);
            && Sound(rose) && rose.activeLeafCount == 0 && rose.leftIter.None? && rose.som.None?
            && Fixed(rose, 0) == SmallFixed(keys)
  {
    var f := Fixed(SmallEngine(keys), 0);
    assert |f| == 11 && f[..5] == SmallFixed(keys)[..5] && f[5] == Plain(16, 0) && f[6..] == SmallFixed(keys)[6..];
  }

  lemma BareScript(rose: Rose, m: seq<Byte>)
    requires Sound(rose) && rose.activeLeafCount == 0 && rose.leftIter.None? && rose.som.None?
    ensures Script(rose, m) == [Plain(OFFSET_AT, 8)] + Fixed(rose, Offset(m)) && !AnyActive(rose, m)
  {
    hide Fixed, Offset;
    assert Leaves(rose, m, 0) == [];
  }

  lemma SmallScript(keys: nat)
    requires keys <= 8
    ensures Sound(SmallEngine(keys)) && !AnyActive(SmallEngine(keys), SmallStream())
    ensures Script(SmallEngine(keys), SmallStream()) == [Plain(8, 8)] + SmallFixed(keys)
  {
    hide Script, Offset, SmallStream, Fixed, SmallFixed, SmallEngine, AnyActive;
    SmallOffset();
    SmallStart(keys);
    BareScript(SmallEngine(keys), SmallStream());
  }

  lemma SmallSeparate(keys: nat)
    requires 0 < keys <= 8
    ensures Separate(SmallStream(), [Plain(8, 8)] + SmallFixed(keys))
  {
    var m, ps := SmallStream(), [Plain(8, 8)] + SmallFixed(keys);
    assert FlatSize(0) == 0 && FlatSize(keys) == 1;
    forall i | 0 <= i < |ps| ensures PieceFits(m, ps[i]) {
    }
    forall i, j | 0 <= i < j < |ps| ensures Apart(ps[i], ps[j]) {
      assert i > 1 && j < 11 ==> Start(ps[i]) == End(ps[i]);
    }
  }

  /** Its stream is a stream, and a cut of it is accepted. */
  lemma ShortBufferExample(keys: nat)
    requires 0 < keys <= 8
    ensures IsStream(SmallEngine(keys), SmallStream()) && !EveryCutRefused(SmallEngine(keys), SmallStream())
  {
    hide Script, EveryCutRefused, AnyActive, Separate;
    SmallScript(keys);
    SmallSeparate(keys);
    EveryPrefixRefusedIff(SmallEngine(keys), SmallStream());
  }

  // --------------------------------------------------------------------- the history

  /** The history copied is the real one, the last min(offset, required) bytes,
      exactly while cutting the offset to 32 bits does not bring it below what is
      required. */
  lemma HistoryIsWholeIff(offset: nat, required: nat)
    requires required < U32
    ensures HistoryCopied(offset, required) == (if offset < required then offset else required)
            <==> offset < U32 || required <= offset % U32
  {
  }

  /** Four gigabytes in, no history is kept. */
  lemma HistoryLost(required: nat)
    requires 0 < required < U32
    ensures HistoryCopied(U32, required) == 0
  {}
}
