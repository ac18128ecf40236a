/** Scratch space (src/scratch.c): one allocation holds every region a scan needs, laid
    out by a moving pointer; sizes grow to cover each database the space is used with. */
module ScratchSpace {
  import opened Options
  import opened Multibit

  const ADDRESS: nat := 8
  const WORD: nat := 8
  const DELAY_SLOT_COUNT: nat := 32

  /** sizeof struct hs_scratch, struct mq and struct queue_match. */
  datatype Sizes = Sizes(scratch: nat, mq: nat, queueMatch: nat)

  /** The sizing fields of a scratch structure. */
  datatype Proto = Proto(
    anchoredLen: nat, anchoredFatbit: nat, delayFatbit: nat, handledFatbit: nat,
    bState: nat, tState: nat, fullState: nat,
    somCount: nat, somFatbit: nat,
    queueCount: nat, activeQueueArray: nat,
    dkeyCount: nat, dkeyLog: nat)

  datatype Region = Region(at: nat, size: nat)

  function Product(a: nat, b: nat): (r: nat)
    ensures r == a * b
  {
    a * b
  }

  function RoundUp8(a: nat): (r: nat)
    ensures a <= r < a + 8 && r % 8 == 0
  {
    (a + 7) / 8 * 8
  }

  function RoundUp64(a: nat): (r: nat)
    ensures a <= r < a + 64 && r % 64 == 0
  {
    (a + 63) / 64 * 64
  }

  // -------------------------------------------------------------------- the bytes asked for

  function FatbitArraySize(entries: nat, fatbit: nat): nat {
    RoundUp8(RoundUp8(Product(entries, ADDRESS)) + Product(entries, fatbit))
  }

  function AllocSize(z: Sizes, p: Proto): nat {
    z.scratch
    + (Product(p.queueCount, z.mq) + 63
       + p.bState + p.tState
       + p.fullState + 63
       + p.handledFatbit
       + p.activeQueueArray
       + 2 * p.dkeyLog
       + 2 * p.dkeyLog
       + 2 * Product(p.dkeyCount, WORD)
       + FatbitArraySize(p.anchoredLen, p.anchoredFatbit) + Product(p.queueCount, z.queueMatch)
       + FatbitArraySize(DELAY_SLOT_COUNT, p.delayFatbit)
       + Product(p.somCount, WORD)
       + p.somFatbit
       + p.somFatbit
       + Product(p.somCount, WORD) + 15)
    + 256
  }

  /** The compiler pads both structures to words. */
  predicate Padded(z: Sizes) {
    z.mq % 8 == 0 && z.queueMatch % 8 == 0
  }

  /** The sizes of bit sets are multiples of eight; see GrowKeepsEven. */
  predicate Even(p: Proto) {
    && p.anchoredFatbit % 8 == 0 && p.delayFatbit % 8 == 0 && p.handledFatbit % 8 == 0
    && p.somFatbit % 8 == 0 && p.activeQueueArray % 8 == 0 && p.dkeyLog % 8 == 0
  }

  // -------------------------------------------------------------------------- the layout

  /** Where everything is: the pointer fields of struct hs_scratch. */
  datatype Layout = Layout(
    s: nat,
    queues: nat, somStore: nat, somAttemptedStore: nat,
    delaySlots: nat, delay: seq<nat>, alLog: nat, al: seq<nat>,
    qm: nat, bstate: nat, tstate: nat,
    somStart0: nat, somStart1: nat, aqa: nat, handledRoles: nat,
    log0: nat, log1: nat, somLog0: nat, somLog1: nat,
    somSetNow: nat, somAttemptedSet: nat, fullState: nat)

  function Each(places: seq<nat>, size: nat): (r: seq<Region>)
    ensures |r| == |places|
  {
    seq(|places|, i requires 0 <= i < |places| => Region(places[i], size))
  }

  /** What the first part lays out, in the order it does: queues and stores, the two
      fatbit arrays, the match queue and the block states. */
  function FrontRegions(z: Sizes, p: Proto, l: Layout): seq<Region> {
    [Region(l.s, z.scratch),
     Region(l.queues, Product(p.queueCount, z.mq)),
     Region(l.somStore, Product(p.somCount, WORD)),
     Region(l.somAttemptedStore, Product(p.somCount, WORD)),
     Region(l.delaySlots, Product(DELAY_SLOT_COUNT, ADDRESS))]
    + Each(l.delay, p.delayFatbit)
    + [Region(l.alLog, Product(p.anchoredLen, ADDRESS))]
    + Each(l.al, p.anchoredFatbit)
    + [Region(l.qm, Product(p.queueCount, z.queueMatch)),
       Region(l.bstate, p.bState),
       Region(l.tstate, p.tState)]
  }

  /** What the second part lays out: report logs and their starts, queue and role sets,
      the engine state. */
  function BackRegions(p: Proto, l: Layout): seq<Region> {
    [Region(l.somStart0, Product(p.dkeyCount, WORD)),
     Region(l.somStart1, Product(p.dkeyCount, WORD)),
     Region(l.aqa, p.activeQueueArray),
     Region(l.handledRoles, p.handledFatbit),
     Region(l.log0, p.dkeyLog),
     Region(l.log1, p.dkeyLog),
     Region(l.somLog0, p.dkeyLog),
     Region(l.somLog1, p.dkeyLog),
     Region(l.somSetNow, p.somFatbit),
     Region(l.somAttemptedSet, p.somFatbit),
     Region(l.fullState, p.fullState)]
  }

  /** Every region, the structure itself first. */
  function Regions(z: Sizes, p: Proto, l: Layout): seq<Region> {
    FrontRegions(z, p, l) + BackRegions(p, l)
  }

  /** The regions follow each other between lo and hi, so that no two overlap. */
  predicate Stacked(rs: seq<Region>, lo: nat, hi: nat) {
    && lo <= hi
    && (forall i :: 0 <= i < |rs| ==> lo <= rs[i].at && rs[i].at + rs[i].size <= hi)
    && (forall i, j :: 0 <= i < j < |rs| ==> rs[i].at + rs[i].size <= rs[j].at)
  }

  predicate AllAligned8(places: seq<nat>) {
    forall i :: 0 <= i < |places| ==> places[i] % 8 == 0
  }

  predicate FrontAligned(l: Layout) {
    && l.s % 64 == 0
    && l.queues % 8 == 0 && l.somStore % 8 == 0 && l.somAttemptedStore % 8 == 0
    && l.delaySlots % 8 == 0 && AllAligned8(l.delay)
    && l.alLog % 8 == 0 && AllAligned8(l.al)
    && l.qm % 8 == 0
  }

  predicate BackAligned(l: Layout) {
    && l.somStart0 % 64 == 0 && l.somStart1 % 8 == 0
    && l.aqa % 8 == 0 && l.handledRoles % 8 == 0
    && l.log0 % 8 == 0 && l.log1 % 8 == 0 && l.somLog0 % 8 == 0 && l.somLog1 % 8 == 0
    && l.somSetNow % 8 == 0 && l.somAttemptedSet % 8 == 0
    && l.fullState % 64 == 0
  }

  /** Structures, pointers, words and bit sets at multiples of eight; the structure
      itself, the start logs and the engine state at cache lines. */
  predicate Aligned(l: Layout) {
    FrontAligned(l) && BackAligned(l)
  }

  lemma StackedPush(rs: seq<Region>, lo: nat, hi: nat, at: nat, size: nat)
    requires Stacked(rs, lo, hi) && hi <= at
    ensures Stacked(rs + [Region(at, size)], lo, at + size)
  {}

  /** The moving pointer. */
  class Arena {
    const base: nat
    var current: nat
    ghost var regions: seq<Region>

    ghost predicate Valid()
      reads this
    {
      Stacked(regions, base, current)
    }

    constructor (start: nat)
      ensures Valid() && base == current == start && regions == []
    {
      base, current, regions := start, start, [];
    }

    method Take(size: nat) returns (at: nat)
      requires Valid()
      modifies this
      ensures Valid() && at == old(current) && current == at + size
      ensures regions == old(regions) + [Region(at, size)]
    {
      StackedPush(regions, base, current, current, size);
      at := current;
      current := current + size;
      regions := regions + [Region(at, size)];
    }

    method Align8()
      requires Valid()
      modifies this`current
      ensures Valid() && current == RoundUp8(old(current))
    {
      current := RoundUp8(current);
    }

    method Align64()
      requires Valid()
      modifies this`current
      ensures Valid() && current == RoundUp64(old(current))
    {
      current := RoundUp64(current);
    }

    /** A region whose place and size are multiples of eight. */
    method TakeEven(size: nat) returns (at: nat)
      requires Valid() && current % 8 == 0 && size % 8 == 0
      modifies this
      ensures Valid() && at == old(current) && current == at + size && at % 8 == 0 && current % 8 == 0
      ensures regions == old(regions) + [Region(at, size)]
    {
      EvenSum(current, size);
      at := Take(size);
    }

    /** Two regions alike, as for even and odd offsets. */
    method TakePair(size: nat) returns (a: nat, b: nat)
      requires Valid() && current % 8 == 0 && size % 8 == 0
      modifies this
      ensures Valid() && a == old(current) && b == a + size && current == b + size
      ensures a % 8 == 0 && b % 8 == 0 && current % 8 == 0
      ensures regions == old(regions) + [Region(a, size), Region(b, size)]
    {
      a := TakeEven(size);
      b := TakeEven(size);
    }

    /** A run of equal bit sets. */
    method TakeEach(count: nat, size: nat) returns (places: seq<nat>)
      requires Valid() && current % 8 == 0 && size % 8 == 0
      modifies this
      ensures Valid() && |places| == count && AllAligned8(places)
      ensures current == old(current) + Product(count, size) && current % 8 == 0
      ensures regions == old(regions) + Each(places, size)
    {
      places := [];
      var i := 0;
      while i < count
        invariant 0 <= i <= count && |places| == i && AllAligned8(places)
        invariant Valid() && current == old(current) + Product(i, size) && current % 8 == 0
        invariant regions == old(regions) + Each(places, size)
      {
        var at := TakeEven(size);
        EachPush(places, size, at);
        ProductStep(i, size);
        places := places + [at];
        i := i + 1;
      }
    }
  }

  lemma EachPush(places: seq<nat>, size: nat, at: nat)
    ensures Each(places + [at], size) == Each(places, size) + [Region(at, size)]
  {}

  lemma ProductStep(a: nat, b: nat)
    ensures Product(a + 1, b) == Product(a, b) + b && Product(0, b) == 0
  {}

  lemma EvenSum(a: nat, b: nat)
    requires a % 8 == 0 && b % 8 == 0
    ensures (a + b) % 8 == 0 && RoundUp8(a) == a
  {}

  lemma EvenProduct(a: nat, b: nat)
    requires b % 8 == 0
    ensures Product(a, b) % 8 == 0
  {
    var k := b / 8;
    assert b == 8 * k;
    assert a * b == 8 * (a * k) by {
      Shuffle(a, k);
    }
    MultipleOf8(a * k);
  }

  lemma Shuffle(a: nat, k: nat)
    ensures a * (8 * k) == 8 * (a * k)
  {}

  lemma MultipleOf8(x: nat)
    ensures 8 * x % 8 == 0
  {}

  /** The pointers to the fatbits of an array, then the fatbits. */
  method TakeFatbits(arena: Arena, count: nat, size: nat) returns (table: nat, places: seq<nat>)
    requires arena.Valid() && arena.current % 8 == 0 && size % 8 == 0
    modifies arena
    ensures arena.Valid() && arena.current % 8 == 0 && table % 8 == 0 && |places| == count && AllAligned8(places)
    ensures arena.current == old(arena.current) + FatbitArraySize(count, size)
    ensures arena.regions == old(arena.regions) + [Region(table, Product(count, ADDRESS))] + Each(places, size)
  {
    EvenProduct(count, ADDRESS);
    EvenProduct(count, size);
    EvenSum(arena.current, Product(count, ADDRESS));
    arena.Align8();
    table := arena.TakeEven(Product(count, ADDRESS));
    EvenSum(arena.current, 0);
    arena.Align8();
    places := arena.TakeEach(count, size);
    EvenSum(Product(count, ADDRESS), Product(count, size));
    EvenSum(Product(count, ADDRESS) + Product(count, size), 0);
  }

  /** From the start of the structure to the end of the transient state. */
  method LayFront(arena: Arena, z: Sizes, p: Proto) returns (l: Layout)
    requires arena.Valid() && arena.regions == [] && arena.current % 64 == 0 && Padded(z) && Even(p)
    modifies arena
    ensures arena.Valid() && l.s == old(arena.current) && FrontAligned(l)
    ensures |l.delay| == DELAY_SLOT_COUNT && |l.al| == p.anchoredLen
    ensures arena.regions == FrontRegions(z, p, l)
    ensures arena.current < old(arena.current) + z.scratch + 8
              + Product(p.queueCount, z.mq) + 2 * Product(p.somCount, WORD)
              + FatbitArraySize(DELAY_SLOT_COUNT, p.delayFatbit)
              + FatbitArraySize(p.anchoredLen, p.anchoredFatbit)
              + Product(p.queueCount, z.queueMatch) + p.bState + p.tState
  {
    hide Product, FatbitArraySize, RoundUp8, RoundUp64, Stacked;
    EvenProduct(p.queueCount, z.mq);
    EvenProduct(p.queueCount, z.queueMatch);
    EvenProduct(p.somCount, WORD);
    var s := arena.Take(z.scratch);
    arena.Align8();
    var queues := arena.TakeEven(Product(p.queueCount, z.mq));
    var somStore, somAttemptedStore := arena.TakePair(Product(p.somCount, WORD));
    var delaySlots, delay := TakeFatbits(arena, DELAY_SLOT_COUNT, p.delayFatbit);
    var alLog, al := TakeFatbits(arena, p.anchoredLen, p.anchoredFatbit);
    EvenSum(arena.current, 0);
    arena.Align8();
    var qm := arena.TakeEven(Product(p.queueCount, z.queueMatch));
    var bstate := arena.Take(p.bState);
    var tstate := arena.Take(p.tState);
    l := Layout(s, queues, somStore, somAttemptedStore, delaySlots, delay, alLog, al, qm, bstate, tstate,
                0, 0, 0, 0, 0, 0, 0, 0, 0, 0, 0);
  }

  /** The rest: report logs and their starts, queue and role sets, the engine state. */
  method LayBack(arena: Arena, p: Proto, front: Layout) returns (l: Layout)
    requires arena.Valid() && Even(p)
    modifies arena
    ensures arena.Valid()
    ensures l == front.(somStart0 := l.somStart0, somStart1 := l.somStart1,
                        aqa := l.aqa, handledRoles := l.handledRoles,
                        log0 := l.log0, log1 := l.log1, somLog0 := l.somLog0, somLog1 := l.somLog1,
                        somSetNow := l.somSetNow, somAttemptedSet := l.somAttemptedSet, fullState := l.fullState)
    ensures BackAligned(l)
    ensures arena.regions == old(arena.regions) + BackRegions(p, l)
    ensures arena.current < old(arena.current) + 128 + 2 * Product(p.dkeyCount, WORD) + p.activeQueueArray
              + p.handledFatbit + 4 * p.dkeyLog + 2 * p.somFatbit + p.fullState
  {
    hide Product, RoundUp64, Stacked;
    EvenProduct(p.dkeyCount, WORD);
    arena.Align64();
    CacheLineIsEven(arena.current);
    var somStart0, somStart1 := arena.TakePair(Product(p.dkeyCount, WORD));
    var aqa := arena.TakeEven(p.activeQueueArray);
    var handledRoles := arena.TakeEven(p.handledFatbit);
    var log0, log1 := arena.TakePair(p.dkeyLog);
    var somLog0, somLog1 := arena.TakePair(p.dkeyLog);
    var somSetNow, somAttemptedSet := arena.TakePair(p.somFatbit);
    arena.Align64();
    var fullState := arena.Take(p.fullState);
    l := front.(somStart0 := somStart0, somStart1 := somStart1, aqa := aqa, handledRoles := handledRoles,
                log0 := log0, log1 := log1, somLog0 := somLog0, somLog1 := somLog1,
                somSetNow := somSetNow, somAttemptedSet := somAttemptedSet, fullState := fullState);
  }

  lemma CacheLineIsEven(a: nat)
    requires a % 64 == 0
    ensures a % 8 == 0
  {
    var k := a / 64;
    assert a == 8 * (8 * k);
    MultipleOf8(8 * k);
  }

  /** alloc_scratch on memory at `base`: every region is aligned, no two overlap, and
      all lie inside the bytes that were asked for. */
  method AllocScratch(z: Sizes, p: Proto, base: nat) returns (l: Layout)
    requires Padded(z) && Even(p)
    ensures Stacked(Regions(z, p, l), base, base + AllocSize(z, p))
    ensures Aligned(l) && |l.delay| == DELAY_SLOT_COUNT && |l.al| == p.anchoredLen
  {
    hide Product, FatbitArraySize, RoundUp64;
    var arena := new Arena(RoundUp64(base));
    var front := LayFront(arena, z, p);
    l := LayBack(arena, p, front);
    assert FrontRegions(z, p, l) == FrontRegions(z, p, front);
    assert Regions(z, p, l) == arena.regions;
    StackedWithin(arena.regions, arena.base, arena.current, base, base + AllocSize(z, p));
  }

  lemma StackedWithin(rs: seq<Region>, lo: nat, hi: nat, low: nat, high: nat)
    requires Stacked(rs, lo, hi) && low <= lo && hi <= high
    ensures Stacked(rs, low, high)
  {}

  // -------------------------------------------------------------------------- growing

  datatype Mode = Block | Streaming | Vectored

  /** What a database needs room for; its bit set sizes are the fatbit_size of these
      numbers (src/rose/rose_build_bytecode.cpp:2482 and 3821 to 3838). */
  datatype Rose = Rose(
    mode: Mode, stateEnd: nat,
    anchoredDistance: nat, anchoredCount: nat, delayCount: nat, handledCount: nat,
    tState: nat, scratchState: nat,
    somCount: nat, queueCount: nat, dkeyCount: nat)

  /** fatbit_size: a multibit, but never less than sizeof(struct fatbit). */
  function FatbitSize(n: nat): (r: nat)
    ensures r % 8 == 0 && r >= 32 && r >= Footprint(n)
    ensures r == 32 || r == Footprint(n)
  {
    FootprintIsEven(n);
    Max(32, Footprint(n))
  }

  lemma FootprintIsEven(n: nat)
    ensures Footprint(n) > 32 ==> Footprint(n) % 8 == 0
  {
    hide RootOffset;
    if n > FLAT_MAX_BITS {
      MultipleOf8(RootOffset(MaxLevel(n)) + (n + 63) / 64);
    }
  }

  lemma FatbitSizeGrows(n: nat, k: nat)
    requires n <= k
    ensures FatbitSize(n) <= FatbitSize(k)
  {
    hide Footprint;
    FootprintGrows(n, k);
  }

  /** sizeof(struct hs_stream). */
  const STREAM_HEADER: nat := 16

  const NOTHING: Proto := Proto(0, 0, 0, 0, 0, 0, 0, 0, 0, 0, 0, 0, 0)

  /** Vectored databases keep a whole stream, header included. */
  function BState(r: Rose): nat {
    match r.mode
    case Block => r.stateEnd
    case Vectored => STREAM_HEADER + r.stateEnd
    case Streaming => 0
  }

  /** The space is enough for the database; the report logs matter to databases that
      have report keys. */
  predicate Covers(p: Proto, r: Rose) {
    && r.anchoredDistance <= p.anchoredLen && HasRoom(p.anchoredFatbit, r.anchoredCount)
    && HasRoom(p.delayFatbit, r.delayCount) && HasRoom(p.handledFatbit, r.handledCount)
    && (r.mode == Block ==> r.stateEnd <= p.bState)
    && (r.mode == Vectored ==> STREAM_HEADER + r.stateEnd <= p.bState)
    && r.tState <= p.tState && r.scratchState <= p.fullState
    && r.somCount <= p.somCount && HasRoom(p.somFatbit, r.somCount)
    && r.queueCount <= p.queueCount && HasRoom(p.activeQueueArray, r.queueCount)
    && r.dkeyCount <= p.dkeyCount && (r.dkeyCount > 0 ==> HasRoom(p.dkeyLog, r.dkeyCount))
  }

  /** A fatbit of this size holds a multibit over n keys, and is at least the struct. */
  predicate HasRoom(size: nat, n: nat) {
    Footprint(n) <= size && 32 <= size
  }

  function Max(a: nat, b: nat): nat { if a < b then b else a }

  /** The sizes after one more database. */
  function Grow(p: Proto, r: Rose): Proto {
    Proto(
      Max(p.anchoredLen, r.anchoredDistance), Max(p.anchoredFatbit, FatbitSize(r.anchoredCount)),
      Max(p.delayFatbit, FatbitSize(r.delayCount)), Max(p.handledFatbit, FatbitSize(r.handledCount)),
      Max(p.bState, BState(r)), Max(p.tState, r.tState), Max(p.fullState, r.scratchState),
      Max(p.somCount, r.somCount), Max(p.somFatbit, FatbitSize(r.somCount)),
      Max(p.queueCount, r.queueCount), Max(p.activeQueueArray, FatbitSize(r.queueCount)),
      Max(p.dkeyCount, r.dkeyCount), if r.dkeyCount > p.dkeyCount then FatbitSize(r.dkeyCount) else p.dkeyLog)
  }

  /** The sizes databases ask for are all multiples of eight, so their maxima are. */
  lemma GrowKeepsEven(p: Proto, r: Rose)
    requires Even(p)
    ensures Even(Grow(p, r))
  {
    hide FatbitSize;
  }

  function GrowAll(p: Proto, rs: seq<Rose>): Proto {
    if rs == [] then p else Grow(GrowAll(p, rs[..|rs| - 1]), rs[|rs| - 1])
  }

  /** The log size kept is the one for the most report keys so far. */
  predicate LogsFit(p: Proto) {
    p.dkeyLog == if p.dkeyCount > 0 then FatbitSize(p.dkeyCount) else 0
  }

  lemma {:induction false} LogOfLargest(rs: seq<Rose>)
    ensures LogsFit(GrowAll(NOTHING, rs))
  {
    hide FatbitSize;
    if rs != [] {
      LogOfLargest(rs[..|rs| - 1]);
    }
  }

  lemma RoomGrows(a: nat, b: nat, n: nat)
    ensures HasRoom(a, n) ==> HasRoom(Max(a, b), n)
    ensures HasRoom(Max(a, FatbitSize(n)), n)
  {
    hide Footprint;
  }

  lemma LogsCover(p: Proto, n: nat)
    requires LogsFit(p) && 0 < n <= p.dkeyCount
    ensures HasRoom(p.dkeyLog, n)
  {
    hide Footprint;
    FatbitSizeGrows(n, p.dkeyCount);
  }

  /** What covers a database still does after more growth. */
  lemma GrowKeeps(p: Proto, r: Rose, q: Rose)
    requires Covers(p, q) && LogsFit(Grow(p, r))
    ensures Covers(Grow(p, r), q)
  {
    hide HasRoom, FatbitSize, LogsFit;
    RoomGrows(p.anchoredFatbit, FatbitSize(r.anchoredCount), q.anchoredCount);
    RoomGrows(p.delayFatbit, FatbitSize(r.delayCount), q.delayCount);
    RoomGrows(p.handledFatbit, FatbitSize(r.handledCount), q.handledCount);
    RoomGrows(p.somFatbit, FatbitSize(r.somCount), q.somCount);
    RoomGrows(p.activeQueueArray, FatbitSize(r.queueCount), q.queueCount);
    if q.dkeyCount > 0 {
      LogsCover(Grow(p, r), q.dkeyCount);
    }
  }

  lemma GrowCovers(p: Proto, r: Rose)
    requires LogsFit(Grow(p, r))
    ensures Covers(Grow(p, r), r)
  {
    hide HasRoom, FatbitSize, LogsFit;
    RoomGrows(p.anchoredFatbit, 0, r.anchoredCount);
    RoomGrows(p.delayFatbit, 0, r.delayCount);
    RoomGrows(p.handledFatbit, 0, r.handledCount);
    RoomGrows(p.somFatbit, 0, r.somCount);
    RoomGrows(p.activeQueueArray, 0, r.queueCount);
    if r.dkeyCount > 0 {
      LogsCover(Grow(p, r), r.dkeyCount);
    }
  }

  /** After any databases have been passed in any order, the sizes cover each of them,
      the report logs included, although their size is not raised on its own. */
  lemma {:induction false} SizesCoverAll(rs: seq<Rose>, i: nat)
    requires i < |rs|
    ensures Covers(GrowAll(NOTHING, rs), rs[i])
    decreases |rs|
  {
    hide Covers, Grow, LogsFit;
    var k := |rs| - 1;
    LogOfLargest(rs);
    if i < k {
      SizesCoverAll(rs[..k], i);
      GrowKeeps(GrowAll(NOTHING, rs[..k]), rs[k], rs[i]);
    } else {
      GrowCovers(GrowAll(NOTHING, rs[..k]), rs[k]);
    }
  }

  // ------------------------------------------------------------- room for a database

  /** What database r uses of the first part, each before what comes next: the queues,
      the start-of-match stores, 32 delay slots, an anchored log for each offset, the
      queue matches, and its block or vectored state. */
  predicate ServesFront(z: Sizes, l: Layout, r: Rose, lo: nat, hi: nat) {
    var n := r.anchoredDistance;
    && lo <= l.s && l.s + z.scratch <= l.queues
    && l.queues + Product(r.queueCount, z.mq) <= l.somStore
    && l.somStore + Product(r.somCount, 8) <= l.somAttemptedStore
    && l.somAttemptedStore + Product(r.somCount, 8) <= l.delaySlots
    && |l.delay| == 32 && l.delaySlots + 256 <= l.delay[0]
    && (forall i :: 0 <= i < 31 ==> l.delay[i] + Footprint(r.delayCount) <= l.delay[i + 1])
    && l.delay[31] + Footprint(r.delayCount) <= l.alLog
    && n <= |l.al| && (forall i :: 0 <= i < n ==> l.alLog + Product(n, 8) <= l.al[i])
    && (forall i, j :: 0 <= i < j < n ==> l.al[i] + Footprint(r.anchoredCount) <= l.al[j])
    && (forall i :: 0 <= i < n ==> l.al[i] + Footprint(r.anchoredCount) <= l.qm)
    && l.alLog + Product(n, 8) <= l.qm
    && l.qm + Product(r.queueCount, z.queueMatch) <= l.bstate
    && (r.mode == Block ==> l.bstate + r.stateEnd <= l.tstate)
    && (r.mode == Vectored ==> l.bstate + 16 + r.stateEnd <= l.tstate)
    && l.bstate <= l.tstate && l.tstate + r.tState <= hi
  }

  /** And of the second part: starts and logs of reports, queue and role sets, the
      engine state. */
  predicate ServesBack(l: Layout, r: Rose, hi: nat) {
    var log := if r.dkeyCount > 0 then Footprint(r.dkeyCount) else 0;
    && l.tstate + r.tState <= l.somStart0
    && l.somStart0 + Product(r.dkeyCount, 8) <= l.somStart1
    && l.somStart1 + Product(r.dkeyCount, 8) <= l.aqa
    && l.aqa + Footprint(r.queueCount) <= l.handledRoles
    && l.handledRoles + Footprint(r.handledCount) <= l.log0
    && l.log0 + log <= l.log1 && l.log1 + log <= l.somLog0
    && l.somLog0 + log <= l.somLog1 && l.somLog1 + log <= l.somSetNow
    && l.somSetNow + Footprint(r.somCount) <= l.somAttemptedSet
    && l.somAttemptedSet + Footprint(r.somCount) <= l.fullState
    && l.fullState + r.scratchState <= hi
  }

  predicate Serves(z: Sizes, l: Layout, r: Rose, lo: nat, hi: nat) {
    ServesFront(z, l, r, lo, hi) && ServesBack(l, r, hi)
  }

  lemma ProductGrows(a: nat, b: nat, c: nat)
    requires a <= b
    ensures Product(a, c) <= Product(b, c)
  {
    assert (b - a) * c >= 0;
  }

  /** The first part as the prototype has it. */
  predicate FrontInOrder(z: Sizes, p: Proto, l: Layout, lo: nat, hi: nat) {
    && lo <= l.s && l.s + z.scratch <= l.queues
    && l.queues + Product(p.queueCount, z.mq) <= l.somStore
    && l.somStore + Product(p.somCount, WORD) <= l.somAttemptedStore
    && l.somAttemptedStore + Product(p.somCount, WORD) <= l.delaySlots
    && (forall i :: 0 <= i < |l.delay| ==> l.delaySlots + Product(DELAY_SLOT_COUNT, ADDRESS) <= l.delay[i])
    && (forall i, j :: 0 <= i < j < |l.delay| ==> l.delay[i] + p.delayFatbit <= l.delay[j])
    && (forall i :: 0 <= i < |l.delay| ==> l.delay[i] + p.delayFatbit <= l.alLog)
    && (forall i :: 0 <= i < |l.al| ==> l.alLog + Product(p.anchoredLen, ADDRESS) <= l.al[i])
    && (forall i, j :: 0 <= i < j < |l.al| ==> l.al[i] + p.anchoredFatbit <= l.al[j])
    && (forall i :: 0 <= i < |l.al| ==> l.al[i] + p.anchoredFatbit <= l.qm)
    && l.alLog + Product(p.anchoredLen, ADDRESS) <= l.qm
    && l.qm + Product(p.queueCount, z.queueMatch) <= l.bstate
    && l.bstate + p.bState <= l.tstate && l.tstate + p.tState <= hi
  }

  /** Which region is which. */
  lemma FrontAt(z: Sizes, p: Proto, l: Layout)
    ensures var rs, m, n := FrontRegions(z, p, l), |l.delay|, |l.al|;
            && |rs| == 9 + m + n
            && rs[0] == Region(l.s, z.scratch)
            && rs[1] == Region(l.queues, Product(p.queueCount, z.mq))
            && rs[2] == Region(l.somStore, Product(p.somCount, WORD))
            && rs[3] == Region(l.somAttemptedStore, Product(p.somCount, WORD))
            && rs[4] == Region(l.delaySlots, Product(DELAY_SLOT_COUNT, ADDRESS))
            && (forall i :: 0 <= i < m ==> rs[5 + i] == Region(l.delay[i], p.delayFatbit))
            && rs[5 + m] == Region(l.alLog, Product(p.anchoredLen, ADDRESS))
            && (forall i :: 0 <= i < n ==> rs[6 + m + i] == Region(l.al[i], p.anchoredFatbit))
            && rs[6 + m + n] == Region(l.qm, Product(p.queueCount, z.queueMatch))
            && rs[7 + m + n] == Region(l.bstate, p.bState)
            && rs[8 + m + n] == Region(l.tstate, p.tState)
  {
    hide Product;
  }

  lemma FrontIsInOrder(z: Sizes, p: Proto, l: Layout, lo: nat, hi: nat)
    requires Stacked(FrontRegions(z, p, l), lo, hi)
    ensures FrontInOrder(z, p, l, lo, hi)
  {
    hide Product, FrontRegions;
    var rs, m, n := FrontRegions(z, p, l), |l.delay|, |l.al|;
    FrontAt(z, p, l);
    forall i | 0 <= i < m
      ensures l.delaySlots + Product(DELAY_SLOT_COUNT, ADDRESS) <= l.delay[i] && l.delay[i] + p.delayFatbit <= l.alLog
    {
      assert rs[4].at + rs[4].size <= rs[5 + i].at && rs[5 + i].at + rs[5 + i].size <= rs[5 + m].at;
    }
    forall i, j | 0 <= i < j < m ensures l.delay[i] + p.delayFatbit <= l.delay[j] {
      assert rs[5 + i].at + rs[5 + i].size <= rs[5 + j].at;
    }
    forall i | 0 <= i < n
      ensures l.alLog + Product(p.anchoredLen, ADDRESS) <= l.al[i] && l.al[i] + p.anchoredFatbit <= l.qm
    {
      var k := 6 + m + i;
      assert rs[5 + m].at + rs[5 + m].size <= rs[k].at && rs[k].at + rs[k].size <= rs[6 + m + n].at;
    }
    forall i, j | 0 <= i < j < n ensures l.al[i] + p.anchoredFatbit <= l.al[j] {
      assert rs[6 + m + i].at + rs[6 + m + i].size <= rs[6 + m + j].at;
    }
  }

  lemma FrontServes(z: Sizes, p: Proto, l: Layout, r: Rose, lo: nat, hi: nat)
    requires FrontInOrder(z, p, l, lo, hi) && Covers(p, r) && |l.delay| == DELAY_SLOT_COUNT && |l.al| == p.anchoredLen
    ensures ServesFront(z, l, r, lo, hi)
  {
    assert Product(DELAY_SLOT_COUNT, ADDRESS) == 256;
    hide Product, Footprint;
    ProductGrows(r.queueCount, p.queueCount, z.mq);
    ProductGrows(r.queueCount, p.queueCount, z.queueMatch);
    ProductGrows(r.somCount, p.somCount, 8);
    ProductGrows(r.anchoredDistance, p.anchoredLen, 8);
  }

  lemma BackServes(p: Proto, l: Layout, r: Rose, lo: nat, hi: nat)
    requires Stacked(BackRegions(p, l), lo, hi) && Covers(p, r) && l.tstate + p.tState <= l.somStart0
    ensures ServesBack(l, r, hi)
  {
    hide Product, Footprint;
    var rs := BackRegions(p, l);
    ProductGrows(r.dkeyCount, p.dkeyCount, 8);
    assert rs[10].at + rs[10].size <= hi;
    assert rs[0].at + rs[0].size <= rs[1].at && rs[1].at + rs[1].size <= rs[2].at && rs[2].at + rs[2].size <= rs[3].at;
    assert rs[3].at + rs[3].size <= rs[4].at && rs[4].at + rs[4].size <= rs[5].at && rs[5].at + rs[5].size <= rs[6].at;
    assert rs[6].at + rs[6].size <= rs[7].at && rs[7].at + rs[7].size <= rs[8].at && rs[8].at + rs[8].size <= rs[9].at;
    assert rs[9].at + rs[9].size <= rs[10].at;
  }

  lemma StackedParts(a: seq<Region>, b: seq<Region>, lo: nat, hi: nat)
    requires Stacked(a + b, lo, hi) && a != [] && b != []
    ensures Stacked(a, lo, hi) && Stacked(b, lo, hi)
    ensures a[|a| - 1].at + a[|a| - 1].size <= b[0].at
  {
    var rs := a + b;
    assert forall i :: 0 <= i < |a| ==> a[i] == rs[i];
    assert forall j :: 0 <= j < |b| ==> b[j] == rs[|a| + j];
    forall i, j | 0 <= i < j < |b| ensures b[i].at + b[i].size <= b[j].at {
      assert rs[|a| + i].at + rs[|a| + i].size <= rs[|a| + j].at;
    }
  }

  /** A layout made for sizes that cover a database has room for all it uses. */
  lemma CoveredIsServed(z: Sizes, p: Proto, l: Layout, r: Rose, lo: nat, hi: nat)
    requires Stacked(Regions(z, p, l), lo, hi) && Covers(p, r)
    requires |l.delay| == DELAY_SLOT_COUNT && |l.al| == p.anchoredLen
    ensures Serves(z, l, r, lo, hi)
  {
    hide Product, FrontRegions, Covers, Stacked, FrontInOrder, ServesFront, ServesBack;
    FrontAt(z, p, l);
    StackedParts(FrontRegions(z, p, l), BackRegions(p, l), lo, hi);
    FrontIsInOrder(z, p, l, lo, hi);
    FrontServes(z, p, l, r, lo, hi);
    BackServes(p, l, r, lo, hi);
  }

  /** One size of the prototype, raised to what the database asks for. */
  method RaiseTo(have: nat, want: nat, resize: bool) returns (size: nat, resized: bool)
    ensures size == Max(have, want)
    ensures resized <==> resize || size != have
  {
    if want > have {
      return want, true;
    }
    return have, resize;
  }

  lemma NothingIsEven()
    ensures Even(NOTHING)
  {}

  /** A scratch pointer: where its regions are, and the sizes they were made for. */
  class Handle {
    const sizes: Sizes
    var proto: Proto
    var base: nat
    var layout: Layout
    var present: bool

    /** The databases passed since the space was first had, or last lost. */
    ghost var served: seq<Rose>

    ghost predicate Valid()
      reads this
    {
      && proto == GrowAll(NOTHING, served)
      && if present then
        Even(proto) && Stacked(Regions(sizes, proto, layout), base, base + AllocSize(sizes, proto)) && Aligned(layout)
        && |layout.delay| == DELAY_SLOT_COUNT && |layout.al| == proto.anchoredLen
      else served == []
    }

    constructor (sizes: Sizes)
      ensures Valid() && !present && this.sizes == sizes
    {
      this.sizes, proto, base, present, served := sizes, NOTHING, 0, false, [];
      layout := Layout(0, 0, 0, 0, 0, [], 0, [], 0, 0, 0, 0, 0, 0, 0, 0, 0, 0, 0, 0, 0, 0);
    }

    /** The sizes raised one by one; the flag says whether any was. */
    method Raise(r: Rose) returns (p: Proto, resize: bool)
      ensures p == Grow(proto, r)
      ensures resize <==> !present || p != proto
    {
      p, resize := proto, !present;
      var anchoredLen, anchoredFatbit, delayFatbit, handledFatbit, tState, somCount, somFatbit,
          queueCount, activeQueueArray, bState, fullState, dkeyCount;
      anchoredLen, resize := RaiseTo(p.anchoredLen, r.anchoredDistance, resize);
      anchoredFatbit, resize := RaiseTo(p.anchoredFatbit, FatbitSize(r.anchoredCount), resize);
      delayFatbit, resize := RaiseTo(p.delayFatbit, FatbitSize(r.delayCount), resize);
      handledFatbit, resize := RaiseTo(p.handledFatbit, FatbitSize(r.handledCount), resize);
      tState, resize := RaiseTo(p.tState, r.tState, resize);
      somCount, resize := RaiseTo(p.somCount, r.somCount, resize);
      somFatbit, resize := RaiseTo(p.somFatbit, FatbitSize(r.somCount), resize);
      queueCount, resize := RaiseTo(p.queueCount, r.queueCount, resize);
      activeQueueArray, resize := RaiseTo(p.activeQueueArray, FatbitSize(r.queueCount), resize);
      bState, resize := RaiseTo(p.bState, BState(r), resize);
      fullState, resize := RaiseTo(p.fullState, r.scratchState, resize);
      dkeyCount, resize := RaiseTo(p.dkeyCount, r.dkeyCount, resize);
      p := Proto(anchoredLen, anchoredFatbit, delayFatbit, handledFatbit, bState, tState, fullState,
                 somCount, somFatbit, queueCount, activeQueueArray,
                 dkeyCount, if r.dkeyCount > p.dkeyCount then FatbitSize(r.dkeyCount) else p.dkeyLog);
    }

    /** Every database passed so far has room for all it uses. */
    lemma ServesEach()
      requires Valid() && present
      ensures forall i :: 0 <= i < |served| ==>
                Serves(sizes, layout, served[i], base, base + AllocSize(sizes, proto))
    {
      hide Stacked, Regions, Aligned, AllocSize, Grow, Even, Serves;
      forall i | 0 <= i < |served| ensures Serves(sizes, layout, served[i], base, base + AllocSize(sizes, proto)) {
        SizesCoverAll(served, i);
        CoveredIsServed(sizes, proto, layout, served[i], base, base + AllocSize(sizes, proto));
      }
    }

    /** hs_alloc_scratch, with `memory` what the allocator gives, if anything. */
    method Alloc(r: Rose, memory: Option<nat>) returns (ok: bool)
      requires Valid() && Padded(sizes)
      modifies this
      ensures Valid()
      ensures ok ==> present && proto == Grow(old(proto), r)
      ensures !ok <==> memory.None? && (!old(present) || Grow(old(proto), r) != old(proto))
      ensures !ok ==> !present
      ensures served == if ok then old(served) + [r] else []
      ensures ok ==> forall i :: 0 <= i < |served| ==>
                Serves(sizes, layout, served[i], base, base + AllocSize(sizes, proto))
    {
      hide Stacked, Regions, Aligned, AllocSize, Grow, Even, Serves;
      var p, resize := Raise(r);
      NothingIsEven();
      GrowKeepsEven(proto, r);
      served := served + [r];
      assert served[..|served| - 1] == old(served);
      if !resize {
        ServesEach();
        return true;
      }
      if memory.None? {
        present, proto, served := false, NOTHING, [];
        return false;
      }
      base := memory.value;
      layout := AllocScratch(sizes, p, base);
      proto, present := p, true;
      ServesEach();
      return true;
    }
  }
}
