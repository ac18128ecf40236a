/** Chimera's hybrid scan (chimera/ch_runtime.c) as a state machine.

    A scan owns a priority queue of matches waiting to be reported, the set of
    patterns already switched on, and per pattern the offset where its next PCRE
    scan starts and the captures of its queued match. Hyperscan drives
    `MultiCallback`; `Catchup` reports queued matches and refills the queue from
    PCRE. Each function below is one C function; the loops and the heap are in
    module ChimeraScan, which is proved equal to these functions. */
module Chimera {
  import opened Memory
  import opened Options
  import opened MatchQueue
  import opened Utf8

  /** One entry of the captures array passed to the user. */
  datatype Capture = Inactive | Active(from: nat, to: nat)

  datatype Match = Match(from: nat, to: nat, groups: seq<Capture>)

  datatype Failure = MatchLimit | RecursionLimit | Fatal

  datatype PcreResult = Found(m: Match) | NoMatch | Failed(failure: Failure)

  /** CH_CALLBACK_CONTINUE, CH_CALLBACK_TERMINATE, CH_CALLBACK_SKIP_PATTERN. */
  datatype Reply = Continue | Terminate | SkipPattern

  /** CH_SUCCESS, CH_SCAN_TERMINATED, CH_FAIL_INTERNAL. */
  datatype Ret = Success | ScanTerminated | FailInternal

  /** `width` is the fixed width of a pattern whose Hyperscan matches need no
      confirmation, and None (fixedWidth == ~0U) for all others. */
  datatype Pattern = Pattern(id: nat, single: bool, utf8: bool, width: Option<nat>, minWidth: nat)

  /** One call of the match callback: the queue item and the captures. */
  datatype Report = Report(item: Item, groups: seq<Capture>)

  /** One match event raised by Hyperscan. */
  datatype Hit = Hit(id: nat, from: nat, to: nat)

  const NO_PATTERN: nat := 0xffff_ffff

  /** Everything a scan is given: the buffer, the compiled database, and the
      behaviour of the engines and of the user.

      - `matchAt(p, f)` is the match PCRE finds for pattern p starting exactly
        at f, and `failure(p, s)` the error it raises when scanning from s.
      - `hits` are the events of the Hyperscan multi-matcher, in order.
      - `onEvent(log)` is the reply to the last report of `log`; `onError` is the
        reply to an error event raised after `log` by pattern p scanned from s. */
  datatype World = World(
    data: seq<Byte>,
    patterns: seq<Pattern>,
    unguarded: seq<nat>,
    noMultimatch: bool,
    groups: bool,
    allConfirm: bool,
    allSingle: bool,
    hits: seq<Hit>,
    matchAt: (nat, nat) -> Option<Match>,
    failure: (nat, nat) -> Option<Failure>,
    onEvent: seq<Report> -> Reply,
    onError: (seq<Report>, nat, nat) -> Reply)
  {
    /** PCRE reports matches inside the buffer, at the offset it was asked about. */
    ghost predicate PcreOk() {
      && |patterns| <= NO_PATTERN
      && forall p: nat, f: nat {:trigger matchAt(p, f)} :: matchAt(p, f).Some? ==>
           var m := matchAt(p, f).value; m.from == f <= m.to <= |data|
    }
  }

  datatype PatternData = PatternData(scanStart: nat, groups: seq<Capture>)

  /** `log` records the calls made to the user's match callback. */
  datatype State = State(
    queue: seq<Item>, active: set<nat>, pd: seq<PatternData>, log: seq<Report>, ret: Ret)
  {
    function SetScanStart(p: nat, start: nat): (r: State)
      requires p < |pd|
    {
      this.(pd := pd[p := pd[p].(scanStart := start)])
    }
  }

  ghost predicate Wf(w: World, s: State) {
    && w.PcreOk()
    && |s.pd| == |w.patterns|
    && forall x :: x in s.queue ==> x.id < |w.patterns|
  }

  // --------------------------------------------------------------- scanPcre

  /** PCRE's unanchored search: the leftmost match starting at or after `start`. */
  function FirstMatch(w: World, p: nat, start: nat): (r: Option<Match>)
    requires w.PcreOk()
    ensures r.Some? ==>
              && start <= r.value.from <= r.value.to <= |w.data|
              && w.matchAt(p, r.value.from) == r
              && forall f :: start <= f < r.value.from ==> w.matchAt(p, f).None?
    ensures r.None? ==> forall f :: start <= f ==> w.matchAt(p, f).None?
    decreases |w.data| - start
  {
    if start > |w.data| then
      assert forall f: nat {:trigger w.matchAt(p, f)} :: start <= f ==> w.matchAt(p, f).None?;
      None
    else if w.matchAt(p, start).Some? then w.matchAt(p, start)
    else FirstMatch(w, p, start + 1)
  }

  function Exec(w: World, p: nat, start: nat): PcreResult
    requires w.PcreOk()
  {
    if w.failure(p, start).Some? then Failed(w.failure(p, start).value)
    else match FirstMatch(w, p, start)
         case Some(m) => Found(m)
         case None => NoMatch
  }

  /** Where the next scan starts after a match: its end, or one code point past a
      vacuous match. */
  function Step(w: World, p: nat, from: nat, to: nat): (r: nat)
    requires p < |w.patterns| && from <= to
    ensures from < r && to <= r
  {
    if from != to then to
    else if w.patterns[p].utf8 then SkipContinuation(w.data, to + 1)
    else to + 1
  }

  /** The captures delivered with a match, none unless the database asks for them. */
  function Delivered(w: World, groups: seq<Capture>): seq<Capture> {
    if w.groups then groups else []
  }

  /** Queue a match of p found by PCRE. */
  function Push(w: World, s: State, p: nat, m: Match): (r: State)
    requires p < |w.patterns| == |s.pd| && m.from <= m.to
  {
    s.(queue := Insert(s.queue, Item(m.from, m.to, p)),
       pd := s.pd[p := PatternData(Step(w, p, m.from, m.to), Delivered(w, m.groups))])
  }

  /** scanPcre's result: CH_SUCCESS, CH_FAIL_INTERNAL, or an error callback that
      replied CH_CALLBACK_TERMINATE or CH_CALLBACK_SKIP_PATTERN. */
  datatype ScanResult = Ok | Fail | Stopped | Skipped

  function ScanPcre(w: World, s: State, start: nat, p: nat): (r: (State, ScanResult))
    requires w.PcreOk() && p < |w.patterns| == |s.pd|
  {
    match Exec(w, p, start)
    case Found(m) => (Push(w, s, p, m), Ok)
    case NoMatch => (s, Ok)
    case Failed(Fatal) => (s, Fail)
    case Failed(_) =>
      (s, match w.onError(s.log, p, start)
          case Continue => Ok
          case Terminate => Stopped
          case SkipPattern => Skipped)
  }

  // ------------------------------------------------------------ catchupPcre

  /** What one turn of catchupPcre's loop leaves behind. */
  datatype Turn = Again(s: State) | Done(s: State, ret: Ret)

  function Popped(w: World, s: State): (r: State)
    requires Wf(w, s) && s.queue != []
  {
    s.(queue := s.queue[1..], log := s.log + [Report(s.queue[0], s.pd[s.queue[0].id].groups)])
  }

  /** Refill the queue after a match of p was reported: lines 339 to 362. */
  function Rescan(w: World, s: State, p: nat): (t: Turn)
    requires Wf(w, s) && p < |w.patterns|
  {
    var start := s.pd[p].scanStart;
    if start > |w.data| || w.patterns[p].single then Again(s)
    else
      var (s1, r) := ScanPcre(w, s, start, p);
      if r == Stopped then Done(s1, ScanTerminated)
      else if r == Fail then Done(s1, FailInternal)
      else if |s1.queue| == |s.queue| then Again(s1.SetScanStart(p, |w.data|))
      else Again(s1)
  }

  function CatchupTurn(w: World, s: State, id: nat, from: nat, to: nat): (t: Turn)
    requires Wf(w, s) && s.queue != []
  {
    var top := s.queue[0];
    if top.to > to then Done(s.(queue := Insert(s.queue, Item(from, to, id))), Success)
    else
      var s1 := Popped(w, s);
      match w.onEvent(s1.log)
      case Terminate => Done(s1, ScanTerminated)
      case SkipPattern =>
        var s2 := s1.SetScanStart(top.id, |w.data|);
        if top.id == id then Done(s2, Success) else Again(s2)
      case Continue =>
        if top.id == id then Done(s1, Success) else Rescan(w, s1, top.id)
  }

  /** How many start offsets the patterns have left between them. */
  function StartsLeft(w: World, pd: seq<PatternData>): nat {
    if pd == [] then 0
    else (if pd[0].scanStart <= |w.data| then |w.data| + 1 - pd[0].scanStart else 0) + StartsLeft(w, pd[1..])
  }

  lemma {:induction false} LaterStartLeavesLess(w: World, pd: seq<PatternData>, p: nat, d: PatternData)
    requires p < |pd| && pd[p].scanStart <= |w.data| && pd[p].scanStart < d.scanStart
    ensures StartsLeft(w, pd[p := d]) < StartsLeft(w, pd)
  {
    if p == 0 {
      assert pd[p := d][1..] == pd[1..];
    } else {
      LaterStartLeavesLess(w, pd[1..], p - 1, d);
      assert pd[p := d][1..] == pd[1..][p - 1 := d];
    }
  }

  /** Every turn of catchupPcre that goes round again makes progress, whatever
      state it starts from: a match leaves the queue for good, or it is replaced
      by one of the same pattern, whose next scan then starts strictly later. */
  lemma CatchupProgress(w: World, s: State, id: nat, from: nat, to: nat)
    requires Wf(w, s) && s.queue != []
    ensures var t := CatchupTurn(w, s, id, from, to);
            t.Again? ==>
              && Wf(w, t.s)
              && (|| |t.s.queue| < |s.queue|
                  || (|t.s.queue| == |s.queue| && StartsLeft(w, t.s.pd) < StartsLeft(w, s.pd)))
  {
    var t := CatchupTurn(w, s, id, from, to);
    var p := s.queue[0].id;
    if t.Again? && |t.s.queue| == |s.queue| {
      LaterStartLeavesLess(w, s.pd, p, t.s.pd[p]);
    }
  }

  function Catchup(w: World, s: State, id: nat, from: nat, to: nat): (r: (State, Ret))
    requires Wf(w, s)
    ensures |r.0.pd| == |s.pd| && (id < |w.patterns| ==> Wf(w, r.0))
    decreases |s.queue|, StartsLeft(w, s.pd)
  {
    if s.queue == [] then (s, Success)
    else
      CatchupProgress(w, s, id, from, to);
      match CatchupTurn(w, s, id, from, to)
      case Done(s', ret) => (s', ret)
      case Again(s') => Catchup(w, s', id, from, to)
  }

  // ---------------------------------------------------------- multiCallback

  predicate AllActive(w: World, s: State) {
    forall p :: 0 <= p < |w.patterns| ==> p in s.active
  }

  /** First confirmation of a prefiltered pattern: lines 415 to 429. */
  function Confirm(w: World, s: State, p: nat): (r: (State, bool))
    requires w.PcreOk() && p < |w.patterns| == |s.pd|
  {
    var (s1, res) := ScanPcre(w, s, s.pd[p].scanStart, p);
    match res
    case Ok => (s1.(ret := Success), false)
    case Fail => (s1.(ret := FailInternal), true)
    case Stopped => (s1.(ret := ScanTerminated), true)
    case Skipped => (s1.SetScanStart(p, |w.data|).(ret := Success), false)
  }

  /** Queue a Hyperscan match of a fixed-width pattern: lines 440 to 465. */
  function PushHit(w: World, s: State, h: Hit): (r: State)
    requires h.id < |w.patterns| == |s.pd| && h.from <= h.to
  {
    Push(w, s, h.id, Match(h.from, h.to, [Active(h.from, h.to)]))
  }

  /** The new state, and whether Hyperscan is told to stop. */
  function MultiCallback(w: World, s: State, h: Hit): (r: (State, bool))
    requires Wf(w, s) && h.id < |w.patterns| && h.from <= h.to
    ensures Wf(w, r.0)
  {
    var pattern := w.patterns[h.id];
    var already := h.id in s.active;
    if pattern.width.None? && already then (s, w.allConfirm && AllActive(w, s))
    else
      var s1 := s.(active := s.active + {h.id});
      if !already then
        var s2 := s1.SetScanStart(h.id, 0);
        if pattern.width.None? then Confirm(w, s2, h.id) else (PushHit(w, s2, h), false)
      else if h.to < s1.pd[h.id].scanStart + pattern.minWidth then (s1, false)
      else if pattern.single then (s1, w.allSingle && AllActive(w, s1))
      else
        var (s2, ret) := Catchup(w, s1, h.id, h.from, h.to);
        var s3 := s2.(ret := ret);
        if s3.pd[h.id].scanStart >= |w.data| then (s3, ret != Success)
        else (PushHit(w, s3, h), ret != Success)
  }

  // -------------------------------------------------------------- ch_scan_i

  ghost predicate UnguardedInRange(w: World) {
    forall j :: 0 <= j < |w.unguarded| ==> w.unguarded[j] < |w.patterns|
  }

  /** The loop of initQueue from the i-th unguarded pattern on. */
  function InitQueue(w: World, s: State, i: nat): (r: (State, Ret))
    requires Wf(w, s) && i <= |w.unguarded| && UnguardedInRange(w)
    ensures Wf(w, r.0)
    decreases |w.unguarded| - i
  {
    if i == |w.unguarded| then (s, Success)
    else
      var p := w.unguarded[i];
      var (s1, res) := ScanPcre(w, s.(active := s.active + {p}), 0, p);
      match res
      case Ok => InitQueue(w, s1, i + 1)
      case Fail => (s1, FailInternal)
      case Stopped => (s1, ScanTerminated)
      case Skipped => InitQueue(w, s1.SetScanStart(p, |w.data|), i + 1)
  }

  /** What the database and the two engines promise each other (chimera/ch_compile.cpp):

      - unguarded patterns are listed once and never raise hits; with
        NO_MULTIMATCH every pattern is unguarded;
      - hits arrive in order of their end offset;
      - for a pattern that needs confirming, some hit ends no later than any
        true match does: the prefilter reports a superset of the matches, or
        just its first one for a SINGLEMATCH pattern;
      - for a fixed-width pattern the hits are exactly the matches;
      - ALL_CONFIRM and ALL_SINGLE are set only when they are true. */
  ghost predicate ScanOk(w: World) {
    && w.PcreOk()
    && UnguardedInRange(w)
    && (forall i, j :: 0 <= i < j < |w.unguarded| ==> w.unguarded[i] != w.unguarded[j])
    && (w.noMultimatch ==> forall p :: 0 <= p < |w.patterns| ==> p in w.unguarded)
    && (w.allConfirm ==> forall p :: 0 <= p < |w.patterns| ==> w.patterns[p].width.None?)
    && (w.allSingle ==> forall p :: 0 <= p < |w.patterns| ==> w.patterns[p].single)
    && HitsOk(w)
  }

  ghost predicate HitsOk(w: World)
    requires w.PcreOk()
  {
    && (forall k :: 0 <= k < |w.hits| ==> HitInRange(w, w.hits[k]))
    && HitsOrdered(w)
    && (forall p :: 0 <= p < |w.patterns| && p !in w.unguarded ==>
          if w.patterns[p].width.Some? then ExactHits(w, p) else PrefilterHits(w, p))
  }

  ghost predicate HitsOrdered(w: World) {
    forall i, j :: 0 <= i < j < |w.hits| ==> w.hits[i].to <= w.hits[j].to
  }

  ghost predicate HitInRange(w: World, h: Hit) {
    h.id < |w.patterns| && h.id !in w.unguarded && h.from <= h.to <= |w.data|
  }

  ghost predicate PrefilterHits(w: World, p: nat) {
    forall f: nat :: w.matchAt(p, f).Some? ==>
      exists k :: 0 <= k < |w.hits| && w.hits[k].id == p && w.hits[k].to <= w.matchAt(p, f).value.to
  }

  ghost predicate ExactHits(w: World, p: nat)
    requires p < |w.patterns| && w.patterns[p].width.Some?
  {
    var width := w.patterns[p].width.value;
    && 0 < width == w.patterns[p].minWidth
    && (forall f: nat :: w.matchAt(p, f).Some? ==>
          && w.matchAt(p, f).value == Match(f, f + width, [Active(f, f + width)])
          && exists k :: 0 <= k < |w.hits| && w.hits[k] == Hit(p, f, f + width))
    && (forall k :: 0 <= k < |w.hits| && w.hits[k].id == p ==>
          w.matchAt(p, w.hits[k].from).Some? && w.hits[k].to == w.hits[k].from + width)
  }

  /** hs_scan: deliver the hits from the k-th on until the callback says stop. */
  function RunHits(w: World, s: State, k: nat): (r: State)
    requires ScanOk(w) && Wf(w, s) && k <= |w.hits|
    ensures Wf(w, r)
    decreases |w.hits| - k
  {
    if k == |w.hits| then s
    else
      assert HitInRange(w, w.hits[k]);
      var (s1, stop) := MultiCallback(w, s, w.hits[k]);
      if stop then s1 else RunHits(w, s1, k + 1)
  }

  /** The scan once its arguments have been checked. `pd` is the pattern data that
      the previous use of the scratch left behind. */
  function Scan(w: World, pd: seq<PatternData>): (r: (State, Ret))
    requires ScanOk(w) && |pd| == |w.patterns|
  {
    var (s1, ret) := InitQueue(w, State([], {}, pd, [], Success), 0);
    if ret != Success then (s1, ret)
    else
      var s2 := if w.noMultimatch then s1 else RunHits(w, s1, 0);
      if s2.ret != Success then (s2, s2.ret)
      else Catchup(w, s2, NO_PATTERN, |w.data|, |w.data|)
  }
}
