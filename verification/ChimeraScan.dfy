/** The scan as chimera/ch_runtime.c runs it: a heap in a fixed array, pattern data
    updated in place, and loops. Every method is proved equal to the function of
    the same name in module Chimera, so what ChimeraSafety, ChimeraDelivery and
    ChimeraEarlyStop prove of those functions holds of this code. */
module ChimeraScan {
  import opened Options
  import opened MatchQueue
  import opened Utf8
  import opened Chimera
  import opened ChimeraSafety
  import opened ChimeraDelivery

  class Scratch {
    const w: World
    const items: array<Item>
    var size: nat
    var active: set<nat>
    const pd: array<PatternData>
    var log: seq<Report>
    var ret: Ret
    ghost var queue: seq<Item>

    /** The scratch left by any earlier use: room for one item per pattern. */
    constructor (w: World, data: seq<PatternData>)
      requires |data| == |w.patterns|
      ensures this.w == w && Valid() && fresh(items) && fresh(pd)
      ensures S().pd == data
    {
      this.w := w;
      size, queue, active, log, ret := 0, [], {}, [], Success;
      items := new Item[|w.patterns|](_ => Item(0, 0, 0));
      pd := new PatternData[|data|](i requires 0 <= i < |data| => data[i]);
      new;
      assert pd[..] == data;
    }

    ghost predicate Valid()
      reads this, items, pd
    {
      && items.Length == pd.Length == |w.patterns|
      && size == |queue| <= items.Length
      && Heap(items[..size]) && Sorted(queue) && multiset(items[..size]) == multiset(queue)
    }

    /** The state the scratch holds, with the heap read as a sorted queue. */
    ghost function S(): State
      reads this, pd
    {
      State(queue, active, pd[..], log, ret)
    }

    // ---------------------------------------------------------------- the queue

    method PqInsertWith(from: nat, to: nat, id: nat)
      requires Valid() && size < items.Length
      modifies this`size, this`queue, items
      ensures Valid() && S() == old(S()).(queue := Insert(old(queue), Item(from, to, id)))
    {
      var x := Item(from, to, id);
      InsertSorted(queue, x);
      PqInsert(items, size, x);
      size := size + 1;
      queue := Insert(queue, x);
    }

    method PqPopNice()
      requires Valid() && size > 0
      modifies this`size, this`queue, items
      ensures Valid() && S() == old(S()).(queue := old(queue)[1..])
    {
      ghost var before := items[..size];
      HeapFront(before, queue);
      PqPop(items, size);
      size := size - 1;
      PoppedItems(before, items[..size], queue);
      queue := queue[1..];
    }

    method PqTop() returns (top: Item)
      requires Valid() && size > 0
      ensures top == queue[0]
    {
      HeapFront(items[..size], queue);
      top := items[0];
    }

    // -------------------------------------------------------------- pattern data

    method SetScanStart(p: nat, start: nat)
      requires Valid() && p < |w.patterns|
      modifies pd
      ensures Valid() && S() == old(S()).SetScanStart(p, start)
    {
      pd[p] := pd[p].(scanStart := start);
    }

    /** The first code point after a match: lines 274 to 289, and 440 to 455. */
    method NextStart(from: nat, to: nat, p: nat) returns (start: nat)
      requires p < |w.patterns| && from <= to
      ensures start == Step(w, p, from, to)
    {
      if from != to {
        start := to;
      } else if w.patterns[p].utf8 {
        start := to + 1;
        while start < |w.data| && IsContinuation(w.data[start])
          invariant SkipContinuation(w.data, start) == SkipContinuation(w.data, to + 1)
        {
          start := start + 1;
        }
      } else {
        start := to + 1;
      }
    }

    /** Record a match and its captures, and queue it. */
    method PushMatch(p: nat, from: nat, to: nat, groups: seq<Capture>)
      requires Valid() && p < |w.patterns| && from <= to && size < items.Length
      modifies this`size, this`queue, items, pd
      ensures Valid() && S() == Push(w, old(S()), p, Match(from, to, groups))
    {
      var start := NextStart(from, to, p);
      pd[p] := PatternData(start, Delivered(w, groups));
      PqInsertWith(from, to, p);
    }

    method ScanPcre(start: nat, p: nat) returns (r: ScanResult)
      requires Valid() && w.PcreOk() && p < |w.patterns| && size < items.Length
      modifies this`size, this`queue, items, pd
      ensures Valid() && (S(), r) == Chimera.ScanPcre(w, old(S()), start, p)
    {
      match Exec(w, p, start) {
        case Found(m) =>
          PushMatch(p, m.from, m.to, m.groups);
          r := Ok;
        case NoMatch =>
          r := Ok;
        case Failed(Fatal) =>
          r := Fail;
        case Failed(_) =>
          match w.onError(log, p, start) {
            case Continue => r := Ok;
            case Terminate => r := Stopped;
            case SkipPattern => r := Skipped;
          }
      }
    }

    // ------------------------------------------------------------ catching up

    /** Line 309 would insert without removing: it needs a free slot, or a state of
        which FrontIsDue shows that the line is not reached. */
    ghost predicate HasRoom(k: nat, id: nat, to: nat)
      reads this, items, pd
    {
      || size < items.Length
      || (HitsOrdered(w) && Inv(w, S(), k, NO_PATTERN) && Catching(w, S(), k, id, to) && Waiting(w, id))
    }

    /** Refill the queue after a report of p. */
    method Rescan(p: nat) returns (go: bool, r: Ret)
      requires Valid() && Wf(w, S()) && p < |w.patterns| && size < items.Length
      modifies this`size, this`queue, items, pd
      ensures Valid() && size <= old(size) + 1
      ensures Chimera.Rescan(w, old(S()), p) == if go then Again(S()) else Done(S(), r)
    {
      go, r := true, Success;
      var start := pd[p].scanStart;
      if start <= |w.data| && !w.patterns[p].single {
        var before := size;
        var res := ScanPcre(start, p);
        if res == Stopped {
          go, r := false, ScanTerminated;
        } else if res == Fail {
          go, r := false, FailInternal;
        } else if size == before {
          SetScanStart(p, |w.data|);
        }
      }
    }

    method CatchupPcre(id: nat, from: nat, to: nat, ghost k: nat) returns (r: Ret)
      requires Valid() && Wf(w, S()) && HasRoom(k, id, to)
      modifies this`size, this`queue, this`log, items, pd
      ensures Valid() && (S(), r) == Catchup(w, old(S()), id, from, to)
    {
      hide Inv, Heap, Sorted, HitsOrdered, Catching, Chimera.Rescan, Insert;
      ghost var s0 := S();
      while size > 0
        invariant Valid() && Wf(w, S()) && HasRoom(k, id, to)
        invariant ret == s0.ret && active == s0.active
        invariant Catchup(w, S(), id, from, to) == Catchup(w, s0, id, from, to)
        decreases |queue|, StartsLeft(w, pd[..])
      {
        ghost var s := S();
        CatchupProgress(w, s, id, from, to);
        var top := PqTop();
        if top.to > to {
          if size == items.Length {
            FrontIsDue(w, s, k, id, to);
          }
          PqInsertWith(from, to, id);
          return Success;
        }
        if size == items.Length {
          CatchupTurnInv(w, s, k, id, from, to);
        }
        PqPopNice();
        log := log + [Report(top, pd[top.id].groups)];
        assert S() == Popped(w, s);
        match w.onEvent(log) {
          case Terminate =>
            return ScanTerminated;
          case SkipPattern =>
            SetScanStart(top.id, |w.data|);
            if top.id == id {
              return Success;
            }
          case Continue =>
            if top.id == id {
              return Success;
            }
            var go, res := Rescan(top.id);
            if !go {
              return res;
            }
        }
      }
      r := Success;
    }

    // --------------------------------------------------------- Hyperscan's callback

    method AllOn() returns (all: bool)
      ensures all == AllActive(w, S())
    {
      all := forall p :: 0 <= p < |w.patterns| ==> p in active;
    }

    /** First confirmation of a prefiltered pattern: lines 415 to 429. */
    method Confirm(p: nat) returns (stop: bool)
      requires Valid() && w.PcreOk() && p < |w.patterns| && size < items.Length
      modifies this`size, this`queue, this`ret, items, pd
      ensures Valid() && (S(), stop) == Chimera.Confirm(w, old(S()), p)
    {
      var res := ScanPcre(pd[p].scanStart, p);
      match res {
        case Ok => ret, stop := Success, false;
        case Fail => ret, stop := FailInternal, true;
        case Stopped => ret, stop := ScanTerminated, true;
        case Skipped =>
          SetScanStart(p, |w.data|);
          ret, stop := Success, false;
      }
    }

    /** A due hit: catch up, then queue it: lines 431 to 465. */
    method CatchupAndPush(k: nat) returns (stop: bool)
      requires Valid() && ScanOk(w) && Inv(w, S(), k, NO_PATTERN) && ret == Success && DueHit(w, S(), k)
      modifies this`size, this`queue, this`log, this`ret, items, pd
      ensures Valid() && (S(), stop) == Chimera.MultiCallback(w, old(S()), w.hits[k])
    {
      var h := w.hits[k];
      DueFacts(w, S(), k);
      hide Inv, Heap, Sorted, Catchup, ScanOk, HitsOrdered, Catching, Chimera.MultiCallback;
      ret := CatchupPcre(h.id, h.from, h.to, k);
      if pd[h.id].scanStart < |w.data| {
        PushMatch(h.id, h.from, h.to, [Active(h.from, h.to)]);
      }
      return ret != Success;
    }

    /** The callback for the k-th hit. Returns whether Hyperscan is to stop. */
    method MultiCallback(k: nat) returns (stop: bool)
      requires Valid() && ScanOk(w) && Inv(w, S(), k, NO_PATTERN) && ret == Success && k < |w.hits|
      modifies this`size, this`queue, this`log, this`active, this`ret, items, pd
      ensures Valid() && HitInRange(w, w.hits[k])
      ensures (S(), stop) == Chimera.MultiCallback(w, old(S()), w.hits[k])
    {
      var h := w.hits[k];
      ghost var s := S();
      assert HitInRange(w, h);
      RoomLeft(w, s, k);
      InvLog(w, s, k, NO_PATTERN);
      hide Inv, Heap, Sorted, LogOk, Catchup, ScanOk;
      var confirm := w.patterns[h.id].width.None?;
      var already := h.id in active;
      if confirm && already {
        var all := AllOn();
        return w.allConfirm && all;
      }
      active := active + {h.id};
      if !already {
        SetScanStart(h.id, 0);
        if confirm {
          stop := Confirm(h.id);
        } else {
          PushMatch(h.id, h.from, h.to, [Active(h.from, h.to)]);
          stop := false;
        }
      } else {
        assert active == s.active;
        if h.to < pd[h.id].scanStart + w.patterns[h.id].minWidth {
          stop := false;
        } else if w.patterns[h.id].single {
          var all := AllOn();
          stop := w.allSingle && all;
        } else {
          stop := CatchupAndPush(k);
        }
      }
    }

    // ------------------------------------------------------------------ ch_scan_i

    /** initQueue: switch on every pattern Hyperscan cannot guard. */
    method InitQueue() returns (r: Ret)
      requires Valid() && ScanOk(w)
      modifies this`size, this`queue, this`log, this`active, this`ret, items, pd
      ensures Valid()
      ensures (S(), r) == Chimera.InitQueue(w, State([], {}, old(pd[..]), [], Success), 0)
    {
      size, queue, active, log, ret := 0, [], {}, [], Success;
      ghost var s0 := S();
      InitStart(w, s0.pd);
      assert UnguardedInRange(w);
      hide Inv, Heap, Sorted, ScanOk;
      for i := 0 to |w.unguarded|
        invariant Valid() && Wf(w, S()) && InitInv(w, S(), i)
        invariant Chimera.InitQueue(w, S(), i) == Chimera.InitQueue(w, s0, 0)
      {
        var p := w.unguarded[i];
        ghost var s := S();
        InitStepInv(w, s, i);
        active := active + {p};
        var res := ScanPcre(0, p);
        if res == Stopped {
          return ScanTerminated;
        } else if res == Skipped {
          SetScanStart(p, |w.data|);
        } else if res == Fail {
          return FailInternal;
        }
      }
      r := Success;
    }

    /** scanHyperscan: hs_scan raises the hits in turn until the callback says stop. */
    method ScanHyperscan()
      requires Valid() && ScanOk(w) && Inv(w, S(), 0, NO_PATTERN) && ret == Success
      modifies this`size, this`queue, this`log, this`active, this`ret, items, pd
      ensures Valid() && Wf(w, old(S())) && S() == RunHits(w, old(S()), 0)
    {
      ghost var s0 := S();
      InvLog(w, s0, 0, NO_PATTERN);
      var k, stop := 0, false;
      while k < |w.hits| && !stop
        invariant Valid() && Wf(w, S()) && k <= |w.hits|
        invariant !stop ==> Inv(w, S(), k, NO_PATTERN) && ret == Success
        invariant RunHits(w, s0, 0) == if stop then S() else RunHits(w, S(), k)
      {
        MultiCallbackInv(w, S(), k);
        hide Inv, LogOk, Chimera.MultiCallback, Heap, Sorted;
        stop := MultiCallback(k);
        k := k + 1;
      }
    }

    /** ch_scan_i after its argument checks. The reports are in order and genuine,
        and if the PCRE errors are tolerated they are those of the reference delivery. */
    method Scan() returns (r: Ret)
      requires Valid() && ScanOk(w)
      modifies this`size, this`queue, this`log, this`active, this`ret, items, pd
      ensures Valid() && (S(), r) == Chimera.Scan(w, old(pd[..]))
      ensures LogOk(w, log)
      ensures Tolerated(w) ==> (log, r) == Deliver(w, AllExpected(w), [])
    {
      ghost var data := pd[..];
      ScanIsSafe(w, data);
      if Tolerated(w) {
        ScanDelivers(w, data);
      }
      ghost var s0 := State([], {}, data, [], Success);
      InitStart(w, data);
      InitQueueInv(w, s0, 0);
      r := InitQueue();
      if r != Success {
        return;
      }
      ghost var s1 := S();
      if !w.noMultimatch {
        RunHitsInv(w, s1, 0);
        ScanHyperscan();
        if ret != Success {
          return ret;
        }
      } else {
        AllOnAtStart(w, s1);
      }
      HitsInOrder(w);
      InvLog(w, S(), |w.hits|, NO_PATTERN);
      r := CatchupPcre(NO_PATTERN, |w.data|, |w.data|, |w.hits|);
    }
  }

  /** What the code for a due hit relies on, and what it has to compute. */
  lemma DueFacts(w: World, s: State, k: nat)
    requires ScanOk(w) && Inv(w, s, k, NO_PATTERN) && s.ret == Success && DueHit(w, s, k)
    ensures var h := w.hits[k];
            var (s2, r) := Catchup(w, s, h.id, h.from, h.to);
            && Wf(w, s) && HitsOrdered(w) && Catching(w, s, k, h.id, h.to) && Waiting(w, h.id)
            && |s2.queue| < |s.queue|
            && Chimera.MultiCallback(w, s, h) ==
               (if s2.pd[h.id].scanStart >= |w.data| then s2.(ret := r) else PushHit(w, s2.(ret := r), h), r != Success)
  {
    var h := w.hits[k];
    assert s.active + {h.id} == s.active;
    HitsInOrder(w);
    DueIsQueued(w, s, k);
    CatchupInv(w, s, k, h.id, h.from, h.to);
  }
}
