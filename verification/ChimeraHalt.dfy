/** When a Chimera scan has two queued items of one pattern. */
module ChimeraHalt {
  import opened Options
  import opened MatchQueue
  import opened Chimera
  import opened ChimeraSafety
  import opened ChimeraDelivery

  /** The pending matches that come before x. */
  ghost function Before(w: World, s: State, x: Item): (r: set<Item>)
    requires w.PcreOk() && |s.pd| == |w.patterns|
    ensures forall y :: y in r ==> Genuine(w, y)
  {
    set y | y in Pending(w, s, NO_PATTERN) && Less(y, x)
  }

  /** Delivering the matches before x, the user does not end the scan. */
  ghost predicate Reached(w: World, s: State, x: Item)
    requires w.PcreOk() && |s.pd| == |w.patterns|
  {
    Deliver(w, Before(w, s, x), s.log).1 == Success
  }

  ghost predicate CatchingFor(w: World, s: State, k: nat, x: Item, to: nat) {
    Delivering(w, s, k, x.id, to) && x.id < |w.patterns| && x in s.queue
  }

  lemma NothingBeforeFront(w: World, s: State, k: nat, x: Item, to: nat)
    requires CatchingFor(w, s, k, x, to) && s.queue[0] == x
    ensures Reached(w, s, x)
  {
    hide Inv, Caught, Catching, Pending;
    FrontFacts(w, s, k, x.id, to);
    FrontIsLeast(w, s, k, x.id, to);
    assert Before(w, s, x) == {};
  }

  /** The front of the queue comes before any other queued item, and is of
      another pattern. */
  lemma FrontComesFirst(w: World, s: State, k: nat, x: Item, to: nat)
    requires CatchingFor(w, s, k, x, to) && s.queue[0] != x
    ensures s.queue[0].id != x.id && Less(s.queue[0], x) && x in s.queue[1..]
  {
    var i :| 0 <= i < |s.queue| && s.queue[i] == x;
    assert s.queue[1..][i - 1] == x;
    assert !Less(s.queue[i], s.queue[0]) && s.queue[0].id != s.queue[i].id;
  }

  /** While x waits, the reference reports the front of the queue next. */
  lemma DeliverFront(w: World, s: State, k: nat, x: Item, to: nat)
    requires CatchingFor(w, s, k, x, to) && s.queue[0] != x
    ensures var before := Before(w, s, x);
            var top := s.queue[0];
            var log' := Popped(w, s).log;
            Deliver(w, before, s.log) ==
              match w.onEvent(log')
              case Terminate => (log', ScanTerminated)
              case SkipPattern => Deliver(w, Without(before, top.id), log')
              case Continue => Deliver(w, before - {top}, log')
  {
    FrontComesFirst(w, s, k, x, to);
    FrontIsLeast(w, s, k, x.id, to);
    var top := s.queue[0];
    assert top in s.queue && ItemOk(w, s, top);
    hide Inv, Caught, Catching, Pending, ScanOk, Tolerated;
    var before := Before(w, s, x);
    assert top in before;
    var y := Least(before);
    assert !Less(top, y) && !Less(y, top);
    assert y == top;
  }

  lemma RescanKeeps(w: World, s: State, p: nat, x: Item)
    requires Wf(w, s) && p < |w.patterns| && x in s.queue
    ensures x in Rescan(w, s, p).s.queue
  {
  }

  /** A turn of catchupPcre that goes round again leaves x queued, and what comes
      before x is what the reference has left to deliver. */
  lemma TurnBefore(w: World, s: State, k: nat, x: Item, from: nat, to: nat)
    requires CatchingFor(w, s, k, x, to) && s.queue[0] != x && !w.onEvent(Popped(w, s).log).Terminate?
    ensures var t := CatchupTurn(w, s, x.id, from, to);
            && t.Again? && x in t.s.queue && |t.s.pd| == |w.patterns|
            && (Reached(w, s, x) <==> Reached(w, t.s, x))
  {
    hide Inv, LogOk, Deliver, Less, Step, Pending, Rescan, Caught, ScanOk, FindAll, Catching, Tolerated;
    FrontFacts(w, s, k, x.id, to);
    FrontComesFirst(w, s, k, x, to);
    DeliverFront(w, s, k, x, to);
    var p := s.queue[0].id;
    var s1 := Popped(w, s);
    if w.onEvent(s1.log).SkipPattern? {
      SkippedPending(w, s, k);
      assert Before(w, s1.SetScanStart(p, |w.data|), x) == Without(Before(w, s, x), p);
    } else {
      PoppedPending(w, s, k);
      RescanPending(w, s1, p);
      RescanKeeps(w, s1, p, x);
      assert Before(w, Rescan(w, s1, p).s, x) == Before(w, s, x) - {s.queue[0]};
    }
  }

  /** The queued match was the one reported last. */
  predicate EndsWith(log: seq<Report>, id: nat) {
    |log| > 0 && log[|log| - 1].item.id == id
  }

  /** catchupPcre gets as far as the queued match x exactly when the reference
      delivers all that comes before x. */
  lemma {:induction false} CatchupReaches(w: World, s: State, k: nat, x: Item, from: nat, to: nat)
    requires CatchingFor(w, s, k, x, to)
    ensures Wf(w, s)
    ensures var (s', ret) := Catchup(w, s, x.id, from, to);
            ret == Success || EndsWith(s'.log, x.id) <==> Reached(w, s, x)
    decreases |s.queue|, StartsLeft(w, s.pd)
  {
    hide Inv, LogOk, Deliver, Less, Step, Pending, Rescan, Caught, ScanOk, FindAll, Catching, Tolerated, Before;
    FrontFacts(w, s, k, x.id, to);
    if s.queue[0] == x {
      NothingBeforeFront(w, s, k, x, to);
    } else {
      FrontComesFirst(w, s, k, x, to);
      DeliverFront(w, s, k, x, to);
      if !w.onEvent(Popped(w, s).log).Terminate? {
        TurnBefore(w, s, k, x, from, to);
        TurnDelivers(w, s, k, x.id, from, to);
        TurnKeeps(w, s, k, x.id, from, to);
        CatchupProgress(w, s, x.id, from, to);
        CatchupReaches(w, CatchupTurn(w, s, x.id, from, to).s, k, x, from, to);
      }
    }
  }

  lemma TurnKeeps(w: World, s: State, k: nat, id: nat, from: nat, to: nat)
    requires Delivering(w, s, k, id, to) && s.queue != []
    ensures var t := CatchupTurn(w, s, id, from, to);
            t.Again? ==> Inv(w, t.s, k, NO_PATTERN) && Catching(w, t.s, k, id, to)
  {
    HitsInOrder(w);
    InvLog(w, s, k, NO_PATTERN);
    hide Inv, Caught, ScanOk, Tolerated, Catching, CatchupTurn;
    CatchupTurnInv(w, s, k, id, from, to);
  }

  /** A callback leaves two queued items of a pattern exactly when it is for a due
      hit and, of the matches that come before the one queued for the hit's
      pattern, the user ends the scan at one. */
  lemma RepeatedItemIff(w: World, s: State, k: nat)
    requires ScanOk(w) && Tolerated(w) && Inv(w, s, k, NO_PATTERN) && Caught(w, s, k) && s.ret == Success
    requires k < |w.hits|
    ensures HitInRange(w, w.hits[k])
    ensures Distinct(MultiCallback(w, s, w.hits[k]).0.queue)
       <==> (DueHit(w, s, k) ==> forall x :: x in s.queue && x.id == w.hits[k].id ==> Reached(w, s, x))
  {
    hide Inv, LogOk, Deliver, Less, Step, Pending, Caught, ScanOk, FindAll, Tolerated, Before, MultiCallback,
      Distinct;
    var h := w.hits[k];
    InvLog(w, s, k, NO_PATTERN);
    if DueHit(w, s, k) {
      RepeatedItemIffHalted(w, s, k);
      DueIsQueued(w, s, k);
      forall x | x in s.queue && x.id == h.id
        ensures Distinct(MultiCallback(w, s, h).0.queue) <==> Reached(w, s, x)
      {
        CatchupReaches(w, s, k, x, h.from, h.to);
      }
      var x :| x in s.queue && x.id == h.id;
    } else {
      OtherCallbacksKeepDistinct(w, s, k);
    }
  }

  // -------------------------------------------------------------- a halted scan

  /** Two one-byte patterns; pattern 1 matches at 0 and 1, pattern 0 at 0; the user
      ends the scan at the first report. */
  function HaltingWorld(): World {
    var p := Pattern(0, false, false, Some(1), 1);
    World(
      [0, 0, 0], [p, p], [], false, false, false, false,
      [Hit(1, 0, 1), Hit(0, 0, 1), Hit(1, 1, 2)],
      (p: nat, f: nat) =>
        if p < 2 && (f == 0 || (f == 1 && p == 1)) then Some(Match(f, f + 1, [Active(f, f + 1)])) else None,
      (p: nat, start: nat) => None,
      (log: seq<Report>) => Terminate,
      (log: seq<Report>, p: nat, start: nat) => Continue)
  }

  lemma HaltingExact(p: nat)
    requires p < 2
    ensures ExactHits(HaltingWorld(), p)
  {
    var w := HaltingWorld();
    assert w.hits[0] == Hit(1, 0, 1) && w.hits[1] == Hit(0, 0, 1) && w.hits[2] == Hit(1, 1, 2);
  }

  lemma HaltingWorldOk()
    ensures ScanOk(HaltingWorld())
  {
    hide ExactHits;
    var w := HaltingWorld();
    HaltingExact(0);
    HaltingExact(1);
    assert |w.patterns| == 2 && |w.hits| == 3;
    assert forall k :: 0 <= k < 3 ==> HitInRange(w, w.hits[k]);
  }

  /** The state after the first two hits. */
  function BeforeHalt(): State {
    State([Item(0, 1, 0), Item(0, 1, 1)], {0, 1}, [PatternData(1, []), PatternData(1, [])], [], Success)
  }

  lemma FirstTwoHits(pd: seq<PatternData>)
    requires |pd| == 2
    ensures var w := HaltingWorld();
            var s1 := MultiCallback(w, State([], {}, pd, [], Success), Hit(1, 0, 1));
            && Wf(w, State([], {}, pd, [], Success)) && !s1.1
            && MultiCallback(w, s1.0, Hit(0, 0, 1)) == (BeforeHalt(), false)
  {
    var w := HaltingWorld();
    assert w.PcreOk();
    var s1 := MultiCallback(w, State([], {}, pd, [], Success), Hit(1, 0, 1)).0;
    assert s1.queue == [Item(0, 1, 1)] && s1.active == {1} && s1.pd == [pd[0], PatternData(1, [])];
    var s2 := MultiCallback(w, s1, Hit(0, 0, 1)).0;
    assert Insert([Item(0, 1, 1)], Item(0, 1, 0)) == [Item(0, 1, 0), Item(0, 1, 1)];
    assert s2.active == {0, 1} && s2.pd == [PatternData(1, []), PatternData(1, [])];
  }

  /** Catching up for the hit 1..2 reports pattern 0 and stops, and the hit is then
      queued beside pattern 1's match 0..1. */
  lemma ThirdHit()
    ensures var w := HaltingWorld();
            && Wf(w, BeforeHalt())
            && var (s', stop) := MultiCallback(w, BeforeHalt(), Hit(1, 1, 2));
               stop && s'.ret == ScanTerminated && s'.queue == [Item(0, 1, 1), Item(1, 2, 1)]
  {
    var w := HaltingWorld();
    assert w.PcreOk();
    var s := BeforeHalt();
    assert s.(active := s.active + {1}) == s;
    assert Catchup(w, s, 1, 1, 2) == (Popped(w, s), ScanTerminated);
    assert Insert([Item(0, 1, 1)], Item(1, 2, 1)) == [Item(0, 1, 1), Item(1, 2, 1)];
  }

  /** "At most one queued item per pattern" is not true of a scan that the user
      has ended. */
  lemma HaltedScanRepeatsAnItem(pd: seq<PatternData>)
    requires |pd| == 2
    ensures ScanOk(HaltingWorld())
    ensures var (s, ret) := Scan(HaltingWorld(), pd);
            ret == ScanTerminated && s.queue == [Item(0, 1, 1), Item(1, 2, 1)] && !Distinct(s.queue)
  {
    hide ScanOk, MultiCallback, Catchup;
    var w := HaltingWorld();
    HaltingWorldOk();
    FirstTwoHits(pd);
    ThirdHit();
    var s0 := State([], {}, pd, [], Success);
    assert InitQueue(w, s0, 0) == (s0, Success);
    var s1 := MultiCallback(w, s0, Hit(1, 0, 1)).0;
    assert RunHits(w, BeforeHalt(), 2) == MultiCallback(w, BeforeHalt(), Hit(1, 1, 2)).0;
    assert RunHits(w, s1, 1) == RunHits(w, BeforeHalt(), 2);
    assert RunHits(w, s0, 0) == RunHits(w, s1, 1);
    var q := Scan(w, pd).0.queue;
    assert q[0].id == q[1].id;
  }
}
