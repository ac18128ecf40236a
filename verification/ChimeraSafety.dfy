/** What every state of a Chimera scan keeps, whatever the engines find, whatever
    PCRE fails on and whatever the user replies. */
module ChimeraSafety {
  import opened Options
  import opened MatchQueue
  import opened Chimera

  /** The item is a true match of its pattern. */
  ghost predicate Genuine(w: World, x: Item) {
    x.id < |w.patterns| && w.matchAt(x.id, x.from).Some? && w.matchAt(x.id, x.from).value.to == x.to
  }

  ghost function CapturesOf(w: World, x: Item): seq<Capture>
    requires Genuine(w, x)
  {
    Delivered(w, w.matchAt(x.id, x.from).value.groups)
  }

  ghost predicate Queued(s: State, p: nat) {
    exists x :: x in s.queue && x.id == p
  }

  /** After the i-th report, its pattern must not be reported again. */
  ghost predicate Last(w: World, log: seq<Report>, i: nat)
    requires i < |log| && log[i].item.id < |w.patterns|
  {
    w.patterns[log[i].item.id].single || w.onEvent(log[..i + 1]).SkipPattern?
  }

  /** The reports made so far: true matches, each with its own captures, in strict
      queue order, and none after a report that was its pattern's last. */
  ghost predicate LogOk(w: World, log: seq<Report>) {
    && (forall r :: r in log ==> Genuine(w, r.item) && r.groups == CapturesOf(w, r.item))
    && (forall i, j :: 0 <= i < j < |log| ==> Less(log[i].item, log[j].item))
    && (forall i, j :: 0 <= i < j < |log| && log[i].item.id == log[j].item.id ==> !Last(w, log, i))
  }

  /** No two items of the same pattern. */
  ghost predicate Distinct(q: seq<Item>) {
    forall i, j :: 0 <= i < j < |q| ==> q[i].id != q[j].id
  }

  /** The queue: sorted, at most one item per pattern, and the pattern's data is
      that of its item. */
  ghost predicate QueueOk(w: World, s: State) {
    && Sorted(s.queue)
    && Distinct(s.queue)
    && (forall x :: x in s.queue ==> x.id in s.active && ItemOk(w, s, x))
  }

  ghost predicate ItemOk(w: World, s: State, x: Item) {
    && Genuine(w, x) && x.from <= x.to && x.id < |s.pd|
    && s.pd[x.id] == PatternData(Step(w, x.id, x.from, x.to), CapturesOf(w, x))
  }

  /** Queued items come after all reports and belong to patterns that may still report. */
  ghost predicate QueueAfterLog(w: World, s: State)
    requires LogOk(w, s.log)
  {
    && (forall r, x :: r in s.log && x in s.queue ==> Less(r.item, x))
    && (forall i, x :: 0 <= i < |s.log| && x in s.queue && s.log[i].item.id == x.id ==> !Last(w, s.log, i))
  }

  /** Hyperscan has raised hits 0 to k - 1: their patterns are on, and no later
      hit ends at or before a report that was made. */
  ghost predicate HitsSeen(w: World, s: State, k: nat) {
    && k <= |w.hits|
    && (forall j :: 0 <= j < k ==> w.hits[j].id in s.active)
    && (forall r, j :: r in s.log && k <= j < |w.hits| ==> r.item.to < w.hits[j].to)
  }

  /** A fixed-width pattern with nothing queued will ignore every further hit,
      unless it is `open`: its item was just reported and the next is on its way. */
  ghost predicate SpentOk(w: World, s: State, open: nat) {
    forall p :: 0 <= p < |w.patterns| && p in s.active && p !in w.unguarded && p != open && p < |s.pd|
                && w.patterns[p].width.Some? && !w.patterns[p].single && !Queued(s, p)
                ==> s.pd[p].scanStart >= |w.data|
  }

  ghost predicate Inv(w: World, s: State, k: nat, open: nat) {
    match s
    case State(_, active, _, log, _) =>
    && Wf(w, s)
    && LogOk(w, log)
    && (forall r :: r in log ==> r.item.id in active)
    && QueueOk(w, s)
    && QueueAfterLog(w, s)
    && HitsSeen(w, s, k)
    && SpentOk(w, s, open)
  }

  lemma InvLog(w: World, s: State, k: nat, open: nat)
    requires Inv(w, s, k, open)
    ensures Wf(w, s) && LogOk(w, s.log) && k <= |w.hits|
  {
  }

  // ------------------------------------------------------------ single steps

  /** A match of p may be queued if it comes after every report, p has nothing
      queued, and p may still report. */
  ghost predicate MayPush(w: World, s: State, p: nat, m: Match)
    requires LogOk(w, s.log)
  {
    && p < |w.patterns| && p in s.active && !Queued(s, p)
    && w.matchAt(p, m.from) == Some(m) && m.from <= m.to
    && (forall r :: r in s.log ==> Less(r.item, Item(m.from, m.to, p)))
    && (forall i :: 0 <= i < |s.log| && s.log[i].item.id == p ==> !Last(w, s.log, i))
  }

  lemma PushInv(w: World, s: State, k: nat, open: nat, p: nat, m: Match)
    requires Inv(w, s, k, open) && MayPush(w, s, p, m)
    requires open == p || open == NO_PATTERN
    ensures Inv(w, Push(w, s, p, m), k, NO_PATTERN)
  {
    PushQueueOk(w, s, p, m);
    var s' := Push(w, s, p, m);
    var x := Item(m.from, m.to, p);
    assert x in s'.queue;
    assert QueueAfterLog(w, s');
    forall q | q != p && Queued(s, q) ensures Queued(s', q) {
      var y :| y in s.queue && y.id == q;
      assert y in s'.queue;
    }
  }

  lemma PushQueueOk(w: World, s: State, p: nat, m: Match)
    requires w.PcreOk() && |s.pd| == |w.patterns| && QueueOk(w, s)
    requires p < |w.patterns| && p in s.active && !Queued(s, p)
    requires w.matchAt(p, m.from) == Some(m) && m.from <= m.to
    ensures QueueOk(w, Push(w, s, p, m))
  {
    var x := Item(m.from, m.to, p);
    InsertSorted(s.queue, x);
    InsertDistinct(s.queue, x);
    var s' := Push(w, s, p, m);
    forall y | y in s'.queue ensures y.id in s'.active && ItemOk(w, s', y) {
      if y != x {
        assert y in s.queue && ItemOk(w, s, y);
      }
    }
  }

  lemma {:induction false} InsertDistinct(q: seq<Item>, x: Item)
    requires Distinct(q)
    requires forall y :: y in q ==> y.id != x.id
    ensures Distinct(Insert(q, x))
  {
    if q == [] || Less(x, q[0]) {
      ConsDistinct(x, q);
    } else {
      var r := Insert(q[1..], x);
      InsertDistinct(q[1..], x);
      forall y | y in r ensures y.id != q[0].id {
        assert q[0] in q;
        if y != x {
          var i :| 0 <= i < |q[1..]| && q[1..][i] == y;
          assert q[i + 1] == y;
        }
      }
      ConsDistinct(q[0], r);
    }
  }

  lemma ConsDistinct(x: Item, q: seq<Item>)
    requires Distinct(q) && forall y :: y in q ==> y.id != x.id
    ensures Distinct([x] + q)
  {
    forall j | 0 <= j < |q| ensures q[j].id != x.id {
      assert q[j] in q;
    }
  }

  lemma LogAppend(w: World, log: seq<Report>, r: Report)
    requires LogOk(w, log)
    requires Genuine(w, r.item) && r.groups == CapturesOf(w, r.item)
    requires forall q :: q in log ==> Less(q.item, r.item)
    requires forall i :: 0 <= i < |log| && log[i].item.id == r.item.id ==> !Last(w, log, i)
    ensures LogOk(w, log + [r])
    ensures forall i :: 0 <= i < |log| ==> Last(w, log + [r], i) == Last(w, log, i)
  {
    hide Less, Genuine, CapturesOf;
    var log' := log + [r];
    forall i | 0 <= i < |log| ensures log'[..i + 1] == log[..i + 1] && log[i] in log {
    }
  }

  lemma PoppedQueueOk(w: World, s: State)
    requires Wf(w, s) && QueueOk(w, s) && s.queue != []
    ensures var top := s.queue[0];
            var s' := Popped(w, s);
            && QueueOk(w, s') && !Queued(s', top.id)
            && (forall x :: x in s'.queue ==> x in s.queue && Less(top, x))
            && (forall q :: q != top.id ==> Queued(s', q) == Queued(s, q))
  {
    var top := s.queue[0];
    var s' := Popped(w, s);
    forall x | x in s'.queue ensures x.id != top.id && Less(top, x) && x in s.queue && ItemOk(w, s', x) {
      var j :| 0 <= j < |s'.queue| && s'.queue[j] == x;
      assert s.queue[j + 1] == x && ItemOk(w, s, x);
    }
    forall q | q != top.id && Queued(s, q) ensures Queued(s', q) {
      var y :| y in s.queue && y.id == q;
      assert y in s'.queue;
    }
  }

  /** Reporting the front of the queue keeps the log in order. */
  lemma PoppedLogOk(w: World, s: State)
    requires Wf(w, s) && LogOk(w, s.log) && QueueOk(w, s) && QueueAfterLog(w, s) && s.queue != []
    ensures var s' := Popped(w, s);
            && LogOk(w, s'.log) && QueueAfterLog(w, s')
            && forall i :: 0 <= i < |s.log| && s.log[i].item.id == s.queue[0].id ==> !Last(w, s'.log, i)
  {
    var top := s.queue[0];
    PoppedQueueOk(w, s);
    assert top in s.queue && ItemOk(w, s, top);
    LogAppend(w, s.log, Report(top, s.pd[top.id].groups));
  }

  lemma PoppedInv(w: World, s: State, k: nat)
    requires Inv(w, s, k, NO_PATTERN) && s.queue != []
    requires forall j :: k <= j < |w.hits| ==> s.queue[0].to < w.hits[j].to
    ensures var p := s.queue[0].id;
            && Inv(w, Popped(w, s), k, p) && !Queued(Popped(w, s), p)
            && forall i :: 0 <= i < |s.log| && s.log[i].item.id == p ==> !Last(w, Popped(w, s).log, i)
  {
    PoppedQueueOk(w, s);
    PoppedLogOk(w, s);
    assert s.queue[0] in s.queue;
  }

  /** Switching a pattern on, with whatever start its data then holds. */
  lemma ActivateInv(w: World, s: State, k: nat, p: nat, d: PatternData)
    requires Inv(w, s, k, NO_PATTERN) && p < |w.patterns| && p !in s.active
    ensures var s' := s.(active := s.active + {p}, pd := s.pd[p := d]);
            && Inv(w, s', k, p) && !Queued(s', p)
            && forall i :: 0 <= i < |s.log| ==> s.log[i].item.id != p
  {
    var s' := s.(active := s.active + {p}, pd := s.pd[p := d]);
    forall x | x in s'.queue ensures x.id in s'.active && ItemOk(w, s', x) {
      assert x in s.queue && ItemOk(w, s, x);
    }
    forall q ensures Queued(s', q) == Queued(s, q) {
    }
    forall i | 0 <= i < |s.log| ensures s.log[i].item.id != p {
      assert s.log[i] in s.log;
    }
  }

  // --------------------------------------------------------------- catching up

  /** How catchupPcre is called: to flush after the last hit, or at the k-th hit
      for a pattern whose queued match ends before it. */
  ghost predicate Catching(w: World, s: State, k: nat, id: nat, to: nat) {
    || (id == NO_PATTERN && to == |w.data| && k == |w.hits|)
    || (id < |w.patterns| && k < |w.hits| && to == w.hits[k].to && exists x :: x in s.queue && x.id == id && x.to < to)
  }

  /** Pattern p may queue another match. */
  ghost predicate MayReport(w: World, s: State, p: nat)
    requires LogOk(w, s.log)
  {
    forall i :: 0 <= i < |s.log| && s.log[i].item.id == p ==> !Last(w, s.log, i)
  }

  /** The front of the queue is due: it ends by `to`, so line 309 is never taken,
      and before every hit still to come. */
  lemma FrontIsDue(w: World, s: State, k: nat, id: nat, to: nat)
    requires HitsOrdered(w) && Inv(w, s, k, NO_PATTERN) && Catching(w, s, k, id, to) && s.queue != []
    ensures s.queue[0].to <= to
    ensures forall j :: k <= j < |w.hits| ==> s.queue[0].to < w.hits[j].to
    ensures id != NO_PATTERN ==> s.queue[0].to < to
  {
    var top := s.queue[0];
    assert top in s.queue && ItemOk(w, s, top);
    assert w.matchAt(top.id, top.from).value.to <= |w.data|;
    if id != NO_PATTERN {
      var x :| x in s.queue && x.id == id && x.to < to;
      var i :| 0 <= i < |s.queue| && s.queue[i] == x;
      assert !Less(x, top);
    }
  }

  /** The next match found by PCRE comes after the report it follows. */
  lemma NextIsLater(w: World, s: State, p: nat, m: Match)
    requires w.PcreOk() && LogOk(w, s.log) && p < |w.patterns|
    requires |s.log| > 0 && s.log[|s.log| - 1].item.id == p
    requires Step(w, p, s.log[|s.log| - 1].item.from, s.log[|s.log| - 1].item.to) <= m.from <= m.to
    ensures forall r :: r in s.log ==> Less(r.item, Item(m.from, m.to, p))
  {
    var last := s.log[|s.log| - 1];
    assert last in s.log && Genuine(w, last.item);
    var x := Item(m.from, m.to, p);
    assert Less(last.item, x);
    forall r | r in s.log ensures Less(r.item, x) {
      var i :| 0 <= i < |s.log| && s.log[i] == r;
      if i < |s.log| - 1 {
        assert Less(r.item, last.item);
      }
    }
  }

  /** A reported pattern refills the queue from PCRE. */
  lemma RescanInv(w: World, s: State, k: nat, p: nat)
    requires Inv(w, s, k, p) && p < |w.patterns| && p in s.active && !Queued(s, p)
    requires |s.log| > 0 && s.log[|s.log| - 1].item.id == p
    requires s.pd[p].scanStart == Step(w, p, s.log[|s.log| - 1].item.from, s.log[|s.log| - 1].item.to)
    requires w.patterns[p].single || MayReport(w, s, p)
    ensures var t := Rescan(w, s, p);
            && t.s.log == s.log && t.s.active == s.active && t.s.ret == s.ret && |t.s.pd| == |s.pd|
            && (forall q :: 0 <= q < |s.pd| && q != p ==> t.s.pd[q] == s.pd[q])
            && (forall x :: x in s.queue ==> x in t.s.queue)
            && (t.Again? ==> Inv(w, t.s, k, NO_PATTERN))
            && (t.Done? ==> t.ret != Success && t.s == s)
  {
    hide Inv, LogOk, Step, Less;
    InvLog(w, s, k, p);
    var start := s.pd[p].scanStart;
    if start <= |w.data| && !w.patterns[p].single && Exec(w, p, start).Found? {
      var m := Exec(w, p, start).m;
      NextIsLater(w, s, p, m);
      PushInv(w, s, k, p, p, m);
    } else {
      ExhaustInv(w, s, k, p);
    }
  }

  /** Raising the scan start of a pattern with nothing queued. */
  lemma ExhaustInv(w: World, s: State, k: nat, p: nat)
    requires Inv(w, s, k, p) && p < |w.patterns| && !Queued(s, p)
    ensures var s' := s.SetScanStart(p, |w.data|);
            Inv(w, s', k, NO_PATTERN) && Inv(w, s', k, p) && !Queued(s', p)
    ensures s.pd[p].scanStart > |w.data| || w.patterns[p].single || w.patterns[p].width.None? ==>
              Inv(w, s, k, NO_PATTERN)
  {
    var s' := s.SetScanStart(p, |w.data|);
    forall x | x in s'.queue ensures ItemOk(w, s', x) {
      assert x in s.queue && ItemOk(w, s, x);
    }
    forall q ensures Queued(s', q) == Queued(s, q) {
    }
  }

  /** catchupPcre made room for the next match of `id`, or gave the pattern up. */
  ghost predicate Opened(w: World, s: State, k: nat, id: nat) {
    && id < |w.patterns| && Inv(w, s, k, id) && id in s.active && !Queued(s, id)
    && (s.pd[id].scanStart >= |w.data| || MayReport(w, s, id))
  }

  lemma PoppedHalted(w: World, s: State, k: nat, id: nat, to: nat)
    requires Wf(w, s) && QueueOk(w, s) && s.queue != [] && Catching(w, s, k, id, to)
    ensures Halted(w, Popped(w, s), id)
  {
    PoppedQueueOk(w, s);
  }

  /** What a turn of catchupPcre that starts from s establishes. */
  ghost predicate TurnOk(w: World, s: State, k: nat, id: nat, to: nat, t: Turn) {
    && t.s.active == s.active && t.s.ret == s.ret && |t.s.pd| == |s.pd|
    && LogOk(w, t.s.log)
    && (id < |s.pd| && t.s.pd[id] != s.pd[id] ==> t.Done? && t.ret == Success && t.s.pd[id].scanStart >= |w.data|)
    && match t
       case Again(s') => Inv(w, s', k, NO_PATTERN) && Catching(w, s', k, id, to)
       case Done(s', ret) =>
         && |s'.queue| < |s.queue|
         && (ret == Success ==> Opened(w, s', k, id))
         && (ret != Success ==> Halted(w, s', id))
  }

  /** catchupPcre was told to stop. The match of `id` is still queued unless it
      was the one reported last. */
  ghost predicate Halted(w: World, s: State, id: nat) {
    && |s.log| > 0 && Distinct(s.queue)
    && (id < |w.patterns| ==> (Queued(s, id) <==> s.log[|s.log| - 1].item.id != id))
  }

  /** The pattern catchupPcre waits for may report more than once. */
  ghost predicate Waiting(w: World, id: nat) {
    id < |w.patterns| ==> !w.patterns[id].single
  }

  lemma StillCatching(w: World, s: State, s': State, k: nat, id: nat, to: nat)
    requires Catching(w, s, k, id, to) && s.queue != [] && s.queue[0].id != id
    requires forall x :: x in s.queue[1..] ==> x in s'.queue
    ensures Catching(w, s', k, id, to)
  {
    if id != NO_PATTERN || k < |w.hits| {
      var x :| x in s.queue && x.id == id && x.to < to;
      assert x in s.queue[1..];
    }
  }

  lemma SkipTurn(w: World, s: State, k: nat, id: nat, from: nat, to: nat)
    requires HitsOrdered(w) && Inv(w, s, k, NO_PATTERN) && Catching(w, s, k, id, to) && s.queue != []
    requires w.onEvent(Popped(w, s).log).SkipPattern?
    ensures TurnOk(w, s, k, id, to, CatchupTurn(w, s, id, from, to))
  {
    var top := s.queue[0];
    assert top in s.queue && top.id in s.active;
    assert Wf(w, s);
    hide Inv, HitsOrdered;
    FrontIsDue(w, s, k, id, to);
    PoppedInv(w, s, k);
    ExhaustInv(w, Popped(w, s), k, top.id);
    var s2 := Popped(w, s).SetScanStart(top.id, |w.data|);
    InvLog(w, s2, k, NO_PATTERN);
    if top.id != id {
      StillCatching(w, s, s2, k, id, to);
    }
  }

  /** The front, once reported, leaves its pattern open to report again. */
  lemma ReportedFront(w: World, s: State, k: nat, id: nat, to: nat)
    requires HitsOrdered(w) && Inv(w, s, k, NO_PATTERN) && Catching(w, s, k, id, to) && s.queue != [] && Waiting(w, id)
    requires w.onEvent(Popped(w, s).log).Continue?
    ensures var top := s.queue[0];
            var s1 := Popped(w, s);
            && Inv(w, s1, k, top.id) && !Queued(s1, top.id) && top.id in s1.active && top.id < |w.patterns|
            && s1.pd[top.id].scanStart == Step(w, top.id, top.from, top.to)
            && LogOk(w, s1.log) && (w.patterns[top.id].single || MayReport(w, s1, top.id))
            && Halted(w, s1, id)
  {
    var top := s.queue[0];
    var s1 := Popped(w, s);
    assert top in s.queue && top.id in s.active && ItemOk(w, s, top);
    PoppedHalted(w, s, k, id, to);
    FrontIsDue(w, s, k, id, to);
    PoppedInv(w, s, k);
    InvLog(w, s1, k, top.id);
    assert s1.log[..|s1.log|] == s1.log;
  }

  lemma ContinueTurn(w: World, s: State, k: nat, id: nat, from: nat, to: nat)
    requires HitsOrdered(w) && Inv(w, s, k, NO_PATTERN) && Catching(w, s, k, id, to) && s.queue != [] && Waiting(w, id)
    requires w.onEvent(Popped(w, s).log).Continue?
    ensures TurnOk(w, s, k, id, to, CatchupTurn(w, s, id, from, to))
  {
    hide Inv, HitsOrdered, Rescan, Step, Halted, Queued, Catching, LogOk;
    InvLog(w, s, k, NO_PATTERN);
    ReportedFront(w, s, k, id, to);
    FrontIsDue(w, s, k, id, to);
    var top := s.queue[0];
    var s1 := Popped(w, s);
    InvLog(w, s1, k, top.id);
    if top.id != id {
      RescanInv(w, s1, k, top.id);
      var t := Rescan(w, s1, top.id);
      if t.Again? {
        StillCatching(w, s, t.s, k, id, to);
      }
    }
  }

  lemma CatchupTurnInv(w: World, s: State, k: nat, id: nat, from: nat, to: nat)
    requires HitsOrdered(w) && Inv(w, s, k, NO_PATTERN) && Catching(w, s, k, id, to) && s.queue != [] && Waiting(w, id)
    ensures s.queue[0].to <= to
    ensures TurnOk(w, s, k, id, to, CatchupTurn(w, s, id, from, to))
  {
    InvLog(w, s, k, NO_PATTERN);
    PoppedHalted(w, s, k, id, to);
    hide Inv, HitsOrdered, Halted;
    FrontIsDue(w, s, k, id, to);
    match w.onEvent(Popped(w, s).log)
    case Terminate =>
      PoppedInv(w, s, k);
      InvLog(w, Popped(w, s), k, s.queue[0].id);
    case SkipPattern => SkipTurn(w, s, k, id, from, to);
    case Continue => ContinueTurn(w, s, k, id, from, to);
  }

  /** catchupPcre as a whole. Line 309 is never reached, so its queue only shrinks
      unless the scan goes on. */
  lemma {:induction false} CatchupInv(w: World, s: State, k: nat, id: nat, from: nat, to: nat)
    requires HitsOrdered(w) && Inv(w, s, k, NO_PATTERN) && Catching(w, s, k, id, to) && Waiting(w, id)
    ensures var (s', ret) := Catchup(w, s, id, from, to);
            && s'.active == s.active && s'.ret == s.ret && LogOk(w, s'.log)
            && (id < |s.pd| && s'.pd[id] != s.pd[id] ==> ret == Success && s'.pd[id].scanStart >= |w.data|)
            && (s.queue != [] ==> |s'.queue| < |s.queue|)
            && (ret == Success ==>
                  if id == NO_PATTERN then s'.queue == [] && Inv(w, s', k, NO_PATTERN) else Opened(w, s', k, id))
            && (ret != Success ==> Halted(w, s', id))
    decreases |s.queue|, StartsLeft(w, s.pd)
  {
    InvLog(w, s, k, NO_PATTERN);
    hide Inv, HitsOrdered;
    if s.queue != [] {
      CatchupTurnInv(w, s, k, id, from, to);
      CatchupProgress(w, s, id, from, to);
      var t := CatchupTurn(w, s, id, from, to);
      if t.Again? {
        CatchupInv(w, t.s, k, id, from, to);
      }
    }
  }

  // ------------------------------------------------------- Hyperscan's callback

  lemma NextHit(w: World, s: State, k: nat, open: nat)
    requires Inv(w, s, k, open) && k < |w.hits| && w.hits[k].id in s.active
    ensures Inv(w, s, k + 1, open)
  {
  }

  /** A first confirmation queues the match it finds, if any. */
  lemma ConfirmInv(w: World, s: State, k: nat)
    requires ScanOk(w) && k < |w.hits|
    requires var p := w.hits[k].id;
             && p < |w.patterns| && w.patterns[p].width.None?
             && Inv(w, s, k, p) && p in s.active && !Queued(s, p) && s.pd[p].scanStart == 0 && s.ret == Success
             && (forall i :: 0 <= i < |s.log| ==> s.log[i].item.id != p)
             && (forall j :: 0 <= j < k ==> w.hits[j].id != p)
    ensures var (s', stop) := Confirm(w, s, w.hits[k].id);
            && s'.log == s.log && s'.active == s.active
            && |s'.queue| <= |s.queue| + 1
            && (stop <==> s'.ret != Success)
            && (!stop ==> Inv(w, s', k + 1, NO_PATTERN))
  {
    var p := w.hits[k].id;
    assert HitsSeen(w, s, k);
    InvLog(w, s, k, p);
    assert |w.patterns| <= NO_PATTERN;
    hide Inv, Less, Step, LogOk;
    if Exec(w, p, 0).Found? {
      var m := Exec(w, p, 0).m;
      var s1 := Push(w, s, p, m);
      ConfirmedIsLater(w, s, k, m);
      hide ScanOk, HitsSeen;
      PushInv(w, s, k, p, p, m);
      NextHit(w, s1, k, NO_PATTERN);
      assert Confirm(w, s, p) == (s1, false);
    } else {
      hide ScanOk, HitsSeen;
      ExhaustInv(w, s, k, p);
      NextHit(w, s, k, NO_PATTERN);
      NextHit(w, s.SetScanStart(p, |w.data|), k, NO_PATTERN);
    }
  }

  /** The first confirmed match of a prefiltered pattern does not end before the
      hit that woke the pattern up. */
  lemma ConfirmedIsLater(w: World, s: State, k: nat, m: Match)
    requires ScanOk(w) && k < |w.hits| && w.hits[k].id < |w.patterns|
    requires w.patterns[w.hits[k].id].width.None? && HitsSeen(w, s, k)
    requires forall j :: 0 <= j < k ==> w.hits[j].id != w.hits[k].id
    requires w.matchAt(w.hits[k].id, m.from) == Some(m)
    ensures w.hits[k].to <= m.to
    ensures forall r :: r in s.log ==> Less(r.item, Item(m.from, m.to, w.hits[k].id))
  {
    var p := w.hits[k].id;
    assert HitInRange(w, w.hits[k]);
    assert PrefilterHits(w, p);
    var j :| 0 <= j < |w.hits| && w.hits[j].id == p && w.hits[j].to <= m.to;
    assert j >= k;
    forall r | r in s.log ensures r.item.to < w.hits[k].to <= m.to {
    }
  }

  /** The hits of a fixed-width pattern are queued as matches. */
  lemma PushHitInv(w: World, s: State, k: nat)
    requires ScanOk(w) && k < |w.hits|
    requires var p := w.hits[k].id;
             && p < |w.patterns| && w.patterns[p].width.Some?
             && Inv(w, s, k, p) && p in s.active && !Queued(s, p) && MayReport(w, s, p)
    ensures Inv(w, PushHit(w, s, w.hits[k]), k + 1, NO_PATTERN)
  {
    var h := w.hits[k];
    assert HitInRange(w, h);
    assert ExactHits(w, h.id);
    var m := Match(h.from, h.to, [Active(h.from, h.to)]);
    assert w.matchAt(h.id, h.from) == Some(m);
    InvLog(w, s, k, h.id);
    assert MayPush(w, s, h.id, m);
    PushInv(w, s, k, h.id, h.id, m);
    NextHit(w, PushHit(w, s, h), k, NO_PATTERN);
  }

  /** What the callback for the k-th hit leaves behind: the invariant for the
      next hit, or a scan that was told to stop with its log in order. The queue
      has a slot for every pattern either way. */
  ghost predicate CallbackOk(w: World, s: State, k: nat, r: (State, bool)) {
    var (s', stop) := r;
    && LogOk(w, s'.log) && s.active <= s'.active && |s'.queue| <= |w.patterns|
    && (s'.ret == Success ==> Inv(w, s', k + 1, NO_PATTERN))
    && (s'.ret != Success ==> stop)
  }

  lemma FirstHitInv(w: World, s: State, k: nat)
    requires ScanOk(w) && Inv(w, s, k, NO_PATTERN) && s.ret == Success && k < |w.hits| && HitInRange(w, w.hits[k])
    requires w.hits[k].id !in s.active
    ensures CallbackOk(w, s, k, MultiCallback(w, s, w.hits[k]))
  {
    var h := w.hits[k];
    var d := s.pd[h.id].(scanStart := 0);
    var s2 := s.(active := s.active + {h.id}, pd := s.pd[h.id := d]);
    assert forall j :: 0 <= j < k ==> w.hits[j].id in s.active;
    ActivateInv(w, s, k, h.id, d);
    var (s', stop) := MultiCallback(w, s, h);
    RoomLeft(w, s, k);
    InvLog(w, s2, k, h.id);
    hide Inv, ScanOk, LogOk;
    if w.patterns[h.id].width.None? {
      ConfirmInv(w, s2, k);
    } else {
      PushHitInv(w, s2, k);
      InvLog(w, s', k + 1, NO_PATTERN);
    }
  }

  ghost function Upto(n: nat): (r: set<nat>)
    ensures |r| == n && forall p :: p in r <==> 0 <= p < n
  {
    if n == 0 then {} else Upto(n - 1) + {n - 1}
  }

  /** One item per pattern: a queue never holds more items than there are patterns. */
  lemma {:induction false} QueueFits(q: seq<Item>, patterns: set<nat>)
    requires Distinct(q) && forall x :: x in q ==> x.id in patterns
    ensures |q| <= |patterns|
  {
    if q != [] {
      var id := q[0].id;
      assert q[0] in q;
      forall x | x in q[1..] ensures x.id in patterns - {id} {
        var i :| 0 <= i < |q[1..]| && q[1..][i] == x;
        assert q[i + 1] == x;
      }
      QueueFits(q[1..], patterns - {id});
    }
  }

  lemma RoomLeft(w: World, s: State, k: nat)
    requires Inv(w, s, k, NO_PATTERN)
    ensures |s.queue| <= |w.patterns|
    ensures forall p :: 0 <= p < |w.patterns| && p !in s.active ==> |s.queue| < |w.patterns|
  {
    QueueFits(s.queue, Upto(|w.patterns|));
    forall p | 0 <= p < |w.patterns| && p !in s.active ensures |s.queue| < |w.patterns| {
      QueueFits(s.queue, Upto(|w.patterns|) - {p});
    }
  }

  /** The k-th hit belongs to a fixed-width pattern that was seen before, and does
      not overlap its previous match. */
  ghost predicate DueHit(w: World, s: State, k: nat) {
    k < |w.hits| && HitInRange(w, w.hits[k]) && |s.pd| == |w.patterns|
    && var h := w.hits[k];
       && h.id in s.active && w.patterns[h.id].width.Some? && !w.patterns[h.id].single
       && h.to >= s.pd[h.id].scanStart + w.patterns[h.id].minWidth
  }

  /** At a due hit the queue is caught up, then the hit is queued. */
  lemma DueHitInv(w: World, s: State, k: nat)
    requires ScanOk(w) && Inv(w, s, k, NO_PATTERN) && s.ret == Success && DueHit(w, s, k)
    ensures Catching(w, s, k, w.hits[k].id, w.hits[k].to)
    ensures CallbackOk(w, s, k, MultiCallback(w, s, w.hits[k]))
  {
    hide Inv, LogOk, ScanOk, HitsOrdered, Catchup, Queued, Catching;
    var h := w.hits[k];
    HitsInOrder(w);
    DueIsQueued(w, s, k);
    RoomLeft(w, s, k);
    assert s.active + {h.id} == s.active;
    InvLog(w, s, k, NO_PATTERN);
    CatchupInv(w, s, k, h.id, h.from, h.to);
    var (s2, ret) := Catchup(w, s, h.id, h.from, h.to);
    if ret == Success {
      if s2.pd[h.id].scanStart >= |w.data| {
        OpenIsSpent(w, s2, k, h.id);
        NextHit(w, s2, k, NO_PATTERN);
      } else {
        PushHitInv(w, s2, k);
      }
    }
  }

  lemma OpenIsSpent(w: World, s: State, k: nat, p: nat)
    requires Inv(w, s, k, p) && p < |w.patterns| && s.pd[p].scanStart >= |w.data|
    ensures Inv(w, s, k, NO_PATTERN)
  {
  }

  /** A due hit finds its pattern's previous match still queued, ending before it. */
  lemma DueIsQueued(w: World, s: State, k: nat)
    requires ScanOk(w) && Inv(w, s, k, NO_PATTERN) && DueHit(w, s, k)
    ensures Catching(w, s, k, w.hits[k].id, w.hits[k].to) && Queued(s, w.hits[k].id)
    ensures s.pd[w.hits[k].id].scanStart < |w.data|
  {
    var h := w.hits[k];
    assert ExactHits(w, h.id);
    assert s.pd[h.id].scanStart < |w.data|;
    assert Queued(s, h.id);
    var x :| x in s.queue && x.id == h.id;
    assert ItemOk(w, s, x);
    assert x.to <= s.pd[h.id].scanStart;
  }

  /** The one way to have two queued items of a pattern: when catching up for a due
      hit stops the scan, line 465 queues the hit all the same, next to the
      pattern's previous match unless that was the last one reported. */
  lemma RepeatedItemIffHalted(w: World, s: State, k: nat)
    requires ScanOk(w) && Inv(w, s, k, NO_PATTERN) && s.ret == Success && DueHit(w, s, k)
    ensures var h := w.hits[k];
            var (s2, ret) := Catchup(w, s, h.id, h.from, h.to);
            var (s', stop) := MultiCallback(w, s, h);
            Distinct(s'.queue) <==> ret == Success || (|s2.log| > 0 && s2.log[|s2.log| - 1].item.id == h.id)
  {
    hide Inv, ScanOk, LogOk, Distinct, Queued, HitsOrdered, Less, Opened, Catchup, Insert;
    var h := w.hits[k];
    DueIsQueued(w, s, k);
    DueHitInv(w, s, k);
    HitsInOrder(w);
    assert s.active + {h.id} == s.active;
    InvLog(w, s, k, NO_PATTERN);
    CatchupInv(w, s, k, h.id, h.from, h.to);
    var (s2, ret) := Catchup(w, s, h.id, h.from, h.to);
    if ret == Success {
      InvDistinct(w, MultiCallback(w, s, h).0, k + 1);
    } else {
      InsertDistinctIff(s2, Item(h.from, h.to, h.id));
    }
  }

  /** Every other callback keeps one item per pattern, whatever PCRE does and
      whatever the user replies. */
  lemma OtherCallbacksKeepDistinct(w: World, s: State, k: nat)
    requires ScanOk(w) && Inv(w, s, k, NO_PATTERN) && s.ret == Success && k < |w.hits| && !DueHit(w, s, k)
    ensures HitInRange(w, w.hits[k]) && Distinct(MultiCallback(w, s, w.hits[k]).0.queue)
  {
    MultiCallbackInv(w, s, k);
    var s' := MultiCallback(w, s, w.hits[k]).0;
    InvDistinct(w, s, k);
    hide Inv, ScanOk, LogOk, Insert;
    if s'.ret == Success {
      InvDistinct(w, s', k + 1);
    }
  }

  lemma InvDistinct(w: World, s: State, k: nat)
    requires Inv(w, s, k, NO_PATTERN)
    ensures Distinct(s.queue)
  {
  }

  lemma InsertDistinctIff(s: State, x: Item)
    requires Distinct(s.queue)
    ensures Distinct(Insert(s.queue, x)) <==> !Queued(s, x.id)
  {
    if Queued(s, x.id) {
      var y :| y in s.queue && y.id == x.id;
      InsertRepeats(s.queue, x, y);
    } else {
      InsertDistinct(s.queue, x);
    }
  }

  lemma {:induction false} InsertRepeats(q: seq<Item>, x: Item, y: Item)
    requires y in q && y.id == x.id
    ensures !Distinct(Insert(q, x))
  {
    if Less(x, q[0]) {
      var i :| 0 <= i < |q| && q[i] == y;
      assert Insert(q, x)[0].id == Insert(q, x)[i + 1].id;
    } else if q[0] == y {
      var r := Insert(q[1..], x);
      assert x in r;
      var i :| 0 <= i < |r| && r[i] == x;
      assert Insert(q, x)[0].id == Insert(q, x)[i + 1].id;
    } else {
      var r := Insert(q[1..], x);
      InsertRepeats(q[1..], x, y);
      var i, j :| 0 <= i < j < |r| && r[i].id == r[j].id;
      assert Insert(q, x)[i + 1].id == Insert(q, x)[j + 1].id;
    }
  }

  /** Every callback keeps the invariant, whichever branch it takes. */
  lemma MultiCallbackInv(w: World, s: State, k: nat)
    requires ScanOk(w) && Inv(w, s, k, NO_PATTERN) && s.ret == Success && k < |w.hits|
    ensures HitInRange(w, w.hits[k])
    ensures var r := MultiCallback(w, s, w.hits[k]);
            && CallbackOk(w, s, k, r)
            && (r.1 && r.0.ret == Success ==> AllActive(w, r.0) && (w.allConfirm || w.allSingle))
  {
    var h := w.hits[k];
    assert HitInRange(w, h);
    if h.id !in s.active {
      FirstHitInv(w, s, k);
    } else {
      assert s.active + {h.id} == s.active;
      RoomLeft(w, s, k);
      InvLog(w, s, k, NO_PATTERN);
      NextHit(w, s, k, NO_PATTERN);
      hide Inv, ScanOk, LogOk;
      var p := w.patterns[h.id];
      if p.width.Some? && !p.single && h.to >= s.pd[h.id].scanStart + p.minWidth {
        DueHitInv(w, s, k);
        CatchupInv(w, s, k, h.id, h.from, h.to) by {
          assert HitsOrdered(w) by { HitsInOrder(w); }
        }
      }
    }
  }

  lemma HitsInOrder(w: World)
    requires ScanOk(w)
    ensures HitsOrdered(w)
  {
  }

  lemma {:induction false} RunHitsInv(w: World, s: State, k: nat)
    requires ScanOk(w) && Inv(w, s, k, NO_PATTERN) && s.ret == Success
    ensures var s' := RunHits(w, s, k);
            && LogOk(w, s'.log) && s.active <= s'.active && |s'.queue| <= |w.patterns|
            && (s'.ret == Success ==> Inv(w, s', |w.hits|, NO_PATTERN))
    decreases |w.hits| - k
  {
    hide Inv, ScanOk, LogOk, MultiCallback;
    InvLog(w, s, k, NO_PATTERN);
    RoomLeft(w, s, k);
    if k < |w.hits| {
      MultiCallbackInv(w, s, k);
      var (s1, stop) := MultiCallback(w, s, w.hits[k]);
      if !stop {
        RunHitsInv(w, s1, k + 1);
      } else if s1.ret == Success {
        StopEarlyInv(w, s1, k + 1);
      }
    }
  }

  /** With every pattern on, no remaining hit matters. */
  lemma StopEarlyInv(w: World, s: State, k: nat)
    requires ScanOk(w) && Inv(w, s, k, NO_PATTERN) && AllActive(w, s)
    ensures Inv(w, s, |w.hits|, NO_PATTERN)
  {
    forall j | 0 <= j < |w.hits| ensures w.hits[j].id in s.active {
      assert HitInRange(w, w.hits[j]);
    }
  }

  ghost predicate InitInv(w: World, s: State, i: nat) {
    && Inv(w, s, 0, NO_PATTERN) && s.log == [] && s.ret == Success && i <= |w.unguarded|
    && forall p :: p in s.active <==> p in w.unguarded[..i]
  }

  lemma InitStart(w: World, pd: seq<PatternData>)
    requires ScanOk(w) && |pd| == |w.patterns|
    ensures InitInv(w, State([], {}, pd, [], Success), 0)
  {
  }

  lemma InitStep(w: World, s: State, p: nat)
    requires Inv(w, s, 0, p) && s.log == [] && p < |w.patterns| && p in s.active && p in w.unguarded && !Queued(s, p)
    ensures var (s', res) := ScanPcre(w, s, 0, p);
            && Inv(w, s', 0, NO_PATTERN) && s'.log == [] && s'.active == s.active && s'.ret == s.ret
            && |s'.queue| <= |w.patterns|
            && (res == Skipped ==> Inv(w, s'.SetScanStart(p, |w.data|), 0, NO_PATTERN))
  {
    assert Inv(w, s, 0, NO_PATTERN);
    if Exec(w, p, 0).Found? {
      PushInv(w, s, 0, p, p, Exec(w, p, 0).m);
      RoomLeft(w, Push(w, s, p, Exec(w, p, 0).m), 0);
    } else {
      RoomLeft(w, s, 0);
      ExhaustInv(w, s, 0, p);
    }
  }

  /** The step of initQueue for the i-th unguarded pattern has room and keeps the
      invariant. */
  lemma InitStepInv(w: World, s: State, i: nat)
    requires ScanOk(w) && InitInv(w, s, i) && i < |w.unguarded|
    ensures w.unguarded[i] < |w.patterns| && |s.queue| < |w.patterns|
    ensures var p := w.unguarded[i];
            var (s2, res) := ScanPcre(w, s.(active := s.active + {p}), 0, p);
            && (res == Ok ==> InitInv(w, s2, i + 1))
            && (res == Skipped ==> InitInv(w, s2.SetScanStart(p, |w.data|), i + 1))
  {
    var p := w.unguarded[i];
    assert p !in w.unguarded[..i];
    RoomLeft(w, s, 0);
    ActivateInv(w, s, 0, p, s.pd[p]);
    var s1 := s.(active := s.active + {p});
    assert s.pd[p := s.pd[p]] == s.pd;
    assert s1 == s.(active := s.active + {p}, pd := s.pd[p := s.pd[p]]);
    InitStep(w, s1, p);
    assert w.unguarded[..i + 1] == w.unguarded[..i] + [p];
  }

  lemma {:induction false} InitQueueInv(w: World, s: State, i: nat)
    requires ScanOk(w) && InitInv(w, s, i)
    ensures var (s', ret) := InitQueue(w, s, i);
            && s'.log == [] && |s'.queue| <= |w.patterns|
            && (ret == Success ==> InitInv(w, s', |w.unguarded|))
    decreases |w.unguarded| - i
  {
    RoomLeft(w, s, 0);
    if i < |w.unguarded| {
      var p := w.unguarded[i];
      InitStepInv(w, s, i);
      var (s2, res) := ScanPcre(w, s.(active := s.active + {p}), 0, p);
      if res == Ok {
        InitQueueInv(w, s2, i + 1);
      } else if res == Skipped {
        InitQueueInv(w, s2.SetScanStart(p, |w.data|), i + 1);
      }
    }
  }

  lemma AllOnAtStart(w: World, s: State)
    requires ScanOk(w) && InitInv(w, s, |w.unguarded|) && w.noMultimatch
    ensures Inv(w, s, |w.hits|, NO_PATTERN)
  {
    assert w.unguarded[..|w.unguarded|] == w.unguarded;
    StopEarlyInv(w, s, 0);
  }

  /** Over any whole scan, for any engines, failures and replies: the reports are
      true matches with their own captures, delivered in strictly increasing
      (end, start, pattern) order; a SINGLEMATCH pattern is reported at most once,
      and no pattern is reported again after a SKIP reply. The queue never
      outgrows its patternCount slots. */
  lemma ScanIsSafe(w: World, pd: seq<PatternData>)
    requires ScanOk(w) && |pd| == |w.patterns|
    ensures var (s, ret) := Scan(w, pd);
            LogOk(w, s.log) && |s.queue| <= |w.patterns|
  {
    var s0 := State([], {}, pd, [], Success);
    InitStart(w, pd);
    InitQueueInv(w, s0, 0);
    var (s1, ret) := InitQueue(w, s0, 0);
    if ret == Success {
      InvLog(w, s1, 0, NO_PATTERN);
      var s2 := if w.noMultimatch then s1 else RunHits(w, s1, 0);
      if w.noMultimatch {
        AllOnAtStart(w, s1);
      } else {
        RunHitsInv(w, s1, 0);
      }
      HitsInOrder(w);
      if s2.ret == Success {
        RoomLeft(w, s2, |w.hits|);
        CatchupInv(w, s2, |w.hits|, NO_PATTERN, |w.data|, |w.data|);
      }
    }
  }
}
