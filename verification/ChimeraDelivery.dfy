/** What a Chimera scan delivers, exactly.

    The reference is two lines long: collect each pattern's leftmost
    non-overlapping matches, then hand them to the user's callback in
    (end, start, pattern) order, dropping a pattern when the reply is SKIP and
    ending the scan when it is TERMINATE. The scan interleaves Hyperscan hits,
    first confirmations and PCRE rescans, and is proved to do the same. */
module ChimeraDelivery {
  import opened Options
  import opened MatchQueue
  import opened Chimera
  import opened ChimeraSafety

  /** What PCRE finds from `start` on: the leftmost match, or nothing on an error. */
  ghost function FoundFrom(w: World, p: nat, start: nat): (r: Option<Match>)
    requires w.PcreOk()
    ensures r.Some? ==> r == FirstMatch(w, p, start)
  {
    if w.failure(p, start).Some? then None else FirstMatch(w, p, start)
  }

  /** The leftmost non-overlapping matches of p from `start` on; an error ends them. */
  ghost function FindAll(w: World, p: nat, start: nat): seq<Item>
    requires w.PcreOk() && p < |w.patterns|
    decreases |w.data| + 1 - start
  {
    if start > |w.data| then [] else
    match FoundFrom(w, p, start)
    case None => []
    case Some(m) => [Item(m.from, m.to, p)] + FindAll(w, p, Step(w, p, m.from, m.to))
  }

  /** A SINGLEMATCH pattern reports only the first of its matches. */
  ghost function Expected(w: World, p: nat): seq<Item>
    requires w.PcreOk() && p < |w.patterns|
  {
    var all := FindAll(w, p, 0);
    if w.patterns[p].single && all != [] then all[..1] else all
  }

  /** Every true match of every pattern. */
  ghost function Matches(w: World): (r: set<Item>)
    requires w.PcreOk()
    ensures forall x :: x in r <==> Genuine(w, x)
  {
    set p, f | 0 <= p < |w.patterns| && 0 <= f <= |w.data| && w.matchAt(p, f).Some?
      :: Item(f, w.matchAt(p, f).value.to, p)
  }

  ghost function Least(pending: set<Item>): (x: Item)
    requires pending != {}
    ensures x in pending && forall y :: y in pending ==> !Less(y, x)
  {
    var x :| x in pending;
    if pending == {x} then x
    else
      var y := Least(pending - {x});
      assert forall z :: z in pending ==> z == x || z in pending - {x};
      if Less(x, y) then x else y
  }

  ghost function Without(pending: set<Item>, p: nat): set<Item> {
    set x | x in pending && x.id != p
  }

  /** The reference: deliver the pending matches in order. */
  ghost function Deliver(w: World, pending: set<Item>, log: seq<Report>): (seq<Report>, Ret)
    requires forall x :: x in pending ==> Genuine(w, x)
    decreases pending
  {
    if pending == {} then (log, Success)
    else
      var x := Least(pending);
      var log' := log + [Report(x, CapturesOf(w, x))];
      match w.onEvent(log')
      case Terminate => (log', ScanTerminated)
      case SkipPattern => Deliver(w, Without(pending, x.id), log')
      case Continue => Deliver(w, pending - {x}, log')
  }

  /** All the matches a scan has to deliver. */
  ghost function AllExpected(w: World): (r: set<Item>)
    requires w.PcreOk()
    ensures forall x :: x in r ==> Genuine(w, x)
  {
    set x | x in Matches(w) && x in Expected(w, x.id)
  }

  // ------------------------------------------------------- find-all sequences

  lemma {:induction false} FindAllFrom(w: World, p: nat, start: nat)
    requires w.PcreOk() && p < |w.patterns|
    ensures forall x :: x in FindAll(w, p, start) ==> x.id == p && Genuine(w, x) && start <= x.from
    decreases |w.data| + 1 - start
  {
    if start <= |w.data| && FoundFrom(w, p, start).Some? {
      var m := FoundFrom(w, p, start).value;
      FindAllFrom(w, p, Step(w, p, m.from, m.to));
    }
  }

  /** Later matches of a pattern come later in queue order. */
  lemma FindAllAfter(w: World, x: Item, y: Item)
    requires w.PcreOk() && Genuine(w, x)
    requires x.from <= x.to && y in FindAll(w, x.id, Step(w, x.id, x.from, x.to))
    ensures Less(x, y)
  {
    FindAllFrom(w, x.id, Step(w, x.id, x.from, x.to));
  }

  lemma NothingPastTheEnd(w: World, p: nat, start: nat)
    requires w.PcreOk() && p < |w.patterns|
    requires w.patterns[p].width.Some? && ExactHits(w, p) && start >= |w.data|
    ensures FindAll(w, p, start) == []
  {
    assert w.matchAt(p, |w.data|).None?;
  }

  // ------------------------------------------------------ what is still to come

  /** x has still to be delivered when the scan is in state s. */
  ghost predicate Remaining(w: World, s: State, open: nat, x: Item)
    requires w.PcreOk() && |s.pd| == |w.patterns| && x.id < |w.patterns|
  {
    var rest := FindAll(w, x.id, s.pd[x.id].scanStart);
    if x.id !in s.active then x in Expected(w, x.id)
    else if Queued(s, x.id) then x in s.queue || (!w.patterns[x.id].single && x in rest)
    else x.id == open && x in rest
  }

  ghost function Pending(w: World, s: State, open: nat): (r: set<Item>)
    requires w.PcreOk() && |s.pd| == |w.patterns|
    ensures forall x :: x in r ==> Genuine(w, x)
  {
    set x | x in Matches(w) && Remaining(w, s, open, x)
  }

  /** PCRE raises no errors but exceeded limits, to which the user does not reply by
      ending the scan, and none for a pattern whose hits are its matches: those are
      taken from Hyperscan or from PCRE depending on what else is queued. */
  ghost predicate Tolerated(w: World) {
    forall p: nat, start: nat :: w.failure(p, start).Some? ==>
      w.failure(p, start) != Some(Fatal) && GoesOn(w, p, start) && !FixedWidth(w, p)
  }

  ghost predicate GoesOn(w: World, p: nat, start: nat) {
    forall log: seq<Report> :: !w.onError(log, p, start).Terminate?
  }

  ghost predicate FixedWidth(w: World, p: nat) {
    p < |w.patterns| && p !in w.unguarded && w.patterns[p].width.Some?
  }

  /** For the delivery: unguarded patterns are on, and a fixed-width pattern is
      past every hit it was shown. */
  ghost predicate Caught(w: World, s: State, k: nat) {
    && |s.pd| == |w.patterns| && k <= |w.hits|
    && (forall p :: p in w.unguarded ==> p in s.active)
    && (forall j :: 0 <= j < k ==> PastHit(w, s, w.hits[j]))
  }

  ghost predicate PastHit(w: World, s: State, h: Hit) {
    h.id < |w.patterns| == |s.pd| && h.id in s.active && w.patterns[h.id].width.Some? && !w.patterns[h.id].single
    ==> h.from < s.pd[h.id].scanStart
  }

  /** A pattern that is not on yet has no match ending before the next hit. */
  lemma DormantIsLater(w: World, s: State, k: nat, x: Item)
    requires ScanOk(w) && HitsSeen(w, s, k) && Caught(w, s, k)
    requires Genuine(w, x) && x.id !in s.active
    ensures k < |w.hits| && w.hits[k].to <= x.to
  {
    var p := x.id;
    assert p !in w.unguarded;
    if w.patterns[p].width.Some? {
      assert ExactHits(w, p);
      var width := w.patterns[p].width.value;
      var j :| 0 <= j < |w.hits| && w.hits[j] == Hit(p, x.from, x.from + width);
      assert j >= k;
    } else {
      assert PrefilterHits(w, p);
      var j :| 0 <= j < |w.hits| && w.hits[j].id == p && w.hits[j].to <= w.matchAt(p, x.from).value.to;
      assert j >= k;
    }
  }

  /** Nothing pending comes before the front of the queue. */
  lemma PendingAfterFront(w: World, s: State, k: nat, id: nat, to: nat, x: Item)
    requires ScanOk(w) && Inv(w, s, k, NO_PATTERN) && Caught(w, s, k) && Catching(w, s, k, id, to) && s.queue != []
    requires Genuine(w, x) && Remaining(w, s, NO_PATTERN, x)
    ensures !Less(x, s.queue[0])
  {
    FrontIsDue(w, s, k, id, to);
    if x.id !in s.active {
      DormantIsLater(w, s, k, x);
    } else {
      var y :| y in s.queue && y.id == x.id;
      var i :| 0 <= i < |s.queue| && s.queue[i] == y;
      assert ItemOk(w, s, y);
      if x in s.queue {
        var j :| 0 <= j < |s.queue| && s.queue[j] == x;
      } else {
        FindAllAfter(w, y, x);
      }
    }
  }

  /** The front of the queue is the next match to deliver. */
  lemma FrontIsLeast(w: World, s: State, k: nat, id: nat, to: nat)
    requires ScanOk(w) && Inv(w, s, k, NO_PATTERN) && Caught(w, s, k) && Catching(w, s, k, id, to) && s.queue != []
    ensures var pending := Pending(w, s, NO_PATTERN);
            s.queue[0] in pending && Least(pending) == s.queue[0]
  {
    var top := s.queue[0];
    var pending := Pending(w, s, NO_PATTERN);
    assert top in s.queue && ItemOk(w, s, top) && Queued(s, top.id);
    assert top in pending;
    var x := Least(pending);
    PendingAfterFront(w, s, k, id, to, x);
    assert !Less(top, x);
  }

  // -------------------------------------------------------------- single steps

  /** The states differ at most in what they hold for pattern p. */
  ghost predicate AgreeExcept(s: State, s': State, p: nat) {
    && |s.pd| == |s'.pd|
    && (forall q :: q != p ==> (q in s.active <==> q in s'.active))
    && (forall q :: 0 <= q < |s.pd| && q != p ==> s.pd[q] == s'.pd[q])
    && (forall x: Item :: x.id != p ==> (x in s.queue <==> x in s'.queue))
  }

  lemma AgreeRemaining(w: World, s: State, o: nat, s': State, o': nat, p: nat, x: Item)
    requires w.PcreOk() && |s.pd| == |w.patterns| && x.id < |w.patterns| && x.id != p
    requires AgreeExcept(s, s', p) && o in {p, NO_PATTERN} && o' in {p, NO_PATTERN}
    ensures Remaining(w, s, o, x) == Remaining(w, s', o', x)
  {
    assert Queued(s, x.id) == Queued(s', x.id);
  }

  /** To compare what is pending in two states that differ in p, compare what is
      pending for p. */
  lemma SamePending(w: World, s: State, o: nat, s': State, o': nat, p: nat)
    requires w.PcreOk() && |s.pd| == |w.patterns|
    requires AgreeExcept(s, s', p) && o in {p, NO_PATTERN} && o' in {p, NO_PATTERN}
    requires forall x :: Genuine(w, x) && x.id == p ==> (Remaining(w, s, o, x) <==> Remaining(w, s', o', x))
    ensures Pending(w, s, o) == Pending(w, s', o')
  {
    forall x | Genuine(w, x) ensures Remaining(w, s, o, x) == Remaining(w, s', o', x) {
      if x.id != p {
        AgreeRemaining(w, s, o, s', o', p, x);
      }
    }
  }

  lemma PoppedAgrees(w: World, s: State)
    requires Wf(w, s) && QueueOk(w, s) && s.queue != []
    ensures AgreeExcept(s, Popped(w, s), s.queue[0].id)
    ensures forall x :: x in s.queue && x.id == s.queue[0].id ==> x == s.queue[0]
  {
    var top := s.queue[0];
    PoppedQueueOk(w, s);
    forall x | x in s.queue ensures x == top || (x in s.queue[1..] && x.id != top.id) {
      var i :| 0 <= i < |s.queue| && s.queue[i] == x;
      if i > 0 {
        assert x == s.queue[1..][i - 1];
      }
    }
  }

  /** Reporting the front of the queue takes it, and nothing else, off what is
      pending. Until it is rescanned its pattern stays open. */
  lemma PoppedPending(w: World, s: State, k: nat)
    requires Inv(w, s, k, NO_PATTERN) && s.queue != []
    ensures var top := s.queue[0];
            var o := if w.patterns[top.id].single then NO_PATTERN else top.id;
            Pending(w, Popped(w, s), o) == Pending(w, s, NO_PATTERN) - {top}
  {
    var top := s.queue[0];
    var o := if w.patterns[top.id].single then NO_PATTERN else top.id;
    var s1 := Popped(w, s);
    PoppedAgrees(w, s);
    PoppedQueueOk(w, s);
    assert top in s.queue && ItemOk(w, s, top) && Queued(s, top.id);
    forall x | Genuine(w, x) ensures Remaining(w, s1, o, x) <==> Remaining(w, s, NO_PATTERN, x) && x != top {
      if x.id != top.id {
        AgreeRemaining(w, s, NO_PATTERN, s1, o, top.id, x);
      } else if x in FindAll(w, x.id, s.pd[x.id].scanStart) {
        FindAllAfter(w, top, x);
      }
    }
  }

  /** A SKIP reply takes everything of the pattern off what is pending. */
  lemma SkippedPending(w: World, s: State, k: nat)
    requires Inv(w, s, k, NO_PATTERN) && s.queue != []
    ensures var p := s.queue[0].id;
            var s2 := Popped(w, s).SetScanStart(p, |w.data|);
            && Pending(w, s2, NO_PATTERN) == Without(Pending(w, s, NO_PATTERN), p)
            && (FindAll(w, p, |w.data|) == [] ==> Pending(w, s2, p) == Without(Pending(w, s, NO_PATTERN), p))
  {
    var p := s.queue[0].id;
    assert s.queue[0] in s.queue && p in s.active;
    var s2 := Popped(w, s).SetScanStart(p, |w.data|);
    PoppedAgrees(w, s);
    PoppedQueueOk(w, s);
    assert !Queued(s2, p);
    forall x | Genuine(w, x) && x.id != p
      ensures Remaining(w, s2, NO_PATTERN, x) == Remaining(w, s, NO_PATTERN, x)
      ensures Remaining(w, s2, p, x) == Remaining(w, s, NO_PATTERN, x)
    {
      AgreeRemaining(w, s, NO_PATTERN, s2, NO_PATTERN, p, x);
      AgreeRemaining(w, s, NO_PATTERN, s2, p, p, x);
    }
  }

  /** Queueing the next match of an open pattern leaves what is pending as it was. */
  lemma PushPending(w: World, s: State, p: nat, m: Match)
    requires w.PcreOk() && p < |w.patterns| == |s.pd| && p in s.active && !Queued(s, p) && !w.patterns[p].single
    requires FoundFrom(w, p, s.pd[p].scanStart) == Some(m)
    ensures Pending(w, Push(w, s, p, m), NO_PATTERN) == Pending(w, s, p)
  {
    var s' := Push(w, s, p, m);
    assert Item(m.from, m.to, p) in s'.queue && Queued(s', p);
    SamePending(w, s, p, s', NO_PATTERN, p);
  }

  lemma NothingFound(w: World, p: nat, start: nat)
    requires w.PcreOk() && p < |w.patterns| && (start > |w.data| || FoundFrom(w, p, start).None?)
    ensures FindAll(w, p, start) == []
  {
  }

  lemma RescanPending(w: World, s: State, p: nat)
    requires Tolerated(w) && Wf(w, s) && p < |w.patterns| && p in s.active && !Queued(s, p)
    ensures var t := Rescan(w, s, p);
            && t.Again? && |t.s.pd| == |s.pd| && t.s.log == s.log && t.s.active == s.active
            && Pending(w, t.s, NO_PATTERN) == Pending(w, s, if w.patterns[p].single then NO_PATTERN else p)
            && (t.s.pd[p].scanStart >= s.pd[p].scanStart || t.s.pd[p].scanStart == |w.data|)
            && (forall q :: 0 <= q < |s.pd| && q != p ==> t.s.pd[q] == s.pd[q])
  {
    hide Step, Less, FirstMatch, Pending, FindAll;
    var start := s.pd[p].scanStart;
    var t := Rescan(w, s, p);
    if !w.patterns[p].single {
      if start <= |w.data| && FoundFrom(w, p, start).Some? {
        PushPending(w, s, p, FoundFrom(w, p, start).value);
      } else {
        NothingFound(w, p, start);
        assert Queued(t.s, p) == Queued(s, p);
        SamePending(w, s, p, t.s, NO_PATTERN, p);
      }
    }
  }

  /** The delivery the reference makes from state s on. */
  ghost function Outcome(w: World, s: State, open: nat): (seq<Report>, Ret)
    requires w.PcreOk() && |s.pd| == |w.patterns|
  {
    Deliver(w, Pending(w, s, open), s.log)
  }

  /** The reference reports the front of the queue next. */
  lemma OutcomeReportsFront(w: World, s: State, k: nat, id: nat, to: nat)
    requires ScanOk(w) && Inv(w, s, k, NO_PATTERN) && Caught(w, s, k) && Catching(w, s, k, id, to) && s.queue != []
    ensures var pending := Pending(w, s, NO_PATTERN);
            var top := s.queue[0];
            var log' := Popped(w, s).log;
            Outcome(w, s, NO_PATTERN) ==
              match w.onEvent(log')
              case Terminate => (log', ScanTerminated)
              case SkipPattern => Deliver(w, Without(pending, top.id), log')
              case Continue => Deliver(w, pending - {top}, log')
  {
    FrontIsLeast(w, s, k, id, to);
    assert s.queue[0] in s.queue && ItemOk(w, s, s.queue[0]);
  }

  lemma CaughtStep(w: World, s: State, s': State, k: nat)
    requires ScanOk(w) && Caught(w, s, k) && s.active <= s'.active && |s'.pd| == |s.pd|
    requires forall p :: 0 <= p < |s.pd| && p in s.active ==>
      s'.pd[p] == s.pd[p] || s'.pd[p].scanStart >= s.pd[p].scanStart || s'.pd[p].scanStart == |w.data|
    requires forall j :: 0 <= j < k ==> w.hits[j].id in s.active
    ensures Caught(w, s', k)
  {
    forall j | 0 <= j < k ensures PastHit(w, s', w.hits[j]) {
      var h := w.hits[j];
      assert HitInRange(w, h) && PastHit(w, s, h);
      if w.patterns[h.id].width.Some? {
        assert ExactHits(w, h.id);
      }
    }
  }

  /** catchupPcre waits for a fixed-width pattern, or for none. */
  ghost predicate WaitsForFixed(w: World, id: nat) {
    id < |w.patterns| ==> id !in w.unguarded && w.patterns[id].width.Some? && !w.patterns[id].single
  }

  /** The turn t made one delivery of the reference from s. */
  ghost predicate TurnAgrees(w: World, s: State, k: nat, id: nat, t: Turn)
    requires w.PcreOk() && |s.pd| == |w.patterns|
  {
    && |t.s.pd| == |w.patterns|
    && match t
       case Again(s') => Caught(w, s', k) && Outcome(w, s, NO_PATTERN) == Outcome(w, s', NO_PATTERN)
       case Done(s', ret) =>
         if ret == Success then Caught(w, s', k) && Outcome(w, s, NO_PATTERN) == Outcome(w, s', id)
         else Outcome(w, s, NO_PATTERN) == (s'.log, ret)
  }

  ghost predicate Delivering(w: World, s: State, k: nat, id: nat, to: nat) {
    && ScanOk(w) && Tolerated(w) && Inv(w, s, k, NO_PATTERN) && Caught(w, s, k)
    && Catching(w, s, k, id, to) && WaitsForFixed(w, id)
  }

  /** What both replies that go on need to know about the front of the queue. */
  lemma FrontFacts(w: World, s: State, k: nat, id: nat, to: nat)
    requires Delivering(w, s, k, id, to) && s.queue != []
    ensures Wf(w, s) && Wf(w, Popped(w, s)) && s.queue[0].to <= to
    ensures var p := s.queue[0].id;
            p < |w.patterns| && p in s.active && !Queued(Popped(w, s), p)
    ensures forall j :: 0 <= j < k ==> w.hits[j].id in s.active
    ensures s.queue[0].id == id ==> FindAll(w, id, |w.data|) == []
  {
    FrontIsDue(w, s, k, id, to);
    PoppedQueueOk(w, s);
    assert s.queue[0] in s.queue;
    if s.queue[0].id == id {
      assert ExactHits(w, id);
      NothingPastTheEnd(w, id, |w.data|);
    }
  }

  lemma SkipDelivers(w: World, s: State, k: nat, id: nat, from: nat, to: nat)
    requires Delivering(w, s, k, id, to) && s.queue != [] && w.onEvent(Popped(w, s).log).SkipPattern?
    ensures TurnAgrees(w, s, k, id, CatchupTurn(w, s, id, from, to))
  {
    hide Inv, LogOk, Deliver, Less, Step, Pending, Caught, ScanOk, FindAll, Catching, Tolerated;
    FrontFacts(w, s, k, id, to);
    OutcomeReportsFront(w, s, k, id, to);
    SkippedPending(w, s, k);
    CaughtStep(w, s, Popped(w, s).SetScanStart(s.queue[0].id, |w.data|), k);
  }

  lemma ContinueDelivers(w: World, s: State, k: nat, id: nat, from: nat, to: nat)
    requires Delivering(w, s, k, id, to) && s.queue != [] && w.onEvent(Popped(w, s).log).Continue?
    ensures TurnAgrees(w, s, k, id, CatchupTurn(w, s, id, from, to))
  {
    hide Inv, LogOk, Deliver, Less, Step, Pending, Rescan, Caught, ScanOk, FindAll, Catching, Tolerated;
    FrontFacts(w, s, k, id, to);
    var p := s.queue[0].id;
    var s1 := Popped(w, s);
    OutcomeReportsFront(w, s, k, id, to);
    PoppedPending(w, s, k);
    if p == id {
      CaughtStep(w, s, s1, k);
    } else {
      RescanPending(w, s1, p);
      CaughtStep(w, s, Rescan(w, s1, p).s, k);
    }
  }

  /** One turn of catchupPcre makes one delivery of the reference. */
  lemma TurnDelivers(w: World, s: State, k: nat, id: nat, from: nat, to: nat)
    requires Delivering(w, s, k, id, to) && s.queue != []
    ensures TurnAgrees(w, s, k, id, CatchupTurn(w, s, id, from, to))
  {
    match w.onEvent(Popped(w, s).log)
    case Terminate =>
      FrontIsDue(w, s, k, id, to);
      OutcomeReportsFront(w, s, k, id, to);
    case SkipPattern => SkipDelivers(w, s, k, id, from, to);
    case Continue => ContinueDelivers(w, s, k, id, from, to);
  }

  lemma {:induction false} CatchupDelivers(w: World, s: State, k: nat, id: nat, from: nat, to: nat)
    requires Delivering(w, s, k, id, to)
    ensures var (s', ret) := Catchup(w, s, id, from, to);
            && |s'.pd| == |w.patterns|
            && (if ret == Success then Caught(w, s', k) && Outcome(w, s, NO_PATTERN) == Outcome(w, s', id)
                else Outcome(w, s, NO_PATTERN) == (s'.log, ret))
    decreases |s.queue|, StartsLeft(w, s.pd)
  {
    HitsInOrder(w);
    InvLog(w, s, k, NO_PATTERN);
    if s.queue != [] {
      TurnDelivers(w, s, k, id, from, to);
      CatchupTurnInv(w, s, k, id, from, to);
      CatchupProgress(w, s, id, from, to);
      var t := CatchupTurn(w, s, id, from, to);
      hide Inv, Outcome, ScanOk;
      if t.Again? {
        CatchupDelivers(w, t.s, k, id, from, to);
      }
    }
  }

  // ------------------------------------------------------------------- the hits

  /** The hit that wakes up a fixed-width pattern, or is due for it, is the
      pattern's next match. */
  lemma HitIsNextMatch(w: World, s: State, k: nat, start: nat)
    requires ScanOk(w) && k < |w.hits| && HitInRange(w, w.hits[k]) && w.patterns[w.hits[k].id].width.Some?
    requires start <= w.hits[k].from
    requires forall j :: 0 <= j < k && w.hits[j].id == w.hits[k].id ==> w.hits[j].from < start
    requires Tolerated(w)
    ensures var h := w.hits[k];
            FoundFrom(w, h.id, start) == Some(Match(h.from, h.to, [Active(h.from, h.to)]))
  {
    var h := w.hits[k];
    assert ExactHits(w, h.id);
    var width := w.patterns[h.id].width.value;
    assert w.matchAt(h.id, h.from).Some?;
    forall f: nat | start <= f < h.from ensures w.matchAt(h.id, f).None? {
    }
  }

  /** Switching a pattern on and queueing its first match, if it has one, leaves
      what is pending as it was. */
  lemma ActivatePending(w: World, s: State, p: nat, d: PatternData)
    requires w.PcreOk() && p < |w.patterns| == |s.pd| && p !in s.active && !Queued(s, p)
    ensures var s2 := s.(active := s.active + {p}, pd := s.pd[p := d]);
            match FoundFrom(w, p, 0)
            case None => Pending(w, s2, NO_PATTERN) == Pending(w, s, NO_PATTERN)
            case Some(m) => Pending(w, Push(w, s2, p, m), NO_PATTERN) == Pending(w, s, NO_PATTERN)
  {
    var s2 := s.(active := s.active + {p}, pd := s.pd[p := d]);
    match FoundFrom(w, p, 0)
    case None =>
      assert FindAll(w, p, 0) == [];
      assert !Queued(s2, p);
      SamePending(w, s, NO_PATTERN, s2, NO_PATTERN, p);
    case Some(m) =>
      var s' := Push(w, s2, p, m);
      var x0 := Item(m.from, m.to, p);
      assert x0 in s'.queue && Queued(s', p);
      assert FindAll(w, p, 0)[..1] == [x0];
      SamePending(w, s, NO_PATTERN, s', NO_PATTERN, p);
  }

  /** What the reference does from s, the scan does by going on from r.0. */
  ghost predicate CallbackDelivers(w: World, s: State, k: nat, r: (State, bool))
    requires w.PcreOk() && |s.pd| == |w.patterns|
  {
    var s' := r.0;
    && |s'.pd| == |w.patterns|
    && (if s'.ret == Success then Caught(w, s', k + 1) && Outcome(w, s, NO_PATTERN) == Outcome(w, s', NO_PATTERN)
        else Outcome(w, s, NO_PATTERN) == (s'.log, s'.ret))
  }

  lemma CaughtNext(w: World, s: State, k: nat)
    requires Caught(w, s, k) && k < |w.hits| && PastHit(w, s, w.hits[k])
    ensures Caught(w, s, k + 1)
  {
  }

  /** The callback that switches a pattern on queues the pattern's first match,
      from the hit itself or from PCRE. */
  lemma FirstHitShape(w: World, s: State, k: nat)
    requires ScanOk(w) && Tolerated(w) && Wf(w, s) && s.ret == Success
    requires k < |w.hits| && HitInRange(w, w.hits[k]) && w.hits[k].id !in s.active
    requires forall j :: 0 <= j < k ==> w.hits[j].id in s.active
    ensures var h := w.hits[k];
            var s2 := s.(active := s.active + {h.id}, pd := s.pd[h.id := s.pd[h.id].(scanStart := 0)]);
            var s' := MultiCallback(w, s, h).0;
            && PastHit(w, s', h) && |s'.pd| == |s.pd|
            && match FoundFrom(w, h.id, 0)
               case None => s' == s2 || s' == s2.SetScanStart(h.id, |w.data|)
               case Some(m) => s' == Push(w, s2, h.id, m)
  {
    var h := w.hits[k];
    if w.patterns[h.id].width.Some? {
      HitIsNextMatch(w, s, k, 0);
      assert ExactHits(w, h.id);
    }
  }

  /** The callback that switches a pattern on leaves what is pending as it was. */
  lemma FirstHitPending(w: World, s: State, k: nat)
    requires ScanOk(w) && Tolerated(w) && Wf(w, s) && s.ret == Success
    requires k < |w.hits| && HitInRange(w, w.hits[k]) && w.hits[k].id !in s.active && !Queued(s, w.hits[k].id)
    requires forall j :: 0 <= j < k ==> w.hits[j].id in s.active
    ensures var s' := MultiCallback(w, s, w.hits[k]).0;
            && PastHit(w, s', w.hits[k]) && |s'.pd| == |s.pd| && s'.ret == Success
            && s'.log == s.log && s.active <= s'.active
            && (forall p :: 0 <= p < |s.pd| && p in s.active ==> s'.pd[p] == s.pd[p])
            && Pending(w, s', NO_PATTERN) == Pending(w, s, NO_PATTERN)
  {
    hide Deliver, Less, Pending, ScanOk, Tolerated, FindAll, MultiCallback, Caught, PastHit, Step, FirstMatch;
    var h := w.hits[k];
    ActivatePending(w, s, h.id, s.pd[h.id].(scanStart := 0));
    ActivatePending(w, s, h.id, s.pd[h.id].(scanStart := |w.data|));
    var d := s.pd[h.id];
    assert s.pd[h.id := d.(scanStart := 0)][h.id := d.(scanStart := |w.data|)]
        == s.pd[h.id := d.(scanStart := |w.data|)];
    FirstHitShape(w, s, k);
  }

  lemma FirstHitDelivers(w: World, s: State, k: nat)
    requires ScanOk(w) && Tolerated(w) && Inv(w, s, k, NO_PATTERN) && Caught(w, s, k) && s.ret == Success
    requires k < |w.hits| && HitInRange(w, w.hits[k]) && w.hits[k].id !in s.active
    ensures CallbackDelivers(w, s, k, MultiCallback(w, s, w.hits[k]))
  {
    hide Deliver, Less, Pending, FindAll, MultiCallback, Caught, PastHit, ScanOk, Tolerated;
    InvLog(w, s, k, NO_PATTERN);
    FirstHitPending(w, s, k);
    var s' := MultiCallback(w, s, w.hits[k]).0;
    CaughtStep(w, s, s', k);
    CaughtNext(w, s', k);
  }

  lemma DueHitDelivers(w: World, s: State, k: nat)
    requires ScanOk(w) && Tolerated(w) && Inv(w, s, k, NO_PATTERN) && Caught(w, s, k) && s.ret == Success
    requires DueHit(w, s, k)
    ensures CallbackDelivers(w, s, k, MultiCallback(w, s, w.hits[k]))
  {
    var h := w.hits[k];
    assert s.active + {h.id} == s.active;
    DueHitInv(w, s, k);
    HitsInOrder(w);
    InvLog(w, s, k, NO_PATTERN);
    assert ExactHits(w, h.id) && s.pd[h.id].scanStart <= h.from;
    hide Inv, LogOk, Deliver, Less, Pending, ScanOk, FindAll, Catching;
    CatchupInv(w, s, k, h.id, h.from, h.to);
    CatchupDelivers(w, s, k, h.id, h.from, h.to);
    var (s2, ret) := Catchup(w, s, h.id, h.from, h.to);
    if ret == Success {
      assert s2.(ret := Success) == s2;
      if s2.pd[h.id].scanStart >= |w.data| {
        OpenIsEmpty(w, s2, h.id);
        CaughtNext(w, s2, k);
      } else {
        DuePush(w, s2, k);
      }
    }
  }

  lemma OpenIsEmpty(w: World, s: State, p: nat)
    requires w.PcreOk() && p < |w.patterns| == |s.pd| && w.patterns[p].width.Some? && ExactHits(w, p)
    requires p in s.active && !Queued(s, p) && s.pd[p].scanStart >= |w.data|
    ensures Outcome(w, s, p) == Outcome(w, s, NO_PATTERN)
  {
    NothingPastTheEnd(w, p, s.pd[p].scanStart);
    SamePending(w, s, p, s, NO_PATTERN, p);
  }

  lemma DuePush(w: World, s: State, k: nat)
    requires ScanOk(w) && Tolerated(w) && Caught(w, s, k) && k < |w.hits| && HitInRange(w, w.hits[k])
    requires var h := w.hits[k];
             && h.id in s.active && w.patterns[h.id].width.Some? && !w.patterns[h.id].single
             && !Queued(s, h.id) && s.pd[h.id].scanStart <= h.from
    ensures var s' := PushHit(w, s, w.hits[k]);
            Caught(w, s', k + 1) && Outcome(w, s', NO_PATTERN) == Outcome(w, s, w.hits[k].id)
  {
    var h := w.hits[k];
    assert ExactHits(w, h.id);
    forall j | 0 <= j < k && w.hits[j].id == h.id ensures w.hits[j].from < s.pd[h.id].scanStart {
      assert PastHit(w, s, w.hits[j]);
    }
    HitIsNextMatch(w, s, k, s.pd[h.id].scanStart);
    PushPending(w, s, h.id, Match(h.from, h.to, [Active(h.from, h.to)]));
    var s' := PushHit(w, s, h);
    forall j | 0 <= j < k + 1 ensures PastHit(w, s', w.hits[j]) {
      if j < k {
        assert PastHit(w, s, w.hits[j]);
      }
    }
  }

  lemma MultiCallbackDelivers(w: World, s: State, k: nat)
    requires ScanOk(w) && Tolerated(w) && Inv(w, s, k, NO_PATTERN) && Caught(w, s, k) && s.ret == Success
    requires k < |w.hits|
    ensures HitInRange(w, w.hits[k])
    ensures CallbackDelivers(w, s, k, MultiCallback(w, s, w.hits[k]))
  {
    var h := w.hits[k];
    assert HitInRange(w, h);
    if h.id !in s.active {
      FirstHitDelivers(w, s, k);
    } else if DueHit(w, s, k) {
      DueHitDelivers(w, s, k);
    } else {
      assert s.active + {h.id} == s.active;
      if w.patterns[h.id].width.Some? {
        assert ExactHits(w, h.id);
      }
      CaughtNext(w, s, k);
    }
  }

  /** Delivering stands at k with what the reference promises from there. */
  ghost predicate Promised(w: World, s: State, k: nat, all: (seq<Report>, Ret)) {
    && Inv(w, s, k, NO_PATTERN) && Caught(w, s, k) && s.ret == Success
    && Outcome(w, s, NO_PATTERN) == all
  }

  lemma {:induction false} RunHitsDelivers(w: World, s: State, k: nat, all: (seq<Report>, Ret))
    requires ScanOk(w) && Tolerated(w) && Promised(w, s, k, all)
    ensures var s' := RunHits(w, s, k);
            if s'.ret == Success then Promised(w, s', |w.hits|, all) else all == (s'.log, s'.ret)
    decreases |w.hits| - k
  {
    if k < |w.hits| {
      MultiCallbackInv(w, s, k);
      MultiCallbackDelivers(w, s, k);
      var (s1, stop) := MultiCallback(w, s, w.hits[k]);
      hide Inv, LogOk, Deliver, Pending, FindAll, MultiCallback;
      if !stop {
        RunHitsDelivers(w, s1, k + 1, all);
      } else if s1.ret == Success {
        AllOnDelivers(w, s1, k + 1, all);
      }
    }
  }

  /** With every pattern on, and all confirmed or all reported once, the remaining
      hits can be taken as seen. */
  lemma AllOnDelivers(w: World, s: State, k: nat, all: (seq<Report>, Ret))
    requires ScanOk(w) && Promised(w, s, k, all) && AllActive(w, s)
    requires w.allConfirm || w.allSingle || w.noMultimatch
    ensures Promised(w, s, |w.hits|, all)
  {
    StopEarlyInv(w, s, k);
    forall j | 0 <= j < |w.hits| ensures PastHit(w, s, w.hits[j]) {
      assert HitInRange(w, w.hits[j]);
    }
  }

  lemma InitStepDelivers(w: World, s: State, i: nat)
    requires ScanOk(w) && Tolerated(w) && InitInv(w, s, i) && i < |w.unguarded|
    ensures var p := w.unguarded[i];
            var (s1, res) := ScanPcre(w, s.(active := s.active + {p}), 0, p);
            var s' := if res == Skipped then s1.SetScanStart(p, |w.data|) else s1;
            (res == Ok || res == Skipped) && InitInv(w, s', i + 1)
            && Outcome(w, s', NO_PATTERN) == Outcome(w, s, NO_PATTERN)
  {
    var p := w.unguarded[i];
    assert p !in w.unguarded[..i];
    assert forall x :: x in s.queue ==> x.id in s.active;
    assert s.pd[p := s.pd[p]] == s.pd;
    assert s.(active := s.active + {p}) == s.(active := s.active + {p}, pd := s.pd[p := s.pd[p]]);
    InitStepInv(w, s, i);
    hide Inv, Deliver, Pending, ScanOk, LogOk, FindAll, Less;
    ActivatePending(w, s, p, s.pd[p]);
    ActivatePending(w, s, p, s.pd[p].(scanStart := |w.data|));
  }

  lemma {:induction false} InitQueueDelivers(w: World, s: State, i: nat, all: (seq<Report>, Ret))
    requires ScanOk(w) && Tolerated(w) && InitInv(w, s, i) && Outcome(w, s, NO_PATTERN) == all
    ensures var (s', ret) := InitQueue(w, s, i);
            ret == Success && InitInv(w, s', |w.unguarded|) && Outcome(w, s', NO_PATTERN) == all
    decreases |w.unguarded| - i
  {
    if i < |w.unguarded| {
      InitStepDelivers(w, s, i);
      var p := w.unguarded[i];
      var (s1, res) := ScanPcre(w, s.(active := s.active + {p}), 0, p);
      InitQueueDelivers(w, if res == Skipped then s1.SetScanStart(p, |w.data|) else s1, i + 1, all);
    }
  }

  /** The whole scan does what the reference does: same reports, same captures,
      same order, same result, for every buffer, every set of patterns, every
      stream of hits that keeps Hyperscan's promises, and every user callback. */
  lemma ScanDelivers(w: World, pd: seq<PatternData>)
    requires ScanOk(w) && Tolerated(w) && |pd| == |w.patterns|
    ensures var (s, ret) := Scan(w, pd);
            (s.log, ret) == Deliver(w, AllExpected(w), [])
  {
    var s0 := State([], {}, pd, [], Success);
    var all := Deliver(w, AllExpected(w), []);
    assert Pending(w, s0, NO_PATTERN) == AllExpected(w);
    InitStart(w, pd);
    InitQueueDelivers(w, s0, 0, all);
    var (s1, ret) := InitQueue(w, s0, 0);
    assert w.unguarded[..|w.unguarded|] == w.unguarded;
    assert Promised(w, s1, 0, all);
    var s2 := if w.noMultimatch then s1 else RunHits(w, s1, 0);
    if w.noMultimatch {
      assert AllActive(w, s1);
      AllOnDelivers(w, s1, 0, all);
    } else {
      RunHitsDelivers(w, s1, 0, all);
    }
    if s2.ret == Success {
      FlushDelivers(w, s2, all);
    }
  }

  /** Flushing the queue after the last hit delivers all that is left. */
  lemma FlushDelivers(w: World, s: State, all: (seq<Report>, Ret))
    requires ScanOk(w) && Tolerated(w) && Promised(w, s, |w.hits|, all)
    ensures var (s', ret) := Catchup(w, s, NO_PATTERN, |w.data|, |w.data|);
            (s'.log, ret) == all
  {
    var k := |w.hits|;
    HitsInOrder(w);
    CatchupInv(w, s, k, NO_PATTERN, |w.data|, |w.data|);
    CatchupDelivers(w, s, k, NO_PATTERN, |w.data|, |w.data|);
    var (s', ret) := Catchup(w, s, NO_PATTERN, |w.data|, |w.data|);
    if ret == Success {
      forall x | x in Pending(w, s', NO_PATTERN) ensures false {
        assert !Queued(s', x.id);
        DormantIsLater(w, s', k, x);
      }
      assert Pending(w, s', NO_PATTERN) == {};
    }
  }
}
