/** What the user sees of a Chimera scan, said of the buffer's matches alone: which
    matches are reported, with what, in which order. */
module ChimeraCoverage {
  import opened Memory
  import opened Options
  import opened Utf8
  import opened MatchQueue
  import opened Chimera
  import opened ChimeraSafety
  import opened ChimeraDelivery
  import opened ChimeraFindAll
  import opened ChimeraUtf8

  /** A match of p that starts at f is reported. */
  ghost predicate StartsAt(log: seq<Report>, p: nat, f: nat) {
    exists i :: 0 <= i < |log| && log[i].item.id == p && log[i].item.from == f
  }

  /** Some reported match of p has f strictly inside. */
  ghost predicate Inside(log: seq<Report>, p: nat, f: nat) {
    exists i :: 0 <= i < |log| && log[i].item.id == p && log[i].item.from < f < log[i].item.to
  }

  /** The user never replied SKIP to a report of p. */
  ghost predicate NeverSkipped(w: World, log: seq<Report>, p: nat) {
    forall i :: 0 <= i < |log| && log[i].item.id == p ==> !w.onEvent(log[..i + 1]).SkipPattern?
  }

  ghost predicate NoErrors(w: World, p: nat) {
    forall start: nat :: w.failure(p, start).None?
  }

  // ------------------------------------------------------- find-all misses nothing

  /** The next scan starts no later than the next match that is not inside this one. */
  lemma StepMissesNothing(w: World, points: seq<seq<Byte>>, x: Item, f: nat)
    requires w.PcreOk() && Genuine(w, x) && x.from <= x.to && x.from < f && x.to <= f
    requires w.matchAt(x.id, f).Some? && (w.patterns[x.id].utf8 ==> Utf8World(w, points))
    ensures Step(w, x.id, x.from, x.to) <= f
  {
    var r := SkipContinuation(w.data, x.to + 1);
    if w.patterns[x.id].utf8 && x.from == x.to && f < r {
      SkipsContinuations(w.data, x.to + 1, f);
      BoundaryStarts(points, f);
    }
  }

  lemma {:induction false} FindAllCovers(w: World, points: seq<seq<Byte>>, p: nat, start: nat, f: nat)
      returns (x: Item)
    requires w.PcreOk() && p < |w.patterns| && NoErrors(w, p) && (w.patterns[p].utf8 ==> Utf8World(w, points))
    requires start <= f && w.matchAt(p, f).Some?
    ensures x in FindAll(w, p, start) && (x.from == f || x.from < f < x.to)
    decreases |w.data| + 1 - start
  {
    var m := FoundFrom(w, p, start).value;
    x := Item(m.from, m.to, p);
    if x.from < f && x.to <= f {
      StepMissesNothing(w, points, x, f);
      x := FindAllCovers(w, points, p, Step(w, p, m.from, m.to), f);
    }
  }

  /** The matches found do not overlap. */
  lemma {:induction false} FindAllApart(w: World, p: nat, start: nat, x: Item, y: Item)
    requires w.PcreOk() && p < |w.patterns|
    requires x in FindAll(w, p, start) && y in FindAll(w, p, start) && Less(x, y)
    ensures x.to <= y.from
    decreases |w.data| + 1 - start
  {
    var m := FoundFrom(w, p, start).value;
    var top := Item(m.from, m.to, p);
    var next := Step(w, p, m.from, m.to);
    if x == top {
      FindAllFrom(w, p, next);
    } else if y == top {
      FindAllAfter(w, top, x);
    } else {
      FindAllApart(w, p, next, x, y);
    }
  }

  /** The first match found is the leftmost. */
  lemma FindAllStarts(w: World, p: nat)
    requires w.PcreOk() && p < |w.patterns| && NoErrors(w, p)
    ensures match FirstMatch(w, p, 0)
            case None => FindAll(w, p, 0) == []
            case Some(m) => FindAll(w, p, 0) != [] && FindAll(w, p, 0)[0] == Item(m.from, m.to, p)
  {
  }

  // ------------------------------------------------------------- what is delivered

  lemma {:induction false} DeliverExtends(w: World, pending: set<Item>, log: seq<Report>)
    requires forall x :: x in pending ==> Genuine(w, x)
    ensures var log' := Deliver(w, pending, log).0;
            log <= log' && forall i :: |log| <= i < |log'| ==> log'[i].item in pending
    decreases pending
  {
    if pending != {} {
      var x := Least(pending);
      var log1 := log + [Report(x, CapturesOf(w, x))];
      match w.onEvent(log1)
      case Terminate =>
      case SkipPattern => DeliverExtends(w, Without(pending, x.id), log1);
      case Continue => DeliverExtends(w, pending - {x}, log1);
    }
  }

  /** Unless the user ends the scan or skips its pattern, a pending match is reported. */
  lemma {:induction false} DeliveredUnlessSkipped(w: World, pending: set<Item>, log: seq<Report>, x: Item)
    requires x in pending && forall y :: y in pending ==> Genuine(w, y)
    requires Deliver(w, pending, log).1 == Success && NeverSkipped(w, Deliver(w, pending, log).0, x.id)
    ensures Reported(Deliver(w, pending, log).0, x)
    decreases pending
  {
    var y := Least(pending);
    var log1 := log + [Report(y, CapturesOf(w, y))];
    var all := Deliver(w, pending, log).0;
    var rest := if w.onEvent(log1).SkipPattern? then Without(pending, y.id) else pending - {y};
    DeliverExtends(w, rest, log1);
    assert all[..|log| + 1] == log1 && all[|log|] == log1[|log|];
    if x != y {
      assert x in rest;
      DeliveredUnlessSkipped(w, rest, log1, x);
    }
  }

  /** What is reported is expected. */
  lemma ReportsAreExpected(w: World, pd: seq<PatternData>, i: nat)
    requires ScanOk(w) && Tolerated(w) && |pd| == |w.patterns| && i < |Scan(w, pd).0.log|
    ensures var x := Scan(w, pd).0.log[i].item; Genuine(w, x) && x in Expected(w, x.id)
  {
    hide Scan, HitsOk, Tolerated, Deliver, Expected;
    ScanDelivers(w, pd);
    DeliverExtends(w, AllExpected(w), []);
  }

  lemma ExpectedIsReported(w: World, pd: seq<PatternData>, x: Item)
    requires ScanOk(w) && Tolerated(w) && |pd| == |w.patterns| && Genuine(w, x) && x in Expected(w, x.id)
    requires var (s, ret) := Scan(w, pd); ret == Success && NeverSkipped(w, s.log, x.id)
    ensures Reported(Scan(w, pd).0.log, x)
  {
    hide Scan, HitsOk, Tolerated, Deliver, Expected, NeverSkipped, Reported;
    ScanDelivers(w, pd);
    DeliveredUnlessSkipped(w, AllExpected(w), [], x);
  }

  // -------------------------------------------------------------------- the laws

  /** Two reports of one pattern never overlap, whatever the user replies. */
  lemma ReportsDoNotOverlap(w: World, pd: seq<PatternData>, i: nat, j: nat)
    requires ScanOk(w) && Tolerated(w) && |pd| == |w.patterns| && i < j < |Scan(w, pd).0.log|
    requires Scan(w, pd).0.log[i].item.id == Scan(w, pd).0.log[j].item.id
    ensures Scan(w, pd).0.log[i].item.to <= Scan(w, pd).0.log[j].item.from
  {
    hide Scan, HitsOk, Tolerated, FindAll;
    var log := Scan(w, pd).0.log;
    ReportsAreExpected(w, pd, i);
    ReportsAreExpected(w, pd, j);
    ScanIsSafe(w, pd);
    var x, y := log[i].item, log[j].item;
    assert Less(x, y);
    FindAllApart(w, x.id, 0, x, y);
  }

  /** Which matches are reported, if the scan is not ended and the pattern not skipped:
      those that do not start strictly inside a reported one. */
  lemma ReportedIff(w: World, pd: seq<PatternData>, points: seq<seq<Byte>>, p: nat, f: nat)
    requires ScanOk(w) && Tolerated(w) && |pd| == |w.patterns|
    requires p < |w.patterns| && !w.patterns[p].single && NoErrors(w, p)
    requires w.patterns[p].utf8 ==> Utf8World(w, points)
    requires var (s, ret) := Scan(w, pd); ret == Success && NeverSkipped(w, s.log, p)
    ensures var log := Scan(w, pd).0.log;
            StartsAt(log, p, f) <==> w.matchAt(p, f).Some? && !Inside(log, p, f)
  {
    hide Scan, HitsOk, Tolerated, FindAll, NeverSkipped, Utf8World, NoErrors;
    var log := Scan(w, pd).0.log;
    if StartsAt(log, p, f) {
      var j :| 0 <= j < |log| && log[j].item.id == p && log[j].item.from == f;
      ReportsAreExpected(w, pd, j);
      if i :| 0 <= i < |log| && log[i].item.id == p && log[i].item.from < f < log[i].item.to {
        if i < j {
          ReportsDoNotOverlap(w, pd, i, j);
        } else if j < i {
          ReportsDoNotOverlap(w, pd, j, i);
        }
      }
    }
    if w.matchAt(p, f).Some? {
      var x := FindAllCovers(w, points, p, 0, f);
      FindAllFrom(w, p, 0);
      ExpectedIsReported(w, pd, x);
      var i :| 0 <= i < |log| && log[i].item == x;
    }
  }

  /** A SINGLEMATCH pattern reports its leftmost match and no other. */
  lemma SingleReportedIff(w: World, pd: seq<PatternData>, p: nat, f: nat)
    requires ScanOk(w) && Tolerated(w) && |pd| == |w.patterns|
    requires p < |w.patterns| && w.patterns[p].single && NoErrors(w, p)
    requires var (s, ret) := Scan(w, pd); ret == Success && NeverSkipped(w, s.log, p)
    ensures var log := Scan(w, pd).0.log;
            StartsAt(log, p, f) <==> w.matchAt(p, f).Some? && forall g: nat :: g < f ==> w.matchAt(p, g).None?
  {
    var log := Scan(w, pd).0.log;
    FindAllStarts(w, p);
    FindAllFrom(w, p, 0);
    hide Scan, HitsOk, Tolerated, FindAll, NeverSkipped, NoErrors;
    if StartsAt(log, p, f) {
      var j :| 0 <= j < |log| && log[j].item.id == p && log[j].item.from == f;
      ReportsAreExpected(w, pd, j);
    }
    if w.matchAt(p, f).Some? && forall g: nat :: g < f ==> w.matchAt(p, g).None? {
      var x := FindAll(w, p, 0)[0];
      assert x.from == f;
      ExpectedIsReported(w, pd, x);
      var i :| 0 <= i < |log| && log[i].item == x;
    }
  }

  /** Over any scan, with any errors and replies: each report is the match at its start,
      with the captures of that match if the database asks for them, and reports come
      by end, then start, then pattern. */
  lemma ReportsAreMatchesInOrder(w: World, pd: seq<PatternData>, i: nat)
    requires ScanOk(w) && |pd| == |w.patterns| && i < |Scan(w, pd).0.log|
    ensures var log := Scan(w, pd).0.log;
            var (x, groups) := (log[i].item, log[i].groups);
            var m := w.matchAt(x.id, x.from);
            && m.Some? && m.value.to == x.to && groups == (if w.groups then m.value.groups else [])
            && forall j :: i < j < |log| ==>
                 var y := log[j].item;
                 x.to < y.to || (x.to == y.to && (x.from < y.from || (x.from == y.from && x.id < y.id)))
  {
    hide Scan, HitsOk;
    ScanIsSafe(w, pd);
    var log := Scan(w, pd).0.log;
    assert log[i] in log;
  }

  // ------------------------------------------------------------------ how it ends

  /** Only the last report is answered with TERMINATE, if any. */
  ghost predicate EndsWhenTold(w: World, log: seq<Report>, from: nat, ret: Ret) {
    && (ret == Success || ret == ScanTerminated)
    && forall i :: from <= i < |log| ==>
         (Told(w, log, i) <==> i == |log| - 1 && ret == ScanTerminated)
  }

  /** The i-th report was answered with TERMINATE. */
  ghost predicate Told(w: World, log: seq<Report>, i: nat)
    requires i < |log|
  {
    w.onEvent(log[..i + 1]).Terminate?
  }

  lemma {:induction false} DeliverEndsWhenTold(w: World, pending: set<Item>, log: seq<Report>)
    requires forall x :: x in pending ==> Genuine(w, x)
    ensures var (log', ret) := Deliver(w, pending, log);
            log <= log' && EndsWhenTold(w, log', |log|, ret) && (ret == ScanTerminated ==> |log| < |log'|)
    decreases pending
  {
    if pending != {} {
      var x := Least(pending);
      var log1 := log + [Report(x, CapturesOf(w, x))];
      var (log', ret) := Deliver(w, pending, log);
      match w.onEvent(log1)
      case Terminate => assert log'[..|log| + 1] == log1;
      case SkipPattern =>
        DeliverEndsWhenTold(w, Without(pending, x.id), log1);
        assert log'[..|log| + 1] == log1;
      case Continue =>
        DeliverEndsWhenTold(w, pending - {x}, log1);
        assert log'[..|log| + 1] == log1;
    }
  }

  /** A scan ends early exactly when a report is answered with TERMINATE, and that
      report is its last. */
  lemma TerminateEndsScan(w: World, pd: seq<PatternData>)
    requires ScanOk(w) && Tolerated(w) && |pd| == |w.patterns|
    ensures var (s, ret) := Scan(w, pd);
            EndsWhenTold(w, s.log, 0, ret) && (ret == ScanTerminated ==> s.log != [])
  {
    hide Scan, HitsOk, Tolerated, Deliver, EndsWhenTold;
    ScanDelivers(w, pd);
    DeliverEndsWhenTold(w, AllExpected(w), []);
  }

  /** Nothing of a pattern is reported after a report of it was answered with SKIP, or
      after its first report if it is SINGLEMATCH; with any errors. */
  lemma SkippedIsSilent(w: World, pd: seq<PatternData>, i: nat, j: nat)
    requires ScanOk(w) && |pd| == |w.patterns| && i < j < |Scan(w, pd).0.log|
    requires Scan(w, pd).0.log[i].item.id == Scan(w, pd).0.log[j].item.id
    ensures var log := Scan(w, pd).0.log;
            && log[i].item.id < |w.patterns| && !w.patterns[log[i].item.id].single
            && !w.onEvent(log[..i + 1]).SkipPattern?
  {
    hide Scan, HitsOk;
    ScanIsSafe(w, pd);
    assert Scan(w, pd).0.log[i] in Scan(w, pd).0.log;
  }
}
