/** With a user who always replies CONTINUE, the reports of each pattern are its
    leftmost non-overlapping matches, in order. */
module ChimeraFindAll {
  import opened MatchQueue
  import opened Chimera
  import opened ChimeraSafety
  import opened ChimeraDelivery

  ghost predicate Ascending(q: seq<Item>) {
    forall i, j :: 0 <= i < j < |q| ==> Less(q[i], q[j])
  }

  /** A set of items has only one ascending listing. */
  lemma {:induction false} AscendingIsUnique(a: seq<Item>, b: seq<Item>)
    requires Ascending(a) && Ascending(b)
    requires forall x :: x in a <==> x in b
    ensures a == b
  {
    assert b != [] ==> b[0] in b;
    if a != [] {
      assert a[0] in a && a[0] in b;
      assert b[0] in b && b[0] in a;
      assert a[0] == b[0];
      forall x ensures x in a[1..] <==> x in b[1..] {
        TailHolds(a, x);
        TailHolds(b, x);
      }
      AscendingIsUnique(a[1..], b[1..]);
    }
  }

  lemma TailHolds(a: seq<Item>, x: Item)
    requires Ascending(a) && a != []
    ensures x in a[1..] <==> x in a && x != a[0]
  {
    if x in a && x != a[0] {
      var i :| 0 <= i < |a| && a[i] == x;
      assert x == a[1..][i - 1];
    }
  }

  lemma {:induction false} FindAllAscends(w: World, p: nat, start: nat)
    requires w.PcreOk() && p < |w.patterns|
    ensures Ascending(FindAll(w, p, start))
    decreases |w.data| + 1 - start
  {
    if start <= |w.data| && FoundFrom(w, p, start).Some? {
      var m := FoundFrom(w, p, start).value;
      var x := Item(m.from, m.to, p);
      var rest := FindAll(w, p, Step(w, p, m.from, m.to));
      FindAllAscends(w, p, Step(w, p, m.from, m.to));
      forall j | 0 <= j < |rest| ensures Less(x, rest[j]) {
        FindAllAfter(w, x, rest[j]);
      }
    }
  }

  ghost predicate Reported(log: seq<Report>, x: Item) {
    exists i :: 0 <= i < |log| && log[i].item == x
  }

  lemma ReportedAppend(log: seq<Report>, r: Report, x: Item)
    ensures Reported(log + [r], x) <==> Reported(log, x) || x == r.item
  {
    var log' := log + [r];
    assert log'[|log|].item == r.item;
    if Reported(log, x) {
      var i :| 0 <= i < |log| && log[i].item == x;
      assert log'[i].item == x;
    }
  }

  /** The items reported for pattern p, in order. */
  ghost function ReportsOf(log: seq<Report>, p: nat): seq<Item> {
    if log == [] then []
    else
      var n := |log| - 1;
      ReportsOf(log[..n], p) + if log[n].item.id == p then [log[n].item] else []
  }

  lemma {:induction false} ReportsOfHolds(log: seq<Report>, p: nat, x: Item)
    ensures x in ReportsOf(log, p) <==> x.id == p && Reported(log, x)
  {
    if log != [] {
      var n := |log| - 1;
      ReportsOfHolds(log[..n], p, x);
      assert log == log[..n] + [log[n]];
      ReportedAppend(log[..n], log[n], x);
    }
  }

  lemma {:induction false} ReportsOfAscends(log: seq<Report>, p: nat)
    requires forall i, j :: 0 <= i < j < |log| ==> Less(log[i].item, log[j].item)
    ensures Ascending(ReportsOf(log, p))
  {
    if log != [] {
      var n := |log| - 1;
      var most := ReportsOf(log[..n], p);
      ReportsOfAscends(log[..n], p);
      forall j | 0 <= j < |most| ensures Less(most[j], log[n].item) {
        ReportsOfHolds(log[..n], p, most[j]);
        assert most[j] in most;
      }
    }
  }

  ghost predicate AlwaysContinues(w: World) {
    forall log: seq<Report> :: w.onEvent(log).Continue?
  }

  /** Nothing pending is lost when the user never stops or skips. */
  lemma {:induction false} DeliversEverything(w: World, pending: set<Item>, log: seq<Report>, x: Item)
    requires AlwaysContinues(w) && forall y :: y in pending ==> Genuine(w, y)
    ensures var (log', ret) := Deliver(w, pending, log);
            ret == Success && (Reported(log', x) <==> x in pending || Reported(log, x))
    decreases pending
  {
    if pending != {} {
      var y := Least(pending);
      var r := Report(y, CapturesOf(w, y));
      ReportedAppend(log, r, x);
      DeliversEverything(w, pending - {y}, log + [r], x);
    }
  }

  lemma ExpectedAscends(w: World, p: nat)
    requires w.PcreOk() && p < |w.patterns|
    ensures Ascending(Expected(w, p))
    ensures forall x :: x in Expected(w, p) ==> x.id == p && Genuine(w, x)
  {
    FindAllAscends(w, p, 0);
    FindAllFrom(w, p, 0);
  }

  /** The reports of every pattern are exactly its find-all sequence, or its first
      match for a SINGLEMATCH pattern. */
  lemma ReportsAreFindAll(w: World, pd: seq<PatternData>, p: nat)
    requires ScanOk(w) && Tolerated(w) && AlwaysContinues(w) && |pd| == |w.patterns| && p < |w.patterns|
    ensures var (s, ret) := Scan(w, pd);
            ret == Success && ReportsOf(s.log, p) == Expected(w, p)
  {
    var log := Scan(w, pd).0.log;
    ScanDelivers(w, pd);
    ScanIsSafe(w, pd);
    ReportsOfAscends(log, p);
    ExpectedAscends(w, p);
    hide Scan, ScanOk, LogOk, Deliver, Expected, FindAll;
    forall x ensures x in ReportsOf(log, p) <==> x in Expected(w, p) {
      ReportsOfHolds(log, p, x);
      DeliversEverything(w, AllExpected(w), [], x);
    }
    DeliversEverything(w, AllExpected(w), [], Item(0, 0, p));
    AscendingIsUnique(ReportsOf(log, p), Expected(w, p));
  }
}
