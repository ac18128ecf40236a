/** Report deduplication (dedupeCatchup in src/report.h): two logs of report keys, one
    for even and one for odd offsets, stand in for the set of everything reported. */
module Dedupe {

  /** The all-ones value current_report_offset holds before the first report. */
  const NO_OFFSET: nat := 0xffff_ffff_ffff_ffff
  const U64: nat := 0x1_0000_0000_0000_0000

  /** A report without start of match, raised at `offset` for a match that ends at
      `to`; only external and quashed reports are logged. */
  datatype Report = Report(offset: nat, to: nat, dkey: nat, logged: bool)

  datatype Verdict = Continue | Skip

  /** The logs are bit sets over report keys. */
  datatype Deduper = Deduper(current: nat, even: set<nat>, odd: set<nat>)

  function Log(d: Deduper, offset: nat): set<nat> {
    if offset % 2 == 0 then d.even else d.odd
  }

  function WithLog(d: Deduper, offset: nat, log: set<nat>): Deduper {
    if offset % 2 == 0 then d.(even := log) else d.(odd := log)
  }

  /** Moving on to an offset: the next one reuses the log of the one before last. */
  function MoveTo(d: Deduper, offset: nat): Deduper {
    if offset == d.current then d
    else if offset == (d.current + 1) % U64 then WithLog(d, offset, {}).(current := offset)
    else Deduper(offset, {}, {})
  }

  function Step(d: Deduper, r: Report): (Deduper, Verdict) {
    var m := MoveTo(d, r.offset);
    if !r.logged then (m, Continue)
    else if r.dkey in Log(m, r.to) then (m, Skip)
    else (WithLog(m, r.to, Log(m, r.to) + {r.dkey}), Continue)
  }

  /** Reports of one scan: offsets do not go down, and a match ends where it is raised
      or one byte before. */
  predicate InOrder(rs: seq<Report>) {
    && (forall i :: 0 <= i < |rs| ==>
          rs[i].offset < NO_OFFSET && (rs[i].to == rs[i].offset || rs[i].to + 1 == rs[i].offset))
    && (forall i, j :: 0 <= i < j < |rs| ==> rs[i].offset <= rs[j].offset)
  }

  /** The logs after these reports, from logs left over from anything. */
  function After(even: set<nat>, odd: set<nat>, rs: seq<Report>): Deduper {
    if rs == [] then Deduper(NO_OFFSET, even, odd)
    else Step(After(even, odd, rs[..|rs| - 1]), rs[|rs| - 1]).0
  }

  /** Among these reports there is one with this key and end. */
  ghost predicate Seen(rs: seq<Report>, dkey: nat, to: nat) {
    exists i :: 0 <= i < |rs| && Logs(rs[i], dkey, to)
  }

  predicate Logs(r: Report, dkey: nat, to: nat) {
    r.logged && r.dkey == dkey && r.to == to
  }

  /** The logs tell the last two offsets apart and remember nothing else. */
  ghost predicate Refines(d: Deduper, rs: seq<Report>) {
    if rs == [] then d.current == NO_OFFSET
    else
      && d.current == rs[|rs| - 1].offset
      && (forall dkey: nat, to: nat {:trigger Seen(rs, dkey, to)} :: d.current <= to + 1 && to <= d.current ==>
            (dkey in Log(d, to) <==> Seen(rs, dkey, to)))
  }

  lemma SeenGrows(rs: seq<Report>, dkey: nat, to: nat)
    requires InOrder(rs) && rs != []
    ensures InOrder(rs[..|rs| - 1])
    ensures Seen(rs, dkey, to) <==> Seen(rs[..|rs| - 1], dkey, to) || Logs(rs[|rs| - 1], dkey, to)
  {
    var k := |rs| - 1;
    if Seen(rs[..k], dkey, to) {
      var i :| 0 <= i < |rs[..k]| && Logs(rs[..k][i], dkey, to);
      assert Logs(rs[i], dkey, to);
    }
    if Seen(rs, dkey, to) {
      var i :| 0 <= i < |rs| && Logs(rs[i], dkey, to);
      if i < k {
        assert Logs(rs[..k][i], dkey, to);
      }
    }
  }

  /** Nothing ends after the last offset. */
  lemma SeenBefore(rs: seq<Report>, dkey: nat, to: nat)
    requires InOrder(rs) && Seen(rs, dkey, to)
    ensures rs != [] && to <= rs[|rs| - 1].offset
  {
    var i :| 0 <= i < |rs| && Logs(rs[i], dkey, to);
    if i < |rs| - 1 {
      assert rs[i].offset <= rs[|rs| - 1].offset;
    }
  }

  /** Moving to the offset of the next report keeps what can still be asked about. */
  lemma MoveRefines(d: Deduper, rs: seq<Report>, offset: nat, dkey: nat, to: nat)
    requires InOrder(rs) && Refines(d, rs) && offset < NO_OFFSET
    requires rs != [] ==> rs[|rs| - 1].offset <= offset
    requires offset <= to + 1 && to <= offset
    ensures MoveTo(d, offset).current == offset
    ensures dkey in Log(MoveTo(d, offset), to) <==> Seen(rs, dkey, to)
  {
    if Seen(rs, dkey, to) {
      SeenBefore(rs, dkey, to);
    }
  }

  lemma {:induction false} LogsRefine(even: set<nat>, odd: set<nat>, rs: seq<Report>)
    requires InOrder(rs)
    ensures Refines(After(even, odd, rs), rs)
  {
    if rs != [] {
      var k := |rs| - 1;
      assert InOrder(rs[..k]);
      LogsRefine(even, odd, rs[..k]);
      var d, r := After(even, odd, rs[..k]), rs[k];
      var e := Step(d, r).0;
      forall dkey: nat, to: nat | e.current <= to + 1 && to <= e.current
        ensures dkey in Log(e, to) <==> Seen(rs, dkey, to)
      {
        StepRefines(d, rs, dkey, to);
      }
    }
  }

  lemma StepRefines(d: Deduper, rs: seq<Report>, dkey: nat, to: nat)
    requires rs != [] && InOrder(rs) && InOrder(rs[..|rs| - 1]) && Refines(d, rs[..|rs| - 1])
    requires rs[|rs| - 1].offset <= to + 1 && to <= rs[|rs| - 1].offset
    ensures Step(d, rs[|rs| - 1]).0.current == rs[|rs| - 1].offset
    ensures dkey in Log(Step(d, rs[|rs| - 1]).0, to) <==> Seen(rs, dkey, to)
  {
    hide Seen, Refines;
    var k := |rs| - 1;
    assert k > 0 ==> rs[k - 1].offset <= rs[k].offset;
    MoveRefines(d, rs[..k], rs[k].offset, dkey, to);
    SeenGrows(rs, dkey, to);
  }

  /** CONTINUE is returned for exactly the first logged report with each key and end,
      whatever the logs held before, and for every report that is not logged. */
  lemma FirstReportContinues(even: set<nat>, odd: set<nat>, rs: seq<Report>, i: nat)
    requires InOrder(rs) && i < |rs|
    ensures Step(After(even, odd, rs[..i]), rs[i]).1 == Continue
            <==> !rs[i].logged
                 || forall j :: 0 <= j < i && rs[j].logged && rs[j].to == rs[i].to ==> rs[j].dkey != rs[i].dkey
  {
    var before := rs[..i];
    LogsRefine(even, odd, before);
    var d := After(even, odd, before);
    assert i > 0 ==> rs[i - 1].offset <= rs[i].offset;
    MoveRefines(d, before, rs[i].offset, rs[i].dkey, rs[i].to);
    hide Refines, After, MoveTo;
    if Seen(before, rs[i].dkey, rs[i].to) {
      var j :| 0 <= j < |before| && Logs(before[j], rs[i].dkey, rs[i].to);
      assert Logs(rs[j], rs[i].dkey, rs[i].to);
    }
    if j :| 0 <= j < i && rs[j].logged && rs[j].to == rs[i].to && rs[j].dkey == rs[i].dkey {
      assert Logs(before[j], rs[i].dkey, rs[i].to);
    }
  }

  /** struct match_deduper: the two logs are an array indexed by parity. */
  class MatchDeduper {
    const log: array<set<nat>>
    var currentReportOffset: nat

    ghost predicate Valid()
      reads this, log
    {
      log.Length == 2
    }

    ghost function Abstract(): Deduper
      requires Valid()
      reads this, log
    {
      Deduper(currentReportOffset, log[0], log[1])
    }

    constructor ()
      ensures Valid() && fresh(log)
    {
      log := new set<nat>[2];
      currentReportOffset := NO_OFFSET;
    }

    /** populateCoreInfo, at the start of each scan: the logs are not cleared. */
    method Start()
      requires Valid()
      modifies this
      ensures Valid() && Abstract() == old(Abstract()).(current := NO_OFFSET)
    {
      currentReportOffset := NO_OFFSET;
    }

    /** dedupeCatchup without start of match. */
    method DedupeCatchup(r: Report) returns (verdict: Verdict)
      requires Valid()
      modifies this, log
      ensures Valid() && (Abstract(), verdict) == Step(old(Abstract()), r)
    {
      if r.offset != currentReportOffset {
        if r.offset == (currentReportOffset + 1) % U64 {
          log[r.offset % 2] := {};
        } else {
          log[0] := {};
          log[1] := {};
        }
        currentReportOffset := r.offset;
      }
      if r.logged {
        var to := r.to;
        if r.dkey in log[to % 2] {
          return Skip;
        }
        log[to % 2] := log[to % 2] + {r.dkey};
      }
      return Continue;
    }
  }
}
