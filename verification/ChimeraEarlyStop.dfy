/** Stopping Hyperscan early (chimera/ch_runtime.c:385-388 and 400-404) changes
    nothing a user can see. */
module ChimeraEarlyStop {
  import opened Chimera

  /** hs_scan with a callback that ends the scan only on a termination or an error. */
  function RunAllHits(w: World, s: State, k: nat): (r: State)
    requires ScanOk(w) && Wf(w, s) && k <= |w.hits|
    ensures Wf(w, r)
    decreases |w.hits| - k
  {
    if k == |w.hits| then s
    else
      assert HitInRange(w, w.hits[k]);
      var (s1, stop) := MultiCallback(w, s, w.hits[k]);
      if stop && s1.ret != Success then s1 else RunAllHits(w, s1, k + 1)
  }

  function ScanToTheEnd(w: World, pd: seq<PatternData>): (r: (State, Ret))
    requires ScanOk(w) && |pd| == |w.patterns|
  {
    var (s1, ret) := InitQueue(w, State([], {}, pd, [], Success), 0);
    if ret != Success then (s1, ret)
    else
      var s2 := if w.noMultimatch then s1 else RunAllHits(w, s1, 0);
      if s2.ret != Success then (s2, s2.ret)
      else Catchup(w, s2, NO_PATTERN, |w.data|, |w.data|)
  }

  /** Once every pattern is on, and all need confirming or all report once, a hit
      changes nothing. */
  lemma {:induction false} IdleHits(w: World, s: State, k: nat)
    requires ScanOk(w) && Wf(w, s) && k <= |w.hits| && s.ret == Success
    requires AllActive(w, s) && (w.allConfirm || w.allSingle)
    ensures RunAllHits(w, s, k) == s
    decreases |w.hits| - k
  {
    if k < |w.hits| {
      assert HitInRange(w, w.hits[k]);
      assert s.active + {w.hits[k].id} == s.active;
      IdleHits(w, s, k + 1);
    }
  }

  lemma {:induction false} RunHitsIsRunAllHits(w: World, s: State, k: nat)
    requires ScanOk(w) && Wf(w, s) && k <= |w.hits| && s.ret == Success
    ensures RunHits(w, s, k) == RunAllHits(w, s, k)
    decreases |w.hits| - k
  {
    if k < |w.hits| {
      assert HitInRange(w, w.hits[k]);
      var (s1, stop) := MultiCallback(w, s, w.hits[k]);
      if stop && s1.ret == Success {
        assert w.hits[k].id in s.active;
        assert s.active + {w.hits[k].id} == s.active;
        IdleHits(w, s1, k + 1);
      } else if !stop {
        StaysSuccess(w, s, w.hits[k]);
        RunHitsIsRunAllHits(w, s1, k + 1);
      }
    }
  }

  lemma StaysSuccess(w: World, s: State, h: Hit)
    requires Wf(w, s) && HitInRange(w, h) && s.ret == Success
    ensures var (s1, stop) := MultiCallback(w, s, h);
            !stop ==> s1.ret == Success
  {
  }

  lemma {:induction false} InitKeepsRet(w: World, s: State, i: nat)
    requires ScanOk(w) && Wf(w, s) && i <= |w.unguarded|
    ensures InitQueue(w, s, i).0.ret == s.ret
    decreases |w.unguarded| - i
  {
    if i < |w.unguarded| {
      var p := w.unguarded[i];
      var (s1, res) := ScanPcre(w, s.(active := s.active + {p}), 0, p);
      if res == Ok {
        InitKeepsRet(w, s1, i + 1);
      } else if res == Skipped {
        InitKeepsRet(w, s1.SetScanStart(p, |w.data|), i + 1);
      }
    }
  }

  /** The reports, their order and the result are those of a scan that lets
      Hyperscan run to the end, whatever the user replies and PCRE fails on. */
  lemma EarlyStopIsInvisible(w: World, pd: seq<PatternData>)
    requires ScanOk(w) && |pd| == |w.patterns|
    ensures Scan(w, pd) == ScanToTheEnd(w, pd)
  {
    var s0 := State([], {}, pd, [], Success);
    InitKeepsRet(w, s0, 0);
    var (s1, ret) := InitQueue(w, s0, 0);
    RunHitsIsRunAllHits(w, s1, 0);
  }
}
