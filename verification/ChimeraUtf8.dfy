/** On well-formed UTF-8, a Chimera scan never starts PCRE inside a code point. */
module ChimeraUtf8 {
  import opened Memory
  import opened Utf8
  import opened MatchQueue
  import opened Chimera
  import opened ChimeraSafety

  /** The buffer spells the code points, and the matches of UTF-8 patterns begin and
      end between them. */
  ghost predicate Utf8World(w: World, points: seq<seq<Byte>>) {
    && AllCodePoints(points) && w.data == Text(points)
    && forall p: nat, f: nat :: p < |w.patterns| && w.patterns[p].utf8 && w.matchAt(p, f).Some? ==>
         Boundary(points, f) && Boundary(points, w.matchAt(p, f).value.to)
  }

  /** PCRE may be asked to start at i: at a boundary, or past the end, where no scan
      is made. */
  ghost predicate StartOk(points: seq<seq<Byte>>, i: nat) {
    Boundary(points, i) || i > |Text(points)|
  }

  /** The next scan after a match of a UTF-8 pattern starts between code points. */
  lemma StepStartsOk(w: World, points: seq<seq<Byte>>, x: Item)
    requires Utf8World(w, points) && Genuine(w, x) && x.from <= x.to && w.patterns[x.id].utf8
    ensures StartOk(points, Step(w, x.id, x.from, x.to))
  {
    StepKeepsBoundary(points, x.to);
  }

  /** Whatever the engines find and the user replies, in every state of a scan the
      next scan of a queued UTF-8 pattern starts between code points. */
  lemma QueuedStartsOk(w: World, points: seq<seq<Byte>>, s: State, k: nat, open: nat)
    requires Inv(w, s, k, open) && Utf8World(w, points)
    ensures forall x :: x in s.queue && w.patterns[x.id].utf8 ==> StartOk(points, s.pd[x.id].scanStart)
  {
    forall x | x in s.queue && w.patterns[x.id].utf8 ensures StartOk(points, s.pd[x.id].scanStart) {
      assert ItemOk(w, s, x);
      StepStartsOk(w, points, x);
    }
  }
}
