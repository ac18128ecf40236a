/** Logical combinations (src/report.h): formulas over patterns, stored as a list of
    operations and evaluated in place in a vector of truth values. */
module LogicalCombination {

  /** LogicalOp: `lo` is not read by a negation. */
  datatype Kind = Not | And | Or
  datatype Op = Op(kind: Kind, lo: nat, ro: nat)

  /** What an operation stands for, written out down to the slots it starts from. */
  datatype Formula =
    | Slot(n: nat)
    | Negation(f: Formula)
    | Conjunction(l: Formula, r: Formula)
    | Disjunction(l: Formula, r: Formula)

  predicate Eval(f: Formula, v: seq<bool>) {
    match f
    case Slot(n) => n < |v| && v[n]
    case Negation(g) => !Eval(g, v)
    case Conjunction(l, r) => Eval(l, v) && Eval(r, v)
    case Disjunction(l, r) => Eval(l, v) || Eval(r, v)
  }

  function OpAt(ops: seq<Op>, keys: nat, i: nat): Op
    requires keys <= i < keys + |ops|
  {
    ops[i - keys]
  }

  /** Slots below `keys` are patterns; slot keys + i is the result of ops[i]. The
      operations from `start` to `result` refer to slots before their own. */
  predicate Ordered(ops: seq<Op>, keys: nat, start: nat, result: nat) {
    && keys <= start <= result < keys + |ops|
    && forall i :: start <= i <= result ==> Refers(OpAt(ops, keys, i), i)
  }

  predicate Refers(op: Op, i: nat) {
    op.ro < i && (op.kind != Not ==> op.lo < i)
  }

  /** The formula of slot i. */
  function Tree(ops: seq<Op>, keys: nat, start: nat, result: nat, i: nat): Formula
    requires Ordered(ops, keys, start, result) && i <= result
  {
    if i < start then Slot(i)
    else
      var op := OpAt(ops, keys, i);
      assert Refers(op, i);
      match op.kind
      case Not => Negation(Tree(ops, keys, start, result, op.ro))
      case And => Conjunction(Tree(ops, keys, start, result, op.lo), Tree(ops, keys, start, result, op.ro))
      case Or => Disjunction(Tree(ops, keys, start, result, op.lo), Tree(ops, keys, start, result, op.ro))
  }

  function Apply(op: Op, v: seq<bool>): bool
    requires op.ro < |v| && (op.kind != Not ==> op.lo < |v|)
  {
    match op.kind
    case Not => !v[op.ro]
    case And => v[op.lo] && v[op.ro]
    case Or => v[op.lo] || v[op.ro]
  }

  /** The slots before `end` hold the values of their formulas over `leaves`. */
  ghost predicate Holds(ops: seq<Op>, keys: nat, start: nat, result: nat, leaves: seq<bool>, v: seq<bool>, end: nat)
    requires Ordered(ops, keys, start, result) && end <= result + 1
  {
    && |v| == |leaves| == keys + |ops|
    && (forall j :: 0 <= j < end ==> v[j] == Eval(Tree(ops, keys, start, result, j), leaves))
    && (forall j :: end <= j < |v| ==> v[j] == leaves[j])
  }

  /** One operation gives its slot the value of its formula. */
  lemma ApplyHolds(ops: seq<Op>, keys: nat, start: nat, result: nat, leaves: seq<bool>, v: seq<bool>, i: nat)
    requires Ordered(ops, keys, start, result) && start <= i <= result
    requires Holds(ops, keys, start, result, leaves, v, i)
    ensures Refers(OpAt(ops, keys, i), i)
    ensures Holds(ops, keys, start, result, leaves, v[i := Apply(OpAt(ops, keys, i), v)], i + 1)
  {
    var op := OpAt(ops, keys, i);
    assert Refers(op, i);
    assert v[op.ro] == Eval(Tree(ops, keys, start, result, op.ro), leaves);
    if op.kind != Not {
      assert v[op.lo] == Eval(Tree(ops, keys, start, result, op.lo), leaves);
    }
  }

  lemma StartHolds(ops: seq<Op>, keys: nat, start: nat, result: nat, leaves: seq<bool>)
    requires Ordered(ops, keys, start, result) && |leaves| == keys + |ops|
    ensures Holds(ops, keys, start, result, leaves, leaves, start)
  {}

  /** isLogicalCombination: every slot of the range ends with the value of its formula
      over the vector as it was, and no other slot changes. */
  method IsLogicalCombination(ops: seq<Op>, keys: nat, lvec: array<bool>, start: nat, result: nat) returns (r: bool)
    requires Ordered(ops, keys, start, result) && lvec.Length == keys + |ops|
    modifies lvec
    ensures Holds(ops, keys, start, result, old(lvec[..]), lvec[..], result + 1)
    ensures r == Eval(Tree(ops, keys, start, result, result), old(lvec[..]))
  {
    hide Eval, Tree;
    ghost var leaves := lvec[..];
    StartHolds(ops, keys, start, result, leaves);
    var i := start;
    while i <= result
      invariant start <= i <= result + 1
      invariant Holds(ops, keys, start, result, leaves, lvec[..], i)
    {
      var op := OpAt(ops, keys, i);
      ApplyHolds(ops, keys, start, result, leaves, lvec[..], i);
      ghost var v := lvec[..];
      match op.kind {
        case Not => lvec[i] := !lvec[op.ro];
        case And => lvec[i] := lvec[op.lo] && lvec[op.ro];
        case Or => lvec[i] := lvec[op.lo] || lvec[op.ro];
      }
      assert lvec[..] == v[i := Apply(op, v)];
      i := i + 1;
    }
    return lvec[result];
  }

  /** The operation reads no pattern that is on. */
  predicate Quiet(op: Op, keys: nat, v: seq<bool>) {
    && !(op.ro < keys && op.ro < |v| && v[op.ro])
    && !(op.kind != Not && op.lo < keys && op.lo < |v| && v[op.lo])
  }

  predicate AllQuiet(ops: seq<Op>, keys: nat, start: nat, end: nat, v: seq<bool>)
    requires keys <= start <= end <= keys + |ops|
  {
    forall i :: start <= i < end ==> Quiet(OpAt(ops, keys, i), keys, v)
  }

  /** isPurelyNegativeMatch: true exactly when no pattern the range reads is on and the
      formula holds; no pattern's own slot changes. */
  method IsPurelyNegativeMatch(ops: seq<Op>, keys: nat, lvec: array<bool>, start: nat, result: nat) returns (r: bool)
    requires Ordered(ops, keys, start, result) && lvec.Length == keys + |ops|
    modifies lvec
    ensures r <==> AllQuiet(ops, keys, start, result + 1, old(lvec[..]))
                   && Eval(Tree(ops, keys, start, result, result), old(lvec[..]))
    ensures lvec[..start] == old(lvec[..start]) && lvec[result + 1..] == old(lvec[result + 1..])
  {
    hide Eval, Tree;
    ghost var leaves := lvec[..];
    StartHolds(ops, keys, start, result, leaves);
    var i := start;
    while i <= result
      invariant start <= i <= result + 1
      invariant Holds(ops, keys, start, result, leaves, lvec[..], i)
      invariant lvec[..start] == leaves[..start]
      invariant AllQuiet(ops, keys, start, i, leaves)
    {
      var op := OpAt(ops, keys, i);
      ApplyHolds(ops, keys, start, result, leaves, lvec[..], i);
      SameQuiet(op, keys, start, leaves, lvec[..]);
      ghost var v := lvec[..];
      match op.kind {
        case Not =>
          if op.ro < keys && lvec[op.ro] {
            return false;
          }
          lvec[i] := !lvec[op.ro];
        case And =>
          if (op.lo < keys && lvec[op.lo]) || (op.ro < keys && lvec[op.ro]) {
            return false;
          }
          lvec[i] := lvec[op.lo] && lvec[op.ro];
        case Or =>
          if (op.lo < keys && lvec[op.lo]) || (op.ro < keys && lvec[op.ro]) {
            return false;
          }
          lvec[i] := lvec[op.lo] || lvec[op.ro];
      }
      assert lvec[..] == v[i := Apply(op, v)];
      i := i + 1;
    }
    return lvec[result];
  }

  lemma SameQuiet(op: Op, keys: nat, start: nat, a: seq<bool>, b: seq<bool>)
    requires keys <= start <= |a| == |b| && a[..start] == b[..start]
    ensures Quiet(op, keys, a) == Quiet(op, keys, b)
  {
    assert op.ro < keys ==> a[op.ro] == a[..start][op.ro] && b[op.ro] == b[..start][op.ro];
    assert op.lo < keys ==> a[op.lo] == a[..start][op.lo] && b[op.lo] == b[..start][op.lo];
  }

  // ------------------------------------------------------- when no pattern has matched

  /** The range refers to patterns and to its own slots only. */
  predicate Closed(ops: seq<Op>, keys: nat, start: nat, result: nat)
    requires Ordered(ops, keys, start, result)
  {
    forall i :: start <= i <= result ==>
      var op := OpAt(ops, keys, i);
      (op.ro < keys || start <= op.ro) && (op.kind != Not ==> op.lo < keys || start <= op.lo)
  }

  /** A quiet range has the value its formula has when every pattern is off: the
      combination that is reported matches although no sub-expression does. */
  lemma {:induction false} QuietIsAllOff(
      ops: seq<Op>, keys: nat, start: nat, result: nat, v: seq<bool>, off: seq<bool>, i: nat)
    requires Ordered(ops, keys, start, result) && Closed(ops, keys, start, result) && |v| == keys + |ops|
    requires AllQuiet(ops, keys, start, result + 1, v)
    requires forall j :: 0 <= j < |off| ==> !off[j]
    requires start <= i <= result
    ensures Eval(Tree(ops, keys, start, result, i), v) == Eval(Tree(ops, keys, start, result, i), off)
    decreases i
  {
    var op := OpAt(ops, keys, i);
    assert Refers(op, i) && Quiet(op, keys, v);
    if op.ro >= keys {
      QuietIsAllOff(ops, keys, start, result, v, off, op.ro);
    }
    if op.kind != Not && op.lo >= keys {
      QuietIsAllOff(ops, keys, start, result, v, off, op.lo);
    }
  }
}
