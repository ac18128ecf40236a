/** NodeCounter (scripts/regex_ast.py): the node counts of the standardized tree,
    computed from the original expression without building the tree. */
module NodeCounter {
  import opened Options
  import opened Language
  import opened Standardizer

  /** Counts by node type. A key the dictionary lacks reads as zero. */
  datatype Tally = Tally(literal: nat, sequence: nat, alternation: nat, repeated: nat)

  function Zero(): Tally { Tally(0, 0, 0, 0) }

  function Add(a: Tally, b: Tally): Tally {
    Tally(a.literal + b.literal, a.sequence + b.sequence, a.alternation + b.alternation, a.repeated + b.repeated)
  }

  /** Every count multiplied by k; see TimesMultiplies. */
  function Times(a: Tally, k: nat): Tally {
    if k == 0 then Zero() else Add(Times(a, k - 1), a)
  }

  lemma {:induction false} TimesMultiplies(a: Tally, k: nat)
    ensures Times(a, k) == Tally(a.literal * k, a.sequence * k, a.alternation * k, a.repeated * k)
    ensures Total(Times(a, k)) == Total(a) * k
  {
    if k > 0 {
      TimesMultiplies(a, k - 1);
      Distribute(a.literal, k);
      Distribute(a.sequence, k);
      Distribute(a.alternation, k);
      Distribute(a.repeated, k);
      Distribute(Total(a), k);
    }
  }

  lemma Distribute(x: nat, k: nat)
    requires k > 0
    ensures x * k == x * (k - 1) + x
  {}

  function Total(a: Tally): nat {
    a.literal + a.sequence + a.alternation + a.repeated
  }

  function Literals(n: nat): Tally { Tally(n, 0, 0, 0) }
  function Sequences(n: nat): Tally { Tally(0, n, 0, 0) }
  function Alternations(n: nat): Tally { Tally(0, 0, n, 0) }
  function Repeats(n: nat): Tally { Tally(0, 0, 0, n) }

  // ------------------------------------------------------- what the counter says

  /** What k copies of a child contribute: the copies and the '.' nodes between. */
  function InCopies(c: Tally, k: nat): Tally {
    if k == 0 then Zero() else Add(Times(c, k), Sequences(k - 1))
  }

  /** The alternatives from min to max copies together. */
  function InAlternatives(c: Tally, min: nat, max: nat): Tally
    decreases max
  {
    if max < min then Zero()
    else Add(if max == 0 then Zero() else InAlternatives(c, min, max - 1), InCopies(c, max))
  }

  function CountRepeat(c: Tally, min: nat, max: Bound): Tally {
    match max
    case Infinite =>
      if min == 0 || min > MAX_EXPAND then Add(c, Repeats(1))
      else Add(Add(InCopies(c, min), Add(c, Repeats(1))), Sequences(1))
    case Finite(m) =>
      if min > MAX_EXPAND || m > MAX_EXPAND || m - min > MAX_EXPAND then Add(c, Repeats(1))
      else Add(InAlternatives(c, min, m), Alternations(if m > min then m - min else 0))
  }

  function Count(t: Ast): Tally
    decreases t, 0
  {
    match t
    case Literal(_) => Literals(1)
    case Sequence(cs) => Add(CountAll(cs), Sequences(if cs == [] then 0 else |cs| - 1))
    case Alternation(cs) => Add(CountAll(cs), Alternations(if cs == [] then 0 else |cs| - 1))
    case Range(a, b) => var k := |Codes(a, b)|; Add(Literals(k), Alternations(k - 1))
    case Repeat(c, min, max) => CountRepeat(if c.Some? then Count(c.value) else Zero(), min, max)
    case Boundary(_) => Zero()
  }

  function CountAll(cs: seq<Ast>): Tally
    decreases cs, 0
  {
    if cs == [] then Zero() else Add(CountAll(cs[..|cs| - 1]), Count(cs[|cs| - 1]))
  }

  // ---------------------------------------------------------- what the tree holds

  /** The nodes of a standardized tree; empty-string leaves are not counted. */
  function Nodes(t: Std): Tally
    decreases t, 0
  {
    match t
    case Leaf(v) => Literals(if v == [] then 0 else 1)
    case Dot(cs) => Add(NodesOf(cs), Sequences(1))
    case Plus(cs) => Add(NodesOf(cs), Alternations(1))
    case Star(c) => Add(Nodes(c), Repeats(1))
    case Kept(_, _, c) => Add(Nodes(c), Repeats(1))
    case Nothing => Zero()
  }

  function NodesOf(cs: seq<Std>): Tally
    decreases cs, 0
  {
    if cs == [] then Zero() else Add(NodesOf(cs[..|cs| - 1]), Nodes(cs[|cs| - 1]))
  }

  lemma NodesOfPair(a: Std, b: Std)
    ensures NodesOf([a, b]) == Add(Nodes(a), Nodes(b))
  {
    hide Nodes;
    var cs := [a, b];
    assert cs[..1] == [a] && cs[..1][..0] == [];
    assert NodesOf(cs[..1]) == Add(Zero(), Nodes(a));
    assert NodesOf(cs) == Add(NodesOf(cs[..1]), Nodes(b));
  }

  lemma NodesOfDot(a: Std, b: Std)
    ensures Nodes(Dot([a, b])) == Add(Add(Nodes(a), Nodes(b)), Sequences(1))
    ensures Nodes(Plus([a, b])) == Add(Add(Nodes(a), Nodes(b)), Alternations(1))
  {
    NodesOfPair(a, b);
    hide NodesOf, Add;
  }

  lemma AddNone(a: Tally)
    ensures Add(Zero(), a) == a == Add(a, Zero())
  {}

  lemma AddRegroup(a: Tally, f: Tally, b: Tally, g: Tally)
    ensures Add(Add(Add(a, f), b), g) == Add(Add(a, b), Add(f, g))
  {}

  lemma {:induction false} NodesOfFold(cs: seq<Std>)
    requires cs != []
    ensures Nodes(FoldDot(cs)) == Add(NodesOf(cs), Sequences(|cs| - 1))
    ensures Nodes(FoldPlus(cs)) == Add(NodesOf(cs), Alternations(|cs| - 1))
  {
    hide Nodes, Add;
    var n := |cs| - 1;
    if n == 0 {
      assert cs[..n] == [] && NodesOf([]) == Zero();
      AddNone(Nodes(cs[n]));
    } else {
      NodesOfFold(cs[..n]);
      NodesOfDot(FoldDot(cs[..n]), cs[n]);
      NodesOfDot(FoldPlus(cs[..n]), cs[n]);
      AddRegroup(NodesOf(cs[..n]), Sequences(n - 1), Nodes(cs[n]), Sequences(1));
      AddRegroup(NodesOf(cs[..n]), Alternations(n - 1), Nodes(cs[n]), Alternations(1));
      assert Add(Sequences(n - 1), Sequences(1)) == Sequences(n) by { SequencesAdd(n - 1, 1); }
      assert Add(Alternations(n - 1), Alternations(1)) == Alternations(n) by { SequencesAdd(n - 1, 1); }
    }
  }

  lemma SequencesAdd(a: nat, b: nat)
    ensures Add(Sequences(a), Sequences(b)) == Sequences(a + b)
    ensures Add(Alternations(a), Alternations(b)) == Alternations(a + b)
  {}

  /** One more copy: the child's nodes again and one '.' node. */
  lemma InCopiesStep(c: Tally, k: nat)
    requires k > 1
    ensures InCopies(c, k) == Add(Add(InCopies(c, k - 1), c), Sequences(1))
  {
    assert Times(c, k) == Add(Times(c, k - 1), c);
    hide Times;
  }

  lemma TimesOne(c: Tally)
    ensures Times(c, 1) == InCopies(c, 1) == c && Times(c, 0) == Zero()
    ensures forall k: nat :: Times(c, k + 1) == Add(Times(c, k), c)
  {
    AddNone(c);
    assert Times(c, 0) == Zero();
  }

  lemma {:induction false} NodesOfCopies(c: Std, n: nat)
    ensures Nodes(Copies(c, n)) == InCopies(Nodes(c), n)
  {
    if n == 0 {
    } else if n == 1 {
      TimesOne(Nodes(c));
    } else {
      hide Nodes, Add, InCopies;
      NodesOfCopies(c, n - 1);
      NodesOfDot(Copies(c, n - 1), c);
      InCopiesStep(Nodes(c), n);
    }
  }

  lemma {:induction false} NodesOfAlternatives(c: Std, min: nat, max: nat)
    requires min <= max
    ensures Nodes(Alternatives(c, min, max)) == Add(InAlternatives(Nodes(c), min, max), Alternations(max - min))
    decreases max
  {
    hide Nodes, Add, InCopies;
    NodesOfCopies(c, max);
    var x, k := InCopies(Nodes(c), max), Nodes(c);
    if min == max {
      assert InAlternatives(k, min, max) == Add(Zero(), x);
      AddNone(x);
      assert Alternations(0) == Zero();
    } else {
      NodesOfAlternatives(c, min, max - 1);
      NodesOfDot(Alternatives(c, min, max - 1), Copies(c, max));
      AddRegroup(InAlternatives(k, min, max - 1), Alternations(max - 1 - min), x, Alternations(1));
      SequencesAdd(max - 1 - min, 1);
    }
  }

  lemma NodesOfStar(c: Std, min: nat, max: Bound)
    ensures Nodes(Star(c)) == Nodes(Kept(min, max, c)) == Add(Nodes(c), Repeats(1))
    ensures Nodes(Nothing) == Zero()
  {
    hide Add;
  }

  lemma NoAlternatives(c: Tally, min: nat, max: nat)
    requires max < min
    ensures InAlternatives(c, min, max) == Zero()
  {}

  /** Expanding a repeat makes the nodes the counter predicts from its child's,
      an expansion to None counting nothing. */
  lemma NodesOfExpand(c: Std, min: nat, max: Bound)
    ensures Nodes(Expand(c, min, max)) == CountRepeat(Nodes(c), min, max)
  {
    NodesOfStar(c, min, max);
    NodesOfCopies(c, min);
    hide Nodes, Add, InCopies, InAlternatives;
    match max
    case Infinite =>
      NodesOfDot(Copies(c, min), Star(c));
    case Finite(m) =>
      assert Alternations(0) == Zero();
      if min <= m {
        NodesOfAlternatives(c, min, m);
      } else {
        NoAlternatives(Nodes(c), min, m);
        AddNone(Zero());
      }
  }

  lemma {:induction false} NodesOfLeaves(codes: seq<nat>)
    ensures NodesOf(Leaves(codes)) == Literals(|codes|)
  {
    if codes != [] {
      var n := |codes| - 1;
      var cs := Leaves(codes);
      NodesOfLeaves(codes[..n]);
      assert cs[..n] == Leaves(codes[..n]);
      assert Nodes(cs[n]) == Literals(1) by { assert cs[n] == Leaf([codes[n]]); }
      hide Nodes;
    }
  }

  // ----------------------------------------------------- how a repeat multiplies

  /** How many times the child's nodes appear in the expansion of a repeat. */
  function Weight(min: nat, max: Bound): nat {
    match max
    case Infinite => if min == 0 || min > MAX_EXPAND then 1 else min + 1
    case Finite(m) =>
      if min > MAX_EXPAND || m > MAX_EXPAND || m - min > MAX_EXPAND then 1 else SumUpTo(min, m)
  }

  function SumUpTo(min: nat, max: nat): nat
    decreases max
  {
    if max < min then 0 else (if max == 0 then 0 else SumUpTo(min, max - 1)) + max
  }

  /** The '.', '+' and '*' nodes the expansion adds. */
  function Frame(min: nat, max: Bound): Tally {
    CountRepeat(Zero(), min, max)
  }

  lemma {:induction false} TimesSplit(c: Tally, i: nat, j: nat)
    ensures Add(Times(c, i), Times(c, j)) == Times(c, i + j)
  {
    hide Add;
    if j == 0 {
      AddNone(Times(c, i));
    } else {
      TimesSplit(c, i, j - 1);
      AddAssoc(Times(c, i), Times(c, j - 1), c);
    }
  }

  lemma {:induction false} TimesNone(k: nat)
    ensures Times(Zero(), k) == Zero()
  {
    if k > 0 {
      TimesNone(k - 1);
    }
  }

  lemma InCopiesLinear(c: Tally, k: nat)
    ensures InCopies(c, k) == Add(Times(c, k), InCopies(Zero(), k))
  {
    TimesNone(k);
    if k == 0 {
    } else {
      hide Times;
    }
  }

  lemma {:induction false} InAlternativesLinear(c: Tally, min: nat, max: nat)
    ensures InAlternatives(c, min, max) == Add(Times(c, SumUpTo(min, max)), InAlternatives(Zero(), min, max))
    decreases max
  {
    hide Add, Times;
    InCopiesLinear(c, max);
    AddNone(Zero());
    TimesOne(c);
    if max == 0 || max < min {
    } else {
      InAlternativesLinear(c, min, max - 1);
      TimesSplit(c, SumUpTo(min, max - 1), max);
      AddRegroup(Times(c, SumUpTo(min, max - 1)), InAlternatives(Zero(), min, max - 1),
                 Times(c, max), InCopies(Zero(), max));
      AddAssoc(InAlternatives(c, min, max - 1), Times(c, max), InCopies(Zero(), max));
    }
  }

  lemma AddAssoc(a: Tally, b: Tally, c: Tally)
    ensures Add(Add(a, b), c) == Add(a, Add(b, c))
    ensures Add(a, b) == Add(b, a)
  {}

  lemma CountRepeatLinear(c: Tally, min: nat, max: Bound)
    ensures CountRepeat(c, min, max) == Add(Times(c, Weight(min, max)), Frame(min, max))
  {
    hide Add, Times, InCopies, InAlternatives;
    TimesOne(c);
    AddNone(c);
    AddNone(Zero());
    AddNone(Repeats(1));
    InCopiesLinear(c, min);
    match max
    case Infinite =>
      if 0 < min <= MAX_EXPAND {
        LinearStar(Times(c, min), InCopies(Zero(), min), c);
      }
    case Finite(m) =>
      InAlternativesLinear(c, min, m);
      AddAssoc(Times(c, Weight(min, max)), InAlternatives(Zero(), min, m),
               Alternations(if m > min then m - min else 0));
  }

  lemma LinearStar(copies: Tally, f: Tally, c: Tally)
    ensures Add(Add(Add(copies, f), Add(c, Repeats(1))), Sequences(1))
         == Add(Add(copies, c), Add(Add(f, Add(Zero(), Repeats(1))), Sequences(1)))
  {
    hide Add;
    AddNone(Repeats(1));
    AddRegroup(copies, f, c, Repeats(1));
    AddAssoc(Add(copies, f), c, Repeats(1));
    AddAssoc(Add(copies, c), Add(f, Repeats(1)), Sequences(1));
  }

  /** The repeats whose expansion drops the child: {0} and those with max below min. */
  predicate Erased(min: nat, max: Bound) {
    max.Finite? && min <= MAX_EXPAND && (max.n == 0 || max.n < min) && max.n <= MAX_EXPAND
  }

  lemma {:induction false} SumUpToPositive(min: nat, max: nat)
    ensures SumUpTo(min, max) == 0 <==> max == 0 || max < min
    decreases max
  {
  }

  lemma WeightIsZero(min: nat, max: Bound)
    ensures Weight(min, max) == 0 <==> Erased(min, max)
  {
    if max.Finite? {
      SumUpToPositive(min, max.n);
    }
  }

  // ------------------------------------------------------------- how far they differ

  /** Which kinds of node the counter and the tree disagree on: empty literals are
      counted but are empty leaves; a '.' or '+' without children is a node but is
      not counted. */
  datatype Gap = Gap(literal: bool, sequence: bool, alternation: bool)

  function Or(a: Gap, b: Gap): Gap {
    Gap(a.literal || b.literal, a.sequence || b.sequence, a.alternation || b.alternation)
  }

  function Gaps(t: Ast): Gap
    decreases t, 0
  {
    match t
    case Literal(v) => Gap(v == [], false, false)
    case Sequence(cs) => Or(GapsIn(cs), Gap(false, cs == [], false))
    case Alternation(cs) => Or(GapsIn(cs), Gap(false, false, cs == []))
    case Range(_, _) => Gap(false, false, false)
    case Repeat(c, min, max) => if c == None || Erased(min, max) then Gap(false, false, false) else Gaps(c.value)
    case Boundary(_) => Gap(false, false, false)
  }

  function GapsIn(cs: seq<Ast>): Gap
    decreases cs, 0
  {
    if cs == [] then Gap(false, false, false) else Or(GapsIn(cs[..|cs| - 1]), Gaps(cs[|cs| - 1]))
  }

  /** No boundary has a child: the parser makes none that does. */
  predicate Bare(t: Ast) {
    match t
    case Literal(_) => true
    case Sequence(cs) => forall i :: 0 <= i < |cs| ==> Bare(cs[i])
    case Alternation(cs) => forall i :: 0 <= i < |cs| ==> Bare(cs[i])
    case Range(_, _) => true
    case Repeat(c, _, _) => c.Some? ==> Bare(c.value)
    case Boundary(c) => c == None
  }

  /** c counts n's nodes, off only in the kinds of g, and always off in those. */
  predicate Counts(c: Tally, n: Tally, g: Gap) {
    && n.literal <= c.literal && (n.literal < c.literal <==> g.literal)
    && c.sequence <= n.sequence && (c.sequence < n.sequence <==> g.sequence)
    && c.alternation <= n.alternation && (c.alternation < n.alternation <==> g.alternation)
    && c.repeated == n.repeated
  }

  lemma CountsAdd(c: Tally, n: Tally, g: Gap, d: Tally, m: Tally, h: Gap)
    requires Counts(c, n, g) && Counts(d, m, h)
    ensures Counts(Add(c, d), Add(n, m), Or(g, h))
  {}

  lemma {:induction false} CountsTimes(c: Tally, n: Tally, g: Gap, k: nat)
    requires Counts(c, n, g)
    ensures Counts(Times(c, k), Times(n, k), if k == 0 then Gap(false, false, false) else g)
  {
    if k == 0 {
      CountsItself(Zero());
    } else {
      CountsTimes(c, n, g, k - 1);
      hide Counts, Add;
      CountsAdd(Times(c, k - 1), Times(n, k - 1), if k == 1 then Gap(false, false, false) else g, c, n, g);
    }
  }

  lemma CountsRepeat(c: Tally, n: Tally, g: Gap, min: nat, max: Bound)
    requires Counts(c, n, g)
    ensures Counts(CountRepeat(c, min, max), CountRepeat(n, min, max),
                   if Erased(min, max) then Gap(false, false, false) else g)
  {
    hide *;
    var k, f := Weight(min, max), Frame(min, max);
    var h := if k == 0 then Gap(false, false, false) else g;
    CountRepeatLinear(c, min, max);
    CountRepeatLinear(n, min, max);
    WeightIsZero(min, max);
    CountsTimes(c, n, g, k);
    CountsItself(f);
    CountsAdd(Times(c, k), Times(n, k), h, f, f, Gap(false, false, false));
    OrNone(h);
  }

  lemma CountsItself(c: Tally)
    ensures Counts(c, c, Gap(false, false, false))
  {}

  lemma OrNone(g: Gap)
    ensures Or(g, Gap(false, false, false)) == g
  {}

  lemma CountLeaf(v: Text)
    ensures Nodes(Leaf(v)) == Literals(if v == [] then 0 else 1)
    ensures Counts(Literals(1), Nodes(Leaf(v)), Gap(v == [], false, false))
    ensures Counts(Zero(), Nodes(Leaf([])), Gap(false, false, false))
  {}

  lemma CountEmpty()
    ensures Counts(Count(Sequence([])), Nodes(StdOf(Sequence([]))), Gaps(Sequence([])))
    ensures Counts(Count(Alternation([])), Nodes(StdOf(Alternation([]))), Gaps(Alternation([])))
  {
    hide Counts, Add, Or, Nodes;
    EmptyNodes();
    AddNone(Zero());
    assert Sequences(0) == Zero() && Alternations(0) == Zero();
    OneMissing();
  }

  lemma EmptyNodes()
    ensures Nodes(Dot([])) == Sequences(1) && Nodes(Plus([])) == Alternations(1)
  {
    hide Add;
    AddNone(Sequences(1));
    AddNone(Alternations(1));
  }

  lemma OneMissing()
    ensures Counts(Zero(), Sequences(1), Or(Gap(false, false, false), Gap(false, true, false)))
    ensures Counts(Zero(), Alternations(1), Or(Gap(false, false, false), Gap(false, false, true)))
  {}

  /** Joining counted children: n - 1 binary nodes, except that a '.' or '+' over
      no children is itself a node. */
  lemma CountJoined(cs: seq<Ast>)
    requires Counts(CountAll(cs), NodesOf(StdAll(cs)), GapsIn(cs))
    ensures Counts(Count(Sequence(cs)), Nodes(StdOf(Sequence(cs))), Gaps(Sequence(cs)))
    ensures Counts(Count(Alternation(cs)), Nodes(StdOf(Alternation(cs))), Gaps(Alternation(cs)))
  {
    hide Counts, Add, Or, Nodes, NodesOf;
    var c, n, g := CountAll(cs), NodesOf(StdAll(cs)), GapsIn(cs);
    if cs == [] {
      CountEmpty();
    } else {
      NodesOfFold(StdAll(cs));
      OrNone(g);
      CountsItself(Sequences(|cs| - 1));
      CountsItself(Alternations(|cs| - 1));
      CountsAdd(c, n, g, Sequences(|cs| - 1), Sequences(|cs| - 1), Gap(false, false, false));
      CountsAdd(c, n, g, Alternations(|cs| - 1), Alternations(|cs| - 1), Gap(false, false, false));
    }
  }

  lemma NodesOfPush(cs: seq<Std>, c: Std)
    ensures NodesOf(cs + [c]) == Add(NodesOf(cs), Nodes(c))
  {
    hide Nodes, Add;
    assert (cs + [c])[..|cs|] == cs;
  }

  lemma CountRange(a: nat, b: nat)
    ensures Count(Range(a, b)) == Nodes(StdOf(Range(a, b)))
  {
    NodesOfLeaves(Codes(a, b));
    NodesOfFold(Leaves(Codes(a, b)));
    hide Nodes, NodesOf, Codes, Leaves;
  }

  /** The counter is right about every repeat node, and about each other kind
      exactly when no empty string, sequence or alternation outlives expansion. */
  lemma {:induction false} CountIsNodes(t: Ast)
    requires Bare(t)
    ensures Counts(Count(t), Nodes(StdOf(t)), Gaps(t))
    decreases t, 0
  {
    hide Counts, Nodes, CountRepeat, Expand, FoldDot, FoldPlus, Codes, CountAll, GapsIn, Add, Or;
    CountLeaf([]);
    match t
    case Literal(v) => CountLeaf(v);
    case Sequence(cs) =>
      CountAllIsNodes(cs);
      CountJoined(cs);
    case Alternation(cs) =>
      CountAllIsNodes(cs);
      CountJoined(cs);
    case Range(a, b) =>
      CountRange(a, b);
      CountsItself(Count(t));
    case Repeat(c, min, max) =>
      if c.Some? {
        CountIsNodes(c.value);
        NodesOfExpand(StdOf(c.value), min, max);
        CountsRepeat(Count(c.value), Nodes(StdOf(c.value)), Gaps(c.value), min, max);
      } else {
        NodesOfExpand(Leaf([]), min, max);
        CountsItself(CountRepeat(Zero(), min, max));
      }
    case Boundary(_) =>
  }

  lemma {:induction false} CountAllIsNodes(cs: seq<Ast>)
    requires forall i :: 0 <= i < |cs| ==> Bare(cs[i])
    ensures Counts(CountAll(cs), NodesOf(StdAll(cs)), GapsIn(cs))
    decreases cs, 0
  {
    if cs != [] {
      var n := |cs| - 1;
      CountAllIsNodes(cs[..n]);
      CountIsNodes(cs[n]);
      NodesOfPush(StdAll(cs[..n]), StdOf(cs[n]));
      CountsAdd(CountAll(cs[..n]), NodesOf(StdAll(cs[..n])), GapsIn(cs[..n]),
                Count(cs[n]), Nodes(StdOf(cs[n])), Gaps(cs[n]));
      hide Counts, Nodes, Add, Or, NodesOf, Count, Gaps;
    }
  }

  // ------------------------------------------------- the difference, for every tree

  /** The counts without a node: empty literals, as often as repeats copy them. */
  function Surplus(t: Ast): Tally
    decreases t, 0
  {
    match t
    case Literal(v) => Literals(if v == [] then 1 else 0)
    case Sequence(cs) => SurplusIn(cs)
    case Alternation(cs) => SurplusIn(cs)
    case Range(_, _) => Zero()
    case Repeat(c, min, max) => if c == None then Zero() else Times(Surplus(c.value), Weight(min, max))
    case Boundary(_) => Zero()
  }

  function SurplusIn(cs: seq<Ast>): Tally
    decreases cs, 0
  {
    if cs == [] then Zero() else Add(SurplusIn(cs[..|cs| - 1]), Surplus(cs[|cs| - 1]))
  }

  /** The nodes without a count: a '.' or '+' over no children, and all that is below
      a boundary, as often as repeats copy them. */
  function Lost(t: Ast): Tally
    decreases t, 0
  {
    match t
    case Literal(_) => Zero()
    case Sequence(cs) => if cs == [] then Sequences(1) else LostIn(cs)
    case Alternation(cs) => if cs == [] then Alternations(1) else LostIn(cs)
    case Range(_, _) => Zero()
    case Repeat(c, min, max) => if c == None then Zero() else Times(Lost(c.value), Weight(min, max))
    case Boundary(c) => if c == None then Zero() else Nodes(StdOf(c.value))
  }

  function LostIn(cs: seq<Ast>): Tally
    decreases cs, 0
  {
    if cs == [] then Zero() else Add(LostIn(cs[..|cs| - 1]), Lost(cs[|cs| - 1]))
  }

  /** The counts c and the nodes n differ by what is lost and what is surplus. */
  predicate Balanced(c: Tally, lost: Tally, n: Tally, surplus: Tally) {
    Add(c, lost) == Add(n, surplus)
  }

  lemma Interchange(a: Tally, b: Tally, c: Tally, d: Tally)
    ensures Add(Add(a, b), Add(c, d)) == Add(Add(a, c), Add(b, d))
  {}

  lemma BalancedAdd(c: Tally, l: Tally, n: Tally, s: Tally, c': Tally, l': Tally, n': Tally, s': Tally)
    requires Balanced(c, l, n, s) && Balanced(c', l', n', s')
    ensures Balanced(Add(c, c'), Add(l, l'), Add(n, n'), Add(s, s'))
  {
    hide Add;
    Interchange(c, c', l, l');
    Interchange(n, n', s, s');
  }

  lemma BalancedFrame(c: Tally, l: Tally, n: Tally, s: Tally, f: Tally)
    requires Balanced(c, l, n, s)
    ensures Balanced(Add(c, f), l, Add(n, f), s)
  {
    hide Add;
    AddNone(l);
    AddNone(s);
    BalancedAdd(c, l, n, s, f, Zero(), f, Zero());
  }

  lemma {:induction false} BalancedTimes(c: Tally, l: Tally, n: Tally, s: Tally, k: nat)
    requires Balanced(c, l, n, s)
    ensures Balanced(Times(c, k), Times(l, k), Times(n, k), Times(s, k))
  {
    hide Add;
    if k > 0 {
      BalancedTimes(c, l, n, s, k - 1);
      BalancedAdd(Times(c, k - 1), Times(l, k - 1), Times(n, k - 1), Times(s, k - 1), c, l, n, s);
    }
  }

  lemma BalancedRepeat(c: Tally, l: Tally, n: Tally, s: Tally, min: nat, max: Bound)
    requires Balanced(c, l, n, s)
    ensures var k := Weight(min, max);
            Balanced(CountRepeat(c, min, max), Times(l, k), CountRepeat(n, min, max), Times(s, k))
  {
    hide *;
    var k, f := Weight(min, max), Frame(min, max);
    CountRepeatLinear(c, min, max);
    CountRepeatLinear(n, min, max);
    BalancedTimes(c, l, n, s, k);
    BalancedFrame(Times(c, k), Times(l, k), Times(n, k), Times(s, k), f);
  }

  lemma BalancedLeaf(v: Text)
    ensures Balanced(Literals(1), Zero(), Nodes(Leaf(v)), Literals(if v == [] then 1 else 0))
    ensures Nodes(Leaf([])) == Zero()
  {}

  lemma BalancedItself(c: Tally)
    ensures Balanced(c, Zero(), c, Zero()) && Balanced(Zero(), c, c, Zero())
  {}

  lemma BalancedJoined(cs: seq<Ast>)
    requires Balanced(CountAll(cs), LostIn(cs), NodesOf(StdAll(cs)), SurplusIn(cs))
    ensures Balanced(Count(Sequence(cs)), Lost(Sequence(cs)), Nodes(StdOf(Sequence(cs))), SurplusIn(cs))
    ensures Balanced(Count(Alternation(cs)), Lost(Alternation(cs)), Nodes(StdOf(Alternation(cs))), SurplusIn(cs))
  {
    hide Balanced, Add, Nodes, NodesOf;
    if cs == [] {
      EmptyNodes();
      AddNone(Zero());
      assert Sequences(0) == Zero() && Alternations(0) == Zero();
      BalancedItself(Sequences(1));
      BalancedItself(Alternations(1));
    } else {
      var c, l, n, s := CountAll(cs), LostIn(cs), NodesOf(StdAll(cs)), SurplusIn(cs);
      NodesOfFold(StdAll(cs));
      BalancedFrame(c, l, n, s, Sequences(|cs| - 1));
      BalancedFrame(c, l, n, s, Alternations(|cs| - 1));
    }
  }

  /** The counter is off by exactly the empty literals it counts and the empty
      joins and boundary children it does not. */
  lemma {:induction false} CountBalance(t: Ast)
    ensures Balanced(Count(t), Lost(t), Nodes(StdOf(t)), Surplus(t))
    decreases t, 0
  {
    hide Balanced, Nodes, CountRepeat, Expand, FoldDot, FoldPlus, Codes, CountAll, LostIn, SurplusIn, Add, Weight;
    BalancedLeaf([]);
    BalancedItself(Zero());
    match t
    case Literal(v) => BalancedLeaf(v);
    case Sequence(cs) =>
      CountAllBalance(cs);
      BalancedJoined(cs);
    case Alternation(cs) =>
      CountAllBalance(cs);
      BalancedJoined(cs);
    case Range(a, b) =>
      CountRange(a, b);
      BalancedItself(Count(t));
    case Repeat(c, min, max) =>
      if c.Some? {
        CountBalance(c.value);
        NodesOfExpand(StdOf(c.value), min, max);
        BalancedRepeat(Count(c.value), Lost(c.value), Nodes(StdOf(c.value)), Surplus(c.value), min, max);
      } else {
        NodesOfExpand(Leaf([]), min, max);
        BalancedItself(CountRepeat(Zero(), min, max));
      }
    case Boundary(c) =>
      if c.Some? {
        BalancedItself(Nodes(StdOf(c.value)));
      }
  }

  lemma {:induction false} CountAllBalance(cs: seq<Ast>)
    ensures Balanced(CountAll(cs), LostIn(cs), NodesOf(StdAll(cs)), SurplusIn(cs))
    decreases cs, 0
  {
    hide Balanced, Nodes, Add, Count, Lost, Surplus, StdOf;
    if cs == [] {
      BalancedItself(Zero());
    } else {
      var n := |cs| - 1;
      CountAllBalance(cs[..n]);
      CountBalance(cs[n]);
      NodesOfPush(StdAll(cs[..n]), StdOf(cs[n]));
      BalancedAdd(CountAll(cs[..n]), LostIn(cs[..n]), NodesOf(StdAll(cs[..n])), SurplusIn(cs[..n]),
                  Count(cs[n]), Lost(cs[n]), Nodes(StdOf(cs[n])), Surplus(cs[n]));
    }
  }

  /** The condition in full: counts and nodes agree exactly when what is lost makes
      up for what is surplus; where no boundary has a child, when there is neither. */
  lemma CountIsExactly(t: Ast)
    ensures Count(t) == Nodes(StdOf(t)) <==> Lost(t) == Surplus(t)
    ensures Bare(t) ==> (Count(t) == Nodes(StdOf(t)) <==> Gaps(t) == Gap(false, false, false))
  {
    hide Count, Nodes, Gaps, Lost, Surplus, Bare;
    CountBalance(t);
    if Bare(t) {
      CountIsNodes(t);
    }
  }

  /** The smallest expression they disagree on. */
  lemma EmptyLiteralIsOvercounted()
    ensures Count(Literal([])) == Literals(1) && Nodes(StdOf(Literal([]))) == Zero()
  {}

  // ---------------------------------------------------------------- the visitor

  lemma CountAllPush(cs: seq<Ast>, i: nat)
    requires i < |cs|
    ensures CountAll(cs[..i + 1]) == Add(CountAll(cs[..i]), Count(cs[i]))
  {
    hide Add, Count;
    assert cs[..i + 1][..i] == cs[..i];
  }

  lemma TotalOf(n: nat)
    ensures Total(Sequences(n)) == n && Total(Alternations(n)) == n
  {}

  lemma TotalOfLeaf(n: nat)
    ensures Total(Literals(n)) == n && Total(Repeats(n)) == n
  {}

  lemma TotalOfNone()
    ensures Total(Zero()) == 0
  {}

  lemma TotalAdds(a: Tally, b: Tally)
    ensures Total(Add(a, b)) == Total(a) + Total(b)
  {}

  method Visit(t: Ast) returns (total: nat, counts: Tally)
    ensures counts == Count(t) && total == Total(counts)
    decreases t, 2
  {
    hide Add, Total, Codes, CountRepeat, CountAll;
    TotalOfLeaf(1);
    TotalOfNone();
    match t
    case Literal(_) => return 1, Literals(1);
    case Sequence(cs) =>
      total, counts := VisitChildren(cs);
      var nodes := if |cs| == 0 then 0 else |cs| - 1;
      TotalOf(nodes);
      TotalAdds(counts, Sequences(nodes));
      counts := Add(counts, Sequences(nodes));
      total := total + nodes;
    case Alternation(cs) =>
      total, counts := VisitChildren(cs);
      var nodes := if |cs| == 0 then 0 else |cs| - 1;
      TotalOf(nodes);
      TotalAdds(counts, Alternations(nodes));
      counts := Add(counts, Alternations(nodes));
      total := total + nodes;
    case Range(a, b) =>
      var k := |Codes(a, b)|;
      counts := Literals(k);
      total := k;
      AddNone(counts);
      TotalOfLeaf(k);
      TotalOf(k - 1);
      if k > 1 {
        TotalAdds(counts, Alternations(k - 1));
        counts := Add(counts, Alternations(k - 1));
        total := total + (k - 1);
      }
    case Repeat(c, min, max) =>
      total, counts := 0, Zero();
      if c.Some? {
        total, counts := Visit(c.value);
      }
      total, counts := VisitRepeat(total, counts, min, max);
    case Boundary(_) => return 0, Zero();
  }

  method VisitChildren(cs: seq<Ast>) returns (total: nat, counts: Tally)
    ensures counts == CountAll(cs) && total == Total(counts)
    decreases cs, 1
  {
    hide Count;
    total, counts := 0, Zero();
    var i := 0;
    while i < |cs|
      invariant 0 <= i <= |cs|
      invariant counts == CountAll(cs[..i]) && total == Total(counts)
    {
      var childTotal, childCounts := Visit(cs[i]);
      CountAllPush(cs, i);
      counts := Add(counts, childCounts);
      total := total + childTotal;
      i := i + 1;
    }
    assert cs[..i] == cs;
  }

  /** k copies of a counted child in sequence. */
  method AddCopies(total0: nat, counts0: Tally, childTotal: nat, child: Tally, k: nat)
    returns (total: nat, counts: Tally)
    requires total0 == Total(counts0) && childTotal == Total(child) && k > 0
    ensures counts == Add(counts0, InCopies(child, k)) && total == Total(counts)
  {
    hide Add, Total, Times;
    TimesMultiplies(child, k);
    TotalAdds(counts0, Times(child, k));
    counts, total := Add(counts0, Times(child, k)), total0 + childTotal * k;
    TotalOf(k - 1);
    TotalAdds(counts, Sequences(k - 1));
    AddAssoc(counts0, Times(child, k), Sequences(k - 1));
    counts, total := Add(counts, Sequences(k - 1)), total + (k - 1);
  }

  /** A repeat of a child with the given counts. */
  method VisitRepeat(childTotal: nat, child: Tally, min: nat, max: Bound) returns (total: nat, counts: Tally)
    requires childTotal == Total(child)
    ensures counts == CountRepeat(child, min, max) && total == Total(counts)
  {
    hide Add, Total, InCopies, InAlternatives;
    TotalOf(1);
    TotalOfLeaf(1);
    TotalOfNone();
    AddAssoc(child, Repeats(1), Zero());
    TotalAdds(child, Repeats(1));
    if max.Infinite? && 0 < min <= MAX_EXPAND {
      total, counts := AddCopies(0, Zero(), childTotal, child, min);
      AddNone(InCopies(child, min));
      TotalAdds(counts, Add(child, Repeats(1)));
      counts, total := Add(counts, Add(child, Repeats(1))), total + (childTotal + 1);
      TotalAdds(counts, Sequences(1));
      counts, total := Add(counts, Sequences(1)), total + 1;
    } else if max.Infinite? || min > MAX_EXPAND || max.n > MAX_EXPAND || max.n - min > MAX_EXPAND {
      counts, total := Add(Repeats(1), child), 1 + childTotal;
    } else {
      total, counts := VisitAlternatives(childTotal, child, min, max.n);
      var nodes := if max.n > min then max.n - min else 0;
      TotalOf(nodes);
      TotalAdds(counts, Alternations(nodes));
      counts, total := Add(counts, Alternations(nodes)), total + nodes;
    }
  }

  lemma InAlternativesStep(c: Tally, min: nat, k: nat)
    requires min <= k
    ensures InAlternatives(c, min, k) == Add(if k == min then Zero() else InAlternatives(c, min, k - 1), InCopies(c, k))
    ensures InCopies(c, 0) == Zero()
  {
    hide Add;
  }

  method VisitAlternatives(childTotal: nat, child: Tally, min: nat, max: nat) returns (total: nat, counts: Tally)
    requires childTotal == Total(child)
    ensures counts == InAlternatives(child, min, max) && total == Total(counts)
  {
    hide Add, Total, InCopies, InAlternatives;
    total, counts := 0, Zero();
    TotalOfNone();
    var k := min;
    while k <= max
      invariant min <= k && (if min <= max then k <= max + 1 else k == min)
      invariant counts == if k == min then Zero() else InAlternatives(child, min, k - 1)
      invariant total == Total(counts)
    {
      InAlternativesStep(child, min, k);
      AddNone(counts);
      if k > 0 {
        total, counts := AddCopies(total, counts, childTotal, child, k);
      }
      k := k + 1;
    }
    if max < min {
      NoAlternatives(child, min, max);
    }
  }
}
