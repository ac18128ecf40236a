/** StandardizerVisitor (scripts/regex_ast.py): a parsed regular expression with
    n-ary nodes, ranges and counted repeats becomes a tree of binary '.' and '+',
    '*', literals, and repeats too large to write out. */
module Standardizer {
  import opened Options
  import opened Language

  datatype Ast =
    | Literal(value: Text)
    | Sequence(children: seq<Ast>)
    | Alternation(children: seq<Ast>)
    | Range(start: nat, end: nat)
    | Repeat(child: Option<Ast>, min: nat, max: Bound)
    | Boundary(child: Option<Ast>)

  /** `Nothing` is the None that visitRepeat returns when max < min. */
  datatype Std =
    | Leaf(value: Text)
    | Dot(children: seq<Std>)
    | Plus(children: seq<Std>)
    | Star(child: Std)
    | Kept(min: nat, max: Bound, child: Std)
    | Nothing

  const MAX_EXPAND: nat := 5000

  // ------------------------------------------------------------------ meanings

  /** c lies between a and b, whichever is larger. */
  predicate Between(a: nat, b: nat, c: nat) {
    (a <= c && c <= b) || (b <= c && c <= a)
  }

  ghost function Chars(a: nat, b: nat): Lang {
    iset s: Text | |s| == 1 && Between(a, b, s[0])
  }

  /** The language of an expression; a boundary reads as the empty string. */
  ghost function Meaning(t: Ast): Lang
    decreases t, 0
  {
    match t
    case Literal(v) => One(v)
    case Sequence(cs) => SequenceMeaning(cs)
    case Alternation(cs) => AlternationMeaning(cs)
    case Range(a, b) => Chars(a, b)
    case Repeat(c, min, max) => Repeated(if c.Some? then Meaning(c.value) else Empty(), min, max)
    case Boundary(c) => if c.Some? then Meaning(c.value) else Empty()
  }

  ghost function SequenceMeaning(cs: seq<Ast>): Lang
    decreases cs, 0
  {
    if cs == [] then Empty()
    else Cat(SequenceMeaning(cs[..|cs| - 1]), Meaning(cs[|cs| - 1]))
  }

  ghost function AlternationMeaning(cs: seq<Ast>): Lang
    decreases cs, 0
  {
    if cs == [] then iset{}
    else AlternationMeaning(cs[..|cs| - 1]) + Meaning(cs[|cs| - 1])
  }

  ghost function StdMeaning(t: Std): Lang
    decreases t, 0
  {
    match t
    case Leaf(v) => One(v)
    case Dot(cs) => DotMeaning(cs)
    case Plus(cs) => PlusMeaning(cs)
    case Star(c) => Repeated(StdMeaning(c), 0, Infinite)
    case Kept(min, max, c) => Repeated(StdMeaning(c), min, max)
    case Nothing => iset{}
  }

  ghost function DotMeaning(cs: seq<Std>): Lang
    decreases cs, 0
  {
    if cs == [] then Empty()
    else Cat(DotMeaning(cs[..|cs| - 1]), StdMeaning(cs[|cs| - 1]))
  }

  ghost function PlusMeaning(cs: seq<Std>): Lang
    decreases cs, 0
  {
    if cs == [] then iset{}
    else PlusMeaning(cs[..|cs| - 1]) + StdMeaning(cs[|cs| - 1])
  }

  // ------------------------------------------------------------------ the pass

  /** Left-nested binary '.' nodes over the given trees. */
  function FoldDot(cs: seq<Std>): Std {
    if cs == [] then Dot([])
    else if |cs| == 1 then cs[0]
    else Dot([FoldDot(cs[..|cs| - 1]), cs[|cs| - 1]])
  }

  function FoldPlus(cs: seq<Std>): Std {
    if cs == [] then Plus([])
    else if |cs| == 1 then cs[0]
    else Plus([FoldPlus(cs[..|cs| - 1]), cs[|cs| - 1]])
  }

  /** The code points of a range, in the order of its ends. */
  function Codes(a: nat, b: nat): (r: seq<nat>)
    ensures |r| >= 1
    decreases if a <= b then b - a else a - b
  {
    if a == b then [a]
    else if a < b then Codes(a, b - 1) + [b]
    else Codes(a, b + 1) + [b]
  }

  function Leaves(codes: seq<nat>): (r: seq<Std>)
    ensures |r| == |codes|
  {
    seq(|codes|, i requires 0 <= i < |codes| => Leaf([codes[i]]))
  }

  /** n copies in sequence, the empty string for none. */
  function Copies(c: Std, n: nat): Std {
    if n == 0 then Leaf([])
    else if n == 1 then c
    else Dot([Copies(c, n - 1), c])
  }

  /** From min to max copies as alternatives. */
  function Alternatives(c: Std, min: nat, max: nat): Std
    requires min <= max
    decreases max
  {
    if min == max then Copies(c, min)
    else Plus([Alternatives(c, min, max - 1), Copies(c, max)])
  }

  function Expand(c: Std, min: nat, max: Bound): Std {
    match max
    case Infinite =>
      if min == 0 then Star(c)
      else if min > MAX_EXPAND then Kept(min, max, c)
      else Dot([Copies(c, min), Star(c)])
    case Finite(m) =>
      if min > MAX_EXPAND || m > MAX_EXPAND || m - min > MAX_EXPAND then Kept(min, max, c)
      else if min == m then Copies(c, min)
      else if min < m then Alternatives(c, min, m)
      else Nothing
  }

  function StdOf(t: Ast): Std
    decreases t, 0
  {
    match t
    case Literal(v) => Leaf(v)
    case Sequence(cs) => FoldDot(StdAll(cs))
    case Alternation(cs) => FoldPlus(StdAll(cs))
    case Range(a, b) => FoldPlus(Leaves(Codes(a, b)))
    case Repeat(c, min, max) => Expand(if c.Some? then StdOf(c.value) else Leaf([]), min, max)
    case Boundary(c) => if c.Some? then StdOf(c.value) else Leaf([])
  }

  function StdAll(cs: seq<Ast>): (r: seq<Std>)
    ensures |r| == |cs|
    decreases cs, 0
  {
    if cs == [] then [] else StdAll(cs[..|cs| - 1]) + [StdOf(cs[|cs| - 1])]
  }

  // -------------------------------------------------------- meaning is preserved

  lemma DotOfTwo(a: Std, b: Std)
    ensures StdMeaning(Dot([a, b])) == Cat(StdMeaning(a), StdMeaning(b))
  {
    hide Cat;
    var cs := [a, b];
    assert cs[..1] == [a] && cs[..1][..0] == [];
    assert DotMeaning(cs[..1]) == Cat(Empty(), StdMeaning(a));
    CatEmpty(StdMeaning(a));
  }

  lemma PlusOfTwo(a: Std, b: Std)
    ensures StdMeaning(Plus([a, b])) == StdMeaning(a) + StdMeaning(b)
  {
    var cs := [a, b];
    assert cs[..1] == [a] && cs[..1][..0] == [];
    assert PlusMeaning(cs[..1]) == iset{} + StdMeaning(a);
  }

  lemma {:induction false} FoldDotMeaning(cs: seq<Std>)
    ensures StdMeaning(FoldDot(cs)) == DotMeaning(cs)
  {
    hide Cat;
    if |cs| == 1 {
      assert cs[..0] == [];
      CatEmpty(StdMeaning(cs[0]));
    } else if |cs| > 1 {
      FoldDotMeaning(cs[..|cs| - 1]);
      DotOfTwo(FoldDot(cs[..|cs| - 1]), cs[|cs| - 1]);
    }
  }

  lemma {:induction false} FoldPlusMeaning(cs: seq<Std>)
    ensures StdMeaning(FoldPlus(cs)) == PlusMeaning(cs)
  {
    if |cs| == 1 {
      assert cs[..0] == [];
    } else if |cs| > 1 {
      FoldPlusMeaning(cs[..|cs| - 1]);
      PlusOfTwo(FoldPlus(cs[..|cs| - 1]), cs[|cs| - 1]);
    }
  }

  lemma {:induction false} CopiesMeaning(c: Std, n: nat)
    ensures StdMeaning(Copies(c, n)) == Power(StdMeaning(c), n)
  {
    hide Cat;
    if n == 1 {
      PowerOne(StdMeaning(c));
    } else if n > 1 {
      CopiesMeaning(c, n - 1);
      DotOfTwo(Copies(c, n - 1), c);
      PowerAdd(StdMeaning(c), n - 1, 1);
      PowerOne(StdMeaning(c));
    }
  }

  lemma {:induction false} AlternativesMeaning(c: Std, min: nat, max: nat)
    requires min <= max
    ensures StdMeaning(Alternatives(c, min, max)) == Repeated(StdMeaning(c), min, Finite(max))
    decreases max
  {
    var a := StdMeaning(c);
    CopiesMeaning(c, max);
    if min == max {
      Exactly(a, min);
    } else {
      AlternativesMeaning(c, min, max - 1);
      PlusOfTwo(Alternatives(c, min, max - 1), Copies(c, max));
      UpTo(a, min, max);
    }
  }

  lemma NoCountBetween(a: Lang, min: nat, max: nat)
    requires max < min
    ensures Repeated(a, min, Finite(max)) == iset{}
  {
  }

  lemma ExpandMeaning(c: Std, min: nat, max: Bound)
    ensures StdMeaning(Expand(c, min, max)) == Repeated(StdMeaning(c), min, max)
  {
    hide Cat, Repeated;
    var a := StdMeaning(c);
    match max
    case Infinite =>
      CopiesMeaning(c, min);
      DotOfTwo(Copies(c, min), Star(c));
      AtLeast(a, min);
    case Finite(m) =>
      CopiesMeaning(c, min);
      if min <= m {
        AlternativesMeaning(c, min, m);
      } else {
        NoCountBetween(a, min, m);
      }
      if min == m {
        Exactly(a, min);
      }
  }

  lemma LeafMeaning(codes: seq<nat>, s: Text)
    ensures s in PlusMeaning(Leaves(codes)) <==> |s| == 1 && s[0] in codes
  {
    if codes != [] {
      var n := |codes| - 1;
      LeafMeaning(codes[..n], s);
      assert Leaves(codes)[..n] == Leaves(codes[..n]);
      assert codes == codes[..n] + [codes[n]];
      assert s == [codes[n]] <==> |s| == 1 && s[0] == codes[n];
    }
  }

  lemma {:induction false} CodesAre(a: nat, b: nat, c: nat)
    ensures c in Codes(a, b) <==> Between(a, b, c)
    decreases if a <= b then b - a else a - b
  {
    if a < b {
      CodesAre(a, b - 1, c);
    } else if b < a {
      CodesAre(a, b + 1, c);
    }
  }

  lemma RangeMeaning(a: nat, b: nat)
    ensures StdMeaning(FoldPlus(Leaves(Codes(a, b)))) == Chars(a, b)
  {
    FoldPlusMeaning(Leaves(Codes(a, b)));
    forall s: Text ensures s in PlusMeaning(Leaves(Codes(a, b))) <==> s in Chars(a, b) {
      LeafMeaning(Codes(a, b), s);
      if |s| == 1 {
        CodesAre(a, b, s[0]);
      }
    }
  }

  /** Standardizing preserves the language of every expression. */
  lemma {:induction false} StandardizePreserves(t: Ast)
    ensures StdMeaning(StdOf(t)) == Meaning(t)
    decreases t, 0
  {
    hide Cat, Repeated, Chars;
    match t
    case Literal(v) =>
    case Sequence(cs) =>
      AllPreserve(cs);
      FoldDotMeaning(StdAll(cs));
    case Alternation(cs) =>
      AllPreserve(cs);
      FoldPlusMeaning(StdAll(cs));
    case Range(a, b) =>
      RangeMeaning(a, b);
    case Repeat(c, min, max) =>
      if c.Some? {
        StandardizePreserves(c.value);
      }
      ExpandMeaning(if c.Some? then StdOf(c.value) else Leaf([]), min, max);
    case Boundary(c) =>
      if c.Some? {
        StandardizePreserves(c.value);
      }
  }

  lemma {:induction false} AllPreserve(cs: seq<Ast>)
    ensures DotMeaning(StdAll(cs)) == SequenceMeaning(cs)
    ensures PlusMeaning(StdAll(cs)) == AlternationMeaning(cs)
    decreases cs, 0
  {
    hide Cat;
    if cs != [] {
      var n := |cs| - 1;
      AllPreserve(cs[..n]);
      StandardizePreserves(cs[n]);
      assert StdAll(cs)[..n] == StdAll(cs[..n]);
    }
  }

  // ------------------------------------------------------- when the tree is whole

  /** No None is left inside the tree. */
  predicate Whole(t: Std) {
    match t
    case Leaf(_) => true
    case Dot(cs) => forall c :: c in cs ==> Whole(c)
    case Plus(cs) => forall c :: c in cs ==> Whole(c)
    case Star(c) => Whole(c)
    case Kept(_, _, c) => Whole(c)
    case Nothing => false
  }

  /** A repeat with max < min that is small enough to be written out, and is not
      dropped by an enclosing {0,0}. */
  predicate Inverted(t: Ast) {
    match t
    case Literal(_) => false
    case Sequence(cs) => exists c :: c in cs && Inverted(c)
    case Alternation(cs) => exists c :: c in cs && Inverted(c)
    case Range(_, _) => false
    case Repeat(c, min, max) =>
      || (max.Finite? && max.n < min <= MAX_EXPAND)
      || (!(min == 0 && max == Finite(0)) && c.Some? && Inverted(c.value))
    case Boundary(c) => c.Some? && Inverted(c.value)
  }

  lemma {:induction false} FoldWhole(cs: seq<Std>)
    ensures Whole(FoldDot(cs)) <==> forall c :: c in cs ==> Whole(c)
    ensures Whole(FoldPlus(cs)) <==> forall c :: c in cs ==> Whole(c)
  {
    if |cs| > 1 {
      var n := |cs| - 1;
      FoldWhole(cs[..n]);
      assert cs == cs[..n] + [cs[n]];
      PairWhole(FoldDot(cs[..n]), cs[n]);
      PairWhole(FoldPlus(cs[..n]), cs[n]);
    }
  }

  lemma PairWhole(a: Std, b: Std)
    ensures Whole(Dot([a, b])) <==> Whole(a) && Whole(b)
    ensures Whole(Plus([a, b])) <==> Whole(a) && Whole(b)
  {
    assert a in [a, b] && b in [a, b];
  }

  lemma {:induction false} CopiesWhole(c: Std, n: nat)
    ensures Whole(Copies(c, n)) <==> n == 0 || Whole(c)
  {
    if n > 1 {
      CopiesWhole(c, n - 1);
      PairWhole(Copies(c, n - 1), c);
    }
  }

  lemma {:induction false} AlternativesWhole(c: Std, min: nat, max: nat)
    requires min <= max
    ensures Whole(Alternatives(c, min, max)) <==> max == 0 || Whole(c)
    decreases max
  {
    CopiesWhole(c, max);
    if min < max {
      AlternativesWhole(c, min, max - 1);
      PairWhole(Alternatives(c, min, max - 1), Copies(c, max));
    }
  }

  lemma ExpandWhole(c: Std, min: nat, max: Bound)
    ensures Whole(Expand(c, min, max)) <==>
            !(max.Finite? && max.n < min <= MAX_EXPAND) && ((min == 0 && max == Finite(0)) || Whole(c))
  {
    match max
    case Infinite =>
      CopiesWhole(c, min);
      PairWhole(Copies(c, min), Star(c));
    case Finite(m) =>
      CopiesWhole(c, min);
      if min <= m {
        AlternativesWhole(c, min, m);
      }
  }

  /** Standardizing yields a whole tree exactly when no such repeat occurs. */
  lemma {:induction false} WholeIffNotInverted(t: Ast)
    ensures Whole(StdOf(t)) <==> !Inverted(t)
    decreases t, 0
  {
    match t
    case Literal(v) =>
    case Sequence(cs) =>
      AllWhole(cs);
      FoldWhole(StdAll(cs));
    case Alternation(cs) =>
      AllWhole(cs);
      FoldWhole(StdAll(cs));
    case Range(a, b) =>
      FoldWhole(Leaves(Codes(a, b)));
    case Repeat(c, min, max) =>
      if c.Some? {
        WholeIffNotInverted(c.value);
      }
      ExpandWhole(if c.Some? then StdOf(c.value) else Leaf([]), min, max);
    case Boundary(c) =>
      if c.Some? {
        WholeIffNotInverted(c.value);
      }
  }

  /** The repeat of 1 at least twice and at most once has no tree. */
  lemma InvertedRepeatHasNoTree()
    ensures StdOf(Repeat(Some(Literal([1])), 2, Finite(1))) == Nothing
  {
  }

  lemma {:induction false} AllWhole(cs: seq<Ast>)
    ensures (forall s :: s in StdAll(cs) ==> Whole(s)) <==> !(exists c :: c in cs && Inverted(c))
    decreases cs, 0
  {
    if cs != [] {
      var n := |cs| - 1;
      AllWhole(cs[..n]);
      WholeIffNotInverted(cs[n]);
      assert cs == cs[..n] + [cs[n]];
    }
  }

  // ------------------------------------------------------------- what is not expanded

  /** No repeat node is left but stars. */
  predicate Expanded(t: Std) {
    match t
    case Leaf(_) => true
    case Dot(cs) => forall c :: c in cs ==> Expanded(c)
    case Plus(cs) => forall c :: c in cs ==> Expanded(c)
    case Star(c) => Expanded(c)
    case Kept(_, _, _) => false
    case Nothing => true
  }

  /** Some repeat asks for more than 5000 copies, and is not inside one that drops it. */
  predicate Large(t: Ast) {
    match t
    case Literal(_) => false
    case Sequence(cs) => exists c :: c in cs && Large(c)
    case Alternation(cs) => exists c :: c in cs && Large(c)
    case Range(_, _) => false
    case Repeat(c, min, max) =>
      || min > 5000 || (max.Finite? && max.n > 5000)
      || (!(max.Finite? && (max.n == 0 || max.n < min)) && c.Some? && Large(c.value))
    case Boundary(c) => c.Some? && Large(c.value)
  }

  lemma PairExpanded(a: Std, b: Std)
    ensures Expanded(Dot([a, b])) <==> Expanded(a) && Expanded(b)
    ensures Expanded(Plus([a, b])) <==> Expanded(a) && Expanded(b)
  {
    assert a in [a, b] && b in [a, b];
  }

  lemma {:induction false} FoldExpanded(cs: seq<Std>)
    ensures Expanded(FoldDot(cs)) <==> forall c :: c in cs ==> Expanded(c)
    ensures Expanded(FoldPlus(cs)) <==> forall c :: c in cs ==> Expanded(c)
  {
    if |cs| > 1 {
      var n := |cs| - 1;
      FoldExpanded(cs[..n]);
      assert cs == cs[..n] + [cs[n]];
      PairExpanded(FoldDot(cs[..n]), cs[n]);
      PairExpanded(FoldPlus(cs[..n]), cs[n]);
    }
  }

  lemma {:induction false} CopiesExpanded(c: Std, n: nat)
    ensures Expanded(Copies(c, n)) <==> n == 0 || Expanded(c)
  {
    if n > 1 {
      CopiesExpanded(c, n - 1);
      PairExpanded(Copies(c, n - 1), c);
    }
  }

  lemma {:induction false} AlternativesExpanded(c: Std, min: nat, max: nat)
    requires min <= max
    ensures Expanded(Alternatives(c, min, max)) <==> max == 0 || Expanded(c)
    decreases max
  {
    CopiesExpanded(c, max);
    if min < max {
      AlternativesExpanded(c, min, max - 1);
      PairExpanded(Alternatives(c, min, max - 1), Copies(c, max));
    }
  }

  lemma RepeatExpanded(c: Std, min: nat, max: Bound)
    ensures Expanded(Expand(c, min, max)) <==>
            && min <= 5000 && (max.Finite? ==> max.n <= 5000)
            && ((max.Finite? && (max.n == 0 || max.n < min)) || Expanded(c))
  {
    match max
    case Infinite =>
      CopiesExpanded(c, min);
      PairExpanded(Copies(c, min), Star(c));
    case Finite(m) =>
      CopiesExpanded(c, min);
      if min <= m {
        AlternativesExpanded(c, min, m);
      }
  }

  /** Every repeat is expanded exactly when none asks for more than 5000 copies. */
  lemma {:induction false} ExpandedIffNotLarge(t: Ast)
    ensures Expanded(StdOf(t)) <==> !Large(t)
    decreases t, 0
  {
    match t
    case Literal(v) =>
    case Sequence(cs) =>
      AllExpanded(cs);
      FoldExpanded(StdAll(cs));
    case Alternation(cs) =>
      AllExpanded(cs);
      FoldExpanded(StdAll(cs));
    case Range(a, b) =>
      FoldExpanded(Leaves(Codes(a, b)));
    case Repeat(c, min, max) =>
      if c.Some? {
        ExpandedIffNotLarge(c.value);
      }
      RepeatExpanded(if c.Some? then StdOf(c.value) else Leaf([]), min, max);
    case Boundary(c) =>
      if c.Some? {
        ExpandedIffNotLarge(c.value);
      }
  }

  lemma {:induction false} AllExpanded(cs: seq<Ast>)
    ensures (forall s :: s in StdAll(cs) ==> Expanded(s)) <==> !(exists c :: c in cs && Large(c))
    decreases cs, 0
  {
    if cs != [] {
      var n := |cs| - 1;
      AllExpanded(cs[..n]);
      ExpandedIffNotLarge(cs[n]);
      assert cs == cs[..n] + [cs[n]];
    }
  }

  // ------------------------------------------------------------------- the code

  /** The visitor, with the loops that fold children, codes and copies. */
  method Standardize(t: Ast) returns (r: Std)
    ensures r == StdOf(t)
    decreases t
  {
    match t {
      case Literal(v) => r := Leaf(v);
      case Sequence(cs) => r := VisitSequence(cs);
      case Alternation(cs) => r := VisitAlternation(cs);
      case Range(a, b) => r := VisitRange(a, b);
      case Repeat(c, min, max) =>
        var norm := Leaf([]);
        if c.Some? {
          norm := Standardize(c.value);
        }
        r := VisitRepeat(norm, min, max);
      case Boundary(c) =>
        r := Leaf([]);
        if c.Some? {
          r := Standardize(c.value);
        }
    }
  }

  lemma {:induction false} StdAllAt(cs: seq<Ast>, i: nat)
    requires i < |cs|
    ensures StdAll(cs)[i] == StdOf(cs[i])
    decreases |cs|
  {
    if i < |cs| - 1 {
      StdAllAt(cs[..|cs| - 1], i);
    }
  }

  method VisitSequence(cs: seq<Ast>) returns (left: Std)
    ensures left == FoldDot(StdAll(cs))
    decreases cs
  {
    if cs == [] {
      return Dot([]);
    }
    left := Standardize(cs[0]);
    StdAllAt(cs, 0);
    for i := 1 to |cs|
      invariant left == FoldDot(StdAll(cs)[..i])
    {
      StdAllAt(cs, i);
      var right := Standardize(cs[i]);
      assert StdAll(cs)[..i + 1][..i] == StdAll(cs)[..i];
      left := Dot([left, right]);
    }
    assert StdAll(cs)[..|cs|] == StdAll(cs);
  }

  method VisitAlternation(cs: seq<Ast>) returns (left: Std)
    ensures left == FoldPlus(StdAll(cs))
    decreases cs
  {
    if cs == [] {
      return Plus([]);
    }
    left := Standardize(cs[0]);
    StdAllAt(cs, 0);
    for i := 1 to |cs|
      invariant left == FoldPlus(StdAll(cs)[..i])
    {
      StdAllAt(cs, i);
      var right := Standardize(cs[i]);
      assert StdAll(cs)[..i + 1][..i] == StdAll(cs)[..i];
      left := Plus([left, right]);
    }
    assert StdAll(cs)[..|cs|] == StdAll(cs);
  }

  method VisitRange(a: nat, b: nat) returns (left: Std)
    ensures left == FoldPlus(Leaves(Codes(a, b)))
  {
    var codes := Codes(a, b);
    left := Leaf([codes[0]]);
    ghost var leaves := Leaves(codes);
    assert leaves[..1] == [left];
    for i := 1 to |codes|
      invariant left == FoldPlus(leaves[..i])
    {
      assert leaves[..i + 1][..i] == leaves[..i];
      left := Plus([left, Leaf([codes[i]])]);
    }
    assert leaves[..|codes|] == leaves;
  }

  /** n copies folded left to right: the loops at lines 115, 135 and 149. */
  method RepeatCopies(c: Std, n: nat) returns (left: Std)
    requires n > 0
    ensures left == Copies(c, n)
  {
    left := c;
    for i := 1 to n
      invariant left == Copies(c, i)
    {
      left := Dot([left, c]);
    }
  }

  method VisitRepeat(c: Std, min: nat, max: Bound) returns (r: Std)
    ensures r == Expand(c, min, max)
  {
    if min == 0 && max.Infinite? {
      return Star(c);
    }
    if max.Infinite? {
      if min > MAX_EXPAND {
        return Kept(min, max, c);
      }
      var left := RepeatCopies(c, min);
      return Dot([left, Star(c)]);
    }
    var m := max.n;
    if min > MAX_EXPAND || m > MAX_EXPAND || m - min > MAX_EXPAND {
      return Kept(min, max, c);
    }
    if min == m {
      if min == 0 {
        return Leaf([]);
      }
      r := RepeatCopies(c, min);
      return;
    }
    r := Nothing;
    var k := min;
    while k <= m
      invariant min <= k && (if min <= m then k <= m + 1 else k == min)
      invariant r == if k == min then Nothing else Alternatives(c, min, k - 1)
    {
      var one := Leaf([]);
      if k > 0 {
        one := RepeatCopies(c, k);
      }
      r := if k == min then one else Plus([r, one]);
      k := k + 1;
    }
  }
}
