/** RegexMLE (scripts/RegexMLE.py): n-ary expressions are made binary at split
    points drawn at random, and the operators and leaves of the result are counted. */
module RegexMle {
  import opened Options
  import opened Language
  import opened Standardizer

  datatype Op = Concat | Union

  /** The text of a leaf: a literal, a range, or the word for no children. */
  datatype Token = Word(text: Text) | Span(start: nat, end: nat) | EmptyWord

  datatype Quantifier = Quantifier(min: nat, max: Bound)

  /** `Untouched` is a node the pass returns as it is, here a boundary; `Missing` is
      the None that stands for a repeat without a child. */
  datatype Bin =
    | Tip(token: Token)
    | Unary(quantifier: Quantifier, child: Bin)
    | Binary(op: Op, left: Bin, right: Bin)
    | Untouched(node: Ast)
    | Missing

  // ------------------------------------------------------------ the possible results

  /** b is what binarizing t can return, for some draw of the split points. */
  ghost predicate Possible(t: Ast, b: Bin)
    decreases t, 0
  {
    match t
    case Literal(v) => b == Tip(Word(v))
    case Range(x, y) => b == Tip(Span(x, y))
    case Sequence(cs) => Arranges(Concat, cs, b)
    case Alternation(cs) => Arranges(Union, cs, b)
    case Repeat(c, min, max) =>
      b.Unary? && b.quantifier == Quantifier(min, max)
      && (if c.Some? then Possible(c.value, b.child) else b.child == Missing)
    case Boundary(_) => b == Untouched(t)
  }

  ghost predicate Arranges(op: Op, cs: seq<Ast>, b: Bin)
    decreases cs, 0
  {
    if cs == [] then b == Tip(EmptyWord)
    else if |cs| == 1 then Possible(cs[0], b)
    else b.Binary? && b.op == op && exists x :: ArrangesAt(op, cs, x, b)
  }

  ghost predicate ArrangesAt(op: Op, cs: seq<Ast>, x: int, b: Bin)
    requires |cs| > 1 && b.Binary?
    decreases cs, 0, 0
  {
    1 <= x < |cs| && Arranges(op, cs[..x], b.left) && Arranges(op, cs[x..], b.right)
  }

  // ------------------------------------------------------------ meaning is preserved

  ghost function BinMeaning(b: Bin): Lang {
    match b
    case Tip(Word(v)) => One(v)
    case Tip(Span(x, y)) => Chars(x, y)
    case Tip(EmptyWord) => Empty()
    case Unary(q, c) => Repeated(BinMeaning(c), q.min, q.max)
    case Binary(op, l, r) => Apply(op, BinMeaning(l), BinMeaning(r))
    case Untouched(t) => Meaning(t)
    case Missing => Empty()
  }

  ghost function Apply(op: Op, a: Lang, b: Lang): Lang {
    if op == Concat then Cat(a, b) else a + b
  }

  /** The language of an expression, except that an alternation of nothing reads as
      the empty string: the leaf the pass puts there is the one for an empty sequence. */
  ghost function Lenient(t: Ast): Lang
    decreases t, 0
  {
    match t
    case Literal(v) => One(v)
    case Range(x, y) => Chars(x, y)
    case Sequence(cs) => Joined(Concat, cs)
    case Alternation(cs) => Joined(Union, cs)
    case Repeat(c, min, max) => Repeated(if c.Some? then Lenient(c.value) else Empty(), min, max)
    case Boundary(_) => Meaning(t)
  }

  ghost function Joined(op: Op, cs: seq<Ast>): Lang
    decreases cs, 0
  {
    if cs == [] then Empty()
    else if |cs| == 1 then Lenient(cs[0])
    else Apply(op, Joined(op, cs[..|cs| - 1]), Lenient(cs[|cs| - 1]))
  }

  lemma ApplyAssoc(op: Op, a: Lang, b: Lang, c: Lang)
    ensures Apply(op, Apply(op, a, b), c) == Apply(op, a, Apply(op, b, c))
  {
    hide Cat;
    CatAssoc(a, b, c);
  }

  /** Where a run of children is split does not matter. */
  lemma {:induction false} JoinedAt(op: Op, cs: seq<Ast>, x: int)
    requires 1 <= x < |cs|
    ensures Joined(op, cs) == Apply(op, Joined(op, cs[..x]), Joined(op, cs[x..]))
    decreases |cs|
  {
    hide Apply, Lenient;
    var n := |cs| - 1;
    if x == n {
      assert cs[x..] == [cs[n]];
    } else {
      JoinedAt(op, cs[..n], x);
      assert cs[..n][..x] == cs[..x] && cs[..n][x..] == cs[x..][..n - x];
      assert cs[x..][n - x] == cs[n];
      ApplyAssoc(op, Joined(op, cs[..x]), Joined(op, cs[x..][..n - x]), Lenient(cs[n]));
    }
  }

  /** Every draw of the split points gives the same language. */
  lemma {:induction false} BinarizationPreserves(t: Ast, b: Bin)
    requires Possible(t, b)
    ensures BinMeaning(b) == Lenient(t)
    decreases t, 0
  {
    match t
    case Literal(_) =>
    case Range(_, _) =>
    case Sequence(cs) => ArrangementPreserves(Concat, cs, b);
    case Alternation(cs) => ArrangementPreserves(Union, cs, b);
    case Repeat(c, _, _) =>
      if c.Some? {
        BinarizationPreserves(c.value, b.child);
      }
    case Boundary(_) =>
  }

  lemma {:induction false} ArrangementPreserves(op: Op, cs: seq<Ast>, b: Bin)
    requires Arranges(op, cs, b)
    ensures BinMeaning(b) == Joined(op, cs)
    decreases cs, 0
  {
    if |cs| == 1 {
      BinarizationPreserves(cs[0], b);
    } else if |cs| > 1 {
      var x :| ArrangesAt(op, cs, x, b);
      ArrangementPreserves(op, cs[..x], b.left);
      ArrangementPreserves(op, cs[x..], b.right);
      JoinedAt(op, cs, x);
    }
  }

  /** No alternation is empty, outside boundaries. */
  predicate Filled(t: Ast) {
    match t
    case Literal(_) => true
    case Range(_, _) => true
    case Sequence(cs) => forall i :: 0 <= i < |cs| ==> Filled(cs[i])
    case Alternation(cs) => cs != [] && forall i :: 0 <= i < |cs| ==> Filled(cs[i])
    case Repeat(c, _, _) => c.Some? ==> Filled(c.value)
    case Boundary(_) => true
  }

  lemma {:induction false} LenientIsMeaning(t: Ast)
    requires Filled(t)
    ensures Lenient(t) == Meaning(t)
    decreases t, 0
  {
    match t
    case Literal(_) =>
    case Range(_, _) =>
    case Sequence(cs) => JoinedIsMeaning(cs);
    case Alternation(cs) => JoinedIsMeaning(cs);
    case Repeat(c, _, _) =>
      if c.Some? {
        LenientIsMeaning(c.value);
      }
    case Boundary(_) =>
  }

  lemma {:induction false} JoinedIsMeaning(cs: seq<Ast>)
    requires forall i :: 0 <= i < |cs| ==> Filled(cs[i])
    ensures Joined(Concat, cs) == SequenceMeaning(cs)
    ensures cs != [] ==> Joined(Union, cs) == AlternationMeaning(cs)
    decreases cs, 0
  {
    hide Cat, Lenient, Meaning;
    if cs != [] {
      var n := |cs| - 1;
      LenientIsMeaning(cs[n]);
      JoinedIsMeaning(cs[..n]);
      if n == 0 {
        assert cs[..n] == [];
        CatEmpty(Meaning(cs[n]));
        assert SequenceMeaning(cs[..n]) == Empty();
      }
    }
  }

  /** Binarization preserves the language of every expression whose alternations
      have children, whatever the draws. */
  lemma BinarizationPreservesMeaning(t: Ast, b: Bin)
    requires Possible(t, b) && Filled(t)
    ensures BinMeaning(b) == Meaning(t)
  {
    hide *;
    BinarizationPreserves(t, b);
    LenientIsMeaning(t);
  }

  /** The alternation of nothing matches nothing; its leaf matches the empty string. */
  lemma EmptyAlternationIsLost(b: Bin)
    requires Possible(Alternation([]), b)
    ensures [] in BinMeaning(b) && [] !in Meaning(Alternation([]))
  {}

  // --------------------------------------------------------------- sizes and counts

  function Size(b: Bin): nat {
    match b
    case Tip(_) => 1
    case Unary(_, c) => 1 + Size(c)
    case Binary(_, l, r) => 1 + Size(l) + Size(r)
    case Untouched(_) => 0
    case Missing => 0
  }

  /** The dictionaries of counts; c_u and c_b are the sizes of the first two. */
  datatype Counts = Counts(unary: multiset<Quantifier>, binary: multiset<Op>, leaves: multiset<Token>)

  function NoCounts(): Counts { Counts(multiset{}, multiset{}, multiset{}) }

  function Merge(a: Counts, b: Counts): Counts {
    Counts(a.unary + b.unary, a.binary + b.binary, a.leaves + b.leaves)
  }

  function OfUnary(q: Quantifier, n: nat): Counts {
    Counts(if n > 2 then multiset{q} else multiset{}, multiset{}, multiset{})
  }

  function OfBinary(op: Op, n: nat): Counts {
    Counts(multiset{}, if n > 2 then multiset{op} else multiset{}, multiset{})
  }

  function OfLeaf(t: Token): Counts {
    Counts(multiset{}, multiset{}, multiset{t})
  }

  /** What _extract_counts adds: operators only at subtrees of more than two nodes. */
  function Extract(b: Bin): Counts {
    match b
    case Tip(t) => OfLeaf(t)
    case Unary(q, c) => Merge(OfUnary(q, Size(b)), Extract(c))
    case Binary(op, l, r) => Merge(Merge(OfBinary(op, Size(b)), Extract(l)), Extract(r))
    case Untouched(_) => NoCounts()
    case Missing => NoCounts()
  }

  // -------------------------------------------------------- counting the subtrees

  /** The tree and everything below it. */
  function Subtrees(b: Bin): seq<Bin> {
    match b
    case Tip(_) => [b]
    case Unary(_, c) => [b] + Subtrees(c)
    case Binary(_, l, r) => [b] + (Subtrees(l) + Subtrees(r))
    case Untouched(_) => [b]
    case Missing => [b]
  }

  function HowMany(bs: seq<Bin>, p: Bin -> bool): nat {
    if bs == [] then 0 else (if p(bs[0]) then 1 else 0) + HowMany(bs[1..], p)
  }

  lemma {:induction false} HowManyJoined(a: seq<Bin>, b: seq<Bin>, p: Bin -> bool)
    ensures HowMany(a + b, p) == HowMany(a, p) + HowMany(b, p)
  {
    if a == [] {
      assert a + b == b;
    } else {
      HowManyJoined(a[1..], b, p);
      assert (a + b)[1..] == a[1..] + b;
    }
  }

  lemma HowManyFirst(b: Bin, rest: seq<Bin>, p: Bin -> bool)
    ensures HowMany([b] + rest, p) == (if p(b) then 1 else 0) + HowMany(rest, p)
    ensures HowMany([b], p) == if p(b) then 1 else 0
  {
    assert ([b] + rest)[1..] == rest && [b][1..] == [];
  }

  lemma HowManyIn(b: Bin, p: Bin -> bool)
    ensures HowMany(Subtrees(b), p) == (if p(b) then 1 else 0) +
      match b
      case Unary(_, c) => HowMany(Subtrees(c), p)
      case Binary(_, l, r) => HowMany(Subtrees(l), p) + HowMany(Subtrees(r), p)
      case _ => 0
  {
    hide HowMany;
    match b
    case Tip(_) => HowManyFirst(b, [], p);
    case Unary(_, c) => HowManyFirst(b, Subtrees(c), p);
    case Binary(_, l, r) =>
      HowManyFirst(b, Subtrees(l) + Subtrees(r), p);
      HowManyJoined(Subtrees(l), Subtrees(r), p);
    case Untouched(_) => HowManyFirst(b, [], p);
    case Missing => HowManyFirst(b, [], p);
  }

  /** The size is the number of leaves, unary and binary nodes. */
  lemma {:induction false} SizeIsHowMany(b: Bin)
    ensures Size(b) == HowMany(Subtrees(b), (s: Bin) => s.Tip? || s.Unary? || s.Binary?)
  {
    hide HowMany, Subtrees;
    HowManyIn(b, (s: Bin) => s.Tip? || s.Unary? || s.Binary?);
    match b
    case Tip(_) =>
    case Unary(_, c) => SizeIsHowMany(c);
    case Binary(_, l, r) =>
      SizeIsHowMany(l);
      SizeIsHowMany(r);
    case Untouched(_) =>
    case Missing =>
  }

  function IsLeaf(t: Token): Bin -> bool {
    (s: Bin) => s == Tip(t)
  }

  function IsUnary(q: Quantifier): Bin -> bool {
    (s: Bin) => s.Unary? && s.quantifier == q && Size(s) > 2
  }

  function IsBinary(op: Op): Bin -> bool {
    (s: Bin) => s.Binary? && s.op == op && Size(s) > 2
  }

  /** Each token is counted as often as it is a leaf. */
  lemma {:induction false} LeavesAreHowMany(b: Bin, t: Token)
    ensures Extract(b).leaves[t] == HowMany(Subtrees(b), IsLeaf(t))
  {
    hide HowMany, Subtrees, Size;
    HowManyIn(b, IsLeaf(t));
    match b
    case Tip(_) =>
    case Unary(_, c) => LeavesAreHowMany(c, t);
    case Binary(_, l, r) =>
      LeavesAreHowMany(l, t);
      LeavesAreHowMany(r, t);
    case Untouched(_) =>
    case Missing =>
  }

  /** Each quantifier is counted as often as it stands over more than two nodes. */
  lemma {:induction false} UnaryIsHowMany(b: Bin, q: Quantifier)
    ensures Extract(b).unary[q] == HowMany(Subtrees(b), IsUnary(q))
  {
    hide HowMany, Subtrees, Size;
    HowManyIn(b, IsUnary(q));
    match b
    case Tip(_) =>
    case Unary(_, c) => UnaryIsHowMany(c, q);
    case Binary(_, l, r) =>
      UnaryIsHowMany(l, q);
      UnaryIsHowMany(r, q);
    case Untouched(_) =>
    case Missing =>
  }

  /** And so is each binary operator. */
  lemma {:induction false} BinaryIsHowMany(b: Bin, op: Op)
    ensures Extract(b).binary[op] == HowMany(Subtrees(b), IsBinary(op))
  {
    hide HowMany, Subtrees, Size;
    HowManyIn(b, IsBinary(op));
    match b
    case Tip(_) =>
    case Unary(_, c) => BinaryIsHowMany(c, op);
    case Binary(_, l, r) =>
      BinaryIsHowMany(l, op);
      BinaryIsHowMany(r, op);
    case Untouched(_) =>
    case Missing =>
  }

  // --------------------------------------------------- the same, from the expression

  function SizeOf(t: Ast): nat
    decreases t, 0
  {
    match t
    case Literal(_) => 1
    case Range(_, _) => 1
    case Sequence(cs) => SizeOfAll(cs)
    case Alternation(cs) => SizeOfAll(cs)
    case Repeat(c, _, _) => 1 + if c.Some? then SizeOf(c.value) else 0
    case Boundary(_) => 0
  }

  /** k children joined by k - 1 binary nodes; one leaf for none. */
  function SizeOfAll(cs: seq<Ast>): nat
    decreases cs, 0
  {
    if cs == [] then 1
    else if |cs| == 1 then SizeOf(cs[0])
    else SizeOfAll(cs[..|cs| - 1]) + 1 + SizeOf(cs[|cs| - 1])
  }

  /** Counts as if every binary node were counted. */
  function CountsOf(t: Ast): Counts
    decreases t, 0
  {
    match t
    case Literal(v) => OfLeaf(Word(v))
    case Range(x, y) => OfLeaf(Span(x, y))
    case Sequence(cs) => CountsOfAll(Concat, cs)
    case Alternation(cs) => CountsOfAll(Union, cs)
    case Repeat(c, min, max) =>
      Merge(OfUnary(Quantifier(min, max), SizeOf(t)), if c.Some? then CountsOf(c.value) else NoCounts())
    case Boundary(_) => NoCounts()
  }

  function CountsOfAll(op: Op, cs: seq<Ast>): Counts
    decreases cs, 0
  {
    if cs == [] then OfLeaf(EmptyWord)
    else if |cs| == 1 then CountsOf(cs[0])
    else Merge(Merge(OfBinary(op, 3), CountsOfAll(op, cs[..|cs| - 1])), CountsOf(cs[|cs| - 1]))
  }

  // ------------------------------------------------------------ what no draw changes

  lemma {:induction false} SizeOfAllAt(cs: seq<Ast>, x: int)
    requires 1 <= x < |cs|
    ensures SizeOfAll(cs) == SizeOfAll(cs[..x]) + 1 + SizeOfAll(cs[x..])
    decreases |cs|
  {
    hide SizeOf;
    var n := |cs| - 1;
    if x == n {
      assert cs[x..] == [cs[n]];
    } else {
      SizeOfAllAt(cs[..n], x);
      assert cs[..n][..x] == cs[..x] && cs[..n][x..] == cs[x..][..n - x];
      assert cs[x..][n - x] == cs[n];
    }
  }

  lemma {:induction false} SizeIsFixed(t: Ast, b: Bin)
    requires Possible(t, b)
    ensures Size(b) == SizeOf(t)
    decreases t, 0
  {
    match t
    case Literal(_) =>
    case Range(_, _) =>
    case Sequence(cs) => SizeOfAllIsFixed(Concat, cs, b);
    case Alternation(cs) => SizeOfAllIsFixed(Union, cs, b);
    case Repeat(c, _, _) =>
      if c.Some? {
        SizeIsFixed(c.value, b.child);
      }
    case Boundary(_) =>
  }

  lemma {:induction false} SizeOfAllIsFixed(op: Op, cs: seq<Ast>, b: Bin)
    requires Arranges(op, cs, b)
    ensures Size(b) == SizeOfAll(cs)
    decreases cs, 0
  {
    if |cs| == 1 {
      SizeIsFixed(cs[0], b);
    } else if |cs| > 1 {
      var x :| ArrangesAt(op, cs, x, b);
      SizeOfAllIsFixed(op, cs[..x], b.left);
      SizeOfAllIsFixed(op, cs[x..], b.right);
      SizeOfAllAt(cs, x);
    }
  }

  lemma MergeShift(o: Counts, a: Counts, b: Counts, c: Counts)
    ensures Merge(Merge(o, Merge(Merge(o, a), b)), c) == Merge(Merge(o, a), Merge(Merge(o, b), c))
  {}

  lemma {:induction false} CountsOfAllAt(op: Op, cs: seq<Ast>, x: int)
    requires 1 <= x < |cs|
    ensures CountsOfAll(op, cs) == Merge(Merge(OfBinary(op, 3), CountsOfAll(op, cs[..x])), CountsOfAll(op, cs[x..]))
    decreases |cs|
  {
    hide Merge, CountsOf;
    var n := |cs| - 1;
    if x == n {
      assert cs[x..] == [cs[n]];
    } else {
      CountsOfAllAt(op, cs[..n], x);
      assert cs[..n][..x] == cs[..x] && cs[..n][x..] == cs[x..][..n - x];
      assert cs[x..][n - x] == cs[n];
      MergeShift(OfBinary(op, 3), CountsOfAll(op, cs[..x]), CountsOfAll(op, cs[x..][..n - x]), CountsOf(cs[n]));
    }
  }

  /** a misses nothing but binary nodes of b. */
  predicate Below(a: Counts, b: Counts) {
    a.unary == b.unary && a.leaves == b.leaves && a.binary <= b.binary
  }

  lemma BelowMerge(a: Counts, b: Counts, c: Counts, d: Counts)
    requires Below(a, b) && Below(c, d)
    ensures Below(Merge(a, c), Merge(b, d))
    ensures Merge(a, c) == Merge(b, d) <==> a == b && c == d
  {
    if Merge(a, c) == Merge(b, d) {
      forall o ensures a.binary[o] == b.binary[o] && c.binary[o] == d.binary[o] {
        assert Merge(a, c).binary[o] == Merge(b, d).binary[o];
      }
      assert a.binary == b.binary && c.binary == d.binary;
    }
  }

  lemma {:induction false} ExtractIsBelow(t: Ast, b: Bin)
    requires Possible(t, b)
    ensures Below(Extract(b), CountsOf(t))
    decreases t, 0
  {
    hide Merge, Below;
    BelowItself(Extract(b));
    match t
    case Literal(_) =>
    case Range(_, _) =>
    case Sequence(cs) => ExtractAllIsBelow(Concat, cs, b);
    case Alternation(cs) => ExtractAllIsBelow(Union, cs, b);
    case Repeat(c, min, max) =>
      SizeIsFixed(t, b);
      var o := OfUnary(b.quantifier, Size(b));
      BelowItself(o);
      BelowItself(NoCounts());
      if c.Some? {
        ExtractIsBelow(c.value, b.child);
        BelowMerge(o, o, Extract(b.child), CountsOf(c.value));
      } else {
        BelowMerge(o, o, NoCounts(), NoCounts());
      }
    case Boundary(_) =>
  }

  lemma {:induction false} ExtractAllIsBelow(op: Op, cs: seq<Ast>, b: Bin)
    requires Arranges(op, cs, b)
    ensures Below(Extract(b), CountsOfAll(op, cs))
    decreases cs, 0
  {
    hide Merge, Below, Possible;
    BelowItself(Extract(b));
    if |cs| == 1 {
      ExtractIsBelow(cs[0], b);
    } else if |cs| > 1 {
      var x :| ArrangesAt(op, cs, x, b);
      ExtractAllIsBelow(op, cs[..x], b.left);
      ExtractAllIsBelow(op, cs[x..], b.right);
      ExtractAt(op, cs, x, b);
    }
  }

  lemma BelowItself(a: Counts)
    ensures Below(a, a)
  {}

  lemma BelowNode(op: Op, n: nat)
    ensures Below(OfBinary(op, n), OfBinary(op, 3))
    ensures OfBinary(op, n) == OfBinary(op, 3) <==> n > 2
  {
    assert OfBinary(op, 3).binary[op] == 1;
  }

  /** A binary node is fully counted exactly when it has more than two nodes and
      both its sides are fully counted. */
  lemma ExtractAt(op: Op, cs: seq<Ast>, x: int, b: Bin)
    requires |cs| > 1 && b.Binary? && b.op == op && ArrangesAt(op, cs, x, b)
    requires Below(Extract(b.left), CountsOfAll(op, cs[..x]))
    requires Below(Extract(b.right), CountsOfAll(op, cs[x..]))
    ensures Below(Extract(b), CountsOfAll(op, cs))
    ensures Extract(b) == CountsOfAll(op, cs) <==>
              Size(b) > 2 && Extract(b.left) == CountsOfAll(op, cs[..x]) && Extract(b.right) == CountsOfAll(op, cs[x..])
  {
    hide Merge, Below, Possible, Arranges, OfBinary, CountsOfAll;
    CountsOfAllAt(op, cs, x);
    BelowNode(op, Size(b));
    var o, p := OfBinary(op, Size(b)), OfBinary(op, 3);
    BelowMerge(o, p, Extract(b.left), CountsOfAll(op, cs[..x]));
    BelowMerge(Merge(o, Extract(b.left)), Merge(p, CountsOfAll(op, cs[..x])),
               Extract(b.right), CountsOfAll(op, cs[x..]));
  }

  // ------------------------------------------------- when every binary node is counted

  predicate Heavy(a: Ast, b: Ast) {
    SizeOf(a) + SizeOf(b) >= 2
  }

  /** No two neighbours below a sequence or an alternation have fewer than two nodes
      together: at least one of any two is not a boundary, and not beside a single node. */
  predicate Solid(t: Ast)
    decreases t, 0
  {
    match t
    case Literal(_) => true
    case Range(_, _) => true
    case Sequence(cs) => SolidRun(cs)
    case Alternation(cs) => SolidRun(cs)
    case Repeat(c, _, _) => c.Some? ==> Solid(c.value)
    case Boundary(_) => true
  }

  predicate SolidRun(cs: seq<Ast>)
    decreases cs, 0
  {
    && (forall i :: 0 <= i < |cs| ==> Solid(cs[i]))
    && (forall i {:trigger cs[i]} :: 0 < i < |cs| ==> Heavy(cs[i - 1], cs[i]))
  }

  lemma {:induction false} HeavyRun(cs: seq<Ast>)
    requires |cs| > 1 && SolidRun(cs)
    ensures SizeOfAll(cs) > 2
    decreases |cs|
  {
    hide SizeOf, Solid;
    var n := |cs| - 1;
    if n == 1 {
      assert Heavy(cs[0], cs[1]);
      assert SizeOfAll(cs[..n]) == SizeOf(cs[0]);
    } else {
      SolidSlice(cs, 0, n);
      assert cs[0..n] == cs[..n];
      HeavyRun(cs[..n]);
    }
  }

  lemma SolidSlice(cs: seq<Ast>, x: int, y: int)
    requires 0 <= x <= y <= |cs| && SolidRun(cs)
    ensures SolidRun(cs[x..y])
  {
    hide Solid, Heavy;
    var s := cs[x..y];
    forall i | 0 <= i < |s| ensures Solid(s[i]) {
      assert s[i] == cs[x + i];
    }
    forall i | 0 < i < |s| ensures Heavy(s[i - 1], s[i]) {
      assert s[i] == cs[x + i] && s[i - 1] == cs[x + i - 1];
    }
  }

  /** In a solid expression every draw counts the same, in full. */
  lemma {:induction false} SolidIsCounted(t: Ast, b: Bin)
    requires Possible(t, b) && Solid(t)
    ensures Extract(b) == CountsOf(t)
    decreases t, 0
  {
    hide Merge;
    match t
    case Literal(_) =>
    case Range(_, _) =>
    case Sequence(cs) => SolidRunIsCounted(Concat, cs, b);
    case Alternation(cs) => SolidRunIsCounted(Union, cs, b);
    case Repeat(c, min, max) =>
      SizeIsFixed(t, b);
      if c.Some? {
        SolidIsCounted(c.value, b.child);
      }
    case Boundary(_) =>
  }

  lemma {:induction false} SolidRunIsCounted(op: Op, cs: seq<Ast>, b: Bin)
    requires Arranges(op, cs, b) && SolidRun(cs)
    ensures Extract(b) == CountsOfAll(op, cs)
    decreases cs, 0
  {
    hide Merge, Below, Possible, Solid;
    if |cs| == 1 {
      SolidIsCounted(cs[0], b);
    } else if |cs| > 1 {
      var x :| ArrangesAt(op, cs, x, b);
      SolidSlice(cs, 0, x);
      SolidSlice(cs, x, |cs|);
      assert cs[0..x] == cs[..x] && cs[x..|cs|] == cs[x..];
      SolidRunIsCounted(op, cs[..x], b.left);
      SolidRunIsCounted(op, cs[x..], b.right);
      BelowItself(Extract(b.left));
      BelowItself(Extract(b.right));
      ExtractAt(op, cs, x, b);
      SizeOfAllIsFixed(op, cs, b);
      HeavyRun(cs);
    }
  }

  // ----------------------------------------------------- and otherwise some draw is not

  lemma {:induction false} SomeResult(t: Ast) returns (b: Bin)
    ensures Possible(t, b)
    decreases t, 0
  {
    match t
    case Literal(v) => b := Tip(Word(v));
    case Range(x, y) => b := Tip(Span(x, y));
    case Sequence(cs) => b := SomeArrangement(Concat, cs);
    case Alternation(cs) => b := SomeArrangement(Union, cs);
    case Repeat(c, min, max) =>
      var child := Missing;
      if c.Some? {
        child := SomeResult(c.value);
      }
      b := Unary(Quantifier(min, max), child);
    case Boundary(_) => b := Untouched(t);
  }

  lemma {:induction false} SomeArrangement(op: Op, cs: seq<Ast>) returns (b: Bin)
    ensures Arranges(op, cs, b)
    decreases cs, 0
  {
    if cs == [] {
      b := Tip(EmptyWord);
    } else if |cs| == 1 {
      b := SomeResult(cs[0]);
    } else {
      var l := SomeArrangement(op, cs[..1]);
      var r := SomeArrangement(op, cs[1..]);
      b := Binary(op, l, r);
      assert ArrangesAt(op, cs, 1, b);
    }
  }

  /** A draw that joins these two arrangements counts no more fully than either. */
  lemma Compose(op: Op, cs: seq<Ast>, x: int, l: Bin, r: Bin) returns (b: Bin)
    requires 1 <= x < |cs| && Arranges(op, cs[..x], l) && Arranges(op, cs[x..], r)
    requires Extract(l) != CountsOfAll(op, cs[..x]) || Extract(r) != CountsOfAll(op, cs[x..])
             || SizeOfAll(cs) <= 2
    ensures Arranges(op, cs, b) && Extract(b) != CountsOfAll(op, cs)
  {
    hide Below, Possible, CountsOfAll, SizeOfAll, Extract;
    b := Binary(op, l, r);
    assert ArrangesAt(op, cs, x, b);
    ExtractAllIsBelow(op, cs[..x], l);
    ExtractAllIsBelow(op, cs[x..], r);
    SizeOfAllIsFixed(op, cs, b);
    ExtractAt(op, cs, x, b);
  }

  /** A draw that makes neighbours i - 1 and i the two sides of one node. */
  lemma {:induction false} JoinNeighbours(op: Op, cs: seq<Ast>, i: int) returns (b: Bin)
    requires 0 < i < |cs| && !Heavy(cs[i - 1], cs[i])
    ensures Arranges(op, cs, b) && Extract(b) != CountsOfAll(op, cs)
    decreases |cs|
  {
    hide Arranges, Extract, CountsOfAll, SizeOf;
    var n := |cs| - 1;
    if n == 1 {
      var l := SomeArrangement(op, cs[..1]);
      var r := SomeArrangement(op, cs[1..]);
      assert SizeOfAll(cs) == SizeOfAll(cs[..1]) + 1 + SizeOf(cs[1]);
      b := Compose(op, cs, 1, l, r);
    } else if i > 1 {
      var l := SomeArrangement(op, cs[..1]);
      var r := JoinNeighbours(op, cs[1..], i - 1);
      b := Compose(op, cs, 1, l, r);
    } else {
      var l := JoinNeighbours(op, cs[..n], i);
      var r := SomeArrangement(op, cs[n..]);
      b := Compose(op, cs, n, l, r);
    }
  }

  /** A draw that keeps a given result for child i. */
  lemma {:induction false} KeepChild(op: Op, cs: seq<Ast>, i: int, c: Bin) returns (b: Bin)
    requires 0 <= i < |cs| && Possible(cs[i], c) && Extract(c) != CountsOf(cs[i])
    ensures Arranges(op, cs, b) && Extract(b) != CountsOfAll(op, cs)
    decreases |cs|
  {
    hide Possible, Extract, CountsOf;
    var n := |cs| - 1;
    if n == 0 {
      b := c;
    } else if i > 0 {
      var l := SomeArrangement(op, cs[..1]);
      var r := KeepChild(op, cs[1..], i - 1, c);
      b := Compose(op, cs, 1, l, r);
    } else {
      var l := KeepChild(op, cs[..n], i, c);
      var r := SomeArrangement(op, cs[n..]);
      b := Compose(op, cs, n, l, r);
    }
  }

  lemma {:induction false} LightIsMissed(t: Ast) returns (b: Bin)
    requires !Solid(t)
    ensures Possible(t, b) && Extract(b) != CountsOf(t)
    decreases t, 0
  {
    hide Merge, Arranges;
    match t
    case Sequence(cs) => b := LightRunIsMissed(Concat, cs);
    case Alternation(cs) => b := LightRunIsMissed(Union, cs);
    case Repeat(c, min, max) =>
      var child := LightIsMissed(c.value);
      b := Unary(Quantifier(min, max), child);
      SizeIsFixed(t, b);
      var o := OfUnary(b.quantifier, Size(b));
      BelowItself(o);
      ExtractIsBelow(c.value, child);
      BelowMerge(o, o, Extract(child), CountsOf(c.value));
  }

  lemma {:induction false} LightRunIsMissed(op: Op, cs: seq<Ast>) returns (b: Bin)
    requires !SolidRun(cs)
    ensures Arranges(op, cs, b) && Extract(b) != CountsOfAll(op, cs)
    decreases cs, 0
  {
    hide Solid, Extract, CountsOfAll, Arranges, Possible, Heavy;
    if i :| 0 < i < |cs| && !Heavy(cs[i - 1], cs[i]) {
      b := JoinNeighbours(op, cs, i);
    } else {
      var i :| 0 <= i < |cs| && !Solid(cs[i]);
      var c := LightIsMissed(cs[i]);
      b := KeepChild(op, cs, i, c);
    }
  }

  /** Every draw counts every binary node exactly when the expression is solid. */
  lemma CountedIffSolid(t: Ast)
    ensures Solid(t) <==> forall b :: Possible(t, b) ==> Extract(b) == CountsOf(t)
  {
    hide Possible, Solid, Extract, CountsOf;
    if Solid(t) {
      forall b | Possible(t, b) ensures Extract(b) == CountsOf(t) {
        SolidIsCounted(t, b);
      }
    } else {
      var b := LightIsMissed(t);
    }
  }

  /** A boundary before two letters: one draw counts two '.' nodes, another one. */
  lemma DrawsDisagree()
    ensures exists t, b, c :: Possible(t, b) && Possible(t, c) && Extract(b).binary != Extract(c).binary
  {
    hide Possible, Extract;
    var x, y, z := Boundary(None), Literal([1]), Literal([2]);
    var l, m, r := Untouched(x), Tip(Word([1])), Tip(Word([2]));
    PossibleLeaves(1, 2);
    DrawsOfThree(x, y, z, l, m, r);
    ExtractOfThree(l, Word([1]), Word([2]));
    assert multiset{Concat, Concat}[Concat] == 2 && multiset{Concat}[Concat] == 1;
  }

  lemma PossibleLeaves(v: nat, w: nat)
    ensures Possible(Boundary(None), Untouched(Boundary(None)))
    ensures Possible(Literal([v]), Tip(Word([v]))) && Possible(Literal([w]), Tip(Word([w])))
  {}

  lemma ExtractOfThree(l: Bin, m: Token, r: Token)
    requires l.Untouched?
    ensures Extract(Binary(Concat, l, Binary(Concat, Tip(m), Tip(r)))).binary == multiset{Concat, Concat}
    ensures Extract(Binary(Concat, Binary(Concat, l, Tip(m)), Tip(r))).binary == multiset{Concat}
  {
    hide Extract;
    var mr, lm := Binary(Concat, Tip(m), Tip(r)), Binary(Concat, l, Tip(m));
    BinaryOf(Concat, Tip(m), Tip(r));
    BinaryOf(Concat, l, Tip(m));
    BinaryOf(Concat, l, mr);
    BinaryOf(Concat, lm, Tip(r));
    assert Extract(mr).binary == multiset{Concat} && Extract(lm).binary == multiset{};
  }

  lemma BinaryOf(op: Op, l: Bin, r: Bin)
    ensures Extract(Binary(op, l, r)).binary
         == (if Size(l) + Size(r) > 1 then multiset{op} else multiset{}) + Extract(l).binary + Extract(r).binary
    ensures r.Tip? ==> Extract(r).binary == multiset{}
    ensures l.Tip? || l.Untouched? ==> Extract(l).binary == multiset{}
  {}

  lemma DrawsOfThree(x: Ast, y: Ast, z: Ast, l: Bin, m: Bin, r: Bin)
    requires Possible(x, l) && Possible(y, m) && Possible(z, r)
    ensures Possible(Sequence([x, y, z]), Binary(Concat, l, Binary(Concat, m, r)))
    ensures Possible(Sequence([x, y, z]), Binary(Concat, Binary(Concat, l, m), r))
  {
    hide Possible;
    var cs := [x, y, z];
    assert cs[..1] == [x] && cs[1..] == [y, z] && cs[..2] == [x, y] && cs[2..] == [z];
    DrawOfTwo(y, z, m, r);
    DrawOfTwo(x, y, l, m);
    assert ArrangesAt(Concat, cs, 1, Binary(Concat, l, Binary(Concat, m, r)));
    assert ArrangesAt(Concat, cs, 2, Binary(Concat, Binary(Concat, l, m), r));
    PossibleSequence(cs, Binary(Concat, l, Binary(Concat, m, r)));
    PossibleSequence(cs, Binary(Concat, Binary(Concat, l, m), r));
  }

  lemma DrawOfTwo(x: Ast, y: Ast, l: Bin, m: Bin)
    requires Possible(x, l) && Possible(y, m)
    ensures Arranges(Concat, [x, y], Binary(Concat, l, m))
  {
    hide Possible;
    assert [x, y][..1] == [x] && [x, y][1..] == [y];
    assert ArrangesAt(Concat, [x, y], 1, Binary(Concat, l, m));
  }

  lemma PossibleSequence(cs: seq<Ast>, b: Bin)
    ensures Possible(Sequence(cs), b) == Arranges(Concat, cs, b)
  {
    hide Arranges;
  }

  // ------------------------------------------------------------- when all draws agree

  predicate AllHeavy(cs: seq<Ast>) {
    forall i {:trigger cs[i]} :: 0 < i < |cs| ==> Heavy(cs[i - 1], cs[i])
  }

  predicate AllBare(cs: seq<Ast>) {
    forall i :: 0 <= i < |cs| ==> SizeOf(cs[i]) == 0
  }

  /** However the run is split, as many binary nodes are missed: there is only one way
      to split it, none is ever missed, or it is one of the two short runs in which the
      same number always is. */
  predicate RunAgrees(cs: seq<Ast>) {
    || |cs| <= 2
    || AllHeavy(cs)
    || (|cs| == 3 && (Heavy(cs[0], cs[1]) <==> Heavy(cs[1], cs[2])))
    || (|cs| == 4 && AllBare(cs))
  }

  predicate Settled(t: Ast)
    decreases t, 0
  {
    match t
    case Literal(_) => true
    case Range(_, _) => true
    case Sequence(cs) => SettledRun(cs)
    case Alternation(cs) => SettledRun(cs)
    case Repeat(c, _, _) => c.Some? ==> Settled(c.value)
    case Boundary(_) => true
  }

  predicate SettledRun(cs: seq<Ast>)
    decreases cs, 0
  {
    (forall i :: 0 <= i < |cs| ==> Settled(cs[i])) && RunAgrees(cs)
  }

  /** The draw that always splits off the last child. */
  function Comb(t: Ast): Bin
    decreases t, 0
  {
    match t
    case Literal(v) => Tip(Word(v))
    case Range(x, y) => Tip(Span(x, y))
    case Sequence(cs) => CombRun(Concat, cs)
    case Alternation(cs) => CombRun(Union, cs)
    case Repeat(c, min, max) => Unary(Quantifier(min, max), if c.Some? then Comb(c.value) else Missing)
    case Boundary(_) => Untouched(t)
  }

  function CombRun(op: Op, cs: seq<Ast>): Bin
    decreases cs, 0
  {
    if cs == [] then Tip(EmptyWord)
    else if |cs| == 1 then Comb(cs[0])
    else Binary(op, CombRun(op, cs[..|cs| - 1]), Comb(cs[|cs| - 1]))
  }

  lemma {:induction false} CombIsPossible(t: Ast)
    ensures Possible(t, Comb(t))
    decreases t, 0
  {
    match t
    case Literal(_) =>
    case Range(_, _) =>
    case Sequence(cs) => CombArranges(Concat, cs);
    case Alternation(cs) => CombArranges(Union, cs);
    case Repeat(c, _, _) =>
      if c.Some? {
        CombIsPossible(c.value);
      }
    case Boundary(_) =>
  }

  lemma {:induction false} CombArranges(op: Op, cs: seq<Ast>)
    ensures Arranges(op, cs, CombRun(op, cs))
    decreases cs, 0
  {
    hide Possible, Comb;
    if |cs| == 1 {
      CombIsPossible(cs[0]);
    } else if |cs| > 1 {
      var k := |cs| - 1;
      CombArranges(op, cs[..k]);
      CombIsPossible(cs[k]);
      assert cs[k..] == [cs[k]];
      assert ArrangesAt(op, cs, k, CombRun(op, cs));
    }
  }

  /** The binary nodes of the comb that are too small to be counted. */
  function Missed(cs: seq<Ast>): (r: nat)
    ensures cs != [] ==> r < |cs|
    ensures cs == [] ==> r == 0
  {
    if |cs| < 2 then 0 else Missed(cs[..|cs| - 1]) + if SizeOfAll(cs) <= 2 then 1 else 0
  }

  function ChildCounts(cs: seq<Ast>): Counts {
    if cs == [] then NoCounts() else Merge(ChildCounts(cs[..|cs| - 1]), Extract(Comb(cs[|cs| - 1])))
  }

  function OfNodes(op: Op, n: nat): Counts {
    Counts(multiset{}, multiset{}[op := n], multiset{})
  }

  lemma OfNodesAdd(op: Op, a: nat, b: nat)
    ensures Merge(OfNodes(op, a), OfNodes(op, b)) == OfNodes(op, a + b)
  {}

  lemma OfBinaryIsOfNodes(op: Op, n: nat)
    ensures OfBinary(op, n) == OfNodes(op, if n > 2 then 1 else 0)
  {}

  lemma MergeCommutes(a: Counts, b: Counts)
    ensures Merge(a, b) == Merge(b, a)
  {}

  /** A node over two runs adds up their children and their nodes. */
  lemma MergeNode(op: Op, x: nat, y: nat, z: nat, a: Counts, b: Counts)
    ensures Merge(Merge(OfNodes(op, x), Merge(a, OfNodes(op, y))), Merge(b, OfNodes(op, z)))
         == Merge(Merge(a, b), OfNodes(op, x + y + z))
  {
    hide Merge, OfNodes;
    var p, q, r := OfNodes(op, x), OfNodes(op, y), OfNodes(op, z);
    MergeAssoc(p, Merge(a, q), Merge(b, r));
    MergeAssoc(a, q, Merge(b, r));
    MergeAssoc(q, b, r);
    MergeCommutes(q, b);
    MergeAssoc(b, q, r);
    MergeAssoc(a, b, Merge(q, r));
    MergeCommutes(p, Merge(Merge(a, b), Merge(q, r)));
    MergeAssoc(Merge(a, b), Merge(q, r), p);
    OfNodesAdd(op, y, z);
    OfNodesAdd(op, y + z, x);
  }

  lemma {:induction false} CombCounts(op: Op, cs: seq<Ast>)
    requires cs != []
    ensures Extract(CombRun(op, cs)) == Merge(ChildCounts(cs), OfNodes(op, |cs| - 1 - Missed(cs)))
  {
    hide Merge, OfNodes, OfBinary, Comb, Extract;
    var k := |cs| - 1;
    if k == 0 {
      assert cs[..k] == [];
      OneChild(op, cs[0]);
    } else {
      CombCounts(op, cs[..k]);
      CombIsPossible(cs[k]);
      CombArranges(op, cs);
      SizeOfAllIsFixed(op, cs, CombRun(op, cs));
      ExtractBinary(op, CombRun(op, cs[..k]), Comb(cs[k]));
      OfBinaryIsOfNodes(op, SizeOfAll(cs));
      OfNoNodes(op, Extract(Comb(cs[k])));
      MergeNode(op, if SizeOfAll(cs) > 2 then 1 else 0, k - 1 - Missed(cs[..k]), 0,
                ChildCounts(cs[..k]), Extract(Comb(cs[k])));
    }
  }

  lemma ExtractBinary(op: Op, l: Bin, r: Bin)
    ensures var b := Binary(op, l, r); Extract(b) == Merge(Merge(OfBinary(op, Size(b)), Extract(l)), Extract(r))
  {}

  lemma OfNoNodes(op: Op, a: Counts)
    ensures Merge(a, OfNodes(op, 0)) == a
  {}

  lemma OneChild(op: Op, t: Ast)
    ensures Extract(Comb(t)) == Merge(Merge(NoCounts(), Extract(Comb(t))), OfNodes(op, 0))
  {}

  lemma {:induction false} ChildCountsAt(cs: seq<Ast>, x: int)
    requires 0 <= x <= |cs|
    ensures ChildCounts(cs) == Merge(ChildCounts(cs[..x]), ChildCounts(cs[x..]))
    decreases |cs|
  {
    hide Merge, Comb, Extract;
    MergeNothing(ChildCounts(cs[..x]));
    if x == |cs| {
      assert cs[..x] == cs && cs[x..] == [];
    } else {
      var k := |cs| - 1;
      ChildCountsAt(cs[..k], x);
      assert cs[..k][..x] == cs[..x] && cs[..k][x..] == cs[x..][..k - x];
      assert cs[x..][k - x] == cs[k];
      MergeAssoc(ChildCounts(cs[..x]), ChildCounts(cs[x..][..k - x]), Extract(Comb(cs[k])));
    }
  }

  lemma Run2(a: Ast, b: Ast)
    ensures SizeOfAll([a, b]) == SizeOf(a) + 1 + SizeOf(b)
    ensures Missed([a, b]) == if Heavy(a, b) then 0 else 1
  {
    hide SizeOf;
    assert [a, b][..1] == [a];
    assert Missed([a]) == 0 && SizeOfAll([a]) == SizeOf(a);
  }

  lemma Run3(a: Ast, b: Ast, c: Ast)
    ensures SizeOfAll([a, b, c]) == SizeOf(a) + SizeOf(b) + SizeOf(c) + 2
    ensures Missed([a, b, c]) == Missed([a, b]) + if SizeOf(a) + SizeOf(b) + SizeOf(c) == 0 then 1 else 0
  {
    hide SizeOf;
    Run2(a, b);
    assert [a, b, c][..2] == [a, b];
  }

  lemma Run4(a: Ast, b: Ast, c: Ast, d: Ast)
    ensures SizeOfAll([a, b, c, d]) == SizeOf(a) + SizeOf(b) + SizeOf(c) + SizeOf(d) + 3
    ensures Missed([a, b, c, d]) == Missed([a, b, c])
  {
    hide SizeOf;
    Run3(a, b, c);
    assert [a, b, c, d][..3] == [a, b, c];
  }

  lemma {:induction false} HeavySize(cs: seq<Ast>)
    requires |cs| > 1 && AllHeavy(cs)
    ensures SizeOfAll(cs) > 2
    decreases |cs|
  {
    hide SizeOf;
    var n := |cs| - 1;
    if n == 1 {
      assert Heavy(cs[0], cs[1]);
      assert SizeOfAll(cs[..n]) == SizeOf(cs[0]);
    } else {
      HeavySize(cs[..n]);
    }
  }

  lemma {:induction false} HeavyMissesNone(cs: seq<Ast>)
    requires AllHeavy(cs)
    ensures Missed(cs) == 0
  {
    hide SizeOf;
    if |cs| > 1 {
      HeavySize(cs);
      HeavyMissesNone(cs[..|cs| - 1]);
    }
  }

  lemma AgreesSlice(cs: seq<Ast>, i: int, j: int)
    requires 0 <= i <= j <= |cs| && RunAgrees(cs)
    ensures RunAgrees(cs[i..j]) && (AllHeavy(cs) ==> AllHeavy(cs[i..j]))
  {
    hide Heavy, SizeOf;
    var s := cs[i..j];
    if AllHeavy(cs) {
      forall k | 0 < k < |s| ensures Heavy(s[k - 1], s[k]) {
        assert s[k] == cs[i + k] && s[k - 1] == cs[i + k - 1];
      }
    } else if |s| == |cs| {
      assert s == cs;
    } else if |s| == 3 {
      BareIsLight(cs[i], cs[i + 1]);
      BareIsLight(cs[i + 1], cs[i + 2]);
    }
  }

  lemma BareIsLight(a: Ast, b: Ast)
    ensures SizeOf(a) == 0 && SizeOf(b) == 0 ==> !Heavy(a, b)
  {}

  /** In a run that agrees, a split changes nothing about how many nodes are missed. */
  lemma MissedAt(cs: seq<Ast>, x: int)
    requires RunAgrees(cs) && 1 <= x < |cs|
    ensures Missed(cs) == Missed(cs[..x]) + Missed(cs[x..]) + if SizeOfAll(cs) <= 2 then 1 else 0
  {
    hide SizeOf, SizeOfAll, Missed, AllHeavy, Heavy, AllBare;
    if AllHeavy(cs) {
      MissedAtHeavy(cs, x);
    } else if |cs| == 2 {
      MissedAt2(cs, x);
    } else if |cs| == 3 {
      MissedAt3(cs, x);
    } else {
      MissedAt4(cs, x);
    }
  }

  lemma MissedAtHeavy(cs: seq<Ast>, x: int)
    requires AllHeavy(cs) && 1 <= x < |cs|
    ensures Missed(cs) == Missed(cs[..x]) + Missed(cs[x..]) && SizeOfAll(cs) > 2
  {
    hide SizeOf, SizeOfAll, Missed, AllHeavy;
    HeavySize(cs);
    HeavyMissesNone(cs);
    AgreesSlice(cs, 0, x);
    AgreesSlice(cs, x, |cs|);
    assert cs[0..x] == cs[..x] && cs[x..|cs|] == cs[x..];
    HeavyMissesNone(cs[..x]);
    HeavyMissesNone(cs[x..]);
  }

  lemma BareFour(cs: seq<Ast>)
    requires |cs| == 4 && AllBare(cs)
    ensures SizeOf(cs[0]) == SizeOf(cs[1]) == SizeOf(cs[2]) == SizeOf(cs[3]) == 0
  {
    hide SizeOf;
  }

  lemma MissedOne(a: Ast)
    ensures Missed([a]) == 0
  {}

  lemma MissedAt2(cs: seq<Ast>, x: int)
    requires |cs| == 2 && x == 1
    ensures Missed(cs) == Missed(cs[..x]) + Missed(cs[x..]) + if SizeOfAll(cs) <= 2 then 1 else 0
  {
    hide SizeOf, SizeOfAll, Missed;
    var a, b := cs[0], cs[1];
    assert cs == [a, b] && cs[..x] == [a] && cs[x..] == [b];
    Run2(a, b);
    MissedOne(a);
    MissedOne(b);
  }

  lemma MissedAt3(cs: seq<Ast>, x: int)
    requires |cs| == 3 && (Heavy(cs[0], cs[1]) <==> Heavy(cs[1], cs[2])) && 1 <= x < 3
    ensures Missed(cs) == Missed(cs[..x]) + Missed(cs[x..]) + if SizeOfAll(cs) <= 2 then 1 else 0
  {
    hide SizeOf, SizeOfAll, Missed;
    var a, b, c := cs[0], cs[1], cs[2];
    assert cs == [a, b, c];
    assert x == 1 ==> cs[..x] == [a] && cs[x..] == [b, c];
    assert x == 2 ==> cs[..x] == [a, b] && cs[x..] == [c];
    Run3(a, b, c);
    Run2(a, b);
    Run2(b, c);
    MissedOne(a);
    MissedOne(c);
  }

  lemma MissedAt4(cs: seq<Ast>, x: int)
    requires |cs| == 4 && AllBare(cs) && 1 <= x < 4
    ensures Missed(cs) == Missed(cs[..x]) + Missed(cs[x..]) + if SizeOfAll(cs) <= 2 then 1 else 0
  {
    hide SizeOf, SizeOfAll, Missed, AllBare;
    BareFour(cs);
    var a, b, c, d := cs[0], cs[1], cs[2], cs[3];
    assert cs == [a, b, c, d];
    assert x == 1 ==> cs[..x] == [a] && cs[x..] == [b, c, d];
    assert x == 2 ==> cs[..x] == [a, b] && cs[x..] == [c, d];
    assert x == 3 ==> cs[..x] == [a, b, c] && cs[x..] == [d];
    Run4(a, b, c, d);
    Run3(a, b, c);
    Run3(b, c, d);
    Run2(a, b);
    Run2(b, c);
    Run2(c, d);
    MissedOne(a);
    MissedOne(d);
  }

  /** In a settled expression every draw counts what the comb does. */
  lemma {:induction false} SettledIsComb(t: Ast, b: Bin)
    requires Settled(t) && Possible(t, b)
    ensures Extract(b) == Extract(Comb(t))
    decreases t, 0
  {
    hide Merge;
    match t
    case Literal(_) =>
    case Range(_, _) =>
    case Sequence(cs) => SettledRunIsComb(Concat, cs, b);
    case Alternation(cs) => SettledRunIsComb(Union, cs, b);
    case Repeat(c, _, _) =>
      CombIsPossible(t);
      SizeIsFixed(t, b);
      SizeIsFixed(t, Comb(t));
      if c.Some? {
        SettledIsComb(c.value, b.child);
      }
    case Boundary(_) =>
  }

  lemma {:induction false} SettledRunIsComb(op: Op, cs: seq<Ast>, b: Bin)
    requires SettledRun(cs) && Arranges(op, cs, b)
    ensures Extract(b) == Extract(CombRun(op, cs))
    decreases cs, 0
  {
    hide Merge, Possible, Settled, Comb, RunAgrees, Extract, OfBinary, OfNodes, Missed;
    if |cs| == 1 {
      SettledIsComb(cs[0], b);
    } else if |cs| > 1 {
      var x :| ArrangesAt(op, cs, x, b);
      AgreesSlice(cs, 0, x);
      AgreesSlice(cs, x, |cs|);
      assert cs[0..x] == cs[..x] && cs[x..|cs|] == cs[x..];
      SettledRunIsComb(op, cs[..x], b.left);
      SettledRunIsComb(op, cs[x..], b.right);
      SizeOfAllIsFixed(op, cs, b);
      CombAt(op, cs, x, b);
    }
  }

  lemma CombAt(op: Op, cs: seq<Ast>, x: int, b: Bin)
    requires RunAgrees(cs) && 1 <= x < |cs| && b.Binary? && b.op == op && Size(b) == SizeOfAll(cs)
    requires Extract(b.left) == Extract(CombRun(op, cs[..x])) && Extract(b.right) == Extract(CombRun(op, cs[x..]))
    ensures Extract(b) == Extract(CombRun(op, cs))
  {
    hide Merge, Comb, CombRun, RunAgrees, Extract, OfBinary, OfNodes, Missed, ChildCounts, Size, SizeOfAll;
    var l, r := cs[..x], cs[x..];
    CombCounts(op, l);
    CombCounts(op, r);
    CombCounts(op, cs);
    ChildCountsAt(cs, x);
    MissedAt(cs, x);
    ExtractBinary(op, b.left, b.right);
    OfBinaryIsOfNodes(op, SizeOfAll(cs));
    MergeNode(op, if SizeOfAll(cs) > 2 then 1 else 0, |l| - 1 - Missed(l), |r| - 1 - Missed(r),
              ChildCounts(l), ChildCounts(r));
  }

  // ------------------------------------------------------------ and otherwise they do not

  lemma MergeCancels(a: Counts, b: Counts, c: Counts)
    requires b != c
    ensures Merge(a, b) != Merge(a, c) && Merge(b, a) != Merge(c, a)
  {
    if Merge(a, b) == Merge(a, c) || Merge(b, a) == Merge(c, a) {
      Uncombine(a.unary, b.unary, c.unary);
      Uncombine(a.binary, b.binary, c.binary);
      Uncombine(a.leaves, b.leaves, c.leaves);
    }
  }

  lemma Uncombine<T>(a: multiset<T>, b: multiset<T>, c: multiset<T>)
    requires a + b == a + c || b + a == c + a
    ensures b == c
  {
    assert a + b == b + a && a + c == c + a;
    forall x ensures b[x] == c[x] {
      assert (a + b)[x] == (a + c)[x];
    }
  }

  lemma Join(op: Op, a: seq<Ast>, b: seq<Ast>, l: Bin, r: Bin)
    requires a != [] && b != [] && Arranges(op, a, l) && Arranges(op, b, r)
    ensures Arranges(op, a + b, Binary(op, l, r))
  {
    hide Possible;
    assert (a + b)[..|a|] == a && (a + b)[|a|..] == b;
    assert ArrangesAt(op, a + b, |a|, Binary(op, l, r));
  }

  /** Two draws of part of a run that differ give two draws of the run that differ. */
  lemma {:induction false} Widen(op: Op, cs: seq<Ast>, i: int, j: int, b: Bin, c: Bin) returns (b': Bin, c': Bin)
    requires 0 <= i < j <= |cs| && Arranges(op, cs[i..j], b) && Arranges(op, cs[i..j], c) && Extract(b) != Extract(c)
    ensures Arranges(op, cs, b') && Arranges(op, cs, c') && Extract(b') != Extract(c')
    decreases |cs|
  {
    hide Arranges, Extract, Merge;
    var n := |cs|;
    if i > 0 {
      assert cs[1..][i - 1..j - 1] == cs[i..j];
      var b1, c1 := Widen(op, cs[1..], i - 1, j - 1, b, c);
      var l := SomeArrangement(op, cs[..1]);
      assert cs[..1] + cs[1..] == cs;
      Join(op, cs[..1], cs[1..], l, b1);
      Join(op, cs[..1], cs[1..], l, c1);
      b', c' := Binary(op, l, b1), Binary(op, l, c1);
      DifferRight(op, cs, l, b1, c1);
    } else if j < n {
      assert cs[..n - 1][i..j] == cs[i..j];
      var b1, c1 := Widen(op, cs[..n - 1], i, j, b, c);
      var r := SomeArrangement(op, cs[n - 1..]);
      assert cs[..n - 1] + cs[n - 1..] == cs;
      Join(op, cs[..n - 1], cs[n - 1..], b1, r);
      Join(op, cs[..n - 1], cs[n - 1..], c1, r);
      b', c' := Binary(op, b1, r), Binary(op, c1, r);
      DifferLeft(op, cs, b1, c1, r);
    } else {
      assert cs[i..j] == cs;
      b', c' := b, c;
    }
  }

  lemma DifferRight(op: Op, cs: seq<Ast>, l: Bin, b: Bin, c: Bin)
    requires Arranges(op, cs, Binary(op, l, b)) && Arranges(op, cs, Binary(op, l, c)) && Extract(b) != Extract(c)
    ensures Extract(Binary(op, l, b)) != Extract(Binary(op, l, c))
  {
    hide Arranges, Extract, Merge;
    SizeOfAllIsFixed(op, cs, Binary(op, l, b));
    SizeOfAllIsFixed(op, cs, Binary(op, l, c));
    ExtractBinary(op, l, b);
    ExtractBinary(op, l, c);
    MergeCancels(Merge(OfBinary(op, SizeOfAll(cs)), Extract(l)), Extract(b), Extract(c));
  }

  lemma DifferLeft(op: Op, cs: seq<Ast>, b: Bin, c: Bin, r: Bin)
    requires Arranges(op, cs, Binary(op, b, r)) && Arranges(op, cs, Binary(op, c, r)) && Extract(b) != Extract(c)
    ensures Extract(Binary(op, b, r)) != Extract(Binary(op, c, r))
  {
    hide Arranges, Extract, Merge;
    SizeOfAllIsFixed(op, cs, Binary(op, b, r));
    SizeOfAllIsFixed(op, cs, Binary(op, c, r));
    ExtractBinary(op, b, r);
    ExtractBinary(op, c, r);
    MergeCancels(OfBinary(op, SizeOfAll(cs)), Extract(b), Extract(c));
    MergeCancels(Extract(r), Merge(OfBinary(op, SizeOfAll(cs)), Extract(b)),
                 Merge(OfBinary(op, SizeOfAll(cs)), Extract(c)));
  }

  lemma NodeCount(op: Op, l: Bin, r: Bin)
    ensures Extract(Binary(op, l, r)).binary[op]
         == Extract(l).binary[op] + Extract(r).binary[op] + if Size(l) + Size(r) > 1 then 1 else 0
    ensures Size(Binary(op, l, r)) == 1 + Size(l) + Size(r)
  {}

  lemma Single(op: Op, t: Ast, b: Bin)
    requires Possible(t, b)
    ensures Arranges(op, [t], b) && Size(b) == SizeOf(t)
  {
    SizeIsFixed(t, b);
  }

  /** Three children, one light pair: the two draws differ. */
  lemma ThreeDisagree(op: Op, x: Ast, y: Ast, z: Ast) returns (b: Bin, c: Bin)
    requires Heavy(x, y) != Heavy(y, z)
    ensures Arranges(op, [x, y, z], b) && Arranges(op, [x, y, z], c) && Extract(b) != Extract(c)
  {
    hide Possible, Arranges, Extract, SizeOf, Size;
    var p := SomeResult(x);
    var q := SomeResult(y);
    var r := SomeResult(z);
    Single(op, x, p);
    Single(op, y, q);
    Single(op, z, r);
    var pq, qr := Binary(op, p, q), Binary(op, q, r);
    b, c := Binary(op, pq, r), Binary(op, p, qr);
    assert [x] + [y] == [x, y] && [y] + [z] == [y, z];
    assert [x, y] + [z] == [x, y, z] == [x] + [y, z];
    Join(op, [x], [y], p, q);
    Join(op, [y], [z], q, r);
    Join(op, [x, y], [z], pq, r);
    Join(op, [x], [y, z], p, qr);
    NodeCount(op, p, q);
    NodeCount(op, q, r);
    NodeCount(op, pq, r);
    NodeCount(op, p, qr);
  }

  /** Four children, all pairs light but not all of them bare. */
  lemma FourDisagree(op: Op, w: Ast, x: Ast, y: Ast, z: Ast) returns (b: Bin, c: Bin)
    requires !Heavy(w, x) && !Heavy(x, y) && !Heavy(y, z)
    requires SizeOf(w) + SizeOf(x) + SizeOf(y) + SizeOf(z) > 0
    ensures Arranges(op, [w, x, y, z], b) && Arranges(op, [w, x, y, z], c) && Extract(b) != Extract(c)
  {
    hide Possible, Arranges, Extract, SizeOf, Size;
    var o := SomeResult(w);
    var p := SomeResult(x);
    var q := SomeResult(y);
    var r := SomeResult(z);
    Single(op, w, o);
    Single(op, x, p);
    Single(op, y, q);
    Single(op, z, r);
    var wx, qr := Binary(op, o, p), Binary(op, q, r);
    Join(op, [w], [x], o, p);
    Join(op, [y], [z], q, r);
    assert [w] + [x] == [w, x] && [y] + [z] == [y, z];
    b := Binary(op, wx, qr);
    Join(op, [w, x], [y, z], wx, qr);
    NodeCount(op, o, p);
    NodeCount(op, q, r);
    NodeCount(op, wx, qr);
    assert [w, x] + [y, z] == [w, x, y, z];
    if SizeOf(w) + SizeOf(x) + SizeOf(y) > 0 {
      var t := Binary(op, wx, q);
      c := Binary(op, t, r);
      assert [w, x] + [y] == [w, x, y] && [w, x, y] + [z] == [w, x, y, z];
      Join(op, [w, x], [y], wx, q);
      Join(op, [w, x, y], [z], t, r);
      NodeCount(op, wx, q);
      NodeCount(op, t, r);
    } else {
      var t := Binary(op, p, qr);
      c := Binary(op, o, t);
      assert [x] + [y, z] == [x, y, z] && [w] + [x, y, z] == [w, x, y, z];
      Join(op, [x], [y, z], p, qr);
      Join(op, [w], [x, y, z], o, t);
      NodeCount(op, p, qr);
      NodeCount(op, o, t);
    }
  }

  /** Five bare children: two nodes are missed, or three. */
  lemma FiveDisagree(op: Op, v: Ast, w: Ast, x: Ast, y: Ast, z: Ast) returns (b: Bin, c: Bin)
    requires SizeOf(v) == SizeOf(w) == SizeOf(x) == SizeOf(y) == SizeOf(z) == 0
    ensures Arranges(op, [v, w, x, y, z], b) && Arranges(op, [v, w, x, y, z], c) && Extract(b) != Extract(c)
  {
    hide Possible, Arranges, Extract, SizeOf, Size;
    var n := SomeResult(v);
    var o := SomeResult(w);
    var p := SomeResult(x);
    var q := SomeResult(y);
    var r := SomeResult(z);
    Single(op, v, n);
    Single(op, w, o);
    Single(op, x, p);
    Single(op, y, q);
    Single(op, z, r);
    var no := Binary(op, n, o);
    var pq := Binary(op, p, q);
    Join(op, [v], [w], n, o);
    Join(op, [x], [y], p, q);
    assert [v] + [w] == [v, w] && [x] + [y] == [x, y];
    NodeCount(op, n, o);
    NodeCount(op, p, q);
    var nop := Binary(op, no, p);
    var nopq := Binary(op, nop, q);
    b := Binary(op, nopq, r);
    assert [v, w] + [x] == [v, w, x] && [v, w, x] + [y] == [v, w, x, y] && [v, w, x, y] + [z] == [v, w, x, y, z];
    Join(op, [v, w], [x], no, p);
    Join(op, [v, w, x], [y], nop, q);
    Join(op, [v, w, x, y], [z], nopq, r);
    NodeCount(op, no, p);
    NodeCount(op, nop, q);
    NodeCount(op, nopq, r);
    var pqr := Binary(op, pq, r);
    c := Binary(op, no, pqr);
    assert [x, y] + [z] == [x, y, z] && [v, w] + [x, y, z] == [v, w, x, y, z];
    Join(op, [x, y], [z], pq, r);
    Join(op, [v, w], [x, y, z], no, pqr);
    NodeCount(op, pq, r);
    NodeCount(op, no, pqr);
  }

  /** A run that does not agree has two draws that differ. */
  lemma {:induction false} RunDisagrees(op: Op, cs: seq<Ast>) returns (b: Bin, c: Bin)
    requires !RunAgrees(cs)
    ensures Arranges(op, cs, b) && Arranges(op, cs, c) && Extract(b) != Extract(c)
    decreases |cs|
  {
    hide Arranges, Extract, RunAgrees, SizeOf;
    var n := |cs|;
    LongEnough(cs);
    if n == 3 {
      assert cs == [cs[0], cs[1], cs[2]];
      b, c := ThreeDisagree(op, cs[0], cs[1], cs[2]);
    } else if !RunAgrees(cs[..n - 1]) {
      var b1, c1 := RunDisagrees(op, cs[..n - 1]);
      assert cs[0..n - 1] == cs[..n - 1];
      b, c := Widen(op, cs, 0, n - 1, b1, c1);
    } else if !RunAgrees(cs[1..]) {
      var b1, c1 := RunDisagrees(op, cs[1..]);
      assert cs[1..n] == cs[1..];
      b, c := Widen(op, cs, 1, n, b1, c1);
    } else if n == 4 {
      FourAreLight(cs);
      assert cs == [cs[0], cs[1], cs[2], cs[3]];
      b, c := FourDisagree(op, cs[0], cs[1], cs[2], cs[3]);
    } else {
      FiveAreBare(cs);
      assert cs == [cs[0], cs[1], cs[2], cs[3], cs[4]];
      b, c := FiveDisagree(op, cs[0], cs[1], cs[2], cs[3], cs[4]);
    }
  }

  lemma LongEnough(cs: seq<Ast>)
    requires !RunAgrees(cs)
    ensures |cs| >= 3 && (|cs| == 3 ==> Heavy(cs[0], cs[1]) != Heavy(cs[1], cs[2]))
  {
    hide Heavy;
  }

  lemma FourAreLight(cs: seq<Ast>)
    requires |cs| == 4 && !RunAgrees(cs) && RunAgrees(cs[..3]) && RunAgrees(cs[1..])
    ensures !Heavy(cs[0], cs[1]) && !Heavy(cs[1], cs[2]) && !Heavy(cs[2], cs[3])
    ensures SizeOf(cs[0]) + SizeOf(cs[1]) + SizeOf(cs[2]) + SizeOf(cs[3]) > 0
  {
    hide SizeOf, Heavy;
    var l, r := cs[..3], cs[1..];
    assert l[0] == cs[0] && l[1] == cs[1] && l[2] == cs[2];
    assert r[0] == cs[1] && r[1] == cs[2] && r[2] == cs[3];
    assert Heavy(cs[0], cs[1]) <==> Heavy(cs[1], cs[2]);
    assert Heavy(cs[1], cs[2]) <==> Heavy(cs[2], cs[3]);
  }

  /** Longer runs whose two ends agree, but that do not, are five bare children. */
  lemma FiveAreBare(cs: seq<Ast>)
    requires |cs| >= 5 && !RunAgrees(cs) && RunAgrees(cs[..|cs| - 1]) && RunAgrees(cs[1..])
    ensures |cs| == 5
    ensures SizeOf(cs[0]) == SizeOf(cs[1]) == SizeOf(cs[2]) == SizeOf(cs[3]) == SizeOf(cs[4]) == 0
  {
    hide SizeOf, Heavy;
    var n := |cs|;
    var l, r := cs[..n - 1], cs[1..];
    assert l[1] == cs[1] && l[2] == cs[2] && r[0] == cs[1] && r[1] == cs[2];
    BareIsLight(cs[1], cs[2]);
    HeavyEnds(cs);
    assert !Heavy(cs[1], cs[2]);
    assert AllBare(l) && AllBare(r);
    assert l[0] == cs[0] && l[3] == cs[3] && r[3] == cs[4];
  }

  lemma HeavyEnds(cs: seq<Ast>)
    requires |cs| > 2
    ensures AllHeavy(cs[..|cs| - 1]) && AllHeavy(cs[1..]) ==> AllHeavy(cs)
  {
    hide Heavy;
    var n := |cs|;
    var l, r := cs[..n - 1], cs[1..];
    if AllHeavy(l) && AllHeavy(r) {
      forall i | 0 < i < n ensures Heavy(cs[i - 1], cs[i]) {
        if i < n - 1 {
          assert l[i] == cs[i] && l[i - 1] == cs[i - 1];
        } else {
          assert r[i - 1] == cs[i] && r[i - 2] == cs[i - 1];
        }
      }
    }
  }

  lemma {:induction false} UnsettledDisagrees(t: Ast) returns (b: Bin, c: Bin)
    requires !Settled(t)
    ensures Possible(t, b) && Possible(t, c) && Extract(b) != Extract(c)
    decreases t, 0
  {
    hide Merge, Arranges;
    match t
    case Sequence(cs) => b, c := UnsettledRunDisagrees(Concat, cs);
    case Alternation(cs) => b, c := UnsettledRunDisagrees(Union, cs);
    case Repeat(child, min, max) =>
      var b1, c1 := UnsettledDisagrees(child.value);
      b, c := Unary(Quantifier(min, max), b1), Unary(Quantifier(min, max), c1);
      SizeIsFixed(t, b);
      SizeIsFixed(t, c);
      MergeCancels(OfUnary(b.quantifier, Size(b)), Extract(b1), Extract(c1));
  }

  lemma {:induction false} UnsettledRunDisagrees(op: Op, cs: seq<Ast>) returns (b: Bin, c: Bin)
    requires !SettledRun(cs)
    ensures Arranges(op, cs, b) && Arranges(op, cs, c) && Extract(b) != Extract(c)
    decreases cs, 0
  {
    hide Settled, Extract, Possible, RunAgrees;
    if !RunAgrees(cs) {
      b, c := RunDisagrees(op, cs);
    } else {
      var i :| 0 <= i < |cs| && !Settled(cs[i]);
      var b1, c1 := UnsettledDisagrees(cs[i]);
      assert cs[i..i + 1] == [cs[i]];
      b, c := Widen(op, cs, i, i + 1, b1, c1);
    }
  }

  /** All draws count the same exactly when the expression is settled. */
  lemma DrawsAgreeIff(t: Ast)
    ensures Settled(t) <==> forall b, c :: Possible(t, b) && Possible(t, c) ==> Extract(b) == Extract(c)
  {
    hide Possible, Settled, Extract, Comb;
    if Settled(t) {
      forall b, c | Possible(t, b) && Possible(t, c) ensures Extract(b) == Extract(c) {
        SettledIsComb(t, b);
        SettledIsComb(t, c);
      }
    } else {
      var b, c := UnsettledDisagrees(t);
    }
  }

  // -------------------------------------------------------------------- the class

  /** _standardize_to_binary. Three or more children are split at a drawn index and
      both halves binarized anew, so the pass over the children whose results the
      source then drops is not repeated here. */
  method Binarize(t: Ast) returns (b: Bin)
    ensures Possible(t, b)
    decreases t, 0
  {
    match t
    case Literal(v) => b := Tip(Word(v));
    case Range(x, y) => b := Tip(Span(x, y));
    case Sequence(cs) => b := BinarizeRun(Concat, cs);
    case Alternation(cs) => b := BinarizeRun(Union, cs);
    case Repeat(c, min, max) =>
      var child := Missing;
      if c.Some? {
        child := Binarize(c.value);
      }
      b := Unary(Quantifier(min, max), child);
    case Boundary(_) => b := Untouched(t);
  }

  method BinarizeRun(op: Op, cs: seq<Ast>) returns (b: Bin)
    ensures Arranges(op, cs, b)
    decreases cs, 0
  {
    if |cs| == 0 {
      b := Tip(EmptyWord);
    } else if |cs| == 1 {
      b := Binarize(cs[0]);
    } else {
      var x := SampleSplitIndex(|cs|);
      var left := BinarizeRun(op, cs[..x]);
      var right := BinarizeRun(op, cs[x..]);
      b := Binary(op, left, right);
      assert ArrangesAt(op, cs, x, b);
    }
  }

  /** Any index the generator may draw. */
  method SampleSplitIndex(k: nat) returns (x: nat)
    requires k > 1
    ensures 1 <= x < k && (k == 2 ==> x == 1)
  {
    if k <= 2 {
      return 1;
    }
    x :| 1 <= x < k;
  }

  /** The counts of several expressions together. */
  function CountsOfEach(ts: seq<Option<Ast>>): Counts {
    if ts == [] then NoCounts()
    else
      var last := ts[|ts| - 1];
      Merge(CountsOfEach(ts[..|ts| - 1]), if last.Some? then CountsOf(last.value) else NoCounts())
  }

  /** The counts of the combs of the expressions. */
  function CombsOfEach(ts: seq<Option<Ast>>): Counts {
    if ts == [] then NoCounts()
    else
      var last := ts[|ts| - 1];
      Merge(CombsOfEach(ts[..|ts| - 1]), if last.Some? then Extract(Comb(last.value)) else NoCounts())
  }

  predicate AllSettled(ts: seq<Option<Ast>>) {
    forall i :: 0 <= i < |ts| && ts[i].Some? ==> Settled(ts[i].value)
  }

  predicate AllSolid(ts: seq<Option<Ast>>) {
    forall i :: 0 <= i < |ts| && ts[i].Some? ==> Solid(ts[i].value)
  }

  class Model {
    var cU: nat
    var cB: nat
    var unaryOps: multiset<Quantifier>
    var binaryOps: multiset<Op>
    var leaves: multiset<Token>

    function Tallied(): Counts
      reads this
    {
      Counts(unaryOps, binaryOps, leaves)
    }

    ghost predicate Valid()
      reads this
    {
      cU == |unaryOps| && cB == |binaryOps|
    }

    constructor ()
      ensures Valid() && Tallied() == NoCounts()
    {
      cU, cB, unaryOps, binaryOps, leaves := 0, 0, multiset{}, multiset{}, multiset{};
    }

    method AddLeaf(t: Token)
      requires Valid()
      modifies this
      ensures Valid() && Tallied() == Merge(old(Tallied()), OfLeaf(t))
    {
      hide Merge, OfLeaf;
      MergeLeaf(Tallied(), t);
      leaves := leaves + multiset{t};
    }

    method AddUnary(q: Quantifier, n: nat)
      requires Valid()
      modifies this
      ensures Valid() && Tallied() == Merge(old(Tallied()), OfUnary(q, n))
    {
      hide Merge, OfUnary;
      MergeUnary(Tallied(), q, n);
      if n > 2 {
        cU := cU + 1;
        unaryOps := unaryOps + multiset{q};
      }
    }

    method AddBinary(op: Op, n: nat)
      requires Valid()
      modifies this
      ensures Valid() && Tallied() == Merge(old(Tallied()), OfBinary(op, n))
    {
      hide Merge, OfBinary;
      MergeBinary(Tallied(), op, n);
      if n > 2 {
        cB := cB + 1;
        binaryOps := binaryOps + multiset{op};
      }
    }

    method ExtractCounts(b: Bin)
      requires Valid()
      modifies this
      ensures Valid() && Tallied() == Merge(old(Tallied()), Extract(b))
    {
      hide Merge, OfLeaf, OfUnary, OfBinary, Valid, Tallied;
      var n := Size(b);
      MergeNothing(Tallied());
      match b
      case Tip(t) =>
        AddLeaf(t);
      case Unary(q, c) =>
        AddUnary(q, n);
        ExtractCounts(c);
        MergeAssoc(old(Tallied()), OfUnary(q, n), Extract(c));
      case Binary(op, l, r) =>
        AddBinary(op, n);
        ExtractCounts(l);
        MergeAssoc(old(Tallied()), OfBinary(op, n), Extract(l));
        ExtractCounts(r);
        MergeAssoc(old(Tallied()), Merge(OfBinary(op, n), Extract(l)), Extract(r));
      case Untouched(_) =>
      case Missing =>
    }

    /** The counts learned are those of the expressions, whatever was drawn, except
        that binary nodes may be missed where an expression is not solid. They do not
        depend on what was drawn where every expression is settled. */
    method Fit(ts: seq<Option<Ast>>)
      requires Valid()
      modifies this
      ensures Valid() && Below(Tallied(), Merge(old(Tallied()), CountsOfEach(ts)))
      ensures AllSolid(ts) ==> Tallied() == Merge(old(Tallied()), CountsOfEach(ts))
      ensures AllSettled(ts) ==> Tallied() == Merge(old(Tallied()), CombsOfEach(ts))
    {
      hide Merge, Below, Extract, CountsOf, Possible, Solid, Settled, Comb;
      var i := 0;
      MergeNothing(Tallied());
      BelowItself(Tallied());
      while i < |ts|
        invariant 0 <= i <= |ts|
        invariant Valid() && Below(Tallied(), Merge(old(Tallied()), CountsOfEach(ts[..i])))
        invariant AllSolid(ts) ==> Tallied() == Merge(old(Tallied()), CountsOfEach(ts[..i]))
        invariant AllSettled(ts) ==> Tallied() == Merge(old(Tallied()), CombsOfEach(ts[..i]))
      {
        assert ts[..i + 1][..i] == ts[..i];
        ghost var before, target := Tallied(), Merge(old(Tallied()), CountsOfEach(ts[..i]));
        MergeNothing(CountsOfEach(ts[..i]));
        MergeNothing(CombsOfEach(ts[..i]));
        if ts[i].Some? {
          var b := Binarize(ts[i].value);
          ExtractIsBelow(ts[i].value, b);
          BelowMerge(before, target, Extract(b), CountsOf(ts[i].value));
          MergeAssoc(old(Tallied()), CountsOfEach(ts[..i]), CountsOf(ts[i].value));
          if Solid(ts[i].value) {
            SolidIsCounted(ts[i].value, b);
          }
          if Settled(ts[i].value) {
            SettledIsComb(ts[i].value, b);
            MergeAssoc(old(Tallied()), CombsOfEach(ts[..i]), Extract(b));
          }
          ExtractCounts(b);
        }
        i := i + 1;
      }
      assert ts[..i] == ts;
    }
  }

  lemma MergeLeaf(a: Counts, t: Token)
    ensures Merge(a, OfLeaf(t)) == a.(leaves := a.leaves + multiset{t})
  {}

  lemma MergeUnary(a: Counts, q: Quantifier, n: nat)
    ensures Merge(a, OfUnary(q, n)) == if n > 2 then a.(unary := a.unary + multiset{q}) else a
  {}

  lemma MergeBinary(a: Counts, op: Op, n: nat)
    ensures Merge(a, OfBinary(op, n)) == if n > 2 then a.(binary := a.binary + multiset{op}) else a
  {}

  lemma MergeAssoc(a: Counts, b: Counts, c: Counts)
    ensures Merge(Merge(a, b), c) == Merge(a, Merge(b, c))
  {}

  lemma MergeNothing(a: Counts)
    ensures Merge(a, NoCounts()) == a
  {}
}
