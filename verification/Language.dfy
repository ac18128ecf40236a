/** Languages over code points, and the laws of concatenation and repetition. */
module Language {

  type Text = seq<nat>
  type Lang = iset<Text>

  ghost function One(t: Text): Lang {
    iset{t}
  }

  ghost function Empty(): Lang {
    One([])
  }

  ghost function Cat(a: Lang, b: Lang): Lang {
    iset s: Text | Splits(a, b, s)
  }

  ghost predicate Splits(a: Lang, b: Lang, s: Text) {
    exists k :: 0 <= k <= |s| && SplitAt(a, b, s, k)
  }

  ghost predicate SplitAt(a: Lang, b: Lang, s: Text, k: nat)
    requires k <= |s|
  {
    s[..k] in a && s[k..] in b
  }

  /** n copies of a word of the language. */
  ghost function Power(a: Lang, n: nat): Lang {
    if n == 0 then Empty() else Cat(a, Power(a, n - 1))
  }

  datatype Bound = Finite(n: nat) | Infinite

  predicate Within(n: nat, max: Bound) {
    max.Infinite? || n <= max.n
  }

  /** Between min and max copies. */
  ghost function Repeated(a: Lang, min: nat, max: Bound): Lang {
    iset s: Text | IsRepeated(a, min, max, s)
  }

  ghost predicate IsRepeated(a: Lang, min: nat, max: Bound, s: Text) {
    exists n :: min <= n && Within(n, max) && s in Power(a, n)
  }

  lemma CatIntro(a: Lang, b: Lang, x: Text, y: Text)
    requires x in a && y in b
    ensures x + y in Cat(a, b)
  {
    var s := x + y;
    assert s[..|x|] == x && s[|x|..] == y;
    assert SplitAt(a, b, s, |x|);
  }

  lemma CatElim(a: Lang, b: Lang, s: Text) returns (x: Text, y: Text)
    requires s in Cat(a, b)
    ensures s == x + y && x in a && y in b
  {
    var k :| 0 <= k <= |s| && SplitAt(a, b, s, k);
    x, y := s[..k], s[k..];
  }

  lemma CatEmpty(a: Lang)
    ensures Cat(a, Empty()) == a && Cat(Empty(), a) == a
  {
    forall s ensures s in Cat(a, Empty()) <==> s in a {
      if s in Cat(a, Empty()) {
        var x, y := CatElim(a, Empty(), s);
        assert s == x;
      }
      if s in a {
        CatIntro(a, Empty(), s, []);
        assert s + [] == s;
      }
    }
    forall s ensures s in Cat(Empty(), a) <==> s in a {
      if s in Cat(Empty(), a) {
        var x, y := CatElim(Empty(), a, s);
        assert s == y;
      }
      if s in a {
        CatIntro(Empty(), a, [], s);
        assert [] + s == s;
      }
    }
  }

  lemma CatAssoc(a: Lang, b: Lang, c: Lang)
    ensures Cat(Cat(a, b), c) == Cat(a, Cat(b, c))
  {
    forall s ensures s in Cat(Cat(a, b), c) <==> s in Cat(a, Cat(b, c)) {
      if s in Cat(Cat(a, b), c) {
        var xy, z := CatElim(Cat(a, b), c, s);
        var x, y := CatElim(a, b, xy);
        CatIntro(b, c, y, z);
        CatIntro(a, Cat(b, c), x, y + z);
        assert s == x + (y + z);
      }
      if s in Cat(a, Cat(b, c)) {
        var x, yz := CatElim(a, Cat(b, c), s);
        var y, z := CatElim(b, c, yz);
        CatIntro(a, b, x, y);
        CatIntro(Cat(a, b), c, x + y, z);
        assert s == (x + y) + z;
      }
    }
  }

  lemma {:induction false} PowerAdd(a: Lang, m: nat, n: nat)
    ensures Power(a, m + n) == Cat(Power(a, m), Power(a, n))
  {
    hide Cat;
    if m == 0 {
      CatEmpty(Power(a, n));
    } else {
      PowerAdd(a, m - 1, n);
      CatAssoc(a, Power(a, m - 1), Power(a, n));
    }
  }

  lemma PowerOne(a: Lang)
    ensures Power(a, 1) == a
  {
    CatEmpty(a);
  }

  /** At least n copies: exactly n, then any number. */
  lemma AtLeast(a: Lang, n: nat)
    ensures Repeated(a, n, Infinite) == Cat(Power(a, n), Repeated(a, 0, Infinite))
  {
    forall s ensures s in Repeated(a, n, Infinite) <==> s in Cat(Power(a, n), Repeated(a, 0, Infinite)) {
      if s in Repeated(a, n, Infinite) {
        var m :| n <= m && Within(m, Infinite) && s in Power(a, m);
        PowerAdd(a, n, m - n);
        var x, y := CatElim(Power(a, n), Power(a, m - n), s);
        assert Within(m - n, Infinite);
        CatIntro(Power(a, n), Repeated(a, 0, Infinite), x, y);
      }
      if s in Cat(Power(a, n), Repeated(a, 0, Infinite)) {
        var x, y := CatElim(Power(a, n), Repeated(a, 0, Infinite), s);
        var m :| 0 <= m && Within(m, Infinite) && y in Power(a, m);
        PowerAdd(a, n, m);
        CatIntro(Power(a, n), Power(a, m), x, y);
        assert Within(n + m, Infinite);
      }
    }
  }

  lemma Exactly(a: Lang, n: nat)
    ensures Repeated(a, n, Finite(n)) == Power(a, n)
  {
    assert Within(n, Finite(n));
  }

  /** From min to max copies: from min to one less, or exactly max. */
  lemma UpTo(a: Lang, min: nat, max: nat)
    requires min < max
    ensures Repeated(a, min, Finite(max)) == Repeated(a, min, Finite(max - 1)) + Power(a, max)
  {
    forall s ensures s in Repeated(a, min, Finite(max)) <==> s in Repeated(a, min, Finite(max - 1)) + Power(a, max) {
      if s in Repeated(a, min, Finite(max)) {
        var n :| min <= n && Within(n, Finite(max)) && s in Power(a, n);
        if n < max {
          assert Within(n, Finite(max - 1));
        }
      }
      if s in Repeated(a, min, Finite(max - 1)) {
        var n :| min <= n && Within(n, Finite(max - 1)) && s in Power(a, n);
        assert Within(n, Finite(max));
      }
      if s in Power(a, max) {
        assert Within(max, Finite(max));
      }
    }
  }
}
