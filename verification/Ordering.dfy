/** Strict total orders, lexicographic comparison, and the sorted list of a finite set. */
module Ordering {
  ghost predicate StrictTotal<T(!new)>(lt: (T, T) -> bool) {
    && (forall x :: !lt(x, x))
    && (forall x, y, z :: lt(x, y) && lt(y, z) ==> lt(x, z))
    && (forall x, y :: lt(x, y) || lt(y, x) || x == y)
  }

  /** Each element of a list is related to the one before it. */
  ghost predicate Linked<T>(r: (T, T) -> bool, xs: seq<T>) {
    |xs| > 1 ==> r(xs[|xs| - 1], xs[|xs| - 2]) && Linked(r, xs[..|xs| - 1])
  }

  /** Along a list linked by a transitive relation the last element is related to the first. */
  lemma {:induction false} LinkedEnds<T(!new)>(r: (T, T) -> bool, xs: seq<T>)
    requires forall a, b, c :: r(b, a) && r(c, b) ==> r(c, a)
    requires |xs| >= 1 && r(xs[0], xs[0]) && Linked(r, xs)
    ensures r(xs[|xs| - 1], xs[0])
  {
    if |xs| > 1 { LinkedEnds(r, xs[..|xs| - 1]); }
  }

  /** Python's comparison of sequences. */
  predicate Lex<T(==)>(lt: (T, T) -> bool, a: seq<T>, b: seq<T>) {
    if b == [] then false
    else if a == [] then true
    else lt(a[0], b[0]) || (a[0] == b[0] && Lex(lt, a[1..], b[1..]))
  }

  lemma {:induction false} LexIrreflexive<T(!new)>(lt: (T, T) -> bool, a: seq<T>)
    requires StrictTotal(lt)
    ensures !Lex(lt, a, a)
  {
    if a != [] { LexIrreflexive(lt, a[1..]); }
  }

  lemma {:induction false} LexTransitive<T(!new)>(lt: (T, T) -> bool, a: seq<T>, b: seq<T>, c: seq<T>)
    requires StrictTotal(lt) && Lex(lt, a, b) && Lex(lt, b, c)
    ensures Lex(lt, a, c)
  {
    if a != [] && a[0] == b[0] && b[0] == c[0] { LexTransitive(lt, a[1..], b[1..], c[1..]); }
  }

  lemma {:induction false} LexTotal<T(!new)>(lt: (T, T) -> bool, a: seq<T>, b: seq<T>)
    requires StrictTotal(lt)
    ensures Lex(lt, a, b) || Lex(lt, b, a) || a == b
  {
    if a != [] && b != [] && a[0] == b[0] {
      LexTotal(lt, a[1..], b[1..]);
      assert a[1..] == b[1..] ==> a == [a[0]] + a[1..] == [b[0]] + b[1..] == b;
    }
  }

  predicate CharLt(x: char, y: char) { x < y }

  predicate TextLt(a: string, b: string) { Lex(CharLt, a, b) }

  predicate FieldsLt(a: seq<string>, b: seq<string>) { Lex(TextLt, a, b) }

  /** The first place where two lists differ decides, and a proper beginning comes first. */
  lemma {:induction false} LexDecides<T>(lt: (T, T) -> bool, p: seq<T>, a: seq<T>, b: seq<T>)
    requires (a == [] || b == [] || a[0] != b[0]) && forall x :: x in p ==> !lt(x, x)
    ensures Lex(lt, p + a, p + b) <==> b != [] && (a == [] || lt(a[0], b[0]))
  {
    if p == [] {
      assert p + a == a && p + b == b;
    } else {
      assert (p + a)[1..] == p[1..] + a && (p + b)[1..] == p[1..] + b;
      LexDecides(lt, p[1..], a, b);
    }
  }

  /** Text is ordered by the first character in which it differs. */
  lemma TextLtDecides(p: string, a: string, b: string)
    requires a == "" || b == "" || a[0] != b[0]
    ensures TextLt(p + a, p + b) <==> b != "" && (a == "" || a[0] < b[0])
  {
    LexDecides(CharLt, p, a, b);
  }

  lemma TextStrictTotal()
    ensures StrictTotal(TextLt)
  {
    forall a ensures !TextLt(a, a) { LexIrreflexive(CharLt, a); }
    forall a, b, c | TextLt(a, b) && TextLt(b, c) ensures TextLt(a, c) { LexTransitive(CharLt, a, b, c); }
    forall a, b ensures TextLt(a, b) || TextLt(b, a) || a == b { LexTotal(CharLt, a, b); }
  }

  lemma FieldsStrictTotal()
    ensures StrictTotal(FieldsLt)
  {
    TextStrictTotal();
    forall a ensures !FieldsLt(a, a) { LexIrreflexive(TextLt, a); }
    forall a, b, c | FieldsLt(a, b) && FieldsLt(b, c) ensures FieldsLt(a, c) { LexTransitive(TextLt, a, b, c); }
    forall a, b ensures FieldsLt(a, b) || FieldsLt(b, a) || a == b { LexTotal(TextLt, a, b); }
  }

  // ---------- sorted lists ----------

  ghost predicate Increasing<T>(lt: (T, T) -> bool, xs: seq<T>) {
    forall i, j :: 0 <= i < j < |xs| ==> lt(xs[i], xs[j])
  }

  ghost predicate IsLeast<T>(lt: (T, T) -> bool, s: set<T>, m: T) {
    m in s && forall x :: x in s && x != m ==> lt(m, x)
  }

  lemma {:induction false} LeastExists<T(!new)>(lt: (T, T) -> bool, s: set<T>)
    requires StrictTotal(lt) && s != {}
    ensures exists m :: IsLeast(lt, s, m)
  {
    assert (forall x :: x !in s) ==> s == {};
    var x :| x in s;
    if s == {x} {
      assert IsLeast(lt, s, x);
    } else {
      LeastExists(lt, s - {x});
      var m :| IsLeast(lt, s - {x}, m);
      if lt(x, m) {
        forall y | y in s && y != x ensures lt(x, y) { assert y in s - {x} && (y == m || lt(m, y)); }
        assert IsLeast(lt, s, x);
      } else {
        forall y | y in s && y != m ensures lt(m, y) { assert y == x || y in s - {x}; }
        assert IsLeast(lt, s, m);
      }
    }
  }

  /** The elements of a set in increasing order. */
  ghost function Sorted<T(!new)>(lt: (T, T) -> bool, s: set<T>): (xs: seq<T>)
    requires StrictTotal(lt)
    ensures Increasing(lt, xs) && forall x :: x in xs <==> x in s
  {
    if s == {} then []
    else
      LeastExists(lt, s);
      var m :| IsLeast(lt, s, m);
      var rest := Sorted(lt, s - {m});
      assert forall x :: x in [m] + rest <==> x in s;
      [m] + rest
  }

  /** A set has only one increasing list. */
  lemma {:induction false} SortedUnique<T(!new)>(lt: (T, T) -> bool, xs: seq<T>, ys: seq<T>)
    requires StrictTotal(lt) && Increasing(lt, xs) && Increasing(lt, ys)
    requires forall x :: x in xs <==> x in ys
    ensures xs == ys
  {
    assert xs != [] ==> xs[0] in ys;
    assert ys != [] ==> ys[0] in xs;
    if xs != [] {
      assert xs[0] == ys[0];
      forall x ensures x in xs[1..] <==> x in ys[1..] {
        assert x in xs[1..] ==> x in xs && x != xs[0];
        assert x in ys[1..] ==> x in ys && x != ys[0];
        assert x in xs && x != xs[0] ==> x in xs[1..];
        assert x in ys && x != ys[0] ==> x in ys[1..];
      }
      SortedUnique(lt, xs[1..], ys[1..]);
    }
  }

  /** The members of `xs` that belong to `s`, in the order of `xs`. */
  ghost function Filter<T>(xs: seq<T>, s: set<T>): seq<T> {
    if xs == [] then []
    else Filter(xs[..|xs| - 1], s) + if xs[|xs| - 1] in s then [xs[|xs| - 1]] else []
  }

  lemma FilterStep<T>(order: seq<T>, i: nat, s: set<T>)
    requires i < |order|
    ensures Filter(order[..i + 1], s) == Filter(order[..i], s) + if order[i] in s then [order[i]] else []
  {
    assert order[..i + 1][..i] == order[..i];
  }

  lemma {:induction false} FilterOf<T(!new)>(lt: (T, T) -> bool, xs: seq<T>, s: set<T>)
    requires Increasing(lt, xs)
    ensures Increasing(lt, Filter(xs, s)) && forall x :: x in Filter(xs, s) <==> x in xs && x in s
  {
    if xs != [] {
      var n := |xs| - 1;
      FilterOf(lt, xs[..n], s);
      assert xs == xs[..n] + [xs[n]];
      var ys := Filter(xs[..n], s);
      forall i | 0 <= i < |ys| ensures lt(ys[i], xs[n]) {
        assert ys[i] in ys;
        var k :| 0 <= k < n && xs[k] == ys[i];
      }
    }
  }

  /** Appending, in sorted order, what satisfies a test gives the sorted list of what satisfies it. */
  lemma FilterSorts<T(!new)>(lt: (T, T) -> bool, all: set<T>, s: set<T>)
    requires StrictTotal(lt) && s <= all
    ensures Filter(Sorted(lt, all), s) == Sorted(lt, s)
  {
    FilterOf(lt, Sorted(lt, all), s);
    SortedUnique(lt, Filter(Sorted(lt, all), s), Sorted(lt, s));
  }

  lemma SortedEmpty<T(!new)>(lt: (T, T) -> bool, s: set<T>)
    requires StrictTotal(lt)
    ensures Sorted(lt, s) == [] <==> s == {}
  {
    var xs := Sorted(lt, s);
    assert xs != [] ==> xs[0] in xs;
    assert (forall x :: x !in s) ==> s == {};
  }

  /** Sorts a set by repeatedly taking its least element. */
  method Sort<T(!new, ==)>(lt: (T, T) -> bool, s: set<T>) returns (xs: seq<T>)
    requires StrictTotal(lt)
    ensures xs == Sorted(lt, s)
  {
    xs := [];
    var rest := s;
    while rest != {}
      invariant rest <= s && (forall x :: x in s <==> x in xs || x in rest)
      invariant Increasing(lt, xs) && forall x, y :: x in xs && y in rest ==> lt(x, y)
      decreases |rest|
    {
      LeastExists(lt, rest);
      var m :| m in rest && forall x :: x in rest && x != m ==> lt(m, x);
      xs, rest := xs + [m], rest - {m};
    }
    SortedUnique(lt, xs, Sorted(lt, s));
  }
}
