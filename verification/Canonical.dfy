/** Canonical order: strictly sorted sequences are determined by their elements
    (valibra_agent/sql_grounding/models.py). */
module Canonical {
  ghost predicate StrictOrder<T(!new)>(less: (T, T) -> bool)
  {
    (forall x :: !less(x, x)) && (forall x, y, z :: less(x, y) && less(y, z) ==> less(x, z))
  }

  function Elements<T>(xs: seq<T>): set<T>
  {
    set x | x in xs
  }

  predicate Distinct<T(==)>(xs: seq<T>)
  {
    forall i, j :: 0 <= i < j < |xs| ==> xs[i] != xs[j]
  }

  predicate Comparable<T(==)>(less: (T, T) -> bool, xs: set<T>)
  {
    forall x, y :: x in xs && y in xs && x != y ==> less(x, y) || less(y, x)
  }

  predicate Sorted<T>(less: (T, T) -> bool, xs: seq<T>)
  {
    forall i, j :: 0 <= i < j < |xs| ==> less(xs[i], xs[j])
  }

  function Insert<T(==)>(less: (T, T) -> bool, x: T, xs: seq<T>): seq<T>
  {
    if xs == [] then [x]
    else if xs[0] == x then xs
    else if less(x, xs[0]) then [x] + xs
    else [xs[0]] + Insert(less, x, xs[1..])
  }

  /** The distinct elements in order. */
  function Canon<T(==)>(less: (T, T) -> bool, xs: seq<T>): seq<T>
  {
    if xs == [] then [] else Insert(less, xs[0], Canon(less, xs[1..]))
  }

  lemma HeadAndTail<T>(xs: seq<T>)
    requires xs != []
    ensures Elements(xs) == {xs[0]} + Elements(xs[1..])
  {
    assert xs == [xs[0]] + xs[1..];
  }

  lemma EmptyElements<T>(xs: seq<T>)
    ensures Elements(xs) == {} <==> xs == []
  {
    if xs != [] {
      assert xs[0] in Elements(xs);
    }
  }

  lemma {:induction false} InsertElements<T>(less: (T, T) -> bool, x: T, xs: seq<T>)
    ensures Elements(Insert(less, x, xs)) == Elements(xs) + {x}
  {
    if xs != [] && xs[0] != x && !less(x, xs[0]) {
      InsertElements(less, x, xs[1..]);
      HeadAndTail(xs);
      var tail := Insert(less, x, xs[1..]);
      HeadAndTail([xs[0]] + tail);
      assert ([xs[0]] + tail)[1..] == tail;
    }
  }

  lemma {:induction false} InsertKeepsSorted<T(!new)>(less: (T, T) -> bool, x: T, xs: seq<T>)
    requires StrictOrder(less) && Sorted(less, xs) && Comparable(less, Elements(xs) + {x})
    ensures Sorted(less, Insert(less, x, xs))
  {
    if xs != [] && xs[0] != x && !less(x, xs[0]) {
      HeadAndTail(xs);
      var tail := Insert(less, x, xs[1..]);
      InsertKeepsSorted(less, x, xs[1..]);
      InsertElements(less, x, xs[1..]);
      assert xs[0] in Elements(xs) + {x} && less(xs[0], x);
      forall y | y in tail ensures less(xs[0], y) {
        assert y in Elements(tail);
      }
    } else if xs != [] && xs[0] != x {
      forall j | 0 <= j < |xs| ensures less(x, xs[j]) {
        assert j > 0 ==> less(xs[0], xs[j]);
      }
    }
  }

  lemma {:induction false} CanonElements<T>(less: (T, T) -> bool, xs: seq<T>)
    ensures Elements(Canon(less, xs)) == Elements(xs)
  {
    if xs != [] {
      CanonElements(less, xs[1..]);
      InsertElements(less, xs[0], Canon(less, xs[1..]));
      HeadAndTail(xs);
    }
  }

  lemma {:induction false} CanonIsSorted<T(!new)>(less: (T, T) -> bool, xs: seq<T>)
    requires StrictOrder(less) && Comparable(less, Elements(xs))
    ensures Sorted(less, Canon(less, xs))
  {
    if xs != [] {
      HeadAndTail(xs);
      CanonIsSorted(less, xs[1..]);
      CanonElements(less, xs[1..]);
      InsertKeepsSorted(less, xs[0], Canon(less, xs[1..]));
    }
  }

  /** A strictly sorted sequence is determined by its elements. */
  lemma {:induction false} SortedIsUnique<T(!new)>(less: (T, T) -> bool, a: seq<T>, b: seq<T>)
    requires StrictOrder(less) && Sorted(less, a) && Sorted(less, b) && Elements(a) == Elements(b)
    ensures a == b
    decreases |a|
  {
    if a == [] {
      EmptyElements(b);
    } else {
      assert a[0] in Elements(b);
      HeadsAgree(less, a, b);
      TailAvoidsHead(less, a);
      TailAvoidsHead(less, b);
      SortedIsUnique(less, a[1..], b[1..]);
    }
  }

  lemma HeadsAgree<T(!new)>(less: (T, T) -> bool, a: seq<T>, b: seq<T>)
    requires StrictOrder(less) && Sorted(less, a) && Sorted(less, b) && Elements(a) == Elements(b)
    requires a != [] && b != []
    ensures a[0] == b[0]
  {
    assert a[0] in Elements(b) && b[0] in Elements(a);
    var i :| 0 <= i < |b| && b[i] == a[0];
    var j :| 0 <= j < |a| && a[j] == b[0];
  }

  lemma TailAvoidsHead<T(!new)>(less: (T, T) -> bool, xs: seq<T>)
    requires StrictOrder(less) && Sorted(less, xs) && xs != []
    ensures Elements(xs[1..]) == Elements(xs) - {xs[0]}
  {
    HeadAndTail(xs);
    forall x | x in xs[1..] ensures x != xs[0] {
      var k :| 0 <= k < |xs[1..]| && xs[1..][k] == x;
      assert less(xs[0], xs[k + 1]);
    }
  }

  /** Order and repetition do not matter. */
  lemma CanonIgnoresOrder<T(!new)>(less: (T, T) -> bool, a: seq<T>, b: seq<T>)
    requires StrictOrder(less) && Comparable(less, Elements(a)) && Elements(a) == Elements(b)
    ensures Canon(less, a) == Canon(less, b)
  {
    CanonIsSorted(less, a);
    CanonIsSorted(less, b);
    CanonElements(less, a);
    CanonElements(less, b);
    SortedIsUnique(less, Canon(less, a), Canon(less, b));
  }

  /** A sorted sequence is its own canonical form. */
  lemma CanonOfSorted<T(!new)>(less: (T, T) -> bool, a: seq<T>)
    requires StrictOrder(less) && Sorted(less, a) && Comparable(less, Elements(a))
    ensures Canon(less, a) == a
  {
    CanonIsSorted(less, a);
    CanonElements(less, a);
    SortedIsUnique(less, Canon(less, a), a);
  }

  // ----- text

  /** Lexicographic order by code point. */
  predicate TextLess(a: string, b: string)
  {
    b != "" && (a == "" || a[0] < b[0] || (a[0] == b[0] && TextLess(a[1..], b[1..])))
  }

  lemma {:induction false} TextLessIsTransitive(a: string, b: string, c: string)
    requires TextLess(a, b) && TextLess(b, c)
    ensures TextLess(a, c)
  {
    if a != "" && a[0] == b[0] == c[0] {
      TextLessIsTransitive(a[1..], b[1..], c[1..]);
    }
  }

  lemma {:induction false} TextLessIsTotal(a: string, b: string)
    ensures !TextLess(a, a)
    ensures a != b ==> TextLess(a, b) || TextLess(b, a)
  {
    if a != "" {
      if b != "" && a[0] == b[0] {
        TextLessIsTotal(a[1..], b[1..]);
        assert a == [a[0]] + a[1..] && b == [b[0]] + b[1..];
      } else {
        TextLessIsTotal(a[1..], a[1..]);
      }
    }
  }

  lemma TextOrder()
    ensures StrictOrder(TextLess)
    ensures forall xs: set<string> :: Comparable(TextLess, xs)
  {
    forall x ensures !TextLess(x, x) {
      TextLessIsTotal(x, x);
    }
    forall x, y, z | TextLess(x, y) && TextLess(y, z) ensures TextLess(x, z) {
      TextLessIsTransitive(x, y, z);
    }
    forall x, y | x != y ensures TextLess(x, y) || TextLess(y, x) {
      TextLessIsTotal(x, y);
    }
  }
}
