/**
  Sorted duplicate-free lists: what a sort followed by a dedup leaves behind. Such a list is determined
  by its elements, which is what makes list equality usable as set equality.
 */
module CanonicalLists {
  import opened LittleEndian

  ghost predicate StrictTotal<T(!new)>(less: (T, T) -> bool)
  {
    && (forall a :: !less(a, a))
    && (forall a, b, c :: less(a, b) && less(b, c) ==> less(a, c))
    && (forall a, b :: a == b || less(a, b) || less(b, a))
  }

  ghost predicate Ascending<T>(less: (T, T) -> bool, xs: seq<T>)
  {
    forall i, j :: 0 <= i < j < |xs| ==> less(xs[i], xs[j])
  }

  function Insert<T(==)>(less: (T, T) -> bool, xs: seq<T>, x: T): seq<T>
  {
    if xs == [] then [x]
    else if xs[0] == x then xs
    else if less(x, xs[0]) then [x] + xs
    else [xs[0]] + Insert(less, xs[1..], x)
  }

  /** Sort, then drop repetitions. */
  function SortDedup<T(==)>(less: (T, T) -> bool, xs: seq<T>): seq<T>
  {
    if xs == [] then [] else Insert(less, SortDedup(less, xs[1..]), xs[0])
  }

  lemma {:induction false} InsertElement<T(!new)>(less: (T, T) -> bool, xs: seq<T>, x: T, y: T)
    ensures y in Insert(less, xs, x) <==> y == x || y in xs
  {
    if xs != [] {
      InsertElement(less, xs[1..], x, y);
    }
  }

  lemma {:induction false} InsertAscending<T(!new)>(less: (T, T) -> bool, xs: seq<T>, x: T)
    requires StrictTotal(less) && Ascending(less, xs)
    ensures Ascending(less, Insert(less, xs, x))
  {
    if xs != [] && xs[0] != x && !less(x, xs[0]) {
      var head, tail := xs[0], Insert(less, xs[1..], x);
      InsertAscending(less, xs[1..], x);
      forall i | 0 <= i < |tail| ensures less(head, tail[i]) {
        InsertElement(less, xs[1..], x, tail[i]);
      }
    } else if xs != [] && xs[0] != x {
      forall i | 0 <= i < |xs| ensures less(x, xs[i]) {
        assert i == 0 || less(xs[0], xs[i]);
      }
    }
  }

  lemma {:induction false} SortDedupElement<T(!new)>(less: (T, T) -> bool, xs: seq<T>, y: T)
    ensures y in SortDedup(less, xs) <==> y in xs
  {
    if xs != [] {
      SortDedupElement(less, xs[1..], y);
      InsertElement(less, SortDedup(less, xs[1..]), xs[0], y);
    }
  }

  lemma {:induction false} SortDedupAscending<T(!new)>(less: (T, T) -> bool, xs: seq<T>)
    requires StrictTotal(less)
    ensures Ascending(less, SortDedup(less, xs))
  {
    if xs != [] {
      SortDedupAscending(less, xs[1..]);
      InsertAscending(less, SortDedup(less, xs[1..]), xs[0]);
    }
  }

  lemma {:induction false} SortDedupNotLonger<T(!new)>(less: (T, T) -> bool, xs: seq<T>)
    ensures |SortDedup(less, xs)| <= |xs|
  {
    if xs != [] {
      SortDedupNotLonger(less, xs[1..]);
      InsertLength(less, SortDedup(less, xs[1..]), xs[0]);
    }
  }

  lemma {:induction false} InsertLength<T(!new)>(less: (T, T) -> bool, xs: seq<T>, x: T)
    ensures |xs| <= |Insert(less, xs, x)| <= |xs| + 1
  {
    if xs != [] {
      InsertLength(less, xs[1..], x);
    }
  }

  /** The result is sorted without repetitions and has exactly the old elements. */
  lemma SortDedupMeaning<T(!new)>(less: (T, T) -> bool, xs: seq<T>)
    requires StrictTotal(less)
    ensures Ascending(less, SortDedup(less, xs))
    ensures forall y :: y in SortDedup(less, xs) <==> y in xs
  {
    SortDedupAscending(less, xs);
    forall y ensures y in SortDedup(less, xs) <==> y in xs {
      SortDedupElement(less, xs, y);
    }
  }

  /** A list stays ascending with a lesser head. */
  lemma {:induction false} PrependAscending<T>(less: (T, T) -> bool, head: T, rest: seq<T>)
    requires Ascending(less, rest) && forall x :: x in rest ==> less(head, x)
    ensures Ascending(less, [head] + rest)
  {
    forall j | 0 <= j < |rest| ensures less(head, rest[j]) {
      assert rest[j] in rest;
    }
  }

  /** Two ascending lists with the same elements are the same list. */
  lemma {:induction false} AscendingUnique<T(!new)>(less: (T, T) -> bool, xs: seq<T>, ys: seq<T>)
    requires StrictTotal(less) && Ascending(less, xs) && Ascending(less, ys)
    requires forall e :: e in xs <==> e in ys
    ensures xs == ys
  {
    if xs != [] && ys != [] {
      assert xs[0] in ys && ys[0] in xs;
      SameHead(less, xs, ys);
      forall e ensures e in xs[1..] <==> e in ys[1..] {
        TailElement(less, xs, e);
        TailElement(less, ys, e);
      }
      AscendingUnique(less, xs[1..], ys[1..]);
      assert xs == [xs[0]] + xs[1..] && ys == [ys[0]] + ys[1..];
    } else if xs != [] {
      NoElements(ys, xs[0]);
    } else if ys != [] {
      NoElements(xs, ys[0]);
    }
  }

  lemma NoElements<T(!new)>(xs: seq<T>, e: T)
    ensures xs == [] ==> e !in xs
  {
  }

  lemma SameHead<T(!new)>(less: (T, T) -> bool, xs: seq<T>, ys: seq<T>)
    requires StrictTotal(less) && Ascending(less, xs) && Ascending(less, ys)
    requires xs != [] && ys != [] && xs[0] in ys && ys[0] in xs
    ensures xs[0] == ys[0]
  {
    var i :| 0 <= i < |ys| && ys[i] == xs[0];
    var j :| 0 <= j < |xs| && xs[j] == ys[0];
    if i > 0 && j > 0 {
      assert false;
    }
  }

  lemma TailElement<T(!new)>(less: (T, T) -> bool, xs: seq<T>, e: T)
    requires StrictTotal(less) && Ascending(less, xs) && xs != []
    ensures e in xs[1..] <==> e in xs && e != xs[0]
  {
    if e in xs[1..] {
      var k :| 0 <= k < |xs[1..]| && xs[1..][k] == e;
      assert less(xs[0], xs[k + 1]);
    }
  }

  /** A list that is already sorted and duplicate free is left alone. */
  lemma SortDedupIdempotent<T(!new)>(less: (T, T) -> bool, xs: seq<T>)
    requires StrictTotal(less) && Ascending(less, xs)
    ensures SortDedup(less, xs) == xs
  {
    SortDedupMeaning(less, xs);
    AscendingUnique(less, SortDedup(less, xs), xs);
  }

  // -------------------------------------------------------------------------
  // The two orders in use
  // -------------------------------------------------------------------------

  /** Text is its UTF-8 bytes; its order is the order of those bytes. */
  type Text = seq<Byte>

  predicate TextLess(a: Text, b: Text)
  {
    b != [] && (a == [] || a[0] < b[0] || (a[0] == b[0] && TextLess(a[1..], b[1..])))
  }

  predicate NatLess(a: nat, b: nat)
  {
    a < b
  }

  lemma {:induction false} TextIrreflexive(a: Text)
    ensures !TextLess(a, a)
  {
    if a != [] {
      TextIrreflexive(a[1..]);
    }
  }

  lemma {:induction false} TextTransitive(a: Text, b: Text, c: Text)
    requires TextLess(a, b) && TextLess(b, c)
    ensures TextLess(a, c)
  {
    if a != [] && a[0] == b[0] && b[0] == c[0] {
      TextTransitive(a[1..], b[1..], c[1..]);
    }
  }

  lemma {:induction false} TextTotal(a: Text, b: Text)
    ensures a == b || TextLess(a, b) || TextLess(b, a)
  {
    if a != [] && b != [] {
      TextTotal(a[1..], b[1..]);
      assert a == [a[0]] + a[1..] && b == [b[0]] + b[1..];
    }
  }

  lemma TextOrder()
    ensures StrictTotal<Text>(TextLess)
  {
    forall a: Text ensures !TextLess(a, a) { TextIrreflexive(a); }
    forall a: Text, b: Text, c: Text | TextLess(a, b) && TextLess(b, c) ensures TextLess(a, c) {
      TextTransitive(a, b, c);
    }
    forall a: Text, b: Text ensures a == b || TextLess(a, b) || TextLess(b, a) { TextTotal(a, b); }
  }

  lemma NatOrder()
    ensures StrictTotal<nat>(NatLess)
  {
  }

  function SortNats(xs: seq<nat>): seq<nat>
  {
    SortDedup(NatLess, xs)
  }

  function SortTexts(xs: seq<Text>): seq<Text>
  {
    SortDedup(TextLess, xs)
  }
}
