/** Python's `sorted` on records that compare as tuples of strings. */
module Sorting {
  import opened CanonicalJson

  /** Tuples of strings compare field by field. */
  predicate KeyBefore(a: seq<string>, b: seq<string>) {
    b != [] && (a == [] || Before(a[0], b[0]) || (a[0] == b[0] && KeyBefore(a[1..], b[1..])))
  }

  lemma {:induction false} KeyTotal(a: seq<string>, b: seq<string>)
    ensures a == b || KeyBefore(a, b) || KeyBefore(b, a)
  {
    if a != [] && b != [] {
      BeforeTotal(a[0], b[0]);
      KeyTotal(a[1..], b[1..]);
      assert a == [a[0]] + a[1..] && b == [b[0]] + b[1..];
    }
  }

  lemma {:induction false} KeyTransitive(a: seq<string>, b: seq<string>, c: seq<string>)
    requires KeyBefore(a, b) && KeyBefore(b, c)
    ensures KeyBefore(a, c)
  {
    if a != [] {
      if Before(a[0], b[0]) && Before(b[0], c[0]) {
        BeforeTransitive(a[0], b[0], c[0]);
      } else if a[0] == b[0] == c[0] && !Before(a[0], b[0]) && !Before(b[0], c[0]) {
        KeyTransitive(a[1..], b[1..], c[1..]);
      } else if a[0] == b[0] == c[0] {
        BeforeIrreflexive(a[0]);
      }
    }
  }

  /** Sorted by key; entries with one key may stand next to each other. */
  predicate Sorted<T(!new)>(key: T -> seq<string>, xs: seq<T>) {
    forall i, j | 0 <= i < j < |xs| :: !KeyBefore(key(xs[j]), key(xs[i]))
  }

  /** Inserts in front of the first entry with a larger key. */
  function Insert<T(!new)>(key: T -> seq<string>, x: T, xs: seq<T>): (r: seq<T>)
    ensures multiset(r) == multiset(xs) + multiset{x}
  {
    if xs == [] || KeyBefore(key(x), key(xs[0])) then [x] + xs
    else
      assert xs == [xs[0]] + xs[1..];
      [xs[0]] + Insert(key, x, xs[1..])
  }

  lemma KeyIrreflexive(a: seq<string>)
    ensures !KeyBefore(a, a)
  {
    if a != [] {
      BeforeIrreflexive(a[0]);
      KeyIrreflexive(a[1..]);
    }
  }

  lemma {:induction false} InsertSorts<T(!new)>(key: T -> seq<string>, x: T, xs: seq<T>)
    requires Sorted(key, xs)
    ensures Sorted(key, Insert(key, x, xs))
  {
    var r := Insert(key, x, xs);
    if xs == [] {
    } else if KeyBefore(key(x), key(xs[0])) {
      forall j | 0 <= j < |xs| ensures !KeyBefore(key(xs[j]), key(x)) {
        if KeyBefore(key(xs[j]), key(x)) {
          KeyTransitive(key(xs[j]), key(x), key(xs[0]));
          KeyIrreflexive(key(xs[0]));
        }
      }
    } else {
      var rest := Insert(key, x, xs[1..]);
      InsertSorts(key, x, xs[1..]);
      forall j | 0 <= j < |rest| ensures !KeyBefore(key(rest[j]), key(xs[0])) {
        assert rest[j] in multiset(rest);
        assert rest[j] == x || rest[j] in xs[1..];
        if rest[j] in xs[1..] { var k :| 0 <= k < |xs[1..]| && xs[1..][k] == rest[j]; assert xs[k + 1] == rest[j]; }
      }
    }
  }

  function Sort<T(!new)>(key: T -> seq<string>, xs: seq<T>): (r: seq<T>)
    ensures multiset(r) == multiset(xs)
  {
    if xs == [] then []
    else
      assert xs == xs[..|xs| - 1] + [xs[|xs| - 1]];
      Insert(key, xs[|xs| - 1], Sort(key, xs[..|xs| - 1]))
  }

  lemma {:induction false} SortSorts<T(!new)>(key: T -> seq<string>, xs: seq<T>)
    ensures Sorted(key, Sort(key, xs))
  {
    if xs != [] {
      SortSorts(key, xs[..|xs| - 1]);
      InsertSorts(key, xs[|xs| - 1], Sort(key, xs[..|xs| - 1]));
    }
  }

  predicate DistinctKeys<T(!new)>(key: T -> seq<string>, xs: seq<T>) {
    forall i, j | 0 <= i < j < |xs| :: key(xs[i]) != key(xs[j])
  }

  lemma DistinctAfterSort<T(!new)>(key: T -> seq<string>, xs: seq<T>, ys: seq<T>)
    requires DistinctKeys(key, xs) && multiset(xs) == multiset(ys)
    ensures DistinctKeys(key, ys)
  {
    forall i, j | 0 <= i < j < |ys| ensures key(ys[i]) != key(ys[j]) {
      if key(ys[i]) == key(ys[j]) {
        var a, b := ys[i], ys[j];
        assert a in multiset(ys) && b in multiset(ys);
        assert a in multiset(xs) && b in multiset(xs);
        var k :| 0 <= k < |xs| && xs[k] == a;
        var l :| 0 <= l < |xs| && xs[l] == b;
        assert k == l;
        TwiceCounts(ys, i, j);
        OnceCounts(xs, k);
        assert false;
      }
    }
  }

  lemma TwiceCounts<T(!new)>(xs: seq<T>, i: nat, j: nat)
    requires i < j < |xs| && xs[i] == xs[j]
    ensures multiset(xs)[xs[i]] >= 2
  {
    assert xs == xs[..j] + xs[j..];
    assert xs[i] in xs[..j] && xs[j] in xs[j..];
    assert multiset(xs[..j])[xs[i]] >= 1 && multiset(xs[j..])[xs[i]] >= 1;
  }

  lemma OnceCounts<T(!new)>(xs: seq<T>, k: nat)
    requires k < |xs| && forall i, j | 0 <= i < j < |xs| :: xs[i] != xs[j]
    ensures multiset(xs)[xs[k]] == 1
  {
    assert xs == xs[..k] + [xs[k]] + xs[k + 1..];
    assert xs[k] !in xs[..k] && xs[k] !in xs[k + 1..];
    assert xs[k] !in multiset(xs[..k]) && xs[k] !in multiset(xs[k + 1..]);
  }

  /** Nothing stands before the first entry of a sorted list. */
  lemma FirstIsLeast<T(!new)>(key: T -> seq<string>, xs: seq<T>, x: T)
    requires Sorted(key, xs) && x in xs
    ensures x == xs[0] || !KeyBefore(key(x), key(xs[0]))
  {
    var i :| 0 <= i < |xs| && xs[i] == x;
  }

  lemma SameFirst<T(!new)>(key: T -> seq<string>, xs: seq<T>, ys: seq<T>)
    requires Sorted(key, xs) && Sorted(key, ys) && DistinctKeys(key, xs)
    requires multiset(xs) == multiset(ys) && xs != [] && ys != []
    ensures xs[0] == ys[0]
  {
    hide Sorted, KeyBefore;
    assert xs[0] in multiset(ys) && ys[0] in multiset(xs);
    FirstIsLeast(key, ys, xs[0]);
    FirstIsLeast(key, xs, ys[0]);
    KeyTotal(key(xs[0]), key(ys[0]));
    var j :| 0 <= j < |xs| && xs[j] == ys[0];
    OneOfEachKey(key, xs, 0, j);
  }

  lemma OneOfEachKey<T(!new)>(key: T -> seq<string>, xs: seq<T>, i: nat, j: nat)
    requires DistinctKeys(key, xs) && i < |xs| && j < |xs| && key(xs[i]) == key(xs[j])
    ensures i == j
  {
  }

  lemma TailMultiset<T(!new)>(xs: seq<T>)
    requires xs != []
    ensures multiset(xs[1..]) == multiset(xs) - multiset{xs[0]}
  {
    assert xs == [xs[0]] + xs[1..];
  }

  /** With distinct keys there is only one sorted order. */
  lemma {:induction false} SortedUnique<T(!new)>(key: T -> seq<string>, xs: seq<T>, ys: seq<T>)
    requires Sorted(key, xs) && Sorted(key, ys) && DistinctKeys(key, xs)
    requires multiset(xs) == multiset(ys)
    ensures xs == ys
    decreases |xs|
  {
    assert |xs| == |multiset(xs)| == |multiset(ys)| == |ys|;
    if xs != [] {
      SameFirst(key, xs, ys);
      TailMultiset(xs);
      TailMultiset(ys);
      SortedUnique(key, xs[1..], ys[1..]);
      assert xs == [xs[0]] + xs[1..] && ys == [ys[0]] + ys[1..];
    }
  }
}
