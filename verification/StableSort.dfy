/** Stable ordering by an integer key: what a caller of JavaScript's
    `Array.prototype.sort` with a numeric comparator may rely on.  Any sorted
    sequence that keeps equal keys in their original order is `Sort`
    (`StableSortIsUnique`), so the insertion sort below is only one way of
    writing that result down. */
module StableSort {
  import opened Sequences

  ghost predicate Sorted<T>(s: seq<T>, key: T -> int) {
    forall i, j :: 0 <= i < j < |s| ==> key(s[i]) <= key(s[j])
  }

  ghost predicate StrictlySorted<T>(s: seq<T>, key: T -> int) {
    forall i, j :: 0 <= i < j < |s| ==> key(s[i]) < key(s[j])
  }

  /** Places `x` after every element whose key is not greater. */
  function Insert<T>(s: seq<T>, x: T, key: T -> int): (r: seq<T>)
    ensures |r| == |s| + 1
  {
    if |s| == 0 || key(s[|s| - 1]) <= key(x) then s + [x]
    else Insert(s[..|s| - 1], x, key) + [s[|s| - 1]]
  }

  function Sort<T>(s: seq<T>, key: T -> int): (r: seq<T>)
    ensures |r| == |s|
  {
    if |s| == 0 then [] else Insert(Sort(s[..|s| - 1], key), s[|s| - 1], key)
  }

  /** The elements that compare equal to `v`, in order. */
  ghost function Class<T>(s: seq<T>, key: T -> int, v: int): seq<T> {
    Filter(s, KeyIs(key, v))
  }

  function KeyIs<T>(key: T -> int, v: int): T -> bool {
    (x: T) => key(x) == v
  }

  /* ---- Sorted sequences, one element at a time ---- */

  lemma SortedSnoc<T(!new)>(s: seq<T>, x: T, key: T -> int)
    ensures Sorted(s + [x], key) <==> Sorted(s, key) && forall y :: y in s ==> key(y) <= key(x)
  {
    var t := s + [x];
    assert forall i :: 0 <= i < |s| ==> t[i] == s[i];
    if Sorted(t, key) {
      forall y | y in s ensures key(y) <= key(x) {
        var i :| 0 <= i < |s| && s[i] == y;
        assert key(t[i]) <= key(t[|s|]);
      }
      assert forall i, j :: 0 <= i < j < |s| ==> key(t[i]) <= key(t[j]);
    }
  }

  lemma StrictSnoc<T(!new)>(s: seq<T>, x: T, key: T -> int)
    ensures StrictlySorted(s + [x], key) <==> StrictlySorted(s, key) && forall y :: y in s ==> key(y) < key(x)
  {
    var t := s + [x];
    assert forall i :: 0 <= i < |s| ==> t[i] == s[i];
    if StrictlySorted(t, key) {
      forall y | y in s ensures key(y) < key(x) {
        var i :| 0 <= i < |s| && s[i] == y;
        assert key(t[i]) < key(t[|s|]);
      }
      assert forall i, j :: 0 <= i < j < |s| ==> key(t[i]) < key(t[j]);
    }
  }

  /** A selection keeps order. */
  lemma {:induction false} FilterSorted<T(!new)>(s: seq<T>, keep: T -> bool, key: T -> int)
    requires Sorted(s, key)
    ensures Sorted(Filter(s, keep), key)
  {
    if |s| == 0 {
    } else {
      var s', x := s[..|s| - 1], s[|s| - 1];
      assert s == s' + [x];
      SortedSnoc(s', x, key);
      FilterSorted(s', keep, key);
      FilterMembers(s', keep);
      SortedSnoc(Filter(s', keep), x, key);
    }
  }

  lemma {:induction false} FilterStrictlySorted<T(!new)>(s: seq<T>, keep: T -> bool, key: T -> int)
    requires StrictlySorted(s, key)
    ensures StrictlySorted(Filter(s, keep), key)
  {
    if |s| == 0 {
    } else {
      var s', x := s[..|s| - 1], s[|s| - 1];
      assert s == s' + [x];
      StrictSnoc(s', x, key);
      FilterStrictlySorted(s', keep, key);
      FilterMembers(s', keep);
      StrictSnoc(Filter(s', keep), x, key);
    }
  }

  /* ---- Insert and Sort ---- */

  lemma {:induction false} InsertMembers<T(!new)>(s: seq<T>, x: T, key: T -> int)
    ensures forall y :: y in Insert(s, x, key) <==> y in s || y == x
  {
    if |s| != 0 && key(s[|s| - 1]) > key(x) {
      InsertMembers(s[..|s| - 1], x, key);
      assert s == s[..|s| - 1] + [s[|s| - 1]];
    }
  }

  lemma {:induction false} InsertPermutes<T(!new)>(s: seq<T>, x: T, key: T -> int)
    ensures multiset(Insert(s, x, key)) == multiset(s) + multiset{x}
  {
    if |s| != 0 && key(s[|s| - 1]) > key(x) {
      InsertPermutes(s[..|s| - 1], x, key);
      assert s == s[..|s| - 1] + [s[|s| - 1]];
    }
  }

  lemma InsertLast<T(!new)>(s: seq<T>, x: T, key: T -> int)
    requires forall y :: y in s ==> key(y) <= key(x)
    ensures Insert(s, x, key) == s + [x]
  {
    assert |s| > 0 ==> s[|s| - 1] in s;
  }

  lemma {:induction false} InsertSorted<T(!new)>(s: seq<T>, x: T, key: T -> int)
    requires Sorted(s, key)
    ensures Sorted(Insert(s, x, key), key)
  {
    if |s| == 0 {
    } else {
      var s', l := s[..|s| - 1], s[|s| - 1];
      assert s == s' + [l];
      SortedSnoc(s', l, key);
      if key(l) <= key(x) {
        SortedSnoc(s, x, key);
      } else {
        InsertSorted(s', x, key);
        InsertMembers(s', x, key);
        var r := Insert(s', x, key);
        forall y | y in r ensures key(y) <= key(l) { assert y in s' || y == x; }
        SortedSnoc(r, l, key);
        assert Insert(s, x, key) == r + [l];
      }
    }
  }

  lemma {:induction false} InsertStrictlySorted<T(!new)>(s: seq<T>, x: T, key: T -> int)
    requires StrictlySorted(s, key)
    requires forall y :: y in s ==> key(y) != key(x)
    ensures StrictlySorted(Insert(s, x, key), key)
  {
    if |s| == 0 {
    } else {
      var s', l := s[..|s| - 1], s[|s| - 1];
      assert s == s' + [l];
      StrictSnoc(s', l, key);
      if key(l) <= key(x) {
        StrictSnoc(s, x, key);
      } else {
        InsertStrictlySorted(s', x, key);
        InsertMembers(s', x, key);
        var r := Insert(s', x, key);
        forall y | y in r ensures key(y) < key(l) { assert y in s' || y == x; }
        StrictSnoc(r, l, key);
        assert Insert(s, x, key) == r + [l];
      }
    }
  }

  lemma {:induction false} SortSorted<T(!new)>(s: seq<T>, key: T -> int)
    ensures Sorted(Sort(s, key), key)
  {
    if |s| == 0 {
    } else {
      SortSorted(s[..|s| - 1], key);
      InsertSorted(Sort(s[..|s| - 1], key), s[|s| - 1], key);
    }
  }

  lemma {:induction false} SortMembers<T(!new)>(s: seq<T>, key: T -> int)
    ensures forall x :: x in Sort(s, key) <==> x in s
  {
    if |s| == 0 {
    } else {
      SortMembers(s[..|s| - 1], key);
      InsertMembers(Sort(s[..|s| - 1], key), s[|s| - 1], key);
      assert s == s[..|s| - 1] + [s[|s| - 1]];
    }
  }

  lemma {:induction false} SortPermutes<T(!new)>(s: seq<T>, key: T -> int)
    ensures multiset(Sort(s, key)) == multiset(s)
  {
    if |s| == 0 {
    } else {
      SortPermutes(s[..|s| - 1], key);
      InsertPermutes(Sort(s[..|s| - 1], key), s[|s| - 1], key);
      assert s == s[..|s| - 1] + [s[|s| - 1]];
    }
  }

  lemma SortSorts<T(!new)>(s: seq<T>, key: T -> int)
    ensures Sorted(Sort(s, key), key)
    ensures forall x :: x in Sort(s, key) <==> x in s
  {
    SortSorted(s, key);
    SortMembers(s, key);
  }

  lemma SortSnoc<T(!new)>(s: seq<T>, x: T, key: T -> int)
    ensures Sort(s + [x], key) == Insert(Sort(s, key), x, key)
  {
    assert (s + [x])[..|s|] == s;
  }

  lemma {:induction false} SortedIsSorted<T(!new)>(s: seq<T>, key: T -> int)
    requires Sorted(s, key)
    ensures Sort(s, key) == s
  {
    if |s| == 0 {
    } else {
      var s', x := s[..|s| - 1], s[|s| - 1];
      assert s == s' + [x];
      SortedSnoc(s', x, key);
      SortedIsSorted(s', key);
      InsertLast(s', x, key);
    }
  }

  lemma {:induction false} FilterInsert<T(!new)>(s: seq<T>, x: T, keep: T -> bool, key: T -> int)
    requires Sorted(s, key)
    ensures Filter(Insert(s, x, key), keep)
            == if keep(x) then Insert(Filter(s, keep), x, key) else Filter(s, keep)
  {
    if |s| == 0 || key(s[|s| - 1]) <= key(x) {
      FilterSnoc(s, x, keep);
      FilterMembers(s, keep);
      if |s| != 0 {
        assert s == s[..|s| - 1] + [s[|s| - 1]];
        SortedSnoc(s[..|s| - 1], s[|s| - 1], key);
      }
      InsertLast(Filter(s, keep), x, key);
    } else {
      var s', l := s[..|s| - 1], s[|s| - 1];
      FilterInsert(s', x, keep, key);
      FilterSnoc(Insert(s', x, key), l, keep);
      if keep(l) {
        assert Filter(s, keep)[..|Filter(s, keep)| - 1] == Filter(s', keep);
      }
    }
  }

  /** Selecting commutes with sorting. */
  lemma {:induction false} FilterSort<T(!new)>(s: seq<T>, keep: T -> bool, key: T -> int)
    ensures Filter(Sort(s, key), keep) == Sort(Filter(s, keep), key)
  {
    if |s| == 0 {
    } else {
      var s', x := s[..|s| - 1], s[|s| - 1];
      FilterSort(s', keep, key);
      SortSorts(s', key);
      FilterInsert(Sort(s', key), x, keep, key);
      if keep(x) {
        SortSnoc(Filter(s', keep), x, key);
      }
    }
  }

  /** Elements that compare equal keep their order. */
  lemma SortIsStable<T(!new)>(s: seq<T>, key: T -> int, v: int)
    ensures Class(Sort(s, key), key, v) == Class(s, key, v)
  {
    var p := KeyIs(key, v);
    FilterSort(s, p, key);
    FilterMembers(s, p);
    var f := Filter(s, p);
    forall i, j | 0 <= i < j < |f| ensures key(f[i]) <= key(f[j]) {
      assert f[i] in f && f[j] in f;
    }
    SortedIsSorted(f, key);
  }

  /** `Sort` is the only sorted sequence that keeps equal keys in order. */
  lemma {:induction false} StableSortIsUnique<T(!new)>(s: seq<T>, t: seq<T>, key: T -> int)
    requires Sorted(t, key)
    requires forall v :: Class(t, key, v) == Class(s, key, v)
    ensures t == Sort(s, key)
  {
    var u := Sort(s, key);
    SortSorts(s, key);
    forall v ensures Class(t, key, v) == Class(u, key, v) {
      SortIsStable(s, key, v);
    }
    SameClassesSameSequence(t, u, key);
  }

  lemma {:induction false} SameClassesSameSequence<T(!new)>(t: seq<T>, u: seq<T>, key: T -> int)
    requires Sorted(t, key) && Sorted(u, key)
    requires forall v :: Class(t, key, v) == Class(u, key, v)
    ensures t == u
    decreases |t| + |u|
  {
    if |t| != 0 || |u| != 0 {
      if |t| != 0 { ClassLast(t, u, key); }
      if |u| != 0 { ClassLast(u, t, key); }
      var t', u', x, y := t[..|t| - 1], u[..|u| - 1], t[|t| - 1], u[|u| - 1];
      assert t == t' + [x] && u == u' + [y];
      assert key(x) == key(y);
      forall v: int
        ensures Class(t', key, v) == Class(u', key, v) && (v == key(x) ==> x == y)
      {
        var q := KeyIs(key, v);
        assert Class(t, key, v) == Class(u, key, v);
        FilterSnoc(t', x, q);
        FilterSnoc(u', y, q);
        if v == key(x) {
          assert (Filter(t', q) + [x])[|Filter(t', q)|] == x;
          assert (Filter(u', q) + [y])[|Filter(u', q)|] == y;
        }
        assert (Filter(t', q) + [x])[..|Filter(t', q)|] == Filter(t', q);
        assert (Filter(u', q) + [y])[..|Filter(u', q)|] == Filter(u', q);
      }
      assert Class(t', key, key(x)) == Class(u', key, key(x));
      SameClassesSameSequence(t', u', key);
    }
  }

  lemma ClassLast<T(!new)>(t: seq<T>, u: seq<T>, key: T -> int)
    requires Sorted(t, key) && Sorted(u, key) && |t| != 0
    requires forall v :: Class(t, key, v) == Class(u, key, v)
    ensures |u| != 0 && key(t[|t| - 1]) <= key(u[|u| - 1])
  {
    var p := KeyIs(key, key(t[|t| - 1]));
    assert Class(t, key, key(t[|t| - 1])) == Class(u, key, key(t[|t| - 1]));
    FilterMembers(t, p);
    FilterMembers(u, p);
    assert t[|t| - 1] in Filter(u, p);
    var i :| 0 <= i < |u| && u[i] == t[|t| - 1];
    assert key(u[i]) <= key(u[|u| - 1]);
  }

  /** Insertions of different keys commute. */
  lemma {:induction false} InsertCommutes<T(!new)>(s: seq<T>, a: T, b: T, key: T -> int)
    requires Sorted(s, key) && key(a) < key(b)
    ensures Insert(Insert(s, a, key), b, key) == Insert(Insert(s, b, key), a, key)
  {
    if |s| == 0 || key(s[|s| - 1]) <= key(b) {
      InsertSorted(s, a, key);
      InsertMembers(s, a, key);
      var sa := Insert(s, a, key);
      assert sa[|sa| - 1] in sa;
      assert forall y :: y in s ==> key(y) <= key(b);
      assert Insert(s, b, key)[..|s|] == s;
    } else {
      var s', l := s[..|s| - 1], s[|s| - 1];
      InsertCommutes(s', a, b, key);
      assert Insert(s, a, key)[..|s|] == Insert(s', a, key);
      assert Insert(s, b, key)[..|s|] == Insert(s', b, key);
    }
  }

  lemma StrictKeysDiffer<T(!new)>(s: seq<T>, key: T -> int, x: T, y: T)
    requires StrictlySorted(s, key) && key(x) == key(y)
    ensures x in s && y in s ==> x == y
  {
    if x in s && y in s {
      var i, j :| 0 <= i < |s| && 0 <= j < |s| && s[i] == x && s[j] == y;
      assert i < j ==> key(s[i]) < key(s[j]);
      assert j < i ==> key(s[j]) < key(s[i]);
    }
  }

  /** A strictly sorted sequence is determined by its set of elements. */
  lemma {:induction false} StrictlySortedUnique<T(!new)>(s: seq<T>, t: seq<T>, key: T -> int)
    requires StrictlySorted(s, key) && StrictlySorted(t, key)
    requires forall x :: x in s <==> x in t
    ensures s == t
  {
    if |s| + |t| != 0 {
      assert |s| > 0 ==> s[0] in t;
      assert |t| > 0 ==> t[0] in s;
      var s', t', x, y := s[..|s| - 1], t[..|t| - 1], s[|s| - 1], t[|t| - 1];
      assert s == s' + [x] && t == t' + [y];
      StrictSnoc(s', x, key);
      StrictSnoc(t', y, key);
      assert x in t && y in s;
      assert x == y by {
        assert x == y || x in t';
        assert x == y || y in s';
      }
      forall z ensures z in s' <==> z in t' {
        if z in s' { assert z in t && key(z) < key(x); assert z in t' || z == y; }
        if z in t' { assert z in s && key(z) < key(y); assert z in s' || z == x; }
      }
      StrictlySortedUnique(s', t', key);
    }
  }
}
