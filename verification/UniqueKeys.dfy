/** Sequences in which no two elements have the same key. */
module UniqueKeys {
  import opened Sequences
  import opened StableSort

  ghost predicate Unique<T, K>(s: seq<T>, id: T -> K) {
    forall i, j :: 0 <= i < j < |s| ==> id(s[i]) != id(s[j])
  }

  lemma UniqueSnoc<T(!new), K>(s: seq<T>, x: T, id: T -> K)
    ensures Unique(s + [x], id) <==> Unique(s, id) && forall y :: y in s ==> id(y) != id(x)
  {
    var t := s + [x];
    assert forall k :: 0 <= k < |s| ==> t[k] == s[k];
    if Unique(t, id) {
      forall y | y in s ensures id(y) != id(x) {
        var k :| 0 <= k < |s| && s[k] == y;
        assert id(t[k]) != id(t[|s|]);
      }
      assert forall j, k :: 0 <= j < k < |s| ==> id(t[j]) != id(t[k]);
    }
  }

  lemma UniqueMember<T(!new), K>(s: seq<T>, x: T, y: T, id: T -> K)
    requires Unique(s, id) && x in s && y in s && id(x) == id(y)
    ensures x == y
  {
    var j, k :| 0 <= j < |s| && 0 <= k < |s| && s[j] == x && s[k] == y;
    assert j == k;
  }

  lemma UniqueAppend<T(!new), K>(a: seq<T>, b: seq<T>, id: T -> K)
    requires Unique(a, id) && Unique(b, id)
    requires forall x, y :: x in a && y in b ==> id(x) != id(y)
    ensures Unique(a + b, id)
  {
    forall j, k | 0 <= j < k < |a + b| ensures id((a + b)[j]) != id((a + b)[k]) {
      if j < |a| <= k { assert a[j] in a && b[k - |a|] in b; }
    }
  }

  lemma {:induction false} FilterUnique<T(!new), K>(s: seq<T>, keep: T -> bool, id: T -> K)
    requires Unique(s, id)
    ensures Unique(Filter(s, keep), id)
  {
    if |s| == 0 {
    } else {
      var front, x := s[..|s| - 1], s[|s| - 1];
      assert s == front + [x];
      UniqueSnoc(front, x, id);
      FilterUnique(front, keep, id);
      FilterMembers(front, keep);
      UniqueSnoc(Filter(front, keep), x, id);
    }
  }

  lemma {:induction false} InsertUnique<T(!new), K>(s: seq<T>, x: T, key: T -> int, id: T -> K)
    requires Unique(s, id) && forall y :: y in s ==> id(y) != id(x)
    ensures Unique(Insert(s, x, key), id)
  {
    if |s| == 0 || key(s[|s| - 1]) <= key(x) {
      UniqueSnoc(s, x, id);
    } else {
      var front, l := s[..|s| - 1], s[|s| - 1];
      assert s == front + [l];
      UniqueSnoc(front, l, id);
      InsertUnique(front, x, key, id);
      InsertMembers(front, x, key);
      UniqueSnoc(Insert(front, x, key), l, id);
    }
  }

  /** Sorting keeps keys unique. */
  lemma {:induction false} SortUnique<T(!new), K>(s: seq<T>, key: T -> int, id: T -> K)
    requires Unique(s, id)
    ensures Unique(Sort(s, key), id)
  {
    if |s| == 0 {
    } else {
      var front, x := s[..|s| - 1], s[|s| - 1];
      assert s == front + [x];
      UniqueSnoc(front, x, id);
      SortUnique(front, key, id);
      SortMembers(front, key);
      InsertUnique(Sort(front, key), x, key, id);
    }
  }
}
