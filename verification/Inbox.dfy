/** The inbox: notifications grouped by issue, one row per group showing its newest item, and
    the optimistic archiving of a whole group. */
module Inbox {
  import opened Options
  import opened Sequences
  import opened StableSort
  import opened UniqueKeys

  datatype Item = Item(id: string, issue: Option<string>, archived: bool, read: bool, created: int, title: string)

  function ItemId(i: Item): string { i.id }

  function GroupKey(i: Item): string { if i.issue.Some? then i.issue.value else i.id }

  /** Sorting by this key puts the newest item first. */
  function NewestFirst(i: Item): int { -i.created }

  predicate IsActive(i: Item) { !i.archived }

  predicate IsUnread(i: Item) { !i.read }

  function InGroup(k: string): Item -> bool { (i: Item) => GroupKey(i) == k }

  function NotInGroup(k: string): Item -> bool { (i: Item) => GroupKey(i) != k }

  function KeyOtherThan(k: string): string -> bool { (x: string) => x != k }

  /* ---- The view ---- */

  function Active(s: seq<Item>): seq<Item> { Filter(s, IsActive) }

  function Group(s: seq<Item>, k: string): seq<Item> { Filter(s, InGroup(k)) }

  /** The group keys in the order of their first item. */
  function Keys(s: seq<Item>): seq<string> {
    if |s| == 0 then []
    else
      var ks := Keys(s[..|s| - 1]);
      var k := GroupKey(s[|s| - 1]);
      if k in ks then ks else ks + [k]
  }

  /** The newest item; the earlier one when two are equally new. */
  function Newest(g: seq<Item>): Item
    requires |g| > 0
  {
    if |g| == 1 then g[0]
    else
      var best := Newest(g[..|g| - 1]);
      if g[|g| - 1].created > best.created then g[|g| - 1] else best
  }

  function Picks(s: seq<Item>, ks: seq<string>): (r: seq<Item>)
    requires forall k :: k in ks ==> Group(s, k) != []
    ensures |r| == |ks|
  {
    if |ks| == 0 then [] else Picks(s, ks[..|ks| - 1]) + [Newest(Group(s, ks[|ks| - 1]))]
  }

  lemma {:induction false} KeysAreGroups(s: seq<Item>)
    ensures forall k :: k in Keys(s) <==> Group(s, k) != []
  {
    if |s| == 0 {
    } else {
      KeysAreGroups(s[..|s| - 1]);
    }
  }

  ghost function Rows(s: seq<Item>): seq<Item> {
    KeysAreGroups(s);
    Picks(s, Keys(s))
  }

  ghost function View(items: seq<Item>): seq<Item> { Sort(Rows(Active(items)), NewestFirst) }

  /* ---- Building the view ---- */

  lemma {:induction false} InsertFirst(s: seq<Item>, x: Item)
    requires Sorted(s, NewestFirst)
    ensures Insert(s, x, NewestFirst)[0] == if |s| == 0 || x.created > s[0].created then x else s[0]
  {
    if |s| != 0 && NewestFirst(s[|s| - 1]) > NewestFirst(x) {
      InsertFirst(s[..|s| - 1], x);
    } else if |s| != 0 {
      assert |s| > 1 ==> NewestFirst(s[0]) <= NewestFirst(s[|s| - 1]);
    }
  }

  /** Sorting a group and taking its head gives its newest item. */
  lemma {:induction false} HeadIsNewest(g: seq<Item>)
    requires |g| > 0
    ensures Sort(g, NewestFirst)[0] == Newest(g)
  {
    if |g| > 1 {
      HeadIsNewest(g[..|g| - 1]);
    }
    SortSorted(g[..|g| - 1], NewestFirst);
    InsertFirst(Sort(g[..|g| - 1], NewestFirst), g[|g| - 1]);
  }

  /** What the insertion-ordered map of groups holds after the items `s`. */
  ghost predicate Grouped(s: seq<Item>, order: seq<string>, groups: map<string, seq<Item>>) {
    order == Keys(s) && groups.Keys == (set k | k in order) && forall k :: k in order ==> groups[k] == Group(s, k)
  }

  lemma GroupedSnoc(s: seq<Item>, x: Item, order: seq<string>, groups: map<string, seq<Item>>)
    requires Grouped(s, order, groups)
    ensures var k := GroupKey(x);
            var group := if k in groups then groups[k] else [];
            Grouped(s + [x], if k in groups then order else order + [k], groups[k := group + [x]])
  {
    var k := GroupKey(x);
    KeysAreGroups(s);
    assert (s + [x])[..|s|] == s;
    forall j ensures Group(s + [x], j) == if j == k then Group(s, j) + [x] else Group(s, j) {
      FilterSnoc(s, x, InGroup(j));
    }
  }

  method GroupByKey(active: seq<Item>) returns (order: seq<string>, groups: map<string, seq<Item>>)
    ensures Grouped(active, order, groups)
  {
    order, groups := [], map[];
    for n := 0 to |active|
      invariant Grouped(active[..n], order, groups)
    {
      GroupedSnoc(active[..n], active[n], order, groups);
      assert active[..n + 1] == active[..n] + [active[n]];
      var key := GroupKey(active[n]);
      var group := if key in groups then groups[key] else [];
      if key !in groups { order := order + [key]; }
      groups := groups[key := group + [active[n]]];
    }
    assert active[..|active|] == active;
  }

  method Deduplicate(items: seq<Item>) returns (view: seq<Item>)
    ensures view == View(items)
  {
    var active := Filter(items, IsActive);
    var order, groups := GroupByKey(active);
    KeysAreGroups(active);
    var merged: seq<Item> := [];
    for n := 0 to |order|
      invariant merged == Picks(active, order[..n])
    {
      var group := Sort(groups[order[n]], NewestFirst);
      HeadIsNewest(groups[order[n]]);
      assert order[..n + 1][..n] == order[..n];
      if |group| > 0 { merged := merged + [group[0]]; }
    }
    assert order[..|order|] == order;
    view := Sort(merged, NewestFirst);
  }

  /* ---- One row per group, the newest, newest first ---- */

  /** `s[i]` is its group's newest item, and the first of those equally new. */
  ghost predicate NewestAt(s: seq<Item>, i: int)
    requires 0 <= i < |s|
  {
    forall j :: 0 <= j < |s| && GroupKey(s[j]) == GroupKey(s[i]) ==>
      s[j].created < s[i].created || (s[j].created == s[i].created && i <= j)
  }

  ghost predicate Leads(s: seq<Item>, k: string, i: nat) {
    Group(s, k) != [] && i < |s| && GroupKey(s[i]) == k && s[i] == Newest(Group(s, k)) && NewestAt(s, i)
  }

  lemma {:induction false} LeaderIndex(s: seq<Item>, k: string) returns (i: nat)
    requires Group(s, k) != []
    ensures Leads(s, k, i)
  {
    var s', x := s[..|s| - 1], s[|s| - 1];
    if Group(s', k) == [] {
      i := |s| - 1;
      FirstLeads(s, k);
    } else {
      i := LeaderIndex(s', k);
      if GroupKey(x) != k {
        OtherGroupFollows(s, k, i);
      } else {
        LeaderAgainst(s, k, i);
        if x.created > s'[i].created { i := |s| - 1; }
      }
    }
  }

  lemma FirstLeads(s: seq<Item>, k: string)
    requires |s| > 0 && Group(s[..|s| - 1], k) == [] && Group(s, k) != []
    ensures Leads(s, k, |s| - 1)
  {
    FilterMembers(s[..|s| - 1], InGroup(k));
    forall j | 0 <= j < |s| - 1 ensures GroupKey(s[j]) != k { assert s[j] in s[..|s| - 1]; }
  }

  lemma OtherGroupFollows(s: seq<Item>, k: string, i: nat)
    requires |s| > 0 && GroupKey(s[|s| - 1]) != k && Leads(s[..|s| - 1], k, i)
    ensures Leads(s, k, i)
  {
    assert forall j :: 0 <= j < |s| - 1 ==> s[..|s| - 1][j] == s[j];
  }

  /** A leader meets a later item of its group. */
  lemma LeaderAgainst(s: seq<Item>, k: string, i: nat)
    requires |s| > 0 && GroupKey(s[|s| - 1]) == k && Leads(s[..|s| - 1], k, i)
    ensures Leads(s, k, if s[|s| - 1].created > s[i].created then |s| - 1 else i)
  {
    var g, g', x := Group(s, k), Group(s[..|s| - 1], k), s[|s| - 1];
    assert g == g' + [x] && g[..|g| - 1] == g';
    assert forall j :: 0 <= j < |s| - 1 ==> s[..|s| - 1][j] == s[j];
  }

  lemma PicksAt(s: seq<Item>, ks: seq<string>, n: nat)
    requires forall k :: k in ks ==> Group(s, k) != []
    requires n < |ks|
    ensures Picks(s, ks)[n] == Newest(Group(s, ks[n]))
  {
    if n < |ks| - 1 { PicksAt(s, ks[..|ks| - 1], n); }
  }

  lemma {:induction false} KeysAreDistinct(s: seq<Item>)
    ensures forall i, j :: 0 <= i < j < |Keys(s)| ==> Keys(s)[i] != Keys(s)[j]
  {
    if |s| == 0 {
    } else {
      KeysAreDistinct(s[..|s| - 1]);
    }
  }

  lemma RowsAt(s: seq<Item>, n: nat)
    requires n < |Keys(s)|
    ensures |Rows(s)| == |Keys(s)| && Group(s, Keys(s)[n]) != []
    ensures Rows(s)[n] == Newest(Group(s, Keys(s)[n])) && GroupKey(Rows(s)[n]) == Keys(s)[n]
  {
    KeysAreGroups(s);
    PicksAt(s, Keys(s), n);
    var i := LeaderIndex(s, Keys(s)[n]);
  }

  lemma RowsAreDistinct(s: seq<Item>)
    ensures Unique(Rows(s), GroupKey)
  {
    KeysAreDistinct(s);
    var r := Rows(s);
    forall i, j | 0 <= i < j < |r| ensures GroupKey(r[i]) != GroupKey(r[j]) {
      RowsAt(s, i);
      RowsAt(s, j);
    }
  }

  /** The rows are exactly the leaders of the groups. */
  lemma RowsAreLeaders(s: seq<Item>, x: Item)
    ensures x in Rows(s) <==> exists i :: 0 <= i < |s| && s[i] == x && NewestAt(s, i)
  {
    KeysAreGroups(s);
    if x in Rows(s) {
      var n :| 0 <= n < |Rows(s)| && Rows(s)[n] == x;
      RowsAt(s, n);
      var i := LeaderIndex(s, Keys(s)[n]);
      assert s[i] == x && NewestAt(s, i);
    }
    if i :| 0 <= i < |s| && s[i] == x && NewestAt(s, i) {
      var k := GroupKey(x);
      FilterMembers(s, InGroup(k));
      assert s[i] in Group(s, k);
      var l := LeaderIndex(s, k);
      assert l == i;
      var n :| 0 <= n < |Keys(s)| && Keys(s)[n] == k;
      RowsAt(s, n);
    }
  }

  /** The view holds one row for each group with an unarchived item: the newest unarchived item,
      the first listed of those equally new.  Rows come newest first. */
  lemma ViewIsGroupLeaders(items: seq<Item>)
    ensures forall x :: x in View(items) <==>
              exists i :: 0 <= i < |Active(items)| && Active(items)[i] == x && NewestAt(Active(items), i)
    ensures Unique(View(items), GroupKey)
    ensures forall i, j :: 0 <= i < j < |View(items)| ==> View(items)[i].created >= View(items)[j].created
  {
    var s := Active(items);
    SortMembers(Rows(s), NewestFirst);
    forall x ensures x in View(items) <==> exists i :: 0 <= i < |s| && s[i] == x && NewestAt(s, i) {
      RowsAreLeaders(s, x);
    }
    RowsAreDistinct(s);
    SortUnique(Rows(s), NewestFirst, GroupKey);
    SortSorted(Rows(s), NewestFirst);
    assert forall i, j :: 0 <= i < j < |View(items)| ==> NewestFirst(View(items)[i]) <= NewestFirst(View(items)[j]);
  }

  /** No unarchived item is lost: its group has a row at least as new. */
  lemma EveryGroupHasARow(items: seq<Item>, y: Item)
    requires y in items && !y.archived
    ensures exists x :: x in View(items) && GroupKey(x) == GroupKey(y) && x.created >= y.created
  {
    var s := Active(items);
    FilterMembers(items, IsActive);
    FilterMembers(s, InGroup(GroupKey(y)));
    assert y in Group(s, GroupKey(y));
    var i := LeaderIndex(s, GroupKey(y));
    var j :| 0 <= j < |s| && s[j] == y;
    ViewIsGroupLeaders(items);
    assert s[i] in View(items);
  }

  /** Rows are unarchived items; items of one issue share a row. */
  lemma OneRowPerIssue(items: seq<Item>, x: Item, y: Item)
    requires x in View(items) && y in View(items)
    ensures x in items && !x.archived
    ensures x.issue.Some? && x.issue == y.issue ==> x == y
  {
    ViewIsGroupLeaders(items);
    FilterMembers(items, IsActive);
    if GroupKey(x) == GroupKey(y) { UniqueMember(View(items), x, y, GroupKey); }
  }

  /** An unarchived item without an issue has a row of its own. */
  lemma LooseItemsHaveRows(items: seq<Item>, x: Item)
    requires Unique(items, ItemId) && IdsAreNotIssues(items) && x in items && !x.archived && x.issue.None?
    ensures x in View(items)
  {
    EveryGroupHasARow(items, x);
    var y :| y in View(items) && GroupKey(y) == GroupKey(x);
    OneRowPerIssue(items, y, y);
    assert y.issue != Some(x.id);
    UniqueMember(items, x, y, ItemId);
  }

  lemma SingletonGroup(s: seq<Item>, n: nat)
    requires n < |s| && Unique(s, GroupKey)
    ensures Group(s, GroupKey(s[n])) == [s[n]]
  {
    var p := InGroup(GroupKey(s[n]));
    var a, b := s[..n], s[n + 1..];
    assert s == (a + [s[n]]) + b;
    FilterAppend(a + [s[n]], b, p);
    FilterSnoc(a, s[n], p);
    FilterNone(a, p);
    FilterNone(b, p);
  }

  lemma {:induction false} DistinctKeys(s: seq<Item>)
    requires Unique(s, GroupKey)
    ensures |Keys(s)| == |s| && forall n :: 0 <= n < |s| ==> Keys(s)[n] == GroupKey(s[n])
  {
    if |s| == 0 {
    } else {
      DistinctKeys(s[..|s| - 1]);
    }
  }

  /** Deduplicating twice changes nothing. */
  lemma ViewIsIdempotent(items: seq<Item>)
    ensures View(View(items)) == View(items)
  {
    var v := View(items);
    ViewIsGroupLeaders(items);
    FilterMembers(items, IsActive);
    FilterAll(v, IsActive);
    DistinctKeys(v);
    var r := Rows(v);
    forall n | 0 <= n < |v| ensures |r| == |v| && r[n] == v[n] {
      RowsAt(v, n);
      SingletonGroup(v, n);
    }
    KeysAreGroups(v);
    assert |r| == |Keys(v)|;
    assert r == v;
    SortSorted(Rows(Active(items)), NewestFirst);
    SortedIsSorted(v, NewestFirst);
  }

  /* ---- Archiving ---- */

  function Find(items: seq<Item>, id: string): Option<Item> {
    if |items| == 0 then None else if items[0].id == id then Some(items[0]) else Find(items[1..], id)
  }

  /** Whether archiving `id` reaches `i`: the item itself, or another of the same issue. */
  predicate Reaches(target: Option<Item>, id: string, i: Item) {
    i.id == id || (target.Some? && target.value.issue.Some? && target.value.issue.value != "" && i.issue == target.value.issue)
  }

  function ArchiveReached(items: seq<Item>, target: Option<Item>, id: string): (r: seq<Item>)
    ensures |r| == |items|
    ensures forall n :: 0 <= n < |items| ==>
              r[n] == if Reaches(target, id, items[n]) then items[n].(archived := true) else items[n]
  {
    seq(|items|, n requires 0 <= n < |items| =>
      if Reaches(target, id, items[n]) then items[n].(archived := true) else items[n])
  }

  function Archive(items: seq<Item>, id: string): seq<Item> { ArchiveReached(items, Find(items, id), id) }

  /** The cached list, as the archive mutation writes it. */
  class InboxCache {
    var data: Option<seq<Item>>
    var stale: bool

    method MutateArchive(id: string) returns (prev: Option<seq<Item>>)
      modifies this
      ensures prev == old(data)
      ensures data == if prev.Some? then Some(Archive(prev.value, id)) else None
      ensures stale == (prev.None? && old(stale))
    {
      prev := data;
      if data.Some? {
        var items := data.value;
        var target := None;
        for n := 0 to |items|
          invariant target == None && Find(items, id) == Find(items[n..], id)
        {
          if items[n].id == id { target := Some(items[n]); break; }
        }
        assert target == Find(items, id);
        data, stale := Some(ArchiveReached(items, target, id)), false;
      }
    }

    method OnArchiveError(prev: Option<seq<Item>>)
      modifies this
      ensures data == if prev.Some? then prev else old(data)
      ensures stale == (prev.None? && old(stale))
    {
      if prev.Some? { data, stale := prev, false; }
    }

    method OnArchiveSettled()
      modifies this
      ensures data == old(data) && stale == (old(stale) || data.Some?)
    {
      stale := stale || data.Some?;
    }

    /** A failed archive leaves the cached list as it was, and stale if there is one. */
    method FailedArchive(id: string)
      modifies this
      ensures data == old(data)
      ensures data.Some? ==> stale
    {
      var prev := MutateArchive(id);
      OnArchiveError(prev);
      OnArchiveSettled();
    }
  }

  ghost predicate IdsAreNotIssues(items: seq<Item>) {
    forall x, y :: x in items && y in items ==> y.issue != Some(x.id)
  }

  lemma {:induction false} FindFinds(items: seq<Item>, id: string)
    ensures Find(items, id).Some? ==> Find(items, id).value in items && Find(items, id).value.id == id
    ensures Find(items, id).None? ==> forall x :: x in items ==> x.id != id
  {
    if |items| == 0 {
    } else {
      FindFinds(items[1..], id);
      assert items == [items[0]] + items[1..];
    }
  }

  /** The unarchived items after archiving: those that were unarchived and not reached. */
  lemma {:induction false} ActiveAfterArchive(items: seq<Item>, target: Option<Item>, id: string, k: string)
    requires forall x :: x in items && !x.archived ==> (Reaches(target, id, x) <==> GroupKey(x) == k)
    ensures Active(ArchiveReached(items, target, id)) == Filter(Active(items), NotInGroup(k))
  {
    if |items| == 0 {
    } else {
      var front, x := items[..|items| - 1], items[|items| - 1];
      var after := ArchiveReached(items, target, id);
      ActiveAfterArchive(front, target, id, k);
      assert after[..|items| - 1] == ArchiveReached(front, target, id);
      assert x in items;
      if !x.archived { FilterSnoc(Active(front), x, NotInGroup(k)); }
    }
  }

  lemma {:induction false} KeysWithout(s: seq<Item>, k: string)
    ensures Keys(Filter(s, NotInGroup(k))) == Filter(Keys(s), KeyOtherThan(k))
  {
    if |s| == 0 {
    } else {
      var s', x := s[..|s| - 1], s[|s| - 1];
      KeysWithout(s', k);
      FilterMembers(Keys(s'), KeyOtherThan(k));
      FilterSnoc(Keys(s'), GroupKey(x), KeyOtherThan(k));
      var f := Filter(s', NotInGroup(k));
      assert (f + [x])[..|f|] == f;
    }
  }

  lemma {:induction false} GroupWithout(s: seq<Item>, k: string, j: string)
    requires j != k
    ensures Group(Filter(s, NotInGroup(k)), j) == Group(s, j)
  {
    if |s| == 0 {
    } else {
      var s', x := s[..|s| - 1], s[|s| - 1];
      GroupWithout(s', k, j);
      FilterSnoc(Filter(s', NotInGroup(k)), x, InGroup(j));
    }
  }

  lemma NewestInGroup(s: seq<Item>, k: string)
    requires Group(s, k) != []
    ensures GroupKey(Newest(Group(s, k))) == k
  {
    var i := LeaderIndex(s, k);
  }

  lemma {:induction false} PicksWithout(s: seq<Item>, ks: seq<string>, k: string)
    requires forall j :: j in ks ==> Group(s, j) != []
    ensures forall j :: j in Filter(ks, KeyOtherThan(k)) ==> Group(Filter(s, NotInGroup(k)), j) != []
    ensures Picks(Filter(s, NotInGroup(k)), Filter(ks, KeyOtherThan(k))) == Filter(Picks(s, ks), NotInGroup(k))
  {
    if |ks| == 0 {
    } else {
      var ks', j := ks[..|ks| - 1], ks[|ks| - 1];
      assert j in ks;
      PicksWithout(s, ks', k);
      NewestInGroup(s, j);
      FilterSnoc(Picks(s, ks'), Newest(Group(s, j)), NotInGroup(k));
      if j != k {
        GroupWithout(s, k, j);
        var f := Filter(ks', KeyOtherThan(k));
        assert (f + [j])[..|f|] == f;
      }
    }
  }

  /** Taking a whole group away from the items takes its row away from the view. */
  lemma ViewWithoutGroup(items: seq<Item>, after: seq<Item>, k: string)
    requires Active(after) == Filter(Active(items), NotInGroup(k))
    ensures View(after) == Filter(View(items), NotInGroup(k))
  {
    var s := Active(items);
    KeysAreGroups(s);
    KeysWithout(s, k);
    PicksWithout(s, Keys(s), k);
    FilterSort(Rows(s), NotInGroup(k), NewestFirst);
  }

  /** What archiving reaches is the target's group, except that items with an empty issue id are
      one group in the view and are archived one at a time. */
  lemma ReachedIsGroup(items: seq<Item>, id: string, x: Item)
    requires Unique(items, ItemId) && IdsAreNotIssues(items) && x in items
    requires Find(items, id).Some?
    ensures var target := Find(items, id);
            Reaches(target, id, x) <==>
              GroupKey(x) == GroupKey(target.value) && (target.value.issue == Some("") ==> x.id == id)
  {
    var t := Find(items, id).value;
    FindFinds(items, id);
    if x.id == id { UniqueMember(items, x, t, ItemId); }
    assert x.issue != Some(t.id) && t.issue != Some(x.id);
  }

  /** Archiving an item removes exactly its group's row from the view and leaves the other rows
      as they are, if and only if no other unarchived item shares an empty issue id with it. */
  lemma ArchiveRemovesGroupIff(items: seq<Item>, id: string)
    requires Unique(items, ItemId) && IdsAreNotIssues(items) && Find(items, id).Some?
    ensures View(Archive(items, id)) == Filter(View(items), NotInGroup(GroupKey(Find(items, id).value)))
            <==> (Find(items, id).value.issue == Some("") ==>
                   forall x :: x in items && !x.archived && x.issue == Some("") ==> x.id == id)
  {
    var target := Find(items, id);
    var k := GroupKey(target.value);
    var after := Archive(items, id);
    forall x | x in items ensures Reaches(target, id, x) <==> GroupKey(x) == k && (target.value.issue == Some("") ==> x.id == id) {
      ReachedIsGroup(items, id, x);
    }
    if target.value.issue == Some("") && exists x :: x in items && !x.archived && x.issue == Some("") && x.id != id {
      var x :| x in items && !x.archived && x.issue == Some("") && x.id != id;
      var n :| 0 <= n < |items| && items[n] == x;
      assert after[n] == x;
      EveryGroupHasARow(after, x);
      FilterMembers(View(items), NotInGroup(k));
    } else {
      forall x | x in items && !x.archived ensures Reaches(target, id, x) <==> GroupKey(x) == k {
        GroupOfEmptyIssue(items, id, x);
      }
      ActiveAfterArchive(items, target, id, k);
      ViewWithoutGroup(items, after, k);
    }
  }

  lemma GroupOfEmptyIssue(items: seq<Item>, id: string, x: Item)
    requires Unique(items, ItemId) && IdsAreNotIssues(items) && x in items && Find(items, id).Some?
    requires Find(items, id).value.issue == Some("") && x.issue == Some("") ==> x.id == id
    ensures Reaches(Find(items, id), id, x) <==> GroupKey(x) == GroupKey(Find(items, id).value)
  {
    ReachedIsGroup(items, id, x);
    FindFinds(items, id);
    assert Find(items, id).value.issue != Some(x.id);
  }

  /** Archiving sets one flag and nothing else: on the item itself and, when it has an issue id that is
      not empty, on every item of that issue. */
  lemma ArchiveMarksOnly(items: seq<Item>, id: string, n: nat)
    requires n < |items|
    ensures |Archive(items, id)| == |items|
    ensures var now, before, target := Archive(items, id)[n], items[n], Find(items, id);
            && now.id == before.id && now.issue == before.issue && now.read == before.read
            && now.created == before.created && now.title == before.title
            && (now.archived <==>
                  || before.archived || before.id == id
                  || (target.Some? && target.value.issue.Some? && target.value.issue != Some("") && before.issue == target.value.issue))
  {
    assert Archive(items, id)[n] == if Reaches(Find(items, id), id, items[n]) then items[n].(archived := true) else items[n];
  }

  /** Archiving an unknown id changes nothing. */
  lemma ArchiveUnknown(items: seq<Item>, id: string)
    requires Find(items, id).None?
    ensures Archive(items, id) == items
  {
    FindFinds(items, id);
    forall n | 0 <= n < |items| ensures Archive(items, id)[n] == items[n] { assert items[n] in items; }
  }

  /* ---- The unread badge ---- */

  function Unread(view: seq<Item>): nat { |Filter(view, IsUnread)| }

  /** Taking a group's row away lowers the badge by one exactly when that row is unread. */
  lemma {:induction false} UnreadWithoutGroup(view: seq<Item>, k: string)
    requires Unique(view, GroupKey)
    ensures Unread(view) == Unread(Filter(view, NotInGroup(k)))
                            + if exists x :: x in view && GroupKey(x) == k && !x.read then 1 else 0
  {
    if |view| == 0 {
    } else {
      var front, x := view[..|view| - 1], view[|view| - 1];
      UnreadWithoutGroup(front, k);
      assert view == front + [x];
      FilterSnoc(Filter(front, NotInGroup(k)), x, IsUnread);
    }
  }

  /** Archiving a group lowers the unread count by one if its row is unread, otherwise by none. */
  lemma {:induction false} ArchiveCountsOnce(items: seq<Item>, id: string)
    requires Unique(items, ItemId) && IdsAreNotIssues(items) && Find(items, id).Some?
    requires Find(items, id).value.issue != Some("")
    ensures Unread(View(items)) == Unread(View(Archive(items, id)))
              + if exists x :: x in View(items) && GroupKey(x) == GroupKey(Find(items, id).value) && !x.read then 1 else 0
  {
    ArchiveRemovesGroupIff(items, id);
    ViewIsGroupLeaders(items);
    UnreadWithoutGroup(View(items), GroupKey(Find(items, id).value));
  }
}
