/** The client's issue list: one bucket per status, each a loaded part of what the
    server holds, with the server's own total.  `Cancelled` is not a listed column. */
module IssueCache {
  import opened Options
  import opened Sequences
  import opened UniqueKeys

  /** A server-issued UUID; never empty, hence always truthy. */
  datatype IssueId = IssueId(uuid: string)

  datatype Status = Backlog | Todo | InProgress | InReview | Done | Blocked | Cancelled

  /** `fields` holds every attribute the caches only copy: title, labels, assignee and so on. */
  datatype Issue = Issue(id: IssueId, status: Status, parent: Option<IssueId>, fields: map<string, string>)

  /** `Partial<Issue>`: only the attributes that are present.  A patch never changes the id. */
  datatype Patch = Patch(status: Option<Status>, parent: Option<Option<IssueId>>, fields: map<string, string>)

  datatype Bucket = Bucket(issues: seq<Issue>, total: int)

  type ListCache = map<Status, Bucket>

  const PAGINATED: seq<Status> := [Backlog, Todo, InProgress, InReview, Done, Blocked]

  predicate Listed(s: Status) { s != Cancelled }

  function Merge(i: Issue, p: Patch): Issue {
    Issue(i.id, if p.status.Some? then p.status.value else i.status,
          if p.parent.Some? then p.parent.value else i.parent, i.fields + p.fields)
  }

  /* ---- The helpers ---- */

  function GetBucket(c: ListCache, s: Status): Bucket {
    if s in c then c[s] else Bucket([], 0)
  }

  function SetBucket(c: ListCache, s: Status, b: Bucket): ListCache { c[s := b] }

  predicate Has(issues: seq<Issue>, id: IssueId) {
    exists i :: i in issues && i.id == id
  }

  function Find(issues: seq<Issue>, id: IssueId): Option<Issue> {
    if |issues| == 0 then None
    else if issues[0].id == id then Some(issues[0])
    else Find(issues[1..], id)
  }

  datatype Location = Location(status: Status, issue: Issue)

  function FindFrom(c: ListCache, id: IssueId, n: nat): Option<Location>
    requires n <= |PAGINATED|
    decreases |PAGINATED| - n
  {
    if n == |PAGINATED| then None
    else
      match Find(GetBucket(c, PAGINATED[n]).issues, id)
      case Some(i) => Some(Location(PAGINATED[n], i))
      case None => FindFrom(c, id, n + 1)
  }

  function FindIssueLocation(c: ListCache, id: IssueId): Option<Location> { FindFrom(c, id, 0) }

  function IdIsNot(id: IssueId): Issue -> bool {
    (i: Issue) => i.id != id
  }

  function Without(issues: seq<Issue>, id: IssueId): seq<Issue> { Filter(issues, IdIsNot(id)) }

  function Replace(issues: seq<Issue>, id: IssueId, merged: Issue): seq<Issue> {
    seq(|issues|, k requires 0 <= k < |issues| => if issues[k].id == id then merged else issues[k])
  }

  function Max0(n: int): int { if n < 0 then 0 else n }

  function AddIssue(c: ListCache, i: Issue): ListCache {
    var b := GetBucket(c, i.status);
    if Has(b.issues, i.id) then c
    else SetBucket(c, i.status, Bucket(b.issues + [i], b.total + 1))
  }

  function RemoveIssue(c: ListCache, id: IssueId): ListCache {
    match FindIssueLocation(c, id)
    case None => c
    case Some(l) =>
      var b := GetBucket(c, l.status);
      SetBucket(c, l.status, Bucket(Without(b.issues, id), Max0(b.total - 1)))
  }

  /** Merges the patch into the issue found at `l`; a new status moves it and adjusts both totals. */
  function PatchAt(c: ListCache, l: Location, id: IssueId, p: Patch): ListCache {
    var merged := Merge(l.issue, p);
    var nextStatus := if p.status.Some? then p.status.value else l.status;
    var from := GetBucket(c, l.status);
    if nextStatus == l.status then
      SetBucket(c, l.status, from.(issues := Replace(from.issues, id, merged)))
    else
      var to := GetBucket(c, nextStatus);
      var next := SetBucket(c, l.status, Bucket(Without(from.issues, id), Max0(from.total - 1)));
      SetBucket(next, nextStatus, Bucket(to.issues + [merged], to.total + 1))
  }

  function PatchIssue(c: ListCache, id: IssueId, p: Patch): ListCache {
    match FindIssueLocation(c, id)
    case None => c
    case Some(l) => PatchAt(c, l, id, p)
  }

  /* ---- The invariant ---- */

  function Issues(c: ListCache, s: Status): seq<Issue> { GetBucket(c, s).issues }

  function IdOf(i: Issue): IssueId { i.id }

  /** Within a bucket ids are unique and every issue has the bucket's status. */
  ghost predicate BucketOk(s: Status, issues: seq<Issue>) {
    Unique(issues, IdOf) && forall i :: i in issues ==> i.status == s
  }

  ghost predicate Apart(c: ListCache, s: Status, t: Status) {
    forall id :: Has(Issues(c, s), id) ==> !Has(Issues(c, t), id)
  }

  /** Every listed bucket is in order and no issue is in two of them. */
  ghost predicate Inv(c: ListCache) {
    && (forall s :: Listed(s) ==> BucketOk(s, Issues(c, s)))
    && (forall s, t :: Listed(s) && Listed(t) && s != t ==> Apart(c, s, t))
  }

  /* ---- Members of changed buckets ---- */

  lemma {:induction false} WithoutIsUnique(issues: seq<Issue>, id: IssueId)
    requires Unique(issues, IdOf)
    ensures Unique(Without(issues, id), IdOf)
    ensures |Without(issues, id)| == if Has(issues, id) then |issues| - 1 else |issues|
  {
    if |issues| == 0 {
    } else {
      var front, last := issues[..|issues| - 1], issues[|issues| - 1];
      assert issues == front + [last];
      UniqueSnoc(front, last, IdOf);
      WithoutIsUnique(front, id);
      FilterMembers(front, IdIsNot(id));
      UniqueSnoc(Without(front, id), last, IdOf);
      assert Has(issues, id) <==> Has(front, id) || last.id == id;
    }
  }

  lemma WithoutMembers(issues: seq<Issue>, id: IssueId)
    ensures forall i :: i in Without(issues, id) <==> i in issues && i.id != id
  {
    FilterMembers(issues, IdIsNot(id));
  }

  lemma ReplaceMembers(issues: seq<Issue>, id: IssueId, merged: Issue)
    requires merged.id == id && Has(issues, id)
    ensures forall i :: i in Replace(issues, id, merged) <==> i == merged || (i in issues && i.id != id)
    ensures Unique(issues, IdOf) ==> Unique(Replace(issues, id, merged), IdOf)
  {
    var r := Replace(issues, id, merged);
    forall i | i in issues && i.id != id ensures i in r {
      var k :| 0 <= k < |issues| && issues[k] == i;
      assert r[k] == i;
    }
    var x :| x in issues && x.id == id;
    var k :| 0 <= k < |issues| && issues[k] == x;
    assert r[k] == merged;
    if Unique(issues, IdOf) {
      forall a, b | 0 <= a < b < |r| ensures r[a].id != r[b].id {
        assert r[a].id == issues[a].id && r[b].id == issues[b].id;
      }
    }
  }

  /* ---- What the lookup finds ---- */

  lemma {:induction false} FindMember(issues: seq<Issue>, id: IssueId)
    ensures Find(issues, id).Some? <==> Has(issues, id)
    ensures Find(issues, id).Some? ==> Find(issues, id).value in issues && Find(issues, id).value.id == id
  {
    if |issues| != 0 && issues[0].id != id {
      FindMember(issues[1..], id);
      assert issues == [issues[0]] + issues[1..];
    }
  }

  ghost predicate FoundAt(c: ListCache, id: IssueId, l: Location) {
    Listed(l.status) && l.issue in Issues(c, l.status) && l.issue.id == id
  }

  lemma {:induction false} FindFromFinds(c: ListCache, id: IssueId, n: nat)
    requires n <= |PAGINATED|
    ensures FindFrom(c, id, n).Some? ==> FoundAt(c, id, FindFrom(c, id, n).value)
    ensures FindFrom(c, id, n).None? ==> forall k :: n <= k < |PAGINATED| ==> !Has(Issues(c, PAGINATED[k]), id)
    decreases |PAGINATED| - n
  {
    if n < |PAGINATED| {
      FindMember(Issues(c, PAGINATED[n]), id);
      FindFromFinds(c, id, n + 1);
    }
  }

  lemma ListedIsPaginated(s: Status)
    requires Listed(s)
    ensures exists k :: 0 <= k < |PAGINATED| && PAGINATED[k] == s
  {
    match s
    case Backlog => assert PAGINATED[0] == s;
    case Todo => assert PAGINATED[1] == s;
    case InProgress => assert PAGINATED[2] == s;
    case InReview => assert PAGINATED[3] == s;
    case Done => assert PAGINATED[4] == s;
    case Blocked => assert PAGINATED[5] == s;
  }

  /** The lookup finds an issue exactly when some listed bucket holds its id. */
  lemma LookupFinds(c: ListCache, id: IssueId)
    ensures FindIssueLocation(c, id).Some? ==> FoundAt(c, id, FindIssueLocation(c, id).value)
    ensures FindIssueLocation(c, id).None? ==> forall s :: Listed(s) ==> !Has(Issues(c, s), id)
  {
    FindFromFinds(c, id, 0);
    if FindIssueLocation(c, id).None? {
      forall s | Listed(s) ensures !Has(Issues(c, s), id) { ListedIsPaginated(s); }
    }
  }

  /** Under the invariant the location of an issue is unique. */
  lemma LookupIsUnique(c: ListCache, l: Location)
    requires Inv(c) && FoundAt(c, l.issue.id, l)
    ensures FindIssueLocation(c, l.issue.id) == Some(l)
    ensures l.issue.status == l.status
  {
    var id := l.issue.id;
    LookupFinds(c, id);
    assert Has(Issues(c, l.status), id);
    var m := FindIssueLocation(c, id).value;
    assert Has(Issues(c, m.status), id);
    assert m.status != l.status ==> Apart(c, m.status, l.status);
    assert BucketOk(l.status, Issues(c, l.status));
    UniqueMember(Issues(c, l.status), m.issue, l.issue, IdOf);
  }

  /* ---- The flat view ---- */

  function IdsIn(issues: seq<Issue>): set<IssueId> {
    set i | i in issues :: i.id
  }

  function VisibleIds(c: ListCache): set<IssueId> {
    IdsIn(Issues(c, Backlog)) + IdsIn(Issues(c, Todo)) + IdsIn(Issues(c, InProgress))
      + IdsIn(Issues(c, InReview)) + IdsIn(Issues(c, Done)) + IdsIn(Issues(c, Blocked))
  }

  type FlatCache = map<IssueId, Issue>

  lemma VisibleIsFound(c: ListCache, id: IssueId)
    ensures id in VisibleIds(c) <==> FindIssueLocation(c, id).Some?
  {
    LookupFinds(c, id);
    assert forall s :: Has(Issues(c, s), id) <==> id in IdsIn(Issues(c, s));
    if FindIssueLocation(c, id).Some? {
      var l := FindIssueLocation(c, id).value;
      assert Has(Issues(c, l.status), id);
    }
  }

  lemma AllVisibleFound(c: ListCache)
    ensures forall id :: id in VisibleIds(c) <==> FindIssueLocation(c, id).Some?
  {
    forall id { VisibleIsFound(c, id); }
  }

  /** What the lists show, as one map from id to issue. */
  ghost function View(c: ListCache): FlatCache {
    AllVisibleFound(c);
    map id | id in VisibleIds(c) :: FindIssueLocation(c, id).value.issue
  }

  lemma ViewIs(c: ListCache, id: IssueId)
    ensures id in View(c) <==> FindIssueLocation(c, id).Some?
    ensures id in View(c) ==> View(c)[id] == FindIssueLocation(c, id).value.issue && View(c)[id].id == id
  {
    AllVisibleFound(c);
    LookupFinds(c, id);
  }

  /** Under the invariant an issue is visible exactly when the bucket of its status holds it. */
  lemma {:induction false} ViewMember(c: ListCache, i: Issue)
    requires Inv(c)
    ensures (i.id in View(c) && View(c)[i.id] == i) <==> Listed(i.status) && i in Issues(c, i.status)
  {
    ViewIs(c, i.id);
    LookupFinds(c, i.id);
    if i.id in View(c) && View(c)[i.id] == i {
      LookupIsUnique(c, FindIssueLocation(c, i.id).value);
    }
    if Listed(i.status) && i in Issues(c, i.status) {
      LookupIsUnique(c, Location(i.status, i));
    }
  }

  /** Two caches with the same members in every listed bucket have the same view. */
  lemma SameMembersSameView(c: ListCache, m: FlatCache)
    requires Inv(c)
    requires forall id :: id in m ==> m[id].id == id
    requires forall i: Issue :: (i.id in m && m[i.id] == i) <==> Listed(i.status) && i in Issues(c, i.status)
    ensures View(c) == m
  {
    forall id ensures id in View(c) <==> id in m
              ensures id in m ==> View(c)[id] == m[id]
    {
      ViewIs(c, id);
      if id in m { ViewMember(c, m[id]); }
      if id in View(c) { ViewMember(c, View(c)[id]); }
    }
  }
}
