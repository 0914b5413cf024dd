/** Loading the columns of the board: the first page of each, then more by offset. */
module IssuePages {
  import opened Options
  import opened Sequences
  import opened UniqueKeys
  import opened IssueCache
  import opened BucketRefinement

  const PAGE_SIZE: nat := 50

  datatype Response = Response(issues: seq<Issue>, total: int)

  /** The server's answer for one column; behind its end there is nothing. */
  function PageAt(server: seq<Issue>, offset: nat): Response {
    Response(if offset + PAGE_SIZE <= |server| then server[offset..offset + PAGE_SIZE]
             else if offset <= |server| then server[offset..]
             else [], |server|)
  }

  function NotLoaded(ids: set<IssueId>): Issue -> bool {
    (i: Issue) => i.id !in ids
  }

  /** The part of a page that is not in the column yet. */
  function NewOnes(prev: seq<Issue>, page: seq<Issue>): seq<Issue> {
    Filter(page, NotLoaded(IdsIn(prev)))
  }

  function WithPage(prev: Bucket, res: Response): Bucket {
    Bucket(prev.issues + NewOnes(prev.issues, res.issues), res.total)
  }

  /* ---- The board's cache ---- */

  method FetchFirstPages(server: map<Status, seq<Issue>>) returns (c: ListCache)
    requires forall s :: Listed(s) ==> s in server
    ensures FirstPages(c, server)
  {
    c := map[];
    for n := 0 to |PAGINATED|
      invariant forall s :: s in c <==> exists k :: 0 <= k < n && PAGINATED[k] == s
      invariant forall s :: s in c ==> c[s] == Bucket(PageAt(server[s], 0).issues, |server[s]|)
    {
      var res := PageAt(server[PAGINATED[n]], 0);
      c := c[PAGINATED[n] := Bucket(res.issues, res.total)];
    }
    forall s | Listed(s) ensures s in c { ListedIsPaginated(s); }
  }

  /** The hook behind the "load more" of one column. */
  class ColumnPager {
    var cache: Option<ListCache>
    var isLoading: bool

    /** Starts a request: the offset to ask for, unless a request runs or everything is loaded. */
    method Request(s: Status) returns (offset: Option<nat>)
      modifies this`isLoading
      ensures var loaded := if cache.Some? then |Issues(cache.value, s)| else 0;
              var total := if cache.Some? then GetBucket(cache.value, s).total else 0;
              offset == if !old(isLoading) && loaded < total then Some(loaded) else None
      ensures isLoading == (old(isLoading) || offset.Some?)
    {
      var b := if cache.Some? then GetBucket(cache.value, s) else Bucket([], 0);
      if isLoading || !(|b.issues| < b.total) { return None; }
      isLoading := true;
      return Some(|b.issues|);
    }

    /** Writes the page into whatever the cache holds by then. */
    method Receive(s: Status, res: Response)
      modifies this
      ensures !isLoading
      ensures cache == if old(cache).Some?
                       then Some(SetBucket(old(cache).value, s, WithPage(GetBucket(old(cache).value, s), res)))
                       else None
    {
      if cache.Some? {
        var prev := GetBucket(cache.value, s);
        var existingIds := IdsIn(prev.issues);
        var appended := Filter(res.issues, NotLoaded(existingIds));
        cache := Some(SetBucket(cache.value, s, Bucket(prev.issues + appended, res.total)));
      }
      isLoading := false;
    }

    /** The whole click against one server, when nothing happens in between. */
    method LoadMore(s: Status, server: seq<Issue>)
      requires !isLoading
      modifies this
      ensures !isLoading
      ensures cache.Some? == old(cache).Some?
      ensures cache.Some? ==> GetBucket(cache.value, s) == Click(server, GetBucket(old(cache).value, s))
      ensures cache.Some? ==> forall t :: t != s ==> GetBucket(cache.value, t) == GetBucket(old(cache).value, t)
    {
      var offset := Request(s);
      if offset.Some? {
        Receive(s, PageAt(server, offset.value));
      }
    }
  }

  /* ---- No duplicates, whatever happened since the request ---- */

  /** A page never adds an issue the column already has and never loses one, even if the
      column changed while the request ran. */
  lemma PageNeverDuplicates(prev: Bucket, res: Response)
    requires Unique(prev.issues, IdOf) && Unique(res.issues, IdOf)
    ensures Unique(WithPage(prev, res).issues, IdOf)
    ensures forall i :: i in WithPage(prev, res).issues <==> i in prev.issues || (i in res.issues && !Has(prev.issues, i.id))
    ensures prev.issues <= WithPage(prev, res).issues && WithPage(prev, res).total == res.total
  {
    FilterUnique(res.issues, NotLoaded(IdsIn(prev.issues)), IdOf);
    FilterMembers(res.issues, NotLoaded(IdsIn(prev.issues)));
    UniqueAppend(prev.issues, NewOnes(prev.issues, res.issues), IdOf);
    assert forall id :: id in IdsIn(prev.issues) <==> Has(prev.issues, id);
  }

  /** A page of a column keeps the board's invariant exactly when none of its new issues
      stands in another column, because only the own column is searched for duplicates. */
  lemma PageKeepsInvIff(c: ListCache, s: Status, res: Response)
    requires Inv(c) && Listed(s) && BucketOk(s, res.issues)
    ensures Inv(SetBucket(c, s, WithPage(GetBucket(c, s), res)))
       <==> forall t, i :: Listed(t) && t != s && i in NewOnes(Issues(c, s), res.issues) ==> !Has(Issues(c, t), i.id)
  {
    var c' := SetBucket(c, s, WithPage(GetBucket(c, s), res));
    assert BucketOk(s, Issues(c, s));
    PageNeverDuplicates(GetBucket(c, s), res);
    FilterMembers(res.issues, NotLoaded(IdsIn(Issues(c, s))));
    if forall t, i :: Listed(t) && t != s && i in NewOnes(Issues(c, s), res.issues) ==> !Has(Issues(c, t), i.id) {
      PageStaysApart(c, s, res);
    } else {
      var t, i :| Listed(t) && t != s && i in NewOnes(Issues(c, s), res.issues) && Has(Issues(c, t), i.id);
      assert i in Issues(c', s) && Has(Issues(c', s), i.id);
      assert !Apart(c', s, t);
    }
  }

  lemma PageStaysApart(c: ListCache, s: Status, res: Response)
    requires Inv(c) && Listed(s) && BucketOk(s, res.issues)
    requires forall t, i :: Listed(t) && t != s && i in NewOnes(Issues(c, s), res.issues) ==> !Has(Issues(c, t), i.id)
    ensures Inv(SetBucket(c, s, WithPage(GetBucket(c, s), res)))
  {
    var c' := SetBucket(c, s, WithPage(GetBucket(c, s), res));
    assert BucketOk(s, Issues(c, s));
    PageNeverDuplicates(GetBucket(c, s), res);
    forall t | Listed(t) ensures BucketOk(t, Issues(c', t)) { assert BucketOk(t, Issues(c, t)); }
    forall t | Listed(t) && t != s ensures Apart(c', s, t) && Apart(c', t, s) {
      assert Apart(c, s, t);
    }
    forall t, u | Listed(t) && Listed(u) && t != u ensures Apart(c', t, u) { assert Apart(c, t, u); }
  }

  /* ---- Loading everything from an unchanging server ---- */

  /** One click on "load more": nothing happens once the column is complete. */
  function Click(server: seq<Issue>, b: Bucket): Bucket {
    if |b.issues| < b.total then WithPage(b, PageAt(server, |b.issues|)) else b
  }

  function AfterClicks(server: seq<Issue>, clicks: nat): Bucket {
    if clicks == 0 then Bucket(PageAt(server, 0).issues, PageAt(server, 0).total)
    else Click(server, AfterClicks(server, clicks - 1))
  }

  /** The columns as first fetched. */
  ghost predicate FirstPages(c: ListCache, server: map<Status, seq<Issue>>) {
    && (forall s :: Listed(s) ==> s in server)
    && (forall s :: s in c <==> Listed(s))
    && (forall s :: Listed(s) ==> c[s] == Bucket(PageAt(server[s], 0).issues, |server[s]|))
  }

  lemma FirstPageIsPrefix(server: seq<Issue>)
    ensures PageAt(server, 0).issues <= server
  {
  }

  lemma FirstPageIsOk(s: Status, server: seq<Issue>)
    requires BucketOk(s, server)
    ensures BucketOk(s, PageAt(server, 0).issues)
    ensures forall id :: Has(PageAt(server, 0).issues, id) ==> Has(server, id)
  {
    FirstPageIsPrefix(server);
    var page := PageAt(server, 0).issues;
    assert forall k :: 0 <= k < |page| ==> page[k] == server[k];
    forall i | i in page ensures i in server {
      var k :| 0 <= k < |page| && page[k] == i;
      assert server[k] == i;
    }
  }

  /** From well-formed columns that share no issue, the first pages form a board in order: ids are unique
      across columns, no total is below what is loaded, and every column is where its clicks start. */
  lemma FirstPagesAreInOrder(c: ListCache, server: map<Status, seq<Issue>>)
    requires FirstPages(c, server)
    requires forall s :: Listed(s) ==> BucketOk(s, server[s])
    requires forall s, t, id :: Listed(s) && Listed(t) && s != t && Has(server[s], id) ==> !Has(server[t], id)
    ensures Inv(c) && Counted(c)
    ensures forall s :: Listed(s) ==> GetBucket(c, s) == AfterClicks(server[s], 0)
  {
    forall s | Listed(s) ensures BucketOk(s, Issues(c, s)) && Hidden(c, s) >= 0 {
      FirstPageIsOk(s, server[s]);
      FirstPageIsPrefix(server[s]);
    }
    forall s, t | Listed(s) && Listed(t) && s != t ensures Apart(c, s, t) {
      FirstPageIsOk(s, server[s]);
      FirstPageIsOk(t, server[t]);
    }
    forall s ensures Hidden(c, s) >= 0 {}
  }

  function Min(a: int, b: int): int { if a <= b then a else b }

  lemma PageIsNew(server: seq<Issue>, loaded: nat)
    requires Unique(server, IdOf) && loaded <= |server|
    ensures NewOnes(server[..loaded], PageAt(server, loaded).issues) == PageAt(server, loaded).issues
  {
    var page := PageAt(server, loaded).issues;
    forall i | i in page ensures i.id !in IdsIn(server[..loaded]) {
      var k :| 0 <= k < |page| && page[k] == i;
      assert server[loaded + k] == i;
    }
    FilterAll(page, NotLoaded(IdsIn(server[..loaded])));
  }

  lemma PageExtendsPrefix(server: seq<Issue>, loaded: nat)
    requires Unique(server, IdOf) && loaded <= |server|
    ensures server[..loaded] + NewOnes(server[..loaded], PageAt(server, loaded).issues)
         == server[..Min(loaded + PAGE_SIZE, |server|)]
  {
    PageIsNew(server, loaded);
  }

  /** After any number of clicks the column is a prefix of the server's list, 50 longer with each. */
  lemma {:induction false} ClicksLoadPrefix(server: seq<Issue>, clicks: nat)
    requires Unique(server, IdOf)
    ensures AfterClicks(server, clicks) == Bucket(server[..Min(50 * (clicks + 1), |server|)], |server|)
  {
    if clicks == 0 {
      assert server[0..] == server[..|server|];
    } else {
      ClicksLoadPrefix(server, clicks - 1);
      PageExtendsPrefix(server, Min(PAGE_SIZE * clicks, |server|));
    }
  }

  /** The whole list is reached after ceil(n / 50) - 1 clicks and kept from then on; before, every
      click brings the column closer to it. */
  lemma ClicksLoadAll(server: seq<Issue>, clicks: nat)
    requires Unique(server, IdOf)
    ensures 50 * (clicks + 1) >= |server| <==> AfterClicks(server, clicks).issues == server
    ensures var b, b' := AfterClicks(server, clicks), AfterClicks(server, clicks + 1);
            |b.issues| < b.total ==> b'.total - |b'.issues| < b.total - |b.issues|
  {
    ClicksLoadPrefix(server, clicks);
    ClicksLoadPrefix(server, clicks + 1);
    assert server[..|server|] == server;
  }
}
