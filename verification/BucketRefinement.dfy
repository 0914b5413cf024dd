/** The bucketed issue list behaves as one flat map from id to issue, in which
    cancelling an issue deletes it; and no operation disturbs the number of
    issues a column has on the server but not in the client. */
module BucketRefinement {
  import opened Options
  import opened Sequences
  import opened UniqueKeys
  import opened IssueCache

  /* ---- The flat operations ---- */

  function FlatAdd(m: FlatCache, i: Issue): FlatCache {
    if i.status == Cancelled || i.id in m then m else m[i.id := i]
  }

  function FlatRemove(m: FlatCache, id: IssueId): FlatCache { m - {id} }

  function FlatPatch(m: FlatCache, id: IssueId, p: Patch): FlatCache {
    if id !in m then m
    else if Merge(m[id], p).status == Cancelled then m - {id}
    else m[id := Merge(m[id], p)]
  }

  /** An issue may be added unless another listed column already shows it. */
  ghost predicate MayAdd(c: ListCache, i: Issue) {
    forall s :: Listed(s) && s != i.status ==> !Has(Issues(c, s), i.id)
  }

  /* ---- One step ---- */

  /** What every operation does to the listed buckets: `gone` leaves wherever it
      was, and `added` stands in the bucket of its status. */
  ghost predicate Effect(c: ListCache, c': ListCache, gone: IssueId, added: Option<Issue>) {
    forall s :: Listed(s) ==> BucketEffect(s, Issues(c, s), Issues(c', s), gone, added)
  }

  ghost predicate BucketEffect(s: Status, issues: seq<Issue>, issues': seq<Issue>, gone: IssueId, added: Option<Issue>) {
    && Unique(issues', IdOf)
    && forall x :: x in issues' <==> (x in issues && x.id != gone) || (added == Some(x) && x.status == s)
  }

  function Apply(m: FlatCache, gone: IssueId, added: Option<Issue>): FlatCache {
    if added.Some? && Listed(added.value.status) then m[gone := added.value] else m - {gone}
  }

  lemma EffectKeepsInv(c: ListCache, c': ListCache, gone: IssueId, added: Option<Issue>)
    requires Inv(c) && Effect(c, c', gone, added) && (added.Some? ==> added.value.id == gone)
    ensures Inv(c')
  {
    forall s | Listed(s) ensures BucketOk(s, Issues(c', s)) { assert BucketOk(s, Issues(c, s)); }
    forall s, t, id | Listed(s) && Listed(t) && s != t && Has(Issues(c', s), id) ensures !Has(Issues(c', t), id) {
      assert Apart(c, s, t);
      if Has(Issues(c', t), id) {
        var x :| x in Issues(c', s) && x.id == id;
        var y :| y in Issues(c', t) && y.id == id;
        assert BucketEffect(s, Issues(c, s), Issues(c', s), gone, added);
        assert BucketEffect(t, Issues(c, t), Issues(c', t), gone, added);
        if id != gone { assert Has(Issues(c, s), id) && Has(Issues(c, t), id); }
        assert false;
      }
    }
    forall s, t | Listed(s) && Listed(t) && s != t ensures Apart(c', s, t) {}
  }

  lemma ApplyMember(m: FlatCache, gone: IssueId, added: Option<Issue>, x: Issue)
    requires added.Some? ==> added.value.id == gone
    ensures (x.id in Apply(m, gone, added) && Apply(m, gone, added)[x.id] == x)
       <==> (x.id in m && m[x.id] == x && x.id != gone) || (added == Some(x) && Listed(x.status))
  {
  }

  /** Where the changed columns hold an issue, read off the flat map. */
  lemma EffectOnMember(c: ListCache, c': ListCache, gone: IssueId, added: Option<Issue>, m: FlatCache, x: Issue)
    requires Inv(c) && Effect(c, c', gone, added) && (added.Some? ==> added.value.id == gone)
    requires m == Apply(View(c), gone, added)
    ensures (x.id in m && m[x.id] == x) <==> Listed(x.status) && x in Issues(c', x.status)
  {
    ViewMember(c, x);
    ApplyMember(View(c), gone, added, x);
    if Listed(x.status) {
      assert BucketEffect(x.status, Issues(c, x.status), Issues(c', x.status), gone, added);
    }
  }

  lemma EffectOnView(c: ListCache, c': ListCache, gone: IssueId, added: Option<Issue>)
    requires Inv(c) && Effect(c, c', gone, added) && (added.Some? ==> added.value.id == gone)
    ensures Inv(c') && View(c') == Apply(View(c), gone, added)
  {
    EffectKeepsInv(c, c', gone, added);
    var m := Apply(View(c), gone, added);
    forall id | id in m ensures m[id].id == id { ViewIs(c, id); }
    forall x: Issue ensures (x.id in m && m[x.id] == x) <==> Listed(x.status) && x in Issues(c', x.status) {
      EffectOnMember(c, c', gone, added, m, x);
    }
    SameMembersSameView(c', m);
  }

  lemma HiddenElsewhere(c: ListCache, id: IssueId)
    ensures id in View(c) <==> exists s :: Listed(s) && Has(Issues(c, s), id)
  {
    ViewIs(c, id);
    LookupFinds(c, id);
    if id in View(c) { assert Has(Issues(c, FindIssueLocation(c, id).value.status), id); }
  }

  lemma AddStep(c: ListCache, i: Issue)
    requires Inv(c) && (Listed(i.status) ==> MayAdd(c, i))
    ensures Inv(AddIssue(c, i))
    ensures View(AddIssue(c, i)) == FlatAdd(View(c), i)
  {
    HiddenElsewhere(c, i.id);
    if !Listed(i.status) {
      AddHidden(c, i);
    } else if !Has(Issues(c, i.status), i.id) {
      AddEffect(c, i);
      EffectOnView(c, AddIssue(c, i), i.id, Some(i));
    }
  }

  /** Adding an issue of the unlisted status changes nothing that is shown. */
  lemma AddHidden(c: ListCache, i: Issue)
    requires Inv(c) && !Listed(i.status)
    ensures Inv(AddIssue(c, i)) && View(AddIssue(c, i)) == View(c)
  {
    var c' := AddIssue(c, i);
    assert forall s :: Listed(s) ==> Issues(c', s) == Issues(c, s);
    forall s | Listed(s) ensures BucketOk(s, Issues(c', s)) { assert BucketOk(s, Issues(c, s)); }
    forall s, t | Listed(s) && Listed(t) && s != t ensures Apart(c', s, t) { assert Apart(c, s, t); }
    forall id | id in View(c) ensures View(c)[id].id == id { ViewIs(c, id); }
    forall x: Issue ensures (x.id in View(c) && View(c)[x.id] == x) <==> Listed(x.status) && x in Issues(c', x.status) {
      ViewMember(c, x);
    }
    SameMembersSameView(c', View(c));
  }

  lemma AddEffect(c: ListCache, i: Issue)
    requires Inv(c) && Listed(i.status) && MayAdd(c, i) && !Has(Issues(c, i.status), i.id)
    ensures Effect(c, AddIssue(c, i), i.id, Some(i))
  {
    UniqueSnoc(Issues(c, i.status), i, IdOf);
    forall s | Listed(s) ensures BucketEffect(s, Issues(c, s), Issues(AddIssue(c, i), s), i.id, Some(i)) {
      assert BucketOk(s, Issues(c, s));
      assert !Has(Issues(c, s), i.id);
    }
  }

  lemma {:induction false} RemoveStep(c: ListCache, id: IssueId)
    requires Inv(c)
    ensures Inv(RemoveIssue(c, id))
    ensures View(RemoveIssue(c, id)) == FlatRemove(View(c), id)
  {
    RemoveEffect(c, id);
    EffectOnView(c, RemoveIssue(c, id), id, None);
  }

  lemma RemoveEffect(c: ListCache, id: IssueId)
    requires Inv(c)
    ensures Effect(c, RemoveIssue(c, id), id, None)
  {
    LookupFinds(c, id);
    forall s | Listed(s) ensures BucketEffect(s, Issues(c, s), Issues(RemoveIssue(c, id), s), id, None) {
      assert BucketOk(s, Issues(c, s));
      match FindIssueLocation(c, id)
      case None => assert !Has(Issues(c, s), id);
      case Some(l) =>
        assert Has(Issues(c, l.status), id);
        assert s != l.status ==> Apart(c, l.status, s);
        WithoutMembers(Issues(c, s), id);
        WithoutIsUnique(Issues(c, s), id);
    }
  }

  lemma PatchedBucket(s: Status, issues: seq<Issue>, from: Status, id: IssueId, merged: Issue)
    requires BucketOk(s, issues) && merged.id == id && (Has(issues, id) <==> s == from)
    ensures BucketEffect(s, issues, PatchedIssues(s, issues, from, id, merged), id, Some(merged))
  {
    if s == from && merged.status == from {
      ReplaceMembers(issues, id, merged);
    } else if s == from {
      WithoutMembers(issues, id);
      WithoutIsUnique(issues, id);
    } else {
      UniqueSnoc(issues, merged, IdOf);
    }
  }

  /** What a patch that gives `merged` makes of the column `s`, when the issue stands in `from`. */
  function PatchedIssues(s: Status, issues: seq<Issue>, from: Status, id: IssueId, merged: Issue): seq<Issue> {
    if s == from && merged.status == s then Replace(issues, id, merged)
    else if s == from then Without(issues, id)
    else if s == merged.status then issues + [merged]
    else issues
  }

  /** A patched issue leaves its old place and appears merged in the bucket of its new status. */
  lemma PatchEffect(c: ListCache, id: IssueId, p: Patch)
    requires Inv(c) && FindIssueLocation(c, id).Some?
    ensures Effect(c, PatchIssue(c, id, p), id, Some(Merge(FindIssueLocation(c, id).value.issue, p)))
  {
    LookupFinds(c, id);
    var l := FindIssueLocation(c, id).value;
    LookupIsUnique(c, l);
    var merged := Merge(l.issue, p);
    forall s | Listed(s) ensures BucketEffect(s, Issues(c, s), Issues(PatchIssue(c, id, p), s), id, Some(merged)) {
      assert BucketOk(s, Issues(c, s)) && Has(Issues(c, l.status), id);
      if s != l.status { assert Apart(c, l.status, s); }
      PatchedBucket(s, Issues(c, s), l.status, id, merged);
      assert Issues(PatchIssue(c, id, p), s) == PatchedIssues(s, Issues(c, s), l.status, id, merged);
    }
  }

  lemma {:induction false} PatchStep(c: ListCache, id: IssueId, p: Patch)
    requires Inv(c)
    ensures Inv(PatchIssue(c, id, p))
    ensures View(PatchIssue(c, id, p)) == FlatPatch(View(c), id, p)
  {
    ViewIs(c, id);
    if FindIssueLocation(c, id).Some? {
      PatchEffect(c, id, p);
      EffectOnView(c, PatchIssue(c, id, p), id, Some(Merge(View(c)[id], p)));
    }
  }

  /** The guard of `AddIssue` looks at one bucket only: adding keeps the invariant
      exactly when no other listed bucket holds the id. */
  lemma AddKeepsInvIff(c: ListCache, i: Issue)
    requires Inv(c) && Listed(i.status) && !Has(Issues(c, i.status), i.id)
    ensures Inv(AddIssue(c, i)) <==> MayAdd(c, i)
  {
    if MayAdd(c, i) {
      AddStep(c, i);
    } else {
      var s :| Listed(s) && s != i.status && Has(Issues(c, s), i.id);
      assert i in Issues(AddIssue(c, i), i.status);
      assert Has(Issues(AddIssue(c, i), i.status), i.id);
      assert !Apart(AddIssue(c, i), i.status, s);
    }
  }

  /* ---- Every column, totals included ---- */

  lemma AddColumns(c: ListCache, i: Issue, s: Status)
    ensures GetBucket(AddIssue(c, i), s)
         == if s == i.status && !Has(Issues(c, s), i.id) then Bucket(Issues(c, s) + [i], GetBucket(c, s).total + 1)
            else GetBucket(c, s)
  {
  }

  lemma RemoveColumns(c: ListCache, id: IssueId, s: Status)
    ensures var l := FindIssueLocation(c, id);
            GetBucket(RemoveIssue(c, id), s)
            == if l.Some? && s == l.value.status
               then Bucket(Without(Issues(c, s), id), if GetBucket(c, s).total <= 0 then 0 else GetBucket(c, s).total - 1)
               else GetBucket(c, s)
  {
  }

  /** A patch in the same column replaces the issue in its place; a move takes it out of one column and
      puts it at the end of the other, listed or not, and counts it there. */
  lemma PatchColumns(c: ListCache, id: IssueId, p: Patch, s: Status)
    ensures var l := FindIssueLocation(c, id);
            if l.None? then PatchIssue(c, id, p) == c
            else
              var from, to := l.value.status, if p.status.Some? then p.status.value else l.value.status;
              var merged, b := Merge(l.value.issue, p), GetBucket(c, s);
              GetBucket(PatchIssue(c, id, p), s)
              == if s == from && s == to then Bucket(Replace(b.issues, id, merged), b.total)
                 else if s == from then Bucket(Without(b.issues, id), if b.total <= 0 then 0 else b.total - 1)
                 else if s == to then Bucket(b.issues + [merged], b.total + 1)
                 else b
  {
  }

  /* ---- Order within a column ---- */

  lemma {:induction false} ReplaceKeepsOthers(issues: seq<Issue>, id: IssueId, merged: Issue)
    requires merged.id == id
    ensures Without(Replace(issues, id, merged), id) == Without(issues, id)
  {
    if |issues| == 0 {
    } else {
      var front, last := issues[..|issues| - 1], issues[|issues| - 1];
      ReplaceKeepsOthers(front, id, merged);
      var r := Replace(issues, id, merged);
      assert r[..|r| - 1] == Replace(front, id, merged);
    }
  }

  lemma WithoutTwice(issues: seq<Issue>, id: IssueId)
    ensures Without(Without(issues, id), id) == Without(issues, id)
  {
    FilterMembers(issues, IdIsNot(id));
    FilterAll(Without(issues, id), IdIsNot(id));
  }

  /** In every column the issues an addition does not name keep their order; the new one comes last. */
  lemma AddKeepsOrder(c: ListCache, i: Issue, s: Status)
    ensures Without(Issues(AddIssue(c, i), s), i.id) == Without(Issues(c, s), i.id)
    ensures Issues(c, s) <= Issues(AddIssue(c, i), s)
  {
    FilterSnoc(Issues(c, i.status), i, IdIsNot(i.id));
  }

  lemma RemoveKeepsOrder(c: ListCache, id: IssueId, s: Status)
    ensures Without(Issues(RemoveIssue(c, id), s), id) == Without(Issues(c, s), id)
  {
    WithoutTwice(Issues(c, s), id);
  }

  /** A patched issue keeps its place in its column or enters another one at its end. */
  lemma PatchKeepsOrder(c: ListCache, id: IssueId, p: Patch, s: Status)
    ensures Without(Issues(PatchIssue(c, id, p), s), id) == Without(Issues(c, s), id)
    ensures !Has(Issues(c, s), id) ==> Issues(c, s) <= Issues(PatchIssue(c, id, p), s)
  {
    if FindIssueLocation(c, id).Some? {
      var merged := Merge(FindIssueLocation(c, id).value.issue, p);
      LookupFinds(c, id);
      PatchedColumn(c, id, p, s);
      WithoutTwice(Issues(c, s), id);
      ReplaceKeepsOthers(Issues(c, s), id, merged);
      FilterSnoc(Issues(c, s), merged, IdIsNot(id));
    }
  }

  lemma PatchedColumn(c: ListCache, id: IssueId, p: Patch, s: Status)
    requires FindIssueLocation(c, id).Some?
    ensures var l := FindIssueLocation(c, id).value;
            var merged := Merge(l.issue, p);
            var next := if p.status.Some? then p.status.value else l.status;
            Has(Issues(c, l.status), id) &&
            Issues(PatchIssue(c, id, p), s)
            == if s == l.status && next == s then Replace(Issues(c, s), id, merged)
               else if s == l.status then Without(Issues(c, s), id)
               else if s == next then Issues(c, s) + [merged]
               else Issues(c, s)
  {
    LookupFinds(c, id);
  }

  /* ---- Batches ---- */

  ghost function PatchAll(c: ListCache, ids: seq<IssueId>, p: Patch): ListCache {
    if |ids| == 0 then c else PatchIssue(PatchAll(c, ids[..|ids| - 1], p), ids[|ids| - 1], p)
  }

  ghost function RemoveAll(c: ListCache, ids: seq<IssueId>): ListCache {
    if |ids| == 0 then c else RemoveIssue(RemoveAll(c, ids[..|ids| - 1]), ids[|ids| - 1])
  }

  method BatchUpdate(c: ListCache, ids: seq<IssueId>, p: Patch) returns (next: ListCache)
    ensures next == PatchAll(c, ids, p)
  {
    next := c;
    assert ids[..0] == [];
    for k := 0 to |ids|
      invariant next == PatchAll(c, ids[..k], p)
    {
      assert ids[..k + 1][..k] == ids[..k];
      next := PatchIssue(next, ids[k], p);
    }
    assert ids[..|ids|] == ids;
  }

  method BatchDelete(c: ListCache, ids: seq<IssueId>) returns (next: ListCache)
    ensures next == RemoveAll(c, ids)
  {
    next := c;
    assert ids[..0] == [];
    for k := 0 to |ids|
      invariant next == RemoveAll(c, ids[..k])
    {
      assert ids[..k + 1][..k] == ids[..k];
      next := RemoveIssue(next, ids[k]);
    }
    assert ids[..|ids|] == ids;
  }

  function IdSet(ids: seq<IssueId>): set<IssueId> { set id | id in ids }

  /** Patching a whole set of issues at once. */
  function FlatPatchSet(m: FlatCache, ids: set<IssueId>, p: Patch): FlatCache {
    map id | id in m && (id in ids ==> Merge(m[id], p).status != Cancelled) ::
      if id in ids then Merge(m[id], p) else m[id]
  }

  lemma MergeTwice(i: Issue, p: Patch)
    ensures Merge(Merge(i, p), p) == Merge(i, p)
  {
    assert i.fields + p.fields + p.fields == i.fields + p.fields;
  }

  lemma {:induction false} PatchAllStep(c: ListCache, ids: seq<IssueId>, p: Patch)
    requires Inv(c)
    ensures Inv(PatchAll(c, ids, p))
    ensures View(PatchAll(c, ids, p)) == FlatPatchSet(View(c), IdSet(ids), p)
  {
    if |ids| == 0 {
      assert FlatPatchSet(View(c), {}, p) == View(c);
    } else {
      var front, id := ids[..|ids| - 1], ids[|ids| - 1];
      PatchAllStep(c, front, p);
      PatchStep(PatchAll(c, front, p), id, p);
      IdSetSnoc(ids);
      PatchOneMore(View(c), IdSet(front), id, p);
    }
  }

  lemma IdSetSnoc(ids: seq<IssueId>)
    requires |ids| > 0
    ensures IdSet(ids) == IdSet(ids[..|ids| - 1]) + {ids[|ids| - 1]}
  {
    assert ids == ids[..|ids| - 1] + [ids[|ids| - 1]];
  }

  lemma MinusOneMore(m: FlatCache, ids: set<IssueId>, id: IssueId)
    ensures (m - ids) - {id} == m - (ids + {id})
  {
  }

  lemma PatchOneMore(m: FlatCache, ids: set<IssueId>, id: IssueId, p: Patch)
    ensures FlatPatch(FlatPatchSet(m, ids, p), id, p) == FlatPatchSet(m, ids + {id}, p)
  {
    if id in m { MergeTwice(m[id], p); }
  }

  lemma {:induction false} RemoveAllStep(c: ListCache, ids: seq<IssueId>)
    requires Inv(c)
    ensures Inv(RemoveAll(c, ids))
    ensures View(RemoveAll(c, ids)) == View(c) - IdSet(ids)
  {
    if |ids| == 0 {
      assert View(c) - {} == View(c);
    } else {
      var front, id := ids[..|ids| - 1], ids[|ids| - 1];
      RemoveAllStep(c, front);
      RemoveStep(RemoveAll(c, front), id);
      IdSetSnoc(ids);
      MinusOneMore(View(c), IdSet(front), id);
    }
  }

  /** What a batch leaves visible depends only on which ids it names, not on their order or repetition. */
  lemma BatchOrderIsIrrelevant(c: ListCache, ids: seq<IssueId>, ids': seq<IssueId>, p: Patch)
    requires Inv(c) && IdSet(ids) == IdSet(ids')
    ensures View(PatchAll(c, ids, p)) == View(PatchAll(c, ids', p))
    ensures View(RemoveAll(c, ids)) == View(RemoveAll(c, ids'))
  {
    PatchAllStep(c, ids, p);
    PatchAllStep(c, ids', p);
    RemoveAllStep(c, ids);
    RemoveAllStep(c, ids');
  }

  /* ---- Whole runs ---- */

  datatype Op =
    | Add(issue: Issue)
    | Remove(id: IssueId)
    | PatchOne(id: IssueId, patch: Patch)
    | BatchPatch(ids: seq<IssueId>, patch: Patch)
    | BatchRemove(ids: seq<IssueId>)

  ghost function Step(c: ListCache, op: Op): ListCache {
    match op
    case Add(i) => AddIssue(c, i)
    case Remove(id) => RemoveIssue(c, id)
    case PatchOne(id, p) => PatchIssue(c, id, p)
    case BatchPatch(ids, p) => PatchAll(c, ids, p)
    case BatchRemove(ids) => RemoveAll(c, ids)
  }

  function FlatStep(m: FlatCache, op: Op): FlatCache {
    match op
    case Add(i) => FlatAdd(m, i)
    case Remove(id) => FlatRemove(m, id)
    case PatchOne(id, p) => FlatPatch(m, id, p)
    case BatchPatch(ids, p) => FlatPatchSet(m, IdSet(ids), p)
    case BatchRemove(ids) => m - IdSet(ids)
  }

  ghost function Run(c: ListCache, ops: seq<Op>): ListCache {
    if |ops| == 0 then c else Step(Run(c, ops[..|ops| - 1]), ops[|ops| - 1])
  }

  function FlatRun(m: FlatCache, ops: seq<Op>): FlatCache {
    if |ops| == 0 then m else FlatStep(FlatRun(m, ops[..|ops| - 1]), ops[|ops| - 1])
  }

  /** What a caller checks before a step: an added issue is not shown in another column. */
  predicate FlatMay(m: FlatCache, op: Op) {
    op.Add? && Listed(op.issue.status) && op.issue.id in m ==> m[op.issue.id].status == op.issue.status
  }

  ghost predicate AllMay(m: FlatCache, ops: seq<Op>) {
    |ops| == 0 || (AllMay(m, ops[..|ops| - 1]) && FlatMay(FlatRun(m, ops[..|ops| - 1]), ops[|ops| - 1]))
  }

  lemma MayAddIsFlat(c: ListCache, i: Issue)
    requires Inv(c) && FlatMay(View(c), Add(i)) && Listed(i.status)
    ensures MayAdd(c, i)
  {
    forall s | Listed(s) && s != i.status ensures !Has(Issues(c, s), i.id) {
      if Has(Issues(c, s), i.id) {
        var x :| x in Issues(c, s) && x.id == i.id;
        assert BucketOk(s, Issues(c, s));
        ViewMember(c, x);
      }
    }
  }

  lemma StepRefines(c: ListCache, op: Op)
    requires Inv(c) && FlatMay(View(c), op)
    ensures Inv(Step(c, op)) && View(Step(c, op)) == FlatStep(View(c), op)
  {
    match op
    case Add(i) => if Listed(i.status) { MayAddIsFlat(c, i); } AddStep(c, i);
    case Remove(id) => RemoveStep(c, id);
    case PatchOne(id, p) => PatchStep(c, id, p);
    case BatchPatch(ids, p) => PatchAllStep(c, ids, p);
    case BatchRemove(ids) => RemoveAllStep(c, ids);
  }

  /** Over every run the buckets keep their invariant and show exactly what the flat map holds. */
  lemma {:induction false} RunRefines(c: ListCache, ops: seq<Op>)
    requires Inv(c) && AllMay(View(c), ops)
    ensures Inv(Run(c, ops))
    ensures View(Run(c, ops)) == FlatRun(View(c), ops)
  {
    if |ops| == 0 {
    } else {
      RunRefines(c, ops[..|ops| - 1]);
      StepRefines(Run(c, ops[..|ops| - 1]), ops[|ops| - 1]);
    }
  }

  /* ---- The flattened list ---- */

  ghost function FlattenFrom(c: ListCache, n: nat): seq<Issue>
    requires n <= |PAGINATED|
  {
    if n == 0 then [] else FlattenFrom(c, n - 1) + Issues(c, PAGINATED[n - 1])
  }

  lemma FlattenedInOrder(c: ListCache)
    ensures FlattenFrom(c, |PAGINATED|)
         == Issues(c, Backlog) + Issues(c, Todo) + Issues(c, InProgress) + Issues(c, InReview) + Issues(c, Done) + Issues(c, Blocked)
  {
    assert FlattenFrom(c, 1) == [] + Issues(c, Backlog) == Issues(c, Backlog);
    assert FlattenFrom(c, 2) == Issues(c, Backlog) + Issues(c, Todo);
    assert FlattenFrom(c, 3) == Issues(c, Backlog) + Issues(c, Todo) + Issues(c, InProgress);
    assert FlattenFrom(c, 4) == Issues(c, Backlog) + Issues(c, Todo) + Issues(c, InProgress) + Issues(c, InReview);
    assert FlattenFrom(c, 5)
        == Issues(c, Backlog) + Issues(c, Todo) + Issues(c, InProgress) + Issues(c, InReview) + Issues(c, Done);
  }

  method FlattenIssueBuckets(c: ListCache) returns (out: seq<Issue>)
    ensures out == FlattenFrom(c, |PAGINATED|)
    ensures out == Issues(c, Backlog) + Issues(c, Todo) + Issues(c, InProgress) + Issues(c, InReview) + Issues(c, Done) + Issues(c, Blocked)
  {
    FlattenedInOrder(c);
    out := [];
    for n := 0 to |PAGINATED|
      invariant out == FlattenFrom(c, n)
    {
      if PAGINATED[n] in c {
        out := out + c[PAGINATED[n]].issues;
      }
    }
  }

  lemma {:induction false} FlattenMembers(c: ListCache, n: nat, i: Issue)
    requires n <= |PAGINATED|
    ensures i in FlattenFrom(c, n) <==> exists k :: 0 <= k < n && i in Issues(c, PAGINATED[k])
  {
    if n == 0 {
    } else {
      FlattenMembers(c, n - 1, i);
    }
  }

  /** An issue found in the column at position `k` has that column's status. */
  lemma ColumnStatus(c: ListCache, k: nat, i: Issue)
    requires Inv(c) && k < |PAGINATED| && i in Issues(c, PAGINATED[k])
    ensures Listed(PAGINATED[k]) && i.status == PAGINATED[k]
  {
    assert BucketOk(PAGINATED[k], Issues(c, PAGINATED[k]));
  }

  /** The flattened list holds exactly the issues that stand in the column of their status. */
  lemma FlattenedByStatus(c: ListCache, i: Issue)
    requires Inv(c)
    ensures i in FlattenFrom(c, |PAGINATED|) <==> Listed(i.status) && i in Issues(c, i.status)
  {
    FlattenMembers(c, |PAGINATED|, i);
    if i in FlattenFrom(c, |PAGINATED|) {
      var k :| 0 <= k < |PAGINATED| && i in Issues(c, PAGINATED[k]);
      ColumnStatus(c, k, i);
    }
    if Listed(i.status) { ListedIsPaginated(i.status); }
  }

  /** The flattened list holds exactly the issues of the flat map. */
  lemma FlattenedIsView(c: ListCache, i: Issue)
    requires Inv(c)
    ensures i in FlattenFrom(c, |PAGINATED|) <==> i.id in View(c) && View(c)[i.id] == i
  {
    FlattenedByStatus(c, i);
    ViewMember(c, i);
  }

  /** No issue before column `n` has the id of one in it. */
  lemma FlattenedApart(c: ListCache, n: nat, x: Issue, y: Issue)
    requires Inv(c) && n < |PAGINATED| && x in FlattenFrom(c, n) && y in Issues(c, PAGINATED[n])
    ensures x.id != y.id
  {
    FlattenMembers(c, n, x);
    var k :| 0 <= k < n && x in Issues(c, PAGINATED[k]);
    ColumnStatus(c, k, x);
    ColumnStatus(c, n, y);
    assert PAGINATED[k] != PAGINATED[n];
    assert Apart(c, PAGINATED[k], PAGINATED[n]);
    assert Has(Issues(c, PAGINATED[k]), x.id);
  }

  /** No id appears twice in the flattened list. */
  lemma {:induction false} FlattenedIsUnique(c: ListCache, n: nat)
    requires Inv(c) && n <= |PAGINATED|
    ensures Unique(FlattenFrom(c, n), IdOf)
  {
    if n == 0 {
    } else {
      FlattenedIsUnique(c, n - 1);
      var s := PAGINATED[n - 1];
      assert BucketOk(s, Issues(c, s));
      forall x, y | x in FlattenFrom(c, n - 1) && y in Issues(c, s) ensures x.id != y.id {
        FlattenedApart(c, n - 1, x, y);
      }
      UniqueAppend(FlattenFrom(c, n - 1), Issues(c, s), IdOf);
    }
  }

  /* ---- Hidden counts ---- */

  /** How many issues of a column the server has and the client has not loaded. */
  function Hidden(c: ListCache, s: Status): int {
    GetBucket(c, s).total - |Issues(c, s)|
  }

  ghost predicate Counted(c: ListCache) {
    forall s :: Hidden(c, s) >= 0
  }

  lemma StepKeepsHidden(c: ListCache, op: Op, s: Status)
    requires Inv(c) && Counted(c) && !op.BatchPatch? && !op.BatchRemove?
    ensures Hidden(Step(c, op), s) == Hidden(c, s)
  {
    match op
    case Add(i) =>
    case Remove(id) => RemoveKeepsHidden(c, id, s);
    case PatchOne(id, p) => PatchKeepsHidden(c, id, p, s);
    case _ =>
  }

  /** A found issue leaves its bucket one shorter, and the server's total counts it. */
  lemma FoundIsCounted(c: ListCache, id: IssueId)
    requires Inv(c) && Counted(c) && FindIssueLocation(c, id).Some?
    ensures var t := FindIssueLocation(c, id).value.status;
            |Without(Issues(c, t), id)| == |Issues(c, t)| - 1 && GetBucket(c, t).total >= 1
  {
    LookupFinds(c, id);
    var t := FindIssueLocation(c, id).value.status;
    assert Has(Issues(c, t), id) && BucketOk(t, Issues(c, t)) && Hidden(c, t) >= 0;
    WithoutIsUnique(Issues(c, t), id);
  }

  lemma RemoveKeepsHidden(c: ListCache, id: IssueId, s: Status)
    requires Inv(c) && Counted(c)
    ensures Hidden(RemoveIssue(c, id), s) == Hidden(c, s)
  {
    if FindIssueLocation(c, id).Some? { FoundIsCounted(c, id); }
  }

  lemma PatchAtKeepsHidden(c: ListCache, l: Location, id: IssueId, p: Patch, s: Status)
    requires |Without(Issues(c, l.status), id)| == |Issues(c, l.status)| - 1 && GetBucket(c, l.status).total >= 1
    ensures Hidden(PatchAt(c, l, id, p), s) == Hidden(c, s)
  {
  }

  lemma PatchKeepsHidden(c: ListCache, id: IssueId, p: Patch, s: Status)
    requires Inv(c) && Counted(c)
    ensures Hidden(PatchIssue(c, id, p), s) == Hidden(c, s)
  {
    match FindIssueLocation(c, id)
    case None =>
    case Some(l) =>
      FoundIsCounted(c, id);
      PatchAtKeepsHidden(c, l, id, p, s);
  }

  lemma {:induction false} PatchAllKeepsHidden(c: ListCache, ids: seq<IssueId>, p: Patch, s: Status)
    requires Inv(c) && Counted(c)
    ensures Hidden(PatchAll(c, ids, p), s) == Hidden(c, s)
  {
    if |ids| == 0 {
    } else {
      var front := ids[..|ids| - 1];
      PatchAllStep(c, front, p);
      forall t ensures Hidden(PatchAll(c, front, p), t) == Hidden(c, t) { PatchAllKeepsHidden(c, front, p, t); }
      PatchKeepsHidden(PatchAll(c, front, p), ids[|ids| - 1], p, s);
    }
  }

  lemma {:induction false} RemoveAllKeepsHidden(c: ListCache, ids: seq<IssueId>, s: Status)
    requires Inv(c) && Counted(c)
    ensures Hidden(RemoveAll(c, ids), s) == Hidden(c, s)
  {
    if |ids| == 0 {
    } else {
      var front := ids[..|ids| - 1];
      RemoveAllStep(c, front);
      forall t ensures Hidden(RemoveAll(c, front), t) == Hidden(c, t) { RemoveAllKeepsHidden(c, front, t); }
      RemoveKeepsHidden(RemoveAll(c, front), ids[|ids| - 1], s);
    }
  }

  /** Over every run each column's hidden count stays what it was, so no total
      is ever clamped at zero. */
  lemma {:induction false} RunKeepsHidden(c: ListCache, ops: seq<Op>, s: Status)
    requires Inv(c) && Counted(c) && AllMay(View(c), ops)
    ensures Hidden(Run(c, ops), s) == Hidden(c, s)
  {
    if |ops| == 0 {
    } else {
      var front, op := ops[..|ops| - 1], ops[|ops| - 1];
      RunRefines(c, front);
      forall t ensures Hidden(Run(c, front), t) == Hidden(c, t) { RunKeepsHidden(c, front, t); }
      match op
      case BatchPatch(ids, p) => PatchAllKeepsHidden(Run(c, front), ids, p, s);
      case BatchRemove(ids) => RemoveAllKeepsHidden(Run(c, front), ids, s);
      case _ => StepKeepsHidden(Run(c, front), op, s);
    }
  }
}
