/** Which cache entries an event or an optimistic update writes and which it leaves alone, entry by
    entry.  Nothing cached is ever lost, except what belongs to a deleted issue. */
module EventEffects {
  import opened Options
  import opened IssueCache
  import opened BucketRefinement
  import opened QueryCache

  /** The entry holds what it held, and is stale if it was or `marked`. */
  predicate Marked<T(==)>(now: Entry<T>, before: Entry<T>, marked: bool) {
    now.data == before.data && (now.stale <==> before.stale || marked)
  }

  ghost predicate AllMarked(now: map<string, Entry<ListCache>>, before: map<string, Entry<ListCache>>) {
    now.Keys == before.Keys && forall k :: k in now ==> Marked(now[k], before[k], true)
  }

  /** The patched record: what the patch names is new, everything else is as it was. */
  ghost predicate PatchedRecord(now: Issue, before: Issue, p: Patch) {
    && now.id == before.id
    && now.status == (if p.status.Some? then p.status.value else before.status)
    && now.parent == (if p.parent.Some? then p.parent.value else before.parent)
    && (forall k :: k in now.fields <==> k in before.fields || k in p.fields)
    && (forall k :: k in now.fields ==> now.fields[k] == if k in p.fields then p.fields[k] else before.fields[k])
  }

  lemma MergeIsPatch(i: Issue, p: Patch)
    ensures PatchedRecord(Merge(i, p), i, p)
  {
  }

  /** The patched record is shown, unless the issue is now cancelled, and all others as before. */
  ghost predicate ViewPatched(now: FlatCache, before: FlatCache, id: IssueId, p: Patch) {
    && (forall x :: x != id ==> (x in now <==> x in before) && (x in before ==> now[x] == before[x]))
    && (id in now ==> id in before && PatchedRecord(now[id], before[id], p))
    && (id in before && id !in now ==> p.status == Some(Cancelled))
  }

  ghost predicate ListPatched(now: Entry<ListCache>, before: Entry<ListCache>, id: IssueId, p: Patch) {
    if before.data.None? then now == before
    else
      && now.data.Some? && !now.stale
      && (Inv(before.data.value) ==> ViewPatched(View(now.data.value), View(before.data.value), id, p))
  }

  ghost predicate DetailPatched(now: Entries<Issue>, before: Entries<Issue>, id: IssueId, p: Patch) {
    && now.Keys == before.Keys && (forall x :: x in now && x != id ==> now[x] == before[x])
    && (id in now && before[id].data.None? ==> now[id] == before[id])
    && (id in now && before[id].data.Some? ==>
          now[id].data.Some? && !now[id].stale && PatchedRecord(now[id].data.value, before[id].data.value, p))
  }

  /** Every copy of the issue is patched in its place, and nothing else changes. */
  ghost predicate ChildrenPatched(now: seq<Issue>, before: seq<Issue>, id: IssueId, p: Patch) {
    |now| == |before|
    && forall k :: 0 <= k < |now| ==> if before[k].id == id then PatchedRecord(now[k], before[k], p) else now[k] == before[k]
  }

  lemma ListIsPatched(list: Entry<ListCache>, id: IssueId, p: Patch)
    ensures ListPatched(PatchedList(list, id, p), list, id, p)
  {
    if list.data.Some? && Inv(list.data.value) {
      PatchStep(list.data.value, id, p);
      ListedOnly(list.data.value, id);
      FlatPatched(View(list.data.value), id, p);
    }
  }

  lemma ListedOnly(c: ListCache, id: IssueId)
    requires Inv(c)
    ensures id in View(c) ==> View(c)[id].status != Cancelled
  {
    if id in View(c) {
      ViewIs(c, id);
      ViewMember(c, View(c)[id]);
    }
  }

  lemma FlatPatched(m: FlatCache, id: IssueId, p: Patch)
    requires id in m ==> m[id].status != Cancelled
    ensures ViewPatched(FlatPatch(m, id, p), m, id, p)
  {
    if id in m { MergeIsPatch(m[id], p); }
  }

  lemma DetailIsPatched(m: Entries<Issue>, id: IssueId, p: Patch)
    ensures DetailPatched(PatchedDetails(m, id, p), m, id, p)
  {
    if DataAt(m, id).Some? { MergeIsPatch(DataAt(m, id).value, p); }
  }

  lemma ChildrenArePatched(issues: seq<Issue>, id: IssueId, p: Patch)
    ensures ChildrenPatched(PatchChildren(issues, id, p), issues, id, p)
  {
    forall k | 0 <= k < |issues| ensures PatchedRecord(Merge(issues[k], p), issues[k], p) { MergeIsPatch(issues[k], p); }
  }

  /** The parent before a change: that of the detail if it names one, else that of the list. */
  lemma OldParentIs(s: State, id: IssueId)
    ensures var detail := if id in s.details then s.details[id].data else None;
            var listed := if s.list.data.Some? && id in View(s.list.data.value) then View(s.list.data.value)[id].parent else None;
            OldParent(s, id) == if detail.Some? && detail.value.parent.Some? then detail.value.parent else listed
  {
    if s.list.data.Some? { ViewIs(s.list.data.value, id); }
  }

  /* ---- The events ---- */

  /** A creation marks the my-issues lists, and for a sub-issue its parent's children list and the progress. */
  lemma CreationWrites(s: State, i: Issue)
    ensures var s' := Created(s, i);
            && s'.details == s.details
            && AllMarked(s'.myLists, s.myLists)
            && s'.children.Keys == s.children.Keys
            && (forall q :: q in s.children ==> Marked(s'.children[q], s.children[q], i.parent == Some(q)))
            && Marked(s'.childProgress, s.childProgress, i.parent.Some?)
    ensures var s' := Created(s, i);
            if s.list.data.None? then s'.list == s.list
            else s'.list.data.Some? && !s'.list.stale
                 && (Inv(s.list.data.value) && (Listed(i.status) ==> MayAdd(s.list.data.value, i)) ==>
                       View(s'.list.data.value)
                       == if i.status == Cancelled || i.id in View(s.list.data.value) then View(s.list.data.value)
                          else View(s.list.data.value)[i.id := i])
  {
    if s.list.data.Some? && Inv(s.list.data.value) && (Listed(i.status) ==> MayAdd(s.list.data.value, i)) {
      AddStep(s.list.data.value, i);
    }
  }

  /** An update patches list, detail and the children list of an unchanged parent, and marks the others. */
  lemma UpdateWrites(s: State, id: IssueId, p: Patch)
    ensures var s' := Updated(s, id, p);
            && ListPatched(s'.list, s.list, id, p) && DetailPatched(s'.details, s.details, id, p)
            && AllMarked(s'.myLists, s.myLists)
            && Marked(s'.childProgress, s.childProgress,
                      (OldParent(s, id).Some? || (p.parent.Some? && p.parent.value.Some?)) && (p.status.Some? || p.parent.Some?))
            && s'.children.Keys == s.children.Keys
  {
    ListIsPatched(s.list, id, p);
    DetailIsPatched(s.details, id, p);
  }

  lemma UpdateWritesChildren(s: State, id: IssueId, p: Patch, q: IssueId)
    requires q in s.children
    ensures var moved := p.parent.Some? && p.parent.value != OldParent(s, id);
            var now, before := Updated(s, id, p).children, s.children;
            q in now
            && if OldParent(s, id) == Some(q) && !moved && before[q].data.Some? then
                 now[q].data.Some? && !now[q].stale && ChildrenPatched(now[q].data.value, before[q].data.value, id, p)
               else
                 Marked(now[q], before[q], moved && (OldParent(s, id) == Some(q) || p.parent == Some(Some(q))))
  {
    if s.children[q].data.Some? { ChildrenArePatched(s.children[q].data.value, id, p); }
  }

  /** A label event patches list and detail and marks the my-issues lists. */
  lemma LabelsWrite(s: State, id: IssueId, labels: string)
    ensures var s', p := LabelsChanged(s, id, labels), Patch(None, None, map["labels" := labels]);
            && ListPatched(s'.list, s.list, id, p) && DetailPatched(s'.details, s.details, id, p)
            && AllMarked(s'.myLists, s.myLists) && s'.children == s.children && s'.childProgress == s.childProgress
  {
    ListIsPatched(s.list, id, LabelsPatch(labels));
    DetailIsPatched(s.details, id, LabelsPatch(labels));
  }

  /** A deletion drops the issue, its detail and its children list, and marks what shows its parent's children. */
  lemma DeletionWrites(s: State, id: IssueId)
    ensures var s', parent := Deleted(s, id), ParentInList(s.list.data, id);
            && AllMarked(s'.myLists, s.myLists)
            && (forall x :: x in s'.details <==> x in s.details && x != id)
            && (forall x :: x in s'.details ==> s'.details[x] == s.details[x])
            && (forall q :: q in s'.children <==> q in s.children && q != id)
            && (forall q :: q in s'.children ==> Marked(s'.children[q], s.children[q], parent == Some(q)))
            && Marked(s'.childProgress, s.childProgress, parent.Some?)
    ensures var s' := Deleted(s, id);
            if s.list.data.None? then s'.list == s.list
            else s'.list.data.Some? && !s'.list.stale
                 && (Inv(s.list.data.value) ==> View(s'.list.data.value) == View(s.list.data.value) - {id})
  {
    if s.list.data.Some? && Inv(s.list.data.value) { RemoveStep(s.list.data.value, id); }
  }

  /* ---- The optimistic update ---- */

  /** The user sees the change at once: in the list, in the detail, and in every copy in the children
      list of the parent the issue has in the caches. */
  lemma MutationWrites(s: State, id: IssueId, p: Patch)
    ensures var s' := Mutated(s, id, p);
            && ListPatched(s'.list, s.list, id, p) && DetailPatched(s'.details, s.details, id, p)
            && s'.myLists == s.myLists && s'.childProgress == s.childProgress && s'.children.Keys == s.children.Keys
    ensures forall q :: q in s.children ==>
              var now, before := Mutated(s, id, p).children[q], s.children[q];
              if OldParent(s, id) == Some(q) && before.data.Some?
              then now.data.Some? && !now.stale && ChildrenPatched(now.data.value, before.data.value, id, p)
              else now == before
  {
    ListIsPatched(s.list, id, p);
    DetailIsPatched(s.details, id, p);
    forall q | q in s.children && s.children[q].data.Some?
      ensures ChildrenPatched(PatchChildren(s.children[q].data.value, id, p), s.children[q].data.value, id, p)
    {
      ChildrenArePatched(s.children[q].data.value, id, p);
    }
  }

  /** Settling writes no data, and marks nothing but the entries of the update. */
  lemma SettlingMarksOnly(s: State, p: Patch, ctx: Context)
    ensures var s' := Settled(s, p, ctx);
            && Marked(s'.list, s.list, true) && s'.myLists == s.myLists
            && s'.details.Keys == s.details.Keys && (forall x :: x in s.details ==> Marked(s'.details[x], s.details[x], x == ctx.id))
            && s'.children.Keys == s.children.Keys
            && (forall q :: q in s.children ==> Marked(s'.children[q], s.children[q], ctx.parentId == Some(q) || p.parent == Some(Some(q))))
            && Marked(s'.childProgress, s.childProgress, ctx.parentId.Some? || (p.parent.Some? && p.parent.value.Some?))
  {
  }
}
