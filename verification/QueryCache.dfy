/** The parts of the query client the issue handlers write, and the handlers.
    Writing data makes an entry fresh; an updater that returns nothing changes nothing. */
module QueryCache {
  import opened Options
  import opened IssueCache

  /** A cached query: its data, if any, and whether it is marked stale. */
  datatype Entry<T> = Entry(data: Option<T>, stale: bool)

  type Entries<T> = map<IssueId, Entry<T>>

  /** Parent and status of every sub-issue: what the server counts the progress of parents from. */
  type Family = map<IssueId, (IssueId, Status)>

  /** `childProgress` is represented by what it was counted from. */
  datatype State = State(
    list: Entry<ListCache>,
    myLists: map<string, Entry<ListCache>>,
    details: Entries<Issue>,
    children: Entries<seq<Issue>>,
    childProgress: Entry<Family>)

  function DataAt<T>(m: Entries<T>, id: IssueId): Option<T> {
    if id in m then m[id].data else None
  }

  function SetAt<T>(m: Entries<T>, id: IssueId, v: T): Entries<T> { m[id := Entry(Some(v), false)] }

  function InvalidateAt<T>(m: Entries<T>, id: IssueId): Entries<T> {
    if id in m then m[id := m[id].(stale := true)] else m
  }

  function InvalidateAll(m: map<string, Entry<ListCache>>): map<string, Entry<ListCache>> {
    map k | k in m :: m[k].(stale := true)
  }

  /** `old?.map(c => c.id === id ? {...c, ...patch} : c)` */
  function PatchChildren(issues: seq<Issue>, id: IssueId, p: Patch): seq<Issue> {
    seq(|issues|, k requires 0 <= k < |issues| => if issues[k].id == id then Merge(issues[k], p) else issues[k])
  }

  function ParentInList(list: Option<ListCache>, id: IssueId): Option<IssueId> {
    if list.Some? && FindIssueLocation(list.value, id).Some? then FindIssueLocation(list.value, id).value.issue.parent
    else None
  }

  /** The parent before the change: the detail's, else the list's, else none. */
  function OldParent(s: State, id: IssueId): Option<IssueId> {
    var d := DataAt(s.details, id);
    if d.Some? && d.value.parent.Some? then d.value.parent else ParentInList(s.list.data, id)
  }

  function NewParent(p: Patch): Option<IssueId> { if p.parent.Some? then p.parent.value else None }

  predicate ParentChanged(s: State, id: IssueId, p: Patch) {
    p.parent.Some? && NewParent(p) != OldParent(s, id)
  }

  function LabelsPatch(labels: string): Patch { Patch(None, None, map["labels" := labels]) }

  /* ---- What each event does ---- */

  function PatchedList(list: Entry<ListCache>, id: IssueId, p: Patch): Entry<ListCache> {
    if list.data.Some? then Entry(Some(PatchIssue(list.data.value, id, p)), false) else list
  }

  function PatchedDetails(m: Entries<Issue>, id: IssueId, p: Patch): Entries<Issue> {
    if DataAt(m, id).Some? then SetAt(m, id, Merge(DataAt(m, id).value, p)) else m
  }

  function PatchedChildrenOf(m: Entries<seq<Issue>>, parent: IssueId, id: IssueId, p: Patch): Entries<seq<Issue>> {
    if DataAt(m, parent).Some? then SetAt(m, parent, PatchChildren(DataAt(m, parent).value, id, p)) else m
  }

  function ChildrenAfterUpdate(s: State, id: IssueId, p: Patch): Entries<seq<Issue>> {
    var moved := ParentChanged(s, id, p);
    var m :=
      match OldParent(s, id)
      case None => s.children
      case Some(q) => if moved then InvalidateAt(s.children, q) else PatchedChildrenOf(s.children, q, id, p);
    if NewParent(p).Some? && moved then InvalidateAt(m, NewParent(p).value) else m
  }

  function Updated(s: State, id: IssueId, p: Patch): State {
    var hasParent := OldParent(s, id).Some? || NewParent(p).Some?;
    State(
      PatchedList(s.list, id, p),
      InvalidateAll(s.myLists),
      PatchedDetails(s.details, id, p),
      ChildrenAfterUpdate(s, id, p),
      if hasParent && (p.status.Some? || p.parent.Some?) then s.childProgress.(stale := true) else s.childProgress)
  }

  function Created(s: State, i: Issue): State {
    State(
      if s.list.data.Some? then Entry(Some(AddIssue(s.list.data.value, i)), false) else s.list,
      InvalidateAll(s.myLists),
      s.details,
      if i.parent.Some? then InvalidateAt(s.children, i.parent.value) else s.children,
      if i.parent.Some? then s.childProgress.(stale := true) else s.childProgress)
  }

  function LabelsChanged(s: State, id: IssueId, labels: string): State {
    s.(list := PatchedList(s.list, id, LabelsPatch(labels)),
       details := PatchedDetails(s.details, id, LabelsPatch(labels)),
       myLists := InvalidateAll(s.myLists))
  }

  /** Only the list is asked for the parent of a deleted issue. */
  function Deleted(s: State, id: IssueId): State {
    var parent := ParentInList(s.list.data, id);
    State(
      if s.list.data.Some? then Entry(Some(RemoveIssue(s.list.data.value, id)), false) else s.list,
      InvalidateAll(s.myLists),
      s.details - {id},
      if parent.Some? then InvalidateAt(s.children - {id}, parent.value) else s.children - {id},
      if parent.Some? then s.childProgress.(stale := true) else s.childProgress)
  }

  /* ---- The optimistic update and its outcomes ---- */

  /** What the mutation remembers for its error and settle handlers. */
  datatype Context = Context(
    prevList: Option<ListCache>, prevDetail: Option<Issue>, prevChildren: Option<seq<Issue>>,
    parentId: Option<IssueId>, id: IssueId)

  function ContextOf(s: State, id: IssueId): Context {
    var parent := OldParent(s, id);
    Context(s.list.data, DataAt(s.details, id),
            if parent.Some? then DataAt(s.children, parent.value) else None, parent, id)
  }

  function Mutated(s: State, id: IssueId, p: Patch): State {
    var parent := OldParent(s, id);
    s.(list := PatchedList(s.list, id, p),
       details := PatchedDetails(s.details, id, p),
       children := if parent.Some? then PatchedChildrenOf(s.children, parent.value, id, p) else s.children)
  }

  function RolledBack(s: State, ctx: Context): State {
    s.(list := if ctx.prevList.Some? then Entry(ctx.prevList, false) else s.list,
       details := if ctx.prevDetail.Some? then SetAt(s.details, ctx.id, ctx.prevDetail.value) else s.details,
       children := if ctx.parentId.Some? && ctx.prevChildren.Some?
                   then SetAt(s.children, ctx.parentId.value, ctx.prevChildren.value) else s.children)
  }

  function Settled(s: State, p: Patch, ctx: Context): State {
    var moved := NewParent(p).Some? && NewParent(p) != ctx.parentId;
    var m := if ctx.parentId.Some? then InvalidateAt(s.children, ctx.parentId.value) else s.children;
    s.(list := s.list.(stale := true),
       details := InvalidateAt(s.details, ctx.id),
       children := if moved then InvalidateAt(m, NewParent(p).value) else m,
       childProgress := if ctx.parentId.Some? || moved then s.childProgress.(stale := true) else s.childProgress)
  }

  /* ---- The handlers ---- */

  class QueryClient {
    var list: Entry<ListCache>
    var myLists: map<string, Entry<ListCache>>
    var details: Entries<Issue>
    var children: Entries<seq<Issue>>
    var childProgress: Entry<Family>

    function Now(): State
      reads this
    {
      State(list, myLists, details, children, childProgress)
    }

    method PatchList(id: IssueId, p: Patch)
      modifies this`list
      ensures list == PatchedList(old(list), id, p)
    {
      if list.data.Some? {
        list := Entry(Some(PatchIssue(list.data.value, id, p)), false);
      }
    }

    method PatchDetail(id: IssueId, p: Patch)
      modifies this`details
      ensures details == PatchedDetails(old(details), id, p)
    {
      if id in details && details[id].data.Some? {
        details := details[id := Entry(Some(Merge(details[id].data.value, p)), false)];
      }
    }

    method PatchChildrenList(parent: IssueId, id: IssueId, p: Patch)
      modifies this`children
      ensures children == PatchedChildrenOf(old(children), parent, id, p)
    {
      if parent in children && children[parent].data.Some? {
        children := children[parent := Entry(Some(PatchChildren(children[parent].data.value, id, p)), false)];
      }
    }

    method FindOldParent(id: IssueId) returns (parent: Option<IssueId>)
      ensures parent == OldParent(Now(), id)
    {
      parent := None;
      if id in details && details[id].data.Some? {
        parent := details[id].data.value.parent;
      }
      if parent.None? && list.data.Some? {
        var loc := FindIssueLocation(list.data.value, id);
        if loc.Some? { parent := loc.value.issue.parent; }
      }
    }

    method OnIssueCreated(i: Issue)
      modifies this
      ensures Now() == Created(old(Now()), i)
    {
      if list.data.Some? {
        list := Entry(Some(AddIssue(list.data.value, i)), false);
      }
      myLists := InvalidateAll(myLists);
      if i.parent.Some? {
        children := InvalidateAt(children, i.parent.value);
        childProgress := childProgress.(stale := true);
      }
    }

    method OnIssueUpdated(id: IssueId, p: Patch)
      modifies this
      ensures Now() == Updated(old(Now()), id, p)
    {
      var oldParentId := FindOldParent(id);
      var newParentId := if p.parent.Some? then p.parent.value else None;
      var parentChanged := p.parent.Some? && newParentId != oldParentId;
      PatchList(id, p);
      myLists := InvalidateAll(myLists);
      PatchDetail(id, p);
      if oldParentId.Some? {
        if parentChanged {
          children := InvalidateAt(children, oldParentId.value);
        } else {
          PatchChildrenList(oldParentId.value, id, p);
        }
      }
      if newParentId.Some? && parentChanged {
        children := InvalidateAt(children, newParentId.value);
      }
      if oldParentId.Some? || newParentId.Some? {
        if p.status.Some? || p.parent.Some? {
          childProgress := childProgress.(stale := true);
        }
      }
    }

    method OnIssueLabelsChanged(id: IssueId, labels: string)
      modifies this
      ensures Now() == LabelsChanged(old(Now()), id, labels)
    {
      PatchList(id, LabelsPatch(labels));
      PatchDetail(id, LabelsPatch(labels));
      myLists := InvalidateAll(myLists);
    }

    method OnIssueDeleted(id: IssueId)
      modifies this
      ensures Now() == Deleted(old(Now()), id)
    {
      var parent: Option<IssueId> := None;
      if list.data.Some? {
        var loc := FindIssueLocation(list.data.value, id);
        if loc.Some? { parent := loc.value.issue.parent; }
        list := Entry(Some(RemoveIssue(list.data.value, id)), false);
      }
      myLists := InvalidateAll(myLists);
      details := details - {id};
      children := children - {id};
      if parent.Some? {
        children := InvalidateAt(children, parent.value);
        childProgress := childProgress.(stale := true);
      }
    }

    method MutateUpdate(id: IssueId, p: Patch) returns (ctx: Context)
      modifies this
      ensures Now() == Mutated(old(Now()), id, p)
      ensures ctx == ContextOf(old(Now()), id)
    {
      var parentId := FindOldParent(id);
      var prevDetail := if id in details then details[id].data else None;
      var prevChildren := if parentId.Some? && parentId.value in children then children[parentId.value].data else None;
      ctx := Context(list.data, prevDetail, prevChildren, parentId, id);
      PatchList(id, p);
      PatchDetail(id, p);
      if parentId.Some? {
        PatchChildrenList(parentId.value, id, p);
      }
    }

    method OnUpdateError(ctx: Context)
      modifies this
      ensures Now() == RolledBack(old(Now()), ctx)
    {
      if ctx.prevList.Some? {
        list := Entry(ctx.prevList, false);
      }
      if ctx.prevDetail.Some? {
        details := details[ctx.id := Entry(ctx.prevDetail, false)];
      }
      if ctx.parentId.Some? && ctx.prevChildren.Some? {
        children := children[ctx.parentId.value := Entry(ctx.prevChildren, false)];
      }
    }

    method OnUpdateSettled(p: Patch, ctx: Context)
      modifies this
      ensures Now() == Settled(old(Now()), p, ctx)
    {
      details := InvalidateAt(details, ctx.id);
      list := list.(stale := true);
      if ctx.parentId.Some? {
        children := InvalidateAt(children, ctx.parentId.value);
        childProgress := childProgress.(stale := true);
      }
      var newParentId := if p.parent.Some? then p.parent.value else None;
      if newParentId.Some? && newParentId != ctx.parentId {
        children := InvalidateAt(children, newParentId.value);
        childProgress := childProgress.(stale := true);
      }
    }
  }
}
