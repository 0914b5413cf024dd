/** Agreement of the issue caches with each other, over single events and whole runs.
    The server's records are the common truth; a cache entry may be missing, but what
    it holds is the truth, unless it is marked stale. */
module CacheCoherence {
  import opened Options
  import opened IssueCache
  import opened BucketRefinement
  import opened QueryCache

  type Truth = map<IssueId, Issue>

  /** Where the caches may be wrong for now: the list and detail copies of some issues, the children
      lists of some parents, and the progress of parents.  Nothing is exempt unless an optimistic
      update is under way. */
  datatype Exempt = Exempt(issues: set<IssueId>, parents: set<IssueId>, progress: bool)

  const NOTHING := Exempt({}, {}, false)

  ghost predicate PartOf(m: FlatCache, truth: Truth, exempt: set<IssueId>) {
    forall id :: id in m && id !in exempt ==> id in truth && m[id] == truth[id]
  }

  /** Every listed issue is shown as the server has it. */
  ghost predicate ListTracks(list: Option<ListCache>, truth: Truth, exempt: set<IssueId>) {
    list.Some? ==> Inv(list.value) && PartOf(View(list.value), truth, exempt)
  }

  ghost predicate DetailsTrack(m: Entries<Issue>, truth: Truth, exempt: set<IssueId>) {
    forall id :: DataAt(m, id).Some? && id !in exempt ==> id in truth && DataAt(m, id).value == truth[id]
  }

  /** A list of children holds true copies of issues with that parent. */
  ghost predicate CopiesAreTrue(parent: IssueId, issues: seq<Issue>, truth: Truth) {
    forall c :: c in issues ==> c.id in truth && c == truth[c.id] && c.parent == Some(parent)
  }

  /** No issue with that parent is missing. */
  ghost predicate HoldsAllChildren(parent: IssueId, issues: seq<Issue>, truth: Truth) {
    forall id :: id in truth && truth[id].parent == Some(parent) ==> Has(issues, id)
  }

  /** A list of children is exactly what the server has. */
  ghost predicate ChildListTracks(parent: IssueId, issues: seq<Issue>, truth: Truth) {
    CopiesAreTrue(parent, issues, truth) && HoldsAllChildren(parent, issues, truth)
  }

  predicate Fresh(m: Entries<seq<Issue>>, parent: IssueId) {
    DataAt(m, parent).Some? && !m[parent].stale
  }

  ghost predicate FreshListTracks(m: Entries<seq<Issue>>, q: IssueId, truth: Truth) {
    Fresh(m, q) ==> ChildListTracks(q, DataAt(m, q).value, truth)
  }

  ghost predicate ChildrenTrack(m: Entries<seq<Issue>>, truth: Truth, exempt: set<IssueId>) {
    forall q :: q !in exempt ==> FreshListTracks(m, q, truth)
  }

  ghost predicate WellKeyed(truth: Truth) {
    forall id :: id in truth ==> truth[id].id == id
  }

  /** List and details agree with the server. */
  ghost predicate CoreTracks(s: State, truth: Truth, exempt: set<IssueId>) {
    WellKeyed(truth) && ListTracks(s.list.data, truth, exempt) && DetailsTrack(s.details, truth, exempt)
  }

  /** A my-issues list that is not stale shows issues as the server has them. */
  ghost predicate MyListsTrack(m: map<string, Entry<ListCache>>, truth: Truth) {
    forall k :: k in m && !m[k].stale ==> ListTracks(m[k].data, truth, {})
  }

  ghost function FamilyOf(truth: Truth): Family {
    map id | id in truth && truth[id].parent.Some? :: (truth[id].parent.value, truth[id].status)
  }

  /** Progress that is not stale was counted from the parents and statuses there are. */
  ghost predicate ProgressTracks(e: Entry<Family>, truth: Truth) {
    e.data.Some? && !e.stale ==> e.data.value == FamilyOf(truth)
  }

  ghost predicate TracksExcept(s: State, truth: Truth, x: Exempt) {
    && CoreTracks(s, truth, x.issues)
    && ChildrenTrack(s.children, truth, x.parents)
    && MyListsTrack(s.myLists, truth)
    && (x.progress || ProgressTracks(s.childProgress, truth))
  }

  /** All caches agree with the server. */
  ghost predicate Tracks(s: State, truth: Truth) { TracksExcept(s, truth, NOTHING) }

  /* ---- Where copies are ---- */

  ghost predicate Shown(s: State, id: IssueId) {
    s.list.data.Some? && id in View(s.list.data.value)
  }

  ghost predicate Held(s: State, id: IssueId) {
    DataAt(s.details, id).Some? || Shown(s, id)
  }

  ghost predicate ChildCopy(s: State, q: IssueId, id: IssueId) {
    Fresh(s.children, q) && Has(DataAt(s.children, q).value, id)
  }

  /** A fresh children list holds a copy only under the issue's parent. */
  lemma ChildCopyParent(s: State, truth: Truth, q: IssueId, id: IssueId)
    requires FreshListTracks(s.children, q, truth) && ChildCopy(s, q, id)
    ensures id in truth && truth[id].parent == Some(q)
  {
    var c :| c in DataAt(s.children, q).value && c.id == id;
  }

  lemma OldParentIsTrue(s: State, truth: Truth, id: IssueId)
    requires CoreTracks(s, truth, {})
    ensures Held(s, id) ==> id in truth && OldParent(s, id) == truth[id].parent
    ensures !Held(s, id) ==> OldParent(s, id) == None
    ensures ParentInList(s.list.data, id) == if Shown(s, id) then truth[id].parent else None
  {
    if s.list.data.Some? { ViewIs(s.list.data.value, id); }
  }

  /* ---- The events ---- */

  datatype Event =
    | IssueCreated(issue: Issue)
    | IssueUpdated(id: IssueId, patch: Patch)
    | IssueLabels(id: IssueId, labels: string)
    | IssueDeleted(id: IssueId)

  function Handle(s: State, e: Event): State {
    match e
    case IssueCreated(i) => Created(s, i)
    case IssueUpdated(id, p) => Updated(s, id, p)
    case IssueLabels(id, labels) => LabelsChanged(s, id, labels)
    case IssueDeleted(id) => Deleted(s, id)
  }

  function Amended(truth: Truth, id: IssueId, p: Patch): Truth {
    if id in truth then truth[id := Merge(truth[id], p)] else truth
  }

  predicate Changes(truth: Truth, id: IssueId, p: Patch) {
    id in truth && Merge(truth[id], p) != truth[id]
  }

  /** What the event says about the server. */
  function Happens(truth: Truth, e: Event): Truth {
    match e
    case IssueCreated(i) => truth[i.id := i]
    case IssueUpdated(id, p) => Amended(truth, id, p)
    case IssueLabels(id, labels) => Amended(truth, id, LabelsPatch(labels))
    case IssueDeleted(id) => truth - {id}
  }

  /** A creation announces an unknown issue, or one already known in this form. */
  predicate Plausible(truth: Truth, e: Event) {
    e.IssueCreated? && e.issue.id in truth ==> truth[e.issue.id] == e.issue
  }

  /* ---- When an event keeps the caches coherent ---- */

  /** The list takes a created issue unless another column already shows it. */
  ghost predicate Addable(s: State, e: Event) {
    e.IssueCreated? && s.list.data.Some? && Listed(e.issue.status) ==> MayAdd(s.list.data.value, e.issue)
  }

  /** Patching the list of `q` in place makes every copy in it true, and none is missing. */
  ghost predicate FitsAfter(q: IssueId, issues: seq<Issue>, truth: Truth, id: IssueId, p: Patch) {
    CopiesFit(q, issues, truth, id, p) && HoldsAllChildren(q, issues, Amended(truth, id, p))
  }

  ghost predicate CopiesFit(q: IssueId, issues: seq<Issue>, truth: Truth, id: IssueId, p: Patch) {
    forall c :: c in issues ==>
      c.id in truth
      && if c.id == id then Merge(c, p) == Merge(truth[id], p) && Merge(c, p).parent == Some(q)
         else c == truth[c.id] && c.parent == Some(q)
  }

  /** The children list of `q` survives an update: it is invalidated, or patched and then true, or
      holds no copy that the update changes. */
  ghost predicate UpdateSparesList(s: State, truth: Truth, id: IssueId, p: Patch, q: IssueId) {
    if OldParent(s, id) == Some(q) then
      ParentChanged(s, id, p) || DataAt(s.children, q).None? || FitsAfter(q, DataAt(s.children, q).value, truth, id, p)
    else
      ChildCopy(s, q, id) && Changes(truth, id, p) ==> ParentChanged(s, id, p) && NewParent(p) == Some(q)
  }

  /** The same for every event, read off the caches and the server before it is handled.  A label event
      writes no children list; a deletion invalidates only that of the parent found in the list. */
  ghost predicate SparesList(s: State, truth: Truth, e: Event, q: IssueId) {
    match e
    case IssueCreated(_) => true
    case IssueUpdated(id, p) => UpdateSparesList(s, truth, id, p, q)
    case IssueLabels(id, labels) => ChildCopy(s, q, id) ==> !Changes(truth, id, LabelsPatch(labels))
    case IssueDeleted(id) => ChildCopy(s, q, id) ==> q == id || ParentInList(s.list.data, id) == Some(q)
  }

  /** The event changes the parent of an issue, or the status of one with a parent. */
  ghost predicate FamilyChanges(truth: Truth, id: IssueId, p: Patch) {
    id in truth
    && var now := Merge(truth[id], p);
       now.parent != truth[id].parent || (now.parent.Some? && now.status != truth[id].status)
  }

  /** Progress that is not stale survives: it is invalidated whenever the event changes what it counts. */
  ghost predicate SparesProgress(s: State, truth: Truth, e: Event) {
    s.childProgress.data.None? || s.childProgress.stale
    || match e
       case IssueUpdated(id, p) => FamilyChanges(truth, id, p) ==> OldParent(s, id).Some? || NewParent(p).Some?
       case IssueDeleted(id) => id in truth && truth[id].parent.Some? ==> ParentInList(s.list.data, id).Some?
       case _ => true
  }

  ghost predicate Safe(s: State, truth: Truth, e: Event, x: Exempt) {
    && Addable(s, e)
    && (forall q :: q !in x.parents ==> SparesList(s, truth, e, q))
    && (x.progress || SparesProgress(s, truth, e))
  }

  /* ---- List and details ---- */

  lemma PatchedPart(m: FlatCache, truth: Truth, id: IssueId, p: Patch, exempt: set<IssueId>)
    requires PartOf(m, truth, exempt)
    ensures PartOf(FlatPatch(m, id, p), Amended(truth, id, p), exempt)
  {
  }

  lemma ListPatched(list: Entry<ListCache>, truth: Truth, id: IssueId, p: Patch, exempt: set<IssueId>)
    requires ListTracks(list.data, truth, exempt)
    ensures ListTracks(PatchedList(list, id, p).data, Amended(truth, id, p), exempt)
  {
    if list.data.Some? {
      PatchStep(list.data.value, id, p);
      PatchedPart(View(list.data.value), truth, id, p, exempt);
    }
  }

  lemma AddedPart(m: FlatCache, truth: Truth, i: Issue, exempt: set<IssueId>)
    requires PartOf(m, truth, exempt) && (i.id in truth ==> truth[i.id] == i)
    ensures PartOf(FlatAdd(m, i), truth[i.id := i], exempt)
    ensures i.id !in exempt ==> FlatMay(m, Add(i))
  {
  }

  lemma ListAdded(c: ListCache, truth: Truth, i: Issue, exempt: set<IssueId>)
    requires Inv(c) && PartOf(View(c), truth, exempt) && (i.id in truth ==> truth[i.id] == i)
    requires Listed(i.status) ==> MayAdd(c, i)
    ensures Inv(AddIssue(c, i)) && PartOf(View(AddIssue(c, i)), truth[i.id := i], exempt)
  {
    AddedPart(View(c), truth, i, exempt);
    AddStep(c, i);
  }

  lemma RemovedPart(m: FlatCache, truth: Truth, id: IssueId, exempt: set<IssueId>)
    requires PartOf(m, truth, exempt)
    ensures PartOf(FlatRemove(m, id), truth - {id}, exempt)
  {
  }

  lemma ListRemoved(c: ListCache, truth: Truth, id: IssueId, exempt: set<IssueId>)
    requires Inv(c) && PartOf(View(c), truth, exempt)
    ensures Inv(RemoveIssue(c, id)) && PartOf(View(RemoveIssue(c, id)), truth - {id}, exempt)
  {
    RemoveStep(c, id);
    RemovedPart(View(c), truth, id, exempt);
  }

  lemma DetailPatched(m: Entries<Issue>, truth: Truth, id: IssueId, p: Patch, exempt: set<IssueId>)
    requires DetailsTrack(m, truth, exempt)
    ensures DetailsTrack(PatchedDetails(m, id, p), Amended(truth, id, p), exempt)
  {
  }

  lemma CorePatched(s: State, truth: Truth, id: IssueId, p: Patch, s': State, exempt: set<IssueId>)
    requires CoreTracks(s, truth, exempt)
    requires s'.list == PatchedList(s.list, id, p) && s'.details == PatchedDetails(s.details, id, p)
    ensures CoreTracks(s', Amended(truth, id, p), exempt)
  {
    ListPatched(s.list, truth, id, p, exempt);
    DetailPatched(s.details, truth, id, p, exempt);
  }

  lemma DetailsAfterCreation(m: Entries<Issue>, truth: Truth, i: Issue, exempt: set<IssueId>)
    requires DetailsTrack(m, truth, exempt) && (i.id in truth ==> truth[i.id] == i)
    ensures DetailsTrack(m, truth[i.id := i], exempt)
  {
  }

  lemma CoreCreated(s: State, truth: Truth, i: Issue, exempt: set<IssueId>)
    requires CoreTracks(s, truth, exempt) && Plausible(truth, IssueCreated(i)) && Addable(s, IssueCreated(i))
    ensures CoreTracks(Created(s, i), truth[i.id := i], exempt)
  {
    DetailsAfterCreation(s.details, truth, i, exempt);
    if s.list.data.Some? { ListAdded(s.list.data.value, truth, i, exempt); }
  }

  lemma CoreDeleted(s: State, truth: Truth, id: IssueId, exempt: set<IssueId>)
    requires CoreTracks(s, truth, exempt)
    ensures CoreTracks(Deleted(s, id), truth - {id}, exempt)
  {
    if s.list.data.Some? { ListRemoved(s.list.data.value, truth, id, exempt); }
  }

  lemma CoreStep(s: State, truth: Truth, e: Event, exempt: set<IssueId>)
    requires CoreTracks(s, truth, exempt) && Plausible(truth, e) && Addable(s, e)
    ensures CoreTracks(Handle(s, e), Happens(truth, e), exempt)
  {
    match e
    case IssueCreated(i) => CoreCreated(s, truth, i, exempt);
    case IssueUpdated(id, p) => CorePatched(s, truth, id, p, Updated(s, id, p), exempt);
    case IssueLabels(id, labels) => CorePatched(s, truth, id, LabelsPatch(labels), LabelsChanged(s, id, labels), exempt);
    case IssueDeleted(id) => CoreDeleted(s, truth, id, exempt);
  }

  /** A creation that another column already shows breaks the list. */
  lemma CoreNeedsAddable(s: State, truth: Truth, e: Event, exempt: set<IssueId>)
    requires CoreTracks(s, truth, exempt) && CoreTracks(Handle(s, e), Happens(truth, e), exempt)
    ensures Addable(s, e)
  {
    if e.IssueCreated? && s.list.data.Some? && Listed(e.issue.status) {
      var c := s.list.data.value;
      if Has(Issues(c, e.issue.status), e.issue.id) {
        forall t | Listed(t) && t != e.issue.status ensures !Has(Issues(c, t), e.issue.id) {
          assert Apart(c, e.issue.status, t);
        }
      } else {
        AddKeepsInvIff(c, e.issue);
      }
    }
  }

  /** With nothing exempt a plausible creation is always taken. */
  lemma PlausibleIsAddable(s: State, truth: Truth, e: Event)
    requires CoreTracks(s, truth, {}) && Plausible(truth, e)
    ensures Addable(s, e)
  {
    if e.IssueCreated? && s.list.data.Some? && Listed(e.issue.status) {
      AddedPart(View(s.list.data.value), truth, e.issue, {});
      MayAddIsFlat(s.list.data.value, e.issue);
    }
  }

  ghost function HandleAll(s: State, es: seq<Event>): State {
    if |es| == 0 then s else Handle(HandleAll(s, es[..|es| - 1]), es[|es| - 1])
  }

  ghost function HappenAll(truth: Truth, es: seq<Event>): Truth {
    if |es| == 0 then truth else Happens(HappenAll(truth, es[..|es| - 1]), es[|es| - 1])
  }

  ghost predicate AllPlausible(truth: Truth, es: seq<Event>) {
    |es| == 0 || (AllPlausible(truth, es[..|es| - 1]) && Plausible(HappenAll(truth, es[..|es| - 1]), es[|es| - 1]))
  }

  /** Over every run of events the board and the issue page show the same, true issue. */
  lemma {:induction false} CoreRun(s: State, truth: Truth, es: seq<Event>)
    requires CoreTracks(s, truth, {}) && AllPlausible(truth, es)
    ensures CoreTracks(HandleAll(s, es), HappenAll(truth, es), {})
  {
    if |es| == 0 {
    } else {
      var front := es[..|es| - 1];
      CoreRun(s, truth, front);
      PlausibleIsAddable(HandleAll(s, front), HappenAll(truth, front), es[|es| - 1]);
      CoreStep(HandleAll(s, front), HappenAll(truth, front), es[|es| - 1], {});
    }
  }

  /* ---- One children list ---- */

  lemma PatchedCopiesIff(q: IssueId, issues: seq<Issue>, truth: Truth, id: IssueId, p: Patch)
    ensures CopiesAreTrue(q, PatchChildren(issues, id, p), Amended(truth, id, p)) <==> CopiesFit(q, issues, truth, id, p)
  {
    var r := PatchChildren(issues, id, p);
    if CopiesFit(q, issues, truth, id, p) {
      forall c | c in r ensures c.id in truth && c == Amended(truth, id, p)[c.id] && c.parent == Some(q) {
        var k :| 0 <= k < |r| && r[k] == c;
        assert issues[k] in issues;
      }
    } else {
      var c :| c in issues && !(c.id in truth && if c.id == id then Merge(c, p) == Merge(truth[id], p) && Merge(c, p).parent == Some(q)
                                                 else c == truth[c.id] && c.parent == Some(q));
      var k :| 0 <= k < |issues| && issues[k] == c;
      assert r[k] in r;
    }
  }

  lemma PatchKeepsMembers(issues: seq<Issue>, id: IssueId, p: Patch, x: IssueId)
    ensures Has(PatchChildren(issues, id, p), x) <==> Has(issues, x)
  {
    var r := PatchChildren(issues, id, p);
    if Has(issues, x) {
      var c :| c in issues && c.id == x;
      var k :| 0 <= k < |issues| && issues[k] == c;
      assert r[k] in r && r[k].id == x;
    }
    if Has(r, x) {
      var c :| c in r && c.id == x;
      var k :| 0 <= k < |r| && r[k] == c;
      assert issues[k] in issues && issues[k].id == x;
    }
  }

  /** A list patched in place is true afterwards exactly when it fits. */
  lemma PatchedListIff(q: IssueId, issues: seq<Issue>, truth: Truth, id: IssueId, p: Patch)
    ensures ChildListTracks(q, PatchChildren(issues, id, p), Amended(truth, id, p)) <==> FitsAfter(q, issues, truth, id, p)
  {
    PatchedCopiesIff(q, issues, truth, id, p);
    forall x ensures Has(PatchChildren(issues, id, p), x) <==> Has(issues, x) { PatchKeepsMembers(issues, id, p, x); }
  }

  lemma KeptCopiesIff(q: IssueId, issues: seq<Issue>, truth: Truth, id: IssueId, p: Patch)
    requires CopiesAreTrue(q, issues, truth)
    ensures CopiesAreTrue(q, issues, Amended(truth, id, p)) <==> !(Has(issues, id) && Changes(truth, id, p))
  {
    if Has(issues, id) && Changes(truth, id, p) {
      var c :| c in issues && c.id == id;
      assert c != Amended(truth, id, p)[id];
    }
  }

  /** A list left as it is, of a parent the issue does not move to, stays true exactly when it holds no
      copy that changes. */
  lemma KeptListIff(q: IssueId, issues: seq<Issue>, truth: Truth, id: IssueId, p: Patch)
    requires ChildListTracks(q, issues, truth) && NewParent(p) != Some(q)
    ensures ChildListTracks(q, issues, Amended(truth, id, p)) <==> !(Has(issues, id) && Changes(truth, id, p))
  {
    KeptCopiesIff(q, issues, truth, id, p);
  }

  /** The list of the old parent: invalidated after a move, patched and fresh otherwise. */
  lemma OldParentsList(s: State, id: IssueId, p: Patch, q: IssueId)
    requires OldParent(s, id) == Some(q)
    ensures Fresh(Updated(s, id, p).children, q) <==> !ParentChanged(s, id, p) && DataAt(s.children, q).Some?
    ensures !ParentChanged(s, id, p) && DataAt(s.children, q).Some? ==>
              DataAt(Updated(s, id, p).children, q) == Some(PatchChildren(DataAt(s.children, q).value, id, p))
  {
  }

  /** Any other list: left as it is, or invalidated when the issue moves there. */
  lemma OtherParentsList(s: State, id: IssueId, p: Patch, q: IssueId)
    requires OldParent(s, id) != Some(q)
    ensures Fresh(Updated(s, id, p).children, q)
       <==> Fresh(s.children, q) && !(ParentChanged(s, id, p) && NewParent(p) == Some(q))
    ensures Fresh(s.children, q) ==> DataAt(Updated(s, id, p).children, q) == DataAt(s.children, q)
  {
  }

  lemma UpdatedListIff(s: State, truth: Truth, id: IssueId, p: Patch, q: IssueId)
    requires FreshListTracks(s.children, q, truth)
    ensures FreshListTracks(Updated(s, id, p).children, q, Amended(truth, id, p)) <==> UpdateSparesList(s, truth, id, p, q)
  {
    if OldParent(s, id) == Some(q) {
      OldParentsList(s, id, p, q);
      if DataAt(s.children, q).Some? { PatchedListIff(q, DataAt(s.children, q).value, truth, id, p); }
    } else {
      OtherParentsList(s, id, p, q);
      if Fresh(s.children, q) && NewParent(p) != Some(q) { KeptListIff(q, DataAt(s.children, q).value, truth, id, p); }
    }
  }

  /** A deletion drops the issue's own children list and invalidates that of the parent found in the list. */
  lemma ListAfterDeletion(s: State, id: IssueId, q: IssueId)
    ensures Fresh(Deleted(s, id).children, q)
       <==> q != id && Fresh(s.children, q) && ParentInList(s.list.data, id) != Some(q)
    ensures q != id && Fresh(s.children, q) ==> DataAt(Deleted(s, id).children, q) == DataAt(s.children, q)
  {
  }

  lemma DeletedListIff(s: State, truth: Truth, id: IssueId, q: IssueId)
    requires FreshListTracks(s.children, q, truth)
    ensures FreshListTracks(Deleted(s, id).children, q, truth - {id}) <==> SparesList(s, truth, IssueDeleted(id), q)
  {
    ListAfterDeletion(s, id, q);
  }

  /** The children list of a created issue's parent is stale; the others are as they were. */
  lemma ListAfterCreation(s: State, i: Issue, q: IssueId)
    ensures Fresh(Created(s, i).children, q) <==> Fresh(s.children, q) && i.parent != Some(q)
    ensures DataAt(Created(s, i).children, q) == DataAt(s.children, q)
  {
  }

  lemma CreatedListTracks(s: State, truth: Truth, i: Issue, q: IssueId)
    requires FreshListTracks(s.children, q, truth) && Plausible(truth, IssueCreated(i))
    ensures FreshListTracks(Created(s, i).children, q, truth[i.id := i])
  {
    ListAfterCreation(s, i, q);
  }

  lemma ListStepIff(s: State, truth: Truth, e: Event, q: IssueId)
    requires FreshListTracks(s.children, q, truth) && Plausible(truth, e)
    ensures FreshListTracks(Handle(s, e).children, q, Happens(truth, e)) <==> SparesList(s, truth, e, q)
  {
    match e
    case IssueCreated(i) => CreatedListTracks(s, truth, i, q);
    case IssueUpdated(id, p) => UpdatedListIff(s, truth, id, p, q);
    case IssueLabels(id, labels) =>
      if Fresh(s.children, q) { KeptListIff(q, DataAt(s.children, q).value, truth, id, LabelsPatch(labels)); }
    case IssueDeleted(id) => DeletedListIff(s, truth, id, q);
  }

  /* ---- All caches ---- */

  lemma ChildrenStepIff(s: State, truth: Truth, e: Event, exempt: set<IssueId>)
    requires ChildrenTrack(s.children, truth, exempt) && Plausible(truth, e)
    ensures ChildrenTrack(Handle(s, e).children, Happens(truth, e), exempt)
       <==> forall q :: q !in exempt ==> SparesList(s, truth, e, q)
  {
    forall q | q !in exempt
      ensures FreshListTracks(Handle(s, e).children, q, Happens(truth, e)) <==> SparesList(s, truth, e, q)
    {
      assert FreshListTracks(s.children, q, truth);
      ListStepIff(s, truth, e, q);
    }
  }

  /** No my-issues list counts as current after an event. */
  lemma MyListsGoStale(s: State, e: Event)
    ensures Handle(s, e).myLists.Keys == s.myLists.Keys
    ensures forall k :: k in s.myLists ==> Handle(s, e).myLists[k] == s.myLists[k].(stale := true)
  {
  }

  lemma FamilyAmendedIff(truth: Truth, id: IssueId, p: Patch)
    ensures FamilyOf(Amended(truth, id, p)) == FamilyOf(truth) <==> !FamilyChanges(truth, id, p)
  {
    var f, f' := FamilyOf(truth), FamilyOf(Amended(truth, id, p));
    if FamilyChanges(truth, id, p) {
      assert (id in f) != (id in f') || (id in f && f[id] != f'[id]);
    } else {
      forall x ensures x in f <==> x in f' ensures x in f ==> f[x] == f'[x] {}
    }
  }

  lemma FamilyAfterDeletionIff(truth: Truth, id: IssueId)
    ensures FamilyOf(truth - {id}) == FamilyOf(truth) <==> !(id in truth && truth[id].parent.Some?)
  {
    if id in truth && truth[id].parent.Some? {
      assert id in FamilyOf(truth) && id !in FamilyOf(truth - {id});
    }
  }

  lemma FamilyAfterCreation(truth: Truth, i: Issue)
    requires i.parent.None? && (i.id in truth ==> truth[i.id] == i)
    ensures FamilyOf(truth[i.id := i]) == FamilyOf(truth)
  {
  }

  lemma ProgressUpdateIff(s: State, truth: Truth, id: IssueId, p: Patch)
    requires ProgressTracks(s.childProgress, truth)
    ensures ProgressTracks(Updated(s, id, p).childProgress, Amended(truth, id, p)) <==> SparesProgress(s, truth, IssueUpdated(id, p))
  {
    FamilyAmendedIff(truth, id, p);
  }

  lemma ProgressStepIff(s: State, truth: Truth, e: Event)
    requires ProgressTracks(s.childProgress, truth) && Plausible(truth, e)
    ensures ProgressTracks(Handle(s, e).childProgress, Happens(truth, e)) <==> SparesProgress(s, truth, e)
  {
    match e
    case IssueCreated(i) => if i.parent.None? { FamilyAfterCreation(truth, i); }
    case IssueUpdated(id, p) => ProgressUpdateIff(s, truth, id, p);
    case IssueLabels(id, labels) => FamilyAmendedIff(truth, id, LabelsPatch(labels));
    case IssueDeleted(id) => FamilyAfterDeletionIff(truth, id);
  }

  /** The exact condition under which an event keeps the caches coherent, whatever is exempt. */
  lemma {:induction false} StepCoherentIff(s: State, truth: Truth, e: Event, x: Exempt)
    requires TracksExcept(s, truth, x) && Plausible(truth, e)
    ensures TracksExcept(Handle(s, e), Happens(truth, e), x) <==> Safe(s, truth, e, x)
  {
    ChildrenStepIff(s, truth, e, x.parents);
    MyListsGoStale(s, e);
    if !x.progress { ProgressStepIff(s, truth, e); }
    if Addable(s, e) {
      CoreStep(s, truth, e, x.issues);
    } else if CoreTracks(Handle(s, e), Happens(truth, e), x.issues) {
      CoreNeedsAddable(s, truth, e, x.issues);
    }
  }

  /** From coherent caches, an event keeps them coherent exactly when it spares every children list
      and the progress of parents. */
  lemma {:induction false} EventCoherentIff(s: State, truth: Truth, e: Event)
    requires Tracks(s, truth) && Plausible(truth, e)
    ensures Tracks(Handle(s, e), Happens(truth, e)) <==> SparesProgress(s, truth, e) && forall q :: SparesList(s, truth, e, q)
  {
    PlausibleIsAddable(s, truth, e);
    StepCoherentIff(s, truth, e, NOTHING);
  }

  /** An update of an issue that the detail or a listed bucket holds leaves the list, the detail and
      every non-stale children copy equal to the new record exactly when the issue moves, has no
      parent, its parent's list is not cached, or patching that list in place makes it true and complete. */
  lemma {:induction false} HeldUpdateCoherentIff(s: State, truth: Truth, id: IssueId, p: Patch)
    requires Tracks(s, truth) && Held(s, id)
    ensures Tracks(Updated(s, id, p), Happens(truth, IssueUpdated(id, p)))
       <==> || ParentChanged(s, id, p) || OldParent(s, id).None? || DataAt(s.children, OldParent(s, id).value).None?
            || FitsAfter(OldParent(s, id).value, DataAt(s.children, OldParent(s, id).value).value, truth, id, p)
  {
    EventCoherentIff(s, truth, IssueUpdated(id, p));
    OldParentIsTrue(s, truth, id);
    forall q | OldParent(s, id) != Some(q) ensures UpdateSparesList(s, truth, id, p, q) {
      assert FreshListTracks(s.children, q, truth);
      if ChildCopy(s, q, id) { ChildCopyParent(s, truth, q, id); }
    }
    if OldParent(s, id).Some? {
      assert SparesList(s, truth, IssueUpdated(id, p), OldParent(s, id).value)
        <==> UpdateSparesList(s, truth, id, p, OldParent(s, id).value);
    }
    assert SparesProgress(s, truth, IssueUpdated(id, p));
  }

  /** An update of an issue in neither list nor detail: exactly when every fresh children list with a
      copy is that of the parent the event names, or the event changes nothing; and fresh progress needs
      the event to name a parent if it changes what is counted. */
  lemma {:induction false} UnheldUpdateCoherentIff(s: State, truth: Truth, id: IssueId, p: Patch)
    requires Tracks(s, truth) && !Held(s, id)
    ensures Tracks(Updated(s, id, p), Happens(truth, IssueUpdated(id, p)))
       <==> && (forall q :: ChildCopy(s, q, id) ==> !Changes(truth, id, p) || NewParent(p) == Some(q))
            && (s.childProgress.data.None? || s.childProgress.stale || !FamilyChanges(truth, id, p) || NewParent(p).Some?)
  {
    EventCoherentIff(s, truth, IssueUpdated(id, p));
    OldParentIsTrue(s, truth, id);
    forall q
      ensures SparesList(s, truth, IssueUpdated(id, p), q)
         <==> (ChildCopy(s, q, id) ==> !Changes(truth, id, p) || NewParent(p) == Some(q))
    {
    }
  }

  /** Caches that agree everywhere, stale children lists included, stay coherent under every update
      of a held issue, whether or not status or parent changed. */
  lemma {:induction false} UpdateFromFullAgreement(s: State, truth: Truth, id: IssueId, p: Patch)
    requires Tracks(s, truth) && Held(s, id)
    requires forall q :: DataAt(s.children, q).Some? ==> ChildListTracks(q, DataAt(s.children, q).value, truth)
    ensures Tracks(Updated(s, id, p), Happens(truth, IssueUpdated(id, p)))
  {
    HeldUpdateCoherentIff(s, truth, id, p);
    OldParentIsTrue(s, truth, id);
    if OldParent(s, id).Some? && !ParentChanged(s, id, p) {
      var q := OldParent(s, id).value;
      if DataAt(s.children, q).Some? { TrueListFits(q, DataAt(s.children, q).value, truth, id, p); }
    }
  }

  lemma TrueListFits(q: IssueId, issues: seq<Issue>, truth: Truth, id: IssueId, p: Patch)
    requires ChildListTracks(q, issues, truth) && id in truth && truth[id].parent == Some(q)
    requires p.parent.Some? ==> NewParent(p) == Some(q)
    ensures FitsAfter(q, issues, truth, id, p)
  {
  }

  /** The copies of one issue: all that the list, the detail and the fresh children lists hold are equal. */
  lemma CopiesAgree(s: State, truth: Truth, id: IssueId, q: IssueId, c: Issue)
    requires Tracks(s, truth) && Fresh(s.children, q) && c in DataAt(s.children, q).value && c.id == id
    ensures Shown(s, id) ==> View(s.list.data.value)[id] == c
    ensures DataAt(s.details, id).Some? ==> DataAt(s.details, id).value == c
    ensures c.parent == Some(q)
  {
    assert FreshListTracks(s.children, q, truth);
  }

  /** Patching a stale children list marks it fresh, so a wrong copy of a sibling comes back as if
      it were current. */
  lemma {:induction false} StaleListRevived(s: State, truth: Truth, id: IssueId, p: Patch, sibling: Issue)
    requires Tracks(s, truth) && Held(s, id) && !ParentChanged(s, id, p) && OldParent(s, id).Some?
    requires var q := OldParent(s, id).value;
             DataAt(s.children, q).Some? && sibling in DataAt(s.children, q).value
    requires sibling.id != id && (sibling.id in truth ==> truth[sibling.id] != sibling)
    ensures var q := OldParent(s, id).value;
            Fresh(Updated(s, id, p).children, q) && sibling in DataAt(Updated(s, id, p).children, q).value
    ensures !Tracks(Updated(s, id, p), Happens(truth, IssueUpdated(id, p)))
  {
    var q := OldParent(s, id).value;
    var issues := DataAt(s.children, q).value;
    OldParentsList(s, id, p, q);
    var k :| 0 <= k < |issues| && issues[k] == sibling;
    assert PatchChildren(issues, id, p)[k] == sibling;
    HeldUpdateCoherentIff(s, truth, id, p);
  }

  /** Such a state: a board that is not loaded, a detail for `a`, and a stale list of its parent's
      children with `a` and an outdated copy of `b`. */
  lemma StaleListExample() returns (s: State, truth: Truth, id: IssueId, p: Patch, sibling: Issue)
    ensures Tracks(s, truth) && Held(s, id) && !ParentChanged(s, id, p) && OldParent(s, id).Some?
    ensures DataAt(s.children, OldParent(s, id).value).Some? && sibling in DataAt(s.children, OldParent(s, id).value).value
    ensures sibling.id != id && sibling.id in truth && truth[sibling.id] != sibling
    ensures !Tracks(Updated(s, id, p), Happens(truth, IssueUpdated(id, p)))
  {
    id := IssueId("a");
    var q := IssueId("q");
    var a := Issue(id, Todo, Some(q), map[]);
    var b := Issue(IssueId("b"), Done, Some(q), map[]);
    sibling := b.(status := Todo);
    truth := map[id := a, b.id := b];
    p := Patch(Some(Done), None, map[]);
    s := State(Entry(None, false), map[], map[id := Entry(Some(a), false)],
               map[q := Entry(Some([a, sibling]), true)], Entry(None, false));
    assert DataAt(s.children, q).value[1] == sibling;
    assert forall r :: !Fresh(s.children, r);
    StaleListRevived(s, truth, id, p, sibling);
  }

  /** A deletion keeps the caches coherent exactly when the list shows the issue, or no fresh children
      list has it and fresh progress does not count it: the parent is looked up in the list only, never in
      the detail. */
  lemma {:induction false} DeleteCoherentIff(s: State, truth: Truth, id: IssueId)
    requires Tracks(s, truth)
    ensures Tracks(Deleted(s, id), Happens(truth, IssueDeleted(id)))
       <==> || Shown(s, id)
            || ((forall q :: q != id ==> !ChildCopy(s, q, id))
                && (s.childProgress.data.None? || s.childProgress.stale || id !in truth || truth[id].parent.None?))
  {
    EventCoherentIff(s, truth, IssueDeleted(id));
    OldParentIsTrue(s, truth, id);
    forall q ensures SparesList(s, truth, IssueDeleted(id), q) <==> q == id || !ChildCopy(s, q, id) || Shown(s, id) {
      assert FreshListTracks(s.children, q, truth);
      if ChildCopy(s, q, id) { ChildCopyParent(s, truth, q, id); }
    }
  }

  /** A label event keeps the caches coherent exactly when it changes nothing or no
      fresh children list has the issue, because it does not write those lists. */
  lemma {:induction false} LabelsCoherentIff(s: State, truth: Truth, id: IssueId, labels: string)
    requires Tracks(s, truth)
    ensures Tracks(LabelsChanged(s, id, labels), Happens(truth, IssueLabels(id, labels)))
       <==> !Changes(truth, id, LabelsPatch(labels)) || forall q :: !ChildCopy(s, q, id)
  {
    EventCoherentIff(s, truth, IssueLabels(id, labels));
    forall q ensures SparesList(s, truth, IssueLabels(id, labels), q)
                <==> (ChildCopy(s, q, id) ==> !Changes(truth, id, LabelsPatch(labels))) {}
  }

  lemma {:induction false} CreateKeepsCoherence(s: State, truth: Truth, i: Issue)
    requires Tracks(s, truth) && Plausible(truth, IssueCreated(i))
    ensures Tracks(Created(s, i), Happens(truth, IssueCreated(i)))
  {
    EventCoherentIff(s, truth, IssueCreated(i));
    assert forall q :: SparesList(s, truth, IssueCreated(i), q);
  }

  /* ---- Whole runs ---- */

  ghost predicate AllSafe(s: State, truth: Truth, es: seq<Event>, x: Exempt) {
    |es| == 0
    || (AllSafe(s, truth, es[..|es| - 1], x)
        && Safe(HandleAll(s, es[..|es| - 1]), HappenAll(truth, es[..|es| - 1]), es[|es| - 1], x))
  }

  /** The caches agree with the server at the start and after every event. */
  ghost predicate AlwaysTracks(s: State, truth: Truth, es: seq<Event>, x: Exempt) {
    TracksExcept(HandleAll(s, es), HappenAll(truth, es), x)
    && (|es| > 0 ==> AlwaysTracks(s, truth, es[..|es| - 1], x))
  }

  /** Over a run list, details and fresh children lists agree with the server at every moment, hence
      with each other, exactly when every event in it is safe. */
  lemma {:induction false} CoherenceOverRunsIff(s: State, truth: Truth, es: seq<Event>, x: Exempt)
    requires TracksExcept(s, truth, x) && AllPlausible(truth, es)
    ensures AlwaysTracks(s, truth, es, x) <==> AllSafe(s, truth, es, x)
  {
    if |es| == 0 {
    } else {
      var front := es[..|es| - 1];
      CoherenceOverRunsIff(s, truth, front, x);
      if AlwaysTracks(s, truth, front, x) {
        LastTracks(s, truth, front, x);
        StepCoherentIff(HandleAll(s, front), HappenAll(truth, front), es[|es| - 1], x);
      }
    }
  }

  lemma LastTracks(s: State, truth: Truth, es: seq<Event>, x: Exempt)
    requires AlwaysTracks(s, truth, es, x)
    ensures TracksExcept(HandleAll(s, es), HappenAll(truth, es), x)
  {
  }
}
