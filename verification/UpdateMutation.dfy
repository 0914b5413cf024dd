/** The optimistic issue update: what an error undoes and what settling guarantees. */
module UpdateMutation {
  import opened Options
  import opened IssueCache
  import opened BucketRefinement
  import opened QueryCache
  import opened CacheCoherence

  /* ---- Rollback ---- */

  function FreshAt<T>(m: Entries<T>, id: IssueId): Entries<T> {
    if DataAt(m, id).Some? then m[id := m[id].(stale := false)] else m
  }

  /** The state with the three entries an update writes marked fresh, where they hold data. */
  function TouchedFresh(s: State, id: IssueId): State {
    s.(list := if s.list.data.Some? then s.list.(stale := false) else s.list,
       details := FreshAt(s.details, id),
       children := if OldParent(s, id).Some? then FreshAt(s.children, OldParent(s, id).value) else s.children)
  }

  /** An error with no write in between restores list, detail and the old parent's
      children exactly, whether they were cached or absent, and touches nothing else;
      only the stale marks of the rewritten entries are gone. */
  lemma RollbackIsExact(s: State, id: IssueId, p: Patch)
    ensures RolledBack(Mutated(s, id, p), ContextOf(s, id)) == TouchedFresh(s, id)
  {
    var s' := RolledBack(Mutated(s, id, p), ContextOf(s, id));
    DetailRestored(s.details, id, p);
    if OldParent(s, id).Some? { ChildrenRestored(s.children, OldParent(s, id).value, id, p); }
  }

  lemma DetailRestored(m: Entries<Issue>, id: IssueId, p: Patch)
    ensures var d := DataAt(m, id);
            (if d.Some? then SetAt(PatchedDetails(m, id, p), id, d.value) else PatchedDetails(m, id, p)) == FreshAt(m, id)
  {
  }

  lemma ChildrenRestored(m: Entries<seq<Issue>>, q: IssueId, id: IssueId, p: Patch)
    ensures var d := DataAt(m, q);
            (if d.Some? then SetAt(PatchedChildrenOf(m, q, id, p), q, d.value) else PatchedChildrenOf(m, q, id, p)) == FreshAt(m, q)
  {
  }

  /** In terms of data alone: nothing the user can see differs from before the attempt. */
  lemma RollbackRestoresData(s: State, id: IssueId, p: Patch)
    ensures var s' := RolledBack(Mutated(s, id, p), ContextOf(s, id));
            && s'.list.data == s.list.data && s'.details.Keys == s.details.Keys && s'.children.Keys == s.children.Keys
            && (forall x :: DataAt(s'.details, x) == DataAt(s.details, x))
            && (forall q :: DataAt(s'.children, q) == DataAt(s.children, q))
            && s'.myLists == s.myLists && s'.childProgress == s.childProgress
  {
    RollbackIsExact(s, id, p);
  }

  /** The children list of the old parent, if cached, is true, stale or not. */
  ghost predicate OldListTrue(s: State, truth: Truth, id: IssueId) {
    OldParent(s, id).Some? && DataAt(s.children, OldParent(s, id).value).Some? ==>
      ChildListTracks(OldParent(s, id).value, DataAt(s.children, OldParent(s, id).value).value, truth)
  }

  /** Rolling back keeps coherence with a server that did not change exactly when the children list
      of the old parent was true: the write marks it fresh even if it was stale. */
  lemma {:induction false} RollbackCoherentIff(s: State, truth: Truth, id: IssueId, p: Patch)
    requires Tracks(s, truth)
    ensures Tracks(RolledBack(Mutated(s, id, p), ContextOf(s, id)), truth) <==> OldListTrue(s, truth, id)
  {
    RollbackIsExact(s, id, p);
    RefreshedDetails(s.details, id, truth);
    if OldParent(s, id).Some? { RefreshedTracksIff(s.children, OldParent(s, id).value, truth); }
  }

  lemma RefreshedTracksIff(m: Entries<seq<Issue>>, parent: IssueId, truth: Truth)
    requires ChildrenTrack(m, truth, {})
    ensures ChildrenTrack(FreshAt(m, parent), truth, {})
       <==> (DataAt(m, parent).Some? ==> ChildListTracks(parent, DataAt(m, parent).value, truth))
  {
    var m' := FreshAt(m, parent);
    assert FreshListTracks(m', parent, truth)
      <==> (DataAt(m, parent).Some? ==> ChildListTracks(parent, DataAt(m, parent).value, truth));
    forall q | q != parent ensures FreshListTracks(m', q, truth) {
      assert FreshListTracks(m, q, truth);
    }
  }

  lemma RefreshedDetails(m: Entries<Issue>, id: IssueId, truth: Truth)
    requires DetailsTrack(m, truth, {})
    ensures DetailsTrack(FreshAt(m, id), truth, {})
  {
  }

  /* ---- Settling ---- */

  ghost predicate StaleAt<T>(m: Entries<T>, id: IssueId) {
    id in m ==> m[id].stale
  }

  /** After settling, every entry the optimistic patch wrote, and the children list of
      a new parent, is stale if it exists: the next read fetches it from the server. */
  ghost predicate AllStale(s: State, p: Patch, ctx: Context) {
    && s.list.stale && StaleAt(s.details, ctx.id)
    && (ctx.parentId.Some? ==> StaleAt(s.children, ctx.parentId.value) && s.childProgress.stale)
    && (NewParent(p).Some? ==> StaleAt(s.children, NewParent(p).value))
    && (NewParent(p).Some? && NewParent(p) != ctx.parentId ==> s.childProgress.stale)
  }

  lemma SettledIsStale(s: State, p: Patch, ctx: Context)
    ensures AllStale(Settled(s, p, ctx), p, ctx)
  {
  }

  /** What the optimistic patch wrote is what settling marks. */
  lemma OnlyTheseWereWritten(s: State, id: IssueId, p: Patch)
    ensures var s', ctx := Mutated(s, id, p), ContextOf(s, id);
            && ctx.id == id
            && (forall x :: x != id ==> (x in s'.details <==> x in s.details))
            && (forall x :: x != id && x in s.details ==> s'.details[x] == s.details[x])
            && (forall q :: ctx.parentId != Some(q) ==> (q in s'.children <==> q in s.children))
            && (forall q :: ctx.parentId != Some(q) && q in s.children ==> s'.children[q] == s.children[q])
            && s'.myLists == s.myLists && s'.childProgress == s.childProgress
  {
  }

  /* ---- The whole mutation ---- */

  /** Every entry that is not marked stale is true. */
  ghost predicate FreshIsTrue(s: State, truth: Truth) {
    && (!s.list.stale ==> ListTracks(s.list.data, truth, {}))
    && (forall x :: DataAt(s.details, x).Some? && !s.details[x].stale ==> x in truth && s.details[x].data.value == truth[x])
    && ChildrenTrack(s.children, truth, {})
    && MyListsTrack(s.myLists, truth)
    && ProgressTracks(s.childProgress, truth)
  }

  /** What an update may leave wrong until it settles: its issue, the children lists of the parent it
      remembers and of the parent it names, and with either the progress of parents. */
  function Unsettled(s: State, id: IssueId, p: Patch): Exempt {
    Exempt({id}, ParentSet(OldParent(s, id)) + ParentSet(NewParent(p)), OldParent(s, id).Some? || NewParent(p).Some?)
  }

  function ParentSet(q: Option<IssueId>): set<IssueId> { if q.Some? then {q.value} else {} }

  /** The optimistic patch is wrong in these places only. */
  lemma {:induction false} MutatedTracksExcept(s: State, truth: Truth, id: IssueId, p: Patch)
    requires Tracks(s, truth)
    ensures TracksExcept(Mutated(s, id, p), truth, Unsettled(s, id, p))
  {
    if s.list.data.Some? {
      PatchStep(s.list.data.value, id, p);
      PatchedApart(View(s.list.data.value), truth, id, p);
    }
    DetailPatchedApart(s.details, truth, id, p);
    forall q | q !in Unsettled(s, id, p).parents ensures FreshListTracks(Mutated(s, id, p).children, q, truth) {
      assert FreshListTracks(s.children, q, truth);
    }
  }

  lemma PatchedApart(m: FlatCache, truth: Truth, id: IssueId, p: Patch)
    requires PartOf(m, truth, {})
    ensures PartOf(FlatPatch(m, id, p), truth, {id})
  {
  }

  lemma DetailPatchedApart(m: Entries<Issue>, truth: Truth, id: IssueId, p: Patch)
    requires DetailsTrack(m, truth, {})
    ensures DetailsTrack(PatchedDetails(m, id, p), truth, {id})
  {
  }

  /** After the outcome, successful or rolled back, other details and other children lists are still true.
      (A rollback writes back the list as it was before the events.) */
  lemma OutcomeTracks(s: State, truth: Truth, ctx: Context, parents: set<IssueId>, failed: bool)
    requires DetailsTrack(s.details, truth, {ctx.id}) && ChildrenTrack(s.children, truth, parents)
    requires ParentSet(ctx.parentId) <= parents
    ensures var s' := if failed then RolledBack(s, ctx) else s;
            && DetailsTrack(s'.details, truth, {ctx.id}) && ChildrenTrack(s'.children, truth, parents)
            && s'.myLists == s.myLists && s'.childProgress == s.childProgress
  {
    var s' := if failed then RolledBack(s, ctx) else s;
    forall q | q !in parents ensures FreshListTracks(s'.children, q, truth) {
      assert FreshListTracks(s.children, q, truth);
    }
  }

  lemma SettledChildren(s: State, truth: Truth, p: Patch, ctx: Context)
    requires ChildrenTrack(s.children, truth, ParentSet(ctx.parentId) + ParentSet(NewParent(p)))
    ensures ChildrenTrack(Settled(s, p, ctx).children, truth, {})
  {
    var exempt := ParentSet(ctx.parentId) + ParentSet(NewParent(p));
    forall q ensures FreshListTracks(Settled(s, p, ctx).children, q, truth) {
      if q in exempt {
        assert !Fresh(Settled(s, p, ctx).children, q);
      } else {
        assert FreshListTracks(s.children, q, truth);
      }
    }
  }

  lemma SettledDetails(s: State, truth: Truth, p: Patch, ctx: Context)
    requires DetailsTrack(s.details, truth, {ctx.id})
    ensures DetailsTrack(Settled(s, p, ctx).details, truth, {ctx.id})
    ensures DataAt(Settled(s, p, ctx).details, ctx.id).Some? ==> Settled(s, p, ctx).details[ctx.id].stale
  {
  }

  lemma SettledFrom(s: State, truth: Truth, p: Patch, ctx: Context)
    requires DetailsTrack(s.details, truth, {ctx.id})
    requires ChildrenTrack(s.children, truth, ParentSet(ctx.parentId) + ParentSet(NewParent(p)))
    requires MyListsTrack(s.myLists, truth)
    requires ctx.parentId.Some? || NewParent(p).Some? || ProgressTracks(s.childProgress, truth)
    ensures FreshIsTrue(Settled(s, p, ctx), truth) && DetailsTrack(Settled(s, p, ctx).details, truth, {ctx.id})
    ensures AllStale(Settled(s, p, ctx), p, ctx)
  {
    SettledDetails(s, truth, p, ctx);
    SettledChildren(s, truth, p, ctx);
    SettledIsStale(s, p, ctx);
  }

  /** The state in which the outcome of the mutation arrives. */
  ghost function AtOutcome(s: State, id: IssueId, p: Patch, es: seq<Event>): State { HandleAll(Mutated(s, id, p), es) }

  ghost function AfterSettling(s: State, id: IssueId, p: Patch, es: seq<Event>, failed: bool): State {
    var ctx := ContextOf(s, id);
    Settled(if failed then RolledBack(AtOutcome(s, id, p, es), ctx) else AtOutcome(s, id, p, es), p, ctx)
  }

  lemma OutcomeTracksExcept(s: State, truth: Truth, id: IssueId, p: Patch, es: seq<Event>)
    requires Tracks(s, truth) && AllPlausible(truth, es)
    requires AllSafe(Mutated(s, id, p), truth, es, Unsettled(s, id, p))
    ensures TracksExcept(AtOutcome(s, id, p, es), HappenAll(truth, es), Unsettled(s, id, p))
  {
    MutatedTracksExcept(s, truth, id, p);
    CoherenceOverRunsIff(Mutated(s, id, p), truth, es, Unsettled(s, id, p));
    LastTracks(Mutated(s, id, p), truth, es, Unsettled(s, id, p));
  }

  /** The optimistic update from start to end: from coherent caches, after the attempt, any run of safe
      events, success or rollback, and settling, every entry that is not marked stale is the record
      last announced by the server, every detail but the issue's own is, and what the attempt wrote is
      marked stale.  Until then parents may be read from optimistic data, so an event is safe when it
      spares the children lists that settling will not mark. */
  lemma {:induction false} SettledIsTrue(s: State, truth: Truth, id: IssueId, p: Patch, es: seq<Event>, failed: bool)
    requires Tracks(s, truth) && AllPlausible(truth, es)
    requires AllSafe(Mutated(s, id, p), truth, es, Unsettled(s, id, p))
    ensures FreshIsTrue(AfterSettling(s, id, p, es, failed), HappenAll(truth, es))
    ensures DetailsTrack(AfterSettling(s, id, p, es, failed).details, HappenAll(truth, es), {id})
    ensures AllStale(AfterSettling(s, id, p, es, failed), p, ContextOf(s, id))
  {
    var ctx := ContextOf(s, id);
    var s1, truth1 := AtOutcome(s, id, p, es), HappenAll(truth, es);
    OutcomeTracksExcept(s, truth, id, p, es);
    OutcomeTracks(s1, truth1, ctx, Unsettled(s, id, p).parents, failed);
    SettledFrom(if failed then RolledBack(s1, ctx) else s1, truth1, p, ctx);
  }

  /** Some list that is not stale has the issue. */
  ghost predicate SeenElsewhere(s: State, id: IssueId) {
    || (exists q :: ChildCopy(s, q, id))
    || (exists k :: k in s.myLists && !s.myLists[k].stale && s.myLists[k].data.Some? && id in View(s.myLists[k].data.value))
  }

  /** Before the server has announced the update it applied, the same entries are true of the record it
      holds already exactly when the update changes nothing, or no children or my-issues list that is not
      stale has the issue and no progress that is not stale counts what changes. */
  lemma {:induction false} SettledBeforeEchoIff(s: State, truth: Truth, id: IssueId, p: Patch, es: seq<Event>)
    requires Tracks(s, truth) && AllPlausible(truth, es)
    requires AllSafe(Mutated(s, id, p), truth, es, Unsettled(s, id, p))
    ensures FreshIsTrue(AfterSettling(s, id, p, es, false), Amended(HappenAll(truth, es), id, p))
       <==> || !Changes(HappenAll(truth, es), id, p)
            || (!SeenElsewhere(AfterSettling(s, id, p, es, false), id)
                && (ProgressStale(AfterSettling(s, id, p, es, false)) || !FamilyChanges(HappenAll(truth, es), id, p)))
  {
    SettledIsTrue(s, truth, id, p, es, false);
    AnnouncedLater(AfterSettling(s, id, p, es, false), HappenAll(truth, es), id, p);
  }

  lemma ParentInPatchedList(c: ListCache, id: IssueId, p: Patch)
    requires Inv(c)
    ensures ParentInList(Some(PatchIssue(c, id, p)), id) in [None, NewParent(p), ParentInList(Some(c), id)]
  {
    PatchStep(c, id, p);
    ViewIs(c, id);
    ViewIs(PatchIssue(c, id, p), id);
  }

  lemma ParentAfterMutation(s: State, id: IssueId, p: Patch)
    requires s.list.data.Some? ==> Inv(s.list.data.value)
    ensures OldParent(Mutated(s, id, p), id) in [None, OldParent(s, id), NewParent(p), ParentInList(s.list.data, id)]
  {
    if s.list.data.Some? { ParentInPatchedList(s.list.data.value, id, p); }
  }

  /** Behind the attempt the cached parent is one whose children list settling will mark. */
  lemma ParentIsExempt(s: State, truth: Truth, id: IssueId, p: Patch, q: IssueId)
    requires CoreTracks(s, truth, {}) && Held(s, id) && q !in Unsettled(s, id, p).parents
    ensures OldParent(Mutated(s, id, p), id) != Some(q) && OldParent(s, id) != Some(q)
  {
    OldParentIsTrue(s, truth, id);
    ParentAfterMutation(s, id, p);
  }

  /** No other fresh children list has the issue. */
  lemma NoOtherCopies(s: State, truth: Truth, id: IssueId, q: IssueId)
    requires CoreTracks(s, truth, {}) && FreshListTracks(s.children, q, truth) && Held(s, id) && OldParent(s, id) != Some(q)
    ensures !ChildCopy(s, q, id)
  {
    OldParentIsTrue(s, truth, id);
    if ChildCopy(s, q, id) { ChildCopyParent(s, truth, q, id); }
  }

  /** A list that settling will not mark is spared by the echo. */
  lemma EchoSparesList(s: State, truth: Truth, id: IssueId, p: Patch, q: IssueId)
    requires Tracks(s, truth) && Held(s, id) && q !in Unsettled(s, id, p).parents
    ensures UpdateSparesList(Mutated(s, id, p), truth, id, p, q)
  {
    assert FreshListTracks(s.children, q, truth);
    ParentIsExempt(s, truth, id, p, q);
    NoOtherCopies(s, truth, id, q);
    OtherListsKept(s, id, p, q);
  }

  lemma OtherListsKept(s: State, id: IssueId, p: Patch, q: IssueId)
    requires OldParent(s, id) != Some(q)
    ensures ChildCopy(Mutated(s, id, p), q, id) <==> ChildCopy(s, q, id)
  {
  }

  /** The server's echo of the update is always a safe event for an issue held in detail or list. */
  lemma {:induction false} EchoIsSafe(s: State, truth: Truth, id: IssueId, p: Patch)
    requires Tracks(s, truth) && Held(s, id)
    ensures Safe(Mutated(s, id, p), truth, IssueUpdated(id, p), Unsettled(s, id, p))
  {
    forall q | q !in Unsettled(s, id, p).parents
      ensures SparesList(Mutated(s, id, p), truth, IssueUpdated(id, p), q)
    {
      EchoSparesList(s, truth, id, p, q);
    }
    if !Unsettled(s, id, p).progress { OldParentIsTrue(s, truth, id); }
  }

  ghost predicate ProgressStale(s: State) { s.childProgress.data.None? || s.childProgress.stale }

  lemma ChildrenLater(s: State, truth: Truth, id: IssueId, p: Patch)
    requires ChildrenTrack(s.children, truth, {}) && (NewParent(p).Some? ==> !Fresh(s.children, NewParent(p).value))
    ensures ChildrenTrack(s.children, Amended(truth, id, p), {}) <==> !Changes(truth, id, p) || forall q :: !ChildCopy(s, q, id)
  {
    forall q ensures FreshListTracks(s.children, q, Amended(truth, id, p))
                <==> !Changes(truth, id, p) || !ChildCopy(s, q, id)
    {
      assert FreshListTracks(s.children, q, truth);
      if Fresh(s.children, q) { KeptListIff(q, DataAt(s.children, q).value, truth, id, p); }
    }
  }

  lemma MyListLater(c: ListCache, truth: Truth, id: IssueId, p: Patch)
    requires ListTracks(Some(c), truth, {})
    ensures ListTracks(Some(c), Amended(truth, id, p), {}) <==> !Changes(truth, id, p) || id !in View(c)
  {
    PartLater(View(c), truth, id, p);
  }

  lemma PartLater(m: FlatCache, truth: Truth, id: IssueId, p: Patch)
    requires PartOf(m, truth, {})
    ensures PartOf(m, Amended(truth, id, p), {}) <==> !Changes(truth, id, p) || id !in m
  {
    if Changes(truth, id, p) && id in m { assert m[id] != Amended(truth, id, p)[id]; }
  }

  lemma MyListsLater(m: map<string, Entry<ListCache>>, truth: Truth, id: IssueId, p: Patch)
    requires MyListsTrack(m, truth)
    ensures MyListsTrack(m, Amended(truth, id, p))
       <==> !Changes(truth, id, p) || forall k :: k in m && !m[k].stale && m[k].data.Some? ==> id !in View(m[k].data.value)
  {
    forall k | k in m && !m[k].stale && m[k].data.Some?
      ensures ListTracks(m[k].data, Amended(truth, id, p), {}) <==> !Changes(truth, id, p) || id !in View(m[k].data.value)
    {
      MyListLater(m[k].data.value, truth, id, p);
    }
  }

  lemma AnnouncedLater(s: State, truth: Truth, id: IssueId, p: Patch)
    requires FreshIsTrue(s, truth) && s.list.stale && (id in s.details ==> s.details[id].stale)
    requires NewParent(p).Some? ==> !Fresh(s.children, NewParent(p).value)
    ensures FreshIsTrue(s, Amended(truth, id, p))
       <==> !Changes(truth, id, p) || (!SeenElsewhere(s, id) && (ProgressStale(s) || !FamilyChanges(truth, id, p)))
  {
    ChildrenLater(s, truth, id, p);
    MyListsLater(s.myLists, truth, id, p);
    FamilyAmendedIff(truth, id, p);
  }

  /* ---- The echo of a successful update ---- */

  /** The server's echo of an update the client already applied changes neither the
      board nor the issue page: no flicker. */
  lemma EchoChangesNothing(s: State, id: IssueId, p: Patch)
    requires s.list.data.Some? ==> Inv(s.list.data.value)
    ensures var s1, s2 := Mutated(s, id, p), Updated(Mutated(s, id, p), id, p);
            && (s.list.data.Some? ==> View(s2.list.data.value) == View(s1.list.data.value))
            && (forall x :: DataAt(s2.details, x) == DataAt(s1.details, x))
  {
    if s.list.data.Some? { EchoInList(s.list.data.value, id, p); }
    EchoInDetails(s.details, id, p);
  }

  lemma FlatPatchTwice(m: FlatCache, id: IssueId, p: Patch)
    ensures FlatPatch(FlatPatch(m, id, p), id, p) == FlatPatch(m, id, p)
  {
    if id in m { MergeTwice(m[id], p); }
  }

  lemma EchoInList(c: ListCache, id: IssueId, p: Patch)
    requires Inv(c)
    ensures View(PatchIssue(PatchIssue(c, id, p), id, p)) == View(PatchIssue(c, id, p))
  {
    PatchStep(c, id, p);
    PatchStep(PatchIssue(c, id, p), id, p);
    FlatPatchTwice(View(c), id, p);
  }

  lemma EchoInDetails(m: Entries<Issue>, id: IssueId, p: Patch)
    ensures PatchedDetails(PatchedDetails(m, id, p), id, p) == PatchedDetails(m, id, p)
  {
    if DataAt(m, id).Some? { MergeTwice(DataAt(m, id).value, p); }
  }
}
