/** Optimistic deletion of a comment: the comment and everything below it
    disappear from the issue's timeline. */
module CommentCascade {
  import opened Sequences

  datatype Parent = NoParent | Under(id: string)

  datatype Entry = Entry(id: string, parent: Parent, content: string)

  function KeptUnless(removed: set<string>): Entry -> bool {
    (e: Entry) => e.id !in removed
  }

  predicate IsReply(e: Entry, removed: set<string>) {
    e.parent.Under? && e.parent.id != "" && e.parent.id in removed
  }

  /** A chain of replies, each entry below the one before it. */
  ghost predicate ReplyChain(timeline: seq<Entry>, chain: seq<string>) {
    && |chain| > 0
    && forall k {:trigger chain[k]} :: 0 < k < |chain| ==> ReplyTo(timeline, chain[k - 1], chain[k])
  }

  ghost predicate ReplyTo(timeline: seq<Entry>, above: string, below: string) {
    above != "" && HasEntry(timeline, below, above)
  }

  ghost predicate HasEntry(timeline: seq<Entry>, id: string, parent: string) {
    exists e :: e in timeline && e.id == id && e.parent == Under(parent)
  }

  /** The comment itself or a transitive reply to it. */
  ghost predicate Descends(timeline: seq<Entry>, root: string, id: string) {
    exists chain :: ReplyChain(timeline, chain) && chain[0] == root && chain[|chain| - 1] == id
  }

  ghost predicate Closed(timeline: seq<Entry>, removed: set<string>) {
    forall e :: e in timeline && IsReply(e, removed) ==> e.id in removed
  }

  ghost function EntryIds(timeline: seq<Entry>): set<string> {
    set e | e in timeline :: e.id
  }

  /** The `while (changed)` loop: exactly the root and its transitive replies are
      removed, whatever the order of the entries and even when parents form a cycle. */
  method CollectThread(timeline: seq<Entry>, root: string) returns (removed: set<string>)
    ensures forall id :: id in removed <==> Descends(timeline, root, id)
    ensures Closed(timeline, removed)
  {
    removed := {root};
    RootDescends(timeline, root);
    var changed := true;
    while changed
      invariant root in removed
      invariant forall id :: id in removed ==> Descends(timeline, root, id)
      invariant !changed ==> Closed(timeline, removed)
      decreases EntryIds(timeline) - removed, changed
    {
      changed := false;
      ghost var before := removed;
      for i := 0 to |timeline|
        invariant before <= removed
        invariant changed ==> before < removed && EntryIds(timeline) - removed < EntryIds(timeline) - before
        invariant !changed ==> removed == before
        invariant forall id :: id in removed ==> Descends(timeline, root, id)
        invariant !changed ==> forall k :: 0 <= k < i && IsReply(timeline[k], removed) ==> timeline[k].id in removed
      {
        var e := timeline[i];
        if IsReply(e, removed) && e.id !in removed {
          ReplyDescends(timeline, root, e);
          assert e.id in EntryIds(timeline) - removed;
          removed := removed + {e.id};
          changed := true;
        }
      }
    }
    forall id | Descends(timeline, root, id) ensures id in removed {
      DescendantsInClosed(timeline, root, removed, id);
    }
  }

  /** The whole optimistic step on the cached timeline. */
  method DeleteComment(timeline: seq<Entry>, root: string) returns (kept: seq<Entry>)
    ensures exists removed :: (forall id :: id in removed <==> Descends(timeline, root, id))
                           && kept == Filter(timeline, KeptUnless(removed))
    ensures forall e :: e in kept <==> e in timeline && !Descends(timeline, root, e.id)
    ensures forall e :: e in kept && e.parent.Under? && e.parent.id != "" ==> !Descends(timeline, root, e.parent.id)
  {
    var removed := CollectThread(timeline, root);
    kept := Filter(timeline, KeptUnless(removed));
    FilterMembers(timeline, KeptUnless(removed));
  }

  lemma RootDescends(timeline: seq<Entry>, root: string)
    ensures Descends(timeline, root, root)
  {
    var chain := [root];
    assert ReplyChain(timeline, chain) && chain[0] == root && chain[|chain| - 1] == root;
  }

  lemma ReplyDescends(timeline: seq<Entry>, root: string, e: Entry)
    requires e in timeline && e.parent.Under? && e.parent.id != ""
    requires Descends(timeline, root, e.parent.id)
    ensures Descends(timeline, root, e.id)
  {
    var chain :| ReplyChain(timeline, chain) && chain[0] == root && chain[|chain| - 1] == e.parent.id;
    var longer := chain + [e.id];
    assert HasEntry(timeline, e.id, e.parent.id);
    forall k | 0 < k < |longer| ensures ReplyTo(timeline, longer[k - 1], longer[k]) {
      if k < |chain| { assert ReplyTo(timeline, chain[k - 1], chain[k]); }
    }
    assert ReplyChain(timeline, longer) && longer[0] == root && longer[|longer| - 1] == e.id;
  }

  /** Any set that holds the root and is closed under replies holds the whole
      thread, so the loop's result is the least such set. */
  lemma {:induction false} DescendantsInClosed(timeline: seq<Entry>, root: string, removed: set<string>, id: string)
    requires root in removed && Closed(timeline, removed) && Descends(timeline, root, id)
    ensures id in removed
  {
    var chain :| ReplyChain(timeline, chain) && chain[0] == root && chain[|chain| - 1] == id;
    ChainInClosed(timeline, removed, chain, |chain| - 1);
  }

  lemma {:induction false} ChainInClosed(timeline: seq<Entry>, removed: set<string>, chain: seq<string>, k: nat)
    requires ReplyChain(timeline, chain) && chain[0] in removed && Closed(timeline, removed) && k < |chain|
    ensures chain[k] in removed
  {
    if k == 0 {
    } else {
      ChainInClosed(timeline, removed, chain, k - 1);
      assert ReplyTo(timeline, chain[k - 1], chain[k]);
      var e :| e in timeline && e.id == chain[k] && e.parent == Under(chain[k - 1]);
      assert IsReply(e, removed);
    }
  }
}
