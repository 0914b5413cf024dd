/** The meeting transcript cache, written by HTTP success handlers and by
    WebSocket handlers that deliver the same segments independently. */
module Transcript {
  import opened Options
  import opened Sequences
  import opened StableSort
  import opened UniqueKeys

  datatype Segment = Segment(id: string, seqNo: int, text: string)

  /** `total` is always recomputed by the client from the list it stores. */
  datatype Response = Response(segments: seq<Segment>, total: int)

  function SeqNo(s: Segment): int { s.seqNo }

  function SegmentId(s: Segment): string { s.id }

  function IdNotIn(ids: set<string>): Segment -> bool {
    (s: Segment) => s.id !in ids
  }

  function SeqIsNot(n: int): Segment -> bool {
    (s: Segment) => s.seqNo != n
  }

  function WithoutIds(segments: seq<Segment>, ids: set<string>): seq<Segment> {
    Filter(segments, IdNotIn(ids))
  }

  function WithoutSeq(segments: seq<Segment>, n: int): seq<Segment> {
    Filter(segments, SeqIsNot(n))
  }

  function Ids(segments: seq<Segment>): set<string> {
    set s | s in segments :: s.id
  }

  function Counted(segments: seq<Segment>): Response { Response(segments, |segments|) }

  function Cached(c: Option<Response>): seq<Segment> {
    if c.Some? then c.value.segments else []
  }

  /** Replace and add the incoming segments, drop the removed ids, keep order by sequence number. */
  function Upsert(c: Option<Response>, incoming: seq<Segment>, removed: set<string>): Response {
    Counted(Sort(WithoutIds(Cached(c), removed + Ids(incoming)) + incoming, SeqNo))
  }

  /** HTTP success of a creation: also evicts another segment with the same sequence number. */
  function HttpCreated(c: Option<Response>, s: Segment): Response {
    Counted(Sort(WithoutSeq(WithoutIds(Cached(c), {s.id}), s.seqNo) + [s], SeqNo))
  }

  /** WebSocket created or updated event: ignored while nothing is cached. */
  function WsUpserted(c: Option<Response>, s: Segment): Option<Response> {
    if c.None? then None else Some(Counted(Sort(WithoutIds(c.value.segments, {s.id}) + [s], SeqNo)))
  }

  function HttpDeleted(c: Option<Response>, id: string): Response {
    Counted(WithoutIds(Cached(c), {id}))
  }

  function WsDeleted(c: Option<Response>, id: string): Option<Response> {
    if c.None? then None else Some(Counted(WithoutIds(c.value.segments, {id})))
  }

  /** The query client's transcript entries, one per meeting. */
  class TranscriptCache {
    var entries: map<string, Response>

    function Entry(meeting: string): Option<Response>
      reads this
    {
      if meeting in entries then Some(entries[meeting]) else None
    }

    method OnCreated(meeting: string, s: Segment)
      modifies this
      ensures entries == old(entries)[meeting := HttpCreated(old(Entry(meeting)), s)]
    {
      var existing := Cached(Entry(meeting));
      var segments := Filter(Filter(existing, IdNotIn({s.id})), SeqIsNot(s.seqNo)) + [s];
      segments := Sort(segments, SeqNo);
      entries := entries[meeting := Response(segments, |segments|)];
    }

    method OnUpdated(meeting: string, s: Segment)
      modifies this
      ensures entries == old(entries)[meeting := Upsert(old(Entry(meeting)), [s], {})]
    {
      UpsertInto(meeting, [s], {});
    }

    method OnSplit(meeting: string, parts: seq<Segment>, segmentId: string)
      modifies this
      ensures entries == old(entries)[meeting := Upsert(old(Entry(meeting)), parts, {segmentId})]
    {
      UpsertInto(meeting, parts, {segmentId});
    }

    method OnMerged(meeting: string, s: Segment, deletedId: string)
      modifies this
      ensures entries == old(entries)[meeting := Upsert(old(Entry(meeting)), [s], {deletedId})]
    {
      UpsertInto(meeting, [s], {deletedId});
    }

    method UpsertInto(meeting: string, incoming: seq<Segment>, removed: set<string>)
      modifies this
      ensures entries == old(entries)[meeting := Upsert(old(Entry(meeting)), incoming, removed)]
    {
      var kept := WithoutIds(Cached(Entry(meeting)), removed + Ids(incoming));
      var segments := Sort(kept + incoming, SeqNo);
      entries := entries[meeting := Response(segments, |segments|)];
    }

    method OnDeleted(meeting: string, id: string)
      modifies this
      ensures entries == old(entries)[meeting := HttpDeleted(old(Entry(meeting)), id)]
    {
      var segments := WithoutIds(Cached(Entry(meeting)), {id});
      entries := entries[meeting := Response(segments, |segments|)];
    }

    method OnWsUpserted(meeting: string, s: Segment)
      modifies this
      ensures Entry(meeting) == WsUpserted(old(Entry(meeting)), s)
      ensures entries - {meeting} == old(entries) - {meeting}
    {
      if meeting in entries {
        var segments := Sort(WithoutIds(entries[meeting].segments, {s.id}) + [s], SeqNo);
        entries := entries[meeting := Response(segments, |segments|)];
      }
    }

    method OnWsDeleted(meeting: string, id: string)
      modifies this
      ensures Entry(meeting) == WsDeleted(old(Entry(meeting)), id)
      ensures entries - {meeting} == old(entries) - {meeting}
    {
      if meeting in entries {
        var segments := WithoutIds(entries[meeting].segments, {id});
        entries := entries[meeting := Response(segments, |segments|)];
      }
    }
  }

  /* ---- What every handler keeps ---- */

  ghost predicate Valid(r: Response) {
    Sorted(r.segments, SeqNo) && Unique(r.segments, SegmentId) && r.total == |r.segments|
  }

  ghost predicate ValidEntry(c: Option<Response>) {
    c.Some? ==> Valid(c.value)
  }

  /** Update, split and merge: the list stays sorted with unique ids and an exact
      total, and holds exactly the incoming segments and the untouched old ones. */
  lemma UpsertKeepsValid(c: Option<Response>, incoming: seq<Segment>, removed: set<string>)
    requires ValidEntry(c) && Unique(incoming, SegmentId)
    ensures Valid(Upsert(c, incoming, removed))
    ensures forall s :: s in Upsert(c, incoming, removed).segments
              <==> s in incoming || (s in Cached(c) && s.id !in removed && s.id !in Ids(incoming))
  {
    var keep := IdNotIn(removed + Ids(incoming));
    var kept := Filter(Cached(c), keep);
    FilterUnique(Cached(c), keep, SegmentId);
    FilterMembers(Cached(c), keep);
    UniqueAppend(kept, incoming, SegmentId);
    SortUnique(kept + incoming, SeqNo, SegmentId);
    SortSorts(kept + incoming, SeqNo);
  }

  lemma HttpCreatedKeepsValid(c: Option<Response>, s: Segment)
    requires ValidEntry(c)
    ensures Valid(HttpCreated(c, s))
    ensures forall x :: x in HttpCreated(c, s).segments
              <==> x == s || (x in Cached(c) && x.id != s.id && x.seqNo != s.seqNo)
  {
    var kept := WithoutIds(Cached(c), {s.id});
    FilterUnique(Cached(c), IdNotIn({s.id}), SegmentId);
    FilterMembers(Cached(c), IdNotIn({s.id}));
    FilterUnique(kept, SeqIsNot(s.seqNo), SegmentId);
    FilterMembers(kept, SeqIsNot(s.seqNo));
    var kept' := WithoutSeq(kept, s.seqNo);
    UniqueSnoc(kept', s, SegmentId);
    SortUnique(kept' + [s], SeqNo, SegmentId);
    SortSorts(kept' + [s], SeqNo);
  }

  lemma WsUpsertIsUpsert(c: Option<Response>, s: Segment)
    requires c.Some?
    ensures WsUpserted(c, s) == Some(Upsert(c, [s], {}))
  {
    assert {} + Ids([s]) == {s.id};
  }

  lemma DeleteKeepsValid(c: Option<Response>, id: string)
    requires ValidEntry(c)
    ensures Valid(HttpDeleted(c, id)) && ValidEntry(WsDeleted(c, id))
    ensures c.Some? ==> WsDeleted(c, id) == Some(HttpDeleted(c, id))
    ensures forall s :: s in HttpDeleted(c, id).segments <==> s in Cached(c) && s.id != id
  {
    FilterUnique(Cached(c), IdNotIn({id}), SegmentId);
    FilterMembers(Cached(c), IdNotIn({id}));
    FilterSorted(Cached(c), IdNotIn({id}), SeqNo);
  }

  /* ---- Idempotence and commutation ---- */

  /** On a sorted list, upserting one segment is one insertion. */
  lemma UpsertIsInsert(r: Response, s: Segment)
    requires Sorted(r.segments, SeqNo)
    ensures Sorted(WithoutIds(r.segments, {s.id}), SeqNo)
    ensures Upsert(Some(r), [s], {}) == Counted(Insert(WithoutIds(r.segments, {s.id}), s, SeqNo))
  {
    assert {} + Ids([s]) == {s.id};
    var kept := WithoutIds(r.segments, {s.id});
    FilterSorted(r.segments, IdNotIn({s.id}), SeqNo);
    SortedIsSorted(kept, SeqNo);
    SortSnoc(kept, s, SeqNo);
  }

  lemma WithoutTwice(segments: seq<Segment>, id: string)
    ensures WithoutIds(WithoutIds(segments, {id}), {id}) == WithoutIds(segments, {id})
  {
    FilterMembers(segments, IdNotIn({id}));
    FilterAll(WithoutIds(segments, {id}), IdNotIn({id}));
  }

  lemma {:induction false} SortAppend(a: seq<Segment>, b: seq<Segment>)
    ensures Sort(Sort(a, SeqNo) + b, SeqNo) == Sort(a + b, SeqNo)
  {
    if |b| == 0 {
      assert Sort(a, SeqNo) + b == Sort(a, SeqNo) && a + b == a;
      SortSorted(a, SeqNo);
      SortedIsSorted(Sort(a, SeqNo), SeqNo);
    } else {
      var front, x := b[..|b| - 1], b[|b| - 1];
      SortAppend(a, front);
      assert b == front + [x];
      assert Sort(a, SeqNo) + b == (Sort(a, SeqNo) + front) + [x] && a + b == (a + front) + [x];
      SortSnoc(Sort(a, SeqNo) + front, x, SeqNo);
      SortSnoc(a + front, x, SeqNo);
    }
  }

  /** Applying an update, split or merge twice is applying it once, on any cache and for any segments. */
  lemma UpsertIsIdempotent(c: Option<Response>, incoming: seq<Segment>, removed: set<string>)
    ensures Upsert(Some(Upsert(c, incoming, removed)), incoming, removed) == Upsert(c, incoming, removed)
  {
    var keep := IdNotIn(removed + Ids(incoming));
    var kept := Filter(Cached(c), keep);
    FilterSort(kept + incoming, keep, SeqNo);
    FilterAppend(kept, incoming, keep);
    FilterMembers(Cached(c), keep);
    FilterAll(kept, keep);
    FilterNone(incoming, keep);
    assert kept + [] == kept;
    SortAppend(kept, incoming);
  }

  lemma {:induction false} WithoutCommutes(segments: seq<Segment>, a: string, b: string)
    ensures WithoutIds(WithoutIds(segments, {a}), {b}) == WithoutIds(WithoutIds(segments, {b}), {a})
  {
    if |segments| == 0 {
    } else {
      var rest, s := segments[..|segments| - 1], segments[|segments| - 1];
      WithoutCommutes(rest, a, b);
      FilterSnoc(WithoutIds(rest, {a}), s, IdNotIn({b}));
      FilterSnoc(WithoutIds(rest, {b}), s, IdNotIn({a}));
    }
  }

  /** Two upserts in a row, written as two insertions into what neither replaces. */
  lemma UpsertTwice(r: Response, a: Segment, b: Segment)
    requires Sorted(r.segments, SeqNo) && a.id != b.id
    ensures var kept := WithoutIds(WithoutIds(r.segments, {a.id}), {b.id});
            Sorted(kept, SeqNo)
            && Upsert(Some(Upsert(Some(r), [a], {})), [b], {}) == Counted(Insert(Insert(kept, a, SeqNo), b, SeqNo))
  {
    var keptA := WithoutIds(r.segments, {a.id});
    UpsertIsInsert(r, a);
    InsertSorted(keptA, a, SeqNo);
    UpsertIsInsert(Upsert(Some(r), [a], {}), b);
    FilterInsert(keptA, a, IdNotIn({b.id}), SeqNo);
    FilterSorted(keptA, IdNotIn({b.id}), SeqNo);
  }

  /** Upserts of different segments commute exactly when their sequence numbers
      differ: with equal numbers the later one comes last. */
  lemma UpsertsCommuteIff(r: Response, a: Segment, b: Segment)
    requires Sorted(r.segments, SeqNo) && a.id != b.id
    ensures Upsert(Some(Upsert(Some(r), [a], {})), [b], {}) == Upsert(Some(Upsert(Some(r), [b], {})), [a], {})
       <==> a.seqNo != b.seqNo
  {
    UpsertTwice(r, a, b);
    UpsertTwice(r, b, a);
    WithoutCommutes(r.segments, a.id, b.id);
    var kept := WithoutIds(WithoutIds(r.segments, {a.id}), {b.id});
    if a.seqNo < b.seqNo {
      InsertCommutes(kept, a, b, SeqNo);
    } else if b.seqNo < a.seqNo {
      InsertCommutes(kept, b, a, SeqNo);
    } else {
      EqualNumbersDoNotCommute(kept, a, b);
    }
  }

  lemma EqualNumbersDoNotCommute(kept: seq<Segment>, a: Segment, b: Segment)
    requires Sorted(kept, SeqNo) && a.seqNo == b.seqNo && a.id != b.id
    ensures Insert(Insert(kept, a, SeqNo), b, SeqNo) != Insert(Insert(kept, b, SeqNo), a, SeqNo)
  {
    LastOfEqual(kept, a, b);
    LastOfEqual(kept, b, a);
  }

  /** The last segment with a given number is the one inserted last. */
  lemma LastOfEqual(kept: seq<Segment>, a: Segment, b: Segment)
    requires Sorted(kept, SeqNo) && a.seqNo == b.seqNo
    ensures var c := Class(Insert(Insert(kept, a, SeqNo), b, SeqNo), SeqNo, b.seqNo);
            |c| > 0 && c[|c| - 1] == b
  {
    InsertSorted(kept, a, SeqNo);
    FilterInsert(Insert(kept, a, SeqNo), b, KeyIs(SeqNo, b.seqNo), SeqNo);
    var c := Class(Insert(kept, a, SeqNo), SeqNo, b.seqNo);
    FilterMembers(Insert(kept, a, SeqNo), KeyIs(SeqNo, b.seqNo));
    assert |c| > 0 ==> c[|c| - 1] in c;
  }

  /* ---- The two deliveries of one creation ---- */

  lemma CreatedIsInsert(c: Option<Response>, s: Segment)
    requires c.Some? ==> Sorted(c.value.segments, SeqNo)
    ensures var kept := WithoutSeq(WithoutIds(Cached(c), {s.id}), s.seqNo);
            Sorted(kept, SeqNo) && HttpCreated(c, s) == Counted(Insert(kept, s, SeqNo))
  {
    var kept := WithoutIds(Cached(c), {s.id});
    FilterSorted(Cached(c), IdNotIn({s.id}), SeqNo);
    FilterSorted(kept, SeqIsNot(s.seqNo), SeqNo);
    SortedIsSorted(WithoutSeq(kept, s.seqNo), SeqNo);
    SortSnoc(WithoutSeq(kept, s.seqNo), s, SeqNo);
  }

  /** Whichever of the HTTP response and the WebSocket event of one created
      segment comes first, the cache ends as the HTTP response alone leaves it. */
  lemma CreationDeliveriesConverge(c: Option<Response>, s: Segment)
    requires c.Some? ==> Sorted(c.value.segments, SeqNo)
    ensures WsUpserted(Some(HttpCreated(c, s)), s) == Some(HttpCreated(c, s))
    ensures HttpCreated(WsUpserted(c, s), s) == HttpCreated(c, s)
  {
    var keptId := WithoutIds(Cached(c), {s.id});
    var kept := WithoutSeq(keptId, s.seqNo);
    CreatedIsInsert(c, s);
    InsertSorted(kept, s, SeqNo);
    var http := HttpCreated(c, s);
    WsUpsertIsUpsert(Some(http), s);
    UpsertIsInsert(http, s);
    FilterInsert(kept, s, IdNotIn({s.id}), SeqNo);
    FilterMembers(keptId, SeqIsNot(s.seqNo));
    FilterMembers(Cached(c), IdNotIn({s.id}));
    FilterAll(kept, IdNotIn({s.id}));
    if c.Some? {
      WsUpsertIsUpsert(c, s);
      UpsertIsInsert(c.value, s);
      InsertSorted(keptId, s, SeqNo);
      CreatedIsInsert(WsUpserted(c, s), s);
      FilterInsert(keptId, s, IdNotIn({s.id}), SeqNo);
      WithoutTwice(Cached(c), s.id);
    }
  }

  /* ---- Whole delivery sequences ---- */

  /** What may be delivered: over HTTP a creation, an update, split or merge, and a deletion; over the
      WebSocket a created or updated segment, and a deletion. */
  datatype Delivery =
    | HttpCreate(segment: Segment)
    | HttpUpsert(incoming: seq<Segment>, removed: set<string>)
    | HttpDelete(id: string)
    | WsUpsert(segment: Segment)
    | WsDelete(id: string)

  predicate IsHttp(d: Delivery) { !d.WsUpsert? && !d.WsDelete? }

  /** The ids a delivery speaks about. */
  function Touches(d: Delivery): set<string> {
    match d
    case HttpCreate(s) => {s.id}
    case HttpUpsert(incoming, removed) => removed + Ids(incoming)
    case HttpDelete(id) => {id}
    case WsUpsert(s) => {s.id}
    case WsDelete(id) => {id}
  }

  /** The segments a delivery leaves behind. */
  predicate Brings(d: Delivery, x: Segment) {
    match d
    case HttpCreate(s) => x == s
    case HttpUpsert(incoming, _) => x in incoming
    case WsUpsert(s) => x == s
    case _ => false
  }

  function Receive(c: Option<Response>, d: Delivery): Option<Response> {
    match d
    case HttpCreate(s) => Some(HttpCreated(c, s))
    case HttpUpsert(incoming, removed) => Some(Upsert(c, incoming, removed))
    case HttpDelete(id) => Some(HttpDeleted(c, id))
    case WsUpsert(s) => WsUpserted(c, s)
    case WsDelete(id) => WsDeleted(c, id)
  }

  ghost function ReceiveAll(c: Option<Response>, ds: seq<Delivery>): Option<Response> {
    if |ds| == 0 then c else Receive(ReceiveAll(c, ds[..|ds| - 1]), ds[|ds| - 1])
  }

  /** The deliveries that have an effect: an uncached transcript drops everything before the first HTTP response. */
  ghost function Effective(c: Option<Response>, ds: seq<Delivery>): seq<Delivery> {
    if |ds| == 0 then []
    else
      var before := Effective(c, ds[..|ds| - 1]);
      if c.None? && before == [] && !IsHttp(ds[|ds| - 1]) then [] else before + [ds[|ds| - 1]]
  }

  /** Last writer wins: `x` stands in the end if the last delivery about its id brought it, or if it
      stood at the start and no delivery is about its id. */
  ghost predicate Stands(base: seq<Segment>, ds: seq<Delivery>, x: Segment) {
    if |ds| == 0 then x in base
    else Brings(ds[|ds| - 1], x) || (x.id !in Touches(ds[|ds| - 1]) && Stands(base, ds[..|ds| - 1], x))
  }

  lemma {:induction false} LastWordDecides(base: seq<Segment>, ds: seq<Delivery>, k: nat, x: Segment)
    requires k < |ds| && x.id in Touches(ds[k])
    requires forall j :: k < j < |ds| ==> x.id !in Touches(ds[j])
    ensures Stands(base, ds, x) <==> Brings(ds[k], x)
  {
    if k == |ds| - 1 {
    } else {
      BringsTouches(ds[|ds| - 1], x);
      LastWordDecides(base, ds[..|ds| - 1], k, x);
    }
  }

  lemma BringsTouches(d: Delivery, x: Segment)
    ensures Brings(d, x) ==> x.id in Touches(d)
  {
  }

  /** Every segment ever cached or delivered is in `pool`, where a sequence number identifies a segment. */
  ghost predicate Orderly(segments: seq<Segment>, ds: seq<Delivery>, pool: set<Segment>) {
    && (forall x, y :: x in pool && y in pool && x.seqNo == y.seqNo ==> x.id == y.id)
    && (forall x :: x in segments ==> x in pool)
    && (forall d, x :: d in ds && Brings(d, x) ==> x in pool)
    && (forall d :: d in ds && d.HttpUpsert? ==> Unique(d.incoming, SegmentId))
  }

  /** The entry is valid and holds what the delivery brings and what it is not about. */
  ghost predicate Replaces(c: Option<Response>, d: Delivery, c': Option<Response>) {
    && c'.Some? && Valid(c'.value)
    && forall x :: x in c'.value.segments <==> Brings(d, x) || (x in Cached(c) && x.id !in Touches(d))
  }

  lemma WsUpsertReplaces(c: Option<Response>, s: Segment)
    requires ValidEntry(c) && c.Some?
    ensures Replaces(c, WsUpsert(s), WsUpserted(c, s))
  {
    WsUpsertIsUpsert(c, s);
    assert Unique([s], SegmentId) && Ids([s]) == {s.id};
    UpsertKeepsValid(c, [s], {});
  }

  lemma UpsertReplaces(c: Option<Response>, incoming: seq<Segment>, removed: set<string>)
    requires ValidEntry(c) && Unique(incoming, SegmentId)
    ensures Replaces(c, HttpUpsert(incoming, removed), Some(Upsert(c, incoming, removed)))
  {
    UpsertKeepsValid(c, incoming, removed);
  }

  lemma DeleteReplaces(c: Option<Response>, id: string)
    requires ValidEntry(c)
    ensures Replaces(c, HttpDelete(id), Some(HttpDeleted(c, id)))
    ensures c.Some? ==> Replaces(c, WsDelete(id), WsDeleted(c, id))
  {
    DeleteKeepsValid(c, id);
  }

  /** One delivery replaces what it is about and leaves everything else. */
  lemma ReceiveOne(c: Option<Response>, d: Delivery, pool: set<Segment>)
    requires ValidEntry(c) && Orderly(Cached(c), [d], pool) && (c.Some? || IsHttp(d))
    ensures Replaces(c, d, Receive(c, d))
  {
    assert d in [d];
    match d
    case HttpCreate(s) => CreateReplaces(c, s, pool);
    case HttpUpsert(incoming, removed) => UpsertReplaces(c, incoming, removed);
    case HttpDelete(id) => DeleteReplaces(c, id);
    case WsUpsert(s) => WsUpsertReplaces(c, s);
    case WsDelete(id) => DeleteReplaces(c, id);
  }

  /** A created segment evicts no other one, since no other one has its number. */
  lemma CreateReplaces(c: Option<Response>, s: Segment, pool: set<Segment>)
    requires ValidEntry(c) && Orderly(Cached(c), [HttpCreate(s)], pool)
    ensures Replaces(c, HttpCreate(s), Some(HttpCreated(c, s)))
  {
    HttpCreatedKeepsValid(c, s);
    NoOtherNumber(Cached(c), s, pool);
    EvictionIsReplacement(c, s, HttpCreated(c, s));
  }

  lemma NoOtherNumber(segments: seq<Segment>, s: Segment, pool: set<Segment>)
    requires Orderly(segments, [HttpCreate(s)], pool)
    ensures forall x :: x in segments && x.seqNo == s.seqNo ==> x.id == s.id
  {
    assert Brings(HttpCreate(s), s) && HttpCreate(s) in [HttpCreate(s)];
  }

  lemma EvictionIsReplacement(c: Option<Response>, s: Segment, r: Response)
    requires Valid(r) && forall x :: x in r.segments <==> x == s || (x in Cached(c) && x.id != s.id && x.seqNo != s.seqNo)
    requires forall x :: x in Cached(c) && x.seqNo == s.seqNo ==> x.id == s.id
    ensures Replaces(c, HttpCreate(s), Some(r))
  {
  }

  /** The cached segments are those that stand, all from the pool. */
  ghost predicate Exactly(c: Option<Response>, base: seq<Segment>, ds: seq<Delivery>, pool: set<Segment>) {
    && ValidEntry(c)
    && (forall x :: x in Cached(c) <==> Stands(base, ds, x))
    && (forall x :: x in Cached(c) ==> x in pool)
  }

  lemma StandsSnoc(base: seq<Segment>, ds: seq<Delivery>, d: Delivery, x: Segment)
    ensures Stands(base, ds + [d], x) <==> Brings(d, x) || (x.id !in Touches(d) && Stands(base, ds, x))
  {
    assert (ds + [d])[..|ds|] == ds;
  }

  lemma ExactStep(c: Option<Response>, c': Option<Response>, base: seq<Segment>, ds: seq<Delivery>, d: Delivery, pool: set<Segment>)
    requires Exactly(c, base, ds, pool) && Replaces(c, d, c') && forall x :: Brings(d, x) ==> x in pool
    ensures Exactly(c', base, ds + [d], pool)
  {
    forall x ensures x in Cached(c') <==> Stands(base, ds + [d], x) { StandsSnoc(base, ds, d, x); }
  }

  /** The transcript is a last-writer-wins map: it stays valid, and after any deliveries it holds exactly
      the segments that stand; it is still uncached exactly when nothing had an effect. */
  lemma {:induction false} ReceivedExactly(c: Option<Response>, ds: seq<Delivery>, pool: set<Segment>)
    requires ValidEntry(c) && Orderly(Cached(c), ds, pool)
    ensures ReceiveAll(c, ds).None? <==> c.None? && Effective(c, ds) == []
    ensures Exactly(ReceiveAll(c, ds), Cached(c), Effective(c, ds), pool)
  {
    if |ds| == 0 {
    } else {
      var front, d := ds[..|ds| - 1], ds[|ds| - 1];
      OrderlyFront(Cached(c), ds, pool);
      ReceivedExactly(c, front, pool);
      var before := ReceiveAll(c, front);
      if before.None? && !IsHttp(d) {
      } else {
        OrderlyLast(Cached(c), ds, Cached(before), pool);
        ReceiveOne(before, d, pool);
        ExactStep(before, Receive(before, d), Cached(c), Effective(c, front), d, pool);
      }
    }
  }

  lemma OrderlyFront(segments: seq<Segment>, ds: seq<Delivery>, pool: set<Segment>)
    requires |ds| > 0 && Orderly(segments, ds, pool)
    ensures Orderly(segments, ds[..|ds| - 1], pool)
    ensures forall x :: Brings(ds[|ds| - 1], x) ==> x in pool
  {
    assert ds[|ds| - 1] in ds && forall e :: e in ds[..|ds| - 1] ==> e in ds;
  }

  lemma OrderlyLast(segments: seq<Segment>, ds: seq<Delivery>, now: seq<Segment>, pool: set<Segment>)
    requires |ds| > 0 && Orderly(segments, ds, pool) && forall x :: x in now ==> x in pool
    ensures Orderly(now, [ds[|ds| - 1]], pool)
  {
    assert ds[|ds| - 1] in ds;
  }

  lemma NumbersIncrease(c: Option<Response>, pool: set<Segment>)
    requires c.Some? && Valid(c.value) && Orderly(c.value.segments, [], pool)
    ensures StrictlySorted(c.value.segments, SeqNo)
  {
    var t := c.value.segments;
    forall i, j | 0 <= i < j < |t| ensures SeqNo(t[i]) < SeqNo(t[j]) {
      assert t[i] in pool && t[j] in pool && SeqNo(t[i]) <= SeqNo(t[j]) && SegmentId(t[i]) != SegmentId(t[j]);
    }
  }

  /** Two valid transcripts with the same segments are the same. */
  lemma SameSegmentsSameEntry(a: Option<Response>, b: Option<Response>, pool: set<Segment>)
    requires ValidEntry(a) && ValidEntry(b) && Orderly(Cached(a), [], pool) && Orderly(Cached(b), [], pool)
    requires a.None? == b.None? && forall x :: x in Cached(a) <==> x in Cached(b)
    ensures a == b
  {
    if a.Some? {
      NumbersIncrease(a, pool);
      NumbersIncrease(b, pool);
      StrictlySortedUnique(a.value.segments, b.value.segments, SeqNo);
    }
  }

  lemma ResultIsOrderly(c: Option<Response>, ds: seq<Delivery>, pool: set<Segment>)
    requires ValidEntry(c) && Orderly(Cached(c), ds, pool)
    ensures ValidEntry(ReceiveAll(c, ds)) && Orderly(Cached(ReceiveAll(c, ds)), [], pool)
  {
    ReceivedExactly(c, ds, pool);
  }

  ghost predicate SameEffect(base: seq<Segment>, ds: seq<Delivery>, es: seq<Delivery>) {
    forall x :: Stands(base, ds, x) <==> Stands(base, es, x)
  }

  lemma SameEffectIff(c: Option<Response>, ds: seq<Delivery>, es: seq<Delivery>, pool: set<Segment>)
    requires ValidEntry(c) && Orderly(Cached(c), ds, pool) && Orderly(Cached(c), es, pool)
    ensures SameEffect(Cached(c), Effective(c, ds), Effective(c, es))
       <==> forall x :: x in Cached(ReceiveAll(c, ds)) <==> x in Cached(ReceiveAll(c, es))
  {
    ReceivedExactly(c, ds, pool);
    ReceivedExactly(c, es, pool);
    if forall x :: x in Cached(ReceiveAll(c, ds)) <==> x in Cached(ReceiveAll(c, es)) {
      forall x ensures Stands(Cached(c), Effective(c, ds), x) <==> Stands(Cached(c), Effective(c, es), x) {
        assert x in Cached(ReceiveAll(c, ds)) <==> x in Cached(ReceiveAll(c, es));
      }
    }
  }

  lemma CachedIff(c: Option<Response>, ds: seq<Delivery>, pool: set<Segment>)
    requires ValidEntry(c) && Orderly(Cached(c), ds, pool)
    ensures ReceiveAll(c, ds).None? <==> c.None? && Effective(c, ds) == []
  {
    ReceivedExactly(c, ds, pool);
  }

  /** Two delivery sequences end in the same cache exactly when the same segments stand and both or
      neither had an effect. */
  lemma ConvergeIff(c: Option<Response>, ds: seq<Delivery>, es: seq<Delivery>, pool: set<Segment>)
    requires ValidEntry(c) && Orderly(Cached(c), ds, pool) && Orderly(Cached(c), es, pool)
    ensures ReceiveAll(c, ds) == ReceiveAll(c, es)
       <==> (c.None? ==> (Effective(c, ds) == [] <==> Effective(c, es) == []))
            && SameEffect(Cached(c), Effective(c, ds), Effective(c, es))
  {
    SameEffectIff(c, ds, es, pool);
    CachedIff(c, ds, pool);
    CachedIff(c, es, pool);
    ResultIsOrderly(c, ds, pool);
    ResultIsOrderly(c, es, pool);
    var a, b := ReceiveAll(c, ds), ReceiveAll(c, es);
    if a.None? == b.None? && SameEffect(Cached(c), Effective(c, ds), Effective(c, es)) {
      SameSegmentsSameEntry(a, b, pool);
    }
  }

  /* ---- One version of every segment, over both channels ---- */

  /** Creations and updates: each brings at least one segment and removes none. */
  predicate UpsertsOnly(ds: seq<Delivery>) {
    forall d :: d in ds ==> d.HttpCreate? || d.WsUpsert? || (d.HttpUpsert? && |d.incoming| > 0 && d.removed == {})
  }

  ghost predicate Delivered(ds: seq<Delivery>, x: Segment) {
    exists d :: d in ds && Brings(d, x)
  }

  ghost predicate OneVersion(ds: seq<Delivery>) {
    forall x, y :: Delivered(ds, x) && Delivered(ds, y) && x.id == y.id ==> x == y
  }

  ghost predicate SameSegments(ds: seq<Delivery>, es: seq<Delivery>) {
    forall x :: Delivered(ds, x) <==> Delivered(es, x)
  }

  lemma DeliveredSnoc(ds: seq<Delivery>, x: Segment)
    requires |ds| > 0
    ensures Delivered(ds, x) <==> Delivered(ds[..|ds| - 1], x) || Brings(ds[|ds| - 1], x)
  {
    assert forall d :: d in ds <==> d in ds[..|ds| - 1] || d == ds[|ds| - 1];
  }

  /** An upsert brings exactly the ids it is about. */
  lemma UpsertBrings(d: Delivery, id: string)
    requires UpsertsOnly([d])
    ensures id in Touches(d) <==> exists x :: Brings(d, x) && x.id == id
  {
    assert d in [d];
    match d
    case HttpCreate(s) => assert Brings(d, s);
    case WsUpsert(s) => assert Brings(d, s);
    case HttpUpsert(incoming, _) => assert forall s :: s in incoming ==> Brings(d, s);
    case _ =>
  }

  /** With one version of each segment the order and repetition of upserts do not matter. */
  lemma {:induction false} StandsIff(base: seq<Segment>, ds: seq<Delivery>, x: Segment)
    requires UpsertsOnly(ds) && OneVersion(ds)
    ensures Stands(base, ds, x)
       <==> Delivered(ds, x) || (x in base && forall y :: Delivered(ds, y) ==> y.id != x.id)
  {
    if |ds| == 0 {
    } else {
      var front, d := ds[..|ds| - 1], ds[|ds| - 1];
      assert d in ds && forall e :: e in front ==> e in ds;
      forall y { DeliveredSnoc(ds, y); }
      StandsIff(base, front, x);
      UpsertBrings(d, x.id);
    }
  }

  lemma {:induction false} EffectiveMembers(c: Option<Response>, ds: seq<Delivery>)
    ensures forall d :: d in Effective(c, ds) ==> d in ds
    ensures c.Some? ==> Effective(c, ds) == ds
  {
    if |ds| == 0 {
    } else {
      EffectiveMembers(c, ds[..|ds| - 1]);
      assert ds == ds[..|ds| - 1] + [ds[|ds| - 1]];
    }
  }

  lemma SameSegmentsSameEffect(base: seq<Segment>, ds: seq<Delivery>, es: seq<Delivery>)
    requires UpsertsOnly(ds) && OneVersion(ds) && UpsertsOnly(es) && OneVersion(es) && SameSegments(ds, es)
    ensures SameEffect(base, ds, es)
    ensures ds == [] <==> es == []
  {
    forall x ensures Stands(base, ds, x) <==> Stands(base, es, x) {
      StandsIff(base, ds, x);
      StandsIff(base, es, x);
      assert forall y :: Delivered(ds, y) <==> Delivered(es, y);
    }
    EachBrings(ds);
    EachBrings(es);
  }

  lemma EachBrings(ds: seq<Delivery>)
    requires UpsertsOnly(ds)
    ensures ds != [] <==> exists x :: Delivered(ds, x)
  {
    if ds != [] {
      var d := ds[0];
      assert d in ds;
      var x := if d.HttpUpsert? then d.incoming[0] else d.segment;
      assert Brings(d, x) && Delivered(ds, x);
    }
  }

  lemma FromNothing(ds: seq<Delivery>, es: seq<Delivery>)
    requires UpsertsOnly(ds) && OneVersion(ds) && UpsertsOnly(es) && OneVersion(es) && SameEffect([], ds, es)
    ensures SameSegments(ds, es)
  {
    forall x ensures Delivered(ds, x) <==> Delivered(es, x) {
      StandsIff([], ds, x);
      StandsIff([], es, x);
      assert Stands([], ds, x) <==> Stands([], es, x);
    }
  }

  lemma PartHasOneVersion(ds: seq<Delivery>, part: seq<Delivery>)
    requires OneVersion(ds) && UpsertsOnly(ds) && forall d :: d in part ==> d in ds
    ensures OneVersion(part) && UpsertsOnly(part)
  {
    forall x | Delivered(part, x) ensures Delivered(ds, x) {}
  }

  lemma SameSegmentsOneVersion(ds: seq<Delivery>, es: seq<Delivery>)
    requires OneVersion(ds) && SameSegments(ds, es)
    ensures OneVersion(es)
  {
  }

  /** The same segments, one version of each, delivered in two orders, with any duplication and any
      choice of channel: the caches agree exactly when the same segments are delivered from the first
      HTTP response on.  For a cached transcript every delivery counts, so they always agree. */
  lemma {:induction false} ChannelsConvergeIff(c: Option<Response>, ds: seq<Delivery>, es: seq<Delivery>, pool: set<Segment>)
    requires ValidEntry(c) && Orderly(Cached(c), ds, pool) && Orderly(Cached(c), es, pool)
    requires UpsertsOnly(ds) && UpsertsOnly(es) && OneVersion(ds) && SameSegments(ds, es)
    ensures c.Some? ==> ReceiveAll(c, ds) == ReceiveAll(c, es)
    ensures c.None? ==> (ReceiveAll(c, ds) == ReceiveAll(c, es) <==> SameSegments(Effective(c, ds), Effective(c, es)))
  {
    var e1, e2 := Effective(c, ds), Effective(c, es);
    EffectiveMembers(c, ds);
    EffectiveMembers(c, es);
    SameSegmentsOneVersion(ds, es);
    PartHasOneVersion(ds, e1);
    PartHasOneVersion(es, e2);
    ConvergeIff(c, ds, es, pool);
    if SameSegments(e1, e2) {
      SameSegmentsSameEffect(Cached(c), e1, e2);
    } else if c.None? && SameEffect([], e1, e2) {
      FromNothing(e1, e2);
    }
  }

  lemma ReceiveTwo(c: Option<Response>, d: Delivery, e: Delivery)
    ensures ReceiveAll(c, [d, e]) == Receive(Receive(c, d), e)
  {
    assert [d, e][..1] == [d] && [d][..0] == [];
    assert ReceiveAll(c, [d]) == Receive(ReceiveAll(c, []), d);
  }

  lemma CreatedAlone(a: Segment, b: Segment)
    requires a.id != b.id
    ensures Valid(HttpCreated(None, a)) && b !in HttpCreated(None, a).segments
  {
    HttpCreatedKeepsValid(None, a);
  }

  lemma EventIsKept(r: Response, b: Segment)
    requires Valid(r)
    ensures b in Cached(WsUpserted(Some(r), b))
  {
    WsUpsertReplaces(Some(r), b);
    assert Brings(WsUpsert(b), b);
  }

  /** For instance: an event before the first HTTP response is lost, one behind it is not. */
  lemma EarlyEventIsLost(a: Segment, b: Segment)
    requires a.id != b.id
    ensures b !in Cached(ReceiveAll(None, [WsUpsert(b), HttpCreate(a)]))
    ensures b in Cached(ReceiveAll(None, [HttpCreate(a), WsUpsert(b)]))
  {
    ReceiveTwo(None, WsUpsert(b), HttpCreate(a));
    ReceiveTwo(None, HttpCreate(a), WsUpsert(b));
    CreatedAlone(a, b);
    EventIsKept(HttpCreated(None, a), b);
  }
}
