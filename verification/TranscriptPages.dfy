/** Reading a whole transcript in pages, each asking for what lies behind the last sequence number seen. */
module TranscriptPages {
  import opened Sequences
  import opened StableSort
  import T = Transcript

  const LIMIT: nat := 1000

  function SeqAbove(n: int): T.Segment -> bool {
    (s: T.Segment) => s.seqNo > n
  }

  function Above(server: seq<T.Segment>, n: int): seq<T.Segment> { Filter(server, SeqAbove(n)) }

  /** The server's answer: the first `LIMIT` segments behind `afterSeq`. */
  function Page(server: seq<T.Segment>, afterSeq: int): seq<T.Segment> {
    var rest := Above(server, afterSeq);
    if |rest| <= LIMIT then rest else rest[..LIMIT]
  }

  /** Against an unchanging server list in strictly increasing order the loop returns exactly
      the segments with a positive sequence number, in order, in floor(n / 1000) + 1 requests. */
  method FetchTranscript(server: seq<T.Segment>) returns (r: T.Response, requests: nat)
    requires StrictlySorted(server, T.SeqNo)
    ensures r.segments == Above(server, 0) && r.total == |r.segments|
    ensures forall s :: s in r.segments <==> s in server && s.seqNo > 0
    ensures StrictlySorted(r.segments, T.SeqNo)
    ensures requests == |r.segments| / 1000 + 1
  {
    var segments: seq<T.Segment> := [];
    var afterSeq := 0;
    requests := 0;
    ghost var all := Above(server, 0);
    while true
      invariant segments + Above(server, afterSeq) == all
      invariant |segments| == LIMIT * requests
      decreases |Above(server, afterSeq)|
    {
      var page := Page(server, afterSeq);
      requests := requests + 1;
      segments := segments + page;
      if |page| < LIMIT { break; }
      NextPage(server, afterSeq);
      afterSeq := page[|page| - 1].seqNo;
    }
    FilterMembers(server, SeqAbove(0));
    FilterStrictlySorted(server, SeqAbove(0), T.SeqNo);
    r := T.Response(segments, |segments|);
  }

  lemma {:induction false} AboveTwice(s: seq<T.Segment>, a: int, b: int)
    requires a <= b
    ensures Above(Above(s, a), b) == Above(s, b)
  {
    if |s| == 0 {
    } else {
      AboveTwice(s[..|s| - 1], a, b);
      FilterSnoc(Above(s[..|s| - 1], a), s[|s| - 1], SeqAbove(b));
    }
  }

  lemma SplitAt(s: seq<T.Segment>, k: nat)
    requires StrictlySorted(s, T.SeqNo) && k < |s|
    ensures forall x :: x in s[..k + 1] ==> !SeqAbove(s[k].seqNo)(x)
    ensures forall x :: x in s[k + 1..] ==> SeqAbove(s[k].seqNo)(x)
  {
    forall i | 0 <= i < k ensures s[i].seqNo < s[k].seqNo { assert T.SeqNo(s[i]) < T.SeqNo(s[k]); }
    forall i | k < i < |s| ensures s[i].seqNo > s[k].seqNo { assert T.SeqNo(s[k]) < T.SeqNo(s[i]); }
  }

  /** In a strictly increasing list, what lies behind an element is the rest of the list. */
  lemma AboveIsSuffix(s: seq<T.Segment>, k: nat)
    requires StrictlySorted(s, T.SeqNo) && k < |s|
    ensures Above(s, s[k].seqNo) == s[k + 1..]
  {
    var keep := SeqAbove(s[k].seqNo);
    SplitAt(s, k);
    FilterAppend(s[..k + 1], s[k + 1..], keep);
    FilterNone(s[..k + 1], keep);
    FilterAll(s[k + 1..], keep);
    assert s == s[..k + 1] + s[k + 1..];
  }

  /** A full page leaves exactly the rest for the next request. */
  lemma NextPage(server: seq<T.Segment>, afterSeq: int)
    requires StrictlySorted(server, T.SeqNo) && |Page(server, afterSeq)| == LIMIT
    ensures var page := Page(server, afterSeq);
            Above(server, afterSeq) == page + Above(server, page[LIMIT - 1].seqNo)
  {
    var rest := Above(server, afterSeq);
    FilterStrictlySorted(server, SeqAbove(afterSeq), T.SeqNo);
    AboveIsSuffix(rest, LIMIT - 1);
    FilterMembers(server, SeqAbove(afterSeq));
    assert rest[LIMIT - 1] in rest;
    AboveTwice(server, afterSeq, rest[LIMIT - 1].seqNo);
    assert rest == rest[..LIMIT] + rest[LIMIT..];
    assert Page(server, afterSeq) == rest[..LIMIT];
  }
}
