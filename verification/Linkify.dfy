/** Turning bare URLs and file paths into Markdown links.  `linkify-it` and the
    file-path expression are oracles with stated contracts. */
module Linkify {
  import opened StableSort

  datatype LinkType = Url | Email | File

  datatype DetectedLink = DetectedLink(kind: LinkType, text: string, url: string, start: int, end: int)

  /** One match of linkify-it. */
  datatype Match = Match(mailto: bool, index: nat, lastIndex: nat, text: string, url: string)

  /** What linkify-it answers on each suffix of a text: `o[i]` are its matches in `text[i..]`.
      It is never asked about anything else. */
  type Oracle = seq<seq<Match>>

  /** One match of the file-path expression: the whole match and its path group. */
  datatype FileMatch = FileMatch(index: nat, full: string, path: string)

  /** `m` is a nonempty slice of the suffix of `text` that starts at `from`. */
  ghost predicate InBounds(text: string, from: nat, m: Match) {
    m.index < m.lastIndex && from + m.lastIndex <= |text| && |m.text| == m.lastIndex - m.index <= |m.url|
  }

  ghost predicate IsSlice(text: string, from: nat, m: Match) {
    InBounds(text, from, m) && m.text == text[from + m.index..from + m.lastIndex]
  }

  ghost predicate MatchesOf(text: string, from: nat, ms: seq<Match>) {
    && (forall k :: 0 <= k < |ms| ==> InBounds(text, from, ms[k]))
    && (forall k {:trigger IsSlice(text, from, ms[k])} :: 0 <= k < |ms| ==> IsSlice(text, from, ms[k]))
    && (forall k :: 0 < k < |ms| ==> ms[k - 1].lastIndex <= ms[k].index)
  }

  /** The contract of linkify-it: nonempty slices of the text, in order, disjoint. */
  ghost predicate Conforms(text: string, linkify: Oracle) {
    |linkify| == |text| + 1 && forall i :: 0 <= i <= |text| ==> MatchesOf(text, i, linkify[i])
  }

  ghost predicate FileMatchOf(text: string, f: FileMatch) {
    && f.path != ""
    && f.index + |f.full| <= |text|
    && text[f.index..f.index + |f.full|] == f.full
    && IndexOf(f.full, f.path, 0) != -1
  }

  /** The contract of the file-path expression: slices of the text, each holding its path. */
  ghost predicate FileMatchesOf(text: string, fs: seq<FileMatch>) {
    forall f :: f in fs ==> FileMatchOf(text, f)
  }

  ghost predicate OccursAt(full: string, path: string, k: int) {
    0 <= k && k + |path| <= |full| && full[k..k + |path|] == path
  }

  /** `full.indexOf(path)`, searching from `i`: the first occurrence. */
  function IndexOf(full: string, path: string, i: nat): (r: int)
    ensures r == -1 || (i <= r && r + |path| <= |full| && full[r..r + |path|] == path)
    ensures forall k :: i <= k && OccursAt(full, path, k) ==> 0 <= r <= k
    decreases |full| - i
  {
    if i + |path| > |full| then -1
    else if full[i..i + |path|] == path then i
    else if i == |full| then -1
    else IndexOf(full, path, i + 1)
  }

  /** Full-width punctuation that ends a URL. */
  predicate IsTerminator(c: char) {
    || '\U{FF01}' <= c <= '\U{FF0F}' || '\U{FF1A}' <= c <= '\U{FF20}'
    || '\U{FF3B}' <= c <= '\U{FF40}' || '\U{FF5B}' <= c <= '\U{FF5E}'
    || c == '\U{3001}' || c == '\U{3002}' || '\U{300C}' <= c <= '\U{3011}'
  }

  /** The terminators one by one. */
  lemma TerminatorCharacters(c: char)
    ensures IsTerminator(c)
       <==> || c in "\U{FF01}\U{FF02}\U{FF03}\U{FF04}\U{FF05}\U{FF06}\U{FF07}\U{FF08}\U{FF09}\U{FF0A}\U{FF0B}\U{FF0C}\U{FF0D}\U{FF0E}\U{FF0F}"
            || c in "\U{FF1A}\U{FF1B}\U{FF1C}\U{FF1D}\U{FF1E}\U{FF1F}\U{FF20}\U{FF3B}\U{FF3C}\U{FF3D}\U{FF3E}\U{FF3F}\U{FF40}"
            || c in "\U{FF5B}\U{FF5C}\U{FF5D}\U{FF5E}\U{3001}\U{3002}\U{300C}\U{300D}\U{300E}\U{300F}\U{3010}\U{3011}"
  {
  }

  /** `text.search(terminator)`. */
  function SearchTerminator(text: string, i: nat): (r: int)
    requires i <= |text|
    ensures r == -1 || (i <= r < |text| && IsTerminator(text[r]))
    ensures forall k :: i <= k < (if r == -1 then |text| else r) ==> !IsTerminator(text[k])
    decreases |text| - i
  {
    if i == |text| then -1
    else if IsTerminator(text[i]) then i
    else SearchTerminator(text, i + 1)
  }

  /* ---- URL and e-mail matches ---- */

  /** The link emitted for one match whose first terminator is at `cjk` (or -1). */
  function Emitted(m: Match, cjk: int, offset: nat): DetectedLink
    requires -1 <= cjk < |m.text| <= |m.url|
  {
    var truncate := cjk > 0;
    var matchText := if truncate then m.text[..cjk] else m.text;
    var schemePrefix := m.url[..|m.url| - |m.text|];
    DetectedLink(
      if m.mailto then Email else Url,
      matchText,
      if truncate then schemePrefix + matchText else m.url,
      m.index + offset,
      (if truncate then m.index + cjk else m.lastIndex) + offset)
  }

  /** Position of the first terminator in a match, or -1. */
  function Terminator(m: Match): int { SearchTerminator(m.text, 0) }

  /** Where the rescan after a cut match starts: right behind its terminator. */
  function TailStart(m: Match): nat
    requires Terminator(m) > 0
  {
    m.index + Terminator(m) + 1
  }

  /** Index of the first match that is cut at a terminator, or `|ms|`. */
  ghost function FirstCut(ms: seq<Match>, k: nat): (r: nat)
    requires k <= |ms|
    ensures k <= r <= |ms|
    ensures r < |ms| ==> Terminator(ms[r]) > 0
    ensures forall j :: k <= j < r ==> Terminator(ms[j]) <= 0
    decreases |ms| - k
  {
    if k == |ms| || Terminator(ms[k]) > 0 then k else FirstCut(ms, k + 1)
  }

  /** The links of the first `k` matches, none of them cut; those that start with a terminator are dropped. */
  ghost function Uncut(ms: seq<Match>, offset: nat, k: nat): seq<DetectedLink>
    requires k <= |ms|
    requires forall j :: 0 <= j < k ==> Terminator(ms[j]) <= 0 && |ms[j].text| <= |ms[j].url|
  {
    if k == 0 then []
    else if Terminator(ms[k - 1]) == 0 then Uncut(ms, offset, k - 1)
    else Uncut(ms, offset, k - 1) + [Emitted(ms[k - 1], -1, offset)]
  }

  /** All links from position `from` on: the uncut matches, then a cut one and
      a rescan of what follows its terminator. */
  ghost function Collected(text: string, from: nat, linkify: Oracle): seq<DetectedLink>
    requires Conforms(text, linkify) && from <= |text|
    decreases |text| - from
  {
    var ms := linkify[from];
    var k := FirstCut(ms, 0);
    if k == |ms| then Uncut(ms, from, k)
    else WithTail(ms, from, k, Collected(text, from + TailStart(ms[k]), linkify))
  }

  /** The uncut links before match `k`, match `k` cut at its terminator, and the links of the rescan. */
  ghost function WithTail(ms: seq<Match>, from: nat, k: nat, tail: seq<DetectedLink>): seq<DetectedLink>
    requires k < |ms| && Terminator(ms[k]) > 0
    requires forall j :: 0 <= j <= k ==> |ms[j].text| <= |ms[j].url|
    requires forall j :: 0 <= j < k ==> Terminator(ms[j]) <= 0
  {
    Uncut(ms, from, k) + [Emitted(ms[k], Terminator(ms[k]), from)] + tail
  }

  /** Scans the suffix of `text` that starts at `offset`. */
  method CollectLinkifyMatches(text: string, offset: nat, out: seq<DetectedLink>, linkify: Oracle)
    returns (links: seq<DetectedLink>)
    requires Conforms(text, linkify) && offset <= |text|
    ensures links == out + Collected(text, offset, linkify)
    decreases |text| - offset
  {
    var matches := linkify[offset];
    var k;
    links, k := EmitUntilCut(matches, offset, out);
    if k < |matches| {
      links := links + [Emitted(matches[k], Terminator(matches[k]), offset)];
      var tailStart := TailStart(matches[k]);
      AssociateLinks(out, Uncut(matches, offset, k), Emitted(matches[k], Terminator(matches[k]), offset),
                     Collected(text, offset + tailStart, linkify));
      links := CollectLinkifyMatches(text, offset + tailStart, links, linkify);
    }
  }

  /** The loop over the matches, up to the first one that is cut. */
  method EmitUntilCut(matches: seq<Match>, offset: nat, out: seq<DetectedLink>)
    returns (links: seq<DetectedLink>, k: nat)
    requires forall m :: m in matches ==> |m.text| <= |m.url|
    ensures k == FirstCut(matches, 0)
    ensures links == out + Uncut(matches, offset, k)
  {
    links, k := out, 0;
    while k < |matches|
      invariant 0 <= k <= |matches|
      invariant FirstCut(matches, k) == FirstCut(matches, 0)
      invariant forall j :: 0 <= j < k ==> Terminator(matches[j]) <= 0
      invariant links == out + Uncut(matches, offset, k)
    {
      var cjkIdx := Terminator(matches[k]);
      if cjkIdx > 0 { return; }
      if cjkIdx == 0 {
        k := k + 1;
        continue;
      }
      links := links + [Emitted(matches[k], -1, offset)];
      k := k + 1;
    }
  }

  lemma AssociateLinks(a: seq<DetectedLink>, b: seq<DetectedLink>, l: DetectedLink, c: seq<DetectedLink>)
    ensures (a + b + [l]) + c == a + (b + [l] + c)
  {
  }

  /** A link is a nonempty slice of the text found at its recorded position. */
  ghost predicate Locates(text: string, l: DetectedLink) {
    0 <= l.start < l.end <= |text| && text[l.start..l.end] == l.text
  }

  ghost predicate NoTerminator(s: string) {
    forall i :: 0 <= i < |s| ==> !IsTerminator(s[i])
  }

  ghost predicate Increasing(links: seq<DetectedLink>) {
    forall i, j :: 0 <= i < j < |links| ==> links[i].end <= links[j].start
  }

  /** Located in the text, at `from` or later, and without a terminator. */
  ghost predicate Found(text: string, from: int, l: DetectedLink) {
    Locates(text, l) && NoTerminator(l.text) && from <= l.start
  }

  lemma SliceOfSlice(text: string, a: nat, b: nat, p: nat, q: nat)
    requires a <= b <= |text| && p <= q <= b - a
    ensures text[a..b][p..q] == text[a + p..a + q]
  {
    var l, r := text[a..b][p..q], text[a + p..a + q];
    assert forall i :: 0 <= i < q - p ==> l[i] == text[a..b][p + i] == text[a + p + i] == r[i];
  }

  lemma CutFound(text: string, from: nat, m: Match)
    requires IsSlice(text, from, m) && Terminator(m) > 0
    ensures Found(text, from + m.index, Emitted(m, Terminator(m), from))
    ensures Emitted(m, Terminator(m), from).end < from + TailStart(m) <= |text|
  {
    SliceOfSlice(text, from + m.index, from + m.lastIndex, 0, Terminator(m));
  }

  lemma WholeFound(text: string, from: nat, m: Match)
    requires IsSlice(text, from, m) && Terminator(m) == -1
    ensures Found(text, from + m.index, Emitted(m, -1, from))
    ensures Emitted(m, -1, from).end == from + m.lastIndex
  {
  }

  /** Every link is found at `from` or later, and all end at `to` or before. */
  ghost predicate AllFound(text: string, from: int, to: int, links: seq<DetectedLink>) {
    forall l {:trigger Found(text, from, l)} {:trigger l in links} :: l in links ==> Found(text, from, l) && l.end <= to
  }

  lemma FoundConcat(text: string, from: int, at: int, to: int, a: seq<DetectedLink>, b: seq<DetectedLink>)
    requires Increasing(a) && Increasing(b) && from <= at <= to
    requires AllFound(text, from, at, a) && AllFound(text, at, to, b)
    ensures Increasing(a + b) && AllFound(text, from, to, a + b)
  {
    forall i, j | 0 <= i < j < |a + b| ensures (a + b)[i].end <= (a + b)[j].start {
      if i < |a| <= j {
        assert a[i] in a && b[j - |a|] in b;
      }
    }
  }

  lemma {:induction false} UncutFound(text: string, from: nat, ms: seq<Match>, k: nat)
    requires from <= |text| && MatchesOf(text, from, ms) && k <= |ms|
    requires forall j :: 0 <= j < k ==> Terminator(ms[j]) <= 0
    ensures Increasing(Uncut(ms, from, k))
    ensures AllFound(text, from, from + (if k > 0 then ms[k - 1].lastIndex else 0), Uncut(ms, from, k))
  {
    if k == 0 {
    } else {
      var m := ms[k - 1];
      UncutFound(text, from, ms, k - 1);
      assert IsSlice(text, from, m);
      if Terminator(m) != 0 {
        WholeFound(text, from, m);
        var l := Emitted(m, -1, from);
        assert AllFound(text, from + m.index, from + m.lastIndex, [l]);
        FoundConcat(text, from, from + m.index, from + m.lastIndex, Uncut(ms, from, k - 1), [l]);
      }
    }
  }

  /** For every conforming oracle the links come in increasing disjoint order, each is the
      text at its original position, and none holds a terminator. */
  lemma {:induction false} CollectedCorrect(text: string, from: nat, linkify: Oracle)
    requires Conforms(text, linkify) && from <= |text|
    ensures Increasing(Collected(text, from, linkify))
    ensures AllFound(text, from, |text|, Collected(text, from, linkify))
    decreases |text| - from
  {
    var ms := linkify[from];
    assert MatchesOf(text, from, ms);
    var k := FirstCut(ms, 0);
    UncutFound(text, from, ms, k);
    if k < |ms| {
      var next := from + TailStart(ms[k]);
      CollectedCorrect(text, next, linkify);
      TailFollows(text, from, ms, k, Collected(text, next, linkify));
    }
  }

  /** The uncut links, the cut one and the links of the tail follow each other. */
  lemma TailFollows(text: string, from: nat, ms: seq<Match>, k: nat, tail: seq<DetectedLink>)
    requires from <= |text| && MatchesOf(text, from, ms) && k == FirstCut(ms, 0) < |ms|
    requires Increasing(Uncut(ms, from, k))
    requires AllFound(text, from, from + (if k > 0 then ms[k - 1].lastIndex else 0), Uncut(ms, from, k))
    requires Increasing(tail) && AllFound(text, from + TailStart(ms[k]), |text|, tail)
    ensures Increasing(WithTail(ms, from, k, tail)) && AllFound(text, from, |text|, WithTail(ms, from, k, tail))
  {
    assert IsSlice(text, from, ms[k]);
    CutFound(text, from, ms[k]);
    var uncut, l := Uncut(ms, from, k), Emitted(ms[k], Terminator(ms[k]), from);
    var next := from + TailStart(ms[k]);
    assert AllFound(text, l.start, next, [l]);
    FoundConcat(text, from, l.start, next, uncut, [l]);
    FoundConcat(text, from, next, |text|, uncut + [l], tail);
  }

  /* ---- Every link is found ---- */

  /** No terminator cuts the first `k` matches: each has none, or starts with one and is dropped. */
  ghost predicate NoCutBefore(ms: seq<Match>, k: nat) {
    k <= |ms| && forall j :: 0 <= j < k ==> NoTerminator(ms[j].text) || (|ms[j].text| > 0 && IsTerminator(ms[j].text[0]))
  }

  /** The first match with a terminator behind its start is the `k`th, and the terminator is at `t`. */
  ghost predicate FirstCutAt(ms: seq<Match>, k: nat, t: nat) {
    && NoCutBefore(ms, k) && k < |ms|
    && 0 < t < |ms[k].text| && IsTerminator(ms[k].text[t]) && NoTerminator(ms[k].text[..t])
  }

  /** One of the first `k` matches, emitted as linkify-it gave it. */
  ghost predicate EmittedWhole(ms: seq<Match>, from: nat, k: nat, l: DetectedLink)
    requires k <= |ms|
  {
    exists j :: 0 <= j < k && NoTerminator(ms[j].text)
      && l == DetectedLink(if ms[j].mailto then Email else Url, ms[j].text, ms[j].url, from + ms[j].index, from + ms[j].lastIndex)
  }

  /** The match up to its terminator, with what linkify-it put before the text of its URL. */
  ghost function CutLink(m: Match, from: nat, t: nat): DetectedLink
    requires t <= |m.text| <= |m.url|
  {
    DetectedLink(if m.mailto then Email else Url, m.text[..t], m.url[..|m.url| - |m.text|] + m.text[..t],
                 from + m.index, from + m.index + t)
  }

  lemma TerminatorIs(m: Match)
    ensures Terminator(m) == -1 <==> NoTerminator(m.text)
    ensures Terminator(m) == 0 <==> |m.text| > 0 && IsTerminator(m.text[0])
    ensures forall t :: 0 < t < |m.text| && IsTerminator(m.text[t]) && NoTerminator(m.text[..t]) ==> Terminator(m) == t
  {
    forall t | 0 < t < |m.text| && IsTerminator(m.text[t]) && NoTerminator(m.text[..t]) ensures Terminator(m) == t {
      assert forall i :: 0 <= i < t ==> m.text[..t][i] == m.text[i];
    }
  }

  lemma {:induction false} UncutMembers(ms: seq<Match>, from: nat, k: nat, l: DetectedLink)
    requires k <= |ms| && forall j :: 0 <= j < k ==> Terminator(ms[j]) <= 0 && |ms[j].text| <= |ms[j].url|
    ensures l in Uncut(ms, from, k) <==> EmittedWhole(ms, from, k, l)
  {
    if k == 0 {
    } else {
      UncutMembers(ms, from, k - 1, l);
      TerminatorIs(ms[k - 1]);
    }
  }

  lemma {:induction false} NothingCut(ms: seq<Match>, k: nat, i: nat)
    requires NoCutBefore(ms, k) && i <= k
    ensures FirstCut(ms, i) >= k && forall j :: 0 <= j < k ==> Terminator(ms[j]) <= 0
    decreases k - i
  {
    forall j | 0 <= j < k ensures Terminator(ms[j]) <= 0 { TerminatorIs(ms[j]); }
    if i == k {
    } else {
      NothingCut(ms, k, i + 1);
    }
  }

  /** Without a cut the links are exactly the matches that do not start with a terminator, as they are. */
  lemma AllEmittedWithoutCut(text: string, from: nat, linkify: Oracle, l: DetectedLink)
    requires Conforms(text, linkify) && from <= |text| && NoCutBefore(linkify[from], |linkify[from]|)
    ensures l in Collected(text, from, linkify) <==> EmittedWhole(linkify[from], from, |linkify[from]|, l)
  {
    var ms := linkify[from];
    NothingCut(ms, |ms|, 0);
    assert MatchesOf(text, from, ms);
    UncutMembers(ms, from, |ms|, l);
  }

  lemma CutIsFirst(ms: seq<Match>, k: nat, t: nat)
    requires FirstCutAt(ms, k, t)
    ensures FirstCut(ms, 0) == k && Terminator(ms[k]) == t
  {
    NothingCut(ms, k, 0);
    TerminatorIs(ms[k]);
  }

  lemma CutInText(text: string, from: nat, linkify: Oracle, k: nat, t: nat)
    requires Conforms(text, linkify) && from <= |text| && FirstCutAt(linkify[from], k, t)
    ensures |linkify[from][k].text| <= |linkify[from][k].url| && from + linkify[from][k].index + t < |text|
    ensures forall j :: 0 <= j <= k ==> |linkify[from][j].text| <= |linkify[from][j].url|
  {
    assert MatchesOf(text, from, linkify[from]);
    assert IsSlice(text, from, linkify[from][k]);
  }

  lemma CollectedUnfolds(text: string, from: nat, linkify: Oracle, k: nat, t: nat)
    requires Conforms(text, linkify) && from <= |text| && FirstCutAt(linkify[from], k, t)
    requires from + linkify[from][k].index + t < |text|
    requires forall j :: 0 <= j <= k ==> |linkify[from][j].text| <= |linkify[from][j].url|
    ensures Terminator(linkify[from][k]) == t && forall j :: 0 <= j < k ==> Terminator(linkify[from][j]) <= 0
    ensures Collected(text, from, linkify)
         == WithTail(linkify[from], from, k, Collected(text, from + linkify[from][k].index + t + 1, linkify))
  {
    CutIsFirst(linkify[from], k, t);
    NothingCut(linkify[from], k, 0);
  }

  lemma WithTailMembers(ms: seq<Match>, from: nat, k: nat, t: nat, tail: seq<DetectedLink>, l: DetectedLink)
    requires FirstCutAt(ms, k, t) && forall j :: 0 <= j <= k ==> |ms[j].text| <= |ms[j].url|
    ensures FirstCut(ms, 0) == k && Terminator(ms[k]) == t
    ensures l in WithTail(ms, from, k, tail) <==> EmittedWhole(ms, from, k, l) || l == CutLink(ms[k], from, t) || l in tail
  {
    CutIsFirst(ms, k, t);
    NothingCut(ms, k, 0);
    UncutMembers(ms, from, k, l);
    assert CutLink(ms[k], from, t) == Emitted(ms[k], t, from);
    InThree(Uncut(ms, from, k), Emitted(ms[k], t, from), tail, l);
  }

  lemma InThree(a: seq<DetectedLink>, b: DetectedLink, c: seq<DetectedLink>, l: DetectedLink)
    ensures l in a + [b] + c <==> l in a || l == b || l in c
  {
  }

  /** With a first cut the links are exactly the whole matches before it, the cut one up to its terminator,
      and every link found by scanning the text right behind that terminator. */
  lemma AllEmittedWithCut(text: string, from: nat, linkify: Oracle, k: nat, t: nat, l: DetectedLink)
    requires Conforms(text, linkify) && from <= |text| && FirstCutAt(linkify[from], k, t)
    ensures var m := linkify[from][k];
            && |m.text| <= |m.url| && from + m.index + t < |text|
            && (l in Collected(text, from, linkify)
                <==> || EmittedWhole(linkify[from], from, k, l)
                     || l == CutLink(m, from, t)
                     || l in Collected(text, from + m.index + t + 1, linkify))
  {
    CutInText(text, from, linkify, k, t);
    CollectedUnfolds(text, from, linkify, k, t);
    WithTailMembers(linkify[from], from, k, t, Collected(text, from + linkify[from][k].index + t + 1, linkify), l);
  }

  /** A cut keeps the scheme: if the match's URL is a scheme and its text, so is the link's. */
  lemma CutKeepsScheme(m: Match, from: nat, t: nat, scheme: string)
    requires t <= |m.text| && m.url == scheme + m.text
    ensures CutLink(m, from, t).url == scheme + CutLink(m, from, t).text
  {
    assert m.url[..|m.url| - |m.text|] == scheme;
  }

  /* ---- File paths and the final order ---- */

  predicate Overlap(aStart: int, aEnd: int, bStart: int, bEnd: int) {
    aStart < bEnd && bStart < aEnd
  }

  predicate LinksOverlap(a: DetectedLink, b: DetectedLink) {
    Overlap(a.start, a.end, b.start, b.end)
  }

  function FileLink(f: FileMatch): DetectedLink {
    var start := f.index + IndexOf(f.full, f.path, 0);
    DetectedLink(File, f.path, f.path, start, start + |f.path|)
  }

  /** Adds each file path that overlaps nothing added before it. */
  ghost function WithFiles(links: seq<DetectedLink>, fs: seq<FileMatch>): seq<DetectedLink> {
    if |fs| == 0 then links
    else
      var before := WithFiles(links, fs[..|fs| - 1]);
      var l := FileLink(fs[|fs| - 1]);
      if exists q :: q in before && LinksOverlap(l, q) then before else before + [l]
  }

  function Start(l: DetectedLink): int { l.start }

  ghost function Detected(text: string, linkify: Oracle, files: seq<FileMatch>): seq<DetectedLink>
    requires Conforms(text, linkify)
  {
    Sort(WithFiles(Collected(text, 0, linkify), files), Start)
  }

  method DetectLinks(text: string, linkify: Oracle, files: seq<FileMatch>) returns (links: seq<DetectedLink>)
    requires Conforms(text, linkify)
    ensures links == Detected(text, linkify, files)
  {
    links := CollectLinkifyMatches(text, 0, [], linkify);
    ghost var urls := links;
    assert urls == Collected(text, 0, linkify);
    assert files[..0] == [];
    for k := 0 to |files|
      invariant links == WithFiles(urls, files[..k])
    {
      assert files[..k + 1][..k] == files[..k];
      var path := FileLink(files[k]);
      var overlapsUrl := exists q :: q in links && LinksOverlap(path, q);
      if overlapsUrl { continue; }
      links := links + [path];
    }
    assert files[..|files|] == files;
    links := Sort(links, Start);
  }

  ghost predicate Disjoint(links: seq<DetectedLink>) {
    forall i, j :: 0 <= i < j < |links| ==> !LinksOverlap(links[i], links[j])
  }

  lemma {:induction false} WithFilesDisjoint(text: string, links: seq<DetectedLink>, fs: seq<FileMatch>)
    requires Disjoint(links) && FileMatchesOf(text, fs)
    requires forall l :: l in links ==> Locates(text, l)
    ensures Disjoint(WithFiles(links, fs))
    ensures forall l :: l in WithFiles(links, fs) ==> Locates(text, l)
  {
    if |fs| == 0 {
    } else {
      var front := fs[..|fs| - 1];
      WithFilesDisjoint(text, links, front);
      FileLinkLocates(text, fs[|fs| - 1]);
      var before, l := WithFiles(links, front), FileLink(fs[|fs| - 1]);
      if !exists q :: q in before && LinksOverlap(l, q) {
        forall i | 0 <= i < |before| ensures !LinksOverlap(before[i], l) { assert before[i] in before; }
      }
    }
  }

  /** A file path stands where its text first occurs in the whole match. */
  ghost predicate StandsAt(f: FileMatch, start: int) {
    OccursAt(f.full, f.path, start - f.index) && forall k :: OccursAt(f.full, f.path, k) ==> start - f.index <= k
  }

  ghost predicate LinkOfFile(f: FileMatch, l: DetectedLink) {
    l == DetectedLink(File, f.path, f.path, l.start, l.start + |f.path|) && StandsAt(f, l.start)
  }

  lemma FileLinkIs(text: string, f: FileMatch)
    requires FileMatchOf(text, f)
    ensures LinkOfFile(f, FileLink(f))
  {
  }

  lemma OnlyOneLink(f: FileMatch, l: DetectedLink, q: DetectedLink)
    requires LinkOfFile(f, l) && LinkOfFile(f, q)
    ensures l == q
  {
    assert OccursAt(f.full, f.path, l.start - f.index) && OccursAt(f.full, f.path, q.start - f.index);
  }

  lemma {:induction false} WithFilesMembers(text: string, links: seq<DetectedLink>, fs: seq<FileMatch>)
    requires FileMatchesOf(text, fs)
    ensures forall l :: l in links ==> l in WithFiles(links, fs)
    ensures forall l :: l in WithFiles(links, fs) ==> l in links || exists f :: f in fs && l == FileLink(f)
    ensures forall f :: f in fs ==> Present(WithFiles(links, fs), FileLink(f))
  {
    if |fs| == 0 {
    } else {
      var front, f := fs[..|fs| - 1], fs[|fs| - 1];
      WithFilesMembers(text, links, front);
      assert fs == front + [f];
      FileLinkIs(text, f);
      var before, all := WithFiles(links, front), WithFiles(links, fs);
      forall g | g in fs ensures Present(all, FileLink(g)) {
        if g in front { assert Present(before, FileLink(g)); }
      }
    }
  }

  /** The link is there, or one that shares a character with it. */
  ghost predicate Present(links: seq<DetectedLink>, l: DetectedLink) {
    l in links || exists q :: q in links && l.start < q.end && q.start < l.end
  }

  /** No link is lost or made up: all URLs and e-mails are there; a file path is there unless it shares
      a character with another link; and there is nothing else. */
  lemma AllDetected(text: string, linkify: Oracle, files: seq<FileMatch>)
    requires Conforms(text, linkify) && FileMatchesOf(text, files)
    ensures forall l :: l in Collected(text, 0, linkify) ==> l in Detected(text, linkify, files)
    ensures forall f, l :: f in files && LinkOfFile(f, l) ==> Present(Detected(text, linkify, files), l)
    ensures forall l :: l in Detected(text, linkify, files) ==>
              l in Collected(text, 0, linkify) || exists f :: f in files && LinkOfFile(f, l)
  {
    var all := WithFiles(Collected(text, 0, linkify), files);
    WithFilesMembers(text, Collected(text, 0, linkify), files);
    SortMembers(all, Start);
    forall f | f in files ensures LinkOfFile(f, FileLink(f)) { FileLinkIs(text, f); }
    forall f, l | f in files && LinkOfFile(f, l) ensures Present(Detected(text, linkify, files), l) {
      OnlyOneLink(f, l, FileLink(f));
      assert Present(all, l);
    }
  }

  lemma FileLinkLocates(text: string, f: FileMatch)
    requires FileMatchOf(text, f)
    ensures Locates(text, FileLink(f))
  {
    var p := IndexOf(f.full, f.path, 0);
    SliceOfSlice(text, f.index, f.index + |f.full|, p, p + |f.path|);
  }

  lemma IncreasingSnoc(links: seq<DetectedLink>, l: DetectedLink)
    ensures Increasing(links + [l]) <==> Increasing(links) && forall q :: q in links ==> q.end <= l.start
  {
    var all := links + [l];
    assert forall i :: 0 <= i < |links| ==> all[i] == links[i];
    if Increasing(all) {
      forall q | q in links ensures q.end <= l.start {
        var i :| 0 <= i < |links| && links[i] == q;
        assert all[i].end <= all[|links|].start;
      }
      assert forall i, j :: 0 <= i < j < |links| ==> all[i].end <= all[j].start;
    }
  }

  lemma {:induction false} InsertIncreasing(links: seq<DetectedLink>, l: DetectedLink)
    requires Increasing(links) && l.start < l.end
    requires forall q :: q in links ==> q.start < q.end && !LinksOverlap(q, l)
    ensures Increasing(Insert(links, l, Start))
  {
    if |links| == 0 {
    } else {
      var front, last := links[..|links| - 1], links[|links| - 1];
      assert links == front + [last];
      IncreasingSnoc(front, last);
      if last.start <= l.start {
        IncreasingSnoc(links, l);
      } else {
        InsertIncreasing(front, l);
        InsertMembers(front, l, Start);
        IncreasingSnoc(Insert(front, l, Start), last);
      }
    }
  }

  lemma {:induction false} SortIncreasing(links: seq<DetectedLink>)
    requires Disjoint(links) && forall q :: q in links ==> q.start < q.end
    ensures Increasing(Sort(links, Start))
  {
    if |links| == 0 {
    } else {
      var front, last := links[..|links| - 1], links[|links| - 1];
      SortIncreasing(front);
      SortSorts(front, Start);
      forall q | q in front ensures !LinksOverlap(q, last) {
        var i :| 0 <= i < |front| && front[i] == q;
        assert links[i] == q;
      }
      InsertIncreasing(Sort(front, Start), last);
    }
  }

  /** All links that reach the rewriter: in the text, in order, disjoint. */
  lemma DetectedCorrect(text: string, linkify: Oracle, files: seq<FileMatch>)
    requires Conforms(text, linkify) && FileMatchesOf(text, files)
    ensures Increasing(Detected(text, linkify, files))
    ensures forall l :: l in Detected(text, linkify, files) ==> Locates(text, l)
  {
    CollectedCorrect(text, 0, linkify);
    WithFilesDisjoint(text, Collected(text, 0, linkify), files);
    var all := WithFiles(Collected(text, 0, linkify), files);
    SortIncreasing(all);
    SortSorts(all, Start);
  }
}
