/** The splice that turns chosen links of a text into Markdown. */
module LinkRewriter {
  import opened Sequences
  import opened LinkScanner
  import opened Linkify

  /** The result as a list of pieces: text copied unchanged, and rewritten links. */
  datatype Piece = Copied(text: string) | Rewritten(text: string, url: string)

  function Written(p: Piece): string {
    match p
    case Copied(t) => t
    case Rewritten(t, u) => "[" + t + "](" + u + ")"
  }

  function Render(ps: seq<Piece>): string {
    if |ps| == 0 then "" else Render(ps[..|ps| - 1]) + Written(ps[|ps| - 1])
  }

  /** Undoing the rewriting: every rewritten link gives back its text. */
  function Undo(ps: seq<Piece>): string {
    if |ps| == 0 then "" else Undo(ps[..|ps| - 1]) + ps[|ps| - 1].text
  }

  /** Where the last of the links ends. */
  ghost function LastEnd(links: seq<DetectedLink>): int {
    if |links| == 0 then 0 else links[|links| - 1].end
  }

  ghost predicate Fits(text: string, links: seq<DetectedLink>) {
    Increasing(links) && forall l :: l in links ==> Locates(text, l)
  }

  ghost function Front(links: seq<DetectedLink>): seq<DetectedLink>
    requires |links| > 0
  {
    links[..|links| - 1]
  }

  ghost function Last(links: seq<DetectedLink>): DetectedLink
    requires |links| > 0
  {
    links[|links| - 1]
  }

  /** The pieces up to the end of the last link. */
  ghost function PiecesTo(text: string, links: seq<DetectedLink>): seq<Piece>
    requires Fits(text, links)
  {
    if |links| == 0 then []
    else
      FitsFront(text, links);
      PiecesTo(text, Front(links))
        + [Copied(text[LastEnd(Front(links))..Last(links).start]), Rewritten(Last(links).text, Last(links).url)]
  }

  lemma FrontBefore(links: seq<DetectedLink>)
    requires Increasing(links) && |links| > 0
    ensures Increasing(Front(links)) && Last(links) in links
    ensures forall l :: l in Front(links) ==> l in links && l.end <= Last(links).start
    ensures forall l :: l in links ==> l == Last(links) || l in Front(links)
    ensures |Front(links)| > 0 ==> Front(links)[|Front(links)| - 1] in Front(links)
  {
    assert links == Front(links) + [Last(links)];
    IncreasingSnoc(Front(links), Last(links));
  }

  lemma FitsFront(text: string, links: seq<DetectedLink>)
    requires Fits(text, links) && |links| > 0
    ensures Fits(text, Front(links)) && Last(links) in links
    ensures 0 <= LastEnd(Front(links)) <= Last(links).start < Last(links).end <= |text|
    ensures Locates(text, Last(links)) && LastEnd(links) == Last(links).end
    ensures forall l :: l in links ==> l == Last(links) || (l in Front(links) && l.end <= Last(links).start)
  {
    FrontBefore(links);
  }

  lemma LastEndInText(text: string, links: seq<DetectedLink>)
    requires Fits(text, links)
    ensures 0 <= LastEnd(links) <= |text|
  {
    if |links| > 0 { FitsFront(text, links); }
  }

  ghost function Pieces(text: string, links: seq<DetectedLink>): seq<Piece>
    requires Fits(text, links)
  {
    LastEndInText(text, links);
    PiecesTo(text, links) + [Copied(text[LastEnd(links)..])]
  }

  lemma RenderSnoc(ps: seq<Piece>, p: Piece)
    ensures Render(ps + [p]) == Render(ps) + Written(p)
    ensures Undo(ps + [p]) == Undo(ps) + p.text
  {
    assert (ps + [p])[..|ps|] == ps;
  }

  /* ---- The choice of links ---- */

  predicate InsideCode(pos: int, codeRanges: seq<Range>) {
    exists r :: r in codeRanges && r.start <= pos < r.end
  }

  predicate InsideLink(l: DetectedLink, ranges: seq<Range>) {
    exists r :: r in ranges && Overlap(l.start, l.end, r.start, r.end)
  }

  /** Preceded by `](` or `][`, or wrapped in brackets. */
  predicate IsAlreadyLinked(text: string, start: int, end: int) {
    || (2 <= start <= |text| && (text[start - 2..start] == "](" || text[start - 2..start] == "]["))
    || (1 <= start <= |text| && 0 <= end < |text| && text[start - 1] == '[' && text[end] == ']')
  }

  predicate Keep(text: string, codeRanges: seq<Range>, ranges: seq<Range>, l: DetectedLink) {
    !InsideCode(l.start, codeRanges) && !InsideLink(l, ranges) && !IsAlreadyLinked(text, l.start, l.end)
  }

  function Chooser(text: string, codeRanges: seq<Range>, ranges: seq<Range>): DetectedLink -> bool {
    (l: DetectedLink) => Keep(text, codeRanges, ranges, l)
  }

  /** The links that are rewritten. */
  ghost function Chosen(text: string, codeRanges: seq<Range>, linkify: Oracle, files: seq<FileMatch>): seq<DetectedLink>
    requires Conforms(text, linkify)
  {
    Filter(Detected(text, linkify, files), Chooser(text, codeRanges, LinksFrom(text, 0)))
  }

  lemma {:induction false} FilterFits(text: string, links: seq<DetectedLink>, keep: DetectedLink -> bool)
    requires Fits(text, links)
    ensures Fits(text, Filter(links, keep))
    ensures LastEnd(Filter(links, keep)) <= LastEnd(links)
  {
    if |links| == 0 {
    } else {
      FitsFront(text, links);
      FilterFits(text, Front(links), keep);
      FilterMembers(Front(links), keep);
      IncreasingSnoc(Filter(Front(links), keep), Last(links));
    }
  }

  lemma ChosenFits(text: string, codeRanges: seq<Range>, linkify: Oracle, files: seq<FileMatch>)
    requires Conforms(text, linkify) && FileMatchesOf(text, files)
    ensures Fits(text, Chosen(text, codeRanges, linkify, files))
  {
    DetectedCorrect(text, linkify, files);
    FilterFits(text, Detected(text, linkify, files), Chooser(text, codeRanges, LinksFrom(text, 0)));
  }

  /** `mayHaveLinks` is the answer of the quick tests for URLs and for file paths. */
  method PreprocessLinks(text: string, mayHaveLinks: bool, codeRanges: seq<Range>, linkify: Oracle, files: seq<FileMatch>)
    returns (result: string)
    requires Conforms(text, linkify) && FileMatchesOf(text, files)
    ensures Fits(text, Chosen(text, codeRanges, linkify, files))
    ensures result == if mayHaveLinks then Render(Pieces(text, Chosen(text, codeRanges, linkify, files))) else text
  {
    ChosenFits(text, codeRanges, linkify, files);
    if !mayHaveLinks { return text; }
    var markdownLinkRanges := FindMarkdownLinkRanges(text);
    var links := DetectLinks(text, linkify, files);
    DetectedCorrect(text, linkify, files);
    if |links| == 0 {
      NothingToRewrite(text);
      return text;
    }
    result := Splice(text, links, codeRanges, markdownLinkRanges);
  }

  lemma NothingToRewrite(text: string)
    ensures Render(Pieces(text, [])) == text
  {
    RenderSnoc([], Copied(text));
    assert [] + [Copied(text[0..])] == [Copied(text)];
  }

  method Splice(text: string, links: seq<DetectedLink>, codeRanges: seq<Range>, ranges: seq<Range>)
    returns (result: string)
    requires Fits(text, links)
    ensures Fits(text, Filter(links, Chooser(text, codeRanges, ranges)))
    ensures result == Render(Pieces(text, Filter(links, Chooser(text, codeRanges, ranges))))
  {
    result := "";
    var lastIndex := 0;
    ghost var keep := Chooser(text, codeRanges, ranges);
    ghost var chosen := [];
    for k := 0 to |links|
      invariant chosen == Filter(links[..k], keep) && Fits(text, chosen)
      invariant lastIndex == LastEnd(chosen) && result == Render(PiecesTo(text, chosen))
    {
      var link := links[k];
      ghost var next := Filter(links[..k + 1], keep);
      ChooseOne(text, links, k, keep);
      if !Keep(text, codeRanges, ranges, link) { continue; }
      assert Front(next) == chosen && Last(next) == link;
      AddPieces(text, next);
      result := result + text[lastIndex..link.start];
      result := result + WrittenLink(link);
      lastIndex := link.end;
      chosen := next;
    }
    assert links[..|links|] == links;
    LastEndInText(text, chosen);
    RenderSnoc(PiecesTo(text, chosen), Copied(text[lastIndex..]));
    result := result + text[lastIndex..];
  }

  lemma ChooseOne(text: string, links: seq<DetectedLink>, k: nat, keep: DetectedLink -> bool)
    requires Fits(text, links) && k < |links|
    ensures Filter(links[..k + 1], keep)
         == if keep(links[k]) then Filter(links[..k], keep) + [links[k]] else Filter(links[..k], keep)
    ensures Fits(text, Filter(links[..k + 1], keep))
    ensures Locates(text, links[k]) && 0 <= LastEnd(Filter(links[..k], keep)) <= links[k].start
  {
    var upTo := links[..k + 1];
    assert Front(upTo) == links[..k] && Last(upTo) == links[k];
    assert upTo == links[..k] + [links[k]];
    FilterSnoc(links[..k], links[k], keep);
    forall l | l in upTo ensures Locates(text, l) { assert l in links; }
    assert Fits(text, upTo);
    FilterFits(text, upTo, keep);
    FitsFront(text, upTo);
    FilterFits(text, links[..k], keep);
    LastEndInText(text, Filter(links[..k], keep));
  }

  lemma RenderTwo(ps: seq<Piece>, p: Piece, q: Piece)
    ensures Render(ps + [p, q]) == Render(ps) + Written(p) + Written(q)
    ensures Undo(ps + [p, q]) == Undo(ps) + p.text + q.text
  {
    RenderSnoc(ps, p);
    RenderSnoc(ps + [p], q);
    assert ps + [p, q] == (ps + [p]) + [q];
  }

  lemma AddPieces(text: string, links: seq<DetectedLink>)
    requires Fits(text, links) && |links| > 0
    ensures Fits(text, Front(links)) && 0 <= LastEnd(Front(links)) <= Last(links).start <= |text|
    ensures Render(PiecesTo(text, links))
         == Render(PiecesTo(text, Front(links))) + text[LastEnd(Front(links))..Last(links).start] + WrittenLink(Last(links))
    ensures Undo(PiecesTo(text, links))
         == Undo(PiecesTo(text, Front(links))) + text[LastEnd(Front(links))..Last(links).start] + Last(links).text
  {
    FitsFront(text, links);
    RenderTwo(PiecesTo(text, Front(links)), Copied(text[LastEnd(Front(links))..Last(links).start]),
              Rewritten(Last(links).text, Last(links).url));
  }

  /* ---- What the result is ---- */

  function WrittenLink(l: DetectedLink): string { Written(Rewritten(l.text, l.url)) }

  lemma {:induction false} UndoTo(text: string, links: seq<DetectedLink>)
    requires Fits(text, links)
    ensures 0 <= LastEnd(links) <= |text|
    ensures Undo(PiecesTo(text, links)) == text[..LastEnd(links)]
  {
    if |links| == 0 {
    } else {
      FitsFront(text, links);
      UndoTo(text, Front(links));
      AddPieces(text, links);
      TakeThenSlice(text, LastEnd(Front(links)), Last(links).start);
      TakeThenSlice(text, Last(links).start, Last(links).end);
    }
  }

  lemma TakeThenSlice(text: string, a: nat, b: nat)
    requires a <= b <= |text|
    ensures text[..a] + text[a..b] == text[..b]
  {
  }

  /** Undoing the rewriting restores the input. */
  lemma UndoRestores(text: string, links: seq<DetectedLink>)
    requires Fits(text, links)
    ensures Undo(Pieces(text, links)) == text
  {
    UndoTo(text, links);
    RenderSnoc(PiecesTo(text, links), Copied(text[LastEnd(links)..]));
  }

  /** How far the rewriting moves what stands at or behind `pos`: each rewritten
      link before it grew by its URL and four brackets. */
  ghost function Shift(links: seq<DetectedLink>, pos: int): nat {
    if |links| == 0 then 0
    else Shift(Front(links), pos) + Growth(Last(links), pos)
  }

  ghost function Growth(l: DetectedLink, pos: int): nat {
    if l.end <= pos then |l.url| + 4 else 0
  }

  lemma {:induction false} ShiftGrows(text: string, links: seq<DetectedLink>, p: int, q: int)
    requires Fits(text, links) && p <= q
    ensures Shift(links, p) <= Shift(links, q)
    ensures LastEnd(links) <= p ==> Shift(links, p) == Shift(links, q)
  {
    if |links| == 0 {
    } else {
      FitsFront(text, links);
      ShiftGrows(text, Front(links), p, q);
    }
  }

  lemma {:induction false} RenderedLength(text: string, links: seq<DetectedLink>)
    requires Fits(text, links)
    ensures |Render(PiecesTo(text, links))| == LastEnd(links) + Shift(links, LastEnd(links))
  {
    if |links| == 0 {
    } else {
      FitsFront(text, links);
      RenderedLength(text, Front(links));
      AddPieces(text, links);
      ShiftGrows(text, Front(links), LastEnd(Front(links)), Last(links).end);
    }
  }

  ghost function Output(text: string, links: seq<DetectedLink>): string
    requires Fits(text, links)
  {
    Render(Pieces(text, links))
  }

  lemma OutputSplit(text: string, links: seq<DetectedLink>)
    requires Fits(text, links)
    ensures 0 <= LastEnd(links) <= |text|
    ensures Output(text, links) == Render(PiecesTo(text, links)) + text[LastEnd(links)..]
    ensures |Render(PiecesTo(text, links))| == LastEnd(links) + Shift(links, LastEnd(links))
  {
    LastEndInText(text, links);
    RenderSnoc(PiecesTo(text, links), Copied(text[LastEnd(links)..]));
    RenderedLength(text, links);
  }

  /** The part of the output up to where the last link starts. */
  ghost function Common(text: string, links: seq<DetectedLink>): string
    requires Fits(text, links) && |links| > 0
  {
    FitsFront(text, links);
    Render(PiecesTo(text, Front(links))) + text[LastEnd(Front(links))..Last(links).start]
  }

  lemma OutputWithout(text: string, links: seq<DetectedLink>)
    requires Fits(text, links) && |links| > 0
    ensures Fits(text, Front(links)) && 0 <= Last(links).start <= |text|
    ensures |Common(text, links)| == Last(links).start + Shift(Front(links), Last(links).start)
    ensures Output(text, Front(links)) == Common(text, links) + text[Last(links).start..]
  {
    FitsFront(text, links);
    var front, e := Front(links), LastEnd(Front(links));
    OutputSplit(text, front);
    ShiftGrows(text, front, e, Last(links).start);
    DropThenSlice(text, e, Last(links).start);
    Associate(Render(PiecesTo(text, front)), text[e..Last(links).start], text[Last(links).start..]);
  }

  lemma OutputWith(text: string, links: seq<DetectedLink>)
    requires Fits(text, links) && |links| > 0
    ensures 0 <= Last(links).end <= |text|
    ensures Output(text, links) == Common(text, links) + (WrittenLink(Last(links)) + text[Last(links).end..])
  {
    FitsFront(text, links);
    AddPieces(text, links);
    OutputSplit(text, links);
    Associate(Common(text, links), WrittenLink(Last(links)), text[Last(links).end..]);
  }

  lemma DropThenSlice(text: string, a: nat, b: nat)
    requires a <= b <= |text|
    ensures text[a..] == text[a..b] + text[b..]
  {
  }

  lemma Associate(a: string, b: string, c: string)
    ensures (a + b) + c == a + (b + c)
  {
  }

  /** The `n` characters of `s` from `p` on, or nothing when `s` ends before. */
  ghost function Window(s: string, p: int, n: nat): string {
    if 0 <= p && p + n <= |s| then s[p..p + n] else ""
  }

  lemma WindowInPrefix(common: string, more: string, more': string, p: int, n: nat)
    requires p + n <= |common|
    ensures Window(common + more, p, n) == Window(common + more', p, n)
  {
    if 0 <= p {
      assert (common + more)[p..p + n] == common[p..p + n] == (common + more')[p..p + n];
    }
  }

  lemma WindowBehind(common: string, w: string, more: string)
    ensures Window(common + (w + more), |common|, |w|) == w
  {
  }

  lemma WindowInTail(s: string, front: string, text: string, e: nat, a: nat, b: nat)
    requires e <= a <= b <= |text| && s == front + text[e..]
    ensures Window(s, |front| + a - e, b - a) == text[a..b]
  {
    var w := text[a..b];
    var p := |front| + a - e;
    forall i | 0 <= i < |w| ensures s[p..p + (b - a)][i] == w[i] {
      assert s[p + i] == text[e..][a - e + i] == text[a + i];
    }
  }

  /** What stands before the start of the last link stands there whether that link is rewritten or not. */
  lemma StaysBefore(text: string, links: seq<DetectedLink>, p: int, n: nat)
    requires Fits(text, links) && |links| > 0 && Fits(text, Front(links))
    requires p + n <= Last(links).start + Shift(Front(links), Last(links).start)
    ensures Window(Output(text, links), p, n) == Window(Output(text, Front(links)), p, n)
  {
    OutputWithout(text, links);
    OutputWith(text, links);
    WindowInPrefix(Common(text, links), text[Last(links).start..], WrittenLink(Last(links)) + text[Last(links).end..], p, n);
  }

  /** Where the output shows the text at `a`. */
  ghost function Moved(links: seq<DetectedLink>, a: int): int { a + Shift(links, a) }

  lemma UntouchedBehind(text: string, links: seq<DetectedLink>, a: nat, b: nat)
    requires Fits(text, links) && LastEnd(links) <= a < b <= |text|
    ensures Window(Output(text, links), Moved(links, a), b - a) == text[a..b]
  {
    OutputSplit(text, links);
    ShiftGrows(text, links, LastEnd(links), a);
    assert Moved(links, a) == |Render(PiecesTo(text, links))| + a - LastEnd(links);
    WindowInTail(Output(text, links), Render(PiecesTo(text, links)), text, LastEnd(links), a, b);
  }

  /** Text that no chosen link overlaps is in the output, unchanged, at its shifted position. */
  lemma {:induction false} UntouchedStays(text: string, links: seq<DetectedLink>, a: nat, b: nat)
    requires Fits(text, links) && a < b <= |text|
    requires forall l :: l in links ==> !Overlap(l.start, l.end, a, b)
    ensures Window(Output(text, links), Moved(links, a), b - a) == text[a..b]
  {
    if LastEnd(links) <= a {
      UntouchedBehind(text, links, a, b);
    } else {
      FitsFront(text, links);
      UntouchedStays(text, Front(links), a, b);
      WindowBefore(text, links, a, b);
    }
  }

  lemma WindowBefore(text: string, links: seq<DetectedLink>, a: nat, b: nat)
    requires Fits(text, links) && |links| > 0 && Fits(text, Front(links))
    requires a < b <= Last(links).start && Last(links).start < Last(links).end
    ensures Moved(links, a) == Moved(Front(links), a)
    ensures Window(Output(text, links), Moved(links, a), b - a)
         == Window(Output(text, Front(links)), Moved(links, a), b - a)
  {
    ShiftGrows(text, Front(links), a, Last(links).start);
    assert Moved(links, a) == Moved(Front(links), a);
    StaysBefore(text, links, Moved(links, a), b - a);
  }

  /** Each chosen link is in the output as `[text](url)`, at its shifted position. */
  lemma {:induction false} ChosenIsRewritten(text: string, links: seq<DetectedLink>, l: DetectedLink)
    requires Fits(text, links) && l in links
    ensures Window(Output(text, links), Moved(links, l.start), |WrittenLink(l)|) == WrittenLink(l)
  {
    FitsFront(text, links);
    assert Locates(text, l);
    if l == Last(links) {
      LastIsRewritten(text, links);
    } else {
      ChosenIsRewritten(text, Front(links), l);
      WrittenFits(text, Front(links), l, Last(links).start);
      assert Moved(links, l.start) == Moved(Front(links), l.start);
      StaysBefore(text, links, Moved(links, l.start), |WrittenLink(l)|);
    }
  }

  lemma LastIsRewritten(text: string, links: seq<DetectedLink>)
    requires Fits(text, links) && |links| > 0
    ensures Window(Output(text, links), Moved(links, Last(links).start), |WrittenLink(Last(links))|) == WrittenLink(Last(links))
  {
    FitsFront(text, links);
    OutputWith(text, links);
    OutputWithout(text, links);
    assert Moved(links, Last(links).start) == |Common(text, links)|;
    WindowBehind(Common(text, links), WrittenLink(Last(links)), text[Last(links).end..]);
  }

  /** The written form of a link ends before the shifted position of anything behind it. */
  lemma {:induction false} WrittenFits(text: string, links: seq<DetectedLink>, l: DetectedLink, pos: int)
    requires Fits(text, links) && l in links && LastEnd(links) <= pos
    ensures Moved(links, l.start) + |WrittenLink(l)| <= Moved(links, pos)
  {
    FitsFront(text, links);
    assert |l.text| == l.end - l.start;
    if l == Last(links) {
      ShiftGrows(text, Front(links), l.start, pos);
    } else {
      WrittenFits(text, Front(links), l, pos);
    }
  }

  /** The whole rewriting: undoing it restores the input, every Markdown link range of the
      input survives verbatim, and what is rewritten is exactly the chosen links, none of
      which starts in a code or math range or overlaps a Markdown link. */
  lemma PreprocessConserves(text: string, codeRanges: seq<Range>, linkify: Oracle, files: seq<FileMatch>)
    requires Conforms(text, linkify) && FileMatchesOf(text, files)
    ensures Fits(text, Chosen(text, codeRanges, linkify, files))
    ensures Undo(Pieces(text, Chosen(text, codeRanges, linkify, files))) == text
    ensures forall r :: r in LinksFrom(text, 0) ==> KeptVerbatim(text, Chosen(text, codeRanges, linkify, files), r)
    ensures forall l :: l in Chosen(text, codeRanges, linkify, files) ==>
              !InsideCode(l.start, codeRanges) && !InsideLink(l, LinksFrom(text, 0))
  {
    ChosenFits(text, codeRanges, linkify, files);
    UndoRestores(text, Chosen(text, codeRanges, linkify, files));
    FilterMembers(Detected(text, linkify, files), Chooser(text, codeRanges, LinksFrom(text, 0)));
    forall r | r in LinksFrom(text, 0) ensures KeptVerbatim(text, Chosen(text, codeRanges, linkify, files), r) {
      RangeKept(text, Chosen(text, codeRanges, linkify, files), r);
    }
  }

  /** What keeps a detected link as it is: it starts in a code or math range, shares a character with a
      Markdown link, follows `](` or `][`, or stands alone in brackets. */
  ghost predicate Excluded(text: string, codeRanges: seq<Range>, l: DetectedLink) {
    || (exists r :: r in codeRanges && r.start <= l.start < r.end)
    || (exists r :: r in LinksFrom(text, 0) && l.start < r.end && r.start < l.end)
    || (2 <= l.start <= |text| && text[l.start - 1] in "([" && text[l.start - 2] == ']')
    || (1 <= l.start <= |text| && 0 <= l.end < |text| && text[l.start - 1] == '[' && text[l.end] == ']')
  }

  lemma ExcludedIff(text: string, codeRanges: seq<Range>, l: DetectedLink)
    requires Locates(text, l)
    ensures Keep(text, codeRanges, LinksFrom(text, 0), l) <==> !Excluded(text, codeRanges, l)
  {
    if 2 <= l.start {
      var before := text[l.start - 2..l.start];
      assert before[0] == text[l.start - 2] && before[1] == text[l.start - 1];
      assert before == [before[0], before[1]];
    }
  }

  /** Every detected link: unless something excludes it, it stands in the output as `[text](url)` at its
      shifted position; otherwise its text stands there unchanged. */
  lemma RewrittenUnlessExcluded(text: string, codeRanges: seq<Range>, linkify: Oracle, files: seq<FileMatch>, l: DetectedLink)
    requires Conforms(text, linkify) && FileMatchesOf(text, files) && l in Detected(text, linkify, files)
    ensures Fits(text, Chosen(text, codeRanges, linkify, files))
    ensures var chosen := Chosen(text, codeRanges, linkify, files);
            var out := if Excluded(text, codeRanges, l) then l.text else "[" + l.text + "](" + l.url + ")";
            Window(Output(text, chosen), Moved(chosen, l.start), |out|) == out
  {
    var chosen := Chosen(text, codeRanges, linkify, files);
    ChosenFits(text, codeRanges, linkify, files);
    DetectedCorrect(text, linkify, files);
    ExcludedIff(text, codeRanges, l);
    FilterMembers(Detected(text, linkify, files), Chooser(text, codeRanges, LinksFrom(text, 0)));
    if Excluded(text, codeRanges, l) {
      ExcludedStays(text, Detected(text, linkify, files), chosen, l);
    } else {
      ChosenIsRewritten(text, chosen, l);
      LiteralLink(l);
    }
  }

  lemma LiteralLink(l: DetectedLink)
    ensures WrittenLink(l) == "[" + l.text + "](" + l.url + ")"
  {
  }

  lemma ExcludedStays(text: string, links: seq<DetectedLink>, chosen: seq<DetectedLink>, l: DetectedLink)
    requires Fits(text, links) && Fits(text, chosen) && l in links && l !in chosen && forall q :: q in chosen ==> q in links
    ensures Window(Output(text, chosen), Moved(chosen, l.start), |l.text|) == l.text
  {
    forall q | q in chosen ensures !Overlap(q.start, q.end, l.start, l.end) { Apart(links, q, l); }
    assert Locates(text, l);
    UntouchedStays(text, chosen, l.start, l.end);
  }

  /** Different detected links share no character. */
  lemma Apart(links: seq<DetectedLink>, q: DetectedLink, l: DetectedLink)
    requires Increasing(links) && q in links && l in links && q != l
    ensures !Overlap(q.start, q.end, l.start, l.end)
  {
    var i, j :| 0 <= i < |links| && 0 <= j < |links| && links[i] == q && links[j] == l;
    assert i < j ==> links[i].end <= links[j].start;
    assert j < i ==> links[j].end <= links[i].start;
  }

  ghost predicate KeptVerbatim(text: string, links: seq<DetectedLink>, r: Range)
    requires Fits(text, links)
  {
    r.start < r.end <= |text|
    && Window(Output(text, links), Moved(links, r.start), r.end - r.start) == text[r.start..r.end]
  }

  lemma RangeUntouched(text: string, links: seq<DetectedLink>, r: Range)
    requires r in LinksFrom(text, 0)
    requires forall l :: l in links ==> !InsideLink(l, LinksFrom(text, 0))
    ensures r.start < r.end <= |text|
    ensures forall l :: l in links ==> !Overlap(l.start, l.end, r.start, r.end)
  {
    LinksFromOrdered(text, 0);
    var k :| 0 <= k < |LinksFrom(text, 0)| && LinksFrom(text, 0)[k] == r;
  }

  lemma RangeKept(text: string, links: seq<DetectedLink>, r: Range)
    requires Fits(text, links) && r in LinksFrom(text, 0)
    requires forall l :: l in links ==> !InsideLink(l, LinksFrom(text, 0))
    ensures KeptVerbatim(text, links, r)
  {
    RangeUntouched(text, links, r);
    UntouchedStays(text, links, r.start, r.end);
  }
}
