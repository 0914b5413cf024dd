/** Finding the Markdown links already present in a text, by bracket counting
    over unescaped characters. */
module LinkScanner {

  datatype Range = Range(start: nat, end: nat)

  /* ---- Escapes ---- */

  /** Length of the run of backslashes that ends just before `i`. */
  ghost function Slashes(text: string, i: nat): nat
    requires i <= |text|
  {
    if i > 0 && text[i - 1] == '\\' then 1 + Slashes(text, i - 1) else 0
  }

  ghost predicate Escaped(text: string, i: nat)
    requires i <= |text|
  {
    Slashes(text, i) % 2 == 1
  }

  method IsEscaped(text: string, index: nat) returns (r: bool)
    requires index <= |text|
    ensures r <==> Escaped(text, index)
  {
    var slashCount: nat := 0;
    var i := index - 1;
    while i >= 0 && text[i] == '\\'
      invariant -1 <= i < index
      invariant slashCount + Slashes(text, i + 1) == Slashes(text, index)
    {
      slashCount := slashCount + 1;
      i := i - 1;
    }
    return slashCount % 2 == 1;
  }

  /** Counting backslashes is the escape rule: a character is escaped by a
      backslash right before it that is not itself escaped. */
  lemma EscapeRule(text: string, i: nat)
    requires i <= |text|
    ensures Escaped(text, i) <==> i > 0 && text[i - 1] == '\\' && !Escaped(text, i - 1)
  {
  }

  /* ---- Bracket depth ---- */

  ghost predicate Plain(text: string, i: nat, c: char)
    requires i < |text|
  {
    text[i] == c && !Escaped(text, i)
  }

  /** Unescaped openings minus unescaped closings in `text[from..to]`. */
  ghost function Depth(text: string, from: nat, to: nat, open: char, close: char): int
    requires to <= |text|
  {
    if to <= from then 0 else Depth(text, from, to - 1, open, close) + Change(text, to - 1, open, close)
  }

  ghost function Change(text: string, i: nat, open: char, close: char): int
    requires i < |text|
  {
    if Plain(text, i, open) then 1 else if Plain(text, i, close) then -1 else 0
  }

  /** The unescaped occurrences of a character between two positions. */
  ghost function Occurrences(text: string, from: nat, to: nat, c: char): set<int>
    requires to <= |text|
  {
    set i | from <= i < to && text[i] == c && !Escaped(text, i)
  }

  /** Depth is what it says: unescaped openings minus unescaped closings. */
  lemma {:induction false} DepthCounts(text: string, from: nat, to: nat, open: char, close: char)
    requires to <= |text| && open != close
    ensures Depth(text, from, to, open, close) == |Occurrences(text, from, to, open)| - |Occurrences(text, from, to, close)|
  {
    if to <= from {
      assert Occurrences(text, from, to, open) == {} && Occurrences(text, from, to, close) == {};
    } else {
      DepthCounts(text, from, to - 1, open, close);
      OneMore(text, from, to, open);
      OneMore(text, from, to, close);
    }
  }

  lemma OneMore(text: string, from: nat, to: nat, c: char)
    requires from < to <= |text|
    ensures |Occurrences(text, from, to, c)|
         == |Occurrences(text, from, to - 1, c)| + if text[to - 1] == c && !Escaped(text, to - 1) then 1 else 0
  {
    var before, last := Occurrences(text, from, to - 1, c), to - 1;
    assert last !in before;
    if text[last] == c && !Escaped(text, last) {
      LastOccurs(text, from, to, c);
    } else {
      LastDoesNot(text, from, to, c);
    }
  }

  lemma LastOccurs(text: string, from: nat, to: nat, c: char)
    requires from < to <= |text| && text[to - 1] == c && !Escaped(text, to - 1)
    ensures Occurrences(text, from, to, c) == Occurrences(text, from, to - 1, c) + {to - 1}
  {
  }

  lemma LastDoesNot(text: string, from: nat, to: nat, c: char)
    requires from < to <= |text| && !(text[to - 1] == c && !Escaped(text, to - 1))
    ensures Occurrences(text, from, to, c) == Occurrences(text, from, to - 1, c)
  {
  }

  /** At `i` a closing bracket brings the depth counted from `from` back to zero. */
  ghost predicate ClosesAt(text: string, from: nat, open: char, close: char, i: nat) {
    from <= i < |text| && Plain(text, i, close) && Depth(text, from, i + 1, open, close) == 0
  }

  /** The first such position at or after `i`, or -1. */
  ghost function FirstClose(text: string, from: nat, open: char, close: char, i: nat): (r: int)
    ensures r == -1 || (i <= r < |text| && ClosesAt(text, from, open, close, r))
    ensures forall j :: i <= j < (if r == -1 then |text| else r) ==> !ClosesAt(text, from, open, close, j)
    decreases |text| - i
  {
    if i >= |text| then -1
    else if ClosesAt(text, from, open, close, i) then i
    else FirstClose(text, from, open, close, i + 1)
  }

  method FindMatchingBracket(text: string, openIndex: nat) returns (r: int)
    ensures r == FirstClose(text, openIndex, '[', ']', openIndex)
  {
    var depth := 0;
    var i := openIndex;
    while i < |text|
      invariant i == openIndex || openIndex <= i <= |text|
      invariant i <= |text| ==> depth == Depth(text, openIndex, i, '[', ']')
      invariant FirstClose(text, openIndex, '[', ']', openIndex) == FirstClose(text, openIndex, '[', ']', i)
    {
      var escaped := IsEscaped(text, i);
      if !escaped {
        if text[i] == '[' {
          depth := depth + 1;
        } else if text[i] == ']' {
          depth := depth - 1;
          if depth == 0 { return i; }
        }
      }
      i := i + 1;
    }
    return -1;
  }

  /** Returns the position after the closing parenthesis. */
  method FindInlineLinkEnd(text: string, openParenIndex: nat) returns (r: int)
    ensures var close := FirstClose(text, openParenIndex, '(', ')', openParenIndex);
            r == if close == -1 then -1 else close + 1
  {
    var depth := 0;
    var i := openParenIndex;
    while i < |text|
      invariant i == openParenIndex || openParenIndex <= i <= |text|
      invariant i <= |text| ==> depth == Depth(text, openParenIndex, i, '(', ')')
      invariant FirstClose(text, openParenIndex, '(', ')', openParenIndex) == FirstClose(text, openParenIndex, '(', ')', i)
    {
      var escaped := IsEscaped(text, i);
      if !escaped {
        if text[i] == '(' {
          depth := depth + 1;
        } else if text[i] == ')' {
          depth := depth - 1;
          if depth == 0 { return i + 1; }
        }
      }
      i := i + 1;
    }
    return -1;
  }

  /* ---- The range scanner ---- */

  ghost predicate OpensLabel(text: string, i: nat) {
    i < |text| && Plain(text, i, '[')
  }

  /** End of the link or image whose label opens at `i`, or -1 when there is none. */
  ghost function LinkEnd(text: string, i: nat): (r: int)
    ensures r == -1 || i + 1 < r <= |text|
  {
    var labelEnd := FirstClose(text, i, '[', ']', i);
    if labelEnd == -1 || labelEnd + 1 >= |text| then -1
    else if text[labelEnd + 1] == '(' then
      var close := FirstClose(text, labelEnd + 1, '(', ')', labelEnd + 1);
      if close == -1 then -1 else close + 1
    else if text[labelEnd + 1] == '[' then
      var close := FirstClose(text, labelEnd + 1, '[', ']', labelEnd + 1);
      if close == -1 then -1 else close + 1
    else -1
  }

  /** An unescaped `!` before the label belongs to the link. */
  ghost function LinkStart(text: string, i: nat): (r: nat)
    requires i < |text|
    ensures i - 1 <= r <= i
  {
    if i > 0 && Plain(text, i - 1, '!') then i - 1 else i
  }

  /** The links met when scanning from `i`, each one skipped as a whole. */
  ghost function LinksFrom(text: string, i: nat): seq<Range>
    decreases |text| - i
  {
    if i >= |text| then []
    else if OpensLabel(text, i) && LinkEnd(text, i) != -1 then
      [Range(LinkStart(text, i), LinkEnd(text, i))] + LinksFrom(text, LinkEnd(text, i))
    else LinksFrom(text, i + 1)
  }

  /** The body of the scan loop at an unescaped opening bracket. */
  method ReadLink(text: string, i: nat) returns (start: nat, end: int)
    requires OpensLabel(text, i)
    ensures start == LinkStart(text, i) && end == LinkEnd(text, i)
  {
    start, end := i, -1;
    var labelEnd := FindMatchingBracket(text, i);
    if i > 0 {
      var bangEscaped := IsEscaped(text, i - 1);
      if text[i - 1] == '!' && !bangEscaped { start := i - 1; }
    }
    if labelEnd == -1 { return; }
    if labelEnd + 1 < |text| && text[labelEnd + 1] == '(' {
      end := FindInlineLinkEnd(text, labelEnd + 1);
    } else if labelEnd + 1 < |text| && text[labelEnd + 1] == '[' {
      var referenceEnd := FindMatchingBracket(text, labelEnd + 1);
      if referenceEnd != -1 { end := referenceEnd + 1; }
    }
  }

  /** The scanner, including its test for positions already covered, which the
      loop shows never to hold: the scan never falls behind the last range. */
  method FindMarkdownLinkRanges(text: string) returns (ranges: seq<Range>)
    ensures ranges == LinksFrom(text, 0)
  {
    ranges := [];
    ghost var all := LinksFrom(text, 0);
    var i := 0;
    while i < |text|
      invariant 0 <= i <= |text|
      invariant ranges + LinksFrom(text, i) == all
      invariant forall r :: r in ranges ==> r.end <= i
    {
      var escaped := IsEscaped(text, i);
      var covered := Covers(ranges, i);
      var next := i + 1;
      if text[i] == '[' && !escaped && !covered {
        var start, end := ReadLink(text, i);
        if end != -1 {
          TakeLink(ranges, text, i);
          ranges := ranges + [Range(start, end)];
          next := end;
        } else {
          SkipPosition(text, i);
        }
      } else {
        SkipPosition(text, i);
      }
      i := next;
    }
  }

  lemma TakeLink(ranges: seq<Range>, text: string, i: nat)
    requires OpensLabel(text, i) && LinkEnd(text, i) != -1
    ensures ranges + LinksFrom(text, i)
         == (ranges + [Range(LinkStart(text, i), LinkEnd(text, i))]) + LinksFrom(text, LinkEnd(text, i))
  {
    assert LinksFrom(text, i) == [Range(LinkStart(text, i), LinkEnd(text, i))] + LinksFrom(text, LinkEnd(text, i));
    ConcatOne(ranges, Range(LinkStart(text, i), LinkEnd(text, i)), LinksFrom(text, LinkEnd(text, i)));
  }

  lemma SkipPosition(text: string, i: nat)
    requires i < |text| && !(OpensLabel(text, i) && LinkEnd(text, i) != -1)
    ensures LinksFrom(text, i) == LinksFrom(text, i + 1)
  {
  }

  predicate Covers(ranges: seq<Range>, i: nat) {
    exists r :: r in ranges && r.start <= i < r.end
  }

  lemma ConcatOne(a: seq<Range>, r: Range, b: seq<Range>)
    ensures a + ([r] + b) == (a + [r]) + b
  {
  }

  /* ---- What the ranges are ---- */

  /** `text[a..b]` opens with an unescaped bracket, closes with its match, and
      never returns to depth zero in between. */
  ghost predicate Balanced(text: string, a: nat, b: nat, open: char, close: char) {
    && a + 1 < b <= |text|
    && text[a] == open && !Escaped(text, a) && text[b - 1] == close && !Escaped(text, b - 1)
    && Depth(text, a, b, open, close) == 0
    && forall j :: a < j < b ==> Depth(text, a, j, open, close) > 0
  }

  lemma {:induction false} DepthStaysPositive(text: string, a: nat, b: nat, open: char, close: char, j: nat)
    requires open != close && a < j < b <= |text| && Plain(text, a, open)
    requires forall k :: a <= k < b - 1 ==> !ClosesAt(text, a, open, close, k)
    ensures Depth(text, a, j, open, close) > 0
  {
    if j == a + 1 {
      assert Depth(text, a, a, open, close) == 0;
    } else {
      DepthStaysPositive(text, a, b, open, close, j - 1);
      assert !ClosesAt(text, a, open, close, j - 1);
    }
  }

  lemma FirstCloseBalances(text: string, a: nat, open: char, close: char)
    requires open != close && a < |text| && Plain(text, a, open)
    ensures var r := FirstClose(text, a, open, close, a);
            r != -1 ==> Balanced(text, a, r + 1, open, close)
  {
    var r := FirstClose(text, a, open, close, a);
    if r != -1 {
      assert r != a;
      forall j | a < j < r + 1 ensures Depth(text, a, j, open, close) > 0 {
        DepthStaysPositive(text, a, r + 1, open, close, j);
      }
    }
  }

  /** A link at label position `i`: optional unescaped `!`, balanced label, balanced `(...)` or `[...]`. */
  ghost predicate IsLinkAt(text: string, i: nat, r: Range) {
    && i < |text|
    && r.start == (if i > 0 && text[i - 1] == '!' && !Escaped(text, i - 1) then i - 1 else i)
    && exists m: nat :: Balanced(text, i, m, '[', ']')
         && (Balanced(text, m, r.end, '(', ')') || Balanced(text, m, r.end, '[', ']'))
  }

  lemma LinkEndIsLink(text: string, i: nat)
    requires OpensLabel(text, i) && LinkEnd(text, i) != -1
    ensures IsLinkAt(text, i, Range(LinkStart(text, i), LinkEnd(text, i)))
    ensures text[LinkEnd(text, i) - 1] == ')' || text[LinkEnd(text, i) - 1] == ']'
  {
    var m := FirstClose(text, i, '[', ']', i) + 1;
    FirstCloseBalances(text, i, '[', ']');
    assert !Escaped(text, m) by { EscapeRule(text, m); }
    if text[m] == '(' {
      FirstCloseBalances(text, m, '(', ')');
    } else {
      FirstCloseBalances(text, m, '[', ']');
    }
  }

  /** Nonempty ranges inside `limit`, each ending before the next one starts. */
  ghost predicate Ordered(ranges: seq<Range>, limit: nat) {
    && (forall k :: 0 <= k < |ranges| ==> ranges[k].start < ranges[k].end <= limit)
    && (forall j, k :: 0 <= j < k < |ranges| ==> ranges[j].end <= ranges[k].start)
  }

  /** Nothing starts before `i`, except that a leading `!` may sit right before it. */
  lemma {:induction false} LinksFromStart(text: string, i: nat)
    ensures forall r :: r in LinksFrom(text, i) ==> r.start >= i || (r.start == i - 1 && text[i - 1] == '!')
    decreases |text| - i
  {
    if i < |text| {
      if OpensLabel(text, i) && LinkEnd(text, i) != -1 {
        LinksFromStart(text, LinkEnd(text, i));
      } else {
        LinksFromStart(text, i + 1);
      }
    }
  }

  lemma OrderedCons(r: Range, rest: seq<Range>, limit: nat)
    requires r.start < r.end <= limit && Ordered(rest, limit)
    requires forall q :: q in rest ==> r.end <= q.start
    ensures Ordered([r] + rest, limit)
  {
    var all := [r] + rest;
    forall j, k | 0 <= j < k < |all| ensures all[j].end <= all[k].start {
      assert all[k] == rest[k - 1] && rest[k - 1] in rest;
    }
  }

  lemma {:induction false} LinksFromOrdered(text: string, i: nat)
    ensures Ordered(LinksFrom(text, i), |text|)
    decreases |text| - i
  {
    if i < |text| {
      if OpensLabel(text, i) && LinkEnd(text, i) != -1 {
        var end := LinkEnd(text, i);
        LinksFromOrdered(text, end);
        LinksFromStart(text, end);
        LinkEndIsLink(text, i);
        OrderedCons(Range(LinkStart(text, i), end), LinksFrom(text, end), |text|);
      } else {
        LinksFromOrdered(text, i + 1);
      }
    }
  }

  lemma {:induction false} LinksFromAreLinks(text: string, i: nat, r: Range)
    requires r in LinksFrom(text, i)
    ensures exists p :: i <= p && IsLinkAt(text, p, r)
    decreases |text| - i
  {
    if OpensLabel(text, i) && LinkEnd(text, i) != -1 {
      LinkEndIsLink(text, i);
      if r != Range(LinkStart(text, i), LinkEnd(text, i)) {
        LinksFromAreLinks(text, LinkEnd(text, i), r);
      } else {
        assert IsLinkAt(text, i, r);
      }
    } else {
      LinksFromAreLinks(text, i + 1, r);
    }
  }

  lemma {:induction false} LinksFromCover(text: string, i: nat, p: nat)
    requires i <= p && OpensLabel(text, p) && LinkEnd(text, p) != -1
    ensures Covers(LinksFrom(text, i), p)
    decreases |text| - i
  {
    if OpensLabel(text, i) && LinkEnd(text, i) != -1 {
      var r := Range(LinkStart(text, i), LinkEnd(text, i));
      if p < r.end {
        assert r in LinksFrom(text, i);
      } else {
        LinksFromCover(text, r.end, p);
        var q :| q in LinksFrom(text, r.end) && q.start <= p < q.end;
        assert q in LinksFrom(text, i);
      }
    } else {
      LinksFromCover(text, i + 1, p);
    }
  }

  /** The first closing position is the only one that balances. */
  lemma BalancedIsFirstClose(text: string, a: nat, b: nat, open: char, close: char)
    requires open != close && Balanced(text, a, b, open, close)
    ensures FirstClose(text, a, open, close, a) == b - 1
  {
    assert ClosesAt(text, a, open, close, b - 1);
    forall j | a <= j < b - 1 ensures !ClosesAt(text, a, open, close, j) {
      assert Depth(text, a, j + 1, open, close) > 0;
    }
  }

  /** Whatever is a link at a position is what is read there. */
  lemma LinkIsRead(text: string, p: nat, r: Range)
    requires IsLinkAt(text, p, r)
    ensures OpensLabel(text, p) && LinkEnd(text, p) == r.end && LinkStart(text, p) == r.start
  {
    var m: nat :| Balanced(text, p, m, '[', ']')
      && (Balanced(text, m, r.end, '(', ')') || Balanced(text, m, r.end, '[', ']'));
    BalancedIsFirstClose(text, p, m, '[', ']');
    if Balanced(text, m, r.end, '(', ')') {
      BalancedIsFirstClose(text, m, r.end, '(', ')');
    } else {
      BalancedIsFirstClose(text, m, r.end, '[', ']');
    }
  }

  /** The scanner reads a link at a position exactly when there is one. */
  lemma LinkReadIff(text: string, p: nat)
    ensures (exists r :: IsLinkAt(text, p, r)) <==> OpensLabel(text, p) && LinkEnd(text, p) != -1
  {
    if OpensLabel(text, p) && LinkEnd(text, p) != -1 {
      LinkEndIsLink(text, p);
    }
    if r :| IsLinkAt(text, p, r) { LinkIsRead(text, p, r); }
  }

  /** The scanner is sound and complete: its ranges are strictly ordered, disjoint
      and in bounds, each is a link, and every position at which there is a link
      lies inside one of them. */
  lemma ScannerCorrect(text: string)
    ensures Ordered(LinksFrom(text, 0), |text|)
    ensures forall r :: r in LinksFrom(text, 0) ==> exists p :: IsLinkAt(text, p, r)
    ensures forall p, r :: IsLinkAt(text, p, r) ==> Covers(LinksFrom(text, 0), p)
  {
    LinksFromOrdered(text, 0);
    forall r | r in LinksFrom(text, 0) ensures exists p :: IsLinkAt(text, p, r) {
      LinksFromAreLinks(text, 0, r);
    }
    forall p, r | IsLinkAt(text, p, r) ensures Covers(LinksFrom(text, 0), p) {
      LinkIsRead(text, p, r);
      LinksFromCover(text, 0, p);
    }
  }
}
