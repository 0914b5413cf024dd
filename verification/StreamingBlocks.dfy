/** Splitting streamed Markdown into blocks so that finished blocks never render again. */
module StreamingBlocks {
  import opened Sequences
  import opened Text

  datatype Block = Block(content: string, isCodeBlock: bool)

  /** The loop variables of the line scanner.  The two flags are independent:
      a code fence inside display math leaves `inMath` set. */
  datatype Scan = Scan(blocks: seq<Block>, current: string, inCode: bool, inMath: bool)

  const START := Scan([], "", false, false)

  predicate IsFence(line: string) { |line| >= 3 && line[..3] == "```" }

  predicate IsMathFence(line: string) { Trim(line) == "$$" }

  /** Pushes the pending paragraph unless it is blank. */
  ghost function Flush(st: Scan): seq<Block> {
    if Trim(st.current) != "" then st.blocks + [Block(Trim(st.current), false)] else st.blocks
  }

  ghost function Step(st: Scan, line: string): Scan {
    if IsFence(line) then
      if st.inCode then Scan(st.blocks + [Block(st.current + line, true)], "", false, st.inMath)
      else Scan(Flush(st), line + "\n", true, st.inMath)
    else if st.inCode then
      st.(current := st.current + (line + "\n"))
    else if IsMathFence(line) then
      if st.inMath then Scan(st.blocks + [Block(st.current + line, false)], "", false, false)
      else Scan(Flush(st), line + "\n", false, true)
    else if st.inMath then
      st.(current := st.current + (line + "\n"))
    else if line == "" then
      if Trim(st.current) != "" then st.(blocks := Flush(st), current := "") else st
    else
      st.(current := if st.current != "" then st.current + ("\n" + line) else line)
  }

  ghost function Run(st: Scan, lines: seq<string>): Scan {
    if |lines| == 0 then st else Step(Run(st, lines[..|lines| - 1]), lines[|lines| - 1])
  }

  ghost function Finish(st: Scan): seq<Block> {
    if st.current == "" then st.blocks
    else st.blocks + [Block(if st.inCode || st.inMath then st.current else Trim(st.current), st.inCode)]
  }

  ghost function Blocks(content: string): seq<Block> {
    Finish(Run(START, SplitLines(content)))
  }

  method SplitIntoBlocks(content: string) returns (blocks: seq<Block>)
    ensures blocks == Blocks(content)
  {
    blocks := [];
    var lines := SplitLines(content);
    var currentBlock := "";
    var inCodeBlock, inMathBlock := false, false;
    assert lines[..0] == [];
    for i := 0 to |lines|
      invariant Scan(blocks, currentBlock, inCodeBlock, inMathBlock) == Run(START, lines[..i])
    {
      var line := lines[i];
      assert lines[..i + 1][..i] == lines[..i];
      if IsFence(line) {
        if !inCodeBlock {
          if Trim(currentBlock) != "" {
            blocks := blocks + [Block(Trim(currentBlock), false)];
            currentBlock := "";
          }
          inCodeBlock := true;
          currentBlock := line + "\n";
        } else {
          currentBlock := currentBlock + line;
          blocks := blocks + [Block(currentBlock, true)];
          currentBlock := "";
          inCodeBlock := false;
        }
      } else if inCodeBlock {
        currentBlock := currentBlock + (line + "\n");
      } else if IsMathFence(line) {
        if !inMathBlock {
          if Trim(currentBlock) != "" {
            blocks := blocks + [Block(Trim(currentBlock), false)];
            currentBlock := "";
          }
          inMathBlock := true;
          currentBlock := line + "\n";
        } else {
          currentBlock := currentBlock + line;
          blocks := blocks + [Block(currentBlock, false)];
          currentBlock := "";
          inMathBlock := false;
        }
      } else if inMathBlock {
        currentBlock := currentBlock + (line + "\n");
      } else if line == "" {
        if Trim(currentBlock) != "" {
          blocks := blocks + [Block(Trim(currentBlock), false)];
          currentBlock := "";
        }
      } else {
        if currentBlock != "" {
          currentBlock := currentBlock + ("\n" + line);
        } else {
          currentBlock := line;
        }
      }
    }
    assert lines[..|lines|] == lines;
    if currentBlock != "" {
      blocks := blocks + [Block(if inCodeBlock || inMathBlock then currentBlock else Trim(currentBlock), inCodeBlock)];
    }
  }

  /* ---- Appending text ---- */

  lemma {:induction false} RunAppend(st: Scan, a: seq<string>, b: seq<string>)
    ensures Run(st, a + b) == Run(Run(st, a), b)
  {
    if |b| == 0 {
      assert a + b == a;
    } else {
      RunAppend(st, a, b[..|b| - 1]);
      assert (a + b)[..|a + b| - 1] == a + b[..|b| - 1];
    }
  }

  /** Pushed blocks are never taken back, and the number of blocks shown never shrinks. */
  lemma {:induction false} RunExtends(st: Scan, lines: seq<string>)
    ensures st.blocks <= Run(st, lines).blocks
    ensures |Finish(st)| <= |Finish(Run(st, lines))|
  {
    if |lines| == 0 {
    } else {
      RunExtends(st, lines[..|lines| - 1]);
    }
  }

  /** The scanner just before the last line of `content`, and that line. */
  ghost function BeforeLast(content: string): Scan {
    var lines := SplitLines(content);
    Run(START, lines[..|lines| - 1])
  }

  ghost function LastLine(content: string): string {
    var lines := SplitLines(content);
    lines[|lines| - 1]
  }

  /** Both texts agree up to the last line of the shorter one, which may grow. */
  lemma AppendGrowsLastLine(c: string, d: string) returns (h: string, tail: seq<string>)
    ensures Blocks(c) == Finish(Step(BeforeLast(c), LastLine(c)))
    ensures Blocks(c + d) == Finish(Run(Step(BeforeLast(c), LastLine(c) + h), tail))
    ensures h == SplitLines(d)[0] && tail == SplitLines(d)[1..]
  {
    var cs, ds := SplitLines(c), SplitLines(d);
    h, tail := ds[0], ds[1..];
    SplitAppend(c, d);
    var front := cs[..|cs| - 1];
    RunAppend(START, front + [LastLine(c) + h], tail);
    assert (front + [LastLine(c) + h])[..|front|] == front;
  }

  /** What React keeps: every block of `c` except the last, unchanged and in place. */
  ghost predicate CompletedStay(c: string, d: string) {
    |Blocks(c)| > 0 ==> Blocks(c)[..|Blocks(c)| - 1] <= Blocks(c + d)
  }

  /** A paragraph flushed by a line that so far reads `$$` comes back if more is typed on that line. */
  ghost predicate Reabsorbs(c: string) {
    var st := BeforeLast(c);
    !st.inCode && !st.inMath && IsMathFence(LastLine(c)) && Trim(st.current) != ""
  }

  lemma GrowingLineKeepsBlocks(st: Scan, l: string, h: string)
    requires !st.inCode && !st.inMath && IsMathFence(l) ==> Trim(st.current) == ""
    ensures var n := |Finish(Step(st, l))|;
            n > 0 ==> Finish(Step(st, l))[..n - 1] <= Step(st, l + h).blocks
    ensures |Finish(Step(st, l))| <= |Finish(Step(st, l + h))|
  {
    if IsFence(l) {
      assert (l + h)[..3] == l[..3];
    }
    assert l != "" ==> l + h != "";
  }

  lemma StableUnlessReabsorbed(c: string, d: string)
    requires !Reabsorbs(c)
    ensures CompletedStay(c, d)
    ensures |Blocks(c)| <= |Blocks(c + d)|
  {
    var h, tail := AppendGrowsLastLine(c, d);
    if IsMathFence(LastLine(c)) { MathFenceIsNotFence(LastLine(c)); }
    GrowingLineKeepsBlocks(BeforeLast(c), LastLine(c), h);
    RunExtends(Step(BeforeLast(c), LastLine(c) + h), tail);
  }

  lemma FenceHasTick(l: string)
    ensures IsFence(l) ==> l[0] == '`' && '`' in l
  {
    if IsFence(l) {
      assert l[0] == l[..3][0];
    }
  }

  lemma MathFenceIsNotFence(l: string)
    requires IsMathFence(l)
    ensures Visible(l) == "$$" && !IsFence(l) && l != ""
  {
    TrimKeepsVisible(l);
    assert Visible("$$") == "$$" by {
      FilterAll("$$", IsVisible);
    }
    FilterMembers(l, IsVisible);
    FenceHasTick(l);
    assert '`' !in Visible(l);
  }

  lemma GrownMathFence(l: string)
    requires IsMathFence(l)
    ensures !IsMathFence(l + "x") && !IsFence(l + "x") && l + "x" != ""
    ensures Visible(l + "x") == "$$x"
  {
    MathFenceIsNotFence(l);
    VisibleAppend(l, "x");
    VisibleChar('x');
    TrimKeepsVisible(l + "x");
    assert Visible("$$") == "$$" by { FilterAll("$$", IsVisible); }
    FilterMembers(l, IsVisible);
    FenceHasTick(l + "x");
    assert (l + "x")[0] == l[0] && l[0] in l;
    assert '`' !in Visible(l);
  }

  lemma MergedParagraphDiffers(current: string, l: string)
    requires IsMathFence(l)
    ensures Trim(current) != Trim(current + ("\n" + (l + "x")))
  {
    GrownMathFence(l);
    TrimKeepsVisible(current);
    TrimKeepsVisible(current + ("\n" + (l + "x")));
    VisibleAppend(current, "\n" + (l + "x"));
    VisibleAppend("\n", l + "x");
  }

  /** The two splits of a reabsorbed paragraph: before, and after one more character. */
  lemma ReabsorbedSplit(st: Scan, l: string)
    requires !st.inCode && !st.inMath && IsMathFence(l) && Trim(st.current) != ""
    ensures Finish(Step(st, l)) == st.blocks + [Block(Trim(st.current), false), Block(l + "\n", false)]
    ensures Finish(Step(st, l + "x")) == st.blocks + [Block(Trim(st.current + ("\n" + (l + "x"))), false)]
  {
    MathFenceIsNotFence(l);
    GrownMathFence(l);
  }

  lemma ReabsorbedParagraphChanges(c: string)
    requires Reabsorbs(c)
    ensures !CompletedStay(c, "x")
  {
    var st, l := BeforeLast(c), LastLine(c);
    var h, tail := AppendGrowsLastLine(c, "x");
    assert SplitLines("x") == ["x"] && SplitLines("x")[1..] == [] by {
      assert "x"[1..] == "";
      assert SplitLines("") == [""];
      assert ['x'] + "" == "x";
    }
    assert tail == [];
    ReabsorbedSplit(st, l);
    MergedParagraphDiffers(st.current, l);
    var k := |st.blocks|;
    assert Blocks(c)[..|Blocks(c)| - 1][k] != Blocks(c + "x")[k];
  }

  /** Completed blocks survive every continuation exactly when no paragraph can be reabsorbed. */
  lemma AppendStability(c: string)
    ensures (forall d :: CompletedStay(c, d)) <==> !Reabsorbs(c)
  {
    if Reabsorbs(c) {
      ReabsorbedParagraphChanges(c);
    } else {
      forall d ensures CompletedStay(c, d) { StableUnlessReabsorbed(c, d); }
    }
  }

  /** One line adds at most one finished and one pending block. */
  lemma LineAddsTwo(st: Scan, l: string)
    ensures st.blocks <= Step(st, l).blocks <= Finish(Step(st, l))
    ensures |Finish(Step(st, l))| <= |st.blocks| + 2
  {
  }

  lemma SharedPrefix(p: seq<Block>, a: seq<Block>, b: seq<Block>, n: nat)
    requires p <= a && p <= b && n <= |p|
    ensures a[..n] <= b
  {
    assert a[..n] == p[..n] == b[..n];
  }

  /** Without exception, all but the last two blocks survive. */
  lemma AllButTwoStay(c: string, d: string)
    requires |Blocks(c)| >= 2
    ensures Blocks(c)[..|Blocks(c)| - 2] <= Blocks(c + d)
  {
    var h, tail := AppendGrowsLastLine(c, d);
    var st := BeforeLast(c);
    LineAddsTwo(st, LastLine(c));
    LineAddsTwo(st, LastLine(c) + h);
    var grown := Step(st, LastLine(c) + h);
    BlocksStay(st.blocks, grown, tail);
    SharedPrefix(st.blocks, Blocks(c), Blocks(c + d), |Blocks(c)| - 2);
  }

  lemma BlocksStay(p: seq<Block>, st: Scan, lines: seq<string>)
    requires p <= st.blocks
    ensures p <= Finish(Run(st, lines))
  {
    RunExtends(st, lines);
  }

  /* ---- Where blocks begin and end ---- */

  /** The scan goes on in the same way whatever blocks were pushed before. */
  ghost function Behind(pre: seq<Block>, st: Scan): Scan { st.(blocks := pre + st.blocks) }

  lemma StepBehind(pre: seq<Block>, st: Scan, line: string)
    ensures Step(Behind(pre, st), line) == Behind(pre, Step(st, line))
  {
    assert forall b :: pre + (st.blocks + [b]) == (pre + st.blocks) + [b];
  }

  lemma {:induction false} RunBehind(pre: seq<Block>, st: Scan, lines: seq<string>)
    ensures Run(Behind(pre, st), lines) == Behind(pre, Run(st, lines))
  {
    if |lines| == 0 {
    } else {
      RunBehind(pre, st, lines[..|lines| - 1]);
      StepBehind(pre, Run(st, lines[..|lines| - 1]), lines[|lines| - 1]);
    }
  }

  lemma FinishBehind(pre: seq<Block>, st: Scan)
    ensures Finish(Behind(pre, st)) == pre + Finish(st)
  {
  }

  /** The text ends outside code and math, and what is pending is nothing or a visible paragraph. */
  ghost predicate Settles(c: string) {
    var st := Run(START, SplitLines(c));
    !st.inCode && !st.inMath && (st.current == "" || Trim(st.current) != "")
  }

  lemma LinesAroundBlank(c: string, d: string)
    ensures SplitLines(c + "\n\n" + d) == (SplitLines(c) + [""]) + SplitLines(d)
  {
    assert c + "\n\n" + d == c + ("\n\n" + d);
    assert ("\n\n" + d)[1..] == "\n" + d && ("\n" + d)[1..] == d;
    SplitAppend(c, "\n\n" + d);
    assert SplitLines("\n\n" + d) == [""] + ([""] + SplitLines(d));
    var cs := SplitLines(c);
    assert cs[|cs| - 1] + "" == cs[|cs| - 1];
  }

  lemma BlankIsNoFence()
    ensures Trim("") == "" && !IsFence("") && !IsMathFence("")
  {
  }

  /** The scanner behind a blank line. */
  lemma RunOverBlank(c: string, d: string)
    ensures var st := Run(START, SplitLines(c));
            Blocks(c + "\n\n" + d) == Finish(Run(Step(st, ""), SplitLines(d)))
  {
    LinesAroundBlank(c, d);
    RunAppend(START, SplitLines(c) + [""], SplitLines(d));
    RunAppend(START, SplitLines(c), [""]);
    assert [""][..0] == [];
  }

  /** A blank line between two texts separates their blocks. */
  lemma BlankLineSeparates(c: string, d: string)
    requires Settles(c)
    ensures Blocks(c + "\n\n" + d) == Blocks(c) + Blocks(d)
  {
    var st := Run(START, SplitLines(c));
    BlankIsNoFence();
    RunOverBlank(c, d);
    assert Step(st, "") == Behind(Finish(st), START);
    RunBehind(Finish(st), START, SplitLines(d));
    FinishBehind(Finish(st), Run(START, SplitLines(d)));
  }

  lemma OneLine(d: string)
    requires '\n' !in d
    ensures SplitLines(d) == [d]
  {
    if |d| > 0 {
      OneLine(d[1..]);
      assert [d[0]] + d[1..] == d;
    }
  }

  lemma NothingOrX(st: Scan)
    ensures Finish(Run(st, SplitLines(""))) == Finish(Step(st, ""))
    ensures Finish(Run(st, SplitLines("x"))) == Finish(Step(st, "x"))
    ensures Blocks("") == [] && Blocks("x") == [Block("x", false)]
  {
    OneLine("");
    OneLine("x");
    BlankIsNoFence();
    XIsNoFence();
    assert [""][..0] == [] && ["x"][..0] == [];
  }

  lemma XIsNoFence()
    ensures Trim("x") == "x" && !IsFence("x") && !IsMathFence("x")
  {
    assert TrimStart("x") == "x" && TrimEnd("x") == "x";
  }

  lemma UnsettledBlankLine(c: string)
    requires !Settles(c)
    ensures Blocks(c + "\n\n" + "") != Blocks(c) + Blocks("") || Blocks(c + "\n\n" + "x") != Blocks(c) + Blocks("x")
  {
    var st := Run(START, SplitLines(c));
    BlankIsNoFence();
    XIsNoFence();
    RunOverBlank(c, "");
    RunOverBlank(c, "x");
    NothingOrX(Step(st, ""));
    if st.inCode || st.inMath {
      assert Step(Step(st, ""), "").current == (st.current + "\n") + "\n";
      assert Finish(Step(Step(st, ""), ""))[|st.blocks|].content != st.current;
    } else {
      assert Step(st, "") == st;
      assert |Finish(Step(st, "x"))| == |st.blocks| + 1;
    }
  }

  /** Which texts may be followed by a blank line and anything, without changing the blocks on either
      side: exactly those that settle. */
  lemma BlankLineSeparatesIff(c: string)
    ensures (forall d :: Blocks(c + "\n\n" + d) == Blocks(c) + Blocks(d)) <==> Settles(c)
  {
    if Settles(c) {
      forall d ensures Blocks(c + "\n\n" + d) == Blocks(c) + Blocks(d) { BlankLineSeparates(c, d); }
    } else {
      UnsettledBlankLine(c);
    }
  }

  /** Lines that do not begin with three backticks. */
  ghost predicate NoFences(lines: seq<string>) {
    forall k :: 0 <= k < |lines| ==> |lines[k]| < 3 || lines[k][..3] != "```"
  }

  lemma NoFencesFront(lines: seq<string>)
    requires |lines| > 0 && NoFences(lines)
    ensures NoFences(lines[..|lines| - 1]) && !IsFence(lines[|lines| - 1])
  {
    assert forall k :: 0 <= k < |lines| - 1 ==> lines[..|lines| - 1][k] == lines[k];
  }

  lemma TicksAreFence(rest: string)
    ensures IsFence("```" + rest)
  {
    assert ("```" + rest)[..3] == "```";
  }

  lemma {:induction false} InsideCode(st: Scan, body: seq<string>)
    requires st.inCode && NoFences(body)
    ensures Run(st, body) == st.(current := st.current + Unlines(body))
  {
    if |body| == 0 {
      assert st.current + "" == st.current;
    } else {
      var front, l := body[..|body| - 1], body[|body| - 1];
      NoFencesFront(body);
      InsideCode(st, front);
      UnlinesSnoc(front, l);
      assert body == front + [l];
      ConcatAssociates(st.current, Unlines(front), l + "\n");
    }
  }

  /** A fence opens a code block wherever the scan is outside code: what was pending is pushed, and all
      lines up to the next fence are collected as they are, `$$` and blank lines included. */
  lemma OpenRunIsCode(st: Scan, info: string, body: seq<string>)
    requires !st.inCode && NoFences(body)
    ensures Run(st, ["```" + info] + body) == Scan(Flush(st), Unlines(["```" + info] + body), true, st.inMath)
  {
    var open := "```" + info;
    TicksAreFence(info);
    RunAppend(st, [open], body);
    assert [open][..0] == [] && Run(st, [open]) == Step(st, open);
    InsideCode(Step(st, open), body);
    assert ([open] + body)[1..] == body;
    ConcatAssociates(open, "\n", Unlines(body));
  }

  /** A closed fence run is one block marked as code. */
  lemma ClosedRunIsCodeBlock(st: Scan, info: string, body: seq<string>, tail: string)
    requires !st.inCode && NoFences(body)
    ensures Run(st, (["```" + info] + body) + ["```" + tail])
         == Scan(Flush(st) + [Block(Unlines(["```" + info] + body) + ("```" + tail), true)], "", false, st.inMath)
  {
    var lines, close := ["```" + info] + body, "```" + tail;
    TicksAreFence(tail);
    OpenRunIsCode(st, info, body);
    RunAppend(st, lines, [close]);
    assert [close][..0] == [];
  }

  ghost predicate NoMathFences(lines: seq<string>) {
    forall k :: 0 <= k < |lines| ==> Trim(lines[k]) != "$$"
  }

  lemma {:induction false} InsideMath(st: Scan, body: seq<string>)
    requires !st.inCode && st.inMath && NoFences(body) && NoMathFences(body)
    ensures Run(st, body) == st.(current := st.current + Unlines(body))
  {
    if |body| == 0 {
      assert st.current + "" == st.current;
    } else {
      var front, l := body[..|body| - 1], body[|body| - 1];
      NoFencesFront(body);
      assert forall k :: 0 <= k < |front| ==> front[k] == body[k];
      InsideMath(st, front);
      UnlinesSnoc(front, l);
      assert body == front + [l];
      ConcatAssociates(st.current, Unlines(front), l + "\n");
    }
  }

  /** A `$$ ... $$` run is one block that is not code, blank lines included. */
  lemma MathRunIsOneBlock(st: Scan, open: string, body: seq<string>, close: string)
    requires !st.inCode && !st.inMath && Trim(open) == "$$" && Trim(close) == "$$" && NoFences(body) && NoMathFences(body)
    ensures Run(st, [open] + body) == Scan(Flush(st), Unlines([open] + body), false, true)
    ensures Run(st, ([open] + body) + [close]) == Scan(Flush(st) + [Block(Unlines([open] + body) + close, false)], "", false, false)
  {
    MathFenceIsNotFence(open);
    MathFenceIsNotFence(close);
    RunAppend(st, [open], body);
    assert [open][..0] == [] && [close][..0] == [];
    InsideMath(Step(st, open), body);
    assert ([open] + body)[1..] == body;
    ConcatAssociates(open, "\n", Unlines(body));
    RunAppend(st, [open] + body, [close]);
  }

  ghost predicate ParagraphLines(lines: seq<string>) {
    NoFences(lines) && NoMathFences(lines) && forall k :: 0 <= k < |lines| ==> lines[k] != ""
  }

  lemma ParagraphStep(st: Scan, l: string)
    requires !st.inCode && !st.inMath && l != "" && !IsFence(l) && !IsMathFence(l)
    ensures Step(st, l) == st.(current := if st.current == "" then l else st.current + ("\n" + l))
  {
  }

  lemma OneMoreLine(c: string, l: string)
    ensures (c + ("\n" + l)) + "\n" == (c + "\n") + (l + "\n")
  {
  }

  lemma ParagraphFront(lines: seq<string>)
    requires |lines| > 0 && ParagraphLines(lines)
    ensures var l := lines[|lines| - 1]; l != "" && !IsFence(l) && !IsMathFence(l)
    ensures ParagraphLines(lines[..|lines| - 1])
  {
    NoFencesFront(lines);
    assert forall k :: 0 <= k < |lines| - 1 ==> lines[..|lines| - 1][k] == lines[k];
  }

  /** Lines that are not empty gather into the pending paragraph: with a newline each, they are the
      pending text and one newline. */
  lemma {:induction false} ParagraphRun(st: Scan, lines: seq<string>)
    requires !st.inCode && !st.inMath && st.current == "" && |lines| > 0 && ParagraphLines(lines)
    ensures var r := Run(st, lines);
            r == st.(current := r.current) && r.current != "" && r.current + "\n" == Unlines(lines)
  {
    var front, l := lines[..|lines| - 1], lines[|lines| - 1];
    ParagraphFront(lines);
    assert lines == front + [l];
    UnlinesSnoc(front, l);
    if |front| == 0 {
      assert Unlines(front) == "" && "" + (l + "\n") == l + "\n";
      ParagraphStep(st, l);
    } else {
      ParagraphRun(st, front);
      ParagraphStep(Run(st, front), l);
      OneMoreLine(Run(st, front).current, l);
    }
  }

  lemma UnlinesInjective(a: string, b: string)
    requires a + "\n" == b + "\n"
    ensures a == b
  {
    assert a == (a + "\n")[..|a|] && b == (b + "\n")[..|b|];
  }

  lemma LastLineOf(text: string, lines: seq<string>, close: string)
    requires SplitLines(text) == lines + [close]
    ensures Unlines(lines) + close == text
  {
    SplitRoundTrip(text);
    UnlinesSnoc(lines, close);
    ConcatAssociates(Unlines(lines), close, "\n");
    UnlinesInjective(Unlines(lines) + close, text);
  }

  /** A text from fence to fence is one code block: itself. */
  lemma FencedTextIsItself(text: string, info: string, body: seq<string>, tail: string)
    requires SplitLines(text) == (["```" + info] + body) + ["```" + tail] && NoFences(body)
    ensures Blocks(text) == [Block(text, true)]
  {
    ClosedRunIsCodeBlock(START, info, body, tail);
    LastLineOf(text, ["```" + info] + body, "```" + tail);
    BlankIsNoFence();
  }

  /** A text that opens a fence and does not close it is one code block. */
  lemma OpenFencedTextIsCode(text: string, info: string, body: seq<string>)
    requires SplitLines(text) == ["```" + info] + body && NoFences(body)
    ensures Blocks(text) == [Block(text + "\n", true)]
  {
    OpenRunIsCode(START, info, body);
    SplitRoundTrip(text);
    BlankIsNoFence();
  }

  /** A text from `$$` to `$$` is one block: itself. */
  lemma MathTextIsItself(text: string, open: string, body: seq<string>, close: string)
    requires SplitLines(text) == ([open] + body) + [close]
    requires Trim(open) == "$$" && Trim(close) == "$$" && NoFences(body) && NoMathFences(body)
    ensures Blocks(text) == [Block(text, false)]
  {
    MathRunIsOneBlock(START, open, body, close);
    LastLineOf(text, [open] + body, close);
    BlankIsNoFence();
  }

  /** A text without blank lines and fences is one paragraph: itself, trimmed. */
  lemma ParagraphIsOneBlock(text: string)
    requires ParagraphLines(SplitLines(text))
    ensures Blocks(text) == [Block(Trim(text), false)]
    ensures Trim(text) != "" ==> Settles(text)
  {
    ParagraphRun(START, SplitLines(text));
    SplitRoundTrip(text);
    UnlinesInjective(Run(START, SplitLines(text)).current, text);
  }

  /* ---- The React keys ---- */

  datatype Key = Active(index: nat) | Completed(index: nat, hash: string)

  ghost function KeyOf(blocks: seq<Block>, i: nat, hash: string -> string): Key
    requires i < |blocks|
  {
    if i == |blocks| - 1 then Active(i) else Completed(i, hash(blocks[i].content))
  }

  /** No two blocks shown together share a key; the last one is the active one; and a block completed in
      two renderings has the same key in both exactly when its place and the hash of its content agree. */
  lemma KeysTellBlocksApart(blocks: seq<Block>, others: seq<Block>, i: nat, j: nat, hash: string -> string)
    requires i < |blocks| && j < |blocks|
    ensures KeyOf(blocks, i, hash) == KeyOf(blocks, j, hash) <==> i == j
    ensures KeyOf(blocks, i, hash).Active? <==> i == |blocks| - 1
    ensures i + 1 < |blocks| && j + 1 < |others| ==>
              (KeyOf(blocks, i, hash) == KeyOf(others, j, hash) <==> i == j && hash(blocks[i].content) == hash(others[j].content))
  {
  }

  /** A completed block keeps its key, whatever the hash function, so its
      component is neither remounted nor rendered again. */
  lemma CompletedKeysStay(c: string, d: string, i: nat, hash: string -> string)
    requires !Reabsorbs(c) && i + 1 < |Blocks(c)|
    ensures i + 1 < |Blocks(c + d)|
    ensures Blocks(c + d)[i] == Blocks(c)[i]
    ensures KeyOf(Blocks(c + d), i, hash) == KeyOf(Blocks(c), i, hash)
  {
    StableUnlessReabsorbed(c, d);
    assert Blocks(c)[..|Blocks(c)| - 1][i] == Blocks(c)[i];
  }

  /* ---- Nothing visible is lost ---- */

  ghost function Contents(blocks: seq<Block>): string {
    if |blocks| == 0 then "" else Contents(blocks[..|blocks| - 1]) + blocks[|blocks| - 1].content
  }

  ghost function Shown(st: Scan): string { Visible(Contents(st.blocks)) + Visible(st.current) }

  lemma ContentsSnoc(blocks: seq<Block>, b: Block)
    ensures Visible(Contents(blocks + [b])) == Visible(Contents(blocks)) + Visible(b.content)
  {
    assert (blocks + [b])[..|blocks|] == blocks;
    VisibleAppend(Contents(blocks), b.content);
  }

  lemma FlushShows(st: Scan)
    ensures Visible(Contents(Flush(st))) == Shown(st)
  {
    TrimKeepsVisible(st.current);
    if Trim(st.current) != "" {
      ContentsSnoc(st.blocks, Block(Trim(st.current), false));
    }
  }

  lemma VisibleLine(line: string)
    ensures Visible(line + "\n") == Visible(line) && Visible("\n" + line) == Visible(line)
  {
    VisibleChar('\n');
    VisibleAppend(line, "\n");
    VisibleAppend("\n", line);
    assert "" + Visible(line) == Visible(line) && Visible(line) + "" == Visible(line);
  }

  lemma PendingShows(st: Scan, more: string)
    ensures Shown(st.(current := st.current + more)) == Shown(st) + Visible(more)
  {
    VisibleAppend(st.current, more);
    ConcatAssociates(Visible(Contents(st.blocks)), Visible(st.current), Visible(more));
  }

  lemma ClosedShows(st: Scan, line: string, isCode: bool)
    ensures Visible(Contents(st.blocks + [Block(st.current + line, isCode)])) == Shown(st) + Visible(line)
  {
    PendingShows(st, line);
    ContentsSnoc(st.blocks, Block(st.current + line, isCode));
  }

  lemma EmptyShows(s: string)
    ensures Visible("") == "" && s + Visible("") == s && Visible("") + s == s
  {
  }

  lemma StepShows(st: Scan, line: string)
    ensures Shown(Step(st, line)) == Shown(st) + Visible(line)
  {
    VisibleLine(line);
    EmptyShows(Shown(st) + Visible(line));
    EmptyShows(Visible(line));
    if (IsFence(line) && st.inCode) || (!IsFence(line) && !st.inCode && IsMathFence(line) && st.inMath) {
      ClosedShows(st, line, st.inCode);
    } else if IsFence(line) || (!st.inCode && IsMathFence(line)) {
      FlushShows(st);
    } else if st.inCode || st.inMath {
      PendingShows(st, line + "\n");
    } else if line == "" {
      FlushShows(st);
      EmptyShows(Shown(st));
    } else if st.current != "" {
      PendingShows(st, "\n" + line);
    } else {
      EmptyShows(Visible(Contents(st.blocks)));
    }
  }

  lemma {:induction false} RunShows(lines: seq<string>)
    ensures Shown(Run(START, lines)) == Visible(Unlines(lines))
  {
    if |lines| == 0 {
    } else {
      var front, l := lines[..|lines| - 1], lines[|lines| - 1];
      RunShows(front);
      StepShows(Run(START, front), l);
      VisibleUnlinesSnoc(front, l);
      assert lines == front + [l];
    }
  }

  /** The blocks show exactly the visible characters of the input, in order. */
  lemma ContentConserved(content: string)
    ensures Visible(Contents(Blocks(content))) == Visible(content)
  {
    var lines := SplitLines(content);
    var st := Run(START, lines);
    RunShows(lines);
    SplitRoundTrip(content);
    VisibleLine(content);
    if st.current != "" {
      TrimKeepsVisible(st.current);
      ContentsSnoc(st.blocks, Block(if st.inCode || st.inMath then st.current else Trim(st.current), st.inCode));
    }
  }

  /* ---- Code blocks are verbatim ---- */

  /** `lines[i..j]` starts with a fence and has no other one. */
  ghost predicate OpenFence(lines: seq<string>, i: nat, j: nat) {
    && i < j <= |lines| && IsFence(lines[i])
    && forall k :: i < k < j ==> !IsFence(lines[k])
  }

  /** A closed code block: the lines from its opening to its closing fence, unchanged. */
  ghost predicate VerbatimFrom(lines: seq<string>, b: Block) {
    exists i: nat, j: nat :: OpenFence(lines, i, j) && j < |lines| && IsFence(lines[j])
      && b.content == Unlines(lines[i..j]) + lines[j]
  }

  ghost predicate PendingFrom(lines: seq<string>, content: string) {
    exists i: nat :: OpenFence(lines, i, |lines|) && content == Unlines(lines[i..])
  }

  ghost predicate CodeIsVerbatim(lines: seq<string>, st: Scan) {
    && (forall b :: b in st.blocks && b.isCodeBlock ==> VerbatimFrom(lines, b))
    && (st.inCode ==> PendingFrom(lines, st.current))
  }

  lemma VerbatimStays(lines: seq<string>, l: string, b: Block)
    requires VerbatimFrom(lines, b)
    ensures VerbatimFrom(lines + [l], b)
  {
    var i: nat, j: nat :| OpenFence(lines, i, j) && j < |lines| && IsFence(lines[j])
      && b.content == Unlines(lines[i..j]) + lines[j];
    assert (lines + [l])[i..j] == lines[i..j];
    assert OpenFence(lines + [l], i, j);
  }

  lemma FenceCloses(lines: seq<string>, l: string, content: string)
    requires PendingFrom(lines, content) && IsFence(l)
    ensures VerbatimFrom(lines + [l], Block(content + l, true))
  {
    var i: nat :| OpenFence(lines, i, |lines|) && content == Unlines(lines[i..]);
    assert (lines + [l])[i..|lines|] == lines[i..];
    assert OpenFence(lines + [l], i, |lines|);
  }

  lemma PendingGrows(lines: seq<string>, l: string, content: string)
    requires PendingFrom(lines, content) && !IsFence(l)
    ensures PendingFrom(lines + [l], content + (l + "\n"))
  {
    var i: nat :| OpenFence(lines, i, |lines|) && content == Unlines(lines[i..]);
    UnlinesSnoc(lines[i..], l);
    assert (lines + [l])[i..] == lines[i..] + [l];
    assert OpenFence(lines + [l], i, |lines| + 1);
  }

  lemma FenceOpens(lines: seq<string>, l: string)
    requires IsFence(l)
    ensures PendingFrom(lines + [l], l + "\n")
  {
    assert (lines + [l])[|lines|..] == [] + [l];
    UnlinesSnoc([], l);
    assert OpenFence(lines + [l], |lines|, |lines| + 1);
  }

  lemma {:induction false} RunIsVerbatim(lines: seq<string>)
    ensures CodeIsVerbatim(lines, Run(START, lines))
  {
    if |lines| == 0 {
    } else {
      var front, l := lines[..|lines| - 1], lines[|lines| - 1];
      assert lines == front + [l];
      RunIsVerbatim(front);
      var st := Run(START, front);
      forall b | b in st.blocks && b.isCodeBlock ensures VerbatimFrom(lines, b) {
        VerbatimStays(front, l, b);
      }
      if IsFence(l) {
        FenceOpens(front, l);
        if st.inCode { FenceCloses(front, l, st.current); }
      } else if st.inCode {
        PendingGrows(front, l, st.current);
      }
    }
  }

  /** Every code block but an unfinished last one is a verbatim run of input
      lines from fence to fence; the unfinished one runs to the end of the input. */
  lemma CodeBlocksAreVerbatim(content: string, i: nat)
    requires i < |Blocks(content)| && Blocks(content)[i].isCodeBlock
    ensures VerbatimFrom(SplitLines(content), Blocks(content)[i])
         || (i == |Blocks(content)| - 1 && PendingFrom(SplitLines(content), Blocks(content)[i].content))
  {
    RunIsVerbatim(SplitLines(content));
    var st := Run(START, SplitLines(content));
    assert i < |st.blocks| ==> Blocks(content)[i] in st.blocks;
  }
}
