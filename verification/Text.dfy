/** The string operations the scanners rely on: splitting at newlines,
    trimming white space, and what is left when white space is ignored. */
module Text {
  import opened Sequences

  /** White space as `String.prototype.trim` understands it. */
  predicate IsSpace(c: char) {
    || '\t' <= c <= '\r' || c == ' ' || c == '\U{00A0}' || c == '\U{1680}'
    || '\U{2000}' <= c <= '\U{200A}' || c == '\U{2028}' || c == '\U{2029}'
    || c == '\U{202F}' || c == '\U{205F}' || c == '\U{3000}' || c == '\U{FEFF}'
  }

  /** The white space characters one by one. */
  lemma SpaceCharacters(c: char)
    ensures IsSpace(c) <==> c in "\t\n\U{000B}\U{000C}\r \U{00A0}\U{1680}\U{2000}\U{2001}\U{2002}\U{2003}\U{2004}\U{2005}\U{2006}\U{2007}\U{2008}\U{2009}\U{200A}\U{2028}\U{2029}\U{202F}\U{205F}\U{3000}\U{FEFF}"
  {
  }

  predicate IsVisible(c: char) { !IsSpace(c) }

  function Visible(s: string): string { Filter(s, IsVisible) }

  function TrimStart(s: string): string {
    if |s| > 0 && IsSpace(s[0]) then TrimStart(s[1..]) else s
  }

  function TrimEnd(s: string): string {
    if |s| > 0 && IsSpace(s[|s| - 1]) then TrimEnd(s[..|s| - 1]) else s
  }

  function Trim(s: string): string { TrimEnd(TrimStart(s)) }

  /** `content.split('\n')`. */
  function SplitLines(s: string): (lines: seq<string>)
    ensures |lines| > 0
  {
    if |s| == 0 then [""] else Attach(s[0], SplitLines(s[1..]))
  }

  function Attach(c: char, lines: seq<string>): (r: seq<string>)
    requires |lines| > 0
    ensures |r| > 0
  {
    if c == '\n' then [""] + lines else [[c] + lines[0]] + lines[1..]
  }

  /** The lines of two texts written one after the other. */
  function Glue(cs: seq<string>, ds: seq<string>): (r: seq<string>)
    requires |cs| > 0 && |ds| > 0
    ensures |r| > 0
  {
    cs[..|cs| - 1] + [cs[|cs| - 1] + ds[0]] + ds[1..]
  }

  lemma GlueAttach(c: char, cs: seq<string>, ds: seq<string>)
    requires |cs| > 0 && |ds| > 0
    ensures Attach(c, Glue(cs, ds)) == Glue(Attach(c, cs), ds)
  {
    if c == '\n' {
      assert ([""] + cs)[..|cs|] == [""] + cs[..|cs| - 1];
    } else if |cs| == 1 {
      assert [c] + (cs[0] + ds[0]) == ([c] + cs[0]) + ds[0];
    } else {
      assert Glue(cs, ds)[1..] == cs[1..|cs| - 1] + [cs[|cs| - 1] + ds[0]] + ds[1..];
      assert Attach(c, cs)[..|cs| - 1] == [[c] + cs[0]] + cs[1..|cs| - 1];
    }
  }

  lemma VisibleAppend(a: string, b: string)
    ensures Visible(a + b) == Visible(a) + Visible(b)
  {
    FilterAppend(a, b, IsVisible);
  }

  lemma VisibleChar(c: char)
    ensures Visible([c]) == if IsSpace(c) then "" else [c]
  {
    FilterSnoc("", c, IsVisible);
    assert "" + [c] == [c];
  }

  lemma {:induction false} TrimStartKeepsVisible(s: string)
    ensures Visible(TrimStart(s)) == Visible(s)
  {
    if |s| > 0 && IsSpace(s[0]) {
      TrimStartKeepsVisible(s[1..]);
      VisibleAppend([s[0]], s[1..]);
      VisibleChar(s[0]);
      assert s == [s[0]] + s[1..];
    }
  }

  lemma {:induction false} TrimEndKeepsVisible(s: string)
    ensures Visible(TrimEnd(s)) == Visible(s)
  {
    if |s| > 0 && IsSpace(s[|s| - 1]) {
      TrimEndKeepsVisible(s[..|s| - 1]);
    }
  }

  lemma {:induction false} TrimEndEmpty(s: string)
    requires Visible(s) == ""
    ensures TrimEnd(s) == ""
  {
    if |s| == 0 {
    } else {
      TrimEndEmpty(s[..|s| - 1]);
    }
  }

  /** Trimming loses only white space, and everything only when nothing else is there. */
  lemma TrimKeepsVisible(s: string)
    ensures Visible(Trim(s)) == Visible(s)
    ensures Trim(s) == "" <==> Visible(s) == ""
  {
    TrimStartKeepsVisible(s);
    TrimEndKeepsVisible(TrimStart(s));
    if Visible(s) == "" {
      TrimEndEmpty(TrimStart(s));
    }
  }

  lemma {:induction false} TrimStartIsSuffix(s: string) returns (i: nat)
    ensures i <= |s| && TrimStart(s) == s[i..] && forall k :: 0 <= k < i ==> IsSpace(s[k])
    ensures i < |s| ==> !IsSpace(s[i])
  {
    if |s| > 0 && IsSpace(s[0]) {
      var j := TrimStartIsSuffix(s[1..]);
      i := j + 1;
      assert forall k :: 1 <= k < i ==> s[k] == s[1..][k - 1];
    } else {
      i := 0;
    }
  }

  lemma {:induction false} TrimEndIsPrefix(s: string) returns (j: nat)
    ensures j <= |s| && TrimEnd(s) == s[..j] && forall k :: j <= k < |s| ==> IsSpace(s[k])
    ensures j > 0 ==> !IsSpace(s[j - 1])
  {
    if |s| > 0 && IsSpace(s[|s| - 1]) {
      j := TrimEndIsPrefix(s[..|s| - 1]);
      assert forall k :: j <= k < |s| - 1 ==> s[k] == s[..|s| - 1][k];
    } else {
      j := |s|;
    }
  }

  /** Trimming cuts the white space at both ends, all of it, and nothing else. */
  lemma TrimCutsEnds(s: string) returns (i: nat, j: nat)
    ensures i <= j <= |s| && Trim(s) == s[i..j]
    ensures forall k :: 0 <= k < |s| && !(i <= k < j) ==> IsSpace(s[k])
    ensures i < j ==> !IsSpace(s[i]) && !IsSpace(s[j - 1])
  {
    i := TrimStartIsSuffix(s);
    var n := TrimEndIsPrefix(s[i..]);
    j := i + n;
    assert s[i..][..n] == s[i..j];
    assert forall k :: i <= k < |s| ==> s[k] == s[i..][k - i];
  }

  /** Appending text changes only the last line and what comes after it. */
  lemma {:induction false} SplitAppend(c: string, d: string)
    ensures SplitLines(c + d) == Glue(SplitLines(c), SplitLines(d))
  {
    if |c| == 0 {
      assert c + d == d;
      assert "" + SplitLines(d)[0] == SplitLines(d)[0];
    } else {
      SplitAppend(c[1..], d);
      assert (c + d)[1..] == c[1..] + d;
      GlueAttach(c[0], SplitLines(c[1..]), SplitLines(d));
    }
  }

  /** All lines, each followed by a newline. */
  function Unlines(lines: seq<string>): string {
    if |lines| == 0 then "" else lines[0] + ("\n" + Unlines(lines[1..]))
  }

  lemma ConcatAssociates(a: string, b: string, c: string)
    ensures (a + b) + c == a + (b + c)
  {
  }

  lemma {:induction false} UnlinesSnoc(lines: seq<string>, l: string)
    ensures Unlines(lines + [l]) == Unlines(lines) + (l + "\n")
  {
    if |lines| == 0 {
      assert lines + [l] == [l];
      assert [l][1..] == [];
      assert Unlines([]) == "" && "\n" + "" == "\n";
    } else {
      UnlinesSnoc(lines[1..], l);
      assert (lines + [l])[1..] == lines[1..] + [l];
      var u := Unlines(lines[1..]);
      ConcatAssociates("\n", u, l + "\n");
      ConcatAssociates(lines[0], "\n" + u, l + "\n");
    }
  }

  lemma UnlinesAttach(c: char, lines: seq<string>)
    requires |lines| > 0
    ensures Unlines(Attach(c, lines)) == [c] + Unlines(lines)
  {
    if c == '\n' {
      assert ([""] + lines)[1..] == lines;
      assert "" + ("\n" + Unlines(lines)) == "\n" + Unlines(lines);
    } else {
      assert Attach(c, lines)[1..] == lines[1..];
      ConcatAssociates([c], lines[0], "\n" + Unlines(lines[1..]));
    }
  }

  /** Splitting loses nothing: the lines, each ended by a newline, are the text and one newline. */
  lemma {:induction false} SplitRoundTrip(s: string)
    ensures Unlines(SplitLines(s)) == s + "\n"
    ensures forall l :: l in SplitLines(s) ==> '\n' !in l
  {
    if |s| == 0 {
      assert [""][1..] == [];
    } else {
      SplitRoundTrip(s[1..]);
      UnlinesAttach(s[0], SplitLines(s[1..]));
      assert [s[0]] + (s[1..] + "\n") == s + "\n";
    }
  }

  /** Newlines are white space: a text's visible characters are its lines'. */
  lemma VisibleUnlinesSnoc(lines: seq<string>, l: string)
    ensures Visible(Unlines(lines + [l])) == Visible(Unlines(lines)) + Visible(l)
  {
    UnlinesSnoc(lines, l);
    VisibleAppend(Unlines(lines), l + "\n");
    VisibleAppend(l, "\n");
    VisibleChar('\n');
  }
}
