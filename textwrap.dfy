/**
 * Python's `textwrap.dedent`, which LayLa's `format_code` applies before
 * `strip()`. dedent works on the lines of the text (split at '\n'):
 *   1. every line made only of spaces and tabs is emptied;
 *   2. the margin is the longest run of spaces and tabs that begins every
 *      non-blank line (the indents are folded from the first line on by
 *      longest common prefix);
 *   3. when the margin is not empty it is cut from every line that begins
 *      with it.
 */
module Textwrap {
  import opened Strings

  predicate IsMarginChar(c: char) { c == ' ' || c == '\t' }

  /** Empty, or made only of spaces and tabs. */
  predicate IsBlank(line: string) {
    forall i :: 0 <= i < |line| ==> IsMarginChar(line[i])
  }

  /** The leading spaces and tabs of a line. */
  function Indent(line: string): (r: string)
    ensures r <= line && IsBlank(r)
    ensures |r| == |line| || !IsMarginChar(line[|r|])
  {
    if line != [] && IsMarginChar(line[0]) then [line[0]] + Indent(line[1..]) else []
  }

  /** The longest common prefix of two texts. */
  function CommonPrefix(a: string, b: string): (r: string)
    ensures r <= a && r <= b
    ensures |r| == |a| || |r| == |b| || a[|r|] != b[|r|]
  {
    if a != [] && b != [] && a[0] == b[0] then [a[0]] + CommonPrefix(a[1..], b[1..]) else []
  }

  /** Every common prefix of `a` and `b` is a prefix of `CommonPrefix(a, b)`. */
  lemma {:induction false} CommonPrefixGreatest(a: string, b: string, p: string)
    requires p <= a && p <= b
    ensures p <= CommonPrefix(a, b)
  {
    if p != [] {
      assert a[0] == p[0] == b[0];
      assert p[1..] <= a[1..] && p[1..] <= b[1..];
      CommonPrefixGreatest(a[1..], b[1..], p[1..]);
    }
  }

  /** Step 1: whitespace-only lines become empty. */
  function EmptyBlankLines(lines: seq<string>): (r: seq<string>)
    ensures |r| == |lines|
    ensures forall i :: 0 <= i < |lines| ==> r[i] == if IsBlank(lines[i]) then "" else lines[i]
  {
    seq(|lines|, i requires 0 <= i < |lines| => if IsBlank(lines[i]) then "" else lines[i])
  }

  /** Step 2: the margin, or `None` when every line is blank. */
  function Margin(lines: seq<string>): (m: Option<string>)
    ensures m.None? <==> forall i :: 0 <= i < |lines| ==> IsBlank(lines[i])
    ensures m.Some? ==> forall i :: 0 <= i < |lines| && !IsBlank(lines[i]) ==> m.value <= Indent(lines[i])
  {
    if lines == [] then None
    else
      var m := Margin(lines[..|lines| - 1]);
      var last := lines[|lines| - 1];
      assert forall i :: 0 <= i < |lines| - 1 ==> lines[..|lines| - 1][i] == lines[i];
      if IsBlank(last) then m
      else if m.None? then Some(Indent(last))
      else Some(CommonPrefix(m.value, Indent(last)))
  }

  /** The margin is the greatest common indentation: any prefix shared by the
      indents of all non-blank lines is a prefix of the margin. */
  lemma {:induction false} MarginGreatest(lines: seq<string>, p: string)
    requires Margin(lines).Some?
    requires forall i :: 0 <= i < |lines| && !IsBlank(lines[i]) ==> p <= Indent(lines[i])
    ensures p <= Margin(lines).value
  {
    var init, last := lines[..|lines| - 1], lines[|lines| - 1];
    assert forall i :: 0 <= i < |init| ==> init[i] == lines[i];
    var m := Margin(init);
    if IsBlank(last) {
      MarginGreatest(init, p);
    } else if m.Some? {
      MarginGreatest(init, p);
      CommonPrefixGreatest(m.value, Indent(last), p);
    }
  }

  /** Step 3: cut a non-empty margin from the lines that begin with it. */
  function CutMargin(lines: seq<string>, margin: Option<string>): (r: seq<string>)
    ensures |r| == |lines|
    ensures forall i :: 0 <= i < |lines| ==>
      if margin.Some? && margin.value != "" && margin.value <= lines[i] then lines[i] == margin.value + r[i] else r[i] == lines[i]
  {
    seq(|lines|, i requires 0 <= i < |lines| =>
      if margin.Some? && margin.value != "" && margin.value <= lines[i] then lines[i][|margin.value|..] else lines[i])
  }

  /** `textwrap.dedent` on the lines of a text. */
  function DedentLines(lines: seq<string>): (r: seq<string>)
    ensures |r| == |lines|
  {
    var normal := EmptyBlankLines(lines);
    CutMargin(normal, Margin(normal))
  }

  /** `textwrap.dedent` on a text. */
  function Dedent(text: string): string {
    Join(DedentLines(Split(text, '\n')), '\n')
  }

  /** dedent works line by line: the lines of the dedented text are the
      dedented lines of the text. */
  lemma DedentText(text: string)
    ensures Split(Dedent(text), '\n') == DedentLines(Split(text, '\n'))
  {
    var lines := Split(text, '\n');
    DedentLinesSingle(lines, '\n');
    SplitJoin(DedentLines(lines), '\n');
  }

  /** Dedent takes nothing but margins and whole blank lines away, so it
      adds no character to a line. */
  lemma DedentLinesSingle(lines: seq<string>, c: char)
    requires forall i :: 0 <= i < |lines| ==> c !in lines[i]
    ensures forall i :: 0 <= i < |lines| ==> c !in DedentLines(lines)[i]
  {
    var normal := EmptyBlankLines(lines);
    var m := Margin(normal);
    forall i | 0 <= i < |lines| ensures c !in DedentLines(lines)[i] {
      var out := DedentLines(lines)[i];
      assert c !in normal[i];
      if m.Some? && m.value != "" && m.value <= normal[i] {
        assert normal[i] == m.value + out;
        assert forall j :: 0 <= j < |out| ==> out[j] == normal[i][|m.value| + j];
      } else {
        assert out == normal[i];
      }
    }
  }

  /** Emptying blank lines changes neither which lines are blank nor the
      margin. */
  lemma EmptyBlankLinesMargin(lines: seq<string>)
    ensures Margin(EmptyBlankLines(lines)) == Margin(lines)
  {
    var normal := EmptyBlankLines(lines);
    forall i | 0 <= i < |lines| ensures IsBlank(normal[i]) == IsBlank(lines[i]) && (!IsBlank(lines[i]) ==> normal[i] == lines[i]) {
    }
    SameNonBlankMargin(normal, lines);
  }

  /** Two runs of lines that agree on which lines are blank and on every
      non-blank line have the same margin. */
  lemma {:induction false} SameNonBlankMargin(a: seq<string>, b: seq<string>)
    requires |a| == |b|
    requires forall i :: 0 <= i < |a| ==> IsBlank(a[i]) == IsBlank(b[i]) && (!IsBlank(a[i]) ==> a[i] == b[i])
    ensures Margin(a) == Margin(b)
  {
    if a != [] {
      var n := |a| - 1;
      assert forall i :: 0 <= i < n ==> a[..n][i] == a[i] && b[..n][i] == b[i];
      SameNonBlankMargin(a[..n], b[..n]);
    }
  }

  /** When every non-blank line is indented by at least `m`, and one of them by
      exactly `m`, dedent empties the blank lines and cuts `m` from all
      others. */
  lemma DedentCommonIndent(lines: seq<string>, m: string, k: nat)
    requires forall i :: 0 <= i < |lines| && !IsBlank(lines[i]) ==> m <= Indent(lines[i])
    requires k < |lines| && !IsBlank(lines[k]) && Indent(lines[k]) == m
    ensures forall i :: 0 <= i < |lines| ==>
      DedentLines(lines)[i] == if IsBlank(lines[i]) then "" else lines[i][|m|..]
  {
    var margin := Margin(lines);
    MarginGreatest(lines, m);
    assert margin.value == m by {
      assert margin.value <= m;
      assert forall j :: 0 <= j < |m| ==> margin.value[j] == m[j];
    }
    forall i | 0 <= i < |lines|
      ensures DedentLines(lines)[i] == if IsBlank(lines[i]) then "" else lines[i][|m|..]
    {
      DedentLineAt(lines, m, i);
      if !IsBlank(lines[i]) {
        PrefixTrans(m, Indent(lines[i]), lines[i]);
      }
    }
  }

  /** What dedent does to line `i`, given the margin `m`. */
  lemma DedentLineAt(lines: seq<string>, m: string, i: nat)
    requires Margin(lines) == Some(m) && i < |lines|
    ensures DedentLines(lines)[i] ==
      if IsBlank(lines[i]) then ""
      else if m != "" && m <= lines[i] then lines[i][|m|..]
      else lines[i]
  {
    var normal := EmptyBlankLines(lines);
    EmptyBlankLinesMargin(lines);
    assert Margin(normal) == Some(m);
    var out := CutMargin(normal, Some(m));
    assert DedentLines(lines) == out;
    if IsBlank(lines[i]) {
      assert normal[i] == "";
      assert m != "" ==> !(m <= normal[i]);
    } else {
      assert normal[i] == lines[i];
    }
  }

  /** A non-blank line that starts with neither space nor tab forces an empty
      margin: dedent then only empties the blank lines. */
  lemma DedentFlush(lines: seq<string>, k: nat)
    requires k < |lines| && lines[k] != [] && !IsMarginChar(lines[k][0])
    ensures DedentLines(lines) == EmptyBlankLines(lines)
  {
    forall i | 0 <= i < |lines| && !IsBlank(lines[i]) ensures "" <= Indent(lines[i]) { }
    DedentCommonIndent(lines, "", k);
  }

  lemma {:induction false} IndentAfterMargin(m: string, x: string)
    requires IsBlank(m)
    ensures Indent(m + x) == m + Indent(x)
    decreases |m|
  {
    if m != [] {
      ConsAppend(m, x);
      IndentAfterMargin(m[1..], x);
      ConsAppend(m, Indent(x));
    } else {
      assert m + x == x;
    }
  }

  lemma BlankAppend(a: string, b: string)
    requires IsBlank(a)
    ensures IsBlank(b) ==> IsBlank(a + b)
  {
    assert forall j :: |a| <= j < |a + b| ==> (a + b)[j] == b[j - |a|];
  }

  /** What cutting the margin does to one line. */
  lemma CutMarginAt(normal: seq<string>, i: nat)
    requires Margin(normal).Some? && i < |normal|
    requires IsBlank(normal[i]) ==> normal[i] == ""
    ensures var m, out := Margin(normal).value, CutMargin(normal, Margin(normal));
      && (IsBlank(normal[i]) ==> out[i] == "")
      && (!IsBlank(normal[i]) ==>
            normal[i] == m + out[i] && !IsBlank(out[i]) && Indent(normal[i]) == m + Indent(out[i]))
  {
    var m, out := Margin(normal).value, CutMargin(normal, Margin(normal));
    if !IsBlank(normal[i]) {
      CutLine(normal[i], m, out[i]);
    } else if m != "" {
      assert !(m <= normal[i]);
    }
  }

  lemma CutLine(line: string, m: string, cut: string)
    requires !IsBlank(line) && m <= Indent(line)
    requires cut == if m != "" && m <= line then line[|m|..] else line
    ensures line == m + cut && !IsBlank(cut) && Indent(line) == m + Indent(cut)
  {
    var indent := Indent(line);
    PrefixTrans(m, indent, line);
    BlankPrefix(m, indent);
    PrefixRest(m, line);
    BlankAppend(m, cut);
    IndentAfterMargin(m, cut);
  }

  lemma BlankPrefix(p: string, line: string)
    requires p <= line && IsBlank(line)
    ensures IsBlank(p)
  {
    assert forall j :: 0 <= j < |p| ==> p[j] == line[j];
  }

  /** dedent leaves no common indentation behind: afterwards the margin is
      empty, or every line is blank. */
  lemma DedentLeavesNoMargin(lines: seq<string>)
    ensures Margin(DedentLines(lines)) in {None, Some("")}
  {
    var normal := EmptyBlankLines(lines);
    var out := DedentLines(lines);
    var margin := Margin(normal);
    if margin.Some? {
      var m := margin.value;
      var q := Margin(out);
      if q.Some? {
        forall i | 0 <= i < |normal| && !IsBlank(normal[i]) ensures m + q.value <= Indent(normal[i]) {
          CutMarginAt(normal, i);
        }
        MarginGreatest(normal, m + q.value);
      }
    } else {
      assert forall i :: 0 <= i < |out| ==> out[i] == normal[i];
    }
  }

  lemma BlankSuffix(a: string, b: string)
    ensures IsBlank(a + b) ==> IsBlank(b)
  {
    assert forall j :: 0 <= j < |b| ==> (a + b)[|a| + j] == b[j];
  }
}
