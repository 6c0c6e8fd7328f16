/**
 * The text generation inside `LayLa.make_app` (layla.py): `format_code`, the
 * safe name, and the contents of the five files of the scaffold. Every
 * triple-quoted literal of make_app is written as its lines without the
 * source's 12-space indentation and rebuilt, with that indentation, by
 * `Literal`; the lemmas below prove what `format_code` then makes of it.
 */
module Layla {
  import opened Strings
  import opened Textwrap
  import opened Readers
  import opened SafeNames

  /** `self.newline` (layla.py:68). */
  const Newline: char := '\n'

  /** `format_code` (layla.py:8): `textwrap.dedent`, then `strip()`. */
  function FormatCode(code: string): (r: string)
    ensures Trimmed(r)
    ensures r == [] <==> AllSpace(Dedent(code))
  {
    Strip(Dedent(code))
  }

  /** No line holds a line break. */
  predicate SingleLines(lines: seq<string>) {
    forall i :: 0 <= i < |lines| ==> Newline !in lines[i]
  }

  /** No line is made only of spaces and tabs without being empty. */
  predicate NoWhitespaceLines(lines: seq<string>) {
    forall i :: 0 <= i < |lines| ==> lines[i] == "" || !IsBlank(lines[i])
  }

  /** The first character of a text is visible (neither space nor tab). */
  predicate StartsFlush(line: string) {
    line != [] && !IsMarginChar(line[0])
  }

  // ---------------------------------------------------------------------------
  // What format_code does to the texts of make_app
  // ---------------------------------------------------------------------------

  /** Text one of whose lines starts flush has an empty margin: dedent only
      empties its whitespace-only lines. */
  lemma DedentFlushText(lines: seq<string>, k: nat)
    requires SingleLines(lines)
    requires k < |lines| && StartsFlush(lines[k])
    ensures Dedent(Join(lines, Newline)) == Join(EmptyBlankLines(lines), Newline)
  {
    SplitJoin(lines, Newline);
    DedentFlush(lines, k);
  }

  /** Lines none of which is whitespace-only are left alone by step 1 of
      dedent. */
  lemma NoBlankLinesKept(lines: seq<string>)
    requires NoWhitespaceLines(lines)
    ensures EmptyBlankLines(lines) == lines
  {
  }

  /** Joined lines whose first line starts and last line ends visibly are
      already stripped. */
  lemma JoinTrimmed(lines: seq<string>)
    requires lines != [] && lines[0] != [] && !IsSpace(lines[0][0])
    requires var last := lines[|lines| - 1]; last != [] && !IsSpace(last[|last| - 1])
    ensures Strip(Join(lines, Newline)) == Join(lines, Newline)
  {
    assert Trimmed(Join(lines, Newline)) by {
      JoinFirst(lines, Newline);
      JoinLast(lines, Newline);
    }
    StripTrimmed(Join(lines, Newline));
  }

  // ---------------------------------------------------------------------------
  // The layout of make_app's triple-quoted literals
  // ---------------------------------------------------------------------------

  /** The indentation of the body of every triple-quoted literal in make_app. */
  const SourceIndent := "            "

  /** An indentation: a non-empty run of spaces and tabs. */
  predicate IsIndentation(indent: string) {
    indent != "" && IsBlank(indent)
  }

  lemma SourceIndentation()
    ensures IsIndentation(SourceIndent)
  {
  }

  /** Spaces and tabs are whitespace, and none of them is a line break. */
  lemma BlankText(s: string)
    requires IsBlank(s)
    ensures AllSpace(s) && Newline !in s
  {
    assert forall j :: 0 <= j < |s| ==> IsMarginChar(s[j]);
  }

  function IndentLines(indent: string, lines: seq<string>): (r: seq<string>)
    ensures |r| == |lines|
    ensures forall i :: 0 <= i < |lines| ==> r[i] == if lines[i] == "" then "" else indent + lines[i]
  {
    seq(|lines|, i requires 0 <= i < |lines| => if lines[i] == "" then "" else indent + lines[i])
  }

  /** The lines of a triple-quoted literal of make_app: it opens with a line
      break, holds each non-empty line behind the indentation, and closes on
      a line of its own holding only the indentation. */
  function LiteralLines(indent: string, lines: seq<string>): seq<string> {
    [""] + IndentLines(indent, lines) + [indent]
  }

  /** A triple-quoted literal of make_app with the given lines. */
  function Literal(lines: seq<string>): string {
    Join(LiteralLines(SourceIndent, lines), Newline)
  }

  lemma IndentedLine(indent: string, line: string)
    requires IsBlank(indent) && !IsBlank(line)
    ensures !IsBlank(indent + line)
    ensures Indent(indent + line) == indent + Indent(line)
    ensures (indent + line)[|indent|..] == line
  {
    BlankSuffix(indent, line);
    IndentAfterMargin(indent, line);
  }

  /** The lines of a literal hold no line break. */
  lemma LiteralLinesSingle(indent: string, lines: seq<string>)
    requires IsBlank(indent) && SingleLines(lines)
    ensures SingleLines(LiteralLines(indent, lines))
  {
    BlankText(indent);
    var raw := LiteralLines(indent, lines);
    forall i | 0 <= i < |raw| ensures Newline !in raw[i] {
      if 0 < i <= |lines| {
        assert raw[i] == IndentLines(indent, lines)[i - 1];
      }
    }
  }

  /** dedent removes exactly the indentation from a literal's lines. */
  lemma LiteralDedent(indent: string, lines: seq<string>, k: nat)
    requires IsIndentation(indent) && NoWhitespaceLines(lines)
    requires k < |lines| && StartsFlush(lines[k])
    ensures DedentLines(LiteralLines(indent, lines)) == [""] + lines + [""]
  {
    var raw := LiteralLines(indent, lines);
    LiteralIndents(indent, lines, k, raw);
    DedentCommonIndent(raw, indent, k + 1);
    LiteralCut(indent, lines, raw, DedentLines(raw));
  }

  /** Every visible line of a literal is indented by at least the
      indentation, and line `k + 1` by exactly that. */
  lemma LiteralIndents(indent: string, lines: seq<string>, k: nat, raw: seq<string>)
    requires IsIndentation(indent) && NoWhitespaceLines(lines)
    requires k < |lines| && StartsFlush(lines[k])
    requires raw == LiteralLines(indent, lines)
    ensures forall i :: 0 <= i < |raw| && !IsBlank(raw[i]) ==> indent <= Indent(raw[i])
    ensures k + 1 < |raw| && !IsBlank(raw[k + 1]) && Indent(raw[k + 1]) == indent
  {
    forall i | 0 <= i < |raw| && !IsBlank(raw[i]) ensures indent <= Indent(raw[i]) {
      LiteralLineAt(indent, lines, i);
      if 0 < i <= |lines| {
        IndentedLine(indent, lines[i - 1]);
      }
    }
    LiteralLineAt(indent, lines, k + 1);
    IndentedLine(indent, lines[k]);
  }

  /** Line `i` of a literal: blank at either end, and a line of the text
      behind the indentation in between. */
  lemma LiteralLineAt(indent: string, lines: seq<string>, i: nat)
    requires IsBlank(indent) && i < |lines| + 2
    ensures var raw := LiteralLines(indent, lines);
      && (i == 0 || i == |lines| + 1 ==> IsBlank(raw[i]))
      && (0 < i <= |lines| ==> raw[i] == if lines[i - 1] == "" then "" else indent + lines[i - 1])
  {
    if 0 < i <= |lines| {
      assert LiteralLines(indent, lines)[i] == IndentLines(indent, lines)[i - 1];
    }
  }

  lemma LiteralCut(indent: string, lines: seq<string>, raw: seq<string>, out: seq<string>)
    requires IsIndentation(indent) && NoWhitespaceLines(lines)
    requires raw == LiteralLines(indent, lines)
    requires |out| == |raw|
    requires forall i :: 0 <= i < |raw| ==> out[i] == if IsBlank(raw[i]) then "" else raw[i][|indent|..]
    ensures out == [""] + lines + [""]
  {
    var n, want := |lines|, [""] + lines + [""];
    assert |raw| == n + 2 == |want|;
    assert raw[0] == "" && raw[n + 1] == indent;
    forall i | 0 <= i < n + 2 ensures out[i] == want[i] {
      if 0 < i <= n {
        var line := lines[i - 1];
        assert raw[i] == IndentLines(indent, lines)[i - 1] && want[i] == line;
        if line != "" {
          IndentedLine(indent, line);
        }
      }
    }
  }

  /** dedent turns a literal into its lines between two line breaks. */
  lemma LiteralDedentText(indent: string, lines: seq<string>, k: nat)
    requires IsIndentation(indent) && SingleLines(lines) && NoWhitespaceLines(lines)
    requires k < |lines| && StartsFlush(lines[k])
    ensures Dedent(Join(LiteralLines(indent, lines), Newline)) == [Newline] + Join(lines, Newline) + [Newline]
  {
    var raw := LiteralLines(indent, lines);
    calc {
      Dedent(Join(raw, Newline));
      { LiteralSplit(indent, lines); }
      Join(DedentLines(raw), Newline);
      { LiteralDedent(indent, lines, k); }
      Join([""] + lines + [""], Newline);
      { JoinBlankEnds(lines, Newline); }
      [Newline] + Join(lines, Newline) + [Newline];
    }
  }

  lemma LiteralSplit(indent: string, lines: seq<string>)
    requires IsBlank(indent) && SingleLines(lines)
    ensures Dedent(Join(LiteralLines(indent, lines), Newline)) == Join(DedentLines(LiteralLines(indent, lines)), Newline)
  {
    var raw := LiteralLines(indent, lines);
    assert Split(Join(raw, Newline), Newline) == raw by {
      LiteralLinesSingle(indent, lines);
      SplitJoin(raw, Newline);
    }
  }

  /** format_code takes the source indentation, the opening line break and
      the closing line off a literal: what is left is its lines, stripped. */
  lemma FormatLiteral(lines: seq<string>, k: nat)
    requires SingleLines(lines) && NoWhitespaceLines(lines)
    requires k < |lines| && StartsFlush(lines[k])
    ensures FormatCode(Literal(lines)) == Strip(Join(lines, Newline))
  {
    var joined := Join(lines, Newline);
    calc {
      FormatCode(Literal(lines));
      Strip(Dedent(Literal(lines)));
      { SourceIndentation(); LiteralDedentText(SourceIndent, lines, k); }
      Strip([Newline] + joined + [Newline]);
      { assert AllSpace([Newline]); StripPadded([Newline], joined, [Newline]); }
      Strip(joined);
    }
  }

  /** Text made by joining lines splits back into them. */
  lemma SplitJoined(text: string, lines: seq<string>)
    requires SingleLines(lines) && lines != []
    requires text == Join(lines, Newline)
    ensures Split(text, Newline) == lines
  {
    SplitJoin(lines, Newline);
  }

  /** A literal whose first line starts and whose last line ends visibly comes
      out of format_code as exactly its lines. */
  lemma FormatLiteralExact(lines: seq<string>)
    requires SingleLines(lines) && NoWhitespaceLines(lines)
    requires lines != [] && lines[0] != [] && !IsSpace(lines[0][0])
    requires var last := lines[|lines| - 1]; last != [] && !IsSpace(last[|last| - 1])
    ensures FormatCode(Literal(lines)) == Join(lines, Newline)
  {
    FormatLiteral(lines, 0);
    JoinTrimmed(lines);
  }

  // ---------------------------------------------------------------------------
  // contents/layla_lambda.py (layla.py:69-84)
  // ---------------------------------------------------------------------------

  /** The lines of `static_code`, the fixed handler body. */
  const HandlerLines: seq<string> := [
    "import json",
    "",
    "def lambda_handler(event, context):",
    "    return {",
    "        'statusCode': 200,",
    "        'body': json.dumps('Hello from Layla!')",
    "    }"
  ]

  /** `static_code`, as written in the source: it opens with the line break
      after the quotes. */
  function StaticCode(): (r: string)
    ensures r != [] && r[0] == Newline
  {
    LiteralOpens(SourceIndent, HandlerLines);
    Literal(HandlerLines)
  }

  lemma LiteralOpens(indent: string, lines: seq<string>)
    ensures var r := Join(LiteralLines(indent, lines), Newline); r != [] && r[0] == Newline
  {
    var p := LiteralLines(indent, lines);
    assert p[0] == "" && |p| > 1;
  }

  /** `'import ' + lib` for every library, in order. */
  function ImportLines(contents: seq<string>): (r: seq<string>)
    ensures |r| == |contents|
    ensures forall i :: 0 <= i < |contents| ==> r[i] == "import " + contents[i]
  {
    seq(|contents|, i requires 0 <= i < |contents| => "import " + contents[i])
  }

  /** The outer literal of `lambda_code` around the formatted import lines
      and a formatted handler body, formatted again. */
  function LambdaText(contents: seq<string>, body: string): string {
    var imports := FormatCode(Join(ImportLines(contents), Newline));
    FormatCode(OuterText(SourceIndent, imports, body))
  }

  /** The outer literal of lambda_code: a line break, the indentation, the
      import lines, a line break, the handler body, a line break and the
      indentation. */
  function OuterText(indent: string, imports: string, body: string): string {
    [Newline] + indent + imports + [Newline] + body + [Newline] + indent
  }

  /** `lambda_code`, the contents of contents/layla_lambda.py. */
  function LambdaCode(contents: seq<string>): (r: string)
    ensures Trimmed(r)
  {
    LambdaText(contents, FormatCode(StaticCode()))
  }

  /** Lines are empty or hold a visible character at the given position. */
  predicate VisibleAt(lines: seq<string>, at: seq<nat>) {
    |at| == |lines| &&
    forall i :: 0 <= i < |lines| ==> lines[i] == "" || (at[i] < |lines[i]| && !IsMarginChar(lines[i][at[i]]))
  }

  lemma VisibleLines(lines: seq<string>, at: seq<nat>)
    requires VisibleAt(lines, at)
    ensures NoWhitespaceLines(lines)
  {
    forall i | 0 <= i < |lines| && lines[i] != "" ensures !IsBlank(lines[i]) {
      assert !IsMarginChar(lines[i][at[i]]);
    }
  }

  /** The handler body: a visible first and last line, no line breaks, no
      whitespace-only lines. */
  predicate BodyShape(handler: seq<string>) {
    && SingleLines(handler) && NoWhitespaceLines(handler)
    && handler != [] && handler[0] != [] && !IsSpace(handler[0][0])
    && var last := handler[|handler| - 1]; last != [] && !IsSpace(last[|last| - 1])
  }

  lemma HandlerLinesShape()
    ensures BodyShape(HandlerLines)
  {
    HandlerLinesSingle();
    HandlerLinesVisible();
    HandlerLinesEnds();
  }

  lemma HandlerLinesSingle()
    ensures SingleLines(HandlerLines)
  {
    HandlerHeadSingle();
    HandlerTailSingle();
    assert SingleLines(HandlerLines);
  }

  lemma HandlerHeadSingle()
    ensures Newline !in "import json" && Newline !in ""
    ensures Newline !in "def lambda_handler(event, context):" && Newline !in "    return {"
  {
  }

  lemma HandlerTailSingle()
    ensures Newline !in "        'statusCode': 200,"
    ensures Newline !in "        'body': json.dumps('Hello from Layla!')" && Newline !in "    }"
  {
  }

  lemma HandlerLinesVisible()
    ensures NoWhitespaceLines(HandlerLines)
  {
    VisibleLines(HandlerLines, [0, 0, 0, 4, 8, 8, 4]);
  }

  lemma HandlerLinesEnds()
    ensures HandlerLines != [] && HandlerLines[0] != [] && !IsSpace(HandlerLines[0][0])
    ensures var last := HandlerLines[|HandlerLines| - 1]; last != [] && !IsSpace(last[|last| - 1])
  {
  }

  /** format_code gives back the fixed body of the handler line by line. */
  lemma HandlerBody()
    ensures FormatCode(StaticCode()) == Join(HandlerLines, Newline)
  {
    HandlerLinesShape();
    FormatLiteralExact(HandlerLines);
  }

  lemma FormatEmpty()
    ensures FormatCode("") == ""
  {
    assert Split("", Newline) == [""];
    assert EmptyBlankLines([""]) == [""];
    assert Margin([""]) == None;
  }

  lemma ImportLinesShape(contents: seq<string>)
    requires SingleLines(contents)
    ensures SingleLines(ImportLines(contents))
    ensures NoWhitespaceLines(ImportLines(contents))
    ensures forall i :: 0 <= i < |contents| ==> StartsFlush(ImportLines(contents)[i])
  {
    var imports := ImportLines(contents);
    forall i | 0 <= i < |contents| ensures Newline !in imports[i] && StartsFlush(imports[i]) && !IsBlank(imports[i]) {
      assert imports[i][0] == 'i';
      assert forall j :: 0 <= j < |imports[i]| ==> imports[i][j] == if j < 7 then "import "[j] else contents[i][j - 7];
    }
  }

  /** The import lines, once formatted, are exactly the `import` lines
      joined, as long as the last library does not end with whitespace. */
  lemma ImportBlock(contents: seq<string>)
    requires SingleLines(contents)
    requires contents != []
    requires var last := contents[|contents| - 1]; last != [] && !IsSpace(last[|last| - 1])
    ensures FormatCode(Join(ImportLines(contents), Newline)) == Join(ImportLines(contents), Newline)
  {
    var joined := Join(ImportLines(contents), Newline);
    calc {
      FormatCode(joined);
      { ImportsDedented(contents); }
      Strip(joined);
      { ImportsTrimmed(contents); }
      joined;
    }
  }

  lemma ImportsDedented(contents: seq<string>)
    requires SingleLines(contents) && contents != []
    ensures Dedent(Join(ImportLines(contents), Newline)) == Join(ImportLines(contents), Newline)
  {
    var imports := ImportLines(contents);
    ImportLinesShape(contents);
    DedentFlushText(imports, 0);
    NoBlankLinesKept(imports);
  }

  lemma ImportsTrimmed(contents: seq<string>)
    requires contents != []
    requires var last := contents[|contents| - 1]; last != [] && !IsSpace(last[|last| - 1])
    ensures Strip(Join(ImportLines(contents), Newline)) == Join(ImportLines(contents), Newline)
  {
    var imports := ImportLines(contents);
    var last, lastImport := contents[|contents| - 1], imports[|imports| - 1];
    assert lastImport == "import " + last;
    assert lastImport[|lastImport| - 1] == last[|last| - 1];
    assert imports[0][0] == 'i';
    JoinTrimmed(imports);
  }

  /** With no libraries, the outer literal of lambda_code is a blank line,
      the handler body and a whitespace-only line; format_code drops both. */
  lemma LambdaTextEmpty(handler: seq<string>)
    requires BodyShape(handler)
    ensures LambdaText([], Join(handler, Newline)) == Join(handler, Newline)
  {
    NoImports();
    SourceIndentation();
    OuterEmpty(SourceIndent, handler);
  }

  lemma NoImports()
    ensures FormatCode(Join(ImportLines([]), Newline)) == ""
  {
    FormatEmpty();
    assert Join(ImportLines([]), Newline) == "";
  }

  /** The outer literal around no imports and a handler body comes out of
      format_code as the body. */
  lemma OuterEmpty(indent: string, handler: seq<string>)
    requires IsIndentation(indent) && BodyShape(handler)
    ensures FormatCode(OuterText(indent, "", Join(handler, Newline))) == Join(handler, Newline)
  {
    var body := Join(handler, Newline);
    var raw := [""] + ([indent] + handler) + [indent];
    calc {
      FormatCode(OuterText(indent, "", body));
      { OuterEmptyJoin(indent, handler); }
      Strip(Dedent(Join(raw, Newline)));
      { OuterEmptyDedent(indent, handler); }
      Strip([Newline, Newline] + body + [Newline]);
      { assert AllSpace([Newline, Newline]) && AllSpace([Newline]);
        StripPadded([Newline, Newline], body, [Newline]); }
      Strip(body);
      { JoinTrimmed(handler); }
      body;
    }
  }

  /** The lines of the outer literal around no imports: an empty line, the
      indentation alone, the handler body, the indentation alone. */
  lemma OuterEmptyJoin(indent: string, handler: seq<string>)
    requires handler != []
    ensures Join([""] + ([indent] + handler) + [indent], Newline) == OuterText(indent, "", Join(handler, Newline))
  {
    var nl, body := [Newline], Join(handler, Newline);
    calc {
      Join([""] + ([indent] + handler) + [indent], Newline);
      { FramedJoin([indent] + handler, indent); }
      nl + Join([indent] + handler, Newline) + nl + indent;
      { JoinCons(indent, handler, Newline); }
      nl + (indent + nl + body) + nl + indent;
      { Regroup7(nl, indent, [], nl, body, nl, indent); }
      OuterText(indent, "", body);
    }
  }

  /** dedent leaves the handler body in place and empties the two
      indentation-only lines around it. */
  lemma OuterEmptyDedent(indent: string, handler: seq<string>)
    requires IsIndentation(indent) && BodyShape(handler)
    ensures Dedent(Join([""] + ([indent] + handler) + [indent], Newline)) == [Newline, Newline] + Join(handler, Newline) + [Newline]
  {
    var raw := [""] + ([indent] + handler) + [indent];
    var nl, body := [Newline], Join(handler, Newline);
    calc {
      Dedent(Join(raw, Newline));
      { OuterEmptyLines(indent, handler); assert raw[2] == handler[0]; DedentFlushText(raw, 2); }
      Join(EmptyBlankLines(raw), Newline);
      { OuterEmptyLines(indent, handler); }
      Join([""] + ([""] + handler) + [""], Newline);
      { FramedJoin([""] + handler, ""); }
      nl + Join([""] + handler, Newline) + nl + "";
      { JoinCons("", handler, Newline); }
      nl + ("" + nl + body) + nl + "";
      { Regroup7(nl, [], [], nl, body, nl, []); }
      [Newline, Newline] + body + [Newline];
    }
  }

  lemma OuterEmptyLines(indent: string, handler: seq<string>)
    requires IsIndentation(indent) && BodyShape(handler)
    ensures SingleLines([""] + ([indent] + handler) + [indent])
    ensures EmptyBlankLines([""] + ([indent] + handler) + [indent]) == [""] + ([""] + handler) + [""]
  {
    var raw := [""] + ([indent] + handler) + [indent];
    var normal := [""] + ([""] + handler) + [""];
    forall i | 0 <= i < |raw| ensures Newline !in raw[i] && EmptyBlankLines(raw)[i] == normal[i] {
      if i == 1 || i == |raw| - 1 {
        BlankText(indent);
      } else if i > 1 {
        assert raw[i] == normal[i] == handler[i - 2];
      }
    }
  }

  /** With libraries, the outer literal of lambda_code holds the first import
      line behind the source indentation, the other import lines, then the
      handler body, all flush; format_code drops the indentation and the
      surrounding lines. */
  lemma LambdaTextImports(contents: seq<string>, handler: seq<string>)
    requires BodyShape(handler)
    requires SingleLines(contents) && contents != []
    requires var last := contents[|contents| - 1]; last != [] && !IsSpace(last[|last| - 1])
    ensures LambdaText(contents, Join(handler, Newline)) == Join(ImportLines(contents) + handler, Newline)
  {
    var imports := ImportLines(contents);
    ImportLinesShape(contents);
    ImportBlock(contents);
    assert imports[0][0] == 'i';
    SourceIndentation();
    OuterImports(SourceIndent, imports, handler);
  }

  /** The outer literal around import lines and a handler body comes out of
      format_code as the import lines followed by the body. */
  lemma OuterImports(indent: string, imports: seq<string>, handler: seq<string>)
    requires IsIndentation(indent) && BodyShape(handler)
    requires imports != [] && SingleLines(imports) && NoWhitespaceLines(imports) && StartsFlush(imports[0])
    requires !IsSpace(imports[0][0])
    ensures FormatCode(OuterText(indent, Join(imports, Newline), Join(handler, Newline))) == Join(imports + handler, Newline)
  {
    var all := imports + handler;
    var first := [indent + all[0]] + all[1..];
    var raw := [""] + first + [indent];
    var text := OuterText(indent, Join(imports, Newline), Join(handler, Newline));
    OuterImportsJoin(indent, imports, handler, first, raw);
    OuterImportsLines(indent, imports, handler, first);
    FramedDedent(indent, first, |imports|);
    OuterImportsStrip(indent, imports, handler, first);
    calc {
      FormatCode(text);
      Strip(Dedent(Join(raw, Newline)));
      Strip(Join([""] + first + [""], Newline));
      Join(all, Newline);
    }
  }

  /** Lines framed by an empty first line and a whitespace-only last line,
      one of them starting flush, dedent to the same lines with the last one
      emptied. */
  lemma FramedDedent(indent: string, first: seq<string>, k: nat)
    requires IsIndentation(indent) && SingleLines(first) && NoWhitespaceLines(first)
    requires k < |first| && StartsFlush(first[k])
    ensures Dedent(Join([""] + first + [indent], Newline)) == Join([""] + first + [""], Newline)
  {
    var raw := [""] + first + [indent];
    calc {
      Dedent(Join(raw, Newline));
      { FramedFlush(indent, first, k); }
      Join(EmptyBlankLines(raw), Newline);
      { FramedEmptied(indent, first); }
      Join([""] + first + [""], Newline);
    }
  }

  lemma FramedFlush(indent: string, first: seq<string>, k: nat)
    requires IsBlank(indent) && SingleLines(first)
    requires k < |first| && StartsFlush(first[k])
    ensures Dedent(Join([""] + first + [indent], Newline)) == Join(EmptyBlankLines([""] + first + [indent]), Newline)
  {
    var raw := [""] + first + [indent];
    calc {
      Dedent(Join(raw, Newline));
      { FramedSplit(indent, first); }
      Join(DedentLines(raw), Newline);
      { FramedFlushLines(indent, first, k); }
      Join(EmptyBlankLines(raw), Newline);
    }
  }

  lemma FramedSplit(indent: string, first: seq<string>)
    requires IsBlank(indent) && SingleLines(first)
    ensures Dedent(Join([""] + first + [indent], Newline)) == Join(DedentLines([""] + first + [indent]), Newline)
  {
    var raw := [""] + first + [indent];
    assert Split(Join(raw, Newline), Newline) == raw by {
      FramedSingle(indent, first);
      SplitJoin(raw, Newline);
    }
  }

  lemma FramedFlushLines(indent: string, first: seq<string>, k: nat)
    requires k < |first| && StartsFlush(first[k])
    ensures DedentLines([""] + first + [indent]) == EmptyBlankLines([""] + first + [indent])
  {
    var raw := [""] + first + [indent];
    assert raw[k + 1] == first[k];
    DedentFlush(raw, k + 1);
  }

  lemma FramedSingle(indent: string, first: seq<string>)
    requires IsBlank(indent) && SingleLines(first)
    ensures SingleLines([""] + first + [indent])
  {
    var raw := [""] + first + [indent];
    forall i | 0 <= i < |raw| ensures Newline !in raw[i] {
      if i == |raw| - 1 {
        BlankText(indent);
      } else if i > 0 {
        assert raw[i] == first[i - 1];
      }
    }
  }

  lemma FramedEmptied(indent: string, first: seq<string>)
    requires IsBlank(indent) && NoWhitespaceLines(first)
    ensures EmptyBlankLines([""] + first + [indent]) == [""] + first + [""]
  {
    var raw := [""] + first + [indent];
    forall i | 0 <= i < |raw| ensures EmptyBlankLines(raw)[i] == ([""] + first + [""])[i] {
      if 0 < i < |raw| - 1 { assert raw[i] == first[i - 1]; }
    }
  }

  /** Stripping the dedented outer literal leaves exactly the import lines
      followed by the handler lines. */
  lemma OuterImportsStrip(indent: string, imports: seq<string>, handler: seq<string>, first: seq<string>)
    requires IsIndentation(indent) && BodyShape(handler)
    requires imports != [] && imports[0] != [] && !IsSpace(imports[0][0])
    requires first == [indent + (imports + handler)[0]] + (imports + handler)[1..]
    ensures Strip(Join([""] + first + [""], Newline)) == Join(imports + handler, Newline)
  {
    var framed := [Newline] + Join(first, Newline) + [Newline];
    assert Join([""] + first + [""], Newline) == framed by {
      JoinThree("", first, "", Newline);
    }
    assert Strip(framed) == Strip(Join(imports + handler, Newline)) by {
      IndentedStrip(indent, imports + handler, first);
    }
    AppendStripped(imports, handler);
  }

  /** The lines of the outer literal around import lines join back into it. */
  lemma OuterImportsJoin(indent: string, imports: seq<string>, handler: seq<string>, first: seq<string>, raw: seq<string>)
    requires imports != [] && handler != []
    requires first == [indent + (imports + handler)[0]] + (imports + handler)[1..]
    requires raw == [""] + first + [indent]
    ensures Join(raw, Newline) == OuterText(indent, Join(imports, Newline), Join(handler, Newline))
  {
    var nl := [Newline];
    var ji, jh := Join(imports, Newline), Join(handler, Newline);
    calc {
      Join(raw, Newline);
      { FramedJoin(first, indent); }
      nl + Join(first, Newline) + nl + indent;
      { PrefixedJoin(indent, imports, handler, first); }
      nl + (indent + (ji + nl + jh)) + nl + indent;
      { Regroup7(nl, indent, ji, nl, jh, nl, indent); }
      OuterText(indent, ji, jh);
    }
  }

  lemma FramedJoin(first: seq<string>, last: string)
    requires first != []
    ensures Join([""] + first + [last], Newline) == [Newline] + Join(first, Newline) + [Newline] + last
  {
    JoinThree("", first, last, Newline);
    assert "" + [Newline] == [Newline];
  }

  lemma PrefixedJoin(indent: string, imports: seq<string>, handler: seq<string>, first: seq<string>)
    requires imports != [] && handler != []
    requires first == [indent + (imports + handler)[0]] + (imports + handler)[1..]
    ensures Join(first, Newline) == indent + (Join(imports, Newline) + [Newline] + Join(handler, Newline))
  {
    JoinPrefixed(indent, imports + handler, Newline);
    JoinAppend(imports, handler, Newline);
  }

  lemma Regroup7<T>(a: seq<T>, b: seq<T>, c: seq<T>, d: seq<T>, e: seq<T>, f: seq<T>, g: seq<T>)
    ensures a + (b + (c + d + e)) + f + g == a + b + c + d + e + f + g
  {
  }

  /** The lines of the outer literal around import lines hold no line break
      and no whitespace-only line, and the body starts flush. */
  lemma OuterImportsLines(indent: string, imports: seq<string>, handler: seq<string>, first: seq<string>)
    requires IsIndentation(indent) && BodyShape(handler)
    requires imports != [] && SingleLines(imports) && NoWhitespaceLines(imports) && StartsFlush(imports[0])
    requires first == [indent + (imports + handler)[0]] + (imports + handler)[1..]
    ensures SingleLines(first) && NoWhitespaceLines(first)
    ensures |first| > |imports| && StartsFlush(first[|imports|])
  {
    var all := imports + handler;
    BlankText(indent);
    SingleLinesAppend(imports, handler);
    assert !IsBlank(all[0]) by { assert !IsMarginChar(imports[0][0]); }
    IndentedLine(indent, all[0]);
    assert forall i :: 1 <= i < |first| ==> first[i] == all[i];
    assert forall i :: 0 <= i < |all| && all[i] != "" ==> !IsBlank(all[i]) by {
      forall i | 0 <= i < |all| && all[i] != "" ensures !IsBlank(all[i]) {
        if i >= |imports| { assert all[i] == handler[i - |imports|]; }
      }
    }
    assert first[|imports|] == handler[0];
  }

  lemma IndentedStrip(indent: string, all: seq<string>, first: seq<string>)
    requires IsBlank(indent) && all != []
    requires first == [indent + all[0]] + all[1..]
    ensures Strip([Newline] + Join(first, Newline) + [Newline]) == Strip(Join(all, Newline))
  {
    JoinPrefixed(indent, all, Newline);
    StripIndented(indent, Join(all, Newline));
  }

  lemma StripIndented(indent: string, s: string)
    requires IsBlank(indent)
    ensures Strip([Newline] + (indent + s) + [Newline]) == Strip(s)
  {
    var nl := [Newline];
    BlankText(indent);
    AllSpaceAppend(nl, indent);
    assert nl + (indent + s) + nl == (nl + indent) + s + nl;
    StripPadded(nl + indent, s, nl);
  }

  lemma AppendStripped(a: seq<string>, b: seq<string>)
    requires a != [] && a[0] != [] && !IsSpace(a[0][0])
    requires b != [] && var last := b[|b| - 1]; last != [] && !IsSpace(last[|last| - 1])
    ensures Strip(Join(a + b, Newline)) == Join(a + b, Newline)
  {
    assert (a + b)[0] == a[0] && (a + b)[|a + b| - 1] == b[|b| - 1];
    JoinTrimmed(a + b);
  }

  /** The handler is one `import <lib>` line per library, in order, followed
      directly by the fixed body that starts with `import json`; with no
      libraries it is exactly the fixed body. */
  lemma LambdaCodeLines(contents: seq<string>)
    requires SingleLines(contents)
    requires contents != [] ==> var last := contents[|contents| - 1]; last != [] && !IsSpace(last[|last| - 1])
    ensures LambdaCode(contents) == Join(ImportLines(contents) + HandlerLines, Newline)
    ensures Split(LambdaCode(contents), Newline) == ImportLines(contents) + HandlerLines
    ensures contents == [] ==> LambdaCode(contents) == Join(HandlerLines, Newline)
  {
    LambdaCodeJoin(contents);
    ImportLinesShape(contents);
    HandlerLinesSingle();
    SingleLinesAppend(ImportLines(contents), HandlerLines);
    SplitJoined(LambdaCode(contents), ImportLines(contents) + HandlerLines);
    if contents == [] {
      NoImportsCode(contents);
    }
  }

  lemma LambdaCodeJoin(contents: seq<string>)
    requires SingleLines(contents)
    requires contents != [] ==> var last := contents[|contents| - 1]; last != [] && !IsSpace(last[|last| - 1])
    ensures LambdaCode(contents) == Join(ImportLines(contents) + HandlerLines, Newline)
  {
    if contents == [] {
      NoImportsCode(contents);
      NoImportLines(contents);
    } else {
      LambdaCodeImports(contents);
    }
  }

  lemma LambdaCodeNoImports()
    ensures LambdaCode([]) == Join(HandlerLines, Newline)
  {
    HandlerBody();
    HandlerLinesShape();
    LambdaTextEmpty(HandlerLines);
  }

  lemma NoImportsCode(contents: seq<string>)
    requires contents == []
    ensures LambdaCode(contents) == Join(HandlerLines, Newline)
  {
    LambdaCodeNoImports();
  }

  lemma NoImportLines(contents: seq<string>)
    requires contents == []
    ensures Join(ImportLines(contents) + HandlerLines, Newline) == Join(HandlerLines, Newline)
  {
    assert ImportLines(contents) + HandlerLines == HandlerLines;
  }

  lemma LambdaCodeImports(contents: seq<string>)
    requires SingleLines(contents) && contents != []
    requires var last := contents[|contents| - 1]; last != [] && !IsSpace(last[|last| - 1])
    ensures LambdaCode(contents) == Join(ImportLines(contents) + HandlerLines, Newline)
  {
    HandlerBody();
    HandlerLinesShape();
    LambdaTextImports(contents, HandlerLines);
  }

  lemma SingleLinesAppend(a: seq<string>, b: seq<string>)
    requires SingleLines(a) && SingleLines(b)
    ensures SingleLines(a + b)
  {
    assert forall i :: |a| <= i < |a + b| ==> (a + b)[i] == b[i - |a|];
  }

  // ---------------------------------------------------------------------------
  // contents/requirements.txt (layla.py:139)
  // ---------------------------------------------------------------------------

  /** The requirements: the libraries joined by line breaks, formatted. */
  function RequirementsText(contents: seq<string>): (r: string)
    ensures Trimmed(r)
    ensures contents == [] ==> r == ""
  {
    FormatEmpty();
    FormatCode(Join(contents, Newline))
  }

  /** Libraries without line breaks and without whitespace at their ends come
      back from the requirements, one per line, in order and with their
      duplicates; no libraries give the empty text. */
  lemma RequirementsLines(contents: seq<string>)
    requires SingleLines(contents)
    requires forall i :: 0 <= i < |contents| ==> contents[i] != [] && Trimmed(contents[i])
    ensures contents == [] ==> RequirementsText(contents) == ""
    ensures contents != [] ==> RequirementsText(contents) == Join(contents, Newline)
    ensures contents != [] ==> Split(RequirementsText(contents), Newline) == contents
  {
    if contents == [] {
      FormatEmpty();
    } else {
      RequirementsJoined(contents);
      SplitJoin(contents, Newline);
    }
  }

  lemma RequirementsJoined(contents: seq<string>)
    requires SingleLines(contents) && contents != []
    requires forall i :: 0 <= i < |contents| ==> contents[i] != [] && Trimmed(contents[i])
    ensures FormatCode(Join(contents, Newline)) == Join(contents, Newline)
  {
    var joined := Join(contents, Newline);
    FlushLines(contents);
    DedentFlushText(contents, 0);
    NoBlankLinesKept(contents);
    assert Dedent(joined) == joined;
    var first, last := contents[0], contents[|contents| - 1];
    assert Trimmed(first) && Trimmed(last);
    JoinTrimmed(contents);
  }

  /** Lines that are not empty and do not start with whitespace are flush and
      visible. */
  lemma FlushLines(lines: seq<string>)
    requires forall i :: 0 <= i < |lines| ==> lines[i] != [] && Trimmed(lines[i])
    ensures NoWhitespaceLines(lines)
    ensures forall i :: 0 <= i < |lines| ==> StartsFlush(lines[i])
  {
    forall i | 0 <= i < |lines| ensures StartsFlush(lines[i]) && !IsBlank(lines[i]) {
      assert !IsSpace(lines[i][0]);
    }
  }

  // ---------------------------------------------------------------------------
  // samconfig.toml (layla.py:85-98)
  // ---------------------------------------------------------------------------

  /** `str(self.s3_bucket)`: an absent bucket is rendered as `None`. */
  function BucketText(bucket: Option<string>): (r: string)
    ensures bucket.Some? ==> r == bucket.value
    ensures r == "None" <==> bucket == None || bucket == Some("None")
  {
    match bucket
    case None => "None"
    case Some(name) => name
  }

  /** A TOML string value. */
  function Quoted(s: string): string {
    "\"" + s + "\""
  }

  /** The lines of `config_code`'s literal. */
  function ConfigLines(stackName: string, bucket: Option<string>, regionName: string): seq<string> {
    [
      "version = 0.1",
      "[default]",
      "[default.deploy]",
      "[default.deploy.parameters]",
      "stack_name = " + Quoted(stackName),
      "s3_bucket = " + Quoted(BucketText(bucket)),
      "s3_prefix = " + Quoted(stackName),
      "region = " + Quoted(regionName),
      "confirm_changeset = true",
      "capabilities = \"CAPABILITY_IAM\""
    ]
  }

  /** `config_code`, the contents of samconfig.toml. */
  function ConfigCode(stackName: string, bucket: Option<string>, regionName: string): (r: string)
    ensures Trimmed(r)
  {
    FormatCode(Literal(ConfigLines(stackName, bucket, regionName)))
  }

  lemma ConfigLinesShape(stackName: string, bucket: Option<string>, regionName: string)
    requires Newline !in stackName && Newline !in BucketText(bucket) && Newline !in regionName
    ensures var lines := ConfigLines(stackName, bucket, regionName);
      SingleLines(lines) && NoWhitespaceLines(lines) && lines[0] != [] && !IsSpace(lines[0][0]) &&
      lines[9] != [] && !IsSpace(lines[9][|lines[9]| - 1])
  {
    ConfigLinesSingle(stackName, bucket, regionName);
    VisibleLines(ConfigLines(stackName, bucket, regionName), seq(10, _ => 0));
  }

  lemma ConfigLinesSingle(stackName: string, bucket: Option<string>, regionName: string)
    requires Newline !in stackName && Newline !in BucketText(bucket) && Newline !in regionName
    ensures SingleLines(ConfigLines(stackName, bucket, regionName))
  {
    var lines := ConfigLines(stackName, bucket, regionName);
    ConfigHeadSingle();
    ConfigKeysSingle();
    ConfigFixedSingle();
    SettingLineSingle("stack_name = ", stackName);
    SettingLineSingle("s3_bucket = ", BucketText(bucket));
    SettingLineSingle("s3_prefix = ", stackName);
    SettingLineSingle("region = ", regionName);
    assert SingleLines(lines);
  }

  /** The section headers of samconfig.toml. */
  lemma ConfigHeadSingle()
    ensures Newline !in "version = 0.1" && Newline !in "[default]"
    ensures Newline !in "[default.deploy]" && Newline !in "[default.deploy.parameters]"
  {
  }

  /** The keys and the fixed settings of samconfig.toml. */
  lemma ConfigKeysSingle()
    ensures Newline !in "stack_name = " && Newline !in "s3_bucket = "
    ensures Newline !in "s3_prefix = " && Newline !in "region = "
  {
  }

  lemma ConfigFixedSingle()
    ensures Newline !in "confirm_changeset = true" && Newline !in "capabilities = \"CAPABILITY_IAM\""
  {
  }

  lemma SettingLineSingle(key: string, value: string)
    requires Newline !in key && Newline !in value
    ensures Newline !in key + Quoted(value)
  {
    var line := key + Quoted(value);
    assert forall j :: 0 <= j < |line| ==>
      line[j] == if j < |key| then key[j] else if j == |key| || j == |line| - 1 then '"' else value[j - |key| - 1];
  }

  /** samconfig.toml is the lines of its literal, without the source's
      indentation. */
  lemma ConfigText(stackName: string, bucket: Option<string>, regionName: string)
    requires Newline !in stackName && Newline !in BucketText(bucket) && Newline !in regionName
    ensures Lines(ConfigCode(stackName, bucket, regionName)) == ConfigLines(stackName, bucket, regionName)
  {
    var lines := ConfigLines(stackName, bucket, regionName);
    ConfigLinesShape(stackName, bucket, regionName);
    FormatLiteralExact(lines);
    SplitJoined(ConfigCode(stackName, bucket, regionName), lines);
  }

  /** samconfig.toml holds the stack name as both `stack_name` and
      `s3_prefix`, the bucket (`"None"` when absent) as `s3_bucket`, and the
      region as `region`. */
  lemma ConfigSettings(stackName: string, bucket: Option<string>, regionName: string)
    requires Newline !in stackName && Newline !in BucketText(bucket) && Newline !in regionName
    ensures var text := ConfigCode(stackName, bucket, regionName);
      && Setting(text, "stack_name") == Some(Quoted(stackName))
      && Setting(text, "s3_bucket") == Some(Quoted(BucketText(bucket)))
      && Setting(text, "s3_prefix") == Some(Quoted(stackName))
      && Setting(text, "region") == Some(Quoted(regionName))
  {
    var text := ConfigCode(stackName, bucket, regionName);
    ConfigText(stackName, bucket, regionName);
    ConfigValues(Lines(text), stackName, bucket, regionName);
  }

  /** Without a bucket, samconfig.toml says `s3_bucket = "None"`: the same
      text as for a bucket literally named `None`. */
  lemma ConfigAbsentBucket(stackName: string, regionName: string)
    requires Newline !in stackName && Newline !in regionName
    ensures Setting(ConfigCode(stackName, None, regionName), "s3_bucket") == Some("\"None\"")
    ensures ConfigCode(stackName, None, regionName) == ConfigCode(stackName, Some("None"), regionName)
  {
    AbsentBucketSetting(stackName, None, regionName);
    assert ConfigLines(stackName, None, regionName) == ConfigLines(stackName, Some("None"), regionName);
  }

  lemma AbsentBucketSetting(stackName: string, bucket: Option<string>, regionName: string)
    requires Newline !in stackName && Newline !in regionName && bucket == None
    ensures Setting(ConfigCode(stackName, bucket, regionName), "s3_bucket") == Some("\"None\"")
  {
    assert Quoted(BucketText(bucket)) == "\"None\"";
    ConfigSettings(stackName, bucket, regionName);
  }

  lemma ConfigValues(lines: seq<string>, stackName: string, bucket: Option<string>, regionName: string)
    requires lines == ConfigLines(stackName, bucket, regionName)
    ensures ValueAfter(lines, "stack_name" + " = ") == Some(Quoted(stackName))
    ensures ValueAfter(lines, "s3_bucket" + " = ") == Some(Quoted(BucketText(bucket)))
    ensures ValueAfter(lines, "s3_prefix" + " = ") == Some(Quoted(stackName))
    ensures ValueAfter(lines, "region" + " = ") == Some(Quoted(regionName))
  {
    StackNameValue(lines, stackName, bucket, regionName);
    BucketValue(lines, stackName, bucket, regionName);
    PrefixValue(lines, stackName, bucket, regionName);
    RegionValue(lines, stackName, bucket, regionName);
  }

  lemma StackNameValue(lines: seq<string>, stackName: string, bucket: Option<string>, regionName: string)
    requires lines == ConfigLines(stackName, bucket, regionName)
    ensures ValueAfter(lines, "stack_name" + " = ") == Some(Quoted(stackName))
  {
    SettingAt(lines, 4, "stack_name = ", Quoted(stackName), [0, 0, 0, 0]);
    assert "stack_name" + " = " == "stack_name = ";
  }

  lemma BucketValue(lines: seq<string>, stackName: string, bucket: Option<string>, regionName: string)
    requires lines == ConfigLines(stackName, bucket, regionName)
    ensures ValueAfter(lines, "s3_bucket" + " = ") == Some(Quoted(BucketText(bucket)))
  {
    SettingAt(lines, 5, "s3_bucket = ", Quoted(BucketText(bucket)), [0, 0, 0, 0, 1]);
    assert "s3_bucket" + " = " == "s3_bucket = ";
  }

  lemma PrefixValue(lines: seq<string>, stackName: string, bucket: Option<string>, regionName: string)
    requires lines == ConfigLines(stackName, bucket, regionName)
    ensures ValueAfter(lines, "s3_prefix" + " = ") == Some(Quoted(stackName))
  {
    SettingAt(lines, 6, "s3_prefix = ", Quoted(stackName), [0, 0, 0, 0, 1, 3]);
    assert "s3_prefix" + " = " == "s3_prefix = ";
  }

  lemma RegionValue(lines: seq<string>, stackName: string, bucket: Option<string>, regionName: string)
    requires lines == ConfigLines(stackName, bucket, regionName)
    ensures ValueAfter(lines, "region" + " = ") == Some(Quoted(regionName))
  {
    SettingAt(lines, 7, "region = ", Quoted(regionName), [0, 0, 0, 0, 0, 0, 0]);
    assert "region" + " = " == "region = ";
  }

  lemma SettingAt(lines: seq<string>, n: nat, prefix: string, value: string, at: seq<nat>)
    requires n < |lines| && lines[n] == prefix + value
    requires DifferAt(lines[..n], prefix, at)
    ensures ValueAfter(lines, prefix) == Some(value)
  {
    assert lines == lines[..n] + ([lines[n]] + lines[n + 1..]);
    ValueAfterSkip(lines[..n], [lines[n]] + lines[n + 1..], prefix, at);
    ValueAfterFirst(lines[n], lines[n + 1..], prefix, value);
  }

  // ---------------------------------------------------------------------------
  // template.yaml (layla.py:99-130)
  // ---------------------------------------------------------------------------

  /** The logical id of the function: `lambda_prefix` and the safe name. */
  function LambdaId(safe: string): string { "LaylaLambda" + safe }

  /** The logical id of the layer. */
  function LayerId(safe: string): string { "LaylaLayer" + safe }

  /** The lines of `template_code`'s literal: the preamble, the
      `Resources:` header, the function and the layer. */
  function TemplateLines(safe: string): seq<string> {
    TemplatePreamble + ["Resources:"] + FunctionResource(safe) + LayerResource(safe)
  }

  const TemplatePreamble: seq<string> := [
    "AWSTemplateFormatVersion: '2010-09-09'",
    "Transform: AWS::Serverless-2016-10-31",
    "",
    "Description: layer description.",
    "",
    "Globals:",
    "    Function:",
    "        Runtime: python3.6",
    ""
  ]

  function FunctionResource(safe: string): seq<string> {
    [
      "    " + LambdaId(safe) + ":",
      "        Type: AWS::Serverless::Function",
      "        Properties:",
      "            CodeUri: contents/",
      "            Handler: layla_lambda.lambda_handler"
    ]
  }

  function LayerResource(safe: string): seq<string> {
    [
      "    " + LayerId(safe) + ":",
      "        Type: AWS::Serverless::LayerVersion",
      "        Properties:",
      "            LayerName: " + safe,
      "            Description: " + "Layer containing custom libraries",
      "            ContentUri: ./.aws-sam/build/" + LambdaId(safe),
      "            CompatibleRuntimes:",
      "                - python3.6",
      "                - python3.7",
      "            RetentionPolicy: Delete",
      "        DependsOn: " + LambdaId(safe)
    ]
  }

  /** `template_code`, the contents of template.yaml. */
  function TemplateCode(safe: string): (r: string)
    ensures Trimmed(r)
  {
    FormatCode(Literal(TemplateLines(safe)))
  }

  lemma TemplateLinesShape(safe: string)
    requires Newline !in safe
    requires safe == [] || !IsSpace(safe[|safe| - 1])
    ensures var lines := TemplateLines(safe);
      SingleLines(lines) && NoWhitespaceLines(lines) && lines != [] && lines[0] != [] && !IsSpace(lines[0][0]) &&
      var last := lines[|lines| - 1]; last != [] && !IsSpace(last[|last| - 1])
  {
    TemplateLinesSingle(safe);
    TemplateLinesVisible(safe);
    TemplateEnds(safe);
  }

  lemma TemplateLinesSingle(safe: string)
    requires Newline !in safe
    ensures SingleLines(TemplateLines(safe))
  {
    FunctionResourceSingle(safe);
    LayerResourceSingle(safe);
    PreambleSingle();
    SingleLinesAppend(TemplatePreamble + ["Resources:"], FunctionResource(safe));
    SingleLinesAppend(TemplatePreamble + ["Resources:"] + FunctionResource(safe), LayerResource(safe));
  }

  lemma FunctionResourceSingle(safe: string)
    requires Newline !in safe
    ensures SingleLines(FunctionResource(safe))
  {
    FunctionLiteralsSingle();
    FunctionPropertiesSingle();
  }

  lemma LayerResourceSingle(safe: string)
    requires Newline !in safe
    ensures SingleLines(LayerResource(safe))
  {
    FunctionLiteralsSingle();
    LayerLiteralsSingle();
    LayerNamingSingle();
    LayerPropertiesSingle();
    LayerRuntimesSingle();
  }

  /** The fixed pieces of the function resource's lines. */
  lemma FunctionLiteralsSingle()
    ensures Newline !in "LaylaLambda" && Newline !in "    " && Newline !in ":"
    ensures Newline !in "        Type: AWS::Serverless::Function"
    ensures Newline !in "        Properties:"
  {
  }

  lemma FunctionPropertiesSingle()
    ensures Newline !in "            CodeUri: contents/"
    ensures Newline !in "            Handler: layla_lambda.lambda_handler"
  {
  }

  /** The fixed pieces of the first lines of the layer resource. */
  lemma LayerLiteralsSingle()
    ensures Newline !in "LaylaLayer"
    ensures Newline !in "        Type: AWS::Serverless::LayerVersion"
    ensures Newline !in "        DependsOn: "
  {
  }

  lemma LayerNamingSingle()
    ensures Newline !in "            LayerName: "
    ensures Newline !in "            Description: " && Newline !in "Layer containing custom libraries"
  {
  }

  /** The fixed pieces of the last lines of the layer resource. */
  lemma LayerPropertiesSingle()
    ensures Newline !in "            ContentUri: ./.aws-sam/build/"
    ensures Newline !in "            CompatibleRuntimes:"
  {
  }

  lemma LayerRuntimesSingle()
    ensures Newline !in "                - python3.6"
    ensures Newline !in "                - python3.7"
    ensures Newline !in "            RetentionPolicy: Delete"
  {
  }

  lemma PreambleSingle()
    ensures SingleLines(TemplatePreamble + ["Resources:"])
  {
    PreambleVersionSingle();
    PreambleTransformSingle();
    PreambleGlobalsSingle();
    assert SingleLines(TemplatePreamble + ["Resources:"]);
  }

  lemma PreambleVersionSingle()
    ensures Newline !in "AWSTemplateFormatVersion: '2010-09-09'" && Newline !in ""
  {
  }

  lemma PreambleTransformSingle()
    ensures Newline !in "Transform: AWS::Serverless-2016-10-31"
  {
  }

  lemma PreambleGlobalsSingle()
    ensures Newline !in "Description: layer description." && Newline !in "Globals:"
    ensures Newline !in "    Function:" && Newline !in "        Runtime: python3.6"
    ensures Newline !in "Resources:"
  {
  }

  lemma TemplateLinesVisible(safe: string)
    ensures NoWhitespaceLines(TemplateLines(safe))
  {
    var at := [0, 0, 0, 0, 0, 0, 4, 8, 0] + [0] + [4, 8, 8, 12, 12] + [4, 8, 8, 12, 12, 12, 12, 16, 16, 12, 8];
    PreambleVisible();
    FunctionVisible(safe);
    LayerVisible(safe);
    VisibleAtAppend(TemplatePreamble, ["Resources:"], [0, 0, 0, 0, 0, 0, 4, 8, 0], [0]);
    VisibleAtAppend(TemplatePreamble + ["Resources:"], FunctionResource(safe),
      [0, 0, 0, 0, 0, 0, 4, 8, 0] + [0], [4, 8, 8, 12, 12]);
    VisibleAtAppend(TemplatePreamble + ["Resources:"] + FunctionResource(safe), LayerResource(safe),
      [0, 0, 0, 0, 0, 0, 4, 8, 0] + [0] + [4, 8, 8, 12, 12], [4, 8, 8, 12, 12, 12, 12, 16, 16, 12, 8]);
    VisibleLines(TemplateLines(safe), at);
  }

  lemma PreambleVisible()
    ensures VisibleAt(TemplatePreamble, [0, 0, 0, 0, 0, 0, 4, 8, 0])
  {
  }

  lemma FunctionVisible(safe: string)
    ensures VisibleAt(FunctionResource(safe), [4, 8, 8, 12, 12])
  {
  }

  lemma LayerVisible(safe: string)
    ensures VisibleAt(LayerResource(safe), [4, 8, 8, 12, 12, 12, 12, 16, 16, 12, 8])
  {
  }

  lemma VisibleAtAppend(a: seq<string>, b: seq<string>, atA: seq<nat>, atB: seq<nat>)
    requires VisibleAt(a, atA) && VisibleAt(b, atB)
    ensures VisibleAt(a + b, atA + atB)
  {
    forall i | |a| <= i < |a + b| ensures (a + b)[i] == b[i - |a|] && (atA + atB)[i] == atB[i - |a|] { }
  }

  lemma TemplateEnds(safe: string)
    requires safe == [] || !IsSpace(safe[|safe| - 1])
    ensures var lines := TemplateLines(safe); lines != [] && lines[0] != [] && !IsSpace(lines[0][0])
    ensures var lines := TemplateLines(safe); var last := lines[|lines| - 1]; last != [] && !IsSpace(last[|last| - 1])
  {
    var layer := LayerResource(safe);
    var last := layer[10];
    assert last[|last| - 1] == if safe == [] then 'a' else safe[|safe| - 1];
    EndsOf(TemplatePreamble + ["Resources:"] + FunctionResource(safe), layer);
    EndsOf(TemplatePreamble, ["Resources:"] + FunctionResource(safe));
    assert TemplatePreamble + ["Resources:"] + FunctionResource(safe) == TemplatePreamble + (["Resources:"] + FunctionResource(safe));
  }

  lemma EndsOf(a: seq<string>, b: seq<string>)
    requires a != [] && b != []
    ensures (a + b)[0] == a[0] && (a + b)[|a + b| - 1] == b[|b| - 1]
  {
  }

  /** template.yaml is the lines of its literal, without the source's
      indentation. */
  lemma TemplateText(safe: string)
    requires Newline !in safe
    requires safe == [] || !IsSpace(safe[|safe| - 1])
    ensures Lines(TemplateCode(safe)) == TemplateLines(safe)
  {
    var lines := TemplateLines(safe);
    TemplateLinesShape(safe);
    FormatLiteralExact(lines);
    SplitJoined(TemplateCode(safe), lines);
  }

  /** The template declares exactly two resources, the function
      `LaylaLambda<safe>` and the layer `LaylaLayer<safe>`; the layer is named
      `<safe>`, takes its content from the function's build directory and
      depends on the function. */
  lemma TemplateResources(safe: string)
    requires Newline !in safe
    requires safe == [] || !IsSpace(safe[|safe| - 1])
    ensures var text := TemplateCode(safe);
      && ResourceIds(text) == [LambdaId(safe), LayerId(safe)]
      && ValueAfter(Lines(text), "            LayerName: ") == Some(safe)
      && ValueAfter(Lines(text), "            ContentUri: ") == Some("./.aws-sam/build/" + LambdaId(safe))
      && ValueAfter(Lines(text), "        DependsOn: ") == Some(LambdaId(safe))
  {
    var text := TemplateCode(safe);
    TemplateText(safe);
    TemplateIds(Lines(text), safe);
    TemplateValues(Lines(text), safe);
  }

  lemma TemplateValues(lines: seq<string>, safe: string)
    requires lines == TemplateLines(safe)
    ensures ValueAfter(lines, "            LayerName: ") == Some(safe)
    ensures ValueAfter(lines, "            ContentUri: ") == Some("./.aws-sam/build/" + LambdaId(safe))
    ensures ValueAfter(lines, "        DependsOn: ") == Some(LambdaId(safe))
  {
    LayerNameValue(lines, safe);
    ContentUriValue(lines, safe);
    DependsOnValue(lines, safe);
  }

  /** The template up to the layer resource. */
  function TemplateHead(safe: string): seq<string> {
    TemplatePreamble + ["Resources:"] + FunctionResource(safe)
  }

  /** A value of the layer resource is found there: no line before the layer
      starts with its key. */
  lemma LayerValue(lines: seq<string>, safe: string, prefix: string, n: nat, value: string,
                   atHead: seq<nat>, atLayer: seq<nat>)
    requires lines == TemplateLines(safe)
    requires DifferAt(TemplateHead(safe), prefix, atHead)
    requires n < |LayerResource(safe)| && LayerResource(safe)[n] == prefix + value
    requires DifferAt(LayerResource(safe)[..n], prefix, atLayer)
    ensures ValueAfter(lines, prefix) == Some(value)
  {
    assert lines == TemplateHead(safe) + LayerResource(safe);
    ValueAfterSkip(TemplateHead(safe), LayerResource(safe), prefix, atHead);
    SettingAt(LayerResource(safe), n, prefix, value, atLayer);
  }

  lemma HeadDiffers(safe: string, prefix: string, atPreamble: seq<nat>, atHeader: nat, atFunction: seq<nat>)
    requires DifferAt(TemplatePreamble, prefix, atPreamble)
    requires DifferAt(["Resources:"], prefix, [atHeader])
    requires DifferAt(FunctionResource(safe), prefix, atFunction)
    ensures DifferAt(TemplateHead(safe), prefix, atPreamble + [atHeader] + atFunction)
  {
    DifferAtAppend(TemplatePreamble, ["Resources:"], prefix, atPreamble, [atHeader]);
    DifferAtAppend(TemplatePreamble + ["Resources:"], FunctionResource(safe), prefix, atPreamble + [atHeader], atFunction);
  }

  lemma LayerNameValue(lines: seq<string>, safe: string)
    requires lines == TemplateLines(safe)
    ensures ValueAfter(lines, "            LayerName: ") == Some(safe)
  {
    var prefix := "            LayerName: ";
    assert DifferAt(TemplatePreamble, prefix, seq(9, _ => 12));
    assert DifferAt(FunctionResource(safe), prefix, seq(5, _ => 12));
    HeadDiffers(safe, prefix, seq(9, _ => 12), 12, seq(5, _ => 12));
    LayerValue(lines, safe, prefix, 3, safe, seq(9, _ => 12) + [12] + seq(5, _ => 12), [12, 12, 12]);
  }

  lemma ContentUriDiffers(safe: string)
    ensures DifferAt(TemplatePreamble, "            ContentUri: ", seq(9, _ => 12))
    ensures DifferAt(FunctionResource(safe), "            ContentUri: ", [12, 12, 12, 14, 12])
  {
  }

  lemma ContentUriLine(safe: string)
    ensures DifferAt(LayerResource(safe)[..5], "            ContentUri: ", [12, 12, 12, 12, 12])
    ensures LayerResource(safe)[5] == "            ContentUri: " + ("./.aws-sam/build/" + LambdaId(safe))
  {
  }

  lemma ContentUriValue(lines: seq<string>, safe: string)
    requires lines == TemplateLines(safe)
    ensures ValueAfter(lines, "            ContentUri: ") == Some("./.aws-sam/build/" + LambdaId(safe))
  {
    var prefix := "            ContentUri: ";
    ContentUriDiffers(safe);
    ContentUriLine(safe);
    HeadDiffers(safe, prefix, seq(9, _ => 12), 12, [12, 12, 12, 14, 12]);
    LayerValue(lines, safe, prefix, 5, "./.aws-sam/build/" + LambdaId(safe),
      seq(9, _ => 12) + [12] + [12, 12, 12, 14, 12], [12, 12, 12, 12, 12]);
  }

  lemma DependsOnValue(lines: seq<string>, safe: string)
    requires lines == TemplateLines(safe)
    ensures ValueAfter(lines, "        DependsOn: ") == Some(LambdaId(safe))
  {
    var prefix := "        DependsOn: ";
    assert DifferAt(TemplatePreamble, prefix, seq(9, _ => 8));
    assert DifferAt(FunctionResource(safe), prefix, seq(5, _ => 8));
    HeadDiffers(safe, prefix, seq(9, _ => 8), 8, seq(5, _ => 8));
    LayerValue(lines, safe, prefix, 10, LambdaId(safe), seq(9, _ => 8) + [8] + seq(5, _ => 8), seq(10, _ => 8));
  }

  lemma TemplateIds(lines: seq<string>, safe: string)
    requires lines == TemplateLines(safe)
    ensures NestedKeys(After(lines, "Resources:")) == [LambdaId(safe), LayerId(safe)]
  {
    ResourcesSection(lines, safe);
    ResourceKeys(FunctionResource(safe) + LayerResource(safe), safe);
  }

  lemma ResourcesSection(lines: seq<string>, safe: string)
    requires lines == TemplateLines(safe)
    ensures After(lines, "Resources:") == FunctionResource(safe) + LayerResource(safe)
  {
    var rest := FunctionResource(safe) + LayerResource(safe);
    assert lines == TemplatePreamble + (["Resources:"] + rest);
    assert DifferAt(TemplatePreamble, "Resources:", seq(9, _ => 0));
    AfterSkip(TemplatePreamble, ["Resources:"] + rest, "Resources:", seq(9, _ => 0));
    AfterFirst(rest, "Resources:");
  }

  lemma ResourceKeys(rest: seq<string>, safe: string)
    requires rest == FunctionResource(safe) + LayerResource(safe)
    ensures NestedKeys(rest) == [LambdaId(safe), LayerId(safe)]
  {
    NestedKeysAppend(FunctionResource(safe), LayerResource(safe));
    ResourceBlock(FunctionResource(safe), LambdaId(safe));
    ResourceBlock(LayerResource(safe), LayerId(safe));
  }

  /** A resource: its id one level deep, its body deeper. */
  lemma ResourceBlock(block: seq<string>, id: string)
    requires block != [] && block[0] == "    " + id + ":"
    requires |id| > 0 && id[0] != ' '
    requires forall i :: 1 <= i < |block| ==> |block[i]| > 4 && block[i][4] == ' '
    ensures NestedKeys(block) == [id]
  {
    assert block == [block[0]] + block[1..];
    NestedKeysAppend([block[0]], block[1..]);
    NestedKeysDeeper(block[1..]);
    NestedKeyOf(id);
  }
}
